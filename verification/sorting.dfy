/** The dashboard's sort: the sort-header state machine and the keyed,
    direction-aware comparator handed to the runtime's stable
    `Array.prototype.sort` (src/App.jsx). The runtime sort is modelled as a
    stable insertion sort; `SortIsTheStableSort` shows that any stable sort
    gives the same list. */
module Sorting {
  import opened Text
  import opened Records

  /** The columns whose header can be clicked. */
  datatype SortKey = Name | Headline | Founded

  datatype Direction = Asc | Desc

  /** The `sortConfig` state. */
  datatype SortConfig = SortConfig(key: SortKey, direction: Direction)

  /** The state the dashboard starts in: by name, ascending. */
  const InitialSort: SortConfig := SortConfig(Name, Asc)

  /** `handleSort(key)`: clicking the active column while ascending makes it
      descending, clicking it while descending makes it ascending again, and
      clicking any other column sorts by that column ascending. */
  function HandleSort(cur: SortConfig, key: SortKey): (r: SortConfig)
    ensures r.key == key
    ensures cur.key == key && cur.direction == Asc ==> r.direction == Desc
    ensures cur.key == key && cur.direction == Desc ==> r.direction == Asc
    ensures cur.key != key ==> r.direction == Asc
  {
    SortConfig(key, if cur.key == key && cur.direction == Asc then Desc else Asc)
  }

  /** Clicking the active column twice restores the configuration. */
  lemma HandleSortTwice(cur: SortConfig)
    ensures HandleSort(HandleSort(cur, cur.key), cur.key) == cur
  {
  }

  /** Clicking a new column twice leaves it sorted descending. */
  lemma HandleSortNewColumnTwice(cur: SortConfig, key: SortKey)
    requires cur.key != key
    ensures HandleSort(HandleSort(cur, key), key) == SortConfig(key, Desc)
  {
  }

  /** The value a company is compared on. Names and headlines are strings and
      the founding year is a number; each sort key yields one kind only. */
  datatype KeyValue = Str(s: string) | Int(n: int)

  /** `company[sortConfig.key]`. */
  function KeyOf(c: Company, key: SortKey): KeyValue {
    match key
    case Name => Str(c.name)
    case Headline => Str(c.headline)
    case Founded => Int(c.founded)
  }

  /** JavaScript `<` between two key values: character order on strings,
      numeric order on numbers. Mixed kinds never meet under one sort key;
      numbers are put first only to make the order total. */
  predicate KeyLess(a: KeyValue, b: KeyValue) {
    match (a, b)
    case (Str(x), Str(y)) => LexLess(x, y)
    case (Int(x), Int(y)) => x < y
    case (Int(_), Str(_)) => true
    case (Str(_), Int(_)) => false
  }

  lemma KeyLessIrreflexive(a: KeyValue)
    ensures !KeyLess(a, a)
  {
    if a.Str? {
      LexLessIrreflexive(a.s);
    }
  }

  lemma KeyLessTransitive(a: KeyValue, b: KeyValue, c: KeyValue)
    requires KeyLess(a, b) && KeyLess(b, c)
    ensures KeyLess(a, c)
  {
    if a.Str? && b.Str? && c.Str? {
      LexLessTransitive(a.s, b.s, c.s);
    }
  }

  lemma KeyLessTotal(a: KeyValue, b: KeyValue)
    ensures a == b || KeyLess(a, b) || KeyLess(b, a)
  {
    if a.Str? && b.Str? {
      LexLessTotal(a.s, b.s);
    }
  }

  /** The comparator passed to `filtered.sort`: -1, 1 or 0 as in the dashboard page,
      with the two non-zero answers swapped for `'desc'`. */
  function Compare(a: Company, b: Company, cfg: SortConfig): int {
    var x := KeyOf(a, cfg.key);
    var y := KeyOf(b, cfg.key);
    if KeyLess(x, y) then (if cfg.direction == Asc then -1 else 1)
    else if KeyLess(y, x) then (if cfg.direction == Asc then 1 else -1)
    else 0
  }

  /** `a` belongs strictly before `b` under `cfg`. */
  predicate Lt(a: Company, b: Company, cfg: SortConfig) {
    if cfg.direction == Asc then KeyLess(KeyOf(a, cfg.key), KeyOf(b, cfg.key))
    else KeyLess(KeyOf(b, cfg.key), KeyOf(a, cfg.key))
  }

  /** The comparator answers negative, zero or positive exactly when its first
      argument belongs before, level with or after its second. */
  lemma CompareMeaning(a: Company, b: Company, cfg: SortConfig)
    ensures Compare(a, b, cfg) < 0 <==> Lt(a, b, cfg)
    ensures Compare(a, b, cfg) == 0 <==> KeyOf(a, cfg.key) == KeyOf(b, cfg.key)
    ensures Compare(a, b, cfg) > 0 <==> Lt(b, a, cfg)
  {
    var x := KeyOf(a, cfg.key);
    var y := KeyOf(b, cfg.key);
    KeyLessTotal(x, y);
    KeyLessIrreflexive(x);
    if KeyLess(x, y) && KeyLess(y, x) {
      KeyLessTransitive(x, y, x);
    }
  }

  lemma LtTransitive(a: Company, b: Company, c: Company, cfg: SortConfig)
    requires Lt(a, b, cfg) && Lt(b, c, cfg)
    ensures Lt(a, c, cfg)
  {
    if cfg.direction == Asc {
      KeyLessTransitive(KeyOf(a, cfg.key), KeyOf(b, cfg.key), KeyOf(c, cfg.key));
    } else {
      KeyLessTransitive(KeyOf(c, cfg.key), KeyOf(b, cfg.key), KeyOf(a, cfg.key));
    }
  }

  lemma LtIrreflexive(a: Company, cfg: SortConfig)
    ensures !Lt(a, a, cfg)
  {
    KeyLessIrreflexive(KeyOf(a, cfg.key));
  }

  /** Key of `a` not after key of `b`: non-decreasing keys for `'asc'` and
      non-increasing keys for `'desc'`. */
  predicate InOrder(a: Company, b: Company, cfg: SortConfig) {
    if cfg.direction == Asc then
      KeyOf(a, cfg.key) == KeyOf(b, cfg.key) || KeyLess(KeyOf(a, cfg.key), KeyOf(b, cfg.key))
    else
      KeyOf(a, cfg.key) == KeyOf(b, cfg.key) || KeyLess(KeyOf(b, cfg.key), KeyOf(a, cfg.key))
  }

  /** Every pair of positions is in order. */
  predicate Sorted(s: seq<Company>, cfg: SortConfig) {
    forall i, j :: 0 <= i < j < |s| ==> InOrder(s[i], s[j], cfg)
  }

  /** The companies of `s` whose key equals `k`, in their order in `s`. A sort
      is stable when it keeps every such tie group in input order. */
  function Ties(s: seq<Company>, key: SortKey, k: KeyValue): seq<Company> {
    if |s| == 0 then [] else (if KeyOf(s[0], key) == k then [s[0]] else []) + Ties(s[1..], key, k)
  }

  lemma {:induction false} TiesAppend(a: seq<Company>, b: seq<Company>, key: SortKey)
    ensures forall k :: Ties(a + b, key, k) == Ties(a, key, k) + Ties(b, key, k)
    decreases |a|
  {
    if |a| > 0 {
      TiesAppend(a[1..], b, key);
      assert (a + b)[1..] == a[1..] + b;
    } else {
      assert a + b == b;
    }
  }

  /** Inserts `x` into the sorted list `s` after every company that does not
      belong strictly after it, so `x` follows its ties. */
  function Insert(s: seq<Company>, x: Company, cfg: SortConfig): seq<Company> {
    if |s| == 0 then [x]
    else if Compare(x, s[0], cfg) < 0 then [x] + s
    else [s[0]] + Insert(s[1..], x, cfg)
  }

  lemma {:induction false} InsertPermutes(s: seq<Company>, x: Company, cfg: SortConfig)
    ensures multiset(Insert(s, x, cfg)) == multiset(s) + multiset{x}
  {
    if |s| > 0 && Compare(x, s[0], cfg) >= 0 {
      InsertPermutes(s[1..], x, cfg);
      assert s == [s[0]] + s[1..];
    }
  }

  lemma {:induction false} InsertSorted(s: seq<Company>, x: Company, cfg: SortConfig)
    requires Sorted(s, cfg)
    ensures Sorted(Insert(s, x, cfg), cfg)
  {
    if |s| == 0 {
    } else if Compare(x, s[0], cfg) < 0 {
      CompareMeaning(x, s[0], cfg);
      var r := [x] + s;
      forall i, j | 0 <= i < j < |r|
        ensures InOrder(r[i], r[j], cfg)
      {
        if i == 0 && j > 1 {
          assert InOrder(s[0], s[j - 1], cfg);
          if !(KeyOf(s[0], cfg.key) == KeyOf(s[j - 1], cfg.key)) {
            LtTransitive(x, s[0], s[j - 1], cfg);
          }
        }
      }
    } else {
      CompareMeaning(x, s[0], cfg);
      KeyLessTotal(KeyOf(x, cfg.key), KeyOf(s[0], cfg.key));
      InsertSorted(s[1..], x, cfg);
      InsertPermutes(s[1..], x, cfg);
      var t := Insert(s[1..], x, cfg);
      var r := [s[0]] + t;
      forall i, j | 0 <= i < j < |r|
        ensures InOrder(r[i], r[j], cfg)
      {
        if i == 0 {
          assert r[j] in multiset(t);
          assert r[j] in multiset(s[1..]) || r[j] == x;
          if r[j] != x {
            var m :| 0 <= m < |s[1..]| && s[1..][m] == r[j];
            assert InOrder(s[0], s[m + 1], cfg);
          }
        } else {
          assert r[i] == t[i - 1] && r[j] == t[j - 1];
        }
      }
    }
  }

  lemma {:induction false} InsertStable(s: seq<Company>, x: Company, cfg: SortConfig)
    requires Sorted(s, cfg)
    ensures forall k :: Ties(Insert(s, x, cfg), cfg.key, k) == Ties(s, cfg.key, k) + Ties([x], cfg.key, k)
  {
    if |s| == 0 {
    } else if Compare(x, s[0], cfg) < 0 {
      CompareMeaning(x, s[0], cfg);
      TiesAppend([x], s, cfg.key);
      forall k
        ensures Ties(Insert(s, x, cfg), cfg.key, k) == Ties(s, cfg.key, k) + Ties([x], cfg.key, k)
      {
        if KeyOf(x, cfg.key) == k {
          TiesNoneAfterStrictlyEarlier(s, x, cfg);
        }
      }
    } else {
      InsertStable(s[1..], x, cfg);
      assert Insert(s, x, cfg) == [s[0]] + Insert(s[1..], x, cfg);
      TiesAppend([s[0]], Insert(s[1..], x, cfg), cfg.key);
      TiesAppend([s[0]], s[1..], cfg.key);
      assert s == [s[0]] + s[1..];
    }
  }

  /** No company of a sorted list shares the key of a company that belongs
      strictly before the list's head. */
  lemma TiesNoneAfterStrictlyEarlier(s: seq<Company>, x: Company, cfg: SortConfig)
    requires Sorted(s, cfg) && |s| > 0 && Lt(x, s[0], cfg)
    ensures Ties(s, cfg.key, KeyOf(x, cfg.key)) == []
  {
    forall m | 0 <= m < |s|
      ensures KeyOf(s[m], cfg.key) != KeyOf(x, cfg.key)
    {
      LtIrreflexive(x, cfg);
      if m > 0 {
        assert InOrder(s[0], s[m], cfg);
        if KeyOf(s[0], cfg.key) != KeyOf(s[m], cfg.key) && KeyOf(s[m], cfg.key) == KeyOf(x, cfg.key) {
          LtTransitive(x, s[0], s[m], cfg);
        }
      }
    }
    TiesEmpty(s, cfg.key, KeyOf(x, cfg.key));
  }

  lemma {:induction false} TiesEmpty(s: seq<Company>, key: SortKey, k: KeyValue)
    requires forall m :: 0 <= m < |s| ==> KeyOf(s[m], key) != k
    ensures Ties(s, key, k) == []
  {
    if |s| > 0 {
      TiesEmpty(s[1..], key, k);
    }
  }

  /** `filtered.sort(comparator)` with a stable sort: the result is ordered
      by the configured key and direction, holds the same companies as many
      times each, and keeps every group of equal keys in input order. */
  function Sort(xs: seq<Company>, cfg: SortConfig): (r: seq<Company>)
    ensures Sorted(r, cfg)
    ensures multiset(r) == multiset(xs)
    ensures |r| == |xs|
    ensures forall k :: Ties(r, cfg.key, k) == Ties(xs, cfg.key, k)
  {
    if |xs| == 0 then []
    else
      var init := xs[..|xs| - 1];
      var last := xs[|xs| - 1];
      var sorted := Sort(init, cfg);
      InsertSorted(sorted, last, cfg);
      InsertPermutes(sorted, last, cfg);
      InsertStable(sorted, last, cfg);
      assert xs == init + [last];
      TiesAppend(init, [last], cfg.key);
      var r := Insert(sorted, last, cfg);
      assert |r| == |multiset(r)|;
      r
  }

  lemma InOrderAntisymmetric(a: Company, b: Company, cfg: SortConfig)
    requires InOrder(a, b, cfg) && InOrder(b, a, cfg)
    ensures KeyOf(a, cfg.key) == KeyOf(b, cfg.key)
  {
    var x := KeyOf(a, cfg.key);
    var y := KeyOf(b, cfg.key);
    if x != y {
      KeyLessTransitive(x, y, x);
      KeyLessIrreflexive(x);
    }
  }

  /** The head of a sorted list is in order with every member of the list. */
  lemma HeadInOrder(s: seq<Company>, c: Company, cfg: SortConfig)
    requires Sorted(s, cfg) && c in multiset(s)
    ensures InOrder(s[0], c, cfg)
  {
    var j :| 0 <= j < |s| && s[j] == c;
    if j > 0 {
      assert InOrder(s[0], s[j], cfg);
    }
  }

  /** Two sorted lists holding the same companies and agreeing on every tie
      group start with the same company. */
  lemma SameHead(a: seq<Company>, b: seq<Company>, cfg: SortConfig)
    requires Sorted(a, cfg) && Sorted(b, cfg) && |a| > 0 && |b| > 0
    requires multiset(a) == multiset(b)
    requires forall k :: Ties(a, cfg.key, k) == Ties(b, cfg.key, k)
    ensures a[0] == b[0]
  {
    assert a[0] in multiset(b) && b[0] in multiset(a);
    HeadInOrder(a, b[0], cfg);
    HeadInOrder(b, a[0], cfg);
    InOrderAntisymmetric(a[0], b[0], cfg);
    var k0 := KeyOf(a[0], cfg.key);
    assert Ties(a, cfg.key, k0) == [a[0]] + Ties(a[1..], cfg.key, k0);
    assert Ties(b, cfg.key, k0) == [b[0]] + Ties(b[1..], cfg.key, k0);
    assert a[0] == Ties(a, cfg.key, k0)[0];
    assert b[0] == Ties(b, cfg.key, k0)[0];
  }

  /** Dropping a common head keeps the tie groups equal. */
  lemma SameTailTies(a: seq<Company>, b: seq<Company>, cfg: SortConfig)
    requires |a| > 0 && |b| > 0 && a[0] == b[0]
    requires forall k :: Ties(a, cfg.key, k) == Ties(b, cfg.key, k)
    ensures forall k :: Ties(a[1..], cfg.key, k) == Ties(b[1..], cfg.key, k)
  {
    forall k
      ensures Ties(a[1..], cfg.key, k) == Ties(b[1..], cfg.key, k)
    {
      var h := if KeyOf(a[0], cfg.key) == k then [a[0]] else [];
      assert Ties(a, cfg.key, k) == h + Ties(a[1..], cfg.key, k);
      assert Ties(b, cfg.key, k) == h + Ties(b[1..], cfg.key, k);
      assert Ties(a[1..], cfg.key, k) == (h + Ties(a[1..], cfg.key, k))[|h|..];
      assert Ties(b[1..], cfg.key, k) == (h + Ties(b[1..], cfg.key, k))[|h|..];
    }
  }

  /** Dropping the head of a sorted list leaves a sorted list of the other
      companies. */
  lemma SortedTail(a: seq<Company>, cfg: SortConfig)
    requires Sorted(a, cfg) && |a| > 0
    ensures Sorted(a[1..], cfg)
    ensures multiset(a[1..]) == multiset(a) - multiset{a[0]}
  {
    assert a == [a[0]] + a[1..];
    assert multiset(a) == multiset{a[0]} + multiset(a[1..]);
  }

  /** Two lists that are both sorted, hold the same companies and agree on
      every tie group are equal: a stable sort's result is unique. */
  lemma {:induction false} StableSortUnique(a: seq<Company>, b: seq<Company>, cfg: SortConfig)
    requires Sorted(a, cfg) && Sorted(b, cfg)
    requires multiset(a) == multiset(b)
    requires forall k :: Ties(a, cfg.key, k) == Ties(b, cfg.key, k)
    ensures a == b
    decreases |a|
  {
    assert |a| == |multiset(a)| == |multiset(b)| == |b|;
    if |a| > 0 {
      SameHead(a, b, cfg);
      SameTailTies(a, b, cfg);
      SortedTail(a, cfg);
      SortedTail(b, cfg);
      StableSortUnique(a[1..], b[1..], cfg);
    }
  }

  /** Whatever stable sort the runtime uses, its result with this comparator
      is the modelled one. */
  lemma SortIsTheStableSort(xs: seq<Company>, r: seq<Company>, cfg: SortConfig)
    requires Sorted(r, cfg)
    requires multiset(r) == multiset(xs)
    requires forall k :: Ties(r, cfg.key, k) == Ties(xs, cfg.key, k)
    ensures r == Sort(xs, cfg)
  {
    StableSortUnique(r, Sort(xs, cfg), cfg);
  }
}
