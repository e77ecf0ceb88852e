/** The dashboard page of src/App.jsx: the static funding table merged onto
    every fetched row, and the visible list derived from the fetched rows, the
    filter state and the sort configuration. */
module Dashboard {
  import opened Wrappers
  import opened Records
  import opened Filters
  import opened Sorting

  /** The page's static `fundingData` table, in tenths of a million. */
  const FundingTable: map<string, Amount> := map[
    "Hyperbolic" := Amount(200),
    "RunPod" := Amount(385),
    "Coreweave" := Amount(86000),
    "Fal.ai" := Amount(720),
    "Akash" := Amount(320),
    "Deepinfra" := Amount(240),
    "Openrouter" := Amount(35),
    "Function Network" := Amount(75),
    "Hyperstack" := Amount(150),
    "Aethir Node service" := Amount(50),
    "Lambda Labs" := Amount(750),
    "OpenAgents" := Amount(12),
    "Replicate" := Amount(520),
    "Datacrunch.io" := Amount(87),
    "Together.ai" := Amount(5340),
    "OVH Cloud" := Amount(2500)]

  /** `fundingData[name] || null`: an exact, case-sensitive lookup in which a
      falsy (zero) figure also reads as `null`. */
  function FundingFor(table: map<string, Amount>, name: string): Option<Amount> {
    if name in table && AmountTruthy(table[name]) then Some(table[name]) else None
  }

  /** The `data.map(...)` enrichment: every row keeps all its fields except
      `funding_amount`, which is the table's figure for exactly that name, or
      `null` when the name is missing or its figure is zero. */
  function Enrich(rows: seq<Company>, table: map<string, Amount>): (r: seq<Company>)
    ensures |r| == |rows|
    ensures forall i :: 0 <= i < |rows| ==> r[i].(fundingAmount := rows[i].fundingAmount) == rows[i]
    ensures forall i :: 0 <= i < |rows| ==>
      (r[i].fundingAmount.Some? <==> rows[i].name in table && AmountTruthy(table[rows[i].name]))
    ensures forall i :: 0 <= i < |rows| && r[i].fundingAmount.Some? ==>
      r[i].fundingAmount.value == table[rows[i].name]
  {
    seq(|rows|, i requires 0 <= i < |rows| => rows[i].(fundingAmount := FundingFor(table, rows[i].name)))
  }

  /** The stored `funding_amount` of a row is never trusted: enriching twice
      is enriching once. */
  lemma EnrichIdempotent(rows: seq<Company>, table: map<string, Amount>)
    ensures Enrich(Enrich(rows, table), table) == Enrich(rows, table)
  {
  }

  /** The lookup is case-sensitive: "RunPod" gets 38.5 and "runpod" gets
      nothing. */
  lemma EnrichIsCaseSensitive(c: Company)
    ensures c.name == "RunPod" ==> Enrich([c], FundingTable)[0].fundingAmount == Some(Amount(385))
    ensures c.name == "runpod" ==> Enrich([c], FundingTable)[0].fundingAmount == None
  {
    assert "runpod" !in FundingTable;
  }

  /** The company list the page holds, its loading flag, and the two pieces
      of view state. */
  datatype PageState = PageState(companies: seq<Company>, loading: bool, filters: FilterSet, sort: SortConfig)

  const InitialPage: PageState := PageState([], true, InitialFilters, InitialSort)

  /** `fetchCompanies` given the backend's answer: the enriched rows replace
      the list on success; on failure the list is kept. Loading ends either
      way. */
  function FetchCompanies(st: PageState, reply: Result<seq<Company>, string>): (r: PageState)
    ensures !r.loading
    ensures r.filters == st.filters && r.sort == st.sort
    ensures reply.Ok? ==> r.companies == Enrich(reply.value, FundingTable)
    ensures reply.Err? ==> r.companies == st.companies
  {
    match reply
    case Ok(rows) => st.(companies := Enrich(rows, FundingTable), loading := false)
    case Err(_) => st.(loading := false)
  }

  /** Filtering then sorting never separates tie groups: the companies sharing
      key `k` after filtering are those sharing `k` before it, filtered. */
  lemma {:induction false} TiesOfKeepPassing(cs: seq<Company>, fs: FilterSet, key: SortKey, k: KeyValue)
    ensures Ties(KeepPassing(cs, fs), key, k) == KeepPassing(Ties(cs, key, k), fs)
  {
    if |cs| > 0 {
      TiesOfKeepPassing(cs[1..], fs, key, k);
      var h := if Passes(cs[0], fs) then [cs[0]] else [];
      TiesAppend(h, KeepPassing(cs[1..], fs), key);
      var t := if KeyOf(cs[0], key) == k then [cs[0]] else [];
      assert Ties(cs, key, k) == t + Ties(cs[1..], key, k);
      KeepPassingAppend(t, Ties(cs[1..], key, k), fs);
    }
  }

  lemma {:induction false} KeepPassingAppend(a: seq<Company>, b: seq<Company>, fs: FilterSet)
    ensures KeepPassing(a + b, fs) == KeepPassing(a, fs) + KeepPassing(b, fs)
  {
    if |a| > 0 {
      KeepPassingAppend(a[1..], b, fs);
      assert (a + b)[0] == a[0];
      assert (a + b)[1..] == a[1..] + b;
      if Passes(a[0], fs) {
        calc {
          KeepPassing(a + b, fs);
          [a[0]] + KeepPassing(a[1..] + b, fs);
          [a[0]] + (KeepPassing(a[1..], fs) + KeepPassing(b, fs));
          ([a[0]] + KeepPassing(a[1..], fs)) + KeepPassing(b, fs);
        }
      } else {
        calc {
          KeepPassing(a + b, fs);
          KeepPassing(a[1..] + b, fs);
        }
      }
    } else {
      assert a + b == b;
    }
  }

  /** `applyFilters`: the visible list. A company appears in it as often as in
      the input when every required flag is `true` in it and not at all
      otherwise; the list is ordered by the configured key and direction, and
      companies with equal keys keep their input order. */
  function View(cs: seq<Company>, fs: FilterSet, cfg: SortConfig): (r: seq<Company>)
    ensures |r| <= |cs|
    ensures forall c :: multiset(r)[c] == if Passes(c, fs) then multiset(cs)[c] else 0
    ensures Sorted(r, cfg)
    ensures forall k :: Ties(r, cfg.key, k) == KeepPassing(Ties(cs, cfg.key, k), fs)
  {
    var filtered := ApplyFilters(cs, fs);
    ApplyFiltersIsKeepPassing(cs, fs);
    forall k
      ensures Ties(filtered, cfg.key, k) == KeepPassing(Ties(cs, cfg.key, k), fs)
    {
      TiesOfKeepPassing(cs, fs, cfg.key, k);
    }
    Sort(filtered, cfg)
  }

  /** With no flag required the visible list is the whole list, sorted. */
  lemma ViewWithoutFilters(cs: seq<Company>, fs: FilterSet, cfg: SortConfig)
    requires !AnyActive(fs)
    ensures multiset(View(cs, fs, cfg)) == multiset(cs)
    ensures View(cs, fs, cfg) == Sort(cs, cfg)
  {
  }

  /** The list the page renders. */
  function Visible(st: PageState): seq<Company> {
    View(st.companies, st.filters, st.sort)
  }

  /** Right after the first successful fetch every row is shown, sorted by
      name in ascending character order. */
  lemma FirstLoadShowsEverything(rows: seq<Company>)
    ensures multiset(Visible(FetchCompanies(InitialPage, Ok(rows)))) == multiset(Enrich(rows, FundingTable))
    ensures Sorted(Visible(FetchCompanies(InitialPage, Ok(rows))), SortConfig(Name, Asc))
  {
    ViewWithoutFilters(Enrich(rows, FundingTable), InitialFilters, InitialSort);
  }

  /** Requiring a flag and then releasing it gives back the same visible list. */
  lemma ToggleTwiceRestoresView(st: PageState, f: Flag)
    ensures Visible(st.(filters := Toggle(Toggle(st.filters, f), f))) == Visible(st)
  {
    ToggleTwice(st.filters, f);
  }

  /** A row whose required capability is only truthy (the string "yes", the
      number 1) is not shown. */
  lemma TruthyIsNotTrue(st: PageState, c: Company, f: Flag)
    requires Active(st.filters, f)
    requires Capability(c, f) != Bool(true)
    ensures c !in Visible(st)
  {
    assert multiset(Visible(st))[c] == 0;
  }
}
