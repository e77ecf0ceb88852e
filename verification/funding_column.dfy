/** scripts/add-funding-column.js: every company whose name matches an entry
    of a fixed sample table, ignoring case, gets that entry's funding figure
    written to its row. The backend is a parameter. */
module FundingColumn {
  import opened Wrappers
  import opened Text
  import opened Records

  /** One entry of the sample table: a company name and its figure. */
  datatype Entry = Entry(name: string, amount: Amount)

  /** The sample table, in order, with figures in tenths of a million. */
  const SampleFunding: seq<Entry> := [
    Entry("Hyperbolic", Amount(250)),
    Entry("RunPod", Amount(180)),
    Entry("Coreweave", Amount(4210)),
    Entry("Fal.ai", Amount(42)),
    Entry("Akash", Amount(150)),
    Entry("Deepinfra", Amount(38)),
    Entry("Openrouter", Amount(21)),
    Entry("Function Network", Amount(75)),
    Entry("Hyperstack", Amount(120)),
    Entry("Aethir Node service", Amount(53)),
    Entry("Lambda Labs", Amount(750)),
    Entry("OpenAgents", Amount(12)),
    Entry("Replicate", Amount(520)),
    Entry("Datacrunch.io", Amount(87)),
    Entry("Together.ai", Amount(1025)),
    Entry("OVH Cloud", Amount(2500))]

  /** The `find` over the table: the first entry whose lower-cased name
      equals the lower-cased company name. */
  function FindFunding(table: seq<Entry>, name: string): (r: Option<Entry>)
    ensures r.None? <==> forall i :: 0 <= i < |table| ==> Lower(table[i].name) != Lower(name)
    ensures r.Some? ==> exists i :: (0 <= i < |table| && table[i] == r.value
      && Lower(table[i].name) == Lower(name)
      && forall j :: 0 <= j < i ==> Lower(table[j].name) != Lower(name))
  {
    if |table| == 0 then None
    else if Lower(table[0].name) == Lower(name) then Some(table[0])
    else
      var r := FindFunding(table[1..], name);
      assert forall i :: 1 <= i < |table| ==> table[i] == table[1..][i - 1];
      assert r.Some? ==> exists i :: (0 <= i < |table| && table[i] == r.value
        && Lower(table[i].name) == Lower(name)
        && forall j :: 0 <= j < i ==> Lower(table[j].name) != Lower(name)) by {
        if r.Some? {
          var i :| 0 <= i < |table[1..]| && table[1..][i] == r.value
            && Lower(table[1..][i].name) == Lower(name)
            && forall j :: 0 <= j < i ==> Lower(table[1..][j].name) != Lower(name);
          assert table[i + 1] == table[1..][i];
        }
      }
      r
  }

  /** Names that agree once lower-cased find the same entry. */
  lemma {:induction false} FindIgnoresCase(table: seq<Entry>, a: string, b: string)
    requires Lower(a) == Lower(b)
    ensures FindFunding(table, a) == FindFunding(table, b)
  {
    if |table| > 0 {
      FindIgnoresCase(table[1..], a, b);
    }
  }

  /** A company row of `select('id, name')`. */
  datatype CompanyRef = CompanyRef(id: string, name: string)

  /** `update({ funding_amount }).eq('id', id)`: only the funding column of
      rows with that id is written. */
  datatype FundingUpdate = FundingUpdate(id: string, amount: Amount)

  /** `updateFundingAmounts`: nothing when the row query fails; otherwise one
      update per matched company, in row order. A failed update is only
      logged, so later companies are still updated. */
  function PlanFunding(fetched: Result<seq<CompanyRef>, string>, table: seq<Entry>): (r: seq<FundingUpdate>)
    ensures fetched.Err? ==> r == []
    ensures fetched.Ok? ==> |r| <= |fetched.value|
    ensures fetched.Ok? ==> forall u :: u in r <==>
      exists i :: (0 <= i < |fetched.value| && FindFunding(table, fetched.value[i].name).Some?
        && u == FundingUpdate(fetched.value[i].id, FindFunding(table, fetched.value[i].name).value.amount))
  {
    match fetched
    case Err(_) => []
    case Ok(rows) => PlanRows(rows, table)
  }

  /** The loop over the fetched rows. */
  function PlanRows(rows: seq<CompanyRef>, table: seq<Entry>): (r: seq<FundingUpdate>)
    ensures |r| <= |rows|
    ensures forall u :: u in r <==>
      exists i :: (0 <= i < |rows| && FindFunding(table, rows[i].name).Some?
        && u == FundingUpdate(rows[i].id, FindFunding(table, rows[i].name).value.amount))
  {
    if |rows| == 0 then []
    else
      var rest := PlanRows(rows[1..], table);
      assert forall i :: 1 <= i < |rows| ==> rows[i] == rows[1..][i - 1];
      match FindFunding(table, rows[0].name)
      case None => rest
      case Some(e) => [FundingUpdate(rows[0].id, e.amount)] + rest
  }

  /** The updates follow the rows: planning two runs of rows one after the
      other gives the first run's updates, then the second's. */
  lemma {:induction false} PlanRowsAppend(a: seq<CompanyRef>, b: seq<CompanyRef>, table: seq<Entry>)
    ensures PlanRows(a + b, table) == PlanRows(a, table) + PlanRows(b, table)
  {
    if |a| > 0 {
      PlanRowsAppend(a[1..], b, table);
      assert (a + b)[0] == a[0];
      assert (a + b)[1..] == a[1..] + b;
    } else {
      assert a + b == b;
    }
  }

  /** Whether the stored name is "RunPod", "runpod" or "RUNPOD", the company
      gets RunPod's 18 million. */
  lemma RunPodInAnyCase(c: CompanyRef)
    requires Lower(c.name) == Lower("RunPod")
    ensures PlanFunding(Ok([c]), SampleFunding) == [FundingUpdate(c.id, Amount(180))]
  {
    assert Lower(SampleFunding[0].name) != Lower("RunPod") by {
      assert Lower(SampleFunding[0].name)[0] == 'h';
    }
    FindIgnoresCase(SampleFunding, c.name, "RunPod");
    assert FindFunding(SampleFunding, "RunPod") == Some(SampleFunding[1]);
  }
}
