/** The batch loop shared by scripts/update-headlines.js and
    scripts/update-headlines-function.js: every company row without a headline
    but with a website is visited, and its headline is written when the
    per-site extraction yields a non-empty text. The two scripts differ only
    in that extraction, which is a parameter here. */
module HeadlineRows {
  import opened Wrappers
  import opened Text

  /** A row of `select('id, name, website, headline')`; `None` is `null`. */
  datatype Row = Row(id: string, name: string, website: Option<string>, headline: Option<string>)

  /** Neither skip applies: the headline is falsy and the website truthy. */
  predicate NeedsHeadline(row: Row) {
    !Truthy(row.headline) && Truthy(row.website)
  }

  /** `update({ headline }).eq('id', id)`. */
  datatype HeadlineUpdate = HeadlineUpdate(id: string, headline: string)

  /** The websites the loop visits, in order, and the updates it issues. */
  datatype Plan = Plan(visited: seq<string>, updates: seq<HeadlineUpdate>)

  /** The loop over `rows`, where `headlineFor(name, website)` is the text the
      extraction yields for a row (`None` for `null`). A failed update is only
      logged, so the plan does not depend on the answers to the updates. */
  function PlanUpdates(rows: seq<Row>, headlineFor: (string, string) -> Option<string>): (r: Plan)
    ensures |r.updates| <= |r.visited| <= |rows|
    ensures forall w :: w in r.visited <==>
      exists i :: 0 <= i < |rows| && NeedsHeadline(rows[i]) && rows[i].website.value == w
    ensures forall u :: u in r.updates <==>
      exists i :: 0 <= i < |rows| && NeedsHeadline(rows[i])
        && Truthy(headlineFor(rows[i].name, rows[i].website.value))
        && u == HeadlineUpdate(rows[i].id, headlineFor(rows[i].name, rows[i].website.value).value)
    ensures r.updates == [] <==> forall i :: 0 <= i < |rows| && NeedsHeadline(rows[i]) ==>
      !Truthy(headlineFor(rows[i].name, rows[i].website.value))
  {
    if |rows| == 0 then Plan([], [])
    else
      var rest := PlanUpdates(rows[1..], headlineFor);
      var row := rows[0];
      assert forall i :: 1 <= i < |rows| ==> rows[i] == rows[1..][i - 1];
      if !NeedsHeadline(row) then rest
      else
        var h := headlineFor(row.name, row.website.value);
        Plan([row.website.value] + rest.visited,
             (if Truthy(h) then [HeadlineUpdate(row.id, h.value)] else []) + rest.updates)
  }

  /** Every update the loop issues carries a non-empty headline. */
  lemma UpdatesAreNonEmpty(rows: seq<Row>, headlineFor: (string, string) -> Option<string>)
    ensures forall j :: 0 <= j < |PlanUpdates(rows, headlineFor).updates| ==>
      PlanUpdates(rows, headlineFor).updates[j].headline != ""
  {
    var us := PlanUpdates(rows, headlineFor).updates;
    forall j | 0 <= j < |us|
      ensures us[j].headline != ""
    {
      assert us[j] in us;
    }
  }

  /** One update applied to the table: every row with that id gets the
      headline. */
  function ApplyUpdate(rows: seq<Row>, u: HeadlineUpdate): (r: seq<Row>)
    ensures |r| == |rows|
    ensures forall i :: 0 <= i < |rows| ==>
      r[i] == if rows[i].id == u.id then rows[i].(headline := Some(u.headline)) else rows[i]
  {
    seq(|rows|, i requires 0 <= i < |rows| =>
      if rows[i].id == u.id then rows[i].(headline := Some(u.headline)) else rows[i])
  }

  /** The updates applied in order, each one succeeding. */
  function ApplyAll(rows: seq<Row>, us: seq<HeadlineUpdate>): seq<Row>
    decreases |us|
  {
    if |us| == 0 then rows else ApplyAll(ApplyUpdate(rows, us[0]), us[1..])
  }

  /** Applying non-empty headlines: the ids, names and websites stay, a row
      whose id was updated ends with a truthy headline, and a row whose id was
      not is unchanged. */
  lemma {:induction false} ApplyAllEffect(rows: seq<Row>, us: seq<HeadlineUpdate>)
    requires forall j :: 0 <= j < |us| ==> us[j].headline != ""
    ensures |ApplyAll(rows, us)| == |rows|
    ensures forall i :: 0 <= i < |rows| ==>
      ApplyAll(rows, us)[i].(headline := rows[i].headline) == rows[i]
    ensures forall i :: 0 <= i < |rows| && (exists j :: 0 <= j < |us| && us[j].id == rows[i].id) ==>
      Truthy(ApplyAll(rows, us)[i].headline)
    ensures forall i :: 0 <= i < |rows| && (forall j :: 0 <= j < |us| ==> us[j].id != rows[i].id) ==>
      ApplyAll(rows, us)[i] == rows[i]
    decreases |us|
  {
    if |us| > 0 {
      var next := ApplyUpdate(rows, us[0]);
      ApplyAllEffect(next, us[1..]);
      forall i | 0 <= i < |rows| && (exists j :: 0 <= j < |us| && us[j].id == rows[i].id)
        ensures Truthy(ApplyAll(rows, us)[i].headline)
      {
        var j :| 0 <= j < |us| && us[j].id == rows[i].id;
        if j > 0 {
          assert us[1..][j - 1].id == next[i].id;
        }
      }
      forall i | 0 <= i < |rows| && (forall j :: 0 <= j < |us| ==> us[j].id != rows[i].id)
        ensures ApplyAll(rows, us)[i] == rows[i]
      {
        assert us[0].id != rows[i].id;
        forall j | 0 <= j < |us[1..]|
          ensures us[1..][j].id != next[i].id
        {
          assert us[j + 1].id != rows[i].id;
        }
      }
    }
  }

  /** Running the loop again after all its updates succeeded issues no
      update: every row it would write was written with a non-empty headline
      and is now skipped, and every other row still yields nothing. */
  lemma SecondRunUpdatesNothing(rows: seq<Row>, headlineFor: (string, string) -> Option<string>)
    ensures PlanUpdates(ApplyAll(rows, PlanUpdates(rows, headlineFor).updates), headlineFor).updates == []
  {
    var us := PlanUpdates(rows, headlineFor).updates;
    var after := ApplyAll(rows, us);
    UpdatesAreNonEmpty(rows, headlineFor);
    ApplyAllEffect(rows, us);
    forall i | 0 <= i < |after| && NeedsHeadline(after[i])
      ensures !Truthy(headlineFor(after[i].name, after[i].website.value))
    {
      assert after[i].(headline := rows[i].headline) == rows[i];
      assert forall j :: 0 <= j < |us| ==> us[j].id != rows[i].id;
      assert after[i] == rows[i];
      forall u | u in us
        ensures u.id != rows[i].id
      {
        var j :| 0 <= j < |us| && us[j] == u;
      }
      var h := headlineFor(rows[i].name, rows[i].website.value);
      var u := HeadlineUpdate(rows[i].id, h.GetOr(""));
      assert Truthy(h) ==> u in us;
    }
  }
}
