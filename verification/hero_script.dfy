/** scripts/update-headlines.js: the hero text picked from a company's page
    by trying a fixed list of selectors, then a heading fallback, and the
    headline update that follows. The page is abstracted to the elements each
    selector matches; the browser is a parameter. */
module HeroScript {
  import opened Wrappers
  import opened Text
  import HeadlineRows

  /** A matched element: whether it is rendered (`offsetParent !== null`) and
      its `textContent`. */
  datatype Element = Element(visible: bool, text: string)

  /** The selectors tried, in order. */
  const Selectors: seq<string> := [
    "header h1", ".hero h1", "#hero h1", "[class*=\"hero\"] h1",
    "header h2", ".hero h2", "#hero h2", "[class*=\"hero\"] h2",
    ".tagline", "#tagline", "[class*=\"tagline\"]",
    "main h1", "h1",
    ".headline", "#headline", "[class*=\"headline\"]",
    ".slogan", "#slogan", "[class*=\"slogan\"]"]

  /** The selector tried when none of `Selectors` yields a text. */
  const FallbackSelector := "h1, h2, h3"

  /** An element is taken when it is rendered and its trimmed text is longer
      than 5 and shorter than 200 characters. */
  predicate Qualifies(e: Element) {
    e.visible && 5 < |Trim(e.text)| < 200
  }

  /** The trimmed text of the first qualifying element of `es`. */
  function FirstQualifying(es: seq<Element>): Option<string> {
    if |es| == 0 then None
    else if Qualifies(es[0]) then Some(Trim(es[0].text))
    else FirstQualifying(es[1..])
  }

  /** `FirstQualifying` finds nothing exactly when no element qualifies. */
  lemma {:induction false} FirstQualifyingNone(es: seq<Element>)
    ensures FirstQualifying(es).None? <==> forall i :: 0 <= i < |es| ==> !Qualifies(es[i])
  {
    if |es| > 0 && !Qualifies(es[0]) {
      FirstQualifyingNone(es[1..]);
      assert forall i :: 1 <= i < |es| ==> es[i] == es[1..][i - 1];
    }
  }

  /** What `FirstQualifying` finds is the text of a qualifying element
      before which none qualifies. */
  lemma {:induction false} FirstQualifyingWitness(es: seq<Element>)
    requires FirstQualifying(es).Some?
    ensures exists i :: (0 <= i < |es| && Qualifies(es[i])
      && FirstQualifying(es).value == Trim(es[i].text)
      && forall j :: 0 <= j < i ==> !Qualifies(es[j]))
  {
    if !Qualifies(es[0]) {
      FirstQualifyingWitness(es[1..]);
      var t := es[1..];
      var i :| 0 <= i < |t| && Qualifies(t[i]) && FirstQualifying(t).value == Trim(t[i].text)
        && forall j :: 0 <= j < i ==> !Qualifies(t[j]);
      assert es[i + 1] == t[i];
      forall j | 0 <= j < i + 1
        ensures !Qualifies(es[j])
      {
        if j > 0 {
          assert es[j] == t[j - 1];
        }
      }
    }
  }

  /** Both halves together: nothing is found exactly when no element
      qualifies, and otherwise the first qualifying element's text is. */
  lemma FirstQualifyingMeaning(es: seq<Element>)
    ensures FirstQualifying(es).None? <==> forall i :: 0 <= i < |es| ==> !Qualifies(es[i])
    ensures FirstQualifying(es).Some? ==> exists i :: (0 <= i < |es| && Qualifies(es[i])
      && FirstQualifying(es).value == Trim(es[i].text)
      && forall j :: 0 <= j < i ==> !Qualifies(es[j]))
  {
    FirstQualifyingNone(es);
    if FirstQualifying(es).Some? {
      FirstQualifyingWitness(es);
    }
  }

  /** A taken text is trimmed and within the length bounds. */
  lemma FirstQualifyingShape(es: seq<Element>)
    requires FirstQualifying(es).Some?
    ensures IsTrimmed(FirstQualifying(es).value)
    ensures 5 < |FirstQualifying(es).value| < 200
  {
    FirstQualifyingMeaning(es);
  }

  /** The first qualifying element of two lists in a row is that of the
      first list when it has one. */
  lemma {:induction false} FirstQualifyingAppend(a: seq<Element>, b: seq<Element>)
    ensures FirstQualifying(a + b) == if FirstQualifying(a).Some? then FirstQualifying(a) else FirstQualifying(b)
  {
    if |a| > 0 {
      FirstQualifyingAppend(a[1..], b);
      assert (a + b)[0] == a[0];
      assert (a + b)[1..] == a[1..] + b;
    } else {
      assert a + b == b;
    }
  }

  /** The elements matched by each of `sels` in turn, in document order. */
  function Matches(query: string -> seq<Element>, sels: seq<string>): seq<Element>
    decreases |sels|
  {
    if |sels| == 0 then [] else Matches(query, sels[..|sels| - 1]) + query(sels[|sels| - 1])
  }

  /** Every element considered, in the order the script considers them. */
  function Candidates(query: string -> seq<Element>): seq<Element> {
    Matches(query, Selectors + [FallbackSelector])
  }

  /** The text the page yields: the first qualifying candidate. */
  function HeroText(query: string -> seq<Element>): (r: Option<string>)
    ensures r.Some? ==> IsTrimmed(r.value) && 5 < |r.value| < 200
    ensures r.None? <==> forall i :: 0 <= i < |Candidates(query)| ==> !Qualifies(Candidates(query)[i])
  {
    FirstQualifyingMeaning(Candidates(query));
    FirstQualifying(Candidates(query))
  }

  /** The inner loop of the page evaluation: the matched elements in order,
      the first rendered one with a text of acceptable length wins. */
  method FirstQualifyingIn(es: seq<Element>) returns (r: Option<string>)
    ensures r == FirstQualifying(es)
    ensures r.Some? ==> exists k :: 0 <= k < |es| && Qualifies(es[k]) && r.value == Trim(es[k].text)
  {
    var k := 0;
    while k < |es|
      invariant 0 <= k <= |es|
      invariant FirstQualifying(es[..k]).None?
    {
      var t := Trim(es[k].text);
      if es[k].visible && t != "" && |t| > 5 && |t| < 200 {
        FirstQualifyingAppend(es[..k], es[k..]);
        assert es[..k] + es[k..] == es;
        return Some(t);
      }
      FirstQualifyingAppend(es[..k], [es[k]]);
      assert es[..k + 1] == es[..k] + [es[k]];
      k := k + 1;
    }
    assert es[..k] == es;
    return None;
  }

  /** The page evaluation as the script writes it: selectors in order, each
      searched with the inner loop; then the same over the fallback
      headings. */
  method ExtractHeroText(query: string -> seq<Element>) returns (r: Option<string>)
    ensures r == HeroText(query)
    ensures r.Some? ==> exists s, k :: (0 <= s <= |Selectors| && 0 <= k < |query((Selectors + [FallbackSelector])[s])|
      && Qualifies(query((Selectors + [FallbackSelector])[s])[k])
      && r.value == Trim(query((Selectors + [FallbackSelector])[s])[k].text))
  {
    var all := Selectors + [FallbackSelector];
    var s := 0;
    while s < |all|
      invariant 0 <= s <= |all|
      invariant FirstQualifying(Matches(query, all[..s])).None?
    {
      var es := query(all[s]);
      assert all[..s + 1][..s] == all[..s];
      FirstQualifyingAppend(Matches(query, all[..s]), es);
      r := FirstQualifyingIn(es);
      if r.Some? {
        PrefixDecides(query, all, s + 1);
        return;
      }
      s := s + 1;
    }
    assert all[..s] == all;
    return None;
  }

  /** Once the selectors up to `n` yield a text, the later ones do not
      matter. */
  lemma PrefixDecides(query: string -> seq<Element>, all: seq<string>, n: nat)
    requires all == Selectors + [FallbackSelector]
    requires n <= |all|
    requires FirstQualifying(Matches(query, all[..n])).Some?
    ensures HeroText(query) == FirstQualifying(Matches(query, all[..n]))
  {
    MatchesAppend(query, all[..n], all[n..]);
    assert all[..n] + all[n..] == all;
    FirstQualifyingAppend(Matches(query, all[..n]), Matches(query, all[n..]));
  }

  lemma {:induction false} MatchesAppend(query: string -> seq<Element>, a: seq<string>, b: seq<string>)
    ensures Matches(query, a + b) == Matches(query, a) + Matches(query, b)
    decreases |b|
  {
    if |b| > 0 {
      var b' := b[..|b| - 1];
      MatchesAppend(query, a, b');
      assert (a + b)[..|a + b| - 1] == a + b';
      assert (a + b)[|a + b| - 1] == b[|b| - 1];
    } else {
      assert a + b == a;
    }
  }

  /** A qualifying element under an earlier selector wins over anything
      under a later one, including the fallback headings. */
  lemma EarlierSelectorWins(query: string -> seq<Element>, i: nat, e: Element)
    requires i < |Selectors| && e in query(Selectors[i]) && Qualifies(e)
    ensures HeroText(query).Some?
    ensures HeroText(query) == FirstQualifying(Matches(query, Selectors[..i + 1]))
  {
    var all := Selectors + [FallbackSelector];
    assert all[..i + 1] == Selectors[..i + 1];
    assert all[..i + 1][..i] == all[..i];
    assert all[..i + 1][i] == Selectors[i];
    FirstQualifyingMeaning(query(Selectors[i]));
    FirstQualifyingAppend(Matches(query, all[..i]), query(Selectors[i]));
    PrefixDecides(query, all, i + 1);
  }

  /** `extractHeroText(url)`, where `load(url)` is the page's selector
      matches, or `None` when launching, navigating or evaluating fails. */
  function HeroTextAt(load: string -> Option<string -> seq<Element>>, url: string): (r: Option<string>)
    ensures r.Some? ==> load(url).Some? && IsTrimmed(r.value) && 5 < |r.value| < 200
  {
    match load(url)
    case None => None
    case Some(query) => HeroText(query)
  }

  /** `updateCompanyHeadlines`: nothing when the row query fails, otherwise
      the shared loop with the hero text as the extraction. */
  function UpdateHeadlines(fetched: Result<seq<HeadlineRows.Row>, string>,
                           load: string -> Option<string -> seq<Element>>): (r: HeadlineRows.Plan)
    ensures fetched.Err? ==> r == HeadlineRows.Plan([], [])
    ensures forall u :: u in r.updates ==> IsTrimmed(u.headline) && 5 < |u.headline| < 200
    ensures fetched.Ok? ==> forall u :: u in r.updates <==>
      exists i :: (0 <= i < |fetched.value| && HeadlineRows.NeedsHeadline(fetched.value[i])
        && HeroTextAt(load, fetched.value[i].website.value).Some?
        && u == HeadlineRows.HeadlineUpdate(fetched.value[i].id, HeroTextAt(load, fetched.value[i].website.value).value))
  {
    match fetched
    case Err(_) => HeadlineRows.Plan([], [])
    case Ok(rows) => HeadlineRows.PlanUpdates(rows, (name, website) => HeroTextAt(load, website))
  }
}
