/** scripts/update-headlines-function.js: the page text collected from a
    company's site, the prompt built from it, the clean-up of the completion
    service's answer, and the headline update that follows. The browser, the
    page and the completion service are parameters. */
module TaglineScript {
  import opened Wrappers
  import opened Text
  import HeadlineRows

  /** The hero containers tried, in order. */
  const HeroSelectors: seq<string> := [
    "header", ".hero", "#hero", "[class*=\"hero\"]",
    ".header", "#header", "[class*=\"header\"]",
    ".banner", "#banner", "[class*=\"banner\"]",
    ".jumbotron", "#jumbotron", "[class*=\"jumbotron\"]"]

  /** What the script reads from a loaded page: `first(sel)` is the
      `innerText` of `document.querySelector(sel)` (`None` when nothing
      matches); `headings` and `paragraphs` are the `innerText`s of the
      `h1, h2, h3` and `p` elements of `main` (or of the body without one),
      in document order; `title` is `document.title`. */
  datatype Page = Page(
    first: string -> Option<string>,
    headings: seq<string>,
    paragraphs: seq<string>,
    title: string)

  /** Each text followed by a newline, concatenated. */
  function Lines(texts: seq<string>): (r: string)
    ensures |r| >= |texts|
    ensures |texts| > 0 ==> r != ""
  {
    if |texts| == 0 then "" else texts[0] + "\n" + Lines(texts[1..])
  }

  /** A single text becomes one line. */
  lemma LinesOne(t: string)
    ensures Lines([t]) == t + "\n"
  {
    assert [t][1..] == [];
  }

  /** The lines of two runs of texts are the lines of the first run followed
      by those of the second. */
  lemma {:induction false} LinesAppend(a: seq<string>, b: seq<string>)
    ensures Lines(a + b) == Lines(a) + Lines(b)
    decreases |a|
  {
    if |a| > 0 {
      assert (a + b)[1..] == a[1..] + b;
      LinesAppend(a[1..], b);
    } else {
      assert a + b == b;
    }
  }

  /** The texts of the containers that `selectors` match, in selector order. */
  function Matched(first: string -> Option<string>, selectors: seq<string>): (r: seq<string>)
    ensures |r| <= |selectors|
    ensures forall t :: t in r <==> exists i :: 0 <= i < |selectors| && first(selectors[i]) == Some(t)
  {
    if |selectors| == 0 then []
    else
      var rest := Matched(first, selectors[1..]);
      assert forall i :: 1 <= i < |selectors| ==> selectors[i] == selectors[1..][i - 1];
      match first(selectors[0])
      case None => rest
      case Some(t) => [t] + rest
  }

  /** The `heroText += heroElement.innerText + '\n'` loop over `selectors`. */
  function HeroBlock(first: string -> Option<string>, selectors: seq<string>): (r: string)
    ensures r == "" <==> forall i :: 0 <= i < |selectors| ==> first(selectors[i]).None?
  {
    if |selectors| == 0 then ""
    else
      var rest := HeroBlock(first, selectors[1..]);
      assert forall i :: 1 <= i < |selectors| ==> selectors[i] == selectors[1..][i - 1];
      match first(selectors[0])
      case None => rest
      case Some(t) => t + "\n" + rest
  }

  /** The hero block holds the text of every matched container, each
      followed by a newline, in selector order. */
  lemma {:induction false} HeroBlockIsLines(first: string -> Option<string>, selectors: seq<string>)
    ensures HeroBlock(first, selectors) == Lines(Matched(first, selectors))
    decreases |selectors|
  {
    if |selectors| > 0 {
      HeroBlockIsLines(first, selectors[1..]);
      if first(selectors[0]).Some? {
        assert ([first(selectors[0]).value] + Matched(first, selectors[1..]))[1..] == Matched(first, selectors[1..]);
      }
    }
  }

  /** Trying two runs of selectors one after the other appends their blocks. */
  lemma {:induction false} HeroBlockAppend(first: string -> Option<string>, s: seq<string>, t: seq<string>)
    ensures HeroBlock(first, s + t) == HeroBlock(first, s) + HeroBlock(first, t)
    decreases |s|
  {
    if |s| > 0 {
      assert (s + t)[0] == s[0];
      assert (s + t)[1..] == s[1..] + t;
      HeroBlockAppend(first, s[1..], t);
    } else {
      assert s + t == t;
    }
  }

  /** The fallback: the first three headings, then the first three
      paragraphs, one per line. */
  function FallbackBlock(p: Page): string {
    Lines(Take(p.headings, 3)) + Lines(Take(p.paragraphs, 3))
  }

  /** Trimming text that ends in a non-empty trimmed `t` keeps `t` at its
      end. */
  lemma TrimKeepsTrimmedEnd(x: string, t: string)
    ensures IsTrimmed(t) && t != "" ==> |Trim(x + t)| >= |t| && Trim(x + t)[|Trim(x + t)| - |t|..] == t
  {
    if !IsTrimmed(t) || t == "" {
      return;
    }
    var s := x + t;
    var r := Trim(s);
    var a := LeadingSpace(s);
    assert s[|s| - 1] == t[|t| - 1];
    assert a + |r| == |s|;
    assert s[|x|] == t[0];
    assert a <= |x|;
    assert r == s[a..];
    assert r[|r| - |t|..] == s[|x|..] == t;
  }

  /** The hero block, or the fallback when no hero container matched. */
  function PageBody(p: Page): string {
    var hero := HeroBlock(p.first, HeroSelectors);
    if hero == "" then FallbackBlock(p) else hero
  }

  /** The text `extractWebsiteContent` returns for a loaded page: it ends
      with the page title whenever that title is itself trimmed and
      non-empty. */
  function PageText(p: Page): (r: string)
    ensures IsTrimmed(r)
    ensures IsTrimmed(p.title) && p.title != "" ==> |r| >= |p.title| && r[|r| - |p.title|..] == p.title
  {
    TrimKeepsTrimmedEnd(PageBody(p), p.title);
    Trim(PageBody(p) + p.title)
  }

  /** When some hero container matched, the page text is the matched texts,
      one per line in selector order, followed by the title, trimmed. */
  lemma PageTextFromHero(p: Page)
    requires exists i :: 0 <= i < |HeroSelectors| && p.first(HeroSelectors[i]).Some?
    ensures PageText(p) == Trim(Lines(Matched(p.first, HeroSelectors)) + p.title)
  {
    HeroBlockIsLines(p.first, HeroSelectors);
  }

  /** Some hero container matched: headings and paragraphs are not read. */
  lemma HeroMatchIgnoresBody(p: Page, headings: seq<string>, paragraphs: seq<string>, sel: string)
    requires sel in HeroSelectors && p.first(sel).Some?
    ensures PageText(p.(headings := headings, paragraphs := paragraphs)) == PageText(p)
  {
  }

  /** No hero container matched: the text is the fallback block, built from
      up to three headings and up to three paragraphs, and the title. */
  lemma NoHeroUsesFallback(p: Page)
    requires forall i :: 0 <= i < |HeroSelectors| ==> p.first(HeroSelectors[i]).None?
    ensures PageText(p) == Trim(Lines(Take(p.headings, 3)) + Lines(Take(p.paragraphs, 3)) + p.title)
  {
  }

  /** No hero container matched and the page has at least three headings
      and three paragraphs: further ones are never read. */
  lemma FallbackReadsAtMostThree(p: Page, moreHeadings: seq<string>, moreParagraphs: seq<string>)
    requires forall i :: 0 <= i < |HeroSelectors| ==> p.first(HeroSelectors[i]).None?
    requires |p.headings| >= 3 && |p.paragraphs| >= 3
    ensures PageText(p.(headings := p.headings + moreHeadings, paragraphs := p.paragraphs + moreParagraphs))
      == PageText(p)
  {
    assert Take(p.headings + moreHeadings, 3) == Take(p.headings, 3);
    assert Take(p.paragraphs + moreParagraphs, 3) == Take(p.paragraphs, 3);
  }

  /** A matched hero container with empty text still counts as a match: the
      fallback is taken only when no container matched at all. */
  lemma EmptyHeroStillCounts(p: Page)
    requires p.first("header") == Some("")
    ensures PageText(p) == Trim(HeroBlock(p.first, HeroSelectors) + p.title)
    ensures HeroBlock(p.first, HeroSelectors) != ""
  {
    assert HeroSelectors[0] == "header";
  }

  /** `extractWebsiteContent(url)`, where `load(url)` is the page or `None`
      when launching, navigating or evaluating fails. */
  function WebsiteContent(load: string -> Option<Page>, url: string): (r: Option<string>)
    ensures r.Some? <==> load(url).Some?
    ensures r.Some? ==> IsTrimmed(r.value)
  {
    match load(url)
    case None => None
    case Some(p) => Some(PageText(p))
  }

  const SnippetLength: nat := 1500

  /** The fixed parts of the prompt around the company name and the content
      snippet. */
  const PromptHead := "\nI need to extract the main tagline or hero headline from this company's website content.\nCompany name: "
  const PromptMiddle := "\n\nWebsite content:\n"
  const PromptTail := PromptAsk + PromptLength + PromptOnly + PromptElse
  const PromptAsk := "\n\nPlease identify and return ONLY the main tagline or hero headline that best represents the company's value proposition. \n"
  const PromptLength := "This should be a short, concise phrase (typically 5-15 words) that appears prominently on their homepage.\n"
  const PromptOnly := "Do not include any explanations or additional text. Return only the tagline.\n"
  const PromptElse := "If you cannot find a clear tagline, return the most suitable short phrase that could serve as a tagline.\n"

  /** The prompt sent for a company: it embeds the name and the first 1500
      characters of the content, and nothing else of the content. */
  function Prompt(name: string, content: string): (r: string)
    ensures OccursAt(r, name, |PromptHead|)
    ensures OccursAt(r, Take(content, SnippetLength), |PromptHead| + |name| + |PromptMiddle|)
    ensures |content| <= SnippetLength ==> OccursAt(r, content, |PromptHead| + |name| + |PromptMiddle|)
    ensures |r| == |PromptHead| + |name| + |PromptMiddle| + |Take(content, SnippetLength)| + |PromptTail|
  {
    var r := PromptHead + name + PromptMiddle + Take(content, SnippetLength) + PromptTail;
    assert r[|PromptHead|..|PromptHead| + |name|] == name;
    r
  }

  /** Two contents that agree on their first 1500 characters give the same
      prompt. */
  lemma PromptSeesOnlySnippet(name: string, a: string, b: string)
    requires |a| >= SnippetLength && |b| >= SnippetLength
    requires a[..SnippetLength] == b[..SnippetLength]
    ensures Prompt(name, a) == Prompt(name, b)
  {
    assert Take(a, SnippetLength) == Take(b, SnippetLength);
  }

  /** The completion's answer fields that are read: `output`, `text` and
      `completion`, each a string or absent. */
  datatype Completion = Completion(output: Option<string>, text: Option<string>, completion: Option<string>)

  /** The completion service's answer: a body with a truthy `error`, a body
      without one, or a thrown request or parse. */
  datatype ServiceReply = ServiceError | ServiceData(data: Completion) | ServiceThrew

  /** `a || b || ... || ""` over string-or-null values: the first truthy one. */
  function FirstTruthy(cands: seq<Option<string>>): (r: string)
    ensures r == "" <==> forall i :: 0 <= i < |cands| ==> !Truthy(cands[i])
    ensures r != "" ==> exists i :: (0 <= i < |cands| && cands[i] == Some(r)
      && forall j :: 0 <= j < i ==> !Truthy(cands[j]))
  {
    if |cands| == 0 then ""
    else if Truthy(cands[0]) then cands[0].value
    else
      var r := FirstTruthy(cands[1..]);
      assert forall i :: 1 <= i < |cands| ==> cands[i] == cands[1..][i - 1];
      assert r != "" ==> exists i :: (0 <= i < |cands| && cands[i] == Some(r)
        && forall j :: 0 <= j < i ==> !Truthy(cands[j])) by {
        if r != "" {
          var i :| 0 <= i < |cands[1..]| && cands[1..][i] == Some(r)
            && forall j :: 0 <= j < i ==> !Truthy(cands[1..][j]);
          assert cands[i + 1] == Some(r);
          assert forall j :: 1 <= j < i + 1 ==> cands[j] == cands[1..][j - 1];
        }
      }
      r
  }

  /** `data.output || data.text || data.completion || ""`. */
  function RawTagline(c: Completion): string {
    FirstTruthy([c.output, c.text, c.completion])
  }

  /** The text of `a` at `i` contains that of `b` at `j`, so `a` contains
      `b`'s occurrence at `i + j`. */
  lemma OccursWithin(a: string, b: string, c: string, i: nat, j: nat)
    requires OccursAt(a, b, i) && OccursAt(b, c, j)
    ensures OccursAt(a, c, i + j)
  {
    forall k | 0 <= k < |c|
      ensures a[i + j..i + j + |c|][k] == c[k]
    {
      assert a[i + j + k] == a[i..i + |b|][j + k] == b[j..j + |c|][k];
    }
  }

  /** A character absent from a text is absent from every piece of it. */
  lemma AbsentFromPiece(a: string, b: string, i: nat, ch: char)
    requires OccursAt(a, b, i) && ch !in a
    ensures ch !in b
  {
    forall k | 0 <= k < |b|
      ensures b[k] != ch
    {
      assert b[k] == a[i..i + |b|][k] == a[i + k];
    }
  }

  /** `Trim(s)` is a piece of `s`. */
  lemma TrimOccurs(s: string)
    ensures OccursAt(s, Trim(s), LeadingSpace(s))
  {
  }

  /** `BeforeFirst(s, c)` is a piece of `s` at its start. */
  lemma BeforeFirstOccurs(s: string, c: char)
    ensures OccursAt(s, BeforeFirst(s, c), 0)
  {
  }

  /** `s.includes(ch) ? s.split(ch)[0].trim() : s`. */
  function Cut(s: string, ch: char): string {
    if ch in s then Trim(BeforeFirst(s, ch)) else s
  }

  /** Where the cut text starts in `s`. */
  function CutStart(s: string, ch: char): nat {
    if ch in s then LeadingSpace(BeforeFirst(s, ch)) else 0
  }

  /** A cut is a piece of the text before the first occurrence of the
      character cut at, and no longer holds that character. */
  lemma CutOccurs(s: string, ch: char)
    ensures OccursAt(BeforeFirst(s, ch), Cut(s, ch), CutStart(s, ch))
    ensures OccursAt(s, Cut(s, ch), CutStart(s, ch))
    ensures ch !in Cut(s, ch)
  {
    var b := BeforeFirst(s, ch);
    BeforeFirstOccurs(s, ch);
    if ch in s {
      TrimOccurs(b);
      OccursWithin(s, b, Cut(s, ch), 0, CutStart(s, ch));
      AbsentFromPiece(b, Cut(s, ch), CutStart(s, ch), ch);
    } else {
      assert b == s;
    }
  }

  /** The clean-up: cut at the first `[`, then at the first line break,
      trimming each time; then trim. The result is a trimmed line taken from
      the text before the first `[`; without a `[` it is the answer's first
      line, trimmed. */
  function CleanTagline(raw: string): (r: string)
    ensures '[' !in r && '\n' !in r
    ensures IsTrimmed(r)
    ensures exists i :: OccursAt(BeforeFirst(raw, '['), r, i)
    ensures exists i :: OccursAt(raw, r, i)
    ensures '[' !in raw ==> r == Trim(BeforeFirst(raw, '\n'))
  {
    var t1 := Cut(raw, '[');
    var t2 := Cut(t1, '\n');
    var r := Trim(t2);
    CleanWithin(raw);
    CleanAbsent(raw);
    FirstLineOfBracketFree(raw);
    r
  }

  /** The first line of a text, trimmed, is a piece of that text. */
  lemma LineCutOccurs(s: string)
    ensures OccursAt(s, Trim(Cut(s, '\n')), CutStart(s, '\n') + LeadingSpace(Cut(s, '\n')))
  {
    var t := Cut(s, '\n');
    CutOccurs(s, '\n');
    TrimOccurs(t);
    OccursWithin(s, t, Trim(t), CutStart(s, '\n'), LeadingSpace(t));
  }

  /** A piece of a piece of a prefix lies in that prefix and in the whole
      text. */
  lemma PieceOfPrefix(s: string, b: string, t: string, r: string, i: nat, j: nat)
    requires OccursAt(s, b, 0) && OccursAt(b, t, i) && OccursAt(t, r, j)
    ensures exists k :: OccursAt(b, r, k)
    ensures exists k :: OccursAt(s, r, k)
  {
    OccursWithin(b, t, r, i, j);
    OccursWithin(s, b, r, 0, i + j);
    assert OccursAt(s, r, 0 + (i + j));
  }

  /** Where the cleaned answer sits: inside the text before the first `[`,
      and so inside the answer. */
  lemma CleanWithin(raw: string)
    ensures exists i :: OccursAt(BeforeFirst(raw, '['), Trim(Cut(Cut(raw, '['), '\n')), i)
    ensures exists i :: OccursAt(raw, Trim(Cut(Cut(raw, '['), '\n')), i)
  {
    var t1 := Cut(raw, '[');
    CutOccurs(raw, '[');
    LineCutOccurs(t1);
    BeforeFirstOccurs(raw, '[');
    PieceOfPrefix(raw, BeforeFirst(raw, '['), t1, Trim(Cut(t1, '\n')),
                  CutStart(raw, '['), CutStart(t1, '\n') + LeadingSpace(Cut(t1, '\n')));
  }

  /** The cleaned answer holds neither a `[` nor a line break. */
  lemma CleanAbsent(raw: string)
    ensures '[' !in Trim(Cut(Cut(raw, '['), '\n')) && '\n' !in Trim(Cut(Cut(raw, '['), '\n'))
  {
    var t1 := Cut(raw, '[');
    var t2 := Cut(t1, '\n');
    CutOccurs(raw, '[');
    CutOccurs(t1, '\n');
    TrimOccurs(t2);
    AbsentFromPiece(t1, t2, CutStart(t1, '\n'), '[');
    AbsentFromPiece(t2, Trim(t2), LeadingSpace(t2), '[');
    AbsentFromPiece(t2, Trim(t2), LeadingSpace(t2), '\n');
  }

  /** Without a `[`, the clean-up keeps the first line, trimmed. */
  lemma FirstLineOfBracketFree(raw: string)
    ensures '[' !in raw ==> Trim(Cut(Cut(raw, '['), '\n')) == Trim(BeforeFirst(raw, '\n'))
  {
    if '[' !in raw {
      assert Cut(raw, '[') == raw;
      if '\n' in raw {
        TrimIdempotent(BeforeFirst(raw, '\n'));
      }
    }
  }

  /** An answer of several lines without a citation gives its first line,
      trimmed. */
  lemma FirstLineKept(line: string, rest: string)
    requires '[' !in line && '[' !in rest && '\n' !in line
    ensures CleanTagline(line + "\n" + rest) == Trim(line)
  {
    var raw := line + "\n" + rest;
    assert raw[|line|] == '\n';
    assert raw[..|line|] == line;
    assert BeforeFirst(raw, '\n') == line;
  }

  /** The clean-up reads only the text before the first `[`: the answer is
      cleaned as that text, trimmed, would be. */
  lemma CleanSeesOnlyBeforeCitation(raw: string)
    ensures CleanTagline(raw) == CleanTagline(Cut(raw, '['))
  {
    CutOccurs(raw, '[');
  }

  /** An answer with a citation keeps only its first line before the
      citation. */
  lemma CitationDropped(line: string, citation: string)
    requires '[' !in line && '\n' !in line
    ensures CleanTagline(line + "[" + citation) == Trim(line)
  {
    var raw := line + "[" + citation;
    assert raw[|line|] == '[';
    assert BeforeFirst(raw, '[') == line by {
      assert raw[..|line|] == line;
    }
    TrimKeepsNonSpace(line, '[');
    assert '\n' !in Trim(line) by {
      TrimOccurs(line);
      AbsentFromPiece(line, Trim(line), LeadingSpace(line), '\n');
    }
    TrimIdempotent(line);
  }

  /** An answer that opens with a line break is cut at that line break and
      comes out empty, unless it also holds a `[`: the cut at `[` trims the
      leading break away first and the line survives. */
  lemma LeadingLineBreak(line: string, citation: string)
    requires '[' !in line && '\n' !in line
    ensures CleanTagline("\n" + line) == ""
    ensures CleanTagline("\n" + line + "[" + citation) == Trim(line)
  {
    var a := "\n" + line;
    assert a[0] == '\n';
    assert '[' !in a;
    assert BeforeFirst(a, '\n') == "";
    var b := a + "[" + citation;
    assert b[|a|] == '[';
    assert BeforeFirst(b, '[') == a by {
      assert b[..|a|] == a;
    }
    assert LeadingSpace(a) >= 1;
    assert Trim(a) == Trim(line) by {
      assert a[1..] == line;
      TrimDropsLeadingSpace(a);
    }
    TrimKeepsNonSpace(line, '[');
    assert '\n' !in Trim(line) by {
      TrimOccurs(line);
      AbsentFromPiece(line, Trim(line), LeadingSpace(line), '\n');
    }
    TrimIdempotent(line);
  }

  /** `extractTaglineWithFunctionNetwork`: the prompt it sends (if any) and
      the tagline it returns (`None` for `null`). Nothing is sent for falsy
      content or without a key; the service's answer `ask(prompt)` yields a
      tagline unless it reports an error or throws. */
  datatype TaglineCall = TaglineCall(prompt: Option<string>, tagline: Option<string>)

  function ExtractTagline(name: string, content: Option<string>, apiKey: Option<string>,
                          ask: string -> ServiceReply): (r: TaglineCall)
    ensures r.prompt.Some? <==> Truthy(content) && Truthy(apiKey)
    ensures r.prompt.Some? ==> r.prompt.value == Prompt(name, content.value)
    ensures r.tagline.Some? <==> r.prompt.Some? && ask(r.prompt.value).ServiceData?
    ensures r.tagline.Some? ==> r.tagline == Some(CleanTagline(RawTagline(ask(r.prompt.value).data)))
  {
    if !Truthy(content) || !Truthy(apiKey) then TaglineCall(None, None)
    else
      var prompt := Prompt(name, content.value);
      match ask(prompt)
      case ServiceData(data) => TaglineCall(Some(prompt), Some(CleanTagline(RawTagline(data))))
      case _ => TaglineCall(Some(prompt), None)
  }

  /** A written tagline is one trimmed line free of citation brackets. */
  lemma TaglineShape(name: string, content: Option<string>, apiKey: Option<string>, ask: string -> ServiceReply)
    requires ExtractTagline(name, content, apiKey, ask).tagline.Some?
    ensures var t := ExtractTagline(name, content, apiKey, ask).tagline.value;
      '[' !in t && '\n' !in t && IsTrimmed(t)
  {
  }

  /** The headline the script writes for a row: the tagline extracted from
      the site's text, when the page loaded, its text is non-empty and the
      tagline is. */
  function HeadlineFor(load: string -> Option<Page>, apiKey: Option<string>, ask: string -> ServiceReply,
                       name: string, website: string): (r: Option<string>)
    ensures Truthy(r) ==> Truthy(WebsiteContent(load, website)) && Truthy(apiKey)
    ensures Truthy(r) ==> '[' !in r.value && '\n' !in r.value && IsTrimmed(r.value)
  {
    var content := WebsiteContent(load, website);
    if !Truthy(content) then None
    else ExtractTagline(name, content, apiKey, ask).tagline
  }

  /** `updateCompanyHeadlines`: nothing when the row query fails, otherwise
      the shared loop with this script's extraction. */
  function UpdateHeadlines(fetched: Result<seq<HeadlineRows.Row>, string>, load: string -> Option<Page>,
                           apiKey: Option<string>, ask: string -> ServiceReply): (r: HeadlineRows.Plan)
    ensures fetched.Err? ==> r == HeadlineRows.Plan([], [])
    ensures fetched.Ok? ==> forall u :: u in r.updates ==>
      '[' !in u.headline && '\n' !in u.headline && IsTrimmed(u.headline) && u.headline != ""
    ensures fetched.Ok? ==> forall w :: w in r.visited <==>
      exists i :: 0 <= i < |fetched.value| && HeadlineRows.NeedsHeadline(fetched.value[i]) && fetched.value[i].website.value == w
    ensures fetched.Ok? ==> forall u :: u in r.updates <==>
      exists i :: (0 <= i < |fetched.value| && HeadlineRows.NeedsHeadline(fetched.value[i])
        && Truthy(HeadlineFor(load, apiKey, ask, fetched.value[i].name, fetched.value[i].website.value))
        && u == HeadlineRows.HeadlineUpdate(fetched.value[i].id,
                  HeadlineFor(load, apiKey, ask, fetched.value[i].name, fetched.value[i].website.value).value))
    ensures !Truthy(apiKey) ==> r.updates == []
  {
    match fetched
    case Err(_) => HeadlineRows.Plan([], [])
    case Ok(rows) =>
      var f := (name, website) => HeadlineFor(load, apiKey, ask, name, website);
      HeadlineRows.PlanUpdates(rows, f)
  }
}
