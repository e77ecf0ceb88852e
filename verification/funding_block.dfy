/** scripts/update-funding-data.js: the page source's `fundingData` object is
    found with the pattern `/const fundingData = \{[\s\S]*?\};/` and replaced
    by a block generated from the researched figures and the current date.
    Reading and writing the file are parameters. */
module FundingBlock {
  import opened Wrappers
  import opened Text
  import opened Records
  import Dashboard

  /** The literal text the pattern starts with. */
  const Opener := "const fundingData = {"

  /** The literal text the pattern's lazy `[\s\S]*?` runs up to. */
  const Closer := "};"

  /** A matched range `[start, end)` of the text. */
  datatype Span = Span(start: nat, end: nat)

  /** The regular-expression search from position `from` onwards: at the
      first position where the opener occurs, the lazy part extends to the
      first closer after it; with no closer there, the search moves on one
      position. */
  function Scan(text: string, from: nat): (r: Option<Span>)
    ensures r.Some? ==> from <= r.value.start && OccursAt(text, Opener, r.value.start)
    ensures r.Some? ==> r.value.start + |Opener| + |Closer| <= r.value.end <= |text|
    ensures r.Some? ==> OccursAt(text, Closer, r.value.end - |Closer|)
    ensures r.Some? ==> forall q :: r.value.start + |Opener| <= q < r.value.end - |Closer| ==> !OccursAt(text, Closer, q)
    ensures r.Some? ==> forall p :: from <= p < r.value.start ==> !OccursAt(text, Opener, p)
    ensures r.None? ==> forall p, q :: from <= p && p + |Opener| <= q && OccursAt(text, Opener, p) ==> !OccursAt(text, Closer, q)
    decreases |text| - from
  {
    if from + |Opener| > |text| then None
    else if OccursAt(text, Opener, from) then
      match FindFrom(text, Closer, from + |Opener|)
      case Some(q) => Some(Span(from, q + |Closer|))
      case None => Scan(text, from + 1)
    else Scan(text, from + 1)
  }

  /** The first match of the pattern in `text`, if any. */
  function FindBlock(text: string): Option<Span> {
    Scan(text, 0)
  }

  /** A match is decided by its opener and closer alone: when the opener
      occurs at `s` and nowhere before, and the first closer after it is at
      `c`, the match is `[s, c + 2)`. */
  lemma {:induction false} ScanFinds(text: string, from: nat, s: nat, c: nat)
    requires from <= s && OccursAt(text, Opener, s)
    requires forall p :: from <= p < s ==> !OccursAt(text, Opener, p)
    requires s + |Opener| <= c && OccursAt(text, Closer, c)
    requires forall q :: s + |Opener| <= q < c ==> !OccursAt(text, Closer, q)
    ensures Scan(text, from) == Some(Span(s, c + |Closer|))
    decreases s - from
  {
    if from < s {
      ScanFinds(text, from + 1, s, c);
    } else {
      var f := FindFrom(text, Closer, s + |Opener|);
      assert f == Some(c);
    }
  }

  /** `data.replace(pattern, block)`: the first match is replaced by `block`;
      without a match the text is returned unchanged. */
  function ReplaceBlock(text: string, block: string): (r: string)
    ensures FindBlock(text).None? ==> r == text
    ensures FindBlock(text).Some? ==>
      var m := FindBlock(text).value;
      && |r| == |text| - (m.end - m.start) + |block|
      && r[..m.start] == text[..m.start]
      && OccursAt(r, block, m.start)
      && r[m.start + |block|..] == text[m.end..]
  {
    match FindBlock(text)
    case None => text
    case Some(m) =>
      var r := text[..m.start] + block + text[m.end..];
      assert r[m.start..m.start + |block|] == block;
      r
  }

  /** A block that can stand in for the match: it starts with the opener,
      ends with the closer and holds no earlier closer. */
  predicate WellFormedBlock(block: string) {
    && |block| >= |Opener| + |Closer|
    && OccursAt(block, Opener, 0)
    && OccursAt(block, Closer, |block| - |Closer|)
    && forall q :: 0 <= q < |block| - |Closer| ==> !OccursAt(block, Closer, q)
  }

  /** The opener ends in the only `{` it contains. */
  lemma OpenerBrace()
    ensures Opener[|Opener| - 1] == '{'
    ensures forall k :: 0 <= k < |Opener| - 1 ==> Opener[k] != '{'
  {
  }

  /** Splicing a block that starts with the opener into `text` at `s`
      creates no opener before `s` when `text` had none there: an opener
      straddling `s` would end in a `{` taken from inside the block's own
      opener, which holds none before its last character. */
  lemma SpliceKeepsOpenerFirst(text: string, block: string, s: nat, e: nat)
    requires s <= e <= |text|
    requires OccursAt(block, Opener, 0)
    requires forall p :: 0 <= p < s ==> !OccursAt(text, Opener, p)
    ensures forall p :: 0 <= p < s ==> !OccursAt(text[..s] + block + text[e..], Opener, p)
  {
    var t := text[..s] + block + text[e..];
    OpenerBrace();
    forall p | 0 <= p < s
      ensures !OccursAt(t, Opener, p)
    {
      if p + |Opener| <= s {
        assert !OccursAt(text, Opener, p);
        assert t[p..p + |Opener|] == text[p..p + |Opener|];
      } else {
        var k := p + |Opener| - 1 - s;
        assert 0 <= k < |Opener| - 1;
        assert block[..|Opener|] == Opener;
        assert block[k] == block[..|Opener|][k];
        assert t[p + |Opener| - 1] == block[k];
        assert t[p..p + |Opener|][|Opener| - 1] != '{';
      }
    }
  }

  /** After splicing a well-formed block in at `s`, its closer is the first
      closer after its opener. */
  lemma SpliceCloserFirst(text: string, block: string, s: nat, e: nat)
    requires s <= e <= |text|
    requires WellFormedBlock(block)
    ensures OccursAt(text[..s] + block + text[e..], Closer, s + |block| - |Closer|)
    ensures forall q :: s + |Opener| <= q < s + |block| - |Closer| ==>
      !OccursAt(text[..s] + block + text[e..], Closer, q)
  {
    var t := text[..s] + block + text[e..];
    var c := s + |block| - |Closer|;
    assert t[c..c + |Closer|] == block[|block| - |Closer|..];
    forall q | s + |Opener| <= q < c
      ensures !OccursAt(t, Closer, q)
    {
      assert !OccursAt(block, Closer, q - s);
      assert t[q..q + |Closer|] == block[q - s..q - s + |Closer|];
    }
  }

  /** Replacing twice with a well-formed block is replacing once: the
      inserted block is itself the first match of the result. */
  lemma ReplaceIdempotent(text: string, block: string)
    requires WellFormedBlock(block)
    ensures ReplaceBlock(ReplaceBlock(text, block), block) == ReplaceBlock(text, block)
  {
    if FindBlock(text).Some? {
      var m := FindBlock(text).value;
      var s := m.start;
      var t := ReplaceBlock(text, block);
      assert FindBlock(text) == Scan(text, 0);
      assert t == text[..s] + block + text[m.end..];
      SpliceKeepsOpenerFirst(text, block, s, m.end);
      SpliceCloserFirst(text, block, s, m.end);
      assert t[s..s + |Opener|] == block[..|Opener|];
      var c := s + |block| - |Closer|;
      ScanFinds(t, 0, s, c);
      assert t[..s] + block + t[s + |block|..] == t;
    }
  }

  /** How the template renders a figure, in JavaScript's shortest form:
      whole millions without a point, otherwise with one point before a
      single last digit; no leading zero except for a figure below one
      million. */
  function Render(a: Amount): (r: string)
    ensures |r| >= 1
    ensures forall i :: 0 <= i < |r| ==> ('0' <= r[i] <= '9' || r[i] == '.')
    ensures a.tenths % 10 == 0 ==> '.' !in r
    ensures a.tenths % 10 != 0 ==> |r| >= 3 && r[|r| - 2] == '.' && '.' !in r[..|r| - 2]
    ensures r[0] == '0' ==> a.tenths < 10
  {
    NatToString(a.tenths / 10) + (if a.tenths % 10 == 0 then "" else "." + [DigitChar(a.tenths % 10)])
  }

  /** Reads a rendered figure back. */
  function ParseAmount(s: string): Amount {
    match IndexOf(s, '.')
    case None => Amount(ParseDigits(s) * 10)
    case Some(i) => Amount(ParseDigits(s[..i]) * 10 + (if i + 1 < |s| then DigitValue(s[i + 1]) else 0))
  }

  /** Rendering loses nothing: the figure written is the figure read back. */
  lemma RenderRoundTrip(a: Amount)
    ensures ParseAmount(Render(a)) == a
  {
    var w := NatToString(a.tenths / 10);
    NatToStringRoundTrip(a.tenths / 10);
    assert '.' !in w;
    var r := Render(a);
    if a.tenths % 10 != 0 {
      var d := a.tenths % 10;
      assert r == w + "." + [DigitChar(d)];
      assert r[|w|] == '.';
      assert r[..|w|] == w;
      assert IndexOf(r, '.') == Some(|w|);
      assert r[|w| + 1] == DigitChar(d);
      DigitRoundTrip(d);
      assert ParseAmount(r) == Amount(ParseDigits(w) * 10 + d);
    } else {
      assert r == w;
      assert IndexOf(r, '.') == None;
      assert ParseAmount(r) == Amount(ParseDigits(w) * 10);
    }
  }

  /** The researched figures, in tenths of a million. */
  const AccurateFunding: map<string, Amount> := map[
    "Hyperbolic" := Amount(200),
    "RunPod" := Amount(385),
    "Coreweave" := Amount(86000),
    "Fal.ai" := Amount(720),
    "Akash" := Amount(320),
    "Deepinfra" := Amount(240),
    "Openrouter" := Amount(35),
    "Function Network" := Amount(75),
    "Hyperstack" := Amount(150),
    "Aethir Node service" := Amount(50),
    "Lambda Labs" := Amount(750),
    "OpenAgents" := Amount(12),
    "Replicate" := Amount(520),
    "Datacrunch.io" := Amount(87),
    "Together.ai" := Amount(5340),
    "OVH Cloud" := Amount(2500)]

  /** One entry line of the template: the name looked up, the run of spaces
      before the comment, and the comment. */
  datatype TemplateLine = TemplateLine(name: string, gap: nat, note: string)

  /** The comments the template puts after the figures. */
  const NoteHyperbolic := "$20M total funding as of Dec 2024"
  const NoteRunPod := "$38.5M total funding, " + "with $20M in May 2024"
  const NoteCoreweave := "$1.1B Series C + $7.5B debt financing"
  const NoteFal := "$72M total funding ($23M + $49M Series B)"
  const NoteDeepinfra := "$22M Series A + earlier funding"
  const NoteSeed := "Seed funding"
  const NoteReplicate := "$52M total funding"
  const NoteTogether := "$534M total funding across 4 rounds"
  const NoteEstimated := "Estimated based on available data"

  const Template: seq<TemplateLine> := [
    TemplateLine("Hyperbolic", 9, NoteHyperbolic),
    TemplateLine("RunPod", 11, NoteRunPod),
    TemplateLine("Coreweave", 8, NoteCoreweave),
    TemplateLine("Fal.ai", 13, NoteFal),
    TemplateLine("Akash", 14, NoteEstimated),
    TemplateLine("Deepinfra", 10, NoteDeepinfra),
    TemplateLine("Openrouter", 8, NoteSeed),
    TemplateLine("Function Network", 2, NoteEstimated),
    TemplateLine("Hyperstack", 9, NoteEstimated),
    TemplateLine("Aethir Node service", 1, NoteEstimated),
    TemplateLine("Lambda Labs", 8, NoteEstimated),
    TemplateLine("OpenAgents", 8, NoteEstimated),
    TemplateLine("Replicate", 10, NoteReplicate),
    TemplateLine("Datacrunch.io", 5, NoteEstimated),
    TemplateLine("Together.ai", 7, NoteTogether),
    TemplateLine("OVH Cloud", 10, NoteEstimated)]

  function Spaces(n: nat): (r: string)
    ensures |r| == n && forall i :: 0 <= i < n ==> r[i] == ' '
  {
    seq(n, i => ' ')
  }

  /** `${data[name]}`: the rendered figure, or `undefined` for a missing
      name. */
  function Lookup(data: map<string, Amount>, name: string): string {
    if name in data then Render(data[name]) else "undefined"
  }

  /** One entry line: the quoted name, the figure looked up for it, a comma
      unless it is the last line, the gap and the comment. */
  function EntryLine(data: map<string, Amount>, l: TemplateLine, last: bool): string {
    "    '" + l.name + "': " + Lookup(data, l.name) + (if last then "" else ",")
      + Spaces(l.gap) + "// " + l.note + "\n"
  }

  /** The entry lines; every line but the last ends its value with a comma. */
  function EntryLines(data: map<string, Amount>, lines: seq<TemplateLine>): string
    decreases |lines|
  {
    if |lines| == 0 then ""
    else EntryLine(data, lines[0], |lines| == 1) + EntryLines(data, lines[1..])
  }

  /** A line for a name the figures hold writes that name quoted and then
      exactly its figure, rendered. */
  lemma EntryLineCarriesFigure(data: map<string, Amount>, l: TemplateLine, last: bool)
    requires l.name in data
    ensures OccursAt(EntryLine(data, l, last), l.name, 5)
    ensures OccursAt(EntryLine(data, l, last), Render(data[l.name]), 5 + |l.name| + 3)
  {
    var line := EntryLine(data, l, last);
    var v := Render(data[l.name]);
    var pre := "    '" + l.name + "': ";
    assert |pre| == 5 + |l.name| + 3;
    assert line == pre + v + ((if last then "" else ",") + Spaces(l.gap) + "// " + l.note + "\n");
    assert line[5..5 + |l.name|] == l.name;
    assert line[|pre|..|pre| + |v|] == v;
  }

  /** The start of the block's date line, from the line break after the
      opener to the date. */
  const DateLineHead := "\n    // Accurate funding data " + "in millions of dollars (last updated: "

  /** What the block holds between its opener and its closer: the date line,
      the entry lines and the closing indentation. */
  function BlockBody(data: map<string, Amount>, lines: seq<TemplateLine>, date: string): string {
    DateLineHead + date + ")\n" + EntryLines(data, lines) + "  "
  }

  /** The replacement block for figures `data` and the date `date`
      (`new Date().toISOString().split('T')[0]`). */
  function GeneratedBlock(data: map<string, Amount>, date: string): string {
    Opener + BlockBody(data, Template, date) + Closer
  }

  /** `s` contains no `}`. */
  predicate NoBrace(s: string) {
    forall i :: 0 <= i < |s| ==> s[i] != '}'
  }

  /** No name or comment of `lines` contains a `}`. */
  predicate BraceFree(lines: seq<TemplateLine>) {
    forall i :: 0 <= i < |lines| ==> NoBrace(lines[i].name) && NoBrace(lines[i].note)
  }

  lemma FundedNotesBraceFree()
    ensures NoBrace(NoteHyperbolic) && NoBrace(NoteRunPod) && NoBrace(NoteCoreweave) && NoBrace(NoteFal)
  {
  }

  lemma OtherNotesBraceFree()
    ensures NoBrace(NoteDeepinfra) && NoBrace(NoteSeed) && NoBrace(NoteReplicate)
    ensures NoBrace(NoteTogether) && NoBrace(NoteEstimated)
  {
  }

  /** Each group of four template lines has names and comments free of `}`,
      and names that are researched ones. */
  lemma TemplateLines0To3(i: nat)
    requires 0 <= i < 4
    ensures NoBrace(Template[i].name) && NoBrace(Template[i].note)
    ensures Template[i].name in AccurateFunding
  {
    FundedNotesBraceFree();
    assert i == 0 || i == 1 || i == 2 || i == 3;
  }

  lemma TemplateLines4To7(i: nat)
    requires 4 <= i < 8
    ensures NoBrace(Template[i].name) && NoBrace(Template[i].note)
    ensures Template[i].name in AccurateFunding
  {
    OtherNotesBraceFree();
    assert i == 4 || i == 5 || i == 6 || i == 7;
  }

  lemma TemplateLines8To11(i: nat)
    requires 8 <= i < 12
    ensures NoBrace(Template[i].name) && NoBrace(Template[i].note)
    ensures Template[i].name in AccurateFunding
  {
    OtherNotesBraceFree();
    assert i == 8 || i == 9 || i == 10 || i == 11;
  }

  lemma TemplateLines12To15(i: nat)
    requires 12 <= i < 16
    ensures NoBrace(Template[i].name) && NoBrace(Template[i].note)
    ensures Template[i].name in AccurateFunding
  {
    OtherNotesBraceFree();
    assert i == 12 || i == 13 || i == 14 || i == 15;
  }

  lemma TemplateLines(i: nat)
    requires i < |Template|
    ensures NoBrace(Template[i].name) && NoBrace(Template[i].note)
    ensures Template[i].name in AccurateFunding
  {
    if i < 4 {
      TemplateLines0To3(i);
    } else if i < 8 {
      TemplateLines4To7(i);
    } else if i < 12 {
      TemplateLines8To11(i);
    } else {
      TemplateLines12To15(i);
    }
  }

  /** The template's names and comments contain no `}`. */
  lemma TemplateBraceFree()
    ensures BraceFree(Template)
  {
    forall i | 0 <= i < |Template|
      ensures NoBrace(Template[i].name) && NoBrace(Template[i].note)
    {
      TemplateLines(i);
    }
  }

  lemma NoBraceConcat(a: string, b: string)
    requires NoBrace(a) && NoBrace(b)
    ensures NoBrace(a + b)
  {
    forall i | 0 <= i < |a + b|
      ensures (a + b)[i] != '}'
    {
      if i >= |a| {
        assert (a + b)[i] == b[i - |a|];
      }
    }
  }

  lemma EntryLineHasNoBrace(data: map<string, Amount>, l: TemplateLine, last: bool)
    requires NoBrace(l.name) && NoBrace(l.note)
    ensures NoBrace(EntryLine(data, l, last))
  {
    var sep := if last then "" else ",";
    assert NoBrace(Lookup(data, l.name));
    assert NoBrace(Spaces(l.gap));
    var a := "    '" + l.name;
    NoBraceConcat("    '", l.name);
    NoBraceConcat(a, "': ");
    NoBraceConcat(a + "': ", Lookup(data, l.name));
    var b := a + "': " + Lookup(data, l.name);
    NoBraceConcat(b, sep);
    NoBraceConcat(b + sep, Spaces(l.gap));
    var c := b + sep + Spaces(l.gap);
    NoBraceConcat(c, "// ");
    NoBraceConcat(c + "// ", l.note);
    NoBraceConcat(c + "// " + l.note, "\n");
  }

  lemma {:induction false} EntryLinesHaveNoBrace(data: map<string, Amount>, lines: seq<TemplateLine>)
    requires BraceFree(lines)
    ensures NoBrace(EntryLines(data, lines))
    decreases |lines|
  {
    if |lines| > 0 {
      EntryLinesHaveNoBrace(data, lines[1..]);
      EntryLineHasNoBrace(data, lines[0], |lines| == 1);
      NoBraceConcat(EntryLine(data, lines[0], |lines| == 1), EntryLines(data, lines[1..]));
    }
  }

  /** The opener, a body free of `}` and the closer make a block that can
      stand in for the match. */
  lemma FramedBlockWellFormed(body: string)
    requires NoBrace(body)
    ensures WellFormedBlock(Opener + body + Closer)
  {
    var head := Opener + body;
    var b := head + Closer;
    assert NoBrace(Opener);
    NoBraceConcat(Opener, body);
    assert b[..|Opener|] == Opener;
    assert b[|b| - |Closer|..] == Closer;
    forall q | 0 <= q < |b| - |Closer|
      ensures !OccursAt(b, Closer, q)
    {
      assert b[q] == head[q];
      assert b[q..q + |Closer|][0] == b[q];
    }
  }

  lemma DateLineHeadBraceFree()
    ensures NoBrace(DateLineHead)
  {
    var x := "\n    // Accurate funding data ";
    var y := "in millions of dollars (last updated: ";
    assert NoBrace(x) && NoBrace(y);
    NoBraceConcat(x, y);
  }

  /** The block built from brace-free lines and a date free of `}` can stand
      in for the match. */
  lemma BlockWellFormed(data: map<string, Amount>, lines: seq<TemplateLine>, date: string)
    requires BraceFree(lines) && NoBrace(date)
    ensures WellFormedBlock(Opener + BlockBody(data, lines, date) + Closer)
  {
    var e := EntryLines(data, lines);
    EntryLinesHaveNoBrace(data, lines);
    DateLineHeadBraceFree();
    NoBraceConcat(DateLineHead, date);
    NoBraceConcat(DateLineHead + date, ")\n");
    NoBraceConcat(DateLineHead + date + ")\n", e);
    NoBraceConcat(DateLineHead + date + ")\n" + e, "  ");
    FramedBlockWellFormed(BlockBody(data, lines, date));
  }

  /** With a date free of `}` (an ISO date is), the generated block can stand
      in for the match. */
  lemma GeneratedBlockWellFormed(data: map<string, Amount>, date: string)
    requires NoBrace(date)
    ensures WellFormedBlock(GeneratedBlock(data, date))
  {
    TemplateBraceFree();
    BlockWellFormed(data, Template, date);
  }

  /** The page's table was produced from these figures: it holds exactly the
      researched names with the researched figures. */
  lemma PageTableIsAccurate()
    ensures Dashboard.FundingTable == AccurateFunding
  {
  }

  /** The template writes exactly the researched names. */
  lemma TemplateCoversAccurate()
    ensures forall i :: 0 <= i < |Template| ==> Template[i].name in AccurateFunding
    ensures forall name :: name in AccurateFunding ==> exists i :: 0 <= i < |Template| && Template[i].name == name
  {
    forall i | 0 <= i < |Template|
      ensures Template[i].name in AccurateFunding
    {
      TemplateLines(i);
    }
    forall name | name in AccurateFunding
      ensures exists i :: 0 <= i < |Template| && Template[i].name == name
    {
      ResearchedNameWritten(name);
    }
  }

  /** Every line of the generated block writes a researched name followed by
      that name's researched figure; with `TemplateCoversAccurate`, the block
      lists exactly the researched names, each with its own figure. */
  lemma TemplateFiguresAreResearched(i: nat)
    requires i < |Template|
    ensures Template[i].name in AccurateFunding
    ensures OccursAt(EntryLine(AccurateFunding, Template[i], i == |Template| - 1), Template[i].name, 5)
    ensures OccursAt(EntryLine(AccurateFunding, Template[i], i == |Template| - 1),
                     Render(AccurateFunding[Template[i].name]), 5 + |Template[i].name| + 3)
  {
    TemplateLines(i);
    EntryLineCarriesFigure(AccurateFunding, Template[i], i == |Template| - 1);
  }

  /** Each group of four researched names is written by the template. */
  lemma NamesWritten0To3(name: string)
    requires name == "Hyperbolic" || name == "RunPod" || name == "Coreweave" || name == "Fal.ai"
    ensures exists i :: 0 <= i < |Template| && Template[i].name == name
  {
    if name == "Hyperbolic" {
      assert Template[0].name == name;
    } else if name == "RunPod" {
      assert Template[1].name == name;
    } else if name == "Coreweave" {
      assert Template[2].name == name;
    } else {
      assert Template[3].name == name;
    }
  }

  lemma NamesWritten4To7(name: string)
    requires name == "Akash" || name == "Deepinfra" || name == "Openrouter" || name == "Function Network"
    ensures exists i :: 0 <= i < |Template| && Template[i].name == name
  {
    if name == "Akash" {
      assert Template[4].name == name;
    } else if name == "Deepinfra" {
      assert Template[5].name == name;
    } else if name == "Openrouter" {
      assert Template[6].name == name;
    } else {
      assert Template[7].name == name;
    }
  }

  lemma NamesWritten8To11(name: string)
    requires name == "Hyperstack" || name == "Aethir Node service" || name == "Lambda Labs" || name == "OpenAgents"
    ensures exists i :: 0 <= i < |Template| && Template[i].name == name
  {
    if name == "Hyperstack" {
      assert Template[8].name == name;
    } else if name == "Aethir Node service" {
      assert Template[9].name == name;
    } else if name == "Lambda Labs" {
      assert Template[10].name == name;
    } else {
      assert Template[11].name == name;
    }
  }

  lemma NamesWritten12To15(name: string)
    requires name == "Replicate" || name == "Datacrunch.io" || name == "Together.ai" || name == "OVH Cloud"
    ensures exists i :: 0 <= i < |Template| && Template[i].name == name
  {
    if name == "Replicate" {
      assert Template[12].name == name;
    } else if name == "Datacrunch.io" {
      assert Template[13].name == name;
    } else if name == "Together.ai" {
      assert Template[14].name == name;
    } else {
      assert Template[15].name == name;
    }
  }

  lemma ResearchedNameWritten(name: string)
    requires name in AccurateFunding
    ensures exists i :: 0 <= i < |Template| && Template[i].name == name
  {
    if name == "Hyperbolic" || name == "RunPod" || name == "Coreweave" || name == "Fal.ai" {
      NamesWritten0To3(name);
    } else if name == "Akash" || name == "Deepinfra" || name == "Openrouter" || name == "Function Network" {
      NamesWritten4To7(name);
    } else if name == "Hyperstack" || name == "Aethir Node service" || name == "Lambda Labs" || name == "OpenAgents" {
      NamesWritten8To11(name);
    } else {
      NamesWritten12To15(name);
    }
  }


  /** The script: nothing is written when reading fails; otherwise the text
      written is the source with its first match replaced by the block for
      the researched figures. A failed write is only logged. */
  function UpdateAppSource(read: Result<string, string>, date: string): (r: Option<string>)
    ensures read.Err? ==> r.None?
    ensures read.Ok? ==> r.Some?
    ensures read.Ok? && FindBlock(read.value).None? ==> r == Some(read.value)
    ensures read.Ok? && FindBlock(read.value).Some? ==>
      OccursAt(r.value, GeneratedBlock(AccurateFunding, date), FindBlock(read.value).value.start)
  {
    match read
    case Err(_) => None
    case Ok(text) => Some(ReplaceBlock(text, GeneratedBlock(AccurateFunding, date)))
  }

  /** Running the script a second time on the same day writes back what it
      reads. */
  lemma SecondRunChangesNothing(text: string, date: string)
    requires NoBrace(date)
    ensures UpdateAppSource(Ok(UpdateAppSource(Ok(text), date).value), date) == UpdateAppSource(Ok(text), date)
  {
    GeneratedBlockWellFormed(AccurateFunding, date);
    ReplaceIdempotent(text, GeneratedBlock(AccurateFunding, date));
  }
}
