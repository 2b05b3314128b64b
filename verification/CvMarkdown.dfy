// What is written in Markdown is what is read in the HTML: lines are described by what they hold, spelled out as
// Markdown text, converted, and read back.
module CvMarkdown {
  import opened Wrappers
  import opened CvHtml
  import opened CvHtmlReading

  // ---------------------------------------------------------------- Markdown as it is written

  datatype Mark = Title | Section | Bullet

  // A line by what it holds, with the white space around it.
  datatype Form =
    | Empty(space: string)
    | Marked(mark: Mark, lead: string, text: string, trail: string)
    | ImageLine(lead: string, tag: string, trail: string)
    | Paragraph(text: string, trail: string)

  function MarkText(m: Mark): string { match m case Title => "# " case Section => "## " case Bullet => "- " }

  function MarkTag(m: Mark): Tag { match m case Title => H1 case Section => H2 case Bullet => Li }

  predicate White(s: string) { forall i :: 0 <= i < |s| ==> Space(s[i]) }

  // Not empty, and no white space at its end.
  predicate Ends(s: string) { s != "" && !Space(s[|s| - 1]) }

  predicate Trimmed(s: string) { Ends(s) && !Space(s[0]) }

  predicate StartsMarked(s: string) { "# " <= s || "## " <= s || "- " <= s }

  ghost predicate ShowsImage(s: string) { exists i :: 0 <= i <= |s| && White(s[..i]) && ImageTag(s[i..]) }

  // The parts are what they are called.
  ghost predicate Valid(f: Form) {
    match f
    case Empty(space) => White(space)
    case Marked(_, lead, text, trail) => White(lead) && Trimmed(text) && White(trail)
    case ImageLine(lead, tag, trail) => White(lead) && ImageTag(tag) && White(trail)
    case Paragraph(text, trail) => Ends(text) && !StartsMarked(text) && !ShowsImage(text) && White(trail)
  }

  function Source(f: Form): string {
    match f
    case Empty(space) => space
    case Marked(mark, lead, text, trail) => MarkText(mark) + (lead + (text + trail))
    case ImageLine(lead, tag, trail) => lead + (tag + trail)
    case Paragraph(text, trail) => text + trail
  }

  // A line and what ends it; the last one may end with the text.
  datatype Line = Line(form: Form, end: string)

  function Markdown(lines: seq<Line>): string {
    if lines == [] then "" else Source(lines[0].form) + (lines[0].end + Markdown(lines[1..]))
  }

  predicate BreakFree(s: string) { forall i :: 0 <= i < |s| ==> !LineBreak(s[i]) }

  // A break, "\r\n" counting as one, or the end of the text.
  predicate EndsLine(source: string, end: string, rest: string) {
    || end == "\r\n"
    || (|end| == 1 && LineBreak(end[0]) && !(end == "\r" && rest != "" && rest[0] == '\n'))
    || (end == "" && rest == "" && source != "")
  }

  ghost predicate Written(lines: seq<Line>) {
    lines != [] ==>
      && Valid(lines[0].form) && BreakFree(Source(lines[0].form))
      && EndsLine(Source(lines[0].form), lines[0].end, Markdown(lines[1..]))
      && Written(lines[1..])
  }

  // ---------------------------------------------------------------- what a reader is to see

  predicate IsItem(f: Form) { f.Marked? && f.mark.Bullet? }

  // The element of a line: a heading, an item or a paragraph around its text, an image, or none.
  function ElementOf(f: Form): seq<seq<Token>> {
    match f
    case Empty(_) => []
    case Marked(mark, _, text, _) => [[Open(MarkTag(mark))] + Spans(text) + [Close(MarkTag(mark))]]
    case ImageLine(_, tag, _) => (match ImageOf(tag) case None => [] case Some((src, alt)) => [[Img(src, alt)]])
    case Paragraph(text, _) => [[Open(P)] + Spans(text) + [Close(P)]]
  }

  // The elements in order, a list opened before each run of items and closed behind it.
  function Shown(lines: seq<Line>, inList: bool): seq<seq<Token>> {
    if lines == [] then if inList then [[Close(Ul)]] else []
    else
      (if inList == IsItem(lines[0].form) then [] else if inList then [[Close(Ul)]] else [[Open(Ul)]])
      + (ElementOf(lines[0].form) + Shown(lines[1..], IsItem(lines[0].form)))
  }

  // ---------------------------------------------------------------- white space

  lemma {:induction false} RStripOff(s: string, trail: string)
    requires White(trail) && (s == "" || Ends(s))
    ensures RStrip(s + trail) == s
  {
    if trail == "" {
      assert s + trail == s;
    } else {
      var n := |trail| - 1;
      assert (s + trail)[..|s + trail| - 1] == s + trail[..n];
      RStripOff(s, trail[..n]);
    }
  }

  lemma {:induction false} LStripOff(lead: string, s: string)
    requires White(lead) && (s == "" || !Space(s[0]))
    ensures LStrip(lead + s) == s
  {
    if lead == "" {
      assert lead + s == s;
    } else {
      assert (lead + s)[1..] == lead[1..] + s;
      LStripOff(lead[1..], s);
    }
  }

  lemma {:induction false} StripWhite(s: string)
    requires White(s)
    ensures RStrip(s) == "" && LStrip(s) == ""
  {
    assert "" + s == s && s + "" == s;
    RStripOff("", s);
    LStripOff(s, "");
  }

  lemma StripOff(lead: string, t: string, trail: string)
    requires White(lead) && Trimmed(t) && White(trail)
    ensures Strip(lead + (t + trail)) == t && RStrip(lead + (t + trail)) == lead + t
  {
    assert lead + (t + trail) == (lead + t) + trail;
    assert (lead + t)[|lead + t| - 1] == t[|t| - 1];
    RStripOff(lead + t, trail);
    LStripOff(lead, t);
  }

  // ---------------------------------------------------------------- the kind of a line

  function KindOf(f: Form): LineKind {
    match f
    case Empty(_) => Blank
    case Marked(Title, _, text, _) => Heading1(text)
    case Marked(Section, _, text, _) => Heading2(text)
    case Marked(Bullet, _, text, _) => Item(text)
    case ImageLine(_, tag, _) => Image(tag)
    case Paragraph(text, _) => Plain(text)
  }

  lemma EmptyIsBlank(space: string)
    requires White(space)
    ensures Classify(space) == Blank
  {
    StripWhite(space);
  }

  lemma Kept(line: string)
    requires Trimmed(line)
    ensures Strip(line) == line
  {
    assert line + "" == line && "" + line == line;
    RStripOff(line, "");
    LStripOff("", line);
  }

  lemma Associate(a: string, b: string, c: string, d: string)
    ensures (a + (b + c)) + d == a + (b + (c + d)) && (a + b) + c == a + (b + c)
  {
  }

  // A marked line without its trailing white space, and that again without any.
  lemma StripMarked(mark: string, lead: string, t: string, trail: string)
    requires mark != "" && !Space(mark[0]) && White(lead) && Trimmed(t) && White(trail)
    ensures RStrip(mark + (lead + (t + trail))) == mark + (lead + t)
    ensures Strip(mark + (lead + t)) != "" && Strip(lead + t) == t
  {
    var line := mark + (lead + t);
    Associate(mark, lead, t, trail);
    assert line[0] == mark[0] && line[|line| - 1] == t[|t| - 1];
    RStripOff(line, trail);
    Kept(line);
    assert lead + (t + "") == lead + t;
    StripOff(lead, t, "");
  }

  lemma TitleIs(raw: string, x: string, t: string)
    requires RStrip(raw) == "# " + x && Strip("# " + x) != "" && Strip(x) == t
    ensures Classify(raw) == Heading1(t)
  {
    assert "# " <= "# " + x && ("# " + x)[2..] == x;
  }

  lemma SectionIs(raw: string, x: string, t: string)
    requires RStrip(raw) == "## " + x && Strip("## " + x) != "" && Strip(x) == t
    ensures Classify(raw) == Heading2(t)
  {
    assert ("## " + x)[1] == '#' && "## " <= "## " + x && ("## " + x)[3..] == x;
  }

  lemma BulletIs(raw: string, x: string, t: string)
    requires RStrip(raw) == "- " + x && Strip("- " + x) != "" && Strip(x) == t
    ensures Classify(raw) == Item(t)
  {
    assert ("- " + x)[0] == '-' && "- " <= "- " + x && ("- " + x)[2..] == x;
  }

  lemma MarkedIs(m: Mark, lead: string, t: string, trail: string)
    requires White(lead) && Trimmed(t) && White(trail)
    ensures Classify(Source(Marked(m, lead, t, trail))) == KindOf(Marked(m, lead, t, trail))
  {
    var raw := MarkText(m) + (lead + (t + trail));
    StripMarked(MarkText(m), lead, t, trail);
    match m
    case Title => TitleIs(raw, lead + t, t);
    case Section => SectionIs(raw, lead + t, t);
    case Bullet => BulletIs(raw, lead + t, t);
  }

  lemma ImageTrimmed(tag: string)
    requires ImageTag(tag)
    ensures Trimmed(tag) && tag[0] == '<'
  {
  }

  lemma ImageIs(raw: string, line: string, tag: string)
    requires RStrip(raw) == line && Strip(line) == tag && ImageTag(tag) && !StartsMarked(line)
    ensures Classify(raw) == Image(tag)
  {
  }

  lemma NotMarked(lead: string, tag: string)
    requires White(lead) && tag != "" && tag[0] == '<'
    ensures !StartsMarked(lead + tag)
  {
    var line := lead + tag;
    assert Space(line[0]) || line[0] == '<';
  }

  lemma ImageLineIs(lead: string, tag: string, trail: string)
    requires White(lead) && ImageTag(tag) && White(trail)
    ensures Classify(lead + (tag + trail)) == Image(tag)
  {
    ImageTrimmed(tag);
    StripOff(lead, tag, trail);
    assert lead + (tag + "") == lead + tag;
    StripOff(lead, tag, "");
    NotMarked(lead, tag);
    ImageIs(lead + (tag + trail), lead + tag, tag);
  }

  lemma {:induction false} LStripCuts(s: string) returns (i: nat)
    ensures i <= |s| && White(s[..i]) && LStrip(s) == s[i..] && (LStrip(s) == "" || !Space(LStrip(s)[0]))
  {
    i := 0;
    if s != "" && Space(s[0]) {
      var j := LStripCuts(s[1..]);
      i := j + 1;
      assert s[1..][j..] == s[i..];
      assert forall k :: 0 < k < i ==> s[..i][k] == s[1..][..j][k - 1];
    }
  }

  lemma WhiteIsShorter(s: string, i: nat)
    requires i <= |s| && White(s[..i]) && Ends(s)
    ensures i < |s|
  {
    assert forall k :: 0 <= k < i ==> s[..i][k] == s[k];
  }

  lemma ParagraphIs(t: string, trail: string)
    requires Valid(Paragraph(t, trail))
    ensures Classify(t + trail) == Plain(t)
  {
    RStripOff(t, trail);
    assert t + "" == t;
    RStripOff(t, "");
    var i := LStripCuts(t);
    assert !ImageTag(LStrip(t));
    WhiteIsShorter(t, i);
  }

  lemma KindIs(f: Form)
    requires Valid(f)
    ensures Classify(Source(f)) == KindOf(f)
  {
    match f
    case Empty(space) => EmptyIsBlank(space);
    case Marked(m, lead, t, trail) => MarkedIs(m, lead, t, trail);
    case ImageLine(lead, tag, trail) => ImageLineIs(lead, tag, trail);
    case Paragraph(t, trail) => ParagraphIs(t, trail);
  }

  // ---------------------------------------------------------------- splitting

  lemma {:induction false} CutAt(line: string, end: string, rest: string)
    requires BreakFree(line) && EndsLine(line, end, rest)
    ensures CutLine(line + (end + rest)) == (line, rest)
  {
    var s := line + (end + rest);
    if line == "" {
      assert s == end + rest;
      if end == "\r\n" { assert s[2..] == rest; } else { assert s[1..] == rest; }
    } else if line[1..] == "" && end == "" {
      assert s == line && s[1..] == "" && rest == "";
      assert [s[0]] + "" == line;
    } else {
      assert s[0] == line[0] && s[1..] == line[1..] + (end + rest);
      CutAt(line[1..], end, rest);
      assert [line[0]] + line[1..] == line;
    }
  }

  function Sources(lines: seq<Line>): (r: seq<string>)
    ensures |r| == |lines| && forall i :: 0 <= i < |r| ==> r[i] == Source(lines[i].form)
  {
    seq(|lines|, i requires 0 <= i < |lines| => Source(lines[i].form))
  }

  // Splitting takes the text apart where it was put together.
  lemma {:induction false} SplitMarkdown(lines: seq<Line>)
    requires Written(lines)
    ensures SplitLines(Markdown(lines)) == Sources(lines)
  {
    if lines != [] {
      CutAt(Source(lines[0].form), lines[0].end, Markdown(lines[1..]));
      SplitMarkdown(lines[1..]);
      assert Sources(lines) == [Source(lines[0].form)] + Sources(lines[1..]);
    }
  }

  // ---------------------------------------------------------------- converting

  lemma PrintNothing(lines: seq<seq<Token>>)
    requires lines == []
    ensures PrintLines(lines) == []
  {
  }

  lemma PrintTagged(tag: Tag, text: string)
    ensures PrintLines([[Open(tag)] + Spans(text) + [Close(tag)]]) == [Element(tag, MdInline(text))]
  {
    PrintElement(tag, text);
    assert [Tagged(tag, text)][1..] == [];
  }

  lemma PrintForm(f: Form)
    ensures PrintLines(ElementOf(f)) == Emitted(KindOf(f))
  {
    match f
    case Empty(_) =>
    case Marked(mark, _, text, _) => PrintTagged(MarkTag(mark), text);
    case ImageLine(_, tag, _) => PrintImage(tag);
    case Paragraph(text, _) => PrintTagged(P, text);
  }

  lemma PrintBetween(inList: bool, item: bool)
    ensures PrintLines(if inList == item then [] else if inList then [[Close(Ul)]] else [[Open(Ul)]])
            == Between(inList, item)
  {
    PrintOneLine(Open(Ul));
    PrintOneLine(Close(Ul));
  }

  lemma {:induction false} OutputShows(lines: seq<Line>, kinds: seq<LineKind>, inList: bool)
    requires |kinds| == |lines| && forall i :: 0 <= i < |lines| ==> kinds[i] == KindOf(lines[i].form)
    ensures Output(kinds, inList) == PrintLines(Shown(lines, inList))
    decreases |lines|
  {
    if lines == [] {
      PrintBetween(inList, false);
    } else {
      var f := lines[0].form;
      var item := IsItem(f);
      var rest := Shown(lines[1..], item);
      OutputShows(lines[1..], kinds[1..], item);
      PrintBetween(inList, item);
      PrintForm(f);
      PrintLinesConcat(ElementOf(f), rest);
      PrintLinesConcat(if inList == item then [] else if inList then [[Close(Ul)]] else [[Open(Ul)]],
          ElementOf(f) + rest);
    }
  }

  lemma {:induction false} AllValid(lines: seq<Line>, i: nat)
    requires Written(lines) && i < |lines|
    ensures Valid(lines[i].form)
  {
    if i > 0 { AllValid(lines[1..], i - 1); }
  }

  // What is written is what is read: of every Markdown text, a reader of the HTML sees the elements of its lines in
  // order, each with its text character by character and its bold spans, and lists exactly around the runs of items.
  lemma ReadsAsWritten(lines: seq<Line>)
    requires Written(lines)
    ensures Lex(Html(Markdown(lines))) == Some(JoinTokens(Shown(lines, false)))
  {
    SplitMarkdown(lines);
    var kinds := Kinds(Sources(lines));
    forall i | 0 <= i < |lines| ensures kinds[i] == KindOf(lines[i].form) {
      AllValid(lines, i);
      KindIs(lines[i].form);
    }
    OutputShows(lines, kinds, false);
    JoinPrints(Shown(lines, false));
    LexPrintTokens(JoinTokens(Shown(lines, false)));
  }

  // ---------------------------------------------------------------- every text is written in such lines

  lemma {:induction false} RStripCuts(s: string) returns (i: nat)
    ensures i <= |s| && RStrip(s) == s[..i] && White(s[i..]) && (i == 0 || Ends(s[..i]))
  {
    i := |s|;
    if s != "" && Space(s[|s| - 1]) {
      var t := s[..|s| - 1];
      i := RStripCuts(t);
      assert t[..i] == s[..i];
      assert forall k :: 0 <= k < |s| - i - 1 ==> s[i..][k] == t[i..][k];
    }
  }

  // White space and text behind a mark.
  lemma CutLead(mark: string, body: string, trail: string) returns (lead: string, text: string)
    requires mark <= body && |mark| < |body| && Ends(body)
    ensures White(lead) && Trimmed(text) && body + trail == mark + (lead + (text + trail))
  {
    var x := body[|mark|..];
    assert x[|x| - 1] == body[|body| - 1];
    var i := LStripCuts(x);
    WhiteIsShorter(x, i);
    lead, text := x[..i], x[i..];
    assert body == mark + x && x == lead + text;
    Associate(mark, lead, text, trail);
  }

  lemma MarkedForm(m: Mark, body: string, trail: string) returns (f: Form)
    requires MarkText(m) <= body && Ends(body) && White(trail)
    ensures Valid(f) && Source(f) == body + trail
  {
    MarkIsShorter(m, body);
    var lead, text := CutLead(MarkText(m), body, trail);
    f := Marked(m, lead, text, trail);
  }

  lemma MarkIsShorter(m: Mark, body: string)
    requires MarkText(m) <= body && Ends(body)
    ensures |MarkText(m)| < |body|
  {
    var mark := MarkText(m);
    assert mark[|mark| - 1] == ' ' && body[|mark| - 1] == ' ';
  }

  lemma Halves(s: string, i: nat)
    requires i <= |s|
    ensures s[..i] + s[i..] == s
  {
  }

  lemma ImageForm(body: string, trail: string) returns (lead: string, tag: string)
    requires ShowsImage(body)
    ensures White(lead) && ImageTag(tag) && lead + (tag + trail) == body + trail
  {
    var i :| 0 <= i <= |body| && White(body[..i]) && ImageTag(body[i..]);
    lead, tag := body[..i], body[i..];
    Halves(body, i);
    Associate(lead, tag, trail, "");
  }

  lemma UnmarkedForm(body: string, trail: string) returns (f: Form)
    requires Ends(body) && !StartsMarked(body) && White(trail)
    ensures Valid(f) && Source(f) == body + trail
  {
    f := Paragraph(body, trail);
    if ShowsImage(body) {
      var lead, tag := ImageForm(body, trail);
      f := ImageLine(lead, tag, trail);
    }
  }

  lemma EveryLineHasForm(line: string) returns (f: Form)
    ensures Valid(f) && Source(f) == line
  {
    var n := RStripCuts(line);
    var body, trail := line[..n], line[n..];
    assert line == body + trail;
    if n == 0 {
      f := Empty(line);
    } else if StartsMarked(body) {
      f := MarkedForm(if "# " <= body then Title else if "## " <= body then Section else Bullet, body, trail);
    } else {
      f := UnmarkedForm(body, trail);
    }
  }

  lemma {:induction false} CutLineSplits(s: string) returns (end: string)
    requires s != ""
    ensures var (line, rest) := CutLine(s);
            s == line + (end + rest) && BreakFree(line) && EndsLine(line, end, rest)
  {
    if s[0] == '\r' && |s| > 1 && s[1] == '\n' {
      end := "\r\n";
      assert s == end + s[2..];
    } else if LineBreak(s[0]) {
      end := [s[0]];
      assert s == end + s[1..];
    } else if |s| == 1 {
      end := "";
      assert s[1..] == "" && CutLine(s) == (s, "");
    } else {
      end := CutLineSplits(s[1..]);
      var (line, rest) := CutLine(s[1..]);
      assert s == [s[0]] + s[1..];
      assert [s[0]] + (line + (end + rest)) == ([s[0]] + line) + (end + rest);
    }
  }

  lemma {:induction false} EveryTextIsWritten(markdown: string) returns (lines: seq<Line>)
    ensures Written(lines) && Markdown(lines) == markdown
    decreases |markdown|
  {
    if markdown == "" {
      lines := [];
    } else {
      var (line, rest) := CutLine(markdown);
      var end := CutLineSplits(markdown);
      var more := EveryTextIsWritten(rest);
      var f := EveryLineHasForm(line);
      lines := [Line(f, end)] + more;
      assert lines[1..] == more;
    }
  }
}
