// The CV's Markdown dialect rendered to HTML, against a document tree, an HTML printer for it and an
// independent HTML reader.
module CvHtml {
  import opened Wrappers

  // ---------------------------------------------------------------- characters and lines

  predicate Space(c: char) {
    || '\t' <= c <= '\r' || '\U{001C}' <= c <= ' ' || c == '\U{0085}' || c == '\U{00A0}' || c == '\U{1680}'
    || '\U{2000}' <= c <= '\U{200A}' || c == '\U{2028}' || c == '\U{2029}' || c == '\U{202F}'
    || c == '\U{205F}' || c == '\U{3000}'
  }

  predicate LineBreak(c: char) {
    || '\n' <= c <= '\r' || '\U{001C}' <= c <= '\U{001E}' || c == '\U{0085}' || c == '\U{2028}' || c == '\U{2029}'
  }

  function RStrip(s: string): string {
    if s != "" && Space(s[|s| - 1]) then RStrip(s[..|s| - 1]) else s
  }

  function LStrip(s: string): string {
    if s != "" && Space(s[0]) then LStrip(s[1..]) else s
  }

  function Strip(s: string): string { LStrip(RStrip(s)) }

  // The first line and what follows its break; "\r\n" is one break.
  function CutLine(s: string): (r: (string, string))
    ensures |r.0| + |r.1| <= |s| && (s != "" ==> |r.1| < |s|)
  {
    if s == "" then ("", "")
    else if s[0] == '\r' && |s| > 1 && s[1] == '\n' then ("", s[2..])
    else if LineBreak(s[0]) then ("", s[1..])
    else
      var (line, rest) := CutLine(s[1..]);
      ([s[0]] + line, rest)
  }

  function SplitLines(s: string): seq<string>
    decreases |s|
  {
    if s == "" then []
    else
      var (line, rest) := CutLine(s);
      [line] + SplitLines(rest)
  }

  // ---------------------------------------------------------------- escaping

  function EscapeChar(c: char): string {
    match c
    case '&' => "&amp;"
    case '<' => "&lt;"
    case '>' => "&gt;"
    case '"' => "&quot;"
    case '\'' => "&#x27;"
    case _ => [c]
  }

  function Escape(s: string): string {
    if s == "" then "" else EscapeChar(s[0]) + Escape(s[1..])
  }

  // ---------------------------------------------------------------- tags

  datatype Tag = Ul | Li | H1 | H2 | P | Strong

  function Name(t: Tag): string {
    match t case Ul => "ul" case Li => "li" case H1 => "h1" case H2 => "h2" case P => "p" case Strong => "strong"
  }

  function OpenTag(t: Tag): string { "<" + Name(t) + ">" }

  function CloseTag(t: Tag): string { "</" + Name(t) + ">" }

  datatype LineKind = Blank | Heading1(text: string) | Heading2(text: string) | Item(text: string)
                    | Image(tag: string) | Plain(text: string)

  function Classify(rawLine: string): LineKind {
    var line := RStrip(rawLine);
    if Strip(line) == "" then Blank
    else if "# " <= line then Heading1(Strip(line[2..]))
    else if "## " <= line then Heading2(Strip(line[3..]))
    else if "- " <= line then Item(Strip(line[2..]))
    else if ImageTag(Strip(line)) then Image(Strip(line))
    else Plain(line)
  }

  function Kinds(lines: seq<string>): (r: seq<LineKind>)
    ensures |r| == |lines| && forall i :: 0 <= i < |r| ==> r[i] == Classify(lines[i])
  {
    seq(|lines|, i requires 0 <= i < |lines| => Classify(lines[i]))
  }

  // ---------------------------------------------------------------- inline text, as the regex works

  function AfterFirst(c: char, r: Option<(string, string)>): Option<(string, string)> {
    match r case None => None case Some((inner, rest)) => Some(([c] + inner, rest))
  }

  predicate Stars(s: string) { |s| >= 2 && s[0] == '*' && s[1] == '*' }

  // As few characters as possible up to the next `**`.
  function UpToStars(s: string): (r: Option<(string, string)>)
    ensures r.Some? ==> |r.value.0| + 2 + |r.value.1| == |s|
  {
    if Stars(s) then Some(("", s[2..]))
    else if s == "" || s[0] == '\n' then None
    else AfterFirst(s[0], UpToStars(s[1..]))
  }

  // `(.+?)\*\*`: at least one character.
  function Bold(s: string): (r: Option<(string, string)>)
    ensures r.Some? ==> |r.value.0| + 2 + |r.value.1| == |s|
  {
    if s == "" || s[0] == '\n' then None else AfterFirst(s[0], UpToStars(s[1..]))
  }

  function SubstituteBold(s: string): string
    decreases |s|
  {
    if s == "" then ""
    else if Stars(s) && Bold(s[2..]).Some? then
      var (inner, rest) := Bold(s[2..]).value;
      OpenTag(Strong) + inner + CloseTag(Strong) + SubstituteBold(rest)
    else [s[0]] + SubstituteBold(s[1..])
  }

  function MdInline(text: string): string { SubstituteBold(Escape(text)) }

  // ---------------------------------------------------------------- the image line

  predicate WordChar(c: char) {
    'a' <= c <= 'z' || 'A' <= c <= 'Z' || '0' <= c <= '9' || c == '_'
  }

  // Case-insensitive comparison of one pattern letter, with the Unicode partners of `i` and `s`.
  predicate Letter(pattern: char, c: char)
    requires 'a' <= pattern <= 'z'
  {
    || c == pattern || c == pattern - 'a' + 'A'
    || (pattern == 'i' && (c == '\U{0130}' || c == '\U{0131}'))
    || (pattern == 's' && c == '\U{017F}')
  }

  // `^<img\b[^>]*/?>$`
  predicate ImageTag(s: string) {
    && |s| >= 5 && s[0] == '<' && Letter('i', s[1]) && Letter('m', s[2]) && Letter('g', s[3]) && !WordChar(s[4])
    && s[|s| - 1] == '>' && forall i :: 4 <= i < |s| - 1 ==> s[i] != '>'
  }

  // Everything up to the next quote.
  function UpToQuote(s: string): Option<string> {
    if s == "" then None
    else if s[0] == '"' then Some("")
    else match UpToQuote(s[1..]) case None => None case Some(v) => Some([s[0]] + v)
  }

  // `\s*=\s*"([^"]*)"`
  function AfterName(s: string): Option<string> {
    var r := LStrip(s);
    if r == "" || r[0] != '=' then None
    else
      var v := LStrip(r[1..]);
      if v == "" || v[0] != '"' then None else UpToQuote(v[1..])
  }

  // The value of the first attribute with a three-letter name.
  function Attribute(a: char, b: char, c: char, s: string, wordBefore: bool): Option<string>
    requires 'a' <= a <= 'z' && 'a' <= b <= 'z' && 'a' <= c <= 'z'
  {
    if s == "" then None
    else if !wordBefore && |s| >= 3 && Letter(a, s[0]) && Letter(b, s[1]) && Letter(c, s[2])
        && AfterName(s[3..]).Some? then
      AfterName(s[3..])
    else Attribute(a, b, c, s[1..], WordChar(s[0]))
  }

  predicate ImageSource(src: string) {
    "data:image/" <= src || "https://" <= src || "http://" <= src
  }

  // What is rebuilt from an image line: source and alternative text, or nothing.
  function ImageOf(tag: string): Option<(string, string)> {
    var src := OrEmpty(Attribute('s', 'r', 'c', tag, false));
    if !ImageSource(src) then None
    else Some((src, OrEmpty(Attribute('a', 'l', 't', tag, false))))
  }

  const STYLE := " style=\"max-width:120px;border-radius:8px;\" />"

  function ImgTag(src: string, alt: string): string {
    "<img src=\"" + (Escape(src) + ("\"" + (" alt=\"" + (Escape(alt) + ("\"" + STYLE)))))
  }

  function SafeImg(tag: string): string {
    match ImageOf(tag)
    case None => ""
    case Some((src, alt)) =>
      ImgTag(src, alt)
  }

  // ---------------------------------------------------------------- the converter

  function Element(tag: Tag, inner: string): string {
    OpenTag(tag) + inner + CloseTag(tag)
  }

  // What one line appends to the output, one entry per output line.
  function Emitted(kind: LineKind): seq<string> {
    match kind
    case Blank => []
    case Heading1(t) => [Element(H1, MdInline(t))]
    case Heading2(t) => [Element(H2, MdInline(t))]
    case Item(t) => [Element(Li, MdInline(t))]
    case Image(tag) => if SafeImg(tag) != "" then [SafeImg(tag)] else []
    case Plain(t) => [Element(P, MdInline(t))]
  }

  // The list tag due before a line.
  function Between(inUl: bool, item: bool): seq<string> {
    if inUl == item then [] else if item then [OpenTag(Ul)] else [CloseTag(Ul)]
  }

  // What the loop appends from here on.
  function Output(kinds: seq<LineKind>, inUl: bool): seq<string> {
    if kinds == [] then Between(inUl, false)
    else Between(inUl, kinds[0].Item?) + (Emitted(kinds[0]) + Output(kinds[1..], kinds[0].Item?))
  }

  function JoinLines(lines: seq<string>): string {
    if lines == [] then "" else if |lines| == 1 then lines[0] else lines[0] + "\n" + JoinLines(lines[1..])
  }

  function Html(markdown: string): string { JoinLines(Output(Kinds(SplitLines(markdown)), false)) }

  // The lines before number n have become `out`.
  ghost predicate Done(kinds: seq<LineKind>, n: nat, inUl: bool, out: seq<string>) {
    n <= |kinds| && Output(kinds, false) == out + Output(kinds[n..], inUl)
  }

  lemma Regroup(out: seq<string>, a: seq<string>, b: seq<string>, rest: seq<string>)
    ensures out + (a + (b + rest)) == ((out + a) + b) + rest
  {
  }

  lemma DoneStep(kinds: seq<LineKind>, n: nat, inUl: bool, before: seq<string>, out: seq<string>)
    requires n < |kinds| && Done(kinds, n, inUl, before)
    requires out == (before + Between(inUl, kinds[n].Item?)) + Emitted(kinds[n])
    ensures Done(kinds, n + 1, kinds[n].Item?, out)
  {
    assert kinds[n..][0] == kinds[n] && kinds[n..][1..] == kinds[n + 1..];
    Regroup(before, Between(inUl, kinds[n].Item?), Emitted(kinds[n]), Output(kinds[n + 1..], kinds[n].Item?));
  }

  lemma DoneAtStart(kinds: seq<LineKind>)
    ensures Done(kinds, 0, false, [])
  {
    assert kinds[0..] == kinds;
  }

  lemma DoneAtEnd(kinds: seq<LineKind>, inUl: bool, before: seq<string>, out: seq<string>)
    requires Done(kinds, |kinds|, inUl, before) && out == before + Between(inUl, false)
    ensures JoinLines(out) == JoinLines(Output(kinds, false))
  {
    assert kinds[|kinds|..] == [];
  }

  method RenderLine(kind: LineKind, before: seq<string>, wasInUl: bool) returns (out: seq<string>, inUl: bool)
    ensures out == (before + Between(wasInUl, kind.Item?)) + Emitted(kind)
    ensures inUl == kind.Item?
  {
    out, inUl := before, wasInUl;
    if kind.Item? && !inUl {
      out, inUl := out + [OpenTag(Ul)], true;
    } else if !kind.Item? && inUl {
      out, inUl := out + [CloseTag(Ul)], false;
    }
    assert out == before + Between(wasInUl, kind.Item?);
    out := out + Emitted(kind);
  }

  method CvMarkdownToHtml(markdown: string) returns (html: string)
    ensures html == Html(markdown)
  {
    var lines := SplitLines(markdown);
    ghost var kinds := Kinds(lines);
    var out: seq<string>, inUl := [], false;
    DoneAtStart(kinds);
    var n := 0;
    while n < |lines|
      invariant 0 <= n <= |lines| && Done(kinds, n, inUl, out)
    {
      ghost var wasInUl, before := inUl, out;
      out, inUl := RenderLine(Classify(lines[n]), out, inUl);
      DoneStep(kinds, n, wasInUl, before, out);
      n := n + 1;
    }
    ghost var before := out;
    if inUl {
      out := out + [CloseTag(Ul)];
    }
    assert out == before + Between(inUl, false);
    DoneAtEnd(kinds, inUl, before, out);
    html := JoinLines(out);
  }

  // ---------------------------------------------------------------- HTML as a reader sees it

  datatype Token = Open(tag: Tag) | Close(tag: Tag) | Img(src: string, alt: string) | Text(c: char)


  // What stands before the next stop character, and what follows it.
  function UpTo(s: string, stop: char): (r: Option<(string, string)>)
    ensures r.Some? ==> |r.value.0| + 1 + |r.value.1| == |s|
  {
    if s == "" then None else if s[0] == stop then Some(("", s[1..])) else AfterFirst(s[0], UpTo(s[1..], stop))
  }

  function EntityNamed(name: string): Option<char> {
    if name == "amp" then Some('&') else if name == "lt" then Some('<') else if name == "gt" then Some('>')
    else if name == "quot" then Some('"') else if name == "#x27" then Some('\'')
    else None
  }

  // A character of text or of an attribute value, with how much of the input spells it.
  function ReadChar(s: string): (r: (char, nat))
    requires s != ""
    ensures 1 <= r.1 <= |s|
  {
    if s[0] != '&' then (s[0], 1)
    else match UpTo(s[1..], ';')
      case None => ('&', 1)
      case Some((name, _)) =>
        match EntityNamed(name)
        case None => ('&', 1)
        case Some(c) => (c, |name| + 2)
  }

  function ReadValue(s: string): (r: Option<(string, string)>)
    ensures r.Some? ==> |r.value.1| < |s|
    decreases |s|
  {
    if s == "" then None
    else if s[0] == '"' then Some(("", s[1..]))
    else
      var (c, n) := ReadChar(s);
      AfterFirst(c, ReadValue(s[n..]))
  }

  function ReadImg(s: string): (r: Option<(Token, string)>)
    ensures r.Some? ==> |r.value.1| < |s|
  {
    if !("<img src=\"" <= s) then None
    else match ReadValue(s[10..])
      case None => None
      case Some((src, r)) =>
        if !(" alt=\"" <= r) then None
        else match ReadValue(r[6..])
          case None => None
          case Some((alt, r')) =>
            if !(STYLE <= r') then None else Some((Img(src, alt), r'[|STYLE|..]))
  }

  function TagNamed(name: string): Option<Tag> {
    if name == "ul" then Some(Ul) else if name == "li" then Some(Li) else if name == "h1" then Some(H1)
    else if name == "h2" then Some(H2) else if name == "p" then Some(P) else if name == "strong" then Some(Strong)
    else None
  }

  function ReadName(s: string, closing: bool): (r: Option<(Token, string)>)
    ensures r.Some? ==> |r.value.1| < |s|
  {
    match UpTo(s, '>')
    case None => None
    case Some((name, rest)) =>
      match TagNamed(name)
      case None => None
      case Some(tag) => Some((if closing then Close(tag) else Open(tag), rest))
  }

  function ReadTag(s: string): (r: Option<(Token, string)>)
    ensures r.Some? ==> |r.value.1| < |s|
  {
    if |s| < 2 then None
    else if s[1] == '/' then ReadName(s[2..], true)
    else if |s| > 4 && s[1] == 'i' && s[4] == ' ' then ReadImg(s)
    else ReadName(s[1..], false)
  }

  function Cons(t: Token, r: Option<seq<Token>>): Option<seq<Token>> {
    match r case None => None case Some(ts) => Some([t] + ts)
  }

  // Reads HTML; `None` when some `<` does not begin a tag of the vocabulary.
  function Lex(s: string): Option<seq<Token>>
    decreases |s|
  {
    if s == "" then Some([])
    else if s[0] == '<' then
      match ReadTag(s)
      case None => None
      case Some((t, rest)) => Cons(t, Lex(rest))
    else
      var (c, n) := ReadChar(s);
      Cons(Text(c), Lex(s[n..]))
  }

  // Which element may stand where.
  predicate MayOpen(stack: seq<Tag>, t: Tag) {
    if stack == [] then t == Ul || t == H1 || t == H2 || t == P
    else match stack[|stack| - 1]
      case Ul => t == Li
      case Strong => false
      case _ => t == Strong
  }

  // The elements left open, or `None` at the first token that is out of place.
  function Step(t: Token, stack: seq<Tag>): Option<seq<Tag>> {
    match t
    case Open(tag) => if MayOpen(stack, tag) then Some(stack + [tag]) else None
    case Close(tag) => if stack != [] && stack[|stack| - 1] == tag then Some(stack[..|stack| - 1]) else None
    case Img(src, _) => if stack == [] && ImageSource(src) then Some(stack) else None
    case Text(c) => if (stack == [] || stack[|stack| - 1] == Ul) && c != '\n' then None else Some(stack)
  }

  function Walk(tokens: seq<Token>, stack: seq<Tag>): Option<seq<Tag>>
    decreases |tokens|
  {
    if tokens == [] then Some(stack)
    else match Step(tokens[0], stack) case None => None case Some(st) => Walk(tokens[1..], st)
  }

  // ---------------------------------------------------------------- the document

  datatype Block = Single(tag: Tag, text: string) | List(items: seq<string>) | Picture(src: string, alt: string)

  function TextTokens(s: string): (r: seq<Token>)
    ensures |r| == |s| && forall i :: 0 <= i < |r| ==> r[i] == Text(s[i])
  {
    seq(|s|, i requires 0 <= i < |s| => Text(s[i]))
  }

  // Bold spans, found in the source text itself.
  function Spans(s: string): seq<Token>
    decreases |s|
  {
    if s == "" then []
    else if Stars(s) && Bold(s[2..]).Some? then
      var (inner, rest) := Bold(s[2..]).value;
      [Open(Strong)] + TextTokens(inner) + [Close(Strong)] + Spans(rest)
    else [Text(s[0])] + Spans(s[1..])
  }

  function Tagged(tag: Tag, text: string): seq<Token> { [Open(tag)] + Spans(text) + [Close(tag)] }

  function LeadingItems(kinds: seq<LineKind>): (r: seq<string>)
    ensures |r| <= |kinds| && (kinds != [] && kinds[0].Item? ==> r != [])
  {
    if kinds != [] && kinds[0].Item? then [kinds[0].text] + LeadingItems(kinds[1..]) else []
  }

  // The block of a line that is no list item.
  function Alone(kind: LineKind): seq<Block> {
    match kind
    case Heading1(t) => [Single(H1, t)]
    case Heading2(t) => [Single(H2, t)]
    case Plain(t) => [Single(P, t)]
    case Image(tag) => (match ImageOf(tag) case None => [] case Some((src, alt)) => [Picture(src, alt)])
    case _ => []
  }

  // Adjacent list items form one list.
  function Blocks(kinds: seq<LineKind>): seq<Block>
    decreases |kinds|
  {
    if kinds == [] then []
    else if kinds[0].Item? then
      var items := LeadingItems(kinds);
      [List(items)] + Blocks(kinds[|items|..])
    else Alone(kinds[0]) + Blocks(kinds[1..])
  }

  function Document(markdown: string): seq<Block> { Blocks(Kinds(SplitLines(markdown))) }

  function ItemLines(items: seq<string>): seq<seq<Token>> {
    if items == [] then [] else [Tagged(Li, items[0])] + ItemLines(items[1..])
  }

  function BlockLines(b: Block): seq<seq<Token>> {
    match b
    case Single(tag, text) => [Tagged(tag, text)]
    case Picture(src, alt) => [[Img(src, alt)]]
    case List(items) => [[Open(Ul)]] + ItemLines(items) + [[Close(Ul)]]
  }

  function DocumentLines(doc: seq<Block>): seq<seq<Token>> {
    if doc == [] then [] else BlockLines(doc[0]) + DocumentLines(doc[1..])
  }

  function JoinTokens(lines: seq<seq<Token>>): seq<Token> {
    if lines == [] then [] else if |lines| == 1 then lines[0] else lines[0] + [Text('\n')] + JoinTokens(lines[1..])
  }

  function Events(doc: seq<Block>): seq<Token> { JoinTokens(DocumentLines(doc)) }

  // ---------------------------------------------------------------- printing tokens

  function PrintToken(t: Token): string {
    match t
    case Open(tag) => OpenTag(tag)
    case Close(tag) => CloseTag(tag)
    case Img(src, alt) => ImgTag(src, alt)
    case Text(c) => EscapeChar(c)
  }

  function PrintTokens(ts: seq<Token>): string {
    if ts == [] then "" else PrintToken(ts[0]) + PrintTokens(ts[1..])
  }
}
