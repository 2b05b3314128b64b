// What a reader of the rendered CV sees is the document of the Markdown source, with its text unchanged.
module CvHtmlReading {
  import opened Wrappers
  import opened CvHtml

  // ---------------------------------------------------------------- reading what was printed

  lemma {:induction false} UpToPrinted(name: string, stop: char, rest: string)
    requires forall i :: 0 <= i < |name| ==> name[i] != stop
    ensures UpTo(name + ([stop] + rest), stop) == Some((name, rest))
  {
    if name == "" {
      assert name + ([stop] + rest) == [stop] + rest;
    } else {
      var s := name + ([stop] + rest);
      assert s[0] == name[0] && s[1..] == name[1..] + ([stop] + rest);
      UpToPrinted(name[1..], stop, rest);
      assert name == [name[0]] + name[1..];
    }
  }

  function EntityName(c: char): string {
    match c
    case '&' => "amp"
    case '<' => "lt"
    case '>' => "gt"
    case '"' => "quot"
    case '\'' => "#x27"
    case _ => ""
  }

  lemma ReadEscaped(c: char, rest: string)
    ensures EscapeChar(c) + rest != "" && ReadChar(EscapeChar(c) + rest) == (c, |EscapeChar(c)|)
    ensures EscapeChar(c)[0] != '<' && EscapeChar(c)[0] != '"'
    ensures (EscapeChar(c) + rest)[|EscapeChar(c)|..] == rest
  {
    var s := EscapeChar(c) + rest;
    if EscapeChar(c) == [c] {
      assert s[0] == c;
    } else {
      assert s[1..] == EntityName(c) + ([';'] + rest);
      UpToPrinted(EntityName(c), ';', rest);
    }
  }

  lemma {:induction false} ReadEscapedValue(v: string, rest: string)
    ensures ReadValue(Escape(v) + ("\"" + rest)) == Some((v, rest))
  {
    if v == "" {
      assert Escape(v) + ("\"" + rest) == "\"" + rest;
    } else {
      var tail := Escape(v[1..]) + ("\"" + rest);
      assert Escape(v) + ("\"" + rest) == EscapeChar(v[0]) + tail;
      ReadEscaped(v[0], tail);
      ReadEscapedValue(v[1..], rest);
      assert [v[0]] + v[1..] == v;
    }
  }

  lemma ReadPrintedImg(src: string, alt: string, rest: string)
    ensures ReadImg(PrintToken(Img(src, alt)) + rest) == Some((Img(src, alt), rest))
  {
    var tail := STYLE + rest;
    var second := Escape(alt) + ("\"" + tail);
    var middle := " alt=\"" + second;
    var first := Escape(src) + ("\"" + middle);
    assert PrintToken(Img(src, alt)) + rest == "<img src=\"" + first;
    assert ("<img src=\"" + first)[10..] == first;
    ReadEscapedValue(src, middle);
    assert middle[6..] == second;
    ReadEscapedValue(alt, tail);
    assert tail[|STYLE|..] == rest;
  }

  lemma ReadPrintedName(tag: Tag, rest: string, closing: bool)
    ensures ReadName(Name(tag) + (['>'] + rest), closing) == Some((if closing then Close(tag) else Open(tag), rest))
  {
    UpToPrinted(Name(tag), '>', rest);
  }

  lemma ReadPrintedOpen(tag: Tag, rest: string)
    ensures ReadTag(OpenTag(tag) + rest) == Some((Open(tag), rest))
  {
    var s := OpenTag(tag) + rest;
    assert s[1..] == Name(tag) + (['>'] + rest);
    assert s[1] == Name(tag)[0];
    ReadPrintedName(tag, rest, false);
  }

  lemma ReadPrintedClose(tag: Tag, rest: string)
    ensures ReadTag(CloseTag(tag) + rest) == Some((Close(tag), rest))
  {
    var s := CloseTag(tag) + rest;
    assert s[2..] == Name(tag) + (['>'] + rest);
    ReadPrintedName(tag, rest, true);
  }

  lemma LexTag(s: string, t: Token, rest: string)
    requires s != "" && s[0] == '<' && ReadTag(s) == Some((t, rest))
    ensures Lex(s) == Cons(t, Lex(rest))
  {
  }

  lemma LexText(c: char, rest: string)
    ensures Lex(EscapeChar(c) + rest) == Cons(Text(c), Lex(rest))
  {
    ReadEscaped(c, rest);
  }

  lemma LexPrinted(t: Token, rest: string)
    ensures Lex(PrintToken(t) + rest) == Cons(t, Lex(rest))
  {
    var s := PrintToken(t) + rest;
    match t
    case Text(c) => LexText(c, rest);
    case Img(src, alt) => ReadPrintedImg(src, alt, rest); LexImg(src, alt, rest);
    case Open(tag) => ReadPrintedOpen(tag, rest); LexTag(s, t, rest);
    case Close(tag) => ReadPrintedClose(tag, rest); LexTag(s, t, rest);
  }

  lemma LexImg(src: string, alt: string, rest: string)
    requires ReadImg(ImgTag(src, alt) + rest) == Some((Img(src, alt), rest))
    ensures Lex(ImgTag(src, alt) + rest) == Cons(Img(src, alt), Lex(rest))
  {
    var s := ImgTag(src, alt) + rest;
    assert |s| > 4 && s[0] == '<' && s[1] == 'i' && s[4] == ' ';
    assert ReadTag(s) == ReadImg(s);
    LexTag(s, Img(src, alt), rest);
  }

  lemma {:induction false} LexPrintTokens(ts: seq<Token>)
    ensures Lex(PrintTokens(ts)) == Some(ts)
  {
    if ts != [] {
      LexPrinted(ts[0], PrintTokens(ts[1..]));
      LexPrintTokens(ts[1..]);
      assert [ts[0]] + ts[1..] == ts;
    }
  }

  lemma PrintOne(t: Token)
    ensures PrintTokens([t]) == PrintToken(t)
  {
    assert PrintTokens([t][1..]) == "";
  }

  lemma {:induction false} PrintTokensConcat(a: seq<Token>, b: seq<Token>)
    ensures PrintTokens(a + b) == PrintTokens(a) + PrintTokens(b)
  {
    if a == [] {
      assert a + b == b;
    } else {
      assert (a + b)[1..] == a[1..] + b;
      PrintTokensConcat(a[1..], b);
    }
  }

  // ---------------------------------------------------------------- bold in the escaped and in the raw text

  predicate StarFree(s: string) { forall i :: 0 <= i < |s| ==> s[i] != '*' && s[i] != '\n' }

  function Through(e: string, r: Option<(string, string)>): Option<(string, string)> {
    match r case None => None case Some((inner, rest)) => Some((e + inner, rest))
  }

  lemma ThroughNothing(r: Option<(string, string)>)
    ensures Through("", r) == r
  {
    if r.Some? {
      assert "" + r.value.0 == r.value.0;
    }
  }

  lemma ThroughCons(e: string, r: Option<(string, string)>)
    requires e != ""
    ensures AfterFirst(e[0], Through(e[1..], r)) == Through(e, r)
  {
    if r.Some? {
      assert [e[0]] + (e[1..] + r.value.0) == e + r.value.0;
    }
  }

  lemma {:induction false} UpToStarsSkips(e: string, s: string)
    requires StarFree(e)
    ensures UpToStars(e + s) == Through(e, UpToStars(s))
  {
    if e == "" {
      assert e + s == s;
      ThroughNothing(UpToStars(s));
    } else {
      assert (e + s)[1..] == e[1..] + s;
      UpToStarsSkips(e[1..], s);
      ThroughCons(e, UpToStars(s));
    }
  }

  function EscapeBoth(r: Option<(string, string)>): Option<(string, string)> {
    match r case None => None case Some((inner, rest)) => Some((Escape(inner), Escape(rest)))
  }

  lemma EscapeCons(c: char, s: string)
    ensures Escape([c] + s) == EscapeChar(c) + Escape(s)
  {
  }

  lemma EscapedStars(s: string)
    ensures Stars(Escape(s)) <==> Stars(s)
    ensures Stars(s) ==> Escape(s)[2..] == Escape(s[2..])
  {
    if |s| >= 2 {
      assert Escape(s) == EscapeChar(s[0]) + (EscapeChar(s[1]) + Escape(s[1..][1..]));
      assert s[1..][1..] == s[2..];
    }
  }

  lemma EscapedChar(c: char)
    ensures EscapeChar(c) != "" && StarFree(EscapeChar(c)[1..]) && (EscapeChar(c)[0] == '\n' <==> c == '\n')
  {
  }

  lemma FirstAndRest(a: string, b: string)
    requires a != ""
    ensures a + b != "" && (a + b)[0] == a[0] && (a + b)[1..] == a[1..] + b
  {
  }

  lemma EscapeParts(s: string)
    requires s != ""
    ensures EscapeChar(s[0]) != "" && StarFree(EscapeChar(s[0])[1..])
    ensures Escape(s) != "" && Escape(s)[0] == EscapeChar(s[0])[0]
    ensures Escape(s)[1..] == EscapeChar(s[0])[1..] + Escape(s[1..])
    ensures Escape(s)[0] == '\n' <==> s[0] == '\n'
  {
    EscapedChar(s[0]);
    FirstAndRest(EscapeChar(s[0]), Escape(s[1..]));
  }

  lemma EscapeBothCons(c: char, r: Option<(string, string)>)
    ensures EscapeBoth(AfterFirst(c, r)) == Through(EscapeChar(c), EscapeBoth(r))
  {
    if r.Some? {
      EscapeCons(c, r.value.0);
    }
  }

  // What both patterns do with a first character that is taken in.
  lemma TakeFirst(s: string)
    requires s != "" && UpToStars(Escape(s[1..])) == EscapeBoth(UpToStars(s[1..]))
    ensures AfterFirst(Escape(s)[0], UpToStars(Escape(s)[1..])) == EscapeBoth(AfterFirst(s[0], UpToStars(s[1..])))
  {
    var e := EscapeChar(s[0]);
    EscapeParts(s);
    UpToStarsSkips(e[1..], Escape(s[1..]));
    ThroughCons(e, UpToStars(Escape(s[1..])));
    EscapeBothCons(s[0], UpToStars(s[1..]));
  }

  lemma {:induction false} UpToStarsEscapes(s: string)
    ensures UpToStars(Escape(s)) == EscapeBoth(UpToStars(s))
  {
    EscapedStars(s);
    if s != "" && !Stars(s) {
      UpToStarsEscapes(s[1..]);
      TakeFirst(s);
      EscapeParts(s);
    }
  }

  lemma BoldEscapes(s: string)
    ensures Bold(Escape(s)) == EscapeBoth(Bold(s))
  {
    if s != "" {
      UpToStarsEscapes(s[1..]);
      TakeFirst(s);
      EscapeParts(s);
    }
  }

  lemma {:induction false} PrintText(s: string)
    ensures PrintTokens(TextTokens(s)) == Escape(s)
  {
    if s != "" {
      assert TextTokens(s)[1..] == TextTokens(s[1..]);
      PrintText(s[1..]);
    }
  }

  lemma {:induction false} SubstituteSkips(e: string, s: string)
    requires StarFree(e)
    ensures SubstituteBold(e + s) == e + SubstituteBold(s)
  {
    if e == "" {
      assert e + s == s;
    } else {
      assert (e + s)[1..] == e[1..] + s;
      SubstituteSkips(e[1..], s);
    }
  }

  // Escaping first and marking bold afterwards prints the spans of the unescaped text.
  lemma {:induction false} InlineIsSpans(s: string)
    ensures MdInline(s) == PrintTokens(Spans(s))
    decreases |s|
  {
    if s != "" {
      EscapedStars(s);
      if Stars(s) && Bold(s[2..]).Some? {
        BoldEscapes(s[2..]);
        var (inner, rest) := Bold(s[2..]).value;
        InlineIsSpans(rest);
        PrintStrong(inner, Spans(rest));
      } else {
        InlineIsSpans(s[1..]);
        InlinePlain(s);
      }
    }
  }

  lemma PrintStrong(inner: string, rest: seq<Token>)
    ensures PrintTokens([Open(Strong)] + TextTokens(inner) + [Close(Strong)] + rest) ==
            OpenTag(Strong) + Escape(inner) + CloseTag(Strong) + PrintTokens(rest)
  {
    PrintText(inner);
    PrintOne(Open(Strong));
    PrintOne(Close(Strong));
    PrintTokensConcat([Open(Strong)] + TextTokens(inner) + [Close(Strong)], rest);
    PrintTokensConcat([Open(Strong)] + TextTokens(inner), [Close(Strong)]);
    PrintTokensConcat([Open(Strong)], TextTokens(inner));
  }

  lemma SubstitutePlain(x: string)
    requires x != "" && !(Stars(x) && Bold(x[2..]).Some?)
    ensures SubstituteBold(x) == [x[0]] + SubstituteBold(x[1..])
  {
  }

  lemma SamePlain(s: string)
    requires s != "" && !(Stars(s) && Bold(s[2..]).Some?)
    ensures Escape(s) != "" && !(Stars(Escape(s)) && Bold(Escape(s)[2..]).Some?)
  {
    EscapedStars(s);
    EscapeParts(s);
    if Stars(s) { BoldEscapes(s[2..]); }
  }

  lemma InlinePlain(s: string)
    requires s != "" && !(Stars(s) && Bold(s[2..]).Some?)
    ensures SubstituteBold(Escape(s)) == EscapeChar(s[0]) + SubstituteBold(Escape(s[1..]))
  {
    var e := EscapeChar(s[0]);
    SamePlain(s);
    EscapeParts(s);
    SubstitutePlain(Escape(s));
    SubstituteSkips(e[1..], Escape(s[1..]));
    ConsTail(e, SubstituteBold(Escape(s[1..])));
  }

  lemma ConsTail(e: string, rest: string)
    requires e != ""
    ensures [e[0]] + (e[1..] + rest) == e + rest
  {
  }

  // ---------------------------------------------------------------- lines

  function PrintLines(lines: seq<seq<Token>>): (r: seq<string>)
    ensures |r| == |lines|
  {
    if lines == [] then [] else [PrintTokens(lines[0])] + PrintLines(lines[1..])
  }

  lemma PrintOneLine(t: Token)
    ensures PrintLines([[t]]) == [PrintToken(t)]
  {
    PrintOne(t);
    assert PrintLines([[t]][1..]) == [];
  }

  lemma {:induction false} PrintLinesConcat(a: seq<seq<Token>>, b: seq<seq<Token>>)
    ensures PrintLines(a + b) == PrintLines(a) + PrintLines(b)
  {
    if a == [] {
      assert a + b == b;
    } else {
      assert (a + b)[1..] == a[1..] + b;
      PrintLinesConcat(a[1..], b);
    }
  }

  lemma {:induction false} JoinPrints(lines: seq<seq<Token>>)
    ensures JoinLines(PrintLines(lines)) == PrintTokens(JoinTokens(lines))
  {
    if |lines| > 1 {
      JoinPrints(lines[1..]);
      var printed := PrintLines(lines);
      assert printed[1..] == PrintLines(lines[1..]) && printed[0] == PrintTokens(lines[0]);
      PrintTokensConcat(lines[0] + [Text('\n')], JoinTokens(lines[1..]));
      PrintTokensConcat(lines[0], [Text('\n')]);
      PrintOne(Text('\n'));
    }
  }

  lemma PrintElement(tag: Tag, text: string)
    ensures PrintTokens(Tagged(tag, text)) == Element(tag, MdInline(text))
  {
    InlineIsSpans(text);
    PrintTokensConcat([Open(tag)] + Spans(text), [Close(tag)]);
    PrintTokensConcat([Open(tag)], Spans(text));
    PrintOne(Open(tag));
    PrintOne(Close(tag));
  }

  lemma PrintImage(tag: string)
    ensures match ImageOf(tag)
            case None => SafeImg(tag) == ""
            case Some((src, alt)) => SafeImg(tag) != "" && PrintLines([[Img(src, alt)]]) == [SafeImg(tag)]
  {
    if ImageOf(tag).Some? {
      var (src, alt) := ImageOf(tag).value;
      PrintOneLine(Img(src, alt));
    }
  }

  lemma {:induction false} DocumentLinesConcat(a: seq<Block>, b: seq<Block>)
    ensures DocumentLines(a + b) == DocumentLines(a) + DocumentLines(b)
  {
    if a == [] {
      assert a + b == b;
    } else {
      assert (a + b)[1..] == a[1..] + b;
      DocumentLinesConcat(a[1..], b);
    }
  }

  lemma PrintDocument(a: seq<Block>, b: seq<Block>)
    ensures PrintLines(DocumentLines(a + b)) == PrintLines(DocumentLines(a)) + PrintLines(DocumentLines(b))
  {
    DocumentLinesConcat(a, b);
    PrintLinesConcat(DocumentLines(a), DocumentLines(b));
  }

  lemma OneBlock(b: Block)
    ensures DocumentLines([b]) == BlockLines(b)
  {
    assert DocumentLines([b][1..]) == [];
  }

  lemma PrintSingle(tag: Tag, t: string)
    ensures PrintLines(DocumentLines([Single(tag, t)])) == [Element(tag, MdInline(t))]
  {
    OneBlock(Single(tag, t));
    PrintElement(tag, t);
    assert PrintLines([Tagged(tag, t)][1..]) == [];
  }

  lemma PrintPicture(tag: string)
    ensures PrintLines(DocumentLines(Alone(Image(tag)))) == Emitted(Image(tag))
  {
    PrintImage(tag);
    if ImageOf(tag).Some? {
      OneBlock(Picture(ImageOf(tag).value.0, ImageOf(tag).value.1));
    }
  }

  lemma PrintAlone(kind: LineKind)
    requires !kind.Item?
    ensures PrintLines(DocumentLines(Alone(kind))) == Emitted(kind)
  {
    match kind
    case Blank =>
    case Heading1(t) => PrintSingle(H1, t);
    case Heading2(t) => PrintSingle(H2, t);
    case Plain(t) => PrintSingle(P, t);
    case Image(tag) => PrintPicture(tag);
  }

  function ListItems(items: seq<string>): seq<string> {
    if items == [] then [] else [Element(Li, MdInline(items[0]))] + ListItems(items[1..])
  }

  lemma {:induction false} PrintItems(items: seq<string>)
    ensures PrintLines(ItemLines(items)) == ListItems(items)
  {
    if items != [] {
      PrintElement(Li, items[0]);
      PrintItems(items[1..]);
      assert ItemLines(items)[1..] == ItemLines(items[1..]);
    }
  }

  lemma PrintList(items: seq<string>)
    ensures PrintLines(DocumentLines([List(items)])) == [OpenTag(Ul)] + ListItems(items) + [CloseTag(Ul)]
  {
    OneBlock(List(items));
    PrintLinesConcat([[Open(Ul)]] + ItemLines(items), [[Close(Ul)]]);
    PrintLinesConcat([[Open(Ul)]], ItemLines(items));
    PrintItems(items);
    PrintOneLine(Open(Ul));
    PrintOneLine(Close(Ul));
  }

  lemma OutputPlain(kinds: seq<LineKind>)
    requires kinds != [] && !kinds[0].Item?
    ensures Output(kinds, false) == Emitted(kinds[0]) + Output(kinds[1..], false)
  {
  }

  lemma OutputClosing(kinds: seq<LineKind>)
    requires kinds == [] || !kinds[0].Item?
    ensures Output(kinds, true) == [CloseTag(Ul)] + Output(kinds, false)
  {
  }

  lemma OutputItem(kinds: seq<LineKind>, inUl: bool)
    requires kinds != [] && kinds[0].Item?
    ensures Output(kinds, inUl) == Between(inUl, true)
        + ([Element(Li, MdInline(kinds[0].text))] + Output(kinds[1..], true))
  {
  }

  lemma ItemsCons(t: string, more: seq<string>, after: seq<string>)
    ensures ListItems([t] + more) + after == [Element(Li, MdInline(t))] + (ListItems(more) + after)
  {
    assert ([t] + more)[1..] == more;
  }

  lemma {:induction false} OutputInList(kinds: seq<LineKind>)
    ensures Output(kinds, true) ==
            ListItems(LeadingItems(kinds)) + ([CloseTag(Ul)] + Output(kinds[|LeadingItems(kinds)|..], false))
  {
    if kinds != [] && kinds[0].Item? {
      var rest := kinds[1..];
      var more := LeadingItems(rest);
      OutputInList(rest);
      OutputItem(kinds, true);
      assert kinds[1 + |more|..] == rest[|more|..];
      ItemsCons(kinds[0].text, more, [CloseTag(Ul)] + Output(rest[|more|..], false));
    } else {
      OutputClosing(kinds);
      assert kinds[0..] == kinds;
    }
  }

  lemma OutputOpening(kinds: seq<LineKind>)
    requires kinds != [] && kinds[0].Item?
    ensures Output(kinds, false) == [OpenTag(Ul)] + Output(kinds, true)
  {
    OutputItem(kinds, false);
    OutputItem(kinds, true);
  }

  lemma OutputList(kinds: seq<LineKind>, after: seq<Block>)
    requires kinds != [] && kinds[0].Item?
    requires Output(kinds[|LeadingItems(kinds)|..], false) == PrintLines(DocumentLines(after))
    ensures Output(kinds, false) == PrintLines(DocumentLines([List(LeadingItems(kinds))] + after))
  {
    var items := LeadingItems(kinds);
    OutputOpening(kinds);
    OutputInList(kinds);
    PrintDocument([List(items)], after);
    PrintList(items);
    Regroup([OpenTag(Ul)], ListItems(items), [CloseTag(Ul)], PrintLines(DocumentLines(after)));
  }

  lemma OutputAlone(kinds: seq<LineKind>, after: seq<Block>)
    requires kinds != [] && !kinds[0].Item? && Output(kinds[1..], false) == PrintLines(DocumentLines(after))
    ensures Output(kinds, false) == PrintLines(DocumentLines(Alone(kinds[0]) + after))
  {
    OutputPlain(kinds);
    PrintDocument(Alone(kinds[0]), after);
    PrintAlone(kinds[0]);
  }

  // One state bit against grouping into lists.
  lemma {:induction false} OutputIsDocument(kinds: seq<LineKind>)
    ensures Output(kinds, false) == PrintLines(DocumentLines(Blocks(kinds)))
    decreases |kinds|
  {
    if kinds != [] && kinds[0].Item? {
      var after := kinds[|LeadingItems(kinds)|..];
      OutputIsDocument(after);
      OutputList(kinds, Blocks(after));
    } else if kinds != [] {
      OutputIsDocument(kinds[1..]);
      OutputAlone(kinds, Blocks(kinds[1..]));
    }
  }

  // ---------------------------------------------------------------- nesting

  function Then(r: Option<seq<Tag>>, tokens: seq<Token>): Option<seq<Tag>> {
    match r case None => None case Some(stack) => Walk(tokens, stack)
  }

  lemma {:induction false} WalkConcat(a: seq<Token>, b: seq<Token>, stack: seq<Tag>)
    ensures Walk(a + b, stack) == Then(Walk(a, stack), b)
    decreases |a|
  {
    if a == [] {
      assert a + b == b;
    } else {
      assert (a + b)[1..] == a[1..] + b;
      if Step(a[0], stack).Some? {
        WalkConcat(a[1..], b, Step(a[0], stack).value);
      }
    }
  }

  predicate HoldsText(tag: Tag) { tag != Ul && tag != Strong }

  lemma {:induction false} WalkText(s: string, stack: seq<Tag>)
    requires stack != [] && stack[|stack| - 1] != Ul
    ensures Walk(TextTokens(s), stack) == Some(stack)
  {
    if s != "" {
      assert TextTokens(s)[1..] == TextTokens(s[1..]);
      WalkText(s[1..], stack);
    }
  }

  lemma {:induction false} WalkSpans(s: string, stack: seq<Tag>)
    requires stack != [] && HoldsText(stack[|stack| - 1])
    ensures Walk(Spans(s), stack) == Some(stack)
    decreases |s|
  {
    if s != "" {
      if Stars(s) && Bold(s[2..]).Some? {
        var (inner, rest) := Bold(s[2..]).value;
        WalkSpans(rest, stack);
        WalkStrong(inner, Spans(rest), stack);
      } else {
        WalkSpans(s[1..], stack);
        assert Spans(s)[1..] == Spans(s[1..]);
      }
    }
  }

  lemma WalkStrong(inner: string, rest: seq<Token>, stack: seq<Tag>)
    requires stack != [] && HoldsText(stack[|stack| - 1])
    ensures Walk([Open(Strong)] + TextTokens(inner) + [Close(Strong)] + rest, stack) == Walk(rest, stack)
  {
    var inside := stack + [Strong];
    WalkText(inner, inside);
    WalkOne(Close(Strong), inside);
    WalkOne(Open(Strong), stack);
    WalkConcat([Open(Strong)] + TextTokens(inner) + [Close(Strong)], rest, stack);
    WalkConcat([Open(Strong)] + TextTokens(inner), [Close(Strong)], stack);
    WalkConcat([Open(Strong)], TextTokens(inner), stack);
    assert inside[..|inside| - 1] == stack;
  }

  lemma WalkOne(t: Token, stack: seq<Tag>)
    ensures Walk([t], stack) == Step(t, stack)
  {
  }

  lemma WalkElement(tag: Tag, text: string, stack: seq<Tag>)
    requires HoldsText(tag) && MayOpen(stack, tag)
    ensures Walk(Tagged(tag, text), stack) == Some(stack)
  {
    var inside := stack + [tag];
    WalkSpans(text, inside);
    WalkConcat([Open(tag)] + Spans(text), [Close(tag)], stack);
    WalkConcat([Open(tag)], Spans(text), stack);
    WalkOne(Open(tag), stack);
    WalkOne(Close(tag), inside);
    assert inside[..|inside| - 1] == stack;
  }

  // A line may end here.
  predicate AtLineEnd(stack: seq<Tag>) { stack == [] || stack[|stack| - 1] == Ul }

  // Line by line, the newlines between them left out.
  function WalkLines(lines: seq<seq<Token>>, stack: seq<Tag>): Option<seq<Tag>> {
    if lines == [] then Some(stack)
    else match Walk(lines[0], stack)
      case None => None
      case Some(st) => if AtLineEnd(st) then WalkLines(lines[1..], st) else None
  }

  lemma {:induction false} WalkJoined(lines: seq<seq<Token>>, stack: seq<Tag>)
    requires WalkLines(lines, stack).Some?
    ensures Walk(JoinTokens(lines), stack) == WalkLines(lines, stack)
    decreases |lines|
  {
    if |lines| == 1 {
      assert WalkLines(lines[1..], Walk(lines[0], stack).value) == Some(Walk(lines[0], stack).value);
    } else if lines != [] {
      var st := Walk(lines[0], stack).value;
      WalkJoined(lines[1..], st);
      WalkOne(Text('\n'), st);
      WalkConcat(lines[0] + [Text('\n')], JoinTokens(lines[1..]), stack);
      WalkConcat(lines[0], [Text('\n')], stack);
    }
  }

  lemma {:induction false} WalkLinesConcat(a: seq<seq<Token>>, b: seq<seq<Token>>, stack: seq<Tag>)
    requires WalkLines(a, stack).Some?
    ensures WalkLines(a + b, stack) == WalkLines(b, WalkLines(a, stack).value)
    decreases |a|
  {
    if a == [] {
      assert a + b == b;
    } else {
      assert (a + b)[1..] == a[1..] + b;
      WalkLinesConcat(a[1..], b, Walk(a[0], stack).value);
    }
  }

  lemma WalkOneLine(line: seq<Token>, stack: seq<Tag>)
    requires Walk(line, stack).Some? && AtLineEnd(Walk(line, stack).value)
    ensures WalkLines([line], stack) == Walk(line, stack)
  {
    assert [line][1..] == [];
  }

  lemma {:induction false} WalkItems(items: seq<string>)
    ensures WalkLines(ItemLines(items), [Ul]) == Some([Ul])
  {
    if items != [] {
      WalkElement(Li, items[0], [Ul]);
      WalkItems(items[1..]);
      assert ItemLines(items)[1..] == ItemLines(items[1..]);
    }
  }

  predicate Sound(b: Block) {
    match b
    case Single(tag, _) => tag == H1 || tag == H2 || tag == P
    case Picture(src, _) => ImageSource(src)
    case List(items) => true
  }

  lemma WalkList(items: seq<string>)
    ensures WalkLines(BlockLines(List(items)), []) == Some([])
  {
    assert [] + [Ul] == [Ul] && [Ul][..0] == [];
    WalkOne(Open(Ul), []);
    WalkOne(Close(Ul), [Ul]);
    WalkOneLine([Open(Ul)], []);
    WalkOneLine([Close(Ul)], [Ul]);
    WalkItems(items);
    WalkLinesConcat([[Open(Ul)]], ItemLines(items), []);
    WalkLinesConcat([[Open(Ul)]] + ItemLines(items), [[Close(Ul)]], []);
  }

  lemma WalkBlock(b: Block)
    requires Sound(b)
    ensures WalkLines(BlockLines(b), []) == Some([])
  {
    match b
    case Single(tag, text) => WalkElement(tag, text, []); WalkOneLine(Tagged(tag, text), []);
    case Picture(src, alt) => WalkOne(Img(src, alt), []); WalkOneLine([Img(src, alt)], []);
    case List(items) => WalkList(items);
  }

  lemma {:induction false} WalkDocument(doc: seq<Block>)
    requires forall b :: b in doc ==> Sound(b)
    ensures WalkLines(DocumentLines(doc), []) == Some([])
  {
    if doc != [] {
      WalkBlock(doc[0]);
      WalkDocument(doc[1..]);
      WalkLinesConcat(BlockLines(doc[0]), DocumentLines(doc[1..]), []);
    }
  }

  lemma {:induction false} BlocksSound(kinds: seq<LineKind>)
    ensures forall b :: b in Blocks(kinds) ==> Sound(b)
    decreases |kinds|
  {
    if kinds != [] && kinds[0].Item? {
      BlocksSound(kinds[|LeadingItems(kinds)|..]);
    } else if kinds != [] {
      BlocksSound(kinds[1..]);
      assert forall b :: b in Alone(kinds[0]) ==> Sound(b);
    }
  }

  // For every Markdown text: read as HTML, the output is exactly the document of the source, its text
  // character by character, and its elements are well nested.
  lemma ReadsBack(markdown: string)
    ensures Lex(Html(markdown)) == Some(Events(Document(markdown)))
    ensures Walk(Events(Document(markdown)), []) == Some([])
  {
    var kinds := Kinds(SplitLines(markdown));
    var lines := DocumentLines(Blocks(kinds));
    OutputIsDocument(kinds);
    JoinPrints(lines);
    LexPrintTokens(JoinTokens(lines));
    BlocksSound(kinds);
    WalkDocument(Blocks(kinds));
    WalkJoined(lines, []);
  }
}
