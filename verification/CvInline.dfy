// What is bold and which image is shown, told by where stars and quotes stand in the text.
module CvInline {
  import opened Wrappers
  import opened CvHtml
  import opened CvMarkdown
  import opened Bytes
  import Base64
  import CvPhoto

  // ---------------------------------------------------------------- bold, told by where the stars stand

  ghost predicate NoStars(s: string, upTo: nat) { forall i :: 0 <= i < upTo && i <= |s| ==> !Stars(s[i..]) }

  lemma NoStarsTail(s: string, upTo: nat)
    requires s != "" && upTo > 0 && NoStars(s, upTo)
    ensures !Stars(s) && NoStars(s[1..], upTo - 1)
  {
    assert s[0..] == s;
    forall i | 0 <= i < upTo - 1 && i <= |s[1..]| ensures !Stars(s[1..][i..]) {
      assert s[1..][i..] == s[i + 1..];
    }
  }

  lemma {:induction false} UpToStarsAt(inner: string, rest: string)
    requires '\n' !in inner && NoStars(inner + ("**" + rest), |inner|)
    ensures UpToStars(inner + ("**" + rest)) == Some((inner, rest))
  {
    var s := inner + ("**" + rest);
    if inner == "" {
      assert s == "**" + rest && s[2..] == rest;
    } else {
      NoStarsTail(s, |inner|);
      assert s[0] == inner[0] && s[1..] == inner[1..] + ("**" + rest);
      UpToStarsAt(inner[1..], rest);
      assert [inner[0]] + inner[1..] == inner;
    }
  }

  lemma BoldAt(inner: string, rest: string)
    requires inner != "" && '\n' !in inner && NoStars(inner[1..] + ("**" + rest), |inner| - 1)
    ensures Bold(inner + ("**" + rest)) == Some((inner, rest))
  {
    var s := inner + ("**" + rest);
    assert s[0] == inner[0] && s[1..] == inner[1..] + ("**" + rest);
    UpToStarsAt(inner[1..], rest);
    assert [inner[0]] + inner[1..] == inner;
  }

  lemma SpansOpen(inner: string, rest: string)
    requires inner != "" && '\n' !in inner && NoStars(inner[1..] + ("**" + rest), |inner| - 1)
    ensures Spans("**" + (inner + ("**" + rest))) ==
            [Open(Strong)] + TextTokens(inner) + [Close(Strong)] + Spans(rest)
  {
    var s := "**" + (inner + ("**" + rest));
    assert Stars(s) && s[2..] == inner + ("**" + rest);
    BoldAt(inner, rest);
  }

  lemma TextCons(c: char, s: string, more: seq<Token>)
    ensures TextTokens([c] + s) + more == [CvHtml.Text(c)] + (TextTokens(s) + more)
  {
  }

  // The first two stars and the next two behind at least one character enclose what is bold; the text before them
  // is plain, and what follows is read on its own.
  lemma {:induction false} SpansBold(before: string, inner: string, rest: string)
    requires inner != "" && '\n' !in inner && NoStars(inner[1..] + ("**" + rest), |inner| - 1)
    requires NoStars(before + ("**" + (inner + ("**" + rest))), |before|)
    ensures Spans(before + ("**" + (inner + ("**" + rest)))) ==
            TextTokens(before) + ([Open(Strong)] + TextTokens(inner) + [Close(Strong)] + Spans(rest))
  {
    var starred := "**" + (inner + ("**" + rest));
    SpansOpen(inner, rest);
    if before == "" {
      assert before + starred == starred;
      assert TextTokens("") + Spans(starred) == Spans(starred);
    } else {
      var s := before + starred;
      NoStarsTail(s, |before|);
      assert s[0] == before[0] && s[1..] == before[1..] + starred;
      SpansBold(before[1..], inner, rest);
      TextCons(before[0], before[1..], Spans(starred));
      assert [before[0]] + before[1..] == before;
    }
  }

  lemma {:induction false} UpToNoStars(s: string)
    requires NoStars(s, |s|)
    ensures UpToStars(s) == None
  {
    if s != "" {
      NoStarsTail(s, |s|);
      UpToNoStars(s[1..]);
    }
  }

  // No two pairs of stars with something between them.
  ghost predicate Unpaired(s: string) {
    forall i, j :: 0 <= i && i + 3 <= j <= |s| ==> !(Stars(s[i..]) && Stars(s[j..]))
  }

  lemma UnpairedTail(s: string)
    requires s != "" && Unpaired(s)
    ensures Unpaired(s[1..])
  {
    forall i, j | 0 <= i && i + 3 <= j <= |s[1..]| ensures !(Stars(s[1..][i..]) && Stars(s[1..][j..])) {
      assert s[1..][i..] == s[i + 1..] && s[1..][j..] == s[j + 1..];
    }
  }

  lemma UnpairedIsOpen(s: string)
    requires Stars(s) && Unpaired(s)
    ensures Bold(s[2..]) == None
  {
    if |s| > 2 {
      var t := s[2..][1..];
      assert s[0..] == s;
      forall i | 0 <= i < |t| && i <= |t| ensures !Stars(t[i..]) {
        assert t[i..] == s[i + 3..];
      }
      UpToNoStars(t);
    }
  }

  // Without such pairs nothing is bold.
  lemma {:induction false} SpansPlain(s: string)
    requires Unpaired(s)
    ensures Spans(s) == TextTokens(s)
  {
    if s != "" {
      if Stars(s) { UnpairedIsOpen(s); }
      UnpairedTail(s);
      SpansPlain(s[1..]);
      assert [s[0]] + s[1..] == s;
      TextCons(s[0], s[1..], []);
      assert TextTokens(s[1..]) + [] == TextTokens(s[1..]) && TextTokens(s) + [] == TextTokens(s);
    }
  }

  // ---------------------------------------------------------------- the image line the assembler writes

  lemma {:induction false} UpToQuoteAt(v: string, rest: string)
    requires '"' !in v
    ensures UpToQuote(v + ("\"" + rest)) == Some(v)
  {
    var s := v + ("\"" + rest);
    if v == "" {
      assert s == "\"" + rest;
    } else {
      assert s[0] == v[0] && s[1..] == v[1..] + ("\"" + rest);
      UpToQuoteAt(v[1..], rest);
      assert [v[0]] + v[1..] == v;
    }
  }

  // `="..."` behind a name gives what stands between the quotes.
  lemma ValueAt(v: string, rest: string)
    requires '"' !in v
    ensures AfterName("=\"" + (v + ("\"" + rest))) == Some(v)
  {
    var s := "=\"" + (v + ("\"" + rest));
    assert LStrip(s) == s && s[1..] == "\"" + (v + ("\"" + rest));
    assert LStrip(s[1..]) == s[1..] && s[1..][1..] == v + ("\"" + rest);
    UpToQuoteAt(v, rest);
  }

  lemma {:induction false} LStripInto(v: string, y: string)
    requires y != "" && !Space(y[0])
    ensures LStrip(v + y) == LStrip(v) + y
  {
    if v == "" {
      assert v + y == y && LStrip(v) + y == y;
    } else {
      assert (v + y)[0] == v[0] && (v + y)[1..] == v[1..] + y;
      if Space(v[0]) { LStripInto(v[1..], y); }
    }
  }

  // Nothing but an equals sign and white space.
  ghost predicate OnlyEquals(v: string) {
    exists k :: 0 <= k < |v| && White(v[..k]) && v[k] == '=' && White(v[k + 1..])
  }

  lemma ValueMeansEquals(v: string, rest: string)
    requires '"' !in v
    ensures AfterName(v + ("\"" + rest)).Some? ==> OnlyEquals(v)
  {
    var y := "\"" + rest;
    LStripInto(v, y);
    var i := LStripCuts(v);
    if i < |v| && v[i] == '=' {
      var w := v[i + 1..];
      assert (LStrip(v) + y)[1..] == w + y;
      LStripInto(w, y);
      var j := LStripCuts(w);
      assert LStrip(w) == w[j..] && (j < |w| ==> w[j] != '"');
      assert w[..|w|] == w;
    }
  }

  // Some place in the source reads `alt =` up to its end.
  ghost predicate EndsInAlt(u: string) {
    exists i :: 0 <= i && i + 3 <= |u| && Letter('a', u[i]) && Letter('l', u[i + 1]) && Letter('t', u[i + 2])
      && OnlyEquals(u[i + 3..])
  }

  lemma EndsInAltTail(u: string)
    requires u != ""
    ensures EndsInAlt(u[1..]) ==> EndsInAlt(u)
    ensures |u| >= 3 && Letter('a', u[0]) && Letter('l', u[1]) && Letter('t', u[2]) && OnlyEquals(u[3..]) ==>
              EndsInAlt(u)
  {
    if EndsInAlt(u[1..]) {
      var i :| 0 <= i && i + 3 <= |u[1..]| && Letter('a', u[1..][i]) && Letter('l', u[1..][i + 1])
        && Letter('t', u[1..][i + 2]) && OnlyEquals(u[1..][i + 3..]);
      assert u[1..][i + 3..] == u[i + 4..];
      assert Letter('a', u[i + 1]);
    }
  }

  // Scanning for the alternative text passes over a source without such a place.
  lemma {:induction false} AltBehind(u: string, alt: string, rest: string, wordBefore: bool)
    requires '"' !in u && !EndsInAlt(u) && '"' !in alt
    ensures Attribute('a', 'l', 't', u + ("\"" + (" alt=\"" + (alt + ("\"" + rest)))), wordBefore) == Some(alt)
    decreases |u|
  {
    var more := " alt=\"" + (alt + ("\"" + rest));
    var s := u + ("\"" + more);
    if u == "" {
      assert s == "\"" + more && s[1..] == more;
      AltFound(alt, rest);
    } else {
      assert s[0] == u[0] && s[1..] == u[1..] + ("\"" + more);
      EndsInAltTail(u);
      NoAltHere(u, more);
      AltBehind(u[1..], alt, rest, WordChar(s[0]));
    }
  }

  lemma NoAltHere(u: string, more: string)
    requires u != "" && '"' !in u
    requires |u| >= 3 && Letter('a', u[0]) && Letter('l', u[1]) && Letter('t', u[2]) ==> !OnlyEquals(u[3..])
    ensures var s := u + ("\"" + more);
            !(|s| >= 3 && Letter('a', s[0]) && Letter('l', s[1]) && Letter('t', s[2]) && AfterName(s[3..]).Some?)
  {
    var s := u + ("\"" + more);
    if |u| >= 3 {
      assert s[3..] == u[3..] + ("\"" + more);
      ValueMeansEquals(u[3..], more);
    } else {
      assert s[|u|] == '"';
    }
  }

  lemma AltFound(alt: string, rest: string)
    requires '"' !in alt
    ensures Attribute('a', 'l', 't', " alt=\"" + (alt + ("\"" + rest)), false) == Some(alt)
    ensures Attribute('a', 'l', 't', "\"" + (" alt=\"" + (alt + ("\"" + rest))), false) == Some(alt)
    ensures Attribute('a', 'l', 't', "\"" + (" alt=\"" + (alt + ("\"" + rest))), true) == Some(alt)
  {
    var value := "=\"" + (alt + ("\"" + rest));
    var s := " alt=\"" + (alt + ("\"" + rest));
    assert s[1..] == "alt" + value;
    var named := "alt" + value;
    assert named[3..] == value && named[0] == 'a' && named[1] == 'l' && named[2] == 't';
    ValueAt(alt, rest);
    assert s[0] == ' ' && Attribute('a', 'l', 't', s, false) == Attribute('a', 'l', 't', s[1..], WordChar(' '));
    var q := "\"" + s;
    assert q[0] == '"' && q[1..] == s;
  }

  function ImageMarkup(src: string, alt: string, rest: string): string {
    "<img src=\"" + (src + ("\"" + (" alt=\"" + (alt + ("\"" + (rest + ">"))))))
  }

  lemma NamedSource(src: string, rest: string)
    requires '"' !in src
    ensures Attribute('s', 'r', 'c', "src" + ("=\"" + (src + ("\"" + rest))), false) == Some(src)
  {
    var value := "=\"" + (src + ("\"" + rest));
    var named := "src" + value;
    ValueAt(src, rest);
    assert named[3..] == value && named[0] == 's' && named[1] == 'r' && named[2] == 'c';
  }

  lemma SourceFound(src: string, rest: string)
    requires '"' !in src
    ensures Attribute('s', 'r', 'c', "<img src=\"" + (src + ("\"" + rest)), false) == Some(src)
  {
    var named := "src" + ("=\"" + (src + ("\"" + rest)));
    NamedSource(src, rest);
    PassOver('s', 'r', 'c', "<img ", named, false);
    SourceNamed(src + ("\"" + rest));
  }

  lemma SourceNamed(x: string)
    ensures "<img src=\"" + x == "<img " + ("src" + ("=\"" + x))
  {
  }

  // Characters that cannot begin the name are passed over.
  lemma {:induction false} PassOver(a: char, b: char, c: char, x: string, rest: string, wordBefore: bool)
    requires 'a' <= a <= 'z' && 'a' <= b <= 'z' && 'a' <= c <= 'z'
    requires x != "" && forall i :: 0 <= i < |x| ==> !Letter(a, x[i])
    ensures Attribute(a, b, c, x + rest, wordBefore) == Attribute(a, b, c, rest, WordChar(x[|x| - 1]))
    decreases |x|
  {
    assert (x + rest)[0] == x[0] && (x + rest)[1..] == x[1..] + rest;
    if |x| == 1 {
      assert x[1..] + rest == rest;
    } else {
      PassOver(a, b, c, x[1..], rest, WordChar(x[0]));
    }
  }

  lemma AltReached(src: string, alt: string, rest: string)
    requires '"' !in src && '"' !in alt && !EndsInAlt(src)
    ensures Attribute('a', 'l', 't', ImageMarkup(src, alt, rest), false) == Some(alt)
  {
    AltBehind(src, alt, rest + ">", false);
    var tail := src + ("\"" + (" alt=\"" + (alt + ("\"" + (rest + ">")))));
    PassOver('a', 'l', 't', "<img src=\"", tail, false);
  }

  lemma EndsTag(src: string, alt: string, rest: string)
    requires '>' !in src && '>' !in alt && '>' !in rest
    ensures ImageTag(ImageMarkup(src, alt, rest))
  {
    var x := "src=\"" + (src + ("\" alt=\"" + (alt + ("\"" + rest))));
    assert '>' !in x;
    var s := ImageMarkup(src, alt, rest);
    assert s == "<img " + (x + ">");
  }

  // A line that is an image with a source and a text, as the assembler writes the photo, shows that image if the
  // source is one of an image, with that text unless the source ends in what reads like another `alt`; otherwise it
  // shows nothing.
  lemma PhotoIsShown(src: string, alt: string, rest: string)
    requires '"' !in src && '"' !in alt && '>' !in src && '>' !in alt && '>' !in rest
    ensures var tag := ImageMarkup(src, alt, rest);
            && ImageTag(tag)
            && (!ImageSource(src) ==> ImageOf(tag) == None)
            && (ImageSource(src) ==> ImageOf(tag).Some? && ImageOf(tag).value.0 == src)
            && (ImageSource(src) && !EndsInAlt(src) ==> ImageOf(tag) == Some((src, alt)))
  {
    EndsTag(src, alt, rest);
    SourceFound(src, " alt=\"" + (alt + ("\"" + (rest + ">"))));
    if !EndsInAlt(src) { AltReached(src, alt, rest); }
  }

  // ---------------------------------------------------------------- the stored photo in the CV

  lemma {:induction false} EncodedChars(b: bytes)
    ensures forall i :: 0 <= i < |Base64.Encode(b)| ==>
              Base64.Encode(b)[i] == '=' || Base64.Value(Base64.Encode(b)[i]).Some?
  {
    forall v: nat | v < 64 ensures Base64.Value(Base64.Char(v)).Some? {
      Base64.ValueOfChar(v);
    }
    if |b| > 2 {
      EncodedChars(b[3..]);
      assert Base64.Encode(b)[4..] == Base64.Encode(b[3..]);
    }
  }

  // The letter before a single pad stands for six bits of which the last two are not used.
  lemma {:induction false} BeforePad(b: bytes)
    ensures var s := Base64.Encode(b);
            b != [] ==> |s| >= 4 && (s[|s| - 1] == '=' ==> !Letter('t', s[|s| - 2]))
  {
    var s := Base64.Encode(b);
    if |b| > 2 {
      var last := Base64.Char(b[2] as nat % 64);
      Base64.ValueOfChar(b[2] as nat % 64);
      BeforePad(b[3..]);
      assert s[4..] == Base64.Encode(b[3..]);
      assert b[3..] == [] ==> s[3] == last;
    } else if |b| == 2 {
      FourTimes(b[1] as nat % 16);
    }
  }

  lemma FourTimes(v: nat)
    requires v < 16
    ensures !Letter('t', Base64.Char(v * 4))
  {
    Base64.ValueOfChar(v * 4);
  }

  // No quote, no bracket, no white space.
  predicate Plain(s: string) { forall i :: 0 <= i < |s| ==> s[i] != '"' && s[i] != '>' && !Space(s[i]) }

  lemma PlainJoins(a: string, b: string)
    requires Plain(a) && Plain(b)
    ensures Plain(a + b)
  {
  }

  lemma EncodedIsPlain(b: bytes)
    ensures Plain(Base64.Encode(b))
  {
    EncodedChars(b);
  }

  lemma UriIsPlain(m: CvPhoto.Mime, cleaned: bytes)
    ensures Plain(CvPhoto.DataUri(m, cleaned))
  {
    var text := Base64.Encode(cleaned);
    EncodedIsPlain(cleaned);
    PlainJoins(";base64,", text);
    PlainJoins(CvPhoto.MimeName(m), ";base64," + text);
    PlainJoins("data:image/", CvPhoto.MimeName(m) + (";base64," + text));
  }

  lemma WhiteStarts(v: string, k: nat)
    requires 0 < k <= |v| && White(v[..k])
    ensures Space(v[0])
  {
    assert v[..k][0] == v[0];
  }

  lemma PlainIsNotWhite(v: string, k: nat)
    requires k <= |v| && Plain(v) && White(v[..k])
    ensures k == 0
  {
    if k > 0 { WhiteStarts(v, k); }
  }

  lemma AloneAtEnd(v: string)
    requires OnlyEquals(v) && Plain(v)
    ensures v == "="
  {
    var k :| 0 <= k < |v| && White(v[..k]) && v[k] == '=' && White(v[k + 1..]);
    PlainIsNotWhite(v, k);
    var w := v[k + 1..];
    assert w[..|w|] == w;
    PlainIsNotWhite(w, |w|);
    assert v == [v[0]];
  }

  lemma PlainTail(u: string, n: nat)
    requires n <= |u| && Plain(u)
    ensures Plain(u[n..])
  {
  }

  lemma AltEndAt(u: string, i: nat)
    requires i + 3 <= |u| && Plain(u) && OnlyEquals(u[i + 3..])
    ensures |u| == i + 4 && u[i + 3] == '='
  {
    PlainTail(u, i + 3);
    AloneAtEnd(u[i + 3..]);
    assert u[i + 3] == u[i + 3..][0];
  }

  lemma AltEndOf(u: string) returns (i: nat)
    requires EndsInAlt(u)
    ensures i + 3 <= |u| && Letter('t', u[i + 2]) && OnlyEquals(u[i + 3..])
  {
    i :| 0 <= i && i + 3 <= |u| && Letter('a', u[i]) && Letter('l', u[i + 1]) && Letter('t', u[i + 2])
      && OnlyEquals(u[i + 3..]);
  }

  lemma PlainAltEnd(u: string)
    requires Plain(u)
    ensures EndsInAlt(u) ==> |u| >= 4 && u[|u| - 1] == '=' && Letter('t', u[|u| - 2])
  {
    if EndsInAlt(u) {
      var i := AltEndOf(u);
      AltEndAt(u, i);
    }
  }

  lemma UriEnd(m: CvPhoto.Mime, cleaned: bytes)
    ensures var u := CvPhoto.DataUri(m, cleaned);
            |u| >= 2 && (u[|u| - 1] == '=' ==> !Letter('t', u[|u| - 2]))
  {
    var s := Base64.Encode(cleaned);
    BeforePad(cleaned);
    var head := "data:image/" + CvPhoto.MimeName(m);
    assert CvPhoto.DataUri(m, cleaned) == (head + ";base64,") + s;
  }

  lemma UriEndsInNoAlt(m: CvPhoto.Mime, cleaned: bytes)
    ensures !EndsInAlt(CvPhoto.DataUri(m, cleaned))
  {
    UriIsPlain(m, cleaned);
    UriEnd(m, cleaned);
    PlainAltEnd(CvPhoto.DataUri(m, cleaned));
  }

  lemma UriIsSource(m: CvPhoto.Mime, cleaned: bytes)
    ensures ImageSource(CvPhoto.DataUri(m, cleaned))
  {
    assert "data:image/" <= CvPhoto.DataUri(m, cleaned);
  }

  // The line the assembler writes for a stored photo shows exactly that photo, with its text.
  lemma StoredPhotoIsShown(m: CvPhoto.Mime, cleaned: bytes, alt: string, rest: string)
    requires '"' !in alt && '>' !in alt && '>' !in rest
    ensures var tag := ImageMarkup(CvPhoto.DataUri(m, cleaned), alt, rest);
            ImageTag(tag) && ImageOf(tag) == Some((CvPhoto.DataUri(m, cleaned), alt))
  {
    UriIsPlain(m, cleaned);
    UriIsSource(m, cleaned);
    UriEndsInNoAlt(m, cleaned);
    PhotoIsShown(CvPhoto.DataUri(m, cleaned), alt, rest);
  }
}
