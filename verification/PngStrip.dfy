// Removing ancillary chunks from a PNG file (RFC 2083, sections 3.2 and 3.3).
module PngStrip {
  import opened Wrappers
  import opened Bytes
  import opened Sequences

  const SIGNATURE: bytes := [0x89, 0x50, 0x4E, 0x47, 0x0D, 0x0A, 0x1A, 0x0A]
  const IEND: bytes := [0x49, 0x45, 0x4E, 0x44]

  // eXIf, tEXt, zTXt, iTXt, tIME
  const METADATA: seq<bytes> := [
    [0x65, 0x58, 0x49, 0x66], [0x74, 0x45, 0x58, 0x74], [0x7A, 0x54, 0x58, 0x74],
    [0x69, 0x54, 0x58, 0x74], [0x74, 0x49, 0x4D, 0x45]]

  // A chunk is kept whole: length, type, data and checksum.
  ghost predicate IsChunk(c: bytes) {
    |c| >= 12 && |c| == 12 + Be32(c[..4])
  }

  function Kind(c: bytes): bytes
    requires |c| >= 8
  {
    c[4..8]
  }

  predicate DropKind(kind: bytes)
    requires |kind| == 4
  {
    kind in METADATA || 0x61 <= kind[0] <= 0x7A
  }

  predicate Dropped(c: bytes) { |c| >= 8 && DropKind(Kind(c)) }

  function Cons(c: bytes, rest: Option<seq<bytes>>): Option<seq<bytes>> {
    match rest case None => None case Some(r) => Some([c] + r)
  }

  // The chunks behind the signature, up to and including the first IEND; `None` when malformed before it.
  function Parse(b: bytes): Option<seq<bytes>>
    decreases |b|
  {
    if b == [] then Some([])
    else if |b| < 8 then None
    else
      var end := 12 + Be32(b[..4]);
      if end > |b| then None
      else if b[4..8] == IEND then Some([b[..end]])
      else Cons(b[..end], Parse(b[end..]))
  }

  function Print(cs: seq<bytes>): bytes {
    if cs == [] then [] else cs[0] + Print(cs[1..])
  }

  function Kept(cs: seq<bytes>): (r: seq<bytes>)
    ensures forall c :: c in r <==> c in cs && !Dropped(c)
  {
    if cs == [] then [] else (if Dropped(cs[0]) then [] else [cs[0]]) + Kept(cs[1..])
  }

  predicate HasSignature(raw: bytes) { SIGNATURE <= raw }

  lemma KeptCons(c: bytes, cs: seq<bytes>)
    ensures Kept([c] + cs) == if Dropped(c) then Kept(cs) else [c] + Kept(cs)
    ensures Print([c] + cs) == c + Print(cs)
  {
    assert ([c] + cs)[1..] == cs;
  }

  lemma Slices(raw: bytes, i: nat, end: nat)
    requires i + 12 <= end <= |raw|
    ensures raw[i..][end - i..] == raw[end..] && raw[i..][..end - i] == raw[i..end]
    ensures raw[i..][..4] == raw[i..i + 4] && raw[i..][4..8] == raw[i + 4..i + 8] == Kind(raw[i..end])
  {
  }

  // The chunks read make up the file, but for what follows the first IEND.
  lemma {:induction false} PrintParsed(b: bytes) returns (trailing: bytes)
    requires Parse(b).Some?
    ensures b == Print(Parse(b).value) + trailing
    ensures forall c :: c in Parse(b).value ==> IsChunk(c)
    ensures trailing != [] ==> EndsWithIend(Parse(b).value)
    decreases |b|
  {
    if b == [] {
      trailing := [];
    } else {
      var end := 12 + Be32(b[..4]);
      Slices(b, 0, end);
      assert b[0..] == b;
      KeptCons(b[..end], []);
      if b[4..8] == IEND {
        trailing := b[end..];
        assert b == b[..end] + trailing;
      } else {
        trailing := PrintParsed(b[end..]);
        PrependParsed(b, end, trailing);
      }
    }
  }

  predicate EndsWithIend(cs: seq<bytes>) {
    cs != [] && |cs[|cs| - 1]| >= 8 && Kind(cs[|cs| - 1]) == IEND
  }

  lemma PrependParsed(b: bytes, end: nat, trailing: bytes)
    requires end <= |b| && Parse(b[end..]).Some? && b[end..] == Print(Parse(b[end..]).value) + trailing
    ensures b == Print([b[..end]] + Parse(b[end..]).value) + trailing
  {
    var others := Parse(b[end..]).value;
    KeptCons(b[..end], others);
    Associate(b[..end], Print(others), trailing);
    Cut(b, end);
  }

  lemma Cut(b: bytes, end: nat)
    requires end <= |b|
    ensures b == b[..end] + b[end..]
  {
  }

  lemma ParseBehind(c: bytes, rest: bytes)
    requires IsChunk(c)
    ensures Parse(c + rest) == if Kind(c) == IEND then Some([c]) else Cons(c, Parse(rest))
  {
    var b := c + rest;
    assert b[..4] == c[..4] && b[4..8] == Kind(c) && b[..|c|] == c && b[|c|..] == rest;
  }

  lemma {:induction false} ParseKept(b: bytes)
    requires Parse(b).Some?
    ensures Parse(Print(Kept(Parse(b).value))) == Some(Kept(Parse(b).value))
    ensures |Print(Kept(Parse(b).value))| <= |b|
    decreases |b|
  {
    if b != [] {
      var end := 12 + Be32(b[..4]);
      var c := b[..end];
      assert c[..4] == b[..4] && Kind(c) == b[4..8];
      var others := if Kind(c) == IEND then [] else Parse(b[end..]).value;
      assert Parse(b).value == [c] + others;
      KeptCons(c, others);
      if Kind(c) != IEND { ParseKept(b[end..]); }
      if !Dropped(c) {
        KeptCons(c, Kept(others));
        ParseBehind(c, Print(Kept(others)));
      }
    }
  }

  // ---------------------------------------------------------------- the loop

  function Rest(b: bytes): Option<bytes> {
    match Parse(b) case None => None case Some(cs) => Some(Print(Kept(cs)))
  }

  function Stripped(raw: bytes): bytes {
    if !HasSignature(raw) || Rest(raw[8..]).None? then raw else SIGNATURE + Rest(raw[8..]).value
  }

  ghost predicate Progress(raw: bytes, i: nat, out: bytes) {
    && 8 <= i <= |raw|
    && (Rest(raw[8..]).Some? <==> Rest(raw[i..]).Some?)
    && (Rest(raw[8..]).Some? ==> SIGNATURE + Rest(raw[8..]).value == out + Rest(raw[i..]).value)
  }

  lemma RestStep(raw: bytes, i: nat, end: nat)
    requires i + 12 <= end <= |raw| && end == i + 12 + Be32(raw[i..i + 4])
    ensures var piece := if Dropped(raw[i..end]) then [] else raw[i..end];
            && (Kind(raw[i..end]) == IEND ==> Rest(raw[i..]) == Some(raw[i..end]))
            && (Kind(raw[i..end]) != IEND ==>
                  && (Rest(raw[i..]).Some? <==> Rest(raw[end..]).Some?)
                  && (Rest(raw[i..]).Some? ==> Rest(raw[i..]).value == piece + Rest(raw[end..]).value))
  {
    var c := raw[i..end];
    ParseStep(raw, i, end);
    if Kind(c) == IEND {
      assert !Dropped(c);
      KeptCons(c, []);
      Neutral([c]);
      Neutral(c);
    } else if Parse(raw[end..]).Some? {
      var others := Parse(raw[end..]).value;
      KeptCons(c, others);
      KeptCons(c, Kept(others));
      Neutral(Print(Kept(others)));
    }
  }

  lemma ParseStep(raw: bytes, i: nat, end: nat)
    requires i + 12 <= end <= |raw| && end == i + 12 + Be32(raw[i..i + 4])
    ensures Parse(raw[i..]) == if Kind(raw[i..end]) == IEND then Some([raw[i..end]])
        else Cons(raw[i..end], Parse(raw[end..]))
  {
    Slices(raw, i, end);
  }

  lemma Advance(raw: bytes, i: nat, end: nat, out: bytes)
    requires Progress(raw, i, out) && i + 12 <= end <= |raw| && end == i + 12 + Be32(raw[i..i + 4])
    ensures Kind(raw[i..end]) == IEND && HasSignature(raw) ==> Stripped(raw) == out + raw[i..end]
    ensures Kind(raw[i..end]) != IEND ==> Progress(raw, end, if Dropped(raw[i..end]) then out else out + raw[i..end])
  {
    RestStep(raw, i, end);
    var piece := if Dropped(raw[i..end]) then [] else raw[i..end];
    if Kind(raw[i..end]) != IEND && Rest(raw[end..]).Some? {
      Associate(out, piece, Rest(raw[end..]).value);
      Neutral(out);
    }
  }

  // `_strip_png_metadata`
  method StripPngMetadata(raw: bytes) returns (out: bytes)
    ensures out == Stripped(raw)
  {
    if !(SIGNATURE <= raw) {
      return raw;
    }
    out := SIGNATURE;
    var i, n := 8, |raw|;
    while i < n
      invariant Progress(raw, i, out)
    {
      if i + 8 > n {
        return raw;
      }
      var length := Be32(raw[i..i + 4]);
      assert raw[i..][..4] == raw[i..i + 4];
      var chunkType := raw[i + 4..i + 8];
      var chunkEnd := i + 8 + length + 4;
      if chunkEnd > n {
        return raw;
      }
      Slices(raw, i, chunkEnd);
      Advance(raw, i, chunkEnd, out);
      if DropKind(chunkType) {
        assert chunkType != IEND;
        i := chunkEnd;
      } else {
        out := out + raw[i..chunkEnd];
        i := chunkEnd;
        if chunkType == IEND {
          return out;
        }
      }
    }
    assert raw[n..] == [] && out + [] == out;
  }

  // ---------------------------------------------------------------- what stripping does

  // The five names are those of ancillary chunks, too: a chunk is dropped when its name starts in lower case.
  lemma KeepsCritical(b: bytes)
    requires Parse(b).Some?
    ensures forall c :: c in Kept(Parse(b).value) <==>
                        c in Parse(b).value && |c| >= 12 && !('a' as int <= c[4] as int <= 'z' as int)
  {
    var trailing := PrintParsed(b);
    forall c | c in Parse(b).value ensures |c| >= 12 && (Dropped(c) <==> 0x61 <= c[4] <= 0x7A) {
      assert IsChunk(c) && Kind(c)[0] == c[4];
    }
  }

  lemma StrippedParses(raw: bytes)
    requires HasSignature(raw) && Parse(raw[8..]).Some?
    ensures HasSignature(Stripped(raw)) && Parse(Stripped(raw)[8..]) == Some(Kept(Parse(raw[8..]).value))
    ensures Stripped(raw) == SIGNATURE + Print(Kept(Parse(raw[8..]).value))
    ensures |Stripped(raw)| <= |raw| && Stripped(Stripped(raw)) == Stripped(raw)
  {
    ParseKept(raw[8..]);
    assert Stripped(raw)[8..] == Rest(raw[8..]).value;
    KeptTwice(Parse(raw[8..]).value);
  }

  // A file well-formed up to its first IEND keeps exactly its critical chunks, in order and byte for
  // byte, and loses what follows IEND; any other input is returned as it is. Stripping never lengthens
  // and is idempotent.
  lemma StripsPng(raw: bytes)
    ensures HasSignature(raw) && Parse(raw[8..]).Some? ==>
              && HasSignature(Stripped(raw)) && Parse(Stripped(raw)[8..]) == Some(Kept(Parse(raw[8..]).value))
              && Stripped(raw) == SIGNATURE + Print(Kept(Parse(raw[8..]).value))
              && forall c :: c in Kept(Parse(raw[8..]).value) <==>
                             c in Parse(raw[8..]).value && |c| >= 12 && !('a' as int <= c[4] as int <= 'z' as int)
    ensures !(HasSignature(raw) && Parse(raw[8..]).Some?) ==> Stripped(raw) == raw
    ensures |Stripped(raw)| <= |raw|
    ensures Stripped(Stripped(raw)) == Stripped(raw)
  {
    if HasSignature(raw) && Parse(raw[8..]).Some? {
      StrippedParses(raw);
      KeepsCritical(raw[8..]);
    }
  }

  lemma {:induction false} KeptTwice(cs: seq<bytes>)
    ensures Kept(Kept(cs)) == Kept(cs)
  {
    if cs != [] {
      KeptTwice(cs[1..]);
      if !Dropped(cs[0]) { KeptCons(cs[0], Kept(cs[1..])); } else { assert Kept(cs) == Kept(cs[1..]); }
    }
  }
}
