// Removing the EXIF and XMP chunks from a WebP file (RFC 9649, section 2.3).
module WebpStrip {
  import opened Wrappers
  import opened Bytes
  import opened Sequences

  const RIFF: bytes := [0x52, 0x49, 0x46, 0x46]
  const WEBP: bytes := [0x57, 0x45, 0x42, 0x50]
  const EXIF: bytes := [0x45, 0x58, 0x49, 0x46]
  const XMP: bytes := [0x58, 0x4D, 0x50, 0x20]

  // A chunk is kept whole: four-character code, size and payload, without its pad byte.
  ghost predicate IsChunk(c: bytes) {
    |c| >= 8 && |c| == 8 + Le32(c[4..8])
  }

  function Kind(c: bytes): bytes
    requires |c| >= 4
  {
    c[..4]
  }

  predicate Dropped(c: bytes) { |c| >= 4 && (Kind(c) == EXIF || Kind(c) == XMP) }

  function Cons(c: bytes, rest: Option<seq<bytes>>): Option<seq<bytes>> {
    match rest case None => None case Some(r) => Some([c] + r)
  }

  // Behind a chunk of odd size the reader skips one byte.
  function Padded(end: nat): nat { end + end % 2 }

  // The bytes from a position on; none if the position lies behind the end.
  function From(b: bytes, pos: nat): bytes { if pos <= |b| then b[pos..] else [] }

  // The chunks of a container body; `None` when one reaches beyond the body. Fewer than eight bytes at
  // the end are ignored.
  function Parse(b: bytes): Option<seq<bytes>>
    decreases |b|
  {
    if |b| < 8 then Some([])
    else
      var end := 8 + Le32(b[4..8]);
      if end > |b| then None else Cons(b[..end], Parse(From(b, Padded(end))))
  }

  // `b"".join(...)`: no pad bytes.
  function Print(cs: seq<bytes>): bytes {
    if cs == [] then [] else cs[0] + Print(cs[1..])
  }

  function Kept(cs: seq<bytes>): (r: seq<bytes>)
    ensures forall c :: c in r <==> c in cs && !Dropped(c)
  {
    if cs == [] then [] else (if Dropped(cs[0]) then [] else [cs[0]]) + Kept(cs[1..])
  }

  predicate IsWebp(raw: bytes) {
    |raw| >= 12 && raw[..4] == RIFF && raw[8..12] == WEBP
  }

  lemma KeptCons(c: bytes, cs: seq<bytes>)
    ensures Kept([c] + cs) == if Dropped(c) then Kept(cs) else [c] + Kept(cs)
    ensures Print([c] + cs) == c + Print(cs)
  {
    assert ([c] + cs)[1..] == cs;
  }

  // ---------------------------------------------------------------- the loop

  datatype Result = Bytes(value: bytes) | StructError

  // The container around a new body; `struct.pack("<I", ...)` refuses a size of 2^32 or more.
  function Container(body: bytes): Result {
    if |body| + 4 >= 0x1_0000_0000 then StructError else Bytes(RIFF + ToLe32(|body| + 4) + WEBP + body)
  }

  function Stripped(raw: bytes): Result {
    if !IsWebp(raw) then Bytes(raw)
    else match Parse(raw[12..])
      case None => Bytes(raw)
      case Some(cs) => Container(Print(Kept(cs)))
  }

  lemma Slices(body: bytes, pos: nat, end: nat)
    requires pos + 8 <= end <= |body|
    ensures body[pos..][4..8] == body[pos + 4..pos + 8] && body[pos..][..end - pos] == body[pos..end]
    ensures Kind(body[pos..end]) == body[pos..pos + 4]
  {
  }

  lemma FromFrom(b: bytes, pos: nat, k: nat)
    requires pos <= |b|
    ensures From(From(b, pos), k) == From(b, pos + k)
  {
  }

  lemma Parity(pos: nat, end: nat)
    requires pos % 2 == 0 && pos <= end
    ensures pos + Padded(end - pos) == Padded(end) && Padded(end) % 2 == 0
  {
  }

  ghost predicate Progress(body: bytes, pos: nat, outChunks: seq<bytes>) {
    && pos % 2 == 0
    && (Parse(body).Some? <==> Parse(From(body, pos)).Some?)
    && (Parse(body).Some? ==> Kept(Parse(body).value) == outChunks + Kept(Parse(From(body, pos)).value))
  }

  lemma Advance(body: bytes, pos: nat, end: nat, outChunks: seq<bytes>)
    requires Progress(body, pos, outChunks)
    requires pos + 8 <= end <= |body| && end == pos + 8 + Le32(body[pos + 4..pos + 8])
    ensures var c := body[pos..end];
            Progress(body, Padded(end), if Dropped(c) then outChunks else outChunks + [c])
  {
    var c, next := body[pos..end], From(body, Padded(end));
    Parity(pos, end);
    ParseStep(body, pos, end);
    if Parse(next).Some? {
      KeptCons(c, Parse(next).value);
      Associate(outChunks, [c], Kept(Parse(next).value));
    }
  }

  lemma ParseStep(body: bytes, pos: nat, end: nat)
    requires pos % 2 == 0 && pos + 8 <= end <= |body| && end == pos + 8 + Le32(body[pos + 4..pos + 8])
    ensures Parse(From(body, pos)) == Cons(body[pos..end], Parse(From(body, Padded(end))))
  {
    Slices(body, pos, end);
    NextPosition(body, pos, end);
    ParseOne(body[pos..], end - pos, body[pos..end], From(body, Padded(end)));
  }

  lemma NextPosition(body: bytes, pos: nat, end: nat)
    requires pos % 2 == 0 && pos <= end <= |body|
    ensures From(From(body, pos), Padded(end - pos)) == From(body, Padded(end))
  {
    FromFrom(body, pos, Padded(end - pos));
    Parity(pos, end);
  }

  lemma ParseOne(b: bytes, end: nat, c: bytes, next: bytes)
    requires 8 <= end <= |b| && end == 8 + Le32(b[4..8]) && c == b[..end] && next == From(b, Padded(end))
    ensures Parse(b) == Cons(c, Parse(next))
  {
  }

  lemma Truncated(body: bytes, pos: nat, end: nat)
    requires pos + 8 <= |body| < end && end == pos + 8 + Le32(body[pos + 4..pos + 8])
    ensures Parse(From(body, pos)).None?
  {
    assert body[pos..][4..8] == body[pos + 4..pos + 8];
  }

  lemma Exhausted(body: bytes, pos: nat, outChunks: seq<bytes>)
    requires Progress(body, pos, outChunks) && pos + 8 > |body|
    ensures Parse(body).Some? && Kept(Parse(body).value) == outChunks
  {
    assert Parse(From(body, pos)) == Some([]);
    Neutral(outChunks);
  }

  // `_strip_webp_metadata`
  method StripWebpMetadata(raw: bytes) returns (out: Result)
    ensures out == Stripped(raw)
  {
    if |raw| < 12 || raw[..4] != RIFF || raw[8..12] != WEBP {
      return Bytes(raw);
    }
    var body := raw[12..];
    var outChunks: seq<bytes> := [];
    var pos := 0;
    while pos + 8 <= |body|
      invariant Progress(body, pos, outChunks)
      decreases |body| - pos
    {
      var fourcc := body[pos..pos + 4];
      var size := Le32(body[pos + 4..pos + 8]);
      var chunkEnd := pos + 8 + size;
      if chunkEnd > |body| {
        Truncated(body, pos, chunkEnd);
        return Bytes(raw);
      }
      Slices(body, pos, chunkEnd);
      Advance(body, pos, chunkEnd, outChunks);
      if fourcc != EXIF && fourcc != XMP {
        outChunks := outChunks + [body[pos..chunkEnd]];
      }
      pos := Padded(chunkEnd);
    }
    Exhausted(body, pos, outChunks);
    out := Container(Print(outChunks));
  }

  // ---------------------------------------------------------------- what stripping does

  // Every chunk but the last has an even size, so that leaving out the pad bytes changes nothing.
  predicate EvenButLast(cs: seq<bytes>) {
    |cs| <= 1 || (|cs[0]| % 2 == 0 && EvenButLast(cs[1..]))
  }

  // What a reader consumes to see exactly these chunks.
  function Extent(cs: seq<bytes>): nat {
    if cs == [] then 0
    else if |cs| == 1 then |cs[0]|
    else Padded(|cs[0]|) + Extent(cs[1..])
  }

  lemma {:induction false} ParsedAreChunks(b: bytes)
    requires Parse(b).Some?
    ensures forall c :: c in Parse(b).value ==> IsChunk(c)
    decreases |b|
  {
    if |b| >= 8 {
      var end := 8 + Le32(b[4..8]);
      assert b[..end][4..8] == b[4..8];
      ParsedAreChunks(From(b, Padded(end)));
    }
  }

  lemma ExtentCons(c: bytes, cs: seq<bytes>)
    ensures Extent([c] + cs) == if cs == [] then |c| else Padded(|c|) + Extent(cs)
  {
    assert ([c] + cs)[1..] == cs;
  }

  lemma ExtentStep(c: bytes, rest: seq<bytes>, b: bytes, end: nat)
    requires |c| == end <= |b| && Extent(rest) <= |From(b, Padded(end))|
    requires From(b, Padded(end)) == [] ==> rest == []
    ensures Extent([c] + rest) <= |b|
  {
    ExtentCons(c, rest);
  }

  lemma {:induction false} ExtentFits(b: bytes)
    requires Parse(b).Some?
    ensures Extent(Parse(b).value) <= |b|
    decreases |b|
  {
    if |b| >= 8 {
      var end := 8 + Le32(b[4..8]);
      var next := From(b, Padded(end));
      ExtentFits(next);
      ExtentStep(b[..end], Parse(next).value, b, end);
    }
  }

  lemma ParsedChunks(b: bytes)
    requires Parse(b).Some?
    ensures forall c :: c in Parse(b).value ==> IsChunk(c)
    ensures Extent(Parse(b).value) <= |b|
  {
    ParsedAreChunks(b);
    ExtentFits(b);
  }

  lemma {:induction false} ExtentOfPrint(cs: seq<bytes>)
    ensures |Print(cs)| <= Extent(cs)
    ensures |Print(cs)| == Extent(cs) <==> EvenButLast(cs)
  {
    if |cs| > 1 { ExtentOfPrint(cs[1..]); }
    else if |cs| == 1 { assert Print(cs) == cs[0] + Print([]) == cs[0]; }
  }

  lemma {:induction false} ParsePrinted(cs: seq<bytes>)
    requires EvenButLast(cs) && forall c :: c in cs ==> IsChunk(c)
    ensures Parse(Print(cs)) == Some(cs) && (cs == [] <==> Print(cs) == [])
  {
    if cs != [] {
      assert cs[0] in cs;
      ParsePrinted(cs[1..]);
      ParseFront(cs[0], Print(cs[1..]));
      assert cs == [cs[0]] + cs[1..];
    }
  }

  lemma ParseFront(c: bytes, rest: bytes)
    requires IsChunk(c) && (rest == [] || |c| % 2 == 0)
    ensures Parse(c + rest) == Cons(c, Parse(rest))
  {
    var b := c + rest;
    assert b[4..8] == c[4..8] && b[..|c|] == c && From(b, Padded(|c|)) == rest;
  }

  lemma {:induction false} KeptShorter(cs: seq<bytes>)
    ensures |Print(Kept(cs))| <= |Print(cs)|
  {
    if cs != [] {
      KeptShorter(cs[1..]);
      KeptCons(cs[0], cs[1..]);
      assert cs == [cs[0]] + cs[1..];
      KeptCons(cs[0], Kept(cs[1..]));
    }
  }

  lemma {:induction false} KeptTwice(cs: seq<bytes>)
    ensures Kept(Kept(cs)) == Kept(cs)
  {
    if cs != [] {
      KeptTwice(cs[1..]);
      KeptCons(cs[0], cs[1..]);
      KeptCons(cs[0], Kept(cs[1..]));
      assert cs == [cs[0]] + cs[1..];
    }
  }

  lemma ContainerShape(body: bytes)
    requires |body| + 4 < 0x1_0000_0000
    ensures var out := Container(body);
            && out.Bytes? && IsWebp(out.value) && out.value[12..] == body
            && Le32(out.value[4..8]) == 4 + |body| == |out.value| - 8
  {
    var out := Container(body).value;
    assert out[..4] == RIFF && out[4..8] == ToLe32(|body| + 4) && out[8..12] == WEBP;
  }

  // What was joined without pad bytes reads back as it was if and only if no pad byte was needed.
  lemma ReadsBackIff(cs: seq<bytes>)
    requires forall c :: c in cs ==> IsChunk(c)
    ensures Parse(Print(cs)) == Some(cs) <==> EvenButLast(cs)
  {
    ExtentOfPrint(cs);
    if EvenButLast(cs) {
      ParsePrinted(cs);
    }
    if Parse(Print(cs)) == Some(cs) {
      ParsedChunks(Print(cs));
    }
  }

  lemma Shrinks(raw: bytes)
    requires IsWebp(raw) && Parse(raw[12..]).Some?
    ensures |Print(Kept(Parse(raw[12..]).value))| <= |raw| - 12
  {
    var cs := Parse(raw[12..]).value;
    ParsedChunks(raw[12..]);
    ExtentOfPrint(cs);
    KeptShorter(cs);
  }

  lemma {:induction false} NothingDropped(cs: seq<bytes>)
    requires (forall c :: c in cs ==> IsChunk(c)) && |Print(Kept(cs))| == |Print(cs)|
    ensures Kept(cs) == cs
  {
    if cs != [] {
      assert cs == [cs[0]] + cs[1..] && IsChunk(cs[0]);
      KeptCons(cs[0], cs[1..]);
      KeptCons(cs[0], Kept(cs[1..]));
      KeptShorter(cs[1..]);
      NothingDropped(cs[1..]);
    }
  }

  lemma PrintNothing(cs: seq<bytes>)
    requires forall c :: c in cs ==> IsChunk(c)
    ensures cs == [] <==> Print(cs) == []
  {
    if cs != [] { assert IsChunk(cs[0]); }
  }

  // A chunk says how long it is, so the joined text determines the chunks.
  lemma {:induction false} JoinInjective(a: seq<bytes>, b: seq<bytes>)
    requires (forall c :: c in a ==> IsChunk(c)) && (forall c :: c in b ==> IsChunk(c)) && Print(a) == Print(b)
    ensures a == b
  {
    if a == [] || b == [] {
      PrintNothing(a);
      PrintNothing(b);
    } else {
      assert IsChunk(a[0]) && IsChunk(b[0]);
      assert a[0][4..8] == Print(a)[4..8] && b[0][4..8] == Print(b)[4..8];
      assert a[0] == Print(a)[..|a[0]|] && b[0] == Print(b)[..|b[0]|];
      assert Print(a[1..]) == Print(a)[|a[0]|..] && Print(b[1..]) == Print(b)[|b[0]|..];
      JoinInjective(a[1..], b[1..]);
      assert a == [a[0]] + a[1..] && b == [b[0]] + b[1..];
    }
  }

  // A second pass leaves the joined chunks alone if and only if they are even but the last, or a reader
  // runs past the end of them.
  lemma SecondPassIff(kept: seq<bytes>)
    requires forall c :: c in kept ==> IsChunk(c)
    requires Parse(Print(kept)).Some?
    ensures Print(Kept(Parse(Print(kept)).value)) == Print(kept) && Kept(kept) == kept ==> EvenButLast(kept)
  {
    var body := Print(kept);
    var cs := Parse(body).value;
    ParsedChunks(body);
    if Print(Kept(cs)) == body {
      ExtentOfPrint(cs);
      KeptShorter(cs);
      NothingDropped(cs);
      JoinInjective(cs, kept);
    }
  }

  lemma ParseFirst(c: bytes, rest: bytes)
    requires IsChunk(c)
    ensures Parse(c + rest) == Cons(c, Parse(From(c + rest, Padded(|c|))))
  {
    assert (c + rest)[4..8] == c[4..8] && (c + rest)[..|c|] == c;
    ParseOne(c + rest, |c|, c, From(c + rest, Padded(|c|)));
  }

  lemma ParseLone(c: bytes)
    requires IsChunk(c)
    ensures Parse(c) == Some([c])
  {
    ParseFirst(c, []);
    assert c + [] == c && From(c, Padded(|c|)) == [];
    assert [c] + [] == [c];
  }

  // A reader of the joined chunks is out of step behind the first odd one, and what follows reads as
  // reaching beyond the end.
  predicate Misread(cs: seq<bytes>) {
    |cs| > 1 && if |cs[0]| % 2 == 1 then Print(cs[1..]) != [] && Parse(Print(cs[1..])[1..]).None? else Misread(cs[1..])
  }

  lemma ConsFails(c: bytes, rest: Option<seq<bytes>>)
    ensures Cons(c, rest).None? <==> rest.None?
  {
  }

  // A chunk of odd size costs the reader the next byte.
  lemma ParseBehindFirst(c: bytes, rest: bytes)
    requires IsChunk(c) && rest != []
    ensures Parse(c + rest).None? <==> Parse(if |c| % 2 == 1 then rest[1..] else rest).None?
  {
    var next := if |c| % 2 == 1 then rest[1..] else rest;
    assert From(c + rest, Padded(|c|)) == next;
    ParseFirst(c, rest);
    ConsFails(c, Parse(next));
  }

  lemma {:induction false} MisreadIff(cs: seq<bytes>)
    requires forall c :: c in cs ==> IsChunk(c)
    ensures Parse(Print(cs)).None? <==> Misread(cs)
  {
    if |cs| == 1 {
      assert IsChunk(cs[0]) && Print(cs) == cs[0] + [] == cs[0];
      ParseLone(cs[0]);
    } else if |cs| > 1 {
      assert IsChunk(cs[0]) && IsChunk(cs[1]);
      PrintNothing(cs[1..]);
      ParseBehindFirst(cs[0], Print(cs[1..]));
      if |cs[0]| % 2 == 0 { MisreadIff(cs[1..]); }
    }
  }

  lemma StrippedAgainIff(kept: seq<bytes>)
    requires (forall c :: c in kept ==> IsChunk(c)) && Kept(kept) == kept && |Print(kept)| + 4 < 0x1_0000_0000
    ensures var out := Container(Print(kept)).value;
            Stripped(out) == Bytes(out) <==> EvenButLast(kept) || Misread(kept)
  {
    MisreadIff(kept);
    var body := Print(kept);
    var out := Container(body).value;
    ContainerShape(body);
    if EvenButLast(kept) {
      ParsePrinted(kept);
    } else if Parse(body).Some? {
      var again := Print(Kept(Parse(body).value));
      SecondPassIff(kept);
      if Container(again).Bytes? { ContainerShape(again); }
    }
  }

  // Stripping a well-formed WebP file overflows the size field, or yields a RIFF container whose size field
  // is right. A reader finds in it exactly the chunks that were kept if and only if all of these but the
  // last have even size; stripping again changes nothing if and only if this is so, or what follows the first
  // odd chunk, read from its second byte on, seems to reach beyond the end. Anything else is returned as it is.
  lemma StripsWebp(raw: bytes)
    ensures !IsWebp(raw) || Parse(raw[12..]).None? ==> Stripped(raw) == Bytes(raw)
    ensures IsWebp(raw) && Parse(raw[12..]).Some? ==>
              var kept := Kept(Parse(raw[12..]).value);
              && (forall c :: c in kept <==>
                              && c in Parse(raw[12..]).value && |c| >= 4
                              && c[..4] != [0x45, 0x58, 0x49, 0x46] && c[..4] != [0x58, 0x4D, 0x50, 0x20])
              && (Stripped(raw).StructError? <==> 4 + |Print(kept)| >= 0x1_0000_0000)
              && (Stripped(raw).Bytes? ==>
                    var out := Stripped(raw).value;
                    && IsWebp(out) && |out| <= |raw|
                    && Le32(out[4..8]) == 4 + |out[12..]| && out[12..] == Print(kept)
                    && (Parse(out[12..]) == Some(kept) <==> EvenButLast(kept))
                    && (Stripped(out) == Bytes(out) <==> EvenButLast(kept) || Misread(kept)))
  {
    if IsWebp(raw) && Parse(raw[12..]).Some? {
      var kept := Kept(Parse(raw[12..]).value);
      Shrinks(raw);
      ParsedChunks(raw[12..]);
      assert forall c :: c in Parse(raw[12..]).value ==> IsChunk(c);
      ReadsBackIff(kept);
      KeptTwice(Parse(raw[12..]).value);
      if Stripped(raw).Bytes? {
        ContainerShape(Print(kept));
        StrippedAgainIff(kept);
      }
    }
  }

  // A file below 4 GiB never overflows.
  lemma SmallFits(raw: bytes)
    requires |raw| < 0x1_0000_0000
    ensures Stripped(raw).Bytes?
  {
    if IsWebp(raw) && Parse(raw[12..]).Some? { Shrinks(raw); }
  }

  // A kept chunk of odd size, and one without a payload.
  ghost predicate OddAndEmpty(odd: bytes, next: bytes) {
    && IsChunk(odd) && |odd| % 2 == 1 && !Dropped(odd)
    && IsChunk(next) && |next| == 8 && !Dropped(next)
  }

  lemma PaddedReads(odd: bytes, pad: bytes, next: bytes)
    requires OddAndEmpty(odd, next) && |pad| == 1
    ensures Parse(odd + (pad + next)) == Some([odd, next])
  {
    ParseFirst(odd, pad + next);
    assert From(odd + (pad + next), |odd| + 1) == next;
    ParseLone(next);
    assert [odd] + [next] == [odd, next];
  }

  lemma UnpaddedLoses(odd: bytes, next: bytes)
    requires OddAndEmpty(odd, next)
    ensures Parse(odd + next) == Some([odd])
  {
    ParseFirst(odd, next);
    assert |From(odd + next, |odd| + 1)| == 7;
    assert [odd] + [] == [odd];
  }

  // An odd chunk before an empty one: the output no longer shows the second, and a second pass drops it.
  lemma OddChunkLosesNext(size: bytes, odd: bytes, pad: bytes, next: bytes)
    requires |size| == 4 && OddAndEmpty(odd, next) && |pad| == 1 && |odd| < 1000
    ensures var raw := RIFF + size + WEBP + (odd + (pad + next));
            var out := Stripped(raw);
            && out.Bytes? && IsWebp(out.value) && Parse(out.value[12..]) == Some([odd])
            && Stripped(out.value) != out
  {
    var raw := RIFF + size + WEBP + (odd + (pad + next));
    assert raw[..4] == RIFF && raw[8..12] == WEBP && raw[12..] == odd + (pad + next);
    PaddedReads(odd, pad, next);
    UnpaddedLoses(odd, next);
    BothKept(odd, next);
    SmallFits(raw);
    StripsWebp(raw);
    ContainerShape(odd + next);
    assert !EvenButLast([odd, next]);
  }

  lemma BothKept(odd: bytes, next: bytes)
    requires OddAndEmpty(odd, next)
    ensures Kept([odd, next]) == [odd, next] && Print([odd, next]) == odd + next
  {
    KeptCons(next, []);
    KeptCons(odd, [next]);
    assert [next] + [] == [next] && [odd] + [next] == [odd, next] && next + [] == next;
  }

  // Two such chunks.
  lemma OddAndEmptyExist()
    ensures OddAndEmpty([0x41, 0x42, 0x43, 0x44, 1, 0, 0, 0, 7], [0x45, 0x46, 0x47, 0x48, 0, 0, 0, 0])
  {
    var odd, next: bytes := [0x41, 0x42, 0x43, 0x44, 1, 0, 0, 0, 7], [0x45, 0x46, 0x47, 0x48, 0, 0, 0, 0];
    assert odd[4..8] == [1, 0, 0, 0] && next[4..8] == [0, 0, 0, 0];
    assert Kind(odd)[0] == 0x41 && Kind(next)[1] == 0x46;
  }
}
