// Removing APP1 and APP13 segments from a JPEG file (ITU-T T.81, Annex B).
module JpegStrip {
  import opened Wrappers
  import opened Bytes

  // What follows the start-of-image marker. `Tail` runs to the end of the file: it is the scan, from its
  // marker on, or whatever does not start with a marker.
  datatype Segment = Standalone(marker: byte) | Marked(marker: byte, payload: bytes) | Tail(rest: bytes)

  predicate IsStandalone(marker: byte) {
    marker == 0xD8 || marker == 0xD9 || 0xD0 <= marker <= 0xD7
  }

  predicate StartsTail(b: bytes)
    requires b != []
  {
    b[0] != 0xFF || (|b| >= 2 && b[1] == 0xDA)
  }

  function Cons(s: Segment, rest: Option<seq<Segment>>): Option<seq<Segment>> {
    match rest case None => None case Some(r) => Some([s] + r)
  }

  // The segments of a file behind its start-of-image marker; `None` when it is malformed.
  function Parse(b: bytes): Option<seq<Segment>>
    decreases |b|
  {
    if b == [] then Some([])
    else if StartsTail(b) then Some([Tail(b)])
    else if |b| < 2 then None
    else if IsStandalone(b[1]) then Cons(Standalone(b[1]), Parse(b[2..]))
    else if |b| < 4 then None
    else
      var end := 2 + Be16(b[2..4]);
      if end > |b| || end < 4 then None else Cons(Marked(b[1], b[4..end]), Parse(b[end..]))
  }

  predicate Printable(s: Segment) {
    s.Marked? ==> |s.payload| + 2 < 0x1_0000
  }

  function PrintOne(s: Segment): bytes
    requires Printable(s)
  {
    match s
    case Standalone(m) => [0xFF, m]
    case Marked(m, payload) => [0xFF, m] + ToBe16(|payload| + 2) + payload
    case Tail(rest) => rest
  }

  function Print(ss: seq<Segment>): bytes
    requires forall s :: s in ss ==> Printable(s)
  {
    if ss == [] then [] else PrintOne(ss[0]) + Print(ss[1..])
  }

  // APP1 carries EXIF and XMP, APP13 the IPTC record.
  predicate Dropped(s: Segment) {
    s.Marked? && (s.marker == 0xE1 || s.marker == 0xED)
  }

  function Kept(ss: seq<Segment>): (r: seq<Segment>)
    ensures forall s :: s in r <==> s in ss && !Dropped(s)
  {
    if ss == [] then [] else (if Dropped(ss[0]) then [] else [ss[0]]) + Kept(ss[1..])
  }

  predicate HasSoi(raw: bytes) { |raw| >= 2 && raw[0] == 0xFF && raw[1] == 0xD8 }

  lemma {:induction false} ParsedPrintable(b: bytes)
    requires Parse(b).Some?
    ensures forall s :: s in Parse(b).value ==> Printable(s)
    decreases |b|
  {
    if b != [] && !StartsTail(b) {
      ParsedPrintable(if IsStandalone(b[1]) then b[2..] else b[2 + Be16(b[2..4])..]);
    }
  }

  // Parsing loses nothing.
  lemma {:induction false} PrintParsed(b: bytes)
    requires Parse(b).Some?
    ensures (forall s :: s in Parse(b).value ==> Printable(s)) && Print(Parse(b).value) == b
    decreases |b|
  {
    ParsedPrintable(b);
    if b != [] {
      if StartsTail(b) {
        assert Print([Tail(b)]) == b + Print([]) == b;
      } else {
        var end := if IsStandalone(b[1]) then 2 else 2 + Be16(b[2..4]);
        var first, others := Parse(b).value[0], Parse(b[end..]).value;
        PrintParsed(b[end..]);
        FirstPrinted(b);
        assert Parse(b).value == [first] + others;
        assert Print([first] + others) == PrintOne(first) + Print(others);
        assert b == b[..end] + b[end..];
      }
    }
  }

  lemma FirstPrinted(b: bytes)
    requires Parse(b).Some? && b != [] && !StartsTail(b)
    ensures var first := Parse(b).value[0];
            Printable(first) && PrintOne(first) == b[..if IsStandalone(b[1]) then 2 else 2 + Be16(b[2..4])]
  {
    if !IsStandalone(b[1]) {
      var end := 2 + Be16(b[2..4]);
      Be16Unique(b[2..4]);
      assert b[..end] == [b[0], b[1]] + b[2..4] + b[4..end];
    }
  }

  lemma ParseBehind(s: Segment, rest: bytes)
    requires Printable(s)
    requires s.Standalone? ==> IsStandalone(s.marker)
    requires s.Marked? ==> !IsStandalone(s.marker) && s.marker != 0xDA
    requires !s.Tail?
    ensures Parse(PrintOne(s) + rest) == Cons(s, Parse(rest))
  {
    var b := PrintOne(s) + rest;
    if s.Standalone? {
      assert b[0] == 0xFF && b[1] == s.marker && b[2..] == rest;
    } else {
      var end := 4 + |s.payload|;
      assert b[0] == 0xFF && b[1] == s.marker;
      assert b[2..4] == ToBe16(|s.payload| + 2) && b[4..end] == s.payload && b[end..] == rest;
    }
  }

  lemma KeptPrintable(b: bytes)
    requires Parse(b).Some?
    ensures forall s :: s in Kept(Parse(b).value) ==> Printable(s)
  {
    ParsedPrintable(b);
  }

  // Printing the segments that are kept gives a file with exactly these segments.
  lemma {:induction false} ParseKept(b: bytes)
    requires Parse(b).Some?
    ensures forall s :: s in Kept(Parse(b).value) ==> Printable(s)
    ensures Parse(Print(Kept(Parse(b).value))) == Some(Kept(Parse(b).value))
    ensures |Print(Kept(Parse(b).value))| <= |b|
    decreases |b|
  {
    KeptPrintable(b);
    if b != [] {
      if StartsTail(b) {
        assert Kept([Tail(b)]) == [Tail(b)];
        assert Print([Tail(b)]) == b + Print([]) == b;
      } else {
        var next := if IsStandalone(b[1]) then b[2..] else b[2 + Be16(b[2..4])..];
        var first := Parse(b).value[0];
        assert Parse(b).value == [first] + Parse(next).value;
        ParseKept(next);
        KeptCons(first, Parse(next).value);
        if !Dropped(first) {
          ParseBehind(first, Print(Kept(Parse(next).value)));
          assert Print([first] + Kept(Parse(next).value)) == PrintOne(first) + Print(Kept(Parse(next).value));
        }
      }
    }
  }

  lemma KeptCons(s: Segment, ss: seq<Segment>)
    ensures Kept([s] + ss) == (if Dropped(s) then [] else [s]) + Kept(ss)
    ensures Dropped(s) ==> Kept([s] + ss) == Kept(ss)
  {
    assert ([s] + ss)[1..] == ss;
  }

  // ---------------------------------------------------------------- the loop

  // What the loop still adds to its output when it stands before `b`; `None` when it gives up.
  function Rest(b: bytes): Option<bytes> {
    if Parse(b).None? then None
    else
      KeptPrintable(b);
      Some(Print(Kept(Parse(b).value)))
  }

  function Stripped(raw: bytes): bytes {
    if !HasSoi(raw) || Rest(raw[2..]).None? then raw else raw[..2] + Rest(raw[2..]).value
  }

  lemma RestTail(b: bytes)
    requires b != [] && StartsTail(b)
    ensures Rest(b) == Some(b)
  {
    assert Kept([Tail(b)]) == [Tail(b)];
    assert Print([Tail(b)]) == b + Print([]) == b;
  }

  lemma RestStep(b: bytes, end: nat)
    requires b != [] && !StartsTail(b) && |b| >= 2
    requires if IsStandalone(b[1]) then end == 2 else |b| >= 4 && end == 2 + Be16(b[2..4]) && 4 <= end <= |b|
    requires end <= |b|
    ensures Rest(b).Some? <==> Rest(b[end..]).Some?
    ensures Rest(b).Some? ==>
              Rest(b).value == (if b[1] == 0xE1 || b[1] == 0xED then [] else b[..end]) + Rest(b[end..]).value
  {
    if Rest(b[end..]).Some? {
      var first := Parse(b).value[0];
      var others := Parse(b[end..]).value;
      assert Parse(b).value == [first] + others;
      KeptPrintable(b);
      KeptPrintable(b[end..]);
      KeptCons(first, others);
      if !Dropped(first) {
        assert Print([first] + Kept(others)) == PrintOne(first) + Print(Kept(others));
        FirstPrinted(b);
      }
    }
  }

  // Having written `out`, the loop stands at position i.
  ghost predicate Progress(raw: bytes, i: nat, out: bytes) {
    && 2 <= i <= |raw|
    && (Rest(raw[2..]).Some? <==> Rest(raw[i..]).Some?)
    && (Rest(raw[2..]).Some? ==> raw[..2] + Rest(raw[2..]).value == out + Rest(raw[i..]).value)
  }

  lemma Advance(raw: bytes, i: nat, end: nat, out: bytes)
    requires Progress(raw, i, out) && i + 1 < |raw| && i + 2 <= end <= |raw|
    requires raw[i] == 0xFF && raw[i + 1] != 0xDA
    requires if IsStandalone(raw[i + 1]) then end == i + 2
             else i + 4 <= |raw| && end == i + 2 + Be16(raw[i + 2..i + 4]) && i + 4 <= end
    ensures Progress(raw, end, if raw[i + 1] == 0xE1 || raw[i + 1] == 0xED then out else out + raw[i..end])
  {
    var b := raw[i..];
    Slices(raw, i, end);
    RestStep(b, end - i);
    if Rest(b).Some? {
      var dropped := raw[i + 1] == 0xE1 || raw[i + 1] == 0xED;
      Reassociate(out, if dropped then [] else raw[i..end], Rest(raw[end..]).value);
    }
  }

  lemma Slices(raw: bytes, i: nat, end: nat)
    requires i + 1 < |raw| && i <= end <= |raw|
    ensures raw[i..][end - i..] == raw[end..] && raw[i..][..end - i] == raw[i..end]
    ensures raw[i..][0] == raw[i] && raw[i..][1] == raw[i + 1]
    ensures i + 4 <= |raw| ==> raw[i..][2..4] == raw[i + 2..i + 4]
  {
  }

  lemma Reassociate(a: bytes, b: bytes, c: bytes)
    ensures a + (b + c) == (a + b) + c
    ensures b == [] ==> a + (b + c) == a + c
  {
  }

  lemma Finish(raw: bytes, i: nat, out: bytes)
    requires Progress(raw, i, out) && HasSoi(raw) && (i < |raw| ==> StartsTail(raw[i..]))
    ensures Stripped(raw) == out + raw[i..]
  {
    if i < |raw| { RestTail(raw[i..]); }
  }

  // `_strip_jpeg_exif`
  method StripJpegExif(raw: bytes) returns (out: bytes)
    ensures out == Stripped(raw)
  {
    if !HasSoi(raw) {
      return raw;
    }
    out := raw[..2];
    var i, n := 2, |raw|;
    while i < n
      invariant Progress(raw, i, out)
    {
      if raw[i] != 0xFF {
        Finish(raw, i, out);
        return out + raw[i..];
      }
      if i + 1 >= n {
        return raw;
      }
      var marker := raw[i + 1];
      if IsStandalone(marker) {
        Advance(raw, i, i + 2, out);
        out := out + raw[i..i + 2];
        i := i + 2;
      } else if marker == 0xDA {
        Finish(raw, i, out);
        return out + raw[i..];
      } else {
        if i + 4 > n {
          return raw;
        }
        var segLen := 256 * (raw[i + 2] as int) + raw[i + 3];
        var segEnd := i + 2 + segLen;
        if segEnd > n || segLen < 2 {
          assert Be16(raw[i..][2..4]) == segLen;
          return raw;
        }
        Advance(raw, i, segEnd, out);
        if !(marker == 0xE1 || marker == 0xED) {
          out := out + raw[i..segEnd];
        }
        i := segEnd;
      }
    }
    Finish(raw, i, out);
  }

  // ---------------------------------------------------------------- what stripping does

  // A well-formed file keeps every segment but APP1 and APP13, in order and byte for byte, its scan
  // included; any other input is returned as it is. Stripping never lengthens and is idempotent.
  lemma StripsJpeg(raw: bytes)
    ensures HasSoi(raw) && Parse(raw[2..]).Some? ==>
              HasSoi(Stripped(raw)) && Parse(Stripped(raw)[2..]) == Some(Kept(Parse(raw[2..]).value))
    ensures HasSoi(raw) && Parse(raw[2..]).Some? ==>
              forall s :: s in Parse(Stripped(raw)[2..]).value <==>
                          s in Parse(raw[2..]).value && !(s.Marked? && (s.marker == 0xE1 || s.marker == 0xED))
    ensures !(HasSoi(raw) && Parse(raw[2..]).Some?) ==> Stripped(raw) == raw
    ensures |Stripped(raw)| <= |raw|
    ensures Stripped(Stripped(raw)) == Stripped(raw)
  {
    if HasSoi(raw) && Parse(raw[2..]).Some? {
      ParseKept(raw[2..]);
      var out := Stripped(raw);
      assert out[2..] == Rest(raw[2..]).value && out[..2] == raw[..2];
      KeptTwice(Parse(raw[2..]).value);
    }
  }

  lemma {:induction false} KeptTwice(ss: seq<Segment>)
    ensures Kept(Kept(ss)) == Kept(ss)
  {
    if ss != [] {
      KeptTwice(ss[1..]);
      if !Dropped(ss[0]) { KeptCons(ss[0], Kept(ss[1..])); } else { assert Kept(ss) == Kept(ss[1..]); }
    }
  }
}
