// The base64 text photos are stored in, and the lenient decoder that measures them.
module Base64 {
  import opened Wrappers
  import opened Bytes

  // A-Z, a-z, 0-9, + and /.
  function Char(v: nat): char
    requires v < 64
  {
    if v < 26 then 'A' + v as char
    else if v < 52 then 'a' + (v - 26) as char
    else if v < 62 then '0' + (v - 52) as char
    else if v == 62 then '+' else '/'
  }

  function Value(c: char): Option<nat> {
    if 'A' <= c <= 'Z' then Some((c - 'A') as nat)
    else if 'a' <= c <= 'z' then Some(26 + (c - 'a') as nat)
    else if '0' <= c <= '9' then Some(52 + (c - '0') as nat)
    else if c == '+' then Some(62)
    else if c == '/' then Some(63)
    else None
  }

  function Encode(b: bytes): string {
    if b == [] then ""
    else
      var x := b[0] as nat;
      if |b| == 1 then [Char(x / 4), Char(x % 4 * 16), '=', '=']
      else
        var y := b[1] as nat;
        if |b| == 2 then [Char(x / 4), Char(x % 4 * 16 + y / 16), Char(y % 16 * 4), '=']
        else
          var z := b[2] as nat;
          [Char(x / 4), Char(x % 4 * 16 + y / 16), Char(y % 16 * 4 + z / 64), Char(z % 64)] + Encode(b[3..])
  }

  function Emit(n: nat, rest: Option<bytes>): Option<bytes>
    requires n < 256
  {
    match rest case None => None case Some(r) => Some([n as byte] + r)
  }

  // Characters outside the alphabet are skipped and enough padding ends the text. `quad` is the place in
  // the group of four, `left` what the characters before it have not yet given to a byte.
  function DecodeFrom(s: string, quad: nat, left: nat, pads: nat): Option<bytes>
    requires quad < 4 && (quad == 1 ==> left < 64) && (quad == 2 ==> left < 16) && (quad == 3 ==> left < 4)
    decreases |s|, 1
  {
    if s == "" then (if quad == 0 then Some([]) else None)
    else if s[0] == '=' then
      if quad >= 2 && quad + pads + 1 >= 4 then Some([])
      else DecodeFrom(s[1..], quad, left, if quad >= 2 then pads + 1 else pads)
    else
      match Value(s[0])
      case None => DecodeFrom(s[1..], quad, left, pads)
      case Some(v) => Take(s, v, quad, left)
  }

  function Take(s: string, v: nat, quad: nat, left: nat): Option<bytes>
    requires s != "" && v < 64
    requires quad < 4 && (quad == 1 ==> left < 64) && (quad == 2 ==> left < 16) && (quad == 3 ==> left < 4)
    decreases |s|, 0
  {
    match quad
    case 0 => DecodeFrom(s[1..], 1, v, 0)
    case 1 => Emit(left * 4 + v / 16, DecodeFrom(s[1..], 2, v % 16, 0))
    case 2 => Emit(left * 16 + v / 4, DecodeFrom(s[1..], 3, v % 4, 0))
    case _ => Emit(left * 64 + v, DecodeFrom(s[1..], 0, 0, 0))
  }

  function Decode(s: string): Option<bytes> { DecodeFrom(s, 0, 0, 0) }

  // ---------------------------------------------------------------- the round trip

  lemma ValueOfChar(v: nat)
    requires v < 64
    ensures Value(Char(v)) == Some(v) && Char(v) != '=' && Char(v) != '\n' && Char(v) < '\U{0080}'
  {
  }

  lemma TakeChar(s: string, v: nat, quad: nat, left: nat, pads: nat)
    requires s != "" && v < 64 && s[0] == Char(v)
    requires quad < 4 && (quad == 1 ==> left < 64) && (quad == 2 ==> left < 16) && (quad == 3 ==> left < 4)
    ensures DecodeFrom(s, quad, left, pads) == Take(s, v, quad, left)
  {
    ValueOfChar(v);
  }

  // Three bytes as four groups of six bits.
  lemma SixBits(x: nat, y: nat, z: nat)
    requires x < 256 && y < 256 && z < 256
    ensures var a, b, c, d := x / 4, x % 4 * 16 + y / 16, y % 16 * 4 + z / 64, z % 64;
            && a < 64 && b < 64 && c < 64 && d < 64
            && a * 4 + b / 16 == x && b % 16 * 16 + c / 4 == y && c % 4 * 64 + d == z
  {
  }

  // Four characters that spell three bytes.
  predicate Spells(s: string, a: nat, b: nat, c: nat, d: nat) {
    && a < 64 && b < 64 && c < 64 && d < 64
    && |s| >= 4 && s[0] == Char(a) && s[1] == Char(b) && s[2] == Char(c) && s[3] == Char(d)
  }

  lemma DecodeFour(s: string, a: nat, b: nat, c: nat, d: nat)
    requires Spells(s, a, b, c, d)
    ensures Decode(s) == Emit(a * 4 + b / 16, Emit(b % 16 * 16 + c / 4, Emit(c % 4 * 64 + d, Decode(s[4..]))))
  {
    var s1, s2, s3 := s[1..], s[1..][1..], s[1..][1..][1..];
    assert s1[0] == s[1] && s2[0] == s[2] && s3[0] == s[3] && s3[1..] == s[4..];
    TakeChar(s, a, 0, 0, 0);
    TakeChar(s1, b, 1, a, 0);
    TakeChar(s2, c, 2, b % 16, 0);
    TakeChar(s3, d, 3, c % 4, 0);
  }

  lemma DecodeOne(s: string, x: nat)
    requires x < 256 && s == [Char(x / 4), Char(x % 4 * 16), '=', '=']
    ensures Decode(s) == Emit(x, Some([]))
  {
    var s1, s2, s3 := s[1..], s[1..][1..], s[1..][1..][1..];
    SixBits(x, 0, 0);
    assert s1[0] == s[1] && s2[0] == '=' && s3[0] == '=';
    TakeChar(s, x / 4, 0, 0, 0);
    TakeChar(s1, x % 4 * 16, 1, x / 4, 0);
    assert DecodeFrom(s3, 2, x % 4 * 16 % 16, 1) == Some([]);
  }

  lemma DecodeTwo(s: string, x: nat, y: nat)
    requires x < 256 && y < 256
    requires s == [Char(x / 4), Char(x % 4 * 16 + y / 16), Char(y % 16 * 4), '=']
    ensures Decode(s) == Emit(x, Emit(y, Some([])))
  {
    var s1, s2, s3 := s[1..], s[1..][1..], s[1..][1..][1..];
    var b, c := x % 4 * 16 + y / 16, y % 16 * 4;
    SixBits(x, y, 0);
    assert s1[0] == s[1] && s2[0] == s[2] && s3[0] == '=';
    TakeChar(s, x / 4, 0, 0, 0);
    TakeChar(s1, b, 1, x / 4, 0);
    TakeChar(s2, c, 2, b % 16, 0);
    assert DecodeFrom(s3, 3, c % 4, 0) == Some([]);
  }

  lemma EncodedGroup(b: bytes) returns (p: nat, q: nat, r: nat, t: nat)
    requires |b| > 2
    ensures Spells(Encode(b), p, q, r, t) && Encode(b)[4..] == Encode(b[3..])
    ensures p * 4 + q / 16 == b[0] && q % 16 * 16 + r / 4 == b[1] && r % 4 * 64 + t == b[2]
  {
    var x: nat, y: nat, z: nat := b[0], b[1], b[2];
    SixBits(x, y, z);
    p, q, r, t := x / 4, x % 4 * 16 + y / 16, y % 16 * 4 + z / 64, z % 64;
  }

  lemma DecodeGroup(b: bytes)
    requires |b| > 2
    ensures Decode(Encode(b)) == Emit(b[0], Emit(b[1], Emit(b[2], Decode(Encode(b[3..])))))
  {
    var p, q, r, t := EncodedGroup(b);
    DecodeFour(Encode(b), p, q, r, t);
  }

  lemma EmitAll(b: bytes)
    requires |b| > 2
    ensures Emit(b[0], Emit(b[1], Emit(b[2], Some(b[3..])))) == Some(b)
  {
    assert b == [b[0]] + ([b[1]] + ([b[2]] + b[3..]));
  }

  // Decoding gives the bytes back.
  lemma {:induction false} RoundTrip(b: bytes)
    ensures Decode(Encode(b)) == Some(b)
  {
    if b == [] {
    } else if |b| == 1 {
      DecodeOne(Encode(b), b[0]);
      assert b == [b[0]] + [];
    } else if |b| == 2 {
      DecodeTwo(Encode(b), b[0], b[1]);
      assert b == [b[0]] + ([b[1]] + []);
    } else {
      RoundTrip(b[3..]);
      DecodeGroup(b);
      EmitAll(b);
    }
  }

  predicate Tame(s: string) { forall i :: 0 <= i < |s| ==> s[i] != '\n' && s[i] < '\U{0080}' }

  // The text is ASCII on one line, and empty only for no bytes.
  lemma {:induction false} EncodedText(b: bytes)
    ensures Tame(Encode(b)) && (Encode(b) == "" <==> b == [])
  {
    forall v: nat | v < 64 ensures Char(v) != '\n' && Char(v) < '\U{0080}' {
      ValueOfChar(v);
    }
    if |b| > 2 {
      EncodedText(b[3..]);
      assert Encode(b)[4..] == Encode(b[3..]);
    }
  }

  // Section 10 of RFC 4648: "f", "fo" and "foo"; and the last two letters of the alphabet.
  lemma TestVectors()
    ensures Encode([0x66]) == "Zg==" && Encode([0x66, 0x6F]) == "Zm8="
    ensures Encode([0x66, 0x6F, 0x6F]) == "Zm9v" && Encode([0xFB, 0xEF, 0xFF]) == "++//"
  {
    OneGroup([0x66, 0x6F, 0x6F]);
    OneGroup([0xFB, 0xEF, 0xFF]);
  }

  lemma OneGroup(b: bytes)
    requires |b| == 3
    ensures Encode(b) == [Char(b[0] as nat / 4), Char(b[0] as nat % 4 * 16 + b[1] as nat / 16),
                          Char(b[1] as nat % 16 * 4 + b[2] as nat / 64), Char(b[2] as nat % 64)]
  {
    assert b[3..] == [];
  }
}
