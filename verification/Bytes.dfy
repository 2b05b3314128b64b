// Bytes and the fixed-width integers of the three image formats.
module Bytes {
  type byte = x: int | 0 <= x < 256

  type bytes = seq<byte>

  function Be16(b: bytes): (n: nat)
    requires |b| >= 2
    ensures n < 0x1_0000
  {
    256 * (b[0] as int) + b[1]
  }

  function Be32(b: bytes): (n: nat)
    requires |b| >= 4
    ensures n < 0x1_0000_0000
  {
    256 * (256 * (256 * (b[0] as int) + b[1]) + b[2]) + b[3]
  }

  function Le32(b: bytes): (n: nat)
    requires |b| >= 4
    ensures n < 0x1_0000_0000
  {
    b[0] + 256 * (b[1] + 256 * (b[2] + 256 * (b[3] as int)))
  }

  function ToBe16(n: nat): (b: bytes)
    requires n < 0x1_0000
    ensures |b| == 2 && Be16(b) == n
  {
    [n / 256, n % 256]
  }

  function ToLe32(n: nat): (b: bytes)
    requires n < 0x1_0000_0000
    ensures |b| == 4 && Le32(b) == n
  {
    var q1, q2, q3 := n / 256, n / 256 / 256, n / 256 / 256 / 256;
    [n % 256, q1 % 256, q2 % 256, q3]
  }

  lemma Be16Unique(b: bytes)
    requires |b| == 2
    ensures ToBe16(Be16(b)) == b
  {
  }
}
