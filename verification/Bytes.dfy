/** Bytes, optional values and the network byte order shared by the other modules. */
module Bytes {

  type byte = x: int | 0 <= x < 256

  datatype Option<+T> = None | Some(value: T)

  function Be16(n: nat): (r: seq<byte>)
    requires n < 0x1_0000
    ensures |r| == 2
  {
    [n / 256, n % 256]
  }

  function Be32(n: nat): (r: seq<byte>)
    requires n < 0x1_0000_0000
    ensures |r| == 4
  {
    [n / 0x100_0000, n / 0x1_0000 % 256, n / 256 % 256, n % 256]
  }

  function FromBe32(a: byte, b: byte, c: byte, d: byte): nat {
    a * 0x100_0000 + b * 0x1_0000 + c * 256 + d
  }

  lemma Be32RoundTrip(n: nat)
    requires n < 0x1_0000_0000
    ensures var r := Be32(n); FromBe32(r[0], r[1], r[2], r[3]) == n
  {
    CutByte(n / 0x1_0000);
    TwoBytes(n);
    assert n / 0x100_0000 == n / 0x1_0000 / 256;
  }

  /** Network byte order: the first byte is the highest. */
  lemma Be16Shows(n: nat)
    requires n < 0x1_0000
    ensures Be16(n)[0] as int * 256 + Be16(n)[1] as int == n
  {
  }

  lemma Be32Shows(n: nat)
    requires n < 0x1_0000_0000
    ensures var r := Be32(n); r[0] as int * 0x100_0000 + r[1] as int * 0x1_0000 + r[2] as int * 256 + r[3] as int == n
  {
    Be32RoundTrip(n);
  }

  lemma CutByte(n: nat)
    ensures n == n / 256 * 256 + n % 256
  {
  }

  lemma TwoBytes(n: nat)
    ensures n == n / 0x1_0000 * 0x1_0000 + n / 256 % 256 * 256 + n % 256
  {
  }

  /** `whole` holds the bytes `part` at offset `at`. */
  ghost predicate Holds(whole: seq<byte>, at: nat, part: seq<byte>) {
    at + |part| <= |whole| && whole[at..at + |part|] == part
  }

  lemma HoldsSplit(whole: seq<byte>, at: nat, a: seq<byte>, b: seq<byte>)
    ensures Holds(whole, at, a + b) <==> Holds(whole, at, a) && Holds(whole, at + |a|, b)
  {
    if at + |a| + |b| <= |whole| {
      assert whole[at..at + |a + b|] == whole[at..at + |a|] + whole[at + |a|..at + |a| + |b|];
      assert (a + b)[..|a|] == a && (a + b)[|a|..] == b;
      var w := whole[at..at + |a + b|];
      assert w[..|a|] == whole[at..at + |a|] && w[|a|..] == whole[at + |a|..at + |a| + |b|];
    }
  }

  lemma HoldsAt(whole: seq<byte>, at: nat, part: seq<byte>, i: nat)
    requires Holds(whole, at, part) && i < |part|
    ensures at + i < |whole| && whole[at + i] == part[i]
  {
  }
}
