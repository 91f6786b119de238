/** The socket loops and stream operators of scaling/src/Socket.cpp as programs, proved against the
    encoding in module Streams. */
module StreamIO {
  import opened Bytes
  import opened Streams

  // ---------------------------------------------------------------- bytes of an integer

  /** `(val & (0xFF << s)) >> s` cut to a byte, where `scale` is 2^s. */
  function ByteOf(n: int, scale: nat): byte
    requires scale > 0
  {
    n / scale % 256
  }

  /** A byte shifted left, as an integer wide enough. */
  function Shl(b: int, scale: nat): int {
    b * scale
  }

  lemma NonzeroMultiple(k: int, d: nat)
    ensures k > 0 ==> d * k >= d
    ensures k < 0 ==> d * k + d <= 0
  {
  }

  lemma Quotient(n: int, d: nat, q: int, r: nat)
    requires d > 0 && r < d && n == d * q + r
    ensures n / d == q
  {
    assert d * (n / d - q) == r - n % d;
    NonzeroMultiple(n / d - q, d);
  }

  lemma Expand(a: int, q: int, r: int)
    ensures a * (256 * q + r) == (a * 256) * q + a * r
  {
  }

  /** Shifting in two steps is shifting at once. */
  lemma ShiftTwice(n: int, a: nat)
    requires a > 0
    ensures n / a / 256 == n / (a * 256)
  {
    var q, r := n / a / 256, n / a % 256;
    Expand(a, q, r);
    assert n == (a * 256) * q + (a * r + n % a);
    NonzeroMultiple(255 - r, a);
    Quotient(n, a * 256, q, a * r + n % a);
  }

  /** The two, four or eight bytes the writers compute are the little-endian encoding. */
  lemma LeCons(n: int, scale: nat, w: nat)
    requires scale > 0
    ensures Le(n / scale, w + 1) == [ByteOf(n, scale)] + Le(n / (scale * 256), w)
  {
    ShiftTwice(n, scale);
  }

  lemma LeTwo(n: int)
    ensures Le(n, 2) == [ByteOf(n, 1), ByteOf(n, 0x100)]
  {
    LeCons(n, 1, 1);
    LeCons(n, 0x100, 0);
  }

  lemma LeFour(n: int)
    ensures Le(n, 4) == [ByteOf(n, 1), ByteOf(n, 0x100), ByteOf(n, 0x1_0000), ByteOf(n, 0x100_0000)]
  {
    LeCons(n, 1, 3);
    LeCons(n, 0x100, 2);
    LeCons(n, 0x1_0000, 1);
    LeCons(n, 0x100_0000, 0);
  }

  lemma LeHighFour(n: int)
    ensures Le(n / 0x1_0000_0000, 4) == [ByteOf(n, 0x1_0000_0000), ByteOf(n, 0x100_0000_0000),
                                         ByteOf(n, 0x1_0000_0000_0000), ByteOf(n, 0x100_0000_0000_0000)]
  {
    LeCons(n, 0x1_0000_0000, 3);
    LeCons(n, 0x100_0000_0000, 2);
    LeCons(n, 0x1_0000_0000_0000, 1);
    LeCons(n, 0x100_0000_0000_0000, 0);
  }

  lemma LeEight(n: int)
    ensures Le(n, 8) == [ByteOf(n, 1), ByteOf(n, 0x100), ByteOf(n, 0x1_0000), ByteOf(n, 0x100_0000),
                         ByteOf(n, 0x1_0000_0000), ByteOf(n, 0x100_0000_0000), ByteOf(n, 0x1_0000_0000_0000), ByteOf(n, 0x100_0000_0000_0000)]
  {
    LeCons(n, 1, 7);
    LeCons(n, 0x100, 6);
    LeCons(n, 0x1_0000, 5);
    LeCons(n, 0x100_0000, 4);
    LeHighFour(n);
  }

  lemma FromLeCons(b: byte, rest: seq<byte>)
    ensures FromLe([b] + rest) == b + 256 * FromLe(rest)
  {
  }

  lemma FromLeTwo(d: seq<byte>)
    requires |d| == 2
    ensures FromLe(d) == d[0] + Shl(d[1], 0x100)
  {
    assert d == [d[0]] + ([d[1]] + []);
    FromLeCons(d[1], []);
    FromLeCons(d[0], [d[1]] + []);
  }

  lemma FromLeFour(d: seq<byte>)
    requires |d| == 4
    ensures FromLe(d) == d[0] + Shl(d[1], 0x100) + Shl(d[2], 0x1_0000) + Shl(d[3], 0x100_0000)
  {
    assert d == [d[0]] + ([d[1]] + d[2..]);
    FromLeTwo(d[2..]);
    FromLeCons(d[1], d[2..]);
    FromLeCons(d[0], [d[1]] + d[2..]);
  }

  lemma FromLeEight(d: seq<byte>)
    requires |d| == 8
    ensures FromLe(d) == d[0] + Shl(d[1], 0x100) + Shl(d[2], 0x1_0000) + Shl(d[3], 0x100_0000)
                       + Shl(d[4], 0x1_0000_0000) + Shl(d[5], 0x100_0000_0000) + Shl(d[6], 0x1_0000_0000_0000) + Shl(d[7], 0x100_0000_0000_0000)
  {
    assert d == [d[0]] + ([d[1]] + ([d[2]] + ([d[3]] + d[4..])));
    FromLeFour(d[4..]);
    FromLeCons(d[3], d[4..]);
    FromLeCons(d[2], [d[3]] + d[4..]);
    FromLeCons(d[1], [d[2]] + ([d[3]] + d[4..]));
    FromLeCons(d[0], [d[1]] + ([d[2]] + ([d[3]] + d[4..])));
  }

  // ---------------------------------------------------------------- the socket and the stream

  /** A connected socket: the bytes that will still arrive, the bytes sent, and whether system
      calls may fail. */
  class Stream {
    var incoming: seq<byte>
    var outgoing: seq<byte>
    const mayFail: bool

    constructor (incoming: seq<byte>, mayFail: bool)
      ensures this.incoming == incoming && outgoing == [] && this.mayFail == mayFail
    {
      this.incoming, outgoing, this.mayFail := incoming, [], mayFail;
    }

    /** The system call `send`: any positive number of bytes, or -1. */
    method SysSend(data: seq<byte>) returns (ret: int)
      requires data != []
      modifies this`outgoing
      ensures (ret == -1 && mayFail && outgoing == old(outgoing))
           || (1 <= ret <= |data| && outgoing == old(outgoing) + data[..ret])
    {
      if mayFail {
        var fails: bool := *;
        if fails {
          return -1;
        }
      }
      ret :| 1 <= ret <= |data|;
      outgoing := outgoing + data[..ret];
    }

    /** The system call `recv`: any positive number of the bytes that arrive, or -1. */
    method SysRecv(max: nat) returns (ret: int, chunk: seq<byte>)
      requires incoming != [] && max > 0
      modifies this`incoming
      ensures (ret == -1 && mayFail && chunk == [] && incoming == old(incoming))
           || (1 <= ret <= max && ret == |chunk| && old(incoming) == chunk + incoming)
    {
      if mayFail {
        var fails: bool := *;
        if fails {
          return -1, [];
        }
      }
      var most := if max < |incoming| then max else |incoming|;
      ret :| 1 <= ret <= most;
      chunk := incoming[..ret];
      incoming := incoming[ret..];
    }

    /** `Socket::Send`: sends everything unless a call fails, and then a prefix. */
    method Send(data: seq<byte>) returns (ret: int)
      modifies this`outgoing
      ensures ret != -1 ==> outgoing == old(outgoing) + data
      ensures ret == -1 ==> mayFail && exists k | 0 <= k < |data| :: outgoing == old(outgoing) + data[..k]
    {
      ret := 0;
      var total: nat := 0;
      while total != |data|
        invariant total <= |data| && ret != -1
        invariant outgoing == old(outgoing) + data[..total]
        decreases |data| - total
      {
        ret := SysSend(data[total..]);
        if ret == -1 {
          break;
        }
        assert data[total..][..ret] == data[total..total + ret];
        assert data[..total] + data[total..total + ret] == data[..total + ret];
        total := total + ret;
      }
    }

    /** `Socket::Recv`: fills the buffer unless a call fails; enough bytes must arrive. */
    method Recv(buf: array<byte>, size: nat) returns (ret: int)
      requires size <= buf.Length && size <= |incoming|
      modifies this`incoming, buf
      ensures buf[size..] == old(buf[size..])
      ensures ret != -1 ==> buf[..size] == old(incoming)[..size] && incoming == old(incoming)[size..]
      ensures ret == -1 ==> mayFail
    {
      ret := 0;
      var total: nat := 0;
      ghost var whole := incoming;
      while total != size
        invariant total <= size && ret != -1
        invariant incoming == whole[total..] && buf[..total] == whole[..total]
        invariant buf[size..] == old(buf[size..])
        decreases size - total
      {
        var chunk;
        ret, chunk := SysRecv(size - total);
        if ret == -1 {
          break;
        }
        assert whole[total..][..ret] == chunk && whole[total..][ret..] == whole[total + ret..];
        CopyInto(buf, total, chunk);
        assert buf[..total + ret] == buf[..total] + chunk;
        total := total + ret;
      }
    }

    static method CopyInto(buf: array<byte>, at: nat, chunk: seq<byte>)
      requires at + |chunk| <= buf.Length
      modifies buf
      ensures buf[..] == old(buf[..at]) + chunk + old(buf[at + |chunk|..])
    {
      for i := 0 to |chunk|
        invariant buf[..] == old(buf[..at]) + chunk[..i] + old(buf[at + i..])
      {
        buf[at + i] := chunk[i];
      }
    }

    /** `Stream::Write` and `Stream::Read` on calls that do not fail. */
    method Write(data: seq<byte>)
      requires !mayFail
      modifies this`outgoing
      ensures outgoing == old(outgoing) + data
    {
      var ret := Send(data);
    }

    method Read(size: nat) returns (data: seq<byte>)
      requires !mayFail && size <= |incoming|
      modifies this`incoming
      ensures data == old(incoming)[..size] && incoming == old(incoming)[size..]
    {
      var buf := new byte[size];
      var ret := Recv(buf, size);
      data := buf[..];
      assert buf[..] == buf[..size];
    }

    method PutInt(n: int, width: nat)
      requires !mayFail && (width == 2 || width == 4 || width == 8)
      modifies this`outgoing
      ensures outgoing == old(outgoing) + Le(n, width)
    {
      var data := new byte[width];
      data[0], data[1] := ByteOf(n, 1), ByteOf(n, 0x100);
      if width >= 4 {
        data[2], data[3] := ByteOf(n, 0x1_0000), ByteOf(n, 0x100_0000);
      }
      if width == 8 {
        data[4], data[5] := ByteOf(n, 0x1_0000_0000), ByteOf(n, 0x100_0000_0000);
        data[6], data[7] := ByteOf(n, 0x1_0000_0000_0000), ByteOf(n, 0x100_0000_0000_0000);
      }
      LeTwo(n);
      LeFour(n);
      LeEight(n);
      assert data[..] == Le(n, width);
      Write(data[..]);
    }

    method GetInt(width: nat, signed: bool) returns (n: int)
      requires !mayFail && (width == 2 || width == 4 || width == 8) && width <= |incoming|
      modifies this`incoming
      ensures n == AsInt(old(incoming)[..width], signed) && incoming == old(incoming)[width..]
    {
      var d := Read(width);
      n := d[0] + Shl(d[1], 0x100);
      if width == 2 {
        FromLeTwo(d);
      } else {
        n := n + Shl(d[2], 0x1_0000) + Shl(d[3], 0x100_0000);
        if width == 4 {
          FromLeFour(d);
        } else {
          n := n + Shl(d[4], 0x1_0000_0000) + Shl(d[5], 0x100_0000_0000);
          n := n + Shl(d[6], 0x1_0000_0000_0000) + Shl(d[7], 0x100_0000_0000_0000);
          FromLeEight(d);
        }
      }
      if signed && 2 * n >= Pow256(width) {
        n := n - Pow256(width);
      }
    }

    method PutString(text: seq<byte>)
      requires !mayFail
      modifies this`outgoing
      ensures outgoing == old(outgoing) + Le(|text|, 4) + text
    {
      PutInt(|text|, 4);
      Write(text);
    }

    /** The size in front of a string or container. */
    method GetSize() returns (n: nat)
      requires !mayFail && DecodeSize(incoming).Some?
      modifies this`incoming
      ensures DecodeSize(old(incoming)) == Some((n, incoming))
    {
      n := GetInt(4, false);
    }

    /** `val.append(buf)`: the bytes of a NUL-terminated buffer. */
    static method Append(text: seq<byte>) returns (val: seq<byte>)
      ensures val == UpToNul(text)
    {
      var buf := text + [0];
      val := [];
      var i := 0;
      assert text[0..] == text && [] + UpToNul(text) == UpToNul(text);
      while buf[i] != 0
        invariant 0 <= i <= |text|
        invariant val + UpToNul(text[i..]) == UpToNul(text)
        decreases |text| - i
      {
        assert text[i..][1..] == text[i + 1..];
        Regroup(val, [buf[i]], UpToNul(text[i + 1..]));
        val := val + [buf[i]];
        i := i + 1;
      }
      assert UpToNul(text[i..]) == [] && val + [] == val;
    }

    method GetString() returns (val: seq<byte>)
      requires !mayFail && Decode(TStr, incoming).Some?
      modifies this`incoming
      ensures Decode(TStr, old(incoming)) == Some(Got(Str(val), incoming))
    {
      var len := GetSize();
      var text := Read(len);
      val := Append(text);
    }

    // -------------------------------------------------------------- every type

    /** `operator<<` at the given type. */
    method Put(t: Type, v: Value)
      requires !mayFail && ValidType(t) && HasType(v, t)
      modifies this`outgoing
      ensures outgoing == old(outgoing) + Encode(t, v)
      decreases t.Rank(), 1
    {
      match t
      case TBool => Write([if v.b then 1 else 0]);
      case TInt(w, _) => PutInt(v.n, w);
      case TStr =>
        PutString(v.s);
        Regroup(old(outgoing), Le(|v.s|, 4), v.s);
      case TPair(a, b) =>
        Put(a, v.first);
        Put(b, v.second);
        Regroup(old(outgoing), Encode(a, v.first), Encode(b, v.second));
      case TVec(e) => PutAll(e, v.items);
      case TMap(k, w) => PutAll(TPair(k, w), v.entries);
    }

    /** The size, then every element in order. */
    method PutAll(t: Type, vs: seq<Value>)
      requires !mayFail && ValidType(t) && AllHaveType(vs, t)
      modifies this`outgoing
      ensures outgoing == old(outgoing) + (Le(|vs|, 4) + EncodeAll(t, vs))
      decreases t.Rank(), 2
    {
      PutInt(|vs|, 4);
      ghost var goal := outgoing + EncodeAll(t, vs);
      assert vs[0..] == vs;
      for i := 0 to |vs|
        invariant AllHaveType(vs[i..], t)
        invariant outgoing + EncodeAll(t, vs[i..]) == goal
      {
        assert vs[i..][1..] == vs[i + 1..] && vs[i..][0] == vs[i];
        Regroup(outgoing, Encode(t, vs[i]), EncodeAll(t, vs[i + 1..]));
        Put(t, vs[i]);
      }
      Regroup(old(outgoing), Le(|vs|, 4), EncodeAll(t, vs));
    }

    /** `operator>>` at the given type. */
    method Get(t: Type) returns (v: Value)
      requires !mayFail && ValidType(t) && Decode(t, incoming).Some?
      modifies this`incoming
      ensures Decode(t, old(incoming)) == Some(Got(v, incoming))
      decreases t.Rank(), 1
    {
      match t
      case TBool =>
        var raw := Read(1);
        v := Bool(raw[0] != 0);
      case TInt(w, signed) =>
        var n := GetInt(w, signed);
        v := Int(n);
      case TStr =>
        var s := GetString();
        v := Str(s);
      case TPair(a, b) =>
        var x := Get(a);
        var y := Get(b);
        v := Pair(x, y);
      case TVec(e) => v := GetVec(e);
      case TMap(k, w) => v := GetMap(k, w);
    }

    method GetVec(e: Type) returns (v: Value)
      requires !mayFail && ValidType(e) && Decode(TVec(e), incoming).Some?
      modifies this`incoming
      ensures Decode(TVec(e), old(incoming)) == Some(Got(v, incoming))
      decreases e.Rank() + 1, 0
    {
      ghost var goal := Decode(TVec(e), incoming);
      var size := GetSize();
      var items: seq<Value> := [];
      for i := 0 to size
        invariant DecodeVec(e, size - i, incoming, items) == goal
      {
        var curr := Get(e);
        items := items + [curr];
      }
      v := Vec(items);
    }

    method GetMap(k: Type, w: Type) returns (v: Value)
      requires !mayFail && ValidType(k) && ValidType(w) && Decode(TMap(k, w), incoming).Some?
      modifies this`incoming
      ensures Decode(TMap(k, w), old(incoming)) == Some(Got(v, incoming))
      decreases k.Rank() + w.Rank() + 2, 0
    {
      ghost var goal := Decode(TMap(k, w), incoming);
      var size := GetSize();
      var entries: seq<Value> := [];
      for i := 0 to size
        invariant DecodeMap(k, w, size - i, incoming, entries) == goal
      {
        var key := Get(k);
        var val := Get(w);
        entries := Insert(entries, key, val);
      }
      v := Map(entries);
    }
  }
}
