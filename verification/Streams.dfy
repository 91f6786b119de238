/** The stream operators of scaling/src/Socket.{hpp,cpp}: little-endian integers, length-prefixed
    strings and containers, written and read through short sends and receives. */
module Streams {
  import opened Bytes

  // ---------------------------------------------------------------- little-endian integers

  function Pow256(w: nat): (p: nat)
    ensures p >= 1
  {
    if w == 0 then 1 else 256 * Pow256(w - 1)
  }

  /** The `w` low bytes of a number in two's complement, lowest first. */
  function Le(n: int, w: nat): (r: seq<byte>)
    ensures |r| == w
    decreases w
  {
    if w == 0 then [] else [n % 256] + Le(n / 256, w - 1)
  }

  function FromLe(bytes: seq<byte>): nat {
    if bytes == [] then 0 else bytes[0] + 256 * FromLe(bytes[1..])
  }

  /** Reading back gives the number up to a multiple of 256^w. */
  lemma {:induction false} LeModulo(n: int, w: nat) returns (q: int)
    ensures FromLe(Le(n, w)) == n - q * Pow256(w)
    ensures FromLe(Le(n, w)) < Pow256(w)
    decreases w
  {
    if w == 0 {
      q := n;
    } else {
      q := LeModulo(n / 256, w - 1);
      assert Le(n, w)[1..] == Le(n / 256, w - 1);
      Scale(q, Pow256(w - 1));
    }
  }

  lemma Scale(q: int, p: nat)
    ensures 256 * (q * p) == q * (256 * p)
  {
  }

  /** The value the reader makes of `w` bytes. */
  function AsInt(bytes: seq<byte>, signed: bool): int {
    var u := FromLe(bytes);
    if signed && 2 * u >= Pow256(|bytes|) then u - Pow256(|bytes|) else u
  }

  predicate InRange(n: int, w: nat, signed: bool) {
    if signed then 0 <= 2 * n + Pow256(w) < 2 * Pow256(w) else 0 <= n < Pow256(w)
  }

  /** Every number of the type's range is read back, signed or unsigned. */
  lemma IntRoundTrip(n: int, w: nat, signed: bool)
    requires InRange(n, w, signed)
    ensures AsInt(Le(n, w), signed) == n
  {
    var q := LeModulo(n, w);
    OneMultiple(q, Pow256(w), n, FromLe(Le(n, w)));
  }

  lemma Multiples(q: int, p: nat)
    ensures q > 0 ==> q * p >= p
    ensures q < -1 ==> q * p <= -2 * p
  {
  }

  lemma OneMultiple(q: int, p: nat, n: int, u: nat)
    requires u == n - q * p && u < p && 0 <= 2 * n + p && n < p
    ensures q == 0 || q == -1
  {
    Multiples(q, p);
  }

  // ---------------------------------------------------------------- types and values

  datatype Type =
    | TBool
    | TInt(width: nat, signed: bool)
    | TStr
    | TPair(first: Type, second: Type)
    | TVec(element: Type)
    | TMap(key: Type, value: Type)
  {
    function Rank(): nat {
      match this
      case TPair(a, b) => a.Rank() + b.Rank() + 1
      case TVec(e) => e.Rank() + 1
      case TMap(k, v) => k.Rank() + v.Rank() + 2
      case _ => 0
    }
  }

  /** A map is the list of its entries in the order it is walked, each a pair. */
  datatype Value =
    | Bool(b: bool)
    | Int(n: int)
    | Str(s: seq<byte>)
    | Pair(first: Value, second: Value)
    | Vec(items: seq<Value>)
    | Map(entries: seq<Value>)

  /** The order of `std::map` keys: numbers by size, strings, pairs and containers lexicographically.
      Negative, zero or positive like a three-way comparison. */
  function Cmp(a: Value, b: Value): int
    decreases a
  {
    match (a, b)
    case (Bool(x), Bool(y)) => if x == y then 0 else if y then -1 else 1
    case (Int(x), Int(y)) => x - y
    case (Str(x), Str(y)) => CmpBytes(x, y)
    case (Pair(x1, x2), Pair(y1, y2)) => if Cmp(x1, y1) != 0 then Cmp(x1, y1) else Cmp(x2, y2)
    case (Vec(x), Vec(y)) => CmpAll(x, y)
    case (Map(x), Map(y)) => CmpAll(x, y)
    case _ => 0
  }

  function CmpBytes(x: seq<byte>, y: seq<byte>): int {
    if x == [] || y == [] then |x| - |y|
    else if x[0] != y[0] then x[0] - y[0]
    else CmpBytes(x[1..], y[1..])
  }

  function CmpAll(xs: seq<Value>, ys: seq<Value>): int
    decreases xs
  {
    if xs == [] || ys == [] then |xs| - |ys|
    else if Cmp(xs[0], ys[0]) != 0 then Cmp(xs[0], ys[0])
    else CmpAll(xs[1..], ys[1..])
  }

  lemma {:induction false} CmpBytesFlips(x: seq<byte>, y: seq<byte>)
    ensures CmpBytes(x, y) == -CmpBytes(y, x)
  {
    if x != [] && y != [] {
      CmpBytesFlips(x[1..], y[1..]);
    }
  }

  lemma {:induction false} CmpFlips(a: Value, b: Value)
    ensures Cmp(a, b) == -Cmp(b, a)
    decreases a
  {
    match (a, b)
    case (Str(x), Str(y)) => CmpBytesFlips(x, y);
    case (Pair(x1, x2), Pair(y1, y2)) => CmpFlips(x1, y1); CmpFlips(x2, y2);
    case (Vec(x), Vec(y)) => CmpAllFlips(x, y);
    case (Map(x), Map(y)) => CmpAllFlips(x, y);
    case _ =>
  }

  lemma {:induction false} CmpAllFlips(xs: seq<Value>, ys: seq<Value>)
    ensures CmpAll(xs, ys) == -CmpAll(ys, xs)
    decreases xs
  {
    if xs != [] && ys != [] {
      CmpFlips(xs[0], ys[0]);
      CmpAllFlips(xs[1..], ys[1..]);
    }
  }

  /** `_m[key] = val` on a `std::map`. */
  function Insert(entries: seq<Value>, key: Value, val: Value): seq<Value> {
    if entries == [] || !entries[0].Pair? then [Pair(key, val)] + entries
    else
      var c := Cmp(key, entries[0].first);
      if c < 0 then [Pair(key, val)] + entries
      else if c == 0 then [Pair(entries[0].first, val)] + entries[1..]
      else [entries[0]] + Insert(entries[1..], key, val)
  }

  /** Entries of a `std::map`: pairs, their keys strictly ascending. */
  predicate Ascending(entries: seq<Value>) {
    && (forall i | 0 <= i < |entries| :: entries[i].Pair?)
    && forall i, j | 0 <= i < j < |entries| :: Cmp(entries[i].first, entries[j].first) < 0
  }

  /** Inserting a key beyond all others puts it at the end. */
  lemma {:induction false} InsertLast(entries: seq<Value>, key: Value, val: Value)
    requires Ascending(entries + [Pair(key, val)])
    ensures Insert(entries, key, val) == entries + [Pair(key, val)]
  {
    if entries != [] {
      var all := entries + [Pair(key, val)];
      assert all[0] == entries[0] && all[|entries|] == Pair(key, val);
      CmpFlips(entries[0].first, key);
      assert all[1..] == entries[1..] + [Pair(key, val)];
      InsertLast(entries[1..], key, val);
    } else {
      assert [Pair(key, val)] + [] == [] + [Pair(key, val)];
    }
  }

  predicate ValidType(t: Type) {
    match t
    case TInt(w, _) => w == 2 || w == 4 || w == 8
    case TPair(a, b) => ValidType(a) && ValidType(b)
    case TVec(e) => ValidType(e)
    case TMap(k, v) => ValidType(k) && ValidType(v)
    case _ => true
  }

  const SIZE_LIMIT := 0x8000_0000

  /** The values of a type: numbers in its range, texts and containers shorter than 2^31. */
  predicate HasType(v: Value, t: Type)
    decreases t.Rank(), 0
  {
    match (t, v)
    case (TBool, Bool(_)) => true
    case (TInt(w, signed), Int(n)) => InRange(n, w, signed)
    case (TStr, Str(s)) => |s| < 0x8000_0000
    case (TPair(a, b), Pair(x, y)) => HasType(x, a) && HasType(y, b)
    case (TVec(e), Vec(items)) => |items| < 0x8000_0000 && AllHaveType(items, e)
    case (TMap(k, w), Map(entries)) => |entries| < 0x8000_0000 && Ascending(entries) && AllHaveType(entries, TPair(k, w))
    case _ => false
  }

  predicate AllHaveType(vs: seq<Value>, t: Type)
    decreases t.Rank(), |vs| + 1
  {
    vs == [] || (HasType(vs[0], t) && AllHaveType(vs[1..], t))
  }

  /** No string inside holds a NUL. */
  predicate NulFree(v: Value)
    decreases v
  {
    match v
    case Str(s) => 0 !in s
    case Pair(a, b) => NulFree(a) && NulFree(b)
    case Vec(items) => AllNulFree(items)
    case Map(entries) => AllNulFree(entries)
    case _ => true
  }

  predicate AllNulFree(vs: seq<Value>)
    decreases vs
  {
    vs == [] || (NulFree(vs[0]) && AllNulFree(vs[1..]))
  }

  // ---------------------------------------------------------------- what is written and read

  function Encode(t: Type, v: Value): seq<byte>
    decreases t.Rank(), 0
  {
    match (t, v)
    case (TBool, Bool(b)) => [if b then 1 else 0]
    case (TInt(w, _), Int(n)) => Le(n, w)
    case (TStr, Str(s)) => Le(|s|, 4) + s
    case (TPair(a, b), Pair(x, y)) => Encode(a, x) + Encode(b, y)
    case (TVec(e), Vec(items)) => Le(|items|, 4) + EncodeAll(e, items)
    case (TMap(k, w), Map(entries)) => Le(|entries|, 4) + EncodeAll(TPair(k, w), entries)
    case _ => []
  }

  function EncodeAll(t: Type, vs: seq<Value>): seq<byte>
    decreases t.Rank(), |vs| + 1
  {
    if vs == [] then [] else Encode(t, vs[0]) + EncodeAll(t, vs[1..])
  }

  /** What reading yields: the value and the bytes left over. */
  datatype Got = Got(v: Value, rest: seq<byte>)

  /** `val.append(buf)` takes the bytes up to the first NUL. */
  function UpToNul(s: seq<byte>): seq<byte> {
    if s == [] || s[0] == 0 then [] else [s[0]] + UpToNul(s[1..])
  }

  function DecodeSize(bs: seq<byte>): Option<(nat, seq<byte>)> {
    if |bs| < 4 || FromLe(bs[..4]) >= SIZE_LIMIT then None else Some((FromLe(bs[..4]), bs[4..]))
  }

  function Decode(t: Type, bs: seq<byte>): Option<Got>
    decreases t.Rank(), 0
  {
    match t
    case TBool => if bs == [] then None else Some(Got(Bool(bs[0] != 0), bs[1..]))
    case TInt(w, signed) => if |bs| < w then None else Some(Got(Int(AsInt(bs[..w], signed)), bs[w..]))
    case TStr =>
      (match DecodeSize(bs)
       case None => None
       case Some((n, r)) => if |r| < n then None else Some(Got(Str(UpToNul(r[..n])), r[n..])))
    case TPair(a, b) =>
      (match Decode(a, bs)
       case None => None
       case Some(x) =>
         match Decode(b, x.rest)
         case None => None
         case Some(y) => Some(Got(Pair(x.v, y.v), y.rest)))
    case TVec(e) =>
      (match DecodeSize(bs)
       case None => None
       case Some((n, r)) => DecodeVec(e, n, r, []))
    case TMap(k, v) =>
      (match DecodeSize(bs)
       case None => None
       case Some((n, r)) => DecodeMap(k, v, n, r, []))
  }

  function DecodeVec(e: Type, n: nat, bs: seq<byte>, sofar: seq<Value>): Option<Got>
    decreases e.Rank(), n + 1
  {
    if n == 0 then Some(Got(Vec(sofar), bs))
    else match Decode(e, bs)
      case None => None
      case Some(x) => DecodeVec(e, n - 1, x.rest, sofar + [x.v])
  }

  function DecodeMap(k: Type, v: Type, n: nat, bs: seq<byte>, sofar: seq<Value>): Option<Got>
    decreases k.Rank() + v.Rank() + 1, n + 1
  {
    if n == 0 then Some(Got(Map(sofar), bs))
    else match Decode(k, bs)
      case None => None
      case Some(x) =>
        match Decode(v, x.rest)
        case None => None
        case Some(y) => DecodeMap(k, v, n - 1, y.rest, Insert(sofar, x.v, y.v))
  }

  lemma SmallLe(n: byte)
    ensures Le(n, 4) == [n, 0, 0, 0] && Le(256 + n, 2) == [n, 1]
  {
    assert Le(0, 2) == [0] + Le(0, 1) && Le(0, 3) == [0] + Le(0, 2);
    assert Le(n, 4) == [n] + Le(0, 3);
    assert Le(256 + n, 2) == [n] + Le(1, 1);
  }

  /** What is on the wire for a number and a vector of one string: the low byte first, sizes in four
      bytes in front. */
  lemma WireExample()
    ensures Encode(TPair(TInt(2, false), TVec(TStr)), Pair(Int(258), Vec([Str([65, 66])])))
         == [2, 1] + [1, 0, 0, 0] + [2, 0, 0, 0] + [65, 66]
  {
    var texts := [Str([65, 66])];
    SmallLe(2);
    SmallLe(1);
    assert EncodeAll(TStr, texts) == Encode(TStr, texts[0]) + EncodeAll(TStr, texts[1..]);
    assert EncodeAll(TStr, texts) == [2, 0, 0, 0] + [65, 66];
    assert Encode(TVec(TStr), Vec(texts)) == [1, 0, 0, 0] + ([2, 0, 0, 0] + [65, 66]);
  }

  // ---------------------------------------------------------------- round trip

  lemma Cut(a: seq<byte>, b: seq<byte>)
    ensures (a + b)[..|a|] == a && (a + b)[|a|..] == b
  {
  }

  lemma SizeRoundTrip(n: nat, rest: seq<byte>)
    requires n < SIZE_LIMIT
    ensures DecodeSize(Le(n, 4) + rest) == Some((n, rest))
  {
    assert Pow256(4) == 0x1_0000_0000;
    IntRoundTrip(n, 4, false);
    Cut(Le(n, 4), rest);
  }

  /** A string ends before its first NUL, or is whole. */
  lemma {:induction false} UpToNulWhole(s: seq<byte>)
    ensures UpToNul(s) == s <==> 0 !in s
    ensures 0 !in UpToNul(s) && UpToNul(s) <= s
    ensures |UpToNul(s)| < |s| ==> s[|UpToNul(s)|] == 0
  {
    if s != [] {
      assert s == [s[0]] + s[1..];
      UpToNulWhole(s[1..]);
    }
  }

  lemma {:induction false} RoundTrip(t: Type, v: Value, rest: seq<byte>)
    requires HasType(v, t) && NulFree(v)
    ensures Decode(t, Encode(t, v) + rest) == Some(Got(v, rest))
    decreases t.Rank(), 0
  {
    match (t, v)
    case (TBool, Bool(b)) =>
    case (TInt(w, signed), Int(n)) =>
      IntRoundTrip(n, w, signed);
      Cut(Le(n, w), rest);
    case (TStr, Str(s)) =>
      Regroup(Le(|s|, 4), s, rest);
      SizeRoundTrip(|s|, s + rest);
      Cut(s, rest);
      UpToNulWhole(s);
    case (TPair(a, b), Pair(x, y)) =>
      Regroup(Encode(a, x), Encode(b, y), rest);
      PairRoundTrip(a, b, x, y, rest);
    case (TVec(e), Vec(items)) =>
      Regroup(Le(|items|, 4), EncodeAll(e, items), rest);
      SizeRoundTrip(|items|, EncodeAll(e, items) + rest);
      VecRoundTrip(e, items, [], rest);
      assert [] + items == items;
    case (TMap(k, w), Map(entries)) =>
      var body := EncodeAll(TPair(k, w), entries);
      Regroup(Le(|entries|, 4), body, rest);
      SizeRoundTrip(|entries|, body + rest);
      assert [] + entries == entries;
      MapRoundTrip(k, w, entries, [], rest);
  }

  lemma Regroup(a: seq<byte>, b: seq<byte>, c: seq<byte>)
    ensures a + b + c == a + (b + c)
  {
  }

  lemma PairRoundTrip(a: Type, b: Type, x: Value, y: Value, rest: seq<byte>)
    requires HasType(x, a) && HasType(y, b) && NulFree(x) && NulFree(y)
    ensures Decode(a, Encode(a, x) + (Encode(b, y) + rest)) == Some(Got(x, Encode(b, y) + rest))
    ensures Decode(b, Encode(b, y) + rest) == Some(Got(y, rest))
    decreases a.Rank() + b.Rank(), 1
  {
    RoundTrip(a, x, Encode(b, y) + rest);
    RoundTrip(b, y, rest);
  }

  lemma {:induction false} VecRoundTrip(e: Type, items: seq<Value>, sofar: seq<Value>, rest: seq<byte>)
    requires AllHaveType(items, e) && AllNulFree(items)
    ensures DecodeVec(e, |items|, EncodeAll(e, items) + rest, sofar) == Some(Got(Vec(sofar + items), rest))
    decreases e.Rank(), |items| + 1
  {
    if items == [] {
      assert sofar + items == sofar && [] + rest == rest;
    } else {
      var tail := EncodeAll(e, items[1..]) + rest;
      Regroup(Encode(e, items[0]), EncodeAll(e, items[1..]), rest);
      RoundTrip(e, items[0], tail);
      VecRoundTrip(e, items[1..], sofar + [items[0]], rest);
      assert sofar + [items[0]] + items[1..] == sofar + items;
    }
  }

  lemma {:induction false} MapRoundTrip(k: Type, w: Type, entries: seq<Value>, sofar: seq<Value>, rest: seq<byte>)
    requires AllHaveType(entries, TPair(k, w)) && AllNulFree(entries) && Ascending(sofar + entries)
    ensures DecodeMap(k, w, |entries|, EncodeAll(TPair(k, w), entries) + rest, sofar) == Some(Got(Map(sofar + entries), rest))
    decreases k.Rank() + w.Rank() + 1, |entries| + 1
  {
    if entries == [] {
      assert sofar + entries == sofar && [] + rest == rest;
    } else {
      var e, tail := entries[0], EncodeAll(TPair(k, w), entries[1..]) + rest;
      Regroup(Encode(TPair(k, w), e), EncodeAll(TPair(k, w), entries[1..]), rest);
      Regroup(Encode(k, e.first), Encode(w, e.second), tail);
      PairRoundTrip(k, w, e.first, e.second, tail);
      assert sofar + [e] + entries[1..] == sofar + entries;
      AscendingPrefix(sofar + [e], entries[1..]);
      InsertLast(sofar, e.first, e.second);
      MapRoundTrip(k, w, entries[1..], sofar + [e], rest);
    }
  }

  lemma AscendingPrefix(a: seq<Value>, b: seq<Value>)
    requires Ascending(a + b)
    ensures Ascending(a)
  {
    forall i | 0 <= i < |a| ensures a[i].Pair? {
      assert (a + b)[i] == a[i];
    }
    forall i, j | 0 <= i < j < |a| ensures Cmp(a[i].first, a[j].first) < 0 {
      assert (a + b)[i] == a[i] && (a + b)[j] == a[j];
    }
  }

  // ---------------------------------------------------------------- maps

  /** Strings are ordered by the first byte in which they differ, and a beginning comes before the whole. */
  lemma {:induction false} CmpBytesIs(x: seq<byte>, y: seq<byte>)
    ensures CmpBytes(x, y) == 0 <==> x == y
    ensures CmpBytes(x, y) < 0 <==>
      (x <= y && x != y) || exists k | 0 <= k < |x| && k < |y| :: x[..k] == y[..k] && x[k] < y[k]
  {
    if x != [] && y != [] && x[0] == y[0] {
      CmpBytesIs(x[1..], y[1..]);
      assert x == [x[0]] + x[1..] && y == [y[0]] + y[1..];
      if k :| 0 <= k < |x[1..]| && k < |y[1..]| && x[1..][..k] == y[1..][..k] && x[1..][k] < y[1..][k] {
        assert x[..k + 1] == [x[0]] + x[1..][..k] && y[..k + 1] == [y[0]] + y[1..][..k];
        assert x[k + 1] < y[k + 1];
      }
      if k :| 0 <= k < |x| && k < |y| && x[..k] == y[..k] && x[k] < y[k] {
        assert k > 0;
        assert x[1..][..k - 1] == x[..k][1..] && y[1..][..k - 1] == y[..k][1..];
        assert x[1..][k - 1] < y[1..][k - 1];
      }
    } else if x != [] && y != [] {
      assert x[..0] == y[..0];
    }
  }

  /** Values of one type compare as equal only when they are. */
  lemma {:induction false} CmpZero(a: Value, b: Value, t: Type)
    requires HasType(a, t) && HasType(b, t)
    ensures Cmp(a, b) == 0 <==> a == b
    decreases t.Rank(), 0
  {
    match (t, a, b)
    case (TStr, Str(x), Str(y)) => CmpBytesIs(x, y);
    case (TPair(k, w), Pair(x1, x2), Pair(y1, y2)) => CmpZero(x1, y1, k); CmpZero(x2, y2, w);
    case (TVec(e), Vec(x), Vec(y)) => CmpAllZero(x, y, e);
    case (TMap(k, w), Map(x), Map(y)) => CmpAllZero(x, y, TPair(k, w));
    case _ =>
  }

  lemma {:induction false} CmpAllZero(xs: seq<Value>, ys: seq<Value>, t: Type)
    requires AllHaveType(xs, t) && AllHaveType(ys, t)
    ensures CmpAll(xs, ys) == 0 <==> xs == ys
    decreases t.Rank(), |xs| + 1
  {
    if xs != [] && ys != [] {
      CmpZero(xs[0], ys[0], t);
      CmpAllZero(xs[1..], ys[1..], t);
      assert xs == [xs[0]] + xs[1..] && ys == [ys[0]] + ys[1..];
    }
  }

  lemma {:induction false} CmpBytesChains(x: seq<byte>, y: seq<byte>, z: seq<byte>)
    requires CmpBytes(x, y) < 0 && CmpBytes(y, z) < 0
    ensures CmpBytes(x, z) < 0
  {
    if x != [] && y != [] && z != [] && x[0] == y[0] == z[0] {
      CmpBytesChains(x[1..], y[1..], z[1..]);
    }
  }

  /** The order is one: it is transitive. */
  lemma {:induction false} CmpChains(a: Value, b: Value, c: Value, t: Type)
    requires HasType(a, t) && HasType(b, t) && HasType(c, t) && Cmp(a, b) < 0 && Cmp(b, c) < 0
    ensures Cmp(a, c) < 0
    decreases t.Rank(), 0
  {
    match (t, a, b, c)
    case (TStr, Str(x), Str(y), Str(z)) => CmpBytesChains(x, y, z);
    case (TPair(k, w), Pair(x1, x2), Pair(y1, y2), Pair(z1, z2)) =>
      CmpZero(x1, y1, k);
      CmpZero(y1, z1, k);
      if x1 == y1 == z1 {
        CmpZero(x1, z1, k);
        CmpChains(x2, y2, z2, w);
      } else if x1 != y1 && y1 != z1 {
        CmpChains(x1, y1, z1, k);
      }
    case (TVec(e), Vec(x), Vec(y), Vec(z)) => CmpAllChains(x, y, z, e);
    case (TMap(k, w), Map(x), Map(y), Map(z)) => CmpAllChains(x, y, z, TPair(k, w));
    case _ =>
  }

  lemma {:induction false} CmpAllChains(xs: seq<Value>, ys: seq<Value>, zs: seq<Value>, t: Type)
    requires AllHaveType(xs, t) && AllHaveType(ys, t) && AllHaveType(zs, t) && CmpAll(xs, ys) < 0 && CmpAll(ys, zs) < 0
    ensures CmpAll(xs, zs) < 0
    decreases t.Rank(), |xs| + 1
  {
    if xs != [] && ys != [] && zs != [] {
      CmpZero(xs[0], ys[0], t);
      CmpZero(ys[0], zs[0], t);
      CmpZero(xs[0], zs[0], t);
      if xs[0] == ys[0] == zs[0] {
        CmpAllChains(xs[1..], ys[1..], zs[1..], t);
      } else if xs[0] != ys[0] && ys[0] != zs[0] {
        CmpChains(xs[0], ys[0], zs[0], t);
      }
    }
  }

  lemma {:induction false} TypeOfEach(vs: seq<Value>, t: Type, i: nat)
    requires AllHaveType(vs, t) && i < |vs|
    ensures HasType(vs[i], t)
  {
    if i > 0 {
      TypeOfEach(vs[1..], t, i - 1);
    }
  }

  ghost predicate IsMap(entries: seq<Value>, k: Type, w: Type) {
    Ascending(entries) && AllHaveType(entries, TPair(k, w))
  }

  lemma TailIsMap(entries: seq<Value>, k: Type, w: Type)
    requires entries != [] && IsMap(entries, k, w)
    ensures IsMap(entries[1..], k, w) && HasType(entries[0], TPair(k, w))
  {
  }

  /** One entry in front of a map with higher keys. */
  lemma FrontIsMap(e: Value, rest: seq<Value>, k: Type, w: Type)
    requires IsMap(rest, k, w) && HasType(e, TPair(k, w))
    requires forall x | x in rest :: x.Pair? && Cmp(e.first, x.first) < 0
    ensures IsMap([e] + rest, k, w)
  {
    assert ([e] + rest)[1..] == rest;
  }

  /** All keys behind one that is higher are higher too. */
  lemma AllHigher(key: Value, entries: seq<Value>, k: Type, w: Type)
    requires entries != [] && IsMap(entries, k, w) && HasType(key, k) && Cmp(key, entries[0].first) < 0
    ensures forall x | x in entries :: x.Pair? && x.first != key && Cmp(key, x.first) < 0
  {
    forall x | x in entries ensures x.Pair? && x.first != key && Cmp(key, x.first) < 0 {
      var i :| 0 <= i < |entries| && entries[i] == x;
      TypeOfEach(entries, TPair(k, w), 0);
      TypeOfEach(entries, TPair(k, w), i);
      if i > 0 {
        CmpChains(key, entries[0].first, x.first, k);
      }
      CmpZero(key, x.first, k);
    }
  }

  /** `_m[key] = val` is what it should be: still a map, with that entry, without any other for the key,
      and with all others as they were. */
  lemma {:induction false} InsertIsAssignment(entries: seq<Value>, key: Value, val: Value, k: Type, w: Type)
    requires IsMap(entries, k, w) && HasType(key, k) && HasType(val, w)
    ensures IsMap(Insert(entries, key, val), k, w)
    ensures forall e :: e in Insert(entries, key, val) <==> e == Pair(key, val) || (e in entries && e.first != key)
  {
    var r, added := Insert(entries, key, val), Pair(key, val);
    if entries == [] {
      assert r == [added] + entries;
    } else {
      var first := entries[0];
      TailIsMap(entries, k, w);
      CmpZero(key, first.first, k);
      CmpFlips(key, first.first);
      assert entries == [first] + entries[1..];
      if Cmp(key, first.first) < 0 {
        AllHigher(key, entries, k, w);
        FrontIsMap(added, entries, k, w);
      } else {
        forall x | x in entries[1..] ensures x.Pair? && Cmp(first.first, x.first) < 0 && x.first != first.first {
          var i :| 0 < i < |entries| && entries[i] == x;
          TypeOfEach(entries, TPair(k, w), i);
          CmpZero(first.first, x.first, k);
        }
        if Cmp(key, first.first) == 0 {
          FrontIsMap(added, entries[1..], k, w);
        } else {
          InsertIsAssignment(entries[1..], key, val, k, w);
          FrontIsMap(first, Insert(entries[1..], key, val), k, w);
        }
      }
    }
  }

  // ---------------------------------------------------------------- exactly when

  lemma {:induction false} AllNulFreeAppend(vs: seq<Value>, v: Value)
    ensures AllNulFree(vs + [v]) <==> AllNulFree(vs) && NulFree(v)
  {
    if vs == [] {
      assert vs + [v] == [v] && [v][1..] == [];
    } else {
      assert (vs + [v])[1..] == vs[1..] + [v];
      AllNulFreeAppend(vs[1..], v);
    }
  }

  lemma {:induction false} InsertNulFree(entries: seq<Value>, key: Value, val: Value)
    requires AllNulFree(entries) && NulFree(key) && NulFree(val)
    ensures AllNulFree(Insert(entries, key, val))
  {
    var r := Insert(entries, key, val);
    if entries == [] || !entries[0].Pair? || Cmp(key, entries[0].first) < 0 {
      assert r[1..] == entries;
    } else if Cmp(key, entries[0].first) == 0 {
      assert r[1..] == entries[1..];
    } else {
      InsertNulFree(entries[1..], key, val);
      assert r[1..] == Insert(entries[1..], key, val);
    }
  }

  /** Nothing that is read ever holds a NUL. */
  lemma {:induction false} DecodedIsNulFree(t: Type, bs: seq<byte>)
    ensures Decode(t, bs).Some? ==> NulFree(Decode(t, bs).value.v)
    decreases t.Rank(), 0
  {
    match t
    case TStr =>
      if DecodeSize(bs).Some? && |DecodeSize(bs).value.1| >= DecodeSize(bs).value.0 {
        UpToNulWhole(DecodeSize(bs).value.1[..DecodeSize(bs).value.0]);
      }
    case TPair(a, b) =>
      DecodedIsNulFree(a, bs);
      if Decode(a, bs).Some? {
        DecodedIsNulFree(b, Decode(a, bs).value.rest);
      }
    case TVec(e) =>
      if DecodeSize(bs).Some? {
        VecIsNulFree(e, DecodeSize(bs).value.0, DecodeSize(bs).value.1, []);
      }
    case TMap(k, v) =>
      if DecodeSize(bs).Some? {
        MapIsNulFree(k, v, DecodeSize(bs).value.0, DecodeSize(bs).value.1, []);
      }
    case _ =>
  }

  lemma {:induction false} VecIsNulFree(e: Type, n: nat, bs: seq<byte>, sofar: seq<Value>)
    requires AllNulFree(sofar)
    ensures DecodeVec(e, n, bs, sofar).Some? ==> NulFree(DecodeVec(e, n, bs, sofar).value.v)
    decreases e.Rank(), n + 1
  {
    if n > 0 && Decode(e, bs).Some? {
      var x := Decode(e, bs).value;
      DecodedIsNulFree(e, bs);
      AllNulFreeAppend(sofar, x.v);
      VecIsNulFree(e, n - 1, x.rest, sofar + [x.v]);
    }
  }

  lemma {:induction false} MapIsNulFree(k: Type, v: Type, n: nat, bs: seq<byte>, sofar: seq<Value>)
    requires AllNulFree(sofar)
    ensures DecodeMap(k, v, n, bs, sofar).Some? ==> NulFree(DecodeMap(k, v, n, bs, sofar).value.v)
    decreases k.Rank() + v.Rank() + 1, n + 1
  {
    if n > 0 && Decode(k, bs).Some? && Decode(v, Decode(k, bs).value.rest).Some? {
      var x := Decode(k, bs).value;
      var y := Decode(v, x.rest).value;
      DecodedIsNulFree(k, bs);
      DecodedIsNulFree(v, x.rest);
      InsertNulFree(sofar, x.v, y.v);
      MapIsNulFree(k, v, n - 1, y.rest, Insert(sofar, x.v, y.v));
    }
  }

  /** Every value of every nested type is read back, leaving exactly the bytes that follow, if and
      only if no string inside it holds a NUL. */
  lemma RoundTripExact(t: Type, v: Value, rest: seq<byte>)
    requires HasType(v, t)
    ensures Decode(t, Encode(t, v) + rest) == Some(Got(v, rest)) <==> NulFree(v)
  {
    if NulFree(v) {
      RoundTrip(t, v, rest);
    }
    DecodedIsNulFree(t, Encode(t, v) + rest);
  }
}
