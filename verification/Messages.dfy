/** Messages over a stream: the tag registry of scaling/src/Socket.hpp and the `data` message of
    scaling/src/main.cpp. */
module Messages {
  import opened Basics
  import opened Bytes
  import opened Streams
  import opened StreamIO

  // ---------------------------------------------------------------- the registry

  /** A message class, known by the address of its virtual table. */
  type Class = nat

  const TAGS := 0x1_0000

  datatype Tables = Tables(typeGen: nat, typeMap: map<Class, nat>, factMap: map<nat, Class>)

  function Registered(t: Tables, c: Class): Tables {
    Tables((t.typeGen + 1) % TAGS, t.typeMap[c := t.typeGen], t.factMap[t.typeGen := c])
  }

  /** The tables after registering these classes in this order, repeats allowed. */
  function RegisterAll(cs: seq<Class>): Tables {
    if cs == [] then Tables(0, map[], map[])
    else Registered(RegisterAll(cs[..|cs| - 1]), cs[|cs| - 1])
  }

  /** The place of the last registration of `c`. */
  function Last(cs: seq<Class>, c: Class): (i: nat)
    requires c in cs
    ensures i < |cs| && cs[i] == c
  {
    if cs[|cs| - 1] == c then |cs| - 1 else Last(cs[..|cs| - 1], c)
  }

  lemma {:induction false} TablesShape(cs: seq<Class>)
    ensures RegisterAll(cs).typeGen == |cs| % TAGS
    ensures forall c :: c in RegisterAll(cs).typeMap <==> c in cs
    ensures forall c | c in cs :: RegisterAll(cs).typeMap[c] == Last(cs, c) % TAGS
  {
    if cs != [] {
      var front, c := cs[..|cs| - 1], cs[|cs| - 1];
      TablesShape(front);
      assert cs == front + [c];
      assert forall d :: d in cs <==> d in front || d == c;
    }
  }

  /** Agreement of writer and reader: the tag written for a registered class selects a factory of
      that same class exactly when at most 65536 registrations, its own included, have happened
      since it was last registered. */
  lemma {:induction false} TagSelectsClass(cs: seq<Class>, c: Class)
    requires c in cs
    ensures var t := RegisterAll(cs);
      && c in t.typeMap && t.typeMap[c] in t.factMap
      && (t.factMap[t.typeMap[c]] == c <==> |cs| - Last(cs, c) <= 65536)
  {
    TablesShape(cs);
    var front, d := cs[..|cs| - 1], cs[|cs| - 1];
    TablesShape(front);
    if d != c {
      assert cs == front + [d];
      TagSelectsClass(front, c);
      SameTag(|front|, Last(cs, c));
    }
  }

  lemma SameTag(n: nat, i: nat)
    requires i < n
    ensures n % TAGS == i % TAGS ==> n - i >= TAGS
    ensures n - i == TAGS ==> n % TAGS == i % TAGS
  {
  }

  lemma SmallTag(i: nat)
    ensures i < TAGS ==> i % TAGS == i
  {
  }

  /** With at most 65536 registrations every registered class has a tag of its own, below the
      number of registrations. */
  lemma TagsAreUnique(cs: seq<Class>, c: Class, d: Class)
    requires |cs| <= 65536 && c in cs && d in cs && c != d
    ensures var t := RegisterAll(cs).typeMap;
      c in t && d in t && t[c] != t[d] && t[c] < |cs|
  {
    TablesShape(cs);
    SmallTag(Last(cs, c));
    SmallTag(Last(cs, d));
  }

  /** What `Get` ends with: a message, an exception, or a read through a null pointer. */
  datatype Received = Message(made: Class, value: Value) | NoFactory | NullCast

  /** The static tables. */
  class Registry {
    var typeGen: nat
    var typeMap: map<Class, nat>
    var factMap: map<nat, Class>
    var emptied: set<nat>      // tags that a lookup has entered with an empty functor

    ghost function View(): Tables
      reads this
    {
      Tables(typeGen, typeMap, factMap)
    }

    constructor ()
      ensures View() == RegisterAll([])
    {
      typeGen, typeMap, factMap, emptied := 0, map[], map[], {};
    }

    /** `Register`, for a functor that creates objects of class `c`. */
    method Register(c: Class)
      modifies this
      ensures View() == Registered(old(View()), c) && emptied == old(emptied) - {old(typeGen)}
    {
      var t := typeGen;
      typeGen := (typeGen + 1) % TAGS;
      typeMap := typeMap[c := t];
      factMap, emptied := factMap[t := c], emptied - {t};
    }

    /** `operator<<(const Message&)`. Looking up a class that was never registered enters it with
        tag 0. `v` is what `Serialize` writes, at the type `t` of the class. */
    method PutMessage(s: Stream, c: Class, t: Type, v: Value)
      requires !s.mayFail && ValidType(t) && HasType(v, t)
      modifies this`typeMap, s`outgoing
      ensures typeMap == if c in old(typeMap) then old(typeMap) else old(typeMap)[c := 0]
      ensures s.outgoing == old(s.outgoing) + (Le(typeMap[c], 2) + Encode(t, v))
    {
      if c !in typeMap {
        typeMap := typeMap[c := 0];
      }
      s.PutInt(typeMap[c], 2);
      s.Put(t, v);
      Regroup(old(s.outgoing), Le(typeMap[c], 2), Encode(t, v));
    }

    /** `Get`: the tag selects the factory, the object is cast to the class the caller wants, and
        reads itself. `types` gives what each class reads, `isWanted` which classes the cast lets
        through. Looking up an unknown tag enters an empty functor, and calling it throws. */
    method GetMessage(s: Stream, types: Class -> Type, isWanted: Class -> bool) returns (r: Received)
      requires !s.mayFail && Readable(s.incoming, types, isWanted)
      modifies s`incoming, this`emptied
      ensures var tag := AsInt(old(s.incoming)[..2], false);
        if tag !in factMap then
          r == NoFactory && emptied == old(emptied) + {tag} && s.incoming == old(s.incoming)[2..]
        else
          emptied == old(emptied)
          && if !isWanted(factMap[tag]) then r == NullCast && s.incoming == old(s.incoming)[2..]
             else r.Message? && r.made == factMap[tag]
                  && Decode(types(factMap[tag]), old(s.incoming)[2..]) == Some(Got(r.value, s.incoming))
    {
      var tag := s.GetInt(2, false);
      if tag !in factMap {
        emptied := emptied + {tag};
        return NoFactory;
      }
      var c := factMap[tag];
      if !isWanted(c) {
        return NullCast;
      }
      var v := s.Get(types(c));
      r := Message(c, v);
    }

    /** A tag arrives, and what its class reads lies behind it. */
    ghost predicate Readable(incoming: seq<byte>, types: Class -> Type, isWanted: Class -> bool)
      reads this
    {
      && |incoming| >= 2
      && var tag := AsInt(incoming[..2], false);
         tag in factMap && isWanted(factMap[tag]) ==> ValidType(types(factMap[tag])) && Decode(types(factMap[tag]), incoming[2..]).Some?
    }
  }

  /** The tag `_type_map[id]` yields: 0 for a class that was never registered. */
  function TagWritten(t: Tables, c: Class): nat {
    if c in t.typeMap then t.typeMap[c] else 0
  }

  lemma TagRoundTrip(tag: nat, behind: seq<byte>)
    requires tag < TAGS
    ensures AsInt((Le(tag, 2) + behind)[..2], false) == tag && (Le(tag, 2) + behind)[2..] == behind
  {
    assert Pow256(2) == 0x1_0000;
    IntRoundTrip(tag, 2, false);
    Cut(Le(tag, 2), behind);
  }

  /** Only registered classes have a factory. */
  lemma {:induction false} FactoriesAreRegistered(cs: seq<Class>)
    ensures forall tag | tag in RegisterAll(cs).factMap :: RegisterAll(cs).factMap[tag] in cs
  {
    if cs != [] {
      FactoriesAreRegistered(cs[..|cs| - 1]);
    }
  }

  /** Message round trip: what is written for a class makes the reader create that class and read the
      same value, leaving the bytes that follow, if and only if the class was registered, at most
      65536 registrations have happened since its last one, and no string in the value holds a NUL. */
  lemma MessageRoundTrip(cs: seq<Class>, c: Class, types: Class -> Type, v: Value, rest: seq<byte>)
    requires HasType(v, types(c))
    ensures var t := RegisterAll(cs);
            var bytes := Le(TagWritten(t, c), 2) + (Encode(types(c), v) + rest);
            var tag := AsInt(bytes[..2], false);
      (tag in t.factMap && t.factMap[tag] == c && Decode(types(c), bytes[2..]) == Some(Got(v, rest)))
      <==> (c in cs && |cs| - Last(cs, c) <= 65536 && NulFree(v))
  {
    TablesShape(cs);
    FactoriesAreRegistered(cs);
    TagRoundTrip(TagWritten(RegisterAll(cs), c), Encode(types(c), v) + rest);
    RoundTripExact(types(c), v, rest);
    if c in cs {
      TagSelectsClass(cs, c);
    }
  }

  // ---------------------------------------------------------------- the data message

  const ENTRY := TPair(TInt(4, true), TStr)

  function EntryOf(m: map<int, seq<byte>>, k: int): Value
    requires k in m
  {
    Pair(Int(k), Str(m[k]))
  }

  /** The entries in the order the `unordered_map` is walked. */
  function Entries(m: map<int, seq<byte>>, order: seq<int>): (r: seq<Value>)
    requires forall k | k in order :: k in m
    ensures |r| == |order| && forall i | 0 <= i < |r| :: IsEntry(r[i])
  {
    seq(|order|, i requires 0 <= i < |order| => assert order[i] in order; EntryOf(m, order[i]))
  }

  lemma EntriesOneMore(m: map<int, seq<byte>>, order: seq<int>, k: int)
    requires k in m && forall j | j in order :: j in m
    ensures forall j | j in order + [k] :: j in m
    ensures Entries(m, order + [k]) == Entries(m, order) + [EntryOf(m, k)]
  {
  }

  predicate IsEntry(v: Value) {
    v.Pair? && v.first.Int? && v.second.Str?
  }

  /** `map[curr.first] = curr.second` for each pair in turn. */
  function InsertAll(m: map<int, seq<byte>>, items: seq<Value>): map<int, seq<byte>>
    requires forall i | 0 <= i < |items| :: IsEntry(items[i])
  {
    if items == [] then m
    else
      var last := items[|items| - 1];
      assert IsEntry(last);
      InsertAll(m, items[..|items| - 1])[last.first.n := last.second.s]
  }

  /** An order in which the whole map is walked, each key once. */
  ghost predicate WalksMap(m: map<int, seq<byte>>, order: seq<int>) {
    (forall k :: k in order <==> k in m) && NoRepeats(order)
  }

  predicate Storable(m: map<int, seq<byte>>) {
    forall k | k in m :: InRange(k, 4, true) && |m[k]| < SIZE_LIMIT
  }

  /** Inserting entries overwrites exactly their keys. */
  lemma {:induction false} EntriesInserted(m0: map<int, seq<byte>>, m: map<int, seq<byte>>, order: seq<int>)
    requires forall k | k in order :: k in m
    ensures var r := InsertAll(m0, Entries(m, order));
      && (forall k :: k in r <==> k in m0 || k in order)
      && (forall k | k in r :: r[k] == if k in order then m[k] else m0[k])
  {
    if order != [] {
      var front, k := order[..|order| - 1], order[|order| - 1];
      assert order == front + [k];
      EntriesOneMore(m, front, k);
      EntriesInserted(m0, m, front);
      assert Entries(m, order)[..|order| - 1] == Entries(m, front);
    }
  }

  /** The map as it arrives: every text ends before its first NUL. */
  function CutTexts(m: map<int, seq<byte>>): (r: map<int, seq<byte>>)
    ensures r.Keys == m.Keys
  {
    map k | k in m :: UpToNul(m[k])
  }

  lemma CutTextsSame(m: map<int, seq<byte>>)
    ensures CutTexts(m) == m <==> forall k | k in m :: 0 !in m[k]
  {
    forall k | k in m ensures CutTexts(m)[k] == m[k] <==> 0 !in m[k] {
      UpToNulWhole(m[k]);
    }
    if k :| k in m && 0 in m[k] {
      assert CutTexts(m)[k] != m[k];
    } else {
      assert forall k | k in m :: CutTexts(m)[k] == m[k];
    }
  }

  lemma EntryBytes(k: int, text: seq<byte>)
    ensures Encode(ENTRY, Pair(Int(k), Str(text))) == Le(k, 4) + (Le(|text|, 4) + text)
  {
  }

  lemma EntryReadBack(k: int, text: seq<byte>, rest: seq<byte>)
    requires InRange(k, 4, true) && |text| < SIZE_LIMIT
    ensures Decode(ENTRY, Encode(ENTRY, Pair(Int(k), Str(text))) + rest) == Some(Got(Pair(Int(k), Str(UpToNul(text))), rest))
  {
    var body := Le(|text|, 4) + text;
    Regroup(Le(k, 4), body, rest);
    IntRoundTrip(k, 4, true);
    Cut(Le(k, 4), body + rest);
    Regroup(Le(|text|, 4), text, rest);
    SizeRoundTrip(|text|, text + rest);
    Cut(text, rest);
  }

  lemma EntriesHead(m: map<int, seq<byte>>, order: seq<int>)
    requires order != [] && forall k | k in order :: k in m
    ensures order[0] in m && Entries(m, order) == [EntryOf(m, order[0])] + Entries(m, order[1..])
  {
  }

  lemma OneEntryMore(k: int, text: seq<byte>, items: seq<Value>, n: nat, sofar: seq<Value>, rest: seq<byte>)
    requires InRange(k, 4, true) && |text| < SIZE_LIMIT && n > 0
    ensures DecodeVec(ENTRY, n, EncodeAll(ENTRY, [Pair(Int(k), Str(text))] + items) + rest, sofar)
         == DecodeVec(ENTRY, n - 1, EncodeAll(ENTRY, items) + rest, sofar + [Pair(Int(k), Str(UpToNul(text)))])
  {
    var v := Pair(Int(k), Str(text));
    assert ([v] + items)[1..] == items;
    Regroup(Encode(ENTRY, v), EncodeAll(ENTRY, items), rest);
    EntryReadBack(k, text, EncodeAll(ENTRY, items) + rest);
  }

  lemma {:induction false} EntriesReadBack(m: map<int, seq<byte>>, order: seq<int>, sofar: seq<Value>, rest: seq<byte>)
    requires Storable(m) && forall k | k in order :: k in m
    ensures DecodeVec(ENTRY, |order|, EncodeAll(ENTRY, Entries(m, order)) + rest, sofar)
         == Some(Got(Vec(sofar + Entries(CutTexts(m), order)), rest))
    decreases |order|
  {
    if order == [] {
      assert [] + rest == rest && sofar + [] == sofar;
    } else {
      var next := sofar + [EntryOf(CutTexts(m), order[0])];
      EntriesHead(m, order);
      OneEntryMore(order[0], m[order[0]], Entries(m, order[1..]), |order|, sofar, rest);
      EntriesReadBack(m, order[1..], next, rest);
      EntriesHead(CutTexts(m), order);
      assert next + Entries(CutTexts(m), order[1..]) == sofar + Entries(CutTexts(m), order);
    }
  }

  lemma EntriesSame(m: map<int, seq<byte>>, n: map<int, seq<byte>>, order: seq<int>)
    requires WalksMap(m, order) && n.Keys == m.Keys
    ensures Entries(n, order) == Entries(m, order) <==> n == m
  {
    if Entries(n, order) == Entries(m, order) {
      forall k | k in m ensures n[k] == m[k] {
        var i :| 0 <= i < |order| && order[i] == k;
        assert Entries(n, order)[i] == Entries(m, order)[i];
      }
      assert n == m;
    }
  }

  /** The `data` message, in whatever order the writer walks its map, is read back entry by entry,
      leaving the bytes that follow: as it was sent, if and only if no text holds a NUL. */
  lemma DataReadBack(m: map<int, seq<byte>>, order: seq<int>, rest: seq<byte>)
    requires WalksMap(m, order) && Storable(m) && |order| < SIZE_LIMIT
    ensures var body := EncodeAll(ENTRY, Entries(m, order)) + rest;
      && DecodeSize(Le(|order|, 4) + body) == Some((|order|, body))
      && DecodeVec(ENTRY, |order|, body, []) == Some(Got(Vec(Entries(CutTexts(m), order)), rest))
    ensures Entries(CutTexts(m), order) == Entries(m, order) <==> forall k | k in m :: 0 !in m[k]
  {
    SizeRoundTrip(|order|, EncodeAll(ENTRY, Entries(m, order)) + rest);
    AllEntriesReadBack(m, order, rest);
    EntriesSame(m, CutTexts(m), order);
    CutTextsSame(m);
  }

  lemma AllEntriesReadBack(m: map<int, seq<byte>>, order: seq<int>, rest: seq<byte>)
    requires Storable(m) && forall k | k in order :: k in m
    ensures DecodeVec(ENTRY, |order|, EncodeAll(ENTRY, Entries(m, order)) + rest, [])
         == Some(Got(Vec(Entries(CutTexts(m), order)), rest))
  {
    EntriesReadBack(m, order, [], rest);
    assert [] + Entries(CutTexts(m), order) == Entries(CutTexts(m), order);
  }

  /** A walk is as long as the map is large. */
  lemma WalkLength(m: map<int, seq<byte>>, order: seq<int>)
    requires WalksMap(m, order)
    ensures |order| == |m|
  {
    ElementsCount(order);
    assert forall k :: k in (set j | j in order) <==> k in m.Keys;
    assert (set k | k in order) == m.Keys;
  }

  lemma {:induction false} ElementsCount(s: seq<int>)
    requires NoRepeats(s)
    ensures |set k | k in s| == |s|
  {
    if s != [] {
      var front, last := s[..|s| - 1], s[|s| - 1];
      ElementsCount(front);
      assert s == front + [last];
      assert (set k | k in s) == (set k | k in front) + {last};
    }
  }

  /** Read into a map `m0` it adds its entries, overwriting, whatever the order; so the reader ends
      up with exactly the sent map if and only if its old keys are all among the new ones, in
      particular when it starts empty. */
  lemma DataArrives(m0: map<int, seq<byte>>, m: map<int, seq<byte>>, order: seq<int>)
    requires WalksMap(m, order)
    ensures InsertAll(m0, Entries(m, order)) == m0 + m
    ensures InsertAll(m0, Entries(m, order)) == m <==> m0.Keys <= m.Keys
  {
    EntriesInserted(m0, m, order);
    var r := InsertAll(m0, Entries(m, order));
    assert forall k :: k in r <==> k in m0 + m;
    assert forall k | k in r :: r[k] == (m0 + m)[k];
    PlusIsSecond(m0, m);
  }

  lemma PlusIsSecond(m0: map<int, seq<byte>>, m: map<int, seq<byte>>)
    ensures m0 + m == m <==> m0.Keys <= m.Keys
  {
  }

  method AnyOf<T>(s: set<T>) returns (x: T)
    requires s != {}
    ensures x in s
  {
    x :| x in s;
  }

  lemma EntryShape(bs: seq<byte>)
    ensures Decode(ENTRY, bs).Some? ==> IsEntry(Decode(ENTRY, bs).value.v)
  {
  }

  lemma {:induction false} EncodeAllAppend(t: Type, vs: seq<Value>, v: Value)
    ensures EncodeAll(t, vs + [v]) == EncodeAll(t, vs) + Encode(t, v)
  {
    if vs == [] {
      assert vs + [v] == [v] && [v][1..] == [];
    } else {
      assert (vs + [v])[1..] == vs[1..] + [v];
      EncodeAllAppend(t, vs[1..], v);
    }
  }

  class Data {
    var entries: map<int, seq<byte>>

    constructor ()
      ensures entries == map[]
    {
      entries := map[];
    }

    /** Writes one entry of the walk. */
    method PutEntry(dst: Stream, k: int, ghost start: seq<byte>, ghost order: seq<int>)
      requires !dst.mayFail && Storable(entries) && k in entries && forall j | j in order :: j in entries
      requires dst.outgoing == start + EncodeAll(ENTRY, Entries(entries, order))
      modifies dst`outgoing
      ensures forall j | j in order + [k] :: j in entries
      ensures dst.outgoing == start + EncodeAll(ENTRY, Entries(entries, order + [k]))
    {
      EntriesOneMore(entries, order, k);
      EncodeAllAppend(ENTRY, Entries(entries, order), EntryOf(entries, k));
      Regroup(start, EncodeAll(ENTRY, Entries(entries, order)), Encode(ENTRY, EntryOf(entries, k)));
      dst.Put(ENTRY, EntryOf(entries, k));
    }

    /** `Serialize`: the size, then the entries in any order. */
    method Serialize(dst: Stream) returns (ghost order: seq<int>)
      requires !dst.mayFail && Storable(entries)
      modifies dst`outgoing
      ensures WalksMap(entries, order)
      ensures dst.outgoing == old(dst.outgoing) + Le(|entries|, 4) + EncodeAll(ENTRY, Entries(entries, order))
    {
      order := [];
      dst.PutInt(|entries|, 4);
      ghost var start := dst.outgoing;
      var left: set<int> := entries.Keys;
      assert start + [] == start;
      while left != {}
        invariant left <= entries.Keys
        invariant forall k :: k in order <==> k in entries && k !in left
        invariant forall i, j | 0 <= i < j < |order| :: order[i] != order[j]
        invariant dst.outgoing == start + EncodeAll(ENTRY, Entries(entries, order))
        decreases left
      {
        var k := AnyOf(left);
        PutEntry(dst, k, start, order);
        left := left - {k};
        order := order + [k];
      }
    }

    /** Reads one of `left` entries. */
    static method GetEntry(src: Stream, ghost left: nat, ghost sofar: seq<Value>) returns (curr: Value)
      requires !src.mayFail && left > 0 && DecodeVec(ENTRY, left, src.incoming, sofar).Some?
      modifies src`incoming
      ensures IsEntry(curr)
      ensures DecodeVec(ENTRY, left, old(src.incoming), sofar) == DecodeVec(ENTRY, left - 1, src.incoming, sofar + [curr])
    {
      EntryShape(src.incoming);
      curr := src.Get(ENTRY);
    }

    /** `Deserialize`: the entries are put into the map as it is. */
    method Deserialize(src: Stream, ghost items: seq<Value>)
      requires !src.mayFail && DecodeSize(src.incoming).Some?
      requires var (n, body) := DecodeSize(src.incoming).value;
        DecodeVec(ENTRY, n, body, []).Some? && DecodeVec(ENTRY, n, body, []).value.v == Vec(items)
      modifies this, src`incoming
      ensures forall i | 0 <= i < |items| :: IsEntry(items[i])
      ensures entries == InsertAll(old(entries), items)
      ensures var (n, body) := DecodeSize(old(src.incoming)).value;
        DecodeVec(ENTRY, n, body, []) == Some(Got(Vec(items), src.incoming))
    {
      var size := src.GetSize();
      ghost var goal := DecodeVec(ENTRY, size, src.incoming, []);
      ghost var sofar: seq<Value> := [];
      for i := 0 to size
        invariant DecodeVec(ENTRY, size - i, src.incoming, sofar) == goal
        invariant forall j | 0 <= j < |sofar| :: IsEntry(sofar[j])
        invariant entries == InsertAll(old(entries), sofar)
      {
        var curr := GetEntry(src, size - i, sofar);
        entries := entries[curr.first.n := curr.second.s];
        assert (sofar + [curr])[..|sofar|] == sofar;
        sofar := sofar + [curr];
      }
      assert sofar == items;
    }
  }

  /** The map on the other side after sending and receiving: old keys stay, sent ones are overwritten,
      texts end before their first NUL. It is the sent map if and only if the old keys are among the
      sent ones and no text holds a NUL. */
  lemma TransferExact(before: map<int, seq<byte>>, sent: map<int, seq<byte>>)
    ensures before + CutTexts(sent) == sent <==> before.Keys <= sent.Keys && forall k | k in sent :: 0 !in sent[k]
  {
    var r := before + CutTexts(sent);
    assert r.Keys == before.Keys + sent.Keys;
    CutTextsSame(sent);
    PlusIsSecond(before, CutTexts(sent));
    if r == sent {
      assert before.Keys <= sent.Keys;
    }
  }

  /** From one `data` object to another: `Serialize`, the connection with all its short sends and
      receives, and `Deserialize`. `behind` is what follows on the connection. */
  method Transfer(sender: Data, receiver: Data, dst: Stream, src: Stream, behind: seq<byte>)
    requires !dst.mayFail && !src.mayFail && dst != src && dst.outgoing == []
    requires Storable(sender.entries) && |sender.entries| < SIZE_LIMIT
    modifies dst`outgoing, src`incoming, receiver
    ensures receiver.entries == old(receiver.entries) + CutTexts(old(sender.entries)) && src.incoming == behind
    ensures receiver.entries == old(sender.entries) <==>
      old(receiver.entries).Keys <= old(sender.entries).Keys && forall k | k in old(sender.entries) :: 0 !in old(sender.entries)[k]
  {
    ghost var m, m0 := sender.entries, receiver.entries;
    ghost var order := sender.Serialize(dst);
    src.incoming := dst.outgoing + behind;
    ghost var bytes := EncodeAll(ENTRY, Entries(m, order));
    WalkLength(m, order);
    DataReadBack(m, order, behind);
    assert src.incoming == Le(|order|, 4) + (bytes + behind) by {
      assert [] + Le(|m|, 4) == Le(|m|, 4);
      Regroup(Le(|order|, 4), bytes, behind);
    }
    receiver.Deserialize(src, Entries(CutTexts(m), order));
    DataArrives(m0, CutTexts(m), order);
    TransferExact(m0, m);
  }
}
