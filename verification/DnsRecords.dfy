/** Resource records: the walker `nextParse`, the address text `ParseIP`, the reply dispatcher
    `parse` and the signature record `parseRRSIG` of proj3/myresolver.cpp. */
module DnsRecords {
  import opened Basics
  import opened Bytes
  import opened DnsNames

  // ---------------------------------------------------------------- address text

  function DecDigit(d: nat): (c: char)
    requires d < 10
    ensures c as int == '0' as int + d
  {
    ('0' as int + d) as char
  }

  /** A byte in decimal, as `operator<<(int)` prints it. */
  function Dec(b: byte): (s: string)
    ensures s != "" && (forall c | c in s :: '0' <= c <= '9') && (s[0] == '0' ==> b == 0 && |s| == 1)
  {
    if b < 10 then [DecDigit(b)]
    else if b < 100 then [DecDigit(b / 10), DecDigit(b % 10)]
    else [DecDigit(b / 100), DecDigit(b / 10 % 10), DecDigit(b % 10)]
  }

  function HexDigit(d: nat): (c: char)
    requires d < 16
    ensures '0' <= c <= '9' || 'a' <= c <= 'f'
  {
    if d < 10 then DecDigit(d) else ('a' as int + d - 10) as char
  }

  /** A byte in hexadecimal, two digits wide and filled with zeros. */
  function Hex(b: byte): (s: string)
    ensures |s| == 2
  {
    [HexDigit(b / 16), HexDigit(b % 16)]
  }

  /** The text after the first `k` bytes of the data. */
  function Ip4Text(rd: seq<byte>, k: nat): string
    requires k <= |rd|
  {
    if k == 0 then ""
    else Ip4Text(rd, k - 1) + (if k > 1 || k == |rd| then "." else "") + Dec(rd[k - 1])
  }

  function Ip6Text(rd: seq<byte>, k: nat): string
    requires k <= |rd|
  {
    if k == 0 then "" else Ip6Text(rd, k - 1) + Colon(rd, k) + Hex(rd[k - 1])
  }

  /** What separates the `k`-th byte from those before it. */
  function Colon(rd: seq<byte>, k: nat): (s: string)
    ensures s == "" || s == ":"
  {
    if (k > 1 || k == |rd|) && k % 2 == 1 then ":" else ""
  }

  function IpText(rd: seq<byte>, ipv6: bool): string {
    if ipv6 then Ip6Text(rd, |rd|) else Ip4Text(rd, |rd|)
  }

  method ParseIP(records: seq<byte>, ipv6: bool) returns (ss: string)
    ensures ss == IpText(records, ipv6)
  {
    ss := "";
    if ipv6 {
      for i := 0 to |records|
        invariant ss == Ip6Text(records, i)
      {
        if (i != 0 || i == |records| - 1) && i % 2 == 0 {
          ss := ss + ":";
        }
        ss := ss + Hex(records[i]);
      }
      return;
    }
    for i := 0 to |records|
      invariant ss == Ip4Text(records, i)
    {
      if i != 0 || i == |records| - 1 {
        ss := ss + ".";
      }
      ss := ss + Dec(records[i]);
    }
  }

  /** Reads dotted decimal from left to right: the fields finished so far and the current one. */
  datatype Dots = Dots(done: seq<int>, cur: int)

  function Undot(text: string, st: Dots): Dots {
    if text == "" then st
    else Undot(text[1..],
      if text[0] == '.' then Dots(st.done + [st.cur], 0)
      else Dots(st.done, st.cur * 10 + (text[0] as int - '0' as int)))
  }

  function Fields(text: string): seq<int> {
    var st := Undot(text, Dots([], 0));
    st.done + [st.cur]
  }

  lemma {:induction false} UndotAppend(a: string, b: string, st: Dots)
    ensures Undot(a + b, st) == Undot(b, Undot(a, st))
  {
    if a == "" {
      assert a + b == b;
    } else {
      assert (a + b)[1..] == a[1..] + b;
      UndotAppend(a[1..], b,
        if a[0] == '.' then Dots(st.done + [st.cur], 0) else Dots(st.done, st.cur * 10 + (a[0] as int - '0' as int)));
    }
  }

  lemma UndotDigit(d: nat, rest: string, st: Dots)
    requires d < 10
    ensures Undot([DecDigit(d)] + rest, st) == Undot(rest, Dots(st.done, st.cur * 10 + d))
  {
    assert ([DecDigit(d)] + rest)[1..] == rest;
  }

  lemma UndotLast(d: nat, st: Dots)
    requires d < 10
    ensures Undot([DecDigit(d)], st) == Dots(st.done, st.cur * 10 + d)
  {
  }

  lemma UndotTwo(c: nat, d: nat, st: Dots)
    requires c < 10 && d < 10
    ensures Undot([DecDigit(c), DecDigit(d)], st) == Dots(st.done, (st.cur * 10 + c) * 10 + d)
  {
    assert [DecDigit(c)] + [DecDigit(d)] == [DecDigit(c), DecDigit(d)];
    UndotDigit(c, [DecDigit(d)], st);
    UndotLast(d, Dots(st.done, st.cur * 10 + c));
  }

  lemma Digits(b: byte)
    ensures b / 10 * 10 + b % 10 == b && b / 100 * 10 + b / 10 % 10 == b / 10
    ensures b / 100 < 10 && (b < 100 ==> b / 10 < 10)
  {
  }

  lemma UndotDec(b: byte, done: seq<int>)
    ensures Undot(Dec(b), Dots(done, 0)) == Dots(done, b)
  {
    Digits(b);
    if b < 10 {
      UndotLast(b, Dots(done, 0));
    } else if b < 100 {
      UndotTwo(b / 10, b % 10, Dots(done, 0));
    } else {
      var tail := [DecDigit(b / 10 % 10), DecDigit(b % 10)];
      assert Dec(b) == [DecDigit(b / 100)] + tail;
      UndotDigit(b / 100, tail, Dots(done, 0));
      UndotTwo(b / 10 % 10, b % 10, Dots(done, b / 100));
    }
  }

  lemma UndotDot(st: Dots)
    ensures Undot(".", st) == Dots(st.done + [st.cur], 0)
  {
  }

  lemma {:induction false} UndotIp4(rd: seq<byte>, k: nat)
    requires 1 <= k <= |rd| && |rd| >= 2
    ensures Undot(Ip4Text(rd, k), Dots([], 0)) == Dots(rd[..k - 1], rd[k - 1])
  {
    var before := Ip4Text(rd, k - 1);
    if k == 1 {
      assert before + "" + Dec(rd[0]) == Dec(rd[0]);
      UndotDec(rd[0], []);
    } else {
      UndotIp4(rd, k - 1);
      UndotAppend(before, ".", Dots([], 0));
      UndotDot(Dots(rd[..k - 2], rd[k - 2]));
      UndotAppend(before + ".", Dec(rd[k - 1]), Dots([], 0));
      UndotDec(rd[k - 1], rd[..k - 1]);
      assert rd[..k - 2] + [rd[k - 2]] == rd[..k - 1];
    }
  }

  /** A single byte comes out with a leading dot, as two fields. */
  lemma UndotSingle(rd: seq<byte>)
    requires |rd| == 1
    ensures Undot(Ip4Text(rd, 1), Dots([], 0)) == Dots([0], rd[0])
  {
    assert Ip4Text(rd, 1) == "." + Dec(rd[0]);
    UndotAppend(".", Dec(rd[0]), Dots([], 0));
    UndotDot(Dots([], 0));
    assert [] + [0] == [0];
    UndotDec(rd[0], [0]);
  }

  /** The IPv4 text decodes back to the bytes, exactly when there are at least two of them. */
  lemma Ip4TextDecodes(rd: seq<byte>)
    ensures Fields(IpText(rd, false)) == rd <==> |rd| >= 2
  {
    if |rd| >= 2 {
      UndotIp4(rd, |rd|);
    } else if |rd| == 1 {
      UndotSingle(rd);
    }
  }

  function HexValue(c: char): int {
    if c <= '9' then c as int - '0' as int else c as int - 'a' as int + 10
  }

  /** Reads pairs of hexadecimal digits, skipping colons. */
  function Unhex(text: string): seq<int> {
    if text == "" then []
    else if text[0] == ':' then Unhex(text[1..])
    else if |text| == 1 then [HexValue(text[0])]
    else [HexValue(text[0]) * 16 + HexValue(text[1])] + Unhex(text[2..])
  }

  lemma UnhexByte(b: byte, rest: string)
    ensures Unhex(Hex(b) + rest) == [b] + Unhex(rest)
  {
  }

  lemma UnhexColon(rest: string)
    ensures Unhex(":" + rest) == Unhex(rest)
  {
  }

  lemma UnhexSeparated(separator: string, b: byte, rest: string)
    requires separator == "" || separator == ":"
    ensures Unhex(separator + (Hex(b) + rest)) == [b] + Unhex(rest)
  {
    UnhexByte(b, rest);
    UnhexColon(Hex(b) + rest);
    assert "" + (Hex(b) + rest) == Hex(b) + rest;
  }

  lemma Ip6LastByte(rd: seq<byte>, k: nat, rest: string)
    requires 0 < k <= |rd|
    ensures Ip6Text(rd, k) + rest == Ip6Text(rd, k - 1) + (Colon(rd, k) + (Hex(rd[k - 1]) + rest))
  {
  }

  lemma OneByteMore(rd: seq<byte>, k: nat, rest: seq<int>)
    requires 0 < k <= |rd|
    ensures rd[..k - 1] + ([rd[k - 1]] + rest) == rd[..k] + rest
  {
  }

  lemma {:induction false} UnhexIp6(rd: seq<byte>, k: nat, rest: string)
    requires k <= |rd|
    ensures Unhex(Ip6Text(rd, k) + rest) == rd[..k] + Unhex(rest)
  {
    if k == 0 {
      assert "" + rest == rest;
    } else {
      Ip6LastByte(rd, k, rest);
      UnhexIp6(rd, k - 1, Colon(rd, k) + (Hex(rd[k - 1]) + rest));
      UnhexSeparated(Colon(rd, k), rd[k - 1], rest);
      OneByteMore(rd, k, Unhex(rest));
    }
  }

  /** The IPv6 text decodes back to the bytes. */
  lemma Ip6TextDecodes(rd: seq<byte>)
    ensures Unhex(IpText(rd, true)) == rd
  {
    UnhexIp6(rd, |rd|, "");
    assert Ip6Text(rd, |rd|) + "" == Ip6Text(rd, |rd|);
    assert rd[..|rd|] + Unhex("") == rd;
  }

  predicate ColonsInPlace(text: string) {
    forall i | 0 <= i < |text| :: text[i] == ':' <==> i % 5 == 4
  }

  /** How long the text of `k` bytes is, in steps of two bytes. */
  lemma Groups(m: nat)
    ensures (5 * m + 2) % 5 == 2 && (5 * m + 3) % 5 == 3 && (5 * m + 4) % 5 == 4
    ensures (5 * m + 5) % 5 == 0 && (5 * m + 6) % 5 == 1
  {
  }

  lemma SecondByte(before: string, m: nat, digits: string)
    requires ColonsInPlace(before) && |before| == 5 * m + 2
    requires |digits| == 2 && digits[0] != ':' && digits[1] != ':'
    ensures ColonsInPlace(before + digits)
  {
    Groups(m);
  }

  lemma FirstByte(before: string, m: nat, digits: string)
    requires ColonsInPlace(before) && |before| == 5 * m + 4
    requires |digits| == 2 && digits[0] != ':' && digits[1] != ':'
    ensures ColonsInPlace(before + ":" + digits)
  {
    Groups(m);
  }

  lemma NextByte(before: string, k: nat, separator: string, digits: string)
    requires k >= 1 && ColonsInPlace(before) && |before| == 2 * k + (k - 1) / 2
    requires separator == if k % 2 == 0 then ":" else ""
    requires |digits| == 2 && digits[0] != ':' && digits[1] != ':'
    ensures var after := before + separator + digits;
      ColonsInPlace(after) && |after| == 2 * (k + 1) + k / 2
  {
    if k % 2 == 0 {
      FirstByte(before, k / 2 - 1, digits);
    } else {
      SecondByte(before, k / 2, digits);
      assert before + separator + digits == before + digits;
    }
  }

  /** Where the colons of an IPv6 text are: behind every four digits, and nowhere else. */
  lemma {:induction false} Ip6Colons(rd: seq<byte>, k: nat)
    requires 1 <= k <= |rd| && |rd| >= 2
    ensures |Ip6Text(rd, k)| == 2 * k + (k - 1) / 2 && ColonsInPlace(Ip6Text(rd, k))
    decreases k
  {
    if k > 1 {
      Ip6Colons(rd, k - 1);
      NextByte(Ip6Text(rd, k - 1), k - 1, Colon(rd, k), Hex(rd[k - 1]));
    } else {
      assert Ip6Text(rd, 1) == Ip6Text(rd, 0) + Colon(rd, 1) + Hex(rd[0]) == Hex(rd[0]);
    }
  }

  // ---------------------------------------------------------------- walking records

  datatype Server = Server(ip: string, name: seq<byte>)

  /** `rdata` is what `substr` cuts out at the data, clipped at the end of the message; None when the
      data begins beyond that end, where `substr` throws. */
  datatype Record = Record(name: seq<byte>, rtype: nat, rclass: nat, ttl: nat, rdlength: nat, rdata: Option<seq<byte>>)

  /** What the code reads as one record, and where it goes on. */
  datatype Read = Read(record: Record, next: nat)

  /** The record whose name has been read and whose fixed fields begin at `at`. Their last byte may be
      the NUL at the end of the message. */
  function RecordAt(msg: seq<byte>, name: seq<byte>, at: nat): Option<Read> {
    if at + 9 > |msg| then None
    else
      var rdlength := Atoi16(msg[at + 8], ByteAt(msg, at + 9));
      Some(Read(Record(name,
                       Atoi16(msg[at], msg[at + 1]),
                       Atoi16(msg[at + 2], msg[at + 3]),
                       FromBe32(msg[at + 4], msg[at + 5], msg[at + 6], msg[at + 7]),
                       rdlength,
                       if at + 10 <= |msg| then Some(Substr(msg, at + 10, rdlength)) else None),
                at + 10 + rdlength))
  }

  function CodeRecord(msg: seq<byte>, loc: nat, calls: nat): Option<Read> {
    match CodeParse(msg, loc, calls)
    case Stuck => None
    case Parsed(labels, at) => RecordAt(msg, Dotted(labels, true), at)
  }

  /** Where the record after the first `i` of `walk` starts. */
  function At(start: nat, walk: seq<Read>, i: nat): nat
    requires i <= |walk|
  {
    if i == 0 then start else walk[i - 1].next
  }

  /** `walk` is what the code reads, record after record, from `start` on. */
  ghost predicate Walks(msg: seq<byte>, start: nat, walk: seq<Read>, calls: nat) {
    forall i: nat | i < |walk| :: ReadAt(msg, start, walk, i, calls)
  }

  /** The `i`-th record of the walk is what the code reads where it then stands. */
  ghost predicate ReadAt(msg: seq<byte>, start: nat, walk: seq<Read>, i: nat, calls: nat)
    requires i < |walk|
  {
    CodeRecord(msg, At(start, walk, i), calls) == Some(walk[i])
  }

  /** A record whose data is not there at all. */
  predicate Throws(walk: seq<Read>) {
    exists i | 0 <= i < |walk| :: walk[i].record.rdata.None?
  }

  /** What a record adds to the servers. */
  function ServerOf(r: Record): seq<Server> {
    if r.rdlength == 4 && r.rdata.Some? then [Server(IpText(r.rdata.value, false), r.name)] else []
  }

  /** Of the first `n` records those with four bytes of data, in order, as servers. */
  function ServersOf(walk: seq<Read>, n: nat): seq<Server>
    requires n <= |walk|
  {
    if n == 0 then [] else ServersOf(walk, n - 1) + ServerOf(walk[n - 1].record)
  }

  method ReadRecord(records: seq<byte>, start: nat, ghost calls: nat, ghost read: Read) returns (record: Record, location: nat)
    requires CodeRecord(records, start, calls) == Some(read)
    ensures record == read.record && location == read.next
  {
    var name, rtype, rclass, ttl, rdlength;
    name, location := RecParse(records, start, true, calls);
    rtype, location := ReadAtoi16(records, location);
    rclass, location := ReadAtoi16(records, location);
    ttl, location := ReadAtoi32(records, location);
    rdlength, location := ReadAtoi16(records, location);
    var rdata := if location <= |records| then Some(Substr(records, location, rdlength)) else None;
    record := Record(name, rtype, rclass, ttl, rdlength, rdata);
    location := location + rdlength;
  }

  /** The first two loops of `nextParse`. */
  method SkipRecords(records: seq<byte>, start: nat, n: nat, ghost walk: seq<Read>, ghost calls: nat) returns (location: nat)
    requires n == |walk| && Walks(records, start, walk, calls)
    ensures location == At(start, walk, n)
  {
    location := start;
    for i := 0 to n
      invariant location == At(start, walk, i)
    {
      var record;
      assert ReadAt(records, start, walk, i, calls);
      record, location := ReadRecord(records, location, calls, walk[i]);
    }
  }

  /** A record of the additional section: its address text, kept when it is an IPv4 one. */
  method TakeServer(records: seq<byte>, start: nat, ghost calls: nat, ghost read: Read)
    returns (threw: bool, added: seq<Server>, location: nat)
    requires CodeRecord(records, start, calls) == Some(read)
    ensures threw == read.record.rdata.None?
    ensures added == ServerOf(read.record) && location == read.next
  {
    var record;
    record, location := ReadRecord(records, start, calls, read);
    if record.rdata.None? {
      return true, [], location;
    }
    var rdata := ParseIP(record.rdata.value, record.rdlength == 16);
    threw, added := false, [];
    if record.rdlength == 4 {
      added := [Server(rdata, record.name)];
    }
  }

  /** The last loop of `nextParse`. */
  method CollectServers(records: seq<byte>, start: nat, n: nat, ghost walk: seq<Read>, ghost calls: nat)
    returns (threw: bool, newList: seq<Server>, location: nat)
    requires n == |walk| && Walks(records, start, walk, calls)
    ensures threw == Throws(walk)
    ensures !threw ==> location == At(start, walk, n) && newList == ServersOf(walk, n)
  {
    threw, location, newList := false, start, [];
    for i := 0 to n
      invariant !threw && location == At(start, walk, i)
      invariant newList == ServersOf(walk, i)
      invariant forall j | 0 <= j < i :: walk[j].record.rdata.Some?
    {
      var added;
      assert ReadAt(records, start, walk, i, calls);
      threw, added, location := TakeServer(records, location, calls, walk[i]);
      if threw {
        return;
      }
      newList := newList + added;
    }
  }

  /** `nextParse`: the answer and authority records are walked over, the additional records with
      four bytes of data become servers. `an`, `ns` and `ar` are what lies in the three sections:
      records may reach beyond the message only where nothing more is read. */
  method NextParse(records: seq<byte>, start: nat, ancount: nat, nscount: nat, arcount: nat,
                   ghost an: seq<Read>, ghost ns: seq<Read>, ghost ar: seq<Read>, ghost calls: nat)
    returns (threw: bool, newList: seq<Server>, location: nat)
    requires ancount == |an| && nscount == |ns| && arcount == |ar|
    requires Walks(records, start, an, calls)
    requires Walks(records, End(start, an), ns, calls)
    requires Walks(records, End(End(start, an), ns), ar, calls)
    ensures threw == Throws(ar)
    ensures !threw ==> location == End(End(End(start, an), ns), ar) && newList == ServersOf(ar, |ar|)
  {
    location := SkipRecords(records, start, ancount, an, calls);
    location := SkipRecords(records, location, nscount, ns, calls);
    threw, newList, location := CollectServers(records, location, arcount, ar, calls);
  }

  function End(start: nat, walk: seq<Read>): nat {
    At(start, walk, |walk|)
  }

  // ---------------------------------------------------------------- the record format

  /** A record as section 4.1.3 of RFC 1035 lays it out. */
  datatype Rr = Rr(labels: seq<Label>, rtype: nat, rclass: nat, ttl: nat, rdata: seq<byte>)

  predicate ValidRr(r: Rr) {
    r.rtype < 0x1_0000 && r.rclass < 0x1_0000 && r.ttl < 0x1_0000_0000 && |r.rdata| < 0x1_0000
  }

  function Fixed(r: Rr): (f: seq<byte>)
    requires ValidRr(r)
    ensures |f| == 10
  {
    Be16(r.rtype) + Be16(r.rclass) + Be32(r.ttl) + Be16(|r.rdata|)
  }

  /** The record `r` lies at `loc`; its name ends in a pointer to an offset below 64 and so do all
      names it leads to. */
  ghost predicate RrAt(msg: seq<byte>, loc: nat, r: Rr) {
    && ValidRr(r)
    && RfcName(msg, loc, loc, 64).Some?
    && var n := RfcName(msg, loc, loc, 64).value;
       && n.compressed && n.labels == r.labels
       && Holds(msg, n.end, Fixed(r)) && Holds(msg, n.end + 10, r.rdata)
  }

  /** The offset just past the record. */
  function RrEnd(msg: seq<byte>, loc: nat, r: Rr): nat {
    match RfcName(msg, loc, loc, 64)
    case Some(n) => n.end + 10 + |r.rdata|
    case None => loc
  }

  ghost predicate SectionAt(msg: seq<byte>, loc: nat, rs: seq<Rr>)
    decreases |rs|
  {
    rs == [] || (RrAt(msg, loc, rs[0]) && SectionAt(msg, RrEnd(msg, loc, rs[0]), rs[1..]))
  }

  function SectionEnd(msg: seq<byte>, loc: nat, rs: seq<Rr>): nat
    decreases |rs|
  {
    if rs == [] then loc else SectionEnd(msg, RrEnd(msg, loc, rs[0]), rs[1..])
  }

  lemma FixedFields(msg: seq<byte>, at: nat, r: Rr)
    requires ValidRr(r) && Holds(msg, at, Fixed(r))
    ensures at + 10 <= |msg|
    ensures Atoi16(msg[at], msg[at + 1]) == r.rtype <==> r.rtype < 32768
    ensures Atoi16(msg[at + 2], msg[at + 3]) == r.rclass <==> r.rclass < 32768
    ensures FromBe32(msg[at + 4], msg[at + 5], msg[at + 6], msg[at + 7]) == r.ttl
    ensures Atoi16(msg[at + 8], msg[at + 9]) == |r.rdata| <==> |r.rdata| < 32768
  {
    Atoi16Exact(r.rtype);
    Atoi16Exact(r.rclass);
    Atoi16Exact(|r.rdata|);
    var f := Fixed(r);
    forall i: nat | i < 10 ensures msg[at + i] == f[i] {
      HoldsAt(msg, at, f, i);
    }
    assert f[0..2] == Be16(r.rtype) && f[2..4] == Be16(r.rclass) && f[4..8] == Be32(r.ttl) && f[8..10] == Be16(|r.rdata|);
    Be32RoundTrip(r.ttl);
  }

  lemma FieldsReadBack(msg: seq<byte>, name: seq<byte>, at: nat, r: Rr)
    requires ValidRr(r) && Holds(msg, at, Fixed(r)) && Holds(msg, at + 10, r.rdata)
    ensures var c := RecordAt(msg, name, at);
      && c.Some? && c.value.record.name == name
      && (c.value.next == at + 10 + |r.rdata| <==> |r.rdata| < 32768)
      && (|r.rdata| < 32768 ==> c.value.record.rdlength == |r.rdata| && c.value.record.rdata == Some(r.rdata))
      && c.value.record.ttl == r.ttl
      && (c.value.record.rtype == r.rtype <==> r.rtype < 32768)
      && (c.value.record.rclass == r.rclass <==> r.rclass < 32768)
  {
    FixedFields(msg, at, r);
    SubstrHolds(msg, at + 10, r.rdata);
    assert ByteAt(msg, at + 9) == msg[at + 9];
  }

  lemma SubstrHolds(msg: seq<byte>, at: nat, data: seq<byte>)
    requires Holds(msg, at, data)
    ensures at + |data| <= |msg| && Substr(msg, at, |data|) == data
  {
  }

  /** One record laid out per the standard is left at its end exactly when its data is shorter than
      32768 bytes, and then it is read back: type and class are exact below 32768. */
  lemma RecordReadBack(msg: seq<byte>, loc: nat, r: Rr) returns (calls: nat)
    requires RrAt(msg, loc, r)
    ensures var c := CodeRecord(msg, loc, calls);
      && (c.Some? && c.value.next == RrEnd(msg, loc, r) <==> |r.rdata| < 32768)
      && (|r.rdata| < 32768 ==>
            && Matches(c.value, r)
            && c.value.record.ttl == r.ttl
            && (c.value.record.rtype == r.rtype <==> r.rtype < 32768)
            && (c.value.record.rclass == r.rclass <==> r.rclass < 32768))
  {
    calls := ParseMeetsRfc(msg, loc, loc);
    FieldsReadBack(msg, Dotted(r.labels, true), RfcName(msg, loc, loc, 64).value.end, r);
  }

  predicate Matches(read: Read, r: Rr) {
    && read.record.name == Dotted(r.labels, true)
    && read.record.rdlength == |r.rdata| && read.record.rdata == Some(r.rdata)
  }

  lemma RecordMoreCalls(msg: seq<byte>, loc: nat, calls: nat, more: nat)
    requires CodeRecord(msg, loc, calls).Some? && calls <= more
    ensures CodeRecord(msg, loc, more) == CodeRecord(msg, loc, calls)
  {
    MoreCalls(msg, loc, calls, more);
  }

  lemma WalksMoreCalls(msg: seq<byte>, start: nat, walk: seq<Read>, calls: nat, more: nat)
    requires Walks(msg, start, walk, calls) && calls <= more
    ensures Walks(msg, start, walk, more)
  {
    forall i: nat | i < |walk| ensures ReadAt(msg, start, walk, i, more) {
      assert ReadAt(msg, start, walk, i, calls);
      RecordMoreCalls(msg, At(start, walk, i), calls, more);
    }
  }

  lemma WalksCons(msg: seq<byte>, start: nat, read: Read, walk: seq<Read>, calls: nat)
    requires CodeRecord(msg, start, calls) == Some(read) && Walks(msg, read.next, walk, calls)
    ensures Walks(msg, start, [read] + walk, calls)
    ensures End(start, [read] + walk) == End(read.next, walk)
  {
    forall i: nat | i < |[read] + walk|
      ensures ReadAt(msg, start, [read] + walk, i, calls)
    {
      if i > 0 {
        assert ReadAt(msg, read.next, walk, i - 1, calls);
        assert At(start, [read] + walk, i) == At(read.next, walk, i - 1);
      }
    }
  }

  lemma PrependRead(msg: seq<byte>, start: nat, read: Read, walk: seq<Read>, first: nat, calls: nat)
    requires CodeRecord(msg, start, first) == Some(read) && Walks(msg, read.next, walk, calls)
    ensures Walks(msg, start, [read] + walk, Max(first, calls))
    ensures End(start, [read] + walk) == End(read.next, walk)
  {
    RecordMoreCalls(msg, start, first, Max(first, calls));
    WalksMoreCalls(msg, read.next, walk, calls, Max(first, calls));
    WalksCons(msg, start, read, walk, Max(first, calls));
  }

  lemma {:induction false} SectionReadBack(msg: seq<byte>, loc: nat, rs: seq<Rr>) returns (calls: nat, walk: seq<Read>)
    requires SectionAt(msg, loc, rs) && forall r | r in rs :: |r.rdata| < 32768
    ensures |walk| == |rs| && Walks(msg, loc, walk, calls) && End(loc, walk) == SectionEnd(msg, loc, rs)
    ensures forall i | 0 <= i < |rs| :: Matches(walk[i], rs[i])
    decreases |rs|
  {
    calls, walk := 0, [];
    if rs != [] {
      var first := RecordReadBack(msg, loc, rs[0]);
      var read := CodeRecord(msg, loc, first).value;
      calls, walk := SectionReadBack(msg, read.next, rs[1..]);
      PrependRead(msg, loc, read, walk, first, calls);
      calls, walk := Max(first, calls), [read] + walk;
    }
  }

  /** The address records among the first `n` as servers: those with four bytes of data, in order. */
  function AddressServers(rs: seq<Rr>, n: nat): seq<Server>
    requires n <= |rs|
  {
    if n == 0 then []
    else
      var last := rs[n - 1];
      AddressServers(rs, n - 1)
      + if |last.rdata| == 4 then [Server(IpText(last.rdata, false), Dotted(last.labels, true))] else []
  }

  lemma {:induction false} SameServers(walk: seq<Read>, rs: seq<Rr>, n: nat)
    requires |walk| == |rs| && n <= |rs| && forall i | 0 <= i < |rs| :: Matches(walk[i], rs[i])
    ensures ServersOf(walk, n) == AddressServers(rs, n) && !Throws(walk)
  {
    if n > 0 {
      SameServers(walk, rs, n - 1);
      assert Matches(walk[n - 1], rs[n - 1]);
    }
  }

  /** `nextParse` inverts record serialisation: for any answer, authority and additional sections in
      the layout of the standard (names ending in a decodable pointer, data below 32768 bytes) it
      may be called, ends exactly at the end of the last record, and returns exactly the additional
      records with four bytes of data, with their expanded names. */
  lemma NextParseInverts(msg: seq<byte>, loc: nat, answers: seq<Rr>, authority: seq<Rr>, additional: seq<Rr>)
    returns (calls: nat, an: seq<Read>, ns: seq<Read>, ar: seq<Read>)
    requires SectionAt(msg, loc, answers)
    requires var loc1 := SectionEnd(msg, loc, answers);
      SectionAt(msg, loc1, authority) && SectionAt(msg, SectionEnd(msg, loc1, authority), additional)
    requires forall r | r in answers || r in authority || r in additional :: |r.rdata| < 32768
    ensures |an| == |answers| && |ns| == |authority| && |ar| == |additional|
    ensures Walks(msg, loc, an, calls) && Walks(msg, End(loc, an), ns, calls) && Walks(msg, End(End(loc, an), ns), ar, calls)
    ensures End(End(End(loc, an), ns), ar) == SectionEnd(msg, SectionEnd(msg, SectionEnd(msg, loc, answers), authority), additional)
    ensures ServersOf(ar, |ar|) == AddressServers(additional, |additional|) && !Throws(ar)
  {
    var c1, c2, c3;
    var loc1 := SectionEnd(msg, loc, answers);
    var loc2 := SectionEnd(msg, loc1, authority);
    c1, an := SectionReadBack(msg, loc, answers);
    c2, ns := SectionReadBack(msg, loc1, authority);
    c3, ar := SectionReadBack(msg, loc2, additional);
    calls := Max(c1, Max(c2, c3));
    WalksMoreCalls(msg, loc, an, c1, calls);
    WalksMoreCalls(msg, loc1, ns, c2, calls);
    WalksMoreCalls(msg, loc2, ar, c3, calls);
    SameServers(ar, additional, |additional|);
  }

  // ---------------------------------------------------------------- dispatching a reply

  /** A count is taken from the low byte of its field, as a signed `char` put into a `uint16_t`. */
  function CountOf(low: byte): nat {
    if low < 128 then low else 0xFF00 + low
  }

  /** The count is the one in the message exactly when that is below 128 (or so close to 65536 that
      the sign fill happens to be right). */
  lemma CountExact(n: nat)
    requires n < 0x1_0000
    ensures CountOf(Be16(n)[1]) == n <==> n < 128 || n >= 0xFF80
  {
  }

  /** How a shell reports a process that an uncaught exception aborts. */
  const ABORTED := 134

  /** How handling a reply ends: the process exits, or there are servers to ask next (maybe none). */
  datatype Outcome = ExitWith(code: int) | Next(servers: seq<Server>)

  /** `parse`. The walked sections are needed only when the reply is a referral; `successParse`,
      which ends the process with code 0, is not entered here. */
  method Parse(response: seq<byte>, qSize: nat, ghost an: seq<Read>, ghost ns: seq<Read>, ghost ar: seq<Read>, ghost calls: nat)
    returns (r: Outcome)
    requires |response| >= 12
    requires |an| == CountOf(response[7]) && |ns| == CountOf(response[9]) && |ar| == CountOf(response[11])
    requires Referral(response) ==>
      Walks(response, qSize, an, calls) && Walks(response, End(qSize, an), ns, calls) && Walks(response, End(End(qSize, an), ns), ar, calls)
    ensures r == Handled(response, ar)
  {
    var aa := response[2] / 4 % 2 == 1;
    var rcode := response[3] % 16;
    var ancount, nscount, arcount := CountOf(response[7]), CountOf(response[9]), CountOf(response[11]);
    if rcode == 0 {
      if aa && ancount != 0 {
        return ExitWith(0);
      }
      var threw, servers, end := NextParse(response, qSize, ancount, nscount, arcount, an, ns, ar, calls);
      return if threw then ExitWith(ABORTED) else Next(servers);
    } else if rcode == 1 {
      return ExitWith(-1);
    } else if rcode == 3 {
      if aa && ancount == 0 {
        return ExitWith(0);
      }
    }
    return Next([]);
  }

  /** How a reply is handled, given the records of its additional section. */
  function Handled(response: seq<byte>, ar: seq<Read>): Outcome
    requires |response| >= 12
  {
    if Referral(response) then (if Throws(ar) then ExitWith(ABORTED) else Next(ServersOf(ar, |ar|)))
    else if Rcode(response) == 0 then ExitWith(0)
    else if Rcode(response) == 1 then ExitWith(-1)
    else if Rcode(response) == 3 && Authoritative(response) && response[7] == 0 then ExitWith(0)
    else Next([])
  }

  function Rcode(response: seq<byte>): nat
    requires |response| >= 12
  {
    response[3] % 16
  }

  predicate Authoritative(response: seq<byte>)
    requires |response| >= 12
  {
    response[2] / 4 % 2 == 1
  }

  /** The flags of a header per section 4.1.1 of RFC 1035. */
  datatype Flags = Flags(qr: nat, opcode: nat, aa: nat, tc: nat, rd: nat, ra: nat, z: nat, rcode: nat)
  {
    predicate Valid() {
      qr < 2 && opcode < 16 && aa < 2 && tc < 2 && rd < 2 && ra < 2 && z < 8 && rcode < 16
    }
  }

  /** The reply begins with a header that has these flags and says so many answers. */
  ghost predicate HeaderAt(response: seq<byte>, flags: Flags, answers: nat) {
    && |response| >= 12 && flags.Valid() && answers < 0x1_0000
    && response[2] as int == flags.qr * 128 + flags.opcode * 8 + flags.aa * 4 + flags.tc * 2 + flags.rd
    && response[3] as int == flags.ra * 128 + flags.z * 16 + flags.rcode
    && response[6] as int * 256 + response[7] as int == answers
  }

  lemma FlagsReadBack(response: seq<byte>, flags: Flags, answers: nat)
    requires HeaderAt(response, flags, answers)
    ensures Rcode(response) == flags.rcode && (Authoritative(response) <==> flags.aa == 1)
    ensures response[7] == 0 <==> answers % 256 == 0
  {
    assert response[2] as int / 4 == (flags.qr * 16 + flags.opcode) * 2 + flags.aa;
    assert response[3] as int == (flags.ra * 8 + flags.z) * 16 + flags.rcode;
  }

  /** How a reply is handled, told by the fields of its header: an authoritative answer and an
      authoritative "no such name" end the process with code 0, a format error ends it with -1, any
      other success is a referral, and anything else yields no servers. Answer counts are seen modulo
      256. */
  lemma HandledByHeader(response: seq<byte>, flags: Flags, answers: nat, ar: seq<Read>)
    requires HeaderAt(response, flags, answers)
    ensures Handled(response, ar) ==
      match flags.rcode
      case 0 =>
        if flags.aa == 1 && answers % 256 != 0 then ExitWith(0)
        else if exists i | 0 <= i < |ar| :: ar[i].record.rdata.None? then ExitWith(ABORTED)
        else Next(ServersOf(ar, |ar|))
      case 1 => ExitWith(-1)
      case 3 => if flags.aa == 1 && answers % 256 == 0 then ExitWith(0) else Next([])
      case _ => Next([])
  {
    FlagsReadBack(response, flags, answers);
  }

  /** A successful reply that is not an authoritative answer. */
  predicate Referral(response: seq<byte>)
    requires |response| >= 12
  {
    Rcode(response) == 0 && !(Authoritative(response) && response[7] != 0)
  }

  // ---------------------------------------------------------------- signature records

  /** What `parseRRSIG` reads, except for the printing. */
  datatype Rrsig = Rrsig(name: seq<byte>, rtype: nat, rclass: nat, ttl: nat, rdlength: nat,
                         covered: nat, algorithm: byte, labels: byte, originalTtl: nat,
                         expiration: nat, inception: nat, keyTag: nat, signer: seq<byte>, signature: seq<byte>)

  /** The length argument of `substr`: an `int` minus a `size_t`, so unsigned and wrapping. */
  function SignatureLength(rdlength: nat, signerLength: nat): nat {
    (rdlength - 20 - signerLength) % 0x1_0000_0000_0000_0000
  }

  /** `std::string::substr`, which stops at the end of the string. */
  function Substr(s: seq<byte>, from: nat, count: nat): seq<byte>
    requires from <= |s|
  {
    if from + count <= |s| then s[from..from + count] else s[from..]
  }

  lemma SubstrIsClipped(s: seq<byte>, from: nat, count: nat)
    requires from <= |s|
    ensures var r := Substr(s, from, count);
      |r| == (if count <= |s| - from then count else |s| - from) && r == s[from..from + |r|]
  {
  }

  /** The numbers of a signature record, whose fixed fields begin at `at`. */
  function RrsigNumbers(records: seq<byte>, at: nat): Rrsig
    requires at + 28 <= |records|
  {
    Rrsig([],
          Atoi16(records[at], records[at + 1]),
          Atoi16(records[at + 2], records[at + 3]),
          FromBe32(records[at + 4], records[at + 5], records[at + 6], records[at + 7]),
          Atoi16(records[at + 8], records[at + 9]),
          Atoi16(records[at + 10], records[at + 11]),
          records[at + 12],
          records[at + 13],
          FromBe32(records[at + 14], records[at + 15], records[at + 16], records[at + 17]),
          FromBe32(records[at + 18], records[at + 19], records[at + 20], records[at + 21]),
          FromBe32(records[at + 22], records[at + 23], records[at + 24], records[at + 25]),
          Atoi16(records[at + 26], records[at + 27]),
          [], [])
  }

  /** What is read behind the owner name when the signer is read as `signer`, up to `end`. */
  function RrsigFields(records: seq<byte>, name: seq<byte>, at: nat, signer: seq<byte>, end: nat): Rrsig
    requires at + 28 <= |records| && end <= |records|
  {
    var r := RrsigNumbers(records, at);
    r.(name := name, signer := signer, signature := Substr(records, end, SignatureLength(r.rdlength, |signer|)))
  }

  /** The numbers `parseRRSIG` reads between the names. */
  method ReadNumbers(records: seq<byte>, start: nat) returns (r: Rrsig, location: nat)
    requires start + 28 <= |records|
    ensures r == RrsigNumbers(records, start) && location == start + 28
  {
    var rtype, rclass, ttl, rdlength, covered, algorithm, labels, originalTtl, expiration, inception, keyTag;
    rtype, location := ReadAtoi16(records, start);
    rclass, location := ReadAtoi16(records, location);
    ttl, location := ReadAtoi32(records, location);
    rdlength, location := ReadAtoi16(records, location);
    covered, location := ReadAtoi16(records, location);
    algorithm, location := ReadAtoi8(records, location);
    labels, location := ReadAtoi8(records, location);
    originalTtl, location := ReadAtoi32(records, location);
    expiration, location := ReadAtoi32(records, location);
    inception, location := ReadAtoi32(records, location);
    keyTag, location := ReadAtoi16(records, location);
    r := Rrsig([], rtype, rclass, ttl, rdlength, covered, algorithm, labels, originalTtl, expiration, inception, keyTag, [], []);
  }

  /** `parseRRSIG`, callable where the owner, the fixed fields and the signer lie in the message. */
  method ParseRRSIG(records: seq<byte>, start: nat, ghost calls: nat) returns (r: Rrsig, location: nat)
    requires var owner := CodeParse(records, start, calls);
      && owner.Parsed? && owner.next + 28 <= |records|
      && CodeParse(records, owner.next + 28, calls).Parsed?
      && CodeParse(records, owner.next + 28, calls).next < |records|
    ensures var owner := CodeParse(records, start, calls);
            var signer := CodeParse(records, owner.next + 28, calls);
      && location == signer.next + 1
      && r == RrsigFields(records, Dotted(owner.labels, true), owner.next, Dotted(signer.labels, true), location)
  {
    var name, signer;
    name, location := RecParse(records, start, true, calls);
    r, location := ReadNumbers(records, location);
    signer, location := RecParse(records, location, true, calls);
    location := location + 1;
    var signature := Substr(records, location, SignatureLength(r.rdlength, |signer|));
    r := r.(name := name, signer := signer, signature := signature);
  }

  /** A signature record per section 3.1 of RFC 4034. */
  datatype Sig = Sig(rtype: nat, rclass: nat, ttl: nat, covered: nat, algorithm: byte, labels: byte, originalTtl: nat,
                     expiration: nat, inception: nat, keyTag: nat, signer: seq<Label>, signature: seq<byte>)
  {
    predicate Valid() {
      && rtype < 0x1_0000 && rclass < 0x1_0000 && ttl < 0x1_0000_0000 && covered < 0x1_0000 && originalTtl < 0x1_0000_0000
      && expiration < 0x1_0000_0000 && inception < 0x1_0000_0000 && keyTag < 0x1_0000
      && LabelLengths(signer, 63) && SignatureRdlength(signer, signature) < 0x1_0000
    }

    function FixedBytes(): (f: seq<byte>)
      requires Valid()
      ensures |f| == 28
    {
      Be16(rtype) + Be16(rclass) + Be32(ttl) + Be16(SignatureRdlength(signer, signature))
      + Be16(covered) + [algorithm, labels] + Be32(originalTtl) + Be32(expiration) + Be32(inception) + Be16(keyTag)
    }
  }

  /** Behind the owner name, at `at`, lies such a record: 28 fixed bytes, the uncompressed signer name
      with its terminator, and the signature up to RDLENGTH. */
  ghost predicate SigAt(msg: seq<byte>, at: nat, s: Sig) {
    && s.Valid()
    && Holds(msg, at, s.FixedBytes())
    && Holds(msg, at + 28, LabelsWire(s.signer) + [0])
    && Holds(msg, SignatureStart(at, s.signer), s.signature)
  }

  /** The part of that which the extent of the signature depends on. */
  ghost predicate SignatureAt(msg: seq<byte>, at: nat, signer: seq<Label>, signature: seq<byte>) {
    && LabelLengths(signer, 63)
    && SignatureRdlength(signer, signature) < 0x1_0000
    && Holds(msg, at + 8, Be16(SignatureRdlength(signer, signature)))
    && Holds(msg, at + 28, LabelsWire(signer) + [0])
    && Holds(msg, SignatureStart(at, signer), signature)
  }

  /** RDLENGTH per section 3.1 of RFC 4034. */
  function SignatureRdlength(signer: seq<Label>, signature: seq<byte>): nat {
    18 + |LabelsWire(signer)| + 1 + |signature|
  }

  /** Where the signature begins. */
  function SignatureStart(at: nat, signer: seq<Label>): nat {
    at + 28 + |LabelsWire(signer)| + 1
  }

  lemma SignatureFields(msg: seq<byte>, at: nat, signer: seq<Label>, signature: seq<byte>)
    requires SignatureAt(msg, at, signer, signature) && SignatureRdlength(signer, signature) < 32768
    ensures Atoi16(msg[at + 8], msg[at + 9]) == SignatureRdlength(signer, signature)
    ensures CodeParse(msg, at + 28, |signer| + 1) == Parsed(signer, SignatureStart(at, signer) - 1)
  {
    FieldReads(msg, at + 8, SignatureRdlength(signer, signature));
    ShorterLabels(signer, 63, 191);
    ParseUncompressed(msg, at + 28, signer);
  }

  /** The signature is cut out exactly, for RDLENGTH below 32768, if and only if the signer is not
      the root: then fixed bytes, name, terminator and the computed length cover RDLENGTH bytes. For
      the root the length is one short. */
  lemma SignatureSpan(msg: seq<byte>, at: nat, signer: seq<Label>, signature: seq<byte>)
    requires SignatureAt(msg, at, signer, signature) && |signature| > 0
    requires SignatureRdlength(signer, signature) < 32768
    ensures CodeParse(msg, at + 28, |signer| + 1).Parsed?
    ensures var rdlength := Atoi16(msg[at + 8], msg[at + 9]);
            var p := CodeParse(msg, at + 28, |signer| + 1);
            var length := SignatureLength(rdlength, |Dotted(p.labels, true)|);
      && p.next + 1 <= |msg|
      && Substr(msg, p.next + 1, length) == (if signer == [] then signature[..|signature| - 1] else signature)
      && (Substr(msg, p.next + 1, length) == signature <==> signer != [])
      && (p.next + 1 + length == at + 10 + rdlength <==> signer != [])
  {
    SignatureFields(msg, at, signer, signature);
    DottedLength(signer, true);
    NoWrap(SignatureRdlength(signer, signature), |Dotted(signer, true)|);
    CutSignature(msg, SignatureStart(at, signer), signature, if signer == [] then 1 else 0);
  }

  lemma Field16(msg: seq<byte>, at: nat, f: seq<byte>, i: nat, n: nat)
    requires Holds(msg, at, f) && i + 2 <= |f| && n < 0x1_0000 && f[i..i + 2] == Be16(n)
    ensures at + i + 2 <= |msg| && (Atoi16(msg[at + i], msg[at + i + 1]) == n <==> n < 32768)
    ensures Holds(msg, at + i, Be16(n))
  {
    HoldsAt(msg, at, f, i);
    HoldsAt(msg, at, f, i + 1);
    assert f[i] == f[i..i + 2][0] && f[i + 1] == f[i..i + 2][1];
    Atoi16Exact(n);
    assert msg[at + i..at + i + 2] == Be16(n);
  }

  lemma Field32(msg: seq<byte>, at: nat, f: seq<byte>, i: nat, n: nat)
    requires Holds(msg, at, f) && i + 4 <= |f| && n < 0x1_0000_0000 && f[i..i + 4] == Be32(n)
    ensures at + i + 4 <= |msg| && FromBe32(msg[at + i], msg[at + i + 1], msg[at + i + 2], msg[at + i + 3]) == n
  {
    forall k: nat | k < 4 ensures at + i + k < |msg| && msg[at + i + k] == Be32(n)[k] {
      HoldsAt(msg, at, f, i + k);
      assert f[i + k] == f[i..i + 4][k];
    }
    Be32RoundTrip(n);
  }

  lemma NumbersReadBack(msg: seq<byte>, at: nat, s: Sig)
    requires s.Valid() && Holds(msg, at, s.FixedBytes())
    ensures at + 28 <= |msg|
    ensures var r := RrsigNumbers(msg, at);
      && r.ttl == s.ttl && r.algorithm == s.algorithm && r.labels == s.labels
      && r.originalTtl == s.originalTtl && r.expiration == s.expiration && r.inception == s.inception
      && (r.rtype == s.rtype <==> s.rtype < 32768) && (r.rclass == s.rclass <==> s.rclass < 32768)
      && (r.covered == s.covered <==> s.covered < 32768) && (r.keyTag == s.keyTag <==> s.keyTag < 32768)
      && r.rdlength == Atoi16(msg[at + 8], msg[at + 9])
    ensures Holds(msg, at + 8, Be16(SignatureRdlength(s.signer, s.signature)))
  {
    var f := s.FixedBytes();
    FixedParts(s);
    Field16(msg, at, f, 0, s.rtype);
    Field16(msg, at, f, 2, s.rclass);
    Field32(msg, at, f, 4, s.ttl);
    Field16(msg, at, f, 8, SignatureRdlength(s.signer, s.signature));
    Field16(msg, at, f, 10, s.covered);
    HoldsAt(msg, at, f, 12);
    HoldsAt(msg, at, f, 13);
    Field32(msg, at, f, 14, s.originalTtl);
    Field32(msg, at, f, 18, s.expiration);
    Field32(msg, at, f, 22, s.inception);
    Field16(msg, at, f, 26, s.keyTag);
  }

  /** Which fields of a signature record are read right: the 8- and 32-bit ones always, the 16-bit ones,
      the key tag among them, exactly below 32768, and the signature, when RDLENGTH is, exactly if the
      signer is not the root. */
  lemma RrsigReadBack(msg: seq<byte>, name: seq<byte>, at: nat, s: Sig)
    requires SigAt(msg, at, s) && s.signature != [] && SignatureRdlength(s.signer, s.signature) < 32768
    ensures at + 28 <= |msg| && CodeParse(msg, at + 28, |s.signer| + 1) == Parsed(s.signer, SignatureStart(at, s.signer) - 1)
    ensures SignatureStart(at, s.signer) <= |msg|
    ensures var r := RrsigFields(msg, name, at, Dotted(s.signer, true), SignatureStart(at, s.signer));
      && r.ttl == s.ttl && r.algorithm == s.algorithm && r.labels == s.labels
      && r.originalTtl == s.originalTtl && r.expiration == s.expiration && r.inception == s.inception
      && (r.rtype == s.rtype <==> s.rtype < 32768) && (r.rclass == s.rclass <==> s.rclass < 32768)
      && (r.covered == s.covered <==> s.covered < 32768) && (r.keyTag == s.keyTag <==> s.keyTag < 32768)
      && r.rdlength == SignatureRdlength(s.signer, s.signature)
      && (r.signature == s.signature <==> s.signer != [])
  {
    NumbersReadBack(msg, at, s);
    SignatureFields(msg, at, s.signer, s.signature);
    SignatureSpan(msg, at, s.signer, s.signature);
  }

  lemma FixedParts(s: Sig)
    requires s.Valid()
    ensures var f := s.FixedBytes();
      && f[0..2] == Be16(s.rtype) && f[2..4] == Be16(s.rclass) && f[4..8] == Be32(s.ttl)
      && f[8..10] == Be16(SignatureRdlength(s.signer, s.signature)) && f[10..12] == Be16(s.covered)
      && f[12] == s.algorithm && f[13] == s.labels && f[14..18] == Be32(s.originalTtl)
      && f[18..22] == Be32(s.expiration) && f[22..26] == Be32(s.inception) && f[26..28] == Be16(s.keyTag)
  {
  }

  lemma FieldReads(msg: seq<byte>, at: nat, n: nat)
    requires n < 32768 && Holds(msg, at, Be16(n))
    ensures Atoi16(msg[at], msg[at + 1]) == n
  {
  }

  lemma NoWrap(rdlength: nat, signerLength: nat)
    requires 20 + signerLength <= rdlength < 32768
    ensures SignatureLength(rdlength, signerLength) == rdlength - 20 - signerLength
  {
  }

  lemma CutSignature(msg: seq<byte>, from: nat, signature: seq<byte>, short: nat)
    requires Holds(msg, from, signature) && short <= 1 && |signature| > 0
    ensures Substr(msg, from, |signature| - short) == signature[..|signature| - short]
    ensures signature[..|signature| - short] == signature <==> short == 0
  {
  }
}
