/** Domain names in a DNS message: the decompressing parser `recParse` of proj3/myresolver.cpp and
    the name format of section 4.1.4 of RFC 1035. */
module DnsNames {
  import opened Basics
  import opened Bytes
  import opened Walks

  type Label = seq<byte>

  const DOT: byte := 46

  // ---------------------------------------------------------------- 16-bit fields

  /** A `char` is signed on the platform the program was written for. */
  function SignExtend(b: byte): int {
    if b < 128 then b else b - 256
  }

  /** What `atoi16` makes of two bytes: the big-endian value, except that a first byte of 128 or
      more borrows one from the low byte. */
  function Atoi16(b0: byte, b1: byte): (r: nat)
    ensures r < 0x1_0000
  {
    b0 * 256 + if b0 < 128 then b1 else if b1 == 0 then 255 else b1 - 1
  }

  /** The low byte of the `uint16_t` sum is the first byte, the high byte is the second with the
      borrow; swapping them gives `Atoi16`. */
  lemma SumBytes(b0: byte, b1: byte)
    ensures (SignExtend(b0) + SignExtend(b1) * 256) % 0x1_0000 == (Atoi16(b0, b1) - b0 * 256) * 256 + b0
  {
  }

  /** `operator[]` of a constant string, which yields a NUL at the very end. */
  function ByteAt(records: seq<byte>, i: nat): byte
    requires i <= |records|
  {
    if i < |records| then records[i] else 0
  }

  method ReadAtoi16(records: seq<byte>, location: nat) returns (value: nat, next: nat)
    requires location + 1 <= |records|
    ensures value == Atoi16(ByteAt(records, location), ByteAt(records, location + 1)) && next == location + 2
  {
    next := location;
    var sum := SignExtend(ByteAt(records, next));
    next := next + 1;
    sum := sum + SignExtend(ByteAt(records, next)) * 256;
    next := next + 1;
    SumBytes(ByteAt(records, location), ByteAt(records, location + 1));
    var host := sum % 0x1_0000;
    value := host % 256 * 256 + host / 256;
  }

  /** A 16-bit field is read correctly exactly when it is below 32768. */
  lemma Atoi16Exact(n: nat)
    requires n < 0x1_0000
    ensures Atoi16(Be16(n)[0], Be16(n)[1]) == n <==> n < 32768
  {
  }

  /** The offset `recParse` computes for a compression pointer. */
  function CodeTarget(b0: byte, b1: byte): nat {
    (Atoi16(b0, b1) + 1) % 64
  }

  /** The offset of a compression pointer: the low 14 bits. */
  function RfcTarget(b0: byte, b1: byte): (r: nat)
    requires b0 >= 192
  {
    (b0 - 192) * 256 + b1
  }

  /** The `+ 1` cancels the borrow of `atoi16`, and the mask keeps six of the fourteen bits: the
      computed offset is the true one exactly when that is below 64. */
  lemma TargetExact(b0: byte, b1: byte)
    requires b0 >= 192
    ensures CodeTarget(b0, b1) == b1 % 64 == RfcTarget(b0, b1) % 64
    ensures CodeTarget(b0, b1) == RfcTarget(b0, b1) <==> RfcTarget(b0, b1) < 64
  {
    BorrowCancels(Atoi16(b0, b1), b0, b1);
    MaskExact(b0 - 192, b1);
  }

  lemma BorrowCancels(pointer: nat, b0: byte, b1: byte)
    requires pointer == b0 * 256 + if b1 == 0 then 255 else b1 - 1
    ensures (pointer + 1) % 64 == b1 % 64
  {
    LowSixBits(4 * b0, if b1 == 0 then 256 else b1);
  }

  lemma MaskExact(high: nat, b1: byte)
    ensures (high * 256 + b1) % 64 == b1 % 64
    ensures b1 % 64 == high * 256 + b1 <==> high * 256 + b1 < 64
  {
    LowSixBits(4 * high, b1);
  }

  lemma LowSixBits(k: nat, n: nat)
    ensures (k * 64 + n) % 64 == n % 64
  {
  }

  // ---------------------------------------------------------------- what the code parses

  /** The labels read and the position `location` is left at; `Stuck` when the recursion runs beyond
      the end of the message or does not end within the given number of calls. At the very end it
      reads a NUL. A pointer is followed to
      the low six bits of its second byte, which `TargetExact` shows to be what the code computes. */
  datatype Parse = Parsed(labels: seq<Label>, next: nat) | Stuck

  function Prepend(labels: seq<Label>, p: Parse): Parse {
    if p.Stuck? then Stuck else Parsed(labels + p.labels, p.next)
  }

  function LeaveAt(next: nat, p: Parse): Parse {
    if p.Stuck? then Stuck else Parsed(p.labels, next)
  }

  function CodeParse(msg: seq<byte>, loc: nat, calls: nat): Parse
    decreases calls
  {
    if calls == 0 || loc > |msg| then Stuck
    else if ByteAt(msg, loc) == 0 then Parsed([], loc)
    else if msg[loc] >= 192 then LeaveAt(loc + 2, CodeParse(msg, ByteAt(msg, loc + 1) % 64, calls - 1))
    else if loc + 1 + msg[loc] > |msg| then Stuck
    else Prepend([msg[loc + 1..loc + 1 + msg[loc]]], CodeParse(msg, loc + 1 + msg[loc], calls - 1))
  }

  /** Dotted text of a name, with a leading dot unless it is the first part. */
  function Dotted(labels: seq<Label>, first: bool): seq<byte> {
    if labels == [] then []
    else (if first then [] else [DOT]) + labels[0] + Dotted(labels[1..], false)
  }

  lemma {:induction false} MoreCalls(msg: seq<byte>, loc: nat, calls: nat, more: nat)
    requires CodeParse(msg, loc, calls).Parsed? && calls <= more
    ensures CodeParse(msg, loc, more) == CodeParse(msg, loc, calls)
    decreases calls
  {
    if loc == |msg| || msg[loc] == 0 {
      return;
    }
    if msg[loc] >= 192 {
      MoreCalls(msg, ByteAt(msg, loc + 1) % 64, calls - 1, more - 1);
    } else {
      MoreCalls(msg, loc + 1 + msg[loc], calls - 1, more - 1);
    }
  }

  method ReadAtoi8(records: seq<byte>, location: nat) returns (value: byte, next: nat)
    requires location < |records|
    ensures value == records[location] && next == location + 1
  {
    value, next := records[location], location + 1;
  }

  method ReadAtoi32(records: seq<byte>, location: nat) returns (value: nat, next: nat)
    requires location + 4 <= |records|
    ensures value == FromBe32(records[location], records[location + 1], records[location + 2], records[location + 3])
    ensures next == location + 4
  {
    var bytes := records[location..location + 4];
    value, next := FromBe32(bytes[0], bytes[1], bytes[2], bytes[3]), location + 4;
  }

  lemma DottedCons(text: Label, labels: seq<Label>, first: bool)
    ensures Dotted([text] + labels, first) == (if first then [] else [DOT]) + text + Dotted(labels, false)
  {
  }

  /** The loop of `recParse` that copies one label. */
  method ReadLabel(records: seq<byte>, start: nat, numchars: nat) returns (ss: seq<byte>, location: nat)
    requires start + numchars <= |records|
    ensures ss == records[start..start + numchars] && location == start + numchars
  {
    ss, location := [], start;
    while location < start + numchars
      invariant start <= location <= start + numchars
      invariant ss == records[start..location]
    {
      ss := ss + [records[location]];
      location := location + 1;
    }
  }

  /** `recParse`. It may be called wherever its recursion ends inside the message. */
  method RecParse(records: seq<byte>, start: nat, first: bool, ghost calls: nat) returns (name: seq<byte>, location: nat)
    requires CodeParse(records, start, calls).Parsed?
    ensures name == Dotted(CodeParse(records, start, calls).labels, first)
    ensures location == CodeParse(records, start, calls).next
    decreases calls
  {
    location := start;
    var numchars := ByteAt(records, location);
    if numchars == 0 {
      return [], location;
    }
    if numchars >= 192 {
      var pointer, elsewhere;
      TargetExact(records[location], ByteAt(records, location + 1));
      pointer, location := ReadAtoi16(records, location);
      name, elsewhere := RecParse(records, (pointer + 1) % 64, first, calls - 1);
      return;
    }
    var ss, rest;
    ss, location := ReadLabel(records, location + 1, numchars);
    DottedCons(ss, CodeParse(records, location, calls - 1).labels, first);
    rest, location := RecParse(records, location, false, calls - 1);
    name := if first then ss + rest else [DOT] + ss + rest;
  }

  // ---------------------------------------------------------------- what the standard says

  /** A name per section 4.1.4 of RFC 1035: its labels, the offset just past its encoding, and
      whether the encoding ends in a pointer. */
  datatype Name = Name(labels: seq<Label>, end: nat, compressed: bool)

  /** The name that starts at `start` read from `loc` on. A pointer leads to a prior name: strictly
      before `start`, and below `limit` (16384 in the standard). */
  function RfcName(msg: seq<byte>, start: nat, loc: nat, limit: nat): (r: Option<Name>)
    ensures r.Some? ==> loc < r.value.end <= |msg|
    decreases start, |msg| - loc
  {
    if loc >= |msg| then None
    else if msg[loc] == 0 then Some(Name([], loc + 1, false))
    else if msg[loc] >= 192 then
      if loc + 1 >= |msg| then None
      else
        var target := RfcTarget(msg[loc], msg[loc + 1]);
        if target >= start || target >= limit then None
        else match RfcName(msg, target, target, limit)
          case Some(n) => Some(Name(n.labels, loc + 2, true))
          case None => None
    else if msg[loc] >= 64 then None
    else
      var end := loc + 1 + msg[loc];
      if end > |msg| then None
      else match RfcName(msg, start, end, limit)
        case Some(n) => Some(n.(labels := [msg[loc + 1..end]] + n.labels))
        case None => None
  }

  const RFC_LIMIT := 16384

  /** Two bytes cannot say more: the limit excludes nothing. */
  lemma {:induction false} LimitExcludesNothing(msg: seq<byte>, start: nat, loc: nat, limit: nat)
    requires limit >= 16384
    ensures RfcName(msg, start, loc, limit) == RfcName(msg, start, loc, RFC_LIMIT)
    decreases start, |msg| - loc
  {
    if loc + 1 < |msg| && msg[loc] >= 192 {
      var target := RfcTarget(msg[loc], msg[loc + 1]);
      if target < start {
        LimitExcludesNothing(msg, target, target, limit);
      }
    } else if loc < |msg| && 0 < msg[loc] < 64 {
      LimitExcludesNothing(msg, start, loc + 1 + msg[loc], limit);
    }
  }

  /** `recParse` against the standard: for every name whose pointers lead strictly backwards to
      offsets below 64 the recursion ends, yields exactly the labels of the expanded name, and
      leaves `location` just past the first pointer, or on the zero byte of an uncompressed name,
      one short of its end. */
  lemma {:induction false} ParseMeetsRfc(msg: seq<byte>, start: nat, loc: nat) returns (calls: nat)
    requires RfcName(msg, start, loc, 64).Some?
    ensures RfcName(msg, start, loc, RFC_LIMIT) == RfcName(msg, start, loc, 64)
    ensures var n := RfcName(msg, start, loc, RFC_LIMIT).value;
      CodeParse(msg, loc, calls) == Parsed(n.labels, if n.compressed then n.end else n.end - 1)
    decreases start, |msg| - loc
  {
    calls := 1;
    if msg[loc] >= 192 {
      var target := RfcTarget(msg[loc], msg[loc + 1]);
      TargetExact(msg[loc], msg[loc + 1]);
      calls := ParseMeetsRfc(msg, target, target);
      calls := calls + 1;
    } else if msg[loc] > 0 {
      calls := ParseMeetsRfc(msg, start, loc + 1 + msg[loc]);
      calls := calls + 1;
    }
  }

  /** A caller that goes on reading at `location` is right exactly when the name was compressed. */
  lemma ConsumptionExact(msg: seq<byte>, start: nat, loc: nat, calls: nat)
    requires RfcName(msg, start, loc, 64).Some? && CodeParse(msg, loc, calls).Parsed?
    ensures var n := RfcName(msg, start, loc, 64).value; var p := CodeParse(msg, loc, calls);
      && p.labels == n.labels
      && (p.next == n.end <==> n.compressed)
  {
    var enough := ParseMeetsRfc(msg, start, loc);
    if enough <= calls {
      MoreCalls(msg, loc, enough, calls);
    } else {
      MoreCalls(msg, loc, calls, enough);
    }
  }

  // ---------------------------------------------------------------- where the parser goes

  /** The offset the parser goes on at. */
  function CodeNext(msg: seq<byte>, loc: nat): Option<nat> {
    if loc >= |msg| || msg[loc] == 0 then None
    else if msg[loc] >= 192 then Some(ByteAt(msg, loc + 1) % 64)
    else Some(loc + 1 + msg[loc])
  }

  function CodeRule(msg: seq<byte>): Rule {
    loc => CodeNext(msg, loc)
  }

  /** The offsets it visits in its first `calls` calls. */
  function CodeVisits(msg: seq<byte>, loc: nat, calls: nat): seq<nat> {
    Walk(CodeRule(msg), loc, calls)
  }

  lemma FirstVisit(msg: seq<byte>, loc: nat, calls: nat)
    requires calls > 0
    ensures CodeVisits(msg, loc, calls) == [loc] +
      match CodeNext(msg, loc) { case None => [] case Some(n) => CodeVisits(msg, n, calls - 1) }
  {
    var rest := Onward(CodeRule(msg), loc, calls - 1);
    assert CodeRule(msg)(loc) == CodeNext(msg, loc);
    assert rest == match CodeNext(msg, loc) { case None => [] case Some(n) => CodeVisits(msg, n, calls - 1) };
  }

  /** The offsets the standard visits for a name. */
  function RfcVisits(msg: seq<byte>, start: nat, loc: nat): (v: seq<nat>)
    requires RfcName(msg, start, loc, RFC_LIMIT).Some?
    ensures v != [] && v[0] == loc
    decreases start, |msg| - loc
  {
    if msg[loc] == 0 then [loc]
    else if msg[loc] >= 192 then
      var target := RfcTarget(msg[loc], msg[loc + 1]);
      [loc] + RfcVisits(msg, target, target)
    else [loc] + RfcVisits(msg, start, loc + 1 + msg[loc])
  }

  /** All pointers of the name, and of the names it leads to, are below 64. */
  predicate NearPointers(msg: seq<byte>, start: nat, loc: nat)
    requires RfcName(msg, start, loc, RFC_LIMIT).Some?
    decreases start, |msg| - loc
  {
    if msg[loc] == 0 then true
    else if msg[loc] >= 192 then
      var target := RfcTarget(msg[loc], msg[loc + 1]);
      target < 64 && NearPointers(msg, target, target)
    else NearPointers(msg, start, loc + 1 + msg[loc])
  }

  lemma {:induction false} NearIsBelow64(msg: seq<byte>, start: nat, loc: nat)
    requires RfcName(msg, start, loc, RFC_LIMIT).Some?
    ensures NearPointers(msg, start, loc) <==> RfcName(msg, start, loc, 64).Some?
    decreases start, |msg| - loc
  {
    if msg[loc] >= 192 {
      var target := RfcTarget(msg[loc], msg[loc + 1]);
      NearIsBelow64(msg, target, target);
    } else if msg[loc] > 0 {
      NearIsBelow64(msg, start, loc + 1 + msg[loc]);
    }
  }

  /** For every name the standard reads: the parser goes where the standard goes if and only if all its
      pointers are below 64, which is the condition of `ParseMeetsRfc`. */
  lemma {:induction false} FollowsIffNear(msg: seq<byte>, start: nat, loc: nat)
    requires RfcName(msg, start, loc, RFC_LIMIT).Some?
    ensures CodeVisits(msg, loc, |RfcVisits(msg, start, loc)|) == RfcVisits(msg, start, loc) <==> NearPointers(msg, start, loc)
    decreases start, |msg| - loc
  {
    if msg[loc] == 0 {
      FirstVisit(msg, loc, 1);
      assert [loc] + [] == [loc];
    } else if msg[loc] >= 192 {
      var target := RfcTarget(msg[loc], msg[loc + 1]);
      FollowsIffNear(msg, target, target);
      PointerFollowed(msg, loc);
      VisitsFrom(msg, loc, target, RfcVisits(msg, target, target));
    } else {
      var end := loc + 1 + msg[loc];
      FollowsIffNear(msg, start, end);
      VisitsFrom(msg, loc, end, RfcVisits(msg, start, end));
    }
  }

  lemma PointerFollowed(msg: seq<byte>, loc: nat)
    requires loc + 1 < |msg| && msg[loc] >= 192
    ensures CodeNext(msg, loc).Some?
    ensures CodeNext(msg, loc) == Some(RfcTarget(msg[loc], msg[loc + 1])) <==> RfcTarget(msg[loc], msg[loc + 1]) < 64
  {
    TargetExact(msg[loc], msg[loc + 1]);
  }

  lemma VisitsFrom(msg: seq<byte>, loc: nat, next: nat, rest: seq<nat>)
    requires rest != [] && rest[0] == next && CodeNext(msg, loc).Some?
    ensures CodeVisits(msg, loc, 1 + |rest|) == [loc] + rest
       <==> CodeNext(msg, loc) == Some(next) && CodeVisits(msg, next, |rest|) == rest
  {
    var n := CodeNext(msg, loc).value;
    var visits := CodeVisits(msg, n, |rest|);
    FirstVisit(msg, loc, 1 + |rest|);
    assert CodeVisits(msg, loc, 1 + |rest|) == [loc] + visits && visits[0] == n;
    assert ([loc] + visits)[1..] == visits && ([loc] + rest)[1..] == rest;
  }

  /** A parse that ends visits no more offsets than it makes calls, all in the message. */
  lemma {:induction false} ParsedWalk(msg: seq<byte>, loc: nat, calls: nat, more: nat)
    requires CodeParse(msg, loc, calls).Parsed?
    ensures |CodeVisits(msg, loc, more)| <= calls && Within(CodeVisits(msg, loc, more), UpTo(|msg|))
    decreases calls
  {
    if more > 0 {
      FirstVisit(msg, loc, more);
      if CodeNext(msg, loc).Some? {
        ParsedWalk(msg, CodeNext(msg, loc).value, calls - 1, more - 1);
      }
    }
  }

  lemma WalkIsShort(msg: seq<byte>, loc: nat, calls: nat, more: nat)
    requires CodeParse(msg, loc, calls).Parsed?
    ensures var v := CodeVisits(msg, loc, more);
      NoRepeats(v) && Within(v, UpTo(|msg|)) && |v| <= |msg| + 1
  {
    ParsedWalk(msg, loc, calls, more);
    ParsedWalk(msg, loc, calls, more + calls + 1);
    EndingWalk(CodeRule(msg), loc, more, more + calls + 1);
    NoRepeatsFit(CodeVisits(msg, loc, more), UpTo(|msg|));
  }

  lemma {:induction false} ShortWalkEnds(msg: seq<byte>, loc: nat, calls: nat)
    requires |CodeVisits(msg, loc, calls + 1)| <= calls && Within(CodeVisits(msg, loc, calls + 1), UpTo(|msg|))
    ensures CodeParse(msg, loc, calls).Parsed?
    decreases calls
  {
    var v := CodeVisits(msg, loc, calls + 1);
    assert v[0] in v;
    if CodeNext(msg, loc).Some? {
      var n := CodeNext(msg, loc).value;
      var rest := CodeVisits(msg, n, calls);
      FirstVisit(msg, loc, calls + 1);
      forall o | o in rest ensures o in UpTo(|msg|) {
        assert o in v;
      }
      assert rest[0] == n && rest[0] in rest;
      ShortWalkEnds(msg, n, calls - 1);
      CodeStep(msg, loc, calls);
    }
  }

  lemma CodeStep(msg: seq<byte>, loc: nat, calls: nat)
    requires calls > 0 && CodeNext(msg, loc).Some? && CodeNext(msg, loc).value <= |msg|
    ensures CodeParse(msg, loc, calls).Parsed? <==> CodeParse(msg, CodeNext(msg, loc).value, calls - 1).Parsed?
  {
  }

  /** Whether the recursion ends is decided within |msg| + 1 calls, and it ends if and only if it neither
      leaves the message nor comes back to an offset. */
  lemma EndsIff(msg: seq<byte>, loc: nat, calls: nat)
    ensures CodeParse(msg, loc, calls).Parsed? ==> CodeParse(msg, loc, |msg| + 1) == CodeParse(msg, loc, calls)
    ensures var v := CodeVisits(msg, loc, |msg| + 2);
      CodeParse(msg, loc, |msg| + 1).Parsed? <==> NoRepeats(v) && Within(v, UpTo(|msg|))
  {
    var v := CodeVisits(msg, loc, |msg| + 2);
    if CodeParse(msg, loc, calls).Parsed? {
      WalkIsShort(msg, loc, calls, |msg| + 2);
      ShortWalkEnds(msg, loc, |msg| + 1);
      SameParse(msg, loc, calls, |msg| + 1);
    }
    if CodeParse(msg, loc, |msg| + 1).Parsed? {
      WalkIsShort(msg, loc, |msg| + 1, |msg| + 2);
    } else if NoRepeats(v) && Within(v, UpTo(|msg|)) {
      NoRepeatsFit(v, UpTo(|msg|));
      ShortWalkEnds(msg, loc, |msg| + 1);
      assert false;
    }
  }

  lemma SameParse(msg: seq<byte>, loc: nat, calls: nat, other: nat)
    requires CodeParse(msg, loc, calls).Parsed? && CodeParse(msg, loc, other).Parsed?
    ensures CodeParse(msg, loc, calls) == CodeParse(msg, loc, other)
  {
    if calls <= other {
      MoreCalls(msg, loc, calls, other);
    } else {
      MoreCalls(msg, loc, other, calls);
    }
  }

  /** A pointer to offset 64 or beyond is followed to the wrong place: here the name at offset 66
      is "b", and `recParse` reads "a". */
  lemma FarPointerMisread()
    ensures var msg: seq<byte> := [1, 97, 0] + seq(61, _ => 0) + [1, 98, 0, 192, 64];
      && RfcName(msg, 67, 67, RFC_LIMIT) == Some(Name([[98]], 69, true))
      && CodeParse(msg, 67, 3) == Parsed([[97]], 69)
  {
    var msg: seq<byte> := [1, 97, 0] + seq(61, _ => 0) + [1, 98, 0, 192, 64];
    assert msg[64] == 1 && msg[65..66] == [98] && msg[66] == 0 && msg[67] == 192 && msg[68] == 64;
    assert msg[0] == 1 && msg[1..2] == [97] && msg[2] == 0;
    TargetExact(192, 64);
    assert RfcName(msg, 64, 66, RFC_LIMIT) == Some(Name([], 67, false));
    assert [msg[65..66]] + [] == [[98 as byte]] && [msg[1..2]] + [] == [[97 as byte]];
    assert RfcName(msg, 64, 64, RFC_LIMIT) == Some(Name([[98]], 67, false));
    assert CodeParse(msg, 2, 1) == Parsed([], 2);
    assert CodeParse(msg, 0, 2) == Parsed([[97]], 2);
  }

  /** A name that points at itself never ends, whatever the number of calls. */
  lemma {:induction false} SelfPointerNeverEnds(msg: seq<byte>, loc: nat, calls: nat)
    requires loc + 1 < |msg| && loc < 64 && msg[loc] == 192 && msg[loc + 1] == loc
    ensures CodeParse(msg, loc, calls) == Stuck
    decreases calls
  {
    TargetExact(192, msg[loc + 1]);
    if calls > 0 {
      SelfPointerNeverEnds(msg, loc, calls - 1);
    }
  }

  // ---------------------------------------------------------------- encoding

  /** Labels on the wire: each preceded by its length (a `uint8_t` in the program). */
  function LabelsWire(labels: seq<Label>): seq<byte> {
    if labels == [] then []
    else [|labels[0]| % 256] + labels[0] + LabelsWire(labels[1..])
  }

  predicate LabelLengths(labels: seq<Label>, most: nat) {
    labels == [] || (0 < |labels[0]| <= most && LabelLengths(labels[1..], most))
  }

  function WireLength(labels: seq<Label>): nat {
    if labels == [] then 0 else 1 + |labels[0]| + WireLength(labels[1..])
  }

  /** The labels lie one after the other in the message, each behind its length. */
  predicate LabelsAt(msg: seq<byte>, loc: nat, labels: seq<Label>)
    decreases |labels|
  {
    labels == [] ||
    (var end := loc + 1 + |labels[0]|;
     && 0 < |labels[0]| <= 191 && end <= |msg|
     && msg[loc] == |labels[0]| && msg[loc + 1..end] == labels[0]
     && LabelsAt(msg, end, labels[1..]))
  }

  lemma {:induction false} WireIsLabelsAt(msg: seq<byte>, loc: nat, labels: seq<Label>)
    requires Holds(msg, loc, LabelsWire(labels)) && LabelLengths(labels, 191)
    ensures LabelsAt(msg, loc, labels) && |LabelsWire(labels)| == WireLength(labels)
    decreases |labels|
  {
    if labels != [] {
      WireCons(labels, 191);
      HoldsSplit(msg, loc, [|labels[0]|] + labels[0], LabelsWire(labels[1..]));
      HoldsSplit(msg, loc, [|labels[0]|], labels[0]);
      HoldsAt(msg, loc, [|labels[0]|], 0);
      WireIsLabelsAt(msg, loc + 1 + |labels[0]|, labels[1..]);
    }
  }

  /** Wherever labels lie in a message, the parser reads them one by one and goes on behind. */
  lemma {:induction false} ParseLabels(msg: seq<byte>, loc: nat, labels: seq<Label>, calls: nat)
    requires LabelsAt(msg, loc, labels)
    ensures CodeParse(msg, loc, calls + |labels|) == Prepend(labels, CodeParse(msg, loc + WireLength(labels), calls))
    decreases |labels|
  {
    var rest := CodeParse(msg, loc + WireLength(labels), calls);
    if labels == [] {
      PrependNone(rest);
    } else {
      var tail, end := labels[1..], loc + 1 + |labels[0]|;
      assert |tail| == |labels| - 1 && end + WireLength(tail) == loc + WireLength(labels);
      ParseLabels(msg, end, tail, calls);
      FirstLabel(msg, loc, labels, calls + |labels|);
      PrependTwice(labels, rest, CodeParse(msg, end, calls + |tail|));
    }
  }

  lemma FirstLabel(msg: seq<byte>, loc: nat, labels: seq<Label>, calls: nat)
    requires labels != [] && LabelsAt(msg, loc, labels) && calls > 0
    ensures CodeParse(msg, loc, calls) == Prepend([labels[0]], CodeParse(msg, loc + 1 + |labels[0]|, calls - 1))
  {
  }

  lemma PrependNone(p: Parse)
    ensures Prepend([], p) == p
  {
  }

  lemma PrependTwice(labels: seq<Label>, rest: Parse, p: Parse)
    requires labels != [] && p == Prepend(labels[1..], rest)
    ensures Prepend([labels[0]], p) == Prepend(labels, rest)
  {
  }

  lemma WireCons(labels: seq<Label>, most: nat)
    requires labels != [] && most < 256 && LabelLengths(labels, most)
    ensures LabelsWire(labels) == ([|labels[0]|] + labels[0]) + LabelsWire(labels[1..])
    ensures LabelLengths(labels[1..], most)
  {
  }

  /** An uncompressed name of labels of 1 to 191 bytes is read back, leaving `location` on its
      terminator. */
  lemma ParseUncompressed(msg: seq<byte>, loc: nat, labels: seq<Label>)
    requires Holds(msg, loc, LabelsWire(labels) + [0]) && LabelLengths(labels, 191)
    ensures CodeParse(msg, loc, |labels| + 1) == Parsed(labels, loc + |LabelsWire(labels)|)
  {
    HoldsSplit(msg, loc, LabelsWire(labels), [0]);
    WireIsLabelsAt(msg, loc, labels);
    HoldsAt(msg, loc + WireLength(labels), [0], 0);
    ParseLabels(msg, loc, labels, 1);
    assert labels + [] == labels;
  }

  lemma {:induction false} ShorterLabels(labels: seq<Label>, most: nat, more: nat)
    requires LabelLengths(labels, most) && most <= more
    ensures LabelLengths(labels, more)
  {
    if labels != [] {
      ShorterLabels(labels[1..], most, more);
    }
  }

  /** Cuts a text at every full stop. */
  function SplitDots(text: seq<byte>): (parts: seq<Label>)
    ensures parts != []
  {
    if text == [] then [[]]
    else
      var rest := SplitDots(text[1..]);
      if text[0] == 46 then [[]] + rest else [[text[0]] + rest[0]] + rest[1..]
  }

  lemma {:induction false} SplitFirst(word: Label, rest: seq<byte>)
    requires 46 !in word
    ensures var parts := SplitDots(rest); SplitDots(word + rest) == [word + parts[0]] + parts[1..]
  {
    var parts := SplitDots(rest);
    if word == [] {
      assert word + rest == rest && [] + parts[0] == parts[0] && [parts[0]] + parts[1..] == parts;
    } else {
      assert (word + rest)[1..] == word[1..] + rest;
      SplitFirst(word[1..], rest);
      assert [word[0]] + (word[1..] + parts[0]) == word + parts[0];
      assert ([word[1..] + parts[0]] + parts[1..])[1..] == parts[1..];
    }
  }

  /** The dotted text shows the labels: cut at its full stops it gives them back, if they hold none. */
  lemma {:induction false} DottedSplits(labels: seq<Label>)
    requires labels != [] && forall l | l in labels :: 46 !in l
    ensures SplitDots(Dotted(labels, true)) == labels
  {
    var tail := Dotted(labels[1..], false);
    assert labels[0] in labels;
    assert Dotted(labels, true) == labels[0] + tail;
    SplitFirst(labels[0], tail);
    assert labels[0] + [] == labels[0];
    if labels[1..] != [] {
      DottedSplits(labels[1..]);
      assert tail == [46] + Dotted(labels[1..], true);
      assert tail[1..] == Dotted(labels[1..], true);
      assert ([[]] + labels[1..])[1..] == labels[1..];
    } else {
      assert [labels[0]] == labels;
    }
  }

  /** The dotted text of a non-empty name is two bytes shorter than its wire form with terminator. */
  lemma {:induction false} DottedLength(labels: seq<Label>, first: bool)
    ensures |Dotted(labels, first)| == |LabelsWire(labels)| - if first && labels != [] then 1 else 0
  {
    if labels != [] {
      DottedLength(labels[1..], false);
    }
  }
}
