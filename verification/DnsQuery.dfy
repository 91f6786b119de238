/** Building a query: `makeQuestion` and the packet of the first attempt in proj3/myresolver.cpp,
    in the question format of section 4.1.2 of RFC 1035. */
module DnsQuery {
  import opened Bytes
  import opened DnsNames

  const SPACE: byte := 32

  /** White space as `operator>>(std::string&)` sees it. */
  predicate IsSpace(b: byte) {
    b == SPACE || 9 <= b <= 13
  }

  function Undotted(name: seq<byte>): (r: seq<byte>)
    ensures |r| == |name|
    ensures forall i | 0 <= i < |name| :: r[i] == if name[i] == DOT then SPACE else name[i]
  {
    seq(|name|, i requires 0 <= i < |name| => if name[i] == DOT then SPACE else name[i])
  }

  function WordLength(s: seq<byte>): (k: nat)
    ensures k <= |s|
  {
    if s == [] || IsSpace(s[0]) then 0 else 1 + WordLength(s[1..])
  }

  /** The words of a text: its maximal runs of bytes that are not white space. */
  function Words(s: seq<byte>): seq<Label> {
    if s == [] then []
    else if IsSpace(s[0]) then Words(s[1..])
    else [s[..WordLength(s)]] + Words(s[WordLength(s)..])
  }

  class Question {
    var numBytes: int
    var QTYPE: nat
    var QCLASS: nat
    const QNAME: array<byte>
    const QODD: array<byte>

    constructor (numBytes: int)
      ensures this.numBytes == numBytes && QNAME.Length == 4096 && QODD.Length == 11
      ensures fresh(QNAME) && fresh(QODD) && QNAME != QODD
    {
      this.numBytes, QTYPE, QCLASS := numBytes, 0, 0;
      QNAME, QODD := new byte[4096], new byte[11];
    }
  }

  const ODD: seq<byte> := [0, 0, 41, 16, 0, 0, 0, 128, 0, 0, 0]

  method SkipSpaces(text: seq<byte>, start: nat) returns (pos: nat)
    requires start <= |text|
    ensures start <= pos <= |text| && (pos < |text| ==> !IsSpace(text[pos]))
    ensures Words(text[start..]) == Words(text[pos..])
  {
    pos := start;
    while pos < |text| && IsSpace(text[pos])
      invariant start <= pos <= |text|
      invariant Words(text[start..]) == Words(text[pos..])
    {
      assert text[pos..][1..] == text[pos + 1..];
      pos := pos + 1;
    }
  }

  method TakeWord(text: seq<byte>, start: nat) returns (word: Label, pos: nat)
    requires start <= |text|
    ensures pos == start + WordLength(text[start..]) && pos <= |text| && word == text[start..pos]
  {
    word, pos := [], start;
    while pos < |text| && !IsSpace(text[pos])
      invariant start <= pos <= |text| && word == text[start..pos]
      invariant WordLength(text[start..]) == pos - start + WordLength(text[pos..])
    {
      assert text[pos..][1..] == text[pos + 1..];
      word := word + [text[pos]];
      pos := pos + 1;
    }
  }

  lemma FirstWord(text: seq<byte>, from: nat, pos: nat)
    requires from <= |text| && pos == from + WordLength(text[from..]) && (from < |text| ==> !IsSpace(text[from]))
    ensures Words(text[from..]) == if from < |text| then [text[from..pos]] + Words(text[pos..]) else []
    ensures from < |text| ==> from < pos <= |text|
  {
    if from < |text| {
      var rest := text[from..];
      assert rest[pos - from..] == text[pos..] && rest[..pos - from] == text[from..pos];
    }
  }

  /** `ss >> j`: skip white space, then take the next word. */
  method NextWord(text: seq<byte>, start: nat) returns (found: bool, word: Label, pos: nat)
    requires start <= |text|
    ensures start <= pos <= |text| && (found ==> start < pos)
    ensures Words(text[start..]) == if found then [word] + Words(text[pos..]) else []
  {
    var from := SkipSpaces(text, start);
    found := from < |text|;
    word, pos := TakeWord(text, from);
    FirstWord(text, from, pos);
  }

  /** Writes one word behind its length byte, counting every byte written. */
  method PutLabel(q: Question, word: Label, start: nat) returns (index: nat)
    requires start + 1 + |word| <= q.QNAME.Length
    modifies q`numBytes, q.QNAME
    ensures index == start + 1 + |word| && q.numBytes == old(q.numBytes) + 1 + |word|
    ensures q.QNAME[..index] == old(q.QNAME[..start]) + [|word| % 256] + word
  {
    index := start;
    q.QNAME[index] := |word| % 256;
    index := index + 1;
    for k := 0 to |word|
      invariant index == start + 1 + k && q.numBytes == old(q.numBytes) + k
      invariant q.QNAME[..index] == old(q.QNAME[..start]) + [|word| % 256] + word[..k]
    {
      q.QNAME[index] := word[k];
      index := index + 1;
      q.numBytes := q.numBytes + 1;
    }
    assert word[..|word|] == word;
    q.numBytes := q.numBytes + 1;
  }

  method ReplaceDots(name: seq<byte>) returns (text: seq<byte>)
    ensures text == Undotted(name)
  {
    text := name;
    for i := 0 to |name|
      invariant |text| == |name|
      invariant forall k | 0 <= k < |name| :: text[k] == if k < i then Undotted(name)[k] else name[k]
    {
      if text[i] == DOT {
        text := text[i := SPACE];
      }
    }
  }

  /** The loop that turns each word of the stream into a label. */
  method WriteWords(text: seq<byte>, q: Question)
    requires |LabelsWire(Words(text))| <= q.QNAME.Length
    modifies q`numBytes, q.QNAME
    ensures var wire := LabelsWire(Words(text));
      q.QNAME[..|wire|] == wire && q.numBytes == old(q.numBytes) + |wire|
  {
    ghost var wire := LabelsWire(Words(text));
    var index: nat := 0;
    assert text[0..] == text;
    var found, word, pos := NextWord(text, 0);
    ghost var written, left: seq<Label> := [], Words(text);
    while found
      invariant pos <= |text| && index == |written| <= q.QNAME.Length
      invariant left == if found then [word] + Words(text[pos..]) else []
      invariant q.numBytes == old(q.numBytes) + index
      invariant q.QNAME[..index] == written && written + LabelsWire(left) == wire
      decreases |left|
    {
      WireStep(written, word, Words(text[pos..]));
      written, left := written + [|word| % 256] + word, Words(text[pos..]);
      index := PutLabel(q, word, index);
      found, word, pos := NextWord(text, pos);
    }
  }

  lemma WireStep(written: seq<byte>, word: Label, rest: seq<Label>)
    ensures written + LabelsWire([word] + rest) == written + [|word| % 256] + word + LabelsWire(rest)
    ensures |LabelsWire([word] + rest)| == 1 + |word| + |LabelsWire(rest)|
  {
  }

  /** `makeQuestion`. The name's wire form must fit the buffer, which the program does not check. */
  method MakeQuestion(name: seq<byte>, q: Question)
    requires |LabelsWire(Words(Undotted(name)))| <= q.QNAME.Length
    requires q.QODD.Length == 11 && q.QODD != q.QNAME
    modifies q, q.QNAME, q.QODD
    ensures var wire := LabelsWire(Words(Undotted(name)));
      q.QNAME[..|wire|] == wire && q.numBytes == old(q.numBytes) + |wire|
    ensures q.QTYPE == 28 && q.QCLASS == 1 && q.QODD[..] == ODD
  {
    var text := ReplaceDots(name);
    WriteWords(text, q);
    q.QTYPE, q.QCLASS := 28, 1;
    q.QODD[0], q.QODD[1], q.QODD[2], q.QODD[3] := 0, 0, 41, 16;
    q.QODD[4], q.QODD[5], q.QODD[6], q.QODD[7] := 0, 0, 0, 128;
    q.QODD[8], q.QODD[9], q.QODD[10] := 0, 0, 0;
  }

  // ---------------------------------------------------------------- the first packet

  /** The header fields `makeHeader` sets. */
  datatype Header = Header(version: nat, flags: nat, queries: nat, answers: nat, nservers: nat, addservers: nat)

  const HEADER := Header(0, 0, 1, 0, 0, 1)

  predicate ValidHeader(h: Header) {
    && h.version < 0x1_0000 && h.flags < 0x1_0000 && h.queries < 0x1_0000
    && h.answers < 0x1_0000 && h.nservers < 0x1_0000 && h.addservers < 0x1_0000
  }

  function HeaderBytes(h: Header): (r: seq<byte>)
    requires ValidHeader(h)
    ensures |r| == 12
  {
    Be16(h.version) + Be16(h.flags) + Be16(h.queries) + Be16(h.answers) + Be16(h.nservers) + Be16(h.addservers)
  }

  /** The first packet an `attempt` call builds, and its `numbytes`. */
  method BuildPacket(h: Header, q: Question) returns (packet: seq<byte>, numbytes: nat)
    requires ValidHeader(h) && q.QTYPE < 0x1_0000 && q.QCLASS < 0x1_0000
    requires 0 <= q.numBytes <= q.QNAME.Length && q.QODD.Length == 11
    ensures packet == HeaderBytes(h) + (q.QNAME[..q.numBytes] + [0]) + (Be16(q.QTYPE) + Be16(q.QCLASS) + q.QODD[..])
    ensures numbytes == |packet| - 11
  {
    packet := Be16(h.version) + Be16(h.flags) + Be16(h.queries);
    packet := packet + Be16(h.answers) + Be16(h.nservers) + Be16(h.addservers);
    packet := packet + q.QNAME[..q.numBytes] + [0];
    packet := packet + Be16(q.QTYPE) + Be16(q.QCLASS) + q.QODD[..];
    numbytes := |packet| - 11;
  }

  /** A host name of non-empty labels up to 63 bytes without dots and white space. */
  predicate HostLabels(labels: seq<Label>) {
    LabelLengths(labels, 63) && forall l | l in labels :: PlainLabel(l)
  }

  predicate PlainLabel(word: Label) {
    forall b | b in word :: b != DOT && !IsSpace(b)
  }

  lemma {:induction false} WordFirst(word: seq<byte>, rest: seq<byte>)
    requires forall b | b in word :: !IsSpace(b)
    requires rest == [] || IsSpace(rest[0])
    ensures WordLength(word + rest) == |word|
  {
    if word == [] {
      assert word + rest == rest;
    } else {
      assert (word + rest)[1..] == word[1..] + rest;
      WordFirst(word[1..], rest);
    }
  }

  lemma UndottedAppend(a: seq<byte>, b: seq<byte>)
    ensures Undotted(a + b) == Undotted(a) + Undotted(b)
  {
  }

  lemma WordsCons(word: Label, rest: seq<byte>)
    requires word != [] && forall b | b in word :: !IsSpace(b)
    requires rest == [] || IsSpace(rest[0])
    ensures Words(word + rest) == [word] + Words(rest)
  {
    WordFirst(word, rest);
    assert word[0] in word;
    assert (word + rest)[..|word|] == word && (word + rest)[|word|..] == rest;
  }

  /** A text is cut at every blank, tab, line feed, vertical tab, form feed and carriage return. */
  lemma BlankSplits(word: Label, b: byte, rest: seq<byte>)
    requires b == 32 || 9 <= b <= 13
    requires forall c | c in word :: c != 32 && !(9 <= c <= 13)
    ensures Words(word + [b] + rest) == (if word == [] then [] else [word]) + Words(rest)
  {
    assert ([b] + rest)[1..] == rest;
    assert word + [b] + rest == word + ([b] + rest);
    if word != [] {
      WordsCons(word, [b] + rest);
    } else {
      assert word + [b] + rest == [b] + rest;
    }
  }

  /** Letters, digits, hyphens and underscores make labels. */
  lemma NameCharacters(word: Label)
    requires forall b | b in word :: 48 <= b <= 57 || 65 <= b <= 90 || 97 <= b <= 122 || b == 45 || b == 95
    ensures PlainLabel(word)
  {
  }

  lemma NoDots(word: Label)
    requires PlainLabel(word)
    ensures Undotted(word) == word
  {
    forall i | 0 <= i < |word| ensures Undotted(word)[i] == word[i] {
      assert word[i] in word;
    }
  }

  /** Splitting the dotted text of a host name gives its labels. */
  lemma {:induction false} WordsOfDotted(labels: seq<Label>, first: bool)
    requires HostLabels(labels)
    ensures Words(Undotted(Dotted(labels, first))) == labels
    ensures !first && labels != [] ==> IsSpace(Undotted(Dotted(labels, first))[0])
    decreases |labels|
  {
    if labels != [] {
      WordsOfDotted(labels[1..], false);
      assert labels[0] in labels;
      HeadWord(labels[0], Dotted(labels[1..], false), first);
      assert [labels[0]] + labels[1..] == labels;
    }
  }

  lemma FirstHeadWord(word: Label, tail: seq<byte>)
    requires word != [] && PlainLabel(word) && (tail == [] || IsSpace(Undotted(tail)[0]))
    ensures Words(Undotted(word + tail)) == [word] + Words(Undotted(tail))
  {
    NoDots(word);
    UndottedAppend(word, tail);
    WordsCons(word, Undotted(tail));
  }

  lemma HeadWord(word: Label, tail: seq<byte>, first: bool)
    requires word != [] && PlainLabel(word) && (tail == [] || IsSpace(Undotted(tail)[0]))
    ensures var text := (if first then [] else [DOT]) + word + tail;
      && Words(Undotted(text)) == [word] + Words(Undotted(tail))
      && (!first ==> IsSpace(Undotted(text)[0]))
  {
    FirstHeadWord(word, tail);
    if first {
      assert [] + word + tail == word + tail;
    } else {
      assert [DOT] + word + tail == [DOT] + (word + tail);
      WordsAfterDot(word + tail);
    }
  }

  lemma WordsAfterDot(text: seq<byte>)
    ensures Words(Undotted([DOT] + text)) == Words(Undotted(text)) && Undotted([DOT] + text)[0] == SPACE
  {
    UndottedAppend([DOT], text);
    assert Undotted([DOT] + text)[1..] == Undotted(text);
  }

  lemma {:induction false} RfcUncompressed(msg: seq<byte>, start: nat, loc: nat, labels: seq<Label>)
    requires LabelsAt(msg, loc, labels) && LabelLengths(labels, 63)
    requires loc + WireLength(labels) < |msg| && msg[loc + WireLength(labels)] == 0
    ensures RfcName(msg, start, loc, RFC_LIMIT) == Some(Name(labels, loc + WireLength(labels) + 1, false))
    decreases |labels|
  {
    if labels != [] {
      RfcUncompressed(msg, start, loc + 1 + |labels[0]|, labels[1..]);
      assert [labels[0]] + labels[1..] == labels;
    }
  }

  /** Query round trip: the name given to `makeQuestion` is, per the standard and for `recParse` at
      offset 12, the name in the first packet, and `numbytes` is the offset just past the question
      (terminator, type and class), where the answers of an echoing reply start. */
  lemma QueryRoundTrip(labels: seq<Label>, packet: seq<byte>)
    requires HostLabels(labels)
    requires var wire := LabelsWire(Words(Undotted(Dotted(labels, true))));
      packet == HeaderBytes(HEADER) + (wire + [0]) + (Be16(28) + Be16(1) + ODD)
    ensures var p := CodeParse(packet, 12, |labels| + 1);
      && p.Parsed? && Dotted(p.labels, true) == Dotted(labels, true)
      && RfcName(packet, 12, 12, RFC_LIMIT) == Some(Name(labels, p.next + 1, false))
      && |packet| - 11 == p.next + 1 + 4
  {
    WordsOfDotted(labels, true);
    QuestionReads(HeaderBytes(HEADER), labels, Be16(28) + Be16(1) + ODD, packet);
  }

  lemma QuestionReads(head: seq<byte>, labels: seq<Label>, rest: seq<byte>, packet: seq<byte>)
    requires LabelLengths(labels, 63) && packet == head + (LabelsWire(labels) + [0]) + rest
    ensures var at := |head| + |LabelsWire(labels)|;
      && CodeParse(packet, |head|, |labels| + 1) == Parsed(labels, at)
      && RfcName(packet, |head|, |head|, RFC_LIMIT) == Some(Name(labels, at + 1, false))
  {
    var wire := LabelsWire(labels);
    ShorterLabels(labels, 63, 191);
    QuestionAt(head, wire + [0], rest, packet);
    ParseUncompressed(packet, |head|, labels);
    HoldsSplit(packet, |head|, wire, [0]);
    HoldsAt(packet, |head| + |wire|, [0], 0);
    WireIsLabelsAt(packet, |head|, labels);
    RfcUncompressed(packet, |head|, |head|, labels);
  }

  lemma QuestionAt(head: seq<byte>, name: seq<byte>, rest: seq<byte>, packet: seq<byte>)
    requires packet == head + name + rest
    ensures Holds(packet, |head|, name)
  {
  }

  /** Two bytes of the packet as a number, the first one higher. */
  function U16At(packet: seq<byte>, at: nat): nat
    requires at + 2 <= |packet|
  {
    packet[at] as int * 256 + packet[at + 1] as int
  }

  /** The header of section 4.1.1 of RFC 1035: an ordinary query without flags, with one question, one
      additional record, and nothing else. */
  predicate QueryHeader(packet: seq<byte>) {
    && |packet| >= 12
    && U16At(packet, 0) == 0 && U16At(packet, 2) == 0
    && U16At(packet, 4) == 1 && U16At(packet, 6) == 0 && U16At(packet, 8) == 0 && U16At(packet, 10) == 1
  }

  /** Behind the name a question for an IPv6 address in the Internet class (section 4.1.2 of RFC 1035 and
      section 2.1 of RFC 3596), and behind that, to the end of the packet, the additional record: the
      pseudo-record of section 6.1.2 of RFC 6891, which offers replies of 4096 bytes, carries no options,
      and sets the DNSSEC OK bit of section 6.1.4. */
  predicate AsksWithOpt(packet: seq<byte>, at: nat) {
    && |packet| == at + 15
    && U16At(packet, at) == 28 && U16At(packet, at + 2) == 1
    && packet[at + 4] == 0 && U16At(packet, at + 5) == 41 && U16At(packet, at + 7) == 4096
    && packet[at + 9] == 0 && packet[at + 10] == 0 && U16At(packet, at + 11) == 0x8000 && U16At(packet, at + 13) == 0
  }

  lemma HeaderMeetsRfc(packet: seq<byte>)
    requires |packet| >= 12 && packet[..12] == HeaderBytes(HEADER)
    ensures QueryHeader(packet)
  {
    forall i | 0 <= i < 12 ensures packet[i] == HeaderBytes(HEADER)[i] {
      assert packet[i] == packet[..12][i];
    }
  }

  lemma TailMeetsRfc(packet: seq<byte>, at: nat)
    requires at <= |packet| && packet[at..] == Be16(28) + Be16(1) + ODD
    ensures AsksWithOpt(packet, at)
  {
    var tail := Be16(28) + Be16(1) + ODD;
    assert |packet[at..]| == |tail| == 15;
    forall i | 0 <= i < 15 ensures packet[at + i] == tail[i] {
      assert packet[at + i] == packet[at..][i];
    }
  }

  /** From the name on the command line to the first packet: what `main`, `makeQuestion` and the
      packet code of `attempt` do together, with `numBytes` starting at zero. */
  method FirstQuery(name: seq<byte>, ghost labels: seq<Label>) returns (packet: seq<byte>, numbytes: nat)
    requires HostLabels(labels) && name == Dotted(labels, true) && |LabelsWire(labels)| <= 4096
    ensures QueryHeader(packet) && numbytes >= 17 && AsksWithOpt(packet, numbytes - 4)
    ensures CodeParse(packet, 12, |labels| + 1) == Parsed(labels, numbytes - 5)
    ensures RfcName(packet, 12, 12, RFC_LIMIT) == Some(Name(labels, numbytes - 4, false))
  {
    var q := new Question(0);
    WordsOfDotted(labels, true);
    MakeQuestion(name, q);
    packet, numbytes := BuildPacket(HEADER, q);
    QuestionReads(HeaderBytes(HEADER), labels, Be16(28) + Be16(1) + ODD, packet);
    HeaderMeetsRfc(packet);
    TailMeetsRfc(packet, numbytes - 4);
  }
}
