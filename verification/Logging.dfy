/** The log of scheduler/src/Logging.cpp: direct writing on the event thread, buffered and queued
    writing on any other thread, and the proof that the second produces what the first would. */
module Logging {
  import opened Basics
  import opened Bytes

  /** What `line_start` prints, with the time stamp taken as constant. */
  datatype Format = Format(time: string, name: string, msg: string, indentSize: nat, maxBuffer: nat)

  /** The real stream and the indentation counter (a `uint8_t`). */
  datatype Sink = Sink(out: string, indent: nat)

  function Spaces(n: nat): (s: string)
    ensures |s| == n
  {
    seq(n, _ => ' ')
  }

  function LineStart(f: Format, indent: nat): (s: string)
    ensures |s| >= 4
  {
    f.time + " " + f.name + " [" + f.msg + "] :: " + Spaces(indent * f.indentSize)
  }

  // ---------------------------------------------------------------- direct logging

  datatype Op = Text(s: string) | Number(s: string) | Endl | Flush | Catb | Cate

  function Raw(s: Sink, text: string): Sink {
    s.(out := s.out + text)
  }

  function NewLine(f: Format, s: Sink): Sink {
    Raw(s, "\n" + LineStart(f, s.indent))
  }

  /** Text written directly: every newline is followed by the standard line prefix. */
  function Rendered(f: Format, indent: nat, text: string): string {
    if text == "" then ""
    else (if text[0] == '\n' then "\n" + LineStart(f, indent) else [text[0]]) + Rendered(f, indent, text[1..])
  }

  function Write(f: Format, s: Sink, text: string): Sink {
    Raw(s, Rendered(f, s.indent, text))
  }

  function Begin(f: Format, s: Sink): Sink {
    var inner := (s.indent + 1) % 256;
    Sink(s.out + "\n" + LineStart(f, s.indent) + "{\n" + LineStart(f, inner), inner)
  }

  function End(f: Format, s: Sink): Sink {
    if s.indent > 0 then Sink(s.out + "\n" + LineStart(f, s.indent - 1) + "}", s.indent - 1) else s
  }

  /** One log operation on the event thread. */
  function Direct(f: Format, s: Sink, op: Op): Sink {
    match op
    case Text(t) => Write(f, s, t)
    case Number(t) => Raw(s, t)
    case Endl => NewLine(f, s)
    case Flush => s
    case Catb => Begin(f, s)
    case Cate => End(f, s)
  }

  function DirectAll(f: Format, s: Sink, ops: seq<Op>): Sink
    decreases |ops|
  {
    if ops == [] then s else DirectAll(f, Direct(f, s, ops[0]), ops[1..])
  }

  // ---------------------------------------------------------------- queued logging

  /** The events another thread posts; the text was copied out of the buffer. */
  datatype Event = EndlText(s: string) | FlushText(s: string) | CatBegin | CatEnd

  function Replay(f: Format, s: Sink, ev: Event): Sink {
    match ev
    case EndlText(t) => NewLine(f, Raw(s, t))
    case FlushText(t) => Write(f, s, t)
    case CatBegin => Begin(f, s)
    case CatEnd => End(f, s)
  }

  function ReplayAll(f: Format, s: Sink, evs: seq<Event>): Sink
    decreases |evs|
  {
    if evs == [] then s else ReplayAll(f, Replay(f, s, evs[0]), evs[1..])
  }

  datatype Async = Async(sink: Sink, queue: seq<Event>, buff: string)

  function Flushed(a: Async): Async {
    a.(queue := a.queue + [FlushText(a.buff)], buff := "")
  }

  function Buffered(f: Format, a: Async, text: string): Async {
    var a1 := a.(buff := a.buff + text);
    if |a1.buff| > f.maxBuffer then Flushed(a1) else a1
  }

  /** One log operation on a thread that is not the event thread. */
  function Foreign(f: Format, a: Async, op: Op): Async {
    match op
    case Text(t) => Buffered(f, a, t)
    case Number(t) => Buffered(f, a, t)
    case Endl => a.(queue := a.queue + [EndlText(a.buff)], buff := "")
    case Flush => Flushed(a)
    case Catb => Flushed(a).(queue := Flushed(a).queue + [CatBegin])
    case Cate => Flushed(a).(queue := Flushed(a).queue + [CatEnd])
  }

  /** The event thread executes the oldest event. */
  function Drained(f: Format, a: Async): Async
    requires a.queue != []
  {
    a.(sink := Replay(f, a.sink, a.queue[0]), queue := a.queue[1..])
  }

  datatype Step = Log(op: Op) | Drain

  predicate Legal(f: Format, a: Async, steps: seq<Step>)
    decreases |steps|
  {
    steps != [] ==>
      && (steps[0].Drain? ==> a.queue != [])
      && (steps[0].Log? && steps[0].op.Number? ==> '\n' !in steps[0].op.s)
      && Legal(f, After(f, a, steps[0]), steps[1..])
  }

  function After(f: Format, a: Async, step: Step): Async
    requires step.Drain? ==> a.queue != []
  {
    if step.Drain? then Drained(f, a) else Foreign(f, a, step.op)
  }

  function Run(f: Format, a: Async, steps: seq<Step>): Async
    requires Legal(f, a, steps)
    decreases |steps|
  {
    if steps == [] then a else Run(f, After(f, a, steps[0]), steps[1..])
  }

  function Logged(steps: seq<Step>): seq<Op> {
    if steps == [] then []
    else (if steps[0].Log? then [steps[0].op] else []) + Logged(steps[1..])
  }

  /** No `endl` finds a newline pending in the buffer. */
  predicate Clean(f: Format, a: Async, steps: seq<Step>)
    requires Legal(f, a, steps)
    decreases |steps|
  {
    steps == [] ||
    (&& (steps[0] == Log(Endl) ==> '\n' !in a.buff)
     && Clean(f, After(f, a, steps[0]), steps[1..]))
  }

  /** What the stream will hold once queue and buffer have been worked off, in order. */
  function Meaning(f: Format, a: Async): Sink {
    Write(f, ReplayAll(f, a.sink, a.queue), a.buff)
  }

  // ---------------------------------------------------------------- lemmas

  /** Writing text is a homomorphism: it can be cut anywhere. */
  lemma {:induction false} RenderedAppend(f: Format, indent: nat, a: string, b: string)
    ensures Rendered(f, indent, a + b) == Rendered(f, indent, a) + Rendered(f, indent, b)
  {
    if a == "" {
      assert a + b == b;
    } else {
      assert (a + b)[1..] == a[1..] + b;
      RenderedAppend(f, indent, a[1..], b);
    }
  }

  function Newlines(text: string): nat {
    if text == "" then 0 else (if text[0] == '\n' then 1 else 0) + Newlines(text[1..])
  }

  /** Rendering adds one line prefix per newline, and nothing else. */
  lemma {:induction false} RenderedLength(f: Format, indent: nat, text: string)
    ensures |Rendered(f, indent, text)| == |text| + Newlines(text) * |LineStart(f, indent)|
    ensures Newlines(text) == 0 <==> '\n' !in text
  {
    if text != "" {
      RenderedLength(f, indent, text[1..]);
      assert '\n' in text <==> text[0] == '\n' || '\n' in text[1..];
      OneMore(Newlines(text[1..]), |LineStart(f, indent)|);
    }
  }

  lemma {:induction false} ReplayAppend(f: Format, s: Sink, evs: seq<Event>, ev: Event)
    ensures ReplayAll(f, s, evs + [ev]) == Replay(f, ReplayAll(f, s, evs), ev)
    decreases |evs|
  {
    if evs == [] {
      assert evs + [ev] == [ev] && [ev][1..] == [];
    } else {
      assert (evs + [ev])[1..] == evs[1..] + [ev];
      ReplayAppend(f, Replay(f, s, evs[0]), evs[1..], ev);
    }
  }

  lemma WriteNothing(f: Format, s: Sink)
    ensures Write(f, s, "") == s
  {
  }

  lemma WriteAppend(f: Format, s: Sink, a: string, b: string)
    ensures Write(f, Write(f, s, a), b) == Write(f, s, a + b)
  {
    RenderedAppend(f, s.indent, a, b);
    Joined(s.out, Rendered(f, s.indent, a), Rendered(f, s.indent, b));
  }

  lemma Joined(a: string, b: string, c: string)
    ensures a + b + c == a + (b + c)
  {
  }

  lemma FlushKeepsMeaning(f: Format, a: Async)
    ensures Meaning(f, Flushed(a)) == Meaning(f, a)
    ensures ReplayAll(f, a.sink, Flushed(a).queue) == Meaning(f, a)
  {
    ReplayAppend(f, a.sink, a.queue, FlushText(a.buff));
    WriteNothing(f, Meaning(f, a));
  }

  lemma BufferedMeaning(f: Format, a: Async, text: string)
    ensures Meaning(f, Buffered(f, a, text)) == Write(f, Meaning(f, a), text)
  {
    WriteAppend(f, ReplayAll(f, a.sink, a.queue), a.buff, text);
    FlushKeepsMeaning(f, a.(buff := a.buff + text));
  }

  lemma EndlMeaning(f: Format, a: Async)
    ensures var q := ReplayAll(f, a.sink, a.queue);
      Meaning(f, Foreign(f, a, Endl)) == NewLine(f, Raw(q, a.buff))
  {
    var q := ReplayAll(f, a.sink, a.queue);
    ReplayAppend(f, a.sink, a.queue, EndlText(a.buff));
    WriteNothing(f, NewLine(f, Raw(q, a.buff)));
  }

  /** `endl` from another thread does what it would do directly exactly when no newline is pending
      in the buffer; otherwise the stream comes out shorter, by the missing line prefixes. */
  lemma EndlExact(f: Format, a: Async)
    ensures var direct := Direct(f, Meaning(f, a), Endl);
            var queued := Meaning(f, Foreign(f, a, Endl));
      && (queued == direct <==> '\n' !in a.buff)
      && queued.indent == direct.indent
      && ('\n' in a.buff ==> |queued.out| < |direct.out|)
  {
    var q := ReplayAll(f, a.sink, a.queue);
    EndlMeaning(f, a);
    RenderedLength(f, q.indent, a.buff);
    if '\n' !in a.buff {
      RenderedPlain(f, q.indent, a.buff);
    } else {
      PositiveProduct(Newlines(a.buff), |LineStart(f, q.indent)|);
    }
  }

  lemma PositiveProduct(x: nat, y: nat)
    requires x > 0 && y > 0
    ensures x * y > 0
  {
  }

  lemma NumberIsText(f: Format, s: Sink, t: string)
    requires '\n' !in t
    ensures Write(f, s, t) == Raw(s, t)
  {
    RenderedPlain(f, s.indent, t);
  }

  /** One operation on another thread means what it would do directly. */
  lemma ForeignStep(f: Format, a: Async, op: Op)
    requires op.Number? ==> '\n' !in op.s
    requires op.Endl? ==> '\n' !in a.buff
    ensures Meaning(f, Foreign(f, a, op)) == Direct(f, Meaning(f, a), op)
  {
    match op
    case Text(t) => BufferedMeaning(f, a, t);
    case Number(t) => BufferedMeaning(f, a, t); NumberIsText(f, Meaning(f, a), t);
    case Endl => EndlExact(f, a);
    case Flush => FlushKeepsMeaning(f, a);
    case Catb =>
      FlushKeepsMeaning(f, a);
      ReplayAppend(f, a.sink, Flushed(a).queue, CatBegin);
      WriteNothing(f, Begin(f, Meaning(f, a)));
    case Cate =>
      FlushKeepsMeaning(f, a);
      ReplayAppend(f, a.sink, Flushed(a).queue, CatEnd);
      WriteNothing(f, End(f, Meaning(f, a)));
  }

  lemma DrainKeepsMeaning(f: Format, a: Async)
    requires a.queue != []
    ensures Meaning(f, Drained(f, a)) == Meaning(f, a)
  {
  }

  /** Operations append, and what they append depends on the indentation only. */
  function Added(f: Format, indent: nat, op: Op): string {
    Direct(f, Sink("", indent), op).out
  }

  lemma DirectAppends(f: Format, s: Sink, op: Op)
    ensures Direct(f, s, op).out == s.out + Added(f, s.indent, op)
    ensures Direct(f, s, op).indent == Direct(f, Sink("", s.indent), op).indent
  {
  }

  /** The whole run, compared with a direct stream that was at least as long at its start. */
  lemma {:induction false} RunAgainstDirect(f: Format, a: Async, d: Sink, steps: seq<Step>)
    requires Legal(f, a, steps)
    requires Meaning(f, a).indent == d.indent
    requires Meaning(f, a) == d || |Meaning(f, a).out| < |d.out|
    ensures var m := Meaning(f, Run(f, a, steps)); var e := DirectAll(f, d, Logged(steps));
      && m.indent == e.indent
      && if Meaning(f, a) == d && Clean(f, a, steps) then m == e else |m.out| < |e.out|
    decreases |steps|
  {
    if steps != [] {
      var a1 := After(f, a, steps[0]);
      if steps[0].Drain? {
        DrainKeepsMeaning(f, a);
        assert Logged(steps) == Logged(steps[1..]);
        RunAgainstDirect(f, a1, d, steps[1..]);
      } else {
        var op := steps[0].op;
        var d1 := Direct(f, d, op);
        assert Logged(steps) == [op] + Logged(steps[1..]) && Logged(steps)[1..] == Logged(steps[1..]);
        DirectAppends(f, d, op);
        DirectAppends(f, Meaning(f, a), op);
        if op == Endl {
          EndlExact(f, a);
        } else {
          ForeignStep(f, a, op);
        }
        RunAgainstDirect(f, a1, d1, steps[1..]);
      }
    }
  }

  /** Asynchronous logging refines direct logging: for every interleaving of one foreign thread's
      operations with an event thread that runs only log events, once queue and buffer are empty
      the stream holds what the same operations would have written directly, if and only if no
      `endl` found a newline pending in the buffer. */
  lemma AsyncRefinesDirect(f: Format, start: Sink, steps: seq<Step>)
    requires Legal(f, Async(start, [], ""), steps)
    ensures var end := Run(f, Async(start, [], ""), steps);
      end.queue == [] && end.buff == "" ==>
        (end.sink == DirectAll(f, start, Logged(steps)) <==> Clean(f, Async(start, [], ""), steps))
  {
    var a := Async(start, [], "");
    WriteNothing(f, start);
    RunAgainstDirect(f, a, start, steps);
    WriteNothing(f, Run(f, a, steps).sink);
  }

  /** At every moment of a clean run the stream is a prefix of what direct logging writes. */
  lemma StreamIsPrefix(f: Format, start: Sink, steps: seq<Step>)
    requires Legal(f, Async(start, [], ""), steps) && Clean(f, Async(start, [], ""), steps)
    ensures Run(f, Async(start, [], ""), steps).sink.out <= DirectAll(f, start, Logged(steps)).out
  {
    var a := Async(start, [], "");
    WriteNothing(f, start);
    RunAgainstDirect(f, a, start, steps);
    var end := Run(f, a, steps);
    ReplayExtends(f, end.sink, end.queue);
  }

  lemma {:induction false} ReplayExtends(f: Format, s: Sink, evs: seq<Event>)
    ensures s.out <= ReplayAll(f, s, evs).out
    decreases |evs|
  {
    if evs != [] {
      assert s.out <= Replay(f, s, evs[0]).out;
      ReplayExtends(f, Replay(f, s, evs[0]), evs[1..]);
    }
  }

  /** A caller who never puts a newline into text satisfies the condition. */
  lemma {:induction false} NoNewlinesIsClean(f: Format, a: Async, steps: seq<Step>)
    requires Legal(f, a, steps) && '\n' !in a.buff
    requires forall i | 0 <= i < |steps| && steps[i].Log? && steps[i].op.Text? :: '\n' !in steps[i].op.s
    ensures Clean(f, a, steps)
    decreases |steps|
  {
    if steps != [] {
      assert steps[0].Log? && steps[0].op.Text? ==> '\n' !in steps[0].op.s;
      NoNewlinesIsClean(f, After(f, a, steps[0]), steps[1..]);
    }
  }

  // ---------------------------------------------------------------- what the log looks like

  /** Where the text of a line begins, so many levels deep. */
  function Width(f: Format, depth: nat): nat {
    |f.time| + |f.name| + |f.msg| + 8 + depth * f.indentSize
  }

  /** The line begins with the prefix, and as many blanks as the depth asks for. */
  predicate Indented(f: Format, line: string, depth: nat) {
    && Width(f, 0) <= Width(f, depth) <= |line|
    && line[..Width(f, 0)] == f.time + " " + f.name + " [" + f.msg + "] :: "
    && forall i | Width(f, 0) <= i < Width(f, depth) :: line[i] == ' '
  }

  /** The line closes a category: it is indented one level less, and begins with the brace. */
  predicate Closes(f: Format, line: string, depth: nat) {
    depth > 0 && Indented(f, line, depth - 1) && Width(f, depth - 1) < |line| && line[Width(f, depth - 1)] == '}'
  }

  /** What a reader of the log gets: the text without prefixes and indentation, and how many braces are
      open at its end; None when a line is not indented by the number of braces open before it. */
  datatype Reading = Reading(text: string, depth: nat)

  /** How much of the log one step of the reader takes, what it reads there, and the depth behind it. */
  datatype Taken = Taken(length: nat, text: string, depth: nat)

  function First(f: Format, out: string, depth: nat): (r: Option<Taken>)
    requires out != ""
    ensures r.Some? ==> 0 < r.value.length <= |out|
  {
    if out[0] == '\n' then
      if Closes(f, out[1..], depth) then Some(Taken(Width(f, depth - 1) + 2, "\n}", depth - 1))
      else if Indented(f, out[1..], depth) then Some(Taken(Width(f, depth) + 1, "\n", depth))
      else None
    else Some(Taken(1, [out[0]], if out[0] == '{' then depth + 1 else depth))
  }

  function ReadLog(f: Format, out: string, depth: nat): Option<Reading>
    decreases |out|
  {
    if out == "" then Some(Reading("", depth))
    else match First(f, out, depth)
      case None => None
      case Some(r) => Behind(r.text, ReadLog(f, out[r.length..], r.depth))
  }

  function Behind(text: string, r: Option<Reading>): Option<Reading> {
    if r.None? then None else Some(Reading(text + r.value.text, r.value.depth))
  }

  lemma BehindTwice(a: string, b: string, r: Option<Reading>)
    ensures Behind(a, Behind(b, r)) == Behind(a + b, r)
  {
    if r.Some? {
      assert a + (b + r.value.text) == a + b + r.value.text;
    }
  }

  /** Nothing that is not a closing brace changes how the lines before it are read. */
  lemma SameLine(f: Format, a: string, b: string, depth: nat)
    requires b == "" || b[0] != '}'
    requires Closes(f, a, depth) || Indented(f, a, depth)
    ensures Closes(f, a + b, depth) == Closes(f, a, depth)
    ensures !Closes(f, a, depth) ==> Indented(f, a + b, depth)
  {
    var w := Width(f, 0);
    if depth > 0 {
      OneMore(depth - 1, f.indentSize);
    }
    if |a| >= w {
      assert (a + b)[..w] == a[..w];
    }
  }

  lemma FirstSame(f: Format, a: string, b: string, depth: nat)
    requires b == "" || b[0] != '}'
    requires a != "" && First(f, a, depth).Some?
    ensures First(f, a + b, depth) == First(f, a, depth)
  {
    assert (a + b)[1..] == a[1..] + b;
    if a[0] == '\n' {
      SameLine(f, a[1..], b, depth);
    }
  }

  lemma {:induction false} ReadAppend(f: Format, a: string, b: string, depth: nat)
    requires b == "" || b[0] != '}'
    requires ReadLog(f, a, depth).Some?
    ensures var r := ReadLog(f, a, depth).value;
      ReadLog(f, a + b, depth) == Behind(r.text, ReadLog(f, b, r.depth))
    decreases |a|
  {
    if a == "" {
      assert a + b == b;
      NothingBefore(ReadLog(f, b, depth));
    } else {
      var now := First(f, a, depth).value;
      var rest := a[now.length..];
      FirstSame(f, a, b, depth);
      assert (a + b)[now.length..] == rest + b;
      ReadAppend(f, rest, b, now.depth);
      BehindTwice(now.text, ReadLog(f, rest, now.depth).value.text, ReadLog(f, b, ReadLog(f, rest, now.depth).value.depth));
    }
  }

  lemma NothingBefore(r: Option<Reading>)
    ensures Behind("", r) == r
  {
    assert r.Some? ==> "" + r.value.text == r.value.text;
  }

  /** The text an operation stands for, at this depth. */
  function Bare(op: Op, depth: nat): string {
    match op
    case Text(t) => t
    case Number(t) => t
    case Endl => "\n"
    case Flush => ""
    case Catb => "\n{\n"
    case Cate => if depth > 0 then "\n}" else ""
  }

  function DepthAfter(op: Op, depth: nat): nat {
    match op
    case Catb => depth + 1
    case Cate => if depth > 0 then depth - 1 else 0
    case _ => depth
  }

  function BareAll(ops: seq<Op>, depth: nat): string {
    if ops == [] then "" else Bare(ops[0], depth) + BareAll(ops[1..], DepthAfter(ops[0], depth))
  }

  /** The text has no braces of its own, and a number no newline. */
  predicate BraceFree(op: Op) {
    match op
    case Text(t) => '{' !in t && '}' !in t
    case Number(t) => '{' !in t && '}' !in t && '\n' !in t
    case _ => true
  }

  /** The nesting never exceeds what the 8-bit counter holds. */
  predicate Shallow(ops: seq<Op>, depth: nat) {
    ops == [] || (DepthAfter(ops[0], depth) <= 255 && Shallow(ops[1..], DepthAfter(ops[0], depth)))
  }

  lemma LineStartIndented(f: Format, depth: nat)
    ensures Indented(f, LineStart(f, depth), depth) && |LineStart(f, depth)| == Width(f, depth)
  {
    var head := f.time + " " + f.name + " [" + f.msg + "] :: ";
    assert LineStart(f, depth) == head + Spaces(depth * f.indentSize);
  }

  lemma AtEnd(f: Format, text: string, depth: nat)
    ensures Behind(text, ReadLog(f, "", depth)) == Some(Reading(text, depth))
  {
    assert text + "" == text;
  }

  lemma ReadNewLine(f: Format, depth: nat)
    ensures ReadLog(f, "\n" + LineStart(f, depth), depth) == Some(Reading("\n", depth))
  {
    var out := "\n" + LineStart(f, depth);
    LineStartIndented(f, depth);
    AtEnd(f, "\n", depth);
    if depth > 0 {
      OneMore(depth - 1, f.indentSize);
    }
    assert out[1..] == LineStart(f, depth) && out[Width(f, depth) + 1..] == "";
  }

  lemma ReadClosing(f: Format, depth: nat)
    requires depth > 0
    ensures ReadLog(f, "\n" + LineStart(f, depth - 1) + "}", depth) == Some(Reading("\n}", depth - 1))
  {
    var line := LineStart(f, depth - 1) + "}";
    var out := "\n" + LineStart(f, depth - 1) + "}";
    LineStartIndented(f, depth - 1);
    assert line[..Width(f, 0)] == LineStart(f, depth - 1)[..Width(f, 0)];
    AtEnd(f, "\n}", depth - 1);
    assert out[1..] == line && out[Width(f, depth - 1) + 2..] == "";
  }

  lemma {:induction false} ReadText(f: Format, text: string, depth: nat)
    requires '{' !in text && '}' !in text
    ensures ReadLog(f, Rendered(f, depth, text), depth) == Some(Reading(text, depth))
    ensures text != "" ==> Rendered(f, depth, text) != "" && Rendered(f, depth, text)[0] == text[0]
  {
    if text != "" {
      ReadText(f, text[1..], depth);
      assert text == [text[0]] + text[1..];
      if text[0] == '\n' {
        ReadNewLine(f, depth);
        ReadAppend(f, "\n" + LineStart(f, depth), Rendered(f, depth, text[1..]), depth);
      } else {
        assert Rendered(f, depth, text)[1..] == Rendered(f, depth, text[1..]);
      }
    }
  }

  lemma ReadBrace(f: Format, rest: string, depth: nat)
    ensures ReadLog(f, "{" + rest, depth) == Behind("{", ReadLog(f, rest, depth + 1))
  {
    assert ("{" + rest)[1..] == rest;
  }

  lemma ReadMore(f: Format, out: string, start: nat, r: Reading, added: string, more: Reading)
    requires ReadLog(f, out, start) == Some(r) && ReadLog(f, added, r.depth) == Some(more)
    requires added == "" || added[0] != '}'
    ensures ReadLog(f, out + added, start) == Some(Reading(r.text + more.text, more.depth))
  {
    ReadAppend(f, out, added, start);
  }

  lemma BraceLine(first: string, rest: string)
    ensures first + "{\n" + rest == first + ("{" + ("\n" + rest))
  {
    assert "{\n" + rest == "{" + ("\n" + rest);
    Joined(first, "{\n", rest);
  }

  lemma ReadTwoLines(f: Format, first: string, second: string, depth: nat)
    requires ReadLog(f, first, depth) == Some(Reading("\n", depth))
    requires ReadLog(f, second, depth + 1) == Some(Reading("\n", depth + 1))
    ensures ReadLog(f, first + ("{" + second), depth) == Some(Reading("\n" + ("{" + "\n"), depth + 1))
  {
    ReadBrace(f, second, depth);
    ReadMore(f, first, depth, Reading("\n", depth), "{" + second, Reading("{" + "\n", depth + 1));
  }

  lemma ReadBegin(f: Format, depth: nat)
    ensures ReadLog(f, "\n" + LineStart(f, depth) + "{\n" + LineStart(f, depth + 1), depth)
         == Some(Reading("\n{\n", depth + 1))
  {
    ReadNewLine(f, depth);
    ReadNewLine(f, depth + 1);
    BraceLine("\n" + LineStart(f, depth), LineStart(f, depth + 1));
    ReadTwoLines(f, "\n" + LineStart(f, depth), "\n" + LineStart(f, depth + 1), depth);
    assert "\n" + ("{" + "\n") == "\n{\n";
  }

  lemma AddedText(f: Format, op: Op, depth: nat)
    ensures Added(f, depth, op) ==
      match op
      case Text(t) => Rendered(f, depth, t)
      case Number(t) => t
      case Endl => "\n" + LineStart(f, depth)
      case Flush => ""
      case Catb => "\n" + LineStart(f, depth) + "{\n" + LineStart(f, (depth + 1) % 256)
      case Cate => if depth > 0 then "\n" + LineStart(f, depth - 1) + "}" else ""
  {
    match op
    case Text(t) => assert "" + Rendered(f, depth, t) == Rendered(f, depth, t);
    case Number(t) => assert "" + t == t;
    case _ =>
      assert "" + "\n" == "\n";
      assert "" + ("\n" + LineStart(f, depth)) == "\n" + LineStart(f, depth);
  }

  lemma NoBraceFirst(f: Format, op: Op, depth: nat)
    requires BraceFree(op)
    ensures Added(f, depth, op) == "" || Added(f, depth, op)[0] != '}'
  {
    AddedText(f, op, depth);
    match op
    case Text(t) => ReadText(f, t, depth);
    case _ =>
  }

  lemma ReadPlain(f: Format, op: Op, depth: nat)
    requires BraceFree(op) && (op.Text? || op.Number? || op.Flush?)
    ensures ReadLog(f, Added(f, depth, op), depth) == Some(Reading(Bare(op, depth), depth))
  {
    AddedText(f, op, depth);
    if !op.Flush? {
      ReadText(f, op.s, depth);
    }
    if op.Number? {
      RenderedPlain(f, depth, op.s);
    }
  }

  lemma ReadOpening(f: Format, depth: nat)
    requires depth < 255
    ensures ReadLog(f, Added(f, depth, Catb), depth) == Some(Reading(Bare(Catb, depth), depth + 1))
  {
    AddedText(f, Catb, depth);
    ReadBegin(f, depth);
  }

  lemma ReadEnd(f: Format, depth: nat)
    ensures ReadLog(f, Added(f, depth, Cate), depth) == Some(Reading(Bare(Cate, depth), DepthAfter(Cate, depth)))
  {
    AddedText(f, Cate, depth);
    if depth > 0 {
      ReadClosing(f, depth);
    }
  }

  lemma ReadEndl(f: Format, depth: nat)
    ensures ReadLog(f, Added(f, depth, Endl), depth) == Some(Reading(Bare(Endl, depth), depth))
  {
    AddedText(f, Endl, depth);
    ReadNewLine(f, depth);
  }

  /** What one operation adds to the stream is read as the text it stands for. */
  lemma ReadAdded(f: Format, op: Op, depth: nat)
    requires BraceFree(op) && DepthAfter(op, depth) <= 255
    ensures ReadLog(f, Added(f, depth, op), depth) == Some(Reading(Bare(op, depth), DepthAfter(op, depth)))
  {
    match op
    case Endl => ReadEndl(f, depth);
    case Catb => ReadOpening(f, depth);
    case Cate => ReadEnd(f, depth);
    case _ => ReadPlain(f, op, depth);
  }

  lemma IndentIsDepth(f: Format, s: Sink, op: Op)
    requires DepthAfter(op, s.indent) <= 255
    ensures Direct(f, s, op).indent == DepthAfter(op, s.indent)
  {
  }

  lemma ReadOne(f: Format, s: Sink, op: Op, start: nat, text: string)
    requires ReadLog(f, s.out, start) == Some(Reading(text, s.indent))
    requires BraceFree(op) && DepthAfter(op, s.indent) <= 255
    ensures var e := Direct(f, s, op);
      && ReadLog(f, e.out, start) == Some(Reading(text + Bare(op, s.indent), e.indent))
      && e.indent == DepthAfter(op, s.indent)
  {
    var more := Reading(Bare(op, s.indent), DepthAfter(op, s.indent));
    DirectAppends(f, s, op);
    IndentIsDepth(f, s, op);
    ReadAdded(f, op, s.indent);
    NoBraceFirst(f, op, s.indent);
    ReadMore(f, s.out, start, Reading(text, s.indent), Added(f, s.indent, op), more);
  }

  lemma {:induction false} ReadAll(f: Format, s: Sink, ops: seq<Op>, start: nat, text: string)
    requires ReadLog(f, s.out, start) == Some(Reading(text, s.indent))
    requires Shallow(ops, s.indent) && forall op | op in ops :: BraceFree(op)
    ensures var e := DirectAll(f, s, ops);
      ReadLog(f, e.out, start) == Some(Reading(text + BareAll(ops, s.indent), e.indent))
    decreases |ops|
  {
    if ops == [] {
      assert text + "" == text;
    } else {
      var bare, s1 := Bare(ops[0], s.indent), Direct(f, s, ops[0]);
      ReadOne(f, s, ops[0], start, text);
      ReadAll(f, s1, ops[1..], start, text + bare);
      Joined(text, bare, BareAll(ops[1..], s1.indent));
    }
  }

  /** The log is laid out as its nesting: whatever is logged, without braces in the texts and no deeper
      than the counter holds, every line carries the prefix and is indented by the number of braces open
      before it, closing lines by one less, and without prefixes and indentation it is the plain text. */
  lemma LogIsIndented(f: Format, ops: seq<Op>)
    requires Shallow(ops, 0) && forall op | op in ops :: BraceFree(op)
    ensures var e := DirectAll(f, Sink("", 0), ops);
      ReadLog(f, e.out, 0) == Some(Reading(BareAll(ops, 0), e.indent))
  {
    ReadAll(f, Sink("", 0), ops, 0, "");
    assert "" + BareAll(ops, 0) == BareAll(ops, 0);
  }

  /** The buffer never holds more than its limit, and is posted only when it would. */
  lemma {:induction false} BufferIsBounded(f: Format, a: Async, steps: seq<Step>)
    requires |a.buff| <= f.maxBuffer && Legal(f, a, steps)
    ensures |Run(f, a, steps).buff| <= f.maxBuffer
    decreases |steps|
  {
    if steps != [] {
      BufferIsBounded(f, After(f, a, steps[0]), steps[1..]);
    }
  }

  lemma PostedOnlyWhenFull(f: Format, a: Async, op: Op)
    requires op.Text? || op.Number?
    ensures Foreign(f, a, op).queue == a.queue <==> |a.buff| + |op.s| <= f.maxBuffer
  {
  }

  // ---------------------------------------------------------------- the objects

  class EventQueue {
    var pending: seq<Event>

    constructor ()
      ensures pending == []
    {
      pending := [];
    }

    method Signal(ev: Event)
      modifies this
      ensures pending == old(pending) + [ev]
    {
      pending := pending + [ev];
    }
  }

  /** The log object. `onEventThread` is the comparison with `EventQueue::Thread()` that every
      operation makes; `View` is the state the specification above talks about. */
  class Log {
    const format: Format
    const events: EventQueue
    var ostr: string
    var indent: nat
    var buff: string

    ghost function View(): Async
      reads this, events
    {
      Async(Sink(ostr, indent), events.pending, buff)
    }

    ghost predicate Did(before: Async, onEventThread: bool, op: Op)
      reads this, events
    {
      if onEventThread then View() == before.(sink := Direct(format, before.sink, op))
      else View() == Foreign(format, before, op)
    }

    constructor (format: Format, events: EventQueue)
      ensures View() == Async(Sink("", 0), events.pending, "")
      ensures this.format == format && this.events == events
    {
      this.format := format;
      this.events := events;
      ostr, indent, buff := "", 0, "";
    }

    /** The prefix, with the nested loops that print the indentation. */
    method WriteLineStart()
      modifies this`ostr
      ensures ostr == old(ostr) + LineStart(format, indent)
    {
      ostr := ostr + (format.time + " " + format.name + " [" + format.msg + "] :: ");
      ghost var start := ostr;
      for i := 0 to indent
        invariant ostr == start + Spaces(i * format.indentSize)
      {
        ghost var line := ostr;
        for j := 0 to format.indentSize
          invariant ostr == line + Spaces(j)
        {
          ostr := ostr + [' '];
        }
        SpacesAdd(i, format.indentSize);
      }
    }

    method Endl(onEventThread: bool)
      modifies this, events
      ensures Did(old(View()), onEventThread, Op.Endl)
    {
      if !onEventThread {
        events.Signal(EndlText(buff));
        buff := "";
      } else {
        ostr := ostr + "\n";
        WriteLineStart();
      }
    }

    method Flush(onEventThread: bool)
      modifies this, events
      ensures Did(old(View()), onEventThread, Op.Flush)
    {
      if !onEventThread {
        events.Signal(FlushText(buff));
        buff := "";
      }
    }

    method BeginActions()
      modifies this`ostr, this`indent
      ensures View().sink == Begin(format, old(View().sink))
    {
      ostr := ostr + "\n";
      WriteLineStart();
      indent := (indent + 1) % 256;
      ostr := ostr + "{\n";
      WriteLineStart();
    }

    method EndActions()
      modifies this`ostr, this`indent
      ensures View().sink == End(format, old(View().sink))
    {
      if indent > 0 {
        ostr := ostr + "\n";
        indent := indent - 1;
        WriteLineStart();
        ostr := ostr + "}";
      }
    }

    method Catb(onEventThread: bool)
      modifies this, events
      ensures Did(old(View()), onEventThread, Op.Catb)
    {
      if !onEventThread {
        Flush(false);
        events.Signal(CatBegin);
      } else {
        BeginActions();
      }
    }

    method Cate(onEventThread: bool)
      modifies this, events
      ensures Did(old(View()), onEventThread, Op.Cate)
    {
      if !onEventThread {
        Flush(false);
        events.Signal(CatEnd);
      } else {
        EndActions();
      }
    }

    /** `operator<<(std::string)`: buffer, or split at each newline and write piece by piece. */
    method WriteText(text: string, onEventThread: bool)
      modifies this, events
      ensures Did(old(View()), onEventThread, Op.Text(text))
    {
      if !onEventThread {
        buff := buff + text;
        if |buff| > format.maxBuffer {
          Flush(false);
        }
      } else {
        var val := text;
        var loc := FirstOf(val, '\n');
        while loc < |val|
          invariant loc == FirstOf(val, '\n')
          invariant ostr + Rendered(format, indent, val) == old(ostr) + Rendered(format, indent, text)
          invariant indent == old(indent) && buff == old(buff) && events.pending == old(events.pending)
          decreases |val|
        {
          assert val == val[..loc] + ("\n" + val[loc + 1..]);
          RenderedUpToNewline(format, indent, val[..loc], val[loc + 1..], ostr);
          ostr := ostr + val[..loc] + "\n";
          WriteLineStart();
          val := val[loc + 1..];
          loc := FirstOf(val, '\n');
        }
        RenderedPlain(format, indent, val);
        ostr := ostr + val;
      }
    }

    /** The `oprcon` operators: the number has already been formatted. */
    method WriteNumber(text: string, onEventThread: bool)
      modifies this, events
      ensures Did(old(View()), onEventThread, Op.Number(text))
    {
      if !onEventThread {
        buff := buff + text;
        if |buff| > format.maxBuffer {
          Flush(false);
        }
      } else {
        ostr := ostr + text;
      }
    }

    /** The event thread takes the oldest log event and runs it. */
    method RunOldest()
      requires events.pending != []
      modifies this, events
      ensures View() == Drained(format, old(View()))
    {
      var ev := events.pending[0];
      events.pending := events.pending[1..];
      match ev
      case EndlText(t) =>
        ostr := ostr + t;
        Endl(true);
      case FlushText(t) =>
        WriteText(t, true);
        Flush(true);
      case CatBegin => BeginActions();
      case CatEnd => EndActions();
    }
  }

  lemma SpacesAdd(i: nat, n: nat)
    ensures i * n + n == (i + 1) * n
    ensures Spaces(i * n) + Spaces(n) == Spaces((i + 1) * n)
  {
  }

  lemma {:induction false} RenderedPlain(f: Format, indent: nat, text: string)
    requires '\n' !in text
    ensures Rendered(f, indent, text) == text
  {
    if text != "" {
      RenderedPlain(f, indent, text[1..]);
      assert text == [text[0]] + text[1..];
    }
  }

  lemma RenderedNewline(f: Format, indent: nat, tail: string)
    ensures Rendered(f, indent, "\n" + tail) == "\n" + LineStart(f, indent) + Rendered(f, indent, tail)
  {
  }

  /** Writing up to the first newline, a newline and a prefix leaves the rest of the text to write. */
  lemma RenderedUpToNewline(f: Format, indent: nat, head: string, tail: string, out: string)
    requires '\n' !in head
    ensures out + head + "\n" + LineStart(f, indent) + Rendered(f, indent, tail)
         == out + Rendered(f, indent, head + ("\n" + tail))
  {
    RenderedAppend(f, indent, head, "\n" + tail);
    RenderedPlain(f, indent, head);
    RenderedNewline(f, indent, tail);
    Regroup(out, head, LineStart(f, indent), Rendered(f, indent, tail));
  }

  lemma Regroup(a: string, b: string, c: string, d: string)
    ensures a + b + "\n" + c + d == a + (b + ("\n" + c + d))
  {
  }
}
