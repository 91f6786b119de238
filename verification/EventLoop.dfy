/** The queue protocol of scheduler/include/Event.hpp and the loop of scheduler/src/Event.cpp. */
module EventProtocol {

  type Event = int

  /** The one consumer thread. `Broken` is `front()` on an empty queue. */
  datatype Consumer = AtLock | Waiting | Woken | Executing(ev: Event) | Broken

  datatype State = State(queue: seq<Event>, consumer: Consumer, pushed: seq<Event>, executed: seq<Event>)

  /** One critical section, one return of `wait`, or the end of an event's execution. Any number
      of threads push; `Spurious` is a return of `wait` that nobody asked for. */
  datatype Step = Push(ev: Event) | Lock | Finish | Spurious

  const INITIAL := State([], AtLock, [], [])

  predicate Enabled(s: State, step: Step) {
    match step
    case Push(_) => true
    case Lock => s.consumer.AtLock? || s.consumer.Woken?
    case Finish => s.consumer.Executing?
    case Spurious => s.consumer.Waiting?
  }

  function Pop(s: State): State {
    if s.queue == [] then s.(consumer := Broken)
    else s.(consumer := Executing(s.queue[0]), queue := s.queue[1..])
  }

  /** The test before `wait` is an `if`: a woken consumer pops without looking again. */
  function Apply(s: State, step: Step): State
    requires Enabled(s, step)
  {
    match step
    case Push(ev) =>
      s.(queue := s.queue + [ev], pushed := s.pushed + [ev],
         consumer := if s.consumer.Waiting? then Woken else s.consumer)
    case Lock => if s.consumer.AtLock? && s.queue == [] then s.(consumer := Waiting) else Pop(s)
    case Finish => s.(consumer := AtLock, executed := s.executed + [s.consumer.ev])
    case Spurious => s.(consumer := Woken)
  }

  predicate Legal(s: State, steps: seq<Step>)
    decreases |steps|
  {
    steps == [] || (Enabled(s, steps[0]) && Legal(Apply(s, steps[0]), steps[1..]))
  }

  function Run(s: State, steps: seq<Step>): State
    requires Legal(s, steps)
    decreases |steps|
  {
    if steps == [] then s else Run(Apply(s, steps[0]), steps[1..])
  }

  function InHand(s: State): seq<Event> {
    if s.consumer.Executing? then [s.consumer.ev] else []
  }

  /** The events pushed, in order. */
  function Pushes(steps: seq<Step>): seq<Event> {
    if steps == [] then []
    else (if steps[0].Push? then [steps[0].ev] else []) + Pushes(steps[1..])
  }

  /** How many events came to their end. */
  function Finishes(steps: seq<Step>): nat {
    if steps == [] then 0 else (if steps[0].Finish? then 1 else 0) + Finishes(steps[1..])
  }

  /** `pushed` and `executed` say what happened: what the schedule pushed, in order, and one event for
      each end of an execution. */
  lemma {:induction false} HistoryIsRun(s: State, steps: seq<Step>)
    requires Legal(s, steps)
    ensures Run(s, steps).pushed == s.pushed + Pushes(steps)
    ensures |Run(s, steps).executed| == |s.executed| + Finishes(steps)
    decreases |steps|
  {
    if steps != [] {
      HistoryIsRun(Apply(s, steps[0]), steps[1..]);
    }
  }

  lemma PushedIsPushes(steps: seq<Step>)
    requires Legal(INITIAL, steps)
    ensures Run(INITIAL, steps).pushed == Pushes(steps) && |Run(INITIAL, steps).executed| == Finishes(steps)
  {
    HistoryIsRun(INITIAL, steps);
    assert [] + Pushes(steps) == Pushes(steps);
  }

  /** What the schedule pushed is what has been executed, what is in hand and what is queued, in order. */
  ghost predicate InOrder(steps: seq<Step>)
    requires Legal(INITIAL, steps)
  {
    var t := Run(INITIAL, steps);
    Pushes(steps) == t.executed + InHand(t) + t.queue && |t.executed| == Finishes(steps)
  }

  ghost predicate Inv(s: State) {
    && !s.consumer.Broken?
    && (s.consumer.Woken? ==> s.queue != [])
    && (s.consumer.Waiting? ==> s.queue == [])
    && s.pushed == s.executed + InHand(s) + s.queue
  }

  lemma {:induction false} RunKeepsInv(s: State, steps: seq<Step>)
    requires Inv(s) && Legal(s, steps) && Spurious !in steps
    ensures Inv(Run(s, steps))
    decreases |steps|
  {
    if steps != [] {
      assert steps[0] in steps;
      var t := Apply(s, steps[0]);
      if steps[0].Push? {
        assert t.pushed == t.executed + InHand(t) + t.queue;
      }
      RunKeepsInv(t, steps[1..]);
    }
  }

  /** With any number of pushing threads and no spurious wakeup: the loop never takes from an empty
      queue, never waits while work is queued, and executes the pushed events in order, each once. */
  lemma LoopIsSafe(steps: seq<Step>)
    requires Legal(INITIAL, steps) && Spurious !in steps
    ensures var t := Run(INITIAL, steps);
      !t.consumer.Broken? && (t.consumer.Waiting? ==> t.queue == []) && InOrder(steps)
  {
    RunKeepsInv(INITIAL, steps);
    PushedIsPushes(steps);
  }

  /** One spurious wakeup at the wrong moment is enough to break it. */
  lemma SpuriousWakeupBreaksIt()
    ensures Legal(INITIAL, [Lock, Spurious, Lock])
    ensures Run(INITIAL, [Lock, Spurious, Lock]).consumer.Broken?
  {
  }

  /** A condition on the schedule alone: between a spurious wakeup and the consumer's next step with
      the lock something is pushed. `hungry` says that one is still to be fed. */
  predicate Fed(steps: seq<Step>, hungry: bool) {
    steps == [] ||
    match steps[0]
    case Push(_) => Fed(steps[1..], false)
    case Spurious => Fed(steps[1..], true)
    case Lock => !hungry && Fed(steps[1..], false)
    case Finish => Fed(steps[1..], hungry)
  }

  /** What survives spurious wakeups. */
  ghost predicate Intact(s: State) {
    && !s.consumer.Broken?
    && (s.consumer.Waiting? ==> s.queue == [])
    && s.pushed == s.executed + InHand(s) + s.queue
  }

  lemma {:induction false} BrokenForGood(s: State, steps: seq<Step>)
    requires s.consumer.Broken? && Legal(s, steps)
    ensures Run(s, steps).consumer.Broken?
    decreases |steps|
  {
    if steps != [] {
      BrokenForGood(Apply(s, steps[0]), steps[1..]);
    }
  }

  lemma {:induction false} IntactIffFed(s: State, steps: seq<Step>, hungry: bool)
    requires Intact(s) && Legal(s, steps)
    requires hungry <==> s.consumer.Woken? && s.queue == []
    ensures var t := Run(s, steps);
      && (!t.consumer.Broken? <==> Fed(steps, hungry))
      && (Fed(steps, hungry) ==> Intact(t))
    decreases |steps|
  {
    if steps != [] {
      var t := Apply(s, steps[0]);
      match steps[0] {
        case Push(_) =>
          assert t.pushed == t.executed + InHand(t) + t.queue;
          IntactIffFed(t, steps[1..], false);
        case Spurious => IntactIffFed(t, steps[1..], true);
        case Lock =>
          if hungry {
            BrokenForGood(t, steps[1..]);
          } else {
            IntactIffFed(t, steps[1..], false);
          }
        case Finish => IntactIffFed(t, steps[1..], hungry);
      }
    }
  }

  /** With spurious wakeups: the loop never takes from an empty queue, and executes what was pushed in
      order, if and only if every spurious wakeup is followed by a push before the consumer's next
      step with the lock. */
  lemma SafeIffFed(steps: seq<Step>)
    requires Legal(INITIAL, steps)
    ensures var t := Run(INITIAL, steps);
      && (!t.consumer.Broken? <==> Fed(steps, false))
      && (Fed(steps, false) ==> InOrder(steps))
  {
    IntactIffFed(INITIAL, steps, false);
    PushedIsPushes(steps);
  }
}

module EventLoop {
  import opened Basics
  import opened Logging

  const NO_NAME := "no_name"

  /** An event: its name, what its functor logs until it returns or throws, and whether it throws;
      then what the loop's update functor logs after it, and whether that throws. */
  datatype UserEvent = UserEvent(name: string, body: seq<Op>, terminates: bool, update: seq<Op>, updateTerminates: bool)
  {
    predicate IsLast() {
      terminates || updateTerminates
    }

    function UpdateOps(): seq<Op> {
      if terminates then [] else update
    }

    predicate IsBalanced() {
      Balanced(body, 0) && Balanced(update, 0)
    }
  }

  function Opening(name: string): seq<Op> {
    [Text("EVENT_START[ "), Text(name), Text(" ] "), Catb]
  }

  /** What one event logs with its bracket, given whether `logging` was set when it began. */
  function EventOps(verbose: bool, logging: bool, ev: UserEvent): seq<Op> {
    var logged := ev.name != NO_NAME && verbose;
    (if logged then Opening(ev.name) else []) + ev.body + (if logged || logging then [Cate] else [])
  }

  /** One turn of the loop: the event, then the update functor unless the event has thrown. */
  function TurnOps(verbose: bool, logging: bool, ev: UserEvent): seq<Op> {
    EventOps(verbose, logging, ev) + ev.UpdateOps()
  }

  function LoopOps(verbose: bool, logging: bool, evs: seq<UserEvent>): seq<Op> {
    if evs == [] then []
    else TurnOps(verbose, logging, evs[0]) + (if evs[0].IsLast() then [] else LoopOps(verbose, false, evs[1..]))
  }

  // ---------------------------------------------------------------- what is logged besides the brackets

  /** What the functors log on their own, up to the one that throws. */
  function FunctorOps(evs: seq<UserEvent>): seq<Op> {
    if evs == [] then []
    else evs[0].body + (if evs[0].terminates then []
                        else evs[0].update + (if evs[0].updateTerminates then [] else FunctorOps(evs[1..])))
  }

  /** The events logged with a bracket. */
  function Bracketed(verbose: bool, evs: seq<UserEvent>): nat {
    if evs == [] then 0
    else (if verbose && evs[0].name != "no_name" then 1 else 0)
         + if evs[0].terminates || evs[0].updateTerminates then 0 else Bracketed(verbose, evs[1..])
  }

  /** `a` is `b` with some operations left out. */
  predicate Subsequence(a: seq<Op>, b: seq<Op>)
    decreases |b|
  {
    a == [] || (b != [] && ((a[0] == b[0] && Subsequence(a[1..], b[1..])) || Subsequence(a, b[1..])))
  }

  lemma {:induction false} SubsequenceAfter(a: seq<Op>, extra: seq<Op>, b: seq<Op>)
    requires Subsequence(a, b)
    ensures Subsequence(a, extra + b)
    decreases |extra|
  {
    if extra == [] {
      assert extra + b == b;
    } else {
      assert (extra + b)[1..] == extra[1..] + b;
      SubsequenceAfter(a, extra[1..], b);
    }
  }

  lemma {:induction false} SubsequenceBoth(same: seq<Op>, a: seq<Op>, b: seq<Op>)
    requires Subsequence(a, b)
    ensures Subsequence(same + a, same + b)
    decreases |same|
  {
    if same == [] {
      assert same + a == a && same + b == b;
    } else {
      assert (same + a)[1..] == same[1..] + a && (same + b)[1..] == same[1..] + b;
      SubsequenceBoth(same[1..], a, b);
    }
  }

  lemma TurnLogsFunctors(open: seq<Op>, body: seq<Op>, close: seq<Op>, update: seq<Op>, functors: seq<Op>, rest: seq<Op>)
    requires Subsequence(functors, rest)
    ensures Subsequence(body + (update + functors), open + (body + (close + (update + rest))))
  {
    SubsequenceBoth(update, functors, rest);
    SubsequenceAfter(update + functors, close, update + rest);
    SubsequenceBoth(body, update + functors, close + (update + rest));
    SubsequenceAfter(body + (update + functors), open, body + (close + (update + rest)));
  }

  lemma Grouped(a: seq<Op>, b: seq<Op>, c: seq<Op>, d: seq<Op>, e: seq<Op>)
    ensures a + b + c + d + e == a + (b + (c + (d + e)))
  {
  }

  /** The loop logs what the functors log, in order and in full, and besides five operations for each
      event with a bracket, and one stray closing if `logging` happened to be set before an event
      without one. */
  lemma {:induction false} LoopLogsFunctors(verbose: bool, logging: bool, evs: seq<UserEvent>)
    ensures Subsequence(FunctorOps(evs), LoopOps(verbose, logging, evs))
    ensures |LoopOps(verbose, logging, evs)| == |FunctorOps(evs)| + 5 * Bracketed(verbose, evs)
      + if StrayCate(verbose, logging, evs) then 1 else 0
  {
    if evs != [] {
      var ev := evs[0];
      var logged := ev.name != NO_NAME && verbose;
      var open := if logged then Opening(ev.name) else [];
      var close := if logged || logging then [Cate] else [];
      var rest := if ev.IsLast() then [] else LoopOps(verbose, false, evs[1..]);
      var functors := if ev.IsLast() then [] else FunctorOps(evs[1..]);
      if !ev.IsLast() {
        LoopLogsFunctors(verbose, false, evs[1..]);
      }
      TurnLogsFunctors(open, ev.body, close, ev.UpdateOps(), functors, rest);
      assert FunctorOps(evs) == ev.body + (ev.UpdateOps() + functors);
      Grouped(open, ev.body, close, ev.UpdateOps(), rest);
    }
  }

  lemma OneMoreOp(f: Format, s: Sink, op: Op, ops: seq<Op>)
    ensures DirectAll(f, s, [op] + ops) == DirectAll(f, Direct(f, s, op), ops)
  {
    assert ([op] + ops)[1..] == ops;
  }

  lemma PlainText(f: Format, s: Sink, text: string)
    requires '\n' !in text
    ensures Direct(f, s, Text(text)) == Raw(s, text)
  {
    RenderedPlain(f, s.indent, text);
  }

  lemma OpeningText(f: Format, s: Sink, name: string)
    requires '\n' !in name
    ensures DirectAll(f, s, Opening(name)) == Begin(f, Raw(Raw(Raw(s, "EVENT_START[ "), name), " ] "))
  {
    var s1 := Raw(s, "EVENT_START[ ");
    var s2 := Raw(s1, name);
    PlainText(f, s, "EVENT_START[ ");
    PlainText(f, s1, name);
    PlainText(f, s2, " ] ");
    OneMoreOp(f, s, Text("EVENT_START[ "), [Text(name), Text(" ] "), Catb]);
    OneMoreOp(f, s1, Text(name), [Text(" ] "), Catb]);
    OneMoreOp(f, s2, Text(" ] "), [Catb]);
    OneMoreOp(f, Raw(s2, " ] "), Catb, []);
    OpeningParts(name);
  }

  lemma OpeningParts(name: string)
    ensures Opening(name) == [Text("EVENT_START[ ")] + [Text(name), Text(" ] "), Catb]
    ensures [Text(name), Text(" ] "), Catb] == [Text(name)] + [Text(" ] "), Catb]
    ensures [Text(" ] "), Catb] == [Text(" ] ")] + [Catb] && [Catb] == [Catb] + []
  {
  }

  /** What the opening of a logged event looks like on the stream: the event's name in its text, a brace
      on a line of its own, and everything up to the closing one indented by one level more. */
  lemma OpeningShown(f: Format, s: Sink, name: string)
    requires '\n' !in name && s.indent < 255
    ensures var shown := DirectAll(f, s, Opening(name));
      && shown.indent == s.indent + 1
      && shown.out == s.out + "EVENT_START[ " + name + " ] " + "\n" + LineStart(f, s.indent) + "{\n" + LineStart(f, s.indent + 1)
  {
    OpeningText(f, s, name);
  }

  // ---------------------------------------------------------------- indentation

  predicate Balanced(ops: seq<Op>, depth: nat) {
    if ops == [] then depth == 0
    else match ops[0]
      case Catb => Balanced(ops[1..], depth + 1)
      case Cate => depth > 0 && Balanced(ops[1..], depth - 1)
      case _ => Balanced(ops[1..], depth)
  }

  /** The deepest nesting reached, counted from `depth`. */
  function Peak(ops: seq<Op>, depth: nat): nat {
    if ops == [] then depth
    else match ops[0]
      case Catb => Max(depth, Peak(ops[1..], depth + 1))
      case Cate => Max(depth, Peak(ops[1..], if depth > 0 then depth - 1 else 0))
      case _ => Peak(ops[1..], depth)
  }

  lemma {:induction false} PeakAtLeast(ops: seq<Op>, depth: nat)
    ensures Peak(ops, depth) >= depth
  {
    if ops != [] && !ops[0].Catb? && !ops[0].Cate? {
      PeakAtLeast(ops[1..], depth);
    }
  }

  /** Once the 8-bit counter has wrapped, a balanced rest always ends at zero. */
  lemma {:induction false} AfterWrap(f: Format, s: Sink, ops: seq<Op>, depth: nat)
    requires Balanced(ops, depth) && s.indent <= depth
    ensures DirectAll(f, s, ops).indent == 0
    decreases |ops|
  {
    if ops != [] {
      AfterWrap(f, Direct(f, s, ops[0]), ops[1..],
        match ops[0] { case Catb => depth + 1 case Cate => depth - 1 case _ => depth });
    }
  }

  lemma {:induction false} IndentFrom(f: Format, s: Sink, ops: seq<Op>, entry: nat, depth: nat)
    requires Balanced(ops, depth) && s.indent == entry + depth <= 255
    ensures DirectAll(f, s, ops).indent == if entry + Peak(ops, depth) <= 255 then entry else 0
    decreases |ops|
  {
    if ops != [] {
      var s1 := Direct(f, s, ops[0]);
      match ops[0]
      case Catb =>
        PeakAtLeast(ops[1..], depth + 1);
        if s.indent == 255 {
          AfterWrap(f, s1, ops[1..], depth + 1);
        } else {
          IndentFrom(f, s1, ops[1..], entry, depth + 1);
        }
      case Cate => IndentFrom(f, s1, ops[1..], entry, depth - 1);
      case _ => IndentFrom(f, s1, ops[1..], entry, depth);
    }
  }

  /** A balanced log restores the indentation exactly when the 8-bit counter does not overflow,
      or the indentation was zero anyway. */
  lemma BalancedRestoresIndent(f: Format, s: Sink, ops: seq<Op>)
    requires Balanced(ops, 0) && s.indent <= 255
    ensures DirectAll(f, s, ops).indent == s.indent <==> s.indent == 0 || s.indent + Peak(ops, 0) <= 255
  {
    IndentFrom(f, s, ops, s.indent, 0);
  }

  lemma {:induction false} BalancedAppend(a: seq<Op>, b: seq<Op>, depth: nat, inner: nat)
    requires Balanced(a, inner) && Balanced(b, depth)
    ensures Balanced(a + b, inner + depth)
    ensures Peak(a + b, inner + depth) == Max(Peak(a, inner) + depth, Peak(b, depth))
    decreases |a|
  {
    PeakAtLeast(b, depth);
    if a == [] {
      assert a + b == b;
    } else {
      assert (a + b)[1..] == a[1..] + b;
      PeakAtLeast(a, inner);
      BalancedAppend(a[1..], b, depth,
        match a[0] { case Catb => inner + 1 case Cate => inner - 1 case _ => inner });
    }
  }

  /** Nesting of one event: the body's, and one more when the event is logged. */
  function EventPeak(verbose: bool, ev: UserEvent): nat {
    Peak(ev.body, 0) + if ev.name != NO_NAME && verbose then 1 else 0
  }

  lemma PlainOp(op: Op, ops: seq<Op>, depth: nat)
    requires !op.Catb? && !op.Cate?
    ensures Balanced([op] + ops, depth) == Balanced(ops, depth)
    ensures Peak([op] + ops, depth) == Peak(ops, depth)
  {
  }

  lemma AfterOpening(name: string, ops: seq<Op>)
    ensures Balanced(Opening(name) + ops, 0) == Balanced(ops, 1)
    ensures Peak(Opening(name) + ops, 0) == Peak(ops, 1)
  {
    var group := [Catb] + ops;
    assert group[1..] == ops;
    PeakAtLeast(ops, 1);
    PlainOp(Text(" ] "), group, 0);
    PlainOp(Text(name), [Text(" ] ")] + group, 0);
    PlainOp(Text("EVENT_START[ "), [Text(name)] + ([Text(" ] ")] + group), 0);
    assert Opening(name) + ops == [Text("EVENT_START[ ")] + ([Text(name)] + ([Text(" ] ")] + group));
  }

  lemma EventIsBalanced(verbose: bool, ev: UserEvent)
    requires Balanced(ev.body, 0)
    ensures Balanced(EventOps(verbose, false, ev), 0)
    ensures Peak(EventOps(verbose, false, ev), 0) == EventPeak(verbose, ev)
  {
    if ev.name != NO_NAME && verbose {
      BalancedAppend(ev.body, [Cate], 1, 0);
      PeakAtLeast(ev.body, 0);
      AfterOpening(ev.name, ev.body + [Cate]);
      assert EventOps(verbose, false, ev) == Opening(ev.name) + (ev.body + [Cate]);
    } else {
      assert EventOps(verbose, false, ev) == ev.body;
    }
  }

  function TurnPeak(verbose: bool, ev: UserEvent): nat {
    Max(EventPeak(verbose, ev), Peak(ev.UpdateOps(), 0))
  }

  lemma TurnIsBalanced(verbose: bool, ev: UserEvent)
    requires ev.IsBalanced()
    ensures Balanced(TurnOps(verbose, false, ev), 0)
    ensures Peak(TurnOps(verbose, false, ev), 0) == TurnPeak(verbose, ev)
  {
    EventIsBalanced(verbose, ev);
    BalancedAppend(EventOps(verbose, false, ev), ev.UpdateOps(), 0, 0);
  }

  /** The deepest nesting of all turns up to the one that terminates. */
  function LoopPeak(verbose: bool, evs: seq<UserEvent>): nat {
    if evs == [] then 0
    else Max(TurnPeak(verbose, evs[0]), if evs[0].IsLast() then 0 else LoopPeak(verbose, evs[1..]))
  }

  lemma {:induction false} LoopIsBalanced(verbose: bool, evs: seq<UserEvent>)
    requires forall ev | ev in evs :: ev.IsBalanced()
    ensures Balanced(LoopOps(verbose, false, evs), 0)
    ensures Peak(LoopOps(verbose, false, evs), 0) == LoopPeak(verbose, evs)
  {
    if evs != [] {
      var rest := if evs[0].IsLast() then [] else LoopOps(verbose, false, evs[1..]);
      TurnIsBalanced(verbose, evs[0]);
      if !evs[0].IsLast() {
        LoopIsBalanced(verbose, evs[1..]);
      }
      BalancedAppend(TurnOps(verbose, false, evs[0]), rest, 0, 0);
    }
  }

  /** The loop closes a category it never opened: `logging` is not initialised, and nothing sets it
      before the first event's own test of it. */
  predicate StrayCate(verbose: bool, logging: bool, evs: seq<UserEvent>) {
    logging && evs != [] && !(evs[0].name != NO_NAME && verbose)
  }

  lemma StrayIsCate(verbose: bool, evs: seq<UserEvent>)
    requires evs != []
    ensures LoopOps(verbose, true, evs) ==
      if StrayCate(verbose, true, evs) then evs[0].body + ([Cate] + AfterFirst(verbose, evs)) else LoopOps(verbose, false, evs)
  {
    if StrayCate(verbose, true, evs) {
      RegroupOps(evs[0].body, [Cate], evs[0].UpdateOps(), if evs[0].IsLast() then [] else LoopOps(verbose, false, evs[1..]));
    }
  }

  lemma RegroupOps(a: seq<Op>, b: seq<Op>, c: seq<Op>, d: seq<Op>)
    ensures [] + a + b + c + d == a + (b + (c + d))
  {
  }

  lemma UpdateIsBalanced(ev: UserEvent)
    requires ev.IsBalanced()
    ensures Balanced(ev.UpdateOps(), 0)
  {
  }

  /** What the loop logs after the first event and its bracket. */
  function AfterFirst(verbose: bool, evs: seq<UserEvent>): seq<Op>
    requires evs != []
  {
    evs[0].UpdateOps() + (if evs[0].IsLast() then [] else LoopOps(verbose, false, evs[1..]))
  }

  lemma AfterFirstIsBalanced(verbose: bool, evs: seq<UserEvent>)
    requires evs != [] && forall ev | ev in evs :: ev.IsBalanced()
    ensures Balanced(AfterFirst(verbose, evs), 0)
  {
    var rest := if evs[0].IsLast() then [] else LoopOps(verbose, false, evs[1..]);
    if !evs[0].IsLast() {
      LoopIsBalanced(verbose, evs[1..]);
    }
    assert evs[0] in evs;
    UpdateIsBalanced(evs[0]);
    BalancedAppend(evs[0].UpdateOps(), rest, 0, 0);
  }

  /** Balanced operations never raise the indentation they started with. */
  lemma BalancedNeverRaises(f: Format, s: Sink, ops: seq<Op>)
    requires Balanced(ops, 0) && s.indent <= 255
    ensures DirectAll(f, s, ops).indent <= s.indent
  {
    IndentFrom(f, s, ops, s.indent, 0);
  }

  lemma StrayLowersIndent(f: Format, s: Sink, verbose: bool, evs: seq<UserEvent>)
    requires s.indent <= 255 && evs != [] && forall ev | ev in evs :: ev.IsBalanced()
    ensures DirectAll(f, s, evs[0].body + ([Cate] + AfterFirst(verbose, evs))).indent
         <= if s.indent == 0 then 0 else s.indent - 1
  {
    var after := AfterFirst(verbose, evs);
    var s1 := DirectAll(f, s, evs[0].body);
    DirectAllAppend(f, s, evs[0].body, [Cate] + after);
    assert evs[0] in evs && evs[0].IsBalanced();
    BalancedNeverRaises(f, s, evs[0].body);
    assert ([Cate] + after)[1..] == after;
    AfterFirstIsBalanced(verbose, evs);
    BalancedNeverRaises(f, Direct(f, s1, Cate), after);
  }

  /** On leaving the loop, also by `Terminate` inside a logged event, whatever the uninitialised
      `logging` started as, the indentation is what it was on entry if and only if it was zero, or
      `logging` did not start true before an event that is not logged and no event nests so deep
      that the 8-bit counter overflows, provided every functor's own categories are balanced. */
  lemma LoopRestoresIndent(f: Format, s: Sink, verbose: bool, logging: bool, evs: seq<UserEvent>)
    requires s.indent <= 255 && forall ev | ev in evs :: ev.IsBalanced()
    ensures DirectAll(f, s, LoopOps(verbose, logging, evs)).indent == s.indent
       <==> s.indent == 0 || (!StrayCate(verbose, logging, evs) && s.indent + LoopPeak(verbose, evs) <= 255)
  {
    LoopIsBalanced(verbose, evs);
    BalancedRestoresIndent(f, s, LoopOps(verbose, false, evs));
    if logging && evs != [] {
      StrayIsCate(verbose, evs);
      StrayLowersIndent(f, s, verbose, evs);
    }
  }

  /** The smallest case: `logging` starts true and the first event is not logged. */
  lemma UninitialisedLoggingShifts(f: Format, s: Sink, verbose: bool)
    requires 0 < s.indent <= 255
    ensures var stop := UserEvent(NO_NAME, [], true, [], false);
      DirectAll(f, s, LoopOps(verbose, true, [stop])).indent == s.indent - 1
  {
  }

  lemma {:induction false} DirectAllAppend(f: Format, s: Sink, a: seq<Op>, b: seq<Op>)
    ensures DirectAll(f, s, a + b) == DirectAll(f, DirectAll(f, s, a), b)
    decreases |a|
  {
    if a == [] {
      assert a + b == b;
    } else {
      assert (a + b)[1..] == a[1..] + b;
      DirectAllAppend(f, Direct(f, s, a[0]), a[1..], b);
    }
  }

  /** Runs one operation of an event's functor; the functor runs on the event thread. */
  method Perform(log: Log, op: Op)
    modifies log, log.events
    ensures log.View() == old(log.View()).(sink := Direct(log.format, old(log.View()).sink, op))
  {
    match op
    case Text(t) => log.WriteText(t, true);
    case Number(t) => log.WriteNumber(t, true);
    case Endl => log.Endl(true);
    case Flush => log.Flush(true);
    case Catb => log.Catb(true);
    case Cate => log.Cate(true);
  }

  method PerformAll(log: Log, ops: seq<Op>)
    modifies log, log.events
    ensures log.View() == old(log.View()).(sink := DirectAll(log.format, old(log.View()).sink, ops))
  {
    var i := 0;
    assert ops[0..] == ops;
    while i < |ops|
      invariant i <= |ops|
      invariant log.View() == old(log.View()).(sink := log.View().sink)
      invariant DirectAll(log.format, log.View().sink, ops[i..]) == DirectAll(log.format, old(log.View()).sink, ops)
    {
      assert ops[i..][1..] == ops[i + 1..];
      Perform(log, ops[i]);
      i := i + 1;
    }
  }

  lemma OneEvent(f: Format, s: Sink, verbose: bool, logging: bool, ev: UserEvent)
    ensures var logged := ev.name != NO_NAME && verbose;
            var s1 := if logged then DirectAll(f, s, Opening(ev.name)) else s;
            var s2 := DirectAll(f, s1, ev.body);
      DirectAll(f, s, EventOps(verbose, logging, ev)) == if logged || logging then Direct(f, s2, Cate) else s2
  {
    var logged := ev.name != NO_NAME && verbose;
    var a := if logged then Opening(ev.name) else [];
    var c := if logged || logging then [Cate] else [];
    DirectAllAppend(f, s, a + ev.body, c);
    DirectAllAppend(f, s, a, ev.body);
    assert [Cate][1..] == [];
  }

  /** One turn of the loop, or the last one with the handler that ends it: the functor's own log
      output inside the bracket that `logging` controls, and the update functor. */
  method Turn(log: Log, verbose: bool, logging0: bool, ev: UserEvent) returns (logging: bool)
    modifies log, log.events
    ensures !logging
    ensures log.View() == old(log.View()).(sink := DirectAll(log.format, old(log.View()).sink, TurnOps(verbose, logging0, ev)))
  {
    logging := logging0;
    OneEvent(log.format, log.View().sink, verbose, logging0, ev);
    DirectAllAppend(log.format, log.View().sink, EventOps(verbose, logging0, ev), ev.UpdateOps());
    if ev.name != NO_NAME && verbose {
      PerformAll(log, Opening(ev.name));
      logging := true;
    }
    PerformAll(log, ev.body);
    if logging {
      Perform(log, Cate);
      logging := false;
    }
    if !ev.terminates {
      PerformAll(log, ev.update);
    }
  }

  /** Some turn throws. */
  predicate Ends(evs: seq<UserEvent>) {
    evs != [] && (evs[0].IsLast() || Ends(evs[1..]))
  }

  /** The events still to come after the first one of `evs`. */
  function Remaining(evs: seq<UserEvent>): seq<UserEvent>
    requires evs != []
  {
    if evs[0].IsLast() then [] else evs[1..]
  }

  lemma FirstTurn(f: Format, s: Sink, verbose: bool, logging: bool, evs: seq<UserEvent>)
    requires evs != []
    ensures DirectAll(f, s, LoopOps(verbose, logging, evs))
         == DirectAll(f, DirectAll(f, s, TurnOps(verbose, logging, evs[0])), LoopOps(verbose, false, Remaining(evs)))
  {
    DirectAllAppend(f, s, TurnOps(verbose, logging, evs[0]), LoopOps(verbose, false, Remaining(evs)));
  }

  /** `enter`, from the first event it takes to the turn in which `FlowController` is thrown. `evs` are the
      events in the order the queue hands them over; `logging0` is whatever the local starts as. */
  method Enter(log: Log, verbose: bool, logging0: bool, evs: seq<UserEvent>)
    requires Ends(evs)
    modifies log, log.events
    ensures log.View() == old(log.View()).(sink := DirectAll(log.format, old(log.View()).sink, LoopOps(verbose, logging0, evs)))
  {
    var logging, queue := logging0, evs;
    ghost var f, goal := log.format, DirectAll(log.format, log.View().sink, LoopOps(verbose, logging0, evs));
    while true
      invariant Ends(queue)
      invariant log.View() == old(log.View()).(sink := log.View().sink)
      invariant goal == DirectAll(f, log.View().sink, LoopOps(verbose, logging, queue))
      decreases |queue|
    {
      var ev := queue[0];
      FirstTurn(f, log.View().sink, verbose, logging, queue);
      logging := Turn(log, verbose, logging, ev);
      queue := queue[1..];
      if ev.IsLast() {
        return;
      }
    }
  }
}
