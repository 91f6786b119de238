/** The history fields of module Stones say what happened: the requests are those asked for, and the
    draws are taken in order. */
module StonesHistory {
  import opened Basics
  import opened Bytes
  import opened Chain
  import opened Downloads
  import opened Stones
  import opened StonesSafety

  // ---------------------------------------------------------------- what a step leaves alone

  /** The line a thread works on, and a connection's place in it, never change. */
  predicate SameThread(x: Thread, y: Thread) {
    y.proc == x.proc && y.order == x.order && y.trip == x.trip && (y.sock.Absent? <==> x.sock.Absent?)
  }

  predicate SameConn(c: Connection, d: Connection) {
    d.from == c.from && d.order == c.order && d.trip == c.trip
  }

  ghost predicate HistoryKept(w: World, v: World) {
    && |w.threads| <= |v.threads| && (forall t | 0 <= t < |w.threads| :: SameThread(w.threads[t], v.threads[t]))
    && |w.conns| <= |v.conns| && (forall c | 0 <= c < |w.conns| :: SameConn(w.conns[c], v.conns[c]))
    && |w.procs| == |v.procs|
  }

  ghost predicate TicksKept(w: World, v: World) {
    |w.procs| == |v.procs| && forall p | 0 <= p < |w.procs| :: v.procs[p].tick == w.procs[p].tick
  }

  lemma FetchKeepsHistory(env: Env, w: World, t: nat, call: Call)
    requires t < |w.threads| && w.threads[t].proc < |w.procs| && CanCall(env, w, t, call) && OfFetch(call)
    ensures var v := Perform(env, w, t, call);
      HistoryKept(w, v) && TicksKept(w, v) && |v.threads| == |w.threads| && |v.conns| == |w.conns|
  {
  }

  lemma SendingKeepsHistory(env: Env, w: World, t: nat, call: Call)
    requires t < |w.threads| && w.threads[t].proc < |w.procs| && CanCall(env, w, t, call) && (call.SendHeader? || call.SendElement?)
    ensures var v := Perform(env, w, t, call);
      HistoryKept(w, v) && TicksKept(w, v) && |v.threads| == |w.threads| && |v.conns| == |w.conns|
  {
  }

  lemma ReceivingKeepsHistory(env: Env, w: World, t: nat, call: Call)
    requires t < |w.threads| && w.threads[t].proc < |w.procs| && CanCall(env, w, t, call) && (call.RecvHeader? || call.RecvElement?)
    ensures var v := Perform(env, w, t, call);
      HistoryKept(w, v) && TicksKept(w, v) && |v.threads| == |w.threads| && |v.conns| == |w.conns|
  {
  }

  lemma ClosingKeepsHistory(env: Env, w: World, t: nat, call: Call)
    requires t < |w.threads| && w.threads[t].proc < |w.procs| && CanCall(env, w, t, call) && (call.CloseOut? || call.CloseSock?)
    ensures var v := Perform(env, w, t, call);
      HistoryKept(w, v) && TicksKept(w, v) && |v.threads| == |w.threads| && |v.conns| == |w.conns|
  {
  }

  lemma PassingKeepsHistory(w: World, t: nat, n: nat)
    requires t < |w.threads| && w.threads[t].proc < |w.procs| && w.threads[t].out.Open?
    requires BackReady(w, w.threads[t].proc, w.threads[t].out.number, n)
    ensures var v := PassChunk(w, t, n);
      HistoryKept(w, v) && TicksKept(w, v) && |v.threads| == |w.threads| && |v.conns| == |w.conns|
  {
  }

  /** A call other than connecting leaves all of it alone. */
  lemma CallKeepsHistory(env: Env, w: World, t: nat, call: Call)
    requires t < |w.threads| && w.threads[t].proc < |w.procs| && CanCall(env, w, t, call) && !call.Connect?
    ensures var v := Perform(env, w, t, call);
      HistoryKept(w, v) && TicksKept(w, v) && |v.threads| == |w.threads| && |v.conns| == |w.conns|
  {
    if OfFetch(call) {
      FetchKeepsHistory(env, w, t, call);
    } else if call.PassOn? {
      PassingKeepsHistory(w, t, call.n);
    } else if call.SendHeader? || call.SendElement? {
      SendingKeepsHistory(env, w, t, call);
    } else if call.RecvHeader? || call.RecvElement? {
      ReceivingKeepsHistory(env, w, t, call);
    } else {
      ClosingKeepsHistory(env, w, t, call);
    }
  }

  lemma ConnectKeepsHistory(env: Env, w: World, t: nat, n: nat)
    requires t < |w.threads| && w.threads[t].proc < |w.procs| && CanCall(env, w, t, Connect(n))
    ensures var v := ConnectNext(env, w, t, n); HistoryKept(w, v) && |v.threads| == |w.threads|
  {
  }

  // ---------------------------------------------------------------- the requests are those asked for

  function OrderOf(step: Step): seq<Request> {
    if step.Ask? && |step.elements| < 0x1_0000_0000 then [Request(Be32(|step.elements|), step.url, step.elements)] else []
  }

  /** The requests asked for, in order. */
  function Asked(steps: seq<Step>): seq<Request> {
    if steps == [] then [] else OrderOf(steps[0]) + Asked(steps[1..])
  }

  /** The awgets among the threads. */
  function Awgets(threads: seq<Thread>): seq<nat> {
    if threads == [] then []
    else
      var front := threads[..|threads| - 1];
      Awgets(front) + if threads[|threads| - 1].sock.Absent? then [|front|] else []
  }

  lemma {:induction false} AwgetsAscend(threads: seq<Thread>)
    ensures forall i | 0 <= i < |Awgets(threads)| :: Awgets(threads)[i] < |threads| && threads[Awgets(threads)[i]].sock.Absent?
    ensures forall i, j | 0 <= i < j < |Awgets(threads)| :: Awgets(threads)[i] < Awgets(threads)[j]
  {
    if threads != [] {
      AwgetsAscend(threads[..|threads| - 1]);
    }
  }

  lemma {:induction false} SameAwgets(before: seq<Thread>, after: seq<Thread>)
    requires |after| == |before| && forall t | 0 <= t < |before| :: SameThread(before[t], after[t])
    ensures Awgets(after) == Awgets(before)
  {
    if before != [] {
      SameAwgets(before[..|before| - 1], after[..|after| - 1]);
    }
  }

  lemma OneMoreThread(threads: seq<Thread>, th: Thread)
    ensures Awgets(threads + [th]) == Awgets(threads) + if th.sock.Absent? then [|threads|] else []
  {
    assert (threads + [th])[..|threads|] == threads;
  }

  /** The awgets' requests, in order. */
  ghost predicate AwgetsOrder(w: World, asked: seq<Request>) {
    && |Awgets(w.threads)| == |asked|
    && (forall i | 0 <= i < |asked| :: Awgets(w.threads)[i] < |w.threads| && w.threads[Awgets(w.threads)[i]].order == asked[i])
  }

  lemma CallKeepsAwgets(env: Env, w: World, t: nat, call: Call, asked: seq<Request>)
    requires t < |w.threads| && w.threads[t].proc < |w.procs| && CanCall(env, w, t, call) && AwgetsOrder(w, asked)
    ensures AwgetsOrder(Perform(env, w, t, call), asked)
  {
    if call.Connect? {
      ConnectKeepsHistory(env, w, t, call.n);
    } else {
      CallKeepsHistory(env, w, t, call);
    }
    var v := Perform(env, w, t, call);
    SameAwgets(w.threads, v.threads);
    forall i | 0 <= i < |asked| ensures v.threads[Awgets(v.threads)[i]].order == asked[i] {
      assert SameThread(w.threads[Awgets(w.threads)[i]], v.threads[Awgets(w.threads)[i]]);
    }
  }

  lemma NewKeepsAwgets(w: World, v: World, asked: seq<Request>)
    requires AwgetsOrder(w, asked) && |v.threads| == |w.threads| + 1 && w.threads <= v.threads
    ensures var th := v.threads[|w.threads|]; AwgetsOrder(v, asked + if th.sock.Absent? then [th.order] else [])
  {
    var th := v.threads[|w.threads|];
    assert v.threads == w.threads + [th];
    OneMoreThread(w.threads, th);
  }

  lemma StepKeepsAwgets(env: Env, w: World, step: Step, asked: seq<Request>)
    requires Enabled(env, w, step) && AwgetsOrder(w, asked)
    ensures AwgetsOrder(Apply(env, w, step), asked + OrderOf(step))
  {
    assert asked + [] == asked;
    match step
    case Ask(_, _, _) => NewKeepsAwgets(w, Apply(env, w, step), asked);
    case Accept(_, _) => NewKeepsAwgets(w, Apply(env, w, step), asked);
    case Go(t, call) => CallKeepsAwgets(env, w, t, call, asked);
  }

  lemma Regroup(a: seq<Request>, b: seq<Request>, c: seq<Request>)
    ensures a + b + c == a + (b + c)
  {
  }

  lemma {:induction false} RunKeepsAwgets(env: Env, w: World, steps: seq<Step>, asked: seq<Request>)
    requires Legal(env, w, steps) && AwgetsOrder(w, asked)
    ensures AwgetsOrder(Run(env, w, steps), asked + Asked(steps))
    decreases |steps|
  {
    if steps == [] {
      assert asked + [] == asked;
    } else {
      var more, rest := asked + OrderOf(steps[0]), steps[1..];
      Regroup(asked, OrderOf(steps[0]), Asked(rest));
      StepKeepsAwgets(env, w, steps[0], asked);
      RunKeepsAwgets(env, Apply(env, w, steps[0]), rest, more);
    }
  }

  /** There is one awget for each `Ask`, in order, and it works on what was asked for. */
  lemma AsksAreAwgets(env: Env, dirs: seq<nat>, steps: seq<Step>)
    requires Legal(env, Start(dirs), steps)
    ensures AwgetsOrder(Run(env, Start(dirs), steps), Asked(steps))
  {
    RunKeepsAwgets(env, Start(dirs), steps, []);
    assert [] + Asked(steps) == Asked(steps);
  }

  /** Every request in the world was asked for. */
  ghost predicate OrdersFrom(w: World, asked: seq<Request>) {
    && (forall t | 0 <= t < |w.threads| :: w.threads[t].order in asked)
    && (forall c | 0 <= c < |w.conns| :: w.conns[c].order in asked)
  }

  /** All threads and connections work for an awget, so on a request that was asked for. */
  lemma OrdersAreAsked(env: Env, dirs: seq<nat>, steps: seq<Step>)
    requires Legal(env, Start(dirs), steps) && Inv(env, Run(env, Start(dirs), steps))
    ensures OrdersFrom(Run(env, Start(dirs), steps), Asked(steps))
  {
    var w := Run(env, Start(dirs), steps);
    AsksAreAwgets(env, dirs, steps);
    forall t: nat | t < |w.threads| ensures w.threads[t].order in Asked(steps) {
      assert WorksFor(w, t);
      var i := AwgetIn(w.threads, w.threads[t].ask);
    }
    forall c: nat | c < |w.conns| ensures w.conns[c].order in Asked(steps) {
      OpenerOk(env, w, c);
    }
  }

  lemma {:induction false} AwgetIn(threads: seq<Thread>, a: nat) returns (i: nat)
    requires a < |threads| && threads[a].sock.Absent?
    ensures i < |Awgets(threads)| && Awgets(threads)[i] == a
  {
    var front := threads[..|threads| - 1];
    if a < |front| {
      i := AwgetIn(front, a);
    } else {
      i := |Awgets(front)|;
    }
  }

  // ---------------------------------------------------------------- draws are taken in order

  /** How many of the first `n` connections were opened by process `p`. */
  function OpenedBy(w: World, p: nat, n: nat): nat
    requires n <= |w.conns|
  {
    if n == 0 then 0
    else OpenedBy(w, p, n - 1)
         + if w.conns[n - 1].from < |w.threads| && w.threads[w.conns[n - 1].from].proc == p then 1 else 0
  }

  /** The connection leads to the element that the next draw of its process picks from the list held. */
  ghost predicate Drawn(env: Env, w: World, c: nat)
    requires c < |w.conns|
  {
    && w.conns[c].from < |w.threads|
    && var th := w.threads[w.conns[c].from];
       var list := Held(th.order, th.trip).elements;
       && 0 < |list| < 0x1_0000_0000
       && w.conns[c].trip == Extended(th.trip, th.order.fName, list, env.rand(th.proc, OpenedBy(w, th.proc, c)) % |list|)
  }

  ghost predicate DrawsInOrder(env: Env, w: World) {
    && (forall p: nat | p < |w.procs| :: w.procs[p].tick == OpenedBy(w, p, |w.conns|))
    && (forall c: nat | c < |w.conns| :: Drawn(env, w, c))
  }

  lemma {:induction false} SameOpened(env: Env, w: World, v: World, p: nat, n: nat)
    requires HistoryKept(w, v) && n <= |w.conns| && forall c: nat | c < n :: Drawn(env, w, c)
    ensures OpenedBy(v, p, n) == OpenedBy(w, p, n)
  {
    if n > 0 {
      SameOpened(env, w, v, p, n - 1);
      assert Drawn(env, w, n - 1) && SameConn(w.conns[n - 1], v.conns[n - 1]);
      assert SameThread(w.threads[w.conns[n - 1].from], v.threads[w.conns[n - 1].from]);
    }
  }

  lemma OldDrawn(env: Env, w: World, v: World, c: nat)
    requires HistoryKept(w, v) && c < |w.conns| && forall d: nat | d <= c :: Drawn(env, w, d)
    ensures Drawn(env, v, c)
  {
    assert SameConn(w.conns[c], v.conns[c]) && Drawn(env, w, c);
    var th := w.threads[w.conns[c].from];
    assert SameThread(th, v.threads[w.conns[c].from]);
    SameOpened(env, w, v, th.proc, c);
  }

  lemma QuietKeepsDraws(env: Env, w: World, v: World)
    requires DrawsInOrder(env, w) && HistoryKept(w, v) && TicksKept(w, v) && |v.conns| == |w.conns|
    ensures DrawsInOrder(env, v)
  {
    forall c: nat | c < |v.conns| ensures Drawn(env, v, c) {
      OldDrawn(env, w, v, c);
    }
    forall p: nat | p < |v.procs| ensures v.procs[p].tick == OpenedBy(v, p, |v.conns|) {
      SameOpened(env, w, v, p, |w.conns|);
    }
  }

  /** The step that draws. */
  lemma ConnectShape(env: Env, w: World, t: nat, n: nat)
    requires Self(env, w, t) && w.threads[t].proc < |w.procs| && CanCall(env, w, t, Connect(n))
    ensures var v := ConnectNext(env, w, t, n); var th := w.threads[t]; var list := Held(th.order, th.trip).elements;
      if v.threads[t].stage.Crashed? then TicksKept(w, v) && |v.conns| == |w.conns|
      else
        && |v.conns| == |w.conns| + 1 && v.conns[|w.conns|].from == t
        && 0 < |list| < 0x1_0000_0000
        && v.conns[|w.conns|].trip == Extended(th.trip, th.order.fName, list, env.rand(th.proc, w.procs[th.proc].tick) % |list|)
        && |v.procs| == |w.procs|
        && forall p | 0 <= p < |w.procs| :: v.procs[p].tick == w.procs[p].tick + if p == th.proc then 1 else 0
  {
    HeldOk(w.threads[t].order, w.threads[t].trip);
  }

  lemma ConnectKeepsDraws(env: Env, w: World, t: nat, n: nat)
    requires Self(env, w, t) && w.threads[t].proc < |w.procs| && CanCall(env, w, t, Connect(n)) && DrawsInOrder(env, w)
    ensures DrawsInOrder(env, ConnectNext(env, w, t, n))
  {
    var v := ConnectNext(env, w, t, n);
    ConnectShape(env, w, t, n);
    ConnectKeepsHistory(env, w, t, n);
    if v.threads[t].stage.Crashed? {
      QuietKeepsDraws(env, w, v);
    } else {
      DrawTaken(env, w, v, t);
    }
  }

  lemma DrawTaken(env: Env, w: World, v: World, t: nat)
    requires DrawsInOrder(env, w) && HistoryKept(w, v) && t < |w.threads| && w.threads[t].proc < |w.procs|
    requires |v.conns| == |w.conns| + 1 && v.conns[|w.conns|].from == t
    requires var th := w.threads[t]; var list := Held(th.order, th.trip).elements;
      && 0 < |list| < 0x1_0000_0000
      && v.conns[|w.conns|].trip == Extended(th.trip, th.order.fName, list, env.rand(th.proc, w.procs[th.proc].tick) % |list|)
      && forall p | 0 <= p < |w.procs| :: v.procs[p].tick == w.procs[p].tick + if p == th.proc then 1 else 0
    ensures DrawsInOrder(env, v)
  {
    assert SameThread(w.threads[t], v.threads[t]);
    forall p: nat | p < |v.procs| ensures v.procs[p].tick == OpenedBy(v, p, |v.conns|) {
      SameOpened(env, w, v, p, |w.conns|);
    }
    SameOpened(env, w, v, w.threads[t].proc, |w.conns|);
    forall c: nat | c < |v.conns| ensures Drawn(env, v, c) {
      if c < |w.conns| {
        OldDrawn(env, w, v, c);
      }
    }
  }

  lemma NewThreadKeepsDraws(env: Env, w: World, step: Step)
    requires Enabled(env, w, step) && !step.Go? && DrawsInOrder(env, w)
    ensures DrawsInOrder(env, Apply(env, w, step))
  {
    QuietKeepsDraws(env, w, Apply(env, w, step));
  }

  lemma {:induction false} RunKeepsDraws(env: Env, w: World, steps: seq<Step>)
    requires Sane(env) && Inv(env, w) && Legal(env, w, steps) && DrawsInOrder(env, w)
    ensures DrawsInOrder(env, Run(env, w, steps))
    decreases |steps|
  {
    if steps != [] {
      match steps[0] {
        case Go(t, call) =>
          SelfOk(env, w, t);
          if call.Connect? {
            ConnectKeepsDraws(env, w, t, call.n);
          } else {
            CallKeepsHistory(env, w, t, call);
            QuietKeepsDraws(env, w, Apply(env, w, steps[0]));
          }
        case _ => NewThreadKeepsDraws(env, w, steps[0]);
      }
      StepKeepsInv(env, w, steps[0]);
      RunKeepsDraws(env, Apply(env, w, steps[0]), steps[1..]);
    }
  }

  /** Every connection was opened by the next draw of its process: the first by the first, the second by
      the second, whatever its threads do in between. */
  lemma DrawsAreInOrder(env: Env, dirs: seq<nat>, steps: seq<Step>)
    requires Sane(env) && NoRepeats(dirs) && Legal(env, Start(dirs), steps)
    ensures DrawsInOrder(env, Run(env, Start(dirs), steps))
  {
    StartInv(env, dirs);
    RunKeepsDraws(env, Start(dirs), steps);
  }
}
