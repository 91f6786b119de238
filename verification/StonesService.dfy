/** What every run of module Stones does for the requests asked for: they do not mix, and each is served
    once. */
module StonesService {
  import opened Basics
  import opened Bytes
  import opened Chain
  import opened Downloads
  import opened Stones
  import opened StonesSafety
  import opened StonesHistory
  import Relay

  // ---------------------------------------------------------------- requests do not mix

  /** What a request gets from a fetch: all its stones have been visited, each as often as listed, by
      as many links, the name is the one asked for, and what is mapped is what wget got for it, or
      nothing when the command was cut. */
  ghost predicate Served(env: Env, w: World, th: Thread, fetch: nat) {
    && fetch < |w.disk.fetchers|
    && |th.trip.links| == |th.order.elements| && multiset(th.trip.visited) == multiset(th.order.elements)
    && w.disk.fetchers[fetch].url == th.order.fName
    && FetcherSafe(w.disk, w.disk.fetchers[fetch], env.web)
  }

  /** What holds of a thread in every state: its numbers are its own, it has received nothing it did not
      expect, it has overrun no buffer if the check held of its request, what it has got back is the
      beginning of its own file, and if it fetches, it serves its request. */
  ghost predicate Undistorted(env: Env, w: World, t: nat)
    requires t < |w.threads|
  {
    var th := w.threads[t];
    && EndsOk(w, t, th) && !th.stage.Confused? && (th.stage.Crashed? ==> !Roomy(env.names, th.order))
    && |env.web.content(th.order.fName)| < 0x8000_0000 && th.got <= Due(env, th.order)
    && (FetchOf(th).Some? ==> Served(env, w, th, FetchOf(th).value))
  }

  lemma InvUndistorted(env: Env, w: World, t: nat)
    requires Sane(env) && Inv(env, w) && t < |w.threads|
    ensures Undistorted(env, w, t)
  {
    var th := w.threads[t];
    SelfOk(env, w, t);
    HeldOk(th.order, th.trip);
    GotIsDue(env, w, t);
    if FetchOf(th).Some? {
      assert FetcherSafe(w.disk, w.disk.fetchers[FetchOf(th).value], env.web);
    }
  }

  lemma GotIsDue(env: Env, w: World, t: nat)
    requires Sane(env) && Self(env, w, t)
    ensures |env.web.content(w.threads[t].order.fName)| < 0x8000_0000 && w.threads[t].got <= Due(env, w.threads[t].order)
  {
  }

  /** Requests do not mix. In every interleaving of any number of requests over stones in directories
      of their own: on every connection the links so far are in order, with respect to a request that
      was asked for, nothing is sent but the header and list of its own request, to the stone last
      visited, and nothing comes back but its own file; no thread is distorted; and no request is
      fetched twice. */
  lemma RequestsDoNotMix(env: Env, dirs: seq<nat>, steps: seq<Step>)
    requires Sane(env) && NoRepeats(dirs) && Legal(env, Start(dirs), steps)
    ensures var w := Run(env, Start(dirs), steps);
      && OrdersFrom(w, Asked(steps))
      && (forall c | 0 <= c < |w.conns| :: ConnOk(env, w.conns[c]))
      && (forall t: nat | t < |w.threads| :: Undistorted(env, w, t))
      && (forall t, u | 0 <= t < |w.threads| && 0 <= u < |w.threads| && w.threads[t].ask == w.threads[u].ask
            && FetchOf(w.threads[t]).Some? && FetchOf(w.threads[u]).Some? :: t == u)
  {
    var w := Run(env, Start(dirs), steps);
    StartInv(env, dirs);
    RunKeepsInv(env, Start(dirs), steps);
    OrdersAreAsked(env, dirs, steps);
    forall t: nat | t < |w.threads| ensures Undistorted(env, w, t) {
      InvUndistorted(env, w, t);
    }
    forall t, u | 0 <= t < |w.threads| && 0 <= u < |w.threads| && w.threads[t].ask == w.threads[u].ask
        && FetchOf(w.threads[t]).Some? && FetchOf(w.threads[u]).Some?
      ensures t == u
    {
      AtMostOneFetch(env, w, t, u);
    }
  }

  // ---------------------------------------------------------------- at most one fetch each

  /** The thread that opened the connection another one serves. */
  lemma Before(env: Env, w: World, t: nat) returns (c: nat, u: nat)
    requires Inv(env, w) && t < |w.threads| && w.threads[t].trip.links != []
    ensures c < |w.conns| && ConnOf(w.threads[t].sock) == Some(c) && w.conns[c].taker == Some(t)
    ensures u < |w.threads| && w.conns[c].from == u && ConnOf(w.threads[u].out) == Some(c)
    ensures w.threads[u].ask == w.threads[t].ask && |w.threads[u].trip.links| == |w.threads[t].trip.links| - 1
  {
    assert ThreadOk(env, w, t, w.threads[t]);
    c := ConnOf(w.threads[t].sock).value;
    u := w.conns[c].from;
    OpenerOk(env, w, c);
  }

  /** A request is in one place only: no two threads work for the same awget equally many links on. */
  lemma {:induction false} OnePlace(env: Env, w: World, t: nat, u: nat)
    requires Inv(env, w) && t < |w.threads| && u < |w.threads|
    requires w.threads[t].ask == w.threads[u].ask && |w.threads[t].trip.links| == |w.threads[u].trip.links|
    ensures t == u
    decreases |w.threads[t].trip.links|
  {
    if w.threads[t].trip.links == [] {
      assert ThreadOk(env, w, t, w.threads[t]) && ThreadOk(env, w, u, w.threads[u]);
    } else {
      var c, p := Before(env, w, t);
      var d, q := Before(env, w, u);
      OnePlace(env, w, p, q);
    }
  }

  /** Each request is fetched at most once. */
  lemma AtMostOneFetch(env: Env, w: World, t: nat, u: nat)
    requires Inv(env, w) && t < |w.threads| && u < |w.threads| && w.threads[t].ask == w.threads[u].ask
    requires FetchOf(w.threads[t]).Some? && FetchOf(w.threads[u]).Some?
    ensures t == u
  {
    FetchDepth(env, w, t);
    FetchDepth(env, w, u);
    assert WorksFor(w, t) && WorksFor(w, u);
    OnePlace(env, w, t, u);
  }

  lemma FetchDepth(env: Env, w: World, t: nat)
    requires Inv(env, w) && t < |w.threads| && FetchOf(w.threads[t]).Some?
    ensures |w.threads[t].trip.links| == |w.threads[t].order.elements|
  {
    assert ThreadOk(env, w, t, w.threads[t]);
    HeldOk(w.threads[t].order, w.threads[t].trip);
  }

  // ---------------------------------------------------------------- and exactly one

  /** No call can be made and nothing accepted. */
  ghost predicate Stuck(env: Env, w: World) {
    && (forall c: nat, n: nat :: !Enabled(env, w, Accept(c, n)))
    && (forall t: nat, call: Call :: !Enabled(env, w, Go(t, call)))
  }

  /** Every address leads to a process. */
  ghost predicate Reachable(env: Env, w: World) {
    forall e :: env.where(e) < |w.procs|
  }

  /** The kernel can always hand out a number. */
  lemma FreeNumber(table: map<nat, Target>) returns (n: nat)
    ensures n !in table
  {
    var used := table.Keys;
    n := 0;
    while n in used
      invariant forall m: nat | m < n :: m in table
      invariant used == set k | k in table && k >= n
      decreases used
    {
      used := used - {n};
      n := n + 1;
    }
  }

  /** What a thread's connections let it do. */
  lemma Lookups(env: Env, w: World, t: nat)
    requires Inv(env, w) && t < |w.threads|
    ensures w.threads[t].proc < |w.procs|
    ensures w.threads[t].sock.Open? ==> InAt(w, w.threads[t].proc, w.threads[t].sock.number) == Some(w.threads[t].sock.conn)
    ensures w.threads[t].out.Open? ==> OutAt(w, w.threads[t].proc, w.threads[t].out.number) == Some(w.threads[t].out.conn)
  {
    assert ThreadOk(env, w, t, w.threads[t]);
  }

  /** A thread at or before the send loop can go on. */
  lemma SenderCanMove(env: Env, w: World, t: nat) returns (call: Call)
    requires Inv(env, w) && Reachable(env, w) && t < |w.threads|
    requires w.threads[t].stage.Choosing? || w.threads[t].stage.Heading? || w.threads[t].stage.Sending?
    ensures Enabled(env, w, Go(t, call))
  {
    var th := w.threads[t];
    assert ThreadOk(env, w, t, th);
    HeldOk(th.order, th.trip);
    match th.stage
    case Choosing(_, _) =>
      var n := FreeNumber(Table(w, th.proc));
      call := Connect(n);
    case Heading(_, _, _) => call := SendHeader;
    case _ => call := SendElement;
  }

  /** When nothing can move, everything has been sent on every connection, and it has been accepted. */
  lemma StuckConn(env: Env, w: World, c: nat)
    requires Inv(env, w) && Reachable(env, w) && Stuck(env, w) && c < |w.conns|
    ensures w.conns[c].sent == Messages(Held(w.conns[c].order, w.conns[c].trip))
    ensures w.conns[c].taker.Some?
  {
    var from := w.conns[c].from;
    OpenerOk(env, w, c);
    assert ThreadOk(env, w, from, w.threads[from]);
    var stage := w.threads[from].stage;
    if stage.Choosing? || stage.Heading? || stage.Sending? {
      var call := SenderCanMove(env, w, from);
    }
    assert ConnOk(env, w.conns[c]);
    var n := FreeNumber(Table(w, w.conns[c].dest));
    assert !Enabled(env, w, Accept(c, n));
  }

  /** When nothing can move, every thread whose request passed the check waits, or its fetch is over. */
  lemma StuckThread(env: Env, w: World, t: nat)
    requires Inv(env, w) && Reachable(env, w) && Stuck(env, w) && t < |w.threads| && Roomy(env.names, w.threads[t].order)
    ensures w.threads[t].stage.Waiting?
         || (w.threads[t].stage.Fetching? && FetchOf(w.threads[t]).value < |w.disk.fetchers|
             && w.disk.fetchers[FetchOf(w.threads[t]).value].Finished())
  {
    var th := w.threads[t];
    SelfOk(env, w, t);
    Lookups(env, w, t);
    match th.stage
    case Announced => StuckConn(env, w, th.sock.conn); ReceiverCanMove(env, w, t);
    case Listing(_, _, _) => StuckConn(env, w, th.sock.conn); ReceiverCanMove(env, w, t);
    case Fetching(i) => StuckFetch(env, w, t);
    case Reading(i, fd, pos) => var call := ReaderCanMove(env, w, t);
    case Waiting =>
    case Crashed =>
    case _ => var call := SenderCanMove(env, w, t);
  }

  /** A thread whose link has been sent completely can go on receiving. */
  lemma ReceiverCanMove(env: Env, w: World, t: nat)
    requires Inv(env, w) && t < |w.threads| && (w.threads[t].stage.Announced? || w.threads[t].stage.Listing?)
    requires w.threads[t].sock.Open? && w.threads[t].sock.conn < |w.conns|
    requires var c := w.conns[w.threads[t].sock.conn]; c.sent == Messages(Held(c.order, c.trip))
    ensures Enabled(env, w, Go(t, if w.threads[t].stage.Announced? then RecvHeader else RecvElement))
  {
    SelfOk(env, w, t);
    Lookups(env, w, t);
  }

  lemma StuckFetch(env: Env, w: World, t: nat)
    requires Inv(env, w) && Stuck(env, w) && Self(env, w, t) && w.threads[t].proc < |w.procs| && w.threads[t].stage.Fetching?
    ensures FetchOf(w.threads[t]).value < |w.disk.fetchers| && w.disk.fetchers[FetchOf(w.threads[t]).value].Finished()
  {
    var n := FreeNumber(Table(w, w.threads[t].proc));
    assert !Enabled(env, w, Go(t, Download));
    assert !Enabled(env, w, Go(t, MapFile(n)));
  }

  lemma ReaderCanMove(env: Env, w: World, t: nat) returns (call: Call)
    requires DiskOk(w.disk, env.web) && t < |w.threads| && w.threads[t].proc < |w.procs|
    requires w.threads[t].stage.Reading? && StageOk(env, w, t, w.threads[t])
    ensures Enabled(env, w, Go(t, call))
  {
    MappedData(env, w, t);
    call := SendOrRemove(env, w, t);
  }

  lemma MappedData(env: Env, w: World, t: nat)
    requires DiskOk(w.disk, env.web) && t < |w.threads| && w.threads[t].stage.Reading? && StageOk(env, w, t, w.threads[t])
    ensures w.disk.fetchers[w.threads[t].stage.fetch].stage.data == env.web.content(w.threads[t].order.fName)
  {
    assert FetcherSafe(w.disk, w.disk.fetchers[w.threads[t].stage.fetch], env.web);
  }

  lemma SendOrRemove(env: Env, w: World, t: nat) returns (call: Call)
    requires t < |w.threads| && w.threads[t].proc < |w.procs| && w.threads[t].stage.Reading?
    requires var th := w.threads[t]; var stage := th.stage;
      && MappedOk(env, w, t, th, stage.fetch, stage.fd) && ReadingOk(env, w, th, stage.pos)
      && w.disk.fetchers[stage.fetch].stage.data == env.web.content(th.order.fName)
    ensures Enabled(env, w, Go(t, call))
  {
    call := if w.threads[t].stage.pos < |Due(env, w.threads[t].order)| then SendFile(1) else RemoveFile;
  }

  /** Bytes that are complete and a beginning of what is due are all that is due. */
  lemma CompleteIsDue(env: Env, order: Request, got: seq<byte>)
    requires |env.web.content(order.fName)| < 0x8000_0000 && got <= Due(env, order) && Complete(got)
    ensures got == Due(env, order)
  {
    var data := env.web.content(order.fName);
    Relay.HeaderRoundTrip(|data|);
    assert Due(env, order)[..5] == Relay.FileHeader(|data|) == got[..5];
  }

  /** When nothing can move, a waiting thread has got all that has come back. */
  lemma StuckGot(env: Env, w: World, t: nat)
    requires Sane(env) && Inv(env, w) && Stuck(env, w) && t < |w.threads| && w.threads[t].stage.Waiting?
    ensures ConnOf(w.threads[t].out).Some? && ConnOf(w.threads[t].out).value < |w.conns|
    ensures |env.web.content(w.threads[t].order.fName)| < 0x8000_0000
    ensures var c := w.conns[ConnOf(w.threads[t].out).value];
      c.back == Due(env, w.threads[t].order) ==> w.threads[t].got == Due(env, w.threads[t].order)
  {
    var th := w.threads[t];
    SelfOk(env, w, t);
    Lookups(env, w, t);
    GotIsDue(env, w, t);
    if Complete(th.got) {
      CompleteIsDue(env, th.order, th.got);
    } else {
      AllTaken(env, w, t);
    }
  }

  /** A waiting thread that can take nothing has taken everything. */
  lemma AllTaken(env: Env, w: World, t: nat)
    requires t < |w.threads| && w.threads[t].proc < |w.procs| && w.threads[t].stage.Waiting? && WaitingOk(w, w.threads[t])
    requires w.threads[t].out.Open? ==> OutAt(w, w.threads[t].proc, w.threads[t].out.number) == Some(w.threads[t].out.conn)
    requires !Enabled(env, w, Go(t, PassOn(1))) && !Complete(w.threads[t].got)
    ensures w.threads[t].got == w.conns[ConnOf(w.threads[t].out).value].back
  {
    var c := w.conns[w.threads[t].out.conn];
    assert c.taken == |c.back| && c.back[..|c.back|] == c.back;
  }

  /** From any thread of a request the fetch can be found, when nothing can move; and if its file was
      sent and removed, the thread has got all of it. */
  lemma {:induction false} FetchAhead(env: Env, w: World, t: nat) returns (u: nat)
    requires Sane(env) && Inv(env, w) && Reachable(env, w) && Stuck(env, w) && t < |w.threads| && Roomy(env.names, w.threads[t].order)
    ensures u < |w.threads| && FetchOf(w.threads[u]).Some? && FetchOf(w.threads[u]).value < |w.disk.fetchers|
    ensures w.threads[u].ask == w.threads[t].ask && w.disk.fetchers[FetchOf(w.threads[u]).value].Finished()
    ensures |env.web.content(w.threads[t].order.fName)| < 0x8000_0000
    ensures w.disk.fetchers[FetchOf(w.threads[u]).value].stage.Removed? ==>
      if w.threads[t].stage.Waiting? then w.threads[t].got == Due(env, w.threads[t].order)
      else BackIs(w, w.threads[t], Due(env, w.threads[t].order))
    decreases |w.threads[t].order.elements| - |w.threads[t].trip.links|
  {
    var th := w.threads[t];
    StuckThread(env, w, t);
    SelfOk(env, w, t);
    HeldOk(th.order, th.trip);
    if th.stage.Fetching? {
      u := t;
    } else {
      var next := NextThread(env, w, t);
      u := FetchAhead(env, w, next);
      StuckGot(env, w, t);
      BackFrom(env, w, t, next);
    }
  }

  /** The thread that serves the connection a waiting one has opened. */
  lemma NextThread(env: Env, w: World, t: nat) returns (u: nat)
    requires Inv(env, w) && Reachable(env, w) && Stuck(env, w) && t < |w.threads| && w.threads[t].stage.Waiting?
    ensures u < |w.threads| && w.threads[u].ask == w.threads[t].ask && w.threads[u].order == w.threads[t].order
    ensures |w.threads[u].trip.links| == |w.threads[t].trip.links| + 1 <= |w.threads[t].order.elements|
    ensures ConnOf(w.threads[t].out).Some? && ConnOf(w.threads[u].sock) == ConnOf(w.threads[t].out)
  {
    SelfOk(env, w, t);
    HeldOk(w.threads[t].order, w.threads[t].trip);
    var c := ConnOf(w.threads[t].out).value;
    StuckConn(env, w, c);
    u := w.conns[c].taker.value;
    assert Owned(w, c);
    assert ThreadOk(env, w, u, w.threads[u]);
  }

  /** What the next thread has sent back is what comes back. */
  lemma BackFrom(env: Env, w: World, t: nat, u: nat)
    requires Inv(env, w) && t < |w.threads| && u < |w.threads| && ConnOf(w.threads[t].out).Some?
    requires ConnOf(w.threads[u].sock) == ConnOf(w.threads[t].out)
    ensures ConnOf(w.threads[t].out).value < |w.conns|
    ensures var back := w.conns[ConnOf(w.threads[t].out).value].back;
      && (w.threads[u].stage.Waiting? ==> back == w.threads[u].got)
      && (forall bytes :: BackIs(w, w.threads[u], bytes) ==> back == bytes)
  {
    assert ThreadOk(env, w, u, w.threads[u]) && ThreadOk(env, w, t, w.threads[t]);
  }

  /** What awget `a` ends with: exactly one thread has fetched for it, that fetch is over, and if the
      command was not cut and there was anything to fetch, awget has got the header and all of its own
      file, and no thread that worked for it has a connection open. */
  ghost predicate ServedOnce(env: Env, w: World, a: nat, u: nat)
    requires a < |w.threads|
  {
    && u < |w.threads| && w.threads[u].ask == a && FetchOf(w.threads[u]).Some?
    && Served(env, w, w.threads[u], FetchOf(w.threads[u]).value)
    && (forall t | 0 <= t < |w.threads| && w.threads[t].ask == a && FetchOf(w.threads[t]).Some? :: t == u)
    && |env.web.content(w.threads[a].order.fName)| < 0x8000_0000
    && var f := w.disk.fetchers[FetchOf(w.threads[u]).value];
       f.Finished() && f.url == w.threads[a].order.fName
       && (Ordered(f, env.web) && env.web.content(f.url) != [] ==>
             && w.threads[a].got == Due(env, w.threads[a].order)
             && (forall t: nat | t < |w.threads| && w.threads[t].ask == a :: Hungup(w, t)))
  }

  predicate Hungup(w: World, t: nat)
    requires t < |w.threads|
  {
    !w.threads[t].sock.Open? && !w.threads[t].out.Open?
  }

  lemma DueIsComplete(env: Env, order: Request)
    requires |env.web.content(order.fName)| < 0x8000_0000
    ensures Complete(Due(env, order))
  {
    var data := env.web.content(order.fName);
    Relay.HeaderRoundTrip(|data|);
    assert Due(env, order)[..5] == Relay.FileHeader(|data|);
  }

  /** When nothing can move, a thread that is done with its request has closed its connections. */
  lemma DoneIsHungup(env: Env, w: World, t: nat)
    requires t < |w.threads| && w.threads[t].proc < |w.procs|
    requires !Enabled(env, w, Go(t, CloseOut)) && !Enabled(env, w, Go(t, CloseSock))
    requires || (w.threads[t].stage.Waiting? && Complete(w.threads[t].got))
             || (Fetches(w, t) && w.disk.fetchers[w.threads[t].stage.fetch].Finished() && w.threads[t].out.Absent?)
    ensures Hungup(w, t)
  {
  }

  lemma ServedIsHungup(env: Env, w: World, t: nat, u: nat)
    requires Sane(env) && Inv(env, w) && Stuck(env, w) && Reachable(env, w)
    requires t < |w.threads| && u < |w.threads| && Roomy(env.names, w.threads[t].order) && w.threads[t].ask == w.threads[u].ask
    requires FetchOf(w.threads[u]).Some? && FetchOf(w.threads[u]).value < |w.disk.fetchers|
    requires w.disk.fetchers[FetchOf(w.threads[u]).value].stage.Removed?
    ensures Hungup(w, t)
  {
    var v := FetchAhead(env, w, t);
    AtMostOneFetch(env, w, u, v);
    StuckThread(env, w, t);
    SelfOk(env, w, t);
    DueIsComplete(env, w.threads[t].order);
    DoneIsHungup(env, w, t);
  }

  lemma AwgetIsServed(env: Env, w: World, a: nat) returns (u: nat)
    requires Sane(env) && Inv(env, w) && Stuck(env, w) && Reachable(env, w)
    requires a < |w.threads| && w.threads[a].sock.Absent? && Roomy(env.names, w.threads[a].order)
    ensures ServedOnce(env, w, a, u)
  {
    u := FetchAhead(env, w, a);
    InvUndistorted(env, w, u);
    AwgetWaits(env, w, a);
    assert WorksFor(w, u);
    forall t | 0 <= t < |w.threads| && w.threads[t].ask == a && FetchOf(w.threads[t]).Some? ensures t == u {
      AtMostOneFetch(env, w, t, u);
    }
    if w.disk.fetchers[FetchOf(w.threads[u]).value].stage.Removed? {
      forall t: nat | t < |w.threads| && w.threads[t].ask == a ensures Hungup(w, t) {
        assert WorksFor(w, t);
        ServedIsHungup(env, w, t, u);
      }
    }
  }

  /** Every request that passes the check is served exactly once. When nothing but a further `Ask` is
      possible, this holds of the awget of each `Ask` of the run, and different requests have different
      awgets. */
  lemma EveryAskIsServed(env: Env, dirs: seq<nat>, steps: seq<Step>, i: nat) returns (a: nat, u: nat)
    requires Sane(env) && NoRepeats(dirs) && Legal(env, Start(dirs), steps)
    requires var w := Run(env, Start(dirs), steps); Stuck(env, w) && Reachable(env, w)
    requires i < |Asked(steps)| && Roomy(env.names, Asked(steps)[i])
    ensures var w := Run(env, Start(dirs), steps);
      && |Awgets(w.threads)| == |Asked(steps)| && a == Awgets(w.threads)[i] < |w.threads|
      && w.threads[a].order == Asked(steps)[i]
      && ServedOnce(env, w, a, u)
  {
    var w := Run(env, Start(dirs), steps);
    StartInv(env, dirs);
    RunKeepsInv(env, Start(dirs), steps);
    AsksAreAwgets(env, dirs, steps);
    a := Awgets(w.threads)[i];
    AwgetsAscend(w.threads);
    u := AwgetIsServed(env, w, a);
  }

  /** awget itself never fetches. */
  lemma AwgetWaits(env: Env, w: World, a: nat)
    requires Inv(env, w) && Reachable(env, w) && Stuck(env, w) && a < |w.threads| && w.threads[a].sock.Absent?
    requires Roomy(env.names, w.threads[a].order)
    ensures w.threads[a].ask == a && w.threads[a].stage.Waiting?
  {
    StuckThread(env, w, a);
    assert ThreadOk(env, w, a, w.threads[a]);
  }

  // ---------------------------------------------------------------- stones that share a directory

  lemma {:induction false} OneStepMore(env: Env, w: World, steps: seq<Step>, step: Step)
    requires Legal(env, w, steps) && Enabled(env, Run(env, w, steps), step)
    ensures Legal(env, w, steps + [step]) && Run(env, w, steps + [step]) == Apply(env, Run(env, w, steps), step)
    decreases |steps|
  {
    if steps == [] {
      assert [] + [step] == [step] && [step][1..] == [];
    } else {
      assert (steps + [step])[1..] == steps[1..] + [step];
      OneStepMore(env, Apply(env, w, steps[0]), steps[1..], step);
    }
  }

  /** The order for a single stone, and the trip to it. */
  function Single(e: Element, url: string): Request {
    Request(Be32(1), url, [e])
  }

  function Arrived(e: Element, url: string): Trip {
    Trip([e], [Request(Be32(0), url, [])], None)
  }

  /** Two awgets, on the machines of the two stones, have asked one stone each. */
  function TwoAsked(d: nat, e0: Element, e1: Element, a: string, b: string): World {
    World([Machine(d, 0, false, false), Machine(d, 1, false, false)], [],
          [Caller(0, e0, a, false, false), Caller(1, e1, b, false, false)], Disk(map[], []), [])
  }

  lemma AskTwice(env: Env, d: nat, e0: Element, e1: Element, a: string, b: string) returns (steps: seq<Step>)
    ensures Legal(env, Start([d, d]), steps) && Run(env, Start([d, d]), steps) == TwoAsked(d, e0, e1, a, b)
  {
    var s0 := Start([d, d]);
    assert s0.procs == [Machine(d, 0, false, false), Machine(d, 1, false, false)];
    OneStepMore(env, s0, [], Ask(0, [e0], a));
    steps := [] + [Ask(0, [e0], a)];
    OneStepMore(env, s0, steps, Ask(1, [e1], b));
    steps := steps + [Ask(1, [e1], b)];
  }

  /** The awget threads and connections when that many have connected and that many have sent their
      headers, in turn. */
  function Caller(p: nat, e: Element, url: string, connected: bool, sent: bool): Thread {
    if !connected then Thread(p, Absent, Absent, Choosing(url, [e]), [], p, Single(e, url), Trip([], [], None))
    else Thread(p, Absent, Open(1, p), if sent then Sending(url, [e], 0, 0) else Heading(url, [e], 0), [], p, Single(e, url), Trip([], [], None))
  }

  function Call0(p: nat, e: Element, url: string, sent: bool, accepted: bool, read: bool): Connection {
    Connection(p, if sent then [Header(Be32(0), url)] else [], if read then 1 else 0, [], 0, if accepted then Some(2 + p) else None,
               p, p, Single(e, url), Arrived(e, url))
  }

  function Stone(p: nat, e: Element, url: string, read: bool): Thread {
    Thread(p, Open(7, p), Absent, if read then Fetching(p) else Announced, [], p, Single(e, url), Arrived(e, url))
  }

  function Machine(d: nat, p: nat, connected: bool, accepted: bool): Process {
    Process(d, if accepted then map[1 := Out(p), 7 := In(p)] else if connected then map[1 := Out(p)] else map[], if connected then 1 else 0)
  }

  lemma ConnectOne(env: Env, w: World, p: nat, e: Element, url: string, d: nat)
    requires p < |w.procs| && p < |w.threads| && |w.conns| == p && env.where(e) == p
    requires w.procs[p] == Machine(d, p, false, false) && w.threads[p] == Caller(p, e, url, false, false)
    ensures Enabled(env, w, Go(p, Connect(1)))
    ensures Apply(env, w, Go(p, Connect(1))) == World(w.procs[p := Machine(d, p, true, false)],
      w.conns + [Call0(p, e, url, false, false, false)], w.threads[p := Caller(p, e, url, true, false)], w.disk, w.owners)
  {
    assert Without([e], 0) == [] && [] + [e] == [e];
    assert Draw(env, w, p) % 1 == 0;
    assert Chosen(env, w, p) == e;
    assert TextFits(env, w.threads[p], 0);
    var trip := Extended(w.threads[p].trip, url, [e], 0);
    assert trip.links == [Request(Be32(0), url, [])];
    assert trip == Arrived(e, url);
    var v := Apply(env, w, Go(p, Connect(1)));
    assert v.procs[p] == Machine(d, p, true, false);
    assert v.procs == w.procs[p := Machine(d, p, true, false)];
    assert v.threads == w.threads[p := Caller(p, e, url, true, false)];
    assert v.conns == w.conns + [Call0(p, e, url, false, false, false)];
  }

  lemma SendOne(env: Env, w: World, p: nat, e: Element, url: string, d: nat)
    requires p < |w.procs| && p < |w.threads| && p < |w.conns|
    requires w.procs[p] == Machine(d, p, true, false) && w.threads[p] == Caller(p, e, url, true, false)
    requires w.conns[p] == Call0(p, e, url, false, false, false)
    ensures Enabled(env, w, Go(p, SendHeader))
    ensures Apply(env, w, Go(p, SendHeader)) ==
      w.(conns := w.conns[p := Call0(p, e, url, true, false, false)], threads := w.threads[p := Caller(p, e, url, true, true)])
  {
    assert [] + [Header(Be32(0), url)] == [Header(Be32(0), url)];
  }

  lemma AcceptOne(env: Env, w: World, p: nat, e: Element, url: string, d: nat)
    requires p < |w.procs| && |w.threads| == 2 + p && p < |w.conns|
    requires w.procs[p] == Machine(d, p, true, false) && w.conns[p] == Call0(p, e, url, true, false, false)
    ensures Enabled(env, w, Accept(p, 7))
    ensures Apply(env, w, Accept(p, 7)) == World(w.procs[p := Machine(d, p, true, true)],
      w.conns[p := Call0(p, e, url, true, true, false)], w.threads + [Stone(p, e, url, false)], w.disk, w.owners)
  {
    var v := Apply(env, w, Accept(p, 7));
    assert map[1 := Out(p)][7 := In(p)] == map[1 := Out(p), 7 := In(p)];
    assert v.procs == w.procs[p := Machine(d, p, true, true)];
  }

  lemma ReceiveZero(w: World, t: nat, c: nat, size: seq<byte>, url: string)
    requires t < |w.threads| && w.threads[t].sock.Open? && w.threads[t].proc < |w.procs|
    requires InAt(w, w.threads[t].proc, w.threads[t].sock.number) == Some(c) && w.conns[c].read < |w.conns[c].sent|
    requires w.conns[c].sent[w.conns[c].read] == Header(size, url)
    requires |size| == 4 && FromBe32(size[0], size[1], size[2], size[3]) == 0
    ensures ReceiveHeader(w, t) == BeginFetch(Received(w, c), t, url)
  {
  }

  /** The world after stone `p` has begun to fetch. */
  function Begun(w: World, p: nat, e: Element, url: string, d: nat): World
    requires p < |w.conns| && 2 + p < |w.threads|
  {
    World(w.procs, w.conns[p := Call0(p, e, url, true, true, true)], w.threads[2 + p := Stone(p, e, url, true)],
          w.disk.(fetchers := w.disk.fetchers + [Fetcher(FileName(d, 7), url, Started)]), w.owners + [2 + p])
  }

  lemma BeginOne(w: World, p: nat, e: Element, url: string, d: nat)
    requires p < |w.procs| && 2 + p < |w.threads| && p < |w.conns| && |w.disk.fetchers| == p
    requires w.procs[p] == Machine(d, p, true, true) && w.conns[p] == Call0(p, e, url, true, true, false)
    requires w.threads[2 + p] == Stone(p, e, url, false)
    ensures BeginFetch(Received(w, p), 2 + p, url) == Begun(w, p, e, url, d)
  {
    var w1 := Received(w, p);
    assert w1.conns == w.conns[p := Call0(p, e, url, true, true, true)];
    var v := BeginFetch(w1, 2 + p, url);
    assert v.threads[2 + p] == Stone(p, e, url, true);
  }

  lemma ReceiveOne(env: Env, w: World, p: nat, e: Element, url: string, d: nat)
    requires p < |w.procs| && 2 + p < |w.threads| && p < |w.conns| && |w.disk.fetchers| == p
    requires w.procs[p] == Machine(d, p, true, true) && w.conns[p] == Call0(p, e, url, true, true, false)
    requires w.threads[2 + p] == Stone(p, e, url, false)
    ensures Enabled(env, w, Go(2 + p, RecvHeader))
    ensures Apply(env, w, Go(2 + p, RecvHeader)) == Begun(w, p, e, url, d)
  {
    assert InAt(w, p, 7) == Some(p);
    Be32RoundTrip(0);
    ReceiveZero(w, 2 + p, p, Be32(0), url);
    BeginOne(w, p, e, url, d);
  }

  /** Both stones have accepted on number 7; the first may have received the header. */
  function TwoAccepted(d: nat, e0: Element, e1: Element, a: string, b: string, first: bool): World {
    World([Machine(d, 0, true, true), Machine(d, 1, true, true)],
          [Call0(0, e0, a, true, true, first), Call0(1, e1, b, true, true, false)],
          [Caller(0, e0, a, true, true), Caller(1, e1, b, true, true), Stone(0, e0, a, first), Stone(1, e1, b, false)],
          Disk(map[], if first then [Fetcher(FileName(d, 7), a, Started)] else []), if first then [2] else [])
  }

  /** Both stones have accepted on number 7 and received the header. */
  function TwoFetching(d: nat, e0: Element, e1: Element, a: string, b: string): World {
    World([Machine(d, 0, true, true), Machine(d, 1, true, true)],
          [Call0(0, e0, a, true, true, true), Call0(1, e1, b, true, true, true)],
          [Caller(0, e0, a, true, true), Caller(1, e1, b, true, true), Stone(0, e0, a, true), Stone(1, e1, b, true)],
          Disk(map[], [Fetcher(FileName(d, 7), a, Started), Fetcher(FileName(d, 7), b, Started)]), [2, 3])
  }

  /** Both awgets have connected; they may have sent their headers. */
  function TwoConnected(d: nat, e0: Element, e1: Element, a: string, b: string, sent: bool): World {
    World([Machine(d, 0, true, false), Machine(d, 1, true, false)],
          [Call0(0, e0, a, sent, false, false), Call0(1, e1, b, sent, false, false)],
          [Caller(0, e0, a, true, sent), Caller(1, e1, b, true, sent)], Disk(map[], []), [])
  }

  lemma ConnectTwice(env: Env, d: nat, e0: Element, e1: Element, a: string, b: string, was: seq<Step>) returns (steps: seq<Step>)
    requires env.where(e0) == 0 && env.where(e1) == 1
    requires Legal(env, Start([d, d]), was) && Run(env, Start([d, d]), was) == TwoAsked(d, e0, e1, a, b)
    ensures Legal(env, Start([d, d]), steps) && Run(env, Start([d, d]), steps) == TwoConnected(d, e0, e1, a, b, false)
  {
    var s0 := Start([d, d]);
    var w := TwoAsked(d, e0, e1, a, b);
    ConnectOne(env, w, 0, e0, a, d);
    OneStepMore(env, s0, was, Go(0, Connect(1)));
    steps, w := was + [Go(0, Connect(1))], Apply(env, w, Go(0, Connect(1)));
    ConnectOne(env, w, 1, e1, b, d);
    OneStepMore(env, s0, steps, Go(1, Connect(1)));
    steps := steps + [Go(1, Connect(1))];
  }

  lemma SendTwice(env: Env, d: nat, e0: Element, e1: Element, a: string, b: string, was: seq<Step>) returns (steps: seq<Step>)
    requires Legal(env, Start([d, d]), was) && Run(env, Start([d, d]), was) == TwoConnected(d, e0, e1, a, b, false)
    ensures Legal(env, Start([d, d]), steps) && Run(env, Start([d, d]), steps) == TwoConnected(d, e0, e1, a, b, true)
  {
    var s0 := Start([d, d]);
    var w := TwoConnected(d, e0, e1, a, b, false);
    SendOne(env, w, 0, e0, a, d);
    OneStepMore(env, s0, was, Go(0, SendHeader));
    steps, w := was + [Go(0, SendHeader)], Apply(env, w, Go(0, SendHeader));
    SendOne(env, w, 1, e1, b, d);
    OneStepMore(env, s0, steps, Go(1, SendHeader));
    steps := steps + [Go(1, SendHeader)];
  }

  lemma AcceptTwice(env: Env, d: nat, e0: Element, e1: Element, a: string, b: string, was: seq<Step>) returns (steps: seq<Step>)
    requires Legal(env, Start([d, d]), was) && Run(env, Start([d, d]), was) == TwoConnected(d, e0, e1, a, b, true)
    ensures Legal(env, Start([d, d]), steps) && Run(env, Start([d, d]), steps) == TwoAccepted(d, e0, e1, a, b, false)
  {
    var w := TwoConnected(d, e0, e1, a, b, true);
    AcceptOne(env, w, 0, e0, a, d);
    OneStepMore(env, Start([d, d]), was, Accept(0, 7));
    steps, w := was + [Accept(0, 7)], Apply(env, w, Accept(0, 7));
    AcceptOne(env, w, 1, e1, b, d);
    OneStepMore(env, Start([d, d]), steps, Accept(1, 7));
    steps := steps + [Accept(1, 7)];
  }

  lemma FirstShape(w: World, d: nat, e0: Element, e1: Element, a: string, b: string)
    requires w == TwoAccepted(d, e0, e1, a, b, false)
    ensures w.procs[0] == Machine(d, 0, true, true) && w.conns[0] == Call0(0, e0, a, true, true, false)
    ensures w.threads[2] == Stone(0, e0, a, false) && |w.disk.fetchers| == 0
    ensures World(w.procs, w.conns[0 := Call0(0, e0, a, true, true, true)], w.threads[2 := Stone(0, e0, a, true)],
        w.disk.(fetchers := w.disk.fetchers + [Fetcher(FileName(d, 7), a, Started)]), w.owners + [2])
      == TwoAccepted(d, e0, e1, a, b, true)
  {
  }

  lemma SecondShape(w: World, d: nat, e0: Element, e1: Element, a: string, b: string)
    requires w == TwoAccepted(d, e0, e1, a, b, true)
    ensures w.procs[1] == Machine(d, 1, true, true) && w.conns[1] == Call0(1, e1, b, true, true, false)
    ensures w.threads[3] == Stone(1, e1, b, false) && |w.disk.fetchers| == 1
    ensures World(w.procs, w.conns[1 := Call0(1, e1, b, true, true, true)], w.threads[3 := Stone(1, e1, b, true)],
        w.disk.(fetchers := w.disk.fetchers + [Fetcher(FileName(d, 7), b, Started)]), w.owners + [3])
      == TwoFetching(d, e0, e1, a, b)
  {
  }

  lemma FirstReceives(env: Env, w: World, v: World, t: nat, d: nat, e0: Element, e1: Element, a: string, b: string)
    requires w == TwoAccepted(d, e0, e1, a, b, false) && t == 2 && v == TwoAccepted(d, e0, e1, a, b, true)
    ensures Enabled(env, w, Go(t, RecvHeader)) && Apply(env, w, Go(t, RecvHeader)) == v
  {
    FirstShape(w, d, e0, e1, a, b);
    ReceiveOne(env, w, 0, e0, a, d);
  }

  lemma SecondReceives(env: Env, w: World, v: World, t: nat, d: nat, e0: Element, e1: Element, a: string, b: string)
    requires w == TwoAccepted(d, e0, e1, a, b, true) && t == 3 && v == TwoFetching(d, e0, e1, a, b)
    ensures Enabled(env, w, Go(t, RecvHeader)) && Apply(env, w, Go(t, RecvHeader)) == v
  {
    SecondShape(w, d, e0, e1, a, b);
    ReceiveOne(env, w, 1, e1, b, d);
  }

  lemma ReceiveTwice(env: Env, s0: World, d: nat, e0: Element, e1: Element, a: string, b: string, was: seq<Step>) returns (steps: seq<Step>)
    requires Legal(env, s0, was) && Run(env, s0, was) == TwoAccepted(d, e0, e1, a, b, false)
    ensures Legal(env, s0, steps) && Run(env, s0, steps) == TwoFetching(d, e0, e1, a, b)
  {
    FirstReceives(env, TwoAccepted(d, e0, e1, a, b, false), TwoAccepted(d, e0, e1, a, b, true), 2, d, e0, e1, a, b);
    OneStepMore(env, s0, was, Go(2, RecvHeader));
    SecondReceives(env, TwoAccepted(d, e0, e1, a, b, true), TwoFetching(d, e0, e1, a, b), 3, d, e0, e1, a, b);
    OneStepMore(env, s0, was + [Go(2, RecvHeader)], Go(3, RecvHeader));
    steps := was + [Go(2, RecvHeader)] + [Go(3, RecvHeader)];
  }

  lemma FetchTwice(env: Env, d: nat, e0: Element, e1: Element, a: string, b: string, was: seq<Step>) returns (steps: seq<Step>)
    requires Legal(env, Start([d, d]), was) && Run(env, Start([d, d]), was) == TwoFetching(d, e0, e1, a, b)
    requires Ordered(Fetcher(FileName(d, 7), a, Started), env.web) && Ordered(Fetcher(FileName(d, 7), b, Started), env.web)
    requires env.web.content(b) != []
    ensures Legal(env, Start([d, d]), steps)
    ensures var w := Run(env, Start([d, d]), steps);
      |w.disk.fetchers| == 2 && w.disk.fetchers[0] == Fetcher(FileName(d, 7), a, Mapped(env.web.content(b)))
  {
    var s0 := Start([d, d]);
    OneStepMore(env, s0, was, Go(2, Download));
    steps := was + [Go(2, Download)];
    OneStepMore(env, s0, steps, Go(3, Download));
    steps := steps + [Go(3, Download)];
    OneStepMore(env, s0, steps, Go(2, MapFile(8)));
    steps := steps + [Go(2, MapFile(8))];
  }

  /** Two stones in one directory: a run in which the stone asked for `a` maps the file of `b`, because
      both serve on the same number. */
  lemma SharedDirectoryMixesFiles(env: Env, d: nat, e0: Element, e1: Element, a: string, b: string) returns (steps: seq<Step>)
    requires env.where(e0) == 0 && env.where(e1) == 1 && env.web.content(b) != []
    requires Ordered(Fetcher(FileName(d, 7), a, Started), env.web) && Ordered(Fetcher(FileName(d, 7), b, Started), env.web)
    ensures Legal(env, Start([d, d]), steps)
    ensures var w := Run(env, Start([d, d]), steps);
      |w.disk.fetchers| == 2 && w.disk.fetchers[0] == Fetcher(FileName(d, 7), a, Mapped(env.web.content(b)))
  {
    steps := AskTwice(env, d, e0, e1, a, b);
    steps := ConnectTwice(env, d, e0, e1, a, b, steps);
    steps := SendTwice(env, d, e0, e1, a, b, steps);
    steps := AcceptTwice(env, d, e0, e1, a, b, steps);
    steps := ReceiveTwice(env, Start([d, d]), d, e0, e1, a, b, steps);
    steps := FetchTwice(env, d, e0, e1, a, b, steps);
  }
}
