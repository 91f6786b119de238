/** Runs of module Stones end: without new requests every call makes progress. */
module StonesProgress {
  import opened Basics
  import opened Chain
  import opened Downloads
  import opened Stones
  import opened StonesSafety
  import opened StonesService

  // ---------------------------------------------------------------- sums

  function Sum<T>(weight: T -> nat, s: seq<T>): nat {
    if s == [] then 0 else Sum(weight, s[..|s| - 1]) + weight(s[|s| - 1])
  }

  lemma SumAppend<T>(weight: T -> nat, s: seq<T>, x: T)
    ensures Sum(weight, s + [x]) == Sum(weight, s) + weight(x)
  {
    assert (s + [x])[..|s|] == s;
  }

  lemma {:induction false} SumSame<T>(weight: T -> nat, s: seq<T>, r: seq<T>)
    requires |s| == |r| && forall i | 0 <= i < |s| :: weight(s[i]) == weight(r[i])
    ensures Sum(weight, s) == Sum(weight, r)
  {
    if s != [] {
      SumSame(weight, s[..|s| - 1], r[..|r| - 1]);
    }
  }

  /** Only place `k` differs. */
  lemma {:induction false} SumChange<T>(weight: T -> nat, s: seq<T>, r: seq<T>, k: nat)
    requires k < |s| == |r| && forall i | 0 <= i < |s| && i != k :: weight(s[i]) == weight(r[i])
    ensures Sum(weight, s) + weight(r[k]) == Sum(weight, r) + weight(s[k])
  {
    if k == |s| - 1 {
      SumSame(weight, s[..k], r[..k]);
    } else {
      SumChange(weight, s[..|s| - 1], r[..|r| - 1], k);
    }
  }

  // ---------------------------------------------------------------- how much there is left to do

  function Minus(a: nat, b: nat): nat {
    if a < b then 0 else a - b
  }

  /** The file and its header. */
  function Length(env: Env, url: string): nat {
    5 + |env.web.content(url)|
  }

  /** The calls from the receiving of a header on, at this stone and all later ones, for a list of
      `n` elements and so many bytes on the way back. */
  function FromHeader(n: nat, length: nat): nat {
    if n == 0 then length + 5 else 6 + 2 * n + length + FromHeader(n - 1, length)
  }

  /** The same once the list is complete. */
  function FromChoice(n: nat, length: nat): nat {
    5 + n + length + if n == 0 then 0 else FromHeader(n - 1, length)
  }

  /** The length of the list on the last link. */
  function Rest(order: Request, trip: Trip): nat {
    Minus(|order.elements|, |trip.links|)
  }

  function EndWork(e: End): nat {
    if e.Open? then 1 else 0
  }

  function StageWork(env: Env, th: Thread): nat {
    var length := Length(env, th.order.fName);
    match th.stage
    case Announced => FromHeader(Rest(th.order, th.trip), length)
    case Listing(size, _, list) => Minus(size, |list|) + FromChoice(size, length)
    case Choosing(_, list) => FromChoice(|list|, length)
    case Heading(_, list, _) => 1 + |list| + length
    case Sending(_, list, _, i) => Minus(|list|, i) + length
    case Waiting => Minus(length, |th.got|)
    case Reading(_, _, pos) => 1 + Minus(length, pos)
    case _ => 0
  }

  function ThreadWork(env: Env): Thread -> nat {
    (th: Thread) => EndWork(th.sock) + EndWork(th.out) + StageWork(env, th)
  }

  function ConnWork(env: Env): Connection -> nat {
    (c: Connection) => if c.taker.Some? then 0 else 2 + FromHeader(Rest(c.order, c.trip), Length(env, c.order.fName))
  }

  function FetcherWork(env: Env): Fetcher -> nat {
    (f: Fetcher) => if f.stage.Started? then Length(env, f.url) + 4 else if f.stage.Downloaded? then Length(env, f.url) + 3 else 0
  }

  function Work(env: Env, w: World): nat {
    Sum(ThreadWork(env), w.threads) + Sum(ConnWork(env), w.conns) + Sum(FetcherWork(env), w.disk.fetchers)
  }

  // ---------------------------------------------------------------- every call is progress

  /** Thread `t` has less to do, and nothing else changes what there is to do. */
  lemma LessWork(env: Env, w: World, v: World, t: nat)
    requires t < |w.threads| == |v.threads| && v.threads == w.threads[t := v.threads[t]]
    requires |v.conns| == |w.conns| && forall c | 0 <= c < |w.conns| :: ConnWork(env)(v.conns[c]) == ConnWork(env)(w.conns[c])
    requires v.disk.fetchers == w.disk.fetchers
    requires ThreadWork(env)(v.threads[t]) < ThreadWork(env)(w.threads[t])
    ensures Work(env, v) < Work(env, w)
  {
    SumChange(ThreadWork(env), w.threads, v.threads, t);
    SumSame(ConnWork(env), w.conns, v.conns);
  }

  /** The same for a step of fetcher `i`. */
  lemma LessFetching(env: Env, w: World, v: World, t: nat, i: nat)
    requires t < |w.threads| == |v.threads| && v.threads == w.threads[t := v.threads[t]] && v.conns == w.conns
    requires i < |w.disk.fetchers| == |v.disk.fetchers|
    requires forall j | 0 <= j < |w.disk.fetchers| && j != i :: v.disk.fetchers[j] == w.disk.fetchers[j]
    requires ThreadWork(env)(v.threads[t]) + FetcherWork(env)(v.disk.fetchers[i])
           < ThreadWork(env)(w.threads[t]) + FetcherWork(env)(w.disk.fetchers[i])
    ensures Work(env, v) < Work(env, w)
  {
    SumChange(ThreadWork(env), w.threads, v.threads, t);
    SumChange(FetcherWork(env), w.disk.fetchers, v.disk.fetchers, i);
  }

  lemma FetchBegins(env: Env, w: World, t: nat, url: string)
    requires t < |w.threads| && w.threads[t].sock.Open? && w.threads[t].proc < |w.procs| && w.threads[t].stage.Announced?
    requires url == w.threads[t].order.fName && Rest(w.threads[t].order, w.threads[t].trip) == 0
    ensures Work(env, BeginFetch(w, t, url)) < Work(env, w)
  {
    var v := BeginFetch(w, t, url);
    SumChange(ThreadWork(env), w.threads, v.threads, t);
    SumAppend(FetcherWork(env), w.disk.fetchers, v.disk.fetchers[|w.disk.fetchers|]);
  }

  lemma ListingBegins(env: Env, w: World, t: nat, n: nat, fName: string)
    requires t < |w.threads| && w.threads[t].stage.Announced? && Rest(w.threads[t].order, w.threads[t].trip) == n > 0
    ensures Work(env, SetStage(w, t, Listing(n, fName, []))) < Work(env, w)
  {
    LessWork(env, w, SetStage(w, t, Listing(n, fName, [])), t);
  }

  lemma ReceivedWork(env: Env, w: World, c: nat)
    requires c < |w.conns|
    ensures Work(env, Received(w, c)) == Work(env, w)
  {
    SumSame(ConnWork(env), w.conns, Received(w, c).conns);
  }

  lemma HeaderProgress(env: Env, w: World, t: nat)
    requires Self(env, w, t) && w.threads[t].proc < |w.procs| && CanCall(env, w, t, RecvHeader)
    ensures Work(env, ReceiveHeader(w, t)) < Work(env, w)
  {
    var th := w.threads[t];
    var h, c := Held(th.order, th.trip), th.sock.conn;
    HeaderArrives(env, w, t);
    HeldOk(th.order, th.trip);
    ReceivedWork(env, w, c);
    if h.elements == [] {
      FetchBegins(env, Received(w, c), t, h.fName);
    } else {
      ListingBegins(env, Received(w, c), t, |h.elements|, h.fName);
    }
  }

  lemma ElementProgress(env: Env, w: World, t: nat)
    requires Self(env, w, t) && w.threads[t].proc < |w.procs| && CanCall(env, w, t, RecvElement)
    ensures Work(env, ReceiveElement(w, t)) < Work(env, w)
  {
    ListGrows(env, w, t);
    LessWork(env, w, ReceiveElement(w, t), t);
  }

  lemma CrashProgress(env: Env, w: World, t: nat)
    requires t < |w.threads| && w.threads[t].stage.Choosing?
    ensures Work(env, SetStage(w, t, Crashed)) < Work(env, w)
  {
    LessWork(env, w, SetStage(w, t, Crashed), t);
  }

  /** The thread has less to do by what there is to do on the new connection, and more. */
  lemma ConnectProgress(env: Env, w: World, v: World, t: nat)
    requires t < |w.threads| && w.threads[t].stage.Choosing? && w.threads[t].out.Absent?
    requires |w.threads| == |v.threads| && v.threads == w.threads[t := v.threads[t]] && v.disk == w.disk
    requires |v.conns| == |w.conns| + 1 && v.conns == w.conns + [v.conns[|w.conns|]]
    requires var th := v.threads[t];
      && th.stage.Heading? && th.stage.list == w.threads[t].stage.list != [] && th.out.Open?
      && th.sock == w.threads[t].sock && th.order == w.threads[t].order
    requires var c := v.conns[|w.conns|];
      c.taker.None? && c.order == w.threads[t].order && Rest(c.order, c.trip) == |w.threads[t].stage.list| - 1
    ensures Work(env, v) < Work(env, w)
  {
    SumChange(ThreadWork(env), w.threads, v.threads, t);
    SumAppend(ConnWork(env), w.conns, v.conns[|w.conns|]);
  }

  lemma ChoiceProgress(env: Env, w: World, t: nat, n: nat)
    requires Self(env, w, t) && w.threads[t].proc < |w.procs| && CanCall(env, w, t, Connect(n))
    ensures Work(env, ConnectNext(env, w, t, n)) < Work(env, w)
  {
    var th, v := w.threads[t], ConnectNext(env, w, t, n);
    HeldOk(th.order, th.trip);
    if v.threads[t].stage.Crashed? {
      CrashProgress(env, w, t);
    } else {
      ConnectProgress(env, w, v, t);
    }
  }

  lemma SendHeaderProgress(env: Env, w: World, t: nat)
    requires t < |w.threads| && w.threads[t].proc < |w.procs| && CanCall(env, w, t, SendHeader)
    ensures Work(env, PutHeader(w, t)) < Work(env, w)
  {
    LessWork(env, w, PutHeader(w, t), t);
  }

  lemma SendElementProgress(env: Env, w: World, t: nat)
    requires t < |w.threads| && w.threads[t].proc < |w.procs| && CanCall(env, w, t, SendElement)
    ensures Work(env, PutElement(w, t)) < Work(env, w)
  {
    LessWork(env, w, PutElement(w, t), t);
  }

  lemma PassedProgress(env: Env, w: World, t: nat, n: nat)
    requires t < |w.threads| && EndsOk(w, t, w.threads[t]) && w.threads[t].out.Open? && |w.owners| == |w.disk.fetchers|
    requires w.threads[t].stage.Waiting? && n > 0
    requires |env.web.content(w.threads[t].order.fName)| < 0x8000_0000 && |w.threads[t].got| + n <= |Due(env, w.threads[t].order)|
    ensures Work(env, PassedOn(env, w, t, n)) < Work(env, w)
  {
    LessWork(env, w, PassedOn(env, w, t, n), t);
  }

  lemma PassProgress(env: Env, w: World, t: nat, n: nat)
    requires CanPass(env, w, t, n) && |w.owners| == |w.disk.fetchers| && n > 0
    ensures Work(env, PassChunk(w, t, n)) < Work(env, w)
  {
    NextChunk(env, w, t, n);
    PassChunkIs(env, w, t, n);
    PassedProgress(env, w, t, n);
  }

  lemma CloseProgress(env: Env, w: World, t: nat, call: Call)
    requires t < |w.threads| && w.threads[t].proc < |w.procs| && CanCall(env, w, t, call)
    requires call.CloseOut? || call.CloseSock?
    ensures Work(env, Perform(env, w, t, call)) < Work(env, w)
  {
    LessWork(env, w, Perform(env, w, t, call), t);
  }

  lemma ChunkProgress(env: Env, w: World, t: nat, n: nat)
    requires Self(env, w, t) && DiskOk(w.disk, env.web) && w.threads[t].proc < |w.procs| && CanCall(env, w, t, SendFile(n))
    ensures Work(env, SendChunk(w, t, n)) < Work(env, w)
  {
    CanSendOk(env, w, t, n);
    SendChunkIs(env, w, t, n);
    LessWork(env, w, SendChunk(w, t, n), t);
  }

  lemma FetchProgress(env: Env, w: World, t: nat, call: Call)
    requires t < |w.threads| && StageOk(env, w, t, w.threads[t]) && w.threads[t].proc < |w.procs| && CanCall(env, w, t, call)
    requires call.Download? || call.MapFile? || call.RemoveFile?
    ensures Work(env, Perform(env, w, t, call)) < Work(env, w)
  {
    LessFetching(env, w, Perform(env, w, t, call), t, w.threads[t].stage.fetch);
  }

  lemma AcceptProgress(env: Env, w: World, c: nat, n: nat)
    requires Enabled(env, w, Accept(c, n))
    ensures Work(env, Apply(env, w, Accept(c, n))) < Work(env, w)
  {
    var v := Apply(env, w, Accept(c, n));
    SumChange(ConnWork(env), w.conns, v.conns, c);
    SumAppend(ThreadWork(env), w.threads, v.threads[|w.threads|]);
  }

  lemma CallIsProgress(env: Env, w: World, t: nat, call: Call)
    requires Self(env, w, t) && |w.owners| == |w.disk.fetchers| && DiskOk(w.disk, env.web)
    requires w.threads[t].proc < |w.procs| && CanCall(env, w, t, call)
    ensures Work(env, Perform(env, w, t, call)) < Work(env, w)
  {
    match call
    case RecvHeader => HeaderProgress(env, w, t);
    case RecvElement => ElementProgress(env, w, t);
    case Connect(n) => ChoiceProgress(env, w, t, n);
    case SendHeader => SendHeaderProgress(env, w, t);
    case SendElement => SendElementProgress(env, w, t);
    case SendFile(n) => ChunkProgress(env, w, t, n);
    case PassOn(n) => PassProgress(env, w, t, n);
    case CloseOut => CloseProgress(env, w, t, call);
    case CloseSock => CloseProgress(env, w, t, call);
    case _ => FetchProgress(env, w, t, call);
  }

  lemma StepIsProgress(env: Env, w: World, step: Step)
    requires Inv(env, w) && Enabled(env, w, step) && !step.Ask?
    ensures Work(env, Apply(env, w, step)) < Work(env, w)
  {
    match step
    case Accept(c, n) => AcceptProgress(env, w, c, n);
    case Go(t, call) =>
      SelfOk(env, w, t);
      CallIsProgress(env, w, t, call);
  }

  // ---------------------------------------------------------------- and so every run ends

  ghost predicate NoAsk(steps: seq<Step>) {
    forall i | 0 <= i < |steps| :: !steps[i].Ask?
  }

  lemma {:induction false} WorkBoundsRun(env: Env, w: World, steps: seq<Step>)
    requires Sane(env) && Inv(env, w) && Legal(env, w, steps) && NoAsk(steps)
    ensures |steps| + Work(env, Run(env, w, steps)) <= Work(env, w)
    decreases |steps|
  {
    if steps != [] {
      StepIsProgress(env, w, steps[0]);
      StepKeepsInv(env, w, steps[0]);
      WorkBoundsRun(env, Apply(env, w, steps[0]), steps[1..]);
    }
  }

  /** After any history, as soon as no more requests are asked for, the stones stop within that many
      steps, whatever the interleaving. */
  lemma QuietRunIsBounded(env: Env, dirs: seq<nat>, steps: seq<Step>, more: seq<Step>)
    requires Sane(env) && NoRepeats(dirs) && Legal(env, Start(dirs), steps)
    requires Legal(env, Run(env, Start(dirs), steps), more) && NoAsk(more)
    ensures |more| <= Work(env, Run(env, Start(dirs), steps))
  {
    StartInv(env, dirs);
    RunKeepsInv(env, Start(dirs), steps);
    WorkBoundsRun(env, Run(env, Start(dirs), steps), more);
  }
}
