/** The invariant of module Stones: what every call of every thread keeps. */
module StonesSafety {
  import opened Basics
  import opened Bytes
  import opened Chain
  import opened Downloads
  import opened Stones

  // ---------------------------------------------------------------- what a request must look like

  /** The request on the last link. */
  function Held(order: Request, trip: Trip): Request {
    if trip.links == [] then order else trip.links[|trip.links| - 1]
  }

  /** All links of the trip so far are in order, each with respect to the request first asked for. */
  ghost predicate TripOk(order: Request, trip: Trip) {
    && Consistent(order) && order.elements != [] && |trip.visited| == |trip.links|
    && forall k: nat | k < |trip.links| :: LinkOk(order, trip, k)
  }

  /** If the check held of the request asked for, it holds of the one on the last link, and the stone
      there can print whatever it draws. */
  ghost predicate RoomyAt(names: Names, order: Request, trip: Trip) {
    Roomy(names, order) ==> Roomy(names, Held(order, trip)) && (trip.visited != [] ==> PrintsAll(names, order, trip))
  }

  ghost predicate PrintsAll(names: Names, order: Request, trip: Trip)
    requires trip.visited != []
  {
    var h := Held(order, trip);
    forall j: nat | j < |h.elements| :: Chain.Fits(names(trip.visited[|trip.visited| - 1]), h.fName, h.elements, h.elements[j])
  }

  lemma HeldOk(order: Request, trip: Trip)
    requires TripOk(order, trip)
    ensures var h := Held(order, trip);
      && Consistent(h) && h.fName == order.fName && |h.elements| == |order.elements| - |trip.links|
      && multiset(trip.visited) + multiset(h.elements) == multiset(order.elements)
  {
    if trip.links != [] {
      var k: nat := |trip.links| - 1;
      assert LinkOk(order, trip, k) && trip.visited[..k + 1] == trip.visited;
    }
  }

  lemma ExtendedOk(order: Request, trip: Trip, next: nat)
    requires TripOk(order, trip) && next < |Held(order, trip).elements| < 0x1_0000_0000
    ensures var e := Extended(trip, order.fName, Held(order, trip).elements, next);
      TripOk(order, e) && e.links != []
  {
    var list := Held(order, trip).elements;
    var e := Extended(trip, order.fName, list, next);
    HeldOk(order, trip);
    WithoutPermutes(list, next);
    forall k: nat | k < |e.links| ensures LinkOk(order, e, k) {
      if k < |trip.links| {
        assert LinkOk(order, trip, k) && e.visited[..k + 1] == trip.visited[..k + 1];
      } else {
        assert e.visited[..k + 1] == trip.visited + [list[next]];
      }
    }
  }

  lemma ExtendedRoomy(names: Names, order: Request, trip: Trip, next: nat)
    requires TripOk(order, trip) && next < |Held(order, trip).elements| < 0x1_0000_0000 && RoomyAt(names, order, trip)
    ensures RoomyAt(names, order, Extended(trip, order.fName, Held(order, trip).elements, next))
  {
    var h := Held(order, trip);
    var e := Extended(trip, order.fName, h.elements, next);
    HeldOk(order, trip);
    SmallModulo(next, |h.elements|);
    if Roomy(names, order) {
      assert Held(order, e) == Pass(h, next).request;
      forall j: nat | j < |Held(order, e).elements|
        ensures Chain.Fits(names(e.visited[|e.visited| - 1]), order.fName, Held(order, e).elements, Held(order, e).elements[j])
      {
        RoomyStep(names, h, next, j);
        SmallModulo(j, |Held(order, e).elements|);
      }
      RoomyStep(names, h, next, 0);
    }
  }

  // ---------------------------------------------------------------- the invariant

  /** Files stay below 2^31 bytes. */
  ghost predicate Sane(env: Env) {
    forall url :: |env.web.content(url)| < 0x8000_0000
  }

  /** What is to come back for a request. */
  function Due(env: Env, order: Request): seq<byte>
    requires |env.web.content(order.fName)| < 0x8000_0000
  {
    Frame(env.web.content(order.fName))
  }

  /** A connection leads to the stone last visited, what was sent is the beginning of the list header
      and list of its link, nothing else, and what comes back is the beginning of its file. */
  ghost predicate ConnOk(env: Env, c: Connection) {
    && TripOk(c.order, c.trip) && RoomyAt(env.names, c.order, c.trip) && c.trip.links != []
    && c.dest == env.where(c.trip.visited[|c.trip.visited| - 1])
    && c.sent <= Messages(Held(c.order, c.trip)) && c.read <= |c.sent|
    && |env.web.content(c.order.fName)| < 0x8000_0000
    && c.back <= Due(env, c.order) && c.taken <= |c.back|
    && (c.taker.None? ==> c.read == 0 && c.back == [])
  }

  function ConnOf(e: End): Option<nat> {
    match e
    case Absent => None
    case Open(_, c) => Some(c)
    case Closed(c) => Some(c)
  }

  /** The number refers to this target in the process's table. */
  predicate Refers(w: World, p: nat, number: nat, target: Target) {
    p < |w.procs| && number in Table(w, p) && Table(w, p)[number] == target
  }

  /** A thread's numbers refer to what they were given out for; its socket serves its request, and its
      outgoing connection is one link further. */
  ghost predicate EndsOk(w: World, t: nat, th: Thread) {
    && th.proc < |w.procs|
    && (th.sock.Absent? <==> th.trip.links == []) && (th.sock.Absent? ==> th.ask == t)
    && (ConnOf(th.sock).Some? ==>
          && ConnOf(th.sock).value < |w.conns|
          && var c := w.conns[ConnOf(th.sock).value];
             c.taker == Some(t) && c.ask == th.ask && c.order == th.order && c.trip == th.trip)
    && (th.sock.Open? ==> Refers(w, th.proc, th.sock.number, In(th.sock.conn)))
    && (ConnOf(th.out).Some? ==>
          && ConnOf(th.out).value < |w.conns|
          && var c := w.conns[ConnOf(th.out).value];
             c.from == t && c.ask == th.ask && c.order == th.order && |c.trip.links| == |th.trip.links| + 1)
    && (th.out.Open? ==> Refers(w, th.proc, th.out.number, Out(th.out.conn)))
  }

  /** The thread's outgoing connection is the next link, with `count` messages sent. */
  ghost predicate NextLink(w: World, th: Thread, next: nat, count: nat) {
    && ConnOf(th.out).Some? && ConnOf(th.out).value < |w.conns|
    && next < |Held(th.order, th.trip).elements| < 0x1_0000_0000
    && var c := w.conns[ConnOf(th.out).value];
       && c.trip == Extended(th.trip, th.order.fName, Held(th.order, th.trip).elements, next)
       && count <= |Messages(Held(th.order, c.trip))| && c.sent == Messages(Held(th.order, c.trip))[..count]
  }

  /** All messages of the next link have been sent. */
  ghost predicate LinkDone(w: World, th: Thread) {
    && ConnOf(th.out).Some? && ConnOf(th.out).value < |w.conns|
    && var c := w.conns[ConnOf(th.out).value]; c.sent == Messages(Held(c.order, c.trip))
  }

  /** What the thread has sent back, if it serves a connection. */
  ghost predicate BackIs(w: World, th: Thread, bytes: seq<byte>) {
    ConnOf(th.sock).Some? ==> ConnOf(th.sock).value < |w.conns| && w.conns[ConnOf(th.sock).value].back == bytes
  }

  /** What the thread has got is what has been taken from its outgoing connection. */
  ghost predicate GotIs(w: World, th: Thread) {
    && ConnOf(th.out).Some? && ConnOf(th.out).value < |w.conns|
    && var c := w.conns[ConnOf(th.out).value];
       c.taken <= |c.back| && th.got == c.back[..c.taken]
  }

  /** The thread is still in front of the send loop: it has opened nothing and got nothing. */
  ghost predicate Early(w: World, th: Thread) {
    th.out.Absent? && th.got == [] && BackIs(w, th, [])
  }

  /** What the thread has received is what its link carries, what it does with it fits, and what comes
      back is passed on. */
  ghost predicate StageOk(env: Env, w: World, t: nat, th: Thread) {
    var h := Held(th.order, th.trip);
    match th.stage
    case Announced => Early(w, th) && th.sock.Open? && th.sock.conn < |w.conns| && w.conns[th.sock.conn].read == 0
    case Listing(size, fName, list) =>
      && Early(w, th) && th.sock.Open? && th.sock.conn < |w.conns| && w.conns[th.sock.conn].read == 1 + |list|
      && size == |h.elements| && fName == h.fName && |list| < size && list == h.elements[..|list|]
    case Choosing(fName, list) => Early(w, th) && !th.sock.Closed? && fName == h.fName && list == h.elements && list != []
    case Heading(fName, list, next) =>
      && fName == h.fName && list == h.elements && NextLink(w, th, next, 0)
      && th.out.Open? && !th.sock.Closed? && th.got == [] && GotIs(w, th) && BackIs(w, th, [])
    case Sending(fName, list, next, i) => fName == h.fName && list == h.elements && SendingOk(w, th, next, i)
    case Waiting => WaitingOk(w, th)
    case Fetching(i) =>
      && FetchOk(env, w, t, th, i) && !w.disk.fetchers[i].stage.Mapped?
      && BackIs(w, th, if w.disk.fetchers[i].stage.Removed? then Due(env, th.order) else [])
    case Reading(i, fd, pos) => MappedOk(env, w, t, th, i, fd) && ReadingOk(env, w, th, pos)
    case Crashed => Early(w, th) && !th.sock.Closed? && !Roomy(env.names, th.order)
    case Confused => false
  }

  ghost predicate SendingOk(w: World, th: Thread, next: nat, i: nat) {
    && i < |Held(th.order, th.trip).elements| && NextLink(w, th, next, if i <= next then 1 + i else i)
    && th.out.Open? && !th.sock.Closed? && th.got == [] && GotIs(w, th) && BackIs(w, th, [])
  }

  ghost predicate WaitingOk(w: World, th: Thread) {
    && Held(th.order, th.trip).elements != [] && LinkDone(w, th) && GotIs(w, th) && BackIs(w, th, th.got)
    && (th.out.Closed? ==> Complete(th.got)) && (th.sock.Closed? ==> th.out.Closed?)
  }

  ghost predicate MappedOk(env: Env, w: World, t: nat, th: Thread, i: nat, fd: nat) {
    FetchOk(env, w, t, th, i) && w.disk.fetchers[i].stage.Mapped? && Refers(w, th.proc, fd, Temp(t))
  }

  ghost predicate ReadingOk(env: Env, w: World, th: Thread, pos: nat) {
    && |env.web.content(th.order.fName)| < 0x8000_0000 && th.sock.Open?
    && pos <= |Due(env, th.order)| && BackIs(w, th, Due(env, th.order)[..pos])
  }

  /** The thread fetches the file its request asks for, every stone visited, under the name that
      its open socket gives it. */
  ghost predicate FetchOk(env: Env, w: World, t: nat, th: Thread, i: nat) {
    && i < |w.disk.fetchers| == |w.owners| && w.owners[i] == t && th.proc < |w.procs|
    && Held(th.order, th.trip).elements == [] && w.disk.fetchers[i].url == th.order.fName
    && !th.sock.Absent? && th.out.Absent? && th.got == []
    && (!w.disk.fetchers[i].Finished() ==>
          th.sock.Open? && w.disk.fetchers[i].file == FileName(w.procs[th.proc].dir, th.sock.number))
    && |env.web.content(th.order.fName)| < 0x8000_0000
  }

  ghost predicate ThreadOk(env: Env, w: World, t: nat, th: Thread) {
    && TripOk(th.order, th.trip) && RoomyAt(env.names, th.order, th.trip)
    && EndsOk(w, t, th) && StageOk(env, w, t, th)
  }

  function FetchOf(th: Thread): Option<nat> {
    match th.stage
    case Fetching(i) => Some(i)
    case Reading(i, _, _) => Some(i)
    case _ => None
  }

  ghost predicate OwnersOk(w: World) {
    && |w.owners| == |w.disk.fetchers|
    && forall i | 0 <= i < |w.owners| :: w.owners[i] < |w.threads| && FetchOf(w.threads[w.owners[i]]) == Some(i)
  }

  /** The connection was opened by the thread it says, and is served by the one it says. */
  ghost predicate Owned(w: World, c: nat)
    requires c < |w.conns|
  {
    && w.conns[c].from < |w.threads| && ConnOf(w.threads[w.conns[c].from].out) == Some(c)
    && (w.conns[c].taker.Some? ==>
          w.conns[c].taker.value < |w.threads| && ConnOf(w.threads[w.conns[c].taker.value].sock) == Some(c))
  }

  ghost predicate ConnsOwned(w: World) {
    forall c: nat | c < |w.conns| :: Owned(w, c)
  }

  /** The thread works for an awget, on the request that one asked for. */
  ghost predicate WorksFor(w: World, t: nat)
    requires t < |w.threads|
  {
    var ask := w.threads[t].ask;
    ask < |w.threads| && w.threads[ask].sock.Absent? && w.threads[ask].order == w.threads[t].order
  }

  ghost predicate AsksOk(w: World) {
    forall t: nat | t < |w.threads| :: WorksFor(w, t)
  }

  /** Every process has a directory of its own. */
  ghost predicate OwnDirs(w: World) {
    forall p, q | 0 <= p < q < |w.procs| :: w.procs[p].dir != w.procs[q].dir
  }

  ghost predicate DiskOk(d: Disk, web: Web) {
    Safe(d, web) && Exclusive(d, web) && forall name :: Covered(d, name, web)
  }

  ghost predicate Inv(env: Env, w: World) {
    && OwnDirs(w) && OwnersOk(w) && ConnsOwned(w) && AsksOk(w)
    && (forall c | 0 <= c < |w.conns| :: ConnOk(env, w.conns[c]))
    && (forall t | 0 <= t < |w.threads| :: ThreadOk(env, w, t, w.threads[t]))
    && DiskOk(w.disk, env.web)
  }

  // ---------------------------------------------------------------- threads that are not disturbed

  ghost predicate SameDirs(w: World, v: World) {
    |v.procs| == |w.procs| && forall p | 0 <= p < |w.procs| :: v.procs[p].dir == w.procs[p].dir
  }

  ghost predicate Kept(w: World, v: World, p: nat, number: nat)
    requires p < |w.procs| == |v.procs|
  {
    number in Table(w, p) ==> Refers(v, p, number, Table(w, p)[number])
  }

  /** What the serving side of a connection relies on; the other side may send and take. */
  ghost predicate ServedSame(w: World, v: World, c: nat) {
    c < |w.conns| && c < |v.conns| && v.conns[c] == w.conns[c].(sent := v.conns[c].sent, taken := v.conns[c].taken)
  }

  /** What the opening side relies on; the other side may accept, receive and send back. */
  ghost predicate OpenedSame(w: World, v: World, c: nat) {
    && c < |w.conns| && c < |v.conns|
    && v.conns[c] == w.conns[c].(read := v.conns[c].read, taker := v.conns[c].taker, back := v.conns[c].back)
    && w.conns[c].back <= v.conns[c].back
  }

  /** What thread `u` relies on has not changed. */
  ghost predicate Undisturbed(w: World, v: World, u: nat)
    requires u < |w.threads| && w.threads[u].proc < |w.procs|
  {
    var th := w.threads[u];
    && SameDirs(w, v)
    && u < |v.threads| && v.threads[u] == th
    && (forall n | HoldsNumber(th, n) :: Kept(w, v, th.proc, n))
    && (ConnOf(th.sock).Some? ==> ServedSame(w, v, ConnOf(th.sock).value))
    && (ConnOf(th.out).Some? ==> OpenedSame(w, v, ConnOf(th.out).value))
    && (FetchOf(th).Some? && FetchOf(th).value < |w.disk.fetchers| == |w.owners| ==>
          var i := FetchOf(th).value;
          && |v.disk.fetchers| == |v.owners| && i < |v.owners|
          && v.disk.fetchers[i] == w.disk.fetchers[i] && v.owners[i] == w.owners[i])
  }

  /** The number is one of the thread's own. */
  predicate HoldsNumber(th: Thread, n: nat) {
    || (th.sock.Open? && th.sock.number == n)
    || (th.out.Open? && th.out.number == n)
    || (th.stage.Reading? && th.stage.fd == n)
  }

  lemma UndisturbedEnds(w: World, v: World, u: nat)
    requires u < |w.threads| && EndsOk(w, u, w.threads[u]) && Undisturbed(w, v, u)
    ensures EndsOk(v, u, v.threads[u])
  {
    var th := w.threads[u];
    assert th.sock.Open? ==> HoldsNumber(th, th.sock.number);
    assert th.out.Open? ==> HoldsNumber(th, th.out.number);
  }

  lemma UndisturbedStage(env: Env, w: World, v: World, u: nat)
    requires u < |w.threads| && EndsOk(w, u, w.threads[u]) && StageOk(env, w, u, w.threads[u]) && Undisturbed(w, v, u)
    ensures StageOk(env, v, u, v.threads[u])
  {
    var th := w.threads[u];
    if th.stage.Reading? {
      assert HoldsNumber(th, th.stage.fd);
    }
  }

  lemma UndisturbedOk(env: Env, w: World, v: World, u: nat)
    requires u < |w.threads| && ThreadOk(env, w, u, w.threads[u]) && Undisturbed(w, v, u)
    ensures ThreadOk(env, v, u, v.threads[u])
  {
    UndisturbedEnds(w, v, u);
    UndisturbedStage(env, w, v, u);
  }

  // ---------------------------------------------------------------- steps of one thread

  /** A step of thread `t` touches nothing but its own: its numbers, the receiving part of the connection
      it serves, the sending part of the one it opened, its fetcher. */
  ghost predicate Touched(w: World, v: World, t: nat)
    requires t < |w.threads|
  {
    var th := w.threads[t];
    && SameDirs(w, v) && |v.threads| == |w.threads| && v.threads == w.threads[t := v.threads[t]]
    && (forall p, n | 0 <= p < |w.procs| && n in Table(w, p) && !(p == th.proc && HoldsNumber(th, n)) :: Kept(w, v, p, n))
    && |w.conns| <= |v.conns|
    && (forall c | 0 <= c < |w.conns| :: ConnTouched(w, v, th, c))
    && |w.owners| <= |v.owners| && |v.owners| == |v.disk.fetchers| && |w.disk.fetchers| <= |v.disk.fetchers|
    && (forall i | 0 <= i < |w.owners| :: v.owners[i] == w.owners[i])
    && (forall i | 0 <= i < |w.disk.fetchers| && FetchOf(th) != Some(i) :: v.disk.fetchers[i] == w.disk.fetchers[i])
  }

  ghost predicate ConnTouched(w: World, v: World, th: Thread, c: nat)
    requires c < |w.conns| <= |v.conns|
  {
    if ConnOf(th.sock) == Some(c) then
      v.conns[c] == w.conns[c].(read := v.conns[c].read, back := v.conns[c].back) && w.conns[c].back <= v.conns[c].back
    else if ConnOf(th.out) == Some(c) then
      v.conns[c] == w.conns[c].(sent := v.conns[c].sent, taken := v.conns[c].taken)
    else
      v.conns[c] == w.conns[c]
  }

  /** What a thread's numbers refer to. */
  ghost predicate NumbersOk(w: World, t: nat, th: Thread) {
    EndsOk(w, t, th) && (th.stage.Reading? ==> Refers(w, th.proc, th.stage.fd, Temp(t)))
  }

  lemma NumbersDiffer(w: World, t: nat, u: nat, n: nat)
    requires t < |w.threads| && u < |w.threads| && t != u && w.threads[t].proc == w.threads[u].proc
    requires NumbersOk(w, t, w.threads[t]) && NumbersOk(w, u, w.threads[u])
    requires HoldsNumber(w.threads[t], n)
    ensures !HoldsNumber(w.threads[u], n)
  {
  }

  /** No number is held by two threads of a process. */
  lemma NumbersAreOwn(env: Env, w: World, t: nat, u: nat, n: nat)
    requires Inv(env, w) && t < |w.threads| && u < |w.threads| && t != u && w.threads[t].proc == w.threads[u].proc
    requires HoldsNumber(w.threads[t], n)
    ensures !HoldsNumber(w.threads[u], n)
  {
    assert ThreadOk(env, w, t, w.threads[t]) && ThreadOk(env, w, u, w.threads[u]);
    NumbersDiffer(w, t, u, n);
  }

  lemma FetchesAreOwn(env: Env, w: World, t: nat, u: nat)
    requires t < |w.threads| && u < |w.threads| && t != u && FetchOf(w.threads[u]).Some?
    requires StageOk(env, w, t, w.threads[t]) && StageOk(env, w, u, w.threads[u])
    ensures FetchOf(w.threads[t]) != FetchOf(w.threads[u])
    ensures FetchOf(w.threads[u]).value < |w.owners| == |w.disk.fetchers|
  {
  }

  lemma OthersNumbersKept(w: World, v: World, t: nat, u: nat)
    requires t < |w.threads| && Touched(w, v, t) && u < |w.threads| && u != t
    requires NumbersOk(w, t, w.threads[t]) && NumbersOk(w, u, w.threads[u])
    ensures forall n | HoldsNumber(w.threads[u], n) :: Kept(w, v, w.threads[u].proc, n)
  {
    forall n | HoldsNumber(w.threads[u], n) ensures Kept(w, v, w.threads[u].proc, n) {
      if w.threads[u].proc == w.threads[t].proc {
        NumbersDiffer(w, u, t, n);
      }
    }
  }

  lemma OthersConnsKept(w: World, v: World, t: nat, u: nat)
    requires t < |w.threads| && Touched(w, v, t) && u < |w.threads| && u != t
    requires EndsOk(w, t, w.threads[t]) && EndsOk(w, u, w.threads[u])
    ensures ConnOf(w.threads[u].sock).Some? ==> ServedSame(w, v, ConnOf(w.threads[u].sock).value)
    ensures ConnOf(w.threads[u].out).Some? ==> OpenedSame(w, v, ConnOf(w.threads[u].out).value)
  {
    if ConnOf(w.threads[u].sock).Some? {
      assert ConnTouched(w, v, w.threads[t], ConnOf(w.threads[u].sock).value);
    }
    if ConnOf(w.threads[u].out).Some? {
      assert ConnTouched(w, v, w.threads[t], ConnOf(w.threads[u].out).value);
    }
  }

  lemma TouchedDisturbsNobody(env: Env, w: World, v: World, t: nat, u: nat)
    requires t < |w.threads| && Touched(w, v, t) && u < |w.threads| && u != t
    requires ThreadOk(env, w, t, w.threads[t]) && ThreadOk(env, w, u, w.threads[u])
    ensures Undisturbed(w, v, u)
  {
    OthersNumbersKept(w, v, t, u);
    OthersConnsKept(w, v, t, u);
    if FetchOf(w.threads[u]).Some? {
      FetchesAreOwn(env, w, t, u);
    }
  }

  /** The thread works on the same connections, for the same awget. */
  predicate SameLine(before: Thread, after: Thread) {
    && ConnOf(after.sock) == ConnOf(before.sock) && ConnOf(after.out) == ConnOf(before.out)
    && after.ask == before.ask && after.order == before.order
  }

  lemma Rebuild(env: Env, w: World, v: World, t: nat)
    requires Inv(env, w) && t < |w.threads| && Touched(w, v, t)
    requires ThreadOk(env, v, t, v.threads[t]) && OwnersOk(v) && ConnsOwned(v) && AsksOk(v)
    requires forall c | 0 <= c < |v.conns| :: ConnOk(env, v.conns[c])
    requires DiskOk(v.disk, env.web)
    ensures Inv(env, v)
  {
    forall u | 0 <= u < |v.threads| ensures ThreadOk(env, v, u, v.threads[u]) {
      if u != t {
        assert ThreadOk(env, w, u, w.threads[u]) && ThreadOk(env, w, t, w.threads[t]);
        TouchedDisturbsNobody(env, w, v, t, u);
        UndisturbedOk(env, w, v, u);
      }
    }
  }

  lemma LineageKept(w: World, v: World, t: nat)
    requires ConnsOwned(w) && AsksOk(w) && t < |w.threads| && Touched(w, v, t) && |v.conns| == |w.conns|
    requires SameLine(w.threads[t], v.threads[t])
    ensures ConnsOwned(v) && AsksOk(v)
  {
    forall c: nat | c < |v.conns| ensures Owned(v, c) {
      assert ConnTouched(w, v, w.threads[t], c) && Owned(w, c);
    }
    forall u: nat | u < |v.threads| ensures WorksFor(v, u) {
      assert WorksFor(w, u);
    }
  }

  /** The connections that a step of thread `t` touches are still in order. */
  ghost predicate TouchedConnsOk(env: Env, w: World, v: World, t: nat)
    requires t < |w.threads|
  {
    && (ConnOf(w.threads[t].sock).Some? ==> ConnOf(w.threads[t].sock).value < |v.conns| && ConnOk(env, v.conns[ConnOf(w.threads[t].sock).value]))
    && (ConnOf(w.threads[t].out).Some? ==> ConnOf(w.threads[t].out).value < |v.conns| && ConnOk(env, v.conns[ConnOf(w.threads[t].out).value]))
  }

  /** A step of thread `t` that opens no connection and begins no fetch. */
  lemma RebuildPlain(env: Env, w: World, v: World, t: nat)
    requires Inv(env, w) && t < |w.threads| && Touched(w, v, t) && |v.conns| == |w.conns|
    requires |v.owners| == |w.owners| && |v.disk.fetchers| == |w.disk.fetchers|
    requires SameLine(w.threads[t], v.threads[t]) && FetchOf(v.threads[t]) == FetchOf(w.threads[t])
    requires ThreadOk(env, v, t, v.threads[t]) && TouchedConnsOk(env, w, v, t) && DiskOk(v.disk, env.web)
    ensures Inv(env, v)
  {
    LineageKept(w, v, t);
    OtherConnsOk(env, w, v, t);
    OwnersKept(w, v, t);
    Rebuild(env, w, v, t);
  }

  lemma OtherConnsOk(env: Env, w: World, v: World, t: nat)
    requires t < |w.threads| && Touched(w, v, t) && |v.conns| == |w.conns| && TouchedConnsOk(env, w, v, t)
    requires forall c | 0 <= c < |w.conns| :: ConnOk(env, w.conns[c])
    ensures forall c | 0 <= c < |v.conns| :: ConnOk(env, v.conns[c])
  {
    forall c | 0 <= c < |v.conns| ensures ConnOk(env, v.conns[c]) {
      assert ConnTouched(w, v, w.threads[t], c) && ConnOk(env, w.conns[c]);
    }
  }

  lemma OwnersKept(w: World, v: World, t: nat)
    requires OwnersOk(w) && t < |w.threads| && Touched(w, v, t)
    requires |v.owners| == |w.owners| && |v.disk.fetchers| == |w.disk.fetchers|
    requires FetchOf(v.threads[t]) == FetchOf(w.threads[t])
    ensures OwnersOk(v)
  {
  }

  /** What is known of a thread and its connections, apart from its stage. */
  ghost predicate Core(env: Env, w: World, t: nat) {
    && t < |w.threads| && TripOk(w.threads[t].order, w.threads[t].trip) && RoomyAt(env.names, w.threads[t].order, w.threads[t].trip)
    && EndsOk(w, t, w.threads[t]) && TouchedConnsOk(env, w, w, t)
  }

  ghost predicate Self(env: Env, w: World, t: nat) {
    Core(env, w, t) && StageOk(env, w, t, w.threads[t])
  }

  lemma SelfOk(env: Env, w: World, t: nat)
    requires Inv(env, w) && t < |w.threads|
    ensures Self(env, w, t)
  {
    assert ThreadOk(env, w, t, w.threads[t]);
  }

  ghost predicate PlainShape(w: World, v: World, t: nat)
    requires t < |w.threads|
  {
    && Touched(w, v, t) && |v.conns| == |w.conns| && |v.owners| == |w.owners| && |v.disk.fetchers| == |w.disk.fetchers|
    && SameLine(w.threads[t], v.threads[t]) && v.threads[t].trip == w.threads[t].trip && FetchOf(v.threads[t]) == FetchOf(w.threads[t])
  }

  ghost predicate PlainStep(env: Env, w: World, v: World, t: nat)
    requires t < |w.threads|
  {
    PlainShape(w, v, t) && ThreadOk(env, v, t, v.threads[t]) && TouchedConnsOk(env, w, v, t)
  }

  /** A step that leaves the connections alone. */
  lemma Assemble(env: Env, w: World, v: World, t: nat)
    requires Core(env, w, t) && PlainShape(w, v, t) && v.conns == w.conns
    requires EndsOk(v, t, v.threads[t]) && StageOk(env, v, t, v.threads[t])
    ensures PlainStep(env, w, v, t)
  {
  }

  /** A step that changes the thread's stage and what it has got, and connections of its own. */
  lemma StageStep(w: World, v: World, t: nat)
    requires t < |w.threads| == |v.threads| && EndsOk(w, t, w.threads[t])
    requires v == w.(conns := v.conns, threads := w.threads[t := w.threads[t].(stage := v.threads[t].stage, got := v.threads[t].got)])
    requires |v.conns| == |w.conns| && forall c | 0 <= c < |w.conns| :: ConnTouched(w, v, w.threads[t], c)
    requires |w.owners| == |w.disk.fetchers|
    ensures Touched(w, v, t) && EndsOk(v, t, v.threads[t]) && SameLine(w.threads[t], v.threads[t])
    ensures v.threads[t].trip == w.threads[t].trip
  {
    EndsTouched(w, v, t);
  }

  lemma EndsTouched(w: World, v: World, t: nat)
    requires t < |w.threads| == |v.threads| && EndsOk(w, t, w.threads[t])
    requires v == w.(conns := v.conns, threads := w.threads[t := w.threads[t].(stage := v.threads[t].stage, got := v.threads[t].got)])
    requires |v.conns| == |w.conns| && forall c | 0 <= c < |w.conns| :: ConnTouched(w, v, w.threads[t], c)
    ensures EndsOk(v, t, v.threads[t])
  {
    var th := w.threads[t];
    if ConnOf(th.sock).Some? {
      assert ConnTouched(w, v, th, ConnOf(th.sock).value);
    }
    if ConnOf(th.out).Some? {
      assert ConnTouched(w, v, th, ConnOf(th.out).value);
    }
  }

  /** One connection of the thread's own is changed in a part that is the thread's. */
  lemma OneConn(w: World, v: World, th: Thread, c: nat)
    requires c < |w.conns| == |v.conns| && v.conns == w.conns[c := v.conns[c]] && ConnTouched(w, v, th, c)
    ensures forall d | 0 <= d < |w.conns| :: ConnTouched(w, v, th, d)
  {
    forall d | 0 <= d < |w.conns| ensures ConnTouched(w, v, th, d) {
      if d != c {
        assert v.conns[d] == w.conns[d];
      }
    }
  }

  // ---------------------------------------------------------------- receiving

  lemma MessageAt(r: Request, k: nat)
    requires k < |Messages(r)|
    ensures Messages(r)[k] == if k == 0 then Header(r.size, r.fName) else Elem(r.elements[k - 1])
  {
  }

  /** What thread `t` is about to receive is the next message of its own link. */
  lemma NextMessage(env: Env, w: World, t: nat)
    requires Self(env, w, t) && w.threads[t].sock.Open?
    requires Ready(w, w.threads[t].proc, w.threads[t].sock.number)
    ensures var th := w.threads[t]; var h := Held(th.order, th.trip);
      && InAt(w, th.proc, th.sock.number) == Some(th.sock.conn)
      && var c := w.conns[th.sock.conn];
         c.read < |c.sent| <= |Messages(h)| && c.sent[c.read] == Messages(h)[c.read]
  {
  }

  /** The list received so far is the beginning of the list on the link. */
  lemma ListGrows(env: Env, w: World, t: nat)
    requires Self(env, w, t) && w.threads[t].proc < |w.procs| && CanCall(env, w, t, RecvElement)
    ensures var th := w.threads[t]; var c := th.sock.conn; var h := Held(th.order, th.trip);
            var list := h.elements[..|th.stage.list| + 1];
      && c < |w.conns| && |th.stage.list| < |h.elements|
      && ReceiveElement(w, t) == SetStage(Received(w, c), t,
           if |list| < |h.elements| then Listing(|h.elements|, h.fName, list) else Choosing(h.fName, h.elements))
  {
    var th := w.threads[t];
    var h := Held(th.order, th.trip);
    NextMessage(env, w, t);
    MessageAt(h, 1 + |th.stage.list|);
    HeldOk(th.order, th.trip);
    assert h.elements[..|th.stage.list|] + [h.elements[|th.stage.list|]] == h.elements[..|th.stage.list| + 1];
    assert h.elements[..|h.elements|] == h.elements;
  }

  /** After a message has been received and the stage set. */
  lemma ReceivedPlain(env: Env, w: World, t: nat, stage: Stones.Stage)
    requires Core(env, w, t) && w.threads[t].sock.Open? && FetchOf(w.threads[t]).None? && !stage.Fetching? && !stage.Reading?
    requires |w.owners| == |w.disk.fetchers|
    requires var c := w.threads[t].sock.conn; c < |w.conns| && w.conns[c].read < |w.conns[c].sent|
    requires var v := Received(w, w.threads[t].sock.conn); StageOk(env, v, t, w.threads[t].(stage := stage))
    requires Early(w, w.threads[t])
    ensures PlainStep(env, w, SetStage(Received(w, w.threads[t].sock.conn), t, stage), t)
  {
    var c := w.threads[t].sock.conn;
    var v := SetStage(Received(w, c), t, stage);
    OneConn(w, v, w.threads[t], c);
    StageStep(w, v, t);
    SameStage(env, Received(w, c), v, t, w.threads[t].(stage := stage));
    assert ConnOk(env, v.conns[c]);
  }

  lemma ReceiveElementPlain(env: Env, w: World, t: nat)
    requires Self(env, w, t) && w.threads[t].proc < |w.procs| && CanCall(env, w, t, RecvElement)
    requires |w.owners| == |w.disk.fetchers|
    ensures PlainStep(env, w, ReceiveElement(w, t), t)
  {
    var th := w.threads[t];
    var h := Held(th.order, th.trip);
    var list := h.elements[..|th.stage.list| + 1];
    NextMessage(env, w, t);
    ListGrows(env, w, t);
    ReceivedPlain(env, w, t, if |list| < |h.elements| then Listing(|h.elements|, h.fName, list) else Choosing(h.fName, h.elements));
  }

  /** The header received is the one on the link, and its size the length of the list there. */
  lemma HeaderArrives(env: Env, w: World, t: nat)
    requires Self(env, w, t) && w.threads[t].proc < |w.procs| && CanCall(env, w, t, RecvHeader)
    ensures var th := w.threads[t]; var h := Held(th.order, th.trip); var c := th.sock.conn;
      && c < |w.conns| && w.conns[c].read < |w.conns[c].sent| && w.conns[c].read == 0
      && ReceiveHeader(w, t) == if h.elements == [] then BeginFetch(Received(w, c), t, h.fName)
                                else SetStage(Received(w, c), t, Listing(|h.elements|, h.fName, []))
  {
    var th := w.threads[t];
    NextMessage(env, w, t);
    MessageAt(Held(th.order, th.trip), 0);
    HeldOk(th.order, th.trip);
    SizeIsCount(Held(th.order, th.trip));
  }

  lemma ReceiveHeaderPlain(env: Env, w: World, t: nat)
    requires Self(env, w, t) && w.threads[t].proc < |w.procs| && CanCall(env, w, t, RecvHeader)
    requires |w.owners| == |w.disk.fetchers| && Held(w.threads[t].order, w.threads[t].trip).elements != []
    ensures PlainStep(env, w, ReceiveHeader(w, t), t)
  {
    var h := Held(w.threads[t].order, w.threads[t].trip);
    HeaderArrives(env, w, t);
    ReceivedPlain(env, w, t, Listing(|h.elements|, h.fName, []));
  }

  // ---------------------------------------------------------------- sending

  /** Sending the next message `m` of the next link, and going on to `stage`. */
  lemma SentPlain(env: Env, w: World, t: nat, next: nat, count: nat, m: Message, stage: Stones.Stage)
    requires Core(env, w, t) && w.threads[t].out.Open? && NextLink(w, w.threads[t], next, count)
    requires FetchOf(w.threads[t]).None? && !stage.Fetching? && !stage.Reading?
    requires |w.owners| == |w.disk.fetchers|
    requires var c := w.conns[w.threads[t].out.conn];
      count < |Messages(Held(c.order, c.trip))| && m == Messages(Held(c.order, c.trip))[count]
    requires StageOk(env, Sent(w, w.threads[t].out.conn, m), t, w.threads[t].(stage := stage))
    ensures OutAt(w, w.threads[t].proc, w.threads[t].out.number) == Some(w.threads[t].out.conn)
    ensures PlainStep(env, w, SetStage(Sent(w, w.threads[t].out.conn, m), t, stage), t)
  {
    var c := w.threads[t].out.conn;
    var v := SetStage(Sent(w, c, m), t, stage);
    SelfConnsDiffer(w, t);
    OneConn(w, v, w.threads[t], c);
    StageStep(w, v, t);
    SameStage(env, Sent(w, c, m), v, t, w.threads[t].(stage := stage));
    SentConnOk(env, w.conns[c], count, m);
  }

  lemma SentConnOk(env: Env, c: Connection, count: nat, m: Message)
    requires ConnOk(env, c)
    requires var ms := Messages(Held(c.order, c.trip)); count < |ms| && m == ms[count] && c.sent == ms[..count]
    ensures ConnOk(env, c.(sent := c.sent + [m]))
  {
    var ms := Messages(Held(c.order, c.trip));
    assert ms[..count] + [ms[count]] == ms[..count + 1];
  }

  /** A thread does not serve the connection it opened. */
  lemma SelfConnsDiffer(w: World, t: nat)
    requires t < |w.threads| && EndsOk(w, t, w.threads[t]) && ConnOf(w.threads[t].out).Some?
    ensures ConnOf(w.threads[t].sock) != ConnOf(w.threads[t].out)
  {
  }

  /** The link after one more message. */
  lemma NextLinkGrows(w: World, t: nat, next: nat, count: nat, m: Message)
    requires t < |w.threads| && EndsOk(w, t, w.threads[t]) && w.threads[t].out.Open? && NextLink(w, w.threads[t], next, count)
    requires var c := w.conns[w.threads[t].out.conn];
      count < |Messages(Held(c.order, c.trip))| && m == Messages(Held(c.order, c.trip))[count]
    ensures NextLink(Sent(w, w.threads[t].out.conn, m), w.threads[t], next, count + 1)
  {
    var c := w.threads[t].out.conn;
    var ms := Messages(Held(w.conns[c].order, w.conns[c].trip));
    assert ms[..count] + [ms[count]] == ms[..count + 1];
  }

  /** The messages of the next link: header, then the list without the chosen element. */
  lemma NextMessages(order: Request, trip: Trip, next: nat, k: nat)
    requires next < |Held(order, trip).elements| < 0x1_0000_0000
    requires k < |Held(order, trip).elements|
    ensures var list := Held(order, trip).elements;
            var ms := Messages(Held(order, Extended(trip, order.fName, list, next)));
      && |ms| == |list|
      && ms[0] == Header(Be32(|list| - 1), order.fName)
      && (k < next ==> ms[1 + k] == Elem(list[k]))
      && (k > next ==> ms[k] == Elem(list[k]))
  {
  }

  /** Sending changes nothing on the way back. */
  lemma BackKept(w: World, t: nat, m: Message)
    requires t < |w.threads| && EndsOk(w, t, w.threads[t]) && w.threads[t].out.Open?
    ensures var th := w.threads[t]; var v := Sent(w, th.out.conn, m);
      && (GotIs(w, th) ==> GotIs(v, th))
      && (BackIs(w, th, []) ==> BackIs(v, th, []))
      && (LinkDone(v, th) <==> v.conns[th.out.conn].sent == Messages(Held(w.conns[th.out.conn].order, w.conns[th.out.conn].trip)))
  {
  }

  lemma HeaderIsNext(env: Env, w: World, t: nat)
    requires Self(env, w, t) && w.threads[t].proc < |w.procs| && CanCall(env, w, t, SendHeader)
    ensures var th := w.threads[t];
      && NextLink(w, th, th.stage.next, 0)
      && var c := w.conns[th.out.conn];
         |Messages(Held(c.order, c.trip))| > 0
         && Messages(Held(c.order, c.trip))[0] == Header(Be32(|th.stage.list| - 1), th.stage.fName)
  {
    var th := w.threads[t];
    HeldOk(th.order, th.trip);
    NextMessages(th.order, th.trip, th.stage.next, 0);
  }

  lemma AfterHeaderSent(env: Env, w: World, t: nat)
    requires Self(env, w, t) && w.threads[t].proc < |w.procs| && CanCall(env, w, t, SendHeader)
    ensures var th := w.threads[t]; var stage := th.stage;
      StageOk(env, Sent(w, th.out.conn, Header(Be32(|stage.list| - 1), stage.fName)), t,
              th.(stage := Sending(stage.fName, stage.list, stage.next, 0)))
  {
    var th := w.threads[t];
    var m := Header(Be32(|th.stage.list| - 1), th.stage.fName);
    HeaderIsNext(env, w, t);
    NextLinkGrows(w, t, th.stage.next, 0, m);
    BackKept(w, t, m);
  }

  lemma PutHeaderPlain(env: Env, w: World, t: nat)
    requires Self(env, w, t) && w.threads[t].proc < |w.procs| && CanCall(env, w, t, SendHeader) && |w.owners| == |w.disk.fetchers|
    ensures PlainStep(env, w, PutHeader(w, t), t)
  {
    var stage := w.threads[t].stage;
    HeaderIsNext(env, w, t);
    AfterHeaderSent(env, w, t);
    SentPlain(env, w, t, stage.next, 0, Header(Be32(|stage.list| - 1), stage.fName), Sending(stage.fName, stage.list, stage.next, 0));
  }

  lemma ChosenIsSkipped(env: Env, w: World, t: nat)
    requires Self(env, w, t) && w.threads[t].proc < |w.procs| && CanCall(env, w, t, SendElement) && |w.owners| == |w.disk.fetchers|
    requires w.threads[t].stage.i == w.threads[t].stage.next
    ensures PlainStep(env, w, PutElement(w, t), t)
  {
    AfterSkipping(env, w, t);
    StageOnly(env, w, t, AfterElement(w.threads[t].stage));
  }

  /** Only the stage changes. */
  lemma StageOnly(env: Env, w: World, t: nat, stage: Stones.Stage)
    requires Core(env, w, t) && StageOk(env, w, t, w.threads[t].(stage := stage)) && |w.owners| == |w.disk.fetchers|
    requires FetchOf(w.threads[t]).None? && !stage.Fetching? && !stage.Reading?
    ensures PlainStep(env, w, SetStage(w, t, stage), t)
  {
    var v := SetStage(w, t, stage);
    forall d | 0 <= d < |w.conns| ensures ConnTouched(w, v, w.threads[t], d) {
    }
    StageStep(w, v, t);
    SameStage(env, w, v, t, w.threads[t].(stage := stage));
  }

  /** The other threads and what they hold do not matter to a thread's stage. */
  lemma SameStage(env: Env, w: World, v: World, t: nat, th: Thread)
    requires StageOk(env, w, t, th) && v == w.(threads := v.threads)
    ensures StageOk(env, v, t, th)
  {
  }

  lemma AfterSkipping(env: Env, w: World, t: nat)
    requires Self(env, w, t) && w.threads[t].proc < |w.procs| && CanCall(env, w, t, SendElement)
    requires w.threads[t].stage.i == w.threads[t].stage.next
    ensures StageOk(env, w, t, w.threads[t].(stage := AfterElement(w.threads[t].stage)))
  {
    var th := w.threads[t];
    if th.stage.i + 1 == |th.stage.list| {
      AllSent(w, th, th.stage.next);
    }
  }

  /** When the send loop is over, all messages have been sent. */
  lemma AllSent(w: World, th: Thread, next: nat)
    requires TripOk(th.order, th.trip) && NextLink(w, th, next, |Held(th.order, th.trip).elements|)
    requires w.conns[ConnOf(th.out).value].order == th.order
    ensures LinkDone(w, th)
  {
    HeldOk(th.order, th.trip);
    NextMessages(th.order, th.trip, next, 0);
  }

  lemma OtherLeaves(env: Env, w: World, t: nat)
    requires Self(env, w, t) && w.threads[t].proc < |w.procs| && CanCall(env, w, t, SendElement) && |w.owners| == |w.disk.fetchers|
    requires w.threads[t].stage.i != w.threads[t].stage.next
    ensures PlainStep(env, w, PutElement(w, t), t)
  {
    ElementIsNext(env, w, t);
    AfterElementSent(env, w, t);
    ElementSentPlain(env, w, t);
  }

  lemma ElementSentPlain(env: Env, w: World, t: nat)
    requires Core(env, w, t) && |w.owners| == |w.disk.fetchers| && w.threads[t].stage.Sending? && w.threads[t].out.Open?
    requires w.threads[t].stage.i < |w.threads[t].stage.list| && w.threads[t].stage.i != w.threads[t].stage.next
    requires var th := w.threads[t]; var count := if th.stage.i <= th.stage.next then 1 + th.stage.i else th.stage.i;
      && NextLink(w, th, th.stage.next, count)
      && var c := w.conns[th.out.conn];
         count < |Messages(Held(c.order, c.trip))| && Elem(th.stage.list[th.stage.i]) == Messages(Held(c.order, c.trip))[count]
    requires var th := w.threads[t];
      StageOk(env, Sent(w, th.out.conn, Elem(th.stage.list[th.stage.i])), t, th.(stage := AfterElement(th.stage)))
    ensures PlainStep(env, w, PutElement(w, t), t)
  {
    var th := w.threads[t];
    var i, next := th.stage.i, th.stage.next;
    SentPlain(env, w, t, next, if i <= next then 1 + i else i, Elem(th.stage.list[i]), AfterElement(th.stage));
  }

  lemma ElementIsNext(env: Env, w: World, t: nat)
    requires Self(env, w, t) && w.threads[t].proc < |w.procs| && CanCall(env, w, t, SendElement)
    requires w.threads[t].stage.i != w.threads[t].stage.next
    ensures var th := w.threads[t]; var count := if th.stage.i <= th.stage.next then 1 + th.stage.i else th.stage.i;
      && NextLink(w, th, th.stage.next, count)
      && var c := w.conns[th.out.conn];
         |Messages(Held(c.order, c.trip))| == |th.stage.list|
         && count < |Messages(Held(c.order, c.trip))| && Elem(th.stage.list[th.stage.i]) == Messages(Held(c.order, c.trip))[count]
  {
    var th := w.threads[t];
    HeldOk(th.order, th.trip);
    NextMessages(th.order, th.trip, th.stage.next, th.stage.i);
  }

  lemma AfterElementSent(env: Env, w: World, t: nat)
    requires Self(env, w, t) && w.threads[t].proc < |w.procs| && CanCall(env, w, t, SendElement)
    requires w.threads[t].stage.i != w.threads[t].stage.next
    ensures var th := w.threads[t];
      StageOk(env, Sent(w, th.out.conn, Elem(th.stage.list[th.stage.i])), t, th.(stage := AfterElement(th.stage)))
  {
    var th := w.threads[t];
    ElementIsNext(env, w, t);
    if th.stage.i + 1 == |th.stage.list| {
      LastElementSent(w, t, th.stage.next, th.stage.i, Elem(th.stage.list[th.stage.i]));
    } else {
      ElementSent(w, t, th.stage.next, th.stage.i, Elem(th.stage.list[th.stage.i]));
    }
  }

  /** A further element has been sent. */
  lemma ElementSent(w: World, t: nat, next: nat, i: nat, m: Message)
    requires t < |w.threads| && EndsOk(w, t, w.threads[t]) && SendingOk(w, w.threads[t], next, i) && i != next
    requires i + 1 < |Held(w.threads[t].order, w.threads[t].trip).elements|
    requires var c := w.conns[w.threads[t].out.conn]; var count := if i <= next then 1 + i else i;
      count < |Messages(Held(c.order, c.trip))| && m == Messages(Held(c.order, c.trip))[count]
    ensures SendingOk(Sent(w, w.threads[t].out.conn, m), w.threads[t], next, i + 1)
  {
    NextLinkGrows(w, t, next, if i <= next then 1 + i else i, m);
    BackKept(w, t, m);
  }

  /** The last element has been sent. */
  lemma LastElementSent(w: World, t: nat, next: nat, i: nat, m: Message)
    requires t < |w.threads| && EndsOk(w, t, w.threads[t]) && SendingOk(w, w.threads[t], next, i) && i != next
    requires TripOk(w.threads[t].order, w.threads[t].trip) && i + 1 == |Held(w.threads[t].order, w.threads[t].trip).elements|
    requires var c := w.conns[w.threads[t].out.conn]; var count := if i <= next then 1 + i else i;
      count < |Messages(Held(c.order, c.trip))| && m == Messages(Held(c.order, c.trip))[count]
    ensures WaitingOk(Sent(w, w.threads[t].out.conn, m), w.threads[t])
  {
    NextLinkGrows(w, t, next, if i <= next then 1 + i else i, m);
    BackKept(w, t, m);
    AllSent(Sent(w, w.threads[t].out.conn, m), w.threads[t], next);
  }

  // ---------------------------------------------------------------- the way back

  /** What a thread has mapped is what is due for its request. */
  lemma MappedIsDue(env: Env, w: World, t: nat)
    requires Self(env, w, t) && DiskOk(w.disk, env.web) && Reads(w, t)
    ensures w.disk.fetchers[w.threads[t].stage.fetch].stage.data == env.web.content(w.threads[t].order.fName)
  {
    assert FetcherSafe(w.disk, w.disk.fetchers[w.threads[t].stage.fetch], env.web);
  }

  lemma SentBackOk(env: Env, c: Connection, pos: nat, n: nat)
    requires ConnOk(env, c) && pos + n <= |Due(env, c.order)| && c.back == Due(env, c.order)[..pos] && c.taker.Some?
    ensures var more := c.(back := c.back + Due(env, c.order)[pos..pos + n]);
      ConnOk(env, more) && more.back == Due(env, c.order)[..pos + n]
  {
    var due := Due(env, c.order);
    assert due[..pos] + due[pos..pos + n] == due[..pos + n];
  }

  /** A thread that has mapped its file can send `n` bytes of it. */
  ghost predicate CanSend(env: Env, w: World, t: nat, n: nat) {
    && Core(env, w, t) && w.threads[t].stage.Reading?
    && var th := w.threads[t]; var stage := th.stage;
       && MappedOk(env, w, t, th, stage.fetch, stage.fd) && ReadingOk(env, w, th, stage.pos)
       && w.disk.fetchers[stage.fetch].stage.data == env.web.content(th.order.fName)
       && stage.pos + n <= |Due(env, th.order)|
  }

  lemma CanSendOk(env: Env, w: World, t: nat, n: nat)
    requires Self(env, w, t) && DiskOk(w.disk, env.web) && w.threads[t].proc < |w.procs| && CanCall(env, w, t, SendFile(n))
    ensures CanSend(env, w, t, n)
  {
    MappedIsDue(env, w, t);
  }

  lemma SendChunkIs(env: Env, w: World, t: nat, n: nat)
    requires CanSend(env, w, t, n)
    ensures var th := w.threads[t]; var pos := th.stage.pos;
      && th.sock.conn < |w.conns|
      && SendChunk(w, t, n) == SetStage(SentBack(w, th.sock.conn, Due(env, th.order)[pos..pos + n]), t, th.stage.(pos := pos + n))
  {
  }

  lemma ChunkSent(env: Env, w: World, t: nat, pos: nat, n: nat, stage: Stones.Stage)
    requires Core(env, w, t) && ReadingOk(env, w, w.threads[t], pos) && pos + n <= |Due(env, w.threads[t].order)|
    requires |w.owners| == |w.disk.fetchers|
    ensures var v := SetStage(SentBack(w, w.threads[t].sock.conn, Due(env, w.threads[t].order)[pos..pos + n]), t, stage);
      && Touched(w, v, t) && EndsOk(v, t, v.threads[t]) && TouchedConnsOk(env, w, v, t)
      && ReadingOk(env, v, v.threads[t], pos + n)
  {
    var th := w.threads[t];
    var v := SetStage(SentBack(w, th.sock.conn, Due(env, th.order)[pos..pos + n]), t, stage);
    SentBackOk(env, w.conns[th.sock.conn], pos, n);
    OneConn(w, v, th, th.sock.conn);
    StageStep(w, v, t);
  }

  lemma SendChunkPlain(env: Env, w: World, t: nat, n: nat)
    requires CanSend(env, w, t, n) && |w.owners| == |w.disk.fetchers|
    ensures PlainStep(env, w, SendChunk(w, t, n), t)
  {
    var th := w.threads[t];
    SendChunkIs(env, w, t, n);
    ChunkSent(env, w, t, th.stage.pos, n, th.stage.(pos := th.stage.pos + n));
  }

  /** A thread that waits can pass on `n` bytes. */
  ghost predicate CanPass(env: Env, w: World, t: nat, n: nat) {
    && Core(env, w, t) && WaitingOk(w, w.threads[t]) && w.threads[t].stage.Waiting? && w.threads[t].out.Open?
    && BackReady(w, w.threads[t].proc, w.threads[t].out.number, n)
  }

  /** What thread `t` passes on is the next part of what is due. */
  lemma NextChunk(env: Env, w: World, t: nat, n: nat)
    requires CanPass(env, w, t, n)
    ensures var th := w.threads[t]; var c := th.out.conn;
      && OutAt(w, th.proc, th.out.number) == Some(c) && c < |w.conns| && w.conns[c].taken + n <= |w.conns[c].back|
      && |env.web.content(th.order.fName)| < 0x8000_0000
      && |th.got| == w.conns[c].taken && |th.got| + n <= |Due(env, th.order)|
      && w.conns[c].back[w.conns[c].taken..w.conns[c].taken + n] == Due(env, th.order)[|th.got|..|th.got| + n]
      && th.got == Due(env, th.order)[..|th.got|]
      && th.got + Due(env, th.order)[|th.got|..|th.got| + n] == w.conns[c].back[..w.conns[c].taken + n]
  {
    var th := w.threads[t];
    var back, due := w.conns[th.out.conn].back, Due(env, th.order);
    assert back <= due;
    var a, b := w.conns[th.out.conn].taken, w.conns[th.out.conn].taken + n;
    assert back[a..b] == due[a..b] && back[..a] == due[..a] && due[..a] + due[a..b] == due[..b] == back[..b];
  }

  /** The world after a chunk has been passed on. */
  function PassedOn(env: Env, w: World, t: nat, n: nat): World
    requires t < |w.threads| && w.threads[t].out.Open? && w.threads[t].out.conn < |w.conns|
    requires w.threads[t].sock.Open? ==> w.threads[t].sock.conn < |w.conns|
    requires |env.web.content(w.threads[t].order.fName)| < 0x8000_0000
    requires |w.threads[t].got| + n <= |Due(env, w.threads[t].order)|
  {
    var th := w.threads[t];
    var chunk := Due(env, th.order)[|th.got|..|th.got| + n];
    var w1 := TakenBack(w, th.out.conn, n).(threads := w.threads[t := th.(got := th.got + chunk)]);
    if th.sock.Open? then SentBack(w1, th.sock.conn, chunk) else w1
  }

  lemma PassChunkIs(env: Env, w: World, t: nat, n: nat)
    requires CanPass(env, w, t, n)
    requires |env.web.content(w.threads[t].order.fName)| < 0x8000_0000 && |w.threads[t].got| + n <= |Due(env, w.threads[t].order)|
    ensures PassChunk(w, t, n) == PassedOn(env, w, t, n)
  {
    NextChunk(env, w, t, n);
  }

  lemma PassedConnsOk(env: Env, w: World, t: nat, n: nat)
    requires CanPass(env, w, t, n)
    requires |env.web.content(w.threads[t].order.fName)| < 0x8000_0000 && |w.threads[t].got| + n <= |Due(env, w.threads[t].order)|
    ensures TouchedConnsOk(env, w, PassedOn(env, w, t, n), t)
  {
    var th := w.threads[t];
    NextChunk(env, w, t, n);
    SelfConnsDiffer(w, t);
    if th.sock.Open? {
      SentBackOk(env, w.conns[th.sock.conn], |th.got|, n);
    }
  }

  lemma PassedTouches(env: Env, w: World, t: nat, n: nat)
    requires t < |w.threads| && EndsOk(w, t, w.threads[t]) && w.threads[t].out.Open? && |w.owners| == |w.disk.fetchers|
    requires |env.web.content(w.threads[t].order.fName)| < 0x8000_0000 && |w.threads[t].got| + n <= |Due(env, w.threads[t].order)|
    ensures var v := PassedOn(env, w, t, n);
      Touched(w, v, t) && EndsOk(v, t, v.threads[t]) && SameLine(w.threads[t], v.threads[t])
  {
    var v := PassedOn(env, w, t, n);
    SelfConnsDiffer(w, t);
    forall d | 0 <= d < |w.conns| ensures ConnTouched(w, v, w.threads[t], d) {
    }
    StageStep(w, v, t);
  }

  lemma PassedStageOk(env: Env, w: World, t: nat, n: nat)
    requires CanPass(env, w, t, n)
    requires |env.web.content(w.threads[t].order.fName)| < 0x8000_0000 && |w.threads[t].got| + n <= |Due(env, w.threads[t].order)|
    ensures var v := PassedOn(env, w, t, n); WaitingOk(v, v.threads[t])
  {
    NextChunk(env, w, t, n);
    SelfConnsDiffer(w, t);
  }

  lemma PassChunkPlain(env: Env, w: World, t: nat, n: nat)
    requires CanPass(env, w, t, n) && |w.owners| == |w.disk.fetchers|
    ensures PlainStep(env, w, PassChunk(w, t, n), t)
  {
    NextChunk(env, w, t, n);
    PassChunkIs(env, w, t, n);
    PassedConnsOk(env, w, t, n);
    PassedTouches(env, w, t, n);
    PassedStageOk(env, w, t, n);
  }

  // ---------------------------------------------------------------- closing

  /** Closing a number of one's own. */
  lemma ClosingTouches(w: World, v: World, t: nat, n: nat, th: Thread)
    requires t < |w.threads| && w.threads[t].proc < |w.procs| && HoldsNumber(w.threads[t], n)
    requires v == Unbind(w, w.threads[t].proc, n).(threads := w.threads[t := th]) && |w.owners| == |w.disk.fetchers|
    requires SameLine(w.threads[t], th) && th.trip == w.threads[t].trip && FetchOf(th) == FetchOf(w.threads[t])
    ensures PlainShape(w, v, t)
  {
    forall c | 0 <= c < |w.conns| ensures ConnTouched(w, v, w.threads[t], c) {
    }
  }

  lemma CloseOutStage(env: Env, w: World, t: nat)
    requires t < |w.threads| && WaitingOk(w, w.threads[t]) && w.threads[t].stage.Waiting? && w.threads[t].proc < |w.procs|
    requires w.threads[t].out.Open? && Complete(w.threads[t].got)
    ensures var th := w.threads[t].(out := Closed(w.threads[t].out.conn));
      StageOk(env, Unbind(w, w.threads[t].proc, w.threads[t].out.number).(threads := w.threads[t := th]), t, th)
  {
  }

  /** One end is closed, and its number freed. */
  lemma CloseEnds(w: World, t: nat, n: nat, th: Thread)
    requires t < |w.threads| && EndsOk(w, t, w.threads[t]) && HoldsNumber(w.threads[t], n)
    requires var was := w.threads[t];
      || (was.out.Open? && was.out.number == n && th == was.(out := Closed(was.out.conn)))
      || (was.sock.Open? && was.sock.number == n && th == was.(sock := Closed(was.sock.conn)))
    ensures EndsOk(Unbind(w, w.threads[t].proc, n).(threads := w.threads[t := th]), t, th)
  {
  }

  lemma CloseOutPlain(env: Env, w: World, t: nat)
    requires Core(env, w, t) && WaitingOk(w, w.threads[t]) && |w.owners| == |w.disk.fetchers|
    requires w.threads[t].proc < |w.procs| && CanCall(env, w, t, CloseOut)
    ensures PlainStep(env, w, Perform(env, w, t, CloseOut), t)
  {
    var th := w.threads[t];
    CloseOutStage(env, w, t);
    CloseEnds(w, t, th.out.number, th.(out := Closed(th.out.conn)));
    ClosingTouches(w, Perform(env, w, t, CloseOut), t, th.out.number, th.(out := Closed(th.out.conn)));
    Assemble(env, w, Perform(env, w, t, CloseOut), t);
  }

  lemma CloseSockStage(env: Env, w: World, t: nat)
    requires t < |w.threads| && StageOk(env, w, t, w.threads[t]) && w.threads[t].proc < |w.procs| && CanCall(env, w, t, CloseSock)
    ensures var th := w.threads[t].(sock := Closed(w.threads[t].sock.conn));
      StageOk(env, Unbind(w, w.threads[t].proc, w.threads[t].sock.number).(threads := w.threads[t := th]), t, th)
    ensures FetchOf(w.threads[t].(sock := Closed(w.threads[t].sock.conn))) == FetchOf(w.threads[t])
  {
  }

  lemma CloseSockPlain(env: Env, w: World, t: nat)
    requires Self(env, w, t) && |w.owners| == |w.disk.fetchers|
    requires w.threads[t].proc < |w.procs| && CanCall(env, w, t, CloseSock)
    ensures PlainStep(env, w, Perform(env, w, t, CloseSock), t)
  {
    var th := w.threads[t];
    CloseSockStage(env, w, t);
    CloseEnds(w, t, th.sock.number, th.(sock := Closed(th.sock.conn)));
    ClosingTouches(w, Perform(env, w, t, CloseSock), t, th.sock.number, th.(sock := Closed(th.sock.conn)));
    Assemble(env, w, Perform(env, w, t, CloseSock), t);
  }

  // ---------------------------------------------------------------- connecting

  /** Whatever a stone draws, it can print, if the check held of the request asked for. */
  lemma CrashMeansNotRoomy(env: Env, w: World, t: nat)
    requires Self(env, w, t) && w.threads[t].proc < |w.procs| && w.threads[t].stage.Choosing? && Countable(w.threads[t].stage.list)
    requires !TextFits(env, w.threads[t], Draw(env, w, t) % |w.threads[t].stage.list|)
    ensures !Roomy(env.names, w.threads[t].order)
  {
    HeldOk(w.threads[t].order, w.threads[t].trip);
  }

  /** Connecting is the stone's step on the request it holds. */
  lemma ConnectIsStoneStep(env: Env, w: World, t: nat, n: nat)
    requires Self(env, w, t) && w.threads[t].proc < |w.procs| && CanCall(env, w, t, Connect(n)) && w.threads[t].sock.Open?
    ensures var th := w.threads[t]; var h := Held(th.order, th.trip); var v := ConnectNext(env, w, t, n);
      && Consistent(h) && th.trip.visited != []
      && StoneStep(env.names(th.trip.visited[|th.trip.visited| - 1]), h, Draw(env, w, t))
         == if v.threads[t].stage.Crashed? then Overrun
            else Forward(Chosen(env, w, t), Held(th.order, v.conns[|w.conns|].trip))
  {
    HeldOk(w.threads[t].order, w.threads[t].trip);
  }

  lemma NewConnOk(env: Env, w: World, t: nat, n: nat)
    requires Self(env, w, t) && w.threads[t].proc < |w.procs| && CanCall(env, w, t, Connect(n))
    requires |env.web.content(w.threads[t].order.fName)| < 0x8000_0000
    requires TextFits(env, w.threads[t], Draw(env, w, t) % |w.threads[t].stage.list|)
    ensures var v := ConnectNext(env, w, t, n); |v.conns| == |w.conns| + 1 && ConnOk(env, v.conns[|w.conns|])
  {
    var th := w.threads[t];
    HeldOk(th.order, th.trip);
    ExtendedOk(th.order, th.trip, Draw(env, w, t) % |th.stage.list|);
    ExtendedRoomy(env.names, th.order, th.trip, Draw(env, w, t) % |th.stage.list|);
  }

  lemma ConnectThread(env: Env, w: World, t: nat, n: nat)
    requires Self(env, w, t) && w.threads[t].proc < |w.procs| && CanCall(env, w, t, Connect(n))
    requires TextFits(env, w.threads[t], Draw(env, w, t) % |w.threads[t].stage.list|)
    ensures var v := ConnectNext(env, w, t, n); ThreadOk(env, v, t, v.threads[t])
  {
    HeldOk(w.threads[t].order, w.threads[t].trip);
  }

  lemma ConnectTouches(env: Env, w: World, t: nat, n: nat)
    requires Self(env, w, t) && w.threads[t].proc < |w.procs| && CanCall(env, w, t, Connect(n)) && |w.owners| == |w.disk.fetchers|
    requires TextFits(env, w.threads[t], Draw(env, w, t) % |w.threads[t].stage.list|)
    ensures Touched(w, ConnectNext(env, w, t, n), t)
  {
    var v := ConnectNext(env, w, t, n);
    forall c | 0 <= c < |w.conns| ensures ConnTouched(w, v, w.threads[t], c) {
      assert v.conns[c] == w.conns[c];
    }
  }

  /** A thread that had opened nothing has opened the newest connection. */
  lemma NewConnOwned(w: World, v: World, t: nat)
    requires ConnsOwned(w) && t < |w.threads| == |v.threads| && w.threads[t].out.Absent?
    requires v.threads == w.threads[t := v.threads[t]] && v.threads[t].sock == w.threads[t].sock && ConnOf(v.threads[t].out) == Some(|w.conns|)
    requires |v.conns| == |w.conns| + 1 && w.conns <= v.conns && v.conns[|w.conns|].from == t && v.conns[|w.conns|].taker.None?
    ensures ConnsOwned(v)
  {
    forall c: nat | c < |v.conns| ensures Owned(v, c) {
      assert c < |w.conns| ==> v.conns[c] == w.conns[c] && Owned(w, c);
    }
  }

  lemma AsksKept(w: World, v: World, t: nat)
    requires AsksOk(w) && OwnersOk(w) && t < |w.threads| == |v.threads| && v.threads == w.threads[t := v.threads[t]]
    requires v.threads[t].sock == w.threads[t].sock && v.threads[t].ask == w.threads[t].ask && v.threads[t].order == w.threads[t].order
    requires FetchOf(v.threads[t]) == FetchOf(w.threads[t]) && v.owners == w.owners && v.disk == w.disk
    ensures AsksOk(v) && OwnersOk(v)
  {
    forall u: nat | u < |v.threads| ensures WorksFor(v, u) {
      assert WorksFor(w, u);
    }
  }

  lemma ConnsWithNew(env: Env, w: World, v: World)
    requires |v.conns| == |w.conns| + 1 && w.conns <= v.conns && ConnOk(env, v.conns[|w.conns|])
    requires forall c | 0 <= c < |w.conns| :: ConnOk(env, w.conns[c])
    ensures forall c | 0 <= c < |v.conns| :: ConnOk(env, v.conns[c])
  {
    forall c | 0 <= c < |v.conns| ensures ConnOk(env, v.conns[c]) {
      assert c < |w.conns| ==> v.conns[c] == w.conns[c] && ConnOk(env, w.conns[c]);
    }
  }

  lemma ConnectedOk(env: Env, w: World, t: nat, n: nat)
    requires Sane(env) && Inv(env, w) && Self(env, w, t) && w.threads[t].proc < |w.procs| && CanCall(env, w, t, Connect(n))
    requires TextFits(env, w.threads[t], Draw(env, w, t) % |w.threads[t].stage.list|)
    ensures Inv(env, ConnectNext(env, w, t, n))
  {
    var v := ConnectNext(env, w, t, n);
    NewConnOk(env, w, t, n);
    ConnectThread(env, w, t, n);
    ConnectTouches(env, w, t, n);
    NewConnOwned(w, v, t);
    AsksKept(w, v, t);
    ConnsWithNew(env, w, v);
    Rebuild(env, w, v, t);
  }

  lemma ConnectOk(env: Env, w: World, t: nat, n: nat)
    requires Sane(env) && Inv(env, w) && t < |w.threads| && w.threads[t].proc < |w.procs| && CanCall(env, w, t, Connect(n))
    ensures Inv(env, ConnectNext(env, w, t, n))
  {
    SelfOk(env, w, t);
    if TextFits(env, w.threads[t], Draw(env, w, t) % |w.threads[t].stage.list|) {
      ConnectedOk(env, w, t, n);
    } else {
      CrashPlain(env, w, t);
      PlainStepOk(env, w, SetStage(w, t, Crashed), t);
    }
  }

  lemma CrashPlain(env: Env, w: World, t: nat)
    requires Self(env, w, t) && w.threads[t].proc < |w.procs| && w.threads[t].stage.Choosing? && Countable(w.threads[t].stage.list)
    requires !TextFits(env, w.threads[t], Draw(env, w, t) % |w.threads[t].stage.list|) && |w.owners| == |w.disk.fetchers|
    ensures PlainStep(env, w, SetStage(w, t, Crashed), t)
  {
    CrashMeansNotRoomy(env, w, t);
    StageOnly(env, w, t, Crashed);
  }

  lemma PlainStepOk(env: Env, w: World, v: World, t: nat)
    requires Inv(env, w) && t < |w.threads| && PlainStep(env, w, v, t) && DiskOk(v.disk, env.web)
    ensures Inv(env, v)
  {
    RebuildPlain(env, w, v, t);
  }

  // ---------------------------------------------------------------- fetching

  /** One stone, and any number of stones with directories of their own, keep fetches apart: two that
      are not over never have a file name in common, because each keeps its socket open. */
  lemma NamesAreOwn(env: Env, w: World, i: nat, j: nat)
    requires Inv(env, w) && i < |w.disk.fetchers| && j < |w.disk.fetchers| && i != j
    requires !w.disk.fetchers[i].Finished() && !w.disk.fetchers[j].Finished()
    ensures w.disk.fetchers[i].file != w.disk.fetchers[j].file
  {
    OwnerOk(env, w, i);
    OwnerOk(env, w, j);
    OpenNumbersDiffer(w, w.owners[i], w.owners[j]);
  }

  /** A fetch that is not over has its name from the open socket of its thread. */
  lemma OwnerOk(env: Env, w: World, i: nat)
    requires Inv(env, w) && i < |w.disk.fetchers| && !w.disk.fetchers[i].Finished()
    ensures |w.owners| == |w.disk.fetchers| && w.owners[i] < |w.threads|
    ensures var t := w.owners[i]; var th := w.threads[t];
      && EndsOk(w, t, th) && FetchOf(th) == Some(i) && th.sock.Open?
      && w.disk.fetchers[i].file == FileName(w.procs[th.proc].dir, th.sock.number)
  {
    assert ThreadOk(env, w, w.owners[i], w.threads[w.owners[i]]);
  }

  lemma OpenNumbersDiffer(w: World, t: nat, u: nat)
    requires t < |w.threads| && u < |w.threads| && t != u
    requires EndsOk(w, t, w.threads[t]) && EndsOk(w, u, w.threads[u]) && w.threads[t].sock.Open? && w.threads[u].sock.Open?
    ensures w.threads[t].proc != w.threads[u].proc || w.threads[t].sock.number != w.threads[u].sock.number
  {
  }

  lemma FetchIsClear(env: Env, w: World, i: nat)
    requires Inv(env, w) && i < |w.disk.fetchers| && w.disk.fetchers[i].stage.Started?
    ensures Clear(w.disk, i, env.web)
  {
    forall j | 0 <= j < |w.disk.fetchers| && j != i && w.disk.fetchers[j].Between()
      ensures !Clash(w.disk.fetchers[i], w.disk.fetchers[j], env.web)
    {
      NamesAreOwn(env, w, i, j);
    }
  }

  /** The steps fetchers make are spaced out, so every fetch stays with its own file. */
  lemma FetchStepOk(env: Env, w: World, i: nat)
    requires Inv(env, w) && i < |w.disk.fetchers|
    ensures DiskOk(DiskStep(w.disk, i, env.web), env.web)
    ensures FetcherSafe(w.disk, w.disk.fetchers[i], env.web)
  {
    if w.disk.fetchers[i].stage.Started? {
      FetchIsClear(env, w, i);
    }
    DiskStepOk(w.disk, i, env.web);
  }

  lemma DiskStepOk(d: Disk, i: nat, web: Web)
    requires DiskOk(d, web) && i < |d.fetchers| && (d.fetchers[i].stage.Started? ==> Clear(d, i, web))
    ensures DiskOk(DiskStep(d, i, web), web)
  {
    assert Covered(d, d.fetchers[i].file, web);
    DiskStepKeepsSafe(d, i, web);
    DiskStepKeepsExclusive(d, i, web);
    forall name ensures Covered(DiskStep(d, i, web), name, web) {
      DiskStepKeepsCovered(d, i, name, web);
    }
  }

  /** The thread's fetcher makes a step and the thread goes on to another stage, on the same file. */
  lemma FetchShape(w: World, v: World, t: nat)
    requires t < |w.threads| && FetchOf(w.threads[t]).Some? && |w.owners| == |w.disk.fetchers|
    requires |v.threads| == |w.threads| && v.threads == w.threads[t := w.threads[t].(stage := v.threads[t].stage)]
    requires v.conns == w.conns && v.owners == w.owners && FetchOf(v.threads[t]) == FetchOf(w.threads[t])
    requires |v.disk.fetchers| == |w.disk.fetchers|
    requires forall i | 0 <= i < |w.disk.fetchers| && FetchOf(w.threads[t]) != Some(i) :: v.disk.fetchers[i] == w.disk.fetchers[i]
    requires SameDirs(w, v)
    requires forall p, n | 0 <= p < |w.procs| && n in Table(w, p) && !(p == w.threads[t].proc && HoldsNumber(w.threads[t], n)) :: Kept(w, v, p, n)
    ensures PlainShape(w, v, t)
  {
    forall c | 0 <= c < |w.conns| ensures ConnTouched(w, v, w.threads[t], c) {
    }
  }

  lemma DownloadStage(env: Env, w: World, t: nat)
    requires t < |w.threads| && StageOk(env, w, t, w.threads[t]) && w.threads[t].proc < |w.procs| && CanCall(env, w, t, Download)
    ensures StageOk(env, Perform(env, w, t, Download), t, w.threads[t])
  {
  }

  lemma DownloadPlain(env: Env, w: World, t: nat)
    requires Self(env, w, t) && |w.owners| == |w.disk.fetchers|
    requires w.threads[t].proc < |w.procs| && CanCall(env, w, t, Download)
    ensures PlainStep(env, w, Perform(env, w, t, Download), t)
  {
    DownloadStage(env, w, t);
    FetchShape(w, Perform(env, w, t, Download), t);
    Assemble(env, w, Perform(env, w, t, Download), t);
  }

  lemma MapFileShape(env: Env, w: World, t: nat, n: nat)
    requires t < |w.threads| && w.threads[t].proc < |w.procs| && CanCall(env, w, t, MapFile(n))
    ensures var v := Map(env, w, t, n); var stage := v.disk.fetchers[w.threads[t].stage.fetch].stage;
      && v.disk == DiskStep(w.disk, w.threads[t].stage.fetch, env.web)
      && v.procs == (if stage.Failed? then w else Bind(w, w.threads[t].proc, n, Temp(t))).procs
      && v.threads == (if stage.Mapped? then SetStage(w, t, Reading(w.threads[t].stage.fetch, n, 0)) else w).threads
      && v.conns == w.conns && v.owners == w.owners
  {
  }

  lemma MapFileStage(env: Env, w: World, t: nat, n: nat)
    requires t < |w.threads| && StageOk(env, w, t, w.threads[t]) && w.threads[t].proc < |w.procs| && CanCall(env, w, t, MapFile(n))
    ensures var v := Map(env, w, t, n); |v.threads| == |w.threads| && StageOk(env, v, t, v.threads[t])
  {
    MapFileShape(env, w, t, n);
  }

  lemma MapFileEnds(env: Env, w: World, t: nat, n: nat)
    requires t < |w.threads| && EndsOk(w, t, w.threads[t]) && w.threads[t].proc < |w.procs| && CanCall(env, w, t, MapFile(n))
    ensures var v := Map(env, w, t, n); |v.threads| == |w.threads| && EndsOk(v, t, v.threads[t])
  {
    MapFileShape(env, w, t, n);
  }

  /** Binding a free number keeps all others. */
  lemma BindKeeps(w: World, v: World, p: nat, n: nat, target: Target)
    requires p < |w.procs| && n !in Table(w, p) && (v.procs == w.procs || v.procs == Bind(w, p, n, target).procs)
    ensures SameDirs(w, v) && forall q, m | 0 <= q < |w.procs| && m in Table(w, q) :: Kept(w, v, q, m)
  {
  }

  lemma MapFileSteps(env: Env, w: World, t: nat, n: nat)
    requires t < |w.threads| && |w.owners| == |w.disk.fetchers|
    requires w.threads[t].proc < |w.procs| && CanCall(env, w, t, MapFile(n))
    ensures PlainShape(w, Map(env, w, t, n), t)
  {
    var v := Map(env, w, t, n);
    MapFileShape(env, w, t, n);
    BindKeeps(w, v, w.threads[t].proc, n, Temp(t));
    FetchShape(w, v, t);
  }

  lemma MapFilePlain(env: Env, w: World, t: nat, n: nat)
    requires Self(env, w, t) && |w.owners| == |w.disk.fetchers|
    requires w.threads[t].proc < |w.procs| && CanCall(env, w, t, MapFile(n))
    ensures PlainStep(env, w, Map(env, w, t, n), t)
  {
    MapFileShape(env, w, t, n);
    MapFileSteps(env, w, t, n);
    MapFileStage(env, w, t, n);
    MapFileEnds(env, w, t, n);
    Assemble(env, w, Map(env, w, t, n), t);
  }

  lemma RemoveFileStage(env: Env, w: World, t: nat)
    requires t < |w.threads| && StageOk(env, w, t, w.threads[t]) && w.threads[t].proc < |w.procs| && CanCall(env, w, t, RemoveFile)
    requires w.disk.fetchers[w.threads[t].stage.fetch].stage.data == env.web.content(w.threads[t].order.fName)
    ensures var v := Perform(env, w, t, RemoveFile); |v.threads| == |w.threads| && StageOk(env, v, t, v.threads[t])
  {
    var due := Due(env, w.threads[t].order);
    assert due[..|due|] == due;
  }

  lemma RemoveFileEnds(env: Env, w: World, t: nat)
    requires t < |w.threads| && NumbersOk(w, t, w.threads[t]) && w.threads[t].proc < |w.procs| && CanCall(env, w, t, RemoveFile)
    ensures var v := Perform(env, w, t, RemoveFile); |v.threads| == |w.threads| && EndsOk(v, t, v.threads[t])
  {
  }

  lemma RemoveFileSteps(env: Env, w: World, t: nat)
    requires t < |w.threads| && |w.owners| == |w.disk.fetchers|
    requires w.threads[t].proc < |w.procs| && CanCall(env, w, t, RemoveFile)
    ensures PlainShape(w, Perform(env, w, t, RemoveFile), t) && Perform(env, w, t, RemoveFile).conns == w.conns
  {
    FetchShape(w, Perform(env, w, t, RemoveFile), t);
  }

  lemma RemoveFilePlain(env: Env, w: World, t: nat)
    requires Self(env, w, t) && |w.owners| == |w.disk.fetchers|
    requires w.threads[t].proc < |w.procs| && CanCall(env, w, t, RemoveFile)
    requires w.disk.fetchers[w.threads[t].stage.fetch].stage.data == env.web.content(w.threads[t].order.fName)
    ensures PlainStep(env, w, Perform(env, w, t, RemoveFile), t)
  {
    RemoveFileStage(env, w, t);
    RemoveFileEnds(env, w, t);
    RemoveFileSteps(env, w, t);
    Assemble(env, w, Perform(env, w, t, RemoveFile), t);
  }

  lemma FetcherAdded(d: Disk, f: Fetcher, web: Web)
    requires DiskOk(d, web) && f.stage.Started?
    ensures DiskOk(d.(fetchers := d.fetchers + [f]), web)
  {
    var r := d.(fetchers := d.fetchers + [f]);
    forall i | 0 <= i < |r.fetchers| ensures FetcherSafe(r, r.fetchers[i], web) {
      assert i < |d.fetchers| ==> FetcherSafe(d, d.fetchers[i], web);
    }
    forall name ensures Covered(r, name, web) {
      assert Covered(d, name, web);
      if name in d.files && d.files[name] != [] {
        var j: nat :| Holder(d, j, name, web);
        assert Holder(r, j, name, web);
      }
    }
  }

  lemma BeginFetchTouches(env: Env, w: World, t: nat)
    requires Self(env, w, t) && w.threads[t].proc < |w.procs| && CanCall(env, w, t, RecvHeader) && |w.owners| == |w.disk.fetchers|
    requires Held(w.threads[t].order, w.threads[t].trip).elements == []
    ensures var v := ReceiveHeader(w, t);
      && Touched(w, v, t) && |v.conns| == |w.conns| && SameLine(w.threads[t], v.threads[t]) && TouchedConnsOk(env, w, v, t)
  {
    var v := ReceiveHeader(w, t);
    var c := w.threads[t].sock.conn;
    HeaderArrives(env, w, t);
    OneConn(w, v, w.threads[t], c);
    assert ConnOk(env, v.conns[c]);
  }

  lemma BeginFetchThread(env: Env, w: World, t: nat)
    requires Sane(env) && Self(env, w, t) && w.threads[t].proc < |w.procs| && CanCall(env, w, t, RecvHeader)
    requires Held(w.threads[t].order, w.threads[t].trip).elements == [] && |w.owners| == |w.disk.fetchers|
    ensures var v := ReceiveHeader(w, t); ThreadOk(env, v, t, v.threads[t])
  {
    HeaderArrives(env, w, t);
    HeldOk(w.threads[t].order, w.threads[t].trip);
  }

  lemma BeginFetchOk(env: Env, w: World, t: nat)
    requires Sane(env) && Inv(env, w) && t < |w.threads| && w.threads[t].proc < |w.procs| && CanCall(env, w, t, RecvHeader)
    requires Held(w.threads[t].order, w.threads[t].trip).elements == []
    ensures Inv(env, ReceiveHeader(w, t))
  {
    var v := ReceiveHeader(w, t);
    SelfOk(env, w, t);
    HeaderArrives(env, w, t);
    BeginFetchTouches(env, w, t);
    BeginFetchThread(env, w, t);
    LineageKept(w, v, t);
    OtherConnsOk(env, w, v, t);
    FetcherAdded(w.disk, v.disk.fetchers[|w.disk.fetchers|], env.web);
    BeginFetchOwners(w, v, t);
    Rebuild(env, w, v, t);
  }

  lemma BeginFetchOwners(w: World, v: World, t: nat)
    requires OwnersOk(w) && t < |w.threads| && FetchOf(w.threads[t]).None?
    requires v.owners == w.owners + [t] && |v.disk.fetchers| == |w.disk.fetchers| + 1
    requires |v.threads| == |w.threads| && v.threads == w.threads[t := v.threads[t]]
    requires FetchOf(v.threads[t]) == Some(|w.disk.fetchers|)
    ensures OwnersOk(v)
  {
  }

  // ---------------------------------------------------------------- new threads

  lemma RebuildWithNew(env: Env, w: World, v: World)
    requires Inv(env, w) && SameDirs(w, v) && |v.threads| == |w.threads| + 1 && w.threads <= v.threads
    requires forall u | 0 <= u < |w.threads| :: w.threads[u].proc < |w.procs| && Undisturbed(w, v, u)
    requires ThreadOk(env, v, |w.threads|, v.threads[|w.threads|]) && ConnsOwned(v) && AsksOk(v)
    requires v.owners == w.owners && v.disk == w.disk
    requires forall c | 0 <= c < |v.conns| :: ConnOk(env, v.conns[c])
    ensures Inv(env, v)
  {
    forall u | 0 <= u < |v.threads| ensures ThreadOk(env, v, u, v.threads[u]) {
      if u < |w.threads| {
        assert ThreadOk(env, w, u, w.threads[u]);
        UndisturbedOk(env, w, v, u);
      }
    }
    OwnersWithNew(w, v);
  }

  lemma OwnersWithNew(w: World, v: World)
    requires OwnersOk(w) && w.threads <= v.threads && v.owners == w.owners && v.disk == w.disk
    ensures OwnersOk(v)
  {
    forall i | 0 <= i < |v.owners| ensures v.owners[i] < |v.threads| && FetchOf(v.threads[v.owners[i]]) == Some(i) {
      assert w.owners[i] < |w.threads|;
    }
  }

  lemma AskedThread(env: Env, w: World, p: nat, elements: seq<Element>, url: string)
    requires Enabled(env, w, Ask(p, elements, url))
    ensures var v := Apply(env, w, Ask(p, elements, url)); ThreadOk(env, v, |w.threads|, v.threads[|w.threads|])
  {
  }

  lemma AskOk(env: Env, w: World, p: nat, elements: seq<Element>, url: string)
    requires Inv(env, w) && Enabled(env, w, Ask(p, elements, url))
    ensures Inv(env, Apply(env, w, Ask(p, elements, url)))
  {
    var v := Apply(env, w, Ask(p, elements, url));
    AskedThread(env, w, p, elements, url);
    forall u | 0 <= u < |w.threads| ensures w.threads[u].proc < |w.procs| && Undisturbed(w, v, u) {
      NothingChanged(env, w, v, u);
    }
    AskedLineage(w, v);
    RebuildWithNew(env, w, v);
  }

  lemma NothingChanged(env: Env, w: World, v: World, u: nat)
    requires Inv(env, w) && u < |w.threads| && v == w.(threads := v.threads) && w.threads <= v.threads
    ensures w.threads[u].proc < |w.procs| && Undisturbed(w, v, u)
  {
    assert ThreadOk(env, w, u, w.threads[u]);
  }

  lemma AskedLineage(w: World, v: World)
    requires ConnsOwned(w) && AsksOk(w) && v == w.(threads := v.threads)
    requires |v.threads| == |w.threads| + 1 && w.threads <= v.threads
    requires v.threads[|w.threads|].ask == |w.threads| && v.threads[|w.threads|].sock.Absent?
    ensures ConnsOwned(v) && AsksOk(v)
  {
    forall c: nat | c < |v.conns| ensures Owned(v, c) {
      assert Owned(w, c);
    }
    forall t: nat | t < |v.threads| ensures WorksFor(v, t) {
      assert t < |w.threads| ==> WorksFor(w, t);
    }
  }

  lemma AcceptedThread(env: Env, w: World, c: nat, n: nat)
    requires Enabled(env, w, Accept(c, n)) && ConnOk(env, w.conns[c])
    ensures var v := Apply(env, w, Accept(c, n));
      ThreadOk(env, v, |w.threads|, v.threads[|w.threads|]) && ConnOk(env, v.conns[c])
  {
  }

  lemma AcceptDisturbsNobody(env: Env, w: World, c: nat, n: nat, u: nat)
    requires Enabled(env, w, Accept(c, n)) && u < |w.threads| && ThreadOk(env, w, u, w.threads[u])
    ensures w.threads[u].proc < |w.procs| && Undisturbed(w, Apply(env, w, Accept(c, n)), u)
  {
  }

  lemma AcceptLineage(env: Env, w: World, c: nat, n: nat)
    requires Enabled(env, w, Accept(c, n)) && ConnsOwned(w) && AsksOk(w)
    requires w.conns[c].from < |w.threads|
    requires w.threads[w.conns[c].from].ask == w.conns[c].ask && w.threads[w.conns[c].from].order == w.conns[c].order
    ensures var v := Apply(env, w, Accept(c, n)); ConnsOwned(v) && AsksOk(v)
  {
    var v := Apply(env, w, Accept(c, n));
    assert WorksFor(w, w.conns[c].from);
    forall d: nat | d < |v.conns| ensures Owned(v, d) {
      assert Owned(w, d);
    }
    forall t: nat | t < |v.threads| ensures WorksFor(v, t) {
      assert t < |w.threads| ==> WorksFor(w, t);
    }
  }

  lemma AcceptOk(env: Env, w: World, c: nat, n: nat)
    requires Inv(env, w) && Enabled(env, w, Accept(c, n))
    ensures Inv(env, Apply(env, w, Accept(c, n)))
  {
    var v := Apply(env, w, Accept(c, n));
    assert ConnOk(env, w.conns[c]);
    AcceptedThread(env, w, c, n);
    forall u | 0 <= u < |w.threads| ensures w.threads[u].proc < |w.procs| && Undisturbed(w, v, u) {
      assert ThreadOk(env, w, u, w.threads[u]);
      AcceptDisturbsNobody(env, w, c, n, u);
    }
    OpenerOk(env, w, c);
    AcceptLineage(env, w, c, n);
    forall d | 0 <= d < |v.conns| ensures ConnOk(env, v.conns[d]) {
      assert ConnOk(env, w.conns[d]);
    }
    RebuildWithNew(env, w, v);
  }

  /** The thread that opened a connection works for the same awget, one link before. */
  lemma OpenerOk(env: Env, w: World, c: nat)
    requires Inv(env, w) && c < |w.conns|
    ensures w.conns[c].from < |w.threads|
    ensures var th := w.threads[w.conns[c].from];
      && ConnOf(th.out) == Some(c) && th.ask == w.conns[c].ask && th.order == w.conns[c].order
      && |w.conns[c].trip.links| == |th.trip.links| + 1
  {
    assert Owned(w, c);
    assert ThreadOk(env, w, w.conns[c].from, w.threads[w.conns[c].from]);
  }

  // ---------------------------------------------------------------- every run

  /** A call of `last_ss`. */
  predicate OfFetch(call: Call) {
    call.Download? || call.MapFile? || call.SendFile? || call.RemoveFile?
  }

  lemma FetchCallIsPlain(env: Env, w: World, t: nat, call: Call)
    requires Self(env, w, t) && DiskOk(w.disk, env.web) && |w.owners| == |w.disk.fetchers|
    requires w.threads[t].proc < |w.procs| && CanCall(env, w, t, call) && OfFetch(call)
    ensures PlainStep(env, w, Perform(env, w, t, call), t)
  {
    match call
    case Download => DownloadPlain(env, w, t);
    case MapFile(n) => MapFilePlain(env, w, t, n);
    case SendFile(n) => CanSendOk(env, w, t, n); SendChunkPlain(env, w, t, n);
    case RemoveFile => MappedIsDue(env, w, t); RemoveFilePlain(env, w, t);
  }

  lemma LinkCallIsPlain(env: Env, w: World, t: nat, call: Call)
    requires Self(env, w, t) && |w.owners| == |w.disk.fetchers|
    requires w.threads[t].proc < |w.procs| && CanCall(env, w, t, call) && !call.Connect? && !OfFetch(call)
    requires call.RecvHeader? ==> Held(w.threads[t].order, w.threads[t].trip).elements != []
    ensures PlainStep(env, w, Perform(env, w, t, call), t)
  {
    match call
    case RecvHeader => ReceiveHeaderPlain(env, w, t);
    case RecvElement => ReceiveElementPlain(env, w, t);
    case SendHeader => PutHeaderPlain(env, w, t);
    case SendElement => SendElementPlain(env, w, t);
    case PassOn(n) => PassChunkPlain(env, w, t, n);
    case CloseOut => CloseOutPlain(env, w, t);
    case CloseSock => CloseSockPlain(env, w, t);
  }

  lemma SendElementPlain(env: Env, w: World, t: nat)
    requires Self(env, w, t) && |w.owners| == |w.disk.fetchers|
    requires w.threads[t].proc < |w.procs| && CanCall(env, w, t, SendElement)
    ensures PlainStep(env, w, PutElement(w, t), t)
  {
    if w.threads[t].stage.i == w.threads[t].stage.next {
      ChosenIsSkipped(env, w, t);
    } else {
      OtherLeaves(env, w, t);
    }
  }

  lemma CallKeepsDisk(env: Env, w: World, t: nat, call: Call)
    requires Inv(env, w) && t < |w.threads| && w.threads[t].proc < |w.procs| && CanCall(env, w, t, call)
    requires !call.Connect? && (call.RecvHeader? ==> Held(w.threads[t].order, w.threads[t].trip).elements != [])
    ensures DiskOk(Perform(env, w, t, call).disk, env.web)
  {
    if call.Download? || call.MapFile? || call.RemoveFile? {
      FetchStepOk(env, w, w.threads[t].stage.fetch);
    } else if call.RecvHeader? {
      SelfOk(env, w, t);
      HeaderArrives(env, w, t);
    }
  }

  lemma CallKeepsInv(env: Env, w: World, t: nat, call: Call)
    requires Sane(env) && Inv(env, w) && t < |w.threads| && w.threads[t].proc < |w.procs| && CanCall(env, w, t, call)
    ensures Inv(env, Perform(env, w, t, call))
  {
    if call.Connect? {
      ConnectOk(env, w, t, call.n);
    } else if call.RecvHeader? && Held(w.threads[t].order, w.threads[t].trip).elements == [] {
      BeginFetchOk(env, w, t);
    } else {
      SelfOk(env, w, t);
      if OfFetch(call) {
        FetchCallIsPlain(env, w, t, call);
      } else {
        LinkCallIsPlain(env, w, t, call);
      }
      CallKeepsDisk(env, w, t, call);
      PlainStepOk(env, w, Perform(env, w, t, call), t);
    }
  }

  lemma StepKeepsInv(env: Env, w: World, step: Step)
    requires Sane(env) && Inv(env, w) && Enabled(env, w, step)
    ensures Inv(env, Apply(env, w, step))
  {
    match step
    case Ask(p, elements, url) => AskOk(env, w, p, elements, url);
    case Accept(c, n) => AcceptOk(env, w, c, n);
    case Go(t, call) => CallKeepsInv(env, w, t, call);
  }

  lemma {:induction false} RunKeepsInv(env: Env, w: World, steps: seq<Step>)
    requires Sane(env) && Inv(env, w) && Legal(env, w, steps)
    ensures Inv(env, Run(env, w, steps))
    decreases |steps|
  {
    if steps != [] {
      StepKeepsInv(env, w, steps[0]);
      RunKeepsInv(env, Apply(env, w, steps[0]), steps[1..]);
    }
  }

  lemma StartInv(env: Env, dirs: seq<nat>)
    requires NoRepeats(dirs)
    ensures Inv(env, Start(dirs))
  {
  }
}
