/** Many requests at once in proj2: stone processes with a descriptor table, a directory and a random
    number generator each, whose connection threads interleave at every call. Threads reach their
    connections and files through descriptor numbers only, which are closed and handed out again. */
module Stones {
  import opened Basics
  import opened Bytes
  import opened Chain
  import opened Downloads
  import Relay

  /** What travels on a link: the list header, then the list elements. */
  datatype Message = Header(size: seq<byte>, fName: string) | Elem(element: Element)

  function Messages(r: Request): (ms: seq<Message>)
    ensures |ms| == 1 + |r.elements|
  {
    [Header(r.size, r.fName)] + seq(|r.elements|, i requires 0 <= i < |r.elements| => Elem(r.elements[i]))
  }

  /** What travels back: the file header and the file. */
  function Frame(data: Content): (f: seq<byte>)
    requires |data| < 0x8000_0000
    ensures |f| == 5 + |data|
  {
    Relay.FileHeader(|data|) + data
  }

  /** Nothing more is expected behind these bytes. */
  predicate Complete(bytes: seq<byte>) {
    |bytes| >= 5 && |bytes| >= 5 + Relay.SizeIn(bytes[..5])
  }

  // ---------------------------------------------------------------- the state

  /** What a descriptor number refers to: the accepted or the connecting end of a connection, or the
      temporary file opened by a thread. */
  datatype Target = In(conn: nat) | Out(conn: nat) | Temp(thread: nat)

  datatype Process = Process(dir: nat, table: map<nat, Target>, tick: nat)

  /** A connection to a process, with everything sent there and back so far and how much of it has
      been received. `taker` is the thread that serves it once it has been accepted. History: the thread
      that opened it, the awget it works for, the request as first asked for and its trip up to here. */
  datatype Connection = Connection(dest: nat, sent: seq<Message>, read: nat, back: seq<byte>, taken: nat, taker: Option<nat>,
                                   from: nat, ask: nat, order: Request, trip: Trip)

  /** A descriptor number held by a thread, and (history) the connection it was given out for. */
  datatype End = Absent | Open(number: nat, conn: nat) | Closed(conn: nat)

  /** Where a thread stands in `connection`, `curr_ss` and `last_ss`, or in `main` of awget. */
  datatype Stage =
    | Announced                                                      // nothing received yet
    | Listing(size: nat, fName: string, list: seq<Element>)          // receiving the list
    | Choosing(fName: string, list: seq<Element>)                    // list complete
    | Heading(fName: string, list: seq<Element>, next: nat)          // connected to the next stone
    | Sending(fName: string, list: seq<Element>, next: nat, i: nat)  // at element i of the send loop
    | Waiting                                                        // list sent, file awaited and relayed
    | Fetching(fetch: nat)                                           // in the fetch branch, file not open
    | Reading(fetch: nat, fd: nat, pos: nat)                         // file mapped, so much of it sent
    | Crashed                                                        // wrote beyond the print buffer or the list
    | Confused                                                       // a call failed or got the wrong kind of message

  /** `got` is what has come back and been passed on or, in awget, written. History: the awget this
      thread works for (itself in awget), the request as first asked for, the trip that led here. */
  datatype Thread = Thread(proc: nat, sock: End, out: End, stage: Stage, got: seq<byte>, ask: nat, order: Request, trip: Trip)

  /** `owners[i]` is the thread behind fetcher `i`. */
  datatype World = World(procs: seq<Process>, conns: seq<Connection>, threads: seq<Thread>, disk: Disk, owners: seq<nat>)

  /** Which process listens at an address, what stones call themselves, the draws of each process's
      `rand()`, the web. */
  datatype Env = Env(where: Element -> nat, names: Names, rand: (nat, nat) -> nat, web: Web)

  /** One call made by a thread. The number `n` is what the kernel hands out, or the bytes moved. */
  datatype Call =
    | RecvHeader
    | RecvElement
    | Connect(n: nat)
    | SendHeader
    | SendElement
    | Download
    | MapFile(n: nat)
    | SendFile(n: nat)
    | RemoveFile
    | PassOn(n: nat)
    | CloseOut
    | CloseSock

  /** awget is started on a process, the accept loop takes a connection, or thread `t` goes on. */
  datatype Step = Ask(p: nat, elements: seq<Element>, url: string) | Accept(c: nat, n: nat) | Go(t: nat, call: Call)

  function Table(w: World, p: nat): map<nat, Target>
    requires p < |w.procs|
  {
    w.procs[p].table
  }

  /** The connection behind a number used by its accepting or its connecting side, if that is what
      the number is. */
  function InAt(w: World, p: nat, number: nat): Option<nat>
    requires p < |w.procs|
  {
    if number in Table(w, p) && Table(w, p)[number].In? && Table(w, p)[number].conn < |w.conns|
    then Some(Table(w, p)[number].conn) else None
  }

  function OutAt(w: World, p: nat, number: nat): Option<nat>
    requires p < |w.procs|
  {
    if number in Table(w, p) && Table(w, p)[number].Out? && Table(w, p)[number].conn < |w.conns|
    then Some(Table(w, p)[number].conn) else None
  }

  // ---------------------------------------------------------------- what is possible

  /** A `recv` of a message on this number would not block. */
  predicate Ready(w: World, p: nat, number: nat)
    requires p < |w.procs|
  {
    match InAt(w, p, number)
    case None => true
    case Some(c) => w.conns[c].read < |w.conns[c].sent|
  }

  /** A `recv` of `n` bytes of the file would not block. */
  predicate BackReady(w: World, p: nat, number: nat, n: nat)
    requires p < |w.procs|
  {
    match OutAt(w, p, number)
    case None => true
    case Some(c) => w.conns[c].taken + n <= |w.conns[c].back|
  }

  predicate Fetches(w: World, t: nat)
    requires t < |w.threads|
  {
    w.threads[t].stage.Fetching? && w.threads[t].stage.fetch < |w.disk.fetchers|
  }

  predicate Reads(w: World, t: nat)
    requires t < |w.threads|
  {
    w.threads[t].stage.Reading? && w.threads[t].stage.fetch < |w.disk.fetchers|
    && var stage := w.disk.fetchers[w.threads[t].stage.fetch].stage;
       stage.Mapped? && |stage.data| < 0x8000_0000
  }

  /** Sizes are 32-bit numbers. */
  predicate Countable(list: seq<Element>) {
    0 < |list| < 0x1_0000_0000
  }

  predicate CanCall(env: Env, w: World, t: nat, call: Call)
    requires t < |w.threads| && w.threads[t].proc < |w.procs|
  {
    var th := w.threads[t];
    match call
    case RecvHeader => th.stage.Announced? && th.sock.Open? && Ready(w, th.proc, th.sock.number)
    case RecvElement => th.stage.Listing? && th.sock.Open? && Ready(w, th.proc, th.sock.number)
    case Connect(n) =>
      && th.stage.Choosing? && Countable(th.stage.list) && n !in Table(w, th.proc)
      && env.where(Chosen(env, w, t)) < |w.procs|
    case SendHeader => th.stage.Heading? && Countable(th.stage.list) && th.out.Open?
    case SendElement => th.stage.Sending? && th.stage.i < |th.stage.list| && th.out.Open?
    case Download => Fetches(w, t) && w.disk.fetchers[th.stage.fetch].stage.Started?
    case MapFile(n) => Fetches(w, t) && w.disk.fetchers[th.stage.fetch].stage.Downloaded? && n !in Table(w, th.proc)
    case SendFile(n) =>
      Reads(w, t) && th.sock.Open? && 1 <= n && th.stage.pos + n <= |Frame(w.disk.fetchers[th.stage.fetch].stage.data)|
    case RemoveFile => Reads(w, t) && th.stage.pos == |Frame(w.disk.fetchers[th.stage.fetch].stage.data)|
    case PassOn(n) =>
      th.stage.Waiting? && th.out.Open? && !Complete(th.got) && 1 <= n && BackReady(w, th.proc, th.out.number, n)
    case CloseOut => th.stage.Waiting? && th.out.Open? && Complete(th.got)
    case CloseSock => th.sock.Open? && Over(w, t)
  }

  /** The thread has returned from `curr_ss` or `last_ss`. */
  predicate Over(w: World, t: nat)
    requires t < |w.threads|
  {
    || (w.threads[t].stage.Waiting? && !w.threads[t].out.Open?)
    || (Fetches(w, t) && w.disk.fetchers[w.threads[t].stage.fetch].Finished())
  }

  predicate Enabled(env: Env, w: World, step: Step) {
    match step
    case Ask(p, elements, _) => p < |w.procs| && 1 <= |elements| < 0x1_0000_0000
    case Accept(c, n) =>
      && c < |w.conns| && w.conns[c].taker.None?
      && w.conns[c].dest < |w.procs| && n !in Table(w, w.conns[c].dest)
    case Go(t, call) => t < |w.threads| && w.threads[t].proc < |w.procs| && CanCall(env, w, t, call)
  }

  /** The draw of the thread's process, and the element it picks. */
  function Draw(env: Env, w: World, t: nat): nat
    requires t < |w.threads| && w.threads[t].proc < |w.procs|
  {
    env.rand(w.threads[t].proc, w.procs[w.threads[t].proc].tick)
  }

  function Chosen(env: Env, w: World, t: nat): Element
    requires t < |w.threads| && w.threads[t].proc < |w.procs|
    requires w.threads[t].stage.Choosing? && Countable(w.threads[t].stage.list)
  {
    w.threads[t].stage.list[Draw(env, w, t) % |w.threads[t].stage.list|]
  }

  // ---------------------------------------------------------------- the steps

  function Bind(w: World, p: nat, n: nat, target: Target): World
    requires p < |w.procs|
  {
    w.(procs := w.procs[p := w.procs[p].(table := w.procs[p].table[n := target])])
  }

  /** `close(n)`. */
  function Unbind(w: World, p: nat, n: nat): World
    requires p < |w.procs|
  {
    w.(procs := w.procs[p := w.procs[p].(table := w.procs[p].table - {n})])
  }

  function SetStage(w: World, t: nat, stage: Stage): World
    requires t < |w.threads|
  {
    w.(threads := w.threads[t := w.threads[t].(stage := stage)])
  }

  function Received(w: World, c: nat): World
    requires c < |w.conns|
  {
    w.(conns := w.conns[c := w.conns[c].(read := w.conns[c].read + 1)])
  }

  function Sent(w: World, c: nat, m: Message): World
    requires c < |w.conns|
  {
    w.(conns := w.conns[c := w.conns[c].(sent := w.conns[c].sent + [m])])
  }

  function SentBack(w: World, c: nat, bytes: seq<byte>): World
    requires c < |w.conns|
  {
    w.(conns := w.conns[c := w.conns[c].(back := w.conns[c].back + bytes)])
  }

  function TakenBack(w: World, c: nat, n: nat): World
    requires c < |w.conns|
  {
    w.(conns := w.conns[c := w.conns[c].(taken := w.conns[c].taken + n)])
  }

  /** `last_ss` begins: its file is named after the number of the socket. */
  function BeginFetch(w: World, t: nat, fName: string): World
    requires t < |w.threads| && w.threads[t].sock.Open? && w.threads[t].proc < |w.procs|
  {
    var file := FileName(w.procs[w.threads[t].proc].dir, w.threads[t].sock.number);
    var w1 := w.(disk := w.disk.(fetchers := w.disk.fetchers + [Fetcher(file, fName, Started)]), owners := w.owners + [t]);
    SetStage(w1, t, Fetching(|w.disk.fetchers|))
  }

  function ReceiveHeader(w: World, t: nat): World
    requires t < |w.threads| && w.threads[t].sock.Open? && w.threads[t].proc < |w.procs|
    requires Ready(w, w.threads[t].proc, w.threads[t].sock.number)
  {
    match InAt(w, w.threads[t].proc, w.threads[t].sock.number)
    case None => SetStage(w, t, Confused)
    case Some(c) =>
      var m := w.conns[c].sent[w.conns[c].read];
      var w1 := Received(w, c);
      if !m.Header? || |m.size| != 4 then SetStage(w1, t, Confused)
      else
        var size := FromBe32(m.size[0], m.size[1], m.size[2], m.size[3]);
        if size == 0 then BeginFetch(w1, t, m.fName) else SetStage(w1, t, Listing(size, m.fName, []))
  }

  function ReceiveElement(w: World, t: nat): World
    requires t < |w.threads| && w.threads[t].sock.Open? && w.threads[t].proc < |w.procs| && w.threads[t].stage.Listing?
    requires Ready(w, w.threads[t].proc, w.threads[t].sock.number)
  {
    match InAt(w, w.threads[t].proc, w.threads[t].sock.number)
    case None => SetStage(w, t, Confused)
    case Some(c) =>
      var m := w.conns[c].sent[w.conns[c].read];
      var stage := w.threads[t].stage;
      var list := stage.list + if m.Elem? then [m.element] else [];
      SetStage(Received(w, c), t,
        if !m.Elem? then Confused
        else if |list| < stage.size then Listing(stage.size, stage.fName, list)
        else Choosing(stage.fName, list))
  }

  /** The trip with one more link, to the chosen element. */
  function Extended(trip: Trip, fName: string, list: seq<Element>, next: nat): Trip
    requires next < |list| < 0x1_0000_0000
  {
    Trip(trip.visited + [list[next]], trip.links + [Request(Be32(|list| - 1), fName, Without(list, next))], trip.fetched)
  }

  /** A stone prints what it passes on; awget has no buffer for that. */
  predicate TextFits(env: Env, th: Thread, next: nat)
    requires th.stage.Choosing? && next < |th.stage.list|
  {
    th.trip.visited == [] ||
    Chain.Fits(env.names(th.trip.visited[|th.trip.visited| - 1]), th.stage.fName, th.stage.list, th.stage.list[next])
  }

  function ConnectNext(env: Env, w: World, t: nat, n: nat): World
    requires t < |w.threads| && w.threads[t].proc < |w.procs|
    requires w.threads[t].stage.Choosing? && Countable(w.threads[t].stage.list)
  {
    var th := w.threads[t];
    var list, next := th.stage.list, Draw(env, w, t) % |th.stage.list|;
    if !TextFits(env, th, next) then SetStage(w, t, Crashed)
    else
      var trip := Extended(th.trip, th.stage.fName, list, next);
      var w1 := Bind(w, th.proc, n, Out(|w.conns|));
      w1.(procs := w1.procs[th.proc := w1.procs[th.proc].(tick := w.procs[th.proc].tick + 1)],
          conns := w.conns + [Connection(env.where(list[next]), [], 0, [], 0, None, t, th.ask, th.order, trip)],
          threads := w.threads[t := th.(out := Open(n, |w.conns|), stage := Heading(th.stage.fName, list, next))])
  }

  function PutHeader(w: World, t: nat): World
    requires t < |w.threads| && w.threads[t].proc < |w.procs| && w.threads[t].out.Open?
    requires w.threads[t].stage.Heading? && Countable(w.threads[t].stage.list)
  {
    var stage := w.threads[t].stage;
    match OutAt(w, w.threads[t].proc, w.threads[t].out.number)
    case None => SetStage(w, t, Confused)
    case Some(c) =>
      SetStage(Sent(w, c, Header(Be32(|stage.list| - 1), stage.fName)), t, Sending(stage.fName, stage.list, stage.next, 0))
  }

  /** Where the send loop stands after element i. */
  function AfterElement(stage: Stage): Stage
    requires stage.Sending?
  {
    if stage.i + 1 == |stage.list| then Waiting else stage.(i := stage.i + 1)
  }

  function PutElement(w: World, t: nat): World
    requires t < |w.threads| && w.threads[t].proc < |w.procs| && w.threads[t].out.Open?
    requires w.threads[t].stage.Sending? && w.threads[t].stage.i < |w.threads[t].stage.list|
  {
    var stage := w.threads[t].stage;
    var after := AfterElement(stage);
    if stage.i == stage.next then SetStage(w, t, after)
    else match OutAt(w, w.threads[t].proc, w.threads[t].out.number)
      case None => SetStage(w, t, Confused)
      case Some(c) => SetStage(Sent(w, c, Elem(stage.list[stage.i])), t, after)
  }

  function Map(env: Env, w: World, t: nat, n: nat): World
    requires t < |w.threads| && w.threads[t].proc < |w.procs| && Fetches(w, t)
  {
    var i := w.threads[t].stage.fetch;
    var w1 := w.(disk := DiskStep(w.disk, i, env.web));
    if w1.disk.fetchers[i].stage.Failed? then w1
    else
      var w2 := Bind(w1, w.threads[t].proc, n, Temp(t));
      if w1.disk.fetchers[i].stage.Mapped? then SetStage(w2, t, Reading(i, n, 0)) else w2
  }

  /** One turn of the send loop of `last_ss` (or the header before it). */
  function SendChunk(w: World, t: nat, n: nat): World
    requires t < |w.threads| && w.threads[t].proc < |w.procs| && w.threads[t].sock.Open? && Reads(w, t)
    requires w.threads[t].stage.pos + n <= |Frame(w.disk.fetchers[w.threads[t].stage.fetch].stage.data)|
  {
    var stage := w.threads[t].stage;
    var frame := Frame(w.disk.fetchers[stage.fetch].stage.data);
    match InAt(w, w.threads[t].proc, w.threads[t].sock.number)
    case None => SetStage(w, t, Confused)
    case Some(c) => SetStage(SentBack(w, c, frame[stage.pos..stage.pos + n]), t, stage.(pos := stage.pos + n))
  }

  /** One turn of the relay loop of `curr_ss`, or of the receive loop of awget (or the header before it). */
  function PassChunk(w: World, t: nat, n: nat): World
    requires t < |w.threads| && w.threads[t].proc < |w.procs| && w.threads[t].out.Open?
    requires BackReady(w, w.threads[t].proc, w.threads[t].out.number, n)
  {
    var th := w.threads[t];
    match OutAt(w, th.proc, th.out.number)
    case None => SetStage(w, t, Confused)
    case Some(c) =>
      var chunk := w.conns[c].back[w.conns[c].taken..w.conns[c].taken + n];
      var w1 := TakenBack(w, c, n).(threads := w.threads[t := th.(got := th.got + chunk)]);
      if !th.sock.Open? then w1
      else match InAt(w, th.proc, th.sock.number)
        case None => SetStage(w1, t, Confused)
        case Some(d) => SentBack(w1, d, chunk)
  }

  function Perform(env: Env, w: World, t: nat, call: Call): World
    requires t < |w.threads| && w.threads[t].proc < |w.procs| && CanCall(env, w, t, call)
  {
    var th := w.threads[t];
    match call
    case RecvHeader => ReceiveHeader(w, t)
    case RecvElement => ReceiveElement(w, t)
    case Connect(n) => ConnectNext(env, w, t, n)
    case SendHeader => PutHeader(w, t)
    case SendElement => PutElement(w, t)
    case Download => w.(disk := DiskStep(w.disk, th.stage.fetch, env.web))
    case MapFile(n) => Map(env, w, t, n)
    case SendFile(n) => SendChunk(w, t, n)
    case RemoveFile =>
      var w1 := Unbind(w, th.proc, th.stage.fd);
      SetStage(w1.(disk := DiskStep(w.disk, th.stage.fetch, env.web)), t, Fetching(th.stage.fetch))
    case PassOn(n) => PassChunk(w, t, n)
    case CloseOut => Unbind(w, th.proc, th.out.number).(threads := w.threads[t := th.(out := Closed(th.out.conn))])
    case CloseSock => Unbind(w, th.proc, th.sock.number).(threads := w.threads[t := th.(sock := Closed(th.sock.conn))])
  }

  function Apply(env: Env, w: World, step: Step): World
    requires Enabled(env, w, step)
  {
    match step
    case Ask(p, elements, url) =>
      var order := Request(Be32(|elements|), url, elements);
      var th := Thread(p, Absent, Absent, Choosing(url, elements), [], |w.threads|, order, Trip([], [], None));
      w.(threads := w.threads + [th])
    case Accept(c, n) =>
      var conn := w.conns[c];
      var th := Thread(conn.dest, Open(n, c), Absent, Announced, [], conn.ask, conn.order, conn.trip);
      Bind(w, conn.dest, n, In(c)).(conns := w.conns[c := conn.(taker := Some(|w.threads|))], threads := w.threads + [th])
    case Go(t, call) => Perform(env, w, t, call)
  }

  predicate Legal(env: Env, w: World, steps: seq<Step>)
    decreases |steps|
  {
    steps == [] || (Enabled(env, w, steps[0]) && Legal(env, Apply(env, w, steps[0]), steps[1..]))
  }

  function Run(env: Env, w: World, steps: seq<Step>): World
    requires Legal(env, w, steps)
    decreases |steps|
  {
    if steps == [] then w else Run(env, Apply(env, w, steps[0]), steps[1..])
  }

  /** Processes that have just started, each in the directory given. */
  function Start(dirs: seq<nat>): World {
    World(seq(|dirs|, p requires 0 <= p < |dirs| => Process(dirs[p], map[], 0)), [], [], Disk(map[], []), [])
  }
}
