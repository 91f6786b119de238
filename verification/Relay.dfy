/** The file's way back through the chain of proj2: the last stone sends it, every other stone
    relays what it receives, awget writes it. */
module Relay {
  import opened Basics
  import opened Bytes

  type Data = seq<byte>

  const BUF_SIZE := 8192

  function Min(a: nat, b: nat): nat {
    if a < b then a else b
  }

  /** The file header: a version byte and the size in network byte order. */
  function FileHeader(size: nat): (r: seq<byte>)
    requires size < 0x1_0000_0000
    ensures |r| == 5
  {
    [1] + Be32(size)
  }

  function SizeIn(header: seq<byte>): nat
    requires |header| == 5
  {
    FromBe32(header[1], header[2], header[3], header[4])
  }

  lemma HeaderRoundTrip(size: nat)
    requires size < 0x1_0000_0000
    ensures SizeIn(FileHeader(size)) == size
  {
    Be32RoundTrip(size);
  }

  /** On the wire: version 1, then the size with the highest byte first. */
  lemma HeaderShows(size: nat)
    requires size < 0x1_0000_0000
    ensures var h := FileHeader(size);
      h[0] == 1 && h[1] as int * 0x100_0000 + h[2] as int * 0x1_0000 + h[3] as int * 256 + h[4] as int == size
  {
    Be32Shows(size);
  }

  // ---------------------------------------------------------------- the three programs

  /** One end of a connection: what has arrived or will, and what was sent. */
  class Socket {
    var incoming: Data
    var outgoing: Data

    constructor (incoming: Data)
      ensures this.incoming == incoming && outgoing == []
    {
      this.incoming, outgoing := incoming, [];
    }

    /** `recv`: any positive number of the next bytes, at most `max`. */
    method Recv(max: nat) returns (chunk: Data)
      requires incoming != [] && max > 0
      modifies this`incoming
      ensures 1 <= |chunk| <= max && old(incoming) == chunk + incoming
    {
      var most := Min(max, |incoming|);
      var k: nat :| 1 <= k <= most;
      chunk := incoming[..k];
      incoming := incoming[k..];
    }

    /** `send`: any positive number of the given bytes is taken. */
    method Send(data: Data) returns (count: nat)
      requires data != []
      modifies this`outgoing
      ensures 1 <= count <= |data| && outgoing == old(outgoing) + data[..count]
    {
      count :| 1 <= count <= |data|;
      outgoing := outgoing + data[..count];
    }

    method SendWhole(data: Data)
      modifies this`outgoing
      ensures outgoing == old(outgoing) + data
    {
      outgoing := outgoing + data;
    }
  }

  /** `last_ss`, once wget is done. An empty file cannot be mapped: then nothing is sent at all, not
      even a header. */
  method SendFile(s: Socket, file: Data) returns (ok: bool)
    requires |file| < 0x8000_0000
    modifies s`outgoing
    ensures ok <==> file != []
    ensures s.outgoing == old(s.outgoing) + if file == [] then [] else FileHeader(|file|) + file
  {
    if |file| == 0 {
      return false;
    }
    s.SendWhole(FileHeader(|file|));
    var cursor: nat := 0;
    ghost var start := s.outgoing;
    while cursor < |file|
      invariant cursor <= |file|
      invariant s.outgoing == start + file[..cursor]
    {
      var upTo := cursor + Min(BUF_SIZE, |file| - cursor);
      var bytes := s.Send(file[cursor..upTo]);
      assert file[cursor..upTo][..bytes] == file[cursor..cursor + bytes];
      assert file[..cursor] + file[cursor..cursor + bytes] == file[..cursor + bytes];
      cursor := cursor + bytes;
    }
    assert file[..cursor] == file;
    return true;
  }

  /** A header and as many bytes as it announces. */
  predicate Framed(bytes: Data) {
    |bytes| >= 5 && |bytes| == 5 + SizeIn(bytes[..5])
  }

  lemma FileIsFramed(file: Data)
    requires |file| < 0x1_0000_0000
    ensures Framed(FileHeader(|file|) + file)
  {
    assert (FileHeader(|file|) + file)[..5] == FileHeader(|file|);
    HeaderRoundTrip(|file|);
  }

  /** What comes out of a connection to the next stone. When that was closed without a byte, `recv` leaves
      the header variable as it is: `stray` stands for whatever is in it. */
  function Received(incoming: Data, stray: seq<byte>): Data {
    if incoming == [] then stray else incoming
  }

  /** Every `recv` returns, and the loop that reads the file ends: a closed connection brings no
      bytes, so with a stray size it never would. */
  predicate Readable(incoming: Data, stray: seq<byte>) {
    |stray| == 5 && Framed(Received(incoming, stray))
  }

  /** `recv` of the file header. */
  method ReadHeader(s: Socket, stray: seq<byte>) returns (header: seq<byte>)
    requires Readable(s.incoming, stray)
    modifies s`incoming
    ensures header == Received(old(s.incoming), stray)[..5]
    ensures s.incoming == Received(old(s.incoming), stray)[5..]
  {
    if s.incoming == [] {
      return stray;
    }
    header := s.incoming[..5];
    s.incoming := s.incoming[5..];
  }

  /** The end of `curr_ss`: forward the header, then chunk after chunk until the announced size.
      At every moment a prefix of what is received has been forwarded. */
  method RelayFile(next: Socket, prev: Socket, stray: seq<byte>)
    requires next != prev && Readable(next.incoming, stray)
    modifies next`incoming, prev`outgoing
    ensures prev.outgoing == old(prev.outgoing) + Received(old(next.incoming), stray) && next.incoming == []
  {
    ghost var frame, start := Received(next.incoming, stray), prev.outgoing;
    var header := ReadHeader(next, stray);
    prev.SendWhole(header);
    var size := SizeIn(header);
    var i: nat := 0;
    while i < size
      invariant i <= size && 5 + size == |frame|
      invariant next.incoming == frame[5 + i..] && prev.outgoing == start + frame[..5 + i]
    {
      ghost var left := next.incoming;
      var buffer := next.Recv(BUF_SIZE);
      assert left[..|buffer|] == buffer && left[|buffer|..] == frame[5 + i + |buffer|..];
      assert frame[..5 + i] + buffer == frame[..5 + i + |buffer|];
      prev.SendWhole(buffer);
      i := i + |buffer|;
    }
    assert frame[..5 + i] == frame;
  }

  /** The receive loop of awget: what is written is what follows the header. */
  method ReceiveFile(s: Socket, stray: seq<byte>) returns (written: Data)
    requires Readable(s.incoming, stray)
    modifies s`incoming
    ensures written == Received(old(s.incoming), stray)[5..] && s.incoming == []
  {
    ghost var file := Received(s.incoming, stray)[5..];
    var header := ReadHeader(s, stray);
    var size := SizeIn(header);
    written := [];
    var c: nat := 0;
    while c < size
      invariant c <= size == |file|
      invariant s.incoming == file[c..] && written == file[..c]
    {
      var buff := s.Recv(BUF_SIZE);
      assert file[c..][..|buff|] == buff && file[c..][|buff|..] == file[c + |buff|..];
      written := written + buff;
      c := c + |buff|;
    }
  }

  // ---------------------------------------------------------------- all stages at once

  /** Stage 0 is the last stone, the final stage is awget, the others relay. `outs[k]` is what stage
      k has sent (awget: written), `links[k]` is in flight from stage k to k + 1, `headers[k]` is
      the file header stage k goes by once it has one. */
  datatype Pipe = Pipe(headers: seq<Option<seq<byte>>>, outs: seq<Data>, links: seq<Data>)

  /** What comes back: the file the last stone fetched, and what the header variable of its neighbour
      holds before anything is received. */
  datatype Fetched = Fetched(file: Data, stray: seq<byte>)
  {
    predicate Valid() {
      |file| < 0x8000_0000 && |stray| == 5
    }

    /** The header all stages but the last stone go by. An empty file cannot be mapped: the last stone
        closes the connection, and its neighbour goes on, and passes on, what its variable holds. */
    function Announced(): seq<byte>
      requires Valid()
    {
      if file == [] then stray else FileHeader(|file|)
    }

    /** The size announced is that of the file. */
    predicate Truthful()
      requires Valid()
    {
      SizeIn(Announced()) == |file|
    }

    lemma TruthfulIff()
      requires Valid()
      ensures Truthful() <==> file != [] || SizeIn(stray) == 0
      ensures file != [] ==> SizeIn(Announced()) == |file|
    {
      HeaderRoundTrip(|file|);
    }
  }

  /** `Header(k)`: stage k gets and passes on the header; stage 0 makes it, unless the file is empty.
      `Chunk(k, n)`: one turn of the loop of stage k with a transfer of n bytes, none on a connection
      that was closed. */
  datatype Step = Header(k: nat) | Chunk(k: nat, n: nat)

  function Start(links: nat): Pipe {
    Pipe(seq(links + 1, _ => None), seq(links + 1, _ => []), seq(links, _ => []))
  }

  ghost predicate Shape(p: Pipe) {
    && |p.headers| == |p.outs| == |p.links| + 1
    && forall k | 0 <= k < |p.headers| && p.headers[k].Some? :: |p.headers[k].value| == 5
  }

  /** The stage reads from a connection that the last stone has closed without a byte. */
  predicate AtClosed(f: Fetched, k: nat) {
    k == 1 && f.file == []
  }

  ghost predicate Enabled(p: Pipe, f: Fetched, step: Step)
    requires Shape(p)
  {
    match step
    case Header(k) =>
      && k < |p.headers| && p.headers[k].None?
      && if k == 0 then f.file != [] else AtClosed(f, k) || p.headers[k - 1].Some?
    case Chunk(k, n) =>
      && k < |p.outs| && p.headers[k].Some?
      && |p.outs[k]| < SizeIn(p.headers[k].value)
      && if AtClosed(f, k) then n == 0
         else 1 <= n <= BUF_SIZE && n <= if k == 0 then |f.file| - |p.outs[0]| else |p.links[k - 1]|
  }

  ghost function Apply(p: Pipe, f: Fetched, step: Step): Pipe
    requires Shape(p) && f.Valid() && Enabled(p, f, step)
  {
    match step
    case Header(k) =>
      var header := if k == 0 || AtClosed(f, k) then f.Announced() else p.headers[k - 1].value;
      p.(headers := p.headers[k := Some(header)])
    case Chunk(k, n) =>
      if n == 0 then p
      else
        var chunk := if k == 0 then f.file[|p.outs[0]|..|p.outs[0]| + n] else p.links[k - 1][..n];
        var taken := if k == 0 then p.links else p.links[k - 1 := p.links[k - 1][n..]];
        p.(outs := p.outs[k := p.outs[k] + chunk],
           links := if k < |p.links| then taken[k := taken[k] + chunk] else taken)
  }

  ghost predicate Legal(p: Pipe, f: Fetched, steps: seq<Step>)
    decreases |steps|
  {
    && Shape(p) && f.Valid()
    && (steps != [] ==> Enabled(p, f, steps[0]) && Legal(Apply(p, f, steps[0]), f, steps[1..]))
  }

  ghost function Run(p: Pipe, f: Fetched, steps: seq<Step>): Pipe
    requires Legal(p, f, steps)
    decreases |steps|
  {
    if steps == [] then p else Run(Apply(p, f, steps[0]), f, steps[1..])
  }

  /** Nothing is lost, duplicated or reordered on any link, and every header is the announced one. */
  ghost predicate Inv(p: Pipe, f: Fetched) {
    && Shape(p) && f.Valid()
    && (forall k | 0 <= k < |p.outs| :: p.outs[k] <= f.file)
    && (forall k | 0 <= k < |p.links| :: p.outs[k + 1] + p.links[k] == p.outs[k])
    && (forall k | 0 <= k < |p.headers| && p.headers[k].Some? :: p.headers[k].value == f.Announced())
    && (p.headers[0].Some? ==> f.file != [])
  }

  /** A transfer by stage k moves the head of one link to the end of the next: what goes out of
      each link and stays in it still adds up. */
  lemma ChunkKeepsLink(p: Pipe, f: Fetched, k: nat, n: nat, j: nat)
    requires Inv(p, f) && Enabled(p, f, Chunk(k, n)) && j < |p.links|
    ensures var q := Apply(p, f, Chunk(k, n)); q.outs[j + 1] + q.links[j] == q.outs[j]
  {
    assert p.outs[j + 1] + p.links[j] == p.outs[j];
    if j + 1 == k && n > 0 {
      var link := p.links[j];
      assert p.outs[k] + link[..n] + link[n..] == p.outs[k] + link by {
        assert link[..n] + link[n..] == link;
      }
    }
  }

  lemma ChunkKeepsPrefix(p: Pipe, f: Fetched, k: nat, n: nat)
    requires Inv(p, f) && Enabled(p, f, Chunk(k, n)) && n > 0
    ensures Apply(p, f, Chunk(k, n)).outs[k] <= f.file
  {
    if k > 0 {
      var link := p.links[k - 1];
      assert p.outs[k] + link == p.outs[k - 1];
      assert p.outs[k] + link[..n] == p.outs[k - 1][..|p.outs[k]| + n];
    } else {
      assert p.outs[0] + f.file[|p.outs[0]|..|p.outs[0]| + n] == f.file[..|p.outs[0]| + n];
    }
  }

  lemma ChunkKeepsInv(p: Pipe, f: Fetched, k: nat, n: nat)
    requires Inv(p, f) && Enabled(p, f, Chunk(k, n))
    ensures Inv(Apply(p, f, Chunk(k, n)), f)
  {
    var q := Apply(p, f, Chunk(k, n));
    if n > 0 {
      ChunkKeepsPrefix(p, f, k, n);
      forall j | 0 <= j < |q.links| ensures q.outs[j + 1] + q.links[j] == q.outs[j] {
        ChunkKeepsLink(p, f, k, n, j);
      }
    }
  }

  lemma HeaderKeepsInv(p: Pipe, f: Fetched, k: nat)
    requires Inv(p, f) && Enabled(p, f, Header(k))
    ensures Inv(Apply(p, f, Header(k)), f)
  {
  }

  lemma {:induction false} RunKeepsInv(p: Pipe, f: Fetched, steps: seq<Step>)
    requires Inv(p, f) && Legal(p, f, steps)
    ensures Inv(Run(p, f, steps), f) && |Run(p, f, steps).outs| == |p.outs|
    decreases |steps|
  {
    if steps != [] {
      match steps[0] {
        case Header(k) => HeaderKeepsInv(p, f, k);
        case Chunk(k, n) => ChunkKeepsInv(p, f, k, n);
      }
      RunKeepsInv(Apply(p, f, steps[0]), f, steps[1..]);
    }
  }

  lemma StartInv(links: nat, f: Fetched)
    requires f.Valid()
    ensures Inv(Start(links), f)
  {
  }

  /** Stage k has a header and has left its loop. */
  ghost predicate Ended(p: Pipe, k: nat)
    requires Shape(p) && k < |p.outs|
  {
    p.headers[k].Some? && |p.outs[k]| >= SizeIn(p.headers[k].value)
  }

  /** Every stage at every moment has forwarded a prefix of the file, and leaves its loop exactly when
      that is the whole file and the size announced is its size. */
  lemma AlwaysAPrefix(links: nat, f: Fetched, steps: seq<Step>, k: nat)
    requires k <= links && f.Valid() && Legal(Start(links), f, steps)
    ensures var p := Run(Start(links), f, steps);
      && Shape(p) && k < |p.outs| && p.outs[k] <= f.file
      && (p.headers[k].Some? ==> (Ended(p, k) <==> p.outs[k] == f.file && f.Truthful()))
  {
    StartInv(links, f);
    RunKeepsInv(Start(links), f, steps);
    f.TruthfulIff();
  }

  /** Bytes still to be forwarded and headers still to be passed, over all stages. */
  function Left(file: Data, outs: seq<Data>): int {
    if outs == [] then 0 else |file| - |outs[0]| + Left(file, outs[1..])
  }

  function Missing(headers: seq<Option<seq<byte>>>): nat {
    if headers == [] then 0 else (if headers[0].None? then 1 else 0) + Missing(headers[1..])
  }

  lemma {:induction false} LeftUpdate(file: Data, outs: seq<Data>, k: nat, x: Data)
    requires k < |outs|
    ensures Left(file, outs[k := x]) == Left(file, outs) + |outs[k]| - |x|
  {
    if k > 0 {
      assert outs[k := x][1..] == outs[1..][k - 1 := x];
      LeftUpdate(file, outs[1..], k - 1, x);
    } else {
      assert outs[k := x][1..] == outs[1..];
    }
  }

  lemma {:induction false} MissingUpdate(headers: seq<Option<seq<byte>>>, k: nat, x: seq<byte>)
    requires k < |headers| && headers[k].None?
    ensures Missing(headers[k := Some(x)]) == Missing(headers) - 1
  {
    if k > 0 {
      assert headers[k := Some(x)][1..] == headers[1..][k - 1 := Some(x)];
      MissingUpdate(headers[1..], k - 1, x);
    } else {
      assert headers[k := Some(x)][1..] == headers[1..];
    }
  }

  lemma {:induction false} LeftBounds(file: Data, outs: seq<Data>)
    requires forall k | 0 <= k < |outs| :: outs[k] <= file
    ensures 0 <= Left(file, outs) <= |outs| * |file|
  {
    if outs != [] {
      LeftBounds(file, outs[1..]);
      OneMore(|outs| - 1, |file|);
    }
  }

  lemma {:induction false} MissingBound(headers: seq<Option<seq<byte>>>)
    ensures Missing(headers) <= |headers|
  {
    if headers != [] {
      MissingBound(headers[1..]);
    }
  }

  /** While the size announced is true, a step costs one unit of what is left. */
  lemma StepCosts(p: Pipe, f: Fetched, step: Step)
    requires Inv(p, f) && f.Truthful() && Enabled(p, f, step)
    ensures var q := Apply(p, f, step);
      Left(f.file, q.outs) + Missing(q.headers) < Left(f.file, p.outs) + Missing(p.headers)
  {
    var q := Apply(p, f, step);
    match step
    case Header(k) => MissingUpdate(p.headers, k, q.headers[k].value);
    case Chunk(k, n) => LeftUpdate(f.file, p.outs, k, q.outs[k]);
  }

  lemma {:induction false} RunCosts(p: Pipe, f: Fetched, steps: seq<Step>)
    requires Inv(p, f) && f.Truthful() && Legal(p, f, steps)
    ensures var q := Run(p, f, steps);
      |steps| + Left(f.file, q.outs) + Missing(q.headers) <= Left(f.file, p.outs) + Missing(p.headers)
    decreases |steps|
  {
    if steps != [] {
      StepCosts(p, f, steps[0]);
      assert Inv(Apply(p, f, steps[0]), f) by {
        match steps[0] {
          case Header(k) => HeaderKeepsInv(p, f, k);
          case Chunk(k, n) => ChunkKeepsInv(p, f, k, n);
        }
      }
      RunCosts(Apply(p, f, steps[0]), f, steps[1..]);
    }
  }

  ghost predicate Stuck(p: Pipe, f: Fetched)
    requires Shape(p)
  {
    forall step: Step :: !Enabled(p, f, step)
  }

  /** When no stage can move, every stage up to k has passed on the whole file and left its loop;
      for an empty file, every stage behind the last stone. */
  lemma {:induction false} StuckMeansDone(p: Pipe, f: Fetched, k: nat)
    requires Inv(p, f) && f.Truthful() && Stuck(p, f) && k < |p.outs| && (f.file == [] ==> k > 0)
    ensures Ended(p, k) && p.outs[k] == f.file
  {
    assert !Enabled(p, f, Header(k)) && !Enabled(p, f, Chunk(k, 1));
    if k > 1 || (k == 1 && f.file != []) {
      StuckMeansDone(p, f, k - 1);
      assert p.outs[k] + p.links[k - 1] == p.outs[k - 1];
      assert |p.links[k - 1]| == |f.file| - |p.outs[k]|;
    }
  }

  /** If a stray size is announced for an empty file, the neighbour of the last stone never stops
      reading from the closed connection. */
  lemma NeverStuck(p: Pipe, f: Fetched)
    requires Inv(p, f) && !f.Truthful() && |p.outs| > 1
    ensures !Stuck(p, f)
  {
    f.TruthfulIff();
    if p.headers[1].None? {
      assert Enabled(p, f, Header(1));
    } else {
      assert Enabled(p, f, Chunk(1, 0));
    }
  }

  /** End-to-end identity: for every number of links, every chunking and every interleaving, awget
      leaves its loop only with exactly the bytes the last stone fetched. If there are any, or the
      header variable of the neighbour holds size zero, a run has at most (links + 1) * (size + 1)
      steps, and awget has left its loop when it can go no further; otherwise it never does. */
  lemma FileArrives(links: nat, f: Fetched, steps: seq<Step>)
    requires links >= 1 && f.Valid() && Legal(Start(links), f, steps)
    ensures var p := Run(Start(links), f, steps);
      && |p.outs| == links + 1 && Shape(p)
      && (Ended(p, links) ==> p.outs[links] == f.file)
      && if f.file != [] || SizeIn(f.stray) == 0
         then |steps| <= (links + 1) * (|f.file| + 1) && (Stuck(p, f) ==> Ended(p, links))
         else !Ended(p, links) && !Stuck(p, f)
  {
    var s := Start(links);
    StartInv(links, f);
    RunKeepsInv(s, f, steps);
    f.TruthfulIff();
    AlwaysAPrefix(links, f, steps, links);
    var p := Run(s, f, steps);
    if f.Truthful() {
      RunIsBounded(links, f, steps);
      if Stuck(p, f) {
        StuckMeansDone(p, f, links);
      }
    } else {
      NeverStuck(p, f);
    }
  }

  lemma RunIsBounded(links: nat, f: Fetched, steps: seq<Step>)
    requires f.Valid() && f.Truthful() && Legal(Start(links), f, steps)
    ensures |steps| <= (links + 1) * (|f.file| + 1)
  {
    var s := Start(links);
    StartInv(links, f);
    RunKeepsInv(s, f, steps);
    RunCosts(s, f, steps);
    LeftBounds(f.file, s.outs);
    LeftBounds(f.file, Run(s, f, steps).outs);
    MissingBound(s.headers);
    assert (links + 1) * (|f.file| + 1) == (links + 1) * |f.file| + (links + 1);
  }
}
