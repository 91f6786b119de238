/** The worker pool of scaling/src/threadpool.{hpp,cpp} as a transition system.

    Each event is one atomic step of the original: a critical section from the moment the
    lock is taken until it is released (or handed to `wait`), or the single unlocked read
    of `_running` in the loop of `_exec_thread`. */
module ThreadPool {

  type Task = int

  /** The task handed to a worker, numbered by its place in the order of `put`. */
  datatype Job = Job(ticket: nat, task: Task)

  /** Where one worker thread stands. */
  datatype Worker =
    | AtCheck           // about to read `_running` in `_exec_thread`
    | Heading           // saw `_running`, about to take the lock in `_take`
    | Asleep            // inside `_wait.wait`, not yet notified
    | Notified          // left `_wait.wait`'s queue, has not got the lock back yet
    | Running(job: Job) // outside the lock, executing a task
    | Exited            // left the loop of `_exec_thread`

  /** The fields of the pool, one entry per thread, and the history of the run:
      `put` lists every task given to `put`, `takers[k]` is the worker that took the k-th
      of them, `done` lists the jobs whose call has returned. */
  datatype State = State(
    nthreads: nat,
    running: bool,
    queue: seq<Task>,
    waiting: nat,
    working: nat,
    workers: seq<Worker>,
    put: seq<Task>,
    takers: seq<nat>,
    done: seq<Job>)

  /** `wake` names the sleeper that `notify_one` picks, if there is one. */
  datatype Event =
    | Put(task: Task, wake: nat)
    | Stop
    | Spurious(w: nat)
    | Check(w: nat)
    | Lock(w: nat)
    | Finish(w: nat)
  {
    predicate ByWorker() {
      Check? || Lock? || Finish?
    }
  }

  function Inc8(x: nat): nat {
    if x >= 255 then 0 else x + 1
  }

  function Dec8(x: nat): nat {
    if x == 0 then 255 else x - 1
  }

  function Init(nthreads: nat): State {
    State(nthreads, true, [], 0, 0, [], [], [], [])
  }

  predicate IsAsleep(ws: seq<Worker>, w: nat) {
    w < |ws| && ws[w].Asleep?
  }

  predicate AnyAsleep(ws: seq<Worker>) {
    exists w: nat | w < |ws| :: ws[w].Asleep?
  }

  predicate Enabled(s: State, e: Event) {
    match e
    case Put(_, wake) => AnyAsleep(s.workers) ==> IsAsleep(s.workers, wake)
    case Stop => true
    case Spurious(w) => IsAsleep(s.workers, w)
    case Check(w) => w < |s.workers| && s.workers[w].AtCheck?
    case Lock(w) => w < |s.workers| && (s.workers[w].Heading? || s.workers[w].Notified?)
    case Finish(w) => w < |s.workers| && s.workers[w].Running?
  }

  function WakeAll(ws: seq<Worker>): (r: seq<Worker>)
    ensures |r| == |ws|
    ensures forall w | 0 <= w < |ws| :: r[w] == if ws[w].Asleep? then Notified else ws[w]
  {
    seq(|ws|, w requires 0 <= w < |ws| => if ws[w].Asleep? then Notified else ws[w])
  }

  /** `put`: enqueue, spawn a thread when nobody waits and the limit allows it, notify one. */
  function PutStep(s: State, task: Task, wake: nat): State {
    var spawned := if s.waiting == 0 && |s.workers| < s.nthreads then s.workers + [AtCheck] else s.workers;
    s.(queue := s.queue + [task],
       put := s.put + [task],
       workers := if IsAsleep(spawned, wake) then spawned[wake := Notified] else spawned)
  }

  /** `_take` from the moment the worker holds the lock until it gives it up: either it leaves
      with a task, or it leaves with NULL and goes back to the loop check, or it (re)enters `wait`. */
  function LockStep(s: State, w: nat): State
    requires Enabled(s, Lock(w))
  {
    var resumed := s.workers[w].Notified?;
    var s1 := if resumed then s.(working := Inc8(s.working), waiting := Dec8(s.waiting)) else s;
    if !s.running && (resumed || s.queue == []) then
      s1.(workers := s.workers[w := AtCheck])
    else if s.queue == [] then
      s1.(waiting := Inc8(s1.waiting), working := Dec8(s1.working), workers := s.workers[w := Asleep])
    else
      s1.(workers := s.workers[w := Running(Job(|s.takers|, s.queue[0]))],
          queue := s.queue[1..],
          takers := s.takers + [w])
  }

  function Apply(s: State, e: Event): State
    requires Enabled(s, e)
  {
    match e
    case Put(task, wake) => PutStep(s, task, wake)
    case Stop => s.(running := false, workers := WakeAll(s.workers))
    case Spurious(w) => s.(workers := s.workers[w := Notified])
    case Check(w) => s.(workers := s.workers[w := if s.running then Heading else Exited])
    case Lock(w) => LockStep(s, w)
    case Finish(w) => s.(workers := s.workers[w := AtCheck], done := s.done + [s.workers[w].job])
  }

  /** A run is a sequence of events, each enabled where it happens. */
  predicate Legal(s: State, es: seq<Event>)
    decreases |es|
  {
    es == [] || (Enabled(s, es[0]) && Legal(Apply(s, es[0]), es[1..]))
  }

  function Run(s: State, es: seq<Event>): State
    requires Legal(s, es)
    decreases |es|
  {
    if es == [] then s else Run(Apply(s, es[0]), es[1..])
  }

  // ---------------------------------------------------------------- the history is the run's

  /** The tasks given to `put`, in order. */
  function Tasks(es: seq<Event>): seq<Task> {
    if es == [] then []
    else (if es[0].Put? then [es[0].task] else []) + Tasks(es[1..])
  }

  /** How many calls of tasks returned. */
  function Returns(es: seq<Event>): nat {
    if es == [] then 0 else (if es[0].Finish? then 1 else 0) + Returns(es[1..])
  }

  /** The history fields say what happened: `put` lists the tasks of the run's `put` calls, in order,
      and every entry of `done` comes from the return of a task's call. */
  lemma {:induction false} HistoryIsRun(s: State, es: seq<Event>)
    requires Legal(s, es)
    ensures Run(s, es).put == s.put + Tasks(es)
    ensures |Run(s, es).done| == |s.done| + Returns(es)
    decreases |es|
  {
    if es != [] {
      HistoryIsRun(Apply(s, es[0]), es[1..]);
    }
  }

  lemma PutIsTasks(nthreads: nat, es: seq<Event>)
    requires Legal(Init(nthreads), es)
    ensures Run(Init(nthreads), es).put == Tasks(es)
    ensures |Run(Init(nthreads), es).done| == Returns(es)
  {
    HistoryIsRun(Init(nthreads), es);
    assert [] + Tasks(es) == Tasks(es);
  }

  // ---------------------------------------------------------------- counting workers

  function Count(ws: seq<Worker>, f: Worker -> nat): nat {
    if ws == [] then 0 else f(ws[0]) + Count(ws[1..], f)
  }

  function AsleepOne(w: Worker): nat { if w.Asleep? then 1 else 0 }

  function NotifiedOne(w: Worker): nat { if w.Notified? then 1 else 0 }

  function HeadingOne(w: Worker): nat { if w.Heading? then 1 else 0 }

  lemma {:induction false} CountUpdate(ws: seq<Worker>, w: nat, x: Worker, f: Worker -> nat)
    requires w < |ws|
    ensures Count(ws[w := x], f) == Count(ws, f) - f(ws[w]) + f(x)
    ensures Count(ws, f) >= f(ws[w])
  {
    if w > 0 {
      assert ws[w := x][1..] == ws[1..][w - 1 := x];
      CountUpdate(ws[1..], w - 1, x, f);
    } else {
      assert ws[w := x][1..] == ws[1..];
    }
  }

  lemma {:induction false} CountAppend(ws: seq<Worker>, x: Worker, f: Worker -> nat)
    ensures Count(ws + [x], f) == Count(ws, f) + f(x)
  {
    if ws == [] {
      assert ([x] + [])[1..] == [] && ws + [x] == [x];
    } else {
      assert (ws + [x])[1..] == ws[1..] + [x];
      CountAppend(ws[1..], x, f);
    }
  }

  /** A positive count has a witness, and a counted worker makes the count positive. */
  lemma {:induction false} CountWitness(ws: seq<Worker>, f: Worker -> nat)
    ensures Count(ws, f) > 0 <==> exists w: nat | w < |ws| :: f(ws[w]) > 0
  {
    if ws != [] {
      CountWitness(ws[1..], f);
      if Count(ws[1..], f) > 0 {
        var w: nat :| w < |ws[1..]| && f(ws[1..][w]) > 0;
        assert f(ws[w + 1]) > 0;
      }
      if w: nat :| w < |ws| && f(ws[w]) > 0 {
        assert w > 0 ==> f(ws[1..][w - 1]) > 0;
      }
    }
  }

  lemma {:induction false} CountBound(ws: seq<Worker>)
    ensures Count(ws, AsleepOne) + Count(ws, NotifiedOne) <= |ws|
  {
    if ws != [] {
      CountBound(ws[1..]);
    }
  }

  lemma {:induction false} CountWakeAll(ws: seq<Worker>)
    ensures Count(WakeAll(ws), AsleepOne) == 0
    ensures Count(WakeAll(ws), NotifiedOne) == Count(ws, AsleepOne) + Count(ws, NotifiedOne)
  {
    if ws != [] {
      assert WakeAll(ws)[1..] == WakeAll(ws[1..]);
      CountWakeAll(ws[1..]);
    }
  }

  // ---------------------------------------------------------------- the invariant

  /** `_waiting` is exact and, with `_working`, sums to zero modulo 256. */
  ghost predicate CountersExact(s: State) {
    && |s.workers| <= s.nthreads <= 255
    && s.waiting == Count(s.workers, AsleepOne) + Count(s.workers, NotifiedOne)
    && s.working == if s.waiting == 0 then 0 else 256 - s.waiting
  }

  /** With W asleep, N notified but not yet relocked and q queued: W > 0 ==> N >= q. */
  ghost predicate NobodyForgotten(s: State) {
    && (Count(s.workers, AsleepOne) > 0 ==> Count(s.workers, NotifiedOne) >= |s.queue|)
    && (!s.running ==> Count(s.workers, AsleepOne) == 0)
    && (s.running ==> forall w | 0 <= w < |s.workers| :: !s.workers[w].Exited?)
    && (s.nthreads > 0 && s.put != [] ==> s.workers != [])
  }

  predicate Done(s: State, ticket: nat) {
    exists i | 0 <= i < |s.done| :: s.done[i].ticket == ticket
  }

  predicate Executing(s: State, ticket: nat) {
    && ticket < |s.takers|
    && s.takers[ticket] < |s.workers|
    && s.workers[s.takers[ticket]].Running?
    && s.workers[s.takers[ticket]].job.ticket == ticket
  }

  /** FIFO and exactly once: the queue is the part of `put` not yet taken; every taken task is
      with its one taker or has finished, never both; nothing finishes twice. */
  ghost predicate ExactlyOnce(s: State) {
    && |s.takers| <= |s.put|
    && s.queue == s.put[|s.takers|..]
    && (forall k: nat | k < |s.takers| :: Done(s, k) != Executing(s, k))
    && (forall w | 0 <= w < |s.workers| && s.workers[w].Running? :: JobOf(s, s.workers[w].job) && s.takers[s.workers[w].job.ticket] == w)
    && (forall i | 0 <= i < |s.done| :: JobOf(s, s.done[i]))
    && (forall i, j | 0 <= i < j < |s.done| :: s.done[i].ticket != s.done[j].ticket)
  }

  predicate JobOf(s: State, job: Job) {
    job.ticket < |s.takers| <= |s.put| && job.task == s.put[job.ticket]
  }

  ghost predicate Inv(s: State) {
    CountersExact(s) && NobodyForgotten(s) && ExactlyOnce(s)
  }

  lemma InitInv(nthreads: nat)
    requires nthreads <= 255
    ensures Inv(Init(nthreads))
  {
  }

  /** What moving one worker does to the two counts. */
  lemma Moved(s: State, w: nat, x: Worker)
    requires w < |s.workers|
    ensures var ws := s.workers[w := x];
      && Count(ws, AsleepOne) == Count(s.workers, AsleepOne) - AsleepOne(s.workers[w]) + AsleepOne(x)
      && Count(ws, NotifiedOne) == Count(s.workers, NotifiedOne) - NotifiedOne(s.workers[w]) + NotifiedOne(x)
      && Count(ws, AsleepOne) + Count(ws, NotifiedOne) <= |ws|
      && Count(s.workers, NotifiedOne) >= NotifiedOne(s.workers[w])
  {
    CountUpdate(s.workers, w, x, AsleepOne);
    CountUpdate(s.workers, w, x, NotifiedOne);
    CountBound(s.workers[w := x]);
  }

  lemma AsleepCounted(ws: seq<Worker>)
    ensures AnyAsleep(ws) <==> Count(ws, AsleepOne) > 0
  {
  }

  lemma PutKeepsCounts(s: State, task: Task, wake: nat)
    requires Inv(s) && Enabled(s, Put(task, wake))
    ensures CountersExact(PutStep(s, task, wake)) && NobodyForgotten(PutStep(s, task, wake))
  {
    CountAppend(s.workers, AtCheck, AsleepOne);
    CountAppend(s.workers, AtCheck, NotifiedOne);
    AsleepCounted(s.workers);
    var spawned := if s.waiting == 0 && |s.workers| < s.nthreads then s.workers + [AtCheck] else s.workers;
    if IsAsleep(spawned, wake) {
      Moved(s.(workers := spawned), wake, Notified);
    }
  }

  /** What `put` does to the threads, told by where they stand and not by the counters: if somebody is
      asleep, exactly the sleeper named is notified; otherwise, while nobody is on the way back from
      `wait` and there is room, a thread is started; otherwise nothing. */
  lemma PutWakesOrSpawns(s: State, task: Task, wake: nat)
    requires Inv(s) && Enabled(s, Put(task, wake))
    ensures var ws := PutStep(s, task, wake).workers;
      if AnyAsleep(s.workers) then wake < |s.workers| && s.workers[wake].Asleep? && ws == s.workers[wake := Notified]
      else if |s.workers| < s.nthreads && forall w | 0 <= w < |s.workers| :: !s.workers[w].Notified?
        then ws == s.workers + [AtCheck]
      else ws == s.workers
  {
    AsleepCounted(s.workers);
    CountWitness(s.workers, NotifiedOne);
    if w: nat :| w < |s.workers| && s.workers[w].Notified? {
      assert NotifiedOne(s.workers[w]) > 0;
    }
  }

  lemma LockKeepsCounts(s: State, w: nat)
    requires Inv(s) && Enabled(s, Lock(w))
    ensures CountersExact(LockStep(s, w)) && NobodyForgotten(LockStep(s, w))
  {
    var x := LockStep(s, w).workers[w];
    assert LockStep(s, w).workers == s.workers[w := x];
    Moved(s, w, x);
    CountBound(s.workers);
  }

  lemma StepKeepsCounts(s: State, e: Event)
    requires Inv(s) && Enabled(s, e)
    ensures CountersExact(Apply(s, e)) && NobodyForgotten(Apply(s, e))
  {
    match e
    case Put(task, wake) => PutKeepsCounts(s, task, wake);
    case Stop => CountWakeAll(s.workers);
    case Spurious(w) => Moved(s, w, Notified);
    case Check(w) => Moved(s, w, Apply(s, e).workers[w]);
    case Lock(w) => LockKeepsCounts(s, w);
    case Finish(w) => Moved(s, w, AtCheck);
  }

  /** Steps that neither take nor finish a task: who runs what is unchanged. */
  lemma IdleStepKeepsOnce(s: State, t: State)
    requires ExactlyOnce(s)
    requires t.takers == s.takers && t.done == s.done
    requires s.put <= t.put && t.queue == s.queue + t.put[|s.put|..]
    requires |s.workers| <= |t.workers|
    requires forall w | 0 <= w < |s.workers| && (s.workers[w].Running? || t.workers[w].Running?) :: t.workers[w] == s.workers[w]
    requires forall w | |s.workers| <= w < |t.workers| :: !t.workers[w].Running?
    ensures ExactlyOnce(t)
  {
    forall k: nat | k < |t.takers| ensures Done(t, k) != Executing(t, k) {
      assert Done(s, k) == Done(t, k);
      assert Executing(s, k) == Executing(t, k);
    }
  }

  lemma TakeKeepsOnce(s: State, w: nat)
    requires ExactlyOnce(s) && Enabled(s, Lock(w)) && s.queue != []
    requires s.running || s.workers[w].Heading?
    ensures ExactlyOnce(LockStep(s, w))
  {
    var t := LockStep(s, w);
    assert t.put[|t.takers|..] == t.queue;
    forall k: nat | k < |t.takers| ensures Done(t, k) != Executing(t, k) {
      assert Done(s, k) == Done(t, k);
      if k < |s.takers| {
        assert Executing(s, k) == Executing(t, k);
      }
    }
  }

  lemma FinishKeepsOnce(s: State, w: nat)
    requires ExactlyOnce(s) && Enabled(s, Finish(w))
    ensures ExactlyOnce(Apply(s, Finish(w)))
  {
    var t := Apply(s, Finish(w));
    var job := s.workers[w].job;
    assert Executing(s, job.ticket);
    assert t.done[|s.done|] == job;
    forall k: nat | k < |t.takers| ensures Done(t, k) != Executing(t, k) {
      assert forall i | 0 <= i < |s.done| :: t.done[i] == s.done[i];
      assert Done(t, k) == (Done(s, k) || k == job.ticket);
      assert Executing(t, k) == (Executing(s, k) && k != job.ticket);
    }
    forall i, j | 0 <= i < j < |t.done| ensures t.done[i].ticket != t.done[j].ticket {
      assert !Done(s, job.ticket);
    }
  }

  lemma StepKeepsOnce(s: State, e: Event)
    requires Inv(s) && Enabled(s, e)
    ensures ExactlyOnce(Apply(s, e))
  {
    match e
    case Finish(w) => FinishKeepsOnce(s, w);
    case Lock(w) =>
      if s.queue != [] && (s.running || s.workers[w].Heading?) {
        TakeKeepsOnce(s, w);
      } else {
        IdleStepKeepsOnce(s, Apply(s, e));
      }
    case _ => IdleStepKeepsOnce(s, Apply(s, e));
  }

  lemma StepKeepsInv(s: State, e: Event)
    requires Inv(s) && Enabled(s, e)
    ensures Inv(Apply(s, e))
  {
    StepKeepsCounts(s, e);
    StepKeepsOnce(s, e);
  }

  lemma {:induction false} RunKeepsInv(s: State, es: seq<Event>)
    requires Inv(s) && Legal(s, es)
    ensures Inv(Run(s, es))
    decreases |es|
  {
    if es != [] {
      StepKeepsInv(s, es[0]);
      RunKeepsInv(Apply(s, es[0]), es[1..]);
    }
  }

  // ---------------------------------------------------------------- main results

  /** No lost wakeup: in every reachable running state with work queued, some worker is neither
      asleep nor gone, and can take its next step without any further notification. */
  lemma NoLostWakeup(nthreads: nat, es: seq<Event>) returns (e: Event)
    requires 0 < nthreads <= 255 && Legal(Init(nthreads), es)
    requires var s := Run(Init(nthreads), es); s.running && s.queue != []
    ensures var s := Run(Init(nthreads), es);
      && e.ByWorker() && Enabled(s, e)
      && (AnyAsleep(s.workers) ==> Count(s.workers, NotifiedOne) >= |s.queue|)
  {
    InitInv(nthreads);
    RunNthreads(Init(nthreads), es);
    RunKeepsInv(Init(nthreads), es);
    e := SomeoneCanMove(Run(Init(nthreads), es));
  }

  lemma SomeoneCanMove(s: State) returns (e: Event)
    requires Inv(s) && s.running && s.queue != [] && s.nthreads > 0
    ensures e.ByWorker() && Enabled(s, e)
    ensures AnyAsleep(s.workers) ==> Count(s.workers, NotifiedOne) >= |s.queue|
  {
    AsleepCounted(s.workers);
    CountWitness(s.workers, NotifiedOne);
    if AnyAsleep(s.workers) {
      var w: nat :| w < |s.workers| && NotifiedOne(s.workers[w]) > 0;
      e := Lock(w);
    } else {
      match s.workers[0]
      case AtCheck => e := Check(0);
      case Heading => e := Lock(0);
      case Notified => e := Lock(0);
      case Running(_) => e := Finish(0);
      case _ => assert false;
    }
  }

  /** A sleeper that wakes up for nothing goes back to sleep, and the pool is as it was. */
  lemma SpuriousWakeupIsHarmless(s: State, w: nat)
    requires Inv(s) && s.running && s.queue == [] && IsAsleep(s.workers, w)
    ensures Legal(s, [Spurious(w), Lock(w)]) && Run(s, [Spurious(w), Lock(w)]) == s
  {
    CountUpdate(s.workers, w, Notified, AsleepOne);
    CountBound(s.workers);
    var s1 := Apply(s, Spurious(w));
    assert s1.workers[w := Asleep] == s.workers;
    assert Apply(s1, Lock(w)) == s;
    assert [Spurious(w), Lock(w)][1..] == [Lock(w)] && [Lock(w)][1..] == [];
    assert Legal(s, []) && Legal(s1, [Lock(w)]);
    assert Run(s1, [Lock(w)]) == Run(s, []) == s;
  }

  /** Steps still possible without outside help: three for each queued task, plus what is left
      of each worker's current round. */
  function Effort(w: Worker): nat {
    match w
    case Running(_) => 3
    case AtCheck => 2
    case Heading => 1
    case Notified => 1
    case _ => 0
  }

  function Measure(s: State): nat {
    3 * |s.queue| + Count(s.workers, Effort)
  }

  lemma WorkerStepCosts(s: State, e: Event)
    requires s.running && Enabled(s, e) && e.ByWorker()
    ensures Measure(Apply(s, e)) < Measure(s)
    ensures Apply(s, e).running == s.running && Apply(s, e).put == s.put && Apply(s, e).nthreads == s.nthreads
  {
    CountUpdate(s.workers, e.w, Apply(s, e).workers[e.w], Effort);
  }

  /** Left to themselves the workers make at most `Measure` further steps. */
  lemma {:induction false} QuietRunIsBounded(s: State, quiet: seq<Event>)
    requires s.running && Legal(s, quiet) && forall i | 0 <= i < |quiet| :: quiet[i].ByWorker()
    ensures |quiet| + Measure(Run(s, quiet)) <= Measure(s)
    ensures Run(s, quiet).running == s.running && Run(s, quiet).put == s.put && Run(s, quiet).nthreads == s.nthreads
    decreases |quiet|
  {
    if quiet != [] {
      WorkerStepCosts(s, quiet[0]);
      QuietRunIsBounded(Apply(s, quiet[0]), quiet[1..]);
    }
  }

  ghost predicate Stuck(s: State) {
    forall e: Event :: e.ByWorker() ==> !Enabled(s, e)
  }

  /** The finished jobs are exactly the tasks of `tasks`, each under its own number and once. */
  ghost predicate AllExecuted(done: seq<Job>, tasks: seq<Task>) {
    && (forall k: nat | k < |tasks| :: Job(k, tasks[k]) in done)
    && (forall i, j | 0 <= i < j < |done| :: done[i].ticket != done[j].ticket)
    && (forall i | 0 <= i < |done| :: done[i].ticket < |tasks| && done[i].task == tasks[done[i].ticket])
  }

  /** Once nobody is running a task, all tasks have been executed exactly when none is queued. */
  lemma IdleMeansExecuted(s: State)
    requires Inv(s) && forall w | 0 <= w < |s.workers| :: !s.workers[w].Running?
    ensures AllExecuted(s.done, s.put) <==> s.queue == []
  {
    if s.queue == [] {
      forall k: nat | k < |s.put| ensures Job(k, s.put[k]) in s.done {
        assert !Executing(s, k) && Done(s, k) != Executing(s, k);
        var i :| 0 <= i < |s.done| && s.done[i].ticket == k;
        assert JobOf(s, s.done[i]) && s.done[i] == Job(k, s.put[k]);
      }
    } else {
      var k := |s.takers|;
      assert Job(k, s.put[k]) !in s.done;
    }
  }

  lemma StuckMeansExecuted(s: State)
    requires Inv(s) && s.running && s.nthreads > 0 && Stuck(s)
    ensures s.queue == [] && AllExecuted(s.done, s.put)
  {
    if s.queue != [] {
      var e := SomeoneCanMove(s);
      assert false;
    }
    forall w: nat | w < |s.workers| ensures !s.workers[w].Running? {
      assert Finish(w).ByWorker();
    }
    IdleMeansExecuted(s);
  }

  /** Every put task is executed: whatever happened before, once there is no further `put`, no
      `stop` and no spurious wakeup, the run ends within a bound fixed at that point, and when no
      worker can move any more the queue is empty and each task given to `put` has been executed once,
      by a call that returned. */
  lemma EveryTaskIsExecuted(nthreads: nat, es: seq<Event>, quiet: seq<Event>)
    requires 0 < nthreads <= 255 && Legal(Init(nthreads), es)
    requires var s := Run(Init(nthreads), es); s.running && Legal(s, quiet)
    requires forall i | 0 <= i < |quiet| :: quiet[i].ByWorker()
    ensures var s := Run(Init(nthreads), es); var t := Run(s, quiet);
      && |quiet| <= Measure(s)
      && (Stuck(t) ==> t.queue == [] && AllExecuted(t.done, Tasks(es)) && |t.done| == Returns(es) + Returns(quiet))
  {
    var s := Run(Init(nthreads), es);
    InitInv(nthreads);
    RunKeepsInv(Init(nthreads), es);
    RunKeepsInv(s, quiet);
    QuietRunIsBounded(s, quiet);
    RunNthreads(Init(nthreads), es);
    PutIsTasks(nthreads, es);
    HistoryIsRun(s, quiet);
    if Stuck(Run(s, quiet)) {
      StuckMeansExecuted(Run(s, quiet));
    }
  }

  lemma {:induction false} RunNthreads(s: State, es: seq<Event>)
    requires Legal(s, es)
    ensures Run(s, es).nthreads == s.nthreads
    decreases |es|
  {
    if es != [] {
      RunNthreads(Apply(s, es[0]), es[1..]);
    }
  }

  // ---------------------------------------------------------------- shutdown

  /** Steps a worker can still make once `_running` is false. */
  function Farewell(w: Worker): nat {
    match w
    case Heading => 3
    case Running(_) => 2
    case Notified => 2
    case AtCheck => 1
    case _ => 0
  }

  lemma FarewellStep(s: State, e: Event)
    requires Inv(s) && !s.running && Enabled(s, e) && !e.Put? && !e.Stop?
    ensures e.ByWorker() && !Apply(s, e).running
    ensures Count(Apply(s, e).workers, Farewell) < Count(s.workers, Farewell)
    ensures |Apply(s, e).workers| == |s.workers|
  {
    AsleepCounted(s.workers);
    assert !e.Spurious?;
    CountUpdate(s.workers, e.w, Apply(s, e).workers[e.w], Farewell);
  }

  /** After `stop`, with no later `put`: nobody ever sleeps again; the run has at most three steps
      per worker; every task taken from here on goes to a worker that was already past the loop
      check when `stop` happened, at most one to each; and when no worker can move, every worker
      has left its loop, so every join returns. */
  lemma {:induction false} Shutdown(s: State, es: seq<Event>)
    requires Inv(s) && !s.running && Legal(s, es)
    requires forall i | 0 <= i < |es| :: !es[i].Put? && !es[i].Stop?
    ensures var t := Run(s, es);
      && !AnyAsleep(t.workers) && |t.workers| == |s.workers|
      && |es| <= Count(s.workers, Farewell)
      && s.takers <= t.takers
      && (forall k | |s.takers| <= k < |t.takers| :: t.takers[k] < |s.workers| && s.workers[t.takers[k]].Heading?)
      && (forall j, k | |s.takers| <= j < k < |t.takers| :: t.takers[j] != t.takers[k])
      && (Stuck(t) ==> forall w | 0 <= w < |t.workers| :: t.workers[w].Exited?)
    decreases |es|
  {
    AsleepCounted(s.workers);
    if es == [] {
      if Stuck(s) {
        forall w: nat | w < |s.workers| ensures s.workers[w].Exited? {
          assert !Enabled(s, Check(w)) && !Enabled(s, Lock(w)) && !Enabled(s, Finish(w));
        }
      }
    } else {
      var s1 := Apply(s, es[0]);
      FarewellStep(s, es[0]);
      StepKeepsInv(s, es[0]);
      Shutdown(s1, es[1..]);
      forall w | 0 <= w < |s.workers| && s1.workers[w].Heading? ensures s.workers[w].Heading? {
      }
    }
  }

  /** After `stop` the queue shrinks by one task for each worker then on its way to the lock. */
  lemma {:induction false} TasksStillTaken(s: State, es: seq<Event>)
    requires Inv(s) && !s.running && Legal(s, es) && Stuck(Run(s, es))
    requires forall i | 0 <= i < |es| :: !es[i].Put? && !es[i].Stop?
    ensures var heading := Count(s.workers, HeadingOne);
      |Run(s, es).queue| == if heading <= |s.queue| then |s.queue| - heading else 0
    ensures Run(s, es).put == s.put && Inv(Run(s, es))
    decreases |es|
  {
    if es == [] {
      CountWitness(s.workers, HeadingOne);
      forall w: nat | w < |s.workers| ensures HeadingOne(s.workers[w]) == 0 {
        assert !Enabled(s, Lock(w));
      }
    } else {
      FarewellStep(s, es[0]);
      StepKeepsInv(s, es[0]);
      CountUpdate(s.workers, es[0].w, Apply(s, es[0]).workers[es[0].w], HeadingOne);
      TasksStillTaken(Apply(s, es[0]), es[1..]);
    }
  }

  lemma StopLeavesIff(s: State, es: seq<Event>)
    requires Inv(s) && !s.running && Legal(s, es) && Stuck(Run(s, es))
    requires forall i | 0 <= i < |es| :: !es[i].Put? && !es[i].Stop?
    ensures AllExecuted(Run(s, es).done, s.put) <==> |s.queue| <= Count(s.workers, HeadingOne)
  {
    TasksStillTaken(s, es);
    Shutdown(s, es);
    IdleMeansExecuted(Run(s, es));
  }

  /** What `stop` leaves undone: whatever happened before, when every worker has left its loop after
      `stop`, all tasks ever given to `put` have been executed if and only if, at the `stop`, no more
      were queued than workers were on their way to the lock. */
  lemma StopExecutesAllIff(nthreads: nat, es: seq<Event>, rest: seq<Event>)
    requires nthreads <= 255 && Legal(Init(nthreads), es)
    requires var s := Run(Init(nthreads), es); !s.running && Legal(s, rest) && Stuck(Run(s, rest))
    requires forall i | 0 <= i < |rest| :: !rest[i].Put? && !rest[i].Stop?
    ensures var s := Run(Init(nthreads), es);
      AllExecuted(Run(s, rest).done, Tasks(es)) <==> |s.queue| <= Count(s.workers, HeadingOne)
  {
    InitInv(nthreads);
    RunKeepsInv(Init(nthreads), es);
    PutIsTasks(nthreads, es);
    StopLeavesIff(Run(Init(nthreads), es), rest);
  }

  /** `stop` does not drain the queue: a task put before `stop` may never run. */
  lemma StopCanStrandATask(task: Task)
    ensures var es := [Put(task, 0), Stop, Check(0)];
      && Legal(Init(1), es)
      && Stuck(Run(Init(1), es))
      && Run(Init(1), es).queue == [task] && Run(Init(1), es).done == []
  {
    var s0 := Init(1);
    var s1 := Apply(s0, Put(task, 0));
    assert s1.workers == [AtCheck];
    var s2 := Apply(s1, Stop);
    assert s2.workers == [AtCheck];
    var s3 := Apply(s2, Check(0));
    assert s3.workers == [Exited];
    var es := [Put(task, 0), Stop, Check(0)];
    assert es[1..] == [Stop, Check(0)] && es[1..][1..] == [Check(0)] && es[1..][1..][1..] == [];
    assert Legal(s3, []) && Legal(s2, [Check(0)]) && Legal(s1, [Stop, Check(0)]);
    assert Run(s0, es) == Run(s1, es[1..]) == Run(s2, [Check(0)]) == s3;
  }

  // ---------------------------------------------------------------- the object

  /** How `_take` gives up the lock: with a task, with NULL, or by going to sleep. */
  datatype Taken = Got(task: Task) | Null | Slept

  /** The pool object. Each method is one critical section (or the one unlocked read) of the
      original and is proved to be the corresponding event. */
  class Pool {
    const nthreads: nat
    var running: bool
    var queue: seq<Task>
    var waiting: nat
    var working: nat
    var threads: seq<Worker>
    // history of the run, not fields of the original
    var put: seq<Task>
    var takers: seq<nat>
    var done: seq<Job>

    ghost function View(): State
      reads this
    {
      State(nthreads, running, queue, waiting, working, threads, put, takers, done)
    }

    constructor (nthreads: nat)
      ensures View() == Init(nthreads)
    {
      this.nthreads := nthreads;
      running, queue, waiting, working, threads := true, [], 0, 0, [];
      put, takers, done := [], [], [];
    }

    method Put(task: Task) returns (wake: nat)
      modifies this
      ensures Enabled(old(View()), Event.Put(task, wake))
      ensures View() == Apply(old(View()), Event.Put(task, wake))
    {
      queue := queue + [task];
      put := put + [task];
      wake := |threads|;
      if w: nat :| w < |threads| && threads[w].Asleep? {
        wake := w;
      }
      if waiting == 0 && |threads| < nthreads {
        threads := threads + [AtCheck];
      }
      if wake < |threads| && threads[wake].Asleep? {
        threads := threads[wake := Notified];
      }
    }

    method Stop()
      modifies this
      ensures View() == Apply(old(View()), Event.Stop)
    {
      running := false;
      threads := WakeAll(threads);
    }

    method CheckRunning(w: nat)
      requires Enabled(View(), Check(w))
      modifies this
      ensures View() == Apply(old(View()), Check(w))
    {
      threads := threads[w := if running then Heading else Exited];
    }

    method Take(w: nat) returns (r: Taken)
      requires Enabled(View(), Lock(w))
      modifies this
      ensures View() == Apply(old(View()), Lock(w))
      ensures r == match threads[w] { case Running(job) => Got(job.task) case Asleep => Slept case _ => Null }
    {
      if threads[w].Notified? {
        working := Inc8(working);
        waiting := Dec8(waiting);
        if !running {
          threads := threads[w := AtCheck];
          return Null;
        }
      }
      if |queue| == 0 {
        if !running {
          threads := threads[w := AtCheck];
          return Null;
        }
        waiting := Inc8(waiting);
        working := Dec8(working);
        threads := threads[w := Asleep];
        return Slept;
      }
      r := Got(queue[0]);
      threads := threads[w := Running(Job(|takers|, queue[0]))];
      queue := queue[1..];
      takers := takers + [w];
    }

    method TaskReturns(w: nat)
      requires Enabled(View(), Finish(w))
      modifies this
      ensures View() == Apply(old(View()), Finish(w))
    {
      done := done + [threads[w].job];
      threads := threads[w := AtCheck];
    }
  }
}
