/**
 The thread pool of libel/base/threadpool.cpp: a Mesa monitor with two condition variables. A step
 is one critical section, one read of `running_` outside the lock, or one piece of a task; a
 signalled thread has to win the lock again, and may be overtaken or woken for nothing.
 */
module ThreadPools {
  import opened Sequences

  type Task = nat

  /** `Holding(k)`: has taken the `k`-th task to leave the queue and not started it. */
  datatype Worker =
    | Checking        // about to read running_ at the top of its loop
    | Entering        // about to lock in take()
    | Asleep          // waiting on notEmpty_
    | Woken           // signalled, about to lock again
    | Holding(k: nat)
    | EmptyHanded     // take() returned no task
    | Busy            // running a task
    | Exited

  datatype Producer =
    | Away
    | Ready(task: Task)     // about to lock in run()
    | Waiting(task: Task)   // waiting on notFull_
    | Signalled(task: Task) // signalled, about to lock again

  datatype Pool = Pool(
    maxSize: nat,
    running: bool,
    queue: seq<Task>,
    workers: seq<Worker>,
    producers: seq<Producer>,
    pushed: seq<Task>,
    popped: seq<Task>,
    started: set<nat>)

  /** Right after `start(numThreads)`, with `clients` threads that may call `run`. */
  function Started(maxSize: nat, numThreads: nat, clients: nat): Pool {
    Pool(maxSize, true, [], seq(numThreads, _ => Checking), seq(clients, _ => Away), [], [], {})
  }

  datatype Event =
    | Check(t: nat)                  // while (running_)
    | Take(t: nat, signal: nat)      // one critical section of take(); signals a waiting producer
    | Start(t: nat)
    | Skip(t: nat)
    | Finish(t: nat)
    | Call(p: nat, task: Task)       // run(task) is called
    | Put(p: nat, signal: nat)       // one critical section of run(); signals a sleeping worker
    | SpuriousWorker(t: nat)
    | SpuriousProducer(p: nat)
    | Stop

  predicate IsAsleep(w: Worker) { w.Asleep? }
  predicate IsWoken(w: Worker) { w.Woken? }
  predicate IsWaiting(p: Producer) { p.Waiting? }
  predicate IsSignalled(p: Producer) { p.Signalled? }

  predicate Full(s: Pool) {
    s.maxSize > 0 && |s.queue| >= s.maxSize
  }

  /** `notify` on a condition variable picks one waiter, if there is any. */
  predicate GoodSignal<T>(threads: seq<T>, waits: T -> bool, pick: nat) {
    (exists i :: 0 <= i < |threads| && waits(threads[i])) ==> pick < |threads| && waits(threads[pick])
  }

  function SignalWorker(ws: seq<Worker>, pick: nat): (r: seq<Worker>)
    ensures |r| == |ws|
  {
    if pick < |ws| && ws[pick] == Asleep then ws[pick := Woken] else ws
  }

  function SignalProducer(ps: seq<Producer>, pick: nat): (r: seq<Producer>)
    ensures |r| == |ps|
  {
    if pick < |ps| && ps[pick].Waiting? then ps[pick := Signalled(ps[pick].task)] else ps
  }

  function WakeWorkers(ws: seq<Worker>): (r: seq<Worker>)
    ensures |r| == |ws|
    ensures forall i :: 0 <= i < |ws| ==> r[i] == if ws[i] == Asleep then Woken else ws[i]
  {
    seq(|ws|, i requires 0 <= i < |ws| => if ws[i] == Asleep then Woken else ws[i])
  }

  function WakeProducers(ps: seq<Producer>): (r: seq<Producer>)
    ensures |r| == |ps|
    ensures forall i :: 0 <= i < |ps| ==> r[i] == if ps[i].Waiting? then Signalled(ps[i].task) else ps[i]
  {
    seq(|ps|, i requires 0 <= i < |ps| => if ps[i].Waiting? then Signalled(ps[i].task) else ps[i])
  }

  predicate Enabled(s: Pool, ev: Event) {
    match ev
    case Check(t) => t < |s.workers| && s.workers[t] == Checking
    case Take(t, signal) =>
      t < |s.workers| && (s.workers[t] == Entering || s.workers[t] == Woken)
      && GoodSignal(s.producers, IsWaiting, signal)
    case Start(t) => t < |s.workers| && s.workers[t].Holding?
    case Skip(t) => t < |s.workers| && s.workers[t] == EmptyHanded
    case Finish(t) => t < |s.workers| && s.workers[t] == Busy
    case Call(p, _) => p < |s.producers| && s.producers[p] == Away
    case Put(p, signal) =>
      p < |s.producers| && (s.producers[p].Ready? || s.producers[p].Signalled?)
      && GoodSignal(s.workers, IsAsleep, signal)
    case SpuriousWorker(t) => t < |s.workers| && s.workers[t] == Asleep
    case SpuriousProducer(p) => p < |s.producers| && s.producers[p].Waiting?
    case Stop => true
  }

  function Took(s: Pool, t: nat, signal: nat): Pool
    requires t < |s.workers|
  {
    if s.queue == [] then
      s.(workers := s.workers[t := if s.running then Asleep else EmptyHanded])
    else
      s.(workers := s.workers[t := Holding(|s.popped|)],
         queue := s.queue[1..],
         popped := s.popped + [s.queue[0]],
         producers := if s.maxSize > 0 then SignalProducer(s.producers, signal) else s.producers)
  }

  function DidPut(s: Pool, p: nat, signal: nat): Pool
    requires p < |s.producers| && s.producers[p] != Away
  {
    var task := s.producers[p].task;
    if Full(s) && s.running then s.(producers := s.producers[p := Waiting(task)])
    else if !s.running then s.(producers := s.producers[p := Away])
    else
      s.(producers := s.producers[p := Away],
         queue := s.queue + [task],
         pushed := s.pushed + [task],
         workers := SignalWorker(s.workers, signal))
  }

  function Step(s: Pool, ev: Event): Pool
    requires Enabled(s, ev)
  {
    match ev
    case Check(t) => s.(workers := s.workers[t := if s.running then Entering else Exited])
    case Take(t, signal) => Took(s, t, signal)
    case Start(t) => s.(workers := s.workers[t := Busy], started := s.started + {s.workers[t].k})
    case Skip(t) => s.(workers := s.workers[t := Checking])
    case Finish(t) => s.(workers := s.workers[t := Checking])
    case Call(p, task) => s.(producers := s.producers[p := Ready(task)])
    case Put(p, signal) => DidPut(s, p, signal)
    case SpuriousWorker(t) => s.(workers := s.workers[t := Woken])
    case SpuriousProducer(p) => s.(producers := s.producers[p := Signalled(s.producers[p].task)])
    case Stop =>
      s.(running := false, workers := WakeWorkers(s.workers), producers := WakeProducers(s.producers))
  }

  /** An event that cannot happen is passed over. */
  function Next(s: Pool, ev: Event): Pool {
    if Enabled(s, ev) then Step(s, ev) else s
  }

  function Run(s: Pool, evs: seq<Event>): Pool
    decreases |evs|
  {
    if evs == [] then s else Run(Next(s, evs[0]), evs[1..])
  }

  // ---------- Counting threads ----------

  function Count<T>(threads: seq<T>, p: T -> bool): nat {
    if threads == [] then 0 else Count(threads[..|threads| - 1], p) + if p(threads[|threads| - 1]) then 1 else 0
  }

  function One(b: bool): nat { if b then 1 else 0 }

  lemma {:induction false} CountUpdate<T>(threads: seq<T>, p: T -> bool, i: nat, x: T)
    requires i < |threads|
    ensures Count(threads[i := x], p) == Count(threads, p) - One(p(threads[i])) + One(p(x))
  {
    var n, after := |threads| - 1, threads[i := x];
    if i == n {
      assert after[..n] == threads[..n];
    } else {
      assert after[..n] == threads[..n][i := x];
      CountUpdate(threads[..n], p, i, x);
    }
  }

  lemma {:induction false} CountZero<T>(threads: seq<T>, p: T -> bool)
    ensures Count(threads, p) == 0 <==> forall i :: 0 <= i < |threads| ==> !p(threads[i])
  {
    if threads == [] {
    } else {
      var n := |threads| - 1;
      CountZero(threads[..n], p);
      assert forall i :: 0 <= i < n ==> threads[..n][i] == threads[i];
    }
  }

  // ---------- What every run keeps ----------

  ghost predicate Bounded(s: Pool) {
    s.maxSize > 0 ==> |s.queue| <= s.maxSize
  }

  /** While running: if a worker sleeps, every queued task has a signalled worker of its own. */
  ghost predicate WorkersCovered(s: Pool) {
    s.running && Count(s.workers, IsAsleep) > 0 ==> |s.queue| <= Count(s.workers, IsWoken)
  }

  /** While running: if a producer waits, every free slot has a signalled producer of its own. */
  ghost predicate ProducersCovered(s: Pool) {
    s.running && Count(s.producers, IsWaiting) > 0 ==>
      s.maxSize > 0 && s.maxSize - |s.queue| <= Count(s.producers, IsSignalled)
  }

  ghost predicate NobodySleeps(s: Pool) {
    Count(s.workers, IsAsleep) == 0 && Count(s.producers, IsWaiting) == 0
  }

  ghost predicate Inv(s: Pool) {
    && Bounded(s) && WorkersCovered(s) && ProducersCovered(s)
    && (!s.running ==> NobodySleeps(s))
    && s.popped + s.queue == s.pushed
  }

  lemma WorkerMoves(s: Pool, t: nat, w: Worker)
    requires t < |s.workers|
    ensures var ws := s.workers[t := w];
            && Count(ws, IsAsleep) == Count(s.workers, IsAsleep) - One(s.workers[t].Asleep?) + One(w.Asleep?)
            && Count(ws, IsWoken) == Count(s.workers, IsWoken) - One(s.workers[t].Woken?) + One(w.Woken?)
  {
    CountUpdate(s.workers, IsAsleep, t, w);
    CountUpdate(s.workers, IsWoken, t, w);
  }

  lemma ProducerMoves(s: Pool, p: nat, q: Producer)
    requires p < |s.producers|
    ensures var ps := s.producers[p := q];
            && Count(ps, IsWaiting) == Count(s.producers, IsWaiting) - One(s.producers[p].Waiting?) + One(q.Waiting?)
            && Count(ps, IsSignalled) ==
               Count(s.producers, IsSignalled) - One(s.producers[p].Signalled?) + One(q.Signalled?)
  {
    CountUpdate(s.producers, IsWaiting, p, q);
    CountUpdate(s.producers, IsSignalled, p, q);
  }

  lemma SignalledWorker(s: Pool, pick: nat)
    requires GoodSignal(s.workers, IsAsleep, pick)
    ensures var ws := SignalWorker(s.workers, pick);
            var k := One(Count(s.workers, IsAsleep) > 0);
            && Count(ws, IsAsleep) == Count(s.workers, IsAsleep) - k
            && Count(ws, IsWoken) == Count(s.workers, IsWoken) + k
  {
    CountZero(s.workers, IsAsleep);
    if pick < |s.workers| && s.workers[pick] == Asleep {
      WorkerMoves(s, pick, Woken);
    }
  }

  lemma SignalledProducer(s: Pool, pick: nat)
    requires GoodSignal(s.producers, IsWaiting, pick)
    ensures var ps := SignalProducer(s.producers, pick);
            var k := One(Count(s.producers, IsWaiting) > 0);
            && Count(ps, IsWaiting) == Count(s.producers, IsWaiting) - k
            && Count(ps, IsSignalled) == Count(s.producers, IsSignalled) + k
  {
    CountZero(s.producers, IsWaiting);
    if pick < |s.producers| && s.producers[pick].Waiting? {
      ProducerMoves(s, pick, Signalled(s.producers[pick].task));
    }
  }

  lemma TakeKeepsInv(s: Pool, t: nat, signal: nat)
    requires Inv(s) && Enabled(s, Take(t, signal))
    ensures Inv(Took(s, t, signal))
  {
    WorkerMoves(s, t, Took(s, t, signal).workers[t]);
    SignalledProducer(s, signal);
    if s.queue != [] {
      assert (s.popped + [s.queue[0]]) + s.queue[1..] == s.popped + s.queue;
    }
  }

  lemma PutKeepsInv(s: Pool, p: nat, signal: nat)
    requires Inv(s) && Enabled(s, Put(p, signal))
    ensures Inv(DidPut(s, p, signal))
  {
    ProducerMoves(s, p, DidPut(s, p, signal).producers[p]);
    SignalledWorker(s, signal);
    assert s.popped + (s.queue + [s.producers[p].task]) == s.pushed + [s.producers[p].task];
  }

  lemma StepKeepsInv(s: Pool, ev: Event)
    requires Inv(s) && Enabled(s, ev)
    ensures Inv(Step(s, ev))
  {
    match ev {
      case Take(t, signal) => TakeKeepsInv(s, t, signal);
      case Put(p, signal) => PutKeepsInv(s, p, signal);
      case Stop =>
        CountZero(WakeWorkers(s.workers), IsAsleep);
        CountZero(WakeProducers(s.producers), IsWaiting);
      case Call(p, task) => ProducerMoves(s, p, Ready(task));
      case SpuriousProducer(p) => ProducerMoves(s, p, Signalled(s.producers[p].task));
      case _ => WorkerMoves(s, ev.t, Step(s, ev).workers[ev.t]);
    }
  }

  lemma {:induction false} RunKeepsInv(s: Pool, evs: seq<Event>)
    requires Inv(s)
    ensures Inv(Run(s, evs))
    decreases |evs|
  {
    if evs == [] {
    } else {
      if Enabled(s, evs[0]) {
        StepKeepsInv(s, evs[0]);
        RunKeepsInv(Step(s, evs[0]), evs[1..]);
      } else {
        RunKeepsInv(s, evs[1..]);
      }
    }
  }

  lemma StartedKeepsInv(maxSize: nat, numThreads: nat, clients: nat)
    ensures Inv(Started(maxSize, numThreads, clients))
  {
    var s := Started(maxSize, numThreads, clients);
    CountZero(s.workers, IsAsleep);
    CountZero(s.producers, IsWaiting);
  }

  lemma {:induction false} MaxSizeIsConstant(s: Pool, evs: seq<Event>)
    ensures Run(s, evs).maxSize == s.maxSize
    decreases |evs|
  {
    if evs == [] {
    } else {
      MaxSizeIsConstant(if Enabled(s, evs[0]) then Step(s, evs[0]) else s, evs[1..]);
    }
  }

  /**
   Every run of a pool: the queue respects its bound, tasks leave in the order they came, signals
   are never lost in either direction, and after `stop` nobody sleeps.
   */
  lemma PoolDiscipline(maxSize: nat, numThreads: nat, clients: nat, evs: seq<Event>)
    ensures var s := Run(Started(maxSize, numThreads, clients), evs);
            && (maxSize > 0 ==> |s.queue| <= maxSize)
            && s.popped + s.queue == s.pushed
            && WorkersCovered(s) && ProducersCovered(s)
            && (!s.running ==> NobodySleeps(s))
  {
    StartedKeepsInv(maxSize, numThreads, clients);
    RunKeepsInv(Started(maxSize, numThreads, clients), evs);
    MaxSizeIsConstant(Started(maxSize, numThreads, clients), evs);
  }

  /** No deadlock: with a task queued not all workers sleep, and with a free slot not all producers wait. */
  lemma SomebodyIsUp(s: Pool)
    requires Inv(s) && s.running
    ensures s.queue != [] && |s.workers| > 0 ==> exists t :: 0 <= t < |s.workers| && !s.workers[t].Asleep?
    ensures !Full(s) && |s.producers| > 0 ==> exists p :: 0 <= p < |s.producers| && !s.producers[p].Waiting?
  {
    CountZero(s.workers, IsAsleep);
    CountZero(s.workers, IsWoken);
    CountZero(s.producers, IsWaiting);
    CountZero(s.producers, IsSignalled);
    assert |s.workers| > 0 && s.workers[0].Asleep? ==> IsAsleep(s.workers[0]);
    assert |s.producers| > 0 && s.producers[0].Waiting? ==> IsWaiting(s.producers[0]);
  }

  // ---------- Every task that is handed in is queued, kept or given up ----------

  function TaskOf(p: Producer): multiset<Task> {
    if p == Away then multiset{} else multiset{p.task}
  }

  /** The tasks of threads that are in `run`. */
  function InHand(ps: seq<Producer>): multiset<Task> {
    if ps == [] then multiset{} else InHand(ps[..|ps| - 1]) + TaskOf(ps[|ps| - 1])
  }

  /** Where a task can be once `run` has been called with it and it was not given up. */
  function Kept(s: Pool): multiset<Task> {
    multiset(s.pushed) + InHand(s.producers)
  }

  lemma Exchange<T>(a: multiset<T>, b: multiset<T>, c: multiset<T>, d: multiset<T>, e: multiset<T>)
    requires a + b == c + d
    ensures (a + e) + b == (c + e) + d
  {
    assert (a + e) + b == (a + b) + e;
    assert (c + e) + d == (c + d) + e;
  }

  lemma {:induction false} InHandUpdate(ps: seq<Producer>, i: nat, q: Producer)
    requires i < |ps|
    ensures InHand(ps[i := q]) + TaskOf(ps[i]) == InHand(ps) + TaskOf(q)
  {
    var n, after := |ps| - 1, ps[i := q];
    if i == n {
      assert after[..n] == ps[..n];
      var init := InHand(ps[..n]);
      assert (init + TaskOf(q)) + TaskOf(ps[n]) == (init + TaskOf(ps[n])) + TaskOf(q);
    } else {
      assert after[..n] == ps[..n][i := q];
      InHandUpdate(ps[..n], i, q);
      Exchange(InHand(after[..n]), TaskOf(ps[i]), InHand(ps[..n]), TaskOf(q), TaskOf(ps[n]));
    }
  }

  lemma {:induction false} InHandSame(ps: seq<Producer>, qs: seq<Producer>)
    requires |ps| == |qs| && forall i :: 0 <= i < |ps| ==> TaskOf(ps[i]) == TaskOf(qs[i])
    ensures InHand(ps) == InHand(qs)
  {
    if ps == [] {
    } else {
      InHandSame(ps[..|ps| - 1], qs[..|qs| - 1]);
    }
  }

  /** The task that `run` is called with in this step. */
  function CalledIn(s: Pool, ev: Event): multiset<Task> {
    if ev.Call? && Enabled(s, ev) then multiset{ev.task} else multiset{}
  }

  /** The task that `run` gives up in this step: only a stopped pool does. */
  function GivenUpIn(s: Pool, ev: Event): multiset<Task> {
    if ev.Put? && Enabled(s, ev) && !s.running then multiset{s.producers[ev.p].task} else multiset{}
  }

  function Called(s: Pool, evs: seq<Event>): multiset<Task>
    decreases |evs|
  {
    if evs == [] then multiset{} else CalledIn(s, evs[0]) + Called(Next(s, evs[0]), evs[1..])
  }

  function GivenUp(s: Pool, evs: seq<Event>): multiset<Task>
    decreases |evs|
  {
    if evs == [] then multiset{} else GivenUpIn(s, evs[0]) + GivenUp(Next(s, evs[0]), evs[1..])
  }

  /** A producer that leaves hands over exactly its task. */
  lemma LeavingHandsOver(ps: seq<Producer>, p: nat)
    requires p < |ps| && ps[p] != Away
    ensures InHand(ps) == InHand(ps[p := Away]) + multiset{ps[p].task}
  {
    InHandUpdate(ps, p, Away);
    assert InHand(ps) + multiset{} == InHand(ps);
  }

  lemma EnteringTakesOn(ps: seq<Producer>, p: nat, task: Task)
    requires p < |ps| && ps[p] == Away
    ensures InHand(ps[p := Ready(task)]) == InHand(ps) + multiset{task}
  {
    InHandUpdate(ps, p, Ready(task));
    assert InHand(ps[p := Ready(task)]) + multiset{} == InHand(ps[p := Ready(task)]);
  }

  lemma WaitingKeepsTask(ps: seq<Producer>, p: nat)
    requires p < |ps| && ps[p] != Away
    ensures InHand(ps[p := Waiting(ps[p].task)]) == InHand(ps)
  {
    InHandSame(ps[p := Waiting(ps[p].task)], ps);
  }

  lemma HandOver(pushed: seq<Task>, task: Task, before: multiset<Task>, after: multiset<Task>)
    requires before == after + multiset{task}
    ensures multiset(pushed) + before == multiset(pushed + [task]) + after
    ensures multiset(pushed) + before == (multiset(pushed) + after) + multiset{task}
  {
    assert multiset(pushed + [task]) == multiset(pushed) + multiset{task};
  }

  lemma PutKeepsTasks(s: Pool, p: nat, signal: nat)
    requires Enabled(s, Put(p, signal))
    ensures var d := DidPut(s, p, signal);
            && (s.running ==> Kept(d) == Kept(s))
            && (!s.running ==> Kept(s) == Kept(d) + multiset{s.producers[p].task})
  {
    var task := s.producers[p].task;
    if Full(s) && s.running {
      WaitingKeepsTask(s.producers, p);
    } else {
      LeavingHandsOver(s.producers, p);
      HandOver(s.pushed, task, InHand(s.producers), InHand(s.producers[p := Away]));
    }
  }

  lemma CallTakesOn(s: Pool, p: nat, task: Task)
    requires Enabled(s, Call(p, task))
    ensures Kept(Step(s, Call(p, task))) == Kept(s) + multiset{task}
  {
    EnteringTakesOn(s.producers, p, task);
    assert multiset(s.pushed) + (InHand(s.producers) + multiset{task}) == Kept(s) + multiset{task};
  }

  lemma SignalKeepsTasks(ps: seq<Producer>, pick: nat)
    ensures InHand(SignalProducer(ps, pick)) == InHand(ps)
  {
    InHandSame(SignalProducer(ps, pick), ps);
  }

  lemma WakingKeepsTasks(ps: seq<Producer>)
    ensures InHand(WakeProducers(ps)) == InHand(ps)
  {
    InHandSame(WakeProducers(ps), ps);
  }

  /** Which producer the step signals, if any. */
  lemma SignalOf(s: Pool, ev: Event) returns (pick: nat)
    requires Enabled(s, ev) && !ev.Put? && !ev.Call? && !ev.Stop?
    ensures Step(s, ev).producers == SignalProducer(s.producers, pick) && Step(s, ev).pushed == s.pushed
  {
    pick := |s.producers|;
    if ev.SpuriousProducer? {
      pick := ev.p;
    } else if ev.Take? && s.queue != [] && s.maxSize > 0 {
      pick := ev.signal;
    }
  }

  lemma OthersKeepTasks(s: Pool, ev: Event)
    requires Enabled(s, ev) && !ev.Put? && !ev.Call?
    ensures Kept(Step(s, ev)) == Kept(s)
  {
    if ev.Stop? {
      WakingKeepsTasks(s.producers);
    } else {
      var pick := SignalOf(s, ev);
      SignalKeepsTasks(s.producers, pick);
    }
  }

  lemma NothingMore(kept: multiset<Task>)
    ensures kept + multiset{} == kept
  {
  }

  lemma StepKeepsTasks(s: Pool, ev: Event)
    ensures Kept(s) + CalledIn(s, ev) == Kept(Next(s, ev)) + GivenUpIn(s, ev)
  {
    NothingMore(Kept(s));
    NothingMore(Kept(Next(s, ev)));
    if !Enabled(s, ev) {
    } else if ev.Put? {
      PutKeepsTasks(s, ev.p, ev.signal);
    } else if ev.Call? {
      CallTakesOn(s, ev.p, ev.task);
    } else {
      OthersKeepTasks(s, ev);
    }
  }

  /**
   Over every run: every task that `run` was called with has been queued, is in the hands of a thread
   still in `run`, or was given up by a call that found the pool stopped; each exactly once.
   */
  lemma {:induction false} NoTaskIsLost(s: Pool, evs: seq<Event>)
    ensures Kept(s) + Called(s, evs) == Kept(Run(s, evs)) + GivenUp(s, evs)
    decreases |evs|
  {
    if evs == [] {
    } else {
      var next, rest := Next(s, evs[0]), evs[1..];
      NoTaskIsLost(next, rest);
      StepKeepsTasks(s, evs[0]);
      AddBoth(Kept(s), CalledIn(s, evs[0]), Kept(next), GivenUpIn(s, evs[0]),
              Called(next, rest), Kept(Run(next, rest)), GivenUp(next, rest));
    }
  }

  /** A pool that still runs has given up nothing. */
  lemma {:induction false} RunningGivesUpNothing(s: Pool, evs: seq<Event>)
    requires Run(s, evs).running
    ensures s.running && GivenUp(s, evs) == multiset{}
    decreases |evs|
  {
    if evs == [] {
    } else {
      RunningGivesUpNothing(Next(s, evs[0]), evs[1..]);
    }
  }

  lemma {:induction false} NobodyHolds(ps: seq<Producer>)
    requires forall i :: 0 <= i < |ps| ==> ps[i] == Away
    ensures InHand(ps) == multiset{}
  {
    if ps == [] {
    } else {
      NobodyHolds(ps[..|ps| - 1]);
    }
  }

  /**
   From the start of a pool, over every run: the tasks of all calls of `run` are those that workers
   took, those queued, those of threads still in `run` and those given up; and none is given up
   before `stop`.
   */
  lemma EveryTaskAccountedFor(maxSize: nat, numThreads: nat, clients: nat, evs: seq<Event>)
    ensures var s := Started(maxSize, numThreads, clients);
            var d := Run(s, evs);
            && Called(s, evs) == multiset(d.popped + d.queue) + InHand(d.producers) + GivenUp(s, evs)
            && (d.running ==> GivenUp(s, evs) == multiset{})
  {
    var s := Started(maxSize, numThreads, clients);
    NoTaskIsLost(s, evs);
    PoolDiscipline(maxSize, numThreads, clients, evs);
    NobodyHolds(s.producers);
    assert Kept(s) == multiset{};
    assert multiset{} + Called(s, evs) == Called(s, evs);
    if Run(s, evs).running {
      RunningGivesUpNothing(s, evs);
    }
  }

  /** How often a worker found the queue non-empty. */
  function Takes(s: Pool, evs: seq<Event>): nat
    decreases |evs|
  {
    if evs == [] then 0
    else One(evs[0].Take? && Enabled(s, evs[0]) && s.queue != []) + Takes(Next(s, evs[0]), evs[1..])
  }

  /** A worker that finds the queue non-empty takes a task, whether or not the pool is stopped. */
  lemma {:induction false} TakesTakeTasks(s: Pool, evs: seq<Event>)
    ensures |Run(s, evs).popped| == |s.popped| + Takes(s, evs)
    decreases |evs|
  {
    if evs == [] {
    } else {
      TakesTakeTasks(Next(s, evs[0]), evs[1..]);
    }
  }

  predicate AllAtWork(s: Pool) {
    forall t :: 0 <= t < |s.workers| ==> s.workers[t] != Exited && s.workers[t] != EmptyHanded
  }

  /** As long as the pool runs, no worker leaves and none comes back from the queue without a task. */
  lemma {:induction false} RunningKeepsWorkers(s: Pool, evs: seq<Event>)
    requires AllAtWork(s) && Run(s, evs).running
    ensures s.running && AllAtWork(Run(s, evs)) && |Run(s, evs).workers| == |s.workers|
    decreases |evs|
  {
    if evs == [] {
    } else {
      var next := Next(s, evs[0]);
      RunningGivesUpNothing(next, evs[1..]);
      assert s.running && AllAtWork(next);
      RunningKeepsWorkers(next, evs[1..]);
    }
  }

  // ---------- Every task that leaves the queue is started once, by one worker ----------

  /** A task held by a worker has left the queue, is not started, and no other worker holds it. */
  ghost predicate HeldOnce(s: Pool) {
    && (forall t :: 0 <= t < |s.workers| && s.workers[t].Holding? ==>
          s.workers[t].k < |s.popped| && s.workers[t].k !in s.started)
    && (forall t, u :: 0 <= t < u < |s.workers| && s.workers[t].Holding? ==> s.workers[t] != s.workers[u])
  }

  /** Exactly the tasks that left the queue have been started or are held. */
  ghost predicate NoneLost(s: Pool) {
    && (forall k :: k in s.started ==> k < |s.popped|)
    && (forall k :: 0 <= k < |s.popped| ==> k in s.started || Holding(k) in s.workers)
  }

  ghost predicate HandedOver(s: Pool) {
    HeldOnce(s) && NoneLost(s)
  }

  lemma StepKeepsHeldOnce(s: Pool, ev: Event)
    requires HandedOver(s) && Enabled(s, ev)
    ensures HeldOnce(Step(s, ev))
  {
  }

  lemma StepLosesNone(s: Pool, ev: Event)
    requires HandedOver(s) && Enabled(s, ev)
    ensures NoneLost(Step(s, ev))
  {
    var d := Step(s, ev);
    forall k | 0 <= k < |d.popped| && k !in d.started
      ensures Holding(k) in d.workers
    {
      if k == |s.popped| {
        assert d.workers[ev.t] == Holding(k);
      } else {
        var t :| 0 <= t < |s.workers| && s.workers[t] == Holding(k);
        assert d.workers[t] == Holding(k);
      }
    }
  }

  lemma {:induction false} TasksStartOnce(s: Pool, evs: seq<Event>)
    requires HandedOver(s)
    ensures HandedOver(Run(s, evs))
    decreases |evs|
  {
    if evs == [] {
    } else {
      if Enabled(s, evs[0]) {
        StepKeepsHeldOnce(s, evs[0]);
        StepLosesNone(s, evs[0]);
        TasksStartOnce(Step(s, evs[0]), evs[1..]);
      } else {
        TasksStartOnce(s, evs[1..]);
      }
    }
  }

  // ---------- After stop() ----------

  /** How many steps of its own a worker still has before it is gone. */
  function Rank(w: Worker): nat {
    match w
    case Asleep => 6
    case Entering => 5
    case Woken => 5
    case Holding(_) => 4
    case Busy => 3
    case EmptyHanded => 3
    case Checking => 2
    case Exited => 0
  }

  function TotalRank(ws: seq<Worker>): nat {
    if ws == [] then 0 else TotalRank(ws[..|ws| - 1]) + Rank(ws[|ws| - 1])
  }

  lemma {:induction false} TotalRankUpdate(ws: seq<Worker>, i: nat, w: Worker)
    requires i < |ws|
    ensures TotalRank(ws[i := w]) == TotalRank(ws) - Rank(ws[i]) + Rank(w)
  {
    var n, after := |ws| - 1, ws[i := w];
    if i == n {
      assert after[..n] == ws[..n];
    } else {
      assert after[..n] == ws[..n][i := w];
      TotalRankUpdate(ws[..n], i, w);
    }
  }

  predicate WorkerEvent(ev: Event) {
    ev.Check? || ev.Take? || ev.Start? || ev.Skip? || ev.Finish?
  }

  function CountEvents(s: Pool, evs: seq<Event>, p: Event -> bool): nat
    decreases |evs|
  {
    if evs == [] then 0
    else
      var enabled := Enabled(s, evs[0]);
      One(enabled && p(evs[0])) + CountEvents(if enabled then Step(s, evs[0]) else s, evs[1..], p)
  }

  ghost predicate IsStopped(s: Pool) {
    !s.running && NobodySleeps(s)
  }

  /** `stop()` stops the pool at once and wakes everybody. */
  lemma StopStops(s: Pool)
    ensures IsStopped(Step(s, Event.Stop))
  {
    CountZero(WakeWorkers(s.workers), IsAsleep);
    CountZero(WakeProducers(s.producers), IsWaiting);
  }

  /** And nothing else does, or starts it again. */
  lemma {:induction false} RunsUntilStopped(s: Pool, evs: seq<Event>)
    ensures Run(s, evs).running <==> s.running && Event.Stop !in evs
    decreases |evs|
  {
    if evs == [] {
    } else {
      assert evs == [evs[0]] + evs[1..];
      RunsUntilStopped(Next(s, evs[0]), evs[1..]);
    }
  }

  lemma StoppedStays(s: Pool, ev: Event)
    requires IsStopped(s) && Enabled(s, ev)
    ensures IsStopped(Step(s, ev)) && Step(s, ev).pushed == s.pushed
  {
    CountZero(s.workers, IsAsleep);
    CountZero(s.producers, IsWaiting);
    var d := Step(s, ev);
    CountZero(d.workers, IsAsleep);
    CountZero(d.producers, IsWaiting);
  }

  lemma StoppedRankFalls(s: Pool, ev: Event)
    requires IsStopped(s) && Enabled(s, ev)
    ensures TotalRank(Step(s, ev).workers) + One(WorkerEvent(ev)) <= TotalRank(s.workers)
  {
    CountZero(s.workers, IsAsleep);
    assert forall i :: 0 <= i < |s.workers| ==> !IsAsleep(s.workers[i]);
    var d := Step(s, ev);
    if ev.Stop? {
      assert d.workers == s.workers;
    } else if WorkerEvent(ev) {
      TotalRankUpdate(s.workers, ev.t, d.workers[ev.t]);
    }
  }

  /**
   `stop()` can join: the workers together make at most `TotalRank` further steps, nothing more
   enters the queue, and as long as one of them is left it has a step to make.
   */
  lemma {:induction false} StopTerminates(s: Pool, evs: seq<Event>)
    requires IsStopped(s)
    ensures var d := Run(s, evs);
            && CountEvents(s, evs, WorkerEvent) + TotalRank(d.workers) <= TotalRank(s.workers)
            && IsStopped(d) && d.pushed == s.pushed
    decreases |evs|
  {
    if evs == [] {
    } else {
      if Enabled(s, evs[0]) {
        StoppedStays(s, evs[0]);
        StoppedRankFalls(s, evs[0]);
        StopTerminates(Step(s, evs[0]), evs[1..]);
      } else {
        StopTerminates(s, evs[1..]);
      }
    }
  }

  lemma StoppedWorkerCanMove(s: Pool, t: nat) returns (ev: Event)
    requires IsStopped(s) && t < |s.workers| && s.workers[t] != Exited
    ensures WorkerEvent(ev) && ev.t == t && Enabled(s, ev)
  {
    CountZero(s.workers, IsAsleep);
    CountZero(s.producers, IsWaiting);
    assert !IsAsleep(s.workers[t]);
    match s.workers[t] {
      case Checking => ev := Check(t);
      case Entering => ev := Take(t, 0);
      case Woken => ev := Take(t, 0);
      case Holding(_) => ev := Start(t);
      case EmptyHanded => ev := Skip(t);
      case Busy => ev := Finish(t);
    }
  }

  /** A worker past its last look at `running_` can still pick up and start one task. */
  function TasksLeft(w: Worker): nat {
    if w.Entering? || w.Asleep? || w.Woken? || w.Holding? then 1 else 0
  }

  predicate StartsTask(t: nat, ev: Event) {
    ev == Start(t)
  }

  /** After `stop()` each worker starts at most one more task. */
  lemma {:induction false} OneMoreTaskEach(s: Pool, evs: seq<Event>, t: nat)
    requires !s.running && t < |s.workers|
    ensures CountEvents(s, evs, ev => StartsTask(t, ev)) <= TasksLeft(s.workers[t]) <= 1
    decreases |evs|
  {
    if evs == [] {
    } else {
      OneMoreTaskEach(if Enabled(s, evs[0]) then Step(s, evs[0]) else s, evs[1..], t);
    }
  }

  // ---------- The object ----------

  /** Each method is one critical section of the source; thread states are kept beside the fields. */
  class ThreadPool {
    const maxQueueSize: nat
    var running: bool
    var queue: seq<Task>
    var workers: seq<Worker>
    var producers: seq<Producer>
    ghost var pushed: seq<Task>
    var popped: seq<Task>
    ghost var started: set<nat>

    ghost function Abs(): Pool
      reads this
    {
      Pool(maxQueueSize, running, queue, workers, producers, pushed, popped, started)
    }

    constructor (maxSize: nat, numThreads: nat, clients: nat)
      ensures Abs() == Started(maxSize, numThreads, clients)
    {
      maxQueueSize, running, queue := maxSize, true, [];
      workers, producers := seq(numThreads, _ => Checking), seq(clients, _ => Away);
      pushed, popped, started := [], [], {};
    }

    predicate IsFull()
      reads this
    {
      maxQueueSize > 0 && |queue| >= maxQueueSize
    }

    method NotifyNotEmpty(pick: nat)
      modifies this`workers
      ensures workers == SignalWorker(old(workers), pick)
    {
      if pick < |workers| && workers[pick] == Asleep {
        workers := workers[pick := Woken];
      }
    }

    method NotifyNotFull(pick: nat)
      modifies this`producers
      ensures producers == SignalProducer(old(producers), pick)
    {
      if pick < |producers| && producers[pick].Waiting? {
        producers := producers[pick := Signalled(producers[pick].task)];
      }
    }

    method RunSection(p: nat, pick: nat)
      requires Enabled(Abs(), Put(p, pick))
      modifies this
      ensures Abs() == Step(old(Abs()), Put(p, pick))
    {
      var task := producers[p].task;
      if IsFull() && running {
        producers := producers[p := Waiting(task)];
        return;
      }
      producers := producers[p := Away];
      if !running {
        return;
      }
      assert !IsFull();
      queue := queue + [task];
      pushed := pushed + [task];
      NotifyNotEmpty(pick);
    }

    method TakeSection(t: nat, pick: nat)
      requires Enabled(Abs(), Take(t, pick))
      modifies this
      ensures Abs() == Step(old(Abs()), Take(t, pick))
    {
      if queue == [] && running {
        workers := workers[t := Asleep];
        return;
      }
      if queue != [] {
        workers := workers[t := Holding(|popped|)];
        popped := popped + [queue[0]];
        queue := queue[1..];
        if maxQueueSize > 0 {
          NotifyNotFull(pick);
        }
      } else {
        workers := workers[t := EmptyHanded];
      }
    }

    method NotifyAllNotEmpty()
      modifies this`workers
      ensures workers == WakeWorkers(old(workers))
    {
      for i := 0 to |workers|
        invariant |workers| == |old(workers)|
        invariant forall j :: 0 <= j < |workers| ==>
          workers[j] == if j < i then WakeWorkers(old(workers))[j] else old(workers)[j]
      {
        if workers[i] == Asleep {
          workers := workers[i := Woken];
        }
      }
    }

    method NotifyAllNotFull()
      modifies this`producers
      ensures producers == WakeProducers(old(producers))
    {
      for i := 0 to |producers|
        invariant |producers| == |old(producers)|
        invariant forall j :: 0 <= j < |producers| ==>
          producers[j] == if j < i then WakeProducers(old(producers))[j] else old(producers)[j]
      {
        if producers[i].Waiting? {
          producers := producers[i := Signalled(producers[i].task)];
        }
      }
    }

    method StopSection()
      modifies this
      ensures Abs() == Step(old(Abs()), Event.Stop)
    {
      running := false;
      NotifyAllNotEmpty();
      NotifyAllNotFull();
    }
  }
}
