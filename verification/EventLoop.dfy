/**
 The cross-thread hand-off of libel/net/eventloop.cpp. The loop thread and any number of other
 threads interleave at the granularity of the source's critical sections: pushing a functor under
 the lock and writing the eventfd are two separate steps.
 */
module EventLoops {
  import opened Sequences

  type Functor = nat
  type Tid = nat

  /** The eventfd counter cannot pass this value; a write that would is refused. */
  const MAX_COUNTER: nat := 0xffff_ffff_ffff_fffe

  /** Where the loop thread is. */
  datatype Phase =
    | Outside                        // before loop()
    | AtPoll                         // blocked in, or about to enter, poll
    | Handling(wakeReady: bool)      // running channel callbacks; is the eventfd among them?
    | Draining(batch: seq<Functor>)  // in doPendingFunctors, after the swap
    | Stopped                        // loop() has returned

  /**
   `between` holds the other threads that have pushed and not yet written the eventfd, `selfBetween`
   says the same of the loop thread, and `noticed` that another thread has ever pushed or woken.
   */
  datatype Loop = Loop(
    phase: Phase,
    pending: seq<Functor>,
    counter: nat,
    between: set<Tid>,
    selfBetween: bool,
    quit: bool,
    iteration: nat,
    noticed: bool,
    pushed: seq<Functor>,
    executed: seq<Functor>)

  const START := Loop(Outside, [], 0, {}, false, false, 0, false, [], [])

  datatype Event =
    | Push(t: Tid, f: Functor)   // queueInLoop in another thread, first half
    | Wake(t: Tid)               // and second half
    | OwnPush(f: Functor)        // queueInLoop in the loop thread
    | OwnWake
    | BareWakeup                 // wakeup() called by another thread
    | Quit
    | Enter                      // loop() is called
    | PollReturns
    | ReadEventfd
    | SwapQueue
    | RunFunctor
    | EndDrain

  function Bumped(counter: nat): nat {
    if counter < MAX_COUNTER then counter + 1 else counter
  }

  predicate InLoopCode(s: Loop) {
    s.phase.Outside? || s.phase.Handling? || s.phase.Draining? || s.phase.Stopped?
  }

  predicate Enabled(s: Loop, ev: Event) {
    match ev
    case Push(t, _) => t !in s.between
    case Wake(t) => t in s.between
    case OwnPush(_) => InLoopCode(s) && !s.selfBetween
    case OwnWake => s.selfBetween
    case BareWakeup => true
    case Quit => true
    case Enter => s.phase == Outside
    case PollReturns => s.phase == AtPoll
    case ReadEventfd => s.phase == Handling(true)
    case SwapQueue => s.phase == Handling(false)
    case RunFunctor => s.phase.Draining? && s.phase.batch != [] && !s.selfBetween
    case EndDrain => s.phase == Draining([]) && !s.selfBetween
  }

  function Step(s: Loop, ev: Event): Loop
    requires Enabled(s, ev)
  {
    match ev
    case Push(t, f) =>
      s.(pending := s.pending + [f], pushed := s.pushed + [f], between := s.between + {t}, noticed := true)
    case Wake(t) => s.(counter := Bumped(s.counter), between := s.between - {t})
    case OwnPush(f) =>
      // callingPendingFunctors_ is set exactly while draining
      s.(pending := s.pending + [f], pushed := s.pushed + [f], selfBetween := s.phase.Draining?)
    case OwnWake => s.(counter := Bumped(s.counter), selfBetween := false)
    case BareWakeup => s.(counter := Bumped(s.counter), noticed := true)
    case Quit => s.(quit := true)
    case Enter => s.(phase := if s.quit then Stopped else AtPoll)
    case PollReturns => s.(phase := Handling(s.counter > 0), iteration := s.iteration + 1)
    case ReadEventfd => s.(counter := 0, phase := Handling(false))
    case SwapQueue => s.(phase := Draining(s.pending), pending := [])
    case RunFunctor =>
      s.(executed := s.executed + [s.phase.batch[0]], phase := Draining(s.phase.batch[1..]))
    case EndDrain => s.(phase := if s.quit then Stopped else AtPoll)
  }

  /** Events that cannot happen in the current state are passed over. */
  function Next(s: Loop, ev: Event): Loop {
    if Enabled(s, ev) then Step(s, ev) else s
  }

  function Run(s: Loop, evs: seq<Event>): Loop
    decreases |evs|
  {
    if evs == [] then s else Run(Next(s, evs[0]), evs[1..])
  }

  // ---------- No functor waits behind a blocking poll ----------

  /** In poll with work queued, nothing in the eventfd and nobody about to write it. */
  predicate Stranded(s: Loop) {
    s.phase == AtPoll && s.pending != [] && s.counter == 0 && s.between == {}
  }

  predicate WillWake(s: Loop) {
    s.counter > 0 || s.between != {} || s.selfBetween
  }

  predicate Inv(s: Loop) {
    && (s.phase.Outside? ==> s.iteration == 0)
    && (s.phase.Handling? || s.phase.Draining? ==> s.iteration > 0)
    && (s.selfBetween ==> s.phase.Draining?)
    && (s.iteration > 0 && (s.phase.AtPoll? || s.phase.Draining?) && s.pending != [] ==> WillWake(s))
    && (s.iteration == 0 && (s.phase.Outside? || s.phase.AtPoll?) ==> (s.noticed <==> WillWake(s)))
  }

  lemma StepKeepsInv(s: Loop, ev: Event)
    requires Inv(s) && Enabled(s, ev)
    ensures Inv(Step(s, ev))
  {
    if ev.Push? {
      assert ev.t in Step(s, ev).between;
    }
  }

  lemma {:induction false} RunKeepsInv(s: Loop, evs: seq<Event>)
    requires Inv(s)
    ensures Inv(Run(s, evs))
    decreases |evs|
  {
    if evs == [] {
    } else {
      if Enabled(s, evs[0]) {
        StepKeepsInv(s, evs[0]);
        RunKeepsInv(Step(s, evs[0]), evs[1..]);
      } else {
        RunKeepsInv(s, evs[1..]);
      }
    }
  }

  /**
   In every interleaving, work is stranded behind poll exactly in the first iteration, when only
   the loop thread itself queued it before calling `loop()` and no other thread has pushed or woken.
   */
  lemma StrandedExactly(evs: seq<Event>)
    ensures var s := Run(START, evs);
            Stranded(s) <==> s.phase == AtPoll && s.pending != [] && s.iteration == 0 && !s.noticed
  {
    RunKeepsInv(START, evs);
  }

  /** The failing family has a member: one functor queued before `loop()` waits for the poll timeout. */
  lemma StrandedBeforeLoop(f: Functor)
    ensures Stranded(Run(START, [OwnPush(f), Enter]))
  {
    var evs := [OwnPush(f), Enter];
    var s := Step(START, OwnPush(f));
    assert evs[1..] == [Enter] && [Enter][1..] == [];
    assert Run(START, evs) == Run(s, [Enter]) == Run(Step(s, Enter), []);
  }

  // ---------- Order and exactly-once ----------

  function Batch(s: Loop): seq<Functor> {
    if s.phase.Draining? then s.phase.batch else []
  }

  predicate InOrder(s: Loop) {
    s.executed + Batch(s) + s.pending == s.pushed
  }

  lemma StepKeepsOrder(s: Loop, ev: Event)
    requires InOrder(s) && Enabled(s, ev)
    ensures InOrder(Step(s, ev))
  {
    match ev {
      case Push(_, f) => assert s.executed + Batch(s) + (s.pending + [f]) == s.pushed + [f];
      case OwnPush(f) => assert s.executed + Batch(s) + (s.pending + [f]) == s.pushed + [f];
      case SwapQueue => assert s.executed + s.pending + [] == s.executed + [] + s.pending;
      case RunFunctor =>
        var b := s.phase.batch;
        assert (s.executed + [b[0]]) + b[1..] + s.pending == s.executed + b + s.pending by {
          assert [b[0]] + b[1..] == b;
        }
      case _ =>
    }
  }

  /** Every run executes the functors in the order they were pushed, each at most once, losing none. */
  lemma {:induction false} FunctorsInOrder(s: Loop, evs: seq<Event>)
    requires InOrder(s)
    ensures InOrder(Run(s, evs))
    decreases |evs|
  {
    if evs == [] {
    } else {
      if Enabled(s, evs[0]) {
        StepKeepsOrder(s, evs[0]);
        FunctorsInOrder(Step(s, evs[0]), evs[1..]);
      } else {
        FunctorsInOrder(s, evs[1..]);
      }
    }
  }

  /** No event of the run is the end of the drain. */
  predicate WithinDrain(evs: seq<Event>) {
    forall i :: 0 <= i < |evs| ==> evs[i] != EndDrain
  }

  function CountRuns(s: Loop, evs: seq<Event>): nat
    decreases |evs|
  {
    if evs == [] then 0
    else
      var enabled := Enabled(s, evs[0]);
      (if enabled && evs[0] == RunFunctor then 1 else 0)
      + CountRuns(if enabled then Step(s, evs[0]) else s, evs[1..])
  }

  /**
   One `doPendingFunctors` runs exactly the functors present at its swap, whatever is pushed
   meanwhile, by other threads or by those functors themselves: at most that many run, what is
   executed is a prefix of them, and when the drain can end all of them have run.
   */
  lemma {:induction false} DrainRunsItsBatch(s: Loop, evs: seq<Event>)
    requires s.phase.Draining? && WithinDrain(evs)
    ensures var d := Run(s, evs);
            && d.phase.Draining?
            && d.executed + d.phase.batch == s.executed + s.phase.batch
            && CountRuns(s, evs) == |s.phase.batch| - |d.phase.batch|
            && (Enabled(d, EndDrain) ==> d.executed == s.executed + s.phase.batch)
    decreases |evs|
  {
    if evs == [] {
    } else {
      var next := if Enabled(s, evs[0]) then Step(s, evs[0]) else s;
      assert next.phase.Draining? && next.executed + next.phase.batch == s.executed + s.phase.batch by {
        if Enabled(s, evs[0]) && evs[0] == RunFunctor {
          var b := s.phase.batch;
          assert [b[0]] + b[1..] == b;
          assert (s.executed + [b[0]]) + b[1..] == s.executed + ([b[0]] + b[1..]);
        }
      }
      DrainRunsItsBatch(next, evs[1..]);
    }
    var d := Run(s, evs);
    if Enabled(d, EndDrain) {
      assert d.executed + [] == d.executed;
    }
  }

  /** On the way from poll to the swap of the queue, or in the drain behind it. */
  predicate Underway(s: Loop, d: Loop) {
    match d.phase
    case AtPoll => d.executed == s.executed && s.pending <= d.pending
    case Handling(_) => d.executed == s.executed && s.pending <= d.pending
    case Draining(batch) => s.executed + s.pending <= d.executed + batch
    case _ => false
  }

  lemma StepStaysUnderway(s: Loop, d: Loop, ev: Event)
    requires Underway(s, d) && Enabled(d, ev) && ev != EndDrain
    ensures Underway(s, Step(d, ev))
  {
    if ev == RunFunctor {
      var b := d.phase.batch;
      assert (d.executed + [b[0]]) + b[1..] == d.executed + b by {
        assert [b[0]] + b[1..] == b;
      }
    }
  }

  lemma {:induction false} StaysUnderway(s: Loop, d: Loop, evs: seq<Event>)
    requires Underway(s, d) && WithinDrain(evs)
    ensures Underway(s, Run(d, evs))
    decreases |evs|
  {
    if evs == [] {
    } else {
      if Enabled(d, evs[0]) {
        StepStaysUnderway(s, d, evs[0]);
      }
      StaysUnderway(s, if Enabled(d, evs[0]) then Step(d, evs[0]) else d, evs[1..]);
    }
  }

  /**
   In every interleaving, whatever was pending when the loop was in poll has run or is in the batch
   by the time the next drain is under way.
   */
  lemma WakeReachesDrain(s: Loop, evs: seq<Event>)
    requires s.phase == AtPoll && WithinDrain(evs)
    ensures var d := Run(s, evs);
            d.phase.Draining? ==> s.executed + s.pending <= d.executed + d.phase.batch
  {
    StaysUnderway(s, s, evs);
  }

  // ---------- The loop does not spin ----------

  predicate IsWake(ev: Event) {
    ev.Wake? || ev == OwnWake || ev == BareWakeup
  }

  /** The writes of the eventfd that nobody has read, counting on from `unread`. */
  function Unread(s: Loop, evs: seq<Event>, unread: nat): nat
    decreases |evs|
  {
    if evs == [] then unread
    else
      var enabled := Enabled(s, evs[0]);
      Unread(Next(s, evs[0]), evs[1..],
             if enabled && evs[0] == ReadEventfd then 0
             else if enabled && IsWake(evs[0]) then unread + 1
             else unread)
  }

  /** The counter is the number of writes since the last read, as far as it can count. */
  lemma {:induction false} CounterCountsWakes(s: Loop, evs: seq<Event>, unread: nat)
    requires s.counter == if unread < MAX_COUNTER then unread else MAX_COUNTER
    ensures var n := Unread(s, evs, unread);
            Run(s, evs).counter == if n < MAX_COUNTER then n else MAX_COUNTER
    decreases |evs|
  {
    if evs == [] {
    } else {
      var enabled := Enabled(s, evs[0]);
      CounterCountsWakes(Next(s, evs[0]), evs[1..],
                         if enabled && evs[0] == ReadEventfd then 0
                         else if enabled && IsWake(evs[0]) then unread + 1
                         else unread);
    }
  }

  function CountWakes(s: Loop, evs: seq<Event>): nat
    decreases |evs|
  {
    if evs == [] then 0
    else (if Enabled(s, evs[0]) && IsWake(evs[0]) then 1 else 0) + CountWakes(Next(s, evs[0]), evs[1..])
  }

  /** How often poll returned because of the eventfd. */
  function CountWoken(s: Loop, evs: seq<Event>): nat
    decreases |evs|
  {
    if evs == [] then 0
    else
      (if Enabled(s, evs[0]) && evs[0] == PollReturns && s.counter > 0 then 1 else 0)
      + CountWoken(Next(s, evs[0]), evs[1..])
  }

  /** A write of the eventfd that can still make poll return. */
  function Credit(s: Loop): nat {
    if s.counter > 0 && s.phase != Handling(true) then 1 else 0
  }

  lemma StepSpendsCredit(s: Loop, ev: Event)
    requires (s.phase == Handling(true) ==> s.counter > 0) && Enabled(s, ev)
    ensures Step(s, ev).phase == Handling(true) ==> Step(s, ev).counter > 0
    ensures (if ev == PollReturns && s.counter > 0 then 1 else 0) + Credit(Step(s, ev))
            <= Credit(s) + if IsWake(ev) then 1 else 0
  {
  }

  /** Over every run poll returns for the eventfd at most once for every time it was written. */
  lemma {:induction false} NoSpinning(s: Loop, evs: seq<Event>)
    requires s.phase == Handling(true) ==> s.counter > 0
    ensures Run(s, evs).phase == Handling(true) ==> Run(s, evs).counter > 0
    ensures CountWoken(s, evs) + Credit(Run(s, evs)) <= Credit(s) + CountWakes(s, evs)
    decreases |evs|
  {
    if evs == [] {
    } else {
      if Enabled(s, evs[0]) {
        StepSpendsCredit(s, evs[0]);
      }
      NoSpinning(Next(s, evs[0]), evs[1..]);
    }
  }

  // ---------- What quit() does ----------

  function CountPolls(s: Loop, evs: seq<Event>): nat
    decreases |evs|
  {
    if evs == [] then 0
    else
      var enabled := Enabled(s, evs[0]);
      (if enabled && evs[0] == PollReturns then 1 else 0)
      + CountPolls(if enabled then Step(s, evs[0]) else s, evs[1..])
  }

  /** Once `quit()` has been called, poll returns at most once more, and only if the loop was in it. */
  lemma {:induction false} QuitEndsSoon(s: Loop, evs: seq<Event>)
    requires s.quit
    ensures Run(s, evs).quit
    ensures CountPolls(s, evs) + (if Run(s, evs).phase == AtPoll then 1 else 0) <= if s.phase == AtPoll then 1 else 0
    decreases |evs|
  {
    if evs == [] {
    } else {
      QuitEndsSoon(if Enabled(s, evs[0]) then Step(s, evs[0]) else s, evs[1..]);
    }
  }

  predicate EndIsTold(s: Loop) {
    s.phase == Stopped ==> s.quit
  }

  lemma StepKeepsEndTold(s: Loop, ev: Event)
    requires EndIsTold(s) && Enabled(s, ev)
    ensures var d := Step(s, ev);
            && EndIsTold(d) && (d.quit <==> s.quit || ev == Quit)
            && d.iteration == s.iteration + if ev == PollReturns then 1 else 0
  {
  }

  /** The loop ends only when it was told to, and it is told to by `quit()` alone; rounds are counted. */
  lemma {:induction false} StopsOnlyWhenTold(s: Loop, evs: seq<Event>)
    requires EndIsTold(s)
    ensures var d := Run(s, evs);
            && EndIsTold(d)
            && (d.quit <==> s.quit || Quit in evs)
            && d.iteration == s.iteration + CountPolls(s, evs)
    decreases |evs|
  {
    if evs == [] {
    } else {
      assert evs == [evs[0]] + evs[1..];
      if Enabled(s, evs[0]) {
        StepKeepsEndTold(s, evs[0]);
      }
      StopsOnlyWhenTold(Next(s, evs[0]), evs[1..]);
    }
  }

  /** Somebody new wakes the loop, or poll returns for its timeout or for another active channel. */
  predicate Disturbs(s: Loop, ev: Event) {
    ev.Push? || ev == BareWakeup || (ev == PollReturns && s.counter == 0)
  }

  ghost predicate Undisturbed(s: Loop, evs: seq<Event>)
    decreases |evs|
  {
    evs == [] ||
    (&& Enabled(s, evs[0]) && !Disturbs(s, evs[0])
     && Undisturbed(Step(s, evs[0]), evs[1..]))
  }

  lemma {:induction false} SleepsOn(s: Loop, evs: seq<Event>)
    requires s.phase == AtPoll && s.counter == 0 && s.between == {} && !s.selfBetween && Undisturbed(s, evs)
    ensures Run(s, evs).phase == AtPoll
    decreases |evs|
  {
    if evs == [] {
    } else {
      SleepsOn(Step(s, evs[0]), evs[1..]);
    }
  }

  lemma PutInFront(s: Loop, ev: Event, rest: seq<Event>)
    requires Enabled(s, ev) && !Disturbs(s, ev) && Undisturbed(Step(s, ev), rest)
    ensures Undisturbed(s, [ev] + rest) && Run(s, [ev] + rest) == Run(Step(s, ev), rest)
  {
    assert ([ev] + rest)[1..] == rest;
  }

  lemma {:induction false} DrainStops(s: Loop) returns (evs: seq<Event>)
    requires s.quit && s.phase.Draining? && !s.selfBetween
    ensures Undisturbed(s, evs) && Run(s, evs).phase == Stopped
    decreases |s.phase.batch|
  {
    if s.phase.batch == [] {
      PutInFront(s, EndDrain, []);
      evs := [EndDrain] + [];
    } else {
      var rest := DrainStops(Step(s, RunFunctor));
      PutInFront(s, RunFunctor, rest);
      evs := [RunFunctor] + rest;
    }
  }

  lemma WokenStops(s: Loop) returns (evs: seq<Event>)
    requires s.quit && s.phase == AtPoll && !s.selfBetween && s.counter > 0
    ensures Undisturbed(s, evs) && Run(s, evs).phase == Stopped
  {
    var polled := Step(s, PollReturns);
    var read := Step(polled, ReadEventfd);
    evs := DrainStops(Step(read, SwapQueue));
    PutInFront(read, SwapQueue, evs);
    PutInFront(polled, ReadEventfd, [SwapQueue] + evs);
    PutInFront(s, PollReturns, [ReadEventfd] + ([SwapQueue] + evs));
    evs := [PollReturns] + ([ReadEventfd] + ([SwapQueue] + evs));
  }

  /**
   `quit()` does not wake the loop: told to quit while in poll, it can come to an end without a
   timeout and without anybody new waking it if and only if the eventfd is written already or a
   thread is about to write it.
   */
  lemma QuitIsHeardExactly(s: Loop)
    requires Inv(s) && s.phase == AtPoll && s.quit
    ensures (exists evs :: Undisturbed(s, evs) && Run(s, evs).phase == Stopped) <==>
            s.counter > 0 || s.between != {}
  {
    if s.counter > 0 {
      var evs := WokenStops(s);
    } else if s.between != {} {
      var t :| t in s.between;
      var evs := WokenStops(Step(s, Wake(t)));
      PutInFront(s, Wake(t), evs);
    } else {
      forall evs | Undisturbed(s, evs)
        ensures Run(s, evs).phase == AtPoll
      {
        SleepsOn(s, evs);
      }
    }
  }

  /** A step of the loop itself, or the second half of its own thread's `queueInLoop`. */
  predicate LoopStep(ev: Event) {
    ev == PollReturns || ev == ReadEventfd || ev == SwapQueue || ev == RunFunctor || ev == EndDrain || ev == OwnWake
  }

  function CountLoopSteps(evs: seq<Event>): nat {
    if evs == [] then 0 else (if LoopStep(evs[0]) then 1 else 0) + CountLoopSteps(evs[1..])
  }

  function CountOwnPushes(evs: seq<Event>): nat {
    if evs == [] then 0 else (if evs[0].OwnPush? then 1 else 0) + CountOwnPushes(evs[1..])
  }

  /** How many steps the loop still has before it stops. */
  function StepsLeft(s: Loop): nat {
    (match s.phase
     case Outside => 0
     case AtPoll => 4 + |s.pending|
     case Handling(wakeReady) => 2 + |s.pending| + if wakeReady then 1 else 0
     case Draining(batch) => 1 + |batch|
     case Stopped => 0)
    + if s.selfBetween then 1 else 0
  }

  /** Told to quit, and not asleep in poll. */
  predicate WillHear(s: Loop) {
    && s.quit && !s.phase.Outside? && (s.selfBetween ==> s.phase.Draining?)
    && (s.phase == AtPoll ==> s.counter > 0)
  }

  lemma HearingStep(s: Loop, ev: Event)
    requires WillHear(s) && Enabled(s, ev) && !Disturbs(s, ev)
    ensures WillHear(Step(s, ev))
    ensures StepsLeft(Step(s, ev)) + (if LoopStep(ev) then 1 else 0)
            <= StepsLeft(s) + 2 * (if ev.OwnPush? then 1 else 0)
  {
  }

  /**
   Told to quit, with the eventfd written: on every undisturbed run the loop makes a bounded number
   of steps, one for everything pending, two more for every functor that its own thread queues, and
   as long as it has not stopped it has a step to make.
   */
  lemma {:induction false} HeardQuitEnds(s: Loop, evs: seq<Event>)
    requires WillHear(s) && Undisturbed(s, evs)
    ensures var d := Run(s, evs);
            && WillHear(d)
            && CountLoopSteps(evs) + StepsLeft(d) <= StepsLeft(s) + 2 * CountOwnPushes(evs)
    decreases |evs|
  {
    if evs == [] {
    } else {
      HearingStep(s, evs[0]);
      HeardQuitEnds(Step(s, evs[0]), evs[1..]);
    }
  }

  lemma HearingLoopCanMove(s: Loop) returns (ev: Event)
    requires WillHear(s) && s.phase != Stopped
    ensures LoopStep(ev) && Enabled(s, ev) && !Disturbs(s, ev)
  {
    if s.selfBetween {
      ev := OwnWake;
    } else {
      match s.phase {
        case AtPoll => ev := PollReturns;
        case Handling(wakeReady) => ev := if wakeReady then ReadEventfd else SwapQueue;
        case Draining(batch) => ev := if batch == [] then EndDrain else RunFunctor;
      }
    }
  }

  /** And it does happen that it is not heard. */
  lemma QuitInPollIsNotHeard()
    ensures var s := Run(START, [Enter, Quit]);
            Inv(s) && s.phase == AtPoll && s.quit && s.counter == 0 && s.between == {}
  {
    RunKeepsInv(START, [Enter, Quit]);
    assert [Enter, Quit][1..] == [Quit] && [Quit][1..] == [];
    var s := Step(START, Enter);
    assert Run(START, [Enter, Quit]) == Run(s, [Quit]) == Run(Step(s, Quit), []);
  }

  // ---------- The object ----------

  lemma {:induction false} RunOfConcatenation(s: Loop, xs: seq<Event>, ys: seq<Event>)
    ensures Run(s, xs + ys) == Run(Run(s, xs), ys)
    decreases |xs|
  {
    if xs == [] {
      assert xs + ys == ys;
    } else {
      assert (xs + ys)[1..] == xs[1..] + ys;
      RunOfConcatenation(if Enabled(s, xs[0]) then Step(s, xs[0]) else s, xs[1..], ys);
    }
  }

  lemma RunOfOne(s: Loop, ev: Event)
    requires Enabled(s, ev)
    ensures Run(s, [ev]) == Step(s, ev)
  {
    assert [ev][1..] == [];
    assert Run(Step(s, ev), []) == Step(s, ev);
  }

  lemma RunOfDrain(s: Loop, evs: seq<Event>)
    requires Enabled(s, SwapQueue) && Enabled(Run(Step(s, SwapQueue), evs), EndDrain)
    ensures Run(s, [SwapQueue] + evs + [EndDrain]) == Step(Run(Step(s, SwapQueue), evs), EndDrain)
  {
    RunOfOne(s, SwapQueue);
    RunOfConcatenation(s, [SwapQueue], evs);
    RunOfOne(Run(Step(s, SwapQueue), evs), EndDrain);
    RunOfConcatenation(s, [SwapQueue] + evs, [EndDrain]);
  }

  /** A call of `queueInLoop`: with which functor, and whether in the loop thread. */
  datatype Queueing = Queueing(f: Functor, inLoop: bool)

  predicate AllInLoop(pushes: seq<Queueing>) {
    forall i :: 0 <= i < |pushes| ==> pushes[i].inLoop
  }

  function Functors(pushes: seq<Queueing>): seq<Functor> {
    if pushes == [] then [] else Functors(pushes[..|pushes| - 1]) + [pushes[|pushes| - 1].f]
  }

  lemma OneMore(executed: seq<Functor>, functors: seq<Functor>, i: nat)
    requires i < |functors|
    ensures functors[i..] == [functors[i]] + functors[i + 1..]
    ensures (executed + functors[..i]) + [functors[i]] == executed + functors[..i + 1]
  {
  }

  /** What is queued while the first `n` functors of a batch run. */
  function QueuedDuring(during: nat -> seq<Queueing>, n: nat): seq<Functor> {
    if n == 0 then [] else QueuedDuring(during, n - 1) + Functors(during(n - 1))
  }

  /**
   The `EventLoop` object. Each method is one uninterrupted pass through the source's code, and is
   shown to be a run of the step system above.
   */
  class EventLoop {
    var pendingFunctors: seq<Functor>
    var counter: nat
    var callingPendingFunctors: bool
    var iteration: nat
    var quit: bool
    var executed: seq<Functor>
    ghost var phase: Phase
    ghost var noticed: bool
    ghost var pushed: seq<Functor>

    ghost predicate Valid()
      reads this
    {
      callingPendingFunctors == phase.Draining?
    }

    ghost function Abs(): Loop
      reads this
    {
      Loop(phase, pendingFunctors, counter, {}, false, quit, iteration, noticed, pushed, executed)
    }

    constructor ()
      ensures Valid() && Abs() == START
    {
      pendingFunctors, counter, callingPendingFunctors, iteration, quit := [], 0, false, 0, false;
      executed, phase, noticed, pushed := [], Outside, false, [];
    }

    method Wakeup()
      modifies this`counter
      ensures counter == Bumped(old(counter))
    {
      if counter < MAX_COUNTER {
        counter := counter + 1;
      }
    }

    /** `t` names the calling thread when it is not the loop thread. */
    method QueueInLoop(cb: Functor, inLoopThread: bool, ghost t: Tid) returns (ghost evs: seq<Event>)
      requires Valid() && (inLoopThread ==> InLoopCode(Abs()))
      modifies this`pendingFunctors, this`counter, this`noticed, this`pushed
      ensures Valid() && phase == old(phase)
      ensures evs == if !inLoopThread then [Push(t, cb), Wake(t)]
                     else if callingPendingFunctors then [OwnPush(cb), OwnWake] else [OwnPush(cb)]
      ensures Abs() == Run(old(Abs()), evs)
      ensures pendingFunctors == old(pendingFunctors) + [cb] && noticed == (old(noticed) || !inLoopThread)
      ensures if !inLoopThread || callingPendingFunctors then counter > 0 else counter == old(counter)
    {
      ghost var before := Abs();
      pendingFunctors, pushed := pendingFunctors + [cb], pushed + [cb];
      if !inLoopThread || callingPendingFunctors {
        Wakeup();
      }
      ghost var first := if inLoopThread then OwnPush(cb) else Push(t, cb);
      ghost var second := if inLoopThread then OwnWake else Wake(t);
      noticed := noticed || !inLoopThread;
      RunOfOne(before, first);
      if !inLoopThread || callingPendingFunctors {
        evs := [first, second];
        RunOfOne(Step(before, first), second);
        RunOfConcatenation(before, [first], [second]);
        assert [first] + [second] == evs;
      } else {
        evs := [first];
      }
    }

    method HandleRead()
      requires Valid() && phase == Handling(true)
      modifies this`counter, this`phase
      ensures Valid() && Abs() == Run(old(Abs()), [ReadEventfd]) && counter == 0
    {
      RunOfOne(Abs(), ReadEventfd);
      counter := 0;
      phase := Handling(false);
    }

    /** Calls of `queueInLoop` that come one after the other, from whichever thread. */
    method QueueAll(pushes: seq<Queueing>) returns (ghost evs: seq<Event>)
      requires Valid() && InLoopCode(Abs())
      modifies this`pendingFunctors, this`counter, this`noticed, this`pushed
      ensures Valid() && Abs() == Run(old(Abs()), evs) && phase == old(phase)
      ensures pendingFunctors == old(pendingFunctors) + Functors(pushes)
      ensures !callingPendingFunctors && AllInLoop(pushes) ==> counter == old(counter)
    {
      ghost var before := Abs();
      evs := [];
      for i := 0 to |pushes|
        invariant Valid() && phase == before.phase
        invariant !callingPendingFunctors && AllInLoop(pushes) ==> counter == before.counter
        invariant Abs() == Run(before, evs)
        invariant pendingFunctors == before.pending + Functors(pushes[..i])
      {
        assert pushes[..i + 1][..i] == pushes[..i];
        ghost var more := QueueInLoop(pushes[i].f, pushes[i].inLoop, 0);
        RunOfConcatenation(before, evs, more);
        evs := evs + more;
      }
      assert pushes[..|pushes|] == pushes;
    }

    /** One turn of the loop over the batch: the functor runs while it and other threads queue. */
    method RunNext(f: Functor, ghost rest: seq<Functor>, pushes: seq<Queueing>) returns (ghost evs: seq<Event>)
      requires Valid() && phase == Draining([f] + rest)
      modifies this`executed, this`phase, this`pendingFunctors, this`counter, this`noticed, this`pushed
      ensures Valid() && phase == Draining(rest) && Abs() == Run(old(Abs()), evs)
      ensures executed == old(executed) + [f] && pendingFunctors == old(pendingFunctors) + Functors(pushes)
    {
      ghost var before := Abs();
      RunOfOne(before, RunFunctor);
      executed := executed + [f];
      phase := Draining(rest);
      assert ([f] + rest)[1..] == rest;
      assert Abs() == Run(before, [RunFunctor]);
      evs := QueueAll(pushes);
      RunOfConcatenation(before, [RunFunctor], evs);
      evs := [RunFunctor] + evs;
    }

    /** The loop over the swapped batch; `during(i)` is what is queued while functor `i` runs. */
    method RunBatch(functors: seq<Functor>, during: nat -> seq<Queueing>) returns (ghost evs: seq<Event>)
      requires Valid() && phase == Draining(functors)
      modifies this`executed, this`phase, this`pendingFunctors, this`counter, this`noticed, this`pushed
      ensures Valid() && phase == Draining([]) && Abs() == Run(old(Abs()), evs)
      ensures executed == old(executed) + functors
      ensures pendingFunctors == old(pendingFunctors) + QueuedDuring(during, |functors|)
    {
      ghost var before := Abs();
      evs := [];
      for i := 0 to |functors|
        invariant Valid() && phase == Draining(functors[i..])
        invariant Abs() == Run(before, evs)
        invariant executed == before.executed + functors[..i]
        invariant pendingFunctors == before.pending + QueuedDuring(during, i)
      {
        OneMore(before.executed, functors, i);
        Associates(before.pending, QueuedDuring(during, i), Functors(during(i)));
        ghost var more := RunNext(functors[i], functors[i + 1..], during(i));
        RunOfConcatenation(before, evs, more);
        evs := evs + more;
      }
      assert functors[..|functors|] == functors;
    }

    /** The swap under the lock. */
    method SwapOut() returns (functors: seq<Functor>)
      requires Valid() && phase == Handling(false)
      modifies this`callingPendingFunctors, this`pendingFunctors, this`phase
      ensures Valid() && phase == Draining(functors) && Abs() == Step(old(Abs()), SwapQueue)
      ensures functors == old(pendingFunctors) && pendingFunctors == []
    {
      functors := pendingFunctors;
      callingPendingFunctors := true;
      pendingFunctors := [];
      phase := Draining(functors);
    }

    /** `doPendingFunctors` up to its last line; `after` is queued when the batch has run. */
    method SwapAndRun(during: nat -> seq<Queueing>, after: seq<Queueing>) returns (ghost evs: seq<Event>)
      requires Valid() && phase == Handling(false)
      modifies this
      ensures Valid() && phase == Draining([]) && Abs() == Run(Step(old(Abs()), SwapQueue), evs)
      ensures executed == old(executed) + old(pendingFunctors)
      ensures pendingFunctors == QueuedDuring(during, |old(pendingFunctors)|) + Functors(after)
      ensures quit == old(quit)
    {
      var functors := SwapOut();
      ghost var swapped := Abs();
      evs := RunBatch(functors, during);
      ghost var more := QueueAll(after);
      RunOfConcatenation(swapped, evs, more);
      evs := evs + more;
    }

    /**
     One call runs exactly what was pending when it began, whatever its functors and other threads
     queue meanwhile, and leaves that, in order, for the next.
     */
    method DoPendingFunctors(during: nat -> seq<Queueing>, after: seq<Queueing>) returns (ghost evs: seq<Event>)
      requires Valid() && phase == Handling(false)
      modifies this
      ensures Valid() && Abs() == Run(old(Abs()), [SwapQueue] + evs + [EndDrain])
      ensures executed == old(executed) + old(pendingFunctors)
      ensures pendingFunctors == QueuedDuring(during, |old(pendingFunctors)|) + Functors(after)
      ensures phase == (if quit then Stopped else AtPoll) && quit == old(quit)
    {
      evs := SwapAndRun(during, after);
      RunOfDrain(old(Abs()), evs);
      callingPendingFunctors := false;
      phase := if quit then Stopped else AtPoll;
    }

    /** `poll` has returned, with the eventfd among the active channels exactly when it is non-zero. */
    method PollReturned() returns (wakeReady: bool)
      requires Valid() && phase == AtPoll
      modifies this`iteration, this`phase
      ensures Valid() && phase == Handling(wakeReady) && wakeReady == (counter > 0)
      ensures Abs() == Run(old(Abs()), [PollReturns])
    {
      RunOfOne(Abs(), PollReturns);
      wakeReady := counter > 0;
      iteration := iteration + 1;
      phase := Handling(wakeReady);
    }

    /** The active channels are handled: `early` is queued before the eventfd's turn, `late` after it. */
    method HandleChannels(wakeReady: bool, early: seq<Queueing>, late: seq<Queueing>) returns (ghost evs: seq<Event>)
      requires Valid() && phase == Handling(wakeReady)
      modifies this
      ensures Valid() && phase == Handling(false) && Abs() == Run(old(Abs()), evs)
      ensures pendingFunctors == old(pendingFunctors) + Functors(early) + Functors(late)
      ensures executed == old(executed) && quit == old(quit)
      ensures wakeReady && AllInLoop(late) ==> counter == 0
    {
      ghost var before := Abs();
      evs := QueueAll(early);
      if wakeReady {
        HandleRead();
        RunOfConcatenation(before, evs, [ReadEventfd]);
        evs := evs + [ReadEventfd];
      }
      ghost var more := QueueAll(late);
      RunOfConcatenation(before, evs, more);
      evs := evs + more;
    }

    /**
     One round of `loop()`: whatever was pending, and what the channels and other threads queued
     before the drain, has run in order, and what was queued during the drain is pending.
     */
    method Iterate(early: seq<Queueing>, late: seq<Queueing>, during: nat -> seq<Queueing>, after: seq<Queueing>)
        returns (ghost evs: seq<Event>)
      requires Valid() && phase == AtPoll
      modifies this
      ensures Valid() && Abs() == Run(old(Abs()), evs)
      ensures var taken := old(pendingFunctors) + Functors(early) + Functors(late);
              && executed == old(executed) + taken
              && pendingFunctors == QueuedDuring(during, |taken|) + Functors(after)
      ensures phase == (if quit then Stopped else AtPoll) && quit == old(quit)
    {
      ghost var before := Abs();
      var wakeReady := PollReturned();
      ghost var handled := HandleChannels(wakeReady, early, late);
      RunOfConcatenation(before, [PollReturns], handled);
      evs := [PollReturns] + handled;
      ghost var more := DoPendingFunctors(during, after);
      RunOfConcatenation(before, evs, [SwapQueue] + more + [EndDrain]);
      evs := evs + ([SwapQueue] + more + [EndDrain]);
    }
  }
}
