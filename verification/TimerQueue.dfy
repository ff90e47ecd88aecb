/**
 The timer queue of libel/net/timerqueue.cpp and libel/net/timer.cpp: a set ordered by expiration,
 a set of active timers for cancelling, and one kernel timer behind all of them. Times are
 microseconds of a single clock.
 */
module TimerQueues {
  import opened Bytes

  /** The sequence number of a timer; it stands for the object too. */
  type Id = nat

  /** An element of `timers_`: the key and the timer, in the order of `std::set`. */
  datatype Entry = Entry(when: int, id: Id)

  const MIN_DELAY: int := 100
  const MICROS_PER_SECOND: int := 1_000_000

  predicate Before(a: Entry, b: Entry) {
    a.when < b.when || (a.when == b.when && a.id < b.id)
  }

  ghost predicate Sorted(es: seq<Entry>) {
    forall i, j :: 0 <= i < j < |es| ==> Before(es[i], es[j])
  }

  /** `std::set::insert`; an element already present is not inserted again. */
  function InsertEntry(es: seq<Entry>, e: Entry): (r: seq<Entry>)
    requires Sorted(es)
    ensures Sorted(r) && (forall x :: x in r <==> x == e || x in es)
    ensures |r| == |es| + if e in es then 0 else 1
  {
    if es == [] then [e]
    else if es[0] == e then es
    else if Before(e, es[0]) then [e] + es
    else
      var rest := InsertEntry(es[1..], e);
      assert es == [es[0]] + es[1..];
      assert forall x <- rest :: Before(es[0], x);
      [es[0]] + rest
  }

  function EraseEntry(es: seq<Entry>, e: Entry): (r: seq<Entry>)
    requires Sorted(es)
    ensures Sorted(r) && (forall x :: x in r <==> x in es && x != e)
    ensures |r| == |es| - if e in es then 1 else 0
  {
    if es == [] then []
    else if es[0] == e then
      assert es == [e] + es[1..];
      assert forall x <- es[1..] :: Before(e, x);
      es[1..]
    else
      var rest := EraseEntry(es[1..], e);
      assert es == [es[0]] + es[1..];
      assert forall x <- rest :: Before(es[0], x);
      [es[0]] + rest
  }

  /** `lower_bound` of the sentry `(now + 1, nullptr)`: how many entries have expired. */
  function ExpiredCount(es: seq<Entry>, now: int): (k: nat)
    requires Sorted(es)
    ensures k <= |es|
    ensures forall i :: 0 <= i < |es| ==> (es[i].when <= now <==> i < k)
  {
    if es == [] || es[0].when > now then
      assert forall i :: 0 < i < |es| ==> Before(es[0], es[i]);
      0
    else
      assert forall i :: 0 <= i < |es| - 1 ==> es[1..][i] == es[i + 1];
      1 + ExpiredCount(es[1..], now)
  }

  function Due(es: seq<Entry>, now: int): seq<Entry>
    requires Sorted(es)
  {
    es[..ExpiredCount(es, now)]
  }

  function NotDue(es: seq<Entry>, now: int): seq<Entry>
    requires Sorted(es)
  {
    es[ExpiredCount(es, now)..]
  }

  /** The entries are those due at `now`, followed by the others. */
  ghost predicate SplitAt(es: seq<Entry>, now: int, expired: seq<Entry>, kept: seq<Entry>) {
    && es == expired + kept
    && (forall e <- expired :: e.when <= now) && (forall e <- kept :: e.when > now)
  }

  lemma SplitAtDue(es: seq<Entry>, now: int, expired: seq<Entry>, kept: seq<Entry>)
    requires Sorted(es)
    ensures SplitAt(es, now, expired, kept) <==> expired == Due(es, now) && kept == NotDue(es, now)
  {
    var n := |expired|;
    if es == expired + kept {
      assert n > 0 ==> es[n - 1] == expired[n - 1];
      assert kept != [] ==> es[n] == kept[0];
    }
  }

  /** Where the loop is: between callbacks, or inside `handleRead` with `rest` of the batch to run. */
  datatype Phase = Idle | Firing(now: int, expired: seq<Entry>, rest: seq<Entry>)

  /** A callback started: which timer, in the batch of which time. */
  datatype Fired = Fired(id: Id, batch: int)

  /**
   `expiration` and `interval` are the fields of the `Timer` objects created so far. `armed` is the
   deadline of the kernel timer, until it is read; `lastArm` is when it was last set.
   */
  datatype Queue = Queue(
    timers: seq<Entry>,
    active: set<Id>,
    canceling: set<Id>,
    phase: Phase,
    expiration: map<Id, int>,
    interval: map<Id, real>,
    added: set<Id>,
    clock: int,
    armed: Option<int>,
    lastArm: int,
    fired: seq<Fired>)

  predicate Repeats(q: Queue, id: Id)
    requires id in q.interval
  {
    q.interval[id] > 0.0
  }

  /** The interval in whole microseconds, as `addTime` truncates it. */
  function Delta(q: Queue, id: Id): int
    requires id in q.interval
  {
    (q.interval[id] * 1000000.0).Floor
  }

  // ---------- The kernel timer ----------

  datatype Timespec = Timespec(sec: int, nsec: int)

  function HowMuchTimeFromNow(when: int, now: int): Timespec {
    var us := if when - now < MIN_DELAY then MIN_DELAY else when - now;
    Timespec(us / MICROS_PER_SECOND, us % MICROS_PER_SECOND * 1000)
  }

  /** A well-formed time, never zero (which would disarm), for exactly the distance or the minimum. */
  lemma TimespecIsExact(when: int, now: int)
    ensures var ts := HowMuchTimeFromNow(when, now);
            && ts.sec >= 0 && 0 <= ts.nsec < 1_000_000_000 && ts != Timespec(0, 0)
            && ts.nsec % 1000 == 0
            && now + ts.sec * MICROS_PER_SECOND + ts.nsec / 1000 ==
               if when < now + MIN_DELAY then now + MIN_DELAY else when
  {
  }

  /** `resetTimerfd`. */
  function Armed(q: Queue, when: int): Queue {
    var ts := HowMuchTimeFromNow(when, q.clock);
    q.(armed := Some(q.clock + ts.sec * MICROS_PER_SECOND + ts.nsec / 1000), lastArm := q.clock)
  }

  // ---------- Operations ----------

  /** The assertions in `insert`. */
  predicate InsertHolds(q: Queue, id: Id) {
    id in q.expiration && Entry(q.expiration[id], id) !in q.timers && id !in q.active
  }

  predicate EarliestChanges(q: Queue, when: int) {
    q.timers == [] || when < q.timers[0].when
  }

  function Inserted(q: Queue, id: Id): Queue
    requires Sorted(q.timers) && InsertHolds(q, id)
  {
    q.(timers := InsertEntry(q.timers, Entry(q.expiration[id], id)), active := q.active + {id})
  }

  function AddedInLoop(q: Queue, id: Id): Queue
    requires Sorted(q.timers) && InsertHolds(q, id)
  {
    var r := Inserted(q, id).(added := q.added + {id});
    if EarliestChanges(q, q.expiration[id]) then Armed(r, q.expiration[id]) else r
  }

  /** The assertion in `cancelInLoop`: an active timer is found in `timers_` under its expiration. */
  predicate CancelHolds(q: Queue, id: Id) {
    id in q.active ==> id in q.expiration && Entry(q.expiration[id], id) in q.timers
  }

  function CancelledInLoop(q: Queue, id: Id): Queue
    requires Sorted(q.timers) && CancelHolds(q, id)
  {
    if id in q.active then
      q.(timers := EraseEntry(q.timers, Entry(q.expiration[id], id)), active := q.active - {id})
    else if q.phase.Firing? then q.(canceling := q.canceling + {id})
    else q
  }

  function Ids(es: seq<Entry>): set<Id> {
    set e | e in es :: e.id
  }

  /** Reading the descriptor; when it is not readable, the failure is logged and nothing changes. */
  function AfterRead(q: Queue): Option<int> {
    if q.armed.Some? && q.armed.value <= q.clock then None else q.armed
  }

  function FiringWith(q: Queue, expired: seq<Entry>, kept: seq<Entry>): Queue {
    q.(armed := AfterRead(q),
       timers := kept,
       active := q.active - Ids(expired),
       canceling := {},
       phase := Firing(q.clock, expired, expired))
  }

  /**
   `handleRead` up to the first callback: read the descriptor, `getExpired`, forget old cancels. The
   descriptor may have been set again, by a callback of the same round, since poll found it readable.
   */
  function FiringBegun(q: Queue): Queue
    requires Sorted(q.timers)
  {
    FiringWith(q, Due(q.timers, q.clock), NotDue(q.timers, q.clock))
  }

  predicate Restarts(q: Queue, id: Id) {
    id in q.interval && Repeats(q, id) && id !in q.canceling
  }

  function Restarted(q: Queue, id: Id, now: int): Queue
    requires id in q.interval
  {
    q.(expiration := q.expiration[id := if Repeats(q, id) then now + Delta(q, id) else 0])
  }

  /** One round of the loop in `reset`; `None` if an assertion in `insert` fails. */
  function ReinsertedOne(q: Queue, id: Id, now: int): (r: Option<Queue>)
    requires Sorted(q.timers)
    ensures r.Some? ==> Sorted(r.value.timers)
  {
    if !Restarts(q, id) then Some(q)
    else
      var next := Restarted(q, id, now);
      if InsertHolds(next, id) then Some(Inserted(next, id)) else None
  }

  function Reinserted(q: Queue, expired: seq<Entry>, now: int): (r: Option<Queue>)
    requires Sorted(q.timers)
    ensures r.Some? ==> Sorted(r.value.timers)
    decreases |expired|
  {
    if expired == [] then Some(q)
    else
      var next := ReinsertedOne(q, expired[0].id, now);
      if next.Some? then Reinserted(next.value, expired[1..], now) else None
  }

  /** `reset` after its loop: set the kernel timer for the first entry, if its time is valid. */
  function Rearmed(q: Queue): Queue {
    if q.timers != [] && q.timers[0].when > 0 then Armed(q, q.timers[0].when) else q
  }

  // ---------- Runs ----------

  datatype Event =
    | Create(id: Id, when: int, interval: real)   // addTimer makes the Timer object
    | Add(id: Id)                                 // and its functor reaches addTimerInLoop
    | Cancel(id: Id)
    | Tick(micros: nat)
    | BeginFire
    | RunCallback
    | EndFire

  predicate Enabled(q: Queue, ev: Event) {
    match ev
    case Create(id, _, _) => id !in q.expiration
    case Add(id) => id in q.expiration && id !in q.added
    case Cancel(_) => true
    case Tick(_) => true
    case BeginFire => q.phase == Idle
    case RunCallback => q.phase.Firing? && q.phase.rest != []
    case EndFire => q.phase.Firing? && q.phase.rest == []
  }

  /** `None` when one of the source's assertions fails. */
  function Step(q: Queue, ev: Event): (r: Option<Queue>)
    requires Sorted(q.timers) && Enabled(q, ev)
    ensures r.Some? ==> Sorted(r.value.timers)
  {
    match ev
    case Create(id, when, interval) =>
      Some(q.(expiration := q.expiration[id := when], interval := q.interval[id := interval]))
    case Add(id) => if InsertHolds(q, id) then Some(AddedInLoop(q, id)) else None
    case Cancel(id) => if CancelHolds(q, id) then Some(CancelledInLoop(q, id)) else None
    case Tick(micros) => Some(q.(clock := q.clock + micros))
    case BeginFire =>
      if Ids(Due(q.timers, q.clock)) <= q.active then Some(FiringBegun(q)) else None
    case RunCallback =>
      var rest := q.phase.rest;
      Some(q.(fired := q.fired + [Fired(rest[0].id, q.phase.now)], phase := q.phase.(rest := rest[1..])))
    case EndFire =>
      var r := Reinserted(q.(phase := Idle), q.phase.expired, q.phase.now);
      if r.Some? then Some(Rearmed(r.value)) else None
  }

  function Run(q: Queue, evs: seq<Event>): (r: Option<Queue>)
    requires Sorted(q.timers)
    ensures r.Some? ==> Sorted(r.value.timers)
    decreases |evs|
  {
    if evs == [] then Some(q)
    else if !Enabled(q, evs[0]) then Run(q, evs[1..])
    else
      var next := Step(q, evs[0]);
      if next.Some? then Run(next.value, evs[1..]) else None
  }

  function Start(clock: int): Queue {
    Queue([], {}, {}, Idle, map[], map[], {}, clock, None, 0, [])
  }

  // ---------- The two sets describe the same timers ----------

  ghost predicate Indexed(q: Queue) {
    && Sorted(q.timers)
    && (forall e <- q.timers :: e.id in q.active && e.id in q.expiration && q.expiration[e.id] == e.when)
    && (forall id <- q.active :: id in q.expiration && Entry(q.expiration[id], id) in q.timers)
    && q.active <= q.added <= q.expiration.Keys == q.interval.Keys
  }

  /** Entries that have left both sets and still carry their timer's expiration. */
  ghost predicate Outstanding(q: Queue, es: seq<Entry>) {
    forall e <- es :: e.id in q.added && e.id !in q.active && e.id in q.expiration && q.expiration[e.id] == e.when
  }

  ghost predicate BatchApart(q: Queue) {
    q.phase.Firing? ==>
      var (now, expired, rest) := (q.phase.now, q.phase.expired, q.phase.rest);
      && 0 < now <= q.clock && Sorted(expired)
      && |rest| <= |expired| && rest == expired[|expired| - |rest|..]
      && Outstanding(q, expired) && (forall e <- expired :: e.when <= now)
  }

  ghost predicate Consistent(q: Queue) {
    Indexed(q) && BatchApart(q) && q.clock > 0
  }

  /** Same number of elements, as the source asserts before and after every operation. */
  lemma {:induction false} SameSize(es: seq<Entry>, ids: set<Id>)
    requires Sorted(es) && Ids(es) == ids
    requires forall a, b :: a in es && b in es && a.id == b.id ==> a == b
    ensures |es| == |ids|
  {
    if es == [] {
    } else {
      var rest := es[1..];
      assert es == [es[0]] + rest;
      assert forall x <- rest :: Before(es[0], x);
      assert Ids(rest) == ids - {es[0].id};
      SameSize(rest, ids - {es[0].id});
    }
  }

  lemma SizesAgree(q: Queue)
    requires Indexed(q)
    ensures |q.timers| == |q.active|
  {
    assert Ids(q.timers) == q.active by {
      forall id | id in q.active
        ensures id in Ids(q.timers)
      {
        assert Entry(q.expiration[id], id) in q.timers;
      }
    }
    SameSize(q.timers, q.active);
  }

  lemma AddKeepsIndex(q: Queue, id: Id)
    requires Indexed(q) && Enabled(q, Add(id))
    ensures InsertHolds(q, id) && Indexed(AddedInLoop(q, id))
  {
  }

  lemma CancelKeepsIndex(q: Queue, id: Id)
    requires Indexed(q)
    ensures CancelHolds(q, id) && Indexed(CancelledInLoop(q, id))
  {
  }

  lemma CutInOrder(es: seq<Entry>, k: nat)
    requires Sorted(es) && k <= |es|
    ensures es == es[..k] + es[k..] && Sorted(es[..k]) && Sorted(es[k..])
    ensures forall a, b :: a in es[..k] && b in es[k..] ==> Before(a, b)
  {
  }

  lemma SplitIsSorted(es: seq<Entry>, now: int, expired: seq<Entry>, kept: seq<Entry>)
    requires Sorted(es) && SplitAt(es, now, expired, kept)
    ensures Sorted(expired) && Sorted(kept)
    ensures forall e <- es :: e in expired <==> e.when <= now
  {
    CutInOrder(es, |expired|);
    assert expired == es[..|expired|] && kept == es[|expired|..];
    assert forall e <- es :: e in expired || e in kept;
  }

  lemma SplitIds(q: Queue, expired: seq<Entry>, kept: seq<Entry>)
    requires Indexed(q) && SplitAt(q.timers, q.clock, expired, kept)
    ensures Ids(expired) <= q.active && q.active - Ids(expired) == Ids(kept)
  {
    forall e | e in expired
      ensures e in q.timers
    {
    }
    forall e | e in kept
      ensures e in q.timers && e.id !in Ids(expired)
    {
      assert e in q.timers;
      forall x | x in expired
        ensures x.id != e.id
      {
        assert x in q.timers;
      }
    }
    forall id | id in q.active - Ids(expired)
      ensures id in Ids(kept)
    {
      assert Entry(q.expiration[id], id) in q.timers;
    }
  }

  lemma FiringKeepsIndex(q: Queue, expired: seq<Entry>, kept: seq<Entry>)
    requires Indexed(q) && SplitAt(q.timers, q.clock, expired, kept)
    ensures Indexed(FiringWith(q, expired, kept))
  {
    SplitIsSorted(q.timers, q.clock, expired, kept);
    SplitIds(q, expired, kept);
    assert forall e <- kept :: e in q.timers;
  }

  lemma FiringIsApart(q: Queue, expired: seq<Entry>, kept: seq<Entry>)
    requires Indexed(q) && q.clock > 0 && SplitAt(q.timers, q.clock, expired, kept)
    ensures BatchApart(FiringWith(q, expired, kept))
  {
    SplitIsSorted(q.timers, q.clock, expired, kept);
    assert forall e <- expired :: e in q.timers && e.id in Ids(expired);
  }

  /** `getExpired` takes out exactly the timers that are due, in order of expiration. */
  lemma ExpiryTakesDue(q: Queue)
    requires Consistent(q)
    ensures var d := FiringBegun(q);
            && Ids(Due(q.timers, q.clock)) <= q.active
            && d.phase.expired + d.timers == q.timers
            && (forall e <- q.timers :: e in d.phase.expired <==> e.when <= q.clock)
            && (forall e <- d.timers :: e.when > q.clock)
            && d.active == Ids(d.timers)
            && Consistent(d)
  {
    var expired, kept := Due(q.timers, q.clock), NotDue(q.timers, q.clock);
    SplitAtDue(q.timers, q.clock, expired, kept);
    SplitIsSorted(q.timers, q.clock, expired, kept);
    SplitIds(q, expired, kept);
    FiringKeepsIndex(q, expired, kept);
    FiringIsApart(q, expired, kept);
  }

  /** What the loop in `reset` may rely on about the entries it still has to look at. */
  ghost predicate Resettable(q: Queue, todo: seq<Entry>) {
    Indexed(q) && Sorted(todo) && Outstanding(q, todo)
  }

  /** Which timers the loop puts back. */
  ghost function Returning(q: Queue, todo: seq<Entry>): set<Id> {
    set id | id in Ids(todo) && Restarts(q, id)
  }

  ghost predicate PutBack(q: Queue, todo: seq<Entry>, now: int, d: Queue) {
    && Indexed(d)
    && d.active == q.active + Returning(q, todo)
    && d.expiration.Keys == q.expiration.Keys
    && (forall id <- q.expiration ::
          d.expiration[id] ==
          if id in Returning(q, todo) && id in q.interval then now + Delta(q, id) else q.expiration[id])
    && d == q.(timers := d.timers, active := d.active, expiration := d.expiration)
  }

  lemma ReturningSplits(q: Queue, todo: seq<Entry>)
    requires todo != []
    ensures Returning(q, todo) ==
            (if Restarts(q, todo[0].id) then {todo[0].id} else {}) + Returning(q, todo[1..])
  {
    assert todo == [todo[0]] + todo[1..];
    assert Ids(todo) == {todo[0].id} + Ids(todo[1..]);
  }

  lemma PutBackOneMore(q: Queue, todo: seq<Entry>, now: int, d: Queue)
    requires Resettable(q, todo) && todo != [] && Restarts(q, todo[0].id)
    requires InsertHolds(Restarted(q, todo[0].id, now), todo[0].id)
    requires PutBack(Inserted(Restarted(q, todo[0].id, now), todo[0].id), todo[1..], now, d)
    requires todo[0].id !in Ids(todo[1..])
    ensures PutBack(q, todo, now, d)
  {
    var mid := Inserted(Restarted(q, todo[0].id, now), todo[0].id);
    ReturningSplits(q, todo);
    assert Returning(mid, todo[1..]) == Returning(q, todo[1..]);
  }

  /** Among entries that carry their timers' expirations, no timer occurs twice. */
  lemma FirstIsAlone(es: seq<Entry>, expiration: map<Id, int>)
    requires es != [] && Sorted(es) && forall e <- es :: e.id in expiration && expiration[e.id] == e.when
    ensures Sorted(es[1..]) && es[0].id !in Ids(es[1..])
    ensures Ids(es) == {es[0].id} + Ids(es[1..])
  {
    assert es == [es[0]] + es[1..];
    forall x | x in es[1..]
      ensures x.id != es[0].id
    {
      assert x in es && Before(es[0], x);
    }
  }

  lemma ReinsertOneHolds(q: Queue, todo: seq<Entry>, now: int)
    requires Resettable(q, todo) && todo != [] && Restarts(q, todo[0].id) && todo[0].id !in Ids(todo[1..])
    ensures InsertHolds(Restarted(q, todo[0].id, now), todo[0].id)
    ensures Resettable(Inserted(Restarted(q, todo[0].id, now), todo[0].id), todo[1..])
  {
    var id := todo[0].id;
    var next := Restarted(q, id, now);
    assert Entry(next.expiration[id], id) !in q.timers;
    assert forall e <- todo[1..] :: e in todo && e.id in Ids(todo[1..]);
  }

  lemma {:induction false} ReinsertPutsBack(q: Queue, todo: seq<Entry>, now: int)
    requires Resettable(q, todo)
    ensures var r := Reinserted(q, todo, now); r.Some? && PutBack(q, todo, now, r.value)
    decreases |todo|
  {
    if todo == [] {
    } else {
      var e, rest := todo[0], todo[1..];
      FirstIsAlone(todo, q.expiration);
      if !Restarts(q, e.id) {
        ReturningSplits(q, todo);
        ReinsertPutsBack(q, rest, now);
      } else {
        ReinsertOneHolds(q, todo, now);
        var mid := Inserted(Restarted(q, e.id, now), e.id);
        ReinsertPutsBack(mid, rest, now);
        PutBackOneMore(q, todo, now, Reinserted(mid, rest, now).value);
      }
    }
  }

  lemma EndFirePutsBack(q: Queue)
    requires Consistent(q) && Enabled(q, EndFire)
    ensures var r := Reinserted(q.(phase := Idle), q.phase.expired, q.phase.now);
            && r.Some? && PutBack(q.(phase := Idle), q.phase.expired, q.phase.now, r.value)
            && Step(q, EndFire) == Some(Rearmed(r.value))
  {
    ReinsertPutsBack(q.(phase := Idle), q.phase.expired, q.phase.now);
  }

  lemma AddKeepsConsistent(q: Queue, id: Id)
    requires Consistent(q) && Enabled(q, Add(id))
    ensures InsertHolds(q, id) && Consistent(AddedInLoop(q, id))
  {
    AddKeepsIndex(q, id);
  }

  lemma CancelKeepsConsistent(q: Queue, id: Id)
    requires Consistent(q)
    ensures CancelHolds(q, id) && Consistent(CancelledInLoop(q, id))
  {
    CancelKeepsIndex(q, id);
  }

  lemma CreateKeepsConsistent(q: Queue, id: Id, when: int, interval: real)
    requires Consistent(q) && id !in q.expiration
    ensures Consistent(q.(expiration := q.expiration[id := when], interval := q.interval[id := interval]))
  {
  }

  /** No assertion of the source ever fails, and every step keeps the sets in agreement. */
  lemma StepKeepsConsistent(q: Queue, ev: Event)
    requires Consistent(q) && Enabled(q, ev)
    ensures Step(q, ev).Some? && Consistent(Step(q, ev).value)
  {
    match ev {
      case Create(id, when, interval) => CreateKeepsConsistent(q, id, when, interval);
      case Add(id) => AddKeepsConsistent(q, id);
      case Cancel(id) => CancelKeepsConsistent(q, id);
      case Tick(_) =>
      case BeginFire => ExpiryTakesDue(q);
      case RunCallback =>
      case EndFire => EndFirePutsBack(q);
    }
  }

  lemma {:induction false} RunKeepsConsistent(q: Queue, evs: seq<Event>)
    requires Consistent(q)
    ensures Run(q, evs).Some? && Consistent(Run(q, evs).value)
    decreases |evs|
  {
    if evs == [] {
    } else {
      if Enabled(q, evs[0]) {
        StepKeepsConsistent(q, evs[0]);
        RunKeepsConsistent(Step(q, evs[0]).value, evs[1..]);
      } else {
        RunKeepsConsistent(q, evs[1..]);
      }
    }
  }

  /**
   From an empty queue, over every run of adds, cancels, expiries and callbacks: every assertion
   holds, and `timers_` and `activeTimers_` hold the same timers, each once, under its expiration.
   */
  lemma SetsDescribeSameTimers(clock: int, evs: seq<Event>)
    requires clock > 0
    ensures var r := Run(Start(clock), evs);
            && r.Some? && Indexed(r.value) && |r.value.timers| == |r.value.active|
            && r.value.active == Ids(r.value.timers)
  {
    RunKeepsConsistent(Start(clock), evs);
    var q := Run(Start(clock), evs).value;
    SizesAgree(q);
    assert forall id <- q.active :: Entry(q.expiration[id], id) in q.timers;
  }

  // ---------- One kernel timer covers them all ----------

  /** Between callbacks; and inside a batch, what an entry with a non-positive time relies on. */
  ghost predicate Covered(q: Queue) {
    q.timers != [] ==>
      if q.phase == Idle then q.armed.Some? && q.armed.value <= Max(q.timers[0].when, q.lastArm + MIN_DELAY)
      else q.timers[0].when <= 0 ==> q.armed.Some? && q.armed.value <= q.lastArm + MIN_DELAY
  }

  lemma ArmedDeadline(q: Queue, when: int)
    ensures Armed(q, when) == q.(armed := Some(Max(when, q.clock + MIN_DELAY)), lastArm := q.clock)
  {
    TimespecIsExact(when, q.clock);
  }

  lemma FirstIsLeast(es: seq<Entry>, e: Entry)
    requires Sorted(es) && e in es
    ensures es[0].when <= e.when
  {
  }

  lemma AddKeepsCovered(q: Queue, id: Id)
    requires Consistent(q) && Covered(q) && Enabled(q, Add(id)) && InsertHolds(q, id)
    ensures Covered(AddedInLoop(q, id))
  {
    var d, when := AddedInLoop(q, id), q.expiration[id];
    ArmedDeadline(Inserted(q, id).(added := q.added + {id}), when);
    FirstIsLeast(d.timers, Entry(when, id));
    if q.timers != [] {
      FirstIsLeast(d.timers, q.timers[0]);
      assert d.timers[0] in q.timers ==> q.timers[0].when <= d.timers[0].when;
    }
  }

  lemma CancelKeepsCovered(q: Queue, id: Id)
    requires Consistent(q) && Covered(q) && CancelHolds(q, id)
    ensures Covered(CancelledInLoop(q, id))
  {
    var d := CancelledInLoop(q, id);
    if d.timers != [] {
      FirstIsLeast(q.timers, d.timers[0]);
    }
  }

  /** After `reset`, whatever was put back: the clock is positive, so restarted times are valid. */
  lemma EndFireKeepsCovered(q: Queue)
    requires Consistent(q) && Covered(q) && Enabled(q, EndFire)
    ensures Step(q, EndFire).Some? && Covered(Step(q, EndFire).value)
  {
    EndFirePutsBack(q);
    var d := Reinserted(q.(phase := Idle), q.phase.expired, q.phase.now).value;
    if d.timers != [] {
      ArmedDeadline(d, d.timers[0].when);
      if d.timers[0].when <= 0 {
        var id := d.timers[0].id;
        assert q.interval[id] > 0.0 ==> Delta(q, id) >= 0;
        assert id in q.active;
        FirstIsLeast(q.timers, d.timers[0]);
      }
    }
  }

  lemma StepKeepsCovered(q: Queue, ev: Event)
    requires Consistent(q) && Covered(q) && Enabled(q, ev)
    ensures Step(q, ev).Some? && Covered(Step(q, ev).value)
  {
    StepKeepsConsistent(q, ev);
    match ev {
      case Add(id) => AddKeepsIndex(q, id); AddKeepsCovered(q, id);
      case Cancel(id) => CancelKeepsCovered(q, id);
      case BeginFire => ExpiryTakesDue(q);
      case EndFire => EndFireKeepsCovered(q);
      case _ =>
    }
  }

  lemma {:induction false} RunKeepsCovered(q: Queue, evs: seq<Event>)
    requires Consistent(q) && Covered(q)
    ensures Run(q, evs).Some? && Covered(Run(q, evs).value)
    decreases |evs|
  {
    if evs == [] {
    } else {
      if Enabled(q, evs[0]) {
        StepKeepsConsistent(q, evs[0]);
        StepKeepsCovered(q, evs[0]);
        RunKeepsCovered(Step(q, evs[0]).value, evs[1..]);
      } else {
        RunKeepsCovered(q, evs[1..]);
      }
    }
  }

  /**
   Over every run, between callbacks: while any timer is pending the kernel timer is set, for no
   later than the earliest expiration or a hundred microseconds after it was last set. Only the
   clock has to be positive; expirations need not be.
   */
  lemma PendingIsArmed(clock: int, evs: seq<Event>)
    requires clock > 0
    ensures var r := Run(Start(clock), evs);
            && r.Some?
            && (r.value.phase == Idle && r.value.timers != [] ==>
                  && r.value.armed.Some?
                  && forall e <- r.value.timers :: r.value.armed.value <= Max(e.when, r.value.lastArm + MIN_DELAY))
  {
    RunKeepsConsistent(Start(clock), evs);
    RunKeepsCovered(Start(clock), evs);
    var q := Run(Start(clock), evs).value;
    forall e | e in q.timers
      ensures q.timers[0].when <= e.when
    {
      FirstIsLeast(q.timers, e);
    }
  }

  // ---------- Cancelling ----------

  function CountFired(fired: seq<Fired>, id: Id): nat {
    if fired == [] then 0 else CountFired(fired[..|fired| - 1], id) + if fired[|fired| - 1].id == id then 1 else 0
  }

  /** Still ahead in the batch that is being run. */
  predicate Ahead(q: Queue, id: Id) {
    q.phase.Firing? && id in Ids(q.phase.rest)
  }

  /** Nothing can bring the timer back. */
  ghost predicate Retired(q: Queue, id: Id) {
    && id in q.added && id !in q.active
    && (q.phase.Firing? && id in Ids(q.phase.expired) ==> !Restarts(q, id))
  }

  lemma CancelRetires(q: Queue, id: Id)
    requires Consistent(q) && id in q.added
    ensures CancelHolds(q, id) && Retired(CancelledInLoop(q, id), id)
    ensures Ahead(CancelledInLoop(q, id), id) == Ahead(q, id)
  {
    CancelKeepsIndex(q, id);
  }

  lemma CountOneMore(fired: seq<Fired>, f: Fired, id: Id)
    ensures CountFired(fired + [f], id) == CountFired(fired, id) + if f.id == id then 1 else 0
  {
    assert (fired + [f])[..|fired|] == fired;
  }

  /** The next timer of the batch occurs in it once. */
  lemma RestSplits(q: Queue)
    requires BatchApart(q) && Enabled(q, RunCallback)
    ensures var rest := q.phase.rest;
            && rest[0] in q.phase.expired && rest[0].id !in Ids(rest[1..])
            && Ids(rest) == {rest[0].id} + Ids(rest[1..])
  {
    var rest, expired := q.phase.rest, q.phase.expired;
    assert forall i :: 0 <= i < |rest| ==> rest[i] == expired[|expired| - |rest| + i];
    FirstIsAlone(rest, q.expiration);
  }

  /** A callback that starts is no longer ahead. */
  lemma CallbackCountsOnce(q: Queue, id: Id)
    requires Consistent(q) && Enabled(q, RunCallback)
    ensures var d := Step(q, RunCallback).value;
            CountFired(d.fired, id) + (if Ahead(d, id) then 1 else 0)
            == CountFired(q.fired, id) + (if Ahead(q, id) then 1 else 0)
  {
    RestSplits(q);
    CountOneMore(q.fired, Fired(q.phase.rest[0].id, q.phase.now), id);
  }

  lemma StepKeepsRetired(q: Queue, ev: Event, id: Id)
    requires Consistent(q) && Enabled(q, ev) && Retired(q, id) && Step(q, ev).Some?
    ensures var d := Step(q, ev).value;
            && Retired(d, id)
            && CountFired(d.fired, id) + (if Ahead(d, id) then 1 else 0)
               <= CountFired(q.fired, id) + (if Ahead(q, id) then 1 else 0)
  {
    var d := Step(q, ev).value;
    match ev {
      case BeginFire => ExpiryTakesDue(q);
      case RunCallback => CallbackCountsOnce(q, id);
      case EndFire => EndFirePutsBack(q);
      case _ =>
    }
  }

  lemma {:induction false} RetiredFiresNoMore(q: Queue, evs: seq<Event>, id: Id)
    requires Consistent(q) && Retired(q, id)
    ensures var r := Run(q, evs);
            && r.Some?
            && CountFired(r.value.fired, id) <= CountFired(q.fired, id) + if Ahead(q, id) then 1 else 0
    decreases |evs|
  {
    if evs == [] {
    } else {
      if Enabled(q, evs[0]) {
        StepKeepsConsistent(q, evs[0]);
        StepKeepsRetired(q, evs[0], id);
        RetiredFiresNoMore(Step(q, evs[0]).value, evs[1..], id);
      } else {
        RetiredFiresNoMore(q, evs[1..], id);
      }
    }
  }

  /**
   Once `cancelInLoop` has run for a timer that was added, its callback starts at most once more,
   and only if it is still ahead in the batch being run; whoever cancels it, itself included.
   */
  lemma CancelledFiresNoMore(q: Queue, id: Id, evs: seq<Event>)
    requires Consistent(q) && id in q.added
    ensures CancelHolds(q, id) && Sorted(CancelledInLoop(q, id).timers)
    ensures var r := Run(CancelledInLoop(q, id), evs);
            && r.Some?
            && CountFired(r.value.fired, id) <= CountFired(q.fired, id) + if Ahead(q, id) then 1 else 0
  {
    CancelRetires(q, id);
    StepKeepsConsistent(q, Cancel(id));
    RetiredFiresNoMore(CancelledInLoop(q, id), evs, id);
  }

  // ---------- Cancelling too early ----------

  lemma {:induction false} RunOfConcatenation(q: Queue, xs: seq<Event>, ys: seq<Event>)
    requires Consistent(q)
    ensures Run(q, xs).Some? && Consistent(Run(q, xs).value)
    ensures Run(q, xs + ys) == Run(Run(q, xs).value, ys)
    decreases |xs|
  {
    RunKeepsConsistent(q, xs);
    if xs == [] {
      assert xs + ys == ys;
    } else {
      assert (xs + ys)[1..] == xs[1..] + ys;
      if Enabled(q, xs[0]) {
        StepKeepsConsistent(q, xs[0]);
        RunOfConcatenation(Step(q, xs[0]).value, xs[1..], ys);
      } else {
        RunOfConcatenation(q, xs[1..], ys);
      }
    }
  }

  lemma RunOfOne(q: Queue, ev: Event)
    requires Consistent(q) && Enabled(q, ev)
    ensures Step(q, ev).Some? && Consistent(Step(q, ev).value) && Run(q, [ev]) == Step(q, ev)
  {
    StepKeepsConsistent(q, ev);
    assert [ev][1..] == [];
    assert Run(Step(q, ev).value, []) == Step(q, ev);
  }

  /** The batch being run can always be finished. */
  lemma {:induction false} BatchEnds(q: Queue, id: Id) returns (evs: seq<Event>)
    requires Consistent(q) && Covered(q) && id in q.expiration && id !in q.added
    ensures Run(q, evs).Some?
    ensures var d := Run(q, evs).value;
            && d.phase == Idle && Consistent(d) && Covered(d)
            && id in d.expiration && id !in d.added && d.expiration[id] == q.expiration[id]
            && CountFired(d.fired, id) >= CountFired(q.fired, id)
    decreases if q.phase.Firing? then 1 + |q.phase.rest| else 0
  {
    if q.phase == Idle {
      evs := [];
    } else {
      var ev := if q.phase.rest != [] then RunCallback else EndFire;
      RunOfOne(q, ev);
      StepKeepsCovered(q, ev);
      var next := Step(q, ev).value;
      if ev == EndFire {
        EndFirePutsBack(q);
      } else {
        CallbackCountsOnce(q, id);
      }
      var more := BatchEnds(next, id);
      evs := [ev] + more;
      RunOfConcatenation(q, [ev], more);
    }
  }

  lemma {:induction false} CallbackComes(q: Queue, id: Id) returns (evs: seq<Event>)
    requires Consistent(q) && Ahead(q, id)
    ensures Run(q, evs).Some? && CountFired(Run(q, evs).value.fired, id) > CountFired(q.fired, id)
    decreases |q.phase.rest|
  {
    RunOfOne(q, RunCallback);
    var next := Step(q, RunCallback).value;
    assert next.fired[..|q.fired|] == q.fired;
    if q.phase.rest[0].id == id {
      evs := [RunCallback];
    } else {
      assert q.phase.rest == [q.phase.rest[0]] + next.phase.rest;
      var more := CallbackComes(next, id);
      evs := [RunCallback] + more;
      RunOfConcatenation(q, [RunCallback], more);
    }
  }

  lemma DueFires(q: Queue, id: Id) returns (evs: seq<Event>)
    requires Consistent(q) && Enabled(q, BeginFire) && id in q.active && q.expiration[id] <= q.clock
    ensures Run(q, evs).Some? && CountFired(Run(q, evs).value.fired, id) > CountFired(q.fired, id)
  {
    assert Entry(q.expiration[id], id) in q.timers;
    RunOfOne(q, BeginFire);
    ExpiryTakesDue(q);
    var d := FiringBegun(q);
    assert Entry(q.expiration[id], id) in d.phase.expired;
    evs := CallbackComes(d, id);
    RunOfConcatenation(q, [BeginFire], evs);
    evs := [BeginFire] + evs;
  }

  lemma ActiveFires(q: Queue, id: Id) returns (evs: seq<Event>)
    requires Consistent(q) && q.phase == Idle && q.armed.Some? && id in q.active
    ensures Run(q, evs).Some? && CountFired(Run(q, evs).value.fired, id) > CountFired(q.fired, id)
  {
    var wait := Tick(Max(0, Max(q.armed.value, q.expiration[id]) - q.clock));
    RunOfOne(q, wait);
    evs := DueFires(Step(q, wait).value, id);
    RunOfConcatenation(q, [wait], evs);
    evs := [wait] + evs;
  }

  /** A timer that reaches the queue in the end fires. */
  lemma AddedFires(q: Queue, id: Id) returns (evs: seq<Event>)
    requires Consistent(q) && Covered(q) && q.phase == Idle && Enabled(q, Add(id))
    ensures Run(q, evs).Some? && CountFired(Run(q, evs).value.fired, id) > CountFired(q.fired, id)
  {
    RunOfOne(q, Add(id));
    StepKeepsCovered(q, Add(id));
    var next := Step(q, Add(id)).value;
    assert Entry(q.expiration[id], id) in next.timers;
    evs := ActiveFires(next, id);
    RunOfConcatenation(q, [Add(id)], evs);
    evs := [Add(id)] + evs;
  }

  /**
   Cancelling keeps its promise on every later run exactly for timers already added. A cancel that
   overtakes the functor of `addTimer` is lost: the timer still fires.
   */
  lemma CancelIsKept(q: Queue, id: Id)
    requires Consistent(q) && Covered(q) && id in q.expiration
    ensures CancelHolds(q, id) && Sorted(CancelledInLoop(q, id).timers)
    ensures id in q.added <==>
            forall evs: seq<Event> ::
              var r := Run(CancelledInLoop(q, id), evs);
              r.Some? && CountFired(r.value.fired, id) <= CountFired(q.fired, id) + if Ahead(q, id) then 1 else 0
  {
    CancelKeepsIndex(q, id);
    var c := CancelledInLoop(q, id);
    if id in q.added {
      forall evs: seq<Event>
        ensures var r := Run(c, evs);
                r.Some? && CountFired(r.value.fired, id) <= CountFired(q.fired, id) + if Ahead(q, id) then 1 else 0
      {
        CancelledFiresNoMore(q, id, evs);
      }
    } else {
      StepKeepsConsistent(q, Cancel(id));
      CancelKeepsCovered(q, id);
      assert !Ahead(q, id);
      var first := BatchEnds(c, id);
      var second := AddedFires(Run(c, first).value, id);
      RunOfConcatenation(c, first, second);
      assert CountFired(Run(CancelledInLoop(q, id), first + second).value.fired, id) > CountFired(q.fired, id);
    }
  }

  /** A run from an empty queue in which a cancel overtakes the add, and the timer fires. */
  lemma CancelCanBeLost(clock: int, id: Id, interval: real)
    requires clock > 0
    ensures var r := Run(Start(clock), [Create(id, clock, interval), Cancel(id), Add(id), BeginFire, RunCallback]);
            r.Some? && r.value.fired == [Fired(id, clock)]
  {
    var evs := [Create(id, clock, interval), Cancel(id), Add(id), BeginFire, RunCallback];
    var created := Step(Start(clock), evs[0]).value;
    var q := AddedInLoop(created, id);
    var e := Entry(clock, id);
    assert q.timers == [e];
    SplitAtDue([e], clock, [e], []);
    var d := FiringBegun(q);
    assert evs[1..] == [Cancel(id), Add(id), BeginFire, RunCallback];
    assert evs[1..][1..] == [Add(id), BeginFire, RunCallback];
    assert evs[1..][1..][1..] == [BeginFire, RunCallback];
    assert [BeginFire, RunCallback][1..] == [RunCallback] && [RunCallback][1..] == [];
    assert Run(Start(clock), evs) == Run(created, evs[1..]) == Run(created, evs[1..][1..]);
    assert Run(created, evs[1..][1..]) == Run(q, [BeginFire, RunCallback]);
    assert Run(q, [BeginFire, RunCallback]) == Run(d, [RunCallback]);
    assert Run(d, [RunCallback]) == Run(Step(d, RunCallback).value, []);
  }

  // ---------- Timers that are not cancelled fire ----------

  /** Some `handleRead` of the run begins at or after `when`. */
  ghost predicate HandledAt(q: Queue, evs: seq<Event>, when: int)
    requires Sorted(q.timers)
    decreases |evs|
  {
    && evs != []
    && if Enabled(q, evs[0]) then
         || (evs[0] == BeginFire && when <= q.clock)
         || (Step(q, evs[0]).Some? && HandledAt(Step(q, evs[0]).value, evs[1..], when))
       else HandledAt(q, evs[1..], when)
  }

  /** More than `n` callbacks of the timer have started, or the next is in the batch being run. */
  predicate Served(q: Queue, id: Id, n: nat) {
    CountFired(q.fired, id) + (if Ahead(q, id) then 1 else 0) > n
  }

  predicate Pending(q: Queue, id: Id, when: int) {
    id in q.active && id in q.expiration && q.expiration[id] == when
  }

  lemma StepKeepsServed(q: Queue, ev: Event, id: Id, n: nat)
    requires Consistent(q) && Enabled(q, ev) && Served(q, id, n) && Step(q, ev).Some?
    ensures Served(Step(q, ev).value, id, n)
  {
    match ev {
      case RunCallback => CallbackCountsOnce(q, id);
      case EndFire => EndFirePutsBack(q);
      case _ =>
    }
  }

  lemma StepKeepsPending(q: Queue, ev: Event, id: Id, when: int)
    requires Consistent(q) && Enabled(q, ev) && ev != Cancel(id) && Pending(q, id, when) && Step(q, ev).Some?
    ensures Pending(Step(q, ev).value, id, when) || (ev == BeginFire && Ahead(Step(q, ev).value, id))
    ensures ev == BeginFire && when <= q.clock ==> Ahead(Step(q, ev).value, id)
  {
    if ev == BeginFire {
      ExpiryTakesDue(q);
      assert Entry(when, id) in q.timers;
    } else if ev == EndFire {
      EndFirePutsBack(q);
      assert id !in Ids(q.phase.expired);
    }
  }

  lemma {:induction false} StaysServed(q: Queue, evs: seq<Event>, id: Id, n: nat)
    requires Consistent(q) && Served(q, id, n)
    ensures Run(q, evs).Some? && Served(Run(q, evs).value, id, n)
    decreases |evs|
  {
    if evs == [] {
    } else if Enabled(q, evs[0]) {
      StepKeepsConsistent(q, evs[0]);
      StepKeepsServed(q, evs[0], id, n);
      StaysServed(Step(q, evs[0]).value, evs[1..], id, n);
    } else {
      StaysServed(q, evs[1..], id, n);
    }
  }

  lemma CountsUp(q: Queue, ev: Event, id: Id)
    requires Consistent(q) && Enabled(q, ev) && Step(q, ev).Some?
    ensures CountFired(q.fired, id) <= CountFired(Step(q, ev).value.fired, id)
  {
    if ev == RunCallback {
      CountOneMore(q.fired, Fired(q.phase.rest[0].id, q.phase.now), id);
    } else if ev == EndFire {
      EndFirePutsBack(q);
    }
  }

  /**
   On every run that does not cancel it, a pending timer has been called, or is about to be in the
   batch being run, once `handleRead` has begun at or after its expiration.
   */
  lemma {:induction false} DueTimerFires(q: Queue, evs: seq<Event>, id: Id)
    requires Consistent(q) && id in q.active && Cancel(id) !in evs
    requires id in q.expiration && HandledAt(q, evs, q.expiration[id])
    ensures Run(q, evs).Some?
    ensures var d := Run(q, evs).value;
            CountFired(d.fired, id) + (if Ahead(d, id) then 1 else 0) > CountFired(q.fired, id)
    decreases |evs|
  {
    var ev, when := evs[0], q.expiration[id];
    if !Enabled(q, ev) {
      DueTimerFires(q, evs[1..], id);
    } else {
      StepKeepsConsistent(q, ev);
      StepKeepsPending(q, ev, id, when);
      var next := Step(q, ev).value;
      CountsUp(q, ev, id);
      if Ahead(next, id) {
        StaysServed(next, evs[1..], id, CountFired(q.fired, id));
      } else {
        DueTimerFires(next, evs[1..], id);
      }
    }
  }

  // ---------- Repeating timers come back ----------

  /** One interval of a timer in microseconds. */
  function Period(q: Queue, id: Id): real
    requires id in q.interval
  {
    q.interval[id] * 1000000.0
  }

  /**
   After a batch, a timer of it is pending again if and only if its interval is positive and nobody
   cancelled it meanwhile; then at the last whole microsecond not past one interval from the batch.
   The other timers stay as they were.
   */
  lemma BatchComesBack(q: Queue, id: Id)
    requires Consistent(q) && Enabled(q, EndFire)
    ensures Step(q, EndFire).Some?
    ensures var d := Step(q, EndFire).value;
            && (id in Ids(q.phase.expired) ==>
                  && id in q.interval
                  && (id in d.active <==> q.interval[id] > 0.0 && id !in q.canceling)
                  && (id in d.active ==>
                        && id in d.expiration
                        && d.expiration[id] as real <= q.phase.now as real + Period(q, id)
                           < d.expiration[id] as real + 1.0))
            && (id !in Ids(q.phase.expired) ==>
                  && (id in d.active <==> id in q.active)
                  && (id in q.expiration ==> id in d.expiration && d.expiration[id] == q.expiration[id]))
  {
    EndFirePutsBack(q);
  }

  /** Pending, or in the batch being run and not cancelled in it. */
  predicate Lives(q: Queue, id: Id) {
    id in q.active || (q.phase.Firing? && id in Ids(q.phase.expired) && id !in q.canceling)
  }

  predicate IsRepeating(q: Queue, id: Id) {
    id in q.interval && q.interval[id] > 0.0
  }

  lemma StepKeepsAlive(q: Queue, ev: Event, id: Id)
    requires Consistent(q) && Enabled(q, ev) && Step(q, ev).Some?
    requires IsRepeating(q, id) && Lives(q, id) && ev != Cancel(id)
    ensures IsRepeating(Step(q, ev).value, id) && Lives(Step(q, ev).value, id)
  {
    match ev {
      case BeginFire => ExpiryTakesDue(q);
      case EndFire => EndFirePutsBack(q); BatchComesBack(q, id);
      case _ =>
    }
  }

  /**
   On every run that does not cancel it, a repeating timer once pending stays: it is pending whenever
   no batch is being run, however often it was called, and whatever was cancelled before.
   */
  lemma {:induction false} RepeatingTimerStays(q: Queue, evs: seq<Event>, id: Id)
    requires Consistent(q) && IsRepeating(q, id) && Lives(q, id) && Cancel(id) !in evs
    ensures Run(q, evs).Some?
    ensures var d := Run(q, evs).value; Lives(d, id) && (d.phase == Idle ==> id in d.active)
    decreases |evs|
  {
    if evs == [] {
    } else if Enabled(q, evs[0]) {
      StepKeepsConsistent(q, evs[0]);
      StepKeepsAlive(q, evs[0], id);
      RepeatingTimerStays(Step(q, evs[0]).value, evs[1..], id);
    } else {
      RepeatingTimerStays(q, evs[1..], id);
    }
  }

  // ---------- The kernel timer is set for a reason, and read ----------

  /** Strictly before everything pending. */
  predicate Earliest(q: Queue, when: int) {
    forall e <- q.timers :: when < e.when
  }

  /** The kernel timer set, now, for `when`: never in the past, and never earlier than needed. */
  function SetFor(when: int, now: int): Option<int> {
    Some(Max(when, now + MIN_DELAY))
  }

  lemma AddSets(q: Queue, id: Id)
    requires Consistent(q) && InsertHolds(q, id)
    ensures AddedInLoop(q, id).armed ==
            if Earliest(q, q.expiration[id]) then SetFor(q.expiration[id], q.clock) else q.armed
  {
    var when := q.expiration[id];
    ArmedDeadline(Inserted(q, id).(added := q.added + {id}), when);
    forall e | e in q.timers
      ensures q.timers[0].when <= e.when
    {
      FirstIsLeast(q.timers, e);
    }
    assert q.timers != [] ==> q.timers[0] in q.timers;
  }

  lemma RearmedSets(r: Queue)
    ensures Rearmed(r).timers == r.timers
    ensures Rearmed(r).armed ==
            if r.timers != [] && r.timers[0].when > 0 then SetFor(r.timers[0].when, r.clock) else r.armed
  {
    if r.timers != [] {
      ArmedDeadline(r, r.timers[0].when);
    }
  }

  lemma PutBackLeavesKernelTimer(q: Queue, todo: seq<Entry>, now: int, d: Queue)
    requires PutBack(q, todo, now, d)
    ensures d.armed == q.armed && d.clock == q.clock
  {
  }

  lemma EndFireSets(q: Queue)
    requires Consistent(q) && Enabled(q, EndFire)
    ensures Step(q, EndFire).Some?
    ensures var d := Step(q, EndFire).value;
            d.armed == if d.timers != [] && d.timers[0].when > 0 then SetFor(d.timers[0].when, q.clock) else q.armed
  {
    var idle := q.(phase := Idle);
    EndFirePutsBack(q);
    var r := Reinserted(idle, q.phase.expired, q.phase.now).value;
    PutBackLeavesKernelTimer(idle, q.phase.expired, q.phase.now, r);
    RearmedSets(r);
  }

  /**
   Which steps touch the kernel timer, and how: adding the strictly earliest timer sets it for that
   one, the end of a batch for the earliest pending one with a valid time, and reading it when it is
   readable clears it.
   */
  lemma SettingsExactly(q: Queue, ev: Event)
    requires Consistent(q) && Enabled(q, ev)
    ensures Step(q, ev).Some?
    ensures var d := Step(q, ev).value;
            d.armed ==
            match ev
            case Add(id) =>
              if id in q.expiration && Earliest(q, q.expiration[id]) then SetFor(q.expiration[id], q.clock) else q.armed
            case EndFire =>
              if d.timers != [] && d.timers[0].when > 0 then SetFor(d.timers[0].when, q.clock) else q.armed
            case BeginFire => if q.armed.Some? && q.armed.value <= q.clock then None else q.armed
            case _ => q.armed
  {
    StepKeepsConsistent(q, ev);
    match ev {
      case Add(id) => AddSets(q, id);
      case EndFire => EndFireSets(q);
      case _ =>
    }
  }

  predicate Readable(q: Queue) {
    q.armed.Some? && q.armed.value <= q.clock
  }

  function CountSettings(q: Queue, evs: seq<Event>): nat
    requires Sorted(q.timers)
    decreases |evs|
  {
    if evs == [] then 0
    else if !Enabled(q, evs[0]) then CountSettings(q, evs[1..])
    else
      var next := Step(q, evs[0]);
      if next.None? then 0
      else
        (if evs[0].Add? || evs[0] == EndFire then 1 else 0) + CountSettings(next.value, evs[1..])
  }

  /** How often `handleRead` found the descriptor readable. */
  function CountReads(q: Queue, evs: seq<Event>): nat
    requires Sorted(q.timers)
    decreases |evs|
  {
    if evs == [] then 0
    else if !Enabled(q, evs[0]) then CountReads(q, evs[1..])
    else
      var next := Step(q, evs[0]);
      if next.None? then 0
      else (if evs[0] == BeginFire && Readable(q) then 1 else 0) + CountReads(next.value, evs[1..])
  }

  function Setting(q: Queue): nat {
    if q.armed.Some? then 1 else 0
  }

  lemma StepSpendsSetting(q: Queue, ev: Event)
    requires Consistent(q) && Enabled(q, ev) && Step(q, ev).Some?
    ensures var d := Step(q, ev).value;
            && (if ev == BeginFire && Readable(q) then 1 else 0) + Setting(d)
               <= Setting(q) + (if ev.Add? || ev == EndFire then 1 else 0)
            && (ev == BeginFire ==> !Readable(d))
  {
    if ev == EndFire {
      EndFirePutsBack(q);
    }
  }

  /** Over every run the descriptor is readable at most once for every time the timer was set. */
  lemma {:induction false} NoSpinning(q: Queue, evs: seq<Event>)
    requires Consistent(q)
    ensures Run(q, evs).Some?
    ensures CountReads(q, evs) + Setting(Run(q, evs).value) <= Setting(q) + CountSettings(q, evs)
    decreases |evs|
  {
    if evs == [] {
    } else if Enabled(q, evs[0]) {
      StepKeepsConsistent(q, evs[0]);
      StepSpendsSetting(q, evs[0]);
      NoSpinning(Step(q, evs[0]).value, evs[1..]);
    } else {
      NoSpinning(q, evs[1..]);
    }
  }

  // ---------- Repeating timers keep their distance ----------

  /** What `Spaced` says about one callback. */
  ghost predicate Behind(q: Queue, f: Fired) {
    && f.id in q.added && f.id in q.interval && f.batch <= q.clock
    && (q.phase.Firing? ==> f.batch <= q.phase.now)
    && (f.id in q.active || Ahead(q, f.id) ==>
          f.id in q.expiration && Repeats(q, f.id) && q.expiration[f.id] >= f.batch + Delta(q, f.id))
  }

  ghost predicate Spaced(q: Queue) {
    && (forall i :: 0 <= i < |q.fired| ==> Behind(q, q.fired[i]))
    && (forall i, j :: 0 <= i < j < |q.fired| && q.fired[i].id == q.fired[j].id ==>
          q.fired[i].id in q.interval && Repeats(q, q.fired[i].id)
          && q.fired[j].batch >= q.fired[i].batch + Delta(q, q.fired[i].id))
  }

  lemma CallbackKeepsSpaced(q: Queue)
    requires Consistent(q) && Spaced(q) && Enabled(q, RunCallback)
    ensures Spaced(Step(q, RunCallback).value)
  {
    RestSplits(q);
    assert Ahead(q, q.phase.rest[0].id);
  }

  lemma EndFireKeepsBehind(q: Queue, f: Fired)
    requires Consistent(q) && Enabled(q, EndFire) && Behind(q, f)
    ensures Step(q, EndFire).Some? && Behind(Step(q, EndFire).value, f)
  {
    EndFirePutsBack(q);
  }

  lemma BeginFireKeepsBehind(q: Queue, f: Fired)
    requires Consistent(q) && Enabled(q, BeginFire) && Behind(q, f)
    ensures Behind(FiringBegun(q), f)
  {
    var k := ExpiredCount(q.timers, q.clock);
    CutInOrder(q.timers, k);
    assert forall e <- q.timers[..k] :: e in q.timers;
  }

  lemma AddKeepsBehind(q: Queue, id: Id, f: Fired)
    requires Consistent(q) && Enabled(q, Add(id)) && InsertHolds(q, id) && Behind(q, f)
    ensures Behind(AddedInLoop(q, id), f)
  {
  }

  lemma CancelKeepsBehind(q: Queue, id: Id, f: Fired)
    requires Consistent(q) && CancelHolds(q, id) && Behind(q, f)
    ensures Behind(CancelledInLoop(q, id), f)
  {
  }

  lemma CallbackKeepsBehind(q: Queue, f: Fired)
    requires Consistent(q) && Enabled(q, RunCallback) && Behind(q, f)
    ensures Behind(Step(q, RunCallback).value, f)
  {
    RestSplits(q);
  }

  lemma StepKeepsBehind(q: Queue, ev: Event, f: Fired)
    requires Consistent(q) && Enabled(q, ev) && Behind(q, f)
    ensures Step(q, ev).Some? && Behind(Step(q, ev).value, f)
  {
    match ev {
      case Create(id, when, interval) =>
      case Add(id) => AddKeepsIndex(q, id); AddKeepsBehind(q, id, f);
      case Cancel(id) => CancelKeepsIndex(q, id); CancelKeepsBehind(q, id, f);
      case Tick(_) =>
      case BeginFire => ExpiryTakesDue(q); BeginFireKeepsBehind(q, f);
      case RunCallback => CallbackKeepsBehind(q, f);
      case EndFire => EndFireKeepsBehind(q, f);
    }
  }

  ghost predicate IntervalsKept(q: Queue, d: Queue) {
    forall id <- q.interval :: id in d.interval && d.interval[id] == q.interval[id]
  }

  lemma NothingFired(q: Queue, ev: Event)
    requires Consistent(q) && Enabled(q, ev) && Step(q, ev).Some? && ev != RunCallback
    ensures Step(q, ev).value.fired == q.fired && IntervalsKept(q, Step(q, ev).value)
  {
    if ev == EndFire {
      EndFirePutsBack(q);
    }
  }

  lemma SpacedAsBefore(q: Queue, d: Queue)
    requires Spaced(q) && d.fired == q.fired && IntervalsKept(q, d)
    requires forall i :: 0 <= i < |d.fired| ==> Behind(d, d.fired[i])
    ensures Spaced(d)
  {
  }

  lemma StepKeepsSpaced(q: Queue, ev: Event)
    requires Consistent(q) && Spaced(q) && Enabled(q, ev)
    ensures Step(q, ev).Some? && Spaced(Step(q, ev).value)
  {
    StepKeepsConsistent(q, ev);
    if ev == RunCallback {
      CallbackKeepsSpaced(q);
    } else {
      var d := Step(q, ev).value;
      NothingFired(q, ev);
      forall i | 0 <= i < |d.fired|
        ensures Behind(d, d.fired[i])
      {
        StepKeepsBehind(q, ev, q.fired[i]);
      }
      SpacedAsBefore(q, d);
    }
  }

  lemma {:induction false} RunKeepsSpaced(q: Queue, evs: seq<Event>)
    requires Consistent(q) && Spaced(q)
    ensures Run(q, evs).Some? && Spaced(Run(q, evs).value)
    decreases |evs|
  {
    if evs == [] {
    } else {
      if Enabled(q, evs[0]) {
        StepKeepsConsistent(q, evs[0]);
        StepKeepsSpaced(q, evs[0]);
        RunKeepsSpaced(Step(q, evs[0]).value, evs[1..]);
      } else {
        RunKeepsSpaced(q, evs[1..]);
      }
    }
  }

  /** Over every run: a timer that runs twice repeats, and the two batches are an interval apart. */
  lemma RepeatsKeepDistance(clock: int, evs: seq<Event>, i: nat, j: nat)
    requires clock > 0 && Run(Start(clock), evs).Some?
    requires i < j < |Run(Start(clock), evs).value.fired|
    requires var fired := Run(Start(clock), evs).value.fired; fired[i].id == fired[j].id
    ensures var q := Run(Start(clock), evs).value;
            var id := q.fired[i].id;
            id in q.interval && Repeats(q, id) && q.fired[j].batch - q.fired[i].batch >= Delta(q, id)
  {
    RunKeepsSpaced(Start(clock), evs);
  }

  // ---------- The objects ----------

  lemma WholeMicros(now: int, x: real, e: int)
    requires e as real <= now as real + x < e as real + 1.0
    ensures e == now + x.Floor
  {
    var d := e - now;
    assert d as real <= x < d as real + 1.0;
  }

  class Timer {
    const sequence: Id
    var expiration: int
    const interval: real

    constructor (sequence: Id, when: int, interval: real)
      ensures this.sequence == sequence && expiration == when && this.interval == interval
    {
      this.sequence, expiration, this.interval := sequence, when, interval;
    }

    /** The last whole microsecond not past one interval from `now`; or no valid time at all. */
    method Restart(now: int)
      modifies this`expiration
      ensures interval > 0.0 ==>
        expiration as real <= now as real + interval * 1000000.0 < expiration as real + 1.0
      ensures interval <= 0.0 ==> expiration == 0
    {
      if interval > 0.0 {
        expiration := now + (interval * 1000000.0).Floor;
      } else {
        expiration := 0;
      }
    }
  }

  /** What code outside `handleRead` does to a queue, and time passing. */
  predicate IsAct(ev: Event) {
    ev.Create? || ev.Add? || ev.Cancel? || ev.Tick?
  }

  function Next(q: Queue, ev: Event): Queue
    requires Sorted(q.timers)
  {
    if Enabled(q, ev) && Step(q, ev).Some? then Step(q, ev).value else q
  }

  /** The callbacks of a batch, in order. */
  function CallsOf(es: seq<Entry>, now: int): seq<Fired> {
    if es == [] then [] else CallsOf(es[..|es| - 1], now) + [Fired(es[|es| - 1].id, now)]
  }

  lemma OneCallMore(fired: seq<Fired>, es: seq<Entry>, now: int, i: nat)
    requires i < |es|
    ensures es[i..] == [es[i]] + es[i + 1..]
    ensures (fired + CallsOf(es[..i], now)) + [Fired(es[i].id, now)] == fired + CallsOf(es[..i + 1], now)
  {
    assert es[..i + 1][..i] == es[..i];
  }

  lemma ActKeepsPhase(q: Queue, ev: Event)
    requires Sorted(q.timers) && IsAct(ev)
    ensures Next(q, ev).phase == q.phase && Next(q, ev).fired == q.fired
  {
  }

  /** Some run from an empty queue leads here. */
  ghost predicate Reached(q: Queue) {
    exists clock, evs :: clock > 0 && Run(Start(clock), evs) == Some(q)
  }

  lemma ReachedIsConsistent(q: Queue)
    requires Reached(q)
    ensures Consistent(q)
  {
    var clock, evs :| clock > 0 && Run(Start(clock), evs) == Some(q);
    RunKeepsConsistent(Start(clock), evs);
  }

  lemma ReachedFurther(q: Queue, evs: seq<Event>, d: Queue)
    requires Reached(q) && Sorted(q.timers) && Run(q, evs) == Some(d)
    ensures Reached(d)
  {
    var clock, before :| clock > 0 && Run(Start(clock), before) == Some(q);
    RunOfConcatenation(Start(clock), before, evs);
  }

  /** A run can be continued. */
  lemma RunThen(q: Queue, xs: seq<Event>, d: Queue, ys: seq<Event>)
    requires Reached(q) && Sorted(q.timers) && Run(q, xs) == Some(d)
    ensures Sorted(d.timers) && Run(q, xs + ys) == Run(d, ys)
  {
    ReachedIsConsistent(q);
    RunOfConcatenation(q, xs, ys);
  }

  lemma RunOfNext(q: Queue, ev: Event)
    requires Reached(q) && Sorted(q.timers)
    ensures Run(q, [ev]) == Some(Next(q, ev)) && Reached(Next(q, ev))
    ensures Enabled(q, ev) ==> Step(q, ev) == Some(Next(q, ev))
  {
    ReachedIsConsistent(q);
    if Enabled(q, ev) {
      RunOfOne(q, ev);
    } else {
      assert [ev][1..] == [];
    }
    ReachedFurther(q, [ev], Next(q, ev));
  }

  lemma BeginIsStep(q: Queue, expired: seq<Entry>, kept: seq<Entry>)
    requires Reached(q) && q.phase == Idle && Sorted(q.timers) && SplitAt(q.timers, q.clock, expired, kept)
    ensures Next(q, BeginFire) == FiringWith(q, expired, kept) && expired == Due(q.timers, q.clock)
  {
    ReachedIsConsistent(q);
    SplitAtDue(q.timers, q.clock, expired, kept);
    RunOfOne(q, BeginFire);
  }

  lemma EndIsStep(q: Queue)
    requires Reached(q) && Enabled(q, EndFire) && Sorted(q.timers)
    ensures var r := Reinserted(q.(phase := Idle), q.phase.expired, q.phase.now);
            r.Some? && Next(q, EndFire) == Rearmed(r.value)
    ensures forall e <- q.phase.expired :: e.id in q.expiration
    ensures Next(q, EndFire).phase == Idle && Next(q, EndFire).fired == q.fired
  {
    ReachedIsConsistent(q);
    EndFirePutsBack(q);
  }

  lemma ActHolds(q: Queue, ev: Event)
    requires Reached(q) && Sorted(q.timers)
    ensures ev.Add? && Enabled(q, ev) ==> InsertHolds(q, ev.id)
    ensures ev.Cancel? ==> CancelHolds(q, ev.id)
  {
    ReachedIsConsistent(q);
  }

  /** `objects` are the timers that exist, by sequence number; `clock` is what `TimeStamp::now()` returns. */
  class TimerQueue {
    var timers: seq<Entry>
    var activeTimers: set<Id>
    var cancelingTimers: set<Id>
    var callingExpiredTimers: bool
    var objects: map<Id, Timer>
    var clock: int
    var armed: Option<int>
    var lastArm: int
    ghost var phase: Phase
    var added: set<Id>
    ghost var fired: seq<Fired>

    ghost predicate Valid()
      reads this, objects.Values
    {
      && (forall id <- objects :: objects[id].sequence == id)
      && callingExpiredTimers == phase.Firing?
      && Sorted(timers)
    }

    constructor (clock: int)
      ensures Valid() && Abs() == Start(clock) && fresh(objects.Values)
    {
      timers, activeTimers, cancelingTimers, callingExpiredTimers := [], {}, {}, false;
      objects, this.clock, armed, lastArm := map[], clock, None, 0;
      phase, added, fired := Idle, {}, [];
    }

    ghost function Expirations(): map<Id, int>
      reads this`objects, objects.Values
    {
      map id | id in objects :: objects[id].expiration
    }

    ghost function Intervals(): map<Id, real>
      reads this`objects
    {
      map id | id in objects :: objects[id].interval
    }

    ghost function Abs(): Queue
      reads this, objects.Values
    {
      Queue(timers, activeTimers, cancelingTimers, phase, Expirations(), Intervals(),
            added, clock, armed, lastArm, fired)
    }

    method ResetTimerfd(expiration: int)
      modifies this`armed, this`lastArm
      ensures armed == Some(Max(expiration, clock + MIN_DELAY)) && lastArm == clock
    {
      TimespecIsExact(expiration, clock);
      var ts := HowMuchTimeFromNow(expiration, clock);
      armed, lastArm := Some(clock + ts.sec * MICROS_PER_SECOND + ts.nsec / 1000), clock;
    }

    method ReadTimerfd()
      modifies this`armed
      ensures armed == AfterRead(old(Abs()))
    {
      if armed.Some? && armed.value <= clock {
        armed := None;
      }
    }

    method Insert(timer: Timer) returns (earliestChanged: bool)
      requires Valid() && timer.sequence in objects && objects[timer.sequence] == timer
      requires InsertHolds(Abs(), timer.sequence)
      modifies this`timers, this`activeTimers
      ensures Valid() && Abs() == Inserted(old(Abs()), timer.sequence)
      ensures earliestChanged == EarliestChanges(old(Abs()), timer.expiration)
    {
      earliestChanged := false;
      var when := timer.expiration;
      if timers == [] || when < timers[0].when {
        earliestChanged := true;
      }
      timers := InsertEntry(timers, Entry(when, timer.sequence));
      activeTimers := activeTimers + {timer.sequence};
    }

    method AddTimerInLoop(timer: Timer)
      requires Valid() && timer.sequence in objects && objects[timer.sequence] == timer
      requires InsertHolds(Abs(), timer.sequence)
      modifies this`timers, this`activeTimers, this`armed, this`lastArm, this`added
      ensures Valid() && Abs() == AddedInLoop(old(Abs()), timer.sequence)
    {
      var earliestChanged := Insert(timer);
      added := added + {timer.sequence};
      ghost var inserted := Abs();
      ArmedDeadline(inserted, timer.expiration);
      if earliestChanged {
        ResetTimerfd(timer.expiration);
        assert Abs() == Armed(inserted, timer.expiration);
      }
    }

    method CancelInLoop(id: Id)
      requires Valid() && CancelHolds(Abs(), id)
      modifies this`timers, this`activeTimers, this`cancelingTimers
      ensures Valid() && Abs() == CancelledInLoop(old(Abs()), id)
    {
      if id in activeTimers {
        timers := EraseEntry(timers, Entry(objects[id].expiration, id));
        activeTimers := activeTimers - {id};
      } else if callingExpiredTimers {
        cancelingTimers := cancelingTimers + {id};
      }
    }

    method EraseActive(expired: seq<Entry>)
      modifies this`activeTimers
      ensures activeTimers == old(activeTimers) - Ids(expired)
    {
      for i := 0 to |expired|
        invariant activeTimers == old(activeTimers) - Ids(expired[..i])
      {
        assert Ids(expired[..i + 1]) == Ids(expired[..i]) + {expired[i].id};
        activeTimers := activeTimers - {expired[i].id};
      }
      assert expired[..|expired|] == expired;
    }

    /** Exactly the entries due at `now` leave both sets, in order of expiration. */
    method GetExpired(now: int) returns (expired: seq<Entry>)
      requires Sorted(timers)
      modifies this`timers, this`activeTimers
      ensures Sorted(timers) && SplitAt(old(timers), now, expired, timers)
      ensures activeTimers == old(activeTimers) - Ids(expired)
    {
      var end := ExpiredCount(timers, now);
      CutInOrder(timers, end);
      expired := timers[..end];
      timers := timers[end..];
      EraseActive(expired);
    }

    /** `handleRead` up to its first callback. */
    method BeginFiring() returns (expired: seq<Entry>)
      requires Valid() && phase == Idle
      modifies this`timers, this`activeTimers, this`cancelingTimers, this`callingExpiredTimers, this`armed, this`phase
      ensures Valid() && SplitAt(old(timers), clock, expired, timers)
      ensures Abs() == FiringWith(old(Abs()), expired, timers)
    {
      ReadTimerfd();
      expired := GetExpired(clock);
      callingExpiredTimers, cancelingTimers := true, {};
      phase := Firing(clock, expired, expired);
    }

    /** One round of the loop in `reset`. */
    method ResetOne(timer: Timer, now: int)
      requires Valid() && timer.sequence in objects && objects[timer.sequence] == timer
      requires ReinsertedOne(Abs(), timer.sequence, now).Some?
      modifies this`timers, this`activeTimers, timer`expiration
      ensures Valid() && Some(Abs()) == ReinsertedOne(old(Abs()), timer.sequence, now)
    {
      ghost var before := Abs();
      if timer.interval > 0.0 && timer.sequence !in cancelingTimers {
        timer.Restart(now);
        WholeMicros(now, timer.interval * 1000000.0, timer.expiration);
        assert Abs().expiration == before.expiration[timer.sequence := timer.expiration];
        assert Abs() == Restarted(before, timer.sequence, now);
        var _ := Insert(timer);
      }
    }

    method Reset(expired: seq<Entry>, now: int)
      requires Valid() && forall e <- expired :: e.id in objects
      requires Reinserted(Abs(), expired, now).Some?
      modifies this`timers, this`activeTimers, this`armed, this`lastArm, objects.Values`expiration
      ensures Valid() && Abs() == Rearmed(Reinserted(old(Abs()), expired, now).value)
    {
      ghost var goal := Reinserted(Abs(), expired, now);
      for i := 0 to |expired|
        invariant Valid()
        invariant Reinserted(Abs(), expired[i..], now) == goal
      {
        var timer := objects[expired[i].id];
        assert timer in objects.Values;
        assert expired[i..][0] == expired[i] && expired[i..][1..] == expired[i + 1..];
        ResetOne(timer, now);
      }
      if timers != [] && timers[0].when > 0 {
        ArmedDeadline(Abs(), timers[0].when);
        ResetTimerfd(timers[0].when);
      }
    }

    /** `addTimer` makes the object; its functor will bring it to `addTimerInLoop`. */
    method CreateTimer(id: Id, when: int, interval: real) returns (timer: Timer)
      requires Valid() && id !in objects
      modifies this`objects
      ensures Valid() && fresh(timer) && objects == old(objects)[id := timer]
      ensures Some(Abs()) == Step(old(Abs()), Create(id, when, interval))
    {
      ghost var before := Abs();
      timer := new Timer(id, when, interval);
      objects := objects[id := timer];
      assert Expirations() == before.expiration[id := when];
      assert Intervals() == before.interval[id := interval];
    }

    /** One thing that other code, or a callback, does to the queue. */
    method Act(ev: Event)
      requires Valid() && Reached(Abs()) && IsAct(ev)
      modifies this
      ensures Valid() && Abs() == Next(old(Abs()), ev)
      ensures fresh(objects.Values - old(objects.Values))
    {
      ActHolds(Abs(), ev);
      match ev {
        case Create(id, when, interval) =>
          if id !in objects {
            var timer := CreateTimer(id, when, interval);
            assert forall o <- objects.Values :: o in old(objects.Values) || o == timer;
          }
        case Add(id) =>
          if id in objects && id !in added {
            AddTimerInLoop(objects[id]);
          }
        case Cancel(id) => CancelInLoop(id);
        case Tick(micros) => clock := clock + micros;
      }
    }

    /** What a running callback does. */
    method ActAll(acts: seq<Event>)
      requires Valid() && Reached(Abs()) && forall ev <- acts :: IsAct(ev)
      modifies this
      ensures Valid() && Run(old(Abs()), acts) == Some(Abs()) && phase == old(phase) && fired == old(fired)
      ensures fresh(objects.Values - old(objects.Values))
    {
      ghost var before := Abs();
      for i := 0 to |acts|
        invariant Valid() && Reached(Abs()) && Run(before, acts[..i]) == Some(Abs())
        invariant phase == before.phase && fired == before.fired
        invariant fresh(objects.Values - old(objects.Values))
      {
        ghost var q := Abs();
        RunOfNext(q, acts[i]);
        RunThen(before, acts[..i], q, [acts[i]]);
        assert acts[..i] + [acts[i]] == acts[..i + 1];
        ActKeepsPhase(q, acts[i]);
        Act(acts[i]);
      }
      assert acts[..|acts|] == acts;
    }

    /** The next callback of the batch starts, and does `acts`. */
    method RunTimer(acts: seq<Event>)
      requires Valid() && Reached(Abs()) && Enabled(Abs(), RunCallback)
      requires forall ev <- acts :: IsAct(ev)
      modifies this
      ensures Valid() && Run(old(Abs()), [RunCallback] + acts) == Some(Abs())
      ensures phase == old(phase.(rest := phase.rest[1..]))
      ensures fired == old(fired + [Fired(phase.rest[0].id, phase.now)])
      ensures fresh(objects.Values - old(objects.Values))
    {
      ghost var before := Abs();
      RunOfNext(before, RunCallback);
      fired := fired + [Fired(phase.rest[0].id, phase.now)];
      phase := phase.(rest := phase.rest[1..]);
      ghost var called := Abs();
      assert called == Next(before, RunCallback);
      RunThen(before, [RunCallback], called, acts);
      ActAll(acts);
    }

    /** `handleRead` behind its last callback. */
    method EndFiring(expired: seq<Entry>, now: int)
      requires Valid() && Reached(Abs()) && phase == Firing(now, expired, [])
      modifies this, objects.Values`expiration
      ensures Valid() && Abs() == Next(old(Abs()), EndFire)
    {
      EndIsStep(Abs());
      callingExpiredTimers := false;
      phase := Idle;
      Reset(expired, now);
    }

    /** The callbacks of `handleRead`; `during(i)` is what callback `i` does. */
    method RunTimers(expired: seq<Entry>, now: int, during: nat -> seq<Event>) returns (ghost evs: seq<Event>)
      requires Valid() && Reached(Abs()) && phase == Firing(now, expired, expired)
      requires forall i: nat :: forall ev <- during(i) :: IsAct(ev)
      modifies this
      ensures Valid() && Run(old(Abs()), evs) == Some(Abs()) && phase == Firing(now, expired, [])
      ensures fired == old(fired) + CallsOf(expired, now)
      ensures fresh(objects.Values - old(objects.Values))
    {
      ghost var before := Abs();
      evs := [];
      for i := 0 to |expired|
        invariant Valid() && Reached(Abs()) && Run(before, evs) == Some(Abs())
        invariant phase == Firing(now, expired, expired[i..])
        invariant fired == before.fired + CallsOf(expired[..i], now)
        invariant fresh(objects.Values - old(objects.Values))
      {
        OneCallMore(before.fired, expired, now, i);
        ghost var q, more := Abs(), [RunCallback] + during(i);
        RunThen(before, evs, q, more);
        RunTimer(during(i));
        ReachedFurther(q, more, Abs());
        evs := evs + more;
      }
      assert expired[..|expired|] == expired;
    }

    /**
     The whole of `handleRead`: every timer due at its beginning is called once, in order of
     expiration, whatever the callbacks add and cancel.
     */
    method HandleRead(during: nat -> seq<Event>) returns (ghost evs: seq<Event>)
      requires Valid() && Reached(Abs()) && phase == Idle
      requires forall i: nat :: forall ev <- during(i) :: IsAct(ev)
      modifies this, objects.Values`expiration
      ensures Valid() && phase == Idle && Run(old(Abs()), [BeginFire] + (evs + [EndFire])) == Some(Abs())
      ensures fired == old(fired) + CallsOf(Due(old(timers), old(clock)), old(clock))
    {
      ghost var before := Abs();
      var now := clock;
      var expired := BeginFiring();
      ghost var begun := Abs();
      BeginIsStep(before, expired, timers);
      RunOfNext(before, BeginFire);
      evs := RunTimers(expired, now, during);
      ghost var ran := Abs();
      ReachedFurther(begun, evs, ran);
      RunOfNext(ran, EndFire);
      RunThen(begun, evs, ran, [EndFire]);
      RunThen(before, [BeginFire], begun, evs + [EndFire]);
      EndIsStep(ran);
      EndFiring(expired, now);
    }
  }
}
