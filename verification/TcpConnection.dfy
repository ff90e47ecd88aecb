/**
 The output path of libel/net/tcp_connection.cpp: direct writes, the backlog behind them, write
 interest and half-close, together with the functor queue through which other threads reach it.
 */
module TcpOutput {
  import opened Bytes
  import Buffers
  import opened Sequences

  datatype State = Connecting | Connected | Disconnecting | Disconnected

  /** What `write` on the socket answers; `Fatal` is EPIPE or ECONNRESET. */
  datatype WriteResult = Wrote(n: nat) | WouldBlock | Fatal | OtherError

  /** Callbacks that the connection hands to its loop. */
  datatype Notice = WriteComplete | HighWater(size: nat)

  const HIGH_WATER_MARK: nat := 64 * 1024 * 1024

  /**
   `reading` and `writing` are the interests of the connection's channel; `wire` is everything the
   socket has taken; `shut` says that the write half has been closed, and `closed` that `handleClose`
   has run.
   */
  datatype Conn = Conn(
    state: State,
    reading: bool,
    writing: bool,
    backlog: seq<Byte>,
    wire: seq<Byte>,
    shut: bool,
    closed: bool,
    notices: seq<Notice>)

  const NEW_CONN := Conn(Connecting, false, false, [], [], false, false, [])

  /** The kernel takes at most what it is offered, and refuses once the write half is closed. */
  predicate Possible(c: Conn, r: WriteResult, offered: nat) {
    && (r.Wrote? ==> r.n <= offered)
    && (c.shut ==> r == Fatal)
  }

  /** Nothing queued: the next message is offered to the socket directly. */
  predicate Idle(c: Conn) {
    !c.writing && c.backlog == []
  }

  function Established(c: Conn): Conn
    requires c.state == Connecting
  {
    c.(state := Connected, reading := true)
  }

  /** What the socket did not take goes behind the backlog. */
  function Queued(c: Conn, rest: seq<Byte>): Conn {
    var size := |c.backlog| + |rest|;
    c.(
      backlog := c.backlog + rest,
      writing := true,
      notices := c.notices + if |c.backlog| < HIGH_WATER_MARK <= size then [HighWater(size)] else [])
  }

  /** `sendInLoop`, with `r` the answer to the direct write if there is one. */
  function SentInLoop(c: Conn, msg: seq<Byte>, r: WriteResult): Conn
    requires Idle(c) ==> Possible(c, r, |msg|)
  {
    if c.state == Disconnected || (Idle(c) && r == Fatal) then c
    else
      var n := if Idle(c) && r.Wrote? then r.n else 0;
      var rest := msg[n..];
      var written := c.(wire := c.wire + msg[..n]);
      if rest != [] then Queued(written, rest)
      else if Idle(c) && r.Wrote? then written.(notices := c.notices + [WriteComplete])
      else written
  }

  function ShutInLoop(c: Conn): Conn {
    if c.writing then c else c.(shut := true)
  }

  function WriteHandled(c: Conn, r: WriteResult): Conn
    requires c.writing ==> Possible(c, r, |c.backlog|)
  {
    if !c.writing || !r.Wrote? || r.n == 0 then c
    else
      var sent := c.(wire := c.wire + c.backlog[..r.n], backlog := c.backlog[r.n..]);
      if sent.backlog != [] then sent
      else
        var done := sent.(writing := false, notices := c.notices + [WriteComplete]);
        if c.state == Disconnecting then ShutInLoop(done) else done
  }

  function Closed(c: Conn): Conn {
    c.(state := Disconnected, reading := false, writing := false, closed := true)
  }

  // ---------- The connection inside its loop ----------

  datatype Job = SendJob(msg: seq<Byte>) | ShutdownJob

  /**
   `batch` is what `doPendingFunctors` has swapped out and not yet run; `pending` is behind it.
   Other threads on their way: `sending` holds the messages of calls of `send` between their test of
   the state and their push; `tested` counts the calls of `shutdown` between their test and their
   change of the state, `marked` those between that change and their push.
   */
  datatype World = World(
    conn: Conn,
    batch: seq<Job>,
    pending: seq<Job>,
    sending: seq<seq<Byte>>,
    tested: nat,
    marked: nat)

  const START := World(NEW_CONN, [], [], [], 0, 0)

  datatype Event =
    | Establish
    | LoopSend(msg: seq<Byte>, r: WriteResult)   // by code running in the loop thread
    | LoopShutdown
    | TestSend(msg: seq<Byte>)                   // another thread's send looks at the state
    | PushSend(i: nat)                           // and queues its functor
    | TestShutdown                               // another thread's shutdown looks at the state,
    | SetState                                   // changes it
    | PushShutdown                               // and queues its functor
    | Swap                                       // doPendingFunctors takes the queue
    | RunJob(r: WriteResult)                     // and runs its next functor
    | Writable(r: WriteResult)                   // poll reports the socket writable
    | Close

  predicate Enabled(w: World, ev: Event) {
    match ev
    case Establish => w.conn.state == Connecting
    case LoopSend(msg, r) => Idle(w.conn) ==> Possible(w.conn, r, |msg|)
    case LoopShutdown => true
    case TestSend(_) => true
    case PushSend(i) => i < |w.sending|
    case TestShutdown => true
    case SetState => w.tested > 0
    case PushShutdown => w.marked > 0
    case Swap => w.batch == []
    case RunJob(r) =>
      w.batch != [] &&
      (w.batch[0].SendJob? && Idle(w.conn) ==> Possible(w.conn, r, |w.batch[0].msg|))
    case Writable(r) => w.batch == [] && (w.conn.writing ==> Possible(w.conn, r, |w.conn.backlog|))
    case Close => w.conn.state == Connected || w.conn.state == Disconnecting
  }

  function Step(w: World, ev: Event): World
    requires Enabled(w, ev)
  {
    var c := w.conn;
    match ev
    case Establish => w.(conn := Established(c))
    case LoopSend(msg, r) => if c.state == Connected then w.(conn := SentInLoop(c, msg, r)) else w
    case LoopShutdown =>
      if c.state == Connected then w.(conn := ShutInLoop(c.(state := Disconnecting))) else w
    case TestSend(msg) => if c.state == Connected then w.(sending := w.sending + [msg]) else w
    case PushSend(i) =>
      w.(sending := RemoveAt(w.sending, i), pending := w.pending + [SendJob(w.sending[i])])
    case TestShutdown => if c.state == Connected then w.(tested := w.tested + 1) else w
    case SetState => w.(conn := c.(state := Disconnecting), tested := w.tested - 1, marked := w.marked + 1)
    case PushShutdown => w.(marked := w.marked - 1, pending := w.pending + [ShutdownJob])
    case Swap => w.(batch := w.pending, pending := [])
    case RunJob(r) =>
      var after := match w.batch[0] case SendJob(msg) => SentInLoop(c, msg, r) case ShutdownJob => ShutInLoop(c);
      w.(conn := after, batch := w.batch[1..])
    case Writable(r) => w.(conn := WriteHandled(c, r))
    case Close => w.(conn := Closed(c))
  }

  /** Events that cannot happen in the current state are passed over. */
  function Next(w: World, ev: Event): World {
    if Enabled(w, ev) then Step(w, ev) else w
  }

  function Run(w: World, evs: seq<Event>): World
    decreases |evs|
  {
    if evs == [] then w else Run(Next(w, evs[0]), evs[1..])
  }

  lemma FirstEvent(w: World, ev: Event, rest: seq<Event>)
    ensures Run(w, [ev] + rest) == Run(Next(w, ev), rest)
  {
    assert ([ev] + rest)[1..] == rest;
  }

  lemma RunOfOne(w: World, ev: Event)
    ensures Run(w, [ev]) == Next(w, ev)
  {
    assert [ev][1..] == [];
  }

  lemma {:induction false} RunOfConcatenation(w: World, xs: seq<Event>, ys: seq<Event>)
    ensures Run(w, xs + ys) == Run(Run(w, xs), ys)
    decreases |xs|
  {
    if xs == [] {
      assert xs + ys == ys;
    } else {
      assert (xs + ys)[1..] == xs[1..] + ys;
      RunOfConcatenation(Next(w, xs[0]), xs[1..], ys);
    }
  }

  // ---------- The object ----------

  class TcpConnection {
    var state: State
    var reading: bool
    var writing: bool
    const outputBuffer: Buffers.Buffer
    var wire: seq<Byte>
    var shut: bool
    ghost var closed: bool
    var notices: seq<Notice>
    var batch: seq<Job>
    var pending: seq<Job>
    ghost var sending: seq<seq<Byte>>
    ghost var tested: nat
    ghost var marked: nat

    ghost predicate Valid()
      reads this, outputBuffer
    {
      outputBuffer.Valid()
    }

    ghost function Abs(): Conn
      requires Valid()
      reads this, outputBuffer
    {
      Conn(state, reading, writing, outputBuffer.Contents(), wire, shut, closed, notices)
    }

    /** The connection, the functors of its loop that are bound to it, and the threads on their way. */
    ghost function Place(): World
      requires Valid()
      reads this, outputBuffer
    {
      World(Abs(), batch, pending, sending, tested, marked)
    }

    constructor ()
      ensures Valid() && Place() == START && fresh(outputBuffer)
    {
      batch, pending, closed, sending, tested, marked := [], [], false, [], 0, 0;
      state, reading, writing, shut := Connecting, false, false, false;
      wire, notices := [], [];
      outputBuffer := new Buffers.Buffer();
    }

    method ConnectEstablished()
      requires Valid() && state == Connecting
      modifies this`state, this`reading
      ensures Valid() && Abs() == Established(old(Abs()))
    {
      state := Connected;
      reading := true;
    }

    method SendInLoop(msg: seq<Byte>, r: WriteResult)
      requires Valid() && (Idle(Abs()) ==> Possible(Abs(), r, |msg|))
      modifies this`wire, this`notices, this`writing, outputBuffer
      ensures Valid() && Abs() == SentInLoop(old(Abs()), msg, r)
    {
      if state == Disconnected {
        return;
      }
      var nwrote, fatalError := 0, false;
      if !writing && outputBuffer.ReadableBytes() == 0 {
        nwrote, fatalError := DirectWrite(msg, r);
      }
      if !fatalError && |msg| - nwrote > 0 {
        Queue(msg[nwrote..]);
      }
    }

    /** The part of `sendInLoop` that tries to write. */
    method DirectWrite(msg: seq<Byte>, r: WriteResult) returns (nwrote: nat, fatalError: bool)
      requires Valid() && (r.Wrote? ==> r.n <= |msg|)
      modifies this`wire, this`notices
      ensures Valid() && nwrote == (if r.Wrote? then r.n else 0) && fatalError == (r == Fatal)
      ensures wire == old(wire) + msg[..nwrote]
      ensures notices == old(notices) + if r == Wrote(|msg|) then [WriteComplete] else []
    {
      nwrote, fatalError := 0, false;
      if r.Wrote? {
        nwrote := r.n;
        wire := wire + msg[..nwrote];
        if |msg| - nwrote == 0 {
          notices := notices + [WriteComplete];
        }
      } else if r == Fatal {
        fatalError := true;
      }
    }

    /** The last part of `sendInLoop`. */
    method Queue(rest: seq<Byte>)
      requires Valid()
      modifies this`notices, this`writing, outputBuffer
      ensures Valid() && Abs() == Queued(old(Abs()), rest)
    {
      var oldLen := outputBuffer.ReadableBytes();
      if oldLen + |rest| >= HIGH_WATER_MARK && oldLen < HIGH_WATER_MARK {
        notices := notices + [HighWater(oldLen + |rest|)];
      }
      outputBuffer.Append(rest);
      writing := true;
    }

    /** The test of the state in `send`, made in another thread; `i` tells the calls on their way apart. */
    method StartSend(msg: seq<Byte>) returns (goOn: bool, ghost i: nat)
      requires Valid()
      modifies this`sending
      ensures Valid() && Place() == Next(old(Place()), TestSend(msg))
      ensures goOn == (state == Connected) && i == |old(sending)|
      ensures goOn ==> i < |sending| && sending[i] == msg
    {
      goOn, i := state == Connected, |sending|;
      if goOn {
        sending := sending + [msg];
      }
    }

    /** And its push, at any time after that. */
    method FinishSend(msg: seq<Byte>, ghost i: nat)
      requires Valid() && i < |sending| && sending[i] == msg
      modifies this`sending, this`pending
      ensures Valid() && Place() == Next(old(Place()), PushSend(i))
    {
      pending := pending + [SendJob(msg)];
      sending := RemoveAt(sending, i);
    }

    /** Called in the loop thread, or without interruption in another one; there `r` plays no part. */
    method Send(msg: seq<Byte>, inLoop: bool, r: WriteResult)
      requires Valid() && (inLoop && Idle(Abs()) ==> Possible(Abs(), r, |msg|))
      modifies this`wire, this`notices, this`writing, this`pending, this`sending, outputBuffer
      ensures Valid()
      ensures Place() ==
              Run(old(Place()), if inLoop then [LoopSend(msg, r)] else [TestSend(msg)] + [PushSend(|old(sending)|)])
    {
      ghost var before := Place();
      if inLoop {
        RunOfOne(before, LoopSend(msg, r));
        if state == Connected {
          SendInLoop(msg, r);
        }
      } else {
        ghost var i := |sending|;
        FirstEvent(before, TestSend(msg), [PushSend(i)]);
        RunOfOne(Next(before, TestSend(msg)), PushSend(i));
        var goOn, _ := StartSend(msg);
        if goOn {
          FinishSend(msg, i);
        }
      }
    }

    /** The three parts of `shutdown` in another thread. */
    method StartShutdown() returns (goOn: bool)
      requires Valid()
      modifies this`tested
      ensures Valid() && Place() == Next(old(Place()), TestShutdown)
      ensures goOn == (state == Connected) && (goOn ==> tested > 0)
    {
      goOn := state == Connected;
      if goOn {
        tested := tested + 1;
      }
    }

    method MarkShutdown()
      requires Valid() && tested > 0
      modifies this`state, this`tested, this`marked
      ensures Valid() && Place() == Next(old(Place()), SetState) && marked > 0
    {
      state := Disconnecting;
      tested, marked := tested - 1, marked + 1;
    }

    method FinishShutdown()
      requires Valid() && marked > 0
      modifies this`pending, this`marked
      ensures Valid() && Place() == Next(old(Place()), PushShutdown)
    {
      pending := pending + [ShutdownJob];
      marked := marked - 1;
    }

    /** Called in the loop thread, or without interruption in another one. */
    method Shutdown(inLoop: bool)
      requires Valid()
      modifies this`state, this`shut, this`pending, this`tested, this`marked
      ensures Valid()
      ensures inLoop ==> Place() == Run(old(Place()), [LoopShutdown])
      ensures !inLoop && old(state) == Connected ==>
        Place() == Run(old(Place()), [TestShutdown] + ([SetState] + [PushShutdown]))
      ensures !inLoop && old(state) != Connected ==> Place() == Run(old(Place()), [TestShutdown])
    {
      ghost var before := Place();
      if inLoop {
        RunOfOne(before, LoopShutdown);
        if state == Connected {
          state := Disconnecting;
          ShutdownInLoop();
        }
      } else {
        RunOfOne(before, TestShutdown);
        var goOn := StartShutdown();
        if goOn {
          ghost var w := Place();
          FirstEvent(before, TestShutdown, [SetState] + [PushShutdown]);
          FirstEvent(w, SetState, [PushShutdown]);
          RunOfOne(Next(w, SetState), PushShutdown);
          MarkShutdown();
          FinishShutdown();
        }
      }
    }

    /** The loop's thread runs the next functor of its batch. */
    method RunNextJob(r: WriteResult)
      requires Valid() && Enabled(Place(), RunJob(r))
      modifies this`wire, this`notices, this`writing, this`shut, this`batch, outputBuffer
      ensures Valid() && Place() == Next(old(Place()), RunJob(r))
    {
      var job := batch[0];
      batch := batch[1..];
      match job {
        case SendJob(msg) => SendInLoop(msg, r);
        case ShutdownJob => ShutdownInLoop();
      }
    }

    method ShutdownInLoop()
      requires Valid()
      modifies this`shut
      ensures Valid() && Abs() == ShutInLoop(old(Abs()))
    {
      if !writing {
        shut := true;
      }
    }

    method HandleWrite(r: WriteResult)
      requires Valid() && (writing ==> Possible(Abs(), r, |outputBuffer.Contents()|))
      modifies this`wire, this`notices, this`writing, this`shut, outputBuffer
      ensures Valid() && Abs() == WriteHandled(old(Abs()), r)
    {
      if writing && r.Wrote? && r.n > 0 {
        wire := wire + outputBuffer.Contents()[..r.n];
        outputBuffer.Retrieve(r.n);
        if outputBuffer.ReadableBytes() == 0 {
          writing := false;
          notices := notices + [WriteComplete];
          if state == Disconnecting {
            ShutdownInLoop();
          }
        }
      }
    }

    method HandleClose()
      requires Valid() && (state == Connected || state == Disconnecting)
      modifies this`state, this`reading, this`writing, this`closed
      ensures Valid() && Abs() == Closed(old(Abs()))
    {
      state, reading, writing, closed := Disconnected, false, false, true;
    }
  }

  // ---------- What every run keeps ----------

  ghost predicate NoShutdownJob(jobs: seq<Job>) {
    forall i :: 0 <= i < |jobs| ==> jobs[i].SendJob?
  }

  /** Write interest, backlog, state and half-close, as long as `handleClose` has not run. */
  ghost predicate OpenInv(w: World) {
    var c := w.conn;
    && c.state != Disconnected
    && (c.writing <==> c.backlog != [])
    && (c.shut ==> c.backlog == [])
    && (c.state == Connected ==> !c.shut && NoShutdownJob(w.batch) && NoShutdownJob(w.pending) && w.marked == 0)
  }

  ghost predicate Inv(w: World) {
    var c := w.conn;
    && (c.state == Connecting ==>
          w == START.(conn := c) && Idle(c) && !c.shut && !c.closed)
    && (!c.closed ==> OpenInv(w))
    && (c.closed ==> c.state == Disconnected || c.state == Disconnecting)
    && (c.state == Disconnected ==> !c.writing)
    && (c.reading <==> c.state != Connecting && !c.closed)
  }

  lemma JobKeepsInv(w: World, r: WriteResult)
    requires Inv(w) && Enabled(w, RunJob(r))
    ensures Inv(Step(w, RunJob(r)))
  {
  }

  lemma StepKeepsInv(w: World, ev: Event)
    requires Inv(w) && Enabled(w, ev)
    ensures Inv(Step(w, ev))
  {
    if ev.RunJob? {
      JobKeepsInv(w, ev.r);
    }
  }

  /** The bytes that an event adds to the stream: what `sendInLoop` takes and does not drop. */
  function Contribution(w: World, ev: Event): seq<Byte>
    requires Enabled(w, ev)
  {
    var c := w.conn;
    match ev
    case LoopSend(msg, r) => if c.state != Connected || (Idle(c) && r == Fatal) then [] else msg
    case RunJob(r) =>
      if w.batch[0].ShutdownJob? || c.state == Disconnected || (Idle(c) && r == Fatal) then [] else w.batch[0].msg
    case _ => []
  }

  function Accepted(w: World, evs: seq<Event>): seq<Byte>
    decreases |evs|
  {
    if evs == [] then []
    else if Enabled(w, evs[0]) then Contribution(w, evs[0]) + Accepted(Step(w, evs[0]), evs[1..])
    else Accepted(w, evs[1..])
  }

  lemma CutMessage(wire: seq<Byte>, backlog: seq<Byte>, msg: seq<Byte>, n: nat)
    requires n <= |msg| && (n == 0 || backlog == [])
    ensures (wire + msg[..n]) + (backlog + msg[n..]) == wire + backlog + msg
    ensures n == |msg| ==> (wire + msg[..n]) + backlog == wire + backlog + msg
  {
  }

  lemma SentInLoopConserves(c: Conn, msg: seq<Byte>, r: WriteResult)
    requires Idle(c) ==> Possible(c, r, |msg|)
    requires c.state != Disconnected && !(Idle(c) && r == Fatal)
    ensures var d := SentInLoop(c, msg, r); d.wire + d.backlog == c.wire + c.backlog + msg
  {
    CutMessage(c.wire, c.backlog, msg, if Idle(c) && r.Wrote? then r.n else 0);
  }

  lemma WriteHandledConserves(c: Conn, r: WriteResult)
    requires c.writing ==> Possible(c, r, |c.backlog|)
    ensures var d := WriteHandled(c, r); d.wire + d.backlog == c.wire + c.backlog
  {
    if c.writing && r.Wrote? {
      assert c.backlog[..r.n] + c.backlog[r.n..] == c.backlog;
    }
  }

  lemma StepConserves(w: World, ev: Event)
    requires Enabled(w, ev)
    ensures var d := Step(w, ev).conn; d.wire + d.backlog == w.conn.wire + w.conn.backlog + Contribution(w, ev)
  {
    match ev {
      case LoopSend(msg, r) =>
        if w.conn.state == Connected && !(Idle(w.conn) && r == Fatal) {
          SentInLoopConserves(w.conn, msg, r);
        }
      case RunJob(r) =>
        var job := w.batch[0];
        if job.SendJob? && w.conn.state != Disconnected && !(Idle(w.conn) && r == Fatal) {
          SentInLoopConserves(w.conn, job.msg, r);
        }
      case Writable(r) => WriteHandledConserves(w.conn, r);
      case _ =>
    }
  }

  /**
   For every run, from any thread mix: what the socket has taken, followed by the backlog, is
   exactly the stream of accepted bytes. No byte is lost, repeated or reordered.
   */
  lemma {:induction false} StreamConserved(w: World, evs: seq<Event>)
    ensures var d := Run(w, evs).conn;
            d.wire + d.backlog == w.conn.wire + w.conn.backlog + Accepted(w, evs)
    decreases |evs|
  {
    if evs == [] {
    } else {
      var next := Next(w, evs[0]);
      StreamConserved(next, evs[1..]);
      if Enabled(w, evs[0]) {
        StepConserves(w, evs[0]);
        var s, a, b := w.conn.wire + w.conn.backlog, Contribution(w, evs[0]), Accepted(next, evs[1..]);
        assert (s + a) + b == s + (a + b);
      }
    }
  }

  lemma {:induction false} RunKeepsInv(w: World, evs: seq<Event>)
    requires Inv(w)
    ensures Inv(Run(w, evs))
    decreases |evs|
  {
    if evs == [] {
    } else {
      if Enabled(w, evs[0]) {
        StepKeepsInv(w, evs[0]);
      }
      RunKeepsInv(Next(w, evs[0]), evs[1..]);
    }
  }

  /**
   From a new connection, over every run: until `handleClose` has run, write interest is on exactly
   while bytes wait; and when the write half is shut, every accepted byte is on the wire.
   */
  lemma OutputDiscipline(evs: seq<Event>)
    ensures var d := Run(START, evs).conn;
            && (!d.closed ==> (d.writing <==> d.backlog != []))
            && (d.shut && !d.closed ==> d.wire == Accepted(START, evs))
            && (d.state == Connected ==> !d.shut)
            && (d.reading <==> d.state != Connecting && !d.closed)
  {
    RunKeepsInv(START, evs);
    StreamConserved(START, evs);
    var d := Run(START, evs).conn;
    assert START.conn.wire + START.conn.backlog + Accepted(START, evs) == Accepted(START, evs);
    if d.backlog == [] {
      assert d.wire + d.backlog == d.wire;
    }
  }

  /**
   At most one callback was queued: write-complete with nothing waiting, high-water on crossing the
   mark; and it was queued whenever the mark was crossed or the backlog ran empty.
   */
  predicate Timely(c: Conn, d: Conn) {
    && c.notices <= d.notices && |d.notices| <= |c.notices| + 1
    && (|d.notices| > |c.notices| ==>
          match d.notices[|c.notices|]
          case WriteComplete => d.backlog == []
          case HighWater(size) => |c.backlog| < HIGH_WATER_MARK <= size == |d.backlog|)
    && (|c.backlog| < HIGH_WATER_MARK <= |d.backlog| ==> |d.notices| > |c.notices|)
    && (c.backlog != [] && d.backlog == [] ==> |d.notices| > |c.notices|)
  }

  lemma SendIsTimely(c: Conn, msg: seq<Byte>, r: WriteResult)
    requires Idle(c) ==> Possible(c, r, |msg|)
    ensures Timely(c, SentInLoop(c, msg, r))
  {
  }

  lemma WriteIsTimely(c: Conn, r: WriteResult)
    requires c.writing ==> Possible(c, r, |c.backlog|)
    ensures Timely(c, WriteHandled(c, r))
  {
  }

  /** A write-complete callback is queued only when nothing waits; a high-water callback exactly on crossing. */
  lemma NoticesAreTimely(w: World, ev: Event)
    requires Enabled(w, ev)
    ensures Timely(w.conn, Step(w, ev).conn)
  {
    match ev {
      case LoopSend(msg, r) => SendIsTimely(w.conn, msg, r);
      case RunJob(r) =>
        if w.batch[0].SendJob? {
          SendIsTimely(w.conn, w.batch[0].msg, r);
        }
      case Writable(r) => WriteIsTimely(w.conn, r);
      case _ =>
    }
  }

  // ---------- What the socket was asked, and what it answered ----------

  /** What a step hands to `write`, if it calls it. */
  function Offered(w: World, ev: Event): Option<seq<Byte>>
    requires Enabled(w, ev)
  {
    var c := w.conn;
    var direct := !c.writing && c.backlog == [];
    match ev
    case LoopSend(msg, _) => if c.state == Connected && direct then Some(msg) else None
    case RunJob(_) =>
      if w.batch[0].SendJob? && c.state != Disconnected && direct then Some(w.batch[0].msg) else None
    case Writable(_) => if c.writing then Some(c.backlog) else None
    case _ => None
  }

  function Answer(ev: Event): WriteResult {
    match ev
    case LoopSend(_, r) => r
    case RunJob(r) => r
    case Writable(r) => r
    case _ => WouldBlock
  }

  /** The bytes that the socket said it took. */
  function Taken(w: World, ev: Event): seq<Byte>
    requires Enabled(w, ev)
  {
    var offered, r := Offered(w, ev), Answer(ev);
    if offered.Some? && r.Wrote? && r.n <= |offered.value| then offered.value[..r.n] else []
  }

  function TakenBy(w: World, evs: seq<Event>): seq<Byte>
    decreases |evs|
  {
    if evs == [] then []
    else if Enabled(w, evs[0]) then Taken(w, evs[0]) + TakenBy(Step(w, evs[0]), evs[1..])
    else TakenBy(w, evs[1..])
  }

  lemma SendTakes(c: Conn, msg: seq<Byte>, r: WriteResult)
    requires Idle(c) ==> Possible(c, r, |msg|)
    ensures var direct := c.state != Disconnected && !c.writing && c.backlog == [];
            SentInLoop(c, msg, r).wire == c.wire + if direct && r.Wrote? then msg[..r.n] else []
  {
  }

  lemma StepTakes(w: World, ev: Event)
    requires Enabled(w, ev)
    ensures Step(w, ev).conn.wire == w.conn.wire + Taken(w, ev)
    ensures var offered, r := Offered(w, ev), Answer(ev); offered.Some? && r.Wrote? ==> r.n <= |offered.value|
  {
    match ev {
      case LoopSend(msg, r) => SendTakes(w.conn, msg, r);
      case RunJob(r) =>
        if w.batch[0].SendJob? {
          SendTakes(w.conn, w.batch[0].msg, r);
        }
      case _ =>
    }
  }

  /** Over every run the wire is exactly what the socket answered that it took: no byte is offered again. */
  lemma {:induction false} WireIsWhatWasTaken(w: World, evs: seq<Event>)
    ensures Run(w, evs).conn.wire == w.conn.wire + TakenBy(w, evs)
    decreases |evs|
  {
    if evs == [] {
    } else {
      WireIsWhatWasTaken(Next(w, evs[0]), evs[1..]);
      if Enabled(w, evs[0]) {
        StepTakes(w, evs[0]);
        Associates(w.conn.wire, Taken(w, evs[0]), TakenBy(Step(w, evs[0]), evs[1..]));
      }
    }
  }

  /** The socket was asked, and took everything; a write event without progress does not count. */
  predicate AllTaken(w: World, ev: Event)
    requires Enabled(w, ev)
  {
    && Offered(w, ev).Some? && Answer(ev) == Wrote(|Offered(w, ev).value|)
    && (ev.Writable? ==> Answer(ev).n > 0)
  }

  /** Write-complete, or high-water with the size, or none. */
  function Due(allTaken: bool, before: nat, after: nat): seq<Notice> {
    if allTaken then [WriteComplete]
    else if before < HIGH_WATER_MARK <= after then [HighWater(after)]
    else []
  }

  lemma SendNotices(c: Conn, msg: seq<Byte>, r: WriteResult)
    requires Idle(c) ==> Possible(c, r, |msg|)
    ensures var direct := c.state != Disconnected && !c.writing && c.backlog == [];
            var d := SentInLoop(c, msg, r);
            d.notices == c.notices + Due(direct && r == Wrote(|msg|), |c.backlog|, |d.backlog|)
  {
  }

  lemma WriteNotices(c: Conn, r: WriteResult)
    requires c.writing ==> Possible(c, r, |c.backlog|)
    ensures var d := WriteHandled(c, r);
            d.notices == c.notices + Due(c.writing && r == Wrote(|c.backlog|) && r.n > 0, |c.backlog|, |d.backlog|)
  {
  }

  /** The callbacks that a step queues. */
  lemma NoticesExactly(w: World, ev: Event)
    requires Enabled(w, ev)
    ensures var c, d := w.conn, Step(w, ev).conn;
            d.notices == c.notices + Due(AllTaken(w, ev), |c.backlog|, |d.backlog|)
  {
    match ev {
      case LoopSend(msg, r) => SendNotices(w.conn, msg, r);
      case RunJob(r) =>
        if w.batch[0].SendJob? {
          SendNotices(w.conn, w.batch[0].msg, r);
        }
      case Writable(r) => WriteNotices(w.conn, r);
      case _ =>
    }
  }

  // ---------- Every message, every shutdown ----------

  /** The message that `send` accepts from another thread in this step. */
  function AcceptedIn(w: World, ev: Event): multiset<seq<Byte>> {
    if ev.TestSend? && w.conn.state == Connected then multiset{ev.msg} else multiset{}
  }

  function AcceptedMessages(w: World, evs: seq<Event>): multiset<seq<Byte>>
    decreases |evs|
  {
    if evs == [] then multiset{} else AcceptedIn(w, evs[0]) + AcceptedMessages(Next(w, evs[0]), evs[1..])
  }

  /** The functor that the loop runs in this step. */
  function RanIn(w: World, ev: Event): seq<Job> {
    if ev.RunJob? && Enabled(w, ev) then [w.batch[0]] else []
  }

  function RanJobs(w: World, evs: seq<Event>): seq<Job>
    decreases |evs|
  {
    if evs == [] then [] else RanIn(w, evs[0]) + RanJobs(Next(w, evs[0]), evs[1..])
  }

  /** The functor that is queued in this step. */
  function PushedIn(w: World, ev: Event): seq<Job> {
    if !Enabled(w, ev) then []
    else if ev.PushSend? then [SendJob(w.sending[ev.i])]
    else if ev == PushShutdown then [ShutdownJob]
    else []
  }

  function PushedJobs(w: World, evs: seq<Event>): seq<Job>
    decreases |evs|
  {
    if evs == [] then [] else PushedIn(w, evs[0]) + PushedJobs(Next(w, evs[0]), evs[1..])
  }

  function JobsOf(w: World): seq<Job> {
    w.batch + w.pending
  }

  lemma StepKeepsJobOrder(w: World, ev: Event)
    ensures JobsOf(w) + PushedIn(w, ev) == RanIn(w, ev) + JobsOf(Next(w, ev))
  {
    if ev.RunJob? && Enabled(w, ev) {
      assert w.batch == [w.batch[0]] + w.batch[1..];
    }
  }

  lemma {:induction false} JobsInOrder(w: World, evs: seq<Event>)
    ensures JobsOf(w) + PushedJobs(w, evs) == RanJobs(w, evs) + JobsOf(Run(w, evs))
    decreases |evs|
  {
    if evs == [] {
    } else {
      var next, rest := Next(w, evs[0]), evs[1..];
      JobsInOrder(next, rest);
      StepKeepsJobOrder(w, evs[0]);
      Associates(JobsOf(w), PushedIn(w, evs[0]), PushedJobs(next, rest));
      Associates(RanIn(w, evs[0]), JobsOf(next), PushedJobs(next, rest));
      Associates(RanIn(w, evs[0]), RanJobs(next, rest), JobsOf(Run(next, rest)));
    }
  }

  function MessageOf(job: Job): multiset<seq<Byte>> {
    if job.SendJob? then multiset{job.msg} else multiset{}
  }

  function Messages(jobs: seq<Job>): multiset<seq<Byte>> {
    if jobs == [] then multiset{} else MessageOf(jobs[0]) + Messages(jobs[1..])
  }

  lemma {:induction false} MessagesOfBoth(x: seq<Job>, y: seq<Job>)
    ensures Messages(x + y) == Messages(x) + Messages(y)
  {
    if x == [] {
      assert x + y == y;
    } else {
      assert (x + y)[1..] == x[1..] + y;
      MessagesOfBoth(x[1..], y);
    }
  }

  lemma MessagesOfOne(job: Job)
    ensures Messages([job]) == MessageOf(job)
  {
    assert [job][1..] == [];
    assert MessageOf(job) + multiset{} == MessageOf(job);
  }

  lemma PushKeepsMessages(w: World, i: nat)
    requires i < |w.sending|
    ensures multiset(w.sending) == multiset(Step(w, PushSend(i)).sending) + Messages(PushedIn(w, PushSend(i)))
  {
    RemoveAtMultiset(w.sending, i);
    MessagesOfOne(SendJob(w.sending[i]));
  }

  lemma TestKeepsMessages(w: World, msg: seq<Byte>)
    ensures multiset(w.sending) + AcceptedIn(w, TestSend(msg)) == multiset(Next(w, TestSend(msg)).sending)
  {
    assert w.conn.state == Connected ==> Next(w, TestSend(msg)).sending == w.sending + [msg];
  }

  lemma StepKeepsMessages(w: World, ev: Event)
    ensures multiset(w.sending) + AcceptedIn(w, ev) == multiset(Next(w, ev).sending) + Messages(PushedIn(w, ev))
  {
    if ev.PushSend? && Enabled(w, ev) {
      PushKeepsMessages(w, ev.i);
    } else if ev.TestSend? {
      TestKeepsMessages(w, ev.msg);
      assert PushedIn(w, ev) == [];
    } else {
      assert Next(w, ev).sending == w.sending && AcceptedIn(w, ev) == multiset{};
      if PushedIn(w, ev) != [] {
        MessagesOfOne(ShutdownJob);
        assert PushedIn(w, ev) == [ShutdownJob] && Messages([ShutdownJob]) == multiset{};
      }
    }
  }

  lemma {:induction false} MessagesReachQueue(w: World, evs: seq<Event>)
    ensures multiset(w.sending) + AcceptedMessages(w, evs) ==
            multiset(Run(w, evs).sending) + Messages(PushedJobs(w, evs))
    decreases |evs|
  {
    if evs == [] {
    } else {
      var next, rest := Next(w, evs[0]), evs[1..];
      MessagesReachQueue(next, rest);
      StepKeepsMessages(w, evs[0]);
      MessagesOfBoth(PushedIn(w, evs[0]), PushedJobs(next, rest));
      AddBoth(multiset(w.sending), AcceptedIn(w, evs[0]), multiset(next.sending), Messages(PushedIn(w, evs[0])),
              AcceptedMessages(next, rest), multiset(Run(next, rest).sending), Messages(PushedJobs(next, rest)));
    }
  }

  lemma JobsFromStart(evs: seq<Event>)
    ensures PushedJobs(START, evs) == RanJobs(START, evs) + JobsOf(Run(START, evs))
  {
    JobsInOrder(START, evs);
    assert JobsOf(START) + PushedJobs(START, evs) == PushedJobs(START, evs);
  }

  /**
   Over every run: the functors run in the order in which they were queued, and every message that
   `send` accepted from another thread is on its way into the queue, in it, or has been run, once.
   */
  lemma NoMessageIsLost(evs: seq<Event>)
    ensures var d := Run(START, evs);
            && PushedJobs(START, evs) == RanJobs(START, evs) + (d.batch + d.pending)
            && AcceptedMessages(START, evs) ==
               multiset(d.sending) + (Messages(RanJobs(START, evs)) + Messages(d.batch + d.pending))
  {
    var d := Run(START, evs);
    JobsFromStart(evs);
    MessagesReachQueue(START, evs);
    MessagesOfBoth(RanJobs(START, evs), JobsOf(d));
    assert multiset(START.sending) + AcceptedMessages(START, evs) == AcceptedMessages(START, evs);
  }

  /** A shutdown that nobody still has to carry out has been carried out. */
  ghost predicate CarriedOut(w: World) {
    && w.conn.state == Disconnecting && !w.conn.closed && !w.conn.writing
    && w.marked == 0 && NoShutdownJob(w.batch) && NoShutdownJob(w.pending)
    ==> w.conn.shut
  }

  lemma HeadJob(jobs: seq<Job>)
    requires jobs != []
    ensures NoShutdownJob(jobs) <==> jobs[0].SendJob? && NoShutdownJob(jobs[1..])
  {
    assert jobs == [jobs[0]] + jobs[1..];
  }

  lemma StepCarriesOut(w: World, ev: Event)
    requires Inv(w) && CarriedOut(w) && Enabled(w, ev)
    ensures CarriedOut(Step(w, ev))
  {
    var d := Step(w, ev);
    match ev {
      case RunJob(_) => HeadJob(w.batch);
      case PushShutdown => assert d.pending[|w.pending|] == ShutdownJob;
      case PushSend(i) =>
        assert NoShutdownJob(d.pending) ==> NoShutdownJob(w.pending) by {
          assert forall j :: 0 <= j < |w.pending| ==> d.pending[j] == w.pending[j];
        }
      case _ =>
    }
  }

  lemma {:induction false} RunCarriesOut(w: World, evs: seq<Event>)
    requires Inv(w) && CarriedOut(w)
    ensures CarriedOut(Run(w, evs))
    decreases |evs|
  {
    if evs == [] {
    } else {
      if Enabled(w, evs[0]) {
        StepCarriesOut(w, evs[0]);
        StepKeepsInv(w, evs[0]);
      }
      RunCarriesOut(Next(w, evs[0]), evs[1..]);
    }
  }

  /**
   Over every run of a connection that is not closed: once no shutdown is on its way or queued and
   no bytes wait, a disconnecting connection has its write half closed.
   */
  lemma ShutdownIsCarriedOut(evs: seq<Event>)
    ensures var d := Run(START, evs);
            && d.conn.state == Disconnecting && !d.conn.closed && d.conn.backlog == []
            && d.marked == 0 && NoShutdownJob(d.batch) && NoShutdownJob(d.pending)
            ==> d.conn.shut
  {
    RunCarriesOut(START, evs);
    RunKeepsInv(START, evs);
  }

  // ---------- When handleClose meets a shutdown on its way ----------

  /** `handleClose` has run, and the state says otherwise. */
  predicate Reopened(w: World) {
    w.conn.closed && w.conn.state != Disconnected
  }

  lemma {:induction false} StaysClosed(w: World, evs: seq<Event>)
    requires w.conn.closed && w.conn.state == Disconnected && w.tested == 0
    ensures !Reopened(Run(w, evs))
    decreases |evs|
  {
    if evs == [] {
    } else {
      StaysClosed(Next(w, evs[0]), evs[1..]);
    }
  }

  /**
   After `handleClose`, some schedule takes the connection back to disconnecting if and only if a
   call of `shutdown` stood between its test and its change of the state.
   */
  lemma ReopenedExactly(w: World)
    requires Enabled(w, Close)
    ensures (exists evs :: Reopened(Run(Step(w, Close), evs))) <==> w.tested > 0
  {
    var closed := Step(w, Close);
    if w.tested > 0 {
      RunOfOne(closed, SetState);
      assert Reopened(Run(closed, [SetState]));
    } else {
      forall evs: seq<Event>
        ensures !Reopened(Run(closed, evs))
      {
        StaysClosed(closed, evs);
      }
    }
  }

  /** Whenever `handleClose` runs, no shutdown is between its test and its change of the state. */
  predicate ClosesAlone(w: World, evs: seq<Event>)
    decreases |evs|
  {
    evs == [] ||
    ((evs[0] == Close && Enabled(w, Close) ==> w.tested == 0) && ClosesAlone(Next(w, evs[0]), evs[1..]))
  }

  predicate StateIsTrue(w: World) {
    (w.conn.closed <==> w.conn.state == Disconnected) && (w.conn.closed ==> w.tested == 0)
  }

  lemma StepKeepsStateTrue(w: World, ev: Event)
    requires StateIsTrue(w) && Enabled(w, ev) && (ev == Close ==> w.tested == 0)
    ensures StateIsTrue(Step(w, ev))
  {
  }

  lemma {:induction false} StateTellsClosed(w: World, evs: seq<Event>)
    requires StateIsTrue(w) && ClosesAlone(w, evs)
    ensures StateIsTrue(Run(w, evs))
    decreases |evs|
  {
    if evs == [] {
    } else {
      if Enabled(w, evs[0]) {
        StepKeepsStateTrue(w, evs[0]);
      }
      StateTellsClosed(Next(w, evs[0]), evs[1..]);
    }
  }

  /** On such runs the state alone tells until when the discipline of the output lasts. */
  lemma DisciplineByState(evs: seq<Event>)
    requires ClosesAlone(START, evs)
    ensures var d := Run(START, evs).conn;
            && (d.state != Disconnected ==> (d.writing <==> d.backlog != []))
            && (d.shut && d.state != Disconnected ==> d.wire == Accepted(START, evs))
  {
    StateTellsClosed(START, evs);
    OutputDiscipline(evs);
  }

  // ---------- When shutdown() overtakes a send from another thread ----------

  predicate Carries(job: Job) {
    job.SendJob? && job.msg != []
  }

  ghost predicate HasBytes(jobs: seq<Job>) {
    exists i :: 0 <= i < |jobs| && Carries(jobs[i])
  }

  ghost predicate OnTheWay(sending: seq<seq<Byte>>) {
    exists i :: 0 <= i < |sending| && sending[i] != []
  }

  /** The write half is closed while a message that `send` accepted is still queued. */
  ghost predicate Overtaken(w: World) {
    w.conn.shut && (HasBytes(w.batch) || HasBytes(w.pending))
  }

  /**
   How things have to stand when `shutdown()` changes the state: no message on its way into the
   queue, and of those in the queue only such as will be written first.
   */
  ghost predicate SafeToShutdown(w: World, inLoop: bool) {
    && !OnTheWay(w.sending)
    && if inLoop then !HasBytes(w.pending) && (w.conn.writing || !HasBytes(w.batch))
       else !HasBytes(w.pending) || (!w.conn.writing && !HasBytes(w.batch))
  }

  /** Called in the loop thread; or in another one, which has passed its test. */
  predicate ShuttingDown(w: World, inLoop: bool) {
    w.conn.state == Connected && (inLoop || w.tested > 0)
  }

  function AfterShutdown(w: World, inLoop: bool): World
    requires ShuttingDown(w, inLoop)
  {
    Step(w, if inLoop then LoopShutdown else SetState)
  }

  ghost predicate BytesBeforeShutdown(jobs: seq<Job>) {
    forall i, j :: 0 <= i < j < |jobs| && jobs[i].ShutdownJob? ==> !Carries(jobs[j])
  }

  /** The batch holds every message still to go. */
  ghost predicate LastBatch(w: World) {
    && !HasBytes(w.pending) && BytesBeforeShutdown(w.batch)
    && (w.conn.shut ==> !HasBytes(w.batch))
  }

  /** Nothing is being written, and every message still to go will be swapped out in one batch. */
  ghost predicate OneBatchToCome(w: World) {
    && !w.conn.shut && Idle(w.conn)
    && !HasBytes(w.batch) && NoShutdownJob(w.batch) && BytesBeforeShutdown(w.pending)
  }

  ghost predicate NothingOvertaken(w: World) {
    && (w.conn.state == Disconnecting || w.conn.state == Disconnected)
    && !OnTheWay(w.sending)
    && (LastBatch(w) || OneBatchToCome(w))
  }

  lemma TailJobs(jobs: seq<Job>)
    requires jobs != []
    ensures HasBytes(jobs) <==> Carries(jobs[0]) || HasBytes(jobs[1..])
    ensures BytesBeforeShutdown(jobs) ==>
              BytesBeforeShutdown(jobs[1..]) && (jobs[0].ShutdownJob? ==> !HasBytes(jobs[1..]))
    ensures NoShutdownJob(jobs) <==> jobs[0].SendJob? && NoShutdownJob(jobs[1..])
  {
    var rest := jobs[1..];
    assert forall i :: 0 <= i < |rest| ==> rest[i] == jobs[i + 1];
    assert forall i :: 0 < i < |jobs| ==> jobs[i] == rest[i - 1];
  }

  /** A job without bytes behind the others changes nothing. */
  lemma WithIdleJob(jobs: seq<Job>, job: Job)
    requires !Carries(job)
    ensures HasBytes(jobs + [job]) <==> HasBytes(jobs)
    ensures BytesBeforeShutdown(jobs) ==> BytesBeforeShutdown(jobs + [job])
    ensures NoShutdownJob(jobs) ==> BytesBeforeShutdown(jobs)
  {
    var more := jobs + [job];
    assert forall i :: 0 <= i < |jobs| ==> more[i] == jobs[i];
    if HasBytes(jobs) {
      var i :| 0 <= i < |jobs| && Carries(jobs[i]);
      assert Carries(more[i]);
    }
  }

  lemma JobOvertakesNothing(w: World, r: WriteResult)
    requires NothingOvertaken(w) && Enabled(w, RunJob(r))
    ensures NothingOvertaken(Step(w, RunJob(r)))
  {
    TailJobs(w.batch);
    var d := Step(w, RunJob(r));
    if LastBatch(w) {
      assert LastBatch(d);
    } else {
      assert w.batch[0].SendJob? && w.batch[0].msg == [];
      assert d.conn.backlog == [] && !d.conn.writing && !d.conn.shut;
      assert OneBatchToCome(d);
    }
  }

  lemma PushOvertakesNothing(w: World, i: nat)
    requires NothingOvertaken(w) && i < |w.sending|
    ensures NothingOvertaken(Step(w, PushSend(i)))
  {
    var d := Step(w, PushSend(i));
    assert w.sending[i] == [];
    WithIdleJob(w.pending, SendJob(w.sending[i]));
    assert forall j :: 0 <= j < |d.sending| ==> d.sending[j] in w.sending;
  }

  lemma QueueOvertakesNothing(w: World, ev: Event)
    requires NothingOvertaken(w) && Enabled(w, ev) && (ev == PushShutdown || ev == Swap)
    ensures NothingOvertaken(Step(w, ev))
  {
    WithIdleJob(w.pending, ShutdownJob);
  }

  lemma WriteOvertakesNothing(w: World, r: WriteResult)
    requires NothingOvertaken(w) && Enabled(w, Writable(r))
    ensures NothingOvertaken(Step(w, Writable(r)))
  {
  }

  lemma StepOvertakesNothing(w: World, ev: Event)
    requires NothingOvertaken(w) && Enabled(w, ev)
    ensures NothingOvertaken(Step(w, ev))
  {
    match ev {
      case RunJob(r) => JobOvertakesNothing(w, r);
      case PushSend(i) => PushOvertakesNothing(w, i);
      case PushShutdown => QueueOvertakesNothing(w, ev);
      case Swap => QueueOvertakesNothing(w, ev);
      case Writable(r) => WriteOvertakesNothing(w, r);
      case _ =>
    }
  }

  lemma {:induction false} RunOvertakesNothing(w: World, evs: seq<Event>)
    requires NothingOvertaken(w)
    ensures !Overtaken(Run(w, evs))
    decreases |evs|
  {
    if evs == [] {
    } else {
      if Enabled(w, evs[0]) {
        StepOvertakesNothing(w, evs[0]);
      }
      RunOvertakesNothing(Next(w, evs[0]), evs[1..]);
    }
  }

  // The losing schedules.

  /** Shutting down and not closed: what the losing schedules start from. */
  ghost predicate Ending(w: World) {
    Inv(w) && w.conn.state == Disconnecting && !w.conn.closed
  }

  /** The answer of a full socket. */
  function Refusal(w: World): WriteResult {
    if w.conn.shut then Fatal else WouldBlock
  }

  lemma RefusedJob(w: World)
    requires Ending(w) && w.batch != []
    ensures Enabled(w, RunJob(Refusal(w)))
    ensures var d := Step(w, RunJob(Refusal(w)));
            && Ending(d) && d == w.(conn := d.conn, batch := w.batch[1..])
            && (w.conn.writing || (Carries(w.batch[0]) && !w.conn.shut) ==> d.conn.writing && !d.conn.shut)
            && (w.conn.shut ==> d.conn.shut)
            && (w.batch[0] == ShutdownJob ==> d.conn.shut || d.conn.writing)
  {
    JobKeepsInv(w, Refusal(w));
  }

  /** The batch runs against a full socket; nobody else moves. */
  lemma {:induction false} BatchRunsOut(w: World) returns (evs: seq<Event>)
    requires Ending(w)
    ensures var d := Run(w, evs);
            && Ending(d) && d == w.(conn := d.conn, batch := [])
            && (w.conn.writing || (!w.conn.shut && HasBytes(w.batch) && NoShutdownJob(w.batch)) ==>
                  d.conn.writing && !d.conn.shut)
            && (w.conn.shut ==> d.conn.shut)
            && (w.batch != [] && w.batch[|w.batch| - 1] == ShutdownJob ==> d.conn.shut || d.conn.writing)
    decreases |w.batch|
  {
    if w.batch == [] {
      evs := [];
    } else {
      var ev := RunJob(Refusal(w));
      RefusedJob(w);
      TailJobs(w.batch);
      var d := Step(w, ev);
      var rest := BatchRunsOut(d);
      FirstEvent(w, ev, rest);
      evs := [ev] + rest;
    }
  }

  /** And then the backlog drains, which closes the write half. */
  lemma DrainShuts(w: World) returns (evs: seq<Event>)
    requires Ending(w) && w.batch == [] && (w.conn.writing || w.conn.shut)
    ensures var d := Run(w, evs); d.conn.shut && d == w.(conn := d.conn)
  {
    if w.conn.shut {
      evs := [];
    } else {
      var drain := Writable(Wrote(|w.conn.backlog|));
      RunOfOne(w, drain);
      evs := [drain];
    }
  }

  /** A message behind the batch is overtaken when the batch leaves something to drain. */
  lemma DrainOvertakes(w: World) returns (evs: seq<Event>)
    requires Ending(w) && HasBytes(w.pending) && !w.conn.shut
    requires w.conn.writing || (HasBytes(w.batch) && NoShutdownJob(w.batch))
    ensures Overtaken(Run(w, evs))
  {
    var first := BatchRunsOut(w);
    var second := DrainShuts(Run(w, first));
    RunOfConcatenation(w, first, second);
    evs := first + second;
  }

  /** A message on its way into the queue is overtaken once the write half is closed. */
  lemma PushIsOvertaken(w: World) returns (evs: seq<Event>)
    requires w.conn.shut && OnTheWay(w.sending)
    ensures Overtaken(Run(w, evs))
  {
    var i :| 0 <= i < |w.sending| && w.sending[i] != [];
    var d := Step(w, PushSend(i));
    assert Carries(d.pending[|w.pending|]);
    RunOfOne(w, PushSend(i));
    evs := [PushSend(i)];
  }

  /** Whatever is in the queue, a shutdown that has changed the state can close the write half. */
  lemma MarkedShuts(w: World) returns (evs: seq<Event>)
    requires Ending(w) && w.marked > 0
    ensures var d := Run(w, evs); d.conn.shut && d.sending == w.sending
  {
    var first := BatchRunsOut(w);
    var w1 := Run(w, first);
    var w2 := Step(w1, PushShutdown);
    var w3 := Step(w2, Swap);
    StepKeepsInv(w1, PushShutdown);
    StepKeepsInv(w2, Swap);
    var second := BatchRunsOut(w3);
    var third := DrainShuts(Run(w3, second));
    FirstEvent(w1, PushShutdown, [Swap] + (second + third));
    FirstEvent(w2, Swap, second + third);
    RunOfConcatenation(w3, second, third);
    evs := first + ([PushShutdown] + ([Swap] + (second + third)));
    RunOfConcatenation(w, first, [PushShutdown] + ([Swap] + (second + third)));
  }

  /** So a message on its way into the queue is never safe. */
  lemma SendOnTheWayIsOvertaken(w: World) returns (evs: seq<Event>)
    requires Ending(w) && OnTheWay(w.sending)
    requires w.conn.shut || w.conn.writing || w.marked > 0
    ensures Overtaken(Run(w, evs))
  {
    var first: seq<Event> := [];
    if w.marked > 0 {
      first := MarkedShuts(w);
    } else if !w.conn.shut {
      var out := BatchRunsOut(w);
      var drain := DrainShuts(Run(w, out));
      RunOfConcatenation(w, out, drain);
      first := out + drain;
    }
    var second := PushIsOvertaken(Run(w, first));
    RunOfConcatenation(w, first, second);
    evs := first + second;
  }

  lemma UnsafeShutdownOvertakes(w: World, inLoop: bool) returns (evs: seq<Event>)
    requires Inv(w) && ShuttingDown(w, inLoop) && !SafeToShutdown(w, inLoop)
    ensures Overtaken(Run(AfterShutdown(w, inLoop), evs))
  {
    var s := AfterShutdown(w, inLoop);
    StepKeepsInv(w, if inLoop then LoopShutdown else SetState);
    if OnTheWay(w.sending) {
      evs := SendOnTheWayIsOvertaken(s);
    } else if s.conn.shut {
      evs := [];
    } else {
      evs := DrainOvertakes(s);
    }
  }

  /**
   `shutdown()` never closes the write half ahead of a message already accepted by `send`, on any
   schedule, if and only if, when it changes the state, no message stands between the test in `send`
   and the queue, and the queue has one of the safe shapes: for a call in the loop thread, nothing
   behind the running batch (and nothing in the batch unless bytes are already waiting); for one in
   another thread, nothing behind the running batch, or nothing in the batch and nothing waiting.
   */
  lemma ShutdownOvertakes(w: World, inLoop: bool)
    requires Inv(w) && ShuttingDown(w, inLoop)
    ensures SafeToShutdown(w, inLoop) <==> forall evs: seq<Event> :: !Overtaken(Run(AfterShutdown(w, inLoop), evs))
  {
    if SafeToShutdown(w, inLoop) {
      WithIdleJob(w.batch, ShutdownJob);
      WithIdleJob(w.pending, ShutdownJob);
      forall evs: seq<Event>
        ensures !Overtaken(Run(AfterShutdown(w, inLoop), evs))
      {
        RunOvertakesNothing(AfterShutdown(w, inLoop), evs);
      }
    } else {
      var evs := UnsafeShutdownOvertakes(w, inLoop);
      assert exists evs: seq<Event> :: Overtaken(Run(AfterShutdown(w, inLoop), evs));
    }
  }

  // ---------- Runs from a new connection ----------

  lemma BlockedSend(x: seq<Byte>)
    requires x != []
    ensures Run(START, [Establish] + [LoopSend(x, WouldBlock)]) ==
            START.(conn := Conn(Connected, true, true, x, [], false, false,
                                if HIGH_WATER_MARK <= |x| then [HighWater(|x|)] else []))
  {
    var w := Step(START, Establish);
    FirstEvent(START, Establish, [LoopSend(x, WouldBlock)]);
    RunOfOne(w, LoopSend(x, WouldBlock));
    assert [] + x == x;
  }

  /** Another thread sends, and another shuts down. */
  function SendAndShutdown(y: seq<Byte>): seq<Event> {
    [TestSend(y)] + ([PushSend(0)] + ([TestShutdown] + [SetState]))
  }

  lemma AfterSendAndShutdown(w: World, y: seq<Byte>)
    requires w == START.(conn := w.conn) && w.conn.state == Connected
    ensures var d := Run(w, SendAndShutdown(y));
            d == World(w.conn.(state := Disconnecting), [], [SendJob(y)], [], 0, 1)
  {
    var w1 := Step(w, TestSend(y));
    var w2 := Step(w1, PushSend(0));
    var w3 := Step(w2, TestShutdown);
    FirstEvent(w, TestSend(y), [PushSend(0)] + ([TestShutdown] + [SetState]));
    FirstEvent(w1, PushSend(0), [TestShutdown] + [SetState]);
    FirstEvent(w2, TestShutdown, [SetState]);
    RunOfOne(w3, SetState);
  }

  lemma WaitingSendIsOvertaken(w: World, y: seq<Byte>)
    requires w == START.(conn := w.conn) && w.conn.state == Connected
    requires w.conn.writing && w.conn.backlog != [] && !w.conn.shut && y != []
    ensures Overtaken(Run(w, SendAndShutdown(y) + [Writable(Wrote(|w.conn.backlog|))]))
  {
    var drain := Writable(Wrote(|w.conn.backlog|));
    AfterSendAndShutdown(w, y);
    var d := Run(w, SendAndShutdown(y));
    assert Carries(d.pending[0]);
    RunOfOne(d, drain);
    RunOfConcatenation(w, SendAndShutdown(y), [drain]);
  }

  /** A message sent whole before the shutdown, behind one that waits: the drain overtakes it. */
  lemma ShutdownDoesOvertake(x: seq<Byte>, y: seq<Byte>)
    requires x != [] && y != []
    ensures Overtaken(Run(START, ([Establish] + [LoopSend(x, WouldBlock)])
                                 + (SendAndShutdown(y) + [Writable(Wrote(|x|))])))
  {
    BlockedSend(x);
    WaitingSendIsOvertaken(Run(START, [Establish] + [LoopSend(x, WouldBlock)]), y);
    RunOfConcatenation(START, [Establish] + [LoopSend(x, WouldBlock)], SendAndShutdown(y) + [Writable(Wrote(|x|))]);
  }

  /** On an idle connection, a message between its test and its push. */
  lemma ShutdownOvertakesPush(y: seq<Byte>)
    requires y != []
    ensures Overtaken(Run(START, [Establish] + ([TestSend(y)] + ([LoopShutdown] + [PushSend(0)]))))
  {
    var w1 := Step(START, Establish);
    var w2 := Step(w1, TestSend(y));
    var w3 := Step(w2, LoopShutdown);
    FirstEvent(START, Establish, [TestSend(y)] + ([LoopShutdown] + [PushSend(0)]));
    FirstEvent(w1, TestSend(y), [LoopShutdown] + [PushSend(0)]);
    FirstEvent(w2, LoopShutdown, [PushSend(0)]);
    RunOfOne(w3, PushSend(0));
    assert Carries(Step(w3, PushSend(0)).pending[0]);
  }

  /** `handleClose` between the test and the state change of another thread's shutdown. */
  function CloseInShutdown(): seq<Event> {
    [TestShutdown] + ([Close] + ([SetState] + ([PushShutdown] + [Swap])))
  }

  lemma MarkAndSwap(w: World)
    requires w == START.(conn := w.conn, tested := 1)
    ensures Run(w, [SetState] + ([PushShutdown] + [Swap])) ==
            World(w.conn.(state := Disconnecting), [ShutdownJob], [], [], 0, 0)
  {
    var w1 := Step(w, SetState);
    var w2 := Step(w1, PushShutdown);
    FirstEvent(w, SetState, [PushShutdown] + [Swap]);
    FirstEvent(w1, PushShutdown, [Swap]);
    RunOfOne(w2, Swap);
  }

  lemma AfterCloseInShutdown(w: World)
    requires w == START.(conn := w.conn) && w.conn.state == Connected
    ensures var d := Run(w, CloseInShutdown());
            d == World(Closed(w.conn).(state := Disconnecting), [ShutdownJob], [], [], 0, 0)
  {
    var w1 := Step(w, TestShutdown);
    var w2 := Step(w1, Close);
    FirstEvent(w, TestShutdown, [Close] + ([SetState] + ([PushShutdown] + [Swap])));
    FirstEvent(w1, Close, [SetState] + ([PushShutdown] + [Swap]));
    MarkAndSwap(w2);
  }

  lemma ShutAfterClose(w: World)
    requires w == START.(conn := w.conn) && w.conn.state == Connected
    ensures Run(w, CloseInShutdown() + [RunJob(WouldBlock)]).conn ==
            Closed(w.conn).(state := Disconnecting, shut := true)
  {
    AfterCloseInShutdown(w);
    RunOfOne(Run(w, CloseInShutdown()), RunJob(WouldBlock));
    RunOfConcatenation(w, CloseInShutdown(), [RunJob(WouldBlock)]);
  }

  /**
   Then the connection is disconnecting again, waits for no write event, and closes the write half
   on unsent bytes.
   */
  lemma ShutdownUndoesClose(x: seq<Byte>)
    requires x != []
    ensures var d := Run(START, ([Establish] + [LoopSend(x, WouldBlock)])
                                + (CloseInShutdown() + [RunJob(WouldBlock)])).conn;
            d.state == Disconnecting && d.backlog == x && !d.writing && d.shut
  {
    BlockedSend(x);
    ShutAfterClose(Run(START, [Establish] + [LoopSend(x, WouldBlock)]));
    RunOfConcatenation(START, [Establish] + [LoopSend(x, WouldBlock)], CloseInShutdown() + [RunJob(WouldBlock)]);
  }

  /** Only the loop thread sends. */
  predicate NoOtherSend(evs: seq<Event>) {
    forall i :: 0 <= i < |evs| ==> !evs[i].TestSend?
  }

  lemma StepBringsNoBytes(w: World, ev: Event)
    requires !HasBytes(w.batch) && !HasBytes(w.pending) && w.sending == [] && !ev.TestSend?
    ensures var d := Next(w, ev); !HasBytes(d.batch) && !HasBytes(d.pending) && d.sending == []
  {
    if ev.RunJob? && w.batch != [] {
      TailJobs(w.batch);
    }
    WithIdleJob(w.pending, ShutdownJob);
  }

  lemma {:induction false} NoBytesQueued(w: World, evs: seq<Event>)
    requires !HasBytes(w.batch) && !HasBytes(w.pending) && w.sending == [] && NoOtherSend(evs)
    ensures var d := Run(w, evs); !HasBytes(d.batch) && !HasBytes(d.pending)
    decreases |evs|
  {
    if evs == [] {
    } else {
      StepBringsNoBytes(w, evs[0]);
      NoBytesQueued(Next(w, evs[0]), evs[1..]);
    }
  }

  /** What a user can rely on without looking at the queue: sends made in the loop thread are safe. */
  lemma LoopSendsAreNotOvertaken(evs: seq<Event>)
    requires NoOtherSend(evs)
    ensures !Overtaken(Run(START, evs))
  {
    NoBytesQueued(START, evs);
  }
}
