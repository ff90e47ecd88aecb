/**
 The request/response protocol of libel/net/protorpc/RpcChannel.cpp, between one client channel and
 one server channel. Messages travel as the codec delivers them; the model lets them overtake each
 other, and lets the services answer in any order.
 */
module Rpc {
  import opened Bytes
  import opened Sequences

  /** Identifiers are 64-bit and wrap. */
  const ID_SPACE: nat := 0x1_0000_0000_0000_0000

  datatype ErrorCode = WrongProto | NoService | NoMethod | InvalidRequest

  datatype Answer = Reply(bytes: seq<Byte>) | Failed(code: ErrorCode)

  /** What a caller asks for. */
  datatype Call = Call(service: string, name: string, request: seq<Byte>)

  /** For every service its methods, and for every method which request bytes it can parse. */
  type Services = Option<map<string, map<string, seq<Byte> -> bool>>>

  /** Every check passes. */
  predicate Servable(services: Services, call: Call) {
    && services.Some? && call.service in services.value
    && call.name in services.value[call.service]
    && services.value[call.service][call.name](call.request)
  }

  datatype Verdict = Invoke | Refuse(code: ErrorCode)

  /** The branches of `onRpcMessage` for a request; an unknown service is `WrongProto`. */
  function Dispatch(services: Services, call: Call): Verdict {
    match services
    case None => Refuse(NoService)
    case Some(found) =>
      if call.service !in found then Refuse(WrongProto)
      else if call.name !in found[call.service] then Refuse(NoMethod)
      else if !found[call.service][call.name](call.request) then Refuse(InvalidRequest)
      else Invoke
  }

  /** Which call gets which answer: the first of the checks that fails, in the order of the source. */
  lemma DispatchExactly(services: Services, call: Call)
    ensures Dispatch(services, call) == Refuse(NoService) <==> services == None
    ensures Dispatch(services, call) == Refuse(WrongProto) <==> services.Some? && call.service !in services.value
    ensures Dispatch(services, call) == Refuse(NoMethod) <==>
            && services.Some? && call.service in services.value
            && call.name !in services.value[call.service]
    ensures Dispatch(services, call) == Refuse(InvalidRequest) <==>
            && services.Some? && call.service in services.value
            && call.name in services.value[call.service]
            && !services.value[call.service][call.name](call.request)
    ensures Dispatch(services, call) == Invoke <==> Servable(services, call)
  {
  }

  // ---------- Client, server and what is between them ----------

  function NextId(id: nat): nat {
    if id + 1 == ID_SPACE then 0 else id + 1
  }

  function Lookup(outstandings: map<nat, nat>, wireId: nat): Option<nat> {
    if wireId in outstandings then Some(outstandings[wireId]) else None
  }

  /** `origin` is the number of the call a message stems from; no code looks at it. */
  datatype Calling = Calling(wireId: nat, call: Call, origin: nat)
  datatype Request = Request(wireId: nat, call: Call, origin: nat)
  datatype Executing = Executing(wireId: nat, origin: nat)
  datatype Response = Response(wireId: nat, answer: Answer, origin: nat)

  /**
   What the closure finds in the response object. For an error nothing is put into it, and it is
   still the empty message that it was made as; the code is not handed on.
   */
  function Found(answer: Answer): seq<Byte> {
    match answer
    case Reply(bytes) => bytes
    case Failed(_) => []
  }

  /** A closure that ran: of which call, on what contents, from which response. */
  datatype Completion = Completion(ran: nat, found: seq<Byte>, origin: nat)

  /** `calling` are the threads in `CallMethod` between taking an identifier and recording the call. */
  datatype World = World(
    services: Services,
    calls: seq<Call>,
    id: nat,
    calling: seq<Calling>,
    outstandings: map<nat, nat>,
    toServer: seq<Request>,
    executing: seq<Executing>,
    results: map<nat, seq<Byte>>,
    toClient: seq<Response>,
    completed: seq<Completion>,
    ignored: seq<Response>)

  function Start(services: Services): World {
    World(services, [], 0, [], map[], [], [], map[], [], [], [])
  }

  datatype Event =
    | TakeId(call: Call)   // CallMethod increments the counter into its message,
    | Record(i: nat)       // records the call under the counter's value, and sends
    | ServerReceives(i: nat)
    | ServiceDone(i: nat, bytes: seq<Byte>)
    | ClientReceives(i: nat)

  predicate Enabled(w: World, ev: Event) {
    match ev
    case TakeId(_) => true
    case Record(i) => i < |w.calling|
    case ServerReceives(i) => i < |w.toServer|
    case ServiceDone(i, _) => i < |w.executing|
    case ClientReceives(i) => i < |w.toClient|
  }

  function TookId(w: World, call: Call): World {
    var id := NextId(w.id);
    w.(calls := w.calls + [call], id := id, calling := w.calling + [Calling(id, call, |w.calls|)])
  }

  /** The table is filled under the counter as it is now, which need not be what the message carries. */
  function Recorded(w: World, i: nat): World
    requires i < |w.calling|
  {
    var x := w.calling[i];
    w.(calling := RemoveAt(w.calling, i),
       outstandings := w.outstandings[w.id := x.origin],
       toServer := w.toServer + [Request(x.wireId, x.call, x.origin)])
  }

  function Received(w: World, i: nat): World
    requires i < |w.toServer|
  {
    var m, rest := w.toServer[i], RemoveAt(w.toServer, i);
    match Dispatch(w.services, m.call)
    case Refuse(code) => w.(toServer := rest, toClient := w.toClient + [Response(m.wireId, Failed(code), m.origin)])
    case Invoke => w.(toServer := rest, executing := w.executing + [Executing(m.wireId, m.origin)])
  }

  function Served(w: World, i: nat, bytes: seq<Byte>): World
    requires i < |w.executing|
  {
    var x := w.executing[i];
    w.(executing := RemoveAt(w.executing, i),
       results := w.results[x.origin := bytes],
       toClient := w.toClient + [Response(x.wireId, Reply(bytes), x.origin)])
  }

  function Answered(w: World, i: nat): World
    requires i < |w.toClient|
  {
    var m := w.toClient[i];
    var d := w.(toClient := RemoveAt(w.toClient, i), outstandings := w.outstandings - {m.wireId});
    match Lookup(w.outstandings, m.wireId)
    case Some(k) => d.(completed := w.completed + [Completion(k, Found(m.answer), m.origin)])
    case None => d.(ignored := w.ignored + [m])
  }

  function Step(w: World, ev: Event): World
    requires Enabled(w, ev)
  {
    match ev
    case TakeId(call) => TookId(w, call)
    case Record(i) => Recorded(w, i)
    case ServerReceives(i) => Received(w, i)
    case ServiceDone(i, bytes) => Served(w, i, bytes)
    case ClientReceives(i) => Answered(w, i)
  }

  /** An event that cannot happen is passed over. */
  function Next(w: World, ev: Event): World {
    if Enabled(w, ev) then Step(w, ev) else w
  }

  function Run(w: World, evs: seq<Event>): World
    decreases |evs|
  {
    if evs == [] then w else Run(Next(w, evs[0]), evs[1..])
  }

  // ---------- The object ----------

  /**
   The `RpcChannel` object, at either end. Each method is the part of a step above that happens at
   its end; `w` and `i` say which step of which run it is.
   */
  class RpcChannel {
    var id: nat
    var outstandings: map<nat, nat>
    const services: Services

    constructor (services: Services)
      ensures var w := Start(services); id == w.id && outstandings == w.outstandings && this.services == w.services
    {
      id, outstandings, this.services := 0, map[], services;
    }

    /** The two parts of `CallMethod`; `out` is the number of the call, for its response object and closure. */
    method StartCall(call: Call, out: nat, ghost w: World) returns (message: Request)
      requires id == w.id < ID_SPACE && outstandings == w.outstandings && out == |w.calls|
      modifies this`id
      ensures var d := TookId(w, call);
              && id == d.id && outstandings == d.outstandings
              && d.calling == w.calling + [Calling(message.wireId, message.call, message.origin)]
    {
      id := (id + 1) % ID_SPACE;
      message := Request(id, call, out);
    }

    method FinishCall(message: Request, ghost w: World, ghost i: nat)
      requires id == w.id && outstandings == w.outstandings
      requires i < |w.calling| && w.calling[i] == Calling(message.wireId, message.call, message.origin)
      modifies this`outstandings
      ensures var d := Recorded(w, i);
              id == d.id && outstandings == d.outstandings && w.toServer + [message] == d.toServer
    {
      outstandings := outstandings[id := message.origin];
    }

    /** Without interruption. */
    method CallMethod(call: Call, out: nat, ghost w: World) returns (message: Request)
      requires id == w.id < ID_SPACE && outstandings == w.outstandings && out == |w.calls|
      modifies this`id, this`outstandings
      ensures var d := Recorded(TookId(w, call), |w.calling|);
              id == d.id && outstandings == d.outstandings && w.toServer + [message] == d.toServer
    {
      message := StartCall(call, out, w);
      FinishCall(message, TookId(w, call), |w.calling|);
    }

    /** A response message: which closure runs, if any, and what its response object then holds. */
    method OnResponse(message: Response, ghost w: World, ghost i: nat)
        returns (done: Option<nat>, contents: seq<Byte>)
      requires outstandings == w.outstandings && i < |w.toClient| && message == w.toClient[i]
      modifies this`outstandings
      ensures var d := Answered(w, i);
              && outstandings == d.outstandings
              && (done.Some? ==> d.completed == w.completed + [Completion(done.value, contents, message.origin)])
              && (done.None? ==> d.completed == w.completed && d.ignored == w.ignored + [message])
    {
      done, contents := None, [];
      if message.wireId in outstandings {
        done := Some(outstandings[message.wireId]);
        outstandings := outstandings - {message.wireId};
        if message.answer.Reply? {
          contents := message.answer.bytes;
        }
      }
    }

    /**
     A request message: exactly one of an error response under its identifier and a call of the
     service, which is made if and only if every check passes.
     */
    method OnRequest(message: Request, ghost w: World, ghost i: nat)
        returns (sent: Option<Response>, started: Option<Executing>)
      requires services == w.services && i < |w.toServer| && message == w.toServer[i]
      ensures started.Some? <==> Servable(services, message.call)
      ensures sent.Some? <==> started.None?
      ensures sent.Some? ==> sent.value.wireId == message.wireId && sent.value.answer.Failed?
      ensures started.Some? ==> started.value.wireId == message.wireId
      ensures services == None ==> sent.Some? && sent.value.answer == Failed(NoService)
      ensures services.Some? && message.call.service !in services.value ==>
        sent.Some? && sent.value.answer == Failed(WrongProto)
      ensures services.Some? && message.call.service in services.value ==>
        var methods := services.value[message.call.service];
        && (message.call.name !in methods ==> sent.Some? && sent.value.answer == Failed(NoMethod))
        && (message.call.name in methods && !methods[message.call.name](message.call.request) ==>
              sent.Some? && sent.value.answer == Failed(InvalidRequest))
      ensures sent.Some? ==>
        Received(w, i) == w.(toServer := RemoveAt(w.toServer, i), toClient := w.toClient + [sent.value])
      ensures started.Some? ==>
        Received(w, i) == w.(toServer := RemoveAt(w.toServer, i), executing := w.executing + [started.value])
    {
      var error := Some(WrongProto);
      sent, started := None, None;
      if services.Some? {
        if message.call.service in services.value {
          var methods := services.value[message.call.service];
          if message.call.name in methods {
            var parses := methods[message.call.name];
            if parses(message.call.request) {
              started := Some(Executing(message.wireId, message.origin));
              error := None;
            } else {
              error := Some(InvalidRequest);
            }
          } else {
            error := Some(NoMethod);
          }
        }
      } else {
        error := Some(NoService);
      }
      if error.Some? {
        sent := Some(Response(message.wireId, Failed(error.value), message.origin));
      }
    }

    /** The closure that the service runs with its response. */
    method DoneCallback(call: Executing, bytes: seq<Byte>, ghost w: World, ghost i: nat) returns (sent: Response)
      requires i < |w.executing| && call == w.executing[i]
      ensures Served(w, i, bytes) ==
              w.(executing := RemoveAt(w.executing, i),
                 results := w.results[call.origin := bytes],
                 toClient := w.toClient + [sent])
    {
      sent := Response(call.wireId, Reply(bytes), call.origin);
    }
  }

  // ---------- Where every call is ----------

  /** The identifier counter after `n` calls. */
  function IdAfter(n: nat): nat {
    if n == 0 then 0 else NextId(IdAfter(n - 1))
  }

  /** The identifier that call `k` travels under. */
  function WireId(k: nat): nat {
    IdAfter(k + 1)
  }

  lemma Residue(x: int, q: int, r: nat)
    requires x == q * ID_SPACE + r && r < ID_SPACE
    ensures x % ID_SPACE == r
  {
  }

  lemma {:induction false} IdWraps(n: nat)
    ensures IdAfter(n) == n % ID_SPACE
  {
    if n == 0 {
    } else {
      IdWraps(n - 1);
      var q, r := (n - 1) / ID_SPACE, (n - 1) % ID_SPACE;
      if r + 1 == ID_SPACE {
        Residue(n, q + 1, 0);
      } else {
        Residue(n, q, r + 1);
      }
    }
  }

  /** Two calls share an identifier exactly when they are a multiple of the identifier space apart. */
  lemma IdsRepeat(j: nat, k: nat)
    requires j <= k
    ensures WireId(j) == WireId(k) <==> (k - j) % ID_SPACE == 0
  {
    IdWraps(j + 1);
    IdWraps(k + 1);
    var a, b, d := j + 1, k + 1, k - j;
    if a % ID_SPACE == b % ID_SPACE {
      Residue(d, b / ID_SPACE - a / ID_SPACE, 0);
    }
    if d % ID_SPACE == 0 {
      Residue(b, a / ID_SPACE + d / ID_SPACE, a % ID_SPACE);
    }
  }

  function CallingOrigin(x: Calling): nat { x.origin }
  function RequestOrigin(m: Request): nat { m.origin }
  function ExecutingOrigin(x: Executing): nat { x.origin }
  function ResponseOrigin(m: Response): nat { m.origin }
  function RanOf(c: Completion): nat { c.ran }

  /** Whose closures have run. */
  function Ran(s: seq<Completion>): seq<nat> {
    Each(s, RanOf)
  }

  function UpTo(n: nat): seq<nat> {
    seq(n, i => i)
  }

  /** All traces of calls: being issued, on the way, being executed, on the way back, completed. */
  function Traces(w: World): multiset<nat> {
    multiset(Each(w.calling, CallingOrigin))
    + multiset(Each(w.toServer, RequestOrigin)) + multiset(Each(w.executing, ExecutingOrigin))
    + multiset(Each(w.toClient, ResponseOrigin)) + multiset(Ran(w.completed))
  }

  lemma UpToGrows(n: nat)
    ensures multiset(UpTo(n + 1)) == multiset(UpTo(n)) + multiset{n}
  {
    assert UpTo(n + 1) == UpTo(n) + [n];
  }

  /** An answer that the server really gave to that call. */
  ghost predicate Truthful(w: World, origin: nat, answer: Answer) {
    && origin < |w.calls|
    && match Dispatch(w.services, w.calls[origin])
       case Refuse(code) => answer == Failed(code)
       case Invoke => origin in w.results && answer == Reply(w.results[origin])
  }

  /** What the closure of that call has to find. */
  ghost predicate Expected(w: World, origin: nat, found: seq<Byte>) {
    && origin < |w.calls|
    && match Dispatch(w.services, w.calls[origin])
       case Refuse(_) => found == []
       case Invoke => origin in w.results && found == w.results[origin]
  }

  ghost predicate Labelled(w: World) {
    && (forall i :: 0 <= i < |w.calling| ==>
          var x := w.calling[i]; x.origin < |w.calls| && x.wireId == WireId(x.origin) && x.call == w.calls[x.origin])
    && (forall i :: 0 <= i < |w.toServer| ==>
          var m := w.toServer[i]; m.origin < |w.calls| && m.wireId == WireId(m.origin) && m.call == w.calls[m.origin])
    && (forall i :: 0 <= i < |w.executing| ==>
          var x := w.executing[i];
          x.origin < |w.calls| && x.wireId == WireId(x.origin) && Dispatch(w.services, w.calls[x.origin]) == Invoke)
    && (forall i :: 0 <= i < |w.toClient| ==>
          var m := w.toClient[i]; m.wireId == WireId(m.origin) && Truthful(w, m.origin, m.answer))
    && (forall i :: 0 <= i < |w.completed| ==>
          var c := w.completed[i]; c.ran == c.origin && Expected(w, c.origin, c.found))
  }

  /** The call is recorded, and its closure has not run. */
  predicate Open(w: World, k: nat) {
    k < |w.calls| && k !in Each(w.calling, CallingOrigin) && k !in Ran(w.completed)
  }

  /** `outstandings_` holds exactly the calls that were issued and not answered. */
  ghost predicate Exact(w: World) {
    && w.id == IdAfter(|w.calls|)
    && (forall k :: 0 <= k < |w.calls| ==> (Open(w, k) <==> Lookup(w.outstandings, WireId(k)) == Some(k)))
    && (forall id <- w.outstandings :: w.outstandings[id] < |w.calls| && id == WireId(w.outstandings[id]))
  }

  /** Every call has exactly one trace. */
  ghost predicate OneTrace(w: World) {
    Traces(w) == multiset(UpTo(|w.calls|)) && w.ignored == []
  }

  /** A service has still to run its closure for the call. */
  predicate Unserved(w: World, k: nat) {
    || k in Each(w.calling, CallingOrigin)
    || k in Each(w.toServer, RequestOrigin)
    || k in Each(w.executing, ExecutingOrigin)
  }

  /** A result is recorded only for calls past that. */
  ghost predicate ResultsApart(w: World) {
    forall k <- w.results :: k < |w.calls| && !Unserved(w, k)
  }

  ghost predicate Inv(w: World) {
    Labelled(w) && Exact(w) && OneTrace(w) && ResultsApart(w)
  }

  lemma {:induction false} UpToCount(n: nat, k: nat)
    ensures multiset(UpTo(n))[k] == if k < n then 1 else 0
  {
    if n == 0 {
    } else {
      UpToCount(n - 1, k);
      UpToGrows(n - 1);
    }
  }

  /** A call with a trace in one place has none in the others. */
  lemma TraceIsUnique(w: World, k: nat)
    requires OneTrace(w)
    ensures multiset(Each(w.calling, CallingOrigin))[k]
            + multiset(Each(w.toServer, RequestOrigin))[k] + multiset(Each(w.executing, ExecutingOrigin))[k]
            + multiset(Each(w.toClient, ResponseOrigin))[k] + multiset(Ran(w.completed))[k]
            == if k < |w.calls| then 1 else 0
  {
    UpToCount(|w.calls|, k);
  }

  // A call takes its identifier.

  lemma TakeKeepsLabels(w: World, call: Call)
    requires Inv(w)
    ensures Labelled(TookId(w, call))
  {
  }

  lemma TakeKeepsExact(w: World, call: Call)
    requires Inv(w)
    ensures Exact(TookId(w, call))
  {
    var n, d := |w.calls|, TookId(w, call);
    assert Each(d.calling, CallingOrigin) == Each(w.calling, CallingOrigin) + [n];
    assert forall k :: 0 <= k < n ==> (Open(d, k) <==> Open(w, k));
  }

  lemma TakeKeepsTrace(w: World, call: Call)
    requires Inv(w)
    ensures OneTrace(TookId(w, call))
  {
    var n, d := |w.calls|, TookId(w, call);
    UpToGrows(n);
    assert Each(d.calling, CallingOrigin) == Each(w.calling, CallingOrigin) + [n];
  }

  lemma TakeKeepsApart(w: World, call: Call)
    requires Inv(w)
    ensures ResultsApart(TookId(w, call))
  {
    var n, d := |w.calls|, TookId(w, call);
    assert Each(d.calling, CallingOrigin) == Each(w.calling, CallingOrigin) + [n];
    assert forall k :: Unserved(d, k) <==> Unserved(w, k) || k == n;
  }

  // And is recorded.

  lemma RecordKeepsLabels(w: World, i: nat)
    requires Inv(w) && i < |w.calling|
    ensures Labelled(Recorded(w, i))
  {
  }

  lemma RecordKeepsTrace(w: World, i: nat)
    requires Inv(w) && i < |w.calling|
    ensures OneTrace(Recorded(w, i))
  {
    var x := w.calling[i];
    EachTaken(w.calling, CallingOrigin, i);
    EachGiven(w.toServer, RequestOrigin, Request(x.wireId, x.call, x.origin));
  }

  lemma RecordKeepsApart(w: World, i: nat)
    requires Inv(w) && i < |w.calling|
    ensures ResultsApart(Recorded(w, i))
  {
    var x, d := w.calling[i], Recorded(w, i);
    EachTaken(w.calling, CallingOrigin, i);
    EachGiven(w.toServer, RequestOrigin, Request(x.wireId, x.call, x.origin));
    assert forall k :: Unserved(d, k) ==> Unserved(w, k);
  }

  /** Recording opens that call and changes nothing about the others. */
  lemma RecordOpens(w: World, i: nat, k: nat)
    requires Inv(w) && i < |w.calling|
    ensures Open(Recorded(w, i), k) <==> Open(w, k) || k == w.calling[i].origin
    ensures !Open(w, w.calling[i].origin)
  {
    var o := w.calling[i].origin;
    EachTaken(w.calling, CallingOrigin, i);
    TraceIsUnique(w, o);
  }

  lemma FreshRecordKeepsExact(w: World, i: nat)
    requires Inv(w) && i < |w.calling| && w.calling[i].wireId == w.id && w.id !in w.outstandings
    ensures Exact(Recorded(w, i))
  {
    var o, d := w.calling[i].origin, Recorded(w, i);
    forall k | 0 <= k < |d.calls|
      ensures Open(d, k) <==> Lookup(d.outstandings, WireId(k)) == Some(k)
    {
      RecordOpens(w, i, k);
    }
  }

  /**
   The table stays exact precisely when no other call has taken an identifier since this one did,
   and no unanswered call holds it; otherwise the entry of a call is misplaced or overwritten, and a
   closure is lost.
   */
  lemma RecordKeepsExact(w: World, i: nat)
    requires Inv(w) && i < |w.calling|
    ensures Exact(Recorded(w, i)) <==> w.calling[i].wireId == w.id && w.id !in w.outstandings
  {
    var o, d := w.calling[i].origin, Recorded(w, i);
    if w.calling[i].wireId != w.id {
      assert w.id in d.outstandings && d.outstandings[w.id] == o && w.id != WireId(o);
    } else if w.id in w.outstandings {
      var k := w.outstandings[w.id];
      RecordOpens(w, i, k);
      assert Open(d, k) && w.id == WireId(k) && Lookup(d.outstandings, w.id) == Some(o) != Some(k);
    } else {
      FreshRecordKeepsExact(w, i);
    }
  }

  /** Within the first 2^64 calls no identifier is met again. */
  lemma FreshWithinIdSpace(w: World, i: nat)
    requires Inv(w) && |w.calls| <= ID_SPACE && i < |w.calling|
    ensures w.calling[i].wireId !in w.outstandings
  {
    var x := w.calling[i];
    assert Each(w.calling, CallingOrigin)[i] == x.origin;
    forall id <- w.outstandings
      ensures id != x.wireId
    {
      var k := w.outstandings[id];
      if k <= x.origin {
        IdsRepeat(k, x.origin);
      } else {
        IdsRepeat(x.origin, k);
      }
      assert Open(w, k) && !Open(w, x.origin);
    }
  }

  // The server gets a request.

  lemma InvokeKeepsLabels(w: World, i: nat)
    requires Labelled(w) && i < |w.toServer| && Dispatch(w.services, w.toServer[i].call) == Invoke
    ensures Labelled(Received(w, i))
  {
  }

  lemma RefuseKeepsLabels(w: World, i: nat)
    requires Labelled(w) && i < |w.toServer| && Dispatch(w.services, w.toServer[i].call) != Invoke
    ensures Labelled(Received(w, i))
  {
  }

  lemma InvokeKeepsTrace(w: World, i: nat)
    requires OneTrace(w) && i < |w.toServer| && Dispatch(w.services, w.toServer[i].call) == Invoke
    ensures OneTrace(Received(w, i))
  {
    var m := w.toServer[i];
    EachTaken(w.toServer, RequestOrigin, i);
    EachGiven(w.executing, ExecutingOrigin, Executing(m.wireId, m.origin));
  }

  lemma RefuseKeepsTrace(w: World, i: nat)
    requires OneTrace(w) && i < |w.toServer| && Dispatch(w.services, w.toServer[i].call) != Invoke
    ensures OneTrace(Received(w, i))
  {
    EachTaken(w.toServer, RequestOrigin, i);
    EachGiven(w.toClient, ResponseOrigin, Received(w, i).toClient[|w.toClient|]);
  }

  lemma ReceiveKeepsApart(w: World, i: nat)
    requires ResultsApart(w) && i < |w.toServer|
    ensures ResultsApart(Received(w, i))
  {
    var m := w.toServer[i];
    EachTaken(w.toServer, RequestOrigin, i);
    EachGiven(w.executing, ExecutingOrigin, Executing(m.wireId, m.origin));
    assert forall k :: Unserved(Received(w, i), k) ==> Unserved(w, k);
  }

  // A service runs its closure.

  lemma NotElsewhere(w: World, i: nat)
    requires OneTrace(w) && i < |w.executing|
    ensures forall j :: 0 <= j < |w.toClient| ==> w.toClient[j].origin != w.executing[i].origin
    ensures forall j :: 0 <= j < |w.completed| ==> w.completed[j].ran != w.executing[i].origin
    ensures w.executing[i].origin !in Each(RemoveAt(w.executing, i), ExecutingOrigin)
    ensures w.executing[i].origin !in Each(w.toServer, RequestOrigin)
    ensures w.executing[i].origin !in Each(w.calling, CallingOrigin)
  {
    var o := w.executing[i].origin;
    TraceIsUnique(w, o);
    EachTaken(w.executing, ExecutingOrigin, i);
    forall j | 0 <= j < |w.toClient|
      ensures w.toClient[j].origin != o
    {
      assert Each(w.toClient, ResponseOrigin)[j] == w.toClient[j].origin;
    }
    forall j | 0 <= j < |w.completed|
      ensures w.completed[j].ran != o
    {
      assert Ran(w.completed)[j] == w.completed[j].ran;
    }
  }

  lemma ServeKeepsLabels(w: World, i: nat, bytes: seq<Byte>)
    requires Inv(w) && i < |w.executing|
    ensures Labelled(Served(w, i, bytes))
  {
    NotElsewhere(w, i);
  }

  lemma ServeKeepsTrace(w: World, i: nat, bytes: seq<Byte>)
    requires OneTrace(w) && i < |w.executing|
    ensures OneTrace(Served(w, i, bytes))
  {
    var x := w.executing[i];
    EachTaken(w.executing, ExecutingOrigin, i);
    EachGiven(w.toClient, ResponseOrigin, Response(x.wireId, Reply(bytes), x.origin));
  }

  lemma ServeKeepsApart(w: World, i: nat, bytes: seq<Byte>)
    requires Inv(w) && i < |w.executing|
    ensures ResultsApart(Served(w, i, bytes))
  {
    var d := Served(w, i, bytes);
    NotElsewhere(w, i);
    EachTaken(w.executing, ExecutingOrigin, i);
    assert forall k :: Unserved(d, k) ==> Unserved(w, k) && k != w.executing[i].origin;
  }

  // The client gets a response.

  lemma AnswerFindsCall(w: World, i: nat)
    requires Inv(w) && i < |w.toClient|
    ensures var m := w.toClient[i];
            Open(w, m.origin) && Lookup(w.outstandings, m.wireId) == Some(m.origin)
  {
    var m := w.toClient[i];
    assert Each(w.toClient, ResponseOrigin)[i] == m.origin;
    TraceIsUnique(w, m.origin);
  }

  lemma AnswerKeepsLabels(w: World, i: nat)
    requires Inv(w) && i < |w.toClient|
    ensures Labelled(Answered(w, i))
  {
    AnswerFindsCall(w, i);
  }

  lemma AnswerKeepsExact(w: World, i: nat)
    requires Inv(w) && i < |w.toClient|
    ensures Exact(Answered(w, i))
  {
    var m, d := w.toClient[i], Answered(w, i);
    AnswerFindsCall(w, i);
    assert Ran(d.completed) == Ran(w.completed) + [m.origin];
    assert forall k :: Open(d, k) <==> Open(w, k) && k != m.origin;
  }

  lemma AnswerKeepsTrace(w: World, i: nat)
    requires Inv(w) && i < |w.toClient|
    ensures OneTrace(Answered(w, i))
  {
    var m, d := w.toClient[i], Answered(w, i);
    AnswerFindsCall(w, i);
    EachTaken(w.toClient, ResponseOrigin, i);
    assert Ran(d.completed) == Ran(w.completed) + [m.origin];
  }

  lemma SameTable(w: World, d: World)
    requires Exact(w) && d.calls == w.calls && d.id == w.id && d.calling == w.calling
    requires d.outstandings == w.outstandings && d.completed == w.completed
    ensures Exact(d)
  {
    assert forall k :: Open(d, k) <==> Open(w, k);
  }

  lemma ReceiveKeepsExact(w: World, i: nat)
    requires Exact(w) && i < |w.toServer|
    ensures Exact(Received(w, i))
  {
    SameTable(w, Received(w, i));
  }

  lemma ReceiveKeepsInv(w: World, i: nat)
    requires Inv(w) && i < |w.toServer|
    ensures Inv(Received(w, i))
  {
    if Dispatch(w.services, w.toServer[i].call) == Invoke {
      InvokeKeepsLabels(w, i);
      InvokeKeepsTrace(w, i);
    } else {
      RefuseKeepsLabels(w, i);
      RefuseKeepsTrace(w, i);
    }
    ReceiveKeepsApart(w, i);
    ReceiveKeepsExact(w, i);
  }

  lemma ServeKeepsInv(w: World, i: nat, bytes: seq<Byte>)
    requires Inv(w) && i < |w.executing|
    ensures Inv(Served(w, i, bytes))
  {
    ServeKeepsLabels(w, i, bytes);
    ServeKeepsTrace(w, i, bytes);
    ServeKeepsApart(w, i, bytes);
    SameTable(w, Served(w, i, bytes));
  }

  lemma AnswerKeepsInv(w: World, i: nat)
    requires Inv(w) && i < |w.toClient|
    ensures Inv(Answered(w, i))
  {
    AnswerKeepsLabels(w, i);
    AnswerKeepsExact(w, i);
    AnswerKeepsTrace(w, i);
    assert forall k :: Unserved(Answered(w, i), k) <==> Unserved(w, k);
  }

  lemma TakeKeepsInv(w: World, call: Call)
    requires Inv(w)
    ensures Inv(TookId(w, call))
  {
    TakeKeepsLabels(w, call);
    TakeKeepsExact(w, call);
    TakeKeepsTrace(w, call);
    TakeKeepsApart(w, call);
  }

  lemma RecordKeepsInv(w: World, i: nat)
    requires Inv(w) && i < |w.calling|
    ensures Inv(Recorded(w, i)) <==> w.calling[i].wireId == w.id && w.id !in w.outstandings
  {
    RecordKeepsLabels(w, i);
    RecordKeepsExact(w, i);
    RecordKeepsTrace(w, i);
    RecordKeepsApart(w, i);
  }

  /** A call about to be recorded was the last to take an identifier, which no unanswered call holds. */
  predicate Fresh(w: World, ev: Event) {
    ev.Record? && ev.i < |w.calling| ==> w.calling[ev.i].wireId == w.id && w.id !in w.outstandings
  }

  /** Every step keeps the invariant, with the exception of a call recorded in a wrong or taken place. */
  lemma StepKeepsInv(w: World, ev: Event)
    requires Inv(w) && Enabled(w, ev)
    ensures Inv(Step(w, ev)) <==> Fresh(w, ev)
  {
    match ev {
      case TakeId(call) => TakeKeepsInv(w, call);
      case Record(i) => RecordKeepsInv(w, i);
      case ServerReceives(i) => ReceiveKeepsInv(w, i);
      case ServiceDone(i, bytes) => ServeKeepsInv(w, i, bytes);
      case ClientReceives(i) => AnswerKeepsInv(w, i);
    }
  }

  lemma NextKeepsInv(w: World, ev: Event)
    requires Inv(w) && Fresh(w, ev)
    ensures Inv(Next(w, ev))
  {
    if Enabled(w, ev) {
      StepKeepsInv(w, ev);
    }
  }

  /** No call of the run is recorded in a wrong or taken place. */
  predicate NoneOverwritten(w: World, evs: seq<Event>)
    decreases |evs|
  {
    evs == [] || (Fresh(w, evs[0]) && NoneOverwritten(Next(w, evs[0]), evs[1..]))
  }

  lemma {:induction false} RunKeepsInv(w: World, evs: seq<Event>)
    requires Inv(w) && NoneOverwritten(w, evs)
    ensures Inv(Run(w, evs))
    decreases |evs|
  {
    if evs == [] {
    } else {
      NextKeepsInv(w, evs[0]);
      RunKeepsInv(Next(w, evs[0]), evs[1..]);
    }
  }

  lemma StartKeepsInv(services: Services)
    ensures Inv(Start(services))
  {
    assert Traces(Start(services)) == multiset(UpTo(0));
  }

  lemma RunOfPrefix(w: World, evs: seq<Event>, k: nat)
    requires k < |evs|
    ensures Run(w, evs[..k + 1]) == Run(Next(w, evs[0]), evs[1..][..k])
  {
    assert evs[..k + 1][1..] == evs[1..][..k];
  }

  lemma {:induction false} FreshPrefix(w: World, evs: seq<Event>, k: nat)
    requires NoneOverwritten(w, evs) && k <= |evs|
    ensures NoneOverwritten(w, evs[..k])
    decreases k
  {
    if k == 0 {
    } else {
      assert evs[..k][1..] == evs[1..][..k - 1];
      FreshPrefix(Next(w, evs[0]), evs[1..], k - 1);
    }
  }

  lemma {:induction false} FirstStale(w: World, evs: seq<Event>) returns (k: nat)
    requires !NoneOverwritten(w, evs)
    ensures k < |evs| && NoneOverwritten(w, evs[..k]) && !Fresh(Run(w, evs[..k]), evs[k])
    decreases |evs|
  {
    if !Fresh(w, evs[0]) {
      k := 0;
      assert evs[..0] == [];
    } else {
      var j := FirstStale(Next(w, evs[0]), evs[1..]);
      k := j + 1;
      RunOfPrefix(w, evs, j);
      assert evs[..k][1..] == evs[1..][..j];
    }
  }

  lemma {:induction false} RunOfLast(w: World, evs: seq<Event>, k: nat)
    requires k < |evs|
    ensures Run(w, evs[..k + 1]) == Next(Run(w, evs[..k]), evs[k])
    decreases k
  {
    RunOfPrefix(w, evs, k);
    if k == 0 {
      assert evs[..0] == [] && evs[1..][..0] == [];
    } else {
      RunOfPrefix(w, evs, k - 1);
      RunOfLast(Next(w, evs[0]), evs[1..], k - 1);
    }
  }

  lemma StaleBreaksExact(w: World, ev: Event)
    requires Inv(w) && !Fresh(w, ev)
    ensures !Exact(Next(w, ev))
  {
    RecordKeepsExact(w, ev.i);
  }

  /** Along any run the table is exact at every moment if and only if every call is recorded fresh. */
  lemma ExactAllAlong(services: Services, evs: seq<Event>)
    ensures NoneOverwritten(Start(services), evs) <==>
            forall k :: 0 <= k <= |evs| ==> Exact(Run(Start(services), evs[..k]))
  {
    StartKeepsInv(services);
    if NoneOverwritten(Start(services), evs) {
      forall k | 0 <= k <= |evs|
        ensures Exact(Run(Start(services), evs[..k]))
      {
        FreshPrefix(Start(services), evs, k);
        RunKeepsInv(Start(services), evs[..k]);
      }
    } else {
      var k := FirstStale(Start(services), evs);
      RunKeepsInv(Start(services), evs[..k]);
      StaleBreaksExact(Run(Start(services), evs[..k]), evs[k]);
      RunOfLast(Start(services), evs, k);
      assert !Exact(Run(Start(services), evs[..k + 1]));
    }
  }

  function CallsIn(evs: seq<Event>): nat {
    if evs == [] then 0 else (if evs[0].TakeId? then 1 else 0) + CallsIn(evs[1..])
  }

  /** No thread enters `CallMethod` while another is in it. */
  predicate OneAtATime(w: World, evs: seq<Event>)
    decreases |evs|
  {
    evs == [] || ((evs[0].TakeId? ==> w.calling == []) && OneAtATime(Next(w, evs[0]), evs[1..]))
  }

  predicate Alone(w: World) {
    |w.calling| <= 1 && (|w.calling| == 1 ==> w.calling[0].wireId == w.id)
  }

  lemma StepKeepsAlone(w: World, ev: Event)
    requires Alone(w) && (ev.TakeId? ==> w.calling == [])
    ensures Alone(Next(w, ev))
  {
  }

  lemma AloneIsFresh(w: World, ev: Event)
    requires Inv(w) && Alone(w) && |w.calls| <= ID_SPACE
    ensures Fresh(w, ev)
  {
    if ev.Record? && Enabled(w, ev) {
      FreshWithinIdSpace(w, ev.i);
    }
  }

  lemma NextCounts(w: World, ev: Event)
    ensures |Next(w, ev).calls| == |w.calls| + if ev.TakeId? then 1 else 0
  {
  }

  /** A channel that makes at most 2^64 calls, one at a time, overwrites nothing. */
  lemma {:induction false} FewCallsAreFresh(w: World, evs: seq<Event>)
    requires Inv(w) && Alone(w) && OneAtATime(w, evs) && |w.calls| + CallsIn(evs) <= ID_SPACE
    ensures NoneOverwritten(w, evs)
    decreases |evs|
  {
    if evs == [] {
    } else {
      AloneIsFresh(w, evs[0]);
      NextKeepsInv(w, evs[0]);
      StepKeepsAlone(w, evs[0]);
      NextCounts(w, evs[0]);
      FewCallsAreFresh(Next(w, evs[0]), evs[1..]);
    }
  }

  lemma CountedOnce(s: seq<nat>)
    requires forall k :: multiset(s)[k] <= 1
    ensures NoRepeats(s)
  {
    forall i, j | 0 <= i < j < |s|
      ensures s[i] != s[j]
    {
      RemoveAtMultiset(s, i);
      var rest := RemoveAt(s, i);
      assert rest[j - 1] == s[j];
      assert multiset(rest)[s[j]] > 0;
      assert multiset(s)[s[j]] <= 1;
    }
  }

  /**
   Each closure has run at most once, on what the server answered to that very call: the reply of
   its service, or nothing if it was refused; the table holds exactly the calls that were recorded
   and whose closure has not run; no response was ignored.
   */
  ghost predicate Orderly(w: World) {
    && NoRepeats(Ran(w.completed))
    && (forall i :: 0 <= i < |w.completed| ==> Expected(w, w.completed[i].ran, w.completed[i].found))
    && (forall k :: 0 <= k < |w.calls| ==> (Open(w, k) <==> Lookup(w.outstandings, WireId(k)) == Some(k)))
    && (forall id <- w.outstandings :: w.outstandings[id] < |w.calls| && id == WireId(w.outstandings[id]))
    && w.ignored == []
  }

  lemma InvIsOrderly(w: World)
    requires Inv(w)
    ensures Orderly(w)
  {
    forall k: nat
      ensures multiset(Ran(w.completed))[k] <= 1
    {
      TraceIsUnique(w, k);
    }
    CountedOnce(Ran(w.completed));
  }

  /** Over every run with at most 2^64 calls, made one at a time, whatever overtakes what. */
  lemma EachCallAnsweredOnce(services: Services, evs: seq<Event>)
    requires CallsIn(evs) <= ID_SPACE && OneAtATime(Start(services), evs)
    ensures Orderly(Run(Start(services), evs))
  {
    StartKeepsInv(services);
    FewCallsAreFresh(Start(services), evs);
    RunKeepsInv(Start(services), evs);
    InvIsOrderly(Run(Start(services), evs));
  }

  /** Over every run with any number of calls from any threads, as long as each is recorded fresh. */
  lemma AnsweredOnceWhileFresh(services: Services, evs: seq<Event>)
    requires NoneOverwritten(Start(services), evs)
    ensures Orderly(Run(Start(services), evs))
  {
    StartKeepsInv(services);
    RunKeepsInv(Start(services), evs);
    InvIsOrderly(Run(Start(services), evs));
  }

  /** When nobody is calling, nothing is on the way and no service is busy, every call has been answered. */
  lemma QuietMeansAnswered(services: Services, evs: seq<Event>)
    requires NoneOverwritten(Start(services), evs)
    requires var w := Run(Start(services), evs);
             w.calling == [] && w.toServer == [] && w.executing == [] && w.toClient == []
    ensures var w := Run(Start(services), evs);
            w.outstandings == map[] && multiset(Ran(w.completed)) == multiset(UpTo(|w.calls|))
  {
    StartKeepsInv(services);
    RunKeepsInv(Start(services), evs);
    var w := Run(Start(services), evs);
    assert Traces(w) == multiset(Ran(w.completed));
    forall k | 0 <= k < |w.calls|
      ensures k in Ran(w.completed)
    {
      UpToCount(|w.calls|, k);
      assert k in multiset(Ran(w.completed));
    }
    assert forall k :: !Open(w, k);
  }

  // ---------- What a closure can tell ----------

  /** A closure finds something if and only if its call was served and the service replied with something. */
  lemma FoundMeansServed(services: Services, evs: seq<Event>, i: nat)
    requires NoneOverwritten(Start(services), evs) && i < |Run(Start(services), evs).completed|
    ensures var w := Run(Start(services), evs);
            var c := w.completed[i];
            && c.ran < |w.calls|
            && (c.found != [] <==>
                  && Servable(w.services, w.calls[c.ran]) && c.ran in w.results && w.results[c.ran] != [])
  {
    AnsweredOnceWhileFresh(services, evs);
  }

  lemma FirstEvent(w: World, ev: Event, rest: seq<Event>)
    ensures Run(w, [ev] + rest) == Run(Next(w, ev), rest)
  {
    assert ([ev] + rest)[1..] == rest;
  }

  /** A whole call, up to the request on its way, on a channel where nothing else happens. */
  lemma FirstCall(services: Services, call: Call, rest: seq<Event>)
    ensures Run(Start(services), [TakeId(call)] + ([Record(0)] + rest)) ==
            Run(Recorded(TookId(Start(services), call), 0), rest)
  {
    FirstEvent(Start(services), TakeId(call), [Record(0)] + rest);
    FirstEvent(TookId(Start(services), call), Record(0), rest);
  }

  function RefusedCall(call: Call): seq<Event> {
    [TakeId(call)] + ([Record(0)] + ([ServerReceives(0)] + ([ClientReceives(0)] + [])))
  }

  function EmptyReply(call: Call): seq<Event> {
    [TakeId(call)] + ([Record(0)] + ([ServerReceives(0)] + ([ServiceDone(0, [])] + ([ClientReceives(0)] + []))))
  }

  lemma RefusedRun(services: Services, call: Call)
    requires !Servable(services, call)
    ensures Run(Start(services), RefusedCall(call)).completed == [Completion(0, [], 0)]
  {
    var w1 := Recorded(TookId(Start(services), call), 0);
    var w2 := Received(w1, 0);
    FirstCall(services, call, [ServerReceives(0)] + ([ClientReceives(0)] + []));
    FirstEvent(w1, ServerReceives(0), [ClientReceives(0)] + []);
    FirstEvent(w2, ClientReceives(0), []);
  }

  lemma ServedEmpty(w: World, wireId: nat)
    requires w.executing == [Executing(wireId, 0)] && w.toClient == [] && w.completed == []
    requires Lookup(w.outstandings, wireId) == Some(0)
    ensures Run(w, [ServiceDone(0, [])] + ([ClientReceives(0)] + [])).completed == [Completion(0, [], 0)]
  {
    var w1 := Served(w, 0, []);
    FirstEvent(w, ServiceDone(0, []), [ClientReceives(0)] + []);
    FirstEvent(w1, ClientReceives(0), []);
  }

  lemma EmptyRun(services: Services, call: Call)
    requires Servable(services, call)
    ensures Run(Start(services), EmptyReply(call)).completed == [Completion(0, [], 0)]
  {
    var w1 := Recorded(TookId(Start(services), call), 0);
    FirstCall(services, call, [ServerReceives(0)] + ([ServiceDone(0, [])] + ([ClientReceives(0)] + [])));
    FirstEvent(w1, ServerReceives(0), [ServiceDone(0, [])] + ([ClientReceives(0)] + []));
    ServedEmpty(Received(w1, 0), w1.id);
  }

  /** A refused call and one that is served with an empty reply end in the same way for their caller. */
  lemma RefusalLooksEmpty(refusing: Services, serving: Services, call: Call)
    requires !Servable(refusing, call) && Servable(serving, call)
    ensures Run(Start(refusing), RefusedCall(call)).completed == Run(Start(serving), EmptyReply(call)).completed
  {
    RefusedRun(refusing, call);
    EmptyRun(serving, call);
  }

  // ---------- Calls that are lost ----------

  /** Two threads in `CallMethod` at once: the first call is in the table under no identifier at all. */
  lemma CallsAtOnce(services: Services, a: Call, b: Call)
    ensures var w := Run(Start(services), [TakeId(a)] + ([TakeId(b)] + ([Record(0)] + ([Record(0)] + []))));
            && |w.calls| == 2 && w.calling == [] && w.completed == []
            && w.outstandings == map[WireId(1) := 1] && !Exact(w)
  {
    var w1 := TookId(Start(services), a);
    var w2 := TookId(w1, b);
    var w3 := Recorded(w2, 0);
    var w4 := Recorded(w3, 0);
    FirstEvent(Start(services), TakeId(a), [TakeId(b)] + ([Record(0)] + ([Record(0)] + [])));
    FirstEvent(w1, TakeId(b), [Record(0)] + ([Record(0)] + []));
    FirstEvent(w2, Record(0), [Record(0)] + []);
    FirstEvent(w3, Record(0), []);
    assert w3.calling == [Calling(2, b, 1)];
    assert Open(w4, 0);
  }

  function Calls(call: Call, n: nat): seq<Event> {
    if n == 0 then [] else [TakeId(call)] + ([Record(0)] + Calls(call, n - 1))
  }

  lemma OneCall(w: World, call: Call, rest: seq<Event>)
    requires w.calling == []
    ensures Run(w, [TakeId(call)] + ([Record(0)] + rest)) == Run(Recorded(TookId(w, call), 0), rest)
    ensures OneAtATime(w, [TakeId(call)] + ([Record(0)] + rest)) <==> OneAtATime(Recorded(TookId(w, call), 0), rest)
    ensures CallsIn([TakeId(call)] + ([Record(0)] + rest)) == 1 + CallsIn(rest)
  {
    FirstEvent(w, TakeId(call), [Record(0)] + rest);
    FirstEvent(TookId(w, call), Record(0), rest);
    assert ([TakeId(call)] + ([Record(0)] + rest))[1..] == [Record(0)] + rest;
    assert ([Record(0)] + rest)[1..] == rest;
  }

  lemma {:induction false} OnlyCalls(w: World, call: Call, n: nat)
    requires w.calling == []
    ensures var d := Run(w, Calls(call, n));
            |d.calls| == |w.calls| + n && d.completed == w.completed && d.calling == []
    ensures CallsIn(Calls(call, n)) == n && OneAtATime(w, Calls(call, n))
    decreases n
  {
    if n == 0 {
    } else {
      OneCall(w, call, Calls(call, n - 1));
      OnlyCalls(Recorded(TookId(w, call), 0), call, n - 1);
    }
  }

  lemma FullTable(w: World)
    requires Inv(w) && |w.calls| == ID_SPACE && w.completed == [] && w.calling == []
    ensures Lookup(w.outstandings, NextId(w.id)) == Some(0)
  {
    IdsRepeat(0, ID_SPACE);
    assert Open(w, 0);
  }

  lemma NextCallOverwrites(w: World, call: Call)
    requires Inv(w) && w.calling == [] && NextId(w.id) in w.outstandings
    ensures !Exact(Recorded(TookId(w, call), 0))
  {
    TakeKeepsInv(w, call);
    RecordKeepsExact(TookId(w, call), 0);
  }

  /** The bound is sharp: after 2^64 unanswered calls the next one overwrites the first. */
  lemma OneCallTooMany(services: Services, call: Call)
    ensures var w := Run(Start(services), Calls(call, ID_SPACE));
            && Orderly(w) && w.completed == [] && w.calling == []
            && Lookup(w.outstandings, NextId(w.id)) == Some(0)
            && !Exact(Recorded(TookId(w, call), 0))
  {
    var evs := Calls(call, ID_SPACE);
    var w := Run(Start(services), evs);
    OnlyCalls(Start(services), call, ID_SPACE);
    StartKeepsInv(services);
    FewCallsAreFresh(Start(services), evs);
    RunKeepsInv(Start(services), evs);
    InvIsOrderly(w);
    FullTable(w);
    NextCallOverwrites(w, call);
  }
}
