/**
 The RPC session of internal/api/api.go: one client, its call/reconnect/replay
 logic, and the server's request loop on every connection it ever opened.
 Frames are atomic; a connection may lose frames or fail at any point, and a
 write that reports an error may or may not have delivered its frame.
 */
module RpcSession {
  import opened Wrappers

  /** The operations that either list below names, and nack; every other one is `Other`. */
  datatype Op =
    | Ping | SendMessage | CheckInbox | Ack | Extend | ListEvents | Who | SetAlias | RemoveAlias | ListAliases
    | ResolveAlias | AliasPreflight | ListCapabilities | InvokeReadCapability | LiveRegistrations | MonitorAttach
    | ExpireRegistration | HeartbeatRegistrations | ListConditions | ClaimConditionPresentation | ArchivePreflight
    | Nack | Other(name: string)

  /** Operations that a client may send again on a new connection. */
  predicate RetryAfterReconnect(op: Op) {
    !op.Other? && !op.Nack?
  }

  /** Operations that make a provisional identity final before they run. */
  predicate FinalizesProvisionalActor(op: Op) {
    match op
    case Ping | ListEvents | Who | ListAliases | ResolveAlias | ListCapabilities | InvokeReadCapability
      | LiveRegistrations | HeartbeatRegistrations | ListConditions => false
    case _ => true
  }

  // ---------------------------------------------------------------------
  // State
  // ---------------------------------------------------------------------

  datatype Request = Request(id: nat, op: Op)

  datatype Status = Ok | Error | Reassigned

  datatype Response = Response(id: nat, status: Status)

  /** The `attempt`-th copy of a call's request. */
  datatype Copy = Copy(call: nat, attempt: nat)

  datatype Connection = Connection(
    toServer: seq<Request>,   // written, not yet read by the server
    toClient: seq<Response>,  // answered, not yet read by the client
    serving: bool,            // the server's loop is running
    entered: bool,            // the server's loop was entered after the hello
    born: bool,               // the identity was provisional at hello
    provisional: bool,        // the server's view of it now
    released: bool,           // the release at disconnect was asked for
    sent: map<nat, Copy>)     // history: what each request ID carried

  /** What became of a copy that reached the wire, and where. */
  datatype Fate =
    | InFlight(conn: nat, id: nat)
    | Dispatched(conn: nat, id: nat, index: nat, ok: bool) // `index` into the dispatch log
    | Rejected(conn: nat, id: nat)                         // answered before dispatch

  datatype Dispatch = Dispatch(conn: nat, copy: Copy, op: Op, provisional: bool)

  datatype Phase =
    | Idle
    | Dialing(call: nat, attempt: nat)
    | Writing(call: nat, attempt: nat)
    | Reading(call: nat, attempt: nat)

  datatype Outcome =
    | Answered(status: Status, conn: nat, id: nat)
    | Broken // a connect, write, read, decode or correlation error

  /** The connections ever opened, with what the server did; `ops` names the operation of each call so far. */
  datatype Wire = Wire(
    conns: map<nat, Connection>,
    nextConn: nat,
    ops: seq<Op>,
    fates: map<Copy, Fate>,
    log: seq<Dispatch>) // the server's dispatches, in order

  datatype State = State(
    connection: Option<nat>, // the client's current connection
    nextID: nat,
    provisional: bool,       // the client's view of its identity
    phase: Phase,
    results: map<nat, Outcome>,
    wire: Wire)

  const INIT := State(None, 0, false, Idle, map[], Wire(map[], 0, [], map[], []))

  // ---------------------------------------------------------------------
  // What happens on the wire
  // ---------------------------------------------------------------------

  /**
   What a hello leaves behind once the server has bound an actor. The server enters its request loop
   unless it fails to set up channel attention or to write the reply, which may have got through even so.
   */
  datatype Bound = Bound(provisional: bool, entered: bool)

  function NewConnection(bound: Bound): Connection {
    Connection([], [], bound.entered, bound.entered, bound.provisional, bound.provisional, false, map[])
  }

  function Open(w: Wire, bound: Bound): Wire {
    w.(conns := w.conns[w.nextConn := NewConnection(bound)], nextConn := w.nextConn + 1)
  }

  /** Writes the request of `copy` under `id`. */
  function Put(w: Wire, conn: nat, id: nat, copy: Copy): Wire
    requires conn in w.conns && copy.call < |w.ops|
  {
    var c := w.conns[conn];
    var put := c.(toServer := c.toServer + [Request(id, w.ops[copy.call])], sent := c.sent[id := copy]);
    w.(conns := w.conns[conn := put],
    fates := w.fates[copy := InFlight(conn, id)])
  }

  /** Takes the first response of a connection. */
  function Take(w: Wire, conn: nat): Wire
    requires conn in w.conns && w.conns[conn].toClient != []
  {
    w.(conns := w.conns[conn := w.conns[conn].(toClient := w.conns[conn].toClient[1..])])
  }

  function Disconnect(c: Connection): Connection {
    if c.serving then c.(serving := false, released := c.provisional) else c
  }

  function HangUpOn(w: Wire, conn: nat): Wire
    requires conn in w.conns
  {
    w.(conns := w.conns[conn := Disconnect(w.conns[conn])])
  }

  datatype BindingCheck = StillCurrent | BindingReassigned | StoreError

  /** What the store and the transport do during one turn of the server. */
  datatype ServeChoice = ServeChoice(binding: BindingCheck, finalized: bool, ok: bool, delivered: bool)

  predicate CanServe(w: Wire, conn: nat) {
    && conn in w.conns && w.conns[conn].serving && w.conns[conn].toServer != []
    && w.conns[conn].toServer[0].id in w.conns[conn].sent
  }

  function ReplyTo(c: Connection, status: Status, delivered: bool): Connection
    requires c.toServer != []
  {
    c.(toServer := c.toServer[1..],
    toClient := if delivered then c.toClient + [Response(c.toServer[0].id, status)] else c.toClient)
  }

  /** The head request is answered without being dispatched. */
  function Reject(w: Wire, conn: nat, status: Status, delivered: bool): Wire
    requires CanServe(w, conn)
  {
    var c := w.conns[conn];
    w.(conns := w.conns[conn := ReplyTo(c, status, delivered)],
    fates := w.fates[c.sent[c.toServer[0].id] := Rejected(conn, c.toServer[0].id)])
  }

  /** The head request is dispatched; a response that cannot be written ends the server's loop. */
  function DispatchHead(w: Wire, conn: nat, ok: bool, delivered: bool): Wire
    requires CanServe(w, conn)
  {
    var c := w.conns[conn];
    var request := c.toServer[0];
    var copy := c.sent[request.id];
    var finalized := c.(provisional := c.provisional && !FinalizesProvisionalActor(request.op));
    var answered := ReplyTo(finalized, if ok then Ok else Error, delivered);
    w.(conns := w.conns[conn := if delivered then answered else Disconnect(answered)],
    fates := w.fates[copy := Dispatched(conn, request.id, |w.log|, ok)],
    log := w.log + [Dispatch(conn, copy, request.op, finalized.provisional)])
  }

  /** One turn of the server's request loop. */
  function ServeNext(w: Wire, conn: nat, choice: ServeChoice): Wire
    requires CanServe(w, conn)
  {
    var c := w.conns[conn];
    if c.provisional && choice.binding == BindingReassigned then Reject(w, conn, Reassigned, choice.delivered)
    else if c.provisional && choice.binding == StoreError then Reject(w, conn, Error, choice.delivered)
    else if c.provisional && FinalizesProvisionalActor(c.toServer[0].op) && !choice.finalized then
      Reject(w, conn, Error, choice.delivered)
    else DispatchHead(w, conn, choice.ok, choice.delivered)
  }

  // ---------------------------------------------------------------------
  // Events
  // ---------------------------------------------------------------------

  datatype Connect =
    | Connected(bound: Bound)
    | ConnectFailed(orphan: Option<Bound>) // the server may have bound an actor nobody uses

  datatype Write = Written | Lost | Ambiguous

  datatype Event =
    | Begin(op: Op)
    | Dial(result: Connect)
    | Transmit(write: Write, contextDone: bool)
    | Receive(decodes: bool, contextDone: bool) // reads the next response
    | ReceiveFails(contextDone: bool)
    | CloseClient
    | Serve(conn: nat, choice: ServeChoice)
    | HangUp(conn: nat)

  function Finish(s: State, call: nat, outcome: Outcome): State {
    s.(phase := Idle, results := s.results[call := outcome])
  }

  /** A transport error: the first attempt closes the connection and may be retried, the second does neither. */
  function TransportFailure(s: State, call: nat, attempt: nat, op: Op, contextDone: bool): State {
    if attempt == 1 then
      if !RetryAfterReconnect(op) || contextDone then Finish(s.(connection := None), call, Broken)
      else s.(connection := None, phase := Dialing(call, 2))
    else
      Finish(s, call, Broken)
  }

  function HandleResponse(s: State, call: nat, attempt: nat, op: Op, conn: nat, response: Response,
                          contextDone: bool): State
  {
    if response.status == Reassigned && attempt == 1 && !contextDone then
      s.(connection := None, phase := Dialing(call, 2))
    else
      var provisional := s.provisional && !(response.status == Ok && FinalizesProvisionalActor(op));
      Finish(s.(provisional := provisional), call, Answered(response.status, conn, response.id))
  }

  /** The client is in the middle of a call and has a connection. */
  predicate Engaged(s: State) {
    && s.connection.Some? && s.connection.value in s.wire.conns
    && (s.phase.Writing? || s.phase.Reading?) && s.phase.call < |s.wire.ops|
  }

  /** The state after a write that may have reached the wire, before its outcome is handled. */
  function AfterWrite(s: State, write: Write): State
    requires Engaged(s)
  {
    var copy := Copy(s.phase.call, s.phase.attempt);
    s.(nextID := s.nextID + 1,
    wire := if write == Lost then s.wire else Put(s.wire, s.connection.value, s.nextID + 1, copy))
  }

  /** One atomic event; an event that is not enabled changes nothing. */
  function Apply(s: State, e: Event): State {
    match e
    case Begin(op) =>
      if s.phase != Idle then s
      else
        var call := |s.wire.ops|;
        s.(wire := s.wire.(ops := s.wire.ops + [op]),
        phase := if s.connection.None? then Dialing(call, 1) else Writing(call, 1))
    case Dial(Connected(bound)) =>
      if !s.phase.Dialing? then s
      else s.(connection := Some(s.wire.nextConn), nextID := 1, provisional := bound.provisional,
           phase := Writing(s.phase.call, s.phase.attempt), wire := Open(s.wire, bound))
    case Dial(ConnectFailed(orphan)) =>
      if !s.phase.Dialing? then s
      else Finish(s.(wire := if orphan.None? then s.wire else Open(s.wire, orphan.value)), s.phase.call, Broken)
    case Transmit(write, contextDone) =>
      if !Engaged(s) || !s.phase.Writing? then s
      else
        var call, attempt, op := s.phase.call, s.phase.attempt, s.wire.ops[s.phase.call];
        var put := AfterWrite(s, write);
        if write == Written then put.(phase := Reading(call, attempt))
        else TransportFailure(put, call, attempt, op, contextDone)
    case Receive(decodes, contextDone) =>
      if !Engaged(s) || !s.phase.Reading? || s.wire.conns[s.connection.value].toClient == [] then s
      else
        var call, attempt, op, conn := s.phase.call, s.phase.attempt, s.wire.ops[s.phase.call], s.connection.value;
        var response := s.wire.conns[conn].toClient[0];
        var read := s.(wire := Take(s.wire, conn));
        if response.id != s.nextID || (response.status == Ok && !decodes) then
          TransportFailure(read, call, attempt, op, contextDone)
        else HandleResponse(read, call, attempt, op, conn, response, contextDone)
    case ReceiveFails(contextDone) =>
      if !Engaged(s) || !s.phase.Reading? then s
      else TransportFailure(s, s.phase.call, s.phase.attempt, s.wire.ops[s.phase.call], contextDone)
    case CloseClient => if s.phase.Idle? then s.(connection := None) else s
    case Serve(conn, choice) => if CanServe(s.wire, conn) then s.(wire := ServeNext(s.wire, conn, choice)) else s
    case HangUp(conn) => if conn in s.wire.conns then s.(wire := HangUpOn(s.wire, conn)) else s
  }

  function Run(s: State, events: seq<Event>): State
    decreases |events|
  {
    if events == [] then s else Run(Apply(s, events[0]), events[1..])
  }
}
