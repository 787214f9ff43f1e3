/**
 What the server refuses and the client replays, said operation by operation:
 the lists of internal/api/api.go are fixed here by the names in them.
 */
module RpcAnswers {
  import opened Wrappers
  import opened RpcSession
  import opened RpcInvariant
  import opened RpcSafety

  /** The ten operations that only read, and so leave a provisional identity as it is. */
  predicate OnlyReads(op: Op) {
    op in {Ping, ListEvents, Who, ListAliases, ResolveAlias, ListCapabilities, InvokeReadCapability, LiveRegistrations,
           HeartbeatRegistrations, ListConditions}
  }

  /** The twenty-one operations that a client may send twice. */
  predicate Replayable(op: Op) {
    || OnlyReads(op)
    || op in {SendMessage, CheckInbox, Ack, Extend, SetAlias, RemoveAlias, AliasPreflight, MonitorAttach,
              ExpireRegistration, ClaimConditionPresentation, ArchivePreflight}
  }

  // ---------------------------------------------------------------------
  // The server
  // ---------------------------------------------------------------------

  /** The request that the server takes next, and the copy it belongs to. */
  function Head(w: Wire, conn: nat): Request
    requires CanServe(w, conn)
  {
    w.conns[conn].toServer[0]
  }

  function HeadCopy(w: Wire, conn: nat): Copy
    requires CanServe(w, conn)
  {
    w.conns[conn].sent[Head(w, conn).id]
  }

  /**
   A provisional identity lost its binding or cannot be checked, or cannot be made final for an operation
   that needs it.
   */
  predicate MustRefuse(w: Wire, conn: nat, choice: ServeChoice)
    requires CanServe(w, conn)
  {
    && w.conns[conn].provisional
    && (choice.binding != StillCurrent || (!OnlyReads(Head(w, conn).op) && !choice.finalized))
  }

  /** What the client is sent, if it gets through. */
  predicate Sends(before: Connection, after: Connection, response: Response, delivered: bool) {
    after.toClient == if delivered then before.toClient + [response] else before.toClient
  }

  lemma RefusesBeforeDispatch(s: State, conn: nat, choice: ServeChoice)
    requires Reachable(s) && CanServe(s.wire, conn) && MustRefuse(s.wire, conn, choice)
    ensures var w, t := s.wire, Apply(s, Serve(conn, choice)).wire;
            && t.log == w.log
            && conn in t.conns && t.conns[conn].provisional && t.conns[conn].serving
            && HeadCopy(w, conn) in t.fates && t.fates[HeadCopy(w, conn)] == Rejected(conn, Head(w, conn).id)
            && t.conns[conn].toServer == w.conns[conn].toServer[1..]
            && Sends(w.conns[conn], t.conns[conn],
                     Response(Head(w, conn).id, if choice.binding == BindingReassigned then Reassigned else Error),
                     choice.delivered)
  {
  }

  lemma DispatchesOtherwise(s: State, conn: nat, choice: ServeChoice)
    requires Reachable(s) && CanServe(s.wire, conn) && !MustRefuse(s.wire, conn, choice)
    ensures var w, t := s.wire, Apply(s, Serve(conn, choice)).wire;
            && conn in t.conns && HeadCopy(w, conn) in t.fates
            && t.fates[HeadCopy(w, conn)] == Dispatched(conn, Head(w, conn).id, |w.log|, choice.ok)
            && |t.log| == |w.log| + 1 && t.log[..|w.log|] == w.log
            && t.log[|w.log|].copy == HeadCopy(w, conn) && t.log[|w.log|].op == Head(w, conn).op
            && t.conns[conn].provisional == (w.conns[conn].provisional && OnlyReads(Head(w, conn).op))
            && t.conns[conn].serving == choice.delivered
            && t.conns[conn].toServer == w.conns[conn].toServer[1..]
            && Sends(w.conns[conn], t.conns[conn],
                     Response(Head(w, conn).id, if choice.ok then Ok else Error), choice.delivered)
  {
  }

  lemma ServingKeepsRejected(w: Wire, conn: nat, choice: ServeChoice, copy: Copy)
    requires WireInv(w) && CanServe(w, conn) && copy in w.fates && w.fates[copy].Rejected?
    ensures copy in ServeNext(w, conn, choice).fates && ServeNext(w, conn, choice).fates[copy] == w.fates[copy]
  {
    assert QueuesInv(w, conn);
    assert RequestInv(w, conn, Head(w, conn));
  }

  lemma TransmittingKeepsRejected(s: State, write: Write, contextDone: bool, copy: Copy)
    requires PhaseInv(s) && copy in s.wire.fates && s.wire.fates[copy].Rejected?
    ensures var t := Apply(s, Transmit(write, contextDone)).wire;
            copy in t.fates && t.fates[copy] == s.wire.fates[copy]
  {
    if Engaged(s) && s.phase.Writing? {
      assert Apply(s, Transmit(write, contextDone)).wire == AfterWrite(s, write).wire;
    }
  }

  lemma OtherEventsSettleNothing(s: State, e: Event)
    requires !e.Serve? && !e.Transmit?
    ensures Apply(s, e).wire.fates == s.wire.fates
  {
  }

  lemma StepKeepsRejected(s: State, e: Event, copy: Copy)
    requires Inv(s) && copy in s.wire.fates && s.wire.fates[copy].Rejected?
    ensures copy in Apply(s, e).wire.fates && Apply(s, e).wire.fates[copy] == s.wire.fates[copy]
  {
    if e.Transmit? {
      TransmittingKeepsRejected(s, e.write, e.contextDone, copy);
    } else if !e.Serve? {
      OtherEventsSettleNothing(s, e);
    } else if CanServe(s.wire, e.conn) {
      ServingKeepsRejected(s.wire, e.conn, e.choice, copy);
    }
  }

  lemma {:induction false} RejectedStays(s: State, later: seq<Event>, copy: Copy)
    requires Inv(s) && copy in s.wire.fates && s.wire.fates[copy].Rejected?
    ensures copy in Run(s, later).wire.fates && Run(s, later).wire.fates[copy] == s.wire.fates[copy]
    ensures forall i | 0 <= i < |Run(s, later).wire.log| :: Run(s, later).wire.log[i].copy != copy
    decreases |later|
  {
    if later == [] {
      forall i | 0 <= i < |s.wire.log| ensures s.wire.log[i].copy != copy {
        assert LogInv(s.wire, i);
      }
    } else {
      StepKeepsRejected(s, later[0], copy);
      ApplyKeepsInv(s, later[0]);
      RejectedStays(Apply(s, later[0]), later[1..], copy);
    }
  }

  /**
   The server's request loop, turn by turn. It refuses exactly what a provisional identity must not run:
   nothing is dispatched then or over any later run for that copy, the identity stays provisional, and the
   client is told of a reassigned binding exactly when that is the reason. It dispatches everything else.
   */
  lemma RefusedIsNeverRun(s: State, conn: nat, choice: ServeChoice, later: seq<Event>)
    requires Reachable(s) && CanServe(s.wire, conn)
    ensures var t := Apply(s, Serve(conn, choice));
            var copy := HeadCopy(s.wire, conn);
            if MustRefuse(s.wire, conn, choice) then
              && t.wire.log == s.wire.log
              && forall i | 0 <= i < |Run(t, later).wire.log| :: Run(t, later).wire.log[i].copy != copy
            else
              |t.wire.log| == |s.wire.log| + 1 && t.wire.log[|s.wire.log|].copy == copy
  {
    if MustRefuse(s.wire, conn, choice) {
      RefusesBeforeDispatch(s, conn, choice);
      ReachableInv(s);
      ApplyKeepsInv(s, Serve(conn, choice));
      RejectedStays(Apply(s, Serve(conn, choice)), later, HeadCopy(s.wire, conn));
    } else {
      DispatchesOtherwise(s, conn, choice);
    }
  }

  /** The log of any run has every operation that does more than read under a final identity. */
  lemma OnlyReadsRunProvisionally(s: State, i: nat)
    requires Reachable(s) && i < |s.wire.log| && s.wire.log[i].provisional
    ensures OnlyReads(s.wire.log[i].op)
  {
    if !OnlyReads(s.wire.log[i].op) {
      NoProvisionalFinalisation(s, i);
    }
  }

  // ---------------------------------------------------------------------
  // The client
  // ---------------------------------------------------------------------

  /** A first attempt that fails in transport is repeated exactly for the replayable operations, while time is left. */
  lemma ReplaysExactlyTheReplayable(s: State, e: Event)
    requires Reachable(s) && EndsAttempt(s, e) && TransportFails(s, e) && s.phase.attempt == 1
    ensures var call := s.phase.call;
            && call < |s.wire.ops|
            && (Apply(s, e).phase == Dialing(call, 2) <==> Replayable(s.wire.ops[call]) && !e.contextDone)
  {
    SecondAttemptExactlyWhen(s, e);
  }

  /** Over any run of drops, reconnects and reassignments every other operation runs at most once. */
  lemma OthersRunAtMostOnce(s: State, call: nat)
    requires Reachable(s) && call < |s.wire.ops| && !Replayable(s.wire.ops[call])
    ensures Dispatches(s.wire.log, call) <= 1
  {
    UnsafeOpsRunAtMostOnce(s, call);
  }

  /** An answer that ends a call makes the client's identity final exactly for a success of more than a read. */
  lemma ClientBecomesFinal(s: State, e: Event)
    requires Reachable(s) && EndsAttempt(s, e) && Apply(s, e).phase.Idle?
    ensures var t := Apply(s, e);
            var stays := TransportFails(s, e) || EndOf(s, e).status != Ok || OnlyReads(s.wire.ops[s.phase.call]);
            t.provisional == (s.provisional && stays)
  {
    SecondAttemptExactlyWhen(s, e);
  }

  /** A connect gives the client a new connection, its identity as bound, and numbering from the hello's ID on. */
  lemma ConnectStartsAfresh(s: State, bound: Bound)
    requires Reachable(s) && s.phase.Dialing?
    ensures var t := Apply(s, Dial(Connected(bound)));
            && t.connection.Some? && t.connection.value !in s.wire.conns && t.connection.value in t.wire.conns
            && t.wire.conns[t.connection.value].sent == map[]
            && t.wire.conns[t.connection.value].serving == bound.entered
            && t.provisional == bound.provisional && t.wire.conns[t.connection.value].provisional == bound.provisional
            && t.nextID == 1 && t.phase == Writing(s.phase.call, s.phase.attempt)
  {
    ReachableInv(s);
    OpenKeepsWire(s.wire, bound);
  }

  // ---------------------------------------------------------------------
  // What an attempt does on its connection
  // ---------------------------------------------------------------------

  /** Every attempt takes a new ID, and puts the call's operation under it on the wire unless the write is lost. */
  lemma TransmitSends(s: State, write: Write, contextDone: bool)
    requires Engaged(s) && s.phase.Writing?
    ensures var t, conn := Apply(s, Transmit(write, contextDone)), s.connection.value;
            && t.nextID == s.nextID + 1 && t.wire.log == s.wire.log && conn in t.wire.conns
            && t.wire.conns[conn].toServer ==
               s.wire.conns[conn].toServer +
               (if write == Lost then [] else [Request(t.nextID, s.wire.ops[s.phase.call])])
  {
  }

  /** A read takes the first response and leaves the others and the server alone. */
  lemma ReceiveTakesOne(s: State, decodes: bool, contextDone: bool)
    requires Engaged(s) && s.phase.Reading? && s.wire.conns[s.connection.value].toClient != []
    ensures var t, conn := Apply(s, Receive(decodes, contextDone)), s.connection.value;
            && t.wire == s.wire.(conns := t.wire.conns) && t.wire.conns.Keys == s.wire.conns.Keys
            && t.wire.conns[conn].toClient == s.wire.conns[conn].toClient[1..]
            && t.wire.conns[conn].toServer == s.wire.conns[conn].toServer
            && forall other | other in s.wire.conns && other != conn ::
              t.wire.conns[other] == s.wire.conns[other]
  {
  }

  /** After a close the next call begins by dialling. */
  lemma CloseForcesADial(s: State, op: Op)
    requires s.phase.Idle?
    ensures var call := |s.wire.ops|;
            && Apply(s, Begin(op)).phase == (if s.connection.None? then Dialing(call, 1) else Writing(call, 1))
            && Apply(Apply(s, CloseClient), Begin(op)).phase == Dialing(call, 1)
            && Apply(s, CloseClient).wire == s.wire
  {
  }

  predicate Deserted(w: Wire, conn: nat) {
    conn in w.conns && conn < w.nextConn && !w.conns[conn].serving
  }

  lemma ServeKeepsDeserted(w: Wire, at: nat, choice: ServeChoice, conn: nat)
    requires CanServe(w, at) && Deserted(w, conn)
    ensures Deserted(ServeNext(w, at, choice), conn)
    ensures forall i | |w.log| <= i < |ServeNext(w, at, choice).log| :: ServeNext(w, at, choice).log[i].conn == at
    ensures w.log <= ServeNext(w, at, choice).log && at != conn
  {
  }

  lemma ClientKeepsDeserted(s: State, e: Event, conn: nat)
    requires Deserted(s.wire, conn) && !e.Serve?
    ensures Deserted(Apply(s, e).wire, conn) && Apply(s, e).wire.log == s.wire.log
  {
    ClientStartsNoLoop(s, e);
  }

  /** Once it has left the loop of a connection the server never dispatches anything from it again. */
  lemma {:induction false} NothingIsDispatchedAfterHangUp(s: State, conn: nat, later: seq<Event>)
    requires Deserted(s.wire, conn)
    ensures s.wire.log <= Run(s, later).wire.log
    ensures forall i | |s.wire.log| <= i < |Run(s, later).wire.log| :: Run(s, later).wire.log[i].conn != conn
    decreases |later|
  {
    if later != [] {
      var e, t := later[0], Apply(s, later[0]);
      if e.Serve? && CanServe(s.wire, e.conn) {
        ServeKeepsDeserted(s.wire, e.conn, e.choice, conn);
      } else if !e.Serve? {
        ClientKeepsDeserted(s, e, conn);
      }
      NothingIsDispatchedAfterHangUp(t, conn, later[1..]);
      var log := Run(s, later).wire.log;
      forall i | |s.wire.log| <= i < |log| ensures log[i].conn != conn {
        if i < |t.wire.log| {
          assert log[i] == t.wire.log[i];
        }
      }
    }
  }

  lemma HangUpDeserts(s: State, conn: nat)
    requires Reachable(s) && conn in s.wire.conns
    ensures Deserted(Apply(s, HangUp(conn)).wire, conn)
  {
    ReachableInv(s);
    assert conn < s.wire.nextConn;
  }

  // ---------------------------------------------------------------------
  // Whole calls
  // ---------------------------------------------------------------------

  /** The client is about to write on a connection that the server serves and nothing is under way on. */
  predicate Ready(s: State) {
    && Engaged(s) && s.phase.Writing?
    && var c := s.wire.conns[s.connection.value];
       c.serving && c.toServer == [] && c.toClient == []
  }

  /** One attempt whose frames all get through. */
  function Attempt(s: State, choice: ServeChoice): State
    requires s.connection.Some?
  {
    Apply(Apply(Apply(s, Transmit(Written, false)), Serve(s.connection.value, choice)), Receive(true, false))
  }

  lemma WrittenIsServable(s: State)
    requires Ready(s)
    ensures var t, conn := Apply(s, Transmit(Written, false)), s.connection.value;
            && CanServe(t.wire, conn) && t.wire.conns[conn].toServer == [Request(t.nextID, s.wire.ops[s.phase.call])]
            && t.wire.conns[conn].toClient == []
            && HeadCopy(t.wire, conn) == Copy(s.phase.call, s.phase.attempt)
            && t.wire.conns[conn].provisional == s.wire.conns[conn].provisional
            && t == s.(wire := t.wire, nextID := s.nextID + 1, phase := Reading(s.phase.call, s.phase.attempt))
            && t.wire.ops == s.wire.ops && t.wire.log == s.wire.log
  {
  }

  /** The identity lost its binding, cannot be checked, or cannot be made final for this operation. */
  predicate Refuses(s: State, choice: ServeChoice)
    requires Engaged(s)
  {
    && s.wire.conns[s.connection.value].provisional
    && (choice.binding != StillCurrent || (!OnlyReads(s.wire.ops[s.phase.call]) && !choice.finalized))
  }

  lemma ServedIsAnswered(s: State, choice: ServeChoice)
    requires Ready(s) && choice.delivered
    ensures var t, conn := Apply(s, Transmit(Written, false)), s.connection.value;
            var u := Apply(t, Serve(conn, choice));
            && u == t.(wire := u.wire) && Engaged(u) && u.wire.ops == s.wire.ops
            && (if Refuses(s, choice) then
                  && u.wire.log == s.wire.log
                  && u.wire.conns[conn].toClient ==
                     [Response(t.nextID, if choice.binding == BindingReassigned then Reassigned else Error)]
                else
                  && |u.wire.log| == |s.wire.log| + 1 && u.wire.log[..|s.wire.log|] == s.wire.log
                  && u.wire.log[|s.wire.log|].copy == Copy(s.phase.call, s.phase.attempt)
                  && u.wire.log[|s.wire.log|].op == s.wire.ops[s.phase.call]
                  && u.wire.conns[conn].toClient == [Response(t.nextID, if choice.ok then Ok else Error)])
  {
    WrittenIsServable(s);
  }

  /** An attempt on a working connection runs the operation once and answers it, or refuses it and says why. */
  lemma AttemptIsAnswered(s: State, choice: ServeChoice)
    requires Ready(s) && choice.delivered
    ensures var t := Attempt(s, choice);
            var call, log := s.phase.call, s.wire.log;
            t.wire.ops == s.wire.ops &&
            if Refuses(s, choice) && choice.binding == BindingReassigned && s.phase.attempt == 1 then
              t.wire.log == log && t.phase == Dialing(call, 2) && t.connection == None
            else
              && t.phase == Idle && call in t.results && t.results[call].Answered?
              && (if Refuses(s, choice) then
                    && t.wire.log == log
                    && t.results[call].status == if choice.binding == BindingReassigned then Reassigned else Error
                  else
                    && |t.wire.log| == |log| + 1 && t.wire.log[..|log|] == log
                    && t.wire.log[|log|].copy == Copy(call, s.phase.attempt)
                    && t.wire.log[|log|].op == s.wire.ops[call]
                    && t.results[call].status == if choice.ok then Ok else Error)
  {
    var u := Apply(Apply(s, Transmit(Written, false)), Serve(s.connection.value, choice));
    WrittenIsServable(s);
    ServedIsAnswered(s, choice);
    ReceiveTakesOne(u, true, false);
  }

  lemma DialIsReady(s: State, bound: Bound)
    requires s.phase.Dialing? && s.phase.call < |s.wire.ops| && bound.entered
    ensures var t := Apply(s, Dial(Connected(bound)));
            && Ready(t) && t.phase == Writing(s.phase.call, s.phase.attempt)
            && t.wire.ops == s.wire.ops && t.wire.log == s.wire.log
            && t.wire.conns[t.connection.value].provisional == bound.provisional
  {
  }

  /**
   A call whose first identity was reassigned and whose second stands runs exactly once, as its second
   copy, and its caller gets the server's answer to that copy: for every operation, also one that is
   not replayed after a lost connection.
   */
  lemma ReassignedCallRunsOnce(s: State, op: Op, first: Bound, again: Bound, ok: bool, finalized: bool)
    requires s.phase.Idle? && s.connection.None?
    requires first.entered && first.provisional && again.entered
    requires finalized || OnlyReads(op) || !again.provisional
    ensures var call := |s.wire.ops|;
            var dialled := Apply(Apply(s, Begin(op)), Dial(Connected(first)));
            Ready(dialled) &&
            var refused := Attempt(dialled, ServeChoice(BindingReassigned, finalized, ok, true));
            refused.wire.log == s.wire.log &&
            var redialled := Apply(refused, Dial(Connected(again)));
            Ready(redialled) &&
            var t := Attempt(redialled, ServeChoice(StillCurrent, finalized, ok, true));
            && t.phase == Idle && call in t.results && t.results[call].Answered?
            && t.results[call].status == (if ok then Ok else Error)
            && |t.wire.log| == |s.wire.log| + 1 && t.wire.log[..|s.wire.log|] == s.wire.log
            && t.wire.log[|s.wire.log|].copy == Copy(call, 2) && t.wire.log[|s.wire.log|].op == op
  {
    var begun := Apply(s, Begin(op));
    DialIsReady(begun, first);
    var dialled := Apply(begun, Dial(Connected(first)));
    var reassigned := ServeChoice(BindingReassigned, finalized, ok, true);
    AttemptIsAnswered(dialled, reassigned);
    var refused := Attempt(dialled, reassigned);
    DialIsReady(refused, again);
    AttemptIsAnswered(Apply(refused, Dial(Connected(again))), ServeChoice(StillCurrent, finalized, ok, true));
  }
}
