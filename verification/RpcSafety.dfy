/** What every run of the RPC session guarantees. */
module RpcSafety {
  import opened Wrappers
  import opened RpcSession
  import opened RpcInvariant

  /** How often the server dispatched copies of `call`. */
  function Dispatches(log: seq<Dispatch>, call: nat): nat {
    if log == [] then 0
    else Dispatches(log[..|log| - 1], call) + (if log[|log| - 1].copy.call == call then 1 else 0)
  }

  lemma {:induction false} NoneDispatched(log: seq<Dispatch>, call: nat)
    requires forall i | 0 <= i < |log| :: log[i].copy.call != call
    ensures Dispatches(log, call) == 0
  {
    if log != [] {
      NoneDispatched(log[..|log| - 1], call);
    }
  }

  /** Distinct log entries of a call belong to distinct attempts. */
  lemma {:induction false} DispatchesBound(log: seq<Dispatch>, call: nat, attempts: set<nat>)
    requires forall i | 0 <= i < |log| && log[i].copy.call == call :: log[i].copy.attempt in attempts
    requires forall i, j | 0 <= i < j < |log| :: log[i].copy != log[j].copy
    ensures Dispatches(log, call) <= |attempts|
  {
    if log != [] {
      var last, rest := log[|log| - 1].copy, log[..|log| - 1];
      if last.call == call {
        forall i | 0 <= i < |rest| && rest[i].copy.call == call
          ensures rest[i].copy.attempt in attempts - {last.attempt} {
          assert log[i].copy != log[|log| - 1].copy;
        }
        DispatchesBound(rest, call, attempts - {last.attempt});
      } else {
        DispatchesBound(rest, call, attempts);
      }
    }
  }

  lemma LogHasNoRepeats(s: State)
    requires Reachable(s)
    ensures forall i, j | 0 <= i < j < |s.wire.log| :: s.wire.log[i].copy != s.wire.log[j].copy
  {
    ReachableInv(s);
    forall i, j | 0 <= i < j < |s.wire.log| ensures s.wire.log[i].copy != s.wire.log[j].copy {
      assert LogInv(s.wire, i) && LogInv(s.wire, j);
    }
  }

  /**
   One call puts at most two copies of its request on the wire, each of them once, and the
   server runs each at most once.  A second copy of an operation outside the replay list
   exists only when the first was refused before it ran.
   */
  lemma AtMostTwoCopies(s: State, call: nat)
    requires Reachable(s)
    ensures forall copy | copy in s.wire.fates && copy.call == call :: copy.attempt == 1 || copy.attempt == 2
    ensures forall at, id | at in s.wire.conns && id in s.wire.conns[at].sent ::
              var copy := s.wire.conns[at].sent[id];
              copy in s.wire.fates && s.wire.fates[copy].conn == at && s.wire.fates[copy].id == id
    ensures Dispatches(s.wire.log, call) <= 2
    ensures call < |s.wire.ops| && !RetryAfterReconnect(s.wire.ops[call]) && Copy(call, 2) in s.wire.fates ==>
              Copy(call, 1) in s.wire.fates && s.wire.fates[Copy(call, 1)].Rejected?
  {
    ReachableInv(s);
    forall copy | copy in s.wire.fates && copy.call == call ensures copy.attempt == 1 || copy.attempt == 2 {
      assert CopyInv(s.wire, copy);
    }
    if Copy(call, 2) in s.wire.fates {
      assert CopyInv(s.wire, Copy(call, 2));
    }
    forall at, id | at in s.wire.conns && id in s.wire.conns[at].sent ensures SentAt(s.wire, at, id) {
    }
    LogHasNoRepeats(s);
    forall i | 0 <= i < |s.wire.log| && s.wire.log[i].copy.call == call ensures s.wire.log[i].copy.attempt in {1, 2} {
      assert LogInv(s.wire, i);
    }
    DispatchesBound(s.wire.log, call, {1, 2});
  }

  /** An operation outside the replay list runs at most once, however its call ended. */
  lemma UnsafeOpsRunAtMostOnce(s: State, call: nat)
    requires Reachable(s)
    requires call < |s.wire.ops| && !RetryAfterReconnect(s.wire.ops[call])
    ensures Dispatches(s.wire.log, call) <= 1
  {
    ReachableInv(s);
    LogHasNoRepeats(s);
    var attempt := if Copy(call, 2) in s.wire.fates then 2 else 1;
    forall i | 0 <= i < |s.wire.log| && s.wire.log[i].copy.call == call
      ensures s.wire.log[i].copy.attempt in {attempt} {
      assert LogInv(s.wire, i);
      assert CopyInv(s.wire, s.wire.log[i].copy);
      if Copy(call, 2) in s.wire.fates {
        assert CopyInv(s.wire, Copy(call, 2));
      }
    }
    DispatchesBound(s.wire.log, call, {attempt});
  }

  /**
   An answer given to a caller is what the server did with that caller's own latest copy,
   on the connection and under the ID that carried it.
   */
  lemma AnswerIsForOwnLatestRequest(s: State, call: nat)
    requires Reachable(s)
    requires call in s.results && s.results[call].Answered?
    ensures var Answered(status, conn, id) := s.results[call];
            && conn in s.wire.conns && id in s.wire.conns[conn].sent
            && var copy := s.wire.conns[conn].sent[id];
               && copy.call == call && copy in s.wire.fates
               && FateMatches(s.wire.fates[copy], conn, id, status)
               && forall later | later in s.wire.fates && later.call == call :: later.attempt <= copy.attempt
  {
    ReachableInv(s);
    assert ResultInv(s.wire, call, s.results[call]);
    forall later | later in s.wire.fates && later.call == call
      ensures later.attempt <= s.wire.conns[s.results[call].conn].sent[s.results[call].id].attempt
    {
      assert CopyInv(s.wire, later);
      assert CopyInv(s.wire, s.wire.conns[s.results[call].conn].sent[s.results[call].id]);
    }
  }

  /** A stale response left in the stream is never taken for the answer: the call fails or starts over. */
  lemma StaleResponseIsNotAnAnswer(s: State, decodes: bool, contextDone: bool)
    requires Reachable(s) && s.phase.Reading?
    requires s.connection.Some? && s.connection.value in s.wire.conns && s.wire.conns[s.connection.value].toClient != []
    ensures var call := s.phase.call;
            var conn := s.wire.conns[s.connection.value];
            var t := Apply(s, Receive(decodes, contextDone));
            && call !in s.results
            && conn.toClient[0].id in conn.sent
            && (call in t.results && t.results[call].Answered? ==>
                  conn.sent[conn.toClient[0].id] == Copy(call, s.phase.attempt))
            && (conn.sent[conn.toClient[0].id] != Copy(call, s.phase.attempt) ==>
                  t.phase == Dialing(call, 2) || (call in t.results && t.results[call] == Broken))
  {
    ReachableInv(s);
    assert QueuesInv(s.wire, s.connection.value);
    assert ResponseInv(s.wire, s.connection.value, s.wire.conns[s.connection.value].toClient[0]);
  }

  /** The event ends an attempt: a write that reported an error, a read that failed, or a response. */
  predicate EndsAttempt(s: State, e: Event) {
    && Engaged(s)
    && match e
       case Transmit(write, _) => s.phase.Writing? && write != Written
       case Receive(_, _) => s.phase.Reading? && s.wire.conns[s.connection.value].toClient != []
       case ReceiveFails(_) => s.phase.Reading?
       case _ => false
  }

  /** The attempt ends without a response that could be read, matched and decoded. */
  predicate TransportFails(s: State, e: Event)
    requires EndsAttempt(s, e)
  {
    e.Receive? ==>
      var response := s.wire.conns[s.connection.value].toClient[0];
      response.id != s.nextID || (response.status == Ok && !e.decodes)
  }

  function EndOf(s: State, e: Event): Outcome
    requires EndsAttempt(s, e)
  {
    if TransportFails(s, e) then Broken
    else Answered(s.wire.conns[s.connection.value].toClient[0].status, s.connection.value, s.nextID)
  }

  /**
   A call goes into its second attempt exactly when it was the first, time is left, and either the
   operation may be replayed and the write, the read or the correlation failed, or the server
   answered this very request with a reassigned binding.
   */
  lemma SecondAttemptExactlyWhen(s: State, e: Event)
    requires Reachable(s) && EndsAttempt(s, e)
    ensures var call, t := s.phase.call, Apply(s, e);
            var again := s.phase.attempt == 1 && !e.contextDone &&
                         if TransportFails(s, e) then RetryAfterReconnect(s.wire.ops[call])
                         else s.wire.conns[s.connection.value].toClient[0].status == Reassigned;
            && (t.phase == if again then Dialing(call, 2) else Idle)
            && (again ==> call !in t.results)
            && (!again ==> t.results == s.results[call := EndOf(s, e)])
            && (t.connection == if again || (TransportFails(s, e) && s.phase.attempt == 1) then None else s.connection)
  {
    assert s.phase.call !in s.results && (s.phase.attempt == 1 || s.phase.attempt == 2) by {
      ReachableInv(s);
    }
  }

  /** On its live connection the client believes in a final identity only when the server does. */
  lemma FinalityAgrees(s: State)
    requires Reachable(s)
    requires s.connection.Some? && !s.provisional
    ensures s.connection.value in s.wire.conns && !s.wire.conns[s.connection.value].provisional
  {
    ReachableInv(s);
  }

  /** No finalising operation is dispatched while the identity is provisional. */
  lemma NoProvisionalFinalisation(s: State, i: nat)
    requires Reachable(s) && i < |s.wire.log| && FinalizesProvisionalActor(s.wire.log[i].op)
    ensures !s.wire.log[i].provisional
  {
    ReachableInv(s);
    assert LogInv(s.wire, i);
  }

  /**
   The release at disconnect is made exactly when the server entered its loop for the actor, the connection
   has ended, and the actor was provisional with no finalising operation run on the connection.
   */
  lemma ReleasedExactlyWhenNeverFinalised(s: State, conn: nat)
    requires Reachable(s) && conn in s.wire.conns
    ensures var c := s.wire.conns[conn];
            c.released <==> c.entered && !c.serving && c.born && !FinalizedOn(s.wire.log, conn)
  {
    ReachableInv(s);
    assert IdentityInv(s.wire, conn);
    if FinalizedOn(s.wire.log, conn) {
      var i :| 0 <= i < |s.wire.log| && s.wire.log[i].conn == conn && FinalizesProvisionalActor(s.wire.log[i].op);
      assert LogInv(s.wire, i);
    }
  }

  /** Bound, never served, and without a release at disconnect. */
  predicate Leaked(w: Wire, conn: nat) {
    conn in w.conns && w.conns[conn].born && !w.conns[conn].entered && !w.conns[conn].serving && !w.conns[conn].released
  }

  lemma ServeKeepsLeaked(w: Wire, at: nat, choice: ServeChoice, conn: nat)
    requires CanServe(w, at) && Leaked(w, conn)
    ensures Leaked(ServeNext(w, at, choice), conn)
  {
    assert at != conn;
  }

  predicate LoopStays(before: Connection, after: Connection) {
    && after.born == before.born && after.entered == before.entered
    && (!before.serving ==> !after.serving && after.released == before.released)
  }

  /** No loop of a known connection is started, and nothing is dispatched. */
  predicate StartsNoLoop(w: Wire, t: Wire) {
    && t.log == w.log && w.nextConn <= t.nextConn
    && forall conn | conn in w.conns && conn != w.nextConn ::
         conn in t.conns && LoopStays(w.conns[conn], t.conns[conn])
  }

  lemma TransmitStartsNoLoop(s: State, write: Write, contextDone: bool)
    ensures StartsNoLoop(s.wire, Apply(s, Transmit(write, contextDone)).wire)
  {
    if Engaged(s) && s.phase.Writing? {
      assert Apply(s, Transmit(write, contextDone)).wire == AfterWrite(s, write).wire;
    }
  }

  lemma ReceiveStartsNoLoop(s: State, decodes: bool, contextDone: bool)
    ensures StartsNoLoop(s.wire, Apply(s, Receive(decodes, contextDone)).wire)
  {
    if Engaged(s) && s.phase.Reading? && s.wire.conns[s.connection.value].toClient != [] {
      assert Apply(s, Receive(decodes, contextDone)).wire == Take(s.wire, s.connection.value);
    }
  }

  lemma ClientStartsNoLoop(s: State, e: Event)
    requires !e.Serve?
    ensures StartsNoLoop(s.wire, Apply(s, e).wire)
  {
    match e
    case Transmit(write, contextDone) => TransmitStartsNoLoop(s, write, contextDone);
    case Receive(decodes, contextDone) => ReceiveStartsNoLoop(s, decodes, contextDone);
    case _ =>
  }

  lemma ClientKeepsLeaked(s: State, e: Event, conn: nat)
    requires Leaked(s.wire, conn) && conn != s.wire.nextConn && !e.Serve?
    ensures Leaked(Apply(s, e).wire, conn)
  {
    ClientStartsNoLoop(s, e);
  }

  lemma StepKeepsLeaked(s: State, e: Event, conn: nat)
    requires WireInv(s.wire) && Leaked(s.wire, conn)
    ensures Leaked(Apply(s, e).wire, conn)
  {
    assert IdentityInv(s.wire, conn);
    if !e.Serve? {
      ClientKeepsLeaked(s, e, conn);
    } else if CanServe(s.wire, e.conn) {
      ServeKeepsLeaked(s.wire, e.conn, e.choice, conn);
    }
  }

  lemma {:induction false} LeakedIsForever(s: State, events: seq<Event>, conn: nat)
    requires Inv(s) && Leaked(s.wire, conn)
    ensures Leaked(Run(s, events).wire, conn)
    decreases |events|
  {
    if events != [] {
      StepKeepsLeaked(s, events[0], conn);
      ApplyKeepsInv(s, events[0]);
      LeakedIsForever(Apply(s, events[0]), events[1..], conn);
    }
  }

  /**
   It happens: for a provisional actor whose hello reply cannot be written the release at disconnect is
   never made, whatever comes later.
   */
  lemma AbandonedHelloLeaksItsActor(op: Op, later: seq<Event>)
    ensures Leaked(Run(INIT, [Begin(op), Dial(ConnectFailed(Some(Bound(true, false))))] + later).wire, 0)
  {
    var begin, dial := Begin(op), Dial(ConnectFailed(Some(Bound(true, false))));
    var all := [begin, dial] + later;
    assert all[0] == begin && all[1..][0] == dial && all[1..][1..] == later;
    var s := Apply(Apply(INIT, begin), dial);
    assert Inv(INIT);
    ApplyKeepsInv(INIT, begin);
    ApplyKeepsInv(Apply(INIT, begin), dial);
    assert Run(INIT, all) == Run(s, later);
    LeakedIsForever(s, later, 0);
  }
}
