/** The invariant of the RPC session: every event keeps it. */
module RpcInvariant {
  import opened Wrappers
  import opened RpcSession

  // ---------------------------------------------------------------------
  // Invariant
  // ---------------------------------------------------------------------

  predicate RequestInv(w: Wire, conn: nat, r: Request)
    requires conn in w.conns
  {
    && r.id in w.conns[conn].sent
    && var copy := w.conns[conn].sent[r.id];
       && copy in w.fates && w.fates[copy] == InFlight(conn, r.id)
       && copy.call < |w.ops| && r.op == w.ops[copy.call]
  }

  /** A response tells what the server did with the copy that its ID carried. */
  predicate FateMatches(fate: Fate, conn: nat, id: nat, status: Status) {
    match status
    case Ok => fate.Dispatched? && fate.conn == conn && fate.id == id && fate.ok
    case Error => (fate.Dispatched? && fate.conn == conn && fate.id == id && !fate.ok) || fate == Rejected(conn, id)
    case Reassigned => fate == Rejected(conn, id)
  }

  predicate ResponseInv(w: Wire, conn: nat, p: Response)
    requires conn in w.conns
  {
    && p.id in w.conns[conn].sent
    && var copy := w.conns[conn].sent[p.id];
       && copy in w.fates && copy.call < |w.ops|
       && FateMatches(w.fates[copy], conn, p.id, p.status)
       && (p.status == Ok && FinalizesProvisionalActor(w.ops[copy.call]) ==> !w.conns[conn].provisional)
  }

  predicate QueuesInv(w: Wire, conn: nat)
    requires conn in w.conns
  {
    var c := w.conns[conn];
    && (forall i | 0 <= i < |c.toServer| :: RequestInv(w, conn, c.toServer[i]))
    && (forall i | 0 <= i < |c.toClient| :: ResponseInv(w, conn, c.toClient[i]))
    && (forall i, j | 0 <= i < j < |c.toServer| :: c.toServer[i].id < c.toServer[j].id)
  }

  predicate IdentityInv(w: Wire, conn: nat)
    requires conn in w.conns
  {
    var c := w.conns[conn];
    && conn < w.nextConn
    && (c.provisional ==> c.born)
    && (c.serving ==> c.entered)
    && (c.released <==> c.entered && !c.serving && c.provisional)
    && (c.born && !c.provisional ==> FinalizedOn(w.log, conn))
  }

  /** The server ran a finalising operation on this connection. */
  predicate FinalizedOn(log: seq<Dispatch>, conn: nat) {
    exists i :: 0 <= i < |log| && log[i].conn == conn && FinalizesProvisionalActor(log[i].op)
  }

  /**
   A second copy of a call is allowed: the operation is replayable, or the first copy was rejected
   before dispatch.
   */
  predicate MayRepeat(w: Wire, call: nat) {
    && call < |w.ops|
    && (RetryAfterReconnect(w.ops[call]) || (Copy(call, 1) in w.fates && w.fates[Copy(call, 1)].Rejected?))
  }

  predicate CopyInv(w: Wire, copy: Copy)
    requires copy in w.fates
  {
    var fate := w.fates[copy];
    && copy.call < |w.ops| && (copy.attempt == 1 || copy.attempt == 2)
    && (fate.Dispatched? ==> fate.index < |w.log| && w.log[fate.index].copy == copy)
    && fate.conn in w.conns && fate.id in w.conns[fate.conn].sent && w.conns[fate.conn].sent[fate.id] == copy
    && (copy.attempt == 2 ==> MayRepeat(w, copy.call))
  }

  predicate LogInv(w: Wire, i: nat)
    requires i < |w.log|
  {
    var d := w.log[i];
    && d.copy in w.fates && w.fates[d.copy].Dispatched? && w.fates[d.copy].index == i && w.fates[d.copy].conn == d.conn
    && d.copy.call < |w.ops| && d.op == w.ops[d.copy.call]
    && d.conn in w.conns
    && (FinalizesProvisionalActor(d.op) ==> !d.provisional && !w.conns[d.conn].provisional)
  }

  predicate WireInv(w: Wire) {
    && (forall conn :: conn in w.conns ==> QueuesInv(w, conn))
    && (forall conn :: conn in w.conns ==> IdentityInv(w, conn))
    && (forall copy :: copy in w.fates ==> CopyInv(w, copy))
    && (forall i :: 0 <= i < |w.log| ==> LogInv(w, i))
  }

  /** What a caller was told is what the server did with that caller's last copy. */
  predicate ResultInv(w: Wire, call: nat, outcome: Outcome) {
    && call < |w.ops|
    && (outcome.Answered? ==>
          && outcome.conn in w.conns && outcome.id in w.conns[outcome.conn].sent
          && var copy := w.conns[outcome.conn].sent[outcome.id];
             && copy.call == call && Copy(call, copy.attempt + 1) !in w.fates
             && copy in w.fates && FateMatches(w.fates[copy], outcome.conn, outcome.id, outcome.status))
  }

  predicate ResultsInv(w: Wire, results: map<nat, Outcome>) {
    forall call :: call in results ==> ResultInv(w, call, results[call])
  }

  /** The client's connection exists, its IDs are behind `nextID`, and a finality the client believes in is real. */
  predicate ClientInv(s: State) {
    s.connection.Some? ==>
      && s.connection.value in s.wire.conns
      && (forall id | id in s.wire.conns[s.connection.value].sent :: id <= s.nextID)
      && (!s.provisional ==> !s.wire.conns[s.connection.value].provisional)
  }

  /** The copies of the running call that its `attempt` may have put on the wire. */
  predicate AttemptInv(s: State, call: nat, attempt: nat) {
    && |s.wire.ops| == call + 1 && (attempt == 1 || attempt == 2)
    && (attempt == 1 ==> Copy(call, 2) !in s.wire.fates)
    && (attempt == 2 ==> MayRepeat(s.wire, call))
    && call !in s.results
  }

  predicate PhaseInv(s: State) {
    match s.phase
    case Idle => true
    case Dialing(call, attempt) =>
      s.connection == None && AttemptInv(s, call, attempt) && Copy(call, attempt) !in s.wire.fates
    case Writing(call, attempt) =>
      s.connection.Some? && AttemptInv(s, call, attempt) && Copy(call, attempt) !in s.wire.fates
    case Reading(call, attempt) =>
      && AttemptInv(s, call, attempt)
      && s.connection.Some? && s.connection.value in s.wire.conns
      && s.nextID in s.wire.conns[s.connection.value].sent
      && s.wire.conns[s.connection.value].sent[s.nextID] == Copy(call, attempt)
  }

  predicate Inv(s: State) {
    WireInv(s.wire) && ResultsInv(s.wire, s.results) && ClientInv(s) && PhaseInv(s)
  }

  // ---------------------------------------------------------------------
  // The client's events
  // ---------------------------------------------------------------------

  lemma NewOpKeepsWire(w: Wire, op: Op)
    requires WireInv(w)
    ensures WireInv(w.(ops := w.ops + [op]))
  {
    var t := w.(ops := w.ops + [op]);
    forall i | 0 <= i < |t.log| ensures LogInv(t, i) { assert LogInv(w, i); }
    forall conn | conn in t.conns ensures QueuesInv(t, conn) {
      assert QueuesInv(w, conn);
      var c := w.conns[conn];
      forall k | 0 <= k < |c.toServer| ensures RequestInv(t, conn, c.toServer[k]) {
        assert RequestInv(w, conn, c.toServer[k]);
      }
      forall k | 0 <= k < |c.toClient| ensures ResponseInv(t, conn, c.toClient[k]) {
        assert ResponseInv(w, conn, c.toClient[k]);
      }
    }
  }

  lemma BeginKeepsInv(s: State, op: Op)
    requires Inv(s)
    ensures Inv(Apply(s, Begin(op)))
  {
    NewOpKeepsWire(s.wire, op);
  }

  lemma OpenKeepsWire(w: Wire, bound: Bound)
    requires WireInv(w)
    ensures WireInv(Open(w, bound)) && w.nextConn !in w.conns
  {
    var t := Open(w, bound);
    forall i | 0 <= i < |t.log| ensures LogInv(t, i) { assert LogInv(w, i); }
    forall conn | conn in w.conns ensures QueuesInv(t, conn) {
      assert QueuesInv(w, conn) && IdentityInv(w, conn);
      var c := w.conns[conn];
      forall k | 0 <= k < |c.toServer| ensures RequestInv(t, conn, c.toServer[k]) {
        assert RequestInv(w, conn, c.toServer[k]);
      }
      forall k | 0 <= k < |c.toClient| ensures ResponseInv(t, conn, c.toClient[k]) {
        assert ResponseInv(w, conn, c.toClient[k]);
      }
    }
  }

  lemma OpenKeepsResults(w: Wire, bound: Bound, results: map<nat, Outcome>)
    requires ResultsInv(w, results) && w.nextConn !in w.conns
    ensures ResultsInv(Open(w, bound), results)
  {
    forall k | k in results ensures ResultInv(Open(w, bound), k, results[k]) { assert ResultInv(w, k, results[k]); }
  }

  lemma ConnectedKeepsInv(s: State, bound: Bound)
    requires Inv(s)
    ensures Inv(Apply(s, Dial(Connected(bound))))
  {
    if s.phase.Dialing? {
      OpenKeepsWire(s.wire, bound);
      OpenKeepsResults(s.wire, bound, s.results);
      var t := Apply(s, Dial(Connected(bound)));
      assert WireInv(t.wire) && ResultsInv(t.wire, t.results) && ClientInv(t) && PhaseInv(t);
    }
  }

  lemma ConnectFailedKeepsInv(s: State, orphan: Option<Bound>)
    requires Inv(s)
    ensures Inv(Apply(s, Dial(ConnectFailed(orphan))))
  {
    if s.phase.Dialing? && orphan.Some? {
      OpenKeepsWire(s.wire, orphan.value);
      OpenKeepsResults(s.wire, orphan.value, s.results);
    }
  }

  lemma DialKeepsInv(s: State, result: Connect)
    requires Inv(s)
    ensures Inv(Apply(s, Dial(result)))
  {
    match result
    case Connected(bound) => ConnectedKeepsInv(s, bound);
    case ConnectFailed(orphan) => ConnectFailedKeepsInv(s, orphan);
  }

  lemma TransportFailureKeepsInv(s: State, call: nat, attempt: nat, contextDone: bool)
    requires WireInv(s.wire) && ResultsInv(s.wire, s.results) && ClientInv(s) && AttemptInv(s, call, attempt)
    ensures Inv(TransportFailure(s, call, attempt, s.wire.ops[call], contextDone))
  {
  }

  lemma PutKeepsQueues(w: Wire, conn: nat, id: nat, copy: Copy, at: nat)
    requires WireInv(w) && conn in w.conns && at in w.conns
    requires forall other | other in w.conns[conn].sent :: other < id
    requires copy !in w.fates && copy.call < |w.ops|
    ensures QueuesInv(Put(w, conn, id, copy), at)
  {
    var t := Put(w, conn, id, copy);
    assert QueuesInv(w, at);
    var c := t.conns[at];
    forall k | 0 <= k < |c.toServer| ensures RequestInv(t, at, c.toServer[k]) {
      if k < |w.conns[at].toServer| {
        assert c.toServer[k] == w.conns[at].toServer[k];
        assert RequestInv(w, at, c.toServer[k]);
      }
    }
    forall k | 0 <= k < |c.toClient| ensures ResponseInv(t, at, c.toClient[k]) {
      assert ResponseInv(w, at, c.toClient[k]);
    }
  }

  /** A fresh copy under a fresh ID joins the queue of a connection. */
  lemma PutKeepsWire(w: Wire, conn: nat, id: nat, copy: Copy)
    requires WireInv(w) && conn in w.conns
    requires forall other | other in w.conns[conn].sent :: other < id
    requires copy !in w.fates && copy.call < |w.ops|
    requires copy.attempt == 1 || (copy.attempt == 2 && MayRepeat(w, copy.call))
    ensures WireInv(Put(w, conn, id, copy))
  {
    var t := Put(w, conn, id, copy);
    forall i | 0 <= i < |t.log| ensures LogInv(t, i) { assert LogInv(w, i); }
    forall x | x in t.fates ensures CopyInv(t, x) {
      if x != copy { assert CopyInv(w, x); }
    }
    forall at | at in t.conns ensures QueuesInv(t, at) && IdentityInv(t, at) {
      PutKeepsQueues(w, conn, id, copy, at);
      assert IdentityInv(w, at);
    }
  }

  /** A copy of a call that has no result yet disturbs no result. */
  lemma PutKeepsResults(w: Wire, results: map<nat, Outcome>, conn: nat, id: nat, copy: Copy)
    requires ResultsInv(w, results) && conn in w.conns && id !in w.conns[conn].sent && copy.call < |w.ops|
    requires copy !in w.fates && copy.call !in results
    ensures ResultsInv(Put(w, conn, id, copy), results)
  {
    forall call | call in results ensures ResultInv(Put(w, conn, id, copy), call, results[call]) {
      assert ResultInv(w, call, results[call]);
    }
  }

  lemma WriteKeepsClient(s: State, write: Write)
    requires Engaged(s) && s.phase.Writing? && ClientInv(s)
    requires AttemptInv(s, s.phase.call, s.phase.attempt) && Copy(s.phase.call, s.phase.attempt) !in s.wire.fates
    ensures ClientInv(AfterWrite(s, write)) && AttemptInv(AfterWrite(s, write), s.phase.call, s.phase.attempt)
  {
  }

  lemma NextIDIsFresh(s: State)
    requires ClientInv(s) && s.connection.Some?
    ensures forall other | other in s.wire.conns[s.connection.value].sent :: other < s.nextID + 1
    ensures s.nextID + 1 !in s.wire.conns[s.connection.value].sent
  {
  }

  lemma WriteKeepsResults(s: State, write: Write)
    requires Engaged(s) && s.phase.Writing? && ClientInv(s) && ResultsInv(s.wire, s.results)
    requires AttemptInv(s, s.phase.call, s.phase.attempt) && Copy(s.phase.call, s.phase.attempt) !in s.wire.fates
    ensures ResultsInv(AfterWrite(s, write).wire, s.results)
  {
    if write != Lost {
      NextIDIsFresh(s);
      PutKeepsResults(s.wire, s.results, s.connection.value, s.nextID + 1, Copy(s.phase.call, s.phase.attempt));
    }
  }

  lemma WriteKeepsWire(s: State, write: Write)
    requires Engaged(s) && s.phase.Writing? && ClientInv(s) && WireInv(s.wire)
    requires AttemptInv(s, s.phase.call, s.phase.attempt) && Copy(s.phase.call, s.phase.attempt) !in s.wire.fates
    ensures WireInv(AfterWrite(s, write).wire)
  {
    if write == Lost {
      assert AfterWrite(s, write).wire == s.wire;
    } else {
      NextIDIsFresh(s);
      var copy := Copy(s.phase.call, s.phase.attempt);
      assert AfterWrite(s, write).wire == Put(s.wire, s.connection.value, s.nextID + 1, copy);
      PutKeepsWire(s.wire, s.connection.value, s.nextID + 1, Copy(s.phase.call, s.phase.attempt));
    }
  }

  lemma TransmitKeepsInv(s: State, write: Write, contextDone: bool)
    requires Inv(s)
    ensures Inv(Apply(s, Transmit(write, contextDone)))
  {
    if s.phase.Writing? {
      WriteKeepsClient(s, write);
      WriteKeepsResults(s, write);
      WriteKeepsWire(s, write);
      if write != Written {
        TransportFailureKeepsInv(AfterWrite(s, write), s.phase.call, s.phase.attempt, contextDone);
      }
    }
  }

  lemma TakeKeepsWire(w: Wire, conn: nat)
    requires WireInv(w) && conn in w.conns && w.conns[conn].toClient != []
    ensures WireInv(Take(w, conn))
  {
    var t := Take(w, conn);
    forall i | 0 <= i < |t.log| ensures LogInv(t, i) { assert LogInv(w, i); }
    forall at | at in t.conns ensures QueuesInv(t, at) && IdentityInv(t, at) {
      assert QueuesInv(w, at) && IdentityInv(w, at);
      var c := t.conns[at];
      forall k | 0 <= k < |c.toServer| ensures RequestInv(t, at, c.toServer[k]) {
        assert RequestInv(w, at, c.toServer[k]);
      }
      forall k | 0 <= k < |c.toClient| ensures ResponseInv(t, at, c.toClient[k]) {
        assert ResponseInv(w, at, w.conns[at].toClient[if at == conn then k + 1 else k]);
      }
    }
  }

  lemma TakeKeepsResults(w: Wire, conn: nat, results: map<nat, Outcome>)
    requires conn in w.conns && w.conns[conn].toClient != [] && ResultsInv(w, results)
    ensures ResultsInv(Take(w, conn), results)
  {
    forall k | k in results ensures ResultInv(Take(w, conn), k, results[k]) { assert ResultInv(w, k, results[k]); }
  }

  /** A matching response ends the call, or starts its second attempt after a rejected first one. */
  lemma HandleResponseKeepsInv(s: State, call: nat, attempt: nat, conn: nat, response: Response, contextDone: bool)
    requires WireInv(s.wire) && ResultsInv(s.wire, s.results) && ClientInv(s) && AttemptInv(s, call, attempt)
    requires s.connection == Some(conn) && conn in s.wire.conns && ResponseInv(s.wire, conn, response)
    requires s.wire.conns[conn].sent[response.id] == Copy(call, attempt)
    ensures Inv(HandleResponse(s, call, attempt, s.wire.ops[call], conn, response, contextDone))
  {
  }

  lemma ReceiveKeepsInv(s: State, decodes: bool, contextDone: bool)
    requires Inv(s)
    ensures Inv(Apply(s, Receive(decodes, contextDone)))
  {
    if s.phase.Reading? && s.wire.conns[s.connection.value].toClient != [] {
      var call, attempt, conn := s.phase.call, s.phase.attempt, s.connection.value;
      var response := s.wire.conns[conn].toClient[0];
      assert QueuesInv(s.wire, conn);
      assert ResponseInv(s.wire, conn, response);
      TakeKeepsWire(s.wire, conn);
      var read := s.(wire := Take(s.wire, conn));
      TakeKeepsResults(s.wire, conn, s.results);
      if response.id != s.nextID || (response.status == Ok && !decodes) {
        TransportFailureKeepsInv(read, call, attempt, contextDone);
      } else {
        HandleResponseKeepsInv(read, call, attempt, conn, response, contextDone);
      }
    }
  }

  // ---------------------------------------------------------------------
  // The server's events
  // ---------------------------------------------------------------------

  lemma HangUpKeepsWire(w: Wire, conn: nat)
    requires WireInv(w) && conn in w.conns
    ensures WireInv(HangUpOn(w, conn))
  {
    var t := HangUpOn(w, conn);
    forall i | 0 <= i < |t.log| ensures LogInv(t, i) { assert LogInv(w, i); }
    forall at | at in t.conns ensures QueuesInv(t, at) && IdentityInv(t, at) {
      assert QueuesInv(w, at) && IdentityInv(w, at);
      var c := t.conns[at];
      forall k | 0 <= k < |c.toServer| ensures RequestInv(t, at, c.toServer[k]) {
        assert RequestInv(w, at, c.toServer[k]);
      }
      forall k | 0 <= k < |c.toClient| ensures ResponseInv(t, at, c.toClient[k]) {
        assert ResponseInv(w, at, c.toClient[k]);
      }
    }
  }

  lemma HangUpKeepsInv(s: State, conn: nat)
    requires Inv(s)
    ensures Inv(Apply(s, HangUp(conn)))
  {
    if conn in s.wire.conns {
      HangUpKeepsWire(s.wire, conn);
      var t := HangUpOn(s.wire, conn);
      forall k | k in s.results ensures ResultInv(t, k, s.results[k]) { assert ResultInv(s.wire, k, s.results[k]); }
    }
  }

  /** Settling the head of a queue changes the fate of no other copy. */
  lemma SettledCopy(w: Wire, conn: nat)
    requires WireInv(w) && CanServe(w, conn)
    ensures var head := w.conns[conn].toServer[0];
            && RequestInv(w, conn, head)
            && forall at, r | && at in w.conns && RequestInv(w, at, r)
                              && w.conns[at].sent[r.id] == w.conns[conn].sent[head.id] ::
                 at == conn && r.id == head.id
  {
    assert QueuesInv(w, conn);
  }

  lemma RejectKeepsQueues(w: Wire, conn: nat, status: Status, delivered: bool, at: nat)
    requires WireInv(w) && CanServe(w, conn) && status != Ok && at in w.conns
    ensures QueuesInv(Reject(w, conn, status, delivered), at)
  {
    var t := Reject(w, conn, status, delivered);
    assert QueuesInv(w, at);
    SettledCopy(w, conn);
    var c := t.conns[at];
    forall k | 0 <= k < |c.toServer| ensures RequestInv(t, at, c.toServer[k]) {
      assert RequestInv(w, at, w.conns[at].toServer[if at == conn then k + 1 else k]);
    }
    forall k | 0 <= k < |c.toClient| ensures ResponseInv(t, at, c.toClient[k]) {
      if k < |w.conns[at].toClient| {
        assert ResponseInv(w, at, w.conns[at].toClient[k]);
      }
    }
  }

  lemma RejectKeepsWire(w: Wire, conn: nat, status: Status, delivered: bool)
    requires WireInv(w) && CanServe(w, conn) && status != Ok
    ensures WireInv(Reject(w, conn, status, delivered))
  {
    var t := Reject(w, conn, status, delivered);
    SettledCopy(w, conn);
    forall i | 0 <= i < |t.log| ensures LogInv(t, i) { assert LogInv(w, i); }
    forall x | x in t.fates ensures CopyInv(t, x) { assert CopyInv(w, x); }
    forall at | at in t.conns ensures QueuesInv(t, at) && IdentityInv(t, at) {
      RejectKeepsQueues(w, conn, status, delivered, at);
      assert IdentityInv(w, at);
    }
  }

  lemma DispatchKeepsRequests(w: Wire, conn: nat, ok: bool, delivered: bool, at: nat)
    requires WireInv(w) && CanServe(w, conn) && at in w.conns
    ensures var t := DispatchHead(w, conn, ok, delivered);
            forall k | 0 <= k < |t.conns[at].toServer| :: RequestInv(t, at, t.conns[at].toServer[k])
  {
    var t := DispatchHead(w, conn, ok, delivered);
    assert QueuesInv(w, at);
    SettledCopy(w, conn);
    forall k | 0 <= k < |t.conns[at].toServer| ensures RequestInv(t, at, t.conns[at].toServer[k]) {
      assert RequestInv(w, at, w.conns[at].toServer[if at == conn then k + 1 else k]);
    }
  }

  lemma DispatchKeepsResponses(w: Wire, conn: nat, ok: bool, delivered: bool, at: nat)
    requires WireInv(w) && CanServe(w, conn) && at in w.conns
    ensures var t := DispatchHead(w, conn, ok, delivered);
            forall k | 0 <= k < |t.conns[at].toClient| :: ResponseInv(t, at, t.conns[at].toClient[k])
  {
    var t := DispatchHead(w, conn, ok, delivered);
    assert QueuesInv(w, at);
    SettledCopy(w, conn);
    forall k | 0 <= k < |t.conns[at].toClient| ensures ResponseInv(t, at, t.conns[at].toClient[k]) {
      if k < |w.conns[at].toClient| {
        assert ResponseInv(w, at, w.conns[at].toClient[k]);
      }
    }
  }

  lemma DispatchKeepsQueues(w: Wire, conn: nat, ok: bool, delivered: bool, at: nat)
    requires WireInv(w) && CanServe(w, conn) && at in w.conns
    ensures QueuesInv(DispatchHead(w, conn, ok, delivered), at)
  {
    assert QueuesInv(w, at);
    DispatchKeepsRequests(w, conn, ok, delivered, at);
    DispatchKeepsResponses(w, conn, ok, delivered, at);
  }

  lemma DispatchKeepsIdentity(w: Wire, conn: nat, ok: bool, delivered: bool, at: nat)
    requires WireInv(w) && CanServe(w, conn) && at in w.conns
    ensures IdentityInv(DispatchHead(w, conn, ok, delivered), at)
  {
    var t := DispatchHead(w, conn, ok, delivered);
    assert IdentityInv(w, at);
    if FinalizedOn(w.log, at) {
      var i :| 0 <= i < |w.log| && w.log[i].conn == at && FinalizesProvisionalActor(w.log[i].op);
      assert t.log[i] == w.log[i];
    }
    assert t.log[|w.log|].conn == conn && t.log[|w.log|].op == w.conns[conn].toServer[0].op;
  }

  lemma DispatchKeepsCopies(w: Wire, conn: nat, ok: bool, delivered: bool)
    requires WireInv(w) && CanServe(w, conn)
    ensures var t := DispatchHead(w, conn, ok, delivered);
            && (forall i | 0 <= i < |t.log| :: LogInv(t, i))
            && (forall x | x in t.fates :: CopyInv(t, x))
  {
    var t := DispatchHead(w, conn, ok, delivered);
    SettledCopy(w, conn);
    forall i | 0 <= i < |t.log| ensures LogInv(t, i) {
      if i < |w.log| {
        assert LogInv(w, i);
      }
    }
    forall x | x in t.fates ensures CopyInv(t, x) { assert CopyInv(w, x); }
  }

  lemma DispatchKeepsWire(w: Wire, conn: nat, ok: bool, delivered: bool)
    requires WireInv(w) && CanServe(w, conn)
    ensures WireInv(DispatchHead(w, conn, ok, delivered))
  {
    DispatchKeepsCopies(w, conn, ok, delivered);
    forall at | at in w.conns
      ensures QueuesInv(DispatchHead(w, conn, ok, delivered), at)
              && IdentityInv(DispatchHead(w, conn, ok, delivered), at)
    {
      DispatchKeepsQueues(w, conn, ok, delivered, at);
      DispatchKeepsIdentity(w, conn, ok, delivered, at);
    }
  }

  /** `t` settles at most the fate of one copy in flight, and takes nothing back. */
  predicate Settles(w: Wire, t: Wire) {
    && t.fates.Keys == w.fates.Keys && t.ops == w.ops && t.conns.Keys == w.conns.Keys
    && (forall at | at in w.conns :: t.conns[at].sent == w.conns[at].sent)
    && (forall at | at in w.conns :: !w.conns[at].provisional ==> !t.conns[at].provisional)
    && (forall x | x in w.fates :: !w.fates[x].InFlight? ==> t.fates[x] == w.fates[x])
  }

  lemma RejectSettles(w: Wire, conn: nat, status: Status, delivered: bool)
    requires CanServe(w, conn) && RequestInv(w, conn, w.conns[conn].toServer[0])
    ensures Settles(w, Reject(w, conn, status, delivered))
  {
  }

  lemma DispatchSettles(w: Wire, conn: nat, ok: bool, delivered: bool)
    requires CanServe(w, conn) && RequestInv(w, conn, w.conns[conn].toServer[0])
    ensures Settles(w, DispatchHead(w, conn, ok, delivered))
  {
  }

  lemma ServeKeepsWire(w: Wire, conn: nat, choice: ServeChoice)
    requires WireInv(w) && CanServe(w, conn)
    ensures WireInv(ServeNext(w, conn, choice)) && Settles(w, ServeNext(w, conn, choice))
  {
    SettledCopy(w, conn);
    RejectSettles(w, conn, Reassigned, choice.delivered);
    RejectSettles(w, conn, Error, choice.delivered);
    DispatchSettles(w, conn, choice.ok, choice.delivered);
    RejectKeepsWire(w, conn, Reassigned, choice.delivered);
    RejectKeepsWire(w, conn, Error, choice.delivered);
    DispatchKeepsWire(w, conn, choice.ok, choice.delivered);
  }

  lemma SettlingKeepsClient(s: State, wire: Wire)
    requires Settles(s.wire, wire) && ResultsInv(s.wire, s.results) && ClientInv(s) && PhaseInv(s)
    ensures ResultsInv(wire, s.results) && ClientInv(s.(wire := wire)) && PhaseInv(s.(wire := wire))
  {
    forall k | k in s.results ensures ResultInv(wire, k, s.results[k]) { assert ResultInv(s.wire, k, s.results[k]); }
  }

  lemma ServeKeepsInv(s: State, conn: nat, choice: ServeChoice)
    requires Inv(s)
    ensures Inv(Apply(s, Serve(conn, choice)))
  {
    if CanServe(s.wire, conn) {
      ServeKeepsWire(s.wire, conn, choice);
      SettlingKeepsClient(s, ServeNext(s.wire, conn, choice));
    }
  }

  /** A copy is on the wire in one place only. */
  predicate SentOnce(w: Wire) {
    forall conn, id :: conn in w.conns && id in w.conns[conn].sent ==> SentAt(w, conn, id)
  }

  predicate SentAt(w: Wire, conn: nat, id: nat)
    requires conn in w.conns && id in w.conns[conn].sent
  {
    var copy := w.conns[conn].sent[id];
    copy in w.fates && w.fates[copy].conn == conn && w.fates[copy].id == id
  }

  /** Fates may be settled in place; histories may only be carried over or start empty. */
  predicate Carries(w: Wire, t: Wire) {
    && (forall at | at in t.conns ::
          t.conns[at].sent == map[] || (at in w.conns && t.conns[at].sent == w.conns[at].sent))
    && (forall x | x in w.fates :: x in t.fates && t.fates[x].conn == w.fates[x].conn && t.fates[x].id == w.fates[x].id)
  }

  lemma CarryingKeepsSentOnce(w: Wire, t: Wire)
    requires SentOnce(w) && Carries(w, t)
    ensures SentOnce(t)
  {
    forall at, id | at in t.conns && id in t.conns[at].sent ensures SentAt(t, at, id) { assert SentAt(w, at, id); }
  }

  lemma RejectKeepsSentOnce(w: Wire, conn: nat, status: Status, delivered: bool)
    requires SentOnce(w) && CanServe(w, conn)
    ensures SentOnce(Reject(w, conn, status, delivered))
  {
    assert SentAt(w, conn, w.conns[conn].toServer[0].id);
    CarryingKeepsSentOnce(w, Reject(w, conn, status, delivered));
  }

  lemma DispatchKeepsSentOnce(w: Wire, conn: nat, ok: bool, delivered: bool)
    requires SentOnce(w) && CanServe(w, conn)
    ensures SentOnce(DispatchHead(w, conn, ok, delivered))
  {
    assert SentAt(w, conn, w.conns[conn].toServer[0].id);
    CarryingKeepsSentOnce(w, DispatchHead(w, conn, ok, delivered));
  }

  lemma PutKeepsSentOnce(w: Wire, conn: nat, id: nat, copy: Copy)
    requires SentOnce(w) && conn in w.conns && copy !in w.fates && copy.call < |w.ops|
    ensures SentOnce(Put(w, conn, id, copy))
  {
    var t := Put(w, conn, id, copy);
    forall at, k | at in t.conns && k in t.conns[at].sent ensures SentAt(t, at, k) {
      if !(at == conn && k == id) { assert SentAt(w, at, k); }
    }
  }

  lemma ServeKeepsSentOnce(w: Wire, conn: nat, choice: ServeChoice)
    requires SentOnce(w) && CanServe(w, conn)
    ensures SentOnce(ServeNext(w, conn, choice))
  {
    RejectKeepsSentOnce(w, conn, Reassigned, choice.delivered);
    RejectKeepsSentOnce(w, conn, Error, choice.delivered);
    DispatchKeepsSentOnce(w, conn, choice.ok, choice.delivered);
  }

  lemma TransmitKeepsSentOnce(s: State, write: Write, contextDone: bool)
    requires SentOnce(s.wire) && PhaseInv(s)
    ensures SentOnce(Apply(s, Transmit(write, contextDone)).wire)
  {
    if Engaged(s) && s.phase.Writing? {
      var copy := Copy(s.phase.call, s.phase.attempt);
      assert Apply(s, Transmit(write, contextDone)).wire == AfterWrite(s, write).wire;
      if write != Lost {
        PutKeepsSentOnce(s.wire, s.connection.value, s.nextID + 1, copy);
      }
    }
  }

  lemma OtherEventsCarry(s: State, e: Event)
    requires !e.Transmit? && !e.Serve?
    ensures Carries(s.wire, Apply(s, e).wire)
  {
    match e
    case Receive(decodes, contextDone) => ReceiveCarries(s, decodes, contextDone);
    case Dial(result) => DialCarries(s, result);
    case _ =>
  }

  lemma ReceiveCarries(s: State, decodes: bool, contextDone: bool)
    ensures Carries(s.wire, Apply(s, Receive(decodes, contextDone)).wire)
  {
  }

  lemma DialCarries(s: State, result: Connect)
    ensures Carries(s.wire, Apply(s, Dial(result)).wire)
  {
    if result.Connected? {
      OpenCarries(s.wire, result.bound);
    } else if result.orphan.Some? {
      OpenCarries(s.wire, result.orphan.value);
    }
  }

  lemma OpenCarries(w: Wire, bound: Bound)
    ensures Carries(w, w) && Carries(w, Open(w, bound))
  {
  }

  lemma ClientKeepsSentOnce(s: State, e: Event)
    requires SentOnce(s.wire) && !e.Transmit? && !e.Serve?
    ensures SentOnce(Apply(s, e).wire)
  {
    OtherEventsCarry(s, e);
    var t := Apply(s, e).wire;
    assert Carries(s.wire, t);
    CarryingKeepsSentOnce(s.wire, t);
  }

  lemma ApplyKeepsSentOnce(s: State, e: Event)
    requires SentOnce(s.wire) && PhaseInv(s)
    ensures SentOnce(Apply(s, e).wire)
  {
    if e.Transmit? {
      TransmitKeepsSentOnce(s, e.write, e.contextDone);
    } else if !e.Serve? {
      ClientKeepsSentOnce(s, e);
    } else if CanServe(s.wire, e.conn) {
      ServeKeepsSentOnce(s.wire, e.conn, e.choice);
    }
  }

  lemma ApplyKeepsInv(s: State, e: Event)
    requires Inv(s)
    ensures Inv(Apply(s, e))
  {
    match e
    case Begin(op) => BeginKeepsInv(s, op);
    case Dial(result) => DialKeepsInv(s, result);
    case Transmit(write, contextDone) => TransmitKeepsInv(s, write, contextDone);
    case Receive(decodes, contextDone) => ReceiveKeepsInv(s, decodes, contextDone);
    case ReceiveFails(contextDone) =>
      if s.phase.Reading? {
        TransportFailureKeepsInv(s, s.phase.call, s.phase.attempt, contextDone);
      }
    case CloseClient =>
    case Serve(conn, choice) => ServeKeepsInv(s, conn, choice);
    case HangUp(conn) => HangUpKeepsInv(s, conn);
  }

  lemma {:induction false} RunKeepsInv(s: State, events: seq<Event>)
    requires Inv(s) && SentOnce(s.wire)
    ensures Inv(Run(s, events)) && SentOnce(Run(s, events).wire)
    decreases |events|
  {
    if events != [] {
      ApplyKeepsSentOnce(s, events[0]);
      ApplyKeepsInv(s, events[0]);
      RunKeepsInv(Apply(s, events[0]), events[1..]);
    }
  }

  ghost predicate Reachable(s: State) {
    exists events :: s == Run(INIT, events)
  }

  lemma ReachableInv(s: State)
    requires Reachable(s)
    ensures Inv(s) && SentOnce(s.wire)
  {
    var events :| s == Run(INIT, events);
    RunKeepsInv(INIT, events);
  }
}
