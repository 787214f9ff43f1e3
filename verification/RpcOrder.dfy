/** Request IDs on one connection: they only grow, and the server answers in their order. */
module RpcOrder {
  import opened Wrappers
  import opened RpcSession
  import opened RpcInvariant

  /** Answers come before waiting requests, and both in the order of their IDs. */
  predicate InOrder(c: Connection) {
    && (forall i, j | 0 <= i < j < |c.toServer| :: c.toServer[i].id < c.toServer[j].id)
    && (forall i, j | 0 <= i < j < |c.toClient| :: c.toClient[i].id < c.toClient[j].id)
    && (forall i, j | 0 <= i < |c.toClient| && 0 <= j < |c.toServer| :: c.toClient[i].id < c.toServer[j].id)
  }

  predicate Ordered(w: Wire) {
    forall conn | conn in w.conns :: InOrder(w.conns[conn])
  }

  lemma ReplyKeepsOrder(c: Connection, status: Status, delivered: bool)
    requires InOrder(c) && c.toServer != []
    ensures InOrder(ReplyTo(c, status, delivered))
  {
    var t := ReplyTo(c, status, delivered);
    forall i, j | 0 <= i < j < |t.toServer| ensures t.toServer[i].id < t.toServer[j].id {
      assert c.toServer[i + 1].id < c.toServer[j + 1].id;
    }
  }

  lemma AppendKeepsOrder(c: Connection, request: Request, sent: map<nat, Copy>)
    requires InOrder(c)
    requires forall i | 0 <= i < |c.toServer| :: c.toServer[i].id < request.id
    requires forall i | 0 <= i < |c.toClient| :: c.toClient[i].id < request.id
    ensures InOrder(c.(toServer := c.toServer + [request], sent := sent))
  {
  }

  lemma TakeKeepsOrder(c: Connection)
    requires InOrder(c) && c.toClient != []
    ensures InOrder(c.(toClient := c.toClient[1..]))
  {
  }

  /** A fresh ID is above everything the connection still carries. */
  lemma PutKeepsOrder(s: State, write: Write)
    requires Inv(s) && Ordered(s.wire) && Engaged(s)
    ensures Ordered(AfterWrite(s, write).wire)
  {
    var conn := s.connection.value;
    var c := s.wire.conns[conn];
    assert QueuesInv(s.wire, conn);
    forall i | 0 <= i < |c.toServer| ensures c.toServer[i].id < s.nextID + 1 {
      assert RequestInv(s.wire, conn, c.toServer[i]);
    }
    forall i | 0 <= i < |c.toClient| ensures c.toClient[i].id < s.nextID + 1 {
      assert ResponseInv(s.wire, conn, c.toClient[i]);
    }
    var copy := Copy(s.phase.call, s.phase.attempt);
    AppendKeepsOrder(c, Request(s.nextID + 1, s.wire.ops[copy.call]), c.sent[s.nextID + 1 := copy]);
  }

  lemma TransmitKeepsOrder(s: State, write: Write, contextDone: bool)
    requires Inv(s) && Ordered(s.wire)
    ensures Ordered(Apply(s, Transmit(write, contextDone)).wire)
  {
    if Engaged(s) && s.phase.Writing? {
      PutKeepsOrder(s, write);
      assert Apply(s, Transmit(write, contextDone)).wire == AfterWrite(s, write).wire;
    }
  }

  lemma ReplaceKeepsOrder(w: Wire, t: Wire, conn: nat)
    requires Ordered(w) && conn in w.conns && conn in t.conns && InOrder(t.conns[conn])
    requires t.conns == w.conns[conn := t.conns[conn]]
    ensures Ordered(t)
  {
  }

  lemma DispatchKeepsOrder(w: Wire, conn: nat, ok: bool, delivered: bool)
    requires Ordered(w) && CanServe(w, conn)
    ensures Ordered(DispatchHead(w, conn, ok, delivered))
  {
    AnsweredKeepsOrder(w.conns[conn], ok, delivered);
    ReplaceKeepsOrder(w, DispatchHead(w, conn, ok, delivered), conn);
  }

  lemma AnsweredKeepsOrder(c: Connection, ok: bool, delivered: bool)
    requires InOrder(c) && c.toServer != []
    ensures var finalized := c.(provisional := c.provisional && !FinalizesProvisionalActor(c.toServer[0].op));
            var answered := ReplyTo(finalized, if ok then Ok else Error, delivered);
            InOrder(answered) && InOrder(Disconnect(answered))
  {
    var finalized := c.(provisional := c.provisional && !FinalizesProvisionalActor(c.toServer[0].op));
    assert InOrder(finalized);
    ReplyKeepsOrder(finalized, if ok then Ok else Error, delivered);
  }

  lemma RejectKeepsOrder(w: Wire, conn: nat, status: Status, delivered: bool)
    requires Ordered(w) && CanServe(w, conn)
    ensures Ordered(Reject(w, conn, status, delivered))
  {
    ReplyKeepsOrder(w.conns[conn], status, delivered);
    ReplaceKeepsOrder(w, Reject(w, conn, status, delivered), conn);
  }

  lemma ServeKeepsOrder(w: Wire, conn: nat, choice: ServeChoice)
    requires Ordered(w) && CanServe(w, conn)
    ensures Ordered(ServeNext(w, conn, choice))
  {
    RejectKeepsOrder(w, conn, Reassigned, choice.delivered);
    RejectKeepsOrder(w, conn, Error, choice.delivered);
    DispatchKeepsOrder(w, conn, choice.ok, choice.delivered);
  }

  lemma ReceiveKeepsOrder(s: State, decodes: bool, contextDone: bool)
    requires Ordered(s.wire)
    ensures Ordered(Apply(s, Receive(decodes, contextDone)).wire)
  {
    if Engaged(s) && s.phase.Reading? && s.wire.conns[s.connection.value].toClient != [] {
      TakeKeepsOrder(s.wire.conns[s.connection.value]);
      assert Apply(s, Receive(decodes, contextDone)).wire == Take(s.wire, s.connection.value);
    }
  }

  lemma OtherEventsKeepOrder(s: State, e: Event)
    requires Ordered(s.wire) && !e.Transmit? && !e.Receive? && !e.Serve?
    ensures Ordered(Apply(s, e).wire)
  {
  }

  lemma ApplyKeepsOrder(s: State, e: Event)
    requires Inv(s) && Ordered(s.wire)
    ensures Ordered(Apply(s, e).wire)
  {
    match e
    case Transmit(write, contextDone) =>
      TransmitKeepsOrder(s, write, contextDone);
    case Receive(decodes, contextDone) => ReceiveKeepsOrder(s, decodes, contextDone);
    case Serve(conn, choice) =>
      if CanServe(s.wire, conn) {
        ServeKeepsOrder(s.wire, conn, choice);
      }
    case _ => OtherEventsKeepOrder(s, e);
  }

  lemma {:induction false} RunKeepsOrder(s: State, events: seq<Event>)
    requires Inv(s) && SentOnce(s.wire) && Ordered(s.wire)
    ensures Ordered(Run(s, events).wire)
    decreases |events|
  {
    if events != [] {
      ApplyKeepsOrder(s, events[0]);
      ApplyKeepsSentOnce(s, events[0]);
      ApplyKeepsInv(s, events[0]);
      RunKeepsOrder(Apply(s, events[0]), events[1..]);
    }
  }

  /**
   On every connection the IDs of requests and of answers strictly increase, and every answer is
   older than every request still waiting. So while the client reads, what is left over from
   earlier calls comes first and its own answer, if there, comes last.
   */
  lemma AnswersComeInOrder(s: State, conn: nat)
    requires Reachable(s) && conn in s.wire.conns
    ensures InOrder(s.wire.conns[conn])
    ensures s.connection == Some(conn) ==>
              forall i | 0 <= i < |s.wire.conns[conn].toClient| ::
                && s.wire.conns[conn].toClient[i].id <= s.nextID
                && (s.wire.conns[conn].toClient[i].id == s.nextID ==> i == |s.wire.conns[conn].toClient| - 1)
  {
    var events :| s == Run(INIT, events);
    RunKeepsOrder(INIT, events);
    ReachableInv(s);
    var c := s.wire.conns[conn];
    assert InOrder(c) && QueuesInv(s.wire, conn);
    if s.connection == Some(conn) {
      forall i | 0 <= i < |c.toClient|
        ensures c.toClient[i].id <= s.nextID && (c.toClient[i].id == s.nextID ==> i == |c.toClient| - 1) {
        assert ResponseInv(s.wire, conn, c.toClient[i]);
        if i < |c.toClient| - 1 {
          assert ResponseInv(s.wire, conn, c.toClient[|c.toClient| - 1]);
          assert c.toClient[i].id < c.toClient[|c.toClient| - 1].id;
        }
      }
    }
  }
}
