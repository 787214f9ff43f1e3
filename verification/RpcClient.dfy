/**
 The client and the server loop in the form internal/api/api.go gives them,
 shown to take exactly the steps of the RPC session: every state a client
 object reaches is a reachable state of the machine.
 */
module RpcClient {
  import opened Wrappers
  import opened RpcSession
  import opened RpcInvariant

  /** What one callOnceLocked reports. */
  datatype Reply = Responded(response: Response) | TransportError

  class Client {
    var connection: Option<nat>
    var nextID: nat
    var provisional: bool
    var wire: Wire                     // the connections and what the server did with them
    ghost var results: map<nat, Outcome>
    ghost var trace: seq<Event>        // everything that happened so far

    ghost function At(phase: Phase): State
      reads this
    {
      State(connection, nextID, provisional, phase, results, wire)
    }

    /** The object's fields are those of the machine after the events so far. */
    ghost predicate Synced(phase: Phase)
      reads this
    {
      At(phase) == Run(INIT, trace)
    }

    constructor ()
      ensures Synced(Idle) && trace == []
    {
      connection, nextID, provisional, wire := None, 0, false, Wire(map[], 0, [], map[], []);
      results, trace := map[], [];
    }

    lemma Extend(phase: Phase, e: Event)
      requires Synced(phase)
      ensures Run(INIT, trace + [e]) == Apply(At(phase), e)
    {
      RunSnoc(INIT, trace, e);
    }

    lemma SyncedInv(phase: Phase)
      requires Synced(phase)
      ensures Inv(At(phase))
    {
      RunKeepsInv(INIT, trace);
    }

    /** One turn of the server's loop on a connection, as serveConnection takes it. */
    method ServeOne(conn: nat, choice: ServeChoice, ghost phase: Phase)
      requires Synced(phase) && CanServe(wire, conn)
      modifies this`wire, this`trace
      ensures Synced(phase) && wire == ServeNext(old(wire), conn, choice)
    {
      Extend(phase, Serve(conn, choice));
      trace := trace + [Serve(conn, choice)];
      var c := wire.conns[conn];
      var request := c.toServer[0];
      if c.provisional {
        if choice.binding != StillCurrent {
          var status := if choice.binding == BindingReassigned then Reassigned else Error;
          wire := Reject(wire, conn, status, choice.delivered);
          return;
        }
        if FinalizesProvisionalActor(request.op) {
          if !choice.finalized {
            wire := Reject(wire, conn, Error, choice.delivered);
            return;
          }
        }
      }
      wire := DispatchHead(wire, conn, choice.ok, choice.delivered);
    }

    /** Anything the server and the network do while the client waits. */
    method Environment(ghost phase: Phase)
      requires Synced(phase)
      modifies this`wire, this`trace
      ensures Synced(phase) && wire.ops == old(wire.ops)
    {
      var turns: nat :| turns >= 0;
      for i := 0 to turns
        invariant Synced(phase) && wire.ops == old(wire.ops)
      {
        var conn: nat := *;
        var choice: ServeChoice := *;
        var hangs: bool := *;
        if hangs && conn in wire.conns {
          Extend(phase, HangUp(conn));
          trace := trace + [HangUp(conn)];
          wire := HangUpOn(wire, conn);
        } else if CanServe(wire, conn) {
          ServeOne(conn, choice, phase);
        }
      }
    }

    /** connectLocked: a new connection with a fresh identity, or an error that ends the call. */
    method ConnectLocked(ghost call: nat, ghost attempt: nat) returns (connected: bool)
      requires Synced(Dialing(call, attempt))
      modifies this
      ensures wire.ops == old(wire.ops)
      ensures connected ==> Synced(Writing(call, attempt)) && results == old(results)
      ensures !connected ==> Synced(Idle) && results == old(results)[call := Broken]
    {
      Environment(Dialing(call, attempt));
      var result: Connect := *;
      Extend(Dialing(call, attempt), Dial(result));
      trace := trace + [Dial(result)];
      match result {
        case Connected(bound) =>
          connection := Some(wire.nextConn);
          wire := Open(wire, bound);
          nextID := 1;
          provisional := bound.provisional;
          return true;
        case ConnectFailed(orphan) =>
          if orphan.Some? {
            wire := Open(wire, orphan.value);
          }
          results := results[call := Broken];
          return false;
      }
    }

    /** Handling `reply` completes the machine's step `event`. */
    ghost predicate Pending(event: Event, reply: Reply, op: Op, call: nat, attempt: nat, contextDone: bool,
                            phase: Phase)
      reads this
    {
      match reply
      case TransportError =>
        Apply(Run(INIT, trace), event) == TransportFailure(At(phase), call, attempt, op, contextDone)
      case Responded(response) =>
        && connection.Some?
        && Apply(Run(INIT, trace), event) ==
           HandleResponse(At(phase), call, attempt, op, connection.value, response, contextDone)
    }

    /** writeRequest: the frame may be lost, delivered, or delivered with an error reported. */
    method WriteRequest(op: Op, call: nat, attempt: nat, contextDone: bool) returns (written: bool, ghost event: Event)
      requires Synced(Writing(call, attempt)) && call < |wire.ops| && wire.ops[call] == op
      modifies this`nextID, this`wire, this`trace
      ensures wire.ops == old(wire.ops)
      ensures written ==> Synced(Reading(call, attempt))
      ensures !written ==> Pending(event, TransportError, op, call, attempt, contextDone, Writing(call, attempt))
    {
      var write: Write := *;
      event := Transmit(write, contextDone);
      SyncedInv(Writing(call, attempt));
      Extend(Writing(call, attempt), event);
      nextID := nextID + 1;
      if write != Lost {
        wire := Put(wire, connection.value, nextID, Copy(call, attempt));
      }
      written := write == Written;
      if written {
        trace := trace + [event];
      }
    }

    /** readResponse and the ID check. */
    method ReadResponse(op: Op, call: nat, attempt: nat, contextDone: bool) returns (reply: Reply, ghost event: Event)
      requires Synced(Reading(call, attempt)) && call < |wire.ops| && wire.ops[call] == op
      modifies this`wire
      ensures wire.ops == old(wire.ops)
      ensures Pending(event, reply, op, call, attempt, contextDone, Reading(call, attempt))
    {
      SyncedInv(Reading(call, attempt));
      var arrives: bool := *;
      if !arrives || wire.conns[connection.value].toClient == [] {
        return TransportError, ReceiveFails(contextDone);
      }
      var decodes: bool := *;
      event := Receive(decodes, contextDone);
      var response := wire.conns[connection.value].toClient[0];
      wire := Take(wire, connection.value);
      if response.id != nextID {
        return TransportError, event;
      }
      if response.status == Ok && !decodes {
        return TransportError, event;
      }
      return Responded(response), event;
    }

    /** callOnceLocked: numbers and writes the request, reads one response and matches its ID. */
    method CallOnceLocked(op: Op, call: nat, attempt: nat, contextDone: bool)
      returns (reply: Reply, ghost event: Event, ghost phase: Phase)
      requires Synced(Writing(call, attempt)) && call < |wire.ops| && wire.ops[call] == op
      modifies this`nextID, this`wire, this`trace
      ensures wire.ops == old(wire.ops)
      ensures Pending(event, reply, op, call, attempt, contextDone, phase)
    {
      var written;
      written, event := WriteRequest(op, call, attempt, contextDone);
      if !written {
        return TransportError, event, Writing(call, attempt);
      }
      phase := Reading(call, attempt);
      Environment(phase);
      reply, event := ReadResponse(op, call, attempt, contextDone);
    }

    /** A reply that ends the call: success may make the identity final. */
    method Settle(reply: Reply, op: Op, ghost call: nat) returns (outcome: Outcome)
      requires reply.Responded? ==> connection.Some?
      modifies this`provisional, this`results
      ensures reply.TransportError? ==> outcome == Broken && provisional == old(provisional)
      ensures reply.Responded? ==>
                && outcome == Answered(reply.response.status, connection.value, reply.response.id)
                && provisional == (old(provisional) && !(reply.response.status == Ok && FinalizesProvisionalActor(op)))
      ensures results == old(results)[call := outcome]
    {
      outcome := Broken;
      if reply.Responded? {
        if reply.response.status == Ok && provisional && FinalizesProvisionalActor(op) {
          provisional := false;
        }
        outcome := Answered(reply.response.status, connection.value, reply.response.id);
      }
      results := results[call := outcome];
    }

    /** The reconnect and second attempt that both retry paths of call share. */
    method SecondAttempt(op: Op, call: nat) returns (outcome: Outcome)
      requires Synced(Dialing(call, 2)) && call < |wire.ops| && wire.ops[call] == op
      modifies this
      ensures Synced(Idle) && wire.ops == old(wire.ops)
      ensures results == old(results)[call := outcome]
    {
      var connected := ConnectLocked(call, 2);
      if !connected {
        return Broken;
      }
      var contextDone: bool := *;
      var reply, event, phase := CallOnceLocked(op, call, 2, contextDone);
      RunSnoc(INIT, trace, event);
      outcome := Settle(reply, op, call);
      trace := trace + [event];
    }

    /** Client.call */
    method Call(op: Op) returns (outcome: Outcome)
      requires Synced(Idle)
      modifies this
      ensures Synced(Idle) && Reachable(At(Idle))
      ensures wire.ops == old(wire.ops) + [op]
      ensures results == old(results)[|old(wire.ops)| := outcome]
    {
      Extend(Idle, Begin(op));
      var call := |wire.ops|;
      wire := wire.(ops := wire.ops + [op]);
      trace := trace + [Begin(op)];
      if connection.None? {
        var connected := ConnectLocked(call, 1);
        if !connected {
          return Broken;
        }
      }
      var contextDone: bool := *;
      var reply, event, phase := CallOnceLocked(op, call, 1, contextDone);
      RunSnoc(INIT, trace, event);
      if reply.Responded? {
        if reply.response.status == Reassigned && !contextDone {
          connection := None;
          trace := trace + [event];
          outcome := SecondAttempt(op, call);
          return;
        }
        outcome := Settle(reply, op, call);
        trace := trace + [event];
        return;
      }
      connection := None;
      if !RetryAfterReconnect(op) || contextDone {
        outcome := Settle(TransportError, op, call);
        trace := trace + [event];
        return;
      }
      trace := trace + [event];
      outcome := SecondAttempt(op, call);
    }
  }

  lemma {:induction false} RunSnoc(s: State, events: seq<Event>, e: Event)
    ensures Run(s, events + [e]) == Apply(Run(s, events), e)
    decreases |events|
  {
    if events == [] {
      assert [e][1..] == [];
    } else {
      assert (events + [e])[1..] == events[1..] + [e];
      RunSnoc(Apply(s, events[0]), events[1..], e);
    }
  }
}
