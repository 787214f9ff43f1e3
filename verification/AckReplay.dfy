/**
 Transparently resent acknowledgements, end to end: the copies that the RPC
 session dispatches act on one delivery row, in whatever order the server's
 handlers reach it, with any other writes to that row before, between and after
 them. A dispatched ack may also fail before the row is decided on: the
 database, or an adopted actor.
 */
module AckReplay {
  import opened Wrappers
  import Rpc = RpcSession
  import RpcInvariant
  import RpcSafety
  import RpcAnswers
  import Lease = DeliveryLease

  /** The delivery row when the run begins, every write to it, and which of them each dispatch makes, if any. */
  datatype History = History(row: Lease.World, writes: seq<Lease.Event>, at: seq<Option<nat>>)

  /**
   The copies of `call` finish the delivery this way with `token`, and what each is told is what the
   store decided, or that it failed before.
   */
  predicate Executes(s: Rpc.State, call: nat, operation: Lease.Operation, token: Lease.Token, h: History) {
    && |h.at| == |s.wire.log|
    && forall i | 0 <= i < |h.at| && s.wire.log[i].copy.call == call :: ExecutesAt(s, operation, token, h, i)
  }

  predicate ExecutesAt(s: Rpc.State, operation: Lease.Operation, token: Lease.Token, h: History, i: nat)
    requires i < |h.at| == |s.wire.log|
  {
    && s.wire.log[i].copy in s.wire.fates
    && s.wire.fates[s.wire.log[i].copy].Dispatched?
    && var ok := s.wire.fates[s.wire.log[i].copy].ok;
       match h.at[i]
       case None => !ok
       case Some(k) =>
         && k < |h.writes| && h.writes[k] == Lease.Finish(operation, token)
         && (ok <==> Accepted(h, k, operation, token))
  }

  predicate Accepted(h: History, k: nat, operation: Lease.Operation, token: Lease.Token)
    requires k <= |h.writes|
  {
    Lease.Decision(Lease.Run(h.row, h.writes[..k]).row, operation, token).Success?
  }

  /** The token was handed out before the run, and no claim in it repeats one. */
  ghost predicate Issued(h: History, token: Lease.Token) {
    Lease.Reachable(h.row) && Lease.FreshClaims(h.row, h.writes) && token in h.row.issued
  }

  /** A dispatched copy of the call whose ack the store decided on. */
  predicate Decided(s: Rpc.State, call: nat, h: History, i: nat) {
    i < |h.at| && i < |s.wire.log| && s.wire.log[i].copy.call == call && h.at[i].Some? && h.at[i].value < |h.writes|
  }

  /** Any two copies that the store decided on are accepted together or refused together. */
  lemma CopiesAgree(s: Rpc.State, call: nat, token: Lease.Token, h: History, i: nat, j: nat)
    requires Issued(h, token) && Executes(s, call, Lease.Ack, token, h)
    requires Decided(s, call, h, i) && Decided(s, call, h, j)
    ensures Accepted(h, h.at[i].value, Lease.Ack, token) <==> Accepted(h, h.at[j].value, Lease.Ack, token)
  {
    assert ExecutesAt(s, Lease.Ack, token, h, i) && ExecutesAt(s, Lease.Ack, token, h, j);
    if h.at[i].value < h.at[j].value {
      Lease.CopiesOfAnAckAgree(h.row, h.writes, h.at[i].value, h.at[j].value, Lease.Ack, token);
    } else if h.at[j].value < h.at[i].value {
      Lease.CopiesOfAnAckAgree(h.row, h.writes, h.at[j].value, h.at[i].value, Lease.Ack, token);
    }
  }

  /**
   The answer to an ack speaks for every copy of it that the store decided on: Ok means each was
   accepted, and an error that came from the decision on a copy means each was refused.  So a
   resend is invisible, and a client never sees an error that its own first copy caused.
   */
  lemma AckAnswerSpeaksForEveryCopy(s: Rpc.State, call: nat, token: Lease.Token, h: History, i: nat)
    requires RpcInvariant.Reachable(s)
    requires Issued(h, token) && Executes(s, call, Lease.Ack, token, h) && Decided(s, call, h, i)
    requires call in s.results && s.results[call].Answered?
    ensures var (status, conn, id) := (s.results[call].status, s.results[call].conn, s.results[call].id);
            && conn in s.wire.conns && id in s.wire.conns[conn].sent
            && var copy := s.wire.conns[conn].sent[id];
               && copy in s.wire.fates
               && (status == Rpc.Ok ==> Accepted(h, h.at[i].value, Lease.Ack, token))
               && (status == Rpc.Error && s.wire.fates[copy].Dispatched? ==>
                     && s.wire.fates[copy].index < |h.at|
                     && (h.at[s.wire.fates[copy].index].Some? ==> !Accepted(h, h.at[i].value, Lease.Ack, token)))
  {
    RpcInvariant.ReachableInv(s);
    assert RpcInvariant.ResultInv(s.wire, call, s.results[call]);
    var copy := s.wire.conns[s.results[call].conn].sent[s.results[call].id];
    assert RpcInvariant.CopyInv(s.wire, copy);
    if s.wire.fates[copy].Dispatched? {
      var j := s.wire.fates[copy].index;
      assert ExecutesAt(s, Lease.Ack, token, h, j);
      if h.at[j].Some? {
        CopiesAgree(s, call, token, h, i, j);
      }
    }
  }

  /** After an Ok the delivery is acked under that token, and stays so. */
  lemma AckedAfterOk(s: Rpc.State, call: nat, token: Lease.Token, h: History)
    requires RpcInvariant.Reachable(s)
    requires Executes(s, call, Lease.Ack, token, h)
    requires call in s.results && s.results[call].Answered? && s.results[call].status == Rpc.Ok
    ensures Lease.Run(h.row, h.writes).row.state == Lease.Acked
            && Lease.Run(h.row, h.writes).row.terminal == Some(token)
  {
    RpcInvariant.ReachableInv(s);
    assert RpcInvariant.ResultInv(s.wire, call, s.results[call]);
    var copy := s.wire.conns[s.results[call].conn].sent[s.results[call].id];
    assert RpcInvariant.CopyInv(s.wire, copy);
    var j := s.wire.fates[copy].index;
    assert ExecutesAt(s, Lease.Ack, token, h, j);
    var k := h.at[j].value;
    Lease.RunSplit(h.row, h.writes, k);
    var before := Lease.Run(h.row, h.writes[..k]);
    assert h.writes[k..][0] == h.writes[k];
    Lease.TerminalIsForever(Lease.Apply(before, h.writes[k]), h.writes[k..][1..]);
  }

  // ---------------------------------------------------------------------
  // Nacks, which are not replayed
  // ---------------------------------------------------------------------

  lemma {:induction false} TwoEntriesTwice(log: seq<Rpc.Dispatch>, call: nat, i: nat, j: nat)
    requires i < j < |log| && log[i].copy.call == call && log[j].copy.call == call
    ensures RpcSafety.Dispatches(log, call) >= 2
  {
    if j < |log| - 1 {
      TwoEntriesTwice(log[..|log| - 1], call, i, j);
    } else {
      OneEntryOnce(log[..j], call, i);
    }
  }

  lemma {:induction false} OneEntryOnce(log: seq<Rpc.Dispatch>, call: nat, i: nat)
    requires i < |log| && log[i].copy.call == call
    ensures RpcSafety.Dispatches(log, call) >= 1
  {
    if i < |log| - 1 {
      OneEntryOnce(log[..|log| - 1], call, i);
    }
  }

  /**
   No client sees a nack refused because of its own first copy: while the token held the delivery when the
   run began, a nack that the store refuses was beaten by an event of somebody else that ended that lease.
   */
  lemma RefusedNackWasBeaten(s: Rpc.State, call: nat, token: Lease.Token, h: History, i: nat)
    requires RpcInvariant.Reachable(s) && call < |s.wire.ops| && s.wire.ops[call] == Rpc.Nack
    requires Issued(h, token) && h.row.row.stored == Some(token) && Executes(s, call, Lease.Nack, token, h)
    requires Decided(s, call, h, i) && !Accepted(h, h.at[i].value, Lease.Nack, token)
    ensures exists m | 0 <= m < h.at[i].value ::
              && Lease.EndsLease(Lease.Run(h.row, h.writes[..m]), h.writes[m], token)
              && forall j | 0 <= j < |h.at| && s.wire.log[j].copy.call == call :: h.at[j] != Some(m)
  {
    var k := h.at[i].value;
    var before := h.writes[..k];
    assert ExecutesAt(s, Lease.Nack, token, h, i);
    Lease.ReachableInv(h.row);
    Lease.FreshClaimsSplit(h.row, h.writes, k);
    Lease.RunKeepsInv(h.row, before);
    assert Lease.Run(h.row, before).row.stored != Some(token);
    Lease.LeaseEndsExactlyWhen(h.row, token, before);
    var m :| 0 <= m < |before| && Lease.EndsLease(Lease.Run(h.row, before[..m]), before[m], token);
    assert before[..m] == h.writes[..m] && before[m] == h.writes[m];
    forall j | 0 <= j < |h.at| && s.wire.log[j].copy.call == call ensures h.at[j] != Some(m) {
      RpcAnswers.OthersRunAtMostOnce(s, call);
      if i != j {
        TwoEntriesTwice(s.wire.log, call, if i < j then i else j, if i < j then j else i);
      }
    }
  }
}
