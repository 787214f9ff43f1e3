/**
 Lease fencing of one delivery row: the decision of
 internal/store/sqlite/delivery_transition.go together with the statements
 that read and write the row around it (claim, extend, finish, revoke).
 */
module DeliveryLease {
  import opened Wrappers

  type Token = nat

  datatype DeliveryState = Queued | Claimed | Acked | DeadLettered | Revoked

  datatype Row = Row(state: DeliveryState, stored: Option<Token>, terminal: Option<Token>, leaseUntil: Option<int>)

  datatype FinishError = DeliveryTerminal | LeaseTokenMismatch

  // ---------------------------------------------------------------------
  // The shared decision
  // ---------------------------------------------------------------------

  /** Success(true): already finished this way; Success(false): go ahead and finish. */
  function FinishDeliveryState(state: DeliveryState, stored: Option<Token>, terminal: Option<Token>, token: Token,
                               ack: bool, final: bool): Result<bool, FinishError>
  {
    if state == Acked && ack && terminal == Some(token) then Success(true)
    else if state == DeadLettered && final && !ack && terminal == Some(token) then Success(true)
    else if terminal == Some(token) && state == Queued then Failure(DeliveryTerminal)
    else if state == Acked || state == DeadLettered then Failure(DeliveryTerminal)
    else if state != Claimed || stored != Some(token) then Failure(LeaseTokenMismatch)
    else Success(false)
  }

  // ---------------------------------------------------------------------
  // The row and its writers
  // ---------------------------------------------------------------------

  datatype Operation = Ack | Nack | DeadLetter

  datatype Event =
    | Claim(token: Token, now: int, lease: int)
    | Extend(token: Token, now: int, lease: int)
    | Finish(operation: Operation, token: Token)
    | RevokeLease(now: int)  // the operator's revocation of a crashed holder
    | RevokeMembership       // the recipient leaves the channel

  /** A delivery row and the tokens its claims have handed out, oldest first. */
  datatype World = World(row: Row, issued: seq<Token>)

  const INIT := World(Row(Queued, None, None, None), [])

  predicate Claimable(row: Row, now: int) {
    row.state == Queued || (row.state == Claimed && row.leaseUntil.Some? && row.leaseUntil.value <= now)
  }

  function Decision(row: Row, operation: Operation, token: Token): Result<bool, FinishError> {
    FinishDeliveryState(row.state, row.stored, row.terminal, token, operation == Ack, operation == DeadLetter)
  }

  function FinishRow(row: Row, operation: Operation, token: Token): Row {
    if Decision(row, operation, token) != Success(false) then row
    else match operation
      case Ack => Row(Acked, None, Some(token), None)
      case DeadLetter => Row(DeadLettered, None, Some(token), None)
      case Nack => Row(Queued, None, None, None)
  }

  function Apply(w: World, e: Event): World {
    match e
    case Claim(token, now, lease) =>
      if Claimable(w.row, now) then
        World(w.row.(state := Claimed, stored := Some(token), leaseUntil := Some(now + lease)), w.issued + [token])
      else w
    case Extend(token, now, lease) =>
      if && w.row.state == Claimed && w.row.stored == Some(token)
         && w.row.leaseUntil.Some? && now < w.row.leaseUntil.value
      then
        w.(row := w.row.(leaseUntil := Some(now + lease)))
      else w
    case Finish(operation, token) => w.(row := FinishRow(w.row, operation, token))
    case RevokeLease(now) =>
      if w.row.state == Claimed && w.row.leaseUntil.Some? && now < w.row.leaseUntil.value then
        w.(row := Row(Queued, None, w.row.stored, None))
      else w
    case RevokeMembership =>
      if w.row.state == Queued || w.row.state == Claimed then
        w.(row := Row(Revoked, None, w.row.stored, None))
      else w
  }

  function Run(w: World, events: seq<Event>): World
    decreases |events|
  {
    if events == [] then w else Run(Apply(w, events[0]), events[1..])
  }

  /** Claims draw tokens that were never handed out before. */
  predicate FreshClaims(w: World, events: seq<Event>)
    decreases |events|
  {
    events != [] ==>
      && (events[0].Claim? ==> events[0].token !in w.issued)
      && FreshClaims(Apply(w, events[0]), events[1..])
  }

  predicate Terminal(row: Row) {
    row.state == Acked || row.state == DeadLettered || row.state == Revoked
  }

  /** `token` can neither finish the delivery nor claim to have finished it. */
  predicate Fenced(w: World, token: Token) {
    && token in w.issued
    && w.row.stored != Some(token)
    && !((w.row.state == Acked || w.row.state == DeadLettered) && w.row.terminal == Some(token))
  }

  predicate Inv(w: World) {
    && (w.row.stored.Some? <==> w.row.state == Claimed)
    && (w.row.leaseUntil.Some? <==> w.row.state == Claimed)
    && (w.row.stored.Some? ==> w.issued != [] && w.row.stored.value == w.issued[|w.issued| - 1])
    && (w.row.state == Acked || w.row.state == DeadLettered ==>
          w.issued != [] && w.row.terminal == Some(w.issued[|w.issued| - 1]))
    && (w.row.terminal.Some? ==> w.row.terminal.value in w.issued)
    && (w.row.state == Claimed ==> w.row.terminal != w.row.stored)
  }

  ghost predicate Reachable(w: World) {
    exists events :: FreshClaims(INIT, events) && w == Run(INIT, events)
  }

  lemma {:induction false} RunKeepsInv(w: World, events: seq<Event>)
    requires Inv(w) && FreshClaims(w, events)
    ensures Inv(Run(w, events))
    decreases |events|
  {
    if events != [] {
      RunKeepsInv(Apply(w, events[0]), events[1..]);
    }
  }

  lemma ReachableInv(w: World)
    requires Reachable(w)
    ensures Inv(w)
  {
    var events :| FreshClaims(INIT, events) && w == Run(INIT, events);
    RunKeepsInv(INIT, events);
  }

  // ---------------------------------------------------------------------
  // What every run guarantees
  // ---------------------------------------------------------------------

  /** A terminal row is never written again. */
  lemma {:induction false} TerminalIsForever(w: World, events: seq<Event>)
    requires Terminal(w.row)
    ensures Run(w, events) == w
    decreases |events|
  {
    if events != [] {
      TerminalIsForever(w, events[1..]);
    }
  }

  predicate EntersTerminal(w: World, e: Event) {
    !Terminal(w.row) && Terminal(Apply(w, e).row)
  }

  /** Over a whole run at most one event makes the delivery terminal. */
  lemma TerminalIsEnteredOnce(w: World, events: seq<Event>, i: nat, j: nat)
    requires i <= j < |events|
    requires EntersTerminal(Run(w, events[..i]), events[i]) && EntersTerminal(Run(w, events[..j]), events[j])
    ensures i == j
  {
    if i < j {
      RunSplit(w, events[..j], i);
      assert events[..j][..i] == events[..i];
      var at := Run(w, events[..i]);
      assert events[..j][i..][0] == events[i];
      TerminalIsForever(Apply(at, events[i]), events[..j][i..][1..]);
    }
  }

  lemma {:induction false} RunSplit(w: World, events: seq<Event>, i: nat)
    requires i <= |events|
    ensures Run(w, events) == Run(Run(w, events[..i]), events[i..])
    decreases i
  {
    if i == 0 {
      assert events[..0] == [] && events[0..] == events;
    } else {
      RunSplit(Apply(w, events[0]), events[1..], i - 1);
      assert events[..i][1..] == events[1..][..i - 1];
      assert events[i..] == events[1..][i - 1..];
    }
  }

  /** The only finish that makes a delivery terminal carries the latest claim's token, still held. */
  lemma OnlyTheLatestTokenFinishes(w: World, e: Event)
    requires Reachable(w) && EntersTerminal(w, e)
    ensures e.RevokeMembership? ||
            (&& e.Finish? && e.operation != Nack && w.row.stored == Some(e.token)
             && w.issued != [] && e.token == w.issued[|w.issued| - 1]
             && Apply(w, e).row.terminal == Some(e.token))
  {
    ReachableInv(w);
  }

  /** The holder of the latest claim may finish whatever the clock says; only replacement fences it. */
  lemma ExpiredButUnreplacedMayFinish(w: World, operation: Operation, leaseUntil: int)
    requires Reachable(w) && w.row.state == Claimed
    ensures w.row.stored.Some?
    ensures var expired := w.(row := w.row.(leaseUntil := Some(leaseUntil)));
            && Decision(expired.row, operation, w.row.stored.value) == Success(false)
            && Apply(expired, Finish(operation, w.row.stored.value)).row.state ==
               (match operation case Ack => Acked case Nack => Queued case DeadLetter => DeadLettered)
  {
    ReachableInv(w);
  }

  /**
   A later claim at or after the recorded end of the lease, or one of the two revocations, takes the
   delivery from its holder.
   */
  predicate Displaces(w: World, e: Event) {
    match e
    case Claim(_, now, _) => w.row.leaseUntil.Some? && w.row.leaseUntil.value <= now
    case RevokeLease(now) => w.row.leaseUntil.Some? && now < w.row.leaseUntil.value
    case RevokeMembership => true
    case _ => false
  }

  /** The event ends the lease that `token` holds: its own finish, whichever of the three, or a displacement. */
  predicate EndsLease(w: World, e: Event, token: Token) {
    w.row.stored == Some(token) && (Displaces(w, e) || (e.Finish? && e.token == token))
  }

  lemma StepKeepsLease(w: World, e: Event, token: Token)
    requires Inv(w) && token in w.issued && (e.Claim? ==> e.token !in w.issued)
    ensures Apply(w, e).row.stored == Some(token) <==> w.row.stored == Some(token) && !EndsLease(w, e, token)
  {
  }

  /** Over any run a token holds the delivery exactly as long as no event has ended its lease. */
  lemma {:induction false} LeaseEndsExactlyWhen(w: World, token: Token, events: seq<Event>)
    requires Inv(w) && w.row.stored == Some(token) && FreshClaims(w, events)
    ensures Run(w, events).row.stored == Some(token) <==>
            forall i | 0 <= i < |events| :: !EndsLease(Run(w, events[..i]), events[i], token)
    decreases |events|
  {
    if events != [] {
      var n := |events| - 1;
      var before, last := events[..n], events[n];
      FreshClaimsSplit(w, events, n);
      LeaseEndsExactlyWhen(w, token, before);
      RunKeepsInv(w, before);
      IssuedStays(w, before, token);
      RunSplit(w, events, n);
      assert events[n..][0] == last && events[n..][1..] == [];
      StepKeepsLease(Run(w, before), last, token);
      assert forall i | 0 <= i < n :: events[..i] == before[..i];
      assert events[..n] == before;
    }
  }

  lemma {:induction false} ClaimTakesHold(w: World, token: Token, now: int, lease: int)
    requires Inv(w) && token !in w.issued
    ensures var t := Apply(w, Claim(token, now, lease));
            && Inv(t)
            && (t != w <==> w.row.state == Queued || (w.row.state == Claimed && w.row.leaseUntil.value <= now))
            && (t != w ==>
                  && t.issued == w.issued + [token]
                  && t.row == Row(Claimed, Some(token), w.row.terminal, Some(now + lease)))
  {
    assert w.row.state == Claimed ==> w.row.leaseUntil.Some?;
  }

  /**
   A claim wins exactly when the delivery is queued or its lease has run out. From then on its token,
   and no other, may finish the delivery, until one of these happens, and then never again: a finish with
   that token, a revocation in force, or a winning claim at or after the end of the lease then recorded.
   */
  lemma {:induction false} ClaimIsExclusive(w: World, token: Token, now: int, lease: int, later: seq<Event>,
                                            other: Token, operation: Operation)
    requires Reachable(w) && token !in w.issued
    requires FreshClaims(Apply(w, Claim(token, now, lease)), later)
    ensures Inv(w)
    ensures var t := Apply(w, Claim(token, now, lease));
            t != w <==> w.row.state == Queued || (w.row.state == Claimed && w.row.leaseUntil.value <= now)
    ensures var t := Apply(w, Claim(token, now, lease));
            t != w ==>
              (Run(t, later).row.stored == Some(token) <==>
                 forall i | 0 <= i < |later| :: !EndsLease(Run(t, later[..i]), later[i], token))
    ensures var t := Apply(w, Claim(token, now, lease));
            t != w && Run(t, later).row.stored == Some(token) ==>
              (Decision(Run(t, later).row, operation, other) == Success(false) <==> other == token)
  {
    ReachableInv(w);
    ClaimTakesHold(w, token, now, lease);
    var t := Apply(w, Claim(token, now, lease));
    if t != w {
      LeaseEndsExactlyWhen(t, token, later);
      RunKeepsInv(t, later);
    }
  }

  /** What fences a token, and nothing else does: being displaced while it holds the delivery, or its own nack. */
  lemma WhatFences(w: World, e: Event, token: Token)
    requires Reachable(w) && token in w.issued && (e.Claim? ==> e.token !in w.issued)
    ensures Fenced(Apply(w, e), token) <==>
            || Fenced(w, token)
            || (w.row.stored == Some(token) && (Displaces(w, e) || e == Finish(Nack, token)))
  {
    ReachableInv(w);
  }

  /** A replaced, nacked or revoked token is refused ever after, and its attempts change nothing. */
  lemma {:induction false} FencedTokenIsRefused(w: World, later: seq<Event>, token: Token, operation: Operation)
    requires Inv(w) && FreshClaims(w, later) && Fenced(w, token)
    ensures var then_ := Run(w, later);
            && Fenced(then_, token)
            && Decision(then_.row, operation, token).Failure?
            && Apply(then_, Finish(operation, token)) == then_
    decreases |later|
  {
    if later != [] {
      FencedTokenIsRefused(Apply(w, later[0]), later[1..], token, operation);
    }
  }

  /** The three cases of a finish in a reachable state, by the token's standing. */
  lemma FinishByStanding(w: World, operation: Operation, token: Token)
    requires Reachable(w)
    ensures Decision(w.row, operation, token) == Success(false) <==> w.row.stored == Some(token)
    ensures Decision(w.row, operation, token) == Success(true) <==>
            w.row.terminal == Some(token) &&
            ((operation == Ack && w.row.state == Acked) || (operation == DeadLetter && w.row.state == DeadLettered))
    ensures token in w.issued && Decision(w.row, operation, token).Failure? && !Fenced(w, token) ==>
            (w.row.state == Acked && operation != Ack) || (w.row.state == DeadLettered && operation != DeadLetter)
  {
    ReachableInv(w);
  }

  /** The decision whole: confirm, proceed, or one of two refusals, by the state and the token's part in it. */
  lemma DecisionAnswers(w: World, operation: Operation, token: Token)
    requires Reachable(w)
    ensures var answer := Decision(w.row, operation, token);
            var held, ended := w.row.stored == Some(token), w.row.terminal == Some(token);
            match w.row.state
            case Claimed => answer == if held then Success(false) else Failure(LeaseTokenMismatch)
            case Queued => answer == if ended then Failure(DeliveryTerminal) else Failure(LeaseTokenMismatch)
            case Acked => answer == if ended && operation == Ack then Success(true) else Failure(DeliveryTerminal)
            case DeadLettered =>
              answer == if ended && operation == DeadLetter then Success(true) else Failure(DeliveryTerminal)
            case Revoked => answer == Failure(LeaseTokenMismatch)
  {
    ReachableInv(w);
  }

  /** What a finish writes: the state, no lease, and its own token as the terminal one, except for a nack. */
  lemma FinishWrites(w: World, operation: Operation, token: Token)
    requires Reachable(w)
    ensures var t := Apply(w, Finish(operation, token));
            && (w.row.stored != Some(token) ==> t == w)
            && (w.row.stored == Some(token) ==>
                  && t.row.stored == None && t.row.leaseUntil == None && t.issued == w.issued
                  && match operation
                     case Ack => t.row.state == Acked && t.row.terminal == Some(token)
                     case DeadLetter => t.row.state == DeadLettered && t.row.terminal == Some(token)
                     case Nack => t.row.state == Queued && t.row.terminal == None)
  {
    FinishByStanding(w, operation, token);
  }

  /**
   An operator's revocation puts the delivery back and tells its former holder that the delivery is over
   for it, whichever finish it tries, until another claim or a revoked membership.
   */
  lemma {:induction false} RevokedHolderIsToldTerminal(w: World, now: int, later: seq<Event>,
                                                       operation: Operation, token: Token)
    requires Inv(w) && w.row.stored == Some(token) && w.row.leaseUntil.Some? && now < w.row.leaseUntil.value
    requires forall i | 0 <= i < |later| :: !later[i].Claim? && !later[i].RevokeMembership?
    ensures var t := Run(Apply(w, RevokeLease(now)), later);
            && t.row == Row(Queued, None, Some(token), None)
            && Decision(t.row, operation, token) == Failure(DeliveryTerminal)
  {
    QueuedStays(Apply(w, RevokeLease(now)), later);
  }

  lemma {:induction false} QueuedStays(w: World, later: seq<Event>)
    requires w.row.state == Queued && w.row.stored == None
    requires forall i | 0 <= i < |later| :: !later[i].Claim? && !later[i].RevokeMembership?
    ensures Run(w, later).row == w.row
    decreases |later|
  {
    if later != [] {
      assert forall i | 0 <= i < |later[1..]| :: later[1..][i] == later[i + 1];
      QueuedStays(Apply(w, later[0]), later[1..]);
    }
  }

  /** A revoked membership ends the delivery for good, unless it was over already. */
  lemma RevokedMembershipEnds(w: World)
    requires Reachable(w)
    ensures var t := Apply(w, RevokeMembership);
            && t.issued == w.issued
            && t.row == if Terminal(w.row) then w.row else Row(Revoked, None, w.row.stored, None)
  {
  }

  /**
   An extension moves the end of a lease that its token holds and that has not run out, and does nothing
   else: before the new end no claim wins, and at it one does.
   */
  lemma ExtendMovesTheEnd(w: World, token: Token, now: int, lease: int, other: Token, at: int, more: int)
    requires Reachable(w)
    ensures var held := w.row.stored == Some(token) && w.row.leaseUntil.Some? && now < w.row.leaseUntil.value;
            var t := Apply(w, Extend(token, now, lease));
            && (!held ==> t == w)
            && (held ==>
                  && t.row.stored == Some(token) && t.row.state == Claimed && t.row.terminal == w.row.terminal
                  && (Apply(t, Claim(other, at, more)) == t <==> at < now + lease))
  {
    ReachableInv(w);
  }

  // ---------------------------------------------------------------------
  // Resent acknowledgements
  // ---------------------------------------------------------------------

  /**
   Two copies of one ack (or dead-letter) reach the store with anything in between.  If the
   first took effect the second succeeds and changes nothing; if the first was refused it
   left the row as it was, so the second is answered as if the first had never been sent.
   Hence a resent ack never fails because of its own first copy.
   */
  lemma ResentAckIsTransparent(w: World, between: seq<Event>, operation: Operation, token: Token)
    requires operation != Nack
    ensures var copy := Finish(operation, token);
            var first := Decision(w.row, operation, token);
            var meanwhile := Run(Apply(w, copy), between);
            var second := Decision(meanwhile.row, operation, token);
            && (first.Success? ==> second == Success(true) && Apply(meanwhile, copy) == meanwhile)
            && (first.Failure? ==>
                  && meanwhile == Run(w, between)
                  && second == Decision(Run(w, between).row, operation, token))
            && (second.Failure? ==> first.Failure?)
  {
    if Decision(w.row, operation, token).Success? {
      TerminalIsForever(Apply(w, Finish(operation, token)), between);
    }
  }

  /** A refusal of a token that was handed out is final. */
  lemma {:induction false} RefusalIsFinal(w: World, later: seq<Event>, operation: Operation, token: Token)
    requires Inv(w) && FreshClaims(w, later) && token in w.issued
    requires Decision(w.row, operation, token).Failure?
    ensures Decision(Run(w, later).row, operation, token).Failure?
  {
    if Fenced(w, token) {
      FencedTokenIsRefused(w, later, token, operation);
    } else {
      TerminalIsForever(w, later);
    }
  }

  lemma {:induction false} FreshClaimsSplit(w: World, events: seq<Event>, i: nat)
    requires i <= |events| && FreshClaims(w, events)
    ensures FreshClaims(w, events[..i]) && FreshClaims(Run(w, events[..i]), events[i..])
    decreases i
  {
    if i == 0 {
      assert events[..0] == [] && events[0..] == events;
    } else {
      var next, rest := Apply(w, events[0]), events[1..];
      FreshClaimsSplit(next, rest, i - 1);
      assert events[..i][0] == events[0] && events[..i][1..] == rest[..i - 1];
      assert events[i..] == rest[i - 1..];
      assert Run(w, events[..i]) == Run(next, rest[..i - 1]);
      assert FreshClaims(w, events[..i]) <==>
             (events[0].Claim? ==> events[0].token !in w.issued) && FreshClaims(next, rest[..i - 1]);
    }
  }

  lemma {:induction false} IssuedStays(w: World, events: seq<Event>, token: Token)
    requires token in w.issued
    ensures token in Run(w, events).issued
    decreases |events|
  {
    if events != [] {
      IssuedStays(Apply(w, events[0]), events[1..], token);
    }
  }

  /**
   Over a whole run all copies of one ack are answered alike: if any of them is accepted,
   every one is, earlier or later; and at most the first changes the row.
   */
  lemma CopiesOfAnAckAgree(w: World, events: seq<Event>, i: nat, j: nat, operation: Operation, token: Token)
    requires Reachable(w) && FreshClaims(w, events) && token in w.issued && operation != Nack
    requires i < j < |events| && events[i] == events[j] == Finish(operation, token)
    ensures Decision(Run(w, events[..i]).row, operation, token).Success? <==>
            Decision(Run(w, events[..j]).row, operation, token).Success?
    ensures Apply(Run(w, events[..j]), events[j]) == Run(w, events[..j])
  {
    ReachableInv(w);
    FreshClaimsSplit(w, events, j);
    var upto := events[..j];
    FreshClaimsSplit(w, upto, i);
    RunKeepsInv(w, upto[..i]);
    IssuedStays(w, upto[..i], token);
    RunSplit(w, upto, i);
    assert upto[..i] == events[..i];
    var at, between := Run(w, events[..i]), upto[i..];
    assert between[0] == events[i] && between != [];
    ResentAckIsTransparent(at, between[1..], operation, token);
    if Decision(at.row, operation, token).Failure? {
      RefusalIsFinal(at, between, operation, token);
    }
  }

  /** A resent nack has no such protection: its second copy is refused because of the first. */
  lemma ResentNackIsRefused(w: World, token: Token)
    requires Reachable(w) && w.row.stored == Some(token)
    ensures Decision(w.row, Nack, token) == Success(false)
    ensures Decision(Apply(w, Finish(Nack, token)).row, Nack, token) == Failure(LeaseTokenMismatch)
  {
    ReachableInv(w);
  }
}
