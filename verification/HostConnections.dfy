/**
 The table of host attention connections of internal/api/api.go: one entry per
 harness process, claimed and released by connections, and checked by
 hostProcessCanBind, which drops the lock between its two looks at the table.
 */
module HostConnections {
  import opened Wrappers

  datatype Key = Key(pid: int, startFingerprint: string)

  datatype Binding = Binding(actor: string, runID: string, sessionID: string)

  datatype Entry = Entry(conn: nat, binding: Binding)

  type Table = map<Key, Entry>

  // ---------------------------------------------------------------------
  // Critical sections
  // ---------------------------------------------------------------------

  function ClaimLocked(t: Table, key: Key, binding: Binding, conn: nat): (Table, bool) {
    if key in t then (t, false) else (t[key := Entry(conn, binding)], true)
  }

  function ReleaseLocked(t: Table, key: Key, conn: nat): Table {
    if key in t && t[key].conn == conn then t - {key} else t
  }

  /** The first look: None lets the process bind at once, otherwise the entry whose liveness decides. */
  function FirstLook(t: Table, key: Key, binding: Binding): Option<Entry> {
    if key !in t || t[key].binding == binding then None else Some(t[key])
  }

  /** The second look, after `current` was found not live. */
  function SecondLook(t: Table, key: Key, binding: Binding, current: Entry): (Table, bool) {
    if key !in t then (t, true)
    else if t[key].conn != current.conn then (t, t[key].binding == binding)
    else (t - {key}, true)
  }

  // ---------------------------------------------------------------------
  // Interleavings
  // ---------------------------------------------------------------------

  /** A connection that asked for a claim. */
  datatype Connection = Connection(key: Key, binding: Binding, claimed: bool, released: bool, closed: bool)

  datatype CheckPC =
    | AskingLiveness(current: Entry)
    | Evicting(current: Entry)      // was told that `current` is not live
    | Answered(canBind: bool)

  datatype Check = Check(key: Key, binding: Binding, pc: CheckPC)

  datatype State = State(table: Table, conns: map<nat, Connection>, nextConn: nat, checks: map<nat, Check>,
                         nextCheck: nat)

  const INIT := State(map[], map[], 0, map[], 0)

  datatype Event =
    | Claim(key: Key, binding: Binding)
    | Release(conn: nat)
    | BeginCheck(key: Key, binding: Binding)
    | Liveness(check: nat, live: bool)
    | EndCheck(check: nat)

  function SetCheck(s: State, id: nat, check: Check): State {
    s.(checks := s.checks[id := check])
  }

  /** One atomic event; an event that is not enabled changes nothing. */
  function Apply(s: State, e: Event): State {
    match e
    case Claim(key, binding) =>
      var (table, claimed) := ClaimLocked(s.table, key, binding, s.nextConn);
      s.(table := table, nextConn := s.nextConn + 1,
      conns := s.conns[s.nextConn := Connection(key, binding, claimed, !claimed, false)])
    case Release(conn) =>
      if conn !in s.conns || s.conns[conn].released then s
      else s.(table := ReleaseLocked(s.table, s.conns[conn].key, conn),
      conns := s.conns[conn := s.conns[conn].(released := true)])
    case BeginCheck(key, binding) =>
      var look := FirstLook(s.table, key, binding);
      var pc := if look.None? then Answered(true) else AskingLiveness(look.value);
      SetCheck(s, s.nextCheck, Check(key, binding, pc)).(nextCheck := s.nextCheck + 1)
    case Liveness(id, live) =>
      if id !in s.checks || !s.checks[id].pc.AskingLiveness? then s
      else SetCheck(s, id, s.checks[id].(pc := if live then Answered(false) else Evicting(s.checks[id].pc.current)))
    case EndCheck(id) =>
      if id !in s.checks || !s.checks[id].pc.Evicting? then s
      else
        var check := s.checks[id];
        var (table, canBind) := SecondLook(s.table, check.key, check.binding, check.pc.current);
        var closing := check.pc.current.conn;
        var conns := if table == s.table || closing !in s.conns then s.conns
                     else s.conns[closing := s.conns[closing].(closed := true)];
        SetCheck(s, id, check.(pc := Answered(canBind))).(table := table, conns := conns)
  }

  function Run(s: State, events: seq<Event>): State
    decreases |events|
  {
    if events == [] then s else Run(Apply(s, events[0]), events[1..])
  }

  predicate EntryInv(s: State, key: Key)
    requires key in s.table
  {
    var entry := s.table[key];
    entry.conn in s.conns && s.conns[entry.conn] == Connection(key, entry.binding, true, false, false)
  }

  /** What a check remembers was once in the table for its key, under another binding. */
  predicate CheckInv(s: State, id: nat)
    requires id in s.checks
  {
    var check := s.checks[id];
    && id < s.nextCheck
    && (check.pc.AskingLiveness? || check.pc.Evicting? ==>
          && check.pc.current.binding != check.binding
          && check.pc.current.conn in s.conns
          && s.conns[check.pc.current.conn].key == check.key
          && s.conns[check.pc.current.conn].binding == check.pc.current.binding)
  }

  predicate Inv(s: State) {
    && (forall key :: key in s.table ==> EntryInv(s, key))
    && (forall id :: id in s.checks ==> CheckInv(s, id))
    && (forall conn :: conn in s.conns ==> conn < s.nextConn)
    && (forall conn :: conn in s.conns && s.conns[conn].claimed && !s.conns[conn].released && !s.conns[conn].closed ==>
          s.conns[conn].key in s.table && s.table[s.conns[conn].key].conn == conn)
    && (forall conn :: conn in s.conns && !s.conns[conn].claimed ==> s.conns[conn].released)
  }

  lemma ClaimKeepsInv(s: State, key: Key, binding: Binding)
    requires Inv(s)
    ensures Inv(Apply(s, Claim(key, binding)))
  {
    var t := Apply(s, Claim(key, binding));
    forall k | k in t.table ensures EntryInv(t, k) {
      assert k in s.table ==> EntryInv(s, k);
    }
    forall id | id in t.checks ensures CheckInv(t, id) {
      assert CheckInv(s, id);
    }
  }

  lemma ReleaseKeepsInv(s: State, conn: nat)
    requires Inv(s)
    ensures Inv(Apply(s, Release(conn)))
  {
    var t := Apply(s, Release(conn));
    forall k | k in t.table ensures EntryInv(t, k) {
      assert EntryInv(s, k);
    }
    forall id | id in t.checks ensures CheckInv(t, id) {
      assert CheckInv(s, id);
    }
  }

  lemma LookKeepsInv(s: State, e: Event)
    requires Inv(s) && (e.BeginCheck? || e.Liveness?)
    ensures Inv(Apply(s, e))
  {
    var t := Apply(s, e);
    forall k | k in t.table ensures EntryInv(t, k) {
      assert EntryInv(s, k);
    }
    forall id | id in t.checks ensures CheckInv(t, id) {
      assert id in s.checks ==> CheckInv(s, id);
    }
  }

  lemma EndCheckKeepsInv(s: State, id: nat)
    requires Inv(s)
    ensures Inv(Apply(s, EndCheck(id)))
  {
    var t := Apply(s, EndCheck(id));
    forall k | k in t.table ensures EntryInv(t, k) {
      assert EntryInv(s, k);
    }
    forall i | i in t.checks ensures CheckInv(t, i) {
      assert CheckInv(s, i);
    }
  }

  lemma ApplyKeepsInv(s: State, e: Event)
    requires Inv(s)
    ensures Inv(Apply(s, e))
  {
    match e
    case Claim(key, binding) => ClaimKeepsInv(s, key, binding);
    case Release(conn) => ReleaseKeepsInv(s, conn);
    case EndCheck(id) => EndCheckKeepsInv(s, id);
    case _ => LookKeepsInv(s, e);
  }

  lemma {:induction false} RunKeepsInv(s: State, events: seq<Event>)
    requires Inv(s)
    ensures Inv(Run(s, events))
    decreases |events|
  {
    if events != [] {
      ApplyKeepsInv(s, events[0]);
      RunKeepsInv(Apply(s, events[0]), events[1..]);
    }
  }

  ghost predicate Reachable(s: State) {
    exists events :: s == Run(INIT, events)
  }

  lemma ReachableInv(s: State)
    requires Reachable(s)
    ensures Inv(s)
  {
    var events :| s == Run(INIT, events);
    RunKeepsInv(INIT, events);
  }

  // ---------------------------------------------------------------------
  // What every interleaving guarantees
  // ---------------------------------------------------------------------

  /**
   The connections that hold the table: one per process, exactly those that claimed and were neither
   released nor evicted.
   */
  lemma TableHoldsTheLiveClaims(s: State, key: Key, conn: nat)
    requires Reachable(s)
    ensures key in s.table && s.table[key].conn == conn <==>
              && conn in s.conns && s.conns[conn].key == key
              && s.conns[conn].claimed && !s.conns[conn].released && !s.conns[conn].closed
  {
    ReachableInv(s);
    if key in s.table {
      assert EntryInv(s, key);
    }
  }

  /** When the check answers true, its last look left no connection of another binding for the process. */
  lemma CanBindMeansNoRival(s: State, e: Event, id: nat)
    requires Reachable(s)
    requires (e.BeginCheck? && id == s.nextCheck) || (e == EndCheck(id) && id in s.checks && s.checks[id].pc.Evicting?)
    requires id in Apply(s, e).checks && Apply(s, e).checks[id].pc == Answered(true)
    ensures var t := Apply(s, e);
            var check := t.checks[id];
            check.key in t.table ==> t.table[check.key].binding == check.binding
  {
    ReachableInv(s);
  }

  /**
   A check evicts at most the very connection whose registration it saw as not live: same
   connection, same binding, another binding than its own; and it answers true then.
   */
  lemma EvictsOnlyWhatItJudged(s: State, id: nat)
    requires Reachable(s)
    requires id in s.checks && s.checks[id].pc.Evicting?
    ensures var check := s.checks[id];
            var t := Apply(s, EndCheck(id));
            if check.key in s.table && s.table[check.key].conn == check.pc.current.conn then
              && s.table[check.key] == check.pc.current && check.pc.current.binding != check.binding
              && t.table == s.table - {check.key}
              && t.checks[id].pc == Answered(true)
              && check.pc.current.conn in s.conns
              && t.conns == s.conns[check.pc.current.conn := s.conns[check.pc.current.conn].(closed := true)]
            else
              && t.table == s.table && t.conns == s.conns
              && (t.checks[id].pc == Answered(true) <==>
                    check.key in s.table ==> s.table[check.key].binding == check.binding)
  {
    ReachableInv(s);
    var check := s.checks[id];
    assert CheckInv(s, id);
    if check.key in s.table {
      assert EntryInv(s, check.key);
    }
  }

  /**
   The event makes check `id` answer false: a live registration, or a successor of another binding,
   stands in the way.
   */
  predicate Refuses(s: State, e: Event, id: nat) {
    && id in s.checks
    && var check := s.checks[id];
       || (e == Liveness(id, true) && check.pc.AskingLiveness?)
       || (&& e == EndCheck(id) && check.pc.Evicting? && check.key in s.table
           && s.table[check.key].conn != check.pc.current.conn && s.table[check.key].binding != check.binding)
  }

  /** The event closes connection `conn` on behalf of a check that judged it. */
  predicate Evicts(s: State, e: Event, conn: nat) {
    && e.EndCheck? && e.check in s.checks && s.checks[e.check].pc.Evicting?
    && var check := s.checks[e.check];
       check.pc.current.conn == conn && check.key in s.table && s.table[check.key].conn == conn
  }

  predicate AnsweredBy(s: State, id: nat, canBind: bool) {
    id in s.checks && s.checks[id].pc == Answered(canBind)
  }

  predicate Closed(s: State, conn: nat) {
    conn in s.conns && s.conns[conn].closed
  }

  lemma StepAnswersFalse(s: State, e: Event, id: nat)
    requires Inv(s)
    ensures AnsweredBy(Apply(s, e), id, false) <==> AnsweredBy(s, id, false) || Refuses(s, e, id)
    ensures Refuses(s, e, id) ==> Apply(s, e).table == s.table && Apply(s, e).conns == s.conns
  {
    assert id in s.checks ==> CheckInv(s, id);
  }

  lemma StepCloses(s: State, e: Event, conn: nat)
    requires Inv(s)
    ensures Closed(Apply(s, e), conn) <==> Closed(s, conn) || Evicts(s, e, conn)
    ensures Evicts(s, e, conn) ==> AnsweredBy(Apply(s, e), e.check, true)
  {
    if Evicts(s, e, conn) {
      assert EntryInv(s, s.checks[e.check].key);
    }
  }

  lemma {:induction false} AnswersAreFinal(s: State, events: seq<Event>, id: nat, canBind: bool)
    requires Inv(s) && AnsweredBy(s, id, canBind)
    ensures AnsweredBy(Run(s, events), id, canBind)
    decreases |events|
  {
    if events != [] {
      assert CheckInv(s, id);
      ApplyKeepsInv(s, events[0]);
      AnswersAreFinal(Apply(s, events[0]), events[1..], id, canBind);
    }
  }

  lemma {:induction false} RunSplit(s: State, events: seq<Event>, i: nat)
    requires i <= |events|
    ensures Run(s, events) == Run(Run(s, events[..i]), events[i..])
    decreases i
  {
    if i == 0 {
      assert events[..0] == [] && events[0..] == events;
    } else {
      RunSplit(Apply(s, events[0]), events[1..], i - 1);
      assert events[..i][1..] == events[1..][..i - 1];
      assert events[i..] == events[1..][i - 1..];
    }
  }

  lemma LastStep(events: seq<Event>)
    requires events != []
    ensures Run(INIT, events) == Apply(Run(INIT, events[..|events| - 1]), events[|events| - 1])
  {
    var n := |events| - 1;
    RunSplit(INIT, events, n);
    assert events[n..][0] == events[n] && events[n..][1..] == [];
  }

  predicate RefusesAt(events: seq<Event>, i: nat, id: nat) {
    i < |events| && Refuses(Run(INIT, events[..i]), events[i], id)
  }

  predicate EvictsAt(events: seq<Event>, i: nat, conn: nat) {
    i < |events| && Evicts(Run(INIT, events[..i]), events[i], conn)
  }

  /** Over any run a check has answered false exactly when one of its looks met a rival. */
  lemma {:induction false} RefusalsSawARival(events: seq<Event>, id: nat)
    ensures AnsweredBy(Run(INIT, events), id, false) <==> exists i :: RefusesAt(events, i, id)
    decreases |events|
  {
    if events != [] {
      var n := |events| - 1;
      var before := events[..n];
      RefusalsSawARival(before, id);
      LastStep(events);
      RunKeepsInv(INIT, before);
      StepAnswersFalse(Run(INIT, before), events[n], id);
      forall i | 0 <= i < n ensures RefusesAt(events, i, id) <==> RefusesAt(before, i, id) {
        assert events[..i] == before[..i];
      }
      assert RefusesAt(events, n, id) <==> Refuses(Run(INIT, before), events[n], id);
      if i: nat :| RefusesAt(before, i, id) {
        assert RefusesAt(events, i, id);
      }
    }
  }

  /** Over any run the closed connections are exactly those that some check evicted. */
  lemma {:induction false} ClosedMeansEvicted(events: seq<Event>, conn: nat)
    ensures Closed(Run(INIT, events), conn) <==> exists i :: EvictsAt(events, i, conn)
    decreases |events|
  {
    if events != [] {
      var n := |events| - 1;
      var before := events[..n];
      ClosedMeansEvicted(before, conn);
      LastStep(events);
      RunKeepsInv(INIT, before);
      StepCloses(Run(INIT, before), events[n], conn);
      forall i | 0 <= i < n ensures EvictsAt(events, i, conn) <==> EvictsAt(before, i, conn) {
        assert events[..i] == before[..i];
      }
      assert EvictsAt(events, n, conn) <==> Evicts(Run(INIT, before), events[n], conn);
      if i: nat :| EvictsAt(before, i, conn) {
        assert EvictsAt(events, i, conn);
      }
    }
  }

  /** A check that evicted answers true to the end of the run: one that answers false never closed anything. */
  lemma RefusalEvictsNothing(events: seq<Event>, i: nat, id: nat, conn: nat)
    requires AnsweredBy(Run(INIT, events), id, false)
    requires i < |events| && events[i] == EndCheck(id)
    ensures !EvictsAt(events, i, conn)
  {
    if EvictsAt(events, i, conn) {
      RunSplit(INIT, events, i);
      RunKeepsInv(INIT, events[..i]);
      var before := Run(INIT, events[..i]);
      StepCloses(before, events[i], conn);
      ApplyKeepsInv(before, events[i]);
      assert events[i..][0] == events[i];
      AnswersAreFinal(Apply(before, events[i]), events[i..][1..], id, true);
    }
  }

  /** A claim is granted exactly when the process has no entry, and is then what the table holds for it. */
  lemma ClaimIsGranted(s: State, key: Key, binding: Binding)
    requires Reachable(s)
    ensures var t := Apply(s, Claim(key, binding));
            var conn := s.nextConn;
            && conn !in s.conns && conn in t.conns && t.conns[conn].key == key && t.conns[conn].binding == binding
            && (t.conns[conn].claimed <==> key !in s.table)
            && (key !in s.table ==> t.table == s.table[key := Entry(conn, binding)])
            && (key in s.table ==> t.table == s.table)
  {
    ReachableInv(s);
  }

  predicate HeldBy(s: State, key: Key, entry: Entry) {
    key in s.table && s.table[key] == entry
  }

  lemma StepKeepsHeld(s: State, e: Event, key: Key, entry: Entry)
    requires Inv(s) && entry.conn in s.conns && s.conns[entry.conn].key == key
    ensures entry.conn in Apply(s, e).conns && Apply(s, e).conns[entry.conn].key == key
    ensures HeldBy(Apply(s, e), key, entry) <==>
              HeldBy(s, key, entry) && e != Release(entry.conn) && !Evicts(s, e, entry.conn)
  {
    forall k | k in s.table ensures EntryInv(s, k) {
    }
    if e.EndCheck? && e.check in s.checks {
      assert CheckInv(s, e.check);
    }
  }

  /** Over any run an entry stays until its own connection releases it or a check evicts that connection. */
  lemma {:induction false} EntryStaysUntil(s: State, later: seq<Event>, key: Key, entry: Entry)
    requires Inv(s) && HeldBy(s, key, entry)
    ensures HeldBy(Run(s, later), key, entry) <==>
              forall i | 0 <= i < |later| ::
                later[i] != Release(entry.conn) && !Evicts(Run(s, later[..i]), later[i], entry.conn)
    decreases |later|
  {
    assert EntryInv(s, key);
    KeepsOrLoses(s, later, key, entry);
  }

  lemma {:induction false} KeepsOrLoses(s: State, later: seq<Event>, key: Key, entry: Entry)
    requires Inv(s) && entry.conn in s.conns && s.conns[entry.conn].key == key
    ensures Inv(Run(s, later)) && entry.conn in Run(s, later).conns && Run(s, later).conns[entry.conn].key == key
    ensures HeldBy(Run(s, later), key, entry) <==>
              && HeldBy(s, key, entry)
              && forall i | 0 <= i < |later| ::
                   later[i] != Release(entry.conn) && !Evicts(Run(s, later[..i]), later[i], entry.conn)
    decreases |later|
  {
    if later != [] {
      var n := |later| - 1;
      var before, last := later[..n], later[n];
      KeepsOrLoses(s, before, key, entry);
      RunSplit(s, later, n);
      assert later[n..][0] == last && later[n..][1..] == [];
      var at := Run(s, before);
      ApplyKeepsInv(at, last);
      StepKeepsHeld(at, last, key, entry);
      assert forall i | 0 <= i < n :: later[..i] == before[..i];
    }
  }

  /** A granted claim stays until then, too. */
  lemma GrantedClaimStays(s: State, key: Key, binding: Binding, later: seq<Event>)
    requires Reachable(s) && key !in s.table
    ensures var t, conn := Apply(s, Claim(key, binding)), s.nextConn;
            HeldBy(Run(t, later), key, Entry(conn, binding)) <==>
              forall i | 0 <= i < |later| ::
                later[i] != Release(conn) && !Evicts(Run(t, later[..i]), later[i], conn)
  {
    ReachableInv(s);
    ClaimIsGranted(s, key, binding);
    ApplyKeepsInv(s, Claim(key, binding));
    EntryStaysUntil(Apply(s, Claim(key, binding)), later, key, Entry(s.nextConn, binding));
  }

  /**
   A check answers true at once exactly when no other binding holds its process; otherwise it asks about
   that very entry, and goes on to evict it exactly when it is not live.
   */
  lemma FirstLookAnswers(s: State, key: Key, binding: Binding)
    requires Reachable(s)
    ensures var id, t := s.nextCheck, Apply(s, BeginCheck(key, binding));
            var rival := key in s.table && s.table[key].binding != binding;
            && t.table == s.table && t.conns == s.conns && id in t.checks
            && t.checks[id] == Check(key, binding, if rival then AskingLiveness(s.table[key]) else Answered(true))
            && (rival ==> forall live ::
                  Apply(t, Liveness(id, live)).checks[id].pc ==
                  if live then Answered(false) else Evicting(s.table[key]))
  {
  }

  /** An evicted connection's late release leaves the table as it is: its successor stays. */
  lemma LateReleaseSparesSuccessor(s: State, conn: nat)
    requires Reachable(s)
    requires conn in s.conns && s.conns[conn].closed
    ensures Apply(s, Release(conn)).table == s.table
  {
    ReachableInv(s);
    if s.conns[conn].key in s.table {
      assert EntryInv(s, s.conns[conn].key);
    }
  }

  /** A release removes its own entry and no other. */
  lemma ReleaseRemovesOwnEntry(s: State, conn: nat)
    requires Reachable(s) && conn in s.conns
    ensures var t := Apply(s, Release(conn)).table;
            forall key, entry :: key in t && t[key] == entry <==>
              key in s.table && s.table[key] == entry && entry.conn != conn
  {
    ReachableInv(s);
    forall key | key in s.table ensures EntryInv(s, key) {
    }
    if s.conns[conn].key in s.table {
      assert EntryInv(s, s.conns[conn].key);
    }
  }

  // ---------------------------------------------------------------------
  // The table object
  // ---------------------------------------------------------------------

  class HostConnectionTable {
    var connections: Table

    constructor ()
      ensures connections == map[]
    {
      connections := map[];
    }

    method Claim(key: Key, binding: Binding, conn: nat) returns (claimed: bool)
      modifies this
      ensures (connections, claimed) == ClaimLocked(old(connections), key, binding, conn)
    {
      if key in connections {
        return false;
      }
      connections := connections[key := Entry(conn, binding)];
      return true;
    }

    method Release(key: Key, conn: nat)
      modifies this
      ensures connections == ReleaseLocked(old(connections), key, conn)
    {
      if key in connections && connections[key].conn == conn {
        connections := connections - {key};
      }
    }

    /** Other connections and checks at work while the lock is dropped. */
    method Unlocked()
      modifies this
    {
      connections := *;
    }

    /**
     hostProcessCanBind.  `live` is the store's answer about the entry of the first look.
     True promises that the table it leaves has no rival for the process; an eviction removes
     the one connection of the first look and nothing else.
     */
    method ProcessCanBind(key: Key, binding: Binding, live: bool)
      returns (canBind: bool, closed: Option<nat>, ghost last: Table)
      modifies this
      ensures canBind ==> key in connections ==> connections[key].binding == binding
      ensures match FirstLook(old(connections), key, binding)
              case None => canBind && connections == old(connections)
              case Some(current) =>
                (connections, canBind) == if live then (last, false) else SecondLook(last, key, binding, current)
      ensures closed.Some? ==>
                && canBind && !live
                && key in old(connections) && old(connections)[key].conn == closed.value
                && old(connections)[key].binding != binding
                && key in last && last[key].conn == closed.value && connections == last - {key}
    {
      last := connections;
      if key !in connections || connections[key].binding == binding {
        return true, None, last;
      }
      var current := connections[key];
      Unlocked();
      last := connections;
      if live {
        return false, None, last;
      }
      if key !in connections {
        return true, None, last;
      }
      var latest := connections[key];
      if latest.conn != current.conn {
        return latest.binding == binding, None, last;
      }
      connections := connections - {key};
      return true, Some(current.conn), last;
    }
  }
}
