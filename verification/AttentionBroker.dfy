/**
 The attention broker of internal/attention/broker.go.

 Every critical section of the broker mutex and every operation on a one-slot
 result channel is one atomic event.  `Core` is the memory those events touch,
 `State` adds the program counters of the running Wait calls, the sends that
 Attach and Cancel perform after they release the lock, and the history that
 the theorems speak about.
 */
module AttentionBroker {
  import opened Wrappers

  datatype SessionKey = SessionKey(actor: string, runID: string, sessionID: string)

  datatype Notice = Notice(messageID: string, threadID: string, fromActor: string, kind: string,
                           deliveryRequest: string)

  datatype Error =
    | PresenceSuperseded
    | RegistrationExpired
    | AttentionWaiterBusy
    | AttentionUnavailable
    | SessionEnded
    | StoreError(text: string)

  datatype WaitResult = Noticed(notice: Notice) | Failed(error: Error)

  /** A registered waiter; `chan` names the channel that its Wait call created. */
  datatype Entry = Entry(adapter: string, chan: nat)

  datatype Core = Core(
    waiters: map<SessionKey, Entry>,
    current: map<string, SessionKey>,
    slots: map<nat, WaitResult>, // the channels whose single slot is occupied
    nextChan: nat)

  const EMPTY_CORE := Core(map[], map[], map[], 0)

  // ---------------------------------------------------------------------
  // Critical sections and channel operations
  // ---------------------------------------------------------------------

  datatype Callback = Passes | Fails(error: Error)

  datatype AttachOutcome =
    | AlreadyCurrent
    | CallbackFailed(error: Error)
    | Attached(evicted: Option<Entry>)

  function AttachLocked(c: Core, key: SessionKey, callback: Callback): (Core, AttachOutcome) {
    if key.actor in c.current && c.current[key.actor] == key then (c, AlreadyCurrent)
    else if callback.Fails? then (c, CallbackFailed(callback.error))
    else
      var attached := c.(current := c.current[key.actor := key]);
      if key.actor in c.current && c.current[key.actor] in c.waiters then
        var previous := c.current[key.actor];
        (attached.(waiters := c.waiters - {previous}), Attached(Some(c.waiters[previous])))
      else
        (attached, Attached(None))
  }

  function WaitLocked(c: Core, key: SessionKey, adapter: string): (Core, Result<nat, Error>) {
    if key.actor !in c.current then (c, Failure(RegistrationExpired))
    else if c.current[key.actor] != key then (c, Failure(PresenceSuperseded))
    else if key in c.waiters then (c, Failure(AttentionWaiterBusy))
    else (c.(waiters := c.waiters[key := Entry(adapter, c.nextChan)], nextChan := c.nextChan + 1), Success(c.nextChan))
  }

  function RemoveLocked(c: Core, key: SessionKey, chan: nat): Core {
    if key in c.waiters && c.waiters[key].chan == chan then c.(waiters := c.waiters - {key}) else c
  }

  predicate CanNotify(c: Core, key: SessionKey, mode: string) {
    && key.actor in c.current
    && c.current[key.actor] == key
    && key in c.waiters
    && c.waiters[key].adapter == mode
  }

  function NotifyLocked(c: Core, key: SessionKey, mode: string, notice: Notice): (Core, bool) {
    if CanNotify(c, key, mode) && c.waiters[key].chan !in c.slots then
      (c.(slots := c.slots[c.waiters[key].chan := Noticed(notice)], waiters := c.waiters - {key}), true)
    else
      (c, false)
  }

  function CancelLocked(c: Core, key: SessionKey): (Core, Option<Entry>) {
    var current := if key.actor in c.current && c.current[key.actor] == key then c.current - {key.actor} else c.current;
    (c.(waiters := c.waiters - {key}, current := current), if key in c.waiters then Some(c.waiters[key]) else None)
  }

  /** A non-blocking send: dropped when the slot is occupied. */
  function TrySend(c: Core, chan: nat, result: WaitResult): Core {
    if chan in c.slots then c else c.(slots := c.slots[chan := result])
  }

  // ---------------------------------------------------------------------
  // Interleavings
  // ---------------------------------------------------------------------

  datatype Outcome = Returned(result: WaitResult) | TimedOut

  /** Where a Wait call stands after its first critical section. */
  datatype WaitPC =
    | Parked                       // in the select
    | ContextDone                  // woken by its context, about to unregister
    | Unregistered                 // unregistered after its context ended, about to re-check the channel
    | Received(result: WaitResult) // took a result from the channel, about to unregister
    | Finished(outcome: Outcome)

  /** Who ended a waiter's registration. */
  datatype Fate =
    | Waiting                    // nobody yet
    | AcceptedBy(notice: Notice) // Notify reported this notice as accepted
    | EvictedBy(error: Error)    // Attach or Cancel removed it
    | Withdrawn                  // its own Wait removed it

  datatype WaitCall = WaitCall(key: SessionKey, adapter: string, pc: WaitPC, fate: Fate)

  datatype PendingSend = PendingSend(chan: nat, error: Error)

  datatype State = State(
    core: Core,
    calls: map<nat, WaitCall>,    // the admitted Wait calls, by the channel each created
    sends: map<nat, PendingSend>, // the sends still owed by Attach and Cancel
    nextSend: nat)

  const INIT := State(EMPTY_CORE, map[], map[], 0)

  datatype Event =
    | Attach(key: SessionKey, callback: Callback)
    | BeginWait(key: SessionKey, adapter: string)
    | EndContext(chan: nat)
    | Unregister(chan: nat)
    | Receive(chan: nat)
    | Recheck(chan: nat)
    | Notify(key: SessionKey, mode: string, notice: Notice)
    | Cancel(key: SessionKey, error: Error)
    | Send(id: nat)

  function SetCall(s: State, chan: nat, call: WaitCall): State {
    s.(calls := s.calls[chan := call])
  }

  /** Records the fate of the call that waits on `chan`. */
  function Decide(s: State, chan: nat, fate: Fate): State {
    if chan in s.calls then SetCall(s, chan, s.calls[chan].(fate := fate)) else s
  }

  function Evict(s: State, entry: Option<Entry>, error: Error): State {
    match entry
    case None => s
    case Some(e) =>
      Decide(s, e.chan, EvictedBy(error)).(sends := s.sends[s.nextSend := PendingSend(e.chan, error)],
      nextSend := s.nextSend + 1)
  }

  /** Takes the result out of an occupied slot. */
  function TakeSlot(c: Core, chan: nat): Core {
    c.(slots := c.slots - {chan})
  }

  /** One atomic event; an event that is not enabled changes nothing. */
  function Apply(s: State, e: Event): State {
    match e
    case Attach(key, callback) =>
      var (core, outcome) := AttachLocked(s.core, key, callback);
      Evict(s.(core := core), if outcome.Attached? then outcome.evicted else None, PresenceSuperseded)
    case BeginWait(key, adapter) =>
      var (core, admitted) := WaitLocked(s.core, key, adapter);
      if admitted.Failure? then s
      else SetCall(s.(core := core), admitted.value, WaitCall(key, adapter, Parked, Waiting))
    case EndContext(chan) =>
      if chan in s.calls && s.calls[chan].pc.Parked? then
        SetCall(s, chan, s.calls[chan].(pc := ContextDone))
      else s
    case Unregister(chan) =>
      if chan in s.calls && (s.calls[chan].pc.ContextDone? || s.calls[chan].pc.Received?) then
        var call := s.calls[chan];
        var core := RemoveLocked(s.core, call.key, chan);
        SetCall(s.(core := core), chan,
                call.(fate := if core == s.core then call.fate else Withdrawn,
                pc := if call.pc.Received? then Finished(Returned(call.pc.result)) else Unregistered))
      else s
    case Receive(chan) =>
      if chan in s.calls && s.calls[chan].pc.Parked? && chan in s.core.slots then
        SetCall(s.(core := TakeSlot(s.core, chan)), chan, s.calls[chan].(pc := Received(s.core.slots[chan])))
      else s
    case Recheck(chan) =>
      if chan in s.calls && s.calls[chan].pc.Unregistered? then
        if chan in s.core.slots then
          var outcome := Returned(s.core.slots[chan]);
          SetCall(s.(core := TakeSlot(s.core, chan)), chan, s.calls[chan].(pc := Finished(outcome)))
        else
          SetCall(s, chan, s.calls[chan].(pc := Finished(TimedOut)))
      else s
    case Notify(key, mode, notice) =>
      var (core, taken) := NotifyLocked(s.core, key, mode, notice);
      if taken then Decide(s.(core := core), s.core.waiters[key].chan, AcceptedBy(notice)) else s
    case Cancel(key, error) =>
      var (core, entry) := CancelLocked(s.core, key);
      Evict(s.(core := core), entry, error)
    case Send(id) =>
      if id !in s.sends then s
      else s.(core := TrySend(s.core, s.sends[id].chan, Failed(s.sends[id].error)), sends := s.sends - {id})
  }

  function Run(s: State, events: seq<Event>): State
    decreases |events|
  {
    if events == [] then s else Run(Apply(s, events[0]), events[1..])
  }

  // ---------------------------------------------------------------------
  // Invariant
  // ---------------------------------------------------------------------

  function Slot(s: State, chan: nat): Option<WaitResult> {
    if chan in s.core.slots then Some(s.core.slots[chan]) else None
  }

  /** What a call can see, given who ended its registration. */
  predicate Consistent(call: WaitCall, slot: Option<WaitResult>) {
    match call.fate
    case Waiting => slot == None && (call.pc.Parked? || call.pc.ContextDone?)
    case AcceptedBy(notice) =>
      (match call.pc
       case Received(result) => slot == None && result == Noticed(notice)
       case Finished(outcome) => slot == None && outcome == Returned(Noticed(notice))
       case _ => slot == Some(Noticed(notice)))
    case EvictedBy(error) =>
      (match call.pc
       case Received(result) => slot == None && result == Failed(error)
       case Finished(Returned(result)) => slot == None && result == Failed(error)
       case _ => slot == None || slot == Some(Failed(error)))
    case Withdrawn => slot == None && (call.pc.Unregistered? || call.pc == Finished(TimedOut))
  }

  predicate WaiterInv(s: State, key: SessionKey)
    requires key in s.core.waiters
  {
    var entry := s.core.waiters[key];
    && key.actor in s.core.current && s.core.current[key.actor] == key
    && entry.chan in s.calls
    && s.calls[entry.chan].key == key && s.calls[entry.chan].adapter == entry.adapter
  }

  predicate CallInv(s: State, chan: nat)
    requires chan in s.calls
  {
    && chan < s.core.nextChan
    && Consistent(s.calls[chan], Slot(s, chan))
    && (s.calls[chan].fate.Waiting? <==>
          s.calls[chan].key in s.core.waiters && s.core.waiters[s.calls[chan].key].chan == chan)
  }

  /** Attach and Cancel owe a send only to a call they evicted, whose slot is empty and which has read nothing. */
  predicate SendInv(s: State, id: nat)
    requires id in s.sends
  {
    var chan := s.sends[id].chan;
    && id < s.nextSend
    && chan in s.calls && s.calls[chan].fate == EvictedBy(s.sends[id].error)
    && chan !in s.core.slots
    && !s.calls[chan].pc.Received?
    && (s.calls[chan].pc.Finished? ==> s.calls[chan].pc.outcome.TimedOut?)
  }

  predicate TablesInv(s: State) {
    && (forall key :: key in s.core.waiters ==> WaiterInv(s, key))
    && (forall chan :: chan in s.calls ==> CallInv(s, chan))
    && (forall id :: id in s.sends ==> SendInv(s, id))
    && (forall i, j :: i in s.sends && j in s.sends && i != j ==> s.sends[i].chan != s.sends[j].chan)
    && (forall chan :: chan in s.core.slots ==> chan in s.calls)
  }

  /** A send that will bring `error` to the channel is still owed. */
  ghost predicate Owed(s: State, chan: nat, error: Error) {
    exists id :: id in s.sends && s.sends[id] == PendingSend(chan, error)
  }

  /** An evicted call that has not read its outcome finds it in its slot, or is still owed it. */
  predicate Unanswered(s: State, chan: nat)
    requires chan in s.calls
  {
    var call := s.calls[chan];
    call.fate.EvictedBy? && !call.pc.Received? && !call.pc.Finished? && chan !in s.core.slots
  }

  ghost predicate OwedInv(s: State) {
    forall chan :: chan in s.calls && Unanswered(s, chan) ==> Owed(s, chan, s.calls[chan].fate.error)
  }

  ghost predicate Inv(s: State) {
    TablesInv(s) && OwedInv(s)
  }

  /** The registrations agree with a map of current presences. */
  predicate CurrentCovers(waiters: map<SessionKey, Entry>, current: map<string, SessionKey>) {
    forall k :: k in waiters ==> k.actor in current && current[k.actor] == k
  }

  lemma EvictKeepsTables(s: State, key: SessionKey, current: map<string, SessionKey>, error: Error)
    requires TablesInv(s) && key in s.core.waiters && CurrentCovers(s.core.waiters - {key}, current)
    ensures var core := s.core.(waiters := s.core.waiters - {key}, current := current);
            TablesInv(Evict(s.(core := core), Some(s.core.waiters[key]), error))
  {
    assert WaiterInv(s, key);
    var core := s.core.(waiters := s.core.waiters - {key}, current := current);
    var t := Evict(s.(core := core), Some(s.core.waiters[key]), error);
    forall k | k in t.core.waiters ensures WaiterInv(t, k) {
      assert WaiterInv(s, k) && k in s.core.waiters - {key};
    }
    forall c | c in t.calls ensures CallInv(t, c) {
      assert CallInv(s, c);
    }
    forall i | i in t.sends ensures SendInv(t, i) {
      assert i in s.sends ==> SendInv(s, i);
    }
  }

  lemma PresenceKeepsTables(s: State, current: map<string, SessionKey>)
    requires TablesInv(s) && CurrentCovers(s.core.waiters, current)
    ensures TablesInv(s.(core := s.core.(current := current)))
  {
    var t := s.(core := s.core.(current := current));
    forall k | k in t.core.waiters ensures WaiterInv(t, k) {
      assert WaiterInv(s, k);
    }
    forall c | c in t.calls ensures CallInv(t, c) {
      assert CallInv(s, c);
    }
    forall i | i in t.sends ensures SendInv(t, i) {
      assert SendInv(s, i);
    }
  }

  lemma TakeKeepsTables(s: State, chan: nat, pc: WaitPC)
    requires TablesInv(s) && chan in s.calls && chan in s.core.slots
    requires pc == Received(s.core.slots[chan]) || pc == Finished(Returned(s.core.slots[chan]))
    ensures TablesInv(SetCall(s.(core := TakeSlot(s.core, chan)), chan, s.calls[chan].(pc := pc)))
  {
    var t := SetCall(s.(core := TakeSlot(s.core, chan)), chan, s.calls[chan].(pc := pc));
    assert CallInv(s, chan);
    forall k | k in t.core.waiters ensures WaiterInv(t, k) {
      assert WaiterInv(s, k);
    }
    forall c | c in t.calls ensures CallInv(t, c) {
      assert CallInv(s, c);
    }
    forall i | i in t.sends ensures SendInv(t, i) {
      assert SendInv(s, i);
    }
  }

  lemma AttachKeepsTables(s: State, key: SessionKey, callback: Callback)
    requires TablesInv(s)
    ensures TablesInv(Apply(s, Attach(key, callback)))
  {
    var (core, outcome) := AttachLocked(s.core, key, callback);
    if outcome.Attached? {
      var current := s.core.current[key.actor := key];
      forall k | k in s.core.waiters ensures k.actor in s.core.current && s.core.current[k.actor] == k {
        assert WaiterInv(s, k);
      }
      if outcome.evicted.Some? {
        EvictKeepsTables(s, s.core.current[key.actor], current, PresenceSuperseded);
      } else {
        PresenceKeepsTables(s, current);
      }
    }
  }

  lemma BeginWaitKeepsTables(s: State, key: SessionKey, adapter: string)
    requires TablesInv(s)
    ensures TablesInv(Apply(s, BeginWait(key, adapter)))
  {
    var t := Apply(s, BeginWait(key, adapter));
    forall k | k in t.core.waiters ensures WaiterInv(t, k) {
      assert k in s.core.waiters ==> WaiterInv(s, k);
    }
    forall c | c in t.calls ensures CallInv(t, c) {
      assert c in s.calls ==> CallInv(s, c);
    }
    forall i | i in t.sends ensures SendInv(t, i) {
      assert i in s.sends ==> SendInv(s, i);
    }
  }

  /** A call that is no longer registered may move on without touching the broker's memory. */
  lemma MoveKeepsTables(s: State, chan: nat, call: WaitCall)
    requires TablesInv(s) && chan in s.calls && !s.calls[chan].fate.Waiting?
    requires call.key == s.calls[chan].key && call.adapter == s.calls[chan].adapter && call.fate == s.calls[chan].fate
    requires (s.calls[chan].pc.ContextDone? && call.pc == Unregistered)
          || (s.calls[chan].pc.Received? && call.pc == Finished(Returned(s.calls[chan].pc.result)))
          || (s.calls[chan].pc.Unregistered? && call.pc == Finished(TimedOut) && chan !in s.core.slots)
    ensures TablesInv(SetCall(s, chan, call))
  {
    var t := SetCall(s, chan, call);
    assert CallInv(s, chan);
    forall k | k in t.core.waiters ensures WaiterInv(t, k) {
      assert WaiterInv(s, k);
    }
    forall c | c in t.calls ensures CallInv(t, c) {
      assert CallInv(s, c);
    }
    forall i | i in t.sends ensures SendInv(t, i) {
      assert SendInv(s, i);
    }
  }

  /** A call that is still registered removes its own entry. */
  lemma WithdrawKeepsTables(s: State, chan: nat)
    requires TablesInv(s) && chan in s.calls && s.calls[chan].fate.Waiting? && s.calls[chan].pc.ContextDone?
    ensures TablesInv(Apply(s, Unregister(chan)))
  {
    var t := Apply(s, Unregister(chan));
    assert CallInv(s, chan);
    forall k | k in t.core.waiters ensures WaiterInv(t, k) {
      assert WaiterInv(s, k);
    }
    forall c | c in t.calls ensures CallInv(t, c) {
      assert CallInv(s, c);
    }
    forall i | i in t.sends ensures SendInv(t, i) {
      assert SendInv(s, i);
    }
  }

  lemma UnregisterKeepsTables(s: State, chan: nat)
    requires TablesInv(s)
    ensures TablesInv(Apply(s, Unregister(chan)))
  {
    if chan in s.calls && (s.calls[chan].pc.ContextDone? || s.calls[chan].pc.Received?) {
      var call := s.calls[chan];
      assert CallInv(s, chan);
      if call.fate.Waiting? {
        WithdrawKeepsTables(s, chan);
      } else {
        var pc := if call.pc.Received? then Finished(Returned(call.pc.result)) else Unregistered;
        MoveKeepsTables(s, chan, call.(pc := pc));
      }
    }
  }

  lemma ReceiveKeepsTables(s: State, chan: nat)
    requires TablesInv(s)
    ensures TablesInv(Apply(s, Receive(chan)))
  {
    if chan in s.calls && s.calls[chan].pc.Parked? && chan in s.core.slots {
      TakeKeepsTables(s, chan, Received(s.core.slots[chan]));
    }
  }

  lemma EndContextKeepsTables(s: State, chan: nat)
    requires TablesInv(s)
    ensures TablesInv(Apply(s, EndContext(chan)))
  {
  }

  lemma RecheckKeepsTables(s: State, chan: nat)
    requires TablesInv(s)
    ensures TablesInv(Apply(s, Recheck(chan)))
  {
    if chan in s.calls && s.calls[chan].pc.Unregistered? {
      if chan in s.core.slots {
        TakeKeepsTables(s, chan, Finished(Returned(s.core.slots[chan])));
      } else {
        assert CallInv(s, chan);
        MoveKeepsTables(s, chan, s.calls[chan].(pc := Finished(TimedOut)));
      }
    }
  }

  lemma NotifyKeepsTables(s: State, key: SessionKey, mode: string, notice: Notice)
    requires TablesInv(s)
    ensures TablesInv(Apply(s, Notify(key, mode, notice)))
  {
  }

  lemma CancelKeepsTables(s: State, key: SessionKey, error: Error)
    requires TablesInv(s)
    ensures TablesInv(Apply(s, Cancel(key, error)))
  {
    var current := CancelLocked(s.core, key).0.current;
    forall k | k in s.core.waiters ensures k.actor in s.core.current && s.core.current[k.actor] == k {
      assert WaiterInv(s, k);
    }
    if key in s.core.waiters {
      EvictKeepsTables(s, key, current, error);
    } else {
      PresenceKeepsTables(s, current);
      assert s.core.waiters - {key} == s.core.waiters;
    }
  }

  lemma SendKeepsTables(s: State, id: nat)
    requires TablesInv(s)
    ensures TablesInv(Apply(s, Send(id)))
  {
  }

  lemma ApplyKeepsTables(s: State, e: Event)
    requires TablesInv(s)
    ensures TablesInv(Apply(s, e))
  {
    match e
    case Attach(key, callback) => AttachKeepsTables(s, key, callback);
    case BeginWait(key, adapter) => BeginWaitKeepsTables(s, key, adapter);
    case EndContext(chan) => EndContextKeepsTables(s, chan);
    case Unregister(chan) => UnregisterKeepsTables(s, chan);
    case Receive(chan) => ReceiveKeepsTables(s, chan);
    case Recheck(chan) => RecheckKeepsTables(s, chan);
    case Notify(key, mode, notice) => NotifyKeepsTables(s, key, mode, notice);
    case Cancel(key, error) => CancelKeepsTables(s, key, error);
    case Send(id) => SendKeepsTables(s, id);
  }

  // ---------------------------------------------------------------------
  // What an evicted call is owed
  // ---------------------------------------------------------------------

  /** Whatever is unanswered afterwards was unanswered before, and no owed send went. */
  lemma OwedIsCarried(s: State, t: State)
    requires OwedInv(s)
    requires forall chan :: chan in t.calls && Unanswered(t, chan) ==>
               chan in s.calls && Unanswered(s, chan) && s.calls[chan].fate == t.calls[chan].fate
    requires forall id :: id in s.sends ==> id in t.sends && t.sends[id] == s.sends[id]
    ensures OwedInv(t)
  {
    forall chan | chan in t.calls && Unanswered(t, chan) ensures Owed(t, chan, t.calls[chan].fate.error) {
      var id :| id in s.sends && s.sends[id] == PendingSend(chan, s.calls[chan].fate.error);
      assert t.sends[id] == PendingSend(chan, t.calls[chan].fate.error);
    }
  }

  lemma EvictKeepsOwed(s: State, core: Core, entry: Entry, error: Error)
    requires TablesInv(s) && OwedInv(s) && entry.chan in s.calls && s.calls[entry.chan].fate.Waiting?
    requires core.slots == s.core.slots
    ensures OwedInv(Evict(s.(core := core), Some(entry), error))
  {
    var t := Evict(s.(core := core), Some(entry), error);
    assert s.nextSend !in s.sends by {
      assert s.nextSend in s.sends ==> SendInv(s, s.nextSend);
    }
    forall chan | chan in t.calls && Unanswered(t, chan) ensures Owed(t, chan, t.calls[chan].fate.error) {
      if chan == entry.chan {
        assert t.sends[s.nextSend] == PendingSend(chan, t.calls[chan].fate.error);
      } else {
        assert Unanswered(s, chan);
        var id :| id in s.sends && s.sends[id] == PendingSend(chan, s.calls[chan].fate.error);
        assert t.sends[id] == PendingSend(chan, t.calls[chan].fate.error);
      }
    }
  }

  lemma WaiterIsWaiting(s: State, key: SessionKey)
    requires TablesInv(s) && key in s.core.waiters
    ensures var chan := s.core.waiters[key].chan;
            chan in s.calls && s.calls[chan].fate.Waiting? && s.calls[chan].key == key
  {
    assert WaiterInv(s, key);
    assert CallInv(s, s.core.waiters[key].chan);
  }

  lemma AttachKeepsOwed(s: State, key: SessionKey, callback: Callback)
    requires TablesInv(s) && OwedInv(s)
    ensures OwedInv(Apply(s, Attach(key, callback)))
  {
    var (core, outcome) := AttachLocked(s.core, key, callback);
    if outcome.Attached? && outcome.evicted.Some? {
      WaiterIsWaiting(s, s.core.current[key.actor]);
      EvictKeepsOwed(s, core, outcome.evicted.value, PresenceSuperseded);
    } else {
      OwedIsCarried(s, Apply(s, Attach(key, callback)));
    }
  }

  lemma CancelKeepsOwed(s: State, key: SessionKey, error: Error)
    requires TablesInv(s) && OwedInv(s)
    ensures OwedInv(Apply(s, Cancel(key, error)))
  {
    var (core, entry) := CancelLocked(s.core, key);
    if entry.Some? {
      WaiterIsWaiting(s, key);
      EvictKeepsOwed(s, core, entry.value, error);
    } else {
      OwedIsCarried(s, Apply(s, Cancel(key, error)));
    }
  }

  lemma SendKeepsOwed(s: State, id: nat)
    requires TablesInv(s) && OwedInv(s)
    ensures OwedInv(Apply(s, Send(id)))
  {
    if id in s.sends {
      var t, sent := Apply(s, Send(id)), s.sends[id].chan;
      assert SendInv(s, id);
      forall chan | chan in t.calls && Unanswered(t, chan) ensures Owed(t, chan, t.calls[chan].fate.error) {
        assert chan != sent && Unanswered(s, chan);
        var other :| other in s.sends && s.sends[other] == PendingSend(chan, s.calls[chan].fate.error);
        assert other != id && t.sends[other] == PendingSend(chan, t.calls[chan].fate.error);
      }
    }
  }

  lemma NotifyKeepsOwed(s: State, key: SessionKey, mode: string, notice: Notice)
    requires TablesInv(s) && OwedInv(s)
    ensures OwedInv(Apply(s, Notify(key, mode, notice)))
  {
    if CanNotify(s.core, key, mode) {
      WaiterIsWaiting(s, key);
      assert CallInv(s, s.core.waiters[key].chan);
    }
    var t := Apply(s, Notify(key, mode, notice));
    forall chan | chan in t.calls && Unanswered(t, chan)
      ensures chan in s.calls && Unanswered(s, chan) && s.calls[chan] == t.calls[chan] {
    }
    OwedIsCarried(s, t);
  }

  /** The steps of a Wait itself neither evict nor send. */
  lemma WaitStepKeepsOwed(s: State, e: Event)
    requires TablesInv(s) && OwedInv(s) && (e.BeginWait? || e.EndContext? || e.Unregister? || e.Receive? || e.Recheck?)
    ensures OwedInv(Apply(s, e))
  {
    OwedIsCarried(s, Apply(s, e));
  }

  lemma ApplyKeepsOwed(s: State, e: Event)
    requires TablesInv(s) && OwedInv(s)
    ensures OwedInv(Apply(s, e))
  {
    match e
    case Attach(key, callback) => AttachKeepsOwed(s, key, callback);
    case Cancel(key, error) => CancelKeepsOwed(s, key, error);
    case Send(id) => SendKeepsOwed(s, id);
    case Notify(key, mode, notice) => NotifyKeepsOwed(s, key, mode, notice);
    case _ => WaitStepKeepsOwed(s, e);
  }

  lemma ApplyKeepsInv(s: State, e: Event)
    requires Inv(s)
    ensures Inv(Apply(s, e))
  {
    ApplyKeepsTables(s, e);
    ApplyKeepsOwed(s, e);
  }

  lemma {:induction false} RunKeepsInv(s: State, events: seq<Event>)
    requires Inv(s)
    ensures Inv(Run(s, events))
    decreases |events|
  {
    if events != [] {
      ApplyKeepsInv(s, events[0]);
      RunKeepsInv(Apply(s, events[0]), events[1..]);
    }
  }

  // ---------------------------------------------------------------------
  // What every interleaving guarantees
  // ---------------------------------------------------------------------

  /** The states that some interleaving reaches from an empty broker. */
  ghost predicate Reachable(s: State) {
    exists events :: s == Run(INIT, events)
  }

  lemma ReachableInv(s: State)
    requires Reachable(s)
    ensures Inv(s)
  {
    var events :| s == Run(INIT, events);
    RunKeepsInv(INIT, events);
  }

  /** One event ends at most the registrations it names, and ended ones for good. */
  lemma StepKeepsFate(s: State, e: Event, chan: nat)
    requires Inv(s) && chan in s.calls
    ensures chan in Apply(s, e).calls
    ensures Apply(s, e).calls[chan].key == s.calls[chan].key
    ensures !s.calls[chan].fate.Waiting? ==> Apply(s, e).calls[chan].fate == s.calls[chan].fate
    ensures s.calls[chan].pc.Finished? ==>
              Apply(s, e).calls[chan].pc == s.calls[chan].pc && !s.calls[chan].fate.Waiting?
  {
    assert CallInv(s, chan);
    if e.Cancel? && e.key in s.core.waiters {
      assert WaiterInv(s, e.key);
    } else if e.Attach? && e.key.actor in s.core.current && s.core.current[e.key.actor] in s.core.waiters {
      assert WaiterInv(s, s.core.current[e.key.actor]);
    } else if e.Notify? && e.key in s.core.waiters {
      assert WaiterInv(s, e.key);
    }
  }

  /** Once a registration has ended, its fate and its call's identity never change. */
  lemma {:induction false} FateIsFinal(s: State, events: seq<Event>, chan: nat)
    requires Inv(s) && chan in s.calls
    ensures chan in Run(s, events).calls
    ensures Run(s, events).calls[chan].key == s.calls[chan].key
    ensures !s.calls[chan].fate.Waiting? ==> Run(s, events).calls[chan].fate == s.calls[chan].fate
    ensures s.calls[chan].pc.Finished? ==> Run(s, events).calls[chan].pc == s.calls[chan].pc
    decreases |events|
  {
    if events != [] {
      StepKeepsFate(s, events[0], chan);
      ApplyKeepsInv(s, events[0]);
      FateIsFinal(Apply(s, events[0]), events[1..], chan);
    }
  }

  /**
   A finished Wait returned a notice exactly when Notify reported that notice as
   accepted for it; a superseded or cancelled Wait returned its eviction error or
   timed out; a Wait that removed itself timed out.
   */
  lemma FinishedOutcome(s: State, chan: nat)
    requires Reachable(s)
    requires chan in s.calls && s.calls[chan].pc.Finished?
    ensures var outcome := s.calls[chan].pc.outcome;
            match s.calls[chan].fate
            case Waiting => false
            case AcceptedBy(notice) => outcome == Returned(Noticed(notice))
            case EvictedBy(error) => outcome == Returned(Failed(error)) || outcome == TimedOut
            case Withdrawn => outcome == TimedOut
  {
    ReachableInv(s);
    assert CallInv(s, chan);
  }

  /** The `i`-th event of a run is a Notify that returns true with `notice` for the Wait of `chan`. */
  predicate AcceptsFor(events: seq<Event>, i: nat, chan: nat, notice: Notice) {
    && i < |events|
    && events[i].Notify? && events[i].notice == notice
    && var before := Run(INIT, events[..i]);
       && NotifyLocked(before.core, events[i].key, events[i].mode, notice).1
       && before.core.waiters[events[i].key].chan == chan
  }

  lemma {:induction false} RunSnoc(s: State, events: seq<Event>, e: Event)
    ensures Run(s, events + [e]) == Apply(Run(s, events), e)
    decreases |events|
  {
    if events == [] {
      assert [e][1..] == [];
    } else {
      assert (events + [e])[1..] == events[1..] + [e];
      RunSnoc(Apply(s, events[0]), events[1..], e);
    }
  }

  /** A Wait becomes owed a notice only by the Notify that returns true for it. */
  lemma StepAccepts(s: State, e: Event, chan: nat, notice: Notice)
    requires Inv(s)
    ensures var after := Apply(s, e);
            (chan in after.calls && after.calls[chan].fate == AcceptedBy(notice)) <==>
            || (chan in s.calls && s.calls[chan].fate == AcceptedBy(notice))
            || (e.Notify? && e.notice == notice && NotifyLocked(s.core, e.key, e.mode, notice).1
                && s.core.waiters[e.key].chan == chan)
  {
    if chan in s.calls {
      StepKeepsFate(s, e, chan);
    }
    if e.Notify? && e.key in s.core.waiters {
      assert WaiterInv(s, e.key);
    }
  }

  /**
   Notify's answers account for every delivered notice: the Wait of `chan` is owed
   `notice` exactly when a Notify of the run returned true for it.
   */
  lemma {:induction false} NotifyAnswersAreTheDeliveries(events: seq<Event>, chan: nat, notice: Notice)
    ensures var s := Run(INIT, events);
            (exists i :: AcceptsFor(events, i, chan, notice)) <==>
              (chan in s.calls && s.calls[chan].fate == AcceptedBy(notice))
    decreases |events|
  {
    if events == [] {
    } else {
      var prefix, e := events[..|events| - 1], events[|events| - 1];
      assert events == prefix + [e];
      RunSnoc(INIT, prefix, e);
      RunKeepsInv(INIT, prefix);
      NotifyAnswersAreTheDeliveries(prefix, chan, notice);
      forall i | 0 <= i < |prefix|
        ensures AcceptsFor(events, i, chan, notice) <==> AcceptsFor(prefix, i, chan, notice)
      {
        assert events[..i] == prefix[..i];
      }
      assert events[..|prefix|] == prefix;
      StepAccepts(Run(INIT, prefix), e, chan, notice);
      if i: nat :| AcceptsFor(prefix, i, chan, notice) {
        assert AcceptsFor(events, i, chan, notice);
      } else if AcceptsFor(events, |prefix|, chan, notice) {
      }
    }
  }

  lemma AcceptsAWaiting(events: seq<Event>, i: nat, chan: nat, notice: Notice)
    requires AcceptsFor(events, i, chan, notice)
    ensures var before := Run(INIT, events[..i]);
            chan in before.calls && before.calls[chan].fate.Waiting?
  {
    RunKeepsInv(INIT, events[..i]);
    assert WaiterInv(Run(INIT, events[..i]), events[i].key);
  }

  /** No second Notify ever returns true for the same Wait. */
  lemma NotifyAcceptsEachWaitOnce(events: seq<Event>, i: nat, j: nat, chan: nat, n: Notice, m: Notice)
    requires i <= j && AcceptsFor(events, i, chan, n) && AcceptsFor(events, j, chan, m)
    ensures i == j && n == m
  {
    if i < j {
      assert AcceptsFor(events[..j], i, chan, n) by { assert events[..j][..i] == events[..i]; }
      NotifyAnswersAreTheDeliveries(events[..j], chan, n);
      AcceptsAWaiting(events, j, chan, m);
    }
  }

  /** A finished Wait returned a notice exactly when some Notify of the run had returned true for it. */
  lemma DeliveredExactlyWhenAccepted(events: seq<Event>, chan: nat, notice: Notice)
    requires var s := Run(INIT, events); chan in s.calls && s.calls[chan].pc.Finished?
    ensures Run(INIT, events).calls[chan].pc.outcome == Returned(Noticed(notice)) <==>
            exists i :: AcceptsFor(events, i, chan, notice)
  {
    NotifyAnswersAreTheDeliveries(events, chan, notice);
    FinishedOutcome(Run(INIT, events), chan);
  }

  /**
   Notify in a reachable state: it returns true exactly when the current presence has a
   parked waiter of that attention mode (its send never meets a full slot), it then hands
   the notice to that one Wait and touches no other, and otherwise changes nothing.
   */
  lemma NotifyConsumesOneWaiter(s: State, key: SessionKey, mode: string, notice: Notice)
    requires Reachable(s)
    ensures var (core, taken) := NotifyLocked(s.core, key, mode, notice);
            && (taken <==> CanNotify(s.core, key, mode))
            && (!taken ==> Apply(s, Notify(key, mode, notice)) == s)
            && (taken ==>
                  var chan := s.core.waiters[key].chan;
                  var after := Apply(s, Notify(key, mode, notice));
                  && chan in s.calls && s.calls[chan].key == key
                  && (s.calls[chan].pc.Parked? || s.calls[chan].pc.ContextDone?)
                  && after.calls == s.calls[chan := s.calls[chan].(fate := AcceptedBy(notice))]
                  && after.core.waiters == s.core.waiters - {key})
  {
    ReachableInv(s);
    if CanNotify(s.core, key, mode) {
      assert WaiterInv(s, key);
      assert CallInv(s, s.core.waiters[key].chan);
    }
  }

  /** A presence is a session of the actor it is filed under. */
  predicate PresencesNamed(s: State) {
    forall actor :: actor in s.core.current ==> s.core.current[actor].actor == actor
  }

  lemma StepKeepsPresencesNamed(s: State, e: Event)
    requires PresencesNamed(s)
    ensures PresencesNamed(Apply(s, e))
  {
  }

  lemma {:induction false} RunKeepsPresencesNamed(s: State, events: seq<Event>)
    requires PresencesNamed(s)
    ensures PresencesNamed(Run(s, events))
    decreases |events|
  {
    if events != [] {
      StepKeepsPresencesNamed(s, events[0]);
      RunKeepsPresencesNamed(Apply(s, events[0]), events[1..]);
    }
  }

  lemma ReachablePresencesNamed(s: State)
    requires Reachable(s)
    ensures PresencesNamed(s)
  {
    var events :| s == Run(INIT, events);
    RunKeepsPresencesNamed(INIT, events);
  }

  /**
   Attach: the session becomes its actor's presence unless it is already or the callback fails,
   and then nothing changes; no other actor notices, and the only waiter that goes is the one
   of the presence it replaces, which is owed exactly that news.
   */
  lemma AttachReplacesOnePresence(s: State, key: SessionKey, callback: Callback)
    requires Reachable(s)
    ensures var t := Apply(s, Attach(key, callback));
            var already := key.actor in s.core.current && s.core.current[key.actor] == key;
            && (already || callback.Fails? ==> t == s)
            && (already || callback.Passes? ==> key.actor in t.core.current && t.core.current[key.actor] == key)
            && (forall actor :: actor != key.actor ==>
                  && (actor in t.core.current <==> actor in s.core.current)
                  && (actor in s.core.current ==> t.core.current[actor] == s.core.current[actor]))
            && (!already && callback.Passes? ==>
                  && (forall k :: k in t.core.waiters <==> k in s.core.waiters && k.actor != key.actor)
                  && (forall k :: k in t.core.waiters ==> t.core.waiters[k] == s.core.waiters[k])
                  && (forall k :: k in s.core.waiters && k.actor == key.actor ==>
                        t.sends == s.sends[s.nextSend := PendingSend(s.core.waiters[k].chan, PresenceSuperseded)]))
  {
    ReachableInv(s);
    ReachablePresencesNamed(s);
    forall k | k in s.core.waiters ensures k.actor in s.core.current && s.core.current[k.actor] == k {
      assert WaiterInv(s, k);
    }
  }

  /** Cancel: the session's presence and waiter go, every other stays, and the waiter is owed the outcome. */
  lemma CancelKeepsOthers(s: State, key: SessionKey, error: Error)
    requires Reachable(s)
    ensures var t := Apply(s, Cancel(key, error));
            && (forall k :: k in t.core.waiters <==> k in s.core.waiters && k != key)
            && (forall k :: k in t.core.waiters ==> t.core.waiters[k] == s.core.waiters[k])
            && (forall actor :: actor in t.core.current <==>
                  actor in s.core.current && !(actor == key.actor && s.core.current[actor] == key))
            && (forall actor :: actor in t.core.current ==> t.core.current[actor] == s.core.current[actor])
            && t.sends ==
               if key in s.core.waiters then s.sends[s.nextSend := PendingSend(s.core.waiters[key].chan, error)]
               else s.sends
  {
    ReachableInv(s);
    if key in s.core.waiters {
      assert WaiterInv(s, key);
    }
  }

  /**
   A Wait is admitted exactly under the current presence with no Wait parked there; it then gets a
   channel of its own.
   */
  lemma WaitIsAdmittedExactlyWhen(s: State, key: SessionKey, adapter: string)
    requires Reachable(s)
    ensures var t := Apply(s, BeginWait(key, adapter));
            var chan := s.core.nextChan;
            && chan !in s.calls && chan !in s.core.slots
            && (chan in t.calls <==>
                  key.actor in s.core.current && s.core.current[key.actor] == key && key !in s.core.waiters)
            && (if chan in t.calls then
                  && t.calls == s.calls[chan := WaitCall(key, adapter, Parked, Waiting)]
                  && t.core.waiters == s.core.waiters[key := Entry(adapter, chan)]
                else t == s)
  {
    ReachableInv(s);
    assert s.core.nextChan in s.calls ==> CallInv(s, s.core.nextChan);
  }

  /**
   No wakeup is lost: an evicted Wait that has not read its outcome either has it in its channel or is
   still owed it, never both.
   */
  lemma EvictedWaitIsOwedItsError(s: State, chan: nat)
    requires Reachable(s)
    requires chan in s.calls && s.calls[chan].fate.EvictedBy? && !s.calls[chan].pc.Received?
             && !s.calls[chan].pc.Finished?
    ensures var error := s.calls[chan].fate.error;
            && (Owed(s, chan, error) <==> Slot(s, chan) == None)
            && (!Owed(s, chan, error) <==> Slot(s, chan) == Some(Failed(error)))
  {
    ReachableInv(s);
    assert CallInv(s, chan);
    forall id | id in s.sends ensures SendInv(s, id) {
    }
  }

  /** The Wait's own next two steps make it return `error`. */
  predicate NextReturns(s: State, chan: nat, error: Error) {
    var end := Run(s, [Receive(chan), Unregister(chan)]);
    chan in end.calls && end.calls[chan].pc == Finished(Returned(Failed(error)))
  }

  /** Every parked Wait that was superseded or cancelled is woken with that error, at once or by the send it is owed. */
  lemma EvictedWaitIsWoken(s: State, chan: nat)
    requires Reachable(s) && chan in s.calls && s.calls[chan].fate.EvictedBy? && s.calls[chan].pc.Parked?
    ensures var error := s.calls[chan].fate.error;
            if chan in s.core.slots then NextReturns(s, chan, error)
            else
              exists id ::
                && id in s.sends && s.sends[id] == PendingSend(chan, error)
                && NextReturns(Apply(s, Send(id)), chan, error)
  {
    var error := s.calls[chan].fate.error;
    EvictedWaitIsOwedItsError(s, chan);
    if chan in s.core.slots {
      RunTwo(s, Receive(chan), Unregister(chan));
    } else {
      var id :| id in s.sends && s.sends[id] == PendingSend(chan, error);
      RunTwo(Apply(s, Send(id)), Receive(chan), Unregister(chan));
      assert NextReturns(Apply(s, Send(id)), chan, error);
    }
  }

  /**
   At its re-check an evicted Wait times out exactly when its send is still pending, and returns its
   error otherwise.
   */
  lemma EvictedWaitTimesOutExactlyWhenOwed(s: State, chan: nat)
    requires Reachable(s) && chan in s.calls && s.calls[chan].fate.EvictedBy? && s.calls[chan].pc.Unregistered?
    ensures var error := s.calls[chan].fate.error;
            var pc := Apply(s, Recheck(chan)).calls[chan].pc;
            && (pc == Finished(TimedOut) <==> Owed(s, chan, error))
            && (pc == Finished(Returned(Failed(error))) <==> !Owed(s, chan, error))
  {
    EvictedWaitIsOwedItsError(s, chan);
  }

  /** It happens: the context ends, Cancel evicts, and the Wait re-checks before Cancel's send. */
  lemma CancelledWaitMayTimeOut(key: SessionKey, adapter: string, error: Error)
    ensures var events := [Attach(key, Passes), BeginWait(key, adapter), EndContext(0),
                           Cancel(key, error), Unregister(0), Recheck(0)];
            var end := Run(INIT, events);
            && 0 in end.calls && end.calls[0].fate == EvictedBy(error) && end.calls[0].pc == Finished(TimedOut)
            && Owed(end, 0, error)
  {
    var s1 := Apply(INIT, Attach(key, Passes));
    var s2 := Apply(s1, BeginWait(key, adapter));
    var s3 := Apply(s2, EndContext(0));
    var s4 := Apply(s3, Cancel(key, error));
    assert s4.sends[0] == PendingSend(0, error);
    var s5 := Apply(s4, Unregister(0));
    var s6 := Apply(s5, Recheck(0));
    RunSix(INIT, Attach(key, Passes), BeginWait(key, adapter), EndContext(0),
           Cancel(key, error), Unregister(0), Recheck(0));
    assert s6.sends[0] == PendingSend(0, error);
  }

  lemma RunSix(s: State, a: Event, b: Event, c: Event, d: Event, e: Event, f: Event)
    ensures Run(s, [a, b, c, d, e, f]) == Apply(Apply(Apply(Apply(Apply(Apply(s, a), b), c), d), e), f)
  {
    assert [a, b, c, d, e, f] == ((([a, b] + [c]) + [d]) + [e]) + [f];
    RunTwo(s, a, b);
    RunSnoc(s, [a, b], c);
    RunSnoc(s, [a, b] + [c], d);
    RunSnoc(s, [a, b] + [c] + [d], e);
    RunSnoc(s, [a, b] + [c] + [d] + [e], f);
  }

  lemma StepKeepsAbsence(s: State, key: SessionKey, e: Event)
    requires !(key.actor in s.core.current && s.core.current[key.actor] == key) && !(e.Attach? && e.key == key)
    ensures var t := Apply(s, e);
            !(key.actor in t.core.current && t.core.current[key.actor] == key)
  {
  }

  lemma {:induction false} AbsenceIsKept(s: State, key: SessionKey, later: seq<Event>)
    requires !(key.actor in s.core.current && s.core.current[key.actor] == key)
    requires forall i | 0 <= i < |later| :: !(later[i].Attach? && later[i].key == key)
    ensures var t := Run(s, later);
            !(key.actor in t.core.current && t.core.current[key.actor] == key)
    decreases |later|
  {
    if later != [] {
      assert forall i | 0 <= i < |later[1..]| :: later[1..][i] == later[i + 1];
      StepKeepsAbsence(s, key, later[0]);
      AbsenceIsKept(Apply(s, later[0]), key, later[1..]);
    }
  }

  /**
   Cancel ends the session until it attaches again: whatever happens in between, no Notify to it is
   accepted and no Wait of it is admitted, and the Wait it had, if one, ends with Cancel's outcome or its own timeout.
   */
  lemma CancelEndsTheSession(s: State, key: SessionKey, error: Error, later: seq<Event>, mode: string, notice: Notice)
    requires Reachable(s)
    requires forall i | 0 <= i < |later| :: !(later[i].Attach? && later[i].key == key)
    ensures var t := Run(Apply(s, Cancel(key, error)), later);
            && !NotifyLocked(t.core, key, mode, notice).1
            && WaitLocked(t.core, key, mode).1.Failure?
            && (key in s.core.waiters ==>
                  var chan := s.core.waiters[key].chan;
                  && chan in t.calls
                  && (t.calls[chan].pc.Finished? ==>
                        t.calls[chan].pc.outcome == Returned(Failed(error)) || t.calls[chan].pc.outcome == TimedOut))
  {
    var cancelled := Apply(s, Cancel(key, error));
    CancelKeepsOthers(s, key, error);
    AbsenceIsKept(cancelled, key, later);
    if key in s.core.waiters {
      CancelEndsItsWait(s, key, error, later);
    }
  }

  lemma CancelEndsItsWait(s: State, key: SessionKey, error: Error, later: seq<Event>)
    requires Reachable(s) && key in s.core.waiters
    ensures var t := Run(Apply(s, Cancel(key, error)), later);
            var chan := s.core.waiters[key].chan;
            && chan in t.calls
            && (t.calls[chan].pc.Finished? ==>
                  t.calls[chan].pc.outcome == Returned(Failed(error)) || t.calls[chan].pc.outcome == TimedOut)
  {
    ReachableInv(s);
    WaiterIsWaiting(s, key);
    var cancelled, chan := Apply(s, Cancel(key, error)), s.core.waiters[key].chan;
    assert chan in cancelled.calls && cancelled.calls[chan].fate == EvictedBy(error);
    ApplyKeepsInv(s, Cancel(key, error));
    RunKeepsInv(cancelled, later);
    FateIsFinal(cancelled, later, chan);
    assert CallInv(Run(cancelled, later), chan);
  }

  // ---------------------------------------------------------------------
  // What the operations answer
  // ---------------------------------------------------------------------

  /** The session is its actor's presence. */
  predicate Present(s: State, key: SessionKey) {
    key.actor in s.core.current && s.core.current[key.actor] == key
  }

  /** A Wait of the session is registered: admitted, and ended by nobody yet. */
  ghost predicate Parks(s: State, key: SessionKey, chan: nat) {
    chan in s.calls && s.calls[chan].key == key && s.calls[chan].fate.Waiting?
  }

  lemma ParkedMeansRegistered(s: State, key: SessionKey, chan: nat)
    requires Reachable(s)
    ensures Parks(s, key, chan) <==> key in s.core.waiters && s.core.waiters[key].chan == chan
    ensures Parks(s, key, chan) ==> Present(s, key) && s.core.waiters[key].adapter == s.calls[chan].adapter
  {
    ReachableInv(s);
    if chan in s.calls {
      assert CallInv(s, chan);
    }
    if key in s.core.waiters {
      WaiterIsWaiting(s, key);
      assert WaiterInv(s, key);
    }
  }

  /**
   Attach answers by the presence it finds: nothing to do for the present session, the callback's own
   error, or success with the waiter it evicted. Every answer but the error leaves the session present.
   */
  lemma AttachAnswers(s: State, key: SessionKey, callback: Callback)
    requires Reachable(s)
    ensures var (core, outcome) := AttachLocked(s.core, key, callback);
            && (outcome.AlreadyCurrent? <==> Present(s, key))
            && (forall e :: outcome == CallbackFailed(e) <==> !Present(s, key) && callback == Fails(e))
            && (outcome.Attached? <==> !Present(s, key) && callback.Passes?)
            && (!outcome.CallbackFailed? ==> Present(Apply(s, Attach(key, callback)), key))
            && (outcome.Attached? ==>
                  forall entry :: outcome.evicted == Some(entry) <==>
                    exists k :: k in s.core.waiters && k.actor == key.actor && s.core.waiters[k] == entry)
  {
    ReachableInv(s);
    ReachablePresencesNamed(s);
    forall k | k in s.core.waiters ensures k.actor in s.core.current && s.core.current[k.actor] == k {
      assert WaiterInv(s, k);
    }
  }

  /**
   Wait's three refusals: no presence of the actor, another presence, a Wait already parked; it is
   admitted otherwise.
   */
  lemma WaitAnswers(s: State, key: SessionKey, adapter: string)
    requires Reachable(s)
    ensures var admitted := WaitLocked(s.core, key, adapter).1;
            && (admitted == Failure(RegistrationExpired) <==> key.actor !in s.core.current)
            && (admitted == Failure(PresenceSuperseded) <==> key.actor in s.core.current && !Present(s, key))
            && (admitted == Failure(AttentionWaiterBusy) <==> exists chan :: Parks(s, key, chan))
            && (admitted.Success? <==> Present(s, key) && forall chan :: !Parks(s, key, chan))
  {
    forall chan: nat ensures Parks(s, key, chan) <==> key in s.core.waiters && s.core.waiters[key].chan == chan {
      ParkedMeansRegistered(s, key, chan);
    }
    if key in s.core.waiters {
      ParkedMeansRegistered(s, key, s.core.waiters[key].chan);
      assert Parks(s, key, s.core.waiters[key].chan);
    }
  }

  /** Notify answers true exactly when a Wait of that very session and that attention mode is parked. */
  lemma NotifyAnswers(s: State, key: SessionKey, mode: string, notice: Notice)
    requires Reachable(s)
    ensures NotifyLocked(s.core, key, mode, notice).1 <==>
              exists chan :: Parks(s, key, chan) && s.calls[chan].adapter == mode
  {
    NotifyConsumesOneWaiter(s, key, mode, notice);
    if key in s.core.waiters {
      var chan := s.core.waiters[key].chan;
      ParkedMeansRegistered(s, key, chan);
      assert Parks(s, key, chan);
    }
    if chan: nat :| Parks(s, key, chan) && s.calls[chan].adapter == mode {
      ParkedMeansRegistered(s, key, chan);
    }
  }

  function NextPresence(before: Option<SessionKey>, e: Event, actor: string): Option<SessionKey> {
    match e
    case Attach(key, Passes) => if key.actor == actor then Some(key) else before
    case Cancel(key, _) => if before == Some(key) then None else before
    case _ => before
  }

  /**
   Whom the events so far leave as the actor's presence: the last session that attached, unless it was
   cancelled since.
   */
  function LastPresence(events: seq<Event>, actor: string): Option<SessionKey> {
    if events == [] then None
    else NextPresence(LastPresence(events[..|events| - 1], actor), events[|events| - 1], actor)
  }

  function PresenceOf(s: State, actor: string): Option<SessionKey> {
    if actor in s.core.current then Some(s.core.current[actor]) else None
  }

  lemma StepPresence(s: State, e: Event, actor: string)
    requires PresencesNamed(s)
    ensures PresenceOf(Apply(s, e), actor) == NextPresence(PresenceOf(s, actor), e, actor)
  {
  }

  /** Over any run the presences are what attaching and cancelling left. */
  lemma {:induction false} PresenceIsTheLastAttached(events: seq<Event>, actor: string)
    ensures LastPresence(events, actor) == PresenceOf(Run(INIT, events), actor)
    decreases |events|
  {
    if events != [] {
      var most, last := events[..|events| - 1], events[|events| - 1];
      assert events == most + [last];
      PresenceIsTheLastAttached(most, actor);
      RunKeepsPresencesNamed(INIT, most);
      StepPresence(Run(INIT, most), last, actor);
      RunSnoc(INIT, most, last);
    }
  }

  /** The remaining steps of a Wait, as its own code takes them. */
  function OwnSteps(pc: WaitPC, chan: nat): seq<Event> {
    match pc
    case Parked => [Receive(chan), Unregister(chan)]
    case ContextDone => [Unregister(chan), Recheck(chan)]
    case Unregistered => [Recheck(chan)]
    case Received(_) => [Unregister(chan)]
    case Finished(_) => []
  }

  /**
   No accepted notice is lost: whatever the other parties did since (`later`), the Wait's
   own remaining steps are enabled and end by returning exactly that notice.
   */
  lemma AcceptedNoticeIsReturned(s: State, later: seq<Event>, chan: nat)
    requires Reachable(s)
    requires chan in s.calls && s.calls[chan].fate.AcceptedBy?
    ensures var then_ := Run(s, later);
            && chan in then_.calls
            && var end := Run(then_, OwnSteps(then_.calls[chan].pc, chan));
               && chan in end.calls
               && end.calls[chan].pc == Finished(Returned(Noticed(s.calls[chan].fate.notice)))
  {
    ReachableInv(s);
    RunKeepsInv(s, later);
    FateIsFinal(s, later, chan);
    var t := Run(s, later);
    var notice := s.calls[chan].fate.notice;
    assert CallInv(t, chan);
    match t.calls[chan].pc
    case Parked => ParkedReturns(t, chan, notice);
    case ContextDone => WokenReturns(t, chan, notice);
    case Unregistered => RunOne(t, Recheck(chan));
    case Received(_) => RunOne(t, Unregister(chan));
    case Finished(_) =>
  }

  lemma ParkedReturns(t: State, chan: nat, notice: Notice)
    requires chan in t.calls && t.calls[chan].pc.Parked? && Slot(t, chan) == Some(Noticed(notice))
    ensures var end := Run(t, [Receive(chan), Unregister(chan)]);
            chan in end.calls && end.calls[chan].pc == Finished(Returned(Noticed(notice)))
  {
    RunTwo(t, Receive(chan), Unregister(chan));
  }

  lemma WokenReturns(t: State, chan: nat, notice: Notice)
    requires chan in t.calls && t.calls[chan].pc.ContextDone? && Slot(t, chan) == Some(Noticed(notice))
    ensures var end := Run(t, [Unregister(chan), Recheck(chan)]);
            chan in end.calls && end.calls[chan].pc == Finished(Returned(Noticed(notice)))
  {
    RunTwo(t, Unregister(chan), Recheck(chan));
  }

  lemma {:induction false} RunOne(s: State, e: Event)
    ensures Run(s, [e]) == Apply(s, e)
  {
    assert [e][1..] == [];
  }

  lemma {:induction false} RunTwo(s: State, e: Event, f: Event)
    ensures Run(s, [e, f]) == Apply(Apply(s, e), f)
  {
    assert [e, f][1..] == [f];
    RunOne(Apply(s, e), f);
  }

  /** A Wait that was superseded or cancelled before any notice reached it never returns one. */
  lemma EvictedWaitReturnsNoNotice(s: State, later: seq<Event>, chan: nat)
    requires Reachable(s)
    requires chan in s.calls && s.calls[chan].fate.EvictedBy?
    ensures chan in Run(s, later).calls
    ensures var pc := Run(s, later).calls[chan].pc;
            pc.Finished? ==> pc.outcome == Returned(Failed(s.calls[chan].fate.error)) || pc.outcome == TimedOut
  {
    ReachableInv(s);
    RunKeepsInv(s, later);
    FateIsFinal(s, later, chan);
    assert CallInv(Run(s, later), chan);
  }

  /** Waiters: at most one per actor, only under the current presence, each with an empty channel. */
  lemma WaitersAreCurrent(s: State)
    requires Reachable(s)
    ensures forall key :: key in s.core.waiters ==>
              && key.actor in s.core.current && s.core.current[key.actor] == key
              && s.core.waiters[key].chan !in s.core.slots
    ensures forall k, l :: k in s.core.waiters && l in s.core.waiters && k.actor == l.actor ==> k == l
    ensures forall k, l :: k in s.core.waiters && l in s.core.waiters && k != l ==>
              s.core.waiters[k].chan != s.core.waiters[l].chan
  {
    ReachableInv(s);
    forall key | key in s.core.waiters
      ensures key.actor in s.core.current && s.core.current[key.actor] == key
      ensures s.core.waiters[key].chan !in s.core.slots
      ensures s.core.waiters[key].chan in s.calls && s.calls[s.core.waiters[key].chan].key == key
    {
      assert WaiterInv(s, key);
      assert CallInv(s, s.core.waiters[key].chan);
    }
  }

  /** A Wait that leaves removes at most its own entry, never that of a later Wait on the same session. */
  lemma UnregisterSparesOthers(s: State, chan: nat)
    requires Reachable(s) && chan in s.calls
    requires s.calls[chan].pc.ContextDone? || s.calls[chan].pc.Received?
    ensures var after := Apply(s, Unregister(chan)).core.waiters;
            forall key, entry :: key in after && after[key] == entry <==>
                                 key in s.core.waiters && s.core.waiters[key] == entry && entry.chan != chan
  {
    ReachableInv(s);
    forall key | key in s.core.waiters && s.core.waiters[key].chan == chan
      ensures key == s.calls[chan].key
    {
      assert WaiterInv(s, key);
    }
  }

  /** The unlocked sends of Attach and Cancel always find their slot empty. */
  lemma OwedSendFindsEmptySlot(s: State, id: nat)
    requires Reachable(s) && id in s.sends
    ensures var chan := s.sends[id].chan;
            Apply(s, Send(id)).core.slots == s.core.slots[chan := Failed(s.sends[id].error)] && chan !in s.core.slots
  {
    ReachableInv(s);
    assert SendInv(s, id);
  }

  // ---------------------------------------------------------------------
  // The broker object
  // ---------------------------------------------------------------------

  class Broker {
    var waiters: map<SessionKey, Entry>
    var current: map<string, SessionKey>
    var slots: map<nat, WaitResult>
    var nextChan: nat

    ghost function View(): Core
      reads this
    {
      Core(waiters, current, slots, nextChan)
    }

    constructor ()
      ensures View() == EMPTY_CORE
    {
      waiters, current, slots, nextChan := map[], map[], map[], 0;
    }

    /** A missing presence reads as the zero key, which is why the all-empty key needs its own case. */
    predicate Attached(key: SessionKey)
      reads this
      ensures Attached(key) <==>
              (key.actor in current && current[key.actor] == key) ||
              (key == SessionKey("", "", "") && "" !in current)
    {
      var stored := if key.actor in current then current[key.actor] else SessionKey("", "", "");
      stored == key
    }

    method Attach(key: SessionKey, callback: Callback) returns (outcome: AttachOutcome)
      modifies this
      ensures (View(), outcome) == AttachLocked(old(View()), key, callback)
    {
      var hasPrevious := key.actor in current;
      if hasPrevious && current[key.actor] == key {
        return AlreadyCurrent;
      }
      if callback.Fails? {
        return CallbackFailed(callback.error);
      }
      if hasPrevious {
        var previous := current[key.actor];
        var waiting := if previous in waiters then Some(waiters[previous]) else None;
        if previous in waiters {
          waiters := waiters - {previous};
        }
        current := current[key.actor := key];
        return AttachOutcome.Attached(waiting);
      }
      current := current[key.actor := key];
      return AttachOutcome.Attached(None);
    }

    /** The first critical section of Wait. */
    method BeginWait(key: SessionKey, adapter: string) returns (admitted: Result<nat, Error>)
      modifies this
      ensures (View(), admitted) == WaitLocked(old(View()), key, adapter)
    {
      if key.actor !in current {
        return Failure(RegistrationExpired);
      } else if current[key.actor] != key {
        return Failure(PresenceSuperseded);
      }
      if key in waiters {
        return Failure(AttentionWaiterBusy);
      }
      var result := nextChan;
      nextChan := nextChan + 1;
      waiters := waiters[key := Entry(adapter, result)];
      return Success(result);
    }

    /** The `remove` closure of Wait. */
    method Remove(key: SessionKey, chan: nat)
      modifies this`waiters
      ensures View() == RemoveLocked(old(View()), key, chan)
    {
      if key in waiters && waiters[key].chan == chan {
        waiters := waiters - {key};
      }
    }

    method Notify(key: SessionKey, mode: string, notice: Notice) returns (adapter: string, accepted: bool)
      modifies this
      ensures (View(), accepted) == NotifyLocked(old(View()), key, mode, notice)
      ensures adapter == if accepted then mode else ""
    {
      var currentOK := key.actor in current;
      var ok := key in waiters;
      if !currentOK || current[key.actor] != key || !ok || waiters[key].adapter != mode {
        return "", false;
      }
      var waiter := waiters[key];
      if waiter.chan !in slots {
        slots := slots[waiter.chan := Noticed(notice)];
        waiters := waiters - {key};
        return waiter.adapter, true;
      }
      return "", false;
    }

    /** The critical section of Cancel; the returned entry is owed the outcome. */
    method Cancel(key: SessionKey) returns (entry: Option<Entry>)
      modifies this
      ensures (View(), entry) == CancelLocked(old(View()), key)
    {
      entry := if key in waiters then Some(waiters[key]) else None;
      waiters := waiters - {key};
      if key.actor in current && current[key.actor] == key {
        current := current - {key.actor};
      }
    }

    method SendOutcome(chan: nat, result: WaitResult)
      modifies this`slots
      ensures View() == TrySend(old(View()), chan, result)
    {
      if chan !in slots {
        slots := slots[chan := result];
      }
    }

    method TryReceive(chan: nat) returns (result: Option<WaitResult>)
      modifies this`slots
      ensures View() == TakeSlot(old(View()), chan)
      ensures result == if chan in old(slots) then Some(old(slots)[chan]) else None
    {
      result := if chan in slots then Some(slots[chan]) else None;
      slots := slots - {chan};
    }
  }
}
