/**
 Certification from recorded events (internal/connector/certify.go): a search
 for witnesses in the complete windows of two event streams.
 */
module Certification {
  import opened Wrappers
  import opened Text
  import opened Sorting
  import opened EventWindow

  /** Harness, profile and attention mode are as the connector's manifest resolved them. */
  datatype Config = Config(
    harness: string, requiresWake: bool, attentionMode: string,
    projectID: string, actor: string, runID: string,
    afterDurable: int, afterOperational: int)
  {
    function Adapter(): string {
      if requiresWake then attentionMode else ""
    }

    predicate Incomplete() {
      TrimSpace(projectID) == "" || TrimSpace(actor) == "" || TrimSpace(runID) == ""
    }
  }

  datatype State = StateConfigured | StateRegistered | StateDegraded | StateReady

  datatype Check = Check(id: string, passed: bool)

  datatype Report = Report(
    state: State, ready: bool, observedDurable: int, observedOperational: int,
    observedBuilds: seq<string>, checks: seq<Check>)

  datatype CertifyError = Incomplete | Unreadable(error: ReadError)

  // ---------------------------------------------------------------------
  // What a single event shows
  // ---------------------------------------------------------------------

  /** The first of the keys that holds a string. */
  function StringValue(payload: map<string, string>, keys: seq<string>): string {
    if keys == [] then ""
    else if keys[0] in payload then payload[keys[0]]
    else StringValue(payload, keys[1..])
  }

  function Value(e: Event, key: string): string {
    StringValue(e.payload, [key])
  }

  function RunOf(e: Event): string {
    StringValue(e.payload, ["run_id", "from_run"])
  }

  /** An event of the certified actor in the certified run. */
  predicate Own(config: Config, e: Event) {
    e.actorID == config.actor && RunOf(e) == config.runID
  }

  predicate CleanBuild(build: string) {
    !Contains(build, "@unknown") && !HasSuffix(build, "+dirty")
  }

  /** The event names its client and its daemon build, and both are clean. */
  predicate Attested(e: Event) {
    && Value(e, "client_build") != "" && CleanBuild(Value(e, "client_build"))
    && Value(e, "daemon_build") != "" && CleanBuild(Value(e, "daemon_build"))
  }

  predicate NamesSession(config: Config, e: Event, session: string) {
    && Own(config, e) && Attested(e) && Value(e, "harness") == config.harness
    && session != "" && Value(e, "session_id") == session
  }

  predicate Registers(config: Config, e: Event, session: string) {
    && e.kind == "session.registered" && NamesSession(config, e, session)
    && (config.Adapter() != "" ==> Value(e, "attention_mode") == config.Adapter())
  }

  predicate Hydrates(config: Config, e: Event, session: string) {
    e.kind == "startup.hydrated" && NamesSession(config, e, session)
  }

  /** The event shows a real client acting on a message through its tools. */
  predicate Acts(config: Config, e: Event, kind: string, id: string) {
    && e.kind == kind && Own(config, e) && Attested(e)
    && HasPrefix(Value(e, "client"), "bus-mcp/")
    && id != "" && e.messageID == id
  }

  /** The event shows the daemon's notice of a message accepted by a session. */
  predicate Notifies(config: Config, e: Event, session: string, id: string) {
    && e.kind == "delivery.notification" && e.actorID == config.actor
    && Value(e, "run_id") == config.runID && Value(e, "harness") == config.harness
    && Value(e, "session_id") == session && e.messageID == id
    && (config.Adapter() != "" ==> Value(e, "detail") == config.Adapter())
    && Value(e, "result") == "accepted" && Value(e, "client") == "hollerd/0.1" && Attested(e)
  }

  // ---------------------------------------------------------------------
  // The same, field by field
  // ---------------------------------------------------------------------

  /** The field holds this text; an absent field reads as the empty one. */
  predicate Says(e: Event, key: string, value: string) {
    if key in e.payload then e.payload[key] == value else value == ""
  }

  lemma SaysValue(e: Event, key: string, value: string)
    ensures Value(e, key) == value <==> Says(e, key, value)
  {
    var none: seq<string> := [];
    assert [key][1..] == none && StringValue(e.payload, none) == "";
  }

  /** The field names a build whose version is known and whose tree was clean. */
  ghost predicate NamesCleanBuild(e: Event, key: string) {
    && key in e.payload && e.payload[key] != ""
    && (forall before: string, after: string :: e.payload[key] != before + "@unknown" + after)
    && (forall before: string :: e.payload[key] != before + "+dirty")
  }

  lemma OccursBetween(s: string, sub: string)
    ensures Contains(s, sub) <==> exists before: string, after: string :: s == before + sub + after
  {
    if Contains(s, sub) {
      var i :| 0 <= i <= |s| && OccursAt(s, sub, i);
      assert s == s[..i] + sub + s[i + |sub|..];
    }
    if before: string, after: string :| s == before + sub + after {
      assert OccursAt(s, sub, |before|);
    }
  }

  lemma EndsAfter(s: string, suffix: string)
    ensures HasSuffix(s, suffix) <==> exists before: string :: s == before + suffix
  {
    if HasSuffix(s, suffix) {
      assert s == s[..|s| - |suffix|] + suffix;
    }
    if before: string :| s == before + suffix {
      assert s[|s| - |suffix|..] == suffix;
    }
  }

  lemma CleanMeans(e: Event, key: string)
    ensures Value(e, key) != "" && CleanBuild(Value(e, key)) <==> NamesCleanBuild(e, key)
  {
    SaysValue(e, key, Value(e, key));
    OccursBetween(Value(e, key), "@unknown");
    EndsAfter(Value(e, key), "+dirty");
  }

  /** Both builds are named, known and clean. */
  lemma AttestedMeans(e: Event)
    ensures Attested(e) <==> NamesCleanBuild(e, "client_build") && NamesCleanBuild(e, "daemon_build")
  {
    CleanMeans(e, "client_build");
    CleanMeans(e, "daemon_build");
  }

  /** The actor's own event; the sender's run stands in only where no run is given. */
  ghost predicate FromRun(config: Config, e: Event) {
    && e.actorID == config.actor
    && Says(e, if "run_id" in e.payload then "run_id" else "from_run", config.runID)
  }

  lemma OwnMeans(config: Config, e: Event)
    ensures Own(config, e) <==> FromRun(config, e)
  {
    SaysValue(e, "from_run", config.runID);
    assert ["run_id", "from_run"][1..] == ["from_run"];
  }

  /** An accepted notice names the session, the message, the resolved adapter, the daemon and its verdict. */
  lemma NoticeMeans(config: Config, e: Event, session: string, id: string)
    ensures Notifies(config, e, session, id) <==>
              && e.kind == "delivery.notification" && e.actorID == config.actor && e.messageID == id
              && Says(e, "run_id", config.runID) && Says(e, "harness", config.harness)
              && Says(e, "session_id", session)
              && Says(e, "result", "accepted") && Says(e, "client", "hollerd/0.1")
              && (config.requiresWake && config.attentionMode != "" ==> Says(e, "detail", config.attentionMode))
              && NamesCleanBuild(e, "client_build") && NamesCleanBuild(e, "daemon_build")
  {
    SaysValue(e, "run_id", config.runID);
    SaysValue(e, "harness", config.harness);
    SaysValue(e, "session_id", session);
    SaysValue(e, "result", "accepted");
    SaysValue(e, "client", "hollerd/0.1");
    SaysValue(e, "detail", config.attentionMode);
    AttestedMeans(e);
  }

  /** A client's act is recorded under the name of the bus tools. */
  lemma ActMeans(config: Config, e: Event, kind: string, id: string)
    ensures Acts(config, e, kind, id) <==>
              && e.kind == kind && FromRun(config, e) && id != "" && e.messageID == id
              && (exists rest: string :: Says(e, "client", "bus-mcp/" + rest))
              && NamesCleanBuild(e, "client_build") && NamesCleanBuild(e, "daemon_build")
  {
    OwnMeans(config, e);
    AttestedMeans(e);
    var client, tools := Value(e, "client"), "bus-mcp/";
    SaysValue(e, "client", client);
    if tools <= client {
      assert client == tools + client[|tools|..];
    }
    if rest: string :| Says(e, "client", tools + rest) {
      SaysValue(e, "client", tools + rest);
    }
  }

  /** A session is registered with the resolved adapter and hydrated with any. */
  lemma SessionMeans(config: Config, e: Event, session: string)
    ensures var named :=
              && FromRun(config, e) && session != "" && Says(e, "session_id", session)
              && Says(e, "harness", config.harness)
              && NamesCleanBuild(e, "client_build") && NamesCleanBuild(e, "daemon_build");
            && (Registers(config, e, session) <==>
                  && e.kind == "session.registered" && named
                  && (config.requiresWake && config.attentionMode != "" ==>
                        Says(e, "attention_mode", config.attentionMode)))
            && (Hydrates(config, e, session) <==> e.kind == "startup.hydrated" && named)
  {
    OwnMeans(config, e);
    AttestedMeans(e);
    SaysValue(e, "session_id", session);
    SaysValue(e, "harness", config.harness);
    SaysValue(e, "attention_mode", config.attentionMode);
  }

  // ---------------------------------------------------------------------
  // What two windows show
  // ---------------------------------------------------------------------

  predicate Registered(config: Config, events: seq<Event>, session: string) {
    exists e | e in events :: Registers(config, e, session)
  }

  predicate Hydrated(config: Config, events: seq<Event>, session: string) {
    exists e | e in events :: Hydrates(config, e, session)
  }

  predicate Correlated(config: Config, events: seq<Event>, session: string) {
    Registered(config, events, session) && Hydrated(config, events, session)
  }

  predicate Acted(config: Config, events: seq<Event>, kind: string, id: string) {
    exists e | e in events :: Acts(config, e, kind, id)
  }

  predicate Noticed(config: Config, events: seq<Event>, id: string) {
    exists e | e in events ::
      Notifies(config, e, Value(e, "session_id"), id) && Correlated(config, events, Value(e, "session_id"))
  }

  predicate Processed(config: Config, operational: seq<Event>, id: string) {
    Acted(config, operational, "delivery.claimed", id) && Acted(config, operational, "delivery.acked", id)
  }

  predicate ShowsBuild(config: Config, e: Event, key: string, build: string) {
    Own(config, e) && build != "" && Value(e, key) == build
  }

  predicate Observed(config: Config, events: seq<Event>, build: string) {
    exists e | e in events ::
      ShowsBuild(config, e, "client_build", build) || ShowsBuild(config, e, "daemon_build", build)
  }

  predicate SawBuild(config: Config, events: seq<Event>, key: string) {
    exists e | e in events :: ShowsBuild(config, e, key, Value(e, key))
  }

  /** Both sides named their build, and no event of the run names an unclean one. */
  ghost predicate OnlyCleanBuilds(config: Config, events: seq<Event>) {
    && SawBuild(config, events, "client_build") && SawBuild(config, events, "daemon_build")
    && forall build | Observed(config, events, build) :: CleanBuild(build)
  }

  ghost predicate HasSession(config: Config, operational: seq<Event>) {
    exists session :: Correlated(config, operational, session)
  }

  ghost predicate HasWrite(config: Config, durable: seq<Event>) {
    exists id :: Acted(config, durable, "message.sent", id)
  }

  ghost predicate HasProcessed(config: Config, operational: seq<Event>) {
    exists id :: Processed(config, operational, id)
  }

  ghost predicate HasNotified(config: Config, operational: seq<Event>) {
    exists id :: Processed(config, operational, id) && Noticed(config, operational, id)
  }

  /** Everything but the live notice. */
  ghost predicate CoreReady(config: Config, durable: seq<Event>, operational: seq<Event>) {
    && HasSession(config, operational) && HasWrite(config, durable) && HasProcessed(config, operational)
    && OnlyCleanBuilds(config, durable + operational)
  }

  /** The certificate's meaning. */
  ghost predicate Witnessed(config: Config, durable: seq<Event>, operational: seq<Event>) {
    CoreReady(config, durable, operational) && (config.requiresWake ==> HasNotified(config, operational))
  }

  /** A message of the run that a clean client acted on through the bus tools. */
  ghost predicate ByClient(config: Config, e: Event, kind: string) {
    && e.kind == kind && FromRun(config, e) && e.messageID != ""
    && (exists rest: string :: Says(e, "client", "bus-mcp/" + rest))
    && NamesCleanBuild(e, "client_build") && NamesCleanBuild(e, "daemon_build")
  }

  lemma ActedMeans(config: Config, events: seq<Event>, kind: string, id: string)
    ensures Acted(config, events, kind, id) <==>
              exists e | e in events :: ByClient(config, e, kind) && e.messageID == id
  {
    forall e | e in events
      ensures Acts(config, e, kind, id) <==> ByClient(config, e, kind) && e.messageID == id
    {
      ActMeans(config, e, kind, id);
    }
  }

  lemma WriteMeans(config: Config, durable: seq<Event>)
    ensures HasWrite(config, durable) <==> exists e | e in durable :: ByClient(config, e, "message.sent")
  {
    if HasWrite(config, durable) {
      var id :| Acted(config, durable, "message.sent", id);
      ActedMeans(config, durable, "message.sent", id);
    }
    if e :| e in durable && ByClient(config, e, "message.sent") {
      ActedMeans(config, durable, "message.sent", e.messageID);
    }
  }

  /** A client claimed a message and acked that very message. */
  ghost predicate ClaimAndAck(config: Config, claim: Event, ack: Event) {
    && ByClient(config, claim, "delivery.claimed") && ByClient(config, ack, "delivery.acked")
    && claim.messageID == ack.messageID
  }

  lemma ProcessedMeans(config: Config, operational: seq<Event>, id: string)
    ensures Processed(config, operational, id) <==>
              exists c, a | c in operational && a in operational :: ClaimAndAck(config, c, a) && c.messageID == id
  {
    ActedMeans(config, operational, "delivery.claimed", id);
    ActedMeans(config, operational, "delivery.acked", id);
    if Processed(config, operational, id) {
      var c :| c in operational && ByClient(config, c, "delivery.claimed") && c.messageID == id;
      var a :| a in operational && ByClient(config, a, "delivery.acked") && a.messageID == id;
      assert ClaimAndAck(config, c, a);
    }
  }

  lemma HasProcessedMeans(config: Config, operational: seq<Event>)
    ensures HasProcessed(config, operational) <==>
              exists c, a | c in operational && a in operational :: ClaimAndAck(config, c, a)
  {
    if HasProcessed(config, operational) {
      var id :| Processed(config, operational, id);
      ProcessedMeans(config, operational, id);
    }
    if c, a :| c in operational && a in operational && ClaimAndAck(config, c, a) {
      ProcessedMeans(config, operational, c.messageID);
    }
  }

  /** The notice of a message, and the registration and hydration of the session that accepted it. */
  ghost predicate NoticedBy(config: Config, id: string, notice: Event, registration: Event, hydration: Event) {
    var session := Value(notice, "session_id");
    && Notifies(config, notice, session, id)
    && Registers(config, registration, session) && Hydrates(config, hydration, session)
  }

  lemma NoticedMeans(config: Config, operational: seq<Event>, id: string)
    ensures Noticed(config, operational, id) <==>
              exists n, r, h | n in operational && r in operational && h in operational ::
                NoticedBy(config, id, n, r, h)
  {
    if Noticed(config, operational, id) {
      var n :|
        && n in operational && Notifies(config, n, Value(n, "session_id"), id)
        && Correlated(config, operational, Value(n, "session_id"));
      var r :| r in operational && Registers(config, r, Value(n, "session_id"));
      var h :| h in operational && Hydrates(config, h, Value(n, "session_id"));
      assert NoticedBy(config, id, n, r, h);
    }
  }

  /** For live review the notice is of the very message that was claimed and acked. */
  lemma HasNotifiedMeans(config: Config, operational: seq<Event>)
    ensures HasNotified(config, operational) <==>
              exists c, a | c in operational && a in operational ::
                ClaimAndAck(config, c, a) && Noticed(config, operational, c.messageID)
  {
    if HasNotified(config, operational) {
      var id :| Processed(config, operational, id) && Noticed(config, operational, id);
      ProcessedMeans(config, operational, id);
    }
    if c, a :|
         && c in operational && a in operational && ClaimAndAck(config, c, a)
         && Noticed(config, operational, c.messageID) {
      ProcessedMeans(config, operational, c.messageID);
    }
  }

  /** The witnesses of a certificate are events. */
  lemma CertificateMeans(config: Config, durable: seq<Event>, operational: seq<Event>)
    ensures Witnessed(config, durable, operational) <==>
              && HasSession(config, operational)
              && (exists e | e in durable :: ByClient(config, e, "message.sent"))
              && (exists c, a | c in operational && a in operational ::
                    ClaimAndAck(config, c, a) && (config.requiresWake ==> Noticed(config, operational, c.messageID)))
              && OnlyCleanBuilds(config, durable + operational)
  {
    WriteMeans(config, durable);
    HasProcessedMeans(config, operational);
    HasNotifiedMeans(config, operational);
  }

  // ---------------------------------------------------------------------
  // The loops
  // ---------------------------------------------------------------------

  method CertifiedBuilds(builds: seq<string>, clientBuildSeen: bool, daemonBuildSeen: bool) returns (ok: bool)
    ensures ok <==>
              clientBuildSeen && daemonBuildSeen && builds != [] && forall build | build in builds :: CleanBuild(build)
  {
    if !clientBuildSeen || !daemonBuildSeen || |builds| == 0 {
      return false;
    }
    for i := 0 to |builds|
      invariant forall k | 0 <= k < i :: CleanBuild(builds[k])
    {
      if Contains(builds[i], "@unknown") || HasSuffix(builds[i], "+dirty") {
        assert builds[i] in builds && !CleanBuild(builds[i]);
        return false;
      }
    }
    return true;
  }

  method EventBuildsClean(e: Event) returns (ok: bool)
    ensures ok <==> Attested(e)
  {
    var clientBuild := Value(e, "client_build");
    var daemonBuild := Value(e, "daemon_build");
    var builds := [clientBuild, daemonBuild];
    ok := CertifiedBuilds(builds, clientBuild != "", daemonBuild != "");
    assert builds[0] in builds && builds[1] in builds;
  }

  lemma SessionsStep(config: Config, events: seq<Event>, e: Event)
    ensures forall s :: Registered(config, events + [e], s) <==>
              Registered(config, events, s) || Registers(config, e, s)
    ensures forall s :: Hydrated(config, events + [e], s) <==> Hydrated(config, events, s) || Hydrates(config, e, s)
  {
    forall s ensures Registered(config, events + [e], s) <==> Registered(config, events, s) || Registers(config, e, s) {
      assert e in events + [e];
      assert forall x :: x in events + [e] <==> x in events || x == e;
    }
    forall s ensures Hydrated(config, events + [e], s) <==> Hydrated(config, events, s) || Hydrates(config, e, s) {
      assert e in events + [e];
      assert forall x :: x in events + [e] <==> x in events || x == e;
    }
  }

  lemma ActedStep(config: Config, events: seq<Event>, e: Event, kind: string)
    ensures forall id :: Acted(config, events + [e], kind, id) <==>
              Acted(config, events, kind, id) || Acts(config, e, kind, id)
  {
    forall id
      ensures Acted(config, events + [e], kind, id) <==> Acted(config, events, kind, id) || Acts(config, e, kind, id)
    {
      assert e in events + [e];
      assert forall x :: x in events + [e] <==> x in events || x == e;
    }
  }

  lemma ObservedStep(config: Config, events: seq<Event>, e: Event)
    ensures forall build :: Observed(config, events + [e], build) <==>
              || Observed(config, events, build)
              || ShowsBuild(config, e, "client_build", build) || ShowsBuild(config, e, "daemon_build", build)
    ensures forall key :: SawBuild(config, events + [e], key) <==>
              SawBuild(config, events, key) || ShowsBuild(config, e, key, Value(e, key))
  {
    assert e in events + [e];
    assert forall x :: x in events + [e] <==> x in events || x == e;
  }

  /** The sessions that were both registered and hydrated. */
  method CorrelatedSessions(config: Config, events: seq<Event>) returns (registered: set<string>)
    ensures forall session :: session in registered <==> Correlated(config, events, session)
  {
    registered := {};
    var hydrated: set<string> := {};
    for i := 0 to |events|
      invariant forall session :: session in registered <==> Registered(config, events[..i], session)
      invariant forall session :: session in hydrated <==> Hydrated(config, events[..i], session)
    {
      var event := events[i];
      assert events[..i + 1] == events[..i] + [event];
      SessionsStep(config, events[..i], event);
      if event.actorID != config.actor {
        continue;
      }
      var clean := EventBuildsClean(event);
      if RunOf(event) != config.runID || Value(event, "harness") != config.harness || !clean {
        continue;
      }
      var sessionID := Value(event, "session_id");
      if sessionID == "" {
        continue;
      }
      if event.kind == "session.registered" {
        if config.Adapter() != "" && Value(event, "attention_mode") != config.Adapter() {
          continue;
        }
        registered := registered + {sessionID};
      } else if event.kind == "startup.hydrated" {
        hydrated := hydrated + {sessionID};
      }
    }
    assert events[..|events|] == events;
    ghost var all := registered;
    var rest := registered;
    while rest != {}
      invariant rest <= registered <= all
      invariant forall session | session in all :: session in registered <==> session in rest || session in hydrated
      decreases rest
    {
      var sessionID :| sessionID in rest;
      rest := rest - {sessionID};
      if sessionID !in hydrated {
        registered := registered - {sessionID};
      }
    }
  }

  /** The messages a real client acted on. */
  method McpMessageIDs(config: Config, events: seq<Event>, kind: string) returns (ids: set<string>)
    ensures forall id :: id in ids <==> Acted(config, events, kind, id)
  {
    ids := {};
    for i := 0 to |events|
      invariant forall id :: id in ids <==> Acted(config, events[..i], kind, id)
    {
      var event := events[i];
      assert events[..i + 1] == events[..i] + [event];
      ActedStep(config, events[..i], event, kind);
      if event.kind != kind || event.actorID != config.actor || event.messageID == "" {
        continue;
      }
      var clean := EventBuildsClean(event);
      if RunOf(event) == config.runID && HasPrefix(Value(event, "client"), "bus-mcp/") && clean {
        ids := ids + {event.messageID};
      }
    }
    assert events[..|events|] == events;
  }

  /** The messages whose notice a correlated session accepted. */
  method AcceptedNotificationMessageIDs(config: Config, events: seq<Event>, sessions: set<string>)
    returns (ids: set<string>)
    requires forall session :: session in sessions <==> Correlated(config, events, session)
    ensures forall id :: id in ids <==> Noticed(config, events, id)
  {
    ids := {};
    for i := 0 to |events|
      invariant forall id :: id in ids <==>
        exists e | e in events[..i] ::
          Notifies(config, e, Value(e, "session_id"), id) && Value(e, "session_id") in sessions
    {
      var event := events[i];
      assert events[..i + 1] == events[..i] + [event];
      if event.kind != "delivery.notification" || event.actorID != config.actor {
        continue;
      }
      if Value(event, "run_id") != config.runID || Value(event, "harness") != config.harness {
        continue;
      }
      if Value(event, "session_id") !in sessions {
        continue;
      }
      if config.Adapter() != "" && Value(event, "detail") != config.Adapter() {
        continue;
      }
      var clean := EventBuildsClean(event);
      if Value(event, "result") == "accepted" && Value(event, "client") == "hollerd/0.1" && clean {
        ids := ids + {event.messageID};
      }
    }
    assert events[..|events|] == events;
  }

  /** The builds the run's events name, each once and in order, and whether each side named one. */
  method ObservedBuildsForRun(config: Config, events: seq<Event>)
    returns (values: seq<string>, clientSeen: bool, daemonSeen: bool)
    ensures Ascending(Less, values)
    ensures forall build :: build in values <==> Observed(config, events, build)
    ensures clientSeen <==> SawBuild(config, events, "client_build")
    ensures daemonSeen <==> SawBuild(config, events, "daemon_build")
  {
    var seen: set<string> := {};
    clientSeen, daemonSeen := false, false;
    for i := 0 to |events|
      invariant forall build :: build in seen <==> Observed(config, events[..i], build)
      invariant clientSeen <==> SawBuild(config, events[..i], "client_build")
      invariant daemonSeen <==> SawBuild(config, events[..i], "daemon_build")
    {
      var event := events[i];
      assert events[..i + 1] == events[..i] + [event];
      ObservedStep(config, events[..i], event);
      if event.actorID != config.actor {
        continue;
      }
      if RunOf(event) != config.runID {
        continue;
      }
      var clientBuild := Value(event, "client_build");
      if clientBuild != "" {
        clientSeen := true;
        seen := seen + {clientBuild};
      }
      var daemonBuild := Value(event, "daemon_build");
      if daemonBuild != "" {
        daemonSeen := true;
        seen := seen + {daemonBuild};
      }
    }
    assert events[..|events|] == events;
    values := Listed(seen);
    LessIsTotal();
    SortIsAscending(Less, values);
    values := Sort(Less, values);
  }

  /** The elements of a set in some order. */
  method Listed(s: set<string>) returns (values: seq<string>)
    ensures NoRepeats(values) && forall x :: x in values <==> x in s
  {
    values := [];
    var rest := s;
    while rest != {}
      invariant rest <= s && NoRepeats(values)
      invariant forall x :: x in values <==> x in s && x !in rest
      decreases rest
    {
      var x :| x in rest;
      rest := rest - {x};
      values := values + [x];
    }
  }

  method Intersection(left: set<string>, right: set<string>) returns (values: set<string>)
    ensures values == left * right
  {
    values := {};
    var rest := left;
    while rest != {}
      invariant rest <= left && values == (left - rest) * right
      decreases rest
    {
      var value :| value in rest;
      rest := rest - {value};
      if value in right {
        values := values + {value};
      }
    }
  }

  method Intersects(left: set<string>, right: set<string>) returns (ok: bool)
    ensures ok <==> exists value :: value in left && value in right
  {
    var rest := left;
    while rest != {}
      invariant rest <= left && forall value | value in left - rest :: value !in right
      decreases rest
    {
      var value :| value in rest;
      if value in right {
        return true;
      }
      rest := rest - {value};
    }
    return false;
  }

  // ---------------------------------------------------------------------
  // The certificate
  // ---------------------------------------------------------------------

  /** The checks of a report, in order; the notice counts for live review alone. */
  function Checks(config: Config, registered: bool, wrote: bool, readAndAcked: bool, buildsOK: bool,
                  notified: bool): seq<Check> {
    [Check("canary.registration", registered), Check("canary.hydration", registered),
     Check("canary.write", wrote), Check("canary.claim_ack", readAndAcked),
     Check("canary.build_identity", buildsOK)] +
    (if config.requiresWake then [Check("canary.notification", notified)] else [])
  }

  /** What each check stands for. */
  lemma ChecksByName(config: Config, registered: bool, wrote: bool, readAndAcked: bool, buildsOK: bool,
                     notified: bool, check: Check)
    ensures check in Checks(config, registered, wrote, readAndAcked, buildsOK, notified) <==>
              || (check.id in {"canary.registration", "canary.hydration"} && check.passed == registered)
              || (check.id == "canary.write" && check.passed == wrote)
              || (check.id == "canary.claim_ack" && check.passed == readAndAcked)
              || (check.id == "canary.build_identity" && check.passed == buildsOK)
              || (check.id == "canary.notification" && check.passed == notified && config.requiresWake)
  {
    var checks := Checks(config, registered, wrote, readAndAcked, buildsOK, notified);
    assert checks[0] in checks && checks[1] in checks && checks[2] in checks;
    assert checks[3] in checks && checks[4] in checks;
    assert config.requiresWake ==> checks[5] in checks;
  }

  ghost function Evidence(config: Config, durable: seq<Event>, operational: seq<Event>): seq<Check> {
    Checks(config, HasSession(config, operational), HasWrite(config, durable), HasProcessed(config, operational),
           OnlyCleanBuilds(config, durable + operational), HasNotified(config, operational))
  }

  /** What a report says of two windows. */
  ghost predicate Reports(config: Config, durable: seq<Event>, operational: seq<Event>, report: Report) {
    && (report.ready <==> Witnessed(config, durable, operational))
    && report.state == (if Witnessed(config, durable, operational) then StateReady
                        else if CoreReady(config, durable, operational) then StateDegraded
                        else if HasSession(config, operational) then StateRegistered
                        else StateConfigured)
    && report.checks == Evidence(config, durable, operational)
    && (report.ready <==> forall check | check in report.checks :: check.passed)
    && Ascending(Less, report.observedBuilds)
    && (forall build :: build in report.observedBuilds <==> Observed(config, durable + operational, build))
    && report.observedDurable == LastPosition(durable, config.afterDurable)
    && report.observedOperational == LastPosition(operational, config.afterOperational)
  }

  /** The evidence of the two windows, item by item. */
  method GatherEvidence(config: Config, durable: seq<Event>, operational: seq<Event>)
    returns (registered: bool, wrote: bool, readAndAcked: bool, notified: bool)
    ensures registered <==> HasSession(config, operational)
    ensures wrote <==> HasWrite(config, durable)
    ensures readAndAcked <==> HasProcessed(config, operational)
    ensures notified <==> HasNotified(config, operational)
  {
    var sessions := CorrelatedSessions(config, operational);
    registered := sessions != {};
    var sent := McpMessageIDs(config, durable, "message.sent");
    wrote := sent != {};
    var claimed := McpMessageIDs(config, operational, "delivery.claimed");
    var acked := McpMessageIDs(config, operational, "delivery.acked");
    readAndAcked := Intersects(claimed, acked);
    var processed := Intersection(claimed, acked);
    var accepted := AcceptedNotificationMessageIDs(config, operational, sessions);
    notified := Intersects(processed, accepted);
    assert forall id :: id in claimed && id in acked <==> Processed(config, operational, id);
  }

  /** Whether every build the run's events name is clean. */
  method JudgeBuilds(config: Config, events: seq<Event>) returns (builds: seq<string>, buildsOK: bool)
    ensures buildsOK <==> OnlyCleanBuilds(config, events)
    ensures Ascending(Less, builds)
    ensures forall build :: build in builds <==> Observed(config, events, build)
  {
    var clientBuildSeen, daemonBuildSeen;
    builds, clientBuildSeen, daemonBuildSeen := ObservedBuildsForRun(config, events);
    buildsOK := CertifiedBuilds(builds, clientBuildSeen, daemonBuildSeen);
    SeenBuildIsObserved(config, events);
  }

  /** The judgement on two complete windows. */
  method Judge(config: Config, durable: seq<Event>, operational: seq<Event>) returns (report: Report)
    ensures Reports(config, durable, operational, report)
  {
    var registered, wrote, readAndAcked, notified := GatherEvidence(config, durable, operational);
    var hydrated := registered;
    var builds, buildsOK := JudgeBuilds(config, durable + operational);
    var checks := Checks(config, registered, wrote, readAndAcked, buildsOK, notified);
    var coreReady := registered && hydrated && wrote && readAndAcked && buildsOK;
    var state, ready := StateConfigured, false;
    if coreReady && (!config.requiresWake || notified) {
      state, ready := StateReady, true;
    } else if registered && coreReady && config.requiresWake {
      state := StateDegraded;
    } else if registered {
      state := StateRegistered;
    }
    AllPassed(checks, registered, wrote, readAndAcked, buildsOK, config.requiresWake, notified);
    report := Report(state, ready, LastPosition(durable, config.afterDurable),
                     LastPosition(operational, config.afterOperational), builds, checks);
  }

  lemma AllPassed(checks: seq<Check>, registered: bool, wrote: bool, readAndAcked: bool, buildsOK: bool,
                  wake: bool, notified: bool)
    requires |checks| == if wake then 6 else 5
    requires checks[0].passed == registered && checks[1].passed == registered && checks[2].passed == wrote
    requires checks[3].passed == readAndAcked && checks[4].passed == buildsOK
    requires wake ==> checks[5].passed == notified
    ensures (forall check | check in checks :: check.passed) <==>
            registered && wrote && readAndAcked && buildsOK && (wake ==> notified)
  {
    assert checks[0] in checks && checks[1] in checks && checks[2] in checks;
    assert checks[3] in checks && checks[4] in checks;
    assert wake ==> checks[5] in checks;
  }

  lemma SeenBuildIsObserved(config: Config, events: seq<Event>)
    ensures SawBuild(config, events, "client_build") ==> exists build :: Observed(config, events, build)
  {
    if SawBuild(config, events, "client_build") {
      var e :| e in events && ShowsBuild(config, e, "client_build", Value(e, "client_build"));
      assert Observed(config, events, Value(e, "client_build"));
    }
  }

  /** The same events of the certified actor and run, in whatever order and among whatever others. */
  ghost predicate SameOwnEvents(config: Config, events: seq<Event>, others: seq<Event>) {
    forall e | Own(config, e) :: e in events <==> e in others
  }

  lemma NoticesAreOwn(config: Config, e: Event, session: string, id: string)
    requires config.runID != "" && Notifies(config, e, session, id)
    ensures Own(config, e)
  {
    var keys: seq<string> := ["run_id"];
    assert StringValue(e.payload, keys) ==
           if "run_id" in e.payload then e.payload["run_id"] else StringValue(e.payload, keys[1..]);
    assert StringValue(e.payload, keys[1..]) == "";
    var both: seq<string> := ["run_id", "from_run"];
    assert both[0] == "run_id";
  }

  lemma SameEvidence(config: Config, events: seq<Event>, others: seq<Event>)
    requires config.runID != "" && SameOwnEvents(config, events, others)
    ensures forall s | Correlated(config, events, s) :: Correlated(config, others, s)
    ensures forall kind, id | Acted(config, events, kind, id) :: Acted(config, others, kind, id)
    ensures HasProcessed(config, events) ==> HasProcessed(config, others)
    ensures forall id | Noticed(config, events, id) :: Noticed(config, others, id)
    ensures forall build | Observed(config, events, build) :: Observed(config, others, build)
    ensures forall key | SawBuild(config, events, key) :: SawBuild(config, others, key)
  {
    forall s | Correlated(config, events, s) ensures Correlated(config, others, s) {
      var e, f :| e in events && f in events && Registers(config, e, s) && Hydrates(config, f, s);
      assert e in others && f in others;
    }
    if HasProcessed(config, events) {
      var id :| Processed(config, events, id);
      assert Processed(config, others, id);
    }
    forall id | Noticed(config, events, id) ensures Noticed(config, others, id) {
      var e :|
        && e in events && Notifies(config, e, Value(e, "session_id"), id)
        && Correlated(config, events, Value(e, "session_id"));
      NoticesAreOwn(config, e, Value(e, "session_id"), id);
      assert e in others;
    }
  }

  lemma SameWitnesses(config: Config, durable: seq<Event>, operational: seq<Event>,
                      durable': seq<Event>, operational': seq<Event>)
    requires config.runID != ""
    requires SameOwnEvents(config, durable, durable') && SameOwnEvents(config, operational, operational')
    requires Witnessed(config, durable, operational)
    ensures Witnessed(config, durable', operational')
  {
    SameEvidence(config, durable, durable');
    SameEvidence(config, operational, operational');
    SameEvidence(config, durable + operational, durable' + operational');
    SameEvidence(config, durable' + operational', durable + operational);
  }

  /** Other actors, other runs, and the order and repetition of events have no say in a certificate. */
  lemma OnlyOwnEventsMatter(config: Config, durable: seq<Event>, operational: seq<Event>,
                            durable': seq<Event>, operational': seq<Event>)
    requires !config.Incomplete()
    requires SameOwnEvents(config, durable, durable') && SameOwnEvents(config, operational, operational')
    ensures Witnessed(config, durable, operational) <==> Witnessed(config, durable', operational')
  {
    if Witnessed(config, durable, operational) {
      SameWitnesses(config, durable, operational, durable', operational');
    }
    if Witnessed(config, durable', operational') {
      SameWitnesses(config, durable', operational', durable, operational);
    }
  }

  /** More events never take evidence away: a wider window stays READY exactly when none of its builds is unclean. */
  lemma WiderWindow(config: Config, durable: seq<Event>, operational: seq<Event>,
                    durable': seq<Event>, operational': seq<Event>)
    requires (forall e | e in durable :: e in durable') && (forall e | e in operational :: e in operational')
    requires Witnessed(config, durable, operational)
    ensures Witnessed(config, durable', operational') <==>
            forall build | Observed(config, durable' + operational', build) :: CleanBuild(build)
  {
    forall s | Correlated(config, operational, s) ensures Correlated(config, operational', s) {
      var e, f :| e in operational && f in operational && Registers(config, e, s) && Hydrates(config, f, s);
      assert e in operational' && f in operational';
    }
    forall id | Acted(config, durable, "message.sent", id) ensures Acted(config, durable', "message.sent", id) {
    }
    forall id | Processed(config, operational, id) ensures Processed(config, operational', id) {
    }
    forall id | Noticed(config, operational, id) ensures Noticed(config, operational', id) {
    }
    forall key | SawBuild(config, durable + operational, key) ensures SawBuild(config, durable' + operational', key) {
      var e :| e in durable + operational && ShowsBuild(config, e, key, Value(e, key));
      assert e in durable' + operational';
    }
  }

  /** The report judges two complete windows that are small enough to be read. */
  ghost predicate Covers(config: Config, durable: seq<Event>, operational: seq<Event>, report: Report) {
    |durable| <= 10_000 && |operational| <= 10_000 && Reports(config, durable, operational, report)
  }

  method Certificate(config: Config, durable: seq<Event>, operational: seq<Event>) returns (report: Report)
    requires |durable| <= WINDOW && |operational| <= WINDOW
    ensures Covers(config, durable, operational, report)
  {
    report := Judge(config, durable, operational);
  }

  lemma IncompleteMeans(config: Config)
    ensures config.Incomplete() <==> Blank(config.projectID) || Blank(config.actor) || Blank(config.runID)
  {
    BlankMeans(config.projectID);
    BlankMeans(config.actor);
    BlankMeans(config.runID);
  }

  /**
   A certificate speaks for the complete window behind each cursor, as its last page found it:
   the durable stream may have grown again by the time the operational one was read. It fails exactly
   when project, actor or run is blank, a call is not answered, or a window is exceeded.
   */
  method Certify(reader: EventReader, config: Config) returns (result: Result<Report, CertifyError>)
    requires reader.Valid()
    modifies reader
    ensures reader.Valid()
    ensures result == Failure(Incomplete) <==>
              Blank(config.projectID) || Blank(config.actor) || Blank(config.runID)
    ensures config.Incomplete() ==> reader.calls == old(reader.calls)
    ensures old(reader.calls) <= reader.calls <= old(reader.calls) + 2 * (WINDOW / PAGE + 1)
    ensures result == Failure(Unreadable(ReaderFailed)) <==>
              !AllAnswered(reader.fails, old(reader.calls), reader.calls)
    ensures result == Failure(Unreadable(WindowExceeded)) ==>
              || |After(reader.Log(Durable), config.afterDurable)| > 10_000
              || |After(reader.Log(Operational), config.afterOperational)| > 10_000
    ensures result.Success? ==>
              exists n | old(reader.durableCount) <= n <= reader.durableCount ::
                Covers(config, After(reader.LogAt(Durable, n), config.afterDurable),
                       After(reader.Log(Operational), config.afterOperational), result.value)
  {
    IncompleteMeans(config);
    if config.Incomplete() {
      return Failure(Incomplete);
    }
    var durable, durablePosition := ReadCertificationEvents(reader, Durable, config.afterDurable);
    if durable.Failure? {
      return Failure(Unreadable(durable.error));
    }
    ghost var n, middle := reader.durableCount, reader.calls;
    var operational, operationalPosition := ReadCertificationEvents(reader, Operational, config.afterOperational);
    AnsweredInTwo(reader.fails, old(reader.calls), middle, reader.calls);
    if operational.Failure? {
      return Failure(Unreadable(operational.error));
    }
    assert durable.value == After(reader.LogAt(Durable, n), config.afterDurable);
    var report := Certificate(config, durable.value, operational.value);
    return Success(report);
  }
}
