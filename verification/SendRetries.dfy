/**
 Recognising a retried send: the store stamps a normalised request with its
 requested routes and keeps them in the message (internal/store/sqlite/store.go),
 and a later request under the same key is compared with that message
 (EquivalentRequest in internal/bus/model.go).
 */
module SendRetries {
  import opened Wrappers
  import opened SendRequests

  datatype Message = Message(
    id: string, idempotencyKey: string, projectID: string, channelID: string, threadID: string,
    fromActor: string, fromRun: string, fromRole: string, toActors: seq<string>,
    requestedRoutes: seq<Route>, requestedToActors: seq<string>,
    kind: string, deliveryRequest: string, inReplyTo: string, body: string, expiresAt: Option<int>)

  datatype StampError = NoParent | OtherConversation | OtherThread

  // ---------------------------------------------------------------------
  // Route comparison
  // ---------------------------------------------------------------------

  predicate Matches(a: Route, b: Route) {
    a.value == b.value && (a.kind == "" || b.kind == "" || a.kind == b.kind)
  }

  predicate EqualRoutes(a: seq<Route>, b: seq<Route>) {
    |a| == |b| && forall i | 0 <= i < |a| :: Matches(a[i], b[i])
  }

  method CompareRoutes(a: seq<Route>, b: seq<Route>) returns (equal: bool)
    ensures equal <==> EqualRoutes(a, b)
  {
    if |a| != |b| {
      return false;
    }
    for i := 0 to |a|
      invariant forall k | 0 <= k < i :: Matches(a[k], b[k])
    {
      if a[i].value != b[i].value || (a[i].kind != "" && b[i].kind != "" && a[i].kind != b[i].kind) {
        assert !Matches(a[i], b[i]);
        return false;
      }
    }
    return true;
  }

  predicate NoEmptyKind(routes: seq<Route>) {
    forall i | 0 <= i < |routes| :: routes[i].kind != ""
  }

  lemma RouteMatchingIsReflexiveAndSymmetric(a: seq<Route>, b: seq<Route>)
    ensures EqualRoutes(a, a)
    ensures EqualRoutes(a, b) <==> EqualRoutes(b, a)
  {
    if EqualRoutes(a, b) {
      forall i | 0 <= i < |a| ensures Matches(b[i], a[i]) { assert Matches(a[i], b[i]); }
    }
    if EqualRoutes(b, a) {
      forall i | 0 <= i < |a| ensures Matches(a[i], b[i]) { assert Matches(b[i], a[i]); }
    }
  }

  /** Matching is transitive through a list exactly when that list has no legacy kind. */
  lemma RouteMatchingIsTransitiveThrough(b: seq<Route>)
    ensures NoEmptyKind(b) <==> forall a, c | EqualRoutes(a, b) && EqualRoutes(b, c) :: EqualRoutes(a, c)
  {
    if NoEmptyKind(b) {
      forall a, c | EqualRoutes(a, b) && EqualRoutes(b, c) ensures EqualRoutes(a, c) {
        forall i | 0 <= i < |a| ensures Matches(a[i], c[i]) {
          assert Matches(a[i], b[i]) && Matches(b[i], c[i]) && b[i].kind != "";
        }
      }
    } else {
      var k :| 0 <= k < |b| && b[k].kind == "";
      var a, c := b[k := Route("alias", b[k].value)], b[k := Route("actor", b[k].value)];
      forall i | 0 <= i < |b| ensures Matches(a[i], b[i]) && Matches(b[i], c[i]) { }
      assert EqualRoutes(a, b) && EqualRoutes(b, c);
      assert "alias"[1] != "actor"[1] && !Matches(a[k], c[k]);
    }
  }

  function LegacyRoutes(values: seq<string>): (routes: seq<Route>)
    ensures |routes| == |values| && forall i | 0 <= i < |values| :: routes[i] == Route("", values[i])
  {
    seq(|values|, i requires 0 <= i < |values| => Route("", values[i]))
  }

  function MessageRoutes(message: Message): seq<Route> {
    if message.requestedRoutes != [] then message.requestedRoutes
    else if message.requestedToActors != [] then LegacyRoutes(message.requestedToActors)
    else LegacyRoutes(message.toActors)
  }

  function RequestRoutes(req: SendRequest): seq<Route> {
    if req.requestedRoutes != [] then req.requestedRoutes
    else if req.destinations != [] then req.destinations
    else if req.requestedToActors != [] then LegacyRoutes(req.requestedToActors)
    else LegacyRoutes(req.toActors)
  }

  /** Everything but the routes. */
  predicate SameContent(message: Message, req: SendRequest) {
    && message.idempotencyKey == req.idempotencyKey && message.projectID == req.projectID
    && message.channelID == req.channelID && message.threadID == req.threadID
    && message.fromActor == req.fromActor && message.fromRun == req.fromRun && message.fromRole == req.fromRole
    && message.kind == req.kind && message.deliveryRequest == req.deliveryRequest
    && message.inReplyTo == req.inReplyTo && message.body == req.body && message.expiresAt == req.expiresAt
  }

  predicate EquivalentRequest(message: Message, req: SendRequest) {
    SameContent(message, req) && EqualRoutes(MessageRoutes(message), RequestRoutes(req))
  }

  // ---------------------------------------------------------------------
  // Stamping
  // ---------------------------------------------------------------------

  /** A legacy recipient is an alias when the store has ever known it as one. */
  function Classified(aliases: set<string>, actors: seq<string>): (routes: seq<Route>)
    ensures |routes| == |actors| && forall i | 0 <= i < |actors| ::
              routes[i] == Route(if actors[i] in aliases then "alias" else "actor", actors[i])
  {
    seq(|actors|, i requires 0 <= i < |actors| => Route(if actors[i] in aliases then "alias" else "actor", actors[i]))
  }

  /** The requested routes, and a reply's thread, before the idempotency key is looked up. */
  function Stamped(req: SendRequest, aliases: set<string>, parent: Option<Message>): Result<SendRequest, StampError> {
    var kept := req.(requestedToActors := req.toActors);
    if req.inReplyTo == "" then
      var routes := if req.destinations != [] then req.destinations else Classified(aliases, req.toActors);
      Success(kept.(requestedRoutes := routes))
    else if parent == None then Failure(NoParent)
    else if req.projectID != parent.value.projectID || req.channelID != parent.value.channelID then
      Failure(OtherConversation)
    else if req.threadID != "" && req.threadID != parent.value.threadID then Failure(OtherThread)
    else Success(kept.(threadID := parent.value.threadID, requestedRoutes := [Route("reply", parent.value.id)]))
  }

  /** The message a stamped request is stored as; the recipients are the actors its routes resolved to. */
  function Stored(req: SendRequest, id: string, resolved: seq<string>): Message {
    Message(id, req.idempotencyKey, req.projectID, req.channelID, req.threadID,
            req.fromActor, req.fromRun, req.fromRole, resolved, req.requestedRoutes, req.requestedToActors,
            req.kind, req.deliveryRequest, req.inReplyTo, req.body, req.expiresAt)
  }

  /**
   A reply is stored in its parent's conversation and thread with the parent as its one route, and refused
   exactly when that is impossible; anything else is always stored, routed as it was asked for.
   */
  lemma StampAnswers(req: SendRequest, aliases: set<string>, parent: Option<Message>,
                     id: string, resolved: seq<string>)
    ensures var result := Stamped(req, aliases, parent);
            && (result == Failure(NoParent) <==> req.inReplyTo != "" && parent.None?)
            && (result == Failure(OtherConversation) <==>
                  && req.inReplyTo != "" && parent.Some?
                  && (parent.value.projectID != req.projectID || parent.value.channelID != req.channelID))
            && (result == Failure(OtherThread) <==>
                  && req.inReplyTo != "" && parent.Some?
                  && parent.value.projectID == req.projectID && parent.value.channelID == req.channelID
                  && req.threadID !in {"", parent.value.threadID})
            && (result.Success? ==>
                  var message := Stored(result.value, id, resolved);
                  && message.requestedToActors == req.toActors && message.toActors == resolved && message.id == id
                  && if req.inReplyTo != "" then
                       && parent.Some? && message.inReplyTo == req.inReplyTo
                       && message.projectID == parent.value.projectID && message.channelID == parent.value.channelID
                       && message.threadID == parent.value.threadID
                       && message.requestedRoutes == [Route("reply", parent.value.id)]
                     else
                       && message.threadID == req.threadID
                       && (req.destinations != [] ==> message.requestedRoutes == req.destinations)
                       && (req.destinations == [] ==> Values(message.requestedRoutes) == req.toActors)
                       && (req.destinations == [] ==>
                             forall r | r in message.requestedRoutes ::
                               r.kind == (if r.value in aliases then "alias" else "actor")))
  {
    assert Values(Classified(aliases, req.toActors)) == req.toActors;
  }

  predicate RoutesAreStamped(req: SendRequest) {
    req.requestedRoutes != [] && NoEmptyKind(req.requestedRoutes)
  }

  lemma StampingNamesEveryRoute(json: string -> bool, req: SendRequest, aliases: set<string>, parent: Option<Message>)
    requires Normalized(json, req).Success? && Stamped(Normalized(json, req).value, aliases, parent).Success?
    ensures RoutesAreStamped(Stamped(Normalized(json, req).value, aliases, parent).value)
  {
    AcceptedExactlyWhenAcceptable(json, Trimmed(req));
    CanonicalIsAcceptable(json, req);
    ListsKeepTheirKind(req);
    var c := Canonical(req);
    if c.inReplyTo == "" && c.destinations != [] {
      forall i | 0 <= i < |c.destinations| ensures c.destinations[i].kind != "" {
        assert c.destinations[i] in c.destinations && GoodRoute(c.destinations[i]);
      }
    }
  }

  /** Everything a stored message and a later request under its key are compared on. */
  predicate Agree(s: SendRequest, t: SendRequest) {
    s.(toActors := [], requestedToActors := [], destinations := []) ==
    t.(toActors := [], requestedToActors := [], destinations := [])
  }

  /**
   Between stamped requests equivalence is equality of the whole request, recipients aside, which the
   routes stand for.
   */
  lemma EquivalenceIsAgreement(s: SendRequest, t: SendRequest, id: string, resolved: seq<string>)
    requires RoutesAreStamped(s) && RoutesAreStamped(t)
    ensures EquivalentRequest(Stored(s, id, resolved), t) <==> Agree(s, t)
  {
    if EqualRoutes(s.requestedRoutes, t.requestedRoutes) {
      forall i | 0 <= i < |s.requestedRoutes| ensures s.requestedRoutes[i] == t.requestedRoutes[i] {
        assert Matches(s.requestedRoutes[i], t.requestedRoutes[i]);
      }
      assert s.requestedRoutes == t.requestedRoutes;
    } else if s.requestedRoutes == t.requestedRoutes {
      RouteMatchingIsReflexiveAndSymmetric(s.requestedRoutes, t.requestedRoutes);
    }
  }

  lemma SameClassification(before: set<string>, now: set<string>, actors: seq<string>)
    ensures Classified(before, actors) == Classified(now, actors) <==>
              forall a | a in actors :: a in before <==> a in now
  {
    var was, current := Classified(before, actors), Classified(now, actors);
    assert "alias"[1] != "actor"[1];
    if was == current {
      forall a | a in actors ensures a in before <==> a in now {
        var k :| 0 <= k < |actors| && actors[k] == a;
        assert was[k] == current[k];
      }
    }
    if forall a | a in actors :: a in before <==> a in now {
      forall i | 0 <= i < |actors| ensures was[i] == current[i] {
        assert actors[i] in actors;
      }
      assert was == current;
    }
  }

  function Values(routes: seq<Route>): seq<string> {
    seq(|routes|, i requires 0 <= i < |routes| => routes[i].value)
  }

  /**
   A message of an older store, which recorded no routes, is compared by the recipients it did record,
   of whatever kind.
   */
  lemma LegacyEquivalence(message: Message, t: SendRequest)
    requires message.requestedRoutes == [] && RoutesAreStamped(t)
    ensures EquivalentRequest(message, t) <==>
            && SameContent(message, t)
            && Values(t.requestedRoutes) ==
               if message.requestedToActors != [] then message.requestedToActors else message.toActors
  {
    var recorded := if message.requestedToActors != [] then message.requestedToActors else message.toActors;
    var routes := LegacyRoutes(recorded);
    assert MessageRoutes(message) == routes;
    if EqualRoutes(routes, t.requestedRoutes) {
      forall i | 0 <= i < |recorded| ensures Values(t.requestedRoutes)[i] == recorded[i] {
        assert Matches(routes[i], t.requestedRoutes[i]);
      }
      assert Values(t.requestedRoutes) == recorded;
    }
    if Values(t.requestedRoutes) == recorded {
      forall i | 0 <= i < |recorded| ensures Matches(routes[i], t.requestedRoutes[i]) {
        assert Values(t.requestedRoutes)[i] == recorded[i];
      }
    }
  }

  /** A request without routes of its own is compared by its destinations, or else by its recipients' names. */
  lemma UnstampedEquivalence(message: Message, req: SendRequest)
    requires req.requestedRoutes == []
    ensures EquivalentRequest(message, req) <==>
              && SameContent(message, req)
              && if req.destinations != [] then EqualRoutes(MessageRoutes(message), req.destinations)
                 else
                   Values(MessageRoutes(message)) ==
                   if req.requestedToActors != [] then req.requestedToActors else req.toActors
  {
    var names := if req.requestedToActors != [] then req.requestedToActors else req.toActors;
    var routes := MessageRoutes(message);
    if req.destinations == [] && EqualRoutes(routes, LegacyRoutes(names)) {
      forall i | 0 <= i < |names| ensures Values(routes)[i] == names[i] {
        assert Matches(routes[i], LegacyRoutes(names)[i]);
      }
      assert Values(routes) == names;
    }
    if req.destinations == [] && Values(routes) == names {
      forall i | 0 <= i < |names| ensures Matches(routes[i], LegacyRoutes(names)[i]) {
        assert Values(routes)[i] == names[i];
      }
    }
  }

  lemma StampedAgain(c: SendRequest, before: set<string>, now: set<string>, parent: Option<Message>)
    requires Stamped(c, before, parent).Success?
    ensures Stamped(c, now, parent).Success?
    ensures Agree(Stamped(c, before, parent).value, Stamped(c, now, parent).value) <==>
            c.inReplyTo != "" || c.destinations != [] || Classified(before, c.toActors) == Classified(now, c.toActors)
  {
  }

  /**
   A retry is recognised however its recipients are ordered, repeated or padded, exactly when the
   store still classifies its legacy recipients as it did: always for destinations and replies.
   */
  lemma {:induction false} RetryIsRecognised(json: string -> bool, first: SendRequest, retry: SendRequest,
                                             before: set<string>, now: set<string>,
                                             parent: Option<Message>, id: string, resolved: seq<string>)
    requires SameRequest(first, retry)
    requires Normalized(json, first).Success? && Normalized(json, retry).Success?
    requires Stamped(Canonical(first), before, parent).Success?
    ensures Stamped(Canonical(retry), now, parent).Success?
    ensures EquivalentRequest(Stored(Stamped(Canonical(first), before, parent).value, id, resolved),
                              Stamped(Canonical(retry), now, parent).value) <==>
              || Canonical(first).inReplyTo != "" || Canonical(first).destinations != []
              || forall a | a in Canonical(first).toActors :: a in before <==> a in now
  {
    var c := Canonical(first);
    SameRequestsHaveOneForm(first, retry);
    StampedAgain(c, before, now, parent);
    StampingNamesEveryRoute(json, first, before, parent);
    StampingNamesEveryRoute(json, retry, now, parent);
    EquivalenceIsAgreement(Stamped(c, before, parent).value, Stamped(c, now, parent).value, id, resolved);
    SameClassification(before, now, c.toActors);
  }
}
