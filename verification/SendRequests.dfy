/**
 The canonical form of send requests and the comparison that recognises a
 retry (internal/bus/model.go), with the store's stamping of routes between
 them (internal/store/sqlite/store.go). Bodies are text, instants are integers.
 */
module SendRequests {
  import opened Wrappers
  import opened Text
  import opened Sorting

  const MAX_BODY: nat := 1048576
  const NON_BLOCKING: string := "non-blocking"

  datatype Route = Route(kind: string, value: string)

  datatype SendRequest = SendRequest(
    idempotencyKey: string, projectID: string, channelID: string, threadID: string,
    fromActor: string, fromRun: string, fromRole: string,
    toActors: seq<string>, destinations: seq<Route>,
    kind: string, deliveryRequest: string, inReplyTo: string,
    body: string, expiresAt: Option<int>,
    requestedToActors: seq<string>, requestedRoutes: seq<Route>)

  datatype Problem =
    | IsRequired
    | TooLong
    | ControlCharacters
    | IsNull
    | InvalidJson
    | Unsupported
    | CombinedWithActors
    | CombinedWithReply
    | ReplyRoute
    | NoRecipient

  datatype ValidationError = ValidationError(field: string, problem: Problem)

  datatype TextField = TextField(name: string, value: string, max: nat)

  // ---------------------------------------------------------------------
  // Canonical lists
  // ---------------------------------------------------------------------

  /** By kind, then by value. */
  predicate RouteLess(a: Route, b: Route) {
    if a.kind == b.kind then Less(a.value, b.value) else Less(a.kind, b.kind)
  }

  lemma RouteLessIsTotal()
    ensures TotalOrder(RouteLess)
  {
    LessIsTotal();
    forall x: Route ensures !RouteLess(x, x) {
      assert !Less(x.value, x.value);
    }
    forall x: Route, y: Route | x != y ensures RouteLess(x, y) || RouteLess(y, x) {
      if x.kind == y.kind {
        assert Less(x.value, y.value) || Less(y.value, x.value);
      } else {
        assert Less(x.kind, y.kind) || Less(y.kind, x.kind);
      }
    }
    forall x: Route, y: Route, z: Route | RouteLess(x, y) && RouteLess(y, z) ensures RouteLess(x, z) {
      if x.kind == y.kind == z.kind {
        assert Less(x.value, z.value);
      } else if x.kind != y.kind && y.kind != z.kind {
        assert Less(x.kind, z.kind);
        assert !Less(x.kind, x.kind);
      }
    }
  }

  /** The first occurrence of each element. */
  function Distinct<T(==)>(xs: seq<T>): seq<T> {
    if xs == [] then []
    else
      var kept, last := Distinct(xs[..|xs| - 1]), xs[|xs| - 1];
      if last in kept then kept else kept + [last]
  }

  lemma DistinctStep<T>(xs: seq<T>, x: T)
    ensures Distinct(xs + [x]) == if x in Distinct(xs) then Distinct(xs) else Distinct(xs) + [x]
  {
    assert (xs + [x])[..|xs|] == xs;
  }

  lemma {:induction false} DistinctKeepsElements<T>(xs: seq<T>)
    ensures NoRepeats(Distinct(xs)) && SameElements(Distinct(xs), xs)
  {
    if xs != [] {
      DistinctKeepsElements(xs[..|xs| - 1]);
      assert xs == xs[..|xs| - 1] + [xs[|xs| - 1]];
    }
  }

  function TrimRoute(route: Route): Route {
    route.(value := TrimSpace(route.value))
  }

  function TrimRoutes(routes: seq<Route>): seq<Route> {
    seq(|routes|, i requires 0 <= i < |routes| => TrimRoute(routes[i]))
  }

  function TrimAll(actors: seq<string>): seq<string> {
    seq(|actors|, i requires 0 <= i < |actors| => TrimSpace(actors[i]))
  }

  function NonBlank(names: seq<string>): seq<string> {
    if names == [] then []
    else NonBlank(names[..|names| - 1]) + (if names[|names| - 1] == "" then [] else [names[|names| - 1]])
  }

  /** The recipients without padding, blank ones dropped. */
  function Names(actors: seq<string>): seq<string> {
    NonBlank(TrimAll(actors))
  }

  lemma {:induction false} NonBlankMembers(names: seq<string>)
    ensures forall name :: name in NonBlank(names) <==> name != "" && name in names
    ensures "" !in names ==> NonBlank(names) == names
  {
    if names != [] {
      NonBlankMembers(names[..|names| - 1]);
      assert names == names[..|names| - 1] + [names[|names| - 1]];
    }
  }

  lemma NamesMembers(actors: seq<string>)
    ensures forall name :: name in Names(actors) <==> name != "" && exists a | a in actors :: TrimSpace(a) == name
  {
    NonBlankMembers(TrimAll(actors));
    forall name ensures name in TrimAll(actors) <==> exists a | a in actors :: TrimSpace(a) == name {
      if name in TrimAll(actors) {
        var k :| 0 <= k < |actors| && TrimAll(actors)[k] == name;
        assert actors[k] in actors;
      }
      if a :| a in actors && TrimSpace(a) == name {
        var k :| 0 <= k < |actors| && actors[k] == a;
        assert TrimAll(actors)[k] == name;
      }
    }
  }

  lemma NamesStep(actors: seq<string>, actor: string)
    ensures Names(actors + [actor]) == Names(actors) + (if TrimSpace(actor) == "" then [] else [TrimSpace(actor)])
  {
    assert TrimAll(actors + [actor]) == TrimAll(actors) + [TrimSpace(actor)];
  }

  function CanonicalRoutes(routes: seq<Route>): seq<Route> {
    Sort(RouteLess, Distinct(TrimRoutes(routes)))
  }

  function CanonicalActors(actors: seq<string>): seq<string> {
    Sort(Less, Distinct(Names(actors)))
  }

  lemma CanonicalRoutesAreAscending(routes: seq<Route>)
    ensures Ascending(RouteLess, CanonicalRoutes(routes)) && SameElements(CanonicalRoutes(routes), TrimRoutes(routes))
  {
    RouteLessIsTotal();
    DistinctKeepsElements(TrimRoutes(routes));
    SortIsAscending(RouteLess, Distinct(TrimRoutes(routes)));
  }

  lemma CanonicalActorsAreAscending(actors: seq<string>)
    ensures Ascending(Less, CanonicalActors(actors)) && SameElements(CanonicalActors(actors), Names(actors))
  {
    LessIsTotal();
    DistinctKeepsElements(Names(actors));
    SortIsAscending(Less, Distinct(Names(actors)));
  }

  // ---------------------------------------------------------------------
  // Normalisation
  // ---------------------------------------------------------------------

  /** Trimmed, with the defaults filled in. */
  function Trimmed(req: SendRequest): SendRequest {
    req.(idempotencyKey := TrimSpace(req.idempotencyKey), projectID := TrimSpace(req.projectID),
    channelID := TrimSpace(req.channelID), threadID := TrimSpace(req.threadID),
    fromActor := TrimSpace(req.fromActor), fromRun := TrimSpace(req.fromRun), fromRole := TrimSpace(req.fromRole),
    kind := TrimSpace(req.kind), inReplyTo := TrimSpace(req.inReplyTo),
    body := if req.body == "" then "{}" else req.body,
    deliveryRequest := if req.deliveryRequest == "" then NON_BLOCKING else req.deliveryRequest)
  }

  function RequiredFields(req: SendRequest): seq<TextField> {
    [TextField("idempotency_key", req.idempotencyKey, 256), TextField("project_id", req.projectID, 256),
     TextField("channel_id", req.channelID, 128), TextField("from_actor", req.fromActor, 128),
     TextField("from_run", req.fromRun, 256), TextField("type", req.kind, 64)]
  }

  function BoundedFields(req: SendRequest): seq<TextField> {
    [TextField("project_id", req.projectID, 256), TextField("channel_id", req.channelID, 128),
     TextField("thread_id", req.threadID, 256), TextField("from_actor", req.fromActor, 128),
     TextField("from_run", req.fromRun, 256), TextField("from_role", req.fromRole, 128),
     TextField("type", req.kind, 64), TextField("in_reply_to", req.inReplyTo, 128)]
  }

  function IdentifierError(field: TextField): Option<ValidationError> {
    if ByteLength(field.value) > field.max then Some(ValidationError(field.name, TooLong))
    else if !ValidIdentifier(field.value, field.max) then Some(ValidationError(field.name, ControlCharacters))
    else None
  }

  function FirstBlank(fields: seq<TextField>): Option<ValidationError> {
    if fields == [] then None
    else if fields[0].value == "" then Some(ValidationError(fields[0].name, IsRequired))
    else FirstBlank(fields[1..])
  }

  function FirstInvalid(fields: seq<TextField>): Option<ValidationError> {
    if fields == [] then None
    else if IdentifierError(fields[0]).Some? then IdentifierError(fields[0])
    else FirstInvalid(fields[1..])
  }

  function RouteField(route: Route): TextField {
    TextField("destinations.value", TrimSpace(route.value), 128)
  }

  function RouteError(route: Route): Option<ValidationError> {
    if route.kind == "reply" then Some(ValidationError("destinations.kind", ReplyRoute))
    else if route.kind != "alias" && route.kind != "actor" then Some(ValidationError("destinations.kind", Unsupported))
    else if TrimSpace(route.value) == "" then Some(ValidationError("destinations.value", IsRequired))
    else IdentifierError(RouteField(route))
  }

  function FirstBadRoute(routes: seq<Route>): Option<ValidationError> {
    if routes == [] then None
    else if RouteError(routes[0]).Some? then RouteError(routes[0])
    else FirstBadRoute(routes[1..])
  }

  function ActorField(actor: string): TextField {
    TextField("to_actors", TrimSpace(actor), 128)
  }

  function ActorError(actor: string): Option<ValidationError> {
    IdentifierError(ActorField(actor))
  }

  function FirstBadActor(actors: seq<string>): Option<ValidationError> {
    if actors == [] then None
    else if TrimSpace(actors[0]) != "" && ActorError(actors[0]).Some? then ActorError(actors[0])
    else FirstBadActor(actors[1..])
  }

  function BodyError(json: string -> bool, body: string): Option<ValidationError> {
    if TrimSpace(body) == "null" then Some(ValidationError("body", IsNull))
    else if ByteLength(body) > MAX_BODY then Some(ValidationError("body", TooLong))
    else if !json(body) then Some(ValidationError("body", InvalidJson))
    else None
  }

  predicate Supported(deliveryRequest: string) {
    deliveryRequest in {NON_BLOCKING, "blocking-requested", "wake-requested"}
  }

  function When(wrong: bool, field: string, problem: Problem): Option<ValidationError> {
    if wrong then Some(ValidationError(field, problem)) else None
  }

  function Else(first: Option<ValidationError>, then_: Option<ValidationError>): Option<ValidationError> {
    if first.Some? then first else then_
  }

  /** The error of a trimmed request that the source reports, the first in its order. */
  function FirstError(json: string -> bool, req: SendRequest): Option<ValidationError> {
    Else(FirstBlank(RequiredFields(req)),
    Else(When(ByteLength(req.idempotencyKey) > 256, "idempotency_key", TooLong),
    Else(BodyError(json, req.body),
    Else(FirstInvalid(BoundedFields(req)),
    Else(When(!Supported(req.deliveryRequest), "delivery_request", Unsupported),
    Else(When(req.destinations != [] && req.toActors != [], "destinations", CombinedWithActors),
    Else(When(req.destinations != [] && req.inReplyTo != "", "destinations", CombinedWithReply),
    Else(FirstBadRoute(req.destinations),
    Else(FirstBadActor(req.toActors),
    When(Names(req.toActors) == [] && req.destinations == [] && req.inReplyTo == "",
         "destinations", NoRecipient))))))))))
  }

  function Canonical(req: SendRequest): SendRequest {
    Trimmed(req).(destinations := CanonicalRoutes(req.destinations), toActors := CanonicalActors(req.toActors))
  }

  function Normalized(json: string -> bool, req: SendRequest): Result<SendRequest, ValidationError> {
    match FirstError(json, Trimmed(req))
    case Some(error) => Failure(error)
    case None => Success(Canonical(req))
  }

  // ---------------------------------------------------------------------
  // The loops
  // ---------------------------------------------------------------------

  method ValidateTextIdentifier(field: TextField) returns (error: Option<ValidationError>)
    ensures error == IdentifierError(field)
  {
    if ByteLength(field.value) > field.max {
      return Some(ValidationError(field.name, TooLong));
    }
    for i := 0 to |field.value|
      invariant forall k | 0 <= k < i :: field.value[k] >= '\U{20}' && field.value[k] != '\U{7F}'
    {
      if field.value[i] < '\U{20}' || field.value[i] == '\U{7F}' {
        return Some(ValidationError(field.name, ControlCharacters));
      }
    }
    return None;
  }

  method RequireFields(fields: seq<TextField>) returns (error: Option<ValidationError>)
    ensures error == FirstBlank(fields)
  {
    for i := 0 to |fields|
      invariant FirstBlank(fields) == FirstBlank(fields[i..])
    {
      assert fields[i..][0] == fields[i] && fields[i..][1..] == fields[i + 1..];
      if fields[i].value == "" {
        return Some(ValidationError(fields[i].name, IsRequired));
      }
    }
    return None;
  }

  method ValidateFields(fields: seq<TextField>) returns (error: Option<ValidationError>)
    ensures error == FirstInvalid(fields)
  {
    for i := 0 to |fields|
      invariant FirstInvalid(fields) == FirstInvalid(fields[i..])
    {
      assert fields[i..][0] == fields[i] && fields[i..][1..] == fields[i + 1..];
      error := ValidateTextIdentifier(fields[i]);
      if error.Some? {
        return error;
      }
    }
    return None;
  }

  function Key(route: Route): string {
    route.kind + "\0" + route.value
  }

  lemma KeysTellRoutesApart(a: Route, b: Route)
    requires a.kind in {"alias", "actor"} && b.kind in {"alias", "actor"}
    ensures Key(a) == Key(b) ==> a == b
  {
    if Key(a) == Key(b) {
      assert Key(a)[1] == a.kind[1] && Key(b)[1] == b.kind[1];
      assert a.kind == b.kind;
      assert Key(a)[|a.kind| + 1..] == a.value && Key(b)[|b.kind| + 1..] == b.value;
    }
  }

  lemma SeenKeys(seen: set<string>, routes: seq<Route>, route: Route)
    requires forall r | r in routes :: r.kind in {"alias", "actor"}
    requires route.kind in {"alias", "actor"} && seen == set r | r in routes :: Key(r)
    ensures Key(route) in seen <==> route in routes
    ensures seen + {Key(route)} == set r | r in routes + [route] :: Key(r)
  {
    forall r | r in routes ensures Key(r) == Key(route) ==> r == route {
      KeysTellRoutesApart(r, route);
    }
    assert route in routes + [route];
    forall k | k in seen + {Key(route)} ensures exists r :: r in routes + [route] && k == Key(r) {
      if k in seen {
        var r :| r in routes && k == Key(r);
        assert r in routes + [route];
      }
    }
  }

  method NormalizeRoutes(destinations: seq<Route>) returns (result: Result<seq<Route>, ValidationError>)
    ensures result == match FirstBadRoute(destinations)
                      case Some(error) => Failure(error)
                      case None => Success(CanonicalRoutes(destinations))
  {
    var routeSeen: set<string> := {};
    var routes: seq<Route> := [];
    for i := 0 to |destinations|
      invariant FirstBadRoute(destinations) == FirstBadRoute(destinations[i..])
      invariant routes == Distinct(TrimRoutes(destinations[..i]))
      invariant forall r | r in routes :: r.kind in {"alias", "actor"}
      invariant routeSeen == set r | r in routes :: Key(r)
    {
      assert destinations[i..][0] == destinations[i] && destinations[i..][1..] == destinations[i + 1..];
      assert TrimRoutes(destinations[..i + 1]) == TrimRoutes(destinations[..i]) + [TrimRoute(destinations[i])];
      var route := TrimRoute(destinations[i]);
      DistinctStep(TrimRoutes(destinations[..i]), route);
      if route.kind == "reply" {
        return Failure(ValidationError("destinations.kind", ReplyRoute));
      }
      if route.kind != "alias" && route.kind != "actor" {
        return Failure(ValidationError("destinations.kind", Unsupported));
      }
      if route.value == "" {
        return Failure(ValidationError("destinations.value", IsRequired));
      }
      var error := ValidateTextIdentifier(RouteField(destinations[i]));
      if error.Some? {
        return Failure(error.value);
      }
      SeenKeys(routeSeen, routes, route);
      if Key(route) in routeSeen {
        continue;
      }
      routeSeen := routeSeen + {Key(route)};
      routes := routes + [route];
    }
    assert destinations[..|destinations|] == destinations;
    return Success(Sort(RouteLess, routes));
  }

  method NormalizeRecipients(toActors: seq<string>) returns (result: Result<seq<string>, ValidationError>)
    ensures result == match FirstBadActor(toActors)
                      case Some(error) => Failure(error)
                      case None => Success(Distinct(Names(toActors)))
  {
    var seen: set<string> := {};
    var recipients: seq<string> := [];
    ghost var names: seq<string> := [];
    for i := 0 to |toActors|
      invariant FirstBadActor(toActors) == FirstBadActor(toActors[i..])
      invariant names == Names(toActors[..i]) && recipients == Distinct(names)
      invariant seen == set name | name in recipients
    {
      NextActor(toActors, i);
      var actor := TrimSpace(toActors[i]);
      if actor == "" {
        continue;
      }
      var error := ValidateTextIdentifier(ActorField(toActors[i]));
      if error.Some? {
        return Failure(error.value);
      }
      DistinctStep(names, actor);
      names := names + [actor];
      if actor in seen {
        continue;
      }
      seen := seen + {actor};
      recipients := recipients + [actor];
    }
    assert toActors[..|toActors|] == toActors;
    return Success(recipients);
  }

  lemma NextActor(actors: seq<string>, i: nat)
    requires i < |actors|
    ensures Names(actors[..i + 1]) ==
            Names(actors[..i]) + (if TrimSpace(actors[i]) == "" then [] else [TrimSpace(actors[i])])
    ensures FirstBadActor(actors[i..]) ==
            if TrimSpace(actors[i]) != "" && ActorError(actors[i]).Some? then ActorError(actors[i])
                                          else FirstBadActor(actors[i + 1..])
  {
    assert actors[i..][0] == actors[i] && actors[i..][1..] == actors[i + 1..];
    assert actors[..i + 1] == actors[..i] + [actors[i]];
    NamesStep(actors[..i], actors[i]);
  }

  method NormalizeSendRequest(json: string -> bool, request: SendRequest)
    returns (result: Result<SendRequest, ValidationError>)
    ensures result == Normalized(json, request)
  {
    var req := Trimmed(request);
    var error := RequireFields(RequiredFields(req));
    if error.Some? {
      return Failure(error.value);
    }
    if ByteLength(req.idempotencyKey) > 256 {
      return Failure(ValidationError("idempotency_key", TooLong));
    }
    if TrimSpace(req.body) == "null" {
      return Failure(ValidationError("body", IsNull));
    }
    if ByteLength(req.body) > MAX_BODY {
      return Failure(ValidationError("body", TooLong));
    }
    if !json(req.body) {
      return Failure(ValidationError("body", InvalidJson));
    }
    error := ValidateFields(BoundedFields(req));
    if error.Some? {
      return Failure(error.value);
    }
    if !Supported(req.deliveryRequest) {
      return Failure(ValidationError("delivery_request", Unsupported));
    }
    if |req.destinations| > 0 && |req.toActors| > 0 {
      return Failure(ValidationError("destinations", CombinedWithActors));
    }
    if |req.destinations| > 0 && req.inReplyTo != "" {
      return Failure(ValidationError("destinations", CombinedWithReply));
    }
    var routes := NormalizeRoutes(req.destinations);
    if routes.Failure? {
      return Failure(routes.error);
    }
    var recipients := NormalizeRecipients(req.toActors);
    if recipients.Failure? {
      return Failure(recipients.error);
    }
    ListsKeepTheirKind(request);
    DistinctKeepsElements(Names(req.toActors));
    assert Names(req.toActors) != [] ==> Names(req.toActors)[0] in recipients.value;
    assert recipients.value != [] ==> recipients.value[0] in Names(req.toActors);
    if |recipients.value| == 0 && |routes.value| == 0 && req.inReplyTo == "" {
      return Failure(ValidationError("destinations", NoRecipient));
    }
    return Success(req.(destinations := routes.value, toActors := Sort(Less, recipients.value)));
  }

  // ---------------------------------------------------------------------
  // What normalisation accepts
  // ---------------------------------------------------------------------

  predicate GoodField(field: TextField) {
    ValidIdentifier(field.value, field.max)
  }

  predicate GoodRoute(route: Route) {
    && route.kind in {"alias", "actor"}
    && TrimSpace(route.value) != "" && ValidIdentifier(TrimSpace(route.value), 128)
  }

  predicate GoodActor(actor: string) {
    ValidIdentifier(TrimSpace(actor), 128)
  }

  predicate GoodBody(json: string -> bool, body: string) {
    TrimSpace(body) != "null" && ByteLength(body) <= MAX_BODY && json(body)
  }

  predicate Acceptable(json: string -> bool, req: SendRequest) {
    && (forall f | f in RequiredFields(req) :: f.value != "")
    && (forall f | f in BoundedFields(req) :: GoodField(f))
    && ByteLength(req.idempotencyKey) <= 256
    && GoodBody(json, req.body)
    && Supported(req.deliveryRequest)
    && (req.destinations != [] ==> req.toActors == [] && req.inReplyTo == "")
    && (forall r | r in req.destinations :: GoodRoute(r))
    && (forall a | a in req.toActors :: GoodActor(a))
    && (Names(req.toActors) != [] || req.destinations != [] || req.inReplyTo != "")
  }

  lemma {:induction false} NoBlank(fields: seq<TextField>)
    ensures FirstBlank(fields) == None <==> forall f | f in fields :: f.value != ""
  {
    if fields != [] {
      NoBlank(fields[1..]);
      assert fields == [fields[0]] + fields[1..];
    }
  }

  lemma GoodFieldHasNoError(field: TextField)
    ensures IdentifierError(field) == None <==> GoodField(field)
  {
  }

  lemma {:induction false} NoInvalid(fields: seq<TextField>)
    ensures FirstInvalid(fields) == None <==> forall f | f in fields :: GoodField(f)
  {
    if fields != [] {
      GoodFieldHasNoError(fields[0]);
      NoInvalid(fields[1..]);
      assert fields == [fields[0]] + fields[1..];
    }
  }

  lemma {:induction false} NoBadRoute(routes: seq<Route>)
    ensures FirstBadRoute(routes) == None <==> forall r | r in routes :: GoodRoute(r)
  {
    if routes != [] {
      GoodFieldHasNoError(RouteField(routes[0]));
      assert RouteError(routes[0]) == None <==> GoodRoute(routes[0]);
      NoBadRoute(routes[1..]);
      assert routes == [routes[0]] + routes[1..];
    }
  }

  lemma {:induction false} NoBadActor(actors: seq<string>)
    ensures FirstBadActor(actors) == None <==> forall a | a in actors :: GoodActor(a)
  {
    if actors != [] {
      BlankIsValid();
      GoodFieldHasNoError(ActorField(actors[0]));
      assert TrimSpace(actors[0]) != "" && ActorError(actors[0]).Some? <==> !GoodActor(actors[0]);
      NoBadActor(actors[1..]);
      assert actors == [actors[0]] + actors[1..];
    }
  }

  lemma BlankIsValid()
    ensures ValidIdentifier("", 128)
  {
  }

  /** A request is refused exactly when something in it is wrong; nothing else is. */
  lemma AcceptedExactlyWhenAcceptable(json: string -> bool, req: SendRequest)
    ensures FirstError(json, req) == None <==> Acceptable(json, req)
  {
    NoBlank(RequiredFields(req));
    NoInvalid(BoundedFields(req));
    NoBadRoute(req.destinations);
    NoBadActor(req.toActors);
  }

  // ---------------------------------------------------------------------
  // What normalisation reports
  // ---------------------------------------------------------------------

  predicate HasControl(value: string) {
    exists i | 0 <= i < |value| :: value[i] < ' ' || value[i] == '\U{7F}'
  }

  predicate Misses(name: string, value: string, e: ValidationError) {
    value == "" && e == ValidationError(name, IsRequired)
  }

  predicate Breaks(f: TextField, e: ValidationError) {
    || (ByteLength(f.value) > f.max && e == ValidationError(f.name, TooLong))
    || (HasControl(f.value) && e == ValidationError(f.name, ControlCharacters))
  }

  predicate BreaksBody(json: string -> bool, body: string, e: ValidationError) {
    || (TrimSpace(body) == "null" && e == ValidationError("body", IsNull))
    || (ByteLength(body) > 1_048_576 && e == ValidationError("body", TooLong))
    || (!json(body) && e == ValidationError("body", InvalidJson))
  }

  predicate BreaksRoute(route: Route, e: ValidationError) {
    || (route.kind == "reply" && e == ValidationError("destinations.kind", ReplyRoute))
    || (route.kind != "alias" && route.kind != "actor" && route.kind != "reply"
        && e == ValidationError("destinations.kind", Unsupported))
    || Misses("destinations.value", TrimSpace(route.value), e)
    || Breaks(TextField("destinations.value", TrimSpace(route.value), 128), e)
  }

  predicate MissesAny(req: SendRequest, e: ValidationError) {
    || Misses("idempotency_key", req.idempotencyKey, e) || Misses("project_id", req.projectID, e)
    || Misses("channel_id", req.channelID, e) || Misses("from_actor", req.fromActor, e)
    || Misses("from_run", req.fromRun, e) || Misses("type", req.kind, e)
  }

  predicate BreaksAny(req: SendRequest, e: ValidationError) {
    || Breaks(TextField("project_id", req.projectID, 256), e) || Breaks(TextField("channel_id", req.channelID, 128), e)
    || Breaks(TextField("thread_id", req.threadID, 256), e) || Breaks(TextField("from_actor", req.fromActor, 128), e)
    || Breaks(TextField("from_run", req.fromRun, 256), e) || Breaks(TextField("from_role", req.fromRole, 128), e)
    || Breaks(TextField("type", req.kind, 64), e) || Breaks(TextField("in_reply_to", req.inReplyTo, 128), e)
  }

  /** The trimmed request has this problem, which is looked for at this stage. */
  predicate Shows(json: string -> bool, req: SendRequest, stage: nat, e: ValidationError) {
    match stage
    case 1 => MissesAny(req, e)
    case 2 => ByteLength(req.idempotencyKey) > 256 && e == ValidationError("idempotency_key", TooLong)
    case 3 => BreaksBody(json, req.body, e)
    case 4 => BreaksAny(req, e)
    case 5 =>
      && req.deliveryRequest !in {"non-blocking", "blocking-requested", "wake-requested"}
      && e == ValidationError("delivery_request", Unsupported)
    case 6 => req.destinations != [] && req.toActors != [] && e == ValidationError("destinations", CombinedWithActors)
    case 7 => req.destinations != [] && req.inReplyTo != "" && e == ValidationError("destinations", CombinedWithReply)
    case 8 => exists r | r in req.destinations :: BreaksRoute(r, e)
    case 9 => exists a | a in req.toActors :: Breaks(TextField("to_actors", TrimSpace(a), 128), e)
    case 10 =>
      && req.destinations == [] && req.inReplyTo == "" && (forall a | a in req.toActors :: TrimSpace(a) == "")
      && e == ValidationError("destinations", NoRecipient)
    case _ => false
  }

  /** What the code finds at a stage. */
  function Found(json: string -> bool, req: SendRequest, stage: nat): Option<ValidationError> {
    match stage
    case 1 => FirstBlank(RequiredFields(req))
    case 2 => When(ByteLength(req.idempotencyKey) > 256, "idempotency_key", TooLong)
    case 3 => BodyError(json, req.body)
    case 4 => FirstInvalid(BoundedFields(req))
    case 5 => When(!Supported(req.deliveryRequest), "delivery_request", Unsupported)
    case 6 => When(req.destinations != [] && req.toActors != [], "destinations", CombinedWithActors)
    case 7 => When(req.destinations != [] && req.inReplyTo != "", "destinations", CombinedWithReply)
    case 8 => FirstBadRoute(req.destinations)
    case 9 => FirstBadActor(req.toActors)
    case 10 =>
      When(Names(req.toActors) == [] && req.destinations == [] && req.inReplyTo == "", "destinations", NoRecipient)
    case _ => None
  }

  lemma IdentifierErrorMeans(f: TextField)
    ensures IdentifierError(f).Some? ==> Breaks(f, IdentifierError(f).value)
    ensures IdentifierError(f).None? ==> forall e :: !Breaks(f, e)
  {
  }

  lemma {:induction false} FirstBlankMeans(fields: seq<TextField>)
    ensures FirstBlank(fields).Some? ==> exists f | f in fields :: Misses(f.name, f.value, FirstBlank(fields).value)
    ensures FirstBlank(fields).None? ==> forall f, e | f in fields :: !Misses(f.name, f.value, e)
  {
    if fields != [] {
      FirstBlankMeans(fields[1..]);
      assert fields == [fields[0]] + fields[1..];
    }
  }

  lemma {:induction false} FirstInvalidMeans(fields: seq<TextField>)
    ensures FirstInvalid(fields).Some? ==>
              exists f | f in fields :: Breaks(f, FirstInvalid(fields).value)
    ensures FirstInvalid(fields).None? ==> forall f, e | f in fields :: !Breaks(f, e)
  {
    if fields != [] {
      IdentifierErrorMeans(fields[0]);
      FirstInvalidMeans(fields[1..]);
      assert fields == [fields[0]] + fields[1..];
    }
  }

  lemma RouteErrorMeans(route: Route)
    ensures RouteError(route).Some? ==> BreaksRoute(route, RouteError(route).value)
    ensures RouteError(route).None? ==> forall e :: !BreaksRoute(route, e)
  {
    IdentifierErrorMeans(RouteField(route));
  }

  lemma {:induction false} FirstBadRouteMeans(routes: seq<Route>)
    ensures FirstBadRoute(routes).Some? ==> exists r | r in routes :: BreaksRoute(r, FirstBadRoute(routes).value)
    ensures FirstBadRoute(routes).None? ==> forall r, e | r in routes :: !BreaksRoute(r, e)
  {
    if routes != [] {
      RouteErrorMeans(routes[0]);
      FirstBadRouteMeans(routes[1..]);
      assert routes == [routes[0]] + routes[1..];
    }
  }

  lemma ActorErrorMeans(actor: string)
    ensures ActorError(actor).Some? ==> Breaks(TextField("to_actors", TrimSpace(actor), 128), ActorError(actor).value)
    ensures ActorError(actor).None? ==> forall e :: !Breaks(TextField("to_actors", TrimSpace(actor), 128), e)
    ensures TrimSpace(actor) == "" ==> ActorError(actor).None?
  {
    IdentifierErrorMeans(ActorField(actor));
  }

  lemma {:induction false} FirstBadActorMeans(actors: seq<string>)
    ensures FirstBadActor(actors).Some? ==>
              exists a | a in actors :: Breaks(TextField("to_actors", TrimSpace(a), 128), FirstBadActor(actors).value)
    ensures FirstBadActor(actors).None? ==>
              forall a, e | a in actors :: !Breaks(TextField("to_actors", TrimSpace(a), 128), e)
  {
    if actors != [] {
      ActorErrorMeans(actors[0]);
      FirstBadActorMeans(actors[1..]);
      assert actors == [actors[0]] + actors[1..];
    }
  }

  lemma RequiredMeans(req: SendRequest)
    ensures forall e :: (exists f | f in RequiredFields(req) :: Misses(f.name, f.value, e)) <==> MissesAny(req, e)
  {
    var fields := RequiredFields(req);
    assert fields[0] in fields && fields[1] in fields && fields[2] in fields;
    assert fields[3] in fields && fields[4] in fields && fields[5] in fields;
  }

  lemma BoundedMeans(req: SendRequest)
    ensures forall e :: (exists f | f in BoundedFields(req) :: Breaks(f, e)) <==> BreaksAny(req, e)
  {
    forall e ensures (exists f | f in BoundedFields(req) :: Breaks(f, e)) <==> BreaksAny(req, e) {
      AnyOfEight(BoundedFields(req), f => Breaks(f, e));
    }
  }

  lemma AnyOfEight(fields: seq<TextField>, holds: TextField -> bool)
    requires |fields| == 8
    ensures (exists f | f in fields :: holds(f)) <==>
              || holds(fields[0]) || holds(fields[1]) || holds(fields[2]) || holds(fields[3])
              || holds(fields[4]) || holds(fields[5]) || holds(fields[6]) || holds(fields[7])
  {
    assert fields[0] in fields && fields[1] in fields && fields[2] in fields && fields[3] in fields;
    assert fields[4] in fields && fields[5] in fields && fields[6] in fields && fields[7] in fields;
  }

  lemma NoNames(actors: seq<string>)
    ensures Names(actors) == [] <==> forall a | a in actors :: TrimSpace(a) == ""
  {
    NamesMembers(actors);
    assert Names(actors) != [] ==> Names(actors)[0] in Names(actors);
    if a :| a in actors && TrimSpace(a) != "" {
      assert TrimSpace(a) in Names(actors);
    }
  }

  /** A stage finds a problem that is there, and finds one if there is any. */
  lemma FindsWhatShows(json: string -> bool, req: SendRequest, stage: nat)
    ensures Found(json, req, stage).Some? ==> Shows(json, req, stage, Found(json, req, stage).value)
    ensures Found(json, req, stage).None? ==> forall e :: !Shows(json, req, stage, e)
  {
    if stage == 1 {
      FirstBlankMeans(RequiredFields(req));
      RequiredMeans(req);
    } else if stage == 4 {
      FirstInvalidMeans(BoundedFields(req));
      BoundedMeans(req);
    } else if stage == 8 {
      FirstBadRouteMeans(req.destinations);
    } else if stage == 9 {
      FirstBadActorMeans(req.toActors);
    } else if stage == 10 {
      NoNames(req.toActors);
    }
  }

  /** The reported problem is there, and no stage before it has any; nothing is reported when there is none. */
  lemma ReportsTheEarliestProblem(json: string -> bool, req: SendRequest)
    ensures match FirstError(json, req)
            case None => forall stage, e :: !Shows(json, req, stage, e)
            case Some(error) =>
              exists stage ::
                && Shows(json, req, stage, error)
                && forall earlier, e | earlier < stage :: !Shows(json, req, earlier, e)
  {
    forall stage ensures Found(json, req, stage).Some? ==> Shows(json, req, stage, Found(json, req, stage).value) {
      FindsWhatShows(json, req, stage);
    }
    forall stage, e ensures Found(json, req, stage).None? ==> !Shows(json, req, stage, e) {
      FindsWhatShows(json, req, stage);
    }
    FirstErrorIsFoundFirst(json, req);
  }

  lemma FirstErrorIsFoundFirst(json: string -> bool, req: SendRequest)
    ensures match FirstError(json, req)
            case None => forall stage :: Found(json, req, stage).None?
            case Some(error) =>
              exists stage ::
                && Found(json, req, stage) == Some(error)
                && forall earlier | earlier < stage :: Found(json, req, earlier).None?
  {
    var stage: nat :=
      if Found(json, req, 1).Some? then 1 else if Found(json, req, 2).Some? then 2
      else if Found(json, req, 3).Some? then 3 else if Found(json, req, 4).Some? then 4
      else if Found(json, req, 5).Some? then 5 else if Found(json, req, 6).Some? then 6
      else if Found(json, req, 7).Some? then 7 else if Found(json, req, 8).Some? then 8
      else if Found(json, req, 9).Some? then 9 else if Found(json, req, 10).Some? then 10 else 11;
    assert FirstError(json, req) == Found(json, req, stage);
  }

  // ---------------------------------------------------------------------
  // Laws of the canonical form
  // ---------------------------------------------------------------------

  lemma TrimmedTwice(req: SendRequest)
    ensures Trimmed(Trimmed(req)) == Trimmed(req)
  {
    forall s: string ensures TrimSpace(TrimSpace(s)) == TrimSpace(s) {
      TrimSpaceIsTrimmed(s);
      TrimSpaceIsTrimmed(TrimSpace(s));
    }
  }

  /**
   Routes and recipients come out strictly sorted, without repeats, padding or blanks, and with nothing
   added or lost.
   */
  lemma CanonicalLists(req: SendRequest)
    ensures var c := Canonical(req);
            && Ascending(RouteLess, c.destinations) && SameElements(c.destinations, TrimRoutes(req.destinations))
            && Ascending(Less, c.toActors) && SameElements(c.toActors, Names(req.toActors))
            && NoRepeats(c.destinations) && NoRepeats(c.toActors)
  {
    CanonicalRoutesAreAscending(req.destinations);
    CanonicalActorsAreAscending(req.toActors);
    RouteLessIsTotal();
    LessIsTotal();
    AscendingHasNoRepeats(RouteLess, Canonical(req).destinations);
    AscendingHasNoRepeats(Less, Canonical(req).toActors);
  }

  lemma CanonicalRoutesAreStable(routes: seq<Route>)
    ensures CanonicalRoutes(CanonicalRoutes(routes)) == CanonicalRoutes(routes)
  {
    var once := CanonicalRoutes(routes);
    CanonicalRoutesAreAscending(routes);
    CanonicalRoutesAreAscending(once);
    forall i | 0 <= i < |once| ensures TrimRoutes(once)[i] == once[i] {
      assert once[i] in TrimRoutes(routes);
      var k :| 0 <= k < |routes| && TrimRoutes(routes)[k] == once[i];
      TrimSpaceIsTrimmed(routes[k].value);
      TrimSpaceIsTrimmed(once[i].value);
    }
    assert TrimRoutes(once) == once;
    RouteLessIsTotal();
    AscendingIsUnique(RouteLess, CanonicalRoutes(once), once);
  }

  lemma CanonicalActorsAreStable(actors: seq<string>)
    ensures CanonicalActors(CanonicalActors(actors)) == CanonicalActors(actors)
  {
    var once := CanonicalActors(actors);
    CanonicalActorsAreAscending(actors);
    CanonicalActorsAreAscending(once);
    NamesMembers(actors);
    forall i | 0 <= i < |once| ensures TrimAll(once)[i] == once[i] && once[i] != "" {
      assert once[i] in Names(actors);
      var raw :| raw in actors && TrimSpace(raw) == once[i];
      TrimSpaceIsTrimmed(raw);
      TrimSpaceIsTrimmed(once[i]);
    }
    assert TrimAll(once) == once;
    NonBlankMembers(once);
    LessIsTotal();
    AscendingIsUnique(Less, CanonicalActors(once), once);
  }

  lemma CanonicalIsAcceptable(json: string -> bool, req: SendRequest)
    requires Acceptable(json, Trimmed(req))
    ensures Acceptable(json, Canonical(req))
  {
    var t, c := Trimmed(req), Canonical(req);
    CanonicalLists(req);
    assert RequiredFields(c) == RequiredFields(t) && BoundedFields(c) == BoundedFields(t);
    forall r | r in c.destinations ensures GoodRoute(r) {
      assert r in TrimRoutes(req.destinations);
      var k :| 0 <= k < |req.destinations| && TrimRoutes(req.destinations)[k] == r;
      assert req.destinations[k] in t.destinations && GoodRoute(req.destinations[k]);
      TrimSpaceIsTrimmed(req.destinations[k].value);
      TrimSpaceIsTrimmed(r.value);
    }
    NamesMembers(req.toActors);
    forall a | a in c.toActors ensures GoodActor(a) {
      var raw :| raw in req.toActors && TrimSpace(raw) == a;
      assert raw in t.toActors && GoodActor(raw);
      TrimSpaceIsTrimmed(raw);
      TrimSpaceIsTrimmed(a);
    }
    ListsKeepTheirKind(req);
  }

  /** The canonical lists are empty exactly when there is nothing in the given ones. */
  lemma ListsKeepTheirKind(req: SendRequest)
    ensures var c := Canonical(req);
            && (c.destinations == [] <==> req.destinations == [])
            && (c.toActors == [] <==> Names(req.toActors) == [])
            && (Names(c.toActors) == [] <==> Names(req.toActors) == [])
  {
    var c := Canonical(req);
    CanonicalLists(req);
    CanonicalActorsAreStable(req.toActors);
    CanonicalActorsAreAscending(c.toActors);
    assert req.destinations != [] ==> TrimRoutes(req.destinations)[0] in c.destinations;
    assert c.destinations != [] ==> c.destinations[0] in TrimRoutes(req.destinations);
    assert c.toActors != [] ==> c.toActors[0] in Names(req.toActors);
    assert Names(req.toActors) != [] ==> Names(req.toActors)[0] in c.toActors;
    assert Names(c.toActors) != [] ==> Names(c.toActors)[0] in c.toActors;
    assert c.toActors != [] ==> c.toActors[0] in Names(c.toActors);
  }

  /** Normalising twice is normalising once. */
  lemma {:induction false} NormalizingIsIdempotent(json: string -> bool, req: SendRequest)
    requires Normalized(json, req).Success?
    ensures Normalized(json, Normalized(json, req).value) == Normalized(json, req)
  {
    var c := Canonical(req);
    AcceptedExactlyWhenAcceptable(json, Trimmed(req));
    CanonicalIsAcceptable(json, req);
    TrimmedTwice(req);
    assert Trimmed(c) == Trimmed(Trimmed(req)).(destinations := c.destinations, toActors := c.toActors);
    assert Trimmed(c) == c;
    AcceptedExactlyWhenAcceptable(json, Trimmed(c));
    CanonicalRoutesAreStable(req.destinations);
    CanonicalActorsAreStable(req.toActors);
  }

  predicate SameText(a: string, b: string) {
    TrimSpace(a) == TrimSpace(b)
  }

  predicate SameByDefault(a: string, b: string, default: string) {
    a == b || (a == "" && b == default) || (a == default && b == "")
  }

  /** The same request, its lists aside: padding and spelled-out defaults make no difference. */
  predicate SameFields(a: SendRequest, b: SendRequest) {
    && SameText(a.idempotencyKey, b.idempotencyKey) && SameText(a.projectID, b.projectID)
    && SameText(a.channelID, b.channelID) && SameText(a.threadID, b.threadID)
    && SameText(a.fromActor, b.fromActor) && SameText(a.fromRun, b.fromRun) && SameText(a.fromRole, b.fromRole)
    && SameText(a.kind, b.kind) && SameText(a.inReplyTo, b.inReplyTo)
    && SameByDefault(a.body, b.body, "{}") && SameByDefault(a.deliveryRequest, b.deliveryRequest, NON_BLOCKING)
    && a.expiresAt == b.expiresAt
    && a.requestedToActors == b.requestedToActors && a.requestedRoutes == b.requestedRoutes
  }

  /** The same request: order, repetition and padding of routes and recipients, and padding elsewhere, aside. */
  predicate SameRequest(a: SendRequest, b: SendRequest) {
    && SameFields(a, b)
    && SameElements(TrimRoutes(a.destinations), TrimRoutes(b.destinations))
    && SameElements(Names(a.toActors), Names(b.toActors))
  }

  lemma SameFieldsTrimAlike(a: SendRequest, b: SendRequest)
    ensures SameFields(a, b) <==>
              Trimmed(a).(destinations := [], toActors := []) == Trimmed(b).(destinations := [], toActors := [])
  {
  }

  lemma SameListsHaveOneForm(a: SendRequest, b: SendRequest)
    ensures SameElements(TrimRoutes(a.destinations), TrimRoutes(b.destinations)) <==>
              CanonicalRoutes(a.destinations) == CanonicalRoutes(b.destinations)
    ensures SameElements(Names(a.toActors), Names(b.toActors)) <==>
              CanonicalActors(a.toActors) == CanonicalActors(b.toActors)
  {
    CanonicalLists(a);
    CanonicalLists(b);
    RouteLessIsTotal();
    LessIsTotal();
    if SameElements(TrimRoutes(a.destinations), TrimRoutes(b.destinations)) {
      AscendingIsUnique(RouteLess, CanonicalRoutes(a.destinations), CanonicalRoutes(b.destinations));
    }
    if SameElements(Names(a.toActors), Names(b.toActors)) {
      AscendingIsUnique(Less, CanonicalActors(a.toActors), CanonicalActors(b.toActors));
    }
  }

  lemma SameRequestsHaveOneForm(a: SendRequest, b: SendRequest)
    ensures SameRequest(a, b) <==> Canonical(a) == Canonical(b)
  {
    SameFieldsTrimAlike(a, b);
    SameListsHaveOneForm(a, b);
  }

  /** Two accepted requests have the same canonical form exactly when they are the same request. */
  lemma {:induction false} NormalizedTellsRequestsApart(json: string -> bool, a: SendRequest, b: SendRequest)
    requires Normalized(json, a).Success? && Normalized(json, b).Success?
    ensures Normalized(json, a) == Normalized(json, b) <==> SameRequest(a, b)
  {
    SameRequestsHaveOneForm(a, b);
  }

  lemma SameRequestsAreAcceptable(json: string -> bool, a: SendRequest, b: SendRequest)
    requires SameRequest(a, b) && Acceptable(json, Trimmed(a))
    requires b.destinations != [] ==> b.toActors == []
    ensures Acceptable(json, Trimmed(b))
  {
    var s, t := Trimmed(a), Trimmed(b);
    SameFieldsTrimAlike(a, b);
    assert RequiredFields(s) == RequiredFields(t) && BoundedFields(s) == BoundedFields(t);
    forall r | r in b.destinations ensures GoodRoute(r) {
      var i :| 0 <= i < |b.destinations| && b.destinations[i] == r;
      assert TrimRoutes(b.destinations)[i] in TrimRoutes(a.destinations);
      var k :| 0 <= k < |a.destinations| && TrimRoutes(a.destinations)[k] == TrimRoute(r);
      assert a.destinations[k] in s.destinations && GoodRoute(a.destinations[k]);
    }
    NamesMembers(a.toActors);
    NamesMembers(b.toActors);
    forall x | x in b.toActors ensures GoodActor(x) {
      if TrimSpace(x) == "" {
        BlankIsValid();
      } else {
        assert TrimSpace(x) in Names(a.toActors);
        var y :| y in a.toActors && TrimSpace(y) == TrimSpace(x);
        assert y in s.toActors && GoodActor(y);
      }
    }
    ListsKeepTheirKind(a);
    ListsKeepTheirKind(b);
    SameRequestsHaveOneForm(a, b);
  }

  /**
   The same request as an accepted one gets the identical answer, unless it names destinations along
   with recipients: blank recipients are counted there before they are dropped.
   */
  lemma {:induction false} SameRequestsGetOneAnswer(json: string -> bool, a: SendRequest, b: SendRequest)
    requires SameRequest(a, b) && Normalized(json, a).Success?
    ensures Normalized(json, b) == Normalized(json, a) <==> (b.destinations == [] || b.toActors == [])
  {
    AcceptedExactlyWhenAcceptable(json, Trimmed(a));
    AcceptedExactlyWhenAcceptable(json, Trimmed(b));
    SameRequestsHaveOneForm(a, b);
    if b.destinations == [] || b.toActors == [] {
      SameRequestsAreAcceptable(json, a, b);
    }
  }

  lemma OneLetter(s: string)
    requires s == ['k']
    ensures TrimSpace(s) == s && ByteLength(s) == 1 && forall max: nat | max > 0 :: ValidIdentifier(s, max)
  {
    assert TrimLeft(s) == s && TrimRight(s) == s;
    assert ByteLength(s) == ByteLength(s[..0]) + CharBytes(s[0]);
  }

  function Sample(s: string, toActors: seq<string>): SendRequest {
    SendRequest(s, s, s, s, s, s, s, toActors, [Route("actor", s)], s, NON_BLOCKING, "", "{}", None, [], [])
  }

  lemma EmptyObjectIsGood(json: string -> bool, body: string)
    requires body == "{}" && json(body)
    ensures GoodBody(json, body)
  {
    assert TrimLeft(body) == body && TrimRight(body) == body;
    assert ByteLength(body) == ByteLength(body[..1]) + 1 && ByteLength(body[..1]) == ByteLength(body[..1][..0]) + 1;
  }

  lemma SampleFieldsAreGood(s: string, a: SendRequest)
    requires s == ['k'] && a == Sample(s, [])
    ensures forall f | f in RequiredFields(a) :: f.value != ""
    ensures forall f | f in BoundedFields(a) :: GoodField(f)
  {
    OneLetter(s);
    var none: string := "";
    assert ByteLength(none) == 0 && ValidIdentifier(none, 128);
    forall f | f in BoundedFields(a) ensures GoodField(f) {
      assert f.value == s || (f.value == none && f.max == 128);
    }
  }

  lemma SampleIsAcceptable(json: string -> bool, s: string)
    requires s == ['k'] && json("{}")
    ensures Trimmed(Sample(s, [])) == Sample(s, [])
    ensures Acceptable(json, Sample(s, []))
  {
    OneLetter(s);
    var none: string := "";
    assert TrimSpace(none) == none;
    var a := Sample(s, []);
    SampleFieldsAreGood(s, a);
    EmptyObjectIsGood(json, a.body);
    assert GoodRoute(a.destinations[0]);
  }

  /**
   The exception occurs, for every decoder that takes the empty object: one blank recipient beside a
   destination turns an accepted request into a refused one.
   */
  lemma {:induction false} BlankRecipientBesideDestination(json: string -> bool)
    requires json("{}")
    ensures var a, b := Sample("k", []), Sample("k", [" "]);
            SameRequest(a, b) && Normalized(json, a).Success? && Normalized(json, b).Failure?
  {
    var a, b := Sample("k", []), Sample("k", [" "]);
    SampleIsAcceptable(json, "k");
    var blank: string := " ";
    assert TrimLeft(blank) == TrimLeft(blank[1..]) == [];
    NamesStep([], blank);
    assert [] + [blank] == b.toActors;
    AcceptedExactlyWhenAcceptable(json, Trimmed(a));
    AcceptedExactlyWhenAcceptable(json, Trimmed(b));
  }
}
