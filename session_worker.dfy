/** The session worker (workers/session-api.mjs; workers/session-api.js is the same
    worker without the Google routes). Every handler reads one record from the
    SESSIONS_KV namespace, transforms it, and writes it back. The clock
    (`Date.now()`) and `crypto.randomUUID()` are parameters. */
module SessionWorker {
  import opened Base
  import opened Types
  import opened Paths
  import opened SessionLogic

  /** The SESSIONS_KV namespace. `writes` logs the key of every `put`, so that
      "nothing is written" can be told apart from "the same value is written". */
  class SessionsKv {
    var records: map<string, GroupSession>
    ghost var writes: seq<string>

    constructor (initial: map<string, GroupSession>)
      ensures records == initial && writes == []
    {
      records := initial;
      writes := [];
    }

    method Get(key: string) returns (r: Option<GroupSession>)
      ensures r == if key in records then Some(records[key]) else None
    {
      r := if key in records then Some(records[key]) else None;
    }

    method Put(key: string, value: GroupSession)
      modifies this
      ensures records == old(records)[key := value]
      ensures writes == old(writes) + [key]
    {
      records := records[key := value];
      writes := writes + [key];
    }

    method Delete(key: string)
      modifies this
      ensures records == old(records) - {key}
      ensures writes == old(writes)
    {
      records := records - {key};
    }
  }

  /** Every record is stored under its own id. */
  ghost predicate WellKeyed(records: map<string, GroupSession>) {
    forall k :: k in records ==> records[k].id == k
  }

  /** Every stored session satisfies the bookkeeping invariant. */
  ghost predicate AllValid(records: map<string, GroupSession>) {
    forall k :: k in records ==> SessionValid(records[k])
  }

  // ---------------------------------------------------------------------------
  // Requests and responses (JSON framing and CORS headers are not modelled)

  datatype HttpMethod = GET | POST | PUT | DELETE | OPTIONS | OtherMethod

  /** The handler a request reaches. The Google routes are classified but are
      network calls outside this model. */
  datatype Endpoint =
    | Preflight
    | CreateSession
    | ListSessions
    | GetSession(id: string)
    | UpdateSession(id: string)
    | DeleteSession(id: string)
    | Vote
    | AddRestaurant
    | Geocode
    | PlacesNearby
    | SearchRestaurants
    | Autocomplete
    | NoRoute
  {
    predicate IsGoogle() {
      Geocode? || PlacesNearby? || SearchRestaurants? || Autocomplete?
    }
  }

  /** The body of a reply: a session, `{ error }`, `{ success: true }`, or the
      `{ error: error.message }` of the catch-all (whose text is not modelled). */
  datatype Body = SessionBody(session: GroupSession) | ErrorBody(error: string) | SuccessBody | ExceptionBody

  datatype Response = Response(status: int, body: Body)

  const SessionNotFound: Response := Response(404, ErrorBody("Session not found"))
  const MissingParameters: Response := Response(400, ErrorBody("Missing required parameters"))
  const Internal: Response := Response(500, ExceptionBody)

  /** The fields of a /vote body. A missing or empty string is "". A missing
      `isUpvote` is falsy and counts as a downvote. */
  datatype VoteRequest = VoteRequest(sessionId: string, restaurantId: string, userId: UserId, isUpvote: bool)

  /** The fields of an /add-restaurant body. */
  datatype AddRestaurantRequest = AddRestaurantRequest(sessionId: string, restaurant: Option<Restaurant>)

  // ---------------------------------------------------------------------------
  // Routing

  /** The if/else chain of workers/session-api.mjs: a preflight answers any path;
      `/sessions/...` serves GET, PUT and DELETE on its third segment; the exact
      paths serve their own method only; anything else is unrouted. */
  function MjsRoute(m: HttpMethod, path: string): (r: Endpoint)
    ensures m == OPTIONS <==> r == Preflight
    ensures r.GetSession? <==> m == GET && StartsWith(path, "/sessions/")
    ensures r.UpdateSession? <==> m == PUT && StartsWith(path, "/sessions/")
    ensures r.DeleteSession? <==> m == DELETE && StartsWith(path, "/sessions/")
    ensures r.GetSession? || r.UpdateSession? || r.DeleteSession? ==> r.id == ThirdSegment(path)
    ensures r == CreateSession <==> m == POST && path == "/sessions"
    ensures r == Vote <==> m == POST && path == "/vote"
    ensures r == AddRestaurant <==> m == POST && path == "/add-restaurant"
  {
    if m == OPTIONS then Preflight
    else if path == "/geocode" then (if m == GET || m == POST then Geocode else NoRoute)
    else if path == "/sessions" && m == POST then CreateSession
    else if path == "/sessions" && m == GET then ListSessions
    else if StartsWith(path, "/sessions/") && m == GET then GetSession(ThirdSegment(path))
    else if StartsWith(path, "/sessions/") && m == PUT then UpdateSession(ThirdSegment(path))
    else if StartsWith(path, "/sessions/") && m == DELETE then DeleteSession(ThirdSegment(path))
    else if path == "/vote" && m == POST then Vote
    else if path == "/add-restaurant" && m == POST then AddRestaurant
    else if path == "/places/nearby" && m == POST then PlacesNearby
    else if path == "/restaurants" && m == GET then SearchRestaurants
    else if path == "/autocomplete" && m == GET then Autocomplete
    else NoRoute
  }

  /** The if/else chain of workers/session-api.js: the session routes of the
      module worker and no Google route. */
  function JsRoute(m: HttpMethod, path: string): (r: Endpoint)
    ensures !r.IsGoogle()
    ensures m == OPTIONS <==> r == Preflight
    ensures r.GetSession? <==> m == GET && StartsWith(path, "/sessions/")
    ensures r.GetSession? || r.UpdateSession? || r.DeleteSession? ==> r.id == ThirdSegment(path)
    ensures r == CreateSession <==> m == POST && path == "/sessions"
    ensures r == Vote <==> m == POST && path == "/vote"
  {
    if m == OPTIONS then Preflight
    else if path == "/sessions" && m == POST then CreateSession
    else if path == "/sessions" && m == GET then ListSessions
    else if StartsWith(path, "/sessions/") && m == GET then GetSession(ThirdSegment(path))
    else if StartsWith(path, "/sessions/") && m == PUT then UpdateSession(ThirdSegment(path))
    else if StartsWith(path, "/sessions/") && m == DELETE then DeleteSession(ThirdSegment(path))
    else if path == "/vote" && m == POST then Vote
    else if path == "/add-restaurant" && m == POST then AddRestaurant
    else NoRoute
  }

  /** The two workers route every request alike, except that the Google routes of
      the module worker fall through to 404 in the plain one. */
  lemma RoutesAgree(m: HttpMethod, path: string)
    ensures JsRoute(m, path) == if MjsRoute(m, path).IsGoogle() then NoRoute else MjsRoute(m, path)
  {
    if path == "/geocode" {
      assert !StartsWith(path, "/sessions/");
    }
  }

  /** A path under `/sessions/` whose third segment is `id`. */
  lemma SessionIdPath(id: string, rest: string)
    requires '/' !in id
    ensures StartsWith("/sessions/" + id, "/sessions/")
    ensures ThirdSegment("/sessions/" + id) == id
    ensures StartsWith("/sessions/" + id + "/" + rest, "/sessions/")
    ensures ThirdSegment("/sessions/" + id + "/" + rest) == id
  {
    var p := "/sessions/" + id;
    assert p == "/" + "sessions" + "/" + id;
    assert p[..10] == "/sessions/";
    ThirdSegmentUnder("sessions", id);
    UpToSlashOf(id, rest);
    var q := "/sessions/" + id + "/" + rest;
    assert q == "/" + "sessions" + "/" + (id + "/" + rest);
    assert q[..10] == "/sessions/";
    ThirdSegmentUnder("sessions", id + "/" + rest);
  }

  /** `/sessions/{id}` reaches GET/PUT/DELETE with the id read back from the path,
      whatever follows a further slash. */
  lemma SessionPathRoutes(id: string, rest: string)
    requires '/' !in id
    ensures var p := "/sessions/" + id;
            && MjsRoute(GET, p) == GetSession(id)
            && MjsRoute(PUT, p) == UpdateSession(id)
            && MjsRoute(DELETE, p) == DeleteSession(id)
    ensures var q := "/sessions/" + id + "/" + rest;
            && MjsRoute(GET, q) == GetSession(id)
            && MjsRoute(PUT, q) == UpdateSession(id)
            && MjsRoute(DELETE, q) == DeleteSession(id)
  {
    SessionIdPath(id, rest);
    var p := "/sessions/" + id;
    var q := "/sessions/" + id + "/" + rest;
    assert |p| >= 10 && |q| >= 10;
    assert p != "/geocode" && p != "/sessions";
    assert q != "/geocode" && q != "/sessions";
  }

  // ---------------------------------------------------------------------------
  // Handlers

  /** POST /sessions: store `createSession(body.name)` under its fresh id. The
      body's other fields (a roster, say) are ignored. */
  method HandleCreate(kv: SessionsKv, name: string, freshId: string, now: int) returns (resp: Response)
    modifies kv
    ensures var s := NewSession(freshId, name, now);
            && resp == Response(200, SessionBody(s))
            && kv.records == old(kv.records)[freshId := s]
            && kv.writes == old(kv.writes) + [freshId]
    ensures WellKeyed(old(kv.records)) ==> WellKeyed(kv.records)
    ensures AllValid(old(kv.records)) ==> AllValid(kv.records)
  {
    var session := NewSession(freshId, name, now);
    kv.Put(session.id, session);
    resp := Response(200, SessionBody(session));
  }

  /** GET /sessions/{id}: the stored record, or 404. Reads only. */
  method HandleGet(kv: SessionsKv, id: string) returns (resp: Response)
    ensures id in kv.records ==> resp == Response(200, SessionBody(kv.records[id]))
    ensures id !in kv.records ==> resp == SessionNotFound
  {
    var data := kv.Get(id);
    if data.None? {
      return SessionNotFound;
    }
    resp := Response(200, SessionBody(data.value));
  }

  /** PUT /sessions/{id}: 404 for an absent key; otherwise merge the truthy fields,
      refresh the expiry and write the result under the path id. */
  method HandleUpdate(kv: SessionsKv, id: string, body: SessionPatch, now: int) returns (resp: Response)
    modifies kv
    ensures id !in old(kv.records) ==>
              resp == SessionNotFound && kv.records == old(kv.records) && kv.writes == old(kv.writes)
    ensures id in old(kv.records) ==>
              var s := ApplyPatch(old(kv.records)[id], body, now);
              && resp == Response(200, SessionBody(s))
              && kv.records == old(kv.records)[id := s]
              && kv.writes == old(kv.writes) + [id]
    ensures WellKeyed(old(kv.records)) ==> WellKeyed(kv.records)
    ensures AllValid(old(kv.records)) && body.restaurants.None? && body.votes.None? ==> AllValid(kv.records)
  {
    var data := kv.Get(id);
    if data.None? {
      return SessionNotFound;
    }
    var session := data.value;
    if body.name != "" {
      session := session.(name := body.name);
    }
    if body.restaurants.Some? {
      session := session.(restaurants := body.restaurants.value);
    }
    if body.votes.Some? {
      session := session.(votes := body.votes.value);
    }
    session := session.(expires := now + SessionExpiryMs);
    kv.Put(id, session);
    resp := Response(200, SessionBody(session));
  }

  /** DELETE /sessions/{id}: remove the key and report success, present or not. */
  method HandleDelete(kv: SessionsKv, id: string) returns (resp: Response)
    modifies kv
    ensures resp == Response(200, SuccessBody)
    ensures kv.records == old(kv.records) - {id}
    ensures id !in kv.records
    ensures kv.writes == old(kv.writes)
    ensures WellKeyed(old(kv.records)) ==> WellKeyed(kv.records)
    ensures AllValid(old(kv.records)) ==> AllValid(kv.records)
  {
    kv.Delete(id);
    resp := Response(200, SuccessBody);
  }

  /** All three ids of a vote are present (truthy). */
  predicate VoteParamsPresent(req: VoteRequest) {
    req.sessionId != "" && req.restaurantId != "" && req.userId != ""
  }

  /** POST /vote: 400 on a missing id, 404 on an unknown session, 500 when the tally
      holds a bare count; otherwise the recast session is written back. */
  method HandleVote(kv: SessionsKv, req: VoteRequest) returns (resp: Response)
    modifies kv
    ensures !VoteParamsPresent(req) ==>
              resp == MissingParameters && kv.records == old(kv.records) && kv.writes == old(kv.writes)
    ensures VoteParamsPresent(req) && req.sessionId !in old(kv.records) ==>
              resp == SessionNotFound && kv.records == old(kv.records) && kv.writes == old(kv.writes)
    ensures VoteParamsPresent(req) && req.sessionId in old(kv.records) ==>
              match CastVote(old(kv.records)[req.sessionId], req.restaurantId, req.userId, req.isUpvote)
              case TypeError =>
                resp == Internal && kv.records == old(kv.records) && kv.writes == old(kv.writes)
              case Ok(s) =>
                && resp == Response(200, SessionBody(s))
                && kv.records == old(kv.records)[req.sessionId := s]
                && kv.writes == old(kv.writes) + [req.sessionId]
    ensures WellKeyed(old(kv.records)) ==> WellKeyed(kv.records)
    ensures AllValid(old(kv.records)) ==> AllValid(kv.records)
  {
    if !VoteParamsPresent(req) {
      return MissingParameters;
    }
    var data := kv.Get(req.sessionId);
    if data.None? {
      return SessionNotFound;
    }
    var outcome := ApplyVote(data.value, req.restaurantId, req.userId, req.isUpvote);
    if outcome.TypeError? {
      return Internal;
    }
    CastVotePreservesValidWhen(data.value, req.restaurantId, req.userId, req.isUpvote);
    kv.Put(req.sessionId, outcome.value);
    resp := Response(200, SessionBody(outcome.value));
  }

  /** The invariant-preservation fact in the shape the handler needs it. */
  lemma CastVotePreservesValidWhen(s: GroupSession, restaurantId: string, userId: UserId, isUpvote: bool)
    requires CastVote(s, restaurantId, userId, isUpvote).Ok?
    ensures SessionValid(s) ==> SessionValid(CastVote(s, restaurantId, userId, isUpvote).value)
  {
    if SessionValid(s) {
      CastVotePreservesValid(s, restaurantId, userId, isUpvote);
    }
  }

  /** POST /add-restaurant: 400 without a session id or restaurant, 404 on an unknown
      session; a new id is appended and written with a fresh expiry, a known one
      returns the stored session and writes nothing. */
  method HandleAddRestaurant(kv: SessionsKv, req: AddRestaurantRequest, now: int) returns (resp: Response)
    modifies kv
    ensures req.sessionId == "" || req.restaurant.None? ==>
              resp == MissingParameters && kv.records == old(kv.records) && kv.writes == old(kv.writes)
    ensures req.sessionId != "" && req.restaurant.Some? && req.sessionId !in old(kv.records) ==>
              resp == SessionNotFound && kv.records == old(kv.records) && kv.writes == old(kv.writes)
    ensures req.sessionId != "" && req.restaurant.Some? && req.sessionId in old(kv.records) ==>
              var s := old(kv.records)[req.sessionId];
              var s' := SessionLogic.AddRestaurant(s, req.restaurant.value, now);
              && resp == Response(200, SessionBody(s'))
              && (if HasRestaurant(s.restaurants, req.restaurant.value.id)
                  then kv.records == old(kv.records) && kv.writes == old(kv.writes)
                  else kv.records == old(kv.records)[req.sessionId := s']
                       && kv.writes == old(kv.writes) + [req.sessionId])
    ensures WellKeyed(old(kv.records)) ==> WellKeyed(kv.records)
    ensures AllValid(old(kv.records)) ==> AllValid(kv.records)
  {
    if req.sessionId == "" || req.restaurant.None? {
      return MissingParameters;
    }
    var data := kv.Get(req.sessionId);
    if data.None? {
      return SessionNotFound;
    }
    var session := data.value;
    var restaurant := req.restaurant.value;
    AddRestaurantProps(session, restaurant, now, now);
    if !HasRestaurant(session.restaurants, restaurant.id) {
      session := session.(restaurants := session.restaurants + [restaurant]);
      session := session.(expires := now + SessionExpiryMs);
      kv.Put(req.sessionId, session);
    }
    resp := Response(200, SessionBody(session));
  }

  // ---------------------------------------------------------------------------
  // Scenarios: what a caller can conclude from the contracts alone

  /** Deleting a session and fetching it again gives 404, and deleting twice
      reports success both times. */
  method DeleteThenGet(kv: SessionsKv, id: string) returns (first: Response, second: Response, fetched: Response)
    modifies kv
    ensures first == second == Response(200, SuccessBody)
    ensures fetched == SessionNotFound
    ensures kv.records == old(kv.records) - {id}
  {
    first := HandleDelete(kv, id);
    second := HandleDelete(kv, id);
    fetched := HandleGet(kv, id);
  }

  /** Create "Lunch", add restaurant `r` twice: the roster has one entry and only
      the first add writes. */
  method AddTwiceScenario(kv: SessionsKv, freshId: string, r: Restaurant, now: int, later: int)
    returns (resp: Response)
    requires freshId != ""
    modifies kv
    ensures resp.status == 200 && resp.body.SessionBody?
    ensures resp.body.session.restaurants == [r]
    ensures kv.writes == old(kv.writes) + [freshId, freshId]
  {
    var created := HandleCreate(kv, "Lunch", freshId, now);
    var req := AddRestaurantRequest(freshId, Some(r));
    var once := HandleAddRestaurant(kv, req, now);
    assert HasRestaurant(kv.records[freshId].restaurants, r.id) by {
      assert RosterIds([r]) == [r.id];
    }
    resp := HandleAddRestaurant(kv, req, later);
  }
}
