/**
 The webhook buffer's store and its two request handlers, as values.

 A `State` is the pair of maps the server keeps in memory: the payloads
 received for each identifier, in arrival order, and the time of the last
 successful ingest for each identifier. `Webhook` and `GetData` give the
 response and the new state of one request; `Run` folds a sequence of
 requests over a state. The class in module Server is proved to behave
 exactly as these functions say.
 */
module Store {

  /** A received body: the encoded JSON value the handler binds, never interpreted. */
  type Payload = seq<bv8>

  /** The idle window: ten minutes, in nanoseconds (the unit of a Go duration). */
  const StaleAfter: int := 10 * 60 * 1_000_000_000

  datatype Option<T> = None | Some(value: T)

  /** The HTTP statuses a handler can answer with. */
  datatype Status = Ok | BadRequest | Unauthorized | NotFound
  {
    function Code(): int {
      match this
      case Ok => 200
      case BadRequest => 400
      case Unauthorized => 401
      case NotFound => 404
    }
  }

  /** What a handler sends back: a status and, for a successful read, the payloads. */
  datatype Response = Response(status: Status, items: seq<Payload>)

  datatype State = State(data: map<string, seq<Payload>>, lastUpdatedAt: map<string, int>)
  {
    /** Both maps know the same identifiers. */
    predicate Valid() {
      data.Keys == lastUpdatedAt.Keys
    }
  }

  /** A handler's response together with the store it leaves behind. */
  datatype Outcome = Outcome(response: Response, state: State)

  /** One request to either endpoint; `body` is None when it does not parse as JSON. */
  datatype Request =
    | PostWebhook(key: string, id: string, body: Option<Payload>, now: int)
    | GetRequest(key: string, id: string, now: int)

  /** The store the process starts with. */
  function Empty(): State {
    State(map[], map[])
  }

  /** `a` and `b` agree on every identifier other than `id`. */
  ghost predicate SameElsewhere<V>(a: map<string, V>, b: map<string, V>, id: string) {
    forall k :: k != id ==> (k in a <==> k in b) && (k in a ==> a[k] == b[k])
  }

  /** The last ingest for `id` lies strictly more than ten minutes before `now`. */
  predicate IsStale(lastUpdatedAt: map<string, int>, id: string, now: int) {
    id in lastUpdatedAt && now - lastUpdatedAt[id] > StaleAfter
  }

  /** What reading `data[id]` gives: a missing identifier reads as the empty list. */
  function Items(data: map<string, seq<Payload>>, id: string): seq<Payload> {
    if id in data then data[id] else []
  }

  /** The lazy expiry both handlers run first: a stale identifier's list is reset, its key kept. */
  function ClearIfStale(s: State, id: string, now: int): (t: State)
    ensures t.lastUpdatedAt == s.lastUpdatedAt
    ensures SameElsewhere(t.data, s.data, id)
    ensures id in s.lastUpdatedAt && now - s.lastUpdatedAt[id] <= StaleAfter ==> t == s
    ensures id !in s.lastUpdatedAt ==> t == s
    ensures id in s.lastUpdatedAt && now - s.lastUpdatedAt[id] > StaleAfter ==>
              id in t.data && t.data[id] == []
    ensures s.Valid() ==> t.Valid() && t.data.Keys == s.data.Keys
  {
    if IsStale(s.lastUpdatedAt, id, now) then State(s.data[id := []], s.lastUpdatedAt) else s
  }

  /** The ingest endpoint: key check, id check, expiry, JSON check, append. */
  function Webhook(apiKey: string, s: State, key: string, id: string, body: Option<Payload>, now: int): (r: Outcome)
    ensures r.response.items == []
    ensures r.response.status.Code() in {200, 400, 401}
    ensures r.response.status == Unauthorized <==> key != apiKey
    ensures r.response.status == BadRequest <==> key == apiKey && (id == "" || body.None?)
    ensures r.response.status == Ok <==> key == apiKey && id != "" && body.Some?
    ensures key != apiKey || id == "" ==> r.state == s
    ensures r.response.status != Ok ==> r.state.lastUpdatedAt == s.lastUpdatedAt
    ensures r.response.status == BadRequest && id != "" ==> r.state == ClearIfStale(s, id, now)
    ensures r.response.status == Ok ==>
              && r.state.lastUpdatedAt == s.lastUpdatedAt[id := now]
              && id in r.state.data
              && r.state.data[id] == Items(ClearIfStale(s, id, now).data, id) + [body.value]
    ensures SameElsewhere(r.state.data, s.data, id)
    ensures SameElsewhere(r.state.lastUpdatedAt, s.lastUpdatedAt, id)
    ensures s.Valid() ==> r.state.Valid()
    ensures s.Valid() ==>
              r.state.data.Keys == s.data.Keys + (if r.response.status == Ok then {id} else {})
  {
    if key != apiKey then Outcome(Response(Unauthorized, []), s)
    else if id == "" then Outcome(Response(BadRequest, []), s)
    else
      var t := ClearIfStale(s, id, now);
      match body
      case None => Outcome(Response(BadRequest, []), t)
      case Some(p) =>
        Outcome(Response(Ok, []), State(t.data[id := Items(t.data, id) + [p]], t.lastUpdatedAt[id := now]))
  }

  /** The read endpoint: key check, id check, expiry, lookup. */
  function GetData(apiKey: string, s: State, key: string, id: string, now: int): (r: Outcome)
    ensures r.state.lastUpdatedAt == s.lastUpdatedAt
    ensures r.response.status == Unauthorized <==> key != apiKey
    ensures r.response.status == BadRequest <==> key == apiKey && id == ""
    ensures key != apiKey || id == "" ==> r.state == s
    ensures key == apiKey && id != "" ==> r.state == ClearIfStale(s, id, now)
    ensures r.response.status != Ok ==> r.response.items == []
    ensures r.response.status == Ok ==> id in r.state.data && r.response.items == r.state.data[id]
    ensures r.response.status == NotFound <==> key == apiKey && id != "" && id !in r.state.data
    ensures SameElsewhere(r.state.data, s.data, id)
    ensures s.Valid() ==> r.state.Valid() && r.state.data.Keys == s.data.Keys
    ensures s.Valid() && key == apiKey && id != "" ==>
              (r.response.status == NotFound <==> id !in s.lastUpdatedAt)
  {
    if key != apiKey then Outcome(Response(Unauthorized, []), s)
    else if id == "" then Outcome(Response(BadRequest, []), s)
    else
      var t := ClearIfStale(s, id, now);
      if id !in t.data then Outcome(Response(NotFound, []), t)
      else Outcome(Response(Ok, t.data[id]), t)
  }

  /** A webhook request that the server accepts and appends for `id`. */
  predicate Accepted(apiKey: string, req: Request, id: string) {
    req.PostWebhook? && req.key == apiKey && req.id == id && id != "" && req.body.Some?
  }

  /** One request, dispatched to its endpoint. */
  function Handle(apiKey: string, s: State, req: Request): (r: Outcome)
    ensures s.Valid() ==> r.state.Valid()
    ensures s.Valid() ==>
              r.state.data.Keys == s.data.Keys + (if Accepted(apiKey, req, req.id) then {req.id} else {})
    ensures r.response.status == Ok && req.PostWebhook? <==> Accepted(apiKey, req, req.id)
    ensures req.GetRequest? ==> r.state.lastUpdatedAt == s.lastUpdatedAt
    ensures SameElsewhere(r.state.data, s.data, req.id)
    ensures SameElsewhere(r.state.lastUpdatedAt, s.lastUpdatedAt, req.id)
  {
    match req
    case PostWebhook(key, id, body, now) => Webhook(apiKey, s, key, id, body, now)
    case GetRequest(key, id, now) => GetData(apiKey, s, key, id, now)
  }

  /** The store after serving `reqs` one at a time, in order. */
  function Run(apiKey: string, s: State, reqs: seq<Request>): State
    decreases |reqs|
  {
    if reqs == [] then s
    else Handle(apiKey, Run(apiKey, s, reqs[..|reqs| - 1]), reqs[|reqs| - 1]).state
  }

  /** The requests in `reqs` addressed to `id`, in order. */
  function Touching(reqs: seq<Request>, id: string): seq<Request>
    decreases |reqs|
  {
    if reqs == [] then []
    else
      var last := reqs[|reqs| - 1];
      Touching(reqs[..|reqs| - 1], id) + (if last.id == id then [last] else [])
  }

  /** The payloads of the webhook requests in `reqs` that the server accepts, in order. */
  function Bodies(apiKey: string, reqs: seq<Request>): seq<Payload>
    decreases |reqs|
  {
    if reqs == [] then []
    else
      var last := reqs[|reqs| - 1];
      Bodies(apiKey, reqs[..|reqs| - 1]) + (if Accepted(apiKey, last, last.id) then [last.body.value] else [])
  }

  /** The time of the last accepted webhook in `reqs`; 0 when there is none. */
  function Stamp(apiKey: string, reqs: seq<Request>): int
    decreases |reqs|
  {
    if reqs == [] then 0
    else
      var last := reqs[|reqs| - 1];
      if Accepted(apiKey, last, last.id) then last.now else Stamp(apiKey, reqs[..|reqs| - 1])
  }
}
