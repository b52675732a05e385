# Webhook ingestion buffer, modelled in Dafny

The system is a small HTTP server. `POST /webhook/{id}?api_key=…` stores a JSON
payload for an identifier. `GET /get_data/{id}?api_key=…` returns every payload
stored for that identifier, in arrival order. Both endpoints check a shared
secret. The secret is configured at start-up, and the server refuses to start
without one. Storage expires lazily: if more than ten minutes have passed since
an identifier's last successful ingest, its list is reset to empty the next
time a request with the right key for that identifier reaches the store. The
identifier itself stays known.

The model has three modules:

- `Store` (store.dfy) holds the value-level model. `State` pairs the two maps
  of the Go `DataStore`: `data` (identifier to payload list) and
  `lastUpdatedAt` (identifier to time of last ingest). `ClearIfStale` is the
  lazy expiry. `Webhook` and `GetData` give one request's response and the new
  state, with the same early-return order as the handlers. `Handle` dispatches
  one request. `Run` serves a sequence of requests.
- `Server` (server.dfy) holds the class `DataStore`. It keeps the configured
  key and the two maps as fields, and its handler methods update those maps in
  place. Each method is proved to produce exactly the response and new state
  of the matching `Store` function. The class invariant is that the key is
  non-empty and that both maps have the same key set.
- `Properties` (properties.dfy) holds lemmas about single requests and about
  sequences of requests.

Times are integers in nanoseconds, the unit of a Go duration. The window
`StaleAfter` is 600 000 000 000 ns (ten minutes). The staleness test is strict:
an ingest exactly ten minutes old is still fresh. A payload is the encoded JSON
value the handler binds (`seq<bv8>`), never interpreted. Whether the body parses
as JSON is an input: `body` is `None` when parsing fails.

Two consequences of the code's order and updates:

- The stale-clear (main.go:44-46) runs before the JSON check (main.go:49-52),
  so a malformed request can still wipe stale data
  (`Properties.MalformedBodyStillClears`).
- The two maps always have exactly the same keys (`State.Valid`,
  `Properties.RunValid`, `Server.DataStore.Valid`).

## Model

| member | source | states |
|---|---|---|
| Store.ClearIfStale | main.go:44-46 | Timestamps are never changed. Other identifiers are untouched. When the last ingest is at most 10 minutes old, or the id has no timestamp, nothing changes. When it is strictly more than 10 minutes old, the id stays present with an empty list. The two maps keep the same key set. |
| Store.Webhook | main.go:28-58 | Answers only 200, 400 or 401, never 404. 401 if and only if the key is wrong. 400 if and only if the key is right and the id is empty or the body is not JSON. 200 if and only if the key is right, the id is non-empty and the body parsed. A wrong key or an empty id leaves the state unchanged. A bad body leaves the post-clear state. On success, the list for `id` is the post-clear list with the payload appended at the end, and `lastUpdatedAt[id] = now`. Other identifiers are unchanged. The two maps keep the same key set, and `id` is added to it only on success. |
| Store.GetData | main.go:60-87 | Never changes `lastUpdatedAt`. 401 if and only if the key is wrong. 400 if and only if the key is right and the id is empty. A wrong key or an empty id leaves the state unchanged. Otherwise the new state is the post-clear state. 404 if and only if the id is absent, which on a valid store means it has no timestamp. 200 returns exactly the stored list. Other identifiers are unchanged. The key set is kept. |
| Store.Handle | main.go:96-97 | Routes a request to its endpoint. Only an accepted webhook adds an identifier. A read never changes timestamps. The maps keep the same key set. Entries of identifiers other than the request's are unchanged. |
| Server.DataStore.constructor | main.go:20-25 | Start-up needs a non-empty key and begins with both maps empty. |
| Server.DataStore.Webhook | main.go:28-58 | Updates the fields in place to exactly the response and state `Store.Webhook` gives. Keeps the class invariant. The timestamp changes only on 200. |
| Server.DataStore.GetData | main.go:60-87 | Updates the fields in place to exactly the response, items and state `Store.GetData` gives. Keeps the class invariant. Never changes timestamps. 404 if and only if the key is right, the id is non-empty and the id has no timestamp. |
| Properties.WrongKeyRefused | main.go:29-33 | On both endpoints, a wrong key gives 401 and leaves the store unchanged, whatever the id or the body. |
| Properties.MissingIdRefused | main.go:35-39 | On both endpoints, the right key with an empty id gives 400 and leaves the store unchanged. |
| Properties.NotStaleAtTenMinutes | main.go:76-78 | At exactly ten minutes after the last ingest, a read returns the stored list unchanged, and a malformed webhook leaves the store unchanged. |
| Properties.StaleReadClears | main.go:76-86 | A read after the window resets the list to empty and answers 200 with an empty list, not 404. |
| Properties.MalformedBodyStillClears | main.go:44-52 | A webhook with a non-JSON body after the window answers 400 and appends nothing. The reset of the stale list has still happened. |
| Properties.FirstIngestStartsList | main.go:54-55 | The first ingest for an unknown id creates the list holding just that payload and stamps the id with `now`. |
| Properties.GetDataIdempotent | main.go:73-86 | A second read at the same instant returns the same response and leaves the same store. |
| Properties.RunValid | main.go:44-55 | Any sequence of requests keeps the key sets of the two maps equal. |
| Properties.KnownIffAccepted | main.go:54-55 | After a sequence of requests, an id is present if and only if it was present before or some request was an accepted webhook for it. |
| Properties.NotFoundIffNeverIngested | main.go:80-84 | Starting from the empty store, a read answers 404 if and only if no earlier webhook for that id was accepted. The two maps agree on the id. |
| Properties.UntouchedElsewhere | main.go:44-55 | Any sequence of requests addressed to other identifiers leaves an identifier's list and timestamp exactly as they were. |
| Properties.RefusedRequestKeepsStore | main.go:28-87 | A request that is not an accepted webhook leaves the store unchanged when its key is wrong or its identifier is not stale at its time. This covers reads, malformed posts and wrong-key requests. |
| Properties.StepWithinWindow | main.go:44-55 | One request for a known id that has a wrong key or arrives within 10 minutes of the last ingest: an accepted webhook appends its payload and restamps the id; any other request leaves the id's list and stamp as they were. |
| Properties.IngestOrder | main.go:54 | Take the requests for one id. The first is an accepted webhook. Each later one has a wrong key or arrives at most 10 minutes after the last accepted webhook before it, and may be a read, a malformed post or a refused post. Requests for other identifiers may come in between. Then the id holds its post-clear list followed by the accepted payloads in call order, and is stamped with the last accepted webhook's time. |
| Properties.RunAppend | main.go:96-97 | Serving one sequence of requests and then another leaves the same store as serving their concatenation. |
| Properties.ReadBackInOrder | main.go:80-86 | Starting from the empty store, a first stretch may contain requests for the id that ingest nothing: polls answered 404, malformed posts and wrong-key posts, plus traffic for other identifiers. Then comes a sequence of the kind `IngestOrder` describes. A read at most 10 minutes after the last accepted webhook returns exactly the accepted payloads of the whole sequence, in call order. |
| Properties.PollBeforeFirstIngest | main.go:28-87 | Trace for `x`: a poll, a malformed post and a wrong-key post, then two accepted posts. A later read of `x` returns the two accepted payloads, the first one first. |
| Properties.InterleavedReadBack | main.go:28-87 | Trace for `x`: a post, then a read of `y`, a poll of `x`, a malformed post and a wrong-key post, then a second post. A later read of `x` returns the two accepted payloads, the first one first. |

## Left out

- HTTP routing, query and path extraction, and response writing (gin) are not modelled. Requests arrive as `key`, `id`, `body` and `now` values, and responses are a status plus a list.
- JSON decoding is not modelled. Whether the body parses is the `Option` input. Encoding is not modelled either. In Go, the `nil` slice left by a stale-clear encodes as JSON `null`, not `[]`. The model returns an empty list.
- The mutex is not modelled. Each handler is one atomic method, which is what the lock guarantees.
- The clock is an integer parameter. The Go code reads the clock twice per webhook (`time.Since` at line 44, `time.Now` at line 55). The model uses one `now` for both reads.
- Reading `API_KEY` from the environment, `log.Fatal` and serving on port 8080 are process I/O. Only "the key is non-empty" is kept, as the constructor's precondition.
- Timestamps are unbounded integers, so the model cannot overflow. Go's `time.Since` saturates on overflow, which only happens for time differences beyond about 292 years.
