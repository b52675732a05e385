/**
 The running server: the configured key and the shared store, updated in place
 by the two request handlers. Each handler is one atomic step (the mutex that
 serialises them in the program is not modelled) and is proved to do exactly
 what the matching function of module Store says.
 */
module Server {
  import opened Store

  class DataStore {
    /** The shared secret every request must present; never empty once serving. */
    const apiKey: string
    /** Payloads received per identifier, oldest first. */
    var data: map<string, seq<Payload>>
    /** Time of the last accepted webhook per identifier. */
    var lastUpdatedAt: map<string, int>

    ghost predicate Valid()
      reads this
    {
      apiKey != "" && State(data, lastUpdatedAt).Valid()
    }

    /** The store as a value. */
    function Snapshot(): State
      reads this
    {
      State(data, lastUpdatedAt)
    }

    /** Start-up: the server only comes up with a non-empty key, and with an empty store. */
    constructor (apiKey: string)
      requires apiKey != ""
      ensures Valid() && this.apiKey == apiKey
      ensures Snapshot() == Empty()
    {
      this.apiKey := apiKey;
      data := map[];
      lastUpdatedAt := map[];
    }

    /** `POST /webhook/{id}?api_key=key`; `body` is None when the request body is not JSON. */
    method Webhook(key: string, id: string, body: Option<Payload>, now: int) returns (status: Status)
      requires Valid()
      modifies this
      ensures Valid()
      ensures Outcome(Response(status, []), Snapshot()) == Store.Webhook(apiKey, old(Snapshot()), key, id, body, now)
      ensures status != Ok ==> lastUpdatedAt == old(lastUpdatedAt)
      ensures status == Ok ==> lastUpdatedAt == old(lastUpdatedAt)[id := now]
    {
      if key != apiKey {
        return Unauthorized;
      }
      if id == "" {
        return BadRequest;
      }
      if IsStale(lastUpdatedAt, id, now) {
        data := data[id := []];
      }
      if body.None? {
        return BadRequest;
      }
      data := data[id := Items(data, id) + [body.value]];
      lastUpdatedAt := lastUpdatedAt[id := now];
      status := Ok;
    }

    /** `GET /get_data/{id}?api_key=key`; `items` is the JSON array sent with a 200. */
    method GetData(key: string, id: string, now: int) returns (status: Status, items: seq<Payload>)
      requires Valid()
      modifies this
      ensures Valid()
      ensures Outcome(Response(status, items), Snapshot()) == Store.GetData(apiKey, old(Snapshot()), key, id, now)
      ensures lastUpdatedAt == old(lastUpdatedAt)
      ensures status == NotFound <==> key == apiKey && id != "" && id !in lastUpdatedAt
    {
      if key != apiKey {
        return Unauthorized, [];
      }
      if id == "" {
        return BadRequest, [];
      }
      if IsStale(lastUpdatedAt, id, now) {
        data := data[id := []];
      }
      if id !in data {
        return NotFound, [];
      }
      status, items := Ok, data[id];
    }
  }
}
