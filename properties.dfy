/**
 What the two endpoints promise, over one request and over a sequence of requests.
 */
module Properties {
  import opened Store

  /** A wrong key is refused with 401 on both endpoints, before the id is looked at, and the store is untouched. */
  lemma WrongKeyRefused(apiKey: string, s: State, req: Request)
    requires req.key != apiKey
    ensures Handle(apiKey, s, req) == Outcome(Response(Unauthorized, []), s)
  {
  }

  /** With the right key, an empty id is refused with 400 on both endpoints and the store is untouched. */
  lemma MissingIdRefused(apiKey: string, s: State, req: Request)
    requires req.key == apiKey && req.id == ""
    ensures Handle(apiKey, s, req) == Outcome(Response(BadRequest, []), s)
  {
  }

  /** Exactly ten minutes after the last ingest nothing has expired yet, on either endpoint. */
  lemma NotStaleAtTenMinutes(apiKey: string, s: State, id: string, now: int)
    requires s.Valid() && id in s.lastUpdatedAt && id != ""
    requires now == s.lastUpdatedAt[id] + StaleAfter
    ensures GetData(apiKey, s, apiKey, id, now) == Outcome(Response(Ok, s.data[id]), s)
    ensures Webhook(apiKey, s, apiKey, id, None, now) == Outcome(Response(BadRequest, []), s)
  {
  }

  /**
   A read more than ten minutes after the last ingest discards the payloads and
   answers 200 with an empty list, not 404: the identifier stays known.
   */
  lemma StaleReadClears(apiKey: string, s: State, id: string, now: int)
    requires s.Valid() && id != "" && IsStale(s.lastUpdatedAt, id, now)
    ensures GetData(apiKey, s, apiKey, id, now).response == Response(Ok, [])
    ensures GetData(apiKey, s, apiKey, id, now).state == State(s.data[id := []], s.lastUpdatedAt)
  {
  }

  /**
   The expiry runs before the body is parsed: a webhook whose body is not JSON
   is refused with 400 and appends nothing, yet still discards stale payloads.
   */
  lemma MalformedBodyStillClears(apiKey: string, s: State, id: string, now: int)
    requires s.Valid() && id != "" && IsStale(s.lastUpdatedAt, id, now)
    ensures Webhook(apiKey, s, apiKey, id, None, now).response.status == BadRequest
    ensures Webhook(apiKey, s, apiKey, id, None, now).state == State(s.data[id := []], s.lastUpdatedAt)
  {
  }

  /** A fresh ingest for an identifier not yet known to the store starts its list with that payload. */
  lemma FirstIngestStartsList(apiKey: string, s: State, id: string, p: Payload, now: int)
    requires id != "" && id !in s.data && id !in s.lastUpdatedAt
    ensures Webhook(apiKey, s, apiKey, id, Some(p), now).state
            == State(s.data[id := [p]], s.lastUpdatedAt[id := now])
  {
    assert Items(ClearIfStale(s, id, now).data, id) + [p] == [p];
  }

  /** Two reads at the same instant answer alike and leave the same store. */
  lemma GetDataIdempotent(apiKey: string, s: State, key: string, id: string, now: int)
    ensures var first := GetData(apiKey, s, key, id, now);
            var second := GetData(apiKey, first.state, key, id, now);
            second == first
  {
  }

  /** Every sequence of requests keeps both maps on the same identifiers. */
  lemma {:induction false} RunValid(apiKey: string, s: State, reqs: seq<Request>)
    requires s.Valid()
    ensures Run(apiKey, s, reqs).Valid()
    decreases |reqs|
  {
    if reqs != [] {
      RunValid(apiKey, s, reqs[..|reqs| - 1]);
    }
  }

  /**
   An identifier is known after a sequence of requests exactly when it was known
   before or some request in the sequence was an accepted webhook for it.
   */
  lemma {:induction false} KnownIffAccepted(apiKey: string, s: State, reqs: seq<Request>, id: string)
    requires s.Valid()
    ensures id in Run(apiKey, s, reqs).data <==>
              id in s.data || exists k :: 0 <= k < |reqs| && Accepted(apiKey, reqs[k], id)
    decreases |reqs|
  {
    if reqs != [] {
      var prefix := reqs[..|reqs| - 1];
      var last := reqs[|reqs| - 1];
      KnownIffAccepted(apiKey, s, prefix, id);
      RunValid(apiKey, s, prefix);
      if Accepted(apiKey, last, id) {
        assert reqs[|reqs| - 1] == last;
      }
      if exists k :: 0 <= k < |reqs| && Accepted(apiKey, reqs[k], id) {
        var k :| 0 <= k < |reqs| && Accepted(apiKey, reqs[k], id);
        if k < |reqs| - 1 {
          assert prefix[k] == reqs[k];
        }
      }
      if exists k :: 0 <= k < |prefix| && Accepted(apiKey, prefix[k], id) {
        var k :| 0 <= k < |prefix| && Accepted(apiKey, prefix[k], id);
        assert reqs[k] == prefix[k];
      }
    }
  }

  /**
   Starting from the empty store, a read answers 404 exactly when no accepted
   webhook for that identifier came before it; the timestamp map knows the
   same identifiers.
   */
  lemma NotFoundIffNeverIngested(apiKey: string, reqs: seq<Request>, id: string, now: int)
    requires id != ""
    ensures var s := Run(apiKey, Empty(), reqs);
            && (id in s.lastUpdatedAt <==> id in s.data)
            && (GetData(apiKey, s, apiKey, id, now).response.status == NotFound <==>
                  forall k :: 0 <= k < |reqs| ==> !Accepted(apiKey, reqs[k], id))
  {
    RunValid(apiKey, Empty(), reqs);
    KnownIffAccepted(apiKey, Empty(), reqs, id);
  }

  /** `a` and `b` hold the same entries for `id` in both maps. */
  predicate SameAt(a: State, b: State, id: string) {
    && (id in a.data <==> id in b.data)
    && (id in a.data ==> a.data[id] == b.data[id])
    && (id in a.lastUpdatedAt <==> id in b.lastUpdatedAt)
    && (id in a.lastUpdatedAt ==> a.lastUpdatedAt[id] == b.lastUpdatedAt[id])
  }

  /** Requests addressed to other identifiers, whatever they are, leave `id`'s entries as they were. */
  lemma {:induction false} UntouchedElsewhere(apiKey: string, s: State, reqs: seq<Request>, id: string)
    requires Touching(reqs, id) == []
    ensures SameAt(Run(apiKey, s, reqs), s, id)
    decreases |reqs|
  {
    if reqs != [] {
      var prefix := reqs[..|reqs| - 1];
      var last := reqs[|reqs| - 1];
      assert last.id != id;
      UntouchedElsewhere(apiKey, s, prefix, id);
      var u := Run(apiKey, s, prefix);
      var t := Handle(apiKey, u, last).state;
      assert id in t.data <==> id in u.data;
      assert id in t.lastUpdatedAt <==> id in u.lastUpdatedAt;
    }
  }

  /**
   A request for `id` that the server does not accept leaves the store as it
   was, provided it has the wrong key or `id` is not stale at its time: the
   key check comes first, and only the expiry and the append write to the maps.
   */
  lemma RefusedRequestKeepsStore(apiKey: string, s: State, req: Request)
    requires !Accepted(apiKey, req, req.id)
    requires req.key != apiKey || !IsStale(s.lastUpdatedAt, req.id, req.now)
    ensures Handle(apiKey, s, req).state == s
  {
  }

  /**
   The requests for one identifier (`mine`) begin with an accepted webhook,
   and every later one either carries the wrong key or arrives at most ten
   minutes after the last accepted webhook before it. Reads, malformed posts
   and refused requests may sit between the accepted webhooks.
   */
  predicate ChainedIngests(apiKey: string, mine: seq<Request>, id: string) {
    && |mine| > 0
    && Accepted(apiKey, mine[0], id)
    && (forall k :: 0 < k < |mine| ==>
          mine[k].key != apiKey || mine[k].now - Stamp(apiKey, mine[..k]) <= StaleAfter)
  }

  /** Dropping the last request for `id` keeps `ChainedIngests`, as long as one remains. */
  lemma ChainedPrefix(apiKey: string, mine: seq<Request>, id: string)
    requires ChainedIngests(apiKey, mine, id) && |mine| > 1
    ensures ChainedIngests(apiKey, mine[..|mine| - 1], id)
    ensures var last := mine[|mine| - 1];
            last.key != apiKey || last.now - Stamp(apiKey, mine[..|mine| - 1]) <= StaleAfter
  {
    var earlier := mine[..|mine| - 1];
    forall k | 0 < k < |earlier|
      ensures earlier[k].key != apiKey || earlier[k].now - Stamp(apiKey, earlier[..k]) <= StaleAfter
    {
      assert earlier[k] == mine[k] && earlier[..k] == mine[..k];
    }
  }

  /**
   One request for a known `id` whose key is wrong or which comes at most ten
   minutes after the last ingest: an accepted webhook appends its payload and
   restamps `id`; anything else leaves `id`'s list and stamp as they were.
   */
  lemma StepWithinWindow(apiKey: string, u: State, req: Request, id: string)
    requires req.id == id && id != "" && id in u.data && id in u.lastUpdatedAt
    requires req.key != apiKey || req.now - u.lastUpdatedAt[id] <= StaleAfter
    ensures var t := Handle(apiKey, u, req).state;
            && id in t.data && id in t.lastUpdatedAt
            && t.lastUpdatedAt[id] == (if Accepted(apiKey, req, id) then req.now else u.lastUpdatedAt[id])
            && t.data[id] == u.data[id] + (if Accepted(apiKey, req, id) then [req.body.value] else [])
  {
    if Accepted(apiKey, req, id) {
      assert ClearIfStale(u, id, req.now) == u;
    } else {
      RefusedRequestKeepsStore(apiKey, u, req);
      assert u.data[id] + [] == u.data[id];
    }
  }

  /** How `Touching`, `Bodies` and `Stamp` grow when one more request for `id` arrives. */
  lemma TouchingSnoc(apiKey: string, reqs: seq<Request>, id: string)
    requires reqs != [] && reqs[|reqs| - 1].id == id
    ensures var last, mine, earlier := reqs[|reqs| - 1], Touching(reqs, id), Touching(reqs[..|reqs| - 1], id);
            && mine == earlier + [last]
            && mine[..|mine| - 1] == earlier
            && Bodies(apiKey, mine) == Bodies(apiKey, earlier) + (if Accepted(apiKey, last, id) then [last.body.value] else [])
            && Stamp(apiKey, mine) == (if Accepted(apiKey, last, id) then last.now else Stamp(apiKey, earlier))
  {
    var mine, earlier := Touching(reqs, id), Touching(reqs[..|reqs| - 1], id);
    assert mine[..|mine| - 1] == earlier;
  }

  /**
   After `reqs`, `id` holds what it held after the expiry check of the first
   request for it, followed by the accepted payloads addressed to it in call
   order, and is stamped with the last accepted webhook's time.
   */
  predicate IngestGoal(apiKey: string, s: State, reqs: seq<Request>, id: string) {
    var t, mine := Run(apiKey, s, reqs), Touching(reqs, id);
    && |mine| > 0
    && id in t.data && id in t.lastUpdatedAt
    && t.lastUpdatedAt[id] == Stamp(apiKey, mine)
    && t.data[id] == Items(ClearIfStale(s, id, mine[0].now).data, id) + Bodies(apiKey, mine)
  }

  /**
   Under `ChainedIngests` for the requests addressed to `id`, with any requests
   for other identifiers in between, `id` ends up holding what it held after
   the expiry check of the first webhook, followed by the accepted payloads in
   call order, and is stamped with the last accepted webhook's time.
   */
  lemma {:induction false} IngestOrder(apiKey: string, s: State, reqs: seq<Request>, id: string)
    requires ChainedIngests(apiKey, Touching(reqs, id), id)
    ensures IngestGoal(apiKey, s, reqs, id)
    decreases |reqs|
  {
    assert reqs != [];
    var prefix, last := reqs[..|reqs| - 1], reqs[|reqs| - 1];
    if last.id != id {
      assert Touching(reqs, id) == Touching(prefix, id);
      IngestOrder(apiKey, s, prefix, id);
      ExtendOther(apiKey, s, reqs, id);
    } else if Touching(prefix, id) == [] {
      TouchingSnoc(apiKey, reqs, id);
      assert Touching(reqs, id)[0] == last;
      ExtendFirst(apiKey, s, reqs, id);
    } else {
      TouchingSnoc(apiKey, reqs, id);
      ChainedPrefix(apiKey, Touching(reqs, id), id);
      IngestOrder(apiKey, s, prefix, id);
      ExtendWithinWindow(apiKey, s, reqs, id);
    }
  }

  /** Inductive step of `IngestOrder` for a request addressed to another identifier. */
  lemma ExtendOther(apiKey: string, s: State, reqs: seq<Request>, id: string)
    requires reqs != [] && reqs[|reqs| - 1].id != id
    requires IngestGoal(apiKey, s, reqs[..|reqs| - 1], id)
    ensures IngestGoal(apiKey, s, reqs, id)
  {
    var prefix, last := reqs[..|reqs| - 1], reqs[|reqs| - 1];
    assert Touching(reqs, id) == Touching(prefix, id);
    FrameStep(apiKey, Run(apiKey, s, prefix), last, id);
  }

  /** Inductive step of `IngestOrder` for the first request addressed to `id`. */
  lemma ExtendFirst(apiKey: string, s: State, reqs: seq<Request>, id: string)
    requires reqs != [] && Touching(reqs[..|reqs| - 1], id) == []
    requires Accepted(apiKey, reqs[|reqs| - 1], id)
    ensures IngestGoal(apiKey, s, reqs, id)
  {
    var prefix, last := reqs[..|reqs| - 1], reqs[|reqs| - 1];
    TouchingSnoc(apiKey, reqs, id);
    assert Touching(reqs, id) == [last];
    UntouchedElsewhere(apiKey, s, prefix, id);
    FirstStep(apiKey, s, Run(apiKey, s, prefix), last, id);
  }

  /** Inductive step of `IngestOrder` for a later request addressed to `id`. */
  lemma ExtendWithinWindow(apiKey: string, s: State, reqs: seq<Request>, id: string)
    requires reqs != [] && reqs[|reqs| - 1].id == id && Touching(reqs[..|reqs| - 1], id) != []
    requires ChainedIngests(apiKey, Touching(reqs, id), id)
    requires IngestGoal(apiKey, s, reqs[..|reqs| - 1], id)
    ensures IngestGoal(apiKey, s, reqs, id)
  {
    var prefix, last := reqs[..|reqs| - 1], reqs[|reqs| - 1];
    var mine := Touching(reqs, id);
    TouchingSnoc(apiKey, reqs, id);
    ChainedPrefix(apiKey, mine, id);
    assert mine[0] == Touching(prefix, id)[0];
    StepWithinWindow(apiKey, Run(apiKey, s, prefix), last, id);
  }

  /** A request for another identifier leaves `id`'s entries as they were. */
  lemma FrameStep(apiKey: string, u: State, req: Request, id: string)
    requires req.id != id
    ensures SameAt(Handle(apiKey, u, req).state, u, id)
  {
    var t := Handle(apiKey, u, req).state;
    assert id in t.data <==> id in u.data;
    assert id in t.lastUpdatedAt <==> id in u.lastUpdatedAt;
  }

  /** The first accepted webhook for `id` after a stretch that left `id` as in `s`. */
  lemma FirstStep(apiKey: string, s: State, u: State, req: Request, id: string)
    requires SameAt(u, s, id) && Accepted(apiKey, req, id)
    ensures var t := Handle(apiKey, u, req).state;
            && id in t.data && id in t.lastUpdatedAt && t.lastUpdatedAt[id] == req.now
            && t.data[id] == Items(ClearIfStale(s, id, req.now).data, id) + [req.body.value]
  {
    assert Items(ClearIfStale(u, id, req.now).data, id) == Items(ClearIfStale(s, id, req.now).data, id);
  }

  /** Serving `a` and then `b` is serving `a + b`. */
  lemma {:induction false} RunAppend(apiKey: string, s: State, a: seq<Request>, b: seq<Request>)
    ensures Run(apiKey, s, a + b) == Run(apiKey, Run(apiKey, s, a), b)
    decreases |b|
  {
    if b == [] {
      assert a + b == a;
    } else {
      RunAppend(apiKey, s, a, b[..|b| - 1]);
      assert (a + b)[..|a + b| - 1] == a + b[..|b| - 1];
    }
  }

  /** The requests for `id` in `a + b` are those in `a` followed by those in `b`. */
  lemma {:induction false} TouchingAppend(a: seq<Request>, b: seq<Request>, id: string)
    ensures Touching(a + b, id) == Touching(a, id) + Touching(b, id)
    decreases |b|
  {
    if b == [] {
      assert a + b == a;
    } else {
      TouchingAppend(a, b[..|b| - 1], id);
      assert (a + b)[..|a + b| - 1] == a + b[..|b| - 1];
    }
  }

  /** The accepted payloads of `a + b` are those of `a` followed by those of `b`. */
  lemma {:induction false} BodiesAppend(apiKey: string, a: seq<Request>, b: seq<Request>)
    ensures Bodies(apiKey, a + b) == Bodies(apiKey, a) + Bodies(apiKey, b)
    decreases |b|
  {
    if b == [] {
      assert a + b == a;
    } else {
      BodiesAppend(apiKey, a, b[..|b| - 1]);
      assert (a + b)[..|a + b| - 1] == a + b[..|b| - 1];
    }
  }

  /** With no accepted webhook for `id` among `reqs`, none of the requests for `id` contributes a payload. */
  lemma {:induction false} NoBodiesWithoutIngest(apiKey: string, reqs: seq<Request>, id: string)
    requires forall k :: 0 <= k < |reqs| ==> !Accepted(apiKey, reqs[k], id)
    ensures Bodies(apiKey, Touching(reqs, id)) == []
    decreases |reqs|
  {
    if reqs != [] {
      var prefix, last := reqs[..|reqs| - 1], reqs[|reqs| - 1];
      assert forall k :: 0 <= k < |prefix| ==> prefix[k] == reqs[k];
      NoBodiesWithoutIngest(apiKey, prefix, id);
      if last.id == id {
        TouchingSnoc(apiKey, reqs, id);
      } else {
        assert Touching(reqs, id) == Touching(prefix, id);
      }
    }
  }

  /**
   Starting from the empty store, any requests for `id` that ingest nothing
   (`pre`: polls answered 404, malformed or refused posts, and traffic for
   other identifiers), then requests whose share for `id` satisfies
   `ChainedIngests` (`post`): a read at most ten minutes after the last
   accepted webhook returns exactly the accepted payloads of the whole
   sequence, in call order.
   */
  lemma ReadBackInOrder(apiKey: string, pre: seq<Request>, post: seq<Request>, id: string, now: int)
    requires forall k :: 0 <= k < |pre| ==> !Accepted(apiKey, pre[k], id)
    requires ChainedIngests(apiKey, Touching(post, id), id)
    requires now - Stamp(apiKey, Touching(post, id)) <= StaleAfter
    ensures GetData(apiKey, Run(apiKey, Empty(), pre + post), apiKey, id, now).response
            == Response(Ok, Bodies(apiKey, Touching(pre + post, id)))
  {
    var u := Run(apiKey, Empty(), pre);
    RunValid(apiKey, Empty(), pre);
    KnownIffAccepted(apiKey, Empty(), pre, id);
    assert id !in u.data && id !in u.lastUpdatedAt;
    RunAppend(apiKey, Empty(), pre, post);
    IngestOrder(apiKey, u, post, id);
    assert Items(ClearIfStale(u, id, Touching(post, id)[0].now).data, id) == [];
    TouchingAppend(pre, post, id);
    BodiesAppend(apiKey, Touching(pre, id), Touching(post, id));
    NoBodiesWithoutIngest(apiKey, pre, id);
  }

  /**
   A poll of `x` answered 404, a malformed post and a wrong-key post, all
   before the first accepted webhook for `x`, then two accepted posts: a
   later read of `x` returns the two accepted payloads, first one first.
   */
  lemma PollBeforeFirstIngest(apiKey: string, a: Payload, b: Payload)
    requires apiKey != ""
    ensures var reqs := [GetRequest(apiKey, "x", 0), PostWebhook(apiKey, "x", None, 1), PostWebhook("", "x", Some(b), 2),
                         PostWebhook(apiKey, "x", Some(a), 3), PostWebhook(apiKey, "x", Some(b), 4)];
            GetData(apiKey, Run(apiKey, Empty(), reqs), apiKey, "x", 5).response == Response(Ok, [a, b])
  {
    var pre := [GetRequest(apiKey, "x", 0), PostWebhook(apiKey, "x", None, 1), PostWebhook("", "x", Some(b), 2)];
    var post := [PostWebhook(apiKey, "x", Some(a), 3), PostWebhook(apiKey, "x", Some(b), 4)];
    assert post[..1][..0] == [] && post[..|post| - 1] == post[..1];
    assert Touching(post[..1], "x") == post[..1];
    assert Touching(post, "x") == post;
    assert Stamp(apiKey, post[..1]) == 3;
    ReadBackInOrder(apiKey, pre, post, "x", 5);
    TouchingAppend(pre, post, "x");
    BodiesAppend(apiKey, Touching(pre, "x"), post);
    NoBodiesWithoutIngest(apiKey, pre, "x");
    assert Bodies(apiKey, post[..1]) == [a];
    assert pre + post == [GetRequest(apiKey, "x", 0), PostWebhook(apiKey, "x", None, 1), PostWebhook("", "x", Some(b), 2),
                          PostWebhook(apiKey, "x", Some(a), 3), PostWebhook(apiKey, "x", Some(b), 4)];
  }

  /**
   A post for `x`, a read of `y`, a poll of `x`, a malformed post for `x`, a
   post with the wrong key and a second post for `x`: a later read of `x`
   returns the two accepted payloads, first one first.
   */
  lemma InterleavedReadBack(apiKey: string, a: Payload, b: Payload)
    requires apiKey != ""
    ensures var reqs := [PostWebhook(apiKey, "x", Some(a), 0), GetRequest(apiKey, "y", 1), GetRequest(apiKey, "x", 2),
                         PostWebhook(apiKey, "x", None, 3), PostWebhook("", "x", Some(a), 4), PostWebhook(apiKey, "x", Some(b), 5)];
            GetData(apiKey, Run(apiKey, Empty(), reqs), apiKey, "x", 6).response == Response(Ok, [a, b])
  {
    var reqs := [PostWebhook(apiKey, "x", Some(a), 0), GetRequest(apiKey, "y", 1), GetRequest(apiKey, "x", 2),
                 PostWebhook(apiKey, "x", None, 3), PostWebhook("", "x", Some(a), 4), PostWebhook(apiKey, "x", Some(b), 5)];
    var mine := [reqs[0], reqs[2], reqs[3], reqs[4], reqs[5]];
    InterleavedTouching(reqs, mine);
    InterleavedChain(apiKey, mine, a, b);
    assert [] + reqs == reqs;
    ReadBackInOrder(apiKey, [], reqs, "x", 6);
  }

  /** The requests for `x` in the trace of `InterleavedReadBack`. */
  lemma InterleavedTouching(reqs: seq<Request>, mine: seq<Request>)
    requires |reqs| == 6 && reqs[1].id == "y"
    requires forall k :: 0 <= k < 6 && k != 1 ==> reqs[k].id == "x"
    requires mine == [reqs[0], reqs[2], reqs[3], reqs[4], reqs[5]]
    ensures Touching(reqs, "x") == mine
  {
    assert reqs[..1] == [reqs[0]] && reqs[..1][..0] == [];
    assert reqs[..2][..1] == reqs[..1] && reqs[..3][..2] == reqs[..2] && reqs[..4][..3] == reqs[..3];
    assert reqs[..5][..4] == reqs[..4] && reqs[..5] == reqs[..|reqs| - 1];
    assert Touching(reqs[..1], "x") == mine[..1];
    assert Touching(reqs[..2], "x") == mine[..1];
    assert Touching(reqs[..3], "x") == mine[..2];
    assert Touching(reqs[..4], "x") == mine[..3];
    assert Touching(reqs[..5], "x") == mine[..4];
  }

  /** The requests for `x` in the trace of `InterleavedReadBack` form a chain with the two accepted payloads. */
  lemma InterleavedChain(apiKey: string, mine: seq<Request>, a: Payload, b: Payload)
    requires apiKey != ""
    requires mine == [PostWebhook(apiKey, "x", Some(a), 0), GetRequest(apiKey, "x", 2),
                      PostWebhook(apiKey, "x", None, 3), PostWebhook("", "x", Some(a), 4), PostWebhook(apiKey, "x", Some(b), 5)]
    ensures ChainedIngests(apiKey, mine, "x")
    ensures Stamp(apiKey, mine) == 5 && Bodies(apiKey, mine) == [a, b]
  {
    assert mine[..1][..0] == [] && mine[..2][..1] == mine[..1] && mine[..3][..2] == mine[..2];
    assert mine[..4][..3] == mine[..3] && mine[..|mine| - 1] == mine[..4];
    assert Stamp(apiKey, mine[..1]) == 0 && Bodies(apiKey, mine[..1]) == [a];
    assert Stamp(apiKey, mine[..2]) == 0 && Bodies(apiKey, mine[..2]) == [a];
    assert Stamp(apiKey, mine[..3]) == 0 && Bodies(apiKey, mine[..3]) == [a];
    assert Stamp(apiKey, mine[..4]) == 0 && Bodies(apiKey, mine[..4]) == [a];
  }
}
