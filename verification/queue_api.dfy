/**
 * The two HTTP endpoints the bot serves to the sync agent (server_bot.py):
 * GET /api/cards/pending and POST /api/cards/mark-added. Both require the
 * shared secret in the X-API-Secret header. Routing, JSON encoding and the
 * server thread are not modelled: a request is its header and its decoded
 * `card_ids`, a reply its status and body.
 */
module QueueApi {
  import opened Wrappers
  import opened CardQueue

  datatype Response =
    | Unauthorized
    | MissingCardIds
    | Cards(cards: seq<Card>)
    | Results(results: map<string, bool>)
  {
    function Status(): int {
      match this
      case Unauthorized => 401
      case MissingCardIds => 400
      case _ => 200
    }
  }

  /** A missing header never equals the secret. */
  predicate Authorized(header: Option<string>, secret: string)
    ensures header.None? ==> !Authorized(header, secret)
    ensures Authorized(header, secret) ==> header.value == secret
  {
    header == Some(secret)
  }

  /** GET /api/cards/pending: 401 with a wrong secret, else the pending cards in storage order. */
  function PendingCardsApi(queue: Queue, header: Option<string>, secret: string): (r: Response)
    reads queue
    ensures r.Status() == 401 <==> !Authorized(header, secret)
    ensures Authorized(header, secret) ==>
      r.Cards? && forall c :: c in r.cards <==> c in queue.Load() && c.status == Pending
    ensures Authorized(header, secret) ==> r == Cards(PendingCards(queue.Load()))
  {
    if !Authorized(header, secret) then Unauthorized else Cards(PendingCards(queue.Load()))
  }

  /** The queue after `mark_card_as_added` has been called for each id in turn. */
  function MarkEach(q: seq<Card>, ids: seq<string>, now: string): (r: seq<Card>)
    ensures |r| == |q|
    decreases |ids|
  {
    if ids == [] then q else MarkFirst(MarkEach(q, ids[..|ids| - 1], now), ids[|ids| - 1], now)
  }

  lemma MarkEachNext(q: seq<Card>, ids: seq<string>, i: nat, now: string)
    requires i < |ids|
    ensures MarkEach(q, ids[..i + 1], now) == MarkFirst(MarkEach(q, ids[..i], now), ids[i], now)
    ensures forall id :: id in ids[..i + 1] <==> id in ids[..i] || id == ids[i]
  {
    assert ids[..i + 1][..i] == ids[..i];
    assert ids[..i + 1] == ids[..i] + [ids[i]];
  }

  /** Marking never moves a card or changes an id, so each id is still found where it was. */
  lemma {:induction false} MarkEachKeepsIds(q: seq<Card>, ids: seq<string>, now: string)
    ensures forall j :: 0 <= j < |q| ==> MarkEach(q, ids, now)[j].id == q[j].id
    decreases |ids|
  {
    if ids != [] {
      MarkEachKeepsIds(q, ids[..|ids| - 1], now);
      MarkKeepsIds(MarkEach(q, ids[..|ids| - 1], now), ids[|ids| - 1], now);
    }
  }

  lemma FirstWithIdAfterMarkEach(q: seq<Card>, ids: seq<string>, id: string, now: string)
    ensures FirstWithId(MarkEach(q, ids, now), id) == FirstWithId(q, id)
  {
    MarkEachKeepsIds(q, ids, now);
    FirstWithIdSameIds(q, MarkEach(q, ids, now), id);
  }

  /**
   * After the request every requested id that names a card has that card
   * (the first with the id) marked "added", and a card whose id was not
   * requested is untouched.
   */
  lemma {:induction false} MarkEachEffect(q: seq<Card>, ids: seq<string>, now: string)
    ensures forall id :: id in ids && FirstWithId(q, id).Some? ==>
      MarkEach(q, ids, now)[FirstWithId(q, id).value].status == Added
    ensures forall j :: 0 <= j < |q| && q[j].id !in ids ==> MarkEach(q, ids, now)[j] == q[j]
    decreases |ids|
  {
    if ids != [] {
      var init := ids[..|ids| - 1];
      var last := ids[|ids| - 1];
      var before := MarkEach(q, init, now);
      MarkEachEffect(q, init, now);
      FirstWithIdAfterMarkEach(q, init, last, now);
      MarkKeepsIds(before, last, now);
      forall id | id in ids && FirstWithId(q, id).Some?
        ensures MarkEach(q, ids, now)[FirstWithId(q, id).value].status == Added
      {
        FirstWithIdAfterMarkEach(q, init, id, now);
        if id != last {
          assert id in init;
        }
      }
      forall j | 0 <= j < |q| && q[j].id !in ids
        ensures MarkEach(q, ids, now)[j] == q[j]
      {
        assert q[j].id !in init;
      }
    }
  }

  /**
   * POST /api/cards/mark-added. The secret is checked first, then the
   * presence of `card_ids`; only then is the queue touched. Each id is
   * marked in turn and the reply maps every requested id to whether a card
   * with it was found (a repeated id is found again).
   */
  method MarkAddedApi(queue: Queue, header: Option<string>, cardIds: Option<seq<string>>, secret: string, now: string)
    returns (r: Response)
    modifies queue
    ensures !Authorized(header, secret) ==> r == Unauthorized
    ensures Authorized(header, secret) && cardIds.None? ==> r == MissingCardIds
    ensures !(Authorized(header, secret) && cardIds.Some?) ==>
      queue.stored == old(queue.stored) && queue.corrupt == old(queue.corrupt)
    ensures Authorized(header, secret) && cardIds.Some? ==>
      && r.Results?
      && (forall id :: id in r.results <==> id in cardIds.value)
      && (forall id :: id in r.results ==> r.results[id] == FirstWithId(old(queue.Load()), id).Some?)
      && queue.Load() == MarkEach(old(queue.Load()), cardIds.value, now)
  {
    if !Authorized(header, secret) {
      return Unauthorized;
    }
    if cardIds.None? {
      return MissingCardIds;
    }
    var results := MarkAll(queue, cardIds.value, now);
    return Results(results);
  }

  /** The loop of the mark-added endpoint: marks each id in turn and records whether it was found. */
  method MarkAll(queue: Queue, ids: seq<string>, now: string) returns (results: map<string, bool>)
    modifies queue
    ensures forall id :: id in results <==> id in ids
    ensures forall id :: id in results ==> results[id] == FirstWithId(old(queue.Load()), id).Some?
    ensures queue.Load() == MarkEach(old(queue.Load()), ids, now)
  {
    ghost var q0 := queue.Load();
    results := map[];
    var i := 0;
    while i < |ids|
      invariant 0 <= i <= |ids|
      invariant queue.Load() == MarkEach(q0, ids[..i], now)
      invariant forall id :: id in results <==> id in ids[..i]
      invariant forall id :: id in results ==> results[id] == FirstWithId(q0, id).Some?
    {
      FirstWithIdAfterMarkEach(q0, ids[..i], ids[i], now);
      MarkEachNext(q0, ids, i, now);
      var found := queue.MarkCardAsAdded(ids[i], now);
      results := results[ids[i] := found];
      i := i + 1;
    }
    assert ids[..|ids|] == ids;
  }
}
