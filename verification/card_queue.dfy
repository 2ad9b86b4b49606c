/**
 * The bot's card queue (server_bot.py). Cards the user chose to add wait here,
 * as a list, until the sync agent on the user's machine fetches the pending
 * ones and reports them added. The JSON file behind `load_queue` and
 * `save_queue` is the `stored` field of a `Queue`; an unreadable file is the
 * `corrupt` flag, under which the queue loads as empty. The clock is passed in:
 * `stamp` is the `%Y%m%d%H%M%S` rendering used in ids, `now` the ISO time.
 */
module CardQueue {
  import opened Wrappers
  import opened Seqs
  import opened Strings

  datatype Status = Pending | Added

  /**
   * The card dictionary handed to `add_to_queue`. The bot never sets
   * `user_id`; the sync agent reads it when present.
   */
  datatype CardData = CardData(
    deckName: string,
    modelName: string,
    fields: map<string, string>,
    tags: seq<string>,
    userId: Option<string>)

  /** A queued card: its data plus the `id`, `timestamp`, `status` and `added_at` keys. */
  datatype Card = Card(
    data: CardData,
    id: string,
    timestamp: string,
    status: Status,
    addedAt: Option<string>)

  /** The id `add_to_queue` gives the card stored at `position`: "<stamp>-<position>". */
  function CardId(stamp: string, position: nat): (id: string)
    ensures StartsWith(id, stamp) && |id| > |stamp| && id[|stamp|] == '-'
  {
    stamp + "-" + NatToString(position)
  }

  /** The number after the first '-' of an id, if it is one. */
  function IdNumber(id: string): Option<nat> {
    if '-' in id then ParseNat(AfterFirst(id, '-')) else None
  }

  /** With a stamp free of '-', the stamp and the position can be read back from the id. */
  lemma CardIdRoundTrip(stamp: string, position: nat)
    requires '-' !in stamp
    ensures '-' in CardId(stamp, position) && BeforeFirst(CardId(stamp, position), '-') == stamp
    ensures IdNumber(CardId(stamp, position)) == Some(position)
  {
    SplitAtFirst(stamp, '-', NatToString(position));
    ParseNatToString(position);
  }

  /** Every card's id carries its own position: what `add_to_queue` alone produces. */
  predicate Numbered(q: seq<Card>) {
    forall i :: 0 <= i < |q| ==> IdNumber(q[i].id) == Some(i)
  }

  predicate UniqueIds(q: seq<Card>) {
    forall i, j :: 0 <= i < j < |q| ==> q[i].id != q[j].id
  }

  /** Ids that carry their positions are pairwise distinct. */
  lemma NumberedIdsUnique(q: seq<Card>)
    requires Numbered(q)
    ensures UniqueIds(q)
  {
    forall i, j | 0 <= i < j < |q|
      ensures q[i].id != q[j].id
    {
      assert IdNumber(q[i].id) != IdNumber(q[j].id);
    }
  }

  /** The card `add_to_queue` appends. */
  function NewCard(data: CardData, stamp: string, now: string, position: nat): (c: Card)
    ensures c.status == Pending && c.addedAt == None && c.data == data && c.timestamp == now
    ensures c.id == CardId(stamp, position)
  {
    Card(data, CardId(stamp, position), now, Pending, None)
  }

  /** Appending the new card keeps every id carrying its position. */
  lemma AddKeepsNumbered(q: seq<Card>, data: CardData, stamp: string, now: string)
    requires Numbered(q) && '-' !in stamp
    ensures Numbered(q + [NewCard(data, stamp, now, |q|)])
  {
    CardIdRoundTrip(stamp, |q|);
  }

  predicate IsPending(c: Card) {
    c.status == Pending
  }

  /** `get_pending_cards`: the cards whose status is "pending". */
  function PendingCards(q: seq<Card>): (r: seq<Card>)
    ensures |r| <= |q|
    ensures forall c :: c in r <==> c in q && c.status == Pending
  {
    Filter(q, IsPending)
  }

  /** Storage order is kept: the pending cards of two stretches of the queue follow each other. */
  lemma PendingAppend(a: seq<Card>, b: seq<Card>)
    ensures PendingCards(a + b) == PendingCards(a) + PendingCards(b)
  {
    FilterAppend(a, b, IsPending);
  }

  /** A freshly queued card is the last pending card. */
  lemma PendingAfterAdd(q: seq<Card>, c: Card)
    requires c.status == Pending
    ensures PendingCards(q + [c]) == PendingCards(q) + [c]
  {
    PendingAppend(q, [c]);
    assert [c][..0] == [];
  }

  /** Index of the first card with the given id, as the `for` loop of `mark_card_as_added` finds it. */
  function FirstWithId(q: seq<Card>, id: string): (r: Option<nat>)
    ensures r.Some? ==> r.value < |q| && q[r.value].id == id
    ensures r.Some? ==> forall j :: 0 <= j < r.value ==> q[j].id != id
    ensures r.None? <==> forall j :: 0 <= j < |q| ==> q[j].id != id
    decreases |q|
  {
    if q == [] then None
    else if q[0].id == id then Some(0)
    else match FirstWithId(q[1..], id)
      case None => None
      case Some(k) => Some(k + 1)
  }

  /** The card as `mark_card_as_added` leaves it. */
  function Marked(c: Card, now: string): Card {
    c.(status := Added, addedAt := Some(now))
  }

  /**
   * The queue after `mark_card_as_added(id)`: only the first card with that id
   * changes, whatever its status was; without such a card nothing changes.
   */
  function MarkFirst(q: seq<Card>, id: string, now: string): (r: seq<Card>)
    ensures |r| == |q|
    ensures FirstWithId(q, id).None? ==> r == q
    ensures FirstWithId(q, id).Some? ==>
      var i := FirstWithId(q, id).value;
      r[i].status == Added && r[i].addedAt == Some(now) &&
      r[i].data == q[i].data && r[i].id == id && r[i].timestamp == q[i].timestamp &&
      forall j :: 0 <= j < |q| && j != i ==> r[j] == q[j]
  {
    match FirstWithId(q, id)
    case None => q
    case Some(i) => q[i := Marked(q[i], now)]
  }

  /** Marking changes no id. */
  lemma MarkKeepsIds(q: seq<Card>, id: string, now: string)
    ensures forall j :: 0 <= j < |q| ==> MarkFirst(q, id, now)[j].id == q[j].id
  {
  }

  /** Marking keeps every id carrying its position. */
  lemma MarkKeepsNumbered(q: seq<Card>, id: string, now: string)
    requires Numbered(q)
    ensures Numbered(MarkFirst(q, id, now))
  {
    MarkKeepsIds(q, id, now);
  }

  /** The first card with a given id is found at the same place before and after marking. */
  lemma FirstWithIdAfterMark(q: seq<Card>, id: string, other: string, now: string)
    ensures FirstWithId(MarkFirst(q, other, now), id) == FirstWithId(q, id)
  {
    var r := MarkFirst(q, other, now);
    MarkKeepsIds(q, other, now);
    FirstWithIdSameIds(q, r, id);
  }

  /** Where the first card with an id is depends on the ids alone. */
  lemma FirstWithIdSameIds(q: seq<Card>, r: seq<Card>, id: string)
    requires |q| == |r| && forall j :: 0 <= j < |q| ==> q[j].id == r[j].id
    ensures FirstWithId(q, id) == FirstWithId(r, id)
  {
    var a, b := FirstWithId(q, id), FirstWithId(r, id);
    assert a.Some? <==> b.Some?;
    assert a.Some? ==> a.value == b.value by {
      if a.Some? && b.Some? {
        assert !(a.value < b.value) && !(b.value < a.value);
      }
    }
  }

  /**
   * Marking an already-marked card succeeds again and only re-stamps it:
   * marking twice is marking once with the later time.
   */
  lemma {:induction false} RemarkRestamps(q: seq<Card>, id: string, t1: string, t2: string)
    ensures FirstWithId(MarkFirst(q, id, t1), id) == FirstWithId(q, id)
    ensures MarkFirst(MarkFirst(q, id, t1), id, t2) == MarkFirst(q, id, t2)
  {
    FirstWithIdAfterMark(q, id, id, t1);
  }

  /** With distinct ids, a marked card is no longer among the pending ones. */
  lemma MarkedNotPending(q: seq<Card>, id: string, now: string)
    requires UniqueIds(q)
    ensures forall c :: c in PendingCards(MarkFirst(q, id, now)) ==> c.id != id
  {
    var r := MarkFirst(q, id, now);
    MarkKeepsIds(q, id, now);
    forall c | c in PendingCards(r)
      ensures c.id != id
    {
      var k :| 0 <= k < |r| && r[k] == c;
      assert c.status == Pending;
    }
  }

  /** The queue file and the operations `server_bot.py` performs on it. */
  class Queue {
    /** The list last saved to the file. */
    var stored: seq<Card>
    /** Whether the file can no longer be decoded. */
    var corrupt: bool

    /** `load_queue`: the saved list, or the empty list when the file cannot be read. */
    function Load(): (q: seq<Card>)
      reads this
      ensures corrupt ==> q == []
    {
      if corrupt then [] else stored
    }

    /** No queue file yet: the queue loads as empty. */
    constructor ()
      ensures Load() == []
    {
      stored := [];
      corrupt := false;
    }

    /** `add_to_queue`: appends the card as pending under a fresh id and returns that id. */
    method AddToQueue(data: CardData, stamp: string, now: string) returns (id: string)
      modifies this
      ensures id == CardId(stamp, |old(Load())|)
      ensures Load() == old(Load()) + [NewCard(data, stamp, now, |old(Load())|)]
      ensures Numbered(old(Load())) && '-' !in stamp ==> Numbered(Load())
      ensures PendingCards(Load()) == PendingCards(old(Load())) + [NewCard(data, stamp, now, |old(Load())|)]
    {
      var queue := Load();
      id := CardId(stamp, |queue|);
      var card := Card(data, id, now, Pending, None);
      PendingAfterAdd(queue, card);
      if Numbered(queue) && '-' !in stamp {
        AddKeepsNumbered(queue, data, stamp, now);
      }
      queue := queue + [card];
      stored, corrupt := queue, false;
    }

    /**
     * `mark_card_as_added`: the first card with the id becomes "added" at
     * `now` and the queue is saved; true iff there was such a card. Nothing
     * is written when there was none.
     */
    method MarkCardAsAdded(cardId: string, now: string) returns (found: bool)
      modifies this
      ensures found <==> FirstWithId(old(Load()), cardId).Some?
      ensures Load() == MarkFirst(old(Load()), cardId, now)
      ensures !found ==> stored == old(stored) && corrupt == old(corrupt)
    {
      var queue := Load();
      var i := 0;
      while i < |queue|
        invariant 0 <= i <= |queue|
        invariant forall j :: 0 <= j < i ==> queue[j].id != cardId
      {
        if queue[i].id == cardId {
          queue := queue[i := Marked(queue[i], now)];
          stored, corrupt := queue, false;
          return true;
        }
        i := i + 1;
      }
      return false;
    }
  }
}
