/**
 * One pass of the sync agent (local_anki_adder.py): fetch the pending cards
 * from the bot's server (falling back to the next ports), group them by user,
 * add each user's cards through that user's AnkiConnect when it answers, and
 * report the cards that made it in one mark-added request.
 *
 * The network is a set of oracles: `pending` answers a GET of
 * "<server URL>/api/cards/pending" with the cards or with nothing (an
 * exception or a status other than 200), `ping` says whether AnkiConnect at a URL answered the version probe
 * with status 200, `add` is AnkiConnect's reply to an addNote request and
 * `post` the server's reply to the mark-added request.
 */
module SyncAgent {
  import opened Wrappers
  import opened Seqs
  import opened Strings
  import opened Anki
  import opened CardQueue
  import opened SyncUrls
  import Review
  import DirectBot

  const MarkAddedPath: string := "/api/cards/mark-added"

  /** The index of the first URL whose pending-cards request succeeded. */
  function FirstAnswering(urls: seq<string>, pending: string -> Option<seq<Card>>): (r: Option<nat>)
    ensures r.Some? ==> r.value < |urls| && pending(urls[r.value]).Some?
    ensures r.Some? ==> forall j :: 0 <= j < r.value ==> pending(urls[j]).None?
    ensures r.None? <==> forall j :: 0 <= j < |urls| ==> pending(urls[j]).None?
    decreases |urls|
  {
    if urls == [] then None
    else if pending(urls[0]).Some? then Some(0)
    else match FirstAnswering(urls[1..], pending)
      case None => None
      case Some(k) => Some(k + 1)
  }

  /** A URL that answers after a run of failures is the first that answers. */
  lemma {:induction false} FirstAnsweringAt(urls: seq<string>, pending: string -> Option<seq<Card>>, k: nat)
    requires k < |urls| && pending(urls[k]).Some?
    requires forall j :: 0 <= j < k ==> pending(urls[j]).None?
    ensures FirstAnswering(urls, pending) == Some(k)
    decreases k
  {
    if k > 0 {
      assert pending(urls[0]).None?;
      var tail := urls[1..];
      forall j | 0 <= j < k - 1
        ensures pending(tail[j]).None?
      {
        assert tail[j] == urls[j + 1];
      }
      assert tail[k - 1] == urls[k];
      FirstAnsweringAt(tail, pending, k - 1);
    }
  }

  /** The user's entry in USER_CONFIGS; a missing or empty user id looks nothing up. */
  function ConfigFor(configs: Configs, userId: Option<string>): (c: Option<UserConfig>)
    ensures c.Some? ==> userId.Some? && userId.value != "" && userId.value in configs.entries
                        && c.value == configs.entries[userId.value]
    ensures userId.Some? && userId.value != "" && userId.value in configs.entries ==> c.Some?
  {
    if userId.Some? && userId.value != "" && userId.value in configs.entries
    then Some(configs.entries[userId.value]) else None
  }

  /**
   * The note `add_card_to_anki` sends: deck and model from the card unless
   * the user's configuration names them; fields and tags unchanged; never a
   * duplicate.
   */
  function UserNote(configs: Configs, card: Card): (n: Note)
    ensures n.fields == card.data.fields && n.tags == card.data.tags && !n.allowDuplicate
    ensures n.deckName == ConfigFor(configs, card.data.userId).GetOr(UserConfig(None, None)).deckName.GetOr(card.data.deckName)
    ensures n.modelName == ConfigFor(configs, card.data.userId).GetOr(UserConfig(None, None)).noteType.GetOr(card.data.modelName)
  {
    var cfg := ConfigFor(configs, card.data.userId);
    var deck := if cfg.Some? && cfg.value.deckName.Some? then cfg.value.deckName.value else card.data.deckName;
    var model := if cfg.Some? && cfg.value.noteType.Some? then cfg.value.noteType.value else card.data.modelName;
    Note(deck, model, card.data.fields, false, card.data.tags)
  }

  /**
   * There is no fallback to a "default" entry: a card whose user has no
   * entry of its own keeps the deck and note type it was queued with, even
   * when the configuration has a "default" entry.
   */
  lemma NoDefaultFallback(configs: Configs, card: Card)
    requires card.data.userId.None? || card.data.userId.value !in configs.entries
    ensures UserNote(configs, card).deckName == card.data.deckName
    ensures UserNote(configs, card).modelName == card.data.modelName
  {
  }

  /** An override applies only to the setting the user's entry names. */
  lemma PartialOverride(configs: Configs, card: Card, deck: string)
    requires card.data.userId.Some? && card.data.userId.value != ""
    requires card.data.userId.value in configs.entries
    requires configs.entries[card.data.userId.value] == UserConfig(Some(deck), None)
    ensures UserNote(configs, card).deckName == deck
    ensures UserNote(configs, card).modelName == card.data.modelName
  {
  }

  /**
   * A card the bot queued carries no user id, so the agent sends exactly the
   * note the queue-less bot (main.py) would have sent for the same sides.
   */
  lemma QueuedCardReachesAnkiUnchanged(configs: Configs, settings: Settings, sides: Review.Sides, sentence: string,
                                       stamp: string, now: string, position: nat)
    ensures UserNote(configs, NewCard(Review.QueuedCardData(settings, sides, sentence), stamp, now, position))
         == DirectBot.DirectNote(settings, sides.front, sides.back, sentence)
  {
  }

  /** `"already exists" in str(result).lower() or "duplicate" in str(result).lower()`. */
  predicate IsDuplicateError(detail: string)
    ensures Contains(detail, "already exists") || Contains(detail, "duplicate") ==> IsDuplicateError(detail)
  {
    ContainsLower(detail, "already exists");
    ContainsLower(detail, "duplicate");
    Contains(Lower(detail), "already exists") || Contains(Lower(detail), "duplicate")
  }

  /** The test ignores case. */
  lemma DuplicateIgnoresCase(detail: string)
    ensures IsDuplicateError(Lower(detail)) == IsDuplicateError(detail)
  {
    LowerIdempotent(detail);
  }

  /** A failure counts as delivered when it says the note is already there. */
  predicate Accepted(r: AddResult)
    ensures r.success ==> Accepted(r)
    ensures Contains(r.detail, "already exists") || Contains(r.detail, "duplicate") ==> Accepted(r)
    ensures !r.success && !Contains(Lower(r.detail), "duplicate") && !Contains(Lower(r.detail), "already exists")
            ==> !Accepted(r)
  {
    r.success || IsDuplicateError(r.detail)
  }

  /** The settings the agent reads at start-up: the base AnkiConnect URL and USER_CONFIGS. */
  datatype Setup = Setup(ankiBase: string, configs: Configs)

  /** The AnkiConnect URL for a card's or a group's user. */
  function UserUrl(setup: Setup, userId: Option<string>): string {
    AnkiConnectUrl(setup.ankiBase, setup.configs.keys, userId)
  }

  /** What adding one card returns. */
  function CardOutcome(setup: Setup, card: Card, add: (string, Note) -> Reply): AddResult {
    AddOutcome(add(UserUrl(setup, card.data.userId), UserNote(setup.configs, card)))
  }

  /** Whether a card ends up among the ids reported as added. */
  predicate Delivered(setup: Setup, card: Card, ping: string -> bool, add: (string, Note) -> Reply) {
    && ping(UserUrl(setup, card.data.userId))
    && card.id != ""
    && Accepted(CardOutcome(setup, card, add))
  }

  /** The users of the cards in order of first appearance (the keys of `cards_by_user`). */
  function UsersInOrder(cards: seq<Card>): (r: seq<Option<string>>)
    ensures forall i, j :: 0 <= i < j < |r| ==> r[i] != r[j]
    decreases |cards|
  {
    if cards == [] then []
    else
      var prev := UsersInOrder(cards[..|cards| - 1]);
      var u := cards[|cards| - 1].data.userId;
      if u in prev then prev else prev + [u]
  }

  /** Every card's user is among the users. */
  lemma {:induction false} UsersCover(cards: seq<Card>)
    ensures forall c :: c in cards ==> c.data.userId in UsersInOrder(cards)
    decreases |cards|
  {
    if cards != [] {
      var init := cards[..|cards| - 1];
      UsersCover(init);
      assert cards == init + [cards[|cards| - 1]];
    }
  }

  /** Every listed user owns some card. */
  lemma {:induction false} UsersSound(cards: seq<Card>)
    ensures forall v :: v in UsersInOrder(cards) ==> exists a :: 0 <= a < |cards| && cards[a].data.userId == v
    decreases |cards|
  {
    if cards != [] {
      var init := cards[..|cards| - 1];
      UsersSound(init);
      forall v | v in UsersInOrder(cards)
        ensures exists a :: 0 <= a < |cards| && cards[a].data.userId == v
      {
        if v in UsersInOrder(init) {
          var a :| 0 <= a < |init| && init[a].data.userId == v;
          assert cards[a] == init[a];
        } else {
          assert cards[|cards| - 1].data.userId == v;
        }
      }
    }
  }

  /**
   * Users are listed in order of first appearance (dict insertion order): a
   * card of an earlier listed user comes before every card of a later one.
   */
  lemma {:induction false} UsersFirstAppearance(cards: seq<Card>, i: nat, j: nat)
    requires i < j < |UsersInOrder(cards)|
    ensures exists a ::
              && 0 <= a < |cards| && cards[a].data.userId == UsersInOrder(cards)[i]
              && forall b :: 0 <= b <= a ==> cards[b].data.userId != UsersInOrder(cards)[j]
    decreases |cards|
  {
    var r := UsersInOrder(cards);
    var init := cards[..|cards| - 1];
    var prev := UsersInOrder(init);
    var u := cards[|cards| - 1].data.userId;
    if j < |prev| {
      assert r[i] == prev[i] && r[j] == prev[j];
      UsersFirstAppearance(init, i, j);
      var a :| && 0 <= a < |init| && init[a].data.userId == prev[i]
               && forall b :: 0 <= b <= a ==> init[b].data.userId != prev[j];
      assert cards[a] == init[a];
      forall b | 0 <= b <= a
        ensures cards[b].data.userId != r[j]
      {
        assert cards[b] == init[b];
      }
    } else {
      assert u !in prev && r == prev + [u];
      assert r[i] == prev[i] && r[j] == u;
      UsersSound(init);
      UsersCover(init);
      assert prev[i] in prev;
      var a :| 0 <= a < |init| && init[a].data.userId == prev[i];
      assert cards[a] == init[a];
      forall b | 0 <= b <= a
        ensures cards[b].data.userId != r[j]
      {
        assert cards[b] == init[b] && init[b] in init;
      }
    }
  }

  /** The cards of one user in their original order (`cards_by_user[user_id]`). */
  function CardsOf(cards: seq<Card>, u: Option<string>): (r: seq<Card>)
    ensures |r| <= |cards|
    decreases |cards|
  {
    if cards == [] then []
    else
      var last := cards[|cards| - 1];
      CardsOf(cards[..|cards| - 1], u) + (if last.data.userId == u then [last] else [])
  }

  /** Grouping keeps the fetched order: the group of a concatenation is the concatenation of the groups. */
  lemma {:induction false} CardsOfAppend(a: seq<Card>, b: seq<Card>, u: Option<string>)
    ensures CardsOf(a + b, u) == CardsOf(a, u) + CardsOf(b, u)
    decreases |b|
  {
    if b == [] {
      assert a + b == a;
    } else {
      var init := b[..|b| - 1];
      var last := b[|b| - 1];
      var ab := a + b;
      assert ab[..|ab| - 1] == a + init && ab[|ab| - 1] == last;
      CardsOfAppend(a, init, u);
      ConcatAssoc(CardsOf(a, u), CardsOf(init, u), if last.data.userId == u then [last] else []);
    }
  }

  /** A user's group holds exactly the cards of that user. */
  lemma {:induction false} CardsOfMembership(cards: seq<Card>, u: Option<string>)
    ensures forall c :: c in CardsOf(cards, u) <==> c in cards && c.data.userId == u
    decreases |cards|
  {
    if cards != [] {
      var init := cards[..|cards| - 1];
      CardsOfMembership(init, u);
      assert cards == init + [cards[|cards| - 1]];
    }
  }

  /** A user who has not appeared yet has no cards so far. */
  lemma {:induction false} CardsOfAbsent(cards: seq<Card>, u: Option<string>)
    requires u !in UsersInOrder(cards)
    ensures CardsOf(cards, u) == []
    decreases |cards|
  {
    if cards != [] {
      CardsOfAbsent(cards[..|cards| - 1], u);
    }
  }

  /** Adding the next card to the grouping keeps users in first-appearance order and each group exact. */
  lemma GroupStep(cards: seq<Card>, i: nat, users: seq<Option<string>>, groups: map<Option<string>, seq<Card>>)
    requires i < |cards|
    requires users == UsersInOrder(cards[..i])
    requires forall u :: u in groups <==> u in users
    requires forall u :: u in groups ==> groups[u] == CardsOf(cards[..i], u)
    ensures var u := cards[i].data.userId;
      var users' := if u in groups then users else users + [u];
      var ready := if u in groups then groups else groups[u := []];
      var groups' := ready[u := ready[u] + [cards[i]]];
      && users' == UsersInOrder(cards[..i + 1])
      && (forall v :: v in groups' <==> v in users')
      && (forall v :: v in groups' ==> groups'[v] == CardsOf(cards[..i + 1], v))
  {
    var u := cards[i].data.userId;
    var next := cards[..i + 1];
    assert next[..|next| - 1] == cards[..i] && next[|next| - 1] == cards[i];
    if u !in groups {
      CardsOfAbsent(cards[..i], u);
    }
  }

  /** Every card lands in exactly one group: its own user's. */
  lemma GroupsPartition(cards: seq<Card>, c: Card, u: Option<string>)
    requires c in cards
    ensures c.data.userId in UsersInOrder(cards)
    ensures c in CardsOf(cards, u) <==> u == c.data.userId
  {
    UsersCover(cards);
    CardsOfMembership(cards, u);
  }

  /** The ids one user's cards contribute, in order (the inner loop of `process_pending_cards`). */
  function GroupIds(setup: Setup, group: seq<Card>, add: (string, Note) -> Reply): (r: seq<string>)
    decreases |group|
  {
    if group == [] then []
    else
      var c := group[|group| - 1];
      GroupIds(setup, group[..|group| - 1], add)
      + (if c.id != "" && Accepted(CardOutcome(setup, c, add)) then [c.id] else [])
  }

  /** The ids the users contribute in turn; a user whose Anki does not answer contributes none. */
  function ResolvedIds(setup: Setup, users: seq<Option<string>>, cards: seq<Card>,
                       ping: string -> bool, add: (string, Note) -> Reply): (r: seq<string>)
    decreases |users|
  {
    if users == [] then []
    else
      var u := users[|users| - 1];
      ResolvedIds(setup, users[..|users| - 1], cards, ping, add)
      + (if ping(UserUrl(setup, u)) then GroupIds(setup, CardsOf(cards, u), add) else [])
  }

  /** `successful_card_ids` for a batch of fetched cards. */
  function SuccessfulIds(setup: Setup, cards: seq<Card>, ping: string -> bool, add: (string, Note) -> Reply): seq<string> {
    ResolvedIds(setup, UsersInOrder(cards), cards, ping, add)
  }

  /** One more card of the group is one more step of `GroupIds`. */
  lemma GroupIdsNext(setup: Setup, group: seq<Card>, j: nat, add: (string, Note) -> Reply)
    requires j < |group|
    ensures GroupIds(setup, group[..j + 1], add) == GroupIds(setup, group[..j], add)
      + (if group[j].id != "" && Accepted(CardOutcome(setup, group[j], add)) then [group[j].id] else [])
  {
    var next := group[..j + 1];
    assert next[..|next| - 1] == group[..j] && next[|next| - 1] == group[j];
  }

  /** One more user is one more step of `ResolvedIds`. */
  lemma ResolvedIdsNext(setup: Setup, users: seq<Option<string>>, k: nat, cards: seq<Card>,
                        ping: string -> bool, add: (string, Note) -> Reply)
    requires k < |users|
    ensures ResolvedIds(setup, users[..k + 1], cards, ping, add) == ResolvedIds(setup, users[..k], cards, ping, add)
      + (if ping(UserUrl(setup, users[k])) then GroupIds(setup, CardsOf(cards, users[k]), add) else [])
  {
    var next := users[..k + 1];
    assert next[..|next| - 1] == users[..k] && next[|next| - 1] == users[k];
  }

  lemma {:induction false} GroupIdsMembership(setup: Setup, group: seq<Card>, add: (string, Note) -> Reply, id: string)
    ensures id in GroupIds(setup, group, add) <==>
      exists c :: c in group && c.id == id && id != "" && Accepted(CardOutcome(setup, c, add))
    decreases |group|
  {
    if group != [] {
      var init := group[..|group| - 1];
      var c := group[|group| - 1];
      GroupIdsMembership(setup, init, add, id);
      forall d | d in group
        ensures d in init || d == c
      {
        LastMembership(group, d);
      }
      forall d | d in init
        ensures d in group
      {
        LastMembership(group, d);
      }
      if id in GroupIds(setup, group, add) && id !in GroupIds(setup, init, add) {
        assert c in group && c.id == id;
      }
    }
  }

  lemma {:induction false} ResolvedIdsSound(setup: Setup, users: seq<Option<string>>, cards: seq<Card>,
                                            ping: string -> bool, add: (string, Note) -> Reply, id: string)
    requires id in ResolvedIds(setup, users, cards, ping, add)
    ensures exists c :: c in cards && c.data.userId in users && c.id == id && Delivered(setup, c, ping, add)
    decreases |users|
  {
    var init := users[..|users| - 1];
    var u := users[|users| - 1];
    if id in ResolvedIds(setup, init, cards, ping, add) {
      ResolvedIdsSound(setup, init, cards, ping, add, id);
      var c :| c in cards && c.data.userId in init && c.id == id && Delivered(setup, c, ping, add);
      LastMembership(users, c.data.userId);
    } else {
      GroupIdSound(setup, cards, u, ping, add, id);
      var c :| c in cards && c.data.userId == u && c.id == id && Delivered(setup, c, ping, add);
      LastMembership(users, c.data.userId);
    }
  }

  /** An id a reachable user's group contributes belongs to a delivered card of that user. */
  lemma GroupIdSound(setup: Setup, cards: seq<Card>, u: Option<string>,
                     ping: string -> bool, add: (string, Note) -> Reply, id: string)
    requires ping(UserUrl(setup, u)) && id in GroupIds(setup, CardsOf(cards, u), add)
    ensures exists c :: c in cards && c.data.userId == u && c.id == id && Delivered(setup, c, ping, add)
  {
    var group := CardsOf(cards, u);
    GroupIdsMembership(setup, group, add, id);
    CardsOfMembership(cards, u);
    var c :| c in group && c.id == id && id != "" && Accepted(CardOutcome(setup, c, add));
    assert c in cards && c.data.userId == u && Delivered(setup, c, ping, add);
  }

  lemma {:induction false} ResolvedIdsComplete(setup: Setup, users: seq<Option<string>>, cards: seq<Card>,
                                               ping: string -> bool, add: (string, Note) -> Reply, c: Card)
    requires c in cards && c.data.userId in users && Delivered(setup, c, ping, add)
    ensures c.id in ResolvedIds(setup, users, cards, ping, add)
    decreases |users|
  {
    var init := users[..|users| - 1];
    var u := users[|users| - 1];
    LastMembership(users, c.data.userId);
    if c.data.userId in init {
      ResolvedIdsComplete(setup, init, cards, ping, add, c);
    } else {
      assert u == c.data.userId;
      GroupIdComplete(setup, cards, ping, add, c);
      assert ResolvedIds(setup, users, cards, ping, add)
        == ResolvedIds(setup, init, cards, ping, add) + GroupIds(setup, CardsOf(cards, u), add);
    }
  }

  /** A delivered card's id is among those its user's group contributes. */
  lemma GroupIdComplete(setup: Setup, cards: seq<Card>, ping: string -> bool, add: (string, Note) -> Reply, c: Card)
    requires c in cards && Delivered(setup, c, ping, add)
    ensures ping(UserUrl(setup, c.data.userId)) && c.id in GroupIds(setup, CardsOf(cards, c.data.userId), add)
  {
    var group := CardsOf(cards, c.data.userId);
    CardsOfMembership(cards, c.data.userId);
    assert c in group;
    GroupIdsMembership(setup, group, add, c.id);
  }

  /**
   * A card id is reported exactly when the card's user's Anki answered, the
   * card has an id, and adding it succeeded or failed as a duplicate.
   */
  lemma SuccessfulIdsExactly(setup: Setup, cards: seq<Card>, ping: string -> bool, add: (string, Note) -> Reply, id: string)
    ensures id in SuccessfulIds(setup, cards, ping, add) <==>
      exists c :: c in cards && c.id == id && Delivered(setup, c, ping, add)
  {
    var users := UsersInOrder(cards);
    if id in SuccessfulIds(setup, cards, ping, add) {
      ResolvedIdsSound(setup, users, cards, ping, add, id);
    }
    if exists c :: c in cards && c.id == id && Delivered(setup, c, ping, add) {
      var c :| c in cards && c.id == id && Delivered(setup, c, ping, add);
      UsersCover(cards);
      ResolvedIdsComplete(setup, users, cards, ping, add, c);
    }
  }

  /** What the server answered to the mark-added request. */
  datatype PostReply = NoResponse | Status(code: int, results: map<string, bool>)

  /**
   * `mark_cards_as_added`: nothing is sent for no ids; a reply other than
   * 200, or none, gives no results.
   */
  function MarkCardsAsAdded(serverUrl: string, ids: seq<string>, post: (string, seq<string>) -> PostReply): (r: map<string, bool>)
    ensures ids == [] ==> r == map[]
    ensures ids != [] && (post(serverUrl + MarkAddedPath, ids).NoResponse? || post(serverUrl + MarkAddedPath, ids).code != 200) ==> r == map[]
    ensures ids != [] && post(serverUrl + MarkAddedPath, ids).Status? && post(serverUrl + MarkAddedPath, ids).code == 200
      ==> r == post(serverUrl + MarkAddedPath, ids).results
  {
    if ids == [] then map[]
    else match post(serverUrl + MarkAddedPath, ids)
      case NoResponse => map[]
      case Status(code, results) => if code == 200 then results else map[]
  }

  /** What one pass did: the cards fetched, the ids sent to mark-added (if any) and the results. */
  datatype Report = Report(fetched: seq<Card>, markRequest: Option<seq<string>>, marked: map<string, bool>)

  /** The agent's state: SERVER_URL, which a successful fallback replaces. */
  class Agent {
    var serverUrl: string
    const setup: Setup

    constructor (serverUrl: string, setup: Setup)
      ensures this.serverUrl == serverUrl && this.setup == setup
    {
      this.serverUrl := serverUrl;
      this.setup := setup;
    }

    /**
     * `get_pending_cards`: the main URL first, then the alternatives in order;
     * the first that answers gives the cards and becomes SERVER_URL. When none
     * answers the list is empty and SERVER_URL is kept.
     */
    method GetPendingCards(pending: string -> Option<seq<Card>>) returns (cards: seq<Card>)
      modifies this
      ensures var urls := Candidates(old(serverUrl));
        match FirstAnswering(urls, pending)
        case None => cards == [] && serverUrl == old(serverUrl)
        case Some(i) => cards == pending(urls[i]).value && serverUrl == urls[i]
    {
      var urls := Candidates(serverUrl);
      var fallback := ServerUrlWithFallback(serverUrl);
      var reply := pending(fallback.main);
      if reply.Some? {
        FirstAnsweringAt(urls, pending, 0);
        return reply.value;
      }
      var i := 0;
      while i < |fallback.alternatives|
        invariant 0 <= i <= |fallback.alternatives|
        invariant serverUrl == old(serverUrl)
        invariant forall j :: 0 <= j <= i ==> pending(urls[j]).None?
      {
        var alt := fallback.alternatives[i];
        reply := pending(alt);
        if reply.Some? {
          serverUrl := alt;
          assert urls[i + 1] == alt;
          FirstAnsweringAt(urls, pending, i + 1);
          return reply.value;
        }
        i := i + 1;
      }
      assert FirstAnswering(urls, pending).None?;
      return [];
    }

    /** `add_card_to_anki`: the user's overrides, then the addNote request to the user's AnkiConnect. */
    method AddCardToAnki(card: Card, add: (string, Note) -> Reply) returns (result: AddResult)
      ensures result == CardOutcome(setup, card, add)
    {
      var userConfig := ConfigFor(setup.configs, card.data.userId);
      var deckName := card.data.deckName;
      var modelName := card.data.modelName;
      if userConfig.Some? {
        if userConfig.value.deckName.Some? {
          deckName := userConfig.value.deckName.value;
        }
        if userConfig.value.noteType.Some? {
          modelName := userConfig.value.noteType.value;
        }
      }
      var note := Note(deckName, modelName, card.data.fields, false, card.data.tags);
      var reply := add(UserUrl(setup, card.data.userId), note);
      result := AddOutcome(reply);
    }

    /** The grouping loop of `process_pending_cards`. */
    static method GroupByUser(cards: seq<Card>) returns (users: seq<Option<string>>, groups: map<Option<string>, seq<Card>>)
      ensures users == UsersInOrder(cards)
      ensures forall u :: u in groups <==> u in users
      ensures forall u :: u in groups ==> groups[u] == CardsOf(cards, u)
    {
      users, groups := [], map[];
      var i := 0;
      while i < |cards|
        invariant 0 <= i <= |cards|
        invariant users == UsersInOrder(cards[..i])
        invariant forall u :: u in groups <==> u in users
        invariant forall u :: u in groups ==> groups[u] == CardsOf(cards[..i], u)
      {
        var card := cards[i];
        var u := card.data.userId;
        GroupStep(cards, i, users, groups);
        if u !in groups {
          users := users + [u];
          groups := groups[u := []];
        }
        groups := groups[u := groups[u] + [card]];
        i := i + 1;
      }
      assert cards[..|cards|] == cards;
    }

    /** The inner loop of `process_pending_cards` for one reachable user. */
    method DeliverGroup(group: seq<Card>, add: (string, Note) -> Reply) returns (ids: seq<string>)
      ensures ids == GroupIds(setup, group, add)
    {
      ids := [];
      var j := 0;
      while j < |group|
        invariant 0 <= j <= |group|
        invariant ids == GroupIds(setup, group[..j], add)
      {
        var card := group[j];
        GroupIdsNext(setup, group, j, add);
        if card.id != "" {
          var result := AddCardToAnki(card, add);
          if result.success || IsDuplicateError(result.detail) {
            ids := ids + [card.id];
          }
        }
        j := j + 1;
      }
      assert group[..|group|] == group;
    }

    /** The outer loop of `process_pending_cards`: users in order, skipping those whose Anki is down. */
    method DeliverAll(users: seq<Option<string>>, groups: map<Option<string>, seq<Card>>, cards: seq<Card>,
                      ping: string -> bool, add: (string, Note) -> Reply) returns (successful: seq<string>)
      requires forall u :: u in users ==> u in groups && groups[u] == CardsOf(cards, u)
      ensures successful == ResolvedIds(setup, users, cards, ping, add)
    {
      successful := [];
      var k := 0;
      while k < |users|
        invariant 0 <= k <= |users|
        invariant successful == ResolvedIds(setup, users[..k], cards, ping, add)
      {
        var u := users[k];
        ResolvedIdsNext(setup, users, k, cards, ping, add);
        if ping(UserUrl(setup, u)) {
          var ids := DeliverGroup(groups[u], add);
          successful := successful + ids;
        }
        k := k + 1;
      }
      assert users[..|users|] == users;
    }

    /**
     * `process_pending_cards`: fetch, group, add each reachable user's cards,
     * then mark the delivered ones with one request, and only if there are any.
     */
    method ProcessPendingCards(pending: string -> Option<seq<Card>>, ping: string -> bool,
                               add: (string, Note) -> Reply, post: (string, seq<string>) -> PostReply)
      returns (report: Report)
      modifies this
      ensures var urls := Candidates(old(serverUrl));
        match FirstAnswering(urls, pending)
        case None => report.fetched == [] && serverUrl == old(serverUrl)
        case Some(i) => report.fetched == pending(urls[i]).value && serverUrl == urls[i]
      ensures var ids := SuccessfulIds(setup, report.fetched, ping, add);
        && report.markRequest == (if ids == [] then None else Some(ids))
        && report.marked == MarkCardsAsAdded(serverUrl, ids, post)
    {
      var cards := GetPendingCards(pending);
      if cards == [] {
        return Report(cards, None, map[]);
      }
      var users, groups := GroupByUser(cards);
      var successful := DeliverAll(users, groups, cards, ping, add);
      if successful != [] {
        var marked := MarkCardsAsAdded(serverUrl, successful, post);
        return Report(cards, Some(successful), marked);
      }
      return Report(cards, None, map[]);
    }
  }
}
