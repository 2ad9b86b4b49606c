# Telegram-to-Anki translation bot, modelled in Dafny

The repository is a Telegram bot that translates what a user sends. It asks a
language-completion service for a translation and an example sentence. The
user then reviews the result with four buttons: Add, Discard, Retry and Flip.
Added cards go into a queue file on the bot's server (`server_bot.py`). A sync
agent on the user's own machine (`local_anki_adder.py`) fetches the pending
cards over HTTP. It delivers each card to the AnkiConnect instance of the
card's user and reports the delivered cards back, so the server marks them
"added". An earlier, queue-less bot (`main.py`) sends every translation
straight to AnkiConnect.

The model covers three pieces of logic:

- **The card queue** (`card_queue.dfy`, `queue_api.dfy`).
  - `Queue` is a class whose `stored` field stands for the queue file; a `corrupt` flag makes it load as empty.
  - It covers id generation, the pending filter, and marking a card added.
  - It also covers the two HTTP endpoints with their secret check.
- **The per-user review state** (`review.dfy`, `reply_parser.dfy`, `anki.dfy`).
  - `Session` holds the proposal under review and the pending-retry marker.
  - Its methods follow the three Telegram handlers.
  - The reply parser is a loop, proved against a fold over the reply's lines.
- **The sync agent** (`sync_urls.dfy`, `sync_agent.dfy`).
  - Each user gets an AnkiConnect port from their position in `user_configs.json`.
  - The server URL gets nine successor-port fallbacks.
  - A user's configuration can override the deck and note type.
  - One pass fetches, groups cards by user, skips users whose Anki is down, counts duplicates as delivered, and marks everything with one request.
  - `Agent` is a class whose `serverUrl` field is the global `SERVER_URL`.

`direct_bot.dfy` models `main.py`. `strings.dfy` and `wrappers.dfy` give
Python's `strip`, `split`, `replace`, `lower`, `int` and `list.index` on
strings and sequences.

Every outside service is an oracle passed in as a function parameter:

- `translate` stands for the completion service;
- `pending` stands for the GET of `<server URL>/api/cards/pending`, given the server URL;
- `ping` stands for the AnkiConnect version probe;
- `add` and `post` stand for the AnkiConnect add request and the bot's direct AnkiConnect request;
- `post` in the sync agent stands for the mark-added POST.

The clock is passed in as two strings:

- `stamp` is the `%Y%m%d%H%M%S` text that goes into card ids;
- `now` is the ISO time that goes into `timestamp` and `added_at`.

Two details of the code that are easy to get wrong:

- Marking a card that is already "added" finds it again. It returns true and
  re-stamps `added_at` (`server_bot.py:131-136`), rather than reporting that
  nothing was marked. `CardQueue.RemarkRestamps` states this.
- `add_card_to_anki` has no fallback to a `"default"` configuration entry
  (`local_anki_adder.py:186-189`): a user without an entry of their own gets
  the card's deck and note type. `SyncAgent.NoDefaultFallback` states this.

Behaviour worth knowing, as the code has it:

- A `SERVER_URL` without a scheme, such as `localhost:5000`, has only two
  pieces after the split at ':'. It therefore gets no fallback ports
  (`SyncUrls.TwoPiecesNoFallback`).
- The parser removes every occurrence of a prefix, not only the leading one
  (`ReplyParser.EmbeddedSentencePrefixRemoved`).
- A card queued by the bot carries no user id. The agent therefore adds it
  with the bot's own deck and note type, exactly the note `main.py` would have
  sent (`SyncAgent.QueuedCardReachesAnkiUnchanged`).

## Model

| member | source | states |
|---|---|---|
| Strings.Strip | server_bot.py:272 | `str.strip`: the result is the input with leading and trailing whitespace removed, and neither starts nor ends with whitespace |
| Strings.StripPadded | server_bot.py:279 | whitespace padding around a text without outer whitespace strips back to that text |
| Strings.Split | server_bot.py:272 | `str.split` on one character always yields at least one piece |
| Strings.SplitPiecesFree | server_bot.py:272 | no piece of a split contains the separator |
| Strings.JoinSplit | local_anki_adder.py:127 | joining the pieces of a split with the same separator gives the input back |
| Strings.SplitJoin | local_anki_adder.py:123-127 | splitting a join of separator-free pieces gives the pieces back |
| Strings.SplitConcat | local_anki_adder.py:123 | splitting `a + sep + b` gives the pieces of `a` followed by the pieces of `b` |
| Strings.RemoveAll | server_bot.py:279 | `str.replace(p, "")` never lengthens the text |
| Strings.RemoveAllAbsent | server_bot.py:286 | removing a prefix that does not occur leaves the text unchanged |
| Strings.ContainsLower | local_anki_adder.py:312 | lower-casing a text keeps every occurrence of an all-lower-case phrase |
| Strings.BeforeFirst | local_anki_adder.py:76 | `split(c, 1)[0]`: the text before the first `c`, the whole text when there is none |
| Strings.SplitAtFirst | local_anki_adder.py:75 | for `a + c + b` with `c` not in `a`, the text before the first `c` is `a` and the text after is `b` |
| Strings.FindFirst | local_anki_adder.py:74-75 | the first position at which a substring occurs, or none exactly when it does not occur |
| Strings.Lower | local_anki_adder.py:312 | `str.lower` on ASCII: same length, each letter lower-cased |
| Strings.LowerIdempotent | local_anki_adder.py:312 | lower-casing twice is lower-casing once |
| Strings.NatToString | local_anki_adder.py:98 | the decimal text of a port: non-empty digits without a leading zero |
| Strings.ParseNat | local_anki_adder.py:130 | `int()` on a piece of text succeeds exactly on non-empty digit strings |
| Strings.ParseNatToString | local_anki_adder.py:130 | `int(str(n)) == n` |
| Strings.NatToStringInjective | local_anki_adder.py:98 | distinct ports have distinct decimal texts |
| Seqs.IndexIn | local_anki_adder.py:87 | `list.index`: the first position holding the value, or none exactly when the value is absent |
| Seqs.Filter | server_bot.py:143 | a list comprehension with a condition keeps exactly the elements satisfying it |
| Seqs.FilterAppend | server_bot.py:143 | filtering keeps order: the filter of `a + b` is the filter of `a` followed by that of `b` |
| Anki.NoteFields | server_bot.py:217-229 | the field map has the front and back names, plus the sentence name only when sentence and field name are non-empty; each value sits under its name unless a later key repeats it |
| Anki.AddOutcome | local_anki_adder.py:231-241 | success exactly when AnkiConnect answered with no error; the detail is the result, the error, or the exception text |
| CardQueue.CardId | server_bot.py:116 | the id is the stamp, a '-', then more text |
| CardQueue.CardIdRoundTrip | server_bot.py:116 | with a stamp free of '-', the stamp and the queue position can both be read back from the id |
| CardQueue.NumberedIdsUnique | server_bot.py:116 | ids that carry their positions are pairwise distinct |
| CardQueue.NewCard | server_bot.py:117-119 | the appended card is pending, not yet added, keeps the given data, carries the given time and has the id built from the stamp and its queue position |
| CardQueue.AddKeepsNumbered | server_bot.py:112-125 | appending a new card keeps every id carrying its position |
| CardQueue.PendingCards | server_bot.py:140-143 | the result holds exactly the stored cards whose status is "pending" |
| CardQueue.PendingAppend | server_bot.py:140-143 | storage order is kept across stretches of the queue |
| CardQueue.PendingAfterAdd | server_bot.py:140-143 | a newly queued card is the last pending card |
| CardQueue.FirstWithId | server_bot.py:131-133 | the index of the first card with the id, or none exactly when no card has it |
| CardQueue.MarkFirst | server_bot.py:127-138 | same length; without a match nothing changes; otherwise only the first match becomes "added" with `added_at` set, keeping its data, id and timestamp |
| CardQueue.MarkKeepsIds | server_bot.py:131-135 | marking changes no id |
| CardQueue.MarkKeepsNumbered | server_bot.py:131-135 | marking keeps every id carrying its position |
| CardQueue.FirstWithIdAfterMark | server_bot.py:131-133 | every id is found at the same place before and after a mark |
| CardQueue.FirstWithIdSameIds | server_bot.py:131-133 | where an id is found depends on the ids alone |
| CardQueue.RemarkRestamps | server_bot.py:131-136 | a marked card is found again, and marking twice equals marking once with the later time |
| CardQueue.MarkedNotPending | server_bot.py:127-143 | with distinct ids, a card marked added is no longer among the pending cards |
| CardQueue.Queue.Load | server_bot.py:89-102 | an unreadable queue file loads as the empty list |
| CardQueue.Queue.constructor | server_bot.py:91-92 | with no queue file the queue loads as empty |
| CardQueue.Queue.AddToQueue | server_bot.py:112-125 | appends exactly one pending card at the end, earlier cards unchanged; returns its id "<stamp>-<old length>"; the pending list grows by that card; numbered ids stay numbered |
| CardQueue.Queue.MarkCardAsAdded | server_bot.py:127-138 | true iff some card has the id; the new queue is `MarkFirst` of the old; nothing is written when no card has it |
| ReplyParser.ParseTranslationResponse | server_bot.py:270-288 | the loop yields the fold of `Step` over the lines of the stripped reply; `main.py:136-154` is the same code |
| ReplyParser.ParseLine | server_bot.py:277-286 | one loop iteration: a "Translation:" line replaces the translation, a "Sentence:" line the sentence, any other line changes nothing; this is one step of the fold |
| ReplyParser.PrefixesExclusive | server_bot.py:277-285 | no line starts with both prefixes, so the `elif` never hides a sentence line |
| ReplyParser.LastTranslationLineWins | server_bot.py:276-284 | the translation comes from the last "Translation:" line, or is "" when there is none |
| ReplyParser.LastSentenceLineWins | server_bot.py:285-286 | the sentence comes from the last "Sentence:" line, or is "" when there is none |
| ReplyParser.NoRecognisedLine | main.py:136-154 | a reply with no recognised line parses to two empty strings |
| ReplyParser.IndentedLineIgnored | main.py:138-152 | a line starting with whitespace is not recognised, since only the whole reply is stripped |
| ReplyParser.TranslationValue | server_bot.py:277-282 | the value read from a "Translation:" line is no longer than the line and carries no surrounding whitespace |
| ReplyParser.SentenceValue | server_bot.py:285-286 | the value read from a "Sentence:" line is no longer than the line and carries no surrounding whitespace |
| ReplyParser.Step | server_bot.py:276-286 | one line changes at most one value: the translation only on a "Translation:" line, the sentence only on a "Sentence:" line, nothing on any other line |
| ReplyParser.TagDropped | server_bot.py:281-282 | with both brackets present, everything up to the first ']' is dropped and the rest stripped |
| ReplyParser.TaglessKept | main.py:145-150 | without both brackets, the translation is the whole stripped remainder |
| ReplyParser.EmbeddedSentencePrefixRemoved | server_bot.py:286 | a "Sentence:" inside the text is removed too, not only the leading one |
| ReplyParser.RemoveAllEmbedded | server_bot.py:279 | removing a prefix from `p + a + p + b` leaves `a + b` when neither part starts a new match |
| ReplyParser.WellFormedReply | server_bot.py:270-288 | the reply shape the prompt asks for, "Translation: [tag] x" then "Sentence: y", parses to exactly (x, y) |
| ReplyParser.TwoLines | server_bot.py:272-276 | a two-line reply is walked as exactly those two lines in order |
| ReplyParser.TwoSteps | server_bot.py:276-286 | a "Translation:" line followed by a "Sentence:" line leaves both values set from their own line |
| ReplyParser.ContainsAcrossFree | server_bot.py:279 | a prefix without `]` cannot straddle the `]` closing a language tag, so a tag free of "Translation:" keeps the line free of it after the leading one |
| ReplyParser.TranslationOfWellFormedLine | server_bot.py:277-282 | "Translation: [tag] x" yields x |
| ReplyParser.SentenceOfWellFormedLine | server_bot.py:285-286 | "Sentence: y" yields y |
| Review.FrontBack | server_bot.py:367-371 | not flipped: front is the original, back the translation; flipped: the other way round |
| Review.Toggled | server_bot.py:415-419 | the Flip button changes `flipped` and nothing else |
| Review.FlipSwapsSides | server_bot.py:415-434 | after a flip, front and back are swapped |
| Review.DoubleFlipRestores | server_bot.py:415-419 | two flips restore the proposal, hence the same front and back |
| Review.Fresh | server_bot.py:315-321 | a new message installs an unflipped proposal with no prompt; front is the text, back the translation |
| Review.Retried | server_bot.py:475-485 | a retry replaces translation, sentence and prompt and keeps the original and `flipped` |
| Review.RetryPrompt | server_bot.py:470-472 | the retry instructions open with the fixed retry sentence followed by the original request, and end with the user's additional context |
| Review.RetryKeepsOrientation | server_bot.py:484-503 | the new translation lands on the side the old one was on |
| Review.QueuedCardData | server_bot.py:213-229 | the queued card has the configured deck and note type, the fixed tags, no user id, and the front/back/sentence fields |
| Review.QueueCardForAnki | server_bot.py:213-237 | enqueues exactly that card and returns its id |
| Review.Session.constructor | server_bot.py:343-346 | a new conversation has no proposal and no retry pending |
| Review.Session.HandleMessage | server_bot.py:290-321 | the proposal becomes the fresh parse of the English translation of the text; the retry marker is untouched |
| Review.Session.ButtonCallback | server_bot.py:338-438 | without a proposal nothing happens; Add queues the card as oriented, Discard only reports, Retry records the message, Flip toggles the orientation; Add and Discard keep the proposal; nothing else changes |
| Review.Session.HandleRetryResponse | server_bot.py:440-511 | with a retry pending and a proposal present, the original is re-translated with the retry prompt, only translation, sentence and prompt change and the marker is cleared; otherwise the text is handled as a new message |
| QueueApi.PendingCardsApi | server_bot.py:516-524 | status 401 exactly when the secret is wrong; otherwise the response is the pending cards in storage order (`PendingCards` of the loaded queue) |
| QueueApi.Authorized | server_bot.py:520 | a request without `X-API-Secret` is never authorised; an authorised one carries exactly the configured secret (the same test guards line 530) |
| QueueApi.MarkEach | server_bot.py:540-541 | marking each requested id in turn keeps the queue length |
| QueueApi.MarkEachKeepsIds | server_bot.py:540-541 | no id changes across the whole request |
| QueueApi.FirstWithIdAfterMarkEach | server_bot.py:540-541 | every id is found where it was before the request |
| QueueApi.MarkEachEffect | server_bot.py:540-541 | every requested id that names a card has that card marked added; a card whose id was not requested is untouched |
| QueueApi.MarkAddedApi | server_bot.py:526-543 | wrong secret gives 401 and missing `card_ids` gives 400, both with the queue untouched; otherwise one result per distinct requested id, true exactly when a card had it, and the queue is each id marked in turn |
| QueueApi.MarkAll | server_bot.py:537-543 | the loop over `card_ids`: results keyed by exactly the requested ids, each telling whether the id was found |
| SyncUrls.AssignedUsers | local_anki_adder.py:79-83 | the config keys with the first "default" removed and the order of the others kept: unchanged when absent, otherwise the keys before and after the first "default" joined |
| SyncUrls.DefaultNotAssigned | local_anki_adder.py:79-83 | with distinct keys, "default" never gets a port of its own |
| SyncUrls.UserPort | local_anki_adder.py:85-95 | the user at position i of the assigned users (its first occurrence) gets port 8765 + i + 1; an unknown user gets 8765 |
| SyncUrls.DistinctUsersDistinctPorts | local_anki_adder.py:85-95 | distinct configured users get distinct ports, all above 8765 |
| SyncUrls.ExamplePorts | local_anki_adder.py:79-95 | with keys "default", "7", "42": user 7 gets 8766, user 42 gets 8767, "default" gets 8765 |
| SyncUrls.AnkiConnectUrl | local_anki_adder.py:63-100 | a missing or empty user id gives the base URL unchanged |
| SyncUrls.AnkiConnectUrlShape | local_anki_adder.py:73-98 | for a base "protocol://host" followed by a port or a path, the user's URL keeps protocol and host, drops the path and carries the user's port |
| SyncUrls.ServerUrlWithFallback | local_anki_adder.py:115-144 | the main URL is unchanged and there are either no alternatives or exactly nine |
| SyncUrls.Alternatives | local_anki_adder.py:135-137 | exactly nine URLs; the i-th has the same host part and path and port port+i+1 |
| SyncUrls.FallbackPorts | local_anki_adder.py:121-138 | for "host part:port path", the nine alternatives carry ports port+1 to port+9 in order with the same host part and path |
| SyncUrls.NoColonNoFallback | local_anki_adder.py:121-144 | a URL without ':' has no alternatives |
| SyncUrls.NonNumericPortNoFallback | local_anki_adder.py:129-141 | when the port text (after the last ':', before any '/') holds no decimal digit, `int()` fails and there are no alternatives |
| SyncUrls.TwoPiecesNoFallback | local_anki_adder.py:123-124 | a URL with a single ':' has no alternatives |
| SyncUrls.Candidates | local_anki_adder.py:151-162 | the URLs tried: the main one first, then the alternatives (1 or 10 in all) |
| SyncAgent.FirstAnswering | local_anki_adder.py:153-174 | the first URL whose pending-cards request succeeded; every earlier one failed; none exactly when all fail |
| SyncAgent.ConfigFor | local_anki_adder.py:183-189 | a configuration is used exactly for a non-empty user id with an entry of its own, and it is that entry |
| SyncAgent.UserNote | local_anki_adder.py:186-224 | deck and model come from the user's entry when it names them, else from the card; fields and tags unchanged; duplicates never allowed |
| SyncAgent.NoDefaultFallback | local_anki_adder.py:186-189 | a card without an entry of its own keeps its deck and model, even when a "default" entry exists |
| SyncAgent.PartialOverride | local_anki_adder.py:198-203 | an entry naming only a deck overrides the deck and keeps the note type |
| SyncAgent.QueuedCardReachesAnkiUnchanged | local_anki_adder.py:186-224 | a card the bot queued reaches Anki as exactly the note the queue-less bot sends for the same sides |
| SyncAgent.DuplicateIgnoresCase | local_anki_adder.py:312 | the duplicate test gives the same answer for an error and its lower-cased form |
| SyncAgent.IsDuplicateError | local_anki_adder.py:312 | an error text containing "already exists" or "duplicate" counts as a duplicate, whatever the case of the rest |
| SyncAgent.Accepted | local_anki_adder.py:306-316 | a successful add is accepted, so is a failure whose text reports a duplicate; a failure whose lower-cased text mentions neither phrase is not |
| SyncAgent.UsersInOrder | local_anki_adder.py:279-285 | the grouped users are pairwise distinct |
| SyncAgent.UsersFirstAppearance | local_anki_adder.py:279-285 | users are listed in order of first appearance: some card of an earlier listed user comes before every card of a later one |
| SyncAgent.UsersSound | local_anki_adder.py:279-285 | every listed user owns a fetched card |
| SyncAgent.UsersCover | local_anki_adder.py:279-285 | every card's user is among the grouped users |
| SyncAgent.CardsOf | local_anki_adder.py:279-285 | a user's group is no longer than the fetched list |
| SyncAgent.CardsOfAppend | local_anki_adder.py:279-285 | grouping keeps the fetched order: the group of a concatenation is the group of the first part followed by the group of the second |
| SyncAgent.CardsOfMembership | local_anki_adder.py:279-285 | a user's group holds exactly the cards of that user |
| SyncAgent.CardsOfAbsent | local_anki_adder.py:282-283 | a user not seen yet has no cards so far |
| SyncAgent.GroupsPartition | local_anki_adder.py:279-285 | every card lands in exactly one group, its own user's |
| SyncAgent.GroupIdsMembership | local_anki_adder.py:297-316 | an id comes out of a user's group exactly when a card of the group has it, it is non-empty, and the add was accepted |
| SyncAgent.ResolvedIdsSound | local_anki_adder.py:287-316 | every reported id belongs to a card whose user's Anki answered and whose add was accepted |
| SyncAgent.ResolvedIdsComplete | local_anki_adder.py:287-316 | every such card's id is reported |
| SyncAgent.SuccessfulIdsExactly | local_anki_adder.py:287-316 | an id is reported exactly when a fetched card has it, its user's Anki answered, and the add succeeded or failed as a duplicate |
| SyncAgent.MarkCardsAsAdded | local_anki_adder.py:243-267 | no ids give `{}` with no request; no reply or a status other than 200 gives `{}`; otherwise the server's results |
| SyncAgent.Agent.constructor | local_anki_adder.py:44-61 | the agent starts with the configured server URL and settings |
| SyncAgent.FirstAnsweringAt | local_anki_adder.py:153-171 | a URL that answers after every earlier candidate failed is the one the search settles on |
| SyncAgent.Agent.GetPendingCards | local_anki_adder.py:146-177 | tries the main URL, then the alternatives in order; the first that answers gives the cards and becomes the server URL; if none answers, `[]` and the URL is kept |
| SyncAgent.Agent.AddCardToAnki | local_anki_adder.py:179-241 | the outcome of posting the user's note (`UserNote`) to the user's AnkiConnect URL |
| SyncAgent.Agent.GroupByUser | local_anki_adder.py:279-285 | the users are `UsersInOrder` and each group is `CardsOf` (order stated by `UsersFirstAppearance` and `CardsOfAppend`) |
| SyncAgent.Agent.DeliverGroup | local_anki_adder.py:297-316 | the ids of the group's cards that have an id and were accepted, in order |
| SyncAgent.Agent.DeliverAll | local_anki_adder.py:287-316 | the ids of all reachable users' accepted cards, users in order |
| SyncAgent.Agent.ProcessPendingCards | local_anki_adder.py:269-327 | fetches as `GetPendingCards`; the mark-added request is sent once and only when the delivered ids are non-empty, and it carries exactly those ids |
| DirectBot.DirectNote | main.py:77-103 | the note has the configured deck and note type, never allows duplicates, carries the fixed tags, and has the front/back/sentence field names |
| DirectBot.DirectNoteFields | main.py:80-87 | with distinct field names, front and back sit under their names; the sentence field is present exactly when sentence and field name are non-empty |
| DirectBot.AddToAnki | main.py:77-116 | the outcome of posting that note to AnkiConnect |
| DirectBot.HandleMessage | main.py:156-171 | the text goes on the front and the parsed English translation on the back, with no flip |

## Left out

- The Telegram side is left out because it is user-interface I/O. This covers message texts, keyboards, `send_chat_action`, `/start`, `/help` and the emoji rendering of replies.
- The completion service is the `translate` oracle. Its prompt wording and the "Error translating" fallback string are left out because the service's output is not specified.
- `target_language` is never set by any handler, so the model always asks for English.
- `log_to_file`, logging, `.env` loading and the start-up exit checks are left out because they are I/O and configuration.
- JSON file reads and writes are left out. An unreadable queue file is the `corrupt` flag. A save that fails silently is not modelled: `save_queue` always succeeds in the model.
- `queue_card_for_anki`'s exception path (`False, str(e)`) is not reachable in the model, because the queue write cannot fail here.
- Flask routing, the server thread and `run_flask_app`'s port retry are left out because they are concurrency and server plumbing.
- The read-modify-write race between the bot's handlers and the API on the queue file is left out, because the model is sequential.
- HTTP through `requests` and `aiohttp` is replaced by oracles, and so are AnkiConnect's semantics. The `X-API-Secret` header the agent sends is part of what its oracles see and is not modelled separately.
- The `time.sleep` / `KeyboardInterrupt` loop of the agent's `main` is left out because it is scheduling around I/O.
- `load_user_configs` reading `user_configs.json` is not modelled; the decoded object is the `Configs` value.
- `is_anki_running` is the `ping` oracle.
- `SyncUrls.AnkiConnectUrl`: its contract states only the no-user case; the full shape is stated by `SyncUrls.AnkiConnectUrlShape` for bases of the usual form, not for every string.
- `Strings.ParseNat`: `int()` is restricted to decimal digit strings. Signs, surrounding whitespace, underscores and other Unicode digits are not modelled.
- `Strings.Lower`: lower-cases ASCII letters only; Python's Unicode case mapping is not modelled.
- User ids are strings or absent; a numeric user id, which Python would look up with `str(user_id)` but store as an `int` key, is not modelled.
- `Review.Session.ButtonCallback`: a `current_translation` that is present but empty counts as missing in the source; the model has only present or absent.
