/**
 * The per-user review state of the Telegram bot (server_bot.py): the proposal
 * under review (`current_translation`) and the message a retry was asked
 * from (`awaiting_retry`), as `handle_message`, `button_callback` and
 * `handle_retry_response` update them. The completion service is the
 * `translate` oracle, taking the text and the extra instructions and giving
 * back the raw reply.
 */
module Review {
  import opened Wrappers
  import opened Strings
  import opened Anki
  import opened ReplyParser
  import opened CardQueue

  /** The `current_translation` dictionary. */
  datatype Proposal = Proposal(
    original: string,
    translation: string,
    sentence: string,
    prompt: Option<string>,
    flipped: bool)

  datatype Sides = Sides(front: string, back: string)

  /** Front and back as every handler resolves them from the `flipped` flag. */
  function FrontBack(p: Proposal): (s: Sides)
    ensures !p.flipped ==> s == Sides(p.original, p.translation)
    ensures p.flipped ==> s == Sides(p.translation, p.original)
  {
    if p.flipped then Sides(p.translation, p.original) else Sides(p.original, p.translation)
  }

  /** What the Flip button stores: only `flipped` changes. */
  function Toggled(p: Proposal): (q: Proposal)
    ensures q.flipped != p.flipped
    ensures q.original == p.original && q.translation == p.translation
    ensures q.sentence == p.sentence && q.prompt == p.prompt
  {
    p.(flipped := !p.flipped)
  }

  /** A flip swaps front and back. */
  lemma FlipSwapsSides(p: Proposal)
    ensures FrontBack(Toggled(p)) == Sides(FrontBack(p).back, FrontBack(p).front)
  {
  }

  /** Two flips give back the same proposal, hence the same front and back. */
  lemma DoubleFlipRestores(p: Proposal)
    ensures Toggled(Toggled(p)) == p
    ensures FrontBack(Toggled(Toggled(p))) == FrontBack(p)
  {
  }

  /** The proposal `handle_message` installs: the text with its parsed reply, not flipped, no prompt. */
  function Fresh(text: string, parsed: Parsed): (p: Proposal)
    ensures !p.flipped && p.prompt == None
    ensures FrontBack(p) == Sides(text, parsed.translation) && p.sentence == parsed.sentence
  {
    Proposal(text, parsed.translation, parsed.sentence, None, false)
  }

  const RetryOpening: string := "This is the retry attempt for the task the original translation was: Request: "

  /** The instructions of a retry: the earlier request and answer followed by the user's context. */
  function RetryPrompt(p: Proposal, context: string): (r: string)
    ensures StartsWith(r, RetryOpening + p.original)
    ensures |context| <= |r| && r[|r| - |context|..] == context
  {
    RetryOpening + p.original
    + " \n Response: " + p.translation + " \n Sentence: " + p.sentence
    + " \n\nAdditional context: " + context
  }

  /** The proposal after a retry: new translation, sentence and prompt; same text and orientation. */
  function Retried(p: Proposal, parsed: Parsed, prompt: string): (q: Proposal)
    ensures q.original == p.original && q.flipped == p.flipped
    ensures q.translation == parsed.translation && q.sentence == parsed.sentence
    ensures q.prompt == Some(prompt)
  {
    p.(translation := parsed.translation, sentence := parsed.sentence, prompt := Some(prompt))
  }

  /** A retry keeps the orientation: the new translation lands on the side the old one was on. */
  lemma RetryKeepsOrientation(p: Proposal, parsed: Parsed, prompt: string)
    ensures FrontBack(Retried(p, parsed, prompt)) ==
      if p.flipped then Sides(parsed.translation, p.original) else Sides(p.original, parsed.translation)
  {
  }

  /** The card dictionary `queue_card_for_anki` builds; the sentence is kept whichever way round. */
  function QueuedCardData(settings: Settings, sides: Sides, sentence: string): (d: CardData)
    ensures d.deckName == settings.deckName && d.modelName == settings.noteType
    ensures d.tags == CardTags && d.userId == None
    ensures d.fields.Keys == {settings.frontField, settings.backField}
      + (if HasSentenceField(settings, sentence) then {settings.sentenceField} else {})
  {
    CardData(settings.deckName, settings.noteType, NoteFields(settings, sides.front, sides.back, sentence), CardTags, None)
  }

  /** `queue_card_for_anki`: builds the card and enqueues it; the id is returned. */
  method QueueCardForAnki(queue: Queue, settings: Settings, sides: Sides, sentence: string, stamp: string, now: string)
    returns (cardId: string)
    modifies queue
    ensures cardId == CardId(stamp, |old(queue.Load())|)
    ensures queue.Load() == old(queue.Load()) + [NewCard(QueuedCardData(settings, sides, sentence), stamp, now, |old(queue.Load())|)]
  {
    cardId := queue.AddToQueue(QueuedCardData(settings, sides, sentence), stamp, now);
  }

  /** What a button press shows the user. */
  datatype Outcome =
    | NotFound
    | Queued(cardId: string, sides: Sides)
    | Discarded(sides: Sides)
    | RetryRequested(sides: Sides)
    | Flipped(sides: Sides)
    | Ignored

  /** One user's `context.user_data`. */
  class Session {
    var current: Option<Proposal>
    var awaitingRetry: Option<int>

    constructor ()
      ensures current == None && awaitingRetry == None
    {
      current := None;
      awaitingRetry := None;
    }

    /**
     * `handle_message`: translates the text, parses the reply and installs a
     * fresh proposal, dropping whatever was under review. `awaiting_retry` is
     * left as it was.
     */
    method HandleMessage(text: string, translate: (string, string) -> string)
      modifies this
      ensures current == Some(Fresh(text, Parse(translate(text, DefaultTargetLanguage))))
      ensures awaitingRetry == old(awaitingRetry)
    {
      var reply := translate(text, DefaultTargetLanguage);
      var translation, sentence := ParseTranslationResponse(reply);
      current := Some(Proposal(text, translation, sentence, None, false));
    }

    /**
     * `button_callback`. Without a proposal nothing happens. "add" queues the
     * card as currently oriented, "discard" only reports, "retry" remembers
     * the message, "flip" toggles the orientation. Add and Discard leave the
     * proposal in place.
     */
    method ButtonCallback(data: string, messageId: int, queue: Queue, settings: Settings, stamp: string, now: string)
      returns (outcome: Outcome)
      modifies this, queue
      ensures old(current).None? ==> outcome == NotFound
      ensures current == if data == "flip" && old(current).Some? then Some(Toggled(old(current).value)) else old(current)
      ensures awaitingRetry == if data == "retry" && old(current).Some? then Some(messageId) else old(awaitingRetry)
      ensures queue.Load() ==
        if data == "add" && old(current).Some?
        then old(queue.Load()) + [NewCard(QueuedCardData(settings, FrontBack(old(current).value), old(current).value.sentence),
                                         stamp, now, |old(queue.Load())|)]
        else old(queue.Load())
      ensures old(current).Some? ==>
        var p := old(current).value;
        outcome == (if data == "add" then Queued(CardId(stamp, |old(queue.Load())|), FrontBack(p))
                    else if data == "discard" then Discarded(FrontBack(p))
                    else if data == "retry" then RetryRequested(FrontBack(p))
                    else if data == "flip" then Flipped(FrontBack(Toggled(p)))
                    else Ignored)
    {
      if current.None? {
        return NotFound;
      }
      var p := current.value;
      var sides := FrontBack(p);
      if data == "add" {
        var cardId := QueueCardForAnki(queue, settings, sides, p.sentence, stamp, now);
        outcome := Queued(cardId, sides);
      } else if data == "discard" {
        outcome := Discarded(sides);
      } else if data == "retry" {
        awaitingRetry := Some(messageId);
        outcome := RetryRequested(sides);
      } else if data == "flip" {
        var q := p.(flipped := !p.flipped);
        current := Some(q);
        outcome := Flipped(FrontBack(q));
      } else {
        outcome := Ignored;
      }
    }

    /**
     * `handle_retry_response`: with a retry pending and a proposal present,
     * the text is taken as extra instructions, the original is translated
     * again and only translation, sentence and prompt change; the retry flag
     * is cleared. Otherwise the text is an ordinary message.
     */
    method HandleRetryResponse(text: string, translate: (string, string) -> string)
      modifies this
      ensures old(awaitingRetry).Some? && old(current).Some? ==>
        var p := old(current).value;
        var prompt := RetryPrompt(p, text);
        current == Some(Retried(p, Parse(translate(p.original, prompt)), prompt)) && awaitingRetry == None
      ensures !(old(awaitingRetry).Some? && old(current).Some?) ==>
        current == Some(Fresh(text, Parse(translate(text, DefaultTargetLanguage)))) && awaitingRetry == old(awaitingRetry)
    {
      if awaitingRetry.None? || current.None? {
        HandleMessage(text, translate);
        return;
      }
      var p := current.value;
      var prompt := RetryPrompt(p, text);
      var reply := translate(p.original, prompt);
      var translation, sentence := ParseTranslationResponse(reply);
      current := Some(p.(prompt := Some(prompt), translation := translation, sentence := sentence));
      awaitingRetry := None;
    }
  }
}
