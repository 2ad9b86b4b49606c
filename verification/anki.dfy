/**
 * The AnkiConnect side shared by the bot and the sync agent: the bot's card
 * settings (read from the environment at start-up), the field map of a card,
 * the `addNote` payload and how an AnkiConnect reply is turned into the
 * `(success, result)` pair both `add_to_anki` (main.py) and `add_card_to_anki`
 * (local_anki_adder.py) return.
 */
module Anki {

  /** ANKI_DECK_NAME, ANKI_NOTE_TYPE and the three field names. */
  datatype Settings = Settings(
    deckName: string,
    noteType: string,
    frontField: string,
    backField: string,
    sentenceField: string)

  /** The tag list every card carries. */
  const CardTags: seq<string> := ["telegram-bot", "auto-generated"]

  /** `if sentence and ANKI_SENTENCE_FIELD`: whether the example sentence gets a field. */
  predicate HasSentenceField(s: Settings, sentence: string) {
    sentence != "" && s.sentenceField != ""
  }

  /**
   * The field dictionary of a card: front and back under the configured names
   * and, when there is a sentence, the sentence under its name. As in a Python
   * dict literal, a later key that repeats an earlier one wins.
   */
  function NoteFields(s: Settings, front: string, back: string, sentence: string): (f: map<string, string>)
    ensures f.Keys == {s.frontField, s.backField} + (if HasSentenceField(s, sentence) then {s.sentenceField} else {})
    ensures HasSentenceField(s, sentence) ==> f[s.sentenceField] == sentence
    ensures !(HasSentenceField(s, sentence) && s.sentenceField == s.backField) ==> f[s.backField] == back
    ensures (s.frontField != s.backField && !(HasSentenceField(s, sentence) && s.sentenceField == s.frontField))
      ==> f[s.frontField] == front
  {
    var base := map[s.frontField := front, s.backField := back];
    if HasSentenceField(s, sentence) then base[s.sentenceField := sentence] else base
  }

  /** The `note` of an AnkiConnect `addNote` request (action "addNote", version 6). */
  datatype Note = Note(
    deckName: string,
    modelName: string,
    fields: map<string, string>,
    allowDuplicate: bool,
    tags: seq<string>)

  /**
   * What an AnkiConnect request came back with: no answer at all (the request
   * raised, with the exception's text), or a JSON reply whose `error` is the
   * empty string when it is null.
   */
  datatype Reply = NoAnswer(reason: string) | Answer(error: string, result: string)

  /** The `(success, result)` pair of an add request. */
  datatype AddResult = AddResult(success: bool, detail: string)

  /** A truthy `error` fails the add with that error; an exception fails it with its text. */
  function AddOutcome(reply: Reply): (r: AddResult)
    ensures r.success <==> reply.Answer? && reply.error == ""
    ensures r.success ==> r.detail == reply.result
    ensures reply.NoAnswer? ==> r.detail == reply.reason
    ensures reply.Answer? && !r.success ==> r.detail == reply.error
  {
    match reply
    case NoAnswer(reason) => AddResult(false, reason)
    case Answer(error, result) =>
      if error != "" then AddResult(false, error) else AddResult(true, result)
  }
}
