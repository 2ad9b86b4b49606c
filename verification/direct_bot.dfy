/**
 * The earlier, queue-less bot (main.py): every message is translated, parsed
 * and sent straight to AnkiConnect as a card with the user's text on the
 * front and the parsed translation on the back. The completion service is
 * the `translate` oracle and AnkiConnect the `post` oracle.
 */
module DirectBot {
  import opened Anki
  import opened ReplyParser

  /** The note `add_to_anki` sends: configured deck and model, the field map, fixed tags, no duplicates. */
  function DirectNote(settings: Settings, front: string, back: string, sentence: string): (n: Note)
    ensures n.deckName == settings.deckName && n.modelName == settings.noteType
    ensures !n.allowDuplicate && n.tags == CardTags
    ensures n.fields.Keys == {settings.frontField, settings.backField}
      + (if HasSentenceField(settings, sentence) then {settings.sentenceField} else {})
  {
    Note(settings.deckName, settings.noteType, NoteFields(settings, front, back, sentence), false, CardTags)
  }

  /**
   * With three distinct field names, the front, back and (if any) sentence
   * sit under their own names; an empty sentence adds no field.
   */
  lemma DirectNoteFields(settings: Settings, front: string, back: string, sentence: string)
    requires settings.frontField != settings.backField
    requires settings.sentenceField != settings.frontField && settings.sentenceField != settings.backField
    ensures var f := DirectNote(settings, front, back, sentence).fields;
      && f[settings.frontField] == front && f[settings.backField] == back
      && (settings.sentenceField in f <==> sentence != "" && settings.sentenceField != "")
      && (settings.sentenceField in f ==> f[settings.sentenceField] == sentence)
  {
  }

  /** `add_to_anki`: the note is posted to AnkiConnect and the reply turned into `(success, result)`. */
  method AddToAnki(settings: Settings, ankiUrl: string, front: string, back: string, sentence: string,
                   post: (string, Note) -> Reply) returns (result: AddResult)
    ensures result == AddOutcome(post(ankiUrl, DirectNote(settings, front, back, sentence)))
  {
    var fields := map[settings.frontField := front, settings.backField := back];
    if sentence != "" && settings.sentenceField != "" {
      fields := fields[settings.sentenceField := sentence];
    }
    var note := Note(settings.deckName, settings.noteType, fields, false, CardTags);
    var reply := post(ankiUrl, note);
    result := AddOutcome(reply);
  }

  /**
   * `handle_message`: the text always goes on the front and the parsed
   * translation on the back; there is no flip.
   */
  method HandleMessage(settings: Settings, ankiUrl: string, text: string,
                       translate: (string, string) -> string, post: (string, Note) -> Reply)
    returns (parsed: Parsed, result: AddResult)
    ensures parsed == Parse(translate(text, DefaultTargetLanguage))
    ensures result == AddOutcome(post(ankiUrl, DirectNote(settings, text, parsed.translation, parsed.sentence)))
  {
    var reply := translate(text, DefaultTargetLanguage);
    var translation, sentence := ParseTranslationResponse(reply);
    parsed := Parsed(translation, sentence);
    result := AddToAnki(settings, ankiUrl, text, translation, sentence, post);
  }
}
