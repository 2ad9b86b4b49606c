/**
 * `parse_translation_response`, which appears word for word in server_bot.py
 * and main.py: the completion service's reply is stripped once, split at line
 * breaks, and every line that starts with "Translation:" or "Sentence:"
 * overwrites the corresponding value. Unrecognised lines are ignored, so a
 * malformed reply yields empty strings rather than an error.
 */
module ReplyParser {
  import opened Strings

  const TranslationPrefix: string := "Translation:"
  const SentencePrefix: string := "Sentence:"

  /** `target_language` is never stored by either bot, so every fresh translation asks for English. */
  const DefaultTargetLanguage: string := "English"

  datatype Parsed = Parsed(translation: string, sentence: string)

  /** The lines the parser walks: only the reply as a whole is stripped. */
  function Lines(reply: string): seq<string> {
    Split(Strip(reply), '\n')
  }

  /** What a "Translation:" line yields: every occurrence of the prefix removed, stripped, tag dropped. */
  function TranslationValue(line: string): (r: string)
    ensures |r| <= |line|
    ensures r == [] || (!IsSpace(r[0]) && !IsSpace(r[|r| - 1]))
  {
    var t := Strip(RemoveAll(line, TranslationPrefix));
    if '[' in t && ']' in t then Strip(AfterFirst(t, ']')) else t
  }

  /** What a "Sentence:" line yields: every occurrence of the prefix removed, stripped. */
  function SentenceValue(line: string): (r: string)
    ensures |r| <= |line|
    ensures r == [] || (!IsSpace(r[0]) && !IsSpace(r[|r| - 1]))
  {
    Strip(RemoveAll(line, SentencePrefix))
  }

  /** One iteration of the parser's loop. */
  function Step(acc: Parsed, line: string): (r: Parsed)
    ensures r.translation != acc.translation ==> StartsWith(line, TranslationPrefix) && r.sentence == acc.sentence
    ensures r.sentence != acc.sentence ==> StartsWith(line, SentencePrefix) && r.translation == acc.translation
    ensures !StartsWith(line, TranslationPrefix) && !StartsWith(line, SentencePrefix) ==> r == acc
  {
    if StartsWith(line, TranslationPrefix) then acc.(translation := TranslationValue(line))
    else if StartsWith(line, SentencePrefix) then acc.(sentence := SentenceValue(line))
    else acc
  }

  /** The loop's effect on the first |lines| lines, starting from two empty strings. */
  function ParseLines(lines: seq<string>): Parsed
    decreases |lines|
  {
    if lines == [] then Parsed("", "")
    else Step(ParseLines(lines[..|lines| - 1]), lines[|lines| - 1])
  }

  function Parse(reply: string): Parsed {
    ParseLines(Lines(reply))
  }

  /** The parser as the source writes it: a loop updating two local variables. */
  method ParseTranslationResponse(reply: string) returns (translation: string, sentence: string)
    ensures Parsed(translation, sentence) == Parse(reply)
  {
    var lines := Lines(reply);
    translation, sentence := "", "";
    var i := 0;
    while i < |lines|
      invariant 0 <= i <= |lines|
      invariant Parsed(translation, sentence) == ParseLines(lines[..i])
    {
      translation, sentence := ParseLine(lines[i], translation, sentence);
      ParseLinesNext(lines, i);
      i := i + 1;
    }
    assert lines[..|lines|] == lines;
  }

  /** The body of the parser's loop: a recognised line overwrites its value. */
  method ParseLine(line: string, translation0: string, sentence0: string) returns (translation: string, sentence: string)
    ensures Parsed(translation, sentence) == Step(Parsed(translation0, sentence0), line)
  {
    translation, sentence := translation0, sentence0;
    if StartsWith(line, TranslationPrefix) {
      var text := Strip(RemoveAll(line, TranslationPrefix));
      if '[' in text && ']' in text {
        translation := Strip(AfterFirst(text, ']'));
      } else {
        translation := text;
      }
    } else if StartsWith(line, SentencePrefix) {
      sentence := Strip(RemoveAll(line, SentencePrefix));
    }
  }

  /** One more line is one more step of the fold. */
  lemma ParseLinesNext(lines: seq<string>, i: nat)
    requires i < |lines|
    ensures ParseLines(lines[..i + 1]) == Step(ParseLines(lines[..i]), lines[i])
  {
    assert lines[..i + 1][..i] == lines[..i];
  }

  /** No line starts with both prefixes, so the `elif` never hides a sentence line. */
  lemma PrefixesExclusive(line: string)
    ensures !(StartsWith(line, TranslationPrefix) && StartsWith(line, SentencePrefix))
  {
    if StartsWith(line, TranslationPrefix) {
      assert line[..|SentencePrefix|][0] == 'T';
    }
  }

  /** The last line that starts with "Translation:" decides the translation; with none it is "". */
  lemma {:induction false} LastTranslationLineWins(lines: seq<string>, k: int)
    requires k == -1 || (0 <= k < |lines| && StartsWith(lines[k], TranslationPrefix))
    requires forall j :: k < j < |lines| ==> !StartsWith(lines[j], TranslationPrefix)
    ensures ParseLines(lines).translation == if k == -1 then "" else TranslationValue(lines[k])
    decreases |lines|
  {
    if lines != [] {
      var init := lines[..|lines| - 1];
      if k < |lines| - 1 {
        LastTranslationLineWins(init, k);
      }
    }
  }

  /** The last line that starts with "Sentence:" decides the sentence; with none it is "". */
  lemma {:induction false} LastSentenceLineWins(lines: seq<string>, k: int)
    requires k == -1 || (0 <= k < |lines| && StartsWith(lines[k], SentencePrefix))
    requires forall j :: k < j < |lines| ==> !StartsWith(lines[j], SentencePrefix)
    ensures ParseLines(lines).sentence == if k == -1 then "" else SentenceValue(lines[k])
    decreases |lines|
  {
    if lines != [] {
      var init := lines[..|lines| - 1];
      PrefixesExclusive(lines[|lines| - 1]);
      if k < |lines| - 1 {
        LastSentenceLineWins(init, k);
      }
    }
  }

  /** A reply in which no line begins with either prefix parses to two empty strings. */
  lemma NoRecognisedLine(reply: string)
    requires forall j :: 0 <= j < |Lines(reply)| ==>
               !StartsWith(Lines(reply)[j], TranslationPrefix) && !StartsWith(Lines(reply)[j], SentencePrefix)
    ensures Parse(reply) == Parsed("", "")
  {
    LastTranslationLineWins(Lines(reply), -1);
    LastSentenceLineWins(Lines(reply), -1);
  }

  /** Lines are not stripped one by one: an indented prefix is not recognised. */
  lemma IndentedLineIgnored(acc: Parsed, line: string)
    requires line != [] && IsSpace(line[0])
    ensures Step(acc, line) == acc
  {
    assert !StartsWith(line, TranslationPrefix) by { assert TranslationPrefix[0] == 'T'; }
    assert !StartsWith(line, SentencePrefix) by { assert SentencePrefix[0] == 'S'; }
  }

  /**
   * When both brackets occur, everything up to the first ']' (the language
   * tag) is dropped and the rest is stripped; otherwise the text is kept whole.
   */
  lemma TagDropped(line: string, head: string, tail: string)
    requires Strip(RemoveAll(line, TranslationPrefix)) == head + "]" + tail
    requires ']' !in head
    requires '[' in head + "]" + tail
    ensures TranslationValue(line) == Strip(tail)
  {
    var t := head + "]" + tail;
    assert t[|head|] == ']';
    assert t[..|head|] == head;
    var k := IndexOf(t, ']');
    assert k == |head|;
    assert t[k + 1..] == tail;
  }

  lemma TaglessKept(line: string)
    requires var t := Strip(RemoveAll(line, TranslationPrefix)); !('[' in t && ']' in t)
    ensures TranslationValue(line) == Strip(RemoveAll(line, TranslationPrefix))
  {
  }

  /** `str.replace` is applied to the whole line, so a prefix inside the text disappears as well. */
  lemma EmbeddedSentencePrefixRemoved(a: string, b: string)
    requires 'S' !in a && 'S' !in b
    ensures SentenceValue(SentencePrefix + a + SentencePrefix + b) == Strip(a + b)
  {
    assert SentencePrefix[0] == 'S';
    RemoveAllEmbedded(SentencePrefix, a, b);
  }

  lemma RemoveAllEmbedded(p: string, a: string, b: string)
    requires p != [] && p[0] !in a && p[0] !in b
    ensures RemoveAll(p + a + p + b, p) == a + b
  {
    var pb := p + b;
    var apb := a + pb;
    assert p + a + p + b == p + apb;
    RemoveAllLeading(p, apb);
    assert RemoveAll(p + a + p + b, p) == RemoveAll(apb, p);
    RemoveAllFreePrefix(a, pb, p);
    assert RemoveAll(apb, p) == a + RemoveAll(pb, p);
    RemoveAllLeading(p, b);
    NoFirstCharNotContained(b, p);
    RemoveAllAbsent(b, p);
  }

  /** A prefix free of the pattern's first character is copied through unchanged. */
  lemma {:induction false} RemoveAllFreePrefix(a: string, s: string, p: string)
    requires p != [] && p[0] !in a
    ensures RemoveAll(a + s, p) == a + RemoveAll(s, p)
    decreases |a|
  {
    if a != [] {
      var w := a + s;
      assert w[0] == a[0];
      if |w| >= |p| {
        assert w[..|p|] != p by { assert w[..|p|][0] == a[0]; }
        assert w[1..] == a[1..] + s;
        RemoveAllFreePrefix(a[1..], s, p);
        assert [a[0]] + (a[1..] + RemoveAll(s, p)) == a + RemoveAll(s, p);
      } else {
        assert RemoveAll(s, p) == s;
      }
    } else {
      assert a + s == s;
    }
  }

  lemma {:induction false} NoFirstCharNotContained(s: string, p: string)
    requires p != [] && p[0] !in s
    ensures !Contains(s, p)
    decreases |s|
  {
    if s != [] {
      NoFirstCharNotContained(s[1..], p);
      assert !StartsWith(s, p) by { if |p| <= |s| { assert s[..|p|][0] == s[0]; } }
    }
  }

  /** Text with no whitespace at either end (what `strip` leaves). */
  predicate Trimmed(x: string) {
    x != [] && !IsSpace(x[0]) && !IsSpace(x[|x| - 1])
  }

  /**
   * A well-formed two-line reply, "Translation: [<tag>] <x>" then "Sentence: <y>",
   * parses to `x` and `y`: the language tag is dropped and both values come
   * back stripped.
   */
  lemma WellFormedReply(tag: string, x: string, y: string)
    requires ']' !in tag && !Contains(tag, TranslationPrefix)
    requires Trimmed(x) && Trimmed(y)
    requires '\n' !in tag && '\n' !in x && '\n' !in y
    requires !Contains(x, TranslationPrefix) && !Contains(y, SentencePrefix)
    ensures Parse(TranslationPrefix + (" [" + tag + "] " + x) + "\n" + SentencePrefix + (" " + y)) == Parsed(x, y)
  {
    var l1 := TranslationPrefix + (" [" + tag + "] " + x);
    var l2 := SentencePrefix + (" " + y);
    assert TranslationPrefix + (" [" + tag + "] " + x) + "\n" + SentencePrefix + (" " + y) == l1 + "\n" + l2;
    assert l1[0] == 'T' && l2[|l2| - 1] == y[|y| - 1];
    assert '\n' !in l1 && '\n' !in l2;
    TwoLines(l1, l2);
    TranslationOfWellFormedLine(tag, x);
    SentenceOfWellFormedLine(y);
    assert !StartsWith(l2, TranslationPrefix) by { assert l2[..|SentencePrefix|][0] == 'S'; }
    assert StartsWith(l1, TranslationPrefix) by { assert l1[..|TranslationPrefix|] == TranslationPrefix; }
    assert StartsWith(l2, SentencePrefix) by { assert l2[..|SentencePrefix|] == SentencePrefix; }
    TwoSteps(l1, l2);
  }

  /** A "Translation:" line then a "Sentence:" line set both values from the empty start. */
  lemma TwoSteps(l1: string, l2: string)
    requires StartsWith(l1, TranslationPrefix) && StartsWith(l2, SentencePrefix) && !StartsWith(l2, TranslationPrefix)
    ensures Step(Step(Parsed("", ""), l1), l2) == Parsed(TranslationValue(l1), SentenceValue(l2))
  {
  }

  /** A reply made of two lines with nothing to strip at its ends is walked line by line. */
  lemma TwoLines(l1: string, l2: string)
    requires l1 != [] && !IsSpace(l1[0]) && l2 != [] && !IsSpace(l2[|l2| - 1])
    requires '\n' !in l1 && '\n' !in l2
    ensures Parse(l1 + "\n" + l2) == Step(Step(Parsed("", ""), l1), l2)
  {
    TwoLinesSplit(l1, l2);
    ParseTwo(l1, l2);
  }

  lemma ParseTwo(l1: string, l2: string)
    ensures ParseLines([l1, l2]) == Step(Step(Parsed("", ""), l1), l2)
  {
    var lines := [l1, l2];
    assert lines[..|lines| - 1] == [l1];
    assert [l1][..0] == [];
    assert ParseLines([l1]) == Step(ParseLines([]), l1);
    assert ParseLines(lines) == Step(ParseLines([l1]), l2);
  }

  lemma TwoLinesSplit(l1: string, l2: string)
    requires l1 != [] && !IsSpace(l1[0]) && l2 != [] && !IsSpace(l2[|l2| - 1])
    requires '\n' !in l1 && '\n' !in l2
    ensures Lines(l1 + "\n" + l2) == [l1, l2]
  {
    var reply := l1 + "\n" + l2;
    assert reply[0] == l1[0] && reply[|reply| - 1] == l2[|l2| - 1];
    StripUnpadded(reply);
    JoinOfTwo(l1, l2, '\n');
    SplitJoin([l1, l2], '\n');
  }

  lemma JoinOfTwo(a: string, b: string, sep: char)
    ensures Join([a, b], sep) == a + [sep] + b
  {
    assert [a, b][1..] == [b];
  }

  lemma TranslationOfWellFormedLine(tag: string, x: string)
    requires ']' !in tag && !Contains(tag, TranslationPrefix) && Trimmed(x) && !Contains(x, TranslationPrefix)
    ensures TranslationValue(TranslationPrefix + (" [" + tag + "] " + x)) == x
  {
    var line := TranslationPrefix + (" [" + tag + "] " + x);
    var head, tail := "[" + tag, " " + x;
    PrefixRemovedFromTaggedLine(tag, x);
    StripTaggedBody(tag, x);
    TaggedBodyParts(tag, x);
    TagDropped(line, head, tail);
    StripOneSpace(x);
  }

  /** "[tag] x" is the tag part, the closing bracket and the rest. */
  lemma TaggedBodyParts(tag: string, x: string)
    requires ']' !in tag
    ensures "[" + tag + "] " + x == ("[" + tag) + "]" + (" " + x)
    ensures ']' !in "[" + tag && '[' in ("[" + tag) + "]" + (" " + x)
  {
    assert (("[" + tag) + "]" + (" " + x))[0] == '[';
  }

  lemma PrefixRemovedFromTaggedLine(tag: string, x: string)
    requires !Contains(tag, TranslationPrefix) && !Contains(x, TranslationPrefix)
    ensures RemoveAll(TranslationPrefix + (" [" + tag + "] " + x), TranslationPrefix) == " [" + tag + "] " + x
  {
    var rest := " [" + tag + "] " + x;
    RemoveAllLeading(TranslationPrefix, rest);
    assert TranslationPrefix[0] == 'T' && ']' !in TranslationPrefix;
    ContainsAfterFreePrefix(" [", tag, TranslationPrefix);
    ContainsAfterFreePrefix(" ", x, TranslationPrefix);
    ContainsAcrossFree(" [" + tag, ']', " " + x, TranslationPrefix);
    assert (" [" + tag) + [']'] + (" " + x) == rest;
    RemoveAllAbsent(rest, TranslationPrefix);
  }

  lemma StripTaggedBody(tag: string, x: string)
    requires Trimmed(x)
    ensures Strip(" [" + tag + "] " + x) == "[" + tag + "] " + x
  {
    var body := "[" + tag + "] " + x;
    assert body[0] == '[' && body[|body| - 1] == x[|x| - 1];
    StripOneSpace(body);
    assert " " + body == " [" + tag + "] " + x;
  }

  lemma SentenceOfWellFormedLine(y: string)
    requires Trimmed(y) && !Contains(y, SentencePrefix)
    ensures SentenceValue(SentencePrefix + (" " + y)) == y
  {
    var rest := " " + y;
    RemoveAllLeading(SentencePrefix, rest);
    ContainsAfterFreePrefix(" ", y, SentencePrefix);
    RemoveAllAbsent(rest, SentencePrefix);
    StripOneSpace(y);
  }

  /** An occurrence in `a + b` lies in `b` when `a` lacks the pattern's first character. */
  lemma {:induction false} ContainsAfterFreePrefix(a: string, b: string, p: string)
    requires p != [] && p[0] !in a && !Contains(b, p)
    ensures !Contains(a + b, p)
    decreases |a|
  {
    if a == [] {
      assert a + b == b;
    } else {
      assert (a + b)[1..] == a[1..] + b;
      ContainsAfterFreePrefix(a[1..], b, p);
      assert !StartsWith(a + b, p) by {
        if |p| <= |a + b| { assert (a + b)[..|p|][0] == a[0]; }
      }
    }
  }

  /** An occurrence in `a + [c] + b` lies in `a` or in `b` when the pattern lacks `c`. */
  lemma {:induction false} ContainsAcrossFree(a: string, c: char, b: string, p: string)
    requires p != [] && c !in p && !Contains(a, p) && !Contains(b, p)
    ensures !Contains(a + [c] + b, p)
    decreases |a|
  {
    var s := a + [c] + b;
    if a == [] {
      assert s[1..] == b;
      assert !StartsWith(s, p) by {
        if |p| <= |s| { assert s[..|p|][0] == c; }
      }
    } else {
      assert s[1..] == a[1..] + [c] + b;
      ContainsAcrossFree(a[1..], c, b, p);
      assert !StartsWith(s, p) by {
        if |p| <= |s| {
          if |p| <= |a| {
            assert s[..|p|] == a[..|p|];
          } else {
            assert s[..|p|][|a|] == c;
          }
        }
      }
    }
  }
}
