/**
 * The document flashcard generator
 * (app/generators/document_flashcard_generator.py): the Q&A parser, the
 * per-card cleaner and validator, the rule-based fallback and the gating
 * in `generate_flashcards`. Model responses are inputs (None for an
 * empty response or a failed call); `decode` stands for `json.loads`;
 * `flag` is the value of `ENABLE_RULE_BASED_FALLBACK`, None when the
 * configuration module does not define it and the import raises.
 */
module DocumentFlashcard {
  import opened Wrappers
  import opened Text
  import opened Markers
  import opened Json
  import opened Cleaning
  import opened Pipeline
  import opened Sections
  import Concepts
  import opened RuleBased

  /** A flashcard dict with the keys every producer writes. */
  datatype Card = Card(question: string, answer: string, kind: string, difficulty: Value)

  const QA := "Q&A"

  /** The dict a producer appends, as the cleaner sees it. */
  function ToValue(c: Card): Value {
    Obj([("question", Str(c.question)), ("answer", Str(c.answer)), ("type", Str(c.kind)), ("difficulty", c.difficulty)])
  }

  // ---------------------------------------------------------------------
  // `_parse_qa_format`

  /** `re.split(r'(?:Q:|Question:)', content, flags=re.IGNORECASE)`. */
  const QuestionMarks: seq<Marker> := [Ci("Q:"), Ci("Question:")]
  /** `(?:A:|Answer:)` under IGNORECASE, for both the search and the split. */
  const AnswerMarks: seq<Marker> := [Ci("A:"), Ci("Answer:")]

  /**
   * The card of one stripped section: when an answer mark occurs, the
   * text before the first mark is the question and the text between the
   * first and second marks the answer, both stripped and each longer than
   * 5 characters.
   */
  function SectionCard(section: string): Option<Card> {
    if !HasMatch(section, AnswerMarks) then None
    else
      var parts := ReSplit(section, AnswerMarks);
      if |parts| < 2 then None
      else
        var question := Strip(parts[0]);
        var answer := Strip(parts[1]);
        if question != [] && answer != [] && |question| > 5 && |answer| > 5 then
          Some(Card(question, answer, QA, Str("beginner")))
        else None
  }

  /**
   * What a section's card is: the stripped texts before the first answer
   * mark and between the first and second, neither containing an answer
   * mark; and once the search has found a mark, the split always yields
   * both parts.
   */
  lemma SectionCardShape(section: string)
    ensures HasMatch(section, AnswerMarks) ==> |ReSplit(section, AnswerMarks)| >= 2
    ensures var r := SectionCard(section);
            r.Some? ==>
              var parts := ReSplit(section, AnswerMarks);
              && |parts| >= 2
              && r.value.question == Strip(parts[0]) && r.value.answer == Strip(parts[1])
              && CleanPiece(parts[0], AnswerMarks) && CleanPiece(parts[1], AnswerMarks)
              && |r.value.question| > 5 && |r.value.answer| > 5
              && r.value.kind == QA && r.value.difficulty == Str("beginner")
  {
    HasMatchIffSplits(section, AnswerMarks);
    var parts := ReSplit(section, AnswerMarks);
    ReSplitPiecesClean(section, AnswerMarks);
    if |parts| >= 2 {
      assert parts[0] in parts && parts[1] in parts;
    }
  }

  /** A section with no answer mark yields no card. */
  lemma SectionWithoutAnswer(section: string)
    requires |ReSplit(section, AnswerMarks)| < 2
    ensures SectionCard(section).None?
  {
    HasMatchIffSplits(section, AnswerMarks);
  }

  function ParseCards(content: string, expected: int): seq<Card> {
    ParseUntil(ReSplit(content, QuestionMarks), expected, SectionCard, [])
  }

  /**
   * `_parse_qa_format`: at most `max(expected_count, 1)` cards (the count
   * is checked right after an append), each the card of one non-blank
   * section, with question and answer longer than 5 characters.
   */
  lemma ParsedCards(content: string, expected: int)
    ensures var r := ParseCards(content, expected);
            |r| <= Max(expected, 1)
            && (expected >= 1 ==> |r| <= expected)
            && forall i :: 0 <= i < |r| ==>
                 |r[i].question| > 5 && |r[i].answer| > 5 && r[i].kind == QA && r[i].difficulty == Str("beginner")
                 && exists j :: 0 <= j < |ReSplit(content, QuestionMarks)| && ParsedFrom(ReSplit(content, QuestionMarks)[j], SectionCard, r[i])
  {
    var sections := ReSplit(content, QuestionMarks);
    ParseUntilBound(sections, expected, SectionCard, []);
    ParseUntilSections(sections, expected, SectionCard, []);
    var r := ParseCards(content, expected);
    forall i | 0 <= i < |r|
      ensures |r[i].question| > 5 && |r[i].answer| > 5 && r[i].kind == QA && r[i].difficulty == Str("beginner")
    {
      assert exists j :: 0 <= j < |sections| && ParsedFrom(sections[j], SectionCard, r[i]);
      var j :| 0 <= j < |sections| && ParsedFrom(sections[j], SectionCard, r[i]);
      SectionCardShape(Strip(sections[j]));
    }
  }

  /**
   * `_parse_qa_format`, as the loop it is. `currentQuestion` is the
   * method's own bookkeeping for sections without an answer mark; it
   * never reaches the result.
   */
  method ParseQaFormat(content: string, expectedCount: int) returns (flashcards: seq<Card>)
    ensures flashcards == ParseCards(content, expectedCount)
  {
    var sections := ReSplit(content, QuestionMarks);
    flashcards := ParseQaSections(sections, expectedCount);
  }

  /** The loop of `_parse_qa_format` over the sections. */
  method ParseQaSections(sections: seq<string>, expectedCount: int) returns (flashcards: seq<Card>)
    ensures flashcards == ParseUntil(sections, expectedCount, SectionCard, [])
  {
    flashcards := [];
    var currentQuestion := "";
    var i := 0;
    while i < |sections|
      invariant 0 <= i <= |sections|
      invariant ParseUntil(sections, expectedCount, SectionCard, []) == ParseUntil(sections[i..], expectedCount, SectionCard, flashcards)
    {
      ParseUntilStep(sections, i, expectedCount, SectionCard, flashcards);
      var section := Strip(sections[i]);
      ghost var q0 := if section == [] then None else SectionCard(section);
      ghost var before := flashcards;
      if section != [] {
        var q;
        q, currentQuestion := ParseQaSection(section, currentQuestion);
        if q.Some? {
          flashcards := flashcards + [q.value];
          if |flashcards| >= expectedCount {
            return;
          }
        }
      }
      assert q0.Some? ==> |before| + 1 < expectedCount;
      assert flashcards == Append(before, q0);
      i := i + 1;
    }
  }

  /**
   * The body of that loop for one stripped, non-empty section: the card
   * it yields, if any, and the question remembered from a section
   * without an answer label (which no later step reads).
   */
  method ParseQaSection(section: string, currentQuestion: string) returns (q: Option<Card>, question': string)
    requires section != []
    ensures q == SectionCard(section)
    ensures question' == if !HasMatch(section, AnswerMarks) && currentQuestion == [] && |section| > 5 then section else currentQuestion
  {
    q, question' := None, currentQuestion;
    if HasMatch(section, AnswerMarks) {
      var parts := ReSplit(section, AnswerMarks);
      if |parts| >= 2 {
        var question := Strip(parts[0]);
        var answer := Strip(parts[1]);
        if question != [] && answer != [] && |question| > 5 && |answer| > 5 {
          q := Some(Card(question, answer, QA, Str("beginner")));
        }
      }
    } else if currentQuestion == [] && |section| > 5 {
      question' := section;
    }
  }

  // ---------------------------------------------------------------------
  // `_is_valid_flashcard`, `_clean_text`, `_clean_and_validate_flashcards`

  /** `_is_valid_flashcard`. */
  predicate IsValidCard(question: string, answer: string) {
    |question| >= 10 && |answer| >= 10 && EndsWithChar(question, '?') && !EndsWithChar(answer, '?')
  }

  /** `_clean_text` of this generator: the same pipeline and mark list as the document quiz generator. */
  function CleanText(text: string): (r: string)
    ensures Clean(r)
  {
    DocumentClean(text, QaLabels)
  }

  /** The cleaner raises only on a non-dict item or a non-string question or answer (`.strip()`). */
  predicate CleanRaises(item: Value) {
    !item.Obj? || !Field(item, "question", Str("")).Str? || !Field(item, "answer", Str("")).Str?
  }

  /** One pass of the loop body of `_clean_and_validate_flashcards`. */
  function CleanCard(item: Value): (r: Outcome<Option<Card>>)
    ensures r.Raised? <==> CleanRaises(item)
    ensures r.Ok? && r.value.Some? ==>
      var c := r.value.value;
      && IsValidCard(c.question, c.answer) && Clean(c.question) && Clean(c.answer)
      && c.kind == QA && c.difficulty == Field(item, "difficulty", Str("beginner"))
    ensures r.Ok? ==> (r.value.Some? <==>
      IsValidCard(CleanText(Strip(Field(item, "question", Str("")).s)), CleanText(Strip(Field(item, "answer", Str("")).s))))
  {
    if CleanRaises(item) then Raised
    else
      var question := CleanText(Strip(Field(item, "question", Str("")).s));
      var answer := CleanText(Strip(Field(item, "answer", Str("")).s));
      if IsValidCard(question, answer) then Ok(Some(Card(question, answer, QA, Field(item, "difficulty", Str("beginner")))))
      else Ok(None)
  }

  /** A kept card's answer, being cleaned and not ending in `?`, ends in `.` or `!`. */
  lemma KeptAnswerEnds(item: Value)
    ensures var r := CleanCard(item);
            r.Ok? && r.value.Some? ==> EndsWithChar(r.value.value.answer, '.') || EndsWithChar(r.value.value.answer, '!')
  {
  }

  /** A card dict built by this module never makes the cleaner raise. */
  lemma CleanCardOfRecord(c: Card)
    ensures CleanCard(ToValue(c)).Ok?
  {
    var v := ToValue(c);
    assert KeyIndex(v.fields, "question") == 0;
    assert KeyIndex(v.fields, "answer") == 1 by {
      assert v.fields[0].0 != "answer";
    }
  }

  /** `_clean_and_validate_flashcards`. */
  method CleanAndValidateFlashcards(flashcards: seq<Value>, targetCount: int) returns (r: Outcome<seq<Card>>)
    ensures r == Collect(flashcards, targetCount, CleanCard, [])
  {
    r := CleanAndValidate(flashcards, targetCount, CleanCard);
  }

  /**
   * The cleaned cards: at most `max(target_count, 1)`, each valid, of type
   * "Q&A" and with its text cleaned, each the cleaned form of one of the
   * first `Consumed` inputs, in input order.
   */
  lemma CleanedCards(flashcards: seq<Value>, targetCount: int)
    ensures var r := Collect(flashcards, targetCount, CleanCard, []);
            r.Ok? ==>
              && |r.value| <= Max(targetCount, 1)
              && (forall i :: 0 <= i < |r.value| ==>
                    IsValidCard(r.value[i].question, r.value[i].answer) && r.value[i].kind == QA
                    && Clean(r.value[i].question) && Clean(r.value[i].answer))
              && r == Pipeline.Kept(flashcards[..Consumed(flashcards, targetCount, CleanCard, [])], CleanCard)
  {
    CollectBound(flashcards, targetCount, CleanCard, []);
    CollectIsKeptPrefix(flashcards, targetCount, CleanCard, []);
    var n := Consumed(flashcards, targetCount, CleanCard, []);
    KeptAll(flashcards[..n], CleanCard, (c: Card) =>
      IsValidCard(c.question, c.answer) && c.kind == QA && Clean(c.question) && Clean(c.answer));
    var k := Pipeline.Kept(flashcards[..n], CleanCard);
    if k.Ok? {
      assert [] + k.value == k.value;
    }
  }

  // ---------------------------------------------------------------------
  // `_generate_rule_based_flashcards`

  /** The phrases of the rule-based cards in one language. */
  datatype CardPhrases = CardPhrases(concept: Template, sentence: Template, genericQuestion: string, genericAnswer: string)

  const SinhalaPhrases := CardPhrases(
    Around("'", "' යන්නෙන් අදහස් කරන්නේ කුමක්ද?"),
    Around("මෙම කරුණ ගැන කුමක් කිව හැකිද: ", "...?"),
    "මෙම විෂයයේ ප්‍රධාන සංකල්ප මොනවාද?",
    "මෙම විෂයයේ ප්‍රධාන සංකල්ප සහ මූලධර්ම ඇතුළත් වේ.")

  const TamilPhrases := CardPhrases(
    Around("'", "' என்பதன் பொருள் என்ன?"),
    Around("இந்த விஷயத்தைப் பற்றி என்ன சொல்லலாம்: ", "...?"),
    "இந்த பாடத்தின் முக்கிய கருத்துக்கள் என்ன?",
    "இந்த பாடத்தின் முக்கிய கருத்துக்கள் மற்றும் கொள்கைகள் அடங்கும்.")

  const EnglishPhrases := CardPhrases(
    Around("What is '", "'?"),
    Around("What can you tell me about: ", "...?"),
    "What are the main concepts in this topic?",
    "This topic covers various important concepts and principles that are fundamental to understanding the subject matter.")

  /** The answer of a concept card when no sentence explains the concept. */
  const InformationAbout := "Information about "

  /** The phrases for "si", "ta", and every other language (English). */
  function PhrasesFor(language: string): CardPhrases {
    if language == "si" then SinhalaPhrases
    else if language == "ta" then TamilPhrases
    else EnglishPhrases
  }

  /** Every question phrase ends in `?`. */
  predicate AsksQuestion(p: CardPhrases) {
    p.concept.Around? && EndsWithChar(p.concept.after, '?')
    && p.sentence.Around? && EndsWithChar(p.sentence.after, '?')
    && EndsWithChar(p.genericQuestion, '?')
  }

  lemma PhrasesAsk(language: string)
    ensures AsksQuestion(PhrasesFor(language))
  {
    assert AsksQuestion(SinhalaPhrases) && AsksQuestion(TamilPhrases) && AsksQuestion(EnglishPhrases);
  }

  lemma FilledEndsWith(t: Template, x: string)
    requires t.Around? && EndsWithChar(t.after, '?')
    ensures EndsWithChar(Fill(t, x), '?')
  {
    var r := Fill(t, x);
    assert r[|r| - 1] == t.after[|t.after| - 1];
  }

  /** `_find_relevant_content` on the document text, as a function of the concept. */
  function Explainer(text: string): string -> string {
    c => Concepts.RelevantContent(text, c)
  }

  /**
   * The card for a key concept: answered by the sentence `explain` finds
   * for it (the first one of the text that mentions it), else by a fixed
   * phrase.
   */
  function ConceptCard(explain: string -> string, concept: string, p: CardPhrases, difficulty: string): Card {
    var relevant := explain(concept);
    Card(Fill(p.concept, concept), if relevant != "" then relevant else InformationAbout + concept, QA, Str(difficulty))
  }

  /** The card for a long sentence: its first 100 characters go in the question, the sentence is the answer. */
  function SentenceCard(sentence: string, p: CardPhrases, difficulty: string): Card {
    Card(Fill(p.sentence, Take(sentence, 100)), sentence, QA, Str(difficulty))
  }

  /** The generic card that pads the list. */
  function GenericCard(p: CardPhrases, difficulty: string): Card {
    Card(p.genericQuestion, p.genericAnswer, QA, Str(difficulty))
  }

  /** Every rule-based card is a Q&A card at the requested difficulty whose question ends in `?`. */
  predicate RuleShaped(c: Card, difficulty: string) {
    c.kind == QA && c.difficulty == Str(difficulty) && EndsWithChar(c.question, '?')
  }

  function ConceptItem(explain: string -> string, p: CardPhrases, difficulty: string): string -> Card {
    c => ConceptCard(explain, c, p, difficulty)
  }

  function SentenceItem(p: CardPhrases, difficulty: string): (nat, string) -> Card {
    (i: nat, s) => SentenceCard(s, p, difficulty)
  }

  /** The layout of the rule-based cards from the ranked concepts and the long sentences. */
  function CardLayout(explain: string -> string, kc: seq<string>, sentences: seq<string>, p: CardPhrases, difficulty: string, count: int): seq<Card> {
    var n := Min(count / 2, |kc|);
    Layout(kc, n, sentences, count - |Take(kc, n)|, count, ConceptItem(explain, p, difficulty), SentenceItem(p, difficulty), GenericCard(p, difficulty))
  }

  /**
   * The rule-based list: `min(count // 2, len(concepts))` concept cards,
   * then sentence cards for the remaining count, then generic cards up to
   * `count`, cut to `count`. `words` is the `re.findall` output for `text`.
   */
  function RuleBasedCardList(text: string, words: seq<string>, language: string, difficulty: string, count: int): seq<Card> {
    CardLayout(Explainer(text), Concepts.KeyConcepts(words, 3, 10), Sentences(text, 30), PhrasesFor(language), difficulty, count)
  }

  /**
   * Exactly `count` cards for a non-negative count, all Q&A cards whose
   * question ends in `?`, the first `min(count // 2, len(concepts))` of
   * them the concept cards in ranking order.
   */
  lemma CardLayoutShape(explain: string -> string, kc: seq<string>, sentences: seq<string>, p: CardPhrases, difficulty: string, count: int)
    requires AsksQuestion(p)
    ensures var r := CardLayout(explain, kc, sentences, p, difficulty, count);
            (count >= 0 ==> |r| == count && |Take(kc, Min(count / 2, |kc|))| == Min(count / 2, |kc|))
            && (forall i :: 0 <= i < |r| ==> RuleShaped(r[i], difficulty))
            && (forall i :: 0 <= i < |r| && i < |Take(kc, Min(count / 2, |kc|))| ==> r[i] == ConceptCard(explain, kc[i], p, difficulty))
  {
    CardLayoutGood(explain, kc, sentences, p, difficulty, count);
    CardLayoutHead(explain, kc, sentences, p, difficulty, count);
  }

  lemma CardLayoutGood(explain: string -> string, kc: seq<string>, sentences: seq<string>, p: CardPhrases, difficulty: string, count: int)
    requires AsksQuestion(p)
    ensures var r := CardLayout(explain, kc, sentences, p, difficulty, count);
            (count >= 0 ==> |r| == count) && forall i :: 0 <= i < |r| ==> RuleShaped(r[i], difficulty)
  {
    var n := Min(count / 2, |kc|);
    var concept := ConceptItem(explain, p, difficulty);
    var sentence := SentenceItem(p, difficulty);
    var good := c => RuleShaped(c, difficulty);
    forall c ensures good(concept(c)) {
      FilledEndsWith(p.concept, c);
    }
    forall i, s ensures good(sentence(i, s)) {
      FilledEndsWith(p.sentence, Take(s, 100));
    }
    LayoutShape(kc, n, sentences, count - |Take(kc, n)|, count, concept, sentence, GenericCard(p, difficulty), good);
  }

  lemma CardLayoutHead(explain: string -> string, kc: seq<string>, sentences: seq<string>, p: CardPhrases, difficulty: string, count: int)
    ensures var r := CardLayout(explain, kc, sentences, p, difficulty, count);
            (count >= 0 ==> |Take(kc, Min(count / 2, |kc|))| == Min(count / 2, |kc|))
            && (forall i :: 0 <= i < |r| && i < |Take(kc, Min(count / 2, |kc|))| ==> r[i] == ConceptCard(explain, kc[i], p, difficulty))
  {
    var n := Min(count / 2, |kc|);
    LayoutShape(kc, n, sentences, count - |Take(kc, n)|, count, ConceptItem(explain, p, difficulty), SentenceItem(p, difficulty),
                GenericCard(p, difficulty), c => true);
  }

  /**
   * After the concept cards come the sentence cards, one per long sentence
   * in text order, and then the generic card.
   */
  lemma CardLayoutTail(explain: string -> string, kc: seq<string>, sentences: seq<string>, p: CardPhrases, difficulty: string, count: int)
    ensures var r := CardLayout(explain, kc, sentences, p, difficulty, count);
            var nc := |Take(kc, Min(count / 2, |kc|))|;
            var ns := |Take(sentences, count - nc)|;
            && (forall i :: nc <= i < |r| && i < nc + ns ==> r[i] == SentenceCard(sentences[i - nc], p, difficulty))
            && (forall i :: nc + ns <= i < |r| ==> r[i] == GenericCard(p, difficulty))
  {
    var n := Min(count / 2, |kc|);
    var concept := ConceptItem(explain, p, difficulty);
    var sentence := SentenceItem(p, difficulty);
    LayoutShape(kc, n, sentences, count - |Take(kc, n)|, count, concept, sentence, GenericCard(p, difficulty), c => true);
  }

  lemma RuleBasedCardListShape(text: string, words: seq<string>, language: string, difficulty: string, count: int)
    ensures var r := RuleBasedCardList(text, words, language, difficulty, count);
            (count >= 0 ==> |r| == count)
            && (forall i :: 0 <= i < |r| ==> RuleShaped(r[i], difficulty))
  {
    PhrasesAsk(language);
    CardLayoutShape(Explainer(text), Concepts.KeyConcepts(words, 3, 10), Sentences(text, 30), PhrasesFor(language), difficulty, count);
  }

  /** `_generate_rule_based_flashcards`. */
  method RuleBasedFlashcards(text: string, words: seq<string>, language: string, difficulty: string, count: int)
    returns (r: seq<Card>)
    ensures r == RuleBasedCardList(text, words, language, difficulty, count)
  {
    var sentences := Sentences(text, 30);
    var keyConcepts := Concepts.ExtractKeyConcepts(words, 3, 10);
    var p := PhrasesFor(language);
    r := FillCardLayout(Explainer(text), keyConcepts, sentences, p, difficulty, count);
  }

  /** The loops of `_generate_rule_based_flashcards` once the phrases are chosen. */
  method FillCardLayout(explain: string -> string, kc: seq<string>, sentences: seq<string>, p: CardPhrases, difficulty: string, count: int)
    returns (r: seq<Card>)
    ensures r == CardLayout(explain, kc, sentences, p, difficulty, count)
  {
    r := FillLayout(kc, Min(count / 2, |kc|), sentences, count, ConceptItem(explain, p, difficulty), SentenceItem(p, difficulty), GenericCard(p, difficulty));
  }

  // ---------------------------------------------------------------------
  // `generate_flashcards`

  /** `_generate_simple_flashcards` after the model call: nothing for an empty response, else the parse. */
  function SimpleCards(response: Option<string>, count: int): seq<Card> {
    if response.None? || Strip(response.value) == [] then [] else ParseCards(response.value, count)
  }

  /** What the model paths give: the structured items, else the simple cards. */
  function ModelItems(structured: Option<string>, simple: Option<string>, decode: string -> Option<Value>, count: int): seq<Value> {
    var s := StructuredItems(structured, decode);
    if s != [] then s else Encode(SimpleCards(simple, count), ToValue)
  }

  /**
   * `generate_flashcards`: too-short text gives nothing; otherwise the
   * structured response, else the simple one; with neither, the rule-based
   * list when the flag is on and nothing when it is off. The result is
   * cleaned; when the cleaner raises, the `except` branch returns the raw
   * rule-based list when the flag is on and nothing when it is off. An
   * undefined flag raises from both imports, so the call raises.
   */
  function GenerateFlashcards(text: string, words: seq<string>, language: string, difficulty: string, count: int,
                              structured: Option<string>, simple: Option<string>, decode: string -> Option<Value>,
                              flag: Option<bool>): Outcome<seq<Card>>
  {
    var t := Strip(text);
    if |t| < 50 then Ok([])
    else Gate(ModelItems(structured, simple, decode, count), RuleBasedCardList(t, words, language, difficulty, count),
              ToValue, count, CleanCard, flag)
  }

  /** Stripped text shorter than 50 characters yields no cards. */
  lemma ShortTextNoCards(text: string, words: seq<string>, language: string, difficulty: string, count: int,
                         structured: Option<string>, simple: Option<string>, decode: string -> Option<Value>, flag: Option<bool>)
    requires |Strip(text)| < 50
    ensures GenerateFlashcards(text, words, language, difficulty, count, structured, simple, decode, flag) == Ok([])
  {
  }

  /**
   * When both model paths give nothing, the result is the cleaned
   * rule-based list of the stripped text if the flag is on, nothing if it
   * is off, and an exception if the flag is not defined.
   */
  lemma FallbackFollowsFlag(text: string, words: seq<string>, language: string, difficulty: string, count: int,
                            structured: Option<string>, simple: Option<string>, decode: string -> Option<Value>, flag: Option<bool>)
    requires |Strip(text)| >= 50
    requires StructuredItems(structured, decode) == [] && SimpleCards(simple, count) == []
    ensures var r := GenerateFlashcards(text, words, language, difficulty, count, structured, simple, decode, flag);
            var rb := Encode(RuleBasedCardList(Strip(text), words, language, difficulty, count), ToValue);
            && (flag == Some(true) ==> Collect(rb, count, CleanCard, []).Ok? && r == Collect(rb, count, CleanCard, []))
            && (flag == Some(false) ==> r == Ok([]))
            && (flag.None? ==> r.Raised?)
  {
    forall c ensures CleanCard(ToValue(c)).Ok? {
      CleanCardOfRecord(c);
    }
    assert ModelItems(structured, simple, decode, count) == [];
    GateFallback(RuleBasedCardList(Strip(text), words, language, difficulty, count), ToValue, count, CleanCard, flag);
  }

  /** A Q&A card whose question ends in `?`. */
  predicate AsksQa(c: Card) {
    c.kind == QA && EndsWithChar(c.question, '?')
  }

  /**
   * Whatever path is taken, every card returned is a Q&A card whose
   * question ends in `?`, and for a non-negative count there are at most
   * `max(count, 1)` of them.
   */
  lemma GeneratedCardsShape(text: string, words: seq<string>, language: string, difficulty: string, count: int,
                            structured: Option<string>, simple: Option<string>, decode: string -> Option<Value>, flag: Option<bool>)
    ensures var r := GenerateFlashcards(text, words, language, difficulty, count, structured, simple, decode, flag);
            r.Ok? ==> (count >= 0 ==> |r.value| <= Max(count, 1))
                      && forall i :: 0 <= i < |r.value| ==> AsksQa(r.value[i])
  {
    var t := Strip(text);
    if |t| >= 50 {
      var rb := RuleBasedCardList(t, words, language, difficulty, count);
      RuleBasedCardListShape(t, words, language, difficulty, count);
      forall i | 0 <= i < |rb| ensures AsksQa(rb[i]) {
        assert RuleShaped(rb[i], difficulty);
      }
      GateShape(ModelItems(structured, simple, decode, count), rb, ToValue, count, CleanCard, flag, AsksQa);
    }
  }
}
