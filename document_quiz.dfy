/**
 * The document quiz generator (app/generators/document_quiz_generator.py):
 * the simple-format parser, the per-quiz cleaner and validator, the
 * rule-based fallback and the order in which `generate_quizzes` tries
 * them. Model responses are inputs (None for an empty response or a
 * failed call); `decode` stands for `json.loads`.
 */
module DocumentQuiz {
  import opened Wrappers
  import opened Text
  import opened Markers
  import opened Json
  import opened Cleaning
  import opened Pipeline
  import opened Sections
  import Concepts
  import opened RuleBased

  /** A quiz dict with the keys every producer writes. */
  datatype Quiz = Quiz(question: string, options: seq<string>, answer: string, kind: string, difficulty: Value)

  const MultipleChoice := "Multiple Choice"

  /** The dict a producer appends, as the cleaner sees it. */
  function ToValue(q: Quiz): Value {
    Obj([("question", Str(q.question)), ("options", Arr(Strs(q.options))), ("answer", Str(q.answer)),
         ("type", Str(q.kind)), ("difficulty", q.difficulty)])
  }

  function Values(qs: seq<Quiz>): (r: seq<Value>)
    ensures |r| == |qs| && forall i :: 0 <= i < |qs| ==> r[i] == ToValue(qs[i])
  {
    seq(|qs|, i requires 0 <= i < |qs| => ToValue(qs[i]))
  }

  // ---------------------------------------------------------------------
  // `_parse_simple_format`

  /** `re.split(r'(?:Q:|Question:)', content, flags=re.IGNORECASE)`. */
  const SectionMarks: seq<Marker> := [Ci("Q:"), Ci("Question:")]

  /** `A)`, `A:` and `A.` for an option letter. */
  function OptionMarks(c: char): seq<Marker> { [Lit([c, ')']), Lit([c, ':']), Lit([c, '.'])] }

  /** The four option patterns: the letter's marks, then the next letter's marks or `Answer:` (or the end). */
  function OptionLabels(k: nat): seq<Marker>
    requires k < 4
  {
    OptionMarks(['A', 'B', 'C', 'D'][k])
  }

  function OptionStops(k: nat): seq<Marker>
    requires k < 4
  {
    if k == 3 then [Lit("Answer:")] else OptionMarks(['B', 'C', 'D'][k]) + [Lit("Answer:")]
  }

  /** Option `k` of a section: the stripped group of its pattern when that is longer than 2 characters. */
  function SectionOption(section: string, k: nat): (r: Option<string>)
    requires k < 4
    ensures r.Some? ==> |r.value| > 2 && IsStripped(r.value)
  {
    var g := CaptureText(section, OptionLabels(k), OptionStops(k));
    if g.None? then None
    else
      var o := Strip(g.value);
      StripOfStrippedIsStripped(g.value);
      if |o| > 2 then Some(o) else None
  }

  /** The options the first `n` patterns contribute, in pattern order. */
  function SectionOptions(section: string, n: nat): (r: seq<string>)
    requires n <= 4
    ensures |r| <= n
    ensures forall i :: 0 <= i < |r| ==> |r[i]| > 2 && IsStripped(r[i])
  {
    if n == 0 then []
    else
      var o := SectionOption(section, n - 1);
      SectionOptions(section, n - 1) + (if o.Some? then [o.value] else [])
  }

  /** With four options, option `k` is the group of pattern `k`. */
  lemma {:induction false} FourOptionsInOrder(section: string, n: nat)
    requires n <= 4 && |SectionOptions(section, n)| == n
    ensures forall k :: 0 <= k < n ==> SectionOption(section, k) == Some(SectionOptions(section, n)[k])
  {
    if n > 0 {
      var o := SectionOption(section, n - 1);
      var p := SectionOptions(section, n - 1);
      assert SectionOptions(section, n) == p + (if o.Some? then [o.value] else []);
      assert |p| == n - 1 && o.Some?;
      FourOptionsInOrder(section, n - 1);
      forall k | 0 <= k < n ensures SectionOption(section, k) == Some(SectionOptions(section, n)[k]) {
        if k < n - 1 {
          assert SectionOptions(section, n)[k] == p[k];
        }
      }
    }
  }

  /**
   * The quiz one stripped section yields, given its options: the question
   * is the text before the first option mark, and the `Answer:` letter
   * picks the answer among exactly four options.
   */
  function BuildQuiz(section: string, options: seq<string>): Option<Quiz> {
    match LeadCapture(section, [Lit("A)"), Lit("A:"), Lit("A.")])
    case None => None
    case Some(q) =>
      match AnswerLetter(section)
      case None => None
      case Some(letter) =>
        var index := letter as int - 'A' as int;
        if 0 <= index < |options| && |options| == 4 then
          Some(Quiz(Strip(q), options, options[index], MultipleChoice, Str("beginner")))
        else None
  }

  function SectionQuiz(section: string): Option<Quiz> {
    BuildQuiz(section, SectionOptions(section, 4))
  }

  /**
   * What a section's quiz is: four options, each one the stripped group of
   * its pattern and longer than 2 characters, the answer the option the
   * `Answer:` letter names, and a non-empty question.
   */
  lemma SectionQuizShape(section: string)
    requires section != [] && IsStripped(section)
    ensures var r := SectionQuiz(section);
            r.Some? ==>
              && |r.value.options| == 4
              && (forall k :: 0 <= k < 4 ==> SectionOption(section, k) == Some(r.value.options[k]))
              && AnswerLetter(section).Some?
              && r.value.answer == r.value.options[AnswerLetter(section).value as int - 'A' as int]
              && r.value.question != []
              && r.value.kind == MultipleChoice && r.value.difficulty == Str("beginner")
  {
    var r := SectionQuiz(section);
    if r.Some? {
      BuildQuizShape(section, SectionOptions(section, 4));
      FourOptionsInOrder(section, 4);
    }
  }

  /** The quiz `BuildQuiz` makes from a stripped section and its options. */
  lemma BuildQuizShape(section: string, options: seq<string>)
    requires section != [] && IsStripped(section)
    ensures var r := BuildQuiz(section, options);
            r.Some? ==>
              && r.value.options == options && |options| == 4
              && AnswerLetter(section).Some?
              && r.value.answer == options[AnswerLetter(section).value as int - 'A' as int]
              && r.value.question != []
              && r.value.kind == MultipleChoice && r.value.difficulty == Str("beginner")
  {
    var r := BuildQuiz(section, options);
    if r.Some? {
      var q := LeadCapture(section, [Lit("A)"), Lit("A:"), Lit("A.")]).value;
      assert q[0] == section[0];
      assert Strip(q) != [] by {
        assert !IsSpace(q[0]);
        assert !AllSpace(q);
      }
    }
  }

  /** A section without text before its first option mark yields nothing. */
  lemma SectionWithoutQuestion(section: string)
    requires LeadCapture(section, [Lit("A)"), Lit("A:"), Lit("A.")]).None?
    ensures SectionQuiz(section).None?
  {
  }

  function ParseQuizzes(content: string, expected: int): seq<Quiz> {
    ParseFrom(ReSplit(content, SectionMarks), expected, SectionQuiz, [])
  }

  /**
   * `_parse_simple_format`: at most `expected_count` quizzes, each with
   * exactly four options and the answer the `Answer:` letter names.
   */
  lemma ParsedQuizzes(content: string, expected: int)
    ensures var r := ParseQuizzes(content, expected);
            |r| <= Max(expected, 0)
            && forall i :: 0 <= i < |r| ==>
                 |r[i].options| == 4 && r[i].answer in r[i].options && r[i].question != []
                 && (forall k :: 0 <= k < 4 ==> |r[i].options[k]| > 2)
                 && r[i].kind == MultipleChoice && r[i].difficulty == Str("beginner")
  {
    var sections := ReSplit(content, SectionMarks);
    ParseFromBound(sections, expected, SectionQuiz, []);
    ParseFromSections(sections, expected, SectionQuiz, []);
    var r := ParseQuizzes(content, expected);
    forall i | 0 <= i < |r|
      ensures |r[i].options| == 4 && r[i].answer in r[i].options && r[i].question != []
              && (forall k :: 0 <= k < 4 ==> |r[i].options[k]| > 2)
              && r[i].kind == MultipleChoice && r[i].difficulty == Str("beginner")
    {
      assert exists j :: 0 <= j < |sections| && ParsedFrom(sections[j], SectionQuiz, r[i]);
      var j :| 0 <= j < |sections| && ParsedFrom(sections[j], SectionQuiz, r[i]);
      StripIdempotent(sections[j]);
      StripOfStrippedIsStripped(sections[j]);
      SectionQuizShape(Strip(sections[j]));
    }
  }

  lemma StripOfStrippedIsStripped(s: string)
    ensures IsStripped(Strip(s))
  {
  }

  /** The inner loop over the four option patterns. */
  method ExtractOptions(section: string) returns (options: seq<string>)
    ensures options == SectionOptions(section, 4)
  {
    options := [];
    var k := 0;
    while k < 4
      invariant 0 <= k <= 4
      invariant options == SectionOptions(section, k)
    {
      var o := SectionOption(section, k);
      if o.Some? {
        options := options + [o.value];
      }
      k := k + 1;
    }
  }

  /** `_parse_simple_format`, as the loop over sections it is. */
  method ParseSimpleFormat(content: string, expectedCount: int) returns (quizzes: seq<Quiz>)
    ensures quizzes == ParseQuizzes(content, expectedCount)
  {
    var sections := ReSplit(content, SectionMarks);
    quizzes := [];
    var i := 0;
    while i < |sections|
      invariant 0 <= i <= |sections|
      invariant ParseQuizzes(content, expectedCount) == ParseFrom(sections[i..], expectedCount, SectionQuiz, quizzes)
    {
      assert sections[i..][0] == sections[i];
      assert sections[i..][1..] == sections[i + 1..];
      var section := Strip(sections[i]);
      ghost var old_quizzes := quizzes;
      if section != [] {
        if |quizzes| >= expectedCount {
          return;
        }
        var options := ExtractOptions(section);
        var q := BuildQuiz(section, options);
        assert q == SectionQuiz(section);
        if q.Some? {
          quizzes := quizzes + [q.value];
        }
        assert quizzes == Append(old_quizzes, q);
      }
      i := i + 1;
    }
  }

  // ---------------------------------------------------------------------
  // `_is_valid_quiz`, `_clean_text`, `_clean_and_validate_quizzes`

  /** `_is_valid_quiz`. */
  predicate IsValidQuiz(question: string, options: seq<string>, answer: string) {
    |question| >= 10 && |options| == 4 && (forall i :: 0 <= i < |options| ==> |options[i]| >= 2)
    && answer != [] && answer in options
  }

  /** `_clean_text` of this generator. */
  function CleanText(text: string): (r: string)
    ensures Clean(r)
  {
    DocumentClean(text, QaLabels)
  }

  /** The cleaned text is empty exactly when nothing but whitespace is left once markdown and a leading label are gone. */
  lemma CleanTextEmpty(text: string)
    ensures CleanText(text) == [] <==> text == [] || AllSpace(DropLeadingLabel(StripMarkdown(text), QaLabels))
  {
  }

  /**
   * The option loop of the cleaner: string options, cleaned with `clean`
   * (this generator's `_clean_text`), kept when longer than 2 characters.
   */
  function CleanOptions(options: seq<Value>, clean: string -> string): (r: seq<string>)
    ensures |r| <= |options|
    ensures forall i :: 0 <= i < |r| ==> |r[i]| > 2
  {
    if options == [] then []
    else
      var rest := CleanOptions(options[1..], clean);
      if options[0].Str? then
        var c := clean(options[0].s);
        if |c| > 2 then Cons(c, rest) else rest
      else rest
  }

  /** A property every cleaned string has holds of every kept option. */
  lemma {:induction false} CleanOptionsAll(options: seq<Value>, clean: string -> string, good: string -> bool)
    requires forall s :: good(clean(s))
    ensures forall i :: 0 <= i < |CleanOptions(options, clean)| ==> good(CleanOptions(options, clean)[i])
  {
    if options != [] {
      CleanOptionsAll(options[1..], clean, good);
    }
  }

  /** When every option is a string that survives cleaning, the cleaned options are those strings cleaned, in order. */
  lemma {:induction false} CleanOptionsKeepsAll(options: seq<Value>, clean: string -> string)
    requires forall i :: 0 <= i < |options| ==> options[i].Str? && |clean(options[i].s)| > 2
    ensures |CleanOptions(options, clean)| == |options|
    ensures forall i :: 0 <= i < |options| ==> CleanOptions(options, clean)[i] == clean(options[i].s)
  {
    if options != [] {
      var tail := options[1..];
      assert forall i :: 0 <= i < |tail| ==> tail[i] == options[i + 1];
      CleanOptionsKeepsAll(tail, clean);
      var rest := CleanOptions(tail, clean);
      var r := CleanOptions(options, clean);
      assert r == Cons(clean(options[0].s), rest);
      forall i | 0 <= i < |options| ensures r[i] == clean(options[i].s) {
        if i > 0 {
          assert r[i] == rest[i - 1] == clean(tail[i - 1].s);
        }
      }
    }
  }

  /** Non-string options are dropped. */
  lemma {:induction false} CleanOptionsDropsNonStrings(options: seq<Value>, clean: string -> string)
    requires forall i :: 0 <= i < |options| ==> !options[i].Str?
    ensures CleanOptions(options, clean) == []
  {
    if options != [] {
      CleanOptionsDropsNonStrings(options[1..], clean);
    }
  }

  /** The cleaner raises only on a non-dict item, a non-string question or answer, or non-iterable options. */
  predicate CleanRaises(item: Value) {
    !item.Obj?
    || !Field(item, "question", Str("")).Str?
    || !Field(item, "answer", Str("")).Str?
    || Iterate(Field(item, "options", Arr([]))).Raised?
  }

  /** One pass of the loop body of `_clean_and_validate_quizzes`. */
  function CleanQuiz(item: Value): (r: Outcome<Option<Quiz>>)
    ensures r.Raised? <==> CleanRaises(item)
    ensures r.Ok? && r.value.Some? ==>
      var q := r.value.value;
      && IsValidQuiz(q.question, q.options, q.answer)
      && Clean(q.question) && Clean(q.answer) && (forall i :: 0 <= i < |q.options| ==> Clean(q.options[i]))
      && q.kind == MultipleChoice
      && q.difficulty == Field(item, "difficulty", Str("beginner"))
    ensures r.Ok? ==> (r.value.Some? <==>
      IsValidQuiz(CleanText(Strip(Field(item, "question", Str("")).s)),
                  CleanOptions(Iterate(Field(item, "options", Arr([]))).value, CleanText),
                  CleanText(Strip(Field(item, "answer", Str("")).s))))
  {
    if CleanRaises(item) then Raised
    else
      var question := CleanText(Strip(Field(item, "question", Str("")).s));
      var options := CleanOptions(Iterate(Field(item, "options", Arr([]))).value, CleanText);
      CleanOptionsAll(Iterate(Field(item, "options", Arr([]))).value, CleanText, Clean);
      var answer := CleanText(Strip(Field(item, "answer", Str("")).s));
      if IsValidQuiz(question, options, answer) then
        Ok(Some(Quiz(question, options, answer, MultipleChoice, Field(item, "difficulty", Str("beginner")))))
      else Ok(None)
  }

  /** A quiz dict built by this module never makes the cleaner raise. */
  lemma CleanQuizOfRecord(q: Quiz)
    ensures CleanQuiz(ToValue(q)).Ok?
  {
    var v := ToValue(q);
    assert KeyIndex(v.fields, "question") == 0;
    assert KeyIndex(v.fields, "options") == 1 by {
      assert v.fields[0].0 != "options";
    }
    var k := KeyIndex(v.fields, "answer");
    assert k != -1 by {
      assert v.fields[2].0 == "answer";
    }
    assert k <= 2;
    assert |v.fields[0].0| == 8 && |v.fields[1].0| == 7;
    assert k == 2;
  }

  /** `_clean_and_validate_quizzes`. */
  method CleanAndValidateQuizzes(quizzes: seq<Value>, targetCount: int) returns (r: Outcome<seq<Quiz>>)
    ensures r == Collect(quizzes, targetCount, CleanQuiz, [])
  {
    r := CleanAndValidate(quizzes, targetCount, CleanQuiz);
  }

  /**
   * The cleaned quizzes: at most `max(target_count, 1)`, each valid, of type
   * "Multiple Choice" and with its text cleaned, each the cleaned form of
   * one of the first `Consumed` inputs, in input order.
   */
  lemma CleanedQuizzes(quizzes: seq<Value>, targetCount: int)
    ensures var r := Collect(quizzes, targetCount, CleanQuiz, []);
            r.Ok? ==>
              && |r.value| <= Max(targetCount, 1)
              && (forall i :: 0 <= i < |r.value| ==>
                    IsValidQuiz(r.value[i].question, r.value[i].options, r.value[i].answer)
                    && r.value[i].kind == MultipleChoice
                    && Clean(r.value[i].question) && Clean(r.value[i].answer))
              && r == Pipeline.Kept(quizzes[..Consumed(quizzes, targetCount, CleanQuiz, [])], CleanQuiz)
  {
    CollectBound(quizzes, targetCount, CleanQuiz, []);
    CollectIsKeptPrefix(quizzes, targetCount, CleanQuiz, []);
    var n := Consumed(quizzes, targetCount, CleanQuiz, []);
    KeptAll(quizzes[..n], CleanQuiz, (q: Quiz) =>
      IsValidQuiz(q.question, q.options, q.answer) && q.kind == MultipleChoice && Clean(q.question) && Clean(q.answer));
    var k := Pipeline.Kept(quizzes[..n], CleanQuiz);
    if k.Ok? {
      assert [] + k.value == k.value;
    }
  }

  /** Cleaning the module's own quiz dicts never raises, so the loop returns a list. */
  lemma CollectOfRecords(qs: seq<Quiz>, targetCount: int)
    ensures Collect(Values(qs), targetCount, CleanQuiz, []).Ok?
  {
    forall i | 0 <= i < |qs| ensures CleanQuiz(Values(qs)[i]).Ok? {
      CleanQuizOfRecord(qs[i]);
    }
    CollectNeverRaises(Values(qs), targetCount, CleanQuiz, []);
  }

  // ---------------------------------------------------------------------
  // `_generate_rule_based_quizzes`

  /** The question and the four options of one kind of rule-based quiz. */
  datatype QuizSlot = QuizSlot(question: Template, options: (Template, Template, Template, Template))

  /** The phrases of the three kinds of rule-based quiz in one language. */
  datatype QuizPhrases = QuizPhrases(concept: QuizSlot, sentence: QuizSlot, generic: QuizSlot)

  const SinhalaPhrases := QuizPhrases(
    QuizSlot(Around("'", "' යන්නෙන් අදහස් කරන්නේ කුමක්ද?"),
      (Around("", " ගැන විස්තරයක්"), Around("", " ගැන තොරතුරක්"),
       Around("", " ගැන පැහැදිලි කිරීමක්"), Around("", " ගැන විස්තරයක් නොවේ"))),
    QuizSlot(Around("මෙම කරුණ ගැන කුමක් කිව හැකිද: ", "...?"),
      (Fixed("මෙය වැදගත් කරුණකි"), Fixed("මෙය අවශ්‍ය නැත"),
       Fixed("මෙය ප්‍රශ්නයකි"), Fixed("මෙය පිළිතුරකි"))),
    QuizSlot(Fixed("මෙම විෂයයේ ප්‍රධාන සංකල්ප මොනවාද?"),
      (Fixed("විවිධ වැදගත් සංකල්ප සහ මූලධර්ම"), Fixed("එක් සංකල්පයක් පමණි"),
       Fixed("කිසිවක් නැත"), Fixed("සියල්ලම"))))

  const TamilPhrases := QuizPhrases(
    QuizSlot(Around("'", "' என்பதன் பொருள் என்ன?"),
      (Around("", " பற்றிய விளக்கம்"), Around("", " பற்றிய தகவல்"),
       Around("", " பற்றிய விளக்கம்"), Around("", " பற்றிய விளக்கம் அல்ல"))),
    QuizSlot(Around("இந்த விஷயத்தைப் பற்றி என்ன சொல்லலாம்: ", "...?"),
      (Fixed("இது முக்கியமான விஷயம்"), Fixed("இது தேவையில்லை"),
       Fixed("இது கேள்வி"), Fixed("இது பதில்"))),
    QuizSlot(Fixed("இந்த பாடத்தின் முக்கிய கருத்துக்கள் என்ன?"),
      (Fixed("பல்வேறு முக்கிய கருத்துக்கள் மற்றும் கொள்கைகள்"), Fixed("ஒரு கருத்து மட்டும்"),
       Fixed("எதுவும் இல்லை"), Fixed("அனைத்தும்"))))

  const EnglishPhrases := QuizPhrases(
    QuizSlot(Around("What is '", "'?"),
      (Fixed("A key concept in this topic"), Fixed("An important principle"),
       Fixed("A fundamental theory"), Fixed("None of the above"))),
    QuizSlot(Around("What can you tell me about: ", "...?"),
      (Fixed("This is an important point"), Fixed("This is not relevant"),
       Fixed("This is a question"), Fixed("This is an answer"))),
    QuizSlot(Fixed("What are the main concepts in this topic?"),
      (Fixed("Various important concepts and principles"), Fixed("Only one concept"),
       Fixed("Nothing specific"), Fixed("All of the above"))))

  /** The phrases for "si", "ta", and every other language (English). */
  function PhrasesFor(language: string): QuizPhrases {
    if language == "si" then SinhalaPhrases
    else if language == "ta" then TamilPhrases
    else EnglishPhrases
  }

  /** A rule-based quiz: the slot's phrases filled with `x`, the first option as the answer. */
  function SlotQuiz(slot: QuizSlot, x: string, difficulty: string): (r: Quiz)
    ensures RuleShaped(r, difficulty)
    ensures r.question == Fill(slot.question, x) && r.options[0] == Fill(slot.options.0, x)
  {
    var options := [Fill(slot.options.0, x), Fill(slot.options.1, x), Fill(slot.options.2, x), Fill(slot.options.3, x)];
    Quiz(Fill(slot.question, x), options, options[0], MultipleChoice, Str(difficulty))
  }

  /** The quiz for a key concept. */
  function ConceptQuiz(concept: string, p: QuizPhrases, difficulty: string): Quiz {
    SlotQuiz(p.concept, concept, difficulty)
  }

  /** The quiz for a long sentence: its first 80 characters go in the question. */
  function SentenceQuiz(sentence: string, p: QuizPhrases, difficulty: string): Quiz {
    SlotQuiz(p.sentence, Take(sentence, 80), difficulty)
  }

  /** The generic quiz that pads the list. */
  function GenericQuiz(p: QuizPhrases, difficulty: string): Quiz {
    SlotQuiz(p.generic, "", difficulty)
  }

  /** Every rule-based quiz has four options and its first option as the answer. */
  predicate RuleShaped(q: Quiz, difficulty: string) {
    |q.options| == 4 && q.answer == q.options[0] && q.kind == MultipleChoice && q.difficulty == Str(difficulty)
  }

  /** The concepts this generator ranks: phrases longer than 3 characters, the first 10. */
  function KeyConcepts(words: seq<string>): seq<string> {
    Concepts.KeyConcepts(words, 3, 10)
  }

  /**
   * The rule-based list: `min(count // 2, len(concepts))` concept quizzes,
   * then sentence quizzes for the remaining count, then generic quizzes up
   * to `count`, cut to `count`. `words` is the `re.findall` output for `text`.
   */
  function RuleBasedQuizList(text: string, words: seq<string>, language: string, difficulty: string, count: int): seq<Quiz> {
    QuizLayout(KeyConcepts(words), Sentences(text, 30), PhrasesFor(language), difficulty, count)
  }

  /** The layout of the rule-based quizzes from the ranked concepts and the long sentences. */
  function QuizLayout(kc: seq<string>, sentences: seq<string>, p: QuizPhrases, difficulty: string, count: int): seq<Quiz> {
    var n := Min(count / 2, |kc|);
    Layout(kc, n, sentences, count - |Take(kc, n)|, count, ConceptItem(p, difficulty), SentenceItem(p, difficulty), GenericQuiz(p, difficulty))
  }

  function ConceptItem(p: QuizPhrases, difficulty: string): string -> Quiz {
    c => ConceptQuiz(c, p, difficulty)
  }

  function SentenceItem(p: QuizPhrases, difficulty: string): (nat, string) -> Quiz {
    (i: nat, s) => SentenceQuiz(s, p, difficulty)
  }

  /**
   * Exactly `count` quizzes for a non-negative count, each with four
   * options and its first option as the answer; the first
   * `min(count // 2, len(concepts))` are the concept quizzes, in ranking order.
   */
  lemma RuleBasedQuizListShape(text: string, words: seq<string>, language: string, difficulty: string, count: int)
    ensures var r := RuleBasedQuizList(text, words, language, difficulty, count);
            (count >= 0 ==> |r| == count)
            && (forall i :: 0 <= i < |r| ==> RuleShaped(r[i], difficulty))
            && (forall i :: 0 <= i < |r| && i < Min(count / 2, |KeyConcepts(words)|) ==>
                  r[i] == ConceptQuiz(KeyConcepts(words)[i], PhrasesFor(language), difficulty))
  {
    QuizLayoutShape(KeyConcepts(words), Sentences(text, 30), PhrasesFor(language), difficulty, count);
  }

  lemma QuizLayoutShape(kc: seq<string>, sentences: seq<string>, p: QuizPhrases, difficulty: string, count: int)
    ensures var r := QuizLayout(kc, sentences, p, difficulty, count);
            (count >= 0 ==> |r| == count)
            && (forall i :: 0 <= i < |r| ==> RuleShaped(r[i], difficulty))
            && (forall i :: 0 <= i < |r| && i < Min(count / 2, |kc|) ==> r[i] == ConceptQuiz(kc[i], p, difficulty))
  {
    var n := Min(count / 2, |kc|);
    var concept := ConceptItem(p, difficulty);
    var sentence := SentenceItem(p, difficulty);
    var good := q => RuleShaped(q, difficulty);
    assert forall c :: good(concept(c));
    assert forall i, s :: good(sentence(i, s));
    LayoutShape(kc, n, sentences, count - |Take(kc, n)|, count, concept, sentence, GenericQuiz(p, difficulty), good);
  }

  /** `_generate_rule_based_quizzes`. */
  method RuleBasedQuizzes(text: string, words: seq<string>, language: string, difficulty: string, count: int)
    returns (r: seq<Quiz>)
    ensures r == RuleBasedQuizList(text, words, language, difficulty, count)
  {
    var sentences := Sentences(text, 30);
    var keyConcepts := Concepts.ExtractKeyConcepts(words, 3, 10);
    var p := PhrasesFor(language);
    r := FillQuizLayout(keyConcepts, sentences, p, difficulty, count);
  }

  /** The loops of `_generate_rule_based_quizzes` once the phrases are chosen. */
  method FillQuizLayout(kc: seq<string>, sentences: seq<string>, p: QuizPhrases, difficulty: string, count: int)
    returns (r: seq<Quiz>)
    ensures r == QuizLayout(kc, sentences, p, difficulty, count)
  {
    r := FillLayout(kc, Min(count / 2, |kc|), sentences, count, ConceptItem(p, difficulty), SentenceItem(p, difficulty), GenericQuiz(p, difficulty));
  }

  // ---------------------------------------------------------------------
  // `generate_quizzes`

  /** `_generate_simple_quizzes` after the model call: nothing for an empty response, else the parse. */
  function SimpleQuizzes(response: Option<string>, count: int): seq<Quiz> {
    if response.None? || Strip(response.value) == [] then [] else ParseQuizzes(response.value, count)
  }

  /**
   * `generate_quizzes`: too-short text gives nothing; otherwise the
   * structured response, else the simple one, else the rule-based list,
   * then the cleaner. When the cleaner raises, the rule-based list is
   * returned as it is.
   */
  function GenerateQuizzes(text: string, words: seq<string>, language: string, difficulty: string, count: int,
                           structured: Option<string>, simple: Option<string>, decode: string -> Option<Value>): seq<Quiz>
  {
    var t := Strip(text);
    if |t| < 50 then []
    else
      var s := StructuredItems(structured, decode);
      var items :=
        if s != [] then s
        else if SimpleQuizzes(simple, count) != [] then Values(SimpleQuizzes(simple, count))
        else Values(RuleBasedQuizList(t, words, language, difficulty, count));
      CleanOrFallback(items, count, RuleBasedQuizList(t, words, language, difficulty, count))
  }

  /** The cleaner's result, or `fallback` when the cleaner raises. */
  function CleanOrFallback(items: seq<Value>, count: int, fallback: seq<Quiz>): seq<Quiz> {
    match Collect(items, count, CleanQuiz, [])
    case Ok(cleaned) => cleaned
    case Raised => fallback
  }

  /** Both outcomes have four options with the answer among them, and the count bound, when the fallback does. */
  lemma CleanOrFallbackShape(items: seq<Value>, count: int, fallback: seq<Quiz>)
    requires count >= 0 ==> |fallback| <= Max(count, 1)
    requires forall i :: 0 <= i < |fallback| ==> |fallback[i].options| == 4 && fallback[i].answer in fallback[i].options
    ensures var r := CleanOrFallback(items, count, fallback);
            (count >= 0 ==> |r| <= Max(count, 1))
            && forall i :: 0 <= i < |r| ==> |r[i].options| == 4 && r[i].answer in r[i].options
  {
    CleanedQuizzes(items, count);
  }

  /** Stripped text shorter than 50 characters yields no quizzes. */
  lemma ShortTextNoQuizzes(text: string, words: seq<string>, language: string, difficulty: string, count: int,
                           structured: Option<string>, simple: Option<string>, decode: string -> Option<Value>)
    requires |Strip(text)| < 50
    ensures GenerateQuizzes(text, words, language, difficulty, count, structured, simple, decode) == []
  {
  }

  /**
   * When both model paths give nothing, the rule-based list is cleaned and
   * returned: there is no flag that turns the fallback off, and cleaning
   * it cannot raise.
   */
  lemma RuleBasedIsLastResort(text: string, words: seq<string>, language: string, difficulty: string, count: int,
                              structured: Option<string>, simple: Option<string>, decode: string -> Option<Value>)
    requires |Strip(text)| >= 50
    requires StructuredItems(structured, decode) == [] && SimpleQuizzes(simple, count) == []
    ensures var rb := Values(RuleBasedQuizList(Strip(text), words, language, difficulty, count));
            Collect(rb, count, CleanQuiz, []).Ok?
            && GenerateQuizzes(text, words, language, difficulty, count, structured, simple, decode)
               == Collect(rb, count, CleanQuiz, []).value
  {
    CollectOfRecords(RuleBasedQuizList(Strip(text), words, language, difficulty, count), count);
  }

  /**
   * Whatever path is taken, every quiz returned has exactly four options
   * and an answer among them, and for a non-negative count there are at
   * most `max(count, 1)` of them.
   */
  lemma GeneratedQuizzesShape(text: string, words: seq<string>, language: string, difficulty: string, count: int,
                              structured: Option<string>, simple: Option<string>, decode: string -> Option<Value>)
    ensures var r := GenerateQuizzes(text, words, language, difficulty, count, structured, simple, decode);
            (count >= 0 ==> |r| <= Max(count, 1))
            && forall i :: 0 <= i < |r| ==> |r[i].options| == 4 && r[i].answer in r[i].options
  {
    var t := Strip(text);
    if |t| >= 50 {
      var s := StructuredItems(structured, decode);
      var items :=
        if s != [] then s
        else if SimpleQuizzes(simple, count) != [] then Values(SimpleQuizzes(simple, count))
        else Values(RuleBasedQuizList(t, words, language, difficulty, count));
      var rb := RuleBasedQuizList(t, words, language, difficulty, count);
      RuleBasedQuizListShape(t, words, language, difficulty, count);
      forall i | 0 <= i < |rb| ensures |rb[i].options| == 4 && rb[i].answer in rb[i].options {
        assert RuleShaped(rb[i], difficulty);
      }
      CleanOrFallbackShape(items, count, rb);
    }
  }
}
