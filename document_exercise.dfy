/**
 * The document exercise generator
 * (app/generators/document_exercise_generator.py): the labelled-section
 * parser, the per-exercise cleaner and validator, the rule-based fallback
 * and the gating in `generate_exercises`. Model responses are inputs
 * (None for an empty response or a failed call); `decode` stands for
 * `json.loads`; `show` for Python's `str` of a value that is not a
 * string; `flag` is the value of `ENABLE_RULE_BASED_FALLBACK`, None when
 * the configuration module does not define it and the import raises.
 */
module DocumentExercise {
  import opened Wrappers
  import opened Text
  import opened Markers
  import opened Json
  import opened Cleaning
  import opened Pipeline
  import opened Sections
  import Concepts
  import opened RuleBased

  /** The extra lists of a matching exercise. */
  datatype Pairing = Pairing(concepts: seq<string>, definitions: seq<string>)

  /**
   * An exercise dict with the keys every producer writes; the answer is a
   * string or, for matching exercises, a list; `pairing` holds the
   * `concepts` and `definitions` keys when they are present.
   */
  datatype Exercise = Exercise(kind: string, instruction: string, question: string, answer: Value, difficulty: Value,
                               pairing: Option<Pairing>)

  const FillBlank := "fill_blank"
  const TrueFalse := "true_false"
  const ShortAnswer := "short_answer"
  const Matching := "matching"
  const TrueText := "true"
  const FalseText := "false"

  /** The dict a producer appends, as the cleaner sees it. */
  function ToValue(e: Exercise): Value {
    match e.pairing
    case None =>
      Obj([("type", Str(e.kind)), ("instruction", Str(e.instruction)), ("question", Str(e.question)),
           ("answer", e.answer), ("difficulty", e.difficulty)])
    case Some(p) =>
      Obj([("type", Str(e.kind)), ("instruction", Str(e.instruction)), ("question", Str(e.question)),
           ("answer", e.answer), ("difficulty", e.difficulty),
           ("concepts", Arr(Strs(p.concepts))), ("definitions", Arr(Strs(p.definitions)))])
  }

  // ---------------------------------------------------------------------
  // `_parse_simple_format`

  /** `re.split(r'(?:Type:|Exercise:)', content, flags=re.IGNORECASE)`. */
  const SectionMarks: seq<Marker> := [Ci("Type:"), Ci("Exercise:")]
  lemma SectionMarksValid()
    ensures ValidMarkers(SectionMarks)
    ensures forall k :: 0 <= k < |SectionMarks| ==> IsLiteral(SectionMarks[k]) && SectionMarks[k].Ci?
  {
  }

  /** The labels of the three searches, matched case-sensitively. */
  const InstructionLabels: seq<Marker> := [Lit("Instruction:"), Lit("Instruction")]
  const QuestionLabels: seq<Marker> := [Lit("Question:"), Lit("Question")]
  const AnswerLabels: seq<Marker> := [Lit("Answer:"), Lit("Answer")]
  /** The answer search stops only at `$`. */
  const AtEnd: seq<Marker> := []

  /** The instruction of a parsed exercise without one: "Complete this <type> exercise.". */
  const CompleteThis := "Complete this "
  const ExerciseDot := " exercise."

  /** The fixed lists and answer a parsed matching exercise gets. */
  const PlaceholderPairing := Pairing(["Concept 1", "Concept 2", "Concept 3"], ["Definition 1", "Definition 2", "Definition 3"])
  const PlaceholderAnswer := Arr([Arr([Str("Concept 1"), Str("Definition 1")]), Arr([Str("Concept 2"), Str("Definition 2")]),
                                  Arr([Str("Concept 3"), Str("Definition 3")])])

  /** The three searches of a section; None when the search fails. */
  function InstructionSearch(section: string): Option<string> {
    CaptureText(section, InstructionLabels, QuestionLabels)
  }

  function QuestionSearch(section: string): Option<string> {
    CaptureText(section, QuestionLabels, AnswerLabels)
  }

  function AnswerSearch(section: string): Option<string> {
    CaptureText(section, AnswerLabels, AtEnd)
  }

  /** `m.group(1).strip()` of a successful search, "" otherwise. */
  function Group1(m: Option<string>): (r: string)
    ensures IsStripped(r)
    ensures r != [] ==> m.Some? && r == Strip(m.value)
  {
    if m.None? then "" else Strip(m.value)
  }

  /**
   * The exercise `_parse_simple_format` builds from the four extracted
   * texts: none without a type, a question and an answer; an empty
   * instruction becomes "Complete this <type> exercise."; a matching
   * exercise gets the placeholder lists and answer.
   */
  function Assemble(kind: string, instruction: string, question: string, answer: string): (r: Option<Exercise>)
    ensures r.Some? <==> kind != [] && question != [] && answer != []
    ensures r.Some? ==>
      && r.value.kind == kind && r.value.question == question && r.value.difficulty == Str("beginner")
      && r.value.instruction == (if instruction != [] then instruction else CompleteThis + kind + ExerciseDot)
      && (kind == Matching ==> r.value.answer == PlaceholderAnswer && r.value.pairing == Some(PlaceholderPairing))
      && (kind != Matching ==> r.value.answer == Str(answer) && r.value.pairing.None?)
  {
    if kind != [] && question != [] && answer != [] then
      var instr := if instruction != [] then instruction else CompleteThis + kind + ExerciseDot;
      if kind == Matching then Some(Exercise(kind, instr, question, PlaceholderAnswer, Str("beginner"), Some(PlaceholderPairing)))
      else Some(Exercise(kind, instr, question, Str(answer), Str("beginner"), None))
    else None
  }

  /**
   * The exercise of one stripped section: its type is the leading run of
   * letters and underscores, and the instruction, question and answer are
   * the labelled texts.
   */
  function SectionExercise(section: string): Option<Exercise> {
    Assemble(LeadingWord(section), Group1(InstructionSearch(section)), Group1(QuestionSearch(section)),
             Group1(AnswerSearch(section)))
  }

  /**
   * A parsed exercise's type is the non-empty leading word of its section,
   * its question the text after a Question label, its instruction never
   * empty; a matching exercise gets the placeholder lists and answer, any
   * other the text after the Answer label.
   */
  lemma SectionExerciseShape(section: string)
    ensures var r := SectionExercise(section);
            && (LeadingWord(section) == [] ==> r.None?)
            && (r.Some? ==>
                  var e := r.value;
                  && e.kind == LeadingWord(section) && e.kind != [] && StartsWith(section, e.kind)
                  && QuestionSearch(section).Some? && e.question == Strip(QuestionSearch(section).value)
                  && e.instruction != []
                  && AnswerSearch(section).Some?
                  && (e.kind != Matching ==> e.answer == Str(Strip(AnswerSearch(section).value)))
                  && e.difficulty == Str("beginner"))
  {
    var kind := LeadingWord(section);
    var r := SectionExercise(section);
    if r.Some? {
      assert r.value.instruction != [] by {
        if Group1(InstructionSearch(section)) == [] {
          assert |CompleteThis + kind + ExerciseDot| > 0;
        }
      }
    }
  }

  function ParseExercises(content: string, expected: int): seq<Exercise> {
    ParseWhile(ReSplit(content, SectionMarks), expected, SectionExercise, [])
  }

  /**
   * `_parse_simple_format`: at most `expected_count` exercises, each the
   * exercise of one non-blank section, with a type, a question and an
   * instruction.
   */
  lemma ParsedExercises(content: string, expected: int)
    ensures var r := ParseExercises(content, expected);
            |r| <= Max(expected, 0)
            && forall i :: 0 <= i < |r| ==>
                 r[i].kind != [] && r[i].question != [] && r[i].instruction != [] && r[i].difficulty == Str("beginner")
                 && exists j :: 0 <= j < |ReSplit(content, SectionMarks)| && ParsedFrom(ReSplit(content, SectionMarks)[j], SectionExercise, r[i])
  {
    var sections := ReSplit(content, SectionMarks);
    ParseWhileBound(sections, expected, SectionExercise, []);
    ParseWhileSections(sections, expected, SectionExercise, []);
    var r := ParseExercises(content, expected);
    forall i | 0 <= i < |r|
      ensures r[i].kind != [] && r[i].question != [] && r[i].instruction != [] && r[i].difficulty == Str("beginner")
    {
      assert exists j :: 0 <= j < |sections| && ParsedFrom(sections[j], SectionExercise, r[i]);
      var j :| 0 <= j < |sections| && ParsedFrom(sections[j], SectionExercise, r[i]);
      SectionExerciseShape(Strip(sections[j]));
    }
  }

  /** The loop ends at the first blank section: later sections are never parsed. */
  lemma ParseEndsAtBlank(content: string, expected: int, k: nat)
    requires k < |ReSplit(content, SectionMarks)| && Strip(ReSplit(content, SectionMarks)[k]) == []
    ensures ParseExercises(content, expected) == ParseWhile(ReSplit(content, SectionMarks)[..k], expected, SectionExercise, [])
  {
    ParseWhileStopsAtBlank(ReSplit(content, SectionMarks), k, expected, SectionExercise, []);
  }

  /**
   * Because the loop breaks at a blank section, a response that starts
   * with `Type:` or `Exercise:`, in any case, yields no exercise at all.
   */
  lemma LeadingMarkerYieldsNothing(content: string, expected: int)
    requires exists k :: 0 <= k < |SectionMarks| && LiteralAt(content, SectionMarks[k].text, true, 0)
    ensures ParseExercises(content, expected) == []
  {
    var k :| 0 <= k < |SectionMarks| && LiteralAt(content, SectionMarks[k].text, true, 0);
    SectionMarksValid();
    ReSplitLeadingLiteral(content, SectionMarks, k);
    BlankFirstYieldsNothing(content, expected);
  }

  lemma BlankFirstYieldsNothing(content: string, expected: int)
    requires ReSplit(content, SectionMarks)[0] == []
    ensures ParseExercises(content, expected) == []
  {
    ParseEndsAtBlank(content, expected, 0);
    assert ReSplit(content, SectionMarks)[..0] == [];
  }

  /** `_parse_simple_format`. */
  method ParseSimpleFormat(content: string, expectedCount: int) returns (exercises: seq<Exercise>)
    ensures exercises == ParseExercises(content, expectedCount)
  {
    var sections := ReSplit(content, SectionMarks);
    exercises := ParseExerciseSections(sections, expectedCount);
  }

  /** The loop of `_parse_simple_format` over the sections. */
  method ParseExerciseSections(sections: seq<string>, expectedCount: int) returns (exercises: seq<Exercise>)
    ensures exercises == ParseWhile(sections, expectedCount, SectionExercise, [])
  {
    exercises := [];
    var i := 0;
    while i < |sections|
      invariant 0 <= i <= |sections|
      invariant ParseWhile(sections, expectedCount, SectionExercise, []) == ParseWhile(sections[i..], expectedCount, SectionExercise, exercises)
    {
      ParseWhileStep(sections, i, expectedCount, SectionExercise, exercises);
      var section := Strip(sections[i]);
      if section == [] || |exercises| >= expectedCount {
        return;
      }
      var q := ParseSection(section);
      if q.Some? {
        exercises := exercises + [q.value];
      }
      i := i + 1;
    }
  }

  /** The body of that loop for one stripped, non-empty section: the exercise it yields, if any. */
  method ParseSection(section: string) returns (q: Option<Exercise>)
    ensures q == SectionExercise(section)
  {
    var exerciseType := LeadingWord(section);
    var instructionMatch := InstructionSearch(section);
    var instruction := if instructionMatch.Some? then Strip(instructionMatch.value) else "";
    var questionMatch := QuestionSearch(section);
    var question := if questionMatch.Some? then Strip(questionMatch.value) else "";
    var answerMatch := AnswerSearch(section);
    var answer := if answerMatch.Some? then Strip(answerMatch.value) else "";
    q := None;
    if exerciseType != [] && question != [] && answer != [] {
      var exercise := Exercise(exerciseType, if instruction != [] then instruction else CompleteThis + exerciseType + ExerciseDot,
                               question, Str(answer), Str("beginner"), None);
      if exerciseType == Matching {
        exercise := exercise.(answer := PlaceholderAnswer, pairing := Some(PlaceholderPairing));
      }
      q := Some(exercise);
    }
    assert q == Assemble(exerciseType, instruction, question, answer);
  }

  // ---------------------------------------------------------------------
  // `_is_valid_exercise`, `_clean_text`, `_clean_and_validate_exercises`

  /** The answer test of `_is_valid_exercise` for each known type; other types pass. */
  predicate AnswerFits(kind: string, answer: Value) {
    if kind == FillBlank then answer.Str? && |answer.s| >= 2
    else if kind == TrueFalse then answer.Str? && (Lower(answer.s) == TrueText || Lower(answer.s) == FalseText)
    else if kind == ShortAnswer then answer.Str? && |answer.s| >= 10
    else if kind == Matching then answer.Arr? && |answer.items| >= 2
    else true
  }

  /** `_is_valid_exercise`. */
  predicate IsValidExercise(kind: string, instruction: string, question: string, answer: Value) {
    kind != [] && instruction != [] && question != [] && |instruction| >= 5 && |question| >= 5 && AnswerFits(kind, answer)
  }

  /** `_clean_text` of this generator. */
  function CleanText(text: string): (r: string)
    ensures Clean(r)
  {
    DocumentClean(text, ExerciseLabels)
  }

  /** `str(x)`: a string is itself; `show` renders any other value. */
  function PyStr(v: Value, show: Value -> string): string {
    if v.Str? then v.s else show(v)
  }

  /** `[self._clean_text(str(x)) for x in xs]`. */
  function CleanEach(xs: seq<Value>, show: Value -> string): (r: seq<string>)
    ensures |r| == |xs| && forall i :: 0 <= i < |xs| ==> r[i] == CleanText(PyStr(xs[i], show))
  {
    seq(|xs|, i requires 0 <= i < |xs| => CleanText(PyStr(xs[i], show)))
  }

  /** `[self._clean_text(str(x)) for x in xs if x]`. */
  function CleanTruthy(xs: seq<Value>, show: Value -> string): (r: seq<string>)
    ensures |r| <= |xs|
    ensures forall i :: 0 <= i < |r| ==> Clean(r[i])
  {
    if xs == [] then []
    else (if Truthy(xs[0]) then [CleanText(PyStr(xs[0], show))] else []) + CleanTruthy(xs[1..], show)
  }

  /** Only falsy items are dropped: with none of them, every item is kept, cleaned, in order. */
  lemma {:induction false} CleanTruthyKeepsAll(xs: seq<Value>, show: Value -> string)
    requires forall i :: 0 <= i < |xs| ==> Truthy(xs[i])
    ensures CleanTruthy(xs, show) == CleanEach(xs, show)
  {
    if xs != [] {
      forall i | 0 <= i < |xs[1..]| ensures Truthy(xs[1..][i]) {
        assert xs[1..][i] == xs[i + 1];
      }
      CleanTruthyKeepsAll(xs[1..], show);
      assert CleanTruthy(xs, show) == [CleanText(PyStr(xs[0], show))] + CleanTruthy(xs[1..], show);
      CleanEachCons(xs, show);
    }
  }

  lemma CleanEachCons(xs: seq<Value>, show: Value -> string)
    requires xs != []
    ensures CleanEach(xs, show) == [CleanText(PyStr(xs[0], show))] + CleanEach(xs[1..], show)
  {
    var a := CleanEach(xs, show);
    var t := CleanEach(xs[1..], show);
    forall i | 1 <= i < |a| ensures a[i] == t[i - 1] {
      assert xs[1..][i - 1] == xs[i];
    }
    ShiftEq(a, t);
  }

  /** A string answer is cleaned, a list answer cleaned item by item without its falsy items, any other kept. */
  function CleanAnswer(answer: Value, show: Value -> string): (r: Value)
    ensures answer.Str? ==> r.Str? && Clean(r.s)
    ensures answer.Arr? ==> r.Arr? && |r.items| <= |answer.items| && forall i :: 0 <= i < |r.items| ==> r.items[i].Str? && Clean(r.items[i].s)
    ensures !answer.Str? && !answer.Arr? ==> r == answer
  {
    match answer
    case Str(s) => Str(CleanText(s))
    case Arr(items) => Arr(Strs(CleanTruthy(items, show)))
    case _ => answer
  }

  /** The item is a dict whose type, instruction and question are strings, so the three `.strip()` calls succeed. */
  predicate FieldsOk(item: Value) {
    item.Obj? && Field(item, "type", Str("")).Str? && Field(item, "instruction", Str("")).Str?
    && Field(item, "question", Str("")).Str?
  }

  /** The exercise the cleaner assembles before it validates. */
  function Draft(item: Value, show: Value -> string): (e: Exercise)
    requires FieldsOk(item)
    ensures IsStripped(e.kind) && Clean(e.instruction) && Clean(e.question) && e.pairing.None?
  {
    Exercise(Strip(Field(item, "type", Str("")).s),
             CleanText(Strip(Field(item, "instruction", Str("")).s)),
             CleanText(Strip(Field(item, "question", Str("")).s)),
             CleanAnswer(Field(item, "answer", Str("")), show),
             Field(item, "difficulty", Str("beginner")),
             None)
  }

  /**
   * The lists a kept matching exercise gets: none unless both `concepts`
   * and `definitions` are truthy; iterating either raises when it is not
   * a string, list or dict.
   */
  function ItemPairing(item: Value, show: Value -> string): (r: Outcome<Option<Pairing>>)
    requires item.Obj?
    ensures r.Ok? && r.value.Some? ==>
      (forall i :: 0 <= i < |r.value.value.concepts| ==> Clean(r.value.value.concepts[i]))
      && (forall i :: 0 <= i < |r.value.value.definitions| ==> Clean(r.value.value.definitions[i]))
  {
    var cs := Field(item, "concepts", Arr([]));
    var ds := Field(item, "definitions", Arr([]));
    if !(Truthy(cs) && Truthy(ds)) then Ok(None)
    else
      match (Iterate(cs), Iterate(ds))
      case (Ok(c), Ok(d)) => Ok(Some(Pairing(CleanEach(c, show), CleanEach(d, show))))
      case _ => Raised
  }

  /**
   * The rest of the loop body once the exercise `e` is assembled: drop it
   * unless valid; a valid matching exercise takes the extra lists of the
   * item, when both are present.
   */
  function Vet(item: Value, e: Exercise, show: Value -> string): (r: Outcome<Option<Exercise>>)
    requires item.Obj? && e.pairing.None?
    ensures r.Raised? <==> IsValidExercise(e.kind, e.instruction, e.question, e.answer) && e.kind == Matching && ItemPairing(item, show).Raised?
    ensures r.Ok? ==> (r.value.Some? <==> IsValidExercise(e.kind, e.instruction, e.question, e.answer))
    ensures r.Ok? && r.value.Some? ==>
      && r.value.value.(pairing := None) == e
      && (r.value.value.pairing.Some? ==> e.kind == Matching && Truthy(Field(item, "concepts", Arr([]))) && Truthy(Field(item, "definitions", Arr([]))))
  {
    if !IsValidExercise(e.kind, e.instruction, e.question, e.answer) then Ok(None)
    else if e.kind != Matching then Ok(Some(e))
    else
      match ItemPairing(item, show)
      case Raised => Raised
      case Ok(p) => Ok(Some(e.(pairing := p)))
  }

  /** One pass of the loop body of `_clean_and_validate_exercises`. */
  function CleanExercise(item: Value, show: Value -> string): (r: Outcome<Option<Exercise>>)
    ensures r.Raised? <==>
      !FieldsOk(item)
      || (var e := Draft(item, show); IsValidExercise(e.kind, e.instruction, e.question, e.answer)
                                      && e.kind == Matching && ItemPairing(item, show).Raised?)
    ensures r.Ok? ==> (r.value.Some? <==>
      var e := Draft(item, show); IsValidExercise(e.kind, e.instruction, e.question, e.answer))
    ensures r.Ok? && r.value.Some? ==>
      var e := r.value.value;
      && e.(pairing := None) == Draft(item, show)
      && IsValidExercise(e.kind, e.instruction, e.question, e.answer)
      && IsStripped(e.kind) && Clean(e.instruction) && Clean(e.question)
      && e.difficulty == Field(item, "difficulty", Str("beginner"))
      && (e.pairing.Some? ==> e.kind == Matching)
  {
    if !FieldsOk(item) then Raised else Vet(item, Draft(item, show), show)
  }

  /** The cleaner step with this `show`. */
  function CleanStep(show: Value -> string): Value -> Outcome<Option<Exercise>> {
    item => CleanExercise(item, show)
  }

  /** A cleaned text is never "true" or "false", in any case: it is empty or ends in `.`, `!` or `?`. */
  lemma CleanIsNoVerdict(a: string)
    requires Clean(a)
    ensures Lower(a) != TrueText && Lower(a) != FalseText
  {
    if a != [] {
      var last := a[|a| - 1];
      assert EndsWithTerminal(a);
      assert last == '.' || last == '!' || last == '?';
      assert Lower(a)[|a| - 1] == LowerChar(last) == last;
      assert TrueText[3] == 'e' && FalseText[4] == 'e';
    }
  }

  /** A cleaned answer that is a string is a cleaned text. */
  lemma CleanAnswerText(answer: Value, show: Value -> string)
    ensures CleanAnswer(answer, show).Str? ==> answer.Str? && Clean(CleanAnswer(answer, show).s)
  {
  }

  /**
   * A true/false exercise never survives the cleaner: its answer, once
   * cleaned, ends in `.`, `!` or `?`, so it is never "true" or "false".
   */
  lemma TrueFalseNeverKept(item: Value, show: Value -> string)
    ensures var r := CleanExercise(item, show);
            r.Ok? && r.value.Some? ==> r.value.value.kind != TrueFalse
  {
    if FieldsOk(item) {
      var e := Draft(item, show);
      CleanAnswerText(Field(item, "answer", Str("")), show);
      if e.answer.Str? {
        CleanIsNoVerdict(e.answer.s);
      }
    }
  }

  /**
   * The evidently intended cleaner: a true/false answer is a single word
   * to compare, so it is only stripped, not given sentence punctuation;
   * everything else is as written.
   */
  function IntendedAnswer(kind: string, answer: Value, show: Value -> string): (r: Value)
    ensures kind == TrueFalse && answer.Str? ==> r == Str(Strip(answer.s))
    ensures !(kind == TrueFalse && answer.Str?) ==> r == CleanAnswer(answer, show)
  {
    if kind == TrueFalse && answer.Str? then Str(Strip(answer.s)) else CleanAnswer(answer, show)
  }

  function CleanExerciseIntended(item: Value, show: Value -> string): (r: Outcome<Option<Exercise>>)
    ensures !FieldsOk(item) ==> r.Raised?
    ensures r.Raised? ==> !FieldsOk(item) || Draft(item, show).kind == Matching
    ensures r.Ok? && r.value.Some? ==>
      var e := r.value.value;
      && IsValidExercise(e.kind, e.instruction, e.question, e.answer)
      && e.kind == Draft(item, show).kind && e.difficulty == Field(item, "difficulty", Str("beginner"))
  {
    if !FieldsOk(item) then Raised
    else
      var d := Draft(item, show);
      Vet(item, d.(answer := IntendedAnswer(d.kind, Field(item, "answer", Str("")), show)), show)
  }

  /**
   * With the intended cleaner a true/false item whose stripped answer is
   * "true" or "false" in any case, and whose cleaned instruction and
   * question are long enough, is kept with its answer.
   */
  lemma TrueFalseKeptWhenIntended(item: Value, show: Value -> string)
    requires FieldsOk(item) && Draft(item, show).kind == TrueFalse
    requires |Draft(item, show).instruction| >= 5 && |Draft(item, show).question| >= 5
    requires Field(item, "answer", Str("")).Str?
    requires var a := Lower(Strip(Field(item, "answer", Str("")).s)); a == TrueText || a == FalseText
    ensures var r := CleanExerciseIntended(item, show);
            r.Ok? && r.value.Some? && r.value.value.kind == TrueFalse
            && r.value.value.answer == Str(Strip(Field(item, "answer", Str("")).s))
  {
    var d := Draft(item, show);
    var raw := Field(item, "answer", Str(""));
    var e := d.(answer := IntendedAnswer(d.kind, raw, show));
    assert e.answer == Str(Strip(raw.s));
    assert |TrueText| == 4 && |FalseText| == 5 && |TrueFalse| == 10 && |Matching| == 8;
    assert AnswerFits(e.kind, e.answer);
    assert IsValidExercise(e.kind, e.instruction, e.question, e.answer);
    assert Vet(item, e, show) == Ok(Some(e));
  }

  /** The type, instruction and question of a built dict are its first three fields. */
  lemma RecordFields(e: Exercise)
    ensures FieldsOk(ToValue(e))
  {
    var f := ToValue(e).fields;
    assert f[0].0 == "type" && f[1].0 == "instruction" && f[2].0 == "question";
    assert KeyIndex(f, "type") == 0;
    assert KeyIndex(f, "instruction") == 1;
    assert KeyIndex(f, "question") == 2;
  }

  /** The extra lists of a built dict are lists, or absent. */
  lemma RecordPairing(e: Exercise, show: Value -> string)
    ensures ItemPairing(ToValue(e), show).Ok?
  {
    if e.pairing.Some? {
      PairedFields(e);
    } else {
      UnpairedFields(e);
    }
    PairingOfLists(ToValue(e), show);
  }

  lemma PairedFields(e: Exercise)
    requires e.pairing.Some?
    ensures Field(ToValue(e), "concepts", Arr([])).Arr? && Field(ToValue(e), "definitions", Arr([])).Arr?
  {
    var f := ToValue(e).fields;
    KeyIndexAt(f, "concepts", 5);
    KeyIndexAt(f, "definitions", 6);
  }

  lemma UnpairedFields(e: Exercise)
    requires e.pairing.None?
    ensures Field(ToValue(e), "concepts", Arr([])).Arr? && Field(ToValue(e), "definitions", Arr([])).Arr?
  {
    var f := ToValue(e).fields;
    assert KeyIndex(f, "concepts") == -1;
    assert KeyIndex(f, "definitions") == -1;
  }

  /** Two lists, or two absent keys, never make the pairing step raise. */
  lemma PairingOfLists(item: Value, show: Value -> string)
    requires item.Obj?
    requires Field(item, "concepts", Arr([])).Arr? && Field(item, "definitions", Arr([])).Arr?
    ensures ItemPairing(item, show).Ok?
  {
  }

  /** A dict built by this module never makes the cleaner raise. */
  lemma CleanExerciseOfRecord(e: Exercise, show: Value -> string)
    ensures CleanExercise(ToValue(e), show).Ok?
  {
    RecordFields(e);
    RecordPairing(e, show);
  }

  /** `_clean_and_validate_exercises`. */
  method CleanAndValidateExercises(exercises: seq<Value>, targetCount: int, show: Value -> string) returns (r: Outcome<seq<Exercise>>)
    ensures r == Collect(exercises, targetCount, CleanStep(show), [])
  {
    r := CleanAndValidate(exercises, targetCount, CleanStep(show));
  }

  /** An exercise the validator accepts, with the extra lists only on a matching exercise. */
  predicate Accepted(e: Exercise) {
    IsValidExercise(e.kind, e.instruction, e.question, e.answer) && (e.pairing.Some? ==> e.kind == Matching)
  }

  /**
   * The cleaned exercises: at most `max(target_count, 1)`, each accepted
   * by the validator and never of type true/false, each the cleaned form
   * of one of the first `Consumed` inputs, in input order.
   */
  lemma CleanedExercises(exercises: seq<Value>, targetCount: int, show: Value -> string)
    ensures var r := Collect(exercises, targetCount, CleanStep(show), []);
            r.Ok? ==>
              && |r.value| <= Max(targetCount, 1)
              && (forall i :: 0 <= i < |r.value| ==> Accepted(r.value[i]) && r.value[i].kind != TrueFalse)
              && r == Pipeline.Kept(exercises[..Consumed(exercises, targetCount, CleanStep(show), [])], CleanStep(show))
  {
    var step := CleanStep(show);
    forall x | step(x).Ok? && step(x).value.Some?
      ensures Accepted(step(x).value.value) && step(x).value.value.kind != TrueFalse
    {
      TrueFalseNeverKept(x, show);
    }
    CleanedShape(exercises, targetCount, step, e => Accepted(e) && e.kind != TrueFalse);
    CollectIsKeptPrefix(exercises, targetCount, step, []);
    var k := Pipeline.Kept(exercises[..Consumed(exercises, targetCount, step, [])], step);
    if k.Ok? {
      assert [] + k.value == k.value;
    }
  }

  // ---------------------------------------------------------------------
  // `_generate_rule_based_exercises`

  /** The phrases of the rule-based exercises in one language. */
  datatype ExercisePhrases = ExercisePhrases(
    blankInstruction: string, blankQuestion: string,
    judgeInstruction: string, judgeStatement: Template,
    shortInstruction: string, shortQuestion: string, shortAnswer: string)

  const SinhalaPhrases := ExercisePhrases(
    "හිස් තැන පුරවන්න",
    "මෙම විෂයයේ ප්‍රධාන සංකල්පය වන්නේ _____ ය.",
    "සත්‍ය හෝ අසත්‍ය බව තීරණය කරන්න",
    Around("මෙම ප්‍රකාශනය සත්‍යය: ", "..."),
    "2-3 වාක්‍ය තුළ පිළිතුරු දෙන්න",
    "මෙම විෂයයේ ප්‍රධාන සංකල්ප මොනවාද?",
    "මෙම විෂයයේ ප්‍රධාන සංකල්ප සහ මූලධර්ම ඇතුළත් වේ.")

  const TamilPhrases := ExercisePhrases(
    "வெற்று இடத்தை நிரப்பவும்",
    "இந்த பாடத்தின் முக்கிய கருத்து _____ ஆகும்.",
    "சரி அல்லது தவறு என தீர்மானிக்கவும்",
    Around("இந்த கூற்று சரி: ", "..."),
    "2-3 வாக்கியங்களில் பதிலளிக்கவும்",
    "இந்த பாடத்தின் முக்கிய கருத்துக்கள் என்ன?",
    "இந்த பாடத்தின் முக்கிய கருத்துக்கள் மற்றும் கொள்கைகள் அடங்கும்.")

  const EnglishPhrases := ExercisePhrases(
    "Fill in the blank",
    "The main concept in this topic is _____.",
    "Determine if true or false",
    Around("This statement is true: ", "..."),
    "Answer in 2-3 sentences",
    "What are the main concepts in this topic?",
    "This topic covers various important concepts and principles that are fundamental to understanding the subject matter.")

  /** The phrases for "si", "ta", and every other language (English). */
  function PhrasesFor(language: string): ExercisePhrases {
    if language == "si" then SinhalaPhrases
    else if language == "ta" then TamilPhrases
    else EnglishPhrases
  }

  /** Phrases long enough for the validator: instructions and questions of at least 5 characters, a long short answer. */
  predicate PhrasesFit(p: ExercisePhrases) {
    |p.blankInstruction| >= 5 && |p.blankQuestion| >= 5 && |p.judgeInstruction| >= 5
    && p.judgeStatement.Around? && |p.judgeStatement.before| >= 5
    && |p.shortInstruction| >= 5 && |p.shortQuestion| >= 5 && |p.shortAnswer| >= 10
  }

  lemma PhrasesFitAll(language: string)
    ensures PhrasesFit(PhrasesFor(language))
  {
    assert PhrasesFit(SinhalaPhrases) && PhrasesFit(TamilPhrases) && PhrasesFit(EnglishPhrases);
  }

  /** The fill-in-the-blank exercise for a key concept; the concept is the answer. */
  function BlankExercise(concept: string, p: ExercisePhrases, difficulty: string): Exercise {
    Exercise(FillBlank, p.blankInstruction, p.blankQuestion, Str(concept), Str(difficulty), None)
  }

  /** The true/false exercise for the `i`-th long sentence: "true" for even `i`, "false" for odd. */
  function JudgeExercise(i: nat, sentence: string, p: ExercisePhrases, difficulty: string): Exercise {
    Exercise(TrueFalse, p.judgeInstruction, Fill(p.judgeStatement, Take(sentence, 80)),
             Str(if i % 2 == 0 then TrueText else FalseText), Str(difficulty), None)
  }

  /** The short-answer exercise that fills the list. */
  function ShortExercise(p: ExercisePhrases, difficulty: string): Exercise {
    Exercise(ShortAnswer, p.shortInstruction, p.shortQuestion, Str(p.shortAnswer), Str(difficulty), None)
  }

  function BlankItem(p: ExercisePhrases, difficulty: string): string -> Exercise {
    c => BlankExercise(c, p, difficulty)
  }

  function JudgeItem(p: ExercisePhrases, difficulty: string): (nat, string) -> Exercise {
    (i: nat, s) => JudgeExercise(i, s, p, difficulty)
  }

  /** `fill_blank_count` and `true_false_count`: a third of the count each, capped by what there is. */
  function ThirdOf(count: int, available: nat): int {
    Min(count / 3, available)
  }

  /** The layout of the rule-based exercises from the ranked concepts and the long sentences. */
  function ExerciseLayout(kc: seq<string>, sentences: seq<string>, p: ExercisePhrases, difficulty: string, count: int): seq<Exercise> {
    Layout(kc, ThirdOf(count, |kc|), sentences, ThirdOf(count, |sentences|), count,
           BlankItem(p, difficulty), JudgeItem(p, difficulty), ShortExercise(p, difficulty))
  }

  /**
   * The rule-based list: `min(count // 3, len(concepts))` fill-in-the-blank
   * exercises, `min(count // 3, len(sentences))` true/false ones, then
   * short-answer ones up to `count`, cut to `count`. `words` is the
   * `re.findall` output for `text`.
   */
  function RuleBasedExerciseList(text: string, words: seq<string>, language: string, difficulty: string, count: int): seq<Exercise> {
    ExerciseLayout(Concepts.KeyConcepts(words, 3, 10), Sentences(text, 30), PhrasesFor(language), difficulty, count)
  }

  /** Every rule-based exercise has a string answer, no extra lists and the requested difficulty. */
  predicate RuleShaped(e: Exercise, difficulty: string) {
    e.answer.Str? && e.pairing.None? && e.difficulty == Str(difficulty)
  }

  /**
   * Exactly `count` exercises for a non-negative count, each with a string
   * answer; first the fill-in-the-blank exercises for the leading concepts,
   * in ranking order.
   */
  lemma ExerciseLayoutShape(kc: seq<string>, sentences: seq<string>, p: ExercisePhrases, difficulty: string, count: int)
    ensures var r := ExerciseLayout(kc, sentences, p, difficulty, count);
            var nb := |Take(kc, ThirdOf(count, |kc|))|;
            (count >= 0 ==> |r| == count && nb == ThirdOf(count, |kc|))
            && (forall i :: 0 <= i < |r| ==> RuleShaped(r[i], difficulty))
            && (forall i :: 0 <= i < |r| && i < nb ==> r[i] == BlankExercise(kc[i], p, difficulty))
  {
    LayoutShape(kc, ThirdOf(count, |kc|), sentences, ThirdOf(count, |sentences|), count,
                BlankItem(p, difficulty), JudgeItem(p, difficulty), ShortExercise(p, difficulty), e => RuleShaped(e, difficulty));
  }

  /**
   * After the fill-in-the-blank exercises come the true/false ones, one per
   * leading long sentence with answers alternating from "true", then the
   * short-answer exercise.
   */
  lemma ExerciseLayoutTail(kc: seq<string>, sentences: seq<string>, p: ExercisePhrases, difficulty: string, count: int)
    ensures var r := ExerciseLayout(kc, sentences, p, difficulty, count);
            var nb := |Take(kc, ThirdOf(count, |kc|))|;
            var nj := |Take(sentences, ThirdOf(count, |sentences|))|;
            && (forall i :: nb <= i < |r| && i < nb + nj ==> r[i] == JudgeExercise(i - nb, sentences[i - nb], p, difficulty))
            && (forall i :: nb + nj <= i < |r| ==> r[i] == ShortExercise(p, difficulty))
  {
    LayoutShape(kc, ThirdOf(count, |kc|), sentences, ThirdOf(count, |sentences|), count,
                BlankItem(p, difficulty), JudgeItem(p, difficulty), ShortExercise(p, difficulty), e => true);
  }

  /**
   * With concepts of at least two characters and phrases long enough,
   * every rule-based exercise passes `_is_valid_exercise` as it is built.
   */
  lemma ExerciseLayoutValid(kc: seq<string>, sentences: seq<string>, p: ExercisePhrases, difficulty: string, count: int)
    requires PhrasesFit(p)
    requires forall i :: 0 <= i < |kc| ==> |kc[i]| >= 2
    ensures var r := ExerciseLayout(kc, sentences, p, difficulty, count);
            forall i :: 0 <= i < |r| ==> Accepted(r[i])
  {
    var r := ExerciseLayout(kc, sentences, p, difficulty, count);
    var nb := |Take(kc, ThirdOf(count, |kc|))|;
    var nj := |Take(sentences, ThirdOf(count, |sentences|))|;
    ExerciseLayoutShape(kc, sentences, p, difficulty, count);
    ExerciseLayoutTail(kc, sentences, p, difficulty, count);
    forall i | 0 <= i < |r| ensures Accepted(r[i]) {
      if i < nb {
        assert r[i] == BlankExercise(kc[i], p, difficulty);
        BlankAccepted(kc[i], p, difficulty);
      } else if i < nb + nj {
        var k := i - nb;
        assert r[i] == JudgeExercise(k, sentences[k], p, difficulty);
        JudgeAccepted(k, sentences[k], p, difficulty);
      } else {
        assert r[i] == ShortExercise(p, difficulty);
        ShortAccepted(p, difficulty);
      }
    }
  }

  lemma BlankAccepted(concept: string, p: ExercisePhrases, difficulty: string)
    requires PhrasesFit(p) && |concept| >= 2
    ensures Accepted(BlankExercise(concept, p, difficulty))
  {
  }

  lemma JudgeAccepted(i: nat, sentence: string, p: ExercisePhrases, difficulty: string)
    requires PhrasesFit(p)
    ensures Accepted(JudgeExercise(i, sentence, p, difficulty))
  {
    assert |Fill(p.judgeStatement, Take(sentence, 80))| >= 5;
  }

  lemma ShortAccepted(p: ExercisePhrases, difficulty: string)
    requires PhrasesFit(p)
    ensures Accepted(ShortExercise(p, difficulty))
  {
  }

  lemma RuleBasedExercisesValid(text: string, words: seq<string>, language: string, difficulty: string, count: int)
    ensures var r := RuleBasedExerciseList(text, words, language, difficulty, count);
            (count >= 0 ==> |r| == count)
            && forall i :: 0 <= i < |r| ==> Accepted(r[i])
  {
    var kc := Concepts.KeyConcepts(words, 3, 10);
    Concepts.KeyConceptsDistinct(words, 3, 10);
    PhrasesFitAll(language);
    ExerciseLayoutShape(kc, Sentences(text, 30), PhrasesFor(language), difficulty, count);
    ExerciseLayoutValid(kc, Sentences(text, 30), PhrasesFor(language), difficulty, count);
  }

  /** `_generate_rule_based_exercises`. */
  method RuleBasedExercises(text: string, words: seq<string>, language: string, difficulty: string, count: int)
    returns (r: seq<Exercise>)
    ensures r == RuleBasedExerciseList(text, words, language, difficulty, count)
  {
    var sentences := Sentences(text, 30);
    var keyConcepts := Concepts.ExtractKeyConcepts(words, 3, 10);
    var p := PhrasesFor(language);
    r := FillExerciseLayout(keyConcepts, sentences, p, difficulty, count);
  }

  /** The loops of `_generate_rule_based_exercises` once the phrases are chosen. */
  method FillExerciseLayout(kc: seq<string>, sentences: seq<string>, p: ExercisePhrases, difficulty: string, count: int)
    returns (r: seq<Exercise>)
    ensures r == ExerciseLayout(kc, sentences, p, difficulty, count)
  {
    var fillBlankCount := ThirdOf(count, |kc|);
    var trueFalseCount := ThirdOf(count, |sentences|);
    r := FillLayoutCounted(kc, fillBlankCount, sentences, trueFalseCount, count,
                           BlankItem(p, difficulty), JudgeItem(p, difficulty), ShortExercise(p, difficulty));
  }

  // ---------------------------------------------------------------------
  // `generate_exercises`

  /** `_generate_simple_exercises` after the model call: nothing for an empty response, else the parse. */
  function SimpleExercises(response: Option<string>, count: int): seq<Exercise> {
    if response.None? || Strip(response.value) == [] then [] else ParseExercises(response.value, count)
  }

  /** What the model paths give: the structured items, else the simple exercises. */
  function ModelItems(structured: Option<string>, simple: Option<string>, decode: string -> Option<Value>, count: int): seq<Value> {
    var s := StructuredItems(structured, decode);
    if s != [] then s else Encode(SimpleExercises(simple, count), ToValue)
  }

  /**
   * `generate_exercises`: too-short text gives nothing; otherwise the
   * structured response, else the simple one; with neither, the rule-based
   * list when the flag is on and nothing when it is off. The result is
   * cleaned; when the cleaner raises, the `except` branch returns the raw
   * rule-based list when the flag is on and nothing when it is off. An
   * undefined flag raises from both imports, so the call raises.
   */
  function GenerateExercises(text: string, words: seq<string>, language: string, difficulty: string, count: int,
                             structured: Option<string>, simple: Option<string>, decode: string -> Option<Value>,
                             show: Value -> string, flag: Option<bool>): Outcome<seq<Exercise>>
  {
    var t := Strip(text);
    if |t| < 50 then Ok([])
    else Gate(ModelItems(structured, simple, decode, count), RuleBasedExerciseList(t, words, language, difficulty, count),
              ToValue, count, CleanStep(show), flag)
  }

  /** Stripped text shorter than 50 characters yields no exercises. */
  lemma ShortTextNoExercises(text: string, words: seq<string>, language: string, difficulty: string, count: int,
                             structured: Option<string>, simple: Option<string>, decode: string -> Option<Value>,
                             show: Value -> string, flag: Option<bool>)
    requires |Strip(text)| < 50
    ensures GenerateExercises(text, words, language, difficulty, count, structured, simple, decode, show, flag) == Ok([])
  {
  }

  /**
   * When both model paths give nothing, the result is the cleaned
   * rule-based list of the stripped text if the flag is on, nothing if it
   * is off, and an exception if the flag is not defined.
   */
  lemma FallbackFollowsFlag(text: string, words: seq<string>, language: string, difficulty: string, count: int,
                            structured: Option<string>, simple: Option<string>, decode: string -> Option<Value>,
                            show: Value -> string, flag: Option<bool>)
    requires |Strip(text)| >= 50
    requires StructuredItems(structured, decode) == [] && SimpleExercises(simple, count) == []
    ensures var r := GenerateExercises(text, words, language, difficulty, count, structured, simple, decode, show, flag);
            var rb := Encode(RuleBasedExerciseList(Strip(text), words, language, difficulty, count), ToValue);
            && (flag == Some(true) ==> Collect(rb, count, CleanStep(show), []).Ok? && r == Collect(rb, count, CleanStep(show), []))
            && (flag == Some(false) ==> r == Ok([]))
            && (flag.None? ==> r.Raised?)
  {
    forall e ensures CleanStep(show)(ToValue(e)).Ok? {
      CleanExerciseOfRecord(e, show);
    }
    assert ModelItems(structured, simple, decode, count) == [];
    GateFallback(RuleBasedExerciseList(Strip(text), words, language, difficulty, count), ToValue, count, CleanStep(show), flag);
  }

  /**
   * Whatever path is taken, every exercise returned passes
   * `_is_valid_exercise` and carries the extra lists only when it is a
   * matching exercise; for a non-negative count there are at most
   * `max(count, 1)` of them.
   */
  lemma GeneratedExercisesShape(text: string, words: seq<string>, language: string, difficulty: string, count: int,
                                structured: Option<string>, simple: Option<string>, decode: string -> Option<Value>,
                                show: Value -> string, flag: Option<bool>)
    ensures var r := GenerateExercises(text, words, language, difficulty, count, structured, simple, decode, show, flag);
            r.Ok? ==> (count >= 0 ==> |r.value| <= Max(count, 1))
                      && forall i :: 0 <= i < |r.value| ==> Accepted(r.value[i])
  {
    var t := Strip(text);
    if |t| >= 50 {
      var step := CleanStep(show);
      forall x | step(x).Ok? && step(x).value.Some? ensures Accepted(step(x).value.value) {
      }
      RuleBasedExercisesValid(t, words, language, difficulty, count);
      GateShape(ModelItems(structured, simple, decode, count), RuleBasedExerciseList(t, words, language, difficulty, count),
                ToValue, count, step, flag, Accepted);
    }
  }
}
