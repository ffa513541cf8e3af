/**
 * The sentence-based exercise generator (app/generators/exercise_generator.py):
 * from a text's '.'-separated sentences and its key concepts it builds
 * up to three fill-in-the-blank exercises, up to three true/false
 * statements, up to two short-answer questions and at most one matching
 * exercise.
 *
 * `random.choice` is a draw from the random source `rand` at a tick of a
 * clock, as for the quiz generator's shuffle. The capitalised phrases the
 * key-concept regular expression finds and Python's `str.isalpha` test
 * on characters are inputs (`capitalised`, `alpha`).
 */
module ExerciseGen {
  import opened Text
  import opened Wrappers
  import opened Concepts
  import opened RuleBased
  import QuizGen

  /** One exercise dictionary; the matching one has concepts, definitions and an answer dictionary instead of a text. */
  datatype Exercise =
    | FillBlank(instruction: string, exerciseText: string, answer: string, difficulty: string)
    | TrueFalse(instruction: string, exerciseText: string, answer: string, difficulty: string)
    | ShortAnswer(instruction: string, exerciseText: string, answer: string, difficulty: string)
    | Matching(instruction: string, concepts: seq<string>, definitions: seq<string>, pairs: map<string, string>, difficulty: string)

  // ---------------------------------------------------------------------
  // Fill in the blanks

  const Blank := "______"

  const FillSi := "පහත වාක්‍යයේ හිස් තැන පුරවන්න:"
  const FillTa := "பின்வரும் வாக்்யத்தில் கா்லி இடத்தை நிரப்பவும்:"
  const FillEn := "Fill in the blank in the following sentence:"

  function FillInstruction(language: string): string {
    if language == "si" then FillSi else if language == "ta" then FillTa else FillEn
  }

  /** `w.isalpha()`: non-empty and every character alphabetic. */
  predicate Alphabetic(w: string, alpha: char -> bool) {
    w != [] && forall i :: 0 <= i < |w| ==> alpha(w[i])
  }

  /** `[w for w in words if len(w) > 4 and w.isalpha()]`. */
  predicate Important(w: string, alpha: char -> bool) {
    |w| > 4 && Alphabetic(w, alpha)
  }

  /** The words worth blanking, in order: exactly the words of more than four letters. */
  function ImportantWords(words: seq<string>, alpha: char -> bool): (r: seq<string>)
    ensures forall k :: 0 <= k < |r| ==> r[k] in words && Important(r[k], alpha)
    ensures forall k :: 0 <= k < |words| && Important(words[k], alpha) ==> words[k] in r
  {
    if words == [] then []
    else
      var rest := ImportantWords(words[1..], alpha);
      assert forall k :: 1 <= k < |words| ==> words[k] == words[1..][k - 1];
      (if Important(words[0], alpha) then [words[0]] else []) + rest
  }

  /** `random.choice(xs)` with the number drawn at tick `clock`: an element of `xs`. */
  function Choice(xs: seq<string>, rand: QuizGen.Draws, clock: nat): (r: string)
    requires xs != []
    ensures r in xs
  {
    xs[rand(clock) % |xs|]
  }

  /**
   * One turn of the fill-in-the-blank loop: a sentence of more than eight
   * words with an important word gives the sentence with that word
   * blanked out; any other sentence gives nothing.
   */
  function FillBlankFor(sentence: string, language: string, difficulty: string, alpha: char -> bool,
                        rand: QuizGen.Draws, clock: nat): Option<Exercise>
  {
    var words := Words(sentence);
    var important := ImportantWords(words, alpha);
    if |words| > 8 && important != [] then
      var w := Choice(important, rand, clock);
      Some(FillBlank(FillInstruction(language), Replace(sentence, w, Blank), w, difficulty))
    else None
  }

  /** `e` blanks an important word out of `sentence`, a sentence of more than eight words. */
  predicate Blanked(e: Exercise, sentence: string, alpha: char -> bool) {
    && e.FillBlank?
    && |Words(sentence)| > 8
    && e.answer in Words(sentence)
    && Important(e.answer, alpha)
    && e.exerciseText == Replace(sentence, e.answer, Blank)
  }

  /** A sentence gives an exercise exactly when it has more than eight words and one of them is important; the exercise blanks that word. */
  lemma FillBlankForSpec(sentence: string, language: string, difficulty: string, alpha: char -> bool,
                         rand: QuizGen.Draws, clock: nat)
    ensures FillBlankFor(sentence, language, difficulty, alpha, rand, clock).Some?
      <==> |Words(sentence)| > 8 && exists k :: 0 <= k < |Words(sentence)| && Important(Words(sentence)[k], alpha)
    ensures FillBlankFor(sentence, language, difficulty, alpha, rand, clock).Some? ==>
      && Blanked(FillBlankFor(sentence, language, difficulty, alpha, rand, clock).value, sentence, alpha)
      && FillBlankFor(sentence, language, difficulty, alpha, rand, clock).value.instruction == FillInstruction(language)
      && FillBlankFor(sentence, language, difficulty, alpha, rand, clock).value.difficulty == difficulty
  {
    var words := Words(sentence);
    var important := ImportantWords(words, alpha);
    if important != [] {
      assert important[0] in words;
    }
  }

  /** Python's `str.isalpha` is false for '_', so no blanked answer is left in the exercise text. */
  lemma BlankHidesAnswer(e: Exercise, sentence: string, alpha: char -> bool)
    requires Blanked(e, sentence, alpha) && !alpha('_')
    ensures !Contains(e.exerciseText, e.answer)
  {
    forall c | c in Blank ensures c !in e.answer {
      assert c == '_';
    }
    ReplaceRemovesAll(sentence, e.answer, Blank);
  }

  /** One turn of the loop as a function of the sentence and the tick. */
  function FillBlankStep(language: string, difficulty: string, alpha: char -> bool, rand: QuizGen.Draws): (step: (string, nat) -> Option<Exercise>)
    ensures forall s, c :: step(s, c) == FillBlankFor(s, language, difficulty, alpha, rand, c)
  {
    (s: string, c: nat) => FillBlankFor(s, language, difficulty, alpha, rand, c)
  }

  /** The loop from sentence `i` on, the exercises so far being `acc`; each exercise takes one draw. */
  function FillBlankRun(ss: seq<string>, i: nat, step: (string, nat) -> Option<Exercise>, clock: nat, acc: seq<Exercise>): seq<Exercise>
    decreases |ss| - i
  {
    if i >= |ss| then acc
    else
      match step(ss[i], clock)
      case None => FillBlankRun(ss, i + 1, step, clock, acc)
      case Some(e) => FillBlankRun(ss, i + 1, step, clock + 1, acc + [e])
  }

  /** `_generate_fill_blank_exercises`: the loop over `sentences[:3]`, drawing from tick `clock`. */
  function FillBlanks(sentences: seq<string>, language: string, difficulty: string, alpha: char -> bool,
                      rand: QuizGen.Draws, clock: nat): seq<Exercise>
  {
    FillBlankRun(Take(sentences, 3), 0, FillBlankStep(language, difficulty, alpha, rand), clock, [])
  }

  /**
   * The run keeps what it had and adds at most one exercise per remaining
   * sentence; when every exercise a step makes is `good` for its
   * sentence, each added one is good for one of the remaining sentences.
   */
  lemma {:induction false} FillBlankRunSpec(ss: seq<string>, i: nat, step: (string, nat) -> Option<Exercise>, clock: nat,
                                            acc: seq<Exercise>, good: (Exercise, string) -> bool)
    requires forall s, c :: step(s, c).Some? ==> good(step(s, c).value, s)
    ensures |acc| <= |FillBlankRun(ss, i, step, clock, acc)| <= |acc| + Max(0, |ss| - i)
    ensures FillBlankRun(ss, i, step, clock, acc)[..|acc|] == acc
    ensures forall k :: |acc| <= k < |FillBlankRun(ss, i, step, clock, acc)| ==>
      exists j :: i <= j < |ss| && good(FillBlankRun(ss, i, step, clock, acc)[k], ss[j])
    decreases |ss| - i
  {
    if i < |ss| {
      var o := step(ss[i], clock);
      if o.Some? {
        var acc' := acc + [o.value];
        FillBlankRunSpec(ss, i + 1, step, clock + 1, acc', good);
        var r := FillBlankRun(ss, i + 1, step, clock + 1, acc');
        assert r[..|acc|] == r[..|acc'|][..|acc|];
        assert r[|acc|] == r[..|acc'|][|acc|];
        assert good(r[|acc|], ss[i]);
      } else {
        FillBlankRunSpec(ss, i + 1, step, clock, acc, good);
      }
    }
  }

  /** What the whole loop promises of each exercise. */
  predicate BlankedBy(e: Exercise, sentence: string, alpha: char -> bool, language: string, difficulty: string) {
    Blanked(e, sentence, alpha) && e.instruction == FillInstruction(language) && e.difficulty == difficulty
  }

  function BlankedTest(alpha: char -> bool, language: string, difficulty: string): (good: (Exercise, string) -> bool)
    ensures forall e, s :: good(e, s) == BlankedBy(e, s, alpha, language, difficulty)
  {
    (e: Exercise, s: string) => BlankedBy(e, s, alpha, language, difficulty)
  }

  /**
   * At most three fill-in-the-blank exercises, each blanking an important
   * word of one of the first three sentences, a sentence of more than
   * eight words.
   */
  lemma FillBlanksSpec(sentences: seq<string>, language: string, difficulty: string, alpha: char -> bool,
                       rand: QuizGen.Draws, clock: nat)
    ensures |FillBlanks(sentences, language, difficulty, alpha, rand, clock)| <= Min(3, |sentences|)
    ensures forall k :: 0 <= k < |FillBlanks(sentences, language, difficulty, alpha, rand, clock)| ==>
      exists j :: 0 <= j < Min(3, |sentences|) &&
        BlankedBy(FillBlanks(sentences, language, difficulty, alpha, rand, clock)[k], sentences[j], alpha, language, difficulty)
  {
    var step := FillBlankStep(language, difficulty, alpha, rand);
    var good := BlankedTest(alpha, language, difficulty);
    forall s, c | step(s, c).Some? ensures good(step(s, c).value, s) {
      FillBlankForSpec(s, language, difficulty, alpha, rand, c);
    }
    var ss := Take(sentences, 3);
    FillBlankRunSpec(ss, 0, step, clock, [], good);
    assert forall j :: 0 <= j < |ss| ==> ss[j] == sentences[j];
  }

  /**
   * The loop of `_generate_fill_blank_exercises` over the sentences `ss`,
   * for any turn `step`: a turn that makes an exercise appends it and
   * moves the clock on by its one draw.
   */
  method FillBlankLoop(ss: seq<string>, step: (string, nat) -> Option<Exercise>, clock: nat) returns (exercises: seq<Exercise>)
    ensures exercises == FillBlankRun(ss, 0, step, clock, [])
  {
    exercises := [];
    var c := clock;
    var i := 0;
    while i < |ss|
      invariant 0 <= i <= |ss|
      invariant FillBlankRun(ss, i, step, c, exercises) == FillBlankRun(ss, 0, step, clock, [])
    {
      var o := step(ss[i], c);
      if o.Some? {
        exercises := exercises + [o.value];
        c := c + 1;
      }
      i := i + 1;
    }
  }

  /** `_generate_fill_blank_exercises`. */
  method GenerateFillBlank(sentences: seq<string>, language: string, difficulty: string, alpha: char -> bool,
                           rand: QuizGen.Draws, clock: nat) returns (exercises: seq<Exercise>)
    ensures exercises == FillBlanks(sentences, language, difficulty, alpha, rand, clock)
  {
    exercises := FillBlankLoop(Take(sentences, 3), FillBlankStep(language, difficulty, alpha, rand), clock);
  }

  // ---------------------------------------------------------------------
  // True or false

  const StatementSi := "පහත ප්‍රකාශනය සත්‍ය ද අසත්‍ය ද?"
  const StatementTa := "பின்வரும் கூற்று உண்மையா பொய்யா?"
  const StatementEn := "Is the following statement true or false?"

  const TrueAnswer := "True"

  function StatementInstruction(language: string): string {
    if language == "si" then StatementSi else if language == "ta" then StatementTa else StatementEn
  }

  /** The true/false exercise for one sentence, always answered "True". */
  function Statement(language: string, difficulty: string): (f: string -> Exercise)
    ensures forall s :: f(s).TrueFalse? && f(s).answer == TrueAnswer && f(s).exerciseText == s
  {
    s => TrueFalse(StatementInstruction(language), s, TrueAnswer, difficulty)
  }

  /** `_generate_true_false_exercises`: one exercise per sentence of `sentences[3:6]`. */
  function TrueFalses(sentences: seq<string>, language: string, difficulty: string): seq<Exercise> {
    Each(Slice(sentences, 3, 6), Statement(language, difficulty))
  }

  /** The fourth to sixth sentences, as statements that are "True"; there are at most three. */
  lemma TrueFalsesSpec(sentences: seq<string>, language: string, difficulty: string)
    ensures |TrueFalses(sentences, language, difficulty)| == Max(0, Min(|sentences|, 6) - 3)
    ensures forall k :: 0 <= k < |TrueFalses(sentences, language, difficulty)| ==>
      && TrueFalses(sentences, language, difficulty)[k].TrueFalse?
      && TrueFalses(sentences, language, difficulty)[k].answer == TrueAnswer
      && TrueFalses(sentences, language, difficulty)[k].exerciseText == sentences[3 + k]
      && TrueFalses(sentences, language, difficulty)[k].instruction == StatementInstruction(language)
  {
  }

  /** `_generate_true_false_exercises`. */
  method GenerateTrueFalse(sentences: seq<string>, language: string, difficulty: string) returns (exercises: seq<Exercise>)
    ensures exercises == TrueFalses(sentences, language, difficulty)
  {
    var ss := Slice(sentences, 3, 6);
    var f := Statement(language, difficulty);
    exercises := [];
    var i := 0;
    while i < |ss|
      invariant 0 <= i <= |ss|
      invariant exercises == Each(ss[..i], f)
    {
      EachSnoc(ss, i, f);
      exercises := exercises + [TrueFalse(StatementInstruction(language), ss[i], TrueAnswer, difficulty)];
      i := i + 1;
    }
    assert ss[..i] == ss;
  }

  // ---------------------------------------------------------------------
  // Short answers

  const ExplainSi := Around("'", "' ගැන කෙටියෙන් පැහැදිලි කරන්න.")
  const ExplainTa := Around("'", "' பற்றி சுருக்கமாக விளக்கவும்.")
  const ExplainEn := Around("Briefly explain '", "'.")

  const AnswerInstruction := "Answer the following question:"

  function Explain(language: string): Template {
    if language == "si" then ExplainSi else if language == "ta" then ExplainTa else ExplainEn
  }

  /** `concept.lower() in s.lower()`. */
  predicate Mentions(s: string, concept: string) {
    Contains(Lower(s), Lower(concept))
  }

  function Mention(concept: string): (p: string -> bool)
    ensures forall s :: p(s) == Mentions(s, concept)
  {
    s => Mentions(s, concept)
  }

  /** The sentence at `j` is the first to mention `concept`. */
  predicate FirstMention(ss: seq<string>, j: int, concept: string) {
    0 <= j < |ss| && Mentions(ss[j], concept) && forall i :: 0 <= i < j ==> !Mentions(ss[i], concept)
  }

  /** `next((s for s in sentences if concept.lower() in s.lower()), sentences[0])`. */
  function AnswerFor(concept: string, ss: seq<string>): string
    requires ss != []
  {
    var k := FirstWhere(ss, Mention(concept));
    if k == -1 then ss[0] else ss[k]
  }

  /** The answer is the first sentence that mentions the concept, or the first sentence when none does. */
  lemma AnswerForSpec(concept: string, ss: seq<string>)
    requires ss != []
    ensures AnswerFor(concept, ss) in ss
    ensures (exists j :: 0 <= j < |ss| && Mentions(ss[j], concept)) ==>
      exists j :: FirstMention(ss, j, concept) && AnswerFor(concept, ss) == ss[j]
    ensures (forall j :: 0 <= j < |ss| ==> !Mentions(ss[j], concept)) ==> AnswerFor(concept, ss) == ss[0]
  {
    var k := FirstWhere(ss, Mention(concept));
    if k != -1 {
      assert FirstMention(ss, k, concept);
    }
  }

  /** The short-answer exercise for one concept. */
  function Explanation(ss: seq<string>, language: string, difficulty: string): string -> Exercise
    requires ss != []
  {
    c => ShortAnswer(AnswerInstruction, Fill(Explain(language), c), AnswerFor(c, ss), difficulty)
  }

  /**
   * `_generate_short_answer_exercises`: one exercise per concept of
   * `key_concepts[:2]`. The default `sentences[0]` is evaluated before the
   * search, so with no sentences every turn raises `IndexError`, which the
   * loop swallows.
   */
  function ShortAnswers(concepts: seq<string>, sentences: seq<string>, language: string, difficulty: string): seq<Exercise> {
    if sentences == [] then [] else Each(Take(concepts, 2), Explanation(sentences, language, difficulty))
  }

  /**
   * None without sentences; otherwise one per leading concept, at most
   * two, each asking about its concept and answered by the first sentence
   * that mentions it (the first sentence when none does).
   */
  lemma ShortAnswersSpec(concepts: seq<string>, sentences: seq<string>, language: string, difficulty: string)
    ensures |ShortAnswers(concepts, sentences, language, difficulty)| == if sentences == [] then 0 else Min(2, |concepts|)
    ensures forall k :: 0 <= k < |ShortAnswers(concepts, sentences, language, difficulty)| ==>
      && ShortAnswers(concepts, sentences, language, difficulty)[k].ShortAnswer?
      && ShortAnswers(concepts, sentences, language, difficulty)[k].exerciseText == Fill(Explain(language), concepts[k])
      && ShortAnswers(concepts, sentences, language, difficulty)[k].answer in sentences
      && ((exists j :: 0 <= j < |sentences| && Mentions(sentences[j], concepts[k])) ==>
            exists j :: FirstMention(sentences, j, concepts[k]) && ShortAnswers(concepts, sentences, language, difficulty)[k].answer == sentences[j])
  {
    var r := ShortAnswers(concepts, sentences, language, difficulty);
    forall k | 0 <= k < |r|
      ensures r[k].answer in sentences
      ensures (exists j :: 0 <= j < |sentences| && Mentions(sentences[j], concepts[k])) ==>
            exists j :: FirstMention(sentences, j, concepts[k]) && r[k].answer == sentences[j]
    {
      AnswerForSpec(concepts[k], sentences);
    }
  }

  /** `_generate_short_answer_exercises`. */
  method GenerateShortAnswer(concepts: seq<string>, sentences: seq<string>, language: string, difficulty: string)
    returns (exercises: seq<Exercise>)
    ensures exercises == ShortAnswers(concepts, sentences, language, difficulty)
  {
    var cs := Take(concepts, 2);
    exercises := [];
    var i := 0;
    while i < |cs|
      invariant 0 <= i <= |cs|
      invariant exercises == if sentences == [] then [] else Each(cs[..i], Explanation(sentences, language, difficulty))
    {
      if sentences != [] {
        EachSnoc(cs, i, Explanation(sentences, language, difficulty));
        var question := Fill(Explain(language), cs[i]);
        var answer := AnswerFor(cs[i], sentences);
        exercises := exercises + [ShortAnswer(AnswerInstruction, question, answer, difficulty)];
      }
      i := i + 1;
    }
    assert cs[..i] == cs;
  }

  // ---------------------------------------------------------------------
  // Matching

  const MatchSi := "පහත සංකල්ප සහ අර්ථ දැක්වීම් ගලපන්න:"
  const MatchTa := "பின்வரும் கருத்துகள் மற்றும் வரையறைகளை பொருத்தவும்:"
  const MatchEn := "Match the following concepts with their definitions:"

  const RelatedTo := "Related to "

  function MatchInstruction(language: string): string {
    if language == "si" then MatchSi else if language == "ta" then MatchTa else MatchEn
  }

  /** `d[:100] + "..." if len(d) > 100 else d`. */
  function Truncated(d: string): (r: string)
    ensures |r| <= 103
    ensures |d| <= 100 ==> r == d
    ensures |d| > 100 ==> |r| == 103 && r[..100] == d[..100]
  {
    if |d| > 100 then d[..100] + "..." else d
  }

  /** The definition of one concept: the first sentence that mentions it, or "Related to" the concept, truncated. */
  function DefinitionOf(concept: string, ss: seq<string>): (r: string)
    ensures |r| <= 103
  {
    var k := FirstWhere(ss, Mention(concept));
    Truncated(if k == -1 then RelatedTo + concept else ss[k])
  }

  /** The definition is the first mentioning sentence or the "Related to" text, truncated. */
  lemma DefinitionSpec(concept: string, ss: seq<string>)
    ensures || (exists j :: FirstMention(ss, j, concept) && DefinitionOf(concept, ss) == Truncated(ss[j]))
            || ((forall j :: 0 <= j < |ss| ==> !Mentions(ss[j], concept)) && DefinitionOf(concept, ss) == Truncated(RelatedTo + concept))
  {
    var k := FirstWhere(ss, Mention(concept));
    if k != -1 {
      assert FirstMention(ss, k, concept);
    }
  }

  function Definition(ss: seq<string>): (f: string -> string)
    ensures forall c :: f(c) == DefinitionOf(c, ss)
  {
    c => DefinitionOf(c, ss)
  }

  /** `dict(zip(keys, values))`: a later pair overwrites an earlier one with the same key. */
  function Zip(keys: seq<string>, values: seq<string>): (m: map<string, string>)
    requires |keys| == |values|
    ensures forall k :: k in m <==> k in keys
    ensures Distinct(keys) ==> forall i :: 0 <= i < |keys| ==> m[keys[i]] == values[i]
    decreases |keys|
  {
    if keys == [] then map[]
    else
      var n := |keys| - 1;
      var m := Zip(keys[..n], values[..n]);
      assert forall k :: k in keys <==> k in keys[..n] || k == keys[n];
      assert Distinct(keys) ==> Distinct(keys[..n]) && keys[n] !in keys[..n];
      m[keys[n] := values[n]]
  }

  /** `_generate_matching_exercise`: `None` with fewer than four concepts, else the first four matched to their definitions. */
  function MatchingFor(concepts: seq<string>, sentences: seq<string>, language: string, difficulty: string): Option<Exercise> {
    if |concepts| < 4 then None
    else
      var cs := concepts[..4];
      var ds := Each(cs, Definition(sentences));
      Some(Matching(MatchInstruction(language), cs, ds, Zip(cs, ds), difficulty))
  }

  /**
   * A matching exercise exists exactly when there are four concepts; it
   * pairs the first four with four definitions of at most 103 characters,
   * and for distinct concepts the answer maps each to its definition.
   */
  lemma MatchingSpec(concepts: seq<string>, sentences: seq<string>, language: string, difficulty: string)
    ensures MatchingFor(concepts, sentences, language, difficulty).Some? <==> |concepts| >= 4
    ensures MatchingFor(concepts, sentences, language, difficulty).Some? ==>
      var e := MatchingFor(concepts, sentences, language, difficulty).value;
      && e.Matching?
      && e.concepts == concepts[..4]
      && |e.definitions| == 4
      && (forall i :: 0 <= i < 4 ==> |e.definitions[i]| <= 103)
      && (forall i :: 0 <= i < 4 ==>
            (exists j :: FirstMention(sentences, j, concepts[i]) && e.definitions[i] == Truncated(sentences[j]))
            || ((forall j :: 0 <= j < |sentences| ==> !Mentions(sentences[j], concepts[i])) && e.definitions[i] == Truncated(RelatedTo + concepts[i])))
      && (forall c :: c in e.pairs <==> c in e.concepts)
      && (Distinct(e.concepts) ==> forall i :: 0 <= i < 4 ==> e.pairs[e.concepts[i]] == e.definitions[i])
  {
    if |concepts| >= 4 {
      var e := MatchingFor(concepts, sentences, language, difficulty).value;
      forall i | 0 <= i < 4
        ensures (exists j :: FirstMention(sentences, j, concepts[i]) && e.definitions[i] == Truncated(sentences[j]))
            || ((forall j :: 0 <= j < |sentences| ==> !Mentions(sentences[j], concepts[i])) && e.definitions[i] == Truncated(RelatedTo + concepts[i]))
      {
        DefinitionSpec(concepts[i], sentences);
      }
    }
  }

  /** `_generate_matching_exercise`. */
  method GenerateMatching(concepts: seq<string>, sentences: seq<string>, language: string, difficulty: string)
    returns (r: Option<Exercise>)
    ensures r == MatchingFor(concepts, sentences, language, difficulty)
  {
    if |concepts| < 4 {
      return None;
    }
    var cs := concepts[..4];
    var definitions := [];
    var i := 0;
    while i < |cs|
      invariant 0 <= i <= |cs|
      invariant definitions == Each(cs[..i], Definition(sentences))
    {
      EachSnoc(cs, i, Definition(sentences));
      var k := FirstWhere(sentences, Mention(cs[i]));
      var definition := if k == -1 then RelatedTo + cs[i] else sentences[k];
      definitions := definitions + [Truncated(definition)];
      i := i + 1;
    }
    assert cs[..i] == cs;
    r := Some(Matching(MatchInstruction(language), cs, definitions, Zip(cs, definitions), difficulty));
  }

  // ---------------------------------------------------------------------
  // The whole generator

  /** `[x]` for `Some(x)` and `[]` for `None` (the `if matching_exercise:` append). */
  function Listed(o: Option<Exercise>): seq<Exercise>
  {
    match o
    case None => []
    case Some(e) => [e]
  }

  /** `extract_key_concepts(text)`: the ten most frequent capitalised phrases. */
  function TextConcepts(capitalised: seq<string>): seq<string> {
    KeyConcepts(capitalised, -1, 10)
  }

  /** The four helpers' lists for the sentences and key concepts, one after another. */
  function ExercisesOf(sentences: seq<string>, concepts: seq<string>, language: string, difficulty: string,
                       alpha: char -> bool, rand: QuizGen.Draws): seq<Exercise>
  {
    FillBlanks(sentences, language, difficulty, alpha, rand, 0) + TrueFalses(sentences, language, difficulty)
      + ShortAnswers(concepts, sentences, language, difficulty) + Listed(MatchingFor(concepts, sentences, language, difficulty))
  }

  /**
   * `generate_exercises`: nothing for a stripped text under 50
   * characters; otherwise the fill-in-the-blank, true/false, short-answer
   * and matching exercises of its sentences (stripped '.'-pieces longer
   * than 20 characters), in that order.
   */
  function Exercises(text: string, language: string, difficulty: string, capitalised: seq<string>,
                     alpha: char -> bool, rand: QuizGen.Draws): seq<Exercise>
  {
    var t := Strip(text);
    if |t| < 50 then [] else ExercisesOf(Sentences(t, 20), TextConcepts(capitalised), language, difficulty, alpha, rand)
  }

  /** Each kind's promise, as the whole generator keeps it. */
  predicate GoodExercise(e: Exercise, sentences: seq<string>, alpha: char -> bool) {
    && (e.FillBlank? ==> exists j :: 0 <= j < Min(3, |sentences|) && Blanked(e, sentences[j], alpha))
    && (e.TrueFalse? ==> e.answer == TrueAnswer && e.exerciseText in sentences)
    && (e.ShortAnswer? ==> e.answer in sentences)
    && (e.Matching? ==>
          && |e.concepts| == 4 && |e.definitions| == 4
          && (forall i :: 0 <= i < 4 ==> |e.definitions[i]| <= 103)
          && forall i :: 0 <= i < 4 ==> e.concepts[i] in e.pairs && e.pairs[e.concepts[i]] == e.definitions[i])
  }

  predicate AllGood(r: seq<Exercise>, sentences: seq<string>, alpha: char -> bool) {
    forall k :: 0 <= k < |r| ==> GoodExercise(r[k], sentences, alpha)
  }

  lemma AllGoodConcat(a: seq<Exercise>, b: seq<Exercise>, sentences: seq<string>, alpha: char -> bool)
    requires AllGood(a, sentences, alpha) && AllGood(b, sentences, alpha)
    ensures AllGood(a + b, sentences, alpha)
  {
    forall k | 0 <= k < |a + b| ensures GoodExercise((a + b)[k], sentences, alpha) {
      if k >= |a| { assert (a + b)[k] == b[k - |a|]; }
    }
  }

  lemma FillBlanksGood(sentences: seq<string>, language: string, difficulty: string, alpha: char -> bool, rand: QuizGen.Draws)
    ensures |FillBlanks(sentences, language, difficulty, alpha, rand, 0)| <= 3
    ensures AllGood(FillBlanks(sentences, language, difficulty, alpha, rand, 0), sentences, alpha)
  {
    FillBlanksSpec(sentences, language, difficulty, alpha, rand, 0);
  }

  lemma TrueFalsesGood(sentences: seq<string>, language: string, difficulty: string, alpha: char -> bool)
    ensures |TrueFalses(sentences, language, difficulty)| <= 3
    ensures AllGood(TrueFalses(sentences, language, difficulty), sentences, alpha)
  {
    TrueFalsesSpec(sentences, language, difficulty);
  }

  lemma ShortAnswersGood(concepts: seq<string>, sentences: seq<string>, language: string, difficulty: string, alpha: char -> bool)
    ensures |ShortAnswers(concepts, sentences, language, difficulty)| <= 2
    ensures AllGood(ShortAnswers(concepts, sentences, language, difficulty), sentences, alpha)
  {
    ShortAnswersSpec(concepts, sentences, language, difficulty);
  }

  lemma MatchingGood(concepts: seq<string>, sentences: seq<string>, language: string, difficulty: string, alpha: char -> bool)
    requires Distinct(concepts)
    ensures AllGood(Listed(MatchingFor(concepts, sentences, language, difficulty)), sentences, alpha)
  {
    MatchingSpec(concepts, sentences, language, difficulty);
    if |concepts| >= 4 {
      assert Distinct(concepts[..4]);
    }
  }

  /** For distinct concepts: at most 3 + 3 + 2 + 1 = 9 exercises, each keeping its kind's promise. */
  lemma ExercisesOfSpec(sentences: seq<string>, concepts: seq<string>, language: string, difficulty: string,
                        alpha: char -> bool, rand: QuizGen.Draws)
    requires Distinct(concepts)
    ensures |ExercisesOf(sentences, concepts, language, difficulty, alpha, rand)| <= 9
    ensures AllGood(ExercisesOf(sentences, concepts, language, difficulty, alpha, rand), sentences, alpha)
  {
    var a := FillBlanks(sentences, language, difficulty, alpha, rand, 0);
    var b := TrueFalses(sentences, language, difficulty);
    var c := ShortAnswers(concepts, sentences, language, difficulty);
    var d := Listed(MatchingFor(concepts, sentences, language, difficulty));
    FillBlanksGood(sentences, language, difficulty, alpha, rand);
    TrueFalsesGood(sentences, language, difficulty, alpha);
    ShortAnswersGood(concepts, sentences, language, difficulty, alpha);
    MatchingGood(concepts, sentences, language, difficulty, alpha);
    AllGoodConcat(a, b, sentences, alpha);
    AllGoodConcat(a + b, c, sentences, alpha);
    AllGoodConcat(a + b + c, d, sentences, alpha);
  }

  /**
   * The generator's promises: nothing for a short text; at most 9
   * exercises; every true/false answer is "True"; every blank hides an
   * important word of one of the first three sentences; every short
   * answer is a sentence; the matching exercise pairs four concepts with
   * four definitions of at most 103 characters.
   */
  lemma ExercisesSpec(text: string, language: string, difficulty: string, capitalised: seq<string>,
                      alpha: char -> bool, rand: QuizGen.Draws)
    ensures |Strip(text)| < 50 ==> Exercises(text, language, difficulty, capitalised, alpha, rand) == []
    ensures |Exercises(text, language, difficulty, capitalised, alpha, rand)| <= 9
    ensures AllGood(Exercises(text, language, difficulty, capitalised, alpha, rand), Sentences(Strip(text), 20), alpha)
  {
    if |Strip(text)| >= 50 {
      KeyConceptsDistinct(capitalised, -1, 10);
      ExercisesOfSpec(Sentences(Strip(text), 20), TextConcepts(capitalised), language, difficulty, alpha, rand);
    }
  }

  /** The four helpers of `generate_exercises`, extended one after another. */
  method GenerateFromSentences(sentences: seq<string>, concepts: seq<string>, language: string, difficulty: string,
                               alpha: char -> bool, rand: QuizGen.Draws) returns (exercises: seq<Exercise>)
    ensures exercises == ExercisesOf(sentences, concepts, language, difficulty, alpha, rand)
  {
    exercises := [];
    var fill := GenerateFillBlank(sentences, language, difficulty, alpha, rand, 0);
    exercises := exercises + fill;
    assert exercises == FillBlanks(sentences, language, difficulty, alpha, rand, 0);
    var statements := GenerateTrueFalse(sentences, language, difficulty);
    exercises := exercises + statements;
    assert exercises == FillBlanks(sentences, language, difficulty, alpha, rand, 0) + TrueFalses(sentences, language, difficulty);
    var answers := GenerateShortAnswer(concepts, sentences, language, difficulty);
    exercises := exercises + answers;
    assert exercises == FillBlanks(sentences, language, difficulty, alpha, rand, 0) + TrueFalses(sentences, language, difficulty)
      + ShortAnswers(concepts, sentences, language, difficulty);
    var matching := GenerateMatching(concepts, sentences, language, difficulty);
    if matching.Some? {
      exercises := exercises + [matching.value];
    }
  }

  /** `generate_exercises`. */
  method GenerateExercises(text: string, language: string, difficulty: string, capitalised: seq<string>,
                           alpha: char -> bool, rand: QuizGen.Draws) returns (exercises: seq<Exercise>)
    ensures exercises == Exercises(text, language, difficulty, capitalised, alpha, rand)
  {
    var t := Strip(text);
    if |t| < 50 {
      return [];
    }
    var sentences := Sentences(t, 20);
    var keyConcepts := ExtractKeyConcepts(capitalised, -1, 10);
    exercises := GenerateFromSentences(sentences, keyConcepts, language, difficulty, alpha, rand);
  }
}
