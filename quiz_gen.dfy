/**
 * The sentence-based quiz generator (app/generators/quiz_generator.py):
 * one multiple-choice quiz per long sentence among the first six, with
 * the sentence as the answer and three distractors, the options shuffled.
 *
 * `random.shuffle` is Python's Fisher-Yates shuffle; the numbers it draws
 * are an input (`rand`, the number drawn at each point of a clock), so
 * every run of the source is one choice of `rand`, and each shuffle is a
 * permutation whatever `rand` is. The model call's text is never used by
 * the source; only whether it raised matters, and the indices whose call
 * raised are an input (`failed`).
 */
module QuizGen {
  import opened Text

  // ---------------------------------------------------------------------
  // `random.shuffle`

  /** The random source: the number drawn at each tick of a clock. */
  type Draws = nat -> nat

  /** `s[i], s[j] = s[j], s[i]`. */
  function Swap<T>(s: seq<T>, i: nat, j: nat): (r: seq<T>)
    requires i < |s| && j < |s|
    ensures |r| == |s|
  {
    s[i := s[j]][j := s[i]]
  }

  /** The last `n - 1` steps of Fisher-Yates: position `n - 1` swaps with a drawn position below `n`, and so on down to 1. */
  function FisherYates<T>(s: seq<T>, n: nat, rand: Draws, clock: nat): (r: seq<T>)
    requires n <= |s|
    ensures |r| == |s|
    decreases n
  {
    if n <= 1 then s else FisherYates(Swap(s, n - 1, rand(clock) % n), n - 1, rand, clock + 1)
  }

  lemma SwapPermutes<T>(s: seq<T>, i: nat, j: nat)
    requires i < |s| && j < |s|
    ensures multiset(Swap(s, i, j)) == multiset(s)
  {
  }

  /** Every step of the shuffle is a swap, so the whole is a permutation. */
  lemma {:induction false} FisherYatesPermutes<T>(s: seq<T>, n: nat, rand: Draws, clock: nat)
    requires n <= |s|
    ensures multiset(FisherYates(s, n, rand, clock)) == multiset(s)
    decreases n
  {
    if n > 1 {
      SwapPermutes(s, n - 1, rand(clock) % n);
      FisherYatesPermutes(Swap(s, n - 1, rand(clock) % n), n - 1, rand, clock + 1);
    }
  }

  /** `random.shuffle(s)`, drawing from tick `clock` on: a permutation of `s`. */
  function Shuffle<T>(s: seq<T>, rand: Draws, clock: nat): (r: seq<T>)
    ensures |r| == |s| && multiset(r) == multiset(s)
  {
    FisherYatesPermutes(s, |s|, rand, clock);
    FisherYates(s, |s|, rand, clock)
  }

  /** Ticks a shuffle of `n` items uses. */
  function Used(n: nat): nat { if n <= 1 then 0 else n - 1 }

  /** Shuffling a single item leaves it alone. */
  lemma ShuffleOne<T>(x: T, rand: Draws, clock: nat)
    ensures Shuffle([x], rand, clock) == [x]
  {
  }

  // ---------------------------------------------------------------------
  // `_generate_distractors`

  /** `len(s.split())`. */
  function WordCount(s: string): nat { |Words(s)| }

  /** `[s for j, s in enumerate(sentences) if j != correct_index and len(s.split()) > 5]`. */
  function Others(sentences: seq<string>, correctIndex: int): (r: seq<string>)
    ensures |r| <= |sentences|
    decreases |sentences|
  {
    if sentences == [] then []
    else
      var j := |sentences| - 1;
      Others(sentences[..j], correctIndex) + (if j != correctIndex && WordCount(sentences[j]) > 5 then [sentences[j]] else [])
  }

  /** `x` is a sentence at an index other than `correctIndex` with more than five words. */
  predicate OtherSentence(sentences: seq<string>, correctIndex: int, x: string) {
    exists j :: 0 <= j < |sentences| && j != correctIndex && sentences[j] == x && WordCount(x) > 5
  }

  /** Every candidate distractor is another long-enough sentence, and every such sentence is a candidate. */
  lemma {:induction false} OthersSpec(sentences: seq<string>, correctIndex: int)
    ensures forall k :: 0 <= k < |Others(sentences, correctIndex)| ==> OtherSentence(sentences, correctIndex, Others(sentences, correctIndex)[k])
    ensures forall j :: 0 <= j < |sentences| && j != correctIndex && WordCount(sentences[j]) > 5 ==>
              sentences[j] in Others(sentences, correctIndex)
    decreases |sentences|
  {
    if sentences != [] {
      var j := |sentences| - 1;
      var init := sentences[..j];
      OthersSpec(init, correctIndex);
      var p := Others(init, correctIndex);
      var r := Others(sentences, correctIndex);
      OthersComplete(sentences, correctIndex);
      forall k | 0 <= k < |r| ensures OtherSentence(sentences, correctIndex, r[k]) {
        if k < |p| {
          assert r[k] == p[k];
          var j' :| 0 <= j' < |init| && j' != correctIndex && init[j'] == p[k] && WordCount(p[k]) > 5;
          assert sentences[j'] == init[j'];
        } else {
          assert r[k] == sentences[j];
        }
      }
    }
  }

  /** Every sentence at another index with more than five words is a candidate distractor. */
  lemma {:induction false} OthersComplete(sentences: seq<string>, correctIndex: int)
    ensures forall j :: 0 <= j < |sentences| && j != correctIndex && WordCount(sentences[j]) > 5 ==>
              sentences[j] in Others(sentences, correctIndex)
    decreases |sentences|
  {
    if sentences != [] {
      var last := |sentences| - 1;
      var init := sentences[..last];
      OthersComplete(init, correctIndex);
      var p := Others(init, correctIndex);
      var tail := if last != correctIndex && WordCount(sentences[last]) > 5 then [sentences[last]] else [];
      var r := Others(sentences, correctIndex);
      assert r == p + tail;
      forall j | 0 <= j < |sentences| && j != correctIndex && WordCount(sentences[j]) > 5 ensures sentences[j] in r {
        if j < last {
          assert sentences[j] == init[j];
          assert init[j] in p;
        } else {
          assert sentences[j] in tail;
        }
      }
    }
  }

  const FillerSi := "වෙනත් සාධාරණ තොරතුර "
  const FillerTa := "பிற பொதுவான தகவல் "
  const FillerEn := "Other general information "

  /** The numbered filler distractor, `len(distractors) + 1` being 1 to 3. */
  function Placeholder(language: string, n: nat): (r: string)
    requires 1 <= n <= 9
  {
    var digit := [('0' as int + n) as char];
    if language == "si" then FillerSi + digit
    else if language == "ta" then FillerTa + digit
    else FillerEn + digit
  }

  /** The `while len(distractors) < 3` padding. */
  function Padded(d: seq<string>, language: string): (r: seq<string>)
    requires |d| <= 3
    ensures |r| == 3 && r[..|d|] == d
    ensures forall k :: |d| <= k < 3 ==> r[k] == Placeholder(language, k + 1)
    decreases 3 - |d|
  {
    if |d| == 3 then d
    else
      var r := Padded(d + [Placeholder(language, |d| + 1)], language);
      assert r[..|d|] == r[..|d| + 1][..|d|];
      r
  }

  /** `_generate_distractors`, drawing from tick `clock`. */
  function Distractors(sentences: seq<string>, correctIndex: int, language: string, rand: Draws, clock: nat): seq<string> {
    Padded(Take(Shuffle(Others(sentences, correctIndex), rand, clock), 3), language)
  }

  /** The clock after the shuffle of the other sentences. */
  function AfterDistractors(sentences: seq<string>, correctIndex: int, clock: nat): nat {
    clock + Used(|Others(sentences, correctIndex)|)
  }

  /** The first `n` items of a list are some of its items. */
  lemma TakeSome<T>(s: seq<T>, n: nat)
    ensures multiset(Take(s, n)) <= multiset(s)
  {
    var m := |Take(s, n)|;
    assert s == Take(s, n) + s[m..];
  }

  /** The distractors are the first three shuffled candidates, then fillers. */
  lemma DistractorsLayout(sentences: seq<string>, correctIndex: int, language: string, rand: Draws, clock: nat)
    ensures var r := Distractors(sentences, correctIndex, language, rand, clock);
            var d := Take(Shuffle(Others(sentences, correctIndex), rand, clock), 3);
            && |r| == 3 && |d| == Min(3, |Others(sentences, correctIndex)|) && r[..|d|] == d
            && (forall k :: |d| <= k < 3 ==> r[k] == Placeholder(language, k + 1))
  {
  }

  /**
   * Exactly three distractors: first up to three different candidates
   * (distinct positions of the candidate list, each another sentence with
   * more than five words), then numbered fillers.
   */
  lemma DistractorsSpec(sentences: seq<string>, correctIndex: int, language: string, rand: Draws, clock: nat)
    ensures var r := Distractors(sentences, correctIndex, language, rand, clock);
            var m := Min(3, |Others(sentences, correctIndex)|);
            && |r| == 3
            && multiset(r[..m]) <= multiset(Others(sentences, correctIndex))
            && (forall k :: 0 <= k < m ==> OtherSentence(sentences, correctIndex, r[k]))
            && (forall k :: m <= k < 3 ==> r[k] == Placeholder(language, k + 1))
  {
    var others := Others(sentences, correctIndex);
    var sh := Shuffle(others, rand, clock);
    var d := Take(sh, 3);
    var r := Distractors(sentences, correctIndex, language, rand, clock);
    DistractorsLayout(sentences, correctIndex, language, rand, clock);
    TakeSome(sh, 3);
    OthersSpec(sentences, correctIndex);
    forall k | 0 <= k < |d| ensures OtherSentence(sentences, correctIndex, r[k]) {
      assert r[k] == d[k];
      assert d[k] in multiset(others);
      var j :| 0 <= j < |others| && others[j] == d[k];
    }
  }

  lemma OthersStep(sentences: seq<string>, correctIndex: int, j: nat)
    requires j < |sentences|
    ensures Others(sentences[..j + 1], correctIndex) ==
            Others(sentences[..j], correctIndex) + (if j != correctIndex && WordCount(sentences[j]) > 5 then [sentences[j]] else [])
  {
    assert sentences[..j + 1][..j] == sentences[..j];
  }

  /** `_generate_distractors`; also returns the clock after its shuffle. */
  method GenerateDistractors(sentences: seq<string>, correctIndex: int, language: string, rand: Draws, clock: nat)
    returns (distractors: seq<string>, clock': nat)
    ensures distractors == Distractors(sentences, correctIndex, language, rand, clock)
    ensures clock' == AfterDistractors(sentences, correctIndex, clock)
  {
    var otherSentences: seq<string> := [];
    var j := 0;
    while j < |sentences|
      invariant 0 <= j <= |sentences|
      invariant otherSentences == Others(sentences[..j], correctIndex)
    {
      OthersStep(sentences, correctIndex, j);
      if j != correctIndex && WordCount(sentences[j]) > 5 {
        otherSentences := otherSentences + [sentences[j]];
      }
      j := j + 1;
    }
    assert sentences[..j] == sentences;
    var shuffled := Shuffle(otherSentences, rand, clock);
    clock' := clock + Used(|otherSentences|);
    distractors := Take(shuffled, 3);
    ghost var d := distractors;
    while |distractors| < 3
      invariant |d| <= |distractors| <= 3
      invariant Padded(d, language) == Padded(distractors, language)
      decreases 3 - |distractors|
    {
      distractors := distractors + [Placeholder(language, |distractors| + 1)];
    }
  }

  // ---------------------------------------------------------------------
  // `_generate_question_text`

  const AskSi := "පහත සඳහන් කුමන කාරණය සත්‍ය ද? "
  const AboutSi := "... ගැන"
  const AskTa := "பின்வருவனவற்றில் எது உண்மை? "
  const AboutTa := "... பற்றி"
  const AskEn := "Which of the following is true about: "
  const AboutEn := "...?"

  /** The question for a sentence: a fixed phrase around the sentence's first eight words joined by spaces. */
  function QuestionText(sentence: string, language: string): (r: string) {
    var head := Join(" ", Take(Words(sentence), 8));
    if language == "si" then AskSi + head + AboutSi
    else if language == "ta" then AskTa + head + AboutTa
    else AskEn + head + AboutEn
  }

  /** Only the first eight words count: sentences agreeing on them get the same question. */
  lemma QuestionTextFirstEight(s: string, t: string, language: string)
    requires Take(Words(s), 8) == Take(Words(t), 8)
    ensures QuestionText(s, language) == QuestionText(t, language)
  {
  }

  /** The English question embeds exactly the first eight words: splitting its middle gives them back. */
  lemma QuestionTextEmbeds(sentence: string)
    ensures var ws := Take(Words(sentence), 8);
            var r := QuestionText(sentence, "en");
            |ws| <= 8 && |r| >= |AskEn| + |AboutEn| && Words(r[|AskEn|..|r| - |AboutEn|]) == ws
  {
    var ws := Take(Words(sentence), 8);
    QuestionTextEn(sentence);
    MiddleOf(AskEn, Join(" ", ws), AboutEn);
    TakeWordsAreWords(sentence, 8);
    WordsOfJoin(ws);
  }

  lemma QuestionTextEn(sentence: string)
    ensures QuestionText(sentence, "en") == AskEn + Join(" ", Take(Words(sentence), 8)) + AboutEn
  {
    assert "en" != "si" && "en" != "ta";
  }

  lemma TakeWordsAreWords(sentence: string, n: nat)
    ensures forall i :: 0 <= i < |Take(Words(sentence), n)| ==> IsWord(Take(Words(sentence), n)[i])
  {
    var ws := Take(Words(sentence), n);
    forall i | 0 <= i < |ws| ensures IsWord(ws[i]) {
      assert ws[i] == Words(sentence)[i];
    }
  }

  /** The middle of `a + m + b`, between the lengths of `a` and `b`, is `m`. */
  lemma MiddleOf(a: string, m: string, b: string)
    ensures var r := a + m + b; |r| >= |a| + |b| && r[|a|..|r| - |b|] == m
  {
  }

  // ---------------------------------------------------------------------
  // `generate_quizzes`

  /** A quiz dict: `answer` and `correct_answer_option` are both the answer; `type` is "quiz". */
  datatype Quiz = Quiz(question: string, options: seq<string>, answer: string, difficulty: string)

  /** At most this many quizzes are returned (`GENERATION_LIMITS["quizzes"]` in app/config.py). */
  const QuizLimit := 8

  /** The quiz of a sentence, given its distractors and the clock of the options shuffle. */
  function QuizOf(sentence: string, distractors: seq<string>, language: string, difficulty: string, rand: Draws, clock: nat): Quiz {
    Quiz(QuestionText(sentence, language), Shuffle(distractors + [sentence], rand, clock), sentence, difficulty)
  }

  /** The quiz of sentence `i`, when its distractors are drawn at `clock`. */
  function MakeQuiz(sentences: seq<string>, i: nat, language: string, difficulty: string, rand: Draws, clock: nat): Quiz
    requires i < |sentences|
  {
    QuizOf(sentences[i], Distractors(sentences, i, language, rand, clock), language, difficulty, rand, AfterDistractors(sentences, i, clock))
  }

  /**
   * The quiz of sentence `i` has four options that are a permutation of
   * the three distractors and the sentence, and the sentence is its
   * answer.
   */
  lemma MakeQuizSpec(sentences: seq<string>, i: nat, language: string, difficulty: string, rand: Draws, clock: nat)
    requires i < |sentences|
    ensures var q := MakeQuiz(sentences, i, language, difficulty, rand, clock);
            var d := Distractors(sentences, i, language, rand, clock);
            && |q.options| == 4 && multiset(q.options) == multiset(d + [sentences[i]])
            && q.answer == sentences[i] && q.answer in q.options
            && q.question == QuestionText(sentences[i], language) && q.difficulty == difficulty
  {
    var q := MakeQuiz(sentences, i, language, difficulty, rand, clock);
    var d := Distractors(sentences, i, language, rand, clock);
    DistractorsSpec(sentences, i, language, rand, clock);
    assert sentences[i] in multiset(d + [sentences[i]]);
    assert sentences[i] in multiset(q.options);
  }

  /** A sentence is skipped when it has fewer than eight words or its model call raised. */
  predicate Skipped(sentences: seq<string>, i: nat, failed: set<nat>)
    requires i < |sentences|
  {
    WordCount(sentences[i]) < 8 || i in failed
  }

  /** A quiz the loop builds: the index of its sentence and the clock when its distractors are drawn. */
  datatype Pick = Pick(index: nat, clock: nat)

  /** A pick among `n` sentences: one of the first six, not skipped. */
  predicate PickOk(n: nat, skip: nat -> bool, p: Pick) {
    p.index < Min(n, 6) && !skip(p.index)
  }

  /**
   * Which of `n` sentences the loop over `enumerate(sentences[:6])` builds a
   * quiz from, from index `i` on, and at which clock: `skip` says which
   * sentences it passes over and `cost` how many draws the quiz of each
   * takes.
   */
  function Picks(n: nat, i: nat, skip: nat -> bool, cost: nat -> nat, clock: nat, acc: seq<Pick>): seq<Pick>
    decreases n - i
  {
    if i >= n || i >= 6 then acc
    else if skip(i) then Picks(n, i + 1, skip, cost, clock, acc)
    else Picks(n, i + 1, skip, cost, NextClock(clock, cost, i), acc + [Pick(i, clock)])
  }

  /** The clock after the quiz of sentence `i`. */
  function NextClock(clock: nat, cost: nat -> nat, i: nat): nat { clock + cost(i) }

  /** The sentences the loop passes over. */
  function SkipOf(sentences: seq<string>, failed: set<nat>): nat -> bool {
    (i: nat) => i >= |sentences| || Skipped(sentences, i, failed)
  }

  /** The draws of one quiz: the distractor shuffle, then the shuffle of the four options. */
  function CostOf(sentences: seq<string>): nat -> nat {
    (i: nat) => QuizCost(sentences, i)
  }

  /** The draws the quiz of sentence `i` takes. */
  function QuizCost(sentences: seq<string>, i: nat): nat {
    Used(|Others(sentences, i)|) + Used(4)
  }

  /** The loop's picks over `sentences`. */
  function LoopPicks(sentences: seq<string>, failed: set<nat>): seq<Pick> {
    Picks(|sentences|, 0, SkipOf(sentences, failed), CostOf(sentences), 0, [])
  }

  /** The quizzes of the picks, in order. */
  function Build(sentences: seq<string>, picks: seq<Pick>, language: string, difficulty: string, rand: Draws): (r: seq<Quiz>)
    requires forall k :: 0 <= k < |picks| ==> picks[k].index < |sentences|
    ensures |r| == |picks|
  {
    if picks == [] then []
    else
      var p := picks[|picks| - 1];
      Build(sentences, picks[..|picks| - 1], language, difficulty, rand) + [MakeQuiz(sentences, p.index, language, difficulty, rand, p.clock)]
  }

  /** `generate_quizzes`. */
  function Quizzes(text: string, language: string, difficulty: string, failed: set<nat>, rand: Draws): seq<Quiz> {
    var t := Strip(text);
    if |t| < 100 then []
    else
      var ss := Sentences(t, 30);
      PicksSpec(|ss|, 0, SkipOf(ss, failed), CostOf(ss), 0, []);
      Take(Build(ss, LoopPicks(ss, failed), language, difficulty, rand), QuizLimit)
  }

  /** A quiz of the loop: built from one of the first six sentences, with eight words or more, whose call did not raise. */
  predicate GoodQuiz(q: Quiz, sentences: seq<string>, failed: set<nat>, language: string, difficulty: string) {
    && |q.options| == 4 && q.answer in q.options
    && q.question == QuestionText(q.answer, language) && q.difficulty == difficulty
    && exists i :: 0 <= i < Min(|sentences|, 6) && sentences[i] == q.answer && WordCount(q.answer) >= 8 && i !in failed
  }

  lemma MakeQuizGood(sentences: seq<string>, i: nat, failed: set<nat>, language: string, difficulty: string, rand: Draws, clock: nat)
    requires i < Min(|sentences|, 6) && !Skipped(sentences, i, failed)
    ensures GoodQuiz(MakeQuiz(sentences, i, language, difficulty, rand, clock), sentences, failed, language, difficulty)
  {
    MakeQuizSpec(sentences, i, language, difficulty, rand, clock);
  }

  /**
   * The loop picks each sentence at most once, in increasing order, and
   * only the first six that are not skipped.
   */
  lemma {:induction false} PicksSpec(n: nat, i: nat, skip: nat -> bool, cost: nat -> nat, clock: nat, acc: seq<Pick>)
    requires i <= Min(n, 6)
    requires forall k :: 0 <= k < |acc| ==> PickOk(n, skip, acc[k]) && acc[k].index < i
    requires forall k, l :: 0 <= k < l < |acc| ==> acc[k].index < acc[l].index
    ensures var r := Picks(n, i, skip, cost, clock, acc);
            && |acc| <= |r| <= |acc| + Min(n, 6) - i
            && (forall k :: 0 <= k < |r| ==> PickOk(n, skip, r[k]))
            && (forall k, l :: 0 <= k < l < |r| ==> r[k].index < r[l].index)
    decreases Min(n, 6) - i
  {
    if i < Min(n, 6) {
      if skip(i) {
        PicksSpec(n, i + 1, skip, cost, clock, acc);
      } else {
        PicksSpec(n, i + 1, skip, cost, NextClock(clock, cost, i), acc + [Pick(i, clock)]);
      }
    }
  }

  /** The loop only appends to the picks it already has. */
  lemma {:induction false} PicksPrefix(n: nat, i: nat, skip: nat -> bool, cost: nat -> nat, clock: nat, acc: seq<Pick>)
    ensures var r := Picks(n, i, skip, cost, clock, acc); |acc| <= |r| && r[..|acc|] == acc
    decreases n - i
  {
    if i < n && i < 6 {
      if skip(i) {
        PicksPrefix(n, i + 1, skip, cost, clock, acc);
      } else {
        var acc' := acc + [Pick(i, clock)];
        PicksPrefix(n, i + 1, skip, cost, NextClock(clock, cost, i), acc');
        assert acc'[..|acc|] == acc;
      }
    }
  }

  /** Sentence `j` is one of the first six and the loop does not pass over it. */
  predicate Eligible(sentences: seq<string>, failed: set<nat>, j: nat) {
    j < Min(|sentences|, 6) && !Skipped(sentences, j, failed)
  }

  /** Some pick in `picks` is of sentence `j`. */
  predicate Picked(picks: seq<Pick>, j: nat) {
    exists k :: 0 <= k < |picks| && picks[k].index == j
  }

  /** Every sentence from `i` on among the first six that is not passed over is picked. */
  lemma {:induction false} PicksComplete(n: nat, i: nat, skip: nat -> bool, cost: nat -> nat, clock: nat, acc: seq<Pick>)
    ensures forall j: nat :: i <= j < Min(n, 6) && !skip(j) ==> Picked(Picks(n, i, skip, cost, clock, acc), j)
    decreases n - i
  {
    if i < n && i < 6 {
      var r := Picks(n, i, skip, cost, clock, acc);
      if skip(i) {
        PicksComplete(n, i + 1, skip, cost, clock, acc);
        assert r == Picks(n, i + 1, skip, cost, clock, acc);
        forall j: nat | i <= j < Min(n, 6) && !skip(j) ensures Picked(r, j) {
          assert j != i;
        }
      } else {
        var acc' := acc + [Pick(i, clock)];
        PicksComplete(n, i + 1, skip, cost, NextClock(clock, cost, i), acc');
        PicksPrefix(n, i + 1, skip, cost, NextClock(clock, cost, i), acc');
        assert r == Picks(n, i + 1, skip, cost, NextClock(clock, cost, i), acc');
        assert r[..|acc'|] == acc';
        assert r[|acc|] == acc'[|acc|];
        forall j: nat | i <= j < Min(n, 6) && !skip(j) ensures Picked(r, j) {
          if j == i {
            assert r[|acc|].index == j;
          }
        }
      }
    }
  }

  /** Every quiz built from good picks is a good one. */
  lemma {:induction false} BuildGood(sentences: seq<string>, picks: seq<Pick>, failed: set<nat>, language: string, difficulty: string, rand: Draws)
    requires forall k :: 0 <= k < |picks| ==> PickOk(|sentences|, SkipOf(sentences, failed), picks[k])
    ensures forall k :: 0 <= k < |picks| ==> picks[k].index < |sentences|
    ensures forall k :: 0 <= k < |picks| ==> GoodQuiz(Build(sentences, picks, language, difficulty, rand)[k], sentences, failed, language, difficulty)
    decreases |picks|
  {
    if picks != [] {
      var p := picks[|picks| - 1];
      var init := picks[..|picks| - 1];
      forall k | 0 <= k < |init| ensures PickOk(|sentences|, SkipOf(sentences, failed), init[k]) {
        assert init[k] == picks[k];
      }
      BuildGood(sentences, init, failed, language, difficulty, rand);
      MakeQuizGood(sentences, p.index, failed, language, difficulty, rand, p.clock);
      BuildGoodStep(sentences, picks, failed, language, difficulty, rand);
    }
  }

  lemma BuildGoodStep(sentences: seq<string>, picks: seq<Pick>, failed: set<nat>, language: string, difficulty: string, rand: Draws)
    requires picks != [] && forall k :: 0 <= k < |picks| ==> picks[k].index < |sentences|
    requires var init := picks[..|picks| - 1];
      forall k :: 0 <= k < |init| ==> GoodQuiz(Build(sentences, init, language, difficulty, rand)[k], sentences, failed, language, difficulty)
    requires var p := picks[|picks| - 1];
      GoodQuiz(MakeQuiz(sentences, p.index, language, difficulty, rand, p.clock), sentences, failed, language, difficulty)
    ensures forall k :: 0 <= k < |picks| ==> GoodQuiz(Build(sentences, picks, language, difficulty, rand)[k], sentences, failed, language, difficulty)
  {
    var p := picks[|picks| - 1];
    var b := Build(sentences, picks[..|picks| - 1], language, difficulty, rand);
    var q := MakeQuiz(sentences, p.index, language, difficulty, rand, p.clock);
    assert Build(sentences, picks, language, difficulty, rand) == b + [q];
    AllSnoc(b, q, x => GoodQuiz(x, sentences, failed, language, difficulty));
  }

  /** Quiz `k` is the one of pick `k`. */
  lemma {:induction false} BuildAt(sentences: seq<string>, picks: seq<Pick>, language: string, difficulty: string, rand: Draws, k: nat)
    requires forall j :: 0 <= j < |picks| ==> picks[j].index < |sentences|
    requires k < |picks|
    ensures Build(sentences, picks, language, difficulty, rand)[k] ==
            MakeQuiz(sentences, picks[k].index, language, difficulty, rand, picks[k].clock)
    decreases |picks|
  {
    if k < |picks| - 1 {
      BuildAt(sentences, picks[..|picks| - 1], language, difficulty, rand, k);
    }
  }

  /**
   * Short text gives no quizzes; otherwise at most six, each with four
   * options holding the answer, the answer one of the first six long
   * sentences with at least eight words, and the question built from it.
   */
  lemma QuizzesSpec(text: string, language: string, difficulty: string, failed: set<nat>, rand: Draws)
    ensures var r := Quizzes(text, language, difficulty, failed, rand);
            var ss := Sentences(Strip(text), 30);
            && (|Strip(text)| < 100 ==> r == [])
            && |r| <= 6
            && (forall k :: 0 <= k < |r| ==> GoodQuiz(r[k], ss, failed, language, difficulty))
  {
    var t := Strip(text);
    if |t| >= 100 {
      var ss := Sentences(t, 30);
      PicksSpec(|ss|, 0, SkipOf(ss, failed), CostOf(ss), 0, []);
      var ps := LoopPicks(ss, failed);
      BuildGood(ss, ps, failed, language, difficulty, rand);
      var l := Build(ss, ps, language, difficulty, rand);
      var r := Take(l, QuizLimit);
      forall k | 0 <= k < |r| ensures GoodQuiz(r[k], ss, failed, language, difficulty) {
        assert r[k] == l[k];
      }
    }
  }

  /**
   * The quizzes of a long enough text are exactly one per sentence among the
   * first six that is not passed over: quiz `k` answers with the sentence of
   * pick `k`, the picks rise strictly, and every such sentence is picked.
   */
  lemma QuizzesOnePerSentence(text: string, language: string, difficulty: string, failed: set<nat>, rand: Draws)
    requires |Strip(text)| >= 100
    ensures var r := Quizzes(text, language, difficulty, failed, rand);
            var ss := Sentences(Strip(text), 30);
            var ps := LoopPicks(ss, failed);
            && |r| == |ps|
            && (forall k :: 0 <= k < |ps| ==> ps[k].index < |ss| && k < |r| && r[k].answer == ss[ps[k].index])
            && (forall k, l :: 0 <= k < l < |ps| ==> ps[k].index < ps[l].index)
            && (forall j: nat :: Eligible(ss, failed, j) ==> Picked(ps, j))
  {
    var ss := Sentences(Strip(text), 30);
    var ps := LoopPicks(ss, failed);
    LoopPicksSpec(ss, failed);
    QuizzesBuild(text, language, difficulty, failed, rand);
    BuildAnswers(ss, ps, language, difficulty, rand);
    var r := Quizzes(text, language, difficulty, failed, rand);
    assert r == Build(ss, ps, language, difficulty, rand);

  }

  /** The picks of the loop rise strictly and hold every sentence among the first six that is not passed over. */
  lemma LoopPicksSpec(sentences: seq<string>, failed: set<nat>)
    ensures var ps := LoopPicks(sentences, failed);
            && |ps| <= 6
            && (forall k :: 0 <= k < |ps| ==> ps[k].index < |sentences|)
            && (forall k, l :: 0 <= k < l < |ps| ==> ps[k].index < ps[l].index)
            && (forall j: nat :: Eligible(sentences, failed, j) ==> Picked(ps, j))
  {
    var skip := SkipOf(sentences, failed);
    PicksSpec(|sentences|, 0, skip, CostOf(sentences), 0, []);
    PicksComplete(|sentences|, 0, skip, CostOf(sentences), 0, []);
    var ps := LoopPicks(sentences, failed);
    forall k | 0 <= k < |ps| ensures ps[k].index < |sentences| {
      assert PickOk(|sentences|, skip, ps[k]);
    }
    forall j: nat | Eligible(sentences, failed, j) ensures !skip(j) { }
  }

  /** A long enough text gives the quizzes of all the loop's picks: there are never more than the limit. */
  lemma QuizzesBuild(text: string, language: string, difficulty: string, failed: set<nat>, rand: Draws)
    requires |Strip(text)| >= 100
    ensures var ss := Sentences(Strip(text), 30);
            var ps := LoopPicks(ss, failed);
            && (forall k :: 0 <= k < |ps| ==> ps[k].index < |ss|)
            && Quizzes(text, language, difficulty, failed, rand) == Build(ss, ps, language, difficulty, rand)
  {
    var ss := Sentences(Strip(text), 30);
    LoopPicksSpec(ss, failed);
  }

  /** Quiz `k` answers with the sentence of pick `k`. */
  lemma BuildAnswers(sentences: seq<string>, picks: seq<Pick>, language: string, difficulty: string, rand: Draws)
    requires forall k :: 0 <= k < |picks| ==> picks[k].index < |sentences|
    ensures var r := Build(sentences, picks, language, difficulty, rand);
            forall k :: 0 <= k < |r| ==> r[k].answer == sentences[picks[k].index]
  {
    var r := Build(sentences, picks, language, difficulty, rand);
    forall k | 0 <= k < |r| ensures r[k].answer == sentences[picks[k].index] {
      BuildAt(sentences, picks, language, difficulty, rand, k);
      MakeQuizSpec(sentences, picks[k].index, language, difficulty, rand, picks[k].clock);
    }
  }

  /** One step of the loop over the picks: a sentence passed over adds nothing. */
  lemma PicksSkip(n: nat, i: nat, skip: nat -> bool, cost: nat -> nat, clock: nat, acc: seq<Pick>)
    requires i < Min(n, 6) && skip(i)
    ensures Picks(n, i, skip, cost, clock, acc) == Picks(n, i + 1, skip, cost, clock, acc)
  {
  }

  /** One step of the loop over the picks: a sentence not passed over is picked at the current clock. */
  lemma PicksTake(n: nat, i: nat, skip: nat -> bool, cost: nat -> nat, clock: nat, acc: seq<Pick>)
    requires i < Min(n, 6) && !skip(i)
    ensures Picks(n, i, skip, cost, clock, acc) == Picks(n, i + 1, skip, cost, NextClock(clock, cost, i), acc + [Pick(i, clock)])
  {
  }

  /** The body of the loop for a sentence it does not pass over: the quiz, and the clock after its shuffles. */
  method QuizFor(sentences: seq<string>, i: nat, language: string, difficulty: string, rand: Draws, clock: nat)
    returns (quiz: Quiz, clock': nat)
    requires i < |sentences|
    ensures quiz == MakeQuiz(sentences, i, language, difficulty, rand, clock)
    ensures clock' == NextClock(clock, CostOf(sentences), i)
  {
    var sentence := sentences[i];
    var correctAnswer := sentence;
    var distractors, c := GenerateDistractors(sentences, i, language, rand, clock);
    var options := Shuffle(distractors + [correctAnswer], rand, c);
    clock' := c + Used(4);
    var question := QuestionText(sentence, language);
    quiz := Quiz(question, options, correctAnswer, difficulty);
    assert quiz == QuizOf(sentence, distractors, language, difficulty, rand, c);
  }

  /** A sentence the loop passes over leaves the picks still to come unchanged. */
  lemma SkipStep(sentences: seq<string>, failed: set<nat>, i: nat, clock: nat, picks: seq<Pick>)
    requires i < Min(|sentences|, 6) && (WordCount(sentences[i]) < 8 || i in failed)
    ensures Picks(|sentences|, i, SkipOf(sentences, failed), CostOf(sentences), clock, picks) ==
            Picks(|sentences|, i + 1, SkipOf(sentences, failed), CostOf(sentences), clock, picks)
  {
    PicksSkip(|sentences|, i, SkipOf(sentences, failed), CostOf(sentences), clock, picks);
  }

  /** A sentence the loop does not pass over is picked at the current clock. */
  lemma TakeStep(sentences: seq<string>, failed: set<nat>, i: nat, clock: nat, clock': nat, picks: seq<Pick>)
    requires i < Min(|sentences|, 6) && !(WordCount(sentences[i]) < 8 || i in failed)
    requires clock' == NextClock(clock, CostOf(sentences), i)
    ensures Picks(|sentences|, i, SkipOf(sentences, failed), CostOf(sentences), clock, picks) ==
            Picks(|sentences|, i + 1, SkipOf(sentences, failed), CostOf(sentences), clock', picks + [Pick(i, clock)])
  {
    PicksTake(|sentences|, i, SkipOf(sentences, failed), CostOf(sentences), clock, picks);
  }

  /** `quizzes` holds the quiz of each pick, in order. */
  predicate QuizzesOf(sentences: seq<string>, picks: seq<Pick>, quizzes: seq<Quiz>, language: string, difficulty: string, rand: Draws) {
    && |quizzes| == |picks|
    && forall k :: 0 <= k < |picks| ==>
         picks[k].index < |sentences| && quizzes[k] == MakeQuiz(sentences, picks[k].index, language, difficulty, rand, picks[k].clock)
  }

  /** One more pick adds its quiz at the end. */
  lemma QuizzesOfSnoc(sentences: seq<string>, picks: seq<Pick>, quizzes: seq<Quiz>, p: Pick, language: string, difficulty: string, rand: Draws, quiz: Quiz)
    requires QuizzesOf(sentences, picks, quizzes, language, difficulty, rand)
    requires p.index < |sentences| && quiz == MakeQuiz(sentences, p.index, language, difficulty, rand, p.clock)
    ensures QuizzesOf(sentences, picks + [p], quizzes + [quiz], language, difficulty, rand)
  {
    var ps, qs := picks + [p], quizzes + [quiz];
    forall k | 0 <= k < |ps|
      ensures ps[k].index < |sentences| && qs[k] == MakeQuiz(sentences, ps[k].index, language, difficulty, rand, ps[k].clock)
    {
      if k < |picks| {
        assert ps[k] == picks[k] && qs[k] == quizzes[k];
      } else {
        assert ps[k] == p && qs[k] == quiz;
      }
    }
  }

  /** The quizzes of the picks are the ones `Build` gives. */
  lemma QuizzesOfBuild(sentences: seq<string>, picks: seq<Pick>, quizzes: seq<Quiz>, language: string, difficulty: string, rand: Draws)
    requires QuizzesOf(sentences, picks, quizzes, language, difficulty, rand)
    ensures forall k :: 0 <= k < |picks| ==> picks[k].index < |sentences|
    ensures quizzes == Build(sentences, picks, language, difficulty, rand)
  {
    var b := Build(sentences, picks, language, difficulty, rand);
    forall k | 0 <= k < |picks| ensures quizzes[k] == b[k] {
      BuildAt(sentences, picks, language, difficulty, rand, k);
    }
  }

  /** What the loop of `generate_quizzes` keeps: the quizzes built so far are those of the picks so far. */
  predicate LoopInv(sentences: seq<string>, failed: set<nat>, language: string, difficulty: string, rand: Draws,
                    i: nat, clock: nat, picks: seq<Pick>, quizzes: seq<Quiz>)
  {
    && LoopPicks(sentences, failed) == Picks(|sentences|, i, SkipOf(sentences, failed), CostOf(sentences), clock, picks)
    && QuizzesOf(sentences, picks, quizzes, language, difficulty, rand)
  }

  /** One pass of the loop of `generate_quizzes`, for sentence `i`. */
  method LoopStep(sentences: seq<string>, language: string, difficulty: string, failed: set<nat>, rand: Draws,
                  i: nat, clock: nat, quizzes: seq<Quiz>, ghost picks: seq<Pick>)
    returns (clock': nat, quizzes': seq<Quiz>, ghost picks': seq<Pick>)
    requires i < Min(|sentences|, 6)
    requires LoopInv(sentences, failed, language, difficulty, rand, i, clock, picks, quizzes)
    ensures LoopInv(sentences, failed, language, difficulty, rand, i + 1, clock', picks', quizzes')
  {
    if WordCount(sentences[i]) < 8 || i in failed {
      SkipStep(sentences, failed, i, clock, picks);
      return clock, quizzes, picks;
    }
    var quiz;
    quiz, clock' := QuizFor(sentences, i, language, difficulty, rand, clock);
    TakeStep(sentences, failed, i, clock, clock', picks);
    QuizzesOfSnoc(sentences, picks, quizzes, Pick(i, clock), language, difficulty, rand, quiz);
    picks' := picks + [Pick(i, clock)];
    quizzes' := quizzes + [quiz];
  }

  /** At the end of the loop no pick is left to come. */
  lemma LoopDone(sentences: seq<string>, failed: set<nat>, language: string, difficulty: string, rand: Draws,
                 clock: nat, picks: seq<Pick>, quizzes: seq<Quiz>)
    requires LoopInv(sentences, failed, language, difficulty, rand, Min(|sentences|, 6), clock, picks, quizzes)
    ensures forall k :: 0 <= k < |LoopPicks(sentences, failed)| ==> LoopPicks(sentences, failed)[k].index < |sentences|
    ensures quizzes == Build(sentences, LoopPicks(sentences, failed), language, difficulty, rand)
  {
    QuizzesOfBuild(sentences, picks, quizzes, language, difficulty, rand);
  }

  /** The loop of `generate_quizzes` over the first six sentences, as the source runs it. */
  method QuizLoop(sentences: seq<string>, language: string, difficulty: string, failed: set<nat>, rand: Draws)
    returns (quizzes: seq<Quiz>)
    ensures forall k :: 0 <= k < |LoopPicks(sentences, failed)| ==> LoopPicks(sentences, failed)[k].index < |sentences|
    ensures quizzes == Build(sentences, LoopPicks(sentences, failed), language, difficulty, rand)
  {
    quizzes := [];
    ghost var picks: seq<Pick> := [];
    var clock: nat := 0;
    var i := 0;
    var n := Min(|sentences|, 6);
    while i < n
      invariant 0 <= i <= n
      invariant LoopInv(sentences, failed, language, difficulty, rand, i, clock, picks, quizzes)
    {
      clock, quizzes, picks := LoopStep(sentences, language, difficulty, failed, rand, i, clock, quizzes, picks);
      i := i + 1;
    }
    LoopDone(sentences, failed, language, difficulty, rand, clock, picks, quizzes);
  }

  /** `generate_quizzes`: short text gives none; otherwise the loop's quizzes, at most eight. */
  method GenerateQuizzes(text: string, language: string, difficulty: string, failed: set<nat>, rand: Draws)
    returns (quizzes: seq<Quiz>)
    ensures quizzes == Quizzes(text, language, difficulty, failed, rand)
  {
    var t := Strip(text);
    if |t| < 100 {
      return [];
    }
    var sentences := Sentences(t, 30);
    quizzes := QuizLoop(sentences, language, difficulty, failed, rand);
    quizzes := Take(quizzes, QuizLimit);
  }
}
