/**
 * The flashcard generator (app/generators/flashcard_generator.py): the
 * primary section parser and its line- and sentence-based alternative,
 * the per-card cleaner and validator, and the gating in
 * `generate_flashcards`. The rule-based cards and the concept ranking of
 * this generator are the same code as the document flashcard
 * generator's, so they are that module's members. The model response is
 * an input: the content of the last attempt of the retry loop.
 */
module FlashcardGen {
  import opened Wrappers
  import opened Text
  import opened Markers
  import opened Json
  import opened Cleaning
  import opened Pipeline
  import opened DocumentFlashcard

  /** A parsed card: type "Q&A", difficulty "beginner". */
  function QaCard(question: string, answer: string): (c: Card)
    ensures c.question == question && c.answer == answer && c.kind == QA && c.difficulty == Str("beginner")
  {
    Card(question, answer, QA, Str("beginner"))
  }

  /** The question and answer a parser holds between two pieces of input. */
  datatype Pending = Pending(question: string, answer: string)

  const Empty := Pending("", "")

  /** Both parts are present, so the pending pair is saved. */
  predicate Full(p: Pending) { p.question != [] && p.answer != [] }

  /** The card an after-the-loop check saves: one when the pair is full. */
  function Last(p: Pending): (r: seq<Card>)
    ensures |r| <= 1 && (r != [] <==> Full(p))
  {
    if Full(p) then [QaCard(p.question, p.answer)] else []
  }

  // ---------------------------------------------------------------------
  // `_parse_multiple_flashcards`: the primary loop

  /** The markers of `re.split(r'(?:Q:|Question:|^\d+\.|^-\s*)', content, flags=re.MULTILINE)`. */
  const SectionMarks: seq<Marker> := [Lit("Q:"), Lit("Question:"), LineNumber, LineDash]

  /** The sections the primary loop walks. */
  function CardSections(content: string): seq<string> {
    ReSplit(content, SectionMarks)
  }

  /** The cards of the primary loop. */
  function PrimaryCards(content: string): seq<Card> {
    Primary(CardSections(content), Empty, [])
  }

  /**
   * One stripped section of the primary loop: a question ends with `?`
   * and replaces the pending pair (saving it first when full); another
   * non-empty section answers a pending question, and the card is saved
   * at once.
   */
  function PrimaryStep(p: Pending, section: string): (Pending, seq<Card>) {
    if section == [] then (p, [])
    else if EndsWithChar(section, '?') then (Pending(section, ""), Last(p))
    else if p.question != [] && p.answer == [] then (Empty, [QaCard(p.question, section)])
    else (p, [])
  }

  /** The primary loop from a state, with the after-the-loop check. */
  function Primary(sections: seq<string>, p: Pending, acc: seq<Card>): seq<Card>
    decreases |sections|
  {
    if sections == [] then acc + Last(p)
    else
      var (p', out) := PrimaryStep(p, Strip(sections[0]));
      Primary(sections[1..], p', acc + out)
  }

  /** A primary card: a question ending in `?` and a non-empty answer that does not. */
  predicate PrimaryShaped(c: Card) {
    EndsWithChar(c.question, '?') && c.answer != [] && !EndsWithChar(c.answer, '?') && c.kind == QA && c.difficulty == Str("beginner")
  }

  /**
   * The pending answer is always empty between sections: an answer is
   * saved the moment it is found. So the two "save the previous card"
   * checks never fire, and each card pairs a question with the section
   * right after it.
   */
  lemma {:induction false} PrimaryKeepsNoAnswer(sections: seq<string>, p: Pending, acc: seq<Card>)
    requires p.answer == [] && (p.question != [] ==> EndsWithChar(p.question, '?'))
    requires forall i :: 0 <= i < |acc| ==> PrimaryShaped(acc[i])
    ensures var r := Primary(sections, p, acc);
            |r| >= |acc| && r[..|acc|] == acc && forall i :: 0 <= i < |r| ==> PrimaryShaped(r[i])
    decreases |sections|
  {
    if sections == [] {
      assert Last(p) == [];
      assert acc + Last(p) == acc;
    } else {
      var s := Strip(sections[0]);
      var (p', out) := PrimaryStep(p, s);
      assert Last(p) == [];
      assert p'.answer == [] && (p'.question != [] ==> EndsWithChar(p'.question, '?'));
      assert forall i :: 0 <= i < |out| ==> PrimaryShaped(out[i]);
      PrimaryKeepsNoAnswer(sections[1..], p', acc + out);
      var r := Primary(sections[1..], p', acc + out);
      assert r[..|acc|] == (acc + out)[..|acc|];
    }
  }

  lemma PrimaryAt(sections: seq<string>, i: nat, p: Pending, acc: seq<Card>)
    requires i < |sections|
    ensures Primary(sections[i..], p, acc) ==
            var st := PrimaryStep(p, Strip(sections[i])); Primary(sections[i + 1..], st.0, acc + st.1)
  {
    assert sections[i..][0] == sections[i];
    assert sections[i..][1..] == sections[i + 1..];
  }

  /** The primary loop of `_parse_multiple_flashcards`, over the sections of the split. */
  method ParsePrimary(sections: seq<string>) returns (flashcards: seq<Card>)
    ensures flashcards == Primary(sections, Empty, [])
  {
    flashcards := [];
    var currentQuestion := "";
    var currentAnswer := "";
    var i := 0;
    while i < |sections|
      invariant 0 <= i <= |sections|
      invariant Primary(sections, Empty, []) == Primary(sections[i..], Pending(currentQuestion, currentAnswer), flashcards)
    {
      PrimaryAt(sections, i, Pending(currentQuestion, currentAnswer), flashcards);
      var section := Strip(sections[i]);
      ghost var step := PrimaryStep(Pending(currentQuestion, currentAnswer), section);
      ghost var before := flashcards;
      if section != [] {
        if EndsWithChar(section, '?') {
          if currentQuestion != [] && currentAnswer != [] {
            flashcards := flashcards + [QaCard(currentQuestion, currentAnswer)];
          }
          currentQuestion := section;
          currentAnswer := "";
        } else if currentQuestion != [] && currentAnswer == [] {
          currentAnswer := section;
          flashcards := flashcards + [QaCard(currentQuestion, currentAnswer)];
          currentQuestion := "";
          currentAnswer := "";
        }
      }
      assert Pending(currentQuestion, currentAnswer) == step.0 && flashcards == before + step.1;
      i := i + 1;
    }
    if currentQuestion != [] && currentAnswer != [] {
      flashcards := flashcards + [QaCard(currentQuestion, currentAnswer)];
    }
  }

  // ---------------------------------------------------------------------
  // `_parse_alternative_format`, Method 1: question and answer lines

  /** The words `re.match(r'^(What|How|...|Should)', line, re.IGNORECASE)` looks for. */
  const QuestionWords: seq<string> :=
    ["What", "How", "Why", "When", "Where", "Which", "Who", "Can", "Do", "Does", "Is", "Are", "Will", "Would", "Could", "Should"]

  /** A question line: longer than 10 characters and ending in `?`, or starting with a question word in any case. */
  predicate IsQuestionLine(line: string) {
    (EndsWithChar(line, '?') && |line| > 10) || StartsWithAnyCi(line, QuestionWords)
  }

  /** An answer line for a pending question: longer than 10 characters and not ending in `?`. */
  predicate IsAnswerLine(line: string) {
    |line| > 10 && !EndsWithChar(line, '?')
  }

  /** Where one line leaves Method 1: stopped with its result, or going on with a new state. */
  datatype Scan = Stop(cards: seq<Card>) | Go(cur: Pending, acc: seq<Card>)

  /**
   * One stripped line of Method 1. A question line saves a full pending
   * pair; if that reaches `needed` the loop breaks, and the check after
   * the loop saves the pending pair again when `resave` holds (the code
   * as written), since the break leaves the pair in place. An answer line
   * completes a pending question.
   */
  function LineStep(line: string, needed: int, cur: Pending, acc: seq<Card>, resave: bool): Scan {
    if line == [] then Go(cur, acc)
    else if IsQuestionLine(line) then
      if Full(cur) then
        var acc' := acc + [QaCard(cur.question, cur.answer)];
        if |acc'| >= needed then Stop(if resave then acc' + Last(cur) else acc')
        else Go(Pending(line, ""), acc')
      else Go(Pending(line, ""), acc)
    else if cur.question != [] && cur.answer == [] && IsAnswerLine(line) then Go(Pending(cur.question, line), acc)
    else Go(cur, acc)
  }

  /** The Method 1 loop from a state, with the after-the-loop check. */
  function Method1Scan(lines: seq<string>, needed: int, cur: Pending, acc: seq<Card>, resave: bool): seq<Card>
    decreases |lines|
  {
    if lines == [] then acc + Last(cur)
    else match LineStep(Strip(lines[0]), needed, cur, acc, resave)
      case Stop(cards) => cards
      case Go(cur', acc') => Method1Scan(lines[1..], needed, cur', acc', resave)
  }

  /** Method 1 as written. */
  function Method1(lines: seq<string>, needed: int): seq<Card> {
    Method1Scan(lines, needed, Empty, [], true)
  }

  /** Method 1 with the `break` leaving the saved pair saved once. */
  function Method1Fixed(lines: seq<string>, needed: int): seq<Card> {
    Method1Scan(lines, needed, Empty, [], false)
  }

  /**
   * The duplicate: when the pair saved at a question line reaches
   * `needed`, Method 1 as written ends with that card twice.
   */
  lemma Method1RepeatsLastPair(lines: seq<string>, needed: int, cur: Pending, acc: seq<Card>)
    requires lines != [] && IsQuestionLine(Strip(lines[0])) && Full(cur) && |acc| + 1 >= needed
    ensures var r := Method1Scan(lines, needed, cur, acc, true);
            var c := QaCard(cur.question, cur.answer);
            r == acc + [c, c] && |r| == |acc| + 2
  {
  }

  /** No question word starts with a letter outside "whcdias", in either case. */
  lemma NoQuestionWord(s: string)
    requires s != [] && LowerChar(s[0]) !in "whcdias"
    ensures !StartsWithAnyCi(s, QuestionWords)
  {
    forall i | 0 <= i < |QuestionWords| ensures !LiteralAt(s, QuestionWords[i], true, 0) {
      var w := QuestionWords[i];
      assert LowerChar(w[0]) in "whcdias";
      if |w| <= |s| {
        assert Lower(s[..|w|])[0] == LowerChar(s[0]);
        assert Lower(w)[0] == LowerChar(w[0]);
      }
    }
  }

  /** The three lines of the example below, and the card of the first two. */
  const CellQuestion := "What is a cell?"
  const CellAnswer := "The unit of life."
  const DnaQuestion := "What is DNA?"

  lemma CellStrips()
    ensures Strip(CellQuestion) == CellQuestion && Strip(CellAnswer) == CellAnswer && Strip(DnaQuestion) == DnaQuestion
  {
    StripsItself(CellQuestion);
    StripsItself(CellAnswer);
    StripsItself(DnaQuestion);
  }

  /** A line that starts and ends with a visible character is its own `strip()`. */
  lemma StripsItself(s: string)
    requires s != [] && !IsSpace(s[0]) && !IsSpace(s[|s| - 1])
    ensures Strip(s) == s
  {
    StripOfStripped(s);
  }

  lemma CellLines()
    ensures IsQuestionLine(CellQuestion) && IsQuestionLine(DnaQuestion)
    ensures !IsQuestionLine(CellAnswer) && IsAnswerLine(CellAnswer)
  {
    NoQuestionWord(CellAnswer);
  }

  /**
   * The lines "What is a cell?", "The unit of life." and "What is DNA?"
   * asked for one card give the first card twice.
   */
  lemma Method1TwoForOne()
    ensures var c := QaCard(CellQuestion, CellAnswer);
            Method1([CellQuestion, CellAnswer, DnaQuestion], 1) == [c, c]
  {
    var lines := [CellQuestion, CellAnswer, DnaQuestion];
    CellStrips();
    CellLines();
    assert lines[1..] == [CellAnswer, DnaQuestion];
    assert lines[1..][1..] == [DnaQuestion];
    ScanOpens(lines, 1, Empty, [], true);
    ScanAnswers(lines[1..], 1, Pending(CellQuestion, ""), [], true);
    Method1RepeatsLastPair([DnaQuestion], 1, Pending(CellQuestion, CellAnswer), []);
  }

  /** A question line with no full pair pending opens a new pair. */
  lemma ScanOpens(lines: seq<string>, needed: int, cur: Pending, acc: seq<Card>, resave: bool)
    requires lines != [] && Strip(lines[0]) != [] && IsQuestionLine(Strip(lines[0])) && !Full(cur)
    ensures Method1Scan(lines, needed, cur, acc, resave)
         == Method1Scan(lines[1..], needed, Pending(Strip(lines[0]), ""), acc, resave)
  {
  }

  /** An answer line completes a pending question. */
  lemma ScanAnswers(lines: seq<string>, needed: int, cur: Pending, acc: seq<Card>, resave: bool)
    requires lines != [] && Strip(lines[0]) != [] && !IsQuestionLine(Strip(lines[0]))
    requires cur.question != [] && cur.answer == [] && IsAnswerLine(Strip(lines[0]))
    ensures Method1Scan(lines, needed, cur, acc, resave)
         == Method1Scan(lines[1..], needed, Pending(cur.question, Strip(lines[0])), acc, resave)
  {
  }

  /** A Method 1 card: a non-empty question line and an answer line. */
  predicate LineCard(c: Card) {
    c.question != [] && IsAnswerLine(c.answer) && c.kind == QA && c.difficulty == Str("beginner")
  }

  predicate PendingOk(p: Pending) {
    p.answer != [] ==> p.question != [] && IsAnswerLine(p.answer)
  }

  predicate AllLineCards(cs: seq<Card>) {
    forall i :: 0 <= i < |cs| ==> LineCard(cs[i])
  }

  /** What one line keeps: the state stays well formed and short of `needed`, or the stop is at most one over. */
  lemma LineStepShape(line: string, needed: int, cur: Pending, acc: seq<Card>, resave: bool)
    requires |acc| < needed && PendingOk(cur) && AllLineCards(acc)
    ensures match LineStep(line, needed, cur, acc, resave)
      case Go(cur', acc') => |acc'| < needed && PendingOk(cur') && AllLineCards(acc')
      case Stop(cards) =>
        && AllLineCards(cards)
        && (if resave then |cards| == needed + 1 && cards[needed] == cards[needed - 1] else |cards| == needed)
  {
  }

  /**
   * As written, Method 1 can return one card more than `needed`, and
   * then its last two cards are the same; with the fix it never returns
   * more than `needed`.
   */
  lemma {:induction false} Method1ScanBound(lines: seq<string>, needed: int, cur: Pending, acc: seq<Card>, resave: bool)
    requires |acc| < needed && PendingOk(cur) && AllLineCards(acc)
    ensures var r := Method1Scan(lines, needed, cur, acc, resave);
            && AllLineCards(r)
            && (if resave then |r| <= needed + 1 && (|r| == needed + 1 ==> r[needed] == r[needed - 1]) else |r| <= needed)
    decreases |lines|
  {
    if lines != [] {
      LineStepShape(Strip(lines[0]), needed, cur, acc, resave);
      match LineStep(Strip(lines[0]), needed, cur, acc, resave)
      case Stop(cards) =>
      case Go(cur', acc') => Method1ScanBound(lines[1..], needed, cur', acc', resave);
    }
  }

  /** With the fix Method 1 never returns more than `needed` cards, each a question line with an answer line. */
  lemma Method1FixedBound(lines: seq<string>, needed: int)
    requires needed >= 1
    ensures |Method1Fixed(lines, needed)| <= needed && AllLineCards(Method1Fixed(lines, needed))
  {
    Method1ScanBound(lines, needed, Empty, [], false);
  }

  /** As written, Method 1 returns at most one card over `needed`, and then the last one repeats. */
  lemma Method1Overshoot(lines: seq<string>, needed: int)
    requires needed >= 1
    ensures var r := Method1(lines, needed);
            |r| <= needed + 1 && (|r| == needed + 1 ==> r[needed] == r[needed - 1]) && AllLineCards(r)
  {
    Method1ScanBound(lines, needed, Empty, [], true);
  }

  // ---------------------------------------------------------------------
  // `_parse_alternative_format`, Method 2: consecutive sentences

  /** `re.split(r'[.!?]+', content)`. */
  const SentenceMarks: seq<Marker> := [PunctRun]

  /** `[s.strip() for s in re.split(r'[.!?]+', content) if len(s.strip()) > 20]`. */
  function LongSentences(content: string): (r: seq<string>)
    ensures forall i :: 0 <= i < |r| ==> |r[i]| > 20
  {
    StrippedLonger(SentencePieces(content), 20)
  }

  function SentencePieces(content: string): seq<string> {
    ReSplit(content, SentenceMarks)
  }

  /** The question of a sentence pair: the sentence, with `?` appended when it does not end with one. */
  function Questioned(s: string): (r: string)
    ensures EndsWithChar(s, '?') ==> r == s
    ensures !EndsWithChar(s, '?') ==> r == s + "?"
    ensures EndsWithChar(r, '?')
  {
    if EndsWithChar(s, '?') then s else s + "?"
  }

  /**
   * `for i in range(i, m, 2)` of Method 2: the card pairing sentence `i`
   * with sentence `i + 1`, until `needed` cards exist.
   */
  function Pairs(ss: seq<string>, i: nat, m: int, acc: seq<Card>, needed: int): seq<Card>
    decreases Max(m - i, 0)
  {
    if i >= m then acc
    else if i + 1 < |ss| then
      var acc' := acc + [QaCard(Questioned(ss[i]), ss[i + 1])];
      if |acc'| >= needed then acc' else Pairs(ss, i + 2, m, acc', needed)
    else Pairs(ss, i + 2, m, acc, needed)
  }

  /** The cards of `n` sentence pairs from sentence `i` on: `i` with `i + 1`, `i + 2` with `i + 3`, and so on. */
  function PairCards(ss: seq<string>, i: nat, n: nat): (r: seq<Card>)
    requires i + 2 * n <= |ss|
    ensures |r| == n
    decreases n
  {
    if n == 0 then [] else [QaCard(Questioned(ss[i]), ss[i + 1])] + PairCards(ss, i + 2, n - 1)
  }

  /**
   * Method 2 appends, in order, the cards pairing sentences `i` and
   * `i + 1` for `i = 0, 2, 4, ...`, each question made to end with `?`.
   */
  lemma {:induction false} PairsSpec(ss: seq<string>, i: nat, m: int, acc: seq<Card>, needed: int)
    requires i <= |ss| && m <= |ss| - 1
    ensures var r := Pairs(ss, i, m, acc, needed);
            && |r| >= |acc| && i + 2 * (|r| - |acc|) <= |ss|
            && r == acc + PairCards(ss, i, |r| - |acc|)
    decreases Max(m - i, 0)
  {
    if i < m {
      var c := QaCard(Questioned(ss[i]), ss[i + 1]);
      var acc' := acc + [c];
      if |acc'| < needed {
        PairsSpec(ss, i + 2, m, acc', needed);
        PairsStep(ss, i, m, acc, needed);
      } else {
        assert PairCards(ss, i, 1) == [c];
      }
    } else {
      assert acc + PairCards(ss, i, 0) == acc;
    }
  }

  lemma PairsStep(ss: seq<string>, i: nat, m: int, acc: seq<Card>, needed: int)
    requires i < m <= |ss| - 1
    requires |acc| + 1 < needed
    requires var acc' := acc + [QaCard(Questioned(ss[i]), ss[i + 1])];
             var r := Pairs(ss, i + 2, m, acc', needed);
             && |r| >= |acc'| && i + 2 + 2 * (|r| - |acc'|) <= |ss|
             && r == acc' + PairCards(ss, i + 2, |r| - |acc'|)
    ensures var r := Pairs(ss, i, m, acc, needed);
            && |r| >= |acc| && i + 2 * (|r| - |acc|) <= |ss|
            && r == acc + PairCards(ss, i, |r| - |acc|)
  {
    var c := QaCard(Questioned(ss[i]), ss[i + 1]);
    var acc' := acc + [c];
    var r := Pairs(ss, i + 2, m, acc', needed);
    PairsAt(ss, i, m, acc, needed);
    var n := |r| - |acc|;
    PairCardsCons(ss, i, n);
    Assoc(acc, [c], PairCards(ss, i + 2, n - 1));
  }

  lemma PairCardsCons(ss: seq<string>, i: nat, n: nat)
    requires n >= 1 && i + 2 * n <= |ss|
    ensures PairCards(ss, i, n) == [QaCard(Questioned(ss[i]), ss[i + 1])] + PairCards(ss, i + 2, n - 1)
  {
  }

  /** Method 2, run when Method 1 found fewer than `needed` cards. */
  function Method2(content: string, needed: int, cards: seq<Card>): seq<Card> {
    if |cards| < needed then
      var ss := LongSentences(content);
      Pairs(ss, 0, Min(|ss| - 1, needed - |cards|), cards, needed)
    else cards
  }

  /** `_parse_alternative_format`, as written. */
  function Alternative(content: string, needed: int): seq<Card> {
    Method2(content, needed, Method1(Split(content, "\n"), needed))
  }

  /** `_parse_alternative_format` with the fixed Method 1. */
  function AlternativeFixed(content: string, needed: int): seq<Card> {
    Method2(content, needed, Method1Fixed(Split(content, "\n"), needed))
  }

  /** Method 2 stops at `needed`: with the fixed Method 1 the alternative never returns more than asked. */
  lemma AlternativeFixedBound(content: string, needed: int)
    requires needed >= 1
    ensures |AlternativeFixed(content, needed)| <= needed
  {
    var m1 := Method1Fixed(Split(content, "\n"), needed);
    Method1FixedBound(Split(content, "\n"), needed);
    if |m1| < needed {
      PairsBound(LongSentences(content), 0, Min(|LongSentences(content)| - 1, needed - |m1|), m1, needed);
    }
  }

  /** Method 2 adds at most one card per step of two and stops at `needed`. */
  lemma {:induction false} PairsBound(ss: seq<string>, i: nat, m: int, acc: seq<Card>, needed: int)
    requires |acc| < needed
    ensures |Pairs(ss, i, m, acc, needed)| <= needed
    decreases Max(m - i, 0)
  {
    if i < m && i + 1 < |ss| {
      var acc' := acc + [QaCard(Questioned(ss[i]), ss[i + 1])];
      if |acc'| < needed {
        PairsBound(ss, i + 2, m, acc', needed);
      }
    } else if i < m {
      PairsBound(ss, i + 2, m, acc, needed);
    }
  }

  lemma Method1At(lines: seq<string>, i: nat, needed: int, cur: Pending, acc: seq<Card>)
    requires i < |lines|
    ensures Method1Scan(lines[i..], needed, cur, acc, true) ==
      match LineStep(Strip(lines[i]), needed, cur, acc, true)
      case Stop(cards) => cards
      case Go(cur', acc') => Method1Scan(lines[i + 1..], needed, cur', acc', true)
  {
    assert lines[i..][0] == lines[i];
    assert lines[i..][1..] == lines[i + 1..];
  }

  /** The Method 1 loop of `_parse_alternative_format`, as written. */
  method AlternativeLines(lines: seq<string>, neededCount: int) returns (flashcards: seq<Card>)
    ensures flashcards == Method1(lines, neededCount)
  {
    flashcards := [];
    var question := "";
    var answer := "";
    var i := 0;
    while i < |lines|
      invariant 0 <= i <= |lines|
      invariant Method1(lines, neededCount) == Method1Scan(lines[i..], neededCount, Pending(question, answer), flashcards, true)
    {
      Method1At(lines, i, neededCount, Pending(question, answer), flashcards);
      var line := Strip(lines[i]);
      if line != [] {
        if IsQuestionLine(line) {
          if question != [] && answer != [] {
            flashcards := flashcards + [QaCard(question, answer)];
            if |flashcards| >= neededCount {
              break;
            }
          }
          question := line;
          answer := "";
        } else if question != [] && answer == [] && IsAnswerLine(line) {
          answer := line;
        }
      }
      i := i + 1;
    }
    if question != [] && answer != [] {
      flashcards := flashcards + [QaCard(question, answer)];
    }
  }

  lemma PairsAt(ss: seq<string>, i: nat, m: int, acc: seq<Card>, needed: int)
    requires i < m && i + 1 < |ss|
    ensures Pairs(ss, i, m, acc, needed) ==
      var acc' := acc + [QaCard(Questioned(ss[i]), ss[i + 1])];
      if |acc'| >= needed then acc' else Pairs(ss, i + 2, m, acc', needed)
  {
  }

  /** The Method 2 loop of `_parse_alternative_format`. */
  method AlternativeSentences(content: string, neededCount: int, cards: seq<Card>) returns (flashcards: seq<Card>)
    ensures flashcards == Method2(content, neededCount, cards)
  {
    flashcards := cards;
    if |flashcards| < neededCount {
      var sentences := LongSentences(content);
      var m := Min(|sentences| - 1, neededCount - |flashcards|);
      flashcards := PairSentences(sentences, m, cards, neededCount);
    }
  }

  /** The `for i in range(0, m, 2)` loop of Method 2. */
  method PairSentences(sentences: seq<string>, m: int, cards: seq<Card>, neededCount: int) returns (flashcards: seq<Card>)
    ensures flashcards == Pairs(sentences, 0, m, cards, neededCount)
  {
    flashcards := cards;
    var i := 0;
    while i < m
      invariant Pairs(sentences, 0, m, cards, neededCount) == Pairs(sentences, i, m, flashcards, neededCount)
      decreases m - i
    {
      if i + 1 < |sentences| {
        PairsAt(sentences, i, m, flashcards, neededCount);
        var question := sentences[i];
        var answer := sentences[i + 1];
        if !EndsWithChar(question, '?') {
          question := question + "?";
        }
        flashcards := flashcards + [QaCard(question, answer)];
        if |flashcards| >= neededCount {
          return;
        }
      }
      i := i + 2;
    }
  }

  /** `_parse_alternative_format`, as written. */
  method ParseAlternativeFormat(content: string, neededCount: int) returns (flashcards: seq<Card>)
    ensures flashcards == Alternative(content, neededCount)
  {
    var lines := Split(content, "\n");
    flashcards := AlternativeLines(lines, neededCount);
    flashcards := AlternativeSentences(content, neededCount, flashcards);
  }

  // ---------------------------------------------------------------------
  // `_parse_multiple_flashcards`: combining and the final filter

  /** The final check: question and answer not blank (`strip()` leaves something) and longer than 5 characters. */
  predicate LongEnough(c: Card) {
    !AllSpace(c.question) && !AllSpace(c.answer) && |c.question| > 5 && |c.answer| > 5
  }

  /** The cards that pass the final check, in order. */
  function FilterLong(cs: seq<Card>): (r: seq<Card>)
    ensures |r| <= |cs|
    ensures forall i :: 0 <= i < |r| ==> LongEnough(r[i])
  {
    if cs == [] then []
    else FilterLong(cs[..|cs| - 1]) + (if LongEnough(cs[|cs| - 1]) then [cs[|cs| - 1]] else [])
  }

  /** The final check keeps only input cards. */
  lemma {:induction false} FilterLongFrom(cs: seq<Card>)
    ensures forall i :: 0 <= i < |FilterLong(cs)| ==> FilterLong(cs)[i] in cs
  {
    if cs != [] {
      var init := cs[..|cs| - 1];
      var last := cs[|cs| - 1];
      FilterLongFrom(init);
      var f := FilterLong(init);
      var r := FilterLong(cs);
      assert r == f + (if LongEnough(last) then [last] else []);
      forall i | 0 <= i < |r| ensures r[i] in cs {
        if i < |f| {
          assert r[i] == f[i];
          assert f[i] in init;
          var j :| 0 <= j < |init| && init[j] == f[i];
          assert cs[j] == init[j];
        } else {
          assert r[i] == last;
        }
      }
    }
  }

  /** The final check keeps every card when each passes. */
  lemma {:induction false} FilterLongAll(cs: seq<Card>)
    requires forall i :: 0 <= i < |cs| ==> LongEnough(cs[i])
    ensures FilterLong(cs) == cs
  {
    if cs != [] {
      var init := cs[..|cs| - 1];
      forall i | 0 <= i < |init| ensures LongEnough(init[i]) {
        assert init[i] == cs[i];
      }
      FilterLongAll(init);
      assert FilterLong(cs) == FilterLong(init) + [cs[|cs| - 1]];
      SnocSlice(cs);
    }
  }

  /** How many cards the primary parse is short of `expected`. */
  function Shortfall(expected: int, primary: seq<Card>): int {
    expected - |primary|
  }

  /**
   * `_parse_multiple_flashcards`: the primary cards; when fewer than
   * `expected_count`, the alternative parse asked for the shortfall is
   * appended; then the final check and the cut to `expected_count`.
   */
  function ParseMultiple(content: string, expected: int): seq<Card> {
    var primary := PrimaryCards(content);
    var all := if |primary| < expected then primary + Alternative(content, Shortfall(expected, primary)) else primary;
    Take(FilterLong(all), expected)
  }

  /**
   * At most `expected_count` cards for a non-negative count, each with a
   * question and an answer longer than 5 characters; with enough primary
   * cards the alternative parse is not consulted.
   */
  lemma ParsedMultiple(content: string, expected: int)
    ensures var r := ParseMultiple(content, expected);
            var primary := PrimaryCards(content);
            && (expected >= 0 ==> |r| <= expected)
            && (forall i :: 0 <= i < |r| ==> |r[i].question| > 5 && |r[i].answer| > 5)
            && (|primary| >= expected ==> r == Take(FilterLong(primary), expected))
            && (|primary| < expected ==>
                  r == Take(FilterLong(primary + Alternative(content, Shortfall(expected, primary))), expected))
  {
    var primary := PrimaryCards(content);
    var all := if |primary| < expected then primary + Alternative(content, Shortfall(expected, primary)) else primary;
    var f := FilterLong(all);
    var r := Take(f, expected);
    forall i | 0 <= i < |r| ensures |r[i].question| > 5 && |r[i].answer| > 5 {
      assert r[i] == f[i];
    }
  }

  /** Every primary card passes the final check when its question and answer are longer than 5 characters. */
  lemma PrimaryCardsShaped(content: string)
    ensures var p := PrimaryCards(content);
            forall i :: 0 <= i < |p| ==> PrimaryShaped(p[i])
  {
    PrimaryKeepsNoAnswer(CardSections(content), Empty, []);
  }

  /** The final filter loop and the cut. */
  method FinalCheck(flashcards: seq<Card>, expectedCount: int) returns (r: seq<Card>)
    ensures r == Take(FilterLong(flashcards), expectedCount)
  {
    var cleaned: seq<Card> := [];
    var i := 0;
    while i < |flashcards|
      invariant 0 <= i <= |flashcards|
      invariant cleaned == FilterLong(flashcards[..i])
    {
      var fc := flashcards[i];
      assert flashcards[..i + 1][..i] == flashcards[..i];
      if Strip(fc.question) != [] && Strip(fc.answer) != [] && |fc.question| > 5 && |fc.answer| > 5 {
        cleaned := cleaned + [fc];
      }
      i := i + 1;
    }
    assert flashcards[..i] == flashcards;
    r := Take(cleaned, expectedCount);
  }

  /** `_parse_multiple_flashcards`. */
  method ParseMultipleFlashcards(content: string, expectedCount: int) returns (r: seq<Card>)
    ensures r == ParseMultiple(content, expectedCount)
  {
    var sections := CardSections(content);
    var flashcards := ParsePrimary(sections);
    if |flashcards| < expectedCount {
      var additional := ParseAlternativeFormat(content, Shortfall(expectedCount, flashcards));
      flashcards := flashcards + additional;
    }
    r := FinalCheck(flashcards, expectedCount);
  }

  // ---------------------------------------------------------------------
  // `_is_valid_flashcard`, `_clean_and_validate_flashcards`

  /** The lower-cased openings a question may not have. */
  const BannedQuestionStarts: seq<string> := ["what does", "refer to", "###", "**"]
  /** The lower-cased openings an answer may not have. */
  const BannedAnswerStarts: seq<string> := ["###", "**", "flashcard:", "q:", "a:"]

  predicate StartsWithAny(s: string, ps: seq<string>) {
    exists i :: 0 <= i < |ps| && StartsWith(s, ps[i])
  }

  /** `_is_valid_flashcard`. */
  predicate IsValidFlashcard(question: string, answer: string) {
    && |question| >= 10 && |answer| >= 10
    && !StartsWithAny(Lower(question), BannedQuestionStarts)
    && !StartsWithAny(Lower(answer), BannedAnswerStarts)
    && EndsWithChar(question, '?')
    && !EndsWithChar(answer, '?')
    && EndsWithTerminal(answer)
  }

  /** A valid answer ends in `.` or `!`. */
  lemma ValidAnswerEnds(question: string, answer: string)
    requires IsValidFlashcard(question, answer)
    ensures EndsWithChar(answer, '.') || EndsWithChar(answer, '!')
  {
  }

  /** One pass of the loop body of `_clean_and_validate_flashcards`. */
  function CleanFlashcard(item: Value): (r: Outcome<Option<Card>>)
    ensures r.Raised? <==> CleanRaises(item)
    ensures r.Ok? ==> (r.value.Some? <==>
      IsValidFlashcard(FlashcardClean(Strip(Field(item, "question", Str("")).s)), FlashcardClean(Strip(Field(item, "answer", Str("")).s))))
    ensures r.Ok? && r.value.Some? ==>
      var c := r.value.value;
      && IsValidFlashcard(c.question, c.answer) && Clean(c.question) && Clean(c.answer)
      && c.question == FlashcardClean(Strip(Field(item, "question", Str("")).s))
      && c.answer == FlashcardClean(Strip(Field(item, "answer", Str("")).s))
      && c.kind == QA && c.difficulty == Field(item, "difficulty", Str("beginner"))
  {
    if CleanRaises(item) then Raised
    else
      var question := FlashcardClean(Strip(Field(item, "question", Str("")).s));
      var answer := FlashcardClean(Strip(Field(item, "answer", Str("")).s));
      if IsValidFlashcard(question, answer) then Ok(Some(Card(question, answer, QA, Field(item, "difficulty", Str("beginner")))))
      else Ok(None)
  }

  predicate ValidCard(c: Card) {
    IsValidFlashcard(c.question, c.answer) && c.kind == QA
  }

  /** `_clean_and_validate_flashcards`. */
  method CleanAndValidateFlashcards(flashcards: seq<Value>, targetCount: int) returns (r: Outcome<seq<Card>>)
    ensures r == Collect(flashcards, targetCount, CleanFlashcard, [])
  {
    r := CleanAndValidate(flashcards, targetCount, CleanFlashcard);
  }

  /**
   * The cleaned cards: at most `max(target_count, 1)`, each valid, in
   * input order among the first `Consumed` inputs.
   */
  lemma CleanedFlashcards(flashcards: seq<Value>, targetCount: int)
    ensures var r := Collect(flashcards, targetCount, CleanFlashcard, []);
            r.Ok? ==>
              && |r.value| <= Max(targetCount, 1)
              && (forall i :: 0 <= i < |r.value| ==> ValidCard(r.value[i]))
              && r == Pipeline.Kept(flashcards[..Consumed(flashcards, targetCount, CleanFlashcard, [])], CleanFlashcard)
  {
    CleanedShape(flashcards, targetCount, CleanFlashcard, ValidCard);
    CollectIsKeptPrefix(flashcards, targetCount, CleanFlashcard, []);
    var k := Pipeline.Kept(flashcards[..Consumed(flashcards, targetCount, CleanFlashcard, [])], CleanFlashcard);
    if k.Ok? {
      assert [] + k.value == k.value;
    }
  }

  // ---------------------------------------------------------------------
  // `generate_flashcards`

  /** `_generate_flashcards_single_call` after the model call: nothing for a missing or short response, else the parse. */
  function SingleCall(response: Option<string>, count: int): seq<Card> {
    if response.None? || |Strip(response.value)| < 50 then [] else ParseMultiple(response.value, count)
  }

  /**
   * `generate_flashcards`: too-short text gives nothing; otherwise the
   * parsed cards, or the rule-based cards when there are none, are
   * cleaned; when cleaning raises, the `except` branch returns the raw
   * rule-based cards. There is no fallback flag here.
   */
  function GenerateFlashcards(text: string, words: seq<string>, language: string, difficulty: string, count: int,
                              response: Option<string>): Outcome<seq<Card>>
  {
    var t := Strip(text);
    if |t| < 50 then Ok([])
    else Gate(Encode(SingleCall(response, count), ToValue), RuleBasedCardList(t, words, language, difficulty, count),
              ToValue, count, CleanFlashcard, Some(true))
  }

  lemma ShortTextNoFlashcards(text: string, words: seq<string>, language: string, difficulty: string, count: int,
                              response: Option<string>)
    requires |Strip(text)| < 50
    ensures GenerateFlashcards(text, words, language, difficulty, count, response) == Ok([])
  {
  }

  /** Cleaning the dicts of cards this generator built never raises. */
  lemma RecordsNeverRaise(cs: seq<Card>, count: int)
    ensures Collect(Encode(cs, ToValue), count, CleanFlashcard, []).Ok?
  {
    var items := Encode(cs, ToValue);
    forall i | 0 <= i < |items| ensures CleanFlashcard(items[i]).Ok? {
      CleanCardOfRecord(cs[i]);
    }
    CollectNeverRaises(items, count, CleanFlashcard, []);
  }

  /** The dicts `generate_flashcards` cleans: the parsed cards, or the rule-based ones when none were parsed. */
  function Cleaned(text: string, words: seq<string>, language: string, difficulty: string, count: int,
                   response: Option<string>): seq<Card>
  {
    var parsed := SingleCall(response, count);
    if parsed == [] then RuleBasedCardList(Strip(text), words, language, difficulty, count) else parsed
  }

  /** With cards parsed from the response, those are what gets cleaned. */
  lemma GeneratedFromParsed(text: string, words: seq<string>, language: string, difficulty: string, count: int,
                            response: Option<string>)
    requires |Strip(text)| >= 50 && SingleCall(response, count) != []
    ensures GenerateFlashcards(text, words, language, difficulty, count, response) ==
            Collect(Encode(SingleCall(response, count), ToValue), count, CleanFlashcard, [])
  {
    var parsed := SingleCall(response, count);
    RecordsNeverRaise(parsed, count);
    assert Encode(parsed, ToValue) != [];
  }

  /** With nothing parsed, the rule-based cards are what gets cleaned (this generator has no flag). */
  lemma GeneratedFromRules(text: string, words: seq<string>, language: string, difficulty: string, count: int,
                           response: Option<string>)
    requires |Strip(text)| >= 50 && SingleCall(response, count) == []
    ensures GenerateFlashcards(text, words, language, difficulty, count, response) ==
            Collect(Encode(RuleBasedCardList(Strip(text), words, language, difficulty, count), ToValue), count, CleanFlashcard, [])
  {
    RecordsNeverRaise(RuleBasedCardList(Strip(text), words, language, difficulty, count), count);
  }

  /**
   * For text of at least 50 characters the call never raises, since the
   * cards it cleans are its own dicts: the result is the cleaned parsed
   * cards, or the cleaned rule-based cards when the parse gives none.
   */
  lemma GeneratedFlashcardsSource(text: string, words: seq<string>, language: string, difficulty: string, count: int,
                                  response: Option<string>)
    requires |Strip(text)| >= 50
    ensures var r := GenerateFlashcards(text, words, language, difficulty, count, response);
            r.Ok? && r == Collect(Encode(Cleaned(text, words, language, difficulty, count, response), ToValue), count, CleanFlashcard, [])
  {
    RecordsNeverRaise(Cleaned(text, words, language, difficulty, count, response), count);
    if SingleCall(response, count) == [] {
      GeneratedFromRules(text, words, language, difficulty, count, response);
    } else {
      GeneratedFromParsed(text, words, language, difficulty, count, response);
    }
  }

  /** Every card `generate_flashcards` returns is valid, and there are at most `max(count, 1)`. */
  lemma GeneratedFlashcardsValid(text: string, words: seq<string>, language: string, difficulty: string, count: int,
                                 response: Option<string>)
    ensures var r := GenerateFlashcards(text, words, language, difficulty, count, response);
            r.Ok? && |r.value| <= Max(count, 1) && forall i :: 0 <= i < |r.value| ==> ValidCard(r.value[i])
  {
    if |Strip(text)| >= 50 {
      GeneratedFlashcardsSource(text, words, language, difficulty, count, response);
      CleanedShape(Encode(Cleaned(text, words, language, difficulty, count, response), ToValue), count, CleanFlashcard, ValidCard);
    }
  }
}
