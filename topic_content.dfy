/**
 * The topic content generator: the prompts it sends to the text model, the
 * fallback rule for a reply that is too short, and the summary record whose
 * fields are cut out of the model's summary text.
 *
 * The text model is the parameter `model`: it maps a prompt and a maximum
 * length to a reply or to an exception.
 */
module TopicContent {
  import opened Text
  import opened Wrappers
  import opened TopicPrompts

  /** `model_manager.generate_text(prompt, max_length)`. */
  type Model = (string, nat) -> Outcome<string>

  // ---------------------------------------------------------------------
  // Topic content

  /** A model call whose exception is caught and turned into the empty reply. */
  function Reply(model: Model, prompt: string, maxLength: nat): string
  {
    match model(prompt, maxLength)
    case Ok(text) => text
    case Raised => []
  }

  /** The first reply is replaced when it is empty or shorter than 100 characters once stripped. */
  predicate TooShort(content: string) {
    content == [] || |Strip(content)| < 100
  }

  /** `generate_topic_content(topic, description, difficulty)`. */
  function TopicContentOf(w: Wording, model: Model, topic: string, description: Option<string>, difficulty: string): (r: string)
    ensures IsStripped(r)
  {
    var first := Reply(model, TopicPrompt(w, topic, description, difficulty), 1000);
    var content := if TooShort(first) then Reply(model, FallbackPrompt(w, topic, description, difficulty), 600) else first;
    if content != [] then Strip(content) else []
  }

  /**
   * The fallback prompt is sent exactly when the first reply is too short;
   * otherwise the result is the first reply stripped, at least 100
   * characters long. The fallback reply is taken as it comes, however short.
   */
  lemma TopicContentSpec(w: Wording, model: Model, topic: string, description: Option<string>, difficulty: string)
    ensures var first := Reply(model, TopicPrompt(w, topic, description, difficulty), 1000);
            var r := TopicContentOf(w, model, topic, description, difficulty);
            (!TooShort(first) ==> r == Strip(first) && |r| >= 100) &&
            (TooShort(first) ==> r == Strip(Reply(model, FallbackPrompt(w, topic, description, difficulty), 600)))
  {
    assert Strip([]) == [];
  }

  // ---------------------------------------------------------------------
  // Cutting fields out of a summary

  /** `s.split(marker)[1]`, which raises `IndexError` when `marker` does not occur. */
  function SecondPiece(s: string, marker: string): (r: Outcome<string>)
    requires marker != []
    ensures r.Ok? <==> Contains(s, marker)
  {
    var ps := Split(s, marker);
    SplitHasSecond(s, marker);
    if |ps| >= 2 then Ok(ps[1]) else Raised
  }

  /** `p.split("\n")[0]`. */
  function FirstLine(p: string): (r: string)
    ensures !Contains(r, "\n")
  {
    Split(p, "\n")[0]
  }

  /** Where the text after the first `marker` in `s` begins. */
  function AfterMarker(s: string, marker: string): int {
    Find(s, marker) + |marker|
  }

  /**
   * `p` is the text right after the first `marker` in `s`, up to the next
   * newline, the next `marker` or the end, whichever comes first.
   */
  predicate LineAfter(s: string, marker: string, p: string) {
    LineAt(s, AfterMarker(s, marker), marker, p)
  }

  /** `p` is the text of `s` from `k` up to the next newline, the next `marker` or the end. */
  predicate LineAt(s: string, k: int, marker: string, p: string) {
    0 <= k && k + |p| <= |s| && s[k..k + |p|] == p
    && !Contains(p, "\n") && !Contains(p, marker)
    && (k + |p| == |s| || s[k + |p|] == '\n' || OccursAt(s, marker, k + |p|))
  }

  /** An occurrence in a suffix of `s` is an occurrence in `s`. */
  lemma OccursInSuffix(s: string, k: int, t: string, i: int)
    requires 0 <= k <= |s| && OccursAt(s[k..], t, i)
    ensures OccursAt(s, t, k + i)
  {
    assert s[k + i..k + i + |t|] == s[k..][i..i + |t|];
  }

  /** A prefix of a text without `t` has no `t` either. */
  lemma PrefixAvoids(s: string, n: int, t: string)
    requires 0 <= n <= |s| && !Contains(s, t)
    ensures !Contains(s[..n], t)
  {
    forall j | OccursAt(s[..n], t, j) ensures false {
      OccursInSlice(s, t, 0, n, j);
    }
  }

  /** The first piece of a split is the text up to the first separator, or all of it. */
  lemma FirstPiece(t: string, sep: string)
    requires sep != []
    ensures var q := Split(t, sep)[0];
            q == t[..|q|] && !Contains(q, sep) && (|q| == |t| || OccursAt(t, sep, |q|))
  {
    SplitFirst(t, sep);
  }

  /**
   * A prefix of `s[k..]` that stops at the first `marker`, cut again at its
   * first newline, is the line of `s` from `k`.
   */
  lemma LineOfPieces(s: string, k: int, marker: string, piece: string, p: string)
    requires 0 <= k <= |s|
    requires |piece| <= |s| - k && piece == s[k..][..|piece|] && !Contains(piece, marker)
    requires |piece| == |s| - k || OccursAt(s[k..], marker, |piece|)
    requires |p| <= |piece| && p == piece[..|p|] && !Contains(p, "\n")
    requires |p| == |piece| || OccursAt(piece, "\n", |p|)
    ensures LineAt(s, k, marker, p)
  {
    var after := s[k..];
    var n := |p|;
    assert p == after[..n];
    assert s[k..k + n] == p;
    PrefixAvoids(piece, n, marker);
    if n < |piece| {
      assert piece[n..n + 1][0] == piece[n] == after[n] == s[k + n];
    } else if n < |after| {
      OccursInSuffix(s, k, marker, n);
    }
  }

  /** Cutting at the first `marker` and then at the first newline yields the line after the marker. */
  lemma PieceSpec(s: string, marker: string)
    requires marker != [] && Contains(s, marker)
    ensures SecondPiece(s, marker).Ok? && LineAfter(s, marker, FirstLine(SecondPiece(s, marker).value))
  {
    var k := AfterMarker(s, marker);
    var after := s[k..];
    assert Split(s, marker)[1] == Split(after, marker)[0];
    var piece := Split(after, marker)[0];
    assert SecondPiece(s, marker) == Ok(piece);
    FirstPiece(after, marker);
    FirstPiece(piece, "\n");
    LineOfPieces(s, k, marker, piece, FirstLine(piece));
  }

  /**
   * The extractors other than the main theme look for a lower-case marker in
   * the lower-cased summary but split the summary itself, so a summary that
   * spells the marker with capitals is treated as one without it (the
   * `IndexError` is caught and the default is used).
   */
  function Marked(s: string, marker: string): (r: Option<string>)
    requires marker != []
  {
    if Contains(Lower(s), marker) then
      match SecondPiece(s, marker)
      case Ok(piece) => Some(FirstLine(piece))
      case Raised => None
    else None
  }

  /** A marker without capitals occurs in the lower-cased text wherever it occurs in the text. */
  lemma LowerKeepsMarker(s: string, marker: string, i: int)
    requires forall j :: 0 <= j < |marker| ==> !IsUpperAscii(marker[j])
    requires OccursAt(s, marker, i)
    ensures OccursAt(Lower(s), marker, i)
  {
    var l := Lower(s);
    forall j | 0 <= j < |marker| ensures l[i..i + |marker|][j] == marker[j] {
      assert s[i..i + |marker|][j] == s[i + j];
    }
  }

  /**
   * For a marker without capitals the lower-case test decides nothing: the
   * field is found exactly when the summary holds the marker as written, and
   * it is then the line after the marker.
   */
  lemma MarkedSpec(s: string, marker: string)
    requires marker != []
    requires forall j :: 0 <= j < |marker| ==> !IsUpperAscii(marker[j])
    ensures Marked(s, marker).Some? <==> Contains(s, marker)
    ensures Marked(s, marker).Some? ==> LineAfter(s, marker, Marked(s, marker).value)
  {
    if Contains(s, marker) {
      var i :| 0 <= i <= |s| && OccursAt(s, marker, i);
      LowerKeepsMarker(s, marker, i);
      assert Contains(Lower(s), marker);
      PieceSpec(s, marker);
    }
  }

  /** `[x.strip() for x in section.split(",") if x.strip()]`. */
  function CommaItems(section: string): (r: seq<string>)
    ensures forall i :: 0 <= i < |r| ==> r[i] != [] && IsStripped(r[i])
  {
    StrippedLonger(Split(section, ","), 0)
  }

  const ThemeColon := "Main theme:"
  const Theme := "Main theme"
  const DefaultTheme := "Educational content"
  const ObjectivesMarker := "learning objectives:"
  const DefaultObjective := "Learn about the topic"
  const DifficultyMarker := "difficulty"
  const DefaultDifficulty := "Moderate"
  const StudyTimeMarker := "study time"
  const DefaultStudyTime := "15-30 minutes"
  const PrerequisitesMarker := "prerequisites"

  /** `_extract_main_theme(summary)`: the first marker checked is the one with the colon. */
  function MainTheme(summary: string): (r: string)
    ensures IsStripped(r)
  {
    if Contains(summary, ThemeColon) then
      match SecondPiece(summary, ThemeColon)
      case Ok(piece) => Strip(FirstLine(piece))
      case Raised => DefaultTheme
    else if Contains(summary, Theme) then
      match SecondPiece(summary, Theme)
      case Ok(piece) => Strip(FirstLine(piece))
      case Raised => DefaultTheme
    else DefaultTheme
  }

  /**
   * The main theme is the stripped line after the first `Main theme:`, else
   * after the first `Main theme`, else the default.
   */
  lemma MainThemeSpec(summary: string)
    ensures Contains(summary, ThemeColon) ==>
      exists p :: LineAfter(summary, ThemeColon, p) && MainTheme(summary) == Strip(p)
    ensures !Contains(summary, ThemeColon) && Contains(summary, Theme) ==>
      exists p :: LineAfter(summary, Theme, p) && MainTheme(summary) == Strip(p)
    ensures !Contains(summary, Theme) ==> !Contains(summary, ThemeColon) && MainTheme(summary) == DefaultTheme
  {
    assert ThemeColon[..|Theme|] == Theme;
    ContainsShorter(summary, ThemeColon, Theme);
    if Contains(summary, ThemeColon) {
      PieceSpec(summary, ThemeColon);
      var piece := SecondPiece(summary, ThemeColon).value;
      assert MainTheme(summary) == Strip(FirstLine(piece));
      assert LineAfter(summary, ThemeColon, FirstLine(piece));
    } else if Contains(summary, Theme) {
      PieceSpec(summary, Theme);
      var piece := SecondPiece(summary, Theme).value;
      assert MainTheme(summary) == Strip(FirstLine(piece));
      assert LineAfter(summary, Theme, FirstLine(piece));
    }
  }

  /** A text holding `long` holds every prefix of it. */
  lemma ContainsShorter(s: string, long: string, short: string)
    requires |short| <= |long| && long[..|short|] == short
    ensures Contains(s, long) ==> Contains(s, short)
  {
    if Contains(s, long) {
      var i :| 0 <= i <= |s| && OccursAt(s, long, i);
      assert s[i..i + |short|] == s[i..i + |long|][..|short|];
      assert OccursAt(s, short, i);
    }
  }

  /** `_extract_learning_objectives(summary)`. */
  function LearningObjectives(summary: string): (r: seq<string>)
    ensures forall i :: 0 <= i < |r| ==> r[i] != [] && IsStripped(r[i])
  {
    match Marked(summary, ObjectivesMarker)
    case Some(section) => CommaItems(section)
    case None => [DefaultObjective]
  }

  /** `_extract_difficulty_assessment(summary)`. */
  function DifficultyAssessment(summary: string): (r: string)
    ensures IsStripped(r)
  {
    match Marked(summary, DifficultyMarker)
    case Some(section) => Strip(section)
    case None => DefaultDifficulty
  }

  /** `_extract_study_time(summary)`. */
  function StudyTime(summary: string): (r: string)
    ensures IsStripped(r)
  {
    match Marked(summary, StudyTimeMarker)
    case Some(section) => Strip(section)
    case None => DefaultStudyTime
  }

  /** `_extract_prerequisites(summary)`. */
  function Prerequisites(summary: string): (r: seq<string>)
    ensures forall i :: 0 <= i < |r| ==> r[i] != [] && IsStripped(r[i])
  {
    match Marked(summary, PrerequisitesMarker)
    case Some(section) => CommaItems(section)
    case None => []
  }

  /**
   * The list extractors: a summary without the lower-case marker as written
   * (`Learning objectives:` alone, say) gives the default, and one with it
   * gives the comma-separated items of the line after it.
   */
  lemma ListExtractorsSpec(summary: string)
    ensures !Contains(summary, ObjectivesMarker) ==> LearningObjectives(summary) == [DefaultObjective]
    ensures Contains(summary, ObjectivesMarker) ==>
      exists p :: LineAfter(summary, ObjectivesMarker, p) && LearningObjectives(summary) == CommaItems(p)
    ensures !Contains(summary, PrerequisitesMarker) ==> Prerequisites(summary) == []
    ensures Contains(summary, PrerequisitesMarker) ==>
      exists p :: LineAfter(summary, PrerequisitesMarker, p) && Prerequisites(summary) == CommaItems(p)
  {
    MarkedSpec(summary, ObjectivesMarker);
    MarkedSpec(summary, PrerequisitesMarker);
    if Contains(summary, ObjectivesMarker) {
      assert LineAfter(summary, ObjectivesMarker, Marked(summary, ObjectivesMarker).value);
    }
    if Contains(summary, PrerequisitesMarker) {
      assert LineAfter(summary, PrerequisitesMarker, Marked(summary, PrerequisitesMarker).value);
    }
  }

  /** The text extractors: the stripped line after the marker, or the default. */
  lemma TextExtractorsSpec(summary: string)
    ensures !Contains(summary, DifficultyMarker) ==> DifficultyAssessment(summary) == DefaultDifficulty
    ensures Contains(summary, DifficultyMarker) ==>
      exists p :: LineAfter(summary, DifficultyMarker, p) && DifficultyAssessment(summary) == Strip(p)
    ensures !Contains(summary, StudyTimeMarker) ==> StudyTime(summary) == DefaultStudyTime
    ensures Contains(summary, StudyTimeMarker) ==>
      exists p :: LineAfter(summary, StudyTimeMarker, p) && StudyTime(summary) == Strip(p)
  {
    MarkedSpec(summary, DifficultyMarker);
    MarkedSpec(summary, StudyTimeMarker);
    if Contains(summary, DifficultyMarker) {
      assert LineAfter(summary, DifficultyMarker, Marked(summary, DifficultyMarker).value);
    }
    if Contains(summary, StudyTimeMarker) {
      assert LineAfter(summary, StudyTimeMarker, Marked(summary, StudyTimeMarker).value);
    }
  }

  // ---------------------------------------------------------------------
  // Comma-separated items

  /** An item that survives the comma split unchanged. */
  predicate Item(x: string) {
    x != [] && IsStripped(x) && ',' !in x
  }

  /** A comma-free prefix joins the first piece of the split. */
  lemma SplitWithPrefix(p: string, t: string)
    requires ',' !in p
    ensures Split(p + t, ",") == [p + Split(t, ",")[0]] + Split(t, ",")[1..]
  {
    if ',' in t {
      PrefixBeforeComma(p, t);
    } else {
      PrefixNoComma(p, t);
    }
  }

  lemma PrefixNoComma(p: string, t: string)
    requires ',' !in p && ',' !in t
    ensures Split(p + t, ",") == [p + Split(t, ",")[0]] + Split(t, ",")[1..]
  {
    var s := p + t;
    FindOne(s, ',');
    FindOne(t, ',');
    FindCharShift(p, t, ',');
    assert Split(t, ",") == [t];
    assert Split(s, ",") == [s];
  }

  lemma PrefixBeforeComma(p: string, t: string)
    requires ',' !in p && ',' in t
    ensures Split(p + t, ",") == [p + Split(t, ",")[0]] + Split(t, ",")[1..]
  {
    var s := p + t;
    SplitAtChar(t, ',');
    var g := FindChar(t, ',');
    FindCharShift(p, t, ',');
    SplitAtChar(s, ',');
    var f := FindChar(s, ',');
    assert f == |p| + g;
    SliceConcat(p, t, g);
    assert s[..f] == p + t[..g];
    assert s[f + 1..] == t[g + 1..];
    PrefixHead(p, t[..g], Split(t, ","), Split(s, ","), Split(t[g + 1..], ","));
  }

  lemma PrefixHead(p: string, h: string, st: seq<string>, ss: seq<string>, tail: seq<string>)
    requires st == [h] + tail && ss == [p + h] + tail
    ensures ss == [p + st[0]] + st[1..]
  {
    assert st[0] == h && st[1..] == tail;
  }

  /** Leading blanks do not survive `strip`. */
  lemma StripAfterSpace(h: string)
    ensures Strip(" " + h) == Strip(h)
  {
    var s := " " + h;
    assert LeadingSpaces(s) == 1 + LeadingSpaces(h) by {
      assert IsSpace(' ');
      assert s[1..] == h;
    }
    assert s[LeadingSpaces(s)..] == h[LeadingSpaces(h)..];
  }

  /** Items listed with `", "` between them are read back as they were. */
  lemma {:induction false} CommaItemsOfJoin(xs: seq<string>)
    requires forall i :: 0 <= i < |xs| ==> Item(xs[i])
    ensures CommaItems(Join(", ", xs)) == xs
  {
    if xs == [] {
      assert Split([], ",") == [[]];
      assert Strip([]) == [];
    } else if |xs| == 1 {
      FindOne(xs[0], ',');
      assert Split(xs[0], ",") == [xs[0]];
      StripOfStripped(xs[0]);
    } else {
      var a, rest := xs[0], xs[1..];
      var ps := Split(Join(", ", rest), ",");
      CommaItemsOfJoin(rest);
      CommaSplitCons(xs);
      CommaStripCons(a, ps);
      assert xs == [a] + rest;
    }
  }

  /** Splitting a list joined with `", "` cuts off its first item, leaving a blank before the next. */
  lemma CommaSplitCons(xs: seq<string>)
    requires |xs| >= 2 && ',' !in xs[0]
    ensures var ps := Split(Join(", ", xs[1..]), ",");
            Split(Join(", ", xs), ",") == [xs[0]] + ([" " + ps[0]] + ps[1..])
  {
    var a, j := xs[0], Join(", ", xs[1..]);
    assert Join(", ", xs) == a + "," + (" " + j);
    SplitAfterHead(a, " " + j);
    SplitWithPrefix(" ", j);
  }

  /** The blank left before the second item does not survive `strip`. */
  lemma CommaStripCons(a: string, ps: seq<string>)
    requires Item(a) && ps != []
    ensures StrippedLonger([a] + ([" " + ps[0]] + ps[1..]), 0) == [a] + StrippedLonger(ps, 0)
  {
    var qs := [" " + ps[0]] + ps[1..];
    StrippedLongerCons(a, qs, 0);
    StrippedLongerCons(" " + ps[0], ps[1..], 0);
    StrippedLongerHead(ps, 0);
    StripAfterSpace(ps[0]);
    StripOfStripped(a);
  }

  // ---------------------------------------------------------------------
  // The summary record

  /** The dictionary `generate_topic_summary` returns. */
  datatype TopicSummary = TopicSummary(
    topic: string,
    mainTheme: string,
    learningObjectives: seq<string>,
    difficultyAssessment: string,
    estimatedStudyTime: string,
    prerequisites: seq<string>,
    contentLength: nat)

  /** The record of the exception path. */
  function DefaultSummary(topic: string, content: string): TopicSummary {
    TopicSummary(topic, DefaultTheme, [DefaultObjective], DefaultDifficulty, DefaultStudyTime, [], |content|)
  }

  /** `generate_topic_summary(topic, content)`. */
  function TopicSummaryOf(w: Wording, model: Model, topic: string, content: string): (r: TopicSummary)
    ensures r.topic == topic && r.contentLength == |content|
    ensures model(SummaryPrompt(w, topic, content), 300).Raised? ==> r == DefaultSummary(topic, content)
    ensures model(SummaryPrompt(w, topic, content), 300).Ok? ==>
      var s := model(SummaryPrompt(w, topic, content), 300).value;
      r.mainTheme == MainTheme(s) && r.learningObjectives == LearningObjectives(s)
      && r.difficultyAssessment == DifficultyAssessment(s) && r.estimatedStudyTime == StudyTime(s)
      && r.prerequisites == Prerequisites(s)
  {
    match model(SummaryPrompt(w, topic, content), 300)
    case Ok(s) =>
      TopicSummary(topic, MainTheme(s), LearningObjectives(s), DifficultyAssessment(s),
                   StudyTime(s), Prerequisites(s), |content|)
    case Raised => DefaultSummary(topic, content)
  }
}
