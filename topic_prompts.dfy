/**
 * The prompts the topic content generator sends to the text model: the
 * topic prompt with its optional context line, the shorter fallback prompt
 * and the summary prompt.
 */
module TopicPrompts {
  import opened Text
  import opened Wrappers

  // ---------------------------------------------------------------------
  // The topic prompt

  /**
   * The fixed texts of the three prompts, in the order they appear between
   * the inserted values. The functions below hold for any wording;
   * `SourceWording` is the one the generator uses.
   */
  datatype Wording = Wording(
    head0: string,
    head1: string,
    head2: string,
    head3: string,
    head4: string,
    head5: string,
    head6: string,
    tail0: string,
    tail1: string,
    fallback0: string,
    fallback1: string,
    fallback2: string,
    fallback3: string,
    summary0: string,
    summary1: string,
    summary2: string)

  const SourceWording := Wording(
    "Generate comprehensive educational content about the topic: ",
    "\n\nDifficulty Level: ",
    "\nFocus on: ",
    "\n\nPlease provide detailed, accurate, and educational information that covers:\n\n1. **Core Definition**: Clear explanation of what ",
    " is\n2. **Key Concepts**: Main ideas and principles related to ",
    "\n3. **Important Facts**: Essential information and details\n4. **Examples**: Concrete examples and real-world applications\n5. **Related Concepts**: Connections to other topics and fields\n6. **Practical Applications**: How this knowledge is used in practice\n7. **Common Misconceptions**: What people often get wrong about ",
    "\n8. **Historical Context**: When and how this topic developed (if applicable)\n\n",
    "Format the response as clear, structured educational content that can be used to create flashcards.\nMake sure the content is suitable for ",
    " level learners and covers the topic thoroughly.\nUse clear language and provide specific examples where possible.",
    "Create educational content about ",
    ".\n            \nDifficulty: ",
    "\n\nPlease provide:\n1. A clear definition of ",
    "\n2. Key points and concepts\n3. Examples and explanations\n4. Important facts to remember\n\nMake this content educational and suitable for creating flashcards.\nKeep it clear and structured.",
    "Given this content about ",
    ", create a structured summary:\n\nContent: ",
    "...\n\nPlease provide:\n1. Main theme or focus\n2. Key learning objectives\n3. Difficulty level assessment\n4. Estimated study time\n5. Prerequisites (if any)\n\nFormat as a clear, structured response.")


  const BeginnerGuide := "basic concepts, simple explanations, fundamental principles"
  const IntermediateGuide := "detailed concepts, examples, connections between ideas"
  const AdvancedGuide := "complex concepts, advanced theories, practical applications, research insights"

  /** The complexity guide of a difficulty; any other difficulty gets the beginner one. */
  function Complexity(difficulty: string): (r: string)
    ensures r in {BeginnerGuide, IntermediateGuide, AdvancedGuide}
  {
    if difficulty == "intermediate" then IntermediateGuide
    else if difficulty == "advanced" then AdvancedGuide
    else BeginnerGuide
  }

  /** An unknown difficulty is written into the prompt as itself but guided as a beginner one. */
  lemma UnknownDifficultyIsBeginner(difficulty: string)
    requires difficulty !in ["beginner", "intermediate", "advanced"]
    ensures Complexity(difficulty) == Complexity("beginner") == BeginnerGuide
  {
  }

  const ContextLabel := "Additional Context: "
  const ContextEnd := "\n\n"

  /** Python's truth value of an optional string: present and not empty. */
  predicate Truthy(description: Option<string>) {
    description.Some? && description.value != []
  }

  /** The prompt up to and including `Focus on: `. */
  function Intro(w: Wording, topic: string, difficulty: string): string {
    w.head0 + topic + w.head1 + Title(difficulty) + w.head2
  }

  /** The numbered list of what the content should cover. */
  function Outline(w: Wording, topic: string): string {
    w.head3 + topic + w.head4 + topic + w.head5 + topic + w.head6
  }

  /** The part of the prompt before the optional context line. */
  function PromptHead(w: Wording, topic: string, difficulty: string): string {
    Intro(w, topic, difficulty) + Complexity(difficulty) + Outline(w, topic)
  }

  /** The optional context line. */
  function ContextLine(description: Option<string>): (r: string)
    ensures r == [] <==> !Truthy(description)
  {
    if Truthy(description) then ContextLabel + description.value + ContextEnd else []
  }

  /** The part of the prompt after the optional context line. */
  function PromptTail(w: Wording, difficulty: string): string {
    w.tail0 + difficulty + w.tail1
  }

  /** `_create_topic_prompt(topic, description, difficulty)`. */
  function TopicPrompt(w: Wording, topic: string, description: Option<string>, difficulty: string): (r: string)
    ensures StartsWith(r, PromptHead(w, topic, difficulty)) && EndsWith(r, PromptTail(w, difficulty))
  {
    var head, line, tail := PromptHead(w, topic, difficulty), ContextLine(description), PromptTail(w, difficulty);
    Around(head, line, tail);
    head + line + tail
  }

  /** The outer parts of `h + m + t`. */
  lemma Around(h: string, m: string, t: string)
    ensures StartsWith(h + m + t, h) && EndsWith(h + m + t, t)
  {
    var s := h + m + t;
    assert s[..|h|] == h;
    assert s[|s| - |t|..] == t;
  }

  /** Splicing `m` into `h + t` at the seam. */
  lemma Splice(h: string, m: string, t: string)
    ensures |h| <= |h + t| && h + m + t == (h + t)[..|h|] + m + (h + t)[|h|..]
    ensures h + [] + t == h + t
  {
    assert (h + t)[..|h|] == h && (h + t)[|h|..] == t;
  }

  /**
   * A description only inserts its context line into the prompt: the prompt
   * with a truthy description is the prompt without one with
   * `Additional Context: <description>` and a blank line spliced in after
   * the head, and a falsy description changes nothing.
   */
  lemma PromptContext(w: Wording, topic: string, description: Option<string>, difficulty: string)
    ensures var bare := TopicPrompt(w, topic, None, difficulty);
            var k := |PromptHead(w, topic, difficulty)|;
            k <= |bare| &&
            TopicPrompt(w, topic, description, difficulty)
              == if Truthy(description) then bare[..k] + ContextLine(description) + bare[k..] else bare
    ensures Truthy(description) ==> ContextLine(description) == ContextLabel + description.value + ContextEnd
  {
    Splice(PromptHead(w, topic, difficulty), ContextLine(description), PromptTail(w, difficulty));
  }

  const ContextMarker := "Additional Context:"

  /** `marker` occurs in `h + m + t` where `m` begins. */
  lemma OccursAtSeam(h: string, m: string, t: string, marker: string)
    requires StartsWith(m, marker)
    ensures OccursAt(h + m + t, marker, |h|)
  {
    var s := h + m + t;
    assert s[|h|..|h| + |m|] == m;
    assert s[|h|..|h| + |marker|] == m[..|marker|];
  }

  /**
   * When the rest of the prompt does not spell the marker itself (through the
   * topic or the difficulty), the prompt holds `Additional Context:` exactly
   * when the description is truthy.
   */
  lemma PromptHasContextIff(w: Wording, topic: string, description: Option<string>, difficulty: string)
    requires !Contains(TopicPrompt(w, topic, None, difficulty), ContextMarker)
    ensures Contains(TopicPrompt(w, topic, description, difficulty), ContextMarker) <==> Truthy(description)
  {
    Splice(PromptHead(w, topic, difficulty), ContextLine(description), PromptTail(w, difficulty));
    if Truthy(description) {
      var line := ContextLine(description);
      assert StartsWith(line, ContextMarker) by {
        assert line[..|ContextLabel|] == ContextLabel;
        assert ContextLabel[..|ContextMarker|] == ContextMarker;
      }
      OccursAtSeam(PromptHead(w, topic, difficulty), line, PromptTail(w, difficulty), ContextMarker);
    }
  }

  /** `c` occurs where it was appended, whatever follows. */
  lemma OccursAfterIntro(a: string, c: string, b: string, d: string, e: string)
    ensures OccursAt(a + c + b + d + e, c, |a|)
  {
    var s := a + c + b + d + e;
    assert s[|a|..|a| + |c|] == c;
  }

  /** The "Focus on" line of the prompt names the difficulty's complexity guide. */
  lemma PromptFocus(w: Wording, topic: string, description: Option<string>, difficulty: string)
    ensures EndsWith(Intro(w, topic, difficulty), w.head2)
    ensures OccursAt(TopicPrompt(w, topic, description, difficulty), Complexity(difficulty), |Intro(w, topic, difficulty)|)
  {
    var i := Intro(w, topic, difficulty);
    Around(w.head0 + topic + w.head1 + Title(difficulty), [], w.head2);
    OccursAfterIntro(i, Complexity(difficulty), Outline(w, topic), ContextLine(description), PromptTail(w, difficulty));
  }

  // ---------------------------------------------------------------------
  // The fallback prompt

  const FallbackContext := "\n\nAdditional context: "

  /**
   * The prompt of `_generate_fallback_content`: it opens by naming the
   * topic and the difficulty, names the topic again in the line asking for
   * its definition, and ends with the description exactly when there is
   * one.
   */
  function FallbackPrompt(w: Wording, topic: string, description: Option<string>, difficulty: string): (r: string)
    ensures StartsWith(r, w.fallback0 + topic + w.fallback1 + difficulty)
    ensures OccursAt(r, topic, |w.fallback0 + topic + w.fallback1 + difficulty + w.fallback2|)
    ensures Truthy(description) ==> EndsWith(r, FallbackContext + description.value)
    ensures !Truthy(description) ==> EndsWith(r, w.fallback3)
  {
    var bare := w.fallback0 + topic + w.fallback1 + difficulty + w.fallback2 + topic + w.fallback3;
    if Truthy(description) then bare + FallbackContext + description.value else bare
  }

  /** A truthy description ends the fallback prompt; a falsy one leaves it as without one. */
  lemma FallbackPromptContext(w: Wording, topic: string, description: Option<string>, difficulty: string)
    ensures Truthy(description) ==>
      EndsWith(FallbackPrompt(w, topic, description, difficulty), FallbackContext + description.value)
    ensures !Truthy(description) ==>
      FallbackPrompt(w, topic, description, difficulty) == FallbackPrompt(w, topic, None, difficulty)
  {
    var bare := FallbackPrompt(w, topic, None, difficulty);
    if Truthy(description) {
      var r := FallbackPrompt(w, topic, description, difficulty);
      assert r == bare + (FallbackContext + description.value);
    }
  }

  // ---------------------------------------------------------------------
  // The summary prompt


  /** The summary prompt quotes at most the first 500 characters of the content. */
  function SummaryPrompt(w: Wording, topic: string, content: string): (r: string)
    ensures |r| <= |w.summary0 + w.summary1 + w.summary2| + |topic| + 500
  {
    w.summary0 + topic + w.summary1 + Take(content, 500) + w.summary2
  }

  /**
   * What the summary prompt quotes: right after the topic and `summary1`
   * come the first `min(500, len(content))` characters of the content, and
   * then `summary2` closes the prompt.
   */
  lemma SummaryPromptQuotes(w: Wording, topic: string, content: string)
    ensures |SummaryPrompt(w, topic, content)|
      == |w.summary0| + |topic| + |w.summary1| + Min(500, |content|) + |w.summary2|
    ensures SummaryPrompt(w, topic, content)[|w.summary0|..][..|topic|] == topic
    ensures SummaryPrompt(w, topic, content)[|w.summary0| + |topic|..][..|w.summary1|] == w.summary1
    ensures SummaryPrompt(w, topic, content)[|w.summary0| + |topic| + |w.summary1|..][..Min(500, |content|)]
      == content[..Min(500, |content|)]
    ensures SummaryPrompt(w, topic, content)[|SummaryPrompt(w, topic, content)| - |w.summary2|..] == w.summary2
  {
    var q := Take(content, 500);
    var r := SummaryPrompt(w, topic, content);
    assert r == w.summary0 + topic + w.summary1 + q + w.summary2;
    assert q == content[..Min(500, |content|)];
  }
}
