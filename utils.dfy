/**
 * The helpers of app/utils.py that the generators and routes share:
 * splitting a text into chunks of whole sentences, and checking the
 * language and difficulty a request names. (`clean_text` is modelled in
 * the Cleaning module and `extract_key_concepts` in the Concepts module.)
 */
module Utils {
  import opened Text

  // ---------------------------------------------------------------------
  // `split_text_into_chunks`

  /** The glue between the sentences of a chunk. */
  const Sep := ". "

  /** The default `max_chunk_length`. */
  const DefaultChunkLength := 600

  /** The sentences a group holds, glued with ". " (`current_chunk` while that group is being filled). */
  function Glued(g: seq<string>): string {
    Join(Sep, g)
  }

  lemma {:induction false} JoinSnoc(g: seq<string>, s: string)
    requires g != []
    ensures Join(Sep, g + [s]) == Join(Sep, g) + Sep + s
    decreases |g|
  {
    if |g| == 1 {
      assert g + [s] == [g[0]] + [s];
    } else {
      JoinSnoc(g[1..], s);
      assert (g + [s])[1..] == g[1..] + [s];
      JoinSingle(Sep, g[0], g[1..] + [s]);
    }
  }

  /** The sentences seen so far, split into finished groups and the group being filled. */
  datatype Grouping = Grouping(done: seq<seq<string>>, current: seq<string>)

  /**
   * One turn of the loop: a sentence that would make the current chunk
   * longer than `max` (the ". " glue not counted) closes the current
   * group, if any, and starts a new one; otherwise it joins the current group.
   */
  function Place(g: Grouping, s: string, max: int): Grouping {
    if |Glued(g.current)| + |s| > max then
      Grouping(if g.current == [] then g.done else g.done + [g.current], [s])
    else Grouping(g.done, g.current + [s])
  }

  /** The grouping after the loop has seen `ss`. */
  function GroupAfter(ss: seq<string>, max: int): Grouping
    decreases |ss|
  {
    if ss == [] then Grouping([], []) else Place(GroupAfter(ss[..|ss| - 1], max), ss[|ss| - 1], max)
  }

  /** The finished groups and, after the loop, the current group if it holds anything. */
  function Closed(g: Grouping): seq<seq<string>> {
    if g.current == [] then g.done else g.done + [g.current]
  }

  /** The groups of sentences that make up the chunks. */
  function ChunkGroups(ss: seq<string>, max: int): seq<seq<string>> {
    Closed(GroupAfter(ss, max))
  }

  /** The sentences of the groups, one group after another. */
  function Flatten(gs: seq<seq<string>>): seq<string>
    decreases |gs|
  {
    if gs == [] then [] else Flatten(gs[..|gs| - 1]) + gs[|gs| - 1]
  }

  /** Each sentence after the first was added while the chunk and it fitted in `max`. */
  predicate Fits(g: seq<string>, max: int) {
    forall j :: 1 <= j < |g| ==> |Glued(g[..j])| + |g[j]| <= max
  }

  /** The next group's first sentence did not fit after group `a`. */
  predicate Breaks(a: seq<string>, b: seq<string>, max: int) {
    b != [] && |Glued(a)| + |b[0]| > max
  }

  /** No group is empty, each was filled greedily, and each next one starts with a sentence that did not fit. */
  predicate Greedy(gs: seq<seq<string>>, max: int) {
    && (forall k :: 0 <= k < |gs| ==> gs[k] != [] && Fits(gs[k], max))
    && (forall k :: 1 <= k < |gs| ==> Breaks(gs[k - 1], gs[k], max))
  }

  lemma FlattenSnoc(gs: seq<seq<string>>, g: seq<string>)
    ensures Flatten(gs + [g]) == Flatten(gs) + g
  {
    assert (gs + [g])[..|gs|] == gs;
  }

  lemma FitsSnoc(g: seq<string>, s: string, max: int)
    requires Fits(g, max)
    requires g != [] ==> |Glued(g)| + |s| <= max
    ensures Fits(g + [s], max)
  {
    var h := g + [s];
    forall j | 1 <= j < |h| ensures |Glued(h[..j])| + |h[j]| <= max {
      if j < |g| {
        assert h[..j] == g[..j];
      } else {
        assert h[..j] == g;
      }
    }
  }

  /** A sentence that does not fit after the last group starts a group of its own. */
  lemma GreedyBreak(gs: seq<seq<string>>, s: string, max: int)
    requires Greedy(gs, max)
    requires gs != [] ==> |Glued(gs[|gs| - 1])| + |s| > max
    ensures Greedy(gs + [[s]], max)
  {
    var h := gs + [[s]];
    assert Fits([s], max);
    forall k | 0 <= k < |h| ensures h[k] != [] && Fits(h[k], max) {
      if k < |gs| { assert h[k] == gs[k]; }
    }
    forall k | 1 <= k < |h| ensures Breaks(h[k - 1], h[k], max) {
      if k < |gs| { assert h[k - 1] == gs[k - 1] && h[k] == gs[k]; }
    }
  }

  /** A sentence that fits joins the last group. */
  lemma GreedyFit(done: seq<seq<string>>, cur: seq<string>, s: string, max: int)
    requires Greedy(done + [cur], max)
    requires |Glued(cur)| + |s| <= max
    ensures Greedy(done + [cur + [s]], max)
  {
    var gs := done + [cur];
    var h := done + [cur + [s]];
    assert gs[|done|] == cur;
    FitsSnoc(cur, s, max);
    forall k | 0 <= k < |h| ensures h[k] != [] && Fits(h[k], max) {
      if k < |done| { assert h[k] == gs[k]; }
    }
    forall k | 1 <= k < |h| ensures Breaks(h[k - 1], h[k], max) {
      if k < |done| {
        assert h[k - 1] == gs[k - 1] && h[k] == gs[k];
      } else {
        assert h[k - 1] == gs[k - 1];
        assert Breaks(gs[k - 1], gs[k], max);
      }
    }
  }

  /** The current group is empty only before the first sentence, and so are the finished ones. */
  lemma GroupAfterShape(ss: seq<string>, max: int)
    ensures GroupAfter(ss, max).current == [] <==> ss == []
    ensures ss == [] ==> GroupAfter(ss, max).done == []
  {
  }

  /** Placing a sentence adds it at the end of the closed groups' sentences. */
  lemma PlaceFlatten(g: Grouping, s: string, max: int)
    ensures Flatten(Closed(Place(g, s, max))) == Flatten(Closed(g)) + [s]
  {
    if |Glued(g.current)| + |s| > max || g.current == [] {
      assert g.current == [] ==> g.current + [s] == [s];
      assert Closed(Place(g, s, max)) == Closed(g) + [[s]];
      FlattenSnoc(Closed(g), [s]);
    } else {
      FlattenSnoc(g.done, g.current);
      FlattenSnoc(g.done, g.current + [s]);
    }
  }

  /** The loop's invariant, as the grouping: the groups hold the sentences seen, in order. */
  lemma {:induction false} GroupAfterSpec(ss: seq<string>, max: int)
    ensures Flatten(Closed(GroupAfter(ss, max))) == ss
    decreases |ss|
  {
    if ss != [] {
      var init := ss[..|ss| - 1];
      assert init + [ss[|ss| - 1]] == ss;
      GroupAfterSpec(init, max);
      PlaceFlatten(GroupAfter(init, max), ss[|ss| - 1], max);
    }
  }

  /** The groups are greedy. */
  lemma {:induction false} GroupAfterGreedy(ss: seq<string>, max: int)
    ensures Greedy(Closed(GroupAfter(ss, max)), max)
    decreases |ss|
  {
    if ss != [] {
      var init := ss[..|ss| - 1];
      var s := ss[|ss| - 1];
      GroupAfterGreedy(init, max);
      var g := GroupAfter(init, max);
      if |Glued(g.current)| + |s| > max {
        assert Closed(GroupAfter(ss, max)) == Closed(g) + [[s]];
        GreedyBreak(Closed(g), s, max);
      } else if g.current != [] {
        assert Closed(GroupAfter(ss, max)) == g.done + [g.current + [s]];
        GreedyFit(g.done, g.current, s, max);
      } else {
        GroupAfterShape(init, max);
        assert g.current + [s] == [s];
        assert Closed(GroupAfter(ss, max)) == [] + [[s]];
        GreedyBreak([], s, max);
      }
    }
  }

  /** `[". ".join(g) for g in gs]`. */
  function GluedAll(gs: seq<seq<string>>): (r: seq<string>)
    ensures |r| == |gs| && forall k :: 0 <= k < |gs| ==> r[k] == Glued(gs[k])
  {
    seq(|gs|, k requires 0 <= k < |gs| => Glued(gs[k]))
  }

  /**
   * `split_text_into_chunks(text, max_chunk_length)`: the stripped
   * '.'-pieces longer than 30 characters, in greedy groups, each group
   * glued with ". ".
   */
  function Chunks(text: string, max: int): seq<string> {
    GluedAll(ChunkGroups(Sentences(text, 30), max))
  }

  /** The glue of stripped non-empty sentences is non-empty and stripped, so `strip()` leaves it alone. */
  lemma {:induction false} GluedStripped(g: seq<string>)
    requires g != []
    requires forall i :: 0 <= i < |g| ==> g[i] != [] && IsStripped(g[i])
    ensures Glued(g) != [] && IsStripped(Glued(g))
    ensures Glued(g)[0] == g[0][0]
    decreases |g|
  {
    if |g| > 1 {
      var init := g[..|g| - 1];
      var s := g[|g| - 1];
      GluedStripped(init);
      assert g == init + [s];
      JoinSnoc(init, s);
    }
  }

  /**
   * Every chunk sentence is in exactly one chunk, in order: the chunks
   * are the groups glued with ". ", and the groups, one after another,
   * are the sentences. No chunk is empty.
   */
  lemma ChunksSpec(text: string, max: int)
    ensures |Chunks(text, max)| == |ChunkGroups(Sentences(text, 30), max)|
    ensures Flatten(ChunkGroups(Sentences(text, 30), max)) == Sentences(text, 30)
    ensures Greedy(ChunkGroups(Sentences(text, 30), max), max)
    ensures forall k :: 0 <= k < |Chunks(text, max)| ==>
      Chunks(text, max)[k] == Glued(ChunkGroups(Sentences(text, 30), max)[k]) && Chunks(text, max)[k] != []
  {
    var ss := Sentences(text, 30);
    var gs := ChunkGroups(ss, max);
    GroupAfterSpec(ss, max);
    GroupAfterGreedy(ss, max);
    forall k | 0 <= k < |gs| ensures Glued(gs[k]) != [] {
      forall i | 0 <= i < |gs[k]| ensures gs[k][i] != [] && IsStripped(gs[k][i]) {
        InFlatten(gs, k, i);
      }
      GluedStripped(gs[k]);
    }
  }

  /** A sentence of a group is one of the flattened sentences. */
  lemma {:induction false} InFlatten(gs: seq<seq<string>>, k: nat, i: nat)
    requires k < |gs| && i < |gs[k]|
    ensures gs[k][i] in Flatten(gs)
    decreases |gs|
  {
    var n := |gs| - 1;
    if k < n {
      InFlatten(gs[..n], k, i);
    }
  }

  /** A chunk of two or more sentences is at most `max + 2` long: only the last ". " can go beyond `max`. */
  lemma ChunkLength(g: seq<string>, max: int)
    requires |g| >= 2 && Fits(g, max)
    ensures |Glued(g)| <= max + 2
  {
    var n := |g| - 1;
    assert g[..n] + [g[n]] == g;
    JoinSnoc(g[..n], g[n]);
  }

  /** Every chunk is at most `max + 2` long, unless it is one sentence on its own. */
  lemma ChunksBounded(text: string, max: int)
    ensures forall k :: 0 <= k < |Chunks(text, max)| ==>
      |Chunks(text, max)[k]| <= max + 2 || ChunkGroups(Sentences(text, 30), max)[k] == [Chunks(text, max)[k]]
  {
    var gs := ChunkGroups(Sentences(text, 30), max);
    GroupAfterGreedy(Sentences(text, 30), max);
    forall k | 0 <= k < |gs| ensures |Glued(gs[k])| <= max + 2 || gs[k] == [Glued(gs[k])] {
      if |gs[k]| >= 2 {
        ChunkLength(gs[k], max);
      }
    }
  }

  /** Non-empty stripped texts, as the chunk sentences are. */
  predicate Solid(xs: seq<string>) {
    forall j :: 0 <= j < |xs| ==> xs[j] != [] && IsStripped(xs[j])
  }

  /**
   * One turn of the loop of `split_text_into_chunks`, with `g` the
   * grouping the chunks so far and `current` stand for.
   */
  method ChunkStep(sentence: string, max: int, chunks: seq<string>, current: string, ghost g: Grouping)
    returns (chunks': seq<string>, current': string, ghost g': Grouping)
    requires sentence != [] && IsStripped(sentence) && Solid(g.current)
    requires chunks == GluedAll(g.done) && current == Glued(g.current)
    ensures g' == Place(g, sentence, max) && Solid(g'.current)
    ensures chunks' == GluedAll(g'.done) && current' == Glued(g'.current)
  {
    if g.current != [] {
      GluedStripped(g.current);
    }
    if |current + sentence| > max {
      chunks' := chunks;
      if current != [] {
        StripOfStripped(current);
        chunks' := chunks + [Strip(current)];
      }
      current' := sentence;
      g' := Grouping(if g.current == [] then g.done else g.done + [g.current], [sentence]);
    } else {
      if g.current != [] {
        JoinSnoc(g.current, sentence);
      }
      chunks' := chunks;
      current' := if current != [] then current + Sep + sentence else sentence;
      g' := Grouping(g.done, g.current + [sentence]);
    }
  }

  /** The loop of `split_text_into_chunks` and the last `if current_chunk:` append. */
  method ChunkSentences(sentences: seq<string>, max: int) returns (chunks: seq<string>)
    requires Solid(sentences)
    ensures chunks == GluedAll(ChunkGroups(sentences, max))
  {
    chunks := [];
    var current := "";
    var i := 0;
    ghost var g := Grouping([], []);
    while i < |sentences|
      invariant 0 <= i <= |sentences|
      invariant g == GroupAfter(sentences[..i], max) && Solid(g.current)
      invariant chunks == GluedAll(g.done) && current == Glued(g.current)
    {
      assert sentences[..i + 1] == sentences[..i] + [sentences[i]];
      assert sentences[..i + 1][..i] == sentences[..i];
      chunks, current, g := ChunkStep(sentences[i], max, chunks, current, g);
      i := i + 1;
    }
    assert sentences[..i] == sentences;
    if current != [] {
      GluedStripped(g.current);
      StripOfStripped(current);
      chunks := chunks + [Strip(current)];
    }
  }

  /** `split_text_into_chunks`. */
  method SplitTextIntoChunks(text: string, max: int) returns (chunks: seq<string>)
    ensures chunks == Chunks(text, max)
  {
    var sentences := Sentences(text, 30);
    chunks := ChunkSentences(sentences, max);
  }

  // ---------------------------------------------------------------------
  // Request checks

  /** The languages the service accepts. */
  const Languages: seq<string> := ["en", "si", "ta"]

  /** The difficulty levels, the first being the default. */
  const Difficulties: seq<string> := ["beginner", "intermediate", "advanced"]

  /** `validate_language`: the language is one of en, si, ta. */
  function ValidateLanguage(language: string): (ok: bool)
    ensures ok <==> language == "en" || language == "si" || language == "ta"
  {
    language in Languages
  }

  /** `validate_difficulty`: a known level is kept, any other becomes "beginner". */
  function ValidateDifficulty(difficulty: string): (r: string)
    ensures r in Difficulties
    ensures difficulty in Difficulties ==> r == difficulty
    ensures difficulty !in Difficulties ==> r == "beginner"
  {
    if difficulty in Difficulties then difficulty else "beginner"
  }

  /** The file extensions the service reads (`SUPPORTED_FILE_TYPES`). */
  const SupportedFileTypes: seq<string> := ["pdf", "docx", "pptx"]

  /** `validate_file_type`: the lower-cased extension is pdf, docx or pptx. */
  function ValidateFileType(extension: string): (ok: bool)
    ensures ok <==> Lower(extension) == "pdf" || Lower(extension) == "docx" || Lower(extension) == "pptx"
  {
    Lower(extension) in SupportedFileTypes
  }

  /** Normalising twice is normalising once. */
  lemma ValidateDifficultyIdempotent(difficulty: string)
    ensures ValidateDifficulty(ValidateDifficulty(difficulty)) == ValidateDifficulty(difficulty)
  {
  }
}
