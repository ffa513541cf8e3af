/**
 * The layout every `_generate_rule_based_*` method of the document
 * generators follows: one item per leading key concept, then one per
 * long sentence, then a fixed filler item until `count` is reached, and
 * finally the list cut to `count`. The per-language item builders are
 * parameters, so the layout is stated once for quizzes, flashcards and
 * exercises.
 */
module RuleBased {
  import opened Text

  /** A phrase of a rule-based item: text around the concept or sentence, or fixed text. */
  datatype Template = Around(before: string, after: string) | Fixed(text: string)

  /** The phrase with `x` put in its place. */
  function Fill(t: Template, x: string): (r: string)
    ensures t.Around? ==> r == t.before + x + t.after
    ensures t.Fixed? ==> r == t.text
  {
    match t
    case Around(b, a) => b + x + a
    case Fixed(s) => s
  }

  /** `[f(x) for x in xs]`. */
  function Each<T>(xs: seq<string>, f: string -> T): (r: seq<T>)
    ensures |r| == |xs| && forall i :: 0 <= i < |r| ==> r[i] == f(xs[i])
  {
    seq(|xs|, i requires 0 <= i < |xs| => f(xs[i]))
  }

  /** `[f(i, x) for i, x in enumerate(xs)]`. */
  function EachIndexed<T>(xs: seq<string>, f: (nat, string) -> T): (r: seq<T>)
    ensures |r| == |xs| && forall i :: 0 <= i < |r| ==> r[i] == f(i, xs[i])
  {
    seq(|xs|, i requires 0 <= i < |xs| => f(i, xs[i]))
  }

  /** `n` copies of `x` (none when `n <= 0`). */
  function Repeat<T>(x: T, n: int): (r: seq<T>)
    ensures |r| == Max(n, 0) && forall i :: 0 <= i < |r| ==> r[i] == x
  {
    seq(Max(n, 0), i => x)
  }

  /**
   * The rule-based list: items for `concepts[:conceptCount]`, then for
   * `sentences[:sentenceCount]`, then `filler` for what is still missing,
   * cut to `count` (Python slices: a negative bound trims from the end).
   */
  function Layout<T>(concepts: seq<string>, conceptCount: int, sentences: seq<string>, sentenceCount: int, count: int,
                     concept: string -> T, sentence: (nat, string) -> T, filler: T): seq<T>
  {
    var a := Each(Take(concepts, conceptCount), concept);
    var b := EachIndexed(Take(sentences, sentenceCount), sentence);
    Take(a + b + Repeat(filler, count - |a| - |b|), count)
  }

  /**
   * For a non-negative count the layout has exactly `count` items; the
   * first ones are the concept items for `concepts[:conceptCount]` in
   * order, then the sentence items in order, then the filler; a property
   * every builder guarantees holds of every item.
   */
  lemma LayoutShape<T>(concepts: seq<string>, conceptCount: int, sentences: seq<string>, sentenceCount: int, count: int,
                       concept: string -> T, sentence: (nat, string) -> T, filler: T, good: T -> bool)
    requires forall c :: good(concept(c))
    requires forall i, s :: good(sentence(i, s))
    requires good(filler)
    ensures var r := Layout(concepts, conceptCount, sentences, sentenceCount, count, concept, sentence, filler);
            var nc := |Take(concepts, conceptCount)|;
            var ns := |Take(sentences, sentenceCount)|;
            (count >= 0 ==> |r| == count)
            && (forall i :: 0 <= i < |r| ==> good(r[i]))
            && (forall i :: 0 <= i < |r| && i < nc ==> r[i] == concept(concepts[i]))
            && (forall i :: nc <= i < |r| && i < nc + ns ==> r[i] == sentence(i - nc, sentences[i - nc]))
            && (forall i :: nc + ns <= i < |r| ==> r[i] == filler)
  {
    var cs := Take(concepts, conceptCount);
    var ss := Take(sentences, sentenceCount);
    var a := Each(cs, concept);
    var b := EachIndexed(ss, sentence);
    var g := Repeat(filler, count - |a| - |b|);
    var all := a + b + g;
    var r := Take(all, count);
    forall i | 0 <= i < |r|
      ensures good(r[i])
      ensures i < |cs| ==> r[i] == concept(concepts[i])
      ensures |cs| <= i < |cs| + |ss| ==> r[i] == sentence(i - |cs|, sentences[i - |cs|])
      ensures |cs| + |ss| <= i ==> r[i] == filler
    {
      assert r[i] == all[i];
      if i < |a| {
        assert all[i] == a[i] == concept(cs[i]);
        assert cs[i] == concepts[i];
      } else if i < |a| + |b| {
        assert all[i] == b[i - |a|] == sentence(i - |a|, ss[i - |a|]);
        assert ss[i - |a|] == sentences[i - |a|];
      } else {
        assert all[i] == g[i - |a| - |b|];
      }
    }
  }

  lemma EachSnoc<T>(xs: seq<string>, i: nat, f: string -> T)
    requires i < |xs|
    ensures Each(xs[..i + 1], f) == Each(xs[..i], f) + [f(xs[i])]
  {
    var l := Each(xs[..i], f) + [f(xs[i])];
    assert forall j :: 0 <= j < i ==> l[j] == f(xs[..i][j]);
  }

  lemma EachIndexedSnoc<T>(xs: seq<string>, i: nat, f: (nat, string) -> T)
    requires i < |xs|
    ensures EachIndexed(xs[..i + 1], f) == EachIndexed(xs[..i], f) + [f(i, xs[i])]
  {
    var l := EachIndexed(xs[..i], f) + [f(i, xs[i])];
    assert forall j :: 0 <= j < i ==> l[j] == f(j, xs[..i][j]);
  }

  lemma RepeatSnoc<T>(x: T, n: nat)
    ensures Repeat(x, n + 1) == Repeat(x, n) + [x]
  {
  }

  /**
   * The loops of `_generate_rule_based_quizzes` and
   * `_generate_rule_based_flashcards`: the concept loop, the sentence loop
   * over `sentences[:count - len(items)]`, the `while len(items) < count`
   * padding, then `items[:count]`.
   */
  method FillLayout<T>(concepts: seq<string>, conceptCount: int, sentences: seq<string>, count: int,
                       concept: string -> T, sentence: (nat, string) -> T, filler: T)
    returns (r: seq<T>)
    ensures r == Layout(concepts, conceptCount, sentences, count - |Take(concepts, conceptCount)|, count, concept, sentence, filler)
  {
    var chosen := Take(concepts, conceptCount);
    var items: seq<T> := [];
    var i := 0;
    while i < |chosen|
      invariant 0 <= i <= |chosen|
      invariant items == Each(chosen[..i], concept)
    {
      EachSnoc(chosen, i, concept);
      items := items + [concept(chosen[i])];
      i := i + 1;
    }
    assert chosen[..i] == chosen;
    ghost var a := items;
    var remaining := count - |items|;
    var picked := Take(sentences, remaining);
    i := 0;
    while i < |picked|
      invariant 0 <= i <= |picked|
      invariant items == a + EachIndexed(picked[..i], sentence)
    {
      EachIndexedSnoc(picked, i, sentence);
      items := items + [sentence(i, picked[i])];
      i := i + 1;
    }
    assert picked[..i] == picked;
    ghost var ab := items;
    assert Repeat(filler, 0) == [];
    while |items| < count
      invariant |ab| <= |items|
      invariant items == ab + Repeat(filler, |items| - |ab|)
      invariant |items| == |ab| || |items| <= count
      decreases count - |items|
    {
      RepeatSnoc(filler, |items| - |ab|);
      items := items + [filler];
    }
    r := Take(items, count);
  }
  /**
   * The loops of `_generate_rule_based_exercises`: the concept loop over
   * `concepts[:conceptCount]`, the sentence loop over
   * `sentences[:sentenceCount]`, `for i in range(count - len(items))`
   * adding the filler, then `items[:count]`.
   */
  method FillLayoutCounted<T>(concepts: seq<string>, conceptCount: int, sentences: seq<string>, sentenceCount: int, count: int,
                              concept: string -> T, sentence: (nat, string) -> T, filler: T)
    returns (r: seq<T>)
    ensures r == Layout(concepts, conceptCount, sentences, sentenceCount, count, concept, sentence, filler)
  {
    var chosen := Take(concepts, conceptCount);
    var items: seq<T> := [];
    var i := 0;
    while i < |chosen|
      invariant 0 <= i <= |chosen|
      invariant items == Each(chosen[..i], concept)
    {
      EachSnoc(chosen, i, concept);
      items := items + [concept(chosen[i])];
      i := i + 1;
    }
    assert chosen[..i] == chosen;
    ghost var a := items;
    var picked := Take(sentences, sentenceCount);
    i := 0;
    while i < |picked|
      invariant 0 <= i <= |picked|
      invariant items == a + EachIndexed(picked[..i], sentence)
    {
      EachIndexedSnoc(picked, i, sentence);
      items := items + [sentence(i, picked[i])];
      i := i + 1;
    }
    assert picked[..i] == picked;
    ghost var ab := items;
    var remaining := count - |items|;
    i := 0;
    while i < remaining
      invariant 0 <= i <= Max(remaining, 0)
      invariant items == ab + Repeat(filler, i)
    {
      RepeatSnoc(filler, i);
      items := items + [filler];
      i := i + 1;
    }
    assert Repeat(filler, i) == Repeat(filler, remaining) by {
      assert |Repeat(filler, i)| == |Repeat(filler, remaining)|;
    }
    r := Take(items, count);
  }
}
