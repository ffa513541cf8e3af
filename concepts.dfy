/**
 * Concept ranking, as `extract_key_concepts` in app/utils.py and its
 * copies `_extract_key_concepts` / `_extract_key_concepts_from_text` in
 * the generators do it: count how often each capitalised phrase occurs
 * (optionally only phrases longer than a minimum), sort the
 * (phrase, count) pairs by count with Python's stable `sorted(...,
 * reverse=True)`, and keep the first few names.
 *
 * The list of capitalised phrases (`re.findall` of the capitalised-word
 * pattern) is an input: the regular expression engine is not modelled.
 */
module Concepts {
  import opened Text

  /** A `(phrase, count)` pair of `word_freq.items()`. */
  type Entry = (string, nat)

  /**
   * The words the counting loop looks at: those longer than `minLen`
   * (the `len(word) > 3` test). The version in app/utils.py counts every
   * word; it is `minLen == -1` here.
   */
  function Filter(ws: seq<string>, minLen: int): (r: seq<string>)
    ensures |r| <= |ws|
    decreases |ws|
  {
    if ws == [] then []
    else Filter(ws[..|ws| - 1], minLen) + (if |ws[|ws| - 1]| > minLen then [ws[|ws| - 1]] else [])
  }

  lemma {:induction false} FilterMembers(ws: seq<string>, minLen: int)
    ensures forall w :: w in Filter(ws, minLen) <==> w in ws && |w| > minLen
    decreases |ws|
  {
    if ws != [] {
      var p := ws[..|ws| - 1];
      FilterMembers(p, minLen);
      assert ws == p + [ws[|ws| - 1]];
    }
  }

  /** With `minLen == -1` nothing is filtered out. */
  lemma {:induction false} FilterNone(ws: seq<string>)
    ensures Filter(ws, -1) == ws
    decreases |ws|
  {
    if ws != [] {
      FilterNone(ws[..|ws| - 1]);
      assert ws == ws[..|ws| - 1] + [ws[|ws| - 1]];
    }
  }

  /** How often `w` occurs in `ws`. */
  function Count(ws: seq<string>, w: string): nat
    decreases |ws|
  {
    if ws == [] then 0
    else Count(ws[..|ws| - 1], w) + (if ws[|ws| - 1] == w then 1 else 0)
  }

  lemma {:induction false} CountPositive(ws: seq<string>, w: string)
    ensures Count(ws, w) > 0 <==> w in ws
    decreases |ws|
  {
    if ws != [] {
      CountPositive(ws[..|ws| - 1], w);
      assert ws == ws[..|ws| - 1] + [ws[|ws| - 1]];
    }
  }

  /** The distinct words of `ws` in first-occurrence order: the key order of a Python dict filled from `ws`. */
  function Dedup(ws: seq<string>): seq<string>
    decreases |ws|
  {
    if ws == [] then []
    else
      var d := Dedup(ws[..|ws| - 1]);
      if ws[|ws| - 1] in d then d else d + [ws[|ws| - 1]]
  }

  predicate Distinct(ws: seq<string>) {
    forall i, j :: 0 <= i < j < |ws| ==> ws[i] != ws[j]
  }

  /** `Dedup` keeps every word once and nothing else. */
  lemma {:induction false} DedupMembers(ws: seq<string>)
    ensures forall w :: w in Dedup(ws) <==> w in ws
    ensures Distinct(Dedup(ws))
    decreases |ws|
  {
    if ws != [] {
      DedupMembers(ws[..|ws| - 1]);
      assert ws == ws[..|ws| - 1] + [ws[|ws| - 1]];
    }
  }

  /** The index of the first occurrence of `w` in `ws`. */
  function FirstIndex(ws: seq<string>, w: string): (i: nat)
    requires w in ws
    ensures i < |ws| && ws[i] == w && w !in ws[..i]
    decreases |ws|
  {
    if ws[0] == w then 0
    else
      assert w in ws[1..];
      var k := FirstIndex(ws[1..], w);
      assert ws[..k + 1] == [ws[0]] + ws[1..][..k];
      k + 1
  }

  lemma FirstIndexExtend(p: seq<string>, x: string, w: string)
    requires w in p
    ensures FirstIndex(p + [x], w) == FirstIndex(p, w)
  {
    var i := FirstIndex(p, w);
    var j := FirstIndex(p + [x], w);
    assert forall k :: 0 <= k < j ==> (p + [x])[..j][k] == (p + [x])[k];
    assert forall k :: 0 <= k < i ==> p[..i][k] == p[k];
    assert (p + [x])[i] == w;
  }

  /** `Dedup` lists words in the order of their first occurrences. */
  lemma {:induction false} DedupOrder(ws: seq<string>)
    ensures forall w :: w in Dedup(ws) ==> w in ws
    ensures forall i, j :: 0 <= i < j < |Dedup(ws)| ==> FirstIndex(ws, Dedup(ws)[i]) < FirstIndex(ws, Dedup(ws)[j])
    decreases |ws|
  {
    DedupMembers(ws);
    if ws != [] {
      var p := ws[..|ws| - 1];
      var x := ws[|ws| - 1];
      assert ws == p + [x];
      DedupOrder(p);
      DedupMembers(p);
      var d := Dedup(p);
      forall w | w in d ensures FirstIndex(ws, w) == FirstIndex(p, w) {
        FirstIndexExtend(p, x, w);
      }
      if x !in d {
        assert x !in p;
        assert FirstIndex(ws, x) == |p| by {
          assert ws[..|p|] == p;
        }
      }
    }
  }

  /** `word_freq.items()` after the counting loop over `ws`. */
  function Table(ws: seq<string>): (t: seq<Entry>)
    ensures |t| == |Dedup(ws)|
    ensures forall i :: 0 <= i < |t| ==> t[i] == (Dedup(ws)[i], Count(ws, Dedup(ws)[i]))
  {
    var d := Dedup(ws);
    seq(|d|, i requires 0 <= i < |d| => (d[i], Count(ws, d[i])))
  }

  /**
   * Stable insertion of `e` into a list sorted by decreasing count: it
   * goes before the first entry whose count is not larger, so it stays
   * ahead of the entries of equal count that came after it in the input.
   */
  function Insert(e: Entry, l: seq<Entry>): (r: seq<Entry>)
    ensures |r| == |l| + 1
    ensures multiset(r) == multiset(l) + multiset{e}
    decreases |l|
  {
    if l == [] then [e]
    else if l[0].1 <= e.1 then [e] + l
    else
      assert l == [l[0]] + l[1..];
      [l[0]] + Insert(e, l[1..])
  }

  /** Python's `sorted(items, key=count, reverse=True)`, which is stable. */
  function Sort(l: seq<Entry>): (r: seq<Entry>)
    ensures |r| == |l|
    ensures multiset(r) == multiset(l)
    decreases |l|
  {
    if l == [] then []
    else
      assert l == [l[0]] + l[1..];
      Insert(l[0], Sort(l[1..]))
  }

  predicate SortedByCount(l: seq<Entry>) {
    forall i, j :: 0 <= i < j < |l| ==> l[i].1 >= l[j].1
  }

  lemma {:induction false} InsertSorted(e: Entry, l: seq<Entry>)
    requires SortedByCount(l)
    ensures SortedByCount(Insert(e, l))
    decreases |l|
  {
    if l != [] && l[0].1 > e.1 {
      InsertSorted(e, l[1..]);
      var r := Insert(e, l[1..]);
      forall j | 0 <= j < |r| ensures l[0].1 >= r[j].1 {
        assert r[j] in multiset(r);
        assert r[j] == e || r[j] in l[1..];
      }
    }
  }

  /** The sorted list is in non-increasing count order. */
  lemma {:induction false} SortSorted(l: seq<Entry>)
    ensures SortedByCount(Sort(l))
    decreases |l|
  {
    if l != [] {
      SortSorted(l[1..]);
      InsertSorted(l[0], Sort(l[1..]));
    }
  }

  /** The entries of count `c`, in order. */
  function ByCount(l: seq<Entry>, c: nat): seq<Entry>
    decreases |l|
  {
    if l == [] then []
    else (if l[0].1 == c then [l[0]] else []) + ByCount(l[1..], c)
  }

  lemma {:induction false} InsertByCount(e: Entry, l: seq<Entry>, c: nat)
    ensures ByCount(Insert(e, l), c) == (if e.1 == c then [e] else []) + ByCount(l, c)
    decreases |l|
  {
    if l == [] {
      ByCountCons(e, [], c);
    } else if l[0].1 <= e.1 {
      ByCountCons(e, l, c);
    } else {
      var t := Insert(e, l[1..]);
      InsertByCount(e, l[1..], c);
      ByCountCons(l[0], t, c);
      ByCountCons(l[0], l[1..], c);
      assert l == [l[0]] + l[1..];
      if l[0].1 == c {
        assert e.1 != c;
      }
    }
  }

  lemma ByCountCons(x: Entry, l: seq<Entry>, c: nat)
    ensures ByCount([x] + l, c) == (if x.1 == c then [x] else []) + ByCount(l, c)
  {
    assert ([x] + l)[1..] == l;
  }

  /**
   * Stability: for every count, the entries with that count keep their
   * input order. In the table that order is first-occurrence order
   * (`DedupOrder`), so ties are listed by first occurrence.
   */
  lemma {:induction false} SortStable(l: seq<Entry>, c: nat)
    ensures ByCount(Sort(l), c) == ByCount(l, c)
    decreases |l|
  {
    if l != [] {
      SortStable(l[1..], c);
      InsertByCount(l[0], Sort(l[1..]), c);
    }
  }

  /** The names of the entries. */
  function Names(l: seq<Entry>): (r: seq<string>)
    ensures |r| == |l|
    ensures forall i :: 0 <= i < |l| ==> r[i] == l[i].0
  {
    seq(|l|, i requires 0 <= i < |l| => l[i].0)
  }

  /** The concepts returned: the first `limit` names of the sorted table (`key_concepts[:limit]`). */
  function KeyConcepts(words: seq<string>, minLen: int, limit: int): seq<string> {
    Names(Take(Sort(Table(Filter(words, minLen))), limit))
  }

  /** The entries of a sorted table are exactly the table's entries; each carries its word's count. */
  lemma SortedTableEntries(ws: seq<string>)
    ensures forall x :: x in Sort(Table(ws)) ==> x.0 in Dedup(ws) && x.1 == Count(ws, x.0)
  {
    var t := Table(ws);
    forall x | x in Sort(t) ensures x.0 in Dedup(ws) && x.1 == Count(ws, x.0) {
      assert x in multiset(Sort(t));
      assert x in t;
    }
  }

  lemma MultisetTwice<T>(s: seq<T>, i: int, j: int)
    requires 0 <= i < j < |s|
    ensures s[i] == s[j] ==> multiset(s)[s[i]] >= 2
  {
    if s[i] == s[j] {
      assert s == s[..j] + s[j..];
      assert s[i] in s[..j];
      assert s[j] in s[j..];
    }
  }

  /** A table's entries occur once each, since their names are distinct. */
  lemma TableOnce(t: seq<Entry>, d: seq<string>, k: int)
    requires |t| == |d| && Distinct(d) && 0 <= k < |t|
    requires forall i :: 0 <= i < |t| ==> t[i].0 == d[i]
    ensures multiset(t)[t[k]] == 1
  {
    assert t == t[..k] + [t[k]] + t[k + 1..];
    forall i | 0 <= i < k ensures t[..k][i] != t[k] {
      assert t[..k][i] == t[i];
    }
    var u := t[k + 1..];
    forall i | 0 <= i < |u| ensures u[i] != t[k] {
      assert u[i] == t[k + 1 + i];
    }
    assert t[k] !in t[..k];
    assert t[k] !in t[k + 1..];
    assert multiset(t[..k])[t[k]] == 0;
    assert multiset(t[k + 1..])[t[k]] == 0;
  }

  /** Sorting a table keeps its names distinct. */
  lemma SortedTableDistinct(ws: seq<string>)
    ensures Distinct(Names(Sort(Table(ws))))
  {
    var t := Table(ws);
    var s := Sort(t);
    SortedTableEntries(ws);
    DedupMembers(ws);
    forall i, j | 0 <= i < j < |s| ensures s[i].0 != s[j].0 {
      assert s[i] in s;
      var k :| 0 <= k < |Dedup(ws)| && Dedup(ws)[k] == s[i].0;
      TableOnce(t, Dedup(ws), k);
      assert t[k] == s[i];
      MultisetTwice(s, i, j);
      assert s[j] in s;
    }
  }

  /** At most `limit` concepts, and no more than there are distinct counted words. */
  lemma KeyConceptsBound(words: seq<string>, minLen: int, limit: int)
    ensures |KeyConcepts(words, minLen, limit)| <= |Dedup(Filter(words, minLen))|
    ensures limit >= 0 ==> |KeyConcepts(words, minLen, limit)| <= limit
  {
  }

  /** The concepts are distinct counted words longer than `minLen`. */
  lemma KeyConceptsDistinct(words: seq<string>, minLen: int, limit: int)
    ensures Distinct(KeyConcepts(words, minLen, limit))
    ensures forall i :: 0 <= i < |KeyConcepts(words, minLen, limit)| ==>
      KeyConcepts(words, minLen, limit)[i] in words && |KeyConcepts(words, minLen, limit)[i]| > minLen
  {
    var fws := Filter(words, minLen);
    var s := Sort(Table(fws));
    var r := KeyConcepts(words, minLen, limit);
    var p := Take(s, limit);
    assert p == s[..|p|];
    SortedTableDistinct(fws);
    SortedTableEntries(fws);
    DedupMembers(fws);
    FilterMembers(words, minLen);
    forall i, j | 0 <= i < j < |r| ensures r[i] != r[j] {
      assert r[i] == Names(s)[i] && r[j] == Names(s)[j];
    }
    forall i | 0 <= i < |r| ensures r[i] in words && |r[i]| > minLen {
      assert r[i] == s[i].0;
      assert s[i] in s;
    }
  }

  /** The concepts come in non-increasing frequency. */
  lemma KeyConceptsByFrequency(words: seq<string>, minLen: int, limit: int)
    ensures forall i, j :: 0 <= i < j < |KeyConcepts(words, minLen, limit)| ==>
      Count(Filter(words, minLen), KeyConcepts(words, minLen, limit)[i])
        >= Count(Filter(words, minLen), KeyConcepts(words, minLen, limit)[j])
  {
    var fws := Filter(words, minLen);
    var s := Sort(Table(fws));
    var r := KeyConcepts(words, minLen, limit);
    var p := Take(s, limit);
    assert p == s[..|p|];
    SortedTableEntries(fws);
    SortSorted(Table(fws));
    forall i, j | 0 <= i < j < |r| ensures Count(fws, r[i]) >= Count(fws, r[j]) {
      assert r[i] == s[i].0 && r[j] == s[j].0;
      assert s[i] in s && s[j] in s;
    }
  }

  /** No counted word left out is more frequent than a returned concept. */
  lemma KeyConceptsTop(words: seq<string>, minLen: int, limit: int, w: string)
    requires w in Filter(words, minLen) && w !in KeyConcepts(words, minLen, limit)
    ensures forall i :: 0 <= i < |KeyConcepts(words, minLen, limit)| ==>
      Count(Filter(words, minLen), KeyConcepts(words, minLen, limit)[i]) >= Count(Filter(words, minLen), w)
  {
    var fws := Filter(words, minLen);
    var t := Table(fws);
    var s := Sort(t);
    var r := KeyConcepts(words, minLen, limit);
    var p := Take(s, limit);
    assert p == s[..|p|];
    SortedTableEntries(fws);
    SortSorted(t);
    DedupMembers(fws);
    var k :| 0 <= k < |Dedup(fws)| && Dedup(fws)[k] == w;
    assert t[k] in multiset(s);
    var m :| 0 <= m < |s| && s[m] == t[k];
    assert s[m].0 == w;
    assert forall i :: 0 <= i < |r| ==> r[i] == s[i].0;
    forall i | 0 <= i < |r| ensures Count(fws, r[i]) >= Count(fws, w) {
      assert r[i] == s[i].0;
      assert s[i] in s;
    }
  }

  /** The table read from the insertion-ordered dictionary the counting loop fills. */
  function Items(order: seq<string>, freq: map<string, nat>): (t: seq<Entry>)
    requires forall i :: 0 <= i < |order| ==> order[i] in freq
    ensures |t| == |order|
  {
    seq(|order|, i requires 0 <= i < |order| => (order[i], freq[order[i]]))
  }

  /**
   * The counting loop: `word_freq[word] = word_freq.get(word, 0) + 1`
   * for each word longer than `minLen`. A Python dict is a map with an
   * insertion order; `order` is that order.
   */
  method CountFrequencies(words: seq<string>, minLen: int) returns (order: seq<string>, freq: map<string, nat>)
    ensures order == Dedup(Filter(words, minLen))
    ensures forall w :: w in freq <==> w in Filter(words, minLen)
    ensures forall w :: w in freq ==> freq[w] == Count(Filter(words, minLen), w)
  {
    order := [];
    freq := map[];
    var i := 0;
    ghost var p: seq<string> := [];
    while i < |words|
      invariant 0 <= i <= |words|
      invariant p == Filter(words[..i], minLen)
      invariant order == Dedup(p)
      invariant Counts(p, freq)
    {
      var word := words[i];
      FilterStep(words, i, minLen);
      if |word| > minLen {
        order, freq := CountWord(p, order, freq, word);
        p := p + [word];
      }
      i := i + 1;
    }
    assert words[..i] == words;
    assert Counts(Filter(words, minLen), freq);
  }

  /** The body of the counting loop for a word that is counted. */
  method CountWord(ghost p: seq<string>, order: seq<string>, freq: map<string, nat>, word: string)
    returns (order': seq<string>, freq': map<string, nat>)
    requires order == Dedup(p) && Counts(p, freq)
    ensures order' == Dedup(p + [word]) && Counts(p + [word], freq')
  {
    CountsStep(p, freq, word);
    var n := if word in freq then freq[word] else 0;
    order' := order;
    if word !in freq {
      order' := order + [word];
    }
    freq' := freq[word := n + 1];
  }

  /** `freq` holds the count of every word of `p` and nothing else. */
  ghost predicate Counts(p: seq<string>, freq: map<string, nat>) {
    && (forall w :: w in freq <==> w in p)
    && (forall w :: w in freq ==> freq[w] == Count(p, w))
  }

  /** One `word_freq[word] = word_freq.get(word, 0) + 1`. */
  lemma CountsStep(p: seq<string>, freq: map<string, nat>, word: string)
    requires Counts(p, freq)
    ensures word in freq <==> word in p
    ensures Dedup(p + [word]) == if word in p then Dedup(p) else Dedup(p) + [word]
    ensures Counts(p + [word], freq[word := (if word in freq then freq[word] else 0) + 1])
  {
    CountStep(p, word);
    CountPositive(p, word);
    var n := if word in freq then freq[word] else 0;
    assert n == Count(p, word);
    var f := freq[word := n + 1];
    forall w | w in f ensures f[w] == Count(p + [word], w) {
      if w != word {
        assert f[w] == freq[w];
      }
    }
  }

  lemma FilterStep(words: seq<string>, i: int, minLen: int)
    requires 0 <= i < |words|
    ensures Filter(words[..i + 1], minLen)
      == Filter(words[..i], minLen) + (if |words[i]| > minLen then [words[i]] else [])
  {
    assert words[..i + 1][..i] == words[..i];
  }

  lemma CountStep(p: seq<string>, x: string)
    ensures Dedup(p + [x]) == if x in p then Dedup(p) else Dedup(p) + [x]
    ensures forall w :: w in p + [x] <==> w in p || w == x
    ensures forall w :: Count(p + [x], w) == Count(p, w) + (if w == x then 1 else 0)
  {
    assert (p + [x])[..|p|] == p;
    DedupMembers(p);
  }

  /** `extract_key_concepts`: count, sort by frequency, keep the first `limit` names. */
  method ExtractKeyConcepts(words: seq<string>, minLen: int, limit: int) returns (r: seq<string>)
    ensures r == KeyConcepts(words, minLen, limit)
  {
    var order, freq := CountFrequencies(words, minLen);
    DedupMembers(Filter(words, minLen));
    var items := Items(order, freq);
    assert items == Table(Filter(words, minLen));
    r := Names(Take(Sort(items), limit));
  }

  /**
   * `_find_relevant_content`: the first '.'-separated sentence that
   * contains the concept (both lower-cased) and is longer than 20
   * characters after stripping, stripped; "" when there is none.
   */
  function RelevantContent(text: string, concept: string): string {
    FirstStripped(Split(text, "."), RelevantTo(concept))
  }

  /** The first element `p` holds of, stripped, or "". */
  function FirstStripped(xs: seq<string>, p: string -> bool): string {
    var k := FirstWhere(xs, p);
    if k == -1 then "" else Strip(xs[k])
  }

  function RelevantTo(concept: string): (p: string -> bool)
    ensures forall x :: p(x) ==> Strip(x) != []
  {
    s => Relevant(s, concept)
  }

  /** The result is "" exactly when no sentence is relevant, and otherwise the first relevant sentence, stripped. */
  lemma RelevantContentSpec(text: string, concept: string)
    ensures var r := RelevantContent(text, concept);
            && (r == "" <==> NoneRelevant(Split(text, "."), concept))
            && (r != "" ==> exists k :: FirstRelevant(Split(text, "."), k, concept) && r == Strip(Split(text, ".")[k]))
  {
    RelevantAmong(Split(text, "."), concept);
  }

  lemma RelevantAmong(sentences: seq<string>, concept: string)
    ensures var r := FirstStripped(sentences, RelevantTo(concept));
            && (r == "" <==> NoneRelevant(sentences, concept))
            && (r != "" ==> exists k :: FirstRelevant(sentences, k, concept) && r == Strip(sentences[k]))
  {
    var p := RelevantTo(concept);
    FirstStrippedSpec(sentences, p);
    var k := FirstWhere(sentences, p);
    if k != -1 {
      assert FirstRelevant(sentences, k, concept) by {
        assert forall j :: 0 <= j < k ==> sentences[..k][j] == sentences[j];
      }
    }
  }

  /** For a test that only holds of texts that are not blank, "" means no element passes it. */
  lemma FirstStrippedSpec(xs: seq<string>, p: string -> bool)
    requires forall x :: p(x) ==> Strip(x) != []
    ensures FirstStripped(xs, p) == "" <==> FirstWhere(xs, p) == -1
  {
  }

  /** Index of the first element `p` holds of, or -1. */
  function FirstWhere(xs: seq<string>, p: string -> bool): (k: int)
    ensures -1 <= k < |xs|
    ensures k == -1 <==> forall j :: 0 <= j < |xs| ==> !p(xs[j])
    ensures k != -1 ==> p(xs[k]) && forall j :: 0 <= j < k ==> !p(xs[j])
  {
    if xs == [] then -1
    else if p(xs[0]) then 0
    else
      var k := FirstWhere(xs[1..], p);
      assert forall j :: 1 <= j < |xs| ==> xs[j] == xs[1..][j - 1];
      if k == -1 then -1 else k + 1
  }

  /** `_find_relevant_content`. */
  method FindRelevantContent(text: string, concept: string) returns (r: string)
    ensures r == RelevantContent(text, concept)
  {
    var sentences := Split(text, ".");
    r := FirstStrippedMatch(sentences, RelevantTo(concept));
  }

  /** The loop of `_find_relevant_content`, with its per-sentence test `p`. */
  method FirstStrippedMatch(xs: seq<string>, p: string -> bool) returns (r: string)
    ensures r == FirstStripped(xs, p)
  {
    var i := 0;
    while i < |xs|
      invariant 0 <= i <= |xs|
      invariant forall j :: 0 <= j < i ==> !p(xs[j])
    {
      if p(xs[i]) {
        FirstWhereAt(xs, p, i);
        return Strip(xs[i]);
      }
      i := i + 1;
    }
    FirstWhereAt(xs, p, i);
    return "";
  }

  /** The first index `p` holds at, or the end when there is none, is what `FirstWhere` finds. */
  lemma FirstWhereAt(xs: seq<string>, p: string -> bool, i: nat)
    requires i <= |xs| && forall j :: 0 <= j < i ==> !p(xs[j])
    requires i < |xs| ==> p(xs[i])
    ensures FirstWhere(xs, p) == if i < |xs| then i else -1
  {
  }

  /** The test `_find_relevant_content` applies to each sentence. */
  predicate Relevant(sentence: string, concept: string) {
    Contains(Lower(sentence), Lower(concept)) && |Strip(sentence)| > 20
  }

  predicate NoneRelevant(sentences: seq<string>, concept: string) {
    forall k :: 0 <= k < |sentences| ==> !Relevant(sentences[k], concept)
  }

  /** Sentence `k` is the first relevant one. */
  predicate FirstRelevant(sentences: seq<string>, k: int, concept: string) {
    0 <= k < |sentences| && Relevant(sentences[k], concept) && NoneRelevant(sentences[..k], concept)
  }
}
