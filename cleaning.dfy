/**
 * The `_clean_text` substitution pipelines. The three document
 * generators share one pipeline that differs only in the mark list it
 * strips from the front; the flashcard generator removes its labels
 * everywhere and also normalises runs of dots. `clean_text` in the
 * utilities module is the pipeline applied to extracted document text.
 */
module Cleaning {
  import opened Text

  /** `s` with every `c` removed. */
  function Without(s: string, c: char): (r: string)
    ensures |r| <= |s|
  {
    if s == [] then [] else (if s[0] == c then [] else [s[0]]) + Without(s[1..], c)
  }

  /** Nothing of `c` is left after removing it. */
  lemma {:induction false} WithoutDrops(s: string, c: char)
    ensures c !in Without(s, c)
  {
    if s != [] { WithoutDrops(s[1..], c); }
  }

  lemma {:induction false} WithoutAppend(a: string, b: string, c: char)
    ensures Without(a + b, c) == Without(a, c) + Without(b, c)
  {
    if a == [] {
      assert a + b == b;
    } else {
      var h := if a[0] == c then [] else [a[0]];
      WithoutAppend(a[1..], b, c);
      TailAppend(a, b);
      assert Without(a + b, c) == h + Without(a[1..] + b, c);
      assert Without(a, c) == h + Without(a[1..], c);
      Assoc(h, Without(a[1..], c), Without(b, c));
    }
  }

  lemma WithoutCons(x: char, t: string, c: char)
    ensures Without([x] + t, c) == (if x == c then [] else [x]) + Without(t, c)
  {
    assert ([x] + t)[1..] == t;
  }

  lemma WithoutAll(d: string, c: char)
    requires forall i :: 0 <= i < |d| ==> d[i] == c
    ensures Without(d, c) == []
  {
    if d != [] { WithoutAll(d[1..], c); }
  }

  lemma WithoutNone(s: string, c: char)
    requires c !in s
    ensures Without(s, c) == s
  {
    if s != [] { WithoutNone(s[1..], c); }
  }

  // ---------------------------------------------------------------------
  // Markdown

  /** Length of the leading run of the character `c`. */
  function Run(s: string, c: char): (n: nat)
    ensures n <= |s| && forall i :: 0 <= i < n ==> s[i] == c
    ensures n < |s| ==> s[n] != c
  {
    if s == [] || s[0] != c then 0 else 1 + Run(s[1..], c)
  }

  /**
   * `re.sub(r'#{1,6}\s*', '', s)`: at each `#`, up to six `#` and the
   * whitespace after them are deleted.
   */
  function DropHeaders(s: string): (r: string)
    ensures |r| <= |s|
    ensures forall i :: 0 <= i < |r| ==> r[i] != '#'
    decreases |s|
  {
    if s == [] then []
    else if s[0] == '#' then
      var n := Min(6, Run(s, '#'));
      var w := LeadingSpaces(s[n..]);
      DropHeaders(s[n + w..])
    else [s[0]] + DropHeaders(s[1..])
  }

  /** A non-empty delimiter made only of the character `c`, like `**` or a backtick. */
  predicate Delim(d: string, c: char) {
    d != [] && forall i :: 0 <= i < |d| ==> d[i] == c
  }

  /**
   * `re.sub(d + r'(.*?)' + d, r'\1', s)` for a delimiter made of `c`:
   * a delimiter followed, on the same line, by another one is replaced
   * with the text between them; an unpaired delimiter stays.
   */
  function Unwrap(s: string, d: string, c: char): (r: string)
    requires Delim(d, c)
    ensures |r| <= |s|
    decreases |s|
  {
    if s == [] then []
    else
      var j := ClosingAt(s, d);
      if j != -1 then s[|d|..j] + Unwrap(s[j + |d|..], d, c)
      else [s[0]] + Unwrap(s[1..], d, c)
  }

  /** Where the delimiter closing a span that `s` opens ends, on the same line; -1 when unpaired. */
  function ClosingAt(s: string, d: string): (j: int)
    ensures j == -1 || (StartsWith(s, d) && |d| <= j && OccursAt(s, d, j))
  {
    var j := if StartsWith(s, d) then FindFrom(s, d, |d|) else -1;
    if j != -1 && '\n' !in s[|d|..j] then j else -1
  }

  /** Unwrapping deletes delimiter characters and nothing else. */
  lemma {:induction false} UnwrapDeletesDelimiters(s: string, d: string, c: char)
    requires Delim(d, c)
    ensures Without(Unwrap(s, d, c), c) == Without(s, c)
    decreases |s|
  {
    if s != [] {
      var j := ClosingAt(s, d);
      if j != -1 {
        UnwrapDeletesDelimiters(s[j + |d|..], d, c);
        UnwrapWrappedStep(s, d, c, j);
      } else {
        UnwrapDeletesDelimiters(s[1..], d, c);
        UnwrapPlainStep(s, d, c);
      }
    }
  }

  lemma UnwrapWrappedStep(s: string, d: string, c: char, j: int)
    requires Delim(d, c)
    requires s != [] && j == ClosingAt(s, d) && j != -1
    requires Without(Unwrap(s[j + |d|..], d, c), c) == Without(s[j + |d|..], c)
    ensures Without(Unwrap(s, d, c), c) == Without(s, c)
  {
    UnwrapWrapped(s, d, c);
    WrappedParts(s, d, c, j);
    Rejoin(Unwrap(s, d, c), s[|d|..j], Unwrap(s[j + |d|..], d, c), s[j + |d|..], s, c);
  }

  /** Removing `c` from `inner + u` gives what removing it from `s` gives, when the parts agree. */
  lemma Rejoin(x: string, inner: string, u: string, t: string, s: string, c: char)
    requires x == inner + u
    requires Without(u, c) == Without(t, c)
    requires Without(s, c) == Without(inner, c) + Without(t, c)
    ensures Without(x, c) == Without(s, c)
  {
    WithoutAppend(inner, u, c);
  }

  lemma UnwrapWrapped(s: string, d: string, c: char)
    requires Delim(d, c)
    requires s != [] && ClosingAt(s, d) != -1
    ensures Unwrap(s, d, c) == s[|d|..ClosingAt(s, d)] + Unwrap(s[ClosingAt(s, d) + |d|..], d, c)
  {
  }

  lemma UnwrapPlainStep(s: string, d: string, c: char)
    requires Delim(d, c)
    requires s != [] && ClosingAt(s, d) == -1
    requires Without(Unwrap(s[1..], d, c), c) == Without(s[1..], c)
    ensures Without(Unwrap(s, d, c), c) == Without(s, c)
  {
    var u := Unwrap(s[1..], d, c);
    assert Unwrap(s, d, c) == [s[0]] + u;
    assert Without(s, c) == (if s[0] == c then [] else [s[0]]) + Without(s[1..], c);
    WithoutCons(s[0], u, c);
  }

  lemma WrappedParts(s: string, d: string, c: char, j: nat)
    requires Delim(d, c)
    requires StartsWith(s, d) && |d| <= j && OccursAt(s, d, j)
    ensures Without(s, c) == Without(s[|d|..j], c) + Without(s[j + |d|..], c)
  {
    var a, m, e, t := s[..|d|], s[|d|..j], s[j..j + |d|], s[j + |d|..];
    SliceFour(s, |d|, j, j + |d|);
    assert a == d && e == d;
    WithoutAll(d, c);
    WithoutAppend(a + m + e, t, c);
    WithoutAppend(a + m, e, c);
    WithoutAppend(a, m, c);
    assert [] + Without(m, c) + [] == Without(m, c);
  }

  lemma SliceFour(s: string, i: nat, j: nat, k: nat)
    requires i <= j <= k <= |s|
    ensures s == s[..i] + s[i..j] + s[j..k] + s[k..]
  {
  }

  /** Headers, then bold, italic and inline code, in the order the cleaners apply them. */
  function StripMarkdown(s: string): (r: string)
    ensures |r| <= |s|
    ensures Without(Without(r, '*'), '`') == Without(Without(DropHeaders(s), '*'), '`')
  {
    var h := DropHeaders(s);
    var b := Unwrap(h, "**", '*');
    var i := Unwrap(b, "*", '*');
    var t := Unwrap(i, "`", '`');
    UnwrapDeletesDelimiters(h, "**", '*');
    UnwrapDeletesDelimiters(b, "*", '*');
    UnwrapDeletesDelimiters(i, "`", '`');
    WithoutCommutes(t, '*', '`');
    WithoutCommutes(i, '*', '`');
    t
  }

  lemma WithoutCommutes(s: string, c: char, e: char)
    ensures Without(Without(s, c), e) == Without(Without(s, e), c)
  {
    if s != [] {
      WithoutCommutes(s[1..], c, e);
      WithoutAppend(if s[0] == c then [] else [s[0]], Without(s[1..], c), e);
      WithoutAppend(if s[0] == e then [] else [s[0]], Without(s[1..], e), c);
    }
  }

  // ---------------------------------------------------------------------
  // Labels

  /**
   * `re.sub(r'^(L1|L2|..)\s*', '', s)` without MULTILINE: the first mark
   * that starts `s`, and the whitespace after it, are deleted once.
   */
  function DropLeadingLabel(s: string, labels: seq<string>): (r: string)
    ensures |r| <= |s| && r == s[|s| - |r|..]
    ensures (forall i :: 0 <= i < |labels| ==> labels[i] == [] || !StartsWith(s, labels[i])) ==> r == s
  {
    if labels == [] then s
    else if labels[0] != [] && StartsWith(s, labels[0]) then
      var t := s[|labels[0]|..];
      var r := t[LeadingSpaces(t)..];
      assert r == s[|labels[0]| + LeadingSpaces(t)..];
      r
    else DropLeadingLabel(s, labels[1..])
  }

  /** `re.sub(mark + r'\s*', '', s)`: every occurrence, with the whitespace after it. */
  function RemoveLabel(s: string, mark: string): (r: string)
    requires mark != []
    ensures |r| <= |s|
    ensures !Contains(s, mark) ==> r == s
    decreases |s|
  {
    if s == [] then []
    else if StartsWith(s, mark) then
      assert OccursAt(s, mark, 0);
      var t := s[|mark|..];
      RemoveLabel(t[LeadingSpaces(t)..], mark)
    else
      assert !Contains(s, mark) ==> !Contains(s[1..], mark) by {
        if Contains(s[1..], mark) {
          var i :| 0 <= i <= |s[1..]| && OccursAt(s[1..], mark, i);
          assert s[1..] == s[1..|s|];
          OccursInSlice(s, mark, 1, |s|, i);
        }
      }
      [s[0]] + RemoveLabel(s[1..], mark)
  }

  // ---------------------------------------------------------------------
  // Dots and the final full stop

  function TrailingDotsCount(s: string): (n: nat)
    ensures n <= |s| && forall i :: |s| - n <= i < |s| ==> s[i] == '.'
    ensures n < |s| ==> s[|s| - n - 1] != '.'
  {
    if s == [] || s[|s| - 1] != '.' then 0 else 1 + TrailingDotsCount(s[..|s| - 1])
  }

  lemma SingleSpacedConcat(a: string, b: string)
    requires SingleSpaced(a) && SingleSpaced(b)
    requires a != [] && b != [] ==> !(IsSpace(a[|a| - 1]) && IsSpace(b[0]))
    ensures SingleSpaced(a + b)
  {
    var s := a + b;
    forall i | 0 <= i < |s| - 1 ensures !(IsSpace(s[i]) && IsSpace(s[i + 1])) {
      if i < |a| - 1 {
        assert s[i] == a[i] && s[i + 1] == a[i + 1];
      } else if i == |a| - 1 {
        assert s[i] == a[|a| - 1] && s[i + 1] == b[0];
      } else {
        assert s[i] == b[i - |a|] && s[i + 1] == b[i - |a| + 1];
      }
    }
  }

  lemma DotsSingleSpaced(d: string)
    requires forall i :: 0 <= i < |d| ==> d[i] == '.'
    ensures SingleSpaced(d)
  {
    SpaceFacts();
  }

  /** `re.sub(r'\.{3,}', '.', s)`: each maximal run of three or more dots becomes one. */
  function CollapseDots(s: string): (r: string)
    ensures r == [] <==> s == []
    ensures r != [] ==> r[0] == s[0] && r[|r| - 1] == s[|s| - 1]
    decreases |s|
  {
    if s == [] then []
    else if s[0] != '.' then [s[0]] + CollapseDots(s[1..])
    else
      var n := Run(s, '.');
      (if n >= 3 then "." else s[..n]) + CollapseDots(s[n..])
  }

  /** Collapsing dots never puts two spaces next to each other. */
  lemma {:induction false} CollapseDotsSingleSpaced(s: string)
    requires SingleSpaced(s)
    ensures SingleSpaced(CollapseDots(s))
    decreases |s|
  {
    if s != [] {
      SpaceFacts();
      if s[0] != '.' {
        SingleSpacedSlice(s, 1, |s|);
        assert s[1..|s|] == s[1..];
        CollapseDotsSingleSpaced(s[1..]);
        assert SingleSpaced([s[0]]);
        SingleSpacedConcat([s[0]], CollapseDots(s[1..]));
      } else {
        var n := Run(s, '.');
        SingleSpacedSlice(s, n, |s|);
        assert s[n..|s|] == s[n..];
        CollapseDotsSingleSpaced(s[n..]);
        var piece := if n >= 3 then "." else s[..n];
        DotsSingleSpaced(piece);
        SingleSpacedConcat(piece, CollapseDots(s[n..]));
      }
    }
  }

  /**
   * `re.sub(r'\.{2,}$', '.', s)`: a final run of two or more dots, at the
   * end or before a final newline, becomes one dot.
   */
  function TrailingDots(s: string): (r: string)
    ensures r == [] <==> s == []
    ensures r != [] ==> r[0] == s[0] && r[|r| - 1] == s[|s| - 1]
    ensures SingleSpaced(s) ==> SingleSpaced(r)
  {
    var nl := EndsWithChar(s, '\n');
    var body := if nl then s[..|s| - 1] else s;
    var k := TrailingDotsCount(body);
    if k < 2 then s
    else
      var kept := body[..|body| - k];
      var r := kept + "." + (if nl then "\n" else "");
      assert r != [] ==> r[0] == s[0] by {
        if kept == [] { assert s[0] == body[0] == '.'; } else { assert kept[0] == s[0]; }
      }
      assert SingleSpaced(s) ==> SingleSpaced(r) by {
        if SingleSpaced(s) {
          SpaceFacts();
          assert !nl;
          SingleSpacedSlice(s, 0, |body| - k);
          DotsSingleSpaced(".");
          SingleSpacedConcat(kept, ".");
          assert r == kept + ".";
        }
      }
      r
  }

  /** Appends `.` to a non-empty text that does not end in `.`, `!` or `?`. */
  function Finish(t: string): (r: string)
    ensures r == [] <==> t == []
    ensures r != [] ==> EndsWithTerminal(r)
    ensures IsStripped(t) ==> IsStripped(r)
    ensures SingleSpaced(t) ==> SingleSpaced(r)
    ensures t != [] && EndsWithTerminal(t) ==> r == t
  {
    if t != [] && !EndsWithTerminal(t) then
      SpaceFacts();
      assert SingleSpaced(t) ==> SingleSpaced(t + ".") by {
        if SingleSpaced(t) { DotsSingleSpaced("."); SingleSpacedConcat(t, "."); }
      }
      t + "."
    else t
  }

  // ---------------------------------------------------------------------
  // The pipelines

  /** The mark list document quizzes and flashcards strip from the front. */
  const QaLabels: seq<string> := ["Q:", "A:", "Question:", "Answer:"]
  /** The mark list document exercises strip from the front. */
  const ExerciseLabels: seq<string> := ["Type:", "Instruction:", "Question:", "Answer:"]
  /** The labels the flashcard generator removes everywhere, in order. */
  const FlashcardLabels: seq<string> := ["Flashcard:", "Q:", "A:", "Question:", "Answer:"]

  /** A cleaned text: empty, or single-spaced, stripped and ending in `.`, `!` or `?`. */
  predicate Clean(r: string) {
    r == [] || (EndsWithTerminal(r) && IsStripped(r) && SingleSpaced(r))
  }

  /** `_clean_text` of the document generators, with their mark list. */
  function DocumentClean(text: string, labels: seq<string>): (r: string)
    ensures Clean(r)
    ensures text == [] ==> r == []
    ensures r == [] <==> text == [] || AllSpace(DropLeadingLabel(StripMarkdown(text), labels))
  {
    if text == [] then []
    else Finish(Squish(DropLeadingLabel(StripMarkdown(text), labels)))
  }

  function RemoveLabels(s: string, labels: seq<string>): (r: string)
    requires forall i :: 0 <= i < |labels| ==> labels[i] != []
    ensures |r| <= |s|
    decreases |labels|
  {
    if labels == [] then s else RemoveLabels(RemoveLabel(s, labels[0]), labels[1..])
  }

  /** `_clean_text` of the flashcard generator. */
  function FlashcardClean(text: string): (r: string)
    ensures Clean(r)
    ensures text == [] ==> r == []
  {
    if text == [] then []
    else
      var t := Squish(RemoveLabels(StripMarkdown(text), FlashcardLabels));
      var d := CollapseDots(t);
      var e := TrailingDots(d);
      CollapseDotsSingleSpaced(t);
      assert IsStripped(e);
      Finish(e)
  }

  // ---------------------------------------------------------------------
  // `clean_text` of the utilities module

  /**
   * The characters `[^\w\s\.\,\;\:\!\?\-\(\)\[\]\'\"]` treats as
   * artifacts; `isWord` stands for Python's Unicode `\w`.
   */
  predicate Kept(c: char, isWord: char -> bool) {
    isWord(c) || IsSpace(c) || c in ".,;:!?-()[]'\""
  }

  /** `re.sub(r'[^\w\s...]+', ' ', s)`: each run of artifact characters becomes one space. */
  function DropArtifacts(s: string, isWord: char -> bool): (r: string)
    ensures forall i :: 0 <= i < |r| ==> Kept(r[i], isWord)
    ensures r == [] <==> s == []
    ensures OnlyBlanks(s) ==> OnlyBlanks(r)
    decreases |s|
  {
    if s == [] then []
    else if Kept(s[0], isWord) then [s[0]] + DropArtifacts(s[1..], isWord)
    else
      var n := ArtifactRun(s, isWord);
      SpaceFacts();
      [' '] + DropArtifacts(s[n..], isWord)
  }

  /** Every whitespace character is a plain space. */
  predicate OnlyBlanks(s: string) {
    forall i :: 0 <= i < |s| && IsSpace(s[i]) ==> s[i] == ' '
  }

  /** A text of kept characters passes the artifact step unchanged. */
  lemma {:induction false} DropArtifactsKept(s: string, isWord: char -> bool)
    requires forall i :: 0 <= i < |s| ==> Kept(s[i], isWord)
    ensures DropArtifacts(s, isWord) == s
    decreases |s|
  {
    if s != [] {
      DropArtifactsKept(s[1..], isWord);
      assert [s[0]] + s[1..] == s;
    }
  }

  function ArtifactRun(s: string, isWord: char -> bool): (n: nat)
    ensures n <= |s| && (s != [] && !Kept(s[0], isWord) ==> n >= 1)
  {
    if s == [] || Kept(s[0], isWord) then 0 else 1 + ArtifactRun(s[1..], isWord)
  }

  /**
   * `re.sub(r'(\w)' + x + r'(\w)', r'\1' + y + r'\2', s)`: an `x` between
   * two word characters becomes `y`; matches do not overlap.
   */
  function FixBetweenWords(s: string, x: char, y: char, isWord: char -> bool): (r: string)
    ensures |r| == |s|
    ensures x !in s ==> r == s
    ensures forall i :: 0 <= i < |r| ==> r[i] == s[i] || (s[i] == x && r[i] == y)
    decreases |s|
  {
    if |s| < 3 then s
    else if isWord(s[0]) && s[1] == x && isWord(s[2]) then
      [s[0], y, s[2]] + FixBetweenWords(s[3..], x, y, isWord)
    else [s[0]] + FixBetweenWords(s[1..], x, y, isWord)
  }

  /**
   * `clean_text`, as written: whitespace runs collapsed and the ends
   * stripped, each run of artifact characters turned into one space, then
   * the two OCR fixes. The result is empty exactly when the text is blank,
   * its only whitespace is plain spaces, and every character is a kept one
   * or a letter an OCR fix wrote.
   */
  function UtilsCleanText(text: string, isWord: char -> bool): (r: string)
    ensures r == [] <==> AllSpace(text)
    ensures |r| == |DropArtifacts(Squish(text), isWord)|
    ensures forall i :: 0 <= i < |r| ==> Kept(r[i], isWord) || r[i] == 'l' || r[i] == 'o'
    ensures OnlyBlanks(r)
  {
    var t := Squish(text);
    var a := DropArtifacts(t, isWord);
    var f := FixBetweenWords(a, '|', 'l', isWord);
    var r := FixBetweenWords(f, '0', 'o', isWord);
    FixesKeep(a, f, r, isWord);
    r
  }

  /** The two OCR fixes write only `l` and `o`, and no whitespace. */
  lemma FixesKeep(a: string, f: string, r: string, isWord: char -> bool)
    requires OnlyBlanks(a) && forall i :: 0 <= i < |a| ==> Kept(a[i], isWord)
    requires |f| == |a| && forall i :: 0 <= i < |f| ==> f[i] == a[i] || f[i] == 'l'
    requires |r| == |f| && forall i :: 0 <= i < |r| ==> r[i] == f[i] || r[i] == 'o'
    ensures forall i :: 0 <= i < |r| ==> Kept(r[i], isWord) || r[i] == 'l' || r[i] == 'o'
    ensures OnlyBlanks(r)
  {
    assert !IsSpace('l') && !IsSpace('o');
  }

  /** The `0` fix: between two word characters a `0` becomes `o`. */
  lemma ZeroBetweenWords(a: char, b: char, isWord: char -> bool)
    requires isWord(a) && isWord(b) && isWord('0')
    requires !IsSpace(a) && !IsSpace(b)
    ensures UtilsCleanText([a, '0', b], isWord) == [a, 'o', b]
  {
    var s := [a, '0', b];
    SpaceFacts();
    SquishNoSpace(s);
    DropArtifactsKept(s, isWord);
    var f := FixBetweenWords(s, '|', 'l', isWord);
    assert f == s by {
      assert f == [s[0]] + FixBetweenWords(s[1..], '|', 'l', isWord);
      assert s[1..] == ['0', b];
    }
    assert FixBetweenWords(s, '0', 'o', isWord) == [a, 'o', b] + FixBetweenWords(s[3..], '0', 'o', isWord);
  }

  /**
   * `|` is neither a word character nor one of the kept punctuation
   * characters, so the artifact step has already replaced every `|` with a
   * space and the `|` fix never changes anything.
   */
  lemma PipeFixIsDead(text: string, isWord: char -> bool)
    requires !isWord('|')
    ensures var a := DropArtifacts(Squish(text), isWord);
            '|' !in a && FixBetweenWords(a, '|', 'l', isWord) == a
  {
    var a := DropArtifacts(Squish(text), isWord);
    PipeIsArtifact(isWord);
    assert forall i :: 0 <= i < |a| ==> a[i] != '|';
  }

  lemma PipeIsArtifact(isWord: char -> bool)
    requires !isWord('|')
    ensures !Kept('|', isWord)
  {
    assert '|' !in SpaceChars;
    assert '|' !in ".,;:!?-()[]'\"";
  }

  /** `clean_text` with the OCR fixes applied before the artifact step, as evidently intended. */
  function UtilsCleanTextFixed(text: string, isWord: char -> bool): (r: string)
    ensures forall i :: 0 <= i < |r| ==> Kept(r[i], isWord)
    ensures r == [] <==> AllSpace(text)
  {
    var t := Squish(text);
    var f := FixBetweenWords(FixBetweenWords(t, '|', 'l', isWord), '0', 'o', isWord);
    DropArtifacts(f, isWord)
  }

  /**
   * Between two word characters a `|` becomes `l` once the fixes run
   * first, while `clean_text` as written turns it into a space.
   */
  lemma PipeFixApplies(a: char, b: char, isWord: char -> bool)
    requires isWord(a) && isWord(b) && isWord('l') && !isWord('|')
    requires !IsSpace(a) && !IsSpace(b)
    ensures UtilsCleanTextFixed([a, '|', b], isWord) == [a, 'l', b]
    ensures UtilsCleanText([a, '|', b], isWord) == [a, ' ', b]
  {
    var s := [a, '|', b];
    SpaceFacts();
    PipeIsArtifact(isWord);
    SquishNoSpace(s);
    // corrected order
    var f1 := FixBetweenWords(s, '|', 'l', isWord);
    assert f1 == [a, 'l', b] + FixBetweenWords(s[3..], '|', 'l', isWord);
    var f2 := FixBetweenWords(f1, '0', 'o', isWord);
    assert f2 == f1 by {
      assert f2 == [f1[0]] + FixBetweenWords(f1[1..], '0', 'o', isWord);
      assert f1[1..] == ['l', b];
    }
    DropArtifactsKept(f1, isWord);
    // as written
    var d := DropArtifacts(s, isWord);
    assert ArtifactRun(s[1..], isWord) == 1 by {
      assert s[1..][1..] == [b];
    }
    assert d == [a] + DropArtifacts(s[1..], isWord);
    assert DropArtifacts(s[1..], isWord) == [' '] + DropArtifacts(s[2..], isWord);
    DropArtifactsKept(s[2..], isWord);
    assert d == [a, ' ', b];
    var g := FixBetweenWords(d, '|', 'l', isWord);
    assert g == d;
    assert FixBetweenWords(g, '0', 'o', isWord) == [a] + FixBetweenWords(g[1..], '0', 'o', isWord);
    assert g[1..] == [' ', b];
  }
}
