/**
 * Python string primitives used throughout the pipeline, stated over
 * `seq<char>`: `str.isspace`, `strip`, `split(sep)`, `split()`,
 * `find`/`rfind`, `in`, `replace`, `startswith`/`endswith`, ASCII
 * `lower`/`upper`/`title`, the slice `s[:n]` for any integer `n`, and the
 * `\s+` -> `' '` substitution.
 */
module Text {

  // ---------------------------------------------------------------------
  // Characters

  /**
   * The characters of Python's `str.isspace` (also the `\s` class of `re`
   * on `str` patterns).
   */
  const SpaceChars: set<char> :=
    {' ', '\t', '\n', '\U{b}', '\U{c}', '\r', '\U{1c}', '\U{1d}', '\U{1e}', '\U{1f}',
     '\U{85}', '\U{a0}', '\U{1680}', '\U{2000}', '\U{2001}', '\U{2002}', '\U{2003}',
     '\U{2004}', '\U{2005}', '\U{2006}', '\U{2007}', '\U{2008}', '\U{2009}', '\U{200a}',
     '\U{2028}', '\U{2029}', '\U{202f}', '\U{205f}', '\U{3000}'}

  predicate IsSpace(c: char) { c in SpaceChars }

  lemma SpaceFacts()
    ensures IsSpace(' ') && IsSpace('\n') && IsSpace('\t')
    ensures !IsSpace('.') && !IsSpace('!') && !IsSpace('?') && !IsSpace(',')
  {
  }

  predicate IsUpperAscii(c: char) { 'A' <= c <= 'Z' }
  predicate IsLowerAscii(c: char) { 'a' <= c <= 'z' }
  predicate IsLetterAscii(c: char) { IsUpperAscii(c) || IsLowerAscii(c) }
  predicate IsDigitAscii(c: char) { '0' <= c <= '9' }

  function LowerChar(c: char): (r: char)
    ensures IsUpperAscii(c) ==> IsLowerAscii(r)
    ensures !IsUpperAscii(c) ==> r == c
  {
    if IsUpperAscii(c) then (c as int + 32) as char else c
  }

  function UpperChar(c: char): (r: char)
    ensures IsLowerAscii(c) ==> IsUpperAscii(r)
    ensures !IsLowerAscii(c) ==> r == c
  {
    if IsLowerAscii(c) then (c as int - 32) as char else c
  }

  /** `s.lower()` on the ASCII letters. */
  function Lower(s: string): (r: string)
    ensures |r| == |s|
    ensures forall i :: 0 <= i < |s| ==> r[i] == LowerChar(s[i])
  {
    if s == [] then [] else [LowerChar(s[0])] + Lower(s[1..])
  }

  /**
   * `s.title()` on the ASCII letters: a letter is upper-cased when the
   * character before it is not a letter and lower-cased otherwise.
   */
  function Title(s: string): (r: string)
    ensures |r| == |s|
    ensures forall i :: 0 <= i < |s| && IsLetterAscii(s[i]) ==>
      r[i] == (if i == 0 || !IsLetterAscii(s[i - 1]) then UpperChar(s[i]) else LowerChar(s[i]))
    ensures forall i :: 0 <= i < |s| && !IsLetterAscii(s[i]) ==> r[i] == s[i]
  {
    TitleFrom(s, false)
  }

  function TitleFrom(s: string, afterLetter: bool): (r: string)
    ensures |r| == |s|
    ensures forall i :: 0 <= i < |s| && IsLetterAscii(s[i]) ==>
      r[i] == (if (if i == 0 then !afterLetter else !IsLetterAscii(s[i - 1])) then UpperChar(s[i]) else LowerChar(s[i]))
    ensures forall i :: 0 <= i < |s| && !IsLetterAscii(s[i]) ==> r[i] == s[i]
  {
    if s == [] then []
    else
      var c := if !IsLetterAscii(s[0]) then s[0] else if afterLetter then LowerChar(s[0]) else UpperChar(s[0]);
      [c] + TitleFrom(s[1..], IsLetterAscii(s[0]))
  }

  // ---------------------------------------------------------------------
  // Prefixes, suffixes, occurrences

  predicate StartsWith(s: string, p: string) { |p| <= |s| && s[..|p|] == p }
  predicate EndsWith(s: string, p: string) { |p| <= |s| && s[|s| - |p|..] == p }

  /** `s.endswith(c)` for a one-character suffix. */
  predicate EndsWithChar(s: string, c: char) { |s| > 0 && s[|s| - 1] == c }

  /** `s.endswith(('.', '!', '?'))`. */
  predicate EndsWithTerminal(s: string) {
    EndsWithChar(s, '.') || EndsWithChar(s, '!') || EndsWithChar(s, '?')
  }

  predicate OccursAt(s: string, t: string, i: int) {
    0 <= i && i + |t| <= |s| && s[i..i + |t|] == t
  }

  /** `t in s`. */
  predicate Contains(s: string, t: string) {
    exists i :: 0 <= i <= |s| && OccursAt(s, t, i)
  }

  /** `s.find(t, from)`: the first occurrence at or after `from`, or -1. */
  function FindFrom(s: string, t: string, from: nat): (r: int)
    ensures r == -1 || (from <= r && OccursAt(s, t, r))
    ensures r == -1 ==> forall j :: from <= j <= |s| ==> !OccursAt(s, t, j)
    ensures r != -1 ==> forall j :: from <= j < r ==> !OccursAt(s, t, j)
    decreases |s| - from
  {
    if from + |t| > |s| then -1
    else if s[from..from + |t|] == t then from
    else FindFrom(s, t, from + 1)
  }

  function Find(s: string, t: string): (r: int)
    ensures r == -1 <==> !Contains(s, t)
    ensures r != -1 ==> OccursAt(s, t, r) && forall j :: 0 <= j < r ==> !OccursAt(s, t, j)
  {
    FindFrom(s, t, 0)
  }

  /** `s.find(c)` for one character. */
  function FindChar(s: string, c: char): (r: int)
    ensures -1 <= r < |s|
    ensures r == -1 <==> c !in s
    ensures r != -1 ==> s[r] == c && c !in s[..r]
  {
    if s == [] then -1
    else if s[0] == c then 0
    else var k := FindChar(s[1..], c); if k == -1 then -1 else k + 1
  }

  /** `s.rfind(c)` for one character. */
  function RFindChar(s: string, c: char): (r: int)
    ensures -1 <= r < |s|
    ensures r == -1 <==> c !in s
    ensures r != -1 ==> s[r] == c && c !in s[r + 1..]
  {
    if s == [] then -1
    else if s[|s| - 1] == c then |s| - 1
    else RFindChar(s[..|s| - 1], c)
  }

  lemma ContainsIn(t: string, s: string)
    requires OccursAt(s, t, 0)
    ensures Contains(s, t)
  {
  }

  /** An occurrence inside a slice of `s` is an occurrence in `s`. */
  lemma OccursInSlice(s: string, t: string, a: int, b: int, j: int)
    requires 0 <= a <= b <= |s|
    requires OccursAt(s[a..b], t, j)
    ensures OccursAt(s, t, a + j)
  {
    var u := s[a..b];
    assert u[j..j + |t|] == t;
    forall k | 0 <= k < |t| ensures s[a + j..a + j + |t|][k] == t[k] {
      assert t[k] == u[j..j + |t|][k] == u[j + k];
    }
    assert s[a + j..a + j + |t|] == t;
  }

  // ---------------------------------------------------------------------
  // Whitespace

  predicate AllSpace(s: string) { forall i :: 0 <= i < |s| ==> IsSpace(s[i]) }

  /** Length of the leading run of whitespace. */
  function LeadingSpaces(s: string): (n: nat)
    ensures n <= |s|
    ensures forall i :: 0 <= i < n ==> IsSpace(s[i])
    ensures n < |s| ==> !IsSpace(s[n])
  {
    if s == [] || !IsSpace(s[0]) then 0 else 1 + LeadingSpaces(s[1..])
  }

  /** Length of the trailing run of whitespace. */
  function TrailingSpaces(s: string): (n: nat)
    ensures n <= |s|
    ensures forall i :: |s| - n <= i < |s| ==> IsSpace(s[i])
    ensures n < |s| ==> !IsSpace(s[|s| - n - 1])
  {
    if s == [] || !IsSpace(s[|s| - 1]) then 0 else 1 + TrailingSpaces(s[..|s| - 1])
  }

  /** `s.lstrip()`. */
  function StripLeft(s: string): (r: string)
    ensures |r| <= |s| && r == s[|s| - |r|..]
    ensures forall i :: 0 <= i < |s| - |r| ==> IsSpace(s[i])
    ensures r != [] ==> !IsSpace(r[0])
  {
    s[LeadingSpaces(s)..]
  }

  /** `s.rstrip()`. */
  function StripRight(s: string): (r: string)
    ensures |r| <= |s| && r == s[..|r|]
    ensures forall i :: |r| <= i < |s| ==> IsSpace(s[i])
    ensures r != [] ==> !IsSpace(r[|r| - 1])
  {
    s[..|s| - TrailingSpaces(s)]
  }

  /**
   * `s.strip()`: the slice of `s` that starts after its leading whitespace
   * and leaves only whitespace after it.
   */
  function Strip(s: string): (r: string)
    ensures LeadingSpaces(s) + |r| <= |s|
    ensures r == s[LeadingSpaces(s)..LeadingSpaces(s) + |r|]
    ensures forall i :: LeadingSpaces(s) + |r| <= i < |s| ==> IsSpace(s[i])
    ensures r != [] ==> !IsSpace(r[0]) && !IsSpace(r[|r| - 1])
    ensures r == [] <==> AllSpace(s)
  {
    var a := LeadingSpaces(s);
    var t := s[a..];
    var r := StripRight(t);
    assert forall i :: a + |r| <= i < |s| ==> IsSpace(s[i]) by {
      forall i | a + |r| <= i < |s| ensures IsSpace(s[i]) {
        assert s[i] == t[i - a];
      }
    }
    r
  }

  predicate IsStripped(s: string) { s == [] || (!IsSpace(s[0]) && !IsSpace(s[|s| - 1])) }

  lemma StripOfStripped(s: string)
    requires IsStripped(s)
    ensures Strip(s) == s
  {
    assert LeadingSpaces(s) == 0;
    assert TrailingSpaces(s) == 0;
  }

  /** `strip` is idempotent. */
  lemma StripIdempotent(s: string)
    ensures Strip(Strip(s)) == Strip(s)
  {
    StripOfStripped(Strip(s));
  }

  /** No whitespace character other than `' '`, and never two in a row. */
  predicate SingleSpaced(s: string) {
    (forall i :: 0 <= i < |s| && IsSpace(s[i]) ==> s[i] == ' ')
    && (forall i :: 0 <= i < |s| - 1 ==> !(IsSpace(s[i]) && IsSpace(s[i + 1])))
  }

  /** The non-whitespace characters of `s`, in order. */
  function NonSpace(s: string): (r: string)
    ensures |r| <= |s|
    ensures forall i :: 0 <= i < |r| ==> !IsSpace(r[i])
  {
    if s == [] then [] else (if IsSpace(s[0]) then [] else [s[0]]) + NonSpace(s[1..])
  }

  lemma {:induction false} NonSpaceAppend(a: string, b: string)
    ensures NonSpace(a + b) == NonSpace(a) + NonSpace(b)
  {
    if a != [] {
      var h := if IsSpace(a[0]) then [] else [a[0]];
      NonSpaceAppend(a[1..], b);
      TailAppend(a, b);
      assert NonSpace(a + b) == h + NonSpace(a[1..] + b);
      assert NonSpace(a) == h + NonSpace(a[1..]);
      Assoc(h, NonSpace(a[1..]), NonSpace(b));
    } else {
      assert a + b == b;
    }
  }

  lemma NonSpaceAllSpace(s: string)
    requires AllSpace(s)
    ensures NonSpace(s) == []
  {
    if s != [] { NonSpaceAllSpace(s[1..]); }
  }

  /**
   * `re.sub(r'\s+', ' ', s)`: every maximal run of whitespace becomes one
   * `' '`; all other characters are kept in order.
   */
  function CollapseSpaces(s: string): (r: string)
    ensures |r| <= |s|
    ensures r == [] <==> s == []
    ensures SingleSpaced(r)
    ensures r != [] ==> (IsSpace(r[0]) <==> IsSpace(s[0]))
    ensures NonSpace(r) == NonSpace(s)
    decreases |s|
  {
    if s == [] then []
    else if IsSpace(s[0]) then
      var n := LeadingSpaces(s);
      var rest := CollapseSpaces(s[n..]);
      NonSpaceOfRun(s, n, rest);
      [' '] + rest
    else
      var rest := CollapseSpaces(s[1..]);
      NonSpaceOfKept(s, rest);
      [s[0]] + rest
  }

  lemma NonSpaceOfRun(s: string, n: nat, rest: string)
    requires n <= |s| && forall i :: 0 <= i < n ==> IsSpace(s[i])
    requires NonSpace(rest) == NonSpace(s[n..])
    ensures NonSpace([' '] + rest) == NonSpace(s)
  {
    SliceSplit(s, n);
    NonSpaceAppend(s[..n], s[n..]);
    NonSpaceAllSpace(s[..n]);
    NonSpaceAppend([' '], rest);
  }

  lemma NonSpaceOfKept(s: string, rest: string)
    requires s != [] && !IsSpace(s[0])
    requires NonSpace(rest) == NonSpace(s[1..])
    ensures NonSpace([s[0]] + rest) == NonSpace(s)
  {
    assert ([s[0]] + rest)[1..] == rest;
  }

  lemma SliceSplit<T>(s: seq<T>, n: nat)
    requires n <= |s|
    ensures s == s[..n] + s[n..]
  {
  }

  lemma SingleSpacedSlice(s: string, a: int, b: int)
    requires 0 <= a <= b <= |s|
    requires SingleSpaced(s)
    ensures SingleSpaced(s[a..b])
  {
    var t := s[a..b];
    assert forall i :: 0 <= i < |t| ==> t[i] == s[a + i];
  }

  /** `re.sub(r'\s+', ' ', s).strip()`. */
  function Squish(s: string): (r: string)
    ensures IsStripped(r) && SingleSpaced(r)
    ensures r == [] <==> AllSpace(s)
    ensures NonSpace(r) == NonSpace(s)
  {
    var c := CollapseSpaces(s);
    StripKeeps(c);
    NonSpaceEmpty(c);
    NonSpaceEmpty(s);
    Strip(c)
  }

  /** A text with no whitespace is left as it is by `Squish`. */
  lemma {:induction false} SquishNoSpace(s: string)
    requires forall i :: 0 <= i < |s| ==> !IsSpace(s[i])
    ensures Squish(s) == s
  {
    CollapseNoSpace(s);
    StripOfStripped(s);
  }

  lemma {:induction false} CollapseNoSpace(s: string)
    requires forall i :: 0 <= i < |s| ==> !IsSpace(s[i])
    ensures CollapseSpaces(s) == s
    decreases |s|
  {
    if s != [] {
      CollapseNoSpace(s[1..]);
      assert [s[0]] + s[1..] == s;
    }
  }

  lemma NonSpaceEmpty(s: string)
    ensures NonSpace(s) == [] <==> AllSpace(s)
  {
    if s != [] {
      NonSpaceEmpty(s[1..]);
      assert AllSpace(s) <==> IsSpace(s[0]) && AllSpace(s[1..]) by {
        assert forall i :: 1 <= i < |s| ==> s[i] == s[1..][i - 1];
      }
    }
  }

  /** Stripping keeps single spacing and every non-whitespace character. */
  lemma StripKeeps(c: string)
    ensures SingleSpaced(c) ==> SingleSpaced(Strip(c))
    ensures NonSpace(Strip(c)) == NonSpace(c)
  {
    var r := Strip(c);
    var a := LeadingSpaces(c);
    if SingleSpaced(c) { SingleSpacedSlice(c, a, a + |r|); }
    StripKeepsNonSpace(c);
  }

  lemma SliceThree(s: string, i: nat, j: nat)
    requires i <= j <= |s|
    ensures s == s[..i] + s[i..j] + s[j..]
  {
  }

  /** A string is its leading blanks, its `strip()`, and its trailing blanks. */
  lemma StripParts(c: string)
    ensures var a, r := LeadingSpaces(c), Strip(c);
            && c == c[..a] + r + c[a + |r|..]
            && AllSpace(c[..a]) && AllSpace(c[a + |r|..])
  {
    var a, r := LeadingSpaces(c), Strip(c);
    var y := c[a + |r|..];
    var x := c[..a];
    SliceThree(c, a, a + |r|);
    forall i | 0 <= i < |x| ensures IsSpace(x[i]) {
      assert x[i] == c[i];
    }
    forall i | 0 <= i < |y| ensures IsSpace(y[i]) {
      assert y[i] == c[a + |r| + i];
    }
  }

  lemma StripKeepsNonSpace(c: string)
    ensures NonSpace(Strip(c)) == NonSpace(c)
  {
    var r := Strip(c);
    var a := LeadingSpaces(c);
    var x, y := c[..a], c[a + |r|..];
    StripParts(c);
    NonSpaceAppend(x, r);
    NonSpaceAppend(x + r, y);
    NonSpaceAllSpace(x);
    NonSpaceAllSpace(y);
    calc {
      NonSpace(c);
      NonSpace(x + r) + NonSpace(y);
      NonSpace(x) + NonSpace(r) + NonSpace(y);
      [] + NonSpace(r) + [];
    }
    assert [] + NonSpace(r) + [] == NonSpace(r);
  }

  // ---------------------------------------------------------------------
  // Splitting and joining

  /** `sep.join(parts)`. */
  function Join(sep: string, parts: seq<string>): (r: string)
  {
    if parts == [] then []
    else if |parts| == 1 then parts[0]
    else parts[0] + sep + Join(sep, parts[1..])
  }

  /**
   * `s.split(sep)` for a non-empty separator (Python raises `ValueError`
   * on an empty one): the pieces between the non-overlapping occurrences
   * of `sep` found from left to right.
   */
  function Split(s: string, sep: string): (r: seq<string>)
    requires sep != []
    ensures |r| >= 1
    ensures Join(sep, r) == s
    ensures forall i :: 0 <= i < |r| ==> !Contains(r[i], sep)
    decreases |s|
  {
    var k := Find(s, sep);
    if k == -1 then [s]
    else
      var rest := Split(s[k + |sep|..], sep);
      SplitOnce(s, sep, k, rest);
      [s[..k]] + rest
  }

  /** The last of `pieces` is the text of `s` after its last `c` (all of `s` when there is none). */
  predicate LastPiece(pieces: seq<string>, s: string, c: char) {
    pieces != [] && pieces[|pieces| - 1] == s[RFindChar(s, c) + 1..]
  }

  /** The last piece of `split(c)` is the text after the last `c`, or all of it when there is none. */
  lemma {:induction false} SplitLast(s: string, c: char)
    ensures LastPiece(Split(s, [c]), s, c)
    decreases |s|
  {
    var k := SplitHead(s, c);
    var r := Split(s, [c]);
    if k == -1 {
      LastNone(s, c, r);
    } else {
      SplitLast(s[k + 1..], c);
      LastAfter(s, c, k, r, Split(s[k + 1..], [c]));
    }
  }

  /** With no `c`, the one piece is the whole text, which is the text after the (absent) last `c`. */
  lemma LastNone(s: string, c: char, r: seq<string>)
    requires r == [s] && RFindChar(s, c) == -1
    ensures LastPiece(r, s, c)
  {
    assert s[0..] == s;
  }

  /** When the pieces are the text before a `c` and then the pieces after it, the last piece carries over. */
  lemma LastAfter(s: string, c: char, k: nat, r: seq<string>, rest: seq<string>)
    requires k < |s| && s[k] == c
    requires r == [s[..k]] + rest && LastPiece(rest, s[k + 1..], c)
    ensures LastPiece(r, s, c)
  {
    RFindShift(s, c, k);
    SliceOfSlice(s, k + 1, RFindChar(s[k + 1..], c) + 1, RFindChar(s, c) + 1);
    LastStep(r, s[..k], rest, rest[|rest| - 1]);
  }

  /** The first step of `split(c)`: no `c` at all, or the piece before the first `c` and the pieces after it. */
  lemma SplitHead(s: string, c: char) returns (k: int)
    ensures k == -1 ==> Split(s, [c]) == [s] && RFindChar(s, c) == -1
    ensures k != -1 ==> 0 <= k < |s| && s[k] == c && Split(s, [c]) == [s[..k]] + Split(s[k + 1..], [c])
  {
    k := Find(s, [c]);
    if k == -1 {
      SplitNone(s, c);
    } else {
      SplitCharStep(s, c, k);
    }
  }

  lemma LastStep<T>(r: seq<T>, x: T, rest: seq<T>, last: T)
    requires r == [x] + rest && rest != [] && rest[|rest| - 1] == last
    ensures r[|r| - 1] == last
  {
  }

  lemma SliceOfSlice<T>(s: seq<T>, a: nat, b: nat, p: nat)
    requires a + b == p <= |s|
    ensures s[a..][b..] == s[p..]
  {
  }

  lemma SplitNone(s: string, c: char)
    requires Find(s, [c]) == -1
    ensures Split(s, [c]) == [s] && RFindChar(s, c) == -1
  {
    if c in s {
      var j :| 0 <= j < |s| && s[j] == c;
      assert OccursAt(s, [c], j);
    }
  }

  lemma SplitCharStep(s: string, c: char, k: int)
    requires k == Find(s, [c]) && k != -1
    ensures 0 <= k < |s| && s[k] == c
    ensures Split(s, [c]) == [s[..k]] + Split(s[k + 1..], [c])
  {
    assert OccursAt(s, [c], k);
    assert s[k..k + 1][0] == s[k];
  }

  /** The last `c` of `s` lies at or after any `c` at `k`, so it is found in the text after `k`. */
  lemma {:induction false} RFindShift(s: string, c: char, k: int)
    requires 0 <= k < |s| && s[k] == c
    ensures RFindChar(s, c) == k + 1 + RFindChar(s[k + 1..], c)
    decreases |s|
  {
    if k < |s| - 1 && s[|s| - 1] != c {
      var p := s[..|s| - 1];
      RFindShift(p, c, k);
      assert p[k + 1..] == s[k + 1..][..|s[k + 1..]| - 1];
    }
  }

  /** One step of `Split`: the text before the first `sep`, then the pieces of the rest. */
  lemma SplitOnce(s: string, sep: string, k: nat, rest: seq<string>)
    requires sep != [] && OccursAt(s, sep, k) && forall j :: 0 <= j < k ==> !OccursAt(s, sep, j)
    requires |rest| >= 1 && Join(sep, rest) == s[k + |sep|..]
    requires forall i :: 0 <= i < |rest| ==> !Contains(rest[i], sep)
    ensures Join(sep, [s[..k]] + rest) == s
    ensures forall i :: 0 <= i < |[s[..k]] + rest| ==> !Contains(([s[..k]] + rest)[i], sep)
  {
    var head := s[..k];
    var r := [head] + rest;
    assert r[1..] == rest;
    JoinHead(sep, r);
    SliceThree(s, k, k + |sep|);
    assert !Contains(head, sep) by {
      forall j | OccursAt(head, sep, j) ensures false {
        OccursInSlice(s, sep, 0, k, j);
      }
    }
  }

  /** The first piece of `s.split(sep)` is the text before the first `sep`. */
  lemma SplitFirst(s: string, sep: string)
    requires sep != []
    ensures Split(s, sep)[0] == if Contains(s, sep) then s[..Find(s, sep)] else s
  {
  }

  /** `s.split(sep)[1]` exists exactly when `sep` occurs in `s`. */
  lemma SplitHasSecond(s: string, sep: string)
    requires sep != []
    ensures |Split(s, sep)| >= 2 <==> Contains(s, sep)
  {
  }

  /** On a one-character separator, `Find` is the first index of that character. */
  lemma FindOne(s: string, c: char)
    ensures Find(s, [c]) == FindChar(s, c)
  {
    var f, g := Find(s, [c]), FindChar(s, c);
    forall j | 0 <= j < |s| ensures OccursAt(s, [c], j) <==> s[j] == c {
      if s[j] == c { assert s[j..j + 1] == [c]; }
      if OccursAt(s, [c], j) { assert s[j..j + 1][0] == s[j]; }
    }
    if g != -1 {
      assert OccursAt(s, [c], g);
    }
  }

  /** Behind a head without `c`, the first `c` moves by the head's length. */
  lemma {:induction false} FindCharShift(p: string, t: string, c: char)
    requires c !in p
    ensures FindChar(p + t, c) == if FindChar(t, c) == -1 then -1 else |p| + FindChar(t, c)
  {
    if p == [] {
      assert p + t == t;
    } else {
      assert (p + t)[0] == p[0];
      assert (p + t)[1..] == p[1..] + t;
      FindCharShift(p[1..], t, c);
    }
  }

  /** One step of `Split`. */
  lemma SplitStep(s: string, sep: string)
    requires sep != []
    ensures Split(s, sep) == if Find(s, sep) == -1 then [s]
                             else [s[..Find(s, sep)]] + Split(s[Find(s, sep) + |sep|..], sep)
  {
  }

  /** Slicing a concatenation at a position inside its second part. */
  lemma SliceConcat(p: string, t: string, g: nat)
    requires g < |t|
    ensures (p + t)[..|p| + g] == p + t[..g]
    ensures (p + t)[|p| + g + 1..] == t[g + 1..]
  {
  }

  /** Splitting at the first occurrence of a one-character separator. */
  lemma SplitAtChar(s: string, c: char)
    requires c in s
    ensures FindChar(s, c) >= 0
    ensures Split(s, [c]) == [s[..FindChar(s, c)]] + Split(s[FindChar(s, c) + 1..], [c])
  {
    FindOne(s, c);
    SplitStep(s, [c]);
  }

  /** Splitting at a comma that follows a comma-free head. */
  lemma SplitAfterHead(a: string, t: string)
    requires ',' !in a
    ensures Split(a + "," + t, ",") == [a] + Split(t, ",")
  {
    var s := a + "," + t;
    assert s == a + ("," + t);
    FindCharShift(a, "," + t, ',');
    assert FindChar(s, ',') == |a|;
    SplitAtChar(s, ',');
    SliceAround(a, ',', t);
  }

  lemma SliceAround(a: string, x: char, t: string)
    ensures (a + [x] + t)[..|a|] == a && (a + [x] + t)[|a| + 1..] == t
  {
  }

  lemma JoinSingle(sep: string, a: string, rest: seq<string>)
    requires rest != []
    ensures Join(sep, [a] + rest) == a + sep + Join(sep, rest)
  {
    assert ([a] + rest)[1..] == rest;
  }

  /**
   * Joining pieces none of which contains `t` with a glue that is non-empty
   * and shares no character with `t` gives a string without `t`.
   */
  lemma {:induction false} JoinAvoids(glue: string, ps: seq<string>, t: string)
    requires t != [] && glue != []
    requires forall c :: c in glue ==> c !in t
    requires forall i :: 0 <= i < |ps| ==> !Contains(ps[i], t)
    ensures !Contains(Join(glue, ps), t)
    decreases |ps|
  {
    if |ps| <= 1 {
    } else {
      var p := ps[0];
      var rest := Join(glue, ps[1..]);
      JoinAvoids(glue, ps[1..], t);
      var x := p + glue + rest;
      forall j | OccursAt(x, t, j) ensures false {
        if j + |t| <= |p| {
          assert x[j..j + |t|] == p[j..j + |t|];
          assert OccursAt(p, t, j);
        } else if j < |p| + |glue| {
          GlueOverlap(p, glue, rest, t, j);
          assert false;
        } else {
          var j' := j - |p| - |glue|;
          assert x[j..j + |t|] == rest[j'..j' + |t|];
          assert OccursAt(rest, t, j');
        }
      }
    }
  }

  /** An occurrence of `t` that overlaps the glue shares a character with it. */
  lemma GlueOverlap(p: string, glue: string, rest: string, t: string, j: int)
    requires t != [] && glue != []
    requires OccursAt(p + glue + rest, t, j)
    requires j + |t| > |p| && j < |p| + |glue|
    ensures exists k :: 0 <= k < |t| && t[k] in glue && t[k] in t
  {
    var x := p + glue + rest;
    var q := if j < |p| then |p| else j;
    assert x[q] == glue[q - |p|];
    assert x[j..j + |t|][q - j] == t[q - j];
  }

  /**
   * `s.split()` with no separator: the maximal runs of non-whitespace
   * characters, in order.
   */
  function Words(s: string): (r: seq<string>)
    ensures forall i :: 0 <= i < |r| ==> IsWord(r[i])
    ensures r == [] <==> AllSpace(s)
    decreases |s|
  {
    var t := StripLeft(s);
    StripLeftEmpty(s);
    if t == [] then []
    else
      var n := WordLength(t);
      FirstWord(t);
      var w, rest := t[..n], Words(t[n..]);
      ConsWords(w, rest);
      [w] + rest
  }

  /** The leading run of a string that starts with a non-space character is a word. */
  lemma FirstWord(t: string)
    requires t != [] && !IsSpace(t[0])
    ensures 0 < WordLength(t) && IsWord(t[..WordLength(t)])
  {
    var w := t[..WordLength(t)];
    forall i | 0 <= i < |w| ensures !IsSpace(w[i]) {
      assert w[i] == t[i];
    }
  }

  lemma StripLeftEmpty(s: string)
    ensures StripLeft(s) == [] <==> AllSpace(s)
  {
    var t := StripLeft(s);
    if t != [] {
      assert s[|s| - |t|] == t[0];
    }
  }

  lemma ConsWords(w: string, rest: seq<string>)
    requires IsWord(w) && forall i :: 0 <= i < |rest| ==> IsWord(rest[i])
    ensures forall i :: 0 <= i < |[w] + rest| ==> IsWord(([w] + rest)[i])
  {
    forall i | 0 <= i < |[w] + rest| ensures IsWord(([w] + rest)[i]) {
      if i > 0 { assert ([w] + rest)[i] == rest[i - 1]; }
    }
  }

  /** Length of the leading run of non-whitespace characters. */
  function WordLength(s: string): (n: nat)
    ensures n <= |s|
    ensures forall i :: 0 <= i < n ==> !IsSpace(s[i])
    ensures n < |s| ==> IsSpace(s[n])
    ensures s != [] && !IsSpace(s[0]) ==> n > 0
  {
    if s == [] || IsSpace(s[0]) then 0 else 1 + WordLength(s[1..])
  }

  lemma WordLengthOf(w: string, rest: string)
    requires forall i :: 0 <= i < |w| ==> !IsSpace(w[i])
    requires rest == [] || IsSpace(rest[0])
    ensures WordLength(w + rest) == |w|
  {
    if w != [] {
      assert (w + rest)[1..] == w[1..] + rest;
      WordLengthOf(w[1..], rest);
    } else {
      assert w + rest == rest;
    }
  }

  predicate IsWord(w: string) { w != [] && forall i :: 0 <= i < |w| ==> !IsSpace(w[i]) }

  lemma WordsCons(w: string, rest: string)
    requires IsWord(w)
    requires rest == [] || IsSpace(rest[0])
    ensures Words(w + rest) == [w] + Words(rest)
  {
    var s := w + rest;
    assert s[0] == w[0];
    assert LeadingSpaces(s) == 0;
    assert StripLeft(s) == s;
    WordLengthOf(w, rest);
    assert s[..|w|] == w;
    assert s[|w|..] == rest;
  }

  lemma WordsSpaceLead(x: string)
    ensures Words(" " + x) == Words(x)
  {
    var s := " " + x;
    assert s[1..] == x;
    assert LeadingSpaces(s) == 1 + LeadingSpaces(x);
    assert StripLeft(s) == StripLeft(x);
    WordsSkipLead(x);
  }

  lemma WordsSkipLead(s: string)
    ensures Words(s) == Words(StripLeft(s))
  {
    var t := StripLeft(s);
    assert LeadingSpaces(t) == 0;
    assert StripLeft(t) == t;
  }

  lemma WordsStep(w: string, inner: string)
    requires IsWord(w)
    ensures Words(w + " " + inner) == [w] + Words(inner)
  {
    assert w + " " + inner == w + (" " + inner);
    assert (" " + inner)[0] == ' ';
    WordsCons(w, " " + inner);
    WordsSpaceLead(inner);
  }

  lemma WordsOfOne(w: string)
    requires IsWord(w)
    ensures Words(w) == [w]
  {
    WordsCons(w, []);
    assert w + [] == w;
  }

  /** `" ".join(ws).split() == ws` when every entry is a word. */
  lemma {:induction false} WordsOfJoin(ws: seq<string>)
    requires forall i :: 0 <= i < |ws| ==> IsWord(ws[i])
    ensures Words(Join(" ", ws)) == ws
    decreases |ws|
  {
    if ws == [] {
      assert Join(" ", ws) == [];
      assert StripLeft([]) == [];
    } else if |ws| == 1 {
      WordsOfOne(ws[0]);
    } else {
      WordsOfJoin(ws[1..]);
      WordsOfJoinStep(ws);
    }
  }

  lemma WordsOfJoinStep(ws: seq<string>)
    requires |ws| >= 2 && IsWord(ws[0])
    requires Words(Join(" ", ws[1..])) == ws[1..]
    ensures Words(Join(" ", ws)) == ws
  {
    JoinHead(" ", ws);
    WordsStep(ws[0], Join(" ", ws[1..]));
    ConsSlice(ws);
  }

  lemma JoinHead(sep: string, ps: seq<string>)
    requires |ps| >= 2
    ensures Join(sep, ps) == ps[0] + sep + Join(sep, ps[1..])
  {
  }

  lemma SnocSlice<T>(s: seq<T>)
    requires s != []
    ensures s == s[..|s| - 1] + [s[|s| - 1]]
  {
  }

  lemma ShiftEq<T>(a: seq<T>, t: seq<T>)
    requires |a| == |t| + 1 && forall i :: 1 <= i < |a| ==> a[i] == t[i - 1]
    ensures a == [a[0]] + t
  {
  }

  lemma TailAppend<T>(a: seq<T>, b: seq<T>)
    requires a != []
    ensures (a + b)[0] == a[0] && (a + b)[1..] == a[1..] + b
  {
  }

  lemma Assoc<T>(x: seq<T>, y: seq<T>, z: seq<T>)
    ensures x + (y + z) == (x + y) + z
  {
  }

  lemma AllSnoc<T>(b: seq<T>, q: T, P: T -> bool)
    requires forall k :: 0 <= k < |b| ==> P(b[k])
    requires P(q)
    ensures forall k :: 0 <= k < |b + [q]| ==> P((b + [q])[k])
  {
  }

  lemma ConsSlice<T>(s: seq<T>)
    requires s != []
    ensures [s[0]] + s[1..] == s
  {
  }

  // ---------------------------------------------------------------------
  // Slices, filters, replacement

  function Min(a: int, b: int): int { if a <= b then a else b }
  function Max(a: int, b: int): int { if a >= b then a else b }

  /** Python's `s[:n]` for any integer `n` (a negative `n` counts from the end). */
  function Take<T>(s: seq<T>, n: int): (r: seq<T>)
    ensures |r| == if n >= 0 then Min(n, |s|) else Max(0, |s| + n)
    ensures r == s[..|r|]
  {
    if n >= 0 then (if n <= |s| then s[..n] else s)
    else (if |s| + n >= 0 then s[..|s| + n] else [])
  }

  /** `[x] + rest`, with the indexing facts stated once. */
  function Cons<T>(x: T, rest: seq<T>): (r: seq<T>)
    ensures |r| == |rest| + 1 && r[0] == x && forall i :: 1 <= i < |r| ==> r[i] == rest[i - 1]
  {
    [x] + rest
  }

  /** Python's `s[a:b]` for `0 <= a` and a non-negative `b`. */
  function Slice<T>(s: seq<T>, a: nat, b: nat): (r: seq<T>)
    ensures |r| == if a <= Min(b, |s|) then Min(b, |s|) - a else 0
    ensures a <= Min(b, |s|) ==> r == s[a..Min(b, |s|)]
  {
    var e := Min(b, |s|);
    if a <= e then s[a..e] else []
  }

  /** `[p.strip() for p in ps if len(p.strip()) > minLen]`. */
  function StrippedLonger(ps: seq<string>, minLen: int): (r: seq<string>)
    ensures |r| <= |ps|
    ensures forall i :: 0 <= i < |r| ==> |r[i]| > minLen && IsStripped(r[i])
  {
    if ps == [] then []
    else
      var x := Strip(ps[0]);
      var rest := StrippedLonger(ps[1..], minLen);
      if |x| > minLen then [x] + rest else rest
  }

  /** A character absent from every piece is absent from every stripped piece. */
  lemma {:induction false} StrippedLongerWithout(ps: seq<string>, minLen: int, c: char)
    requires forall i :: 0 <= i < |ps| ==> c !in ps[i]
    ensures forall i :: 0 <= i < |StrippedLonger(ps, minLen)| ==> c !in StrippedLonger(ps, minLen)[i]
  {
    if ps != [] {
      forall i | 0 <= i < |ps[1..]| ensures c !in ps[1..][i] {
        assert ps[1..][i] == ps[i + 1];
      }
      StrippedLongerWithout(ps[1..], minLen, c);
      StripWithout(ps[0], c);
      StrippedLongerHead(ps, minLen);
    }
  }

  /** Stripping adds no character. */
  lemma StripWithout(s: string, c: char)
    ensures c !in s ==> c !in Strip(s)
  {
    var x := Strip(s);
    var a := LeadingSpaces(s);
    assert forall k :: 0 <= k < |x| ==> x[k] == s[a + k];
  }

  /** `StrippedLonger` one piece at a time. */
  lemma StrippedLongerCons(x: string, ps: seq<string>, minLen: int)
    ensures StrippedLonger([x] + ps, minLen)
            == (if |Strip(x)| > minLen then [Strip(x)] else []) + StrippedLonger(ps, minLen)
  {
    assert ([x] + ps)[1..] == ps;
  }

  lemma StrippedLongerHead(ps: seq<string>, minLen: int)
    requires ps != []
    ensures StrippedLonger(ps, minLen)
            == (if |Strip(ps[0])| > minLen then [Strip(ps[0])] else []) + StrippedLonger(ps[1..], minLen)
  {
  }

  lemma NotContainsChar(s: string, c: char)
    requires !Contains(s, [c])
    ensures c !in s
  {
    if c in s {
      var i :| 0 <= i < |s| && s[i] == c;
      assert s[i..i + 1] == [c];
      assert OccursAt(s, [c], i);
    }
  }

  /** `[s.strip() for s in text.split('.') if len(s.strip()) > minLen]`. */
  function Sentences(text: string, minLen: int): (r: seq<string>)
    ensures forall i :: 0 <= i < |r| ==> |r[i]| > minLen && IsStripped(r[i]) && '.' !in r[i]
  {
    var ps := Split(text, ".");
    forall i | 0 <= i < |ps| ensures '.' !in ps[i] { NotContainsChar(ps[i], '.'); }
    StrippedLongerWithout(ps, minLen, '.');
    StrippedLonger(ps, minLen)
  }

  /** `s.replace(pat, rep)` for a non-empty `pat`, scanning left to right. */
  function Replace(s: string, pat: string, rep: string): (r: string)
    requires pat != []
    decreases |s|
  {
    if s == [] then []
    else if OccursAt(s, pat, 0) then rep + Replace(s[|pat|..], pat, rep)
    else [s[0]] + Replace(s[1..], pat, rep)
  }

  /** Characters of `s` before its first occurrence of `t` are copied verbatim. */
  lemma {:induction false} ReplaceNoMatchPrefix(s: string, pat: string, rep: string, k: nat)
    requires pat != [] && k <= |s|
    requires forall j :: 0 <= j < k ==> !OccursAt(s, pat, j)
    ensures Replace(s, pat, rep) == s[..k] + Replace(s[k..], pat, rep)
    decreases k
  {
    if k > 0 {
      assert !OccursAt(s, pat, 0);
      forall j | 0 <= j < k - 1 ensures !OccursAt(s[1..], pat, j) {
        if OccursAt(s[1..], pat, j) { assert s[1..|s|] == s[1..]; OccursInSlice(s, pat, 1, |s|, j); }
      }
      ReplaceNoMatchPrefix(s[1..], pat, rep, k - 1);
      assert s[1..][k - 1..] == s[k..];
      assert s[..k] == [s[0]] + s[1..][..k - 1];
    }
  }

  /** `s.replace(pat, rep) == rep.join(s.split(pat))`. */
  lemma {:induction false} ReplaceIsJoinOfSplit(s: string, pat: string, rep: string)
    requires pat != []
    ensures Replace(s, pat, rep) == Join(rep, Split(s, pat))
    decreases |s|
  {
    var k := Find(s, pat);
    if k == -1 {
      ReplaceNoMatchPrefix(s, pat, rep, |s|);
      assert s[|s|..] == [];
      assert s[..|s|] == s;
    } else {
      var rest := s[k + |pat|..];
      ReplaceAtMatch(s, pat, rep, k);
      ReplaceIsJoinOfSplit(rest, pat, rep);
      assert Split(s, pat) == [s[..k]] + Split(rest, pat);
      JoinSingle(rep, s[..k], Split(rest, pat));
    }
  }

  /** At the first occurrence of `pat`, `replace` copies the text before it and puts `rep` in its place. */
  lemma ReplaceAtMatch(s: string, pat: string, rep: string, k: nat)
    requires pat != [] && OccursAt(s, pat, k)
    requires forall j :: 0 <= j < k ==> !OccursAt(s, pat, j)
    ensures k + |pat| <= |s|
    ensures Replace(s, pat, rep) == s[..k] + rep + Replace(s[k + |pat|..], pat, rep)
  {
    ReplaceNoMatchPrefix(s, pat, rep, k);
    var t := s[k..];
    assert OccursAt(t, pat, 0) by { assert t[..|pat|] == s[k..k + |pat|]; }
    assert t[|pat|..] == s[k + |pat|..];
  }

  /**
   * After `s.replace(pat, rep)` with a non-empty `rep` that shares no
   * character with `pat`, no occurrence of `pat` is left.
   */
  lemma ReplaceRemovesAll(s: string, pat: string, rep: string)
    requires pat != [] && rep != []
    requires forall c :: c in rep ==> c !in pat
    ensures !Contains(Replace(s, pat, rep), pat)
  {
    ReplaceIsJoinOfSplit(s, pat, rep);
    JoinAvoids(rep, Split(s, pat), pat);
  }

  /** Membership in a list of strings (Python `x in [..]`). */
  predicate InList(x: string, xs: seq<string>) { x in xs }
}
