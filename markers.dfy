/**
 * The handful of regular expressions the response parsers use, each as a
 * concrete string function with Python `re` semantics: leftmost match,
 * alternatives tried in order, greedy `\s*`, lazy `.+?` under DOTALL,
 * `$` matching at the end or before a final newline, `^` at line starts
 * under MULTILINE, and IGNORECASE on ASCII letters.
 */
module Markers {
  import opened Wrappers
  import opened Text

  /** One alternative of a pattern. */
  datatype Marker =
    | Lit(text: string)  // a literal, case-sensitive
    | Ci(text: string)   // a literal under re.IGNORECASE
    | LineNumber         // `^\d+\.` under re.MULTILINE
    | LineDash           // `^-\s*` under re.MULTILINE
    | PunctRun           // `[.!?]+`

  predicate ValidMarker(m: Marker) {
    (m.Lit? || m.Ci?) ==> m.text != []
  }

  predicate ValidMarkers(ms: seq<Marker>) {
    forall i :: 0 <= i < |ms| ==> ValidMarker(ms[i])
  }

  predicate IsLiteral(m: Marker) { m.Lit? || m.Ci? }

  /** Case-insensitive equality of two strings (ASCII folding). */
  predicate CiEq(a: string, b: string) { Lower(a) == Lower(b) }

  predicate LineStart(s: string, i: nat) { i == 0 || (i <= |s| && s[i - 1] == '\n') }

  predicate IsPunct(c: char) { c == '.' || c == '!' || c == '?' }

  function DigitRun(s: string): (n: nat)
    ensures n <= |s|
    ensures forall k :: 0 <= k < n ==> IsDigitAscii(s[k])
    ensures n < |s| ==> !IsDigitAscii(s[n])
  {
    if s == [] || !IsDigitAscii(s[0]) then 0 else 1 + DigitRun(s[1..])
  }

  function PunctRunLength(s: string): (n: nat)
    ensures n <= |s|
    ensures forall k :: 0 <= k < n ==> IsPunct(s[k])
    ensures n < |s| ==> !IsPunct(s[n])
  {
    if s == [] || !IsPunct(s[0]) then 0 else 1 + PunctRunLength(s[1..])
  }

  /** Literal occurrence of `t` at `i`, case-sensitively or not. */
  predicate LiteralAt(s: string, t: string, ci: bool, i: nat) {
    i + |t| <= |s| && (if ci then CiEq(s[i..i + |t|], t) else s[i..i + |t|] == t)
  }

  /** Length of the match of `m` at position `i`, or -1 when it does not match there. */
  function MatchLen(s: string, i: nat, m: Marker): (r: int)
    requires ValidMarker(m)
    ensures r == -1 || (1 <= r && i + r <= |s|)
    ensures IsLiteral(m) ==> (r == -1 <==> !LiteralAt(s, m.text, m.Ci?, i))
    ensures IsLiteral(m) && r != -1 ==> r == |m.text|
  {
    if i >= |s| then -1
    else match m
      case Lit(t) => if LiteralAt(s, t, false, i) then |t| else -1
      case Ci(t) => if LiteralAt(s, t, true, i) then |t| else -1
      case LineNumber =>
        var d := DigitRun(s[i..]);
        if LineStart(s, i) && d >= 1 && i + d < |s| && s[i + d] == '.' then d + 1 else -1
      case LineDash =>
        if LineStart(s, i) && s[i] == '-' then 1 + LeadingSpaces(s[i + 1..]) else -1
      case PunctRun =>
        var n := PunctRunLength(s[i..]);
        if n >= 1 then n else -1
  }

  /** The match of the first alternative that matches at `i`, or -1. */
  function MatchAny(s: string, i: nat, ms: seq<Marker>): (r: int)
    requires ValidMarkers(ms)
    ensures r == -1 || (1 <= r && i + r <= |s|)
  {
    if ms == [] then -1
    else
      var n := MatchLen(s, i, ms[0]);
      if n != -1 then n else MatchAny(s, i, ms[1..])
  }

  /** No alternative matches exactly when `MatchAny` says so; otherwise its length is some alternative's. */
  lemma {:induction false} MatchAnySpec(s: string, i: nat, ms: seq<Marker>)
    requires ValidMarkers(ms)
    ensures MatchAny(s, i, ms) == -1 <==> forall k :: 0 <= k < |ms| ==> MatchLen(s, i, ms[k]) == -1
    ensures MatchAny(s, i, ms) != -1 ==> exists k :: 0 <= k < |ms| && MatchLen(s, i, ms[k]) == MatchAny(s, i, ms)
  {
    if ms != [] && MatchLen(s, i, ms[0]) == -1 {
      MatchAnySpec(s, i, ms[1..]);
      assert forall k :: 1 <= k < |ms| ==> ms[k] == ms[1..][k - 1];
      if MatchAny(s, i, ms) != -1 {
        var k :| 0 <= k < |ms| - 1 && MatchLen(s, i, ms[1..][k]) == MatchAny(s, i, ms);
        assert ms[1..][k] == ms[k + 1];
      }
    }
  }

  // ---------------------------------------------------------------------
  // re.split

  /** The pieces of a split and the separator texts between them. */
  datatype Cut = Cut(pieces: seq<string>, seps: seq<string>)

  /** Interleaves pieces with separators: `p0 + s0 + p1 + ... + pn`. */
  function Weave(pieces: seq<string>, seps: seq<string>): string
    requires |pieces| == |seps| + 1
  {
    if seps == [] then pieces[0] else pieces[0] + seps[0] + Weave(pieces[1..], seps[1..])
  }

  /**
   * Scanning state of `re.split`: the current piece started at `start`,
   * and position `i` is the next candidate match position.
   */
  function SplitScan(s: string, ms: seq<Marker>, start: nat, i: nat): (c: Cut)
    requires ValidMarkers(ms)
    requires start <= i <= |s|
    ensures |c.pieces| == |c.seps| + 1
    decreases |s| - i
  {
    if i == |s| then Cut([s[start..]], [])
    else
      var n := MatchAny(s, i, ms);
      if n == -1 then SplitScan(s, ms, start, i + 1)
      else
        var rest := SplitScan(s, ms, i + n, i + n);
        Cut([s[start..i]] + rest.pieces, [s[i..i + n]] + rest.seps)
  }

  /** The pieces and separators of a scan rebuild the scanned suffix. */
  lemma {:induction false} SplitScanWeave(s: string, ms: seq<Marker>, start: nat, i: nat)
    requires ValidMarkers(ms)
    requires start <= i <= |s|
    ensures var c := SplitScan(s, ms, start, i); Weave(c.pieces, c.seps) == s[start..]
    decreases |s| - i
  {
    var c := SplitScan(s, ms, start, i);
    if i == |s| {
      assert c == Cut([s[start..]], []);
    } else {
      var n := MatchAny(s, i, ms);
      if n == -1 {
        SplitScanWeave(s, ms, start, i + 1);
        assert c == SplitScan(s, ms, start, i + 1);
      } else {
        SplitScanWeave(s, ms, i + n, i + n);
        CutWeave(s, ms, start, i);
      }
    }
  }

  /** At a match, rebuilding the rest of the scan rebuilds the whole suffix. */
  lemma CutWeave(s: string, ms: seq<Marker>, start: nat, i: nat)
    requires ValidMarkers(ms)
    requires start <= i < |s|
    requires MatchAny(s, i, ms) != -1
    requires var n := MatchAny(s, i, ms);
             var rest := SplitScan(s, ms, i + n, i + n);
             Weave(rest.pieces, rest.seps) == s[i + n..]
    ensures var c := SplitScan(s, ms, start, i); Weave(c.pieces, c.seps) == s[start..]
  {
    var n := MatchAny(s, i, ms);
    var rest := SplitScan(s, ms, i + n, i + n);
    SplitScanCut(s, ms, start, i);
    WeaveCons(s[start..i], s[i..i + n], rest.pieces, rest.seps);
    SuffixThree(s, start, i, i + n);
  }

  lemma WeaveCons(p: string, sep: string, pieces: seq<string>, seps: seq<string>)
    requires |pieces| == |seps| + 1
    ensures Weave([p] + pieces, [sep] + seps) == p + sep + Weave(pieces, seps)
  {
    assert ([p] + pieces)[1..] == pieces;
    assert ([sep] + seps)[1..] == seps;
  }

  lemma SuffixThree(s: string, a: nat, b: nat, c: nat)
    requires a <= b <= c <= |s|
    ensures s[a..] == s[a..b] + s[b..c] + s[c..]
  {
  }

  /** `re.split(pattern, s)` for a pattern with no capturing groups. */
  function ReSplit(s: string, ms: seq<Marker>): (r: seq<string>)
    requires ValidMarkers(ms)
    ensures |r| >= 1
  {
    SplitScan(s, ms, 0, 0).pieces
  }

  /** A string that starts with a match splits into an empty first piece. */
  lemma ReSplitLeadingMatch(s: string, ms: seq<Marker>)
    requires ValidMarkers(ms) && MatchAny(s, 0, ms) != -1
    ensures ReSplit(s, ms)[0] == []
  {
  }

  /** A string that starts with one of the literal alternatives splits into an empty first piece. */
  lemma ReSplitLeadingLiteral(s: string, ms: seq<Marker>, k: nat)
    requires ValidMarkers(ms) && k < |ms| && IsLiteral(ms[k])
    requires LiteralAt(s, ms[k].text, ms[k].Ci?, 0)
    ensures ReSplit(s, ms)[0] == []
  {
    assert MatchLen(s, 0, ms[k]) != -1;
    MatchAnySpec(s, 0, ms);
    ReSplitLeadingMatch(s, ms);
  }

  /** The separators `re.split` cut out, in order. */
  function ReSplitSeps(s: string, ms: seq<Marker>): (r: seq<string>)
    requires ValidMarkers(ms)
  {
    SplitScan(s, ms, 0, 0).seps
  }

  /** Nothing is lost: the pieces and the separators rebuild the input. */
  lemma ReSplitRebuilds(s: string, ms: seq<Marker>)
    requires ValidMarkers(ms)
    ensures |ReSplit(s, ms)| == |ReSplitSeps(s, ms)| + 1
    ensures Weave(ReSplit(s, ms), ReSplitSeps(s, ms)) == s
  {
    SplitScanWeave(s, ms, 0, 0);
    assert s[0..] == s;
  }

  /** No position in `[a, b)` starts a match. */
  predicate NoMatchIn(s: string, ms: seq<Marker>, a: nat, b: nat)
    requires ValidMarkers(ms)
  {
    forall k :: a <= k < b ==> MatchAny(s, k, ms) == -1
  }

  /** Whether a literal alternative occurs anywhere inside `p`. */
  predicate HasLiteral(p: string, m: Marker)
    requires IsLiteral(m)
  {
    exists j :: 0 <= j <= |p| && LiteralAt(p, m.text, m.Ci?, j)
  }

  lemma LiteralAtSlice(s: string, t: string, ci: bool, a: nat, b: nat, j: nat)
    requires a <= b <= |s|
    ensures LiteralAt(s[a..b], t, ci, j) ==> LiteralAt(s, t, ci, a + j)
  {
    if LiteralAt(s[a..b], t, ci, j) {
      var u := s[a..b];
      var v := s[a + j..a + j + |t|];
      var w := u[j..j + |t|];
      forall k | 0 <= k < |t| ensures v[k] == w[k] {
        assert w[k] == u[j + k];
      }
      assert v == w;
    }
  }

  /** A piece with no match position inside it contains no literal alternative. */
  lemma NoLiteralInPiece(s: string, ms: seq<Marker>, a: nat, b: nat, k: nat)
    requires ValidMarkers(ms) && a <= b <= |s|
    requires NoMatchIn(s, ms, a, b)
    requires k < |ms| && IsLiteral(ms[k])
    ensures !HasLiteral(s[a..b], ms[k])
  {
    var m := ms[k];
    assert ValidMarker(m);
    forall j | 0 <= j <= b - a ensures !LiteralAt(s[a..b], m.text, m.Ci?, j) {
      LiteralAtSlice(s, m.text, m.Ci?, a, b, j);
      if j < b - a {
        assert MatchAny(s, a + j, ms) == -1;
        MatchAnySpec(s, a + j, ms);
        assert MatchLen(s, a + j, m) == -1;
      }
    }
  }

  /** `p` contains none of the literal alternatives of `ms`. */
  predicate CleanPiece(p: string, ms: seq<Marker>)
    requires ValidMarkers(ms)
  {
    forall k :: 0 <= k < |ms| && IsLiteral(ms[k]) ==> !HasLiteral(p, ms[k])
  }

  lemma CleanSlice(s: string, ms: seq<Marker>, a: nat, b: nat)
    requires ValidMarkers(ms) && a <= b <= |s|
    requires NoMatchIn(s, ms, a, b)
    ensures CleanPiece(s[a..b], ms)
  {
    forall k | 0 <= k < |ms| && IsLiteral(ms[k]) ensures !HasLiteral(s[a..b], ms[k]) {
      NoLiteralInPiece(s, ms, a, b, k);
    }
  }

  /** No piece contains a literal alternative of `ms`. */
  predicate AllClean(pieces: seq<string>, ms: seq<Marker>)
    requires ValidMarkers(ms)
  {
    forall p :: p in pieces ==> CleanPiece(p, ms)
  }

  lemma {:induction false} SplitScanPieces(s: string, ms: seq<Marker>, start: nat, i: nat)
    requires ValidMarkers(ms)
    requires start <= i <= |s|
    requires NoMatchIn(s, ms, start, i)
    ensures AllClean(SplitScan(s, ms, start, i).pieces, ms)
    decreases |s| - i
  {
    if i == |s| {
      LastPieceClean(s, ms, start);
    } else {
      var n := MatchAny(s, i, ms);
      if n == -1 {
        SplitScanPieces(s, ms, start, i + 1);
      } else {
        SplitScanPieces(s, ms, i + n, i + n);
        CutPiecesClean(s, ms, start, i);
      }
    }
  }

  /** At the end of the input, the one remaining piece is clean. */
  lemma LastPieceClean(s: string, ms: seq<Marker>, start: nat)
    requires ValidMarkers(ms)
    requires start <= |s|
    requires NoMatchIn(s, ms, start, |s|)
    ensures AllClean(SplitScan(s, ms, start, |s|).pieces, ms)
  {
    assert s[start..] == s[start..|s|];
    CleanSlice(s, ms, start, |s|);
  }

  /** At a match, the piece before it is clean, so cleanliness of the rest carries over. */
  lemma CutPiecesClean(s: string, ms: seq<Marker>, start: nat, i: nat)
    requires ValidMarkers(ms)
    requires start <= i < |s|
    requires NoMatchIn(s, ms, start, i)
    requires MatchAny(s, i, ms) != -1
    requires AllClean(SplitScan(s, ms, i + MatchAny(s, i, ms), i + MatchAny(s, i, ms)).pieces, ms)
    ensures AllClean(SplitScan(s, ms, start, i).pieces, ms)
  {
    var n := MatchAny(s, i, ms);
    var rest := SplitScan(s, ms, i + n, i + n);
    CleanSlice(s, ms, start, i);
    AllCleanCons(s[start..i], rest.pieces, ms);
    SplitScanCut(s, ms, start, i);
  }

  /** One step of `SplitScan` at a match. */
  lemma SplitScanCut(s: string, ms: seq<Marker>, start: nat, i: nat)
    requires ValidMarkers(ms)
    requires start <= i < |s|
    requires MatchAny(s, i, ms) != -1
    ensures var n := MatchAny(s, i, ms);
            var rest := SplitScan(s, ms, i + n, i + n);
            SplitScan(s, ms, start, i) == Cut([s[start..i]] + rest.pieces, [s[i..i + n]] + rest.seps)
  {
  }

  lemma AllCleanCons(head: string, rest: seq<string>, ms: seq<Marker>)
    requires ValidMarkers(ms)
    requires CleanPiece(head, ms) && AllClean(rest, ms)
    ensures AllClean([head] + rest, ms)
  {
    forall p | p in [head] + rest ensures CleanPiece(p, ms) {
      if p != head {
        assert p in rest;
      }
    }
  }

  /** Everything is cut: no piece still contains a literal alternative. */
  lemma ReSplitPiecesClean(s: string, ms: seq<Marker>)
    requires ValidMarkers(ms)
    ensures forall p :: p in ReSplit(s, ms) ==> CleanPiece(p, ms)
  {
    SplitScanPieces(s, ms, 0, 0);
  }

  /** `re.search(pattern, s)` finds something. */
  predicate HasMatch(s: string, ms: seq<Marker>)
    requires ValidMarkers(ms)
  {
    exists k :: 0 <= k < |s| && MatchAny(s, k, ms) != -1
  }

  lemma {:induction false} SplitScanCount(s: string, ms: seq<Marker>, start: nat, i: nat)
    requires ValidMarkers(ms)
    requires start <= i <= |s|
    ensures |SplitScan(s, ms, start, i).pieces| >= 2 <==> FirstMatchFrom(s, i, ms) != -1
    decreases |s| - i
  {
    if i < |s| && MatchAny(s, i, ms) == -1 {
      SplitScanCount(s, ms, start, i + 1);
    }
  }

  /** `re.search` succeeds exactly when `re.split` yields at least two pieces. */
  lemma HasMatchIffSplits(s: string, ms: seq<Marker>)
    requires ValidMarkers(ms)
    ensures HasMatch(s, ms) <==> |ReSplit(s, ms)| >= 2
  {
    SplitScanCount(s, ms, 0, 0);
    var f := FirstMatchFrom(s, 0, ms);
    if f != -1 {
      assert 0 <= f < |s| && MatchAny(s, f, ms) != -1;
    }
  }

  // ---------------------------------------------------------------------
  // re.search with a capture group

  /** A capture: where the pattern starts and the span of group 1. */
  datatype Capture = Capture(at: nat, start: nat, end: nat)

  function Group(s: string, c: Capture): string
    requires c.start <= c.end <= |s|
  {
    s[c.start..c.end]
  }

  /**
   * Length of the first label alternative that matches at `k` and leaves
   * at least one character after it (the `.+?` that follows needs one),
   * or -1.
   */
  function LabelAt(s: string, k: nat, labels: seq<Marker>): (r: int)
    requires ValidMarkers(labels)
    ensures r == -1 || (1 <= r && k + r < |s|)
  {
    if labels == [] then -1
    else
      var n := MatchLen(s, k, labels[0]);
      if n != -1 && k + n < |s| then n else LabelAt(s, k, labels[1..])
  }

  /** A viable label match has the length of some label's match. */
  lemma {:induction false} LabelAtSpec(s: string, k: nat, labels: seq<Marker>)
    requires ValidMarkers(labels)
    ensures LabelAt(s, k, labels) != -1 ==>
              exists j :: 0 <= j < |labels| && MatchLen(s, k, labels[j]) == LabelAt(s, k, labels)
  {
    if labels != [] && LabelAt(s, k, labels) != -1 {
      var n := MatchLen(s, k, labels[0]);
      if !(n != -1 && k + n < |s|) {
        LabelAtSpec(s, k, labels[1..]);
        var j :| 0 <= j < |labels| - 1 && MatchLen(s, k, labels[1..][j]) == LabelAt(s, k, labels);
        assert labels[1..][j] == labels[j + 1];
      }
    }
  }

  /** The lookahead `(?=S1|S2|..|$)` holds at `p`. */
  predicate StopAt(s: string, p: nat, stops: seq<Marker>)
    requires ValidMarkers(stops)
  {
    p == |s| || (p == |s| - 1 && s[p] == '\n') || MatchAny(s, p, stops) != -1
  }

  /** The first position in `[p, |s|]` where the lookahead holds. */
  function FirstStop(s: string, p: nat, stops: seq<Marker>): (q: nat)
    requires ValidMarkers(stops) && p <= |s|
    ensures p <= q <= |s| && StopAt(s, q, stops)
    ensures forall x :: p <= x < q ==> !StopAt(s, x, stops)
    decreases |s| - p
  {
    if StopAt(s, p, stops) then p else FirstStop(s, p + 1, stops)
  }

  /** The leftmost position at or after `k` where some label viably matches, or -1. */
  function FirstLabel(s: string, k: nat, labels: seq<Marker>): (r: int)
    requires ValidMarkers(labels)
    ensures r == -1 || (k <= r < |s| && LabelAt(s, r, labels) != -1)
    ensures r == -1 ==> forall x :: k <= x < |s| ==> LabelAt(s, x, labels) == -1
    ensures r != -1 ==> forall x :: k <= x < r ==> LabelAt(s, x, labels) == -1
    decreases |s| - k
  {
    if k >= |s| then -1
    else if LabelAt(s, k, labels) != -1 then k
    else FirstLabel(s, k + 1, labels)
  }

  /**
   * `re.search(r'(?:L1|L2|..)\s*(.+?)(?=S1|S2|..|$)', s, re.DOTALL)`.
   * The group starts after the label and the whitespace that follows it,
   * and ends at the first position where the lookahead holds. When only
   * whitespace follows the label, the regex backtracks one character of
   * `\s*` and the group is the last character of `s`.
   */
  function LabeledCapture(s: string, labels: seq<Marker>, stops: seq<Marker>): (r: Option<Capture>)
    requires ValidMarkers(labels) && ValidMarkers(stops)
    ensures r.Some? ==> r.value.at < r.value.start < r.value.end <= |s|
    ensures r.Some? ==> LabelAt(s, r.value.at, labels) != -1
                        && forall x :: 0 <= x < r.value.at ==> LabelAt(s, x, labels) == -1
    ensures r.None? <==> forall x :: 0 <= x ==> LabelAt(s, x, labels) == -1
    ensures r.Some? ==> StopAt(s, r.value.end, stops)
    ensures r.Some? && r.value.end - r.value.start > 1 ==>
              forall x :: r.value.start < x < r.value.end ==> !StopAt(s, x, stops)
    ensures r.Some? ==> r.value.end - r.value.start == 1 || !IsSpace(s[r.value.start])
  {
    var k := FirstLabel(s, 0, labels);
    if k == -1 then None
    else
      var j0 := k + LabelAt(s, k, labels);
      var j := j0 + LeadingSpaces(s[j0..]);
      if j == |s| then Some(Capture(k, |s| - 1, |s|))
      else
        assert !IsSpace(s[j]) by { assert s[j0..][j - j0] == s[j]; }
        Some(Capture(k, j, FirstStop(s, j + 1, stops)))
  }

  /** The text of group 1 of `LabeledCapture`, or None when the search fails. */
  function CaptureText(s: string, labels: seq<Marker>, stops: seq<Marker>): (r: Option<string>)
    requires ValidMarkers(labels) && ValidMarkers(stops)
    ensures r.Some? ==> r.value != []
  {
    match LabeledCapture(s, labels, stops)
    case None => None
    case Some(c) => Some(Group(s, c))
  }

  /**
   * `re.search(r'^(.+?)(?=S1|S2|..)', s, re.DOTALL)` without MULTILINE: the
   * shortest non-empty prefix of `s` followed by a stop alternative.
   */
  function LeadCapture(s: string, stops: seq<Marker>): (r: Option<string>)
    requires ValidMarkers(stops)
    ensures r.Some? ==> 1 <= |r.value| < |s| && r.value == s[..|r.value|]
                        && MatchAny(s, |r.value|, stops) != -1
                        && forall x :: 1 <= x < |r.value| ==> MatchAny(s, x, stops) == -1
    ensures r.None? ==> forall x :: 1 <= x <= |s| ==> MatchAny(s, x, stops) == -1
  {
    var p := FirstMatchFrom(s, 1, stops);
    if p == -1 then None else Some(s[..p])
  }

  /** The first position at or after `k` where some alternative matches, or -1. */
  function FirstMatchFrom(s: string, k: nat, ms: seq<Marker>): (r: int)
    requires ValidMarkers(ms)
    ensures r == -1 || (k <= r < |s| && MatchAny(s, r, ms) != -1)
    ensures r == -1 ==> forall x :: k <= x ==> MatchAny(s, x, ms) == -1
    ensures r != -1 ==> forall x :: k <= x < r ==> MatchAny(s, x, ms) == -1
    decreases |s| - k
  {
    if k >= |s| then -1
    else if MatchAny(s, k, ms) != -1 then k
    else FirstMatchFrom(s, k + 1, ms)
  }

  /** `re.match(r'^([a-zA-Z_]+)', s)`: the leading run of letters and underscores. */
  function LeadingWord(s: string): (r: string)
    ensures |r| <= |s| && r == s[..|r|]
    ensures forall k :: 0 <= k < |r| ==> IsLetterAscii(r[k]) || r[k] == '_'
    ensures |r| < |s| ==> !(IsLetterAscii(s[|r|]) || s[|r|] == '_')
  {
    if s == [] || !(IsLetterAscii(s[0]) || s[0] == '_') then []
    else [s[0]] + LeadingWord(s[1..])
  }

  /** One of the letters `A`..`D`, either case (the class `[A-D]` under IGNORECASE). */
  predicate IsOptionLetter(c: char) { 'A' <= c <= 'D' || 'a' <= c <= 'd' }

  /**
   * Position of the `[A-D]` letter for the first label alternative that
   * matches case-insensitively at `k` and is followed, after whitespace, by
   * such a letter; -1 when no alternative succeeds at `k`.
   */
  function LetterAfterLabel(s: string, k: nat, labels: seq<string>): (r: int)
    ensures r == -1 || (k < r < |s| && IsOptionLetter(s[r]))
  {
    if labels == [] then -1
    else
      var t := labels[0];
      if t != [] && LiteralAt(s, t, true, k) then
        var j := k + |t|;
        var p := j + LeadingSpaces(s[j..]);
        if p < |s| && IsOptionLetter(s[p]) then p else LetterAfterLabel(s, k, labels[1..])
      else LetterAfterLabel(s, k, labels[1..])
  }

  /** The leftmost `k` at which `LetterAfterLabel` succeeds, scanning from `k`. */
  function LetterSearch(s: string, k: nat, labels: seq<string>): (r: Option<char>)
    ensures r.Some? ==> 'A' <= r.value <= 'D'
    ensures r.None? ==> forall x :: k <= x < |s| ==> LetterAfterLabel(s, x, labels) == -1
    decreases |s| - k
  {
    if k >= |s| then None
    else
      var p := LetterAfterLabel(s, k, labels);
      if p != -1 then Some(UpperChar(s[p])) else LetterSearch(s, k + 1, labels)
  }

  /**
   * `re.search(r'(?:Answer:|Answer)\s*([A-D])', s, re.IGNORECASE).group(1).upper()`,
   * or None when the search fails.
   */
  function AnswerLetter(s: string): (r: Option<char>)
    ensures r.Some? ==> 'A' <= r.value <= 'D'
  {
    LetterSearch(s, 0, ["Answer:", "Answer"])
  }

  /** `re.match(r'^(W1|W2|..)', s, re.IGNORECASE)` for literal words. */
  predicate StartsWithAnyCi(s: string, words: seq<string>) {
    exists i :: 0 <= i < |words| && LiteralAt(s, words[i], true, 0)
  }
}
