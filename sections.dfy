/**
 * The loops the response parsers run over the sections `re.split` cut
 * from a model response. Each strips a section, turns a non-blank one
 * into at most one item with `parse`, and stops on a count; they differ
 * in where the count is checked and in what a blank section does:
 *
 *  - `ParseFrom` (document quizzes): blank sections are skipped, the
 *    count is checked before a section is parsed;
 *  - `ParseUntil` (document flashcards): blank sections are skipped, the
 *    count is checked only right after an item is appended;
 *  - `ParseWhile` (document exercises): the first blank section ends the
 *    loop, and so does the count, checked before a section is parsed.
 */
module Sections {
  import opened Wrappers
  import opened Text

  /** `acc`, with `q` appended when there is one. */
  function Append<T>(acc: seq<T>, q: Option<T>): (r: seq<T>)
    ensures |r| == |acc| + (if q.Some? then 1 else 0)
  {
    if q.Some? then acc + [q.value] else acc
  }

  /** `q` is what `parse` makes of `section` once it is stripped and found non-blank. */
  predicate ParsedFrom<T(==)>(section: string, parse: string -> Option<T>, q: T) {
    Strip(section) != [] && parse(Strip(section)) == Some(q)
  }

  /** `r` is `acc` followed by items each parsed from one of the sections. */
  predicate GrowsFrom<T(==)>(acc: seq<T>, r: seq<T>, sections: seq<string>, parse: string -> Option<T>) {
    |acc| <= |r| && r[..|acc|] == acc
    && forall i :: |acc| <= i < |r| ==> exists j :: 0 <= j < |sections| && ParsedFrom(sections[j], parse, r[i])
  }

  /** Growth from the sections after the first is growth from all of them. */
  lemma GrowsFromTail<T>(acc: seq<T>, r: seq<T>, sections: seq<string>, parse: string -> Option<T>)
    requires sections != []
    requires GrowsFrom(acc, r, sections[1..], parse)
    ensures GrowsFrom(acc, r, sections, parse)
  {
    var tail := sections[1..];
    assert GrowsFrom(acc, r, tail, parse);
    assert forall k :: |acc| <= k < |r| ==> exists j :: 0 <= j < |tail| && ParsedFrom(tail[j], parse, r[k]);
    forall i | |acc| <= i < |r|
      ensures exists j :: 0 <= j < |sections| && ParsedFrom(sections[j], parse, r[i])
    {
      var j :| 0 <= j < |tail| && ParsedFrom(tail[j], parse, r[i]);
      assert tail[j] == sections[j + 1];
    }
  }

  /** Growth by the first section's item, then from the rest, is growth from all the sections. */
  lemma GrowsFromHead<T>(acc: seq<T>, q: T, r: seq<T>, sections: seq<string>, parse: string -> Option<T>)
    requires sections != [] && ParsedFrom(sections[0], parse, q)
    requires GrowsFrom(acc + [q], r, sections[1..], parse)
    ensures GrowsFrom(acc, r, sections, parse)
  {
    var acc' := acc + [q];
    var tail := sections[1..];
    assert GrowsFrom(acc', r, tail, parse);
    assert r[..|acc|] == acc by {
      assert r[..|acc|] == r[..|acc'|][..|acc|];
      assert acc'[..|acc|] == acc;
    }
    forall i | |acc| <= i < |r|
      ensures exists j :: 0 <= j < |sections| && ParsedFrom(sections[j], parse, r[i])
    {
      if i < |acc'| {
        assert r[i] == acc'[i] == q;
      } else {
        var j :| 0 <= j < |tail| && ParsedFrom(tail[j], parse, r[i]);
        assert tail[j] == sections[j + 1];
      }
    }
  }

  lemma GrowsFromSelf<T>(acc: seq<T>, sections: seq<string>, parse: string -> Option<T>)
    ensures GrowsFrom(acc, acc, sections, parse)
  {
    assert acc[..|acc|] == acc;
  }

  // ---------------------------------------------------------------------
  // Skip blank sections, test the count first

  /**
   * The loop from its state: remaining sections and items so far. Blank
   * sections are skipped; a non-blank one first checks the count, then
   * `parse` makes at most one item of it.
   */
  function ParseFrom<T>(sections: seq<string>, expected: int, parse: string -> Option<T>, acc: seq<T>): seq<T>
    decreases |sections|
  {
    if sections == [] then acc
    else
      var s := Strip(sections[0]);
      if s == [] then ParseFrom(sections[1..], expected, parse, acc)
      else if |acc| >= expected then acc
      else ParseFrom(sections[1..], expected, parse, Append(acc, parse(s)))
  }

  /** The loop never returns more than `expected_count` items. */
  lemma {:induction false} ParseFromBound<T>(sections: seq<string>, expected: int, parse: string -> Option<T>, acc: seq<T>)
    requires |acc| <= Max(expected, 0)
    ensures |ParseFrom(sections, expected, parse, acc)| <= Max(expected, 0)
    decreases |sections|
  {
    if sections != [] {
      ParseFromBound(sections[1..], expected, parse, acc);
      var s := Strip(sections[0]);
      if s != [] && |acc| < expected {
        ParseFromBound(sections[1..], expected, parse, Append(acc, parse(s)));
      }
    }
  }

  /** Every item the loop adds is the item of a non-blank section. */
  lemma {:induction false} ParseFromSections<T>(sections: seq<string>, expected: int, parse: string -> Option<T>, acc: seq<T>)
    ensures GrowsFrom(acc, ParseFrom(sections, expected, parse, acc), sections, parse)
    decreases |sections|
  {
    if sections == [] {
      GrowsFromSelf(acc, sections, parse);
    } else {
      var s := Strip(sections[0]);
      var rest := sections[1..];
      if s == [] {
        ParseFromSections(rest, expected, parse, acc);
        GrowsFromTail(acc, ParseFrom(rest, expected, parse, acc), sections, parse);
      } else if |acc| >= expected {
        GrowsFromSelf(acc, sections, parse);
      } else if parse(s).Some? {
        ParseFromSections(rest, expected, parse, acc + [parse(s).value]);
        GrowsFromHead(acc, parse(s).value, ParseFrom(rest, expected, parse, acc + [parse(s).value]), sections, parse);
      } else {
        ParseFromSections(rest, expected, parse, acc);
        GrowsFromTail(acc, ParseFrom(rest, expected, parse, acc), sections, parse);
      }
    }
  }

  // ---------------------------------------------------------------------
  // Skip blank sections, test the count after an append

  /**
   * The loop from its state. Blank sections are skipped; the count is
   * checked only after an item is appended, so an `expected_count` of zero
   * or less still yields the first item.
   */
  function ParseUntil<T>(sections: seq<string>, expected: int, parse: string -> Option<T>, acc: seq<T>): seq<T>
    decreases |sections|
  {
    if sections == [] then acc
    else
      var s := Strip(sections[0]);
      var q := if s == [] then None else parse(s);
      if q.Some? && |acc| + 1 >= expected then acc + [q.value]
      else ParseUntil(sections[1..], expected, parse, Append(acc, q))
  }

  /** One step of the loop, at position `i` of the sections. */
  lemma ParseUntilStep<T>(sections: seq<string>, i: nat, expected: int, parse: string -> Option<T>, acc: seq<T>)
    requires i < |sections|
    ensures var s := Strip(sections[i]);
            var q := if s == [] then None else parse(s);
            ParseUntil(sections[i..], expected, parse, acc)
            == if q.Some? && |acc| + 1 >= expected then acc + [q.value]
               else ParseUntil(sections[i + 1..], expected, parse, Append(acc, q))
  {
    assert sections[i..][0] == sections[i];
    assert sections[i..][1..] == sections[i + 1..];
  }

  /** The loop never returns more than `max(expected_count, 1)` items. */
  lemma {:induction false} ParseUntilBound<T>(sections: seq<string>, expected: int, parse: string -> Option<T>, acc: seq<T>)
    requires |acc| < Max(expected, 1)
    ensures |ParseUntil(sections, expected, parse, acc)| <= Max(expected, 1)
    decreases |sections|
  {
    if sections != [] {
      var s := Strip(sections[0]);
      var q := if s == [] then None else parse(s);
      if !(q.Some? && |acc| + 1 >= expected) {
        ParseUntilBound(sections[1..], expected, parse, Append(acc, q));
      }
    }
  }

  /** Every item the loop adds is the item of a non-blank section. */
  lemma {:induction false} ParseUntilSections<T>(sections: seq<string>, expected: int, parse: string -> Option<T>, acc: seq<T>)
    ensures GrowsFrom(acc, ParseUntil(sections, expected, parse, acc), sections, parse)
    decreases |sections|
  {
    if sections == [] {
      GrowsFromSelf(acc, sections, parse);
    } else {
      var s := Strip(sections[0]);
      var rest := sections[1..];
      var q := if s == [] then None else parse(s);
      if q.Some? && |acc| + 1 >= expected {
        GrowsFromSelf(acc + [q.value], rest, parse);
        GrowsFromHead(acc, q.value, acc + [q.value], sections, parse);
      } else if q.Some? {
        ParseUntilSections(rest, expected, parse, acc + [q.value]);
        GrowsFromHead(acc, q.value, ParseUntil(rest, expected, parse, acc + [q.value]), sections, parse);
      } else {
        ParseUntilSections(rest, expected, parse, acc);
        GrowsFromTail(acc, ParseUntil(rest, expected, parse, acc), sections, parse);
      }
    }
  }

  // ---------------------------------------------------------------------
  // Stop at the first blank section

  /**
   * The loop from its state. A blank section ends the loop (`break`, not
   * `continue`), and so does reaching the count, checked before parsing.
   */
  function ParseWhile<T>(sections: seq<string>, expected: int, parse: string -> Option<T>, acc: seq<T>): seq<T>
    decreases |sections|
  {
    if sections == [] then acc
    else
      var s := Strip(sections[0]);
      if s == [] || |acc| >= expected then acc
      else ParseWhile(sections[1..], expected, parse, Append(acc, parse(s)))
  }

  /** One step of the loop, at position `i` of the sections. */
  lemma ParseWhileStep<T>(sections: seq<string>, i: nat, expected: int, parse: string -> Option<T>, acc: seq<T>)
    requires i < |sections|
    ensures var s := Strip(sections[i]);
            ParseWhile(sections[i..], expected, parse, acc)
            == if s == [] || |acc| >= expected then acc
               else ParseWhile(sections[i + 1..], expected, parse, Append(acc, parse(s)))
  {
    assert sections[i..][0] == sections[i];
    assert sections[i..][1..] == sections[i + 1..];
  }

  /** Nothing after the first blank section reaches the result. */
  lemma {:induction false} ParseWhileStopsAtBlank<T>(sections: seq<string>, k: nat, expected: int, parse: string -> Option<T>, acc: seq<T>)
    requires k < |sections| && Strip(sections[k]) == []
    ensures ParseWhile(sections, expected, parse, acc) == ParseWhile(sections[..k], expected, parse, acc)
    decreases k
  {
    if k > 0 {
      var s := Strip(sections[0]);
      assert sections[..k][0] == sections[0];
      assert sections[..k][1..] == sections[1..][..k - 1];
      if s != [] && |acc| < expected {
        ParseWhileStopsAtBlank(sections[1..], k - 1, expected, parse, Append(acc, parse(s)));
      }
    }
  }

  /** The loop never returns more than `expected_count` items. */
  lemma {:induction false} ParseWhileBound<T>(sections: seq<string>, expected: int, parse: string -> Option<T>, acc: seq<T>)
    requires |acc| <= Max(expected, 0)
    ensures |ParseWhile(sections, expected, parse, acc)| <= Max(expected, 0)
    decreases |sections|
  {
    if sections != [] {
      var s := Strip(sections[0]);
      if s != [] && |acc| < expected {
        ParseWhileBound(sections[1..], expected, parse, Append(acc, parse(s)));
      }
    }
  }

  /** Every item the loop adds is the item of a non-blank section, and nothing comes after a blank one. */
  lemma {:induction false} ParseWhileSections<T>(sections: seq<string>, expected: int, parse: string -> Option<T>, acc: seq<T>)
    ensures GrowsFrom(acc, ParseWhile(sections, expected, parse, acc), sections, parse)
    decreases |sections|
  {
    if sections == [] {
      GrowsFromSelf(acc, sections, parse);
    } else {
      var s := Strip(sections[0]);
      var rest := sections[1..];
      if s == [] || |acc| >= expected {
        GrowsFromSelf(acc, sections, parse);
      } else if parse(s).Some? {
        ParseWhileSections(rest, expected, parse, acc + [parse(s).value]);
        GrowsFromHead(acc, parse(s).value, ParseWhile(rest, expected, parse, acc + [parse(s).value]), sections, parse);
      } else {
        ParseWhileSections(rest, expected, parse, acc);
        GrowsFromTail(acc, ParseWhile(rest, expected, parse, acc), sections, parse);
      }
    }
  }
}
