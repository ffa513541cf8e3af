/**
 * `configure_fallbacks.py`: the two modes that rewrite `.env` — one for
 * content quality, one that always falls back — over the settings parsed
 * from the existing file.
 */
module FallbackConfig {
  import opened Text
  import opened Wrappers
  import opened DotEnv

  // ---------------------------------------------------------------------
  // The settings dictionary

  /** `env_vars`: key and value pairs, in the order the keys were first set. */
  type Settings = seq<(string, string)>

  predicate DistinctKeys(m: Settings) {
    forall i, j :: 0 <= i < j < |m| ==> m[i].0 != m[j].0
  }

  /** Where `key` is in the dictionary, or -1. */
  function Position(m: Settings, key: string): (r: int)
    ensures -1 <= r < |m|
    ensures r == -1 <==> forall i :: 0 <= i < |m| ==> m[i].0 != key
    ensures r != -1 ==> m[r].0 == key && forall i :: 0 <= i < r ==> m[i].0 != key
  {
    if m == [] then -1
    else if m[0].0 == key then 0
    else
      var k := Position(m[1..], key);
      assert forall i :: 1 <= i < |m| ==> m[i] == m[1..][i - 1];
      if k == -1 then -1 else k + 1
  }

  /** `env_vars.get(key)`. */
  function Lookup(m: Settings, key: string): Option<string> {
    var k := Position(m, key);
    if k == -1 then None else Some(m[k].1)
  }

  /** `env_vars[key] = value`: a known key keeps its place, a new one goes last. */
  function Put(m: Settings, key: string, value: string): Settings {
    var k := Position(m, key);
    if k == -1 then m + [(key, value)] else m[k := (key, value)]
  }

  /** In a dictionary without repeated keys, the key at an index is found there. */
  lemma PositionOfDistinct(m: Settings, i: int)
    requires DistinctKeys(m) && 0 <= i < |m|
    ensures Position(m, m[i].0) == i
  {
  }

  /**
   * After `env_vars[key] = value` the key maps to the value, every other
   * key to what it did, no key is repeated, and a key already present keeps
   * its position while a new one is added at the end.
   */
  lemma PutSpec(m: Settings, key: string, value: string)
    requires DistinctKeys(m)
    ensures var r := Put(m, key, value);
      DistinctKeys(r)
      && Lookup(r, key) == Some(value)
      && (forall other :: other != key ==> Lookup(r, other) == Lookup(m, other))
      && (Position(m, key) != -1 ==> |r| == |m| && Position(r, key) == Position(m, key))
      && (Position(m, key) == -1 ==> r == m + [(key, value)])
  {
    var r := Put(m, key, value);
    var k := Position(m, key);
    forall other | other != key ensures Lookup(r, other) == Lookup(m, other) {
      var j := Position(m, other);
      if j == -1 {
        assert forall i :: 0 <= i < |r| ==> r[i].0 != other;
      } else {
        assert forall i :: 0 <= i <= j ==> r[i].0 == m[i].0 by {
          forall i | 0 <= i <= j ensures r[i].0 == m[i].0 {
            if i == k { assert m[i].0 == key; }
          }
        }
        PositionAt(r, other, j);
      }
    }
    if k != -1 {
      PositionAt(r, key, k);
    } else {
      PositionAt(r, key, |m|);
    }
  }

  /** The first index holding `key` is its position. */
  lemma PositionAt(m: Settings, key: string, j: int)
    requires 0 <= j < |m| && m[j].0 == key
    requires forall i :: 0 <= i < j ==> m[i].0 != key
    ensures Position(m, key) == j
  {
  }

  /** Setting a key to the value it already has changes nothing. */
  lemma PutSame(m: Settings, key: string, value: string)
    requires Lookup(m, key) == Some(value)
    ensures Put(m, key, value) == m
  {
  }

  /** The assignments `env_vars[k] = v` of `updates`, in order. */
  function PutAll(m: Settings, updates: Settings): Settings
    decreases |updates|
  {
    if updates == [] then m else PutAll(Put(m, updates[0].0, updates[0].1), updates[1..])
  }

  /**
   * After the assignments a key maps to its value in `updates` when it
   * has one, and to what it did before otherwise.
   */
  lemma {:induction false} PutAllSpec(m: Settings, updates: Settings)
    requires DistinctKeys(m)
    requires DistinctKeys(updates)
    ensures DistinctKeys(PutAll(m, updates))
    ensures forall key :: Lookup(PutAll(m, updates), key)
                          == if Lookup(updates, key).Some? then Lookup(updates, key) else Lookup(m, key)
    decreases |updates|
  {
    if updates != [] {
      var (k, v) := updates[0];
      var rest := updates[1..];
      PutSpec(m, k, v);
      PutAllSpec(Put(m, k, v), rest);
      forall key ensures Lookup(updates, key) == if key == k then Some(v) else Lookup(rest, key) {
        if key != k {
          var j := Position(rest, key);
          if j != -1 {
            PositionAt(updates, key, j + 1);
          }
        }
      }
    }
  }

  /** Assignments the dictionary already agrees with change nothing. */
  lemma {:induction false} PutAllSame(m: Settings, updates: Settings)
    requires forall i :: 0 <= i < |updates| ==> Lookup(m, updates[i].0) == Some(updates[i].1)
    ensures PutAll(m, updates) == m
    decreases |updates|
  {
    if updates != [] {
      PutSame(m, updates[0].0, updates[0].1);
      PutAllSame(m, updates[1..]);
    }
  }

  /** Making the same assignments twice is making them once. */
  lemma PutAllIdempotent(m: Settings, updates: Settings)
    requires DistinctKeys(m) && DistinctKeys(updates)
    ensures PutAll(PutAll(m, updates), updates) == PutAll(m, updates)
  {
    var r := PutAll(m, updates);
    PutAllSpec(m, updates);
    forall i | 0 <= i < |updates| ensures Lookup(r, updates[i].0) == Some(updates[i].1) {
      PositionOfDistinct(updates, i);
    }
    PutAllSame(r, updates);
  }

  // ---------------------------------------------------------------------
  // Reading the file

  /**
   * One line of the reader: a line with `=` that does not start with `#`
   * once stripped is split at its first `=`.
   */
  function ParseLine(line: string): (r: Option<(string, string)>)
    ensures r.Some? ==> Strip(line) == r.value.0 + "=" + r.value.1 && '=' !in r.value.0
    ensures r.Some? <==> '=' in line && !StartsWith(Strip(line), "#")
  {
    var t := Strip(line);
    if '=' in line && !StartsWith(t, "#") then
      var k := FindChar(t, '=');
      if k == -1 then
        NonSpaceInStrip(line, '=');
        assert false;
        None
      else
        assert t == t[..k] + "=" + t[k + 1..];
        Some((t[..k], t[k + 1..]))
    else None
  }

  /** A character that is not whitespace survives `strip`. */
  lemma NonSpaceInStrip(s: string, c: char)
    requires c in s && !IsSpace(c)
    ensures c in Strip(s)
  {
    var i :| 0 <= i < |s| && s[i] == c;
    var a := LeadingSpaces(s);
    var r := Strip(s);
    assert a <= i < a + |r|;
    assert r[i - a] == c;
  }

  /** One line of the loop: a setting line updates the dictionary, any other is skipped. */
  function Step(m: Settings, line: string): Settings {
    match ParseLine(line)
    case None => m
    case Some((key, value)) => Put(m, key, value)
  }

  /** The loop over `lines` starting from `m`. */
  function ParseInto(m: Settings, lines: seq<string>): Settings
    decreases |lines|
  {
    if lines == [] then m else ParseInto(Step(m, lines[0]), lines[1..])
  }

  /** The dictionary both modes read from the lines of an existing `.env` file. */
  function Parsed(lines: seq<string>): Settings {
    ParseInto([], lines)
  }

  /** The reading loop of both modes, over the lines of the file. */
  method ReadSettings(lines: seq<string>) returns (m: Settings)
    ensures m == Parsed(lines)
  {
    m := [];
    var i := 0;
    while i < |lines|
      invariant 0 <= i <= |lines|
      invariant ParseInto(m, lines[i..]) == Parsed(lines)
    {
      assert lines[i..][1..] == lines[i + 1..];
      var parsed := ParseLine(lines[i]);
      if parsed.Some? {
        var (key, value) := parsed.value;
        m := Put(m, key, value);
      }
      i := i + 1;
    }
  }

  // ---------------------------------------------------------------------
  // Writing the file

  /** The two comment lines the scripts write first, then an empty line. */
  datatype Header = Header(title: string, note: string)

  function HeaderLines(h: Header): seq<string> {
    ["# " + h.title + "\n", "# " + h.note + "\n", "\n"]
  }

  const QualityHeader := Header("FastAPI Document Processing Configuration",
                                "Updated by configure_fallbacks.py for quality content")
  const FallbackHeader := Header("FastAPI Document Processing Configuration",
                                 "Updated by configure_fallbacks.py for maximum content")

  /** `f"{key}={value}\n"`. */
  function EntryLine(key: string, value: string): string {
    key + "=" + value + "\n"
  }

  /** The lines of the settings, one per key, in dictionary order. */
  function Entries(m: Settings): (r: seq<string>)
    ensures |r| == |m|
    ensures forall i :: 0 <= i < |m| ==> r[i] == EntryLine(m[i].0, m[i].1)
  {
    if m == [] then [] else [EntryLine(m[0].0, m[0].1)] + Entries(m[1..])
  }

  /** The writing loop of both modes: the header, then `key=value` for each setting. */
  method WriteSettings(h: Header, m: Settings) returns (out: seq<string>)
    ensures out == HeaderLines(h) + Entries(m)
  {
    out := HeaderLines(h);
    var i := 0;
    while i < |m|
      invariant 0 <= i <= |m|
      invariant out == HeaderLines(h) + Entries(m[..i])
    {
      var (key, value) := m[i];
      out := out + [EntryLine(key, value)];
      i := i + 1;
      assert Entries(m[..i]) == Entries(m[..i - 1]) + [EntryLine(key, value)];
    }
    assert m[..|m|] == m;
  }

  // ---------------------------------------------------------------------
  // Reading back what was written

  /** A setting whose line reads back as itself. */
  predicate Readable(key: string, value: string) {
    '=' !in key
    && (key == [] || (!IsSpace(key[0]) && key[0] != '#'))
    && (value == [] || !IsSpace(value[|value| - 1]))
  }

  predicate WellFormed(m: Settings) {
    DistinctKeys(m) && forall i :: 0 <= i < |m| ==> Readable(m[i].0, m[i].1)
  }

  /** A written setting line reads back as the same key and value. */
  lemma ParseEntryLine(key: string, value: string)
    requires Readable(key, value)
    ensures ParseLine(EntryLine(key, value)) == Some((key, value))
  {
    var t := key + "=" + value;
    assert EntryLine(key, value) == t + "\n";
    EntryStripped(key, value);
    StripNewline(t);
    SplitEntry(key, value);
  }

  /** The text of a readable setting line, without the line end, is stripped and does not start with `#`. */
  lemma EntryStripped(key: string, value: string)
    requires Readable(key, value)
    ensures var t := key + "=" + value; t != [] && IsStripped(t) && !StartsWith(t, "#")
  {
    var t := key + "=" + value;
    assert t[0] == if key == [] then '=' else key[0];
    assert t[|t| - 1] == if value == [] then '=' else value[|value| - 1];
  }

  /** The first `=` of a setting line is the one after its key. */
  lemma SplitEntry(key: string, value: string)
    requires '=' !in key
    ensures var t := key + "=" + value;
      FindChar(t, '=') == |key| && t[..|key|] == key && t[|key| + 1..] == value
  {
    var t := key + "=" + value;
    assert t == key + ("=" + value);
    FindCharShift(key, "=" + value, '=');
  }

  /** A stripped, non-empty text followed by a line end strips back to itself. */
  lemma StripNewline(t: string)
    requires t != [] && IsStripped(t)
    ensures Strip(t + "\n") == t
  {
    var s := t + "\n";
    assert IsSpace('\n');
    assert LeadingSpaces(s) == 0;
    var r := Strip(s);
    assert r == s[..|r|];
    assert s[..|t|] == t;
  }

  /** The two comment lines and the empty line are skipped. */
  lemma HeaderSkipped(h: Header)
    ensures forall i :: 0 <= i < 3 ==> ParseLine(HeaderLines(h)[i]).None?
  {
    var lines := HeaderLines(h);
    assert IsSpace('\n') && !IsSpace('#');
    forall i | 0 <= i < 2 ensures ParseLine(lines[i]).None? {
      var line := lines[i];
      assert line[0] == '#';
      assert LeadingSpaces(line) == 0;
      assert Strip(line)[0] == '#';
    }
    assert '=' !in lines[2];
  }

  /** Lines the loop skips do not change the dictionary. */
  lemma {:induction false} ParseIntoSkips(m: Settings, skipped: seq<string>, rest: seq<string>)
    requires forall i :: 0 <= i < |skipped| ==> ParseLine(skipped[i]).None?
    ensures ParseInto(m, skipped + rest) == ParseInto(m, rest)
    decreases |skipped|
  {
    if skipped != [] {
      assert (skipped + rest)[1..] == skipped[1..] + rest;
      ParseIntoSkips(m, skipped[1..], rest);
    } else {
      assert skipped + rest == rest;
    }
  }

  /** The setting lines of a well-formed dictionary add its entries in order. */
  lemma {:induction false} ParseIntoEntries(acc: Settings, m: Settings)
    requires DistinctKeys(acc + m)
    requires forall i :: 0 <= i < |m| ==> Readable(m[i].0, m[i].1)
    ensures ParseInto(acc, Entries(m)) == acc + m
    decreases |m|
  {
    if m == [] {
      assert acc + m == acc;
    } else {
      EntriesStep(acc, m);
      ShiftFirst(acc, m);
      ParseIntoEntries(acc + [m[0]], m[1..]);
    }
  }

  lemma ShiftFirst(acc: Settings, m: Settings)
    requires m != []
    ensures (acc + [m[0]]) + m[1..] == acc + m
  {
  }

  /** The first setting line of a dictionary adds its first entry. */
  lemma EntriesStep(acc: Settings, m: Settings)
    requires m != [] && DistinctKeys(acc + m) && Readable(m[0].0, m[0].1)
    ensures ParseInto(acc, Entries(m)) == ParseInto(acc + [m[0]], Entries(m[1..]))
  {
    var (key, value) := m[0];
    assert forall i :: 0 <= i < |acc| ==> acc[i].0 != key by {
      forall i | 0 <= i < |acc| ensures acc[i].0 != key {
        assert (acc + m)[i] == acc[i] && (acc + m)[|acc|] == m[0];
      }
    }
    StepNewKey(acc, key, value);
    var line, rest := EntryLine(key, value), Entries(m[1..]);
    assert Entries(m) == [line] + rest;
    assert ([line] + rest)[1..] == rest;
  }

  /** The line of a key not yet in the dictionary adds it at the end. */
  lemma StepNewKey(acc: Settings, key: string, value: string)
    requires Readable(key, value)
    requires forall i :: 0 <= i < |acc| ==> acc[i].0 != key
    ensures Step(acc, EntryLine(key, value)) == acc + [(key, value)]
  {
    ParseEntryLine(key, value);
  }

  /** Reading a written file gives back its settings. */
  lemma ParsedOfWritten(h: Header, m: Settings)
    requires WellFormed(m)
    ensures Parsed(HeaderLines(h) + Entries(m)) == m
  {
    HeaderSkipped(h);
    ParseIntoSkips([], HeaderLines(h), Entries(m));
    assert [] + m == m;
    ParseIntoEntries([], m);
  }

  /** A parsed line is a setting that reads back as itself. */
  lemma ParseLineReadable(line: string)
    requires ParseLine(line).Some?
    ensures Readable(ParseLine(line).value.0, ParseLine(line).value.1)
  {
    var (key, value) := ParseLine(line).value;
    var t := Strip(line);
    assert t == key + "=" + value;
    if key != [] {
      assert t[0] == key[0];
    }
    if value != [] {
      assert t[|t| - 1] == value[|value| - 1];
    }
  }

  /** Assigning readable settings keeps a dictionary well formed. */
  lemma PutWellFormed(m: Settings, key: string, value: string)
    requires WellFormed(m) && Readable(key, value)
    ensures WellFormed(Put(m, key, value))
  {
    PutSpec(m, key, value);
  }

  /** Every dictionary the loop builds is well formed. */
  lemma {:induction false} ParseIntoWellFormed(m: Settings, lines: seq<string>)
    requires WellFormed(m)
    ensures WellFormed(ParseInto(m, lines))
    decreases |lines|
  {
    if lines != [] {
      if ParseLine(lines[0]).Some? {
        ParseLineReadable(lines[0]);
        PutWellFormed(m, ParseLine(lines[0]).value.0, ParseLine(lines[0]).value.1);
      }
      ParseIntoWellFormed(Step(m, lines[0]), lines[1..]);
    }
  }

  /** Assigning several readable settings keeps a dictionary well formed. */
  lemma {:induction false} PutAllWellFormed(m: Settings, updates: Settings)
    requires WellFormed(m)
    requires forall i :: 0 <= i < |updates| ==> Readable(updates[i].0, updates[i].1)
    ensures WellFormed(PutAll(m, updates))
    decreases |updates|
  {
    if updates != [] {
      PutWellFormed(m, updates[0].0, updates[0].1);
      PutAllWellFormed(Put(m, updates[0].0, updates[0].1), updates[1..]);
    }
  }

  // ---------------------------------------------------------------------
  // The two modes

  /** The settings the quality-first mode writes. */
  const QualityOverrides: Settings := [
    ("ENABLE_OPENROUTER", "true"), ("ENABLE_GEMINI", "true"),
    ("FALLBACK_TO_LOCAL", "false"), ("ENABLE_RULE_BASED_FALLBACK", "false")]

  /** The settings the fallback mode writes. */
  const FallbackOverrides: Settings := [
    ("ENABLE_OPENROUTER", "true"), ("FALLBACK_TO_LOCAL", "true"), ("ENABLE_RULE_BASED_FALLBACK", "true")]

  /** The lines a mode writes for a file that had `lines` (none when it was missing). */
  function Rewritten(h: Header, overrides: Settings, lines: seq<string>): seq<string> {
    HeaderLines(h) + Entries(PutAll(Parsed(lines), overrides))
  }

  /** The overrides are well formed. */
  lemma OverridesWellFormed()
    ensures DistinctKeys(QualityOverrides) && DistinctKeys(FallbackOverrides)
    ensures forall i :: 0 <= i < |QualityOverrides| ==> Readable(QualityOverrides[i].0, QualityOverrides[i].1)
    ensures forall i :: 0 <= i < |FallbackOverrides| ==> Readable(FallbackOverrides[i].0, FallbackOverrides[i].1)
  {
    assert !IsSpace('E') && !IsSpace('F') && !IsSpace('e');
  }

  /**
   * The file a mode writes reads back as the old settings with the mode's
   * overrides applied, and running the mode again writes the same file.
   */
  lemma RewrittenSpec(h: Header, overrides: Settings, lines: seq<string>)
    requires DistinctKeys(overrides)
    requires forall i :: 0 <= i < |overrides| ==> Readable(overrides[i].0, overrides[i].1)
    ensures Parsed(Rewritten(h, overrides, lines)) == PutAll(Parsed(lines), overrides)
    ensures Rewritten(h, overrides, Rewritten(h, overrides, lines)) == Rewritten(h, overrides, lines)
  {
    ParseIntoWellFormed([], lines);
    var m := PutAll(Parsed(lines), overrides);
    PutAllWellFormed(Parsed(lines), overrides);
    ParsedOfWritten(h, m);
    PutAllIdempotent(Parsed(lines), overrides);
  }

  /**
   * Quality mode turns OpenRouter and Gemini on and both fallbacks off;
   * every other setting is kept.
   */
  lemma QualityModeSpec(m: Settings, key: string)
    requires DistinctKeys(m)
    ensures Lookup(PutAll(m, QualityOverrides), key)
            == if key == "ENABLE_OPENROUTER" || key == "ENABLE_GEMINI" then Some("true")
               else if key == "FALLBACK_TO_LOCAL" || key == "ENABLE_RULE_BASED_FALLBACK" then Some("false")
               else Lookup(m, key)
  {
    OverridesWellFormed();
    PutAllSpec(m, QualityOverrides);
    QualityLookup(key);
  }

  /** Fallback mode turns OpenRouter and both fallbacks on and keeps every other setting, Gemini's included. */
  lemma FallbackModeSpec(m: Settings, key: string)
    requires DistinctKeys(m)
    ensures Lookup(PutAll(m, FallbackOverrides), key)
            == if key == "ENABLE_OPENROUTER" || key == "FALLBACK_TO_LOCAL" || key == "ENABLE_RULE_BASED_FALLBACK"
               then Some("true") else Lookup(m, key)
  {
    OverridesWellFormed();
    PutAllSpec(m, FallbackOverrides);
    FallbackLookup(key);
  }

  lemma QualityLookup(key: string)
    ensures Lookup(QualityOverrides, key)
            == if key == "ENABLE_OPENROUTER" || key == "ENABLE_GEMINI" then Some("true")
               else if key == "FALLBACK_TO_LOCAL" || key == "ENABLE_RULE_BASED_FALLBACK" then Some("false")
               else None
  {
  }

  lemma FallbackLookup(key: string)
    ensures Lookup(FallbackOverrides, key)
            == if key == "ENABLE_OPENROUTER" || key == "FALLBACK_TO_LOCAL" || key == "ENABLE_RULE_BASED_FALLBACK"
               then Some("true") else None
  {
  }

  /** `configure_for_quality_content`. */
  method ConfigureForQualityContent(file: EnvFile)
    modifies file
    ensures file.present
    ensures file.lines == Rewritten(QualityHeader, QualityOverrides, if old(file.present) then old(file.lines) else [])
  {
    var m: Settings := [];
    if file.present {
      m := ReadSettings(file.lines);
    }
    m := Put(m, "ENABLE_OPENROUTER", "true");
    m := Put(m, "ENABLE_GEMINI", "true");
    m := Put(m, "FALLBACK_TO_LOCAL", "false");
    m := Put(m, "ENABLE_RULE_BASED_FALLBACK", "false");
    var out := WriteSettings(QualityHeader, m);
    file.present := true;
    file.lines := out;
  }

  /** `configure_for_fallbacks`. */
  method ConfigureForFallbacks(file: EnvFile)
    modifies file
    ensures file.present
    ensures file.lines == Rewritten(FallbackHeader, FallbackOverrides, if old(file.present) then old(file.lines) else [])
  {
    var m: Settings := [];
    if file.present {
      m := ReadSettings(file.lines);
    }
    m := Put(m, "ENABLE_OPENROUTER", "true");
    m := Put(m, "FALLBACK_TO_LOCAL", "true");
    m := Put(m, "ENABLE_RULE_BASED_FALLBACK", "true");
    var out := WriteSettings(FallbackHeader, m);
    file.present := true;
    file.lines := out;
  }
}
