/**
 * `configure_ai_priority.py`: the order in which the AI services are tried,
 * kept in the `AI_MODEL_PRIORITY` line of `.env`.
 */
module PriorityConfig {
  import opened Text
  import opened Wrappers
  import opened DotEnv

  /** The start of the line that holds the priority. */
  const PriorityKey: string := "AI_MODEL_PRIORITY="

  /** The order used when the variable is not set. */
  const DefaultPriority: seq<string> := ["openrouter", "gemini", "local", "rule_based"]

  /** The services a custom order may name. */
  const Services: set<string> := {"openrouter", "gemini", "local", "rule_based"}

  // ---------------------------------------------------------------------
  // Reading the priority

  /** `get_current_priority`: the value of the variable, or the default, split at commas. */
  function CurrentPriority(env: Option<string>): (r: seq<string>)
    ensures r != []
    ensures env.Some? ==> Join(",", r) == env.value
  {
    match env
    case None => Split("openrouter,gemini,local,rule_based", ",")
    case Some(value) => Split(value, ",")
  }

  /** Names without commas, joined with commas, split back into the same names. */
  lemma {:induction false} SplitJoinComma(xs: seq<string>)
    requires xs != []
    requires forall i :: 0 <= i < |xs| ==> ',' !in xs[i]
    ensures Split(Join(",", xs), ",") == xs
  {
    if |xs| == 1 {
      FindOne(xs[0], ',');
      assert Split(xs[0], ",") == [xs[0]];
    } else {
      JoinSingle(",", xs[0], xs[1..]);
      assert [xs[0]] + xs[1..] == xs;
      SplitAfterHead(xs[0], Join(",", xs[1..]));
      SplitJoinComma(xs[1..]);
    }
  }

  /** With the variable unset the services are tried in the default order. */
  lemma CurrentPriorityDefault()
    ensures CurrentPriority(None) == DefaultPriority
  {
    DefaultJoin();
    DefaultSnakeCase();
    SplitJoinComma(DefaultPriority);
  }

  /** The default setting is the comma-join of the default order. */
  lemma DefaultJoin()
    ensures Join(",", DefaultPriority) == "openrouter,gemini,local,rule_based"
  {
    DefaultJoinPieces();
    DefaultSettingPieces();
  }

  lemma DefaultJoinPieces()
    ensures Join(",", DefaultPriority) == "openrouter" + "," + "gemini" + "," + "local" + "," + "rule_based"
  {
    var a, b, c, d := "openrouter", "gemini", "local", "rule_based";
    assert DefaultPriority == [a] + ([b] + ([c] + [d]));
    JoinSingle(",", a, [b] + ([c] + [d]));
    JoinSingle(",", b, [c] + [d]);
    JoinSingle(",", c, [d]);
  }

  lemma DefaultSettingPieces()
    ensures "openrouter,gemini,local,rule_based" == "openrouter" + "," + "gemini" + "," + "local" + "," + "rule_based"
  {
  }

  /** No name of the default order holds a comma. */
  lemma DefaultSnakeCase()
    ensures forall i :: 0 <= i < |DefaultPriority| ==> ',' !in DefaultPriority[i]
  {
    assert SnakeCase("openrouter") && SnakeCase("gemini") && SnakeCase("local") && SnakeCase("rule_based");
  }

  // ---------------------------------------------------------------------
  // Writing the priority

  /** The line `set_priority` writes. */
  function PriorityLine(priority: seq<string>): (r: string)
    ensures StartsWith(r, PriorityKey)
  {
    PriorityKey + Join(",", priority) + "\n"
  }

  /** The value a priority line holds: what follows the key, without the line end. */
  function SettingValue(line: string): string
    requires StartsWith(line, PriorityKey)
  {
    var rest := line[|PriorityKey|..];
    if rest != [] && rest[|rest| - 1] == '\n' then rest[..|rest| - 1] else rest
  }

  /** The index of the first line that sets the priority, or -1. */
  function FirstSetting(lines: seq<string>): (k: int)
    ensures -1 <= k < |lines|
    ensures k == -1 <==> forall i :: 0 <= i < |lines| ==> !StartsWith(lines[i], PriorityKey)
    ensures k != -1 ==> StartsWith(lines[k], PriorityKey)
                        && forall i :: 0 <= i < k ==> !StartsWith(lines[i], PriorityKey)
  {
    if lines == [] then -1
    else if StartsWith(lines[0], PriorityKey) then 0
    else
      var k := FirstSetting(lines[1..]);
      assert forall i :: 1 <= i < |lines| ==> lines[i] == lines[1..][i - 1];
      if k == -1 then -1 else k + 1
  }

  /** The lines of an existing file after `set_priority`. */
  function WithPriority(lines: seq<string>, priority: seq<string>): seq<string> {
    var k := FirstSetting(lines);
    if k == -1 then lines + [PriorityLine(priority)] else lines[k := PriorityLine(priority)]
  }

  /** The first line that sets the priority is determined by the lines up to it. */
  lemma FirstSettingAt(lines: seq<string>, k: int)
    requires 0 <= k < |lines| && StartsWith(lines[k], PriorityKey)
    requires forall i :: 0 <= i < k ==> !StartsWith(lines[i], PriorityKey)
    ensures FirstSetting(lines) == k
  {
  }

  /**
   * Only the first line that sets the priority is replaced and every other
   * line is kept; with no such line exactly one is appended at the end.
   */
  lemma WithPrioritySpec(lines: seq<string>, priority: seq<string>)
    ensures var r := WithPriority(lines, priority);
      var k := FirstSetting(lines);
      (k != -1 ==> |r| == |lines| && r[k] == PriorityLine(priority)
                   && forall i :: 0 <= i < |lines| && i != k ==> r[i] == lines[i])
      && (k == -1 ==> |r| == |lines| + 1 && r[..|lines|] == lines && r[|lines|] == PriorityLine(priority))
  {
  }

  /**
   * After `set_priority` the first priority line of the file holds the
   * comma-joined list, and reading it back with `get_current_priority`
   * gives the list again when no service name holds a comma.
   */
  lemma WithPriorityReadBack(lines: seq<string>, priority: seq<string>)
    requires priority != []
    requires forall i :: 0 <= i < |priority| ==> ',' !in priority[i]
    ensures var r := WithPriority(lines, priority);
      FirstSetting(r) != -1 && r[FirstSetting(r)] == PriorityLine(priority)
      && CurrentPriority(Some(SettingValue(r[FirstSetting(r)]))) == priority
  {
    var r := WithPriority(lines, priority);
    var k := FirstSetting(lines);
    if k == -1 {
      assert forall i :: 0 <= i < |lines| ==> r[i] == lines[i];
      FirstSettingAt(r, |lines|);
    } else {
      assert forall i :: 0 <= i < k ==> r[i] == lines[i];
      FirstSettingAt(r, k);
    }
    var line := PriorityLine(priority);
    assert line[|PriorityKey|..] == Join(",", priority) + "\n";
    assert SettingValue(line) == Join(",", priority);
    SplitJoinComma(priority);
  }

  /** Setting the same priority twice leaves the file as the first time did. */
  lemma WithPriorityIdempotent(lines: seq<string>, priority: seq<string>)
    ensures WithPriority(WithPriority(lines, priority), priority) == WithPriority(lines, priority)
  {
    var r := WithPriority(lines, priority);
    var k := FirstSetting(lines);
    if k == -1 {
      assert forall i :: 0 <= i < |lines| ==> r[i] == lines[i];
      FirstSettingAt(r, |lines|);
    } else {
      assert forall i :: 0 <= i < k ==> r[i] == lines[i];
      FirstSettingAt(r, k);
    }
  }

  /**
   * `set_priority`: an existing file has its first priority line replaced,
   * or one appended; a missing file is created with that line alone.
   */
  method SetPriority(file: EnvFile, priority: seq<string>)
    modifies file
    ensures file.present
    ensures file.lines == if old(file.present) then WithPriority(old(file.lines), priority)
                          else [PriorityLine(priority)]
  {
    var line := PriorityLine(priority);
    if file.present {
      var lines := file.lines;
      var updated := false;
      var i := 0;
      while i < |lines| && !updated
        invariant 0 <= i <= |lines|
        invariant !updated ==> lines == file.lines
                               && forall j :: 0 <= j < i ==> !StartsWith(file.lines[j], PriorityKey)
        invariant updated ==> i == FirstSetting(file.lines) && lines == file.lines[i := line]
        decreases |lines| - i, !updated
      {
        if StartsWith(lines[i], PriorityKey) {
          lines := lines[i := line];
          updated := true;
        } else {
          i := i + 1;
        }
      }
      if !updated {
        lines := lines + [line];
      }
      file.lines := lines;
    } else {
      file.present := true;
      file.lines := [line];
    }
  }

  // ---------------------------------------------------------------------
  // The menu

  /** The preset orders of the menu, by choice. */
  const Presets: map<string, seq<string>> := map[
    "1" := ["gemini", "openrouter", "local", "rule_based"],
    "2" := ["openrouter", "gemini", "local", "rule_based"],
    "3" := ["local", "gemini", "openrouter", "rule_based"],
    "4" := ["gemini", "openrouter"],
    "5" := ["gemini"],
    "6" := ["openrouter"]]

  /** `[service.strip().lower() for service in parts]`. */
  function Normalised(parts: seq<string>): (r: seq<string>)
    ensures |r| == |parts|
    ensures forall i :: 0 <= i < |r| ==> r[i] == Lower(Strip(parts[i]))
  {
    if parts == [] then [] else [Lower(Strip(parts[0]))] + Normalised(parts[1..])
  }

  /** `service in valid_services`. */
  predicate IsService(name: string) {
    name in Services
  }

  /** `[service for service in names if service in valid_services]`. */
  function Known(names: seq<string>): (r: seq<string>)
    ensures forall i :: 0 <= i < |r| ==> IsService(r[i])
  {
    if names == [] then []
    else (if IsService(names[0]) then [names[0]] else []) + Known(names[1..])
  }

  /** The filter works name by name: it keeps the order and the repeats of the known names. */
  lemma {:induction false} KnownAppend(a: seq<string>, b: seq<string>)
    ensures Known(a + b) == Known(a) + Known(b)
  {
    if a == [] {
      assert a + b == b;
    } else {
      var head := if IsService(a[0]) then [a[0]] else [];
      assert (a + b)[0] == a[0];
      assert (a + b)[1..] == a[1..] + b;
      KnownAppend(a[1..], b);
      calc {
        Known(a + b);
        head + Known(a[1..] + b);
        head + (Known(a[1..]) + Known(b));
        (head + Known(a[1..])) + Known(b);
        Known(a) + Known(b);
      }
    }
  }

  /** One name is kept exactly when it names a service. */
  lemma KnownSingle(x: string)
    ensures Known([x]) == if x in Services then [x] else []
  {
    assert [x][1..] == [];
  }

  /** The custom order typed at the prompt. */
  function CustomPriority(input: string): (r: seq<string>)
    ensures forall i :: 0 <= i < |r| ==> IsService(r[i])
  {
    var custom := Strip(input);
    if custom == [] then [] else Known(Normalised(Split(custom, ",")))
  }

  /**
   * `main`: the order that gets written for the menu choice and the custom
   * input, or `None` when the configuration is left untouched.
   */
  function Chosen(choice: string, customInput: string): (r: Option<seq<string>>)
    ensures r.Some? ==> r.value != [] && forall i :: 0 <= i < |r.value| ==> IsService(r.value[i])
  {
    var c := Strip(choice);
    if c in Presets then Some(Presets[c])
    else if c == "7" then
      var custom := CustomPriority(customInput);
      if custom != [] then Some(custom) else None
    else None
  }

  /** Lower-case letters and underscores only. */
  predicate SnakeCase(x: string) {
    forall i :: 0 <= i < |x| ==> IsLowerAscii(x[i]) || x[i] == '_'
  }

  /** A non-empty name in snake case is stripped, lower-case and free of commas. */
  lemma SnakeCaseCanonical(x: string)
    requires x != [] && SnakeCase(x)
    ensures IsStripped(x) && Lower(Strip(x)) == x && ',' !in x
  {
    assert !IsSpace(x[0]) && !IsSpace(x[|x| - 1]);
    StripOfStripped(x);
  }

  /** The service names are non-empty, stripped, lower-case and free of commas. */
  lemma ServicesCanonical(x: string)
    requires IsService(x)
    ensures Canonical(x)
  {
    assert x != [] && SnakeCase(x) by {
      if x == "openrouter" {
        assert SnakeCase("openrouter");
      } else if x == "gemini" {
        assert SnakeCase("gemini");
      } else if x == "local" {
        assert SnakeCase("local");
      } else {
        assert SnakeCase("rule_based");
      }
    }
    SnakeCaseCanonical(x);
  }

  /** A comma-join starts with its first name and ends with its last. */
  lemma {:induction false} JoinEnds(ps: seq<string>)
    requires ps != []
    ensures StartsWith(Join(",", ps), ps[0]) && EndsWith(Join(",", ps), ps[|ps| - 1])
  {
    if |ps| > 1 {
      JoinSingle(",", ps[0], ps[1..]);
      assert [ps[0]] + ps[1..] == ps;
      JoinEnds(ps[1..]);
      var j := Join(",", ps[1..]);
      assert Join(",", ps) == ps[0] + ("," + j);
      assert Join(",", ps)[|Join(",", ps)| - |ps[|ps| - 1]|..] == j[|j| - |ps[|ps| - 1]|..];
    }
  }

  /** Known names all pass the filter. */
  lemma {:induction false} KnownAll(names: seq<string>)
    requires forall i :: 0 <= i < |names| ==> IsService(names[i])
    ensures Known(names) == names
  {
    if names != [] {
      KnownAll(names[1..]);
    }
  }

  /**
   * Typing an order of services back at the custom prompt, comma-separated,
   * selects that same order.
   */
  lemma CustomPriorityOfJoin(priority: seq<string>)
    requires priority != []
    requires forall i :: 0 <= i < |priority| ==> IsService(priority[i])
    ensures CustomPriority(Join(",", priority)) == priority
  {
    ServicesAllCanonical(priority);
    KnownAll(priority);
    CustomPriorityOfCanonical(priority);
  }

  lemma ServicesAllCanonical(priority: seq<string>)
    requires forall i :: 0 <= i < |priority| ==> IsService(priority[i])
    ensures forall i :: 0 <= i < |priority| ==> Canonical(priority[i])
  {
    forall i | 0 <= i < |priority|
      ensures Canonical(priority[i])
    {
      ServicesCanonical(priority[i]);
    }
  }

  /** Non-empty, stripped, lower-case and free of commas. */
  predicate Canonical(x: string) {
    x != [] && IsStripped(x) && Lower(Strip(x)) == x && ',' !in x
  }

  /** The round trip for canonical names that the filter keeps. */
  lemma CustomPriorityOfCanonical(priority: seq<string>)
    requires priority != []
    requires forall i :: 0 <= i < |priority| ==> Canonical(priority[i])
    requires Known(priority) == priority
    ensures CustomPriority(Join(",", priority)) == priority
  {
    CustomPriorityOfParts(Join(",", priority), priority);
    NormalisedCanonical(priority);
  }

  /** The custom input that strips-and-splits into `priority` selects its known normalised names. */
  lemma CustomPriorityOfParts(input: string, priority: seq<string>)
    requires input == Join(",", priority)
    requires priority != [] && forall i :: 0 <= i < |priority| ==> Canonical(priority[i])
    ensures CustomPriority(input) == Known(Normalised(priority))
  {
    SplitOfCanonicalJoin(priority);
  }

  /** Stripping the join of canonical names and splitting it at commas gives the names. */
  lemma SplitOfCanonicalJoin(priority: seq<string>)
    requires priority != []
    requires forall i :: 0 <= i < |priority| ==> Canonical(priority[i])
    ensures Strip(Join(",", priority)) != []
    ensures Split(Strip(Join(",", priority)), ",") == priority
  {
    var joined := Join(",", priority);
    JoinStripped(priority);
    StripOfStripped(joined);
    SplitJoinComma(priority);
  }

  /** A comma-join of non-empty stripped names is non-empty and stripped. */
  lemma JoinStripped(ps: seq<string>)
    requires ps != []
    requires forall i :: 0 <= i < |ps| ==> ps[i] != [] && IsStripped(ps[i])
    ensures Join(",", ps) != [] && IsStripped(Join(",", ps))
  {
    var joined := Join(",", ps);
    JoinEnds(ps);
    var first, last := ps[0], ps[|ps| - 1];
    assert joined[0] == first[0];
    assert joined[|joined| - 1] == last[|last| - 1];
  }

  /** Names that `strip().lower()` keeps are kept. */
  lemma NormalisedCanonical(ps: seq<string>)
    requires forall i :: 0 <= i < |ps| ==> Canonical(ps[i])
    ensures Normalised(ps) == ps
  {
    assert forall i :: 0 <= i < |ps| ==> Lower(Strip(ps[i])) == ps[i];
  }

  /** `main` after the prompts: writes the chosen order, or leaves the file alone. */
  method Configure(file: EnvFile, choice: string, customInput: string)
    modifies file
    ensures Chosen(choice, customInput).None? ==> file.present == old(file.present) && file.lines == old(file.lines)
    ensures Chosen(choice, customInput).Some? ==>
      var priority := Chosen(choice, customInput).value;
      file.present
      && file.lines == if old(file.present) then WithPriority(old(file.lines), priority)
                       else [PriorityLine(priority)]
  {
    var c := Strip(choice);
    if c in Presets {
      SetPriority(file, Presets[c]);
    } else if c == "7" {
      var custom := Strip(customInput);
      if custom != [] {
        var names := Normalised(Split(custom, ","));
        var known := Known(names);
        if known != [] {
          SetPriority(file, known);
        }
      }
    }
  }
}
