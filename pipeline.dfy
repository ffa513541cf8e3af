/**
 * The loop every `_clean_and_validate_*` method runs: clean one item,
 * keep it when it validates, and stop as soon as `target_count` items are
 * kept. The stop test comes after an item is processed, so a target of
 * zero or less still processes the first item. An exception raised while
 * cleaning an item (a non-dict item, a non-string field) leaves the loop.
 */
module Pipeline {
  import opened Wrappers
  import opened Text
  import opened Json

  /**
   * The loop from its state: `acc` holds the items kept so far and
   * `items` the ones not yet processed. `step` cleans and validates one
   * item: None when it is dropped, Raised when cleaning raises.
   */
  function Collect<T>(items: seq<Value>, target: int, step: Value -> Outcome<Option<T>>, acc: seq<T>): Outcome<seq<T>>
    decreases |items|
  {
    if items == [] then Ok(acc)
    else match step(items[0])
      case Raised => Raised
      case Ok(o) =>
        var acc' := if o.Some? then acc + [o.value] else acc;
        if |acc'| >= target then Ok(acc') else Collect(items[1..], target, step, acc')
  }

  /** How many items the loop processes before it stops or raises. */
  function Consumed<T>(items: seq<Value>, target: int, step: Value -> Outcome<Option<T>>, acc: seq<T>): (n: nat)
    ensures 1 <= n <= |items| || (n == 0 && items == [])
    decreases |items|
  {
    if items == [] then 0
    else match step(items[0])
      case Raised => 1
      case Ok(o) =>
        var acc' := if o.Some? then acc + [o.value] else acc;
        if |acc'| >= target then 1 else 1 + Consumed(items[1..], target, step, acc')
  }

  /** Every item cleaned and filtered, with no early stop: the reference the loop is measured against. */
  function Kept<T>(items: seq<Value>, step: Value -> Outcome<Option<T>>): Outcome<seq<T>>
    decreases |items|
  {
    if items == [] then Ok([])
    else match step(items[0])
      case Raised => Raised
      case Ok(o) =>
        match Kept(items[1..], step)
        case Raised => Raised
        case Ok(rest) => Ok((if o.Some? then [o.value] else []) + rest)
  }

  /**
   * `_clean_and_validate_*`: the loop keeps exactly the cleaned, valid
   * items among the first `Consumed` inputs, in input order.
   */
  lemma {:induction false} CollectIsKeptPrefix<T>(items: seq<Value>, target: int, step: Value -> Outcome<Option<T>>, acc: seq<T>)
    ensures var n := Consumed(items, target, step, acc);
            Collect(items, target, step, acc) == match Kept(items[..n], step)
              case Raised => Raised
              case Ok(k) => Ok(acc + k)
    decreases |items|
  {
    var n := Consumed(items, target, step, acc);
    if items == [] {
      assert items[..n] == [];
      assert acc + [] == acc;
    } else {
      assert items[..n][0] == items[0];
      match step(items[0])
      case Raised =>
      case Ok(o) =>
        var acc' := if o.Some? then acc + [o.value] else acc;
        if |acc'| >= target {
          assert items[..n][1..] == [];
          assert Kept(items[..n], step) == Ok((if o.Some? then [o.value] else []) + []);
          assert acc' == acc + ((if o.Some? then [o.value] else []) + []);
        } else {
          CollectIsKeptPrefix(items[1..], target, step, acc');
          assert items[..n][1..] == items[1..][..n - 1];
          var m := Kept(items[1..][..n - 1], step);
          if m.Ok? {
            assert acc' + m.value == acc + ((if o.Some? then [o.value] else []) + m.value);
          }
        }
    }
  }

  /** The loop never returns more than `max(target_count, 1)` items; at least `target_count` when it stops early. */
  lemma {:induction false} CollectBound<T>(items: seq<Value>, target: int, step: Value -> Outcome<Option<T>>, acc: seq<T>)
    requires |acc| < Max(target, 1)
    ensures var r := Collect(items, target, step, acc);
            r.Ok? ==> |r.value| <= Max(target, 1)
                      && (Consumed(items, target, step, acc) < |items| ==> |r.value| >= target)
    decreases |items|
  {
    if items != [] {
      match step(items[0])
      case Raised =>
      case Ok(o) =>
        var acc' := if o.Some? then acc + [o.value] else acc;
        if |acc'| < target {
          CollectBound(items[1..], target, step, acc');
        }
    }
  }

  /** What a step promises about every item it keeps carries over to the whole result. */
  lemma {:induction false} KeptAll<T>(items: seq<Value>, step: Value -> Outcome<Option<T>>, good: T -> bool)
    requires forall x :: step(x).Ok? && step(x).value.Some? ==> good(step(x).value.value)
    ensures Kept(items, step).Ok? ==> forall i :: 0 <= i < |Kept(items, step).value| ==> good(Kept(items, step).value[i])
    decreases |items|
  {
    if items != [] {
      KeptAll(items[1..], step, good);
    }
  }

  /** A step that never raises on these items makes the whole loop succeed. */
  lemma {:induction false} CollectNeverRaises<T>(items: seq<Value>, target: int, step: Value -> Outcome<Option<T>>, acc: seq<T>)
    requires forall i :: 0 <= i < |items| ==> step(items[i]).Ok?
    ensures Collect(items, target, step, acc).Ok?
    decreases |items|
  {
    if items != [] {
      var o := step(items[0]).value;
      var acc' := if o.Some? then acc + [o.value] else acc;
      assert forall i :: 0 <= i < |items[1..]| ==> items[1..][i] == items[i + 1];
      CollectNeverRaises(items[1..], target, step, acc');
    }
  }

  /** Kept items come from the inputs: each is the step's value for some input item. */
  lemma {:induction false} KeptFromInputs<T>(items: seq<Value>, step: Value -> Outcome<Option<T>>)
    ensures Kept(items, step).Ok? ==>
      forall i :: 0 <= i < |Kept(items, step).value| ==>
        exists j :: 0 <= j < |items| && step(items[j]) == Ok(Some(Kept(items, step).value[i]))
    decreases |items|
  {
    if items != [] {
      KeptFromInputs(items[1..], step);
      var k := Kept(items, step);
      if k.Ok? {
        var o := step(items[0]).value;
        var rest := Kept(items[1..], step).value;
        forall i | 0 <= i < |k.value|
          ensures exists j :: 0 <= j < |items| && step(items[j]) == Ok(Some(k.value[i]))
        {
          if o.Some? && i == 0 {
            assert step(items[0]) == Ok(Some(k.value[0]));
          } else {
            var i' := if o.Some? then i - 1 else i;
            assert k.value[i] == rest[i'];
            var j :| 0 <= j < |items[1..]| && step(items[1..][j]) == Ok(Some(rest[i']));
            assert items[1..][j] == items[j + 1];
          }
        }
      }
    }
  }

  /**
   * The loop body of every `_clean_and_validate_*` method, with `step`
   * standing for the per-item cleaning and validation of that generator.
   */
  method CleanAndValidate<T>(items: seq<Value>, target: int, step: Value -> Outcome<Option<T>>) returns (r: Outcome<seq<T>>)
    ensures r == Collect(items, target, step, [])
  {
    var cleaned: seq<T> := [];
    var i := 0;
    while i < |items|
      invariant 0 <= i <= |items|
      invariant Collect(items, target, step, []) == Collect(items[i..], target, step, cleaned)
    {
      assert items[i..][0] == items[i];
      assert items[i..][1..] == items[i + 1..];
      var o := step(items[i]);
      if o.Raised? {
        return Raised;
      }
      if o.value.Some? {
        cleaned := cleaned + [o.value.value];
      }
      if |cleaned| >= target {
        return Ok(cleaned);
      }
      i := i + 1;
    }
    return Ok(cleaned);
  }
  // ---------------------------------------------------------------------
  // The gating of `generate_flashcards` and `generate_exercises`

  /** The dicts a producer appends, one per item. */
  function Encode<T>(xs: seq<T>, encode: T -> Value): (r: seq<Value>)
    ensures |r| == |xs| && forall i :: 0 <= i < |xs| ==> r[i] == encode(xs[i])
  {
    seq(|xs|, i requires 0 <= i < |xs| => encode(xs[i]))
  }

  /**
   * The cleaner's result, or what the `except` branch returns when the
   * cleaner raises: the raw rule-based list when the fallback flag is on,
   * nothing when it is off, and the import error (`flag` None) when the
   * configuration does not define the flag.
   */
  function CleanOrFallback<T>(items: seq<Value>, count: int, step: Value -> Outcome<Option<T>>,
                              flag: Option<bool>, fallback: seq<T>): Outcome<seq<T>>
  {
    match Collect(items, count, step, [])
    case Ok(cleaned) => Ok(cleaned)
    case Raised =>
      match flag
      case None => Raised
      case Some(b) => if b then Ok(fallback) else Ok([])
  }

  /**
   * The steps after the model paths: with no model items, the flag is
   * imported and decides between cleaning the rule-based list and
   * returning nothing; otherwise the model items are cleaned.
   */
  function Gate<T>(ai: seq<Value>, fallback: seq<T>, encode: T -> Value, count: int,
                   step: Value -> Outcome<Option<T>>, flag: Option<bool>): Outcome<seq<T>>
  {
    if ai == [] then
      match flag
      case None => Raised
      case Some(b) => if b then CleanOrFallback(Encode(fallback, encode), count, step, flag, fallback) else Ok([])
    else CleanOrFallback(ai, count, step, flag, fallback)
  }

  /**
   * With no model items, the result is the cleaned rule-based list if the
   * flag is on (cleaning the producer's own dicts never raises), nothing if
   * it is off, and an exception if the flag is not defined.
   */
  lemma GateFallback<T>(fallback: seq<T>, encode: T -> Value, count: int, step: Value -> Outcome<Option<T>>, flag: Option<bool>)
    requires forall x :: step(encode(x)).Ok?
    ensures var r := Gate([], fallback, encode, count, step, flag);
            && (flag == Some(true) ==> Collect(Encode(fallback, encode), count, step, []).Ok?
                                       && r == Collect(Encode(fallback, encode), count, step, []))
            && (flag == Some(false) ==> r == Ok([]))
            && (flag.None? ==> r.Raised?)
  {
    var items := Encode(fallback, encode);
    assert forall i :: 0 <= i < |items| ==> step(items[i]).Ok? by {
      forall i | 0 <= i < |items| ensures step(items[i]).Ok? {
        assert items[i] == encode(fallback[i]);
      }
    }
    CollectNeverRaises(items, count, step, []);
  }

  /** With model items, the flag matters only when cleaning them raises. */
  lemma GateModelItems<T>(ai: seq<Value>, fallback: seq<T>, encode: T -> Value, count: int,
                          step: Value -> Outcome<Option<T>>, flag: Option<bool>)
    requires ai != []
    ensures var r := Gate(ai, fallback, encode, count, step, flag);
            var c := Collect(ai, count, step, []);
            && (c.Ok? ==> r == c)
            && (c.Raised? && flag == Some(true) ==> r == Ok(fallback))
            && (c.Raised? && flag == Some(false) ==> r == Ok([]))
            && (c.Raised? && flag.None? ==> r.Raised?)
  {
  }

  /**
   * What the step promises of every item it keeps, and what the rule-based
   * list promises of its items, holds of every item returned; and so does
   * the count bound, when the rule-based list keeps it.
   */
  lemma GateShape<T>(ai: seq<Value>, fallback: seq<T>, encode: T -> Value, count: int,
                     step: Value -> Outcome<Option<T>>, flag: Option<bool>, good: T -> bool)
    requires forall x :: step(x).Ok? && step(x).value.Some? ==> good(step(x).value.value)
    requires forall i :: 0 <= i < |fallback| ==> good(fallback[i])
    requires count >= 0 ==> |fallback| <= Max(count, 1)
    ensures var r := Gate(ai, fallback, encode, count, step, flag);
            r.Ok? ==> (count >= 0 ==> |r.value| <= Max(count, 1))
                      && forall i :: 0 <= i < |r.value| ==> good(r.value[i])
  {
    CleanedShape(ai, count, step, good);
    CleanedShape(Encode(fallback, encode), count, step, good);
  }

  /** Every kept item is good, and there are at most `max(count, 1)` of them. */
  lemma CleanedShape<T>(items: seq<Value>, count: int, step: Value -> Outcome<Option<T>>, good: T -> bool)
    requires forall x :: step(x).Ok? && step(x).value.Some? ==> good(step(x).value.value)
    ensures var r := Collect(items, count, step, []);
            r.Ok? ==> |r.value| <= Max(count, 1) && forall i :: 0 <= i < |r.value| ==> good(r.value[i])
  {
    CollectBound(items, count, step, []);
    CollectIsKeptPrefix(items, count, step, []);
    var n := Consumed(items, count, step, []);
    KeptAll(items[..n], step, good);
    var k := Kept(items[..n], step);
    if k.Ok? {
      assert [] + k.value == k.value;
    }
  }
}
