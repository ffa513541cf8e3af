/**
 * Decoded JSON values as Python sees them after `json.loads`, the Python
 * operations the cleaners apply to them (`dict.get`, `str.strip`,
 * iteration, truthiness), and the structured-response path: slicing the
 * first `[` to the last `]` out of a response and deleting the trailing
 * commas that the array and object grammar of RFC 8259 (sections 4 and 5)
 * does not allow.
 */
module Json {
  import opened Wrappers
  import opened Text

  /** A decoded JSON value; an object keeps its keys in insertion order. */
  datatype Value =
    | Null
    | Bool(b: bool)
    | Num(n: real)
    | Str(s: string)
    | Arr(items: seq<Value>)
    | Obj(fields: seq<(string, Value)>)

  /** A list of Python strings as a JSON array's items. */
  function Strs(xs: seq<string>): (r: seq<Value>)
    ensures |r| == |xs| && forall i :: 0 <= i < |xs| ==> r[i] == Str(xs[i])
  {
    seq(|xs|, i requires 0 <= i < |xs| => Str(xs[i]))
  }

  /** Index of the first field named `key`, or -1. */
  function KeyIndex(fields: seq<(string, Value)>, key: string): (r: int)
    ensures -1 <= r < |fields|
    ensures r == -1 <==> forall i :: 0 <= i < |fields| ==> fields[i].0 != key
    ensures r != -1 ==> fields[r].0 == key && forall i :: 0 <= i < r ==> fields[i].0 != key
  {
    if fields == [] then -1
    else if fields[0].0 == key then 0
    else
      var k := KeyIndex(fields[1..], key);
      if k == -1 then -1 else k + 1
  }

  /** The key found first at `k` is at index `k`. */
  lemma KeyIndexAt(fields: seq<(string, Value)>, key: string, k: nat)
    requires k < |fields| && fields[k].0 == key
    requires forall i :: 0 <= i < k ==> fields[i].0 != key
    ensures KeyIndex(fields, key) == k
  {
  }

  /** `v.get(key, default)`: only a dict has `.get`; anything else raises. */
  function Get(v: Value, key: string, default: Value): (r: Outcome<Value>)
    ensures r.Ok? <==> v.Obj?
    ensures v.Obj? && KeyIndex(v.fields, key) == -1 ==> r == Ok(default)
    ensures v.Obj? && KeyIndex(v.fields, key) != -1 ==> r == Ok(v.fields[KeyIndex(v.fields, key)].1)
  {
    match v
    case Obj(fields) =>
      var k := KeyIndex(fields, key);
      if k == -1 then Ok(default) else Ok(fields[k].1)
    case _ => Raised
  }

  /** The value of `key` in a dict, or the default. */
  function Field(item: Value, key: string, default: Value): (r: Value)
    requires item.Obj?
    ensures Get(item, key, default) == Ok(r)
  {
    Get(item, key, default).value
  }

  /** `v.strip()`: only a str has `.strip`; anything else raises. */
  function StripValue(v: Value): (r: Outcome<string>)
    ensures r.Ok? <==> v.Str?
    ensures r.Ok? ==> IsStripped(r.value) && (r.value == [] <==> AllSpace(v.s))
  {
    if v.Str? then Ok(Strip(v.s)) else Raised
  }

  /** `for x in v`: a str yields its characters, a list its items, a dict its keys. */
  function Iterate(v: Value): (r: Outcome<seq<Value>>)
    ensures r.Ok? <==> (v.Str? || v.Arr? || v.Obj?)
    ensures v.Arr? ==> r == Ok(v.items)
    ensures v.Str? ==> r.Ok? && |r.value| == |v.s| && forall i :: 0 <= i < |v.s| ==> r.value[i] == Str([v.s[i]])
    ensures v.Obj? ==> r.Ok? && |r.value| == |v.fields| && forall i :: 0 <= i < |v.fields| ==> r.value[i] == Str(v.fields[i].0)
  {
    match v
    case Str(s) => Ok(seq(|s|, i requires 0 <= i < |s| => Str([s[i]])))
    case Arr(items) => Ok(items)
    case Obj(fields) => Ok(seq(|fields|, i requires 0 <= i < |fields| => Str(fields[i].0)))
    case _ => Raised
  }

  /** Python truthiness. */
  predicate Truthy(v: Value) {
    match v
    case Null => false
    case Bool(b) => b
    case Num(n) => n != 0.0
    case Str(s) => s != []
    case Arr(items) => items != []
    case Obj(fields) => fields != []
  }

  // ---------------------------------------------------------------------
  // The structured path

  /**
   * `response[response.find('['):response.rfind(']') + 1]`, or None when
   * there is no `[` or no `]`. When the last `]` comes before the first
   * `[`, Python's slice is empty.
   */
  function ArraySlice(response: string): (r: Option<string>)
    ensures r.None? <==> ('[' !in response || ']' !in response)
    ensures r.Some? && r.value != [] ==> Bracketed(response, r.value)
    ensures r.Some? && r.value == [] ==> NoCloseAfterOpen(response)
  {
    var a := FindChar(response, '[');
    var e := RFindChar(response, ']') + 1;
    if a == -1 || e == 0 then None
    else if a < e then
      SpanBetween(response, a, e);
      Some(response[a..e])
    else
      NoCloseAfter(response, a, e);
      Some([])
  }

  /** `r` is the text of `response` from its first `[` to its last `]`, both included. */
  ghost predicate Bracketed(response: string, r: string) {
    && r != [] && r[0] == '[' && r[|r| - 1] == ']'
    && exists a :: 0 <= a && a + |r| <= |response| && response[a..a + |r|] == r
                   && '[' !in response[..a] && ']' !in response[a + |r|..]
  }

  /** `response` has a `[` and no `]` at or after the first one. */
  ghost predicate NoCloseAfterOpen(response: string) {
    '[' in response && ']' !in response[FindChar(response, '[')..]
  }

  lemma SpanBetween(response: string, a: nat, e: nat)
    requires a < e <= |response| && response[a] == '[' && '[' !in response[..a]
    requires response[e - 1] == ']' && ']' !in response[e..]
    ensures Bracketed(response, response[a..e])
  {
    var r := response[a..e];
    assert response[a..a + |r|] == r;
  }

  lemma NoCloseAfter(response: string, a: nat, e: nat)
    requires 0 < e <= a < |response| && ']' !in response[e..]
    requires a == FindChar(response, '[')
    ensures NoCloseAfterOpen(response)
  {
    assert response[a..] == response[e..][a - e..];
  }

  /**
   * `re.sub(r',\s*' + close, close, s)`: a comma whose next non-whitespace
   * character is `close` is deleted together with the whitespace after it.
   */
  function DropCommaBefore(s: string, close: char): (r: string)
    requires close != ',' && !IsSpace(close)
    ensures |r| <= |s|
  {
    if s == [] then []
    else if s[0] == ',' && FirstNonSpace(s[1..]) == Some(close) then
      var w := LeadingSpaces(s[1..]);
      [close] + DropCommaBefore(s[w + 2..], close)
    else [s[0]] + DropCommaBefore(s[1..], close)
  }

  /** Both substitutions of the structured path, `]` first. */
  function Repair(s: string): (r: string)
    ensures |r| <= |s|
  {
    SpaceFacts();
    DropCommaBefore(DropCommaBefore(s, ']'), '}')
  }

  /** The first character that is not whitespace, if any. */
  function FirstNonSpace(t: string): (r: Option<char>)
    ensures r.Some? ==> !IsSpace(r.value)
    ensures r.None? <==> AllSpace(t)
  {
    var n := LeadingSpaces(t);
    if n < |t| then Some(t[n]) else None
  }

  lemma FirstNonSpaceCons(x: char, t: string)
    ensures FirstNonSpace([x] + t) == if IsSpace(x) then FirstNonSpace(t) else Some(x)
  {
    assert ([x] + t)[1..] == t;
  }

  /** Whether a comma of `s` is followed, after whitespace, by `close`. */
  predicate NoTrailingComma(s: string, close: char) {
    forall i :: 0 <= i < |s| && s[i] == ',' ==> FirstNonSpace(s[i + 1..]) != Some(close)
  }

  /** No two commas of `s` are separated by whitespace only. */
  predicate NoCommaRun(s: string) { NoTrailingComma(s, ',') }

  lemma NoTrailingCommaTail(s: string, close: char)
    requires s != [] && NoTrailingComma(s, close)
    ensures NoTrailingComma(s[1..], close)
  {
    forall i | 0 <= i < |s| - 1 && s[1..][i] == ',' ensures FirstNonSpace(s[1..][i + 1..]) != Some(close) {
      assert s[1..][i + 1..] == s[i + 2..];
    }
  }

  lemma NoTrailingCommaSuffix(s: string, k: nat, close: char)
    requires k <= |s| && NoTrailingComma(s, close)
    ensures NoTrailingComma(s[k..], close)
  {
    var rest := s[k..];
    forall i | 0 <= i < |rest| && rest[i] == ',' ensures FirstNonSpace(rest[i + 1..]) != Some(close) {
      assert rest[i + 1..] == s[k + i + 1..];
      assert s[k + i] == ',';
    }
  }

  lemma NoTrailingCommaCons(x: char, t: string, close: char)
    requires NoTrailingComma(t, close)
    requires x == ',' ==> FirstNonSpace(t) != Some(close)
    ensures NoTrailingComma([x] + t, close)
  {
    var s := [x] + t;
    forall i | 0 <= i < |s| && s[i] == ',' ensures FirstNonSpace(s[i + 1..]) != Some(close) {
      if i == 0 {
        assert s[1..] == t;
      } else {
        assert s[i + 1..] == t[i..];
      }
    }
  }

  /** The first visible character survives the pass when it is not a comma. */
  lemma {:induction false} DropKeepsHead(t: string, close: char)
    requires close != ',' && !IsSpace(close)
    requires FirstNonSpace(t) != Some(',')
    ensures FirstNonSpace(DropCommaBefore(t, close)) == FirstNonSpace(t)
    decreases |t|
  {
    if t != [] {
      SpaceFacts();
      FirstNonSpaceCons(t[0], t[1..]);
      assert t == [t[0]] + t[1..];
      FirstNonSpaceCons(t[0], DropCommaBefore(t[1..], close));
      if IsSpace(t[0]) {
        DropKeepsHead(t[1..], close);
      }
    }
  }

  /** A pass leaves no comma before its closer unless two commas were adjacent. */
  lemma {:induction false} DropLeavesNone(s: string, close: char)
    requires close != ',' && !IsSpace(close)
    requires NoCommaRun(s)
    ensures NoTrailingComma(DropCommaBefore(s, close), close)
    decreases |s|
  {
    if s != [] {
      if s[0] == ',' && FirstNonSpace(s[1..]) == Some(close) {
        var w := LeadingSpaces(s[1..]);
        NoTrailingCommaSuffix(s, w + 2, ',');
        DropLeavesNone(s[w + 2..], close);
        DroppedNoTrailing(s, close, close);
      } else {
        NoTrailingCommaTail(s, ',');
        DropLeavesNone(s[1..], close);
        KeptLeavesNone(s, close);
      }
    }
  }

  /** The step of `DropLeavesNone` where the first character is kept. */
  lemma KeptLeavesNone(s: string, close: char)
    requires close != ',' && !IsSpace(close)
    requires s != [] && !(s[0] == ',' && FirstNonSpace(s[1..]) == Some(close))
    requires NoCommaRun(s)
    requires NoTrailingComma(DropCommaBefore(s[1..], close), close)
    ensures NoTrailingComma(DropCommaBefore(s, close), close)
  {
    var d := DropCommaBefore(s[1..], close);
    if s[0] == ',' {
      assert FirstNonSpace(s[1..]) != Some(',');
      DropKeepsHead(s[1..], close);
    }
    assert DropCommaBefore(s, close) == [s[0]] + d;
    NoTrailingCommaCons(s[0], d, close);
  }

  /** A pass creates no new trailing comma before another closer, nor a new run of commas. */
  lemma {:induction false} DropKeepsNoTrailing(s: string, close: char, other: char)
    requires close != ',' && !IsSpace(close)
    requires NoCommaRun(s) && NoTrailingComma(s, other)
    ensures NoTrailingComma(DropCommaBefore(s, close), other)
    decreases |s|
  {
    if s != [] {
      if s[0] == ',' && FirstNonSpace(s[1..]) == Some(close) {
        var w := LeadingSpaces(s[1..]);
        NoTrailingCommaSuffix(s, w + 2, ',');
        NoTrailingCommaSuffix(s, w + 2, other);
        DropKeepsNoTrailing(s[w + 2..], close, other);
        DroppedNoTrailing(s, close, other);
      } else {
        NoTrailingCommaTail(s, ',');
        NoTrailingCommaTail(s, other);
        DropKeepsNoTrailing(s[1..], close, other);
        KeptNoTrailing(s, close, other);
      }
    }
  }

  /** The step of `DropKeepsNoTrailing` where the comma is dropped. */
  lemma DroppedNoTrailing(s: string, close: char, other: char)
    requires close != ',' && !IsSpace(close)
    requires s != [] && s[0] == ',' && FirstNonSpace(s[1..]) == Some(close)
    requires NoTrailingComma(DropCommaBefore(s[LeadingSpaces(s[1..]) + 2..], close), other)
    ensures NoTrailingComma(DropCommaBefore(s, close), other)
  {
    var d := DropCommaBefore(s[LeadingSpaces(s[1..]) + 2..], close);
    assert DropCommaBefore(s, close) == [close] + d;
    NoTrailingCommaCons(close, d, other);
  }

  /** The step of `DropKeepsNoTrailing` where the first character is kept. */
  lemma KeptNoTrailing(s: string, close: char, other: char)
    requires close != ',' && !IsSpace(close)
    requires s != [] && !(s[0] == ',' && FirstNonSpace(s[1..]) == Some(close))
    requires NoCommaRun(s) && NoTrailingComma(s, other)
    requires NoTrailingComma(DropCommaBefore(s[1..], close), other)
    ensures NoTrailingComma(DropCommaBefore(s, close), other)
  {
    var d := DropCommaBefore(s[1..], close);
    if s[0] == ',' {
      assert FirstNonSpace(s[1..]) != Some(',') && FirstNonSpace(s[1..]) != Some(other);
      DropKeepsHead(s[1..], close);
    }
    assert DropCommaBefore(s, close) == [s[0]] + d;
    NoTrailingCommaCons(s[0], d, other);
  }

  /**
   * When no two commas are separated by whitespace only, the repaired text
   * has no comma left before a `]` or a `}`.
   */
  lemma RepairRemovesTrailingCommas(s: string)
    requires NoCommaRun(s)
    ensures NoTrailingComma(Repair(s), ']') && NoTrailingComma(Repair(s), '}')
  {
    SpaceFacts();
    var once := DropCommaBefore(s, ']');
    DropLeavesNone(s, ']');
    DropKeepsNoTrailing(s, ']', ',');
    DropKeepsNoTrailing(once, '}', ']');
    DropLeavesNone(once, '}');
  }

  lemma {:induction false} DropIdentity(s: string, close: char)
    requires close != ',' && !IsSpace(close)
    requires NoTrailingComma(s, close)
    ensures DropCommaBefore(s, close) == s
    decreases |s|
  {
    if s != [] {
      NoTrailingCommaTail(s, close);
      DropIdentity(s[1..], close);
      assert s == [s[0]] + s[1..];
    }
  }

  /** Text with no trailing comma is left exactly as it is. */
  lemma RepairIdentity(s: string)
    requires NoTrailingComma(s, ']') && NoTrailingComma(s, '}')
    ensures Repair(s) == s
  {
    SpaceFacts();
    DropIdentity(s, ']');
    DropIdentity(s, '}');
  }

  /** The characters that are neither commas nor whitespace. */
  function Essence(s: string): (r: string)
    ensures |r| <= |s|
  {
    if s == [] then []
    else (if s[0] == ',' || IsSpace(s[0]) then [] else [s[0]]) + Essence(s[1..])
  }

  lemma EssenceAppend(a: string, b: string)
    ensures Essence(a + b) == Essence(a) + Essence(b)
  {
    if a == [] {
      assert a + b == b;
    } else {
      assert (a + b)[0] == a[0];
      assert (a + b)[1..] == a[1..] + b;
      EssenceAppend(a[1..], b);
    }
  }

  lemma EssenceOfSpaces(t: string)
    requires AllSpace(t)
    ensures Essence(t) == []
  {
    if t != [] {
      EssenceOfSpaces(t[1..]);
    }
  }

  lemma {:induction false} DropKeepsEssence(s: string, close: char)
    requires close != ',' && !IsSpace(close)
    ensures Essence(DropCommaBefore(s, close)) == Essence(s)
    decreases |s|
  {
    if s != [] {
      if s[0] == ',' && FirstNonSpace(s[1..]) == Some(close) {
        var w := LeadingSpaces(s[1..]);
        DropKeepsEssence(s[w + 2..], close);
        DroppedCommaEssence(s, close);
      } else {
        DropKeepsEssence(s[1..], close);
        EssenceAppend([s[0]], DropCommaBefore(s[1..], close));
        EssenceAppend([s[0]], s[1..]);
        assert s == [s[0]] + s[1..];
      }
    }
  }

  lemma CutAround(s: string, k: nat)
    requires 1 <= k < |s|
    ensures s == [s[0]] + s[1..k] + [s[k]] + s[k + 1..]
  {
  }

  /** Deleting a comma and the whitespace after it keeps the essence. */
  lemma DroppedCommaEssence(s: string, close: char)
    requires close != ',' && !IsSpace(close)
    requires s != [] && s[0] == ',' && FirstNonSpace(s[1..]) == Some(close)
    requires var w := LeadingSpaces(s[1..]);
             Essence(DropCommaBefore(s[w + 2..], close)) == Essence(s[w + 2..])
    ensures Essence(DropCommaBefore(s, close)) == Essence(s)
  {
    var d := DropCommaBefore(s[LeadingSpaces(s[1..]) + 2..], close);
    DroppedHeadEssence(s, close);
    assert DropCommaBefore(s, close) == [close] + d;
    EssenceAppend([close], d);
    assert Essence([close]) == [close];
  }

  /** A comma, the whitespace after it and the closer it precedes have the closer as essence. */
  lemma DroppedHeadEssence(s: string, close: char)
    requires close != ',' && !IsSpace(close)
    requires s != [] && s[0] == ',' && FirstNonSpace(s[1..]) == Some(close)
    ensures Essence(s) == [close] + Essence(s[LeadingSpaces(s[1..]) + 2..])
  {
    var w := LeadingSpaces(s[1..]);
    var x, sp, r := [s[0]], s[1..w + 1], s[w + 2..];
    assert s[w + 1] == close by { assert s[1..][w] == close; }
    CutAround(s, w + 1);
    EssenceOfSpaces(sp);
    EssenceAppend(x + sp + [close], r);
    EssenceAppend(x + sp, [close]);
    EssenceAppend(x, sp);
    assert Essence(x) == [] && Essence([close]) == [close];
    calc {
      Essence(s);
      Essence(x + sp + [close]) + Essence(r);
      Essence(x + sp) + [close] + Essence(r);
      { assert Essence(x + sp) == []; }
      [] + [close] + Essence(r);
      { assert [] + [close] == [close]; }
      [close] + Essence(r);
    }
  }

  /** The repair deletes only commas and whitespace. */
  lemma RepairKeepsEssence(s: string)
    ensures Essence(Repair(s)) == Essence(s)
  {
    SpaceFacts();
    DropKeepsEssence(s, ']');
    DropKeepsEssence(DropCommaBefore(s, ']'), '}');
  }

  /**
   * The structured path: a blank response, a response without brackets,
   * undecodable text and a decoded value that is not a list all yield [];
   * otherwise the items of the decoded list. `decode` stands for
   * `json.loads`, None for `JSONDecodeError`.
   */
  function StructuredItems(response: Option<string>, decode: string -> Option<Value>): (r: seq<Value>)
    ensures r != [] ==> response.Some? && !AllSpace(response.value)
                        && ArraySlice(response.value).Some?
                        && decode(Repair(ArraySlice(response.value).value)) == Some(Arr(r))
    ensures response.Some? && !AllSpace(response.value) && ArraySlice(response.value).Some?
            && decode(Repair(ArraySlice(response.value).value)).Some?
            && decode(Repair(ArraySlice(response.value).value)).value.Arr?
            ==> r == decode(Repair(ArraySlice(response.value).value)).value.items
  {
    if response.None? || Strip(response.value) == [] then []
    else match ArraySlice(response.value)
      case None => []
      case Some(text) =>
        match decode(Repair(text))
        case Some(Arr(items)) => items
        case _ => []
  }
}
