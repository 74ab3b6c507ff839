/** The values of the rewrite language and how they are shown to the user. */
module Rewrite {
  import opened Base

  /** A range of source offsets. */
  datatype Span = Span(start: nat, end: nat)

  /** A failure at a span, with its message. */
  datatype Error = Error(span: Span, msg: string)

  datatype Value =
    | Null
    | Undefined
    | Bool(b: bool)
    | Int(i: int32)
    | Str(s: string)
    | Array(xs: seq<Value>)

  /** `Display`: keywords for `null` and `undefined`, `true`/`false`, a decimal
      integer (which reads back to the same integer), strings verbatim, and
      arrays bracketed with their elements' displays separated by `", "`. */
  function Display(v: Value): (r: string)
    ensures v.Null? ==> r == "null"
    ensures v.Undefined? ==> r == "undefined"
    ensures v.Bool? ==> r == (if v.b then "true" else "false")
    ensures v.Int? ==> ParseInt(r) == Some(v.i as int) && CanonicalInt(r)
    ensures v.Str? ==> r == v.s
    ensures v.Array? ==> |r| >= 2 && r[0] == '[' && r[|r| - 1] == ']'
    ensures v.Array? && |v.xs| == 0 ==> r == "[]"
    decreases v
  {
    match v
    case Null => "null"
    case Undefined => "undefined"
    case Bool(x) => if x then "true" else "false"
    case Int(x) => IntToStringRoundTrip(x as int); IntToStringCanonical(x as int); IntToString(x as int)
    case Str(x) => x
    case Array(xs) =>
      "[" + Join(seq(|xs|, k requires 0 <= k < |xs| => Display(xs[k])), ", ") + "]"
  }

  /** `Value::int`: the integer of an `Int`, and for every other value an
      error at `span` whose message quotes the value's display. */
  function IntOf(v: Value, span: Span): (r: Result<int32, Error>)
    ensures r.Ok? <==> v.Int?
    ensures r.Ok? ==> v == Int(r.value)
    ensures r.Err? ==> r.error.span == span && r.error.msg == "'" + Display(v) + "' is not a integer"
  {
    if v.Int? then Ok(v.i)
    else Err(Error(span, "'" + Display(v) + "' is not a integer"))
  }

  function TotalLength(parts: seq<string>): nat
    decreases |parts|
  {
    if |parts| == 0 then 0 else |parts[0]| + TotalLength(parts[1..])
  }

  /** A join is as long as its parts plus one separator between each pair. */
  lemma {:induction false} JoinLength(parts: seq<string>, sep: string)
    requires |parts| > 0
    ensures |Join(parts, sep)| == TotalLength(parts) + |sep| * (|parts| - 1)
    decreases |parts|
  {
    if |parts| > 1 {
      JoinLength(parts[1..], sep);
    } else {
      assert parts[1..] == [];
    }
  }

  /** An array's display is as long as its elements' displays plus the
      brackets and one `", "` between each pair of neighbours. */
  lemma ArrayDisplayLength(xs: seq<Value>)
    ensures var parts := seq(|xs|, k requires 0 <= k < |xs| => Display(xs[k]));
      |Display(Array(xs))| == 2 + TotalLength(parts) + (if |xs| == 0 then 0 else 2 * (|xs| - 1))
  {
    var parts := seq(|xs|, k requires 0 <= k < |xs| => Display(xs[k]));
    if |xs| > 0 {
      JoinLength(parts, ", ");
    }
  }

  /** An array shows its first element's display, then, if more follow,
      `", "` and the inside of the rest's display, within one pair of
      brackets: the inside is the elements' displays in order. */
  lemma DisplayArrayCons(x: Value, xs: seq<Value>)
    ensures Display(Array([x])) == "[" + Display(x) + "]"
    ensures |xs| > 0 ==> Display(Array([x] + xs)) == "[" + Display(x) + ", " + Display(Array(xs))[1..]
  {
    DisplaySingleton(x);
    if |xs| > 0 {
      var tail := seq(|xs|, k requires 0 <= k < |xs| => Display(xs[k]));
      DisplayPartsCons(x, xs);
      JoinCons(Display(x), tail, ", ");
      var inner := Join(tail, ", ");
      DisplayArrayInside(xs, inner);
      assert "[" + (Display(x) + ", " + inner) + "]" == "[" + Display(x) + ", " + (inner + "]");
    }
  }

  /** The text after an array display's opening bracket. */
  lemma DisplayArrayInside(xs: seq<Value>, inner: string)
    requires inner == Join(seq(|xs|, k requires 0 <= k < |xs| => Display(xs[k])), ", ")
    ensures Display(Array(xs))[1..] == inner + "]"
  {
    assert Display(Array(xs)) == "[" + inner + "]";
  }

  /** A one-element array shows only its element, bracketed. */
  lemma DisplaySingleton(x: Value)
    ensures Display(Array([x])) == "[" + Display(x) + "]"
  {
    assert seq(1, k requires 0 <= k < 1 => Display([x][k])) == [Display(x)];
  }

  /** The displays of `[x] + xs` are `x`'s display before those of `xs`. */
  lemma DisplayPartsCons(x: Value, xs: seq<Value>)
    ensures var all := [x] + xs;
      seq(|all|, k requires 0 <= k < |all| => Display(all[k])) ==
      [Display(x)] + seq(|xs|, k requires 0 <= k < |xs| => Display(xs[k]))
  {
  }

  /** Joining a part before a non-empty list puts one separator between. */
  lemma JoinCons(head: string, tail: seq<string>, sep: string)
    requires |tail| > 0
    ensures Join([head] + tail, sep) == head + sep + Join(tail, sep)
  {
    assert ([head] + tail)[1..] == tail;
  }

  /** Arrays show their elements in order, nested arrays included. */
  lemma DisplayExamples()
    ensures Display(Array([Int(1), Str("a"), Null])) == "[1, a, null]"
    ensures Display(Array([Array([]), Bool(false)])) == "[[], false]"
    ensures Display(Int(-42)) == "-42"
  {
    DisplayFlatArray();
    DisplayNestedArray();
    assert NatToString(42) == "42";
  }

  lemma DisplayFlatArray()
    ensures Display(Array([Int(1), Str("a"), Null])) == "[1, a, null]"
  {
    var xs := [Int(1), Str("a"), Null];
    assert Display(Int(1)) == "1";
    assert seq(3, k requires 0 <= k < 3 => Display(xs[k])) == ["1", "a", "null"];
    JoinFlat();
  }

  lemma JoinFlat()
    ensures Join(["1", "a", "null"], ", ") == "1, a, null"
  {
    var parts := ["1", "a", "null"];
    assert parts[1..] == ["a", "null"];
    assert parts[1..][1..] == ["null"];
  }

  lemma DisplayNestedArray()
    ensures Display(Array([Array([]), Bool(false)])) == "[[], false]"
  {
    var xs := [Array([]), Bool(false)];
    var nested := ["[]", "false"];
    assert seq(2, k requires 0 <= k < 2 => Display(xs[k])) == nested;
    assert nested[1..] == ["false"];
    assert Join(nested, ", ") == "[], false";
  }

  /** Strings are shown without quotes, so a string can look like any other
      value, an empty array included. */
  lemma StringsShowVerbatim()
    ensures Display(Str("null")) == Display(Null)
    ensures Display(Array([Str("")])) == Display(Array([]))
  {
    assert seq(1, k requires 0 <= k < 1 => Display([Str("")][k])) == [""];
  }

  /** The message for a non-integer names the offending value. */
  lemma IntOfExamples(span: Span)
    ensures IntOf(Int(7), span) == Ok(7)
    ensures IntOf(Bool(true), span) == Err(Error(span, "'true' is not a integer"))
    ensures IntOf(Array([]), span) == Err(Error(span, "'[]' is not a integer"))
  {
    IntOfBool(span);
    IntOfEmptyArray(span);
  }

  lemma IntOfBool(span: Span)
    ensures IntOf(Bool(true), span) == Err(Error(span, "'true' is not a integer"))
  {
    assert Display(Bool(true)) == "true";
    assert "'" + "true" + "' is not a integer" == "'true' is not a integer";
  }

  lemma IntOfEmptyArray(span: Span)
    ensures IntOf(Array([]), span) == Err(Error(span, "'[]' is not a integer"))
  {
    assert Display(Array([])) == "[]";
    assert "'" + "[]" + "' is not a integer" == "'[]' is not a integer";
  }
}
