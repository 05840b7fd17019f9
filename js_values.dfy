/**
 * The JavaScript values the request handler looks at, and the few string
 * operations of the language it relies on: truthiness, `length`, `trim`,
 * the `\s` class of regular expressions and `Array.prototype.join`.
 */
module JsValues {
  import opened Results

  /**
   * A value of a parsed JSON document. `Undefined` stands for a member that
   * is absent, which is what destructuring an object yields for it.
   */
  datatype Value =
    | Undefined
    | Null
    | Bool(b: bool)
    | Num(n: real)
    | Str(s: string)
    | Arr(items: seq<Value>)
    | Obj(members: map<string, Value>)

  /** An exception as the handler inspects it: the `status` an API error may carry, and its message. */
  datatype Thrown = Thrown(status: Option<int>, message: string)

  /** JavaScript truthiness. JSON has no NaN, so a number is falsy exactly when it is zero. */
  predicate Truthy(v: Value) {
    match v
    case Undefined => false
    case Null => false
    case Bool(b) => b
    case Num(n) => n != 0.0
    case Str(s) => s != ""
    case Arr(_) => true
    case Obj(_) => true
  }

  /** The falsy values JSON can carry: `undefined` for an absent member, `null`, `false`, `0` and `""`. */
  lemma FalsyValues(v: Value)
    ensures !Truthy(v) <==> v == Undefined || v == Null || v == Bool(false) || v == Num(0.0) || v == Str("")
  {
  }

  /** Property access `o.key` on an object parsed from JSON. */
  function Get(members: map<string, Value>, key: string): Value {
    if key in members then members[key] else Undefined
  }

  /** The number of UTF-16 code units that encode `c`. */
  function CodeUnits(c: char): nat {
    if c as int < 0x1_0000 then 1 else 2
  }

  /**
   * `s.length`: JavaScript counts UTF-16 code units, so a character outside
   * the Basic Multilingual Plane counts twice.
   */
  function JsLength(s: string): (n: nat)
    ensures |s| <= n <= 2 * |s|
    ensures n == 0 <==> s == []
    ensures (forall i :: 0 <= i < |s| ==> s[i] as int < 0x1_0000) ==> n == |s|
  {
    if s == [] then 0 else CodeUnits(s[0]) + JsLength(s[1..])
  }

  /** A single character is as long as its UTF-16 encoding. */
  lemma JsLengthOfChar(c: char)
    ensures JsLength([c]) == CodeUnits(c)
    ensures JsLength([c]) == 2 <==> c as int >= 0x1_0000
  {
    assert [c][1..] == [];
  }

  /** The length of a concatenation is the sum of the lengths. */
  lemma {:induction false} JsLengthAppend(a: string, b: string)
    ensures JsLength(a + b) == JsLength(a) + JsLength(b)
  {
    if a != [] {
      assert (a + b)[1..] == a[1..] + b;
      JsLengthAppend(a[1..], b);
    } else {
      assert a + b == b;
    }
  }

  /**
   * The characters of the `\s` class, which are also the ones `trim`
   * removes: WhiteSpace and LineTerminator of ECMAScript.
   */
  predicate IsSpace(c: char) {
    || c == '\t' || c == '\n' || c == '\U{000B}' || c == '\U{000C}' || c == '\r'
    || c == ' ' || c == '\U{00A0}' || c == '\U{1680}'
    || ('\U{2000}' <= c <= '\U{200A}')
    || c == '\U{2028}' || c == '\U{2029}' || c == '\U{202F}' || c == '\U{205F}'
    || c == '\U{3000}' || c == '\U{FEFF}'
  }

  /**
   * The ASCII spaces are the space and tab to carriage return; no letter or
   * digit is a space, and every space lies in the Basic Multilingual Plane.
   */
  lemma SpaceClass(c: char)
    ensures c as int < 0x80 ==> (IsSpace(c) <==> c == ' ' || '\t' <= c <= '\r')
    ensures ('a' <= c <= 'z') || ('A' <= c <= 'Z') || ('0' <= c <= '9') ==> !IsSpace(c)
    ensures IsSpace(c) ==> c as int < 0x1_0000
  {
  }

  /** `s.trimStart()`: drops the longest prefix of spaces. */
  function TrimStart(s: string): (r: string)
    ensures |r| <= |s| && r == s[|s| - |r|..]
    ensures forall i :: 0 <= i < |s| - |r| ==> IsSpace(s[i])
    ensures r != [] ==> !IsSpace(r[0])
  {
    if s != [] && IsSpace(s[0]) then TrimStart(s[1..]) else s
  }

  /** `s.trimEnd()`: drops the longest suffix of spaces. */
  function TrimEnd(s: string): (r: string)
    ensures |r| <= |s| && r == s[..|r|]
    ensures forall i :: |r| <= i < |s| ==> IsSpace(s[i])
    ensures r != [] ==> !IsSpace(r[|r| - 1])
  {
    if s != [] && IsSpace(s[|s| - 1]) then TrimEnd(s[..|s| - 1]) else s
  }

  /** `r` is the slice of `s` at `i`, with nothing but spaces before and after it. */
  predicate SpacesAround(s: string, i: int, r: string) {
    && 0 <= i <= |s| - |r| && r == s[i..i + |r|]
    && (forall k :: 0 <= k < i ==> IsSpace(s[k]))
    && (forall k :: i + |r| <= k < |s| ==> IsSpace(s[k]))
  }

  /** `s.trim()`. */
  function Trim(s: string): (r: string)
    ensures |r| <= |s|
    ensures r != [] ==> !IsSpace(r[0]) && !IsSpace(r[|r| - 1])
    ensures exists i :: SpacesAround(s, i, r)
  {
    TrimSlice(s);
    TrimEnd(TrimStart(s))
  }

  /** Trimming keeps the slice that starts where `trimStart` stops. */
  lemma TrimSlice(s: string)
    ensures SpacesAround(s, |s| - |TrimStart(s)|, TrimEnd(TrimStart(s)))
  {
    SuffixThenPrefix(s, TrimStart(s), TrimEnd(TrimStart(s)));
  }

  /** A prefix `r` of a suffix `t` of `s`, with only spaces dropped at each step, is a slice of `s` between spaces. */
  lemma SuffixThenPrefix(s: string, t: string, r: string)
    requires |t| <= |s| && t == s[|s| - |t|..]
    requires forall k :: 0 <= k < |s| - |t| ==> IsSpace(s[k])
    requires |r| <= |t| && r == t[..|r|]
    requires forall k :: |r| <= k < |t| ==> IsSpace(t[k])
    ensures SpacesAround(s, |s| - |t|, r)
  {
    var i := |s| - |t|;
    assert r == s[i..i + |r|] by {
      assert s[i..][..|r|] == s[i..i + |r|];
    }
    forall k | i + |r| <= k < |s|
      ensures IsSpace(s[k])
    {
      assert s[k] == t[k - i];
    }
  }

  /** A string trims to nothing exactly when every character of it is a space. */
  lemma TrimEmpty(s: string)
    ensures Trim(s) == [] <==> forall i :: 0 <= i < |s| ==> IsSpace(s[i])
  {
  }

  /** The decimal digits of a natural number, most significant first. */
  function Digits(k: nat): (d: string)
    ensures d != [] && forall i :: 0 <= i < |d| ==> '0' <= d[i] <= '9'
  {
    var last := ('0' as int + k % 10) as char;
    if k < 10 then [last] else Digits(k / 10) + [last]
  }

  /** From 10^21 on, `String` prints a number in exponent form. */
  const ExponentFrom: real := 1000000000000000000000.0

  /**
   * `String(v)` for a value parsed from JSON, where the model has its text:
   * integers below 10^21 in magnitude print as digits (here the exact
   * value's digits; JavaScript prints the shortest digits that read back as
   * the same double, which are digits too), an array as
   * its elements joined by commas (`null` and `undefined` as nothing), and
   * an object as `[object Object]`. An object with its own `toString`
   * member, which JSON can carry but cannot make callable, has no text:
   * converting it throws. Numbers in exponent form or with a fraction are
   * not printed here.
   */
  function Printed(v: Value): (r: Option<string>)
    ensures v.Str? ==> r == Some(v.s)
    decreases v, 1
  {
    match v
    case Undefined => Some("undefined")
    case Null => Some("null")
    case Bool(b) => Some(if b then "true" else "false")
    case Num(n) =>
      if n.Floor as real != n || n >= ExponentFrom || n <= -ExponentFrom then None
      else if n >= 0.0 then Some(Digits(n.Floor))
      else Some("-" + Digits((-n).Floor))
    case Str(s) => Some(s)
    case Arr(items) =>
      (match PrintedItems(items)
       case None => None
       case Some(parts) => Some(Join(parts, ",")))
    case Obj(m) => if "toString" in m then None else Some("[object Object]")
  }

  /** The texts `join` prints for the elements of an array, when each has one. */
  function PrintedItems(items: seq<Value>): (r: Option<seq<string>>)
    ensures r.Some? ==> |r.value| == |items|
    ensures r.Some? ==> forall i :: 0 <= i < |items| ==>
      if items[i].Null? || items[i].Undefined? then r.value[i] == "" else Printed(items[i]) == Some(r.value[i])
    ensures r.None? ==> exists i :: 0 <= i < |items| && !items[i].Null? && !items[i].Undefined? && Printed(items[i]).None?
    decreases items, 0
  {
    if items == [] then Some([])
    else
      var first := if items[0].Null? || items[0].Undefined? then Some("") else Printed(items[0]);
      match (first, PrintedItems(items[1..]))
      case (Some(p), Some(ps)) =>
        assert forall i :: 1 <= i < |items| ==> items[i] == items[1..][i - 1];
        Some([p] + ps)
      case (None, _) => None
      case (_, None) =>
        assert forall i :: 1 <= i < |items| ==> items[i] == items[1..][i - 1];
        None
  }

  /** `parts.join(sep)`. */
  function Join(parts: seq<string>, sep: string): (r: string)
    ensures parts == [] ==> r == ""
    ensures |parts| > 0 ==> |parts[0]| <= |r| && r[..|parts[0]|] == parts[0]
    ensures |parts| > 1 ==> |parts[0]| + |sep| <= |r| && r[|parts[0]|..|parts[0]| + |sep|] == sep
    ensures |parts| > 0 ==> |parts[|parts| - 1]| <= |r| && r[|r| - |parts[|parts| - 1]|..] == parts[|parts| - 1]
  {
    if |parts| == 0 then ""
    else if |parts| == 1 then parts[0]
    else
      var rest := Join(parts[1..], sep);
      assert parts[|parts| - 1] == parts[1..][|parts[1..]| - 1];
      var r := parts[0] + sep + rest;
      assert r[..|parts[0]|] == parts[0];
      assert r[|parts[0]|..|parts[0]| + |sep|] == sep;
      assert r[|r| - |rest|..] == rest;
      r
  }

  /** Joining one part gives that part. */
  lemma JoinOne(p: string, sep: string)
    ensures Join([p], sep) == p
  {
  }

  /** Joining one more part appends the separator and that part: `join` keeps every part, in order. */
  lemma {:induction false} JoinAppend(parts: seq<string>, p: string, sep: string)
    requires parts != []
    ensures Join(parts + [p], sep) == Join(parts, sep) + sep + p
  {
    if |parts| == 1 {
      assert (parts + [p])[1..] == [p];
    } else {
      JoinUnfold(parts, p, sep);
      JoinAppend(parts[1..], p, sep);
      Regroup(parts[0], sep, Join(parts[1..], sep), p);
    }
  }

  /** One step of `join` on a list of at least three parts. */
  lemma JoinUnfold(parts: seq<string>, p: string, sep: string)
    requires |parts| > 1
    ensures Join(parts + [p], sep) == parts[0] + sep + Join(parts[1..] + [p], sep)
    ensures Join(parts, sep) == parts[0] + sep + Join(parts[1..], sep)
  {
    assert (parts + [p])[1..] == parts[1..] + [p];
  }

  /** Concatenation regrouped around the separator. */
  lemma Regroup(a: string, sep: string, b: string, p: string)
    ensures a + sep + (b + sep + p) == (a + sep + b) + sep + p
  {
  }
}
