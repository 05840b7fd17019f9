/**
 * Locating the JSON object in the model's reply. Two regular expressions are
 * tried in turn: a fenced code block, optionally tagged `json`, whose body is
 * an object matched lazily; failing that, the span from the first `{` to the
 * last `}`. Both are written here as scans over the text, each beside a
 * declarative statement of what the expression matches, and proved to find
 * the match the JavaScript engine reports.
 */
module Extraction {
  import opened Results
  import opened JsValues

  const Fence: string := "```"
  const JsonTag: string := "json"

  /** `w` occurs in `c` at position `i`. */
  predicate OccursAt(c: string, w: string, i: nat) {
    i + |w| <= |c| && c[i..i + |w|] == w
  }

  /** Every character of `c[i..j]` is in the `\s` class. */
  predicate AllSpaces(c: string, i: nat, j: nat)
    requires i <= j <= |c|
  {
    forall k :: i <= k < j ==> IsSpace(c[k])
  }

  /** `\s*` run greedily from `i`: the first position at or after `i` that is not a space. */
  function SkipSpaces(c: string, i: nat): (j: nat)
    requires i <= |c|
    ensures i <= j <= |c| && AllSpaces(c, i, j)
    ensures j < |c| ==> !IsSpace(c[j])
    decreases |c| - i
  {
    if i < |c| && IsSpace(c[i]) then SkipSpaces(c, i + 1) else i
  }

  /** The only run of spaces from `i` that ends before a character that is not a space is the greedy one. */
  lemma {:induction false} SkipSpacesUnique(c: string, i: nat, t: nat)
    requires i <= t < |c| && AllSpaces(c, i, t) && !IsSpace(c[t])
    ensures SkipSpaces(c, i) == t
    decreases t - i
  {
    if i < t {
      assert IsSpace(c[i]);
      SkipSpacesUnique(c, i + 1, t);
    }
  }

  // ----- The fenced block: /```(?:json)?\s*(\{[\s\S]*?\})\s*```/ -----

  /**
   * The fenced expression matches at `p` with its group spanning `c[r..e+1]`:
   * a fence at `p`, optionally `json`, spaces up to a `{` at `r`, anything,
   * a `}` at `e`, then spaces and a fence.
   */
  ghost predicate FencedMatch(c: string, p: nat, r: nat, e: nat) {
    && r < e < |c|
    && OccursAt(c, Fence, p)
    && ((p + 3 <= r && AllSpaces(c, p + 3, r))
        || (OccursAt(c, JsonTag, p + 3) && p + 7 <= r && AllSpaces(c, p + 7, r)))
    && c[r] == '{'
    && c[e] == '}'
    && exists t :: e + 1 <= t <= |c| && AllSpaces(c, e + 1, t) && OccursAt(c, Fence, t)
  }

  /** Where `\{` is tried once the fence at `p` and `(?:json)?\s*` have been matched; `json` is taken when present. */
  function OpeningEnd(c: string, p: nat): nat
    requires OccursAt(c, Fence, p)
  {
    SkipSpaces(c, if OccursAt(c, JsonTag, p + 3) then p + 7 else p + 3)
  }

  /** A `}` at `e` followed by `\s*` and a fence: the lazy body may stop here. */
  predicate ClosesAt(c: string, e: nat) {
    e < |c| && c[e] == '}' && OccursAt(c, Fence, SkipSpaces(c, e + 1))
  }

  /** The lazy `[\s\S]*?\}\s*```` from `from` on: the first position that closes the block. */
  function LazyClose(c: string, from: nat): (e: Option<nat>)
    requires from <= |c|
    ensures e.Some? ==> from <= e.value && ClosesAt(c, e.value)
    ensures e.Some? ==> forall k :: from <= k < e.value ==> !ClosesAt(c, k)
    ensures e.None? ==> forall k :: from <= k < |c| ==> !ClosesAt(c, k)
    decreases |c| - from
  {
    if from == |c| then None
    else if ClosesAt(c, from) then Some(from)
    else LazyClose(c, from + 1)
  }

  /** A fenced match: the fence, and the bounds of the group. */
  datatype FencedSpan = FencedSpan(fence: nat, open: nat, close: nat)

  /** The match the engine finds when it tries the fenced expression at `p`. */
  function FencedAt(c: string, p: nat): (m: Option<FencedSpan>)
    ensures m.Some? ==> m.value.fence == p && m.value.open < m.value.close < |c|
    ensures m.Some? ==> c[m.value.open] == '{' && c[m.value.close] == '}'
  {
    if !OccursAt(c, Fence, p) then None
    else
      var r := OpeningEnd(c, p);
      if r < |c| && c[r] == '{' then
        match LazyClose(c, r + 1)
        case Some(e) => Some(FencedSpan(p, r, e))
        case None => None
      else None
  }

  /** The engine's search: the fenced expression tried at `p`, `p + 1`, ... until it matches. */
  function FindFenced(c: string, p: nat): (m: Option<FencedSpan>)
    requires p <= |c|
    ensures m.Some? ==> p <= m.value.fence && m.value.open < m.value.close < |c|
    ensures m.Some? ==> c[m.value.open] == '{' && c[m.value.close] == '}'
    decreases |c| - p
  {
    match FencedAt(c, p)
    case Some(m) => Some(m)
    case None => if p == |c| then None else FindFenced(c, p + 1)
  }

  /** The trailing `\s*```` can follow `e` exactly when it follows the greedy run of spaces after `e`. */
  lemma TrailingFence(c: string, e: nat)
    requires e < |c|
    ensures (exists t :: e + 1 <= t <= |c| && AllSpaces(c, e + 1, t) && OccursAt(c, Fence, t))
            <==> OccursAt(c, Fence, SkipSpaces(c, e + 1))
  {
    var j := SkipSpaces(c, e + 1);
    if exists t :: e + 1 <= t <= |c| && AllSpaces(c, e + 1, t) && OccursAt(c, Fence, t) {
      var t :| e + 1 <= t <= |c| && AllSpaces(c, e + 1, t) && OccursAt(c, Fence, t);
      assert c[t] == Fence[0];
      SkipSpacesUnique(c, e + 1, t);
    }
  }

  /** The `(?:json)?\s*` part can reach a `{` at `r` only along the path the engine takes. */
  lemma OpeningDetermined(c: string, p: nat, r: nat)
    requires OccursAt(c, Fence, p) && r < |c| && c[r] == '{'
    ensures ((p + 3 <= r && AllSpaces(c, p + 3, r))
             || (OccursAt(c, JsonTag, p + 3) && p + 7 <= r && AllSpaces(c, p + 7, r)))
            <==> r == OpeningEnd(c, p)
  {
    var q := if OccursAt(c, JsonTag, p + 3) then p + 7 else p + 3;
    if r == OpeningEnd(c, p) {
      assert q <= r && AllSpaces(c, q, r);
    }
    if OccursAt(c, JsonTag, p + 3) {
      assert c[p + 3] == JsonTag[0];
    } else if p + 3 <= r && AllSpaces(c, p + 3, r) {
      SkipSpacesUnique(c, p + 3, r);
    }
    if OccursAt(c, JsonTag, p + 3) && p + 7 <= r && AllSpaces(c, p + 7, r) {
      SkipSpacesUnique(c, p + 7, r);
    }
  }

  /** The fenced expression does not match at `q`. */
  ghost predicate NoFencedMatchAt(c: string, q: nat) {
    forall r: nat, e: nat :: !FencedMatch(c, q, r, e)
  }

  /** `m` is a match, and of all matches at its position it has the one possible opening and the least close. */
  ghost predicate LeastFencedMatch(c: string, m: FencedSpan) {
    && FencedMatch(c, m.fence, m.open, m.close)
    && forall r: nat, e: nat :: FencedMatch(c, m.fence, r, e) ==> r == m.open && m.close <= e
  }

  /** At a fixed position the engine finds the least match there, and nothing only when there is none: the body is lazy. */
  lemma FencedAtSpec(c: string, p: nat)
    ensures FencedAt(c, p).Some? ==> LeastFencedMatch(c, FencedAt(c, p).value)
    ensures FencedAt(c, p).None? <==> NoFencedMatchAt(c, p)
  {
    if FencedAt(c, p).Some? {
      var m := FencedAt(c, p).value;
      OpeningDetermined(c, p, m.open);
      TrailingFence(c, m.close);
      assert FencedMatch(c, p, m.open, m.close);
    }
    forall r: nat, e: nat | FencedMatch(c, p, r, e)
      ensures FencedAt(c, p).Some? && FencedAt(c, p).value.open == r && FencedAt(c, p).value.close <= e
    {
      OpeningDetermined(c, p, r);
      TrailingFence(c, e);
      assert ClosesAt(c, e);
    }
  }

  /**
   * The search from `p` stops at the first position at or after `p` where
   * the engine's attempt succeeds, and finds nothing exactly when every
   * attempt from `p` on fails.
   */
  lemma {:induction false} FindFencedSearch(c: string, p: nat)
    requires p <= |c|
    ensures FindFenced(c, p).Some? ==>
      && FencedAt(c, FindFenced(c, p).value.fence) == FindFenced(c, p)
      && forall q: nat :: p <= q < FindFenced(c, p).value.fence ==> FencedAt(c, q).None?
    ensures FindFenced(c, p).None? <==> forall q: nat :: p <= q ==> FencedAt(c, q).None?
    decreases |c| - p
  {
    if FencedAt(c, p).Some? {
      assert FindFenced(c, p) == FencedAt(c, p);
    } else if p == |c| {
      SearchAtEnd(c);
    } else {
      FindFencedSearch(c, p + 1);
      SearchStep(c, p);
    }
  }

  /** Past the last position no fence fits, so the search there finds nothing. */
  lemma SearchAtEnd(c: string)
    ensures FindFenced(c, |c|).None?
    ensures forall q: nat :: |c| <= q ==> FencedAt(c, q).None?
  {
    forall q: nat | |c| <= q ensures FencedAt(c, q).None? {
      assert !OccursAt(c, Fence, q);
    }
  }

  /** A failed attempt at `p` passes the search on to `p + 1` and adds nothing to what it finds. */
  lemma SearchStep(c: string, p: nat)
    requires p < |c| && FencedAt(c, p).None?
    requires FindFenced(c, p + 1).Some? ==>
      && FencedAt(c, FindFenced(c, p + 1).value.fence) == FindFenced(c, p + 1)
      && forall q: nat :: p + 1 <= q < FindFenced(c, p + 1).value.fence ==> FencedAt(c, q).None?
    requires FindFenced(c, p + 1).None? <==> forall q: nat :: p + 1 <= q ==> FencedAt(c, q).None?
    ensures FindFenced(c, p).Some? ==>
      && FencedAt(c, FindFenced(c, p).value.fence) == FindFenced(c, p)
      && forall q: nat :: p <= q < FindFenced(c, p).value.fence ==> FencedAt(c, q).None?
    ensures FindFenced(c, p).None? <==> forall q: nat :: p <= q ==> FencedAt(c, q).None?
  {
    assert FindFenced(c, p) == FindFenced(c, p + 1);
  }

  /**
   * The search over the whole reply finds the leftmost position where the
   * expression matches, with the least match there; it finds nothing
   * exactly when the expression matches nowhere.
   */
  lemma FindFencedSpec(c: string)
    ensures FindFenced(c, 0).Some? ==>
      && LeastFencedMatch(c, FindFenced(c, 0).value)
      && forall q: nat :: q < FindFenced(c, 0).value.fence ==> NoFencedMatchAt(c, q)
    ensures FindFenced(c, 0).None? <==> forall q: nat :: NoFencedMatchAt(c, q)
  {
    FindFencedSearch(c, 0);
    forall q: nat ensures FencedAt(c, q).None? <==> NoFencedMatchAt(c, q) {
      FencedAtSpec(c, q);
    }
    if FindFenced(c, 0).Some? {
      FencedAtSpec(c, FindFenced(c, 0).value.fence);
    }
  }

  // ----- The bare object: /(\{[\s\S]*\})/ -----

  /** The bare expression matches with its group spanning `c[p..e+1]`. */
  predicate BraceMatch(c: string, p: nat, e: nat) {
    p < e < |c| && c[p] == '{' && c[e] == '}'
  }

  /** `c.indexOf(x, from)`, or `None` for -1. */
  function IndexFrom(c: string, x: char, from: nat): (k: Option<nat>)
    requires from <= |c|
    ensures k.Some? ==> from <= k.value < |c| && c[k.value] == x
    ensures k.Some? ==> forall j :: from <= j < k.value ==> c[j] != x
    ensures k.None? ==> forall j :: from <= j < |c| ==> c[j] != x
    decreases |c| - from
  {
    if from == |c| then None
    else if c[from] == x then Some(from)
    else IndexFrom(c, x, from + 1)
  }

  /** The last position before `upto` holding `x`, or `None` if there is none. */
  function LastIndexBefore(c: string, x: char, upto: nat): (k: Option<nat>)
    requires upto <= |c|
    ensures k.Some? ==> k.value < upto && c[k.value] == x
    ensures k.Some? ==> forall j :: k.value < j < upto ==> c[j] != x
    ensures k.None? ==> forall j :: 0 <= j < upto ==> c[j] != x
  {
    if upto == 0 then None
    else if c[upto - 1] == x then Some(upto - 1)
    else LastIndexBefore(c, x, upto - 1)
  }

  /**
   * The engine's match of the bare expression: tried from the left it can
   * only start at the first `{`, and the greedy body runs to the last `}`;
   * when that `}` is not after the first `{` no later start can match either.
   */
  function FindBraces(c: string): (m: Option<(nat, nat)>)
    ensures m.Some? ==> BraceMatch(c, m.value.0, m.value.1)
  {
    match IndexFrom(c, '{', 0)
    case None => None
    case Some(p) =>
      match LastIndexBefore(c, '}', |c|)
      case None => None
      case Some(e) => if p < e then Some((p, e)) else None
  }

  /** The bare search finds the leftmost start and, from there, the longest match; nothing exactly when there is no match. */
  lemma FindBracesSpec(c: string)
    ensures FindBraces(c).Some? ==>
      var (p, e) := FindBraces(c).value;
      forall q: nat, f: nat :: BraceMatch(c, q, f) ==> p <= q && f <= e
    ensures FindBraces(c).None? <==> forall q: nat, f: nat :: !BraceMatch(c, q, f)
  {
    var first := IndexFrom(c, '{', 0);
    var last := LastIndexBefore(c, '}', |c|);
    forall q: nat, f: nat | BraceMatch(c, q, f)
      ensures FindBraces(c).Some? && FindBraces(c).value.0 <= q && f <= FindBraces(c).value.1
    {
      assert first.Some? && first.value <= q;
      assert last.Some? && f <= last.value;
    }
  }

  // ----- Both together -----

  /**
   * The text handed to `JSON.parse`: the group of the fenced match when
   * there is one, otherwise the group of the bare match. `jsonMatch[1] ||
   * jsonMatch[0]` always takes the group, which is never empty.
   */
  function ExtractJson(c: string): (r: Option<string>)
    ensures r.Some? ==> |r.value| >= 2 && r.value[0] == '{' && r.value[|r.value| - 1] == '}'
  {
    match FindFenced(c, 0)
    case Some(m) => Some(c[m.open..m.close + 1])
    case None =>
      match FindBraces(c)
      case Some((p, e)) => Some(c[p..e + 1])
      case None => None
  }

  /**
   * A fenced block wins: when the leftmost fenced match is at `p` with its
   * least close `e`, the extracted text is that block's object, whatever
   * else the reply holds.
   */
  lemma FencedBlockWins(c: string, p: nat, r: nat, e: nat)
    requires FencedMatch(c, p, r, e)
    requires forall q: nat :: q < p ==> NoFencedMatchAt(c, q)
    requires forall e': nat :: e' < e ==> !FencedMatch(c, p, r, e')
    ensures ExtractJson(c) == Some(c[r..e + 1])
  {
    NoAttemptBefore(c, p);
    LeastMatchAttempted(c, p, r, e);
    LeftmostAttemptFound(c, p);
    FencedExtracted(c, FencedSpan(p, r, e));
  }

  /** Once the search finds a fenced block, its group is the extracted text. */
  lemma FencedExtracted(c: string, m: FencedSpan)
    requires FindFenced(c, 0) == Some(m)
    ensures ExtractJson(c) == Some(c[m.open..m.close + 1])
  {
  }

  /** The engine's attempt at `p` finds the least match there. */
  lemma LeastMatchAttempted(c: string, p: nat, r: nat, e: nat)
    requires FencedMatch(c, p, r, e)
    requires forall e': nat :: e' < e ==> !FencedMatch(c, p, r, e')
    ensures FencedAt(c, p) == Some(FencedSpan(p, r, e))
  {
    FencedAtSpec(c, p);
    var m := FencedAt(c, p).value;
    assert FencedMatch(c, p, r, m.close);
  }

  /** Where the expression cannot match, the engine's attempt fails. */
  lemma NoAttemptBefore(c: string, p: nat)
    requires forall q: nat :: q < p ==> NoFencedMatchAt(c, q)
    ensures forall q: nat :: q < p ==> FencedAt(c, q).None?
  {
    forall q: nat | q < p ensures FencedAt(c, q).None? {
      FencedAtSpec(c, q);
    }
  }

  /** When the attempt at `p` is the first to succeed, the search finds its match. */
  lemma LeftmostAttemptFound(c: string, p: nat)
    requires FencedAt(c, p).Some?
    requires forall q: nat :: q < p ==> FencedAt(c, q).None?
    ensures FindFenced(c, 0) == FencedAt(c, p)
  {
    FindFencedSearch(c, 0);
    assert FindFenced(c, 0).Some?;
    var f := FindFenced(c, 0).value.fence;
    assert f == p;
  }

  /** With no fenced block anywhere, the extracted text runs from the first `{` to the last `}`. */
  lemma BareObjectFallback(c: string, p: nat, e: nat)
    requires forall q: nat :: NoFencedMatchAt(c, q)
    requires BraceMatch(c, p, e)
    requires forall j :: 0 <= j < p ==> c[j] != '{'
    requires forall j :: e < j < |c| ==> c[j] != '}'
    ensures ExtractJson(c) == Some(c[p..e + 1])
  {
    FindFencedSpec(c);
    FindBracesSpec(c);
    var (p', e') := FindBraces(c).value;
    assert p' == p && e' == e;
  }

  /** No JSON is found exactly when no `{` comes before a `}`. */
  lemma NoJsonFound(c: string)
    ensures ExtractJson(c).None? <==> forall p: nat, e: nat :: !BraceMatch(c, p, e)
  {
    FindBracesSpec(c);
    if FindFenced(c, 0).Some? {
      var m := FindFenced(c, 0).value;
      assert BraceMatch(c, m.open, m.close);
    }
  }

  /**
   * An object with no backquote in it is extracted whole whether the reply
   * is the object alone or the object in a `json` fenced block.
   */
  lemma FencedAndBareAgree(j: string)
    requires |j| >= 2 && j[0] == '{' && j[|j| - 1] == '}'
    requires forall k :: 0 <= k < |j| ==> j[k] != '`'
    ensures ExtractJson(Fence + JsonTag + "\n" + j + "\n" + Fence) == Some(j)
    ensures ExtractJson(j) == Some(j)
  {
    BareObjectAlone(j);
    FencedObjectFound(j);
  }

  lemma BareObjectAlone(j: string)
    requires |j| >= 2 && j[0] == '{' && j[|j| - 1] == '}'
    requires forall k :: 0 <= k < |j| ==> j[k] != '`'
    ensures ExtractJson(j) == Some(j)
  {
    forall q: nat ensures NoFencedMatchAt(j, q) {
      NoFenceWithoutBackquote(j, q);
    }
    BareObjectFallback(j, 0, |j| - 1);
    assert j[0..|j|] == j;
  }

  /** A fence cannot start at a character other than a backquote. */
  lemma NoFenceWithoutBackquote(c: string, q: nat)
    requires q < |c| ==> c[q] != '`'
    ensures !OccursAt(c, Fence, q)
  {
    if q + 3 <= |c| {
      assert c[q..q + 3][0] == c[q];
    }
  }

  /** A run of spaces from `i` stops at or before any character that is not a space. */
  lemma {:induction false} SkipSpacesStops(c: string, i: nat, t: nat)
    requires i <= t < |c| && !IsSpace(c[t])
    ensures SkipSpaces(c, i) <= t
    decreases t - i
  {
    if i < t && IsSpace(c[i]) {
      SkipSpacesStops(c, i + 1, t);
    }
  }

  lemma FencedObjectFound(j: string)
    requires |j| >= 2 && j[0] == '{' && j[|j| - 1] == '}'
    requires forall k :: 0 <= k < |j| ==> j[k] != '`'
    ensures ExtractJson(Fence + JsonTag + "\n" + j + "\n" + Fence) == Some(j)
  {
    var c := Fence + JsonTag + "\n" + j + "\n" + Fence;
    var e := 8 + |j| - 1;
    BlockLayout(j);
    BlockOpening(j);
    BlockClose(j);
    assert FencedAt(c, 0) == Some(FencedSpan(0, 8, e));
    FencedExtracted(c, FencedSpan(0, 8, e));
  }

  /** Where the parts of a `json` fenced block lie. */
  lemma BlockLayout(j: string)
    requires |j| >= 2
    ensures var c := Fence + JsonTag + "\n" + j + "\n" + Fence;
      && |c| == |j| + 12
      && c[8..8 + |j|] == j
      && (forall k :: 8 <= k < 8 + |j| ==> c[k] == j[k - 8])
      && OccursAt(c, Fence, 0) && OccursAt(c, JsonTag, 3) && c[7] == '\n'
      && c[8 + |j|] == '\n' && c[8 + |j| + 1..8 + |j| + 4] == Fence
  {
  }

  /** The opening of a `json` fenced block ends at the object's first character. */
  lemma BlockOpening(j: string)
    requires |j| >= 2 && j[0] == '{'
    ensures var c := Fence + JsonTag + "\n" + j + "\n" + Fence;
      OccursAt(c, Fence, 0) && OpeningEnd(c, 0) == 8
  {
    var c := Fence + JsonTag + "\n" + j + "\n" + Fence;
    BlockLayout(j);
    SkipSpacesUnique(c, 7, 8);
  }

  /** The lazy body of a `json` fenced block stops at the object's last character. */
  lemma BlockClose(j: string)
    requires |j| >= 2 && j[|j| - 1] == '}'
    requires forall k :: 0 <= k < |j| ==> j[k] != '`'
    ensures LazyClose(Fence + JsonTag + "\n" + j + "\n" + Fence, 9) == Some(8 + |j| - 1)
  {
    var c := Fence + JsonTag + "\n" + j + "\n" + Fence;
    var e := 8 + |j| - 1;
    BlockLayout(j);
    SkipSpacesUnique(c, e + 1, e + 2);
    assert ClosesAt(c, e);
    forall k | 9 <= k < e ensures !ClosesAt(c, k) {
      SkipSpacesStops(c, k + 1, e);
      NoFenceWithoutBackquote(c, SkipSpaces(c, k + 1));
    }
  }
}
