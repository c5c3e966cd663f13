/** String helpers shared by the front end and the back end models: an Option
    type, ASCII case folding, first-occurrence substring search (Python's
    `str.find` / `in`), whitespace trimming for JavaScript `trim()` and Python
    `strip()`, `" ".join` and decimal rendering of naturals. */
module TextUtil {

  datatype Option<T> = None | Some(value: T)

  function Min(a: int, b: int): int { if a <= b then a else b }
  function Max(a: int, b: int): int { if a >= b then a else b }

  // ---------------------------------------------------------------------------
  // Case folding (ASCII only)

  function LowerChar(c: char): char
  {
    if 'A' <= c <= 'Z' then (c as int + 32) as char else c
  }

  predicate IsLowerChar(c: char) { !('A' <= c <= 'Z') }

  /** `s.lower()` / `s.toLowerCase()` restricted to ASCII letters. */
  function Lower(s: string): (r: string)
    ensures |r| == |s|
    ensures forall i :: 0 <= i < |s| ==> r[i] == LowerChar(s[i])
  {
    seq(|s|, i requires 0 <= i < |s| => LowerChar(s[i]))
  }

  predicate IsLower(s: string) { forall i :: 0 <= i < |s| ==> IsLowerChar(s[i]) }

  lemma LowerIsLower(s: string)
    ensures IsLower(Lower(s))
  {
  }

  lemma LowerIdempotent(s: string)
    ensures Lower(Lower(s)) == Lower(s)
  {
    assert forall i :: 0 <= i < |s| ==> LowerChar(LowerChar(s[i])) == LowerChar(s[i]);
  }

  lemma LowerOfLowerIsIdentity(s: string)
    requires IsLower(s)
    ensures Lower(s) == s
  {
  }

  lemma LowerSlice(s: string, a: int, b: int)
    requires 0 <= a <= b <= |s|
    ensures Lower(s)[a..b] == Lower(s[a..b])
  {
  }

  /** Adjacent slices join up. */
  lemma SliceConcat<T>(s: seq<T>, a: int, b: int)
    requires 0 <= a <= b <= |s|
    ensures s[a..b] + s[b..] == s[a..]
  {
  }

  lemma ConsIndex<T>(x: T, xs: seq<T>, k: nat)
    requires k <= |xs|
    ensures ([x] + xs)[k] == if k == 0 then x else xs[k - 1]
  {
  }

  /** A slice of a slice is a slice of the whole. */
  lemma SliceOfSlice<T>(s: seq<T>, a: int, b: int, i: int, j: int)
    requires 0 <= a <= b <= |s| && 0 <= i <= j <= b - a
    ensures s[a..b][i..j] == s[a + i..a + j]
  {
    forall k | 0 <= k < j - i
      ensures s[a..b][i..j][k] == s[a + i..a + j][k]
    {
      assert s[a..b][i..j][k] == s[a..b][i + k] == s[a + i + k];
    }
  }

  // ---------------------------------------------------------------------------
  // Substring search

  predicate OccursAt(s: string, pat: string, i: int)
  {
    0 <= i && i + |pat| <= |s| && s[i..i + |pat|] == pat
  }

  /** First occurrence of `pat` in `s` at or after `from`, or -1. */
  function FindFrom(s: string, pat: string, from: nat): (r: int)
    requires from <= |s|
    ensures r == -1 || (from <= r && OccursAt(s, pat, r))
    ensures forall j :: from <= j && (r == -1 || j < r) ==> !OccursAt(s, pat, j)
    decreases |s| - from
  {
    if from + |pat| > |s| then -1
    else if s[from..from + |pat|] == pat then from
    else if from == |s| then -1
    else FindFrom(s, pat, from + 1)
  }

  /** Python `s.find(pat)`: the lowest index where `pat` occurs, or -1. */
  function Find(s: string, pat: string): (r: int)
    ensures r == -1 || OccursAt(s, pat, r)
    ensures forall j :: 0 <= j && (r == -1 || j < r) ==> !OccursAt(s, pat, j)
  {
    FindFrom(s, pat, 0)
  }

  /** Python `pat in s`. */
  predicate Contains(s: string, pat: string)
  {
    Find(s, pat) >= 0
  }

  lemma ContainsAt(s: string, pat: string, i: int)
    requires OccursAt(s, pat, i)
    ensures Contains(s, pat)
  {
  }

  lemma ContainsWitness(s: string, pat: string) returns (i: nat)
    requires Contains(s, pat)
    ensures OccursAt(s, pat, i)
  {
    i := Find(s, pat);
  }

  lemma ContainsSelf(p: string)
    ensures Contains(p, p)
  {
    assert OccursAt(p, p, 0);
  }

  /** Text added on either side keeps an occurrence. */
  lemma ContainsExtend(a: string, b: string, pat: string)
    ensures Contains(b, pat) ==> Contains(a + b, pat)
    ensures Contains(a, pat) ==> Contains(a + b, pat)
  {
    if Contains(b, pat) {
      var i := Find(b, pat);
      assert (a + b)[|a| + i..|a| + i + |pat|] == b[i..i + |pat|];
      ContainsAt(a + b, pat, |a| + i);
    }
    if Contains(a, pat) {
      var i := Find(a, pat);
      assert (a + b)[i..i + |pat|] == a[i..i + |pat|];
      ContainsAt(a + b, pat, i);
    }
  }

  lemma ConcatAssoc(a: string, b: string, c: string)
    ensures (a + b) + c == a + (b + c)
  {
  }

  /** The concatenation of all parts, left to right. */
  function Concat(parts: seq<string>): string
  {
    if |parts| == 0 then [] else Concat(parts[..|parts| - 1]) + parts[|parts| - 1]
  }

  /** Every part occurs in the concatenation. */
  lemma {:induction false} ConcatContainsPart(parts: seq<string>, k: nat)
    requires k < |parts|
    ensures Contains(Concat(parts), parts[k])
    decreases |parts|
  {
    var init := parts[..|parts| - 1];
    if k == |parts| - 1 {
      ContainsSelf(parts[k]);
      ContainsExtend(Concat(init), parts[k], parts[k]);
    } else {
      ConcatContainsPart(init, k);
      ContainsExtend(Concat(init), parts[|parts| - 1], parts[k]);
    }
  }

  predicate IsPrefix(p: string, s: string) { |p| <= |s| && s[..|p|] == p }

  /** An occurrence in a prefix is an occurrence in the whole string. */
  lemma ContainsViaPrefix(p: string, s: string, pat: string)
    requires IsPrefix(p, s) && Contains(p, pat)
    ensures Contains(s, pat)
  {
    assert s == p + s[|p|..];
    ContainsExtend(p, s[|p|..], pat);
  }
  lemma PrefixTrans(a: string, b: string, c: string)
    requires IsPrefix(a, b) && IsPrefix(b, c)
    ensures IsPrefix(a, c)
  {
    assert c[..|a|] == c[..|b|][..|a|];
  }

  lemma PrefixOfAppend(a: string, b: string)
    ensures IsPrefix(a, a + b)
  {
    assert (a + b)[..|a|] == a;
  }

  predicate IsSuffix(p: string, s: string) { |p| <= |s| && s[|s| - |p|..] == p }

  lemma SuffixOfAppend(a: string, b: string)
    ensures IsSuffix(b, a + b)
  {
    assert (a + b)[|a + b| - |b|..] == b;
  }

  // ---------------------------------------------------------------------------
  // Whitespace

  /** Characters removed by JavaScript's `String.prototype.trim`
      (WhiteSpace and LineTerminator of ECMA-262). */
  predicate IsJsSpace(c: char)
  {
    c == ' ' || ('\t' <= c <= '\r') || c == '\U{A0}' || c == '\U{FEFF}' || c == '\U{1680}'
    || ('\U{2000}' <= c <= '\U{200A}') || c == '\U{2028}' || c == '\U{2029}'
    || c == '\U{202F}' || c == '\U{205F}' || c == '\U{3000}'
  }

  /** Characters removed by Python's `str.strip()` with no argument
      (those for which `str.isspace()` holds). */
  predicate IsPySpace(c: char)
  {
    c == ' ' || ('\t' <= c <= '\r') || ('\U{1C}' <= c <= '\U{1F}') || c == '\U{85}'
    || c == '\U{A0}' || c == '\U{1680}' || ('\U{2000}' <= c <= '\U{200A}')
    || c == '\U{2028}' || c == '\U{2029}' || c == '\U{202F}' || c == '\U{205F}' || c == '\U{3000}'
  }

  function TrimStart(s: string, space: char -> bool): (r: string)
    ensures IsSuffix(r, s)
    ensures r == [] || !space(r[0])
    ensures forall i :: 0 <= i < |s| - |r| ==> space(s[i])
  {
    if |s| > 0 && space(s[0]) then TrimStart(s[1..], space) else s
  }

  function TrimEnd(s: string, space: char -> bool): (r: string)
    ensures IsPrefix(r, s)
    ensures r == [] || !space(r[|r| - 1])
    ensures forall i :: |r| <= i < |s| ==> space(s[i])
  {
    if |s| > 0 && space(s[|s| - 1]) then TrimEnd(s[..|s| - 1], space) else s
  }

  /** Removes leading and trailing `space` characters. */
  function Trim(s: string, space: char -> bool): string
  {
    TrimEnd(TrimStart(s, space), space)
  }

  predicate AllSpace(s: string, space: char -> bool)
  {
    forall i :: 0 <= i < |s| ==> space(s[i])
  }

  lemma {:induction false} TrimEndAllSpace(s: string, space: char -> bool)
    ensures TrimEnd(s, space) == [] <==> AllSpace(s, space)
  {
  }

  /** Trimming the end of a concatenation stops inside `b` unless `b` is blank. */
  lemma {:induction false} TrimEndConcat(a: string, b: string, space: char -> bool)
    ensures !AllSpace(b, space) ==> TrimEnd(a + b, space) == a + TrimEnd(b, space)
    ensures AllSpace(b, space) ==> TrimEnd(a + b, space) == TrimEnd(a, space)
    decreases |b|
  {
    if |b| == 0 {
      assert a + b == a;
    } else if space(b[|b| - 1]) {
      assert (a + b)[..|a + b| - 1] == a + b[..|b| - 1];
      TrimEndConcat(a, b[..|b| - 1], space);
      if !AllSpace(b, space) {
        assert !AllSpace(b[..|b| - 1], space);
      } else {
        assert AllSpace(b[..|b| - 1], space);
      }
    } else {
      assert !AllSpace(b, space);
    }
  }

  lemma TrimStartConcat(a: string, b: string, space: char -> bool)
    requires AllSpace(a, space)
    requires |b| > 0 && !space(b[0])
    ensures TrimStart(a + b, space) == b
    decreases |a|
  {
    if |a| > 0 {
      assert (a + b)[1..] == a[1..] + b;
      TrimStartConcat(a[1..], b, space);
    } else {
      assert a + b == b;
    }
  }

  /** Trimming a string that starts with blanks and then a non-blank `b`
      comes down to trimming the end of `b`. */
  lemma TrimAfterLead(a: string, b: string, space: char -> bool)
    requires AllSpace(a, space)
    requires |b| > 0 && !space(b[0])
    ensures Trim(a + b, space) == TrimEnd(b, space)
  {
    TrimStartConcat(a, b, space);
  }

  lemma TrimEndKeeps(s: string, space: char -> bool)
    requires |s| > 0 && !space(s[|s| - 1])
    ensures TrimEnd(s, space) == s
  {
  }

  /** Trimming blanks, then a body that neither starts nor ends with a blank,
      then a tail: what is left is the body and the tail without its trailing
      blanks (nothing of the tail when it is all blanks). */
  lemma TrimFramed(lead: string, body: string, tail: string, space: char -> bool)
    requires AllSpace(lead, space)
    requires |body| > 0 && !space(body[0]) && !space(body[|body| - 1])
    ensures Trim(lead + (body + tail), space) == body + TrimEnd(tail, space)
  {
    var bt := body + tail;
    assert bt[0] == body[0];
    TrimAfterLead(lead, bt, space);
    TrimEndConcat(body, tail, space);
    if AllSpace(tail, space) {
      TrimEndKeeps(body, space);
      TrimEndAllSpace(tail, space);
      assert TrimEnd(bt, space) == body;
      assert TrimEnd(tail, space) == [] && body + [] == body;
    } else {
      assert TrimEnd(bt, space) == body + TrimEnd(tail, space);
    }
  }

  /** A trimmed string neither starts nor ends with a space. */
  lemma TrimClean(s: string, space: char -> bool)
    ensures var r := Trim(s, space);
      r == [] || (!space(r[0]) && !space(r[|r| - 1]))
  {
    var t := TrimStart(s, space);
    var r := TrimEnd(t, space);
    if r != [] {
      assert r[0] == t[0];
    }
  }

  predicate IsBlank(s: string, space: char -> bool)
  {
    Trim(s, space) == []
  }

  /** A string trims to nothing exactly when every character is a space. */
  lemma {:induction false} BlankIffAllSpace(s: string, space: char -> bool)
    ensures IsBlank(s, space) <==> AllSpace(s, space)
    decreases |s|
  {
    if |s| > 0 && space(s[0]) {
      BlankIffAllSpace(s[1..], space);
      if AllSpace(s[1..], space) {
        assert AllSpace(s, space);
      } else {
        assert !AllSpace(s, space);
      }
    } else if |s| > 0 {
      assert TrimStart(s, space) == s;
      assert !AllSpace(s, space);
    }
  }

  // ---------------------------------------------------------------------------
  // Joining and numbers

  /** Python `sep.join(parts)`. */
  function Join(sep: string, parts: seq<string>): (r: string)
    ensures parts == [] ==> r == []
    ensures |parts| == 1 ==> r == parts[0]
  {
    if |parts| == 0 then []
    else if |parts| == 1 then parts[0]
    else Join(sep, parts[..|parts| - 1]) + sep + parts[|parts| - 1]
  }

  /** Joining builds from the front as well: the first part, the separator,
      then the join of the rest. */
  lemma {:induction false} JoinCons(sep: string, x: string, parts: seq<string>)
    requires parts != []
    ensures Join(sep, [x] + parts) == x + sep + Join(sep, parts)
    decreases |parts|
  {
    var all := [x] + parts;
    if |parts| == 1 {
      assert all[..1] == [x];
    } else {
      var init := parts[..|parts| - 1];
      var last := parts[|parts| - 1];
      assert all[..|all| - 1] == [x] + init && all[|all| - 1] == last;
      JoinCons(sep, x, init);
      calc {
        Join(sep, all);
        Join(sep, [x] + init) + sep + last;
        x + sep + Join(sep, init) + sep + last;
        x + sep + (Join(sep, init) + sep + last);
        x + sep + Join(sep, parts);
      }
    }
  }

  function DigitChar(d: nat): char
    requires d < 10
  {
    "0123456789"[d]
  }

  /** Decimal rendering of a natural number, as `str(n)` / template literals. */
  function NatToString(n: nat): (r: string)
    ensures |r| > 0
    ensures forall i :: 0 <= i < |r| ==> '0' <= r[i] <= '9'
  {
    if n < 10 then [DigitChar(n)] else NatToString(n / 10) + [DigitChar(n % 10)]
  }
}
