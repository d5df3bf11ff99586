/**
  The three functions of Go's `strings` package that the chatbot's reply
  classifier uses: `TrimSpace`, `Contains` (through `Index`) and `TrimPrefix`.

  Strings are sequences of Unicode code points; Go's byte-level UTF-8
  representation is not modelled.
 */
module GoStrings {

  type String = seq<char>

  /** White space as Go's `unicode.IsSpace` defines it: the six ASCII
      spacing characters, NEL and NO-BREAK SPACE, and the other Unicode
      `White_Space` code points (OGHAM SPACE MARK, U+2000 to U+200A, the line
      and paragraph separators, NARROW NO-BREAK SPACE, MEDIUM MATHEMATICAL
      SPACE and IDEOGRAPHIC SPACE). */
  predicate IsSpace(c: char) {
    || c == '\t' || c == '\n' || c == '\U{B}' || c == '\U{C}' || c == '\r' || c == ' '
    || c == '\U{85}' || c == '\U{A0}' || c == '\U{1680}'
    || ('\U{2000}' <= c <= '\U{200A}')
    || c == '\U{2028}' || c == '\U{2029}' || c == '\U{202F}' || c == '\U{205F}' || c == '\U{3000}'
  }

  /** Every character of `s` satisfies `f`. */
  predicate All(s: String, f: char -> bool) {
    forall i :: 0 <= i < |s| ==> f(s[i])
  }

  // ---------------------------------------------------------------------
  // TrimLeftFunc, TrimRightFunc, TrimFunc, TrimSpace

  /** The number of leading characters of `s` that satisfy `f`: the index of
      the first one that does not, or `|s|`. */
  function LeftSpan(s: String, f: char -> bool): (n: nat)
    ensures n <= |s|
    ensures forall i :: 0 <= i < n ==> f(s[i])
    ensures n < |s| ==> !f(s[n])
  {
    if s == [] || !f(s[0]) then 0 else 1 + LeftSpan(s[1..], f)
  }

  /** One past the last character of `s` that does not satisfy `f`, or 0. */
  function RightEnd(s: String, f: char -> bool): (n: nat)
    ensures n <= |s|
    ensures forall i :: n <= i < |s| ==> f(s[i])
    ensures n > 0 ==> !f(s[n - 1])
  {
    if s == [] || !f(s[|s| - 1]) then |s| else RightEnd(s[..|s| - 1], f)
  }

  /** Go's `strings.TrimLeftFunc`: `s` without its longest prefix of
      characters satisfying `f`. */
  function TrimLeftFunc(s: String, f: char -> bool): (r: String)
    ensures |r| <= |s| && r == s[|s| - |r|..]
    ensures forall i :: 0 <= i < |s| - |r| ==> f(s[i])
    ensures r != [] ==> !f(r[0])
  {
    s[LeftSpan(s, f)..]
  }

  /** Go's `strings.TrimRightFunc`: `s` without its longest suffix of
      characters satisfying `f`. */
  function TrimRightFunc(s: String, f: char -> bool): (r: String)
    ensures |r| <= |s| && r == s[..|r|]
    ensures forall i :: |r| <= i < |s| ==> f(s[i])
    ensures r != [] ==> !f(r[|r| - 1])
  {
    s[..RightEnd(s, f)]
  }

  /** `r` is the slice `s[lo..lo + |r|]` and every character of `s` around
      it satisfies `f`. */
  predicate SliceAmid(s: String, r: String, lo: nat, f: char -> bool) {
    && lo + |r| <= |s| && r == s[lo..lo + |r|]
    && (forall i :: 0 <= i < lo ==> f(s[i]))
    && (forall i :: lo + |r| <= i < |s| ==> f(s[i]))
  }

  /** Go's `strings.TrimFunc`, the right trim of the left trim. The result is
      a slice of `s` with only characters satisfying `f` around it, and it
      neither starts nor ends with a character satisfying `f`. */
  function TrimFunc(s: String, f: char -> bool): (r: String)
    ensures exists lo: nat :: SliceAmid(s, r, lo, f)
    ensures r != [] ==> !f(r[0]) && !f(r[|r| - 1])
  {
    var lo := LeftSpan(s, f);
    var l := s[lo..];
    var n := RightEnd(l, f);
    assert forall i :: lo + n <= i < |s| ==> l[i - lo] == s[i];
    assert SliceAmid(s, l[..n], lo, f);
    l[..n]
  }

  /** `TrimFunc` is Go's composition: the right trim of the left trim. */
  lemma TrimFuncIsRightOfLeft(s: String, f: char -> bool)
    ensures TrimFunc(s, f) == TrimRightFunc(TrimLeftFunc(s, f), f)
  {
  }

  /** Go's `strings.TrimSpace`: `s` with its leading and trailing white space
      removed. */
  function TrimSpace(s: String): String {
    TrimFunc(s, IsSpace)
  }

  /** The contract of `TrimFunc` determines its result: a slice that has only
      characters satisfying `f` around it and neither starts nor ends with
      one is the trim of `s`. */
  lemma TrimFuncUnique(s: String, r: String, lo: nat, f: char -> bool)
    requires SliceAmid(s, r, lo, f)
    requires r != [] ==> !f(r[0]) && !f(r[|r| - 1])
    ensures TrimFunc(s, f) == r
  {
    if r == [] {
      assert LeftSpan(s, f) == |s|;
    } else {
      assert s[lo] == r[0];
      assert LeftSpan(s, f) == lo;
      var l := s[lo..];
      assert forall i :: |r| <= i < |l| ==> l[i] == s[lo + i];
      assert l[|r| - 1] == r[|r| - 1];
      assert RightEnd(l, f) == |r|;
    }
  }

  /** A string made only of characters satisfying `f` trims to nothing. */
  lemma TrimFuncOfAll(s: String, f: char -> bool)
    requires All(s, f)
    ensures TrimFunc(s, f) == []
  {
    TrimFuncUnique(s, [], 0, f);
  }

  /** A string that neither starts nor ends with a character satisfying `f`
      is its own trim. */
  lemma TrimFuncOfTrimmed(s: String, f: char -> bool)
    requires s != [] ==> !f(s[0]) && !f(s[|s| - 1])
    ensures TrimFunc(s, f) == s
  {
    assert s[0..|s|] == s;
    TrimFuncUnique(s, s, 0, f);
  }

  /** Trimming twice is trimming once. */
  lemma TrimSpaceIdempotent(s: String)
    ensures TrimSpace(TrimSpace(s)) == TrimSpace(s)
  {
    TrimFuncOfTrimmed(TrimSpace(s), IsSpace);
  }

  /** A slice amid characters satisfying `f` stays so when more of them are
      added on both sides. */
  lemma SliceAmidPadded(left: String, s: String, right: String, r: String, lo: nat, f: char -> bool)
    requires All(left, f) && All(right, f) && SliceAmid(s, r, lo, f)
    ensures SliceAmid(left + s + right, r, |left| + lo, f)
  {
    var all := left + s + right;
    var lo', hi' := |left| + lo, |left| + lo + |r|;
    forall i | 0 <= i < |all| ensures all[i] == if i < |left| then left[i] else if i < |left| + |s| then s[i - |left|] else right[i - |left| - |s|] {
    }
    assert forall i :: 0 <= i < |r| ==> all[lo' + i] == r[i];
    assert all[lo'..hi'] == r;
  }

  /** Trimming only removes characters: every character of the trim occurs
      in the original. */
  lemma TrimSpaceChars(s: String, c: char)
    requires c in TrimSpace(s)
    ensures c in s
  {
    var r := TrimSpace(s);
    var lo: nat :| SliceAmid(s, r, lo, IsSpace);
    var j :| 0 <= j < |r| && r[j] == c;
    assert s[lo + j] == c;
  }

  /** Characters satisfying `f` added around a string do not change its trim. */
  lemma TrimFuncOfPadded(left: String, s: String, right: String, f: char -> bool)
    requires All(left, f) && All(right, f)
    ensures TrimFunc(left + s + right, f) == TrimFunc(s, f)
  {
    var t := TrimFunc(s, f);
    var lo: nat :| SliceAmid(s, t, lo, f);
    SliceAmidPadded(left, s, right, t, lo, f);
    TrimFuncUnique(left + s + right, t, |left| + lo, f);
  }

  /** White space added around a string does not change its trim. */
  lemma TrimSpaceOfPadded(left: String, s: String, right: String)
    requires All(left, IsSpace) && All(right, IsSpace)
    ensures TrimSpace(left + s + right) == TrimSpace(s)
  {
    TrimFuncOfPadded(left, s, right, IsSpace);
  }

  /** A string that is its own trim, followed by white space, trims back to
      itself. */
  lemma TrimSpaceOfTrailing(s: String, right: String)
    requires s != [] ==> !IsSpace(s[0]) && !IsSpace(s[|s| - 1])
    requires All(right, IsSpace)
    ensures TrimSpace(s + right) == s
  {
    assert s + right == [] + s + right;
    TrimSpaceOfPadded([], s, right);
    TrimFuncOfTrimmed(s, IsSpace);
  }

  // ---------------------------------------------------------------------
  // Index and Contains

  /** `t` occurs in `s` at position `i`. */
  predicate OccursAt(s: String, t: String, i: nat) {
    i + |t| <= |s| && s[i..i + |t|] == t
  }

  /** Go's `strings.Index`: the position of the first occurrence of `t` in
      `s`, or -1 when there is none. */
  function Index(s: String, t: String): (r: int)
    ensures -1 <= r <= |s|
    ensures r >= 0 ==> OccursAt(s, t, r)
    ensures forall i: nat :: (r < 0 || i < r) ==> !OccursAt(s, t, i)
    decreases |s|
  {
    if t <= s then 0
    else if s == [] then -1
    else
      var k := Index(s[1..], t);
      assert forall i: nat :: OccursAt(s, t, i + 1) ==> OccursAt(s[1..], t, i) by {
        forall i: nat | OccursAt(s, t, i + 1) ensures OccursAt(s[1..], t, i) {
          assert s[1..][i..i + |t|] == s[i + 1..i + 1 + |t|];
        }
      }
      if k < 0 then
        assert forall i: nat :: !OccursAt(s, t, i) by {
          forall i: nat ensures !OccursAt(s, t, i) {
            if i == 0 { assert OccursAt(s, t, 0) ==> t <= s; }
            else { assert !OccursAt(s[1..], t, i - 1); }
          }
        }
        -1
      else
        assert s[1..][k..k + |t|] == s[k + 1..k + 1 + |t|];
        assert forall i: nat :: i < k + 1 ==> !OccursAt(s, t, i) by {
          forall i: nat | i < k + 1 ensures !OccursAt(s, t, i) {
            if i > 0 { assert !OccursAt(s[1..], t, i - 1); }
          }
        }
        k + 1
  }

  /** Go's `strings.Contains`, which is `Index(s, t) >= 0`: `t` occurs
      somewhere in `s`. */
  predicate Contains(s: String, t: String)
    ensures Contains(s, t) <==> exists i: nat :: OccursAt(s, t, i)
  {
    Index(s, t) >= 0
  }

  lemma ContainsAt(s: String, t: String, i: nat)
    requires OccursAt(s, t, i)
    ensures Contains(s, t)
  {
  }

  /** `t` is contained in any string made of something, `t`, and something. */
  lemma ContainsInMiddle(a: String, t: String, b: String)
    ensures Contains(a + t + b, t)
  {
    assert (a + t + b)[|a|..|a| + |t|] == t;
    ContainsAt(a + t + b, t, |a|);
  }

  /** Every prefix of `s` is contained in it. */
  lemma PrefixContained(s: String, t: String)
    requires t <= s
    ensures Contains(s, t)
  {
    ContainsAt(s, t, 0);
  }

  /** Containment is transitive: an occurrence of `u` inside an occurrence of
      `t` in `s` is an occurrence of `u` in `s`. */
  lemma ContainsTransitive(s: String, t: String, u: String)
    requires Contains(s, t) && Contains(t, u)
    ensures Contains(s, u)
  {
    var i: nat :| OccursAt(s, t, i);
    var j: nat :| OccursAt(t, u, j);
    forall k | 0 <= k < |u| ensures s[i + j + k] == u[k] {
      assert s[i..i + |t|][j + k] == t[j + k];
    }
    assert s[i + j..i + j + |u|] == u;
    ContainsAt(s, u, i + j);
  }

  /** A string whose first character does not occur in `s` is not contained
      in `s`. */
  lemma FirstCharAbsent(s: String, t: String)
    requires t != [] && t[0] !in s
    ensures !Contains(s, t)
  {
  }

  // ---------------------------------------------------------------------
  // TrimPrefix

  /** Go's `strings.TrimPrefix`: `s` without the leading `p` when `s` starts
      with `p`, and `s` unchanged otherwise. */
  function TrimPrefix(s: String, p: String): (r: String)
    ensures p <= s ==> p + r == s
    ensures !(p <= s) ==> r == s
  {
    if p <= s then s[|p|..] else s
  }

  /** Stripping a prefix that was put in front gives back the rest. */
  lemma TrimPrefixOfConcat(p: String, x: String)
    ensures TrimPrefix(p + x, p) == x
  {
    assert p <= p + x;
  }
}
