/**
 * The two Python string methods the bot relies on: `str.strip()` with no
 * argument and `str.replace(old, '')`, over `string` (a sequence of Unicode
 * scalar values).
 */
module Text {

  /** Python's `str.isspace` for one character: the characters `strip()` removes. */
  predicate IsSpace(c: char)
  {
    ('\t' <= c <= '\r') || ('\U{1C}' <= c <= ' ') || c == '\U{85}' || c == '\U{A0}'
    || c == '\U{1680}' || ('\U{2000}' <= c <= '\U{200A}') || c == '\U{2028}' || c == '\U{2029}'
    || c == '\U{202F}' || c == '\U{205F}' || c == '\U{3000}'
  }

  predicate AllSpace(s: string)
  {
    forall k :: 0 <= k < |s| ==> IsSpace(s[k])
  }

  /** Neither end of `s` is whitespace (vacuously so for the empty string). */
  predicate Trimmed(s: string)
  {
    s == [] || (!IsSpace(s[0]) && !IsSpace(s[|s| - 1]))
  }

  /** The first index from `k` on that does not hold whitespace. */
  function SkipSpace(s: string, k: nat): (j: nat)
    requires k <= |s|
    ensures k <= j <= |s| && (j < |s| ==> !IsSpace(s[j]))
    ensures forall m :: k <= m < j ==> IsSpace(s[m])
    decreases |s| - k
  {
    if k == |s| || !IsSpace(s[k]) then k else SkipSpace(s, k + 1)
  }

  /** Going down from `k`, the first end, no lower than `lo`, that does not follow whitespace. */
  function SkipSpaceBack(s: string, lo: nat, k: nat): (j: nat)
    requires lo <= k <= |s|
    ensures lo <= j <= k && (j > lo ==> !IsSpace(s[j - 1]))
    ensures forall m :: j <= m < k ==> IsSpace(s[m])
  {
    if k == lo || !IsSpace(s[k - 1]) then k else SkipSpaceBack(s, lo, k - 1)
  }

  /**
   * `s.strip()`: `s` is the result with only whitespace before it and after it,
   * and the result itself neither starts nor ends with whitespace.
   */
  function Strip(s: string): (r: string)
    ensures exists a, b ::
              && 0 <= a <= b <= |s| && r == s[a..b]
              && (forall k :: 0 <= k < a ==> IsSpace(s[k]))
              && (forall k :: b <= k < |s| ==> IsSpace(s[k]))
    ensures Trimmed(r)
  {
    var a := SkipSpace(s, 0);
    var b := SkipSpaceBack(s, a, |s|);
    s[a..b]
  }

  /**
   * The strip of a string is determined by its decomposition: whitespace, then a
   * part with no whitespace at either end, then whitespace.
   */
  lemma StripUnique(p: string, m: string, q: string)
    requires AllSpace(p) && AllSpace(q) && Trimmed(m)
    ensures Strip(p + m + q) == m
  {
    var s := p + m + q;
    assert forall k :: 0 <= k < |p| ==> s[k] == p[k];
    assert forall k :: 0 <= k < |m| ==> s[|p| + k] == m[k];
    assert forall k :: 0 <= k < |q| ==> s[|p| + |m| + k] == q[k];
    var a := SkipSpace(s, 0);
    if m == [] {
      assert a == |s|;
    } else {
      assert a == |p|;
      assert SkipSpaceBack(s, a, |s|) == |p| + |m|;
    }
    assert s[|p|..|p| + |m|] == m;
  }

  /** Stripping keeps every character that is not whitespace, so it leaves such a string non-empty. */
  lemma StripKeepsNonSpace(s: string, k: nat)
    requires k < |s| && !IsSpace(s[k])
    ensures Strip(s) != ""
  {
  }

  /** A string already without whitespace at its ends is its own strip. */
  lemma StripTrimmed(m: string)
    requires Trimmed(m)
    ensures Strip(m) == m
  {
    assert m == [] + m + [];
    StripUnique([], m, []);
  }

  /** Stripping twice is the same as stripping once. */
  lemma StripIdempotent(s: string)
    ensures Strip(Strip(s)) == Strip(s)
  {
    StripTrimmed(Strip(s));
  }

  /** `p` occurs in `s` starting at index `i`. */
  predicate OccursAt(s: string, p: string, i: int)
  {
    0 <= i && i + |p| <= |s| && s[i..i + |p|] == p
  }

  ghost predicate Occurs(s: string, p: string)
  {
    exists i :: OccursAt(s, p, i)
  }

  /**
   * `s.replace(p, '')`: one left-to-right pass that removes every
   * non-overlapping occurrence of `p` it meets.
   */
  function RemoveAll(s: string, p: string): (r: string)
    requires p != []
    ensures |r| <= |s|
    decreases |s|
  {
    if |s| < |p| then s
    else if s[..|p|] == p then RemoveAll(s[|p|..], p)
    else [s[0]] + RemoveAll(s[1..], p)
  }

  lemma {:induction false} RemoveAllShrinks(s: string, p: string, i: int)
    requires p != [] && OccursAt(s, p, i)
    ensures |RemoveAll(s, p)| < |s|
    decreases |s|
  {
    if s[..|p|] != p {
      assert i > 0;
      assert s[1..][i - 1..i - 1 + |p|] == s[i..i + |p|];
      RemoveAllShrinks(s[1..], p, i - 1);
    }
  }

  lemma {:induction false} RemoveAllKeeps(s: string, p: string)
    requires p != [] && !Occurs(s, p)
    ensures RemoveAll(s, p) == s
    decreases |s|
  {
    if |s| >= |p| {
      assert !OccursAt(s, p, 0);
      forall i | OccursAt(s[1..], p, i) ensures OccursAt(s, p, i + 1) {
        assert s[i + 1..i + 1 + |p|] == s[1..][i..i + |p|];
      }
      RemoveAllKeeps(s[1..], p);
      assert s == [s[0]] + s[1..];
    }
  }

  /** Removing `p` changes nothing exactly when `p` does not occur. */
  lemma RemoveAllFixedPoint(s: string, p: string)
    requires p != []
    ensures RemoveAll(s, p) == s <==> !Occurs(s, p)
  {
    if Occurs(s, p) {
      var i :| OccursAt(s, p, i);
      RemoveAllShrinks(s, p, i);
    } else {
      RemoveAllKeeps(s, p);
    }
  }

  /**
   * The pass is not repeated: what is left after a removal can form a new
   * occurrence (`"uup p ".replace("up ", "")` is `"up "`).
   */
  lemma RemoveAllSinglePass()
    ensures RemoveAll("uup p ", "up ") == "up "
    ensures Occurs(RemoveAll("uup p ", "up "), "up ")
  {
    assert OccursAt("up ", "up ", 0);
  }
}
