/**
 * The two operations of Go's `strings` package that the engine relies on:
 * `strings.Contains` (the scanner's file-name filter) and
 * `strings.Replace(s, old, "", 1)` (the registry-key normalisation).
 * Strings are sequences of characters; the searches compare whole
 * characters, which for well-formed UTF-8 finds the same occurrences as
 * Go's byte-wise search.
 */
module Strings {
  import opened Wrappers

  /** `sub` occurs in `s` starting at index `i`. */
  predicate OccursAt(s: string, sub: string, i: nat) {
    i + |sub| <= |s| && s[i..i + |sub|] == sub
  }

  /** The first occurrence of `sub` in `s` at or after index `from`. */
  function IndexFrom(s: string, sub: string, from: nat): (r: Option<nat>)
    ensures r.Some? ==> from <= r.value && OccursAt(s, sub, r.value)
    ensures r.Some? ==> forall j: nat :: from <= j < r.value ==> !OccursAt(s, sub, j)
    ensures r.None? ==> forall j: nat :: from <= j ==> !OccursAt(s, sub, j)
    decreases |s| - from
  {
    if from + |sub| > |s| then None
    else if OccursAt(s, sub, from) then Some(from)
    else IndexFrom(s, sub, from + 1)
  }

  /** Go's `strings.Index`: the first occurrence of `sub` in `s`, if any. */
  function Index(s: string, sub: string): (r: Option<nat>)
  {
    IndexFrom(s, sub, 0)
  }

  /** Go's `strings.Contains`: `sub` occurs somewhere in `s`, not only at its end. */
  predicate Contains(s: string, sub: string)
  {
    Index(s, sub).Some?
  }

  /**
   * Go's `strings.Replace(s, sub, "", 1)`: deletes the first occurrence of
   * `sub` and leaves every later occurrence in place. With no occurrence,
   * or with an empty `sub` (which Go matches at the start), `s` is returned.
   */
  function RemoveFirst(s: string, sub: string): string
  {
    match Index(s, sub)
    case None => s
    case Some(i) => s[..i] + s[i + |sub|..]
  }

  /**
   * `RemoveFirst` cuts out exactly the first occurrence: with none, the string
   * is unchanged; otherwise what precedes and what follows that occurrence
   * are joined, and the result is |sub| shorter.
   */
  lemma RemoveFirstSpec(s: string, sub: string, i: nat)
    requires OccursAt(s, sub, i) && forall j: nat :: j < i ==> !OccursAt(s, sub, j)
    ensures RemoveFirst(s, sub) == s[..i] + s[i + |sub|..]
    ensures |RemoveFirst(s, sub)| == |s| - |sub|
  {
    assert Index(s, sub) == Some(i);
  }

  /** `Contains` holds exactly when some occurrence exists. */
  lemma ContainsIff(s: string, sub: string)
    ensures Contains(s, sub) <==> exists i: nat :: OccursAt(s, sub, i)
  {
    if !Contains(s, sub) {
      assert forall j: nat :: !OccursAt(s, sub, j);
    }
  }

  /** An occurrence anywhere in `s`, at the end or not, makes `Contains` true. */
  lemma ContainsAnywhere(prefix: string, sub: string, suffix: string)
    ensures Contains(prefix + sub + suffix, sub)
  {
    var s := prefix + sub + suffix;
    assert s[|prefix|..|prefix| + |sub|] == sub;
    assert OccursAt(s, sub, |prefix|);
  }

  /** Removing a prefix that is the first occurrence leaves exactly the rest. */
  lemma RemoveFirstPrefix(prefix: string, rest: string)
    ensures RemoveFirst(prefix + rest, prefix) == rest
  {
    var s := prefix + rest;
    assert s[..|prefix|] == prefix;
    assert OccursAt(s, prefix, 0);
    assert s[|prefix|..] == rest;
  }

  /** Without an occurrence, nothing is removed. */
  lemma RemoveFirstAbsent(s: string, sub: string)
    requires !Contains(s, sub)
    ensures RemoveFirst(s, sub) == s
  {
  }

  /** Only the first occurrence is removed: a later, non-overlapping one survives, shifted left. */
  lemma RemoveFirstKeepsLater(s: string, sub: string, i: nat, k: nat)
    requires OccursAt(s, sub, i) && forall j: nat :: j < i ==> !OccursAt(s, sub, j)
    requires OccursAt(s, sub, k) && i + |sub| <= k
    ensures OccursAt(RemoveFirst(s, sub), sub, k - |sub|)
  {
    assert Index(s, sub) == Some(i);
    CutKeepsLater(s, i, |sub|, k);
  }

  /** Cutting `s[i..i + n]` shifts everything from index `k >= i + n` left by `n`. */
  lemma CutKeepsLater(s: string, i: nat, n: nat, k: nat)
    requires i + n <= k <= |s|
    ensures (s[..i] + s[i + n..])[k - n..] == s[k..]
  {
    var r := s[..i] + s[i + n..];
    assert |r| == |s| - n;
    forall j | k <= j < |s|
      ensures r[j - n] == s[j]
    {
      assert r[j - n] == s[i + n..][j - n - i];
    }
  }
}
