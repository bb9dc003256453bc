/**
 * Searching a sequence for a pattern: the first occurrence, as `String.indexOf`
 * finds it. Used by the readers that act as partners of the builders.
 */
module Sequences {
  import opened Wrappers

  /** `pat` occurs in `s` starting at index `i`. */
  predicate OccursAt<T(==)>(s: seq<T>, pat: seq<T>, i: nat) {
    i + |pat| <= |s| && s[i..i + |pat|] == pat
  }

  /** `pat` occurs in `s` at some index. */
  predicate Contains<T(==)>(s: seq<T>, pat: seq<T>) {
    exists i: nat | i <= |s| :: OccursAt(s, pat, i)
  }

  /** The first index at or after `from` where `pat` occurs in `s`. */
  function IndexFrom<T(==)>(s: seq<T>, pat: seq<T>, from: nat): (r: Option<nat>)
    decreases |s| - from
    ensures r.Some? ==> from <= r.value && OccursAt(s, pat, r.value)
    ensures r.Some? ==> forall j: nat :: from <= j < r.value ==> !OccursAt(s, pat, j)
    ensures r.None? ==> forall j: nat :: from <= j ==> !OccursAt(s, pat, j)
  {
    if from + |pat| > |s| then None
    else if OccursAt(s, pat, from) then Some(from)
    else IndexFrom(s, pat, from + 1)
  }

  /** The first index where `pat` occurs in `s`, if any. */
  function IndexOf<T(==)>(s: seq<T>, pat: seq<T>): (r: Option<nat>)
    ensures r.Some? ==> OccursAt(s, pat, r.value)
    ensures r.Some? ==> forall j: nat :: j < r.value ==> !OccursAt(s, pat, j)
    ensures r.None? <==> !Contains(s, pat)
  {
    IndexFrom(s, pat, 0)
  }

  /** An occurrence with none before it is the one `IndexOf` finds. */
  lemma FirstOccurrence<T>(s: seq<T>, pat: seq<T>, k: nat)
    requires OccursAt(s, pat, k)
    requires forall j: nat :: j < k ==> !OccursAt(s, pat, j)
    ensures IndexOf(s, pat) == Some(k)
  {
  }

  /** A window whose `m`-th element differs from the pattern's is not an occurrence. */
  lemma MismatchAt<T>(s: seq<T>, pat: seq<T>, j: nat, m: nat)
    requires m < |pat| && j + m < |s| && s[j + m] != pat[m]
    ensures !OccursAt(s, pat, j)
  {
    if j + |pat| <= |s| {
      assert s[j..j + |pat|][m] == s[j + m];
    }
  }

  /** A sequence that starts with `p` is `p` followed by the rest. */
  lemma PrefixSplit<T>(s: seq<T>, p: seq<T>)
    requires |p| <= |s| && s[..|p|] == p
    ensures s == p + s[|p|..]
  {
  }

  /** The two halves of a concatenation can be sliced back out. */
  lemma ConcatSlices<T>(a: seq<T>, b: seq<T>)
    ensures (a + b)[..|a|] == a && (a + b)[|a|..] == b
  {
  }

  /** Concatenation is associative. */
  lemma Assoc<T>(a: seq<T>, b: seq<T>, c: seq<T>)
    ensures a + b + c == a + (b + c)
  {
  }

  /** A concatenation after a prefix, regrouped. */
  lemma Regroup<T>(p: seq<T>, a: seq<T>, b: seq<T>, c: seq<T>)
    ensures p + (a + b + c) == p + a + b + c
  {
  }

  /** A sequence splits around an occurrence of a pattern. */
  lemma OccurrenceSplit<T>(s: seq<T>, pat: seq<T>, i: nat)
    requires OccursAt(s, pat, i)
    ensures s == s[..i] + pat + s[i + |pat|..]
  {
    assert s == s[..i] + s[i..i + |pat|] + s[i + |pat|..];
  }

  /** The first and last pieces of a three-way concatenation can be sliced back out. */
  lemma ConcatEnds<T>(a: seq<T>, b: seq<T>, c: seq<T>)
    ensures (a + b + c)[..|a|] == a
    ensures (a + b + c)[|a + b + c| - |c|..] == c
  {
  }

  /** Occurrences in `p + s` past `p` are the occurrences in `s`, shifted. */
  lemma OccursShift<T>(p: seq<T>, s: seq<T>, pat: seq<T>, o: nat)
    ensures OccursAt(p + s, pat, |p| + o) <==> OccursAt(s, pat, o)
  {
    if o + |pat| <= |s| {
      assert (p + s)[|p| + o..|p| + o + |pat|] == s[o..o + |pat|];
    }
  }

  /**
   * When no proper suffix of `pat` begins like `pat` does (its first element
   * recurs nowhere in it), an occurrence cannot straddle the end of `x`: in
   * `x + pat + tail` the first occurrence is the one right after `x`, unless
   * `x` already contains `pat`.
   */
  lemma FirstAfter<T>(x: seq<T>, pat: seq<T>, tail: seq<T>)
    requires |pat| >= 1
    requires forall m :: 1 <= m < |pat| ==> pat[m] != pat[0]
    requires !Contains(x, pat)
    ensures OccursAt(x + pat + tail, pat, |x|)
    ensures forall o: nat :: o < |x| ==> !OccursAt(x + pat + tail, pat, o)
  {
    var s := x + pat + tail;
    assert s[|x|..|x| + |pat|] == pat;
    forall o: nat | o < |x| ensures !OccursAt(s, pat, o) {
      if o + |pat| <= |x| {
        assert s[o..o + |pat|] == x[o..o + |pat|];
        assert !OccursAt(x, pat, o);
      } else {
        var m := |x| - o;
        assert s[o + m] == pat[0];
        MismatchAt(s, pat, o, m);
      }
    }
  }

  /**
   * A pattern whose first element is absent from `a` and `b`, and whose third
   * element differs from the first of `b`, does not start anywhere in
   * `a + nl + b` (with `nl` a two-element line break whose second element is
   * not the pattern's first).
   */
  lemma ScanPastLineBreak<T>(a: seq<T>, nl: seq<T>, b: seq<T>, tail: seq<T>, pat: seq<T>)
    requires |nl| == 2 && |pat| >= 3 && |b| >= 1
    requires pat[0] !in a && pat[0] !in b && nl[1] != pat[0] && b[0] != pat[2]
    ensures forall j: nat :: j < |a + nl + b| ==> !OccursAt(a + nl + b + tail, pat, j)
  {
    var s := a + nl + b + tail;
    forall j: nat | j < |a + nl + b| ensures !OccursAt(s, pat, j) {
      if j < |a| {
        assert s[j] == a[j];
        MismatchAt(s, pat, j, 0);
      } else if j == |a| {
        assert s[j + 2] == b[0];
        MismatchAt(s, pat, j, 2);
      } else if j == |a| + 1 {
        assert s[j] == nl[1];
        MismatchAt(s, pat, j, 0);
      } else {
        assert s[j] == b[j - |a| - 2];
        MismatchAt(s, pat, j, 0);
      }
    }
  }
}
