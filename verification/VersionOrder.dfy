/**
  The order of Codex version numbers, whose parts are compared from the left with
  missing parts counting as zero.
 */
module VersionOrder {

  import opened Text

  type Version = seq<nat>

  /** The part at `i`, zero past the end. */
  function Part(v: Version, i: nat): nat {
    if i < |v| then v[i] else 0
  }

  /** -1, 0 or 1; nothing if a version could not be parsed. */
  method CompareCodexVersions(leftParts: Option<Version>, rightParts: Option<Version>) returns (r: Option<int>)
    ensures r == if leftParts.Some? && rightParts.Some? then Some(Comparison(leftParts.value, rightParts.value)) else None
  {
    if leftParts.None? || rightParts.None? {
      return None;
    }
    var left, right := leftParts.value, rightParts.value;
    var length := if |left| >= |right| then |left| else |right|;
    for i := 0 to length
      invariant forall k :: 0 <= k < i ==> Part(left, k) == Part(right, k)
    {
      var a, b := Part(left, i), Part(right, i);
      if a != b {
        DiffersAt(left, right, i);
        return Some(if a < b then -1 else 1);
      }
    }
    assert Same(left, right);
    return Some(0);
  }

  /** Parts differ for the first time at `k`. */
  ghost predicate FirstDifference(left: Version, right: Version, k: nat) {
    Part(left, k) != Part(right, k) && forall i: nat :: i < k ==> Part(left, i) == Part(right, i)
  }

  ghost predicate Same(left: Version, right: Version) {
    forall i: nat :: Part(left, i) == Part(right, i)
  }

  ghost predicate Less(left: Version, right: Version) {
    exists k: nat :: FirstDifference(left, right, k) && Part(left, k) < Part(right, k)
  }

  /**
    What the result means: same endless zero-padded sequences, or which of them is
    smaller where they first differ.
  */
  ghost function Comparison(left: Version, right: Version): int {
    if Same(left, right) then 0 else if Less(left, right) then -1 else 1
  }

  lemma DiffersAt(left: Version, right: Version, k: nat)
    requires FirstDifference(left, right, k)
    ensures !Same(left, right) && (Less(left, right) <==> Part(left, k) < Part(right, k))
    ensures Comparison(left, right) == if Part(left, k) < Part(right, k) then -1 else 1
  {
  }

  lemma {:induction false} FindDifference(left: Version, right: Version, n: nat) returns (k: nat)
    requires Part(left, n) != Part(right, n)
    ensures FirstDifference(left, right, k) && k <= n
  {
    k := 0;
    while Part(left, k) == Part(right, k)
      invariant k <= n && forall i: nat :: i < k ==> Part(left, i) == Part(right, i)
      decreases n - k
    {
      k := k + 1;
    }
  }

  /** Swapping the versions turns the result around. */
  lemma Antisymmetric(left: Version, right: Version)
    ensures Comparison(left, right) == -Comparison(right, left)
  {
    if !Same(left, right) {
      var n: nat :| Part(left, n) != Part(right, n);
      var k := FindDifference(left, right, n);
      assert FirstDifference(right, left, k);
      DiffersAt(left, right, k);
      DiffersAt(right, left, k);
    }
  }

  /** The comparison is a total preorder. */
  lemma Transitive(a: Version, b: Version, c: Version)
    requires Comparison(a, b) <= 0 && Comparison(b, c) <= 0
    ensures Comparison(a, c) <= 0
    ensures Comparison(a, c) == 0 ==> Comparison(a, b) == 0 && Comparison(b, c) == 0
  {
  }

  datatype Strategy = Unknown | Legacy | Modern

  /** The first version for which the plugin entry needs no legacy unlock. */
  const THRESHOLD: Version := [26, 601, 2237]

  method UnlockStrategy(version: Option<Version>) returns (strategy: Strategy)
    ensures strategy == StrategyFor(version)
  {
    var comparison := CompareCodexVersions(version, Some(THRESHOLD));
    if comparison.None? {
      return Unknown;
    }
    return if comparison.value < 0 then Legacy else Modern;
  }

  ghost function StrategyFor(version: Option<Version>): Strategy {
    if version.None? then Unknown else if Less(version.value, THRESHOLD) then Legacy else Modern
  }

  /** An older version never gets the modern strategy when a newer one gets the legacy one. */
  lemma StrategyIsMonotone(older: Version, newer: Version)
    requires Comparison(older, newer) <= 0 && StrategyFor(Some(newer)) == Legacy
    ensures StrategyFor(Some(older)) == Legacy
  {
  }
}
