/**
  Placement of the conversation timeline's markers: one percentage per question,
  pushed apart to a minimum gap and kept inside the visible band.
*/
module TimelineLayout {

  const MIN_TOP := 2.0
  const MAX_TOP := 98.0
  const MAX_GAP := 3.5

  function Min(a: real, b: real): real { if a <= b then a else b }

  function Max(a: real, b: real): real { if a >= b then a else b }

  function ClampTop(x: real): real { Max(MIN_TOP, Min(MAX_TOP, x)) }

  /** Where a question at `offset` in the scrolled content would put its marker. */
  function RawTop(offset: real, scrollHeight: real, clientHeight: real): real {
    ClampTop(offset / Max(1.0, scrollHeight - clientHeight) * 100.0)
  }

  function MinGap(n: nat): real
    requires n >= 2
  {
    Min(MAX_GAP, (MAX_TOP - MIN_TOP) / (n - 1) as real)
  }

  /** The lowest position that still leaves room for the markers after `i`. */
  function Ceiling(i: nat, n: nat, gap: real): real
    requires i < n
  {
    MAX_TOP - (n - 1 - i) as real * gap
  }

  ghost predicate InBand(s: seq<real>) {
    forall i :: 0 <= i < |s| ==> MIN_TOP <= s[i] <= MAX_TOP
  }

  ghost predicate Spaced(s: seq<real>, gap: real) {
    forall i :: 0 <= i < |s| - 1 ==> s[i] + gap <= s[i + 1]
  }

  /** No marker sits above its question, except where the room below forces it. */
  ghost predicate Dominates(s: seq<real>, raws: seq<real>, gap: real) {
    |s| == |raws| &&
    forall i :: 0 <= i < |s| ==> Min(raws[i], Ceiling(i, |s|, gap)) <= s[i]
  }

  ghost predicate AdmissibleLayout(s: seq<real>, raws: seq<real>, gap: real) {
    Spaced(s, gap) && Dominates(s, raws, gap)
  }

  ghost predicate PointwiseLe(s: seq<real>, t: seq<real>) {
    |s| == |t| && forall i :: 0 <= i < |s| ==> s[i] <= t[i]
  }

  /** The pointwise least admissible layout. */
  ghost predicate LeastLayout(s: seq<real>, raws: seq<real>, gap: real) {
    AdmissibleLayout(s, raws, gap) &&
    forall t :: AdmissibleLayout(t, raws, gap) ==> PointwiseLe(s, t)
  }

  // ------------------------------------------------------------- the proofs

  /** What the forward pass leaves at index `i`. */
  ghost function Pushed(raws: seq<real>, gap: real, i: nat): real
    requires i < |raws|
  {
    if i == 0 then raws[0] else Max(raws[i], Pushed(raws, gap, i - 1) + gap)
  }

  /** What the backward pass leaves at index `i`. */
  ghost function Placed(raws: seq<real>, gap: real, i: nat): real
    requires i < |raws|
  {
    Min(Pushed(raws, gap, i), Ceiling(i, |raws|, gap))
  }

  lemma CeilingStep(i: nat, n: nat, gap: real)
    requires i + 1 < n
    ensures Ceiling(i, n, gap) + gap == Ceiling(i + 1, n, gap)
  {
  }

  lemma MinGapFits(n: nat)
    requires n >= 2
    ensures 0.0 < MinGap(n) <= MAX_GAP
    ensures MIN_TOP <= Ceiling(0, n, MinGap(n))
  {
  }

  lemma {:induction false} CeilingInBand(i: nat, n: nat)
    requires i < n && n >= 2
    ensures MIN_TOP <= Ceiling(i, n, MinGap(n)) <= MAX_TOP
  {
    MinGapFits(n);
    if i > 0 {
      CeilingInBand(i - 1, n);
      CeilingStep(i - 1, n, MinGap(n));
    }
    var room := (n - 1 - i) as real;
    assert room * MinGap(n) >= 0.0;
  }

  /** Every admissible layout is at least as low as the two passes' result. */
  lemma {:induction false} PlacedIsBelow(t: seq<real>, raws: seq<real>, gap: real, i: nat)
    requires AdmissibleLayout(t, raws, gap) && i < |raws|
    ensures Placed(raws, gap, i) <= t[i]
  {
    if i > 0 {
      PlacedIsBelow(t, raws, gap, i - 1);
      CeilingStep(i - 1, |raws|, gap);
      assert t[i - 1] + gap <= t[(i - 1) + 1];
    }
  }

  lemma PlacedIsLeast(s: seq<real>, raws: seq<real>, gap: real)
    requires |s| == |raws|
    requires forall i :: 0 <= i < |s| ==> s[i] == Placed(raws, gap, i)
    ensures LeastLayout(s, raws, gap)
  {
    forall i | 0 <= i < |s| - 1
      ensures s[i] + gap <= s[i + 1]
    {
      CeilingStep(i, |s|, gap);
    }
    forall t | AdmissibleLayout(t, raws, gap)
      ensures PointwiseLe(s, t)
    {
      forall i | 0 <= i < |s|
        ensures s[i] <= t[i]
      {
        PlacedIsBelow(t, raws, gap, i);
      }
    }
  }

  // -------------------------------------------------------- the main results

  /** There is only one least layout, so `LeastLayout` determines the markers. */
  lemma LeastLayoutUnique(s: seq<real>, t: seq<real>, raws: seq<real>, gap: real)
    requires LeastLayout(s, raws, gap) && LeastLayout(t, raws, gap)
    ensures s == t
  {
  }

  /** All markers of a least layout are visible: the last clamp is the identity. */
  lemma LeastLayoutInBand(s: seq<real>, raws: seq<real>)
    requires |raws| >= 2 && InBand(raws)
    requires LeastLayout(s, raws, MinGap(|raws|))
    ensures InBand(s)
    ensures forall i :: 0 <= i < |s| ==> ClampTop(s[i]) == s[i]
  {
    var n, gap := |raws|, MinGap(|raws|);
    var placed := seq(n, i requires 0 <= i < n => Placed(raws, gap, i));
    PlacedIsLeast(placed, raws, gap);
    LeastLayoutUnique(s, placed, raws, gap);
    forall i | 0 <= i < n
      ensures MIN_TOP <= s[i] <= MAX_TOP
    {
      CeilingInBand(i, n);
      assert raws[i] <= Pushed(raws, gap, i);
    }
  }

  lemma {:induction false} PushedWhenSpaced(raws: seq<real>, gap: real, i: nat)
    requires i < |raws| && Spaced(raws, gap)
    ensures Pushed(raws, gap, i) == raws[i]
  {
    if i > 0 {
      PushedWhenSpaced(raws, gap, i - 1);
      assert raws[i - 1] + gap <= raws[(i - 1) + 1];
    }
  }

  lemma {:induction false} SpacedBelowCeiling(raws: seq<real>, gap: real, i: nat)
    requires i < |raws| && Spaced(raws, gap) && InBand(raws)
    ensures raws[i] <= Ceiling(i, |raws|, gap)
    decreases |raws| - i
  {
    if i == |raws| - 1 {
      assert Ceiling(i, |raws|, gap) == MAX_TOP;
    } else {
      SpacedBelowCeiling(raws, gap, i + 1);
      CeilingStep(i, |raws|, gap);
    }
  }

  /** Questions that are already far enough apart keep their exact positions. */
  lemma FeasibleUnchanged(raws: seq<real>, gap: real)
    requires Spaced(raws, gap) && InBand(raws)
    ensures LeastLayout(raws, raws, gap)
  {
    forall i | 0 <= i < |raws|
      ensures raws[i] == Placed(raws, gap, i)
    {
      PushedWhenSpaced(raws, gap, i);
      SpacedBelowCeiling(raws, gap, i);
    }
    PlacedIsLeast(raws, raws, gap);
  }

  /** Laying out a finished layout again returns it: the layout is idempotent. */
  lemma LayoutIdempotent(s: seq<real>, again: seq<real>, raws: seq<real>)
    requires |raws| >= 2 && InBand(raws)
    requires LeastLayout(s, raws, MinGap(|raws|))
    requires LeastLayout(again, s, MinGap(|raws|))
    ensures again == s
  {
    LeastLayoutInBand(s, raws);
    FeasibleUnchanged(s, MinGap(|raws|));
    LeastLayoutUnique(s, again, s, MinGap(|raws|));
  }

  function RawTops(offsets: seq<real>, scrollHeight: real, clientHeight: real): (raws: seq<real>)
    ensures |raws| == |offsets| && InBand(raws)
  {
    seq(|offsets|, i requires 0 <= i < |offsets| => RawTop(offsets[i], scrollHeight, clientHeight))
  }

  /** The forward pass, in place. */
  method PushDown(tops: array<real>, minGap: real)
    modifies tops
    ensures forall k :: 0 <= k < tops.Length ==> tops[k] == Pushed(old(tops[..]), minGap, k)
  {
    ghost var raws := tops[..];
    var index := 1;
    while index < tops.Length
      invariant 1 <= index
      invariant forall k :: 0 <= k < index && k < tops.Length ==> tops[k] == Pushed(raws, minGap, k)
      invariant forall k :: index <= k < tops.Length ==> tops[k] == raws[k]
    {
      var pushed := Max(tops[index], tops[index - 1] + minGap);
      assert pushed == Pushed(raws, minGap, index);
      tops[index] := pushed;
      index := index + 1;
    }
  }

  /** The backward pass, in place. */
  method PullUp(tops: array<real>, minGap: real)
    modifies tops
    ensures forall k :: 0 <= k < tops.Length ==>
      tops[k] == Min(old(tops[..])[k], Ceiling(k, tops.Length, minGap))
  {
    ghost var pushed := tops[..];
    var index := tops.Length - 1;
    while index >= 0
      invariant -1 <= index < tops.Length
      invariant forall k :: 0 <= k <= index ==> tops[k] == pushed[k]
      invariant forall k :: index < k < tops.Length ==> tops[k] == Min(pushed[k], Ceiling(k, tops.Length, minGap))
    {
      tops[index] := Min(tops[index], Ceiling(index, tops.Length, minGap));
      index := index - 1;
    }
  }

  /** With at most one question the answer is a single centred marker. */
  method TimelineMarkerTops(offsets: seq<real>, scrollHeight: real, clientHeight: real) returns (result: seq<real>)
    ensures |offsets| <= 1 ==> result == [50.0]
    ensures |offsets| >= 2 ==>
      LeastLayout(result, RawTops(offsets, scrollHeight, clientHeight), MinGap(|offsets|)) && InBand(result)
  {
    var n := |offsets|;
    if n <= 1 {
      return [50.0];
    }
    var raws := RawTops(offsets, scrollHeight, clientHeight);
    var tops := new real[n](i requires 0 <= i < n => raws[i]);
    assert tops[..] == raws;
    var minGap := MinGap(n);
    PushDown(tops, minGap);
    PullUp(tops, minGap);
    var spread := tops[..];
    PlacedIsLeast(spread, raws, minGap);
    LeastLayoutInBand(spread, raws);
    result := seq(n, i requires 0 <= i < n => ClampTop(spread[i]));
    assert result == spread;
  }
}
