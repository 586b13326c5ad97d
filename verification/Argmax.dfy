/** The token a row of logits selects.  The device scans the row in 256 strided lanes and folds
    the lanes in a tree; the result is the leftmost maximum of the row. */
module Argmax {
  import opened ExtendedReal

  /** The leftmost index of the maximum of f over [0, n), by a serial scan. */
  function Leftmost(f: nat -> real, n: nat): (r: nat)
    requires n > 0
    ensures r < n
    ensures forall i | 0 <= i < n :: f(i) <= f(r) && (i < r ==> f(i) < f(r))
  {
    if n == 1 then 0
    else
      var best := Leftmost(f, n - 1);
      if f(n - 1) > f(best) then n - 1 else best
  }

  /** What a lane holds: a value and the index it was read from. */
  datatype Candidate = Candidate(value: Extended, index: nat) {
    /** The kernels' comparison: a larger value, or the same value further left. */
    predicate Beats(other: Candidate) {
      Greater(value, other.value) || (value == other.value && index < other.index)
    }
  }

  const NOTHING: Candidate := Candidate(MinusInfinity, 0)

  /** The lane that serves an index when that many lanes are left: every level of the tree folds
      the upper half of the lanes onto the lower half. */
  ghost function LaneOf(i: nat, lanes: nat): (t: nat)
    requires lanes > 0
    ensures t < lanes
    decreases 256 - lanes
  {
    if lanes >= 256 then i % 256
    else
      var t := LaneOf(i, 2 * lanes);
      if t < lanes then t else t - lanes
  }

  /** c is the leftmost maximum among the indices below n that lane t serves, or nothing if there
      is no such index. */
  ghost predicate BestOf(f: nat -> real, n: nat, lanes: nat, t: nat, c: Candidate)
    requires lanes > 0
  {
    && (c == NOTHING || (c.index < n && LaneOf(c.index, lanes) == t && c.value == Finite(f(c.index))))
    && forall i | 0 <= i < n && LaneOf(i, lanes) == t ::
         c.value.Finite? && f(i) <= c.value.value && (i < c.index ==> f(i) < c.value.value)
  }

  /** The better of two lanes serves both. */
  lemma Folded(f: nat -> real, n: nat, s: nat, t: nat, low: Candidate, high: Candidate)
    requires 0 < s < 256 && t < s && BestOf(f, n, 2 * s, t, low) && BestOf(f, n, 2 * s, t + s, high)
    ensures BestOf(f, n, s, t, if high.Beats(low) then high else low)
  {
    var c := if high.Beats(low) then high else low;
    forall i | 0 <= i < n && LaneOf(i, s) == t
      ensures c.value.Finite? && f(i) <= c.value.value && (i < c.index ==> f(i) < c.value.value)
    {
      assert LaneOf(i, 2 * s) in {t, t + s};
    }
  }

  /** One lane of the strided scan. */
  method ScanLane(f: nat -> real, n: nat, thread: nat) returns (c: Candidate)
    requires thread < 256
    ensures BestOf(f, n, 256, thread, c)
  {
    c := NOTHING;
    var index := thread;
    while index < n
      invariant index % 256 == thread && c.index <= index
      invariant c == NOTHING || (c.index < index && c.index < n && LaneOf(c.index, 256) == thread
                                 && c.value == Finite(f(c.index)))
      invariant forall i | 0 <= i < index && i < n && LaneOf(i, 256) == thread ::
                  c.value.Finite? && f(i) <= c.value.value && (i < c.index ==> f(i) < c.value.value)
    {
      var read := Candidate(Finite(f(index)), index);
      if read.Beats(c) {
        c := read;
      }
      index := index + 256;
    }
  }

  /** One level of the tree: lane t takes over what lane t + stride found. */
  method FoldLevel(f: nat -> real, n: nat, lanes: array<Candidate>, stride: nat)
    requires lanes.Length == 256 && 0 < stride <= 128
    requires forall t | 0 <= t < 2 * stride :: BestOf(f, n, 2 * stride, t, lanes[t])
    modifies lanes
    ensures forall t | 0 <= t < stride :: BestOf(f, n, stride, t, lanes[t])
  {
    for t := 0 to stride
      invariant forall u | 0 <= u < t :: BestOf(f, n, stride, u, lanes[u])
      invariant forall u | t <= u < 2 * stride :: BestOf(f, n, 2 * stride, u, lanes[u])
    {
      Folded(f, n, stride, t, lanes[t], lanes[t + stride]);
      if lanes[t + stride].Beats(lanes[t]) {
        lanes[t] := lanes[t + stride];
      }
    }
  }

  lemma {:induction false} BestIsLeftmost(f: nat -> real, n: nat, c: Candidate)
    requires n > 0 && BestOf(f, n, 1, 0, c)
    ensures c.index == Leftmost(f, n)
  {
    var best := Leftmost(f, n);
    assert LaneOf(best, 1) == 0;
  }

  /** argmax_logits: an identifier table renames the selected row, if there is one. */
  method ArgmaxLogits(f: nat -> real, n: nat, tokenIds: seq<nat>, renamed: bool) returns (token: nat)
    requires n > 0 && (renamed ==> |tokenIds| == n)
    ensures token == if renamed then tokenIds[Leftmost(f, n)] else Leftmost(f, n)
  {
    var lanes := new Candidate[256](_ => NOTHING);
    for thread := 0 to 256
      invariant forall t | 0 <= t < thread :: BestOf(f, n, 256, t, lanes[t])
    {
      lanes[thread] := ScanLane(f, n, thread);
    }
    var stride := 128;
    while stride != 0
      invariant stride in {0, 1, 2, 4, 8, 16, 32, 64, 128}
      invariant if stride == 0 then BestOf(f, n, 1, 0, lanes[0])
                else forall t | 0 <= t < 2 * stride :: BestOf(f, n, 2 * stride, t, lanes[t])
    {
      FoldLevel(f, n, lanes, stride);
      stride := stride / 2;
    }
    BestIsLeftmost(f, n, lanes[0]);
    token := if renamed then tokenIds[lanes[0].index] else lanes[0].index;
  }
}
