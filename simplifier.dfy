/** The curve simplifier `curve_logging_helper`: a one-dimensional
    Ramer-Douglas-Peucker variant over a series of distances `vs` and their
    timestamps `ts`. The source recurses on slices; here a slice is the index
    range [lo, hi] of the fixed series, and the points chosen so far are the
    accumulator `acc`. */
module Simplifier {
  import opened Telemetry

  datatype Option<T> = None | Some(value: T)

  /** A point is kept when its deviation from the chord exceeds this. */
  const ErrorThreshold: real := 20.0
  /** The point budget `POLL_COUNT_DISTANCE * CYCLE_TIME / 2.5`. */
  const PointBudget: real := PollCountDistance as real * CycleTime / 2.5
  /** The same budget as a count of points. */
  const MaxPoints: nat := 4

  /** The two columns of a window: equally long. */
  predicate Columns(vs: seq<real>, ts: seq<real>) {
    |vs| == |ts|
  }

  /** Slope of the chord from the first to the last point of [lo, hi]. */
  function Slope(vs: seq<real>, ts: seq<real>, lo: nat, hi: nat): (m: real)
    requires Columns(vs, ts) && lo <= hi < |vs| && ts[hi] != ts[lo]
  {
    (vs[hi] - vs[lo]) / (ts[hi] - ts[lo])
  }

  /** The chord's value at the timestamp of index k (`timestamps * slope + y_int`). */
  function Predicted(vs: seq<real>, ts: seq<real>, lo: nat, hi: nat, k: nat): (y: real)
    requires Columns(vs, ts) && lo <= hi < |vs| && ts[hi] != ts[lo] && k < |vs|
  {
    var slope := Slope(vs, ts, lo, hi);
    var yInt := vs[lo] - ts[lo] * slope;
    ts[k] * slope + yInt
  }

  /** Vertical deviation of point k from the chord of [lo, hi]. */
  function Deviation(vs: seq<real>, ts: seq<real>, lo: nat, hi: nat, k: nat): (d: real)
    requires Columns(vs, ts) && lo <= hi < |vs| && ts[hi] != ts[lo] && k < |vs|
  {
    Abs(vs[k] - Predicted(vs, ts, lo, hi, k))
  }

  /** The array `diffs` of the source: one deviation per index of [lo, hi]. */
  function Deviations(vs: seq<real>, ts: seq<real>, lo: nat, hi: nat): (d: seq<real>)
    requires Columns(vs, ts) && lo <= hi < |vs| && ts[hi] != ts[lo]
    ensures |d| == hi - lo + 1
    ensures forall j :: 0 <= j < |d| ==> d[j] == Deviation(vs, ts, lo, hi, lo + j)
  {
    seq(hi - lo + 1, j requires 0 <= j < hi - lo + 1 => Deviation(vs, ts, lo, hi, lo + j))
  }

  /** `np.argmax`: the FIRST index holding the largest element. */
  function ArgMax(d: seq<real>): (r: nat)
    requires |d| > 0
    ensures r < |d|
    ensures forall j :: 0 <= j < |d| ==> d[j] <= d[r]
    ensures forall j :: 0 <= j < r ==> d[j] < d[r]
  {
    if |d| == 1 then 0
    else
      var k := ArgMax(d[..|d| - 1]);
      if d[|d| - 1] > d[k] then |d| - 1 else k
  }

  /** The chord passes through both ends of the range, so the endpoints have
      no deviation (exact arithmetic). */
  lemma EndpointsOnChord(vs: seq<real>, ts: seq<real>, lo: nat, hi: nat)
    requires Columns(vs, ts) && lo <= hi < |vs| && ts[hi] != ts[lo]
    ensures Deviation(vs, ts, lo, hi, lo) == 0.0
    ensures Deviation(vs, ts, lo, hi, hi) == 0.0
  {
    var slope := Slope(vs, ts, lo, hi);
    assert (ts[hi] - ts[lo]) * slope == vs[hi] - vs[lo];
    assert Predicted(vs, ts, lo, hi, hi) == vs[lo] + (ts[hi] - ts[lo]) * slope;
  }

  /** Every point of [lo, hi] lies within the threshold of the chord. */
  predicate WithinThreshold(vs: seq<real>, ts: seq<real>, lo: nat, hi: nat)
    requires Columns(vs, ts) && lo <= hi < |vs| && ts[hi] != ts[lo]
  {
    forall j :: lo <= j <= hi ==> Deviation(vs, ts, lo, hi, j) <= ErrorThreshold
  }

  /** The split step of one call: the index of the largest deviation from
      the chord when that deviation exceeds the threshold (which index, see
      SplitIsFirstMaximum). A range of one point, or one whose first and last
      timestamps coincide, has no split: the source divides by the zero time
      span there, every deviation becomes NaN and `NaN > 20` is false. */
  function Split(vs: seq<real>, ts: seq<real>, lo: nat, hi: nat): (r: Option<nat>)
    requires Columns(vs, ts) && lo <= hi < |vs|
    ensures r.Some? ==> lo < r.value < hi
  {
    if lo == hi || ts[hi] == ts[lo] then None
    else
      var d := Deviations(vs, ts, lo, hi);
      var i := ArgMax(d);
      if d[i] > ErrorThreshold then
        EndpointsOnChord(vs, ts, lo, hi);
        Some(lo + i)
      else
        None
  }

  /** A split happens exactly when some point deviates from the chord by
      more than the threshold; the chosen index carries the largest
      deviation, and on a tie the lowest such index is chosen. */
  lemma SplitIsFirstMaximum(vs: seq<real>, ts: seq<real>, lo: nat, hi: nat)
    requires Columns(vs, ts) && lo <= hi < |vs|
    ensures Split(vs, ts, lo, hi).None? <==>
      lo == hi || ts[hi] == ts[lo] || WithinThreshold(vs, ts, lo, hi)
    ensures Split(vs, ts, lo, hi).Some? ==>
      var i := Split(vs, ts, lo, hi).value;
      ts[hi] != ts[lo] &&
      Deviation(vs, ts, lo, hi, i) > ErrorThreshold &&
      (forall j :: lo <= j <= hi ==> Deviation(vs, ts, lo, hi, j) <= Deviation(vs, ts, lo, hi, i)) &&
      (forall j :: lo <= j < i ==> Deviation(vs, ts, lo, hi, j) < Deviation(vs, ts, lo, hi, i))
  {
    if lo != hi && ts[hi] != ts[lo] {
      var d := Deviations(vs, ts, lo, hi);
      assert forall j :: lo <= j <= hi ==> Deviation(vs, ts, lo, hi, j) == d[j - lo];
    }
  }

  /** The pair `[values[i], timestamps[i]]` the source appends. */
  function PointAt(vs: seq<real>, ts: seq<real>, k: nat): (p: Reading)
    requires Columns(vs, ts) && k < |vs|
  {
    Reading(vs[k], ts[k])
  }

  /** `curve_logging_helper(values[lo..hi], timestamps[lo..hi], acc)`. */
  function Simplify(vs: seq<real>, ts: seq<real>, lo: nat, hi: nat, acc: seq<Reading>): (r: seq<Reading>)
    requires Columns(vs, ts) && lo <= hi < |vs|
    ensures |acc| <= |r| && r[..|acc|] == acc
    decreases hi - lo
  {
    if lo == hi || |acc| as real >= PointBudget then acc
    else
      match Split(vs, ts, lo, hi)
      case None => acc
      case Some(i) =>
        var left := Simplify(vs, ts, lo, i, acc + [PointAt(vs, ts, i)]);
        Simplify(vs, ts, i, hi, left)
  }

  /** The unbounded split order: the indices the recursion would choose with
      no point budget, in pre-order (split index, then the left range, then
      the right range). Every index is strictly inside the range and none is
      chosen twice. */
  function SplitOrder(vs: seq<real>, ts: seq<real>, lo: nat, hi: nat): (s: seq<nat>)
    requires Columns(vs, ts) && lo <= hi < |vs|
    ensures forall k :: 0 <= k < |s| ==> lo < s[k] < hi
    decreases hi - lo
  {
    match Split(vs, ts, lo, hi)
    case None => []
    case Some(i) => [i] + SplitOrder(vs, ts, lo, i) + SplitOrder(vs, ts, i, hi)
  }

  /** The points at a sequence of indices. */
  function PointsAt(vs: seq<real>, ts: seq<real>, idx: seq<nat>): (ps: seq<Reading>)
    requires Columns(vs, ts) && forall k :: 0 <= k < |idx| ==> idx[k] < |vs|
    ensures |ps| == |idx|
    ensures forall k :: 0 <= k < |idx| ==> ps[k] == PointAt(vs, ts, idx[k])
  {
    seq(|idx|, k requires 0 <= k < |idx| => PointAt(vs, ts, idx[k]))
  }

  /** The first n elements of s, or all of s when it is shorter. */
  function Take<T>(s: seq<T>, n: nat): (r: seq<T>)
    ensures |r| == (if |s| <= n then |s| else n) && r == s[..|r|]
  {
    if |s| <= n then s else s[..n]
  }

  /** How many more points the budget admits after acc. */
  function Room(acc: seq<Reading>): (n: nat) {
    if |acc| >= MaxPoints then 0 else MaxPoints - |acc|
  }

  lemma BudgetIsFour()
    ensures PointBudget == MaxPoints as real
  {
  }

  lemma TakeConcat<T>(a: seq<T>, b: seq<T>, n: nat)
    ensures Take(a + b, n) == Take(a, n) + Take(b, n - |Take(a, n)|)
  {
    if |a| < n {
      assert (a + b)[..|a|] == a;
    } else {
      assert (a + b)[..n] == a[..n];
    }
  }

  lemma TakeCons<T>(x: T, s: seq<T>, n: nat)
    requires n >= 1
    ensures Take([x] + s, n) == [x] + Take(s, n - 1)
  {
    if |s| + 1 > n {
      assert ([x] + s)[..n] == [x] + s[..n - 1];
    }
  }

  /** One split step in terms of the budget: appending the split point and
      then filling the remaining room from the left and the right part takes
      the same points as filling the room from the concatenated order. */
  lemma BudgetStep(acc: seq<Reading>, p: Reading, L: seq<Reading>, R: seq<Reading>, left: seq<Reading>)
    requires |acc| < MaxPoints
    requires left == acc + [p] + Take(L, Room(acc) - 1)
    ensures left + Take(R, Room(left)) == acc + Take([p] + (L + R), Room(acc))
  {
    var m := Room(acc);
    assert Room(left) == m - 1 - |Take(L, m - 1)|;
    TakeConcat(L, R, m - 1);
    TakeCons(p, L + R, m);
  }

  /** The budgeted recursion emits exactly the first `4 - |acc|` points of
      the unbounded pre-order, after acc: the budget only cuts the pre-order
      short, it never changes which points come first. */
  lemma {:induction false} SimplifyIsBudgetedSplitOrder(vs: seq<real>, ts: seq<real>, lo: nat, hi: nat, acc: seq<Reading>)
    requires Columns(vs, ts) && lo <= hi < |vs|
    ensures Simplify(vs, ts, lo, hi, acc)
         == acc + Take(PointsAt(vs, ts, SplitOrder(vs, ts, lo, hi)), Room(acc))
    decreases hi - lo
  {
    BudgetIsFour();
    if lo == hi || |acc| as real >= PointBudget {
    } else {
      match Split(vs, ts, lo, hi)
      case None =>
      case Some(i) =>
        var p := PointAt(vs, ts, i);
        var left := Simplify(vs, ts, lo, i, acc + [p]);
        var L := PointsAt(vs, ts, SplitOrder(vs, ts, lo, i));
        var R := PointsAt(vs, ts, SplitOrder(vs, ts, i, hi));
        SimplifyIsBudgetedSplitOrder(vs, ts, lo, i, acc + [p]);
        SimplifyIsBudgetedSplitOrder(vs, ts, i, hi, left);
        SplitOrderPoints(vs, ts, lo, hi, i);
        BudgetStep(acc, p, L, R, left);
    }
  }

  lemma SplitOrderPoints(vs: seq<real>, ts: seq<real>, lo: nat, hi: nat, i: nat)
    requires Columns(vs, ts) && lo <= hi < |vs|
    requires Split(vs, ts, lo, hi) == Some(i)
    ensures PointsAt(vs, ts, SplitOrder(vs, ts, lo, hi))
         == [PointAt(vs, ts, i)] + (PointsAt(vs, ts, SplitOrder(vs, ts, lo, i)) + PointsAt(vs, ts, SplitOrder(vs, ts, i, hi)))
  {
    var l := SplitOrder(vs, ts, lo, i);
    var r := SplitOrder(vs, ts, i, hi);
    var all := SplitOrder(vs, ts, lo, hi);
    assert all == [i] + l + r;
    var P := PointsAt(vs, ts, all);
    var L := PointsAt(vs, ts, l);
    var R := PointsAt(vs, ts, r);
    assert |P| == 1 + |L| + |R|;
    assert forall k :: 0 <= k < |P| ==> P[k] == ([PointAt(vs, ts, i)] + (L + R))[k];
  }

  /** The point budget: a call whose accumulator already holds four points,
      or whose range is a single point, returns the accumulator unchanged;
      starting from at most four points, the result never exceeds four, and
      the accumulator is never rewritten, only extended. */
  lemma SimplifyRespectsBudget(vs: seq<real>, ts: seq<real>, lo: nat, hi: nat, acc: seq<Reading>)
    requires Columns(vs, ts) && lo <= hi < |vs|
    ensures lo == hi || |acc| >= MaxPoints ==> Simplify(vs, ts, lo, hi, acc) == acc
    ensures |acc| <= MaxPoints ==> |Simplify(vs, ts, lo, hi, acc)| <= MaxPoints
    ensures Simplify(vs, ts, lo, hi, acc)[..|acc|] == acc
  {
    BudgetIsFour();
    SimplifyIsBudgetedSplitOrder(vs, ts, lo, hi, acc);
  }

  /** Every point the simplifier adds is an input pair `(vs[j], ts[j])`
      taken from strictly inside the range: the k-th added point is the one
      at the k-th index of the split order. */
  lemma SimplifiedPointsAreInteriorInputs(vs: seq<real>, ts: seq<real>, lo: nat, hi: nat, r: seq<Reading>)
    requires Columns(vs, ts) && lo <= hi < |vs|
    requires r == Simplify(vs, ts, lo, hi, [])
    ensures |r| <= |SplitOrder(vs, ts, lo, hi)|
    ensures forall k :: 0 <= k < |r| ==>
      lo < SplitOrder(vs, ts, lo, hi)[k] < hi && r[k] == PointAt(vs, ts, SplitOrder(vs, ts, lo, hi)[k])
  {
    SimplifyIsBudgetedSplitOrder(vs, ts, lo, hi, []);
  }

  /** The first point added by a call that splits, with room left, is its
      own split point, the point of largest deviation (lowest index on a
      tie); the call then goes on with the left range and then the right
      range. */
  lemma SimplifyStartsWithSplitPoint(vs: seq<real>, ts: seq<real>, lo: nat, hi: nat, acc: seq<Reading>, i: nat)
    requires Columns(vs, ts) && lo <= hi < |vs|
    requires Split(vs, ts, lo, hi) == Some(i) && |acc| < MaxPoints
    ensures |Simplify(vs, ts, lo, hi, acc)| > |acc|
    ensures Simplify(vs, ts, lo, hi, acc)[|acc|] == PointAt(vs, ts, i)
    ensures Simplify(vs, ts, lo, hi, acc)
         == Simplify(vs, ts, i, hi, Simplify(vs, ts, lo, i, acc + [PointAt(vs, ts, i)]))
  {
    BudgetIsFour();
    var p := PointAt(vs, ts, i);
    var L := PointsAt(vs, ts, SplitOrder(vs, ts, lo, i));
    var R := PointsAt(vs, ts, SplitOrder(vs, ts, i, hi));
    SimplifyIsBudgetedSplitOrder(vs, ts, lo, hi, acc);
    SplitOrderPoints(vs, ts, lo, hi, i);
    TakeCons(p, L + R, Room(acc));
    assert Simplify(vs, ts, lo, hi, acc) == acc + ([p] + Take(L + R, Room(acc) - 1));
  }

  predicate Distinct(s: seq<nat>) {
    forall a, b :: 0 <= a < b < |s| ==> s[a] != s[b]
  }

  /** No index is chosen twice: the split index separates the indices of
      the left range from those of the right range. */
  lemma {:induction false} SplitOrderDistinct(vs: seq<real>, ts: seq<real>, lo: nat, hi: nat)
    requires Columns(vs, ts) && lo <= hi < |vs|
    ensures Distinct(SplitOrder(vs, ts, lo, hi))
    decreases hi - lo
  {
    match Split(vs, ts, lo, hi)
    case None =>
    case Some(i) =>
      SplitOrderDistinct(vs, ts, lo, i);
      SplitOrderDistinct(vs, ts, i, hi);
      var l := SplitOrder(vs, ts, lo, i);
      var r := SplitOrder(vs, ts, i, hi);
      var s := [i] + l + r;
      assert SplitOrder(vs, ts, lo, hi) == s;
      assert forall x :: 0 <= x < |l| ==> l[x] < i;
      assert forall x :: 0 <= x < |r| ==> i < r[x];
      forall a, b | 0 <= a < b < |s| ensures s[a] != s[b] {
        if a == 0 {
          assert s[0] == i;
          if b <= |l| {
            assert s[b] == l[b - 1];
          } else {
            assert s[b] == r[b - 1 - |l|];
          }
        } else if b <= |l| {
          assert s[a] == l[a - 1] && s[b] == l[b - 1];
          assert l[a - 1] != l[b - 1];
        } else if a <= |l| {
          assert s[a] == l[a - 1] && s[b] == r[b - 1 - |l|];
        } else {
          assert s[a] == r[a - 1 - |l|] && s[b] == r[b - 1 - |l|];
          assert r[a - 1 - |l|] != r[b - 1 - |l|];
        }
      }
  }

  /** Points on one straight line `v = a + b * t` deviate from every chord
      by nothing. */
  lemma LineHasNoDeviation(vs: seq<real>, ts: seq<real>, lo: nat, hi: nat, a: real, b: real, k: nat)
    requires Columns(vs, ts) && lo <= hi < |vs| && ts[hi] != ts[lo] && k < |vs|
    requires vs[lo] == a + b * ts[lo] && vs[hi] == a + b * ts[hi] && vs[k] == a + b * ts[k]
    ensures Deviation(vs, ts, lo, hi, k) == 0.0
  {
    assert vs[hi] - vs[lo] == b * (ts[hi] - ts[lo]);
    assert Slope(vs, ts, lo, hi) == b;
  }

  /** A perfectly linear series selects nothing: the accumulator comes back
      unchanged. */
  lemma LinearSeriesSelectsNothing(vs: seq<real>, ts: seq<real>, lo: nat, hi: nat, a: real, b: real, acc: seq<Reading>)
    requires Columns(vs, ts) && lo <= hi < |vs|
    requires forall k :: lo <= k <= hi ==> vs[k] == a + b * ts[k]
    ensures SplitOrder(vs, ts, lo, hi) == []
    ensures Simplify(vs, ts, lo, hi, acc) == acc
  {
    SplitIsFirstMaximum(vs, ts, lo, hi);
    if Split(vs, ts, lo, hi).Some? {
      var i := Split(vs, ts, lo, hi).value;
      LineHasNoDeviation(vs, ts, lo, hi, a, b, i);
      assert false;
    }
    SimplifyIsBudgetedSplitOrder(vs, ts, lo, hi, acc);
  }

  /** The window `values = [10, 12, 14, 50, 16, 18, 20]` at times 0..6. */
  const ExampleValues: seq<real> := [10.0, 12.0, 14.0, 50.0, 16.0, 18.0, 20.0]
  const ExampleTimes: seq<real> := [0.0, 1.0, 2.0, 3.0, 4.0, 5.0, 6.0]

  lemma ExampleWholeSplit()
    ensures Split(ExampleValues, ExampleTimes, 0, 6) == Some(3)
  {
    var d := Deviations(ExampleValues, ExampleTimes, 0, 6);
    assert Slope(ExampleValues, ExampleTimes, 0, 6) == 10.0 / 6.0;
    assert d == [0.0, 1.0 / 3.0, 2.0 / 3.0, 35.0, 2.0 / 3.0, 1.0 / 3.0, 0.0];
    var i := ArgMax(d);
    assert d[i] >= d[3];
    assert i == 3;
  }

  lemma ExampleLeftSplit()
    ensures Split(ExampleValues, ExampleTimes, 0, 3) == Some(2)
  {
    var d := Deviations(ExampleValues, ExampleTimes, 0, 3);
    assert Slope(ExampleValues, ExampleTimes, 0, 3) == 40.0 / 3.0;
    assert d == [0.0, 34.0 / 3.0, 68.0 / 3.0, 0.0];
  }

  lemma ExampleRightSplit()
    ensures Split(ExampleValues, ExampleTimes, 3, 6) == Some(4)
  {
    var d := Deviations(ExampleValues, ExampleTimes, 3, 6);
    assert Slope(ExampleValues, ExampleTimes, 3, 6) == -10.0;
    assert d == [0.0, 24.0, 12.0, 0.0];
    var i := ArgMax(d);
    assert d[i] >= d[1];
    assert i == 1;
  }

  lemma ExampleLeftOrder(vs: seq<real>, ts: seq<real>)
    requires vs == ExampleValues && ts == ExampleTimes
    ensures SplitOrder(vs, ts, 0, 3) == [2]
  {
    ExampleLeftSplit();
    LinearSeriesSelectsNothing(vs, ts, 0, 2, 10.0, 2.0, []);
    LinearSeriesSelectsNothing(vs, ts, 2, 3, -58.0, 36.0, []);
  }

  lemma ExampleRightOrder(vs: seq<real>, ts: seq<real>)
    requires vs == ExampleValues && ts == ExampleTimes
    ensures SplitOrder(vs, ts, 3, 6) == [4]
  {
    ExampleRightSplit();
    LinearSeriesSelectsNothing(vs, ts, 3, 4, 152.0, -34.0, []);
    LinearSeriesSelectsNothing(vs, ts, 4, 6, 8.0, 2.0, []);
  }

  /** On the example window the split order is 3, then 2 from the left
      range, then 4 from the right range. */
  lemma ExampleSplitOrder(vs: seq<real>, ts: seq<real>)
    requires vs == ExampleValues && ts == ExampleTimes
    ensures SplitOrder(vs, ts, 0, 6) == [3, 2, 4]
  {
    ExampleWholeSplit();
    ExampleLeftOrder(vs, ts);
    ExampleRightOrder(vs, ts);
  }

  /** On the example window the outlier 50 is chosen first, then 14 from the
      left range, then 16 from the right range: the result is in pre-order,
      not in time order. */
  lemma ExamplePoints(vs: seq<real>, ts: seq<real>)
    requires vs == ExampleValues && ts == ExampleTimes
    ensures PointsAt(vs, ts, [3, 2, 4]) == [Reading(50.0, 3.0), Reading(14.0, 2.0), Reading(16.0, 4.0)]
  {
  }

  lemma OutlierExample(vs: seq<real>, ts: seq<real>)
    requires vs == ExampleValues && ts == ExampleTimes
    ensures Simplify(vs, ts, 0, 6, [])
         == [Reading(50.0, 3.0), Reading(14.0, 2.0), Reading(16.0, 4.0)]
  {
    ExampleSplitOrder(vs, ts);
    SimplifyIsBudgetedSplitOrder(vs, ts, 0, 6, []);
    assert Simplify(vs, ts, 0, 6, []) == PointsAt(vs, ts, [3, 2, 4]);
    ExamplePoints(vs, ts);
  }
}
