/** The distance handler `distance_log_handler`: it cleans one window of
    sonar readings, simplifies it and reports an odometer record for every
    simplified point and for the last reading of the window. */
module DistanceHandler {
  import opened Telemetry
  import opened Simplifier

  /** A reading survives the filter when its timestamp is set and its
      distance is below the sanity bound. */
  predicate Usable(r: Reading) {
    r.time != 0.0 && r.value < SanityBound
  }

  /** The comprehension over the window: the usable readings, in order. */
  function KeepUsable(window: seq<Reading>): (kept: seq<Reading>)
    ensures |kept| <= |window|
    ensures forall k :: 0 <= k < |kept| ==> Usable(kept[k]) && kept[k] in window
  {
    if window == [] then []
    else
      var rest := KeepUsable(window[1..]);
      if Usable(window[0]) then [window[0]] + rest else rest
  }

  /** The filter keeps exactly the usable readings: each one as often as
      the window holds it, and nothing else. */
  lemma {:induction false} KeepUsableExactly(window: seq<Reading>)
    ensures forall x :: multiset(KeepUsable(window))[x] == if Usable(x) then multiset(window)[x] else 0
  {
    if window != [] {
      KeepUsableExactly(window[1..]);
      assert window == [window[0]] + window[1..];
    }
  }

  /** The filter keeps the window's order: filtering two pieces and joining
      the results is filtering the joined window. */
  lemma {:induction false} KeepUsableConcat(a: seq<Reading>, b: seq<Reading>)
    ensures KeepUsable(a + b) == KeepUsable(a) + KeepUsable(b)
  {
    if a == [] {
      assert a + b == b;
    } else {
      assert (a + b)[0] == a[0];
      assert (a + b)[1..] == a[1..] + b;
      KeepUsableConcat(a[1..], b);
    }
  }

  /** No reading of the window is usable. */
  predicate NoneUsable(window: seq<Reading>) {
    KeepUsable(window) == []
  }

  /** The last kept reading is the window's last usable reading: the one
      after which no reading is usable. */
  lemma KeepUsableLast(window: seq<Reading>, j: nat)
    requires j < |window| && Usable(window[j]) && NoneUsable(window[j + 1..])
    ensures |KeepUsable(window)| > 0 && KeepUsable(window)[|KeepUsable(window)| - 1] == window[j]
  {
    assert window == window[..j] + [window[j]] + window[j + 1..];
    KeepUsableConcat(window[..j] + [window[j]], window[j + 1..]);
    KeepUsableConcat(window[..j], [window[j]]);
  }

  /** The distance column `readings[:, 0]`. */
  function Distances(rs: seq<Reading>): (vs: seq<real>)
    ensures |vs| == |rs| && forall k :: 0 <= k < |rs| ==> vs[k] == rs[k].value
  {
    seq(|rs|, k requires 0 <= k < |rs| => rs[k].value)
  }

  /** The timestamp column `readings[:, 1]`. */
  function Times(rs: seq<Reading>): (ts: seq<real>)
    ensures |ts| == |rs| && forall k :: 0 <= k < |rs| ==> ts[k] == rs[k].time
  {
    seq(|rs|, k requires 0 <= k < |rs| => rs[k].time)
  }

  /** The odometer record of one logged point: its distance times ten,
      truncated toward zero, at the point's own time. */
  function OdometerRecord(p: Reading): (r: Record)
    ensures r.code == OdometerCode && r.time == p.time
    ensures p.value >= 0.0 ==> r.value as real <= 10.0 * p.value < r.value as real + 1.0
  {
    Record(OdometerCode, Trunc(p.value * 10.0), p.time)
  }

  function OdometerRecords(ps: seq<Reading>): (rs: seq<Record>)
    ensures |rs| == |ps| && forall k :: 0 <= k < |ps| ==> rs[k] == OdometerRecord(ps[k])
  {
    seq(|ps|, k requires 0 <= k < |ps| => OdometerRecord(ps[k]))
  }

  /** What the handler does with a window: it returns False when fewer than
      three readings survive, and otherwise logs these points. */
  datatype Outcome = TooFewReadings | Logged(points: seq<Reading>, records: seq<Record>)

  /** `distance_log_handler(window)`. */
  function HandleWindow(window: seq<Reading>): (o: Outcome)
    ensures o.TooFewReadings? <==> |KeepUsable(window)| < 3
    ensures o.Logged? ==>
      var kept := KeepUsable(window);
      var n := |o.points|;
      2 <= |kept| && 1 <= n <= MaxPoints + 1 &&
      o.points[n - 1] == kept[|kept| - 1] &&
      o.points[..n - 1] == Simplify(Distances(kept), Times(kept), 0, |kept| - 1, []) &&
      o.records == OdometerRecords(o.points)
  {
    var kept := KeepUsable(window);
    if |kept| < 3 then TooFewReadings
    else
      var vs, ts := Distances(kept), Times(kept);
      var simplified := Simplify(vs, ts, 0, |kept| - 1, []);
      SimplifyRespectsBudget(vs, ts, 0, |kept| - 1, []);
      var points := simplified + [kept[|kept| - 1]];
      assert points[..|points| - 1] == simplified;
      Logged(points, OdometerRecords(points))
  }

  /** Readings picked at interior positions of a cleaned window are readings
      from strictly inside it. */
  lemma PickedAreInterior(kept: seq<Reading>, vs: seq<real>, ts: seq<real>, s: seq<nat>, ps: seq<Reading>)
    requires |kept| >= 2 && vs == Distances(kept) && ts == Times(kept)
    requires |ps| <= |s|
    requires forall k :: 0 <= k < |ps| ==> 0 < s[k] < |kept| - 1 && ps[k] == PointAt(vs, ts, s[k])
    ensures forall k :: 0 <= k < |ps| ==> ps[k] in kept[1..|kept| - 1] && ps[k] in kept
  {
    forall k | 0 <= k < |ps| ensures ps[k] in kept[1..|kept| - 1] && ps[k] in kept {
      var j := s[k];
      assert ps[k] == kept[j];
      assert kept[1..|kept| - 1][j - 1] == kept[j];
    }
  }

  /** The simplified points of a cleaned window are readings from strictly
      inside it: never its first or its last reading's position. */
  lemma SimplifiedAreInteriorReadings(kept: seq<Reading>, vs: seq<real>, ts: seq<real>, ps: seq<Reading>)
    requires |kept| >= 2 && vs == Distances(kept) && ts == Times(kept)
    requires ps == Simplify(vs, ts, 0, |kept| - 1, [])
    ensures forall k :: 0 <= k < |ps| ==> ps[k] in kept[1..|kept| - 1] && ps[k] in kept
  {
    SimplifiedPointsAreInteriorInputs(vs, ts, 0, |kept| - 1, ps);
    PickedAreInterior(kept, vs, ts, SplitOrder(vs, ts, 0, |kept| - 1), ps);
  }

  /** Points made of interior readings of the cleaned window and, last, its
      last reading are all usable readings of the raw window. */
  lemma CleanedPointsAreUsable(window: seq<Reading>, kept: seq<Reading>, ps: seq<Reading>)
    requires kept == KeepUsable(window) && |kept| >= 2 && |ps| >= 1
    requires ps[|ps| - 1] == kept[|kept| - 1]
    requires forall k :: 0 <= k < |ps| - 1 ==> ps[k] in kept
    ensures forall k :: 0 <= k < |ps| ==> ps[k] in window && Usable(ps[k])
  {
    forall k | 0 <= k < |ps| ensures ps[k] in window && Usable(ps[k]) {
      assert ps[k] in kept;
    }
  }

  /** Every logged point is a usable reading of the window; all but the last
      come from strictly inside the cleaned window (for the last, see
      LastLoggedIsLastUsable). */
  lemma LoggedPointsAreUsableReadings(window: seq<Reading>)
    requires HandleWindow(window).Logged?
    ensures forall k :: 0 <= k < |HandleWindow(window).points| ==>
      HandleWindow(window).points[k] in window && Usable(HandleWindow(window).points[k])
    ensures forall k :: 0 <= k < |HandleWindow(window).points| - 1 ==>
      HandleWindow(window).points[k] in KeepUsable(window)[1..|KeepUsable(window)| - 1]
  {
    var kept := KeepUsable(window);
    var ps := HandleWindow(window).points;
    var simplified := ps[..|ps| - 1];
    SimplifiedAreInteriorReadings(kept, Distances(kept), Times(kept), simplified);
    assert forall k :: 0 <= k < |ps| - 1 ==> ps[k] == simplified[k];
    CleanedPointsAreUsable(window, kept, ps);
  }

  /** The last logged point is the window's last usable reading. */
  lemma LastLoggedIsLastUsable(window: seq<Reading>, j: nat)
    requires HandleWindow(window).Logged?
    requires j < |window| && Usable(window[j]) && NoneUsable(window[j + 1..])
    ensures HandleWindow(window).points[|HandleWindow(window).points| - 1] == window[j]
  {
    KeepUsableLast(window, j);
  }

  /** The window `values = [10, 12, 14, 50, 16, 18, 20]` at times 0..6. */
  const ExampleWindow: seq<Reading> := [Reading(10.0, 0.0), Reading(12.0, 1.0), Reading(14.0, 2.0),
    Reading(50.0, 3.0), Reading(16.0, 4.0), Reading(18.0, 5.0), Reading(20.0, 6.0)]

  /** A window of usable readings passes the filter whole. */
  lemma {:induction false} AllUsableKept(w: seq<Reading>)
    requires forall k :: 0 <= k < |w| ==> Usable(w[k])
    ensures KeepUsable(w) == w
  {
    if w != [] {
      AllUsableKept(w[1..]);
    }
  }

  /** The reading stamped at time 0 counts as missing and is dropped. */
  lemma ExampleKept(window: seq<Reading>)
    requires window == ExampleWindow
    ensures KeepUsable(window) == window[1..]
  {
    assert !Usable(window[0]);
    AllUsableKept(window[1..]);
  }

  lemma ExampleKeptSplits(vs: seq<real>, ts: seq<real>)
    requires vs == [12.0, 14.0, 50.0, 16.0, 18.0, 20.0] && ts == [1.0, 2.0, 3.0, 4.0, 5.0, 6.0]
    ensures Split(vs, ts, 0, 5) == Some(2)
    ensures Split(vs, ts, 0, 2) == None
    ensures Split(vs, ts, 2, 5) == Some(3)
  {
    var d := Deviations(vs, ts, 0, 5);
    assert Slope(vs, ts, 0, 5) == 1.6;
    assert d == [0.0, 0.4, 34.8, 0.8, 0.4, 0.0];
    var i := ArgMax(d);
    assert d[i] >= d[2];
    assert i == 2;
    var l := Deviations(vs, ts, 0, 2);
    assert Slope(vs, ts, 0, 2) == 19.0;
    assert l == [0.0, 17.0, 0.0];
    var r := Deviations(vs, ts, 2, 5);
    assert Slope(vs, ts, 2, 5) == -10.0;
    assert r == [0.0, 24.0, 12.0, 0.0];
    var j := ArgMax(r);
    assert r[j] >= r[1];
    assert j == 1;
  }

  lemma ExampleKeptOrder(vs: seq<real>, ts: seq<real>)
    requires vs == [12.0, 14.0, 50.0, 16.0, 18.0, 20.0] && ts == [1.0, 2.0, 3.0, 4.0, 5.0, 6.0]
    ensures SplitOrder(vs, ts, 0, 5) == [2, 3]
  {
    ExampleKeptSplits(vs, ts);
    assert SplitOrder(vs, ts, 0, 2) == [];
    LinearSeriesSelectsNothing(vs, ts, 2, 3, 152.0, -34.0, []);
    LinearSeriesSelectsNothing(vs, ts, 3, 5, 8.0, 2.0, []);
  }

  /** The example window after the filter (distances 12 to 20 at times 1 to
      6) simplifies to the outlier 50 and then 16, from the range to its
      right; the handler then appends the last reading, 20 at time 6. */
  lemma ExampleKeptSimplified(vs: seq<real>, ts: seq<real>)
    requires vs == [12.0, 14.0, 50.0, 16.0, 18.0, 20.0] && ts == [1.0, 2.0, 3.0, 4.0, 5.0, 6.0]
    ensures Simplify(vs, ts, 0, 5, []) == [Reading(50.0, 3.0), Reading(16.0, 4.0)]
  {
    ExampleKeptOrder(vs, ts);
    SimplifyIsBudgetedSplitOrder(vs, ts, 0, 5, []);
    assert Simplify(vs, ts, 0, 5, []) == PointsAt(vs, ts, [2, 3]);
    ExampleKeptPoints(vs, ts);
  }

  /** The columns of the cleaned example window. */
  lemma ExampleKeptColumns(kept: seq<Reading>)
    requires kept == ExampleWindow[1..]
    ensures Distances(kept) == [12.0, 14.0, 50.0, 16.0, 18.0, 20.0]
    ensures Times(kept) == [1.0, 2.0, 3.0, 4.0, 5.0, 6.0]
  {
  }

  /** The points the handler logs for the example window: the reading at
      time 0 is dropped, the outlier 50 and then 16 are simplified out of the
      rest, and the last reading, 20 at time 6, is appended. */
  lemma ExampleLoggedPoints(window: seq<Reading>)
    requires window == ExampleWindow
    ensures HandleWindow(window).Logged?
    ensures HandleWindow(window).points == [Reading(50.0, 3.0), Reading(16.0, 4.0), Reading(20.0, 6.0)]
  {
    ExampleKept(window);
    var kept := KeepUsable(window);
    ExampleKeptColumns(kept);
    ExampleKeptSimplified(Distances(kept), Times(kept));
    var ps := HandleWindow(window).points;
    assert ps[..|ps| - 1] == [Reading(50.0, 3.0), Reading(16.0, 4.0)];
    assert ps == ps[..|ps| - 1] + [ps[|ps| - 1]];
  }

  /** The handler on the example window logs (50,3), (16,4), (20,6) and
      reports each point as ten times its distance. */
  lemma ExampleHandled(window: seq<Reading>)
    requires window == ExampleWindow
    ensures HandleWindow(window) == Logged([Reading(50.0, 3.0), Reading(16.0, 4.0), Reading(20.0, 6.0)],
      [Record(OdometerCode, 500, 3.0), Record(OdometerCode, 160, 4.0), Record(OdometerCode, 200, 6.0)])
  {
    ExampleLoggedPoints(window);
    ExampleOdometer(HandleWindow(window).points);
  }

  /** The odometer records of the example's logged points. */
  lemma ExampleOdometer(ps: seq<Reading>)
    requires ps == [Reading(50.0, 3.0), Reading(16.0, 4.0), Reading(20.0, 6.0)]
    ensures OdometerRecords(ps) ==
      [Record(OdometerCode, 500, 3.0), Record(OdometerCode, 160, 4.0), Record(OdometerCode, 200, 6.0)]
  {
  }

  lemma ExampleKeptPoints(vs: seq<real>, ts: seq<real>)
    requires vs == [12.0, 14.0, 50.0, 16.0, 18.0, 20.0] && ts == [1.0, 2.0, 3.0, 4.0, 5.0, 6.0]
    ensures PointsAt(vs, ts, [2, 3]) == [Reading(50.0, 3.0), Reading(16.0, 4.0)]
  {
  }
}
