/**
 * Temperature aggregation (`current_temperature`): the mean of the
 * readings of every configured sensor, rounded to one decimal, or 0.0 when
 * no sensor is configured.
 */
module Sensors {
  import opened Wrappers

  /** The sum of the readings of `sensors`, accumulated left to right as the
      loop in the app does; None when some sensor has no numeric reading
      (the app's `float(get_state(s))` raises there). */
  function Sum(sensors: seq<string>, readings: map<string, real>): Option<real>
    decreases |sensors|
  {
    if sensors == [] then Some(0.0)
    else
      var last := sensors[|sensors| - 1];
      match Sum(sensors[..|sensors| - 1], readings)
      case None => None
      case Some(t) => if last in readings then Some(t + readings[last]) else None
  }

  /** Python's `round(x, 1)` on exact reals: the nearest multiple of 0.1,
      ties going to the even multiple. */
  function Round1(x: real): (r: real)
    ensures ((r * 10.0).Floor as real) == r * 10.0
    ensures -0.05 <= r - x <= 0.05
  {
    var scaled := x * 10.0;
    var k := scaled.Floor;
    var frac := scaled - k as real;
    var n := if frac < 0.5 then k
             else if frac > 0.5 then k + 1
             else if k % 2 == 0 then k else k + 1;
    n as real / 10.0
  }

  /** The value `current_temperature` returns: 0.0 without sensors, otherwise
      the rounded mean of all readings, or None when a reading is not a
      number. */
  function Temperature(sensors: seq<string>, readings: map<string, real>): Option<real> {
    if |sensors| == 0 then Some(0.0)
    else
      match Sum(sensors, readings)
      case None => None
      case Some(t) => Some(Round1(t / |sensors| as real))
  }

  /** Summing fails exactly when some configured sensor has no numeric reading. */
  lemma {:induction false} SumDefinedIff(sensors: seq<string>, readings: map<string, real>)
    ensures Sum(sensors, readings).Some? <==> forall i :: 0 <= i < |sensors| ==> sensors[i] in readings
  {
    if sensors != [] {
      var init := sensors[..|sensors| - 1];
      SumDefinedIff(init, readings);
      assert forall i :: 0 <= i < |init| ==> init[i] == sensors[i];
    }
  }

  /** When every reading lies in [lo, hi], so does their sum divided by
      their count. */
  lemma {:induction false} SumBounded(sensors: seq<string>, readings: map<string, real>, lo: real, hi: real)
    requires forall i :: 0 <= i < |sensors| ==> sensors[i] in readings && lo <= readings[sensors[i]] <= hi
    ensures Sum(sensors, readings).Some?
    ensures lo * |sensors| as real <= Sum(sensors, readings).value <= hi * |sensors| as real
  {
    if sensors != [] {
      var init := sensors[..|sensors| - 1];
      assert forall i :: 0 <= i < |init| ==> init[i] == sensors[i];
      SumBounded(init, readings, lo, hi);
      var n := |init| as real;
      assert lo * (n + 1.0) == lo * n + lo;
      assert hi * (n + 1.0) == hi * n + hi;
    }
  }

  /** The unrounded mean lies between the lowest and the highest reading,
      and the published temperature is within 0.05 of it. */
  lemma MeanBounded(sensors: seq<string>, readings: map<string, real>, lo: real, hi: real)
    requires |sensors| > 0
    requires forall i :: 0 <= i < |sensors| ==> sensors[i] in readings && lo <= readings[sensors[i]] <= hi
    ensures Temperature(sensors, readings).Some?
    ensures var mean := Sum(sensors, readings).value / |sensors| as real;
      lo <= mean <= hi && -0.05 <= Temperature(sensors, readings).value - mean <= 0.05
  {
    SumBounded(sensors, readings, lo, hi);
    var n := |sensors| as real;
    var t := Sum(sensors, readings).value;
    assert lo * n <= t <= hi * n;
    DivideBounds(t, n, lo, hi);
  }

  lemma DivideBounds(t: real, n: real, lo: real, hi: real)
    requires n > 0.0 && lo * n <= t <= hi * n
    ensures lo <= t / n <= hi
  {
  }

  /** Round1 picks the nearest multiple of 0.1: no other multiple is closer. */
  lemma Round1Nearest(x: real, m: int)
    ensures Abs(Round1(x) - x) <= Abs(m as real / 10.0 - x)
  {
    var scaled := x * 10.0;
    var k := scaled.Floor;
    var frac := scaled - k as real;
    assert 0.0 <= frac < 1.0;
    if m <= k {
      assert m as real / 10.0 - x == (m as real - scaled) / 10.0;
    } else {
      assert m as real / 10.0 - x == (m as real - scaled) / 10.0;
    }
  }

  /** A value that is already a whole number of tenths is not changed by
      rounding. */
  lemma Round1Exact(m: int)
    ensures Round1(m as real / 10.0) == m as real / 10.0
  {
  }

  function Abs(x: real): real { if x < 0.0 then -x else x }
}
