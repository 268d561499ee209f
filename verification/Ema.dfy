/** Exponential smoothing of a sampled signal over an irregular clock.

  Floating point is idealised to real numbers and times are real seconds; the exponential function is a parameter of
  which only its laws are used.
*/
module Ema {

  type Exponential = real -> real

  ghost predicate TurnsSumIntoProduct(exp: Exponential, a: real, b: real) {
    exp(a + b) == exp(a) * exp(b)
  }

  ghost predicate IsExponential(exp: Exponential) {
    && (forall a, b :: TurnsSumIntoProduct(exp, a, b))
    && (forall a :: 0.0 < exp(a))
    && (forall a :: a < 0.0 ==> exp(a) < 1.0)
  }

  datatype State = State(tau: real, value: real, last: real, init: bool)

  datatype Sample = Sample(x: real, time: real)

  /** How much of the old value survives. */
  function Decay(exp: Exponential, tau: real, dt: real): real
    requires tau > 0.0
  {
    exp(-dt / tau)
  }

  /** The sample with weight alpha, the rest of the old value. */
  function Mixed(alpha: real, x: real, value: real): real {
    alpha * x + (1.0 - alpha) * value
  }

  /** The old value's distance from the sample, shrunk to the part w. */
  function Towards(x: real, value: real, w: real): real {
    x + (value - x) * w
  }

  lemma MixedIsTowards(w: real, x: real, value: real)
    ensures Mixed(1.0 - w, x, value) == Towards(x, value, w)
  {
    assert 1.0 - (1.0 - w) == w;
    assert (1.0 - w) * x == x - w * x && (value - x) * w == w * value - w * x;
  }

  function Updated(exp: Exponential, e: State, x: real, now: real): (r: State)
    requires e.tau > 0.0
    ensures r.init && r.tau == e.tau
  {
    if !e.init then
      e.(value := x, last := now, init := true)
    else if now - e.last <= 0.0 then
      e
    else
      e.(value := Towards(x, e.value, Decay(exp, e.tau, now - e.last)), last := now)
  }

  class EMA {
    var tau: real
    var value: real
    var last: real
    var init: bool

    ghost function Contents(): State
      reads this
    {
      State(tau, value, last, init)
    }

    constructor (tau: real)
      requires tau > 0.0
      ensures !init && this.tau == tau
    {
      this.tau := tau;
      value, last, init := 0.0, 0.0, false;
    }

    method Update(exp: Exponential, x: real, now: real) returns (r: real)
      requires tau > 0.0
      modifies this
      ensures Contents() == Updated(exp, old(Contents()), x, now)
      ensures r == value
    {
      ghost var e := Contents();
      if !init {
        value := x;
        last := now;
        init := true;
        return value;
      }
      var dt := now - last;
      if dt <= 0.0 {
        return value;
      }
      var survives := exp(-dt / tau);
      assert survives == Decay(exp, e.tau, dt);
      MixedIsTowards(survives, x, value);
      var alpha := 1.0 - survives;
      value := Mixed(alpha, x, value);
      last := now;
      return value;
    }
  }

  /** The share of the old value's distance from the input that an update leaves: after one time constant exp(-1). */
  lemma DistanceLeft(exp: Exponential, e: State, x: real, now: real)
    requires e.tau > 0.0 && e.init && now > e.last
    ensures Updated(exp, e, x, now).value - x == (e.value - x) * exp(-(now - e.last) / e.tau)
    ensures now == e.last + e.tau ==> Updated(exp, e, x, now).value - x == (e.value - x) * exp(-1.0)
  {
    assert now == e.last + e.tau ==> -(now - e.last) / e.tau == -1.0;
  }

  function After(exp: Exponential, e: State, samples: seq<Sample>): (r: State)
    requires e.tau > 0.0
    ensures r.tau == e.tau
    ensures samples != [] ==> r.init
  {
    if samples == [] then
      e
    else
      var n := |samples| - 1;
      Updated(exp, After(exp, e, samples[..n]), samples[n].x, samples[n].time)
  }

  // ---------------------------------------------------------------- bounds

  lemma ProductIsNonNegative(a: real, b: real)
    requires a >= 0.0 && b >= 0.0
    ensures a * b >= 0.0
  {
  }

  lemma MixtureStaysBetween(w: real, x: real, value: real, lo: real, hi: real)
    requires 0.0 <= w <= 1.0 && lo <= x <= hi && lo <= value <= hi
    ensures lo <= Towards(x, value, w) <= hi
  {
    assert Towards(x, value, w) - lo == (x - lo) * (1.0 - w) + (value - lo) * w;
    assert hi - Towards(x, value, w) == (hi - x) * (1.0 - w) + (hi - value) * w;
    ProductIsNonNegative(x - lo, 1.0 - w);
    ProductIsNonNegative(value - lo, w);
    ProductIsNonNegative(hi - x, 1.0 - w);
    ProductIsNonNegative(hi - value, w);
  }

  lemma DecayIsFraction(exp: Exponential, tau: real, dt: real)
    requires IsExponential(exp) && tau > 0.0 && dt > 0.0
    ensures 0.0 < Decay(exp, tau, dt) < 1.0
  {
    assert dt / tau > 0.0;
  }

  lemma UpdateStaysBetween(exp: Exponential, e: State, s: Sample, lo: real, hi: real)
    requires IsExponential(exp) && e.tau > 0.0 && lo <= s.x <= hi
    requires e.init ==> lo <= e.value <= hi
    ensures lo <= Updated(exp, e, s.x, s.time).value <= hi
  {
    var dt := s.time - e.last;
    if e.init && dt > 0.0 {
      var w := Decay(exp, e.tau, dt);
      DecayIsFraction(exp, e.tau, dt);
      MixtureStaysBetween(w, s.x, e.value, lo, hi);
      assert Updated(exp, e, s.x, s.time).value == Towards(s.x, e.value, w);
    }
  }

  /** Whatever the clock does, the value never leaves the range of the samples seen. */
  lemma {:induction false} StaysWithinSamples(exp: Exponential, e: State, samples: seq<Sample>, lo: real, hi: real)
    requires IsExponential(exp) && e.tau > 0.0 && !e.init && samples != []
    requires forall s :: s in samples ==> lo <= s.x <= hi
    ensures lo <= After(exp, e, samples).value <= hi
  {
    var n := |samples| - 1;
    var front, s := samples[..n], samples[n];
    var before := After(exp, e, front);
    assert s in samples;
    if n > 0 {
      StaysWithinSamples(exp, e, front, lo, hi);
    }
    UpdateStaysBetween(exp, before, s, lo, hi);
  }

  // ---------------------------------------------------------------- subdivision

  function Latest(last: real, times: seq<real>): real {
    if times == [] then
      last
    else
      var n := |times| - 1;
      var rest := Latest(last, times[..n]);
      if rest < times[n] then times[n] else rest
  }

  /** The same input at each of these times. */
  function Constant(x: real, times: seq<real>): (r: seq<Sample>)
    ensures |r| == |times|
  {
    if times == [] then [] else Constant(x, times[..|times| - 1]) + [Sample(x, times[|times| - 1])]
  }

  lemma DecayComposes(exp: Exponential, tau: real, a: real, b: real)
    requires IsExponential(exp) && tau > 0.0
    ensures Decay(exp, tau, a) * Decay(exp, tau, b) == Decay(exp, tau, a + b)
  {
    var p, q := -a / tau, -b / tau;
    assert p * tau == -a && q * tau == -b;
    assert (p + q) * tau == -(a + b);
    assert p + q == -(a + b) / tau;
    assert TurnsSumIntoProduct(exp, p, q);
  }

  lemma TwoUpdatesAreOne(exp: Exponential, e: State, x: real, a: real, b: real)
    requires IsExponential(exp) && e.tau > 0.0 && e.init && e.last <= a < b
    ensures Updated(exp, Updated(exp, e, x, a), x, b) == Updated(exp, e, x, b)
  {
    if e.last < a {
      var first, second := Decay(exp, e.tau, a - e.last), Decay(exp, e.tau, b - a);
      DecayComposes(exp, e.tau, a - e.last, b - a);
      assert (a - e.last) + (b - a) == b - e.last;
      TowardsTwice(x, e.value, first, second);
    }
  }

  lemma TowardsTwice(x: real, value: real, first: real, second: real)
    ensures Towards(x, Towards(x, value, first), second) == Towards(x, value, first * second)
  {
    var d := value - x;
    assert (d * first) * second == d * (first * second);
  }

  /** A constant input, however its interval is subdivided and in whatever order the times come, leaves exactly what one
      update at the latest time leaves. */
  lemma {:induction false} SubdivisionIsOneUpdate(exp: Exponential, e: State, x: real, times: seq<real>)
    requires IsExponential(exp) && e.tau > 0.0 && e.init
    ensures Latest(e.last, times) >= e.last
    ensures After(exp, e, Constant(x, times)) == Updated(exp, e, x, Latest(e.last, times))
  {
    if times != [] {
      var n := |times| - 1;
      SubdivisionIsOneUpdate(exp, e, x, times[..n]);
      assert Constant(x, times)[..n] == Constant(x, times[..n]);
      var soFar := Latest(e.last, times[..n]);
      if soFar < times[n] {
        TwoUpdatesAreOne(exp, e, x, soFar, times[n]);
      }
    }
  }
}
