/** Signal transforms applied along graph edges
    (the headers under include/fluxgraph/transform). Values are reals. */
module Transforms {
  import opened Types

  function Max0(n: int): nat { if n < 0 then 0 else n }

  // ---------------------------------------------------------------------------
  // Stateless transforms

  /** SaturationTransform::apply: `std::clamp(input, min, max)`; `dt` plays no part. */
  function Saturate(input: real, min: real, max: real): (r: real)
    ensures min <= input <= max ==> r == input
    ensures min <= max && input > max ==> r == max
    ensures min <= max && input < min ==> r == min
    ensures min <= max ==> min <= r <= max
  {
    Clamp(input, min, max)
  }

  /** DeadbandTransform::apply: inputs whose magnitude is below the threshold
      become 0.0, all others (including exactly at the threshold) pass. */
  function Deadband(input: real, threshold: real): (r: real)
    ensures (if input < 0.0 then -input else input) < threshold ==> r == 0.0
    ensures (if input < 0.0 then -input else input) >= threshold ==> r == input
    ensures r == 0.0 || r == input
    ensures threshold <= 0.0 ==> r == input
  {
    var magnitude := if input < 0.0 then -input else input;
    if magnitude < threshold then 0.0 else input
  }

  /** `std::clamp` against optional bounds: an absent bound is an infinity,
      which never clamps. */
  function ClampOpt(v: real, lo: Option<real>, hi: Option<real>): (r: real)
    ensures lo.None? && hi.None? ==> r == v
    ensures lo.Some? && hi.Some? ==> r == Clamp(v, lo.value, hi.value)
    ensures lo.Some? && hi.Some? && lo.value <= hi.value ==> lo.value <= r <= hi.value
    ensures lo.Some? && hi.None? ==> r == (if v < lo.value then lo.value else v)
    ensures lo.None? && hi.Some? ==> r == (if hi.value < v then hi.value else v)
  {
    if lo.Some? && v < lo.value then lo.value
    else if hi.Some? && hi.value < v then hi.value
    else v
  }

  /** LinearTransform::apply: `clamp(scale * input + offset, clamp_min, clamp_max)`. */
  function Linear(input: real, scale: real, offset: real, clampMin: Option<real>, clampMax: Option<real>): (r: real)
    ensures clampMin.None? && clampMax.None? ==> r == scale * input + offset
    ensures clampMin.Some? && clampMax.Some? && clampMin.value <= clampMax.value ==>
      clampMin.value <= r <= clampMax.value
    ensures clampMin.Some? && clampMax.Some? && clampMin.value <= scale * input + offset <= clampMax.value ==>
      r == scale * input + offset
  {
    ClampOpt(scale * input + offset, clampMin, clampMax)
  }

  // ---------------------------------------------------------------------------
  // DelayTransform: a FIFO delay line

  /** The number of samples the delay line holds; a computed 0 is raised to 1. */
  function RequiredSamples(truncated: nat): (r: nat)
    ensures r >= 1
    ensures truncated >= 1 ==> r == truncated
  {
    if truncated == 0 then 1 else truncated
  }

  /** One `apply`: the new buffer and the output. `truncated` is
      `static_cast<size_t>(delay_sec / dt + 0.5)`. */
  function DelayStep(delaySec: real, buffer: seq<real>, input: real, truncated: nat): (res: (seq<real>, real))
    ensures delaySec <= 0.0 ==> res == (buffer, input)
    ensures delaySec > 0.0 ==> res.1 == (buffer + [input])[0]
    ensures delaySec > 0.0 && |buffer| <= RequiredSamples(truncated) ==> |res.0| <= RequiredSamples(truncated)
    ensures delaySec > 0.0 ==> |res.0| >= 1 && res.0[|res.0| - 1] == input
  {
    if delaySec <= 0.0 then (buffer, input)
    else
      var r := RequiredSamples(truncated);
      var b := buffer + [input];
      if |b| > r then (b[1..], b[0]) else (b, b[0])
  }

  /** The outputs of successive `apply` calls with a fixed sample count. */
  function DelayRun(delaySec: real, truncated: nat, buffer: seq<real>, xs: seq<real>): (outs: seq<real>)
    ensures |outs| == |xs|
    decreases |xs|
  {
    if xs == [] then []
    else
      var (b, y) := DelayStep(delaySec, buffer, xs[0], truncated);
      [y] + DelayRun(delaySec, truncated, b, xs[1..])
  }

  /** With a buffer holding the last r inputs of a history, the k-th further
      call returns the input seen r calls earlier (or the first one). */
  lemma {:induction false} DelayRunFromHistory(delaySec: real, truncated: nat, hist: seq<real>, buffer: seq<real>,
                                               xs: seq<real>, k: nat)
    requires delaySec > 0.0 && k < |xs|
    requires buffer == hist[Max0(|hist| - RequiredSamples(truncated))..]
    ensures DelayRun(delaySec, truncated, buffer, xs)[k] == (hist + xs)[Max0(|hist| + k - RequiredSamples(truncated))]
    decreases |xs|
  {
    if k > 0 {
      var hist' := hist + [xs[0]];
      var b := DelayStep(delaySec, buffer, xs[0], truncated).0;
      DelayRunTail(delaySec, truncated, buffer, xs, k);
      DelaySlides(delaySec, truncated, hist, xs[0]);
      DelayRunFromHistory(delaySec, truncated, hist', b, xs[1..], k - 1);
      SnocShift(hist, xs, Max0(|hist| + k - RequiredSamples(truncated)));
    } else {
      DelayFirstOutput(delaySec, truncated, hist, xs);
    }
  }

  /** The first further call returns the input seen r calls earlier, or the
      oldest one there is. */
  lemma DelayFirstOutput(delaySec: real, truncated: nat, hist: seq<real>, xs: seq<real>)
    requires delaySec > 0.0 && |xs| > 0
    ensures var r := RequiredSamples(truncated);
      DelayRun(delaySec, truncated, hist[Max0(|hist| - r)..], xs)[0] == (hist + xs)[Max0(|hist| - r)]
  {
    var r := RequiredSamples(truncated);
    var buffer := hist[Max0(|hist| - r)..];
    DelayRunHead(delaySec, truncated, buffer, xs);
    assert DelayStep(delaySec, buffer, xs[0], truncated).1 == (buffer + [xs[0]])[0];
    if |hist| >= r {
      assert buffer[0] == hist[|hist| - r];
    } else {
      assert buffer == hist;
    }
  }

  /** Moving the first input into the history leaves every position alone. */
  lemma SnocShift(hist: seq<real>, xs: seq<real>, i: nat)
    requires |xs| > 0 && i < |hist| + |xs|
    ensures (hist + [xs[0]] + xs[1..])[i] == (hist + xs)[i]
  {
    assert hist + [xs[0]] + xs[1..] == hist + xs;
  }

  /** The first output of a run is that of its first call. */
  lemma DelayRunHead(delaySec: real, truncated: nat, buffer: seq<real>, xs: seq<real>)
    requires |xs| > 0
    ensures DelayRun(delaySec, truncated, buffer, xs)[0] == DelayStep(delaySec, buffer, xs[0], truncated).1
  {
  }

  /** Later outputs of a run are those of the run from the buffer the first
      call leaves. */
  lemma DelayRunTail(delaySec: real, truncated: nat, buffer: seq<real>, xs: seq<real>, k: nat)
    requires 0 < k < |xs|
    ensures DelayRun(delaySec, truncated, buffer, xs)[k]
         == DelayRun(delaySec, truncated, DelayStep(delaySec, buffer, xs[0], truncated).0, xs[1..])[k - 1]
  {
  }

  /** A buffer holding the last r inputs of a history holds, one call later,
      the last r inputs of the history extended by that call's input. */
  lemma DelaySlides(delaySec: real, truncated: nat, hist: seq<real>, x: real)
    requires delaySec > 0.0
    ensures var r := RequiredSamples(truncated);
      var hist' := hist + [x];
      DelayStep(delaySec, hist[Max0(|hist| - r)..], x, truncated).0 == hist'[Max0(|hist'| - r)..]
  {
    var r := RequiredSamples(truncated);
    var buffer := hist[Max0(|hist| - r)..];
    if |hist| >= r {
      assert DelayStep(delaySec, buffer, x, truncated).0 == (buffer + [x])[1..];
    } else {
      assert buffer == hist;
    }
  }

  /** From an empty (or reset) buffer, call n returns the input of call
      max(0, n - r). */
  lemma DelayRunFromEmpty(delaySec: real, truncated: nat, xs: seq<real>, n: nat)
    requires delaySec > 0.0 && n < |xs|
    ensures DelayRun(delaySec, truncated, [], xs)[n] == xs[Max0(n - RequiredSamples(truncated))]
  {
    DelayRunFromHistory(delaySec, truncated, [], [], xs, n);
    assert [] + xs == xs;
  }

  class DelayTransform {
    const delaySec: real
    var buffer: seq<real>

    constructor (delaySec: real)
      ensures this.delaySec == delaySec && buffer == []
    {
      this.delaySec := delaySec;
      buffer := [];
    }

    /** Pushes one sample, pops at most one and returns the oldest sample. */
    method Apply(input: real, truncated: nat) returns (output: real)
      modifies this
      ensures (buffer, output) == DelayStep(delaySec, old(buffer), input, truncated)
    {
      if delaySec <= 0.0 {
        return input;
      }
      var required := RequiredSamples(truncated);
      buffer := buffer + [input];
      if |buffer| > required {
        output := buffer[0];
        buffer := buffer[1..];
        return;
      }
      output := buffer[0];
    }

    method Reset()
      modifies this
      ensures buffer == []
      ensures forall x, t :: DelayStep(delaySec, buffer, x, t).1 == x
    {
      buffer := [];
    }

    method Clone() returns (copy: DelayTransform)
      ensures fresh(copy) && copy.delaySec == delaySec && copy.buffer == buffer
      ensures forall x, t :: DelayStep(copy.delaySec, copy.buffer, x, t) == DelayStep(delaySec, buffer, x, t)
    {
      copy := new DelayTransform(delaySec);
      copy.buffer := buffer;
    }
  }

  // ---------------------------------------------------------------------------
  // MovingAverageTransform: a bounded sliding window

  /** Left fold of addition, as `std::accumulate` from 0.0. */
  function Sum(s: seq<real>): real
  {
    if s == [] then 0.0 else Sum(s[..|s| - 1]) + s[|s| - 1]
  }

  /** A window whose samples all equal k sums to k times its length. */
  lemma {:induction false} SumConstant(s: seq<real>, k: real)
    requires forall i :: 0 <= i < |s| ==> s[i] == k
    ensures Sum(s) == k * |s| as real
  {
    if s != [] {
      SumConstant(s[..|s| - 1], k);
    }
  }

  /** One `apply`: push the input, drop the oldest sample once the window is
      over-full, and return the mean of the window (0.0 when it is empty). */
  function MovingAverageStep(windowSize: nat, samples: seq<real>, input: real): (res: (seq<real>, real))
    ensures |samples| <= windowSize ==> |res.0| <= windowSize
    ensures windowSize == 0 && samples == [] ==> res == ([], 0.0)
    ensures res.0 != [] ==> res.1 == Sum(res.0) / |res.0| as real
    ensures |samples| <= windowSize && windowSize >= 1 ==> res.0 != [] && res.0[|res.0| - 1] == input
  {
    var s := samples + [input];
    var s' := if |s| > windowSize then s[1..] else s;
    (s', if s' == [] then 0.0 else Sum(s') / |s'| as real)
  }

  /** The window after feeding `xs`. */
  function MovingAverageRun(windowSize: nat, samples: seq<real>, xs: seq<real>): seq<real>
    decreases |xs|
  {
    if xs == [] then samples
    else MovingAverageRun(windowSize, MovingAverageStep(windowSize, samples, xs[0]).0, xs[1..])
  }

  /** A window holding the last min(n, w) inputs of a history keeps doing so. */
  lemma {:induction false} MovingAverageRunFromHistory(windowSize: nat, hist: seq<real>, xs: seq<real>)
    ensures var all := hist + xs;
      MovingAverageRun(windowSize, hist[Max0(|hist| - windowSize)..], xs) == all[Max0(|all| - windowSize)..]
    decreases |xs|
  {
    if xs != [] {
      var samples := hist[Max0(|hist| - windowSize)..];
      var hist' := hist + [xs[0]];
      var s := samples + [xs[0]];
      assert MovingAverageStep(windowSize, samples, xs[0]).0 == hist'[Max0(|hist'| - windowSize)..] by {
        if |s| > windowSize {
          assert s[1..] == hist'[Max0(|hist'| - windowSize)..];
        } else {
          assert samples == hist;
        }
      }
      MovingAverageRunFromHistory(windowSize, hist', xs[1..]);
      assert hist' + xs[1..] == hist + xs;
    }
  }

  /** After n calls from an empty window, the window holds the last
      min(n, window_size) inputs in arrival order. */
  lemma MovingAverageWindow(windowSize: nat, xs: seq<real>)
    ensures MovingAverageRun(windowSize, [], xs) == xs[Max0(|xs| - windowSize)..]
  {
    MovingAverageRunFromHistory(windowSize, [], xs);
    assert [] + xs == xs;
  }

  /** A window of k's fed k yields k. */
  lemma MovingAverageConstant(windowSize: nat, samples: seq<real>, k: real)
    requires windowSize >= 1 && |samples| <= windowSize
    requires forall i :: 0 <= i < |samples| ==> samples[i] == k
    ensures MovingAverageStep(windowSize, samples, k).1 == k
  {
    var res := MovingAverageStep(windowSize, samples, k);
    var s := samples + [k];
    assert forall i :: 0 <= i < |res.0| ==> res.0[i] == k;
    SumConstant(res.0, k);
  }

  class MovingAverageTransform {
    const windowSize: nat
    var samples: seq<real>

    ghost predicate Valid()
      reads this
    {
      |samples| <= windowSize
    }

    constructor (windowSize: nat)
      ensures Valid() && this.windowSize == windowSize && samples == []
    {
      this.windowSize := windowSize;
      samples := [];
    }

    /** `dt` is ignored. */
    method Apply(input: real, dt: real) returns (output: real)
      requires Valid()
      modifies this
      ensures Valid()
      ensures (samples, output) == MovingAverageStep(windowSize, old(samples), input)
    {
      samples := samples + [input];
      if |samples| > windowSize {
        samples := samples[1..];
      }
      if samples == [] {
        return 0.0;
      }
      var total := 0.0;
      var i := 0;
      while i < |samples|
        invariant 0 <= i <= |samples|
        invariant total == Sum(samples[..i])
      {
        assert samples[..i + 1][..i] == samples[..i];
        total := total + samples[i];
        i := i + 1;
      }
      assert samples[..i] == samples;
      output := total / |samples| as real;
    }

    method Reset()
      requires Valid()
      modifies this
      ensures Valid() && samples == []
    {
      samples := [];
    }

    method Clone() returns (copy: MovingAverageTransform)
      requires Valid()
      ensures fresh(copy) && copy.Valid()
      ensures copy.windowSize == windowSize && copy.samples == samples
    {
      copy := new MovingAverageTransform(windowSize);
      copy.samples := samples;
    }
  }

  // ---------------------------------------------------------------------------
  // RateLimiterTransform: bounded change per step

  /** The step of an initialised rate limiter: the change from the previous
      output is clamped to `max_rate * dt` unless the rate or `dt` is not
      positive. */
  function RateLimit(maxRate: real, last: real, input: real, dt: real): (out: real)
    ensures maxRate <= 0.0 || dt <= 0.0 ==> out == input
    ensures maxRate > 0.0 && dt > 0.0 ==> -(maxRate * dt) <= out - last <= maxRate * dt
    ensures maxRate > 0.0 && dt > 0.0 ==> (last <= out <= input || input <= out <= last)
    ensures maxRate > 0.0 && dt > 0.0 && -(maxRate * dt) <= input - last <= maxRate * dt ==> out == input
  {
    if maxRate <= 0.0 || dt <= 0.0 then input
    else
      var maxChange := maxRate * dt;
      last + Clamp(input - last, -maxChange, maxChange)
  }

  class RateLimiterTransform {
    const maxRate: real
    var lastOutput: real
    var initialized: bool

    constructor (maxRate: real)
      ensures this.maxRate == maxRate && lastOutput == 0.0 && !initialized
    {
      this.maxRate := maxRate;
      lastOutput := 0.0;
      initialized := false;
    }

    /** The first call after construction or reset passes its input through
        and initialises; later calls rate-limit. The output is remembered. */
    method Apply(input: real, dt: real) returns (output: real)
      modifies this
      ensures initialized
      ensures !old(initialized) ==> output == input
      ensures old(initialized) ==> output == RateLimit(maxRate, old(lastOutput), input, dt)
      ensures lastOutput == output
    {
      if !initialized {
        lastOutput := input;
        initialized := true;
        return lastOutput;
      }
      if maxRate <= 0.0 || dt <= 0.0 {
        lastOutput := input;
        return lastOutput;
      }
      var maxChange := maxRate * dt;
      var delta := input - lastOutput;
      delta := Clamp(delta, -maxChange, maxChange);
      lastOutput := lastOutput + delta;
      output := lastOutput;
    }

    method Reset()
      modifies this
      ensures lastOutput == 0.0 && !initialized
    {
      lastOutput := 0.0;
      initialized := false;
    }

    method Clone() returns (copy: RateLimiterTransform)
      ensures fresh(copy)
      ensures copy.maxRate == maxRate && copy.lastOutput == lastOutput && copy.initialized == initialized
    {
      copy := new RateLimiterTransform(maxRate);
      copy.lastOutput := lastOutput;
      copy.initialized := initialized;
    }
  }

  // ---------------------------------------------------------------------------
  // Every transform kind as a value, for the engine's edges

  /** The numerics that are not modelled: the first-order-lag smoothing factor
      `1 - exp(-dt / tau)` and the k-th Gaussian draw of a generator seeded
      with `seed` at a given amplitude. */
  datatype Numerics = Numerics(lagAlpha: (real, real) -> real, gaussian: (nat, nat, real) -> real)

  datatype Transform =
    | LinearT(scale: real, offset: real, clampMin: Option<real>, clampMax: Option<real>)
    | FirstOrderLagT(tau: real, output: real, lagInitialized: bool)
    | DelayT(delaySec: real, buffer: seq<real>)
    | NoiseT(amplitude: real, seed: nat, draws: nat)
    | SaturationT(min: real, max: real)
    | DeadbandT(threshold: real)
    | RateLimiterT(maxRate: real, lastOutput: real, initialized: bool)
    | MovingAverageT(windowSize: nat, samples: seq<real>)

  /** `static_cast<size_t>(delay_sec / dt + 0.5)` for a positive step; the
      conversion is undefined in the source for other steps, where 0 is used. */
  function SamplesFor(delaySec: real, dt: real): (n: nat)
    ensures delaySec > 0.0 && dt > 0.0 ==> n as real <= delaySec / dt + 0.5 < n as real + 1.0
    ensures delaySec <= 0.0 || dt <= 0.0 ==> n == 0
  {
    if delaySec > 0.0 && dt > 0.0 then (delaySec / dt + 0.5).Floor as nat else 0
  }

  /** ITransform::apply on each kind: the updated transform and its output. */
  function ApplyTransform(t: Transform, input: real, dt: real, num: Numerics): (res: (Transform, real))
    ensures res.0.LinearT? == t.LinearT? && res.0.DelayT? == t.DelayT?
    ensures res.0.SaturationT? == t.SaturationT? && res.0.DeadbandT? == t.DeadbandT?
    ensures res.0.RateLimiterT? == t.RateLimiterT? && res.0.MovingAverageT? == t.MovingAverageT?
    ensures t.LinearT? || t.SaturationT? || t.DeadbandT? ==> res.0 == t
  {
    match t
    case LinearT(scale, offset, lo, hi) => (t, Linear(input, scale, offset, lo, hi))
    case FirstOrderLagT(tau, out, init) =>
      if !init then (FirstOrderLagT(tau, input, true), input)
      else if tau <= 0.0 then (FirstOrderLagT(tau, input, true), input)
      else
        var y := out + num.lagAlpha(dt, tau) * (input - out);
        (FirstOrderLagT(tau, y, true), y)
    case DelayT(d, buffer) =>
      var (b, y) := DelayStep(d, buffer, input, SamplesFor(d, dt));
      (DelayT(d, b), y)
    case NoiseT(amplitude, seed, draws) =>
      if amplitude <= 0.0 then (t, input)
      else (NoiseT(amplitude, seed, draws + 1), input + num.gaussian(seed, draws, amplitude))
    case SaturationT(lo, hi) => (t, Saturate(input, lo, hi))
    case DeadbandT(threshold) => (t, Deadband(input, threshold))
    case RateLimiterT(maxRate, last, init) =>
      var y := if !init then input else RateLimit(maxRate, last, input, dt);
      (RateLimiterT(maxRate, y, true), y)
    case MovingAverageT(w, samples) =>
      var (s, y) := MovingAverageStep(w, samples, input);
      (MovingAverageT(w, s), y)
  }

  /** ITransform::reset: back to the state right after construction. */
  function ResetTransform(t: Transform): (r: Transform)
    ensures t.LinearT? || t.SaturationT? || t.DeadbandT? ==> r == t
  {
    match t
    case LinearT(_, _, _, _) => t
    case FirstOrderLagT(tau, _, _) => FirstOrderLagT(tau, 0.0, false)
    case DelayT(d, _) => DelayT(d, [])
    case NoiseT(amplitude, seed, _) => NoiseT(amplitude, seed, 0)
    case SaturationT(_, _) => t
    case DeadbandT(_) => t
    case RateLimiterT(maxRate, _, _) => RateLimiterT(maxRate, 0.0, false)
    case MovingAverageT(w, _) => MovingAverageT(w, [])
  }

  /** After a reset, the lag, delay and rate-limiter transforms pass their next
      input straight through, whatever the time step. */
  lemma ResetPassesThrough(t: Transform, input: real, dt: real, num: Numerics)
    requires t.FirstOrderLagT? || t.DelayT? || t.RateLimiterT?
    ensures ApplyTransform(ResetTransform(t), input, dt, num).1 == input
  {
  }
}
