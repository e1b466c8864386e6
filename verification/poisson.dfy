/** The Poisson Photon Noise Estimator (src/poisson.rs), after "Noise-Aware
    Merging of High Dynamic Range Image Stacks without Camera Calibration":
    every exposure is divided by `exposure * gain` to estimate the scene
    radiance, and the estimates are averaged with weights proportional to the
    exposure times.

    The source scales the buffers in place and reduces them in parallel; here
    the scaling returns the updated inputs and the reduction is a sequential
    fold, which over the reals gives the same value in any order
    (`EstimateOrderIndependent`). */
module Poisson {
  import opened NdArray
  import opened Input
  import opened Sums

  /** The per-channel calibration coefficients of the three-channel case. */
  const RedCoefficient: real := 1.0
  const GreenCoefficient: real := 1.0
  const BlueCoefficient: real := 1.0

  /** Every buffer has the shape of the first.  The source never checks
      this: ndarray's `+` broadcasts a radiance of a compatible shape (one
      channel onto three, a 1x1 image onto a larger one) onto the
      accumulator, and panics for any other shape.  Only the case of equal
      shapes is modelled. */
  ghost predicate SameShape(inputs: seq<HdrInput>)
  {
    forall i :: 0 <= i < |inputs| ==> inputs[i].buffer.Dim() == inputs[0].buffer.Dim()
  }

  /** The stacks the model covers: a first input to take the shape from
      (`first().unwrap()`), buffers of 1 or 3 channels (the scaling panics
      otherwise), and one shape for all (see `SameShape`). */
  ghost predicate Fusable(inputs: seq<HdrInput>)
  {
    && |inputs| > 0
    && (forall i :: 0 <= i < |inputs| ==> inputs[i].Valid())
    && SameShape(inputs)
  }

  /** `after` is `before` after the first pass: same exposure, gain and
      shape, every element divided by `exposure * gain`. */
  ghost predicate IsFirstPass(before: HdrInput, after: HdrInput)
    requires before.Valid()
  {
    && after.Valid() && after.buffer.Dim() == before.buffer.Dim()
    && after.exposure == before.exposure && after.gain == before.gain
    && forall y, x, c :: 0 <= y < before.buffer.height && 0 <= x < before.buffer.width && 0 <= c < before.buffer.channels ==>
         after.buffer.data[y][x][c] == before.buffer.data[y][x][c] / (before.exposure * before.gain)
  }

  /** The first pass for one input: the buffer divided by
      `exposure * gain`, per channel times the channel's coefficient. */
  function ScaleInput(input: HdrInput): (r: HdrInput)
    requires input.Valid()
    ensures IsFirstPass(input, r)
  {
    var scalingFactor := input.GetExposure() * input.GetGain();
    if input.buffer.channels == 1 then
      input.(buffer := Divide(input.buffer, scalingFactor))
    else
      input.(buffer := DivideChannels(input.buffer,
        [scalingFactor * RedCoefficient, scalingFactor * GreenCoefficient, scalingFactor * BlueCoefficient]))
  }

  function ExposureOf(input: HdrInput): real
  {
    input.exposure
  }

  /** `sum_exposures`: the exposure times added up. */
  function SumExposures(inputs: seq<HdrInput>): (s: real)
    ensures |inputs| > 0 ==> s > 0.0
  {
    if |inputs| > 0 then SumPositive(inputs, ExposureOf); Sum(inputs, ExposureOf)
    else Sum(inputs, ExposureOf)
  }

  /** `.reduce(|| zeros, |acc, radiance| acc + radiance)` as a left fold:
      every element is the start value plus the sum of that element over the
      buffers. */
  function Reduce(radiances: seq<Array3>, init: Array3): (r: Array3)
    requires init.Valid()
    requires forall i :: 0 <= i < |radiances| ==> radiances[i].Valid() && radiances[i].Dim() == init.Dim()
    ensures r.Valid() && r.Dim() == init.Dim()
    ensures forall y, x, c :: 0 <= y < init.height && 0 <= x < init.width && 0 <= c < init.channels ==>
      r.data[y][x][c] == init.data[y][x][c] + Sum(radiances, Element(y, x, c))
    decreases |radiances|
  {
    if |radiances| == 0 then init
    else Add(Reduce(radiances[..|radiances| - 1], init), radiances[|radiances| - 1])
  }

  /** The second pass: every scaled buffer times its exposure's share of
      the total exposure time. */
  function Radiances(scaled: seq<HdrInput>, total: real): (r: seq<Array3>)
    requires forall i :: 0 <= i < |scaled| ==> scaled[i].Valid()
    requires total != 0.0
    ensures |r| == |scaled|
    ensures forall i :: 0 <= i < |scaled| ==> scaled[i].Valid() && r[i] == Scale(scaled[i].buffer, scaled[i].exposure / total)
  {
    seq(|scaled|, i requires 0 <= i < |scaled| =>
      assert scaled[i].Valid(); Scale(scaled[i].GetBuffer(), scaled[i].GetExposure() / total))
  }

  /** One element of a buffer weighted by its exposure's share of `total`. */
  function WeightedAt(y: nat, x: nat, c: nat, total: real): HdrInput -> real
    requires total != 0.0
  {
    (input: HdrInput) => input.buffer.At(y, x, c) * (input.exposure / total)
  }

  /** The first pass applied to every input, in order. */
  function ScaleAll(inputs: seq<HdrInput>): (scaled: seq<HdrInput>)
    requires forall i :: 0 <= i < |inputs| ==> inputs[i].Valid()
    ensures |scaled| == |inputs|
    ensures forall i :: 0 <= i < |inputs| ==> inputs[i].Valid() && IsFirstPass(inputs[i], scaled[i])
  {
    seq(|inputs|, i requires 0 <= i < |inputs| => assert inputs[i].Valid(); ScaleInput(inputs[i]))
  }

  /** The second half of the estimator on the scaled inputs: each element of
      the result is the sum over the inputs of that element times
      `exposure / sum_exposures`. */
  function WeightedSum(scaled: seq<HdrInput>): (phi: Array3)
    requires Fusable(scaled)
    ensures phi.Valid() && phi.Dim() == scaled[0].buffer.Dim()
    ensures forall y, x, c :: 0 <= y < phi.height && 0 <= x < phi.width && 0 <= c < phi.channels ==>
      phi.data[y][x][c] == Sum(scaled, WeightedAt(y, x, c, SumExposures(scaled)))
  {
    var shape := scaled[0].GetBuffer().Dim();
    var sumExposures := SumExposures(scaled);
    var radiances := Radiances(scaled, sumExposures);
    var phi := Reduce(radiances, Zeros(shape.0, shape.1, shape.2));
    RadiancesAreWeighted(scaled, sumExposures, radiances);
    phi
  }

  lemma RadiancesAreWeighted(scaled: seq<HdrInput>, total: real, radiances: seq<Array3>)
    requires Fusable(scaled) && total != 0.0
    requires radiances == Radiances(scaled, total)
    ensures forall y, x, c :: 0 <= y < scaled[0].buffer.height && 0 <= x < scaled[0].buffer.width && 0 <= c < scaled[0].buffer.channels ==>
      Sum(radiances, Element(y, x, c)) == Sum(scaled, WeightedAt(y, x, c, total))
  {
    var b := scaled[0].buffer;
    forall y, x, c | 0 <= y < b.height && 0 <= x < b.width && 0 <= c < b.channels
      ensures Sum(radiances, Element(y, x, c)) == Sum(scaled, WeightedAt(y, x, c, total))
    {
      forall i | 0 <= i < |radiances|
        ensures Element(y, x, c)(radiances[i]) == WeightedAt(y, x, c, total)(scaled[i])
      {
        assert scaled[i].buffer.Dim() == b.Dim();
      }
      SumPointwise(radiances, Element(y, x, c), scaled, WeightedAt(y, x, c, total));
    }
  }

  /** The estimator's effect: the inputs after the in-place first pass, and
      the fused radiance buffer `phi`. */
  datatype Estimate = Estimate(inputs: seq<HdrInput>, phi: Array3)

  /** `calculate_poisson_estimate`: the first pass overwrites every input's
      buffer and leaves its exposure and gain alone; the result has the first
      input's shape. */
  function CalculatePoissonEstimate(inputs: seq<HdrInput>): (r: Estimate)
    requires Fusable(inputs)
    ensures |r.inputs| == |inputs|
    ensures forall i :: 0 <= i < |inputs| ==> IsFirstPass(inputs[i], r.inputs[i])
    ensures r.phi.Valid() && r.phi.Dim() == inputs[0].buffer.Dim()
  {
    var scaled := ScaleAll(inputs);
    assert Fusable(scaled) by {
      assert forall i :: 0 <= i < |inputs| ==> inputs[i].Valid() && IsFirstPass(inputs[i], scaled[i]);
    }
    Estimate(scaled, WeightedSum(scaled))
  }

  /** The gain-normalised value `raw / gain` of one element of an input. */
  function RateAt(y: nat, x: nat, c: nat): HdrInput -> real
  {
    (input: HdrInput) => input.buffer.At(y, x, c) / input.gain
  }

  /** One element of an input's buffer. */
  function BufferAt(y: nat, x: nat, c: nat): HdrInput -> real
  {
    (input: HdrInput) => input.buffer.At(y, x, c)
  }

  lemma CancelExposure(raw: real, exposure: real, gain: real, total: real)
    requires exposure > 0.0 && gain > 0.0 && total > 0.0
    ensures (raw / (exposure * gain)) * (exposure / total) == (raw / gain) * (1.0 / total)
  {
    calc {
      (raw / (exposure * gain)) * (exposure / total);
      (raw * exposure) / ((exposure * gain) * total);
      { assert (raw * exposure) / ((exposure * gain) * total) == raw / (gain * total); }
      raw / (gain * total);
      (raw / gain) * (1.0 / total);
    }
  }

  /** The share of one input in the fused element: `raw / gain` over the
      total exposure time. */
  function ShareAt(y: nat, x: nat, c: nat, total: real): HdrInput -> real
    requires total != 0.0
  {
    (input: HdrInput) => RateAt(y, x, c)(input) * (1.0 / total)
  }

  /** The weighted term of the `i`-th scaled input is the share of the
      `i`-th input before the first pass. */
  lemma WeightedTerm(inputs: seq<HdrInput>, scaled: seq<HdrInput>, i: nat, y: nat, x: nat, c: nat, total: real)
    requires Fusable(inputs) && total > 0.0
    requires |scaled| == |inputs| && i < |inputs| && IsFirstPass(inputs[i], scaled[i])
    requires y < inputs[0].buffer.height && x < inputs[0].buffer.width && c < inputs[0].buffer.channels
    ensures WeightedAt(y, x, c, total)(scaled[i]) == ShareAt(y, x, c, total)(inputs[i])
  {
    var input := inputs[i];
    assert input.buffer.Dim() == inputs[0].buffer.Dim();
    var raw := input.buffer.data[y][x][c];
    assert input.buffer.At(y, x, c) == raw;
    assert scaled[i].buffer.At(y, x, c) == raw / (input.exposure * input.gain);
    assert scaled[i].exposure == input.exposure;
    CancelExposure(raw, input.exposure, input.gain, total);
    assert WeightedAt(y, x, c, total)(scaled[i]) == (raw / (input.exposure * input.gain)) * (input.exposure / total);
    assert RateAt(y, x, c)(input) == raw / input.gain;
    assert ShareAt(y, x, c, total)(input) == (raw / input.gain) * (1.0 / total);
  }

  lemma SharesSum(inputs: seq<HdrInput>, y: nat, x: nat, c: nat, total: real)
    requires total != 0.0
    ensures Sum(inputs, ShareAt(y, x, c, total)) == Sum(inputs, RateAt(y, x, c)) / total
  {
    SumScale(inputs, RateAt(y, x, c), ShareAt(y, x, c, total), 1.0 / total);
    var rates := Sum(inputs, RateAt(y, x, c));
    assert rates * (1.0 / total) == rates / total;
  }

  /** One element of the weighted sum over the scaled inputs, rewritten in
      terms of the inputs before the first pass. */
  lemma WeightedSumOfFirstPass(inputs: seq<HdrInput>, scaled: seq<HdrInput>, total: real, y: nat, x: nat, c: nat)
    requires Fusable(inputs) && total > 0.0
    requires |scaled| == |inputs| && forall i :: 0 <= i < |inputs| ==> IsFirstPass(inputs[i], scaled[i])
    requires y < inputs[0].buffer.height && x < inputs[0].buffer.width && c < inputs[0].buffer.channels
    ensures Sum(scaled, WeightedAt(y, x, c, total)) == Sum(inputs, RateAt(y, x, c)) / total
  {
    forall i | 0 <= i < |scaled|
      ensures WeightedAt(y, x, c, total)(scaled[i]) == ShareAt(y, x, c, total)(inputs[i])
    {
      WeightedTerm(inputs, scaled, i, y, x, c, total);
    }
    SumPointwise(scaled, WeightedAt(y, x, c, total), inputs, ShareAt(y, x, c, total));
    SharesSum(inputs, y, x, c, total);
  }

  /** One fused element is the sum of `raw / gain` over the inputs divided
      by the sum of the exposure times. */
  lemma WeightedAverageAt(inputs: seq<HdrInput>, y: nat, x: nat, c: nat)
    requires Fusable(inputs)
    requires y < inputs[0].buffer.height && x < inputs[0].buffer.width && c < inputs[0].buffer.channels
    ensures CalculatePoissonEstimate(inputs).phi.data[y][x][c] == Sum(inputs, RateAt(y, x, c)) / SumExposures(inputs)
  {
    var r := CalculatePoissonEstimate(inputs);
    var scaled := ScaleAll(inputs);
    assert r == Estimate(scaled, WeightedSum(scaled));
    var total := SumExposures(scaled);
    SumPointwise(scaled, ExposureOf, inputs, ExposureOf);
    assert r.phi.data[y][x][c] == Sum(scaled, WeightedAt(y, x, c, total));
    WeightedSumOfFirstPass(inputs, scaled, total, y, x, c);
  }

  /** Each fused element is the exposure-weighted average of the per-input
      radiance estimates, i.e. the sum of `raw / gain` over the inputs
      divided by the sum of the exposure times. */
  lemma EstimateIsWeightedAverage(inputs: seq<HdrInput>)
    requires Fusable(inputs)
    ensures var r := CalculatePoissonEstimate(inputs);
      forall y, x, c :: 0 <= y < inputs[0].buffer.height && 0 <= x < inputs[0].buffer.width && 0 <= c < inputs[0].buffer.channels ==>
        r.phi.data[y][x][c] == Sum(inputs, RateAt(y, x, c)) / SumExposures(inputs)
  {
    var b := inputs[0].buffer;
    forall y, x, c | 0 <= y < b.height && 0 <= x < b.width && 0 <= c < b.channels
      ensures CalculatePoissonEstimate(inputs).phi.data[y][x][c] == Sum(inputs, RateAt(y, x, c)) / SumExposures(inputs)
    {
      WeightedAverageAt(inputs, y, x, c);
    }
  }

  /** A permutation of a fusable stack is fusable. */
  lemma PermutationFusable(a: seq<HdrInput>, b: seq<HdrInput>)
    requires Fusable(a) && multiset(a) == multiset(b)
    ensures Fusable(b) && b[0].buffer.Dim() == a[0].buffer.Dim()
  {
    assert |b| == |multiset(b)| == |multiset(a)| == |a|;
    forall i | 0 <= i < |b|
      ensures b[i].Valid() && b[i].buffer.Dim() == a[0].buffer.Dim()
    {
      assert b[i] in multiset(a) by {
        assert b[i] in b;
      }
      var j :| 0 <= j < |a| && a[j] == b[i];
    }
  }

  lemma PermutedElement(a: seq<HdrInput>, b: seq<HdrInput>, y: nat, x: nat, c: nat)
    requires Fusable(a) && Fusable(b) && multiset(a) == multiset(b) && b[0].buffer.Dim() == a[0].buffer.Dim()
    requires y < a[0].buffer.height && x < a[0].buffer.width && c < a[0].buffer.channels
    ensures CalculatePoissonEstimate(a).phi.data[y][x][c] == CalculatePoissonEstimate(b).phi.data[y][x][c]
  {
    WeightedAverageAt(a, y, x, c);
    WeightedAverageAt(b, y, x, c);
    SumPermutation(a, b, ExposureOf);
    SumPermutation(a, b, RateAt(y, x, c));
  }

  /** The fused buffer does not depend on the order of the inputs: any
      permutation of a fusable stack is fusable and gives the same `phi`,
      which is what lets the source reduce in parallel. */
  lemma EstimateOrderIndependent(a: seq<HdrInput>, b: seq<HdrInput>)
    requires Fusable(a) && multiset(a) == multiset(b)
    ensures Fusable(b)
    ensures CalculatePoissonEstimate(a).phi == CalculatePoissonEstimate(b).phi
  {
    PermutationFusable(a, b);
    var pa := CalculatePoissonEstimate(a).phi;
    var pb := CalculatePoissonEstimate(b).phi;
    forall y, x, c | 0 <= y < pa.height && 0 <= x < pa.width && 0 <= c < pa.channels
      ensures pa.data[y][x][c] == pb.data[y][x][c]
    {
      PermutedElement(a, b, y, x, c);
    }
    Extensionality(pa, pb);
  }

  lemma RateOfGain(input: HdrInput, gain: real, y: nat, x: nat, c: nat)
    requires input.gain == gain
    ensures RateAt(y, x, c)(input) == BufferAt(y, x, c)(input) * (1.0 / gain)
  {
    var v := input.buffer.At(y, x, c);
    assert v / gain == v * (1.0 / gain);
  }

  lemma {:induction false} RatesOfEqualGain(inputs: seq<HdrInput>, gain: real, y: nat, x: nat, c: nat)
    requires gain > 0.0
    requires forall i :: 0 <= i < |inputs| ==> inputs[i].gain == gain
    ensures Sum(inputs, RateAt(y, x, c)) == Sum(inputs, BufferAt(y, x, c)) * (1.0 / gain)
  {
    forall i | 0 <= i < |inputs|
      ensures RateAt(y, x, c)(inputs[i]) == BufferAt(y, x, c)(inputs[i]) * (1.0 / gain)
    {
      RateOfGain(inputs[i], gain, y, x, c);
    }
    SumScale(inputs, BufferAt(y, x, c), RateAt(y, x, c), 1.0 / gain);
  }

  lemma MeanOfEqualSettings(phi: real, rates: real, total: real, sum: real, n: real, exposure: real, gain: real)
    requires n > 0.0 && exposure > 0.0 && gain > 0.0 && total > 0.0
    requires total == n * exposure
    requires phi == rates / total && rates == sum * (1.0 / gain)
    ensures phi == (sum / n) / (exposure * gain)
  {
    calc {
      phi;
      (sum * (1.0 / gain)) / (n * exposure);
      sum / (gain * (n * exposure));
      { assert gain * (n * exposure) == n * (exposure * gain); }
      sum / (n * (exposure * gain));
      (sum / n) / (exposure * gain);
    }
  }

  lemma ExposuresOfEqualSettings(inputs: seq<HdrInput>, exposure: real)
    requires forall i :: 0 <= i < |inputs| ==> inputs[i].exposure == exposure
    ensures SumExposures(inputs) == |inputs| as real * exposure
  {
    SumConstant(inputs, ExposureOf, exposure);
  }

  /** With equal settings the weighted average of the rates is the mean
      of the raw elements over `exposure * gain`. */
  lemma MeanOfRates(inputs: seq<HdrInput>, exposure: real, gain: real, y: nat, x: nat, c: nat)
    requires |inputs| > 0
    requires forall i :: 0 <= i < |inputs| ==> inputs[i].exposure == exposure && inputs[i].gain == gain
    ensures Sum(inputs, RateAt(y, x, c)) / SumExposures(inputs) == (Sum(inputs, BufferAt(y, x, c)) / |inputs| as real) / (exposure * gain)
  {
    assert exposure > 0.0 && gain > 0.0 by {
      assert inputs[0].exposure == exposure && inputs[0].gain == gain;
    }
    RatesOfEqualGain(inputs, gain, y, x, c);
    ExposuresOfEqualSettings(inputs, exposure);
    MeanOfEqualSettings(Sum(inputs, RateAt(y, x, c)) / SumExposures(inputs), Sum(inputs, RateAt(y, x, c)), SumExposures(inputs),
      Sum(inputs, BufferAt(y, x, c)), |inputs| as real, exposure, gain);
  }

  lemma EqualSettingsAt(inputs: seq<HdrInput>, exposure: real, gain: real, y: nat, x: nat, c: nat)
    requires Fusable(inputs)
    requires forall i :: 0 <= i < |inputs| ==> inputs[i].exposure == exposure && inputs[i].gain == gain
    requires y < inputs[0].buffer.height && x < inputs[0].buffer.width && c < inputs[0].buffer.channels
    ensures CalculatePoissonEstimate(inputs).phi.data[y][x][c] == (Sum(inputs, BufferAt(y, x, c)) / |inputs| as real) / (exposure * gain)
  {
    WeightedAverageAt(inputs, y, x, c);
    MeanOfRates(inputs, exposure, gain, y, x, c);
  }

  /** With one exposure time and one gain for the whole stack the weights
      are equal, and each fused element is the plain mean of the raw
      elements divided by `exposure * gain`. */
  lemma EqualSettingsGiveMean(inputs: seq<HdrInput>, exposure: real, gain: real)
    requires Fusable(inputs)
    requires forall i :: 0 <= i < |inputs| ==> inputs[i].exposure == exposure && inputs[i].gain == gain
    ensures var r := CalculatePoissonEstimate(inputs);
      forall y, x, c :: 0 <= y < inputs[0].buffer.height && 0 <= x < inputs[0].buffer.width && 0 <= c < inputs[0].buffer.channels ==>
        r.phi.data[y][x][c] == (Sum(inputs, BufferAt(y, x, c)) / |inputs| as real) / (exposure * gain)
  {
    var b := inputs[0].buffer;
    forall y, x, c | 0 <= y < b.height && 0 <= x < b.width && 0 <= c < b.channels
      ensures CalculatePoissonEstimate(inputs).phi.data[y][x][c] == (Sum(inputs, BufferAt(y, x, c)) / |inputs| as real) / (exposure * gain)
    {
      EqualSettingsAt(inputs, exposure, gain, y, x, c);
    }
  }

  /** The radiance estimate `raw / (exposure * gain)` of one element of an
      input. */
  function RadianceAt(y: nat, x: nat, c: nat): HdrInput -> real
  {
    (input: HdrInput) => input.buffer.At(y, x, c) / (input.exposure * input.gain)
  }

  /** `lo` weighted by an input's share of `total`. */
  function BoundAt(bound: real, total: real): HdrInput -> real
    requires total != 0.0
  {
    (input: HdrInput) => input.exposure * (bound / total)
  }

  lemma WeightedBounds(v: real, exposure: real, total: real, lo: real, hi: real)
    requires exposure > 0.0 && total > 0.0 && lo <= v <= hi
    ensures exposure * (lo / total) <= v * (exposure / total) <= exposure * (hi / total)
  {
    var w := exposure / total;
    assert w > 0.0;
    assert lo * w <= v * w <= hi * w;
  }

  /** Bounds of one weighted term of a scaled input, from bounds of the
      radiance estimate of the input it came from. */
  lemma WeightedTermBounds(inputs: seq<HdrInput>, scaled: seq<HdrInput>, i: nat, y: nat, x: nat, c: nat, total: real, lo: real, hi: real)
    requires Fusable(inputs) && total > 0.0
    requires |scaled| == |inputs| && i < |inputs| && IsFirstPass(inputs[i], scaled[i])
    requires y < inputs[0].buffer.height && x < inputs[0].buffer.width && c < inputs[0].buffer.channels
    requires lo <= RadianceAt(y, x, c)(inputs[i]) <= hi
    ensures BoundAt(lo, total)(scaled[i]) <= WeightedAt(y, x, c, total)(scaled[i]) <= BoundAt(hi, total)(scaled[i])
  {
    var input := inputs[i];
    assert input.buffer.Dim() == inputs[0].buffer.Dim();
    var raw := input.buffer.data[y][x][c];
    assert input.buffer.At(y, x, c) == raw;
    var v := scaled[i].buffer.At(y, x, c);
    assert v == raw / (input.exposure * input.gain);
    WeightedBounds(v, scaled[i].exposure, total, lo, hi);
  }

  lemma BoundSum(scaled: seq<HdrInput>, bound: real, total: real)
    requires total != 0.0 && total == SumExposures(scaled)
    ensures Sum(scaled, BoundAt(bound, total)) == bound
  {
    SumScale(scaled, ExposureOf, BoundAt(bound, total), bound / total);
  }

  /** The fused value is a convex combination of the per-input radiance
      estimates: it lies between their least and greatest value. */
  lemma EstimateWithinRadianceBounds(inputs: seq<HdrInput>, y: nat, x: nat, c: nat, lo: real, hi: real)
    requires Fusable(inputs)
    requires y < inputs[0].buffer.height && x < inputs[0].buffer.width && c < inputs[0].buffer.channels
    requires forall i :: 0 <= i < |inputs| ==> lo <= RadianceAt(y, x, c)(inputs[i]) <= hi
    ensures lo <= CalculatePoissonEstimate(inputs).phi.data[y][x][c] <= hi
  {
    var r := CalculatePoissonEstimate(inputs);
    var scaled := ScaleAll(inputs);
    assert r == Estimate(scaled, WeightedSum(scaled));
    var total := SumExposures(scaled);
    assert r.phi.data[y][x][c] == Sum(scaled, WeightedAt(y, x, c, total));
    forall i | 0 <= i < |scaled|
      ensures BoundAt(lo, total)(scaled[i]) <= WeightedAt(y, x, c, total)(scaled[i]) <= BoundAt(hi, total)(scaled[i])
    {
      WeightedTermBounds(inputs, scaled, i, y, x, c, total, lo, hi);
    }
    SumMonotone(scaled, BoundAt(lo, total), WeightedAt(y, x, c, total));
    SumMonotone(scaled, WeightedAt(y, x, c, total), BoundAt(hi, total));
    BoundSum(scaled, lo, total);
    BoundSum(scaled, hi, total);
  }
}
