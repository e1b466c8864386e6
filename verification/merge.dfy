/** The library entry point `hdr_merge_images` (src/lib.rs): fuse a list of
    exposures into one image. */
module Merge {
  import opened Errors
  import opened NdArray
  import opened Image
  import opened Input
  import opened Sums
  import Extensions
  import Poisson

  /** The effect of a merge: the list afterwards (its buffers are scaled in
      place by the estimator) and the merged image or the error. */
  datatype Outcome = Outcome(inputs: HdrInputList, image: Result<DynamicImage>)

  const PathsMessage := "At least two images must be provided"

  /** `hdr_merge_images`: fewer than two inputs is an error naming "paths"
      and leaves the list alone; otherwise the estimator runs and its buffer
      becomes the image (`Luma16` for one channel, `Rgb32F` for three).  The
      source never checks the colour type or the sizes of the inputs; buffers
      of one shape are a precondition here, since shapes that differ are
      either broadcast by the element-wise sum or make it panic, and neither
      is modelled. */
  function HdrMergeImages(list: HdrInputList): (r: Outcome)
    requires forall i :: 0 <= i < list.Len() ==> list.items[i].Valid()
    requires Poisson.SameShape(list.items)
    ensures r.image.Err? <==> list.Len() < 2
    ensures r.image.Err? ==> r.image.error == InputError("paths", PathsMessage) && r.inputs == list
    ensures r.image.Ok? ==>
      && var b := list.items[0].buffer;
      && r.image.value.Valid() && r.image.value.Dimensions() == (b.width, b.height)
      && (b.channels == 1 ==> r.image.value.color == Luma16)
      && (b.channels == 3 ==> r.image.value.color == Rgb32F)
      && r.inputs.Len() == list.Len()
      && forall i :: 0 <= i < list.Len() ==> Poisson.IsFirstPass(list.items[i], r.inputs.items[i])
  {
    if list.Len() < 2 then
      Outcome(list, Err(InputError("paths", PathsMessage)))
    else
      var estimate := Poisson.CalculatePoissonEstimate(list.AsSlice());
      Outcome(HdrInputList(estimate.inputs), Ok(Extensions.FromNdArrayBuffer(estimate.phi)))
  }

  /** The fused value the merged image holds at one element. */
  function FusedAt(items: seq<HdrInput>, y: nat, x: nat, c: nat): real
    requires |items| > 0
  {
    Sum(items, Poisson.RateAt(y, x, c)) / Poisson.SumExposures(items)
  }

  lemma FusedPixel(items: seq<HdrInput>, y: nat, x: nat)
    requires Poisson.Fusable(items)
    requires y < items[0].buffer.height && x < items[0].buffer.width
    ensures forall c :: 0 <= c < items[0].buffer.channels ==>
      Poisson.CalculatePoissonEstimate(items).phi.data[y][x][c] == FusedAt(items, y, x, c)
  {
    forall c | 0 <= c < items[0].buffer.channels
      ensures Poisson.CalculatePoissonEstimate(items).phi.data[y][x][c] == FusedAt(items, y, x, c)
    {
      Poisson.WeightedAverageAt(items, y, x, c);
    }
  }

  lemma MergedImage(list: HdrInputList)
    requires Poisson.Fusable(list.items) && list.Len() >= 2
    ensures HdrMergeImages(list).image == Ok(Extensions.FromNdArrayBuffer(Poisson.CalculatePoissonEstimate(list.items).phi))
  {
  }

  lemma MergedRgbPixel(list: HdrInputList, y: nat, x: nat)
    requires Poisson.Fusable(list.items) && list.Len() >= 2 && list.items[0].buffer.channels == 3
    requires y < list.items[0].buffer.height && x < list.items[0].buffer.width
    ensures var image := HdrMergeImages(list).image.value;
      && y < |image.rows| && x < |image.rows[y]|
      && image.rows[y][x] == [FusedAt(list.items, y, x, 0), FusedAt(list.items, y, x, 1), FusedAt(list.items, y, x, 2)]
  {
    var phi := Poisson.CalculatePoissonEstimate(list.items).phi;
    MergedImage(list);
    FusedPixel(list.items, y, x);
    assert phi.data[y][x] == [phi.data[y][x][0], phi.data[y][x][1], phi.data[y][x][2]];
  }

  lemma LumaPixel(phi: Array3, y: nat, x: nat, v: real)
    requires phi.Valid() && phi.channels == 1 && y < phi.height && x < phi.width
    requires phi.data[y][x][0] == v
    ensures var image := Extensions.FromNdArrayBuffer(phi);
      y < |image.rows| && x < |image.rows[y]| && image.rows[y][x] == [Extensions.CastToU16(v * Extensions.U16Max) as real]
  {
  }

  /** For one-channel exposures the merged pixel is the weighted average
      `v` quantised to 16 bits. */
  lemma MergedLumaPixel(list: HdrInputList, y: nat, x: nat, v: real)
    requires Poisson.Fusable(list.items) && list.Len() >= 2 && list.items[0].buffer.channels == 1
    requires y < list.items[0].buffer.height && x < list.items[0].buffer.width
    requires v == FusedAt(list.items, y, x, 0)
    ensures var image := HdrMergeImages(list).image.value;
      && y < |image.rows| && x < |image.rows[y]|
      && image.rows[y][x] == [Extensions.CastToU16(v * Extensions.U16Max) as real]
  {
    var phi := Poisson.CalculatePoissonEstimate(list.items).phi;
    MergedImage(list);
    Poisson.WeightedAverageAt(list.items, y, x, 0);
    LumaPixel(phi, y, x, v);
  }

  /** A merge of at least two three-channel exposures of one scene shape
      holds, at every pixel, the exposure-weighted average of the inputs'
      radiance estimates. */
  lemma MergeIsWeightedAverage(list: HdrInputList)
    requires Poisson.Fusable(list.items) && list.Len() >= 2 && list.items[0].buffer.channels == 3
    ensures var image := HdrMergeImages(list).image.value;
      var b := list.items[0].buffer;
      forall y, x :: 0 <= y < b.height && 0 <= x < b.width ==>
        && y < |image.rows| && x < |image.rows[y]|
        && image.rows[y][x] == [FusedAt(list.items, y, x, 0), FusedAt(list.items, y, x, 1), FusedAt(list.items, y, x, 2)]
  {
    var b := list.items[0].buffer;
    forall y, x | 0 <= y < b.height && 0 <= x < b.width
      ensures var image := HdrMergeImages(list).image.value;
        && y < |image.rows| && x < |image.rows[y]|
        && image.rows[y][x] == [FusedAt(list.items, y, x, 0), FusedAt(list.items, y, x, 1), FusedAt(list.items, y, x, 2)]
    {
      MergedRgbPixel(list, y, x);
    }
  }

  /** The merge does not depend on the order in which the exposures are
      listed. */
  lemma MergeOrderIndependent(a: HdrInputList, b: HdrInputList)
    requires Poisson.Fusable(a.items) && multiset(a.items) == multiset(b.items)
    ensures Poisson.Fusable(b.items)
    ensures HdrMergeImages(a).image == HdrMergeImages(b).image
  {
    Poisson.EstimateOrderIndependent(a.items, b.items);
    assert |a.items| == |multiset(a.items)| == |multiset(b.items)| == |b.items|;
  }
}
