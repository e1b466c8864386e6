# image-hdr in Dafny

A model of the core of the `image-hdr` crate. The crate fuses a stack of
exposures of one scene into a single high-dynamic-range image, using the
Poisson Photon Noise Estimator from the paper "Noise-Aware Merging of High
Dynamic Range Image Stacks without Camera Calibration".

The model covers these parts of the crate:

- the estimator in `src/poisson.rs`. Each buffer is divided by its
  `exposure * gain`. The radiance estimates are then averaged, weighted by
  each exposure's share of the total exposure time;
- the library entry point `hdr_merge_images` in `src/lib.rs`;
- the exposure input `HDRInput::with_image`, its getters and the list
  wrapper `HDRInputList`, from `src/input.rs`;
- the two conversions between an image and a `(height, width, channels)`
  float buffer, from `src/extensions.rs`;
- the histogram stretch in `src/stretch.rs`, which maps each colour
  channel onto [0, 1];
- `transpose_vec` from `src/util.rs`;
- the selection of exposure time and gain from EXIF metadata, in
  `src/exif.rs`.

Modules, one per file:

| module | file | models |
|---|---|---|
| `Errors` | errors.dfy | the crate's `Error` variants, `Option`, and `Result` with `?`-style propagation |
| `Sums` | sums.dfy | finite sums (`Iterator::sum`, the reduction of the estimator) and their algebra |
| `Util` | util.dfy | `transpose_vec`, flatten and `chunks_exact` |
| `NdArray` | ndarray.dfy | the part of `Array3<f32>` the core uses |
| `Image` | image.dfy | the part of `DynamicImage` the core uses: variant, size, pixels, `to_luma32f`, `to_rgb32f`, `ImageBuffer::from_vec` |
| `Extensions` | extensions.dfy | `to_nd_array_buffer`, `from_nd_array_buffer` |
| `Input` | input.dfy | `HDRInput`, `HDRInputList` |
| `Poisson` | poisson.dfy | `calculate_poisson_estimate` |
| `Merge` | merge.dfy | `hdr_merge_images` |
| `Stretch` | stretch.dfy | `scale_pixel`, `apply_histogram_stretch` |
| `Exif` | exif.dfy | `get_exposures`, `get_gains` |

Modelling conventions:

- `f32` arithmetic is modelled as exact `real` arithmetic.
- NaN and the infinities appear only where the crate tests for them or
  produces them. `Floats.Float` stands for an `f32` there: it is a finite
  value, NaN, or a signed infinity. This covers the gain check, EXIF
  rationals with a zero denominator, and the stretch of a constant channel.
- The estimator mutates its inputs in place and reduces them in parallel.
  Here it returns the scaled inputs together with the fused buffer, and the
  reduction is a left fold. `Poisson.EstimateOrderIndependent` proves that
  over the reals the order of the inputs does not matter.
- A panic of the source becomes a precondition. This covers a buffer whose
  channel count is neither 1 nor 3, an empty slice for `transpose_vec`, and
  a row longer than the first one. The estimator also requires buffers of
  one shape. The source does not check this: shapes that differ are
  broadcast when compatible and panic otherwise (see "## Left out").

## Model

| member | source | states |
|---|---|---|
| `Poisson.ScaleInput` | src/poisson.rs:28-43 | the first pass divides every element by `exposure * gain` (each channel coefficient is 1) and keeps the exposure, the gain and the shape |
| `Poisson.SumExposures` | src/poisson.rs:46 | the total exposure time of a non-empty stack is positive, so the weights are defined |
| `Poisson.Reduce` | src/poisson.rs:58-61 | the reduction from `zeros` by `+` holds, at every element, the start value plus the sum of that element over all buffers |
| `Poisson.WeightedTerm` | src/poisson.rs:28-54 | after the first pass, an element of input `i` weighted by `exposure / total` equals `raw / gain` of the same element before the pass, divided by `total`: the exposure time cancels |
| `Poisson.CalculatePoissonEstimate` | src/poisson.rs:27-64 | every input afterwards is its first pass (same exposure, gain and shape); the result has the first input's shape |
| `Poisson.WeightedAverageAt` | src/poisson.rs:27-64 | one fused element is the sum over the inputs of `raw / gain`, divided by the sum of the exposure times |
| `Poisson.EstimateIsWeightedAverage` | src/poisson.rs:27-64 | the same identity at every element of the buffer |
| `Poisson.EstimateOrderIndependent` | src/poisson.rs:48-61 | any permutation of a fusable stack is fusable and gives the same fused buffer, which justifies the parallel reduction |
| `Poisson.EqualSettingsGiveMean` | src/poisson.rs:27-64 | with one exposure time and one gain for the whole stack, each fused element is the plain mean of the raw elements divided by `exposure * gain` |
| `Poisson.EstimateWithinRadianceBounds` | src/poisson.rs:27-64 | when every input's radiance estimate `raw / (exposure * gain)` of an element lies in [lo, hi], so does the fused element |
| `Merge.HdrMergeImages` | src/lib.rs:36-47 | fewer than two inputs is the `InputError` naming "paths", and the list is left untouched; otherwise the result has the inputs' size, is `Luma16` for one channel and `Rgb32F` for three, and every input has been through the first pass |
| `Merge.MergedImage` | src/lib.rs:44-46 | a merge of at least two inputs is `Ok` of `from_nd_array_buffer` applied to the estimator's fused buffer |
| `Merge.MergeIsWeightedAverage` | src/lib.rs:44-46 | for three channels every pixel of the merged image is the exposure-weighted average of the inputs' radiance estimates, per channel |
| `Merge.MergedLumaPixel` | src/lib.rs:44-46 | for one channel a merged pixel is that weighted average quantised by the saturating `as u16` cast of `v * 65535` |
| `Merge.MergeOrderIndependent` | src/lib.rs:36-47 | reordering the input list does not change the merged image |
| `Input.WithImage` | src/input.rs:80-131 | an error exactly when the gain is infinite, NaN or not positive, or the exposure is zero; the gain is checked first (`"gain"`), then the exposure (`"exposure"`); on success the getters return the exposure in seconds, the gain, and the image's float buffer |
| `Input.FromVec` | src/input.rs:208-212 | the wrapped list has the vector's length, and its slice and vector are the vector |
| `Input.FromVecRoundTrip` | src/input.rs:177-212 | `From<Vec>` and `into_vec` are inverse, and `is_empty` holds exactly for the empty vector |
| `Extensions.ToNdArrayBuffer` | src/extensions.rs:16-46 | luma-family images give one channel and every other variant gives three; element `[y][x][c]` is sample `c` of pixel `(x, y)` normalised by the bit depth, with alpha dropped |
| `Extensions.CastToU16` | src/extensions.rs:54-55 | the saturating `as u16`: 0 at or below zero, 65535 at or above `u16::MAX`, the integer part in between |
| `Extensions.FromNdArrayBuffer` | src/extensions.rs:50-73 | a one-channel buffer becomes a `Luma16` image of `v * 65535` cast to `u16`; a three-channel buffer becomes an `Rgb32F` image with the values copied; the size is `(width, height)` |
| `Extensions.RgbBufferRoundTrip` | src/extensions.rs:16-73 | a three-channel buffer survives the trip through an `Rgb32F` image unchanged |
| `Extensions.LumaBufferRoundTrip` | src/extensions.rs:16-73 | a one-channel buffer with values in [0, 1] comes back rounded down to a multiple of 1/65535, less than one step lower |
| `Extensions.RgbImageRoundTrip` | src/extensions.rs:16-73 | an `Rgb32F` image survives the trip through a buffer unchanged |
| `Extensions.Luma16ImageRoundTrip` | src/extensions.rs:16-73 | a `Luma16` image of 16-bit integer samples survives the trip through a buffer unchanged |
| `Image.ToLuma32F` | src/input.rs:104 | `to_luma32f` keeps the size; each value times the bit-depth maximum gives back the luma sample, so samples within the bit depth land in [0, 1] |
| `Image.ToRgb32F` | src/stretch.rs:21 | `to_rgb32f` keeps the size and gives three values per pixel; each value times the bit-depth maximum gives back the matching sample (the luma sample for a luma image, whose three values are then equal); an `Rgb32F` image is returned unchanged |
| `Util.TransposeVec` | src/util.rs:11-27 | the one-pass push loop computes the transpose: output row `j` is the `j`-th elements of the input rows, in order |
| `Util.TransposeRectangular` | src/util.rs:11-27 | on a rectangular matrix the transpose has swapped dimensions and swaps the indices |
| `Util.TransposeInvolution` | src/util.rs:11-27 | transposing a rectangular matrix with non-empty rows twice gives it back |
| `Util.TransposeExample` | src/util.rs:3-10 | the documented example maps `[[1,2,3],[4,5,6],[7,8,9]]` to `[[1,4,7],[2,5,8],[3,6,9]]` |
| `Util.ChunksOfFlatten` | src/stretch.rs:22-27 | `chunks_exact(n)` of a flattened matrix with rows of length `n` gives the rows back |
| `Image.RgbFromVec` | src/stretch.rs:52-58 | `ImageBuffer::from_vec` fails exactly when the buffer holds fewer than `3 * width * height` values; otherwise pixel `p` is the `p`-th chunk of three |
| `Stretch.ReduceMax` | src/stretch.rs:34 | `reduce(f32::max)` is `None` exactly for an empty channel, and otherwise a value of the channel no smaller than any other |
| `Stretch.ReduceMin` | src/stretch.rs:35 | `reduce(f32::min)` is `None` exactly for an empty channel, and otherwise a value of the channel no larger than any other |
| `Stretch.ChannelMax` | src/stretch.rs:34 | the largest value of a non-empty channel, which belongs to the channel; 1 for an empty channel |
| `Stretch.ChannelMin` | src/stretch.rs:35 | the smallest value of a non-empty channel, which belongs to the channel; 0 for an empty channel |
| `Stretch.StretchChannel` | src/stretch.rs:33-43 | the per-channel closure gives one output per sample, and equal samples give equal outputs; its bounds, extremes and order are the lemmas below |
| `Stretch.ScalePixel` | src/stretch.rs:10-12 | with `max != min` the result times `max - min` is `pixel - min`; with `max == min` it is NaN for `pixel == min` and an infinity of the sign of `pixel - min` otherwise |
| `Stretch.StretchBounds` | src/stretch.rs:33-44 | a channel that has a range is mapped into [0, 1] |
| `Stretch.StretchExtremes` | src/stretch.rs:33-44 | exactly the channel's minima become 0 and exactly its maxima become 1, and both occur in a non-empty channel |
| `Stretch.StretchMonotone` | src/stretch.rs:33-44 | the stretch keeps the order of a channel's values, in both directions |
| `Stretch.ConstantChannelIsNaN` | src/stretch.rs:33-44 | a non-empty channel whose values are all equal comes out NaN everywhere |
| `Stretch.SplitChannels` | src/stretch.rs:21-29 | `as_raw`, then `chunks_exact(3)`, then `transpose_vec` gives the red, green and blue channels of the pixels, in row-major order |
| `Stretch.MergeChannels` | src/stretch.rs:46-50 | transposing the channels back and flattening them gives a raw buffer whose `p`-th chunk of three holds sample `p` of each channel |
| `Stretch.ApplyHistogramStretch` | src/stretch.rs:18-59 | the result is an `Rgb32F` image of the same size, and channel `c` of pixel `p` is the stretch of channel `c` at position `p` |
| `Stretch.StretchedImageInUnitRange` | src/stretch.rs:18-59 | every sample of the stretched image lies in [0, 1] |
| `Stretch.StretchedImageOrder` | src/stretch.rs:18-59 | within one channel, the output keeps the order of the input samples in both directions |
| `Stretch.StretchedImageExtremes` | src/stretch.rs:18-59 | each channel of the output reaches both 0 and 1 |
| `Stretch.StretchedPixel` | src/stretch.rs:18-59 | sample `c` of output pixel `p` is `scale_pixel` of sample `c` of input pixel `p`, using the minimum and maximum of channel `c` only |
| `Exif.Rational.ToF32` | src/exif.rs:30 | a rational with a non-zero denominator gives the finite quotient; `0/0` gives NaN and `n/0` with `n > 0` gives positive infinity |
| `Exif.GetExposures` | src/exif.rs:22-33 | an error exactly when the ExposureTime field is absent; otherwise the first rational of a non-empty rational value as f32, and 0 for any other value |
| `Exif.GainOf` | src/exif.rs:52-54 | a non-empty `Long` or `Short` gives its first element as the gain; any other value gives 0 |
| `Exif.GetGains` | src/exif.rs:40-55 | as written: an error exactly when PhotographicSensitivity is absent; otherwise the gain of the first field present, in the order ISOSpeed, StandardOutputSensitivity, PhotographicSensitivity |
| `Exif.GetGainsRejectsIsoSpeedAlone` | src/exif.rs:40-49 | metadata holding only ISOSpeed = 100 is rejected, although a gain field is present |
| `Exif.GetGainsLazy` | src/exif.rs:40-55 | corrected: an error exactly when none of the three fields is present; otherwise the gain of the first one present |
| `Exif.GetGainsLazyExtends` | src/exif.rs:40-55 | the corrected selection agrees with the original wherever the original succeeds, fails only where the original fails, and gives 100 for the ISOSpeed-only example |

## Left out

- Reading files and decoding images (`src/io.rs`) are not modelled, and neither is `get_exif_data`. The EXIF model starts from the decoded fields of the primary image directory.
- `HDRInput::new`, `HDRInput::with_exposure_and_gain` and the two `TryFrom` impls are not modelled. Besides reading files and chaining the modelled functions with `?`, `TryFrom<&Path>` converts the exposure with `Duration::from_secs_f32` (src/input.rs:169). That call panics on the NaN or infinity that `Exif.Rational.ToF32` yields for an ExposureTime of `0/0` or `n/0`, and on a negative or too large value; this panic is not modelled.
- Conversion between colour families inside the `image` crate is not modelled. This covers RGB to luma and non-RGB encodings. `to_rgb32f` of a luma image replicates the sample.
- The thread-level parallelism of rayon is not modelled. The reductions are sequential folds, and `Poisson.EstimateOrderIndependent` proves that the order does not matter.
- `f32` rounding, overflow and `u32` dimension limits are not modelled. All arithmetic is exact over the reals.
- The gain of `Exif.GetGains` is the exact `Long` or `Short` value. The `as f32` rounding of a large `Long` is not modelled.
- `src/mtf.rs`, the `Display` impls of `src/error.rs`, `src/main.rs` and the example program are not part of this model.
- `Stretch.ApplyHistogramStretch`: the contract requires at least one pixel, because `transpose_vec` unwraps the first row. It also requires a range in every channel. For a constant channel the source produces NaN; that case is stated on its own by `Stretch.ConstantChannelIsNaN`, not by this contract.
- `Merge.HdrMergeImages`: the contract requires buffers of one shape with 1 or 3 channels. The source checks neither. The scaling panics for another channel count. Shapes that differ are not checked: ndarray's `+` broadcasts a radiance of a compatible shape onto the accumulator, and panics on any other. For example, a one-channel image is added to all three channels of an RGB first image of the same size. That broadcasting is not modelled.
- `Poisson.CalculatePoissonEstimate`: the contract requires a non-empty stack of one shape. The source panics on `first().unwrap()` for an empty stack. For shapes that differ, broadcast-compatible ones are silently broadcast in the reduction and the others panic; neither case is modelled.
- `Merge.MergedLumaPixel`: the one-channel case is stated one pixel at a time, with the weighted average passed as `v`. It is not stated as one quantified lemma.

Behaviour of the code that a reader might expect to be otherwise; the model follows the code:

- The stretch of a constant channel divides zero by zero, which gives NaN and not 0.
- A gain field that is present but is not a non-empty `Long` or `Short` gives 0. The crate's README example substitutes 1 only when `get_gains` fails, which is a different case.
- The doc comment of `hdr_merge_images` (src/lib.rs:29-35) promises errors for non-RGB inputs and for inputs of different sizes. The function checks neither. Its only error is for fewer than two inputs.

## Findings

| source | as written | input that shows it | evidently intended | confidence | as-written member | corrected member |
|---|---|---|---|---|---|---|
| src/exif.rs:43-47 | The argument of each `unwrap_or` is evaluated before the call. The PhotographicSensitivity lookup and its `?` therefore run first, and a missing PhotographicSensitivity field returns "ISO not found" even when ISOSpeed or StandardOutputSensitivity is present. | EXIF data with `ISOSpeed = Short([100])` and no other sensitivity field | Use the first of ISOSpeed, StandardOutputSensitivity and PhotographicSensitivity that is present, which would give gain 100 here. Fail only when none is present. | not executed | `Exif.GetGainsRejectsIsoSpeedAlone` | `Exif.GetGainsLazyExtends` |
