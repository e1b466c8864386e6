/** `NDArrayBuffer for DynamicImage` (src/extensions.rs): conversion of a
    decoded image into the `(height, width, channels)` float buffer of the
    estimator, and of a buffer back into an image. */
module Extensions {
  import opened NdArray
  import opened Image

  /** `u16::MAX` as the f32 factor used when quantising. */
  const U16Max: real := 65535.0

  /** `to_nd_array_buffer`: luma-family images give one channel holding the
      normalised luma; every other variant gives three channels holding the
      normalised red, green and blue samples at channels 0, 1, 2, alpha
      dropped.  Pixel `(x, y)` lands at `[y][x]`. */
  function ToNdArrayBuffer(image: DynamicImage): (b: Array3)
    requires image.Valid()
    ensures b.Valid() && b.height == image.height && b.width == image.width
    ensures IsLuma(image.color) <==> b.channels == 1
    ensures !IsLuma(image.color) <==> b.channels == 3
    ensures forall y, x, c :: 0 <= y < b.height && 0 <= x < b.width && 0 <= c < b.channels ==>
      b.data[y][x][c] == image.rows[y][x][c] / SampleMax(image.color)
  {
    var h := image.height;
    var w := image.width;
    if IsLuma(image.color) then
      var luma := ToLuma32F(image);
      Array3(h, w, 1,
        seq(h, y requires 0 <= y < h =>
          seq(w, x requires 0 <= x < w => [luma[y][x]])))
    else
      var rgb := ToRgb32F(image);
      Array3(h, w, 3,
        seq(h, y requires 0 <= y < h =>
          seq(w, x requires 0 <= x < w => var px := rgb[y][x]; [px[0], px[1], px[2]])))
  }

  /** The saturating float-to-integer cast `as u16`: truncation toward zero,
      with values below 0 sent to 0 and values above `u16::MAX` to `u16::MAX`. */
  function CastToU16(v: real): (q: nat)
    ensures q <= 65535
    ensures v <= 0.0 ==> q == 0
    ensures v >= U16Max ==> q == 65535
    ensures 0.0 <= v <= U16Max ==> q as real <= v < q as real + 1.0
  {
    if v <= 0.0 then 0 else if v >= U16Max then 65535 else v.Floor
  }

  /** `from_nd_array_buffer`: a one-channel buffer becomes a `Luma16` image
      of quantised intensities, a three-channel buffer an `Rgb32F` image with
      the values copied unchanged and unclamped; any other channel count is
      a panic. */
  function FromNdArrayBuffer(b: Array3): (image: DynamicImage)
    requires b.Valid() && (b.channels == 1 || b.channels == 3)
    ensures image.Valid() && image.Dimensions() == (b.width, b.height)
    ensures b.channels == 1 ==> image.color == Luma16
    ensures b.channels == 3 ==> image.color == Rgb32F
    ensures forall y, x :: 0 <= y < b.height && 0 <= x < b.width ==>
      && (b.channels == 1 ==> image.rows[y][x] == [CastToU16(b.data[y][x][0] * U16Max) as real])
      && (b.channels == 3 ==> image.rows[y][x] == b.data[y][x])
  {
    var h := b.height;
    var w := b.width;
    if b.channels == 1 then
      DynamicImage(Luma16, w, h,
        seq(h, y requires 0 <= y < h =>
          seq(w, x requires 0 <= x < w => [CastToU16(b.data[y][x][0] * U16Max) as real])))
    else
      DynamicImage(Rgb32F, w, h,
        seq(h, y requires 0 <= y < h =>
          seq(w, x requires 0 <= x < w => var v := b.data[y][x]; [v[0], v[1], v[2]])))
  }

  /** A three-channel buffer survives the trip through an `Rgb32F` image
      unchanged. */
  lemma RgbBufferRoundTrip(b: Array3)
    requires b.Valid() && b.channels == 3
    ensures ToNdArrayBuffer(FromNdArrayBuffer(b)) == b
  {
    var r := ToNdArrayBuffer(FromNdArrayBuffer(b));
    Extensionality(r, b);
  }

  /** A one-channel buffer with values in [0, 1] comes back quantised to a
      multiple of 1/65535: never larger, and smaller by less than one step. */
  lemma LumaBufferRoundTrip(b: Array3)
    requires b.Valid() && b.channels == 1
    requires forall y, x :: 0 <= y < b.height && 0 <= x < b.width ==> 0.0 <= b.data[y][x][0] <= 1.0
    ensures var r := ToNdArrayBuffer(FromNdArrayBuffer(b));
      && r.Valid() && r.Dim() == b.Dim()
      && forall y, x :: 0 <= y < b.height && 0 <= x < b.width ==>
           r.data[y][x][0] <= b.data[y][x][0] < r.data[y][x][0] + 1.0 / U16Max
  {
    var image := FromNdArrayBuffer(b);
    var r := ToNdArrayBuffer(image);
    forall y, x | 0 <= y < b.height && 0 <= x < b.width
      ensures r.data[y][x][0] <= b.data[y][x][0] < r.data[y][x][0] + 1.0 / U16Max
    {
      var v := b.data[y][x][0];
      var q := CastToU16(v * U16Max) as real;
      assert r.data[y][x][0] == q / U16Max;
      assert q <= v * U16Max < q + 1.0;
    }
  }

  /** An `Rgb32F` image survives the trip through a buffer unchanged. */
  lemma RgbImageRoundTrip(image: DynamicImage)
    requires image.Valid() && image.color == Rgb32F
    ensures FromNdArrayBuffer(ToNdArrayBuffer(image)) == image
  {
    var r := FromNdArrayBuffer(ToNdArrayBuffer(image));
    forall y | 0 <= y < image.height
      ensures r.rows[y] == image.rows[y]
    {
      forall x | 0 <= x < image.width
        ensures r.rows[y][x] == image.rows[y][x]
      {
      }
    }
  }

  /** A `Luma16` image whose samples are 16-bit integers survives the trip
      through a buffer unchanged. */
  lemma Luma16ImageRoundTrip(image: DynamicImage)
    requires image.Valid() && image.color == Luma16
    requires forall y, x :: 0 <= y < image.height && 0 <= x < image.width ==>
      image.rows[y][x][0] == image.rows[y][x][0].Floor as real && 0.0 <= image.rows[y][x][0] <= U16Max
    ensures FromNdArrayBuffer(ToNdArrayBuffer(image)) == image
  {
    var b := ToNdArrayBuffer(image);
    var r := FromNdArrayBuffer(b);
    forall y | 0 <= y < image.height
      ensures r.rows[y] == image.rows[y]
    {
      forall x | 0 <= x < image.width
        ensures r.rows[y][x] == image.rows[y][x]
      {
        var v := image.rows[y][x][0];
        assert b.data[y][x][0] * U16Max == v;
        assert CastToU16(v) as real == v;
      }
    }
  }
}
