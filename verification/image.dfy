/** The part of the `image` crate's `DynamicImage` the core touches: the
    colour type (which variant), the dimensions, the pixels, the two
    normalising conversions `to_luma32f` / `to_rgb32f`, and
    `ImageBuffer::from_vec`.  Decoding and colour-space conversion between
    luma and RGB families are not modelled beyond what the core uses. */
module Image {
  import opened Errors
  import Util

  /** The `DynamicImage` variants. */
  datatype ColorType =
    | Luma8 | LumaA8 | Rgb8 | Rgba8
    | Luma16 | LumaA16 | Rgb16 | Rgba16
    | Rgb32F | Rgba32F

  /** The luma family, with or without alpha. */
  predicate IsLuma(color: ColorType) {
    color.Luma8? || color.LumaA8? || color.Luma16? || color.LumaA16?
  }

  /** Samples stored per pixel. */
  function SampleCount(color: ColorType): nat {
    match color
    case Luma8 | Luma16 => 1
    case LumaA8 | LumaA16 => 2
    case Rgb8 | Rgb16 | Rgb32F => 3
    case Rgba8 | Rgba16 | Rgba32F => 4
  }

  /** The largest value of a sample, by which the f32 conversions divide. */
  function SampleMax(color: ColorType): real {
    match color
    case Luma8 | LumaA8 | Rgb8 | Rgba8 => 255.0
    case Luma16 | LumaA16 | Rgb16 | Rgba16 => 65535.0
    case Rgb32F | Rgba32F => 1.0
  }

  /** Pixel `(x, y)` is `rows[y][x]`, the samples stored for it; the crate's
      flat buffer is these pixels in row-major order (`Pixels`). */
  datatype DynamicImage = DynamicImage(color: ColorType, width: nat, height: nat, rows: seq<seq<seq<real>>>) {

    ghost predicate Valid() {
      && |rows| == height
      && (forall y :: 0 <= y < height ==> |rows[y]| == width)
      && (forall y, x :: 0 <= y < height && 0 <= x < width ==> |rows[y][x]| == SampleCount(color))
    }

    function Dimensions(): (nat, nat) {
      (width, height)
    }

    /** The pixels in the order `enumerate_pixels` and the raw buffer use. */
    function Pixels(): seq<seq<real>> {
      Util.Flatten(rows)
    }
  }

  /** `to_luma32f()` of a luma-family image: the luma sample of every pixel,
      normalised by the bit depth; alpha is dropped. */
  function ToLuma32F(image: DynamicImage): (luma: seq<seq<real>>)
    requires image.Valid() && IsLuma(image.color)
    ensures |luma| == image.height
    ensures forall y :: 0 <= y < image.height ==> |luma[y]| == image.width
    ensures forall y, x :: 0 <= y < image.height && 0 <= x < image.width ==>
      luma[y][x] * SampleMax(image.color) == image.rows[y][x][0]
    ensures forall y, x :: 0 <= y < image.height && 0 <= x < image.width && 0.0 <= image.rows[y][x][0] <= SampleMax(image.color) ==>
      0.0 <= luma[y][x] <= 1.0
  {
    var m := SampleMax(image.color);
    seq(image.height, y requires 0 <= y < image.height =>
      seq(image.width, x requires 0 <= x < image.width => image.rows[y][x][0] / m))
  }

  /** `to_rgb32f()`: three normalised samples per pixel; a luma sample is
      replicated into all three, alpha is dropped. */
  function ToRgb32F(image: DynamicImage): (rgb: seq<seq<seq<real>>>)
    requires image.Valid()
    ensures |rgb| == image.height
    ensures forall y :: 0 <= y < image.height ==> |rgb[y]| == image.width
    ensures forall y, x :: 0 <= y < image.height && 0 <= x < image.width ==> |rgb[y][x]| == 3
    ensures forall y, x, c :: 0 <= y < image.height && 0 <= x < image.width && 0 <= c < 3 ==>
      rgb[y][x][c] * SampleMax(image.color) == image.rows[y][x][if IsLuma(image.color) then 0 else c]
    ensures IsLuma(image.color) ==> forall y, x :: 0 <= y < image.height && 0 <= x < image.width ==>
      rgb[y][x][0] == rgb[y][x][1] == rgb[y][x][2]
    ensures image.color == Rgb32F ==> forall y, x :: 0 <= y < image.height && 0 <= x < image.width ==>
      rgb[y][x] == image.rows[y][x]
  {
    var m := SampleMax(image.color);
    seq(image.height, y requires 0 <= y < image.height =>
      seq(image.width, x requires 0 <= x < image.width =>
        var px := image.rows[y][x];
        if IsLuma(image.color) then [px[0] / m, px[0] / m, px[0] / m]
        else [px[0] / m, px[1] / m, px[2] / m]))
  }

  /** `ImageBuffer::<Rgb<f32>, _>::from_vec(width, height, buf)`: `None` when
      the buffer holds fewer than `width * height` pixels; otherwise pixel `p`
      in row-major order is the `p`-th chunk of three values. */
  function RgbFromVec(width: nat, height: nat, buf: seq<real>): (r: Option<DynamicImage>)
    ensures r.Some? <==> |buf| >= 3 * (width * height)
    ensures r.Some? ==> && r.value.Valid() && r.value.color == Rgb32F && r.value.Dimensions() == (width, height)
                        && r.value.Pixels() == Util.ChunksExact(buf[..3 * (width * height)], 3)
  {
    if |buf| < 3 * (width * height) then None
    else
      var pixels := Util.ChunksExact(buf[..3 * (width * height)], 3);
      Util.ChunksLength(buf[..3 * (width * height)], 3, width * height);
      Util.RowsShape(pixels, width, height);
      Some(DynamicImage(Rgb32F, width, height, Util.Rows(pixels, width, height)))
  }
}
