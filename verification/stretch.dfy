/** The histogram stretch (src/stretch.rs): every colour channel of an image
    is mapped affinely so that its smallest value becomes 0 and its largest
    becomes 1, making a linear HDR result viewable. */
module Stretch {
  import opened Errors
  import opened Floats
  import opened Image
  import Util

  /** `f32::max` and `f32::min` on values that are not NaN. */
  function Max(a: real, b: real): real {
    if a >= b then a else b
  }

  function Min(a: real, b: real): real {
    if a <= b then a else b
  }

  /** `iter().copied().reduce(f32::max)`: `None` for an empty channel,
      otherwise the greatest value, folded from the left. */
  function ReduceMax(s: seq<real>): (r: Option<real>)
    ensures r.Some? <==> |s| > 0
    ensures r.Some? ==> r.value in s && forall i :: 0 <= i < |s| ==> s[i] <= r.value
  {
    if |s| == 0 then None
    else if |s| == 1 then Some(s[0])
    else Some(Max(ReduceMax(s[..|s| - 1]).value, s[|s| - 1]))
  }

  /** `iter().copied().reduce(f32::min)`. */
  function ReduceMin(s: seq<real>): (r: Option<real>)
    ensures r.Some? <==> |s| > 0
    ensures r.Some? ==> r.value in s && forall i :: 0 <= i < |s| ==> r.value <= s[i]
  {
    if |s| == 0 then None
    else if |s| == 1 then Some(s[0])
    else Some(Min(ReduceMin(s[..|s| - 1]).value, s[|s| - 1]))
  }

  /** The channel's largest value, 1 for an empty channel. */
  function ChannelMax(channel: seq<real>): (m: real)
    ensures |channel| == 0 ==> m == 1.0
    ensures |channel| > 0 ==> m in channel && forall i :: 0 <= i < |channel| ==> channel[i] <= m
  {
    ReduceMax(channel).UnwrapOr(1.0)
  }

  /** The channel's smallest value, 0 for an empty channel. */
  function ChannelMin(channel: seq<real>): (m: real)
    ensures |channel| == 0 ==> m == 0.0
    ensures |channel| > 0 ==> m in channel && forall i :: 0 <= i < |channel| ==> m <= channel[i]
  {
    ReduceMin(channel).UnwrapOr(0.0)
  }

  /** The channel's values are not all equal, so the stretch divides by a
      non-zero range. */
  predicate HasRange(channel: seq<real>) {
    ChannelMin(channel) < ChannelMax(channel)
  }

  /** `scale_pixel`: `(pixel - min) * (1 / (max - min))` in f32.  With
      `max == min` the reciprocal is `+inf`, so the result is NaN for
      `pixel == min` and an infinity of the sign of `pixel - min` otherwise. */
  function ScalePixel(pixel: real, min: real, max: real): (r: Float)
    ensures max != min ==> r.Finite? && r.value * (max - min) == pixel - min
    ensures max == min ==> (r.NaN? <==> pixel == min)
    ensures max == min && pixel != min ==> r == Infinity(pixel < min)
  {
    if max - min == 0.0 then
      if pixel - min == 0.0 then NaN else Infinity(pixel - min < 0.0)
    else
      Finite((pixel - min) * (1.0 / (max - min)))
  }

  /** The per-channel closure of `apply_histogram_stretch`. */
  function StretchChannel(channel: seq<real>): (r: seq<Float>)
    ensures |r| == |channel|
    ensures forall i, j :: 0 <= i < |channel| && 0 <= j < |channel| && channel[i] == channel[j] ==> r[i] == r[j]
  {
    var max := ChannelMax(channel);
    var min := ChannelMin(channel);
    seq(|channel|, i requires 0 <= i < |channel| => ScalePixel(channel[i], min, max))
  }

  lemma ScaleInRange(v: real, min: real, max: real)
    requires min < max && min <= v <= max
    ensures 0.0 <= ScalePixel(v, min, max).value <= 1.0
  {
    var k := 1.0 / (max - min);
    assert k > 0.0;
    assert (v - min) * k <= (max - min) * k;
  }

  lemma ScaleOrder(a: real, b: real, min: real, max: real)
    requires min < max
    ensures a <= b <==> ScalePixel(a, min, max).value <= ScalePixel(b, min, max).value
  {
    var k := 1.0 / (max - min);
    assert k > 0.0;
    var va := ScalePixel(a, min, max).value;
    var vb := ScalePixel(b, min, max).value;
    assert va == (a - min) * k && vb == (b - min) * k;
    assert vb - va == (b - a) * k;
    if a <= b {
      assert (b - a) * k >= 0.0;
    } else {
      assert (a - b) * k > 0.0;
    }
  }

  /** A channel with a range is mapped into [0, 1]. */
  lemma StretchBounds(channel: seq<real>)
    requires HasRange(channel)
    ensures forall i :: 0 <= i < |channel| ==>
      StretchChannel(channel)[i].Finite? && 0.0 <= StretchChannel(channel)[i].value <= 1.0
  {
    forall i | 0 <= i < |channel|
      ensures StretchChannel(channel)[i].Finite? && 0.0 <= StretchChannel(channel)[i].value <= 1.0
    {
      ScaleInRange(channel[i], ChannelMin(channel), ChannelMax(channel));
    }
  }

  lemma ScaleEnds(v: real, min: real, max: real)
    requires min < max
    ensures v == min <==> ScalePixel(v, min, max) == Finite(0.0)
    ensures v == max <==> ScalePixel(v, min, max) == Finite(1.0)
  {
    var r := ScalePixel(v, min, max);
    assert r.value * (max - min) == v - min;
    if r.value == 1.0 {
      assert v - min == max - min;
    }
  }

  /** The smallest values of a channel with a range become exactly 0 and the
      largest exactly 1, and no other value does. */
  lemma StretchExtremes(channel: seq<real>)
    requires HasRange(channel)
    ensures forall i :: 0 <= i < |channel| ==>
      && (channel[i] == ChannelMin(channel) <==> StretchChannel(channel)[i] == Finite(0.0))
      && (channel[i] == ChannelMax(channel) <==> StretchChannel(channel)[i] == Finite(1.0))
    ensures |channel| > 0 ==> exists i :: 0 <= i < |channel| && StretchChannel(channel)[i] == Finite(0.0)
    ensures |channel| > 0 ==> exists i :: 0 <= i < |channel| && StretchChannel(channel)[i] == Finite(1.0)
  {
    var min := ChannelMin(channel);
    var max := ChannelMax(channel);
    var r := StretchChannel(channel);
    forall i | 0 <= i < |channel|
      ensures (channel[i] == min <==> r[i] == Finite(0.0)) && (channel[i] == max <==> r[i] == Finite(1.0))
    {
      ScaleEnds(channel[i], min, max);
    }
    if |channel| > 0 {
      var lo :| 0 <= lo < |channel| && channel[lo] == min;
      var hi :| 0 <= hi < |channel| && channel[hi] == max;
      assert r[lo] == Finite(0.0) && r[hi] == Finite(1.0);
    }
  }

  /** The stretch keeps the order of the values of a channel, both ways. */
  lemma StretchMonotone(channel: seq<real>)
    requires HasRange(channel)
    ensures forall i, j :: 0 <= i < |channel| && 0 <= j < |channel| ==>
      (channel[i] <= channel[j] <==> StretchChannel(channel)[i].value <= StretchChannel(channel)[j].value)
  {
    forall i, j | 0 <= i < |channel| && 0 <= j < |channel|
      ensures channel[i] <= channel[j] <==> StretchChannel(channel)[i].value <= StretchChannel(channel)[j].value
    {
      ScaleOrder(channel[i], channel[j], ChannelMin(channel), ChannelMax(channel));
    }
  }

  /** A non-empty channel without a range (all values equal) comes out as
      NaN everywhere: the source divides zero by zero. */
  lemma ConstantChannelIsNaN(channel: seq<real>)
    requires |channel| > 0 && !HasRange(channel)
    ensures forall i :: 0 <= i < |channel| ==> StretchChannel(channel)[i].NaN?
  {
    var min := ChannelMin(channel);
    var max := ChannelMax(channel);
    assert min == max by {
      assert min <= channel[0] <= max;
    }
    forall i | 0 <= i < |channel|
      ensures StretchChannel(channel)[i].NaN?
    {
      assert min <= channel[i] <= max;
    }
  }

  /** The finite values of a stretched channel. */
  function Values(r: seq<Float>): (v: seq<real>)
    requires forall i :: 0 <= i < |r| ==> r[i].Finite?
    ensures |v| == |r| && forall i :: 0 <= i < |r| ==> Finite(v[i]) == r[i]
  {
    seq(|r|, i requires 0 <= i < |r| => r[i].value)
  }

  /** The pixels of `to_rgb32f()` in row-major order, three values each. */
  function RgbPixels(image: DynamicImage): seq<seq<real>>
    requires image.Valid()
  {
    Util.Flatten(ToRgb32F(image))
  }

  /** Channel `c` (0 red, 1 green, 2 blue) of every pixel, in row-major order. */
  function RgbChannel(image: DynamicImage, c: nat): seq<real>
    requires image.Valid()
  {
    Util.Column(RgbPixels(image), c)
  }

  /** What `apply_histogram_stretch` needs to produce numbers: at least one
      pixel (`transpose_vec` unwraps the first row) and, for a result free of
      NaN, a range in every channel. */
  ghost predicate Stretchable(image: DynamicImage)
  {
    && image.Valid() && image.width * image.height > 0
    && forall c :: 0 <= c < 3 ==> HasRange(RgbChannel(image, c))
  }

  const BufferMessage := "Failed to create image buffer, buffer is not large enough"

  /** The pixels of `to_rgb32f()` have three values each and there are
      `width * height` of them. */
  lemma RgbPixelsShape(image: DynamicImage)
    requires image.Valid()
    ensures |RgbPixels(image)| == image.width * image.height
    ensures forall p :: 0 <= p < |RgbPixels(image)| ==> |RgbPixels(image)[p]| == 3
  {
    var rgb := ToRgb32F(image);
    var pixels := RgbPixels(image);
    Util.FlattenLength(rgb, image.width);
    assert image.height * image.width == image.width * image.height;
    forall p | 0 <= p < |pixels|
      ensures |pixels[p]| == 3
    {
      assert pixels[p] in pixels;
      Util.FlattenMember(rgb, pixels[p]);
      var y :| 0 <= y < |rgb| && pixels[p] in rgb[y];
      var x :| 0 <= x < |rgb[y]| && rgb[y][x] == pixels[p];
    }
  }

  /** `as_raw()` followed by `chunks_exact(3)` gives the pixels back. */
  lemma RawChunks(image: DynamicImage)
    requires image.Valid()
    ensures Util.ChunksExact(Util.Flatten(RgbPixels(image)), 3) == RgbPixels(image)
  {
    RgbPixelsShape(image);
    Util.ChunksOfFlatten(RgbPixels(image), 3);
  }

  /** The three channels, each stretched on its own. */
  function StretchChannels(channels: seq<seq<real>>): (r: seq<seq<real>>)
    requires forall c :: 0 <= c < |channels| ==> HasRange(channels[c])
    ensures |r| == |channels|
    ensures forall c :: 0 <= c < |channels| ==> |r[c]| == |channels[c]|
    ensures forall c, p :: 0 <= c < |channels| && 0 <= p < |channels[c]| ==>
      Finite(r[c][p]) == StretchChannel(channels[c])[p]
  {
    seq(|channels|, c requires 0 <= c < |channels| =>
      StretchBounds(channels[c]); Values(StretchChannel(channels[c])))
  }

  /** `as_raw().chunks_exact(3)` transposed: the red, green and blue
      channels of the image, one sample per pixel each. */
  function SplitChannels(image: DynamicImage): (r: seq<seq<real>>)
    requires image.Valid() && image.width * image.height > 0
    ensures |r| == 3
    ensures forall c :: 0 <= c < 3 ==> r[c] == RgbChannel(image, c) && |r[c]| == image.width * image.height
  {
    var pixelWiseChannels := Util.ChunksExact(Util.Flatten(RgbPixels(image)), 3);
    RawChunks(image);
    RgbPixelsShape(image);
    assert Util.Rectangular(pixelWiseChannels) by {
      assert |pixelWiseChannels[0]| == 3;
    }
    RgbChannelAt(image, 0);
    RgbChannelAt(image, 1);
    RgbChannelAt(image, 2);
    Util.Transpose(pixelWiseChannels)
  }

  /** The stretched channels transposed back into pixels and flattened: a
      raw buffer whose `chunks_exact(3)` are the pixels, pixel `p` holding
      sample `p` of each channel. */
  function MergeChannels(channels: seq<seq<real>>, n: nat): (buf: seq<real>)
    requires |channels| == 3 && n > 0
    requires forall c :: 0 <= c < 3 ==> |channels[c]| == n
    ensures |buf| == 3 * n
    ensures |Util.ChunksExact(buf, 3)| == n
    ensures forall p, c :: 0 <= p < n && 0 <= c < 3 ==>
      |Util.ChunksExact(buf, 3)[p]| == 3 && Util.ChunksExact(buf, 3)[p][c] == channels[c][p]
  {
    assert Util.Rectangular(channels);
    var transposed := Util.Transpose(channels);
    Util.TransposeRectangular(channels);
    Util.FlattenLength(transposed, 3);
    Util.ChunksOfFlatten(transposed, 3);
    Util.Flatten(transposed)
  }

  /** `apply_histogram_stretch`: the raw RGB values cut into pixels,
      transposed into channels, each channel stretched, transposed back,
      flattened and wrapped into an `Rgb32F` image of the same size. */
  function ApplyHistogramStretch(image: DynamicImage): (r: Result<DynamicImage>)
    requires Stretchable(image)
    ensures r.Ok? && r.value.Valid() && r.value.color == Rgb32F && r.value.Dimensions() == image.Dimensions()
    ensures forall c :: 0 <= c < 3 ==> |RgbChannel(image, c)| == image.width * image.height
    ensures |r.value.Pixels()| == image.width * image.height
    ensures forall p :: 0 <= p < |r.value.Pixels()| ==> |r.value.Pixels()[p]| == 3
    ensures forall p, c :: 0 <= p < |r.value.Pixels()| && 0 <= c < 3 ==>
      Finite(r.value.Pixels()[p][c]) == StretchChannel(RgbChannel(image, c))[p]
  {
    var (width, height) := image.Dimensions();
    var channelWisePixels := SplitChannels(image);
    var stretched := StretchChannels(channelWisePixels);
    var pixelsBuf := MergeChannels(stretched, width * height);
    assert pixelsBuf[..3 * (width * height)] == pixelsBuf;
    match RgbFromVec(width, height, pixelsBuf)
    case None => Err(UnknownError(BufferMessage))
    case Some(buffer) => Ok(buffer)
  }

  /** Channel `c` of the pixels, position by position. */
  lemma RgbChannelAt(image: DynamicImage, c: nat)
    requires image.Valid() && c < 3
    ensures |RgbChannel(image, c)| == |RgbPixels(image)|
    ensures forall p :: 0 <= p < |RgbPixels(image)| ==> |RgbPixels(image)[p]| == 3 && RgbChannel(image, c)[p] == RgbPixels(image)[p][c]
  {
    RgbPixelsShape(image);
    Util.ColumnFull(RgbPixels(image), c);
  }

  /** Every sample of the stretched image lies in [0, 1]. */
  lemma StretchedImageInUnitRange(image: DynamicImage)
    requires Stretchable(image)
    ensures var out := ApplyHistogramStretch(image).value;
      forall p, c :: 0 <= p < |out.Pixels()| && 0 <= c < 3 ==> 0.0 <= out.Pixels()[p][c] <= 1.0
  {
    var out := ApplyHistogramStretch(image).value;
    forall p, c | 0 <= p < |out.Pixels()| && 0 <= c < 3
      ensures 0.0 <= out.Pixels()[p][c] <= 1.0
    {
      StretchBounds(RgbChannel(image, c));
    }
  }

  /** Within one channel the stretched image keeps the order of the input
      samples, both ways, and the stretch of a pixel's channel depends on
      that channel of the image alone. */
  lemma StretchedImageOrder(image: DynamicImage, c: nat, p: nat, q: nat)
    requires Stretchable(image) && c < 3
    requires p < image.width * image.height && q < image.width * image.height
    ensures var out := ApplyHistogramStretch(image).value;
      RgbChannel(image, c)[p] <= RgbChannel(image, c)[q] <==> out.Pixels()[p][c] <= out.Pixels()[q][c]
  {
    var out := ApplyHistogramStretch(image).value;
    StretchBounds(RgbChannel(image, c));
    StretchMonotone(RgbChannel(image, c));
  }

  /** In every channel of the stretched image the darkest input samples
      become 0 and the brightest 1. */
  lemma StretchedImageExtremes(image: DynamicImage, c: nat)
    requires Stretchable(image) && c < 3
    ensures var out := ApplyHistogramStretch(image).value;
      && (exists p :: 0 <= p < |out.Pixels()| && out.Pixels()[p][c] == 0.0)
      && (exists p :: 0 <= p < |out.Pixels()| && out.Pixels()[p][c] == 1.0)
  {
    var out := ApplyHistogramStretch(image).value;
    StretchExtremes(RgbChannel(image, c));
    var lo :| 0 <= lo < |RgbChannel(image, c)| && StretchChannel(RgbChannel(image, c))[lo] == Finite(0.0);
    var hi :| 0 <= hi < |RgbChannel(image, c)| && StretchChannel(RgbChannel(image, c))[hi] == Finite(1.0);
    assert out.Pixels()[lo][c] == 0.0;
    assert out.Pixels()[hi][c] == 1.0;
  }

  /** Sample `c` of output pixel `p` is sample `c` of input pixel `p`
      mapped by `scale_pixel` with the range of channel `c` alone. */
  lemma StretchedPixel(image: DynamicImage, p: nat, c: nat)
    requires Stretchable(image) && c < 3 && p < image.width * image.height
    ensures var out := ApplyHistogramStretch(image).value;
      var min := ChannelMin(RgbChannel(image, c));
      var max := ChannelMax(RgbChannel(image, c));
      && |RgbPixels(image)| == image.width * image.height && |RgbPixels(image)[p]| == 3
      && min < max
      && Finite(out.Pixels()[p][c]) == ScalePixel(RgbPixels(image)[p][c], min, max)
  {
    var out := ApplyHistogramStretch(image).value;
    var channel := RgbChannel(image, c);
    var min := ChannelMin(channel);
    var max := ChannelMax(channel);
    RgbChannelAt(image, c);
    assert channel[p] == RgbPixels(image)[p][c];
    var v := ScalePixel(channel[p], min, max);
    assert Finite(out.Pixels()[p][c]) == StretchChannel(channel)[p] == v;
  }
}
