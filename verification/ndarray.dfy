/** The part of ndarray's `Array3<f32>` the core relies on: a buffer of
    shape `(height, width, channels)` indexed `[y][x][c]`, and the
    element-wise operations `zeros`, `+`, `*= scalar`, `/= scalar` and the
    broadcast `/= array![[[a, b, c]]]`. */
module NdArray {

  /** The shape keeps its dimensions even when a dimension is zero, as
      `Array3::dim()` does. */
  datatype Array3 = Array3(height: nat, width: nat, channels: nat, data: seq<seq<seq<real>>>) {

    /** The data is laid out as the shape says. */
    ghost predicate Valid() {
      && |data| == height
      && (forall y :: 0 <= y < height ==> |data[y]| == width)
      && (forall y, x :: 0 <= y < height && 0 <= x < width ==> |data[y][x]| == channels)
    }

    function Dim(): (nat, nat, nat) {
      (height, width, channels)
    }

    /** Element `[y][x][c]`, or 0 outside the data; used to name one element
        of many buffers at once. */
    function At(y: nat, x: nat, c: nat): real {
      if y < |data| && x < |data[y]| && c < |data[y][x]| then data[y][x][c] else 0.0
    }
  }

  /** `At(y, x, c)` as a function of the buffer. */
  function Element(y: nat, x: nat, c: nat): Array3 -> real {
    (a: Array3) => a.At(y, x, c)
  }

  /** Two valid buffers of one shape that agree everywhere are equal. */
  lemma Extensionality(a: Array3, b: Array3)
    requires a.Valid() && b.Valid() && a.Dim() == b.Dim()
    requires forall y, x, c :: 0 <= y < a.height && 0 <= x < a.width && 0 <= c < a.channels ==> a.data[y][x][c] == b.data[y][x][c]
    ensures a == b
  {
    forall y | 0 <= y < a.height
      ensures a.data[y] == b.data[y]
    {
      forall x | 0 <= x < a.width
        ensures a.data[y][x] == b.data[y][x]
      {
      }
    }
  }

  /** `Array3::zeros((height, width, channels))`. */
  function Zeros(height: nat, width: nat, channels: nat): (r: Array3)
    ensures r.Valid() && r.Dim() == (height, width, channels)
    ensures forall y, x, c :: 0 <= y < height && 0 <= x < width && 0 <= c < channels ==> r.data[y][x][c] == 0.0
  {
    Array3(height, width, channels, seq(height, _ => seq(width, _ => seq(channels, _ => 0.0))))
  }

  /** `a + b` on buffers of the same shape. */
  function Add(a: Array3, b: Array3): (r: Array3)
    requires a.Valid() && b.Valid() && a.Dim() == b.Dim()
    ensures r.Valid() && r.Dim() == a.Dim()
    ensures forall y, x, c :: 0 <= y < a.height && 0 <= x < a.width && 0 <= c < a.channels ==> r.data[y][x][c] == a.data[y][x][c] + b.data[y][x][c]
  {
    Array3(a.height, a.width, a.channels,
      seq(a.height, y requires 0 <= y < a.height =>
        seq(a.width, x requires 0 <= x < a.width =>
          seq(a.channels, c requires 0 <= c < a.channels => a.data[y][x][c] + b.data[y][x][c]))))
  }

  /** `a *= k`. */
  function Scale(a: Array3, k: real): (r: Array3)
    requires a.Valid()
    ensures r.Valid() && r.Dim() == a.Dim()
    ensures forall y, x, c :: 0 <= y < a.height && 0 <= x < a.width && 0 <= c < a.channels ==> r.data[y][x][c] == a.data[y][x][c] * k
  {
    Array3(a.height, a.width, a.channels,
      seq(a.height, y requires 0 <= y < a.height =>
        seq(a.width, x requires 0 <= x < a.width =>
          seq(a.channels, c requires 0 <= c < a.channels => a.data[y][x][c] * k))))
  }

  /** `a /= k`. */
  function Divide(a: Array3, k: real): (r: Array3)
    requires a.Valid() && k != 0.0
    ensures r.Valid() && r.Dim() == a.Dim()
    ensures forall y, x, c :: 0 <= y < a.height && 0 <= x < a.width && 0 <= c < a.channels ==> r.data[y][x][c] == a.data[y][x][c] / k
  {
    Array3(a.height, a.width, a.channels,
      seq(a.height, y requires 0 <= y < a.height =>
        seq(a.width, x requires 0 <= x < a.width =>
          seq(a.channels, c requires 0 <= c < a.channels => a.data[y][x][c] / k))))
  }

  /** `a /= array![[[d[0], d[1], ...]]]`: the divisor broadcast along the
      channel axis, so channel `c` of every pixel is divided by `d[c]`. */
  function DivideChannels(a: Array3, d: seq<real>): (r: Array3)
    requires a.Valid() && |d| == a.channels
    requires forall c :: 0 <= c < |d| ==> d[c] != 0.0
    ensures r.Valid() && r.Dim() == a.Dim()
    ensures forall y, x, c :: 0 <= y < a.height && 0 <= x < a.width && 0 <= c < a.channels ==> r.data[y][x][c] == a.data[y][x][c] / d[c]
  {
    Array3(a.height, a.width, a.channels,
      seq(a.height, y requires 0 <= y < a.height =>
        seq(a.width, x requires 0 <= x < a.width =>
          seq(a.channels, c requires 0 <= c < a.channels => a.data[y][x][c] / d[c]))))
  }
}
