/** `HDRInput` and `HDRInputList` (src/input.rs): one exposure of the stack
    (pixel buffer, exposure time in seconds, gain) and the list of them a
    merge consumes. */
module Input {
  import opened Errors
  import opened Floats
  import opened NdArray
  import opened Image
  import Extensions

  /** `std::time::Duration`: whole seconds and nanoseconds below one second. */
  datatype Duration = Duration(secs: nat, nanos: nat) {

    ghost predicate Valid() {
      nanos < 1_000_000_000
    }

    predicate IsZero() {
      secs == 0 && nanos == 0
    }

    /** `as_secs_f32`, without the rounding to f32. */
    function AsSecs(): real {
      secs as real + nanos as real / 1_000_000_000.0
    }
  }

  type Positive = r: real | r > 0.0 witness 1.0

  /** The fields are private in the source; `with_image` is the only
      constructor this model covers, and what it builds satisfies `Valid`. */
  datatype HdrInput = HdrInput(buffer: Array3, exposure: Positive, gain: Positive) {

    /** A buffer of shape `(height, width, 1)` or `(height, width, 3)`. */
    ghost predicate Valid() {
      buffer.Valid() && (buffer.channels == 1 || buffer.channels == 3)
    }

    function GetExposure(): real {
      exposure
    }

    function GetGain(): real {
      gain
    }

    function GetBuffer(): Array3 {
      buffer
    }
  }

  /** The gain test of `with_image`: finite, not NaN and strictly positive. */
  predicate ValidGain(gain: Float) {
    !(gain.IsInfinite() || gain.IsNan() || gain.value <= 0.0)
  }

  const GainMessage := "Gain must be a valid positive and non-zero floating point number"
  const ExposureMessage := "Exposure must be a positive non-zero duration"

  /** `HDRInput::with_image`: the gain is checked first, then the exposure;
      on success the buffer is the image's `to_nd_array_buffer` layout and the
      exposure is stored in seconds. */
  function WithImage(image: DynamicImage, exposure: Duration, gain: Float): (r: Result<HdrInput>)
    requires image.Valid() && exposure.Valid()
    ensures r.Err? <==> !ValidGain(gain) || exposure.IsZero()
    ensures !ValidGain(gain) ==> r.error == InputError("gain", GainMessage)
    ensures ValidGain(gain) && exposure.IsZero() ==> r.error == InputError("exposure", ExposureMessage)
    ensures r.Ok? ==> && r.value.Valid()
                      && r.value.GetExposure() == exposure.AsSecs()
                      && r.value.GetGain() == gain.value
                      && r.value.GetBuffer() == Extensions.ToNdArrayBuffer(image)
  {
    if gain.IsInfinite() || gain.IsNan() || gain.value <= 0.0 then
      Err(InputError("gain", GainMessage))
    else if exposure.IsZero() then
      Err(InputError("exposure", ExposureMessage))
    else
      Ok(HdrInput(Extensions.ToNdArrayBuffer(image), exposure.AsSecs(), gain.value))
  }

  /** `HDRInputList`, a thin wrapper of `Vec<HDRInput>`. */
  datatype HdrInputList = HdrInputList(items: seq<HdrInput>) {

    function Len(): nat {
      |items|
    }

    function IsEmpty(): (empty: bool)
      ensures empty <==> Len() == 0
    {
      Len() == 0
    }

    function AsSlice(): seq<HdrInput> {
      items
    }

    function IntoVec(): seq<HdrInput> {
      items
    }
  }

  /** `From<Vec<HDRInput>> for HDRInputList`. */
  function FromVec(v: seq<HdrInput>): (list: HdrInputList)
    ensures list.Len() == |v| && list.AsSlice() == v && list.IntoVec() == v
  {
    HdrInputList(v)
  }

  /** Wrapping a vector and unwrapping it again are inverse, and the
      wrapped list is empty exactly when the vector is. */
  lemma FromVecRoundTrip(v: seq<HdrInput>, list: HdrInputList)
    ensures FromVec(v).IntoVec() == v
    ensures FromVec(list.IntoVec()) == list
    ensures FromVec(v).IsEmpty() <==> v == []
  {
  }
}
