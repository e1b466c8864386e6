/** Selection of the exposure time and the gain from EXIF metadata
    (src/exif.rs).  The decoded metadata is a map from tag to the value of
    that field in the primary image directory; parsing the container is not
    part of this model. */
module Exif {
  import opened Errors
  import opened Floats

  /** The tags the selection consults; every other tag is `OtherTag`. */
  datatype Tag =
    | ExposureTime
    | IsoSpeed
    | StandardOutputSensitivity
    | PhotographicSensitivity
    | OtherTag(number: nat)

  /** An unsigned EXIF rational. */
  datatype Rational = Rational(num: nat, denom: nat) {

    /** `to_f32`: `num / denom` in f32; a zero denominator gives NaN for
        `0 / 0` and positive infinity otherwise. */
    function ToF32(): (f: Float)
      ensures denom > 0 ==> f.Finite? && f.value * denom as real == num as real
      ensures denom == 0 ==> (f.NaN? <==> num == 0)
      ensures denom == 0 && num > 0 ==> f == Infinity(false)
    {
      if denom == 0 then (if num == 0 then NaN else Infinity(false))
      else Finite(num as real / denom as real)
    }
  }

  /** The kinds of value an EXIF field can hold. */
  datatype Value =
    | Byte(bytes: seq<nat>)
    | Ascii(strings: seq<string>)
    | Short(shorts: seq<nat>)
    | Long(longs: seq<nat>)
    | RationalValue(rationals: seq<Rational>)
    | SByte(sbytes: seq<int>)
    | Undefined(raw: seq<nat>)
    | SShort(sshorts: seq<int>)
    | SLong(slongs: seq<int>)
    | SRational(srationals: seq<(int, int)>)
    | FloatValue(floats: seq<real>)
    | DoubleValue(doubles: seq<real>)
    | Unknown

  /** `get_field(tag, In::PRIMARY)` for every tag present. */
  type ExifData = map<Tag, Value>

  const ExposureNotFound := "ExposureTime not found"
  const IsoNotFound := "ISO not found"

  /** `get_exposures`: a missing ExposureTime field is an error; a non-empty
      rational gives its first element; any other value gives 0. */
  function GetExposures(exif: ExifData): (r: Result<Float>)
    ensures r.Err? <==> ExposureTime !in exif
    ensures r.Err? ==> r.error == ExifError(ExposureNotFound)
    ensures r.Ok? && exif[ExposureTime].RationalValue? && |exif[ExposureTime].rationals| > 0 ==>
      r.value == exif[ExposureTime].rationals[0].ToF32()
    ensures r.Ok? && !(exif[ExposureTime].RationalValue? && |exif[ExposureTime].rationals| > 0) ==>
      r.value == Finite(0.0)
  {
    var field :- (if ExposureTime in exif then Some(exif[ExposureTime]) else None).OkOr(ExifError(ExposureNotFound));
    match field
    case RationalValue(v) => if |v| > 0 then Ok(v[0].ToF32()) else Ok(Finite(0.0))
    case _ => Ok(Finite(0.0))
  }

  /** The gain a field's value yields: the first element of a non-empty
      `Long` or `Short` list, as a float, and 0 for anything else. */
  function GainOf(value: Value): (g: real)
    ensures value.Long? && |value.longs| > 0 ==> g == value.longs[0] as real
    ensures value.Short? && |value.shorts| > 0 ==> g == value.shorts[0] as real
    ensures (value.Long? && |value.longs| > 0) || (value.Short? && |value.shorts| > 0) || g == 0.0
    ensures g >= 0.0
  {
    match value
    case Long(v) => if |v| > 0 then v[0] as real else 0.0
    case Short(v) => if |v| > 0 then v[0] as real else 0.0
    case _ => 0.0
  }

  /** Reference definition of the gain field: the first of ISOSpeed,
      StandardOutputSensitivity and PhotographicSensitivity present. */
  function SensitivityField(exif: ExifData): Option<Value>
  {
    if IsoSpeed in exif then Some(exif[IsoSpeed])
    else if StandardOutputSensitivity in exif then Some(exif[StandardOutputSensitivity])
    else if PhotographicSensitivity in exif then Some(exif[PhotographicSensitivity])
    else None
  }

  function Lookup(exif: ExifData, tag: Tag): Option<Value>
  {
    if tag in exif then Some(exif[tag]) else None
  }

  /** `get_gains` as written: the innermost `unwrap_or` argument, with its
      `?`, is evaluated before the outer lookups are consulted, so a missing
      PhotographicSensitivity field is an error even when ISOSpeed or
      StandardOutputSensitivity is present. */
  function GetGains(exif: ExifData): (r: Result<real>)
    ensures r.Err? <==> PhotographicSensitivity !in exif
    ensures r.Err? ==> r.error == ExifError(IsoNotFound)
    ensures r.Ok? ==> SensitivityField(exif).Some? && r.value == GainOf(SensitivityField(exif).value)
  {
    var photographic :- Lookup(exif, PhotographicSensitivity).OkOr(ExifError(IsoNotFound));
    var field := Lookup(exif, IsoSpeed).UnwrapOr(Lookup(exif, StandardOutputSensitivity).UnwrapOr(photographic));
    Ok(GainOf(field))
  }

  /** The input that shows the eager evaluation: an ISO speed of 100 and no
      PhotographicSensitivity field. */
  lemma GetGainsRejectsIsoSpeedAlone()
    ensures SensitivityField(map[IsoSpeed := Short([100])]) == Some(Short([100]))
    ensures GetGains(map[IsoSpeed := Short([100])]) == Err(ExifError(IsoNotFound))
  {
  }

  /** `get_gains` with the fallback evaluated lazily, as the chain of
      `unwrap_or`s evidently intends: an error only when none of the three
      fields is present. */
  function GetGainsLazy(exif: ExifData): (r: Result<real>)
    ensures r.Err? <==> SensitivityField(exif).None?
    ensures r.Err? ==> r.error == ExifError(IsoNotFound)
    ensures r.Ok? ==> r.value == GainOf(SensitivityField(exif).value)
  {
    var field :- (match Lookup(exif, IsoSpeed)
                  case Some(v) => Some(v)
                  case None => match Lookup(exif, StandardOutputSensitivity)
                               case Some(v) => Some(v)
                               case None => Lookup(exif, PhotographicSensitivity)).OkOr(ExifError(IsoNotFound));
    Ok(GainOf(field))
  }

  /** The corrected selection agrees with `get_gains` wherever the latter
      succeeds, and succeeds on every input where a gain field exists. */
  lemma GetGainsLazyExtends(exif: ExifData)
    ensures GetGains(exif).Ok? ==> GetGainsLazy(exif) == GetGains(exif)
    ensures GetGainsLazy(exif).Err? ==> GetGains(exif).Err?
    ensures GetGainsLazy(map[IsoSpeed := Short([100])]) == Ok(100.0)
  {
    var iso := map[IsoSpeed := Short([100])];
    assert SensitivityField(iso) == Some(Short([100]));
  }
}
