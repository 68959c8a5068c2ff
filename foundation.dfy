/** Platform values the core stores and passes around: doubles, dates,
    coordinates, and the JSON documents that `JSONEncoder`/`JSONDecoder`
    produce and consume. Floating-point values are opaque: the model only
    knows whether a double is finite, because JSON encoding refuses the
    ones that are not. */
module Foundation {
  import opened Support

  /** A Swift `Double`: its value when finite, or NaN/infinity. */
  datatype Float64 = Finite(value: real) | NonFinite

  /** `Date`, stored as its time interval since the reference date. */
  datatype Date = Date(sinceReferenceDate: Float64)

  /** `CLLocationCoordinate2D` */
  datatype Coordinate = Coordinate(latitude: Float64, longitude: Float64)

  /** A JSON document as the encoder builds it and the decoder reads it. */
  datatype Json =
    | JNull
    | JNumber(number: real)
    | JString(text: string)
    | JArray(elements: seq<Json>)
    | JObject(members: map<string, Json>)

  /** Encoding one double: with the encoder's default strategy a non-finite
      value throws, modelled as `None`. */
  function EncodeDouble(d: Float64): (r: Option<Json>)
    ensures r.Some? <==> d.Finite?
    ensures r.Some? ==> r.value.JNumber? && r.value.number == d.value
  {
    match d
    case Finite(v) => Some(JNumber(v))
    case NonFinite => None
  }

  function DecodeDouble(j: Json): (r: Option<Float64>)
    ensures r.Some? <==> j.JNumber?
    ensures r.Some? ==> r.value.Finite?
  {
    if j.JNumber? then Some(Finite(j.number)) else None
  }

  lemma DoubleRoundTrip(d: Float64)
    requires d.Finite?
    ensures EncodeDouble(d).Some? && DecodeDouble(EncodeDouble(d).value) == Some(d)
  {
  }

  /** `Date` is encoded with the default (deferred-to-date) strategy: as its
      `Double` interval. */
  function EncodeDate(d: Date): (r: Option<Json>)
    ensures r.Some? <==> d.sinceReferenceDate.Finite?
  {
    EncodeDouble(d.sinceReferenceDate)
  }

  function DecodeDate(j: Json): (r: Option<Date>)
    ensures r.Some? <==> j.JNumber?
  {
    match DecodeDouble(j)
    case Some(d) => Some(Date(d))
    case None => None
  }

  lemma {:induction false} DateRoundTrip(d: Date)
    requires d.sinceReferenceDate.Finite?
    ensures EncodeDate(d).Some? && DecodeDate(EncodeDate(d).value) == Some(d)
  {
    DoubleRoundTrip(d.sinceReferenceDate);
  }
}
