/** `parse_gps_data`: the GPS block as a `{latitude, longitude}` dict of
    signed decimal degrees, or None once anything raised. */
module Normalizer {
  import opened Python
  import opened Convert

  const Latitude: string := "latitude"
  const Longitude: string := "longitude"

  /** The tags one axis reads: its magnitude and hemisphere tags, the
      reference assumed when the latter is missing, the reference that
      makes the value negative, and the output key. */
  datatype Axis = Axis(magnitude: nat, reference: nat, defaultRef: string, negativeRef: string,
                       key: string)

  const LatitudeAxis: Axis := Axis(2, 1, "N", "S", Latitude)
  const LongitudeAxis: Axis := Axis(4, 3, "E", "W", Longitude)

  /** A tuple magnitude is replaced by its element 0; otherwise a bytes
      magnitude is decoded as UTF-8; anything else is kept. */
  function Unwrap(py: Builtins, v: TagValue): Result<TagValue>
  {
    match v
    case Tuple(_) => Subscript(v, 0)
    case Bytes(b) =>
      (match py.decodeUtf8(b)
       case Some(s) => Ok(Str(s))
       case None => Raise)
    case _ => Ok(v)
  }

  /** The unsigned magnitude: the unwrapped value through `convert_to_decimal`. */
  function Magnitude(py: Builtins, v: TagValue): Result<real>
  {
    match Unwrap(py, v)
    case Raise => Raise
    case Ok(u) => ConvertToDecimal(py, u)
  }

  /** The value of one axis, given its magnitude tag value and its
      reference (the stored one or the default): negated exactly when the
      reference is the string of the negative hemisphere. */
  function Signed(py: Builtins, mag: TagValue, ref: TagValue, negativeRef: string): Result<real>
  {
    match Magnitude(py, mag)
    case Raise => Raise
    case Ok(d) => Ok(if ref == Str(negativeRef) then -d else d)
  }

  /** One axis of a dict block: None when its magnitude tag is absent. */
  function AxisOf(py: Builtins, m: map<int, TagValue>, a: Axis): Option<Result<real>>
  {
    if a.magnitude in m then
      Some(Signed(py, m[a.magnitude],
                  if a.reference in m then m[a.reference] else Str(a.defaultRef), a.negativeRef))
    else None
  }

  function Entry(key: string, value: Option<Result<real>>): map<string, real>
  {
    if value.Some? && value.value.Ok? then map[key := value.value.value] else map[]
  }

  /** What `parse_gps_data(info)` returns.  For a dict: None when either
      present axis raised, otherwise the map of the axes whose magnitude
      tag is present.  For anything else: `2 in info` raises on strings
      and scalars, and a tuple or bytes holding 2 or 4 fails on indexing or
      `.get`; a tuple or bytes holding neither gives the empty dict. */
  function Normalize(py: Builtins, info: TagValue): Option<map<string, real>>
  {
    match info
    case Dict(m) =>
      var lat := AxisOf(py, m, LatitudeAxis);
      var lon := AxisOf(py, m, LongitudeAxis);
      if lat == Some(Raise) || lon == Some(Raise) then None
      else Some(Entry(Latitude, lat) + Entry(Longitude, lon))
    case _ =>
      if Contains(info, 2) == Ok(false) && Contains(info, 4) == Ok(false) then Some(map[])
      else None
  }

  /** `parse_gps_data`, statement by statement: each axis is read, unwrapped,
      converted and stored, then negated in place; any exception returns
      None. */
  method ParseGpsData(py: Builtins, info: TagValue) returns (r: Option<map<string, real>>)
    ensures r == Normalize(py, info)
  {
    var gpsData: map<string, real> := map[];

    var hasLat := Contains(info, 2);
    if hasLat.Raise? { return None; }
    if hasLat.value {
      var lat := Subscript(info, 2);
      if lat.Raise? { return None; }
      var latRef := Get(info, 1, Str("N"));
      if latRef.Raise? { return None; }
      var value := lat.value;
      if value.Tuple? {
        var first := Subscript(value, 0);
        if first.Raise? { return None; }
        value := first.value;
      } else if value.Bytes? {
        var text := py.decodeUtf8(value.bytes);
        if text.None? { return None; }
        value := Str(text.value);
      }
      var decimal := ConvertToDecimal(py, value);
      if decimal.Raise? { return None; }
      gpsData := gpsData[Latitude := decimal.value];
      if latRef.value == Str("S") {
        gpsData := gpsData[Latitude := -gpsData[Latitude]];
      }
    }
    assert info.Dict? ==> gpsData == Entry(Latitude, AxisOf(py, info.entries, LatitudeAxis));
    assert !info.Dict? ==> gpsData == map[];

    var hasLon := Contains(info, 4);
    if hasLon.Raise? { return None; }
    if hasLon.value {
      var lon := Subscript(info, 4);
      if lon.Raise? { return None; }
      var lonRef := Get(info, 3, Str("E"));
      if lonRef.Raise? { return None; }
      var value := lon.value;
      if value.Tuple? {
        var first := Subscript(value, 0);
        if first.Raise? { return None; }
        value := first.value;
      } else if value.Bytes? {
        var text := py.decodeUtf8(value.bytes);
        if text.None? { return None; }
        value := Str(text.value);
      }
      var decimal := ConvertToDecimal(py, value);
      if decimal.Raise? { return None; }
      gpsData := gpsData[Longitude := decimal.value];
      if lonRef.value == Str("W") {
        gpsData := gpsData[Longitude := -gpsData[Longitude]];
      }
    }

    assert info.Dict? ==> gpsData == Entry(Latitude, AxisOf(py, info.entries, LatitudeAxis))
                                    + Entry(Longitude, AxisOf(py, info.entries, LongitudeAxis));
    return Some(gpsData);
  }

  /** The output has a latitude exactly when tag 2 is present and a
      longitude exactly when tag 4 is present, and no other key. */
  lemma OutputKeys(py: Builtins, m: map<int, TagValue>)
    requires Normalize(py, Dict(m)).Some?
    ensures Normalize(py, Dict(m)).value.Keys
         == (if 2 in m then {Latitude} else {}) + (if 4 in m then {Longitude} else {})
  {
  }

  /** An exception on either axis cancels the whole block, even when the
      other axis converted; nothing else makes the result None. */
  lemma ExceptionCancelsBothAxes(py: Builtins, m: map<int, TagValue>)
    ensures Normalize(py, Dict(m)).None? <==>
              (2 in m && AxisOf(py, m, LatitudeAxis) == Some(Raise))
              || (4 in m && AxisOf(py, m, LongitudeAxis) == Some(Raise))
  {
  }

  /** A latitude that raises cancels every block holding the same tags 1
      and 2, whatever its longitude tags hold. */
  lemma LatitudeRaiseCancels(py: Builtins, m: map<int, TagValue>, m': map<int, TagValue>)
    requires AxisOf(py, m, LatitudeAxis) == Some(Raise)
    requires AgreeOn(m, m', 1) && AgreeOn(m, m', 2)
    ensures Normalize(py, Dict(m')) == None
  {
    AxisReadsOnlyItsTags(py, m, m', LatitudeAxis);
  }

  /** A longitude that raises cancels every block holding the same tags 3
      and 4, whatever its latitude tags hold. */
  lemma LongitudeRaiseCancels(py: Builtins, m: map<int, TagValue>, m': map<int, TagValue>)
    requires AxisOf(py, m, LongitudeAxis) == Some(Raise)
    requires AgreeOn(m, m', 3) && AgreeOn(m, m', 4)
    ensures Normalize(py, Dict(m')) == None
  {
    AxisReadsOnlyItsTags(py, m, m', LongitudeAxis);
  }

  /** The value of each present axis is its signed magnitude: latitude is
      negated exactly when tag 1 is the string "S", longitude exactly when
      tag 3 is the string "W"; a missing reference never negates. */
  lemma AxisValues(py: Builtins, m: map<int, TagValue>)
    requires Normalize(py, Dict(m)).Some?
    ensures 2 in m ==> Magnitude(py, m[2]).Ok?
                       && Normalize(py, Dict(m)).value[Latitude]
                          == (if 1 in m && m[1] == Str("S") then -Magnitude(py, m[2]).value
                              else Magnitude(py, m[2]).value)
    ensures 4 in m ==> Magnitude(py, m[4]).Ok?
                       && Normalize(py, Dict(m)).value[Longitude]
                          == (if 3 in m && m[3] == Str("W") then -Magnitude(py, m[4]).value
                              else Magnitude(py, m[4]).value)
  {
  }

  /** Two maps that agree on a key: both lack it, or both hold the same value. */
  predicate AgreeOn(m1: map<int, TagValue>, m2: map<int, TagValue>, k: int)
  {
    (k in m1 <==> k in m2) && (k in m1 ==> m1[k] == m2[k])
  }

  /** Each axis reads only its own two tags. */
  lemma AxisReadsOnlyItsTags(py: Builtins, m1: map<int, TagValue>, m2: map<int, TagValue>, a: Axis)
    requires AgreeOn(m1, m2, a.magnitude) && AgreeOn(m1, m2, a.reference)
    ensures AxisOf(py, m1, a) == AxisOf(py, m2, a)
  {
  }

  /** Tags other than 1 to 4 are ignored. */
  lemma OtherTagsIgnored(py: Builtins, m1: map<int, TagValue>, m2: map<int, TagValue>)
    requires forall k :: 1 <= k <= 4 ==> AgreeOn(m1, m2, k)
    ensures Normalize(py, Dict(m1)) == Normalize(py, Dict(m2))
  {
    AxisReadsOnlyItsTags(py, m1, m2, LatitudeAxis);
    AxisReadsOnlyItsTags(py, m1, m2, LongitudeAxis);
  }

  /** The latitude depends only on tags 1 and 2, whatever the other axis
      holds, as long as neither block raised. */
  lemma LatitudeIndependentOfLongitude(py: Builtins, m1: map<int, TagValue>, m2: map<int, TagValue>)
    requires Normalize(py, Dict(m1)).Some? && Normalize(py, Dict(m2)).Some?
    requires AgreeOn(m1, m2, 1) && AgreeOn(m1, m2, 2) && 2 in m1
    ensures Normalize(py, Dict(m1)).value[Latitude] == Normalize(py, Dict(m2)).value[Latitude]
  {
  }

  /** The longitude depends only on tags 3 and 4. */
  lemma LongitudeIndependentOfLatitude(py: Builtins, m1: map<int, TagValue>, m2: map<int, TagValue>)
    requires Normalize(py, Dict(m1)).Some? && Normalize(py, Dict(m2)).Some?
    requires AgreeOn(m1, m2, 3) && AgreeOn(m1, m2, 4) && 4 in m1
    ensures Normalize(py, Dict(m1)).value[Longitude] == Normalize(py, Dict(m2)).value[Longitude]
  {
  }

  /** A tuple magnitude is converted through its element 0 alone (raising
      when empty), so bytes inside a tuple are never decoded and give 0.0.
      A bytes magnitude is converted as its decoded text, and a decoding
      failure raises. */
  lemma UnwrapOrder(py: Builtins, v: TagValue)
    ensures v.Tuple? ==> Magnitude(py, v)
                         == if |v.items| == 0 then Raise else ConvertToDecimal(py, v.items[0])
    ensures v.Tuple? && |v.items| > 0 && v.items[0].Bytes? ==> Magnitude(py, v) == Ok(0.0)
    ensures v.Bytes? ==> Magnitude(py, v)
                         == if py.decodeUtf8(v.bytes).None? then Raise
                            else ConvertToDecimal(py, Str(py.decodeUtf8(v.bytes).value))
    ensures !v.Tuple? && !v.Bytes? ==> Magnitude(py, v) == ConvertToDecimal(py, v)
  {
  }

  /** A plain rational triple ((n0, d0), (n1, d1), (n2, d2)) as a magnitude
      makes the whole block None: unwrapping leaves the pair (n0, d0), and
      subscripting its integer n0 raises TypeError. */
  lemma PlainRationalTripleCancels(py: Builtins, m: map<int, TagValue>,
                                   n0: int, d0: int, n1: int, d1: int, n2: int, d2: int)
    requires 2 in m && m[2] == Tuple([Pair(n0, d0), Pair(n1, d1), Pair(n2, d2)])
    ensures Normalize(py, Dict(m)) == None
  {
  }

  /** The DMS formula is reached only when element 0 of a tuple magnitude
      is itself a tuple; the other elements of the outer tuple are ignored.
      A rational triple in that place gives the latitude, negated for "S",
      or cancels the block on a zero denominator. */
  lemma WrappedRationalTriple(py: Builtins, m: map<int, TagValue>,
                              n0: int, d0: int, n1: int, d1: int, n2: int, d2: int,
                              rest: seq<TagValue>)
    requires 2 in m && m[2] == Tuple([Tuple([Pair(n0, d0), Pair(n1, d1), Pair(n2, d2)])] + rest)
    ensures d0 == 0 || d1 == 0 || d2 == 0 ==> Normalize(py, Dict(m)) == None
    ensures d0 != 0 && d1 != 0 && d2 != 0 && Normalize(py, Dict(m)).Some? ==>
              var d := Dms(n0 as real / d0 as real, n1 as real / d1 as real, n2 as real / d2 as real);
              Normalize(py, Dict(m)).value[Latitude] == if 1 in m && m[1] == Str("S") then -d else d
  {
  }

  /** A tuple of opaque rational objects (PIL's newer encoding) unwraps to
      one object, which `convert_to_decimal` turns into 0.0: the latitude
      is still emitted, as 0.0. */
  lemma ObjectTripleGivesZero(py: Builtins, m: map<int, TagValue>)
    requires 2 in m && m[2].Tuple? && |m[2].items| > 0 && m[2].items[0].Object?
    requires Normalize(py, Dict(m)).Some?
    ensures Normalize(py, Dict(m)).value[Latitude] == 0.0
  {
  }

  /** A block that is not a dict gives at most the empty dict; a string, a
      number or an opaque object gives None. */
  lemma NonDictBlock(py: Builtins, v: TagValue)
    requires !v.Dict?
    ensures Normalize(py, v).Some? ==> Normalize(py, v).value == map[]
    ensures v.Str? || v.Int? || v.Float? || v.Object? ==> Normalize(py, v) == None
  {
  }

  /** A dict holding neither magnitude tag gives the empty dict. */
  lemma NoMagnitudeTags(py: Builtins, m: map<int, TagValue>)
    requires 2 !in m && 4 !in m
    ensures Normalize(py, Dict(m)) == Some(map[])
  {
  }
}
