/** `get_gps_refs_and_coords`: find the GPS block of an image, inline
    (camera encoding) or behind an integer pointer to the GPS sub-IFD
    (phone encoding), and normalise it. */
module Locator {
  import opened Python
  import opened Normalizer

  /** The EXIF tag id of GPSInfo, also the id of the GPS sub-IFD. */
  const GpsInfoTag: int := 0x8825

  /** `TAGS.get(key, key) == 'GPSInfo'`: PIL's tag-name table gives that
      name to 0x8825 alone, and an id missing from the table stays an
      integer, which never equals the string. */
  predicate NamedGpsInfo(key: int)
  {
    key == GpsInfoTag
  }

  /** The GPS sub-IFD is used when it was read and is non-empty. */
  predicate Usable(gpsIfd: Option<map<int, TagValue>>)
  {
    gpsIfd.Some? && gpsIfd.value != map[]
  }

  /** What `get_gps_refs_and_coords` returns.  `exif` is what `_getexif()`
      gave (None when it gave None or raised); `gpsIfd` is what
      `getexif()._get_ifd(0x8825)` gives (None when it is missing, gives
      None or raises). */
  function Locate(py: Builtins, exif: Option<map<int, TagValue>>,
                  gpsIfd: Option<map<int, TagValue>>): Option<map<string, real>>
  {
    if exif.None? || GpsInfoTag !in exif.value then None
    else if exif.value[GpsInfoTag].Int? then
      (if Usable(gpsIfd) then Normalize(py, Dict(gpsIfd.value)) else None)
    else Normalize(py, exif.value[GpsInfoTag])
  }

  /** `get_gps_refs_and_coords`: the loop over the EXIF items, taking them
      in any order, stops at the GPSInfo entry, unless it is a pointer
      whose sub-IFD is not usable, in which case the search runs on to the
      end.  The result is the same for every order. */
  method GetGpsRefsAndCoords(py: Builtins, exif: Option<map<int, TagValue>>,
                             gpsIfd: Option<map<int, TagValue>>)
    returns (r: Option<map<string, real>>)
    ensures r == Locate(py, exif, gpsIfd)
  {
    if exif.None? || exif.value == map[] {
      return None;
    }
    var tags := exif.value;
    var pending := tags.Keys;
    while pending != {}
      invariant pending <= tags.Keys
      invariant GpsInfoTag in tags && GpsInfoTag !in pending ==>
                  tags[GpsInfoTag].Int? && !Usable(gpsIfd)
      decreases pending
    {
      // a non-empty set has an element
      if forall k :: k !in pending { assert false; }
      var key :| key in pending;
      pending := pending - {key};
      if NamedGpsInfo(key) {
        var value := tags[key];
        if value.Int? {
          if Usable(gpsIfd) {
            r := ParseGpsData(py, Dict(gpsIfd.value));
            return;
          }
        } else {
          r := ParseGpsData(py, value);
          return;
        }
      }
    }
    return None;
  }

  /** No EXIF data, or no GPSInfo tag: None. */
  lemma NoGpsInfo(py: Builtins, exif: Option<map<int, TagValue>>, gpsIfd: Option<map<int, TagValue>>)
    requires exif.None? || GpsInfoTag !in exif.value
    ensures Locate(py, exif, gpsIfd) == None
  {
  }

  /** A phone-style pointer whose sub-IFD is usable gives exactly what the
      same block stored inline gives. */
  lemma PointerMatchesInline(py: Builtins, tags: map<int, TagValue>, pointer: int,
                             ifd: map<int, TagValue>, otherIfd: Option<map<int, TagValue>>)
    requires ifd != map[]
    ensures Locate(py, Some(tags[GpsInfoTag := Int(pointer)]), Some(ifd))
         == Locate(py, Some(tags[GpsInfoTag := Dict(ifd)]), otherIfd)
         == Normalize(py, Dict(ifd))
  {
  }

  /** A pointer whose sub-IFD is missing or empty gives None. */
  lemma PointerWithoutSubIfd(py: Builtins, tags: map<int, TagValue>, gpsIfd: Option<map<int, TagValue>>)
    requires GpsInfoTag in tags && tags[GpsInfoTag].Int?
    requires gpsIfd.None? || gpsIfd.value == map[]
    ensures Locate(py, Some(tags), gpsIfd) == None
  {
  }

  /** The camera encoding ignores the sub-IFD; the phone encoding ignores
      every other EXIF tag. */
  lemma InputsEachEncodingReads(py: Builtins, tags: map<int, TagValue>,
                                ifd1: Option<map<int, TagValue>>, ifd2: Option<map<int, TagValue>>)
    requires GpsInfoTag in tags
    ensures !tags[GpsInfoTag].Int? ==> Locate(py, Some(tags), ifd1) == Locate(py, Some(tags), ifd2)
    ensures tags[GpsInfoTag].Int? ==>
              Locate(py, Some(tags), ifd1) == Locate(py, Some(map[GpsInfoTag := Int(0)]), ifd1)
  {
  }
}
