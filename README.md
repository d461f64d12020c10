# GPS extraction and normalisation of MetaHack, in Dafny

MetaHack prints the metadata of an image. Its one piece of real logic, in
`main.py`, finds the GPS block among the image's EXIF tags and turns it
into signed decimal degrees. This project models that piece and proves
properties of it. It has two stages, run one after the other:

- **locator** (`get_gps_refs_and_coords`). It looks for the GPSInfo tag
  (0x8825). A camera stores the GPS block inline as the tag's value. A
  phone stores an integer there instead, and the block is then read from
  the GPS sub-IFD. Every kind of failure gives None.
- **normaliser** (`parse_gps_data` and `convert_to_decimal`). Tag 2 holds
  the latitude and tag 1 its hemisphere. Tag 4 holds the longitude and
  tag 3 its hemisphere. The magnitude can arrive as a tuple, bytes, a
  string, a number or some other object. "S" and "W" make the value
  negative. If any step raises, the whole block becomes None.

Files:

- `python.dfy` (module `Python`) holds the Python values a tag can take
  (`TagValue`). It also holds the operations the code applies to them:
  `v[i]`, `k in v`, `dict.get`, `float()` and `/`. A Python exception is
  the value `Raise`.
- `text.dfy` (module `Text`) holds `str.split` with one separator, and
  its inverse `join`.
- `convert.dfy` (module `Convert`) holds `convert_to_decimal`.
- `normalizer.dfy` (module `Normalizer`) holds two members:
  - the method `ParseGpsData`, which follows `parse_gps_data` statement by
    statement and builds and overwrites the result dict in place;
  - the function `Normalize`, defined per axis, which says what that
    method must return.
- `locator.dfy` (module `Locator`) holds two members:
  - the method `GetGpsRefsAndCoords`, a loop over the EXIF tags;
  - the function `Locate`, which says what that loop must return.

The inputs the code gets from libraries are parameters:

- `_getexif()`: a tag map, or None when it returns nothing or raises.
- `getexif()._get_ifd(0x8825)`: the sub-IFD, or None when it is missing
  or raises.
- A `Builtins` value that stands for Python's `float(str)` and for
  `bytes.decode('utf-8')`. Each is a partial function: None means Python
  raises. Every property holds for every choice of these two functions.

A Python dict iterates in insertion order, but the locator loop here
takes the keys in any order. The proof shows that the result does not
depend on the order. Both stages are pure functions of their inputs, so
running them twice on the same block gives the same result.

Two behaviours of `main.py` are easy to miss:

- **A plain rational triple never reaches the DMS formula.** main.py:81-82
  keeps only element 0 of a tuple magnitude. For
  `((40,1),(26,1),(46,1))` that element is `(40,1)`, and main.py:113 then
  subscripts the int 40, which raises. So the whole block becomes None
  (`PlainRationalTripleCancels`). The formula at main.py:113-116 is
  reached only when element 0 of the tuple magnitude is itself a tuple,
  such as `(((40,1),(26,1),(46,1)), 9)`; the other elements of the outer
  tuple are ignored (`WrappedRationalTriple`).
- **An exception on either axis makes the whole result None.** This is
  the single try/except at main.py:73 and main.py:105-107. It holds even
  when the other axis converted (`LatitudeRaiseCancels`,
  `LongitudeRaiseCancels`). An axis is still emitted with the value 0.0
  in two cases:
  - it holds a shape that `convert_to_decimal` does not dispatch on
    (bytes inside a tuple, a dict, an opaque object);
  - it holds a string that `float()` rejects and that does not have
    exactly two commas (main.py:121-123 falling through to main.py:128).

## Model

| member | source | states |
|---|---|---|
| Python.Divide | main.py:113-115 | float division raises ZeroDivisionError exactly when the divisor is zero, and otherwise returns the quotient |
| Text.Split | main.py:122 | `str.split(',')` always returns at least one part |
| Text.JoinSplit | main.py:122 | joining the parts of a split with the separator gives back the original string |
| Text.SplitPartsAreSeparatorFree | main.py:122 | no part of a split contains the separator |
| Text.SplitLength | main.py:122-123 | a string with n commas splits into n + 1 parts, so `len(parts) == 3` means exactly two commas |
| Text.SplitWithoutSeparator | main.py:122 | a string without the separator splits into itself alone |
| Text.SplitAtFirstSeparator | main.py:122 | the text before the first separator is the first part, and the rest splits on its own |
| Convert.ConvertToDecimal | main.py:109-128 | only a tuple or a string magnitude can raise; every other shape returns a value |
| Convert.RationalTriple | main.py:111-116 | a tuple whose first three elements are integer (num, den) pairs gives n0/d0 + (n1/d1)/60 + (n2/d2)/3600, and raises exactly when some denominator is zero |
| Convert.ShortTupleRaises | main.py:113-115 | a tuple with fewer than three elements raises |
| Convert.ScalarComponentRaises | main.py:113-115 | a tuple whose element 0, 1 or 2 is a number or an opaque object raises |
| Convert.NumericString | main.py:117-120 | a string that `float()` accepts gives that number |
| Convert.TwoCommaString | main.py:121-125 | a string that `float()` rejects and that has two commas gives the DMS formula of its three parts when each part parses, and raises otherwise |
| Convert.OtherString | main.py:121-123 | a string that `float()` rejects and that does not have exactly two commas gives 0.0 (the final return at main.py:128) |
| Convert.NumberUnchanged | main.py:126-127 | an int or a float is returned as its own value |
| Convert.OtherShapeIsZero | main.py:128 | bytes, a dict or any other object give 0.0 |
| Convert.SplitExample | main.py:122 | "40,26,46" splits into "40", "26" and "46" |
| Convert.StringMatchesTriple | main.py:111-125 | the string "40,26,46" and the triple ((40,1),(26,1),(46,1)) both give 40 + 26/60 + 46/3600 |
| Normalizer.ParseGpsData | main.py:71-107 | the statement-by-statement method, with its in-place negation, returns exactly `Normalize` of its input, for a dict and for every other shape |
| Normalizer.OutputKeys | main.py:74-104 | when nothing raises, the result has key latitude iff tag 2 is present, key longitude iff tag 4 is present, and no other key |
| Normalizer.ExceptionCancelsBothAxes | main.py:73-107 | the result is None iff some present axis raised, even when the other axis converted |
| Normalizer.LatitudeRaiseCancels | main.py:73-88 | a latitude that raises makes the result None for every block with the same tags 1 and 2, whatever tags 3 and 4 hold |
| Normalizer.LongitudeRaiseCancels | main.py:91-107 | a longitude that raises makes the result None for every block with the same tags 3 and 4, whatever tags 1 and 2 hold |
| Normalizer.AxisValues | main.py:77-102 | each present axis holds its magnitude, negated exactly when tag 1 is the string "S" (latitude) or tag 3 is the string "W" (longitude); a missing reference leaves it unsigned |
| Normalizer.AxisReadsOnlyItsTags | main.py:77-102 | an axis's outcome depends only on its magnitude tag and its reference tag |
| Normalizer.OtherTagsIgnored | main.py:74-104 | two blocks that agree on tags 1 to 4 give the same result |
| Normalizer.LatitudeIndependentOfLongitude | main.py:77-88 | when neither block raised, the latitude depends only on tags 1 and 2 |
| Normalizer.LongitudeIndependentOfLatitude | main.py:91-102 | when neither block raised, the longitude depends only on tags 3 and 4 |
| Normalizer.UnwrapOrder | main.py:81-86 | a tuple magnitude is converted through its element 0 alone, and an empty tuple raises; bytes inside a tuple are not decoded and give 0.0; a bytes magnitude is converted as its decoded text, and a decode failure raises |
| Normalizer.PlainRationalTripleCancels | main.py:81-86 | a plain rational triple as the latitude makes the whole block None |
| Normalizer.WrappedRationalTriple | main.py:81-88 | a rational triple as element 0 of a tuple magnitude, whatever the other elements, gives the signed DMS value, or None on a zero denominator |
| Normalizer.ObjectTripleGivesZero | main.py:81-86 | a tuple of opaque rational objects gives latitude 0.0, and the latitude is still emitted |
| Normalizer.NonDictBlock | main.py:73-79 | a block that is not a dict gives at most the empty dict; a string, a number or an opaque object gives None |
| Normalizer.NoMagnitudeTags | main.py:74-104 | a dict without tags 2 and 4 gives the empty dict |
| Locator.GetGpsRefsAndCoords | main.py:44-69 | the loop over the EXIF tags, taking them in any order, returns exactly `Locate` |
| Locator.NoGpsInfo | main.py:47-53 | no EXIF data, or no GPSInfo tag, gives None |
| Locator.PointerMatchesInline | main.py:55-66 | an integer GPSInfo with a non-empty sub-IFD gives the same result as that block stored inline |
| Locator.PointerWithoutSubIfd | main.py:55-69 | an integer GPSInfo whose sub-IFD is missing or empty gives None |
| Locator.InputsEachEncodingReads | main.py:51-66 | the camera encoding ignores the sub-IFD, and the phone encoding ignores the other EXIF tags |

## Left out

- `save_to_file`, `IntroClass`, `HelpClass` and `MainClass`: file
  writing, interactive menus, table rendering, MIME sniffing, `.6f`
  formatting and the Google Maps URL are I/O and presentation.
- PIL's `_getexif`, `getexif()._get_ifd` and the `TAGS` table are inputs.
  The only fact of `TAGS` that is used is that the name 'GPSInfo' belongs
  to id 0x8825 alone.
- The try/except around `_getexif` and the sub-IFD lookup is modelled by
  letting those inputs be None. The diagnostic `print` calls in the
  except blocks are left out.
- Floats are modelled as `real`, so there is no IEEE-754 rounding,
  overflow, `inf` or `nan`. `float(str)` and UTF-8 decoding are
  parameters, not implementations of Python's grammar and codec.
- Python.ToFloat: `float()` of bytes is modelled as decoding them as
  UTF-8 and then parsing the text. Python's own rules for bytes (ASCII
  digits only) are not modelled.
- `bool` is not a separate shape. Python treats it as an int, and `Int`
  covers it.
- Objects other than the modelled shapes (`Object`) are taken to be not
  subscriptable and not iterable, and to compare unequal to integers. A
  custom `__getitem__`, `__contains__` or `__eq__`, such as the
  comparison of a PIL rational with an int, is not modelled.
- Locator.GetGpsRefsAndCoords: the code iterates over the EXIF items in insertion order.
  The model takes them in any order, which gives the same result because a
  dict holds at most one 0x8825 key.
- The range of a coordinate (latitude within ±90, longitude within ±180)
  is not proved, because the code does not enforce it.
