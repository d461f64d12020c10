/** `convert_to_decimal`: one coordinate magnitude, in whatever shape it
    arrives, as decimal degrees. */
module Convert {
  import opened Python
  import opened Text

  /** Degrees, minutes and seconds as decimal degrees. */
  function Dms(d: real, m: real, s: real): real
  {
    d + m / 60.0 + s / 3600.0
  }

  /** `float(value[i][0]) / float(value[i][1])`. */
  function Ratio(py: Builtins, value: TagValue, i: nat): Result<real>
  {
    match Subscript(value, i)
    case Raise => Raise
    case Ok(component) =>
      match (Subscript(component, 0), Subscript(component, 1))
      case (Ok(num), Ok(den)) =>
        (match (ToFloat(py, num), ToFloat(py, den))
         case (Ok(n), Ok(d)) => Divide(n, d)
         case _ => Raise)
      case _ => Raise
  }

  /** The value of `convert_to_decimal(value)`, or the exception it raises.
      Only a tuple (a failed subscript, `float()` or division) and a string
      (a non-numeric part of a three-part split) can raise. */
  function ConvertToDecimal(py: Builtins, value: TagValue): (r: Result<real>)
    ensures r.Raise? ==> value.Tuple? || value.Str?
  {
    match value
    case Tuple(_) =>
      (match (Ratio(py, value, 0), Ratio(py, value, 1), Ratio(py, value, 2))
       case (Ok(d), Ok(m), Ok(s)) => Ok(Dms(d, m, s))
       case _ => Raise)
    case Str(s) =>
      (match py.parseFloat(s)
       case Some(x) => Ok(x)
       case None =>
         var parts := Split(s, ',');
         if |parts| == 3 then
           match (py.parseFloat(parts[0]), py.parseFloat(parts[1]), py.parseFloat(parts[2]))
           case (Some(d), Some(m), Some(sec)) => Ok(Dms(d, m, sec))
           case _ => Raise
         else Ok(0.0))
    case Int(i) => Ok(i as real)
    case Float(f) => Ok(f)
    case _ => Ok(0.0)
  }

  /** The (numerator, denominator) pair of a rational as PIL's old API
      returns it. */
  function Pair(num: int, den: int): TagValue
  {
    Tuple([Int(num), Int(den)])
  }

  /** A tuple whose first three elements are integer pairs: the DMS formula,
      and ZeroDivisionError exactly when some denominator is zero. */
  lemma RationalTriple(py: Builtins, n0: int, d0: int, n1: int, d1: int, n2: int, d2: int,
                       rest: seq<TagValue>)
    ensures ConvertToDecimal(py, Tuple([Pair(n0, d0), Pair(n1, d1), Pair(n2, d2)] + rest))
         == if d0 == 0 || d1 == 0 || d2 == 0 then Raise
            else Ok(n0 as real / d0 as real + (n1 as real / d1 as real) / 60.0
                    + (n2 as real / d2 as real) / 3600.0)
  {
  }

  /** A tuple with fewer than three elements raises. */
  lemma ShortTupleRaises(py: Builtins, xs: seq<TagValue>)
    requires |xs| < 3
    ensures ConvertToDecimal(py, Tuple(xs)) == Raise
  {
  }

  /** A tuple whose element at 0, 1 or 2 is a number or an opaque object
      (not subscriptable) raises. */
  lemma ScalarComponentRaises(py: Builtins, xs: seq<TagValue>, j: nat)
    requires j < 3 && j < |xs|
    requires xs[j].Int? || xs[j].Float? || xs[j].Object?
    ensures ConvertToDecimal(py, Tuple(xs)) == Raise
  {
  }

  /** A string that `float()` accepts gives that number. */
  lemma NumericString(py: Builtins, s: string, x: real)
    requires py.parseFloat(s) == Some(x)
    ensures ConvertToDecimal(py, Str(s)) == Ok(x)
  {
  }

  /** A string that `float()` rejects, with exactly two commas: the DMS
      formula over its three parts when `float()` accepts each of them,
      ValueError otherwise. */
  lemma TwoCommaString(py: Builtins, s: string)
    requires py.parseFloat(s).None?
    requires Count(s, ',') == 2
    ensures var parts := Split(s, ',');
            |parts| == 3 &&
            ConvertToDecimal(py, Str(s))
              == if py.parseFloat(parts[0]).Some? && py.parseFloat(parts[1]).Some?
                    && py.parseFloat(parts[2]).Some?
                 then Ok(Dms(py.parseFloat(parts[0]).value, py.parseFloat(parts[1]).value,
                             py.parseFloat(parts[2]).value))
                 else Raise
  {
    SplitLength(s, ',');
  }

  /** A string that `float()` rejects and that does not have exactly two
      commas gives 0.0. */
  lemma OtherString(py: Builtins, s: string)
    requires py.parseFloat(s).None?
    requires Count(s, ',') != 2
    ensures ConvertToDecimal(py, Str(s)) == Ok(0.0)
  {
    SplitLength(s, ',');
  }

  /** An int or a float is returned unchanged (as a float). */
  lemma NumberUnchanged(py: Builtins, v: TagValue)
    requires v.Int? || v.Float?
    ensures ConvertToDecimal(py, v) == Ok(if v.Int? then v.i as real else v.f)
  {
  }

  /** Bytes, a dict and any other object give 0.0. */
  lemma OtherShapeIsZero(py: Builtins, v: TagValue)
    requires v.Bytes? || v.Dict? || v.Object?
    ensures ConvertToDecimal(py, v) == Ok(0.0)
  {
  }

  /** "40,26,46" splits into its three numerals. */
  lemma SplitExample()
    ensures Split("40,26,46", ',') == ["40", "26", "46"]
  {
    SplitWithoutSeparator("46", ',');
    SplitAtFirstSeparator("26", ',', "46");
    assert "26" + [','] + "46" == "26,46";
    SplitAtFirstSeparator("40", ',', "26,46");
    assert "40" + [','] + "26,46" == "40,26,46";
  }

  /** "40,26,46" is converted exactly like the rational triple
      ((40, 1), (26, 1), (46, 1)), to 40 + 26/60 + 46/3600. */
  lemma StringMatchesTriple(py: Builtins)
    requires py.parseFloat("40,26,46").None?
    requires py.parseFloat("40") == Some(40.0)
    requires py.parseFloat("26") == Some(26.0)
    requires py.parseFloat("46") == Some(46.0)
    ensures ConvertToDecimal(py, Str("40,26,46")) == Ok(Dms(40.0, 26.0, 46.0))
    ensures ConvertToDecimal(py, Tuple([Pair(40, 1), Pair(26, 1), Pair(46, 1)])) == Ok(Dms(40.0, 26.0, 46.0))
  {
    SplitExample();
    RationalTriple(py, 40, 1, 26, 1, 46, 1, []);
    assert [Pair(40, 1), Pair(26, 1), Pair(46, 1)] + [] == [Pair(40, 1), Pair(26, 1), Pair(46, 1)];
  }
}
