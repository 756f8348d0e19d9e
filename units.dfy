/**
 * Conversion of a size with a libvirt unit suffix into a whole number of
 * bytes (virshx/util/units.py; virshx/common.py carries an identical copy).
 * Decimal prefixes (KB, MB, ...) are powers of 1000, binary prefixes (K/KiB,
 * M/MiB, ...) powers of 1024; fractional results are rounded up.
 */
module Units {
  import opened Wrappers
  import opened Numeric

  /** The Python value handed in: an `int`, a `float`, or anything else. */
  datatype Number = IntValue(i: int) | FloatValue(f: real) | NotANumber

  /** What the function returns: a byte count, or the `NotImplemented` singleton. */
  datatype Conversion = Bytes(n: int) | NotImplemented

  /** The unit table, case by case as the source lists it (10 ** 3k and 2 ** 10k written out). */
  function Multiplier(unit: string): Option<int>
  {
    if unit == "B" || unit == "bytes" then Some(1)
    else if unit == "KB" then Some(1000)
    else if unit == "K" || unit == "KiB" then Some(1024)
    else if unit == "MB" then Some(1000000)
    else if unit == "M" || unit == "MiB" then Some(1048576)
    else if unit == "GB" then Some(1000000000)
    else if unit == "G" || unit == "GiB" then Some(1073741824)
    else if unit == "TB" then Some(1000000000000)
    else if unit == "T" || unit == "TiB" then Some(1099511627776)
    else if unit == "PB" then Some(1000000000000000)
    else if unit == "P" || unit == "PiB" then Some(1125899906842624)
    else if unit == "EB" then Some(1000000000000000000)
    else if unit == "E" || unit == "EiB" then Some(1152921504606846976)
    else None
  }

  /** `math.ceil` on an exact real. */
  function Ceil(x: real): (c: int)
    ensures c as real >= x && (c as real) - 1.0 < x
  {
    if x.Floor as real == x then x.Floor else x.Floor + 1
  }

  /** `unit_to_bytes(value, unit)`. */
  function UnitToBytes(value: Number, unit: string): Result<Conversion>
  {
    match value
    case NotANumber => Err(ValueError)
    case IntValue(i) =>
      if i < 0 then Err(ValueError)
      else if Multiplier(unit).None? then Ok(NotImplemented)
      else Ok(Bytes(i * Multiplier(unit).value))
    case FloatValue(f) =>
      if f < 0.0 then Err(ValueError)
      else if Multiplier(unit).None? then Ok(NotImplemented)
      else Ok(Bytes(Ceil(f * Multiplier(unit).value as real)))
  }

  // ---------------------------------------------------------------------
  // An independent statement of the unit rules.

  const Prefixes: string := "KMGTPE"

  function PrefixRank(c: char): nat
    requires c in Prefixes
  {
    if c == 'K' then 1 else if c == 'M' then 2 else if c == 'G' then 3
    else if c == 'T' then 4 else if c == 'P' then 5 else 6
  }

  /**
   * The rule libvirt documents: a bare byte unit, a decimal prefix written
   * with a trailing `B`, or a binary prefix written alone or with `iB`.
   */
  function PrefixRule(unit: string): Option<int>
  {
    if unit == "B" || unit == "bytes" then Some(1)
    else if |unit| == 2 && unit[0] in Prefixes && unit[1] == 'B' then
      Some(Pow(1000, PrefixRank(unit[0])))
    else if |unit| == 1 && unit[0] in Prefixes then
      Some(Pow(1024, PrefixRank(unit[0])))
    else if |unit| == 3 && unit[0] in Prefixes && unit[1..] == "iB" then
      Some(Pow(1024, PrefixRank(unit[0])))
    else None
  }

  /** The powers of 1000 and 1024 the table spells out. */
  lemma Powers()
    ensures Pow(1000, 1) == 1000 && Pow(1024, 1) == 1024
    ensures Pow(1000, 2) == 1000000 && Pow(1024, 2) == 1048576
    ensures Pow(1000, 3) == 1000000000 && Pow(1024, 3) == 1073741824
    ensures Pow(1000, 4) == 1000000000000 && Pow(1024, 4) == 1099511627776
    ensures Pow(1000, 5) == 1000000000000000 && Pow(1024, 5) == 1125899906842624
    ensures Pow(1000, 6) == 1000000000000000000 && Pow(1024, 6) == 1152921504606846976
  {
  }

  lemma PrefixedUnit(unit: string, c: char)
    requires c in Prefixes
    ensures |unit| == 1 && unit[0] == c ==> unit == [c]
    ensures |unit| == 2 && unit[0] == c && unit[1] == 'B' ==> unit == [c, 'B']
    ensures |unit| == 3 && unit[0] == c && unit[1..] == "iB" ==> unit == [c, 'i', 'B']
  {
    if |unit| == 3 && unit[0] == c && unit[1..] == "iB" {
      assert unit == [unit[0]] + unit[1..];
    }
  }

  /** The source's case table is exactly the prefix rule. */
  lemma MultiplierFollowsPrefixRule(unit: string)
    ensures Multiplier(unit) == PrefixRule(unit)
  {
    if |unit| >= 1 && unit[0] in Prefixes {
      var c := unit[0];
      PrefixedUnit(unit, c);
      Powers();
    }
  }

  // ---------------------------------------------------------------------
  // What the conversion promises.

  /** Negative values and non-numbers raise ValueError, whatever the unit. */
  lemma RejectsNegative(value: Number, unit: string)
    requires value.NotANumber? || (value.IntValue? && value.i < 0)
      || (value.FloatValue? && value.f < 0.0)
    ensures UnitToBytes(value, unit) == Err(ValueError)
  {
  }

  /** An unknown unit yields `NotImplemented` for any valid value. */
  lemma UnknownUnit(value: Number, unit: string)
    requires PrefixRule(unit).None?
    requires (value.IntValue? && value.i >= 0) || (value.FloatValue? && value.f >= 0.0)
    ensures UnitToBytes(value, unit) == Ok(NotImplemented)
  {
    MultiplierFollowsPrefixRule(unit);
  }

  /** An integer count is scaled exactly by the documented multiplier. */
  lemma IntegerConversion(i: nat, unit: string)
    requires PrefixRule(unit).Some?
    ensures UnitToBytes(IntValue(i), unit) == Ok(Bytes(i * PrefixRule(unit).value))
  {
    MultiplierFollowsPrefixRule(unit);
  }

  /** A fractional count is scaled and rounded up to the next whole byte. */
  lemma FloatConversion(f: real, unit: string)
    requires f >= 0.0 && PrefixRule(unit).Some?
    ensures var r := UnitToBytes(FloatValue(f), unit);
      && r.Ok? && r.value.Bytes?
      && r.value.n as real >= f * PrefixRule(unit).value as real
      && (r.value.n as real) - 1.0 < f * PrefixRule(unit).value as real
  {
    MultiplierFollowsPrefixRule(unit);
  }

  /** The two spellings of every binary unit agree, and a binary unit is never smaller than its decimal one. */
  lemma BinaryAtLeastDecimal(c: char)
    requires c in Prefixes
    ensures Multiplier([c]) == Multiplier([c, 'i', 'B'])
    ensures Multiplier([c]).Some? && Multiplier([c, 'B']).Some?
    ensures Multiplier([c, 'B']).value < Multiplier([c]).value
  {
    MultiplierFollowsPrefixRule([c]);
    MultiplierFollowsPrefixRule([c, 'i', 'B']);
    MultiplierFollowsPrefixRule([c, 'B']);
    assert [c, 'i', 'B'][1..] == "iB";
    Powers();
  }
}
