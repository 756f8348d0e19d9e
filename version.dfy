/**
 * fvirt's version numbers (fvirt/version.py): a major.minor.release triple
 * of non-negative integers, and the decoding of libvirt's packed version
 * integer (major * 1,000,000 + minor * 1,000 + release) through its decimal
 * string.
 */
module Version {
  import opened Wrappers
  import opened Numeric
  import opened PyStr

  datatype VersionNumber = VersionNumber(major: nat, minor: nat, release: nat)

  /** The constructor: each component must be non-negative, else ValueError. */
  function MakeVersion(major: int, minor: int, release: int): (r: Result<VersionNumber>)
    ensures r.Ok? <==> major >= 0 && minor >= 0 && release >= 0
    ensures r.Ok? ==> r.value.major == major && r.value.minor == minor && r.value.release == release
    ensures r.Err? ==> r.error == ValueError
  {
    if major < 0 then Err(ValueError)
    else if minor < 0 then Err(ValueError)
    else if release < 0 then Err(ValueError)
    else Ok(VersionNumber(major, minor, release))
  }

  /** `repr` and `str` of a version: the three components joined by dots. */
  function Str(v: VersionNumber): string
  {
    IntStr(v.major) + "." + IntStr(v.minor) + "." + IntStr(v.release)
  }

  /** What `__eq__` may be handed: another VersionNumber or any other object. */
  datatype Comparand = AVersion(version: VersionNumber) | NotAVersion

  function Eq(v: VersionNumber, item: Comparand): (b: bool)
    ensures b <==> item == AVersion(v)
  {
    match item
    case NotAVersion => false
    case AVersion(w) => v.major == w.major && v.minor == w.minor && v.release == w.release
  }

  /** `v[idx]`: components 0, 1 and 2; any other index raises IndexError. */
  function GetItem(v: VersionNumber, idx: int): (r: Result<nat>)
    ensures r.Ok? <==> 0 <= idx < 3
    ensures r.Ok? ==> r.value == [v.major, v.minor, v.release][idx]
    ensures r.Err? ==> r.error == IndexError
  {
    match idx
    case 0 => Ok(v.major)
    case 1 => Ok(v.minor)
    case 2 => Ok(v.release)
    case _ => Err(IndexError)
  }

  /** `s or '0'` for a string `s`. */
  function OrZero(s: string): string
  {
    if s == "" then "0" else s
  }

  /** `int(s.lstrip('0') or '0')`, used for every component of a packed version. */
  function Component(s: string): Option<int>
  {
    ParseInt(OrZero(LStripChar(s, '0')))
  }

  /** `VersionNumber.from_libvirt_version`. */
  function FromLibvirtVersion(version: int): Result<VersionNumber>
  {
    var vstr := IntStr(version);
    var release := Component(Slice(vstr, Some(-3), None));
    if release.None? then Err(ValueError)
    else
      var minor := Component(Slice(vstr, Some(-6), Some(-3)));
      if minor.None? then Err(ValueError)
      else
        var major := Component(Slice(vstr, None, Some(-6)));
        if major.None? then Err(ValueError)
        else MakeVersion(major.value, minor.value, release.value)
  }

  // ---------------------------------------------------------------------
  // Decimal-string facts behind the decoding.

  lemma {:induction false} ZerosValue(s: string)
    requires forall i :: 0 <= i < |s| ==> s[i] == '0'
    ensures AllDigits(s) && DigitsValue(s) == 0
    decreases |s|
  {
    if s != [] {
      ZerosValue(s[..|s| - 1]);
    }
  }

  lemma StripZerosValue(s: string)
    requires AllDigits(s)
    ensures AllDigits(LStripChar(s, '0'))
    ensures DigitsValue(LStripChar(s, '0')) == DigitsValue(s)
  {
    var t := LStripChar(s, '0');
    LStripCharShape(s, '0');
    var k := |s| - |t|;
    var zeros := s[..k];
    assert s == zeros + t;
    assert AllDigits(t) by {
      forall i | 0 <= i < |t| ensures IsDigit(t[i]) {
        assert t[i] == s[k + i];
      }
    }
    ZerosValue(zeros);
    DigitsValueConcat(zeros, t);
  }

  /** Stripping leading zeros (and falling back to "0") keeps a digit string's value. */
  lemma ComponentOfDigits(s: string)
    requires AllDigits(s)
    ensures Component(s) == Some(DigitsValue(s) as int)
  {
    var t := LStripChar(s, '0');
    StripZerosValue(s);
    if t == "" {
      assert Component(s) == ParseInt("0");
      ParseDigits("0");
    } else {
      assert Component(s) == ParseInt(t);
      ParseDigits(t);
    }
  }

  /** A slice containing the leading minus sign never parses to a non-negative number. */
  lemma ComponentOfSigned(p: string)
    requires AllDigits(p) && (|p| > 0 ==> p[0] != '0')
    ensures Component("-" + p).None? || Component("-" + p).value < 0
  {
    var s := "-" + p;
    assert LStripChar(s, '0') == s;
    assert !AllDigits(s) by { assert !IsDigit(s[0]); }
    if |p| > 0 {
      assert s[1..] == p;
      LeadingDigitPositive(p);
    }
  }

  /** Splitting a digit string `k` places from its end is division and remainder by 10^k. */
  lemma SplitDigits(s: string, k: nat)
    requires AllDigits(s) && k <= |s|
    ensures Pow(10, k) > 0
    ensures DigitsValue(s[|s| - k..]) == DigitsValue(s) % Pow(10, k)
    ensures DigitsValue(s[..|s| - k]) == DigitsValue(s) / Pow(10, k)
  {
    var a, b := s[..|s| - k], s[|s| - k..];
    assert s == a + b;
    DigitsValueConcat(a, b);
    DigitsValueBound(b);
    PowPositive(10, k);
    DivModUnique(DigitsValue(s), Pow(10, k), DigitsValue(a), DigitsValue(b));
  }

  lemma DigitsBound(n: nat)
    ensures n < Pow(10, |Digits(n)|)
  {
    DigitsRoundTrip(n);
    DigitsValueBound(Digits(n));
  }

  lemma Pow3And6()
    ensures Pow(10, 3) == 1000 && Pow(10, 6) == 1000000
  {
  }

  /** A decimal string shorter than `k` digits is below 10^k. */
  lemma ShortBound(s: string, k: nat)
    requires AllDigits(s) && |s| <= k
    ensures DigitsValue(s) < Pow(10, k)
  {
    DigitsValueBound(s);
    if |s| < k {
      PowMonotone(10, |s|, k);
    }
  }

  lemma Split3(s: string)
    requires AllDigits(s) && 3 <= |s|
    ensures DigitsValue(s[|s| - 3..]) == DigitsValue(s) % 1000
    ensures DigitsValue(s[..|s| - 3]) == DigitsValue(s) / 1000
  {
    SplitDigits(s, 3);
    Pow3And6();
  }

  /** Where the three slices of a decimal string fall, by its length. */
  lemma SliceShapes(s: string)
    ensures |s| >= 6 ==>
              && Slice(s, Some(-3), None) == s[|s| - 3..]
              && Slice(s, Some(-6), Some(-3)) == s[|s| - 6..|s| - 3]
              && Slice(s, None, Some(-6)) == s[..|s| - 6]
    ensures 3 <= |s| < 6 ==>
              && Slice(s, Some(-3), None) == s[|s| - 3..]
              && Slice(s, Some(-6), Some(-3)) == s[..|s| - 3]
              && Slice(s, None, Some(-6)) == []
    ensures |s| < 3 ==>
              && Slice(s, Some(-3), None) == s
              && Slice(s, Some(-6), Some(-3)) == []
              && Slice(s, None, Some(-6)) == []
  {
  }

  /** The decoding once the three component parses are known. */
  lemma DecodeParts(v: int, release: nat, minor: nat, major: nat)
    requires Component(Slice(IntStr(v), Some(-3), None)) == Some(release as int)
    requires Component(Slice(IntStr(v), Some(-6), Some(-3))) == Some(minor as int)
    requires Component(Slice(IntStr(v), None, Some(-6))) == Some(major as int)
    ensures FromLibvirtVersion(v) == Ok(VersionNumber(major, minor, release))
  {
  }

  /** Quotient and remainder facts for a number written as three base-1000 fields. */
  lemma FieldArith(x: int, j: int, m: int, r: int)
    requires j >= 0 && 0 <= m < 1000 && 0 <= r < 1000
    requires x == (j * 1000 + m) * 1000 + r
    ensures x % 1000 == r && x / 1000 % 1000 == m && x / 1000000 == j
  {
    DivModUnique(x, 1000, j * 1000 + m, r);
    DivModUnique(j * 1000 + m, 1000, j, m);
    DivModUnique(x, 1000000, j, m * 1000 + r);
  }

  /** The three fields of a decimal string of at least six digits. */
  lemma DigitFields(d: string)
    requires AllDigits(d) && |d| >= 6
    ensures DigitsValue(d[|d| - 3..]) == DigitsValue(d) % 1000
    ensures DigitsValue(d[|d| - 6..|d| - 3]) == DigitsValue(d) / 1000 % 1000
    ensures DigitsValue(d[..|d| - 6]) == DigitsValue(d) / 1000000
  {
    var n := |d|;
    var j, m, r := d[..n - 6], d[n - 6..n - 3], d[n - 3..];
    var head := d[..n - 3];
    assert head == j + m;
    assert d == head + r;
    Pow3And6();
    DigitsValueConcat(head, r);
    DigitsValueConcat(j, m);
    DigitsValueBound(m);
    DigitsValueBound(r);
    FieldArith(DigitsValue(d), DigitsValue(j), DigitsValue(m), DigitsValue(r));
  }

  lemma SmallFields(x: int)
    requires 0 <= x < 1000000
    ensures x / 1000 % 1000 == x / 1000 && x / 1000000 == 0
    ensures x < 1000 ==> x % 1000 == x && x / 1000 == 0
  {
    var q := x / 1000;
    assert q < 1000;
    DivModUnique(q, 1000, 0, q);
    DivModUnique(x, 1000000, 0, x);
    if x < 1000 {
      DivModUnique(x, 1000, 0, x);
    }
  }

  lemma LongRelease(d: string)
    requires AllDigits(d) && |d| >= 6
    ensures Component(Slice(d, Some(-3), None)) == Some(DigitsValue(d) % 1000)
  {
    SliceShapes(d);
    Split3(d);
    ComponentOfDigits(d[|d| - 3..]);
  }

  lemma LongMinor(d: string)
    requires AllDigits(d) && |d| >= 6
    ensures Component(Slice(d, Some(-6), Some(-3))) == Some(DigitsValue(d) / 1000 % 1000)
  {
    assert Slice(d, Some(-6), Some(-3)) == d[|d| - 6..|d| - 3];
    DigitFields(d);
    ComponentOfDigits(d[|d| - 6..|d| - 3]);
  }

  lemma LongMajor(d: string)
    requires AllDigits(d) && |d| >= 6
    ensures Component(Slice(d, None, Some(-6))) == Some(DigitsValue(d) / 1000000)
  {
    SliceShapes(d);
    DigitFields(d);
    ComponentOfDigits(d[..|d| - 6]);
  }

  lemma MidFields(d: string)
    requires AllDigits(d) && 3 <= |d| < 6
    ensures DigitsValue(d[|d| - 3..]) == DigitsValue(d) % 1000
    ensures DigitsValue(d[..|d| - 3]) == DigitsValue(d) / 1000 % 1000
    ensures DigitsValue(d) / 1000000 == 0
  {
    Split3(d);
    ShortBound(d, 6);
    Pow3And6();
    SmallFields(DigitsValue(d));
  }

  lemma MidComponents(d: string)
    requires AllDigits(d) && 3 <= |d| < 6
    ensures Component(Slice(d, Some(-3), None)) == Some(DigitsValue(d) % 1000)
    ensures Component(Slice(d, Some(-6), Some(-3))) == Some(DigitsValue(d) / 1000 % 1000)
    ensures Component(Slice(d, None, Some(-6))) == Some(DigitsValue(d) / 1000000)
  {
    SliceShapes(d);
    MidFields(d);
    ComponentOfDigits(d[|d| - 3..]);
    ComponentOfDigits(d[..|d| - 3]);
    ComponentOfDigits([]);
  }

  lemma ShortComponents(d: string)
    requires AllDigits(d) && |d| < 3
    ensures Component(Slice(d, Some(-3), None)) == Some(DigitsValue(d) % 1000)
    ensures Component(Slice(d, Some(-6), Some(-3))) == Some(DigitsValue(d) / 1000 % 1000)
    ensures Component(Slice(d, None, Some(-6))) == Some(DigitsValue(d) / 1000000)
  {
    assert Slice(d, Some(-3), None) == d;
    assert Slice(d, Some(-6), Some(-3)) == [];
    assert Slice(d, None, Some(-6)) == [];
    ShortBound(d, 3);
    Pow3And6();
    SmallFields(DigitsValue(d));
    ComponentOfDigits(d);
    ComponentOfDigits([]);
  }

  // ---------------------------------------------------------------------
  // What the decoding computes.

  /** A non-negative packed version decodes to its three fields. */
  lemma FromLibvirtVersionNonNegative(v: int)
    requires v >= 0
    ensures FromLibvirtVersion(v) == Ok(VersionNumber(v / 1000000, v / 1000 % 1000, v % 1000))
  {
    var d := Digits(v);
    assert IntStr(v) == d;
    DigitsRoundTrip(v);
    if |d| >= 6 {
      LongRelease(d);
      LongMinor(d);
      LongMajor(d);
    } else if |d| >= 3 {
      MidComponents(d);
    } else {
      ShortComponents(d);
    }
    DecodeParts(v, v % 1000, v / 1000 % 1000, v / 1000000);
  }

  predicate Unusable(c: Option<int>)
  {
    c.None? || c.value < 0
  }

  /** One unusable component is enough for the decoding to raise ValueError. */
  lemma DecodeFails(v: int)
    requires Unusable(Component(Slice(IntStr(v), Some(-3), None)))
          || Unusable(Component(Slice(IntStr(v), Some(-6), Some(-3))))
          || Unusable(Component(Slice(IntStr(v), None, Some(-6))))
    ensures FromLibvirtVersion(v) == Err(ValueError)
  {
  }

  /** The slice of `"-" + d` that holds the sign, by the string's length. */
  lemma SignedSlice(d: string)
    requires AllDigits(d) && |d| > 0 && d[0] != '0'
    ensures |d| + 1 <= 3 ==> Unusable(Component(Slice("-" + d, Some(-3), None)))
    ensures 4 <= |d| + 1 <= 6 ==> Unusable(Component(Slice("-" + d, Some(-6), Some(-3))))
    ensures 7 <= |d| + 1 ==> Unusable(Component(Slice("-" + d, None, Some(-6))))
  {
    var s := "-" + d;
    var n := |s|;
    if n <= 3 {
      assert Slice(s, Some(-3), None) == "-" + d;
      ComponentOfSigned(d);
    } else if n <= 6 {
      assert Slice(s, Some(-6), Some(-3)) == "-" + d[..n - 4];
      ComponentOfSigned(d[..n - 4]);
    } else {
      assert Slice(s, None, Some(-6)) == "-" + d[..n - 7];
      ComponentOfSigned(d[..n - 7]);
    }
  }

  /** A negative packed version raises ValueError: its sign lands in one of the slices. */
  lemma FromLibvirtVersionNegative(v: int)
    requires v < 0
    ensures FromLibvirtVersion(v) == Err(ValueError)
  {
    var d := Digits(-v);
    DigitsLeading(-v);
    assert IntStr(v) == "-" + d;
    SignedSlice(d);
    DecodeFails(v);
  }

  /** Packing a version into libvirt's integer form and decoding it gives it back. */
  lemma PackRoundTrip(v: VersionNumber)
    requires v.minor < 1000 && v.release < 1000
    ensures FromLibvirtVersion(v.major * 1000000 + v.minor * 1000 + v.release) == Ok(v)
  {
    var packed := v.major * 1000000 + v.minor * 1000 + v.release;
    FromLibvirtVersionNonNegative(packed);
    DivModUnique(packed, 1000, v.major * 1000 + v.minor, v.release);
    DivModUnique(v.major * 1000 + v.minor, 1000, v.major, v.minor);
    DivModUnique(packed, 1000000, v.major, v.minor * 1000 + v.release);
  }

  // ---------------------------------------------------------------------
  // The string form splits back into its components.

  /** `str(v).split('.')` yields the three components, each of which `int` parses back. */
  lemma StrRoundTrip(v: VersionNumber)
    ensures Split(Str(v), '.') == [IntStr(v.major), IntStr(v.minor), IntStr(v.release)]
    ensures ParseInt(IntStr(v.major)) == Some(v.major as int)
    ensures ParseInt(IntStr(v.minor)) == Some(v.minor as int)
    ensures ParseInt(IntStr(v.release)) == Some(v.release as int)
  {
    var a, b, c := IntStr(v.major), IntStr(v.minor), IntStr(v.release);
    IntStrNoSep(v.major, '.');
    IntStrNoSep(v.minor, '.');
    IntStrNoSep(v.release, '.');
    assert Str(v) == a + ['.'] + (b + ['.'] + c);
    SplitAfter(a, '.', b + ['.'] + c);
    SplitAfter(b, '.', c);
    SplitNoSep(c, '.');
    ParseIntStr(v.major);
    ParseIntStr(v.minor);
    ParseIntStr(v.release);
  }
}
