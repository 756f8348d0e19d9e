/**
 * The package-level helper of fvirt/libvirt/__init__.py that decodes
 * libvirt's packed API version. It differs from
 * `VersionNumber.from_libvirt_version` in one place: the major component
 * has no `or '0'` fallback, so `int('')` raises when the packed value has
 * fewer than seven digits.
 */
module LibvirtApi {
  import opened Wrappers
  import opened Numeric
  import opened PyStr
  import opened Version

  /** `parse_libvirt_version`. */
  function ParseLibvirtVersion(version: int): Result<VersionNumber>
  {
    var vstr := IntStr(version);
    var release := Component(Slice(vstr, Some(-3), None));
    if release.None? then Err(ValueError)
    else
      var minor := Component(Slice(vstr, Some(-6), Some(-3)));
      if minor.None? then Err(ValueError)
      else
        var major := ParseInt(LStripChar(Slice(vstr, None, Some(-6)), '0'));
        if major.None? then Err(ValueError)
        else MakeVersion(major.value, minor.value, release.value)
  }

  lemma DigitCountAtLeastSeven(v: nat)
    ensures v >= 1000000 <==> |Digits(v)| >= 7
  {
    var k := |Digits(v)|;
    DigitsRoundTrip(v);
    DigitsValueBound(Digits(v));
    DigitsLowerBound(v);
    Pow3And6();
    if k < 7 && k < 6 {
      PowMonotone(10, k, 6);
    } else if k >= 7 && k - 1 > 6 {
      PowMonotone(10, 6, k - 1);
    }
  }

  /** From libvirt 1.0.0 on, both decoders agree. */
  lemma ParseAgreesFromOneZero(v: int)
    requires v >= 1000000
    ensures ParseLibvirtVersion(v) == FromLibvirtVersion(v)
    ensures ParseLibvirtVersion(v) == Ok(VersionNumber(v / 1000000, v / 1000 % 1000, v % 1000))
  {
    var d := Digits(v);
    assert IntStr(v) == d;
    DigitsLeading(v);
    DigitCountAtLeastSeven(v);
    var head := d[..|d| - 6];
    assert Slice(d, None, Some(-6)) == head;
    assert head[0] == d[0];
    assert LStripChar(head, '0') == head;
    assert OrZero(head) == head;
    FromLibvirtVersionNonNegative(v);
  }

  /** Below libvirt 1.0.0 (and for negative input) the major slice cannot be parsed. */
  lemma ParseFailsBelowOneZero(v: int)
    requires v < 1000000
    ensures ParseLibvirtVersion(v) == Err(ValueError)
  {
    var s := IntStr(v);
    if v >= 0 {
      DigitCountAtLeastSeven(v);
      assert Slice(s, None, Some(-6)) == [];
    } else {
      var d := Digits(-v);
      DigitsLeading(-v);
      assert s == "-" + d;
      if |s| >= 7 {
        var head := "-" + d[..|s| - 7];
        assert Slice(s, None, Some(-6)) == head;
        assert LStripChar(head, '0') == head;
        ComponentOfSigned(d[..|s| - 7]);
        assert OrZero(head) == head;
      } else {
        assert Slice(s, None, Some(-6)) == [];
      }
    }
  }
}
