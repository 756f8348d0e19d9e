/**
 * The address checks of the domain templating model
 * (fvirt/libvirt/models/domain.py): `is_valid_ipv4`, `is_valid_ipv6` and
 * the `NetworkIPInfo` validator.
 *
 * Both patterns are applied with Python's `re.match`, whose `$` also
 * matches just before a single final newline; `Anchored` drops that
 * newline before the text is compared with the pattern. `\d` is read as
 * an ASCII digit.
 */
module DomainNetwork {
  import opened Wrappers
  import opened PyStr

  /** The text a `^...$` pattern has to match in full. */
  function Anchored(s: string): (t: string)
    ensures s == t || s == t + "\n"
  {
    if |s| > 0 && s[|s| - 1] == '\n' then
      assert s == s[..|s| - 1] + [s[|s| - 1]];
      s[..|s| - 1]
    else s
  }

  // ---------------------------------------------------------------------
  // IPv4

  /** `\d{1,3}`. */
  predicate DecimalGroup(p: string)
  {
    1 <= |p| <= 3 && AllDigits(p)
  }

  /** The four groups of `IPV4_PATTERN`, when the text matches it. */
  function Octets(ip: string): (r: Option<seq<nat>>)
    ensures r.Some? ==> |r.value| == 4
  {
    var parts := Split(Anchored(ip), '.');
    if |parts| == 4 && forall k :: 0 <= k < 4 ==> DecimalGroup(parts[k]) then
      Some([DigitsValue(parts[0]), DigitsValue(parts[1]), DigitsValue(parts[2]), DigitsValue(parts[3])])
    else None
  }

  /** `is_valid_ipv4`. */
  predicate IsValidIpv4(ip: string)
  {
    var o := Octets(ip);
    o.Some? && forall k :: 0 <= k < 4 ==> o.value[k] <= 255
  }

  /** Four decimal groups, each worth at most 255. */
  predicate OctetGroups(parts: seq<string>)
  {
    |parts| == 4 && forall k :: 0 <= k < 4 ==> DecimalGroup(parts[k]) && DigitsValue(parts[k]) <= 255
  }

  lemma DigitsAvoid(p: string, c: char)
    requires AllDigits(p) && !IsDigit(c)
    ensures c !in p
  {
  }

  /** An address is valid exactly when it is four dot-separated groups of one to three digits, each at most 255. */
  lemma Ipv4Shape(ip: string)
    ensures IsValidIpv4(ip) <==> exists parts :: OctetGroups(parts) && Anchored(ip) == Join(parts, ".")
  {
    var s := Anchored(ip);
    if IsValidIpv4(ip) {
      SplitJoin(s, '.');
      var parts := Split(s, '.');
      var o := Octets(ip).value;
      assert o == [DigitsValue(parts[0]), DigitsValue(parts[1]), DigitsValue(parts[2]), DigitsValue(parts[3])];
      assert o[0] <= 255 && o[1] <= 255 && o[2] <= 255 && o[3] <= 255;
      assert OctetGroups(parts);
    }
    if exists parts :: OctetGroups(parts) && s == Join(parts, ".") {
      var parts :| OctetGroups(parts) && s == Join(parts, ".");
      forall k | 0 <= k < |parts| ensures '.' !in parts[k] {
        DigitsAvoid(parts[k], '.');
      }
      JoinSplit(parts, '.');
    }
  }

  /** The usual dotted-quad text of four octets. */
  function DottedQuad(a: nat, b: nat, c: nat, d: nat): string
  {
    Join([IntStr(a), IntStr(b), IntStr(c), IntStr(d)], ".")
  }

  lemma OctetText(n: nat)
    requires n <= 255
    ensures DecimalGroup(IntStr(n)) && DigitsValue(IntStr(n)) == n && '.' !in IntStr(n)
  {
    DigitsRoundTrip(n);
    DigitsLowerBound(n);
    IntStrNoSep(n, '.');
    if |Digits(n)| > 3 {
      Numeric.PowMonotone(10, 3, |Digits(n)| - 1);
    }
  }

  /** Every dotted quad of octets is accepted, and its groups read back as those octets. */
  lemma DottedQuadValid(a: nat, b: nat, c: nat, d: nat)
    requires a <= 255 && b <= 255 && c <= 255 && d <= 255
    ensures IsValidIpv4(DottedQuad(a, b, c, d))
    ensures Octets(DottedQuad(a, b, c, d)) == Some([a, b, c, d])
  {
    var parts := [IntStr(a), IntStr(b), IntStr(c), IntStr(d)];
    OctetText(a);
    OctetText(b);
    OctetText(c);
    OctetText(d);
    var s := DottedQuad(a, b, c, d);
    assert s == IntStr(a) + "." + Join(parts[1..], ".");
    JoinSplit(parts, '.');
    assert Anchored(s) == s by {
      forall k | 0 <= k < 4 ensures '\n' !in parts[k] {
        IntStrNoSep([a, b, c, d][k], '\n');
      }
      JoinAvoids(parts, '.', '\n');
      assert |s| > 0;
      assert s[|s| - 1] in s;
    }
  }

  /** Leading zeros are accepted; the group still reads as its decimal value. */
  lemma LeadingZerosAccepted()
    ensures IsValidIpv4("010.0.0.1")
  {
    var parts := ["010", "0", "0", "1"];
    assert AllDigits("010") && AllDigits("0") && AllDigits("1");
    assert DigitsValue("010") == 10 by {
      assert "010"[..2] == "01";
      assert "01"[..1] == "0";
      assert "0"[..0] == "";
    }
    assert DigitsValue("1") == 1 by { assert "1"[..0] == ""; }
    assert DigitsValue("0") == 0 by { assert "0"[..0] == ""; }
    assert OctetGroups(parts);
    assert Join(parts, ".") == "010.0.0.1";
    Ipv4Shape("010.0.0.1");
  }

  /** The anchoring lets one trailing newline through: the newline-free text is accepted with or without it. */
  lemma Ipv4TrailingNewline(ip: string)
    requires IsValidIpv4(ip)
    ensures '\n' !in Anchored(ip)
    ensures IsValidIpv4(Anchored(ip)) && IsValidIpv4(Anchored(ip) + "\n")
  {
    var s := Anchored(ip);
    Ipv4Shape(ip);
    var parts :| OctetGroups(parts) && s == Join(parts, ".");
    forall k | 0 <= k < |parts| ensures '\n' !in parts[k] {
      DigitsAvoid(parts[k], '\n');
    }
    JoinAvoids(parts, '.', '\n');
    assert Anchored(s) == s by {
      if |s| > 0 { assert s[|s| - 1] in s; }
    }
    assert (s + "\n")[..|s + "\n"| - 1] == s;
    assert Anchored(s + "\n") == s;
    Ipv4Shape(s);
    Ipv4Shape(s + "\n");
  }

  // ---------------------------------------------------------------------
  // IPv6

  /** `[0-9a-fA-F]`. */
  predicate IsHex(c: char)
  {
    IsDigit(c) || 'a' <= c <= 'f' || 'A' <= c <= 'F'
  }

  /** `[0-9a-fA-F]{1,4}`. */
  predicate HexGroup(p: string)
  {
    1 <= |p| <= 4 && forall i :: 0 <= i < |p| ==> IsHex(p[i])
  }

  /** `is_valid_ipv6`: eight colon-separated groups of hex digits, no `::` shorthand. */
  predicate IsValidIpv6(ip: string)
  {
    var parts := Split(Anchored(ip), ':');
    |parts| == 8 && forall k :: 0 <= k < 8 ==> HexGroup(parts[k])
  }

  lemma HexAvoid(p: string, c: char)
    requires HexGroup(p) && !IsHex(c)
    ensures c !in p
  {
  }

  predicate HexGroups(parts: seq<string>)
  {
    |parts| == 8 && forall k :: 0 <= k < 8 ==> HexGroup(parts[k])
  }

  /** An address is valid exactly when it is eight colon-separated groups of one to four hex digits. */
  lemma Ipv6Shape(ip: string)
    ensures IsValidIpv6(ip) <==> exists parts :: HexGroups(parts) && Anchored(ip) == Join(parts, ":")
  {
    var s := Anchored(ip);
    if IsValidIpv6(ip) {
      SplitJoin(s, ':');
      assert HexGroups(Split(s, ':'));
    }
    if exists parts :: HexGroups(parts) && s == Join(parts, ":") {
      var parts :| HexGroups(parts) && s == Join(parts, ":");
      forall k | 0 <= k < |parts| ensures ':' !in parts[k] {
        HexAvoid(parts[k], ':');
      }
      JoinSplit(parts, ':');
    }
  }

  /** The compressed loopback `::1` does not match the pattern. */
  lemma CompressedRejected()
    ensures !IsValidIpv6("::1")
  {
    SplitCount("::1", ':');
    assert multiset("::1")[':'] == 2 by {
      assert "::1" == [':'] + [':'] + ['1'];
    }
  }

  /** No text passes both checks: an IPv4 address holds no colon. */
  lemma Ipv4NotIpv6(ip: string)
    requires IsValidIpv4(ip)
    ensures !IsValidIpv6(ip)
  {
    var s := Anchored(ip);
    Ipv4Shape(ip);
    var parts :| OctetGroups(parts) && s == Join(parts, ".");
    forall k | 0 <= k < |parts| ensures ':' !in parts[k] {
      DigitsAvoid(parts[k], ':');
    }
    JoinAvoids(parts, '.', ':');
    SplitNoSep(s, ':');
  }

  // ---------------------------------------------------------------------
  // NetworkIPInfo

  /** `NetworkIPInfo.check_model`. */
  function CheckNetworkIp(address: string, prefix: int): (r: Check)
    ensures r.Pass? <==> ((IsValidIpv4(address) && 1 <= prefix <= 31) || (IsValidIpv6(address) && 1 <= prefix <= 127))
    ensures r.Fail? ==> r.error == ValueError
  {
    if IsValidIpv4(address) then
      Ipv4NotIpv6(address);
      if 1 <= prefix < 32 then Pass else Fail(ValueError)
    else if IsValidIpv6(address) then
      if 1 <= prefix < 128 then Pass else Fail(ValueError)
    else Fail(ValueError)
  }
}
