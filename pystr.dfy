/**
 * The parts of Python's `str` and `int` behaviour that the modelled code
 * relies on: `str(n)`, `int(s)`, slicing with negative indices,
 * `lstrip(c)`, `strip()`, `rstrip()`, `split(sep)`, `sep.join(...)`,
 * width padding in f-strings and `c * n`.
 */
module PyStr {
  import opened Wrappers
  import opened Numeric

  predicate IsDigit(c: char) { '0' <= c <= '9' }

  predicate AllDigits(s: string) { forall i :: 0 <= i < |s| ==> IsDigit(s[i]) }

  /** The characters for which Python's `str.isspace()` is true. */
  predicate IsSpace(c: char)
  {
    c == ' ' || ('\t' <= c <= '\r') || ('\U{1c}' <= c <= '\U{1f}')
    || c == '\U{85}' || c == '\U{a0}' || c == '\U{1680}'
    || ('\U{2000}' <= c <= '\U{200a}') || c == '\U{2028}' || c == '\U{2029}'
    || c == '\U{202f}' || c == '\U{205f}' || c == '\U{3000}'
  }

  function DigitChar(d: nat): (c: char)
    requires d < 10
    ensures IsDigit(c) && DigitValue(c) == d
  {
    (('0' as int) + d) as char
  }

  function DigitValue(c: char): (d: nat)
    requires IsDigit(c)
  {
    c as int - '0' as int
  }

  /** `str(n)` for a non-negative integer: decimal digits, no leading zero. */
  function Digits(n: nat): (s: string)
    ensures |s| >= 1 && AllDigits(s)
    decreases n
  {
    if n < 10 then [DigitChar(n)] else Digits(n / 10) + [DigitChar(n % 10)]
  }

  /** `str(n)` starts with a zero only for zero itself. */
  lemma {:induction false} DigitsLeading(n: nat)
    ensures (Digits(n)[0] == '0') <==> (n == 0)
    decreases n
  {
    if n >= 10 {
      DigitsLeading(n / 10);
      assert Digits(n)[0] == Digits(n / 10)[0];
    }
  }

  /** `str(n)` for any integer. */
  function IntStr(n: int): string
  {
    if n < 0 then "-" + Digits(-n) else Digits(n)
  }

  /** The value of a string of decimal digits, leading zeros allowed. */
  function DigitsValue(s: string): nat
    requires AllDigits(s)
    decreases |s|
  {
    if s == [] then 0 else DigitsValue(s[..|s| - 1]) * 10 + DigitValue(s[|s| - 1])
  }

  lemma {:induction false} DigitsRoundTrip(n: nat)
    ensures DigitsValue(Digits(n)) == n
    decreases n
  {
    if n >= 10 {
      DigitsRoundTrip(n / 10);
      var s := Digits(n);
      assert s[..|s| - 1] == Digits(n / 10);
    }
  }

  /** `str(n)` has as many digits as the magnitude of `n` calls for. */
  lemma {:induction false} DigitsLowerBound(n: nat)
    ensures n == 0 || n >= Pow(10, |Digits(n)| - 1)
    decreases n
  {
    if n >= 10 {
      DigitsLowerBound(n / 10);
      var k := |Digits(n / 10)|;
      assert |Digits(n)| - 1 == k;
      assert Pow(10, k) == 10 * Pow(10, k - 1);
      assert n >= 10 * (n / 10);
    }
  }

  lemma {:induction false} DigitsValueBound(s: string)
    requires AllDigits(s)
    ensures DigitsValue(s) < Pow(10, |s|)
    decreases |s|
  {
    if s != [] {
      DigitsValueBound(s[..|s| - 1]);
    }
  }

  lemma {:induction false} DigitsValueConcat(a: string, b: string)
    requires AllDigits(a) && AllDigits(b)
    ensures AllDigits(a + b)
    ensures DigitsValue(a + b) == DigitsValue(a) * Pow(10, |b|) + DigitsValue(b)
    decreases |b|
  {
    assert AllDigits(a + b) by {
      forall i | 0 <= i < |a + b| ensures IsDigit((a + b)[i]) {
        if i < |a| { assert (a + b)[i] == a[i]; } else { assert (a + b)[i] == b[i - |a|]; }
      }
    }
    if b != [] {
      var b' := b[..|b| - 1];
      assert (a + b)[..|a + b| - 1] == a + b';
      assert (a + b)[|a + b| - 1] == b[|b| - 1];
      DigitsValueConcat(a, b');
      var d := DigitValue(b[|b| - 1]);
      assert DigitsValue(a + b) == DigitsValue(a + b') * 10 + d;
      assert Pow(10, |b|) == 10 * Pow(10, |b'|);
      assert DigitsValue(b) == DigitsValue(b') * 10 + d;
      Regroup(DigitsValue(a), Pow(10, |b'|), DigitsValue(b'), d);
    } else {
      assert a + b == a;
    }
  }

  lemma Regroup(x: int, p: int, y: int, d: int)
    ensures (x * p + y) * 10 + d == x * (10 * p) + (y * 10 + d)
  {
  }

  /** A non-zero digit string that starts with a non-zero digit has value at least 1. */
  lemma LeadingDigitPositive(s: string)
    requires AllDigits(s) && |s| > 0 && s[0] != '0'
    ensures DigitsValue(s) >= 1
  {
    DigitsValueConcat(s[..1], s[1..]);
    assert s == s[..1] + s[1..];
    assert s[..1][..0] == [];
    PowPositive(10, |s| - 1);
  }

  /**
   * `int(s)` for the strings the modelled code passes to it: an optional
   * sign followed by ASCII decimal digits. Anything else raises ValueError.
   */
  function ParseInt(s: string): (r: Option<int>)
  {
    if |s| > 0 && AllDigits(s) then Some(DigitsValue(s) as int)
    else if |s| > 1 && (s[0] == '-' || s[0] == '+') && AllDigits(s[1..]) then
      (if s[0] == '-' then Some(-(DigitsValue(s[1..]) as int)) else Some(DigitsValue(s[1..]) as int))
    else None
  }

  lemma ParseDigits(s: string)
    requires |s| > 0 && AllDigits(s)
    ensures ParseInt(s) == Some(DigitsValue(s) as int)
  {
  }

  lemma ParseIntStr(n: int)
    ensures ParseInt(IntStr(n)) == Some(n)
  {
    var d := Digits(if n < 0 then -n else n);
    DigitsRoundTrip(if n < 0 then -n else n);
    if n < 0 {
      var s := "-" + d;
      assert IntStr(n) == s;
      assert s[1..] == d;
      assert !IsDigit(s[0]);
      assert ParseInt(s) == Some(-(DigitsValue(d) as int));
    } else {
      assert IntStr(n) == d;
      ParseDigits(d);
    }
  }

  /** `s.lstrip(c)`: drops the leading run of `c`. */
  function LStripChar(s: string, c: char): string
    decreases |s|
  {
    if |s| > 0 && s[0] == c then LStripChar(s[1..], c) else s
  }

  lemma {:induction false} LStripCharShape(s: string, c: char)
    ensures var r := LStripChar(s, c);
      && |r| <= |s| && r == s[|s| - |r|..]
      && (forall i :: 0 <= i < |s| - |r| ==> s[i] == c)
      && (|r| > 0 ==> r[0] != c)
    decreases |s|
  {
    if |s| > 0 && s[0] == c {
      LStripCharShape(s[1..], c);
    }
  }

  /** `s.lstrip()` with Python's whitespace set. */
  function LStrip(s: string): string
    decreases |s|
  {
    if |s| > 0 && IsSpace(s[0]) then LStrip(s[1..]) else s
  }

  lemma {:induction false} LStripShape(s: string)
    ensures var r := LStrip(s);
      && |r| <= |s| && r == s[|s| - |r|..]
      && (forall i :: 0 <= i < |s| - |r| ==> IsSpace(s[i]))
      && (|r| > 0 ==> !IsSpace(r[0]))
    decreases |s|
  {
    if |s| > 0 && IsSpace(s[0]) {
      LStripShape(s[1..]);
    }
  }

  /** `s.rstrip()` with Python's whitespace set. */
  function RStrip(s: string): string
    decreases |s|
  {
    if |s| > 0 && IsSpace(s[|s| - 1]) then RStrip(s[..|s| - 1]) else s
  }

  lemma {:induction false} RStripShape(s: string)
    ensures var r := RStrip(s);
      && |r| <= |s| && r == s[..|r|]
      && (forall i :: |r| <= i < |s| ==> IsSpace(s[i]))
      && (|r| > 0 ==> !IsSpace(r[|r| - 1]))
    decreases |s|
  {
    if |s| > 0 && IsSpace(s[|s| - 1]) {
      RStripShape(s[..|s| - 1]);
    }
  }

  /** `s.strip()`. */
  function Strip(s: string): string
  {
    RStrip(LStrip(s))
  }

  /** Text with no whitespace at either end is left alone by `strip()`. */
  lemma StripIdentity(s: string)
    requires s == [] || (!IsSpace(s[0]) && !IsSpace(s[|s| - 1]))
    ensures Strip(s) == s
  {
  }

  /** `s.startswith(p)`. */
  predicate StartsWith(s: string, p: string)
  {
    |p| <= |s| && s[..|p|] == p
  }

  /** `s.endswith(p)`. */
  predicate EndsWith(s: string, p: string)
  {
    |p| <= |s| && s[|s| - |p|..] == p
  }

  /** Python's index normalisation for a slice bound (step 1). */
  function SliceBound(i: int, n: nat): (k: nat)
    ensures k <= n
  {
    if i < 0 then (if n + i < 0 then 0 else n + i) else if i > n then n else i
  }

  /** `s[lo:hi]` with Python semantics; `None` stands for an omitted bound. */
  function Slice<T>(s: seq<T>, lo: Option<int>, hi: Option<int>): seq<T>
  {
    var a := if lo.None? then 0 else SliceBound(lo.value, |s|);
    var b := if hi.None? then |s| else SliceBound(hi.value, |s|);
    if a < b then s[a..b] else []
  }

  /** `sep.join(parts)`. */
  function Join(parts: seq<string>, sep: string): string
    decreases |parts|
  {
    if |parts| == 0 then ""
    else if |parts| == 1 then parts[0]
    else parts[0] + sep + Join(parts[1..], sep)
  }

  /** `s.split(sep)` for a one-character separator. */
  function Split(s: string, sep: char): (parts: seq<string>)
    ensures |parts| >= 1
    ensures forall k :: 0 <= k < |parts| ==> sep !in parts[k]
    decreases |s|
  {
    if |s| == 0 then [""]
    else
      var rest := Split(s[1..], sep);
      if s[0] == sep then [""] + rest
      else [[s[0]] + rest[0]] + rest[1..]
  }

  /** `split` yields one more piece than there are separators. */
  lemma {:induction false} SplitCount(s: string, sep: char)
    ensures |Split(s, sep)| == multiset(s)[sep] + 1
    decreases |s|
  {
    if |s| > 0 {
      SplitCount(s[1..], sep);
      assert s == [s[0]] + s[1..];
      assert multiset(s) == multiset([s[0]]) + multiset(s[1..]);
    }
  }

  lemma {:induction false} SplitJoin(s: string, sep: char)
    ensures Join(Split(s, sep), [sep]) == s
    decreases |s|
  {
    if |s| > 0 {
      var rest := Split(s[1..], sep);
      SplitJoin(s[1..], sep);
      if s[0] == sep {
        assert ([""] + rest)[1..] == rest;
      } else {
        var parts := [[s[0]] + rest[0]] + rest[1..];
        if |rest| > 1 {
          assert parts[1..] == rest[1..];
        }
      }
    }
  }

  /** Splitting text that begins with a separator-free piece and a separator yields that piece first. */
  lemma {:induction false} SplitAfter(a: string, sep: char, rest: string)
    requires sep !in a
    ensures Split(a + [sep] + rest, sep) == [a] + Split(rest, sep)
    decreases |a|
  {
    if a == [] {
      assert a + [sep] + rest == [sep] + rest;
      assert ([sep] + rest)[1..] == rest;
    } else {
      var s := a + [sep] + rest;
      assert s[1..] == a[1..] + [sep] + rest;
      SplitAfter(a[1..], sep, rest);
      assert [a[0]] + a[1..] == a;
    }
  }

  lemma {:induction false} SplitNoSep(s: string, sep: char)
    requires sep !in s
    ensures Split(s, sep) == [s]
    decreases |s|
  {
    if s != [] {
      SplitNoSep(s[1..], sep);
      assert [s[0]] + s[1..] == s;
    }
  }

  /** Splitting a join of separator-free pieces gives the pieces back. */
  lemma {:induction false} JoinSplit(parts: seq<string>, sep: char)
    requires |parts| >= 1
    requires forall k :: 0 <= k < |parts| ==> sep !in parts[k]
    ensures Split(Join(parts, [sep]), sep) == parts
    decreases |parts|
  {
    if |parts| == 1 {
      SplitNoSep(parts[0], sep);
    } else {
      JoinSplit(parts[1..], sep);
      SplitAfter(parts[0], sep, Join(parts[1..], [sep]));
      assert [parts[0]] + parts[1..] == parts;
    }
  }

  /** A character that is neither the separator nor in any piece is not in their join. */
  lemma {:induction false} JoinAvoids(parts: seq<string>, sep: char, c: char)
    requires c != sep
    requires forall k :: 0 <= k < |parts| ==> c !in parts[k]
    ensures c !in Join(parts, [sep])
    decreases |parts|
  {
    if |parts| > 1 {
      JoinAvoids(parts[1..], sep, c);
      assert parts[0] + [sep] + Join(parts[1..], [sep]) == Join(parts, [sep]);
    }
  }

  /** `str(n)` holds only digits and a minus sign. */
  lemma IntStrNoSep(n: int, sep: char)
    requires sep != '-' && !IsDigit(sep)
    ensures sep !in IntStr(n)
  {
    var s := IntStr(n);
    var d := Digits(if n < 0 then -n else n);
    assert forall i | 0 <= i < |d| :: d[i] != sep;
    if n < 0 {
      assert s == "-" + d;
      assert forall i | 0 <= i < |s| :: s[i] != sep by {
        forall i | 0 <= i < |s| ensures s[i] != sep {
          if i > 0 { assert s[i] == d[i - 1]; }
        }
      }
    }
  }

  /** `c * n` for a one-character string `c`. */
  function Repeat(c: char, n: nat): (r: string)
    ensures |r| == n && forall i :: 0 <= i < n ==> r[i] == c
  {
    seq(n, _ => c)
  }

  /** `f"{s:<w}"`: left-justified in a field of `w` characters. */
  function LJust(s: string, w: nat): (r: string)
    ensures |r| == if |s| >= w then |s| else w
    ensures r[..|s|] == s
    ensures forall i :: |s| <= i < |r| ==> r[i] == ' '
  {
    if |s| >= w then s else s + Repeat(' ', w - |s|)
  }

  /** `f"{s:>w}"`: right-justified in a field of `w` characters. */
  function RJust(s: string, w: nat): (r: string)
    ensures |r| == if |s| >= w then |s| else w
    ensures r[|r| - |s|..] == s
    ensures forall i :: 0 <= i < |r| - |s| ==> r[i] == ' '
  {
    if |s| >= w then s else Repeat(' ', w - |s|) + s
  }
}
