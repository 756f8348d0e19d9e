/**
 * The feature and tuning part of the domain templating model
 * (fvirt/libvirt/models/domain.py): `MemtuneInfo.check_limits`,
 * `FeaturesHyperVInfo.fixup_mode`, `FeaturesKVMDirtyRing.check_size`
 * and `FeaturesCapabilities.check_modify`.
 *
 * `model_fields_set` (the names a caller passed explicitly, even as
 * None) is an input of the model.
 */
module DomainFeatures {
  import opened Wrappers
  import opened Numeric

  // ---------------------------------------------------------------------
  // Memory tuning

  datatype MemLimit = Hard | Soft | Swap | Min

  /** `MemtuneInfo`, with the names passed explicitly. */
  datatype Memtune = Memtune(hard: Option<int>, soft: Option<int>, swap: Option<int>, min: Option<int>,
                             fieldsSet: set<MemLimit>)

  predicate PositiveIfSet(v: Option<int>)
  {
    v.Some? ==> v.value > 0
  }

  /** Pydantic validation of a `MemtuneInfo`: the `gt=0` constraints, then `check_limits`. */
  function ValidateMemtune(m: Memtune): (r: Check)
    ensures r.Pass? <==> PositiveIfSet(m.hard) && PositiveIfSet(m.soft) && PositiveIfSet(m.swap)
                         && PositiveIfSet(m.min) && m.fieldsSet != {}
    ensures r.Fail? ==> r.error == ValueError
  {
    if !(PositiveIfSet(m.hard) && PositiveIfSet(m.soft) && PositiveIfSet(m.swap) && PositiveIfSet(m.min)) then
      Fail(ValueError)
    else if m.fieldsSet == {} then Fail(ValueError)
    else Pass
  }

  /** Naming a limit is enough, even as None; leaving every limit out is refused. */
  lemma MemtuneNeedsANamedLimit()
    ensures ValidateMemtune(Memtune(None, None, None, None, {Hard})).Pass?
    ensures ValidateMemtune(Memtune(None, None, None, None, {})).Fail?
  {
  }

  // ---------------------------------------------------------------------
  // Hyper-V

  /** The `mode` `fixup_mode` leaves: `custom` once any other named field is not None. */
  function ModeAfter(mode: string, fieldsSet: set<string>, notNone: set<string>): (m: string)
    ensures m == "custom" || m == mode
    ensures m != mode ==> exists item :: item in fieldsSet && item != "mode" && item in notNone
  {
    if exists item :: item in fieldsSet && item != "mode" && item in notNone then "custom" else mode
  }

  /** Running the fix-up again changes nothing. */
  lemma ModeAfterIdempotent(mode: string, fieldsSet: set<string>, notNone: set<string>)
    ensures ModeAfter(ModeAfter(mode, fieldsSet, notNone), fieldsSet, notNone) == ModeAfter(mode, fieldsSet, notNone)
  {
  }

  /** A default `mode` stays `passthrough` exactly when no other field was given a value. */
  lemma DefaultModeRule(fieldsSet: set<string>, notNone: set<string>)
    ensures ModeAfter("passthrough", fieldsSet, notNone) == "custom"
        <==> (fieldsSet - {"mode"}) * notNone != {}
  {
    if (fieldsSet - {"mode"}) * notNone != {} {
      var item :| item in (fieldsSet - {"mode"}) * notNone;
      assert item in fieldsSet && item != "mode" && item in notNone;
    }
    if ModeAfter("passthrough", fieldsSet, notNone) == "custom" {
      var item :| item in fieldsSet && item != "mode" && item in notNone;
      assert item in (fieldsSet - {"mode"}) * notNone;
    }
  }

  /** `FeaturesHyperVInfo`: only `mode` is written after construction. */
  class HyperVInfo {
    var mode: string
    /** `model_fields_set`. */
    const fieldsSet: set<string>
    /** The fields whose value is not None. */
    const notNone: set<string>

    constructor(mode: string, fieldsSet: set<string>, notNone: set<string>)
      ensures this.mode == mode && this.fieldsSet == fieldsSet && this.notNone == notNone
    {
      this.mode := mode;
      this.fieldsSet := fieldsSet;
      this.notNone := notNone;
    }

    /** `fixup_mode`: scans the named fields and stops at the first one that holds a value. */
    method FixupMode()
      modifies this
      ensures mode == ModeAfter(old(mode), fieldsSet, notNone)
    {
      var rest := fieldsSet;
      while rest != {}
        invariant rest <= fieldsSet
        invariant mode == old(mode)
        invariant forall item :: item in fieldsSet - rest ==> !(item != "mode" && item in notNone)
        decreases rest
      {
        var item :| item in rest;
        if item != "mode" && item in notNone {
          mode := "custom";
          return;
        }
        rest := rest - {item};
      }
      assert fieldsSet - rest == fieldsSet;
    }
  }

  // ---------------------------------------------------------------------
  // KVM dirty ring

  /** Python's `a & b` on non-negative integers. */
  function BitAnd(a: nat, b: nat): nat
    decreases a
  {
    if a == 0 || b == 0 then 0
    else 2 * BitAnd(a / 2, b / 2) + (if a % 2 == 1 && b % 2 == 1 then 1 else 0)
  }

  ghost predicate IsPowerOfTwo(v: int)
  {
    exists k: nat :: Pow(2, k) == v
  }

  lemma {:induction false} BitAndSelf(a: nat)
    ensures BitAnd(a, a) == a
    decreases a
  {
    if a > 0 {
      BitAndSelf(a / 2);
    }
  }

  lemma PowTwoEven(k: nat)
    requires k >= 1
    ensures Pow(2, k) % 2 == 0 && Pow(2, k) / 2 == Pow(2, k - 1)
  {
  }

  /** `v & (v - 1) == 0` holds for a positive `v` exactly when `v` is a power of two. */
  lemma {:induction false} PowerOfTwoTrick(v: nat)
    requires v > 0
    ensures BitAnd(v, v - 1) == 0 <==> IsPowerOfTwo(v)
    decreases v
  {
    if v == 1 {
      assert Pow(2, 0) == 1;
    } else if v % 2 == 0 {
      var w := v / 2;
      assert (v - 1) / 2 == w - 1 && (v - 1) % 2 == 1 && v % 2 == 0;
      assert BitAnd(v, v - 1) == 2 * BitAnd(w, w - 1);
      PowerOfTwoTrick(w);
      if IsPowerOfTwo(w) {
        var k: nat :| Pow(2, k) == w;
        assert Pow(2, k + 1) == v;
      }
      if IsPowerOfTwo(v) {
        var k: nat :| Pow(2, k) == v;
        if k > 0 {
          PowTwoEven(k);
          assert Pow(2, k - 1) == w;
        }
      }
    } else {
      var w := v / 2;
      assert (v - 1) / 2 == w && (v - 1) % 2 == 0;
      BitAndSelf(w);
      assert BitAnd(v, v - 1) == 2 * w;
      if IsPowerOfTwo(v) {
        var k: nat :| Pow(2, k) == v;
        if k > 0 {
          PowTwoEven(k);
        }
      }
    }
  }

  /** `check_size`, the field validator that runs after the `ge`/`le` constraints. */
  function CheckSize(v: Option<int>): (r: Check)
    ensures r.Pass? <==> v.None? || v.value <= 0 || IsPowerOfTwo(v.value)
    ensures r.Fail? ==> r.error == ValueError
  {
    if v.Some? && v.value > 0 then
      PowerOfTwoTrick(v.value);
      if BitAnd(v.value, v.value - 1) != 0 then Fail(ValueError) else Pass
    else Pass
  }

  /** Validation of the `size` field: `1024 <= size <= 65536`, then `check_size`. */
  function ValidateSize(v: Option<int>): (r: Check)
    ensures r.Pass? <==> v.None? || (1024 <= v.value <= 65536 && IsPowerOfTwo(v.value))
    ensures r.Fail? ==> r.error == ValueError
  {
    if v.Some? && !(1024 <= v.value <= 65536) then Fail(ValueError) else CheckSize(v)
  }

  lemma PowTwoValues()
    ensures Pow(2, 10) == 1024 && Pow(2, 16) == 65536 && Pow(2, 9) == 512 && Pow(2, 17) == 131072
  {
    assert Pow(2, 4) == 16;
    assert Pow(2, 8) == 256;
    assert Pow(2, 9) == 512;
    assert Pow(2, 10) == 1024;
    assert Pow(2, 12) == 4096;
    assert Pow(2, 16) == 65536;
  }

  lemma AcceptedSizeIsPower(v: int)
    requires ValidateSize(Some(v)).Pass?
    ensures exists k: nat :: 10 <= k <= 16 && Pow(2, k) == v
  {
    var k: nat :| Pow(2, k) == v;
    PowTwoValues();
    if k < 9 {
      PowMonotone(2, k, 9);
    } else if k > 17 {
      PowMonotone(2, 17, k);
    }
    assert 10 <= k <= 16;
  }

  lemma PowerSizeAccepted(k: nat)
    requires 10 <= k <= 16
    ensures ValidateSize(Some(Pow(2, k))).Pass?
  {
    var v := Pow(2, k);
    PowTwoValues();
    if k > 10 {
      PowMonotone(2, 10, k);
    }
    if k < 16 {
      PowMonotone(2, k, 16);
    }
    assert 1024 <= v <= 65536;
    assert IsPowerOfTwo(v);
  }

  /** An accepted size is a power of two from 2**10 to 2**16, and every such power is accepted. */
  lemma DirtyRingSizes(v: int)
    ensures ValidateSize(Some(v)).Pass? <==> exists k: nat :: 10 <= k <= 16 && Pow(2, k) == v
  {
    if ValidateSize(Some(v)).Pass? {
      AcceptedSizeIsPower(v);
    }
    if exists k: nat :: 10 <= k <= 16 && Pow(2, k) == v {
      var k: nat :| 10 <= k <= 16 && Pow(2, k) == v;
      PowerSizeAccepted(k);
    }
  }

  // ---------------------------------------------------------------------
  // Capabilities

  /** `check_modify`: every capability state must be `on` or `off`. */
  method CheckModify(m: map<string, string>) returns (r: Check)
    ensures r.Pass? <==> forall k :: k in m ==> m[k] in {"on", "off"}
    ensures r.Fail? ==> r.error == ValueError
  {
    var rest := m.Keys;
    while rest != {}
      invariant rest <= m.Keys
      invariant forall k :: k in m.Keys - rest ==> m[k] in {"on", "off"}
      decreases rest
    {
      var k :| k in rest;
      if m[k] !in {"on", "off"} {
        return Fail(ValueError);
      }
      rest := rest - {k};
    }
    assert m.Keys - rest == m.Keys;
    return Pass;
  }
}
