/**
 * Booleans that libvirt's XML spells with fixed words
 * (fvirt/libvirt/models/_types.py): `YesNo` uses `yes`/`no`, `OnOff` uses
 * `on`/`off`, and the base class, whose words are empty, cannot be built.
 */
module CustomBool {
  import opened Wrappers

  /** The three classes: the abstract base and its two concrete subclasses. */
  datatype Kind = Base | YesNo | OnOff

  function TrueStr(k: Kind): string
  {
    match k
    case Base => ""
    case YesNo => "yes"
    case OnOff => "on"
  }

  function FalseStr(k: Kind): string
  {
    match k
    case Base => ""
    case YesNo => "no"
    case OnOff => "off"
  }

  /**
   * A Python value handed to the constructor: a string, a bool, or any other
   * object, which only matters through its truth value.
   */
  datatype PyValue = PyText(s: string) | PyBool(b: bool) | PyObject(truthy: bool)

  /** `bool(value)`. */
  function Truth(v: PyValue): bool
  {
    match v
    case PyText(s) => s != ""
    case PyBool(b) => b
    case PyObject(t) => t
  }

  /** An instance: its class and the value fixed by `__init__`. */
  datatype Value = Value(kind: Kind, value: bool)

  /** `T(value)`: the class's words first, then plain truthiness. */
  function Make(k: Kind, v: PyValue): (r: Result<Value>)
    ensures r.Err? <==> TrueStr(k) == "" || FalseStr(k) == ""
    ensures r.Err? ==> r.error == NotImplementedError
    ensures r.Ok? ==> r.value.kind == k
    ensures r.Ok? ==> r.value.value == (if v == PyText(TrueStr(k)) then true
                                        else if v == PyText(FalseStr(k)) then false
                                        else Truth(v))
  {
    if TrueStr(k) == "" || FalseStr(k) == "" then Err(NotImplementedError)
    else if v == PyText(TrueStr(k)) then Ok(Value(k, true))
    else if v == PyText(FalseStr(k)) then Ok(Value(k, false))
    else Ok(Value(k, Truth(v)))
  }

  /** `bool(x)`. */
  function ToBool(x: Value): bool { x.value }

  /** `str(x)`. */
  function Str(x: Value): string
  {
    if x.value then TrueStr(x.kind) else FalseStr(x.kind)
  }

  /** Python's `hash` of a bool: 1 for True, 0 for False. */
  function HashBool(b: bool): int { if b then 1 else 0 }

  /** `hash(x)` is the hash of its truth value. */
  function Hash(x: Value): (h: int)
    ensures h == HashBool(ToBool(x))
  {
    HashBool(x.value)
  }

  /** The base class cannot be instantiated; both subclasses can, from anything. */
  lemma OnlySubclasses(v: PyValue)
    ensures Make(Base, v) == Err(NotImplementedError)
    ensures Make(YesNo, v).Ok? && Make(OnOff, v).Ok?
  {
  }

  /** The class's words read back as what they mean and print as themselves. */
  lemma WordsRoundTrip(k: Kind)
    requires k != Base
    ensures Make(k, PyText(TrueStr(k))) == Ok(Value(k, true))
    ensures Make(k, PyText(FalseStr(k))) == Ok(Value(k, false))
    ensures Str(Make(k, PyText(TrueStr(k))).value) == TrueStr(k)
    ensures Str(Make(k, PyText(FalseStr(k))).value) == FalseStr(k)
  {
  }

  /** A bool prints as the true word exactly when it is true, and printing loses nothing. */
  lemma StrRoundTrip(k: Kind, v: PyValue)
    requires k != Base
    ensures var x := Make(k, v).value;
      && (Str(x) == TrueStr(k) <==> ToBool(x))
      && Make(k, PyText(Str(x))) == Ok(x)
  {
    assert TrueStr(k) != FalseStr(k);
  }

  /** From a Python bool the value is that bool, for both subclasses. */
  lemma FromBool(k: Kind, b: bool)
    requires k != Base
    ensures Make(k, PyBool(b)) == Ok(Value(k, b))
    ensures Str(Make(k, PyBool(b)).value) == (if b then TrueStr(k) else FalseStr(k))
  {
  }

  /**
   * Text other than the class's two words falls back to truthiness: the other
   * class's false word, being non-empty, reads as true.
   */
  lemma ForeignWord()
    ensures Make(YesNo, PyText("off")) == Ok(Value(YesNo, true))
    ensures Make(OnOff, PyText("no")) == Ok(Value(OnOff, true))
    ensures Make(YesNo, PyText("")) == Ok(Value(YesNo, false))
  {
  }
}
