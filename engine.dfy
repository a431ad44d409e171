/**
 * The parts of the editor framework that the file-upload plugin touches,
 * reduced to values: JavaScript attribute values, model attribute maps,
 * view nodes, dropped or picked files, and the number-to-text conversion
 * that JavaScript applies when a number is concatenated with a string.
 */
module Engine {

  datatype Option<+T> = None | Some(value: T)

  /** A JavaScript value as it is stored in a model or view attribute. */
  datatype Value = Undefined | Str(s: string) | Bool(b: bool) | Num(n: int)

  /** The attributes of a model element: `getAttribute` on a missing key yields `undefined`. */
  type Attributes = map<string, Value>

  function GetAttribute(attrs: Attributes, key: string): (v: Value)
    ensures key !in attrs ==> v == Undefined
    ensures key in attrs ==> v == attrs[key]
  {
    if key in attrs then attrs[key] else Undefined
  }

  /** JavaScript truthiness (`!!v`); NaN is not among the modelled numbers. */
  predicate Truthy(v: Value) {
    match v
    case Undefined => false
    case Str(s) => s != ""
    case Bool(b) => b
    case Num(n) => n != 0
  }

  /** A file handed over by the file dialog, a drop or a paste. */
  datatype File = File(name: string)

  /**
   * A node of the view tree: a text node whose data is whatever value was
   * handed to `createText`, or an element with a name, a class set, the other
   * attributes (stored as strings) and ordered children.
   */
  datatype ViewNode =
    | Text(data: Value)
    | Element(name: string, classes: set<string>, attrs: map<string, string>, children: seq<ViewNode>)

  // ---------------------------------------------------------------------
  // Decimal text of numbers, as produced by `String(n)` or `n + '%'`.
  // ---------------------------------------------------------------------

  predicate IsDigit(c: char) {
    '0' <= c <= '9'
  }

  predicate AllDigits(s: string) {
    forall i :: 0 <= i < |s| ==> IsDigit(s[i])
  }

  function DigitChar(d: nat): (c: char)
    requires d < 10
    ensures IsDigit(c)
  {
    (('0' as int) + d) as char
  }

  function DigitValue(c: char): (d: nat)
    requires IsDigit(c)
    ensures d < 10
  {
    (c as int) - ('0' as int)
  }

  /** The decimal digits of `n`, most significant first, without leading zeros. */
  function NatToString(n: nat): (s: string)
    ensures |s| > 0 && AllDigits(s)
    ensures (|s| > 1) ==> s[0] != '0'
    decreases n
  {
    if n < 10 then [DigitChar(n)] else NatToString(n / 10) + [DigitChar(n % 10)]
  }

  /** Reads a string of decimal digits back as a number. */
  function ParseNat(s: string): nat
    requires AllDigits(s)
  {
    if s == [] then 0 else 10 * ParseNat(s[..|s| - 1]) + DigitValue(s[|s| - 1])
  }

  lemma {:induction false} ParseNatToString(n: nat)
    ensures ParseNat(NatToString(n)) == n
    decreases n
  {
    var s := NatToString(n);
    if n >= 10 {
      ParseNatToString(n / 10);
      assert s[..|s| - 1] == NatToString(n / 10);
    }
  }

  /** Decimal text is injective: different numbers never print alike. */
  lemma NatToStringInjective(m: nat, n: nat)
    requires NatToString(m) == NatToString(n)
    ensures m == n
  {
    ParseNatToString(m);
    ParseNatToString(n);
  }

  /** `String(v)`, the conversion a view element applies to every attribute value it stores. */
  function ToJsString(v: Value): (s: string)
    ensures v.Str? ==> s == v.s
    ensures v.Num? && v.n >= 0 ==> AllDigits(s) && ParseNat(s) == v.n
  {
    match v
    case Undefined => "undefined"
    case Str(s) => s
    case Bool(b) => if b then "true" else "false"
    case Num(n) =>
      ParseNatToString(if n >= 0 then n else -n);
      if n >= 0 then NatToString(n) else "-" + NatToString(-n)
  }
}
