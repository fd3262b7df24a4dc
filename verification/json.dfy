/**
 * The JSON values that `json.load` hands to the record decoders, and the
 * Python coercions (`str`, `float`, `int`, `list`) the decoders apply to them.
 */
module Json {
  import opened Wrappers

  /** A decoded JSON document: Python's None, bool, int, float, str, list and dict. */
  datatype Value =
    | Null
    | Bool(b: bool)
    | Int(i: int)
    | Float(f: real)
    | Str(s: string)
    | Array(items: seq<Value>)
    | Object(fields: map<string, Value>)

  // ---------------------------------------------------------------------------
  // Decimal digits
  // ---------------------------------------------------------------------------

  predicate IsDigit(c: char) { '0' <= c <= '9' }

  function DigitValue(c: char): (d: nat)
    requires IsDigit(c)
    ensures d <= 9
  {
    c as int - '0' as int
  }

  function DigitChar(d: nat): (c: char)
    requires d <= 9
    ensures IsDigit(c) && DigitValue(c) == d
  {
    ('0' as int + d) as char
  }

  predicate AllDigits(s: string) { forall i :: 0 <= i < |s| ==> IsDigit(s[i]) }

  /** The number a string of decimal digits denotes, most significant first. */
  function DigitsValue(s: string): (n: nat)
    requires AllDigits(s)
  {
    if s == [] then 0 else 10 * DigitsValue(s[..|s| - 1]) + DigitValue(s[|s| - 1])
  }

  /** The decimal text of a natural number, without leading zeros. */
  function NatText(n: nat): (s: string)
    ensures |s| > 0 && AllDigits(s)
  {
    if n < 10 then [DigitChar(n)] else NatText(n / 10) + [DigitChar(n % 10)]
  }

  /** The decimal text `str(i)` gives for a Python int. */
  function IntText(i: int): (s: string)
  {
    if i < 0 then "-" + NatText(-i) else NatText(i)
  }

  lemma {:induction false} NatTextValue(n: nat)
    ensures DigitsValue(NatText(n)) == n
  {
    if n >= 10 {
      NatTextValue(n / 10);
      var s := NatText(n);
      assert s[..|s| - 1] == NatText(n / 10);
    }
  }

  function Pow10(k: nat): (p: nat)
    ensures p >= 1
  {
    if k == 0 then 1 else 10 * Pow10(k - 1)
  }

  // ---------------------------------------------------------------------------
  // Numeric text, as `int(...)` and `float(...)` read it
  // ---------------------------------------------------------------------------

  /** `int(s)` for a string: an optional sign followed by at least one digit. */
  function ParseInt(s: string): (r: Option<int>)
    ensures r.Some? ==> |s| > 0
  {
    if |s| > 0 && (s[0] == '-' || s[0] == '+') then
      var body := s[1..];
      if |body| > 0 && AllDigits(body) then
        var n: int := DigitsValue(body);
        Some(if s[0] == '-' then -n else n)
      else None
    else if |s| > 0 && AllDigits(s) then Some(DigitsValue(s))
    else None
  }

  /** The index of the first '.' in `s`, or `|s|` when there is none. */
  function DotIndex(s: string): (k: nat)
    ensures k <= |s|
    ensures k < |s| ==> s[k] == '.'
    ensures forall i :: 0 <= i < k ==> s[i] != '.'
  {
    if s == [] then 0
    else if s[0] == '.' then 0
    else 1 + DotIndex(s[1..])
  }

  /** An unsigned decimal: digits, optionally a '.' and more digits, at least one digit in all. */
  function ParseUnsignedReal(s: string): (r: Option<real>)
  {
    var k := DotIndex(s);
    var whole, fraction := s[..k], if k < |s| then s[k + 1..] else [];
    if AllDigits(whole) && AllDigits(fraction) && |whole| + |fraction| > 0 then
      Some(DigitsValue(whole) as real + DigitsValue(fraction) as real / Pow10(|fraction|) as real)
    else None
  }

  /** `float(s)` for a string: an optional sign followed by an unsigned decimal. */
  function ParseReal(s: string): (r: Option<real>)
  {
    if |s| > 0 && (s[0] == '-' || s[0] == '+') then
      match ParseUnsignedReal(s[1..])
      case None => None
      case Some(x) => Some(if s[0] == '-' then -x else x)
    else ParseUnsignedReal(s)
  }

  /** Truncation toward zero, as `int(f)` does for a float. */
  function Truncate(f: real): (n: int)
    ensures 0.0 <= f ==> n as real <= f < n as real + 1.0
    ensures f < 0.0 ==> n as real - 1.0 < f <= n as real
  {
    if f >= 0.0 then f.Floor else -((-f).Floor)
  }

  // ---------------------------------------------------------------------------
  // The coercions
  // ---------------------------------------------------------------------------

  /**
   * `str(v)`. Strings are kept, None, booleans and ints get Python's text;
   * floats, lists and dicts get a fixed marker in place of Python's repr.
   */
  function AsText(v: Value): (s: string)
    ensures v.Str? ==> s == v.s
  {
    match v
    case Null => "None"
    case Bool(b) => if b then "True" else "False"
    case Int(i) => IntText(i)
    case Float(_) => "<float>"
    case Str(s) => s
    case Array(_) => "<list>"
    case Object(_) => "<dict>"
  }

  /** `float(v)`: None where Python raises ValueError or TypeError. */
  function AsFloat(v: Value): (r: Option<real>)
    ensures v.Float? ==> r == Some(v.f)
    ensures v.Int? ==> r == Some(v.i as real)
    ensures v.Null? || v.Array? || v.Object? ==> r.None?
  {
    match v
    case Bool(b) => Some(if b then 1.0 else 0.0)
    case Int(i) => Some(i as real)
    case Float(f) => Some(f)
    case Str(s) => ParseReal(s)
    case _ => None
  }

  /** `int(v)`: None where Python raises ValueError or TypeError. */
  function AsInt(v: Value): (r: Option<int>)
    ensures v.Int? ==> r == Some(v.i)
    ensures v.Float? ==> r == Some(Truncate(v.f))
    ensures v.Null? || v.Array? || v.Object? ==> r.None?
  {
    match v
    case Bool(b) => Some(if b then 1 else 0)
    case Int(i) => Some(i)
    case Float(f) => Some(Truncate(f))
    case Str(s) => ParseInt(s)
    case _ => None
  }

  /**
   * `list(v)`: a list is copied, a string becomes its one-character strings,
   * scalars raise TypeError. A dict is refused here (see README).
   */
  function AsList(v: Value): (r: Option<seq<Value>>)
    ensures v.Array? ==> r == Some(v.items)
    ensures v.Str? ==> r.Some? && |r.value| == |v.s|
    ensures v.Str? ==> forall i :: 0 <= i < |v.s| ==> r.value[i] == Str([v.s[i]])
    ensures !v.Array? && !v.Str? ==> r.None?
  {
    match v
    case Array(items) => Some(items)
    case Str(s) => Some(seq(|s|, i requires 0 <= i < |s| => Str([s[i]])))
    case _ => None
  }

  /** `int(str(i))` gives back `i`. */
  lemma IntTextRoundTrip(i: int)
    ensures AsInt(Str(AsText(Int(i)))) == Some(i)
  {
    if i < 0 {
      NatTextValue(-i);
      assert ("-" + NatText(-i))[1..] == NatText(-i);
    } else {
      NatTextValue(i);
      assert NatText(i)[0] != '-' && NatText(i)[0] != '+';
    }
  }
}
