/**
 * Configuration values as the connection reads them: nested dictionaries of
 * strings, integers and booleans, with Python's truthiness and `int()`.
 */
module Config {
  import opened Wrappers
  import opened Text

  datatype Value =
    | Null
    | Flag(b: bool)
    | Int(i: int)
    | Text(s: string)
    | Section(fields: map<string, Value>)

  /** `dict.get(key, default)`. */
  function Get(m: map<string, Value>, key: string, default: Value): (r: Value)
    ensures key in m ==> r == m[key]
    ensures key !in m ==> r == default
  {
    if key in m then m[key] else default
  }

  /** `m.get(key, None) is not None`: the key is there and not set to null. */
  predicate Present(m: map<string, Value>, key: string) {
    key in m && m[key] != Null
  }

  /** Python's `bool(v)`. */
  function Truthy(v: Value): (r: bool)
    ensures v.Null? ==> !r
    ensures v.Text? ==> (r <==> v.s != [])
    ensures v.Int? ==> (r <==> v.i != 0)
    ensures v.Flag? ==> r == v.b
    ensures v.Section? ==> (r <==> v.fields != map[])
  {
    match v
    case Null => false
    case Flag(b) => b
    case Int(i) => i != 0
    case Text(s) => s != []
    case Section(fields) => fields != map[]
  }

  predicate IsAsciiDigit(c: char) {
    '0' <= c <= '9'
  }

  predicate AllDigits(s: string) {
    forall k :: 0 <= k < |s| ==> IsAsciiDigit(s[k])
  }

  /** The value of a string of ASCII digits, most significant first. */
  function DigitsValue(s: string): nat
    requires AllDigits(s)
  {
    if s == [] then 0
    else
      assert IsAsciiDigit(s[|s| - 1]);
      DigitsValue(s[..|s| - 1]) * 10 + (s[|s| - 1] as int - '0' as int)
  }

  /** The decimal numeral of `n`, without leading zeros. */
  function Numeral(n: nat): (s: string)
    ensures s != [] && AllDigits(s)
  {
    var d := ['0' + (n % 10) as char];
    if n < 10 then d else Numeral(n / 10) + d
  }

  /** Reading a numeral back gives the number. */
  lemma {:induction false} NumeralRoundTrip(n: nat)
    ensures DigitsValue(Numeral(n)) == n
  {
    var s := Numeral(n);
    if n >= 10 {
      NumeralRoundTrip(n / 10);
      assert s[..|s| - 1] == Numeral(n / 10);
    }
  }

  /** `int(s)` for a string: an optional sign and ASCII digits, with surrounding whitespace. */
  function ParseInt(s: string): Option<int> {
    var t := Strip(s);
    var signed := t != [] && t[0] in {'+', '-'};
    var negative := signed && t[0] == '-';
    var digits := if signed then t[1..] else t;
    if digits != [] && AllDigits(digits) then
      Some(if negative then -(DigitsValue(digits) as int) else DigitsValue(digits))
    else None
  }

  /** `int(v)`: `None` stands for the exception Python raises. */
  function AsInt(v: Value): (r: Option<int>)
    ensures v.Int? ==> r == Some(v.i)
    ensures v.Flag? ==> r == Some(if v.b then 1 else 0)
    ensures v.Null? || v.Section? ==> r == None
  {
    match v
    case Int(i) => Some(i)
    case Flag(b) => Some(if b then 1 else 0)
    case Text(s) => ParseInt(s)
    case _ => None
  }

  /** A number written in decimal and read back with `int()` is the number. */
  lemma IntOfNumeral(n: nat)
    ensures AsInt(Text(Numeral(n))) == Some(n)
  {
    var s := Numeral(n);
    NumeralRoundTrip(n);
    assert IsAsciiDigit(s[0]) && IsAsciiDigit(s[|s| - 1]);
    StripKeepsTrimmed(s);
  }

  /** The same with a minus sign in front reads back as the negated number. */
  lemma IntOfNegativeNumeral(n: nat)
    ensures AsInt(Text(['-'] + Numeral(n))) == Some(-(n as int))
  {
    var s := Numeral(n);
    NumeralRoundTrip(n);
    var m := ['-'] + s;
    assert m[1..] == s && m[|m| - 1] == s[|s| - 1];
    StripKeepsTrimmed(m);
  }
}
