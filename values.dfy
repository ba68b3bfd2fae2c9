/** JSON scalars as the lookup tool's Python code sees them after decoding,
    together with the parts of Python's `str()`, truthiness, `str.isdigit()`
    and `int()` that the matching logic relies on. */
module Values {

  datatype Option<+T> = None | Some(value: T)

  /** A decoded JSON value. A missing key (`dict.get` without a default)
      reads as `Null`, Python's None. */
  datatype Value =
    | Int(n: int)                        // a JSON integer (Python int)
    | Bool(b: bool)                      // true / false (Python bool, a subclass of int)
    | Str(s: string)
    | Null
    | Other(text: string, truthy: bool)  // a float, list or object: its str() text and truth value

  /** Python truthiness. */
  predicate Truthy(v: Value)
  {
    match v
    case Int(n) => n != 0
    case Bool(b) => b
    case Str(s) => s != []
    case Null => false
    case Other(_, t) => t
  }

  /** Python `str(v)`. */
  function Text(v: Value): string
  {
    match v
    case Int(n) => IntToString(n)
    case Bool(b) => if b then "True" else "False"
    case Str(s) => s
    case Null => "None"
    case Other(text, _) => text
  }

  predicate IsDigitChar(c: char)
  {
    '0' <= c <= '9'
  }

  predicate AllDigits(s: string)
  {
    forall i :: 0 <= i < |s| ==> IsDigitChar(s[i])
  }

  /** `str.isdigit()`, restricted to ASCII digits: true of a non-empty digit string. */
  predicate IsDigits(s: string)
  {
    |s| > 0 && AllDigits(s)
  }

  /** `int(s)` for a string of decimal digits (leading zeros allowed). */
  function DigitsValue(s: string): nat
    requires AllDigits(s)
  {
    if s == [] then 0
    else 10 * DigitsValue(s[..|s| - 1]) + (s[|s| - 1] as int - '0' as int)
  }

  function DigitChar(d: nat): (c: char)
    requires d < 10
    ensures IsDigitChar(c) && c as int - '0' as int == d
  {
    ('0' as int + d) as char
  }

  /** Decimal text of a natural number, without leading zeros. */
  function NatToString(n: nat): (s: string)
    ensures IsDigits(s)
    ensures |s| > 1 ==> s[0] != '0'
  {
    if n < 10 then [DigitChar(n)]
    else NatToString(n / 10) + [DigitChar(n % 10)]
  }

  /** `str(n)` for a Python int. */
  function IntToString(n: int): string
  {
    if n < 0 then "-" + NatToString(-n) else NatToString(n)
  }

  /** `int(str(n)) == n`: reading the decimal text back gives the number. */
  lemma {:induction false} NatToStringRoundTrip(n: nat)
    ensures DigitsValue(NatToString(n)) == n
  {
    var s := NatToString(n);
    if n >= 10 {
      NatToStringRoundTrip(n / 10);
      assert s[..|s| - 1] == NatToString(n / 10);
    }
  }

  /** `str(n)` is a digit string exactly for the non-negative ints. */
  lemma IntToStringDigits(n: int)
    ensures IsDigits(IntToString(n)) <==> n >= 0
  {
    if n < 0 {
      assert !IsDigitChar(IntToString(n)[0]);
    }
  }

  /** Two ints have the same `str()` text only when they are equal. */
  lemma IntToStringInjective(a: int, b: int)
    ensures IntToString(a) == IntToString(b) <==> a == b
  {
    if IntToString(a) == IntToString(b) {
      IntToStringDigits(a);
      IntToStringDigits(b);
      if a >= 0 && b >= 0 {
        NatToStringRoundTrip(a);
        NatToStringRoundTrip(b);
      } else if a < 0 && b < 0 {
        assert NatToString(-a) == IntToString(a)[1..];
        assert NatToString(-b) == IntToString(b)[1..];
        NatToStringRoundTrip(-a);
        NatToStringRoundTrip(-b);
      }
    }
  }
}
