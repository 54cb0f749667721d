/**
 * Python values as they flow through the StudentVUE sensor platform: the
 * scalar attributes of a course record, Python's `str()` of them (used to
 * build slot names with an f-string), and the KeyError that a missing
 * dictionary key raises.
 */
module Values {

  /** An attribute value of a course record or of the cached snapshot. */
  datatype Value = Int(i: int) | Text(s: string) | Null

  /** Python's KeyError, carrying the key that was looked up. */
  datatype KeyError = KeyError(key: string)

  /** The outcome of an operation that may raise a KeyError. */
  datatype Result<T> = Ok(value: T) | Err(error: KeyError)

  /** The outcome of a procedure that may raise a KeyError and returns nothing. */
  datatype Outcome = Pass | Fail(error: KeyError)

  datatype Option<T> = None | Some(value: T)

  predicate IsDigit(c: char) {
    '0' <= c <= '9'
  }

  predicate AllDigits(s: string) {
    forall k :: 0 <= k < |s| ==> IsDigit(s[k])
  }

  function DigitChar(d: nat): (c: char)
    requires d < 10
    ensures IsDigit(c)
  {
    (('0' as int) + d) as char
  }

  function DigitValue(c: char): (d: nat)
    requires IsDigit(c)
    ensures d < 10 && DigitChar(d) == c
  {
    (c as int) - ('0' as int)
  }

  /** The decimal digits of `n`, most significant first, as `str(n)` prints them. */
  function NatToDecimal(n: nat): (s: string)
    ensures |s| > 0 && AllDigits(s)
    ensures n > 0 || |s| > 1 ==> s[0] != '0'
    decreases n
  {
    if n < 10 then [DigitChar(n)] else NatToDecimal(n / 10) + [DigitChar(n % 10)]
  }

  /** The number a string of decimal digits denotes. */
  function ParseDecimal(s: string): nat
    requires AllDigits(s)
  {
    if s == [] then 0 else 10 * ParseDecimal(s[..|s| - 1]) + DigitValue(s[|s| - 1])
  }

  /** Parsing undoes printing: the decimal form of a natural number determines it. */
  lemma {:induction false} ParseNatToDecimal(n: nat)
    ensures ParseDecimal(NatToDecimal(n)) == n
    decreases n
  {
    if n >= 10 {
      var s := NatToDecimal(n);
      assert s[..|s| - 1] == NatToDecimal(n / 10);
      ParseNatToDecimal(n / 10);
    }
  }

  /** Python's `str()` of an int: an optional minus sign, then the decimal digits. */
  function IntToDecimal(i: int): (s: string)
    ensures |s| > 0 && (s[0] == '-' <==> i < 0)
  {
    if i < 0 then "-" + NatToDecimal(-i) else NatToDecimal(i)
  }

  /**
   * `str()` of an int is canonical: after an optional minus sign come the
   * decimal digits of the magnitude, with no leading zero.
   */
  lemma IntToDecimalDigits(i: int)
    ensures var s := IntToDecimal(i);
      && (i >= 0 ==> AllDigits(s) && ParseDecimal(s) == i && (|s| > 1 ==> s[0] != '0'))
      && (i < 0 ==> |s| > 1 && AllDigits(s[1..]) && ParseDecimal(s[1..]) == -i && (|s| > 2 ==> s[1] != '0'))
  {
    if i < 0 {
      ParseNatToDecimal(-i);
      assert IntToDecimal(i)[1..] == NatToDecimal(-i);
    } else {
      ParseNatToDecimal(i);
    }
  }

  /** Distinct integers print differently. */
  lemma IntToDecimalInjective(a: int, b: int)
    requires IntToDecimal(a) == IntToDecimal(b)
    ensures a == b
  {
    IntToDecimalDigits(a);
    IntToDecimalDigits(b);
    if a < 0 && b < 0 {
      assert IntToDecimal(a)[1..] == IntToDecimal(b)[1..];
    }
  }

  /**
   * Python's `str()` of a value, as an f-string interpolates it: the decimal
   * form of an int, a text unchanged, and `None` for None.
   */
  function Str(v: Value): (r: string)
    ensures v.Int? ==> |r| > 0 && (r[0] == '-' <==> v.i < 0)
    ensures v.Text? ==> r == v.s
    ensures v.Null? ==> r == "None"
  {
    match v
    case Int(i) => IntToDecimal(i)
    case Text(s) => s
    case Null => "None"
  }
}
