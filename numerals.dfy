/**
 * Integers as the client writes them (`Number.prototype.toString`) and as the
 * route reads them back (`parseInt` with no radix). `None` stands for `NaN`.
 */
module Numerals {
  import opened Wrappers

  /** The character of decimal digit `d`. */
  function DigitChar(d: nat): char
    requires d < 10
  {
    ('0' as int + d) as char
  }

  /** The decimal digits of `n`, most significant first, without leading zeros. */
  function DecimalDigits(n: nat): string
    decreases n
  {
    if n < 10 then [DigitChar(n)] else DecimalDigits(n / 10) + [DigitChar(n % 10)]
  }

  /** `Number.prototype.toString()` of an integral number. */
  function IntToString(n: int): string {
    if n < 0 then "-" + DecimalDigits(-n) else DecimalDigits(n)
  }

  /** The characters `parseInt` skips before the number: StrWhiteSpaceChar of ECMA-262. */
  predicate IsSpace(c: char) {
    c == '\t' || c == '\n' || c == '\U{000B}' || c == '\U{000C}' || c == '\r' || c == ' '
    || c == '\U{00A0}' || c == '\U{1680}' || ('\U{2000}' <= c <= '\U{200A}')
    || c == '\U{2028}' || c == '\U{2029}' || c == '\U{202F}' || c == '\U{205F}'
    || c == '\U{3000}' || c == '\U{FEFF}'
  }

  /** `s` without its leading white space. */
  function TrimStart(s: string): string
    decreases |s|
  {
    if |s| > 0 && IsSpace(s[0]) then TrimStart(s[1..]) else s
  }

  /** The value of `c` as a digit in base `radix` (10 or 16), if it is one. */
  function DigitValue(c: char, radix: nat): Option<nat> {
    if '0' <= c <= '9' then Some(c as int - '0' as int)
    else if radix == 16 && 'a' <= c <= 'f' then Some(c as int - 'a' as int + 10)
    else if radix == 16 && 'A' <= c <= 'F' then Some(c as int - 'A' as int + 10)
    else None
  }

  /** The longest prefix of `s` made of digits in base `radix`. */
  function DigitRun(s: string, radix: nat): string
    decreases |s|
  {
    if |s| > 0 && DigitValue(s[0], radix).Some? then [s[0]] + DigitRun(s[1..], radix) else []
  }

  predicate AllDigits(s: string, radix: nat) {
    forall i | 0 <= i < |s| :: DigitValue(s[i], radix).Some?
  }

  /** The number that the digit string `z` denotes in base `radix`. */
  function DigitsValue(z: string, radix: nat): nat
    requires AllDigits(z, radix)
    decreases |z|
  {
    if z == [] then 0
    else DigitsValue(z[..|z| - 1], radix) * radix + DigitValue(z[|z| - 1], radix).value
  }

  /**
   * `parseInt(s)`: skip white space, read an optional sign, a `0x`/`0X`
   * prefix switching to base 16, then the longest run of digits; no digit
   * at all gives `NaN`. `-0` is 0 here.
   */
  function ParseInt(s: string): Option<int> {
    var t := TrimStart(s);
    var negative := |t| > 0 && t[0] == '-';
    var u := if |t| > 0 && (t[0] == '-' || t[0] == '+') then t[1..] else t;
    var hex := |u| >= 2 && u[0] == '0' && (u[1] == 'x' || u[1] == 'X');
    var radix := if hex then 16 else 10;
    var w := if hex then u[2..] else u;
    var z := DigitRun(w, radix);
    DigitRunAllDigits(w, radix);
    if z == [] then None
    else
      var v: int := DigitsValue(z, radix);
      Some(if negative then -v else v)
  }

  lemma {:induction false} DigitRunAllDigits(s: string, radix: nat)
    ensures AllDigits(DigitRun(s, radix), radix)
    decreases |s|
  {
    if |s| > 0 && DigitValue(s[0], radix).Some? {
      DigitRunAllDigits(s[1..], radix);
    }
  }

  /** Decimal digits are digits, and there is at least one. */
  lemma {:induction false} DecimalDigitsShape(n: nat)
    ensures |DecimalDigits(n)| > 0
    ensures AllDigits(DecimalDigits(n), 10)
    ensures DecimalDigits(n)[0] == '0' ==> n == 0
    decreases n
  {
    if n >= 10 {
      DecimalDigitsShape(n / 10);
    }
  }

  /** Reading back the decimal digits of `n` gives `n`. */
  lemma {:induction false} DecimalDigitsValue(n: nat)
    ensures AllDigits(DecimalDigits(n), 10)
    ensures DigitsValue(DecimalDigits(n), 10) == n
    decreases n
  {
    DecimalDigitsShape(n);
    if n >= 10 {
      var d := DecimalDigits(n);
      DecimalDigitsShape(n / 10);
      DecimalDigitsValue(n / 10);
      assert d[..|d| - 1] == DecimalDigits(n / 10);
    }
  }

  /** A run that is all digits is read whole. */
  lemma {:induction false} DigitRunOfDigits(s: string, radix: nat)
    requires AllDigits(s, radix)
    ensures DigitRun(s, radix) == s
    decreases |s|
  {
    if |s| > 0 {
      DigitRunOfDigits(s[1..], radix);
    }
  }

  /** `parseInt(n.toString()) === n` for every integer `n`. */
  lemma ParseIntOfIntToString(n: int)
    ensures ParseInt(IntToString(n)) == Some(n)
  {
    var m: nat := if n < 0 then -n else n;
    var d := DecimalDigits(m);
    DecimalDigitsShape(m);
    DecimalDigitsValue(m);
    DigitRunOfDigits(d, 10);
    var s := IntToString(n);
    assert TrimStart(s) == s;
    if n < 0 {
      assert s[1..] == d;
    }
  }

  /** The string forms of integers are never empty. */
  lemma IntToStringNonEmpty(n: int)
    ensures IntToString(n) != ""
  {
    DecimalDigitsShape(if n < 0 then -n else n);
  }

  /** `parseInt` skips leading blanks and stops at the first non-digit. */
  lemma ParseIntStopsAtNonDigit()
    ensures ParseInt(" 42px") == Some(42)
  {
    assert !IsSpace('4');
    assert TrimStart(" 42px") == "42px" by {
      assert " 42px"[1..] == "42px";
    }
    assert DigitRun("px", 10) == [];
    assert DigitRun("2px", 10) == "2" by {
      assert "2px"[1..] == "px";
    }
    assert DigitRun("42px", 10) == "42" by {
      assert "42px"[1..] == "2px";
    }
    assert DigitsValue("42", 10) == 42 by {
      assert "42"[..1] == "4";
    }
  }

  /** A `0x` prefix switches `parseInt` to hexadecimal. */
  lemma ParseIntHexadecimal()
    ensures ParseInt("0x1F") == Some(31)
  {
    assert !IsSpace('0');
    assert TrimStart("0x1F") == "0x1F";
    assert "0x1F"[2..] == "1F";
    assert DigitRun("F", 16) == "F" by {
      assert "F"[1..] == [];
    }
    assert DigitRun("1F", 16) == "1F" by {
      assert "1F"[1..] == "F";
    }
    assert DigitsValue("1F", 16) == 31 by {
      assert "1F"[..1] == "1";
    }
  }

  /** Without a digit `parseInt` gives `NaN`. */
  lemma ParseIntNaN()
    ensures ParseInt("abc") == None
    ensures ParseInt("") == None
    ensures ParseInt("-") == None
  {
    assert !IsSpace('a') && !IsSpace('-');
    assert TrimStart("abc") == "abc";
    assert TrimStart("-") == "-";
  }
}
