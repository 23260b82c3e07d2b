/**
  The integer conversion the lead form applies to its budget field:
  `parseInt(text) || 0`. `parseInt` without a radix skips leading white
  space, takes one optional sign, switches to base 16 after a `0x` or `0X`
  prefix, and reads the longest run of digits that follows; with no digit
  at all it yields NaN, which `|| 0` (like a zero) turns into 0.
*/
module JsNumber {
  import Text

  /** What `parseInt` returns, restricted to the values it can produce here. */
  datatype Parsed = NaN | Int(value: int)

  /** The radixes `parseInt` chooses between when none is given. */
  type Radix = r: int | r == 10 || r == 16 witness 10

  predicate IsDigitIn(c: char, radix: Radix)
  {
    ('0' <= c <= '9') || (radix == 16 && (('a' <= c <= 'f') || ('A' <= c <= 'F')))
  }

  function DigitValue(c: char, radix: Radix): (d: nat)
    requires IsDigitIn(c, radix)
    ensures d < radix
  {
    if '0' <= c <= '9' then c as int - '0' as int
    else if 'a' <= c <= 'f' then c as int - 'a' as int + 10
    else c as int - 'A' as int + 10
  }

  /** The value of a run of digits, most significant first. */
  function DigitsValue(ds: string, radix: Radix): nat
    requires forall i :: 0 <= i < |ds| ==> IsDigitIn(ds[i], radix)
    decreases |ds|
  {
    if ds == [] then 0
    else DigitsValue(ds[..|ds| - 1], radix) * radix + DigitValue(ds[|ds| - 1], radix)
  }

  /** The length of the longest run of digits at the start of s. */
  function DigitRun(s: string, radix: Radix): (n: nat)
    ensures n <= |s|
    ensures forall i :: 0 <= i < n ==> IsDigitIn(s[i], radix)
    ensures n < |s| ==> !IsDigitIn(s[n], radix)
  {
    if s != [] && IsDigitIn(s[0], radix) then 1 + DigitRun(s[1..], radix) else 0
  }

  /** The unsigned part of `parseInt`: an optional `0x`/`0X` prefix, then the longest run of digits. */
  function Magnitude(u: string): (r: Parsed)
    ensures r.Int? ==> r.value >= 0
  {
    var hex := |u| >= 2 && u[0] == '0' && (u[1] == 'x' || u[1] == 'X');
    var radix: Radix := if hex then 16 else 10;
    var w := if hex then u[2..] else u;
    var n := DigitRun(w, radix);
    if n == 0 then NaN else Int(DigitsValue(w[..n], radix))
  }

  /** The text after one optional leading sign. */
  function Unsigned(t: string): (u: string)
    ensures u == t || (t != [] && u == t[1..])
  {
    if t != [] && (t[0] == '-' || t[0] == '+') then t[1..] else t
  }

  /** `parseInt(s)` with no radix argument. */
  function ParseInt(s: string): Parsed
  {
    var t := Text.TrimStart(s);
    match Magnitude(Unsigned(t))
    case NaN => NaN
    case Int(v) => Int(if t != [] && t[0] == '-' then -v else v)
  }

  /** `parseInt(s) || 0`: NaN (and zero) become 0. */
  function ParseIntOrZero(s: string): int
  {
    match ParseInt(s)
    case NaN => 0
    case Int(v) => v
  }

  /**
    Blank text has no reading; a negative reading needs a minus sign as the
    first character after the leading white space; `|| 0` turns only NaN
    (and zero) into 0, so a budget is negative only when typed with a minus.
  */
  lemma ParseIntSign(s: string)
    ensures Text.TrimStart(s) == [] ==> ParseInt(s) == NaN
    ensures ParseInt(s).Int? && ParseInt(s).value < 0 ==> Text.TrimStart(s) != [] && Text.TrimStart(s)[0] == '-'
    ensures ParseInt(s) == NaN ==> ParseIntOrZero(s) == 0
    ensures ParseIntOrZero(s) != 0 ==> ParseInt(s) == Int(ParseIntOrZero(s))
    ensures ParseIntOrZero(s) < 0 ==> Text.TrimStart(s) != [] && Text.TrimStart(s)[0] == '-'
  {
  }

  /** The decimal digit for d. */
  function DigitChar(d: nat): (c: char)
    requires d < 10
    ensures IsDigitIn(c, 10) && DigitValue(c, 10) == d
  {
    (d + '0' as int) as char
  }

  /** `String(n)` for a non-negative integer: its shortest decimal numeral. */
  function Decimal(n: nat): (s: string)
    ensures s != []
    ensures forall i :: 0 <= i < |s| ==> IsDigitIn(s[i], 10)
    ensures |s| >= 2 ==> s[0] != '0'
  {
    if n < 10 then [DigitChar(n)] else Decimal(n / 10) + [DigitChar(n % 10)]
  }

  /** Reading back a decimal numeral gives the number it was printed from. */
  lemma {:induction false} DecimalValue(n: nat)
    ensures DigitsValue(Decimal(n), 10) == n
    decreases n
  {
    if n >= 10 {
      var s := Decimal(n);
      assert s[..|s| - 1] == Decimal(n / 10);
      DecimalValue(n / 10);
    }
  }

  /** A digit run followed by a non-digit (or by nothing) is read to its end and no further. */
  lemma {:induction false} DigitRunStopsAt(ds: string, rest: string, radix: Radix)
    requires forall i :: 0 <= i < |ds| ==> IsDigitIn(ds[i], radix)
    requires rest == [] || !IsDigitIn(rest[0], radix)
    ensures DigitRun(ds + rest, radix) == |ds|
    decreases |ds|
  {
    if ds != [] {
      assert (ds + rest)[1..] == ds[1..] + rest;
      DigitRunStopsAt(ds[1..], rest, radix);
    }
  }

  /**
    Round trip: printing a non-negative number in decimal, with an optional
    minus sign in front and any tail that does not continue the numeral
    (such as ".50" or "e5"), and parsing it back yields the number.
  */
  lemma ParseIntOfDecimal(n: nat, negative: bool, rest: string)
    requires rest == [] || (!IsDigitIn(rest[0], 10) && rest[0] != 'x' && rest[0] != 'X')
    ensures ParseInt((if negative then "-" else "") + (Decimal(n) + rest)) == Int(if negative then -(n as int) else n)
  {
    if negative {
      NegativeNumeral(n, rest);
    } else {
      PlainNumeral(n, rest);
      assert "" + (Decimal(n) + rest) == Decimal(n) + rest;
    }
  }

  /** An unsigned decimal numeral followed by a non-numeral tail reads as its number. */
  lemma PlainNumeral(n: nat, rest: string)
    requires rest == [] || (!IsDigitIn(rest[0], 10) && rest[0] != 'x' && rest[0] != 'X')
    ensures ParseInt(Decimal(n) + rest) == Int(n)
  {
    var u := Decimal(n) + rest;
    assert Magnitude(u) == Int(n) && u != [] && '0' <= u[0] <= '9' by {
      MagnitudeOfDecimal(n, rest);
      assert u[0] == Decimal(n)[0];
    }
    PlainDigits(u);
  }

  /** A minus sign, a decimal numeral and a non-numeral tail read as the negated number. */
  lemma NegativeNumeral(n: nat, rest: string)
    requires rest == [] || (!IsDigitIn(rest[0], 10) && rest[0] != 'x' && rest[0] != 'X')
    ensures ParseInt("-" + (Decimal(n) + rest)) == Int(-(n as int))
  {
    var u := Decimal(n) + rest;
    var s := "-" + u;
    MagnitudeOfDecimal(n, rest);
    assert !Text.IsSpace(s[0]);
    assert Text.TrimStart(s) == s;
    assert s[0] == '-' && s[1..] == u;
    assert Unsigned(s) == u;
  }

  /** With no sign and no leading blank, `parseInt` is the unsigned reading. */
  lemma PlainDigits(u: string)
    requires u != [] && '0' <= u[0] <= '9'
    requires Magnitude(u).Int?
    ensures ParseInt(u) == Magnitude(u)
  {
    assert !Text.IsSpace(u[0]);
    assert Text.TrimStart(u) == u;
    assert u[0] != '-' && u[0] != '+';
  }

  /** A minus sign right before the digits negates the unsigned reading. */
  lemma NegatedDigits(u: string)
    requires u != [] && '0' <= u[0] <= '9'
    requires Magnitude(u).Int?
    ensures ParseInt("-" + u) == Int(-Magnitude(u).value)
  {
    var s := "-" + u;
    assert !Text.IsSpace(s[0]);
    assert Text.TrimStart(s) == s;
    assert s[0] == '-' && s[1..] == u;
  }

  /** The unsigned reading of a decimal numeral followed by a non-digit tail. */
  lemma MagnitudeOfDecimal(n: nat, rest: string)
    requires rest == [] || (!IsDigitIn(rest[0], 10) && rest[0] != 'x' && rest[0] != 'X')
    ensures Magnitude(Decimal(n) + rest) == Int(n)
  {
    var d := Decimal(n);
    var u := d + rest;
    assert !(|u| >= 2 && u[0] == '0' && (u[1] == 'x' || u[1] == 'X')) by {
      if |d| >= 2 {
        assert u[0] == d[0];
      } else if |u| >= 2 {
        assert u[1] == rest[0];
      }
    }
    DigitRunStopsAt(d, rest, 10);
    assert u[..|d|] == d;
    DecimalValue(n);
  }

  /** The form's budget conversion on a plain decimal entry gives that number. */
  lemma BudgetOfNumeral(n: nat)
    ensures ParseIntOrZero(Decimal(n)) == n
  {
    PlainNumeral(n, "");
    assert Decimal(n) + "" == Decimal(n);
  }

  /** Text that does not start with a decimal digit has no unsigned reading. */
  lemma MagnitudeWithoutDigit(u: string)
    requires u == [] || !('0' <= u[0] <= '9')
    ensures Magnitude(u) == NaN
  {
    assert u == [] || !IsDigitIn(u[0], 10);
    assert DigitRun(u, 10) == 0;
  }

  /** A minus sign in front of a decimal numeral gives a negative budget. */
  lemma NegativeBudget(n: nat)
    requires n > 0
    ensures ParseIntOrZero("-" + Decimal(n)) == -(n as int)
  {
    NegativeNumeral(n, "");
    assert Decimal(n) + "" == Decimal(n);
  }

  /** An entry with no digit at all, in particular the empty field, gives budget 0. */
  lemma BudgetWithoutDigits(s: string)
    requires forall i :: 0 <= i < |s| ==> !('0' <= s[i] <= '9')
    ensures ParseIntOrZero(s) == 0
  {
    var t := Text.TrimStart(s);
    var u := Unsigned(t);
    assert u == [] || u[0] == s[|s| - |u|];
    MagnitudeWithoutDigit(u);
  }
}
