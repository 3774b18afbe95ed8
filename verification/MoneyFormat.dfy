/** Printing amounts in minor units: exact integers of any size, never rounded through a float. */
module MoneyFormat {
  import opened Options
  import opened Text

  // ---- integer texts ----

  /** An optional minus sign and one or more digits. */
  predicate IsInteger(s: string) {
    s != "" && if s[0] == '-' then |s| > 1 && AllDigits(s[1..]) else AllDigits(s)
  }

  function Value(s: string): int
    requires IsInteger(s)
  {
    if s[0] == '-' then -(NumberOf(s[1..]) as int) else NumberOf(s)
  }

  lemma {:induction false} DigitsRead(n: nat)
    ensures AllDigits(Digits(n)) && NumberOf(Digits(n)) == n && Digits(n) != ""
    ensures n > 0 ==> Power10(|Digits(n)| - 1) <= n && Digits(n)[0] != '0'
  {
    var s := Digits(n);
    if n < 10 {
      assert s[..|s| - 1] == "";
    } else {
      DigitsRead(n / 10);
      assert s[..|s| - 1] == Digits(n / 10);
    }
  }

  /** The decimal text of a number: its digits after a minus sign if it is negative, without zeros before them. */
  lemma DecimalSpelled(n: int)
    ensures var s := Decimal(n);
      var digits := if n < 0 then s[1..] else s;
      && (n < 0 ==> s[0] == '-') && digits != "" && AllDigits(digits) && NumberOf(digits) == (if n < 0 then -n else n)
      && (digits[0] == '0' ==> s == "0")
  {
    DigitsRead(if n < 0 then -n else n);
    assert n < 0 ==> Decimal(n)[1..] == Digits(-n);
  }

  // ---- printing ----

  /** 2 to the power n. */
  function Power2(n: nat): nat {
    if n == 0 then 1 else 2 * Power2(n - 1)
  }

  /** Amounts whose nearest double is not infinite. */
  predicate Finite(minor: int) {
    var limit := Power2(1024) - Power2(970);
    -limit < minor < limit
  }

  /** The parts of a printed amount; grouping and the currency sign are the locale's. */
  datatype Parts = Parts(minus: bool, integer: string, fraction: string)

  function Padded(n: nat, width: nat): string {
    Zeros(width - |Digits(n)|) + Digits(n)
  }

  function Zeros(n: int): string
    decreases n
  {
    if n <= 0 then "" else "0" + Zeros(n - 1)
  }

  function Abs(x: int): nat {
    if x < 0 then -x else x
  }

  function Whole(x: nat, scale: nat): nat
    requires scale > 0
  {
    x / scale
  }

  function Rest(x: nat, scale: nat): (r: nat)
    requires scale > 0
    ensures r < scale && x == Whole(x, scale) * scale + r
  {
    x % scale
  }

  /** The fraction is printed only for currencies that have one. */
  function PrintMinor(minor: int, digits: nat): Parts {
    var scale := Power10(digits);
    var whole := Whole(Abs(minor), scale);
    Parts(minor < 0, Digits(whole), if digits == 0 then "" else Padded(Rest(Abs(minor), scale), digits))
  }

  /** formatValue for amounts; none is a dash. */
  function FormatValue(value: string, digits: nat): Option<Parts> {
    if !IsInteger(value) || !Finite(Value(value)) then None else Some(PrintMinor(Value(value), digits))
  }

  // ---- reading back ----

  /** What a reader makes of the parts: the integer and fraction digits in a row, with the sign. */
  function ReadBack(p: Parts): int
    requires AllDigits(p.integer + p.fraction)
  {
    if p.minus then -(NumberOf(p.integer + p.fraction) as int) else NumberOf(p.integer + p.fraction)
  }

  lemma {:induction false} ZerosCountNothing(n: int)
    ensures AllDigits(Zeros(n)) && NumberOf(Zeros(n)) == 0 && |Zeros(n)| == if n <= 0 then 0 else n
    decreases n
  {
    if n > 0 {
      ZerosCountNothing(n - 1);
      NumberJoins("0", Zeros(n - 1));
      assert "0"[..0] == "";
    }
  }

  lemma ShortEnough(n: nat, width: nat)
    requires n < Power10(width) && width > 0
    ensures |Digits(n)| <= width
  {
    DigitsRead(n);
    if n > 0 && |Digits(n)| > width {
      PowersGrow(width, |Digits(n)| - 1);
    }
  }

  lemma PaddedReads(n: nat, width: nat)
    requires n < Power10(width) && width > 0
    ensures AllDigits(Padded(n, width)) && NumberOf(Padded(n, width)) == n && |Padded(n, width)| == width
  {
    ShortEnough(n, width);
    DigitsRead(n);
    hide Power10, Digits;
    ZerosCountNothing(width - |Digits(n)|);
    NumberJoins(Zeros(width - |Digits(n)|), Digits(n));
  }

  lemma {:induction false} PowersGrow(a: nat, b: nat)
    requires a <= b
    ensures Power10(a) <= Power10(b)
    decreases b
  {
    if a < b {
      PowersGrow(a, b - 1);
    }
  }

  /** What is printed decodes to the same amount, for every scale: negative amounts of less than one unit keep their
      sign, and the fraction keeps its leading zeros. */
  lemma PrintedReadsBack(minor: int, digits: nat)
    ensures var p := PrintMinor(minor, digits);
      && AllDigits(p.integer + p.fraction) && |p.fraction| == digits && p.integer != ""
      && ReadBack(p) == minor && (p.minus <==> minor < 0)
      && (p.integer == "0" || p.integer[0] != '0')
  {
    var p := PrintMinor(minor, digits);
    var scale, n := Power10(digits), Abs(minor);
    hide Power10, Digits, Whole, Rest;
    PartsRead(Whole(n, scale), Rest(n, scale), digits);
    NumberJoins(p.integer, p.fraction);
  }

  lemma PartsRead(whole: nat, part: nat, digits: nat)
    requires part < Power10(digits)
    ensures AllDigits(Digits(whole)) && NumberOf(Digits(whole)) == whole && Digits(whole) != ""
    ensures Digits(whole) == "0" || Digits(whole)[0] != '0'
    ensures var f := if digits == 0 then "" else Padded(part, digits);
      AllDigits(f) && NumberOf(f) == part && |f| == digits
  {
    DigitsRead(whole);
    if digits > 0 {
      PaddedReads(part, digits);
    }
  }

  /** Every finite integer text is printed so that it reads back as the integer it denotes, with a
      minus sign exactly when that is negative and no idle zero in front; all else is a dash. */
  lemma FormattedValueReadsBack(value: string, digits: nat)
    ensures FormatValue(value, digits).Some? <==> IsInteger(value) && Finite(Value(value))
    ensures FormatValue(value, digits).Some? ==>
      var p := FormatValue(value, digits).value;
      && AllDigits(p.integer + p.fraction) && |p.fraction| == digits && ReadBack(p) == Value(value)
      && (p.minus <==> Value(value) < 0) && (p.integer == "0" || p.integer[0] != '0')
  {
    if IsInteger(value) {
      PrintedReadsBack(Value(value), digits);
    }
  }

  /** So no two amounts print alike. */
  lemma PrintsDiffer(a: int, b: int, digits: nat)
    requires a != b
    ensures PrintMinor(a, digits) != PrintMinor(b, digits)
  {
    PrintedReadsBack(a, digits);
    PrintedReadsBack(b, digits);
  }

  /** Every amount that is near enough to zero is printed from its decimal text, and reads back as itself. */
  lemma AmountsReadBack(minor: int, digits: nat)
    requires Finite(minor)
    ensures var p := FormatValue(Decimal(minor), digits);
      p.Some? && AllDigits(p.value.integer + p.value.fraction) && ReadBack(p.value) == minor
  {
    var text := Decimal(minor);
    DigitsRead(Abs(minor));
    assert minor < 0 ==> text[0] == '-' && text[1..] == Digits(-minor);
    assert IsInteger(text) && Value(text) == minor;
    PrintedReadsBack(minor, digits);
  }

  /** A sign without digits, an empty text and anything that is not a digit are no amount. */
  lemma NoAmounts(value: string, digits: nat, i: nat)
    requires value == "" || value == "-" || (0 < i < |value| && !IsDigit(value[i]))
      || (value != "" && value[0] != '-' && !IsDigit(value[0]))
    ensures FormatValue(value, digits) == None
  {
    if 0 < i < |value| { assert value[1..][i - 1] == value[i]; }
  }

  lemma {:induction false} PowersMultiply(a: nat, b: nat)
    ensures Power2(a + b) == Power2(a) * Power2(b)
  {
    if b > 0 {
      PowersMultiply(a, b - 1);
      assert Power2(a + b) == 2 * Power2(a + b - 1);
    }
  }

  lemma PowersOfTwo()
    ensures Power2(10) == 1024
  {
    assert Power2(5) == 32;
    PowersMultiply(5, 5);
  }

  /** An amount is finite as a double when it is less than halfway from the largest double, 2 to the power 971 times
      2 to the power 53 less 1, to the next step beyond. */
  lemma FiniteIsNearADouble(minor: int)
    ensures var step := Power2(971);
      Finite(minor) <==> 2 * (Abs(minor) - (Power2(53) - 1) * step) < step
  {
    hide Power2;
    PowersMultiply(53, 971);
    assert Power2(971) == 2 * Power2(970) by {
      NextPower(970);
    }
  }

  lemma NextPower(n: nat)
    ensures Power2(n + 1) == 2 * Power2(n)
  {
  }
}
