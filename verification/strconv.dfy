/** `strconv.Atoi` and the decimal formatting `fmt`'s `%d` does, on a
    64-bit platform. */
module Strconv {
  import opened Outcomes

  const MinInt64: int := -0x8000_0000_0000_0000
  const MaxInt64: int := 0x7fff_ffff_ffff_ffff

  /** The two reasons `Atoi` gives: `ErrSyntax` and `ErrRange`. */
  datatype NumError = InvalidSyntax | OutOfRange

  predicate IsDigit(c: char) {
    '0' <= c <= '9'
  }

  /** A non-empty run of decimal digits. */
  predicate AllDigits(s: string) {
    |s| > 0 && forall i :: 0 <= i < |s| ==> IsDigit(s[i])
  }

  function DigitValue(c: char): nat
    requires IsDigit(c)
  {
    c as int - '0' as int
  }

  function DigitChar(d: nat): (c: char)
    requires d < 10
    ensures IsDigit(c) && DigitValue(c) == d
  {
    ('0' as int + d) as char
  }

  /** The number a run of digits denotes. */
  function DigitsValue(s: string): nat
    requires forall i :: 0 <= i < |s| ==> IsDigit(s[i])
    decreases |s|
  {
    if |s| == 0 then 0 else DigitsValue(s[..|s| - 1]) * 10 + DigitValue(s[|s| - 1])
  }

  /** `s` without its sign, if it has one. */
  function Unsigned(s: string): string {
    if |s| > 0 && (s[0] == '+' || s[0] == '-') then s[1..] else s
  }

  const MaxUint64: int := 0xffff_ffff_ffff_ffff

  /** How many digits `s` starts with. */
  function DigitRun(s: string): (k: nat)
    ensures k <= |s|
    ensures forall i :: 0 <= i < k ==> IsDigit(s[i])
    ensures k < |s| ==> !IsDigit(s[k])
    decreases |s|
  {
    if |s| == 0 || !IsDigit(s[0]) then 0 else 1 + DigitRun(s[1..])
  }

  /** `strconv.Atoi`: an optional sign, then `ParseUint`'s scan, which stops
      at the first byte that is not a digit (a syntax error) or at the first
      digit that takes the value past 2^64 - 1 (a range error), whichever
      comes first; a value that does not fit in 64 signed bits is a range
      error too. */
  function Atoi(s: string): (r: Result<int, NumError>)
    ensures r.Success? ==> MinInt64 <= r.value <= MaxInt64
    ensures r.Success? ==> AllDigits(Unsigned(s))
    ensures AllDigits(Unsigned(s)) ==> r != Failure(InvalidSyntax)
    ensures !AllDigits(Unsigned(s)) ==> r.Failure?
    ensures !AllDigits(Unsigned(s)) && DigitsValue(Unsigned(s)[..DigitRun(Unsigned(s))]) <= MaxUint64 ==>
      r == Failure(InvalidSyntax)
    ensures DigitsValue(Unsigned(s)[..DigitRun(Unsigned(s))]) > MaxUint64 ==> r == Failure(OutOfRange)
  {
    var digits := Unsigned(s);
    var run := digits[..DigitRun(digits)];
    if DigitsValue(run) > MaxUint64 then Failure(OutOfRange)
    else if !AllDigits(digits) then Failure(InvalidSyntax)
    else
      assert run == digits;
      var magnitude: int := DigitsValue(digits);
      var n := if s[0] == '-' then -magnitude else magnitude;
      if MinInt64 <= n <= MaxInt64 then Success(n) else Failure(OutOfRange)
  }

  /** The shortest decimal spelling of a natural number. */
  function Decimal(n: nat): (s: string)
    ensures AllDigits(s)
    ensures n > 0 ==> s[0] != '0'
    decreases n
  {
    if n < 10 then [DigitChar(n)] else Decimal(n / 10) + [DigitChar(n % 10)]
  }

  /** `%d` of an integer: a minus sign for negatives, then the digits. */
  function FormatInt(n: int): (s: string)
    ensures |s| > 0 && (s[0] == '-' <==> n < 0)
    ensures AllDigits(Unsigned(s))
  {
    if n < 0 then "-" + Decimal(-n) else Decimal(n)
  }

  /** The digits `Decimal` writes denote the number. */
  lemma {:induction false} DecimalValue(n: nat)
    ensures DigitsValue(Decimal(n)) == n
    decreases n
  {
    var s := Decimal(n);
    if n < 10 {
      assert s[..0] == [];
    } else {
      DecimalValue(n / 10);
      assert s[..|s| - 1] == Decimal(n / 10);
    }
  }

  /** Digits with a non-zero lead denote a positive number. */
  lemma {:induction false} LeadingDigitPositive(s: string)
    requires AllDigits(s) && s[0] != '0'
    ensures DigitsValue(s) >= 1
    decreases |s|
  {
    if |s| > 1 {
      LeadingDigitPositive(s[..|s| - 1]);
    } else {
      assert s[..0] == [];
    }
  }

  /** Digits without a superfluous leading zero are what `Decimal` writes for
      their value. */
  lemma {:induction false} DecimalOfDigits(s: string)
    requires AllDigits(s) && (s[0] != '0' || s == "0")
    ensures Decimal(DigitsValue(s)) == s
    decreases |s|
  {
    var p := s[..|s| - 1];
    if |s| == 1 {
      assert p == [];
    } else {
      assert p[0] == s[0];
      LeadingDigitPositive(p);
      DecimalOfDigits(p);
      assert s == p + [s[|s| - 1]];
    }
  }

  function Pow10(n: nat): (p: nat)
    ensures p >= 1
  {
    if n == 0 then 1 else 10 * Pow10(n - 1)
  }

  /** `n` digits denote less than `10^n`. */
  lemma {:induction false} DigitsBelowPower(s: string)
    requires forall i :: 0 <= i < |s| ==> IsDigit(s[i])
    ensures DigitsValue(s) < Pow10(|s|)
    decreases |s|
  {
    if |s| > 0 {
      DigitsBelowPower(s[..|s| - 1]);
    }
  }

  /** Every number of up to 18 digits fits in 64 bits, so `Atoi` only ever
      reports a range error for longer inputs; the value is the digits'
      with the sign applied. */
  lemma ShortNumbersParse(s: string)
    requires AllDigits(Unsigned(s)) && |Unsigned(s)| <= 18
    ensures Atoi(s).Success?
    ensures var m: int := DigitsValue(Unsigned(s)); Atoi(s).value == if s[0] == '-' then -m else m
  {
    var d := Unsigned(s);
    WholeRun(d);
    DigitsBelowPower(d);
    PowerMonotone(|d|, 18);
    PowerSum(9, 9);
    assert Pow10(9) == 1_000_000_000;
  }

  lemma {:induction false} PowerSum(a: nat, b: nat)
    ensures Pow10(a + b) == Pow10(a) * Pow10(b)
    decreases a
  {
    if a > 0 {
      PowerSum(a - 1, b);
    }
  }

  lemma {:induction false} PowerMonotone(m: nat, n: nat)
    requires m <= n
    ensures Pow10(m) <= Pow10(n)
    decreases n
  {
    if m < n {
      PowerMonotone(m, n - 1);
    }
  }

  /** A string of digits is one run. */
  lemma WholeRun(s: string)
    requires AllDigits(s)
    ensures s[..DigitRun(s)] == s
  {
    assert DigitRun(s) == |s|;
  }

  /** Well-formed text parses to its digits' value with the sign applied
      when that fits in 64 signed bits, and is a range error otherwise. */
  lemma AtoiValue(s: string)
    requires AllDigits(Unsigned(s))
    ensures var m: int := DigitsValue(Unsigned(s));
      var n := if s[0] == '-' then -m else m;
      Atoi(s) == if MinInt64 <= n <= MaxInt64 then Success(n) else Failure(OutOfRange)
  {
    WholeRun(Unsigned(s));
  }

  /** A longer run of digits denotes at least what its prefix does. */
  lemma {:induction false} DigitsPrefixBelow(s: string, k: nat)
    requires k <= |s| && forall i :: 0 <= i < |s| ==> IsDigit(s[i])
    ensures DigitsValue(s[..k]) <= DigitsValue(s)
    decreases |s|
  {
    if k < |s| {
      var p := s[..|s| - 1];
      assert p[..k] == s[..k];
      DigitsPrefixBelow(p, k);
    } else {
      assert s[..k] == s;
    }
  }

  /** Digits denote at least their leading digit times `10^(n-1)`. */
  lemma {:induction false} LeadingDigitWeight(s: string)
    requires AllDigits(s)
    ensures DigitsValue(s) >= DigitValue(s[0]) * Pow10(|s| - 1)
    decreases |s|
  {
    var p := s[..|s| - 1];
    if |s| == 1 {
      assert p == [];
    } else {
      assert p[0] == s[0];
      LeadingDigitWeight(p);
      assert DigitsValue(s) >= DigitsValue(p) * 10;
      assert DigitValue(s[0]) * Pow10(|s| - 1) == DigitValue(s[0]) * Pow10(|p| - 1) * 10;
    }
  }

  /** Twenty digits led by 2 or more denote more than 2^64 - 1. */
  lemma TwentyDigitsOverflow(head: string)
    requires AllDigits(head) && |head| == 20 && DigitValue(head[0]) >= 2
    ensures DigitsValue(head) > MaxUint64
  {
    LeadingDigitWeight(head);
    PowerSum(9, 10);
    assert Pow10(9) == 1_000_000_000;
    assert Pow10(10) == 10_000_000_000;
  }

  /** A run of twenty digits led by 2 or more already exceeds 2^64 - 1, so
      it is a range error whatever follows it, digit or not. */
  lemma OverflowBeforeJunk(s: string)
    requires |Unsigned(s)| >= 20 && '2' <= Unsigned(s)[0] <= '9'
    requires forall i :: 0 <= i < 20 ==> IsDigit(Unsigned(s)[i])
    ensures Atoi(s) == Failure(OutOfRange)
  {
    var d := Unsigned(s);
    var k := DigitRun(d);
    assert k >= 20;
    var run := d[..k];
    var head := run[..20];
    assert AllDigits(head) && head[0] == d[0];
    TwentyDigitsOverflow(head);
    DigitsPrefixBelow(run, 20);
  }

  /** Malformed text of at most 19 characters after the sign cannot
      overflow first, so it is always a syntax error. */
  lemma ShortJunkIsSyntax(s: string)
    requires !AllDigits(Unsigned(s)) && |Unsigned(s)| <= 19
    ensures Atoi(s) == Failure(InvalidSyntax)
  {
    var d := Unsigned(s);
    var run := d[..DigitRun(d)];
    DigitsBelowPower(run);
    PowerMonotone(|run|, 19);
    PowerSum(9, 10);
    assert Pow10(9) == 1_000_000_000;
    assert Pow10(10) == 10_000_000_000;
  }

  /** Formatting a 64-bit integer and parsing it back gives the integer. */
  lemma AtoiFormatInt(n: int)
    requires MinInt64 <= n <= MaxInt64
    ensures Atoi(FormatInt(n)) == Success(n)
  {
    var s := FormatInt(n);
    if n < 0 {
      DecimalValue(-n);
      assert s[0] == '-' && s[1..] == Decimal(-n);
      assert Unsigned(s) == Decimal(-n);
      WholeRun(Unsigned(s));
    } else {
      DecimalValue(n);
      assert s == Decimal(n) && IsDigit(s[0]);
      assert Unsigned(s) == s;
      WholeRun(s);
    }
  }

  /** The spellings `FormatInt` produces: no plus sign, no leading zero, no "-0". */
  predicate Canonical(s: string) {
    || (AllDigits(s) && (s[0] != '0' || s == "0"))
    || (|s| >= 2 && s[0] == '-' && AllDigits(s[1..]) && s[1] != '0')
  }

  /** A canonical spelling that parses is reproduced by formatting its value;
      so `FormatInt(Atoi(s))` differs from `s` only for a sign or leading zeros. */
  lemma FormatIntAtoi(s: string)
    requires Canonical(s) && Atoi(s).Success?
    ensures FormatInt(Atoi(s).value) == s
  {
    if s[0] == '-' {
      var d := s[1..];
      DecimalOfDigits(d);
      LeadingDigitPositive(d);
      assert s == "-" + d;
    } else {
      DecimalOfDigits(s);
    }
  }
}
