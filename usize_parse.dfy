/** Rust's `str::parse::<usize>` on a 64-bit target, which the pagination
    parser relies on. The service only calls it; its behaviour is specified
    here: an optional leading `+`, then one or more ASCII digits whose value
    fits in 64 bits. The digits are scanned from left to right and the first
    non-digit or the first overflow decides the error. */
module UsizeParse {
  import opened Results

  /** 2^64 - 1, the largest `usize` on a 64-bit target. */
  const USIZE_MAX: nat := 0xFFFF_FFFF_FFFF_FFFF

  type Usize = n: nat | n <= USIZE_MAX

  /** The kinds of `ParseIntError` that parsing an unsigned integer can produce. */
  datatype IntErrorKind = Empty | InvalidDigit | PosOverflow

  predicate IsDigit(c: char) {
    '0' <= c <= '9'
  }

  function DigitValue(c: char): (d: nat)
    requires IsDigit(c)
    ensures d < 10
  {
    (c as int) - ('0' as int)
  }

  /** The parser: the empty string, a lone sign, then the scan of the digits
      that follow an optional `+` (a `-` is not stripped for unsigned types). */
  function ParseUsize(s: string): Result<Usize, IntErrorKind> {
    if s == [] then Err(Empty)
    else if s == "+" || s == "-" then Err(InvalidDigit)
    else if s[0] == '+' then Accumulate(s[1..], 0)
    else Accumulate(s, 0)
  }

  /** One step per character: reject a non-digit, then multiply by ten and add
      the digit, each with an overflow check. */
  function Accumulate(digits: string, acc: Usize): Result<Usize, IntErrorKind>
    decreases |digits|
  {
    if digits == [] then Ok(acc)
    else if !IsDigit(digits[0]) then Err(InvalidDigit)
    else if acc * 10 > USIZE_MAX then Err(PosOverflow)
    else if acc * 10 + DigitValue(digits[0]) > USIZE_MAX then Err(PosOverflow)
    else Accumulate(digits[1..], acc * 10 + DigitValue(digits[0]))
  }

  // ---------------------------------------------------------------------
  // Reference definition: what the parser yields, stated without the scan.

  predicate AllDigits(s: string) {
    forall i :: 0 <= i < |s| ==> IsDigit(s[i])
  }

  /** Positional decimal value of a digit string, most significant digit first. */
  function DecimalValue(s: string): nat
    requires AllDigits(s)
  {
    if s == [] then 0 else DecimalValue(s[..|s| - 1]) * 10 + DigitValue(s[|s| - 1])
  }

  /** Length of the run of digits at the head of `s`. */
  function DigitRun(s: string): (n: nat)
    ensures n <= |s| && AllDigits(s[..n])
    ensures n < |s| ==> !IsDigit(s[n])
  {
    if s == [] || !IsDigit(s[0]) then 0
    else
      var m := DigitRun(s[1..]);
      assert s[..1 + m] == [s[0]] + s[1..][..m];
      1 + m
  }

  /** The characters after an optional leading `+`. */
  function Unsigned(s: string): string {
    if |s| > 0 && s[0] == '+' then s[1..] else s
  }

  /** Outcome of scanning a digit string: an overflow inside the leading run of
      digits comes first, then a non-digit, and otherwise the value. */
  function ScanOutcome(d: string): Result<Usize, IntErrorKind> {
    var k := DigitRun(d);
    if DecimalValue(d[..k]) > USIZE_MAX then Err(PosOverflow)
    else if k < |d| then Err(InvalidDigit)
    else assert d[..k] == d; Ok(DecimalValue(d))
  }

  /** The whole parser, declaratively. */
  function Expected(s: string): Result<Usize, IntErrorKind> {
    if s == [] then Err(Empty)
    else if Unsigned(s) == [] then Err(InvalidDigit)
    else ScanOutcome(Unsigned(s))
  }

  /** Strings `parse::<usize>` accepts: an optional `+`, at least one digit,
      and a value that fits in 64 bits. */
  predicate IsUsizeLiteral(s: string) {
    var d := Unsigned(s);
    d != [] && AllDigits(d) && DecimalValue(d) <= USIZE_MAX
  }

  // ---------------------------------------------------------------------
  // Lemmas

  lemma {:induction false} DigitRunOfDigits(s: string)
    requires AllDigits(s)
    ensures DigitRun(s) == |s|
  {
  }

  /** Appending digits never makes a decimal value smaller. */
  lemma {:induction false} DecimalValueMonotone(p: string, r: string)
    requires AllDigits(p + r)
    ensures AllDigits(p) && DecimalValue(p) <= DecimalValue(p + r)
  {
    assert forall i | 0 <= i < |p| :: (p + r)[i] == p[i];
    if r != [] {
      var r' := r[..|r| - 1];
      assert (p + r)[..|p + r| - 1] == p + r';
      assert forall i | 0 <= i < |p + r'| :: (p + r')[i] == (p + r)[i];
      DecimalValueMonotone(p, r');
    } else {
      assert p + r == p;
    }
  }

  /** Scanning `d` with the value of the digits `p` already accumulated gives
      what the reference definition gives for `p + d`. */
  lemma {:induction false} AccumulateMatchesScan(p: string, d: string)
    requires AllDigits(p) && DecimalValue(p) <= USIZE_MAX
    ensures Accumulate(d, DecimalValue(p)) == ScanOutcome(p + d)
    decreases |d|
  {
    var x := p + d;
    var k := DigitRun(x);
    if d == [] {
      assert x == p;
      DigitRunOfDigits(p);
      assert x[..k] == p;
    } else if !IsDigit(d[0]) {
      assert x[|p|] == d[0];
      assert forall i | 0 <= i < |p| :: x[i] == p[i];
      assert k == |p|;
      assert x[..k] == p;
    } else {
      var q := p + [d[0]];
      assert AllDigits(q);
      assert q[..|q| - 1] == p;
      assert DecimalValue(q) == DecimalValue(p) * 10 + DigitValue(d[0]);
      if DecimalValue(q) > USIZE_MAX {
        assert forall i | 0 <= i < |q| :: x[i] == q[i];
        assert k >= |q|;
        assert x[..k] == q + x[|q|..k];
        DecimalValueMonotone(q, x[|q|..k]);
      } else {
        AccumulateMatchesScan(q, d[1..]);
        assert q + d[1..] == x;
      }
    }
  }

  /** The parser agrees with its reference definition on every string. */
  lemma ParseUsizeMatchesExpected(s: string)
    ensures ParseUsize(s) == Expected(s)
  {
    if s != [] && s != "+" && s != "-" {
      assert DecimalValue([]) == 0;
      AccumulateMatchesScan([], Unsigned(s));
      assert [] + Unsigned(s) == Unsigned(s);
    }
  }

  /** `parse::<usize>` succeeds exactly on usize literals, with their decimal value. */
  lemma ParseUsizeAccepts(s: string)
    ensures ParseUsize(s).Ok? <==> IsUsizeLiteral(s)
    ensures ParseUsize(s).Ok? ==> ParseUsize(s).value == DecimalValue(Unsigned(s))
  {
    ParseUsizeMatchesExpected(s);
    var d := Unsigned(s);
    if s != [] && d != [] {
      var k := DigitRun(d);
      if AllDigits(d) {
        DigitRunOfDigits(d);
        assert d[..k] == d;
      } else if k == |d| {
        assert d[..k] == d;
      }
    }
  }

  /** The empty string is the only input reported as `Empty`. */
  lemma ParseUsizeEmpty(s: string)
    ensures ParseUsize(s) == Err(Empty) <==> s == []
  {
    ParseUsizeMatchesExpected(s);
  }

  /** Decimal rendering of a natural number, the inverse of the parser. */
  function ToDecimal(n: nat): (s: string)
    ensures s != [] && AllDigits(s)
  {
    if n < 10 then [DigitChar(n)] else ToDecimal(n / 10) + [DigitChar(n % 10)]
  }

  function DigitChar(d: nat): (c: char)
    requires d < 10
    ensures IsDigit(c) && DigitValue(c) == d
  {
    ('0' as int + d) as char
  }

  lemma {:induction false} ToDecimalValue(n: nat)
    ensures DecimalValue(ToDecimal(n)) == n
  {
    var s := ToDecimal(n);
    if n >= 10 {
      assert s[..|s| - 1] == ToDecimal(n / 10);
      ToDecimalValue(n / 10);
    } else {
      assert s[..0] == [];
    }
  }

  /** Round trip: every usize, rendered in decimal with or without a leading
      `+`, parses back to itself. */
  lemma ParseUsizeRoundTrip(n: Usize)
    ensures ParseUsize(ToDecimal(n)) == Ok(n)
    ensures ParseUsize("+" + ToDecimal(n)) == Ok(n)
  {
    var s := ToDecimal(n);
    ToDecimalValue(n);
    assert Unsigned(s) == s;
    ParseUsizeAccepts(s);
    assert ("+" + s)[1..] == s;
    ParseUsizeAccepts("+" + s);
  }
}
