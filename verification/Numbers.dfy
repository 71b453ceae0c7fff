/** `strconv` on base-10 integers of 64 bits, decimal printing, and their round trip. */
module Numbers {
  import opened Text

  const MAX_INT64: int := 0x7fff_ffff_ffff_ffff
  const MIN_INT64: int := -0x8000_0000_0000_0000

  /** `x++` on a 64-bit signed integer. */
  function Increment64(x: int): int {
    if x == MAX_INT64 then MIN_INT64 else x + 1
  }

  predicate AllDigits(s: string) {
    forall i :: 0 <= i < |s| ==> IsDigit(s[i])
  }

  function DigitsValue(s: string): nat
    requires AllDigits(s)
  {
    if s == "" then 0 else DigitsValue(s[..|s| - 1]) * 10 + (s[|s| - 1] - '0') as nat
  }

  function Decimal(n: nat): (s: string)
    ensures s != "" && AllDigits(s)
  {
    var digit := ['0' + (n % 10) as char];
    if n < 10 then digit else Decimal(n / 10) + digit
  }

  function Itoa(n: int): string {
    if n < 0 then "-" + Decimal(-n) else Decimal(n)
  }

  lemma {:induction false} DigitsOfDecimal(n: nat)
    ensures DigitsValue(Decimal(n)) == n
  {
    if n >= 10 {
      DigitsOfDecimal(n / 10);
      var s := Decimal(n);
      assert s[..|s| - 1] == Decimal(n / 10);
    } else {
      assert Decimal(n)[..0] == "";
    }
  }

  /** Outcome of `strconv.ParseInt(s, 10, 64)`; out of range carries the clamped value. */
  datatype ParsedInt = NotANumber | OutOfRange(clamped: int) | Number(value: int) {
    /** The integer `strconv.Atoi` returns when its error is ignored. */
    function OrClamped(): int {
      match this
      case NotANumber => 0
      case OutOfRange(clamped) => clamped
      case Number(value) => value
    }
  }

  function ParseInt(s: string): ParsedInt {
    var negative := HasPrefix(s, "-");
    var digits := if negative || HasPrefix(s, "+") then s[1..] else s;
    if digits == "" || !AllDigits(digits) then NotANumber
    else
      var magnitude: int := DigitsValue(digits);
      var n := if negative then -magnitude else magnitude;
      if n > MAX_INT64 then OutOfRange(MAX_INT64)
      else if n < MIN_INT64 then OutOfRange(MIN_INT64)
      else Number(n)
  }

  lemma {:induction false} ParseDecimal(n: nat)
    requires n <= MAX_INT64
    ensures ParseInt(Decimal(n)) == Number(n)
  {
    DigitsOfDecimal(n);
    var s := Decimal(n);
    assert IsDigit(s[0]);
    assert !HasPrefix(s, "-") && !HasPrefix(s, "+");
  }

  lemma {:induction false} DecimalIsWord(n: nat)
    ensures Word(Decimal(n))
  {}
}
