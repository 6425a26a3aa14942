/** Decimal names: how numbers are printed into directory entries and read back from looked-up names. */
module Numbers {
  predicate IsDigit(c: char) { '0' <= c <= '9' }

  function Digit(n: nat): char
    requires n < 10
  {
    '0' + n as char
  }

  /** The decimal form of a number, as `%d` prints it. */
  function Decimal(n: nat): string {
    if n < 10 then [Digit(n)] else Decimal(n / 10) + [Digit(n % 10)]
  }

  /** The number of leading digits. */
  function Digits(s: string): (n: nat)
    ensures n <= |s|
  {
    if s == "" || !IsDigit(s[0]) then 0 else 1 + Digits(s[1..])
  }

  ghost predicate AllDigits(s: string) { forall i :: 0 <= i < |s| ==> IsDigit(s[i]) }

  /** The value of a string of digits. */
  function Value(s: string): nat
    requires AllDigits(s)
  {
    if s == "" then 0 else Value(s[..|s| - 1]) * 10 + (s[|s| - 1] - '0') as nat
  }

  /** The two's-complement 32-bit integer. */
  function Wrap(x: int): int {
    (x + 0x8000_0000) % 0x1_0000_0000 - 0x8000_0000
  }

  lemma WrapSmall(x: int)
    requires -0x8000_0000 <= x < 0x8000_0000
    ensures Wrap(x) == x
  {
  }

  lemma WrapRange(x: int)
    ensures -0x8000_0000 <= Wrap(x) < 0x8000_0000
  {
  }

  lemma WrapStep(x: nat, d: nat)
    requires d < 10
    ensures Wrap(Wrap(x) * 10 + d) == Wrap(x * 10 + d)
  {
    var k := (x + 0x8000_0000) / 0x1_0000_0000;
    assert x == Wrap(x) + k * 0x1_0000_0000;
    WrapPeriod(Wrap(x) * 10 + d, k * 10);
  }

  lemma WrapPeriod(y: int, k: nat)
    ensures Wrap(y + k * 0x1_0000_0000) == Wrap(y)
  {
    if k > 0 { WrapPeriod(y, k - 1); }
  }

  lemma {:induction false} DigitsPrefix(s: string)
    ensures AllDigits(s[..Digits(s)]) && (Digits(s) < |s| ==> !IsDigit(s[Digits(s)]))
  {
    if s != "" && IsDigit(s[0]) {
      DigitsPrefix(s[1..]);
      assert s[..Digits(s)] == [s[0]] + s[1..][..Digits(s[1..])];
    }
  }

  lemma {:induction false} DigitsIs(s: string, n: nat)
    requires n <= |s| && AllDigits(s[..n]) && (n < |s| ==> !IsDigit(s[n]))
    ensures Digits(s) == n
  {
    if n > 0 {
      assert s[0] == s[..n][0];
      assert s[1..][..n - 1] == s[..n][1..];
      DigitsIs(s[1..], n - 1);
    }
  }

  /** What `procfs_atoi` makes of a name: -1 without a leading digit, otherwise the 32-bit value of the leading digits. */
  function Atoi(s: string): int {
    if Digits(s) == 0 then -1 else (DigitsPrefix(s); Wrap(Value(s[..Digits(s)])))
  }

  method ParseInt(s: string) returns (value: int, end: nat)
    ensures value == Atoi(s) && end == Digits(s)
  {
    var i := 0;
    value := 0;
    while i < |s| && IsDigit(s[i])
      invariant i <= |s| && AllDigits(s[..i]) && value == Wrap(Value(s[..i]))
    {
      var d := (s[i] - '0') as nat;
      assert s[..i + 1][..i] == s[..i];
      WrapStep(Value(s[..i]), d);
      value := Wrap(value * 10 + d);
      i := i + 1;
    }
    DigitsIs(s, i);
    end := i;
    if i == 0 { value := -1; }
  }

  /** Reading back a printed number. */
  lemma {:induction false} DecimalReadsBack(n: nat)
    ensures Decimal(n) != "" && AllDigits(Decimal(n)) && Value(Decimal(n)) == n
    ensures Digits(Decimal(n)) == |Decimal(n)| && Atoi(Decimal(n)) == Wrap(n)
  {
    var s := Decimal(n);
    if n < 10 {
      assert s[..0] == "";
    } else {
      DecimalReadsBack(n / 10);
      assert s[..|s| - 1] == Decimal(n / 10);
    }
    DigitsIs(s, |s|);
    assert s[..|s|] == s;
  }

  /** A printed number followed by something else that is not a digit. */
  lemma DecimalPrefix(n: nat, rest: string)
    requires rest != "" && !IsDigit(rest[0])
    ensures Atoi(Decimal(n) + rest) == Wrap(n) && Digits(Decimal(n) + rest) == |Decimal(n)| > 0
  {
    DecimalReadsBack(n);
    var s := Decimal(n) + rest;
    assert s[..|Decimal(n)|] == Decimal(n);
    DigitsIs(s, |Decimal(n)|);
  }

  /** `%lld` of an unsigned 64-bit number. */
  function LongName(n: nat): string
    requires n < 0x1_0000_0000_0000_0000
  {
    if n < 0x8000_0000_0000_0000 then Decimal(n) else "-" + Decimal(0x1_0000_0000_0000_0000 - n)
  }
}
