/** Decimal text: what the parsers read and what format_uint64 writes. */
module Decimal {
  type uint64 = n: nat | n < 0x1_0000_0000_0000_0000

  const DIGITS_CAPACITY: nat := 20

  predicate IsDigit(c: char) {
    '0' <= c <= '9'
  }

  predicate AllDigits(text: string) {
    forall i :: 0 <= i < |text| ==> IsDigit(text[i])
  }

  function DigitValue(c: char): nat
    requires IsDigit(c)
  {
    c as nat - '0' as nat
  }

  function Digit(n: nat): (c: char)
    requires n < 10
    ensures IsDigit(c) && DigitValue(c) == n
  {
    ('0' as nat + n) as char
  }

  /** The number a string of digits denotes, leading zeros allowed. */
  function DecimalValue(text: string): nat
    requires AllDigits(text)
  {
    if text == [] then 0 else 10 * DecimalValue(text[..|text| - 1]) + DigitValue(text[|text| - 1])
  }

  /** A non-empty digit string with a value of at most `limit`. */
  predicate IsNumber(text: string, limit: nat) {
    text != [] && AllDigits(text) && DecimalValue(text) <= limit
  }

  /** Reading more digits never makes the value smaller, so rejecting early is safe. */
  lemma {:induction false} PrefixValueAtMost(text: string, n: nat)
    requires AllDigits(text) && n <= |text|
    ensures AllDigits(text[..n]) && DecimalValue(text[..n]) <= DecimalValue(text)
    decreases |text|
  {
    if n == |text| {
      assert text[..n] == text;
    } else {
      var init := text[..|text| - 1];
      PrefixValueAtMost(init, n);
      assert init[..n] == text[..n];
    }
  }

  /** The canonical decimal text of a number. */
  function Digits(n: nat): (text: string)
    ensures text != [] && AllDigits(text)
  {
    if n < 10 then [Digit(n)] else Digits(n / 10) + [Digit(n % 10)]
  }

  lemma {:induction false} DigitsReadBack(n: nat)
    ensures DecimalValue(Digits(n)) == n
  {
    if n >= 10 {
      DigitsReadBack(n / 10);
      assert Digits(n)[..|Digits(n)| - 1] == Digits(n / 10);
    }
  }

  lemma {:induction false} NoLeadingZero(n: nat)
    ensures Digits(n)[0] == '0' <==> n == 0
  {
    if n >= 10 {
      NoLeadingZero(n / 10);
      assert Digits(n)[0] == Digits(n / 10)[0];
    }
  }

  function Power10(k: nat): nat {
    if k == 0 then 1 else 10 * Power10(k - 1)
  }

  lemma {:induction false} DigitCount(n: nat, k: nat)
    requires k > 0 && n < Power10(k)
    ensures |Digits(n)| <= k
  {
    if n >= 10 {
      DigitCount(n / 10, k - 1);
    }
  }

  lemma TwentyDigits(n: uint64)
    ensures |Digits(n)| <= DIGITS_CAPACITY
  {
    assert Power10(5) == 100000;
    assert Power10(10) == 100000 * Power10(5);
    assert Power10(15) == 100000 * Power10(10);
    assert Power10(20) == 100000 * Power10(15);
    DigitCount(n, DIGITS_CAPACITY);
  }

  function Reversed(text: string): string {
    if text == [] then [] else [text[|text| - 1]] + Reversed(text[..|text| - 1])
  }

  lemma {:induction false} ReversedAt(text: string, k: nat)
    requires k < |text|
    ensures |Reversed(text)| == |text| && Reversed(text)[k] == text[|text| - 1 - k]
    decreases |text|
  {
    if |text| == 1 {
      assert Reversed(text[..0]) == [];
    } else if k == 0 {
      ReversedAt(text[..|text| - 1], 0);
    } else {
      ReversedAt(text[..|text| - 1], k - 1);
    }
  }

  /** The digits still to be produced for a remaining value. */
  function Remaining(n: nat): string {
    if n == 0 then [] else Digits(n)
  }

  lemma DigitsStep(n: nat)
    ensures Digits(n) == Remaining(n / 10) + [Digit(n % 10)]
  {
  }

  lemma ReversedSnoc(text: string, c: char)
    ensures Reversed(text + [c]) == [c] + Reversed(text)
  {
  }

  /** The digits in `done`, least significant first, are those `remaining` no longer has. */
  predicate Produced(value: nat, remaining: nat, done: string) {
    Digits(value) == (if done == [] then Digits(remaining) else Remaining(remaining)) + Reversed(done)
  }

  lemma {:induction false} ReversedLength(text: string)
    ensures |Reversed(text)| == |text|
  {
    if text != [] {
      ReversedAt(text, 0);
    }
  }

  lemma LeftAssociates(a: string, b: string, c: string)
    ensures a + b + c == a + (b + c)
  {
  }

  lemma MoreDigits(value: nat, remaining: nat, done: string)
    requires Produced(value, remaining, done) && (done == [] || remaining > 0)
    ensures |done| < |Digits(value)|
  {
    ReversedLength(done);
    DigitsStep(remaining);
  }

  lemma NextProduced(value: nat, remaining: nat, done: string)
    requires Produced(value, remaining, done) && (done == [] || remaining > 0)
    ensures Produced(value, remaining / 10, done + [Digit(remaining % 10)])
  {
    var next := Digit(remaining % 10);
    DigitsStep(remaining);
    ReversedSnoc(done, next);
    LeftAssociates(Remaining(remaining / 10), [next], Reversed(done));
    assert Digits(value) == Remaining(remaining / 10) + [next] + Reversed(done);
  }

  /** The first loop of format_uint64: the digits, least significant first. */
  method ReversedDigits(value: uint64, reversed: array<char>) returns (digits: nat)
    requires reversed.Length == DIGITS_CAPACITY
    modifies reversed
    ensures digits == |Digits(value)| <= DIGITS_CAPACITY
    ensures Reversed(reversed[..digits]) == Digits(value)
  {
    TwentyDigits(value);
    var remaining := value;
    digits := 0;
    while digits == 0 || remaining > 0
      invariant digits <= |Digits(value)| && Produced(value, remaining, reversed[..digits])
      decreases if digits == 0 then 1 else 0, remaining
    {
      ghost var done := reversed[..digits];
      MoreDigits(value, remaining, done);
      NextProduced(value, remaining, done);
      reversed[digits] := Digit(remaining % 10);
      digits := digits + 1;
      assert reversed[..digits] == done + [Digit(remaining % 10)];
      remaining := remaining / 10;
    }
    ReversedLength(reversed[..digits]);
  }

  /** format_uint64: the number's digits and a terminating NUL, within the 21 bytes. */
  method FormatUint64(value: uint64, destination: array<char>)
    requires destination.Length == DIGITS_CAPACITY + 1
    modifies destination
    ensures |Digits(value)| <= DIGITS_CAPACITY
    ensures destination[..|Digits(value)|] == Digits(value) && destination[|Digits(value)|] == '\0'
  {
    var reversed := new char[DIGITS_CAPACITY];
    var digits := ReversedDigits(value, reversed);
    ghost var produced := reversed[..digits];
    for index := 0 to digits
      invariant forall i :: 0 <= i < index ==> destination[i] == reversed[digits - i - 1]
      invariant reversed[..digits] == produced
    {
      destination[index] := reversed[digits - index - 1];
    }
    destination[digits] := '\0';
    forall k | 0 <= k < digits ensures destination[k] == Digits(value)[k] {
      ReversedAt(reversed[..digits], k);
    }
  }
}
