/** The bitwise CRC-32 of the SD-card driver.  A 32-bit word is its bits, least significant
    first, so that the update is visibly linear over GF(2). */
module Crc32 {
  import opened Bytes

  type Word = w: seq<bool> | |w| == 32 witness seq(32, _ => false)

  function Zero(): Word {
    seq(32, _ => false)
  }

  function Ones(): Word {
    seq(32, _ => true)
  }

  function Xor(a: Word, b: Word): Word {
    seq(32, i requires 0 <= i < 32 => a[i] != b[i])
  }

  function Not(a: Word): Word {
    seq(32, i requires 0 <= i < 32 => !a[i])
  }

  /** The bits of 0xEDB88320. */
  const POLYNOMIAL: seq<bool> := [
    false, false, false, false,  false, true, false, false,  true, true, false, false,  false, false, false, true,
    false, false, false, true,  true, true, false, true,  true, false, true, true,  false, true, true, true]

  /** The four bits of a hexadecimal digit. */
  function Nibble(digit: nat): seq<bool> {
    [digit % 2 == 1, digit / 2 % 2 == 1, digit / 4 % 2 == 1, digit / 8 % 2 == 1]
  }

  lemma PolynomialDigits()
    ensures POLYNOMIAL == Nibble(0x0) + Nibble(0x2) + Nibble(0x3) + Nibble(0x8)
                          + Nibble(0x8) + Nibble(0xB) + Nibble(0xD) + Nibble(0xE)
  {
  }

  /** A byte as it enters the register: its bits at the low end. */
  function Low(b: byte): Word {
    [b & 1 != 0, b & 2 != 0, b & 4 != 0, b & 8 != 0, b & 16 != 0, b & 32 != 0, b & 64 != 0, b & 128 != 0]
    + seq(24, _ => false)
  }

  lemma LowInjective(x: byte, y: byte)
    requires Low(x) == Low(y)
    ensures x == y
  {
    assert forall i :: 0 <= i < 8 ==> Low(x)[i] == Low(y)[i];
    assert Low(x)[0] == Low(y)[0] && Low(x)[1] == Low(y)[1] && Low(x)[2] == Low(y)[2] && Low(x)[3] == Low(y)[3];
    assert Low(x)[4] == Low(y)[4] && Low(x)[5] == Low(y)[5] && Low(x)[6] == Low(y)[6] && Low(x)[7] == Low(y)[7];
  }

  function ShiftRight(c: Word): Word {
    c[1..] + [false]
  }

  /** One turn of the inner bit loop. */
  function Shift(c: Word): Word {
    if c[0] then Xor(ShiftRight(c), POLYNOMIAL) else ShiftRight(c)
  }

  function Shifts(c: Word, n: nat): Word {
    if n == 0 then c else Shift(Shifts(c, n - 1))
  }

  /** One turn of the byte loop: the byte enters the low end, then eight shifts. */
  function Absorb(c: Word, low: Word): Word {
    Shifts(Xor(c, low), 8)
  }

  function Checksum(c: Word, data: seq<byte>): Word {
    if data == [] then c else Absorb(Checksum(c, data[..|data| - 1]), Low(data[|data| - 1]))
  }

  /** checksum_update, with both loops. */
  method ChecksumUpdate(checksum: Word, buffer: seq<byte>) returns (r: Word)
    ensures r == Checksum(checksum, buffer)
  {
    r := checksum;
    assert buffer[..0] == [];
    for index := 0 to |buffer|
      invariant r == Checksum(checksum, buffer[..index])
    {
      assert buffer[..index + 1][..index] == buffer[..index];
      r := Xor(r, Low(buffer[index]));
      ghost var entered := r;
      for bit := 0 to 8
        invariant r == Shifts(entered, bit)
      {
        r := if r[0] then Xor(ShiftRight(r), POLYNOMIAL) else ShiftRight(r);
      }
    }
    assert buffer[..|buffer|] == buffer;
  }

  /** Accumulating block by block is the checksum of the blocks put end to end. */
  lemma {:induction false} ChecksumAppend(c: Word, a: seq<byte>, b: seq<byte>)
    ensures Checksum(c, a + b) == Checksum(Checksum(c, a), b)
  {
    if b == [] {
      assert a + b == a;
    } else {
      assert (a + b)[..|a + b| - 1] == a + b[..|b| - 1];
      ChecksumAppend(c, a, b[..|b| - 1]);
    }
  }

  // ---------------------------------------------------------------- linear and bijective

  lemma ShiftLinear(a: Word, b: Word)
    ensures Shift(Xor(a, b)) == Xor(Shift(a), Shift(b))
  {
  }

  lemma {:induction false} ShiftsLinear(a: Word, b: Word, n: nat)
    ensures Shifts(Xor(a, b), n) == Xor(Shifts(a, n), Shifts(b, n))
  {
    if n > 0 {
      ShiftsLinear(a, b, n - 1);
      ShiftLinear(Shifts(a, n - 1), Shifts(b, n - 1));
    }
  }

  /** The inverse of Shift: the polynomial's top bit tells which branch was taken. */
  function Unshift(c: Word): Word {
    if c[31] then [true] + Xor(c, POLYNOMIAL)[..31] else [false] + c[..31]
  }

  lemma UnshiftShift(c: Word)
    ensures Unshift(Shift(c)) == c
  {
  }

  lemma ShiftUnshift(c: Word)
    ensures Shift(Unshift(c)) == c
  {
  }

  function Unshifts(c: Word, n: nat): Word
    decreases n
  {
    if n == 0 then c else Unshifts(Unshift(c), n - 1)
  }

  lemma {:induction false} UnshiftsShifts(c: Word, n: nat)
    ensures Unshifts(Shifts(c, n), n) == c
  {
    if n > 0 {
      UnshiftShift(Shifts(c, n - 1));
      UnshiftsShifts(c, n - 1);
    }
  }

  lemma {:induction false} ShiftsUnshifts(c: Word, n: nat)
    ensures Shifts(Unshifts(c, n), n) == c
    decreases n
  {
    if n > 0 {
      ShiftsUnshifts(Unshift(c), n - 1);
      ShiftUnshift(c);
    }
  }

  lemma XorLaws(a: Word, b: Word)
    ensures Xor(Xor(a, b), b) == a
    ensures Xor(a, b) == Zero() <==> a == b
    ensures Xor(Zero(), a) == a
  {
  }

  /** The state before the data, recovered from the state after it. */
  function Unchecksum(c: Word, data: seq<byte>): Word
    decreases |data|
  {
    if data == [] then c
    else Unchecksum(Xor(Unshifts(c, 8), Low(data[|data| - 1])), data[..|data| - 1])
  }

  /** For fixed data the update is a bijection of the 32-bit state. */
  lemma {:induction false} ChecksumBijective(c: Word, data: seq<byte>)
    ensures Unchecksum(Checksum(c, data), data) == c
    ensures Checksum(Unchecksum(c, data), data) == c
    decreases |data|
  {
    if data != [] {
      var before, b := data[..|data| - 1], Low(data[|data| - 1]);
      UnshiftsShifts(Xor(Checksum(c, before), b), 8);
      XorLaws(Checksum(c, before), b);
      ChecksumBijective(c, before);
      ShiftsUnshifts(c, 8);
      XorLaws(Unshifts(c, 8), b);
      ChecksumBijective(Xor(Unshifts(c, 8), b), before);
    }
  }

  /** The checksum of a sequence of register inputs, which need not be single bytes. */
  function Feed(c: Word, inputs: seq<Word>): Word {
    if inputs == [] then c else Absorb(Feed(c, inputs[..|inputs| - 1]), inputs[|inputs| - 1])
  }

  function Difference(a: seq<byte>, b: seq<byte>): (d: seq<Word>)
    requires |a| == |b|
    ensures |d| == |a|
  {
    seq(|a|, i requires 0 <= i < |a| => Xor(Low(a[i]), Low(b[i])))
  }

  lemma XorExchange(p: Word, x: Word, q: Word, y: Word)
    ensures Xor(Xor(p, x), Xor(q, y)) == Xor(Xor(p, q), Xor(x, y))
  {
  }

  /** The checksum is linear in state and data together: two checksums differ by what the
      difference of their states and data leads to. */
  lemma {:induction false} ChecksumLinear(c: Word, d: Word, a: seq<byte>, b: seq<byte>)
    requires |a| == |b|
    ensures Xor(Checksum(c, a), Checksum(d, b)) == Feed(Xor(c, d), Difference(a, b))
  {
    if a != [] {
      var a', b' := a[..|a| - 1], b[..|b| - 1];
      var x, y := Low(a[|a| - 1]), Low(b[|b| - 1]);
      ChecksumLinear(c, d, a', b');
      assert Difference(a, b)[..|a| - 1] == Difference(a', b');
      XorExchange(Checksum(c, a'), x, Checksum(d, b'), y);
      ShiftsLinear(Xor(Checksum(c, a'), x), Xor(Checksum(d, b'), y), 8);
    }
  }

  // ---------------------------------------------------------------- bursts

  /** While the low bits are zero, shifting only moves the word down. */
  lemma {:induction false} LowZerosShiftOut(w: Word, n: nat)
    requires n <= 32 && forall i :: 0 <= i < n ==> !w[i]
    ensures Shifts(w, n) == w[n..] + seq(n, _ => false)
  {
    if n > 0 {
      LowZerosShiftOut(w, n - 1);
      assert !Shifts(w, n - 1)[0];
    }
  }

  lemma {:induction false} ShiftsAdd(c: Word, m: nat, n: nat)
    ensures Shifts(Shifts(c, m), n) == Shifts(c, m + n)
  {
    if n > 0 {
      ShiftsAdd(c, m, n - 1);
    }
  }

  predicate IsByte(w: Word) {
    forall i :: 8 <= i < 32 ==> !w[i]
  }

  /** The low byte of `w` moved up to bits at .. at + 7. */
  function Place(w: Word, at: nat): Word {
    seq(32, i requires 0 <= i < 32 => at <= i < at + 8 && w[i - at])
  }

  /** Absorbing one more byte is the same as having placed it `n` bits higher at the start. */
  lemma AbsorbPlaced(w: Word, n: nat, b: Word)
    requires n <= 24 && IsByte(b)
    ensures Absorb(Shifts(w, n), b) == Shifts(Xor(w, Place(b, n)), n + 8)
  {
    LowZerosShiftOut(Place(b, n), n);
    assert Shifts(Place(b, n), n) == b;
    ShiftsLinear(w, Place(b, n), n);
    ShiftsAdd(Xor(w, Place(b, n)), n, 8);
  }

  function Pack(b0: Word, b1: Word, b2: Word, b3: Word): Word {
    Xor(Xor(Xor(b0, Place(b1, 8)), Place(b2, 16)), Place(b3, 24))
  }

  /** From the zero state, four bytes act as one packed word. */
  lemma FourBytes(b0: Word, b1: Word, b2: Word, b3: Word)
    requires IsByte(b0) && IsByte(b1) && IsByte(b2) && IsByte(b3)
    ensures Absorb(Absorb(Absorb(Absorb(Zero(), b0), b1), b2), b3) == Shifts(Pack(b0, b1, b2, b3), 32)
  {
    XorLaws(b0, b0);
    AbsorbPlaced(b0, 8, b1);
    var w1 := Xor(b0, Place(b1, 8));
    AbsorbPlaced(w1, 16, b2);
    AbsorbPlaced(Xor(w1, Place(b2, 16)), 24, b3);
  }

  lemma FeedFour(c: Word, d: seq<Word>)
    requires |d| == 4
    ensures Feed(c, d) == Absorb(Absorb(Absorb(Absorb(c, d[0]), d[1]), d[2]), d[3])
  {
    assert d[..3][..2] == d[..2] && d[..2][..1] == d[..1] && d[..1][..0] == [];
    assert Feed(c, d[..1]) == Absorb(c, d[0]);
    assert Feed(c, d[..2]) == Absorb(Feed(c, d[..1]), d[1]);
    assert Feed(c, d[..3]) == Absorb(Feed(c, d[..2]), d[2]);
  }

  /** A packed word is zero only if its four bytes are. */
  lemma PackZero(b0: Word, b1: Word, b2: Word, b3: Word)
    requires IsByte(b0) && IsByte(b1) && IsByte(b2) && IsByte(b3)
    requires Pack(b0, b1, b2, b3) == Zero()
    ensures b0 == Zero() && b1 == Zero() && b2 == Zero() && b3 == Zero()
  {
    var p := Pack(b0, b1, b2, b3);
    forall i | 0 <= i < 8 ensures !b0[i] && !b1[i] && !b2[i] && !b3[i] {
      assert p[i] == b0[i] && p[i + 8] == b1[i] && p[i + 16] == b2[i] && p[i + 24] == b3[i];
    }
  }

  lemma {:induction false} ShiftsOfZero(n: nat)
    ensures Shifts(Zero(), n) == Zero()
  {
    if n > 0 {
      ShiftsOfZero(n - 1);
    }
  }

  /** A difference confined to four consecutive bytes changes the final checksum, whatever
      precedes and follows it. */
  lemma BurstChangesChecksum(start: Word, prefix: seq<byte>, a: seq<byte>, b: seq<byte>, suffix: seq<byte>)
    requires |a| == |b| == 4 && a != b
    ensures Checksum(start, prefix + a + suffix) != Checksum(start, prefix + b + suffix)
  {
    var c := Checksum(start, prefix);
    ChecksumAppend(start, prefix + a, suffix);
    ChecksumAppend(start, prefix + b, suffix);
    ChecksumAppend(start, prefix, a);
    ChecksumAppend(start, prefix, b);
    FourBytesDiffer(c, a, b);
    ChecksumBijective(Checksum(c, a), suffix);
    ChecksumBijective(Checksum(c, b), suffix);
  }

  lemma ShiftsToZero(w: Word, n: nat)
    requires Shifts(w, n) == Zero()
    ensures w == Zero()
  {
    UnshiftsShifts(w, n);
    UnshiftsShifts(Zero(), n);
    ShiftsOfZero(n);
  }

  /** Only four zero bytes lead from the zero state back to it. */
  lemma FeedToZero(d: seq<Word>, b0: Word, b1: Word, b2: Word, b3: Word)
    requires d == [b0, b1, b2, b3] && Feed(Zero(), d) == Zero()
    requires IsByte(b0) && IsByte(b1) && IsByte(b2) && IsByte(b3)
    ensures b0 == Zero() && b1 == Zero() && b2 == Zero() && b3 == Zero()
  {
    FeedFour(Zero(), d);
    FourBytes(b0, b1, b2, b3);
    ShiftsToZero(Pack(b0, b1, b2, b3), 32);
    PackZero(b0, b1, b2, b3);
  }

  lemma DifferenceIsZero(x: byte, y: byte)
    requires Xor(Low(x), Low(y)) == Zero()
    ensures x == y
  {
    XorLaws(Low(x), Low(y));
    LowInjective(x, y);
  }

  lemma DifferenceFeeds(a: seq<byte>, b: seq<byte>)
    requires |a| == |b| == 4 && Feed(Zero(), Difference(a, b)) == Zero()
    ensures a == b
  {
    var d := Difference(a, b);
    FeedToZero(d, d[0], d[1], d[2], d[3]);
    forall i | 0 <= i < 4 ensures a[i] == b[i] {
      DifferenceIsZero(a[i], b[i]);
    }
  }

  lemma FourBytesDiffer(c: Word, a: seq<byte>, b: seq<byte>)
    requires |a| == |b| == 4 && a != b
    ensures Checksum(c, a) != Checksum(c, b)
  {
    if Feed(Zero(), Difference(a, b)) == Zero() {
      DifferenceFeeds(a, b);
    }
    ChecksumLinear(c, c, a, b);
    XorLaws(c, c);
    XorLaws(Checksum(c, a), Checksum(c, b));
  }

  /** Equal-length data that differ only within four consecutive bytes never share a
      checksum, at any length. */
  lemma BurstDetected(start: Word, x: seq<byte>, y: seq<byte>, at: nat)
    requires |x| == |y| && x != y && at + 4 <= |x|
    requires forall i :: 0 <= i < |x| && !(at <= i < at + 4) ==> x[i] == y[i]
    ensures Checksum(start, x) != Checksum(start, y)
  {
    var a, b := x[at..at + 4], y[at..at + 4];
    assert x == x[..at] + a + x[at + 4..];
    assert y == x[..at] + b + x[at + 4..];
    BurstChangesChecksum(start, x[..at], a, b, x[at + 4..]);
  }
}
