/** Numbers as bytes, most significant byte first. */
module Bytes {

  type Byte = bv8

  function Bit(digit: nat, place: Byte): Byte {
    if digit == 1 then place else 0
  }

  function FromDigits(d7: nat, d6: nat, d5: nat, d4: nat, d3: nat, d2: nat, d1: nat, d0: nat): Byte {
    Bit(d7, 0x80) | Bit(d6, 0x40) | Bit(d5, 0x20) | Bit(d4, 0x10) | Bit(d3, 0x08) | Bit(d2, 0x04) | Bit(d1, 0x02) | Bit(d0, 0x01)
  }

  /** The byte with the binary digits of a number. */
  function ByteOf(n: nat): Byte
    requires n < 256
  {
    FromDigits(n / 128 % 2, n / 64 % 2, n / 32 % 2, n / 16 % 2, n / 8 % 2, n / 4 % 2, n / 2 % 2, n % 2)
  }

  function DigitAt(b: Byte, place: Byte): nat {
    if (b & place) != 0 then 1 else 0
  }

  function NumberOf(b: Byte): nat {
    128 * DigitAt(b, 0x80) + 64 * DigitAt(b, 0x40) + 32 * DigitAt(b, 0x20) + 16 * DigitAt(b, 0x10)
    + 8 * DigitAt(b, 0x08) + 4 * DigitAt(b, 0x04) + 2 * DigitAt(b, 0x02) + DigitAt(b, 0x01)
  }

  lemma DigitsStay(d7: nat, d6: nat, d5: nat, d4: nat, d3: nat, d2: nat, d1: nat, d0: nat)
    requires d7 < 2 && d6 < 2 && d5 < 2 && d4 < 2 && d3 < 2 && d2 < 2 && d1 < 2 && d0 < 2
    ensures var b := FromDigits(d7, d6, d5, d4, d3, d2, d1, d0);
            && DigitAt(b, 0x80) == d7 && DigitAt(b, 0x40) == d6 && DigitAt(b, 0x20) == d5 && DigitAt(b, 0x10) == d4
            && DigitAt(b, 0x08) == d3 && DigitAt(b, 0x04) == d2 && DigitAt(b, 0x02) == d1 && DigitAt(b, 0x01) == d0
  {}

  lemma Halves(n: nat)
    requires n < 256
    ensures n / 2 / 2 == n / 4 && n / 4 / 2 == n / 8 && n / 8 / 2 == n / 16 && n / 16 / 2 == n / 32
            && n / 32 / 2 == n / 64 && n / 64 / 2 == n / 128 && n / 128 < 2
  {}

  lemma ByteOfNumber(n: nat)
    requires n < 256
    ensures NumberOf(ByteOf(n)) == n
  {
    DigitsStay(n / 128 % 2, n / 64 % 2, n / 32 % 2, n / 16 % 2, n / 8 % 2, n / 4 % 2, n / 2 % 2, n % 2);
    hide FromDigits, DigitAt;
    Halves(n);
  }

  /** A number in so many bytes. */
  function BigEndian(n: nat, size: nat): (b: seq<Byte>)
    ensures |b| == size
  {
    if size == 0 then [] else BigEndian(n / 256, size - 1) + [ByteOf(n % 256)]
  }

  function FromBigEndian(b: seq<Byte>): nat {
    if b == [] then 0 else 256 * FromBigEndian(b[..|b| - 1]) + NumberOf(b[|b| - 1])
  }

  predicate FitsIn(n: nat, size: nat) {
    if size == 0 then n == 0 else FitsIn(n / 256, size - 1)
  }

  lemma {:induction false} BigEndianRoundTrip(n: nat, size: nat)
    requires FitsIn(n, size)
    ensures FromBigEndian(BigEndian(n, size)) == n
  {
    hide ByteOf, NumberOf;
    if size > 0 {
      BigEndianRoundTrip(n / 256, size - 1);
      var b := BigEndian(n, size);
      assert b[..|b| - 1] == BigEndian(n / 256, size - 1);
      ByteOfNumber(n % 256);
    }
  }

  function Power256(k: nat): nat {
    if k == 0 then 1 else 256 * Power256(k - 1)
  }

  lemma Factor256(q: nat, p: nat)
    ensures q * (256 * p) == 256 * (q * p)
  {}

  lemma SplitOff256(x: nat, m: nat)
    ensures (256 * x + m) / 256 == x + m / 256 && (256 * x + m) % 256 == m % 256
  {}

  lemma {:induction false} BigEndianParts(q: nat, m: nat, j: nat, k: nat)
    requires m < Power256(k)
    ensures BigEndian(q * Power256(k) + m, j + k) == BigEndian(q, j) + BigEndian(m, k)
    decreases k
  {
    hide ByteOf;
    if k > 0 {
      var x, n := q * Power256(k - 1), q * Power256(k) + m;
      Factor256(q, Power256(k - 1));
      SplitOff256(x, m);
      BigEndianParts(q, m / 256, j, k - 1);
      hide Power256;
      assert BigEndian(n, j + k) == BigEndian(x + m / 256, j + k - 1) + [ByteOf(m % 256)];
    }
  }

  lemma FourBytes(n: nat)
    ensures BigEndian(n, 4) == [ByteOf(n / 0x100_0000 % 256), ByteOf(n / 0x1_0000 % 256), ByteOf(n / 0x100 % 256), ByteOf(n % 256)]
  {
    assert n / 256 / 256 == n / 0x1_0000 && n / 256 / 256 / 256 == n / 0x100_0000;
    assert BigEndian(n / 0x100_0000 / 256, 0) == [];
    assert BigEndian(n / 0x100_0000, 1) == [ByteOf(n / 0x100_0000 % 256)];
    assert BigEndian(n / 0x1_0000, 2) == BigEndian(n / 0x100_0000, 1) + [ByteOf(n / 0x1_0000 % 256)];
    assert BigEndian(n / 0x100, 3) == BigEndian(n / 0x1_0000, 2) + [ByteOf(n / 0x100 % 256)];
  }
}
