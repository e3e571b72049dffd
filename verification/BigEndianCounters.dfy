/** Bytes as numbers, and fixed-width big-endian encodings of a block counter. */
module BigEndianCounters {
  type Byte = x: nat | x < 256

  type Bytes = seq<Byte>

  /** The last `size` base-256 digits of a counter, most significant first. */
  function BigEndian(counter: nat, size: nat): Bytes {
    if size == 0 then [] else BigEndian(counter / 256, size - 1) + [counter % 256]
  }

  function Power(size: nat): nat { if size == 0 then 1 else 256 * Power(size - 1) }

  /** Counters that fit have distinct encodings, so no two blocks of a stream hash the same input. */
  lemma {:induction false} CountersDiffer(a: nat, b: nat, size: nat)
    requires a < Power(size) && b < Power(size) && BigEndian(a, size) == BigEndian(b, size)
    ensures a == b
    decreases size
  {
    if size > 0 {
      var left, right := BigEndian(a, size), BigEndian(b, size);
      BigEndianSize(a / 256, size - 1);
      BigEndianSize(b / 256, size - 1);
      assert left[..size - 1] == BigEndian(a / 256, size - 1) && right[..size - 1] == BigEndian(b / 256, size - 1);
      assert left[size - 1] == a % 256 && right[size - 1] == b % 256;
      CountersDiffer(a / 256, b / 256, size - 1);
    }
  }

  lemma {:induction false} BigEndianSize(counter: nat, size: nat)
    ensures |BigEndian(counter, size)| == size
  {
    if size > 0 {
      BigEndianSize(counter / 256, size - 1);
    }
  }

  /** The number that big-endian bytes spell. */
  function Value(bytes: Bytes): nat {
    if bytes == [] then 0 else 256 * Value(bytes[..|bytes| - 1]) + bytes[|bytes| - 1]
  }

  /** A counter that fits reads back from its encoding, most significant byte first. */
  lemma {:induction false} CounterReadsBack(counter: nat, size: nat)
    requires counter < Power(size)
    ensures |BigEndian(counter, size)| == size && Value(BigEndian(counter, size)) == counter
  {
    if size > 0 {
      var bytes := BigEndian(counter, size);
      BigEndianSize(counter, size);
      CounterReadsBack(counter / 256, size - 1);
      assert bytes[..size - 1] == BigEndian(counter / 256, size - 1) && bytes[size - 1] == counter % 256;
    }
  }

  // ---------------------------------------------------------------- exclusive or of numbers

  function TwoTo(bits: nat): nat { if bits == 0 then 1 else 2 * TwoTo(bits - 1) }

  /** Bitwise exclusive or of the last `bits` binary digits. */
  function XorBits(a: nat, b: nat, bits: nat): nat {
    if bits == 0 then 0 else 2 * XorBits(a / 2, b / 2, bits - 1) + (if a % 2 == b % 2 then 0 else 1)
  }

  lemma {:induction false} XorFits(a: nat, b: nat, bits: nat)
    ensures XorBits(a, b, bits) < TwoTo(bits)
  {
    if bits > 0 {
      XorFits(a / 2, b / 2, bits - 1);
    }
  }

  lemma {:induction false} XorBitsTwice(a: nat, b: nat, bits: nat)
    requires a < TwoTo(bits)
    ensures XorBits(XorBits(a, b, bits), b, bits) == a
  {
    if bits > 0 {
      var x := XorBits(a, b, bits);
      assert x / 2 == XorBits(a / 2, b / 2, bits - 1);
      assert x % 2 == (if a % 2 == b % 2 then 0 else 1);
      XorBitsTwice(a / 2, b / 2, bits - 1);
    }
  }

  function XorByte(a: Byte, b: Byte): Byte {
    XorFits(a, b, 8);
    assert TwoTo(8) == 256 by { EightBits(); }
    XorBits(a, b, 8)
  }

  lemma EightBits()
    ensures TwoTo(8) == 256
  {
    assert TwoTo(4) == 16;
  }

  lemma XorByteTwice(a: Byte, b: Byte)
    ensures XorByte(XorByte(a, b), b) == a
  {
    EightBits();
    XorBitsTwice(a, b, 8);
  }

  /** Binary digit `i` of a number, counted from the lowest. */
  function Digit(a: nat, i: nat): nat { if i == 0 then a % 2 else Digit(a / 2, i - 1) }

  /** Each binary digit of an exclusive or is set exactly when the two digits differ. */
  lemma {:induction false} XorDigits(a: nat, b: nat, bits: nat, i: nat)
    requires i < bits
    ensures Digit(XorBits(a, b, bits), i) == (if Digit(a, i) != Digit(b, i) then 1 else 0)
  {
    var x := XorBits(a, b, bits);
    assert x / 2 == XorBits(a / 2, b / 2, bits - 1);
    DigitIsBit(a, i);
    DigitIsBit(b, i);
    if i > 0 {
      XorDigits(a / 2, b / 2, bits - 1, i - 1);
    }
  }

  lemma {:induction false} DigitIsBit(a: nat, i: nat)
    ensures Digit(a, i) < 2
  {
    if i > 0 {
      DigitIsBit(a / 2, i - 1);
    }
  }

  lemma XorByteDigits(a: Byte, b: Byte, i: nat)
    requires i < 8
    ensures Digit(XorByte(a, b), i) == (if Digit(a, i) != Digit(b, i) then 1 else 0)
  {
    XorDigits(a, b, 8, i);
  }
}
