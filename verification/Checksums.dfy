/** The PNG checksum: byte by byte through a table, against one bit of the data at a time. */
module Checksums {
  import opened Basics
  import opened Bits

  const POLYNOMIAL: nat := 0xedb8_8320
  const LIMIT: nat := 0x1_0000_0000

  type Word = x: nat | x < LIMIT

  function XorWord(a: Word, b: Word): Word {
    WordRange();
    XorRange(32, a, b);
    Xor(a, b)
  }

  function Feedback(bit: nat): Word {
    if bit == 0 then 0 else POLYNOMIAL
  }

  /** One turn of the table's inner loop. */
  function Shifted(c: Word): Word {
    XorWord(c / 2, Feedback(c % 2))
  }

  function Shift(c: Word, n: nat): Word
    decreases n
  {
    if n == 0 then c else Shift(Shifted(c), n - 1)
  }

  // ------------------------------------------------------------ one data bit at a time

  /** The shift register takes in one bit of the data; the specification of the checksum. */
  function TakeBit(c: Word, bit: nat): Word {
    XorWord(c / 2, Feedback(if c % 2 == bit then 0 else 1))
  }

  /** The n low bits of a number, least significant first. */
  function TakeBits(c: Word, data: nat, n: nat): Word
    decreases n
  {
    if n == 0 then c else TakeBits(TakeBit(c, data % 2), data / 2, n - 1)
  }

  function TakeBytes(c: Word, data: Bytes): Word
    decreases |data|
  {
    if data == [] then c else TakeBytes(TakeBits(c, data[0], 8), data[1..])
  }

  function BitSerialCrc(data: Bytes): Word {
    XorWord(TakeBytes(LIMIT - 1, data), LIMIT - 1)
  }

  // ----------------------------------------------------------------------- linearity

  function Halved(c: nat, n: nat): nat
    decreases n
  {
    if n == 0 then c else Halved(c / 2, n - 1)
  }

  function LowBits(c: nat, n: nat): (r: nat)
    ensures r <= c
    decreases n
  {
    if n == 0 then 0 else 2 * LowBits(c / 2, n - 1) + c % 2
  }

  lemma FeedbackIsLinear(a: nat, b: nat)
    requires a < 2 && b < 2
    ensures Feedback(if a == b then 0 else 1) == Xor(Feedback(a), Feedback(b))
  {
    XorZero(POLYNOMIAL);
    XorZero(0);
    XorSelf(POLYNOMIAL);
  }

  lemma ShiftedIsLinear(a: Word, b: Word)
    ensures Shifted(XorWord(a, b)) == XorWord(Shifted(a), Shifted(b))
  {
    XorStep(a, b);
    FeedbackIsLinear(a % 2, b % 2);
    XorMiddle(a / 2, b / 2, Feedback(a % 2), Feedback(b % 2));
    hide Xor, Feedback;
  }

  lemma {:induction false} ShiftIsLinear(a: Word, b: Word, n: nat)
    ensures Shift(XorWord(a, b), n) == XorWord(Shift(a, n), Shift(b, n))
    decreases n
  {
    if n > 0 {
      ShiftedIsLinear(a, b);
      hide XorWord, Shifted;
      ShiftIsLinear(Shifted(a), Shifted(b), n - 1);
    }
  }

  lemma {:induction false} HalvedRange(c: Word, n: nat)
    ensures Halved(c, n) < LIMIT
    decreases n
  {
    if n > 0 {
      HalvedRange(c / 2, n - 1);
    }
  }

  lemma ShiftHead(c: Word, n: nat)
    requires n > 0
    ensures Shift(c, n) == XorWord(Shift(c / 2, n - 1), Shift(Feedback(c % 2), n - 1))
  {
    ShiftIsLinear(c / 2, Feedback(c % 2), n - 1);
  }

  lemma BitsHead(c: nat, n: nat)
    requires n > 0
    ensures Halved(c, n) == Halved(c / 2, n - 1)
    ensures LowBits(c, n) / 2 == LowBits(c / 2, n - 1) && LowBits(c, n) % 2 == c % 2
  {}

  /** Shifting n times mixes only the n low bits; the others just move down. */
  lemma {:induction false} ShiftSplits(c: Word, n: nat)
    ensures Halved(c, n) < LIMIT
    ensures Shift(c, n) == XorWord(Halved(c, n), Shift(LowBits(c, n), n))
    decreases n
  {
    HalvedRange(c, n);
    if n == 0 {
      XorZero(c);
    } else {
      hide *;
      var low := LowBits(c, n);
      BitsHead(c, n);
      ShiftHead(c, n);
      ShiftHead(low, n);
      ShiftSplits(c / 2, n - 1);
      Regroup(Halved(c / 2, n - 1), Shift(low / 2, n - 1), Shift(Feedback(c % 2), n - 1));
    }
  }

  lemma Regroup(a: Word, b: Word, c: Word)
    ensures XorWord(XorWord(a, b), c) == XorWord(a, XorWord(b, c))
  {
    XorAssociates(a, b, c);
  }

  lemma DivideTwice(c: nat, p: nat)
    requires p > 0
    ensures c / 2 / p == c / (2 * p) && c % (2 * p) == 2 * (c / 2 % p) + c % 2
  {
    var q, r := c / 2 / p, c / 2 % p;
    Doubled(c, p, q, r);
    Quotient(c, 2 * p, q, 2 * r + c % 2);
  }

  lemma Doubled(c: nat, p: nat, q: nat, r: nat)
    requires c / 2 == q * p + r
    ensures c == q * (2 * p) + (2 * r + c % 2)
  {
    assert q * (2 * p) == 2 * (q * p);
  }

  lemma Quotient(c: nat, p: nat, q: nat, r: nat)
    requires r < p && c == q * p + r
    ensures c / p == q && c % p == r
  {
    QuotientIsUnique(c / p, c % p, q, r, p);
  }

  lemma {:induction false} BitsByDivision(c: nat, n: nat)
    ensures Halved(c, n) == c / Power2(n) && LowBits(c, n) == c % Power2(n)
    decreases n
  {
    if n > 0 {
      BitsByDivision(c / 2, n - 1);
      DivideTwice(c, Power2(n - 1));
    }
  }

  lemma EightBits(c: nat)
    ensures Halved(c, 8) == c / 256 && LowBits(c, 8) == c % 256
  {
    WordRange();
    BitsByDivision(c, 8);
  }

  /** The register with the data already folded in shifts to the register that takes the data in bit by bit. */
  lemma {:induction false} TakeBitsIsShift(c: Word, data: Word, n: nat)
    ensures Halved(data, n) < LIMIT
    ensures Shift(XorWord(c, data), n) == XorWord(TakeBits(c, data, n), Halved(data, n))
    decreases n
  {
    HalvedRange(data, n);
    if n > 0 {
      TakeBitIsShifted(c, data);
      hide XorWord, Shifted, TakeBit;
      TakeBitsIsShift(TakeBit(c, data % 2), data / 2, n - 1);
    }
  }

  lemma TakeBitIsShifted(c: Word, data: Word)
    ensures Shifted(XorWord(c, data)) == XorWord(TakeBit(c, data % 2), data / 2)
  {
    var f := Feedback(if c % 2 == data % 2 then 0 else 1);
    XorStep(c, data);
    XorAssociates(c / 2, f, data / 2);
    XorCommutes(f, data / 2);
    XorAssociates(c / 2, data / 2, f);
    hide Xor;
  }

  // --------------------------------------------------------------------- the table

  function Table(): (t: seq<Word>)
    ensures |t| == 256
  {
    seq(256, i requires 0 <= i < 256 => Shift(i, 8))
  }

  function Updated(c: Word, byte: Byte): Word {
    XorWord(c / 256, Table()[XorWord(c, byte) % 256])
  }

  function UpdatedAll(c: Word, data: Bytes): Word
    decreases |data|
  {
    if data == [] then c else UpdatedAll(Updated(c, data[0]), data[1..])
  }

  /** One look-up does what eight data bits do. */
  lemma UpdateIsEightBits(c: Word, byte: Byte)
    ensures Updated(c, byte) == TakeBits(c, byte, 8)
  {
    var x := XorWord(c, byte);
    TakeBitsIsShift(c, byte, 8);
    ShiftSplits(x, 8);
    EightBits(byte);
    EightBits(x);
    UpperBits(c, byte);
    hide Xor, Shift, TakeBits, Halved, LowBits;
    XorZero(TakeBits(c, byte, 8));
    assert Table()[x % 256] == Shift(x % 256, 8);
  }

  lemma UpperBits(c: Word, byte: Byte)
    ensures XorWord(c, byte) / 256 == c / 256
  {
    HalvedXor(c, byte, 8);
    EightBits(c);
    EightBits(byte);
    EightBits(Xor(c, byte));
    XorZero(c / 256);
    hide Xor, Halved, LowBits;
  }

  lemma {:induction false} HalvedXor(a: nat, b: nat, n: nat)
    ensures Halved(Xor(a, b), n) == Xor(Halved(a, n), Halved(b, n))
    decreases n
  {
    if n > 0 {
      XorStep(a, b);
      hide Xor;
      HalvedXor(a / 2, b / 2, n - 1);
    }
  }

  lemma {:induction false} UpdatesAreBitSerial(c: Word, data: Bytes)
    ensures UpdatedAll(c, data) == TakeBytes(c, data)
    decreases |data|
  {
    if data != [] {
      UpdateIsEightBits(c, data[0]);
      hide Updated, TakeBits;
      UpdatesAreBitSerial(Updated(c, data[0]), data[1..]);
    }
  }

  lemma {:induction false} UpdatedSnoc(c: Word, data: Bytes, last: Byte)
    ensures UpdatedAll(c, data + [last]) == Updated(UpdatedAll(c, data), last)
    decreases |data|
  {
    hide Updated;
    if data == [] {
      assert data + [last] == [last] && [last][1..] == [];
    } else {
      assert (data + [last])[0] == data[0] && (data + [last])[1..] == data[1..] + [last];
      UpdatedSnoc(Updated(c, data[0]), data[1..], last);
    }
  }

  method BuildTable() returns (table: seq<Word>)
    ensures table == Table()
  {
    hide Shift;
    table := [];
    for byte := 0 to 256
      invariant |table| == byte && forall i | 0 <= i < byte :: table[i] == Shift(i, 8)
    {
      var value := ShiftEight(byte);
      table := table + [value];
    }
  }

  method ShiftEight(byte: Byte) returns (value: Word)
    ensures value == Shift(byte, 8)
  {
    value := byte;
    for bit := 0 to 8
      invariant Shift(value, 8 - bit) == Shift(byte, 8)
    {
      value := Shifted(value);
    }
  }

  /** The program's loop over the table computes the bit-serial checksum. */
  method Crc32(table: seq<Word>, bytes: Bytes) returns (crc: Word)
    requires table == Table()
    ensures crc == BitSerialCrc(bytes)
  {
    hide Updated, UpdatedAll, TakeBytes;
    crc := LIMIT - 1;
    assert UpdatedAll(crc, bytes[..0]) == crc by { NoUpdates(crc); }
    for i := 0 to |bytes|
      invariant crc == UpdatedAll(LIMIT - 1, bytes[..i])
    {
      UpdateOnce(crc, bytes[i]);
      UpdatedSnoc(LIMIT - 1, bytes[..i], bytes[i]);
      assert bytes[..i + 1] == bytes[..i] + [bytes[i]];
      crc := XorWord(crc / 256, table[XorWord(crc, bytes[i]) % 256]);
    }
    assert bytes[..|bytes|] == bytes;
    UpdatesAreBitSerial(LIMIT - 1, bytes);
    crc := XorWord(crc, LIMIT - 1);
  }

  lemma NoUpdates(c: Word)
    ensures UpdatedAll(c, []) == c
  {}

  lemma UpdateOnce(c: Word, byte: Byte)
    ensures Updated(c, byte) == XorWord(c / 256, Table()[XorWord(c, byte) % 256])
  {}

  // ------------------------------------------------------------- the standard's terms

  /** The polynomial of section 3.4 of RFC 2083 without its leading term: x to the k stands in bit 31 - k. */
  lemma PolynomialIsReflected()
    ensures
      POLYNOMIAL
      == Power2(31 - 26) + Power2(31 - 23) + Power2(31 - 22) + Power2(31 - 16) + Power2(31 - 12) + Power2(31 - 11)
         + Power2(31 - 10) + Power2(31 - 8) + Power2(31 - 7) + Power2(31 - 5) + Power2(31 - 4) + Power2(31 - 2)
         + Power2(31 - 1) + Power2(31 - 0)
  {
    assert Power2(5) == 0x20 && Power2(8) == 0x100 && Power2(9) == 0x200;
    assert Power2(12) == 0x1000 && Power2(15) == 0x8000;
    assert Power2(18) == 0x4_0000 && Power2(19) == 0x8_0000 && Power2(20) == 0x10_0000 && Power2(21) == 0x20_0000;
    assert Power2(23) == 0x80_0000 && Power2(24) == 0x100_0000;
    assert Power2(26) == 0x400_0000 && Power2(27) == 0x800_0000;
    assert Power2(29) == 0x2000_0000 && Power2(30) == 0x4000_0000 && Power2(31) == 0x8000_0000;
  }

  /** The register starts with all ones, and its complement is the checksum. */
  lemma ChecksumIsComplement(data: Bytes)
    ensures BitSerialCrc(data) == 0xffff_ffff - TakeBytes(0xffff_ffff, data)
  {
    WordRange();
    XorOnes(32, TakeBytes(0xffff_ffff, data));
    hide TakeBytes, Xor;
  }
}
