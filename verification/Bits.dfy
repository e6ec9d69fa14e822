/** Exclusive or on numbers, bit by bit, and powers of two. */
module Bits {

  function Xor(a: nat, b: nat): (r: nat)
    decreases a + b
  {
    if a == 0 && b == 0 then 0 else 2 * Xor(a / 2, b / 2) + (if a % 2 == b % 2 then 0 else 1)
  }

  function Power2(n: nat): (r: nat)
    ensures r > 0
  {
    if n == 0 then 1 else 2 * Power2(n - 1)
  }

  lemma XorStep(a: nat, b: nat)
    ensures Xor(a, b) / 2 == Xor(a / 2, b / 2)
    ensures Xor(a, b) % 2 == (if a % 2 == b % 2 then 0 else 1)
  {}

  lemma {:induction false} XorCommutes(a: nat, b: nat)
    ensures Xor(a, b) == Xor(b, a)
    decreases a + b
  {
    if a != 0 || b != 0 {
      XorCommutes(a / 2, b / 2);
    }
  }

  lemma {:induction false} XorZero(a: nat)
    ensures Xor(a, 0) == a && Xor(0, a) == a
  {
    if a != 0 {
      XorZero(a / 2);
    }
  }

  lemma {:induction false} XorAssociates(a: nat, b: nat, c: nat)
    ensures Xor(Xor(a, b), c) == Xor(a, Xor(b, c))
    decreases a + b + c
  {
    if a != 0 || b != 0 || c != 0 {
      XorStep(a, b);
      XorStep(b, c);
      XorStep(Xor(a, b), c);
      XorStep(a, Xor(b, c));
      XorAssociates(a / 2, b / 2, c / 2);
    }
  }

  lemma {:induction false} XorSelf(a: nat)
    ensures Xor(a, a) == 0
  {
    if a != 0 {
      XorSelf(a / 2);
    }
  }

  lemma XorInvolution(a: nat, b: nat)
    ensures Xor(Xor(a, b), b) == a
  {}

  lemma {:induction false} XorRange(n: nat, a: nat, b: nat)
    requires a < Power2(n) && b < Power2(n)
    ensures Xor(a, b) < Power2(n)
  {
    if n > 0 && (a != 0 || b != 0) {
      XorRange(n - 1, a / 2, b / 2);
    }
  }

  /** Against all ones it is the complement. */
  lemma {:induction false} XorOnes(n: nat, a: nat)
    requires a < Power2(n)
    ensures Xor(a, Power2(n) - 1) == Power2(n) - 1 - a
  {
    if n > 0 {
      XorOnes(n - 1, a / 2);
    }
  }

  lemma XorMiddle(a: nat, b: nat, c: nat, d: nat)
    ensures Xor(Xor(a, b), Xor(c, d)) == Xor(Xor(a, c), Xor(b, d))
  {
    hide Xor;
    XorAssociates(a, b, Xor(c, d));
    XorAssociates(b, c, d);
    XorCommutes(b, c);
    XorAssociates(c, b, d);
    XorAssociates(a, c, Xor(b, d));
  }

  lemma WordRange()
    ensures Power2(8) == 256 && Power2(32) == 0x1_0000_0000
  {
    assert Power2(4) == 16;
    assert Power2(8) == 256;
    assert Power2(12) == 4096;
    assert Power2(16) == 65536;
    assert Power2(20) == 0x10_0000;
    assert Power2(24) == 0x100_0000;
    assert Power2(28) == 0x1000_0000;
  }

  // ---------------------------------------------------------------- machine bytes

  function Value(x: bv8): (r: nat)
    ensures r < 256
  {
    x as int
  }

  /** The machine byte of a value, from its bits. */
  function Octet(a: nat): bv8
    requires a < 256
  {
    if a == 0 then 0 else if a % 2 == 1 then (Octet(a / 2) << 1) | 1 else Octet(a / 2) << 1
  }

  function Half(x: bv8): bv8 { x >> 1 }

  function Both(x: bv8, y: bv8): bv8 { x ^ y }

  lemma ShiftedValue(x: bv8)
    requires Value(x) < 128
    ensures Value(x << 1) == 2 * Value(x)
  {}

  lemma ShiftedOddValue(x: bv8)
    requires Value(x) < 128
    ensures Value((x << 1) | 1) == 2 * Value(x) + 1
  {}

  lemma ValueIsInjective(x: bv8, y: bv8)
    ensures Value(x) == Value(y) ==> x == y
  {}

  lemma ZeroValue()
    ensures Value(0) == 0
  {}

  lemma {:induction false} ValueOfOctet(a: nat)
    requires a < 256
    ensures Value(Octet(a)) == a
  {
    hide Value;
    if a == 0 {
      ZeroValue();
    } else {
      ValueOfOctet(a / 2);
      ShiftedValue(Octet(a / 2));
      ShiftedOddValue(Octet(a / 2));
    }
  }

  lemma OctetOfValue(x: bv8)
    ensures Octet(Value(x)) == x
  {
    hide *;
    ValueOfOctet(Value(x));
    ValueIsInjective(Octet(Value(x)), x);
  }

  lemma HalfValue(x: bv8)
    ensures Value(Half(x)) == Value(x) / 2
  {}

  lemma BothHalves(x: bv8, y: bv8)
    ensures Half(Both(x, y)) == Both(Half(x), Half(y))
  {}

  lemma Parity(x: bv8)
    ensures Value(x) % 2 == if x & 1 == 0 then 0 else 1
  {}

  lemma BothParity(x: bv8, y: bv8)
    ensures Both(x, y) & 1 == 0 <==> (x & 1 == 0 <==> y & 1 == 0)
  {}

  lemma BothMeans(x: bv8, y: bv8)
    ensures Both(x, y) == x ^ y
  {}

  lemma BothNothing(x: bv8, y: bv8)
    ensures Value(x) == 0 && Value(y) == 0 ==> Value(Both(x, y)) == 0
  {}

  lemma {:induction false} XorIsBoth(x: bv8, y: bv8)
    ensures Xor(Value(x), Value(y)) == Value(Both(x, y))
    decreases Value(x) + Value(y)
  {
    hide Value, Half, Both;
    if Value(x) + Value(y) > 0 {
      HalfValue(x);
      HalfValue(y);
      HalfValue(Both(x, y));
      BothHalves(x, y);
      Parity(x);
      Parity(y);
      Parity(Both(x, y));
      BothParity(x, y);
      XorIsBoth(Half(x), Half(y));
    } else {
      BothNothing(x, y);
    }
  }

  /** On bytes it is the machine's exclusive or. */
  lemma XorIsBitwise(a: nat, b: nat)
    requires a < 256 && b < 256
    ensures Xor(a, b) < 256 && Octet(Xor(a, b)) == Octet(a) ^ Octet(b)
  {
    hide *;
    BothMeans(Octet(a), Octet(b));
    ValueOfOctet(a);
    ValueOfOctet(b);
    XorIsBoth(Octet(a), Octet(b));
    OctetOfValue(Both(Octet(a), Octet(b)));
  }

  lemma OctetBits(b: nat)
    requires b < 256
    ensures b >= 128 <==> Octet(b) & 0x80 != 0
    ensures (b / 16) % 8 != 0 <==> Octet(b) & 0x70 != 0
    ensures b % 16 == Value(Octet(b) & 0x0f)
  {
    hide *;
    ValueOfOctet(b);
    TopBit(Octet(b));
    MiddleBits(Octet(b));
    LowBits(Octet(b));
  }

  lemma TopBit(x: bv8)
    ensures Value(x) >= 128 <==> x & 0x80 != 0
  {}

  lemma MiddleBits(x: bv8)
    ensures (Value(x) / 16) % 8 != 0 <==> x & 0x70 != 0
  {}

  lemma LowBits(x: bv8)
    ensures Value(x) % 16 == Value(x & 0x0f)
  {}
}
