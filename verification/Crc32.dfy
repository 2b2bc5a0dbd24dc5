/** The checksum of `crc32.h`: the executable byte and bit loops, and what they compute.

The specification is bit-serial.  One message bit is added into the low end of the register
and the register advances by `Step`.  `Checksum` runs it over all bits of the message, low
bit of each byte first, from an all-ones register, and complements the result.

Register arithmetic is proved once, for the named operations `Plus`, `Half` and `Odd`; the
proofs above that level hide their definitions.
*/
module Crc32 {
  import opened Gf2

  const POLYNOMIAL: bv32 := 0xEDB88320
  const ALL_ONES: bv32 := 0xFFFFFFFF

  /** The generator x^32 + x^26 + ... + 1 of CRC-32 (RFC 1952, section 8), by its exponents. */
  const GENERATOR: Poly := {32, 26, 23, 22, 16, 12, 11, 10, 8, 7, 5, 4, 2, 1, 0}

  /** The branch-free update of the inner loop, as written. */
  function Step(crc: bv32): bv32 {
    (crc >> 1) ^ (0xEDB88320 & (!(crc & 1) + 1))
  }

  /** The register that `Step` takes to y. */
  function Unstep(y: bv32): bv32 {
    if Top(y) then Double(Plus(y, POLYNOMIAL), true) else Double(y, false)
  }

  // ---------------------------------------------------------------- register arithmetic

  function Plus(x: bv32, y: bv32): bv32 { x ^ y }

  function Half(x: bv32): bv32 { x >> 1 }

  predicate Odd(x: bv32) { x & 1 == 1 }

  predicate Top(x: bv32) { x & 0x8000_0000 != 0 }

  function Bit(b: bool): bv32 { if b then 1 else 0 }

  function Double(x: bv32, low: bool): bv32 { (x << 1) | Bit(low) }

  lemma PlusZero(a: bv32)
    ensures Plus(a, a) == 0 && Plus(a, 0) == a && Plus(0, a) == a
  {
  }

  lemma PlusCommutes(a: bv32, b: bv32)
    ensures Plus(a, b) == Plus(b, a)
  {
  }

  lemma PlusAssociates(a: bv32, b: bv32, c: bv32)
    ensures Plus(Plus(a, b), c) == Plus(a, Plus(b, c))
  {
  }

  lemma PlusCancels(a: bv32, b: bv32)
    ensures Plus(Plus(a, b), b) == a
  {
  }

  lemma PlusExchange(a: bv32, b: bv32, c: bv32, d: bv32)
    ensures Plus(Plus(a, b), Plus(c, d)) == Plus(Plus(a, c), Plus(b, d))
  {
    hide Plus;
    PlusAssociates(Plus(a, b), c, d);
    PlusAssociates(a, b, c);
    PlusCommutes(b, c);
    PlusAssociates(a, c, b);
    PlusAssociates(Plus(a, c), b, d);
  }

  lemma HalfPlus(x: bv32, y: bv32)
    ensures Half(Plus(x, y)) == Plus(Half(x), Half(y))
  {
  }

  lemma OddPlus(x: bv32, y: bv32)
    ensures Odd(Plus(x, y)) <==> Odd(x) != Odd(y)
  {
  }

  lemma OddBit(b: bool)
    ensures Odd(Bit(b)) == b && Half(Bit(b)) == 0
  {
  }

  lemma HalfThenDouble(x: bv32)
    ensures Double(Half(x), Odd(x)) == x && !Top(Half(x))
  {
    assert x & 1 == 0 || x & 1 == 1;
  }

  lemma DoubleThenHalf(x: bv32, low: bool)
    ensures Odd(Double(x, low)) == low
    ensures !Top(x) ==> Half(Double(x, low)) == x
  {
    if low {
      DoubleThenHalfSet(x);
    } else {
      DoubleThenHalfClear(x);
    }
  }

  lemma DoubleThenHalfSet(x: bv32)
    ensures ((x << 1) | 1) & 1 == 1
    ensures x & 0x8000_0000 == 0 ==> ((x << 1) | 1) >> 1 == x
  {
  }

  lemma DoubleThenHalfClear(x: bv32)
    ensures ((x << 1) | 0) & 1 == 0
    ensures x & 0x8000_0000 == 0 ==> ((x << 1) | 0) >> 1 == x
  {
  }

  lemma TopOfPolynomial(x: bv32)
    ensures Top(Plus(x, POLYNOMIAL)) <==> !Top(x)
  {
  }

  lemma ZeroRegister()
    ensures !Odd(0) && Half(0) == 0 && !Top(0) && Bit(false) == 0
  {
  }

  // ---------------------------------------------------------------- the step is a linear bijection

  /** The arithmetic mask is a conditional: the polynomial is added when the low bit is set. */
  lemma StepIsConditionalXor(crc: bv32)
    ensures Step(crc) == if Odd(crc) then Plus(Half(crc), POLYNOMIAL) else Half(crc)
  {
    if !Odd(crc) {
      assert crc & 1 == 0;
    }
  }

  lemma StepLinear(x: bv32, y: bv32)
    ensures Step(Plus(x, y)) == Plus(Step(x), Step(y))
  {
    hide *;
    StepIsConditionalXor(x);
    StepIsConditionalXor(y);
    StepIsConditionalXor(Plus(x, y));
    HalfPlus(x, y);
    OddPlus(x, y);
    var carryX, carryY := if Odd(x) then POLYNOMIAL else 0, if Odd(y) then POLYNOMIAL else 0;
    PlusExchange(Half(x), carryX, Half(y), carryY);
    PlusZero(Half(x));
    PlusZero(Half(y));
    PlusZero(POLYNOMIAL);
    PlusZero(0);
    PlusZero(Plus(Half(x), Half(y)));
  }

  /** The one-bit step permutes the registers: no information is lost in a step. */
  lemma StepBijective(x: bv32, y: bv32)
    ensures Step(Unstep(y)) == y
    ensures Unstep(Step(x)) == x
  {
    hide Step, Plus, Half, Odd, Top, Double;
    HalfThenDouble(x);
    StepIsConditionalXor(x);
    TopOfPolynomial(Half(x));
    PlusCancels(Half(x), POLYNOMIAL);
    StepIsConditionalXor(Unstep(y));
    TopOfPolynomial(y);
    DoubleThenHalf(Plus(y, POLYNOMIAL), true);
    DoubleThenHalf(y, false);
    PlusCancels(y, POLYNOMIAL);
  }

  // ---------------------------------------------------------------- registers as polynomials

  /** The i-th lowest bit of a register. */
  predicate BitAt(r: bv32, i: nat) {
    if i == 0 then Odd(r) else BitAt(Half(r), i - 1)
  }

  /** Bit 31 of a register is the constant coefficient and bit 0 that of x^31. */
  function RegisterPoly(r: bv32): Poly {
    set e: nat | e < 32 && Coefficient(r, e)
  }

  predicate Coefficient(r: bv32, e: nat)
    requires e < 32
  {
    BitAt(r, 31 - e)
  }

  function Mask(i: nat): bv32 {
    match i
    case 0 => 0x1
    case 1 => 0x2
    case 2 => 0x4
    case 3 => 0x8
    case 4 => 0x10
    case 5 => 0x20
    case 6 => 0x40
    case 7 => 0x80
    case 8 => 0x100
    case 9 => 0x200
    case 10 => 0x400
    case 11 => 0x800
    case 12 => 0x1000
    case 13 => 0x2000
    case 14 => 0x4000
    case 15 => 0x8000
    case 16 => 0x10000
    case 17 => 0x20000
    case 18 => 0x40000
    case 19 => 0x80000
    case 20 => 0x100000
    case 21 => 0x200000
    case 22 => 0x400000
    case 23 => 0x800000
    case 24 => 0x1000000
    case 25 => 0x2000000
    case 26 => 0x4000000
    case 27 => 0x8000000
    case 28 => 0x10000000
    case 29 => 0x20000000
    case 30 => 0x40000000
    case _ => 0x80000000
  }

  lemma MaskDoubles(i: nat)
    requires 1 <= i < 32
    ensures Mask(i) == Mask(i - 1) << 1 && Mask(i - 1) & 0x8000_0000 == 0
  {
  }

  /** r has the bit of the one-bit mask m. */
  predicate Meets(r: bv32, m: bv32) { r & m != 0 }

  lemma MeetsOne(r: bv32)
    ensures Meets(r, Mask(0)) == Odd(r)
  {
    assert r & 1 == 0 || r & 1 == 1;
  }

  lemma MeetsHalf(r: bv32, m: bv32)
    requires m & 0x8000_0000 == 0
    ensures Meets(Half(r), m) == Meets(r, m << 1)
  {
    assert r & (m << 1) == ((r >> 1) & m) << 1;
    assert ((r >> 1) & m) & 0x8000_0000 == 0;
  }

  lemma MeetsNextMask(r: bv32, i: nat)
    requires 1 <= i < 32
    ensures Meets(Half(r), Mask(i - 1)) == Meets(r, Mask(i))
  {
    hide Meets, Half, Mask;
    MaskDoubles(i);
    MeetsHalf(r, Mask(i - 1));
  }

  lemma {:induction false} BitAtIsMask(r: bv32, i: nat)
    requires i < 32
    ensures BitAt(r, i) == Meets(r, Mask(i))
    decreases i
  {
    hide Meets, Half, Odd, Mask;
    if i == 0 {
      MeetsOne(r);
    } else {
      BitAtIsMask(Half(r), i - 1);
      MeetsNextMask(r, i);
    }
  }

  lemma {:induction false} BitAtPlus(x: bv32, y: bv32, i: nat)
    ensures BitAt(Plus(x, y), i) <==> BitAt(x, i) != BitAt(y, i)
    decreases i
  {
    hide Plus, Half, Odd;
    OddPlus(x, y);
    HalfPlus(x, y);
    if i > 0 {
      BitAtPlus(Half(x), Half(y), i - 1);
    }
  }

  lemma BitAtTop(r: bv32)
    ensures BitAt(r, 31) == Top(r)
  {
    BitAtIsMask(r, 31);
  }

  lemma MaskOfPolynomial(i: nat)
    requires i < 32
    ensures Meets(POLYNOMIAL, Mask(i)) <==> 31 - i in GENERATOR
  {
  }

  lemma BitAtPolynomial(i: nat)
    requires i < 32
    ensures BitAt(POLYNOMIAL, i) <==> 31 - i in GENERATOR
  {
    BitAtIsMask(POLYNOMIAL, i);
    MaskOfPolynomial(i);
  }

  lemma NoMaskMet(z: bv32)
    requires forall i: nat :: i < 32 ==> !Meets(z, Mask(i))
    ensures z == 0
  {
    assert !Meets(z, Mask(0)) && !Meets(z, Mask(1)) && !Meets(z, Mask(2)) && !Meets(z, Mask(3));
    assert !Meets(z, Mask(4)) && !Meets(z, Mask(5)) && !Meets(z, Mask(6)) && !Meets(z, Mask(7));
    assert !Meets(z, Mask(8)) && !Meets(z, Mask(9)) && !Meets(z, Mask(10)) && !Meets(z, Mask(11));
    assert !Meets(z, Mask(12)) && !Meets(z, Mask(13)) && !Meets(z, Mask(14)) && !Meets(z, Mask(15));
    assert !Meets(z, Mask(16)) && !Meets(z, Mask(17)) && !Meets(z, Mask(18)) && !Meets(z, Mask(19));
    assert !Meets(z, Mask(20)) && !Meets(z, Mask(21)) && !Meets(z, Mask(22)) && !Meets(z, Mask(23));
    assert !Meets(z, Mask(24)) && !Meets(z, Mask(25)) && !Meets(z, Mask(26)) && !Meets(z, Mask(27));
    assert !Meets(z, Mask(28)) && !Meets(z, Mask(29)) && !Meets(z, Mask(30)) && !Meets(z, Mask(31));
  }

  /** A register with no bit set is zero. */
  lemma ZeroPoly(z: bv32)
    requires RegisterPoly(z) == {}
    ensures z == 0
  {
    forall i: nat | i < 32 ensures !Meets(z, Mask(i)) {
      BitAtIsMask(z, i);
      assert !Coefficient(z, 31 - i) by {
        assert 31 - i !in RegisterPoly(z);
      }
    }
    NoMaskMet(z);
  }

  /** One step multiplies by x modulo the generator. */
  lemma StepIsTimesX(r: bv32)
    ensures Shift(RegisterPoly(r), 1)
         == Add(RegisterPoly(Step(r)), if Odd(r) then GENERATOR else {})
  {
    hide Step, Plus, Half, Odd, Top;
    StepIsConditionalXor(r);
    HalfThenDouble(r);
    BitAtTop(Half(r));
    forall e: nat
      ensures e in Shift(RegisterPoly(r), 1)
         <==> e in Add(RegisterPoly(Step(r)), if Odd(r) then GENERATOR else {})
    {
      if e < 32 {
        BitAtPlus(Half(r), POLYNOMIAL, 31 - e);
        BitAtPolynomial(31 - e);
        assert e > 0 ==> BitAt(Half(r), 31 - e) == BitAt(r, 32 - e);
      }
    }
  }

  // ---------------------------------------------------------------- running the register over bits

  /** The register after the bits of `bits`, in order, starting from r. */
  function Run(r: bv32, bits: seq<bool>): bv32 {
    if bits == [] then r
    else
      var n := |bits| - 1;
      Step(Plus(Run(r, bits[..n]), Bit(bits[n])))
  }

  function Zeros(n: nat): (z: seq<bool>)
    ensures |z| == n
    ensures forall i :: 0 <= i < n ==> !z[i]
  {
    if n == 0 then [] else Zeros(n - 1) + [false]
  }

  lemma BitXor(a: bool, b: bool)
    ensures Plus(Bit(a), Bit(b)) == Bit(a != b)
  {
  }

  lemma {:induction false} RunLinear(r: bv32, s: bv32, a: seq<bool>, b: seq<bool>)
    requires |a| == |b|
    ensures Run(Plus(r, s), Xor(a, b)) == Plus(Run(r, a), Run(s, b))
  {
    hide Step, Plus, Bit;
    if a != [] {
      var n := |a| - 1;
      RunLinear(r, s, a[..n], b[..n]);
      assert Xor(a, b)[..n] == Xor(a[..n], b[..n]);
      var ra, sb := Run(r, a[..n]), Run(s, b[..n]);
      BitXor(a[n], b[n]);
      PlusExchange(ra, Bit(a[n]), sb, Bit(b[n]));
      StepLinear(Plus(ra, Bit(a[n])), Plus(sb, Bit(b[n])));
    }
  }

  /** Whatever bits follow, two different registers never meet again. */
  lemma {:induction false} RunInjective(r: bv32, s: bv32, bits: seq<bool>)
    requires Run(r, bits) == Run(s, bits)
    ensures r == s
  {
    hide Step, Unstep, Plus, Bit;
    if bits != [] {
      var n := |bits| - 1;
      var x, y := Run(r, bits[..n]), Run(s, bits[..n]);
      StepBijective(Plus(x, Bit(bits[n])), 0);
      StepBijective(Plus(y, Bit(bits[n])), 0);
      PlusCancels(x, Bit(bits[n]));
      PlusCancels(y, Bit(bits[n]));
      RunInjective(r, s, bits[..n]);
    }
  }

  lemma {:induction false} RunConcat(r: bv32, a: seq<bool>, b: seq<bool>)
    ensures Run(r, a + b) == Run(Run(r, a), b)
  {
    hide Step, Plus, Bit;
    if b == [] {
      assert a + b == a;
    } else {
      var n := |b| - 1;
      RunConcat(r, a, b[..n]);
      assert (a + b)[..|a| + n] == a + b[..n];
    }
  }

  lemma {:induction false} RunZeros(n: nat)
    ensures Run(0, Zeros(n)) == 0
  {
    hide Step, Plus, Bit;
    if n > 0 {
      RunZeros(n - 1);
      assert Zeros(n)[..n - 1] == Zeros(n - 1);
      ZeroRegister();
      PlusZero(0);
      StepIsConditionalXor(0);
    }
  }

  // ---------------------------------------------------------------- loading up to 32 bits at once

  /** The register whose low bits are `bits`, first bit lowest. */
  function Word(bits: seq<bool>): bv32 {
    if bits == [] then 0 else Double(Word(bits[1..]), bits[0])
  }

  lemma ZeroHasNoBits(i: nat)
    ensures !BitAt(0, i)
    decreases i
  {
    hide Odd, Half;
    ZeroRegister();
    if i > 0 {
      ZeroHasNoBits(i - 1);
    }
  }

  lemma {:induction false} WordBits(bits: seq<bool>, i: nat)
    requires |bits| <= 32 && i < 32
    ensures BitAt(Word(bits), i) <==> i < |bits| && bits[i]
    decreases |bits|, 1
  {
    hide Double, Odd, Half, Top;
    if bits == [] {
      ZeroHasNoBits(i);
    } else {
      WordTailFits(bits);
      DoubleThenHalf(Word(bits[1..]), bits[0]);
      if i > 0 {
        WordBits(bits[1..], i - 1);
      }
    }
  }

  lemma {:induction false} WordTailFits(bits: seq<bool>)
    requires 1 <= |bits| <= 32
    ensures !Top(Word(bits[1..]))
    decreases |bits|, 0
  {
    hide Double, Odd, Half, Top;
    WordBits(bits[1..], 31);
    BitAtTop(Word(bits[1..]));
  }

  /** Starting from the word of up to 32 bits, those bits bring the register to zero. */
  lemma {:induction false} WordIsAbsorbed(bits: seq<bool>)
    requires |bits| <= 32
    ensures Run(Word(bits), bits) == 0
  {
    hide Step, Plus, Bit, Double, Odd, Half, Top;
    if bits != [] {
      var tail := Word(bits[1..]);
      WordTailFits(bits);
      DoubleThenHalf(tail, bits[0]);
      OddBit(bits[0]);
      OddPlus(Word(bits), Bit(bits[0]));
      HalfPlus(Word(bits), Bit(bits[0]));
      PlusZero(tail);
      StepIsConditionalXor(Plus(Word(bits), Bit(bits[0])));
      assert Run(Word(bits), bits[..1]) == tail;
      RunConcat(Word(bits), bits[..1], bits[1..]);
      assert bits[..1] + bits[1..] == bits;
      WordIsAbsorbed(bits[1..]);
    }
  }

  /** Feeding up to 32 bits one by one is adding their word and stepping as many times. */
  lemma FeedIsAddThenStep(r: bv32, bits: seq<bool>)
    requires |bits| <= 32
    ensures Run(r, bits) == Run(Plus(r, Word(bits)), Zeros(|bits|))
  {
    hide Run, Plus, Word;
    RunLinear(r, Word(bits), bits, bits);
    assert Xor(bits, bits) == Zeros(|bits|);
    WordIsAbsorbed(bits);
    PlusZero(Run(r, bits));
  }

  lemma {:induction false} WordZero(bits: seq<bool>)
    requires Word(bits) == 0 && |bits| <= 32
    ensures bits == Zeros(|bits|)
  {
    forall i | 0 <= i < |bits| ensures !bits[i] {
      WordBits(bits, i);
      ZeroHasNoBits(i);
    }
  }

  /** A non-zero window of up to 32 bits never leaves the register at zero. */
  lemma WindowIsSeen(bits: seq<bool>)
    requires |bits| <= 32 && Run(0, bits) == 0
    ensures bits == Zeros(|bits|)
  {
    hide Run, Word;
    WordIsAbsorbed(bits);
    RunInjective(0, Word(bits), bits);
    WordZero(bits);
  }

  // ---------------------------------------------------------------- messages and their checksum

  /** The lowest n bits of r, lowest first. */
  function LowBits(r: bv32, n: nat): (bits: seq<bool>)
    ensures |bits| == n
  {
    if n == 0 then [] else [Odd(r)] + LowBits(Half(r), n - 1)
  }

  function ByteBits(b: bv8): (bits: seq<bool>)
    ensures |bits| == 8
  {
    LowBits(b as bv32, 8)
  }

  predicate FitsIn(r: bv32, n: nat) {
    if n == 0 then r == 0 else FitsIn(Half(r), n - 1)
  }

  lemma {:induction false} WordOfLowBits(r: bv32, n: nat)
    requires FitsIn(r, n)
    ensures Word(LowBits(r, n)) == r
    decreases n
  {
    hide Double, Odd, Half;
    if n > 0 {
      HalfThenDouble(r);
      WordOfLowBits(Half(r), n - 1);
    }
  }

  lemma WordOfByte(b: bv8)
    ensures Word(ByteBits(b)) == b as bv32
  {
    var r := b as bv32;
    assert Half(r >> 7) == 0 && Half(r >> 6) == r >> 7 && Half(r >> 5) == r >> 6;
    assert Half(r >> 4) == r >> 5 && Half(r >> 3) == r >> 4 && Half(r >> 2) == r >> 3;
    assert Half(r >> 1) == r >> 2 && Half(r) == r >> 1;
    assert FitsIn(r >> 6, 2) && FitsIn(r >> 4, 4) && FitsIn(r >> 2, 6);
    assert FitsIn(r >> 1, 7);
    WordOfLowBits(r, 8);
  }

  /** All bits of a message in the order they are fed: bytes in order, low bit first. */
  function MessageBits(data: seq<bv8>): (bits: seq<bool>)
    ensures |bits| == 8 * |data|
  {
    if data == [] then []
    else
      var n := |data| - 1;
      MessageBits(data[..n]) + ByteBits(data[n])
  }

  lemma {:induction false} MessageBitAt(data: seq<bv8>, i: nat)
    requires i < 8 * |data|
    ensures MessageBits(data)[i] == ByteBits(data[i / 8])[i % 8]
  {
    var n := |data| - 1;
    if i < 8 * n {
      MessageBitAt(data[..n], i);
    } else {
      assert i / 8 == n && i % 8 == i - 8 * n;
    }
  }

  /** The CRC-32 of a message, bit by bit. */
  function Checksum(data: seq<bv8>): bv32 {
    Plus(Run(ALL_ONES, MessageBits(data)), ALL_ONES)
  }

  lemma FeedByte(r: bv32, b: bv8)
    ensures Run(r, ByteBits(b)) == Run(Plus(r, b as bv32), Zeros(8))
  {
    hide Run, Plus, Word, LowBits;
    WordOfByte(b);
    FeedIsAddThenStep(r, ByteBits(b));
  }

  lemma StepIsFeedZero(r: bv32, n: nat)
    ensures Step(Run(r, Zeros(n))) == Run(r, Zeros(n + 1))
  {
    hide Step, Plus, Bit;
    assert Zeros(n + 1)[..n] == Zeros(n);
    ZeroRegister();
    PlusZero(Run(r, Zeros(n)));
  }

  /** The nested byte and bit loops compute `Checksum` of the first `length` bytes. */
  method ComputeCrc32(data: array<bv8>, length: nat) returns (crc: bv32)
    requires length <= data.Length
    ensures crc == Checksum(data[..length])
  {
    hide Step, Plus, LowBits;
    crc := ALL_ONES;
    for i := 0 to length
      invariant crc == Run(ALL_ONES, MessageBits(data[..i]))
    {
      ghost var before := crc;
      crc := Plus(crc, data[i] as bv32);
      ghost var start := crc;
      for bit := 0 to 8
        invariant crc == Run(start, Zeros(bit))
      {
        StepIsFeedZero(start, bit);
        crc := Step(crc);
      }
      FeedByte(before, data[i]);
      RunConcat(ALL_ONES, MessageBits(data[..i]), ByteBits(data[i]));
      assert data[..i + 1][..i] == data[..i];
    }
    crc := Plus(crc, ALL_ONES);
  }

  // ---------------------------------------------------------------- the checksum is a remainder

  /** A message bit enters the register at x^31. */
  lemma FeedIsAddTop(r: bv32, b: bool)
    ensures RegisterPoly(Plus(r, Bit(b))) == Add(RegisterPoly(r), if b then {31} else {})
  {
    hide Plus, Bit, Odd, Half, BitAt;
    forall e: nat | e < 32
      ensures Coefficient(Plus(r, Bit(b)), e) <==> Coefficient(r, e) != (b && e == 31)
    {
      BitAtPlus(r, Bit(b), 31 - e);
      BitAtBit(b, 31 - e);
    }
  }

  lemma BitAtBit(b: bool, i: nat)
    ensures BitAt(Bit(b), i) <==> b && i == 0
  {
    hide Bit, Odd, Half;
    OddBit(b);
    if i > 0 {
      ZeroHasNoBits(i - 1);
    }
  }

  /** What the register holds is the remainder of a polynomial division, for any start and bits. */
  lemma {:induction false} RunIsDivision(init: bv32, bits: seq<bool>)
    ensures Congruent(
              Add(Shift(RegisterPoly(init), |bits|), Shift(FromBits(bits), 32)),
              RegisterPoly(Run(init, bits)),
              GENERATOR)
  {
    hide Step, Plus, Bit, RegisterPoly, Add, Shift, Times;
    if bits == [] {
      FromBitsEmpty(RegisterPoly(init));
      assert Add(Shift(RegisterPoly(init), 0), Shift(FromBits([]), 32))
          == Add(Times([], GENERATOR), RegisterPoly(init));
    } else {
      var n := |bits| - 1;
      var b := bits[n];
      RunIsDivision(init, bits[..n]);
      var r := Run(init, bits[..n]);
      var before := Add(Shift(RegisterPoly(init), n), Shift(FromBits(bits[..n]), 32));
      var quotient: seq<bool> :| before == Add(Times(quotient, GENERATOR), RegisterPoly(r));
      var fed := Plus(r, Bit(b));
      StepIsTimesX(fed);
      FeedIsAddTop(r, b);
      DivisionStep(RegisterPoly(init), n, FromBits(bits[..n]), Times(quotient, GENERATOR),
                   RegisterPoly(r), RegisterPoly(fed), RegisterPoly(Step(fed)), GENERATOR, b, Odd(fed));
      TimesAppend(quotient, Odd(fed), GENERATOR);
      TimesAppend(bits[..n], b, {0});
      assert bits[..n] + [b] == bits;
      assert Add(Shift(RegisterPoly(init), |bits|), Shift(FromBits(bits), 32))
          == Add(Times(quotient + [Odd(fed)], GENERATOR), RegisterPoly(Run(init, bits)));
    }
  }

  lemma FromBitsEmpty(p: Poly)
    ensures Add(Shift(p, 0), Shift(FromBits([]), 32)) == Add(Times([], GENERATOR), p)
  {
  }

  // ---------------------------------------------------------------- the main results

  /** The message times x^32, with ones added to the 32 highest coefficients. */
  function Dividend(data: seq<bv8>): Poly {
    Add(Shift(Below(32), 8 * |data|), Shift(FromBits(MessageBits(data)), 32))
  }

  /** The complement of a checksum, read as a polynomial of degree below 32. */
  function ComplementPoly(crc: bv32): Poly {
    set e: nat | e < 32 && !Coefficient(crc, e)
  }

  lemma AllOnesMask(i: nat)
    requires i < 32
    ensures Meets(ALL_ONES, Mask(i))
  {
  }

  lemma AllOnesPoly()
    ensures RegisterPoly(ALL_ONES) == Below(32)
  {
    hide Meets, Mask, BitAt;
    forall e: nat | e < 32 ensures Coefficient(ALL_ONES, e) {
      BitAtIsMask(ALL_ONES, 31 - e);
      AllOnesMask(31 - e);
    }
  }

  lemma ComplementIsPlusOnes(r: bv32)
    ensures ComplementPoly(Plus(r, ALL_ONES)) == RegisterPoly(r)
  {
    hide Plus, BitAt;
    AllOnesPoly();
    forall e: nat | e < 32 ensures Coefficient(Plus(r, ALL_ONES), e) <==> !Coefficient(r, e) {
      BitAtPlus(r, ALL_ONES, 31 - e);
      assert e in RegisterPoly(ALL_ONES);
    }
  }

  /** CRC-32 as in section 8 of RFC 1952: the complemented checksum is the remainder of the
  message polynomial modulo the generator, and it is the only polynomial of degree below 32
  that is congruent to it. */
  lemma ChecksumIsRemainder(data: seq<bv8>)
    ensures Congruent(Dividend(data), ComplementPoly(Checksum(data)), GENERATOR)
    ensures forall r | DegreeBelow(r, 32) && Congruent(Dividend(data), r, GENERATOR) ::
              r == ComplementPoly(Checksum(data))
  {
    hide Run, MessageBits, Plus, Add, Shift, Coefficient;
    var last := Run(ALL_ONES, MessageBits(data));
    RunIsDivision(ALL_ONES, MessageBits(data));
    AllOnesPoly();
    ComplementIsPlusOnes(last);
    GeneratorDegree();
    forall r | DegreeBelow(r, 32) && Congruent(Dividend(data), r, GENERATOR)
      ensures r == ComplementPoly(Checksum(data))
    {
      RemainderUnique(Dividend(data), r, ComplementPoly(Checksum(data)), GENERATOR, 32);
    }
  }

  lemma GeneratorDegree()
    ensures HasDegree(GENERATOR, 32) && 0 in GENERATOR
  {
  }

  /** The checksums of two messages of one length differ by the register of their difference. */
  lemma ChecksumDifference(a: seq<bv8>, b: seq<bv8>)
    requires |a| == |b|
    ensures Checksum(a) == Checksum(b)
       <==> Run(0, Xor(MessageBits(a), MessageBits(b))) == 0
  {
    hide Run, MessageBits, Plus;
    var x, y := Run(ALL_ONES, MessageBits(a)), Run(ALL_ONES, MessageBits(b));
    RunLinear(ALL_ONES, ALL_ONES, MessageBits(a), MessageBits(b));
    PlusZero(ALL_ONES);
    PlusCancels(x, ALL_ONES);
    PlusCancels(y, ALL_ONES);
    PlusCancels(x, y);
    PlusZero(x);
    PlusZero(y);
  }

  /** Exactly which changes go unseen: two messages of one length have the same checksum if and
  only if the polynomial of their difference is a multiple of the generator. */
  lemma SameChecksumIff(a: seq<bv8>, b: seq<bv8>)
    requires |a| == |b|
    ensures Checksum(a) == Checksum(b)
       <==> Congruent(FromBits(Xor(MessageBits(a), MessageBits(b))), {}, GENERATOR)
  {
    hide Checksum, Run, MessageBits, Add, Shift, FromBits, BitAt;
    var d := Xor(MessageBits(a), MessageBits(b));
    var p := Shift(FromBits(d), 32);
    ChecksumDifference(a, b);
    RunIsDivision(0, d);
    ZeroRegisterPoly();
    ShiftOfZero(|d|);
    AddZero(p);
    GeneratorDegree();
    if Congruent(FromBits(d), {}, GENERATOR) {
      ShiftMultiple(FromBits(d), 32, GENERATOR);
      RemainderUnique(p, RegisterPoly(Run(0, d)), {}, GENERATOR, 32);
      ZeroPoly(Run(0, d));
    }
    if Run(0, d) == 0 {
      CancelShift(FromBits(d), 32, GENERATOR);
    }
  }

  lemma ZeroRegisterPoly()
    ensures RegisterPoly(0) == {}
  {
    hide BitAt;
    forall e: nat | e < 32 ensures !Coefficient(0, e) {
      ZeroHasNoBits(31 - e);
    }
  }

  lemma ShiftOfZero(k: nat)
    ensures Shift({}, k) == {}
  {
  }

  /** The bits of a and b agree outside `len` consecutive positions starting at `from`. */
  ghost predicate AgreeOutside(a: seq<bool>, b: seq<bool>, from: nat, len: nat)
    requires |a| == |b|
  {
    forall i :: 0 <= i < |a| && !(from <= i < from + len) ==> a[i] == b[i]
  }

  lemma {:induction false} MessageBitsInjective(a: seq<bv8>, b: seq<bv8>)
    requires |a| == |b| && MessageBits(a) == MessageBits(b)
    ensures a == b
  {
    if a != [] {
      var n := |a| - 1;
      assert MessageBits(a)[..8 * n] == MessageBits(a[..n]);
      assert MessageBits(b)[..8 * n] == MessageBits(b[..n]);
      assert ByteBits(a[n]) == MessageBits(a)[8 * n..] == MessageBits(b)[8 * n..] == ByteBits(b[n]);
      MessageBitsInjective(a[..n], b[..n]);
      ByteBitsInjective(a[n], b[n]);
    }
  }

  lemma ByteBitsInjective(x: bv8, y: bv8)
    requires ByteBits(x) == ByteBits(y)
    ensures x == y
  {
    WordOfByte(x);
    WordOfByte(y);
    assert x as bv32 == y as bv32;
  }

  /** A difference confined to 32 consecutive bits leaves its mark on the register. */
  lemma DifferenceIsSeen(d: seq<bool>, from: nat, len: nat)
    requires len <= 32 && from + len <= |d| && Run(0, d) == 0
    requires forall i :: 0 <= i < |d| && !(from <= i < from + len) ==> !d[i]
    ensures forall i :: 0 <= i < |d| ==> !d[i]
  {
    hide Run;
    var window, rest := d[from..from + len], |d| - from - len;
    assert d == Zeros(from) + window + Zeros(rest);
    RunConcat(0, Zeros(from) + window, Zeros(rest));
    RunConcat(0, Zeros(from), window);
    RunZeros(from);
    RunZeros(rest);
    RunInjective(Run(0, window), 0, Zeros(rest));
    WindowIsSeen(window);
  }

  /** Burst detection: two different messages of one length that agree outside some 32
  consecutive bits have different checksums. */
  lemma BurstIsDetected(a: seq<bv8>, b: seq<bv8>, from: nat, len: nat)
    requires |a| == |b| && a != b && len <= 32 && from + len <= 8 * |a|
    requires AgreeOutside(MessageBits(a), MessageBits(b), from, len)
    ensures Checksum(a) != Checksum(b)
  {
    hide Run, MessageBits, Checksum;
    var d := Xor(MessageBits(a), MessageBits(b));
    if Checksum(a) == Checksum(b) {
      ChecksumDifference(a, b);
      DifferenceIsSeen(d, from, len);
      assert forall i :: 0 <= i < |d| ==> d[i] == (MessageBits(a)[i] != MessageBits(b)[i]);
      assert MessageBits(a) == MessageBits(b);
      MessageBitsInjective(a, b);
    }
  }

  /** In particular, a change confined to four consecutive bytes is always detected. */
  lemma FourByteChangeIsDetected(a: seq<bv8>, b: seq<bv8>, at: nat, width: nat)
    requires |a| == |b| && a != b && width <= 4 && at + width <= |a|
    requires a[..at] == b[..at] && a[at + width..] == b[at + width..]
    ensures Checksum(a) != Checksum(b)
  {
    hide MessageBits, Checksum;
    forall i | 0 <= i < 8 * |a| && !(8 * at <= i < 8 * at + 8 * width)
      ensures MessageBits(a)[i] == MessageBits(b)[i]
    {
      MessageBitAt(a, i);
      MessageBitAt(b, i);
      if i < 8 * at {
        assert a[..at][i / 8] == b[..at][i / 8];
      } else {
        assert a[at + width..][i / 8 - at - width] == b[at + width..][i / 8 - at - width];
      }
    }
    BurstIsDetected(a, b, 8 * at, 8 * width);
  }
}
