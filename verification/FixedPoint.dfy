/** Prices on the wire: the fixed-point encoding of the sink, the decimal division of the Go
decoder, and what a price looks like after both. */
module FixedPoint {
  import opened Crc32
  import opened Endian
  import opened Protocol
  import opened Arithmetic
  import opened Models

  const TWO_32: nat := 0x1_0000_0000
  const TWO_63: nat := 0x8000_0000_0000_0000
  const TWO_64: nat := 0x1_0000_0000_0000_0000

  // ---------------------------------------------------------------- words as numbers

  /** The byte w if the digit is one. */
  function Bit(digit: nat, w: bv8): bv8 {
    if digit == 1 then w else 0
  }

  /** The digit that stands at w. */
  function Digit(b: bv8, w: bv8): (digit: nat)
    ensures digit <= 1
  {
    if b & w == 0 then 0 else 1
  }

  /** The byte with the binary digits of n. */
  function ByteOf(n: nat): bv8
    requires n < 256
  {
    Bit(n / 128, 128) | Bit(n / 64 % 2, 64) | Bit(n / 32 % 2, 32) | Bit(n / 16 % 2, 16)
    | Bit(n / 8 % 2, 8) | Bit(n / 4 % 2, 4) | Bit(n / 2 % 2, 2) | Bit(n % 2, 1)
  }

  function ByteValue(b: bv8): (n: nat)
    ensures n < 256
  {
    128 * Digit(b, 128) + 64 * Digit(b, 64) + 32 * Digit(b, 32) + 16 * Digit(b, 16)
    + 8 * Digit(b, 8) + 4 * Digit(b, 4) + 2 * Digit(b, 2) + Digit(b, 1)
  }

  lemma DigitsOfBits(a: nat, b: nat, c: nat, d: nat, e: nat, f: nat, g: nat, h: nat)
    requires a <= 1 && b <= 1 && c <= 1 && d <= 1 && e <= 1 && f <= 1 && g <= 1 && h <= 1
    ensures var x := Bit(a, 128) | Bit(b, 64) | Bit(c, 32) | Bit(d, 16) | Bit(e, 8) | Bit(f, 4) | Bit(g, 2) | Bit(h, 1);
      && Digit(x, 128) == a && Digit(x, 64) == b && Digit(x, 32) == c && Digit(x, 16) == d
      && Digit(x, 8) == e && Digit(x, 4) == f && Digit(x, 2) == g && Digit(x, 1) == h
  {
  }

  /** The number whose big-endian bytes are those of v. */
  function Value32(v: bv32): (n: nat)
    ensures n < TWO_32
  {
    ByteValue(Byte32(v, 3)) * 0x100_0000 + ByteValue(Byte32(v, 2)) * 0x1_0000
    + ByteValue(Byte32(v, 1)) * 0x100 + ByteValue(Byte32(v, 0))
  }

  function Value64(v: bv64): (n: nat)
    ensures n < TWO_64
  {
    Value32(High(v)) * TWO_32 + Value32(Low(v))
  }

  function Word32(n: nat): bv32
    requires n < TWO_32
  {
    Join32(ByteOf(n / 0x100_0000), ByteOf(n / 0x1_0000 % 256), ByteOf(n / 0x100 % 256), ByteOf(n % 256))
  }

  function Word64(n: nat): bv64
    requires n < TWO_64
  {
    Join64(Word32(n / TWO_32), Word32(n % TWO_32))
  }

  lemma BinaryDigits(n: nat)
    requires n < 256
    ensures 128 * (n / 128) + 64 * (n / 64 % 2) + 32 * (n / 32 % 2) + 16 * (n / 16 % 2)
         + 8 * (n / 8 % 2) + 4 * (n / 4 % 2) + 2 * (n / 2 % 2) + n % 2 == n
  {
    assert n / 4 == n / 2 / 2;
    assert n / 8 == n / 4 / 2;
    assert n / 16 == n / 8 / 2;
    assert n / 32 == n / 16 / 2;
    assert n / 64 == n / 32 / 2;
    assert n / 128 == n / 64 / 2;
  }

  lemma TopDigit(n: nat)
    requires n < 256
    ensures n / 128 <= 1
  {
  }

  lemma ValueOfByte(n: nat)
    requires n < 256
    ensures ByteValue(ByteOf(n)) == n
  {
    hide Bit, Digit;
    BinaryDigits(n);
    TopDigit(n);
    DigitsOfBits(n / 128, n / 64 % 2, n / 32 % 2, n / 16 % 2, n / 8 % 2, n / 4 % 2, n / 2 % 2, n % 2);
  }

  lemma FourDigits(n: nat)
    requires n < TWO_32
    ensures n / 0x100_0000 < 256
    ensures n / 0x100_0000 * 0x100_0000 + n / 0x1_0000 % 256 * 0x1_0000 + n / 0x100 % 256 * 0x100 + n % 256 == n
  {
  }

  lemma Value32OfWord(n: nat)
    requires n < TWO_32
    ensures Value32(Word32(n)) == n
  {
    hide Byte32, Join32, ByteOf, ByteValue;
    FourDigits(n);
    BytesOfJoin32(ByteOf(n / 0x100_0000), ByteOf(n / 0x1_0000 % 256), ByteOf(n / 0x100 % 256), ByteOf(n % 256));
    ValueOfByte(n / 0x100_0000);
    ValueOfByte(n / 0x1_0000 % 256);
    ValueOfByte(n / 0x100 % 256);
    ValueOfByte(n % 256);
  }

  lemma Value64OfWord(n: nat)
    requires n < TWO_64
    ensures Value64(Word64(n)) == n
  {
    hide Join64, High, Low, Value32, Word32;
    HalvesOfJoin(Word32(n / TWO_32), Word32(n % TWO_32));
    Value32OfWord(n / TWO_32);
    Value32OfWord(n % TWO_32);
  }

  // ---------------------------------------------------------------- the sink

  function Power10(e: nat): (p: nat)
    ensures p >= 1
  {
    if e == 0 then 1 else 10 * Power10(e - 1)
  }

  /** The prices the sink's cast to an unsigned 64-bit integer is defined for. */
  predicate Encodable(price: real, e: nat) {
    0.0 <= price * Power10(e) as real < TWO_64 as real
  }

  /** The integer the sink sends for a price: scaled and truncated. */
  function Scaled(price: real, e: nat): (m: nat)
    requires Encodable(price, e)
    ensures m < TWO_64
  {
    (price * Power10(e) as real).Floor
  }

  /** `duration_cast` to milliseconds: nanoseconds divided towards zero. */
  function Millis(ns: int): int {
    DivideTowardsZero(ns, 1_000_000)
  }

  predicate IsInt64(n: int) {
    0 <= n + TWO_63 < TWO_64
  }

  /** The cast of a signed to an unsigned 64-bit integer, and back. */
  function ToUnsigned(n: int): bv64
    requires IsInt64(n)
  {
    Word64(if n < 0 then n + TWO_64 else n)
  }

  function ToSigned(v: bv64): int {
    if Value64(v) < TWO_63 then Value64(v) else Value64(v) - TWO_64
  }

  predicate Sendable(est: PriceEstimation, e: nat) {
    && e < TWO_32
    && Encodable(est.marketPrice, e)
    && est.estimatedPrice.Fin? && Encodable(est.estimatedPrice.value, e)
    && IsInt64(Millis(est.ts))
  }

  /** The packet the sink hands to the serializer. */
  function SinkPacket(est: PriceEstimation, e: nat): Packet
    requires Sendable(est, e)
  {
    Packet(
      est.optionCode, est.spotCode, Word32(e),
      Word64(Scaled(est.marketPrice, e)),
      Word64(Scaled(est.estimatedPrice.value, e)),
      ToUnsigned(Millis(est.ts)),
      0)
  }

  // ---------------------------------------------------------------- the Go decoder

  const DIVISION_PRECISION: nat := 16

  /** Decimal division: a quotient with 16 decimals, its last digit rounded half up. */
  function DecimalDiv(m: nat, d: nat): real
    requires d > 0
  {
    Rounded(m * Power10(DIVISION_PRECISION), d) as real / Power10(DIVISION_PRECISION) as real
  }

  /** The quotient rounded half up. */
  function Rounded(n: nat, d: nat): nat
    requires d > 0
  {
    if 2 * (n % d) < d then n / d else n / d + 1
  }

  datatype Observation = Observation(
    spot: string,
    option: string,
    marketPrice: real,
    predictedPrice: real,
    producedAt: int)

  /** The instrument table never reports a missing code; it yields the empty name. */
  function NameOf(names: map<bv32, string>, code: bv32): string {
    if code in names then names[code] else ""
  }

  function ObservationOf(p: Packet, names: map<bv32, string>): Observation {
    var exp := Power10(Value32(p.priceExponent));
    Observation(
      NameOf(names, p.spotCode),
      NameOf(names, p.optionCode),
      DecimalDiv(Value64(p.marketPrice), exp),
      DecimalDiv(Value64(p.predictedPrice), exp),
      ToSigned(p.ts))
  }

  /** What the feeder makes of a frame. */
  function Observe(frame: seq<bv8>, names: map<bv32, string>): Result<Observation> {
    match Decode(frame)
    case Ok(p) => Ok(ObservationOf(p, names))
    case Err(e) => Err(e)
  }

  // ---------------------------------------------------------------- what survives the wire

  lemma {:induction false} Power10Add(a: nat, b: nat)
    ensures Power10(a + b) == Power10(a) * Power10(b)
    ensures Power10(0) == 1 && Power10(1) == 10
  {
    if a > 0 {
      Power10Add(a - 1, b);
      assert Power10(a + b) == 10 * Power10(a - 1 + b);
      assert 10 * (Power10(a - 1) * Power10(b)) == (10 * Power10(a - 1)) * Power10(b);
    }
  }

  /** The division is exact if and only if the quotient needs no more than 16 decimals. */
  lemma DecimalDivExactIff(m: nat, d: nat)
    requires d > 0
    ensures DecimalDiv(m, d) * d as real == m as real
       <==> m * Power10(DIVISION_PRECISION) % d == 0
  {
    var p := Power10(DIVISION_PRECISION);
    hide Power10;
    var n := m * p;
    RoundedExactIff(n, d);
    QuotientExact(Rounded(n, d), d, m, p);
  }

  lemma RoundedExactIff(n: nat, d: nat)
    requires d > 0
    ensures Rounded(n, d) * d == n <==> n % d == 0
  {
    var q, r := n / d, n % d;
    assert n == q * d + r;
    if 2 * r >= d {
      assert (q + 1) * d == q * d + d;
    }
  }

  /** The one integer within half a unit of the quotient, ties going up. */
  lemma RoundedIff(n: nat, d: nat, k: nat)
    requires d > 0
    ensures k == Rounded(n, d) <==> 2 * k * d - d <= 2 * n < 2 * k * d + d
  {
    var q, r := n / d, n % d;
    assert n == q * d + r;
    assert 2 * n - 2 * k * d == 2 * ((q - k) * d) + 2 * r;
    Multiples(q - k, d);
    Multiples(q - k + 1, d);
    assert (q - k + 1) * d == (q - k) * d + d;
  }

  lemma RoundedMonotone(n: nat, m: nat, d: nat)
    requires d > 0 && n <= m
    ensures Rounded(n, d) <= Rounded(m, d)
  {
    var k, j := Rounded(n, d), Rounded(m, d);
    RoundedIff(n, d, k);
    RoundedIff(m, d, j);
    hide Rounded;
    Multiples(k - j, d);
    assert 2 * k * d - 2 * j * d == 2 * ((k - j) * d);
  }

  lemma QuotientExact(k: nat, d: nat, m: nat, p: nat)
    requires p > 0
    ensures k as real / p as real * d as real == m as real <==> k * d == m * p
  {
    var x := k as real / p as real;
    assert x * p as real == k as real;
    assert (x * d as real) * p as real == (k * d) as real;
    assert m as real * p as real == (m * p) as real;
    if x * d as real != m as real {
      assert (x * d as real) * p as real != m as real * p as real;
    }
  }

  lemma ExponentDivides(m: nat, e: nat)
    requires e <= DIVISION_PRECISION
    ensures m * Power10(DIVISION_PRECISION) % Power10(e) == 0
  {
    hide Power10;
    Power10Add(DIVISION_PRECISION - e, e);
    var a, b := Power10(DIVISION_PRECISION - e), Power10(e);
    assert m * (a * b) == (m * a) * b;
    NoRemainder(m * Power10(DIVISION_PRECISION), m * a, b);
  }

  lemma NoRemainder(n: nat, k: nat, b: nat)
    requires b > 0 && n == k * b
    ensures n % b == 0
  {
    var q, r := n / b, n % b;
    assert (k - q) * b == r;
    Multiples(k - q, b);
  }

  /** Up to 16 decimals nothing is rounded. */
  lemma DecimalDivExact(m: nat, e: nat)
    requires e <= DIVISION_PRECISION
    ensures DecimalDiv(m, Power10(e)) * Power10(e) as real == m as real
  {
    hide DecimalDiv, Power10;
    ExponentDivides(m, e);
    DecimalDivExactIff(m, Power10(e));
  }

  /** Up to 16 decimals a price comes back truncated to its e decimals: never larger, off by less
  than one unit of the last decimal, and standing for the same integer. */
  lemma PriceSurvives(price: real, e: nat)
    requires e <= DIVISION_PRECISION && Encodable(price, e)
    ensures var d := DecimalDiv(Scaled(price, e), Power10(e));
      && 0.0 <= price - d < 1.0 / Power10(e) as real
      && Encodable(d, e) && Scaled(d, e) == Scaled(price, e)
  {
    hide DecimalDiv, Power10;
    var b := Power10(e) as real;
    var d := DecimalDiv(Scaled(price, e), Power10(e));
    DecimalDivExact(Scaled(price, e), e);
    Reciprocal(b);
    TruncatedPrice(price, d, b, 1.0 / b, Scaled(price, e));
  }

  lemma Reciprocal(b: real)
    requires b >= 1.0
    ensures (1.0 / b) * b == 1.0
  {
  }

  lemma TruncatedPrice(price: real, d: real, b: real, unit: real, m: nat)
    requires b >= 1.0 && unit * b == 1.0
    requires d * b == m as real && m as real <= price * b < m as real + 1.0
    ensures 0.0 <= price - d < unit
  {
    ScaleUp(price, d, b);
    ScaleUp(unit, price - d, b);
    Distribute(price, d, b);
  }

  lemma Distribute(x: real, y: real, b: real)
    ensures (x - y) * b == x * b - y * b
  {
  }

  lemma ScaleUp(p: real, q: real, b: real)
    requires b >= 1.0
    ensures p <= q ==> p * b <= q * b
    ensures p < q ==> p * b < q * b
  {
    Distribute(q, p, b);
    if p < q {
      assert (q - p) * b > 0.0;
    }
  }

  lemma FloorMonotone(x: real, y: real)
    requires x <= y
    ensures x.Floor <= y.Floor
  {
  }

  /** Whatever the exponent, a price is off by less than one unit of its last decimal and half a unit of
  the sixteenth, and never too high by more than the latter. */
  lemma PriceIsClose(price: real, e: nat)
    requires Encodable(price, e)
    ensures var d, half := DecimalDiv(Scaled(price, e), Power10(e)), 0.5 / Power10(DIVISION_PRECISION) as real;
      -half <= price - d < 1.0 / Power10(e) as real + half
  {
    hide Power10, Rounded, DecimalDiv;
    var b, m := Power10(e), Scaled(price, e);
    DecimalDivIsClose(m, b);
    Reciprocal(b as real);
    Cancels(m as real, b as real);
    TruncatedPrice(price, m as real / b as real, b as real, 1.0 / b as real, m);
  }

  lemma Cancels(x: real, b: real)
    requires b >= 1.0
    ensures x / b * b == x
  {
  }

  lemma DecimalDivIsClose(m: nat, b: nat)
    requires b > 0
    ensures var half := 0.5 / Power10(DIVISION_PRECISION) as real;
      -half <= m as real / b as real - DecimalDiv(m, b) <= half
  {
    hide Power10, Rounded;
    var u := Power10(DIVISION_PRECISION);
    var k := Rounded(m * u, b);
    RoundedIff(m * u, b, k);
    CastProducts(k, b, m, u);
    Cancels(k as real, u as real);
    Cancels(m as real, b as real);
    QuotientIsClose(k as real / u as real, m as real / b as real, k as real, m as real, u as real, b as real);
  }

  lemma CastProducts(k: nat, b: nat, m: nat, u: nat)
    requires 2 * k * b - b <= 2 * (m * u) <= 2 * k * b + b
    ensures 2.0 * k as real * b as real - b as real <= 2.0 * (m as real * u as real)
         <= 2.0 * k as real * b as real + b as real
  {
    assert (2 * k * b) as real == 2.0 * k as real * b as real;
    assert (m * u) as real == m as real * u as real;
  }

  lemma QuotientIsClose(d: real, x: real, k: real, m: real, u: real, b: real)
    requires u >= 1.0 && b >= 1.0 && d * u == k && x * b == m
    requires 2.0 * k * b - b <= 2.0 * (m * u) <= 2.0 * k * b + b
    ensures -0.5 / u <= x - d <= 0.5 / u
  {
    var gap := x * u - k;
    assert gap * b == m * u - k * b;
    assert (gap - 0.5) * b <= 0.0 <= (gap + 0.5) * b;
    assert -0.5 <= gap <= 0.5;
    assert (x - d) * u == gap;
    QuotientBetween(gap, x - d, u);
  }

  lemma QuotientBetween(gap: real, y: real, u: real)
    requires u >= 1.0 && y * u == gap && -0.5 <= gap <= 0.5
    ensures -0.5 / u <= y <= 0.5 / u
  {
    assert y == gap / u;
  }

  /** The order of prices is kept, for any exponent. */
  lemma OrderSurvives(p: real, q: real, e: nat)
    requires Encodable(p, e) && Encodable(q, e) && p <= q
    ensures DecimalDiv(Scaled(p, e), Power10(e)) <= DecimalDiv(Scaled(q, e), Power10(e))
  {
    hide Power10, Scaled, Rounded;
    ScaledMonotone(p, q, e);
    var unit := Power10(DIVISION_PRECISION);
    TimesMonotone(Scaled(p, e), Scaled(q, e), unit);
    RoundedMonotone(Scaled(p, e) * unit, Scaled(q, e) * unit, Power10(e));
    DividedMonotone(Rounded(Scaled(p, e) * unit, Power10(e)), Rounded(Scaled(q, e) * unit, Power10(e)), unit);
  }

  lemma TimesMonotone(a: nat, b: nat, k: nat)
    requires a <= b
    ensures a * k <= b * k
  {
  }

  lemma DividedMonotone(a: nat, b: nat, k: nat)
    requires a <= b && k > 0
    ensures a as real / k as real <= b as real / k as real
  {
  }

  lemma ScaledMonotone(p: real, q: real, e: nat)
    requires Encodable(p, e) && Encodable(q, e) && p <= q
    ensures Scaled(p, e) <= Scaled(q, e)
  {
    hide Power10;
    ScaleUp(p, q, Power10(e) as real);
    FloorMonotone(p * Power10(e) as real, q * Power10(e) as real);
  }

  lemma SignedRoundTrip(n: int)
    requires IsInt64(n)
    ensures ToSigned(ToUnsigned(n)) == n
  {
    hide Value64, Word64;
    Value64OfWord(if n < 0 then n + TWO_64 else n);
  }

  /** From the engine's estimation to the feeder's observation, through the sink, the wire and the
  decoder: the codes name the instruments, known ones only, the time survives to the millisecond, and both
  prices survive as `PriceSurvives` says. */
  lemma EndToEnd(est: PriceEstimation, e: nat, names: map<bv32, string>)
    requires Sendable(est, e) && e <= DIVISION_PRECISION
    ensures Observe(Encode(SinkPacket(est, e)), names).Ok?
    ensures var o := Observe(Encode(SinkPacket(est, e)), names).value;
      && o.spot == (if est.spotCode in names then names[est.spotCode] else "")
      && o.option == (if est.optionCode in names then names[est.optionCode] else "")
      && o.producedAt == Millis(est.ts)
      && 0.0 <= est.marketPrice - o.marketPrice < 1.0 / Power10(e) as real
      && 0.0 <= est.estimatedPrice.value - o.predictedPrice < 1.0 / Power10(e) as real
    ensures var rest := est.ts - 1_000_000 * Observe(Encode(SinkPacket(est, e)), names).value.producedAt;
      && -1_000_000 < rest < 1_000_000
      && (est.ts >= 0 ==> rest >= 0) && (est.ts <= 0 ==> rest <= 0)
  {
    hide Encode, Decode, Scaled, DecimalDiv, Word32, Word64, Value32, Value64, ToSigned, ToUnsigned;
    var p := SinkPacket(est, e);
    RoundTrip(p, []);
    assert Encode(p) + [] == Encode(p);
    Value32OfWord(e);
    Value64OfWord(Scaled(est.marketPrice, e));
    Value64OfWord(Scaled(est.estimatedPrice.value, e));
    SignedRoundTrip(Millis(est.ts));
    TowardsZeroIff(est.ts, 1_000_000, Millis(est.ts));
    PriceSurvives(est.marketPrice, e);
    PriceSurvives(est.estimatedPrice.value, e);
  }

  // ---------------------------------------------------------------- the frames and the division, in numbers

  lemma FrameFields(p: Packet)
    requires p.crc == 0
    ensures var frame := Encode(p);
      && ReadBe32(frame[0..4]) == p.optionCode && ReadBe32(frame[4..8]) == p.spotCode
      && ReadBe32(frame[8..12]) == p.priceExponent
      && ReadBe64(frame[12..20]) == p.marketPrice && ReadBe64(frame[20..28]) == p.predictedPrice
      && ReadBe64(frame[28..36]) == p.ts
      && ReadBe32(frame[36..40]) == Checksum(frame[..36])
  {
    hide Encode, Body, Checksum, ReadBe32, ReadBe64;
    RoundTrip(p, []);
    assert Encode(p) + [] == Encode(p);
    EncodeStartsWithBody(p);
  }

  lemma ScaledIsBelow(price: real, e: nat)
    requires Encodable(price, e)
    ensures 0.0 <= price * Power10(e) as real - Scaled(price, e) as real < 1.0
  {
    hide Power10;
  }

  /** What a frame holds where: the codes, the exponent, both prices as whole numbers of the last decimal, the
  time as a signed number of milliseconds, and the checksum of all that. */
  ghost predicate Holds(frame: seq<bv8>, est: PriceEstimation, e: nat)
    requires |frame| == 40 && est.estimatedPrice.Fin?
  {
    && ReadBe32(frame[0..4]) == est.optionCode && ReadBe32(frame[4..8]) == est.spotCode
    && Value32(ReadBe32(frame[8..12])) == e
    && 0.0 <= est.marketPrice * Power10(e) as real - Value64(ReadBe64(frame[12..20])) as real < 1.0
    && 0.0 <= est.estimatedPrice.value * Power10(e) as real - Value64(ReadBe64(frame[20..28])) as real < 1.0
    && ToSigned(ReadBe64(frame[28..36])) == Millis(est.ts)
    && ReadBe32(frame[36..40]) == Checksum(frame[..36])
  }

  lemma SinkFrameHolds(est: PriceEstimation, e: nat)
    requires Sendable(est, e)
    ensures Holds(Encode(SinkPacket(est, e)), est, e)
  {
    hide Encode, Checksum, Word32, Word64, Value32, Value64, ToSigned, ToUnsigned, Millis, ReadBe32, ReadBe64;
    hide Scaled, Power10;
    FrameFields(SinkPacket(est, e));
    Value32OfWord(e);
    Value64OfWord(Scaled(est.marketPrice, e));
    Value64OfWord(Scaled(est.estimatedPrice.value, e));
    ScaledIsBelow(est.marketPrice, e);
    ScaledIsBelow(est.estimatedPrice.value, e);
    SignedRoundTrip(Millis(est.ts));
  }

  lemma EncodeStartsWithBody(p: Packet)
    ensures Encode(p)[..36] == Body(p)
  {
    hide Body, Be32, Checksum;
  }

  /** A third has sixteen decimals, and two thirds are rounded up. */
  lemma Thirds()
    ensures DecimalDiv(1, 3) == 3_333_333_333_333_333.0 / 10_000_000_000_000_000.0
    ensures DecimalDiv(2, 3) == 6_666_666_666_666_667.0 / 10_000_000_000_000_000.0
  {
    TenToTheSixteen();
    hide Power10;
  }

  lemma TenToTheSixteen()
    ensures Power10(DIVISION_PRECISION) == 10_000_000_000_000_000
  {
    Power10Add(1, 1);
    Power10Add(2, 2);
    Power10Add(4, 4);
    Power10Add(8, 8);
  }
}
