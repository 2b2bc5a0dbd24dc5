/** The price estimation packet: 40 bytes, written by the C++ sink and read by C++ and by Go. */
module Protocol {
  import opened Crc32
  import opened Endian
  import opened Models

  datatype Packet = Packet(
    optionCode: bv32,
    spotCode: bv32,
    priceExponent: bv32,
    marketPrice: bv64,
    predictedPrice: bv64,
    ts: bv64,
    crc: bv32)

  const SIZE: nat := 40
  const BODY_SIZE: nat := 36

  // ---------------------------------------------------------------- the layout

  /** The first 36 bytes: the fields before the checksum in network order. */
  function Body(p: Packet): (b: seq<bv8>)
    ensures |b| == BODY_SIZE
  {
    Be32(p.optionCode) + Be32(p.spotCode) + Be32(p.priceExponent)
    + Be64(p.marketPrice) + Be64(p.predictedPrice) + Be64(p.ts)
  }

  /** A zero checksum field asks for the checksum of the body. */
  function Sealed(p: Packet): Packet {
    if p.crc == 0 then p.(crc := Checksum(Body(p))) else p
  }

  function Encode(p: Packet): (b: seq<bv8>)
    ensures |b| == SIZE
  {
    Body(p) + Be32(Sealed(p).crc)
  }

  function Decode(data: seq<bv8>): Result<Packet> {
    if |data| < SIZE then Err("buffer too small")
    else Ok(Packet(
      ReadBe32(data[0..4]), ReadBe32(data[4..8]), ReadBe32(data[8..12]),
      ReadBe64(data[12..20]), ReadBe64(data[20..28]), ReadBe64(data[28..36]),
      ReadBe32(data[36..40])))
  }

  // ---------------------------------------------------------------- the writer

  /** `write32`: swap on a little-endian host, copy the word's memory, advance. */
  method Write32(buf: array<bv8>, off: nat, v: bv32, little: bool) returns (next: nat)
    requires off + 4 <= buf.Length
    modifies buf
    ensures next == off + 4
    ensures buf[..next] == old(buf[..off]) + Be32(v)
    ensures buf[next..] == old(buf[off + 4..])
  {
    hide ToBe32, HostBytes32, Be32;
    WriteIsBigEndian(v, 0, little);
    next := Copy(buf, off, HostBytes32(ToBe32(v, little), little));
  }

  method Write64(buf: array<bv8>, off: nat, v: bv64, little: bool) returns (next: nat)
    requires off + 8 <= buf.Length
    modifies buf
    ensures next == off + 8
    ensures buf[..next] == old(buf[..off]) + Be64(v)
    ensures buf[next..] == old(buf[off + 8..])
  {
    hide ToBe64, HostBytes64, Be64;
    WriteIsBigEndian(0, v, little);
    next := Copy(buf, off, HostBytes64(ToBe64(v, little), little));
  }

  /** `memcpy` into the buffer at off. */
  method Copy(buf: array<bv8>, off: nat, bytes: seq<bv8>) returns (next: nat)
    requires off + |bytes| <= buf.Length
    modifies buf
    ensures next == off + |bytes|
    ensures buf[..next] == old(buf[..off]) + bytes
    ensures buf[next..] == old(buf[off + |bytes|..])
  {
    for i := 0 to |bytes|
      invariant buf[..off + i] == old(buf[..off]) + bytes[..i]
      invariant buf[off + i..] == old(buf[off + i..])
    {
      buf[off + i] := bytes[i];
    }
    next := off + |bytes|;
  }

  method Serialize(p: Packet, little: bool) returns (buf: array<bv8>)
    ensures fresh(buf)
    ensures buf[..] == Encode(p)
  {
    hide Be32, Be64, Checksum;
    buf := new bv8[SIZE](_ => 0);
    var off := 0;
    off := Write32(buf, off, p.optionCode, little);
    off := Write32(buf, off, p.spotCode, little);
    off := Write32(buf, off, p.priceExponent, little);
    off := Write64(buf, off, p.marketPrice, little);
    off := Write64(buf, off, p.predictedPrice, little);
    off := Write64(buf, off, p.ts, little);
    assert buf[..off] == Body(p);
    if p.crc == 0 {
      var crc := ComputeCrc32(buf, SIZE - 4);
      off := Write32(buf, off, crc, little);
    } else {
      off := Write32(buf, off, p.crc, little);
    }
    assert buf[..] == buf[..off];
  }

  // ---------------------------------------------------------------- the readers

  method Read32(data: array<bv8>, off: nat, little: bool) returns (v: bv32, next: nat)
    requires off + 4 <= data.Length
    ensures v == ReadBe32(data[off..off + 4]) && next == off + 4
  {
    ReadIsBigEndian(data[off..off + 4], little);
    v := FromBe32(HostWord32(data[off..off + 4], little), little);
    next := off + 4;
  }

  method Read64(data: array<bv8>, off: nat, little: bool) returns (v: bv64, next: nat)
    requires off + 8 <= data.Length
    ensures v == ReadBe64(data[off..off + 8]) && next == off + 8
  {
    ReadIsBigEndian(data[off..off + 8], little);
    v := FromBe64(HostWord64(data[off..off + 8], little), little);
    next := off + 8;
  }

  /** The C++ reader, over the first `size` bytes of a buffer. */
  method Deserialize(data: array<bv8>, size: nat, little: bool) returns (r: Result<Packet>)
    requires size <= data.Length
    ensures r == Decode(data[..size])
  {
    hide ReadBe32, ReadBe64;
    if size < SIZE {
      return Err("buffer too small");
    }
    ghost var d := data[..size];
    assert forall i, j :: 0 <= i <= j <= SIZE ==> d[i..j] == data[i..j];
    var off := 0;
    var option, spot, exponent, market, predicted, ts, crc;
    option, off := Read32(data, off, little);
    spot, off := Read32(data, off, little);
    exponent, off := Read32(data, off, little);
    market, off := Read64(data, off, little);
    predicted, off := Read64(data, off, little);
    ts, off := Read64(data, off, little);
    crc, off := Read32(data, off, little);
    r := Ok(Packet(option, spot, exponent, market, predicted, ts, crc));
  }

  // ---------------------------------------------------------------- Go's reader

  datatype Field = U32 | U64

  datatype Value = V32(v32: bv32) | V64(v64: bv64)

  /** The fields of the Go struct, in declaration order. */
  const GO_FIELDS: seq<Field> := [U32, U32, U32, U64, U64, U64, U32]

  /** Go's reflective decoder: each field takes its bytes off the front of what is left. */
  function GoRead(fields: seq<Field>, b: seq<bv8>): Result<seq<Value>> {
    if fields == [] then Ok([])
    else
      var n := if fields[0] == U32 then 4 else 8;
      if |b| < n then Err("buffer too small")
      else
        var v := if fields[0] == U32 then V32(ReadBe32(b[..4])) else V64(ReadBe64(b[..8]));
        match GoRead(fields[1..], b[n..])
        case Ok(rest) => Ok([v] + rest)
        case Err(e) => Err(e)
  }

  /** The values the C++ reader finds, in packet order. */
  function Values(p: Packet): seq<Value> {
    [V32(p.optionCode), V32(p.spotCode), V32(p.priceExponent),
     V64(p.marketPrice), V64(p.predictedPrice), V64(p.ts), V32(p.crc)]
  }

  /** Both readers accept the same frames and find the same values in them. */
  lemma GoReadsTheSamePacket(b: seq<bv8>)
    ensures GoRead(GO_FIELDS, b)
         == (match Decode(b) case Ok(p) => Ok(Values(p)) case Err(e) => Err(e))
  {
    hide ReadBe32, ReadBe64, GoRead;
    GoReadFields(b, 0);
    assert GO_FIELDS[0..] == GO_FIELDS && b[0..] == b;
    if |b| >= SIZE {
      var values := Values(Decode(b).value);
      assert FieldsFrom(b, 6) == values[6..];
      assert FieldsFrom(b, 5) == values[5..];
      assert FieldsFrom(b, 4) == values[4..];
      assert FieldsFrom(b, 3) == values[3..];
      assert FieldsFrom(b, 2) == values[2..];
      assert FieldsFrom(b, 1) == values[1..];
      assert FieldsFrom(b, 0) == values;
    }
  }

  const OFFSETS: seq<nat> := [0, 4, 8, 12, 20, 28, 36, 40]

  /** The values at the fixed offsets, from the k-th field on. */
  function FieldsFrom(b: seq<bv8>, k: nat): seq<Value>
    requires k <= 7 && |b| >= SIZE
    decreases 7 - k
  {
    if k == 7 then []
    else
      var bytes := b[OFFSETS[k]..OFFSETS[k + 1]];
      [if GO_FIELDS[k] == U32 then V32(ReadBe32(bytes)) else V64(ReadBe64(bytes))]
      + FieldsFrom(b, k + 1)
  }

  lemma {:induction false} GoReadFields(b: seq<bv8>, k: nat)
    requires k <= 7 && OFFSETS[k] <= |b|
    ensures |b| < SIZE ==> k < 7 && GoRead(GO_FIELDS[k..], b[OFFSETS[k]..]) == Err("buffer too small")
    ensures |b| >= SIZE ==> GoRead(GO_FIELDS[k..], b[OFFSETS[k]..]) == Ok(FieldsFrom(b, k))
    decreases 7 - k
  {
    hide ReadBe32, ReadBe64;
    if k < 7 {
      var rest := b[OFFSETS[k]..];
      var n := if GO_FIELDS[k] == U32 then 4 else 8;
      assert GO_FIELDS[k..][1..] == GO_FIELDS[k + 1..];
      if OFFSETS[k + 1] <= |b| {
        assert rest[n..] == b[OFFSETS[k + 1]..];
        assert rest[..n] == b[OFFSETS[k]..OFFSETS[k + 1]];
        GoReadFields(b, k + 1);
      }
    }
  }

  // ---------------------------------------------------------------- round trips

  lemma DecodeOfParts(b: seq<bv8>, p: Packet)
    requires |b| >= SIZE
    requires b[..BODY_SIZE] == Body(p) && b[BODY_SIZE..SIZE] == Be32(p.crc)
    ensures Decode(b) == Ok(p)
  {
    hide Body, Be32, Be64, ReadBe32, ReadBe64;
    var body := b[..BODY_SIZE];
    BodyFields(p);
    assert b[0..4] == body[0..4];
    assert b[4..8] == body[4..8];
    assert b[8..12] == body[8..12];
    assert b[12..20] == body[12..20];
    assert b[20..28] == body[20..28];
    assert b[28..36] == body[28..36];
    ReadWrite(p.optionCode, p.marketPrice);
    ReadWrite(p.spotCode, p.predictedPrice);
    ReadWrite(p.priceExponent, p.ts);
    ReadWrite(p.crc, 0);
  }

  /** Reading back what was written, whatever follows it in the buffer, gives the packet with its
  checksum filled in; writing that again gives the same bytes. */
  lemma RoundTrip(p: Packet, extra: seq<bv8>)
    ensures Decode(Encode(p) + extra) == Ok(Sealed(p))
    ensures Encode(Sealed(p)) == Encode(p)
  {
    hide Be32, Be64, Checksum, Decode;
    assert Body(Sealed(p)) == Body(p);
    DecodeOfParts(Encode(p) + extra, Sealed(p));
  }

  lemma BodyOfDecoded(b: seq<bv8>)
    requires |b| >= SIZE
    ensures Body(Decode(b).value) == b[..BODY_SIZE]
    ensures Be32(Decode(b).value.crc) == b[BODY_SIZE..SIZE]
  {
    hide Be32, Be64, ReadBe32, ReadBe64;
    WriteRead(b[0..4]);
    WriteRead(b[4..8]);
    WriteRead(b[8..12]);
    WriteRead(b[12..20]);
    WriteRead(b[20..28]);
    WriteRead(b[28..36]);
    WriteRead(b[36..40]);
    assert b[..BODY_SIZE] == b[0..4] + b[4..8] + b[8..12] + b[12..20] + b[20..28] + b[28..36];
  }

  /** Writing back what was read reproduces the frame, unless its checksum field is zero and the
  checksum of its body is not: only then does the writer replace the field. */
  lemma RewriteIff(b: seq<bv8>)
    requires |b| >= SIZE
    ensures Encode(Decode(b).value) == b[..SIZE]
       <==> ReadBe32(b[BODY_SIZE..SIZE]) != 0 || Checksum(b[..BODY_SIZE]) == 0
  {
    hide Be32, Be64, ReadBe32, ReadBe64, Checksum, Body;
    var p := Decode(b).value;
    BodyOfDecoded(b);
    assert b[..SIZE] == b[..BODY_SIZE] + b[BODY_SIZE..SIZE];
    ReadWrite(p.crc, 0);
    ReadWrite(Sealed(p).crc, 0);
    assert Encode(p)[BODY_SIZE..] == Be32(Sealed(p).crc);
    assert b[..SIZE][BODY_SIZE..] == Be32(p.crc);
  }

  /** Two packets give the same bytes if and only if they agree once their checksums are filled in. */
  lemma EncodeInjective(p: Packet, q: Packet)
    ensures Encode(p) == Encode(q) <==> Sealed(p) == Sealed(q)
  {
    hide Encode, Decode, Checksum;
    RoundTrip(p, []);
    RoundTrip(q, []);
    assert Encode(p) + [] == Encode(p) && Encode(q) + [] == Encode(q);
  }

  // ---------------------------------------------------------------- corruption

  /** The body as nine 32-bit words. */
  function Words(p: Packet): (w: seq<bv32>)
    ensures |w| == 9
  {
    [p.optionCode, p.spotCode, p.priceExponent,
     High(p.marketPrice), Low(p.marketPrice),
     High(p.predictedPrice), Low(p.predictedPrice),
     High(p.ts), Low(p.ts)]
  }

  lemma BodyFields(p: Packet)
    ensures Body(p)[0..4] == Be32(p.optionCode)
    ensures Body(p)[4..8] == Be32(p.spotCode)
    ensures Body(p)[8..12] == Be32(p.priceExponent)
    ensures Body(p)[12..20] == Be64(p.marketPrice)
    ensures Body(p)[20..28] == Be64(p.predictedPrice)
    ensures Body(p)[28..36] == Be64(p.ts)
  {
    hide Be32, Be64;
  }

  lemma Halves64(b: seq<bv8>, at: nat, v: bv64)
    requires at + 8 <= |b| && b[at..at + 8] == Be64(v)
    ensures b[at..at + 4] == Be32(High(v)) && b[at + 4..at + 8] == Be32(Low(v))
  {
    hide Be32, High, Low;
    assert b[at..at + 4] == b[at..at + 8][..4];
    assert b[at + 4..at + 8] == b[at..at + 8][4..];
  }

  lemma WordsAre(p: Packet)
    ensures var w := Words(p);
      && w[0] == p.optionCode && w[1] == p.spotCode && w[2] == p.priceExponent
      && w[3] == High(p.marketPrice) && w[4] == Low(p.marketPrice)
      && w[5] == High(p.predictedPrice) && w[6] == Low(p.predictedPrice)
      && w[7] == High(p.ts) && w[8] == Low(p.ts)
  {
  }

  lemma BodyWord(p: Packet, w: nat)
    requires w < 9
    ensures Body(p)[4 * w..4 * w + 4] == Be32(Words(p)[w])
  {
    hide Body, Be32, Be64, High, Low, Words;
    BodyFields(p);
    WordsAre(p);
    match w
    case 0 =>
    case 1 =>
    case 2 =>
    case 3 => Halves64(Body(p), 12, p.marketPrice);
    case 4 => Halves64(Body(p), 12, p.marketPrice);
    case 5 => Halves64(Body(p), 20, p.predictedPrice);
    case 6 => Halves64(Body(p), 20, p.predictedPrice);
    case 7 => Halves64(Body(p), 28, p.ts);
    case 8 => Halves64(Body(p), 28, p.ts);
  }

  /** Two packets that ask for a checksum and differ in exactly one 32-bit word of their fields
  are sent with different checksums. */
  lemma OneWordChangeIsDetected(p: Packet, q: Packet, w: nat)
    requires p.crc == 0 && q.crc == 0 && w < 9
    requires Words(p)[w] != Words(q)[w]
    requires forall i :: 0 <= i < 9 && i != w ==> Words(p)[i] == Words(q)[i]
    ensures Sealed(p).crc != Sealed(q).crc
  {
    hide Be32, Body, Words, Checksum;
    var a, b := Body(p), Body(q);
    forall i: nat | i < 9 ensures i != w ==> a[4 * i..4 * i + 4] == b[4 * i..4 * i + 4] {
      BodyWord(p, i);
      BodyWord(q, i);
    }
    BodyWord(p, w);
    BodyWord(q, w);
    ReadWrite(Words(p)[w], 0);
    ReadWrite(Words(q)[w], 0);
    assert a != b;
    forall k: nat | k < BODY_SIZE && !(4 * w <= k < 4 * w + 4) ensures a[k] == b[k] {
      var i := k / 4;
      assert a[k] == a[4 * i..4 * i + 4][k - 4 * i];
      assert b[k] == b[4 * i..4 * i + 4][k - 4 * i];
    }
    FourByteChangeIsDetected(a, b, 4 * w, 4);
  }

  /** There are frames that do change when they are read and written back. */
  lemma SomeFrameChanges() returns (b: seq<bv8>)
    ensures |b| == SIZE
    ensures Encode(Decode(b).value) != b[..SIZE]
  {
    hide Body, Be32, ReadBe32, Checksum, Decode, Encode;
    var p := Packet(0, 0, 0, 0, 0, 0, 0);
    var q := p.(optionCode := 1);
    OneWordChangeIsDetected(p, q, 0);
    var body := if Checksum(Body(p)) != 0 then Body(p) else Body(q);
    b := body + Be32(0);
    assert b[..BODY_SIZE] == body && b[BODY_SIZE..SIZE] == Be32(0);
    ReadWrite(0, 0);
    RewriteIff(b);
  }
}
