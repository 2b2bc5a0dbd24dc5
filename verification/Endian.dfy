/** Byte order: the swaps of `protocol.hpp` and the two ways a host keeps a word in memory.

The host's order is a parameter, so that every statement covers both kinds of host.
*/
module Endian {

  function Bswap32(v: bv32): bv32 {
    ((v & 0x0000_00FF) << 24) |
    ((v & 0x0000_FF00) << 8) |
    ((v & 0x00FF_0000) >> 8) |
    ((v & 0xFF00_0000) >> 24)
  }

  function Bswap64(v: bv64): bv64 {
    ((v & 0x0000_0000_0000_00FF) << 56) |
    ((v & 0x0000_0000_0000_FF00) << 40) |
    ((v & 0x0000_0000_00FF_0000) << 24) |
    ((v & 0x0000_0000_FF00_0000) << 8) |
    ((v & 0x0000_00FF_0000_0000) >> 8) |
    ((v & 0x0000_FF00_0000_0000) >> 24) |
    ((v & 0x00FF_0000_0000_0000) >> 40) |
    ((v & 0xFF00_0000_0000_0000) >> 56)
  }

  function ToBe32(v: bv32, little: bool): bv32 {
    if little then Bswap32(v) else v
  }

  function ToBe64(v: bv64, little: bool): bv64 {
    if little then Bswap64(v) else v
  }

  function FromBe32(v: bv32, little: bool): bv32 {
    if little then Bswap32(v) else v
  }

  function FromBe64(v: bv64, little: bool): bv64 {
    if little then Bswap64(v) else v
  }

  // ---------------------------------------------------------------- words in memory

  /** The k-th byte of v, the least significant being the 0-th. */
  function Byte32(v: bv32, k: nat): bv8
    requires k < 4
  {
    match k
    case 0 => (v & 0xFF) as bv8
    case 1 => ((v >> 8) & 0xFF) as bv8
    case 2 => ((v >> 16) & 0xFF) as bv8
    case 3 => (v >> 24) as bv8
  }

  function Byte64(v: bv64, k: nat): bv8
    requires k < 8
  {
    match k
    case 0 => (v & 0xFF) as bv8
    case 1 => ((v >> 8) & 0xFF) as bv8
    case 2 => ((v >> 16) & 0xFF) as bv8
    case 3 => ((v >> 24) & 0xFF) as bv8
    case 4 => ((v >> 32) & 0xFF) as bv8
    case 5 => ((v >> 40) & 0xFF) as bv8
    case 6 => ((v >> 48) & 0xFF) as bv8
    case 7 => (v >> 56) as bv8
  }

  /** The four bytes of v, most significant first. */
  function Be32(v: bv32): (b: seq<bv8>)
    ensures |b| == 4
  {
    [Byte32(v, 3), Byte32(v, 2), Byte32(v, 1), Byte32(v, 0)]
  }

  function High(v: bv64): bv32 { (v >> 32) as bv32 }

  function Low(v: bv64): bv32 { (v & 0xFFFF_FFFF) as bv32 }

  /** The eight bytes of v, most significant first. */
  function Be64(v: bv64): (b: seq<bv8>)
    ensures |b| == 8
  {
    Be32(High(v)) + Be32(Low(v))
  }

  /** What `memcpy` out of a word of the host yields. */
  function HostBytes32(v: bv32, little: bool): (b: seq<bv8>)
    ensures |b| == 4
  {
    if little then [Byte32(v, 0), Byte32(v, 1), Byte32(v, 2), Byte32(v, 3)]
    else [Byte32(v, 3), Byte32(v, 2), Byte32(v, 1), Byte32(v, 0)]
  }

  function HostBytes64(v: bv64, little: bool): (b: seq<bv8>)
    ensures |b| == 8
  {
    if little then
      [Byte64(v, 0), Byte64(v, 1), Byte64(v, 2), Byte64(v, 3),
       Byte64(v, 4), Byte64(v, 5), Byte64(v, 6), Byte64(v, 7)]
    else
      [Byte64(v, 7), Byte64(v, 6), Byte64(v, 5), Byte64(v, 4),
       Byte64(v, 3), Byte64(v, 2), Byte64(v, 1), Byte64(v, 0)]
  }

  function Join32(b0: bv8, b1: bv8, b2: bv8, b3: bv8): bv32 {
    ((b0 as bv32) << 24) | ((b1 as bv32) << 16) | ((b2 as bv32) << 8) | (b3 as bv32)
  }

  function Join64(high: bv32, low: bv32): bv64 {
    ((high as bv64) << 32) | (low as bv64)
  }

  /** What `memcpy` into a word of the host yields. */
  function HostWord32(b: seq<bv8>, little: bool): bv32
    requires |b| == 4
  {
    if little then Join32(b[3], b[2], b[1], b[0]) else Join32(b[0], b[1], b[2], b[3])
  }

  function HostWord64(b: seq<bv8>, little: bool): bv64
    requires |b| == 8
  {
    if little then Join64(HostWord32(b[4..], true), HostWord32(b[..4], true))
    else Join64(HostWord32(b[..4], false), HostWord32(b[4..], false))
  }

  /** Big-endian reading, as in Go's `binary.BigEndian`. */
  function ReadBe32(b: seq<bv8>): bv32
    requires |b| == 4
  {
    Join32(b[0], b[1], b[2], b[3])
  }

  function ReadBe64(b: seq<bv8>): bv64
    requires |b| == 8
  {
    Join64(ReadBe32(b[..4]), ReadBe32(b[4..]))
  }

  // ---------------------------------------------------------------- byte order does not matter

  /** Swapping and storing gives the bytes in network order on either kind of host. */
  lemma WriteIsBigEndian(v: bv32, w: bv64, little: bool)
    ensures HostBytes32(ToBe32(v, little), little) == Be32(v)
    ensures HostBytes64(ToBe64(w, little), little) == Be64(w)
  {
    hide Bswap32, Bswap64, Byte32, Byte64, High, Low;
    SwapBytes32(v);
    SwapBytes64(w);
    Bytes64(w);
  }

  /** Loading and swapping reads network order on either kind of host. */
  lemma ReadIsBigEndian(b: seq<bv8>, little: bool)
    ensures |b| == 4 ==> FromBe32(HostWord32(b, little), little) == ReadBe32(b)
    ensures |b| == 8 ==> FromBe64(HostWord64(b, little), little) == ReadBe64(b)
  {
    hide Bswap32, Bswap64, Join32, Join64;
    if |b| == 4 {
      SwapJoin32(b[3], b[2], b[1], b[0]);
    } else if |b| == 8 {
      SwapJoin32(b[3], b[2], b[1], b[0]);
      SwapJoin32(b[7], b[6], b[5], b[4]);
      SwapJoin64(HostWord32(b[4..], true), HostWord32(b[..4], true));
    }
  }

  lemma ReadWrite(v: bv32, w: bv64)
    ensures ReadBe32(Be32(v)) == v
    ensures ReadBe64(Be64(w)) == w
  {
    hide Byte32, High, Low, Join32, Join64;
    JoinBytes32(v);
    JoinBytes32(High(w));
    JoinBytes32(Low(w));
    JoinHalves(w);
    assert Be64(w)[..4] == Be32(High(w)) && Be64(w)[4..] == Be32(Low(w));
  }

  lemma WriteRead(b: seq<bv8>)
    ensures |b| == 4 ==> Be32(ReadBe32(b)) == b
    ensures |b| == 8 ==> Be64(ReadBe64(b)) == b
  {
    hide Byte32, High, Low, Join32, Join64;
    if |b| == 4 {
      BytesOfJoin32(b[0], b[1], b[2], b[3]);
    } else if |b| == 8 {
      BytesOfJoin32(b[0], b[1], b[2], b[3]);
      BytesOfJoin32(b[4], b[5], b[6], b[7]);
      HalvesOfJoin(ReadBe32(b[..4]), ReadBe32(b[4..]));
    }
  }

  lemma SwapBytes32(v: bv32)
    ensures Byte32(Bswap32(v), 0) == Byte32(v, 3)
    ensures Byte32(Bswap32(v), 1) == Byte32(v, 2)
    ensures Byte32(Bswap32(v), 2) == Byte32(v, 1)
    ensures Byte32(Bswap32(v), 3) == Byte32(v, 0)
  {
  }

  lemma SwapBytes64(v: bv64)
    ensures Byte64(Bswap64(v), 0) == Byte32(High(v), 3)
    ensures Byte64(Bswap64(v), 1) == Byte32(High(v), 2)
    ensures Byte64(Bswap64(v), 2) == Byte32(High(v), 1)
    ensures Byte64(Bswap64(v), 3) == Byte32(High(v), 0)
    ensures Byte64(Bswap64(v), 4) == Byte32(Low(v), 3)
    ensures Byte64(Bswap64(v), 5) == Byte32(Low(v), 2)
    ensures Byte64(Bswap64(v), 6) == Byte32(Low(v), 1)
    ensures Byte64(Bswap64(v), 7) == Byte32(Low(v), 0)
  {
  }

  lemma Bytes64(v: bv64)
    ensures Byte64(v, 7) == Byte32(High(v), 3)
    ensures Byte64(v, 6) == Byte32(High(v), 2)
    ensures Byte64(v, 5) == Byte32(High(v), 1)
    ensures Byte64(v, 4) == Byte32(High(v), 0)
    ensures Byte64(v, 3) == Byte32(Low(v), 3)
    ensures Byte64(v, 2) == Byte32(Low(v), 2)
    ensures Byte64(v, 1) == Byte32(Low(v), 1)
    ensures Byte64(v, 0) == Byte32(Low(v), 0)
  {
  }

  lemma SwapJoin32(b0: bv8, b1: bv8, b2: bv8, b3: bv8)
    ensures Bswap32(Join32(b0, b1, b2, b3)) == Join32(b3, b2, b1, b0)
  {
  }

  lemma SwapJoin64(high: bv32, low: bv32)
    ensures Bswap64(Join64(high, low)) == Join64(Bswap32(low), Bswap32(high))
  {
    hide Bswap32, Bswap64, Join64, High, Low;
    SwapHalves(Join64(high, low));
    HalvesOfJoin(high, low);
    JoinHalves(Bswap64(Join64(high, low)));
  }

  lemma SwapHalves(v: bv64)
    ensures High(Bswap64(v)) == Bswap32(Low(v))
    ensures Low(Bswap64(v)) == Bswap32(High(v))
  {
  }

  lemma JoinBytes32(v: bv32)
    ensures Join32(Byte32(v, 3), Byte32(v, 2), Byte32(v, 1), Byte32(v, 0)) == v
  {
  }

  lemma BytesOfJoin32(b0: bv8, b1: bv8, b2: bv8, b3: bv8)
    ensures Byte32(Join32(b0, b1, b2, b3), 3) == b0
    ensures Byte32(Join32(b0, b1, b2, b3), 2) == b1
    ensures Byte32(Join32(b0, b1, b2, b3), 1) == b2
    ensures Byte32(Join32(b0, b1, b2, b3), 0) == b3
  {
  }

  lemma JoinHalves(v: bv64)
    ensures Join64(High(v), Low(v)) == v
  {
  }

  lemma HalvesOfJoin(high: bv32, low: bv32)
    ensures High(Join64(high, low)) == high
    ensures Low(Join64(high, low)) == low
  {
  }
}
