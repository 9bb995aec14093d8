/** The code of an MDC-1200 block: checksum, convolutional parity and interleaving,
    and the symbols a row of bits is sent as. */
module MdcCode {
  import opened BitRows
  import opened MdcCrc

  type Word16 = r: Row | |r| == 16 witness seq(16, _ => false)

  /** The 56 information bits: four octets, their checksum, an empty octet. */
  function Info(d: seq<Octet>): (r: Row)
    requires |d| == 4
    ensures |r| == 56
  {
    Bits(d) + Checksum(Bits(d)) + Zero(8)
  }

  function Tap(r: Row, i: int): bool { 0 <= i < |r| && r[i] }

  /** Parity bit n of the convolutional code: bits n, n - 2, n - 5 and n - 6. */
  function ParityBit(info: Row, n: int): bool {
    ((Tap(info, n) != Tap(info, n - 2)) != Tap(info, n - 5)) != Tap(info, n - 6)
  }

  function ParityBits(info: Row): (r: Row)
    ensures |r| == |info| && forall n | 0 <= n < |r| :: r[n] == ParityBit(info, n)
  {
    seq(|info|, n => ParityBit(info, n))
  }

  /** The 112 bits of a block before interleaving. */
  function Coded(d: seq<Octet>): (r: Row)
    requires |d| == 4
    ensures |r| == 112
  {
    Info(d) + ParityBits(Info(d))
  }

  /** Bit p of a block is sent at place 16 (p mod 7) + p / 7. */
  function Place(p: nat): nat { 16 * (p % 7) + p / 7 }

  lemma PlaceOneToOne(p: nat, q: nat)
    requires p < 112 && q < 112
    ensures Place(p) < 112 && (Place(p) == Place(q) ==> p == q)
  {}

  /** The bits of a block in the order in which they are sent. */
  function Interleaved(r: Row): (s: Row)
    requires |r| == 112
    ensures |s| == 112 && forall k | 0 <= k < 112 :: s[k] == r[7 * (k % 16) + k / 16]
  {
    seq(112, k requires 0 <= k < 112 => r[7 * (k % 16) + k / 16])
  }

  /** The order in which the decoder reads them back. */
  function Deinterleaved(s: Row): (r: Row)
    requires |s| == 112
    ensures |r| == 112 && forall p | 0 <= p < 112 :: r[p] == s[Place(p)]
  {
    seq(112, p requires 0 <= p < 112 => s[Place(p)])
  }

  lemma PlaceBack(p: nat)
    requires p < 112
    ensures Place(p) < 112 && 7 * (Place(p) % 16) + Place(p) / 16 == p
  {
    var column, row := p / 7, p % 7;
    assert p == 7 * column + row && column < 16 && row < 7;
    RowAndColumn(row, column);
  }

  lemma RowAndColumn(row: nat, column: nat)
    requires column < 16
    ensures (16 * row + column) / 16 == row && (16 * row + column) % 16 == column
  {}

  /** Reading back undoes the interleaving. */
  lemma InterleaveRoundTrip(r: Row)
    requires |r| == 112
    ensures Deinterleaved(Interleaved(r)) == r
  {
    forall p | 0 <= p < 112 ensures Deinterleaved(Interleaved(r))[p] == r[p] {
      PlaceBack(p);
    }
  }

  /** A row of octets sent from the most significant bit. */
  function Sent(data: seq<Octet>): (r: Row)
    ensures |r| == 8 * |data|
    ensures forall k | 0 <= k < |r| :: r[k] == data[k / 8][7 - k % 8]
  {
    seq(8 * |data|, k requires 0 <= k < 8 * |data| => data[k / 8][7 - k % 8])
  }

  /** The block that carries four octets, as sent. */
  function Block(d: seq<Octet>): (r: Row)
    requires |d| == 4
    ensures |r| == 112
  {
    Interleaved(Coded(d))
  }

  /** The four octets of a packet; a word travels high octet first. */
  function Packet(op: Octet, arg: Octet, unitID: Word16): (d: seq<Octet>)
    ensures |d| == 4
  {
    [op, arg, unitID[8..], unitID[..8]]
  }

  /** Seven octets of alternating bits, then the sync word. */
  function Leader(): (r: seq<Octet>)
    ensures |r| == 12
  {
    [OctetOf(0x55), OctetOf(0x55), OctetOf(0x55), OctetOf(0x55), OctetOf(0x55), OctetOf(0x55), OctetOf(0x55),
     OctetOf(0x07), OctetOf(0x09), OctetOf(0x2a), OctetOf(0x44), OctetOf(0x6f)]
  }

  /** The symbols of a transmission: symbol 0 is always a change; from then on a
      change wherever a bit differs from the one before, the first of which counts
      as 0. */
  function Changes(bits: Row): (r: Row)
    ensures |r| == |bits|
  {
    seq(|bits|, n requires 0 <= n < |bits| => n == 0 || bits[n] != (n > 1 && bits[n - 1]))
  }
}
