/** The decoder of mdc_decode.c as values: several branches listen to the same
    signal, each with its own sampling instants, and share one result. */
module MdcDecode {
  import opened BitRows
  import opened MdcCrc
  import opened MdcCode

  /** shstate: 0 looks for the sync word, 1 captures a block, 2 captures the second
      block of a double packet. */
  datatype Branch = Branch(xorb: bool, shstate: int, shcount: nat, synclow: Row, synchigh: Row, bits: Row)

  datatype Dec = Dec(branches: seq<Branch>, good: int,
                     op: Octet, arg: Octet, unitID: Word16, crc: Word16,
                     extra0: Octet, extra1: Octet, extra2: Octet, extra3: Octet)

  /** Widths, and room for the next bit while a block is being captured. */
  predicate Sane(b: Branch) {
    |b.synclow| == 32 && |b.synchigh| == 32 && |b.bits| == 112 && (b.shstate == 0 || b.shcount < 112)
  }

  predicate AllSane(d: Dec) { forall x | 0 <= x < |d.branches| :: Sane(d.branches[x]) }

  // ------------------------------------------------------------------ sync word

  /** 0x00000007, 0x092a446f and 0x000000ff as 32-bit words. */
  function SyncHigh(): (r: Row)
    ensures |r| == 32
  {
    OctetOf(0x07) + Zero(24)
  }

  function SyncLow(): (r: Row)
    ensures |r| == 32
  {
    OctetOf(0x6f) + OctetOf(0x44) + OctetOf(0x2a) + OctetOf(0x09)
  }

  function LowOctet(): (r: Row)
    ensures |r| == 32 && forall i | 0 <= i < 32 :: r[i] == (i < 8)
  {
    Not(Zero(8)) + Zero(24)
  }

  /** gcount in _shiftin: bits in which the last 40 differ from the sync word. */
  function Distance(synchigh: Row, synclow: Row): nat
    requires |synchigh| == |synclow| == 32
  {
    Ones(And(LowOctet(), Xor(SyncHigh(), synchigh))) + Ones(Xor(SyncLow(), synclow))
  }

  /** State 0 of _shiftin, with acceptance threshold `limit`. */
  function Hunt(b: Branch, limit: int): Branch
    requires Sane(b)
  {
    var high := Shl(b.synchigh)[0 := b.synclow[31]];
    var low := Shl(b.synclow)[0 := b.xorb];
    var c := b.(synchigh := high, synclow := low);
    var gcount := Distance(high, low);
    if gcount <= limit then c.(shstate := 1, shcount := 0, bits := Zero(112))
    else if gcount >= 40 - limit then c.(shstate := 1, shcount := 0, xorb := !c.xorb, bits := Zero(112))
    else c
  }

  // ------------------------------------------------------------------ a block

  /** Octet i of a captured block. */
  function BlockOctet(bits: Row, i: nat): Octet
    requires |bits| == 112 && i < 14
  {
    OctetAt(Deinterleaved(bits), i)
  }

  /** The checksum test of _procbits. */
  predicate Intact(bits: Row)
    requires |bits| == 112
  {
    Checksum(Bits([BlockOctet(bits, 0), BlockOctet(bits, 1), BlockOctet(bits, 2), BlockOctet(bits, 3)]))
    == BlockOctet(bits, 4) + BlockOctet(bits, 5)
  }

  predicate IsDouble(op: Octet) { op == OctetOf(0x35) || op == OctetOf(0x55) }

  function AllHunting(bs: seq<Branch>): (r: seq<Branch>)
    ensures |r| == |bs| && forall k | 0 <= k < |r| :: r[k] == bs[k].(shstate := 0)
  {
    seq(|bs|, k requires 0 <= k < |bs| => bs[k].(shstate := 0))
  }

  /** _procbits */
  function Process(d: Dec, x: nat): (r: Dec)
    requires x < |d.branches| && |d.branches[x].bits| == 112
    ensures |r.branches| == |d.branches|
  {
    var b := d.branches[x].bits;
    if !Intact(b) then
      d.(branches := d.branches[x := d.branches[x].(shstate := 0)])
    else if d.branches[x].shstate == 2 then
      d.(extra0 := BlockOctet(b, 0), extra1 := BlockOctet(b, 1), extra2 := BlockOctet(b, 2), extra3 := BlockOctet(b, 3),
         branches := AllHunting(d.branches), good := 2)
    else
      var op := BlockOctet(b, 0);
      var rest := AllHunting(d.branches);
      var e := d.(op := op, arg := BlockOctet(b, 1), unitID := BlockOctet(b, 3) + BlockOctet(b, 2),
                  crc := BlockOctet(b, 5) + BlockOctet(b, 4));
      if IsDouble(op) then
        e.(good := 0, branches := rest[x := rest[x].(shstate := 2, shcount := 0, bits := Zero(112))])
      else
        e.(good := 1, branches := rest)
  }

  /** _shiftin */
  function ShiftIn(d: Dec, x: nat, limit: int): (r: Dec)
    requires x < |d.branches| && Sane(d.branches[x])
    ensures |r.branches| == |d.branches|
  {
    var b := d.branches[x];
    if b.shstate == 0 then d.(branches := d.branches[x := Hunt(b, limit)])
    else if b.shstate == 1 || b.shstate == 2 then
      var c := b.(bits := b.bits[b.shcount := b.xorb], shcount := b.shcount + 1);
      var e := d.(branches := d.branches[x := c]);
      if c.shcount > 111 then Process(e, x) else e
    else d
  }

  /** _zcproc: `zc` zero crossings fell into the symbol that ended. */
  function Symbol(d: Dec, x: nat, zc: int, limit: int): (r: Dec)
    requires x < |d.branches| && Sane(d.branches[x])
    ensures |r.branches| == |d.branches|
  {
    if zc == 2 || zc == 4 then ShiftIn(d, x, limit)
    else if zc == 3 then
      var b := d.branches[x];
      ShiftIn(d.(branches := d.branches[x := b.(xorb := !b.xorb)]), x, limit)
    else d
  }

  /** mdc_decoder_get_packet and mdc_decoder_get_double_packet clear the flag they
      answer to. */
  function Taken(d: Dec, kind: int): Dec { if d.good == kind then d.(good := 0) else d }

  /** mdc_decoder_new for n branches */
  predicate Fresh(d: Dec) {
    && AllSane(d) && d.good == 0
    && forall x | 0 <= x < |d.branches| :: !d.branches[x].xorb && d.branches[x].shstate == 0
                                             && d.branches[x].shcount == 0
  }
}
