/** The checksum of MDC-1200: the loops of mdc_encode.c and mdc_decode.c, the
    shift register they compute, and the errors it detects. */
module MdcCrc {
  import opened BitRows

  /** 0x1021 in a word of w bits. */
  function Poly(w: nat): (r: Row)
    ensures |r| == w && forall i | 0 <= i < w :: r[i] == (i == 0 || i == 5 || i == 12)
  {
    seq(w, i => i == 0 || i == 5 || i == 12)
  }

  /** One step of the register, in a word of at least 16 bits. */
  function Step(reg: Row, b: bool): (r: Row)
    requires |reg| >= 16
    ensures |r| == |reg|
  {
    if reg[15] != b then Xor(Shl(reg), Poly(|reg|)) else Shl(reg)
  }

  /** The register after a row of bits. */
  function Fold(reg: Row, bits: Row): (r: Row)
    requires |reg| >= 16
    ensures |r| == |reg|
    decreases |bits|
  {
    if bits == [] then reg else Step(Fold(reg, bits[..|bits| - 1]), bits[|bits| - 1])
  }

  /** The checksum of a row of bits: the register reversed and complemented. */
  function Checksum(bits: Row): (r: Row)
    ensures |r| == 16
  {
    var reg := Fold(Zero(16), bits);
    seq(16, k requires 0 <= k < 16 => !reg[15 - k])
  }

  lemma FoldMore(reg: Row, bits: Row, b: bool)
    requires |reg| >= 16
    ensures Fold(reg, bits + [b]) == Step(Fold(reg, bits), b)
  {
    assert (bits + [b])[..|bits|] == bits;
  }

  lemma {:induction false} FoldJoin(reg: Row, p: Row, q: Row)
    requires |reg| >= 16
    ensures Fold(reg, p + q) == Fold(Fold(reg, p), q)
    decreases |q|
  {
    if q == [] {
      assert p + q == p;
    } else {
      var n := |q| - 1;
      FoldJoin(reg, p, q[..n]);
      assert (p + q)[..|p + q| - 1] == p + q[..n];
    }
  }

  /** Bits above 15 of the unmasked register never matter: a word of any width
      agrees with the 16-bit register. */
  lemma {:induction false} WideRegister(reg: Row, bits: Row)
    requires |reg| >= 16
    ensures Fold(reg, bits)[..16] == Fold(reg[..16], bits)
    decreases |bits|
  {
    if bits != [] {
      WideRegister(reg, bits[..|bits| - 1]);
    }
  }

  // ------------------------------------------------------------------ the loops

  /** _flip: i is the bit `crc & i` looks at, j the bit `crcout |= j` sets. */
  method Flip(crc: Row, bitnum: nat) returns (crcout: Row)
    requires 0 < bitnum <= |crc|
    ensures |crcout| == |crc|
    ensures forall k | 0 <= k < bitnum :: crcout[k] == crc[bitnum - 1 - k]
    ensures forall k | bitnum <= k < |crc| :: !crcout[k]
  {
    var j := 0;
    crcout := Zero(|crc|);
    var i := bitnum - 1;
    while i >= 0
      invariant -1 <= i < bitnum && j == bitnum - 1 - i && |crcout| == |crc|
      invariant forall k | 0 <= k < j :: crcout[k] == crc[bitnum - 1 - k]
      invariant forall k | j <= k < |crc| :: !crcout[k]
    {
      if crc[i] {
        crcout := crcout[j := true];
      }
      j := j + 1;
      i := i - 1;
    }
  }

  /** One octet of docrc: its bits go in from the least significant one. */
  method CrcOctet(crc0: Row, o: Octet) returns (crc: Row)
    requires |crc0| >= 16
    ensures |crc| == |crc0| && crc == Fold(crc0, o)
  {
    crc := crc0;
    var c: Row := o + Zero(|crc| - 8);
    c := Flip(c, 8);
    var j := 7;
    assert o[..0] == [] && o[..8] == o;
    assert forall k | 0 <= k < 8 :: c[k] == o[7 - k];
    hide Shl, Xor, Poly, Step, Fold;
    FoldEmpty(crc0);
    while j >= 0
      invariant -1 <= j <= 7 && |crc| == |crc0|
      invariant crc == Fold(crc0, o[..7 - j])
    {
      OneBitMore(crc0, o, 7 - j);
      crc := StepBit(crc, c[j]);
      j := j - 1;
    }
  }

  lemma FoldEmpty(reg: Row)
    requires |reg| >= 16
    ensures Fold(reg, []) == reg
  {}

  lemma OneBitMore(reg: Row, o: Octet, n: nat)
    requires |reg| >= 16 && n < 8
    ensures Fold(reg, o[..n + 1]) == Step(Fold(reg, o[..n]), o[n])
  {
    assert o[..n + 1] == o[..n] + [o[n]];
    FoldMore(reg, o[..n], o[n]);
  }

  /** The body of its loop. */
  method StepBit(crc0: Row, b: bool) returns (crc: Row)
    requires |crc0| >= 16
    ensures |crc| == |crc0| && crc == Step(crc0, b)
  {
    var bit := crc0[15];
    crc := Shl(crc0);
    if b {
      bit := !bit;
    }
    if bit {
      crc := Xor(crc, Poly(|crc|));
    }
  }

  lemma BitsMore(p: seq<Octet>, i: nat)
    requires i < |p|
    ensures Bits(p[..i + 1]) == Bits(p[..i]) + p[i]
  {}

  /** The end of docrc: reversed, complemented and cut to 16 bits. */
  method Finish(reg: Row) returns (crc: Row)
    requires |reg| >= 16
    ensures |crc| == |reg|
    ensures forall k | 0 <= k < 16 :: crc[k] == !reg[15 - k]
    ensures forall k | 16 <= k < |crc| :: !crc[k]
  {
    crc := Flip(reg, 16);
    crc := Xor(crc, LowOnes(|crc|));
    crc := And(crc, LowOnes(|crc|));
  }

  /** docrc, in words of `width` bits: `unsigned int` in mdc_decode.c, `unsigned
      long` in mdc_encode.c. */
  method DoCrc(p: seq<Octet>, len: nat, width: nat) returns (crc: Row)
    requires len <= |p| && width >= 16
    ensures crc == Checksum(Bits(p[..len])) + Zero(width - 16)
  {
    hide Bits, Fold;
    crc := Zero(width);
    var i := 0;
    FoldNone(Zero(width), p);
    while i < len
      invariant 0 <= i <= len && |crc| == width
      invariant crc == Fold(Zero(width), Bits(p[..i]))
    {
      FoldJoin(Zero(width), Bits(p[..i]), p[i]);
      BitsMore(p, i);
      crc := CrcOctet(crc, p[i]);
      i := i + 1;
    }
    ghost var reg := crc;
    crc := Finish(crc);
    ChecksumOfWide(reg, Bits(p[..len]), crc);
  }

  lemma FoldNone(reg: Row, p: seq<Octet>)
    requires |reg| >= 16
    ensures Fold(reg, Bits(p[..0])) == reg
  {}

  lemma ChecksumOfWide(reg: Row, bits: Row, crc: Row)
    requires |reg| >= 16 && |crc| == |reg| && reg == Fold(Zero(|reg|), bits)
    requires forall k | 0 <= k < 16 :: crc[k] == !reg[15 - k]
    requires forall k | 16 <= k < |crc| :: !crc[k]
    ensures crc == Checksum(bits) + Zero(|reg| - 16)
  {
    WideRegister(Zero(|reg|), bits);
    assert Zero(|reg|)[..16] == Zero(16);
    ChecksumAt(bits);
    hide Checksum, Fold;
    forall k | 0 <= k < |crc| ensures crc[k] == (Checksum(bits) + Zero(|reg| - 16))[k] {
      if k < 16 { assert reg[15 - k] == reg[..16][15 - k]; }
    }
  }

  lemma ChecksumAt(bits: Row)
    ensures forall k | 0 <= k < 16 :: Checksum(bits)[k] == !Fold(Zero(16), bits)[15 - k]
  {}

  /** 0xffff in a word of w bits. */
  function LowOnes(w: nat): (r: Row)
    ensures |r| == w && forall i | 0 <= i < w :: r[i] == (i < 16)
  {
    seq(w, i => i < 16)
  }
}
