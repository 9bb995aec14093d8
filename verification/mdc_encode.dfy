/** mdc_encode.c: a packet is built in the data buffer in place and then sent bit
    by bit. */
module MdcEncode {
  import opened BitRows
  import opened MdcCrc
  import opened MdcCode

  /** The shift loop over csr[]. */
  method ShiftIn(csr0: seq<bool>, b: bool) returns (csr: seq<bool>)
    requires |csr0| == 7
    ensures csr == [b] + csr0[..6]
  {
    csr := csr0;
    var k := 6;
    while k > 0
      invariant 0 <= k <= 6 && |csr| == 7
      invariant csr[..k + 1] == csr0[..k + 1]
      invariant forall i | k < i < 7 :: csr[i] == csr0[i - 1]
    {
      csr := csr[k := csr[k - 1]];
      k := k - 1;
    }
    csr := csr[0 := b];
  }

  function Int(b: bool): int { if b then 1 else 0 }

  /** What the shift register holds after n bits: the last one first. */
  ghost predicate Holds(csr: seq<bool>, info: Row, n: nat) {
    |csr| == 7 && n <= |info| && forall k | 0 <= k < 7 :: csr[k] == (n - 1 - k >= 0 && info[n - 1 - k])
  }

  /** One bit into the register and the parity bit out of it. */
  lemma HoldsMore(csr: seq<bool>, info: Row, n: nat)
    requires Holds(csr, info, n) && n < |info|
    ensures var c := [info[n]] + csr[..6];
            && Holds(c, info, n + 1)
            && ((Int(c[0]) + Int(c[2]) + Int(c[5]) + Int(c[6])) % 2 == 1) == ParityBit(info, n)
  {
    var c := [info[n]] + csr[..6];
    assert c[0] == Tap(info, n) && c[2] == Tap(info, n - 2) && c[5] == Tap(info, n - 5) && c[6] == Tap(info, n - 6);
  }

  /** A bit goes into the register; the parity bit is the sum of four taps. */
  method ParityStep(csr0: seq<bool>, bit: bool, ghost info: Row, ghost n: nat) returns (csr: seq<bool>, parity: bool)
    requires n < |info| && Holds(csr0, info, n) && bit == info[n]
    ensures Holds(csr, info, n + 1) && parity == ParityBit(info, n)
  {
    HoldsMore(csr0, info, n);
    csr := ShiftIn(csr0, bit);
    var b := Int(csr[0]) + Int(csr[2]) + Int(csr[5]) + Int(csr[6]);
    parity := b % 2 == 1;
  }

  lemma ParityGoal(info: Row, i: nat, o: Octet)
    requires 8 * i + 8 <= |info| && o == OctetAt(info, i)
    ensures forall q | 0 <= q < 8 ::
              OctetAt(ParityBits(info), i)[q] == ParityBit(info, 8 * i + q) && o[q] == info[8 * i + q]
  {}

  /** One octet of the parity loop: eight bits in, eight parity bits out. */
  method ParityOctet(o: Octet, csr0: seq<bool>, ghost info: Row, ghost i: nat) returns (p: Octet, csr: seq<bool>)
    requires 8 * i + 8 <= |info| && Holds(csr0, info, 8 * i) && o == OctetAt(info, i)
    ensures Holds(csr, info, 8 * i + 8)
    ensures p == OctetAt(ParityBits(info), i)
  {
    hide *;
    p := Zero(8);
    csr := csr0;
    var j := 0;
    ghost var goal := OctetAt(ParityBits(info), i);
    ParityGoal(info, i, o);
    while j <= 7
      invariant 0 <= j <= 8
      invariant Holds(csr, info, 8 * i + j)
      invariant forall q | 0 <= q < j :: p[q] == goal[q]
      invariant forall q | j <= q < 8 :: !p[q]
    {
      var parity;
      csr, parity := ParityStep(csr, o[j], info, 8 * i + j);
      if parity {
        p := p[j := true];
      }
      j := j + 1;
    }
  }

  /** The first half of _enc_str: checksum, an empty octet, and seven octets of
      parity. */
  method Encode(data: array<Octet>, off: nat)
    requires off + 14 <= data.Length
    modifies data
    ensures Bits(data[off..off + 14]) == Coded(old(data[off..off + 4]))
    ensures forall k | 0 <= k < data.Length && (k < off || k >= off + 14) :: data[k] == old(data[k])
  {
    ghost var d := data[off..off + 4];
    AddChecksum(data, off);
    ghost var first := data[off..off + 7];
    ghost var info := Info(d);
    AddParity(data, off, info);
    ghost var s := data[off..off + 14];
    assert s[..7] == first && s[7..] == data[off + 7..off + 14];
    JoinHalves(s, info);
  }

  method AddChecksum(data: array<Octet>, off: nat)
    requires off + 14 <= data.Length
    modifies data
    ensures Bits(data[off..off + 7]) == Info(old(data[off..off + 4]))
    ensures forall k | 0 <= k < data.Length && (k < off + 4 || k >= off + 7) :: data[k] == old(data[k])
  {
    ghost var d := data[off..off + 4];
    var ccrc := DoCrc(data[off..off + 4], 4, 64);
    assert d[..4] == d;
    data[off + 4] := ccrc[..8];
    data[off + 5] := ccrc[8..16];
    data[off + 6] := Zero(8);
    assert data[off..off + 7] == d + [ccrc[..8], ccrc[8..16], Zero(8)];
    InfoBits(d, ccrc);
  }

  lemma InfoBits(d: seq<Octet>, ccrc: Row)
    requires |d| == 4 && |ccrc| == 64 && ccrc[..16] == Checksum(Bits(d))
    ensures Bits(d + [ccrc[..8], ccrc[8..16], Zero(8)]) == Info(d)
  {
    var r := Bits(d + [ccrc[..8], ccrc[8..16], Zero(8)]);
    hide Checksum;
    forall n | 0 <= n < 56 ensures r[n] == Info(d)[n] {
      if 32 <= n < 48 {
        assert Info(d)[n] == ccrc[..16][n - 32];
      }
    }
  }

  /** The parity octets of a row. */
  function ParityOctets(info: Row): (r: seq<Octet>)
    requires |info| == 56
    ensures |r| == 7 && forall i | 0 <= i < 7 :: r[i] == OctetAt(ParityBits(info), i)
  {
    seq(7, i requires 0 <= i < 7 => OctetAt(ParityBits(info), i))
  }

  method AddParity(data: array<Octet>, off: nat, ghost info: Row)
    requires off + 14 <= data.Length && info == Bits(data[off..off + 7])
    modifies data
    ensures Bits(data[off + 7..off + 14]) == ParityBits(info)
    ensures forall k | 0 <= k < data.Length && (k < off + 7 || k >= off + 14) :: data[k] == old(data[k])
  {
    ghost var first := data[off..off + 7];
    forall i | 0 <= i < 7 ensures first[i] == OctetAt(info, i) { OctetOfBits(first, i); }
    PutParity(data, off, info, first);
    SameOctets(ParityOctets(info), ParityBits(info));
  }

  /** The loop over the seven octets. */
  method PutParity(data: array<Octet>, off: nat, ghost info: Row, ghost first: seq<Octet>)
    requires off + 14 <= data.Length && |info| == 56 && first == data[off..off + 7]
    requires forall i | 0 <= i < 7 :: first[i] == OctetAt(info, i)
    modifies data
    ensures data[off + 7..off + 14] == ParityOctets(info)
    ensures data[..off + 7] == old(data[..off + 7]) && data[off + 14..] == old(data[off + 14..])
  {
    var csr := seq(7, _ => false);
    assert Holds(csr, info, 0);
    ghost var goal := ParityOctets(info);
    hide ParityBits, Holds, OctetAt;
    var i := 0;
    while i < 7
      invariant 0 <= i <= 7 && Holds(csr, info, 8 * i)
      invariant data[off + 7..off + 7 + i] == goal[..i]
      invariant data[..off + 7] == old(data[..off + 7]) && data[off + 14..] == old(data[off + 14..])
    {
      assert data[off + i] == data[..off + 7][off + i] == first[i];
      var p: Octet;
      p, csr := ParityOctet(data[off + i], csr, info, i);
      data[off + i + 7] := p;
      assert goal[..i + 1] == goal[..i] + [p];
      assert data[off + 7..off + 7 + i + 1] == data[off + 7..off + 7 + i] + [p];
      i := i + 1;
    }
    assert goal[..7] == goal;
  }

  lemma JoinHalves(s: seq<Octet>, info: Row)
    requires |s| == 14 && Bits(s[..7]) == info && Bits(s[7..]) == ParityBits(info)
    ensures Bits(s) == info + ParityBits(info)
  {
    BitsJoin(s[..7], s[7..]);
    assert s == s[..7] + s[7..];
  }

  /** An octet with its bits in reverse. */
  function Turned(o: Octet): (r: Octet)
    ensures forall j | 0 <= j < 8 :: r[j] == o[7 - j]
  {
    [o[7], o[6], o[5], o[4], o[3], o[2], o[1], o[0]]
  }

  /** The second half of _enc_str: the block is interleaved and turned so that the
      most significant bit of an octet is sent first. */
  method Interleave(data: array<Octet>, off: nat)
    requires off + 14 <= data.Length
    modifies data
    ensures Sent(data[off..off + 14]) == Interleaved(Bits(old(data[off..off + 14])))
    ensures forall k | 0 <= k < data.Length && (k < off || k >= off + 14) :: data[k] == old(data[k])
  {
    var lbits := Scatter(data, off);
    Collect(data, off, lbits);
    SentTurned(data[off..off + 14], lbits);
  }

  lemma SentTurned(s: seq<Octet>, lbits: Row)
    requires |s| == 14 && |lbits| == 112 && forall i | 0 <= i < 14 :: s[i] == Turned(OctetAt(lbits, i))
    ensures Sent(s) == lbits
  {
    forall n | 0 <= n < 112 ensures Sent(s)[n] == lbits[n] {
      assert n == 8 * (n / 8) + n % 8;
      assert s[n / 8] == Turned(OctetAt(lbits, n / 8));
    }
  }

  method Scatter(data: array<Octet>, off: nat) returns (lbits: seq<bool>)
    requires off + 14 <= data.Length
    ensures lbits == Interleaved(Bits(data[off..off + 14]))
  {
    ghost var r := Bits(data[off..off + 14]);
    forall i | 0 <= i < 14 ensures data[off..off + 14][i] == OctetAt(r, i) { OctetOfBits(data[off..off + 14], i); }
    lbits := ScatterBits(data, off, r);
    AllPlaces(lbits, r);
  }

  /** The inner loop of the interleaver: k steps by 16 and goes back to the next
      column. */
  method ScatterOctet(o: Octet, lbits0: seq<bool>, k0: nat, m0: nat, ghost r: Row, ghost i: nat)
      returns (lbits: seq<bool>, k: nat, m: nat)
    requires |r| == 112 && i < 14 && o == OctetAt(r, i)
    requires AtPlace(k0, m0, 8 * i) && Scattered(lbits0, r, 8 * i)
    ensures Scattered(lbits, r, 8 * i + 8) && (i < 13 ==> AtPlace(k, m, 8 * i + 8))
  {
    lbits, k, m := lbits0, k0, m0;
    var j := 0;
    assert forall q | 0 <= q < 8 :: o[q] == r[8 * i + q];
    hide *;
    while j <= 7
      invariant 0 <= j <= 8
      invariant 8 * i + j < 112 ==> AtPlace(k, m, 8 * i + j)
      invariant Scattered(lbits, r, 8 * i + j)
    {
      ScatterMore(lbits, r, 8 * i + j, k, m);
      lbits := lbits[k := o[j]];
      k := k + 16;
      if k > 111 {
        m := m + 1;
        k := m;
      }
      j := j + 1;
    }
  }

  /** The loops of the interleaver. */
  method ScatterBits(data: array<Octet>, off: nat, ghost r: Row) returns (lbits: seq<bool>)
    requires off + 14 <= data.Length && |r| == 112 && Spelled(data[off..off + 14], r)
    ensures Scattered(lbits, r, 112)
  {
    hide *;
    lbits := seq(112, _ => false);
    var k, m := 0, 0;
    var i := 0;
    AtPlaceStart();
    ScatterStart(lbits, r);
    while i < 14
      invariant 0 <= i <= 14 && 0 <= k && 0 <= m
      invariant i < 14 ==> AtPlace(k, m, 8 * i)
      invariant Scattered(lbits, r, 8 * i)
    {
      SpelledAt(data[off..off + 14], r, i);
      lbits, k, m := ScatterOctet(data[off + i], lbits, k, m, r, i);
      i := i + 1;
    }
  }

  /** s is a row of octets. */
  ghost predicate Spelled(s: seq<Octet>, r: Row) {
    |r| == 8 * |s| && forall i | 0 <= i < |s| :: s[i] == OctetAt(r, i)
  }

  lemma SpelledAt(s: seq<Octet>, r: Row, i: nat)
    requires Spelled(s, r) && i < |s|
    ensures s[i] == OctetAt(r, i)
  {}

  /** The first n bits are in their places. */
  ghost predicate Scattered(lbits: seq<bool>, r: Row, n: nat) {
    |lbits| == 112 == |r| && n <= 112 && forall p | 0 <= p < n :: Place(p) < 112 && lbits[Place(p)] == r[p]
  }

  /** k is the place of bit n, m the start of its column. */
  ghost predicate AtPlace(k: nat, m: nat, n: nat) { k == Place(n) && m == n / 7 && k < 112 }

  lemma ScatterStart(lbits: seq<bool>, r: Row)
    requires |lbits| == 112 == |r|
    ensures Scattered(lbits, r, 0)
  {}

  lemma AtPlaceStart()
    ensures AtPlace(0, 0, 0)
  {}

  lemma ScatterMore(lbits: seq<bool>, r: Row, n: nat, k: nat, m: nat)
    requires Scattered(lbits, r, n) && n < 112 && AtPlace(k, m, n)
    ensures k < |lbits| && Scattered(lbits[k := r[n]], r, n + 1)
    ensures n + 1 < 112 ==> if k + 16 > 111 then AtPlace(m + 1, m + 1, n + 1) else AtPlace(k + 16, m, n + 1)
  {
    forall p | 0 <= p < n ensures Place(p) != Place(n) { PlaceOneToOne(p, n); }
    NextPlace(n);
    if n + 1 < 112 {
      PlaceOneToOne(n + 1, n + 1);
    }
    hide Place;
  }

  lemma NextPlace(n: nat)
    requires n < 112
    ensures Place(n) + 16 <= 111 ==> Place(n + 1) == Place(n) + 16 && (n + 1) / 7 == n / 7
    ensures Place(n) + 16 > 111 ==> Place(n + 1) == n / 7 + 1 && (n + 1) / 7 == n / 7 + 1
  {}

  lemma AllPlaces(lbits: Row, r: Row)
    requires Scattered(lbits, r, 112)
    ensures lbits == Interleaved(r)
  {
    forall k | 0 <= k < 112 ensures lbits[k] == r[7 * (k % 16) + k / 16] {
      PlaceOf(k);
    }
  }

  lemma PlaceOf(k: nat)
    requires k < 112
    ensures Place(7 * (k % 16) + k / 16) == k && 7 * (k % 16) + k / 16 < 112
  {
    var column, row := k % 16, k / 16;
    assert k == 16 * row + column && row < 7;
    ColumnAndRow(column, row);
  }

  lemma ColumnAndRow(column: nat, row: nat)
    requires row < 7
    ensures (7 * column + row) / 7 == column && (7 * column + row) % 7 == row
  {}

  /** Bits 0 to j are zero. */
  ghost predicate Clear(o: Octet, j: int)
    requires j < 8
  {
    forall q | 0 <= q <= j :: !o[q]
  }

  method Collect(data: array<Octet>, off: nat, lbits: seq<bool>)
    requires off + 14 <= data.Length && |lbits| == 112
    modifies data
    ensures forall i | 0 <= i < 14 :: data[off + i] == Turned(OctetAt(lbits, i))
    ensures forall k | 0 <= k < data.Length && (k < off || k >= off + 14) :: data[k] == old(data[k])
  {
    var k := 0;
    var i := 0;
    while i < 14
      invariant 0 <= i <= 14 && k == 8 * i
      invariant forall q | 0 <= q < i :: data[off + q] == Turned(OctetAt(lbits, q))
      invariant forall q | 0 <= q < data.Length && (q < off || q >= off + 14) :: data[q] == old(data[q])
    {
      data[off + i] := Zero(8);
      var j := 7;
      ghost var goal := Turned(OctetAt(lbits, i));
      while j >= 0
        invariant -1 <= j <= 7 && k == 8 * i + 7 - j
        invariant forall q | 0 <= q < i :: data[off + q] == Turned(OctetAt(lbits, q))
        invariant forall q | 0 <= q < data.Length && (q < off || q >= off + 14) :: data[q] == old(data[q])
        invariant forall q | j < q < 8 :: data[off + i][q] == goal[q]
        invariant Clear(data[off + i], j)
      {
        if lbits[k] {
          data[off + i] := data[off + i][j := true];
        }
        k := k + 1;
        j := j - 1;
      }
      i := i + 1;
    }
  }

  /** _enc_str */
  method EncStr(data: array<Octet>, off: nat)
    requires off + 14 <= data.Length
    modifies data
    ensures Sent(data[off..off + 14]) == Block(old(data[off..off + 4]))
    ensures forall k | 0 <= k < data.Length && (k < off || k >= off + 14) :: data[k] == old(data[k])
  {
    Encode(data, off);
    Interleave(data, off);
  }

  lemma SentJoin(s: seq<Octet>, t: seq<Octet>)
    ensures Sent(s + t) == Sent(s) + Sent(t)
  {
    forall n | 0 <= n < 8 * |s + t| ensures Sent(s + t)[n] == (Sent(s) + Sent(t))[n] {
      if n >= 8 * |s| {
        var m := n - 8 * |s|;
        assert n / 8 == m / 8 + |s| && n % 8 == m % 8;
      }
    }
  }

  lemma ChangeNext(bits: Row, n: nat)
    ensures n + 1 < |bits| ==> Changes(bits)[n + 1] == (bits[n + 1] != (n > 0 && bits[n]))
  {}

  lemma OneMore(bits: Row, n: nat)
    requires n < |bits|
    ensures bits[..n + 1] == bits[..n] + [bits[n]]
  {}

  lemma NextBit(n: nat)
    ensures if n % 8 == 7 then (n + 1) / 8 == n / 8 + 1 && (n + 1) % 8 == 0
            else (n + 1) / 8 == n / 8 && (n + 1) % 8 == n % 8 + 1
  {}

  /** struct mdc_encoder, without the audio phase: `lb` and `xorb` are the bit last
      looked at and whether the tone of the current symbol is the changed one. */
  class Encoder {
    const data: array<Octet>
    var loaded: nat
    var state: nat
    var bpos: nat
    var ipos: nat
    var lb: bool
    var xorb: bool

    /** The buffer has room for the longest packet and the octet after it. */
    ghost predicate Valid()
      reads this
    {
      data.Length >= 41 && (loaded == 0 || loaded == 26 || loaded == 40)
    }

    constructor ()
      ensures Valid() && loaded == 0 && fresh(data)
    {
      data := new Octet[41];
      loaded, state, bpos, ipos, lb, xorb := 0, 0, 0, 0, false, false;
    }

    method EncLeader()
      requires data.Length >= 41
      modifies data
      ensures data[..12] == Leader()
    {
      data[0], data[1], data[2], data[3] := OctetOf(0x55), OctetOf(0x55), OctetOf(0x55), OctetOf(0x55);
      data[4], data[5], data[6] := OctetOf(0x55), OctetOf(0x55), OctetOf(0x55);
      data[7], data[8], data[9], data[10], data[11] :=
        OctetOf(0x07), OctetOf(0x09), OctetOf(0x2a), OctetOf(0x44), OctetOf(0x6f);
      hide OctetOf;
      assert data[..12] == Leader();
    }

    /** Four octets at an offset, then the block made of them. */
    method Put(off: nat, d0: Octet, d1: Octet, d2: Octet, d3: Octet)
      requires off + 14 <= data.Length
      modifies data
      ensures Sent(data[off..off + 14]) == Block([d0, d1, d2, d3])
      ensures data[..off] == old(data[..off])
    {
      hide Sent, Block;
      data[off], data[off + 1], data[off + 2], data[off + 3] := d0, d1, d2, d3;
      assert data[off..off + 4] == [d0, d1, d2, d3];
      EncStr(data, off);
    }

    /** mdc_encoder_set_packet */
    method SetPacket(op: Octet, arg: Octet, unitID: Word16) returns (r: int)
      requires Valid()
      modifies this, data
      ensures Valid()
      ensures if old(loaded) != 0 then r == -1 && loaded == old(loaded) && data[..] == old(data[..])
              else r == 0 && loaded == 26 && state == 0 &&
                   Sent(data[..26]) == Sent(Leader()) + Block(Packet(op, arg, unitID))
    {
      if loaded != 0 {
        return -1;
      }
      hide Sent, Block;
      state := 0;
      EncLeader();
      Put(12, op, arg, unitID[8..], unitID[..8]);
      loaded := 26;
      assert data[..26] == data[..12] + data[12..26];
      SentJoin(data[..12], data[12..26]);
      return 0;
    }

    /** mdc_encoder_set_double_packet */
    method SetDoublePacket(op: Octet, arg: Octet, unitID: Word16,
                           extra0: Octet, extra1: Octet, extra2: Octet, extra3: Octet) returns (r: int)
      requires Valid()
      modifies this, data
      ensures Valid()
      ensures if old(loaded) != 0 then r == -1 && loaded == old(loaded) && data[..] == old(data[..])
              else r == 0 && loaded == 40 && state == 0 &&
                   Sent(data[..40]) ==
                     Sent(Leader()) + Block(Packet(op, arg, unitID)) + Block([extra0, extra1, extra2, extra3])
    {
      if loaded != 0 {
        return -1;
      }
      hide Sent, Block;
      state := 0;
      EncLeader();
      Put(12, op, arg, unitID[8..], unitID[..8]);
      ghost var first := data[12..26];
      Put(26, extra0, extra1, extra2, extra3);
      assert data[12..26] == data[..26][12..26] == first;
      assert data[..12] == data[..26][..12];
      loaded := 40;
      assert data[..40] == data[..12] + data[12..26] + data[26..40];
      SentJoin(data[..12] + data[12..26], data[26..40]);
      SentJoin(data[..12], data[12..26]);
      return 0;
    }

    /** The symbol being sent is number n of a transmission of `bits`. */
    ghost predicate Sending(n: nat, bits: Row)
      reads this
    {
      && Valid() && n < |bits| == 8 * (loaded + 1) && bpos == n / 8 && ipos == n % 8 && state == 1
      && lb == (n > 0 && bits[n]) && xorb == Changes(bits)[n]
    }

    /** The start of mdc_encoder_get_samples */
    method Begin(ghost bits: Row)
      requires Valid() && loaded > 0 && state == 0 && |bits| == 8 * (loaded + 1)
      modifies this
      ensures Sending(0, bits) && loaded == old(loaded) && xorb == Changes(bits)[0]
    {
      bpos := 0;
      ipos := 0;
      state := 1;
      xorb := true;
      lb := false;
    }

    /** The bit at the current position. */
    method CurrentBit(ghost n: nat, ghost bits: Row) returns (b: bool)
      requires Valid() && bpos <= loaded && ipos < 8 && n == 8 * bpos + ipos
      requires bits == Sent(data[..loaded + 1])
      ensures b == bits[n]
    {
      b := data[bpos][7 - ipos];
      assert data[bpos] == data[..loaded + 1][bpos];
    }

    /** The part of _enc_get_samp at the end of a symbol: on to the next bit, or
        the end of the transmission. */
    method Next(ghost n: nat, ghost bits: Row) returns (more: bool)
      requires Sending(n, bits) && bits == Sent(data[..loaded + 1])
      modifies this
      ensures loaded == old(loaded)
      ensures more <==> n + 1 < |bits|
      ensures if more then Sending(n + 1, bits) && xorb == Changes(bits)[n + 1] else Valid() && state == 0
    {
      NextBit(n);
      ChangeNext(bits, n);
      hide Changes, Sent;
      ipos := ipos + 1;
      if ipos > 7 {
        ipos := 0;
        bpos := bpos + 1;
        if bpos > loaded {
          state := 0;
          return false;
        }
      }
      var b := CurrentBit(n + 1, bits);
      if b != lb {
        xorb := true;
        lb := b;
      } else {
        xorb := false;
      }
      return true;
    }

    /** A whole transmission, symbol by symbol: the octets of the buffer up to and
        including the one after the packet. */
    method Transmit() returns (symbols: Row)
      requires Valid() && loaded > 0 && state == 0
      modifies this
      ensures symbols == Changes(Sent(data[..old(loaded) + 1]))
      ensures Valid() && loaded == 0 && state == 0
    {
      ghost var bits := Sent(data[..loaded + 1]);
      hide *;
      Begin(bits);
      symbols := SendAll(bits);
      Unload();
    }

    /** One symbol after the other, from the first. */
    method SendAll(ghost bits: Row) returns (symbols: Row)
      requires Sending(0, bits) && bits == Sent(data[..loaded + 1])
      modifies this
      ensures symbols == Changes(bits) && Valid() && loaded == old(loaded) && state == 0
    {
      ghost var n := 0;
      SendingFirst(bits);
      hide *;
      symbols := [xorb];
      var more := true;
      while more
        invariant loaded == old(loaded) && bits == Sent(data[..loaded + 1])
        invariant n + 1 <= |bits| && symbols == Changes(bits)[..n + 1]
        invariant if more then Sending(n, bits) else Valid() && state == 0 && n + 1 == |bits|
        decreases |bits| - n, more
      {
        more := Next(n, bits);
        if more {
          n := n + 1;
          OneMore(Changes(bits), n);
          symbols := symbols + [xorb];
        }
      }
    }

    lemma SendingFirst(bits: Row)
      requires Sending(0, bits)
      ensures [xorb] == Changes(bits)[..1]
    {
      OneMore(Changes(bits), 0);
    }

    /** The packet has been sent. */
    method Unload()
      requires Valid()
      modifies this`loaded
      ensures Valid() && loaded == 0
    {
      loaded := 0;
    }
  }
}
