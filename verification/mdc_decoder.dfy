/** mdc_decode.c: the decoder's branches, updated in place symbol by symbol. */
module MdcDecoder {
  import opened BitRows
  import opened MdcCrc
  import opened MdcCode
  import opened MdcDecode
  import opened MdcFeed

  /** _onebits: clears the lowest bit until none is left. */
  method OneBits(word: Row) returns (i: nat)
    ensures i == Ones(word)
  {
    var n := word;
    i := 0;
    OnesOfZero(|word|);
    while n != Zero(|n|)
      invariant |n| == |word| && i + Ones(n) == Ones(word)
      decreases Ones(n)
    {
      assert exists k :: 0 <= k < |n| && n[k];
      i := i + 1;
      DropLowest(n);
      n := And(n, Decrement(n));
    }
  }

  /** The two loops of _procbits that put the captured bits back in order. */
  method Deinterleave(bits: Row) returns (lbits: Row)
    requires |bits| == 112
    ensures lbits == Deinterleaved(bits)
  {
    lbits := [];
    var i := 0;
    while i < 16
      invariant 0 <= i <= 16 && lbits == Deinterleaved(bits)[..7 * i]
    {
      var j := 0;
      while j < 7
        invariant 0 <= j <= 7 && lbits == Deinterleaved(bits)[..7 * i + j]
      {
        var k := j * 16 + i;
        assert Place(7 * i + j) == k;
        lbits := lbits + [bits[k]];
        j := j + 1;
      }
      i := i + 1;
    }
  }

  /** An octet out of eight of them, each set bit by itself. */
  method Gather(lbits: Row, i: nat) returns (o: Octet)
    requires |lbits| == 112 && i < 14
    ensures o == OctetAt(lbits, i)
  {
    o := Zero(8);
    var j := 0;
    while j < 8
      invariant 0 <= j <= 8
      invariant forall q | 0 <= q < j :: o[q] == lbits[8 * i + q]
      invariant forall q | j <= q < 8 :: !o[q]
    {
      var k := i * 8 + j;
      if lbits[k] {
        o := o[j := true];
      }
      j := j + 1;
    }
  }

  method Octets(lbits: Row) returns (data: seq<Octet>)
    requires |lbits| == 112
    ensures |data| == 14 && forall i | 0 <= i < 14 :: data[i] == OctetAt(lbits, i)
  {
    data := [];
    var i := 0;
    while i < 14
      invariant 0 <= i <= 14 && |data| == i
      invariant forall q | 0 <= q < i :: data[q] == OctetAt(lbits, q)
    {
      var o := Gather(lbits, i);
      data := data + [o];
      i := i + 1;
    }
  }

  /** The octets of a captured block, and whether its checksum fits. */
  method ReadBlock(bits: Row) returns (data: seq<Octet>, intact: bool)
    requires |bits| == 112
    ensures |data| == 14 && forall i | 0 <= i < 14 :: data[i] == BlockOctet(bits, i)
    ensures intact == Intact(bits)
  {
    var lbits := Deinterleave(bits);
    data := Octets(lbits);
    var ccrc := DoCrc(data, 4, 32);
    var rcrc := data[4] + data[5] + Zero(16);
    intact := ccrc == rcrc;
    ChecksumFits(bits, data, ccrc, rcrc);
  }

  lemma ChecksumFits(bits: Row, data: seq<Octet>, ccrc: Row, rcrc: Row)
    requires |bits| == 112 && |data| == 14 && forall i | 0 <= i < 14 :: data[i] == BlockOctet(bits, i)
    requires ccrc == Checksum(Bits(data[..4])) + Zero(16) && rcrc == data[4] + data[5] + Zero(16)
    ensures (ccrc == rcrc) == Intact(bits)
  {
    assert data[..4] == [BlockOctet(bits, 0), BlockOctet(bits, 1), BlockOctet(bits, 2), BlockOctet(bits, 3)];
    hide BlockOctet, Checksum, Bits;
    var d4: Row, d5: Row := data[4], data[5];
    assert rcrc[..16] == d4 + d5;
    assert ccrc[..16] == Checksum(Bits(data[..4]));
  }

  /** struct mdc_decoder: MDC_ND branches, the packet read last, and the threshold
      MDC_GDTHRESH. */
  class Decoder {
    const branch: array<Branch>
    const limit: int
    var good: int
    var op: Octet
    var arg: Octet
    var unitID: Word16
    var crc: Word16
    var extra0: Octet
    var extra1: Octet
    var extra2: Octet
    var extra3: Octet

    ghost function View(): Dec
      reads this, branch
    {
      Dec(branch[..], good, op, arg, unitID, crc, extra0, extra1, extra2, extra3)
    }

    /** mdc_decoder_new; the sync registers are not initialised there. */
    constructor (nd: nat, limit: int, high: Row, low: Row)
      requires |high| == |low| == 32
      ensures Fresh(View()) && branch.Length == nd && this.limit == limit && fresh(branch)
    {
      var b := Branch(false, 0, 0, low, high, Zero(112));
      branch := new Branch[nd](_ => b);
      this.limit := limit;
      good := 0;
      op, arg, unitID, crc := Zero(8), Zero(8), Zero(16), Zero(16);
      extra0, extra1, extra2, extra3 := Zero(8), Zero(8), Zero(8), Zero(8);
    }

    /** _clearbits */
    method ClearBits(x: nat)
      requires x < branch.Length && |branch[x].bits| == 112
      modifies branch
      ensures View() == old(View()).(branches := old(branch[..])[x := old(branch[x]).(bits := Zero(112))])
    {
      var i := 0;
      while i < 112
        invariant 0 <= i <= 112 && |branch[x].bits| == 112
        invariant forall q | 0 <= q < i :: !branch[x].bits[q]
        invariant branch[x] == old(branch[x]).(bits := branch[x].bits)
        invariant branch[..] == old(branch[..])[x := branch[x]]
      {
        branch[x] := branch[x].(bits := branch[x].bits[i := false]);
        i := i + 1;
      }
      assert branch[x].bits == Zero(112);
    }

    /** `shstate[k] = 0` for every branch. */
    method HuntAll()
      modifies branch
      ensures View() == old(View()).(branches := AllHunting(old(branch[..])))
    {
      var k := 0;
      while k < branch.Length
        invariant 0 <= k <= branch.Length
        invariant forall q | 0 <= q < k :: branch[q] == old(branch[q]).(shstate := 0)
        invariant forall q | k <= q < branch.Length :: branch[q] == old(branch[q])
      {
        branch[k] := branch[k].(shstate := 0);
        k := k + 1;
      }
      assert branch[..] == AllHunting(old(branch[..]));
    }

    /** The first block of a double packet: the second follows at once. */
    method AwaitSecond(x: nat)
      requires x < branch.Length && |branch[x].bits| == 112
      modifies this`good, branch
      ensures View() == old(View()).(good := 0, branches := old(branch[..])[x :=
                old(branch[x]).(shstate := 2, shcount := 0, bits := Zero(112))])
    {
      good := 0;
      branch[x] := branch[x].(shstate := 2, shcount := 0);
      ClearBits(x);
    }

    /** _procbits */
    method ProcBits(x: nat)
      requires x < branch.Length && |branch[x].bits| == 112
      modifies this, branch
      ensures View() == Process(old(View()), x)
    {
      ghost var d := View();
      var data, intact := ReadBlock(branch[x].bits);
      hide BlockOctet, Intact;
      if intact {
        if branch[x].shstate == 2 {
          extra0 := data[0];
          extra1 := data[1];
          extra2 := data[2];
          extra3 := data[3];
          HuntAll();
          good := 2;
        } else {
          Store(data);
          HuntAll();
          if data[0] == OctetOf(0x35) || data[0] == OctetOf(0x55) {
            hide OctetOf;
            AwaitSecond(x);
          }
        }
      } else {
        branch[x] := branch[x].(shstate := 0);
      }
    }

    /** Two octets as a word. */
    static function Word(high: Row, low: Row): Word16
      requires |high| == |low| == 8
    {
      low + high
    }

    /** The fields of a first or only block. */
    method Store(data: seq<Octet>)
      requires |data| == 14
      modifies this
      ensures View() == old(View()).(good := 1, op := data[0], arg := data[1], unitID := Word(data[2], data[3]),
                                     crc := Word(data[4], data[5]))
    {
      good := 1;
      op := data[0];
      arg := data[1];
      unitID := Word(data[2], data[3]);
      crc := Word(data[4], data[5]);
    }

    /** gcount of _shiftin */
    method Mismatch(synchigh: Row, synclow: Row) returns (gcount: nat)
      requires |synchigh| == |synclow| == 32
      ensures gcount == Distance(synchigh, synclow)
    {
      var a := OneBits(And(LowOctet(), Xor(SyncHigh(), synchigh)));
      var b := OneBits(Xor(SyncLow(), synclow));
      gcount := a + b;
    }

    /** State 0 of _shiftin */
    method HuntStep(x: nat)
      requires x < branch.Length && Sane(branch[x]) && branch[x].shstate == 0
      modifies branch
      ensures View() == old(View()).(branches := old(branch[..])[x := Hunt(old(branch[x]), limit)])
    {
      hide Distance, Shl;
      Slide(x);
      var gcount := Mismatch(branch[x].synchigh, branch[x].synclow);
      if gcount <= limit {
        InSync(x, branch[x].xorb);
      } else if gcount >= 40 - limit {
        InSync(x, !branch[x].xorb);
      }
    }

    /** The two registers move by one bit. */
    method Slide(x: nat)
      requires x < branch.Length && Sane(branch[x])
      modifies branch
      ensures var b := old(branch[x]);
              View() == old(View()).(branches := old(branch[..])[x :=
                b.(synchigh := Shl(b.synchigh)[0 := b.synclow[31]], synclow := Shl(b.synclow)[0 := b.xorb])])
    {
      var b := branch[x];
      var high := Shl(b.synchigh);
      high := high[0 := b.synclow[31]];
      var low := Shl(b.synclow);
      low := low[0 := b.xorb];
      branch[x] := b.(synchigh := high, synclow := low);
    }

    /** The branch is in sync and starts to capture. */
    method InSync(x: nat, xorb: bool)
      requires x < branch.Length && |branch[x].bits| == 112
      modifies branch
      ensures View() == old(View()).(branches := old(branch[..])[x :=
                old(branch[x]).(shstate := 1, shcount := 0, xorb := xorb, bits := Zero(112))])
    {
      branch[x] := branch[x].(shstate := 1, shcount := 0, xorb := xorb);
      ClearBits(x);
    }

    /** States 1 and 2 of _shiftin, before the block is processed. */
    method Capture(x: nat)
      requires x < branch.Length && Sane(branch[x]) && branch[x].shstate != 0
      modifies branch
      ensures var b := old(branch[x]);
              var c := b.(bits := b.bits[b.shcount := b.xorb], shcount := b.shcount + 1);
              View() == old(View()).(branches := old(branch[..])[x := c])
    {
      var b := branch[x];
      branch[x] := b.(bits := b.bits[b.shcount := b.xorb], shcount := b.shcount + 1);
      assert branch[..] == old(branch[..])[x := branch[x]];
    }

    /** _shiftin */
    method ShiftInBit(x: nat)
      requires x < branch.Length && Sane(branch[x])
      modifies this, branch
      ensures View() == ShiftIn(old(View()), x, limit)
    {
      if branch[x].shstate == 0 {
        hide Hunt, Process;
        HuntStep(x);
      } else if branch[x].shstate == 1 || branch[x].shstate == 2 {
        hide Hunt, Process;
        Capture(x);
        if branch[x].shcount > 111 {
          ProcBits(x);
        }
      }
    }

    /** _zcproc, with the zero crossings of the symbol that ended at branch x. */
    method ZcProc(x: nat, zc: int)
      requires x < branch.Length && AllSane(View())
      modifies this, branch
      ensures View() == Symbol(old(View()), x, zc, limit) && AllSane(View())
    {
      ghost var d := View();
      SymbolIs(d, x, zc, limit);
      assert Sane(branch[x]);
      if zc == 3 {
        branch[x] := branch[x].(xorb := !branch[x].xorb);
        assert branch[..] == d.branches[x := branch[x]];
      } else if zc != 2 && zc != 4 {
        return;
      }
      hide ShiftIn, AllSane;
      ShiftInBit(x);
    }

    /** mdc_decoder_get_packet */
    method GetPacket() returns (r: int, op: Octet, arg: Octet, unitID: Word16)
      modifies this
      ensures View() == Taken(old(View()), 1)
      ensures if old(good) == 1 then r == 0 && op == old(this.op) && arg == old(this.arg) && unitID == old(this.unitID)
              else r == -1
    {
      op, arg, unitID := this.op, this.arg, this.unitID;
      if good != 1 {
        return -1, op, arg, unitID;
      }
      good := 0;
      r := 0;
    }

    /** mdc_decoder_get_double_packet */
    method GetDoublePacket() returns (r: int, op: Octet, arg: Octet, unitID: Word16, extra: seq<Octet>)
      modifies this
      ensures View() == Taken(old(View()), 2)
      ensures if old(good) == 2 then r == 0 && op == old(this.op) && arg == old(this.arg) && unitID == old(this.unitID)
                                     && extra == old([extra0, extra1, extra2, extra3])
              else r == -1
    {
      op, arg, unitID := this.op, this.arg, this.unitID;
      extra := [extra0, extra1, extra2, extra3];
      if good != 2 {
        return -1, op, arg, unitID, extra;
      }
      good := 0;
      r := 0;
    }
  }
}
