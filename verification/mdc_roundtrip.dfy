/** From the fields of a packet to the same fields: the encoder's symbols, heard by
    one branch of the decoder. */
module MdcRoundTrip {
  import opened BitRows
  import opened MdcCrc
  import opened MdcCode
  import opened MdcSync
  import opened MdcDecode
  import opened MdcRuns
  import opened MdcWindow
  import opened MdcFeed

  // ------------------------------------------------------------- the preamble

  /** A branch that hunts has, until it has heard 111 bits, either not synced or not
      yet filled a block. */
  lemma {:induction false} EarlyStates(d: Dec, x: nat, bits: Row, n: nat, p: bool, limit: int)
    requires AllSane(d) && x < |d.branches| && d.branches[x].shstate == 0 && p != d.branches[x].xorb
    requires n <= |bits| && n <= 111 && |bits| > 0 && !bits[0]
    ensures var b, b0 := Feed(d, x, Changes(bits)[..n], limit).branches[x], d.branches[x];
            && Sane(b) && Sane(b0)
            && (Hunts(b, Window(b0.synchigh, b0.synclow), bits, n, p) || (b.shstate == 1 && b.shcount < n))
  {
    var b0 := d.branches[x];
    assert Sane(b0);
    var w0 := Window(b0.synchigh, b0.synclow);
    if n == 0 {
      assert Changes(bits)[..0] == [];
      assert (w0 + Tinted(bits, p))[0..40] == w0;
    } else {
      EarlyStates(d, x, bits, n - 1, p, limit);
      EarlyStep(d, x, bits, n - 1, w0, p, limit);
    }
  }

  lemma EarlyStep(d: Dec, x: nat, bits: Row, n: nat, w0: Row, p: bool, limit: int)
    requires AllSane(d) && x < |d.branches| && p != d.branches[x].xorb
    requires n < |bits| && n < 111 && !bits[0]
    requires var b := Feed(d, x, Changes(bits)[..n], limit).branches[x];
             Hunts(b, w0, bits, n, p) || (b.shstate == 1 && b.shcount < n)
    ensures var b := Feed(d, x, Changes(bits)[..n + 1], limit).branches[x];
            Sane(b) && (Hunts(b, w0, bits, n + 1, p) || (b.shstate == 1 && b.shcount < n + 1))
  {
    var e := Feed(d, x, Changes(bits)[..n], limit);
    FeedMore(d, x, Changes(bits), n, limit);
    var bit := e.branches[x].xorb != Changes(bits)[n];
    ShiftInKeepsSane(e, x, bit, limit);
    assert n == 0 ==> e == d by { assert Changes(bits)[..0] == []; }
    var e' := ShiftIn(WithBit(e, x, bit), x, limit);
    assert Sane(e'.branches[x]);
    if e.branches[x].shstate == 0 {
      HeardBit(bits, n, e.branches[x].xorb, p);
      hide *;
      HuntBit(e, x, w0, bits, n, p, limit);
    } else {
      ShiftInFills(e, x, bit, limit);
      hide Feed, AllSane, ShiftIn, WithBit, Hunts;
    }
  }

  /** The octets of the sync word go out bit by bit. */
  lemma LeaderBits()
    ensures Sent(Leader())[16..56] == RowOf(0xaaaaaaaaaa)
    ensures Sent(Leader())[56..96] == SyncWord()
    ensures !Sent(Leader())[0]
  {
    PreambleBits();
    hide OctetOf, SyncWord, RowOf;
    var s := Sent(Leader());
    forall i | 0 <= i < 40 ensures s[56..96][i] == SyncWord()[i] {
      hide *;
      SentAt(Leader(), 7 + i / 8, i % 8);
      SyncWordAt(i / 8, i % 8);
    }
    forall i | 0 <= i < 40 ensures s[16..56][i] == RowOf(0xaaaaaaaaaa)[i] {
      SentAt(Leader(), 2 + i / 8, i % 8);
      PreambleAt(2 + i / 8);
      hide *;
    }
  }

  lemma PreambleAt(k: nat)
    requires k < 7
    ensures Leader()[k] == OctetOf(0x55)
  {
    hide OctetOf;
  }

  lemma SentAt(data: seq<Octet>, k: nat, m: nat)
    requires k < |data| && m < 8
    ensures Sent(data)[8 * k + m] == data[k][7 - m]
  {}

  /** The last five octets of the leader are the sync word. */
  lemma SyncWordAt(k: nat, m: nat)
    requires k < 5 && m < 8
    ensures SyncWord()[8 * k + m] == Leader()[7 + k][7 - m]
  {
    SyncBytes();
    ReadBackwards();
    hide OctetOf, SyncWord;
  }

  lemma PreambleBits()
    ensures forall i | 0 <= i < 40 :: RowOf(0xaaaaaaaaaa)[i] == OctetOf(0x55)[7 - i % 8]
    ensures !OctetOf(0x55)[7]
  {
    PreambleRow();
    AlternatingOctet();
    hide OctetOf, RowOf;
  }

  lemma PreambleRow()
    ensures RowOf(0xaaaaaaaaaa) == OctetOf(0xaa) + OctetOf(0xaa) + OctetOf(0xaa) + OctetOf(0xaa) + OctetOf(0xaa)
  {}

  lemma AlternatingOctet()
    ensures !OctetOf(0x55)[7] && forall i | 0 <= i < 8 :: OctetOf(0xaa)[i] == OctetOf(0x55)[7 - i]
  {}

  /** The windows over the end of the leader. */
  lemma {:induction false} LeaderWindow(j: nat)
    requires j <= 40
    ensures Sent(Leader())[16 + j..56 + j] == RowOf(Hunted(j))
  {
    LeaderBits();
    hide Sent, Leader, RowOf, SyncWord;
    if j > 0 {
      var s := Sent(Leader());
      LeaderWindow(j - 1);
      assert s[16 + j..56 + j] == s[15 + j..55 + j][1..] + [s[55 + j]];
      assert s[55 + j] == s[56..96][j - 1];
      SyncBit(j - 1);
      SlideRow(Hunted(j - 1), SyncWord()[j - 1]);
    }
  }

  lemma DiffSelf(r: Row)
    ensures Diff(r, r) == 0
  {
    assert Xor(r, r) == Zero(|r|);
    OnesOfZero(|r|);
  }

  ghost predicate Transmission(bits: Row) { |bits| >= 96 && bits[..96] == Sent(Leader()) }

  lemma TransmissionLong(bits: Row)
    requires Transmission(bits)
    ensures |bits| >= 96
  {}

  /** Once 40 bits are in, the window holds nothing else. */
  lemma WindowOf(w0: Row, bits: Row, n: nat, p: bool)
    requires |w0| == 40 && 39 <= n < |bits|
    ensures NextWindow(w0, bits, n, p) == Tinted(bits[n - 39..n + 1], p)
  {}

  lemma LeaderPart(bits: Row, j: nat)
    requires Transmission(bits) && j <= 40
    ensures bits[16 + j..56 + j] == RowOf(Hunted(j))
  {
    LeaderWindow(j);
    assert bits[16 + j..56 + j] == bits[..96][16 + j..56 + j];
  }

  /** j bits into the sync word, heard in either polarity: a match at the end and
      nowhere before. */
  lemma MatchOnlyAtEnd(w0: Row, bits: Row, j: nat, p: bool)
    requires |w0| == 40 && Transmission(bits) && 1 <= j <= 40
    ensures var w := NextWindow(w0, bits, 55 + j, p);
            |w| == 40 && if j < 40 then 18 <= Diff(w, SyncWord()) <= 22 else Diff(w, SyncWord()) == if p then 40 else 0
  {
    hide *;
    TransmissionLong(bits);
    LeaderPart(bits, j);
    WindowOf(w0, bits, 55 + j, p);
    TintedDiff(RowOf(Hunted(j)), SyncWord(), p);
    if j < 40 {
      NoFalseSync(j);
    } else {
      SyncWordReached();
      DiffSelf(SyncWord());
    }
  }

  lemma NoMatch(w0: Row, bits: Row, j: nat, p: bool, limit: int)
    requires |w0| == 40 && Transmission(bits) && 1 <= j < 40 && limit <= 17
    ensures !InSync(NextWindow(w0, bits, 55 + j, p), limit)
  {
    MatchOnlyAtEnd(w0, bits, j, p);
    hide NextWindow, Diff, SyncWord, Transmission;
  }

  /** Symbol n while hunting. */
  lemma HuntSymbol(d: Dec, x: nat, w0: Row, bits: Row, n: nat, p: bool, limit: int)
    requires AllSane(d) && x < |d.branches| && 0 < n < |bits| && !bits[0]
    requires Hunts(Feed(d, x, Changes(bits)[..n], limit).branches[x], w0, bits, n, p)
    ensures var e := Feed(d, x, Changes(bits)[..n], limit);
            var w := NextWindow(w0, bits, n, p);
            && Sane(WithBit(e, x, bits[n] != p).branches[x])
            && Feed(d, x, Changes(bits)[..n + 1], limit) == ShiftIn(WithBit(e, x, bits[n] != p), x, limit)
  {
    var e := Feed(d, x, Changes(bits)[..n], limit);
    assert e.branches[x].xorb == (bits[n - 1] != p);
    HeardBit(bits, n, e.branches[x].xorb, p);
    hide *;
    FeedMore(d, x, Changes(bits), n, limit);
  }

  lemma SyncStep(d: Dec, x: nat, bits: Row, j: nat, w0: Row, p: bool, limit: int)
    requires AllSane(d) && x < |d.branches| && Transmission(bits) && !bits[0] && 1 <= j < 40 && limit <= 17
    requires Hunts(Feed(d, x, Changes(bits)[..55 + j], limit).branches[x], w0, bits, 55 + j, p)
    ensures Hunts(Feed(d, x, Changes(bits)[..56 + j], limit).branches[x], w0, bits, 56 + j, p)
  {
    var n := 55 + j;
    NoMatch(w0, bits, j, p, limit);
    HuntSymbol(d, x, w0, bits, n, p, limit);
    hide *;
    HuntBit(Feed(d, x, Changes(bits)[..n], limit), x, w0, bits, n, p, limit);
  }

  /** While the sync word comes in. */
  lemma {:induction false} SyncRun(d: Dec, x: nat, bits: Row, j: nat, w0: Row, p: bool, limit: int)
    requires AllSane(d) && x < |d.branches| && Transmission(bits) && !bits[0] && j < 40 && 0 <= limit <= 17
    requires Hunts(Feed(d, x, Changes(bits)[..56], limit).branches[x], w0, bits, 56, p)
    ensures Hunts(Feed(d, x, Changes(bits)[..56 + j], limit).branches[x], w0, bits, 56 + j, p)
  {
    hide *;
    if j > 0 {
      SyncRun(d, x, bits, j - 1, w0, p, limit);
      SyncStep(d, x, bits, j, w0, p, limit);
    }
  }

  /** Branch x is ready for a block of the transmission that starts at bit a. */
  ghost predicate Ready(e: Dec, x: nat, bits: Row, a: nat, state: int) {
    && x < |e.branches| && Sane(e.branches[x]) && 0 < a <= |bits|
    && e.branches[x].shstate == state && e.branches[x].shcount == 0 && e.branches[x].xorb == bits[a - 1]
  }

  lemma StillHunting(b: Branch, w0: Row, bits: Row, n: nat, p: bool)
    requires Hunts(b, w0, bits, n, p)
    ensures b.shstate == 0 && |w0| == 40
  {}

  /** The preamble is over and the branch still hunts. */
  lemma PreambleOver(d: Dec, x: nat, bits: Row, limit: int) returns (w0: Row)
    requires AllSane(d) && x < |d.branches| && d.branches[x].shstate == 0 && Transmission(bits)
    requires Feed(d, x, Changes(bits)[..56], limit).branches[x].shstate == 0
    ensures Hunts(Feed(d, x, Changes(bits)[..56], limit).branches[x], w0, bits, 56, !d.branches[x].xorb) && !bits[0]
  {
    var b0 := d.branches[x];
    assert Sane(b0);
    w0 := Window(b0.synchigh, b0.synclow);
    LeaderBits();
    assert bits[0] == bits[..96][0];
    hide Feed, Changes, Sent, Leader, AllSane, Hunts, Sane, Window;
    EarlyStates(d, x, bits, 56, !b0.xorb, limit);
  }

  /** The branch does not sync before the last bit of the sync word. */
  lemma NoEarlySync(d: Dec, x: nat, bits: Row, n: nat, limit: int)
    requires AllSane(d) && x < |d.branches| && d.branches[x].shstate == 0
    requires Transmission(bits) && 0 <= limit <= 17 && 56 <= n < 96
    requires Feed(d, x, Changes(bits)[..56], limit).branches[x].shstate == 0
    ensures Feed(d, x, Changes(bits)[..n], limit).branches[x].shstate == 0
  {
    hide *;
    TransmissionLong(bits);
    var w0 := PreambleOver(d, x, bits, limit);
    var p := !d.branches[x].xorb;
    SyncRun(d, x, bits, n - 56, w0, p, limit);
    StillHunting(Feed(d, x, Changes(bits)[..n], limit).branches[x], w0, bits, n, p);
  }

  /** Four bits into the sync word the window is 18 bits from a match in one
      polarity or the other. */
  lemma LooseMatch(w0: Row, bits: Row, p: bool, limit: int)
    requires |w0| == 40 && Transmission(bits) && limit >= 18
    ensures |bits| >= 60 && InSync(NextWindow(w0, bits, 59, p), limit)
  {
    TransmissionLong(bits);
    LeaderPart(bits, 4);
    WindowOf(w0, bits, 59, p);
    FourDiff(p);
    hide RowOf, Hunted, SyncWord, Diff, NextWindow, Transmission, Tinted;
  }

  lemma FourDiff(p: bool)
    ensures Diff(Tinted(RowOf(Hunted(4)), p), SyncWord()) == if p then 18 else 22
  {
    hide *;
    TintedDiff(RowOf(Hunted(4)), SyncWord(), p);
    FalseSyncAtEighteen();
  }

  lemma LooseSync(d: Dec, x: nat, bits: Row, w0: Row, p: bool, limit: int)
    requires AllSane(d) && x < |d.branches| && Transmission(bits) && |bits| >= 60 && !bits[0] && limit >= 18
    requires Hunts(Feed(d, x, Changes(bits)[..59], limit).branches[x], w0, bits, 59, p)
    ensures Feed(d, x, Changes(bits)[..60], limit).branches[x].shstate == 1
  {
    hide *;
    StillHunting(Feed(d, x, Changes(bits)[..59], limit).branches[x], w0, bits, 59, p);
    LooseMatch(w0, bits, p, limit);
    HuntSymbol(d, x, w0, bits, 59, p, limit);
    HuntBit(Feed(d, x, Changes(bits)[..59], limit), x, w0, bits, 59, p, limit);
  }

  /** A threshold lets the branch hear the sync word out exactly if it is at most
      17. */
  lemma HearsSyncWordIff(d: Dec, x: nat, bits: Row, limit: int)
    requires AllSane(d) && x < |d.branches| && d.branches[x].shstate == 0
    requires Transmission(bits) && 0 <= limit
    requires Feed(d, x, Changes(bits)[..56], limit).branches[x].shstate == 0
    ensures |bits| >= 96
    ensures (forall n | 56 <= n < 96 :: Feed(d, x, Changes(bits)[..n], limit).branches[x].shstate == 0) <==> limit <= 17
  {
    hide *;
    TransmissionLong(bits);
    if limit <= 17 {
      forall n | 56 <= n < 96 ensures Feed(d, x, Changes(bits)[..n], limit).branches[x].shstate == 0 {
        NoEarlySync(d, x, bits, n, limit);
      }
    } else if Feed(d, x, Changes(bits)[..59], limit).branches[x].shstate == 0 {
      var w0 := HuntingLater(d, x, bits, limit);
      LooseSync(d, x, bits, w0, !d.branches[x].xorb, limit);
      assert Feed(d, x, Changes(bits)[..60], limit).branches[x].shstate != 0;
    }
  }

  lemma HuntingLater(d: Dec, x: nat, bits: Row, limit: int) returns (w0: Row)
    requires AllSane(d) && x < |d.branches| && d.branches[x].shstate == 0 && Transmission(bits)
    requires Feed(d, x, Changes(bits)[..59], limit).branches[x].shstate == 0
    ensures Hunts(Feed(d, x, Changes(bits)[..59], limit).branches[x], w0, bits, 59, !d.branches[x].xorb) && !bits[0]
  {
    var b0 := d.branches[x];
    assert Sane(b0);
    w0 := Window(b0.synchigh, b0.synclow);
    LeaderBits();
    assert bits[0] == bits[..96][0];
    hide Feed, Changes, Sent, Leader, AllSane, Hunts, Sane, Window;
    EarlyStates(d, x, bits, 59, !b0.xorb, limit);
  }

  /** Whatever the polarity, the branch syncs on the last bit of the sync word and
      from then on hears the bits as they were sent. */
  lemma SyncsAtEnd(d: Dec, x: nat, bits: Row, limit: int)
    requires AllSane(d) && x < |d.branches| && d.branches[x].shstate == 0
    requires Transmission(bits) && 0 <= limit <= 17
    requires Feed(d, x, Changes(bits)[..56], limit).branches[x].shstate == 0
    ensures Ready(Feed(d, x, Changes(bits)[..96], limit), x, bits, 96, 1)
  {
    hide *;
    TransmissionLong(bits);
    var p := !d.branches[x].xorb;
    var w0 := PreambleOver(d, x, bits, limit);
    SyncRun(d, x, bits, 39, w0, p, limit);
    SyncBitLast(d, x, bits, w0, p, limit);
  }

  lemma LastMatch(w0: Row, bits: Row, p: bool, limit: int)
    requires |w0| == 40 && Transmission(bits) && 0 <= limit <= 17
    ensures |bits| >= 96
    ensures var w := NextWindow(w0, bits, 95, p); InSync(w, limit) && (Diff(w, SyncWord()) > limit) == p
  {
    TransmissionLong(bits);
    MatchOnlyAtEnd(w0, bits, 40, p);
    hide NextWindow, Diff, SyncWord, Transmission;
  }

  lemma SyncBitLast(d: Dec, x: nat, bits: Row, w0: Row, p: bool, limit: int)
    requires AllSane(d) && x < |d.branches| && Transmission(bits) && |bits| >= 96 && !bits[0] && 0 <= limit <= 17
    requires Hunts(Feed(d, x, Changes(bits)[..95], limit).branches[x], w0, bits, 95, p)
    ensures Ready(Feed(d, x, Changes(bits)[..96], limit), x, bits, 96, 1)
  {
    hide *;
    var e := Feed(d, x, Changes(bits)[..95], limit);
    var f := Feed(d, x, Changes(bits)[..96], limit);
    StillHunting(e.branches[x], w0, bits, 95, p);
    LastMatch(w0, bits, p, limit);
    SaneBranch(f, x);
    HuntSymbol(d, x, w0, bits, 95, p, limit);
    HuntBit(e, x, w0, bits, 95, p, limit);
    LastTint(bits[95], p);
    ReadyNow(f, x, bits);
  }

  lemma SaneBranch(d: Dec, x: nat)
    requires AllSane(d) && x < |d.branches|
    ensures Sane(d.branches[x])
  {}

  lemma LastTint(b: bool, p: bool)
    ensures ((b != p) != p) == b
  {}

  lemma ReadyNow(e: Dec, x: nat, bits: Row)
    requires x < |e.branches| && Sane(e.branches[x]) && |bits| >= 96
    requires e.branches[x].shstate == 1 && e.branches[x].shcount == 0 && e.branches[x].xorb == bits[95]
    ensures Ready(e, x, bits, 96, 1)
  {}

  // ---------------------------------------------------------------- the blocks

  /** Branch x has heard n bits of the block that starts at bit a, and nothing else
      has happened since `start`. */
  ghost predicate Capturing(start: Dec, e: Dec, x: nat, bits: Row, a: nat, n: nat, state: int) {
    && x < |start.branches| == |e.branches| && 0 < a && a + 112 <= |bits|
    && OnlyListened(start, e, x) && Fills(e.branches[x], bits[a..a + 112], n, state)
    && e.branches[x].xorb == bits[a + n - 1]
  }

  /** Symbol n while the polarity is right. */
  lemma TrueSymbol(d: Dec, x: nat, bits: Row, n: nat, limit: int)
    requires AllSane(d) && x < |d.branches| && 0 < n < |bits| && !bits[0]
    requires Feed(d, x, Changes(bits)[..n], limit).branches[x].xorb == bits[n - 1]
    ensures var e := Feed(d, x, Changes(bits)[..n], limit);
            && Sane(WithBit(e, x, bits[n]).branches[x])
            && Feed(d, x, Changes(bits)[..n + 1], limit) == ShiftIn(WithBit(e, x, bits[n]), x, limit)
  {
    HeardBit(bits, n, bits[n - 1], false);
    hide *;
    FeedMore(d, x, Changes(bits), n, limit);
  }

  lemma Listened(start: Dec, e: Dec, f: Dec, x: nat)
    requires x < |start.branches| == |e.branches| == |f.branches| && OnlyListened(start, e, x) && OnlyListened(e, f, x)
    ensures OnlyListened(start, f, x)
  {
    assert start.branches[x := e.branches[x]][x := f.branches[x]] == start.branches[x := f.branches[x]];
  }

  lemma CaptureBit(start: Dec, e: Dec, x: nat, bits: Row, a: nat, n: nat, state: int, limit: int)
    requires Capturing(start, e, x, bits, a, n, state) && n < 111 && (state == 1 || state == 2) && AllSane(e)
    requires Sane(WithBit(e, x, bits[a + n]).branches[x])
    ensures Capturing(start, ShiftIn(WithBit(e, x, bits[a + n]), x, limit), x, bits, a, n + 1, state)
  {
    var f := ShiftIn(WithBit(e, x, bits[a + n]), x, limit);
    assert bits[a..a + 112][n] == bits[a + n];
    hide ShiftIn, WithBit, AllSane, Sane, Fills, OnlyListened;
    FillBit(e, x, bits[a..a + 112], n, state, limit);
    Listened(start, e, f, x);
  }

  lemma CaptureStarts(start: Dec, x: nat, bits: Row, a: nat, state: int)
    requires Ready(start, x, bits, a, state) && a + 112 <= |bits|
    ensures Capturing(start, start, x, bits, a, 0, state)
  {
    assert start.branches[x].bits[..0] == bits[a..a + 112][..0];
    assert start.branches[x := start.branches[x]] == start.branches;
  }

  lemma CapturingBit(start: Dec, e: Dec, x: nat, bits: Row, a: nat, n: nat, state: int)
    requires Capturing(start, e, x, bits, a, n, state)
    ensures 0 < a && e.branches[x].xorb == bits[a + n - 1]
  {}

  /** n bits into a block. */
  lemma {:induction false} CaptureRun(d: Dec, x: nat, bits: Row, a: nat, n: nat, state: int, limit: int)
    requires AllSane(d) && x < |d.branches| && |bits| >= a + 112 && n < 112 && (state == 1 || state == 2)
    requires !bits[0] && Ready(Feed(d, x, Changes(bits)[..a], limit), x, bits, a, state)
    ensures Capturing(Feed(d, x, Changes(bits)[..a], limit), Feed(d, x, Changes(bits)[..a + n], limit),
                      x, bits, a, n, state)
  {
    hide *;
    var start := Feed(d, x, Changes(bits)[..a], limit);
    if n == 0 {
      CaptureStarts(start, x, bits, a, state);
    } else {
      CaptureRun(d, x, bits, a, n - 1, state, limit);
      var e := Feed(d, x, Changes(bits)[..a + n - 1], limit);
      CapturingBit(start, e, x, bits, a, n - 1, state);
      TrueSymbol(d, x, bits, a + n - 1, limit);
      CaptureBit(start, e, x, bits, a, n - 1, state, limit);
    }
  }

  /** A block has been heard to its end. */
  ghost predicate Heard(start: Dec, e: Dec, x: nat, block: Row, state: int, last: bool) {
    && x < |start.branches| == |e.branches| && OnlyListened(start, e, x)
    && e.branches[x].bits == block && |block| == 112 && e.branches[x].shstate == state && e.branches[x].xorb == last
    && |e.branches[x].synclow| == |e.branches[x].synchigh| == 32
  }

  lemma CaptureEnd(d: Dec, x: nat, bits: Row, a: nat, state: int, limit: int) returns (e: Dec)
    requires AllSane(d) && x < |d.branches| && |bits| >= a + 112 && (state == 1 || state == 2)
    requires !bits[0] && Ready(Feed(d, x, Changes(bits)[..a], limit), x, bits, a, state)
    ensures Heard(Feed(d, x, Changes(bits)[..a], limit), e, x, bits[a..a + 112], state, bits[a + 111])
    ensures Feed(d, x, Changes(bits)[..a + 112], limit) == Process(e, x)
  {
    hide *;
    var start := Feed(d, x, Changes(bits)[..a], limit);
    CaptureRun(d, x, bits, a, 111, state, limit);
    var f := Feed(d, x, Changes(bits)[..a + 111], limit);
    CapturingBit(start, f, x, bits, a, 111, state);
    TrueSymbol(d, x, bits, a + 111, limit);
    e := LastBitIn(start, f, x, bits, a, state, limit);
  }

  lemma LastBitIn(start: Dec, f: Dec, x: nat, bits: Row, a: nat, state: int, limit: int) returns (e: Dec)
    requires Capturing(start, f, x, bits, a, 111, state) && (state == 1 || state == 2) && AllSane(f)
    requires Sane(WithBit(f, x, bits[a + 111]).branches[x])
    ensures Heard(start, e, x, bits[a..a + 112], state, bits[a + 111])
    ensures ShiftIn(WithBit(f, x, bits[a + 111]), x, limit) == Process(e, x)
  {
    assert bits[a..a + 112][111] == bits[a + 111];
    hide ShiftIn, WithBit, AllSane, Sane, Fills, OnlyListened, Full, Process;
    LastFill(f, x, bits[a..a + 112], state, limit);
    e := Full(f, x, bits[a + 111]);
    FullListened(f, x, bits[a + 111]);
    Listened(start, f, e, x);
    HeardNow(start, e, x, bits[a..a + 112], state, bits[a + 111]);
  }

  lemma FullListened(f: Dec, x: nat, bit: bool)
    requires x < |f.branches| && f.branches[x].shcount < |f.branches[x].bits|
    ensures OnlyListened(f, Full(f, x, bit), x)
  {
    assert f.branches[x := Full(f, x, bit).branches[x]] == Full(f, x, bit).branches;
  }

  lemma HeardNow(start: Dec, e: Dec, x: nat, block: Row, state: int, last: bool)
    requires x < |start.branches| == |e.branches| && OnlyListened(start, e, x)
    requires e.branches[x].bits == block && |block| == 112 && e.branches[x].shstate == state
             && e.branches[x].xorb == last
    requires |e.branches[x].synclow| == |e.branches[x].synchigh| == 32
    ensures Heard(start, e, x, block, state, last)
  {}

  lemma CodedStarts(d: seq<Octet>)
    requires |d| == 4
    ensures Coded(d)[..32] == Bits(d) && Coded(d)[32..48] == Checksum(Bits(d))
  {
    hide Checksum, ParityBits, Bits;
    assert Info(d)[..32] == Bits(d) && Info(d)[32..48] == Checksum(Bits(d));
  }

  lemma CodedOctet(d: seq<Octet>, i: nat)
    requires |d| == 4 && i < 4
    ensures BlockOctet(Block(d), i) == d[i]
  {
    hide Coded, Interleaved, Deinterleaved, Bits, Checksum;
    CodedStarts(d);
    InterleaveRoundTrip(Coded(d));
    OctetOfBits(d, i);
    assert OctetAt(Coded(d), i) == OctetAt(Coded(d)[..32], i);
  }

  lemma CodedChecksum(d: seq<Octet>)
    requires |d| == 4
    ensures BlockOctet(Block(d), 4) + BlockOctet(Block(d), 5) == Checksum(Bits(d))
  {
    hide Coded, Interleaved, Deinterleaved, Bits, Checksum;
    CodedStarts(d);
    InterleaveRoundTrip(Coded(d));
    assert OctetAt(Coded(d), 4) + OctetAt(Coded(d), 5) == Coded(d)[32..48];
  }

  /** A block reads back as the four octets it was made of, and passes the test. */
  lemma BlockReads(d: seq<Octet>)
    requires |d| == 4
    ensures forall i | 0 <= i < 4 :: BlockOctet(Block(d), i) == d[i]
    ensures Intact(Block(d))
  {
    CodedOctet(d, 0);
    CodedOctet(d, 1);
    CodedOctet(d, 2);
    CodedOctet(d, 3);
    CodedChecksum(d);
    hide Checksum, Block, BlockOctet, Bits;
    var b := Block(d);
    assert [BlockOctet(b, 0), BlockOctet(b, 1), BlockOctet(b, 2), BlockOctet(b, 3)] == d;
  }

  ghost predicate Reports(e: Dec, op: Octet, arg: Octet, unitID: Word16) {
    e.op == op && e.arg == arg && e.unitID == unitID
  }

  /** What is stored when a first block passes the test. */
  lemma ProcessFirst(e: Dec, x: nat)
    requires x < |e.branches| && |e.branches[x].bits| == 112
    requires Intact(e.branches[x].bits) && e.branches[x].shstate == 1
    ensures var r, b := Process(e, x), e.branches[x].bits;
            && Reports(r, BlockOctet(b, 0), BlockOctet(b, 1), BlockOctet(b, 3) + BlockOctet(b, 2))
            && r.branches[x].xorb == e.branches[x].xorb
            && |r.branches[x].synclow| == |e.branches[x].synclow|
            && |r.branches[x].synchigh| == |e.branches[x].synchigh|
            && (if IsDouble(BlockOctet(b, 0)) then r.good == 0 && r.branches[x].shstate == 2
                                                   && r.branches[x].shcount == 0 && |r.branches[x].bits| == 112
                else r.good == 1 && forall y | 0 <= y < |r.branches| :: r.branches[y].shstate == 0)
  {
    hide BlockOctet, Intact, IsDouble;
  }

  /** The first block of a packet. */
  lemma FirstReport(start: Dec, e: Dec, x: nat, op: Octet, arg: Octet, unitID: Word16, last: bool)
    requires Heard(start, e, x, Block(Packet(op, arg, unitID)), 1, last)
    ensures var r := Process(e, x);
            && Reports(r, op, arg, unitID)
            && (if IsDouble(op) then r.good == 0 && Sane(r.branches[x]) && r.branches[x].shstate == 2
                                     && r.branches[x].shcount == 0 && r.branches[x].xorb == last
                else r.good == 1 && forall y | 0 <= y < |r.branches| :: r.branches[y].shstate == 0)
  {
    PacketReads(op, arg, unitID);
    hide Block, Packet, BlockOctet, Intact, IsDouble, Process, Reports;
    ProcessFirst(e, x);
  }

  lemma PacketReads(op: Octet, arg: Octet, unitID: Word16)
    ensures var b := Block(Packet(op, arg, unitID));
            && Intact(b) && BlockOctet(b, 0) == op && BlockOctet(b, 1) == arg
            && BlockOctet(b, 3) + BlockOctet(b, 2) == unitID
  {
    BlockReads(Packet(op, arg, unitID));
    assert unitID[..8] + unitID[8..] == unitID;
    hide Block, BlockOctet, Intact;
  }

  /** The second block of a double packet. */
  lemma SecondReport(start: Dec, e: Dec, x: nat, d: seq<Octet>, last: bool)
    requires |d| == 4 && Heard(start, e, x, Block(d), 2, last)
    ensures var r := Process(e, x);
            && r.op == start.op && r.arg == start.arg && r.unitID == start.unitID && r.good == 2
            && r.extra0 == d[0] && r.extra1 == d[1] && r.extra2 == d[2] && r.extra3 == d[3]
  {
    BlockReads(d);
    hide Block, BlockOctet, Intact;
  }

  // ---------------------------------------------- hunting through the preamble

  /** With its last 40 bits before the transmission and its polarity, a branch takes no
      window of the seven octets of preamble for the sync word. */
  ghost predicate QuietStart(b: Branch, limit: int)
    requires |b.synchigh| == |b.synclow| == 32
  {
    forall n | 0 <= n < 56 :: Calm(b, n, limit)
  }

  /** The window over symbol n of the leader does not match. */
  ghost predicate Calm(b: Branch, n: nat, limit: int)
    requires |b.synchigh| == |b.synclow| == 32 && n < 96
  {
    !InSync(NextWindow(Window(b.synchigh, b.synclow), Sent(Leader()), n, !b.xorb), limit)
  }

  lemma CalmIs(b: Branch, n: nat, limit: int, w0: Row, p: bool)
    requires |b.synchigh| == |b.synclow| == 32 && n < 96 && w0 == Window(b.synchigh, b.synclow) && p == !b.xorb
    ensures Calm(b, n, limit) <==> !InSync(NextWindow(w0, Sent(Leader()), n, p), limit)
  {}

  /** A window depends only on what has been heard. */
  lemma NextWindowOf(w0: Row, bits: Row, n: nat, p: bool)
    requires |w0| == 40 && Transmission(bits) && n < 96
    ensures |bits| >= 96 && NextWindow(w0, bits, n, p) == NextWindow(w0, Sent(Leader()), n, p)
  {
    hide Sent, Leader;
    assert Tinted(bits, p)[..n + 1] == Tinted(Sent(Leader()), p)[..n + 1] by {
      forall i | 0 <= i <= n ensures bits[i] == Sent(Leader())[i] { assert bits[i] == bits[..96][i]; }
    }
    hide Tinted;
    PrefixWindow(w0, Tinted(bits, p), n);
    PrefixWindow(w0, Tinted(Sent(Leader()), p), n);
  }

  lemma PrefixWindow(w0: Row, r: Row, n: nat)
    requires |w0| == 40 && n < |r|
    ensures (w0 + r)[n + 1..n + 41] == (w0 + r[..n + 1])[n + 1..]
  {}

  lemma LeaderStartsLow(bits: Row)
    requires Transmission(bits)
    ensures |bits| >= 96 && !bits[0]
  {
    LeaderBits();
    assert bits[0] == bits[..96][0];
  }

  /** One symbol of the preamble: a hunting branch syncs exactly if its window says so,
      and a branch that has synced goes on capturing. */
  lemma PreambleStep(d: Dec, x: nat, bits: Row, n: nat, limit: int)
    requires AllSane(d) && x < |d.branches| && d.branches[x].shstate == 0 && Transmission(bits) && n < 56
    ensures |d.branches[x].synchigh| == |d.branches[x].synclow| == 32
    ensures var b := d.branches[x];
            Feed(d, x, Changes(bits)[..n + 1], limit).branches[x].shstate == 0 <==>
              && Feed(d, x, Changes(bits)[..n], limit).branches[x].shstate == 0
              && Calm(b, n, limit)
  {
    SaneBranch(d, x);
    hide *;
    LeaderStartsLow(bits);
    var b := d.branches[x];
    SaneWidths(b);
    var w0, p := Window(b.synchigh, b.synclow), !b.xorb;
    CalmIs(b, n, limit, w0, p);
    EarlyStates(d, x, bits, n, p, limit);
    NextWindowOf(w0, bits, n, p);
    var e := Feed(d, x, Changes(bits)[..n], limit);
    FeedMore(d, x, Changes(bits), n, limit);
    if e.branches[x].shstate == 0 {
      FeedNone(d, x, Changes(bits), limit);
      HuntsBit(e.branches[x], w0, bits, n, p);
      HeardBit(bits, n, e.branches[x].xorb, p);
      HuntBit(e, x, w0, bits, n, p, limit);
      if !InSync(NextWindow(w0, bits, n, p), limit) {
        StillHunting(Feed(d, x, Changes(bits)[..n + 1], limit).branches[x], w0, bits, n + 1, p);
      }
    } else {
      StaysCapturing(e, x, e.branches[x].xorb != Changes(bits)[n], limit);
    }
  }

  lemma SaneWidths(b: Branch)
    requires Sane(b)
    ensures |b.synchigh| == |b.synclow| == 32
  {}

  lemma FeedNone(d: Dec, x: nat, changes: Row, limit: int)
    requires AllSane(d) && x < |d.branches|
    ensures Feed(d, x, changes[..0], limit) == d
  {}

  lemma HuntsBit(b: Branch, w0: Row, bits: Row, n: nat, p: bool)
    requires Hunts(b, w0, bits, n, p)
    ensures n > 0 ==> n <= |bits| && b.xorb == (bits[n - 1] != p)
  {}

  lemma StaysCapturing(e: Dec, x: nat, bit: bool, limit: int)
    requires x < |e.branches| && Sane(e.branches[x]) && e.branches[x].shstate == 1 && e.branches[x].shcount < 111
    requires Sane(WithBit(e, x, bit).branches[x])
    ensures ShiftIn(WithBit(e, x, bit), x, limit).branches[x].shstate == 1
  {
    ShiftInFills(e, x, bit, limit);
    hide ShiftIn;
  }

  /** A branch hunts through the preamble if and only if its start is quiet. */
  lemma HuntsThroughIff(d: Dec, x: nat, bits: Row, limit: int)
    requires AllSane(d) && x < |d.branches| && d.branches[x].shstate == 0 && Transmission(bits)
    ensures |d.branches[x].synchigh| == |d.branches[x].synclow| == 32
    ensures Feed(d, x, Changes(bits)[..56], limit).branches[x].shstate == 0 <==> QuietStart(d.branches[x], limit)
  {
    SaneBranch(d, x);
    SaneWidths(d.branches[x]);
    HuntsSoFar(d, x, bits, 56, limit);
    hide Calm, Transmission, AllSane, Feed, Changes, Sane;
  }

  lemma {:induction false} HuntsSoFar(d: Dec, x: nat, bits: Row, n: nat, limit: int)
    requires AllSane(d) && x < |d.branches| && d.branches[x].shstate == 0 && Transmission(bits) && n <= 56
    requires |d.branches[x].synchigh| == |d.branches[x].synclow| == 32
    ensures var b := d.branches[x];
            Feed(d, x, Changes(bits)[..n], limit).branches[x].shstate == 0 <==>
              forall k | 0 <= k < n :: Calm(b, k, limit)
  {
    hide *;
    if n == 0 {
      FeedNone(d, x, Changes(bits), limit);
    } else {
      HuntsSoFar(d, x, bits, n - 1, limit);
      PreambleStep(d, x, bits, n - 1, limit);
    }
  }

  /** A branch that has heard the preamble go on for 40 bits before is such a start: its
      registers alternate. */
  lemma AlternatingIsQuiet(b: Branch, limit: int)
    requires |b.synchigh| == |b.synclow| == 32 && limit <= 17
    requires forall i | 0 <= i < 40 :: Window(b.synchigh, b.synclow)[i] == (b.xorb != (i % 2 == 0))
    ensures QuietStart(b, limit)
  {
    var w0, p := Window(b.synchigh, b.synclow), !b.xorb;
    LeaderAlternates();
    hide Window, Sent, Leader, InSync, NextWindow, Calm;
    forall n | 0 <= n < 56 ensures Calm(b, n, limit) {
      CalmIs(b, n, limit, w0, p);
      AlternatingWindow(w0, n, p);
      AlternatingApart(NextWindow(w0, Sent(Leader()), n, p), limit);
    }
  }

  lemma LeaderAlternates()
    ensures forall i | 0 <= i < 56 :: Sent(Leader())[i] == (i % 2 == 1)
  {
    PreambleBits();
    AlternatingOctet();
    FiftyFive();
    hide OctetOf;
  }

  lemma FiftyFive()
    ensures forall k | 0 <= k < 8 :: OctetOf(0x55)[k] == (k % 2 == 0)
  {}

  ghost predicate Alternates(w: Row) { |w| == 40 && forall i | 0 <= i < 40 :: w[i] == (w[0] != (i % 2 == 1)) }

  lemma AlternatingWindow(w0: Row, n: nat, p: bool)
    requires |w0| == 40 && n < 56 && forall i | 0 <= i < 40 :: w0[i] == (!p != (i % 2 == 0))
    requires forall i | 0 <= i < 56 :: Sent(Leader())[i] == (i % 2 == 1)
    ensures Alternates(NextWindow(w0, Sent(Leader()), n, p))
  {
    hide Sent, Leader;
    var r := w0 + Tinted(Sent(Leader()), p);
    forall i | 0 <= i < 96 ensures r[i] == (p != (i % 2 == 1)) {
      if i >= 40 { assert r[i] == (Sent(Leader())[i - 40] != p); }
    }
    forall i | 0 <= i < 40 ensures r[n + 1..n + 41][i] == (r[n + 1..n + 41][0] != (i % 2 == 1)) {
      assert r[n + 1..n + 41][i] == r[n + 1 + i] && r[n + 1..n + 41][0] == r[n + 1];
    }
  }

  /** Both alternating windows are 20 bits from the sync word. */
  lemma AlternatingApart(w: Row, limit: int)
    requires Alternates(w) && limit <= 17
    ensures !InSync(w, limit)
  {
    LeaderAlternates();
    LeaderBits();
    var a := RowOf(Hunted(0));
    var s := Sent(Leader());
    hide Sent, Leader;
    assert a == s[16..56];
    forall i | 0 <= i < 40 ensures w[i] == Tinted(a, w[0])[i] {
      assert a[i] == s[16 + i];
    }
    assert w == Tinted(a, w[0]);
    hide RowOf, Hunted;
    NoFalseSync(0);
    TintedDiff(a, SyncWord(), w[0]);
    hide Diff, SyncWord, Tinted;
  }

  // ------------------------------------------------------------ the round trip

  /** The end of one block is the start of the next. */
  lemma AgainReady(e: Dec, x: nat, bits: Row)
    requires x < |e.branches| && Sane(e.branches[x]) && |bits| >= 208
    requires e.branches[x].shstate == 2 && e.branches[x].shcount == 0 && e.branches[x].xorb == bits[207]
    ensures Ready(e, x, bits, 208, 2)
  {}

  /** A transmission whose first block carries a packet. */
  lemma FirstHeard(d: Dec, x: nat, op: Octet, arg: Octet, unitID: Word16, bits: Row, limit: int)
    requires AllSane(d) && x < |d.branches| && d.branches[x].shstate == 0 && 0 <= limit <= 17
    requires Transmission(bits) && !bits[0] && |bits| >= 208 && bits[96..208] == Block(Packet(op, arg, unitID))
    requires Feed(d, x, Changes(bits)[..56], limit).branches[x].shstate == 0
    ensures var r := Feed(d, x, Changes(bits)[..208], limit);
            && Reports(r, op, arg, unitID)
            && (if IsDouble(op) then r.good == 0 && Ready(r, x, bits, 208, 2) else r.good == 1)
  {
    hide *;
    SyncsAtEnd(d, x, bits, limit);
    var e := CaptureEnd(d, x, bits, 96, 1, limit);
    BlockEnds(Feed(d, x, Changes(bits)[..96], limit), e, x, op, arg, unitID, bits);
  }

  lemma BlockEnds(start: Dec, e: Dec, x: nat, op: Octet, arg: Octet, unitID: Word16, bits: Row)
    requires |bits| >= 208 && Heard(start, e, x, Block(Packet(op, arg, unitID)), 1, bits[207])
    ensures var r := Process(e, x);
            && Reports(r, op, arg, unitID)
            && (if IsDouble(op) then r.good == 0 && Ready(r, x, bits, 208, 2) else r.good == 1)
  {
    assert x < |e.branches| && |e.branches[x].bits| == 112;
    FirstReport(start, e, x, op, arg, unitID, bits[207]);
    hide *;
    if IsDouble(op) {
      AgainReady(Process(e, x), x, bits);
    }
  }

  lemma SecondHeard(d: Dec, x: nat, extra: seq<Octet>, bits: Row, limit: int)
    requires AllSane(d) && x < |d.branches| && |extra| == 4
    requires |bits| >= 320 && !bits[0] && bits[208..320] == Block(extra)
    requires Ready(Feed(d, x, Changes(bits)[..208], limit), x, bits, 208, 2)
    ensures var s, r := Feed(d, x, Changes(bits)[..208], limit), Feed(d, x, Changes(bits)[..320], limit);
            && Reports(r, s.op, s.arg, s.unitID) && r.good == 2
            && [r.extra0, r.extra1, r.extra2, r.extra3] == extra
  {
    hide AllSane, Feed, Ready, Block, Changes, Process, Heard;
    var f := CaptureEnd(d, x, bits, 208, 2, limit);
    var s := Feed(d, x, Changes(bits)[..208], limit);
    SecondReport(s, f, x, extra, bits[319]);
  }

  /** Every packet that is not double comes back as it was set, from any decoder
      whose branch x hunts and has a quiet start, whatever else the decoder holds and
      whatever follows the packet. */
  lemma PacketRoundTrip(d: Dec, x: nat, op: Octet, arg: Octet, unitID: Word16, tail: Row, limit: int)
    requires AllSane(d) && x < |d.branches| && d.branches[x].shstate == 0 && 0 <= limit <= 17 && !IsDouble(op)
    requires |d.branches[x].synchigh| == |d.branches[x].synclow| == 32 && QuietStart(d.branches[x], limit)
    ensures var s := Changes(Sent(Leader()) + Block(Packet(op, arg, unitID)) + tail);
            var r := Feed(d, x, s[..208], limit);
            r.good == 1 && Reports(r, op, arg, unitID)
  {
    var bits := Sent(Leader()) + Block(Packet(op, arg, unitID)) + tail;
    Cut(Sent(Leader()), Block(Packet(op, arg, unitID)), tail);
    LeaderBits();
    hide Feed, Changes, Sent, Leader, Block, IsDouble, AllSane, QuietStart;
    HuntsThroughIff(d, x, bits, limit);
    FirstHeard(d, x, op, arg, unitID, bits, limit);
  }

  lemma Cut(a: Row, b: Row, c: Row)
    requires |a| == 96 && |b| == 112
    ensures var r := a + b + c;
            r[..96] == a && r[96..208] == b && r[208..] == c && r[0] == a[0]
  {}

  /** Every double packet comes back with its four extra octets. */
  lemma DoubleRoundTrip(d: Dec, x: nat, op: Octet, arg: Octet, unitID: Word16, extra: seq<Octet>, tail: Row, limit: int)
    requires AllSane(d) && x < |d.branches| && d.branches[x].shstate == 0 && 0 <= limit <= 17 && IsDouble(op)
    requires |extra| == 4
    requires |d.branches[x].synchigh| == |d.branches[x].synclow| == 32 && QuietStart(d.branches[x], limit)
    ensures var s := Changes(Sent(Leader()) + Block(Packet(op, arg, unitID)) + (Block(extra) + tail));
            var r := Feed(d, x, s[..320], limit);
            && Feed(d, x, s[..208], limit).good == 0
            && r.good == 2 && Reports(r, op, arg, unitID)
            && [r.extra0, r.extra1, r.extra2, r.extra3] == extra
  {
    var bits := Sent(Leader()) + Block(Packet(op, arg, unitID)) + (Block(extra) + tail);
    Cut(Sent(Leader()), Block(Packet(op, arg, unitID)), Block(extra) + tail);
    assert bits[208..320] == bits[208..][..112] == Block(extra);
    LeaderBits();
    hide Feed, Changes, Sent, Leader, Block, IsDouble, AllSane, Ready, QuietStart;
    HuntsThroughIff(d, x, bits, limit);
    FirstHeard(d, x, op, arg, unitID, bits, limit);
    SecondHeard(d, x, extra, bits, limit);
  }
}
