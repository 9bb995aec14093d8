/** All branches of the decoder listening to one transmission, symbol by symbol and one
    after the other, in any order, with the packet they share. */
module MdcBranches {
  import opened BitRows
  import opened MdcCode
  import opened MdcSync
  import opened MdcDecode
  import opened MdcRuns
  import opened MdcWindow
  import opened MdcFeed
  import opened MdcRoundTrip

  /** Branch x has heard the next symbol. */
  function Next(d: Dec, x: nat, change: bool, limit: int): (r: Dec)
    requires x < |d.branches| && AllSane(d)
    ensures |r.branches| == |d.branches| && AllSane(r)
  {
    SymbolIs(d, x, if change then 3 else 2, limit);
    Symbol(d, x, if change then 3 else 2, limit)
  }

  predicate Below(order: seq<nat>, n: nat) { forall i | 0 <= i < |order| :: order[i] < n }

  /** Every branch has its turn, once. */
  ghost predicate Turns(order: seq<nat>, n: nat) {
    && |order| == n && Below(order, n)
    && (forall i, j | 0 <= i < j < n :: order[i] != order[j])
    && (forall y | 0 <= y < n :: y in order)
  }

  /** These branches have heard it, in this order. */
  function Round(d: Dec, change: bool, order: seq<nat>, limit: int): (r: Dec)
    requires Below(order, |d.branches|) && AllSane(d)
    ensures |r.branches| == |d.branches| && AllSane(r)
    decreases |order|
  {
    if order == [] then d
    else
      var k := |order| - 1;
      Next(Round(d, change, order[..k], limit), order[k], change, limit)
  }

  ghost predicate AllTurns(orders: seq<seq<nat>>, n: nat) { forall i | 0 <= i < |orders| :: Turns(orders[i], n) }

  /** All branches have heard a row of symbols, each symbol in an order of its own. */
  ghost function Rounds(d: Dec, changes: Row, orders: seq<seq<nat>>, limit: int): (r: Dec)
    requires AllSane(d) && |changes| <= |orders| && AllTurns(orders, |d.branches|)
    ensures |r.branches| == |d.branches| && AllSane(r)
    decreases |changes|
  {
    if changes == [] then d
    else
      var n := |changes| - 1;
      var e := Rounds(d, changes[..n], orders, limit);
      assert Turns(orders[n], |d.branches|);
      Round(e, changes[n], orders[n], limit)
  }

  lemma RoundsMore(d: Dec, changes: Row, orders: seq<seq<nat>>, n: nat, limit: int)
    requires AllSane(d) && n < |changes| && n < |orders| && AllTurns(orders, |d.branches|)
    ensures var e := Rounds(d, changes[..n], orders, limit);
            && |e.branches| == |d.branches| && Turns(orders[n], |d.branches|) && Below(orders[n], |e.branches|)
            && Rounds(d, changes[..n + 1], orders, limit) == Round(e, changes[n], orders[n], limit)
  {
    assert changes[..n + 1][..n] == changes[..n];
    assert Turns(orders[n], |d.branches|);
    hide Round;
  }

  lemma RoundMore(e: Dec, change: bool, order: seq<nat>, k: nat, limit: int)
    requires AllSane(e) && k < |order| && Turns(order, |e.branches|)
    ensures Below(order[..k], |e.branches|) && Below(order[..k + 1], |e.branches|)
    ensures var f, y := Round(e, change, order[..k], limit), order[k];
            && y < |f.branches| == |e.branches|
            && var bit := f.branches[y].xorb != change;
            && Sane(WithBit(f, y, bit).branches[y])
            && Round(e, change, order[..k + 1], limit) == ShiftIn(WithBit(f, y, bit), y, limit)
  {
    var f := Round(e, change, order[..k], limit);
    assert order[..k + 1][..k] == order[..k];
    assert Round(e, change, order[..k + 1], limit) == Next(f, order[k], change, limit);
    hide ShiftIn, WithBit, Round;
    SymbolIs(f, order[k], if change then 3 else 2, limit);
    hide Symbol;
  }

  /** The branch whose turn it is has not had it before; at the end all have. */
  lemma TurnFacts(order: seq<nat>, n: nat, k: nat)
    requires Turns(order, n) && k <= n
    ensures k < n ==> order[k] < n && order[k] !in order[..k] && order[..k + 1] == order[..k] + [order[k]]
    ensures k == n ==> order[..k] == order && forall y | 0 <= y < n :: y in order
  {}

  // ------------------------------------------------------- up to the first block

  /** What a branch that started as b0 has come to after n symbols of a transmission: it
      hunts until the sync word is complete, and then captures the first block, with the
      sync word, or its complement, left in its registers. */
  ghost predicate Stage(b: Branch, b0: Branch, bits: Row, n: nat) {
    && Sane(b0) && |bits| >= 208
    && if n < 96 then Hunts(b, Window(b0.synchigh, b0.synclow), bits, n, !b0.xorb)
       else
         && n < 208 && Fills(b, bits[96..208], n - 96, 1) && b.xorb == bits[n - 1]
         && Window(b.synchigh, b.synclow) == Tinted(SyncWord(), !b0.xorb)
  }

  lemma StageStarts(b0: Branch, bits: Row)
    requires Sane(b0) && b0.shstate == 0 && |bits| >= 208
    ensures Stage(b0, b0, bits, 0)
  {
    var w0 := Window(b0.synchigh, b0.synclow);
    assert (w0 + Tinted(bits, !b0.xorb))[0..40] == w0;
    hide Window, Tinted;
  }

  /** The bit that the branch hears next. */
  lemma StageBit(b: Branch, b0: Branch, bits: Row, n: nat)
    requires Stage(b, b0, bits, n) && n < 208 && !bits[0]
    requires n == 0 ==> b == b0
    ensures n < |bits|
    ensures (b.xorb != Changes(bits)[n]) == (if n < 96 then bits[n] != !b0.xorb else bits[n])
  {
    HeardBit(bits, n, b.xorb, if n < 96 then !b0.xorb else false);
    hide Changes, Window, Tinted, SyncWord, Sane;
  }

  /** A window that is not the last one of the sync word is not taken for it. */
  lemma CalmUntilSync(b0: Branch, bits: Row, n: nat, limit: int)
    requires Sane(b0) && Transmission(bits) && 0 <= limit <= 17 && n < 95
    requires |b0.synchigh| == |b0.synclow| == 32 && QuietStart(b0, limit)
    ensures |bits| >= 96 && !InSync(NextWindow(Window(b0.synchigh, b0.synclow), bits, n, !b0.xorb), limit)
  {
    var w0 := Window(b0.synchigh, b0.synclow);
    CalmAt(b0, n, limit);
    hide *;
    TransmissionLong(bits);
    if n < 56 {
      CalmIs(b0, n, limit, w0, !b0.xorb);
      NextWindowOf(w0, bits, n, !b0.xorb);
    } else {
      NoMatch(w0, bits, n - 55, !b0.xorb, limit);
    }
  }

  lemma CalmAt(b0: Branch, n: nat, limit: int)
    requires |b0.synchigh| == |b0.synclow| == 32 && QuietStart(b0, limit)
    ensures n < 56 ==> Calm(b0, n, limit)
  {}

  lemma StageHunt(e: Dec, y: nat, b0: Branch, bits: Row, n: nat, limit: int)
    requires AllSane(e) && y < |e.branches| && Stage(e.branches[y], b0, bits, n) && n < 95
    requires Transmission(bits) && 0 <= limit <= 17
    requires |b0.synchigh| == |b0.synclow| == 32 && QuietStart(b0, limit)
    requires n < |bits| && Sane(WithBit(e, y, bits[n] != !b0.xorb).branches[y])
    ensures var f := ShiftIn(WithBit(e, y, bits[n] != !b0.xorb), y, limit);
            OnlyListened(e, f, y) && Stage(f.branches[y], b0, bits, n + 1)
  {
    hide AllSane, WithBit, ShiftIn, Hunts, Window, InSync, NextWindow, QuietStart, Transmission, OnlyListened;
    CalmUntilSync(b0, bits, n, limit);
    HuntBit(e, y, Window(b0.synchigh, b0.synclow), bits, n, !b0.xorb, limit);
  }

  /** The registers of a branch that has just synced. */
  lemma SyncedWindow(e: Dec, y: nat, bit: bool, limit: int)
    requires y < |e.branches| && e.branches[y].shstate == 0 && Sane(WithBit(e, y, bit).branches[y])
    ensures |e.branches[y].synchigh| == |e.branches[y].synclow| == 32
    ensures var c, b := ShiftIn(WithBit(e, y, bit), y, limit).branches[y], e.branches[y];
            Sane(c) && Window(c.synchigh, c.synclow) == Window(b.synchigh, b.synclow)[1..] + [bit]
  {
    HuntIs(e.branches[y].(xorb := bit), limit);
    hide Hunt, Window, Diff, SyncWord;
  }

  lemma WholeSyncWord(w0: Row, bits: Row, p: bool)
    requires |w0| == 40 && Transmission(bits)
    ensures |bits| >= 96 && NextWindow(w0, bits, 95, p) == Tinted(SyncWord(), p)
  {
    hide *;
    TransmissionLong(bits);
    LeaderPart(bits, 40);
    SyncWordReached();
    WindowOf(w0, bits, 95, p);
  }

  lemma HuntsWindow(b: Branch, w0: Row, bits: Row, n: nat, p: bool)
    requires Hunts(b, w0, bits, n, p) && n < |bits|
    ensures b.shstate == 0 && |b.synchigh| == |b.synclow| == 32
    ensures Window(b.synchigh, b.synclow)[1..] + [bits[n] != p] == NextWindow(w0, bits, n, p)
  {
    WindowMoves(w0, Tinted(bits, p), n);
    hide Window;
  }

  lemma StageSync(e: Dec, y: nat, b0: Branch, bits: Row, limit: int)
    requires AllSane(e) && y < |e.branches| && Stage(e.branches[y], b0, bits, 95)
    requires Transmission(bits) && 0 <= limit <= 17
    requires Sane(WithBit(e, y, bits[95] != !b0.xorb).branches[y])
    ensures var f := ShiftIn(WithBit(e, y, bits[95] != !b0.xorb), y, limit);
            OnlyListened(e, f, y) && Stage(f.branches[y], b0, bits, 96)
  {
    var p := !b0.xorb;
    var w0 := Window(b0.synchigh, b0.synclow);
    var f := ShiftIn(WithBit(e, y, bits[95] != p), y, limit);
    hide AllSane, WithBit, ShiftIn, Hunts, Window, InSync, NextWindow, Transmission, OnlyListened, Diff, SyncWord,
        Tinted;
    HuntsWindow(e.branches[y], w0, bits, 95, p);
    HuntBit(e, y, w0, bits, 95, p, limit);
    LastMatch(w0, bits, p, limit);
    SyncedWindow(e, y, bits[95] != p, limit);
    WholeSyncWord(w0, bits, p);
    assert f.branches[y].bits[..0] == bits[96..208][..0];
  }

  lemma StageFill(e: Dec, y: nat, b0: Branch, bits: Row, n: nat, limit: int)
    requires AllSane(e) && y < |e.branches| && Stage(e.branches[y], b0, bits, n) && 96 <= n < 207
    requires Sane(WithBit(e, y, bits[n]).branches[y])
    ensures var f := ShiftIn(WithBit(e, y, bits[n]), y, limit);
            OnlyListened(e, f, y) && Stage(f.branches[y], b0, bits, n + 1)
  {
    var block := bits[96..208];
    var k: nat := n - 96;
    assert block[k] == bits[n];
    FillBit(e, y, block, k, 1, limit);
    ShiftInFills(e, y, bits[n], limit);
    hide ShiftIn, Process, Window, Tinted, SyncWord, OnlyListened, Fills;
  }

  /** The next symbol at branch y. */
  lemma StageStep(e: Dec, y: nat, b0: Branch, bits: Row, n: nat, limit: int)
    requires AllSane(e) && y < |e.branches| && Stage(e.branches[y], b0, bits, n) && n < 207
    requires n == 0 ==> e.branches[y] == b0
    requires Transmission(bits) && !bits[0] && 0 <= limit <= 17
    requires |b0.synchigh| == |b0.synclow| == 32 && QuietStart(b0, limit)
    requires n < |bits|
    requires Sane(WithBit(e, y, e.branches[y].xorb != Changes(bits)[n]).branches[y])
    ensures var f := ShiftIn(WithBit(e, y, e.branches[y].xorb != Changes(bits)[n]), y, limit);
            OnlyListened(e, f, y) && Stage(f.branches[y], b0, bits, n + 1)
  {
    StageBit(e.branches[y], b0, bits, n);
    hide *;
    if n < 95 {
      StageHunt(e, y, b0, bits, n, limit);
    } else if n == 95 {
      StageSync(e, y, b0, bits, limit);
    } else {
      StageFill(e, y, b0, bits, n, limit);
    }
  }

  // ------------------------------------------------------------- all branches

  /** Nothing but the branches has changed since d. */
  ghost predicate SameReport(d: Dec, e: Dec) { |e.branches| == |d.branches| && e == d.(branches := e.branches) }

  /** n symbols are over, and the next one at these branches. */
  ghost predicate AllAt(d: Dec, e: Dec, bits: Row, n: nat, heard: seq<nat>) {
    && SameReport(d, e)
    && (forall y | 0 <= y < |e.branches| :: Stage(e.branches[y], d.branches[y], bits, if y in heard then n + 1 else n))
    && (n == 0 ==> forall y | 0 <= y < |e.branches| && y !in heard :: e.branches[y] == d.branches[y])
  }

  /** Every branch hunts and has a quiet start. */
  ghost predicate AllQuiet(d: Dec, limit: int) {
    forall y | 0 <= y < |d.branches| ::
      && Sane(d.branches[y]) && d.branches[y].shstate == 0
      && |d.branches[y].synchigh| == |d.branches[y].synclow| == 32 && QuietStart(d.branches[y], limit)
  }

  lemma QuietAt(d: Dec, y: nat, limit: int)
    requires AllQuiet(d, limit) && y < |d.branches|
    ensures Sane(d.branches[y]) && d.branches[y].shstate == 0
    ensures |d.branches[y].synchigh| == |d.branches[y].synclow| == 32 && QuietStart(d.branches[y], limit)
  {}

  lemma OneOn(d: Dec, e: Dec, f: Dec, bits: Row, n: nat, heard: seq<nat>, y: nat)
    requires AllAt(d, e, bits, n, heard) && y < |e.branches| == |f.branches|
    requires OnlyListened(e, f, y) && Stage(f.branches[y], d.branches[y], bits, n + 1)
    ensures AllAt(d, f, bits, n, heard + [y])
  {
    hide Stage;
  }

  lemma AtBranch(d: Dec, e: Dec, bits: Row, n: nat, heard: seq<nat>, y: nat)
    requires AllAt(d, e, bits, n, heard) && y < |e.branches| && y !in heard
    ensures |e.branches| == |d.branches| && Stage(e.branches[y], d.branches[y], bits, n)
    ensures n == 0 ==> e.branches[y] == d.branches[y]
  {}

  lemma {:induction false} RoundStage(d: Dec, e: Dec, bits: Row, n: nat, order: seq<nat>, k: nat, limit: int)
    requires AllQuiet(d, limit) && AllSane(e) && AllAt(d, e, bits, n, []) && k <= |order| && Turns(order, |e.branches|)
    requires Transmission(bits) && !bits[0] && 0 <= limit <= 17 && n < 207 && n < |bits|
    ensures Below(order[..k], |e.branches|)
            && AllAt(d, Round(e, Changes(bits)[n], order[..k], limit), bits, n, order[..k])
    decreases k
  {
    TurnsBelow(order, |e.branches|, k);
    hide *;
    if k == 0 {
      RoundNone(e, Changes(bits)[n], limit);
      assert order[..0] == [];
    } else {
      var i: nat := k - 1;
      RoundStage(d, e, bits, n, order, i, limit);
      RoundMore(e, Changes(bits)[n], order, i, limit);
      TurnFacts(order, |e.branches|, i);
      var f := Round(e, Changes(bits)[n], order[..i], limit);
      var y := order[i];
      AtBranch(d, f, bits, n, order[..i], y);
      QuietAt(d, y, limit);
      StageStep(f, y, d.branches[y], bits, n, limit);
      OneOn(d, f, Round(e, Changes(bits)[n], order[..k], limit), bits, n, order[..i], y);
    }
  }

  lemma TurnsBelow(order: seq<nat>, n: nat, k: nat)
    requires Turns(order, n) && k <= |order|
    ensures |order| == n && Below(order[..k], n)
  {}

  lemma RoundNone(e: Dec, change: bool, limit: int)
    requires AllSane(e)
    ensures Round(e, change, [], limit) == e
  {}

  lemma AllOn(d: Dec, e: Dec, bits: Row, n: nat, order: seq<nat>)
    requires Turns(order, |e.branches|) && AllAt(d, e, bits, n, order)
    ensures AllAt(d, e, bits, n + 1, [])
  {
    hide Stage;
  }

  lemma AllStart(d: Dec, bits: Row, limit: int)
    requires AllQuiet(d, limit) && |bits| >= 208
    ensures AllSane(d) && AllAt(d, d, bits, 0, [])
  {
    forall y | 0 <= y < |d.branches| ensures Sane(d.branches[y]) && Stage(d.branches[y], d.branches[y], bits, 0) {
      QuietAt(d, y, limit);
      StageStarts(d.branches[y], bits);
    }
  }

  /** Until the last bit of the first block all branches go on alike, and nothing is
      reported. */
  lemma {:induction false} RoundsStage(d: Dec, bits: Row, orders: seq<seq<nat>>, n: nat, limit: int)
    requires AllQuiet(d, limit) && AllSane(d) && Transmission(bits) && !bits[0] && 0 <= limit <= 17
    requires n <= 207 && |bits| >= 208 && |orders| >= 207 && AllTurns(orders, |d.branches|)
    ensures AllAt(d, Rounds(d, Changes(bits)[..n], orders, limit), bits, n, [])
    decreases n
  {
    hide *;
    if n == 0 {
      RoundsNone(d, Changes(bits), orders, limit);
      AllStart(d, bits, limit);
    } else {
      var i: nat := n - 1;
      RoundsStage(d, bits, orders, i, limit);
      RoundsMore(d, Changes(bits), orders, i, limit);
      var e := Rounds(d, Changes(bits)[..i], orders, limit);
      RoundStage(d, e, bits, i, orders[i], |orders[i]|, limit);
      assert orders[i][..|orders[i]|] == orders[i];
      AllOn(d, Rounds(d, Changes(bits)[..n], orders, limit), bits, i, orders[i]);
    }
  }

  lemma RoundsNone(d: Dec, changes: Row, orders: seq<seq<nat>>, limit: int)
    requires AllSane(d) && AllTurns(orders, |d.branches|)
    ensures Rounds(d, changes[..0], orders, limit) == d
  {}

  // -------------------------------------------------- the end of the first block

  /** One bit behind the sync word, its window matches in neither polarity. */
  lemma AfterSync(p: bool, bit: bool, limit: int)
    requires 0 <= limit <= 17
    ensures !InSync(Tinted(SyncWord(), p)[1..] + [bit], limit)
  {
    var w := Tinted(SyncWord(), p)[1..] + [bit];
    var v := SyncWord()[1..] + [bit != p];
    assert w == Tinted(v, p);
    SyncShifted(bit != p);
    hide SyncWord;
    TintedDiff(v, SyncWord(), p);
    hide Diff, Tinted;
  }

  lemma SyncShifted(bit: bool)
    ensures 18 <= Diff(SyncWord()[1..] + [bit], SyncWord()) <= 22
  {
    SlideRow(0xf6225490e0, bit);
    DiffOf(Slide(0xf6225490e0, bit), 0xf6225490e0);
    ShiftedCount(bit);
    hide Diff, RowOf, Slide, CountOf;
  }

  lemma ShiftedCount(bit: bool)
    ensures 18 <= CountOf(Slide(0xf6225490e0, bit) ^ 0xf6225490e0) <= 22
  {
    if bit {
      assert CountOf(0x0d337ed890) == 19;
      assert Slide(0xf6225490e0, true) ^ 0xf6225490e0 == 0x0d337ed890;
    } else {
      assert CountOf(0x8d337ed890) == 20;
      assert Slide(0xf6225490e0, false) ^ 0xf6225490e0 == 0x8d337ed890;
    }
  }

  /** A branch that another one has sent back to hunting hears the bit at which it would
      itself have completed its block. */
  lemma MissesBlock(e: Dec, y: nat, b: Branch, b0: Branch, bits: Row, limit: int)
    requires AllSane(e) && y < |e.branches| && Stage(b, b0, bits, 207) && e.branches[y] == b.(shstate := 0)
    requires 0 <= limit <= 17 && !bits[0]
    requires Sane(WithBit(e, y, e.branches[y].xorb != Changes(bits)[207]).branches[y])
    ensures var f := ShiftIn(WithBit(e, y, e.branches[y].xorb != Changes(bits)[207]), y, limit);
            OnlyListened(e, f, y) && Sane(f.branches[y]) && f.branches[y].shstate == 0
  {
    StageBit(b, b0, bits, 207);
    var bit := bits[207];
    var c := e.branches[y].(xorb := bit);
    AfterSync(!b0.xorb, bit, limit);
    HuntIs(c, limit);
    assert e.branches[y := c][y := Hunt(c, limit)] == e.branches[y := Hunt(c, limit)];
    hide Hunt, Window, Tinted, SyncWord, Diff, Changes, Fills, Hunts;
  }

  /** An intact first block sends every other branch back to hunting. */
  lemma ProcessOthers(e: Dec, x: nat, y: nat)
    requires x < |e.branches| && |e.branches[x].bits| == 112 && Intact(e.branches[x].bits)
    requires y < |e.branches| && y != x
    ensures Process(e, x).branches[y] == e.branches[y].(shstate := 0)
  {
    hide Intact, BlockOctet, IsDouble;
  }

  /** The first block is over at these branches: branch w, the first of them, has stored
      it, the others have gone back to hunting. */
  ghost predicate FirstOver(d: Dec, e: Dec, r: Dec, bits: Row, w: nat, heard: seq<nat>,
                            op: Octet, arg: Octet, unitID: Word16) {
    && w < |e.branches| == |r.branches| == |d.branches| && Reports(r, op, arg, unitID)
    && (if IsDouble(op) then r.good == 0 && Ready(r, w, bits, 208, 2) else r.good == 1)
    && forall y | 0 <= y < |r.branches| && y != w ::
         if y in heard then Sane(r.branches[y]) && r.branches[y].shstate == 0
         else r.branches[y] == e.branches[y].(shstate := 0)
  }

  lemma FirstBranchDone(d: Dec, e: Dec, bits: Row, order: seq<nat>, op: Octet, arg: Octet, unitID: Word16, limit: int)
    requires AllSane(e) && AllAt(d, e, bits, 207, []) && 0 < |e.branches| && Turns(order, |e.branches|)
    requires |bits| >= 208 && !bits[0] && bits[96..208] == Block(Packet(op, arg, unitID))
    ensures Below(order[..1], |e.branches|)
    ensures FirstOver(d, e, Round(e, Changes(bits)[207], order[..1], limit), bits, order[0], order[..1],
                      op, arg, unitID)
  {
    TurnsBelow(order, |e.branches|, 1);
    assert order[..0] == [] && order[..1] == [order[0]];
    RoundMore(e, Changes(bits)[207], order, 0, limit);
    RoundNone(e, Changes(bits)[207], limit);
    hide *;
    FirstBitHeard(d, e, bits, order[0], op, arg, unitID, limit);
  }

  lemma FirstBitHeard(d: Dec, e: Dec, bits: Row, w: nat, op: Octet, arg: Octet, unitID: Word16, limit: int)
    requires AllSane(e) && AllAt(d, e, bits, 207, []) && w < |e.branches|
    requires |bits| >= 208 && !bits[0] && bits[96..208] == Block(Packet(op, arg, unitID))
    requires Sane(WithBit(e, w, e.branches[w].xorb != Changes(bits)[207]).branches[w])
    ensures var r := ShiftIn(WithBit(e, w, e.branches[w].xorb != Changes(bits)[207]), w, limit);
            FirstOver(d, e, r, bits, w, [w], op, arg, unitID)
  {
    AtBranch(d, e, bits, 207, [], w);
    var b := e.branches[w];
    var block := bits[96..208];
    FirstFills(b, d.branches[w], bits);
    StageBit(b, d.branches[w], bits, 207);
    hide *;
    LastFill(e, w, block, 1, limit);
    var g := Full(e, w, block[111]);
    FullListened(e, w, block[111]);
    FullWidths(e, w, block[111]);
    HeardNow(e, g, w, block, 1, bits[207]);
    BlockEnds(e, g, w, op, arg, unitID, bits);
    PacketReads(op, arg, unitID);
    FirstGathered(d, e, g, bits, w, op, arg, unitID);
  }

  lemma FirstFills(b: Branch, b0: Branch, bits: Row)
    requires Stage(b, b0, bits, 207)
    ensures |bits| >= 208 && Fills(b, bits[96..208], 111, 1) && b.shcount < |b.bits| && bits[96..208][111] == bits[207]
  {}

  lemma FullWidths(e: Dec, x: nat, bit: bool)
    requires x < |e.branches| && Sane(e.branches[x]) && e.branches[x].shcount < |e.branches[x].bits|
    ensures var b := Full(e, x, bit).branches[x]; |b.synclow| == |b.synchigh| == 32
    ensures forall y | 0 <= y < |e.branches| && y != x :: Full(e, x, bit).branches[y] == e.branches[y]
  {}

  lemma FirstGathered(d: Dec, e: Dec, g: Dec, bits: Row, w: nat, op: Octet, arg: Octet, unitID: Word16)
    requires w < |e.branches| == |g.branches| == |d.branches| && |g.branches[w].bits| == 112
             && Intact(g.branches[w].bits)
    requires forall y | 0 <= y < |e.branches| && y != w :: g.branches[y] == e.branches[y]
    requires var r := Process(g, w);
             && Reports(r, op, arg, unitID)
             && (if IsDouble(op) then r.good == 0 && Ready(r, w, bits, 208, 2) else r.good == 1)
    ensures FirstOver(d, e, Process(g, w), bits, w, [w], op, arg, unitID)
  {
    hide Process, Ready, Reports, Intact, IsDouble;
    forall y | 0 <= y < |e.branches| && y != w ensures Process(g, w).branches[y] == e.branches[y].(shstate := 0) {
      ProcessOthers(g, w, y);
    }
  }

  /** Another branch: nothing it does touches the report, or branch w. */
  lemma OtherBranchDone(d: Dec, e: Dec, r: Dec, f: Dec, bits: Row, w: nat, heard: seq<nat>, y: nat,
                        op: Octet, arg: Octet, unitID: Word16)
    requires FirstOver(d, e, r, bits, w, heard, op, arg, unitID) && y != w && y < |r.branches| == |f.branches|
    requires OnlyListened(r, f, y) && Sane(f.branches[y]) && f.branches[y].shstate == 0
    ensures FirstOver(d, e, f, bits, w, heard + [y], op, arg, unitID)
  {}

  lemma AtOther(d: Dec, e: Dec, r: Dec, bits: Row, w: nat, heard: seq<nat>, y: nat,
                op: Octet, arg: Octet, unitID: Word16)
    requires FirstOver(d, e, r, bits, w, heard, op, arg, unitID) && y != w && y < |r.branches| && y !in heard
    ensures |e.branches| == |r.branches| && r.branches[y] == e.branches[y].(shstate := 0)
  {}

  lemma {:induction false} FirstRound(d: Dec, e: Dec, bits: Row, order: seq<nat>, k: nat, op: Octet, arg: Octet,
                                      unitID: Word16, limit: int)
    requires AllSane(e) && AllAt(d, e, bits, 207, []) && 1 <= k <= |order| && 0 <= limit <= 17
    requires Turns(order, |e.branches|)
    requires |bits| >= 208 && !bits[0] && bits[96..208] == Block(Packet(op, arg, unitID))
    ensures Below(order[..k], |e.branches|)
    ensures FirstOver(d, e, Round(e, Changes(bits)[207], order[..k], limit), bits, order[0], order[..k],
                      op, arg, unitID)
    decreases k
  {
    TurnsBelow(order, |e.branches|, k);
    hide *;
    if k == 1 {
      FirstBranchDone(d, e, bits, order, op, arg, unitID, limit);
    } else {
      FirstRound(d, e, bits, order, k - 1, op, arg, unitID, limit);
      FirstOtherTurn(d, e, bits, order, k - 1, op, arg, unitID, limit);
    }
  }

  /** A branch other than the first has its turn. */
  lemma FirstOtherTurn(d: Dec, e: Dec, bits: Row, order: seq<nat>, i: nat, op: Octet, arg: Octet, unitID: Word16,
                       limit: int)
    requires AllSane(e) && AllAt(d, e, bits, 207, []) && 1 <= i < |order| && 0 <= limit <= 17
    requires Turns(order, |e.branches|) && |bits| >= 208 && !bits[0] && Below(order[..i], |e.branches|)
    requires FirstOver(d, e, Round(e, Changes(bits)[207], order[..i], limit), bits, order[0], order[..i],
                       op, arg, unitID)
    ensures Below(order[..i + 1], |e.branches|)
    ensures FirstOver(d, e, Round(e, Changes(bits)[207], order[..i + 1], limit), bits, order[0], order[..i + 1],
                      op, arg, unitID)
  {
    TurnsBelow(order, |e.branches|, i);
    RoundMore(e, Changes(bits)[207], order, i, limit);
    TurnFacts(order, |e.branches|, i);
    assert order[..i][0] == order[0];
    hide *;
    var r := Round(e, Changes(bits)[207], order[..i], limit);
    OtherMisses(d, e, r, bits, order[0], order[..i], order[i], op, arg, unitID, limit);
  }

  lemma OtherMisses(d: Dec, e: Dec, r: Dec, bits: Row, w: nat, heard: seq<nat>, y: nat,
                    op: Octet, arg: Octet, unitID: Word16, limit: int)
    requires AllSane(r) && AllAt(d, e, bits, 207, []) && 0 <= limit <= 17 && |bits| >= 208 && !bits[0]
    requires FirstOver(d, e, r, bits, w, heard, op, arg, unitID)
    requires y < |r.branches| == |e.branches| && y != w && y !in heard
    requires Sane(WithBit(r, y, r.branches[y].xorb != Changes(bits)[207]).branches[y])
    ensures var f := ShiftIn(WithBit(r, y, r.branches[y].xorb != Changes(bits)[207]), y, limit);
            FirstOver(d, e, f, bits, w, heard + [y], op, arg, unitID)
  {
    hide *;
    var f := ShiftIn(WithBit(r, y, r.branches[y].xorb != Changes(bits)[207]), y, limit);
    AtOther(d, e, r, bits, w, heard, y, op, arg, unitID);
    AtBranch(d, e, bits, 207, [], y);
    MissesBlock(r, y, e.branches[y], d.branches[y], bits, limit);
    OtherBranchDone(d, e, r, f, bits, w, heard, y, op, arg, unitID);
  }

  /** All branches have heard the first block. */
  lemma FirstBlockHeard(d: Dec, bits: Row, orders: seq<seq<nat>>, op: Octet, arg: Octet, unitID: Word16, limit: int)
      returns (e: Dec)
    requires AllQuiet(d, limit) && AllSane(d) && 0 < |d.branches| && 0 <= limit <= 17
    requires |orders| >= 208 && AllTurns(orders, |d.branches|)
    requires Transmission(bits) && !bits[0] && |bits| >= 208 && bits[96..208] == Block(Packet(op, arg, unitID))
    ensures |e.branches| == |d.branches| && Turns(orders[207], |d.branches|)
    ensures FirstOver(d, e, Rounds(d, Changes(bits)[..208], orders, limit), bits, orders[207][0], orders[207],
                      op, arg, unitID)
  {
    hide *;
    e := Rounds(d, Changes(bits)[..207], orders, limit);
    RoundsStage(d, bits, orders, 207, limit);
    RoundsMore(d, Changes(bits), orders, 207, limit);
    TurnsBelow(orders[207], |e.branches|, 0);
    FirstRound(d, e, bits, orders[207], |orders[207]|, op, arg, unitID, limit);
    assert orders[207][..|orders[207]|] == orders[207];
  }

  /** However many branches listen, all with a quiet start, and in whatever order they
      hear each symbol: when the last bit of the packet has reached them all, the packet is
      on offer with its fields, although the first branch to complete it has sent the
      others back to hunting. */
  lemma PacketHeardByAll(d: Dec, op: Octet, arg: Octet, unitID: Word16, tail: Row, orders: seq<seq<nat>>, limit: int)
    requires AllQuiet(d, limit) && AllSane(d) && 0 < |d.branches| && 0 <= limit <= 17 && !IsDouble(op)
    requires |orders| >= 208 && AllTurns(orders, |d.branches|)
    ensures var s := Changes(Sent(Leader()) + Block(Packet(op, arg, unitID)) + tail);
            var r := Rounds(d, s[..208], orders, limit);
            r.good == 1 && Reports(r, op, arg, unitID)
  {
    var bits := Sent(Leader()) + Block(Packet(op, arg, unitID)) + tail;
    Cut(Sent(Leader()), Block(Packet(op, arg, unitID)), tail);
    LeaderBits();
    hide Rounds, Changes, Sent, Leader, Block, IsDouble, AllSane, AllQuiet, Reports, Ready, AllTurns;
    var e := FirstBlockHeard(d, bits, orders, op, arg, unitID, limit);
  }

  // ------------------------------------------------------------- a second block

  /** A branch that went back to hunting j symbols ago cannot have completed a block. */
  ghost predicate Late(b: Branch, j: nat) {
    Sane(b) && (b.shstate == 0 || (b.shstate == 1 && b.shcount < j))
  }

  /** j bits of the second block, which branch w waits for, are over, and the next one at
      these branches. */
  ghost predicate SecondAt(s: Dec, e: Dec, bits: Row, w: nat, j: nat, heard: seq<nat>) {
    && SameReport(s, e) && w < |e.branches| && |bits| >= 320
    && (var n := if w in heard then j + 1 else j;
        n < 112 && Fills(e.branches[w], bits[208..320], n, 2) && e.branches[w].xorb == bits[207 + n])
    && (forall y | 0 <= y < |e.branches| && y != w :: Late(e.branches[y], if y in heard then j + 1 else j))
  }

  lemma LateStep(e: Dec, y: nat, bit: bool, j: nat, limit: int)
    requires AllSane(e) && y < |e.branches| && Late(e.branches[y], j) && j < 112
    requires Sane(WithBit(e, y, bit).branches[y])
    ensures var f := ShiftIn(WithBit(e, y, bit), y, limit);
            OnlyListened(e, f, y) && Late(f.branches[y], j + 1)
  {
    var b := e.branches[y].(xorb := bit);
    if b.shstate == 0 {
      HuntIs(b, limit);
      assert e.branches[y := b][y := Hunt(b, limit)] == e.branches[y := Hunt(b, limit)];
      hide Hunt, Diff, SyncWord, Window;
    } else {
      ShiftInFills(e, y, bit, limit);
      FullListened(e, y, bit);
      hide ShiftIn, WithBit, AllSane;
    }
  }

  lemma SecondBit(e: Dec, bits: Row, w: nat, j: nat)
    requires w < |e.branches| && |bits| >= 320 && !bits[0] && j < 112 && e.branches[w].xorb == bits[207 + j]
    ensures (e.branches[w].xorb != Changes(bits)[208 + j]) == bits[208 + j]
    ensures bits[208..320][j] == bits[208 + j]
  {
    var n: nat := 208 + j;
    HeardBit(bits, n, e.branches[w].xorb, false);
    hide Changes;
  }

  lemma SecondFirst(s: Dec, e: Dec, bits: Row, w: nat, j: nat, heard: seq<nat>)
    requires SecondAt(s, e, bits, w, j, heard) && w !in heard
    ensures w < |e.branches| && |bits| >= 320 && j < 112 && SameReport(s, e)
    ensures Fills(e.branches[w], bits[208..320], j, 2) && e.branches[w].xorb == bits[207 + j]
    ensures e.branches[w].shcount < |e.branches[w].bits|
  {}

  lemma SecondOther(s: Dec, e: Dec, bits: Row, w: nat, j: nat, heard: seq<nat>, y: nat)
    requires SecondAt(s, e, bits, w, j, heard) && y < |e.branches| && y != w && y !in heard
    ensures Late(e.branches[y], j)
  {}

  lemma SecondFirstOn(s: Dec, e: Dec, f: Dec, bits: Row, w: nat, j: nat, heard: seq<nat>)
    requires SecondAt(s, e, bits, w, j, heard) && |f.branches| == |e.branches| && OnlyListened(e, f, w) && j < 111
    requires Fills(f.branches[w], bits[208..320], j + 1, 2) && f.branches[w].xorb == bits[208 + j]
    ensures SecondAt(s, f, bits, w, j, heard + [w])
  {
    hide Fills, Late;
  }

  lemma SecondOtherOn(s: Dec, e: Dec, f: Dec, bits: Row, w: nat, j: nat, heard: seq<nat>, y: nat)
    requires SecondAt(s, e, bits, w, j, heard) && y < |e.branches| == |f.branches| && y != w && OnlyListened(e, f, y)
    requires Late(f.branches[y], j + 1)
    ensures SecondAt(s, f, bits, w, j, heard + [y])
  {
    hide Fills, Late;
  }

  /** A branch other than w has its turn. */
  lemma SecondOtherTurn(s: Dec, e: Dec, bits: Row, w: nat, j: nat, order: seq<nat>, i: nat, limit: int)
    requires AllSane(e) && Turns(order, |e.branches|) && i < |order| && order[i] != w && j < 112
    requires |bits| >= 320 && !bits[0]
    requires Below(order[..i], |e.branches|)
             && SecondAt(s, Round(e, Changes(bits)[208 + j], order[..i], limit), bits, w, j, order[..i])
    ensures Below(order[..i + 1], |e.branches|)
            && SecondAt(s, Round(e, Changes(bits)[208 + j], order[..i + 1], limit), bits, w, j, order[..i + 1])
  {
    var c := Changes(bits)[208 + j];
    TurnsBelow(order, |e.branches|, i);
    RoundMore(e, c, order, i, limit);
    TurnFacts(order, |e.branches|, i);
    hide *;
    var f := Round(e, c, order[..i], limit);
    var y := order[i];
    SecondOther(s, f, bits, w, j, order[..i], y);
    LateStep(f, y, f.branches[y].xorb != c, j, limit);
    SecondOtherOn(s, f, Round(e, c, order[..i + 1], limit), bits, w, j, order[..i], y);
  }

  lemma {:induction false} SecondRound(s: Dec, e: Dec, bits: Row, w: nat, j: nat, order: seq<nat>, k: nat, limit: int)
    requires AllSane(e) && SecondAt(s, e, bits, w, j, []) && j < 111 && Turns(order, |e.branches|) && k <= |order|
    requires |bits| >= 320 && !bits[0]
    ensures Below(order[..k], |e.branches|)
            && SecondAt(s, Round(e, Changes(bits)[208 + j], order[..k], limit), bits, w, j, order[..k])
    decreases k
  {
    TurnsBelow(order, |e.branches|, k);
    hide *;
    var c := Changes(bits)[208 + j];
    if k == 0 {
      assert order[..0] == [];
      RoundNone(e, c, limit);
    } else {
      var i: nat := k - 1;
      SecondRound(s, e, bits, w, j, order, i, limit);
      if order[i] != w {
        SecondOtherTurn(s, e, bits, w, j, order, i, limit);
      } else {
        SecondFirstTurn(s, e, bits, j, order, i, limit);
      }
    }
  }

  /** Branch w has its turn, not for the last bit. */
  lemma SecondFirstTurn(s: Dec, e: Dec, bits: Row, j: nat, order: seq<nat>, i: nat, limit: int)
    requires AllSane(e) && Turns(order, |e.branches|) && i < |order| && j < 111
    requires |bits| >= 320 && !bits[0]
    requires Below(order[..i], |e.branches|)
             && SecondAt(s, Round(e, Changes(bits)[208 + j], order[..i], limit), bits, order[i], j, order[..i])
    ensures Below(order[..i + 1], |e.branches|)
            && SecondAt(s, Round(e, Changes(bits)[208 + j], order[..i + 1], limit), bits, order[i], j, order[..i + 1])
  {
    var c := Changes(bits)[208 + j];
    TurnsBelow(order, |e.branches|, i);
    RoundMore(e, c, order, i, limit);
    TurnFacts(order, |e.branches|, i);
    hide *;
    var w := order[i];
    var f := Round(e, c, order[..i], limit);
    SecondFirst(s, f, bits, w, j, order[..i]);
    SecondBit(f, bits, w, j);
    FillBit(f, w, bits[208..320], j, 2, limit);
    SecondFirstOn(s, f, Round(e, c, order[..i + 1], limit), bits, w, j, order[..i]);
  }

  lemma SecondOn(s: Dec, e: Dec, bits: Row, w: nat, j: nat, order: seq<nat>)
    requires SecondAt(s, e, bits, w, j, order) && Turns(order, |e.branches|)
    ensures SecondAt(s, e, bits, w, j + 1, [])
  {
    hide Fills, Late;
  }

  lemma SecondStarts(d: Dec, p: Dec, s: Dec, bits: Row, order: seq<nat>, op: Octet, arg: Octet, unitID: Word16)
    requires Turns(order, |s.branches|) && 0 < |order| && |bits| >= 320
    requires FirstOver(d, p, s, bits, order[0], order, op, arg, unitID) && IsDouble(op)
    ensures SecondAt(s, s, bits, order[0], 0, [])
  {
    var w := order[0];
    assert s.branches[w].bits[..0] == bits[208..320][..0];
    hide Reports, IsDouble;
  }

  lemma {:induction false} SecondRounds(d: Dec, s: Dec, bits: Row, orders: seq<seq<nat>>, w: nat, j: nat, limit: int)
    requires AllSane(d) && |bits| >= 320 && !bits[0] && j < 112 && |orders| >= 319 && AllTurns(orders, |d.branches|)
    requires s == Rounds(d, Changes(bits)[..208], orders, limit) && SecondAt(s, s, bits, w, 0, [])
    ensures SecondAt(s, Rounds(d, Changes(bits)[..208 + j], orders, limit), bits, w, j, [])
    decreases j
  {
    hide *;
    if j > 0 {
      var i: nat := j - 1;
      SecondRounds(d, s, bits, orders, w, i, limit);
      RoundsMore(d, Changes(bits), orders, 208 + i, limit);
      var e := Rounds(d, Changes(bits)[..208 + i], orders, limit);
      SecondFirst(s, e, bits, w, i, []);
      var order := orders[208 + i];
      SecondRound(s, e, bits, w, i, order, |order|, limit);
      assert order[..|order|] == order;
      SecondOn(s, Rounds(d, Changes(bits)[..208 + j], orders, limit), bits, w, i, order);
    }
  }

  // -------------------------------------------------- the end of the second block

  /** Branch w has completed the second block, whose last bit these branches have heard. */
  ghost predicate SecondOver(s: Dec, r: Dec, w: nat, heard: seq<nat>, extra: seq<Octet>) {
    && |extra| == 4 && |r.branches| == |s.branches| && Reports(r, s.op, s.arg, s.unitID) && r.good == 2
    && [r.extra0, r.extra1, r.extra2, r.extra3] == extra
    && forall y | 0 <= y < |r.branches| && y != w && y !in heard :: Sane(r.branches[y]) && r.branches[y].shstate == 0
  }

  lemma SecondStored(s: Dec, e: Dec, g: Dec, w: nat, heard: seq<nat>, extra: seq<Octet>, last: bool)
    requires |extra| == 4 && SameReport(s, e) && AllSane(e) && Heard(e, g, w, Block(extra), 2, last)
    requires forall y | 0 <= y < |e.branches| && y != w :: g.branches[y] == e.branches[y]
    ensures SecondOver(s, Process(g, w), w, heard, extra)
  {
    SecondReport(e, g, w, extra, last);
    HeardBlock(e, g, w, extra, last);
    OthersHunt(e, g, w);
    hide Process, Block, Intact, Heard, AllSane, Sane;
  }

  lemma HeardBlock(e: Dec, g: Dec, w: nat, extra: seq<Octet>, last: bool)
    requires |extra| == 4 && Heard(e, g, w, Block(extra), 2, last)
    ensures w < |g.branches| == |e.branches| && |g.branches[w].bits| == 112 && Intact(g.branches[w].bits)
  {
    BlockReads(extra);
    hide Block, Intact, BlockOctet;
  }

  lemma OthersHunt(e: Dec, g: Dec, w: nat)
    requires w < |g.branches| == |e.branches| && |g.branches[w].bits| == 112 && Intact(g.branches[w].bits) && AllSane(e)
    requires forall y | 0 <= y < |e.branches| && y != w :: g.branches[y] == e.branches[y]
    ensures forall y | 0 <= y < |e.branches| && y != w ::
              Sane(Process(g, w).branches[y]) && Process(g, w).branches[y].shstate == 0
  {
    hide Process, Intact;
    forall y | 0 <= y < |e.branches| && y != w
      ensures Sane(Process(g, w).branches[y]) && Process(g, w).branches[y].shstate == 0
    {
      ProcessOthers(g, w, y);
      SaneBranch(e, y);
    }
  }

  /** Branch w hears the last bit. */
  lemma SecondLast(s: Dec, e: Dec, bits: Row, order: seq<nat>, i: nat, extra: seq<Octet>, limit: int)
    requires AllSane(e) && Turns(order, |e.branches|) && i < |order| && |extra| == 4
    requires |bits| >= 320 && !bits[0] && bits[208..320] == Block(extra)
    requires Below(order[..i], |e.branches|)
             && SecondAt(s, Round(e, Changes(bits)[319], order[..i], limit), bits, order[i], 111, order[..i])
    ensures Below(order[..i + 1], |e.branches|)
            && SecondOver(s, Round(e, Changes(bits)[319], order[..i + 1], limit), order[i], order[..i + 1], extra)
  {
    TurnsBelow(order, |e.branches|, i);
    RoundMore(e, Changes(bits)[319], order, i, limit);
    TurnFacts(order, |e.branches|, i);
    hide *;
    var f := Round(e, Changes(bits)[319], order[..i], limit);
    LastBitHeard(s, f, bits, order[i], order[..i], order[..i + 1], extra, limit);
  }

  lemma LastBitHeard(s: Dec, f: Dec, bits: Row, w: nat, before: seq<nat>, heard: seq<nat>, extra: seq<Octet>,
                     limit: int)
    requires AllSane(f) && |extra| == 4 && |bits| >= 320 && !bits[0] && bits[208..320] == Block(extra)
    requires SecondAt(s, f, bits, w, 111, before) && w !in before && w < |f.branches|
    requires Sane(WithBit(f, w, f.branches[w].xorb != Changes(bits)[319]).branches[w])
    ensures SecondOver(s, ShiftIn(WithBit(f, w, f.branches[w].xorb != Changes(bits)[319]), w, limit), w, heard, extra)
  {
    hide *;
    SecondFirst(s, f, bits, w, 111, before);
    SecondBit(f, bits, w, 111);
    var block := bits[208..320];
    LastFill(f, w, block, 2, limit);
    var g := Full(f, w, block[111]);
    FullListened(f, w, block[111]);
    FullWidths(f, w, block[111]);
    HeardNow(f, g, w, block, 2, bits[319]);
    SecondStored(s, f, g, w, heard, extra, bits[319]);
  }

  lemma OverOther(s: Dec, r: Dec, w: nat, heard: seq<nat>, extra: seq<Octet>, y: nat)
    requires SecondOver(s, r, w, heard, extra) && y < |r.branches| && y != w && y !in heard
    ensures Late(r.branches[y], 0)
  {}

  lemma OverOn(s: Dec, r: Dec, f: Dec, w: nat, heard: seq<nat>, y: nat, extra: seq<Octet>)
    requires SecondOver(s, r, w, heard, extra) && y < |r.branches| == |f.branches| && y != w && OnlyListened(r, f, y)
    ensures SecondOver(s, f, w, heard + [y], extra)
  {}

  /** Another branch has its turn after w. */
  lemma OverTurn(s: Dec, e: Dec, bits: Row, w: nat, order: seq<nat>, i: nat, extra: seq<Octet>, limit: int)
    requires AllSane(e) && Turns(order, |e.branches|) && i < |order| && order[i] != w && |bits| >= 320
    requires Below(order[..i], |e.branches|)
             && SecondOver(s, Round(e, Changes(bits)[319], order[..i], limit), w, order[..i], extra)
    ensures Below(order[..i + 1], |e.branches|)
            && SecondOver(s, Round(e, Changes(bits)[319], order[..i + 1], limit), w, order[..i + 1], extra)
  {
    var c := Changes(bits)[319];
    TurnsBelow(order, |e.branches|, i);
    RoundMore(e, c, order, i, limit);
    TurnFacts(order, |e.branches|, i);
    hide *;
    var r := Round(e, c, order[..i], limit);
    var y := order[i];
    OverOther(s, r, w, order[..i], extra, y);
    LateStep(r, y, r.branches[y].xorb != c, 0, limit);
    OverOn(s, r, Round(e, c, order[..i + 1], limit), w, order[..i], y, extra);
  }

  /** The last bit of the second block is out, and these branches have heard it. */
  ghost predicate LastAt(s: Dec, r: Dec, bits: Row, w: nat, heard: seq<nat>, extra: seq<Octet>) {
    if w in heard then SecondOver(s, r, w, heard, extra) else SecondAt(s, r, bits, w, 111, heard)
  }

  lemma LastTurn(s: Dec, e: Dec, bits: Row, w: nat, order: seq<nat>, i: nat, extra: seq<Octet>, limit: int)
    requires AllSane(e) && |extra| == 4 && Turns(order, |e.branches|) && i < |order|
    requires |bits| >= 320 && !bits[0] && bits[208..320] == Block(extra)
    requires Below(order[..i], |e.branches|)
             && LastAt(s, Round(e, Changes(bits)[319], order[..i], limit), bits, w, order[..i], extra)
    ensures Below(order[..i + 1], |e.branches|)
            && LastAt(s, Round(e, Changes(bits)[319], order[..i + 1], limit), bits, w, order[..i + 1], extra)
  {
    TurnsBelow(order, |e.branches|, i + 1);
    TurnFacts(order, |e.branches|, i);
    Joined(w, order, i);
    hide AllSane, Turns, Below, Round, SecondOver, SecondAt, Block, Changes;
    if order[i] == w {
      SecondLast(s, e, bits, order, i, extra, limit);
    } else if w in order[..i] {
      OverTurn(s, e, bits, w, order, i, extra, limit);
    } else {
      SecondOtherTurn(s, e, bits, w, 111, order, i, limit);
    }
  }

  lemma {:induction false} LastRound(s: Dec, e: Dec, bits: Row, w: nat, order: seq<nat>, k: nat, extra: seq<Octet>,
                                     limit: int)
    requires AllSane(e) && SecondAt(s, e, bits, w, 111, []) && |extra| == 4 && Turns(order, |e.branches|)
    requires k <= |order| && |bits| >= 320 && !bits[0] && bits[208..320] == Block(extra)
    ensures Below(order[..k], |e.branches|)
    ensures LastAt(s, Round(e, Changes(bits)[319], order[..k], limit), bits, w, order[..k], extra)
    decreases k
  {
    if k == 0 {
      assert order[..0] == [];
      RoundNone(e, Changes(bits)[319], limit);
      hide SecondAt, Turns, Round;
    } else {
      hide *;
      LastRound(s, e, bits, w, order, k - 1, extra, limit);
      LastTurn(s, e, bits, w, order, k - 1, extra, limit);
    }
  }

  lemma Joined(w: nat, order: seq<nat>, i: nat)
    requires i < |order|
    ensures w in order[..i + 1] <==> w in order[..i] || w == order[i]
  {
    assert order[..i + 1] == order[..i] + [order[i]];
  }

  lemma LastIs(s: Dec, r: Dec, bits: Row, w: nat, heard: seq<nat>, extra: seq<Octet>)
    requires LastAt(s, r, bits, w, heard, extra) && w in heard
    ensures SecondOver(s, r, w, heard, extra)
  {}

  lemma OverIs(s: Dec, r: Dec, w: nat, heard: seq<nat>, extra: seq<Octet>)
    requires SecondOver(s, r, w, heard, extra)
    ensures Reports(r, s.op, s.arg, s.unitID) && r.good == 2 && [r.extra0, r.extra1, r.extra2, r.extra3] == extra
  {}

  lemma FirstOverIs(d: Dec, e: Dec, r: Dec, bits: Row, w: nat, heard: seq<nat>, op: Octet, arg: Octet, unitID: Word16)
    requires FirstOver(d, e, r, bits, w, heard, op, arg, unitID) && IsDouble(op)
    ensures r.op == op && r.arg == arg && r.unitID == unitID && r.good == 0 && w < |r.branches| == |d.branches|
  {}

  lemma DoubleHeard(d: Dec, bits: Row, orders: seq<seq<nat>>, op: Octet, arg: Octet, unitID: Word16,
                    extra: seq<Octet>, limit: int)
    requires AllQuiet(d, limit) && AllSane(d) && 0 < |d.branches| && 0 <= limit <= 17 && IsDouble(op) && |extra| == 4
    requires |orders| >= 320 && AllTurns(orders, |d.branches|)
    requires Transmission(bits) && |bits| >= 320 && !bits[0]
    requires bits[96..208] == Block(Packet(op, arg, unitID)) && bits[208..320] == Block(extra)
    ensures var r := Rounds(d, Changes(bits)[..320], orders, limit);
            && Rounds(d, Changes(bits)[..208], orders, limit).good == 0
            && r.good == 2 && Reports(r, op, arg, unitID) && [r.extra0, r.extra1, r.extra2, r.extra3] == extra
  {
    hide *;
    var s := Rounds(d, Changes(bits)[..208], orders, limit);
    var p := FirstBlockHeard(d, bits, orders, op, arg, unitID, limit);
    TurnsBelow(orders[207], |d.branches|, 0);
    var w := orders[207][0];
    FirstOverIs(d, p, s, bits, w, orders[207], op, arg, unitID);
    SecondStarts(d, p, s, bits, orders[207], op, arg, unitID);
    SecondRounds(d, s, bits, orders, w, 111, limit);
    var e := Rounds(d, Changes(bits)[..319], orders, limit);
    RoundsMore(d, Changes(bits), orders, 319, limit);
    var order := orders[319];
    TurnsBelow(order, |e.branches|, 0);
    TurnFacts(order, |e.branches|, |order|);
    LastRound(s, e, bits, w, order, |order|, extra, limit);
    LastIs(s, Rounds(d, Changes(bits)[..320], orders, limit), bits, w, order, extra);
    OverIs(s, Rounds(d, Changes(bits)[..320], orders, limit), w, order, extra);
  }

  /** A double packet: after both blocks it is on offer with its extra octets; whatever
      the other branches take the second block for, they are too late to report it. */
  lemma DoubleHeardByAll(d: Dec, op: Octet, arg: Octet, unitID: Word16, extra: seq<Octet>, tail: Row,
                         orders: seq<seq<nat>>, limit: int)
    requires AllQuiet(d, limit) && AllSane(d) && 0 < |d.branches| && 0 <= limit <= 17 && IsDouble(op) && |extra| == 4
    requires |orders| >= 320 && AllTurns(orders, |d.branches|)
    ensures var s := Changes(Sent(Leader()) + Block(Packet(op, arg, unitID)) + (Block(extra) + tail));
            var r := Rounds(d, s[..320], orders, limit);
            && Rounds(d, s[..208], orders, limit).good == 0
            && r.good == 2 && Reports(r, op, arg, unitID) && [r.extra0, r.extra1, r.extra2, r.extra3] == extra
  {
    var bits := Sent(Leader()) + Block(Packet(op, arg, unitID)) + (Block(extra) + tail);
    Cut(Sent(Leader()), Block(Packet(op, arg, unitID)), Block(extra) + tail);
    assert bits[208..320] == bits[208..][..112] == Block(extra);
    LeaderBits();
    hide Rounds, Changes, Sent, Leader, Block, IsDouble, AllSane, AllQuiet, Reports, AllTurns;
    DoubleHeard(d, bits, orders, op, arg, unitID, extra, limit);
  }
}
