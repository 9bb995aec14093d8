/** The MDC-1200 decoder does not care which of the two tones it takes for a one. */
module MdcPolarity {
  import opened BitRows
  import opened MdcSync
  import opened MdcDecode
  import opened MdcRuns
  import opened MdcWindow
  import opened MdcFeed

  /** The branch with its sync registers complemented. */
  function Turned(b: Branch): Branch { b.(synclow := Not(b.synclow), synchigh := Not(b.synchigh)) }

  /** The branch as it hears the same signal in the other polarity. */
  function Opposite(b: Branch): Branch { Turned(b).(xorb := !b.xorb) }

  /** The decoder with one branch replaced. */
  function With(d: Dec, x: nat, b: Branch): (r: Dec)
    requires x < |d.branches|
    ensures |r.branches| == |d.branches|
  {
    d.(branches := d.branches[x := b])
  }

  lemma WindowTurned(high: Row, low: Row, bit: bool)
    requires |high| == |low| == 32
    ensures Window(Not(high), Not(low))[1..] + [!bit] == Tinted(Window(high, low)[1..] + [bit], true)
  {}

  /** Distance d on one branch is 40 - d on the other: with a threshold below 20
      both sync or neither does, exactly one of them turns its polarity, and so they
      agree from then on. */
  lemma SyncTogether(b: Branch, limit: int)
    requires Sane(b) && b.shstate == 0 && limit < 20
    ensures Sane(Opposite(b))
    ensures var c, o := Hunt(b, limit), Hunt(Opposite(b), limit);
            o == if c.shstate == 0 then Opposite(c) else Turned(c)
  {
    RegistersTurned(b.synchigh, b.synclow, b.xorb);
    DistanceTurned(Shl(b.synchigh)[0 := b.synclow[31]], Shl(b.synclow)[0 := b.xorb]);
    hide Distance, Shl;
  }

  lemma DistanceTurned(high: Row, low: Row)
    requires |high| == |low| == 32
    ensures Distance(Not(high), Not(low)) == 40 - Distance(high, low)
  {
    DistanceIsDiff(high, low);
    DistanceIsDiff(Not(high), Not(low));
    assert Window(Not(high), Not(low)) == Tinted(Window(high, low), true);
    TintedDiff(Window(high, low), SyncWord(), true);
    hide *;
  }

  lemma RegistersTurned(high: Row, low: Row, bit: bool)
    requires |high| == |low| == 32
    ensures Shl(Not(high))[0 := Not(low)[31]] == Not(Shl(high)[0 := low[31]])
    ensures Shl(Not(low))[0 := !bit] == Not(Shl(low)[0 := bit])
  {}

  /** At 20 and above that is lost: a window half way between the sync word and its
      complement syncs both branches directly, and they go on disagreeing. */
  lemma TooLooseToAgree(b: Branch, limit: int)
    requires Sane(b) && limit >= 20
    requires Diff(Window(b.synchigh, b.synclow)[1..] + [b.xorb], SyncWord()) == 20
    ensures Sane(Opposite(b)) && Hunt(b, limit).shstate == 1 == Hunt(Opposite(b), limit).shstate
    ensures Hunt(b, limit).xorb != Hunt(Opposite(b), limit).xorb
  {
    var w := Window(b.synchigh, b.synclow)[1..] + [b.xorb];
    HuntIs(b, limit);
    HuntIs(Opposite(b), limit);
    WindowTurned(b.synchigh, b.synclow, b.xorb);
    hide Diff, SyncWord, Window;
    TintedDiff(w, SyncWord(), true);
  }

  /** Processing a block does not look at the sync registers. */
  lemma ProcessTurned(d: Dec, x: nat)
    requires x < |d.branches| && |d.branches[x].bits| == 112
    ensures var e := With(d, x, Turned(d.branches[x]));
            Process(e, x) == With(Process(d, x), x, Turned(Process(d, x).branches[x]))
  {
    hide Intact, BlockOctet, IsDouble, Not;
    var e := With(d, x, Turned(d.branches[x]));
    assert Process(e, x).branches == With(Process(d, x), x, Turned(Process(d, x).branches[x])).branches;
  }

  /** A bit while a block is being captured. */
  lemma CaptureTurned(d: Dec, x: nat, bit: bool, limit: int)
    requires x < |d.branches| && AllSane(d) && d.branches[x].shstate != 0
    ensures var e := With(d, x, Turned(d.branches[x]));
            && AllSane(e) && Sane(WithBit(d, x, bit).branches[x]) && Sane(WithBit(e, x, bit).branches[x])
            && var f := ShiftIn(WithBit(d, x, bit), x, limit);
               ShiftIn(WithBit(e, x, bit), x, limit) == With(f, x, Turned(f.branches[x]))
  {
    var e := With(d, x, Turned(d.branches[x]));
    assert Sane(d.branches[x]);
    var b := d.branches[x].(xorb := bit);
    assert WithBit(e, x, bit).branches == d.branches[x := Turned(b)];
    if b.shstate == 1 || b.shstate == 2 {
      var c := b.(bits := b.bits[b.shcount := bit], shcount := b.shcount + 1);
      var f := d.(branches := d.branches[x := c]);
      assert WithBit(d, x, bit).branches[x := c] == f.branches;
      assert WithBit(e, x, bit).branches[x := Turned(c)] == f.branches[x := Turned(c)];
      hide Process, Not;
      if c.shcount > 111 {
        ProcessTurned(f, x);
      }
    }
  }

  /** A bit while hunting, heard in both polarities. */
  lemma HuntOpposite(d: Dec, x: nat, bit: bool, limit: int)
    requires x < |d.branches| && AllSane(d) && d.branches[x].shstate == 0 && limit < 20
    ensures var e := With(d, x, Opposite(d.branches[x]));
            && AllSane(e) && Sane(WithBit(d, x, bit).branches[x]) && Sane(WithBit(e, x, !bit).branches[x])
            && var f := ShiftIn(WithBit(d, x, bit), x, limit);
               ShiftIn(WithBit(e, x, !bit), x, limit) ==
                 With(f, x, if f.branches[x].shstate == 0 then Opposite(f.branches[x]) else Turned(f.branches[x]))
  {
    var e := With(d, x, Opposite(d.branches[x]));
    assert Sane(d.branches[x]);
    var b := d.branches[x].(xorb := bit);
    SyncTogether(b, limit);
    assert WithBit(e, x, !bit).branches == d.branches[x := Opposite(b)];
    hide Hunt, Not;
    var f := ShiftIn(WithBit(d, x, bit), x, limit);
    assert f.branches == d.branches[x := Hunt(b, limit)];
    assert d.branches[x := Opposite(b)][x := Hunt(Opposite(b), limit)] == f.branches[x := Hunt(Opposite(b), limit)];
  }

  ghost predicate Before(d: Dec, e: Dec, x: nat) {
    x < |d.branches| && d.branches[x].shstate == 0 && e == With(d, x, Opposite(d.branches[x]))
  }

  ghost predicate After(d: Dec, e: Dec, x: nat) {
    x < |d.branches| && e == With(d, x, Turned(d.branches[x]))
  }

  lemma OneSymbol(d: Dec, e: Dec, x: nat, changes: Row, n: nat, limit: int)
    requires x < |d.branches| == |e.branches| && AllSane(d) && AllSane(e) && n < |changes| && limit < 20
    requires var f, g := Feed(d, x, changes[..n], limit), Feed(e, x, changes[..n], limit);
             Before(f, g, x) || (After(f, g, x) && f.branches[x].shstate != 0)
    ensures var f, g := Feed(d, x, changes[..n], limit), Feed(e, x, changes[..n], limit);
            var f', g' := Feed(d, x, changes[..n + 1], limit), Feed(e, x, changes[..n + 1], limit);
            if Before(f, g, x) then Before(f', g', x) || After(f', g', x) else After(f', g', x)
    ensures var f, g := Feed(d, x, changes[..n], limit), Feed(e, x, changes[..n], limit);
            var f', g' := Feed(d, x, changes[..n + 1], limit), Feed(e, x, changes[..n + 1], limit);
            Before(f, g, x) && f'.branches[x].shstate == 0 ==> Before(f', g', x)
  {
    FeedMore(d, x, changes, n, limit);
    FeedMore(e, x, changes, n, limit);
    var f, g := Feed(d, x, changes[..n], limit), Feed(e, x, changes[..n], limit);
    hide Feed, ShiftIn, WithBit, AllSane, Not;
    var bit := f.branches[x].xorb != changes[n];
    if Before(f, g, x) {
      HuntOpposite(f, x, bit, limit);
    } else {
      CaptureTurned(f, x, bit, limit);
    }
  }

  /** Two decoders that differ in the polarity of branch x hear the same symbols.
      They sync on the same symbol, and until the block that follows has been
      processed they agree on everything but the sync registers: on every captured
      bit, and on the outcome. */
  lemma {:induction false} PolarityInvariance(d: Dec, e: Dec, x: nat, changes: Row, m: nat, limit: int)
    requires x < |d.branches| == |e.branches| && AllSane(d) && AllSane(e) && Before(d, e, x) && limit < 20
    requires m <= |changes|
    requires forall k | 0 <= k < m :: Feed(d, x, changes[..k], limit).branches[x].shstate == 0
    requires forall k | m <= k < |changes| :: Feed(d, x, changes[..k], limit).branches[x].shstate != 0
    ensures var f, g := Feed(d, x, changes, limit), Feed(e, x, changes, limit);
            if |changes| == m && f.branches[x].shstate == 0 then Before(f, g, x) else After(f, g, x)
    decreases |changes|
  {
    if |changes| > 0 {
      var n := |changes| - 1;
      Shorter(d, x, changes, m, limit);
      PolarityInvariance(d, e, x, changes[..n], if m <= n then m else n, limit);
      assert changes[..n + 1] == changes;
      assert n >= m ==> Feed(d, x, changes[..n], limit).branches[x].shstate != 0;
      assert n < m ==> Feed(d, x, changes[..n], limit).branches[x].shstate == 0;
      hide Feed, Before, After, AllSane;
      OneSymbol(d, e, x, changes, n, limit);
    }
  }

  lemma Shorter(d: Dec, x: nat, changes: Row, m: nat, limit: int)
    requires x < |d.branches| && AllSane(d) && m <= |changes| && |changes| > 0
    requires forall k | 0 <= k < m :: Feed(d, x, changes[..k], limit).branches[x].shstate == 0
    requires forall k | m <= k < |changes| :: Feed(d, x, changes[..k], limit).branches[x].shstate != 0
    ensures var c := changes[..|changes| - 1];
            && (forall k | 0 <= k < m && k < |c| :: Feed(d, x, c[..k], limit).branches[x].shstate == 0)
            && (forall k | m <= k < |c| :: Feed(d, x, c[..k], limit).branches[x].shstate != 0)
  {
    hide Feed, AllSane;
    var c := changes[..|changes| - 1];
    forall k | 0 <= k <= |c| ensures c[..k] == changes[..k] {}
  }
}
