/** One branch of the MDC-1200 decoder listening to a signal by itself. */
module MdcFeed {
  import opened BitRows
  import opened MdcCode
  import opened MdcSync
  import opened MdcDecode
  import opened MdcRuns
  import opened MdcWindow

  // ---------------------------------------------------------- widths are kept

  lemma ProcessKeepsSane(d: Dec, x: nat)
    requires x < |d.branches| && |d.branches[x].synclow| == |d.branches[x].synchigh| == 32
             && |d.branches[x].bits| == 112
    requires forall y | 0 <= y < |d.branches| && y != x :: Sane(d.branches[y])
    ensures AllSane(Process(d, x))
  {
    hide Intact, BlockOctet, IsDouble;
  }

  lemma ShiftInKeepsSane(d: Dec, x: nat, bit: bool, limit: int)
    requires x < |d.branches| && AllSane(d)
    ensures Sane(WithBit(d, x, bit).branches[x]) && AllSane(ShiftIn(WithBit(d, x, bit), x, limit))
  {
    assert Sane(d.branches[x]);
    var e := WithBit(d, x, bit);
    var b := e.branches[x];
    assert forall y | 0 <= y < |d.branches| && y != x :: Sane(e.branches[y]) && e.branches[y] == d.branches[y];
    if b.shstate == 0 {
      HuntIs(b, limit);
      hide Hunt, Process;
    } else if b.shstate == 1 || b.shstate == 2 {
      var c := b.(bits := b.bits[b.shcount := bit], shcount := b.shcount + 1);
      var f := e.(branches := e.branches[x := c]);
      assert forall y | 0 <= y < |d.branches| && y != x :: Sane(f.branches[y]);
      if c.shcount > 111 {
        hide Process;
        ProcessKeepsSane(f, x);
      }
    }
  }

  lemma SymbolIs(d: Dec, x: nat, zc: int, limit: int)
    requires x < |d.branches| && AllSane(d)
    ensures Sane(d.branches[x]) && AllSane(Symbol(d, x, zc, limit))
    ensures Sane(WithBit(d, x, NewBit(d.branches[x], zc)).branches[x])
    ensures Counts(zc) ==> Symbol(d, x, zc, limit) == ShiftIn(WithBit(d, x, NewBit(d.branches[x], zc)), x, limit)
    ensures !Counts(zc) ==> Symbol(d, x, zc, limit) == d
  {
    assert Sane(d.branches[x]);
    var bit := NewBit(d.branches[x], zc);
    ShiftInKeepsSane(d, x, bit, limit);
    assert WithBit(d, x, bit) == if zc == 3 then d.(branches := d.branches[x := d.branches[x].(xorb := bit)]) else d;
    hide ShiftIn, AllSane;
  }

  /** Branch x hears a row of symbols: three zero crossings for a change, two for
      none. */
  function Feed(d: Dec, x: nat, changes: Row, limit: int): (r: Dec)
    requires x < |d.branches| && AllSane(d)
    ensures |r.branches| == |d.branches| && AllSane(r)
  {
    if changes == [] then d
    else
      var e := Feed(d, x, changes[..|changes| - 1], limit);
      var zc := if changes[|changes| - 1] then 3 else 2;
      SymbolIs(e, x, zc, limit);
      Symbol(e, x, zc, limit)
  }

  /** The next symbol. */
  lemma FeedMore(d: Dec, x: nat, changes: Row, n: nat, limit: int)
    requires x < |d.branches| && AllSane(d) && n < |changes|
    ensures var e := Feed(d, x, changes[..n], limit);
            var bit := e.branches[x].xorb != changes[n];
            && Sane(e.branches[x]) && Sane(WithBit(e, x, bit).branches[x])
            && Feed(d, x, changes[..n + 1], limit) == ShiftIn(WithBit(e, x, bit), x, limit)
  {
    var e := Feed(d, x, changes[..n], limit);
    assert changes[..n + 1][..n] == changes[..n];
    hide ShiftIn, WithBit;
    SymbolIs(e, x, if changes[n] then 3 else 2, limit);
    hide Symbol;
    assert changes[..n + 1] != [] && |changes[..n + 1]| - 1 == n;
    assert changes[..n + 1][n] == changes[n];
  }

  // ---------------------------------------------------------------- hunting

  /** Nothing but the sync registers, the polarity and the state of branch x has
      changed. */
  ghost predicate OnlyListened(d: Dec, e: Dec, x: nat)
    requires x < |d.branches| && |e.branches| == |d.branches|
  {
    e == d.(branches := d.branches[x := e.branches[x]])
  }

  /** After n bits of a signal, heard with polarity p, branch x still hunts and its
      window holds the last 40 of them. */
  ghost predicate Hunts(b: Branch, w0: Row, bits: Row, n: nat, p: bool) {
    && Sane(b) && b.shstate == 0 && |w0| == 40 && n <= |bits|
    && (n > 0 ==> b.xorb == (bits[n - 1] != p))
    && Window(b.synchigh, b.synclow) == (w0 + Tinted(bits, p))[n..n + 40]
  }

  /** The bit a branch hears when symbol n of a transmission ends. */
  lemma HeardBit(bits: Row, n: nat, xorb: bool, p: bool)
    requires n < |bits| && !bits[0]
    requires if n == 0 then xorb != p else xorb == (bits[n - 1] != p)
    ensures (xorb != Changes(bits)[n]) == (bits[n] != p)
  {}

  /** The window once the next bit is in. */
  function NextWindow(w0: Row, bits: Row, n: nat, p: bool): Row
    requires |w0| == 40 && n < |bits|
  {
    (w0 + Tinted(bits, p))[n + 1..n + 41]
  }

  ghost predicate InSync(w: Row, limit: int)
    requires |w| == 40
  {
    Diff(w, SyncWord()) <= limit || Diff(w, SyncWord()) >= 40 - limit
  }

  /** One bit while hunting. */
  lemma HuntBit(e: Dec, x: nat, w0: Row, bits: Row, n: nat, p: bool, limit: int)
    requires AllSane(e) && x < |e.branches| && n < |bits|
    requires Hunts(e.branches[x], w0, bits, n, p)
    requires Sane(WithBit(e, x, bits[n] != p).branches[x])
    ensures var e' := ShiftIn(WithBit(e, x, bits[n] != p), x, limit);
            var w := NextWindow(w0, bits, n, p);
            && OnlyListened(e, e', x)
            && (if InSync(w, limit)
                then var c := e'.branches[x];
                     && c.shstate == 1 && c.shcount == 0 && c.bits == Zero(112)
                     && c.xorb == ((bits[n] != p) != (Diff(w, SyncWord()) > limit))
                else Hunts(e'.branches[x], w0, bits, n + 1, p))
  {
    var b := e.branches[x].(xorb := bits[n] != p);
    var c := Hunt(b, limit);
    HuntIs(b, limit);
    hide Hunt, Diff, SyncWord, AllSane, Window;
    assert e.branches[x := b][x := c] == e.branches[x := c];
    WindowMoves(w0, Tinted(bits, p), n);
  }

  lemma WindowMoves(w0: Row, r: Row, n: nat)
    requires |w0| == 40 && n < |r|
    ensures (w0 + r)[n..n + 40][1..] + [r[n]] == (w0 + r)[n + 1..n + 41]
  {}

  // -------------------------------------------------------------- capturing

  /** Branch x has captured n bits of a block. */
  ghost predicate Fills(b: Branch, block: Row, n: nat, state: int) {
    && |b.synclow| == |b.synchigh| == 32 && |b.bits| == 112 == |block| && n < 112
    && b.shstate == state && b.shcount == n && b.bits[..n] == block[..n]
  }

  /** A bit of a block that is not the last one. */
  lemma FillBit(e: Dec, x: nat, block: Row, n: nat, state: int, limit: int)
    requires AllSane(e) && x < |e.branches| && Fills(e.branches[x], block, n, state) && (state == 1 || state == 2)
    requires n < 111 && Sane(WithBit(e, x, block[n]).branches[x])
    ensures var e' := ShiftIn(WithBit(e, x, block[n]), x, limit);
            OnlyListened(e, e', x) && Fills(e'.branches[x], block, n + 1, state) && e'.branches[x].xorb == block[n]
  {
    var b := e.branches[x];
    ShiftInFills(e, x, block[n], limit);
    var c := Filled(b, block[n]);
    assert c.bits[..n + 1] == b.bits[..n] + [block[n]];
    assert block[..n + 1] == block[..n] + [block[n]];
  }

  /** The last bit of a block. */
  lemma LastFill(e: Dec, x: nat, block: Row, state: int, limit: int)
    requires AllSane(e) && x < |e.branches| && Fills(e.branches[x], block, 111, state) && (state == 1 || state == 2)
    requires Sane(WithBit(e, x, block[111]).branches[x])
    ensures Sane(e.branches[x])
    ensures ShiftIn(WithBit(e, x, block[111]), x, limit) == Process(Full(e, x, block[111]), x)
    ensures Full(e, x, block[111]).branches[x].bits == block
    ensures Full(e, x, block[111]).branches[x].shstate == state
    ensures Full(e, x, block[111]).branches[x].xorb == block[111]
  {
    var b := e.branches[x];
    assert Sane(b);
    ShiftInFills(e, x, block[111], limit);
    var c := Filled(b, block[111]);
    assert c.bits == c.bits[..111] + [c.bits[111]];
    assert c.bits[..111] == b.bits[..111];
    assert block == block[..111] + [block[111]];
  }
}
