/** Whole runs of the MDC-1200 decoder: whatever is reported was heard by one
    branch, in one piece. */
module MdcRuns {
  import opened BitRows
  import opened MdcDecode

  /** A symbol ends at branch x, or the caller asks for a packet of a kind. */
  datatype Event = Sym(x: nat, zc: int) | Take(kind: int)

  predicate Counts(zc: int) { zc == 2 || zc == 3 || zc == 4 }

  function Act(d: Dec, e: Event, limit: int): (r: Dec)
    requires AllSane(d)
    ensures |r.branches| == |d.branches|
  {
    match e
    case Sym(x, zc) => if x < |d.branches| then Symbol(d, x, zc, limit) else d
    case Take(kind) => Taken(d, kind)
  }

  /** The bit a branch shifts in when a symbol ends. */
  function NewBit(b: Branch, zc: int): bool { if zc == 3 then !b.xorb else b.xorb }

  /** What each branch has heard, bit by bit. */
  function Hear(heard: seq<Row>, d: Dec, e: Event): (r: seq<Row>)
    requires |heard| == |d.branches|
    ensures |r| == |heard|
  {
    if e.Sym? && e.x < |heard| && Counts(e.zc)
    then heard[e.x := heard[e.x] + [NewBit(d.branches[e.x], e.zc)]]
    else heard
  }

  // ------------------------------------------------------------ what is claimed

  ghost predicate FieldsFrom(d: Dec, blk: Row)
    requires |blk| == 112
  {
    && Intact(blk)
    && d.op == BlockOctet(blk, 0) && d.arg == BlockOctet(blk, 1)
    && d.unitID == BlockOctet(blk, 3) + BlockOctet(blk, 2)
  }

  ghost predicate ExtrasFrom(d: Dec, blk: Row)
    requires |blk| == 112
  {
    && Intact(blk)
    && d.extra0 == BlockOctet(blk, 0) && d.extra1 == BlockOctet(blk, 1)
    && d.extra2 == BlockOctet(blk, 2) && d.extra3 == BlockOctet(blk, 3)
  }

  /** A single packet was heard at place p of h. */
  ghost predicate SingleAt(d: Dec, h: Row, p: nat) {
    p + 112 <= |h| && FieldsFrom(d, h[p..p + 112]) && !IsDouble(d.op)
  }

  /** The first block of a double packet was heard at place p of h. */
  ghost predicate FirstAt(d: Dec, h: Row, p: nat) {
    p + 112 <= |h| && FieldsFrom(d, h[p..p + 112]) && IsDouble(d.op)
  }

  /** A double packet was heard at place p of h: two blocks, one right after the
      other. */
  ghost predicate DoubleAt(d: Dec, h: Row, p: nat) {
    p + 224 <= |h| && FirstAt(d, h, p) && ExtrasFrom(d, h[p + 112..p + 224])
  }

  /** What branch b is capturing is the end of what it has heard; while it waits for
      a second block, the first one came just before. */
  ghost predicate Tracks(d: Dec, b: Branch, h: Row) {
    && Sane(b) && 0 <= b.shstate <= 2
    && (b.shstate > 0 ==> b.shcount <= |h| && b.bits[..b.shcount] == h[|h| - b.shcount..])
    && (b.shstate == 2 ==> b.shcount + 112 <= |h| && FirstAt(d, h, |h| - b.shcount - 112))
  }

  ghost predicate AllTrack(d: Dec, heard: seq<Row>) {
    |heard| == |d.branches| && forall x | 0 <= x < |heard| :: Tracks(d, d.branches[x], heard[x])
  }

  /** At most one branch waits for a second block. */
  ghost predicate OneWaits(d: Dec) {
    forall x, y | 0 <= x < y < |d.branches| :: !(d.branches[x].shstate == 2 && d.branches[y].shstate == 2)
  }

  ghost predicate Claim(d: Dec, heard: seq<Row>) {
    && 0 <= d.good <= 2
    && (d.good == 1 ==> exists x, p | 0 <= x < |heard| :: SingleAt(d, heard[x], p))
    && (d.good == 2 ==> exists x, p | 0 <= x < |heard| :: DoubleAt(d, heard[x], p))
  }

  ghost predicate Attributed(d: Dec, heard: seq<Row>) {
    AllTrack(d, heard) && OneWaits(d) && Claim(d, heard)
  }

  // ------------------------------------------------------------ claims last

  ghost predicate SameFields(d: Dec, d': Dec) { d'.op == d.op && d'.arg == d.arg && d'.unitID == d.unitID }

  ghost predicate SameExtras(d: Dec, d': Dec) {
    d'.extra0 == d.extra0 && d'.extra1 == d.extra1 && d'.extra2 == d.extra2 && d'.extra3 == d.extra3
  }

  lemma Within(h: Row, b: Row, i: nat, j: nat)
    requires i <= j <= |h|
    ensures (h + b)[i..j] == h[i..j]
  {}

  lemma FieldsLast(d: Dec, d': Dec, h: Row, b: Row, p: nat)
    requires SameFields(d, d')
    ensures SingleAt(d, h, p) ==> SingleAt(d', h + b, p)
    ensures FirstAt(d, h, p) ==> FirstAt(d', h + b, p)
  {
    if p + 112 <= |h| {
      Within(h, b, p, p + 112);
    }
  }

  lemma DoubleLasts(d: Dec, d': Dec, h: Row, b: Row, p: nat)
    requires SameFields(d, d') && SameExtras(d, d') && DoubleAt(d, h, p)
    ensures DoubleAt(d', h + b, p)
  {
    FieldsLast(d, d', h, b, p);
    Within(h, b, p + 112, p + 224);
  }

  /** Each branch has heard at least what it had heard before. */
  ghost predicate Longer(heard: seq<Row>, heard': seq<Row>) {
    |heard'| == |heard| && forall x | 0 <= x < |heard| :: heard[x] <= heard'[x]
  }

  lemma ClaimLasts(d: Dec, d': Dec, heard: seq<Row>, heard': seq<Row>)
    requires Claim(d, heard) && SameFields(d, d') && SameExtras(d, d') && d'.good == d.good && Longer(heard, heard')
    ensures Claim(d', heard')
  {
    hide SameFields, SameExtras, SingleAt, DoubleAt;
    if d.good == 1 {
      var x, p :| 0 <= x < |heard| && SingleAt(d, heard[x], p);
      FieldsLast(d, d', heard[x], heard'[x][|heard[x]|..], p);
      assert heard'[x] == heard[x] + heard'[x][|heard[x]|..];
      assert SingleAt(d', heard'[x], p);
    }
    if d.good == 2 {
      var x, p :| 0 <= x < |heard| && DoubleAt(d, heard[x], p);
      DoubleLasts(d, d', heard[x], heard'[x][|heard[x]|..], p);
      assert heard'[x] == heard[x] + heard'[x][|heard[x]|..];
      assert DoubleAt(d', heard'[x], p);
    }
  }

  lemma TrackLasts(d: Dec, d': Dec, b: Branch, h: Row)
    requires SameFields(d, d') && Tracks(d, b, h)
    ensures Tracks(d', b, h)
  {
    if b.shstate == 2 {
      FieldsLast(d, d', h, [], |h| - b.shcount - 112);
      assert h + [] == h;
    }
  }

  // ------------------------------------------------------------ one bit more

  /** One branch takes a bit; what is stored does not change. */
  lemma OneMoves(d: Dec, heard: seq<Row>, x: nat, b: Branch, bit: bool)
    requires Attributed(d, heard) && x < |heard|
    requires Tracks(d, b, heard[x] + [bit])
    requires b.shstate == 2 ==> d.branches[x].shstate == 2
    ensures Attributed(d.(branches := d.branches[x := b]), heard[x := heard[x] + [bit]])
  {
    var d' := d.(branches := d.branches[x := b]);
    var heard' := heard[x := heard[x] + [bit]];
    hide Tracks, Claim;
    forall y | 0 <= y < |heard| ensures Tracks(d', d'.branches[y], heard'[y]) {
      if y == x {
        TrackLasts(d, d', b, heard'[x]);
      } else {
        TrackLasts(d, d', d.branches[y], heard[y]);
      }
    }
    ClaimLasts(d, d', heard, heard');
  }

  /** The branch with one bit more captured. */
  function Filled(b: Branch, bit: bool): Branch
    requires b.shcount < |b.bits|
  {
    b.(xorb := bit, bits := b.bits[b.shcount := bit], shcount := b.shcount + 1)
  }

  /** The end of what was heard grows with the capture. */
  lemma FilledEnd(d: Dec, b: Branch, h: Row, bit: bool)
    requires Tracks(d, b, h) && b.shstate > 0
    ensures var c, g := Filled(b, bit), h + [bit];
            && c.bits[..c.shcount] == g[|g| - c.shcount..]
            && (b.shstate == 2 ==> FirstAt(d, g, |g| - c.shcount - 112))
  {
    hide FirstAt;
    TakeFilled(b.bits, b.shcount, bit);
    TailMore(h, b.shcount, bit);
    if b.shstate == 2 {
      FieldsLast(d, d, h, [bit], |h| - b.shcount - 112);
    }
  }

  lemma TakeFilled(bits: Row, n: nat, bit: bool)
    requires n < |bits|
    ensures bits[n := bit][..n + 1] == bits[..n] + [bit]
  {}

  lemma TailMore(h: Row, n: nat, bit: bool)
    requires n <= |h|
    ensures (h + [bit])[|h| - n..] == h[|h| - n..] + [bit]
  {}

  /** The captured block is the last 112 bits heard. */
  lemma Captured(d: Dec, b: Branch, h: Row, bit: bool)
    requires Tracks(d, b, h) && b.shstate > 0 && b.shcount == 111
    ensures |h| >= 111 && Filled(b, bit).bits == (h + [bit])[|h| - 111..|h| + 1]
  {
    FilledEnd(d, b, h, bit);
    var c := Filled(b, bit);
    assert c.bits[..112] == c.bits;
  }

  /** Branch x with its last bit in, before the block is processed. */
  function Full(d: Dec, x: nat, bit: bool): (e: Dec)
    requires x < |d.branches| && d.branches[x].shcount < |d.branches[x].bits|
    ensures |e.branches| == |d.branches|
  {
    d.(branches := d.branches[x := Filled(d.branches[x], bit)])
  }

  ghost predicate LastBit(d: Dec, heard: seq<Row>, x: nat) {
    && Attributed(d, heard) && x < |heard|
    && 1 <= d.branches[x].shstate <= 2 && d.branches[x].shcount == 111
  }

  lemma FullIs(d: Dec, heard: seq<Row>, x: nat, bit: bool)
    requires LastBit(d, heard, x)
    ensures var h := heard[x] + [bit];
            && Tracks(d, d.branches[x], heard[x]) && |h| >= 112
            && |Full(d, x, bit).branches[x].bits| == 112
            && Full(d, x, bit).branches[x].bits == h[|h| - 112..]
            && Full(d, x, bit).branches[x].bits == h[|h| - 112..|h|]
  {
    Captured(d, d.branches[x], heard[x], bit);
  }

  /** The checksum fails. */
  lemma Dropped(d: Dec, heard: seq<Row>, x: nat, bit: bool)
    requires LastBit(d, heard, x) && |Full(d, x, bit).branches[x].bits| == 112
    requires !Intact(Full(d, x, bit).branches[x].bits)
    ensures Attributed(Process(Full(d, x, bit), x), heard[x := heard[x] + [bit]])
  {
    FullIs(d, heard, x, bit);
    var b := Filled(d.branches[x], bit).(shstate := 0);
    OneMoves(d, heard, x, b, bit);
    hide Intact, Attributed;
    assert Process(Full(d, x, bit), x).branches == d.branches[x := b];
  }

  /** A second block is complete. */
  lemma SecondBlock(d: Dec, heard: seq<Row>, x: nat, bit: bool)
    requires LastBit(d, heard, x) && |Full(d, x, bit).branches[x].bits| == 112
    requires Intact(Full(d, x, bit).branches[x].bits) && d.branches[x].shstate == 2
    ensures Attributed(Process(Full(d, x, bit), x), heard[x := heard[x] + [bit]])
  {
    SaneInLastBit(d, heard, x);
    SecondBlockHeard(d, heard, x, bit);
    SecondBlockStored(Full(d, x, bit), x);
    var e := Process(Full(d, x, bit), x);
    hide *;
    ClaimDouble(e, heard, x, heard[x] + [bit]);
    RewoundFull(d, e, x, bit, heard[x := heard[x] + [bit]]);
  }

  lemma SaneInLastBit(d: Dec, heard: seq<Row>, x: nat)
    requires LastBit(d, heard, x)
    ensures |heard| == |d.branches| && x < |heard| && d.branches[x].shcount == 111
    ensures forall y | 0 <= y < |heard| :: Sane(d.branches[y])
  {
    forall y | 0 <= y < |heard| ensures Sane(d.branches[y]) { assert Tracks(d, d.branches[y], heard[y]); }
  }

  /** All branches of e are those of f, sent back to hunting. */
  ghost predicate Rewinds(f: Dec, e: Dec) { e.branches == AllHunting(f.branches) }

  lemma SecondBlockStored(f: Dec, x: nat)
    requires x < |f.branches| && |f.branches[x].bits| == 112
    requires Intact(f.branches[x].bits) && f.branches[x].shstate == 2
    ensures var e := Process(f, x);
            && Rewinds(f, e) && e.good == 2
            && SameFields(f, e) && ExtrasFrom(e, f.branches[x].bits)
  {
    hide Intact, BlockOctet;
  }

  /** Both blocks are the last 224 bits heard. */
  lemma SecondBlockHeard(d: Dec, heard: seq<Row>, x: nat, bit: bool)
    requires LastBit(d, heard, x) && |Full(d, x, bit).branches[x].bits| == 112
    requires Intact(Full(d, x, bit).branches[x].bits) && d.branches[x].shstate == 2
    ensures Full(d, x, bit).branches[x].shstate == 2
    ensures var e, h := Process(Full(d, x, bit), x), heard[x] + [bit];
            |h| >= 224 && DoubleAt(e, h, |h| - 224)
  {
    var f := Full(d, x, bit);
    var h := heard[x] + [bit];
    FullIs(d, heard, x, bit);
    FilledEnd(d, d.branches[x], heard[x], bit);
    SecondBlockStored(f, x);
    FieldsLast(d, Process(f, x), h, [], |h| - 224);
    assert h + [] == h;
    assert h[|h| - 112..|h|] == f.branches[x].bits;
    hide Process, ExtrasFrom, FieldsFrom, Intact, IsDouble;
  }

  lemma ClaimDouble(e: Dec, heard: seq<Row>, x: nat, h: Row)
    requires e.good == 2 && x < |heard| && |h| >= 224 && DoubleAt(e, h, |h| - 224)
    ensures Claim(e, heard[x := h])
  {
    hide DoubleAt;
    assert heard[x := h][x] == h;
  }

  lemma RewoundFull(d: Dec, e: Dec, x: nat, bit: bool, heard: seq<Row>)
    requires |heard| == |d.branches| && x < |heard| && Claim(e, heard)
    requires forall y | 0 <= y < |heard| :: Sane(d.branches[y])
    requires Sane(d.branches[x]) && d.branches[x].shcount == 111
    requires Rewinds(Full(d, x, bit), e)
    ensures Attributed(e, heard)
  {
    hide Claim, FirstAt;
  }

  /** A first or only block is complete. */
  lemma FirstBlock(d: Dec, heard: seq<Row>, x: nat, bit: bool)
    requires LastBit(d, heard, x) && |Full(d, x, bit).branches[x].bits| == 112
    requires Intact(Full(d, x, bit).branches[x].bits) && d.branches[x].shstate == 1
    ensures Attributed(Process(Full(d, x, bit), x), heard[x := heard[x] + [bit]])
  {
    FullIs(d, heard, x, bit);
    var e := Process(Full(d, x, bit), x);
    var heard' := heard[x := heard[x] + [bit]];
    var h := heard'[x];
    assert forall y | 0 <= y < |heard| :: Sane(d.branches[y]) by {
      forall y | 0 <= y < |heard| ensures Sane(d.branches[y]) { assert Tracks(d, d.branches[y], heard[y]); }
    }
    hide Intact, Tracks, IsDouble;
    assert FieldsFrom(e, h[|h| - 112..|h|]);
    if IsDouble(e.op) {
      assert FirstAt(e, h, |h| - 112);
      hide BlockOctet, FieldsFrom;
      WaitsNow(d, e, x, bit, heard');
    } else {
      assert SingleAt(e, h, |h| - 112);
      hide BlockOctet, FieldsFrom, DoubleAt, SingleAt, FirstAt;
      assert Claim(e, heard');
      RewoundFull(d, e, x, bit, heard');
    }
  }

  lemma WaitsNow(d: Dec, e: Dec, x: nat, bit: bool, heard: seq<Row>)
    requires |heard| == |d.branches| && x < |heard| && e.good == 0 && |heard[x]| >= 112
    requires forall y | 0 <= y < |heard| :: Sane(d.branches[y])
    requires Sane(d.branches[x]) && d.branches[x].shcount == 111
    requires FirstAt(e, heard[x], |heard[x]| - 112)
    requires var rest := AllHunting(Full(d, x, bit).branches);
             e.branches == rest[x := rest[x].(shstate := 2, shcount := 0, bits := Zero(112))]
    ensures Attributed(e, heard)
  {
    hide FirstAt;
    assert Tracks(e, e.branches[x], heard[x]) by {
      assert e.branches[x].bits[..0] == heard[x][|heard[x]|..];
    }
    assert AllTrack(e, heard);
  }

  /** The last bit of a block into branch x. */
  lemma BlockKeeps(d: Dec, heard: seq<Row>, x: nat, bit: bool)
    requires LastBit(d, heard, x) && |Full(d, x, bit).branches[x].bits| == 112
    ensures Attributed(Process(Full(d, x, bit), x), heard[x := heard[x] + [bit]])
  {
    FullIs(d, heard, x, bit);
    assert x < |d.branches| && d.branches[x].shcount < |d.branches[x].bits|;
    hide Attributed, Process, Full, Intact;
    if !Intact(Full(d, x, bit).branches[x].bits) {
      Dropped(d, heard, x, bit);
    } else if d.branches[x].shstate == 2 {
      SecondBlock(d, heard, x, bit);
    } else {
      FirstBlock(d, heard, x, bit);
    }
  }

  /** Branch x before the bit is looked at. */
  function WithBit(d: Dec, x: nat, bit: bool): (e: Dec)
    requires x < |d.branches|
    ensures |e.branches| == |d.branches|
  {
    d.(branches := d.branches[x := d.branches[x].(xorb := bit)])
  }

  lemma HuntKeeps(d: Dec, heard: seq<Row>, x: nat, bit: bool, limit: int)
    requires Attributed(d, heard) && x < |heard| && d.branches[x].shstate == 0
    requires Sane(d.branches[x].(xorb := bit))
    ensures Attributed(ShiftIn(WithBit(d, x, bit), x, limit), heard[x := heard[x] + [bit]])
  {
    var c := Hunt(d.branches[x].(xorb := bit), limit);
    var h := heard[x] + [bit];
    assert Tracks(d, d.branches[x], heard[x]);
    assert Tracks(d, c, h) by {
      hide Distance, FirstAt;
      assert c.bits[..0] == h[|h|..];
    }
    hide Attributed, Tracks, Hunt;
    OneMoves(d, heard, x, c, bit);
    assert WithBit(d, x, bit).branches[x := c] == d.branches[x := c];
  }

  /** What a capturing branch does with a bit. */
  lemma ShiftInFills(d: Dec, x: nat, bit: bool, limit: int)
    requires x < |d.branches| && Sane(d.branches[x]) && 1 <= d.branches[x].shstate <= 2
    requires Sane(d.branches[x].(xorb := bit))
    ensures ShiftIn(WithBit(d, x, bit), x, limit) ==
            if d.branches[x].shcount < 111 then Full(d, x, bit) else Process(Full(d, x, bit), x)
  {
    assert WithBit(d, x, bit).branches[x := Filled(d.branches[x], bit)] == Full(d, x, bit).branches;
    hide Process;
  }

  lemma FillFacts(d: Dec, heard: seq<Row>, x: nat, bit: bool)
    requires Attributed(d, heard) && x < |heard| && d.branches[x].shstate != 0
    requires Sane(d.branches[x].(xorb := bit))
    ensures x < |d.branches| && Sane(d.branches[x]) && 1 <= d.branches[x].shstate <= 2
    ensures if d.branches[x].shcount < 111 then Tracks(d, Filled(d.branches[x], bit), heard[x] + [bit])
            else LastBit(d, heard, x)
  {
    hide OneWaits, Claim, FirstAt;
    assert Tracks(d, d.branches[x], heard[x]);
    assert Sane(d.branches[x]) && 1 <= d.branches[x].shstate <= 2;
    hide Tracks, AllTrack;
    if d.branches[x].shcount < 111 {
      FilledTracks(d, d.branches[x], heard[x], bit);
    }
  }

  lemma FilledTracks(d: Dec, b: Branch, h: Row, bit: bool)
    requires Tracks(d, b, h) && b.shstate > 0 && b.shcount < 111 && Sane(b.(xorb := bit))
    ensures Tracks(d, Filled(b, bit), h + [bit])
  {
    FilledEnd(d, b, h, bit);
    hide FirstAt;
  }

  lemma FillKeeps(d: Dec, heard: seq<Row>, x: nat, bit: bool, limit: int)
    requires Attributed(d, heard) && x < |heard| && d.branches[x].shstate != 0
    requires Sane(d.branches[x].(xorb := bit))
    ensures Attributed(ShiftIn(WithBit(d, x, bit), x, limit), heard[x := heard[x] + [bit]])
  {
    FillFacts(d, heard, x, bit);
    hide Attributed, Tracks, ShiftIn, Process, LastBit;
    ShiftInFills(d, x, bit, limit);
    if d.branches[x].shcount < 111 {
      OneMoves(d, heard, x, Filled(d.branches[x], bit), bit);
    } else {
      FullIs(d, heard, x, bit);
      BlockKeeps(d, heard, x, bit);
    }
  }

  lemma AllAreSane(d: Dec, heard: seq<Row>)
    requires Attributed(d, heard)
    ensures AllSane(d) && |heard| == |d.branches|
  {
    forall x | 0 <= x < |d.branches| ensures Sane(d.branches[x]) { assert Tracks(d, d.branches[x], heard[x]); }
  }

  /** Whatever the signal does and whenever the caller asks, each step keeps every
      claim attributed. */
  lemma ActKeeps(d: Dec, heard: seq<Row>, e: Event, limit: int)
    requires Attributed(d, heard)
    ensures AllSane(d) && |heard| == |d.branches|
    ensures Attributed(Act(d, e, limit), Hear(heard, d, e))
  {
    AllAreSane(d, heard);
    match e
    case Take(kind) =>
      hide Tracks;
      var d' := Act(d, e, limit);
      forall x | 0 <= x < |heard| ensures Tracks(d', d'.branches[x], heard[x]) {
        TrackLasts(d, d', d.branches[x], heard[x]);
      }
      if d'.good == d.good {
        ClaimLasts(d, d', heard, heard);
      }
    case Sym(x, zc) =>
      if x < |heard| && Counts(zc) {
        var bit := NewBit(d.branches[x], zc);
        assert Sane(d.branches[x]);
        hide Attributed, ShiftIn;
        assert WithBit(d, x, bit) ==
               if zc == 3 then d.(branches := d.branches[x := d.branches[x].(xorb := bit)]) else d;
        if d.branches[x].shstate == 0 {
          HuntKeeps(d, heard, x, bit, limit);
        } else {
          FillKeeps(d, heard, x, bit, limit);
        }
      }
  }

  // ------------------------------------------------------------------ whole runs

  /** The decoder after a run, and what each branch heard. */
  ghost function Run(d: Dec, events: seq<Event>, limit: int): (r: (Dec, seq<Row>))
    requires Fresh(d)
    ensures Attributed(r.0, r.1) && AllSane(r.0) && |r.0.branches| == |d.branches|
    decreases |events|
  {
    if events == [] then
      FreshIsAttributed(d);
      (d, seq(|d.branches|, _ => []))
    else
      var n := |events| - 1;
      var (e, heard) := Run(d, events[..n], limit);
      ActKeeps(e, heard, events[n], limit);
      AllAreSane(Act(e, events[n], limit), Hear(heard, e, events[n]));
      (Act(e, events[n], limit), Hear(heard, e, events[n]))
  }

  lemma FreshIsAttributed(d: Dec)
    requires Fresh(d)
    ensures Attributed(d, seq(|d.branches|, _ => []))
  {
    hide FirstAt, SingleAt, DoubleAt;
  }

  /** Over every run of a new decoder, however its branches interleave: there is
      room in every capture, one branch at most waits for a second block, and a
      packet on offer was heard in one piece by one branch. */
  lemma EveryPacketWasHeard(d: Dec, events: seq<Event>, limit: int)
    requires Fresh(d)
    ensures var (e, heard) := Run(d, events, limit);
            && |e.branches| == |d.branches| == |heard|
            && (forall x | 0 <= x < |e.branches| :: e.branches[x].shstate != 0 ==> e.branches[x].shcount < 112)
            && (forall x, y | 0 <= x < y < |e.branches| :: !(e.branches[x].shstate == 2 && e.branches[y].shstate == 2))
            && (e.good == 1 ==> exists x, p | 0 <= x < |heard| :: SingleAt(e, heard[x], p))
            && (e.good == 2 ==> exists x, p | 0 <= x < |heard| :: DoubleAt(e, heard[x], p))
  {
    var (e, heard) := Run(d, events, limit);
    hide SingleAt, DoubleAt, Run;
    forall x | 0 <= x < |e.branches| ensures e.branches[x].shstate != 0 ==> e.branches[x].shcount < 112 {
      assert Sane(e.branches[x]);
    }
  }
}
