/** The two sync registers of an MDC-1200 branch, seen as the last 40 bits heard. */
module MdcWindow {
  import opened BitRows
  import opened MdcSync
  import opened MdcDecode

  function Backwards(r: Row): (s: Row)
    ensures |s| == |r| && forall i | 0 <= i < |r| :: s[i] == r[|r| - 1 - i]
  {
    seq(|r|, i requires 0 <= i < |r| => r[|r| - 1 - i])
  }

  lemma {:induction false} OnesBackwards(r: Row)
    ensures Ones(Backwards(r)) == Ones(r)
  {
    if r != [] {
      OnesBackwards(r[1..]);
      assert Backwards(r) == Backwards(r[1..]) + [r[0]];
      OnesJoin(Backwards(r[1..]), [r[0]]);
    }
  }

  /** The last 40 bits, oldest first. */
  function Window(synchigh: Row, synclow: Row): (r: Row)
    requires |synchigh| == |synclow| == 32
    ensures |r| == 40
  {
    Backwards(synchigh[..8]) + Backwards(synclow)
  }

  /** The two shifts of _shiftin move the window on by one bit. */
  lemma WindowSlides(high: Row, low: Row, b: bool)
    requires |high| == |low| == 32
    ensures Window(Shl(high)[0 := low[31]], Shl(low)[0 := b]) == Window(high, low)[1..] + [b]
  {}

  lemma LowOctetOnes(r: Row)
    requires |r| == 32
    ensures Ones(And(LowOctet(), r)) == Ones(r[..8])
  {
    assert And(LowOctet(), r) == r[..8] + Zero(24);
    OnesJoin(r[..8], Zero(24));
    OnesOfZero(24);
  }

  lemma ReadBackwards()
    ensures forall i | 0 <= i < 8 :: OctetOf(0xe0)[i] == OctetOf(0x07)[7 - i]
    ensures forall i | 0 <= i < 8 :: OctetOf(0x90)[i] == OctetOf(0x09)[7 - i]
    ensures forall i | 0 <= i < 8 :: OctetOf(0x54)[i] == OctetOf(0x2a)[7 - i]
    ensures forall i | 0 <= i < 8 :: OctetOf(0x22)[i] == OctetOf(0x44)[7 - i]
    ensures forall i | 0 <= i < 8 :: OctetOf(0xf6)[i] == OctetOf(0x6f)[7 - i]
  {}

  lemma SyncBytes()
    ensures SyncWord() == OctetOf(0xe0) + OctetOf(0x90) + OctetOf(0x54) + OctetOf(0x22) + OctetOf(0xf6)
  {}

  /** The two constants of _shiftin hold the sync word. */
  lemma SyncConstants()
    ensures Window(SyncHigh(), SyncLow()) == SyncWord()
  {
    SyncBytes();
    ReadBackwards();
    hide OctetOf, SyncWord;
  }

  /** The count of _shiftin is the number of bits in which the window differs from
      the sync word. */
  lemma DistanceIsDiff(high: Row, low: Row)
    requires |high| == |low| == 32
    ensures Distance(high, low) == Diff(Window(high, low), SyncWord())
  {
    var x, y := Xor(SyncHigh(), high), Xor(SyncLow(), low);
    SyncConstants();
    hide SyncHigh, SyncLow, SyncWord;
    LowOctetOnes(x);
    OnesBackwards(x[..8]);
    OnesBackwards(y);
    OnesJoin(Backwards(x[..8]), Backwards(y));
    assert Xor(Window(high, low), Window(SyncHigh(), SyncLow())) == Backwards(x[..8]) + Backwards(y);
  }

  /** A row, inverted if p. */
  function Tinted(r: Row, p: bool): (s: Row)
    ensures |s| == |r| && forall i | 0 <= i < |r| :: s[i] == (r[i] != p)
  {
    seq(|r|, i requires 0 <= i < |r| => r[i] != p)
  }

  /** An inverted window is as far from the sync word as the window is from its
      complement. */
  lemma TintedDiff(r: Row, s: Row, p: bool)
    requires |r| == |s|
    ensures Diff(Tinted(r, p), s) == if p then |r| - Diff(r, s) else Diff(r, s)
  {
    OnesOfNot(Xor(r, s));
    assert Xor(Tinted(r, p), s) == if p then Not(Xor(r, s)) else Xor(r, s);
  }

  /** A hunting branch takes a bit into its window and compares. */
  lemma HuntIs(b: Branch, limit: int)
    requires Sane(b)
    ensures var c := Hunt(b, limit);
            var w := Window(b.synchigh, b.synclow)[1..] + [b.xorb];
            && Sane(c) && Window(c.synchigh, c.synclow) == w
            && c == if Diff(w, SyncWord()) <= limit
                    then b.(synchigh := c.synchigh, synclow := c.synclow, shstate := 1, shcount := 0, bits := Zero(112))
                    else if Diff(w, SyncWord()) >= 40 - limit
                    then b.(synchigh := c.synchigh, synclow := c.synclow, shstate := 1, shcount := 0, bits := Zero(112),
                            xorb := !b.xorb)
                    else b.(synchigh := c.synchigh, synclow := c.synclow)
  {
    var high := Shl(b.synchigh)[0 := b.synclow[31]];
    var low := Shl(b.synclow)[0 := b.xorb];
    WindowSlides(b.synchigh, b.synclow, b.xorb);
    DistanceIsDiff(high, low);
    hide Distance, Diff, SyncWord, Window;
  }
}
