/** How far the sync word of MDC-1200 is from every other alignment of the bits
    that precede it. */
module MdcSync {
  import opened BitRows

  /** Octet k of a 40-bit window. */
  function Byte(w: bv40, k: nat): bv8
    requires k < 5
  {
    ((if k == 0 then w else if k == 1 then w >> 8 else if k == 2 then w >> 16
      else if k == 3 then w >> 24 else w >> 32) & 0xff) as bv8
  }

  /** A window as a row, oldest bit first. */
  function RowOf(w: bv40): (r: Row)
    ensures |r| == 40
  {
    Join5(OctetOf(Byte(w, 0)), OctetOf(Byte(w, 1)), OctetOf(Byte(w, 2)), OctetOf(Byte(w, 3)), OctetOf(Byte(w, 4)))
  }

  function Join5(a: Octet, b: Octet, c: Octet, d: Octet, e: Octet): (r: Row)
    ensures |r| == 40
  {
    a + b + c + d + e
  }

  function CountOf(w: bv40): nat {
    Count(OctetOf(Byte(w, 0))) + Count(OctetOf(Byte(w, 1))) + Count(OctetOf(Byte(w, 2)))
    + Count(OctetOf(Byte(w, 3))) + Count(OctetOf(Byte(w, 4)))
  }

  lemma CountJoin(a: Octet, b: Octet, c: Octet, d: Octet, e: Octet)
    ensures Ones(Join5(a, b, c, d, e)) == Count(a) + Count(b) + Count(c) + Count(d) + Count(e)
  {
    var ra: Row, rb: Row, rc: Row, rd: Row := a, b, c, d;
    OnesJoin(ra + rb + rc + rd, e);
    OnesJoin(ra + rb + rc, d);
    OnesJoin(ra + rb, c);
    OnesJoin(ra, b);
    CountOctet(a);
    CountOctet(b);
    CountOctet(c);
    CountOctet(d);
    CountOctet(e);
  }

  lemma CountRow(w: bv40)
    ensures Ones(RowOf(w)) == CountOf(w)
  {
    CountJoin(OctetOf(Byte(w, 0)), OctetOf(Byte(w, 1)), OctetOf(Byte(w, 2)), OctetOf(Byte(w, 3)), OctetOf(Byte(w, 4)));
  }

  /** 0x07092a446f, oldest bit first. */
  function SyncWord(): (r: Row)
    ensures |r| == 40
  {
    RowOf(0xf6225490e0)
  }

  /** One more bit in, the oldest out. */
  function Slide(w: bv40, b: bool): bv40 {
    (w >> 1) | (if b then 0x8000000000 else 0)
  }

  /** Bits move down by one within an octet, and the lowest bit of the next one
      comes in. */
  function Slide8(x: bv8, b: bool): bv8 { (x >> 1) | (if b then 0x80 else 0) }

  lemma SlideMasks(x: bv8, b: bool)
    ensures var y := Slide8(x, b);
            && Has(y, 0x01) == Has(x, 0x02) && Has(y, 0x02) == Has(x, 0x04) && Has(y, 0x04) == Has(x, 0x08)
            && Has(y, 0x08) == Has(x, 0x10) && Has(y, 0x10) == Has(x, 0x20) && Has(y, 0x20) == Has(x, 0x40)
            && Has(y, 0x40) == Has(x, 0x80) && Has(y, 0x80) == b
  {}

  lemma SlideOctet(x: bv8, b: bool)
    ensures OctetOf(Slide8(x, b)) == OctetOf(x)[1..] + [b]
  {
    SlideMasks(x, b);
    hide Has, Slide8;
  }

  lemma LowBit(x: bv8)
    ensures OctetOf(x)[0] == Has(x, 1)
  {}

  lemma SlideLowBytes(w: bv40, b: bool)
    ensures Byte(Slide(w, b), 0) == Slide8(Byte(w, 0), Has(Byte(w, 1), 1))
    ensures Byte(Slide(w, b), 1) == Slide8(Byte(w, 1), Has(Byte(w, 2), 1))
  {}

  lemma SlideMiddleByte(w: bv40, b: bool)
    ensures Byte(Slide(w, b), 2) == Slide8(Byte(w, 2), Has(Byte(w, 3), 1))
  {}

  lemma SlideHighBytes(w: bv40, b: bool)
    ensures Byte(Slide(w, b), 3) == Slide8(Byte(w, 3), Has(Byte(w, 4), 1))
    ensures Byte(Slide(w, b), 4) == Slide8(Byte(w, 4), b)
  {}

  lemma SlideJoin(a: Octet, b: Octet, c: Octet, d: Octet, e: Octet, v: bool)
    ensures Join5(a[1..] + [b[0]], b[1..] + [c[0]], c[1..] + [d[0]], d[1..] + [e[0]], e[1..] + [v])
         == Join5(a, b, c, d, e)[1..] + [v]
  {
    assert [b[0]] + b[1..] == b && [c[0]] + c[1..] == c && [d[0]] + d[1..] == d && [e[0]] + e[1..] == e;
  }

  lemma SlideOctets(x0: bv8, x1: bv8, x2: bv8, x3: bv8, x4: bv8, b: bool)
    ensures Join5(OctetOf(Slide8(x0, Has(x1, 1))), OctetOf(Slide8(x1, Has(x2, 1))), OctetOf(Slide8(x2, Has(x3, 1))),
                  OctetOf(Slide8(x3, Has(x4, 1))), OctetOf(Slide8(x4, b)))
         == Join5(OctetOf(x0), OctetOf(x1), OctetOf(x2), OctetOf(x3), OctetOf(x4))[1..] + [b]
  {
    LowBit(x1);
    LowBit(x2);
    LowBit(x3);
    LowBit(x4);
    SlideOctet(x0, Has(x1, 1));
    SlideOctet(x1, Has(x2, 1));
    SlideOctet(x2, Has(x3, 1));
    SlideOctet(x3, Has(x4, 1));
    SlideOctet(x4, b);
    hide *;
    SlideJoin(OctetOf(x0), OctetOf(x1), OctetOf(x2), OctetOf(x3), OctetOf(x4), b);
  }

  lemma SlideRow(w: bv40, b: bool)
    ensures RowOf(Slide(w, b)) == RowOf(w)[1..] + [b]
  {
    SlideLowBytes(w, b);
    SlideMiddleByte(w, b);
    SlideHighBytes(w, b);
    hide Join5, Slide, Slide8, Byte, OctetOf, Has;
    SlideOctets(Byte(w, 0), Byte(w, 1), Byte(w, 2), Byte(w, 3), Byte(w, 4), b);
  }

  lemma XorMask(x: bv8, y: bv8, m: bv8)
    requires m & (m - 1) == 0
    ensures Has(x ^ y, m) == (Has(x, m) != Has(y, m))
  {}

  lemma XorOctet(x: bv8, y: bv8)
    ensures Xor(OctetOf(x), OctetOf(y)) == OctetOf(x ^ y)
  {
    var z := x ^ y;
    XorMask(x, y, 0x01);
    XorMask(x, y, 0x02);
    XorMask(x, y, 0x04);
    XorMask(x, y, 0x08);
    XorMask(x, y, 0x10);
    XorMask(x, y, 0x20);
    XorMask(x, y, 0x40);
    XorMask(x, y, 0x80);
    hide Has;
    XorAll(x, y, z);
  }

  lemma XorAll(x: bv8, y: bv8, z: bv8)
    requires Has(z, 0x01) == (Has(x, 0x01) != Has(y, 0x01)) && Has(z, 0x02) == (Has(x, 0x02) != Has(y, 0x02))
    requires Has(z, 0x04) == (Has(x, 0x04) != Has(y, 0x04)) && Has(z, 0x08) == (Has(x, 0x08) != Has(y, 0x08))
    requires Has(z, 0x10) == (Has(x, 0x10) != Has(y, 0x10)) && Has(z, 0x20) == (Has(x, 0x20) != Has(y, 0x20))
    requires Has(z, 0x40) == (Has(x, 0x40) != Has(y, 0x40)) && Has(z, 0x80) == (Has(x, 0x80) != Has(y, 0x80))
    ensures Xor(OctetOf(x), OctetOf(y)) == OctetOf(z)
  {
    OctetBits(x);
    OctetBits(y);
    OctetBits(z);
    hide *;
    XorIs(OctetOf(x), OctetOf(y), OctetOf(z));
  }

  lemma OctetBits(x: bv8)
    ensures var o := OctetOf(x);
            && o[0] == Has(x, 0x01) && o[1] == Has(x, 0x02) && o[2] == Has(x, 0x04) && o[3] == Has(x, 0x08)
            && o[4] == Has(x, 0x10) && o[5] == Has(x, 0x20) && o[6] == Has(x, 0x40) && o[7] == Has(x, 0x80)
  {}

  lemma XorIs(a: Octet, b: Octet, c: Octet)
    requires c[0] == (a[0] != b[0]) && c[1] == (a[1] != b[1]) && c[2] == (a[2] != b[2]) && c[3] == (a[3] != b[3])
    requires c[4] == (a[4] != b[4]) && c[5] == (a[5] != b[5]) && c[6] == (a[6] != b[6]) && c[7] == (a[7] != b[7])
    ensures Xor(a, b) == c
  {
    forall j | 0 <= j < 8 ensures Xor(a, b)[j] == c[j] {
      assert j == 0 || j == 1 || j == 2 || j == 3 || j == 4 || j == 5 || j == 6 || j == 7;
    }
  }

  lemma XorJoin(a: Octet, b: Octet, c: Octet, d: Octet, e: Octet,
                p: Octet, q: Octet, r: Octet, s: Octet, t: Octet)
    ensures Xor(Join5(a, b, c, d, e), Join5(p, q, r, s, t))
         == Join5(Xor(a, p), Xor(b, q), Xor(c, r), Xor(d, s), Xor(e, t))
  {}

  lemma XorRow(a: bv40, b: bv40)
    ensures Xor(RowOf(a), RowOf(b)) == RowOf(a ^ b)
  {
    RowOfIs(a);
    RowOfIs(b);
    RowOfIs(a ^ b);
    hide *;
    XorByte0(a, b);
    XorByte1(a, b);
    XorByte2(a, b);
    XorByte3(a, b);
    XorByte4(a, b);
    XorJoin(OctetOf(Byte(a, 0)), OctetOf(Byte(a, 1)), OctetOf(Byte(a, 2)), OctetOf(Byte(a, 3)), OctetOf(Byte(a, 4)),
            OctetOf(Byte(b, 0)), OctetOf(Byte(b, 1)), OctetOf(Byte(b, 2)), OctetOf(Byte(b, 3)), OctetOf(Byte(b, 4)));
  }

  lemma XorByte0(a: bv40, b: bv40)
    ensures Xor(OctetOf(Byte(a, 0)), OctetOf(Byte(b, 0))) == OctetOf(Byte(a ^ b, 0))
  {
    hide Xor, OctetOf;
    XorOctetIs(Byte(a, 0), Byte(b, 0), Byte(a ^ b, 0));
  }

  lemma XorByte1(a: bv40, b: bv40)
    ensures Xor(OctetOf(Byte(a, 1)), OctetOf(Byte(b, 1))) == OctetOf(Byte(a ^ b, 1))
  {
    hide Xor, OctetOf;
    XorOctetIs(Byte(a, 1), Byte(b, 1), Byte(a ^ b, 1));
  }

  lemma XorByte2(a: bv40, b: bv40)
    ensures Xor(OctetOf(Byte(a, 2)), OctetOf(Byte(b, 2))) == OctetOf(Byte(a ^ b, 2))
  {
    hide Xor, OctetOf;
    XorOctetIs(Byte(a, 2), Byte(b, 2), Byte(a ^ b, 2));
  }

  lemma XorByte3(a: bv40, b: bv40)
    ensures Xor(OctetOf(Byte(a, 3)), OctetOf(Byte(b, 3))) == OctetOf(Byte(a ^ b, 3))
  {
    hide Xor, OctetOf;
    XorOctetIs(Byte(a, 3), Byte(b, 3), Byte(a ^ b, 3));
  }

  lemma XorByte4(a: bv40, b: bv40)
    ensures Xor(OctetOf(Byte(a, 4)), OctetOf(Byte(b, 4))) == OctetOf(Byte(a ^ b, 4))
  {
    hide Xor, OctetOf;
    XorOctetIs(Byte(a, 4), Byte(b, 4), Byte(a ^ b, 4));
  }

  lemma XorOctetIs(x: bv8, y: bv8, z: bv8)
    requires z == x ^ y
    ensures Xor(OctetOf(x), OctetOf(y)) == OctetOf(z)
  {
    XorOctet(x, y);
  }

  lemma RowOfIs(w: bv40)
    ensures RowOf(w) ==
            Join5(OctetOf(Byte(w, 0)), OctetOf(Byte(w, 1)), OctetOf(Byte(w, 2)), OctetOf(Byte(w, 3)),
                  OctetOf(Byte(w, 4)))
  {}

  /** Bits in which two rows differ. */
  function Diff(a: Row, b: Row): nat
    requires |a| == |b|
  {
    Ones(Xor(a, b))
  }

  lemma DiffOf(a: bv40, b: bv40)
    ensures Diff(RowOf(a), RowOf(b)) == CountOf(a ^ b)
  {
    XorRow(a, b);
    CountRow(a ^ b);
  }

  /** What is left of the sync word after n bits. */
  function Rest(n: nat): bv40 { if n == 0 then 0xf6225490e0 else Rest(n - 1) >> 1 }

  /** The window n bits after the preamble, while the sync word comes in. */
  function Hunted(n: nat): bv40 {
    if n == 0 then 0xaaaaaaaaaa else Slide(Hunted(n - 1), Rest(n - 1) & 1 != 0)
  }

  lemma FirstBit(w: bv40)
    ensures RowOf(w)[0] == (w & 1 != 0)
  {
    assert Byte(w, 0) & 1 != 0 <==> w & 1 != 0;
    LowBit(Byte(w, 0));
  }

  lemma ShiftRow(w: bv40, k: nat)
    requires k < 39
    ensures RowOf(w >> 1)[k] == RowOf(w)[k + 1]
  {
    SlideRow(w, false);
    SlideIsShift(w);
    hide *;
  }

  lemma SlideIsShift(w: bv40)
    ensures Slide(w, false) == w >> 1
  {}

  lemma {:induction false} RestRow(n: nat, k: nat)
    requires n + k < 40
    ensures RowOf(Rest(n))[k] == SyncWord()[n + k]
    decreases n
  {
    if n > 0 {
      hide RowOf, SyncWord;
      ShiftRow(Rest(n - 1), k);
      RestRow(n - 1, k + 1);
    } else {
      hide RowOf;
    }
  }

  lemma SyncBit(n: nat)
    requires n < 40
    ensures SyncWord()[n] == (Rest(n) & 1 != 0)
  {
    RestRow(n, 0);
    FirstBit(Rest(n));
  }

  /** At least 18 bits from the sync word, and from its complement. */
  predicate Apart(w: bv40) { 18 <= CountOf(w ^ 0xf6225490e0) <= 22 }

  lemma Apart0()
    ensures Apart(0xaaaaaaaaaa)
    ensures Apart(0x5555555555)
    ensures Apart(0x2aaaaaaaaa)
    ensures Apart(0x1555555555)
    ensures Apart(0x0aaaaaaaaa)
  {
    assert Apart(0xaaaaaaaaaa) by { assert CountOf(0x5c88fe3a4a) == 20; }
    assert Apart(0x5555555555) by { assert CountOf(0xa37701c5b5) == 20; }
    assert Apart(0x2aaaaaaaaa) by { assert CountOf(0xdc88fe3a4a) == 21; }
    assert Apart(0x1555555555) by { assert CountOf(0xe37701c5b5) == 21; }
    assert Apart(0x0aaaaaaaaa) by { assert CountOf(0xfc88fe3a4a) == 22; }
  }

  lemma Hunted0()
    requires Hunted(0) == 0xaaaaaaaaaa && Rest(0) == 0xf6225490e0
    ensures Hunted(5) == 0x0555555555 && Rest(5) == 0x07b112a487
    ensures forall n | 0 <= n < 5 :: Apart(Hunted(n))
  {
    hide Apart;
    Apart0();
    assert Rest(1) == 0x7b112a4870 && Hunted(1) == 0x5555555555;
    assert Rest(2) == 0x3d88952438 && Hunted(2) == 0x2aaaaaaaaa;
    assert Rest(3) == 0x1ec44a921c && Hunted(3) == 0x1555555555;
    assert Rest(4) == 0x0f6225490e && Hunted(4) == 0x0aaaaaaaaa;
    assert Rest(5) == 0x07b112a487 && Hunted(5) == 0x0555555555;
    hide Hunted, Rest;
    forall n | 0 <= n < 5 ensures Apart(Hunted(n)) {
      assert n == 0 || n == 1 || n == 2 || n == 3 || n == 4;
    }
  }

  lemma Apart5()
    ensures Apart(0x0555555555)
    ensures Apart(0x82aaaaaaaa)
    ensures Apart(0xc155555555)
    ensures Apart(0xe0aaaaaaaa)
    ensures Apart(0x7055555555)
  {
    assert CountOf(0xf37701c5b5) == 22;
    assert CountOf(0x7488fe3a4a) == 20;
    assert CountOf(0x377701c5b5) == 21;
    assert CountOf(0x1688fe3a4a) == 19;
    assert CountOf(0x867701c5b5) == 19;
  }

  lemma Hunted5()
    requires Hunted(5) == 0x0555555555 && Rest(5) == 0x07b112a487
    ensures Hunted(10) == 0x382aaaaaaa && Rest(10) == 0x003d889524
    ensures forall n | 5 <= n < 10 :: Apart(Hunted(n))
  {
    hide Apart;
    Apart5();
    assert Rest(6) == 0x03d8895243 && Hunted(6) == 0x82aaaaaaaa;
    assert Rest(7) == 0x01ec44a921 && Hunted(7) == 0xc155555555;
    assert Rest(8) == 0x00f6225490 && Hunted(8) == 0xe0aaaaaaaa;
    assert Rest(9) == 0x007b112a48 && Hunted(9) == 0x7055555555;
    assert Rest(10) == 0x003d889524 && Hunted(10) == 0x382aaaaaaa;
    hide Hunted, Rest;
    forall n | 5 <= n < 10 ensures Apart(Hunted(n)) {
      assert n == 5 || n == 6 || n == 7 || n == 8 || n == 9;
    }
  }

  lemma Apart10()
    ensures Apart(0x382aaaaaaa)
    ensures Apart(0x1c15555555)
    ensures Apart(0x0e0aaaaaaa)
    ensures Apart(0x8705555555)
    ensures Apart(0x4382aaaaaa)
  {
    assert CountOf(0xce08fe3a4a) == 20;
    assert CountOf(0xea3701c5b5) == 20;
    assert CountOf(0xf828fe3a4a) == 21;
    assert CountOf(0x712701c5b5) == 18;
    assert CountOf(0xb5a0fe3a4a) == 21;
  }

  lemma Hunted10()
    requires Hunted(10) == 0x382aaaaaaa && Rest(10) == 0x003d889524
    ensures Hunted(15) == 0x21c1555555 && Rest(15) == 0x0001ec44a9
    ensures forall n | 10 <= n < 15 :: Apart(Hunted(n))
  {
    hide Apart;
    Apart10();
    assert Rest(11) == 0x001ec44a92 && Hunted(11) == 0x1c15555555;
    assert Rest(12) == 0x000f622549 && Hunted(12) == 0x0e0aaaaaaa;
    assert Rest(13) == 0x0007b112a4 && Hunted(13) == 0x8705555555;
    assert Rest(14) == 0x0003d88952 && Hunted(14) == 0x4382aaaaaa;
    assert Rest(15) == 0x0001ec44a9 && Hunted(15) == 0x21c1555555;
    hide Hunted, Rest;
    forall n | 10 <= n < 15 ensures Apart(Hunted(n)) {
      assert n == 10 || n == 11 || n == 12 || n == 13 || n == 14;
    }
  }

  lemma Apart15()
    ensures Apart(0x21c1555555)
    ensures Apart(0x90e0aaaaaa)
    ensures Apart(0x4870555555)
    ensures Apart(0x24382aaaaa)
    ensures Apart(0x921c155555)
  {
    assert CountOf(0xd7e301c5b5) == 21;
    assert CountOf(0x66c2fe3a4a) == 21;
    assert CountOf(0xbe5201c5b5) == 19;
    assert CountOf(0xd21a7e3a4a) == 20;
    assert CountOf(0x643e41c5b5) == 19;
  }

  lemma Hunted15()
    requires Hunted(15) == 0x21c1555555 && Rest(15) == 0x0001ec44a9
    ensures Hunted(20) == 0x490e0aaaaa && Rest(20) == 0x00000f6225
    ensures forall n | 15 <= n < 20 :: Apart(Hunted(n))
  {
    hide Apart;
    Apart15();
    assert Rest(16) == 0x0000f62254 && Hunted(16) == 0x90e0aaaaaa;
    assert Rest(17) == 0x00007b112a && Hunted(17) == 0x4870555555;
    assert Rest(18) == 0x00003d8895 && Hunted(18) == 0x24382aaaaa;
    assert Rest(19) == 0x00001ec44a && Hunted(19) == 0x921c155555;
    assert Rest(20) == 0x00000f6225 && Hunted(20) == 0x490e0aaaaa;
    hide Hunted, Rest;
    forall n | 15 <= n < 20 ensures Apart(Hunted(n)) {
      assert n == 15 || n == 16 || n == 17 || n == 18 || n == 19;
    }
  }

  lemma Apart20()
    ensures Apart(0x490e0aaaaa)
    ensures Apart(0xa487055555)
    ensures Apart(0x524382aaaa)
    ensures Apart(0xa921c15555)
    ensures Apart(0x5490e0aaaa)
  {
    assert CountOf(0xbf2c5e3a4a) == 22;
    assert CountOf(0x52a551c5b5) == 19;
    assert CountOf(0xa461d63a4a) == 18;
    assert CountOf(0x5f0395c5b5) == 21;
    assert CountOf(0xa2b2b43a4a) == 18;
  }

  lemma Hunted20()
    requires Hunted(20) == 0x490e0aaaaa && Rest(20) == 0x00000f6225
    ensures Hunted(25) == 0x2a48705555 && Rest(25) == 0x0000007b11
    ensures forall n | 20 <= n < 25 :: Apart(Hunted(n))
  {
    hide Apart;
    Apart20();
    assert Rest(21) == 0x000007b112 && Hunted(21) == 0xa487055555;
    assert Rest(22) == 0x000003d889 && Hunted(22) == 0x524382aaaa;
    assert Rest(23) == 0x000001ec44 && Hunted(23) == 0xa921c15555;
    assert Rest(24) == 0x000000f622 && Hunted(24) == 0x5490e0aaaa;
    assert Rest(25) == 0x0000007b11 && Hunted(25) == 0x2a48705555;
    hide Hunted, Rest;
    forall n | 20 <= n < 25 ensures Apart(Hunted(n)) {
      assert n == 20 || n == 21 || n == 22 || n == 23 || n == 24;
    }
  }

  lemma Apart25()
    ensures Apart(0x2a48705555)
    ensures Apart(0x9524382aaa)
    ensures Apart(0x4a921c1555)
    ensures Apart(0x25490e0aaa)
    ensures Apart(0x12a4870555)
  {
    assert CountOf(0xdc6a24c5b5) == 20;
    assert CountOf(0x63066cba4a) == 18;
    assert CountOf(0xbcb04885b5) == 18;
    assert CountOf(0xd36b5a9a4a) == 21;
    assert CountOf(0xe486d395b5) == 21;
  }

  lemma Hunted25()
    requires Hunted(25) == 0x2a48705555 && Rest(25) == 0x0000007b11
    ensures Hunted(30) == 0x89524382aa && Rest(30) == 0x00000003d8
    ensures forall n | 25 <= n < 30 :: Apart(Hunted(n))
  {
    hide Apart;
    Apart25();
    assert Rest(26) == 0x0000003d88 && Hunted(26) == 0x9524382aaa;
    assert Rest(27) == 0x0000001ec4 && Hunted(27) == 0x4a921c1555;
    assert Rest(28) == 0x0000000f62 && Hunted(28) == 0x25490e0aaa;
    assert Rest(29) == 0x00000007b1 && Hunted(29) == 0x12a4870555;
    assert Rest(30) == 0x00000003d8 && Hunted(30) == 0x89524382aa;
    hide Hunted, Rest;
    forall n | 25 <= n < 30 ensures Apart(Hunted(n)) {
      assert n == 25 || n == 26 || n == 27 || n == 28 || n == 29;
    }
  }

  lemma Apart30()
    ensures Apart(0x89524382aa)
    ensures Apart(0x44a921c155)
    ensures Apart(0x225490e0aa)
    ensures Apart(0x112a487055)
    ensures Apart(0x889524382a)
  {
    assert CountOf(0x7f7017124a) == 19;
    assert CountOf(0xb28b7551b5) == 21;
    assert CountOf(0xd476c4704a) == 18;
    assert CountOf(0xe7081ce0b5) == 18;
    assert CountOf(0x7eb770a8ca) == 22;
  }

  lemma Hunted30()
    requires Hunted(30) == 0x89524382aa && Rest(30) == 0x00000003d8
    ensures Hunted(35) == 0xc44a921c15 && Rest(35) == 0x000000001e
    ensures forall n | 30 <= n < 35 :: Apart(Hunted(n))
  {
    hide Apart;
    Apart30();
    assert Rest(31) == 0x00000001ec && Hunted(31) == 0x44a921c155;
    assert Rest(32) == 0x00000000f6 && Hunted(32) == 0x225490e0aa;
    assert Rest(33) == 0x000000007b && Hunted(33) == 0x112a487055;
    assert Rest(34) == 0x000000003d && Hunted(34) == 0x889524382a;
    assert Rest(35) == 0x000000001e && Hunted(35) == 0xc44a921c15;
    hide Hunted, Rest;
    forall n | 30 <= n < 35 ensures Apart(Hunted(n)) {
      assert n == 30 || n == 31 || n == 32 || n == 33 || n == 34;
    }
  }

  lemma Apart35()
    ensures Apart(0xc44a921c15)
    ensures Apart(0x6225490e0a)
    ensures Apart(0xb112a48705)
    ensures Apart(0xd889524382)
    ensures Apart(0xec44a921c1)
  {
    assert CountOf(0x3268c68cf5) == 19;
    assert CountOf(0x94071d9eea) == 20;
    assert CountOf(0x4730f017e5) == 19;
    assert CountOf(0x2eab06d362) == 19;
    assert CountOf(0x1a66fdb121) == 20;
  }

  lemma Hunted35()
    requires Hunted(35) == 0xc44a921c15 && Rest(35) == 0x000000001e
    ensures Hunted(40) == 0xf6225490e0 && Rest(40) == 0x0000000000
    ensures forall n | 35 <= n < 40 :: Apart(Hunted(n))
  {
    hide Apart;
    Apart35();
    assert Rest(36) == 0x000000000f && Hunted(36) == 0x6225490e0a;
    assert Rest(37) == 0x0000000007 && Hunted(37) == 0xb112a48705;
    assert Rest(38) == 0x0000000003 && Hunted(38) == 0xd889524382;
    assert Rest(39) == 0x0000000001 && Hunted(39) == 0xec44a921c1;
    assert Rest(40) == 0x0000000000 && Hunted(40) == 0xf6225490e0;
    hide Hunted, Rest;
    forall n | 35 <= n < 40 ensures Apart(Hunted(n)) {
      assert n == 35 || n == 36 || n == 37 || n == 38 || n == 39;
    }
  }

  /** While the sync word follows the preamble, every window before the last is
      at least 18 bits away from it and from its complement. */
  lemma NoFalseSync(n: nat)
    requires n < 40
    ensures 18 <= Diff(RowOf(Hunted(n)), SyncWord()) <= 22
  {
    HuntedAll();
    hide Hunted, RowOf;
    DiffOf(Hunted(n), 0xf6225490e0);
  }

  lemma HuntedAll()
    ensures forall n | 0 <= n < 40 :: Apart(Hunted(n))
    ensures Hunted(4) == 0x0aaaaaaaaa && Hunted(40) == 0xf6225490e0
  {
    assert Hunted(0) == 0xaaaaaaaaaa && Rest(0) == 0xf6225490e0;
    HuntedFour();
    hide Hunted, Rest, Apart;
    Hunted0();
    Hunted5();
    Hunted10();
    Hunted15();
    Hunted20();
    Hunted25();
    Hunted30();
    Hunted35();
  }

  lemma HuntedFour()
    ensures Hunted(4) == 0x0aaaaaaaaa
  {
    assert Hunted(0) == 0xaaaaaaaaaa && Rest(0) == 0xf6225490e0;
    assert Hunted(1) == 0x5555555555 && Rest(1) == 0x7b112a4870;
    assert Hunted(2) == 0x2aaaaaaaaa && Rest(2) == 0x3d88952438;
  }

  /** The bound is sharp: four bits into the sync word the window is 22 bits away
      from it, which is 18 from its complement. */
  lemma FalseSyncAtEighteen()
    ensures Diff(RowOf(Hunted(4)), SyncWord()) == 22
  {
    HuntedAll();
    FourCount();
    hide Hunted, RowOf;
    DiffOf(0x0aaaaaaaaa, 0xf6225490e0);
  }

  lemma FourCount()
    ensures CountOf(0x0aaaaaaaaa ^ 0xf6225490e0) == 22
  {
    FourXor();
    FourOnes();
    hide *;
  }

  lemma FourXor()
    ensures (0x0aaaaaaaaa as bv40) ^ 0xf6225490e0 == 0xfc88fe3a4a
  {}

  lemma FourOnes()
    ensures CountOf(0xfc88fe3a4a) == 22
  {
    FourBytes();
    assert Count(OctetOf(0x4a)) == 3 && Count(OctetOf(0x3a)) == 4 && Count(OctetOf(0xfe)) == 7;
    assert Count(OctetOf(0x88)) == 2 && Count(OctetOf(0xfc)) == 6;
    hide Byte, OctetOf;
  }

  lemma FourBytes()
    ensures Byte(0xfc88fe3a4a, 0) == 0x4a && Byte(0xfc88fe3a4a, 1) == 0x3a && Byte(0xfc88fe3a4a, 2) == 0xfe
    ensures Byte(0xfc88fe3a4a, 3) == 0x88 && Byte(0xfc88fe3a4a, 4) == 0xfc
  {}

  lemma SyncWordReached()
    ensures RowOf(Hunted(40)) == SyncWord()
  {
    HuntedAll();
  }
}
