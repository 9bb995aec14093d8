/** What the checksum of MDC-1200 is, and which errors it detects. */
module MdcDetect {
  import opened BitRows
  import opened MdcCrc

  // ------------------------------------------------- remainder of a polynomial

  /** Coefficient i of q, zero outside. */
  function Coef(q: Row, i: int): bool { 0 <= i < |q| && q[i] }

  /** Coefficient i, from the highest power down, of q times x^16+x^12+x^5+1. */
  function TimesG(q: Row, i: int): bool {
    ((Coef(q, i) != Coef(q, i - 4)) != Coef(q, i - 11)) != Coef(q, i - 16)
  }

  /** Coefficient i of bits x^16 + reg: the message, then the register. */
  function MessageAndRegister(bits: Row, reg: Row, i: nat): bool
    requires |reg| == 16 && i < |bits| + 16
  {
    if i < |bits| then bits[i] else reg[15 - (i - |bits|)]
  }

  /** The register is the remainder of the message, times x^16, divided by
      x^16+x^12+x^5+1: with some quotient q, message x^16 + register == q G. */
  lemma {:induction false} Remainder(bits: Row) returns (q: Row)
    ensures |q| == |bits|
    ensures forall i | 0 <= i < |bits| + 16 ::
              MessageAndRegister(bits, Fold(Zero(16), bits), i) == TimesG(q, i)
    decreases |bits|
  {
    if bits == [] {
      q := [];
    } else {
      var n := |bits| - 1;
      var reg := Fold(Zero(16), bits[..n]);
      var p := Remainder(bits[..n]);
      var fed := reg[15] != bits[n];
      q := p + [fed];
      forall i | 0 <= i < n + 17
        ensures MessageAndRegister(bits, Step(reg, bits[n]), i) == TimesG(q, i)
      {
        if i < n + 16 {
          assert MessageAndRegister(bits[..n], reg, i) == TimesG(p, i);
        }
        RemainderStep(bits, reg, p, fed, i);
      }
    }
  }

  lemma RemainderStep(bits: Row, reg: Row, p: Row, fed: bool, i: nat)
    requires |bits| == |p| + 1 && |reg| == 16 && fed == (reg[15] != bits[|p|]) && i < |p| + 17
    requires i < |p| + 16 ==> MessageAndRegister(bits[..|p|], reg, i) == TimesG(p, i)
    ensures MessageAndRegister(bits, Step(reg, bits[|p|]), i) == TimesG(p + [fed], i)
  {
    var n := |p|;
    CoefMore(p, fed, i);
    CoefMore(p, fed, i - 4);
    CoefMore(p, fed, i - 11);
    CoefMore(p, fed, i - 16);
    hide Coef;
    var reg' := Step(reg, bits[n]);
    if i > n {
      var k := 15 - (i - (n + 1));
      assert reg'[k] == ((k > 0 && reg[k - 1]) != (fed && (k == 0 || k == 5 || k == 12)));
    }
  }

  lemma CoefMore(p: Row, fed: bool, i: int)
    ensures Coef(p + [fed], i) == (if i == |p| then fed else Coef(p, i))
    ensures i >= |p| ==> !Coef(p, i)
  {}

  /** Only one row of 16 bits can be the remainder. */
  lemma RemainderUnique(bits: Row, q: Row, r: Row)
    requires |q| == |bits| && |r| == 16
    requires forall i | 0 <= i < |bits| + 16 :: MessageAndRegister(bits, r, i) == TimesG(q, i)
    ensures r == Fold(Zero(16), bits)
  {
    var n := |bits|;
    var reg := Fold(Zero(16), bits);
    var p := Remainder(bits);
    var d, s := Xor(q, p), Xor(r, reg);
    forall i | 0 <= i < n + 16
      ensures TimesG(d, i) == (MessageAndRegister(bits, r, i) != MessageAndRegister(bits, reg, i))
    {
      TimesGLinear(q, p, i);
    }
    hide TimesG, Fold;
    forall i | 0 <= i < n ensures !TimesG(d, i) {}
    forall i | n <= i < n + 16 ensures s[15 - (i - n)] == TimesG(d, i) {}
    SmallMultiple(d, s, n);
    forall k | 0 <= k < 16 ensures r[k] == reg[k] { assert !s[k]; }
  }

  lemma TimesGLinear(p: Row, q: Row, i: int)
    requires |p| == |q|
    ensures TimesG(Xor(p, q), i) == (TimesG(p, i) != TimesG(q, i))
  {}

  /** A multiple of G that fits in 16 bits is zero. */
  lemma SmallMultiple(q: Row, r: Row, n: nat)
    requires |q| == n && |r| == 16
    requires forall i | 0 <= i < n :: !TimesG(q, i)
    requires forall i | n <= i < n + 16 :: r[15 - (i - n)] == TimesG(q, i)
    ensures r == Zero(16)
  {
    NoLowQuotient(q, n);
    forall k | 0 <= k < 16 ensures !r[k] {
      var i := n + (15 - k);
      assert r[15 - (i - n)] == TimesG(q, i);
    }
  }

  lemma {:induction false} NoLowQuotient(q: Row, n: nat)
    requires n <= |q|
    requires forall i | 0 <= i < n :: !TimesG(q, i)
    ensures forall i | 0 <= i < n :: !q[i]
  {
    if n > 0 {
      NoLowQuotient(q, n - 1);
      assert !TimesG(q, n - 1);
    }
  }

  // ------------------------------------------------------------------ linearity

  lemma {:induction false} Linear(r: Row, s: Row, a: Row, b: Row)
    requires |r| == |s| == 16 && |a| == |b|
    ensures Fold(Xor(r, s), Xor(a, b)) == Xor(Fold(r, a), Fold(s, b))
    decreases |a|
  {
    if a == [] {
      assert Xor(a, b) == [];
    } else {
      var n := |a| - 1;
      Linear(r, s, a[..n], b[..n]);
      assert Xor(a, b)[..n] == Xor(a[..n], b[..n]);
      StepLinear(Fold(r, a[..n]), Fold(s, b[..n]), a[n], b[n]);
    }
  }

  lemma StepLinear(r: Row, s: Row, a: bool, b: bool)
    requires |r| == |s| == 16
    ensures Step(Xor(r, s), a != b) == Xor(Step(r, a), Step(s, b))
  {
    ShlLinear(r, s);
    XorTaps(Shl(r), Shl(s), Poly(16));
    StepBy(r, a);
    StepBy(s, b);
    StepBy(Xor(r, s), a != b);
    hide Step, Shl, Poly;
  }

  lemma StepBy(r: Row, a: bool)
    requires |r| == 16
    ensures Step(r, a) == if r[15] != a then Xor(Shl(r), Poly(16)) else Shl(r)
  {}

  lemma ShlLinear(r: Row, s: Row)
    requires |r| == |s| == 16
    ensures Shl(Xor(r, s)) == Xor(Shl(r), Shl(s))
  {}

  lemma XorTaps(x: Row, y: Row, p: Row)
    requires |x| == |y| == |p|
    ensures Xor(Xor(x, p), y) == Xor(Xor(x, y), p) == Xor(x, Xor(y, p)) && Xor(Xor(x, p), Xor(y, p)) == Xor(x, y)
  {}

  // ---------------------------------------------------------- accepted codewords

  /** The test of _procbits on the first six octets of a block: the checksum of
      four of them against the other two. */
  predicate Accepts(c: Row)
    requires |c| == 48
  {
    Checksum(c[..32]) == c[32..]
  }

  /** The register after the complemented checksum has gone in as well. */
  function Residue(): Row { Fold(Zero(16), Not(Zero(16))) }

  /** The first n bits that leave a register when it is shifted up. */
  function Leaving(reg: Row, n: nat): (r: Row)
    requires |reg| == 16 && n <= 16
    ensures |r| == n && forall i | 0 <= i < n :: r[i] == reg[15 - i]
  {
    seq(n, i requires 0 <= i < n => reg[15 - i])
  }

  ghost predicate Shifted(r: Row, reg: Row, n: nat) {
    |r| == |reg| == 16 && forall k | 0 <= k < 16 :: r[k] == (k >= n && reg[k - n])
  }

  /** Feeding a register its own bits empties it. */
  lemma {:induction false} FeedSelf(reg: Row, n: nat)
    requires |reg| == 16 && n <= 16
    ensures Shifted(Fold(reg, Leaving(reg, n)), reg, n)
    decreases n
  {
    if n > 0 {
      FeedSelf(reg, n - 1);
      var own := Leaving(reg, n);
      assert own[..|own| - 1] == Leaving(reg, n - 1);
      var r := Fold(reg, Leaving(reg, n - 1));
      assert Fold(reg, own) == Step(r, own[n - 1]);
      ShiftedMore(r, reg, n - 1);
    }
  }

  lemma ShiftedMore(r: Row, reg: Row, n: nat)
    requires Shifted(r, reg, n) && n < 16
    ensures Shifted(Step(r, reg[15 - n]), reg, n + 1)
  {
    StepSame(r);
    var t := Step(r, reg[15 - n]);
    hide *;
    forall k | 0 <= k < 16 ensures t[k] == (k >= n + 1 && reg[k - (n + 1)]) {
      if k > 0 {
        assert t[k] == r[k - 1];
      }
    }
    AreShifted(t, reg, n + 1);
  }

  lemma AreShifted(r: Row, reg: Row, n: nat)
    requires |r| == |reg| == 16 && forall k | 0 <= k < 16 :: r[k] == (k >= n && reg[k - n])
    ensures Shifted(r, reg, n)
  {}

  lemma StepSame(r: Row)
    requires |r| >= 16
    ensures Step(r, r[15]) == Shl(r)
  {}

  /** A row of at most 16 bits that starts with a set bit never leaves the empty
      register empty. */
  lemma ShortRowCounts(d: Row)
    requires |d| <= 16 && d != [] && d[0]
    ensures Fold(Zero(16), d) != Zero(16)
  {
    if Fold(Zero(16), d) == Zero(16) {
      LowZeros(Zero(16), d, |d| - 1);
      FirstBit(d[..1]);
      assert false;
    }
  }

  lemma FirstBit(d: Row)
    requires |d| == 1 && d[0]
    ensures Fold(Zero(16), d)[0]
  {
    assert d[..0] == [];
  }

  ghost predicate LowClear(r: Row, n: nat) {
    n <= |r| && forall k | 0 <= k < n :: !r[k]
  }

  /** Going back n steps from an empty register, the low 16 - n bits are zero. */
  lemma {:induction false} LowZeros(reg: Row, d: Row, n: nat)
    requires |reg| == 16 && n <= |d| && n < 16
    requires Fold(reg, d) == Zero(16)
    ensures LowClear(Fold(reg, d[..|d| - n]), 16 - n)
    decreases n
  {
    if n == 0 {
      assert d[..|d|] == d;
    } else {
      LowZeros(reg, d, n - 1);
      var m := |d| - n;
      var before := Fold(reg, d[..m]);
      var after := Fold(reg, d[..m + 1]);
      assert |d| - (n - 1) == m + 1;
      assert d[..m + 1][..m] == d[..m];
      assert after == Step(before, d[m]);
      assert 0 < 16 - (n - 1);
      assert !after[0];
      forall k | 0 <= k < 16 - n ensures !before[k] {
        assert after[k + 1] == before[k];
      }
    }
  }

  /** An error burst: nonzero, all within 16 consecutive bits. */
  ghost predicate Burst(e: Row) { exists i :: BurstFrom(e, i) }

  ghost predicate BurstFrom(e: Row, i: int) {
    0 <= i < |e| && e[i] && (forall k | 0 <= k < |e| && (k < i || k >= i + 16) :: !e[k])
  }

  lemma {:induction false} ZerosKeepEmpty(n: nat)
    ensures Fold(Zero(16), Zero(n)) == Zero(16)
  {
    if n > 0 {
      assert Zero(n)[..n - 1] == Zero(n - 1);
      ZerosKeepEmpty(n - 1);
    }
  }

  lemma {:induction false} ZerosKeepFull(reg: Row, n: nat)
    requires |reg| == 16 && reg != Zero(16)
    ensures Fold(reg, Zero(n)) != Zero(16)
  {
    if n > 0 {
      assert Zero(n)[..n - 1] == Zero(n - 1);
      ZerosKeepFull(reg, n - 1);
      StepKeepsFull(Fold(reg, Zero(n - 1)));
    }
  }

  lemma StepKeepsFull(r: Row)
    requires |r| == 16 && r != Zero(16)
    ensures Step(r, false) != Zero(16)
  {
    var k :| 0 <= k < 16 && r[k];
    var s := Step(r, false);
    if r[15] {
      assert s[0];
    } else {
      assert s[k + 1];
    }
  }

  lemma BurstCounts(e: Row)
    requires Burst(e)
    ensures Fold(Zero(16), e) != Zero(16)
  {
    var i :| BurstFrom(e, i);
    var j := if i + 16 < |e| then i + 16 else |e|;
    Padded(e, i, j);
    hide *;
    PaddedCounts(i, e[i..j], |e| - j);
  }

  lemma Padded(e: Row, i: nat, j: nat)
    requires i <= j <= |e| && forall k | 0 <= k < |e| && (k < i || k >= j) :: !e[k]
    ensures e == Zero(i) + e[i..j] + Zero(|e| - j)
  {}

  lemma PaddedCounts(i: nat, d: Row, n: nat)
    requires d != [] && d[0] && |d| <= 16
    ensures Fold(Zero(16), Zero(i) + d + Zero(n)) != Zero(16)
  {
    hide Fold;
    FoldJoin(Zero(16), Zero(i) + d, Zero(n));
    FoldJoin(Zero(16), Zero(i), d);
    ZerosKeepEmpty(i);
    ShortRowCounts(d);
    ZerosKeepFull(Fold(Zero(16), d), n);
  }

  lemma ShortErrorCounts(d: Row)
    requires |d| == 16 && d != Zero(16)
    ensures Fold(Zero(16), d) != Zero(16)
  {
    var i := FirstOne(d);
    assert BurstFrom(d, i);
    BurstCounts(d);
  }

  lemma {:induction false} FirstOne(d: Row) returns (i: nat)
    requires d != Zero(|d|)
    ensures i < |d| && d[i] && forall k | 0 <= k < i :: !d[k]
  {
    var last :| 0 <= last < |d| && d[last];
    i := 0;
    while !d[i]
      invariant i <= last && forall k | 0 <= k < i :: !d[k]
      decreases last - i
    {
      i := i + 1;
    }
  }

  lemma XorLaws(a: Row, b: Row)
    requires |a| == |b|
    ensures Xor(a, Xor(b, a)) == b && Xor(Zero(|a|), a) == a && Xor(a, Zero(|a|)) == a
  {}

  /** A difference from a register's own bits is all that is left of them. */
  lemma FeedOther(reg: Row, t: Row)
    requires |reg| == |t| == 16
    ensures Fold(reg, t) == Fold(Zero(16), Xor(t, Leaving(reg, 16)))
  {
    var own := Leaving(reg, 16);
    var d := Xor(t, own);
    FeedSelf(reg, 16);
    assert Fold(reg, own) == Zero(16);
    Linear(reg, Zero(16), own, d);
    XorLaws(own, t);
    XorLaws(reg, reg);
    XorLaws(Fold(Zero(16), d), reg);
    hide *;
  }

  /** 16 bits lead from the empty register to the residue only if all are set. */
  lemma OnlyOnesLeaveResidue(d: Row)
    requires |d| == 16
    ensures Fold(Zero(16), d) == Residue() <==> d == Not(Zero(16))
  {
    var ones := Not(Zero(16));
    var f := Xor(d, ones);
    if f != Zero(16) {
      ShortErrorCounts(f);
    }
    XorTwice(d, ones);
    OwnXor(d, ones);
    OwnXor(Fold(Zero(16), f), Fold(Zero(16), ones));
    hide Fold, Not;
    Linear(Zero(16), Zero(16), f, ones);
    ZerosKeepEmpty(16);
    assert Zero(16) == Xor(Zero(16), Zero(16));
  }

  lemma XorTwice(a: Row, b: Row)
    requires |a| == |b|
    ensures Xor(Xor(a, b), b) == a
  {}

  lemma OwnXor(a: Row, b: Row)
    requires |a| == |b| == 16
    ensures Xor(a, b) == b <==> a == Zero(16)
    ensures Xor(a, b) == Zero(16) <==> a == b
  {
    if Xor(a, b) == b {
      forall k | 0 <= k < 16 ensures a[k] == Zero(16)[k] {
        assert Xor(a, b)[k] == b[k];
      }
    }
    if Xor(a, b) == Zero(16) {
      forall k | 0 <= k < 16 ensures a[k] == b[k] {
        assert Xor(a, b)[k] == Zero(16)[k];
      }
    }
  }

  /** A block is accepted exactly when its six octets bring the register to the
      residue. */
  lemma AcceptsIff(c: Row)
    requires |c| == 48
    ensures Accepts(c) <==> Fold(Zero(16), c) == Residue()
  {
    var reg := Fold(Zero(16), c[..32]);
    var t := c[32..];
    var own := Leaving(reg, 16);
    var d := Xor(t, own);
    assert c == c[..32] + t;
    FoldJoin(Zero(16), c[..32], t);
    FeedOther(reg, t);
    OnlyOnesLeaveResidue(d);
    hide Fold;
    if d == Not(Zero(16)) {
      forall k | 0 <= k < 16 ensures t[k] == !reg[15 - k] { assert d[k]; }
      assert t == Checksum(c[..32]);
    } else {
      var k :| 0 <= k < 16 && !d[k];
      assert t[k] == reg[15 - k];
      assert t != Checksum(c[..32]);
    }
  }

  /** A row of 48 bits is, as a polynomial, a multiple of x^16+x^12+x^5+1. */
  ghost predicate MultipleOfG(e: Row) { exists q :: IsTimesG(e, q) }

  ghost predicate IsTimesG(e: Row, q: Row) {
    |e| == 48 && |q| == 32 && forall i | 0 <= i < 48 :: e[i] == TimesG(q, i)
  }

  /** A multiple of G leaves the register empty, and nothing else does. */
  lemma EmptiesIff(e: Row)
    requires |e| == 48
    ensures Fold(Zero(16), e) == Zero(16) <==> MultipleOfG(e)
  {
    if MultipleOfG(e) {
      var q :| IsTimesG(e, q);
      var w := q + Zero(16);
      forall i | 0 <= i < 64 ensures MessageAndRegister(e, Zero(16), i) == TimesG(w, i) {
        assert TimesG(w, i) == TimesG(q, i);
      }
      hide Fold;
      RemainderUnique(e, w, Zero(16));
    }
    if Fold(Zero(16), e) == Zero(16) {
      var w := Remainder(e);
      hide Fold;
      forall i | 48 <= i < 64 ensures !TimesG(w, i) { assert MessageAndRegister(e, Zero(16), i) == TimesG(w, i); }
      NoHighQuotient(w, 16);
      var q := w[..32];
      forall i | 0 <= i < 48 ensures e[i] == TimesG(q, i) {
        assert MessageAndRegister(e, Zero(16), i) == TimesG(w, i);
        assert TimesG(w, i) == TimesG(q, i);
      }
      assert IsTimesG(e, q);
    }
  }

  /** Without low coefficients of the product there are none of the quotient. */
  lemma {:induction false} NoHighQuotient(q: Row, n: nat)
    requires |q| == 48 && n <= 16
    requires forall i | 48 <= i < 64 :: !TimesG(q, i)
    ensures forall i | 48 - n <= i < 48 :: !q[i]
  {
    if n > 0 {
      NoHighQuotient(q, n - 1);
      assert !TimesG(q, 64 - n);
    }
  }

  /** An error pattern on an accepted block goes unnoticed exactly when it is, as a
      polynomial, a multiple of the generator. */
  lemma ErrorUnnoticedIff(c: Row, e: Row)
    requires |c| == |e| == 48 && Accepts(c)
    ensures Accepts(Xor(c, e)) <==> MultipleOfG(e)
  {
    AcceptsIff(c);
    AcceptsIff(Xor(c, e));
    assert Zero(16) == Xor(Zero(16), Zero(16));
    Linear(Zero(16), Zero(16), c, e);
    EmptiesIff(e);
    hide Accepts, Fold, MultipleOfG;
  }

  /** Every burst of at most 16 of the 48 bits is detected. */
  lemma BurstDetected(c: Row, e: Row)
    requires |c| == |e| == 48 && Accepts(c) && Burst(e)
    ensures !Accepts(Xor(c, e))
  {
    ErrorUnnoticedIff(c, e);
    EmptiesIff(e);
    BurstCounts(e);
  }

  // -------------------------------------------------------------- odd weight

  function Parity(a: Row): bool {
    if a == [] then false else Parity(a[..|a| - 1]) != a[|a| - 1]
  }

  lemma {:induction false} ParityXor(a: Row, b: Row)
    requires |a| == |b|
    ensures Parity(Xor(a, b)) == (Parity(a) != Parity(b))
  {
    if a != [] {
      var n := |a| - 1;
      ParityXor(a[..n], b[..n]);
      assert Xor(a, b)[..n] == Xor(a[..n], b[..n]);
    }
  }

  lemma {:induction false} ParityJoin(a: Row, b: Row)
    ensures Parity(a + b) == (Parity(a) != Parity(b))
  {
    if b == [] {
      assert a + b == a;
    } else {
      var n := |b| - 1;
      ParityJoin(a, b[..n]);
      assert (a + b)[..|a + b| - 1] == a + b[..n];
    }
  }

  lemma {:induction false} ParityZero(n: nat)
    ensures !Parity(Zero(n))
  {
    if n > 0 {
      assert Zero(n)[..n - 1] == Zero(n - 1);
      ParityZero(n - 1);
    }
  }

  lemma ParityOne()
    ensures Parity([true]) && !Parity([false])
  {
    assert [true][..0] == [] && [false][..0] == [];
  }

  lemma ParityPoly()
    ensures Parity(Poly(16))
  {
    var t := [true];
    ParityOne();
    ParityZero(4);
    ParityZero(6);
    ParityZero(3);
    assert Poly(16) == t + Zero(4) + t + Zero(6) + t + Zero(3);
    ParityJoin(t + Zero(4) + t + Zero(6) + t, Zero(3));
    ParityJoin(t + Zero(4) + t + Zero(6), t);
    ParityJoin(t + Zero(4) + t, Zero(6));
    ParityJoin(t + Zero(4), t);
    ParityJoin(t, Zero(4));
  }

  lemma ParityStep(reg: Row, b: bool)
    requires |reg| == 16
    ensures Parity(Step(reg, b)) == (Parity(reg) != b)
  {
    ParityJoin([false], reg[..15]);
    ParityOne();
    ParityPoly();
    ParityXor(Shl(reg), Poly(16));
  }

  lemma {:induction false} ParityFold(bits: Row)
    ensures Parity(Fold(Zero(16), bits)) == Parity(bits)
    decreases |bits|
  {
    if bits == [] {
      ParityZero(16);
    } else {
      var n := |bits| - 1;
      ParityFold(bits[..n]);
      ParityStep(Fold(Zero(16), bits[..n]), bits[n]);
    }
  }

  lemma {:induction false} ParityIsOdd(a: Row)
    ensures Parity(a) == (Ones(a) % 2 == 1)
  {
    if a != [] {
      var n := |a| - 1;
      ParityIsOdd(a[..n]);
      OnesJoin(a[..n], [a[n]]);
      assert a == a[..n] + [a[n]];
    }
  }

  /** Every error of odd weight is detected. */
  lemma OddErrorDetected(c: Row, e: Row)
    requires |c| == |e| == 48 && Accepts(c) && Ones(e) % 2 == 1
    ensures !Accepts(Xor(c, e))
  {
    ErrorUnnoticedIff(c, e);
    EmptiesIff(e);
    ParityFold(e);
    ParityIsOdd(e);
    ParityZero(16);
  }
}
