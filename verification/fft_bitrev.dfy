/** makeipt, bitrv2 and bitrv2conj of fftsg.c: the bit-reversal table and the
    in-place permutation of complex data by swaps. */
module FftBitrev {
  import opened FftBits
  import opened FftCells
  import opened FftSwaps

  // -------------------------------------------------------------------- makeipt

  /** The part of the table that serves transforms with rows of t bits. */
  ghost predicate Table(ip: seq<int>, t: nat) {
    && |ip| >= 2 * Pow2(t)
    && forall k | 0 <= k < Pow2(t) :: ip[Pow2(t) + k] == 8 * (Pow2(t) * Rev(t, k))
  }

  /** How many levels makeipt builds. */
  function Levels(nw: int): nat
    decreases if nw > 0 then nw else 0
  {
    if nw > 32 then 1 + Levels(nw / 4) else 1
  }

  lemma NextEntry(ip: seq<int>, t: nat, ip': seq<int>, k: nat)
    requires Table(ip, t) && |ip'| >= 4 * Pow2(t) && k < Pow2(t + 1)
    requires forall i | Pow2(t) <= i < 2 * Pow2(t) ::
               ip'[Pow2(t) + i] == 4 * ip[i] && ip'[2 * Pow2(t) + i] == 4 * ip[i] + 16 * Pow2(t)
    ensures ip'[Pow2(t + 1) + k] == 8 * (Pow2(t + 1) * Rev(t + 1, k))
  {
    var m := Pow2(t);
    var b := if k < m then 0 else 1;
    var rest := k - m * b;
    RevTop(t, rest, b);
    var i := m + rest;
    assert ip[i] == 8 * (m * Rev(t, rest));
    Doubled(m, Rev(t, rest), b);
    assert Pow2(t + 1) == 2 * m;
    hide Rev, Pow2;
    assert 2 * m + k == (if b == 0 then m else 2 * m) + i;
  }

  lemma NextLevel(ip: seq<int>, t: nat, ip': seq<int>)
    requires Table(ip, t) && |ip'| >= 4 * Pow2(t)
    requires forall i | Pow2(t) <= i < 2 * Pow2(t) ::
               ip'[Pow2(t) + i] == 4 * ip[i] && ip'[2 * Pow2(t) + i] == 4 * ip[i] + 16 * Pow2(t)
    ensures Table(ip', t + 1)
  {
    var t1 := t + 1;
    assert Pow2(t1) == 2 * Pow2(t);
    hide Rev, Pow2;
    forall k | 0 <= k < Pow2(t1) ensures ip'[Pow2(t1) + k] == 8 * (Pow2(t1) * Rev(t1, k)) {
      NextEntry(ip, t, ip', k);
    }
  }

  lemma Doubled(m: int, r: int, b: int)
    ensures 8 * (2 * m * (2 * r + b)) == 4 * (8 * (m * r)) + 16 * m * b
  {
    Spread(2 * m, 2 * r, b);
    assert 2 * m * (2 * r) == 4 * (m * r);
  }

  lemma FirstLevel(ip: seq<int>)
    requires |ip| >= 4 && ip[2] == 0 && ip[3] == 16
    ensures Table(ip, 1)
  {
    RevOne(0);
    RevOne(1);
    assert Pow2(1) == 2;
    forall k | 0 <= k < 2 ensures ip[2 + k] == 8 * (2 * Rev(1, k)) {
      assert k == 0 || k == 1;
    }
  }

  /** The inner loop of makeipt: the entries of one level from those of the last. */
  method AddLevel(ip: array<int>, m: nat, m2: nat)
    requires m2 == 2 * m && ip.Length >= 2 * m2
    modifies ip
    ensures ip[..m2] == old(ip[..m2])
    ensures forall i | m <= i < m2 :: ip[m + i] == 4 * old(ip[i]) && ip[m2 + i] == 4 * old(ip[i]) + 8 * m2
  {
    var q := 8 * m2;
    for j := m to m2
      invariant ip[..m2] == old(ip[..m2])
      invariant forall i | m <= i < j :: ip[m + i] == 4 * old(ip[i]) && ip[m2 + i] == 4 * old(ip[i]) + q
    {
      assert ip[j] == ip[..m2][j] == old(ip[..m2])[j];
      var p := 4 * ip[j];
      ip[m + j] := p;
      ip[m2 + j] := p + q;
    }
  }

  method MakeIpt(nw: int, ip: array<int>)
    requires ip.Length >= 2 * Pow2(Levels(nw))
    modifies ip
    ensures forall t | 1 <= t <= Levels(nw) :: Table(ip[..], t)
  {
    ghost var t := 1;
    assert Pow2(0) == 1 && Pow2(1) == 2;
    Pow2Grows(1, Levels(nw));
    ip[2] := 0;
    ip[3] := 16;
    FirstLevel(ip[..]);
    var m := 2;
    var l := nw;
    while l > 32
      invariant m == Pow2(t) && t >= 1
      invariant Levels(nw) == t - 1 + Levels(l)
      invariant forall s | 1 <= s <= t :: Table(ip[..], s)
      decreases l
    {
      Pow2Grows(t + 1, Levels(nw));
      assert Pow2(t + 1) == 2 * m;
      var m2 := 2 * m;
      ghost var before := ip[..];
      AddLevel(ip, m, m2);
      forall s | 1 <= s <= t + 1 ensures Table(ip[..], s) {
        if s <= t {
          OldLevel(before, ip[..], s, t);
        } else {
          NextLevel(before, t, ip[..]);
        }
      }
      m := m2;
      l := l / 4;
      t := t + 1;
    }
  }

  lemma {:induction false} Pow2Grows(s: nat, t: nat)
    requires s <= t
    ensures Pow2(s) <= Pow2(t)
  {
    if s < t { Pow2Grows(s, t - 1); }
  }

  lemma OldLevel(ip: seq<int>, ip': seq<int>, s: nat, t: nat)
    requires Table(ip, s) && s <= t
    requires |ip| == |ip'| && |ip| >= 2 * Pow2(t) && ip'[..2 * Pow2(t)] == ip[..2 * Pow2(t)]
    ensures Table(ip', s)
  {
    Pow2Grows(s, t);
    forall i | 0 <= i < 2 * Pow2(t) ensures ip'[i] == ip[i] {
      assert ip'[..2 * Pow2(t)][i] == ip[..2 * Pow2(t)][i];
    }
  }

  lemma {:induction false} LevelsOfPow(e: nat)
    requires e >= 4
    ensures Levels(Pow2(e)) == (e - 2) / 2
  {
    assert Pow2(0) == 1 && Pow2(1) == 2 && Pow2(2) == 4 && Pow2(3) == 8 && Pow2(4) == 16 && Pow2(5) == 32;
    if e >= 6 {
      Pow2Grows(6, e);
      assert Pow2(e) == 4 * Pow2(e - 2);
      LevelsOfPow(e - 2);
    }
  }

  /** The table made for a transform of n reals (nw = n / 4) holds the level that
      bitrv2 reads for it. */
  lemma LevelsEnough(g: Shape)
    requires g.Valid()
    ensures Levels(2 * g.Count() / 4) == g.t
  {
    LevelsOfPow(g.Bits() - 1);
  }

  // ------------------------------------------------------- bitrv2 and bitrv2conj

  /** Two complex elements change places, conjugated in bitrv2conj. */
  method Exchange(a: array<real>, j1: nat, k1: nat, conj: bool)
    requires j1 + 1 < a.Length && k1 + 1 < a.Length
    modifies a
    ensures a[..] == Exchanged(old(a[..]), j1, k1, conj)
  {
    var xr, xi := a[j1], if conj then -a[j1 + 1] else a[j1 + 1];
    var yr, yi := a[k1], if conj then -a[k1 + 1] else a[k1 + 1];
    a[j1] := yr;
    a[j1 + 1] := yi;
    a[k1] := xr;
    a[k1 + 1] := xi;
  }

  /** One of the unrolled exchanges: spot p of the current pair of rows. */
  method Swap(a: array<real>, j1: nat, k1: nat, conj: bool, ghost g: Shape, ghost s0: seq<real>,
              ghost done: set<nat>, ghost k: nat, ghost j: nat, ghost spots: set<Spot>, ghost p: Spot)
    returns (ghost done': set<nat>)
    requires g.Valid() && j <= k < g.M() && IsSpot(g, p)
    requires Here(g, a[..], s0, done, k, j, spots, conj)
    requires p !in spots && (j == k ==> Reflect(g, p) !in spots && Reflect(g, p) != p)
    requires j1 == 2 * At(g, j, k, p) && k1 == 2 * At(g, k, j, Reflect(g, p))
    modifies a
    ensures Here(g, a[..], s0, done', k, j, spots + {p}, conj)
  {
    Advance(g, a[..], s0, done, k, j, spots, conj, p);
    ghost var s := a[..];
    assert j1 + 1 < |s| && k1 + 1 < |s|;
    hide *;
    Exchange(a, j1, k1, conj);
    done' := done + {At(g, j, k, p), At(g, k, j, Reflect(g, p))};
  }

  /** Negating the imaginary part of a fixed point, as bitrv2conj does. */
  method Negate(a: array<real>, i: nat, ghost g: Shape, ghost s0: seq<real>,
                ghost done: set<nat>, ghost k: nat, ghost spots: set<Spot>, ghost p: Spot)
    returns (ghost done': set<nat>)
    requires g.Valid() && k < g.M() && IsSpot(g, p)
    requires Here(g, a[..], s0, done, k, k, spots, true)
    requires p !in spots && Reflect(g, p) == p
    requires i == 2 * At(g, k, k, p) + 1
    modifies a
    ensures Here(g, a[..], s0, done', k, k, spots + {p}, true)
  {
    AdvanceFixed(g, a[..], s0, done, k, spots, p);
    ghost var s := a[..];
    assert i < |s|;
    hide *;
    a[i] := -a[i];
    assert a[..] == s[i := -s[i]];
    done' := done + {At(g, k, k, p)};
  }

  /** The spots with a given low and high bit. */
  function Strip(g: Shape, lo: nat, hi: nat): set<Spot> {
    set c | 0 <= c < g.W() :: Spot(lo, c, hi)
  }

  lemma Quads(g: Shape)
    requires g.w == 2
    ensures g.W() == 4
    ensures forall lo, hi {:trigger Strip(g, lo, hi)} ::
              Strip(g, lo, hi) == {Spot(lo, 0, hi), Spot(lo, 1, hi), Spot(lo, 2, hi), Spot(lo, 3, hi)}
    ensures forall lo, hi {:trigger Spot(lo, 0, hi)} :: Reflect(g, Spot(lo, 0, hi)) == Spot(hi, 0, lo)
    ensures forall lo, hi {:trigger Spot(lo, 1, hi)} :: Reflect(g, Spot(lo, 1, hi)) == Spot(hi, 2, lo)
    ensures forall lo, hi {:trigger Spot(lo, 2, hi)} :: Reflect(g, Spot(lo, 2, hi)) == Spot(hi, 1, lo)
    ensures forall lo, hi {:trigger Spot(lo, 3, hi)} :: Reflect(g, Spot(lo, 3, hi)) == Spot(hi, 3, lo)
  {
    RevTwoBits();
  }

  lemma Pairs(g: Shape)
    requires g.w == 1
    ensures g.W() == 2
    ensures forall lo, hi {:trigger Strip(g, lo, hi)} :: Strip(g, lo, hi) == {Spot(lo, 0, hi), Spot(lo, 1, hi)}
    ensures forall lo, hi {:trigger Spot(lo, 0, hi)} :: Reflect(g, Spot(lo, 0, hi)) == Spot(hi, 0, lo)
    ensures forall lo, hi {:trigger Spot(lo, 1, hi)} :: Reflect(g, Spot(lo, 1, hi)) == Spot(hi, 1, lo)
  {
    RevOne(0);
    RevOne(1);
  }

  /** Four exchanges with rising middle bits. */
  method Up4(a: array<real>, j1: nat, k1: nat, nm: nat, conj: bool, ghost g: Shape, ghost s0: seq<real>,
             ghost done: set<nat>, ghost k: nat, ghost j: nat, ghost spots: set<Spot>, ghost lo: nat, ghost hi: nat)
    returns (j2: nat, k2: nat, ghost done': set<nat>)
    requires g.Valid() && g.w == 2 && j < k < g.M() && lo < 2 && hi < 2 && nm == 4 * g.M()
    requires Here(g, a[..], s0, done, k, j, spots, conj)
    requires spots !! Strip(g, lo, hi)
    requires j1 == 2 * At(g, j, k, Spot(lo, 0, hi)) && k1 == 2 * At(g, k, j, Spot(hi, 0, lo))
    modifies a
    ensures Here(g, a[..], s0, done', k, j, spots + Strip(g, lo, hi), conj)
    ensures j2 == 2 * At(g, j, k, Spot(lo, 3, hi)) && k2 == 2 * At(g, k, j, Spot(hi, 3, lo))
  {
    Quads(g);
    ghost var p0, p1, p2, p3 := Spot(lo, 0, hi), Spot(lo, 1, hi), Spot(lo, 2, hi), Spot(lo, 3, hi);
    StepMid(g, j, k, lo, hi);
    StepMid(g, k, j, hi, lo);
    hide *;
    j2, k2 := j1, k1;
    done' := Swap(a, j2, k2, conj, g, s0, done, k, j, spots, p0);
    j2 := j2 + nm;
    k2 := k2 + 2 * nm;
    done' := Swap(a, j2, k2, conj, g, s0, done', k, j, spots + {p0}, p1);
    j2 := j2 + nm;
    k2 := k2 - nm;
    done' := Swap(a, j2, k2, conj, g, s0, done', k, j, spots + {p0} + {p1}, p2);
    j2 := j2 + nm;
    k2 := k2 + 2 * nm;
    done' := Swap(a, j2, k2, conj, g, s0, done', k, j, spots + {p0} + {p1} + {p2}, p3);
    assert spots + {p0} + {p1} + {p2} + {p3} == spots + Strip(g, lo, hi);
  }

  /** Four exchanges with falling middle bits. */
  method Down4(a: array<real>, j1: nat, k1: nat, nm: nat, conj: bool, ghost g: Shape, ghost s0: seq<real>,
               ghost done: set<nat>, ghost k: nat, ghost j: nat, ghost spots: set<Spot>, ghost lo: nat, ghost hi: nat)
    returns (j2: nat, k2: nat, ghost done': set<nat>)
    requires g.Valid() && g.w == 2 && j < k < g.M() && lo < 2 && hi < 2 && nm == 4 * g.M()
    requires Here(g, a[..], s0, done, k, j, spots, conj)
    requires spots !! Strip(g, lo, hi)
    requires j1 == 2 * At(g, j, k, Spot(lo, 3, hi)) && k1 == 2 * At(g, k, j, Spot(hi, 3, lo))
    modifies a
    ensures Here(g, a[..], s0, done', k, j, spots + Strip(g, lo, hi), conj)
    ensures j2 == 2 * At(g, j, k, Spot(lo, 0, hi)) && k2 == 2 * At(g, k, j, Spot(hi, 0, lo))
  {
    Quads(g);
    ghost var p0, p1, p2, p3 := Spot(lo, 0, hi), Spot(lo, 1, hi), Spot(lo, 2, hi), Spot(lo, 3, hi);
    StepMid(g, j, k, lo, hi);
    StepMid(g, k, j, hi, lo);
    hide *;
    j2, k2 := j1, k1;
    done' := Swap(a, j2, k2, conj, g, s0, done, k, j, spots, p3);
    j2 := j2 - nm;
    k2 := k2 - 2 * nm;
    done' := Swap(a, j2, k2, conj, g, s0, done', k, j, spots + {p3}, p2);
    j2 := j2 - nm;
    k2 := k2 + nm;
    done' := Swap(a, j2, k2, conj, g, s0, done', k, j, spots + {p3} + {p2}, p1);
    j2 := j2 - nm;
    k2 := k2 - 2 * nm;
    done' := Swap(a, j2, k2, conj, g, s0, done', k, j, spots + {p3} + {p2} + {p1}, p0);
    assert spots + {p3} + {p2} + {p1} + {p0} == spots + Strip(g, lo, hi);
  }

  /** Stepping through the middle bits by nm reals. */
  lemma StepMid(g: Shape, j: nat, k: nat, lo: nat, hi: nat)
    requires g.Valid() && k < g.M()
    ensures At(g, j, k, Spot(lo, 1, hi)) == At(g, j, k, Spot(lo, 0, hi)) + 2 * g.M()
    ensures At(g, j, k, Spot(lo, 2, hi)) == At(g, j, k, Spot(lo, 0, hi)) + 4 * g.M()
    ensures At(g, j, k, Spot(lo, 3, hi)) == At(g, j, k, Spot(lo, 0, hi)) + 6 * g.M()
  {
    AtLinear(g, j, k, Spot(lo, 0, hi));
    AtLinear(g, j, k, Spot(lo, 1, hi));
    AtLinear(g, j, k, Spot(lo, 2, hi));
    AtLinear(g, j, k, Spot(lo, 3, hi));
  }

  /** The low and high bit of a cell, in reals. */
  lemma StepEnds(g: Shape, j: nat, k: nat, c: nat)
    requires g.Valid() && k < g.M()
    ensures g.Count() % 2 == 0
    ensures At(g, j, k, Spot(1, c, 0)) == At(g, j, k, Spot(0, c, 0)) + 1
    ensures 2 * At(g, j, k, Spot(0, c, 1)) == 2 * At(g, j, k, Spot(0, c, 0)) + g.Count()
    ensures 2 * At(g, j, k, Spot(1, c, 1)) == 2 * At(g, j, k, Spot(0, c, 0)) + 2 + g.Count()
  {
    AtLinear(g, j, k, Spot(0, c, 0));
    AtLinear(g, j, k, Spot(1, c, 0));
    AtLinear(g, j, k, Spot(0, c, 1));
    AtLinear(g, j, k, Spot(1, c, 1));
  }

  /** Where the exchanges of a pair of rows start. */
  lemma StartOfPair(g: Shape, ip: seq<int>, j: nat, k: nat)
    requires g.Valid() && j < g.M() && k < g.M() && Table(ip, g.t)
    ensures g.w == 2 ==> 4 * j + 2 * ip[g.M() + k] == 2 * At(g, j, k, Spot(0, 0, 0))
    ensures g.w == 1 ==> 4 * j + ip[g.M() + k] == 2 * At(g, j, k, Spot(0, 0, 0))
  {
    AtLinear(g, j, k, Spot(0, 0, 0));
    RevTwoBits();
    RevOne(0);
    var m, r := g.M(), Rev(g.t, k);
    assert ip[m + k] == 8 * (m * r);
    hide Rev, Pow2, At;
    TimesTwo(m, r);
    TimesFour(m, r);
  }

  lemma TimesTwo(m: int, r: int)
    ensures m * (2 * r) * 2 == 4 * (m * r)
  {}

  lemma TimesFour(m: int, r: int)
    ensures m * (4 * r) * 2 == 8 * (m * r)
  {}

  /** Rows j < k when there are two middle bits. */
  method PairOfRows4(a: array<real>, ip: array<int>, m: nat, nm: nat, nh: nat, k: nat, j: nat, conj: bool,
                     ghost g: Shape, ghost s0: seq<real>, ghost done: set<nat>)
    returns (ghost done': set<nat>)
    requires g.Valid() && g.w == 2 && m == g.M() && nm == 4 * m && nh == g.Count() && j < k < m
    requires Table(ip[..], g.t)
    requires Here(g, a[..], s0, done, k, j, {}, conj)
    modifies a
    ensures Here(g, a[..], s0, done', k, j + 1, {}, conj)
  {
    StartOfPair(g, ip[..], j, k);
    StartOfPair(g, ip[..], k, j);
    StepEnds(g, j, k, 0);
    StepEnds(g, j, k, 3);
    StepEnds(g, k, j, 0);
    StepEnds(g, k, j, 3);
    Quads(g);
    assert ip[m + k] == ip[..][m + k] && ip[m + j] == ip[..][m + j];
    ghost var s00, s01, s11, s10 := Strip(g, 0, 0), Strip(g, 0, 1), Strip(g, 1, 1), Strip(g, 1, 0);
    assert {} + s00 + s01 + s11 + s10 == s00 + s01 + s11 + s10;
    assert Complete(g, k, j, {} + s00 + s01 + s11 + s10, conj) by {
      AllSpots4(g, {} + s00 + s01 + s11 + s10);
    }
    assert {} !! s00 && {} + s00 !! s01 && {} + s00 + s01 !! s11 && {} + s00 + s01 + s11 !! s10;
    hide *;
    var j1 := 4 * j + 2 * ip[m + k];
    var k1 := 4 * k + 2 * ip[m + j];
    j1, k1, done' := Up4(a, j1, k1, nm, conj, g, s0, done, k, j, {}, 0, 0);
    j1 := j1 + nh;
    k1 := k1 + 2;
    j1, k1, done' := Down4(a, j1, k1, nm, conj, g, s0, done', k, j, {} + s00, 0, 1);
    j1 := j1 + 2;
    k1 := k1 + nh;
    j1, k1, done' := Up4(a, j1, k1, nm, conj, g, s0, done', k, j, {} + s00 + s01, 1, 1);
    j1 := j1 - nh;
    k1 := k1 - 2;
    j1, k1, done' := Down4(a, j1, k1, nm, conj, g, s0, done', k, j, {} + s00 + s01 + s11, 1, 0);
    Onward(g, a[..], s0, done', k, j, {} + s00 + s01 + s11 + s10, conj);
  }

  lemma AllSpots4(g: Shape, spots: set<Spot>)
    requires g.w == 2 && spots == Strip(g, 0, 0) + Strip(g, 0, 1) + Strip(g, 1, 1) + Strip(g, 1, 0)
    ensures forall p: Spot | IsSpot(g, p) :: p in spots
  {
    Quads(g);
  }

  lemma Onward(g: Shape, s: seq<real>, s0: seq<real>, done: set<nat>, k: nat, j: nat, spots: set<Spot>, conj: bool)
    requires g.Valid() && j <= k < g.M()
    requires Here(g, s, s0, done, k, j, spots, conj) && Complete(g, k, j, spots, conj)
    ensures if j < k then Here(g, s, s0, done, k, j + 1, {}, conj) else Here(g, s, s0, done, k + 1, 0, {}, conj)
  {
    NextPair(g, done, k, j, spots, conj);
  }

  /** The ends of row k: one exchange, and two fixed points for bitrv2conj. */
  function Ends(c: nat, conj: bool): set<Spot> {
    (if conj then {Spot(0, c, 0), Spot(1, c, 1)} else {}) + {Spot(1, c, 0)}
  }

  method SameRowEnds(a: array<real>, j1: nat, k1: nat, conj: bool, ghost g: Shape, ghost s0: seq<real>,
                     ghost done: set<nat>, ghost k: nat, ghost spots: set<Spot>, ghost c: nat)
    returns (ghost done': set<nat>)
    requires g.Valid() && k < g.M() && c < g.W() && Rev(g.w, c) == c
    requires Here(g, a[..], s0, done, k, k, spots, conj)
    requires forall p | p in spots :: p.c != c
    requires j1 == 2 * At(g, k, k, Spot(1, c, 0)) && k1 == 2 * At(g, k, k, Spot(0, c, 1))
    modifies a
    ensures Here(g, a[..], s0, done', k, k, spots + Ends(c, conj), conj)
  {
    StepEnds(g, k, k, c);
    ghost var p, q, r := Spot(0, c, 0), Spot(1, c, 0), Spot(1, c, 1);
    assert Reflect(g, p) == p && Reflect(g, q) == Spot(0, c, 1) && Reflect(g, r) == r;
    assert IsSpot(g, p) && IsSpot(g, q) && IsSpot(g, r);
    assert p !in spots && q !in spots && r !in spots && Spot(0, c, 1) !in spots;
    ghost var ends := Ends(c, conj);
    assert conj ==> spots + {p} + {q} + {r} == spots + ends;
    assert !conj ==> spots + {q} == spots + ends;
    hide *;
    if conj {
      done' := Negate(a, j1 - 1, g, s0, done, k, spots, p);
      done' := Swap(a, j1, k1, conj, g, s0, done', k, k, spots + {p}, q);
      done' := Negate(a, k1 + 3, g, s0, done', k, spots + {p} + {q}, r);
    } else {
      done' := Swap(a, j1, k1, conj, g, s0, done, k, k, spots, q);
    }
  }

  /** The four exchanges inside row k whose middle bits differ from their reverse. */
  method SameRowMiddle(a: array<real>, j0: nat, k0: nat, nm: nat, nh: nat, conj: bool, ghost g: Shape,
                       ghost s0: seq<real>, ghost done: set<nat>, ghost k: nat, ghost spots: set<Spot>)
    returns (j1: nat, k1: nat, ghost done': set<nat>)
    requires g.Valid() && g.w == 2 && k < g.M() && nm == 4 * g.M() && nh == g.Count()
    requires Here(g, a[..], s0, done, k, k, spots, conj)
    requires forall p | p in spots :: p.c == 0
    requires j0 == 2 * At(g, k, k, Spot(1, 0, 0)) && k0 == 2 * At(g, k, k, Spot(0, 0, 1))
    modifies a
    ensures Here(g, a[..], s0, done', k, k, spots + Middle(), conj)
    ensures j1 == 2 * At(g, k, k, Spot(1, 3, 0)) && k1 == 2 * At(g, k, k, Spot(0, 3, 1))
  {
    Quads(g);
    ghost var p1, p2, p3, p4 := Spot(1, 1, 0), Spot(1, 2, 0), Spot(0, 2, 0), Spot(1, 2, 1);
    ghost var q1, q2, q3, q4 := Spot(0, 2, 1), Spot(0, 1, 1), Spot(0, 1, 0), Spot(1, 1, 1);
    assert IsSpot(g, p1) && IsSpot(g, p2) && IsSpot(g, p3) && IsSpot(g, p4);
    assert forall p | p in {p1, p2, p3, p4, q1, q2, q3, q4} :: p !in spots;
    assert spots + {p1} + {p2} + {p3} + {p4} == spots + Middle();
    StepMid(g, k, k, 0, 0);
    StepMid(g, k, k, 0, 1);
    StepMid(g, k, k, 1, 0);
    StepMid(g, k, k, 1, 1);
    StepEnds(g, k, k, 0);
    hide *;
    j1 := j0 + nm;
    k1 := k0 + 2 * nm;
    done' := Swap(a, j1, k1, conj, g, s0, done, k, k, spots, p1);
    j1 := j1 + nm;
    k1 := k1 - nm;
    done' := Swap(a, j1, k1, conj, g, s0, done', k, k, spots + {p1}, p2);
    j1 := j1 - 2;
    k1 := k1 - nh;
    done' := Swap(a, j1, k1, conj, g, s0, done', k, k, spots + {p1} + {p2}, p3);
    j1 := j1 + nh + 2;
    k1 := k1 + nh + 2;
    done' := Swap(a, j1, k1, conj, g, s0, done', k, k, spots + {p1} + {p2} + {p3}, p4);
    j1 := j1 - nh + nm;
    k1 := k1 + 2 * nm - 2;
  }

  function Middle(): set<Spot> { {Spot(1, 1, 0), Spot(1, 2, 0), Spot(0, 2, 0), Spot(1, 2, 1)} }

  /** Row k with itself when there are two middle bits. */
  method SameRow4(a: array<real>, ip: array<int>, m: nat, nm: nat, nh: nat, k: nat, conj: bool,
                  ghost g: Shape, ghost s0: seq<real>, ghost done: set<nat>)
    returns (ghost done': set<nat>)
    requires g.Valid() && g.w == 2 && m == g.M() && nm == 4 * m && nh == g.Count() && k < m
    requires Table(ip[..], g.t)
    requires Here(g, a[..], s0, done, k, k, {}, conj)
    modifies a
    ensures Here(g, a[..], s0, done', k + 1, 0, {}, conj)
  {
    StartOfPair(g, ip[..], k, k);
    StepEnds(g, k, k, 0);
    Quads(g);
    RevTwoBits();
    assert ip[m + k] == ip[..][m + k];
    ghost var e0, e3 := Ends(0, conj), Ends(3, conj);
    assert {} + e0 == e0;
    assert forall p | p in e0 :: p.c == 0;
    assert forall p | p in e0 + Middle() :: p.c != 3;
    SameRowComplete4(g, k, e0 + Middle() + e3, conj);
    hide *;
    var k1 := 4 * k + 2 * ip[m + k];
    var j1 := k1 + 2;
    k1 := k1 + nh;
    done' := SameRowEnds(a, j1, k1, conj, g, s0, done, k, {}, 0);
    j1, k1, done' := SameRowMiddle(a, j1, k1, nm, nh, conj, g, s0, done', k, e0);
    done' := SameRowEnds(a, j1, k1, conj, g, s0, done', k, e0 + Middle(), 3);
    Onward(g, a[..], s0, done', k, k, e0 + Middle() + e3, conj);
  }

  lemma SameRowComplete4(g: Shape, k: nat, spots: set<Spot>, conj: bool)
    requires g.w == 2
    requires {Spot(1, 0, 0), Spot(1, 1, 0), Spot(1, 2, 0), Spot(0, 2, 0), Spot(1, 2, 1), Spot(1, 3, 0)} <= spots
    requires conj ==> {Spot(0, 0, 0), Spot(1, 0, 1), Spot(0, 3, 0), Spot(1, 3, 1)} <= spots
    ensures Complete(g, k, k, spots, conj)
  {
    Quads(g);
    forall p: Spot | IsSpot(g, p)
      ensures p in spots || Reflect(g, p) in spots || (!conj && Reflect(g, p) == p)
    {
      assert p == Spot(p.lo, 0, p.hi) || p == Spot(p.lo, 1, p.hi) || p == Spot(p.lo, 2, p.hi)
             || p == Spot(p.lo, 3, p.hi);
      assert (p.lo == 0 || p.lo == 1) && (p.hi == 0 || p.hi == 1);
      if conj && Reflect(g, p) == p {
        assert p in {Spot(0, 0, 0), Spot(1, 0, 1), Spot(0, 3, 0), Spot(1, 3, 1)};
      } else if Reflect(g, p) != p {
        var half := {Spot(1, 0, 0), Spot(1, 1, 0), Spot(1, 2, 0), Spot(0, 2, 0), Spot(1, 2, 1), Spot(1, 3, 0)};
        assert p in half || Reflect(g, p) in half;
      }
    }
  }

  /** Two exchanges with rising (or, when `down`, falling) middle bit. */
  method Two(a: array<real>, j1: nat, k1: nat, nm: nat, conj: bool, down: bool, ghost g: Shape,
             ghost s0: seq<real>, ghost done: set<nat>, ghost k: nat, ghost j: nat, ghost spots: set<Spot>,
             ghost lo: nat, ghost hi: nat)
    returns (j2: nat, k2: nat, ghost done': set<nat>)
    requires g.Valid() && g.w == 1 && j < k < g.M() && lo < 2 && hi < 2 && nm == 4 * g.M()
    requires Here(g, a[..], s0, done, k, j, spots, conj)
    requires spots !! Strip(g, lo, hi)
    requires var c := if down then 1 else 0;
             j1 == 2 * At(g, j, k, Spot(lo, c, hi)) && k1 == 2 * At(g, k, j, Spot(hi, c, lo))
    modifies a
    ensures Here(g, a[..], s0, done', k, j, spots + Strip(g, lo, hi), conj)
    ensures var c := if down then 0 else 1;
            j2 == 2 * At(g, j, k, Spot(lo, c, hi)) && k2 == 2 * At(g, k, j, Spot(hi, c, lo))
  {
    Pairs(g);
    ghost var p0, p1 := Spot(lo, 0, hi), Spot(lo, 1, hi);
    StepMid(g, j, k, lo, hi);
    StepMid(g, k, j, hi, lo);
    assert spots + {p0} + {p1} == spots + Strip(g, lo, hi) == spots + {p1} + {p0};
    hide *;
    j2, k2 := j1, k1;
    if down {
      done' := Swap(a, j2, k2, conj, g, s0, done, k, j, spots, p1);
      j2 := j2 - nm;
      k2 := k2 - nm;
      done' := Swap(a, j2, k2, conj, g, s0, done', k, j, spots + {p1}, p0);
    } else {
      done' := Swap(a, j2, k2, conj, g, s0, done, k, j, spots, p0);
      j2 := j2 + nm;
      k2 := k2 + nm;
      done' := Swap(a, j2, k2, conj, g, s0, done', k, j, spots + {p0}, p1);
    }
  }

  /** Rows j < k when there is one middle bit. */
  method PairOfRows2(a: array<real>, ip: array<int>, m: nat, nm: nat, nh: nat, k: nat, j: nat, conj: bool,
                     ghost g: Shape, ghost s0: seq<real>, ghost done: set<nat>)
    returns (ghost done': set<nat>)
    requires g.Valid() && g.w == 1 && m == g.M() && nm == 4 * m && nh == g.Count() && j < k < m
    requires Table(ip[..], g.t)
    requires Here(g, a[..], s0, done, k, j, {}, conj)
    modifies a
    ensures Here(g, a[..], s0, done', k, j + 1, {}, conj)
  {
    StartOfPair(g, ip[..], j, k);
    StartOfPair(g, ip[..], k, j);
    StepEnds(g, j, k, 0);
    StepEnds(g, j, k, 1);
    StepEnds(g, k, j, 0);
    StepEnds(g, k, j, 1);
    Pairs(g);
    assert ip[m + k] == ip[..][m + k] && ip[m + j] == ip[..][m + j];
    ghost var s00, s01, s11, s10 := Strip(g, 0, 0), Strip(g, 0, 1), Strip(g, 1, 1), Strip(g, 1, 0);
    assert {} + s00 + s01 + s11 + s10 == s00 + s01 + s11 + s10;
    assert Complete(g, k, j, {} + s00 + s01 + s11 + s10, conj) by {
      AllSpots2(g, {} + s00 + s01 + s11 + s10);
    }
    assert {} !! s00 && {} + s00 !! s01 && {} + s00 + s01 !! s11 && {} + s00 + s01 + s11 !! s10;
    hide *;
    var j1 := 4 * j + ip[m + k];
    var k1 := 4 * k + ip[m + j];
    j1, k1, done' := Two(a, j1, k1, nm, conj, false, g, s0, done, k, j, {}, 0, 0);
    j1 := j1 + nh;
    k1 := k1 + 2;
    j1, k1, done' := Two(a, j1, k1, nm, conj, true, g, s0, done', k, j, {} + s00, 0, 1);
    j1 := j1 + 2;
    k1 := k1 + nh;
    j1, k1, done' := Two(a, j1, k1, nm, conj, false, g, s0, done', k, j, {} + s00 + s01, 1, 1);
    j1 := j1 - nh;
    k1 := k1 - 2;
    j1, k1, done' := Two(a, j1, k1, nm, conj, true, g, s0, done', k, j, {} + s00 + s01 + s11, 1, 0);
    Onward(g, a[..], s0, done', k, j, {} + s00 + s01 + s11 + s10, conj);
  }

  lemma AllSpots2(g: Shape, spots: set<Spot>)
    requires g.w == 1 && spots == Strip(g, 0, 0) + Strip(g, 0, 1) + Strip(g, 1, 1) + Strip(g, 1, 0)
    ensures forall p: Spot | IsSpot(g, p) :: p in spots
  {
    Pairs(g);
  }

  /** Row k with itself when there is one middle bit. */
  method SameRow2(a: array<real>, ip: array<int>, m: nat, nm: nat, nh: nat, k: nat, conj: bool,
                  ghost g: Shape, ghost s0: seq<real>, ghost done: set<nat>)
    returns (ghost done': set<nat>)
    requires g.Valid() && g.w == 1 && m == g.M() && nm == 4 * m && nh == g.Count() && k < m
    requires Table(ip[..], g.t)
    requires Here(g, a[..], s0, done, k, k, {}, conj)
    modifies a
    ensures Here(g, a[..], s0, done', k + 1, 0, {}, conj)
  {
    StartOfPair(g, ip[..], k, k);
    StepEnds(g, k, k, 0);
    StepMid(g, k, k, 1, 0);
    StepMid(g, k, k, 0, 1);
    Pairs(g);
    RevOne(0);
    RevOne(1);
    assert ip[m + k] == ip[..][m + k];
    ghost var e0, e1 := Ends(0, conj), Ends(1, conj);
    assert {} + e0 == e0;
    assert forall p | p in e0 :: p.c != 1;
    SameRowComplete2(g, k, e0 + e1, conj);
    hide *;
    var k1 := 4 * k + ip[m + k];
    var j1 := k1 + 2;
    k1 := k1 + nh;
    done' := SameRowEnds(a, j1, k1, conj, g, s0, done, k, {}, 0);
    j1 := j1 + nm;
    k1 := k1 + nm;
    done' := SameRowEnds(a, j1, k1, conj, g, s0, done', k, e0, 1);
    Onward(g, a[..], s0, done', k, k, e0 + e1, conj);
  }

  lemma SameRowComplete2(g: Shape, k: nat, spots: set<Spot>, conj: bool)
    requires g.w == 1 && spots == Ends(0, conj) + Ends(1, conj)
    ensures Complete(g, k, k, spots, conj)
  {
    Pairs(g);
    forall p: Spot | IsSpot(g, p)
      ensures p in spots || Reflect(g, p) in spots || (!conj && Reflect(g, p) == p)
    {
      assert p == Spot(p.lo, 0, p.hi) || p == Spot(p.lo, 1, p.hi);
      assert (p.lo == 0 || p.lo == 1) && (p.hi == 0 || p.hi == 1);
    }
  }

  /** The search for m: every two bits of n beyond the middle give a row bit. */
  method RowBits(n: nat, ghost g: Shape) returns (m: nat, l: nat)
    requires g.Valid() && n == 2 * g.Count()
    ensures m == g.M() && (l == 8 <==> g.w == 2)
  {
    m := 1;
    l := n / 4;
    ghost var e: nat := g.Bits() - 1;
    ghost var i := 0;
    SmallPowers();
    while l > 8
      invariant l == Pow2(e) && m == Pow2(i) && e + 2 * i == 2 * g.t + g.w + 1 && i <= g.t
      decreases l
    {
      if e <= 3 { Pow2Grows(e, 3); }
      m := 2 * m;
      l := l / 4;
      e := e - 2;
      i := i + 1;
    }
    if e >= 4 { Pow2Grows(4, e); }
  }

  lemma SmallPowers()
    ensures Pow2(0) == 1 && Pow2(1) == 2 && Pow2(2) == 4 && Pow2(3) == 8 && Pow2(4) == 16
  {}

  /** bitrv2 (`conj` false) and bitrv2conj (`conj` true), for n reals: every
      complex element moves to its bit-reversed index, and bitrv2conj conjugates
      it on the way. */
  method Bitrv2(n: nat, ip: array<int>, a: array<real>, conj: bool, ghost g: Shape)
    requires g.Valid() && n == 2 * g.Count() && a.Length >= n
    requires Table(ip[..], g.t)
    modifies a
    ensures forall x: nat | x < g.Count() :: Moved(a[..], old(a[..]), x, Mirror(g, x), conj)
    ensures a[n..] == old(a[n..])
  {
    ghost var s0 := a[..];
    var m, l := RowBits(n, g);
    var nh := n / 2;
    var nm := 4 * m;
    ghost var done: set<nat> := {};
    StartTracks(g, conj);
    assert Here(g, a[..], s0, done, 0, 0, {}, conj);
    hide *;
    for k := 0 to m
      invariant Table(ip[..], g.t)
      invariant Here(g, a[..], s0, done, k, 0, {}, conj)
    {
      for j := 0 to k
        invariant Table(ip[..], g.t)
        invariant Here(g, a[..], s0, done, k, j, {}, conj)
      {
        if l == 8 {
          done := PairOfRows4(a, ip, m, nm, nh, k, j, conj, g, s0, done);
        } else {
          done := PairOfRows2(a, ip, m, nm, nh, k, j, conj, g, s0, done);
        }
      }
      if l == 8 {
        done := SameRow4(a, ip, m, nm, nh, k, conj, g, s0, done);
      } else {
        done := SameRow2(a, ip, m, nm, nh, k, conj, g, s0, done);
      }
    }
    Finished(g, a[..], s0, done, conj);
  }

  lemma Finished(g: Shape, s: seq<real>, s0: seq<real>, done: set<nat>, conj: bool)
    requires g.Valid() && Here(g, s, s0, done, g.M(), 0, {}, conj)
    ensures |s| == |s0| >= 2 * g.Count()
    ensures forall x: nat | x < g.Count() :: Moved(s, s0, x, Mirror(g, x), conj)
    ensures s[2 * g.Count()..] == s0[2 * g.Count()..]
  {
    AllTracked(g, done, conj);
  }

  /** A second pass of either routine undoes the first. */
  lemma TwiceIsIdentity(g: Shape, s0: seq<real>, s1: seq<real>, s2: seq<real>, conj: bool)
    requires |s0| == |s1| == |s2| == 2 * g.Count()
    requires forall x: nat | x < g.Count() :: Moved(s1, s0, x, Mirror(g, x), conj)
    requires forall x: nat | x < g.Count() :: Moved(s2, s1, x, Mirror(g, x), conj)
    ensures s2 == s0
  {
    forall i | 0 <= i < |s2| ensures s2[i] == s0[i] {
      var x := i / 2;
      MirrorTwice(g, x);
      assert Moved(s2, s1, x, Mirror(g, x), conj);
      assert Moved(s1, s0, Mirror(g, x), x, conj);
      assert i == 2 * x || i == 2 * x + 1;
    }
  }
}
