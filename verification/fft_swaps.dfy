/** The permutation by swaps: which elements have reached their mirrored place. */
module FftSwaps {
  import opened FftBits
  import opened FftCells

  /** The imaginary part after a move; bitrv2conj also negates it. */
  function Im(conj: bool, x: real): real { if conj then -x else x }

  /** Complex element x of s: element y of s0, moved. */
  ghost predicate Moved(s: seq<real>, s0: seq<real>, x: nat, y: nat, conj: bool)
    requires 2 * x + 1 < |s| && 2 * y + 1 < |s0|
  {
    s[2 * x] == s0[2 * y] && s[2 * x + 1] == Im(conj, s0[2 * y + 1])
  }

  ghost predicate Kept(s: seq<real>, s0: seq<real>, x: nat)
    requires 2 * x + 1 < |s| && 2 * x + 1 < |s0|
  {
    s[2 * x] == s0[2 * x] && s[2 * x + 1] == s0[2 * x + 1]
  }

  /** The elements in `done` have come from their mirror image, the others are
      still as they were in s0. */
  ghost predicate Arranged(g: Shape, s: seq<real>, s0: seq<real>, done: set<nat>, conj: bool) {
    && |s| == |s0| && |s| >= 2 * g.Count()
    && (forall x: nat | x < g.Count() :: if x in done then Moved(s, s0, x, Mirror(g, x), conj) else Kept(s, s0, x))
    && (forall i | 2 * g.Count() <= i < |s| :: s[i] == s0[i])
  }

  /** Exchanging two complex elements, as the source does with xr, xi, yr, yi. */
  function Exchanged(s: seq<real>, j1: nat, k1: nat, conj: bool): (r: seq<real>)
    requires j1 + 1 < |s| && k1 + 1 < |s|
    ensures |r| == |s|
  {
    s[j1 := s[k1]][j1 + 1 := Im(conj, s[k1 + 1])][k1 := s[j1]][k1 + 1 := Im(conj, s[j1 + 1])]
  }

  lemma MirrorTwice(g: Shape, x: nat)
    requires x < g.Count()
    ensures Mirror(g, Mirror(g, x)) == x
  {
    RevTwice(g.Bits(), x);
  }

  lemma ExchangeArranged(g: Shape, s: seq<real>, s0: seq<real>, done: set<nat>, conj: bool, x: nat)
    requires Arranged(g, s, s0, done, conj)
    requires x < g.Count() && x !in done && Mirror(g, x) !in done && Mirror(g, x) != x
    ensures Arranged(g, Exchanged(s, 2 * x, 2 * Mirror(g, x), conj), s0, done + {x, Mirror(g, x)}, conj)
  {
    var y := Mirror(g, x);
    MirrorTwice(g, x);
    var r, done' := Exchanged(s, 2 * x, 2 * y, conj), done + {x, y};
    assert Kept(s, s0, x) && Kept(s, s0, y);
    hide Mirror;
    forall z: nat | z < g.Count()
      ensures if z in done' then Moved(r, s0, z, Mirror(g, z), conj) else Kept(r, s0, z)
    {
      if z != x && z != y {
        assert r[2 * z] == s[2 * z] && r[2 * z + 1] == s[2 * z + 1];
      }
    }
  }

  /** A fixed point of the mirror only has its imaginary part negated. */
  lemma NegateArranged(g: Shape, s: seq<real>, s0: seq<real>, done: set<nat>, x: nat)
    requires Arranged(g, s, s0, done, true)
    requires x < g.Count() && x !in done && Mirror(g, x) == x
    ensures Arranged(g, s[2 * x + 1 := -s[2 * x + 1]], s0, done + {x}, true)
  {
    assert Kept(s, s0, x);
    hide Mirror;
    var r := s[2 * x + 1 := -s[2 * x + 1]];
    forall z: nat | z < g.Count()
      ensures if z in done + {x} then Moved(r, s0, z, Mirror(g, z), true) else Kept(r, s0, z)
    {
      if z != x {
        assert r[2 * z] == s[2 * z] && r[2 * z + 1] == s[2 * z + 1];
      }
    }
  }

  // ---------------------------------------------------------- loop bookkeeping

  /** What is left of an index once its row and column are known. */
  datatype Spot = Spot(lo: nat, c: nat, hi: nat)

  function SpotOf(g: Shape, x: nat): Spot { Spot(Lo(g, x), Mid(g, x), Hi(g, x)) }

  ghost predicate IsSpot(g: Shape, p: Spot) { p.lo < 2 && p.c < g.W() && p.hi < 2 }

  function Reflect(g: Shape, p: Spot): Spot
    requires p.c < g.W()
  {
    Spot(p.hi, Rev(g.w, p.c), p.lo)
  }

  /** The pair of row and column numbers {u, v} comes before {k, j} (j <= k) in
      the order of the loops. */
  predicate Earlier(u: nat, v: nat, k: nat, j: nat) {
    (u < k && v < k) || (u == k && v < j) || (v == k && u < j)
  }

  /** Index x belongs to a pair of rows already dealt with, or to the current pair
      and one of the spots `spots`. */
  ghost predicate Reached(g: Shape, x: nat, k: nat, j: nat, spots: set<Spot>)
    requires x < g.Count()
  {
    || Earlier(Row(g, x), Col(g, x), k, j)
    || (Row(g, x) == k && Col(g, x) == j && SpotOf(g, x) in spots)
    || (Row(g, x) == j && Col(g, x) == k && SpotOf(g, Mirror(g, x)) in spots)
  }

  /** `done` is what the loops have reached; bitrv2 leaves fixed points alone. */
  ghost predicate Tracks(g: Shape, done: set<nat>, k: nat, j: nat, spots: set<Spot>, conj: bool) {
    && (forall x | x in done :: x < g.Count())
    && forall x: nat | x < g.Count() :: x in done <==> (Reached(g, x, k, j, spots) && (conj || Mirror(g, x) != x))
  }

  function At(g: Shape, j: nat, k: nat, p: Spot): nat
    requires k < g.M()
  {
    Cell(g, p.lo, j, p.c, Rev(g.t, k), p.hi)
  }

  /** The cell in column j, row k at a spot. */
  lemma AtParts(g: Shape, j: nat, k: nat, p: Spot)
    requires g.Valid() && j < g.M() && k < g.M() && IsSpot(g, p)
    ensures var x := At(g, j, k, p);
            && x < g.Count() && Col(g, x) == j && Row(g, x) == k && SpotOf(g, x) == p
            && Mirror(g, x) == At(g, k, j, Reflect(g, p))
            && IsSpot(g, Reflect(g, p))
  {
    CellParts(g, p.lo, j, p.c, Rev(g.t, k), p.hi);
    MirrorCell(g, p.lo, j, p.c, Rev(g.t, k), p.hi);
    RevTwice(g.t, k);
  }

  /** An index is determined by its row, column and spot. */
  lemma AtUnique(g: Shape, x: nat)
    requires g.Valid() && x < g.Count()
    ensures Col(g, x) < g.M() && Row(g, x) < g.M() && IsSpot(g, SpotOf(g, x))
    ensures x == At(g, Col(g, x), Row(g, x), SpotOf(g, x))
  {
    CellOf(g, x);
    RevTwice(g.t, RowRev(g, x));
  }

  lemma ReflectTwice(g: Shape, p: Spot)
    requires IsSpot(g, p)
    ensures Reflect(g, Reflect(g, p)) == p
  {
    RevTwice(g.w, p.c);
  }

  lemma MirrorParts(g: Shape, x: nat)
    requires g.Valid() && x < g.Count()
    ensures Col(g, Mirror(g, x)) == Row(g, x) && Row(g, Mirror(g, x)) == Col(g, x)
    ensures Mirror(g, Mirror(g, x)) == x
  {
    AtUnique(g, x);
    AtParts(g, Col(g, x), Row(g, x), SpotOf(g, x));
    AtParts(g, Row(g, x), Col(g, x), Reflect(g, SpotOf(g, x)));
    MirrorTwice(g, x);
  }

  lemma OneSpot(g: Shape, x: nat, k: nat, j: nat, p: Spot)
    requires g.Valid() && x < g.Count() && j < g.M() && k < g.M() && IsSpot(g, p)
    ensures (Row(g, x) == k && Col(g, x) == j && SpotOf(g, x) == p) <==> x == At(g, j, k, p)
  {
    AtUnique(g, x);
    AtParts(g, j, k, p);
  }

  /** Adding one spot of the current pair adds the two ends of its exchange. */
  lemma ReachedMore(g: Shape, z: nat, k: nat, j: nat, spots: set<Spot>, p: Spot)
    requires g.Valid() && z < g.Count() && j < g.M() && k < g.M() && IsSpot(g, p)
    ensures At(g, j, k, p) < g.Count()
    ensures Reached(g, z, k, j, spots + {p}) <==>
              Reached(g, z, k, j, spots) || z == At(g, j, k, p) || z == Mirror(g, At(g, j, k, p))
  {
    AtParts(g, j, k, p);
    OneSpot(g, z, k, j, p);
    OneSpot(g, Mirror(g, z), k, j, p);
    MirrorParts(g, z);
    MirrorParts(g, At(g, j, k, p));
    hide Row, Col, SpotOf, Mirror, At, IsSpot;
  }

  /** A spot of the current pair not dealt with yet has not been reached. */
  lemma NotReached(g: Shape, k: nat, j: nat, spots: set<Spot>, p: Spot)
    requires g.Valid() && j <= k < g.M() && IsSpot(g, p)
    requires p !in spots && (j == k ==> Reflect(g, p) !in spots)
    ensures var x := At(g, j, k, p);
            x < g.Count() && !Reached(g, x, k, j, spots) && !Reached(g, Mirror(g, x), k, j, spots)
  {
    var x := At(g, j, k, p);
    AtParts(g, j, k, p);
    AtParts(g, k, j, Reflect(g, p));
    MirrorTwice(g, x);
    hide Row, Col, SpotOf, Mirror, Reflect, At, IsSpot, Rev;
  }

  /** A fresh spot of the current pair: neither end of it has been reached, and
      after the exchange exactly these two are added. */
  lemma FreshSpot(g: Shape, done: set<nat>, k: nat, j: nat, spots: set<Spot>, conj: bool, p: Spot)
    requires g.Valid() && j <= k < g.M() && IsSpot(g, p)
    requires Tracks(g, done, k, j, spots, conj)
    requires p !in spots && (j == k ==> Reflect(g, p) !in spots)
    ensures var x := At(g, j, k, p);
            && x < g.Count() && x !in done && Mirror(g, x) !in done
            && (conj || Mirror(g, x) != x ==>
                Tracks(g, done + {x, Mirror(g, x)}, k, j, spots + {p}, conj))
  {
    var x := At(g, j, k, p);
    NotReached(g, k, j, spots, p);
    var y := Mirror(g, x);
    MirrorTwice(g, x);
    hide Mirror, Reflect, At, IsSpot, Reached;
    if conj || y != x {
      forall z: nat | z < g.Count()
        ensures z in done + {x, y} <==> (Reached(g, z, k, j, spots + {p}) && (conj || Mirror(g, z) != z))
      {
        ReachedMore(g, z, k, j, spots, p);
      }
    }
  }

  /** Every spot of the current pair has been dealt with, directly or through its
      mirror image, or needs no exchange. */
  ghost predicate Complete(g: Shape, k: nat, j: nat, spots: set<Spot>, conj: bool) {
    forall p: Spot | IsSpot(g, p) ::
      p in spots || (j == k && (Reflect(g, p) in spots || (!conj && Reflect(g, p) == p)))
  }

  /** On to the next pair of rows. */
  lemma NextPair(g: Shape, done: set<nat>, k: nat, j: nat, spots: set<Spot>, conj: bool)
    requires g.Valid() && j <= k < g.M()
    requires Tracks(g, done, k, j, spots, conj) && Complete(g, k, j, spots, conj)
    ensures if j < k then Tracks(g, done, k, j + 1, {}, conj) else Tracks(g, done, k + 1, 0, {}, conj)
  {
    var k', j' := if j < k then k else k + 1, if j < k then j + 1 else 0;
    forall z: nat | z < g.Count()
      ensures z in done <==> (Reached(g, z, k', j', {}) && (conj || Mirror(g, z) != z))
    {
      NextPairAt(g, z, k, j, spots, conj);
    }
  }

  lemma NextPairAt(g: Shape, z: nat, k: nat, j: nat, spots: set<Spot>, conj: bool)
    requires g.Valid() && z < g.Count() && j <= k < g.M()
    requires Complete(g, k, j, spots, conj)
    ensures var k', j' := if j < k then k else k + 1, if j < k then j + 1 else 0;
            (Reached(g, z, k, j, spots) && (conj || Mirror(g, z) != z)) <==>
            (Reached(g, z, k', j', {}) && (conj || Mirror(g, z) != z))
  {
    var p := SpotOf(g, z);
    AtUnique(g, z);
    AtUnique(g, Mirror(g, z));
    AtParts(g, Col(g, z), Row(g, z), p);
    MirrorParts(g, z);
    AtParts(g, Row(g, z), Col(g, z), Reflect(g, p));
    ReflectTwice(g, p);
    hide Row, Col, SpotOf, Mirror, At, IsSpot, Rev;
  }

  lemma StartTracks(g: Shape, conj: bool)
    requires g.Valid()
    ensures Tracks(g, {}, 0, 0, {}, conj)
  {}

  /** Once all rows are through, everything has been reached. */
  lemma AllTracked(g: Shape, done: set<nat>, conj: bool)
    requires g.Valid() && Tracks(g, done, g.M(), 0, {}, conj)
    ensures forall x: nat | x < g.Count() :: x in done <==> (conj || Mirror(g, x) != x)
  {
    forall x: nat | x < g.Count() ensures x in done <==> (conj || Mirror(g, x) != x) {
      AtUnique(g, x);
    }
  }

  // ------------------------------------------------------------ state of a loop

  /** Where the loops are, and what they have done to the data. */
  ghost predicate Here(g: Shape, s: seq<real>, s0: seq<real>, done: set<nat>,
                       k: nat, j: nat, spots: set<Spot>, conj: bool) {
    Arranged(g, s, s0, done, conj) && Tracks(g, done, k, j, spots, conj)
  }

  lemma Advance(g: Shape, s: seq<real>, s0: seq<real>, done: set<nat>,
                k: nat, j: nat, spots: set<Spot>, conj: bool, p: Spot)
    requires g.Valid() && j <= k < g.M() && IsSpot(g, p)
    requires Here(g, s, s0, done, k, j, spots, conj)
    requires p !in spots && (j == k ==> Reflect(g, p) !in spots && Reflect(g, p) != p)
    ensures var x, y := At(g, j, k, p), At(g, k, j, Reflect(g, p));
            && x < g.Count() && y < g.Count() && x != y
            && Here(g, Exchanged(s, 2 * x, 2 * y, conj), s0, done + {x, y}, k, j, spots + {p}, conj)
  {
    var x := At(g, j, k, p);
    AtParts(g, j, k, p);
    AtParts(g, k, j, Reflect(g, p));
    hide Row, Col, SpotOf, Mirror, Reflect, At, IsSpot, Rev, Tracks, Arranged;
    FreshSpot(g, done, k, j, spots, conj, p);
    ExchangeArranged(g, s, s0, done, conj, x);
  }

  lemma AdvanceFixed(g: Shape, s: seq<real>, s0: seq<real>, done: set<nat>, k: nat, spots: set<Spot>, p: Spot)
    requires g.Valid() && k < g.M() && IsSpot(g, p)
    requires Here(g, s, s0, done, k, k, spots, true)
    requires p !in spots && Reflect(g, p) == p
    ensures var x := At(g, k, k, p);
            && x < g.Count()
            && Here(g, s[2 * x + 1 := -s[2 * x + 1]], s0, done + {x}, k, k, spots + {p}, true)
  {
    var x := At(g, k, k, p);
    AtParts(g, k, k, p);
    FreshSpot(g, done, k, k, spots, true, p);
    NegateArranged(g, s, s0, done, x);
    assert done + {x, x} == done + {x};
  }

  /** Rows start Base(k) complex elements into the data. */
  function Base(g: Shape, k: nat): nat
    requires k < g.M()
  {
    g.M() * (g.W() * Rev(g.t, k)) * 2
  }

  /** The index of a cell as the source steps through it. */
  lemma AtLinear(g: Shape, j: nat, k: nat, p: Spot)
    requires g.Valid() && k < g.M()
    ensures At(g, j, k, p) == p.lo + 2 * j + p.c * (2 * g.M()) + Base(g, k) + p.hi * (g.Count() / 2)
  {
    var m, w, r := g.M(), g.W(), Rev(g.t, k);
    hide *;
    CellExpand(g, p.lo, j, p.c, r, p.hi);
    HalfCount(g);
    AtExpand(m, w, p.lo, j, p.c, r, p.hi, g.Count() / 2);
    BaseIs(g, k);
    AtIs(g, j, k, p);
  }

  lemma AtIs(g: Shape, j: nat, k: nat, p: Spot)
    requires k < g.M()
    ensures At(g, j, k, p) == Cell(g, p.lo, j, p.c, Rev(g.t, k), p.hi)
  {}

  lemma BaseIs(g: Shape, k: nat)
    requires k < g.M()
    ensures Base(g, k) == g.M() * (g.W() * Rev(g.t, k)) * 2
  {}

  lemma CellExpand(g: Shape, lo: nat, j: nat, c: nat, r: nat, hi: nat)
    ensures Cell(g, lo, j, c, r, hi) == lo + 2 * (j + g.M() * (c + g.W() * (r + g.M() * hi)))
  {
    RevOne(0);
  }

  lemma HalfCount(g: Shape)
    ensures g.Count() / 2 == g.M() * (g.W() * (g.M() * 2))
  {
    hide *;
    CountIs(g);
  }

  lemma AtExpand(m: nat, w: nat, lo: nat, j: nat, c: nat, r: nat, hi: nat, half: nat)
    requires half == m * (w * (m * 2))
    ensures lo + 2 * (j + m * (c + w * (r + m * hi))) == lo + 2 * j + c * (2 * m) + m * (w * r) * 2 + hi * half
  {
    Spread(w, r, m * hi);
    Spread(m, c, w * r + w * (m * hi));
    Spread(m, w * r, w * (m * hi));
    Regroup(m, w, hi);
  }

  lemma Regroup(m: nat, w: nat, hi: nat)
    ensures 2 * (m * (w * (m * hi))) == hi * (m * (w * (m * 2)))
  {
    var p := m * (w * m);
    assert m * (w * (m * hi)) == p * hi by {
      Group(w, m, hi);
      Group(m, w * m, hi);
    }
    assert m * (w * (m * 2)) == p * 2 by {
      Group(w, m, 2);
      Group(m, w * m, 2);
    }
  }
}
