/** The index of a complex element as bitrv2 sees it: one low bit, a column j, one
    or two middle bits, a bit-reversed row, and one high bit. */
module FftCells {
  import opened FftBits

  /** t bits for a row or column (m = 2^t), w middle bits: w is 2 for transforms
      of 32 m^2 reals and 1 for those of 16 m^2. */
  datatype Shape = Shape(t: nat, w: nat) {
    ghost predicate Valid() { t >= 1 && (w == 1 || w == 2) }
    function M(): nat { Pow2(t) }
    function W(): nat { Pow2(w) }
    function Bits(): nat { 1 + (t + (w + (t + 1))) }
    /** How many complex elements there are. */
    function Count(): nat { Pow2(Bits()) }
  }

  function Cell(g: Shape, lo: nat, j: nat, c: nat, r: nat, hi: nat): nat {
    Join(1, lo, Join(g.t, j, Join(g.w, c, Join(g.t, r, hi))))
  }

  ghost predicate InCell(g: Shape, lo: nat, j: nat, c: nat, r: nat, hi: nat) {
    lo < 2 && j < g.M() && c < g.W() && r < g.M() && hi < 2
  }

  /** What is left of x above the low bit, above the column, above the middle. */
  function AboveLo(x: nat): nat { x / 2 }
  function AboveCol(g: Shape, x: nat): nat { AboveLo(x) / g.M() }
  function AboveMid(g: Shape, x: nat): nat { AboveCol(g, x) / g.W() }

  function Lo(g: Shape, x: nat): nat { x % 2 }
  function Col(g: Shape, x: nat): nat { AboveLo(x) % g.M() }
  function Mid(g: Shape, x: nat): nat { AboveCol(g, x) % g.W() }
  function RowRev(g: Shape, x: nat): nat { AboveMid(g, x) % g.M() }
  function Hi(g: Shape, x: nat): nat { AboveMid(g, x) / g.M() }

  /** The row number itself. */
  function Row(g: Shape, x: nat): nat { Rev(g.t, RowRev(g, x)) }

  /** The bit-reversed index. */
  function Mirror(g: Shape, x: nat): (y: nat)
    requires x < g.Count()
    ensures y < g.Count()
  {
    Rev(g.Bits(), x)
  }

  lemma Rebuild(s: nat, x: nat)
    requires s > 0
    ensures x == x % s + s * (x / s) && x % s < s
  {}

  /** Every index is the cell of its parts. */
  lemma CellOf(g: Shape, x: nat)
    requires g.Valid() && x < g.Count()
    ensures InCell(g, Lo(g, x), Col(g, x), Mid(g, x), RowRev(g, x), Hi(g, x))
    ensures x == Cell(g, Lo(g, x), Col(g, x), Mid(g, x), RowRev(g, x), Hi(g, x))
  {
    HiSmall(g, x);
    RevOne(0);
    RebuildJoin(1, x, Lo(g, x), AboveLo(x));
    RebuildJoin(g.t, AboveLo(x), Col(g, x), AboveCol(g, x));
    RebuildJoin(g.w, AboveCol(g, x), Mid(g, x), AboveMid(g, x));
    RebuildJoin(g.t, AboveMid(g, x), RowRev(g, x), Hi(g, x));
    hide Join, Pow2;
  }

  lemma RebuildJoin(a: nat, x: nat, r: nat, q: nat)
    requires r == x % Pow2(a) && q == x / Pow2(a)
    ensures x == Join(a, r, q) && r < Pow2(a)
  {
    Rebuild(Pow2(a), x);
  }

  lemma Quotient(x: nat, s: nat, n: nat)
    requires s > 0 && x < s * n
    ensures x / s < n
  {
    Rebuild(s, x);
    Spread(s, n, x / s - n);
    AtLeast(s, x / s - n);
  }

  lemma HiSmall(g: Shape, x: nat)
    requires g.Valid() && x < g.Count()
    ensures Hi(g, x) < 2
  {
    CountIs(g);
    HiIs(g, x);
    hide *;
    HiOf(x, g.M(), g.W());
  }

  lemma HiIs(g: Shape, x: nat)
    ensures g.M() > 0 && g.W() > 0 && Hi(g, x) == x / 2 / g.M() / g.W() / g.M()
  {}

  lemma CountIs(g: Shape)
    ensures g.Count() == 2 * (g.M() * (g.W() * (g.M() * 2)))
  {
    RevOne(0);
    Pow2Add(g.t, g.w + (g.t + 1));
    Pow2Add(g.w, g.t + 1);
    Pow2Add(g.t, 1);
    assert g.Count() == 2 * Pow2(g.t + (g.w + (g.t + 1)));
    hide Pow2;
  }

  lemma HiOf(x: nat, m: nat, w: nat)
    requires m > 0 && w > 0 && x < 2 * (m * (w * (m * 2)))
    ensures x / 2 / m / w / m < 2
  {
    Quotient(x, 2, m * (w * (m * 2)));
    HiOfColumn(x / 2, m, w);
  }

  lemma HiOfColumn(x: nat, m: nat, w: nat)
    requires m > 0 && w > 0 && x < m * (w * (m * 2))
    ensures x / m / w / m < 2
  {
    Quotient(x, m, w * (m * 2));
    HiOfMiddle(x / m, m, w);
  }

  lemma HiOfMiddle(x: nat, m: nat, w: nat)
    requires m > 0 && w > 0 && x < w * (m * 2)
    ensures x / w / m < 2
  {
    Quotient(x, w, m * 2);
    Quotient(x / w, m, 2);
  }

  /** The parts of a cell. */
  lemma CellParts(g: Shape, lo: nat, j: nat, c: nat, r: nat, hi: nat)
    requires g.Valid() && InCell(g, lo, j, c, r, hi)
    ensures var x := Cell(g, lo, j, c, r, hi);
            Lo(g, x) == lo && Col(g, x) == j && Mid(g, x) == c && RowRev(g, x) == r && Hi(g, x) == hi
  {
    RevOne(0);
    var y3 := Join(g.t, r, hi);
    var y2 := Join(g.w, c, y3);
    var y1 := Join(g.t, j, y2);
    JoinParts(1, lo, y1);
    JoinParts(g.t, j, y2);
    JoinParts(g.w, c, y3);
    JoinParts(g.t, r, hi);
    hide Join, Pow2;
  }

  /** The mirror image swaps the low and high bit, swaps row and column, and
      reverses the middle bits. */
  lemma MirrorCell(g: Shape, lo: nat, j: nat, c: nat, r: nat, hi: nat)
    requires g.Valid() && InCell(g, lo, j, c, r, hi)
    ensures Cell(g, lo, j, c, r, hi) < g.Count()
    ensures Mirror(g, Cell(g, lo, j, c, r, hi)) == Cell(g, hi, Rev(g.t, r), Rev(g.w, c), Rev(g.t, j), lo)
  {
    InCellIs(g, lo, j, c, r, hi);
    CellIs(g, lo, j, c, r, hi);
    CellIs(g, hi, Rev(g.t, r), Rev(g.w, c), Rev(g.t, j), lo);
    MirrorAt(g, g.t, g.w, lo, j, c, r, hi, Cell(g, lo, j, c, r, hi),
             Cell(g, hi, Rev(g.t, r), Rev(g.w, c), Rev(g.t, j), lo));
    hide *;
  }

  lemma MirrorAt(g: Shape, t: nat, w: nat, lo: nat, j: nat, c: nat, r: nat, hi: nat, x: nat, y: nat)
    requires g.t == t && g.w == w && lo < 2 && j < Pow2(t) && c < Pow2(w) && r < Pow2(t) && hi < 2
    requires x == Join(1, lo, Join(t, j, Join(w, c, Join(t, r, hi))))
    requires y == Join(1, hi, Join(t, Rev(t, r), Join(w, Rev(w, c), Join(t, Rev(t, j), lo))))
    ensures x < g.Count() && Mirror(g, x) == y
  {
    hide *;
    MirrorFields(t, w, lo, j, c, r, hi);
    MirrorIs(g, x, t, w);
  }

  lemma InCellIs(g: Shape, lo: nat, j: nat, c: nat, r: nat, hi: nat)
    requires InCell(g, lo, j, c, r, hi)
    ensures lo < 2 && j < Pow2(g.t) && c < Pow2(g.w) && r < Pow2(g.t) && hi < 2
  {}

  lemma MirrorIs(g: Shape, x: nat, t: nat, w: nat)
    requires g.t == t && g.w == w
    ensures x < g.Count() <==> x < Pow2(1 + (t + (w + (t + 1))))
    ensures x < g.Count() ==> Mirror(g, x) == Rev(1 + (t + (w + (t + 1))), x)
  {}

  lemma CellIs(g: Shape, lo: nat, j: nat, c: nat, r: nat, hi: nat)
    ensures Cell(g, lo, j, c, r, hi) == Join(1, lo, Join(g.t, j, Join(g.w, c, Join(g.t, r, hi))))
  {}

  lemma MirrorFields(t: nat, w: nat, lo: nat, j: nat, c: nat, r: nat, hi: nat)
    requires lo < 2 && j < Pow2(t) && c < Pow2(w) && r < Pow2(t) && hi < 2
    ensures Join(1, lo, Join(t, j, Join(w, c, Join(t, r, hi)))) < Pow2(1 + (t + (w + (t + 1))))
    ensures Rev(1 + (t + (w + (t + 1))), Join(1, lo, Join(t, j, Join(w, c, Join(t, r, hi)))))
         == Join(1, hi, Join(t, Rev(t, r), Join(w, Rev(w, c), Join(t, Rev(t, j), lo))))
  {
    hide Rev, Pow2, Join;
    var y2 := Join(w, c, Join(t, r, hi));
    MirrorMiddle(t, w, c, r, hi);
    MirrorColumn(t, w, j, y2, hi, Rev(t, r), Rev(w, c));
    MirrorLow(t, w, lo, Join(t, j, y2), hi, Rev(t, r), Rev(w, c), Rev(t, j));
  }

  lemma MirrorRow(t: nat, r: nat, hi: nat)
    requires r < Pow2(t) && hi < 2
    ensures Join(t, r, hi) < Pow2(t + 1)
    ensures Rev(t + 1, Join(t, r, hi)) == Join(1, hi, Rev(t, r))
  {
    RevOne(hi);
    hide Rev, Pow2, Join;
    RevJoined(t, 1, r, hi);
  }

  lemma MirrorMiddle(t: nat, w: nat, c: nat, r: nat, hi: nat)
    requires c < Pow2(w) && r < Pow2(t) && hi < 2
    ensures Join(w, c, Join(t, r, hi)) < Pow2(w + (t + 1))
    ensures Rev(w + (t + 1), Join(w, c, Join(t, r, hi))) == Join(1, hi, Join(t, Rev(t, r), Rev(w, c)))
  {
    hide Rev, Pow2, Join;
    MirrorRow(t, r, hi);
    RevJoined(w, t + 1, c, Join(t, r, hi));
    JoinAssoc(1, t, hi, Rev(t, r), Rev(w, c));
    assert 1 + t == t + 1;
  }

  lemma MirrorColumn(t: nat, w: nat, j: nat, y: nat, hi: nat, rr: nat, rc: nat)
    requires j < Pow2(t) && y < Pow2(w + (t + 1)) && Rev(w + (t + 1), y) == Join(1, hi, Join(t, rr, rc))
    ensures Join(t, j, y) < Pow2(t + (w + (t + 1)))
    ensures Rev(t + (w + (t + 1)), Join(t, j, y)) == Join(1, hi, Join(t, rr, Join(w, rc, Rev(t, j))))
  {
    hide Rev, Pow2, Join;
    RevJoined(t, w + (t + 1), j, y);
    JoinAssoc(1, t + w, hi, Join(t, rr, rc), Rev(t, j));
    JoinAssoc(t, w, rr, rc, Rev(t, j));
    assert 1 + (t + w) == w + (t + 1);
  }

  lemma MirrorLow(t: nat, w: nat, lo: nat, y: nat, hi: nat, rr: nat, rc: nat, rj: nat)
    requires lo < 2 && y < Pow2(t + (w + (t + 1)))
    requires Rev(t + (w + (t + 1)), y) == Join(1, hi, Join(t, rr, Join(w, rc, rj)))
    ensures Join(1, lo, y) < Pow2(1 + (t + (w + (t + 1))))
    ensures Rev(1 + (t + (w + (t + 1))), Join(1, lo, y)) == Join(1, hi, Join(t, rr, Join(w, rc, Join(t, rj, lo))))
  {
    RevOne(lo);
    hide Rev, Pow2, Join;
    RevJoined(1, t + (w + (t + 1)), lo, y);
    JoinAssoc(1, t + (w + t), hi, Join(t, rr, Join(w, rc, rj)), lo);
    JoinAssoc(t, w + t, rr, Join(w, rc, rj), lo);
    JoinAssoc(w, t, rc, rj, lo);
    assert 1 + (t + (w + t)) == t + (w + (t + 1));
  }
}
