/** Bit reversal of numbers, and the way fftsg.c splits an index into fields. */
module FftBits {

  function Pow2(t: nat): (p: nat)
    ensures p >= 1
  {
    if t == 0 then 1 else 2 * Pow2(t - 1)
  }

  /** x in the low a bits, y above them. */
  function Join(a: nat, x: nat, y: nat): nat { x + Pow2(a) * y }

  /** Bit i of k. */
  function Bit(k: nat, i: nat): nat { k / Pow2(i) % 2 }

  /** The t-bit reversal of k, by its top bit. */
  function Rev(t: nat, k: nat): (r: nat)
    requires k < Pow2(t)
    ensures r < Pow2(t)
  {
    if t == 0 then 0
    else if k < Pow2(t - 1) then 2 * Rev(t - 1, k)
    else 2 * Rev(t - 1, k - Pow2(t - 1)) + 1
  }

  lemma {:induction false} Pow2Add(a: nat, b: nat)
    ensures Pow2(a + b) == Pow2(a) * Pow2(b)
  {
    if a > 0 { Pow2Add(a - 1, b); }
  }

  lemma DivMod(s: nat, y: nat, z: nat)
    requires y < s
    ensures (y + s * z) / s == z && (y + s * z) % s == y
  {
    if z > 0 {
      assert y + s * z == (y + s * (z - 1)) + s;
      DivMod(s, y, z - 1);
      DivShift(s, y + s * (z - 1));
    }
  }

  lemma DivShift(s: nat, x: nat)
    requires s > 0
    ensures (x + s) / s == x / s + 1 && (x + s) % s == x % s
  {
    var q, r := x / s, x % s;
    assert x == s * q + r;
    Unique(s, x + s, q + 1, r);
  }

  lemma AtLeast(s: int, d: int)
    requires s >= 0
    ensures d >= 1 ==> s * d >= s
    ensures d <= -1 ==> s * d <= 0 - s
  {}

  lemma Spread(s: int, y: int, z: int)
    ensures s * (y + z) == s * y + s * z
  {}

  lemma Group(s: int, y: int, z: int)
    ensures s * (y * z) == s * y * z
  {}

  lemma Unique(s: nat, x: nat, q: int, r: nat)
    requires r < s && x == s * q + r
    ensures x / s == q && x % s == r
  {
    var d := x / s - q;
    assert x == s * (x / s) + x % s;
    assert s * d == r - x % s;
    AtLeast(s, d);
  }

  lemma Below(s: nat, n: nat, x: nat, y: nat)
    requires x < s && y < n
    ensures x + s * y < s * n
  {
    Spread(s, y, n - y);
    AtLeast(s, n - y);
  }

  /** The top bit of an index becomes the bottom bit. */
  lemma RevTop(t: nat, rest: nat, b: nat)
    requires rest < Pow2(t) && b < 2
    ensures rest + Pow2(t) * b < Pow2(t + 1)
    ensures Rev(t + 1, rest + Pow2(t) * b) == 2 * Rev(t, rest) + b
  {
    assert Pow2(t + 1) == 2 * Pow2(t);
    assert b == 0 || b == 1;
  }

  /** The top bit in terms of fields. */
  lemma RevTopJoin(t: nat, rest: nat, b: nat)
    requires rest < Pow2(t) && b < 2
    ensures Join(t, rest, b) < Pow2(t + 1)
    ensures Rev(t + 1, Join(t, rest, b)) == Join(1, b, Rev(t, rest))
  {
    RevTop(t, rest, b);
    RevOne(b);
  }

  /** Every number of t + 1 bits has a top bit. */
  lemma SplitTop(t: nat, k: nat) returns (rest: nat, b: nat)
    requires k < Pow2(t + 1)
    ensures rest < Pow2(t) && b < 2 && k == Join(t, rest, b)
  {
    b := if k < Pow2(t) then 0 else 1;
    rest := k - Pow2(t) * b;
  }

  lemma JoinAssoc(a: nat, b: nat, x: nat, y: nat, z: nat)
    ensures Join(a + b, Join(a, x, y), z) == Join(a, x, Join(b, y, z))
  {
    Pow2Add(a, b);
    Spread(Pow2(a), y, Pow2(b) * z);
    Group(Pow2(a), Pow2(b), z);
  }

  lemma JoinNothing(a: nat, x: nat)
    ensures Join(a, x, 0) == x && Pow2(0) == 1 && Join(0, 0, x) == x
  {}

  lemma JoinBound(a: nat, b: nat, x: nat, y: nat)
    requires x < Pow2(a) && y < Pow2(b)
    ensures Join(a, x, y) < Pow2(a + b)
  {
    Pow2Add(a, b);
    Below(Pow2(a), Pow2(b), x, y);
  }

  /** Concatenation: the low and high fields swap places, each reversed. */
  lemma {:induction false} RevJoined(a: nat, b: nat, x: nat, y: nat)
    requires x < Pow2(a) && y < Pow2(b)
    ensures Join(a, x, y) < Pow2(a + b)
    ensures Rev(a + b, Join(a, x, y)) == Join(b, Rev(b, y), Rev(a, x))
    decreases b
  {
    JoinBound(a, b, x, y);
    if b == 0 {
      JoinNothing(a, x);
      JoinNothing(0, Rev(a, x));
      assert y == 0 && Rev(0, 0) == 0;
    } else {
      var n := b - 1;
      hide Rev, Pow2, Join;
      var z, c := SplitTop(n, y);
      RevTopJoin(n, z, c);
      RevJoined(a, n, x, z);
      JoinAssoc(a, n, x, z, c);
      RevTopJoin(a + n, Join(a, x, z), c);
      JoinAssoc(1, n, c, Rev(n, z), Rev(a, x));
      assert a + n + 1 == a + b && 1 + n == b;
    }
  }

  lemma JoinParts(a: nat, x: nat, y: nat)
    requires x < Pow2(a)
    ensures Join(a, x, y) % Pow2(a) == x && Join(a, x, y) / Pow2(a) == y
  {
    DivMod(Pow2(a), x, y);
  }

  /** Reversing twice is the identity. */
  lemma {:induction false} RevTwice(t: nat, k: nat)
    requires k < Pow2(t)
    ensures Rev(t, Rev(t, k)) == k
  {
    if t > 0 {
      var n := t - 1;
      var rest, b := SplitTop(n, k);
      RevTwice(n, rest);
      RevOne(b);
      hide Rev, Pow2, Join;
      RevTopJoin(n, rest, b);
      RevJoined(1, n, b, Rev(n, rest));
      assert 1 + n == t;
    }
  }

  lemma RevOne(b: nat)
    requires b < 2
    ensures Pow2(1) == 2 && Rev(1, b) == b
  {
    assert Pow2(0) == 1;
  }

  lemma RevTwoBits()
    ensures Pow2(2) == 4 && Rev(2, 0) == 0 && Rev(2, 1) == 2 && Rev(2, 2) == 1 && Rev(2, 3) == 3
  {
    RevOne(0);
    RevOne(1);
  }

  /** What Rev means: bit i of the result is bit t - 1 - i of the argument. */
  lemma {:induction false} RevBits(t: nat, k: nat, i: nat)
    requires k < Pow2(t) && i < t
    ensures Bit(Rev(t, k), i) == Bit(k, t - 1 - i)
  {
    hide Rev, Pow2, Join, Bit;
    var n := t - 1;
    var rest, b := SplitTop(n, k);
    RevTopJoin(n, rest, b);
    var r := Rev(n, rest);
    if i == 0 {
      BitEnds(n, rest, b, r);
    } else {
      RevBits(n, rest, i - 1);
      BitAbove(b, r, i);
      LowBit(rest, b, t - 1 - i, n);
    }
  }

  lemma BitEnds(n: nat, rest: nat, b: nat, r: nat)
    requires rest < Pow2(n) && b < 2
    ensures Bit(Join(1, b, r), 0) == b && Bit(Join(n, rest, b), n) == b
  {
    BottomBit(b, r);
    TopBit(n, rest, b);
    hide *;
  }

  lemma BottomBit(b: nat, r: nat)
    requires b < 2
    ensures Bit(Join(1, b, r), 0) == b
  {
    assert Pow2(0) == 1 && Pow2(1) == 2;
    assert Join(1, b, r) == b + 2 * r;
    hide *;
  }

  lemma TopBit(n: nat, rest: nat, b: nat)
    requires rest < Pow2(n) && b < 2
    ensures Bit(Join(n, rest, b), n) == b
  {
    DivMod(Pow2(n), rest, b);
    hide Pow2;
  }

  lemma BitAbove(b: nat, r: nat, i: nat)
    requires b < 2 && i > 0
    ensures Bit(Join(1, b, r), i) == Bit(r, i - 1)
  {
    RevOne(b);
    DivTwice(b, r, Pow2(i - 1));
  }

  lemma DivTwice(b: nat, r: nat, s: nat)
    requires b < 2 && s > 0
    ensures (b + 2 * r) / (2 * s) == r / s
  {
    var q, e := r / s, r % s;
    assert r == s * q + e;
    assert b + 2 * r == (2 * s) * q + (b + 2 * e);
    Unique(2 * s, b + 2 * r, q, b + 2 * e);
  }

  /** A bit below the top one does not depend on the top one. */
  lemma LowBit(rest: nat, b: nat, i: nat, n: nat)
    requires rest < Pow2(n) && i < n && b < 2
    ensures Bit(Join(n, rest, b), i) == Bit(rest, i)
  {
    Pow2Add(i + 1, n - 1 - i);
    LowBitOf(Pow2(i), Pow2(n - 1 - i), rest, b);
    assert Pow2(i + 1) == 2 * Pow2(i) && i + 1 + (n - 1 - i) == n;
    hide Pow2;
  }

  lemma LowBitOf(s: nat, u: nat, rest: nat, b: nat)
    requires s > 0
    ensures (rest + (2 * s) * u * b) / s % 2 == rest / s % 2
  {
    Group(2 * s, u, b);
    Group(s, 2, u * b);
    AddMultiple(rest, s, u * b);
    calc {
      (2 * s) * u * b;
      (2 * s) * (u * b);
      s * (2 * (u * b));
    }
  }

  lemma AddMultiple(x: nat, s: nat, z: nat)
    requires s > 0
    ensures (x + s * (2 * z)) / s % 2 == x / s % 2
  {
    var q, e := x / s, x % s;
    assert x == s * q + e;
    Spread(s, q, 2 * z);
    Unique(s, x + s * (2 * z), q + 2 * z, e);
  }
}
