/** Machine words as rows of bits, least significant bit first.  Every width the
    source uses (octets, 32-bit and wider registers) is a row of that length. */
module BitRows {

  type Row = seq<bool>
  type Octet = r: Row | |r| == 8 witness seq(8, _ => false)

  function Zero(n: nat): (r: Row)
    ensures |r| == n && forall i | 0 <= i < n :: !r[i]
  {
    seq(n, _ => false)
  }

  predicate Has(n: bv8, mask: bv8) { n & mask != 0 }

  /** An octet written as a number. */
  function OctetOf(n: bv8): Octet {
    [Has(n, 0x01), Has(n, 0x02), Has(n, 0x04), Has(n, 0x08), Has(n, 0x10), Has(n, 0x20), Has(n, 0x40), Has(n, 0x80)]
  }

  function Xor(a: Row, b: Row): (r: Row)
    requires |a| == |b|
    ensures |r| == |a| && forall i | 0 <= i < |r| :: r[i] == (a[i] != b[i])
  {
    seq(|a|, i requires 0 <= i < |a| => a[i] != b[i])
  }

  function And(a: Row, b: Row): (r: Row)
    requires |a| == |b|
    ensures |r| == |a| && forall i | 0 <= i < |r| :: r[i] == (a[i] && b[i])
  {
    seq(|a|, i requires 0 <= i < |a| => a[i] && b[i])
  }

  function Not(a: Row): (r: Row)
    ensures |r| == |a| && forall i | 0 <= i < |r| :: r[i] == !a[i]
  {
    seq(|a|, i requires 0 <= i < |a| => !a[i])
  }

  /** `<<= 1` within the width of the word. */
  function Shl(a: Row): (r: Row)
    requires |a| > 0
    ensures |r| == |a| && !r[0] && forall i | 0 < i < |r| :: r[i] == a[i - 1]
  {
    [false] + a[..|a| - 1]
  }

  /** The bits of a row of octets, in order. */
  function Bits(data: seq<Octet>): (r: Row)
    ensures |r| == 8 * |data|
    ensures forall p | 0 <= p < |r| :: r[p] == data[p / 8][p % 8]
  {
    seq(8 * |data|, p requires 0 <= p < 8 * |data| => data[p / 8][p % 8])
  }

  /** Octet i of a row of bits. */
  function OctetAt(r: Row, i: nat): (o: Octet)
    requires 8 * i + 8 <= |r|
    ensures forall j | 0 <= j < 8 :: o[j] == r[8 * i + j]
  {
    r[8 * i..8 * i + 8]
  }

  lemma OctetOfBits(s: seq<Octet>, i: nat)
    requires i < |s|
    ensures OctetAt(Bits(s), i) == s[i]
  {
    forall j | 0 <= j < 8 ensures OctetAt(Bits(s), i)[j] == s[i][j] {
      assert (8 * i + j) / 8 == i && (8 * i + j) % 8 == j;
    }
  }

  lemma SameOctets(s: seq<Octet>, r: Row)
    requires |r| == 8 * |s| && forall i | 0 <= i < |s| :: s[i] == OctetAt(r, i)
    ensures Bits(s) == r
  {
    forall n | 0 <= n < |r| ensures Bits(s)[n] == r[n] {
      assert n == 8 * (n / 8) + n % 8;
      assert s[n / 8] == OctetAt(r, n / 8);
    }
  }

  lemma BitsJoin(s: seq<Octet>, t: seq<Octet>)
    ensures Bits(s + t) == Bits(s) + Bits(t)
  {
    forall n | 0 <= n < 8 * |s + t| ensures Bits(s + t)[n] == (Bits(s) + Bits(t))[n] {
      if n >= 8 * |s| {
        var m := n - 8 * |s|;
        assert n / 8 == m / 8 + |s| && n % 8 == m % 8;
      }
    }
  }

  // ---------------------------------------------------------------- population

  function Ones(a: Row): nat {
    if a == [] then 0 else (if a[0] then 1 else 0) + Ones(a[1..])
  }

  /** `n - 1`, with borrow, within the width of the word. */
  function Decrement(a: Row): (r: Row)
    ensures |r| == |a|
  {
    if a == [] then [] else if a[0] then [false] + a[1..] else [true] + Decrement(a[1..])
  }

  function Value(a: Row): nat {
    if a == [] then 0 else (if a[0] then 1 else 0) + 2 * Value(a[1..])
  }

  /** Decrement is subtraction of one. */
  lemma {:induction false} DecrementValue(a: Row)
    requires Value(a) > 0
    ensures Value(Decrement(a)) == Value(a) - 1
  {
    var d := Decrement(a);
    if a[0] {
      assert d[1..] == a[1..];
    } else {
      DecrementValue(a[1..]);
      assert d[1..] == Decrement(a[1..]);
    }
  }

  /** `n & (n - 1)` has one bit less. */
  lemma {:induction false} DropLowest(a: Row)
    requires exists k :: 0 <= k < |a| && a[k]
    ensures Ones(And(a, Decrement(a))) == Ones(a) - 1 && Ones(a) > 0
  {
    var d := And(a, Decrement(a));
    if a[0] {
      assert d[1..] == a[1..];
    } else {
      var k :| 0 <= k < |a| && a[k];
      assert a[1..][k - 1];
      DropLowest(a[1..]);
      assert d[1..] == And(a[1..], Decrement(a[1..]));
    }
  }

  lemma {:induction false} OnesOfZero(n: nat)
    ensures Ones(Zero(n)) == 0
  {
    if n > 0 {
      assert Zero(n)[1..] == Zero(n - 1);
      OnesOfZero(n - 1);
    }
  }

  lemma {:induction false} OnesOfNot(a: Row)
    ensures Ones(a) + Ones(Not(a)) == |a|
  {
    if a != [] {
      assert Not(a)[1..] == Not(a[1..]);
      OnesOfNot(a[1..]);
    }
  }

  lemma {:induction false} OnesJoin(a: Row, b: Row)
    ensures Ones(a + b) == Ones(a) + Ones(b)
  {
    if a == [] {
      assert a + b == b;
    } else {
      assert (a + b)[1..] == a[1..] + b;
      OnesJoin(a[1..], b);
    }
  }

  function Count(o: Octet): nat {
    (if o[0] then 1 else 0) + (if o[1] then 1 else 0) + (if o[2] then 1 else 0) + (if o[3] then 1 else 0) +
    (if o[4] then 1 else 0) + (if o[5] then 1 else 0) + (if o[6] then 1 else 0) + (if o[7] then 1 else 0)
  }

  lemma CountOctet(o: Octet)
    ensures Ones(o) == Count(o)
  {
    OnesFrom(o, 7);
    OnesFrom(o, 6);
    OnesFrom(o, 5);
    OnesFrom(o, 4);
    OnesFrom(o, 3);
    OnesFrom(o, 2);
    OnesFrom(o, 1);
    OnesFrom(o, 0);
    assert o[8..] == [] && o[0..] == o;
  }

  lemma OnesFrom(a: Row, i: nat)
    requires i < |a|
    ensures Ones(a[i..]) == (if a[i] then 1 else 0) + Ones(a[i + 1..])
  {
    assert a[i..][1..] == a[i + 1..];
  }
}
