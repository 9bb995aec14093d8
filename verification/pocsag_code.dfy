/** The codewords of POCSAG: 21 bits of message, ten check bits, one parity bit
    (Recommendation ITU-R M.584-2, Annex 1). */
module PocsagCode {
  import opened BitRows

  type Word32 = r: Row | |r| == 32 witness seq(32, _ => false)

  /** 0xED200000 */
  function Generator(): (g: Word32)
    ensures forall k | 0 <= k < 32 :: g[31 - k] == Tap(k)
  {
    seq(32, i => Tap(31 - i))
  }

  /** The generator polynomial, highest coefficient first:
      x^10 + x^9 + x^8 + x^6 + x^5 + x^3 + 1. */
  predicate Tap(k: int) { k == 0 || k == 1 || k == 2 || k == 4 || k == 5 || k == 7 || k == 10 }

  /** One turn of the division loop. */
  function Turn(r: Word32): Word32 {
    Shl(if r[31] then Xor(r, Generator()) else r)
  }

  function Divide(w: Word32, n: nat): Word32 {
    if n == 0 then w else Turn(Divide(w, n - 1))
  }

  // ------------------------------------------------- what the division computes

  function At(q: Row, i: int): bool { 0 <= i < |q| && q[i] }

  /** Coefficient m of the quotient times the generator. */
  function Product(q: Row, m: int): bool {
    (At(q, m) != At(q, m - 1)) != (At(q, m - 2) != (At(q, m - 4) != (At(q, m - 5) != (At(q, m - 7) != At(q, m - 10)))))
  }

  /** Coefficient m of a word, highest first. */
  function Coef(w: Word32, m: int): bool { 0 <= m < 32 && w[31 - m] }

  /** After n turns the register holds what is left of w. */
  ghost predicate Quotient(w: Word32, q: Row, n: nat) {
    && |q| == n
    && (forall i | 0 <= i < 32 :: Divide(w, n)[i] == (Coef(w, 31 - i + n) != Product(q, 31 - i + n)))
    && (forall m | 0 <= m < n :: Coef(w, m) == Product(q, m))
  }

  lemma ProductMore(q: Row, b: bool, m: int)
    ensures Product(q + [b], m) == (Product(q, m) != (b && Tap(m - |q|)))
  {
    AtMore(q, b, m);
    AtMore(q, b, m - 1);
    AtMore(q, b, m - 2);
    AtMore(q, b, m - 4);
    AtMore(q, b, m - 5);
    AtMore(q, b, m - 7);
    AtMore(q, b, m - 10);
    hide At;
  }

  lemma AtMore(q: Row, b: bool, i: int)
    ensures At(q + [b], i) == (At(q, i) != (b && i == |q|))
  {}

  /** The product has no coefficients beyond its degree. */
  lemma ProductEnds(q: Row, m: int)
    requires m < 0 || m >= |q| + 10
    ensures !Product(q, m)
  {}

  /** n turns of the loop divide by the generator. */
  lemma {:induction false} DivideIs(w: Word32, n: nat) returns (q: Row)
    ensures Quotient(w, q, n)
  {
    if n == 0 {
      q := [];
      forall m ensures !Product([], m) { }
    } else {
      var p := DivideIs(w, n - 1);
      q := p + [Divide(w, n - 1)[31]];
      DivideStep(w, p, n - 1);
    }
  }

  lemma TurnIs(r: Word32, i: nat)
    requires i < 32
    ensures Turn(r)[i] == (i > 0 && (r[i - 1] != (r[31] && Tap(32 - i))))
  {
    if i > 0 {
      assert Generator()[31 - (32 - i)] == Tap(32 - i);
    }
  }

  lemma DivideStep(w: Word32, p: Row, n: nat)
    requires Quotient(w, p, n)
    ensures Quotient(w, p + [Divide(w, n)[31]], n + 1)
  {
    var r := Divide(w, n);
    var q := p + [r[31]];
    var s := Divide(w, n + 1);
    forall i | 0 <= i < 32 ensures s[i] == (Coef(w, 32 - i + n) != Product(q, 32 - i + n)) {
      TurnIs(r, i);
      ProductMore(p, r[31], 32 - i + n);
      ProductEnds(q, 32 + n);
    }
    forall m | 0 <= m < n + 1 ensures Coef(w, m) == Product(q, m) {
      ProductMore(p, r[31], m);
    }
  }

  // ------------------------------------------------------------------ codewords

  /** A word with 21 bits of message and nothing else. */
  predicate Message(w: Word32) { forall i | 0 <= i < 11 :: !w[i] }

  /** The ten bits that are left after 21 turns, as bits 1 to 10. */
  function Checked(w: Word32): (c: Word32)
    ensures c[11..] == w[11..] && !c[0]
  {
    [false] + Divide(w, 21)[22..] + w[11..]
  }

  function Codeword(w: Word32): (c: Word32)
    ensures c[11..] == w[11..]
  {
    Checked(w)[0 := Ones(Checked(w)) % 2 == 1]
  }

  /** A multiple of the generator in bits 31 to 1, and an even number of ones. */
  ghost predicate Divisible(c: Word32) {
    exists q: Row :: |q| == 21 && Multiple(c, q)
  }

  ghost predicate Multiple(c: Word32, q: Row) {
    forall i | 1 <= i < 32 :: c[i] == Product(q, 31 - i)
  }

  ghost predicate Valid(c: Word32) { Divisible(c) && Ones(c) % 2 == 0 }

  lemma CheckedDivisible(w: Word32) returns (q: Row)
    requires Message(w)
    ensures |q| == 21 && Multiple(Checked(w), q)
    ensures !Divide(w, 21)[21]
  {
    q := DivideIs(w, 21);
    var c := Checked(w);
    ProductEnds(q, 31);
    hide Product;
    assert Divide(w, 21)[21] == (Coef(w, 31) != Product(q, 31));
    forall i | 1 <= i < 32 ensures c[i] == Product(q, 31 - i) {
      if i < 11 {
        assert c[i] == Divide(w, 21)[21 + i];
        assert !Coef(w, 31 - i) by { assert !w[i]; }
      } else {
        assert c[i] == w[i] == Coef(w, 31 - i);
      }
    }
  }

  lemma FirstOnes(c: Row, b: bool)
    requires |c| > 0
    ensures Ones(c[0 := b]) == Ones(c) + (if b then 1 else 0) - (if c[0] then 1 else 0)
  {
    assert c[0 := b][1..] == c[1..];
  }

  /** Every codeword is a multiple of the generator and has even parity. */
  lemma CodewordValid(w: Word32)
    requires Message(w)
    ensures Valid(Codeword(w))
  {
    var q := CheckedDivisible(w);
    var c := Checked(w);
    FirstOnes(c, Ones(c) % 2 == 1);
    hide Checked, Ones, Product;
    assert Multiple(Codeword(w), q);
  }

  // ----------------------------------------------------------------- uniqueness

  lemma {:induction false} QuotientUnique(p: Row, q: Row, n: nat)
    requires |p| == |q| && n <= |p|
    requires forall m | 0 <= m < n :: Product(p, m) == Product(q, m)
    ensures forall i | 0 <= i < n :: p[i] == q[i]
  {
    if n > 0 {
      QuotientUnique(p, q, n - 1);
      assert Product(p, n - 1) == Product(q, n - 1);
    }
  }

  lemma {:induction false} SameBits(a: Row, b: Row, i: nat)
    requires |a| == |b| && i < |a| && a[i] != b[i] && forall j | 0 <= j < |a| && j != i :: a[j] == b[j]
    ensures Ones(a) % 2 != Ones(b) % 2
  {
    if i == 0 {
      assert a[1..] == b[1..];
    } else {
      SameBits(a[1..], b[1..], i - 1);
    }
  }

  /** The message determines the codeword: of the words with these 21 bits exactly
      one is valid, the one the generator computes. */
  lemma ValidIff(c: Word32, w: Word32)
    requires Message(w) && c[11..] == w[11..]
    ensures Valid(c) <==> c == Codeword(w)
  {
    CodewordValid(w);
    if Valid(c) {
      var d := Codeword(w);
      var p: Row :| |p| == 21 && Multiple(c, p);
      var q: Row :| |q| == 21 && Multiple(d, q);
      hide Codeword, Ones;
      forall m | 0 <= m < 21 ensures Product(p, m) == Product(q, m) {
        hide Product;
        assert c[31 - m] == c[11..][20 - m] && d[31 - m] == d[11..][20 - m];
      }
      QuotientUnique(p, q, 21);
      assert p == q;
      hide Product;
      if c[0] != d[0] {
        SameBits(c, d, 0);
      }
      assert c == d;
    }
  }

  // ------------------------------------------------------------------ the loops

  /** After 21 turns the remainder, shifted right by 21 bits, fills the room below the message. */
  lemma CheckedByOr(w: Word32)
    requires Message(w)
    ensures Or(w, Divide(w, 21)[21..] + Zero(21)) == Checked(w)
  {
    var quot := CheckedDivisible(w);
    hide Divide;
  }

  lemma CodewordParity(w: Word32)
    ensures var c := Checked(w); Codeword(w) == if Ones(c) % 2 == 1 then c[0 := true] else c
  {}

  /** The 21 turns of do_parity_stuff. */
  method Remainder(word: Word32) returns (codeword: Word32)
    ensures codeword == Divide(word, 21)
  {
    hide Generator, Xor, Shl;
    codeword := word;
    var i := 1;
    while i <= 21
      invariant 1 <= i <= 22 && codeword == Divide(word, i - 1)
    {
      if codeword[31] {
        codeword := Xor(codeword, Generator());
      }
      codeword := Shl(codeword);
      i := i + 1;
    }
  }

  method DoParityStuff(word: Word32) returns (r: Word32)
    requires Message(word)
    ensures r == Codeword(word)
  {
    var codeword := Remainder(word);
    CheckedByOr(word);
    CodewordParity(word);
    hide *;
    r := Or(word, codeword[21..] + Zero(21));
    var p := CountOnes(r);
    if p % 2 == 1 {
      r := r[0 := true];
    }
  }

  function Or(a: Row, b: Row): (r: Row)
    requires |a| == |b|
    ensures |r| == |a| && forall i | 0 <= i < |r| :: r[i] == (a[i] || b[i])
  {
    seq(|a|, i requires 0 <= i < |a| => a[i] || b[i])
  }

  /** The word shifted out at the top, its ones counted. */
  method CountOnes(word: Word32) returns (p: nat)
    ensures p == Ones(word)
  {
    var codeword := word;
    p := 0;
    var i := 1;
    while i <= 32
      invariant 1 <= i <= 33
      invariant codeword == Zero(i - 1) + word[..33 - i]
      invariant p == Ones(word[33 - i..])
    {
      if codeword[31] {
        p := p + 1;
      }
      assert word[32 - i..] == [word[32 - i]] + word[33 - i..];
      assert codeword[31] == word[32 - i];
      codeword := Shl(codeword);
      i := i + 1;
    }
    assert word[0..] == word;
  }
}
