/** The text of a POCSAG page as words of 20 bits. */
module PocsagPack {
  import opened BitRows
  import opened PocsagCode

  /** A character as it is sent: seven bits, the least significant first. */
  function Char7(o: Octet): (c: Row)
    ensures |c| == 7
  {
    o[..7]
  }

  /** End of transmission, character 4. */
  function Eot(): (c: Row)
    ensures |c| == 7
  {
    [false, false, true, false, false, false, false]
  }

  /** Bit n of the text followed by end-of-transmission characters without end. */
  function TextBit(str: seq<Octet>, n: nat): bool {
    if n / 7 < |str| then str[n / 7][n % 7] else Eot()[n % 7]
  }

  /** Word i of the text: bits 19 to 0 are 20 bits of it, the earliest highest. */
  function TextWord(str: seq<Octet>, i: nat): (w: Word32)
    ensures forall b | 0 <= b < 32 :: w[b] == (b < 20 && TextBit(str, 20 * i + 19 - b))
  {
    seq(32, b requires 0 <= b < 32 => b < 20 && TextBit(str, 20 * i + 19 - b))
  }

  function TextWords(str: seq<Octet>): nat { 7 * (|str| + 1) / 20 + 1 }

  /** The loop state of ALPHA packing: acc holds bits pi*20 up to m of the text. */
  ghost predicate Packing(packed: seq<Word32>, acc: Word32, n: int, pi: nat, m: nat, str: seq<Octet>) {
    && |packed| == 100 && m == 20 * pi + 19 - n && 0 <= n <= 19
    && (forall i | 0 <= i < pi && i < 100 :: packed[i] == TextWord(str, i))
    && (forall b | n < b < 20 :: acc[b] == TextBit(str, 20 * pi + 19 - b))
    && (forall b | 0 <= b < 32 && (b <= n || b >= 20) :: !acc[b])
  }

  /** A bit of a character goes in; a full word goes out. */
  method PackBit(packed0: seq<Word32>, acc0: Word32, n0: int, pi0: nat, bit: bool, ghost m: nat, ghost str: seq<Octet>)
      returns (packed: seq<Word32>, acc: Word32, n: int, pi: nat)
    requires Packing(packed0, acc0, n0, pi0, m, str) && pi0 < 100 && bit == TextBit(str, m)
    ensures Packing(packed, acc, n, pi, m + 1, str)
  {
    packed, acc, n, pi := packed0, acc0, n0, pi0;
    if bit {
      acc := acc[n := true];
    }
    if n <= 0 {
      assert acc == TextWord(str, pi);
      packed := packed[pi := acc];
      pi := pi + 1;
      acc := Zero(32);
      n := 19;
    } else {
      n := n - 1;
    }
  }

  /** The seven bits of a character. */
  method PackChar(packed0: seq<Word32>, acc0: Word32, n0: int, pi0: nat, c: Row, ghost k: nat, ghost str: seq<Octet>)
      returns (packed: seq<Word32>, acc: Word32, n: int, pi: nat)
    requires Packing(packed0, acc0, n0, pi0, 7 * k, str) && 7 * k + 7 < 2000
    requires |c| >= 7 && forall j | 0 <= j < 7 :: c[j] == TextBit(str, 7 * k + j)
    ensures Packing(packed, acc, n, pi, 7 * k + 7, str)
  {
    packed, acc, n, pi := packed0, acc0, n0, pi0;
    var j := 0;
    while j < 7
      invariant 0 <= j <= 7 && Packing(packed, acc, n, pi, 7 * k + j, str)
    {
      packed, acc, n, pi := PackBit(packed, acc, n, pi, c[j], 7 * k + j, str);
      j := j + 1;
    }
  }

  /** The padding loops: more end-of-transmission characters until the word is full. */
  method PackRest(acc0: Word32, n0: int, ghost packed: seq<Word32>, ghost pi: nat, ghost str: seq<Octet>)
      returns (acc: Word32)
    requires Packing(packed, acc0, n0, pi, 7 * |str| + 7, str)
    ensures acc == TextWord(str, pi)
  {
    acc := acc0;
    var n := n0;
    var i := Eot();
    ghost var k := |str| + 1;
    while n >= 0
      invariant -1 <= n <= 19 && k > |str|
      invariant n >= 0 ==> 20 * pi + 19 - n == 7 * k
      invariant forall b | n < b < 20 :: acc[b] == TextBit(str, 20 * pi + 19 - b)
      invariant forall b | 0 <= b < 32 && (b <= n || b >= 20) :: !acc[b]
      decreases n
    {
      var j := 0;
      ghost var n1 := n;
      while j < 7
        invariant 0 <= j <= 7 && 0 <= n <= 19 && 20 * pi + 19 - n == 7 * k + j
        invariant n == n1 - j
        invariant forall b | n < b < 20 :: acc[b] == TextBit(str, 20 * pi + 19 - b)
        invariant forall b | 0 <= b < 32 && (b <= n || b >= 20) :: !acc[b]
      {
        assert TextBit(str, 7 * k + j) == Eot()[j];
        if i[j] {
          acc := acc[n := true];
        }
        n := n - 1;
        if n < 0 {
          break;
        }
        j := j + 1;
      }
      k := k + 1;
    }
    assert acc == TextWord(str, pi);
  }

  /** ALPHA packing. The C string ends at its first zero octet, so str holds none. */
  method PackAlpha(packed0: seq<Word32>, str: seq<Octet>) returns (packed: seq<Word32>, pi: nat)
    requires |packed0| == 100 && |str| <= 284
    ensures |packed| == 100 && pi == TextWords(str) && pi <= 100
    ensures forall i | 0 <= i < pi :: packed[i] == TextWord(str, i)
  {
    packed := packed0;
    var acc: Word32 := Zero(32);
    var n := 19;
    pi := 0;
    var idx := 0;
    while idx < |str|
      invariant 0 <= idx <= |str| && Packing(packed, acc, n, pi, 7 * idx, str)
    {
      packed, acc, n, pi := PackChar(packed, acc, n, pi, str[idx], idx, str);
      idx := idx + 1;
    }
    packed, acc, n, pi := PackChar(packed, acc, n, pi, Eot(), |str|, str);
    acc := PackRest(acc, n, packed, pi, str);
    packed := packed[pi := acc];
    pi := pi + 1;
  }

  // ------------------------------------------------------------------- NUMERIC

  /** nstr: 0 to 9, *, U, space, -, ( and ). */
  function Digits(): (d: seq<Octet>)
    ensures |d| == 16
  {
    [OctetOf(0x30), OctetOf(0x31), OctetOf(0x32), OctetOf(0x33), OctetOf(0x34), OctetOf(0x35),
     OctetOf(0x36), OctetOf(0x37), OctetOf(0x38), OctetOf(0x39), OctetOf(0x2a), OctetOf(0x55),
     OctetOf(0x20), OctetOf(0x2d), OctetOf(0x28), OctetOf(0x29)]
  }

  /** Bit b of a number below 16. */
  function NumberBit(i: nat, b: nat): bool {
    (if b == 0 then i else if b == 1 then i / 2 else if b == 2 then i / 4 else i / 8) % 2 == 1
  }

  /** The first place of c in s, or |s|. */
  function Find(s: seq<Octet>, c: Octet): (i: nat)
    ensures i <= |s| && c !in s[..i] && (i < |s| ==> s[i] == c)
  {
    if s == [] || s[0] == c then 0 else 1 + Find(s[1..], c)
  }

  lemma {:induction false} FindIs(s: seq<Octet>, c: Octet, i: nat)
    requires i <= |s| && c !in s[..i] && (i < |s| ==> s[i] == c)
    ensures Find(s, c) == i
  {
    if i > 0 {
      assert s[0] in s[..i] && s[..i][1..] == s[1..][..i - 1];
      FindIs(s[1..], c, i - 1);
    }
  }

  /** Digit k of a numeric page; any other character, and the filling of the last
      word, is a space. */
  function Digit(str: seq<Octet>, k: nat): (d: nat)
    ensures d < 16
  {
    if k < |str| && Find(Digits(), str[k]) < 16 then Find(Digits(), str[k]) else 12
  }

  /** Bit m of a numeric page: four bits a digit, the least significant first. */
  function DigitBit(str: seq<Octet>, m: nat): bool { NumberBit(Digit(str, m / 4), m % 4) }

  /** Bits 19 to 0 of word i are 20 bits of the page, the earliest highest. */
  ghost predicate NumericWord(w: Word32, str: seq<Octet>, i: nat) {
    forall b | 0 <= b < 20 :: w[b] == DigitBit(str, 20 * i + 19 - b)
  }

  method FindDigit(c: Octet) returns (i: nat)
    ensures i == Digit([c], 0)
  {
    var nstr := Digits();
    hide Digits;
    i := 0;
    while i < 16 && nstr[i] != c
      invariant 0 <= i <= 16 && c !in nstr[..i]
    {
      i := i + 1;
    }
    FindIs(nstr, c, i);
    if i == 16 {
      i := 12;
    }
  }

  /** The bits of a number below 16, reversed: the four lines that compute x. */
  function Reversed(i: nat): (x: Row)
    ensures |x| == 4 && forall b | 0 <= b < 4 :: x[b] == NumberBit(i, 3 - b)
  {
    [NumberBit(i, 3), NumberBit(i, 2), NumberBit(i, 1), NumberBit(i, 0)]
  }

  /** n digits of word i are in. */
  ghost predicate HoldsDigits(w: Word32, str: seq<Octet>, i: nat, n: nat) {
    n <= 5 && forall b | 0 <= b < 4 * n :: HoldsBit(w, str, i, n, b)
  }

  ghost predicate HoldsBit(w: Word32, str: seq<Octet>, i: nat, n: nat, b: nat)
    requires n <= 5 && b < 4 * n
  {
    w[b] == DigitBit(str, 20 * i + 4 * n - 1 - b)
  }

  /** `(packed[pi] << 4) + x` */
  function DigitIn(w: Word32, d: nat): Word32 { Reversed(d) + w[..28] }

  /** The digits that are there move up and one comes in below. */
  lemma OneDigitMore(w: Word32, str: seq<Octet>, i: nat, n: nat)
    requires n < 5 && HoldsDigits(w, str, i, n)
    ensures HoldsDigits(DigitIn(w, Digit(str, 5 * i + n)), str, i, n + 1)
  {
    hide *;
    var d, m := Digit(str, 5 * i + n), n + 1;
    forall b | 0 <= b < 4 * m ensures HoldsBit(DigitIn(w, d), str, i, m, b) {
      if b < 4 {
        DigitComes(w, str, i, n, b);
      } else {
        DigitMoves(w, str, i, n, b - 4);
      }
    }
    HoldsAll(DigitIn(w, d), str, i, m);
  }

  lemma WordHeld(w: Word32, str: seq<Octet>, i: nat)
    ensures HoldsDigits(w, str, i, 0) && (HoldsDigits(w, str, i, 5) ==> NumericWord(w, str, i))
  {
    hide DigitBit;
    if HoldsDigits(w, str, i, 5) {
      forall b | 0 <= b < 20 ensures w[b] == DigitBit(str, 20 * i + 19 - b) { assert HoldsBit(w, str, i, 5, b); }
    }
  }

  lemma HoldsAll(w: Word32, str: seq<Octet>, i: nat, n: nat)
    requires n <= 5 && forall b | 0 <= b < 4 * n :: HoldsBit(w, str, i, n, b)
    ensures HoldsDigits(w, str, i, n)
  {
    hide HoldsBit;
  }

  lemma DigitComes(w: Word32, str: seq<Octet>, i: nat, n: nat, b: nat)
    requires b < 4 && n < 5
    ensures HoldsBit(DigitIn(w, Digit(str, 5 * i + n)), str, i, n + 1, b)
  {
    DigitInBits(w, Digit(str, 5 * i + n));
    hide DigitIn, Digit, NumberBit, DigitBit;
    DigitBitAt(str, 5 * i + n, 3 - b);
    assert 20 * i + 4 * (n + 1) - 1 - b == 4 * (5 * i + n) + (3 - b);
  }

  lemma DigitMoves(w: Word32, str: seq<Octet>, i: nat, n: nat, b: nat)
    requires HoldsDigits(w, str, i, n) && b < 4 * n && n < 5
    ensures HoldsBit(DigitIn(w, Digit(str, 5 * i + n)), str, i, n + 1, b + 4)
  {
    assert HoldsBit(w, str, i, n, b);
    DigitInBits(w, Digit(str, 5 * i + n));
    hide DigitIn, Digit, DigitBit, HoldsDigits;
    assert 20 * i + 4 * (n + 1) - 1 - (b + 4) == 20 * i + 4 * n - 1 - b;
  }

  lemma DigitBitAt(str: seq<Octet>, k: nat, r: nat)
    requires r < 4
    ensures DigitBit(str, 4 * k + r) == NumberBit(Digit(str, k), r)
  {
    DigitPlace(k, r);
    hide NumberBit, Digit;
  }

  lemma DigitInBits(w: Word32, d: nat)
    ensures forall b | 0 <= b < 4 :: DigitIn(w, d)[b] == NumberBit(d, 3 - b)
    ensures forall b | 4 <= b < 32 :: DigitIn(w, d)[b] == w[b - 4]
  {}

  lemma DigitPlace(k: nat, r: nat)
    requires r < 4
    ensures (4 * k + r) / 4 == k && (4 * k + r) % 4 == r
  {}

  function CeilFive(size: nat): nat { if size % 5 == 0 then size / 5 else size / 5 + 1 }

  /** NUMERIC packing: whatever packed held before, the low 20 bits of every word
      are five digits of the page. */
  method PackNumeric(packed0: seq<Word32>, str: seq<Octet>) returns (packed: seq<Word32>, mylen: nat)
    requires |packed0| == 100 && |str| <= 500
    ensures |packed| == 100 && mylen == CeilFive(|str|) && mylen <= 100
    ensures forall i | 0 <= i < mylen :: NumericWord(packed[i], str, i)
  {
    hide Reversed, DigitIn, NumberBit, DigitBit, Find, HoldsDigits, NumericWord;
    packed := packed0;
    var size := |str|;
    var mysize := if size % 5 == 0 then size else (size / 5 + 1) * 5;
    var idx, pi := 0, 0;
    WordHeld(packed[0], str, 0);
    while idx < mysize
      invariant 0 <= idx <= mysize && pi == idx / 5 && |packed| == 100
      invariant forall i | 0 <= i < pi :: NumericWord(packed[i], str, i)
      invariant pi < 100 ==> HoldsDigits(packed[pi], str, pi, idx % 5)
    {
      OneDigitMore(packed[pi], str, pi, idx % 5);
      var d := 12;
      if idx < size {
        d := FindDigit(str[idx]);
      }
      packed := packed[pi := DigitIn(packed[pi], d)];
      WordHeld(packed[pi], str, pi);
      if pi + 1 < 100 {
        WordHeld(packed[pi + 1], str, pi + 1);
      }
      assert HoldsDigits(packed[pi], str, pi, idx % 5 + 1);
      idx := idx + 1;
      pi := if idx % 5 != 0 then pi else pi + 1;
    }
    mylen := mysize / 5;
  }
}
