/** A numeric POCSAG page, read back digit by digit. */
module PocsagNumber {
  import opened BitRows
  import opened PocsagCode
  import opened PocsagPack
  import opened PocsagPage

  /** Four bits as a number, the least significant first. */
  function Value(bits: Row): (n: nat)
    requires |bits| == 4
    ensures n < 16
  {
    (if bits[0] then 1 else 0) + (if bits[1] then 2 else 0) + (if bits[2] then 4 else 0) + (if bits[3] then 8 else 0)
  }

  lemma ValueOf(bits: Row, d: nat)
    requires |bits| == 4 && d < 16 && forall b | 0 <= b < 4 :: bits[b] == NumberBit(d, b)
    ensures Value(bits) == d
  {
    assert bits[0] == NumberBit(d, 0) && bits[1] == NumberBit(d, 1) && bits[2] == NumberBit(d, 2)
           && bits[3] == NumberBit(d, 3);
  }

  /** The characters a receiver shows. */
  function ReadNumber(bits: Row): (r: seq<Octet>)
    ensures |r| == |bits| / 4
  {
    seq(|bits| / 4, k requires 0 <= k < |bits| / 4 => Digits()[Value(bits[4 * k..4 * k + 4])])
  }

  /** What is left of a text: a space for every character that is no digit of POCSAG,
      and spaces to fill the last codeword. */
  function Shown(str: seq<Octet>): (r: seq<Octet>)
    ensures |r| == 5 * CeilFive(|str|)
  {
    seq(5 * CeilFive(|str|), k requires 0 <= k < 5 * CeilFive(|str|) => Digits()[Digit(str, k)])
  }

  function Spaces(n: nat): (r: seq<Octet>)
    ensures |r| == n && forall i | 0 <= i < n :: r[i] == OctetOf(0x20)
  {
    seq(n, _ => OctetOf(0x20))
  }

  predicate Numeral(str: seq<Octet>) { forall k | 0 <= k < |str| :: str[k] in Digits() }

  /** bits is the page bit by bit. */
  ghost predicate Spells(bits: Row, str: seq<Octet>) { forall n | 0 <= n < |bits| :: bits[n] == DigitBit(str, n) }

  lemma NumberSpells(str: seq<Octet>)
    ensures var bits := Stream(MessageCodewords(Number(str)));
            |bits| == 20 * CeilFive(|str|) && Spells(bits, str)
  {
    NumberCodewords(Number(str), str);
    hide Stream, MessageCodewords, Number, DigitBit;
  }

  lemma BitAt(bits: Row, str: seq<Octet>, k: nat, b: nat)
    requires Spells(bits, str) && 4 * k + 4 <= |bits| && b < 4
    ensures bits[4 * k..4 * k + 4][b] == NumberBit(Digit(str, k), b)
  {
    var n: nat := 4 * k + b;
    hide NumberBit, Digit;
    assert bits[n] == DigitBit(str, n);
    assert n / 4 == k && n % 4 == b;
  }

  lemma NibbleOf(bits: Row, str: seq<Octet>, k: nat)
    requires Spells(bits, str) && 4 * k + 4 <= |bits|
    ensures Value(bits[4 * k..4 * k + 4]) == Digit(str, k)
  {
    hide *;
    forall b | 0 <= b < 4 ensures bits[4 * k..4 * k + 4][b] == NumberBit(Digit(str, k), b) {
      BitAt(bits, str, k, b);
    }
    ValueOf(bits[4 * k..4 * k + 4], Digit(str, k));
  }

  /** Every numeric text reads back as the digits that are left of it. */
  lemma NumberRoundTrip(str: seq<Octet>)
    ensures ReadNumber(Stream(MessageCodewords(Number(str)))) == Shown(str)
  {
    var bits := Stream(MessageCodewords(Number(str)));
    NumberSpells(str);
    hide Stream, MessageCodewords, Number, Digit, Value, Digits, Spells, CeilFive;
    forall k | 0 <= k < 5 * CeilFive(|str|) ensures ReadNumber(bits)[k] == Shown(str)[k] {
      NibbleOf(bits, str, k);
    }
  }

  lemma DigitShown(str: seq<Octet>, k: nat)
    ensures k < |str| ==> (Digits()[Digit(str, k)] == str[k] <==> str[k] in Digits())
    ensures k >= |str| ==> Digits()[Digit(str, k)] == OctetOf(0x20)
  {
    hide Find;
    if k < |str| && Find(Digits(), str[k]) >= 16 {
      assert str[k] !in Digits() by { assert Digits()[..16] == Digits(); }
    }
  }

  /** It comes back, with spaces to the next multiple of five, exactly if all its
      characters are digits of POCSAG. */
  lemma ShownIff(str: seq<Octet>)
    ensures |str| <= 5 * CeilFive(|str|)
    ensures Shown(str) == str + Spaces(5 * CeilFive(|str|) - |str|) <==> Numeral(str)
  {
    hide Digits, Digit;
    var padded := str + Spaces(5 * CeilFive(|str|) - |str|);
    forall k | 0 <= k < |padded|
      ensures Shown(str)[k] == padded[k] <==> (k < |str| ==> str[k] in Digits())
    {
      DigitShown(str, k);
    }
    if Shown(str) == padded {
      forall k | 0 <= k < |str| ensures str[k] in Digits() {
        assert Shown(str)[k] == padded[k];
      }
    }
  }

  datatype Reading = Unheard | Heard(address: Row, tone: nat, digits: seq<Octet>)

  function ReceiveNumber(slots: seq<Word32>): Reading {
    match ReadSlots(slots)
    case Nothing => Unheard
    case Paged(address, tone, words) => Heard(address, tone, ReadNumber(Stream(words)))
  }

  /** A numeric page is received as it was sent, but for spaces at the end, exactly if
      its address is not one that reads as the idle codeword and its text holds nothing
      but digits of POCSAG. */
  lemma NumberPageIff(ric: Word32, toneno: nat, str: seq<Octet>)
    requires toneno < 4 && forall i | 21 <= i < 32 :: !ric[i]
    ensures |str| <= 5 * CeilFive(|str|)
    ensures ReceiveNumber(Page(ric, toneno, Number(str)))
              == Heard(ric[..21], toneno, str + Spaces(5 * CeilFive(|str|) - |str|))
      <==> !Reserved(ric, toneno) && Numeral(str)
  {
    ReadPage(ric, toneno, Number(str));
    AddressIsIdleIff(ric, toneno);
    NumberRoundTrip(str);
    ShownIff(str);
    hide Page, Reserved, AddressCodeword, Idle, Stream, ReadNumber, MessageCodewords, Numeral, Shown, Number;
  }
}
