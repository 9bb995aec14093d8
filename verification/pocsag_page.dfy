/** Where the codewords of a POCSAG page stand, and how they are read back. */
module PocsagPage {
  import opened BitRows
  import opened PocsagCode
  import opened PocsagPack

  // ----------------------------------------------------------------- codewords

  /** 0x7A89C197 */
  function Idle(): Word32 { OctetOf(0x97) + OctetOf(0xc1) + OctetOf(0x89) + OctetOf(0x7a) }

  /** 0x7CD215D8 */
  function Synch(): Word32 { OctetOf(0xd8) + OctetOf(0x15) + OctetOf(0xd2) + OctetOf(0x7c) }

  /** The frame that belongs to an address: its three low bits. */
  function Frame(ric: Word32): (n: nat)
    ensures n < 8 && Three(n) == ric[..3]
  {
    (if ric[0] then 1 else 0) + (if ric[1] then 2 else 0) + (if ric[2] then 4 else 0)
  }

  function Three(n: nat): (r: Row)
    requires n < 8
    ensures |r| == 3
  {
    [n % 2 == 1, n / 2 % 2 == 1, n / 4 % 2 == 1]
  }

  /** Bits 30 to 13 are the rest of the address, bits 12 and 11 the tone. */
  function AddressWord(ric: Word32, toneno: nat): (w: Word32)
    requires toneno < 4
    ensures Message(w)
  {
    Zero(11) + [toneno % 2 == 1, toneno / 2 == 1] + ric[3..22]
  }

  /** Bits 30 to 11 are the low 20 bits of a packed word; bit 31 marks a message. */
  function MessageWord(packed: Word32): (w: Word32)
    ensures Message(w) && w[31] && w[11..31] == packed[..20]
  {
    Zero(11) + packed[..20] + [true]
  }

  // -------------------------------------------------------------------- layout

  /** The batches a page takes: at least one, 16 slots each. */
  function Batches(frame: nat, n: nat): nat { (2 * frame + 1 + n + 15) / 16 }

  /** Slot s of the page: 16 slots a batch, two in a frame. */
  function SlotAt(frame: nat, address: Word32, words: seq<Word32>, s: nat): Word32 {
    if s == 2 * frame then address
    else if 2 * frame < s <= 2 * frame + |words| then words[s - 2 * frame - 1]
    else Idle()
  }

  function Slots(frame: nat, address: Word32, words: seq<Word32>, batches: nat): (r: seq<Word32>)
    ensures |r| == 16 * batches && forall s | 0 <= s < |r| :: r[s] == SlotAt(frame, address, words, s)
  {
    seq(16 * batches, s requires 0 <= s => SlotAt(frame, address, words, s))
  }

  /** The codewords of a message. */
  function MessageCodewords(packed: seq<Word32>): (r: seq<Word32>)
    ensures |r| == |packed| && forall i | 0 <= i < |r| :: r[i] == Codeword(MessageWord(packed[i]))
  {
    seq(|packed|, i requires 0 <= i < |packed| => Codeword(MessageWord(packed[i])))
  }

  function AddressCodeword(ric: Word32, toneno: nat): (c: Word32)
    requires toneno < 4
  {
    Codeword(AddressWord(ric, toneno))
  }

  function Page(ric: Word32, toneno: nat, packed: seq<Word32>): (r: seq<Word32>)
    requires toneno < 4
  {
    Slots(Frame(ric), AddressCodeword(ric, toneno), MessageCodewords(packed), Batches(Frame(ric), |packed|))
  }

  // ------------------------------------------------------------------- reading

  datatype Read = Nothing | Paged(address: Row, tone: nat, words: seq<Word32>)

  /** The first slot from s on that is not idle. */
  function Busy(slots: seq<Word32>, s: nat): (r: nat)
    requires s <= |slots|
    ensures s <= r <= |slots| && (r < |slots| ==> slots[r] != Idle())
    ensures forall i | s <= i < r :: slots[i] == Idle()
    decreases |slots| - s
  {
    if s == |slots| || slots[s] != Idle() then s else Busy(slots, s + 1)
  }

  /** The first slot from s on that is not a message codeword. */
  function MessageEnd(slots: seq<Word32>, s: nat): (r: nat)
    requires s <= |slots|
    ensures s <= r <= |slots| && (r < |slots| ==> !slots[r][31])
    ensures forall i | s <= i < r :: slots[i][31]
    decreases |slots| - s
  {
    if s == |slots| || !slots[s][31] then s else MessageEnd(slots, s + 1)
  }

  /** A receiver: the first codeword that is not idle must be an address; its slot
      gives the low bits; the message codewords that follow are the page. */
  function ReadSlots(slots: seq<Word32>): Read {
    var s := Busy(slots, 0);
    if s == |slots| || slots[s][31] then Nothing
    else
      var n := (if slots[s][11] then 1 else 0) + (if slots[s][12] then 2 else 0);
      Paged(Three(s % 16 / 2) + slots[s][13..31], n, slots[s + 1..MessageEnd(slots, s + 1)])
  }

  /** The bits of message codewords, in the order in which they are sent. */
  function Stream(words: seq<Word32>): (r: Row)
    ensures |r| == 20 * |words| && forall n | 0 <= n < |r| :: r[n] == words[n / 20][30 - n % 20]
  {
    seq(20 * |words|, n requires 0 <= n < 20 * |words| => words[n / 20][30 - n % 20])
  }

  /** Characters up to the end of transmission. */
  function ReadText(bits: Row): seq<Row> {
    if |bits| < 7 || bits[..7] == Eot() then [] else [bits[..7]] + ReadText(bits[7..])
  }

  // --------------------------------------------------------------- round trips

  /** Idle codewords are addresses. */
  lemma IdleIsAddress()
    ensures !Idle()[31]
  {}

  /** Slots that hold a page. */
  ghost predicate Laid(slots: seq<Word32>, f: nat, a: Word32, words: seq<Word32>) {
    && f < 8 && |slots| >= 2 * f + 1 + |words|
    && (forall s | 0 <= s < |slots| :: slots[s] == SlotAt(f, a, words, s))
    && (forall i | 0 <= i < |words| :: words[i][31])
  }

  lemma LaidAddress(slots: seq<Word32>, f: nat, a: Word32, words: seq<Word32>)
    requires Laid(slots, f, a, words) && a != Idle()
    ensures Busy(slots, 0) == 2 * f && slots[2 * f] == a
  {
    hide Idle;
    assert slots[2 * f] == a;
  }

  lemma LaidMessage(slots: seq<Word32>, f: nat, a: Word32, words: seq<Word32>)
    requires Laid(slots, f, a, words)
    ensures MessageEnd(slots, 2 * f + 1) == 2 * f + 1 + |words|
    ensures slots[2 * f + 1..2 * f + 1 + |words|] == words
  {
    IdleIsAddress();
    hide Idle;
    var m := |words|;
    assert 2 * f + 1 + m < |slots| ==> slots[2 * f + 1 + m] == Idle();
    assert forall i | 0 <= i < m :: slots[2 * f + 1 + i] == words[i];
  }

  lemma LaidIdle(slots: seq<Word32>, f: nat, words: seq<Word32>)
    requires Laid(slots, f, Idle(), words)
    ensures ReadSlots(slots) == Nothing
  {
    IdleIsAddress();
    hide Idle;
    var s := Busy(slots, 0);
    if s < |slots| {
      assert slots[s] != Idle();
      assert 2 * f < s <= 2 * f + |words|;
      assert slots[s] == words[s - 2 * f - 1];
    }
  }

  lemma PageLaid(ric: Word32, toneno: nat, packed: seq<Word32>)
    requires toneno < 4
    ensures Laid(Page(ric, toneno, packed), Frame(ric), AddressCodeword(ric, toneno), MessageCodewords(packed))
  {
    var words := MessageCodewords(packed);
    forall i | 0 <= i < |words| ensures words[i][31] { MessageTop(packed[i]); }
    hide Idle, Codeword, AddressWord, MessageWord, AddressCodeword;
  }

  /** Reading finds the address and the words of a page, unless the address codeword
      is the idle codeword; then it finds nothing. */
  lemma ReadPage(ric: Word32, toneno: nat, packed: seq<Word32>)
    requires toneno < 4 && !ric[21]
    ensures ReadSlots(Page(ric, toneno, packed)) ==
            if AddressCodeword(ric, toneno) == Idle() then Nothing
            else Paged(ric[..21], toneno, MessageCodewords(packed))
  {
    hide Idle, Page, Frame, AddressCodeword, MessageCodewords, Laid, Three, Busy, MessageEnd;
    var slots, f := Page(ric, toneno, packed), Frame(ric);
    var a, words := AddressCodeword(ric, toneno), MessageCodewords(packed);
    PageLaid(ric, toneno, packed);
    AddressBits(ric, toneno);
    if a == Idle() {
      LaidIdle(slots, f, words);
    } else {
      LaidAddress(slots, f, a, words);
      LaidMessage(slots, f, a, words);
      assert 2 * f % 16 / 2 == f;
    }
  }

  lemma AddressBits(ric: Word32, toneno: nat)
    requires toneno < 4 && !ric[21]
    ensures var a := AddressCodeword(ric, toneno);
            && !a[31] && a[13..31] == ric[3..21] && Three(Frame(ric)) + a[13..31] == ric[..21]
            && (if a[11] then 1 else 0) + (if a[12] then 2 else 0) == toneno
  {
    var a, w := AddressCodeword(ric, toneno), AddressWord(ric, toneno);
    hide Codeword;
    forall i | 11 <= i < 32 ensures a[i] == w[i] { assert a[11..][i - 11] == w[11..][i - 11]; }
    assert ric[..21] == ric[..3] + ric[3..21];
    assert a[13..31] == ric[3..21];
  }

  lemma MessageTop(packed: Word32)
    ensures Codeword(MessageWord(packed))[31] && Codeword(MessageWord(packed)) != Idle()
    ensures forall b | 0 <= b < 20 :: Codeword(MessageWord(packed))[11 + b] == packed[b]
  {
    IdleIsAddress();
    hide Codeword, Idle;
    var w := MessageWord(packed);
    var c := Codeword(w);
    forall i | 11 <= i < 32 ensures c[i] == w[i] { assert c[11..][i - 11] == w[11..][i - 11]; }
  }

  // ------------------------------------------------------------ the idle codeword

  /** The division of the idle codeword by the generator leaves nothing. */
  function IdleQuotient(): (q: Row)
    ensures |q| == 21
  {
    [false, true, false, false, true, false, true, true, true, true, true, false, false, true, true, true,
     true, false, false, true, true]
  }

  lemma IdleBits()
    ensures Idle() == [true, true, true, false, true, false, false, true,
                       true, false, false, false, false, false, true, true,
                       true, false, false, true, false, false, false, true,
                       false, true, false, true, true, true, true, false]
  {}

  lemma QuotientBits()
    ensures forall i | i < 0 || i >= 21 :: !At(IdleQuotient(), i)
    ensures !At(IdleQuotient(), 0) && At(IdleQuotient(), 1) && !At(IdleQuotient(), 2)
    ensures !At(IdleQuotient(), 3) && At(IdleQuotient(), 4) && !At(IdleQuotient(), 5) && At(IdleQuotient(), 6)
    ensures At(IdleQuotient(), 7) && At(IdleQuotient(), 8) && At(IdleQuotient(), 9)
    ensures At(IdleQuotient(), 10) && !At(IdleQuotient(), 11) && !At(IdleQuotient(), 12) && At(IdleQuotient(), 13)
    ensures At(IdleQuotient(), 14) && At(IdleQuotient(), 15) && At(IdleQuotient(), 16)
    ensures !At(IdleQuotient(), 17) && !At(IdleQuotient(), 18) && At(IdleQuotient(), 19) && At(IdleQuotient(), 20)
  {}

  lemma IdleLow()
    ensures forall i | 1 <= i < 12 :: Idle()[i] == Product(IdleQuotient(), 31 - i)
  {
    IdleBits();
    QuotientBits();
    hide Idle, IdleQuotient, At;
  }

  lemma IdleMiddle()
    ensures forall i | 12 <= i < 22 :: Idle()[i] == Product(IdleQuotient(), 31 - i)
  {
    IdleBits();
    QuotientBits();
    hide Idle, IdleQuotient, At;
  }

  lemma IdleHigh()
    ensures forall i | 22 <= i < 32 :: Idle()[i] == Product(IdleQuotient(), 31 - i)
  {
    IdleBits();
    QuotientBits();
    hide Idle, IdleQuotient, At;
  }

  lemma IdleOnes()
    ensures Ones(Idle()) == 16
  {
    var a: Octet, b: Octet, c: Octet, d: Octet := OctetOf(0x97), OctetOf(0xc1), OctetOf(0x89), OctetOf(0x7a);
    var ra: Row, rb: Row, rc: Row := a, b, c;
    CountOctet(a);
    CountOctet(b);
    CountOctet(c);
    CountOctet(d);
    OnesJoin(ra + rb + rc, d);
    OnesJoin(ra + rb, c);
    OnesJoin(ra, b);
  }

  /** The idle codeword is the codeword of its own message. */
  lemma IdleIsCodeword(w: Word32)
    requires Message(w) && w[11..] == Idle()[11..]
    ensures Idle() == Codeword(w)
  {
    IdleLow();
    IdleMiddle();
    IdleHigh();
    IdleOnes();
    hide Idle, Product, IdleQuotient, Ones;
    assert Multiple(Idle(), IdleQuotient());
    ValidIff(Idle(), w);
  }

  /** The eight addresses 2007664 to 2007671 with tone 0. */
  predicate Reserved(ric: Word32, toneno: nat) {
    toneno == 0 && ric[3..21] == Idle()[13..31]
  }

  lemma IdleTone()
    ensures !Idle()[12] && !Idle()[11]
  {}

  /** An address codeword is the idle codeword for these addresses and no other. */
  lemma AddressIsIdleIff(ric: Word32, toneno: nat)
    requires toneno < 4 && !ric[21]
    ensures AddressCodeword(ric, toneno) == Idle() <==> Reserved(ric, toneno)
  {
    var w := AddressWord(ric, toneno);
    IdleTone();
    IdleIsAddress();
    AddressBits(ric, toneno);
    if Reserved(ric, toneno) {
      hide Idle, Codeword;
      forall i | 11 <= i < 32 ensures w[i] == Idle()[i] {
        if 13 <= i < 31 { assert w[i] == ric[3..21][i - 13]; }
      }
      assert w[11..] == Idle()[11..];
      IdleIsCodeword(w);
    }
  }

  // ------------------------------------------------------------------- the text

  /** The words of an ALPHA page. */
  function Text(str: seq<Octet>): (r: seq<Word32>)
    ensures |r| == TextWords(str) && forall i | 0 <= i < |r| :: r[i] == TextWord(str, i)
  {
    seq(TextWords(str), i requires 0 <= i => TextWord(str, i))
  }

  /** The words of a NUMERIC page. */
  function Number(str: seq<Octet>): (r: seq<Word32>)
    ensures |r| == CeilFive(|str|) && forall i | 0 <= i < |r| :: NumericWord(r[i], str, i)
  {
    seq(CeilFive(|str|), i requires 0 <= i =>
      seq(20, b requires 0 <= b < 20 => DigitBit(str, 20 * i + 19 - b)) + Zero(12))
  }

  function Characters(str: seq<Octet>): (r: seq<Row>)
    ensures |r| == |str|
  {
    seq(|str|, i requires 0 <= i < |str| => Char7(str[i]))
  }

  /** What is sent of the low 20 bits of a row of words. */
  lemma StreamIs(packed: seq<Word32>, n: nat)
    requires n < 20 * |packed|
    ensures Stream(MessageCodewords(packed))[n] == packed[n / 20][19 - n % 20]
  {
    MessageTop(packed[n / 20]);
    hide Codeword, MessageWord;
    assert 11 + (19 - n % 20) == 30 - n % 20;
  }

  lemma StreamOfText(str: seq<Octet>, n: nat)
    requires n < 20 * TextWords(str)
    ensures Stream(MessageCodewords(Text(str)))[n] == TextBit(str, n)
  {
    StreamIs(Text(str), n);
    hide MessageCodewords, Stream, TextBit;
    assert 20 * (n / 20) + 19 - (19 - n % 20) == n;
  }

  /** The text before its first end-of-transmission character. */
  function BeforeEot(str: seq<Octet>): (r: seq<Octet>)
    ensures |r| <= |str| && (|r| == |str| <==> forall i | 0 <= i < |str| :: Char7(str[i]) != Eot())
    ensures |r| == |str| ==> r == str
  {
    if str == [] || Char7(str[0]) == Eot() then [] else [str[0]] + BeforeEot(str[1..])
  }

  lemma CharacterAt(str: seq<Octet>, bits: Row, k: nat)
    requires |bits| >= 7 * (|str| + 1) && k <= |str|
    requires forall n | 0 <= n < |bits| :: bits[n] == TextBit(str, n)
    ensures bits[7 * k..][..7] == if k < |str| then Char7(str[k]) else Eot()
  {
    var rest := bits[7 * k..];
    forall j | 0 <= j < 7 ensures rest[..7][j] == if k < |str| then str[k][j] else Eot()[j] {
      assert (7 * k + j) / 7 == k && (7 * k + j) % 7 == j;
    }
  }

  /** Reading from character k on. */
  lemma {:induction false} ReadFrom(str: seq<Octet>, bits: Row, k: nat)
    requires |bits| >= 7 * (|str| + 1) && k <= |str|
    requires forall n | 0 <= n < |bits| :: bits[n] == TextBit(str, n)
    ensures ReadText(bits[7 * k..]) == Characters(BeforeEot(str[k..]))
    decreases |str| - k
  {
    CharacterAt(str, bits, k);
    hide *;
    var rest, text := bits[7 * k..], str[k..];
    ReadOne(rest);
    CharactersOne(text);
    if k < |str| {
      ReadFrom(str, bits, k + 1);
      assert rest[7..] == bits[7 * (k + 1)..];
      assert text[0] == str[k] && text[1..] == str[k + 1..];
    }
  }

  lemma ReadOne(bits: Row)
    ensures |bits| >= 7 ==>
              ReadText(bits) == if bits[..7] == Eot() then [] else [bits[..7]] + ReadText(bits[7..])
  {}

  lemma CharactersOne(str: seq<Octet>)
    ensures Characters(BeforeEot(str)) ==
              if str == [] || Char7(str[0]) == Eot() then [] else [Char7(str[0])] + Characters(BeforeEot(str[1..]))
  {
    hide Char7, Eot;
  }

  /** The text of a page reads back as it was written, up to the first
      end-of-transmission character in it. */
  lemma TextRoundTrip(str: seq<Octet>)
    ensures ReadText(Stream(MessageCodewords(Text(str)))) == Characters(BeforeEot(str))
  {
    var bits := Stream(MessageCodewords(Text(str)));
    forall n | 0 <= n < |bits| ensures bits[n] == TextBit(str, n) { StreamOfText(str, n); }
    hide Stream, MessageCodewords, Text, TextBit;
    ReadFrom(str, bits, 0);
    assert bits[7 * 0..] == bits && str[0..] == str;
  }

  datatype Received = Missed | Got(address: Row, tone: nat, text: seq<Row>)

  function Receive(slots: seq<Word32>): Received {
    match ReadSlots(slots)
    case Nothing => Missed
    case Paged(address, tone, words) => Got(address, tone, ReadText(Stream(words)))
  }

  /** Every text page is received as it was sent exactly if its address is not one
      that reads as the idle codeword and its text holds no end of transmission. */
  lemma PageRoundTripIff(ric: Word32, toneno: nat, str: seq<Octet>)
    requires toneno < 4 && forall i | 21 <= i < 32 :: !ric[i]
    ensures Receive(Page(ric, toneno, Text(str))) == Got(ric[..21], toneno, Characters(str))
      <==> !Reserved(ric, toneno) && forall i | 0 <= i < |str| :: Char7(str[i]) != Eot()
  {
    hide *;
    ReadPage(ric, toneno, Text(str));
    AddressIsIdleIff(ric, toneno);
    TextRoundTrip(str);
    WholeText(str);
    ReceiveIs(Page(ric, toneno, Text(str)), ric[..21], toneno, MessageCodewords(Text(str)));
  }

  lemma ReceiveIs(slots: seq<Word32>, address: Row, tone: nat, words: seq<Word32>)
    ensures ReadSlots(slots) == Nothing ==> Receive(slots) == Missed
    ensures ReadSlots(slots) == Paged(address, tone, words) ==>
              Receive(slots) == Got(address, tone, ReadText(Stream(words)))
  {}

  lemma WholeText(str: seq<Octet>)
    ensures Characters(BeforeEot(str)) == Characters(str) <==> forall i | 0 <= i < |str| :: Char7(str[i]) != Eot()
  {
    assert |Characters(BeforeEot(str))| == |BeforeEot(str)|;
    hide Char7, Eot, Characters;
  }

  /** A numeric page is its digits, whatever the buffer held above them. */
  lemma NumberCodewords(packed: seq<Word32>, str: seq<Octet>)
    requires |packed| == CeilFive(|str|) && forall i | 0 <= i < |packed| :: NumericWord(packed[i], str, i)
    ensures MessageCodewords(packed) == MessageCodewords(Number(str))
    ensures forall n | 0 <= n < 20 * |packed| :: Stream(MessageCodewords(packed))[n] == DigitBit(str, n)
  {
    hide Codeword, DigitBit;
    forall i | 0 <= i < |packed| ensures MessageWord(packed[i]) == MessageWord(Number(str)[i]) {
      assert NumericWord(Number(str)[i], str, i);
      assert packed[i][..20] == Number(str)[i][..20];
    }
    forall n | 0 <= n < 20 * |packed| ensures Stream(MessageCodewords(packed))[n] == DigitBit(str, n) {
      StreamIs(packed, n);
      assert 20 * (n / 20) + 19 - (19 - n % 20) == n;
    }
  }
}
