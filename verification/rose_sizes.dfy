/** When the sizes that the nested number decoders return add up to the octets there
    are, for any octets: each decoder makes its size out of the one inside it and a
    constant, not out of the length octets it has passed. */
module RoseSizes {
  import opened Q931Ies
  import opened RoseWire
  import opened RoseRoundTrip

  // ------------------------------------------------- read off the octets alone

  /** A NumericString of at most 20 octets starts here; its header has to lie within
      the first len octets. */
  predicate DigitsStand(mem: seq<Byte>, len: int) {
    len >= 2 && Whole(mem) && Fits(mem[0], 0x12) && mem[1] <= 20
  }

  /** An ENUMERATED starts here, and digits behind it. */
  predicate PartyStands(mem: seq<Byte>, len: int) {
    len >= 2 && Whole(mem) && Fits(mem[0], 0x0A) && DigitsStand(After(mem), len - 2 - mem[1] as int)
  }

  /** An address starts here of a kind that is not refused. */
  predicate AddressStands(mem: seq<Byte>, len: int) {
    && len >= 2 && Whole(mem)
    && match mem[0]
       case 0xA0 => DigitsStand(mem[2..], mem[1] as int)
       case 0xA8 => DigitsStand(mem[2..], mem[1] as int)
       case 0x80 => mem[1] <= 21
       case 0xA1 => PartyStands(mem[2..], mem[1] as int)
       case 0xA5 => PartyStands(mem[2..], mem[1] as int)
       case _ => false
  }

  /** The octets the decoder takes it for: the type of number always counts as one
      octet, the digits as what their own length says. */
  function AddressOctets(mem: seq<Byte>, len: int): nat
    requires AddressStands(mem, len)
  {
    match mem[0]
    case 0xA0 => mem[3] as nat + 4
    case 0xA8 => mem[3] as nat + 4
    case 0x80 => mem[1] as nat + 2
    case _ => mem[5 + mem[3] as nat] as nat + 7
  }

  /** The exact condition under which the size of a presented number is 2 + mem[1]. */
  predicate AddsUp(mem: seq<Byte>)
    requires Whole(mem)
  {
    var n := mem[1] as int;
    match mem[0]
    case 0x81 => n == 0
    case 0x82 => n == 0
    case 0xA0 => AddressStands(mem[2..], n) && AddressOctets(mem[2..], n) == n
    case 0xA3 =>
      n == 1 || (AddressStands(mem[2..], n) && AddressOctets(mem[2..], n) == n - 2)
    case _ => false
  }

  // ------------------------------------------------------- what the decoders return

  lemma DigitsSize(mem: seq<Byte>, len: int, value: Number)
    ensures var d := Digits(mem, len, value);
            && (DigitsStand(mem, len) ==> d.Done? && d.res == mem[1] as int + 2)
            && (!DigitsStand(mem, len) ==> d.Outside? || d.res == -1)
  {}

  lemma PartySize(mem: seq<Byte>, len: int, value: Number)
    ensures var d := PartyNumber(mem, len, value);
            && (PartyStands(mem, len) ==> d.Done? && d.res == After(mem)[1] as int + 5)
            && (!PartyStands(mem, len) ==> d.Outside? || d.res == -1)
  {
    if Whole(mem) {
      DigitsSize(After(mem), len - 2 - mem[1] as int, value);
    }
    hide Digits, DigitsStand, TonForQ931, Integer;
  }

  lemma AddressSize(mem: seq<Byte>, len: int, value: Number)
    ensures var d := Address(mem, len, value);
            && (AddressStands(mem, len) ==> d.Done? && d.res == AddressOctets(mem, len))
            && (!AddressStands(mem, len) ==> d.Outside? || d.res == -1)
  {
    if len >= 2 && Whole(mem) {
      DigitsSize(mem[2..], mem[1] as int, value);
      PartySize(mem[2..], mem[1] as int, value);
      hide Digits, PartyNumber;
    }
  }

  /** For any octets that start with a whole component, the decoder returns its size if
      and only if the condition holds. */
  lemma PresentedSizeIff(mem: seq<Byte>, value: Number)
    requires Whole(mem)
    ensures var n := mem[1] as int;
            var d := PresentedNumber(mem, 2 + n, value);
            d.Done? && d.res == 2 + n <==> AddsUp(mem)
  {
    var v := value.(ton := 0, npi := 1, pres := -1);
    AddressSize(mem[2..], mem[1] as int, v.(pres := 0));
    AddressSize(mem[2..], mem[1] as int, v.(pres := 0x20));
    hide Address, AddressStands, AddressOctets;
  }

  // ------------------------------------------------------ properly nested components

  /** Each component fills the one around it, down to the number. */
  predicate Nested(mem: seq<Byte>)
    requires Whole(mem)
  {
    var n := mem[1] as int;
    if mem[0] == 0x81 || mem[0] == 0x82 then n == 0
    else
      && n >= 2 && Whole(mem[2..]) && mem[3] as int + 2 == n
      && match mem[2]
         case 0xA0 => Fills(mem[4..], mem[3] as int)
         case 0xA8 => Fills(mem[4..], mem[3] as int)
         case 0xA1 => FillTwo(mem[4..], mem[3] as int)
         case 0xA5 => FillTwo(mem[4..], mem[3] as int)
         case _ => true
  }

  predicate Fills(mem: seq<Byte>, len: int) { Whole(mem) && mem[1] as int + 2 == len }

  predicate FillTwo(mem: seq<Byte>, len: int) { Whole(mem) && Fills(After(mem), len - 2 - mem[1] as int) }

  /** The kinds of address that are accepted when their components are nested. */
  predicate Accepted(mem: seq<Byte>)
    requires Whole(mem)
  {
    match mem[0]
    case 0xA0 => Whole(mem[2..]) && Fits(mem[2], 0x12) && mem[3] <= 20
    case 0xA8 => Whole(mem[2..]) && Fits(mem[2], 0x12) && mem[3] <= 20
    case 0x80 => mem[1] <= 21
    case 0xA1 => AcceptedParty(mem[2..])
    case 0xA5 => AcceptedParty(mem[2..])
    case _ => false
  }

  predicate AcceptedParty(mem: seq<Byte>) {
    && Whole(mem) && Fits(mem[0], 0x0A)
    && Whole(After(mem)) && Fits(After(mem)[0], 0x12) && After(mem)[1] <= 20
  }

  /** With properly nested components the size is right for "restricted" and "not
      available", and for an allowed number whose address is accepted and whose type of
      number, if it has one, is a single octet.  A restricted number with an address
      comes out two octets too large, which only a type of number of three octets,
      counted as one, makes up for. */
  lemma NestedSizeIff(mem: seq<Byte>)
    requires Whole(mem) && Nested(mem)
    ensures AddsUp(mem) <==>
              || mem[0] == 0x81 || mem[0] == 0x82
              || (mem[0] == 0xA0 && Accepted(mem[2..]) && (HasType(mem[2]) ==> mem[5] == 1))
              || (mem[0] == 0xA3 && Accepted(mem[2..]) && HasType(mem[2]) && mem[5] == 3)
  {
    if mem[0] != 0x81 && mem[0] != 0x82 {
      NestedAddress(mem[2..], mem[1] as int, mem[4..]);
    }
  }

  /** Public and private numbers start with their type. */
  predicate HasType(kind: Byte) { kind == 0xA1 || kind == 0xA5 }

  lemma NestedAddress(mem: seq<Byte>, n: int, data: seq<Byte>)
    requires Whole(mem) && n == mem[1] as int + 2 && data == mem[2..]
    requires match mem[0]
             case 0xA0 => Fills(data, mem[1] as int)
             case 0xA8 => Fills(data, mem[1] as int)
             case 0xA1 => FillTwo(data, mem[1] as int)
             case 0xA5 => FillTwo(data, mem[1] as int)
             case _ => true
    ensures AddressStands(mem, n) <==> Accepted(mem)
    ensures Accepted(mem) ==>
              AddressOctets(mem, n) == if HasType(mem[0]) then n + 1 - mem[3] as int else n
  {}

  /** A refused address is taken for one octet less than nothing, and a type of number
      of two octets for one. */
  lemma TwoMisreadings(value: Number)
    ensures var refused: seq<Byte> := [0xA0, 2, 0xA2, 0];
            Whole(refused) && Nested(refused) && PresentedNumber(refused, 4, value).res == 1
    ensures var wide: seq<Byte> := [0xA0, 9, 0xA1, 7, 0x0A, 2, 0, 0, 0x12, 1, 0x31];
            Whole(wide) && Nested(wide) && PresentedNumber(wide, 11, value).res == 10
  {
    var refused: seq<Byte> := [0xA0, 2, 0xA2, 0];
    assert refused[2..] == [0xA2, 0];
    var wide: seq<Byte> := [0xA0, 9, 0xA1, 7, 0x0A, 2, 0, 0, 0x12, 1, 0x31];
    var v := value.(ton := 0, npi := 1, pres := 0);
    assert wide[2..] == [0xA1, 7, 0x0A, 2, 0, 0, 0x12, 1, 0x31];
    assert wide[2..][2..] == wide[4..] == [0x0A, 2, 0, 0, 0x12, 1, 0x31];
    assert After(wide[4..]) == [0x12, 1, 0x31];
    AddressSize(wide[2..], 9, v);
  }

  // ---------------------------------------------------------- what the encoder writes

  /** Every presented number the encoder writes adds up, whatever follows it. */
  lemma EncodedAddress(ton: Byte, kept: seq<Byte>, rest: seq<Byte>)
    requires |kept| <= 20
    ensures var inner := Tlv(0xA1, Tlv(0x0A, [ton]) + Tlv(0x12, kept));
            AddressStands(inner + rest, |inner|) && AddressOctets(inner + rest, |inner|) == |inner|
  {
    var two := Tlv(0x0A, [ton]) + Tlv(0x12, kept);
    TlvReads(0xA1, two, rest);
    EncodedParty(ton, kept, rest);
    var mem := Tlv(0xA1, two) + rest;
    assert mem[2..] == two + rest && mem[3] == (two + rest)[1] && mem[6] == (two + rest)[4];
    hide Tlv, PartyStands;
  }

  lemma EncodedParty(ton: Byte, kept: seq<Byte>, rest: seq<Byte>)
    requires |kept| <= 20
    ensures var two := Tlv(0x0A, [ton]) + Tlv(0x12, kept);
            && |two| == |kept| + 5 && PartyStands(two + rest, |two|)
            && (two + rest)[1] == 1 && (two + rest)[4] == |kept|
  {
    var two := Tlv(0x0A, [ton]) + Tlv(0x12, kept);
    TlvReads(0x0A, [ton], Tlv(0x12, kept) + rest);
    TlvReads(0x12, kept, rest);
    assert two + rest == Tlv(0x0A, [ton]) + (Tlv(0x12, kept) + rest);
  }

  lemma EncodedAddsUp(pres: int, ton: Byte, num: seq<Byte>, rest: seq<Byte>)
    ensures var p := Presented(pres, ton, num);
            Whole(p + rest) && p[1] as int + 2 == |p| && AddsUp(p + rest)
  {
    if Allowed(pres) && num != [] {
      var inner := Tlv(0xA1, Tlv(0x0A, [ton]) + Tlv(0x12, Kept(num)));
      TlvReads(0xA0, inner, rest);
      EncodedAddress(ton, Kept(num), rest);
      hide Tlv, Kept, AddressStands, AddressOctets;
    } else {
      TlvReads(if Allowed(pres) || Restricted(pres) then 0x81 else 0x82, [], rest);
    }
  }

  /** So it is read with its full size. */
  lemma EncodedSize(pres: int, ton: Byte, num: seq<Byte>, rest: seq<Byte>, value: Number)
    ensures var p := Presented(pres, ton, num);
            var d := PresentedNumber(p + rest, |p|, value);
            d.Done? && d.res == |p|
  {
    var p := Presented(pres, ton, num);
    EncodedAddsUp(pres, ton, num, rest);
    assert (p + rest)[1] == p[1];
    hide *;
    PresentedSizeIff(p + rest, value);
  }
}
