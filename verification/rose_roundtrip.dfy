/** DivertingLegInformation2 from one side to the other: what receive_facility makes
    of the octets that the encoder writes. */
module RoseRoundTrip {
  import opened Q931Ies
  import opened RoseWire

  datatype Outcome = Finished(res: int, call: Diversion) | Unknown

  /** What the decoder writes into the call when it has read the whole argument. */
  function Store(c: Diversion, reason: int, p: Parts): Diversion
    requires p.Parts?
  {
    var d := if p.diverting.pres >= 0
      then c.(redirectingplan := p.diverting.npi, redirectingpres := p.diverting.pres, redirectingreason := reason,
              redirectingnum := p.diverting.partyaddress)
      else c;
    if p.original.pres >= 0
    then d.(origcalledplan := p.original.npi, origcalledpres := p.original.pres,
                origcallednum := p.original.partyaddress)
    else d
  }

  /** Both numbers start as zeros: presentation 0, no digits. */
  const NOTHING := Number([], 0, 0, 0)

  /** The argument behind its counter and its reason. */
  function Numbers(mem: seq<Byte>, left: int, s: Switch, reason: int, call: Diversion): Outcome {
    match ReadParts(mem, left, s, NOTHING, NOTHING, call.origredirectingreason)
    case Lost => Unknown
    case Parts(ok, d, o, r) =>
      var c := call.(origredirectingreason := r);
      if ok then Finished(0, Store(c, reason, Parts(ok, d, o, r))) else Finished(-1, c)
  }

  /** rose_diverting_leg_information2_decode */
  function DivertingLeg2(mem: seq<Byte>, len: int, s: Switch, call: Diversion): Outcome {
    if |mem| < 2 || mem[1] == 0x80 then Unknown
    else if mem[0] != 0x30 then Finished(-1, call)
    else
      var counter, n := mem[2..], len - 2;
      if n < 2 then Finished(-1, call)
      else if |counter| < 2 then Unknown
      else if !Fits(counter[0], 0x02) then Finished(-1, call)
      else if !Whole(counter) then Unknown
      else
        var reason, m := After(counter), n - 2 - |Content(counter)|;
        if m < 2 then Finished(-1, call)
        else if |reason| < 2 then Unknown
        else if !Fits(reason[0], 0x0A) then Finished(-1, call)
        else if !Whole(reason) then Unknown
        else Numbers(After(reason), m - 2 - |Content(reason)|, s, ReasonForQ931(s, Integer(Content(reason))), call)
  }

  /** rose_invoke_decode; other operations are not followed. */
  function InvokeDecode(mem: seq<Byte>, len: int, s: Switch, call: Diversion): Outcome {
    if len < 2 then Finished(-1, call)
    else if !Whole(mem) then Unknown
    else
      var operation, n := After(mem), len - 2 - |Content(mem)|;
      if n < 2 then Finished(-1, call)
      else if !Whole(operation) then Unknown
      else
        var argument, m := After(operation), n - 2 - |Content(operation)|;
        if m < 2 then Finished(-1, call)
        else if |argument| < 2 then Unknown
        else if argument[0] == 0 then Finished(-1, call)
        else if Integer(Content(operation)) == 0x15 then DivertingLeg2(argument, m, s, call)
        else Unknown
  }

  /** The loop of receive_facility over the components of the element; `left` octets
      of it remain, and the result is what is left when it ends. Before the first
      service component the three components of the extensions may stand. */
  function Walk(mem: seq<Byte>, left: int, extensions: bool, s: Switch, call: Diversion): Outcome {
    if left < 2 then Finished(left, call)
    else if !Whole(mem) then Unknown
    else
      var kind, data, n := mem[0], mem[2..], mem[1] as int;
      if kind == 0 || (extensions && (kind == 0x8B || kind == 0xAA || kind == 0x92))
      then Walk(After(mem), left - 2 - n, extensions, s, call)
      else if kind == 0xA1 then
        (match InvokeDecode(data, n, s, call)
         case Unknown => Unknown
         case Finished(_, c) => Walk(After(mem), left - 2 - n, false, s, c))
      else if 0xA2 <= kind <= 0xA4 then Unknown
      else Walk(After(mem), left - 2 - n, false, s, call)
  }

  /** receive_facility */
  function ReceiveFacility(mem: seq<Byte>, s: Switch, call: Diversion): Outcome {
    if mem == [] then Finished(-1, call)
    else if mem[0] % 32 != 0x1F && mem[0] % 32 != 0x11 then Finished(-1, call)
    else
      var i := if mem[0] < 0x80 then 2 else 1;
      if |mem| < 3 then Finished(-1, call)
      else Walk(mem[i..], |mem| - i, mem[0] % 32 == 0x1F, s, call)
  }

  // ------------------------------------------------------------------ round trip

  /** A component in front of anything is read back. */
  lemma TlvReads(kind: Byte, content: seq<Byte>, rest: seq<Byte>)
    requires |content| < 128
    ensures var mem := Tlv(kind, content) + rest;
            Whole(mem) && mem[0] == kind && mem[1] == |content| && Content(mem) == content && After(mem) == rest
            && mem[2..] == content + rest
  {}

  lemma IntegerOfOne(b: Byte)
    ensures Integer([b]) == b
  {
    assert [b][..0] == [];
  }

  /** What a presented number reads back as. */
  function ReadBack(pres: int, ton: Byte, num: seq<Byte>, value: Number): Number {
    if Allowed(pres) && num != [] then value.(partyaddress := Kept(num), npi := 1, ton := TonForQ931(ton), pres := 0)
    else value.(npi := 1, ton := 0, pres := if Allowed(pres) || Restricted(pres) then 0x20 else 0x43)
  }

  /** The digits of a number: no octet of a C string is zero. */
  predicate IsText(num: seq<Byte>) { forall i | 0 <= i < |num| :: num[i] != 0 }

  lemma DigitsRead(num: seq<Byte>, rest: seq<Byte>, value: Number)
    requires IsText(num) && |num| <= 20
    ensures Digits(Tlv(0x12, num) + rest, |num| + 2, value) == Done(|num| + 2, value.(partyaddress := num))
  {
    TlvReads(0x12, num, rest);
    TextWhole(num);
  }

  lemma PartyNumberRead(ton: Byte, num: seq<Byte>, rest: seq<Byte>, value: Number)
    requires IsText(num) && |num| <= 20
    ensures PartyNumber(Tlv(0x0A, [ton]) + Tlv(0x12, num) + rest, |num| + 5, value)
            == Done(|num| + 5, value.(partyaddress := num, ton := TonForQ931(ton)))
  {
    var mem := Tlv(0x0A, [ton]) + (Tlv(0x12, num) + rest);
    assert Tlv(0x0A, [ton]) + Tlv(0x12, num) + rest == mem;
    TlvReads(0x0A, [ton], Tlv(0x12, num) + rest);
    IntegerOfOne(ton);
    DigitsRead(num, rest, value);
    hide Tlv, Digits, TonForQ931, Integer;
  }

  lemma AddressRead(ton: Byte, num: seq<Byte>, rest: seq<Byte>, value: Number)
    requires IsText(num) && |num| <= 20
    ensures var content := Tlv(0x0A, [ton]) + Tlv(0x12, num);
            Address(Tlv(0xA1, content) + rest, |num| + 7, value)
            == Done(|num| + 7, value.(partyaddress := num, ton := TonForQ931(ton), npi := 1))
  {
    var content := Tlv(0x0A, [ton]) + Tlv(0x12, num);
    TlvReads(0xA1, content, rest);
    PartyNumberRead(ton, num, rest, value);
    hide Tlv, PartyNumber, TonForQ931;
  }

  /** A presented number as the encoder writes it is read to its last octet. */
  lemma PresentedRead(pres: int, ton: Byte, num: seq<Byte>, rest: seq<Byte>, value: Number)
    requires IsText(num)
    ensures var p := Presented(pres, ton, num);
            PresentedNumber(p + rest, |p|, value) == Done(|p|, ReadBack(pres, ton, num, value))
  {
    if Allowed(pres) && num != [] {
      var kept := Kept(num);
      var inner := Tlv(0xA1, Tlv(0x0A, [ton]) + Tlv(0x12, kept));
      assert IsText(kept) by { forall i | 0 <= i < |kept| ensures kept[i] != 0 { assert kept[i] == num[i]; } }
      TlvReads(0xA0, inner, rest);
      AddressRead(ton, kept, rest, value.(ton := 0, npi := 1, pres := 0));
      hide Tlv, Address, TonForQ931, Kept;
    } else {
      TlvReads(if Allowed(pres) || Restricted(pres) then 0x81 else 0x82, [], rest);
      hide Tlv;
    }
  }

  /** The call after the argument has been read. */
  function Informed(call: Diversion, s: Switch, reason: int, pres: int, ton: Byte, num: seq<Byte>): Diversion {
    var v := ReadBack(pres, ton, num, NOTHING);
    call.(redirectingplan := v.npi, redirectingpres := v.pres,
          redirectingreason := ReasonForQ931(s, ReasonFromQ931(s, reason)),
          redirectingnum := v.partyaddress,
          origcalledplan := v.npi, origcalledpres := v.pres, origcallednum := v.partyaddress)
  }

  lemma PartsRead(p: seq<Byte>, s: Switch, pres: int, ton: Byte, num: seq<Byte>, origreason: int)
    requires IsText(num) && p == Presented(pres, ton, num)
    ensures var v := ReadBack(pres, ton, num, NOTHING);
            ReadParts(Tlv(0xA1, p) + Tlv(0xA2, p), 4 + 2 * |p|, s, NOTHING, NOTHING, origreason)
              == Parts(true, v, v, origreason)
  {
    hide Tlv, Presented, PresentedNumber, ReadBack, ReadParts;
    var second := Tlv(0xA2, p);
    var v := ReadBack(pres, ton, num, NOTHING);
    PresentedRead(pres, ton, num, second, NOTHING);
    PartRead(0xA1, p, second, s, v, origreason);
    PresentedRead(pres, ton, num, [], NOTHING);
    PartReadLast(p, s, v, v, origreason);
  }

  /** The diverting number is read off the parts. */
  lemma PartRead(kind: Byte, p: seq<Byte>, rest: seq<Byte>, s: Switch, v: Number, origreason: int)
    requires kind == 0xA1 && |p| < 100 && PresentedNumber(p + rest, |p|, NOTHING) == Done(|p|, v)
    ensures ReadParts(Tlv(kind, p) + rest, 2 + |p| + |rest|, s, NOTHING, NOTHING, origreason)
         == ReadParts(rest, |rest|, s, v, NOTHING, origreason)
  {
    TlvReads(kind, p, rest);
    var mem := Tlv(kind, p) + rest;
    assert mem[2 + |p|..] == rest;
    hide Tlv, PresentedNumber;
  }

  /** The original called number is read as the last part. */
  lemma PartReadLast(p: seq<Byte>, s: Switch, first: Number, v: Number, origreason: int)
    requires |p| < 100 && PresentedNumber(p + [], |p|, NOTHING) == Done(|p|, v)
    ensures ReadParts(Tlv(0xA2, p), 2 + |p|, s, first, NOTHING, origreason) == Parts(true, first, v, origreason)
  {
    TlvReads(0xA2, p, []);
    var mem := Tlv(0xA2, p);
    assert mem + [] == mem && mem[2 + |p|..] == [];
    hide Tlv, PresentedNumber;
    assert ReadParts([], 0, s, first, v, origreason) == Parts(true, first, v, origreason);
  }

  /** The counter and the reason are read off the argument. */
  lemma LegOpens(r: Byte, numbers: seq<Byte>, s: Switch, call: Diversion)
    requires |numbers| < 100
    ensures var a := Tlv(0x02, [1]) + (Tlv(0x0A, [r]) + numbers);
            DivertingLeg2(Tlv(0x30, a), |a| + 2, s, call) == Numbers(numbers, |numbers|, s, ReasonForQ931(s, r), call)
  {
    var rest := Tlv(0x0A, [r]) + numbers;
    var a := Tlv(0x02, [1]) + rest;
    TlvReads(0x30, a, []);
    assert Tlv(0x30, a) + [] == Tlv(0x30, a) && a + [] == a;
    TlvReads(0x02, [1], rest);
    TlvReads(0x0A, [r], numbers);
    IntegerOfOne(r);
    hide Tlv, Numbers, ReasonForQ931, Integer;
  }

  lemma LegRead(s: Switch, call: Diversion, reason: int, pres: int, ton: Byte, num: seq<Byte>)
    requires IsText(num)
    ensures var a := Argument(ReasonFromQ931(s, reason), Presented(pres, ton, num));
            DivertingLeg2(Tlv(0x30, a), |a| + 2, s, call) == Finished(0, Informed(call, s, reason, pres, ton, num))
  {
    var p := Presented(pres, ton, num);
    var r := ReasonFromQ931(s, reason);
    var numbers := Tlv(0xA1, p) + Tlv(0xA2, p);
    assert Argument(r, p) == Tlv(0x02, [1]) + (Tlv(0x0A, [r]) + numbers);
    hide Argument, DivertingLeg2, Presented, ReadParts, Numbers, Informed, ReasonFromQ931, ReasonForQ931, Tlv, ReadBack;
    LegOpens(r, numbers, s, call);
    PartsRead(p, s, pres, ton, num, call.origredirectingreason);
    NumbersStored(numbers, 4 + 2 * |p|, s, call, reason, pres, ton, num);
  }

  lemma NumbersStored(mem: seq<Byte>, left: int, s: Switch, call: Diversion, reason: int, pres: int, ton: Byte,
                      num: seq<Byte>)
    requires var v := ReadBack(pres, ton, num, NOTHING);
             ReadParts(mem, left, s, NOTHING, NOTHING, call.origredirectingreason)
             == Parts(true, v, v, call.origredirectingreason)
    ensures Numbers(mem, left, s, ReasonForQ931(s, ReasonFromQ931(s, reason)), call)
            == Finished(0, Informed(call, s, reason, pres, ton, num))
  {
    hide ReadParts, ReasonForQ931, ReasonFromQ931;
  }

  lemma InvokeRead(id: Byte, a: seq<Byte>, s: Switch, call: Diversion, c: Diversion)
    requires |a| < 120 && DivertingLeg2(Tlv(0x30, a), |a| + 2, s, call) == Finished(0, c)
    ensures InvokeDecode(Invoke(id, a), |Invoke(id, a)|, s, call) == Finished(0, c)
  {
    hide Tlv, DivertingLeg2, Integer, InvokeDecode;
    var argument := Tlv(0x30, a);
    var operation := Tlv(0x02, [0x15]) + argument;
    assert Invoke(id, a) == Tlv(0x02, [id]) + operation;
    TlvReads(0x02, [id], operation);
    TlvReads(0x02, [0x15], argument);
    TlvReads(0x30, a, []);
    assert argument + [] == argument;
    IntegerOfOne(0x15);
    hide Invoke;
    InvokeOpens(Tlv(0x02, [id]) + operation, operation, argument, s, call);
  }

  lemma InvokeOpens(mem: seq<Byte>, operation: seq<Byte>, argument: seq<Byte>, s: Switch, call: Diversion)
    requires Whole(mem) && After(mem) == operation && Whole(operation) && After(operation) == argument
    requires Integer(Content(operation)) == 0x15 && |argument| >= 2 && argument[0] != 0
    ensures InvokeDecode(mem, |mem|, s, call) == DivertingLeg2(argument, |argument|, s, call)
  {
    hide DivertingLeg2, Integer;
  }

  /** Every length octet of the element is below 128, the short form of section
      8.1.3.4 of X.690, so a component is what its length says. */
  lemma ShortForm(reason: Byte, pres: int, ton: Byte, num: seq<Byte>)
    ensures var a := Argument(reason, Presented(pres, ton, num));
            && |Presented(pres, ton, num)| <= 29 && |a| <= 68 && |Invoke(0, a)| <= 76 && |Facility(0, a)| <= 82
  {}

  lemma WalkInvoke(invoke: seq<Byte>, s: Switch, call: Diversion, c: Diversion)
    requires |invoke| < 100 && InvokeDecode(invoke, |invoke|, s, call) == Finished(0, c)
    ensures var mem := Tlv(0x8B, [0]) + Tlv(0xA1, invoke); Walk(mem, |mem|, true, s, call) == Finished(0, c)
  {
    var second := Tlv(0xA1, invoke);
    TlvReads(0x8B, [0], second);
    hide Tlv, InvokeDecode;
    WalkLast(invoke, s, call, c);
  }

  lemma WalkLast(invoke: seq<Byte>, s: Switch, call: Diversion, c: Diversion)
    requires |invoke| < 100 && InvokeDecode(invoke, |invoke|, s, call) == Finished(0, c)
    ensures var mem := Tlv(0xA1, invoke); Walk(mem, |mem|, true, s, call) == Finished(0, c)
  {
    var mem := Tlv(0xA1, invoke);
    TlvReads(0xA1, invoke, []);
    assert mem + [] == mem && invoke + [] == invoke;
    hide Tlv, InvokeDecode;
    WalkInto(mem, |mem|, s, call, c);
    hide *;
    WalkEnd(s, c);
  }

  lemma WalkInto(mem: seq<Byte>, left: int, s: Switch, call: Diversion, c: Diversion)
    requires Whole(mem) && mem[0] == 0xA1 && left >= 2 && InvokeDecode(mem[2..], mem[1], s, call) == Finished(0, c)
    ensures Walk(mem, left, true, s, call) == Walk(After(mem), left - 2 - mem[1], false, s, c)
  {}

  lemma WalkEnd(s: Switch, c: Diversion)
    ensures Walk([], 0, false, s, c) == Finished(0, c)
  {}

  /** Whatever the redirecting number, its presentation, its type and the reason, the
      element is read to its last octet, and leaves with the call: as diverting and as
      original number the first 20 digits, if presentation is allowed; otherwise that
      it is restricted or not available; and the reason as far as the switch type can
      carry it. */
  lemma DiversionRoundTrip(id: Byte, s: Switch, call: Diversion, reason: int, pres: int, ton: Byte, num: seq<Byte>)
    requires IsText(num)
    ensures var f := Facility(id, Argument(ReasonFromQ931(s, reason), Presented(pres, ton, num)));
            ReceiveFacility(f, s, call) == Finished(0, Informed(call, s, reason, pres, ton, num))
  {
    var a := Argument(ReasonFromQ931(s, reason), Presented(pres, ton, num));
    var c := Informed(call, s, reason, pres, ton, num);
    LegRead(s, call, reason, pres, ton, num);
    hide Presented, Argument, DivertingLeg2, Informed, ReasonFromQ931;
    InvokeRead(id, a, s, call, c);
    assert Facility(id, a) == [0x9F] + (Tlv(0x8B, [0]) + Tlv(0xA1, Invoke(id, a)));
    WalkInvoke(Invoke(id, a), s, call, c);
    hide InvokeDecode, Walk, Invoke, Tlv, Facility, ReceiveFacility;
    FacilityOpens(Tlv(0x8B, [0]) + Tlv(0xA1, Invoke(id, a)), s, call);
  }

  /** The protocol profile in front says that extensions may follow. */
  lemma FacilityOpens(rest: seq<Byte>, s: Switch, call: Diversion)
    requires |rest| >= 2
    ensures ReceiveFacility([0x9F] + rest, s, call) == Walk(rest, |rest|, true, s, call)
  {
    assert ([0x9F] + rest)[1..] == rest;
    hide Walk;
  }

  /** With presentation allowed, digits of at most 20 and a reason the switch type can
      carry, number and reason come back unchanged. */
  lemma NumberComesBack(id: Byte, s: Switch, call: Diversion, reason: int, pres: int, ton: Byte, num: seq<Byte>)
    requires IsText(num) && num != [] && Allowed(pres)
    ensures var f := Facility(id, Argument(ReasonFromQ931(s, reason), Presented(pres, ton, num)));
            var r := ReceiveFacility(f, s, call);
            && r.Finished? && r.res == 0
            && (r.call.redirectingnum == num && r.call.origcallednum == num <==> |num| <= 20)
            && (r.call.redirectingreason == reason <==> Carried(s, reason))
  {
    DiversionRoundTrip(id, s, call, reason, pres, ton, num);
    ReasonRoundTripIff(s, reason);
    hide Facility, ReceiveFacility, Argument, Presented, ReasonFromQ931, ReasonForQ931;
    assert Kept(num) == num <==> |num| <= 20;
  }

  /** A restricted number that carries its digits: two octets more are claimed than
      there are. The encoder never writes it. */
  lemma RestrictedNumberOvershoots(ton: Byte, num: seq<Byte>, value: Number)
    requires IsText(num) && |num| <= 20
    ensures var p := Tlv(0xA3, Tlv(0xA1, Tlv(0x0A, [ton]) + Tlv(0x12, num)));
            var d := PresentedNumber(p, |p|, value);
            d.Done? && d.res == |p| + 2 && d.value.pres == 0x20 && d.value.partyaddress == num
  {
    var inner := Tlv(0xA1, Tlv(0x0A, [ton]) + Tlv(0x12, num));
    TlvReads(0xA3, inner, []);
    assert Tlv(0xA3, inner) + [] == Tlv(0xA3, inner) && inner + [] == inner;
    AddressRead(ton, num, [], value.(ton := 0, npi := 1, pres := 0x20));
    hide Tlv, Address, TonForQ931;
  }
}
