/** The components of a facility element (Q.932 and X.690): what they are made of,
    and the DivertingLegInformation2 invoke. */
module RoseWire {
  import opened Q931Ies

  /** A component with its length in one octet. */
  function Tlv(kind: Byte, content: seq<Byte>): (r: seq<Byte>)
    ensures |r| == |content| + 2
  {
    [kind, |content| % 256] + content
  }

  // ------------------------------------------------------------------- mappings

  datatype Switch = Qsig | OtherSwitch

  /** redirectingreason_from_q931 */
  function ReasonFromQ931(s: Switch, reason: int): (r: Byte)
    ensures r <= 4
  {
    if reason == 1 then 2 else if reason == 2 then 3 else if reason == 15 then 1
    else if reason == 3 && s == OtherSwitch then 4
    else 0
  }

  /** redirectingreason_for_q931 */
  function ReasonForQ931(s: Switch, reason: nat): int {
    if reason == 1 then 15 else if reason == 2 then 1 else if reason == 3 then 2
    else if reason == 4 && s == OtherSwitch then 3
    else 0
  }

  /** The reasons a switch type can carry: unknown, busy, no reply, unconditional,
      and but for Q.SIG deflection. */
  predicate Carried(s: Switch, reason: int) {
    reason == 0 || reason == 1 || reason == 2 || reason == 15 || (reason == 3 && s == OtherSwitch)
  }

  lemma ReasonRoundTripIff(s: Switch, reason: int)
    ensures ReasonForQ931(s, ReasonFromQ931(s, reason)) == reason <==> Carried(s, reason)
    ensures !Carried(s, reason) ==> ReasonForQ931(s, ReasonFromQ931(s, reason)) == 0
  {}

  /** typeofnumber_from_q931 and typeofnumber_for_q931 */
  function TonFromQ931(ton: int): (r: Byte)
    ensures r <= 6
  {
    if 1 <= ton <= 4 || ton == 6 then ton else 0
  }

  function TonForQ931(ton: nat): nat { if 1 <= ton <= 4 || ton == 6 then ton else 0 }

  // ---------------------------------------------------------------- the encoding

  /** Presentation values. */
  predicate Allowed(pres: int) { pres == 0 || pres == 1 }

  /** Every other defined presentation but "not available" goes out as restricted. */
  predicate Restricted(pres: int) {
    pres == 0x20 || pres == 0x21 || pres == 3 || pres == 0x23 || pres == 2 || pres == 0x22
  }

  /** What of a redirecting number is sent: 20 digits at most. */
  function Kept(num: seq<Byte>): (r: seq<Byte>)
    ensures |r| <= 20 && r <= num
  {
    if |num| > 20 then num[..20] else num
  }

  /** PresentedNumberUnscreened */
  function Presented(pres: int, ton: Byte, num: seq<Byte>): (r: seq<Byte>)
    ensures |r| <= 29
  {
    if Allowed(pres) && num != [] then
      Tlv(0xA0, Tlv(0xA1, Tlv(0x0A, [ton]) + Tlv(0x12, Kept(num))))
    else if Allowed(pres) || Restricted(pres) then Tlv(0x81, [])
    else Tlv(0x82, [])
  }

  /** The argument of DivertingLegInformation2: counter, reason, diverting number,
      original called number. */
  function Argument(reason: Byte, number: seq<Byte>): (r: seq<Byte>)
    ensures |r| == 10 + 2 * |number|
  {
    Tlv(0x02, [1]) + Tlv(0x0A, [reason]) + Tlv(0xA1, number) + Tlv(0xA2, number)
  }

  function Invoke(id: Byte, argument: seq<Byte>): (r: seq<Byte>)
    ensures |r| == 8 + |argument|
  {
    Tlv(0x02, [id]) + Tlv(0x02, [0x15]) + Tlv(0x30, argument)
  }

  /** Protocol profile, interpretation, invoke. */
  function Facility(id: Byte, argument: seq<Byte>): (r: seq<Byte>)
    ensures |r| == 14 + |argument|
  {
    [0x9F] + Tlv(0x8B, [0]) + Tlv(0xA1, Invoke(id, argument))
  }

  // ---------------------------------------------------------------- the decoding

  /** addressingdataelements_presentednumberunscreened; partyaddress is its octets
      before the first zero. */
  datatype Number = Number(partyaddress: seq<Byte>, npi: int, ton: nat, pres: int)

  /** A decoder's result and the number it leaves; Outside where the source reads
      behind the message or meets an indefinite length. */
  datatype Decoded = Done(res: int, value: Number) | Outside

  /** A C string: what stands before the first zero. */
  function Text(s: seq<Byte>): (r: seq<Byte>)
    ensures r <= s && (|r| < |s| ==> s[|r|] == 0) && forall i | 0 <= i < |r| :: r[i] != 0
  {
    if s == [] || s[0] == 0 then [] else [s[0]] + Text(s[1..])
  }

  lemma {:induction false} TextWhole(s: seq<Byte>)
    requires forall i | 0 <= i < |s| :: s[i] != 0
    ensures Text(s) == s
  {
    if s != [] {
      TextWhole(s[1..]);
    }
  }

  /** CHECK_COMPONENT */
  predicate Fits(kind: Byte, want: Byte) { kind == 0 || kind % 32 == want }

  /** A component at the start of mem that is all there and has a definite length. */
  predicate Whole(mem: seq<Byte>) { |mem| >= 2 && mem[1] != 0x80 && 2 + mem[1] as int <= |mem| }

  function Content(mem: seq<Byte>): (r: seq<Byte>)
    requires Whole(mem)
    ensures |r| == mem[1] as int
  {
    mem[2..2 + mem[1] as int]
  }

  function After(mem: seq<Byte>): (r: seq<Byte>)
    requires Whole(mem)
    ensures |r| == |mem| - 2 - mem[1] as int
  {
    mem[2 + mem[1] as int..]
  }

  /** ASN1_GET_INTEGER, in 32 bits. */
  function Integer(content: seq<Byte>): (r: nat)
    decreases |content|
  {
    if content == [] then 0
    else (Integer(content[..|content| - 1]) * 256 + content[|content| - 1]) % 0x1_0000_0000
  }

  /** rose_number_digits_decode */
  function Digits(mem: seq<Byte>, len: int, value: Number): Decoded {
    if len < 2 then Done(-1, value)
    else if |mem| < 2 then Outside
    else if !Fits(mem[0], 0x12) || (mem[1] > 20 && mem[1] != 0x80) then Done(-1, value)
    else if !Whole(mem) then Outside
    else Done(|Content(mem)| + 2, value.(partyaddress := Text(Content(mem))))
  }

  /** rose_public_party_number_decode and rose_private_party_number_decode */
  function PartyNumber(mem: seq<Byte>, len: int, value: Number): Decoded {
    if len < 2 then Done(-1, value)
    else if |mem| < 2 then Outside
    else if !Fits(mem[0], 0x0A) then Done(-1, value)
    else if !Whole(mem) then Outside
    else
      var ton := TonForQ931(Integer(Content(mem)));
      match Digits(After(mem), len - 2 - |Content(mem)|, value)
      case Outside => Outside
      case Done(res, v) => if res < 0 then Done(-1, v) else Done(res + 3, v.(ton := ton))
  }

  /** rose_address_decode */
  function Address(mem: seq<Byte>, len: int, value: Number): Decoded {
    if len < 2 then Done(-1, value)
    else if !Whole(mem) then Outside
    else
      var data, n := mem[2..], mem[1] as int;
      match mem[0]
      case 0xA0 => Plus2(Digits(data, n, value), 0, 0)
      case 0x80 =>
        if n > 21 then Done(-1, value)
        else Done(n + 2, value.(partyaddress := Text(Content(mem)), npi := 0, ton := 0))
      case 0xA1 => Plus2Kept(PartyNumber(data, n, value), 1)
      case 0xA5 => Plus2Kept(PartyNumber(data, n, value), 9)
      case 0xA8 => Plus2(Digits(data, n, value), 8, 2)
      case 0xA3 => Failing(Digits(data, n, value), 3, 0)
      case 0xA4 => Failing(Digits(data, n, value), 4, 0)
      case _ => Done(-1, value)
  }

  /** An address with this plan and type of number. */
  function Plus2(d: Decoded, npi: int, ton: nat): Decoded {
    if d.Outside? then Outside
    else if d.res < 0 then Done(-1, d.value)
    else Done(d.res + 2, d.value.(npi := npi, ton := ton))
  }

  function Plus2Kept(d: Decoded, npi: int): Decoded {
    if d.Outside? then Outside else if d.res < 0 then Done(-1, d.value) else Done(d.res + 2, d.value.(npi := npi))
  }

  /** Data and telex numbers are read but refused: a data number even when its digits
      are fine, before its plan is noted. */
  function Failing(d: Decoded, npi: int, ton: nat): Decoded {
    if d.Outside? then Outside
    else if d.res < 0 || npi == 3 then Done(-1, d.value)
    else Done(-1, d.value.(npi := npi, ton := ton))
  }

  /** rose_presented_number_unscreened_decode */
  function PresentedNumber(mem: seq<Byte>, len: int, value0: Number): Decoded {
    var value := value0.(ton := 0, npi := 1, pres := -1);
    if len < 2 then Done(-1, value)
    else if !Whole(mem) then Outside
    else
      var data, n := mem[2..], mem[1] as int;
      match mem[0]
      case 0xA0 => Sized(Address(data, n, value.(pres := 0)), 2)
      case 0x81 => if n != 0 then Done(-1, value) else Done(2, value.(pres := 0x20))
      case 0x82 => if n != 0 then Done(-1, value) else Done(2, value.(pres := 0x43))
      case 0xA3 => Sized(Address(data, n, value.(pres := 0x20)), 4)
      case _ => Done(-1, value)
  }

  /** The size returned is made of the inner one even when that is an error. */
  function Sized(d: Decoded, more: int): Decoded {
    if d.Outside? then Outside else Done(d.res + more, d.value)
  }

  /** What a call knows about its diversion. */
  datatype Diversion = Diversion(redirectingplan: int, redirectingpres: int, redirectingreason: int,
                                 redirectingnum: seq<Byte>,
                                 origcalledplan: int, origcalledpres: int, origcallednum: seq<Byte>,
                                 origredirectingreason: int)

  /** The loop over the optional parts of the argument: the diverting and the original
      called number. Names are not followed. */
  datatype Parts = Parts(ok: bool, diverting: Number, original: Number, origreason: int) | Lost

  function ReadParts(mem: seq<Byte>, left: int, s: Switch, diverting: Number, original: Number,
                     origreason: int): Parts {
    if left < 2 then Parts(true, diverting, original, origreason)
    else if !Whole(mem) then Lost
    else
      var data, n := mem[2..], mem[1] as int;
      match mem[0]
      case 0x80 =>
        if n == 0 then Lost
        else ReadParts(After(mem), left - 2 - n, s, diverting, original, ReasonForQ931(s, data[0]))
      case 0xA1 =>
        (match PresentedNumber(data, n, diverting)
         case Outside => Lost
         case Done(res, v) =>
           if res < 0 then Parts(false, v, original, origreason)
           else if 2 + res > |mem| || res > 255 then Lost
           else ReadParts(mem[2 + res..], left - 2 - res, s, v, original, origreason))
      case 0xA2 =>
        (match PresentedNumber(data, n, original)
         case Outside => Lost
         case Done(res, v) =>
           if res < 0 then Parts(false, diverting, v, origreason)
           else if 2 + res > |mem| || res > 255 then Lost
           else ReadParts(mem[2 + res..], left - 2 - res, s, diverting, v, origreason))
      case 0xA3 => Lost
      case 0xA4 => Lost
      case 0xA5 => ReadParts(After(mem), left - 2 - n, s, diverting, original, origreason)
      case 0x00 => if n == 0 then ReadParts(After(mem), left - 2, s, diverting, original, origreason)
                   else Parts(false, diverting, original, origreason)
      case _ => Parts(false, diverting, original, origreason)
  }
}
