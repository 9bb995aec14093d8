/** The loops of the decoders in pri_facility.c and q931.c, moving a cursor along the
    octets of a facility element. */
module RoseDecoder {
  import opened Q931Ies
  import opened RoseWire
  import opened RoseRoundTrip

  /** ASN1_GET_INTEGER */
  method GetInteger(content: seq<Byte>) returns (variable: nat)
    ensures variable == Integer(content)
  {
    variable := 0;
    var compIdx := 0;
    assert content[..0] == [];
    while compIdx < |content|
      invariant 0 <= compIdx <= |content| && variable == Integer(content[..compIdx])
    {
      assert content[..compIdx + 1][..compIdx] == content[..compIdx];
      variable := (variable * 256 + content[compIdx]) % 0x1_0000_0000;
      compIdx := compIdx + 1;
    }
    assert content[..compIdx] == content;
  }

  /** What one turn of the loop over the parts finds: it goes on behind a part, or is
      over. */
  datatype Turn = On(size: nat, diverting: Number, original: Number, origreason: int) | Over(parts: Parts)

  /** A turn over the part at i does what the rest of the loop expects of it. */
  ghost predicate Follows(t: Turn, vdata: seq<Byte>, i: nat, len: int, s: Switch,
                          diverting: Number, original: Number, origreason: int)
    requires i <= |vdata|
  {
    && (t.On? ==> i + 2 + t.size <= |vdata|)
    && ReadParts(vdata[i..], len - i, s, diverting, original, origreason) ==
         if t.Over? then t.parts
         else ReadParts(vdata[i + 2 + t.size..], len - i - 2 - t.size, s, t.diverting, t.original, t.origreason)
  }

  /** The diverting or the original called number. */
  method TakeNumber(vdata: seq<Byte>, i: nat, ghost len: int, s: Switch,
      diverting: Number, original: Number, origreason: int)
      returns (t: Turn)
    requires i <= |vdata| && Whole(vdata[i..]) && len >= i + 2 && (vdata[i] == 0xA1 || vdata[i] == 0xA2)
    ensures Follows(t, vdata, i, len, s, diverting, original, origreason)
  {
    hide PresentedNumber, ReasonForQ931;
    var d := PresentedNumber(vdata[i + 2..], vdata[i + 1], if vdata[i] == 0xA1 then diverting else original);
    assert vdata[i..][2..] == vdata[i + 2..];
    if d.Outside? {
      return Over(Lost);
    }
    var first, second := diverting, original;
    if vdata[i] == 0xA1 {
      first := d.value;
    } else {
      second := d.value;
    }
    if d.res < 0 {
      return Over(Parts(false, first, second, origreason));
    }
    if i + 2 + d.res > |vdata| || d.res > 255 {
      return Over(Lost);
    }
    t := On(d.res, first, second, origreason);
    assert vdata[i..][2 + d.res..] == vdata[i + 2 + d.res..];
  }

  /** The switch in the loop, for a part that is all there. */
  method TakePart(vdata: seq<Byte>, i: nat, ghost len: int, s: Switch,
      diverting: Number, original: Number, origreason: int)
      returns (t: Turn)
    requires i <= |vdata| && Whole(vdata[i..]) && len >= i + 2
    ensures Follows(t, vdata, i, len, s, diverting, original, origreason)
  {
    var kind := vdata[i];
    var n: nat := vdata[i + 1];
    if kind == 0xA1 || kind == 0xA2 {
      hide ReadParts;
      t := TakeNumber(vdata, i, len, s, diverting, original, origreason);
      return;
    }
    hide PresentedNumber, ReasonForQ931;
    assert After(vdata[i..]) == vdata[i + 2 + n..];
    if kind == 0x80 {
      assert n > 0 ==> vdata[i..][2..][0] == vdata[i + 2];
      t := if n == 0 then Over(Lost) else On(n, diverting, original, ReasonForQ931(s, vdata[i + 2]));
    } else if kind == 0xA3 || kind == 0xA4 {
      t := Over(Lost);
    } else if kind == 0xA5 || (kind == 0 && n == 0) {
      t := On(n, diverting, original, origreason);
    } else {
      t := Over(Parts(false, diverting, original, origreason));
    }
  }

  /** What is still to be read leads to this result. */
  ghost predicate Reaches(goal: Parts, mem: seq<Byte>, left: int, s: Switch,
                          diverting: Number, original: Number, origreason: int) {
    ReadParts(mem, left, s, diverting, original, origreason) == goal
  }

  lemma ReachesStart(vdata: seq<Byte>, len: int, s: Switch, diverting: Number, original: Number, origreason: int)
    ensures Reaches(ReadParts(vdata, len, s, diverting, original, origreason), vdata[0..], len, s,
                    diverting, original, origreason)
  {
    assert vdata[0..] == vdata;
  }

  lemma WholeFrom(vdata: seq<Byte>, i: nat)
    requires i <= |vdata|
    ensures Whole(vdata[i..]) <==> i + 2 <= |vdata| && vdata[i + 1] != 0x80 && i + 2 + vdata[i + 1] <= |vdata|
  {}

  lemma ReachesOn(goal: Parts, t: Turn, vdata: seq<Byte>, i: nat, len: int, s: Switch,
                  diverting: Number, original: Number, origreason: int)
    requires i <= |vdata| && Reaches(goal, vdata[i..], len - i, s, diverting, original, origreason)
    requires Follows(t, vdata, i, len, s, diverting, original, origreason)
    ensures t.On? ==> i + 2 + t.size <= |vdata|
    ensures if t.Over? then goal == t.parts
            else var k := i + 2 + t.size; Reaches(goal, vdata[k..], len - k, s, t.diverting, t.original, t.origreason)
  {
    hide ReadParts;
    assert t.On? ==> len - (i + 2 + t.size) == len - i - 2 - t.size;
  }

  lemma ReachesEnd(goal: Parts, mem: seq<Byte>, left: int, s: Switch,
                   diverting: Number, original: Number, origreason: int)
    requires Reaches(goal, mem, left, s, diverting, original, origreason)
    ensures left < 2 ==> goal == Parts(true, diverting, original, origreason)
    ensures left >= 2 && !Whole(mem) ==> goal == Lost
  {}

  /** The loop of rose_diverting_leg_information2_decode over vdata. A part takes as
      many octets as its decoder says, not as many as its length octet says. */
  method DecodeParts(vdata: seq<Byte>, len: int, s: Switch, diverting0: Number, original0: Number, origreason0: int)
      returns (parts: Parts)
    ensures parts == ReadParts(vdata, len, s, diverting0, original0, origreason0)
  {
    var diverting, original, origreason := diverting0, original0, origreason0;
    var i := 0;
    ghost var goal := ReadParts(vdata, len, s, diverting, original, origreason);
    hide *;
    ReachesStart(vdata, len, s, diverting, original, origreason);
    while i < len
      invariant 0 <= i <= |vdata|
      invariant Reaches(goal, vdata[i..], len - i, s, diverting, original, origreason)
      decreases |vdata| - i
    {
      if i + 2 > len {
        break;
      }
      WholeFrom(vdata, i);
      if i + 2 > |vdata| || vdata[i + 1] == 0x80 || i + 2 + vdata[i + 1] > |vdata| {
        ReachesEnd(goal, vdata[i..], len - i, s, diverting, original, origreason);
        return Lost;
      }
      var t := TakePart(vdata, i, len, s, diverting, original, origreason);
      ReachesOn(goal, t, vdata, i, len, s, diverting, original, origreason);
      if t.Over? {
        return t.parts;
      }
      i, diverting, original, origreason := i + 2 + t.size, t.diverting, t.original, t.origreason;
    }
    ReachesEnd(goal, vdata[i..], len - i, s, diverting, original, origreason);
    parts := Parts(true, diverting, original, origreason);
  }

  /** The loop of receive_facility. */
  method WalkComponents(data: seq<Byte>, start: nat, extensions0: bool, s: Switch, call0: Diversion)
    returns (o: Outcome)
    requires start <= |data|
    ensures o == Walk(data[start..], |data| - start, extensions0, s, call0)
  {
    hide InvokeDecode;
    var i, extensions, call := start, extensions0, call0;
    while i + 1 < |data|
      invariant start <= i <= |data|
      invariant Walk(data[start..], |data| - start, extensions0, s, call0)
             == Walk(data[i..], |data| - i, extensions, s, call)
    {
      ghost var rest := data[i..];
      if data[i + 1] == 0x80 || i + 2 + data[i + 1] > |data| {
        return Unknown;
      }
      var kind := data[i];
      var n: nat := data[i + 1];
      assert Whole(rest) && rest[2..] == data[i + 2..] && After(rest) == data[i + 2 + n..];
      if kind != 0 && !(extensions && (kind == 0x8B || kind == 0xAA || kind == 0x92)) {
        extensions := false;
        if kind == 0xA1 {
          var d := InvokeDecode(data[i + 2..], n, s, call);
          if d.Unknown? {
            return Unknown;
          }
          call := d.call;
        } else if 0xA2 <= kind <= 0xA4 {
          return Unknown;
        }
      }
      i := i + n + 2;
    }
    o := Finished(|data| - i, call);
  }

  /** receive_facility: a wrong profile or less than three octets is refused. */
  method Receive(data: seq<Byte>, s: Switch, call: Diversion) returns (o: Outcome)
    ensures o == ReceiveFacility(data, s, call)
  {
    hide Walk;
    if |data| < 1 {
      return Finished(-1, call);
    }
    var protocol := data[0] % 32;
    if protocol != 0x1F && protocol != 0x11 {
      return Finished(-1, call);
    }
    var i := 0;
    if data[0] < 0x80 {
      i := i + 1;
    }
    i := i + 1;
    if |data| < 3 {
      return Finished(-1, call);
    }
    o := WalkComponents(data, i, protocol == 0x1F, s, call);
  }
}
