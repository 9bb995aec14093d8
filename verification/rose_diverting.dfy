/** rose_diverting_leg_information2_encode. */
module RoseDiverting {
  import opened Q931Ies
  import opened RoseWire
  import opened RoseBuilder

  lemma AddTwice(d: Draft, x: seq<Byte>, y: seq<Byte>)
    ensures Add(Add(d, x), y) == Add(d, x + y)
  {
    if d.frames == [] {
      assert d.base + x + y == d.base + (x + y);
    } else {
      var n := |d.frames| - 1;
      assert d.frames[n].content + x + y == d.frames[n].content + (x + y);
    }
  }

  /** A component that is opened, filled and completed. */
  lemma OpenAddClose(d: Draft, kind: Byte, content: seq<Byte>)
    ensures Close(Add(Open(d, kind), content)) == Add(d, Tlv(kind, content))
  {
    var o := Add(Open(d, kind), content);
    assert [] + content == content;
    assert o.frames == d.frames + [Frame(kind, content)];
    assert o.frames[..|d.frames|] == d.frames;
  }

  /** The digits with the plan and the type around them, as presentationAllowedNumber. */
  method PutAddress(b: Builder, ton: Byte, num: seq<Byte>) returns (ok: bool)
    requires b.Valid() && b.i + 29 <= 253 && |num| < 256
    modifies b, b.buffer
    ensures b.Valid()
    ensures ok <==> old(b.i) + 9 + |num| <= 253
    ensures ok ==> b.draft == Add(old(b.draft), Tlv(0xA0, Tlv(0xA1, Tlv(0x0A, [ton]) + Tlv(0x12, Kept(num)))))
                   && b.i == old(b.i) + 9 + |Kept(num)|
  {
    ghost var d := b.draft;
    hide Builder.Valid, Open, Close, Add, Tlv;
    b.Push(0xA0);
    ok := PutTypeAndDigits(b, ton, num);
    if !ok {
      return;
    }
    ghost var inner := Tlv(0xA1, Tlv(0x0A, [ton]) + Tlv(0x12, Kept(num)));
    CanClose(d, 0xA0, inner);
    b.Fixup();
    OpenAddClose(d, 0xA0, inner);
  }

  /** The type of number and the digits, in their component. */
  method PutTypeAndDigits(b: Builder, ton: Byte, num: seq<Byte>) returns (ok: bool)
    requires b.Valid() && b.i + 27 <= 253 && |num| < 256
    modifies b, b.buffer
    ensures b.Valid()
    ensures ok <==> old(b.i) + 7 + |num| <= 253
    ensures ok ==> b.draft == Add(old(b.draft), Tlv(0xA1, Tlv(0x0A, [ton]) + Tlv(0x12, Kept(num))))
                   && b.i == old(b.i) + 7 + |Kept(num)|
  {
    ghost var d := b.draft;
    hide Builder.Valid, Open, Close, Add, Tlv;
    b.Push(0xA1);
    b.AddByteComp(0x0A, ton);
    ok := b.AddString(0x12, 253, 20, num);
    if !ok {
      return;
    }
    ghost var x, y := Tlv(0x0A, [ton]), Tlv(0x12, Kept(num));
    AddTwice(Open(d, 0xA1), x, y);
    CanClose(d, 0xA1, x + y);
    b.Fixup();
    OpenAddClose(d, 0xA1, x + y);
  }

  lemma CanClose(d: Draft, kind: Byte, content: seq<Byte>)
    ensures Add(Open(d, kind), content).frames != []
  {}

  /** One of the two numbers of the argument. */
  method PutNumber(b: Builder, kind: Byte, pres: int, ton: Byte, num: seq<Byte>) returns (ok: bool)
    requires b.Valid() && b.i + 31 <= 253 && |num| < 256
    modifies b, b.buffer
    ensures b.Valid()
    ensures ok <==> !(Allowed(pres) && num != []) || old(b.i) + 11 + |num| <= 253
    ensures ok ==> b.draft == Add(old(b.draft), Tlv(kind, Presented(pres, ton, num)))
                   && b.i == old(b.i) + 2 + |Presented(pres, ton, num)|
  {
    ghost var d := b.draft;
    ghost var p := Presented(pres, ton, num);
    assert !(Allowed(pres) && num != []) ==> p == Tlv(if Allowed(pres) || Restricted(pres) then 0x81 else 0x82, []);
    assert Allowed(pres) && num != [] ==>
             |p| == 9 + |Kept(num)| && p == Tlv(0xA0, Tlv(0xA1, Tlv(0x0A, [ton]) + Tlv(0x12, Kept(num))));
    hide Builder.Valid, Open, Close, Add, Tlv, Presented, Kept;
    b.Push(kind);
    if Allowed(pres) && num != [] {
      ok := PutAddress(b, ton, num);
      if !ok {
        return;
      }
    } else if Allowed(pres) || Restricted(pres) {
      ok := true;
      b.AddSimple(0x81);
    } else {
      ok := true;
      b.AddSimple(0x82);
    }
    CanClose(d, kind, p);
    b.Fixup();
    OpenAddClose(d, kind, p);
  }

  /** A number whose encoding fits: more than 191 digits do not, although only 20 of
      them are sent. */
  predicate Encodable(pres: int, num: seq<Byte>) { Allowed(pres) && num != [] ==> |num| <= 191 }

  /** rose_diverting_leg_information2_encode up to the queueing of what it built. */
  method Encode(id: Byte, s: Switch, reason: int, pres: int, ton: int, num: seq<Byte>)
    returns (ok: bool, apdu: seq<Byte>)
    requires |num| < 256
    ensures ok <==> Encodable(pres, num)
    ensures ok ==> apdu == Facility(id, Argument(ReasonFromQ931(s, reason), Presented(pres, TonFromQ931(ton), num)))
  {
    var b := new Builder();
    apdu := [];
    var r, t := ReasonFromQ931(s, reason), TonFromQ931(ton);
    ghost var p := Presented(pres, t, num);
    assert Allowed(pres) && num != [] ==> |p| == 9 + |Kept(num)|;
    hide Builder.Valid, Open, Close, Add, Tlv, Presented, ReasonFromQ931, TonFromQ931;
    PutHead(b, id);
    ghost var head := [0x9F] + Tlv(0x8B, [0]);
    ghost var outer := Open(Draft(head, []), 0xA1);
    ghost var ids := Tlv(0x02, [id]) + Tlv(0x02, [0x15]);
    b.Push(0x30);
    ghost var d := Open(Add(outer, ids), 0x30);
    b.AddByteComp(0x02, 1);
    b.AddByteComp(0x0A, r);
    AddTwice(d, Tlv(0x02, [1]), Tlv(0x0A, [r]));
    ok := PutNumber(b, 0xA1, pres, t, num);
    if !ok {
      return;
    }
    AddTwice(d, Tlv(0x02, [1]) + Tlv(0x0A, [r]), Tlv(0xA1, p));
    ok := PutNumber(b, 0xA2, pres, t, num);
    if !ok {
      return;
    }
    AddTwice(d, Tlv(0x02, [1]) + Tlv(0x0A, [r]) + Tlv(0xA1, p), Tlv(0xA2, p));
    ghost var a := Argument(r, p);
    assert b.draft == Add(d, a);
    FinishAll(b, id, head, ids, a);
    apdu := b.buffer[..b.i];
  }

  /** Protocol profile, interpretation, and the start of the invoke. */
  method PutHead(b: Builder, id: Byte)
    requires b.Valid() && b.draft == Draft([], []) && b.i == 0
    modifies b, b.buffer
    ensures b.Valid() && b.i == 12
    ensures b.draft == Add(Open(Draft([0x9F] + Tlv(0x8B, [0]), []), 0xA1), Tlv(0x02, [id]) + Tlv(0x02, [0x15]))
  {
    hide Builder.Valid, Tlv;
    b.Octet(0x9F);
    b.AddByteComp(0x8B, 0);
    assert [] + [0x9F] + Tlv(0x8B, [0]) == [0x9F] + Tlv(0x8B, [0]);
    b.Push(0xA1);
    b.AddByteComp(0x02, id);
    b.AddByteComp(0x02, 0x15);
    AddTwice(Open(Draft([0x9F] + Tlv(0x8B, [0]), []), 0xA1), Tlv(0x02, [id]), Tlv(0x02, [0x15]));
  }

  /** The loop that completes what is still open. */
  method FinishAll(b: Builder, ghost id: Byte, ghost head: seq<Byte>, ghost ids: seq<Byte>, ghost a: seq<Byte>)
    requires head == [0x9F] + Tlv(0x8B, [0]) && ids == Tlv(0x02, [id]) + Tlv(0x02, [0x15])
    requires b.Valid() && b.draft == Add(Open(Add(Open(Draft(head, []), 0xA1), ids), 0x30), a)
    modifies b, b.buffer
    ensures b.Valid() && b.buffer[..b.i] == Facility(id, a)
  {
    ghost var outer := Open(Draft(head, []), 0xA1);
    ghost var argument := Tlv(0x30, a);
    OpenAddClose(Add(outer, ids), 0x30, a);
    AddTwice(outer, ids, argument);
    OpenAddClose(Draft(head, []), 0xA1, ids + argument);
    CanClose(Add(outer, ids), 0x30, a);
    CanClose(Draft(head, []), 0xA1, ids + argument);
    assert Flat(Add(Draft(head, []), Tlv(0xA1, ids + argument))) == Facility(id, a);
    ghost var last := Add(Draft(head, []), Tlv(0xA1, ids + argument));
    assert last.frames == [];
    hide Tlv, Facility, Open, Close, Add;
    while |b.compstk| > 0
      invariant b.Valid()
      invariant b.draft == Add(Open(Add(outer, ids), 0x30), a) || b.draft == Add(outer, ids + argument)
                || b.draft == last
      decreases |b.compstk|
    {
      b.Fixup();
    }
  }
}
