/** The ASN1_ADD, ASN1_PUSH and ASN1_FIXUP macros of pri_facility.h: components are
    written into a buffer with a length of zero, and the lengths of those that enclose
    others are filled in from a stack when they are complete. */
module RoseBuilder {
  import opened Q931Ies
  import opened RoseWire

  /** A component that is not complete yet. */
  datatype Frame = Frame(kind: Byte, content: seq<Byte>)

  /** What is complete, and the open components, outermost first. */
  datatype Draft = Draft(base: seq<Byte>, frames: seq<Frame>)

  /** The octets of a draft: an open component still has length 0. */
  function Flat(d: Draft): (r: seq<Byte>)
    decreases |d.frames|
  {
    if d.frames == [] then d.base
    else
      var n := |d.frames| - 1;
      Flat(Draft(d.base, d.frames[..n])) + [d.frames[n].kind, 0] + d.frames[n].content
  }

  /** Octets go into the innermost open component. */
  function Add(d: Draft, more: seq<Byte>): Draft {
    if d.frames == [] then d.(base := d.base + more)
    else
      var n := |d.frames| - 1;
      d.(frames := d.frames[n := d.frames[n].(content := d.frames[n].content + more)])
  }

  function Open(d: Draft, kind: Byte): Draft { d.(frames := d.frames + [Frame(kind, [])]) }

  /** The innermost open component is complete: it becomes content of the next one. */
  function Close(d: Draft): Draft
    requires d.frames != []
  {
    var n := |d.frames| - 1;
    Add(d.(frames := d.frames[..n]), Tlv(d.frames[n].kind, d.frames[n].content))
  }

  /** Where open component k begins. */
  function Start(d: Draft, k: nat): nat
    requires k <= |d.frames|
  {
    |Flat(Draft(d.base, d.frames[..k]))|
  }

  lemma AddIs(d: Draft, more: seq<Byte>)
    ensures Flat(Add(d, more)) == Flat(d) + more
    ensures |Add(d, more).frames| == |d.frames|
    ensures forall k | 0 <= k < |d.frames| :: Start(Add(d, more), k) == Start(d, k)
  {
    if d.frames != [] {
      var n := |d.frames| - 1;
      assert Add(d, more).frames[..n] == d.frames[..n];
      forall k | 0 <= k < |d.frames| ensures Start(Add(d, more), k) == Start(d, k) {
        assert Add(d, more).frames[..k] == d.frames[..k];
      }
    }
  }

  lemma OpenIs(d: Draft, kind: Byte)
    ensures Flat(Open(d, kind)) == Flat(d) + [kind, 0]
    ensures forall k | 0 <= k < |d.frames| :: Start(Open(d, kind), k) == Start(d, k)
    ensures Start(Open(d, kind), |d.frames|) == |Flat(d)|
  {
    var e := Open(d, kind);
    assert e.frames[..|d.frames|] == d.frames;
    forall k | 0 <= k < |d.frames| ensures Start(e, k) == Start(d, k) { assert e.frames[..k] == d.frames[..k]; }
  }

  lemma Patched(a: seq<Byte>, kind: Byte, content: seq<Byte>)
    ensures (a + [kind, 0] + content)[|a| + 1 := |content| % 256] == a + Tlv(kind, content)
  {}

  /** Completing a component changes its length octet and nothing else. */
  lemma CloseIs(d: Draft)
    requires d.frames != []
    ensures var n := |d.frames| - 1;
            var at := Start(d, n);
            && at + 2 <= |Flat(d)| && |Close(d).frames| == n
            && Flat(Close(d)) == Flat(d)[at + 1 := (|Flat(d)| - at - 2) % 256]
            && forall k | 0 <= k < n :: Start(Close(d), k) == Start(d, k)
  {
    var n := |d.frames| - 1;
    var outer := d.(frames := d.frames[..n]);
    var f := d.frames[n];
    AddIs(outer, Tlv(f.kind, f.content));
    OuterStarts(d);
    Patched(Flat(outer), f.kind, f.content);
    assert Flat(d) == Flat(outer) + [f.kind, 0] + f.content && Start(d, n) == |Flat(outer)|;
    assert Close(d) == Add(outer, Tlv(f.kind, f.content));
    hide Flat, Start, Add, Close, Tlv;
  }

  lemma OuterStarts(d: Draft)
    requires d.frames != []
    ensures var outer := d.(frames := d.frames[..|d.frames| - 1]);
            forall k | 0 <= k < |outer.frames| :: Start(outer, k) == Start(d, k)
  {
    var outer := d.(frames := d.frames[..|d.frames| - 1]);
    forall k | 0 <= k < |outer.frames| ensures Start(outer, k) == Start(d, k) {
      assert outer.frames[..k] == d.frames[..k];
    }
  }

  class Builder {
    const buffer: array<Byte>
    var i: nat
    var compstk: seq<nat>
    ghost var draft: Draft

    ghost predicate Valid()
      reads this, buffer
    {
      && buffer.Length == 256 && i <= 256
      && buffer[..i] == Flat(draft)
      && |compstk| == |draft.frames|
      && forall k | 0 <= k < |compstk| :: compstk[k] == Start(draft, k)
    }

    constructor ()
      ensures Valid() && fresh(buffer) && draft == Draft([], []) && i == 0
    {
      buffer := new Byte[256](_ => 0);
      i, compstk, draft := 0, [], Draft([], []);
    }

    /** `buffer[i] = b; i++` */
    method Octet(b: Byte)
      requires Valid() && i < 256
      modifies this, buffer
      ensures Valid() && draft == Add(old(draft), [b]) && i == old(i) + 1
    {
      AddIs(draft, [b]);
      buffer[i] := b;
      i := i + 1;
      draft := Add(draft, [b]);
      hide Flat, Add, Start;
      assert buffer[..i] == old(buffer[..i]) + [b];
    }

    /** ASN1_ADD_SIMPLE */
    method AddSimple(kind: Byte)
      requires Valid() && i + 2 <= 256
      modifies this, buffer
      ensures Valid() && draft == Add(old(draft), Tlv(kind, [])) && i == old(i) + 2
    {
      AddIs(draft, Tlv(kind, []));
      buffer[i] := kind;
      buffer[i + 1] := 0;
      i := i + 2;
      draft := Add(draft, Tlv(kind, []));
      hide Flat, Add, Start;
      assert buffer[..i] == old(buffer[..i]) + Tlv(kind, []);
    }

    /** ASN1_ADD_BYTECOMP */
    method AddByteComp(kind: Byte, value: Byte)
      requires Valid() && i + 3 <= 256
      modifies this, buffer
      ensures Valid() && draft == Add(old(draft), Tlv(kind, [value])) && i == old(i) + 3
    {
      AddIs(draft, Tlv(kind, [value]));
      buffer[i] := kind;
      buffer[i + 1] := 1;
      buffer[i + 2] := value;
      i := i + 3;
      draft := Add(draft, Tlv(kind, [value]));
      hide Flat, Add, Start;
      assert buffer[..i] == old(buffer[..i]) + Tlv(kind, [value]);
    }

    /** ASN1_ADD_SIMPLE and ASN1_PUSH */
    method Push(kind: Byte)
      requires Valid() && i + 2 <= 256
      modifies this, buffer
      ensures Valid() && draft == Open(old(draft), kind) && i == old(i) + 2
    {
      OpenIs(draft, kind);
      ghost var n := |draft.frames|;
      buffer[i] := kind;
      buffer[i + 1] := 0;
      compstk := compstk + [i];
      i := i + 2;
      draft := Open(draft, kind);
      assert |draft.frames| == n + 1;
      hide Flat, Open, Start;
      assert buffer[..i] == old(buffer[..i]) + [kind, 0];
    }

    /** ASN1_FIXUP */
    method Fixup()
      requires Valid() && draft.frames != []
      modifies this, buffer
      ensures Valid() && draft == Close(old(draft)) && i == old(i)
    {
      CloseIs(draft);
      ghost var n := |draft.frames| - 1;
      var comp := compstk[|compstk| - 1];
      compstk := compstk[..|compstk| - 1];
      buffer[comp + 1] := (i - comp - 2) % 256;
      draft := Close(draft);
      hide Flat, Close, Start;
      assert buffer[..i] == old(buffer[..i])[comp + 1 := (i - comp - 2) % 256];
    }

    /** A header, then srcLen octets of a string. */
    method Copy(kind: Byte, srcLen: nat, src: seq<Byte>)
      requires i + 2 + srcLen <= buffer.Length && srcLen <= |src| && srcLen < 256
      modifies buffer
      ensures buffer[..i] == old(buffer[..i])
      ensures buffer[i..i + 2 + srcLen] == [kind, srcLen] + src[..srcLen]
    {
      buffer[i] := kind;
      buffer[i + 1] := srcLen;
      var k := 0;
      while k < srcLen
        invariant 0 <= k <= srcLen
        invariant buffer[..i] == old(buffer[..i]) && buffer[i] == kind && buffer[i + 1] == srcLen
        invariant buffer[i + 2..i + 2 + k] == src[..k]
      {
        buffer[i + 2 + k] := src[k];
        k := k + 1;
      }
    }

    /** asn1_string_encode into what is left of len octets. The test counts the whole
        string, the component at most maxLen octets of it. */
    method AddString(kind: Byte, len: int, maxLen: nat, src: seq<Byte>) returns (ok: bool)
      requires Valid() && len <= 256 && |src| < 256
      modifies this, buffer
      ensures ok <==> old(i) + 2 + |src| <= len
      ensures Valid() && if ok then draft == Add(old(draft), Tlv(kind, Cut(src, maxLen)))
              && i == old(i) + 2 + |Cut(src, maxLen)|
                         else draft == old(draft) && i == old(i)
    {
      hide Valid;
      if len - i < 2 + |src| {
        return false;
      }
      var srcLen := |src|;
      if maxLen != 0 && srcLen > maxLen {
        srcLen := maxLen;
      }
      assert Cut(src, maxLen) == src[..srcLen];
      Extend(kind, srcLen, src);
      return true;
    }

    /** A component is written behind what is there. */
    method Extend(kind: Byte, srcLen: nat, src: seq<Byte>)
      requires Valid() && i + 2 + srcLen <= 256 && srcLen <= |src| && srcLen < 256
      modifies this, buffer
      ensures Valid() && draft == Add(old(draft), Tlv(kind, src[..srcLen])) && i == old(i) + 2 + srcLen
    {
      ghost var t := Tlv(kind, src[..srcLen]);
      AddIs(draft, t);
      hide Add, Start, Flat;
      Copy(kind, srcLen, src);
      assert buffer[..i + 2 + srcLen] == old(buffer[..i]) + t;
      i := i + 2 + srcLen;
      draft := Add(draft, t);
    }
  }

  function Cut(src: seq<Byte>, maxLen: nat): seq<Byte> {
    if maxLen != 0 && |src| > maxLen then src[..maxLen] else src
  }
}
