/** q931.c: a message is built in a buffer element by element, and taken apart again
    by the loop of q931_receive. */
module Q931Message {
  import opened Q931Ies

  /** What one call of a transmit routine does: it fails, has nothing to say, or
      writes an element. */
  datatype Outcome = Failed | Skipped | Wrote(data: seq<Byte>)

  datatype Option<T> = None | Some(value: T)

  /** A row of the element table as one message uses it: what its transmit routine
      does when it is called for the first, second, third time. max_count 0 stands
      for no limit. */
  datatype Entry = Entry(codeset: nat, id: Byte, maxCount: nat, script: seq<Outcome>)

  predicate SoundEntry(e: Entry) {
    e.codeset < 8 && forall k | 0 <= k < |e.script| && e.script[k].Wrote? :: Sound(e.id, e.script[k].data)
  }

  function Call(script: seq<Outcome>, k: nat): Outcome { if k < |script| then script[k] else Skipped }

  /** What is written from call k on; None if a call fails. */
  function Contents(script: seq<Outcome>, k: nat, maxCount: nat): Option<seq<seq<Byte>>>
    decreases |script| - k
  {
    match Call(script, k)
    case Failed => None
    case Skipped => Some([])
    case Wrote(data) =>
      if maxCount != 0 && k + 1 >= maxCount then Some([data]) else Before([data], Contents(script, k + 1, maxCount))
  }

  function Before(a: seq<seq<Byte>>, r: Option<seq<seq<Byte>>>): Option<seq<seq<Byte>>> {
    if r.None? then None else Some(a + r.value)
  }

  function GroupOf(e: Entry): Option<Group> {
    var c := Contents(e.script, 0, e.maxCount);
    if c.None? then None else Some(Group(e.codeset, e.id, c.value))
  }

  lemma {:induction false} ContentsSound(e: Entry, k: nat)
    requires SoundEntry(e)
    ensures var c := Contents(e.script, k, e.maxCount); c.Some? ==> AllSound(e.id, c.value)
    decreases |e.script| - k
  {
    if k < |e.script| && e.script[k].Wrote? {
      ContentsSound(e, k + 1);
    }
  }

  /** Octets the calls of an entry can take. */
  function Room(script: seq<Outcome>, k: nat): nat
    decreases |script| - k
  {
    if k >= |script| then 0 else (if script[k].Wrote? then 2 + |script[k].data| else 0) + Room(script, k + 1)
  }

  lemma OctetsSize(id: Byte, data: seq<Byte>)
    requires Sound(id, data)
    ensures |Octets(id, data)| <= 2 + |data|
  {}

  lemma RoomOne(script: seq<Outcome>, k: nat)
    requires k < |script| && script[k].Wrote?
    ensures Room(script, k) == 2 + |script[k].data| + Room(script, k + 1)
  {}

  // ------------------------------------------------------------------- writing

  lemma {:induction false} BodyMore(id: Byte, contents: seq<seq<Byte>>, data: seq<Byte>)
    requires AllSound(id, contents) && Sound(id, data)
    ensures AllSound(id, contents + [data]) && Body(id, contents + [data]) == Body(id, contents) + Octets(id, data)
  {
    hide *;
    AllSoundMore(id, contents, data);
    BodySplit(id, contents + [data]);
    if contents == [] {
      assert contents + [data] == [data] && [data][1..] == [];
      BodyNone(id);
      assert Octets(id, data) + [] == [] + Octets(id, data);
    } else {
      BodySplit(id, contents);
      BodyMore(id, contents[1..], data);
      assert (contents + [data])[1..] == contents[1..] + [data] && (contents + [data])[0] == contents[0];
    }
  }

  lemma BodyNone(id: Byte)
    ensures AllSound(id, []) && Body(id, []) == []
  {}

  lemma AllSoundMore(id: Byte, contents: seq<seq<Byte>>, data: seq<Byte>)
    requires AllSound(id, contents) && Sound(id, data)
    ensures AllSound(id, contents + [data])
  {}

  lemma BodySplit(id: Byte, contents: seq<seq<Byte>>)
    requires AllSound(id, contents) && contents != []
    ensures Sound(id, contents[0]) && AllSound(id, contents[1..])
    ensures Body(id, contents) == Octets(id, contents[0]) + Body(id, contents[1..])
  {}

  /** A transmit routine: it writes behind the two octets of the header and returns
      the length with them. */
  method Transmit(buf: array<Byte>, iet: nat, id: Byte, data: seq<Byte>) returns (res: nat)
    requires Sound(id, data) && iet + 2 + |data| <= buf.Length && buf[iet] == id
    modifies buf
    ensures res == |Octets(id, data)| && res > 0
    ensures forall i | 0 <= i < buf.Length && i < iet + 2 :: buf[i] == old(buf[i])
    ensures id < 0x80 ==> buf[iet + 2..iet + res] == data
  {
    if id >= 0x80 {
      return 1;
    }
    var i := 0;
    while i < |data|
      invariant 0 <= i <= |data|
      invariant forall q | 0 <= q < i :: buf[iet + 2 + q] == data[q]
      invariant forall q | 0 <= q < buf.Length && q < iet + 2 :: buf[q] == old(buf[q])
    {
      buf[iet + 2 + i] := data[i];
      i := i + 1;
    }
    res := 2 + |data|;
  }

  /** One turn of the loop of add_ie that writes something. */
  method PutIe(buf: array<Byte>, iet: nat, id: Byte, data: seq<Byte>) returns (res: nat)
    requires Sound(id, data) && iet + 2 + |data| <= buf.Length
    modifies buf
    ensures res == |Octets(id, data)| && buf[iet..iet + res] == Octets(id, data) && res > 0
    ensures buf[..iet] == old(buf[..iet])
  {
    buf[iet] := id;
    res := Transmit(buf, iet, id, data);
    if id < 0x80 {
      buf[iet + 1] := res - 2;
      assert buf[iet + 2..iet + res] == data;
    }
  }

  method PutBehind(buf: array<Byte>, start: nat, iet: nat, id: Byte, data: seq<Byte>) returns (res: nat)
    requires Sound(id, data) && start <= iet && iet + 2 + |data| <= buf.Length
    modifies buf
    ensures res == |Octets(id, data)| && res > 0
    ensures buf[start..iet + res] == old(buf[start..iet]) + Octets(id, data)
    ensures buf[..start] == old(buf[..start])
  {
    hide *;
    OctetsSize(id, data);
    ghost var was := buf[..iet];
    res := PutIe(buf, iet, id, data);
    ghost var now := buf[..iet + res];
    assert now[..iet] == was && now[iet..] == Octets(id, data);
    TailJoins(now, was, start, iet);
    assert buf[start..iet + res] == now[start..] && buf[..start] == was[..start];
  }

  lemma TailJoins(now: seq<Byte>, was: seq<Byte>, start: nat, mid: nat)
    requires start <= mid <= |now| && now[..mid] == was
    ensures now[start..] == was[start..] + now[mid..]
  {}

  /** add_ie. The result is negative for an error. */
  method AddIe(buf: array<Byte>, at: nat, e: Entry, codeset0: nat) returns (res: int, codeset: nat)
    requires SoundEntry(e) && at + 1 + Room(e.script, 0) <= buf.Length
    modifies buf
    ensures buf[..at] == old(buf[..at])
    ensures GroupOf(e).None? ==> res == -1
    ensures GroupOf(e).Some? ==>
              && SoundGroup(GroupOf(e).value)
              && res == |GroupOctets(GroupOf(e).value, codeset0)| && at + res <= buf.Length
              && buf[at..at + res] == GroupOctets(GroupOf(e).value, codeset0)
              && codeset == LockedBy(GroupOf(e).value, codeset0)
  {
    hide Contents, Body, Room, Sound, AllSound;
    var iet := at;
    codeset := codeset0;
    var haveShift := false;
    ContentsSound(e, 0);
    if codeset != e.codeset {
      buf[iet] := Shift(e.codeset);
      haveShift := true;
      iet := iet + 1;
    }
    var totalRes;
    res, totalRes := AddContents(buf, iet, e);
    if res < 0 {
      return res, codeset;
    }
    var g := GroupOf(e).value;
    assert buf[iet..iet + totalRes] == Body(g.id, g.contents);
    if haveShift && totalRes > 0 {
      if e.codeset > 0 {
        codeset := e.codeset;
      }
      assert buf[at] == buf[..iet][at];
      assert buf[at..iet + totalRes] == [Shift(e.codeset)] + Body(g.id, g.contents);
      BodyEmptyIff(g.id, g.contents);
      return totalRes + 1, codeset;
    }
    BodyEmptyIff(g.id, g.contents);
    return totalRes, codeset;
  }

  lemma BodyEmptyIff(id: Byte, contents: seq<seq<Byte>>)
    requires AllSound(id, contents)
    ensures Body(id, contents) == [] <==> contents == []
  {}

  /** The do-while loop of add_ie. */
  method AddContents(buf: array<Byte>, iet0: nat, e: Entry) returns (res: int, totalRes: nat)
    requires SoundEntry(e) && iet0 + Room(e.script, 0) <= buf.Length
    modifies buf
    ensures buf[..iet0] == old(buf[..iet0])
    ensures GroupOf(e).None? ==> res == -1
    ensures GroupOf(e).Some? ==>
              && SoundGroup(GroupOf(e).value) && res >= 0
              && totalRes == |Body(e.id, GroupOf(e).value.contents)| && iet0 + totalRes <= buf.Length
              && buf[iet0..iet0 + totalRes] == Body(e.id, GroupOf(e).value.contents)
  {
    hide Sound, Octets, Room, Body, AllSound;
    BodyNone(e.id);
    ghost var written: seq<seq<Byte>> := [];
    var iet, order := iet0, 0;
    res, totalRes := 0, 0;
    ContentsSound(e, 0);
    NothingBefore(Contents(e.script, 0, e.maxCount));
    assert buf[iet0..iet0] == [];
    var more := true;
    while more
      invariant iet == iet0 + totalRes && (more ==> iet + Room(e.script, order) <= buf.Length) && iet <= buf.Length
      invariant AllSound(e.id, written) && buf[iet0..iet] == Body(e.id, written)
      invariant buf[..iet0] == old(buf[..iet0])
      invariant if more then Contents(e.script, 0, e.maxCount) == Before(written, Contents(e.script, order, e.maxCount))
                else Contents(e.script, 0, e.maxCount) == Some(written) && res >= 0
      invariant order <= |e.script| + 1 && (more ==> order <= |e.script|)
      decreases |e.script| + 1 - order, more
    {
      var call := Call(e.script, order);
      order := order + 1;
      match call {
        case Failed => return -1, totalRes;
        case Skipped =>
          res := 0;
          more := false;
          assert written + [] == written;
        case Wrote(data) =>
          RoomOne(e.script, order - 1);
          OctetsSize(e.id, data);
          res := PutBehind(buf, iet0, iet, e.id, data);
          BodyMore(e.id, written, data);
          totalRes := totalRes + res;
          iet := iet + res;
          Rebracket(written, data, Contents(e.script, order, e.maxCount));
          written := written + [data];
          more := e.maxCount == 0 || order < e.maxCount;
      }
    }
  }

  lemma NothingBefore(r: Option<seq<seq<Byte>>>)
    ensures Before([], r) == r
  {
    if r.Some? {
      assert [] + r.value == r.value;
    }
  }

  lemma Rebracket(a: seq<seq<Byte>>, d: seq<Byte>, r: Option<seq<seq<Byte>>>)
    ensures Before(a, Before([d], r)) == Before(a + [d], r) && Before(a, Some([d])) == Some(a + [d])
  {
    if r.Some? {
      assert a + ([d] + r.value) == a + [d] + r.value;
    }
  }

  // -------------------------------------------------------------------- header

  /** The other side's name for a call: bit 15 says who chose the reference. */
  function Inverted(cr: nat): (r: nat)
    requires cr < 0x10000
    ensures r < 0x10000
  {
    if cr >= 0x8000 then cr - 0x8000 else cr + 0x8000
  }

  /** A call reference that fits the form: 15 bits, or 7 on a basic rate link. */
  predicate FitsForm(cr: nat, bri: bool) { cr < 0x10000 && (bri ==> cr % 0x8000 < 0x80) }

  /** The call reference octets of init_header. */
  function Crv(cr: nat, bri: bool, forceinvert: bool): (r: seq<Byte>)
    requires FitsForm(cr, bri)
    ensures |r| == if bri then 1 else 2
  {
    var sent := if cr != 0 || forceinvert then Inverted(cr) else 0;
    if bri then [sent / 0x8000 * 0x80 + sent % 0x80] else [sent / 0x100, sent % 0x100]
  }

  /** q931_cr: a length above 3 gives -1, any other that is not 1 or 2 gives 0. */
  function Cr(crlen: nat, crv: seq<Byte>): int
    requires crlen <= 3 ==> |crv| >= crlen
  {
    if crlen > 3 then -1
    else if crlen == 2 then crv[0] * 0x100 + crv[1]
    else if crlen == 1 then
      var cr: nat := crv[0];
      if cr >= 0x80 then cr - 0x80 + 0x8000 else cr
    else 0
  }

  /** A reference arrives as the same value with the flag turned, in both forms; the
      reference 0 arrives as 0 unless turning is forced. */
  lemma CrRoundTrip(cr: nat, bri: bool, forceinvert: bool)
    requires FitsForm(cr, bri)
    ensures var crv := Crv(cr, bri, forceinvert);
            Cr(|crv|, crv) == if cr != 0 || forceinvert then Inverted(cr) else 0
  {
    if bri {
      ShortBack(if cr != 0 || forceinvert then Inverted(cr) else 0);
    }
  }

  lemma ShortBack(sent: nat)
    requires sent < 0x10000 && sent % 0x8000 < 0x80
    ensures var o := sent / 0x8000 * 0x80 + sent % 0x80;
            (if o >= 0x80 then o - 0x80 + 0x8000 else o) == sent
  {
    if sent >= 0x8000 {
      assert sent / 0x8000 == 1;
    }
  }

  /** Sent back, it names the call it came from. */
  lemma CrReturns(cr: nat, bri: bool, forceinvert: bool)
    requires FitsForm(cr, bri) && (cr != 0 || forceinvert)
    ensures var there := Inverted(cr);
            && FitsForm(there, bri)
            && (there != 0 || forceinvert ==>
                  var crv := Crv(there, bri, forceinvert);
                  Cr(|crv|, crv) == cr)
  {
    CrRoundTrip(Inverted(cr), bri, forceinvert);
  }

  /** Discriminator, length of the reference, reference, message type. */
  function Header(pd: Byte, crv: seq<Byte>, msg: Byte): (r: seq<Byte>)
    requires |crv| < 16
    ensures |r| == |crv| + 3
  {
    [pd, |crv|] + crv + [msg % 0x80]
  }

  // ---------------------------------------------------------------- the message

  /** The groups that the entries of a message put into it; None if one fails. */
  function Groups(entries: seq<Entry>): Option<seq<Group>> {
    if entries == [] then Some([])
    else
      var g, rest := GroupOf(entries[0]), Groups(entries[1..]);
      if g.None? || rest.None? then None else Some([g.value] + rest.value)
  }

  lemma {:induction false} GroupsSound(entries: seq<Entry>)
    requires forall i | 0 <= i < |entries| :: SoundEntry(entries[i])
    ensures Groups(entries).Some? ==> AllSoundGroups(Groups(entries).value)
  {
    if entries != [] {
      ContentsSound(entries[0], 0);
      GroupsSound(entries[1..]);
    }
  }

  /** Octets a message can need behind its header. */
  function AllRoom(entries: seq<Entry>): nat {
    if entries == [] then 0 else 1 + Room(entries[0].script, 0) + AllRoom(entries[1..])
  }

  lemma {:induction false} BodySize(e: Entry, k: nat)
    requires SoundEntry(e)
    ensures var c := Contents(e.script, k, e.maxCount);
            c.Some? ==> AllSound(e.id, c.value) && |Body(e.id, c.value)| <= Room(e.script, k)
    decreases |e.script| - k
  {
    ContentsSound(e, k);
    if k < |e.script| && e.script[k].Wrote? {
      var data := e.script[k].data;
      BodySize(e, k + 1);
      ContentsSound(e, k + 1);
      var c := Contents(e.script, k, e.maxCount);
      if c.Some? {
        assert c.value[0] == data;
        assert Body(e.id, c.value) == Octets(e.id, data) + Body(e.id, c.value[1..]);
        if e.maxCount != 0 && k + 1 >= e.maxCount {
          assert c.value[1..] == [];
        } else {
          assert c.value[1..] == Contents(e.script, k + 1, e.maxCount).value;
        }
      }
    }
  }

  lemma GroupSize(e: Entry, locked: nat)
    requires SoundEntry(e) && locked < 8 && GroupOf(e).Some?
    ensures SoundGroup(GroupOf(e).value)
    ensures |GroupOctets(GroupOf(e).value, locked)| <= 1 + Room(e.script, 0) && LockedBy(GroupOf(e).value, locked) < 8
  {
    ContentsSound(e, 0);
    BodySize(e, 0);
  }

  /** The first entry of what is left of a message. */
  lemma FirstEntry(ies: seq<Entry>, locked: nat)
    requires ies != [] && (forall i | 0 <= i < |ies| :: SoundEntry(ies[i])) && locked < 8
    ensures Groups(ies).None? <==> GroupOf(ies[0]).None? || Groups(ies[1..]).None?
    ensures GroupOf(ies[0]).Some? ==>
              && SoundGroup(GroupOf(ies[0]).value) && LockedBy(GroupOf(ies[0]).value, locked) < 8
              && |GroupOctets(GroupOf(ies[0]).value, locked)| <= 1 + Room(ies[0].script, 0)
    ensures Groups(ies).Some? ==>
              && AllSoundGroups(Groups(ies).value) && AllSoundGroups(Groups(ies[1..]).value)
              && Message(Groups(ies).value, locked) == GroupOctets(GroupOf(ies[0]).value, locked)
                   + Message(Groups(ies[1..]).value, LockedBy(GroupOf(ies[0]).value, locked))
  {
    GroupsSound(ies);
    GroupsSound(ies[1..]);
    if GroupOf(ies[0]).Some? {
      GroupSize(ies[0], locked);
    }
    hide GroupOf, GroupOctets, LockedBy, SoundGroup, Room;
    if Groups(ies).Some? {
      assert Groups(ies).value[1..] == Groups(ies[1..]).value;
    }
  }

  /** The two octets of a primary rate reference. */
  method LongReference(buf: array<Byte>, cr: nat, forceinvert: bool)
    requires FitsForm(cr, false) && buf.Length >= 5
    modifies buf
    ensures buf[1] == 2 && buf[2..4] == Crv(cr, false, forceinvert) && buf[0] == old(buf[0])
  {
    buf[1] := 2;
    if cr != 0 || forceinvert {
      buf[2] := Inverted(cr) / 0x100;
      buf[3] := cr % 0x100;
    } else {
      buf[2] := 0;
      buf[3] := 0;
    }
  }

  /** The octet of a basic rate reference. */
  method ShortReference(buf: array<Byte>, cr: nat, forceinvert: bool)
    requires FitsForm(cr, true) && buf.Length >= 5
    modifies buf
    ensures buf[1] == 1 && buf[2..3] == Crv(cr, true, forceinvert) && buf[0] == old(buf[0])
  {
    ShortForm(cr);
    buf[1] := 1;
    if cr != 0 || forceinvert {
      buf[2] := Inverted(cr) / 0x8000 * 0x80 + cr % 0x80;
    } else {
      buf[2] := 0;
    }
    hide Inverted, FitsForm;
    assert buf[2..3] == [buf[2]];
  }

  lemma ShortForm(cr: nat)
    requires FitsForm(cr, true)
    ensures var r := Inverted(cr); r / 0x8000 * 0x80 + r % 0x80 == r / 0x8000 * 0x80 + cr % 0x80 < 0x100
  {}

  /** init_header and the message type. */
  method InitHeader(buf: array<Byte>, pd: Byte, cr: nat, bri: bool, forceinvert: bool, msgtype: Byte)
    returns (data: nat)
    requires FitsForm(cr, bri) && buf.Length >= 5
    modifies buf
    ensures data == |Crv(cr, bri, forceinvert)| + 3 && buf[..data] == Header(pd, Crv(cr, bri, forceinvert), msgtype)
  {
    hide Crv, FitsForm;
    buf[0] := pd;
    if !bri {
      LongReference(buf, cr, forceinvert);
    } else {
      ShortReference(buf, cr, forceinvert);
    }
    data := buf[1] + 3;
    assert buf[2..data - 1] == Crv(cr, bri, forceinvert);
    buf[data - 1] := msgtype % 0x80;
    assert buf[..data] == [buf[0], buf[1]] + buf[2..data - 1] + [buf[data - 1]];
  }

  /** The message once x entries are in: what is written, and what is left to write,
      make the whole. */
  ghost predicate Building(bytes: seq<Byte>, header: seq<Byte>, ies: seq<Entry>, x: nat, codeset: nat) {
    && x <= |ies| && codeset < 8 && (forall i | 0 <= i < |ies| :: SoundEntry(ies[i]))
    && (Groups(ies).None? <==> Groups(ies[x..]).None?)
    && (Groups(ies).Some? ==>
          && AllSoundGroups(Groups(ies).value) && AllSoundGroups(Groups(ies[x..]).value)
          && header + Message(Groups(ies).value, 0) == bytes + Message(Groups(ies[x..]).value, codeset))
  }

  lemma BuildingStarts(header: seq<Byte>, ies: seq<Entry>)
    requires forall i | 0 <= i < |ies| :: SoundEntry(ies[i])
    ensures Building(header, header, ies, 0, 0)
  {
    GroupsSound(ies);
    assert ies[0..] == ies;
  }

  lemma BuildingMore(bytes: seq<Byte>, header: seq<Byte>, ies: seq<Entry>, x: nat, codeset: nat)
    requires Building(bytes, header, ies, x, codeset) && x < |ies|
    ensures GroupOf(ies[x]).None? ==> Groups(ies).None?
    ensures GroupOf(ies[x]).Some? ==>
              var g := GroupOf(ies[x]).value;
              && SoundGroup(g) && |GroupOctets(g, codeset)| <= 1 + Room(ies[x].script, 0)
              && Building(bytes + GroupOctets(g, codeset), header, ies, x + 1, LockedBy(g, codeset))
  {
    hide *;
    BuildingIs(bytes, header, ies, x, codeset);
    var rest := ies[x..];
    assert rest[1..] == ies[x + 1..] && rest[0] == ies[x];
    FirstEntry(rest, codeset);
    if GroupOf(ies[x]).Some? {
      var g := GroupOf(ies[x]).value;
      var more, next := GroupOctets(g, codeset), LockedBy(g, codeset);
      if Groups(ies).Some? {
        assert bytes + (more + Message(Groups(rest[1..]).value, next))
            == (bytes + more) + Message(Groups(rest[1..]).value, next);
      }
      BuildingNow(bytes + more, header, ies, x + 1, next);
    }
  }

  lemma BuildingIs(bytes: seq<Byte>, header: seq<Byte>, ies: seq<Entry>, x: nat, codeset: nat)
    requires Building(bytes, header, ies, x, codeset)
    ensures x <= |ies| && codeset < 8
    ensures (forall i | x <= i < |ies| :: SoundEntry(ies[i])) && (forall i | 0 <= i < |ies| :: SoundEntry(ies[i]))
    ensures Groups(ies).None? <==> Groups(ies[x..]).None?
    ensures Groups(ies).Some? ==>
              && AllSoundGroups(Groups(ies).value) && AllSoundGroups(Groups(ies[x..]).value)
              && header + Message(Groups(ies).value, 0) == bytes + Message(Groups(ies[x..]).value, codeset)
  {}

  lemma BuildingNow(bytes: seq<Byte>, header: seq<Byte>, ies: seq<Entry>, x: nat, codeset: nat)
    requires x <= |ies| && codeset < 8 && forall i | 0 <= i < |ies| :: SoundEntry(ies[i])
    requires Groups(ies).None? <==> Groups(ies[x..]).None?
    requires Groups(ies).Some? ==>
               && AllSoundGroups(Groups(ies).value) && AllSoundGroups(Groups(ies[x..]).value)
               && header + Message(Groups(ies).value, 0) == bytes + Message(Groups(ies[x..]).value, codeset)
    ensures Building(bytes, header, ies, x, codeset)
  {}

  lemma BuildingEnds(bytes: seq<Byte>, header: seq<Byte>, ies: seq<Entry>, codeset: nat)
    requires Building(bytes, header, ies, |ies|, codeset)
    ensures Groups(ies).Some? && AllSoundGroups(Groups(ies).value) && bytes == header + Message(Groups(ies).value, 0)
  {}

  lemma RoomLeft(ies: seq<Entry>, x: nat)
    requires x < |ies|
    ensures AllRoom(ies[x..]) == 1 + Room(ies[x].script, 0) + AllRoom(ies[x + 1..])
  {
    assert ies[x..][1..] == ies[x + 1..];
  }

  lemma CrvShort(cr: nat, bri: bool, forceinvert: bool)
    requires FitsForm(cr, bri)
    ensures |Crv(cr, bri, forceinvert)| <= 2
  {}

  /** send_message, up to the octets handed to the data link. */
  method SendMessage(pd: Byte, cr: nat, bri: bool, forceinvert: bool, msgtype: Byte, ies: seq<Entry>)
      returns (sent: Option<seq<Byte>>)
    requires FitsForm(cr, bri) && 5 + AllRoom(ies) <= 1024
    requires forall i | 0 <= i < |ies| :: SoundEntry(ies[i])
    ensures Groups(ies).None? ==> sent == None
    ensures Groups(ies).Some? ==>
              && AllSoundGroups(Groups(ies).value)
              && sent == Some(Header(pd, Crv(cr, bri, forceinvert), msgtype) + Message(Groups(ies).value, 0))
  {
    hide *;
    var buf := new Byte[1024](_ => 0);
    var at: nat := InitHeader(buf, pd, cr, bri, forceinvert, msgtype);
    CrvShort(cr, bri, forceinvert);
    ghost var header := Header(pd, Crv(cr, bri, forceinvert), msgtype);
    var x, codeset := 0, 0;
    assert ies[0..] == ies;
    BuildingStarts(header, ies);
    while x < |ies|
      invariant 0 <= x <= |ies| && at + AllRoom(ies[x..]) <= 1024
      invariant Building(buf[..at], header, ies, x, codeset)
    {
      RoomLeft(ies, x);
      BuildingMore(buf[..at], header, ies, x, codeset);
      var res: int;
      res, codeset := AddIe(buf, at, ies[x], codeset);
      if res < 0 {
        return None;
      }
      assert buf[..at + res] == buf[..at] + buf[at..at + res];
      at := at + res;
      x := x + 1;
    }
    BuildingEnds(buf[..at], header, ies, codeset);
    sent := Some(buf[..at]);
  }

  // ------------------------------------------------------------------- reading

  lemma ReadStep(was: seq<Ie>, rest: seq<Byte>, codeset: nat, cur: nat, ignoring: bool)
    requires rest != [] && IeLength(rest) <= |rest|
    ensures Then(was, Read(rest, codeset, cur, ignoring)) ==
            Then(was + Handed(rest, codeset, cur, ignoring),
                 Read(rest[IeLength(rest)..], NextLocked(rest[0], codeset), NextCodeset(rest[0], codeset, cur),
                     ignoring))
  {
    hide Handed, NextLocked, NextCodeset, IeLength;
    ThenThen(was, Handed(rest, codeset, cur, ignoring),
             Read(rest[IeLength(rest)..], NextLocked(rest[0], codeset), NextCodeset(rest[0], codeset, cur), ignoring));
  }

  lemma ReadStops(was: seq<Ie>, rest: seq<Byte>, codeset: nat, cur: nat, ignoring: bool)
    ensures rest == [] ==> Then(was, Read(rest, codeset, cur, ignoring)) == Reading(was, true)
    ensures rest != [] && IeLength(rest) > |rest| ==>
              Then(was, Read(rest, codeset, cur, ignoring)) == Reading(was, false)
  {
    assert was + [] == was;
  }

  /** The element at x: what the switch in the loop does with it. */
  method TakeIe(bytes: seq<Byte>, x: nat, r: nat, codeset0: nat, cur0: nat, ignoring: bool, handed0: seq<Ie>)
      returns (codeset: nat, curCodeset: nat, handed: seq<Ie>)
    requires x + r <= |bytes| && x < |bytes| && r == IeLength(bytes[x..])
    ensures codeset == NextLocked(bytes[x], codeset0) && curCodeset == NextCodeset(bytes[x], codeset0, cur0)
    ensures handed == handed0 + Handed(bytes[x..], codeset0, cur0, ignoring)
  {
    codeset, curCodeset, handed := codeset0, cur0, handed0;
    var ie := bytes[x];
    if ie / 8 == LOCKING_SHIFT / 8 {
      var y := ie % 8;
      if y > 0 {
        codeset, curCodeset := y, y;
      }
    } else if ie / 8 == NON_LOCKING_SHIFT / 8 {
      curCodeset := ie % 8;
    } else {
      if !(ignoring && curCodeset != codeset) {
        var data := if ie >= 0x80 then [] else bytes[x + 2..x + r];
        assert ie < 0x80 ==> bytes[x..][2..r] == bytes[x + 2..x + r];
        handed := handed + [Ie(curCodeset, ie, data)];
      }
      curCodeset := codeset;
    }
  }

  /** The loop of q931_receive over the octets behind the header: the elements it
      hands to their receive routines, in order. */
  method ReceiveIes(bytes: seq<Byte>, ignoring: bool) returns (handed: seq<Ie>, complete: bool)
    ensures Reading(handed, complete) == Read(bytes, 0, 0, ignoring)
  {
    hide *;
    var x, len := 0, |bytes|;
    var codeset, curCodeset := 0, 0;
    handed := [];
    assert bytes[0..] == bytes;
    NothingHanded(Read(bytes, 0, 0, ignoring));
    while len > 0
      invariant 0 <= len && x + len == |bytes|
      invariant Read(bytes, 0, 0, ignoring) == Then(handed, Read(bytes[x..], codeset, curCodeset, ignoring))
    {
      var r := IeLen(bytes, x);
      if r > len {
        ReadStops(handed, bytes[x..], codeset, curCodeset, ignoring);
        return handed, false;
      }
      ReadStep(handed, bytes[x..], codeset, curCodeset, ignoring);
      assert bytes[x..][r..] == bytes[x + r..];
      codeset, curCodeset, handed := TakeIe(bytes, x, r, codeset, curCodeset, ignoring, handed);
      x := x + r;
      len := len - r;
    }
    ReadStops(handed, bytes[x..], codeset, curCodeset, ignoring);
    complete := true;
  }

  /** ielen of the element at x. A length octet behind the end makes the element too
      long whatever it holds. */
  method IeLen(bytes: seq<Byte>, x: nat) returns (r: nat)
    requires x < |bytes|
    ensures r == IeLength(bytes[x..])
  {
    if bytes[x] >= 0x80 {
      return 1;
    }
    var len: nat := if x + 1 < |bytes| then bytes[x + 1] else 0;
    r := 2 + len;
  }

  datatype Arrival = Refused | Answered(reply: seq<Byte>) | Arrived(cr: int, msg: Byte, ies: seq<Ie>, complete: bool)

  /** The two discriminators of maintenance messages. */
  predicate Maintenance(pd: Byte) { pd == 0x03 || pd == 0x43 }

  /** The message goes back with 8 taken off its type, in one octet. */
  function Acknowledged(bytes: seq<Byte>): (r: seq<Byte>)
    requires |bytes| >= 2 && |bytes| >= bytes[1] % 16 + 3
    ensures |r| == |bytes|
  {
    var at := bytes[1] % 16 + 2;
    bytes[at := Less8(bytes[at])]
  }

  /** `-= 0x8` in one octet */
  function Less8(b: Byte): Byte { if b >= 8 then b - 8 else b + 0xF8 }

  /** SERVICE comes back as SERVICE ACKNOWLEDGE, with the same reference and elements. */
  lemma ServiceAcknowledged(pd: Byte, crv: seq<Byte>, msg: Byte, rest: seq<Byte>)
    requires |crv| < 16 && 8 <= msg < 0x80
    ensures var bytes := Header(pd, crv, msg) + rest;
            && |bytes| >= 2 && |bytes| >= bytes[1] % 16 + 3
            && Acknowledged(bytes) == Header(pd, crv, msg - 8) + rest
            && (msg == 0x0F ==> Acknowledged(bytes) == Header(pd, crv, 0x07) + rest)
  {
    var bytes := Header(pd, crv, msg) + rest;
    assert bytes[1] % 16 == |crv|;
    assert Header(pd, crv, msg)[|crv| + 2] == msg;
    assert bytes[|crv| + 2 := Less8(msg)] == Header(pd, crv, msg - 8) + rest;
  }

  /** q931_receive up to the handling of the message: a maintenance message is sent
      back, another discriminator refused, the reference is read, then the elements. */
  method Receive(protodisc: Byte, bytes: seq<Byte>, ignoring: bool) returns (a: Arrival)
    requires |bytes| >= 2 && |bytes| >= bytes[1] % 16 + 3
    ensures a == Parsed(protodisc, bytes, ignoring)
  {
    if bytes[0] == 0x03 || bytes[0] == 0x43 {
      var at := bytes[1] % 16 + 2;
      return Answered(bytes[at := Less8(bytes[at])]);
    } else if bytes[0] != protodisc {
      return Refused;
    }
    var crlen := bytes[1] % 16;
    var cr := Cr(crlen, bytes[2..]);
    var ies, complete := ReceiveIes(bytes[crlen + 3..], ignoring);
    a := Arrived(cr, bytes[crlen + 2] % 0x80, ies, complete);
  }

  function Parsed(protodisc: Byte, bytes: seq<Byte>, ignoring: bool): Arrival
    requires |bytes| >= 2 && |bytes| >= bytes[1] % 16 + 3
  {
    var crlen := bytes[1] % 16;
    if Maintenance(bytes[0]) then Answered(Acknowledged(bytes))
    else if bytes[0] != protodisc then Refused
    else
      var r := Read(bytes[crlen + 3..], 0, 0, ignoring);
      Arrived(Cr(crlen, bytes[2..]), bytes[crlen + 2] % 0x80, r.ies, r.complete)
  }

  lemma CrPrefix(crv: seq<Byte>, more: seq<Byte>)
    requires |crv| <= |more| && crv == more[..|crv|]
    ensures Cr(|crv|, more) == Cr(|crv|, crv)
  {}

  lemma ParsedHeader(pd: Byte, crv: seq<Byte>, msg: Byte, rest: seq<Byte>, ignoring: bool)
    requires |crv| < 16 && !Maintenance(pd)
    ensures var bytes := Header(pd, crv, msg) + rest;
            && |bytes| >= 2 && |bytes| >= bytes[1] % 16 + 3
            && Parsed(pd, bytes, ignoring)
               == Arrived(Cr(|crv|, crv), msg % 0x80, Read(rest, 0, 0, ignoring).ies,
                          Read(rest, 0, 0, ignoring).complete)
  {
    var bytes := Header(pd, crv, msg) + rest;
    var crlen := bytes[1] % 16;
    assert crlen == |crv|;
    assert bytes[crlen + 3..] == rest && bytes[2..][..crlen] == crv;
    CrPrefix(crv, bytes[2..]);
    hide Cr, Read;
  }

  lemma ParsedMaintenance(pd: Byte, crv: seq<Byte>, msg: Byte, rest: seq<Byte>, ignoring: bool)
    requires |crv| < 16 && Maintenance(pd)
    ensures var bytes := Header(pd, crv, msg) + rest;
            && |bytes| >= 2 && |bytes| >= bytes[1] % 16 + 3 && Parsed(pd, bytes, ignoring).Answered?
  {
    var bytes := Header(pd, crv, msg) + rest;
    assert bytes[1] % 16 == |crv|;
  }

  /** What one side sends the other side reads: the reference with its flag turned,
      the message type, and every element in its codeset, exactly if the message is
      clean and its discriminator not one of those for maintenance. */
  lemma SentIsReceived(pd: Byte, cr: nat, bri: bool, msgtype: Byte, gs: seq<Group>, ignoring: bool)
    requires FitsForm(cr, bri) && cr != 0 && msgtype < 0x80 && AllSoundGroups(gs)
    ensures var bytes := Header(pd, Crv(cr, bri, false), msgtype) + Message(gs, 0);
            && |bytes| >= 2 && |bytes| >= bytes[1] % 16 + 3
            && (Parsed(pd, bytes, ignoring) == Arrived(Inverted(cr), msgtype, AllElements(gs), true)
                <==> Clean(gs, 0, ignoring) && !Maintenance(pd))
  {
    hide *;
    CrvShort(cr, bri, false);
    if Maintenance(pd) {
      ParsedMaintenance(pd, Crv(cr, bri, false), msgtype, Message(gs, 0), ignoring);
      return;
    }
    ParsedHeader(pd, Crv(cr, bri, false), msgtype, Message(gs, 0), ignoring);
    CrRoundTrip(cr, bri, false);
    MessageRoundTripIff(gs, ignoring);
    var r := Read(Message(gs, 0), 0, 0, ignoring);
    assert r == Reading(r.ies, r.complete);
  }
}
