/** Information elements on the wire (Q.931 sections 4.5.1 to 4.5.4): what add_ie
    and send_message write, and what the loop of q931_receive reads. */
module Q931Ies {

  type Byte = b: int | 0 <= b < 256

  const LOCKING_SHIFT := 0x90
  const NON_LOCKING_SHIFT := 0x98

  /** An element of a codeset. Elements from 0x80 up are a single octet. */
  datatype Ie = Ie(codeset: nat, id: Byte, data: seq<Byte>)

  /** What an entry of the element table can put on the wire; 0x90 to 0x9f are the
      shifts themselves. */
  predicate Sound(id: Byte, data: seq<Byte>) {
    if id >= 0x80 then data == [] && id / 16 != 9 else |data| < 256
  }

  function Octets(id: Byte, data: seq<Byte>): (r: seq<Byte>)
    requires Sound(id, data)
    ensures |r| > 0 && r[0] == id
  {
    if id >= 0x80 then [id] else [id, |data|] + data
  }

  // ------------------------------------------------------------------- writing

  /** An entry of the table, and the contents it was sent with: once for each time
      its transmit routine had something to say. */
  datatype Group = Group(codeset: nat, id: Byte, contents: seq<seq<Byte>>)

  predicate AllSound(id: Byte, contents: seq<seq<Byte>>) {
    forall i | 0 <= i < |contents| :: Sound(id, contents[i])
  }

  predicate SoundGroup(g: Group) {
    g.codeset < 8 && AllSound(g.id, g.contents)
  }

  function Body(id: Byte, contents: seq<seq<Byte>>): (r: seq<Byte>)
    requires AllSound(id, contents)
  {
    if contents == [] then [] else Octets(id, contents[0]) + Body(id, contents[1..])
  }

  /** A locking shift to any codeset but 0; to codeset 0 only a non-locking one. */
  function Shift(codeset: nat): (b: Byte)
    requires codeset < 8
  {
    codeset + if codeset > 0 then LOCKING_SHIFT else NON_LOCKING_SHIFT
  }

  /** What add_ie leaves in the message when the codeset locked last is `locked`. */
  function GroupOctets(g: Group, locked: nat): (r: seq<Byte>)
    requires SoundGroup(g)
  {
    if g.contents == [] then []
    else if locked == g.codeset then Body(g.id, g.contents)
    else [Shift(g.codeset)] + Body(g.id, g.contents)
  }

  /** The codeset that is locked afterwards. */
  function LockedBy(g: Group, locked: nat): nat {
    if g.contents == [] || g.codeset == 0 then locked else g.codeset
  }

  predicate AllSoundGroups(gs: seq<Group>) { forall i | 0 <= i < |gs| :: SoundGroup(gs[i]) }

  function Message(gs: seq<Group>, locked: nat): (r: seq<Byte>)
    requires AllSoundGroups(gs)
  {
    if gs == [] then [] else GroupOctets(gs[0], locked) + Message(gs[1..], LockedBy(gs[0], locked))
  }

  // ------------------------------------------------------------------- reading

  datatype Reading = Reading(ies: seq<Ie>, complete: bool)

  function Then(ies: seq<Ie>, r: Reading): Reading { Reading(ies + r.ies, r.complete) }

  /** ielen, with a length octet beyond the end read as anything. */
  function IeLength(bytes: seq<Byte>): (r: nat)
    requires bytes != []
    ensures r > 0
  {
    var len: nat := if |bytes| > 1 then bytes[1] else 0;
    if bytes[0] >= 0x80 then 1 else 2 + len
  }

  predicate IsLocking(ie: Byte) { ie / 8 == LOCKING_SHIFT / 8 }

  predicate IsNonLocking(ie: Byte) { ie / 8 == NON_LOCKING_SHIFT / 8 }

  /** The codeset locked after an element: a locking shift to 0 is not obeyed. */
  function NextLocked(ie: Byte, codeset: nat): nat { if IsLocking(ie) && ie % 8 > 0 then ie % 8 else codeset }

  /** The codeset of the element that follows. */
  function NextCodeset(ie: Byte, codeset: nat, cur: nat): nat {
    if IsLocking(ie) then if ie % 8 > 0 then ie % 8 else cur
    else if IsNonLocking(ie) then ie % 8
    else codeset
  }

  /** What is handed to a receive routine: shifts are not, nor, on the switch types
      that ignore non-locking shifts, an element that follows one. */
  function Handed(bytes: seq<Byte>, codeset: nat, cur: nat, ignoring: bool): seq<Ie>
    requires bytes != [] && IeLength(bytes) <= |bytes|
  {
    var ie := bytes[0];
    if IsLocking(ie) || IsNonLocking(ie) || (ignoring && cur != codeset) then []
    else [Ie(cur, ie, if ie >= 0x80 then [] else bytes[2..IeLength(bytes)])]
  }

  /** The elements handed on from what is left of a message, and whether its end was
      reached. */
  function Read(bytes: seq<Byte>, codeset: nat, cur: nat, ignoring: bool): Reading {
    if bytes == [] then Reading([], true)
    else if IeLength(bytes) > |bytes| then Reading([], false)
    else
      Then(Handed(bytes, codeset, cur, ignoring),
           Read(bytes[IeLength(bytes)..], NextLocked(bytes[0], codeset), NextCodeset(bytes[0], codeset, cur), ignoring))
  }

  // ---------------------------------------------------------------- round trip

  /** The elements a group stands for. */
  function Elements(g: Group): (r: seq<Ie>)
    ensures |r| == |g.contents|
  {
    seq(|g.contents|, i requires 0 <= i < |g.contents| => Ie(g.codeset, g.id, g.contents[i]))
  }

  function AllElements(gs: seq<Group>): seq<Ie> {
    if gs == [] then [] else Elements(gs[0]) + AllElements(gs[1..])
  }

  /** One element is read off the front. */
  lemma ReadOne(id: Byte, data: seq<Byte>, rest: seq<Byte>, codeset: nat, cur: nat, ignoring: bool)
    requires cur < 8 && Sound(id, data)
    ensures Read(Octets(id, data) + rest, codeset, cur, ignoring) ==
            Then(if ignoring && cur != codeset then [] else [Ie(cur, id, data)], Read(rest, codeset, codeset, ignoring))
  {
    var bytes := Octets(id, data) + rest;
    assert bytes[IeLength(bytes)..] == rest;
    if id < 0x80 {
      assert bytes[2..IeLength(bytes)] == data;
    }
  }

  /** A shift is read off the front. */
  lemma ReadShift(to: nat, rest: seq<Byte>, codeset: nat, cur: nat, ignoring: bool)
    requires to < 8
    ensures Read([Shift(to)] + rest, codeset, cur, ignoring) ==
            if to > 0 then Read(rest, to, to, ignoring) else Read(rest, codeset, 0, ignoring)
  {
    var bytes := [Shift(to)] + rest;
    assert bytes[1..] == rest;
    NothingHanded(Read(rest, NextLocked(Shift(to), codeset), NextCodeset(Shift(to), codeset, cur), ignoring));
  }

  lemma NothingHanded(r: Reading)
    ensures Then([], r) == r
  {
    assert [] + r.ies == r.ies;
  }

  lemma ThenThen(a: seq<Ie>, b: seq<Ie>, r: Reading)
    ensures Then(a, Then(b, r)) == Then(a + b, r)
  {
    assert a + (b + r.ies) == a + b + r.ies;
  }

  lemma BodyFirst(codeset: nat, id: Byte, contents: seq<seq<Byte>>, rest: seq<Byte>)
    requires AllSound(id, contents) && contents != []
    ensures Sound(id, contents[0]) && AllSound(id, contents[1..])
    ensures Body(id, contents) + rest == Octets(id, contents[0]) + (Body(id, contents[1..]) + rest)
    ensures Elements(Group(codeset, id, contents)) ==
            [Ie(codeset, id, contents[0])] + Elements(Group(codeset, id, contents[1..]))
  {
    ElementsFirst(codeset, id, contents);
    hide Octets, Elements, Sound;
  }

  lemma ElementsFirst(codeset: nat, id: Byte, contents: seq<seq<Byte>>)
    requires contents != []
    ensures Elements(Group(codeset, id, contents)) ==
            [Ie(codeset, id, contents[0])] + Elements(Group(codeset, id, contents[1..]))
  {}

  /** Elements of the codeset that is locked. */
  lemma {:induction false} ReadBody(codeset: nat, id: Byte, contents: seq<seq<Byte>>, rest: seq<Byte>, ignoring: bool)
    requires codeset < 8 && AllSound(id, contents)
    ensures Read(Body(id, contents) + rest, codeset, codeset, ignoring) ==
            Then(Elements(Group(codeset, id, contents)), Read(rest, codeset, codeset, ignoring))
  {
    var g := Group(codeset, id, contents);
    if contents == [] {
      assert Body(id, contents) + rest == rest;
      assert Elements(g) == [];
      assert Then([], Read(rest, codeset, codeset, ignoring)) == Read(rest, codeset, codeset, ignoring);
    } else {
      BodyFirst(codeset, id, contents, rest);
      hide Read, Body, Octets, Elements, Sound, Then;
      var more := Body(id, contents[1..]) + rest;
      ReadOne(id, contents[0], more, codeset, codeset, ignoring);
      ReadBody(codeset, id, contents[1..], rest, ignoring);
      ThenThen([Ie(codeset, id, contents[0])], Elements(Group(codeset, id, contents[1..])),
               Read(rest, codeset, codeset, ignoring));
    }
  }

  /** What the reader makes of a group: after a non-locking shift only the first
      element is taken for codeset 0, if it is taken at all. */
  function TakenFor(g: Group, locked: nat, ignoring: bool): seq<Ie> {
    if g.contents == [] || g.codeset != 0 || locked == 0 then Elements(g)
    else (if ignoring then [] else [Ie(0, g.id, g.contents[0])]) + Elements(Group(locked, g.id, g.contents[1..]))
  }

  lemma ReadGroup(g: Group, rest: seq<Byte>, locked: nat, ignoring: bool)
    requires SoundGroup(g) && locked < 8
    ensures Read(GroupOctets(g, locked) + rest, locked, locked, ignoring) ==
            Then(TakenFor(g, locked, ignoring), Read(rest, LockedBy(g, locked), LockedBy(g, locked), ignoring))
  {
    var body := Body(g.id, g.contents);
    if g.contents == [] || locked == g.codeset {
      ReadBody(locked, g.id, g.contents, rest, ignoring);
      assert g.contents == [] ==> body == [];
      assert g.contents == [] ==> Elements(g) == Elements(Group(locked, g.id, g.contents));
    } else {
      assert GroupOctets(g, locked) + rest == [Shift(g.codeset)] + (body + rest);
      ReadShift(g.codeset, body + rest, locked, locked, ignoring);
      if g.codeset > 0 {
        ReadBody(g.codeset, g.id, g.contents, rest, ignoring);
      } else {
        var more := Body(g.id, g.contents[1..]) + rest;
        BodyFirst(0, g.id, g.contents, rest);
        ReadOne(g.id, g.contents[0], more, locked, 0, ignoring);
        ReadBody(locked, g.id, g.contents[1..], rest, ignoring);
        ThenThen(if ignoring then [] else [Ie(0, g.id, g.contents[0])], Elements(Group(locked, g.id, g.contents[1..])),
                 Read(rest, locked, locked, ignoring));
      }
    }
  }

  function AllTaken(gs: seq<Group>, locked: nat, ignoring: bool): seq<Ie> {
    if gs == [] then [] else TakenFor(gs[0], locked, ignoring) + AllTaken(gs[1..], LockedBy(gs[0], locked), ignoring)
  }

  /** Everything that is written is read to its end, element by element. */
  lemma {:induction false} ReadMessage(gs: seq<Group>, locked: nat, ignoring: bool)
    requires locked < 8 && AllSoundGroups(gs)
    ensures Read(Message(gs, locked), locked, locked, ignoring) == Reading(AllTaken(gs, locked, ignoring), true)
  {
    if gs != [] {
      var next := LockedBy(gs[0], locked);
      ReadGroup(gs[0], Message(gs[1..], next), locked, ignoring);
      ReadMessage(gs[1..], next, ignoring);
    }
  }

  /** An element of codeset 0 that follows a locking shift must come alone, and the
      receiving switch must not ignore non-locking shifts. */
  predicate Clean(gs: seq<Group>, locked: nat, ignoring: bool) {
    gs == [] ||
    (&& (gs[0].codeset == 0 && locked > 0 ==> |gs[0].contents| <= if ignoring then 0 else 1)
     && Clean(gs[1..], LockedBy(gs[0], locked), ignoring))
  }

  lemma {:induction false} TakenLength(gs: seq<Group>, locked: nat, ignoring: bool)
    ensures |AllTaken(gs, locked, ignoring)| <= |AllElements(gs)|
  {
    if gs != [] {
      TakenLength(gs[1..], LockedBy(gs[0], locked), ignoring);
    }
  }

  lemma TakenOwn(g: Group, locked: nat, ignoring: bool)
    ensures |TakenFor(g, locked, ignoring)| <= |Elements(g)|
    ensures TakenFor(g, locked, ignoring) == Elements(g)
      <==> (g.codeset == 0 && locked > 0 ==> |g.contents| <= if ignoring then 0 else 1)
  {
    if g.codeset == 0 && locked > 0 && |g.contents| > 0 && !ignoring {
      var t := TakenFor(g, locked, ignoring);
      if |g.contents| == 1 {
        assert t == Elements(g);
      } else {
        assert t[1].codeset == locked && Elements(g)[1].codeset == 0;
      }
    }
  }

  lemma JoinSame<T>(a: seq<T>, b: seq<T>, c: seq<T>, d: seq<T>)
    requires |a| <= |c| && |b| <= |d|
    ensures a + b == c + d <==> a == c && b == d
  {
    if a + b == c + d {
      assert |a| == |c|;
      assert a == (a + b)[..|a|] && c == (c + d)[..|c|];
      assert b == (a + b)[|a|..] && d == (c + d)[|c|..];
    }
  }

  lemma {:induction false} TakenIff(gs: seq<Group>, locked: nat, ignoring: bool)
    ensures AllTaken(gs, locked, ignoring) == AllElements(gs) <==> Clean(gs, locked, ignoring)
  {
    if gs != [] {
      var next := LockedBy(gs[0], locked);
      TakenIff(gs[1..], next, ignoring);
      TakenLength(gs[1..], next, ignoring);
      TakenOwn(gs[0], locked, ignoring);
      JoinSame(TakenFor(gs[0], locked, ignoring), AllTaken(gs[1..], next, ignoring), Elements(gs[0]),
               AllElements(gs[1..]));
    }
  }

  /** Every message reads back as the elements it was made of, each in its codeset,
      exactly if it is clean. */
  lemma MessageRoundTripIff(gs: seq<Group>, ignoring: bool)
    requires AllSoundGroups(gs)
    ensures Read(Message(gs, 0), 0, 0, ignoring) == Reading(AllElements(gs), true) <==> Clean(gs, 0, ignoring)
  {
    ReadMessage(gs, 0, ignoring);
    TakenIff(gs, 0, ignoring);
  }
}
