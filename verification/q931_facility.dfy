/** The linked queue of facility components, and the transmit routines that add_ie
    calls until they have nothing more to say. */
module Q931Facility {
  import opened Q931Ies
  import opened Q931Message
  import opened Q931Apdus

  /** struct apdu_event */
  class ApduEvent {
    const message: nat
    const octets: seq<Byte>
    var sent: bool
    var next: ApduEvent?

    constructor (message: nat, octets: seq<Byte>)
      ensures this.message == message && this.octets == octets && !sent && next == null
    {
      this.message, this.octets := message, octets;
      sent, next := false, null;
    }
  }

  function At(chain: seq<ApduEvent>, i: nat): ApduEvent? { if i < |chain| then chain[i] else null }

  ghost predicate Linked(chain: seq<ApduEvent>)
    reads chain
  {
    && (forall i | 0 <= i < |chain| :: chain[i].next == At(chain, i + 1))
    && (forall i, j | 0 <= i < j < |chain| :: chain[i] != chain[j])
  }

  /** The queue as a list of values. */
  ghost function Values(chain: seq<ApduEvent>): (r: seq<Apdu>)
    reads chain
    ensures |r| == |chain|
    ensures forall i | 0 <= i < |r| :: r[i] == Apdu(chain[i].message, chain[i].octets, chain[i].sent)
  {
    if chain == [] then [] else
      var last := chain[|chain| - 1];
      Values(chain[..|chain| - 1]) + [Apdu(last.message, last.octets, last.sent)]
  }

  lemma ValuesMore(chain: seq<ApduEvent>, event: ApduEvent)
    ensures Values(chain + [event]) == Values(chain) + [Apdu(event.message, event.octets, event.sent)]
  {
    assert (chain + [event])[..|chain|] == chain;
  }

  /** Links do not matter to the values. */
  twostate lemma SameValues(chain: seq<ApduEvent>)
    requires forall i | 0 <= i < |chain| :: chain[i].sent == old(chain[i].sent)
    ensures Values(chain) == old(Values(chain))
  {
    if chain != [] {
      SameValues(chain[..|chain| - 1]);
    }
  }

  /** The part of a call that sends facility components. */
  class ApduQueue {
    var apdus: ApduEvent?
    ghost var chain: seq<ApduEvent>

    ghost predicate Valid()
      reads this, chain
    {
      apdus == At(chain, 0) && Linked(chain)
    }

    ghost function View(): seq<Apdu>
      reads this, chain
    {
      Values(chain)
    }

    constructor ()
      ensures Valid() && View() == []
    {
      apdus, chain := null, [];
    }

    /** The walk to the end of the queue. */
    method Last() returns (cur: ApduEvent)
      requires Valid() && apdus != null
      ensures chain != [] && cur == chain[|chain| - 1]
    {
      cur := apdus;
      ghost var i := 0;
      while cur.next != null
        invariant i < |chain| && cur == chain[i]
        decreases |chain| - i
      {
        cur := cur.next;
        i := i + 1;
      }
    }

    /** The last event, or the head of an empty queue, points to the new one. */
    method Link(event: ApduEvent)
      requires Valid() && event !in chain && event.next == null
      modifies this`apdus, chain
      ensures apdus == At(chain + [event], 0) && Linked(chain + [event])
      ensures forall i | 0 <= i < |chain| :: chain[i].sent == old(chain[i].sent)
      ensures event.sent == old(event.sent)
    {
      if apdus != null {
        var cur := Last();
        cur.next := event;
      } else {
        apdus := event;
      }
    }

    /** A new event goes behind the last one. */
    method Append(event: ApduEvent)
      requires Valid() && event !in chain && event.next == null
      modifies this, chain
      ensures Valid() && chain == old(chain) + [event]
      ensures View() == old(View()) + [Apdu(event.message, event.octets, event.sent)]
    {
      hide Linked, Values, At;
      Link(event);
      SameValues(chain);
      ValuesMore(chain, event);
      chain := chain + [event];
    }

    /** pri_call_apdu_queue */
    method Queue(messagetype: nat, apdu: seq<Byte>) returns (r: int)
      requires Valid()
      modifies this, chain
      ensures Valid() && View() == Act(old(View()), Enqueue(messagetype, apdu)).0
      ensures r == if Accepted(messagetype, apdu) then 0 else -1
    {
      hide Linked, Values, At;
      if messagetype == 0 || |apdu| < 1 || |apdu| > 255 {
        return -1;
      }
      var event := new ApduEvent(messagetype, apdu);
      Append(event);
      return 0;
    }

    /** The walk of transmit_facility. */
    method Search(msgtype: nat) returns (tmp: ApduEvent?)
      requires Valid()
      ensures tmp == At(chain, First(View(), msgtype))
    {
      tmp := apdus;
      ghost var i := 0;
      ghost var q := Values(chain);
      while tmp != null && !(tmp.message == msgtype && !tmp.sent)
        invariant 0 <= i <= |chain| && tmp == At(chain, i)
        invariant forall k | 0 <= k < i :: !Matches(q[k], msgtype)
        decreases |chain| - i
      {
        tmp := tmp.next;
        i := i + 1;
      }
      FirstIs(q, msgtype, i);
    }

    /** The component is marked. */
    method Mark(tmp: ApduEvent, ghost i: nat)
      requires Valid() && i < |chain| && tmp == chain[i]
      modifies tmp`sent
      ensures Valid() && View() == MarkSent(old(View()), i)
    {
      tmp.sent := true;
    }

    /** transmit_facility: what it writes, if anything. */
    method Transmit(msgtype: nat) returns (data: Option<seq<Byte>>)
      requires Valid()
      modifies chain
      ensures Valid() && chain == old(chain)
      ensures if Ready(old(View()), msgtype)
              then var i := First(old(View()), msgtype);
                   data == Some(old(View())[i].octets) && View() == MarkSent(old(View()), i)
              else data == None && View() == old(View())
    {
      var tmp := Search(msgtype);
      if tmp == null {
        return None;
      }
      if |tmp.octets| > 235 {
        return None;
      }
      data := Some(tmp.octets);
      Mark(tmp, First(View(), msgtype));
    }

    /** The loop of add_ie over transmit_facility. */
    method TransmitAll(msgtype: nat) returns (written: seq<seq<Byte>>)
      requires Valid()
      modifies chain
      ensures Valid() && chain == old(chain)
      ensures View() == Drain(old(View()), msgtype).0 && written == Written(old(View()), msgtype)
    {
      ghost var q := View();
      written := [];
      var more := true;
      hide Drain, Written, Valid, View, Unsent, MarkSent, Ready;
      while more
        invariant Valid() && chain == old(chain)
        invariant Written(q, msgtype) == written + if more then Written(View(), msgtype) else []
        invariant Drain(q, msgtype).0 == if more then Drain(View(), msgtype).0 else View()
        decreases Unsent(View(), msgtype), more
      {
        ghost var p := View();
        var data := Transmit(msgtype);
        DrainUnfolds(p, msgtype);
        if data.None? {
          more := false;
        } else {
          written := written + [data.value];
        }
      }
    }
  }

  // --------------------------------------------------------- progress indicators

  /** Bits 0 to 8 of the progress mask have a progress description. */
  predicate Described(bit: nat) { bit < 9 }

  /** transmit_progress_indicator: the description is sent of the lowest bit set, and
      the bit is cleared; a mask without described bits sends nothing. */
  method TransmitProgress(mask0: set<nat>) returns (code: Option<nat>, mask: set<nat>)
    ensures code.Some? ==> code.value in mask0 && Described(code.value) && mask == mask0 - {code.value}
    ensures code.Some? ==> forall b | b in mask0 :: b >= code.value
    ensures code.None? ==> mask == mask0 && forall b | b in mask0 :: !Described(b)
  {
    mask := mask0;
    var bit := 0;
    while bit < 9
      invariant 0 <= bit <= 9 && forall b | 0 <= b < bit :: b !in mask0
    {
      if bit in mask0 {
        return Some(bit), mask0 - {bit};
      }
      bit := bit + 1;
    }
    code := None;
  }

  /** The loop of add_ie over it: every described bit is sent once, in order, and
      cleared. */
  method TransmitAllProgress(mask0: set<nat>) returns (codes: seq<nat>, mask: set<nat>)
    ensures mask == set b | b in mask0 && !Described(b)
    ensures forall b :: b in codes <==> b in mask0 && Described(b)
    ensures forall k, l | 0 <= k < l < |codes| :: codes[k] < codes[l]
  {
    mask := mask0;
    codes := [];
    var more := true;
    while more
      invariant mask <= mask0
      invariant forall b | b in mask0 :: b in mask <==> b !in codes
      invariant forall b | b in codes :: b in mask0 && Described(b)
      invariant forall k, l | 0 <= k < l < |codes| :: codes[k] < codes[l]
      invariant forall b, c | b in codes && c in mask :: b < c
      invariant !more ==> forall b | b in mask :: !Described(b)
      decreases |mask|, more
    {
      var code;
      ghost var was := mask;
      code, mask := TransmitProgress(mask);
      if code.None? {
        more := false;
      } else {
        assert |was| == |mask| + 1;
        assert code.value in was;
        forall k | 0 <= k < |codes| ensures codes[k] < code.value { assert codes[k] in codes; }
        codes := codes + [code.value];
      }
    }
  }
}
