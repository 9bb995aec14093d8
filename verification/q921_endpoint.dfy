/** The link layer as q921.c runs it: `struct pri` with its variables and its
    transmit queue, updated in place by one method per handler.  Each method is
    proved against the function of the same name on values. */
module Q921Endpoint {
  import opened L = Q921Link

  class Endpoint {
    const k: int
    const n200: int
    var state: State
    var vs: nat
    var va: Seq7
    var vr: Seq7
    var vna: Seq7
    var window: int
    var windowlen: int
    var busy: bool
    var solicitfbit: bool
    var sentrej: bool
    var retrans: nat
    var t200: bool
    var t203: bool
    var txqueue: seq<Frame>
    var wire: seq<Wire>
    var delivered: seq<Octets>

    function View(): Link
      reads this
    {
      Link(k, n200, state, vs, va, vr, vna, window, windowlen, busy, solicitfbit, sentrej, retrans,
           t200, t203, txqueue, wire, delivered)
    }

    /** A link not yet established. */
    constructor (k: int, n200: int)
      ensures View() == L.Reset(View()) && wire == [] && delivered == []
      ensures this.k == k && this.n200 == n200
    {
      this.k, this.n200 := k, n200;
      state, vs, va, vr, vna := Released, 0, 0, 0, 0;
      window, windowlen := k, 0;
      busy, solicitfbit, sentrej, retrans := false, false, false, 0;
      t200, t203, txqueue, wire, delivered := false, false, [], [], [];
    }

    method Reset()
      modifies this
      ensures View() == L.Reset(old(View()))
    {
      ResetNumbers();
      ResetTimers();
      state := Released;
      ResetRecovery();
      DiscardRetransmissions();
    }

    method ResetNumbers()
      modifies this
      ensures View() == old(View()).(vs := 0, va := 0, vr := 0, vna := 0, window := k, windowlen := 0)
    {
      vs, va, vr, vna := 0, 0, 0, 0;
      ResetWindow();
    }

    method ResetWindow()
      modifies this
      ensures View() == old(View()).(window := k, windowlen := 0)
    {
      window := k;
      windowlen := 0;
    }

    method ResetTimers()
      modifies this
      ensures View() == old(View()).(t203 := false, t200 := false)
    {
      t203 := false;
      t200 := false;
    }

    method ResetRecovery()
      modifies this
      ensures View() == old(View()).(busy := false, solicitfbit := false, retrans := 0, sentrej := false)
    {
      busy := false;
      solicitfbit := false;
      retrans := 0;
      sentrej := false;
    }

    method DiscardRetransmissions()
      modifies this
      ensures View() == old(View()).(txqueue := [])
    {
      txqueue := [];
    }

    method Transmit(w: Wire)
      modifies this`wire
      ensures View() == L.Transmit(old(View()), w)
    {
      wire := wire + [w];
    }

    method Up()
      modifies this
      ensures View() == L.Up(old(View()))
    {
      Reset();
      sentrej := false;
      state := Established;
      t203 := true;
    }

    method Restart()
      modifies this
      ensures View() == L.Restart(old(View()))
    {
      Reset();
      Reset();
      Transmit(Sabme);
      state := AwaitingEstablish;
    }

    /** The acknowledged frame leaves the queue. */
    method Unlink(i: nat, num: Seq7)
      requires i < |txqueue|
      modifies this`txqueue, this`va, this`retrans, this`windowlen
      ensures View() == old(View()).(txqueue := old(txqueue)[..i] + old(txqueue)[i + 1..],
                                     va := num, retrans := 0, windowlen := old(windowlen) - 1)
    {
      txqueue := txqueue[..i] + txqueue[i + 1..];
      va := num;
      retrans := 0;
      windowlen := windowlen - 1;
    }

    method AckPacket(num: Seq7) returns (found: bool)
      modifies this
      ensures View() == L.AckPacket(old(View()), num)
      ensures found <==> FirstWith(old(txqueue), num) < |old(txqueue)|
    {
      hide L.OpenWindow;
      var i := 0;
      while i < |txqueue| && txqueue[i].ns != num
        invariant 0 <= i <= |txqueue| && View() == old(View())
        invariant forall j | 0 <= j < i :: txqueue[j].ns != num
      {
        i := i + 1;
      }
      if i == |txqueue| {
        return false;
      }
      assert FirstWith(txqueue, num) == i;
      Unlink(i, num);
      OpenWindow();
      return true;
    }

    /** Search for something to send, now that the window has opened. */
    method OpenWindow()
      modifies this`txqueue, this`windowlen, this`wire
      ensures View() == L.OpenWindow(old(View()))
    {
      var i := 0;
      while i < |txqueue|
        invariant 0 <= i <= |txqueue| && View() == old(View())
        invariant forall j | 0 <= j < i :: txqueue[j].transmitted
      {
        if !txqueue[i].transmitted {
          assert FirstUnsent(txqueue) == i;
          txqueue := txqueue[i := txqueue[i].(transmitted := true, aired := true, nr := vr)];
          windowlen := windowlen + 1;
          Transmit(OnWire(txqueue[i]));
          return;
        }
        i := i + 1;
      }
    }

    /** Returns false when the acknowledgement was outside the window and the
        link was restarted. */
    method AckRx(ack: Seq7) returns (ok: bool)
      modifies this
      ensures View() == L.AckRx(old(View()), ack)
      ensures ok == InWindow(old(va), old(vs), ack)
    {
      var x := va;
      while x != vs && x != ack
        invariant Dist(va, x) <= Dist(va, ack)
        invariant vs < 128 ==> Dist(va, x) <= Dist(va, vs)
        decreases Dist(x, ack)
      {
        x := Inc(x);
      }
      if x != ack {
        Restart();
        return false;
      }
      x := va;
      var cnt := 0;
      while x != ack
        invariant AckRange(View(), x, ack) == AckRange(old(View()), old(va), ack)
        decreases Dist(x, ack)
      {
        var found := AckPacket(x);
        cnt := cnt + if found then 1 else 0;
        x := Inc(x);
      }
      SetTimers();
      return true;
    }

    /** T200 runs while frames wait, T203 otherwise. */
    method SetTimers()
      modifies this`t200, this`t203
      ensures View() == old(View()).(t200 := txqueue != [], t203 := txqueue == [])
    {
      if txqueue == [] {
        t200 := false;
      }
      if t203 {
        t203 := false;
      }
      if txqueue != [] {
        if !t200 {
          t200 := true;
        }
      } else {
        t203 := true;
      }
    }

    method SendReject(pf: bool)
      modifies this
      ensures View() == L.SendReject(old(View()), pf)
    {
      sentrej := true;
      Transmit(REJ(vr, pf));
    }

    method SendRR(pf: bool)
      modifies this
      ensures View() == L.SendRR(old(View()), pf)
    {
      vna := vr;
      Transmit(RR(vr, pf));
    }

    method Queue(data: Octets)
      modifies this
      ensures View() == L.Queue(old(View()), data)
    {
      Append(Frame(vs % 128, vr, false, false, false, data));
      if retrans == 0 && !busy {
        if windowlen < window {
          SendLast();
        }
      }
      AwaitAck();
    }

    /** T203 gives way to T200. */
    method AwaitAck()
      modifies this`t200, this`t203
      ensures View() == old(View()).(t200 := true, t203 := false)
    {
      if t203 {
        t203 := false;
      }
      if !t200 {
        t200 := true;
      }
    }

    method Append(f: Frame)
      modifies this
      ensures View() == old(View()).(vs := old(vs) + 1, vna := vr, txqueue := old(txqueue) + [f])
    {
      vs := vs + 1;
      vna := vr;
      txqueue := txqueue + [f];
    }

    /** Send the frame just appended and mark it. */
    method SendLast()
      requires txqueue != []
      modifies this
      ensures var last := |old(txqueue)| - 1;
              var f := old(txqueue)[last];
              View() == L.Transmit(old(View()), OnWire(f)).(
                windowlen := old(windowlen) + 1,
                txqueue := old(txqueue)[..last] + [f.(transmitted := true, aired := true)])
    {
      windowlen := windowlen + 1;
      var last := |txqueue| - 1;
      Transmit(OnWire(txqueue[last]));
      txqueue := txqueue[..last] + [txqueue[last].(transmitted := true, aired := true)];
    }

    method QueueAll(replies: seq<Octets>)
      modifies this
      ensures View() == L.QueueAll(old(View()), replies)
    {
      var i := 0;
      while i < |replies|
        invariant 0 <= i <= |replies|
        invariant L.QueueAll(View(), replies[i..]) == L.QueueAll(old(View()), replies)
      {
        Queue(replies[i]);
        i := i + 1;
      }
    }

    /** Deliver an accepted payload, after answering its poll bit. */
    method Deliver(pf: bool, data: Octets)
      modifies this
      ensures var m := old(View());
              var n := if pf then L.SendRR(m, true) else if m.busy then L.SendRR(m, false) else m;
              View() == n.(delivered := n.delivered + [data])
    {
      if pf {
        SendRR(true);
      } else if busy {
        SendRR(false);
      }
      delivered := delivered + [data];
    }

    method HandleIframe(ns: Seq7, nr: Seq7, pf: bool, data: Octets, replies: seq<Octets>)
      requires state == Established
      modifies this
      ensures View() == L.HandleIframe(old(View()), ns, nr, pf, data, replies)
    {
      hide L.AckRx, L.QueueAll, InWindow;
      if ns == vr {
        vr := Inc(vr);
        sentrej := false;
        ghost var entry := View();
        var ok := AckRx(nr);
        AckRxState(entry, nr);
        if !ok {
          return;
        }
        Deliver(pf, data);
        QueueAll(replies);
        if vna != vr {
          SendRR(false);
        }
      } else if !sentrej {
        SendReject(pf);
      } else if pf {
        SendRR(true);
      }
    }

    method HandleRR(nr: Seq7, pf: bool)
      requires state == Established
      modifies this
      ensures View() == L.HandleRR(old(View()), nr, pf)
    {
      hide L.AckRx;
      busy := false;
      ghost var entry := View();
      var ok := AckRx(nr);
      AckRxState(entry, nr);
      if !ok {
        return;
      }
      if pf {
        if !solicitfbit {
          SendRR(true);
        }
        solicitfbit := false;
      }
    }

    method HandleRNR(pf: bool)
      modifies this
      ensures View() == L.HandleRNR(old(View()), pf)
    {
      if pf {
        SendRR(pf);
      }
      busy := true;
    }

    /** Resend the requested I-frame and the transmitted ones after it. */
    method Resend(nr: Seq7) returns (sendnow: bool)
      modifies this`txqueue, this`wire
      ensures var r := L.Resend(old(txqueue), nr, vr, false);
              txqueue == r.0 && wire == old(wire) + r.1 && (sendnow <==> r.1 != [])
    {
      hide L.Resend;
      ghost var q, v, goal := txqueue, vr, L.Resend(txqueue, nr, vr, false);
      ghost var rest := goal;
      sendnow := false;
      var i := 0;
      assert q[0..] == q;
      while i < |txqueue|
        invariant 0 <= i <= |txqueue| == |q|
        invariant rest == L.Resend(q[i..], nr, v, sendnow)
        invariant wire + rest.1 == old(wire) + goal.1
        invariant txqueue[i..] == q[i..]
        invariant txqueue[..i] + rest.0 == goal.0
        invariant |wire| >= |old(wire)| && (sendnow <==> |wire| > |old(wire)|)
      {
        ResendOne(q, i, nr, v, sendnow);
        var f := txqueue[i];
        assert f == q[i];
        ghost var before, done := wire, txqueue[..i];
        if (sendnow || f.ns == nr) && f.transmitted {
          sendnow := true;
          f := f.(nr := vr);
          Transmit(OnWire(f));
        }
        txqueue := txqueue[..i] + [f] + txqueue[i + 1..];
        assert txqueue[..i + 1] == done + [f];
        rest := L.Resend(q[i + 1..], nr, v, sendnow);
        i := i + 1;
      }
      ResendNone(q, nr, v, sendnow);
      assert txqueue[..i] == txqueue;
    }

    method HandleREJ(nr: Seq7, pf: bool)
      modifies this
      ensures View() == L.HandleREJ(old(View()), nr, pf)
    {
      if pf {
        SendRR(true);
      }
      ghost var m := View();
      var sendnow := Resend(nr);
      if !sendnow {
        if txqueue == [] {
          AdoptNumber(nr);
        }
      }
    }

    /** The rejected number is all that is left: it is where both numbers stand. */
    method AdoptNumber(nr: Seq7)
      modifies this`va, this`vs, this`t200, this`t203
      ensures View() == old(View()).(va := nr, vs := nr, t200 := false, t203 := true)
    {
      va := nr;
      vs := nr;
      t200 := false;
      t203 := true;
    }

    /** An I or S frame addressed to this link. */
    method Receive(w: Wire, replies: seq<Octets>)
      modifies this
      ensures View() == L.Receive(old(View()), w, replies)
    {
      if state != Established {
        return;
      }
      match w
      case Info(ns, nr, pf, data) => HandleIframe(ns, nr, pf, data, replies);
      case RR(nr, pf) => HandleRR(nr, pf);
      case RNR(nr, pf) => HandleRNR(pf);
      case REJ(nr, pf) => HandleREJ(nr, pf);
      case Sabme =>
    }

    /** Set the poll bit of the head and count the attempt. */
    method PollHead()
      requires txqueue != []
      modifies this
      ensures View() == old(View()).(
                txqueue := old(txqueue)[0 := old(txqueue)[0].(pf := true, nr := vr)],
                vna := vr, solicitfbit := true, retrans := old(retrans) + 1)
    {
      txqueue := txqueue[0 := txqueue[0].(pf := true, nr := vr)];
      vna := vr;
      solicitfbit := true;
      retrans := retrans + 1;
    }

    method SendHead()
      requires txqueue != []
      modifies this
      ensures View() == L.SendHead(old(View()))
    {
      Transmit(OnWire(txqueue[0]));
      txqueue := txqueue[0 := txqueue[0].(aired := true)];
    }

    method GiveUp()
      modifies this
      ensures View() == L.Restart(old(View()))
    {
      state := Released;
      t200 := false;
      Restart();
    }

    method T200Expire()
      modifies this
      ensures View() == L.T200Expire(old(View()))
    {
      if txqueue != [] {
        RetryHead();
      } else if solicitfbit {
        RetryPoll();
      } else {
        t200 := false;
      }
    }

    /** The head, or a poll for a busy peer, once more. */
    method RetryHead()
      requires txqueue != []
      modifies this
      ensures View() == L.T200Expire(old(View()))
    {
      PollHead();
      if retrans < n200 {
        if busy {
          SendRR(true);
        } else {
          SendHead();
        }
        t200 := true;
      } else {
        GiveUp();
      }
    }

    /** The poll of T203 once more. */
    method RetryPoll()
      requires txqueue == [] && solicitfbit
      modifies this
      ensures View() == L.T200Expire(old(View()))
    {
      retrans := retrans + 1;
      if retrans < n200 {
        solicitfbit := true;
        SendRR(true);
        t200 := true;
      } else {
        GiveUp();
      }
    }

    method T203Expire()
      modifies this
      ensures View() == L.T203Expire(old(View()))
    {
      if state == Established {
        solicitfbit := true;
        retrans := 0;
        SendRR(true);
        t203 := true;
      } else {
        t203 := false;
      }
    }
  }

  /** One round of the resend loop. */
  lemma ResendOne(q: seq<Frame>, i: nat, nr: Seq7, vr: Seq7, sendnow: bool)
    requires i < |q|
    ensures var hit := (sendnow || q[i].ns == nr) && q[i].transmitted;
            var f := if hit then q[i].(nr := vr) else q[i];
            var rest := L.Resend(q[i + 1..], nr, vr, sendnow || hit);
            L.Resend(q[i..], nr, vr, sendnow) == ([f] + rest.0, (if hit then [OnWire(f)] else []) + rest.1)
  {
    assert q[i..][1..] == q[i + 1..];
  }

  lemma ResendNone(q: seq<Frame>, nr: Seq7, vr: Seq7, sendnow: bool)
    ensures L.Resend(q[|q|..], nr, vr, sendnow) == ([], [])
  {}

  /** q921_ack_rx reports a restart exactly when it leaves the link down. */
  lemma AckRxState(l: Link, ack: Seq7)
    requires l.state == Established
    ensures L.AckRx(l, ack).state == Established <==> InWindow(l.va, l.vs, ack)
  {
    AckRangeState(l, l.va, ack);
  }

  lemma {:induction false} AckRangeState(l: Link, x: Seq7, ack: Seq7)
    ensures AckRange(l, x, ack).state == l.state
    decreases Dist(x, ack)
  {
    if x != ack {
      AckRangeState(L.AckPacket(l, x), Inc(x), ack);
    }
  }
}
