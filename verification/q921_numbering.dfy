/** What every handler keeps about the numbering of the transmit queue, for any
    acknowledgement the peer may send. */
module Q921Numbering {
  import opened Q921Link

  /** V(A) names the last acknowledged frame, or (before the first one, and after
      an empty-queue reject) the next frame; `Lag` is the distance to the head. */
  function Lag(va: Seq7, h: Seq7): nat { if va == h then 0 else 1 }

  /** Fewer than 128 frames are queued, under consecutive numbers from `h`; V(S)
      is the next number mod 128, and exact while it is below 128. */
  ghost predicate Numbered(l: Link, h: Seq7) {
    && |l.txqueue| < 128
    && (forall i | 0 <= i < |l.txqueue| :: l.txqueue[i].ns == Plus(h, i))
    && Plus(l.va, Lag(l.va, h)) == h
    && l.vs % 128 == Plus(h, |l.txqueue|)
    && (l.vs < 128 ==> l.vs == l.va + Lag(l.va, h) + |l.txqueue|)
  }

  lemma NumberedIs(l: Link, h: Seq7)
    requires Numbered(l, h)
    ensures |l.txqueue| < 128 && Plus(l.va, Lag(l.va, h)) == h && l.vs % 128 == Plus(h, |l.txqueue|)
    ensures l.vs < 128 ==> l.vs == l.va + Lag(l.va, h) + |l.txqueue|
  {}

  /** The same frames, some of them sent meanwhile. */
  ghost predicate SameFrames(q: seq<Frame>, q': seq<Frame>) {
    && |q| == |q'|
    && forall i | 0 <= i < |q| ::
         && q[i].ns == q'[i].ns && q[i].data == q'[i].data
         && (q[i].transmitted ==> q'[i].transmitted)
  }

  lemma OpenWindowKeeps(l: Link, h: Seq7)
    requires Numbered(l, h)
    ensures Numbered(OpenWindow(l), h) && SameFrames(l.txqueue, OpenWindow(l).txqueue)
  {
    hide Numbered, FirstUnsent;
    SameNumbered(l, OpenWindow(l), h);
  }

  lemma SameNumbered(l: Link, m: Link, h: Seq7)
    requires Numbered(l, h) && SameFrames(l.txqueue, m.txqueue) && m.va == l.va && m.vs == l.vs
    ensures Numbered(m, h)
  {}

  /** The head acknowledged. */
  lemma DropHead(l: Link, h: Seq7, m: Link)
    requires Numbered(l, h) && l.txqueue != []
    requires m.txqueue == l.txqueue[1..] && m.vs == l.vs && m.va == h
    ensures Numbered(m, Inc(h))
  {
    assert l.txqueue[0].ns == Plus(h, 0);
    forall j | 0 <= j < |m.txqueue| ensures m.txqueue[j].ns == Plus(Inc(h), j) {
      assert m.txqueue[j] == l.txqueue[j + 1];
    }
  }

  /** The link with the head taken off its queue. */
  function Behind(l: Link, h: Seq7): Link
    requires l.txqueue != []
  {
    l.(txqueue := l.txqueue[1..], va := h, retrans := 0, windowlen := l.windowlen - 1)
  }

  lemma HeadFound(l: Link, h: Seq7)
    requires Numbered(l, h) && l.txqueue != []
    ensures AckPacket(l, h) == OpenWindow(Behind(l, h)) && Numbered(Behind(l, h), Inc(h))
  {
    hide OpenWindow, Numbered;
    HeadNumber(l, h);
    assert FirstWith(l.txqueue, h) == 0;
    assert l.txqueue[..0] + l.txqueue[1..] == l.txqueue[1..];
    DropHead(l, h, Behind(l, h));
  }

  lemma HeadNumber(l: Link, h: Seq7)
    requires Numbered(l, h) && l.txqueue != []
    ensures l.txqueue[0].ns == h
  {
    assert l.txqueue[0].ns == Plus(h, 0);
  }

  /** The head acknowledged: it leaves, and a waiting frame may be sent. */
  lemma AckHead(l: Link, h: Seq7)
    requires Numbered(l, h) && l.txqueue != []
    ensures Numbered(AckPacket(l, h), Inc(h))
    ensures SameFrames(l.txqueue[1..], AckPacket(l, h).txqueue)
  {
    hide Numbered, SameFrames, OpenWindow, AckPacket;
    HeadFound(l, h);
    OpenWindowKeeps(Behind(l, h), Inc(h));
  }

  /** The number just before the head is not queued. */
  lemma AckAbsent(l: Link, h: Seq7, num: Seq7)
    requires Numbered(l, h)
    requires Inc(num) == h || l.txqueue == []
    ensures AckPacket(l, num) == l
  {}

  /** Frames removed when `n` numbers starting at the head are acknowledged. */
  function Min(x: nat, y: nat): nat { if x < y then x else y }

  lemma {:induction false} AckRangeKeeps(l: Link, h: Seq7, x: Seq7, ack: Seq7)
    requires Numbered(l, h)
    requires x == h || l.txqueue == []
    ensures var m := AckRange(l, x, ack);
            var d := Min(Dist(x, ack), |l.txqueue|);
            Numbered(m, Plus(h, d)) && SameFrames(l.txqueue[d..], m.txqueue)
    decreases Dist(x, ack)
  {
    hide *;
    var q := l.txqueue;
    if x == ack {
      AckRangeEmpty(l, x);
      NothingAcked(l, h);
    } else if q == [] {
      AckRangeNext(l, x, ack);
      NextNumbers(x, ack, h, 0);
      AckAbsent(l, h, x);
      AckRangeKeeps(l, h, Inc(x), ack);
    } else {
      AckRangeNext(l, x, ack);
      NextNumbers(x, ack, h, 0);
      AckHead(l, h);
      var m := AckPacket(l, x);
      AckRangeKeeps(m, Inc(h), Inc(x), ack);
      SameLength(q[1..], m.txqueue);
      var e := Min(Dist(Inc(x), ack), |m.txqueue|);
      MinNext(Dist(Inc(x), ack), |m.txqueue|);
      NextNumbers(x, ack, h, e);
      SameTail(q, m.txqueue, AckRange(m, Inc(x), ack).txqueue, e);
    }
  }

  lemma AckRangeEmpty(l: Link, x: Seq7)
    ensures AckRange(l, x, x) == l && Dist(x, x) == 0
  {}

  lemma AckRangeNext(l: Link, x: Seq7, ack: Seq7)
    requires x != ack
    ensures AckRange(l, x, ack) == AckRange(AckPacket(l, x), Inc(x), ack)
  {
    hide AckPacket;
  }

  lemma NothingAcked(l: Link, h: Seq7)
    requires Numbered(l, h)
    ensures Min(0, |l.txqueue|) == 0 && Numbered(l, Plus(h, 0)) && SameFrames(l.txqueue[0..], l.txqueue)
    ensures l.txqueue == [] ==> forall n: nat :: Min(n, |l.txqueue|) == 0
  {
    assert l.txqueue[0..] == l.txqueue;
  }

  lemma NextNumbers(x: Seq7, ack: Seq7, h: Seq7, e: nat)
    requires x != ack && e < 128
    ensures Dist(x, ack) == Dist(Inc(x), ack) + 1 && Plus(Inc(h), e) == Plus(h, e + 1) && Plus(h, 0) == h
    ensures Min(Dist(x, ack), 0) == 0 && Min(Dist(Inc(x), ack), 0) == 0
  {}

  lemma MinNext(n: nat, m: nat)
    ensures Min(n + 1, m + 1) == Min(n, m) + 1 && Min(n, m) <= m && Min(n, m) <= n
  {}

  lemma SameLength(q: seq<Frame>, r: seq<Frame>)
    requires SameFrames(q, r)
    ensures |q| == |r|
  {}

  lemma SameTail(q: seq<Frame>, m: seq<Frame>, r: seq<Frame>, e: nat)
    requires q != [] && e <= |m|
    requires SameFrames(q[1..], m) && SameFrames(m[e..], r)
    ensures SameFrames(q[e + 1..], r)
  {
    forall i | 0 <= i < |r|
      ensures q[e + 1..][i].ns == r[i].ns && q[e + 1..][i].data == r[i].data
      ensures q[e + 1..][i].transmitted ==> r[i].transmitted
    {
      assert q[e + 1..][i] == q[1..][e + i];
      assert m[e..][i] == m[e + i];
    }
  }

  /** How many frames an acknowledgement takes off the head of the queue. */
  function Acked(l: Link, h: Seq7, ack: Seq7): nat {
    var n := Dist(l.va, ack);
    Min(if n < Lag(l.va, h) then 0 else n - Lag(l.va, h), |l.txqueue|)
  }

  /** The numbers from V(A) on, whether or not the last acknowledged one is still
      named by V(A). */
  lemma AckFromVA(l: Link, h: Seq7, ack: Seq7)
    requires Numbered(l, h)
    ensures var m := AckRange(l, l.va, ack);
            var d := Acked(l, h, ack);
            Numbered(m, Plus(h, d)) && SameFrames(l.txqueue[d..], m.txqueue)
  {
    hide *;
    LagIs(l, h, ack);
    if l.va == h {
      AckRangeKeeps(l, h, l.va, ack);
    } else if l.va == ack {
      AckRangeEmpty(l, ack);
      NothingAcked(l, h);
    } else {
      AckRangeNext(l, l.va, ack);
      AckAbsent(l, h, l.va);
      AckRangeKeeps(l, h, Inc(l.va), ack);
    }
  }

  /** V(A) is the number of the head or the one before it. */
  lemma LagIs(l: Link, h: Seq7, ack: Seq7)
    requires Numbered(l, h)
    ensures l.va == h || Inc(l.va) == h
    ensures Acked(l, h, ack) ==
            if l.va == h then Min(Dist(l.va, ack), |l.txqueue|)
            else if l.va == ack then Min(0, |l.txqueue|)
            else Min(Dist(Inc(l.va), ack), |l.txqueue|)
  {}

  lemma {:induction false} AckRangeFrame(l: Link, x: Seq7, ack: Seq7)
    ensures var m := AckRange(l, x, ack);
            m.state == l.state && m.vr == l.vr && m.delivered == l.delivered && m.vs == l.vs
    decreases Dist(x, ack)
  {
    hide AckPacket;
    if x != ack {
      AckPacketFrame(l, x);
      AckRangeFrame(AckPacket(l, x), Inc(x), ack);
    }
  }

  lemma AckPacketFrame(l: Link, num: Seq7)
    ensures var m := AckPacket(l, num);
            m.state == l.state && m.vr == l.vr && m.delivered == l.delivered && m.vs == l.vs
  {
    hide FirstWith, FirstUnsent;
  }

  /** Any 7-bit acknowledgement, legal or not, either restarts the link or takes
      exactly a prefix off the queue, and the numbering survives. */
  lemma AckTakesPrefix(l: Link, h: Seq7, ack: Seq7)
    requires Numbered(l, h)
    ensures var m := AckRx(l, ack);
            var d := Acked(l, h, ack);
            if InWindow(l.va, l.vs, ack) then
              Numbered(m, Plus(h, d)) && SameFrames(l.txqueue[d..], m.txqueue) && m.state == l.state
            else
              m == Restart(l)
  {
    hide AckRange;
    if InWindow(l.va, l.vs, ack) {
      AckRangeFrame(l, l.va, ack);
      AckFromVA(l, h, ack);
    }
  }

  /** The numbers a peer may acknowledge: V(A), and those up to the next to be sent. */
  predicate Legal(l: Link, h: Seq7, ack: Seq7) { Dist(l.va, ack) <= Lag(l.va, h) + |l.txqueue| }

  /** The window test accepts exactly the legal numbers if and only if V(S), which is
      never reduced, is still below 128, or every number is legal. */
  lemma WindowTestIff(l: Link, h: Seq7)
    requires Numbered(l, h)
    ensures (forall ack :: InWindow(l.va, l.vs, ack) <==> Legal(l, h, ack))
      <==> l.vs < 128 || Lag(l.va, h) + |l.txqueue| >= 127
  {
    if l.vs >= 128 && Lag(l.va, h) + |l.txqueue| < 127 {
      var stray := StrayNumber(l, h);
      assert InWindow(l.va, l.vs, stray) && !Legal(l, h, stray);
    }
  }

  /** From 128 frames on the number before V(A) passes, which names no frame that is
      still to be acknowledged: with it everything queued is taken off. */
  lemma StrayNumber(l: Link, h: Seq7) returns (stray: Seq7)
    requires Numbered(l, h) && l.vs >= 128 && Lag(l.va, h) + |l.txqueue| < 127
    ensures !Legal(l, h, stray) && InWindow(l.va, l.vs, stray)
    ensures stray == (if l.va == 0 then 127 else l.va - 1) && Acked(l, h, stray) == |l.txqueue|
    ensures AckRx(l, stray).txqueue == [] && AckRx(l, stray).state == l.state
  {
    stray := if l.va == 0 then 127 else l.va - 1;
    AckTakesPrefix(l, h, stray);
    hide AckRx, Numbered;
  }

  lemma {:induction false} ResendSame(q: seq<Frame>, nr: Seq7, vr: Seq7, sendnow: bool)
    ensures SameFrames(q, Resend(q, nr, vr, sendnow).0)
  {
    if q != [] {
      ResendSame(q[1..], nr, vr, sendnow || (q[0].ns == nr && q[0].transmitted));
      var r := Resend(q, nr, vr, sendnow).0;
      forall i | 0 < i < |q| ensures r[i] == r[1..][i - 1] && q[i] == q[1..][i - 1] {}
    }
  }

  // ------------------------------------------------------------- every handler

  /** The numbering holds for some number of the head. */
  ghost predicate Consistent(l: Link) { exists h :: Numbered(l, h) }

  lemma AckRxConsistent(l: Link, ack: Seq7)
    requires Consistent(l)
    ensures Consistent(AckRx(l, ack)) && |AckRx(l, ack).txqueue| <= |l.txqueue|
  {
    var h :| Numbered(l, h);
    AckTakesPrefix(l, h, ack);
    RestartConsistent(l);
  }

  lemma RestartConsistent(l: Link)
    ensures Consistent(Restart(l))
  {
    assert Numbered(Restart(l), 0);
  }

  lemma AppendNumbered(l: Link, h: Seq7, m: Link, f: Frame)
    requires Numbered(l, h) && |l.txqueue| < 127
    requires m.txqueue == l.txqueue + [f] && m.vs == l.vs + 1 && m.va == l.va
    requires f.ns == l.vs % 128
    ensures Numbered(m, h)
  {
    var q := m.txqueue;
    var n := |l.txqueue|;
    assert q[n] == f && f.ns == Plus(h, n);
    NextPlus(l.vs, h, n);
    forall i | 0 <= i < |q| ensures q[i].ns == Plus(h, i) {
      if i < n { assert q[i] == l.txqueue[i]; }
    }
    hide Plus;
  }

  lemma NextPlus(vs: nat, h: Seq7, n: nat)
    requires n < 127 && vs % 128 == Plus(h, n)
    ensures (vs + 1) % 128 == Plus(h, n + 1)
  {}

  lemma QueueConsistent(l: Link, data: Octets)
    requires Consistent(l) && |l.txqueue| < 127
    ensures Consistent(Queue(l, data))
  {
    var h :| Numbered(l, h);
    var m := Queue(l, data);
    AppendNumbered(l, h, m, m.txqueue[|l.txqueue|]);
  }

  lemma {:induction false} QueueAllConsistent(l: Link, replies: seq<Octets>)
    requires Consistent(l) && |l.txqueue| + |replies| < 128
    ensures Consistent(QueueAll(l, replies))
    decreases |replies|
  {
    if replies != [] {
      QueueConsistent(l, replies[0]);
      QueueAllConsistent(Queue(l, replies[0]), replies[1..]);
    }
  }

  lemma {:induction false} QueueAllGrows(l: Link, replies: seq<Octets>)
    ensures |QueueAll(l, replies).txqueue| == |l.txqueue| + |replies|
    decreases |replies|
  {
    if replies != [] {
      QueueAllGrows(Queue(l, replies[0]), replies[1..]);
    }
  }

  lemma SameNumbers(l: Link, m: Link)
    requires Consistent(l)
    requires SameFrames(l.txqueue, m.txqueue) && m.va == l.va && m.vs == l.vs
    ensures Consistent(m)
  {
    var h :| Numbered(l, h);
    assert Numbered(m, h);
  }

  lemma IframeConsistent(l: Link, ns: Seq7, nr: Seq7, pf: bool, data: Octets, replies: seq<Octets>)
    requires Consistent(l) && l.state == Established
    requires |HandleIframe(l, ns, nr, pf, data, replies).txqueue| < 128
    ensures Consistent(HandleIframe(l, ns, nr, pf, data, replies))
  {
    hide AckRx, QueueAll, Numbered;
    if ns == l.vr {
      var l1 := l.(vr := Inc(l.vr), sentrej := false);
      SameNumbers(l, l1);
      AckRxConsistent(l1, nr);
      var l2 := AckRx(l1, nr);
      if l2.state == Established {
        var l3 := if pf then SendRR(l2, true) else if l2.busy then SendRR(l2, false) else l2;
        var l4 := l3.(delivered := l3.delivered + [data]);
        SameNumbers(l2, l4);
        QueueAllGrows(l4, replies);
        QueueAllConsistent(l4, replies);
        SameNumbers(QueueAll(l4, replies), HandleIframe(l, ns, nr, pf, data, replies));
      }
    } else {
      SameNumbers(l, HandleIframe(l, ns, nr, pf, data, replies));
    }
  }

  /** Any I or S frame, with any N(S) and N(R), legal or not, keeps the numbering,
      as long as fewer than 128 frames stay queued. */
  lemma ReceiveKeepsNumbering(l: Link, w: Wire, replies: seq<Octets>)
    requires Consistent(l) && |Receive(l, w, replies).txqueue| < 128
    ensures Consistent(Receive(l, w, replies))
  {
    hide AckRx, HandleIframe, HandleRR, HandleREJ, Consistent;
    if l.state == Established {
      match w
      case Info(ns, nr, pf, data) => IframeConsistent(l, ns, nr, pf, data, replies);
      case RR(nr, pf) => ReadyConsistent(l, nr, pf);
      case RNR(nr, pf) => SameQueue(l, HandleRNR(l, pf));
      case REJ(nr, pf) => RejectConsistent(l, nr, pf);
      case Sabme =>
    }
  }

  lemma ReadyConsistent(l: Link, nr: Seq7, pf: bool)
    requires Consistent(l)
    ensures Consistent(HandleRR(l, nr, pf))
  {
    hide AckRx, Consistent;
    SameQueue(l, l.(busy := false));
    AckRxConsistent(l.(busy := false), nr);
    SameQueue(AckRx(l.(busy := false), nr), HandleRR(l, nr, pf));
  }

  /** The numbering depends on the queue, V(A) and V(S) alone. */
  lemma SameQueue(l: Link, m: Link)
    requires Consistent(l) && m.txqueue == l.txqueue && m.va == l.va && m.vs == l.vs
    ensures Consistent(m)
  {
    SameNumbers(l, m);
  }

  lemma RejectConsistent(l: Link, nr: Seq7, pf: bool)
    requires Consistent(l)
    ensures Consistent(HandleREJ(l, nr, pf))
  {
    var m := HandleREJ(l, nr, pf);
    ResendSame(l.txqueue, nr, l.vr, false);
    if l.txqueue == [] {
      assert Numbered(m, nr);
    } else {
      hide Resend, Numbered;
      SameNumbers(l, m);
    }
  }

  /** So do the timers and the submission of a payload. */
  lemma OwnStepsKeepNumbering(l: Link, data: Octets)
    requires Consistent(l)
    ensures Consistent(T200Expire(l)) && Consistent(T203Expire(l))
    ensures |l.txqueue| < 127 ==> Consistent(Queue(l, data))
  {
    hide Numbered, T200Expire, Queue;
    SameNumbers(l, T203Expire(l));
    if |l.txqueue| < 127 { QueueConsistent(l, data); }
    T200Consistent(l);
  }

  lemma T200Consistent(l: Link)
    requires Consistent(l)
    ensures Consistent(T200Expire(l))
  {
    var m := T200Expire(l);
    hide Consistent;
    if l.txqueue != [] {
      var f := l.txqueue[0].(pf := true, nr := l.vr);
      var p := l.(txqueue := l.txqueue[0 := f]);
      var p' := l.(txqueue := l.txqueue[0 := f.(aired := true)]);
      SameNumbers(l, p);
      SameNumbers(l, p');
      if l.retrans + 1 >= l.n200 {
        ZeroNumbers(m);
      } else {
        SameQueue(if l.busy then p else p', m);
      }
    } else if l.solicitfbit && l.retrans + 1 >= l.n200 {
      ZeroNumbers(m);
    } else {
      SameQueue(l, m);
    }
  }

  lemma ZeroNumbers(l: Link)
    requires l.txqueue == [] && l.va == 0 && l.vs == 0
    ensures Consistent(l)
  {
    assert Numbered(l, 0);
  }
}
