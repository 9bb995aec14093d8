/** How many I-frames are sent and not yet acknowledged, against the window K of
    section 5.5.1 of Q.921: over any run, whatever the peer sends. */
module Q921Window {
  import opened Q921Link
  import opened Q921Numbering
  import opened Q921Runs

  // ------------------------------------------------------------------ counting

  /** Queued frames that the window counts. */
  function Flagged(q: seq<Frame>): nat {
    if q == [] then 0 else (if q[0].transmitted then 1 else 0) + Flagged(q[1..])
  }

  /** Queued frames that have been sent. */
  function Aired(q: seq<Frame>): nat {
    if q == [] then 0 else (if q[0].aired then 1 else 0) + Aired(q[1..])
  }

  /** What is counted has been sent; what has been sent uncounted is at the head. */
  predicate Coherent(q: seq<Frame>) {
    forall i | 0 <= i < |q| :: (q[i].transmitted ==> q[i].aired) && (i > 0 && q[i].aired ==> q[i].transmitted)
  }

  /** The head has been sent by T200, uncounted. */
  predicate Polled(q: seq<Frame>) { q != [] && q[0].aired && !q[0].transmitted }

  function One(b: bool): nat { if b then 1 else 0 }

  function Over(n: int): nat { if n > 0 then n else 0 }

  /** How far the window count lags behind the frames it should count. */
  function Debt(l: Link): int { Flagged(l.txqueue) - l.windowlen }

  /** I-frames sent and not acknowledged that the window count does not include. */
  function Uncounted(l: Link): int { Debt(l) + One(Polled(l.txqueue)) }

  /** I-frames sent and not acknowledged. */
  function Outstanding(l: Link): nat { Aired(l.txqueue) }

  lemma {:induction false} AiredIs(q: seq<Frame>)
    requires Coherent(q)
    ensures Aired(q) == Flagged(q) + One(Polled(q))
  {
    if q != [] {
      assert forall i | 0 <= i < |q[1..]| :: q[1..][i] == q[i + 1];
      AiredIs(q[1..]);
    }
  }

  lemma OutstandingIs(l: Link)
    requires Coherent(l.txqueue)
    ensures Outstanding(l) == l.windowlen + Uncounted(l)
  {
    AiredIs(l.txqueue);
  }

  lemma {:induction false} FlaggedJoin(p: seq<Frame>, q: seq<Frame>)
    ensures Flagged(p + q) == Flagged(p) + Flagged(q)
  {
    if p == [] {
      assert p + q == q;
    } else {
      assert (p + q)[1..] == p[1..] + q;
      FlaggedJoin(p[1..], q);
    }
  }

  lemma {:induction false} FlaggedAtMost(q: seq<Frame>)
    ensures Flagged(q) <= |q|
  {
    if q != [] {
      FlaggedAtMost(q[1..]);
    }
  }

  lemma {:induction false} AllFlagged(q: seq<Frame>)
    requires forall i | 0 <= i < |q| :: q[i].transmitted
    ensures Flagged(q) == |q|
  {
    if q != [] {
      AllFlagged(q[1..]);
    }
  }

  lemma FlaggedAt(q: seq<Frame>, i: nat, f: Frame)
    requires i < |q|
    ensures Flagged(q[i := f]) == Flagged(q) - One(q[i].transmitted) + One(f.transmitted)
  {
    assert q[i := f] == q[..i] + [f] + q[i + 1..];
    assert q == q[..i] + [q[i]] + q[i + 1..];
    FlaggedJoin(q[..i] + [f], q[i + 1..]);
    FlaggedJoin(q[..i], [f]);
    FlaggedJoin(q[..i] + [q[i]], q[i + 1..]);
    FlaggedJoin(q[..i], [q[i]]);
  }

  // ------------------------------------------------------- one acknowledgement

  /** Frames behind the head that wait to be sent. */
  function Waiting(q: seq<Frame>): nat
    requires q != []
  {
    Over(|q| - 1 - Flagged(q[1..]))
  }

  /** The opened window lets the first waiting frame out, if there is one. */
  lemma OpenWindowCounts(l: Link)
    ensures var m := OpenWindow(l);
            var some := Flagged(l.txqueue) < |l.txqueue|;
            && |m.txqueue| == |l.txqueue| && Flagged(m.txqueue) == Flagged(l.txqueue) + One(some)
            && m.windowlen == l.windowlen + One(some)
            && (m.txqueue != [] ==> m.txqueue[0].transmitted)
            && m.retrans == l.retrans && m.busy == l.busy && m.window == l.window
  {
    var q := l.txqueue;
    var i := FirstUnsent(q);
    if i < |q| {
      var f := q[i].(transmitted := true, aired := true, nr := l.vr);
      FlaggedAt(q, i, f);
      FlaggedAtMost(q[i := f]);
    } else {
      AllFlagged(q);
    }
  }

  /** The head acknowledged: one frame less, one more sent if one waits. */
  lemma AckHeadCounts(l: Link, h: Seq7)
    requires Numbered(l, h) && l.txqueue != []
    ensures var m := AckPacket(l, h);
            var some := One(Waiting(l.txqueue) > 0);
            && |m.txqueue| == |l.txqueue| - 1
            && Flagged(m.txqueue) == Flagged(l.txqueue[1..]) + some && m.windowlen == l.windowlen - 1 + some
            && (m.txqueue != [] ==> m.txqueue[0].transmitted)
            && m.retrans == 0 && m.busy == l.busy && m.window == l.window
  {
    HeadFound(l, h);
    FlaggedAtMost(l.txqueue[1..]);
    hide OpenWindow, Numbered, AckPacket, Flagged;
    OpenWindowCounts(Behind(l, h));
  }

  /** What is left of the window count, and of the counted frames, when the first d
      frames of the queue have been acknowledged. */
  ghost predicate Thinned(l: Link, m: Link, d: nat) {
    && m.busy == l.busy && m.window == l.window && |m.txqueue| == |l.txqueue| - d
    && if d == 0 then m == l
       else
         && l.txqueue != [] && m.retrans == 0 && (m.txqueue != [] ==> m.txqueue[0].transmitted)
         && m.windowlen == l.windowlen - Over(d - Waiting(l.txqueue))
         && Flagged(m.txqueue) ==
              Flagged(l.txqueue) + One(!l.txqueue[0].transmitted) - Over(d - Waiting(l.txqueue))
  }

  lemma ThinnedOne(l: Link, h: Seq7)
    requires Numbered(l, h) && l.txqueue != []
    ensures Thinned(l, AckPacket(l, h), 1)
  {
    AckHeadCounts(l, h);
    FlaggedAtMost(l.txqueue[1..]);
    hide AckPacket, Numbered;
  }

  /** After the first of them, d more. */
  lemma ThinnedMore(l: Link, p: Link, m: Link, d: nat)
    requires Thinned(l, p, 1) && Thinned(p, m, d) && |p.txqueue| >= d
    ensures Thinned(l, m, d + 1)
  {
    if d > 0 {
      FlaggedAtMost(p.txqueue[1..]);
      FlaggedAtMost(l.txqueue[1..]);
    }
  }

  lemma {:induction false} AckRangeCounts(l: Link, h: Seq7, x: Seq7, ack: Seq7)
    requires Numbered(l, h)
    requires x == h || l.txqueue == []
    ensures Thinned(l, AckRange(l, x, ack), Min(Dist(x, ack), |l.txqueue|))
    decreases Dist(x, ack)
  {
    hide *;
    if x == ack {
      AckRangeEmpty(l, ack);
      ThinnedNot(l, 0);
    } else {
      AckRangeNext(l, x, ack);
      NextNumbers(x, ack, h, 0);
      if l.txqueue == [] {
        AckAbsent(l, h, x);
        AckRangeCounts(l, h, Inc(x), ack);
        MinNone(Dist(x, ack));
        MinNone(Dist(Inc(x), ack));
      } else {
        var p := AckPacket(l, x);
        AckHead(l, h);
        ThinnedOne(l, h);
        ThinnedLength(l, p, 1);
        AckRangeCounts(p, Inc(h), Inc(x), ack);
        MinNext(Dist(Inc(x), ack), |p.txqueue|);
        ThinnedMore(l, p, AckRange(p, Inc(x), ack), Min(Dist(Inc(x), ack), |p.txqueue|));
      }
    }
  }

  lemma MinNone(n: nat)
    ensures Min(n, 0) == 0
  {}

  lemma ThinnedNot(l: Link, n: nat)
    requires n == 0 || l.txqueue == []
    ensures Thinned(l, l, Min(n, |l.txqueue|))
  {}

  lemma ThinnedLength(l: Link, m: Link, d: nat)
    requires Thinned(l, m, d)
    ensures |m.txqueue| == |l.txqueue| - d
  {}

  /** How many frames an acknowledgement takes off the queue. */
  function Taken(l: Link, ack: Seq7): nat { if l.txqueue == [] then 0 else Acked(l, l.txqueue[0].ns, ack) }

  lemma TakenIs(l: Link, h: Seq7, ack: Seq7)
    requires Numbered(l, h)
    ensures Taken(l, ack) == Acked(l, h, ack)
  {
    if l.txqueue != [] {
      assert l.txqueue[0].ns == Plus(h, 0);
    }
  }

  lemma AckRxCounts(l: Link, ack: Seq7)
    requires Consistent(l) && InWindow(l.va, l.vs, ack)
    ensures var m := AckRange(l, l.va, ack);
            && Thinned(l, m, Taken(l, ack))
            && AckRx(l, ack) == m.(t200 := m.txqueue != [], t203 := m.txqueue == [])
  {
    var h :| Numbered(l, h);
    TakenIs(l, h, ack);
    hide Thinned, Numbered, AckRange, Taken;
    LagIs(l, h, ack);
    if l.va == h {
      AckRangeCounts(l, h, l.va, ack);
    } else if l.va == ack {
      AckRangeEmpty(l, ack);
      ThinnedNot(l, 0);
    } else {
      AckRangeNext(l, l.va, ack);
      AckAbsent(l, h, l.va);
      AckRangeCounts(l, h, Inc(l.va), ack);
    }
  }

  // --------------------------------------------------------------- coherence

  lemma OpenWindowCoherent(l: Link)
    requires Coherent(l.txqueue)
    ensures Coherent(OpenWindow(l).txqueue)
  {}

  lemma AckPacketCoherent(l: Link, num: Seq7)
    requires Coherent(l.txqueue)
    ensures Coherent(AckPacket(l, num).txqueue)
  {
    var i := FirstWith(l.txqueue, num);
    if i < |l.txqueue| {
      var m := l.(txqueue := l.txqueue[..i] + l.txqueue[i + 1..], va := num, retrans := 0,
                  windowlen := l.windowlen - 1);
      Shorter(l.txqueue, i);
      hide Coherent, OpenWindow;
      OpenWindowCoherent(m);
    }
  }

  lemma Shorter(q: seq<Frame>, i: nat)
    requires Coherent(q) && i < |q|
    ensures Coherent(q[..i] + q[i + 1..])
  {
    var r := q[..i] + q[i + 1..];
    forall j | 0 <= j < |r|
      ensures (r[j].transmitted ==> r[j].aired) && (j > 0 && r[j].aired ==> r[j].transmitted)
    {
      assert r[j] == if j < i then q[j] else q[j + 1];
    }
  }

  lemma {:induction false} AckRangeCoherent(l: Link, x: Seq7, ack: Seq7)
    requires Coherent(l.txqueue)
    ensures Coherent(AckRange(l, x, ack).txqueue)
    decreases Dist(x, ack)
  {
    hide Coherent, AckPacket;
    if x != ack {
      AckPacketCoherent(l, x);
      AckRangeCoherent(AckPacket(l, x), Inc(x), ack);
    }
  }

  lemma AckRxCoherent(l: Link, ack: Seq7)
    requires Coherent(l.txqueue)
    ensures Coherent(AckRx(l, ack).txqueue)
  {
    hide AckRange;
    AckRangeCoherent(l, l.va, ack);
  }

  lemma QueueCoherent(l: Link, data: Octets)
    requires Coherent(l.txqueue)
    ensures Coherent(Queue(l, data).txqueue)
  {}

  lemma {:induction false} QueueAllCoherent(l: Link, replies: seq<Octets>)
    requires Coherent(l.txqueue)
    ensures Coherent(QueueAll(l, replies).txqueue)
    decreases |replies|
  {
    hide Coherent, Queue;
    if replies != [] {
      QueueCoherent(l, replies[0]);
      QueueAllCoherent(Queue(l, replies[0]), replies[1..]);
    }
  }

  /** Resending changes nothing but N(R). */
  lemma {:induction false} ResendMarks(q: seq<Frame>, nr: Seq7, vr: Seq7, sendnow: bool)
    ensures var r := Resend(q, nr, vr, sendnow).0;
            && |r| == |q| && Flagged(r) == Flagged(q)
            && forall i | 0 <= i < |q| :: r[i].transmitted == q[i].transmitted && r[i].aired == q[i].aired
  {
    if q != [] {
      var hit := (sendnow || q[0].ns == nr) && q[0].transmitted;
      ResendMarks(q[1..], nr, vr, sendnow || hit);
      var r := Resend(q, nr, vr, sendnow).0;
      var s := Resend(q[1..], nr, vr, sendnow || hit).0;
      assert r[1..] == s;
      forall i | 0 <= i < |q| ensures r[i].transmitted == q[i].transmitted && r[i].aired == q[i].aired {
        if i > 0 {
          assert r[i] == s[i - 1] && q[i] == q[1..][i - 1];
        }
      }
    }
  }

  lemma HandleCoherent(l: Link, i: Input)
    requires Coherent(l.txqueue)
    ensures Coherent(Handle(l, i).txqueue)
  {
    hide Coherent, HandleIframe, HandleRR, HandleREJ, Queue, T200Expire;
    match i
    case Submit(data) => QueueCoherent(l, data);
    case T200 => T200Coherent(l);
    case T203 =>
    case Arrive(w, replies) =>
      if l.state == Established {
        match w
        case Info(ns, nr, pf, data) => IframeCoherent(l, ns, nr, pf, data, replies);
        case RR(nr, pf) => ReadyCoherent(l, nr, pf);
        case REJ(nr, pf) => RejectCoherent(l, nr, pf);
        case _ =>
      }
  }

  lemma T200Coherent(l: Link)
    requires Coherent(l.txqueue)
    ensures Coherent(T200Expire(l).txqueue)
  {
    hide Restart, OnWire;
    if l.txqueue != [] {
      var f := l.txqueue[0].(pf := true, nr := l.vr);
      SameMarks(l.txqueue, f);
      SameMarks(l.txqueue, f.(aired := true));
      hide Coherent;
      RestartEmpty(l.(txqueue := l.txqueue[0 := f], vna := l.vr, solicitfbit := true, retrans := l.retrans + 1));
    } else {
      RestartEmpty(l.(retrans := l.retrans + 1));
    }
  }

  lemma SameMarks(q: seq<Frame>, f: Frame)
    requires Coherent(q) && q != [] && f.transmitted == q[0].transmitted && (q[0].aired ==> f.aired)
    ensures Coherent(q[0 := f])
  {}

  lemma RestartEmpty(l: Link)
    ensures Coherent(Restart(l).txqueue)
  {}

  lemma IframeCoherent(l: Link, ns: Seq7, nr: Seq7, pf: bool, data: Octets, replies: seq<Octets>)
    requires Coherent(l.txqueue)
    ensures Coherent(HandleIframe(l, ns, nr, pf, data, replies).txqueue)
  {
    hide AckRx, QueueAll, Coherent;
    if ns == l.vr {
      var m := AckRx(l.(vr := Inc(l.vr), sentrej := false), nr);
      AckRxCoherent(l.(vr := Inc(l.vr), sentrej := false), nr);
      var n := if pf then SendRR(m, true) else if m.busy then SendRR(m, false) else m;
      QueueAllCoherent(n.(delivered := n.delivered + [data]), replies);
    }
  }

  lemma ReadyCoherent(l: Link, nr: Seq7, pf: bool)
    requires Coherent(l.txqueue)
    ensures Coherent(HandleRR(l, nr, pf).txqueue)
  {
    hide AckRx, Coherent;
    AckRxCoherent(l.(busy := false), nr);
  }

  lemma RejectCoherent(l: Link, nr: Seq7, pf: bool)
    requires Coherent(l.txqueue)
    ensures Coherent(HandleREJ(l, nr, pf).txqueue)
  {
    ResendMarks(l.txqueue, nr, l.vr, false);
    hide Resend;
  }

  // --------------------------------------------------- one event, in closed form

  /** A frame submitted now goes out at once. */
  predicate SendsNow(l: Link) { l.retrans == 0 && !l.busy && l.windowlen < l.window }

  /** A T200 expiry is the first to send the head. */
  predicate FirstByT200(l: Link) {
    l.txqueue != [] && !l.busy && l.retrans + 1 < l.n200 && !l.txqueue[0].aired
  }

  /** An event brings an acknowledgement that the link looks at, this one. */
  predicate Brings(l: Link, i: Input, nr: Seq7) {
    && i.Arrive? && l.state == Established
    && ((i.w.Info? && i.w.ns == l.vr && i.w.nr == nr) || (i.w.RR? && i.w.nr == nr))
  }

  /** The event restarts the link: an acknowledgement outside the window, or one
      expiry of T200 too many. */
  predicate Restarts(l: Link, i: Input) {
    || (i.T200? && (l.txqueue != [] || l.solicitfbit) && l.retrans + 1 >= l.n200)
    || (i.Arrive? && (i.w.Info? || i.w.RR?) && Brings(l, i, i.w.nr) && !InWindow(l.va, l.vs, i.w.nr))
  }

  /** It acknowledges d frames of the queue. */
  function Takes(l: Link, i: Input): nat {
    if i.Arrive? && (i.w.Info? || i.w.RR?) && Brings(l, i, i.w.nr) then Taken(l, i.w.nr) else 0
  }

  /** It acknowledges a frame that has never been sent. */
  predicate AcksUnsent(l: Link, i: Input) { !Restarts(l, i) && Takes(l, i) > 0 && !l.txqueue[0].aired }

  /** It acknowledges a frame that the window does not count. */
  predicate AcksUncounted(l: Link, i: Input) { !Restarts(l, i) && Takes(l, i) > 0 && !l.txqueue[0].transmitted }

  /** It makes the window count fall short of what is outstanding by one more. */
  predicate Offends(l: Link, i: Input) { (i.T200? && FirstByT200(l)) || AcksUnsent(l, i) }

  /** How many of n frames submitted in a row go out at once. */
  function SentAtOnce(l: Link, n: nat): nat {
    if l.busy || l.retrans != 0 then 0 else Min(n, Over(l.window - l.windowlen))
  }

  lemma QueueCounts(l: Link, data: Octets)
    ensures var m := Queue(l, data);
            && m.windowlen == l.windowlen + One(SendsNow(l)) && Debt(m) == Debt(l)
            && Polled(m.txqueue) == Polled(l.txqueue)
            && m.busy == l.busy && m.retrans == l.retrans && m.window == l.window && m.state == l.state
            && |m.txqueue| == |l.txqueue| + 1
  {
    var f := Queue(l, data).txqueue[|l.txqueue|];
    FlaggedJoin(l.txqueue, [f]);
  }

  lemma {:induction false} QueueAllCounts(l: Link, replies: seq<Octets>)
    ensures var m := QueueAll(l, replies);
            && m.windowlen == l.windowlen + SentAtOnce(l, |replies|) && Debt(m) == Debt(l)
            && Polled(m.txqueue) == Polled(l.txqueue) && m.state == l.state
            && |m.txqueue| == |l.txqueue| + |replies|
    decreases |replies|
  {
    hide Queue, Debt, Polled;
    if replies != [] {
      QueueCounts(l, replies[0]);
      QueueAllCounts(Queue(l, replies[0]), replies[1..]);
    }
  }

  /** The window count and the debt after an acknowledgement. */
  lemma AckCounts(l: Link, nr: Seq7)
    requires Consistent(l) && Coherent(l.txqueue) && InWindow(l.va, l.vs, nr)
    ensures var m := AckRx(l, nr);
            var d := Taken(l, nr);
            && m.busy == l.busy && m.window == l.window && m.state == l.state
            && m.retrans == (if d == 0 then l.retrans else 0)
            && m.windowlen == l.windowlen - (if d == 0 then 0 else Over(d - Waiting(l.txqueue)))
            && Debt(m) == Debt(l) + One(d > 0 && !l.txqueue[0].transmitted)
            && Uncounted(m) == Uncounted(l) + One(d > 0 && !l.txqueue[0].aired)
  {
    AckRxCounts(l, nr);
    AckRangeFrame(l, l.va, nr);
    hide AckRange, Taken, Flagged, Consistent, InWindow;
  }

  /** The numbering does not depend on V(R) and the flags. */
  lemma SameTaken(l: Link, m: Link, nr: Seq7)
    requires m.txqueue == l.txqueue && m.va == l.va && m.vs == l.vs
    ensures Taken(m, nr) == Taken(l, nr)
    ensures Consistent(l) ==> Consistent(m)
  {
    if Consistent(l) {
      SameNumbers(l, m);
    }
  }

  /** What one event does to the two counts: the debt grows exactly when a frame is
      acknowledged that the window does not count, the uncounted frames exactly when
      T200 is the first to send a frame or one never sent is acknowledged. */
  ghost predicate Accounts(l: Link, i: Input, m: Link) {
    if Restarts(l, i) then Debt(m) == 0 && Uncounted(m) == 0
    else Debt(m) == Debt(l) + One(AcksUncounted(l, i)) && Uncounted(m) == Uncounted(l) + One(Offends(l, i))
  }

  lemma T200Accounts(l: Link)
    requires Coherent(l.txqueue)
    ensures Accounts(l, T200, T200Expire(l))
  {
    if l.txqueue != [] {
      var f := l.txqueue[0].(pf := true, nr := l.vr);
      FlaggedAt(l.txqueue, 0, f);
      FlaggedAt(l.txqueue, 0, f.(aired := true));
      var m := T200Expire(l);
      assert !l.busy && l.retrans + 1 < l.n200 ==> m.txqueue == l.txqueue[0 := f.(aired := true)];
      hide Flagged;
    }
  }

  lemma AckAccounts(l: Link, a: Link, nr: Seq7, i: Input)
    requires Consistent(l) && Coherent(l.txqueue) && Brings(l, i, nr)
    requires a.txqueue == l.txqueue && a.va == l.va && a.vs == l.vs && a.windowlen == l.windowlen
    ensures Accounts(l, i, AckRx(a, nr))
    ensures Restarts(l, i) <==> !InWindow(a.va, a.vs, nr)
    ensures AckRx(a, nr).state == Established <==> a.state == Established && InWindow(a.va, a.vs, nr)
  {
    hide Consistent, InWindow, Taken, Coherent;
    SameTaken(l, a, nr);
    if InWindow(a.va, a.vs, nr) {
      AckCounts(a, nr);
      hide AckRx;
    }
  }

  lemma IframeAccounts(l: Link, ns: Seq7, nr: Seq7, pf: bool, data: Octets, replies: seq<Octets>)
    requires Consistent(l) && Coherent(l.txqueue) && l.state == Established
    ensures Accounts(l, Arrive(Info(ns, nr, pf, data), replies), HandleIframe(l, ns, nr, pf, data, replies))
  {
    hide Consistent, Coherent, AckRx, QueueAll, Taken, InWindow, Flagged;
    if ns == l.vr {
      var a := l.(vr := Inc(l.vr), sentrej := false);
      AckAccounts(l, a, nr, Arrive(Info(ns, nr, pf, data), replies));
      var m := AckRx(a, nr);
      var n := if pf then SendRR(m, true) else if m.busy then SendRR(m, false) else m;
      QueueAllCounts(n.(delivered := n.delivered + [data]), replies);
    }
  }

  lemma ReadyAccounts(l: Link, nr: Seq7, pf: bool, replies: seq<Octets>)
    requires Consistent(l) && Coherent(l.txqueue) && l.state == Established
    ensures Accounts(l, Arrive(RR(nr, pf), replies), HandleRR(l, nr, pf))
  {
    hide Consistent, Coherent, AckRx, Taken, InWindow, Flagged;
    AckAccounts(l, l.(busy := false), nr, Arrive(RR(nr, pf), replies));
  }

  lemma RejectAccounts(l: Link, nr: Seq7, pf: bool, replies: seq<Octets>)
    requires l.state == Established
    ensures Accounts(l, Arrive(REJ(nr, pf), replies), HandleREJ(l, nr, pf))
  {
    ResendMarks(l.txqueue, nr, l.vr, false);
    hide Resend, Flagged;
  }

  lemma HandleAccounts(l: Link, i: Input)
    requires Consistent(l) && Coherent(l.txqueue)
    ensures Accounts(l, i, Handle(l, i))
  {
    hide Consistent, Coherent, HandleIframe, HandleRR, HandleREJ, T200Expire, Queue, Flagged, Taken, InWindow;
    match i
    case Submit(data) => QueueCounts(l, data);
    case T200 => T200Accounts(l);
    case T203 =>
    case Arrive(w, replies) =>
      if l.state == Established {
        match w
        case Info(ns, nr, pf, data) => IframeAccounts(l, ns, nr, pf, data, replies);
        case RR(nr, pf) => ReadyAccounts(l, nr, pf, replies);
        case REJ(nr, pf) => RejectAccounts(l, nr, pf, replies);
        case _ =>
      }
  }

  // -------------------------------------------------- the window, event by event

  /** Frames the opened window does not make up for when d frames are acknowledged:
      every frame taken lets one waiting frame out, while there are any. */
  function Unreplaced(l: Link, d: nat): nat { if d == 0 || l.txqueue == [] then 0 else Over(d - Waiting(l.txqueue)) }

  /** How many of the replies of layer 3 go out at once, behind the acknowledgement. */
  function RepliesSent(l: Link, i: Input): nat {
    if i.Arrive? && l.state == Established && i.w.Info? && i.w.ns == l.vr then
      var d := Takes(l, i);
      if l.busy || (l.retrans != 0 && d == 0) then 0
      else Min(|i.replies|, Over(l.window - l.windowlen + Unreplaced(l, d)))
    else 0
  }

  /** What the event makes of the frames outstanding. */
  function OutstandingAfter(l: Link, i: Input): int {
    if Restarts(l, i) then 0
    else
      match i
      case Submit(_) => Outstanding(l) + One(SendsNow(l))
      case T200 => Outstanding(l) + One(FirstByT200(l))
      case T203 => Outstanding(l)
      case Arrive(_, _) =>
        Outstanding(l) + One(AcksUnsent(l, i)) - Unreplaced(l, Takes(l, i)) + RepliesSent(l, i)
  }

  lemma NothingTaken(l: Link, nr: Seq7)
    ensures l.txqueue == [] ==> Taken(l, nr) == 0
  {}

  /** The window count after an event that does not restart the link. */
  lemma WindowlenAfter(l: Link, i: Input)
    requires Consistent(l) && Coherent(l.txqueue) && !Restarts(l, i)
    ensures Handle(l, i).windowlen ==
              l.windowlen + One(i.Submit? && SendsNow(l)) - Unreplaced(l, Takes(l, i)) + RepliesSent(l, i)
  {
    hide Consistent, Coherent, HandleIframe, HandleRR, HandleREJ, T200Expire, Queue, SendsNow, Taken, InWindow, Over,
        Waiting;
    match i
    case Submit(data) => QueueCounts(l, data);
    case T200 => T200Windowlen(l);
    case T203 =>
    case Arrive(w, replies) =>
      RejectWindowlen(l, if w.REJ? then w.nr else 0, if w.REJ? then w.pf else false);
      if l.state == Established {
        match w
        case Info(ns, nr, pf, data) =>
          if ns == l.vr {
            IframeWindowlen(l, nr, pf, data, replies);
          } else {
            RefusedWindowlen(l, ns, nr, pf, data, replies);
          }
        case RR(nr, pf) => ReadyWindowlen(l, nr, pf);
        case _ =>
      }
  }

  lemma T200Windowlen(l: Link)
    requires !Restarts(l, T200)
    ensures T200Expire(l).windowlen == l.windowlen
  {}

  lemma RejectWindowlen(l: Link, nr: Seq7, pf: bool)
    ensures HandleREJ(l, nr, pf).windowlen == l.windowlen
  {
    hide Resend;
  }

  lemma RefusedWindowlen(l: Link, ns: Seq7, nr: Seq7, pf: bool, data: Octets, replies: seq<Octets>)
    requires ns != l.vr
    ensures HandleIframe(l, ns, nr, pf, data, replies).windowlen == l.windowlen
  {}

  lemma ReadyWindowlen(l: Link, nr: Seq7, pf: bool)
    requires Consistent(l) && Coherent(l.txqueue) && l.state == Established && InWindow(l.va, l.vs, nr)
    ensures HandleRR(l, nr, pf).windowlen == l.windowlen - Unreplaced(l, Taken(l, nr))
  {
    hide Consistent, Coherent, AckRx, Taken, InWindow, Over, Waiting;
    NothingTaken(l, nr);
    SameTaken(l, l.(busy := false), nr);
    AckCounts(l.(busy := false), nr);
  }

  lemma IframeWindowlen(l: Link, nr: Seq7, pf: bool, data: Octets, replies: seq<Octets>)
    requires Consistent(l) && Coherent(l.txqueue) && l.state == Established && InWindow(l.va, l.vs, nr)
    ensures HandleIframe(l, l.vr, nr, pf, data, replies).windowlen ==
              l.windowlen - Unreplaced(l, Taken(l, nr))
              + (if l.busy || (l.retrans != 0 && Taken(l, nr) == 0) then 0
                 else Min(|replies|, Over(l.window - l.windowlen + Unreplaced(l, Taken(l, nr)))))
  {
    hide Consistent, Coherent, AckRx, QueueAll, Taken, InWindow, Over, Waiting;
    var a := l.(vr := Inc(l.vr), sentrej := false);
    NothingTaken(l, nr);
    SameTaken(l, a, nr);
    AckCounts(a, nr);
    var m := AckRx(a, nr);
    var n := if pf then SendRR(m, true) else if m.busy then SendRR(m, false) else m;
    QueueAllCounts(n.(delivered := n.delivered + [data]), replies);
  }

  lemma RestartClears(l: Link, i: Input)
    requires Restarts(l, i)
    ensures Handle(l, i).txqueue == [] && Handle(l, i).windowlen == 0
  {
    hide AckRange, QueueAll, InWindow;
  }

  lemma StepOutstanding(l: Link, i: Input)
    requires Consistent(l) && Coherent(l.txqueue)
    ensures Outstanding(Handle(l, i)) == OutstandingAfter(l, i)
  {
    hide Consistent, Coherent, Handle, Restarts, Taken, Waiting, Over, SendsNow, FirstByT200, Flagged, Aired;
    OutstandingIs(l);
    HandleCoherent(l, i);
    OutstandingIs(Handle(l, i));
    HandleAccounts(l, i);
    if Restarts(l, i) {
      RestartClears(l, i);
    } else {
      WindowlenAfter(l, i);
    }
  }

  /** The guards under which an event takes the frames outstanding above K.  A frame
      submitted goes out although K are outstanding, because the window counts less;
      T200 is the first to send the head, whatever the window says; a frame that was
      never sent is acknowledged, and enough wait behind it; or the replies of layer 3
      go out at once and fill more than the window has room for. */
  predicate Overruns(l: Link, i: Input) {
    match i
    case Submit(_) => SendsNow(l) && Outstanding(l) == l.k
    case T200 => FirstByT200(l) && Outstanding(l) == l.k
    case T203 => false
    case Arrive(w, replies) =>
      && !Restarts(l, i)
      && (if RepliesSent(l, i) == 0
          then AcksUnsent(l, i) && Takes(l, i) <= Waiting(l.txqueue) && Outstanding(l) == l.k
          else Outstanding(l) + One(AcksUnsent(l, i)) + RepliesSent(l, i) > l.k + Unreplaced(l, Takes(l, i)))
  }

  /** In any state, whatever the event: from at most K outstanding it leads to more
      exactly under these guards. */
  lemma StepOverrunsIff(l: Link, i: Input)
    requires Consistent(l) && Coherent(l.txqueue) && 0 <= l.k && Outstanding(l) <= l.k
    ensures Outstanding(Handle(l, i)) > l.k <==> Overruns(l, i)
  {
    hide Consistent, Coherent, Handle, Outstanding, RepliesSent, SendsNow, Waiting;
    StepOutstanding(l, i);
  }

  // ------------------------------------------------------------------ whole runs

  /** Frames acknowledged without having been counted, since the last restart. */
  function Debts(l: Link, inputs: seq<Input>): nat
    decreases |inputs|
  {
    if inputs == [] then 0
    else
      var n := |inputs| - 1;
      var p := Run(l, inputs[..n]);
      if Restarts(p, inputs[n]) then 0 else Debts(l, inputs[..n]) + One(AcksUncounted(p, inputs[n]))
  }

  /** Frames sent first by T200, and frames acknowledged that were never sent, since
      the last restart. */
  function Offences(l: Link, inputs: seq<Input>): nat
    decreases |inputs|
  {
    if inputs == [] then 0
    else
      var n := |inputs| - 1;
      var p := Run(l, inputs[..n]);
      if Restarts(p, inputs[n]) then 0 else Offences(l, inputs[..n]) + One(Offends(p, inputs[n]))
  }

  lemma {:induction false} RunCoherent(l: Link, inputs: seq<Input>)
    requires Coherent(l.txqueue)
    ensures Coherent(Run(l, inputs).txqueue)
    decreases |inputs|
  {
    hide Handle, Coherent;
    if inputs != [] {
      RunCoherent(l, inputs[..|inputs| - 1]);
      HandleCoherent(Run(l, inputs[..|inputs| - 1]), inputs[|inputs| - 1]);
    }
  }

  /** The account of the window over a whole run with any peer: the debt is what has
      been acknowledged uncounted, and the frames outstanding are the window count,
      which never exceeds K, and one for every offence. */
  lemma {:induction false} WindowAccount(l: Link, inputs: seq<Input>)
    requires 0 <= l.k && 1 <= l.n200 && Within128(Up(l), inputs)
    ensures var m := Run(Up(l), inputs);
            && Debt(m) == Debts(Up(l), inputs)
            && Uncounted(m) == Offences(Up(l), inputs)
            && Outstanding(m) == m.windowlen + Offences(Up(l), inputs)
            && m.windowlen <= l.k
    decreases |inputs|
  {
    var m := Run(Up(l), inputs);
    UpCoherent(l);
    hide Handle, Within128, Quiet, Coherent, AcksUncounted, Offends, Restarts, Up;
    if inputs != [] {
      var n := |inputs| - 1;
      Within128Before(Up(l), inputs);
      WindowAccount(l, inputs[..n]);
      AlwaysNumbered(l, inputs[..n]);
      RunCoherent(Up(l), inputs[..n]);
      HandleAccounts(Run(Up(l), inputs[..n]), inputs[n]);
    }
    AlwaysQuiet(l, inputs);
    QuietWindow(m);
    RunKeepsK(Up(l), inputs);
    RunCoherent(Up(l), inputs);
    hide Debt, Uncounted, Outstanding;
    OutstandingIs(m);
  }

  lemma QuietWindow(l: Link)
    requires Quiet(l)
    ensures l.windowlen <= l.k
  {}

  /** The window is kept in every state of a run exactly if none of its events meets
      the guards. */
  lemma WindowKeptIff(l: Link, inputs: seq<Input>)
    requires 0 <= l.k && Within128(Up(l), inputs)
    ensures (forall n | 0 <= n <= |inputs| :: Outstanding(Run(Up(l), inputs[..n])) <= l.k)
      <==> forall n | 0 <= n < |inputs| :: !Overruns(Run(Up(l), inputs[..n]), inputs[n])
  {
    hide Within128, Overruns, Outstanding, Run, Up;
    if forall n | 0 <= n <= |inputs| :: Outstanding(Run(Up(l), inputs[..n])) <= l.k {
      forall n | 0 <= n < |inputs| ensures !Overruns(Run(Up(l), inputs[..n]), inputs[n]) {
        OneStep(l, inputs, n);
        var next: nat := n + 1;
        assert Outstanding(Run(Up(l), inputs[..next])) <= l.k;
      }
    }
    if forall n | 0 <= n < |inputs| :: !Overruns(Run(Up(l), inputs[..n]), inputs[n]) {
      forall n | 0 <= n <= |inputs| ensures Outstanding(Run(Up(l), inputs[..n])) <= l.k {
        KeptSoFar(l, inputs, n);
      }
    }
  }

  lemma OneStep(l: Link, inputs: seq<Input>, n: nat)
    requires 0 <= l.k && Within128(Up(l), inputs) && n < |inputs|
    ensures Outstanding(Run(Up(l), inputs[..n])) <= l.k ==>
              (Outstanding(Run(Up(l), inputs[..n + 1])) > l.k <==> Overruns(Run(Up(l), inputs[..n]), inputs[n]))
  {
    var p := inputs[..n];
    forall k | 0 <= k <= |p| ensures p[..k] == inputs[..k] {}
    assert inputs[..n + 1] == p + [inputs[n]];
    AlwaysNumbered(l, p);
    hide *;
    RunOne(Up(l), p, inputs[n]);
    UpCoherent(l);
    RunCoherent(Up(l), p);
    RunKeepsK(Up(l), p);
    if Outstanding(Run(Up(l), p)) <= l.k {
      StepOverrunsIff(Run(Up(l), p), inputs[n]);
    }
  }

  lemma UpCoherent(l: Link)
    ensures Coherent(Up(l).txqueue) && Up(l).k == l.k && Up(l).n200 == l.n200
    ensures Outstanding(Up(l)) == 0 && Debt(Up(l)) == 0 && Uncounted(Up(l)) == 0 && Run(Up(l), []) == Up(l)
  {}

  lemma {:induction false} KeptSoFar(l: Link, inputs: seq<Input>, n: nat)
    requires 0 <= l.k && Within128(Up(l), inputs) && n <= |inputs|
    requires forall k | 0 <= k < n :: !Overruns(Run(Up(l), inputs[..k]), inputs[k])
    ensures Outstanding(Run(Up(l), inputs[..n])) <= l.k
  {
    hide Within128, Overruns, Run, Up, Outstanding;
    if n == 0 {
      UpCoherent(l);
      assert inputs[..0] == [];
    } else {
      KeptSoFar(l, inputs, n - 1);
      OneStep(l, inputs, n - 1);
    }
  }

  // ------------------------------------------------------- what an idle sender may do

  predicate Idle(l: Link) {
    Quiet(l) && l.state == Established && l.txqueue == [] && !l.busy && l.retrans == 0
  }

  /** A continuation in which T200 is never the first to send a frame and the peer
      acknowledges only what has been sent. */
  ghost predicate Blameless(l: Link, inputs: seq<Input>) {
    Within128(l, inputs) && forall n | 0 <= n < |inputs| :: !Offends(Run(l, inputs[..n]), inputs[n])
  }

  /** Every blameless continuation of an idle link keeps to K if and only if nothing
      uncounted is left over from before; with K from 127 up there is no room in the
      numbering to exceed it. */
  lemma WindowRespectedIff(l: Link)
    requires Idle(l) && Consistent(l)
    ensures (forall inputs | Blameless(l, inputs) :: Outstanding(Run(l, inputs)) <= l.k)
      <==> Uncounted(l) <= 0 || l.k >= 127
  {
    hide Idle, Consistent, Blameless, Outstanding, Uncounted, Run;
    if Uncounted(l) <= 0 {
      forall inputs | Blameless(l, inputs) ensures Outstanding(Run(l, inputs)) <= l.k {
        StaysWithin(l, inputs);
      }
    } else if l.k >= 127 {
      forall inputs | Blameless(l, inputs) ensures Outstanding(Run(l, inputs)) <= l.k {
        AtMostQueued(l, inputs);
      }
    } else {
      var inputs := Overfill(l);
      assert Blameless(l, inputs) && Outstanding(Run(l, inputs)) > l.k;
    }
  }

  lemma {:induction false} AiredAtMost(q: seq<Frame>)
    ensures Aired(q) <= |q|
  {
    if q != [] {
      AiredAtMost(q[1..]);
    }
  }

  lemma AtMostQueued(l: Link, inputs: seq<Input>)
    requires Blameless(l, inputs)
    ensures Outstanding(Run(l, inputs)) <= 127
  {
    assert inputs[..|inputs|] == inputs;
    AiredAtMost(Run(l, inputs).txqueue);
  }

  lemma BlamelessBefore(l: Link, inputs: seq<Input>)
    requires Blameless(l, inputs) && inputs != []
    ensures Blameless(l, inputs[..|inputs| - 1])
    ensures !Offends(Run(l, inputs[..|inputs| - 1]), inputs[|inputs| - 1])
  {
    var before := inputs[..|inputs| - 1];
    Within128Before(l, inputs);
    hide Within128, Offends, Run;
    forall n | 0 <= n < |before| ensures !Offends(Run(l, before[..n]), before[n]) {
      assert before[..n] == inputs[..n];
    }
  }

  lemma IdleParts(l: Link)
    requires Idle(l)
    ensures Quiet(l) && Coherent(l.txqueue) && 0 <= l.k && l.windowlen <= l.k
  {}

  lemma {:induction false} UncountedLater(l: Link, inputs: seq<Input>)
    requires Idle(l) && Consistent(l) && Blameless(l, inputs) && Uncounted(l) <= 0
    ensures var m := Run(l, inputs); Consistent(m) && Coherent(m.txqueue) && Quiet(m) && Uncounted(m) <= 0
    decreases |inputs|
  {
    IdleParts(l);
    hide Idle, Consistent, Blameless, Uncounted, Coherent, Handle, Quiet, Offends, Debt;
    if inputs != [] {
      var n := |inputs| - 1;
      BlamelessBefore(l, inputs);
      UncountedLater(l, inputs[..n]);
      BlamelessNow(l, inputs);
      HandleConsistent(Run(l, inputs[..n]), inputs[n]);
      HandleCoherent(Run(l, inputs[..n]), inputs[n]);
      HandleKeepsQuiet(Run(l, inputs[..n]), inputs[n]);
      HandleAccounts(Run(l, inputs[..n]), inputs[n]);
    }
  }

  lemma BlamelessNow(l: Link, inputs: seq<Input>)
    requires Blameless(l, inputs)
    ensures |Run(l, inputs).txqueue| < 128
  {
    assert inputs[..|inputs|] == inputs;
  }

  lemma StaysWithin(l: Link, inputs: seq<Input>)
    requires Idle(l) && Consistent(l) && Blameless(l, inputs) && Uncounted(l) <= 0
    ensures Outstanding(Run(l, inputs)) <= l.k
  {
    UncountedLater(l, inputs);
    RunKeepsK(l, inputs);
    hide Idle, Consistent, Blameless, Uncounted, Outstanding, Coherent;
    OutstandingIs(Run(l, inputs));
  }

  /** n submissions. */
  function Submits(n: nat): seq<Input> { seq(n, _ => Submit([])) }

  lemma {:induction false} SubmitsRun(l: Link, n: nat)
    requires Idle(l) && Uncounted(l) > 0 && n <= l.k + 1
    ensures var m := Run(l, Submits(n));
            && |m.txqueue| == n && Outstanding(m) == n && Uncounted(m) == Uncounted(l) && Coherent(m.txqueue)
            && m.retrans == 0 && !m.busy && m.window == l.window && m.k == l.k
  {
    if n == 0 {
      assert Submits(0) == [];
    } else {
      var k: nat := n - 1;
      var p := Run(l, Submits(k));
      SubmitsRun(l, k);
      IdleWindow(l);
      hide Idle, Uncounted, Outstanding, Coherent, Debt, Polled, Queue;
      assert Submits(n) == Submits(k) + [Submit([])];
      RunOne(l, Submits(k), Submit([]));
      OutstandingIs(p);
      QueueCounts(p, []);
      QueueCoherent(p, []);
      OutstandingIs(Queue(p, []));
      UncountedIs(p);
      UncountedIs(Queue(p, []));
      QueueK(p, []);
    }
  }

  lemma IdleWindow(l: Link)
    requires Idle(l)
    ensures l.window == l.k
  {}

  lemma UncountedIs(l: Link)
    ensures Uncounted(l) == Debt(l) + One(Polled(l.txqueue))
  {}

  lemma Overfill(l: Link) returns (inputs: seq<Input>)
    requires Idle(l) && Uncounted(l) > 0 && l.k < 127
    ensures Blameless(l, inputs) && Outstanding(Run(l, inputs)) > l.k
  {
    IdleParts(l);
    var most: nat := l.k + 1;
    inputs := Submits(most);
    SubmitsRun(l, most);
    forall n | 0 <= n <= |inputs| ensures |Run(l, inputs[..n]).txqueue| < 128 {
      assert inputs[..n] == Submits(n);
      SubmitsRun(l, n);
    }
    forall n | 0 <= n < |inputs| ensures !Offends(Run(l, inputs[..n]), inputs[n]) {
      hide Run;
    }
  }

  // -------------------------------------------------------------------- witnesses

  /** K is exceeded at once: with K = 1, a frame queued while the peer was not ready
      stands before one that has been sent, and T200 sends it as well. */
  lemma WindowOverrunByT200(l: Link, d: Octets, e: Octets)
    requires l.k == 1 && l.n200 >= 2
    ensures var m := Run(Up(l), [Arrive(RNR(0, false), []), Submit(d), Arrive(RR(0, false), []), Submit(e), T200]);
            && m.state == Established && Outstanding(m) == 2 && Debt(m) == 0
            && m.wire == l.wire + [Info(1, 0, false, e), Info(0, 0, true, d)]
  {
    var i0, i1, i2, i3, i4 := Arrive(RNR(0, false), []), Submit(d), Arrive(RR(0, false), []), Submit(e), T200;
    var s0 := Up(l);
    var s2 := Handle(Handle(s0, i0), i1);
    var f, g := Frame(0, 0, false, false, false, d), Frame(1, 0, false, true, true, e);
    assert s2.txqueue == [f];
    var s3 := Handle(s2, i2);
    assert s3 == s2.(busy := false, t203 := false, t200 := true);
    var s4 := Handle(s3, i3);
    assert s4.txqueue == [f, g] && s4.windowlen == 1;
    var s5 := Handle(s4, i4);
    assert s5.txqueue == [f.(pf := true, aired := true), g];
    TwoCounts(f.(pf := true, aired := true), g);
    hide Handle, Run, Flagged, Aired;
    RunFive(s0, i0, i1, i2, i3, i4);
  }

  lemma TwoCounts(f: Frame, g: Frame)
    ensures Flagged([f, g]) == One(f.transmitted) + One(g.transmitted) && Aired([f, g]) == One(f.aired) + One(g.aired)
  {
    assert [f, g][1..] == [g];
    assert [g][1..] == [];
    assert Flagged([g]) == One(g.transmitted) && Aired([g]) == One(g.aired);
  }

  /** And for good: once such a frame is acknowledged, the idle link counts one frame
      too few. */
  lemma WindowOverrun(l: Link, d: Octets)
    requires l.k >= 0 && l.n200 >= 2
    ensures var m := Run(Up(l), [Arrive(RNR(0, false), []), Submit(d), Arrive(RR(0, false), []), T200,
                                 Arrive(RR(1, true), [])]);
            Idle(m) && Uncounted(m) == 1
  {
    var i0, i1, i2, i3, i4 :=
      Arrive(RNR(0, false), []), Submit(d), Arrive(RR(0, false), []), T200, Arrive(RR(1, true), []);
    var s0 := Up(l);
    var s2 := Handle(Handle(s0, i0), i1);
    var f := Frame(0, 0, false, false, false, d);
    assert s2.txqueue == [f];
    var s3 := Handle(s2, i2);
    assert s3 == s2.(busy := false, t203 := false, t200 := true);
    var s4 := Handle(s3, i3);
    assert s4.txqueue == [f.(pf := true, aired := true)];
    var s5 := Handle(s4, i4);
    assert AckPacket(s4, 0) == s4.(txqueue := [], va := 0, retrans := 0, windowlen := -1);
    assert AckRange(AckPacket(s4, 0), 1, 1) == AckPacket(s4, 0);
    assert Idle(s5) && Uncounted(s5) == 1;
    RunFive(s0, i0, i1, i2, i3, i4);
  }

  lemma RunFive(l: Link, a: Input, b: Input, c: Input, d: Input, e: Input)
    ensures Run(l, [a, b, c, d, e]) == Handle(Handle(Handle(Handle(Handle(l, a), b), c), d), e)
  {
    RunNone(l);
    hide *;
    assert [] + [a] == [a];
    RunOne(l, [], a);
    assert [a] + [b] == [a, b];
    RunOne(l, [a], b);
    assert [a, b] + [c] == [a, b, c];
    RunOne(l, [a, b], c);
    assert [a, b, c] + [d] == [a, b, c, d];
    RunOne(l, [a, b, c], d);
    assert [a, b, c, d] + [e] == [a, b, c, d, e];
    RunOne(l, [a, b, c, d], e);
  }

  lemma RunNone(l: Link)
    ensures Run(l, []) == l
  {}
}
