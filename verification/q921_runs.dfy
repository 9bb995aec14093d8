/** What one endpoint keeps over any run, whatever its peer sends: the timers, the
    window count and the Reject discipline. */
module Q921Runs {
  import opened Q921Link
  import Q921Numbering

  datatype Input =
    | Submit(data: Octets)
    | Arrive(w: Wire, replies: seq<Octets>)
    | T200
    | T203

  function Handle(l: Link, i: Input): Link {
    match i
    case Submit(data) => Queue(l, data)
    case Arrive(w, replies) => Receive(l, w, replies)
    case T200 => T200Expire(l)
    case T203 => T203Expire(l)
  }

  function Run(l: Link, inputs: seq<Input>): Link
    decreases |inputs|
  {
    if inputs == [] then l
    else var n := |inputs| - 1; Handle(Run(l, inputs[..n]), inputs[n])
  }

  // ---------------------------------------------------------------- quiescence

  /** Between events: everything received has been acknowledged, a waiting frame
      has T200 running, the retry count is below its limit and the window count
      within the window. */
  predicate Quiet(l: Link) {
    && l.vna == l.vr
    && (l.txqueue != [] ==> l.t200)
    && l.retrans < l.n200
    && l.windowlen <= l.window == l.k
    && 0 <= l.k
  }

  lemma {:induction false} AckRangeWindow(l: Link, x: Seq7, ack: Seq7)
    ensures var m := AckRange(l, x, ack);
            && m.windowlen <= l.windowlen && m.window == l.window && m.k == l.k && m.n200 == l.n200
            && (m.retrans == l.retrans || m.retrans == 0)
            && m.vna == l.vna && m.vr == l.vr && m.state == l.state && m.busy == l.busy
    decreases Dist(x, ack)
  {
    hide AckPacket;
    if x != ack {
      AckPacketWindow(l, x);
      AckRangeWindow(AckPacket(l, x), Inc(x), ack);
    }
  }

  lemma AckPacketWindow(l: Link, num: Seq7)
    ensures var m := AckPacket(l, num);
            && m.windowlen <= l.windowlen && m.window == l.window && m.k == l.k && m.n200 == l.n200
            && (m.retrans == l.retrans || m.retrans == 0)
            && m.vna == l.vna && m.vr == l.vr && m.state == l.state && m.busy == l.busy
  {
    hide FirstWith, FirstUnsent;
  }

  lemma {:induction false} QueueAllQuiet(l: Link, replies: seq<Octets>)
    requires l.windowlen <= l.window == l.k && (l.txqueue != [] ==> l.t200)
    ensures var m := QueueAll(l, replies);
            && m.windowlen <= m.window == m.k == l.k && (m.txqueue != [] ==> m.t200)
            && m.retrans == l.retrans && m.n200 == l.n200
            && m.vr == l.vr && (m.vna == l.vna || m.vna == m.vr) && m.state == l.state
    decreases |replies|
  {
    if replies != [] {
      QueueAllQuiet(Queue(l, replies[0]), replies[1..]);
    }
  }

  lemma {:induction false} ResendLength(q: seq<Frame>, nr: Seq7, vr: Seq7, sendnow: bool)
    ensures |Resend(q, nr, vr, sendnow).0| == |q|
  {
    if q != [] {
      ResendLength(q[1..], nr, vr, sendnow || (q[0].ns == nr && q[0].transmitted));
    }
  }

  lemma IframeKeepsQuiet(l: Link, ns: Seq7, nr: Seq7, pf: bool, data: Octets, replies: seq<Octets>)
    requires Quiet(l) && l.state == Established
    ensures Quiet(HandleIframe(l, ns, nr, pf, data, replies))
  {
    hide AckRange, QueueAll, InWindow;
    if ns == l.vr {
      var l1 := l.(vr := Inc(l.vr), sentrej := false);
      AckRangeWindow(l1, l1.va, nr);
      var l2 := AckRx(l1, nr);
      if l2.state == Established {
        hide AckRx;
        var l3 := if pf then SendRR(l2, true) else if l2.busy then SendRR(l2, false) else l2;
        QueueAllQuiet(l3.(delivered := l3.delivered + [data]), replies);
      }
    }
  }

  lemma ReadyKeepsQuiet(l: Link, nr: Seq7, pf: bool)
    requires Quiet(l) && l.state == Established
    ensures Quiet(HandleRR(l, nr, pf))
  {
    hide AckRange, InWindow;
    AckRangeWindow(l.(busy := false), l.va, nr);
  }

  lemma RejectKeepsQuiet(l: Link, nr: Seq7, pf: bool)
    requires Quiet(l) && l.state == Established
    ensures Quiet(HandleREJ(l, nr, pf))
  {
    hide Resend;
    ResendLength(l.txqueue, nr, l.vr, false);
  }

  lemma HandleKeepsQuiet(l: Link, i: Input)
    requires Quiet(l)
    ensures Quiet(Handle(l, i))
  {
    hide HandleIframe, HandleRR, HandleREJ, HandleRNR, T200Expire, T203Expire, Queue, Quiet;
    match i
    case Submit(data) => QueueKeepsQuiet(l, data);
    case T200 => T200KeepsQuiet(l);
    case T203 => T203KeepsQuiet(l);
    case Arrive(w, replies) =>
      if l.state == Established {
        match w
        case Info(ns, nr, pf, data) => IframeKeepsQuiet(l, ns, nr, pf, data, replies);
        case RR(nr, pf) => ReadyKeepsQuiet(l, nr, pf);
        case RNR(nr, pf) => NotReadyKeepsQuiet(l, pf);
        case REJ(nr, pf) => RejectKeepsQuiet(l, nr, pf);
        case Sabme =>
      }
  }

  lemma QueueKeepsQuiet(l: Link, data: Octets)
    requires Quiet(l)
    ensures Quiet(Queue(l, data))
  {}

  lemma T203KeepsQuiet(l: Link)
    requires Quiet(l)
    ensures Quiet(T203Expire(l))
  {}

  lemma T200KeepsQuiet(l: Link)
    requires Quiet(l)
    ensures Quiet(T200Expire(l))
  {}

  lemma NotReadyKeepsQuiet(l: Link, pf: bool)
    requires Quiet(l)
    ensures Quiet(HandleRNR(l, pf))
  {}

  /** From the moment the link comes up, every state between events is quiet. */
  lemma {:induction false} AlwaysQuiet(l: Link, inputs: seq<Input>)
    requires l.k >= 0 && l.n200 >= 1
    ensures Quiet(Run(Up(l), inputs))
    decreases |inputs|
  {
    if inputs != [] {
      AlwaysQuiet(l, inputs[..|inputs| - 1]);
      HandleKeepsQuiet(Run(Up(l), inputs[..|inputs| - 1]), inputs[|inputs| - 1]);
    }
  }

  /** What a run adds. */
  lemma RunOne(l: Link, inputs: seq<Input>, i: Input)
    ensures Run(l, inputs + [i]) == Handle(Run(l, inputs), i)
  {
    assert (inputs + [i])[..|inputs|] == inputs;
  }

  lemma HandleConsistent(l: Link, i: Input)
    requires Q921Numbering.Consistent(l) && |Handle(l, i).txqueue| < 128
    ensures Q921Numbering.Consistent(Handle(l, i))
  {
    hide Receive, Queue, T200Expire, T203Expire, Q921Numbering.Consistent;
    match i
    case Submit(data) =>
      QueueGrows(l, data);
      Q921Numbering.OwnStepsKeepNumbering(l, data);
    case Arrive(w, replies) => Q921Numbering.ReceiveKeepsNumbering(l, w, replies);
    case T200 => Q921Numbering.OwnStepsKeepNumbering(l, []);
    case T203 => Q921Numbering.OwnStepsKeepNumbering(l, []);
  }

  /** Fewer than 128 frames are queued in every state of a run. */
  ghost predicate Within128(l: Link, inputs: seq<Input>) {
    forall n | 0 <= n <= |inputs| :: |Run(l, inputs[..n]).txqueue| < 128
  }

  lemma Within128Before(l: Link, inputs: seq<Input>)
    requires Within128(l, inputs) && inputs != []
    ensures Within128(l, inputs[..|inputs| - 1]) && |Run(l, inputs).txqueue| < 128
  {
    var before := inputs[..|inputs| - 1];
    forall n | 0 <= n <= |before| ensures before[..n] == inputs[..n] {}
    assert inputs[..|inputs|] == inputs;
  }

  lemma {:induction false} RunConsistent(l: Link, inputs: seq<Input>)
    requires Q921Numbering.Consistent(l) && Within128(l, inputs)
    ensures Q921Numbering.Consistent(Run(l, inputs))
    decreases |inputs|
  {
    hide Handle, Within128, Q921Numbering.Consistent;
    if inputs != [] {
      Within128Before(l, inputs);
      RunConsistent(l, inputs[..|inputs| - 1]);
      HandleConsistent(Run(l, inputs[..|inputs| - 1]), inputs[|inputs| - 1]);
    }
  }

  /** While fewer than 128 frames stay queued, the queue is numbered consecutively
      mod 128 up to V(S) - 1, with V(A) at the head or one before it. */
  lemma AlwaysNumbered(l: Link, inputs: seq<Input>)
    requires Within128(Up(l), inputs)
    ensures Q921Numbering.Consistent(Run(Up(l), inputs))
  {
    Q921Numbering.ZeroNumbers(Up(l));
    RunConsistent(Up(l), inputs);
  }

  lemma QueueGrows(l: Link, data: Octets)
    ensures |Queue(l, data).txqueue| == |l.txqueue| + 1
  {}

  /** K and N200 never change. */
  lemma HandleKeepsK(l: Link, i: Input)
    ensures Handle(l, i).k == l.k && Handle(l, i).n200 == l.n200
  {
    hide HandleIframe, HandleRR, HandleREJ, T200Expire, Queue;
    match i
    case Submit(data) => QueueK(l, data);
    case T200 => T200K(l);
    case T203 =>
    case Arrive(w, replies) =>
      match w
      case Info(ns, nr, pf, data) => IframeK(l, ns, nr, pf, data, replies);
      case RR(nr, pf) => ReadyK(l, nr, pf);
      case REJ(nr, pf) => RejectK(l, nr, pf);
      case _ =>
  }

  lemma QueueK(l: Link, data: Octets)
    ensures Queue(l, data).k == l.k && Queue(l, data).n200 == l.n200
  {}

  lemma T200K(l: Link)
    ensures T200Expire(l).k == l.k && T200Expire(l).n200 == l.n200
  {}

  lemma RejectK(l: Link, nr: Seq7, pf: bool)
    ensures HandleREJ(l, nr, pf).k == l.k && HandleREJ(l, nr, pf).n200 == l.n200
  {
    hide Resend;
  }

  lemma AckRxK(l: Link, ack: Seq7)
    ensures AckRx(l, ack).k == l.k && AckRx(l, ack).n200 == l.n200
  {
    hide AckRange;
    AckRangeWindow(l, l.va, ack);
  }

  lemma ReadyK(l: Link, nr: Seq7, pf: bool)
    ensures HandleRR(l, nr, pf).k == l.k && HandleRR(l, nr, pf).n200 == l.n200
  {
    hide AckRx;
    AckRxK(l.(busy := false), nr);
  }

  lemma IframeK(l: Link, ns: Seq7, nr: Seq7, pf: bool, data: Octets, replies: seq<Octets>)
    ensures var m := HandleIframe(l, ns, nr, pf, data, replies); m.k == l.k && m.n200 == l.n200
  {
    hide AckRx, QueueAll;
    var a := l.(vr := Inc(l.vr), sentrej := false);
    AckRxK(a, nr);
    var m := AckRx(a, nr);
    var n := if pf then SendRR(m, true) else if m.busy then SendRR(m, false) else m;
    QueueAllK(n.(delivered := n.delivered + [data]), replies);
  }

  lemma {:induction false} QueueAllK(l: Link, replies: seq<Octets>)
    ensures QueueAll(l, replies).k == l.k && QueueAll(l, replies).n200 == l.n200
    decreases |replies|
  {
    if replies != [] {
      QueueK(l, replies[0]);
      QueueAllK(Queue(l, replies[0]), replies[1..]);
    }
  }

  lemma {:induction false} RunKeepsK(l: Link, inputs: seq<Input>)
    ensures Run(l, inputs).k == l.k && Run(l, inputs).n200 == l.n200
    decreases |inputs|
  {
    hide Handle;
    if inputs != [] {
      RunKeepsK(l, inputs[..|inputs| - 1]);
      HandleKeepsK(Run(l, inputs[..|inputs| - 1]), inputs[|inputs| - 1]);
    }
  }

  // ------------------------------------------------------------------ rejects

  lemma {:induction false} QueueAllState(l: Link, replies: seq<Octets>)
    ensures var m := QueueAll(l, replies);
            m.state == l.state && m.sentrej == l.sentrej && m.delivered == l.delivered
    decreases |replies|
  {
    if replies != [] {
      QueueAllState(Queue(l, replies[0]), replies[1..]);
    }
  }

  function Rejects(wire: seq<Wire>): nat {
    if wire == [] then 0 else Rejects(wire[..|wire| - 1]) + (if wire[|wire| - 1].REJ? then 1 else 0)
  }

  /** Rejects an established endpoint may still send before it accepts a frame. */
  function Allowance(l: Link): nat {
    if l.state == Established && !l.sentrej then 1 else 0
  }

  lemma {:induction false} RejectsJoin(p: seq<Wire>, q: seq<Wire>)
    ensures Rejects(p + q) == Rejects(p) + Rejects(q)
  {
    if q == [] {
      assert p + q == p;
    } else {
      var n := |q| - 1;
      assert (p + q)[..|p + q| - 1] == p + q[..n];
      RejectsJoin(p, q[..n]);
    }
  }

  lemma AckPacketRejects(l: Link, num: Seq7)
    ensures var m := AckPacket(l, num);
            Rejects(m.wire) == Rejects(l.wire) && m.sentrej == l.sentrej && m.state == l.state
            && m.delivered == l.delivered
  {
    var m := AckPacket(l, num);
    if m.wire != l.wire {
      RejectsJoin(l.wire, [m.wire[|l.wire|]]);
    }
  }

  lemma {:induction false} AckRangeRejects(l: Link, x: Seq7, ack: Seq7)
    ensures var m := AckRange(l, x, ack);
            Rejects(m.wire) == Rejects(l.wire) && m.sentrej == l.sentrej && m.state == l.state
            && m.delivered == l.delivered
    decreases Dist(x, ack)
  {
    if x != ack {
      AckPacketRejects(l, x);
      AckRangeRejects(AckPacket(l, x), Inc(x), ack);
    }
  }

  lemma AckRxRejects(l: Link, ack: Seq7)
    ensures var m := AckRx(l, ack);
            && Rejects(m.wire) == Rejects(l.wire) && m.delivered == l.delivered
            && ((m.state == l.state && m.sentrej == l.sentrej) || m.state == AwaitingEstablish)
  {
    AckRangeRejects(l, l.va, ack);
    RejectsJoin(l.wire, [Sabme]);
  }

  lemma QueueRejects(l: Link, data: Octets)
    ensures Rejects(Queue(l, data).wire) == Rejects(l.wire)
  {
    var m := Queue(l, data);
    if m.wire != l.wire {
      RejectsJoin(l.wire, [m.wire[|l.wire|]]);
    }
  }

  lemma {:induction false} QueueAllRejects(l: Link, replies: seq<Octets>)
    ensures Rejects(QueueAll(l, replies).wire) == Rejects(l.wire)
    decreases |replies|
  {
    if replies != [] {
      QueueRejects(l, replies[0]);
      QueueAllRejects(Queue(l, replies[0]), replies[1..]);
    }
  }

  lemma {:induction false} ResendRejects(q: seq<Frame>, nr: Seq7, vr: Seq7, sendnow: bool)
    ensures Rejects(Resend(q, nr, vr, sendnow).1) == 0
  {
    if q != [] {
      var hit := (sendnow || q[0].ns == nr) && q[0].transmitted;
      var f := q[0].(nr := vr);
      ResendRejects(q[1..], nr, vr, sendnow || hit);
      RejectsJoin(if hit then [OnWire(f)] else [], Resend(q[1..], nr, vr, sendnow || hit).1);
    }
  }

  lemma SendRRRejects(l: Link, pf: bool)
    ensures Rejects(SendRR(l, pf).wire) == Rejects(l.wire)
  {
    RejectsJoin(l.wire, [RR(l.vr, pf)]);
  }

  lemma IframeRejects(l: Link, ns: Seq7, nr: Seq7, pf: bool, data: Octets, replies: seq<Octets>)
    requires l.state == Established
    ensures var m := HandleIframe(l, ns, nr, pf, data, replies);
            Rejects(m.wire) + Allowance(m) + |l.delivered| <= Rejects(l.wire) + Allowance(l) + |m.delivered|
            && |m.delivered| >= |l.delivered|
  {
    hide AckRx, QueueAll, Rejects;
    if ns == l.vr {
      var l1 := l.(vr := Inc(l.vr), sentrej := false);
      AckRxRejects(l1, nr);
      var l2 := AckRx(l1, nr);
      if l2.state == Established {
        SendRRRejects(l2, pf);
        var l3 := if pf then SendRR(l2, true) else if l2.busy then SendRR(l2, false) else l2;
        var l4 := l3.(delivered := l3.delivered + [data]);
        QueueAllRejects(l4, replies);
        QueueAllState(l4, replies);
        SendRRRejects(QueueAll(l4, replies), false);
      }
    } else {
      SendRRRejects(l, true);
      RejectsJoin(l.wire, [REJ(l.vr, pf)]);
      OneReject(REJ(l.vr, pf));
    }
  }

  lemma OneReject(w: Wire)
    ensures Rejects([w]) == if w.REJ? then 1 else 0
  {}

  /** What a handler keeps: a Reject uses up the allowance, and only an accepted
      I-frame gives it back. */
  predicate Thrifty(l: Link, m: Link) {
    && Rejects(m.wire) + Allowance(m) + |l.delivered| <= Rejects(l.wire) + Allowance(l) + |m.delivered|
    && |m.delivered| >= |l.delivered|
  }

  lemma ReadyRejects(l: Link, nr: Seq7, pf: bool)
    requires l.state == Established
    ensures Thrifty(l, HandleRR(l, nr, pf))
  {
    hide AckRx, Rejects;
    AckRxRejects(l.(busy := false), nr);
    SendRRRejects(AckRx(l.(busy := false), nr), true);
  }

  lemma RejectRejects(l: Link, nr: Seq7, pf: bool)
    ensures Thrifty(l, HandleREJ(l, nr, pf))
  {
    hide Resend, Rejects;
    SendRRRejects(l, true);
    ResendRejects(l.txqueue, nr, l.vr, false);
    RejectsJoin((if pf then SendRR(l, true) else l).wire, Resend(l.txqueue, nr, l.vr, false).1);
  }

  lemma T200Rejects(l: Link)
    ensures Thrifty(l, T200Expire(l))
  {
    hide Rejects;
    OneReject(Sabme);
    RejectsJoin(l.wire, [Sabme]);
    if l.txqueue != [] {
      var w := OnWire(l.txqueue[0].(pf := true, nr := l.vr));
      RejectsJoin(l.wire, [w]);
      OneReject(w);
    }
    RejectsJoin(l.wire, [RR(l.vr, true)]);
    OneReject(RR(l.vr, true));
  }

  lemma HandleRejects(l: Link, i: Input)
    ensures Thrifty(l, Handle(l, i))
  {
    hide Rejects, HandleIframe, HandleRR, HandleREJ, T200Expire;
    match i
    case Submit(data) => QueueRejects(l, data);
    case T200 => T200Rejects(l);
    case T203 => SendRRRejects(l, true);
    case Arrive(w, replies) =>
      if l.state == Established {
        SendRRRejects(l, true);
        match w
        case Info(ns, nr, pf, data) => IframeRejects(l, ns, nr, pf, data, replies);
        case RR(nr, pf) => ReadyRejects(l, nr, pf);
        case REJ(nr, pf) => RejectRejects(l, nr, pf);
        case _ =>
      }
  }

  /** Over any run, Rejects are at most one more than the accepted I-frames; and
      none at all while one is outstanding and nothing has been accepted.  So two
      Rejects of one link incarnation always have an accepted I-frame between. */
  lemma {:induction false} RejectsAreSeparated(l: Link, inputs: seq<Input>)
    ensures var m := Run(l, inputs);
            && Rejects(m.wire) - Rejects(l.wire) + Allowance(m) <= |m.delivered| - |l.delivered| + Allowance(l)
            && |m.delivered| >= |l.delivered|
    decreases |inputs|
  {
    if inputs != [] {
      var n := |inputs| - 1;
      RejectsAreSeparated(l, inputs[..n]);
      hide Handle, Rejects;
      HandleRejects(Run(l, inputs[..n]), inputs[n]);
    }
  }

  // ----------------------------------------------------------------- 128 frames

  /** After n frames, each acknowledged before the next. */
  ghost predicate Lapped(m: Link, n: nat) {
    && m.state == Established && m.txqueue == [] && m.vs == n && m.va == (if n == 0 then 0 else (n - 1) % 128)
    && m.windowlen == 0 && m.window >= 1 && m.retrans == 0 && !m.busy
  }

  function Lap(n: nat): seq<Input> { [Submit([]), Arrive(RR((n + 1) % 128, false), [])] }

  function Laps(n: nat): seq<Input> { if n == 0 then [] else Laps(n - 1) + Lap(n - 1) }

  /** One frame is queued and has been sent. */
  ghost predicate Pending(p: Link, n: nat) {
    && p.state == Established && |p.txqueue| == 1 && p.txqueue[0].transmitted && Q921Numbering.Numbered(p, n % 128)
    && p.vs == n + 1 && (n > 0 ==> p.va == (n - 1) % 128)
    && p.windowlen == 1 && p.window >= 1 && p.retrans == 0 && !p.busy
  }

  lemma LapSubmits(m: Link, n: nat, data: Octets)
    requires Lapped(m, n)
    ensures Pending(Queue(m, data), n) && Queue(m, data).txqueue[0].data == data
  {
    var f := Frame(n % 128, m.vr, false, true, true, data);
    assert m.txqueue + [f] == [f];
    NumberedOne(Queue(m, data), f, n);
    hide Q921Numbering.Numbered;
  }

  lemma NumberedOne(p: Link, f: Frame, n: nat)
    requires p.txqueue == [f] && f.ns == n % 128 && p.vs == n + 1 && p.va == (if n == 0 then 0 else (n - 1) % 128)
    ensures Q921Numbering.Numbered(p, n % 128)
  {}

  lemma LapAcks(p: Link, n: nat)
    requires Pending(p, n)
    ensures Lapped(HandleRR(p, (n + 1) % 128, false), n + 1)
  {
    var h: Seq7 := n % 128;
    var a := p.(busy := false);
    LapInWindow(p, n);
    assert Q921Numbering.Numbered(a, h) && a.txqueue[1..] == [];
    Q921Numbering.HeadFound(a, h);
    LapAcked(a, h);
    hide Q921Numbering.Numbered, AckRange, AckPacket, InWindow;
    assert Inc(h) == (n + 1) % 128;
  }

  lemma LapInWindow(p: Link, n: nat)
    requires Pending(p, n)
    ensures InWindow(p.va, p.vs, (n + 1) % 128)
  {}

  lemma OneLap(m: Link, n: nat)
    requires Lapped(m, n)
    ensures Lapped(Handle(Handle(m, Submit([])), Arrive(RR((n + 1) % 128, false), [])), n + 1)
  {
    LapSubmits(m, n, []);
    PendingUp(Queue(m, []), n);
    LapAcks(Queue(m, []), n);
    hide Lapped, Pending, Queue, HandleRR;
  }

  lemma PendingUp(p: Link, n: nat)
    requires Pending(p, n)
    ensures p.state == Established
  {}

  /** The one frame queued is acknowledged. */
  lemma LapAcked(a: Link, h: Seq7)
    requires Q921Numbering.Numbered(a, h) && |a.txqueue| == 1
    requires AckPacket(a, h) == OpenWindow(Q921Numbering.Behind(a, h))
    ensures AckRange(a, a.va, Inc(h)) == Q921Numbering.Behind(a, h)
  {
    var b := Q921Numbering.Behind(a, h);
    Q921Numbering.LagIs(a, h, Inc(h));
    Q921Numbering.HeadNumber(a, h);
    assert OpenWindow(b) == b;
    Q921Numbering.AckRangeEmpty(b, Inc(h));
    Q921Numbering.AckRangeNext(a, h, Inc(h));
    if a.va != h {
      Q921Numbering.AckAbsent(a, h, a.va);
      Q921Numbering.AckRangeNext(a, a.va, Inc(h));
    }
    hide *;
  }

  lemma {:induction false} LapsRun(l: Link, n: nat)
    requires l.k >= 1
    ensures Lapped(Run(Up(l), Laps(n)), n)
  {
    hide *;
    if n == 0 {
      LapsNone(l);
    } else {
      LapsRun(l, n - 1);
      LapsNext(l, n);
      OneLap(Run(Up(l), Laps(n - 1)), n - 1);
    }
  }

  lemma LapsNone(l: Link)
    requires l.k >= 1
    ensures Lapped(Run(Up(l), Laps(0)), 0)
  {}

  lemma LapsNext(l: Link, n: nat)
    requires n > 0
    ensures Run(Up(l), Laps(n)) ==
            Handle(Handle(Run(Up(l), Laps(n - 1)), Submit([])), Arrive(RR(n % 128, false), []))
  {
    var x, y: Input := Submit([]), Arrive(RR(n % 128, false), []);
    assert Laps(n - 1) + [x] + [y] == Laps(n);
    hide *;
    RunOne(Up(l), Laps(n - 1), x);
    RunOne(Up(l), Laps(n - 1) + [x], y);
  }

  /** 128 frames queued and acknowledged one by one, and one more: now the number two
      before the one in the queue, which names a frame long acknowledged, passes the
      window test and takes the frame off. */
  lemma StrayReached(l: Link, data: Octets)
    requires l.k >= 1
    ensures var m := Run(Up(l), Laps(128) + [Submit(data)]);
            && m.state == Established && |m.txqueue| == 1 && m.txqueue[0].data == data
            && Q921Numbering.Numbered(m, 0) && m.vs >= 128 && !Q921Numbering.Legal(m, 0, 126)
            && Handle(m, Arrive(RR(126, false), [])).txqueue == []
  {
    LapsRun(l, 128);
    var p := Run(Up(l), Laps(128));
    LapSubmits(p, 128, data);
    var m := Queue(p, data);
    PassesLate(m);
    RunOne(Up(l), Laps(128), Submit(data));
    HandledAs(p, data, m);
    hide *;
  }

  lemma HandledAs(p: Link, data: Octets, m: Link)
    requires m.state == Established
    ensures Handle(p, Submit(data)) == Queue(p, data)
    ensures Handle(m, Arrive(RR(126, false), [])) == HandleRR(m, 126, false)
  {
    hide Queue, HandleRR;
  }

  lemma PassesLate(m: Link)
    requires Pending(m, 128)
    ensures m.state == Established && |m.txqueue| == 1 && Q921Numbering.Numbered(m, 0) && m.vs >= 128
    ensures !Q921Numbering.Legal(m, 0, 126) && HandleRR(m, 126, false).txqueue == []
  {
    var a := m.(busy := false);
    assert Q921Numbering.Numbered(a, 0) && m.va == 127;
    var stray := Q921Numbering.StrayNumber(a, 0);
    hide AckRx, Q921Numbering.Numbered;
  }
}
