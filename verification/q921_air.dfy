/** What it means that a queued frame is marked as sent: exactly the marked ones, and
    those that have left the queue, have been on the wire since the last reset. */
module Q921Air {
  import opened Q921Link
  import opened Q921Numbering
  import opened Q921Runs
  import opened Q921Window

  /** A payload under the number it was queued with. */
  datatype Item = Item(ns: Seq7, data: Octets)

  function ItemOf(f: Frame): Item { Item(f.ns, f.data) }

  predicate Shows(w: Wire, item: Item) { w.Info? && w.ns == item.ns && w.data == item.data }

  /** `ks` tells for each I-frame of `out` which of the items queued so far it shows. The
      queue is the end of these items; a frame in it is marked if and only if it has
      been shown. */
  ghost predicate Marked(q: seq<Frame>, out: seq<Wire>, hist: seq<Item>, ks: seq<nat>) {
    && |ks| == |out| && |q| <= |hist|
    && (forall i | 0 <= i < |q| :: ItemOf(q[i]) == hist[|hist| - |q| + i])
    && (forall p | 0 <= p < |out| && out[p].Info? :: ks[p] < |hist| && Shows(out[p], hist[ks[p]]))
    && (forall i | 0 <= i < |q| :: MarkTrue(q, out, hist, ks, i))
  }

  ghost predicate MarkTrue(q: seq<Frame>, out: seq<Wire>, hist: seq<Item>, ks: seq<nat>, i: nat)
    requires |ks| == |out| && i < |q| <= |hist|
  {
    q[i].aired <==> ShownIn(out, ks, |hist| - |q| + i)
  }

  ghost predicate ShownIn(out: seq<Wire>, ks: seq<nat>, k: nat)
    requires |ks| == |out|
  {
    exists p :: 0 <= p < |out| && out[p].Info? && ks[p] == k
  }

  ghost predicate Accounted(q: seq<Frame>, out: seq<Wire>, hist: seq<Item>) { exists ks :: Marked(q, out, hist, ks) }

  /** The account of what has been sent from place `since` of the wire on. */
  ghost predicate Air(l: Link, since: nat, hist: seq<Item>) {
    since <= |l.wire| && Accounted(l.txqueue, l.wire[since..], hist)
  }

  // ------------------------------------------------------------- single changes

  lemma ShownMore(out: seq<Wire>, ks: seq<nat>, w: Wire, n: nat, k: nat)
    requires |ks| == |out|
    ensures ShownIn(out + [w], ks + [n], k) <==> ShownIn(out, ks, k) || (w.Info? && n == k)
  {
    if p :| 0 <= p < |out| && out[p].Info? && ks[p] == k {
      assert (out + [w])[p] == out[p] && (ks + [n])[p] == ks[p];
    }
    assert (out + [w])[|out|] == w && (ks + [n])[|out|] == n;
  }

  /** A supervisory frame goes out. */
  lemma Other(q: seq<Frame>, out: seq<Wire>, hist: seq<Item>, w: Wire)
    requires Accounted(q, out, hist) && !w.Info?
    ensures Accounted(q, out + [w], hist)
  {
    var ks :| Marked(q, out, hist, ks);
    forall i | 0 <= i < |q| ensures MarkTrue(q, out + [w], hist, ks + [0], i) {
      assert MarkTrue(q, out, hist, ks, i);
      ShownMore(out, ks, w, 0, |hist| - |q| + i);
    }
    hide MarkTrue;
    assert Marked(q, out + [w], hist, ks + [0]);
  }

  /** Frame i goes out, and is marked. */
  lemma Sending(q: seq<Frame>, out: seq<Wire>, hist: seq<Item>, i: nat, f: Frame, w: Wire)
    requires Accounted(q, out, hist) && i < |q| && ItemOf(f) == ItemOf(q[i]) && f.aired && Shows(w, ItemOf(f))
    ensures Accounted(q[i := f], out + [w], hist)
  {
    var ks :| Marked(q, out, hist, ks);
    var k := |hist| - |q| + i;
    var r := q[i := f];
    forall j | 0 <= j < |r| ensures MarkTrue(r, out + [w], hist, ks + [k], j) {
      assert MarkTrue(q, out, hist, ks, j);
      ShownMore(out, ks, w, k, |hist| - |q| + j);
    }
    hide MarkTrue;
    assert Marked(r, out + [w], hist, ks + [k]);
  }

  /** The same frames, other fields changed. */
  lemma Alike(q: seq<Frame>, r: seq<Frame>, out: seq<Wire>, hist: seq<Item>)
    requires Accounted(q, out, hist) && |r| == |q|
    requires forall i | 0 <= i < |q| :: ItemOf(r[i]) == ItemOf(q[i]) && r[i].aired == q[i].aired
    ensures Accounted(r, out, hist)
  {
    var ks :| Marked(q, out, hist, ks);
    forall j | 0 <= j < |r| ensures MarkTrue(r, out, hist, ks, j) { assert MarkTrue(q, out, hist, ks, j); }
    hide MarkTrue;
    assert Marked(r, out, hist, ks);
  }

  /** The head leaves the queue. */
  lemma Leaving(q: seq<Frame>, out: seq<Wire>, hist: seq<Item>)
    requires Accounted(q, out, hist) && q != []
    ensures Accounted(q[1..], out, hist)
  {
    var ks :| Marked(q, out, hist, ks);
    forall j | 0 <= j < |q[1..]| ensures MarkTrue(q[1..], out, hist, ks, j) {
      assert MarkTrue(q, out, hist, ks, j + 1);
    }
    hide MarkTrue;
    assert Marked(q[1..], out, hist, ks);
  }

  /** A frame is queued. */
  lemma Joining(q: seq<Frame>, out: seq<Wire>, hist: seq<Item>, f: Frame)
    requires Accounted(q, out, hist) && !f.aired
    ensures Accounted(q + [f], out, hist + [ItemOf(f)])
  {
    var ks :| Marked(q, out, hist, ks);
    var more := hist + [ItemOf(f)];
    assert !ShownIn(out, ks, |hist|);
    forall i | 0 <= i < |q + [f]| ensures MarkTrue(q + [f], out, more, ks, i) {
      if i < |q| { assert (q + [f])[i] == q[i] && MarkTrue(q, out, hist, ks, i); }
    }
    hide MarkTrue;
    assert Marked(q + [f], out, more, ks);
  }

  lemma NothingYet()
    ensures Accounted([], [], [])
  {
    assert Marked([], [], [], []);
  }

  // ------------------------------------------------------------- every handler

  lemma AirIs(l: Link, since: nat, hist: seq<Item>)
    requires Air(l, since, hist)
    ensures since <= |l.wire| && Accounted(l.txqueue, l.wire[since..], hist)
  {}

  lemma AirSame(l: Link, m: Link, since: nat, hist: seq<Item>)
    requires Air(l, since, hist) && m.wire == l.wire && m.txqueue == l.txqueue
    ensures Air(m, since, hist)
  {}

  lemma AirOther(l: Link, m: Link, since: nat, hist: seq<Item>, w: Wire)
    requires Air(l, since, hist) && m.wire == l.wire + [w] && !w.Info? && m.txqueue == l.txqueue
    ensures Air(m, since, hist)
  {
    hide Accounted;
    Other(l.txqueue, l.wire[since..], hist, w);
    assert m.wire[since..] == l.wire[since..] + [w];
  }

  lemma AirSends(l: Link, m: Link, since: nat, hist: seq<Item>, i: nat, f: Frame, w: Wire)
    requires Air(l, since, hist) && i < |l.txqueue| && ItemOf(f) == ItemOf(l.txqueue[i]) && f.aired
    requires Shows(w, ItemOf(f)) && m.wire == l.wire + [w] && m.txqueue == l.txqueue[i := f]
    ensures Air(m, since, hist)
  {
    hide Accounted;
    Sending(l.txqueue, l.wire[since..], hist, i, f, w);
    assert m.wire[since..] == l.wire[since..] + [w];
  }

  lemma AirAlike(l: Link, m: Link, since: nat, hist: seq<Item>)
    requires Air(l, since, hist) && m.wire == l.wire && |m.txqueue| == |l.txqueue|
    requires forall i | 0 <= i < |l.txqueue| ::
               ItemOf(m.txqueue[i]) == ItemOf(l.txqueue[i]) && m.txqueue[i].aired == l.txqueue[i].aired
    ensures Air(m, since, hist)
  {
    hide Accounted;
    Alike(l.txqueue, m.txqueue, l.wire[since..], hist);
  }

  lemma OpenWindowAir(l: Link, since: nat, hist: seq<Item>)
    requires Air(l, since, hist)
    ensures Air(OpenWindow(l), since, hist)
  {
    hide Air;
    var i := FirstUnsent(l.txqueue);
    if i < |l.txqueue| {
      var f := l.txqueue[i].(transmitted := true, aired := true, nr := l.vr);
      AirSends(l, OpenWindow(l), since, hist, i, f, OnWire(f));
    }
  }

  lemma AckHeadAir(l: Link, h: Seq7, since: nat, hist: seq<Item>)
    requires Numbered(l, h) && l.txqueue != [] && Air(l, since, hist)
    ensures Air(AckPacket(l, h), since, hist)
  {
    HeadFound(l, h);
    Leaving(l.txqueue, l.wire[since..], hist);
    hide AckPacket, OpenWindow, Numbered, Accounted;
    OpenWindowAir(Behind(l, h), since, hist);
  }

  lemma {:induction false} AckRangeAir(l: Link, h: Seq7, x: Seq7, ack: Seq7, since: nat, hist: seq<Item>)
    requires Numbered(l, h) && (x == h || l.txqueue == []) && Air(l, since, hist)
    ensures Air(AckRange(l, x, ack), since, hist)
    decreases Dist(x, ack)
  {
    hide *;
    if x == ack {
      AckRangeEmpty(l, x);
    } else if l.txqueue == [] {
      AckRangeNext(l, x, ack);
      NextNumbers(x, ack, h, 0);
      AckAbsent(l, h, x);
      AckRangeAir(l, h, Inc(x), ack, since, hist);
    } else {
      AckRangeNext(l, x, ack);
      NextNumbers(x, ack, h, 0);
      AckHead(l, h);
      AckHeadAir(l, h, since, hist);
      AckRangeAir(AckPacket(l, x), Inc(h), Inc(x), ack, since, hist);
    }
  }

  lemma AckRxAir(l: Link, ack: Seq7, since: nat, hist: seq<Item>)
    requires Consistent(l) && Air(l, since, hist) && InWindow(l.va, l.vs, ack)
    ensures Air(AckRx(l, ack), since, hist)
  {
    var h :| Numbered(l, h);
    hide *;
    LagIs(l, h, ack);
    AckRxInWindow(l, ack);
    if l.va == h {
      AckRangeAir(l, h, l.va, ack, since, hist);
    } else if l.va == ack {
      AckRangeEmpty(l, ack);
    } else {
      AckRangeNext(l, l.va, ack);
      AckAbsent(l, h, l.va);
      AckRangeAir(l, h, Inc(l.va), ack, since, hist);
    }
    AirSame(AckRange(l, l.va, ack), AckRx(l, ack), since, hist);
  }

  lemma AckRxInWindow(l: Link, ack: Seq7)
    requires InWindow(l.va, l.vs, ack)
    ensures var m := AckRange(l, l.va, ack); AckRx(l, ack).wire == m.wire && AckRx(l, ack).txqueue == m.txqueue
  {
    hide AckRange;
  }

  /** These payloads, numbered from V(S) on. */
  function Numbers(vs: nat, payloads: seq<Octets>): (r: seq<Item>)
    ensures |r| == |payloads| && forall i | 0 <= i < |r| :: r[i] == Item((vs + i) % 128, payloads[i])
  {
    seq(|payloads|, i requires 0 <= i < |payloads| => Item((vs + i) % 128, payloads[i]))
  }

  lemma QueueAir(l: Link, data: Octets, since: nat, hist: seq<Item>)
    requires Air(l, since, hist)
    ensures Air(Queue(l, data), since, hist + [Item(l.vs % 128, data)])
  {
    var m := Queue(l, data);
    var f := Frame(l.vs % 128, l.vr, false, false, false, data);
    var g := m.txqueue[|l.txqueue|];
    var p := l.(txqueue := l.txqueue + [f]);
    Joining(l.txqueue, l.wire[since..], hist, f);
    assert Air(p, since, hist + [ItemOf(f)]);
    hide Air;
    if m.wire == l.wire {
      AirSame(p, m, since, hist + [ItemOf(f)]);
    } else {
      assert m.txqueue == p.txqueue[|l.txqueue| := g];
      AirSends(p, m, since, hist + [ItemOf(f)], |l.txqueue|, g, OnWire(g));
    }
  }

  lemma {:induction false} QueueAllAir(l: Link, replies: seq<Octets>, since: nat, hist: seq<Item>)
    requires Air(l, since, hist)
    ensures Air(QueueAll(l, replies), since, hist + Numbers(l.vs, replies))
    decreases |replies|
  {
    hide *;
    QueueAllNext(l, replies);
    NumbersNext(l.vs, replies);
    if replies == [] {
      assert hist + [] == hist;
    } else {
      var x := Item(l.vs % 128, replies[0]);
      QueueAir(l, replies[0], since, hist);
      QueueAllAir(Queue(l, replies[0]), replies[1..], since, hist + [x]);
      assert hist + [x] + Numbers(l.vs + 1, replies[1..]) == hist + ([x] + Numbers(l.vs + 1, replies[1..]));
    }
  }

  lemma QueueAllNext(l: Link, replies: seq<Octets>)
    ensures replies == [] ==> QueueAll(l, replies) == l
    ensures replies != [] ==> QueueAll(l, replies) == QueueAll(Queue(l, replies[0]), replies[1..])
                              && Queue(l, replies[0]).vs == l.vs + 1
  {}

  lemma NumbersNext(vs: nat, payloads: seq<Octets>)
    ensures payloads == [] ==> Numbers(vs, payloads) == []
    ensures payloads != [] ==> Numbers(vs, payloads) == [Item(vs % 128, payloads[0])] + Numbers(vs + 1, payloads[1..])
  {}

  lemma AirSendRR(l: Link, pf: bool, since: nat, hist: seq<Item>)
    requires Air(l, since, hist)
    ensures Air(SendRR(l, pf), since, hist)
  {
    hide Air;
    AirOther(l, SendRR(l, pf), since, hist, RR(l.vr, pf));
  }

  lemma RefusedAir(l: Link, ns: Seq7, nr: Seq7, pf: bool, data: Octets, replies: seq<Octets>,
                   since: nat, hist: seq<Item>)
    requires Air(l, since, hist) && ns != l.vr
    ensures Air(HandleIframe(l, ns, nr, pf, data, replies), since, hist)
  {
    hide Air;
    AirOther(l, SendReject(l, pf), since, hist, REJ(l.vr, pf));
    AirSendRR(l, true, since, hist);
  }

  lemma AcceptedAir(l: Link, nr: Seq7, pf: bool, data: Octets, replies: seq<Octets>, since: nat, hist: seq<Item>)
    requires Consistent(l) && Air(l, since, hist) && l.state == Established && InWindow(l.va, l.vs, nr)
    ensures Air(HandleIframe(l, l.vr, nr, pf, data, replies), since, hist + Numbers(l.vs, replies))
  {
    var a := l.(vr := Inc(l.vr), sentrej := false);
    SameQueue(l, a);
    AirSame(l, a, since, hist);
    AckRxAir(a, nr, since, hist);
    AckRangeFrame(a, a.va, nr);
    hide Air, AckRange, QueueAll, Consistent, InWindow;
    var m := AckRx(a, nr);
    assert m.vs == l.vs && m.state == Established;
    hide AckRx;
    AirSendRR(m, true, since, hist);
    AirSendRR(m, false, since, hist);
    var n := if pf then SendRR(m, true) else if m.busy then SendRR(m, false) else m;
    var o := n.(delivered := n.delivered + [data]);
    AirSame(n, o, since, hist);
    QueueAllAir(o, replies, since, hist);
    AirSendRR(QueueAll(o, replies), false, since, hist + Numbers(l.vs, replies));
  }

  lemma ReadyAir(l: Link, nr: Seq7, pf: bool, since: nat, hist: seq<Item>)
    requires Consistent(l) && Air(l, since, hist) && InWindow(l.va, l.vs, nr)
    ensures Air(HandleRR(l, nr, pf), since, hist)
  {
    var a := l.(busy := false);
    SameQueue(l, a);
    AirSame(l, a, since, hist);
    AckRxAir(a, nr, since, hist);
    hide Air, AckRx;
    var m := AckRx(a, nr);
    AirSendRR(m, true, since, hist);
    var n := if m.solicitfbit then m else SendRR(m, true);
    AirSame(n, n.(solicitfbit := false), since, hist);
  }

  ghost predicate ShowsMarked(q: seq<Frame>, w: Wire) {
    exists i :: 0 <= i < |q| && q[i].aired && Shows(w, ItemOf(q[i]))
  }

  /** What the resend loop sends has been sent before. */
  lemma {:induction false} ResentAir(l: Link, out: seq<Wire>, since: nat, hist: seq<Item>)
    requires Air(l, since, hist)
    requires forall w | w in out :: ShowsMarked(l.txqueue, w)
    ensures Air(l.(wire := l.wire + out), since, hist)
    decreases |out|
  {
    hide Air;
    if out == [] {
      assert l.wire + out == l.wire;
    } else {
      var w := out[0];
      assert ShowsMarked(l.txqueue, w);
      var i :| 0 <= i < |l.txqueue| && l.txqueue[i].aired && Shows(w, ItemOf(l.txqueue[i]));
      var m := l.(wire := l.wire + [w]);
      AirSends(l, m, since, hist, i, l.txqueue[i], w);
      ResentAir(m, out[1..], since, hist);
      assert l.wire + [w] + out[1..] == l.wire + out;
    }
  }

  lemma {:induction false} ResendSent(q: seq<Frame>, nr: Seq7, vr: Seq7, sendnow: bool)
    requires forall i | 0 <= i < |q| :: q[i].transmitted ==> q[i].aired
    ensures forall w | w in Resend(q, nr, vr, sendnow).1 :: ShowsMarked(q, w)
  {
    if q != [] {
      var hit := (sendnow || q[0].ns == nr) && q[0].transmitted;
      ResendSent(q[1..], nr, vr, sendnow || hit);
      var out := Resend(q[1..], nr, vr, sendnow || hit).1;
      forall w | w in Resend(q, nr, vr, sendnow).1 ensures ShowsMarked(q, w) {
        if w in out {
          assert ShowsMarked(q[1..], w);
          var j :| 0 <= j < |q[1..]| && q[1..][j].aired && Shows(w, ItemOf(q[1..][j]));
          assert q[j + 1] == q[1..][j];
        } else {
          assert Shows(w, ItemOf(q[0])) && q[0].aired;
        }
      }
    }
  }

  lemma ResendItems(q: seq<Frame>, nr: Seq7, vr: Seq7, sendnow: bool)
    ensures var r := Resend(q, nr, vr, sendnow).0;
            |r| == |q| && forall i | 0 <= i < |q| :: ItemOf(r[i]) == ItemOf(q[i]) && r[i].aired == q[i].aired
  {
    ResendSame(q, nr, vr, sendnow);
    ResendMarks(q, nr, vr, sendnow);
    hide Resend;
  }

  lemma RejectAir(l: Link, nr: Seq7, pf: bool, since: nat, hist: seq<Item>)
    requires Coherent(l.txqueue) && Air(l, since, hist)
    ensures Air(HandleREJ(l, nr, pf), since, hist)
  {
    var m := if pf then SendRR(l, true) else l;
    ResendSent(m.txqueue, nr, m.vr, false);
    hide Air, Resend, Coherent, HandleREJ;
    AirSendRR(l, true, since, hist);
    ResendItems(m.txqueue, nr, m.vr, false);
    var out := Resend(m.txqueue, nr, m.vr, false).1;
    ResentAir(m, out, since, hist);
    RejectIs(l, nr, pf);
    AirAlike(m.(wire := m.wire + out), HandleREJ(l, nr, pf), since, hist);
  }

  lemma RejectIs(l: Link, nr: Seq7, pf: bool)
    ensures var m := if pf then SendRR(l, true) else l;
            var (q, out) := Resend(m.txqueue, nr, m.vr, false);
            HandleREJ(l, nr, pf).wire == m.wire + out && HandleREJ(l, nr, pf).txqueue == q
  {
    var m := if pf then SendRR(l, true) else l;
    ResendItems(m.txqueue, nr, m.vr, false);
    assert m.wire + [] == m.wire;
    hide Resend;
  }

  lemma T200HeadAir(l: Link, since: nat, hist: seq<Item>)
    requires Air(l, since, hist) && l.txqueue != [] && l.retrans + 1 < l.n200
    ensures Air(T200Expire(l), since, hist)
  {
    hide Air;
    var f := l.txqueue[0].(pf := true, nr := l.vr);
    var p := l.(txqueue := l.txqueue[0 := f]);
    AirAlike(l, p, since, hist);
    if l.busy {
      AirOther(p, T200Expire(l), since, hist, RR(l.vr, true));
    } else {
      AirSends(p, T200Expire(l), since, hist, 0, f.(aired := true), OnWire(f));
    }
  }

  lemma T200Air(l: Link, since: nat, hist: seq<Item>)
    requires Air(l, since, hist) && !Restarts(l, T200)
    ensures Air(T200Expire(l), since, hist)
  {
    hide Air;
    if l.txqueue != [] {
      T200HeadAir(l, since, hist);
    } else if l.solicitfbit {
      AirOther(l, T200Expire(l), since, hist, RR(l.vr, true));
    } else {
      AirSame(l, T200Expire(l), since, hist);
    }
  }

  /** What an event makes layer 3 queue, as it is numbered. */
  function NewItems(l: Link, i: Input): seq<Item> {
    match i
    case Submit(data) => [Item(l.vs % 128, data)]
    case Arrive(w, replies) =>
      if l.state == Established && w.Info? && w.ns == l.vr then Numbers(l.vs, replies) else []
    case _ => []
  }

  lemma HandleAir(l: Link, i: Input, since: nat, hist: seq<Item>)
    requires Consistent(l) && Coherent(l.txqueue) && Air(l, since, hist) && !Restarts(l, i)
    ensures Air(Handle(l, i), since, hist + NewItems(l, i))
  {
    assert hist + [] == hist;
    hide Air, Consistent, Coherent, Numbers, Queue, T200Expire, HandleIframe, HandleRR, HandleREJ, InWindow;
    match i
    case Submit(data) => QueueAir(l, data, since, hist);
    case T200 => T200Air(l, since, hist);
    case T203 =>
      if l.state == Established {
        AirOther(l, T203Expire(l), since, hist, RR(l.vr, true));
      } else {
        AirSame(l, T203Expire(l), since, hist);
      }
    case Arrive(w, replies) => if l.state == Established { HearAir(l, w, replies, since, hist); }
  }

  lemma HearAir(l: Link, w: Wire, replies: seq<Octets>, since: nat, hist: seq<Item>)
    requires Consistent(l) && Coherent(l.txqueue) && Air(l, since, hist) && l.state == Established
    requires !Restarts(l, Arrive(w, replies))
    ensures Air(Receive(l, w, replies), since, hist + NewItems(l, Arrive(w, replies)))
  {
    assert hist + [] == hist;
    hide Air, Consistent, Coherent, Numbers, HandleIframe, HandleRR, HandleREJ, InWindow;
    match w
    case Info(ns, nr, pf, data) =>
      if ns == l.vr {
        AcceptedAir(l, nr, pf, data, replies, since, hist);
      } else {
        RefusedAir(l, ns, nr, pf, data, replies, since, hist);
      }
    case RR(nr, pf) => ReadyAir(l, nr, pf, since, hist);
    case RNR(nr, pf) =>
      AirSendRR(l, true, since, hist);
      var m := if pf then SendRR(l, true) else l;
      AirSame(m, m.(busy := true), since, hist);
    case REJ(nr, pf) => RejectAir(l, nr, pf, since, hist);
    case Sabme =>
  }

  // ----------------------------------------------------------------- whole runs

  /** How long the wire was at the last reset of a run. */
  function Since(l: Link, inputs: seq<Input>): nat
    decreases |inputs|
  {
    if inputs == [] then |l.wire| else
    var n := |inputs| - 1;
    var m := Run(l, inputs[..n]);
    if Restarts(m, inputs[n]) then |Handle(m, inputs[n]).wire| else Since(l, inputs[..n])
  }

  /** What layer 3 has queued since then. */
  function QueuedSince(l: Link, inputs: seq<Input>): seq<Item>
    decreases |inputs|
  {
    if inputs == [] then [] else
    var n := |inputs| - 1;
    var m := Run(l, inputs[..n]);
    if Restarts(m, inputs[n]) then [] else QueuedSince(l, inputs[..n]) + NewItems(m, inputs[n])
  }

  lemma RestartAir(l: Link, i: Input)
    requires Restarts(l, i)
    ensures Air(Handle(l, i), |Handle(l, i).wire|, [])
  {
    RestartClears(l, i);
    var m := Handle(l, i);
    assert m.wire[|m.wire|..] == [];
    NothingYet();
    hide Accounted, Handle;
  }

  /** In every state of a run: the queue is the end of what layer 3 has queued since the
      last reset; every I-frame sent since then shows one of these items, which has left
      the queue or is marked; and every frame marked in the queue has been sent. */
  lemma {:induction false} AiredExactly(l: Link, inputs: seq<Input>)
    requires Within128(Up(l), inputs)
    ensures Air(Run(Up(l), inputs), Since(Up(l), inputs), QueuedSince(Up(l), inputs))
    decreases |inputs|
  {
    if inputs == [] {
      NothingYet();
      assert l.wire[|l.wire|..] == [];
    } else {
      var n := |inputs| - 1;
      var m := Run(Up(l), inputs[..n]);
      Within128Before(Up(l), inputs);
      AiredExactly(l, inputs[..n]);
      AlwaysNumbered(Up(l), inputs[..n]);
      UpCoherent(l);
      RunCoherent(Up(l), inputs[..n]);
      hide Air, Within128, Handle, Consistent, Coherent, Restarts, NewItems;
      if Restarts(m, inputs[n]) {
        RestartAir(m, inputs[n]);
      } else {
        HandleAir(m, inputs[n], Since(Up(l), inputs[..n]), QueuedSince(Up(l), inputs[..n]));
      }
    }
  }
}
