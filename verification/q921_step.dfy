/** What one endpoint keeps within one step, against the list of all payloads it
    was ever asked to send in the current link incarnation. */
module Q921Step {
  import opened Q921Link
  import opened Q921Numbering

  /** True number of the head of the queue: how many payloads have left it. */
  function Head(l: Link, hist: seq<Octets>): nat
    requires |l.txqueue| <= |hist|
  {
    |hist| - |l.txqueue|
  }

  /** The queue is the tail of everything queued so far, numbered accordingly. */
  ghost predicate Carries(l: Link, hist: seq<Octets>) {
    && |l.txqueue| <= |hist|
    && Numbered(l, Head(l, hist) % 128)
    && forall i | 0 <= i < |l.txqueue| :: l.txqueue[i].data == hist[Head(l, hist) + i]
  }

  /** The I-frame `w` carries payload number `k`. */
  ghost predicate CarriesPayload(w: Wire, k: nat, hist: seq<Octets>) {
    w.Info? ==> k < |hist| && w.ns == k % 128 && w.data == hist[k]
  }

  /** `ks` gives the true number of each I-frame of `out`; all are at least `lo`,
      and none is far behind an earlier one. */
  ghost predicate Tagged(out: seq<Wire>, ks: seq<nat>, hist: seq<Octets>, lo: nat) {
    && |ks| == |out|
    && (forall i | 0 <= i < |out| :: CarriesPayload(out[i], ks[i], hist))
    && (forall i | 0 <= i < |out| :: lo <= ks[i] <= |hist|)
    && (forall i, j | 0 <= i < j < |out| && out[j].Info? :: out[i].Info? ==> ks[i] <= ks[j] + 126)
  }

  ghost predicate Sends(l: Link, hist: seq<Octets>, lo: nat) {
    exists ks :: Tagged(l.wire, ks, hist, lo)
  }

  /** Everything sent acknowledges exactly what has been received. */
  ghost predicate Acknowledges(l: Link) {
    forall i | 0 <= i < |l.wire| :: !l.wire[i].Sabme? && l.wire[i].nr == l.vr
  }

  /** The state of an endpoint somewhere inside a step. */
  ghost predicate Sound(l: Link, hist: seq<Octets>, lo: nat) {
    && Carries(l, hist)
    && lo <= Head(l, hist)
    && Sends(l, hist, lo)
    && Acknowledges(l)
  }

  /** Frames marked, renumbered N(R) or polled in place keep the queue sound. */
  lemma Remark(l: Link, m: Link, hist: seq<Octets>, lo: nat)
    requires Sound(l, hist, lo)
    requires SameFrames(l.txqueue, m.txqueue)
    requires m.va == l.va && m.vs == l.vs && m.vr == l.vr && m.wire == l.wire
    ensures Sound(m, hist, lo)
  {}

  /** Sending a queued frame. */
  lemma EmitFrame(l: Link, hist: seq<Octets>, lo: nat, i: nat, w: Wire)
    requires Sound(l, hist, lo)
    requires i < |l.txqueue|
    requires w.Info? && w.ns == l.txqueue[i].ns && w.data == l.txqueue[i].data && w.nr == l.vr
    ensures Sound(Transmit(l, w), hist, lo)
  {
    var ks: seq<nat> :| Tagged(l.wire, ks, hist, lo);
    var k := Head(l, hist) + i;
    CarriedAt(l, hist, i);
    hide Carries, Numbered;
    TaggedMore(l.wire, ks, hist, lo, w, k);
    Resounds(l, hist, lo, w, ks + [k]);
  }

  lemma CarriedAt(l: Link, hist: seq<Octets>, i: nat)
    requires Carries(l, hist) && i < |l.txqueue|
    ensures |l.txqueue| <= |hist| < Head(l, hist) + 128
    ensures l.txqueue[i].ns == (Head(l, hist) + i) % 128 && l.txqueue[i].data == hist[Head(l, hist) + i]
  {
    PlusMod(Head(l, hist), i);
  }

  lemma TaggedMore(out: seq<Wire>, ks: seq<nat>, hist: seq<Octets>, lo: nat, w: Wire, k: nat)
    requires Tagged(out, ks, hist, lo) && CarriesPayload(w, k, hist) && lo <= k <= |hist|
    requires w.Info? ==> |hist| <= k + 126 + 1 && forall i | 0 <= i < |ks| && out[i].Info? :: ks[i] < |hist|
    ensures Tagged(out + [w], ks + [k], hist, lo)
  {}

  lemma Resounds(l: Link, hist: seq<Octets>, lo: nat, w: Wire, ks: seq<nat>)
    requires Sound(l, hist, lo) && Tagged(l.wire + [w], ks, hist, lo) && !w.Sabme? && w.nr == l.vr
    ensures Sound(Transmit(l, w), hist, lo)
  {
    hide Tagged;
    assert Sends(Transmit(l, w), hist, lo);
  }

  /** Sending a supervisory frame. */
  lemma EmitSupervisory(l: Link, hist: seq<Octets>, lo: nat, w: Wire)
    requires Sound(l, hist, lo)
    requires !w.Info? && !w.Sabme? && w.nr == l.vr
    ensures Sound(Transmit(l, w), hist, lo)
  {
    var ks: seq<nat> :| Tagged(l.wire, ks, hist, lo);
    assert Tagged(l.wire + [w], ks + [|hist| as nat], hist, lo);
  }

  lemma OpenWindowSound(l: Link, hist: seq<Octets>, lo: nat)
    requires Sound(l, hist, lo)
    ensures Sound(OpenWindow(l), hist, lo)
  {
    hide Sound;
    var i := FirstUnsent(l.txqueue);
    if i < |l.txqueue| {
      var f := l.txqueue[i].(transmitted := true, aired := true, nr := l.vr);
      var m := l.(txqueue := l.txqueue[i := f], windowlen := l.windowlen + 1);
      Remark(l, m, hist, lo);
      EmitFrame(m, hist, lo, i, OnWire(f));
    }
  }

  /** The head acknowledged. */
  lemma AckHeadSound(l: Link, hist: seq<Octets>, lo: nat)
    requires Sound(l, hist, lo) && l.txqueue != []
    ensures var m := AckPacket(l, Head(l, hist) % 128);
            Sound(m, hist, lo) && Head(m, hist) == Head(l, hist) + 1
  {
    var h := Head(l, hist) % 128;
    SoundNumbered(l, hist, lo);
    hide Sound, OpenWindow, Numbered;
    HeadFound(l, h);
    HeadDropped(l, hist, lo);
    OpenWindowSound(Behind(l, h), hist, lo);
    OpenWindowLength(Behind(l, h));
  }

  lemma SoundNumbered(l: Link, hist: seq<Octets>, lo: nat)
    requires Sound(l, hist, lo)
    ensures |l.txqueue| <= |hist| && Numbered(l, Head(l, hist) % 128)
  {}

  lemma OpenWindowLength(l: Link)
    ensures |OpenWindow(l).txqueue| == |l.txqueue|
  {}

  /** The head leaves the queue. */
  lemma HeadDropped(l: Link, hist: seq<Octets>, lo: nat)
    requires Sound(l, hist, lo) && l.txqueue != []
    requires Numbered(Behind(l, Head(l, hist) % 128), Inc(Head(l, hist) % 128))
    ensures var m := Behind(l, Head(l, hist) % 128);
            |m.txqueue| <= |hist| && Sound(m, hist, lo) && Head(m, hist) == Head(l, hist) + 1
  {
    hide Numbered, Tagged, Plus;
    var m := Behind(l, Head(l, hist) % 128);
    assert Head(m, hist) % 128 == Inc(Head(l, hist) % 128);
    assert Sends(m, hist, lo) by {
      var ks: seq<nat> :| Tagged(l.wire, ks, hist, lo);
      assert Tagged(m.wire, ks, hist, lo);
    }
  }

  lemma {:induction false} AckRangeSound(l: Link, hist: seq<Octets>, lo: nat, x: Seq7, ack: Seq7)
    requires Sound(l, hist, lo)
    requires x == Head(l, hist) % 128 || l.txqueue == []
    ensures Sound(AckRange(l, x, ack), hist, lo)
    decreases Dist(x, ack)
  {
    hide AckPacket, Numbered, Sends, Acknowledges;
    if x == ack {
    } else if l.txqueue == [] {
      AckAbsent(l, Head(l, hist) % 128, x);
      AckRangeSound(l, hist, lo, Inc(x), ack);
    } else {
      AckHeadSound(l, hist, lo);
      AckRangeSound(AckPacket(l, x), hist, lo, Inc(x), ack);
    }
  }

  /** An acknowledgement the peer can legally send never restarts the link, and
      takes nothing off the queue that it does not cover. */
  lemma AckRxSound(l: Link, hist: seq<Octets>, lo: nat, r: nat)
    requires Sound(l, hist, lo)
    requires Head(l, hist) <= r <= |hist|
    ensures var m := AckRx(l, r % 128);
            && Sound(m, hist, lo)
            && Head(m, hist) <= r
            && m.state == l.state && m.vr == l.vr && m.delivered == l.delivered
  {
    CarriesNumbered(l, hist, lo);
    hide *;
    var h: Seq7 := Head(l, hist) % 128;
    var ack: Seq7 := r % 128;
    LegalAck(l, hist, r);
    AckRangeFrame(l, l.va, ack);
    AckFromVA(l, h, ack);
    AckFromVASound(l, hist, lo, ack);
    var m := AckRange(l, l.va, ack);
    SameLength(l.txqueue[Acked(l, h, ack)..], m.txqueue);
    AckRxIs(l, ack);
    Untimed(m, AckRx(l, ack), hist, lo);
    HeadIs(l, hist);
    HeadIs(AckRx(l, ack), hist);
  }

  lemma CarriesNumbered(l: Link, hist: seq<Octets>, lo: nat)
    requires Sound(l, hist, lo)
    ensures |l.txqueue| <= |hist| && Carries(l, hist) && Numbered(l, Head(l, hist) % 128)
    ensures forall ack: Seq7 :: Acked(l, Head(l, hist) % 128, ack) <= |l.txqueue|
  {}

  lemma HeadIs(l: Link, hist: seq<Octets>)
    requires |l.txqueue| <= |hist|
    ensures Head(l, hist) == |hist| - |l.txqueue|
  {}

  lemma AckRxIs(l: Link, ack: Seq7)
    requires InWindow(l.va, l.vs, ack)
    ensures var m := AckRange(l, l.va, ack);
            AckRx(l, ack) == m.(t200 := m.txqueue != [], t203 := m.txqueue == [])
  {}

  /** The timers do not matter. */
  lemma Untimed(l: Link, m: Link, hist: seq<Octets>, lo: nat)
    requires Sound(l, hist, lo) && m == l.(t200 := m.t200, t203 := m.t203)
    ensures Sound(m, hist, lo) && |m.txqueue| <= |hist|
  {}

  lemma LegalAck(l: Link, hist: seq<Octets>, r: nat)
    requires Carries(l, hist)
    requires Head(l, hist) <= r <= |hist|
    ensures InWindow(l.va, l.vs, r % 128)
    ensures Acked(l, Head(l, hist) % 128, r % 128) <= r - Head(l, hist)
  {
    CarriesIs(l, hist);
    hide Carries, Numbered;
    LegalNumber(l, Head(l, hist), r);
  }

  lemma CarriesIs(l: Link, hist: seq<Octets>)
    requires Carries(l, hist)
    ensures |l.txqueue| <= |hist| && Numbered(l, Head(l, hist) % 128)
  {}

  lemma LegalNumber(l: Link, first: nat, r: nat)
    requires Numbered(l, first % 128) && first <= r <= first + |l.txqueue|
    ensures InWindow(l.va, l.vs, r % 128)
    ensures Acked(l, first % 128, r % 128) <= r - first
  {
    NumberedIs(l, first % 128);
    hide Numbered;
    PlusMod(first, r - first);
  }

  lemma PlusMod(first: nat, n: nat)
    requires n < 128
    ensures (first + n) % 128 == Plus(first % 128, n)
  {}

  lemma AckFromVASound(l: Link, hist: seq<Octets>, lo: nat, ack: Seq7)
    requires Sound(l, hist, lo)
    ensures Sound(AckRange(l, l.va, ack), hist, lo)
  {
    var h: Seq7 := Head(l, hist) % 128;
    if Lag(l.va, h) == 0 {
      AckRangeSound(l, hist, lo, l.va, ack);
    } else if l.va != ack {
      AckAbsent(l, h, l.va);
      AckRangeSound(l, hist, lo, Inc(l.va), ack);
    }
  }

  /** A longer history does not disturb what was sent before. */
  lemma LongerHistory(out: seq<Wire>, ks: seq<nat>, hist: seq<Octets>, more: seq<Octets>, lo: nat)
    requires Tagged(out, ks, hist, lo)
    ensures Tagged(out, ks, hist + more, lo)
  {}

  lemma QueueSound(l: Link, hist: seq<Octets>, lo: nat, data: Octets)
    requires Sound(l, hist, lo) && |l.txqueue| < 127
    ensures Sound(Queue(l, data), hist + [data], lo)
    ensures Head(Queue(l, data), hist + [data]) == Head(l, hist)
  {
    var now := l.retrans == 0 && !l.busy && l.windowlen < l.window;
    var f := Frame(l.vs % 128, l.vr, false, now, now, data);
    var m := l.(vs := l.vs + 1, vna := l.vr, txqueue := l.txqueue + [f], t200 := true, t203 := false,
                windowlen := if now then l.windowlen + 1 else l.windowlen);
    Appended(l, hist, lo, m, f);
    hide Sound;
    if now {
      EmitFrame(m, hist + [data], lo, |l.txqueue|, OnWire(f));
    }
  }

  lemma Appended(l: Link, hist: seq<Octets>, lo: nat, m: Link, f: Frame)
    requires Sound(l, hist, lo) && |l.txqueue| < 127
    requires m.txqueue == l.txqueue + [f] && m.vs == l.vs + 1 && m.va == l.va && m.vr == l.vr && m.wire == l.wire
    requires f.ns == l.vs % 128
    ensures |l.txqueue| <= |hist| && Sound(m, hist + [f.data], lo)
  {
    QueueCarries(l, hist, m, f);
    hide Carries;
    var ks: seq<nat> :| Tagged(l.wire, ks, hist, lo);
    LongerHistory(l.wire, ks, hist, [f.data], lo);
  }

  lemma QueueCarries(l: Link, hist: seq<Octets>, m: Link, f: Frame)
    requires Carries(l, hist) && |l.txqueue| < 127
    requires m.txqueue == l.txqueue + [f] && m.vs == l.vs + 1 && m.va == l.va
    requires f.ns == l.vs % 128
    ensures Carries(m, hist + [f.data])
  {
    AppendNumbered(l, Head(l, hist) % 128, m, f);
    hide Numbered;
    forall i | 0 <= i < |m.txqueue| ensures m.txqueue[i].data == (hist + [f.data])[Head(l, hist) + i] {
      if i < |l.txqueue| {
        assert m.txqueue[i] == l.txqueue[i];
      }
    }
  }

  /** Layer 3 may queue any number of payloads while the queue stays below 128. */
  lemma {:induction false} QueueAllSound(l: Link, hist: seq<Octets>, lo: nat, replies: seq<Octets>)
    requires Sound(l, hist, lo) && |l.txqueue| + |replies| < 128
    ensures var m := QueueAll(l, replies);
            && Sound(m, hist + replies, lo)
            && Head(m, hist + replies) == Head(l, hist)
            && m.state == l.state && m.vr == l.vr && m.delivered == l.delivered
    decreases |replies|
  {
    if replies == [] {
      assert hist + replies == hist;
    } else {
      QueueSound(l, hist, lo, replies[0]);
      QueueAllSound(Queue(l, replies[0]), hist + [replies[0]], lo, replies[1..]);
      assert hist + [replies[0]] + replies[1..] == hist + replies;
    }
  }

  lemma SendRRSound(l: Link, hist: seq<Octets>, lo: nat, pf: bool)
    requires Sound(l, hist, lo)
    ensures Sound(SendRR(l, pf), hist, lo) && |l.txqueue| <= |hist|
    ensures var m := SendRR(l, pf);
            m.txqueue == l.txqueue && m.state == l.state && m.vr == l.vr && m.delivered == l.delivered
  {
    Remark(l, l.(vna := l.vr), hist, lo);
    EmitSupervisory(l.(vna := l.vr), hist, lo, RR(l.vr, pf));
  }

  /** A step starts with nothing sent yet. */
  lemma StartSound(l: Link, hist: seq<Octets>)
    requires Carries(l, hist) && l.wire == []
    ensures Sound(l, hist, Head(l, hist))
  {
    assert Tagged(l.wire, [], hist, Head(l, hist));
  }

  /** An in-sequence I-frame whose acknowledgement is legal. */
  lemma AcceptSound(l: Link, hist: seq<Octets>, w: Wire, r: nat, replies: seq<Octets>)
    requires Carries(l, hist) && l.wire == [] && l.state == Established
    requires w.Info? && w.ns == l.vr && w.nr == r % 128
    requires Head(l, hist) <= r <= |hist|
    requires |Receive(l, w, replies).txqueue| < 128
    ensures var m := Receive(l, w, replies);
            && Sound(m, hist + replies, Head(l, hist))
            && Head(m, hist + replies) <= r
            && m.state == Established && m.vr == Inc(l.vr) && m.delivered == l.delivered + [w.data]
  {
    var lo := Head(l, hist);
    var l1 := l.(vr := Inc(l.vr), sentrej := false);
    StartSound(l1, hist);
    hide AckRx, Sound, Carries, QueueAll, SameFrames;
    AckRxSound(l1, hist, lo, r);
    var l2 := AckRx(l1, w.nr);
    SendRRSound(l2, hist, lo, w.pf);
    var l3 := if w.pf then SendRR(l2, true) else if l2.busy then SendRR(l2, false) else l2;
    assert Sound(l3, hist, lo);
    var l4 := l3.(delivered := l3.delivered + [w.data]);
    Delivered(l3, hist, lo, w.data);
    QueueAllGrows(l4, replies);
    QueueAllSound(l4, hist, lo, replies);
    var l5 := QueueAll(l4, replies);
    SendRRSound(l5, hist + replies, lo, false);
  }

  lemma Delivered(l: Link, hist: seq<Octets>, lo: nat, data: Octets)
    requires Sound(l, hist, lo)
    ensures Sound(l.(delivered := l.delivered + [data]), hist, lo)
  {}

  /** A Receive Ready whose acknowledgement is legal. */
  lemma ReadySound(l: Link, hist: seq<Octets>, pf: bool, r: nat)
    requires Carries(l, hist) && l.wire == [] && l.state == Established
    requires Head(l, hist) <= r <= |hist|
    ensures var m := HandleRR(l, r % 128, pf);
            && Sound(m, hist, Head(l, hist))
            && Head(m, hist) <= r
            && m.state == Established && m.vr == l.vr && m.delivered == l.delivered
  {
    var lo := Head(l, hist);
    var l1 := l.(busy := false);
    StartSound(l1, hist);
    hide AckRx, Sound, Carries, SendRR, SameFrames;
    AckRxSound(l1, hist, lo, r);
    var l2 := AckRx(l1, r % 128);
    SendRRSound(l2, hist, lo, true);
    var l3 := if l2.solicitfbit then l2 else SendRR(l2, true);
    Unsolicited(l3, hist, lo);
  }

  lemma Unsolicited(l: Link, hist: seq<Octets>, lo: nat)
    requires Sound(l, hist, lo)
    ensures Sound(l.(solicitfbit := false), hist, lo)
  {}

  /** The resend loop sends only queued frames, in queue order. */
  lemma {:induction false} ResendSound(l: Link, sent: seq<Wire>, hist: seq<Octets>, lo: nat, i: nat, nr: Seq7,
                                       sendnow: bool)
    requires Sound(l.(wire := sent), hist, lo)
    requires i <= |l.txqueue|
    ensures Sound(l.(wire := sent + Resend(l.txqueue[i..], nr, l.vr, sendnow).1), hist, lo)
    decreases |l.txqueue| - i
  {
    hide *;
    var q := l.txqueue[i..];
    ResendUnfolds(q, nr, l.vr, sendnow);
    if q == [] {
      assert sent + [] == sent;
    } else {
      assert q[1..] == l.txqueue[i + 1..];
      var hit := (sendnow || q[0].ns == nr) && q[0].transmitted;
      var out := Resend(q[1..], nr, l.vr, sendnow || hit).1;
      if hit {
        var w := OnWire(q[0].(nr := l.vr));
        EmitAgain(l, sent, hist, lo, i);
        ResendSound(l, sent + [w], hist, lo, i + 1, nr, true);
        assert sent + [w] + out == sent + ([w] + out);
      } else {
        ResendSound(l, sent, hist, lo, i + 1, nr, sendnow);
      }
    }
  }

  lemma EmitAgain(l: Link, sent: seq<Wire>, hist: seq<Octets>, lo: nat, i: nat)
    requires Sound(l.(wire := sent), hist, lo) && i < |l.txqueue|
    ensures Sound(l.(wire := sent + [OnWire(l.txqueue[i].(nr := l.vr))]), hist, lo)
  {
    hide Sound;
    EmitFrame(l.(wire := sent), hist, lo, i, OnWire(l.txqueue[i].(nr := l.vr)));
  }

  lemma ResendUnfolds(q: seq<Frame>, nr: Seq7, vr: Seq7, sendnow: bool)
    ensures q == [] ==> Resend(q, nr, vr, sendnow).1 == []
    ensures q != [] ==>
              var hit := (sendnow || q[0].ns == nr) && q[0].transmitted;
              var out := Resend(q[1..], nr, vr, sendnow || hit).1;
              Resend(q, nr, vr, sendnow).1 == if hit then [OnWire(q[0].(nr := vr))] + out else out
  {}

  /** A Reject.  With an empty queue the peer must have everything, so the
      numbers it resets V(A) and V(S) to are the right ones. */
  lemma RejectSound(l: Link, hist: seq<Octets>, pf: bool, r: nat)
    requires Carries(l, hist) && l.wire == [] && l.state == Established
    requires Head(l, hist) <= r <= |hist|
    ensures var m := HandleREJ(l, r % 128, pf);
            && Sound(m, hist, Head(l, hist))
            && Head(m, hist) == Head(l, hist)
            && m.state == Established && m.vr == l.vr && m.delivered == l.delivered
  {
    var lo := Head(l, hist);
    StartSound(l, hist);
    SendRRSound(l, hist, lo, true);
    SoundNumbered(l, hist, lo);
    var m := if pf then SendRR(l, true) else l;
    var nr: Seq7 := r % 128;
    assert m.txqueue[0..] == m.txqueue;
    hide Resend, Sound, Carries, SameFrames, SendRR, Numbered;
    ResendSound(m, m.wire, hist, lo, 0, nr, false);
    ResendSame(m.txqueue, nr, m.vr, false);
    var (q, out) := Resend(m.txqueue, nr, m.vr, false);
    SameLength(m.txqueue, q);
    if out == [] && q == [] {
      assert m.wire + out == m.wire;
      ResetNumbers(m, hist, lo, nr);
    } else {
      Remark(m.(wire := m.wire + out), m.(txqueue := q, wire := m.wire + out), hist, lo);
    }
  }

  lemma ResetNumbers(l: Link, hist: seq<Octets>, lo: nat, nr: Seq7)
    requires Sound(l, hist, lo) && l.txqueue == [] && nr == |hist| % 128
    ensures Sound(l.(va := nr, vs := nr, t200 := false, t203 := true), hist, lo)
  {}

  /** The head polled again by T200. */
  lemma PollHeadSound(l: Link, hist: seq<Octets>)
    requires Carries(l, hist) && l.wire == [] && l.txqueue != []
    ensures var f := l.txqueue[0].(pf := true, nr := l.vr);
            var m := l.(txqueue := l.txqueue[0 := f], vna := l.vr, solicitfbit := true, retrans := l.retrans + 1);
            && Sound(m, hist, Head(l, hist))
            && Sound(SendHead(m), hist, Head(l, hist))
            && Sound(SendRR(m, true), hist, Head(l, hist))
  {
    var lo := Head(l, hist);
    StartSound(l, hist);
    var f := l.txqueue[0].(pf := true, nr := l.vr);
    var m := l.(txqueue := l.txqueue[0 := f], vna := l.vr, solicitfbit := true, retrans := l.retrans + 1);
    hide Sound, Carries;
    Remark(l, m, hist, lo);
    EmitFrame(m, hist, lo, 0, OnWire(f));
    Remark(Transmit(m, OnWire(f)), SendHead(m), hist, lo);
    SendRRSound(m, hist, lo, true);
  }

  /** T200 expiry, as long as it does not give the link up. */
  lemma T200Sound(l: Link, hist: seq<Octets>)
    requires Carries(l, hist) && l.wire == [] && l.state == Established
    ensures var m := T200Expire(l);
            m.state == Established ==>
              Sound(m, hist, Head(l, hist)) && Head(m, hist) == Head(l, hist)
              && m.vr == l.vr && m.delivered == l.delivered
  {
    StartSound(l, hist);
    SoundNumbered(l, hist, Head(l, hist));
    hide Sound, Carries, Numbered, SendRR;
    if l.txqueue != [] {
      T200HeadSound(l, hist);
    } else {
      T200AskSound(l, hist);
    }
  }

  lemma T200HeadSound(l: Link, hist: seq<Octets>)
    requires Carries(l, hist) && l.wire == [] && l.state == Established && l.txqueue != [] && |l.txqueue| <= |hist|
    ensures var m := T200Expire(l);
            m.state == Established ==>
              Sound(m, hist, Head(l, hist)) && |m.txqueue| == |l.txqueue| && m.vr == l.vr && m.delivered == l.delivered
  {
    hide Sound, Carries;
    var lo := Head(l, hist);
    PollHeadSound(l, hist);
    var f := l.txqueue[0].(pf := true, nr := l.vr);
    var p := l.(txqueue := l.txqueue[0 := f], vna := l.vr, solicitfbit := true, retrans := l.retrans + 1);
    var m := if p.busy then SendRR(p, true) else SendHead(p);
    Untimed(m, m.(t200 := true), hist, lo);
  }

  lemma T200AskSound(l: Link, hist: seq<Octets>)
    requires Carries(l, hist) && l.wire == [] && l.state == Established && l.txqueue == []
    ensures var m := T200Expire(l);
            m.state == Established ==>
              Sound(m, hist, |hist|) && m.txqueue == [] && m.vr == l.vr && m.delivered == l.delivered
  {
    StartSound(l, hist);
    hide Sound, Carries;
    var p := l.(retrans := l.retrans + 1);
    Counted(l, hist, |hist|);
    SendRRSound(p, hist, |hist|, true);
    Untimed(SendRR(p, true), SendRR(p, true).(t200 := true), hist, |hist|);
    Untimed(l, l.(t200 := false), hist, |hist|);
  }

  lemma Counted(l: Link, hist: seq<Octets>, lo: nat)
    requires Sound(l, hist, lo)
    ensures Sound(l.(retrans := l.retrans + 1), hist, lo)
  {}

  /** T203 expiry. */
  lemma T203Sound(l: Link, hist: seq<Octets>)
    requires Carries(l, hist) && l.wire == [] && l.state == Established
    ensures var m := T203Expire(l);
            && Sound(m, hist, Head(l, hist)) && Head(m, hist) == Head(l, hist)
            && m.state == Established && m.vr == l.vr && m.delivered == l.delivered
  {
    StartSound(l, hist);
    Remark(l, l.(solicitfbit := true, retrans := 0), hist, Head(l, hist));
    SendRRSound(l.(solicitfbit := true, retrans := 0), hist, Head(l, hist), true);
  }

  /** An I-frame out of sequence is refused without looking at its acknowledgement. */
  lemma RefuseSound(l: Link, hist: seq<Octets>, w: Wire, replies: seq<Octets>)
    requires Carries(l, hist) && l.wire == [] && l.state == Established
    requires w.Info? && w.ns != l.vr
    ensures var m := Receive(l, w, replies);
            && Sound(m, hist, Head(l, hist)) && Head(m, hist) == Head(l, hist)
            && m.state == Established && m.vr == l.vr && m.delivered == l.delivered
  {
    StartSound(l, hist);
    SendRRSound(l, hist, Head(l, hist), true);
    Remark(l, l.(sentrej := true), hist, Head(l, hist));
    EmitSupervisory(l.(sentrej := true), hist, Head(l, hist), REJ(l.vr, w.pf));
  }

  /** RR, RNR and REJ with a legal N(R). */
  lemma SupervisorySound(l: Link, hist: seq<Octets>, w: Wire, r: nat, replies: seq<Octets>)
    requires Carries(l, hist) && l.wire == [] && l.state == Established
    requires !w.Info? && !w.Sabme? && w.nr == r % 128
    requires Head(l, hist) <= r <= |hist|
    ensures var m := Receive(l, w, replies);
            && Sound(m, hist, Head(l, hist)) && Head(m, hist) <= r
            && m.state == Established && m.vr == l.vr && m.delivered == l.delivered
  {
    hide AckRx, Resend;
    match w
    case RR(nr, pf) => ReadySound(l, hist, pf, r);
    case REJ(nr, pf) => RejectSound(l, hist, pf, r);
    case RNR(nr, pf) =>
      StartSound(l, hist);
      SendRRSound(l, hist, Head(l, hist), pf);
      var m := if pf then SendRR(l, true) else l;
      Remark(m, m.(busy := true), hist, Head(l, hist));
  }

  /** A T200 expiry that gives up sends SABME and delivers nothing. */
  lemma T200GivesUp(l: Link)
    requires l.wire == [] && l.state == Established && T200Expire(l).state != Established
    ensures T200Expire(l).wire == [Sabme] && T200Expire(l).delivered == l.delivered
  {
    if l.txqueue != [] {
      var p := l.(txqueue := l.txqueue[0 := l.txqueue[0].(pf := true, nr := l.vr)], vna := l.vr, solicitfbit := true,
                  retrans := l.retrans + 1);
      assert T200Expire(l) == Restart(p);
    } else {
      assert T200Expire(l) == Restart(l.(retrans := l.retrans + 1));
    }
    hide T200Expire, SendRR, SendHead;
  }
}
