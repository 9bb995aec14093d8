/** What becomes of the order of delivery when one end gives the link up: its layer 3
    goes on queueing, the numbers start from 0 again, and SABME may be lost. */
module Q921GiveUp {
  import opened Q921Link
  import opened Q921Numbering
  import opened Q921System

  /** How many of these frames in a row are the next one expected, from v on. */
  function Expected(ch: seq<Wire>, v: Seq7): nat {
    if ch == [] then 0
    else if ch[0].Info? && ch[0].ns == v then 1 + Expected(ch[1..], Inc(v))
    else Expected(ch[1..], v)
  }

  predicate Collides(v: Seq7, j: nat, reach: nat) { (v + j) % 128 < reach }

  /** Some number that V(R) can still come to is one that a peer counting from 0 again
      can send. */
  ghost predicate Exposed(ch: seq<Wire>, v: Seq7, reach: nat) {
    exists j: nat :: j <= Expected(ch, v) && Collides(v, j, reach)
  }

  // ------------------------------------------------------------- what stays safe

  lemma {:induction false} ExpectedNext(ch: seq<Wire>, v: Seq7)
    ensures Expected(ch, v) <= 1 + Expected(ch, Inc(v))
  {
    if ch != [] {
      if ch[0].Info? && ch[0].ns == Inc(v) {
        ExpectedNext(ch[1..], v);
        ExpectedNext(ch[1..], Inc(v));
      } else if !(ch[0].Info? && ch[0].ns == v) {
        ExpectedNext(ch[1..], v);
      }
    }
  }

  /** A lost frame opens no new way. */
  lemma {:induction false} ExpectedWithout(ch: seq<Wire>, i: nat, v: Seq7)
    requires i < |ch|
    ensures Expected(Without(ch, i), v) <= Expected(ch, v)
  {
    if i == 0 {
      assert Without(ch, 0) == ch[1..];
      ExpectedNext(ch[1..], v);
    } else {
      var rest := Without(ch, i);
      assert rest[0] == ch[0] && rest[1..] == Without(ch[1..], i - 1);
      ExpectedWithout(ch[1..], i - 1, v);
      ExpectedWithout(ch[1..], i - 1, Inc(v));
    }
  }

  lemma ExposedNext(ch: seq<Wire>, v: Seq7, reach: nat)
    requires ch != []
    ensures ch[0].Info? && ch[0].ns == v && Exposed(ch[1..], Inc(v), reach) ==> Exposed(ch, v, reach)
    ensures !(ch[0].Info? && ch[0].ns == v) && Exposed(ch[1..], v, reach) ==> Exposed(ch, v, reach)
  {
    if ch[0].Info? && ch[0].ns == v {
      if j: nat :| j <= Expected(ch[1..], Inc(v)) && Collides(Inc(v), j, reach) {
        assert Collides(v, j + 1, reach);
      }
    }
  }

  lemma ExposedWithout(ch: seq<Wire>, i: nat, v: Seq7, reach: nat)
    requires i < |ch| && Exposed(Without(ch, i), v, reach)
    ensures Exposed(ch, v, reach)
  {
    ExpectedWithout(ch, i, v);
  }

  /** End b has given up, and none of its new numbers can be the one a expects. */
  ghost predicate Guarded(s: System) {
    s.b.state != Established && (s.a.state == Established ==> !Exposed(s.ba, s.a.vr, Reach(s.b)))
  }

  /** What V(R) becomes. */
  lemma ReceiveNumber(l: Link, w: Wire, replies: seq<Octets>)
    requires l.state == Established && Receive(l, w, replies).state == Established
    ensures Receive(l, w, replies).vr == if w.Info? && w.ns == l.vr then Inc(l.vr) else l.vr
  {
    if w.Info? {
      if w.ns == l.vr { AcceptNumber(l, w, replies); } else { UnexpectedFrame(l, w, replies); }
    } else if w.RR? {
      ReadyNumber(l, w.nr, w.pf);
    }
    hide HandleIframe, HandleRR, Resend;
  }

  lemma ReadyNumber(l: Link, nr: Seq7, pf: bool)
    ensures HandleRR(l, nr, pf).state == Established ==> HandleRR(l, nr, pf).vr == l.vr
  {
    AckFrame(l.(busy := false), nr);
    hide AckRx;
  }

  lemma AcceptNumber(l: Link, w: Wire, replies: seq<Octets>)
    requires l.state == Established && w.Info? && w.ns == l.vr
    ensures Receive(l, w, replies).state == Established ==> Receive(l, w, replies).vr == Inc(l.vr)
  {
    AckFrame(l.(vr := Inc(l.vr), sentrej := false), w.nr);
    hide AckRx, QueueAll;
    var l2 := AckRx(l.(vr := Inc(l.vr), sentrej := false), w.nr);
    var l3 := if w.pf then SendRR(l2, true) else if l2.busy then SendRR(l2, false) else l2;
    QueueAllNumber(l3.(delivered := l3.delivered + [w.data]), replies);
  }

  lemma AckFrame(l: Link, ack: Seq7)
    ensures AckRx(l, ack).state == Established ==> AckRx(l, ack).vr == l.vr
  {
    AckRangeFrame(l, l.va, ack);
    hide AckRange, InWindow;
  }

  lemma {:induction false} QueueAllNumber(l: Link, replies: seq<Octets>)
    ensures QueueAll(l, replies).vr == l.vr
    decreases |replies|
  {
    if replies != [] { QueueAllNumber(Queue(l, replies[0]), replies[1..]); }
  }

  lemma OwnNumber(l: Link, data: Octets)
    requires l.state == Established
    ensures Queue(l, data).vr == l.vr && T203Expire(l).vr == l.vr
    ensures T200Expire(l).state == Established ==> T200Expire(l).vr == l.vr
  {}

  lemma SurvivorHears(s: System, replies: seq<Octets>)
    requires Guarded(s) && s.a.state == Established && (s.ba != [] || s.lateBA != [])
    requires Reach(s.b) <= s.a.vr && (s.lateBA != [] ==> Stray(s.lateBA[0], Reach(s.b)))
    ensures Guarded(AtA(s, Arrive(replies))) && !AcceptsLate(s, Arrive(replies))
  {
    var w := Next(s);
    if !w.Sabme? && Receive(s.a, w, replies).state == Established {
      ReceiveNumber(s.a, w, replies);
    }
    if s.ba != [] {
      ExposedNext(s.ba, s.a.vr, Reach(s.b));
    }
    hide Exposed, Receive, InWindow;
  }

  lemma SurvivorStep(s: System, e: Event)
    requires Safe(s) && Guarded(s) && s.a.state == Established
    ensures Guarded(AtA(s, e)) && !AcceptsLate(s, e)
  {
    hide Exposed, T200Expire, T203Expire, Queue, Lives, Begun, InWindow, Receive;
    match e
    case Arrive(replies) =>
      NextCollides(s.ba, s.a.vr, Reach(s.b));
      LateStray(s);
      hide Safe, Stray;
      if s.ba != [] || s.lateBA != [] {
        SurvivorHears(s, replies);
      }
    case Lose(i) =>
      hide Safe;
      if i < |s.ba| && Exposed(Without(s.ba, i), s.a.vr, Reach(s.b)) { ExposedWithout(s.ba, i, s.a.vr, Reach(s.b)); }
    case Submit(data) =>
      OwnNumber(s.a, data);
      hide Safe;
    case _ =>
      OwnNumber(s.a, []);
      hide Safe;
  }

  lemma LateStray(s: System)
    requires Safe(s) && s.b.state != Established
    ensures s.lateBA != [] ==> Stray(s.lateBA[0], Reach(s.b))
  {
    assert s.lateBA != [] ==> s.lateBA[0] in s.lateBA;
  }

  lemma NextCollides(ch: seq<Wire>, v: Seq7, reach: nat)
    ensures v < reach ==> Exposed(ch, v, reach)
  {
    assert v < reach ==> Collides(v, 0, reach);
  }

  lemma GuardedStep(s: System, atA: bool, e: Event)
    requires Safe(s) && Guarded(s)
    ensures Guarded(Step(s, atA, e)) && !StraysAt(s, atA, e)
  {
    hide Exposed;
    if atA {
      if s.a.state == Established {
        SurvivorStep(s, e);
      } else {
        hide Safe;
        DeadStep(s, e);
      }
    } else if s.b.state == AwaitingEstablish {
      AwaitStep(Flip(s), e);
      hide AtA, Safe;
    }
  }

  lemma DeadStep(s: System, e: Event)
    requires Safe(s) && s.a.state != Established
    ensures AtA(s, e).a.state != Established && AtA(s, e).b == s.b && !AcceptsLate(s, e)
  {
    if s.a.state == AwaitingEstablish {
      AwaitStep(s, e);
    }
    hide AtA, Safe;
  }

  lemma {:induction false} GuardedRun(s: System, events: seq<(bool, Event)>)
    requires Safe(s) && Guarded(s) && InOrder(s)
    ensures Safe(Run(s, events)) && Guarded(Run(s, events)) && InOrder(Run(s, events))
    decreases |events|
  {
    if events != [] {
      var n := |events| - 1;
      GuardedRun(s, events[..n]);
      hide Safe, Guarded, InOrder, Step, StraysAt;
      GuardedStep(Run(s, events[..n]), events[n].0, events[n].1);
      StepKeeps(Run(s, events[..n]), events[n].0, events[n].1);
    }
  }

  // ------------------------------------------------------------- what can go wrong

  ghost predicate Reaches(s: System, t: System) { exists events :: Run(s, events) == t }

  lemma {:induction false} RunJoin(s: System, p: seq<(bool, Event)>, q: seq<(bool, Event)>)
    ensures Run(s, p + q) == Run(Run(s, p), q)
    decreases |q|
  {
    hide *;
    if q == [] {
      assert p + q == p;
      RunNone(Run(s, p));
    } else {
      var n := |q| - 1;
      RunJoin(s, p, q[..n]);
      RunOne(s, p + q[..n], q[n]);
      RunOne(Run(s, p), q[..n], q[n]);
      LastOff(p, q);
    }
  }

  lemma LastOff(p: seq<(bool, Event)>, q: seq<(bool, Event)>)
    requires q != []
    ensures var n := |q| - 1; p + q == p + q[..n] + [q[n]] && q == q[..n] + [q[n]]
  {}

  lemma RunNone(s: System)
    ensures Run(s, []) == s
  {}

  lemma Stays(s: System)
    ensures Reaches(s, s)
  {
    assert Run(s, []) == s;
  }

  lemma Onward(s: System, t: System, u: System)
    requires Reaches(s, t) && Reaches(t, u)
    ensures Reaches(s, u)
  {
    var p :| Run(s, p) == t;
    var q :| Run(t, q) == u;
    RunJoin(s, p, q);
    hide Run;
    assert Run(s, p + q) == u;
  }

  lemma StepReaches(s: System, t: System, atA: bool, e: Event)
    requires Reaches(s, t)
    ensures Reaches(s, Step(t, atA, e))
  {
    hide Step;
    RunOne(t, [], (atA, e));
    assert Run(t, []) == t;
    assert Run(t, [] + [(atA, e)]) == Step(t, atA, e);
    Onward(s, t, Step(t, atA, e));
  }

  lemma RunOne(s: System, events: seq<(bool, Event)>, x: (bool, Event))
    ensures Run(s, events + [x]) == Step(Run(s, events), x.0, x.1)
  {
    assert (events + [x])[..|events|] == events;
    hide Step;
  }

  lemma ShadowFacts(u: System, s: System)
    requires Shadows(u, s)
    ensures |s.a.delivered| <= |s.sentB| && Consistent(s.a) && s.a.state == Established
  {}

  lemma AcceptFits(l: Link, w: Wire)
    requires Consistent(l) && w.Info?
    ensures |Receive(l, w, []).txqueue| < 128
  {
    var l1 := l.(vr := Inc(l.vr), sentrej := false);
    SameQueue(l, l1);
    ConsistentSize(l);
    AckRxConsistent(l1, w.nr);
    hide AckRx, Consistent;
  }

  lemma ConsistentSize(l: Link)
    requires Consistent(l)
    ensures |l.txqueue| < 128
  {}

  lemma AdvanceOne(s: System, u: System, e: Event)
    requires s.b.state != Established && Shadows(u, s) && s.ba != []
    requires e == Lose(0) || (e == Arrive([]) && s.ba[0].Info? && s.ba[0].ns == s.a.vr)
    ensures var s' := AtA(s, e);
            && Shadows(AtA(u, e), s') && s'.a.state == Established && s'.ba == s.ba[1..]
            && s'.a.vr == (if e.Arrive? then Inc(s.a.vr) else s.a.vr)
            && s'.b == s.b && s'.lateBA == s.lateBA && s'.sentB == s.sentB && s'.afterB == s.afterB
  {
    ShadowFacts(u, s);
    TimelyStep(u, s, e);
    if e.Arrive? {
      AcceptFits(s.a, s.ba[0]);
      AcceptedStays(u, s);
      ReceiveNumber(s.a, s.ba[0], []);
    } else {
      assert Without(s.ba, 0) == s.ba[1..];
    }
    hide Receive, Inv, Consistent;
  }

  /** Nothing that a living peer sends restarts the link. */
  lemma AcceptedStays(u: System, s: System)
    requires Shadows(u, s) && s.ba != [] && |Receive(s.a, s.ba[0], []).txqueue| < 128
    ensures Receive(s.a, s.ba[0], []).state == Established && !s.ba[0].Sabme?
  {
    NoSabme(u);
    hide Receive, Inv;
    ArriveKeeps(u, []);
  }

  /** What b sent while it held the link comes or gets lost, and V(R) has moved on by j. */
  lemma {:induction false} Advance(s: System, u: System, j: nat) returns (t: System)
    requires Safe(s) && s.a.state == Established && s.b.state != Established
    requires Shadows(u, s) && j <= Expected(s.ba, s.a.vr)
    ensures Reaches(s, t) && Safe(t) && t.ba == [] && t.a.state == Established && t.a.vr == (s.a.vr + j) % 128
    ensures t.b == s.b && t.lateBA == s.lateBA && t.sentB == s.sentB && t.afterB == s.afterB
    ensures |t.a.delivered| <= |s.sentB| && Consistent(t.a)
    decreases |s.ba|
  {
    hide *;
    Stays(s);
    ShadowFacts(u, s);
    if s.ba == [] {
      t := s;
      ExpectedNone(s.a.vr, j);
    } else {
      var hit := j > 0 && s.ba[0].Info? && s.ba[0].ns == s.a.vr;
      var e := if hit then Arrive([]) else Lose(0);
      var s', u' := AtA(s, e), AtA(u, e);
      AdvanceOne(s, u, e);
      AtAKeeps(s, e);
      StepReaches(s, s, true, e);
      AtAStep(s, e);
      ExpectedOne(s.ba, s.a.vr, j);
      t := Advance(s', u', if hit then j - 1 else j);
      Onward(s, s', t);
    }
  }

  lemma AtAStep(s: System, e: Event)
    ensures Step(s, true, e) == AtA(s, e)
  {}

  lemma ExpectedNone(v: Seq7, j: nat)
    requires j <= Expected([], v)
    ensures j == 0 && (v + j) % 128 == v
  {}

  lemma ExpectedOne(ch: seq<Wire>, v: Seq7, j: nat)
    requires ch != [] && j <= Expected(ch, v)
    ensures if j > 0 && ch[0].Info? && ch[0].ns == v
            then j - 1 <= Expected(ch[1..], Inc(v)) && (Inc(v) + (j - 1)) % 128 == (v + j) % 128
            else j <= Expected(ch[1..], v)
  {
    if j > 0 { IncPlus(v, j); }
  }

  lemma IncPlus(v: Seq7, j: nat)
    requires j > 0
    ensures (Inc(v) + (j - 1)) % 128 == (v + j) % 128
  {
    var n := j - 1;
    assert v == 127 ==> v + j == n + 128;
    Round(n);
  }

  lemma Round(n: nat)
    ensures (n + 128) % 128 == n % 128
  {}

  /** All that b has sent since it gave up is lost. */
  lemma {:induction false} LoseLate(s: System)
    requires s.a.state != Released && s.ba == []
    ensures Reaches(s, s.(lateBA := []))
    decreases |s.lateBA|
  {
    Stays(s);
    if s.lateBA != [] {
      var t := s.(lateBA := s.lateBA[1..]);
      assert Without(s.lateBA, 0) == s.lateBA[1..];
      assert Step(s, true, Lose(0)) == t;
      StepReaches(s, s, true, Lose(0));
      LoseLate(t);
      Onward(s, t, s.(lateBA := []));
    }
  }

  /** End b waits for UA and has nothing queued, or this much. */
  ghost predicate Waits(s: System, n: nat) {
    s.b.state == AwaitingEstablish && Begun(s.b) && s.b.wire == [] && |s.b.txqueue| == n
  }

  /** Only b and what it sends have changed. */
  ghost predicate BehindB(s: System, t: System) {
    && t.a == s.a && t.ba == s.ba && t.sentB == s.sentB && s.afterB <= t.afterB
    && t.b.k == s.b.k && t.b.n200 == s.b.n200
  }

  lemma SubmitAtB(s: System, n: nat, data: Octets)
    requires Waits(s, n) && n < 127
    ensures var t := Step(s, false, Submit(data));
            && Waits(t, n + 1) && BehindB(s, t) && t.b.retrans == s.b.retrans && t.afterB == s.afterB + [data]
            && t.lateBA == s.lateBA + (if s.b.retrans == 0 && n < s.b.k then [Info(n, 0, false, data)] else [])
  {
    QueueGoes(s.b, data);
    Rebegun(Queue(s.b, data));
    assert s.b.retrans == 0 ==> (s.b.windowlen < s.b.window <==> n < s.b.k);
    assert s.lateBA + [] == s.lateBA;
  }

  lemma ExpireAtB(s: System, n: nat)
    requires Waits(s, n) && n > 0
    ensures var t := Step(s, false, T200);
            if s.b.retrans + 1 < s.b.n200
            then Waits(t, n) && BehindB(s, t) && t.b.retrans == s.b.retrans + 1
                 && t.lateBA == s.lateBA + [Info(0, 0, true, s.b.txqueue[0].data)]
            else Waits(t, 0) && BehindB(s, t)
  {
    ExpiryGoes(s.b);
    Rebegun(T200Expire(s.b));
    assert s.afterB + [] == s.afterB;
  }

  /** T200 runs out until b drops what it has queued. */
  lemma {:induction false} DropAll(s: System, n: nat) returns (t: System)
    requires Waits(s, n)
    ensures Reaches(s, t) && Waits(t, 0) && BehindB(s, t)
    decreases s.b.n200 - s.b.retrans
  {
    hide Waits, Step, Reaches;
    Stays(s);
    if n == 0 {
      t := s;
      SameB(s);
    } else {
      var s' := Step(s, false, T200);
      ExpireAtB(s, n);
      StepReaches(s, s, false, T200);
      if s.b.retrans + 1 < s.b.n200 {
        t := DropAll(s', n);
        Onward(s, s', t);
      } else {
        t := s';
      }
    }
  }

  lemma SameB(s: System)
    ensures BehindB(s, s)
  {}

  /** b queues n payloads, all within its window. */
  lemma {:induction false} SubmitMany(s: System, n: nat, data: Octets) returns (t: System)
    requires Waits(s, 0) && n < 127
    ensures Reaches(s, t) && Waits(t, n) && BehindB(s, t) && t.b.retrans == 0
    decreases n
  {
    Stays(s);
    if n == 0 {
      t := s;
    } else {
      var r := SubmitMany(s, n - 1, data);
      SubmitAtB(r, n - 1, data);
      hide Waits, Step, Reaches;
      t := Step(r, false, Submit(data));
      StepReaches(s, r, false, Submit(data));
    }
  }

  /** Any number within its reach b can send alone, with any payload. */
  lemma Emit(s: System, c: nat, data: Octets) returns (t: System)
    requires Waits(s, 0) && s.a.state != Released && s.ba == [] && c < Reach(s.b)
    ensures Reaches(s, t) && BehindB(s, t) && t.lateBA != []
    ensures t.lateBA[0].Info? && t.lateBA[0].ns == c && t.lateBA[0].nr == 0 && t.lateBA[0].data == data
  {
    var r := SubmitMany(s, c, data);
    LoseLate(r);
    var q := r.(lateBA := []);
    Onward(s, r, q);
    assert Waits(q, c);
    if s.b.k >= 1 {
      SubmitAtB(q, c, data);
      hide Waits, Step, Reaches;
      t := Step(q, false, Submit(data));
      StepReaches(s, q, false, Submit(data));
    } else {
      SubmitAtB(q, 0, data);
      hide Step, Reaches;
      var q' := Step(q, false, Submit(data));
      StepReaches(s, q, false, Submit(data));
      ExpireAtB(q', 1);
      t := Step(q', false, T200);
      StepReaches(s, q', false, T200);
    }
  }

  /** a queues until 127 frames wait; then its window test passes 0. */
  lemma {:induction false} FillA(s: System) returns (t: System)
    requires s.a.state == Established && Consistent(s.a)
    ensures Reaches(s, t) && t.a.state == Established && Consistent(t.a) && |t.a.txqueue| >= 127
    ensures t.a.vr == s.a.vr && t.a.delivered == s.a.delivered && (s.a.wire == [] ==> t.a.wire == [])
    ensures t.b == s.b && t.ba == s.ba && t.lateBA == s.lateBA && t.sentB == s.sentB && t.afterB == s.afterB
    decreases 127 - |s.a.txqueue|
  {
    Stays(s);
    if |s.a.txqueue| >= 127 {
      t := s;
    } else {
      var r := Step(s, true, Submit([]));
      QueueConsistent(s.a, []);
      assert r.a == Queue(s.a, []).(wire := []) && r.a.state == Established;
      SameQueue(Queue(s.a, []), r.a);
      StepReaches(s, s, true, Submit([]));
      t := FillA(r);
      Onward(s, r, t);
    }
  }

  lemma FullPasses(l: Link)
    requires Consistent(l) && |l.txqueue| >= 127
    ensures InWindow(l.va, l.vs, 0)
  {}

  /** a expects number c, passes every acknowledgement, and lacks a payload of b, which
      has nothing queued. */
  ghost predicate Ripe(s: System, c: nat) {
    && Waits(s, 0) && s.ba == [] && s.a.state == Established && s.a.wire == [] && s.a.vr == c
    && Consistent(s.a) && InWindow(s.a.va, s.a.vs, 0) && |s.a.delivered| < |QueuedB(s)|
  }

  lemma Ripen(s: System, u: System, j: nat) returns (t: System)
    requires Safe(s) && s.a.state == Established && Shadows(u, s) && Waits(s, 0) && j <= Expected(s.ba, s.a.vr)
    ensures Reaches(s, t) && Ripe(t, (s.a.vr + j) % 128) && Reach(t.b) == Reach(s.b)
  {
    hide Safe, Shadows, Expected, Step, Reaches, Begun, Consistent, InWindow;
    assert s.b.state != Established;
    var s1 := Advance(s, u, j);
    SafeWire(s1);
    var s2 := Step(s1, false, Submit([]));
    SubmitAtB(s1, 0, []);
    StepReaches(s, s1, false, Submit([]));
    var s3 := DropAll(s2, 1);
    Onward(s, s2, s3);
    t := Fill(s3);
    Onward(s, s3, t);
  }

  lemma SafeWire(s: System)
    requires Safe(s)
    ensures s.a.wire == []
  {}

  lemma Fill(s: System) returns (t: System)
    requires s.a.state == Established && Consistent(s.a) && s.a.wire == [] && s.ba == []
    ensures Reaches(s, t) && t.a.state == Established && Consistent(t.a) && InWindow(t.a.va, t.a.vs, 0)
    ensures t.a.vr == s.a.vr && t.a.delivered == s.a.delivered && t.a.wire == [] && t.ba == []
    ensures t.b == s.b && t.sentB == s.sentB && t.afterB == s.afterB
  {
    hide Consistent, InWindow, Reaches;
    LoseLate(s);
    t := FillA(s.(lateBA := []));
    Onward(s, s.(lateBA := []), t);
    FullPasses(t.a);
  }

  lemma RipeStrays(s: System, c: nat) returns (t: System)
    requires Ripe(s, c) && c < Reach(s.b)
    ensures Reaches(s, t) && !InOrder(t)
  {
    var n := |s.a.delivered|;
    var stray := QueuedB(s)[n] + [0];
    hide Begun, Step, Reaches, InWindow, Consistent;
    var r := Emit(s, c, stray);
    assert QueuedB(r)[n] == QueuedB(s)[n];
    t := Step(r, true, Arrive([]));
    AtAStep(r, Arrive([]));
    StepReaches(s, r, true, Arrive([]));
    hide AtA;
    Accepted(r, r.lateBA[0]);
    assert t.a.delivered[n] == stray;
  }

  /** An exposed end can be given a payload that is not the next one. */
  lemma StrayPossible(s: System, u: System, j: nat) returns (t: System)
    requires Safe(s) && s.a.state == Established && Shadows(u, s) && Waits(s, 0)
    requires j <= Expected(s.ba, s.a.vr) && Collides(s.a.vr, j, Reach(s.b))
    ensures Reaches(s, t) && !InOrder(t)
  {
    hide Safe, Shadows, Expected, Waits, Ripe, Reaches, Reach, InOrder;
    var r := Ripen(s, u, j);
    t := RipeStrays(r, (s.a.vr + j) % 128);
    Onward(s, r, t);
  }

  // --------------------------------------------------------------- the condition

  /** End b gives up while a holds the link. What a is given remains a prefix of what b
      queues, in every continuation, if and only if V(R) of a cannot come to a number
      that b can send, counting from 0 again: neither V(R) itself, nor what it becomes
      when frames still on their way arrive. */
  lemma SurvivorInOrderIff(s: System, events: seq<(bool, Event)>)
    requires Start(s) && Alive(Run(s, events)) && T200Expire(Run(s, events).b).state != Established
    ensures var t := Run(s, events);
            (forall more :: InOrder(Run(Step(t, false, T200), more)))
              <==> !Exposed(t.ba, t.a.vr, Reach(t.b))
  {
    var t := Run(s, events);
    var v := Step(t, false, T200);
    RunSafe(s, events);
    InOrderWhileUp(s, events);
    var u := GaveUp(t);
    if Exposed(t.ba, t.a.vr, Reach(t.b)) {
      var j: nat :| j <= Expected(t.ba, t.a.vr) && Collides(t.a.vr, j, Reach(t.b));
      var w := StrayPossible(v, u, j);
      var more :| Run(v, more) == w;
      assert !InOrder(Run(v, more));
    } else {
      hide Safe, InOrder, Exposed, Step;
      forall more ensures InOrder(Run(v, more)) {
        GuardedRun(v, more);
      }
    }
  }

  /** The state in which b has just given up. */
  lemma GaveUp(s: System) returns (u: System)
    requires Safe(s) && InOrder(s) && Alive(s) && T200Expire(s.b).state != Established
    ensures var v := Step(s, false, T200);
            && Safe(v) && InOrder(v) && Shadows(u, v) && Waits(v, 0) && v.a == s.a && v.ba == s.ba
            && Reach(v.b) == Reach(s.b)
  {
    var v := Step(s, false, T200);
    StepKeeps(s, false, T200);
    var s' :| Shadows(s', s);
    u := s;
    ExpiryEnds(s.b);
    ExpiryDrops(s.b);
    hide Inv, Begun, T200Expire, Lives;
  }

  lemma ExpiryDrops(l: Link)
    requires T200Expire(l).state != Established && l.state == Established
    ensures T200Expire(l).txqueue == [] && T200Expire(l).k == l.k && T200Expire(l).n200 == l.n200
  {}

  /** Lost twice: end a queues d, which is lost, gives up, and its SABME
      is lost as well; e is then taken for d. */
  lemma StrayTaken(s: System, d: Octets, e: Octets)
    requires Start(s) && s.a.k >= 1 && s.a.n200 == 1 && d != e
    ensures var t := Run(s, [(true, Submit(d)), (false, Lose(0)), (true, T200), (false, Lose(0)),
                             (true, Submit(e)), (false, Arrive([]))]);
            && t.b.state == Established && t.a.state == AwaitingEstablish
            && t.b.delivered == [e] && QueuedB(Flip(t)) == [d, e] && !InOrder(t)
  {
    QueueLost(s, d);
    var s2 := Step(Step(s, true, Submit(d)), false, Lose(0));
    SabmeLost(s2);
    var s4 := Step(Step(s2, true, T200), false, Lose(0));
    hide Step, AtA, Begun, InOrder;
    SubmitAtB(Flip(s4), 0, e);
    StepFlips(s4, true, Submit(e));
    var s5 := Step(s4, true, Submit(e));
    assert s5.lateAB == [Info(0, 0, false, e)] && s5.b == s.b && s5.ab == [];
    FreshConsistent(s5.b);
    Accepted(Flip(s5), Info(0, 0, false, e));
    StepFlips(s5, false, Arrive([]));
    AtAStep(Flip(s5), Arrive([]));
    RunSix(s, (true, Submit(d)), (false, Lose(0)), (true, T200), (false, Lose(0)), (true, Submit(e)),
           (false, Arrive([])));
    OutOfOrder(Step(s5, false, Arrive([])), d, e);
  }

  lemma StepFlips(s: System, atA: bool, e: Event)
    ensures Step(Flip(s), !atA, e) == Flip(Step(s, atA, e))
  {
    hide AtA;
  }

  lemma OutOfOrder(s: System, d: Octets, e: Octets)
    requires s.b.delivered == [e] && QueuedB(Flip(s)) == [d, e] && d != e
    ensures !InOrder(s)
  {
    assert [e][0] == e && [d, e][0] == d;
  }

  lemma FreshConsistent(l: Link)
    requires Fresh(l)
    ensures Consistent(l)
  {
    assert Numbered(l, 0);
  }

  lemma QueueLost(s: System, d: Octets)
    requires Start(s) && s.a.k >= 1
    ensures var t := Step(Step(s, true, Submit(d)), false, Lose(0));
            && t == s.(a := t.a, sentA := [d]) && t.a == Queue(s.a, d).(wire := []) && t.a.txqueue != []
  {
    var f := Frame(0, 0, false, true, true, d);
    assert Step(s, true, Submit(d)).ab == [OnWire(f)];
  }

  lemma SabmeLost(s: System)
    requires s.a.state == Established && s.a.txqueue != [] && s.a.wire == [] && s.a.n200 == 1
    requires s.b.state == Established && s.ab == s.lateAB == [] && s.afterA == []
    ensures var t := Step(Step(s, true, T200), false, Lose(0));
            && t == s.(a := t.a) && Waits(Flip(t), 0) && t.a.k == s.a.k
  {
    ExpiryEnds(s.a);
    ExpiryDrops(s.a);
    hide T200Expire, Begun;
    assert Step(s, true, T200).lateAB == [Sabme];
  }

  lemma Accepted(s: System, w: Wire)
    requires s.a.state == Established && s.a.wire == [] && s.ba == [] && s.lateBA != [] && s.lateBA[0] == w
    requires w.Info? && w.ns == s.a.vr && InWindow(s.a.va, s.a.vs, w.nr) && Consistent(s.a)
    ensures var t := AtA(s, Arrive([]));
            && t.a.state == Established && t.a.delivered == s.a.delivered + [w.data]
            && t.b == s.b && t.sentB == s.sentB && t.afterB == s.afterB
  {
    AcceptFits(s.a, w);
    ExpectedFrame(s.a, w, []);
    hide Receive, InWindow, Consistent;
  }

  lemma RunSix(s: System, a: (bool, Event), b: (bool, Event), c: (bool, Event), d: (bool, Event), e: (bool, Event),
               f: (bool, Event))
    ensures Run(s, [a, b, c, d, e, f]) ==
            Step(Step(Step(Step(Step(Step(s, a.0, a.1), b.0, b.1), c.0, c.1), d.0, d.1), e.0, e.1), f.0, f.1)
  {
    RunThree(s, a, b, c);
    RunThree(Run(s, [a, b, c]), d, e, f);
    hide *;
    RunJoin(s, [a, b, c], [d, e, f]);
    assert [a, b, c] + [d, e, f] == [a, b, c, d, e, f];
  }

  lemma RunThree(s: System, a: (bool, Event), b: (bool, Event), c: (bool, Event))
    ensures Run(s, [a, b, c]) == Step(Step(Step(s, a.0, a.1), b.0, b.1), c.0, c.1)
  {
    RunNone(s);
    hide *;
    RunOne(s, [], a);
    RunOne(s, [a], b);
    RunOne(s, [a, b], c);
    assert [] + [a] == [a] && [a] + [b] == [a, b] && [a, b] + [c] == [a, b, c];
  }
}
