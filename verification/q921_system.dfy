/** Two endpoints joined by FIFO channels that may lose frames, from the moment the
    link comes up; when one side gives it up, until the other side hears of it. */
module Q921System {
  import opened Q921Link
  import opened Q921Numbering
  import opened Q921Step
  import Q921Runs

  /** The channel from a to b holds the frames `ab + lateAB`, oldest first: those that
      a sent while it held the link, and those it has sent since it gave it up.
      `sentA` and `afterA` are the payloads its layer 3 has queued in either time. */
  datatype System = System(
    a: Link, b: Link,
    ab: seq<Wire>, ba: seq<Wire>,
    lateAB: seq<Wire>, lateBA: seq<Wire>,
    sentA: seq<Octets>, sentB: seq<Octets>,
    afterA: seq<Octets>, afterB: seq<Octets>)

  /** What can happen at one end.  `Announce` is a Receive Not Ready, which a
      conforming peer may send although q921.c itself never does; `Retry` is the
      timer that repeats SABME. */
  datatype Event =
    | Submit(data: Octets)
    | Arrive(replies: seq<Octets>)
    | Lose(i: nat)
    | T200
    | T203
    | Announce(pf: bool)
    | Retry

  function Flip(s: System): System {
    System(s.b, s.a, s.ba, s.ab, s.lateBA, s.lateAB, s.sentB, s.sentA, s.afterB, s.afterA)
  }

  /** Everything the layer 3 of b has queued. */
  function QueuedB(s: System): seq<Octets> { s.sentB + s.afterB }

  /** End a has become `m`, for which its layer 3 has queued `queued`. */
  function Acts(s: System, m: Link, queued: seq<Octets>): System {
    if m.state == Established then
      s.(a := m.(wire := []), ab := s.ab + m.wire, sentA := s.sentA + queued)
    else
      s.(a := m.(wire := []), lateAB := s.lateAB + m.wire, afterA := s.afterA + queued)
  }

  predicate Alive(s: System) { s.a.state == Established && s.b.state == Established }

  /** The oldest frame on its way to a. */
  function Next(s: System): Wire
    requires s.ba != [] || s.lateBA != []
  {
    if s.ba != [] then s.ba[0] else s.lateBA[0]
  }

  function Without(ch: seq<Wire>, i: nat): seq<Wire>
    requires i < |ch|
  {
    ch[..i] + ch[i + 1..]
  }

  function Taken(s: System): System
    requires s.ba != [] || s.lateBA != []
  {
    if s.ba != [] then s.(ba := s.ba[1..]) else s.(lateBA := s.lateBA[1..])
  }

  /** An event at end a.  Events that would put 128 frames in the queue, or that
      have nothing to act on, do nothing.  An end that has given the link up goes on
      queueing and sending: q921_transmit_iframe does not look at the state.  The
      story ends at an end that SABME reaches: there the source starts afresh. */
  function AtA(s: System, e: Event): System {
    if s.a.state == Released then s else
    match e
    case Submit(data) =>
      if |s.a.txqueue| >= 127 then s else Acts(s, Queue(s.a, data), [data])
    case Arrive(replies) =>
      if s.ba == [] && s.lateBA == [] then s else
      if Next(s).Sabme? then Taken(s).(a := s.a.(state := Released)) else
      var m := Receive(s.a, Next(s), replies);
      if |m.txqueue| >= 128 then s else
      Acts(Taken(s), m, if |m.delivered| > |s.a.delivered| then replies else [])
    case Lose(i) =>
      if i < |s.ba| then s.(ba := Without(s.ba, i))
      else if i - |s.ba| < |s.lateBA| then s.(lateBA := Without(s.lateBA, i - |s.ba|))
      else s
    case T200 => Acts(s, T200Expire(s.a), [])
    case T203 => Acts(s, T203Expire(s.a), [])
    case Announce(pf) => if s.a.state != Established then s else Acts(s, Transmit(s.a, RNR(s.a.vr, pf)), [])
    case Retry => if s.a.state != AwaitingEstablish then s else Acts(s, Transmit(s.a, Sabme), [])
  }

  function Step(s: System, atA: bool, e: Event): System {
    if atA then AtA(s, e) else Flip(AtA(Flip(s), e))
  }

  function Run(s: System, events: seq<(bool, Event)>): System
    decreases |events|
  {
    if events == [] then s
    else var n := |events| - 1;
      Step(Run(s, events[..n]), events[n].0, events[n].1)
  }

  /** An endpoint just after q921_dchannel_up, with nothing sent or delivered. */
  predicate Fresh(l: Link) {
    l == Up(l) && l.wire == [] && l.delivered == []
  }

  predicate Start(s: System) {
    && Fresh(s.a) && Fresh(s.b) && s.ab == s.ba == s.lateAB == s.lateBA == []
    && s.sentA == s.sentB == s.afterA == s.afterB == []
  }

  /** The acknowledgements in flight, by the true numbers `rs` they stand for. */
  ghost predicate Acks(ch: seq<Wire>, rs: seq<nat>, lo: nat, hi: nat) {
    && |rs| == |ch|
    && (forall i | 0 <= i < |ch| :: !ch[i].Sabme? && ch[i].nr == rs[i] % 128)
    && (forall i | 0 <= i < |ch| :: lo <= rs[i] <= hi)
    && (forall i, j | 0 <= i < j < |ch| :: rs[i] <= rs[j])
  }

  /** No I-frame in flight is so old that its number could be taken for `n`. */
  ghost predicate NotStale(ch: seq<Wire>, ks: seq<nat>, n: nat)
    requires |ks| == |ch|
  {
    forall i | 0 <= i < |ch| && ch[i].Info? :: n <= ks[i] + 127
  }

  /** One direction of the link: x sends `hist`, y has delivered a prefix of it. */
  ghost predicate Flow(x: Link, hist: seq<Octets>, y: Link, xy: seq<Wire>, yx: seq<Wire>,
                       ks: seq<nat>, rs: seq<nat>) {
    var n := |y.delivered|;
    && Carries(x, hist) && x.wire == []
    && Head(x, hist) <= n <= |hist|
    && y.delivered == hist[..n]
    && y.vr == n % 128
    && Tagged(xy, ks, hist, 0) && NotStale(xy, ks, n)
    && Acks(yx, rs, Head(x, hist), n)
  }

  ghost predicate FlowExists(x: Link, hist: seq<Octets>, y: Link, xy: seq<Wire>, yx: seq<Wire>) {
    exists ks, rs :: Flow(x, hist, y, xy, yx, ks, rs)
  }

  ghost predicate Inv(s: System) {
    FlowExists(s.a, s.sentA, s.b, s.ab, s.ba) && FlowExists(s.b, s.sentB, s.a, s.ba, s.ab)
  }

  /** A step of the sending end: it may consume acknowledgements from the front of
      the reverse channel, and adds to the forward one. */
  lemma SenderSteps(x: Link, hist: seq<Octets>, y: Link, xy: seq<Wire>, yx: seq<Wire>,
                    ks: seq<nat>, rs: seq<nat>, m: Link, queued: seq<Octets>, eaten: nat)
    requires Flow(x, hist, y, xy, yx, ks, rs)
    requires eaten <= |yx|
    requires Sound(m, hist + queued, Head(x, hist))
    requires Head(m, hist + queued) <= |y.delivered|
    requires forall i | eaten <= i < |rs| :: Head(m, hist + queued) <= rs[i]
    ensures FlowExists(m.(wire := []), hist + queued, y, xy + m.wire, yx[eaten..])
  {
    var hist' := hist + queued;
    var ks': seq<nat> :| Tagged(m.wire, ks', hist', Head(x, hist));
    LongerHistory(xy, ks, hist, queued, 0);
    JoinTagged(xy, ks, hist, m.wire, ks', hist', Head(x, hist));
    assert NotStale(xy + m.wire, ks + ks', |y.delivered|);
    assert y.delivered == hist'[..|y.delivered|];
    assert Carries(m.(wire := []), hist');
    assert Acks(yx[eaten..], rs[eaten..], Head(m, hist'), |y.delivered|);
    assert Flow(m.(wire := []), hist', y, xy + m.wire, yx[eaten..], ks + ks', rs[eaten..]);
  }

  lemma JoinTagged(xy: seq<Wire>, ks: seq<nat>, hist: seq<Octets>,
                   out: seq<Wire>, ks': seq<nat>, hist': seq<Octets>, lo: nat)
    requires Tagged(xy, ks, hist, 0) && Tagged(xy, ks, hist', 0) && Tagged(out, ks', hist', lo)
    requires |hist| <= lo + 127
    ensures Tagged(xy + out, ks + ks', hist', 0)
  {
    var ch, tags := xy + out, ks + ks';
    forall i | 0 <= i < |ch| ensures CarriesPayload(ch[i], tags[i], hist') {
      if i < |xy| { assert ch[i] == xy[i]; } else { assert ch[i] == out[i - |xy|]; }
    }
  }

  /** A step of the receiving end: it may consume the front frame, and deliver it
      when it is the next one. */
  lemma ReceiverSteps(x: Link, hist: seq<Octets>, y: Link, xy: seq<Wire>, yx: seq<Wire>,
                      ks: seq<nat>, rs: seq<nat>, m: Link, eaten: nat)
    requires Flow(x, hist, y, xy, yx, ks, rs)
    requires eaten <= 1 && eaten <= |xy|
    requires Acknowledges(m) && m.vr == |m.delivered| % 128
    requires
      || m.delivered == y.delivered
      || (eaten == 1 && xy[0].Info? && ks[0] == |y.delivered| && m.delivered == y.delivered + [xy[0].data])
    ensures FlowExists(x, hist, m.(wire := []), xy[eaten..], yx + m.wire)
  {
    var n := |m.delivered|;
    var rs' := rs + seq(|m.wire|, _ => n);
    var ch := yx + m.wire;
    if m.delivered != y.delivered {
      assert CarriesPayload(xy[0], ks[0], hist);
    }
    assert m.delivered == hist[..n];
    forall i | 0 <= i < |ch| ensures !ch[i].Sabme? && ch[i].nr == rs'[i] % 128 && Head(x, hist) <= rs'[i] <= n {
      if i < |yx| { assert ch[i] == yx[i]; } else { assert ch[i] == m.wire[i - |yx|]; }
    }
    assert Tagged(xy[eaten..], ks[eaten..], hist, 0);
    assert Flow(x, hist, m.(wire := []), xy[eaten..], ch, ks[eaten..], rs');
  }

  /** Both directions of a step at end a that eats `eaten` frames of `ba`. */
  lemma BothSteps(s: System, ksAB: seq<nat>, rsBA: seq<nat>, ksBA: seq<nat>, rsAB: seq<nat>,
                  m: Link, queued: seq<Octets>, eaten: nat)
    requires Flow(s.a, s.sentA, s.b, s.ab, s.ba, ksAB, rsBA)
    requires Flow(s.b, s.sentB, s.a, s.ba, s.ab, ksBA, rsAB)
    requires eaten <= 1 && eaten <= |s.ba|
    requires Sound(m, s.sentA + queued, Head(s.a, s.sentA))
    requires Head(m, s.sentA + queued) <= if eaten == 1 then rsBA[0] else Head(s.a, s.sentA)
    requires m.vr == |m.delivered| % 128
    requires
      || m.delivered == s.a.delivered
      || (eaten == 1 && s.ba[0].Info? && ksBA[0] == |s.a.delivered|
          && m.delivered == s.a.delivered + [s.ba[0].data])
    requires m.state == Established
    ensures Inv(Acts(s.(ba := s.ba[eaten..]), m, queued))
  {
    SenderSteps(s.a, s.sentA, s.b, s.ab, s.ba, ksAB, rsBA, m, queued, eaten);
    ReceiverSteps(s.b, s.sentB, s.a, s.ba, s.ab, ksBA, rsAB, m, eaten);
  }

  /** The number of a frame in flight tells whether it is the next one expected:
      128 numbers are enough to tell old, current and early frames apart. */
  lemma NextOrNot(x: Link, hist: seq<Octets>, y: Link, xy: seq<Wire>, yx: seq<Wire>,
                  ks: seq<nat>, rs: seq<nat>)
    requires Flow(x, hist, y, xy, yx, ks, rs)
    requires xy != [] && xy[0].Info?
    ensures xy[0].ns == y.vr <==> ks[0] == |y.delivered|
  {
    FrontNumbers(x, hist, y, xy, yx, ks, rs);
    CloseNumbers(ks[0], |y.delivered|);
    hide *;
  }

  lemma FrontNumbers(x: Link, hist: seq<Octets>, y: Link, xy: seq<Wire>, yx: seq<Wire>,
                     ks: seq<nat>, rs: seq<nat>)
    requires Flow(x, hist, y, xy, yx, ks, rs)
    requires xy != [] && xy[0].Info?
    ensures |ks| == |xy| && xy[0].ns == ks[0] % 128 && y.vr == |y.delivered| % 128
    ensures |y.delivered| <= ks[0] + 127 && ks[0] <= |y.delivered| + 127
  {
    assert CarriesPayload(xy[0], ks[0], hist);
    assert |x.txqueue| < 128;
    hide Numbered;
  }

  lemma CloseNumbers(k: nat, n: nat)
    requires n <= k + 127 && k <= n + 127
    ensures k % 128 == n % 128 <==> k == n
  {}

  /** What a frame arriving at the sending end says about the other one. */
  lemma FrontAck(x: Link, hist: seq<Octets>, y: Link, xy: seq<Wire>, yx: seq<Wire>,
                 ks: seq<nat>, rs: seq<nat>)
    requires Flow(x, hist, y, xy, yx, ks, rs) && yx != []
    ensures Carries(x, hist) && x.wire == []
    ensures !yx[0].Sabme? && yx[0].nr == rs[0] % 128
    ensures Head(x, hist) <= rs[0] <= |hist|
    ensures |rs| == |yx|
  {}

  lemma ReceiverVars(x: Link, hist: seq<Octets>, y: Link, xy: seq<Wire>, yx: seq<Wire>,
                  ks: seq<nat>, rs: seq<nat>)
    requires Flow(x, hist, y, xy, yx, ks, rs)
    ensures y.vr == |y.delivered| % 128 && |ks| == |xy|
  {}

  /** The frame is the next I-frame: its payload is delivered. */
  lemma ArriveNext(s: System, ksAB: seq<nat>, rsBA: seq<nat>, ksBA: seq<nat>, rsAB: seq<nat>,
                   replies: seq<Octets>)
    requires Alive(s) && s.ba != [] && s.ba[0].Info? && s.ba[0].ns == s.a.vr
    requires Flow(s.a, s.sentA, s.b, s.ab, s.ba, ksAB, rsBA)
    requires Flow(s.b, s.sentB, s.a, s.ba, s.ab, ksBA, rsAB)
    requires |Receive(s.a, s.ba[0], replies).txqueue| < 128
    ensures Inv(AtA(s, Arrive(replies))) && Receive(s.a, s.ba[0], replies).state == Established
  {
    hide Flow, Receive, Sound, Inv, Carries;
    FrontAck(s.a, s.sentA, s.b, s.ab, s.ba, ksAB, rsBA);
    ReceiverVars(s.b, s.sentB, s.a, s.ba, s.ab, ksBA, rsAB);
    NextOrNot(s.b, s.sentB, s.a, s.ba, s.ab, ksBA, rsAB);
    AcceptSound(s.a, s.sentA, s.ba[0], rsBA[0], replies);
    BothSteps(s, ksAB, rsBA, ksBA, rsAB, Receive(s.a, s.ba[0], replies), replies, 1);
  }

  /** Any other frame: nothing is delivered. */
  lemma ArriveOther(s: System, ksAB: seq<nat>, rsBA: seq<nat>, ksBA: seq<nat>, rsAB: seq<nat>,
                    replies: seq<Octets>)
    requires Alive(s) && s.ba != [] && !(s.ba[0].Info? && s.ba[0].ns == s.a.vr)
    requires Flow(s.a, s.sentA, s.b, s.ab, s.ba, ksAB, rsBA)
    requires Flow(s.b, s.sentB, s.a, s.ba, s.ab, ksBA, rsAB)
    requires |Receive(s.a, s.ba[0], replies).txqueue| < 128
    ensures Inv(AtA(s, Arrive(replies))) && Receive(s.a, s.ba[0], replies).state == Established
  {
    hide Flow, Receive, Sound, Inv, Carries;
    var w := s.ba[0];
    FrontAck(s.a, s.sentA, s.b, s.ab, s.ba, ksAB, rsBA);
    ReceiverVars(s.b, s.sentB, s.a, s.ba, s.ab, ksBA, rsAB);
    assert s.sentA + [] == s.sentA;
    if w.Info? {
      RefuseSound(s.a, s.sentA, w, replies);
    } else {
      SupervisorySound(s.a, s.sentA, w, rsBA[0], replies);
    }
    BothSteps(s, ksAB, rsBA, ksBA, rsAB, Receive(s.a, w, replies), [], 1);
  }

  lemma ArriveKeeps(s: System, replies: seq<Octets>)
    requires Inv(s) && Alive(s) && s.ba != []
    requires |Receive(s.a, s.ba[0], replies).txqueue| < 128
    ensures Inv(AtA(s, Arrive(replies))) && Alive(AtA(s, Arrive(replies)))
  {
    var ksAB, rsBA :| Flow(s.a, s.sentA, s.b, s.ab, s.ba, ksAB, rsBA);
    var ksBA, rsAB :| Flow(s.b, s.sentB, s.a, s.ba, s.ab, ksBA, rsAB);
    hide Receive, Flow, Inv;
    if s.ba[0].Info? && s.ba[0].ns == s.a.vr {
      ArriveNext(s, ksAB, rsBA, ksBA, rsAB, replies);
    } else {
      ArriveOther(s, ksAB, rsBA, ksBA, rsAB, replies);
    }
  }

  /** A frame lost costs nothing in the direction it carries payloads ... */
  lemma LoseForward(x: Link, hist: seq<Octets>, y: Link, xy: seq<Wire>, yx: seq<Wire>,
                    ks: seq<nat>, rs: seq<nat>, i: nat)
    requires Flow(x, hist, y, xy, yx, ks, rs) && i < |xy|
    ensures FlowExists(x, hist, y, xy[..i] + xy[i + 1..], yx)
  {
    var ch, tags := xy[..i] + xy[i + 1..], ks[..i] + ks[i + 1..];
    assert forall j | 0 <= j < |ch| :: ch[j] == xy[if j < i then j else j + 1];
    assert forall j | 0 <= j < |ch| :: tags[j] == ks[if j < i then j else j + 1];
    assert Tagged(ch, tags, hist, 0);
    assert Flow(x, hist, y, ch, yx, tags, rs);
  }

  /** ... nor in the direction it acknowledges them. */
  lemma LoseBackward(x: Link, hist: seq<Octets>, y: Link, xy: seq<Wire>, yx: seq<Wire>,
                     ks: seq<nat>, rs: seq<nat>, i: nat)
    requires Flow(x, hist, y, xy, yx, ks, rs) && i < |yx|
    ensures FlowExists(x, hist, y, xy, yx[..i] + yx[i + 1..])
  {
    var ch, tags := yx[..i] + yx[i + 1..], rs[..i] + rs[i + 1..];
    assert forall j | 0 <= j < |ch| :: ch[j] == yx[if j < i then j else j + 1];
    assert forall j | 0 <= j < |ch| :: tags[j] == rs[if j < i then j else j + 1];
    assert Acks(ch, tags, Head(x, hist), |y.delivered|);
    assert Flow(x, hist, y, xy, ch, ks, tags);
  }

  lemma LoseKeeps(s: System, i: nat)
    requires Inv(s) && Alive(s) && i < |s.ba|
    ensures Inv(AtA(s, Lose(i)))
  {
    if Alive(s) {
      var ksAB, rsBA :| Flow(s.a, s.sentA, s.b, s.ab, s.ba, ksAB, rsBA);
      var ksBA, rsAB :| Flow(s.b, s.sentB, s.a, s.ba, s.ab, ksBA, rsAB);
      hide Flow;
      LoseBackward(s.a, s.sentA, s.b, s.ab, s.ba, ksAB, rsBA, i);
      LoseForward(s.b, s.sentB, s.a, s.ba, s.ab, ksBA, rsAB, i);
    }
  }

  /** Steps of end a that consume nothing. */
  lemma OwnStepKeeps(s: System, m: Link, queued: seq<Octets>)
    requires Inv(s)
    requires Sound(m, s.sentA + queued, Head(s.a, s.sentA))
    requires Head(m, s.sentA + queued) == Head(s.a, s.sentA)
    requires m.delivered == s.a.delivered && m.vr == s.a.vr
    requires m.state == Established
    ensures Inv(Acts(s, m, queued))
  {
    var ksAB, rsBA :| Flow(s.a, s.sentA, s.b, s.ab, s.ba, ksAB, rsBA);
    var ksBA, rsAB :| Flow(s.b, s.sentB, s.a, s.ba, s.ab, ksBA, rsAB);
    assert s.ba[0..] == s.ba;
    BothSteps(s, ksAB, rsBA, ksBA, rsAB, m, queued, 0);
  }

  /** Payloads handed to layer 3 are a prefix of those the peer queued. */
  predicate InOrder(s: System) {
    s.a.delivered <= QueuedB(s) && s.b.delivered <= QueuedB(Flip(s))
  }

  // --------------------------------------------------- an end that has given up

  /** How many numbers an end can send while it waits for UA: no acknowledgement is
      taken, so the first K at most; with no window at all T200 sends the head. */
  function Reach(l: Link): nat {
    if l.k >= 1 then (if l.k < 127 then l.k else 127) else if l.n200 >= 2 then 1 else 0
  }

  /** It counts from 0 again, and has heard nothing. */
  ghost predicate Begun(l: Link) {
    && l.va == 0 && l.vr == 0 && l.vs == |l.txqueue| <= 127 && !l.busy && l.window == l.k
    && (forall i | 0 <= i < |l.txqueue| :: l.txqueue[i].ns == i && l.txqueue[i].nr == 0)
    && (l.txqueue == [] ==> !l.solicitfbit && l.retrans == 0)
    && (l.retrans == 0 ==> l.windowlen == if |l.txqueue| <= l.k then |l.txqueue| else if l.k >= 0 then l.k else 0)
  }

  /** A frame that such an end sends. */
  predicate Stray(w: Wire, reach: nat) { w.Sabme? || (w.Info? && w.nr == 0 && w.ns < reach) }

  ghost predicate Anew(s: System) {
    && s.a.wire == [] && (s.a.state == AwaitingEstablish ==> Begun(s.a))
    && (s.a.state != Established ==> forall w | w in s.lateAB :: Stray(w, Reach(s.a)))
    && (s.a.state == Established ==> s.lateAB == [] && s.afterA == [])
  }

  /** As far as a living end a can tell, s is t, in which both ends live: end b is
      still the same, or it has given up, and what it sent before is on its way. */
  ghost predicate Shadows(t: System, s: System) {
    && BothUp(t)
    && t.a == s.a && t.ba == s.ba && t.sentA == s.sentA && t.sentB == s.sentB && t.b.delivered == s.b.delivered
    && (s.b.state == Established ==> t == s)
  }

  /** End b has given up, and all it sent before is gone. */
  predicate Stranded(s: System) { s.b.state != Established && s.ba == [] }

  ghost predicate Lives(s: System) {
    s.a.state == Established ==> Stranded(s) || exists t :: Shadows(t, s)
  }

  /** What holds in every run: for each living end the invariant of a system it could
      be part of, until it has only frames of a peer that counts from 0 again. */
  ghost predicate Safe(s: System) { Anew(s) && Anew(Flip(s)) && Lives(s) && Lives(Flip(s)) }

  /** Both ends live, and nothing has been sent by one that does not. */
  ghost predicate BothUp(s: System) {
    Inv(s) && Alive(s) && s.lateAB == s.lateBA == [] && s.afterA == s.afterB == []
  }

  /** One end has acted; the other is what it was. */
  predicate OneActs(s: System, t: System) {
    t.b == s.b && t.sentB == s.sentB && t.lateBA == [] && t.afterB == []
  }

  /** An event at an end while both live. */
  lemma AliveStep(s: System, e: Event)
    requires BothUp(s)
    ensures var t := AtA(s, e);
            && OneActs(s, t) && (Alive(t) ==> BothUp(t))
            && (!Alive(t) ==> e.T200? && t == Acts(s, T200Expire(s.a), []) && T200Expire(s.a).wire == [Sabme]
                              && t.a.delivered == s.a.delivered)
  {
    hide Inv, Receive, T200Expire, Queue, T203Expire;
    match e
    case Submit(data) => AliveSubmits(s, data);
    case Arrive(replies) =>
      NoSabme(s);
      if s.ba != [] && |Receive(s.a, s.ba[0], replies).txqueue| < 128 {
        ArriveKeeps(s, replies);
      }
    case Lose(i) => if i < |s.ba| { LoseKeeps(s, i); }
    case T200 => AliveExpires(s);
    case T203 => AliveIdles(s);
    case Announce(pf) => AliveAnnounces(s, pf);
    case Retry =>
  }

  lemma AliveSubmits(s: System, data: Octets)
    requires BothUp(s)
    ensures BothUp(AtA(s, Submit(data)))
  {
    if |s.a.txqueue| < 127 {
      InvStarts(s);
      hide Inv, Sound, Carries;
      QueueSound(s.a, s.sentA, Head(s.a, s.sentA), data);
      QueueEnds(s.a, data);
      hide Queue;
      OwnStepKeeps(s, Queue(s.a, data), [data]);
    }
  }

  lemma AliveExpires(s: System)
    requires BothUp(s)
    ensures var m := T200Expire(s.a);
            if m.state == Established then BothUp(AtA(s, T200))
            else m.wire == [Sabme] && m.delivered == s.a.delivered
  {
    InvStarts(s);
    assert s.sentA + [] == s.sentA;
    hide Inv, Sound, Carries, T200Expire;
    T200Sound(s.a, s.sentA);
    if T200Expire(s.a).state == Established {
      OwnStepKeeps(s, T200Expire(s.a), []);
    } else {
      T200GivesUp(s.a);
    }
  }

  lemma AliveIdles(s: System)
    requires BothUp(s)
    ensures BothUp(AtA(s, T203))
  {
    InvStarts(s);
    assert s.sentA + [] == s.sentA;
    hide Inv, Sound, Carries, T203Expire;
    T203Sound(s.a, s.sentA);
    OwnStepKeeps(s, T203Expire(s.a), []);
  }

  lemma AliveAnnounces(s: System, pf: bool)
    requires BothUp(s)
    ensures BothUp(AtA(s, Announce(pf)))
  {
    InvStarts(s);
    assert s.sentA + [] == s.sentA;
    hide Inv, Sound, Carries;
    EmitSupervisory(s.a, s.sentA, Head(s.a, s.sentA), RNR(s.a.vr, pf));
    OwnStepKeeps(s, Transmit(s.a, RNR(s.a.vr, pf)), []);
  }

  lemma InvStarts(s: System)
    requires Inv(s)
    ensures |s.a.txqueue| <= |s.sentA| && Carries(s.a, s.sentA) && s.a.wire == []
    ensures Sound(s.a, s.sentA, Head(s.a, s.sentA))
  {
    StartSound(s.a, s.sentA);
  }

  lemma NoSabme(s: System)
    requires Inv(s)
    ensures s.ba != [] ==> !s.ba[0].Sabme?
  {
    var ksAB, rsBA :| Flow(s.a, s.sentA, s.b, s.ab, s.ba, ksAB, rsBA);
  }

  // ------------------------------------------------------ steps after giving up

  /** What a handler does to an end that has given up. */
  ghost predicate Goes(l: Link, m: Link) {
    && Begun(m) && m.state == l.state && m.k == l.k && m.n200 == l.n200 && m.delivered == l.delivered
    && (m.wire == l.wire || exists w :: Stray(w, Reach(l)) && m.wire == l.wire + [w])
  }

  lemma RestartBegins(l: Link)
    ensures Begun(Restart(l)) && Restart(l).state == AwaitingEstablish
  {}

  lemma QueueGoes(l: Link, data: Octets)
    requires Begun(l) && |l.txqueue| < 127
    ensures Goes(l, Queue(l, data))
  {
    var f := Queue(l, data).txqueue[|l.txqueue|];
    assert Queue(l, data).wire == if f.transmitted then l.wire + [OnWire(f)] else l.wire;
  }

  lemma ExpiryGoes(l: Link)
    requires Begun(l) && l.state == AwaitingEstablish
    ensures Goes(l, T200Expire(l))
  {
    if l.txqueue != [] {
      var f := l.txqueue[0].(pf := true, nr := 0);
      assert T200Expire(l).wire == l.wire + [if l.retrans + 1 < l.n200 then OnWire(f) else Sabme];
      assert Stray(OnWire(f), if Reach(l) == 0 then 1 else Reach(l));
    }
  }

  lemma OthersGo(l: Link)
    requires Begun(l)
    ensures Goes(l, l.(t203 := false)) && Goes(l, Transmit(l, Sabme))
  {
    assert Stray(Sabme, Reach(l));
  }

  /** End a stays apart, and end b is not touched. */
  ghost predicate Apart(s: System, t: System) {
    && Anew(t) && t.a.state != Established && Reach(t.a) == Reach(s.a)
    && t.b == s.b && t.ab == s.ab && t.sentA == s.sentA && t.sentB == s.sentB && t.afterB == s.afterB
    && s.afterA <= t.afterA && t.a.delivered == s.a.delivered
  }

  lemma AwaitActs(s: System, m: Link, queued: seq<Octets>)
    requires Anew(s) && s.a.state == AwaitingEstablish && Goes(s.a, m)
    ensures var t := Acts(s, m, queued);
            Apart(s, t)
  {
    hide Stray;
    assert Begun(m.(wire := []));
    hide Begun;
  }

  /** An end that has given up keeps to numbers from 0 on, and takes no notice of what
      the other end has sent it. */
  lemma AwaitStep(s: System, e: Event)
    requires Anew(s) && s.a.state == AwaitingEstablish
    ensures var t := AtA(s, e);
            Apart(s, t)
  {
    OthersGo(s.a);
    hide Begun, Queue, T200Expire, Stray, Acts, Goes, Apart, Receive;
    match e
    case Submit(data) => if |s.a.txqueue| < 127 { QueueGoes(s.a, data); AwaitActs(s, Queue(s.a, data), [data]); }
    case T200 => ExpiryGoes(s.a); AwaitActs(s, T200Expire(s.a), []);
    case T203 => AwaitActs(s, T203Expire(s.a), []);
    case Retry => AwaitActs(s, Transmit(s.a, Sabme), []);
    case Arrive(replies) =>
      AwaitHears(s, replies);
      AwaitSame(s, AtA(s, e));
    case _ => AwaitSame(s, AtA(s, e));
  }

  lemma AwaitSame(s: System, t: System)
    requires Anew(s) && s.a.state == AwaitingEstablish
    requires t == s.(ba := t.ba, lateBA := t.lateBA, a := t.a) && (t.a == s.a || t.a == s.a.(state := Released))
    ensures Apart(s, t)
  {}

  lemma AwaitHears(s: System, replies: seq<Octets>)
    requires Anew(s) && s.a.state == AwaitingEstablish && |s.a.txqueue| < 128
    ensures var t := AtA(s, Arrive(replies));
            t == s || t == Taken(s).(a := s.a.(state := Released)) || t == Taken(s)
  {
    if s.ba != [] || s.lateBA != [] {
      assert Acts(Taken(s), s.a, []) == Taken(s) by {
        assert Taken(s).lateAB + [] == Taken(s).lateAB && Taken(s).afterA + [] == Taken(s).afterA;
      }
    }
    hide Begun, Stray;
  }

  // ------------------------------------------------------------- every step

  /** End a of s does what it does in t. */
  ghost predicate Follows(s: System, s': System, t': System) {
    && s'.a == t'.a && s'.ba == t'.ba && s'.sentA == t'.sentA && s'.sentB == s.sentB && s'.b == s.b
    && (s.b.state == Established ==> s' == t')
  }

  /** What arrives, if anything, was sent while b held the link. */
  predicate Timely(s: System, e: Event) { e.Arrive? ==> s.ba != [] || s.lateBA == [] }

  lemma ShadowActs(t: System, s: System, e: Event)
    requires Shadows(t, s) && Timely(s, e)
    ensures Follows(s, AtA(s, e), AtA(t, e))
  {
    hide Inv, T200Expire, Queue, T203Expire, Receive;
  }

  /** A living end acts: as far as it can tell, both still live, or it gives up. */
  lemma TimelyStep(t: System, s: System, e: Event)
    requires Shadows(t, s) && Timely(s, e)
    ensures var s', t' := AtA(s, e), AtA(t, e);
            && s'.b == s.b && s'.sentB == s.sentB && s'.afterB == s.afterB && s'.a == t'.a && s'.ba == t'.ba
            && s'.a.delivered <= s'.sentB
            && (s'.a.state == Established ==> Shadows(t', s'))
            && (s'.a.state != Established ==>
                  e.T200? && s' == Acts(s, T200Expire(s.a), []) && T200Expire(s.a).wire == [Sabme]
                  && s'.a.delivered == s.a.delivered)
  {
    AliveStep(t, e);
    ShadowActs(t, s, e);
    InvDelivers(t);
    InvDelivers(AtA(t, e));
    hide Inv, T200Expire, AtA;
  }

  lemma InvDelivers(s: System)
    ensures Inv(s) ==> s.a.delivered <= s.sentB && s.b.delivered <= s.sentA
  {}

  /** A frame sent by a peer that has given up reaches a living end a. */
  predicate Late(s: System, e: Event) { e.Arrive? && s.ba == [] && s.lateBA != [] }

  /** An I-frame with the expected number: it is accepted, or restarts the link. */
  lemma ExpectedFrame(l: Link, w: Wire, replies: seq<Octets>)
    requires l.state == Established && l.wire == [] && w.Info? && w.ns == l.vr
    ensures var m := Receive(l, w, replies);
            if InWindow(l.va, l.vs, w.nr)
            then m.state == Established && m.delivered == l.delivered + [w.data]
            else m.state == AwaitingEstablish && m.delivered == l.delivered && m.wire == [Sabme] && Begun(m)
  {
    var l1 := l.(vr := Inc(l.vr), sentrej := false);
    RestartBegins(l1);
    AckRangeFrame(l1, l1.va, w.nr);
    hide AckRange, QueueAll, Begun, InWindow;
    if InWindow(l.va, l.vs, w.nr) {
      var l2 := AckRx(l1, w.nr);
      var l3 := if w.pf then SendRR(l2, true) else if l2.busy then SendRR(l2, false) else l2;
      Q921Runs.QueueAllState(l3.(delivered := l3.delivered + [w.data]), replies);
    }
  }

  lemma UnexpectedFrame(l: Link, w: Wire, replies: seq<Octets>)
    requires l.state == Established && w.Info? && w.ns != l.vr
    ensures var m := Receive(l, w, replies);
            m.state == Established && m.delivered == l.delivered && m.vr == l.vr && m.txqueue == l.txqueue
  {}

  /** Such a frame is accepted, by its number. */
  predicate AcceptsLate(s: System, e: Event) {
    && Late(s, e) && s.a.state == Established
    && s.lateBA[0].Info? && s.lateBA[0].ns == s.a.vr && InWindow(s.a.va, s.a.vs, s.lateBA[0].nr)
    && |Receive(s.a, s.lateBA[0], e.replies).txqueue| < 128
  }

  /** What a step of end a does to it: it stays as it was up, gives up, or ends. */
  ghost predicate Ends(s: System, s': System) {
    && s'.b == s.b && s'.sentB == s.sentB && s'.afterB == s.afterB && s'.a.wire == []
    && (forall w | w in s'.lateBA :: w in s.lateBA)
    && (if s'.a.state == Established then s'.lateAB == s.lateAB && s'.afterA == s.afterA
        else
          && s'.ab == s.ab && s'.sentA == s.sentA && s'.afterA == s.afterA && s'.a.delivered == s.a.delivered
          && (if s'.a.state == Released then s'.lateAB == s.lateAB
              else Begun(s'.a) && s'.lateAB == s.lateAB + [Sabme]))
  }

  lemma LateStep(s: System, e: Event)
    requires Anew(Flip(s)) && s.a.state == Established && s.a.wire == [] && Late(s, e)
    ensures var s' := AtA(s, e);
            && Ends(s, s') && s'.ba == []
            && s'.a.delivered == s.a.delivered + if AcceptsLate(s, e) then [s.lateBA[0].data] else []
  {
    var w := s.lateBA[0];
    LateFrame(s);
    assert s.a.delivered + [] == s.a.delivered;
    hide Anew, Receive, Begun, InWindow;
    if w.Info? {
      var m := Receive(s.a, w, e.replies);
      if w.ns == s.a.vr { ExpectedFrame(s.a, w, e.replies); } else { UnexpectedFrame(s.a, w, e.replies); }
      if m.state != Established { Rebegun(m); }
      if |m.txqueue| < 128 {
        hide AtA;
        ActsEnds(s, m, if |m.delivered| > |s.a.delivered| then e.replies else []);
        AtAHears(s, e.replies);
      }
    }
  }

  lemma AtAHears(s: System, replies: seq<Octets>)
    requires s.a.state == Established && s.ba == [] && s.lateBA != [] && !s.lateBA[0].Sabme?
    ensures var m := Receive(s.a, s.lateBA[0], replies);
            |m.txqueue| < 128 ==>
              AtA(s, Arrive(replies)) == Acts(s.(lateBA := s.lateBA[1..]), m,
                                              if |m.delivered| > |s.a.delivered| then replies else [])
  {
    hide Receive;
  }

  lemma LateFrame(s: System)
    requires Anew(Flip(s)) && s.lateBA != []
    ensures s.b.state != Established && (s.lateBA[0].Info? || s.lateBA[0].Sabme?)
  {
    assert s.lateBA[0] in s.lateBA;
  }

  lemma ActsEnds(s: System, m: Link, queued: seq<Octets>)
    requires s.a.state == Established && s.lateBA != []
    requires m.state == Established
             || (m.state == AwaitingEstablish && m.wire == [Sabme] && Begun(m.(wire := [])) && queued == []
                 && m.delivered == s.a.delivered)
    ensures Ends(s, Acts(s.(lateBA := s.lateBA[1..]), m, queued))
  {
    hide Begun;
    assert queued == [] ==> s.afterA + queued == s.afterA;
  }

  lemma Rebegun(l: Link)
    requires Begun(l)
    ensures Begun(l.(wire := []))
  {}

  /** Everything else that can happen to a living end. */
  lemma TimelyEnds(s: System, e: Event)
    requires s.a.state == Established && s.a.wire == [] && Timely(s, e)
    requires e.Arrive? ==> AtA(s, e).a.state == Established
    ensures Ends(s, AtA(s, e)) && (s.ba == [] ==> AtA(s, e).ba == [] && AtA(s, e).a.delivered == s.a.delivered)
  {
    hide Receive, T200Expire, Queue, Begun, Without;
    match e
    case T200 => ExpiryEnds(s.a);
    case Submit(data) => QueueEnds(s.a, data);
    case Lose(i) => if |s.ba| <= i < |s.ba| + |s.lateBA| { WithoutHas(s.lateBA, i - |s.ba|); }
    case Arrive(replies) => TimelyArrives(s, replies);
    case _ =>
  }

  lemma TimelyArrives(s: System, replies: seq<Octets>)
    requires s.a.state == Established && s.a.wire == [] && Timely(s, Arrive(replies))
    requires AtA(s, Arrive(replies)).a.state == Established
    ensures var s' := AtA(s, Arrive(replies));
            Ends(s, s') && (s.ba == [] ==> s'.ba == [] && s'.a.delivered == s.a.delivered)
  {
    hide Receive, Begun;
  }

  lemma WithoutHas(ch: seq<Wire>, i: nat)
    requires i < |ch|
    ensures forall w | w in Without(ch, i) :: w in ch
  {}

  lemma QueueEnds(l: Link, data: Octets)
    ensures Queue(l, data).state == l.state && Queue(l, data).delivered == l.delivered
  {}

  lemma ExpiryEnds(l: Link)
    requires l.state == Established && l.wire == []
    ensures var m := T200Expire(l);
            && m.delivered == l.delivered
            && (m.state == Established || (m.state == AwaitingEstablish && Begun(m.(wire := [])) && m.wire == [Sabme]))
  {
    if l.txqueue != [] {
      var f := l.txqueue[0].(pf := true, nr := l.vr);
      GivesUp(l.(txqueue := l.txqueue[0 := f], vna := l.vr, solicitfbit := true, retrans := l.retrans + 1));
    } else {
      GivesUp(l.(retrans := l.retrans + 1));
    }
    hide Restart, Begun;
  }

  lemma GivesUp(l: Link)
    requires l.wire == []
    ensures var m := Restart(l);
            m.state == AwaitingEstablish && Begun(m.(wire := [])) && m.wire == [Sabme] && m.delivered == l.delivered
  {}

  lemma EndsAnew(s: System, s': System)
    requires Anew(s) && Anew(Flip(s)) && s.a.state == Established && Ends(s, s')
    ensures Anew(s') && Anew(Flip(s'))
  {
    hide Begun;
    assert s.lateAB == [];
    assert s.b.state == Established ==> s'.lateBA == [] by {
      if s'.lateBA != [] { assert s'.lateBA[0] in s.lateBA; }
    }
  }

  /** The other end, if it lives, still sees what it saw. */
  lemma OtherLives(s: System, s': System)
    requires Safe(s) && s.a.state == Established && Ends(s, s')
    requires Alive(s') ==> BothUp(s')
    ensures Lives(Flip(s'))
  {
    if s.b.state == Established {
      var t :| Shadows(t, s);
      FlipKeeps(s);
      FlipKeeps(s');
      hide Inv, Begun;
      if s'.a.state == Established {
        assert Shadows(Flip(s'), Flip(s'));
      } else {
        assert Shadows(Flip(s), Flip(s'));
      }
    }
  }

  lemma FlipKeeps(s: System)
    ensures Flip(Flip(s)) == s && (Inv(s) <==> Inv(Flip(s))) && (Safe(s) <==> Safe(Flip(s)))
  {
    hide FlowExists, Lives, Anew;
  }

  /** A living end acts. */
  lemma LivingKeeps(s: System, e: Event)
    requires Safe(s) && s.a.state == Established
    ensures Safe(AtA(s, e)) && Ends(s, AtA(s, e))
    ensures AtA(s, e).a.delivered == s.a.delivered + (if AcceptsLate(s, e) then [s.lateBA[0].data] else [])
            || (!Late(s, e) && AtA(s, e).a.delivered <= s.sentB)
  {
    var s' := AtA(s, e);
    assert s.a.wire == [] && Anew(s) && Anew(Flip(s)) && Lives(s);
    hide Safe, Anew, AtA, AcceptsLate, Inv, Ends;
    if Late(s, e) {
      LateStep(s, e);
      LateStrands(s);
      EndsStranded(s, s');
    } else if Stranded(s) {
      TimelyEnds(s, e);
      assert s.a.delivered + [] == s.a.delivered;
      EndsStranded(s, s');
    } else {
      var t :| Shadows(t, s);
      TimelyStep(t, s, e);
      TimelyEnds(s, e);
      EndsLives(s, s', AtA(t, e));
    }
    EndsAnew(s, s');
    OtherLives(s, s');
    SafeIs(s');
  }

  lemma SafeIs(s: System)
    requires Anew(s) && Anew(Flip(s)) && Lives(s) && Lives(Flip(s))
    ensures Safe(s)
  {}

  lemma LateStrands(s: System)
    requires Anew(Flip(s)) && s.lateBA != []
    ensures s.b.state != Established
  {}

  lemma EndsStranded(s: System, s': System)
    requires Ends(s, s') && s.b.state != Established && s'.ba == []
    ensures Lives(s') && !Alive(s')
  {}

  lemma EndsLives(s: System, s': System, t': System)
    requires Ends(s, s') && (s'.a.state == Established ==> Shadows(t', s'))
    ensures Lives(s') && (Alive(s') ==> BothUp(s'))
  {}

  /** The payload is the one that a waits for. */
  predicate Awaited(s: System, data: Octets) {
    |s.a.delivered| < |QueuedB(s)| && QueuedB(s)[|s.a.delivered|] == data
  }

  /** A frame that b has sent since it gave up arrives, SABME having been lost, is taken
      for the next one by its number, and is not. */
  predicate Strays(s: System, e: Event) { AcceptsLate(s, e) && !Awaited(s, s.lateBA[0].data) }

  lemma AtAKeeps(s: System, e: Event)
    requires Safe(s)
    ensures Safe(AtA(s, e))
    ensures InOrder(s) ==> (InOrder(AtA(s, e)) <==> !Strays(s, e))
  {
    var s' := AtA(s, e);
    assert s.a.delivered + [] == s.a.delivered;
    assert Anew(s);
    hide Safe, Anew, AtA, InOrder, Strays, Late;
    if s.a.state == Established {
      QueuedGrows(s, e);
      LivingKeeps(s, e);
      SameB(s, s');
      LateOnly(s, e);
      OrderKept(s, s', e);
    } else if s.a.state == AwaitingEstablish {
      AwaitKeeps(s, e);
      OrderKept(s, s', e);
    } else {
      Over(s, e);
      OrderKept(s, s', e);
    }
  }

  lemma Over(s: System, e: Event)
    requires s.a.state == Released
    ensures AtA(s, e) == s
  {}

  lemma SameB(s: System, s': System)
    requires Ends(s, s')
    ensures s'.b == s.b && s'.sentB == s.sentB && s'.afterB == s.afterB
  {}

  lemma LateOnly(s: System, e: Event)
    ensures AcceptsLate(s, e) ==> Late(s, e)
  {}

  /** Whether the order is kept depends on what has been delivered. */
  lemma OrderKept(s: System, s': System, e: Event)
    requires s'.b == s.b && s'.sentB == s.sentB && s'.afterB == s.afterB && QueuedB(Flip(s)) <= QueuedB(Flip(s'))
    requires s'.a.delivered == s.a.delivered + (if AcceptsLate(s, e) then [s.lateBA[0].data] else [])
             || (!AcceptsLate(s, e) && s'.a.delivered <= s.sentB)
    ensures InOrder(s) ==> (InOrder(s') <==> !Strays(s, e))
  {
    var d := s'.a.delivered;
    assert AcceptsLate(s, e) ==> d[|d| - 1] == s.lateBA[0].data;
    hide AcceptsLate;
  }

  lemma QueuedGrows(s: System, e: Event)
    requires Anew(s) && s.a.state == Established
    ensures QueuedB(Flip(s)) <= QueuedB(Flip(AtA(s, e)))
  {
    hide Receive, T200Expire, Queue, Without;
  }

  lemma AwaitKeeps(s: System, e: Event)
    requires Safe(s) && s.a.state == AwaitingEstablish
    ensures var s' := AtA(s, e);
            && Safe(s') && s'.b == s.b && s'.sentB == s.sentB && s'.afterB == s.afterB
            && s'.a.delivered == s.a.delivered && QueuedB(Flip(s)) <= QueuedB(Flip(s'))
  {
    AwaitStep(s, e);
    FewerLate(s, e);
    var s' := AtA(s, e);
    hide AtA, Begun, Inv;
    if s.b.state == Established {
      if Stranded(Flip(s)) {
        assert Stranded(Flip(s'));
      } else {
        var u :| Shadows(u, Flip(s));
        assert Shadows(u, Flip(s'));
      }
    }
  }

  lemma FewerLate(s: System, e: Event)
    ensures forall w | w in AtA(s, e).lateBA :: w in s.lateBA
    ensures s.lateBA == [] ==> AtA(s, e).lateBA == []
  {
    hide Receive, T200Expire, Queue;
  }

  lemma StartSafe(s: System)
    requires Start(s)
    ensures Safe(s) && InOrder(s)
  {
    assert Flow(s.a, s.sentA, s.b, s.ab, s.ba, [], []);
    assert Flow(s.b, s.sentB, s.a, s.ba, s.ab, [], []);
    FlipKeeps(s);
    assert Shadows(s, s) && Shadows(Flip(s), Flip(s));
  }

  predicate StraysAt(s: System, atA: bool, e: Event) { Strays(if atA then s else Flip(s), e) }

  lemma StepKeeps(s: System, atA: bool, e: Event)
    requires Safe(s)
    ensures Safe(Step(s, atA, e))
    ensures InOrder(s) ==> (InOrder(Step(s, atA, e)) <==> !StraysAt(s, atA, e))
  {
    FlipKeeps(s);
    hide Safe, AtA, Strays;
    if atA {
      AtAKeeps(s, e);
    } else {
      AtAKeeps(Flip(s), e);
      FlipKeeps(AtA(Flip(s), e));
    }
  }

  lemma {:induction false} RunSafe(s: System, events: seq<(bool, Event)>)
    requires Start(s)
    ensures Safe(Run(s, events))
    decreases |events|
  {
    if events == [] {
      StartSafe(s);
    } else {
      var n := |events| - 1;
      RunSafe(s, events[..n]);
      hide Safe, Step;
      StepKeeps(Run(s, events[..n]), events[n].0, events[n].1);
    }
  }

  /** In every state of the run, what either layer 3 has been given is a prefix of what
      the other one queued: nothing lost, repeated or out of order. */
  ghost predicate AlwaysInOrder(s: System, events: seq<(bool, Event)>) {
    forall n | 0 <= n <= |events| :: InOrder(Run(s, events[..n]))
  }

  ghost predicate NeverStrays(s: System, events: seq<(bool, Event)>) {
    forall n | 0 <= n < |events| :: StraysNot(s, events, n)
  }

  predicate StraysNot(s: System, events: seq<(bool, Event)>, n: nat)
    requires n < |events|
  {
    !StraysAt(Run(s, events[..n]), events[n].0, events[n].1)
  }

  /** The service of the link holds through a run if and only if no frame strays. */
  lemma {:induction false} InOrderDelivery(s: System, events: seq<(bool, Event)>)
    requires Start(s)
    ensures AlwaysInOrder(s, events) <==> NeverStrays(s, events)
    decreases |events|
  {
    if events == [] {
      StartSafe(s);
    } else {
      var n := |events| - 1;
      InOrderDelivery(s, events[..n]);
      RunSafe(s, events[..n]);
      hide Safe, Step, StraysAt, InOrder, AlwaysInOrder, NeverStrays;
      StepKeeps(Run(s, events[..n]), events[n].0, events[n].1);
      OneMoreInOrder(s, events);
      OneMoreStraysNot(s, events);
    }
  }

  lemma OneMoreInOrder(s: System, events: seq<(bool, Event)>)
    requires events != []
    ensures var n := |events| - 1;
            && (AlwaysInOrder(s, events) <==> AlwaysInOrder(s, events[..n]) && InOrder(Run(s, events)))
            && (AlwaysInOrder(s, events[..n]) ==> InOrder(Run(s, events[..n])))
  {
    var n := |events| - 1;
    hide Run, InOrder;
    assert events[..n][..n] == events[..n] && events[..|events|] == events;
    forall k | 0 <= k <= n ensures events[..n][..k] == events[..k] {}
    if AlwaysInOrder(s, events[..n]) && InOrder(Run(s, events)) {
      forall k | 0 <= k <= |events| ensures InOrder(Run(s, events[..k])) {
        if k <= n { assert InOrder(Run(s, events[..n][..k])); }
      }
    }
  }

  lemma OneMoreStraysNot(s: System, events: seq<(bool, Event)>)
    requires events != []
    ensures var n := |events| - 1;
            NeverStrays(s, events) <==> NeverStrays(s, events[..n]) && StraysNot(s, events, n)
  {
    var n := |events| - 1;
    hide Run, StraysAt;
    forall k | 0 <= k < n ensures StraysNot(s, events[..n], k) <==> StraysNot(s, events, k) {
      assert events[..n][..k] == events[..k];
    }
  }

  /** While both ends hold the link nothing strays. */
  lemma InOrderWhileUp(s: System, events: seq<(bool, Event)>)
    requires Start(s) && Alive(Run(s, events))
    ensures InOrder(Run(s, events))
  {
    RunSafe(s, events);
    var t := Run(s, events);
    var u :| Shadows(u, t);
    InvDelivers(t);
  }

  /** No frame a peer sends can be mistaken for one outside the window: only a
      T200 expiry ever ends the link. */
  lemma OnlyTimeoutEndsLink(s: System, events: seq<(bool, Event)>, atA: bool, e: Event)
    requires Start(s) && Alive(Run(s, events)) && !e.T200?
    ensures Alive(Step(Run(s, events), atA, e))
  {
    RunSafe(s, events);
    var t := Run(s, events);
    FlipKeeps(t);
    var u :| Shadows(u, t);
    hide Inv;
    AliveStep(if atA then t else Flip(t), e);
  }
}
