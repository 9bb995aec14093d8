/** One end of a Q.921 data link, as values: the fields of `struct pri` that the
    link layer uses, the frames it exchanges, and what each handler of q921.c
    does to them.  `wire` is everything handed to `write_func`, in order;
    `delivered` is everything handed to layer 3 (`q931_receive`), in order. */
module Q921Link {

  type Octets = seq<bv8>
  /** A 7-bit field of a frame header, or a variable reduced by Q921_INC. */
  type Seq7 = x: int | 0 <= x < 128

  /** An entry of the transmit queue.  `aired` is no field of the source: it records
      whether the frame has ever been put on the wire, which `transmitted` does not
      say of a frame that only T200 has sent. */
  datatype Frame = Frame(ns: Seq7, nr: Seq7, pf: bool, transmitted: bool, aired: bool, data: Octets)

  /** What travels between the two ends. */
  datatype Wire =
    | Info(ns: Seq7, nr: Seq7, pf: bool, data: Octets)
    | RR(nr: Seq7, pf: bool)
    | RNR(nr: Seq7, pf: bool)
    | REJ(nr: Seq7, pf: bool)
    | Sabme

  datatype State = Released | Established | AwaitingEstablish

  /** `vs` counts up without reduction, as in the source; every other sequence
      variable stays below 128.  `t200` and `t203` say whether the handle is set. */
  datatype Link = Link(
    k: int, n200: int,
    state: State,
    vs: nat, va: Seq7, vr: Seq7, vna: Seq7,
    window: int, windowlen: int,
    busy: bool, solicitfbit: bool, sentrej: bool, retrans: nat,
    t200: bool, t203: bool,
    txqueue: seq<Frame>,
    wire: seq<Wire>,
    delivered: seq<Octets>)

  function Inc(x: Seq7): Seq7 { if x == 127 then 0 else x + 1 }

  /** `x` after `n` steps of Q921_INC. */
  function Plus(x: Seq7, n: nat): Seq7
    requires n <= 128
  {
    if x + n < 128 then x + n else x + n - 128
  }

  /** How many steps of Q921_INC lead from `x` to `y`. */
  function Dist(x: Seq7, y: Seq7): Seq7 { if x <= y then y - x else y - x + 128 }

  function OnWire(f: Frame): Wire { Info(f.ns, f.nr, f.pf, f.data) }

  function Transmit(l: Link, w: Wire): Link { l.(wire := l.wire + [w]) }

  /** Index of the first queued frame numbered `num`, or the queue length. */
  function FirstWith(q: seq<Frame>, num: Seq7): (i: nat)
    ensures i <= |q|
    ensures i < |q| ==> q[i].ns == num
    ensures forall j | 0 <= j < i :: q[j].ns != num
  {
    if |q| == 0 || q[0].ns == num then 0 else 1 + FirstWith(q[1..], num)
  }

  /** Index of the first queued frame never sent, or the queue length. */
  function FirstUnsent(q: seq<Frame>): (i: nat)
    ensures i <= |q|
    ensures i < |q| ==> !q[i].transmitted
    ensures forall j | 0 <= j < i :: q[j].transmitted
  {
    if |q| == 0 || !q[0].transmitted then 0 else 1 + FirstUnsent(q[1..])
  }

  /** The window opened by one: send the first frame still waiting, if any. */
  function OpenWindow(l: Link): Link {
    var i := FirstUnsent(l.txqueue);
    if i == |l.txqueue| then l else
    var f := l.txqueue[i].(transmitted := true, aired := true, nr := l.vr);
    Transmit(l.(txqueue := l.txqueue[i := f], windowlen := l.windowlen + 1), OnWire(f))
  }

  /** q921_ack_packet */
  function AckPacket(l: Link, num: Seq7): Link {
    var i := FirstWith(l.txqueue, num);
    if i == |l.txqueue| then l else
    OpenWindow(l.(txqueue := l.txqueue[..i] + l.txqueue[i + 1..],
                  va := num, retrans := 0, windowlen := l.windowlen - 1))
  }

  /** Acknowledge the numbers from `x` up to, but not including, `ack`. */
  function AckRange(l: Link, x: Seq7, ack: Seq7): Link
    decreases Dist(x, ack)
  {
    if x == ack then l else AckRange(AckPacket(l, x), Inc(x), ack)
  }

  /** The window test of q921_ack_rx in closed form.  V(S) is not reduced, so
      from 128 on the test accepts every number. */
  predicate InWindow(va: Seq7, vs: nat, ack: Seq7) {
    vs >= 128 || Dist(va, ack) <= Dist(va, vs)
  }

  /** q921_reset */
  function Reset(l: Link): Link {
    l.(vs := 0, va := 0, vr := 0, vna := 0, window := l.k, windowlen := 0,
       busy := false, solicitfbit := false, sentrej := false, retrans := 0,
       t200 := false, t203 := false, state := Released, txqueue := [])
  }

  /** q921_dchannel_down followed by q921_start(pri, 1) */
  function Restart(l: Link): Link {
    Transmit(Reset(l), Sabme).(state := AwaitingEstablish)
  }

  /** q921_dchannel_up */
  function Up(l: Link): Link {
    Reset(l).(state := Established, t203 := true)
  }

  /** q921_ack_rx */
  function AckRx(l: Link, ack: Seq7): Link {
    if !InWindow(l.va, l.vs, ack) then Restart(l) else
    var m := AckRange(l, l.va, ack);
    m.(t200 := m.txqueue != [], t203 := m.txqueue == [])
  }

  /** q921_rr */
  function SendRR(l: Link, pf: bool): Link {
    Transmit(l.(vna := l.vr), RR(l.vr, pf))
  }

  /** q921_reject */
  function SendReject(l: Link, pf: bool): Link {
    Transmit(l.(sentrej := true), REJ(l.vr, pf))
  }

  /** q921_transmit_iframe */
  function Queue(l: Link, data: Octets): Link {
    var now := l.retrans == 0 && !l.busy && l.windowlen < l.window;
    var f := Frame(l.vs % 128, l.vr, false, now, now, data);
    var m := l.(vs := l.vs + 1, vna := l.vr, txqueue := l.txqueue + [f], t200 := true, t203 := false);
    if now then Transmit(m.(windowlen := l.windowlen + 1), OnWire(f)) else m
  }

  /** Whatever layer 3 queues while it handles one message. */
  function QueueAll(l: Link, replies: seq<Octets>): Link
    decreases |replies|
  {
    if replies == [] then l else QueueAll(Queue(l, replies[0]), replies[1..])
  }

  /** q921_handle_iframe; `replies` is what layer 3 queues in q931_receive */
  function HandleIframe(l: Link, ns: Seq7, nr: Seq7, pf: bool, data: Octets, replies: seq<Octets>): Link {
    if ns == l.vr then
      var m := AckRx(l.(vr := Inc(l.vr), sentrej := false), nr);
      if m.state != Established then m else
      var m := if pf then SendRR(m, true) else if m.busy then SendRR(m, false) else m;
      var m := QueueAll(m.(delivered := m.delivered + [data]), replies);
      if m.vna != m.vr then SendRR(m, false) else m
    else if !l.sentrej then SendReject(l, pf)
    else if pf then SendRR(l, true)
    else l
  }

  /** The Receive Ready case of __q921_receive_qualified */
  function HandleRR(l: Link, nr: Seq7, pf: bool): Link {
    var m := AckRx(l.(busy := false), nr);
    if m.state != Established || !pf then m else
    (if m.solicitfbit then m else SendRR(m, true)).(solicitfbit := false)
  }

  /** The Receive Not Ready case */
  function HandleRNR(l: Link, pf: bool): Link {
    (if pf then SendRR(l, true) else l).(busy := true)
  }

  /** The queue and the output of the resend loop of the Reject case. */
  function Resend(q: seq<Frame>, nr: Seq7, vr: Seq7, sendnow: bool): (r: (seq<Frame>, seq<Wire>)) {
    if q == [] then ([], []) else
    var hit := (sendnow || q[0].ns == nr) && q[0].transmitted;
    var f := if hit then q[0].(nr := vr) else q[0];
    var (q', out) := Resend(q[1..], nr, vr, sendnow || hit);
    ([f] + q', (if hit then [OnWire(f)] else []) + out)
  }

  /** The Reject case */
  function HandleREJ(l: Link, nr: Seq7, pf: bool): Link {
    var m := if pf then SendRR(l, true) else l;
    var (q, out) := Resend(m.txqueue, nr, m.vr, false);
    if out == [] && q == [] then m.(va := nr, vs := nr, t200 := false, t203 := true)
    else m.(txqueue := q, wire := m.wire + out)
  }

  /** __q921_receive_qualified for I and S frames */
  function Receive(l: Link, w: Wire, replies: seq<Octets>): Link {
    if l.state != Established then l else
    match w
    case Info(ns, nr, pf, data) => HandleIframe(l, ns, nr, pf, data, replies)
    case RR(nr, pf) => HandleRR(l, nr, pf)
    case RNR(nr, pf) => HandleRNR(l, pf)
    case REJ(nr, pf) => HandleREJ(l, nr, pf)
    case Sabme => l
  }

  /** The head goes out, flagged or not. */
  function SendHead(l: Link): Link
    requires l.txqueue != []
  {
    Transmit(l.(txqueue := l.txqueue[0 := l.txqueue[0].(aired := true)]), OnWire(l.txqueue[0]))
  }

  /** t200_expire */
  function T200Expire(l: Link): Link {
    if l.txqueue != [] then
      var f := l.txqueue[0].(pf := true, nr := l.vr);
      var m := l.(txqueue := l.txqueue[0 := f], vna := l.vr, solicitfbit := true, retrans := l.retrans + 1);
      if m.retrans < m.n200 then
        (if m.busy then SendRR(m, true) else SendHead(m)).(t200 := true)
      else Restart(m)
    else if l.solicitfbit then
      var m := l.(retrans := l.retrans + 1);
      if m.retrans < m.n200 then SendRR(m, true).(t200 := true) else Restart(m)
    else l.(t200 := false)
  }

  /** t203_expire */
  function T203Expire(l: Link): Link {
    if l.state == Established then
      SendRR(l.(solicitfbit := true, retrans := 0), true).(t203 := true)
    else l.(t203 := false)
  }
}
