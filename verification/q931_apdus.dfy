/** The facility components queued on a call, and when they are sent: by the first
    message of their type that carries a Facility element. */
module Q931Apdus {
  import opened Q931Ies

  datatype Apdu = Apdu(message: nat, octets: seq<Byte>, sent: bool)

  /** The most octets transmit_facility is ready to send. */
  const ROOM := 235

  predicate Matches(a: Apdu, msg: nat) { a.message == msg && !a.sent }

  /** The first component for a message that has not been sent. */
  function First(q: seq<Apdu>, msg: nat): (i: nat)
    ensures i <= |q| && (i < |q| ==> Matches(q[i], msg)) && forall j | 0 <= j < i :: !Matches(q[j], msg)
  {
    if q == [] || Matches(q[0], msg) then 0 else 1 + First(q[1..], msg)
  }

  lemma {:induction false} FirstIs(q: seq<Apdu>, msg: nat, i: nat)
    requires i <= |q| && (i < |q| ==> Matches(q[i], msg)) && forall j | 0 <= j < i :: !Matches(q[j], msg)
    ensures First(q, msg) == i
  {
    if i > 0 {
      assert !Matches(q[0], msg);
      forall j | 0 <= j < i - 1 ensures !Matches(q[1..][j], msg) { assert q[1..][j] == q[j + 1]; }
      FirstIs(q[1..], msg, i - 1);
    }
  }

  /** transmit_facility finds something to send. */
  predicate Ready(q: seq<Apdu>, msg: nat) { First(q, msg) < |q| && |q[First(q, msg)].octets| <= ROOM }

  function MarkSent(q: seq<Apdu>, i: nat): (r: seq<Apdu>)
    requires i < |q|
    ensures |r| == |q|
  {
    q[i := q[i].(sent := true)]
  }

  /** Components for a message that are still to be sent. */
  function Unsent(q: seq<Apdu>, msg: nat): nat {
    if q == [] then 0 else (if Matches(q[0], msg) then 1 else 0) + Unsent(q[1..], msg)
  }

  /** Every component sent is one less to send: the loop of add_ie ends. */
  lemma {:induction false} UnsentFalls(q: seq<Apdu>, msg: nat, i: nat)
    requires i < |q| && Matches(q[i], msg)
    ensures Unsent(MarkSent(q, i), msg) == Unsent(q, msg) - 1 && Unsent(q, msg) > 0
  {
    if i == 0 {
      assert MarkSent(q, 0)[1..] == q[1..];
    } else {
      assert MarkSent(q, i)[1..] == MarkSent(q[1..], i - 1);
      UnsentFalls(q[1..], msg, i - 1);
    }
  }

  /** All that the loop of add_ie sends: the queue afterwards, and the places in it of
      what was sent, in order. */
  function Drain(q: seq<Apdu>, msg: nat): (r: (seq<Apdu>, seq<nat>))
    ensures |r.0| == |q|
    decreases Unsent(q, msg)
  {
    if !Ready(q, msg) then (q, [])
    else
      var i := First(q, msg);
      UnsentFalls(q, msg, i);
      var r := Drain(MarkSent(q, i), msg);
      (r.0, [i] + r.1)
  }

  /** The components themselves, as add_ie writes them. */
  function Written(q: seq<Apdu>, msg: nat): seq<seq<Byte>>
    decreases Unsent(q, msg)
  {
    if !Ready(q, msg) then []
    else
      var i := First(q, msg);
      UnsentFalls(q, msg, i);
      [q[i].octets] + Written(MarkSent(q, i), msg)
  }

  lemma DrainUnfolds(q: seq<Apdu>, msg: nat)
    ensures !Ready(q, msg) ==> Drain(q, msg).0 == q && Written(q, msg) == []
    ensures Ready(q, msg) ==>
              var i := First(q, msg);
              && Unsent(MarkSent(q, i), msg) < Unsent(q, msg) && Drain(q, msg).0 == Drain(MarkSent(q, i), msg).0
              && Written(q, msg) == [q[i].octets] + Written(MarkSent(q, i), msg)
  {
    if Ready(q, msg) {
      UnsentFalls(q, msg, First(q, msg));
    }
  }

  /** Everything queued for the message up to j, and j itself, is short enough. */
  predicate Unblocked(q: seq<Apdu>, msg: nat, j: nat)
    requires j < |q|
  {
    forall i | 0 <= i <= j && q[i].message == msg :: |q[i].octets| <= ROOM
  }

  /** What has been sent is, for each type of message, a beginning of its queue, and
      short enough. */
  ghost predicate Orderly(q: seq<Apdu>) {
    forall j | 0 <= j < |q| && q[j].sent :: SentBefore(q, j)
  }

  ghost predicate SentBefore(q: seq<Apdu>, j: nat)
    requires j < |q|
  {
    forall i | 0 <= i <= j && q[i].message == q[j].message :: q[i].sent && |q[i].octets| <= ROOM
  }

  lemma OneSent(q: seq<Apdu>, msg: nat)
    requires Orderly(q) && Ready(q, msg)
    ensures Orderly(MarkSent(q, First(q, msg)))
  {
    var k := First(q, msg);
    var r := MarkSent(q, k);
    forall j | 0 <= j < |r| && r[j].sent ensures SentBefore(r, j) {
      if j == k {
        forall i | 0 <= i <= j && r[i].message == r[j].message ensures r[i].sent && |r[i].octets| <= ROOM {
          if i < k {
            assert !Matches(q[i], msg);
            assert SentBefore(q, i);
          }
        }
      } else {
        assert q[j].sent && SentBefore(q, j);
      }
    }
  }

  /** From queue q one message of a type sends what `log` names, and leaves r: in queue
      order and each once, exactly the unsent components of that type that no overlong
      one stands before. */
  ghost predicate Drained(q: seq<Apdu>, msg: nat, r: seq<Apdu>, log: seq<nat>) {
    DrainedQueue(q, msg, r) && DrainedLog(q, msg, r, log)
  }

  ghost predicate DrainedQueue(q: seq<Apdu>, msg: nat, r: seq<Apdu>) {
    && Orderly(r) && |r| == |q|
    && (forall j | 0 <= j < |q| :: r[j].message == q[j].message && r[j].octets == q[j].octets)
    && (forall j | 0 <= j < |q| && q[j].message != msg :: r[j].sent == q[j].sent)
    && (forall j | 0 <= j < |q| && q[j].message == msg :: r[j].sent <==> Unblocked(q, msg, j))
  }

  ghost predicate DrainedLog(q: seq<Apdu>, msg: nat, r: seq<Apdu>, log: seq<nat>) {
    && |r| == |q|
    && (forall k | 0 <= k < |log| :: log[k] < |q| && Matches(q[log[k]], msg) && r[log[k]].sent)
    && (forall j | 0 <= j < |q| && !q[j].sent && r[j].sent :: j in log)
    && (forall k, l | 0 <= k < l < |log| :: log[k] < log[l])
  }

  lemma {:induction false} DrainIs(q: seq<Apdu>, msg: nat)
    requires Orderly(q)
    ensures Drained(q, msg, Drain(q, msg).0, Drain(q, msg).1)
    decreases Unsent(q, msg)
  {
    if Ready(q, msg) {
      var i := First(q, msg);
      UnsentFalls(q, msg, i);
      OneSent(q, msg);
      var m := MarkSent(q, i);
      DrainIs(m, msg);
      OneMore(q, msg, Drain(m, msg).0, Drain(m, msg).1);
    } else {
      forall j | 0 <= j < |q| && q[j].message == msg ensures q[j].sent <==> Unblocked(q, msg, j) {
        Settled(q, msg, j);
      }
    }
  }

  lemma OneMore(q: seq<Apdu>, msg: nat, r: seq<Apdu>, log: seq<nat>)
    requires Ready(q, msg) && Orderly(MarkSent(q, First(q, msg))) && Drained(MarkSent(q, First(q, msg)), msg, r, log)
    ensures Drained(q, msg, r, [First(q, msg)] + log)
  {
    hide *;
    OneMoreQueue(q, msg, r, log);
    OneMoreLog(q, msg, r, log);
    BothDrained(q, msg, r, [First(q, msg)] + log);
  }

  lemma BothDrained(q: seq<Apdu>, msg: nat, r: seq<Apdu>, log: seq<nat>)
    requires DrainedQueue(q, msg, r) && DrainedLog(q, msg, r, log)
    ensures Drained(q, msg, r, log)
  {}

  lemma OneMoreQueue(q: seq<Apdu>, msg: nat, r: seq<Apdu>, log: seq<nat>)
    requires Ready(q, msg) && Orderly(MarkSent(q, First(q, msg))) && Drained(MarkSent(q, First(q, msg)), msg, r, log)
    ensures DrainedQueue(q, msg, r) && |r| == |q| && r[First(q, msg)].sent
  {
    hide Unblocked, Orderly, First, Drained, DrainedLog;
    var i := First(q, msg);
    var m := MarkSent(q, i);
    DrainedBoth(m, msg, r, log);
    SentUnblocked(m, msg, i);
    forall j | 0 <= j < |q| ensures Unblocked(m, msg, j) == Unblocked(q, msg, j) { SameLengths(q, m, msg, j); }
  }

  lemma DrainedBoth(q: seq<Apdu>, msg: nat, r: seq<Apdu>, log: seq<nat>)
    requires Drained(q, msg, r, log)
    ensures DrainedQueue(q, msg, r) && DrainedLog(q, msg, r, log)
  {}

  lemma SentUnblocked(q: seq<Apdu>, msg: nat, i: nat)
    requires Orderly(q) && i < |q| && q[i].sent && q[i].message == msg
    ensures Unblocked(q, msg, i)
  {
    assert SentBefore(q, i);
  }

  lemma OneMoreLog(q: seq<Apdu>, msg: nat, r: seq<Apdu>, log: seq<nat>)
    requires Ready(q, msg) && Drained(MarkSent(q, First(q, msg)), msg, r, log)
    requires |r| == |q| && r[First(q, msg)].sent
    ensures DrainedLog(q, msg, r, [First(q, msg)] + log)
  {
    hide DrainedQueue;
    var i := First(q, msg);
    var m := MarkSent(q, i);
    var all := [i] + log;
    forall k | 0 <= k < |log| ensures i < log[k] && Matches(q[log[k]], msg) {
      assert Matches(m[log[k]], msg);
      assert log[k] != i;
    }
    forall j | 0 <= j < |q| && !q[j].sent && r[j].sent ensures j in all {
      if j == i { assert all[0] == i; } else { assert !m[j].sent; }
    }
  }

  lemma SameLengths(q: seq<Apdu>, m: seq<Apdu>, msg: nat, j: nat)
    requires j < |q| == |m| && forall i | 0 <= i < |q| :: m[i].message == q[i].message && m[i].octets == q[i].octets
    ensures Unblocked(m, msg, j) == Unblocked(q, msg, j)
  {}

  /** When nothing is ready, what is unsent stands behind an overlong component. */
  lemma Settled(q: seq<Apdu>, msg: nat, j: nat)
    requires Orderly(q) && !Ready(q, msg) && j < |q| && q[j].message == msg
    ensures q[j].sent <==> Unblocked(q, msg, j)
  {
    var k := First(q, msg);
    if q[j].sent {
      assert SentBefore(q, j);
    } else {
      assert Matches(q[j], msg);
      assert k <= j;
      assert q[k].message == msg && |q[k].octets| > ROOM;
    }
  }

  // ---------------------------------------------------------------- whole runs

  datatype Event = Enqueue(message: nat, octets: seq<Byte>) | Message(message: nat)

  /** pri_call_apdu_queue refuses an empty or overlong component and message 0. */
  predicate Accepted(message: nat, octets: seq<Byte>) { message != 0 && 1 <= |octets| <= 255 }

  function Act(q: seq<Apdu>, e: Event): (r: (seq<Apdu>, seq<nat>))
    ensures |r.0| >= |q|
  {
    match e
    case Enqueue(message, octets) =>
      if Accepted(message, octets) then (q + [Apdu(message, octets, false)], []) else (q, [])
    case Message(message) => Drain(q, message)
  }

  /** The queue after a run, and the places of everything sent, in order. */
  function Run(events: seq<Event>): (r: (seq<Apdu>, seq<nat>))
    decreases |events|
  {
    if events == [] then ([], [])
    else
      var (q, log) := Run(events[..|events| - 1]);
      var (r, more) := Act(q, events[|events| - 1]);
      (r, log + more)
  }

  /** The log tells the truth about a queue: what it names was sent, what was sent it
      names, and what has the same type it names in the order of the queue. */
  ghost predicate Truthful(q: seq<Apdu>, log: seq<nat>) {
    && (forall k | 0 <= k < |log| :: log[k] < |q| && q[log[k]].sent)
    && (forall j | 0 <= j < |q| && q[j].sent :: j in log)
    && (forall k, l | 0 <= k < l < |log| && q[log[k]].message == q[log[l]].message :: log[k] < log[l])
  }

  lemma QueuedKeeps(q: seq<Apdu>, log: seq<nat>, a: Apdu)
    requires Orderly(q) && Truthful(q, log) && !a.sent
    ensures Orderly(q + [a]) && Truthful(q + [a], log)
  {
    var r := q + [a];
    forall j | 0 <= j < |r| && r[j].sent ensures SentBefore(r, j) { assert SentBefore(q, j); }
  }

  lemma MessageKeeps(q: seq<Apdu>, log: seq<nat>, msg: nat)
    requires Orderly(q) && Truthful(q, log)
    ensures var (r, more) := Drain(q, msg); Orderly(r) && Truthful(r, log + more)
  {
    DrainIs(q, msg);
    var (r, more) := Drain(q, msg);
    var all := log + more;
    forall j | 0 <= j < |q| && q[j].sent ensures r[j].sent {
      if q[j].message == msg { assert SentBefore(q, j); }
    }
    forall j | 0 <= j < |r| && r[j].sent ensures j in all {
      if q[j].sent { assert j in log; } else { assert j in more; }
    }
    forall k, l | 0 <= k < l < |all| && r[all[k]].message == r[all[l]].message ensures all[k] < all[l] {
      if k < |log| <= l {
        assert all[k] == log[k] && all[l] == more[l - |log|];
        EarlierSent(q, msg, log[k], more[l - |log|]);
      } else if k >= |log| {
        assert all[k] == more[k - |log|] && all[l] == more[l - |log|];
      } else {
        assert all[k] == log[k] && all[l] == log[l];
      }
    }
  }

  /** What was sent before stands before what is still unsent. */
  lemma EarlierSent(q: seq<Apdu>, msg: nat, i: nat, j: nat)
    requires Orderly(q) && i < |q| && j < |q| && q[i].sent && Matches(q[j], msg) && q[i].message == msg
    ensures i < j
  {
    assert SentBefore(q, i);
  }

  /** Over every run each component is sent at most once, those for the same type of
      message in the order in which they were queued, always a beginning of them, and
      none of them overlong or behind an overlong one. */
  lemma {:induction false} SentOnceInOrder(events: seq<Event>)
    ensures var (q, log) := Run(events);
            && Orderly(q) && Truthful(q, log)
            && forall k, l | 0 <= k < l < |log| :: log[k] != log[l]
    decreases |events|
  {
    if events != [] {
      var n := |events| - 1;
      SentOnceInOrder(events[..n]);
      var (q, log) := Run(events[..n]);
      match events[n]
      case Enqueue(message, octets) =>
        if Accepted(message, octets) {
          QueuedKeeps(q, log, Apdu(message, octets, false));
        }
        assert log + [] == log;
      case Message(message) =>
        MessageKeeps(q, log, message);
    }
  }

  /** A component still waits after a message of its type exactly if it or one queued
      before it for that type is overlong. */
  lemma WaitsIffBlocked(events: seq<Event>, msg: nat, j: nat)
    requires var q := Run(events).0; j < |q| && q[j].message == msg
    ensures var q := Run(events).0;
            Drain(q, msg).0[j].sent <==> Unblocked(q, msg, j)
  {
    SentOnceInOrder(events);
    DrainIs(Run(events).0, msg);
  }
}
