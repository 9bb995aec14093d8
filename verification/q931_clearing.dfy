/** Clearing a call (Q.931 section 5.3.3): disconnect, release, release complete and
    hangup, and the timers T305, T308 and T313 that drive them. */
module Q931Clearing {

  datatype State =
    | Null | CallInitiated | OverlapSending | OutgoingCallProceeding | CallDelivered | CallPresent | CallReceived
    | ConnectRequest | IncomingCallProceeding | Active | DisconnectRequest | DisconnectIndication
    | SuspendRequest | ResumeRequest | ReleaseRequest | OverlapReceiving | RestartRequest | Restart

  /** The pending timer of a call: T308Final is T308 for the second time. */
  datatype Timer = NoTimer | T305 | T308 | T308Final | T313

  datatype Call = Call(ours: State, peer: State, alive: bool, acked: bool, cause: int, t308: nat, hangupAck: bool,
                       timer: Timer)

  datatype Message = Disconnect(cause: int) | Release(cause: int) | ReleaseComplete(cause: int)

  /** A call, whether it is still in the pool, and what has been sent for it. */
  datatype World = World(call: Call, inPool: bool, sent: seq<Message>)

  const NORMAL_CLEARING := 16
  const MANDATORY_IE_MISSING := 96

  /** send_message */
  function Sending(w: World, m: Message): World { w.(sent := w.sent + [m], call := w.call.(acked := true)) }

  /** q931_disconnect */
  function Disconnected(w: World, cause: int): World {
    var c := w.call.(ours := DisconnectRequest, peer := DisconnectIndication);
    if c.alive then
      Sending(w.(call := c.(alive := false, cause := cause, hangupAck := true, timer := T305)), Disconnect(cause))
    else w.(call := c)
  }

  /** q931_release */
  function Released(w: World, cause: int): World {
    var c := w.call.(ours := ReleaseRequest);
    if !c.alive then w.(call := c)
    else
      var d := c.(alive := false, cause := cause);
      if d.acked then Sending(w.(call := d.(timer := if d.t308 == 0 then T308 else T308Final)), Release(cause))
      else Sending(w.(call := d), ReleaseComplete(cause))
  }

  /** q931_destroycall */
  function Destroyed(w: World): World { w.(inPool := false, call := w.call.(timer := NoTimer)) }

  predicate Resting(c: Call) { c.ours == Null && c.peer == Null }

  /** q931_release_complete */
  function ReleaseCompleted(w: World, cause: int): (r: World)
    decreases 1
  {
    var c := w.call.(ours := Null, peer := Null);
    var d := if cause > -1 then c.(cause := cause) else c;
    var s := Sending(w.(call := d), ReleaseComplete(d.cause));
    HungUp(s.(call := s.call.(alive := false)), cause)
  }

  /** Causes answered with RELEASE COMPLETE, and with RELEASE. */
  predicate WithComplete(cause: int) { cause == 34 || cause == 44 || cause == 82 || cause == 1 || cause == 81 }

  predicate WithRelease(cause: int) { cause == 6 || cause == 7 || cause == 26 }

  /** The states of a call that is being set up. */
  predicate SettingUp(s: State) {
    s == CallInitiated || s == OverlapSending || s == OutgoingCallProceeding || s == CallDelivered || s == CallPresent
    || s == CallReceived || s == ConnectRequest || s == IncomingCallProceeding || s == OverlapReceiving
  }

  /** The peer states in which a hangup of such a call does nothing. */
  predicate Odd(s: State) {
    s == Null || s == DisconnectRequest || s == DisconnectIndication || s == ReleaseRequest
    || s == RestartRequest || s == Restart
  }

  /** The cause a hangup goes by. */
  function Insisted(c: Call, cause: int): int { if c.cause == MANDATORY_IE_MISSING then c.cause else cause }

  /** q931_hangup. It calls q931_release_complete, which calls it again, but only for
      a call that is at rest by then. */
  function HungUp(w: World, cause0: int): (r: World)
    decreases if Resting(w.call) then 0 else 2
  {
    var c := w.call;
    var cause := Insisted(c, cause0);
    if c.ours == Null then
      if c.peer == Null then Destroyed(w) else if c.peer == ReleaseRequest then ReleaseCompleted(w, cause) else w
    else if SettingUp(c.ours) then
      if Odd(c.peer) then w
      else if WithComplete(cause) then ReleaseCompleted(w, cause)
      else if WithRelease(cause) then Released(w, cause)
      else Disconnected(w, cause)
    else if c.ours == Active then Disconnected(w, cause)
    else if c.ours == DisconnectRequest then Released(w, cause)
    else if c.ours == DisconnectIndication then
      if c.peer == DisconnectRequest then Released(w.(call := c.(alive := true)), cause) else w
    else w
  }

  /** RELEASE COMPLETE is sent and the call leaves the pool. */
  lemma ReleaseCompletes(w: World, cause: int)
    ensures var v := ReleaseCompleted(w, cause);
            && !v.inPool && Resting(v.call) && v.call.timer == NoTimer
            && v.sent == w.sent + [ReleaseComplete(if cause > -1 then cause else w.call.cause)]
  {}

  /** The pending timer runs out. */
  function Expired(w: World): World {
    var c := w.call.(timer := NoTimer);
    match w.call.timer
    case NoTimer => w
    case T305 => Released(w.(call := c.(alive := true)), NORMAL_CLEARING)
    case T308 => Released(w.(call := c.(alive := true, t308 := c.t308 + 1)), c.cause)
    case T308Final => HungUp(w.(call := c.(alive := true, t308 := c.t308 + 1, ours := Null, peer := Null)), c.cause)
    case T313 => Disconnected(w.(call := c), NORMAL_CLEARING)
  }

  // ------------------------------------------------------------ clearing finishes

  /** The call is being cleared: it waits for the peer, with a timer running. */
  predicate Waiting(w: World) {
    && w.inPool && !w.call.alive && w.call.acked
    && (w.call.ours == DisconnectRequest || w.call.ours == ReleaseRequest)
    && (w.call.timer == T305 || w.call.timer == T308 || w.call.timer == T308Final)
  }

  /** Expiries until the call is gone. */
  function ToGo(c: Call): nat {
    match c.timer
    case T305 => if c.t308 == 0 then 3 else 2
    case T308 => 2
    case T308Final => 1
    case _ => 0
  }

  /** What can happen while the peer is silent: the user asks again, or the timer
      runs out. */
  datatype Event = AskHangup(cause: int) | AskDisconnect(cause: int) | AskRelease(cause: int) | Expiry

  function Act(w: World, e: Event): World {
    match e
    case AskHangup(cause) => HungUp(w, cause)
    case AskDisconnect(cause) => Disconnected(w, cause)
    case AskRelease(cause) => Released(w, cause)
    case Expiry => Expired(w)
  }

  /** A run; nothing happens to a call that has left the pool. */
  function Run(w: World, events: seq<Event>): World
    decreases |events|
  {
    if events == [] then w
    else
      var v := Run(w, events[..|events| - 1]);
      if v.inPool then Act(v, events[|events| - 1]) else v
  }

  function Expiries(events: seq<Event>): nat
    decreases |events|
  {
    if events == [] then 0
    else Expiries(events[..|events| - 1]) + if events[|events| - 1].Expiry? then 1 else 0
  }

  /** Nothing the user asks for sends anything or stops the clearing. */
  lemma AskingChangesNothing(w: World, e: Event)
    requires Waiting(w) && !e.Expiry?
    ensures Waiting(Act(w, e)) && ToGo(Act(w, e).call) == ToGo(w.call) && Act(w, e).sent == w.sent
  {}

  /** An expiry sends RELEASE, or after the last one takes the call out of the pool. */
  lemma ExpiryMovesOn(w: World)
    requires Waiting(w)
    ensures var v := Expired(w);
            if ToGo(w.call) == 1 then !v.inPool && v.sent == w.sent
            else Waiting(v) && ToGo(v.call) == ToGo(w.call) - 1
                 && |v.sent| == |w.sent| + 1 && v.sent[..|w.sent|] == w.sent && v.sent[|w.sent|].Release?
  {}

  /** With a silent peer a call that is being cleared stays in the pool until its
      last expiry and leaves it then; RELEASE is sent at every expiry before that,
      and nothing else ever. */
  lemma {:induction false} ClearingFinishes(w: World, events: seq<Event>)
    requires Waiting(w)
    ensures var v := Run(w, events);
            && (v.inPool <==> Expiries(events) < ToGo(w.call))
            && (v.inPool ==> Waiting(v) && ToGo(v.call) == ToGo(w.call) - Expiries(events))
            && w.sent <= v.sent
            && |v.sent| - |w.sent| == (if v.inPool then Expiries(events) else ToGo(w.call) - 1)
            && forall i | |w.sent| <= i < |v.sent| :: v.sent[i].Release?
    decreases |events|
  {
    if events != [] {
      var n := |events| - 1;
      ClearingFinishes(w, events[..n]);
      var u := Run(w, events[..n]);
      if u.inPool {
        if events[n].Expiry? {
          ExpiryMovesOn(u);
        } else {
          AskingChangesNothing(u, events[n]);
        }
      }
    }
  }

  /** After q931_disconnect has sent DISCONNECT for a call whose T308 has never run
      out, three expiries clear it. */
  lemma DisconnectClears(w: World, cause: int, events: seq<Event>)
    requires w.inPool && w.call.alive && w.call.t308 == 0
    ensures var d := Disconnected(w, cause);
            && d.sent == w.sent + [Disconnect(cause)]
            && (Run(d, events).inPool <==> Expiries(events) < 3)
            && (Expiries(events) >= 3 ==>
                  && |Run(d, events).sent| == |d.sent| + 2 && d.sent <= Run(d, events).sent
                  && Run(d, events).sent[|d.sent|].Release? && Run(d, events).sent[|d.sent| + 1].Release?)
  {
    ClearingFinishes(Disconnected(w, cause), events);
  }

  // --------------------------------------------------------------- hanging up

  /** A call whose clearing has not begun. */
  predicate NotClearing(w: World) {
    w.inPool && w.call.timer != T305 && w.call.timer != T308 && w.call.timer != T308Final
  }

  /** The hangup finds something to do. */
  predicate Clears(c: Call, cause: int) {
    var insisted := Insisted(c, cause);
    if c.ours == Null then c.peer == Null || c.peer == ReleaseRequest
    else if SettingUp(c.ours) then
      !Odd(c.peer) && (WithComplete(insisted) || (c.alive && (WithRelease(insisted) ==> c.acked)))
    else if c.ours == Active then c.alive
    else if c.ours == DisconnectRequest then c.alive && c.acked
    else c.ours == DisconnectIndication && c.peer == DisconnectRequest && c.acked
  }

  /** A hangup removes the call or starts its clearing exactly under these
      conditions; otherwise the call stays in the pool and no timer will ever clear
      it. */
  lemma HangupClearsIff(w: World, cause: int)
    requires NotClearing(w)
    ensures !HungUp(w, cause).inPool || Waiting(HungUp(w, cause)) <==> Clears(w.call, cause)
    ensures !Clears(w.call, cause) ==> NotClearing(HungUp(w, cause))
  {
    ReleaseCompletes(w, Insisted(w.call, cause));
    hide ReleaseCompleted;
  }

  /** An incoming call that nobody has answered yet is not alive: hung up with an
      ordinary cause it is neither refused nor cleared, and a second hangup does not
      help. */
  lemma UnansweredHangupIsSilent(w: World)
    requires w.inPool && w.call.ours == CallPresent && w.call.peer == CallInitiated && !w.call.alive
    requires w.call.timer == NoTimer && w.call.cause != MANDATORY_IE_MISSING
    ensures var v := HungUp(HungUp(w, NORMAL_CLEARING), NORMAL_CLEARING);
            v.inPool && v.sent == w.sent && v.call.timer == NoTimer && v.call.ours == ReleaseRequest
  {}

  /** A hangup sends at most one message, and a call leaves the pool in one only if
      it is at rest or with RELEASE COMPLETE. */
  lemma HangupSendsOne(w: World, cause: int)
    requires w.inPool
    ensures var v := HungUp(w, cause);
            && (v.sent == w.sent || (|v.sent| == |w.sent| + 1 && v.sent[..|w.sent|] == w.sent))
            && (!v.inPool ==> Resting(v.call)
                              && (Resting(w.call) || (v.sent != w.sent && v.sent[|w.sent|].ReleaseComplete?)))
  {
    ReleaseCompletes(w, Insisted(w.call, cause));
    hide ReleaseCompleted;
  }
}
