/** q931.c: the fields of one call, updated in place by the clearing procedures. */
module Q931Control {
  import C = Q931Clearing

  class CallControl {
    var ours: C.State
    var peer: C.State
    var alive: bool
    var acked: bool
    var cause: int
    var t308: nat
    var hangupAck: bool
    var timer: C.Timer
    var inPool: bool
    var sent: seq<C.Message>

    ghost function View(): C.World
      reads this
    {
      C.World(C.Call(ours, peer, alive, acked, cause, t308, hangupAck, timer), inPool, sent)
    }

    /** A call as q931_getcall makes it. */
    constructor ()
      ensures View() == C.World(C.Call(C.Null, C.Null, false, false, 0, 0, false, C.NoTimer), true, [])
    {
      ours, peer := C.Null, C.Null;
      alive, acked, cause, t308, hangupAck := false, false, 0, 0, false;
      timer, inPool, sent := C.NoTimer, true, [];
    }

    method SendMessage(m: C.Message)
      modifies this
      ensures View() == C.Sending(old(View()), m)
    {
      sent := sent + [m];
      acked := true;
    }

    /** The call gives up being alive for a cause. */
    method GiveUp(cause: int)
      modifies this
      ensures View() == old(View()).(call := old(View()).call.(alive := false, cause := cause))
    {
      alive := false;
      this.cause := cause;
    }

    /** q931_disconnect */
    method Disconnect(cause: int)
      modifies this
      ensures View() == C.Disconnected(old(View()), cause)
    {
      ours := C.DisconnectRequest;
      peer := C.DisconnectIndication;
      if alive {
        GiveUp(cause);
        hangupAck := true;
        timer := C.T305;
        SendMessage(C.Message.Disconnect(cause));
      }
    }

    /** q931_release */
    method Release(cause: int)
      modifies this
      ensures View() == C.Released(old(View()), cause)
    {
      ours := C.ReleaseRequest;
      if alive {
        GiveUp(cause);
        if acked {
          timer := if t308 == 0 then C.T308 else C.T308Final;
          SendMessage(C.Message.Release(cause));
        } else {
          SendMessage(C.Message.ReleaseComplete(cause));
        }
      }
    }

    /** q931_destroycall */
    method Destroy()
      modifies this
      ensures View() == C.Destroyed(old(View()))
    {
      inPool := false;
      timer := C.NoTimer;
    }

    /** q931_release_complete up to its call of q931_hangup. */
    method SendReleaseComplete(cause: int)
      modifies this
      ensures var w := old(View());
              var c := w.call.(ours := C.Null, peer := C.Null);
              var d := if cause > -1 then c.(cause := cause) else c;
              var s := C.Sending(w.(call := d), C.Message.ReleaseComplete(d.cause));
              View() == s.(call := s.call.(alive := false))
    {
      ours := C.Null;
      peer := C.Null;
      if cause > -1 {
        this.cause := cause;
      }
      SendMessage(C.Message.ReleaseComplete(this.cause));
      alive := false;
    }

    /** q931_release_complete */
    method ReleaseComplete(cause: int)
      modifies this
      ensures View() == C.ReleaseCompleted(old(View()), cause)
      decreases 1
    {
      SendReleaseComplete(cause);
      Hangup(cause);
    }

    /** q931_hangup */
    method Hangup(cause0: int)
      modifies this
      ensures View() == C.HungUp(old(View()), cause0)
      decreases if C.Resting(View().call) then 0 else 2
    {
      ghost var w := View();
      hide C.ReleaseCompleted, C.Released, C.Disconnected, C.Destroyed;
      var disconnect, releaseCompl, why := true, false, cause0;
      if cause == C.MANDATORY_IE_MISSING {
        why := cause;
      }
      if C.WithComplete(why) {
        disconnect, releaseCompl := false, true;
      }
      if C.WithRelease(why) {
        disconnect := false;
      }
      match ours {
        case Null =>
          if peer == C.Null {
            Destroy();
          } else if peer == C.ReleaseRequest {
            ReleaseComplete(why);
          }
        case CallInitiated | OverlapSending | OutgoingCallProceeding | CallDelivered | CallPresent | CallReceived
          | ConnectRequest | IncomingCallProceeding | OverlapReceiving =>
          if !C.Odd(peer) {
            if disconnect {
              Disconnect(why);
            } else if releaseCompl {
              ReleaseComplete(why);
            } else {
              Release(why);
            }
          }
        case Active => Disconnect(why);
        case DisconnectRequest => Release(why);
        case DisconnectIndication =>
          if peer == C.DisconnectRequest {
            alive := true;
            Release(why);
          }
        case _ =>
      }
    }

    /** pri_disconnect_timeout, pri_release_timeout, pri_release_finaltimeout and
        pri_connect_timeout */
    method Expire()
      modifies this
      ensures View() == C.Expired(old(View()))
    {
      hide C.HungUp, C.Released, C.Disconnected;
      var which := timer;
      timer := C.NoTimer;
      match which {
        case NoTimer =>
        case T305 =>
          alive := true;
          Release(C.NORMAL_CLEARING);
        case T308 =>
          t308 := t308 + 1;
          alive := true;
          Release(cause);
        case T308Final =>
          FinalTimeout();
        case T313 =>
          Disconnect(C.NORMAL_CLEARING);
      }
    }

    /** pri_release_finaltimeout */
    method FinalTimeout()
      modifies this
      ensures var w := old(View());
              var c := w.call.(alive := true, t308 := w.call.t308 + 1, ours := C.Null, peer := C.Null);
              View() == C.HungUp(w.(call := c), w.call.cause)
    {
      alive := true;
      t308 := t308 + 1;
      ours := C.Null;
      peer := C.Null;
      hide C.HungUp;
      Hangup(cause);
    }
  }
}
