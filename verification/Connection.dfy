/** The connection object: state_ and ec_ as connect(), close() and the coroutine change them. */
module Connections {
  import opened ConnectionModel

  class Connection {
    var phase: Phase
    var ec: ErrorCode
    var callers: seq<Caller>
    var coro: Coro
    ghost var starts: nat
    ghost var closes: seq<ErrorCode>

    ghost function View(): State
      reads this
    {
      State(phase, ec, callers, coro, starts, closes)
    }

    ghost predicate Valid()
      reads this
    {
      Inv(View())
    }

    constructor ()
      ensures Valid() && View() == Start()
    {
      phase, ec, callers, coro := Init, Success, [], NotStarted;
      starts, closes := 0, [];
      new;
      StartInv();
    }

    method NotifyWaiters()
      modifies this`callers
      ensures View() == NotifyAll(old(View()))
    {
      callers := seq(|callers|, i requires 0 <= i < |callers| reads this => Notified(callers[i]));
    }

    /** impl::close, with mu_ held: the first caller's reason is the one everybody gets. */
    method CloseLocked(reason: ErrorCode) returns (r: ErrorCode)
      modifies this
      ensures View() == DoClose(old(View()), reason)
      ensures r == ec && (old(phase) == Closed ==> r == old(ec))
      ensures old(phase) != Closed ==> r != Success
    {
      if phase == Closed {
        return ec;
      }
      var e := reason;
      if e == Success {
        e := ConnectionAborted;
      }
      ec := e;
      if phase == Init {
        phase := Closed;
        return e;
      }
      phase := Closed;
      NotifyWaiters();
      return ec;
    }

    method Close(reason: ErrorCode) returns (r: ErrorCode)
      requires Valid()
      modifies this
      ensures Valid() && View() == Step(old(View()), CallClose(reason))
      ensures r == ec && r != Success
    {
      StepInv(View(), CallClose(reason));
      r := CloseLocked(reason);
      closes := closes + [r];
    }

    /**
     connect() from taking mu_ to its return, its wait, or leaving mu_ to run the coroutine. It
     returns success exactly if it found the connection up, and otherwise the recorded reason.
     */
    method ConnectBody(k: nat)
      requires Valid() && Enabled(View(), Enter(k))
      modifies this
      ensures Valid() && View() == Step(old(View()), Enter(k))
      ensures callers[k].Returned? <==> old(phase) == Connected || old(phase) == Closed
      ensures callers[k].Returned? ==>
        callers[k].result == (if phase == Connected then Success else ec) && phase == old(phase)
    {
      hide Inv;
      StepInv(View(), Enter(k));
      match phase
      case Connected => callers := callers[k := Returned(Success)];
      case Closed => callers := callers[k := Returned(ec)];
      case Connecting => callers := callers[k := Waiting(false)];
      case Init =>
        phase := Connecting;
        callers := callers[k := Starting(callers[k].depth)];
    }

    /** The first run of the coroutine, then the recursive connect(): nobody did this before, and nobody will again. */
    method StartCoroutine(k: nat)
      requires Valid() && Enabled(View(), RunCoroutine(k))
      modifies this
      ensures Valid() && View() == Step(old(View()), RunCoroutine(k))
      ensures old(starts) == 0 && starts == 1 && callers[k] == Entering(1)
      ensures forall j :: 0 <= j < |callers| ==> !callers[j].Starting?
    {
      StepInv(View(), RunCoroutine(k));
      assert CallerSound(View(), callers[k]);
      coro := Resolving;
      starts := starts + 1;
      callers := callers[k := Entering(callers[k].depth + 1)];
      forall j | 0 <= j < |callers| ensures !callers[j].Starting? { assert CallerSound(View(), callers[j]); }
    }

    /**
     A waiter with mu_ again, woken or with its time run out. Only a wait that ran out while
     still connecting closes the connection, and the waiter gets the reason either way.
     */
    method EndWait(k: nat, expired: bool)
      requires Valid() && Enabled(View(), Wake(k))
      modifies this
      ensures Valid() && View() == Step(old(View()), if expired then Timeout(k) else Wake(k))
      ensures old(phase) != Connecting ==> phase == old(phase) && ec == old(ec)
      ensures callers[k].Returned? && callers[k].result != Success ==> phase == Closed && callers[k].result == ec
      ensures expired ==> callers[k].Returned?
    {
      StepInv(View(), if expired then Timeout(k) else Wake(k));
      hide Inv;
      if phase == Connecting && expired {
        var r := CloseLocked(TimedOut);
        assert k < |callers|;
        callers := callers[k := Returned(r)];
      } else if phase == Connecting {
        callers := callers[k := Waiting(false)];
      } else {
        callers := callers[k := Returned(if phase == Connected then Success else ec)];
      }
    }

    /**
     The coroutine's operator(), entered wherever it is suspended: an aborted operation closes
     and does not go on, a failed one tries the next endpoint or closes, and a success counts
     only if nobody closed the connection meanwhile.
     */
    method Resume(error: ErrorCode, endpoints: nat)
      requires Valid() && (coro == Resolving || coro.Trying?)
      modifies this
      ensures Valid()
        && View() == Step(old(View()), if old(coro) == Resolving then Resolve(error, endpoints) else Connect(error))
      ensures old(phase) == Closed ==> phase == Closed && ec == old(ec)
      ensures phase == Connected ==> error == Success && old(phase) == Connecting && old(coro).Trying?
      ensures coro == Stopped ==> phase == Closed
      ensures old(coro).Trying? && old(phase) == Connecting && error == Success ==>
        phase == Connected && coro == Notifying
      ensures old(coro).Trying? && error != Success && error != OperationAborted && old(coro).left > 1 ==>
        coro == Trying(old(coro).left - 1) && phase == old(phase) && ec == old(ec)
    {
      ghost var e := if coro == Resolving then Resolve(error, endpoints) else Connect(error);
      StepInv(View(), e);
      Attempting(View());
      hide Inv;
      if error == OperationAborted {
        var _ := CloseLocked(error);
        coro := Stopped;
        return;
      }
      match coro
      case Resolving =>
        if error != Success || endpoints == 0 {
          var _ := CloseLocked(error);
          coro := Stopped;
        } else {
          coro := Trying(endpoints);
        }
      case Trying(left) =>
        if error == Success {
          if phase != Connecting {
            coro := Stopped;
          } else {
            phase := Connected;
            coro := Notifying;
          }
        } else if left > 1 {
          coro := Trying(left - 1);
        } else {
          var _ := CloseLocked(error);
          coro := Stopped;
        }
    }
  }

  /** While the coroutine has an operation in flight the connection is being made or already closed. */
  lemma Attempting(s: State)
    requires Inv(s) && (s.coro == Resolving || s.coro.Trying?)
    ensures s.phase == Connecting || s.phase == Closed
  {}
}
