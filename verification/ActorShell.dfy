/**
  The shell as the object it is: each gate-held section updates the fields in
  place. It is proved against the section function the step relation uses, and
  to be lawful: it keeps terminal states, settlement, the first error and
  staleness, and broadcasts when it releases the waiters.
 */
module ActorShell {
  import opened Common
  import opened Actor

  datatype Status = Ok | AlreadyStarted | IsStopping | IsStopped | IsFailed

  datatype MailboxStatus = Accepted | TypeMismatch | MailboxFull | MailboxClosed | MailboxCancelled | MailboxOther

  datatype SendStatus =
    | SendAccepted | SendTypeMismatch | SendFull | SendFailed | SendInvalid
    | SendStale | SendNotStarted | SendStopping | SendStopped

  function StateStatus(l: Life): Status {
    match l
    case Start => Ok
    case Running => AlreadyStarted
    case Stopping => IsStopping
    case Stopped => IsStopped
    case Failed => IsFailed
  }

  class ActorShell {
    var life: Life
    var settled: bool
    var stale: bool
    var starting: bool
    var pendingWakes: nat
    var refs: nat
    var error: Option<string>

    function View(): Shell
      reads this
    {
      Shell(life, settled, stale, starting, pendingWakes, refs, error)
    }

    // Settlement is only ever of a terminal state, and the counts fit their words.
    ghost predicate Valid()
      reads this
    {
      (settled ==> Terminal(life)) && pendingWakes <= SIZE_MAX && refs <= SIZE_MAX
    }

    constructor ()
      ensures Valid() && View() == Init(false, 0, 0, 0).shell
    {
      life, settled, stale, starting := Start, false, false, false;
      pendingWakes, refs, error := 0, 1, None;
    }

    method MarkFailedLocked(copy: Option<string>) returns (first: bool, broadcast: bool)
      requires Valid()
      modifies this
      ensures Valid() && Lawful(old(View()), Section(View(), broadcast)) && Terminal(life)
      ensures Section(View(), broadcast) == MarkFailed(old(View()), copy)
      ensures first == !Terminal(old(life)) == broadcast && !starting
      ensures life == if first then Failed else old(life)
      ensures error == if old(error).None? then copy else old(error)
      ensures settled == old(settled) && stale == old(stale) && pendingWakes == old(pendingWakes) && refs == old(refs)
    {
      first, broadcast := false, false;
      starting := false;
      if life != Stopped && life != Failed {
        settled := false;
        life := Failed;
        first := true;
        broadcast := true;
      }
      if error.None? && copy.Some? {
        error := copy;
      }
    }

    // Everyone waiting is released: their condition holds, for good.
    method SettleLocked() returns (broadcast: bool)
      requires Valid() && Terminal(life)
      modifies this
      ensures Valid() && Lawful(old(View()), Section(View(), broadcast)) && WaitDone(View()) && broadcast
      ensures Section(View(), broadcast) == Settle(old(View()))
      ensures View() == old(View()).(settled := true)
    {
      settled := true;
      broadcast := true;
    }

    // The second section of a completion callback: whether this callback made
    // the terminal transition, and the error text it reports, if it failed.
    method SinkDoneLocked(natural: bool, copy: Option<string>)
      returns (settles: bool, report: Option<string>, broadcast: bool)
      requires Valid()
      modifies this
      ensures Valid() && Lawful(old(View()), Section(View(), broadcast)) && (settles ==> !WaitDone(View()))
      ensures Section(View(), broadcast) == SinkDone(old(View()), natural, copy)
      ensures settles == (old(life) == Running || old(life) == Stopping)
      ensures life == if old(life) == Stopping || (old(life) == Running && natural) then Stopped
                      else if old(life) == Running then Failed else old(life)
      ensures broadcast <==> old(life) == Running && !natural
      ensures error == if broadcast && old(error).None? then copy else old(error)
      ensures settled == old(settled) && stale == old(stale) && starting == old(starting)
      ensures pendingWakes == old(pendingWakes) && refs == old(refs)
      ensures report.Some? <==> settles && life == Failed
      ensures report.Some? && error.Some? ==> report == error
    {
      settles, report, broadcast := false, None, false;
      if life == Stopping {
        settled := false;
        life := Stopped;
        settles := true;
      } else if life == Running && natural {
        settled := false;
        life := Stopped;
        settles := true;
      } else if life == Running {
        if error.None? && copy.Some? {
          error := copy;
        }
        report := if error.Some? then error else Some("actor failed");
        settled := false;
        life := Failed;
        broadcast := true;
        settles := true;
      }
    }

    method StartLocked() returns (status: Status)
      requires Valid()
      modifies this
      ensures Valid() && Lawful(old(View()), Section(View(), false)) && (status == Ok ==> !Admits(View()))
      ensures View() == BeginStart(old(View()))
      ensures status == StateStatus(old(life))
      ensures status == Ok <==> old(life) == Start
      ensures View() == if old(life) == Start then old(View()).(life := Running, starting := true) else old(View())
    {
      status := StateStatus(life);
      if status == Ok {
        starting := true;
        life := Running;
      }
    }

    method RequestStopLocked() returns (closes: bool, broadcast: bool)
      requires Valid()
      modifies this
      ensures Valid() && Lawful(old(View()), Section(View(), broadcast)) && !Admits(View())
      ensures Section(View(), broadcast) == RequestStop(old(View()))
      ensures closes <==> old(life) == Start || old(life) == Running
      ensures old(life) == Running ==> life == Stopping && settled == old(settled) && !broadcast
      ensures old(life) == Start ==> life == Stopped && settled && broadcast
      ensures !closes ==> life == old(life) && settled == old(settled) && !broadcast
      ensures stale == old(stale) && starting == old(starting) && pendingWakes == old(pendingWakes) &&
              refs == old(refs) && error == old(error)
    {
      closes, broadcast := false, false;
      match life {
        case Start =>
          life := Stopped;
          settled := true;
          broadcast := true;
          closes := true;
        case Running =>
          life := Stopping;
          closes := true;
        case _ =>
      }
    }

    method TrySendLocked(valid: bool, mailbox: MailboxStatus, wakes: bool) returns (status: SendStatus, woken: bool)
      requires Valid()
      modifies this
      ensures Valid() && Lawful(old(View()), Section(View(), false))
      ensures View() == TrySend(old(View()), valid, wakes)
      ensures woken == (Admits(old(View())) && valid && wakes)
      ensures status == SendAccepted <==> Admits(old(View())) && valid && mailbox == Accepted
      ensures View() == old(View()).(pendingWakes := old(pendingWakes) + if woken then 1 else 0)
      ensures status == SendStale <==> stale
      ensures !stale && !valid ==> status == SendInvalid
      ensures !stale && valid ==>
                && (status == SendNotStarted <==> life == Start || starting)
                && (status == SendStopping <==> life == Stopping && !starting)
                && (status == SendStopped <==> life == Stopped && !starting)
                && (life == Failed && !starting ==> status == SendFailed)
                && (life == Running && !starting && old(pendingWakes) == SIZE_MAX ==> status == SendFull)
      ensures Admits(old(View())) && valid ==>
                && (status == SendTypeMismatch <==> mailbox == TypeMismatch)
                && (status == SendFull <==> mailbox == MailboxFull)
                && (status == SendFailed <==> mailbox == MailboxClosed || mailbox == MailboxCancelled)
                && (status == SendInvalid <==> mailbox == MailboxOther)
    {
      woken := false;
      if stale {
        status := SendStale;
      } else if !valid {
        status := SendInvalid;
      } else if life == Start || starting {
        status := SendNotStarted;
      } else if life == Stopping {
        status := SendStopping;
      } else if life == Stopped {
        status := SendStopped;
      } else if life == Failed {
        status := SendFailed;
      } else {
        if pendingWakes == SIZE_MAX {
          return SendFull, false;
        }
        woken := wakes;
        if woken {
          pendingWakes := pendingWakes + 1;
        }
        match mailbox {
          case Accepted => status := SendAccepted;
          case TypeMismatch => status := SendTypeMismatch;
          case MailboxFull => status := SendFull;
          case MailboxClosed => status := SendFailed;
          case MailboxCancelled => status := SendFailed;
          case MailboxOther => status := SendInvalid;
        }
      }
    }

    method WakeDoneLocked() returns (broadcast: bool)
      requires Valid() && 0 < pendingWakes
      modifies this
      ensures Valid() && Lawful(old(View()), Section(View(), broadcast)) && pendingWakes == old(pendingWakes) - 1
      ensures Section(View(), broadcast) == WakeDone(old(View()))
      ensures broadcast <==> stale && pendingWakes == 0
      ensures View() == old(View()).(pendingWakes := pendingWakes)
    {
      pendingWakes := pendingWakes - 1;
      broadcast := stale && pendingWakes == 0;
    }

    // From here on no send is admitted and no reference is given out.
    method DestroyLocked()
      requires Valid()
      modifies this
      ensures Valid() && Lawful(old(View()), Section(View(), false)) && !Admits(View()) && Acquire(View()) == View()
      ensures View() == BeginDestroy(old(View()))
      ensures View() == old(View()).(stale := true, life := life)
      ensures life == if old(life) == Start then Stopped else if old(life) == Running then Stopping else old(life)
    {
      stale := true;
      if life == Start {
        life := Stopped;
      } else if life == Running {
        life := Stopping;
      }
    }

    // Everyone waiting is released, whatever the actor was doing.
    method FinishDestroyLocked() returns (broadcast: bool)
      requires Valid()
      modifies this
      ensures Valid() && Lawful(old(View()), Section(View(), broadcast)) && WaitDone(View()) && broadcast
      ensures Section(View(), broadcast) == FinishDestroy(old(View()))
      ensures View() == old(View()).(settled := true, life := if old(life) == Failed then Failed else Stopped)
    {
      if life != Failed {
        life := Stopped;
      }
      settled := true;
      broadcast := true;
    }

    method RetainRef() returns (retained: bool)
      requires Valid()
      modifies this
      ensures Valid() && View() == Retain(old(View()))
      ensures retained <==> 0 < old(refs) < SIZE_MAX
      ensures View() == old(View()).(refs := old(refs) + if retained then 1 else 0)
    {
      var current := refs;
      retained := current != 0 && current != SIZE_MAX;
      if retained {
        refs := current + 1;
      }
    }

    method AcquireRefLocked() returns (retained: bool)
      requires Valid()
      modifies this
      ensures Valid() && View() == Acquire(old(View()))
      ensures retained <==> !stale && 0 < old(refs) < SIZE_MAX
      ensures View() == old(View()).(refs := old(refs) + if retained then 1 else 0)
    {
      retained := false;
      if !stale {
        retained := RetainRef();
      }
    }

    method ReleaseRef() returns (last: bool)
      requires Valid() && 0 < refs
      modifies this
      ensures Valid() && refs == old(refs) - 1
      ensures View() == Release(old(View()))
      ensures View() == old(View()).(refs := old(refs) - 1)
      ensures last <==> refs == 0
    {
      last := refs == 1;
      refs := refs - 1;
    }
  }
}
