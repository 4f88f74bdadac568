/**
  What the actor's history can look like, said step by step and over whole runs:
  which steps move the lifecycle, which settle it, when a send is accepted, and
  which failure's text is kept.
 */
module ActorHistory {
  import opened Common
  import opened Actor
  import opened ActorSafety

  // ---- The shell after a step ----

  // Each step runs one gate-held section, or leaves the shell alone.
  function ShellAfter(s: State, step: Step): Shell
    requires Enabled(s, step)
  {
    var x := s.shell;
    match step
    case StartGate => BeginStart(x)
    case AttachFails(message, memory) => MarkFailed(x, CopyError(message, memory)).shell
    case SubscribeFails(memory) => MarkFailed(x, CopyError("actor could not open Run", memory)).shell
    case StartedGate => x.(starting := false)
    case RefusalMarks(memory) => MarkFailed(x, CopyError("actor could not request Run demand", memory)).shell
    case FailureSettles => if s.owner.first then Settle(x).shell else x
    case StartCloses => Settle(x).shell
    case StopRequested => RequestStop(x).shell
    case ErrorGate(_, message, memory) => MarkFailed(x, CopyError(message, memory)).shell
    case DoneGate(i) =>
      SinkDone(x, s.natural, CopyError("Run completed while Actor was RUNNING", s.sinks[i].copied)).shell
    case CallbackReturns(i) => if s.sinks[i].settles then Settle(x).shell else x
    case RefAcquired(_) => Acquire(x)
    case RefRetained(_) => Retain(x)
    case RefReleased(_) => Release(x)
    case Sends(_, valid, _, wakes) => TrySend(x, valid, wakes)
    case WakeReturns(_) => WakeDone(x).shell
    case DestroyGate => BeginDestroy(x)
    case RuntimeDestroyed => Release(FinishDestroy(x).shell)
    case _ => x
  }

  lemma ShellIsAfter(s: State, step: Step)
    requires Enabled(s, step)
    ensures Apply(s, step).shell == ShellAfter(s, step)
  {
    hide BeginStart, MarkFailed, Settle, RequestStop, SinkDone, Acquire, Retain, Release, TrySend, WakeDone,
         BeginDestroy, FinishDestroy, CopyError, Signal, Admits, AllAway, Leave;
    LeaveShell(s);
  }

  lemma LeaveShell(s: State)
    ensures forall y: Section :: Leave(s, y).shell == y.shell && Leave(s, y).accepted == s.accepted
  {
  }

  // ---- The lifecycle ----

  // Steps that fail an actor which has not ended.
  predicate Fails(step: Step) {
    step.AttachFails? || step.SubscribeFails? || step.RefusalMarks? || step.ErrorGate?
  }

  // Steps that leave the lifecycle alone.
  predicate Steady(step: Step) {
    && !step.StartGate? && !step.StopRequested? && !step.DestroyGate? && !Fails(step)
    && !step.DoneGate? && !step.RuntimeDestroyed?
  }

  // Where each step takes the lifecycle. Only a completed run and the end of destroy
  // reach STOPPED from a started actor; a request only asks for it.
  lemma LifeMoves(s: State, step: Step)
    requires Enabled(s, step)
    ensures var x, y := s.shell.life, Apply(s, step).shell.life;
            && (step.StartGate? ==> y == if x.Start? then Running else x)
            && (step.StopRequested? || step.DestroyGate? ==>
                  y == if x.Start? then Stopped else if x.Running? then Stopping else x)
            && (Fails(step) ==> y == if x.Stopped? then Stopped else Failed)
            && (step.DoneGate? ==>
                  y == if x.Stopping? then Stopped else if x.Running? then if s.natural then Stopped else Failed else x)
            && (step.RuntimeDestroyed? ==> y == if x.Failed? then Failed else Stopped)
            && (Steady(step) ==> y == x)
  {
    hide Apply, Enabled, CopyError, Admits;
    ShellIsAfter(s, step);
  }

  // A started actor never goes back, and one that is ending never runs again.
  lemma {:induction false} NeverRestarts(run: seq<State>, i: nat, j: nat)
    requires Behavior(run) && i <= j < |run|
    ensures !run[i].shell.life.Start? ==> !run[j].shell.life.Start?
    ensures !run[i].shell.life.Start? && !run[i].shell.life.Running? ==> !run[j].shell.life.Running?
    decreases j - i
  {
    hide Enabled, Apply, Init;
    if i < j {
      NeverRestarts(run, i, j - 1);
      assert Next(run[j - 1], run[j]);
      var step :| Enabled(run[j - 1], step) && run[j] == Apply(run[j - 1], step);
      LifeMoves(run[j - 1], step);
    }
  }

  // ---- Settlement ----

  // The step lets the waiters of a started actor go: the callback that owes settlement
  // returns, the owner settles its own failure, start has closed its run, or the
  // runtime is gone.
  predicate Settles(s: State, step: Step) {
    || (step.CallbackReturns? && step.sink < |s.sinks| && s.sinks[step.sink] == InCallback(true))
    || (step.FailureSettles? && s.owner.MarkedFailed? && s.owner.first)
    || step.StartCloses?
    || step.RuntimeDestroyed?
  }

  // These steps settle, and no other does, but for a stop before the start.
  lemma SettledExactlyBy(s: State, step: Step)
    requires Enabled(s, step) && !s.shell.settled
    ensures Apply(s, step).shell.settled <==> Settles(s, step) || (step.StopRequested? && s.shell.life.Start?)
  {
    hide Apply, Enabled, CopyError, Admits;
    if step.FailureSettles? || step.CallbackReturns? { OwnerAndSink(s, step); }
    ShellIsAfter(s, step);
  }

  lemma OwnerAndSink(s: State, step: Step)
    requires Enabled(s, step)
    ensures step.FailureSettles? ==> s.owner.MarkedFailed?
    ensures step.CallbackReturns? ==> step.sink < |s.sinks| && s.sinks[step.sink].InCallback?
  {
  }

  ghost predicate SettlesAt(run: seq<State>, m: nat) {
    0 < m < |run| && SettlesFrom(run[m - 1], run[m])
  }

  ghost predicate SettlesFrom(s: State, t: State) {
    exists step :: Enabled(s, step) && t == Apply(s, step) && Settles(s, step)
  }

  // An actor that was running is settled only by one of these.
  lemma {:induction false} SettledOnlyBy(run: seq<State>, j: nat, k: nat)
    requires Behavior(run) && j < k < |run| && run[j].shell.life.Running? && run[k].shell.settled
    ensures exists m :: j < m <= k && SettlesAt(run, m)
    decreases k
  {
    hide Enabled, Apply, Init, Inv, Settles;
    if k - 1 == j {
      RunsKeepInvariant(run, j);
      InvSettled(run[j]);
    }
    if run[k - 1].shell.settled {
      SettledOnlyBy(run, j, k - 1);
      var m :| j < m <= k - 1 && SettlesAt(run, m);
    } else {
      assert Next(run[k - 1], run[k]);
      var step :| Enabled(run[k - 1], step) && run[k] == Apply(run[k - 1], step);
      SettledExactlyBy(run[k - 1], step);
      NeverRestarts(run, j, k - 1);
      assert SettlesFrom(run[k - 1], run[k]) && SettlesAt(run, k);
    }
  }

  // A waiter on an actor that was running returns only after one of these.
  lemma WaitFollowsSettlement(run: seq<State>, j: nat, k: nat, w: nat)
    requires Behavior(run) && j <= k < |run| && run[j].shell.life.Running?
    requires w < |run[k].waiters| && run[k].waiters[w].Returned?
    ensures exists m :: j < m <= k && SettlesAt(run, m)
  {
    hide Behavior, SettlesAt;
    RunsKeepInvariant(run, k);
    assert WaitDone(run[k].shell);
    SettledOnlyBy(run, j, k);
  }

  // ---- Sends ----

  // A send is accepted exactly when it is well formed, the runtime takes it, and the
  // actor is serving: running, started through, not being destroyed, its wakes countable.
  lemma AcceptedExactlyWhileServing(run: seq<State>, j: nat, step: Step)
    requires Behavior(run) && j < |run| && Enabled(run[j], step)
    ensures var s, t := run[j], Apply(run[j], step);
            t.accepted == s.accepted +
              if step.Sends? && step.valid && step.accepts && s.shell.life.Running? && !s.shell.stale &&
                 !s.owner.Subscribing? && s.shell.pendingWakes < SIZE_MAX then 1 else 0
  {
    hide Behavior, Wakers, Holders, Leave, Owed, Waiting, Closed, Settled, Barrier;
    RunsKeepInvariant(run, j);
    LeaveShell(run[j]);
  }

  // Once an actor is asked to stop, or has ended, no send is accepted again.
  lemma {:induction false} NothingAcceptedAfterStop(run: seq<State>, i: nat, j: nat)
    requires Behavior(run) && i <= j < |run| && !run[i].shell.life.Start? && !run[i].shell.life.Running?
    ensures run[j].accepted == run[i].accepted
    decreases j - i
  {
    hide Enabled, Apply, Init;
    if i < j {
      NothingAcceptedAfterStop(run, i, j - 1);
      assert Next(run[j - 1], run[j]);
      var step :| Enabled(run[j - 1], step) && run[j] == Apply(run[j - 1], step);
      NeverRestarts(run, i, j - 1);
      AcceptedExactlyWhileServing(run, j - 1, step);
    }
  }

  // ---- A refused start ----

  // Start has been refused demand and has not closed its run yet.
  predicate Unclosed(o: Owner) {
    o.Refused? || (o.MarkedFailed? && o.closes) || o.Closing?
  }

  lemma UnclosedUntilClosed(s: State, step: Step)
    requires Enabled(s, step) && Unclosed(s.owner)
    ensures Unclosed(Apply(s, step).owner) || (Apply(s, step).owner.Free? && !Apply(s, step).open)
  {
  }

  // A start that was refused demand gives the owner back only with its run closed.
  lemma {:induction false} RefusedStartCloses(run: seq<State>, j: nat, k: nat)
    requires Behavior(run) && j <= k < |run| && Unclosed(run[j].owner)
    ensures Unclosed(run[k].owner) || exists m :: j < m <= k && run[m].owner.Free? && !run[m].open
  {
    hide Enabled, Apply, Init, Unclosed;
    if j < k {
      RefusedStartCloses(run, j, k - 1);
      if Unclosed(run[k - 1].owner) {
        assert Next(run[k - 1], run[k]);
        var step :| Enabled(run[k - 1], step) && run[k] == Apply(run[k - 1], step);
        UnclosedUntilClosed(run[k - 1], step);
      }
    }
  }

  // ---- The error text ----

  // The text a failing step brings, if it could be copied.
  function Text(step: Step): Option<string>
    requires Fails(step)
  {
    match step
    case AttachFails(message, memory) => CopyError(message, memory)
    case SubscribeFails(memory) => CopyError("actor could not open Run", memory)
    case RefusalMarks(memory) => CopyError("actor could not request Run demand", memory)
    case ErrorGate(_, message, memory) => CopyError(message, memory)
  }

  // The first failure whose text could be copied gives the actor its error for good.
  lemma FirstFailureTextStands(run: seq<State>, j: nat, step: Step, k: nat)
    requires Behavior(run) && j < k < |run| && Enabled(run[j], step) && run[j + 1] == Apply(run[j], step) && Fails(step)
    ensures run[j].shell.error.None? && Text(step).Some? ==> run[k].shell.error == Text(step)
    ensures run[j].shell.error.Some? ==> run[k].shell.error == run[j].shell.error
  {
    HistoryStands(run, j, k);
    HistoryStands(run, j + 1, k);
  }

  // A run that completes under a running actor which may not complete fails it, with
  // the text the callback copied.
  lemma UnexpectedCompletionText(run: seq<State>, j: nat, i: nat, k: nat)
    requires Behavior(run) && j < k < |run| && Enabled(run[j], DoneGate(i)) && run[j + 1] == Apply(run[j], DoneGate(i))
    requires run[j].shell.life.Running? && !run[j].natural && run[j].shell.error.None? && run[j].sinks[i].copied
    ensures run[k].shell.life.Failed? && run[k].shell.error == Some("Run completed while Actor was RUNNING")
  {
    HistoryStands(run, j + 1, k);
  }
}
