/**
  What every interleaving of the actor's threads keeps: the destruction barrier,
  single-shot settlement, no lost wakeups, and absorbing terminal states.
 */
module ActorSafety {
  import opened Common
  import opened Actor

  // ---- Runs ----

  ghost predicate Next(s: State, t: State) {
    exists step :: Enabled(s, step) && t == Apply(s, step)
  }

  ghost predicate Behavior(run: seq<State>) {
    && |run| > 0
    && (exists natural, senders, sinks, waiters :: run[0] == Init(natural, senders, sinks, waiters))
    && (forall i, j :: 0 <= i < |run| && j == i + 1 && j < |run| ==> Next(run[i], run[j]))
  }

  // ---- Counting senders ----

  function Wakers(senders: seq<Sender>): nat {
    if senders == [] then 0 else (if senders[0].Waking? then 1 else 0) + Wakers(senders[1..])
  }

  function Holders(senders: seq<Sender>): nat {
    if senders == [] then 0 else (if senders[0].NoRef? then 0 else 1) + Holders(senders[1..])
  }

  lemma {:induction false} CountsUpdate(senders: seq<Sender>, i: nat, x: Sender)
    requires i < |senders|
    ensures Wakers(senders[i := x]) ==
            Wakers(senders) + (if x.Waking? then 1 else 0) - (if senders[i].Waking? then 1 else 0)
    ensures Holders(senders[i := x]) ==
            Holders(senders) + (if x.NoRef? then 0 else 1) - (if senders[i].NoRef? then 0 else 1)
  {
    if i == 0 {
      assert senders[0 := x][1..] == senders[1..];
    } else {
      assert senders[i := x][1..] == senders[1..][i - 1 := x];
      CountsUpdate(senders[1..], i - 1, x);
    }
  }

  lemma {:induction false} CountsSee(senders: seq<Sender>, i: nat)
    requires i < |senders|
    ensures senders[i].Waking? ==> Wakers(senders) > 0
    ensures !senders[i].NoRef? ==> Holders(senders) > 0
  {
    if i != 0 {
      CountsSee(senders[1..], i - 1);
    }
  }

  lemma {:induction false} CountsIdle(senders: nat)
    ensures Wakers(seq(senders, _ => NoRef)) == 0
    ensures Holders(seq(senders, _ => NoRef)) == 0
  {
    if senders != 0 {
      assert seq(senders, _ => NoRef)[1..] == seq(senders - 1, _ => NoRef);
      CountsIdle(senders - 1);
    }
  }

  // ---- The invariant, part by part ----

  predicate Counts(x: Shell, senders: seq<Sender>, owner: Owner, freed: bool) {
    && x.pendingWakes == Wakers(senders) <= SIZE_MAX
    && x.refs == Holders(senders) + (if owner.Destroyed? then 0 else 1) <= SIZE_MAX
    && (freed <==> x.refs == 0)
  }

  predicate Barrier(x: Shell, owner: Owner) {
    && (x.stale <==> DestroyBegun(owner))
    && (owner.DestroyAsleep? ==> x.pendingWakes != 0)
    && (WakesDrained(owner) ==> x.pendingWakes == 0)
  }

  predicate Settled(x: Shell, owner: Owner) {
    && (x.settled ==> Terminal(x.life))
    && (owner.MarkedFailed? || owner.Closing? ==> Terminal(x.life))
    && (owner.MarkedFailed? && owner.first ==> !x.settled)
  }

  // Start is under way exactly until the owner has opened the run, or a failure ends it.
  predicate Starting(x: Shell, owner: Owner) {
    && (x.starting ==> owner.Subscribing?)
    && (owner.Subscribing? && x.life.Running? ==> x.starting)
  }

  predicate Closed(sinks: seq<Sink>, owner: Owner, open: bool) {
    && (!open ==> AllAway(sinks))
    && (RuntimeGone(owner) ==> !open)
  }

  // A callback that owes settlement is the only one who does.
  predicate Owed(x: Shell, sinks: seq<Sink>, owner: Owner) {
    forall i :: 0 <= i < |sinks| && sinks[i] == InCallback(true) ==>
      && Terminal(x.life)
      && !x.settled
      && !(owner.MarkedFailed? && owner.first)
      && (forall j :: 0 <= j < |sinks| && sinks[j] == InCallback(true) ==> j == i)
  }

  predicate Waiting(x: Shell, waiters: seq<Waiter>) {
    forall i :: 0 <= i < |waiters| ==>
      && (waiters[i].Asleep? ==> !WaitDone(x))
      && (waiters[i].Returned? ==> WaitDone(x) && waiters[i].seen == x.life)
  }

  predicate Inv(s: State) {
    && Counts(s.shell, s.senders, s.owner, s.freed)
    && Barrier(s.shell, s.owner)
    && Settled(s.shell, s.owner)
    && Starting(s.shell, s.owner)
    && Closed(s.sinks, s.owner, s.open)
    && Owed(s.shell, s.sinks, s.owner)
    && Waiting(s.shell, s.waiters)
  }

  lemma InitHolds(natural: bool, senders: nat, sinks: nat, waiters: nat)
    ensures Inv(Init(natural, senders, sinks, waiters))
  {
    CountsIdle(senders);
  }

  // ---- Gate-held sections ----

  lemma LeaveWaits(s: State, y: Section)
    requires Waiting(s.shell, s.waiters)
    requires Lawful(s.shell, y)
    ensures Waiting(y.shell, Leave(s, y).waiters)
  {
  }

  lemma OwnerFailsKeeps(s: State, message: string, memory: bool, closes: bool)
    requires Inv(s) && (s.owner.Subscribing? || s.owner.Refused?)
    ensures Inv(OwnerFails(s, message, memory, closes))
  {
    hide Wakers, Holders;
    LeaveWaits(s, MarkFailed(s.shell, CopyError(message, memory)));
  }

  lemma SubscribeFailsKeeps(s: State, memory: bool)
    requires Inv(s) && Enabled(s, SubscribeFails(memory))
    ensures Inv(Apply(s, SubscribeFails(memory)))
  {
    hide Wakers, Holders, Counts, Barrier, Settled, Waiting;
    OwnerFailsKeeps(s, "actor could not open Run", memory, false);
  }

  lemma OwnerSettlesKeeps(s: State)
    requires Inv(s) && s.owner.MarkedFailed?
    ensures Inv(OwnerSettles(s))
  {
    hide Wakers, Holders;
    LeaveWaits(s, Settle(s.shell));
  }

  lemma StartClosesKeeps(s: State)
    requires Inv(s) && Enabled(s, StartCloses)
    ensures Inv(Apply(s, StartCloses))
  {
    hide Wakers, Holders;
    LeaveWaits(s, Settle(s.shell));
  }

  lemma StopRequestedKeeps(s: State)
    requires Inv(s) && Enabled(s, StopRequested)
    ensures Inv(Apply(s, StopRequested))
  {
    hide Wakers, Holders;
    LeaveWaits(s, RequestStop(s.shell));
  }

  lemma SinkFailsKeeps(s: State, i: nat, copy: Option<string>)
    requires Inv(s) && i < |s.sinks| && s.open && s.sinks[i].Away?
    ensures Inv(SinkFails(s, i, copy))
  {
    hide Wakers, Holders;
    LeaveWaits(s, MarkFailed(s.shell, copy));
  }

  lemma SinkCompletesKeeps(s: State, i: nat)
    requires Inv(s) && i < |s.sinks| && s.sinks[i].DoneRead?
    ensures Inv(SinkCompletes(s, i))
  {
    hide Wakers, Holders;
    var copy := CopyError("Run completed while Actor was RUNNING", s.sinks[i].copied);
    LeaveWaits(s, SinkDone(s.shell, s.natural, copy));
  }

  lemma SinkReturnsKeeps(s: State, i: nat)
    requires Inv(s) && i < |s.sinks| && s.sinks[i].InCallback?
    ensures Inv(SinkReturns(s, i))
  {
    hide Wakers, Holders;
    LeaveWaits(s, Settle(s.shell));
  }

  lemma WaitsKeeps(s: State, i: nat)
    requires Inv(s) && i < |s.waiters|
    requires s.waiters[i].Outside? || s.waiters[i].Asleep? || s.waiters[i].Signalled?
    ensures Inv(Waits(s, i))
  {
    hide Wakers, Holders;
  }

  lemma TakesRefKeeps(s: State, i: nat)
    requires Inv(s) && i < |s.senders| && s.senders[i].NoRef?
    requires s.shell.refs > 0
    ensures Inv(TakesRef(s, i, Retain(s.shell)))
  {
    hide Wakers, Holders;
    CountsUpdate(s.senders, i, Ready);
  }

  lemma RefTakenKeeps(s: State, step: Step)
    requires Inv(s) && Enabled(s, step) && (step.RefAcquired? || step.RefRetained?)
    ensures Inv(Apply(s, step))
  {
    hide Wakers, Holders, Barrier, Settled, Closed, Owed, Waiting;
    if step.RefRetained? {
      var j :| 0 <= j < |s.senders| && !s.senders[j].NoRef?;
      CountsSee(s.senders, j);
    }
    TakesRefKeeps(s, step.sender);
  }

  lemma ReleasesKeeps(s: State, i: nat)
    requires Inv(s) && i < |s.senders| && s.senders[i].Ready?
    ensures Inv(Apply(s, RefReleased(i)))
  {
    hide Wakers, Holders;
    CountsSee(s.senders, i);
    CountsUpdate(s.senders, i, NoRef);
  }

  lemma SendingKeeps(s: State, i: nat, valid: bool, accepts: bool, wakes: bool)
    requires Inv(s) && i < |s.senders| && s.senders[i].Ready?
    ensures Inv(Sending(s, i, valid, accepts, wakes))
  {
    hide Wakers, Holders;
    CountsUpdate(s.senders, i, Waking);
  }

  lemma WakeReturnedKeeps(s: State, i: nat)
    requires Inv(s) && i < |s.senders| && s.senders[i].Waking?
    ensures Inv(WakeReturned(s, i))
  {
    hide Wakers, Holders;
    CountsSee(s.senders, i);
    CountsUpdate(s.senders, i, Ready);
    LeaveWaits(s, WakeDone(s.shell));
  }

  lemma DestroyGateKeeps(s: State)
    requires Inv(s) && Enabled(s, DestroyGate)
    ensures Inv(Apply(s, DestroyGate))
  {
    hide Wakers, Holders;
    LeaveWaits(s, Section(BeginDestroy(s.shell), false));
  }

  lemma RuntimeDestroyedKeeps(s: State)
    requires Inv(s) && Enabled(s, RuntimeDestroyed)
    ensures Inv(Apply(s, RuntimeDestroyed))
  {
    hide Wakers, Holders;
    LeaveWaits(s, FinishDestroy(s.shell));
  }

  // ---- Every step ----

  lemma OwnerStepKeeps(s: State, step: Step)
    requires Inv(s) && Enabled(s, step)
    requires step.StartGate? || step.SubscribeOpens? || step.StartedGate? || step.DemandGranted? ||
             step.DemandRefused? || step.DestroyWakes? || step.RunCloses? || step.DoneReads?
    ensures Inv(Apply(s, step))
  {
    hide Wakers, Holders;
  }

  lemma StepKeeps(s: State, step: Step)
    requires Inv(s) && Enabled(s, step)
    ensures Inv(Apply(s, step))
  {
    hide Counts, Barrier, Settled, Closed, Owed, Waiting, OwnerFails, OwnerSettles, SinkFails, SinkCompletes,
         SinkReturns, Waits, Sending, WakeReturned, Leave, Wakers, Holders;
    match step
    case AttachFails(message, memory) => OwnerFailsKeeps(s, message, memory, false);
    case SubscribeFails(memory) => SubscribeFailsKeeps(s, memory);
    case RefusalMarks(memory) => OwnerFailsKeeps(s, "actor could not request Run demand", memory, true);
    case FailureSettles => OwnerSettlesKeeps(s);
    case StartCloses => StartClosesKeeps(s);
    case StopRequested => StopRequestedKeeps(s);
    case ErrorGate(i, message, memory) => SinkFailsKeeps(s, i, CopyError(message, memory));
    case DoneGate(i) => SinkCompletesKeeps(s, i);
    case CallbackReturns(i) => SinkReturnsKeeps(s, i);
    case WaitEnters(i) => WaitsKeeps(s, i);
    case WaitWakes(i) => WaitsKeeps(s, i);
    case RefAcquired(i) => RefTakenKeeps(s, step);
    case RefRetained(i) => RefTakenKeeps(s, step);
    case RefReleased(i) => ReleasesKeeps(s, i);
    case Sends(i, valid, accepts, wakes) => SendingKeeps(s, i, valid, accepts, wakes);
    case WakeReturns(i) => WakeReturnedKeeps(s, i);
    case DestroyGate => DestroyGateKeeps(s);
    case RuntimeDestroyed => RuntimeDestroyedKeeps(s);
    case _ => OwnerStepKeeps(s, step);
  }

  lemma {:induction false} RunsKeepInvariant(run: seq<State>, k: nat)
    requires Behavior(run) && k < |run|
    ensures Inv(run[k])
  {
    hide Inv, Enabled, Apply, Init;
    if k == 0 {
      var natural, senders, sinks, waiters :| run[0] == Init(natural, senders, sinks, waiters);
      InitHolds(natural, senders, sinks, waiters);
    } else {
      RunsKeepInvariant(run, k - 1);
      assert Next(run[k - 1], run[k]);
      var step :| Enabled(run[k - 1], step) && run[k] == Apply(run[k - 1], step);
      StepKeeps(run[k - 1], step);
    }
  }

  // ---- What never changes back ----

  predicate Stands(s: State, t: State) {
    && (Terminal(s.shell.life) ==> t.shell.life == s.shell.life)
    && (s.shell.error.Some? ==> t.shell.error == s.shell.error)
    && (s.shell.settled ==> t.shell.settled)
    && (s.shell.stale ==> t.shell.stale && t.accepted == s.accepted)
    && (s.freed ==> t.freed)
    && |s.sinks| == |t.sinks|
  }

  lemma LeaveStands(s: State, y: Section)
    requires Lawful(s.shell, y)
    ensures Stands(s, Leave(s, y))
  {
  }

  // The sections are lawful wherever settlement implies a terminal state.
  lemma SectionsAreLawful(x: Shell, natural: bool, copy: Option<string>)
    requires x.settled ==> Terminal(x.life)
    ensures Lawful(x, MarkFailed(x, copy)) && Lawful(x, SinkDone(x, natural, copy))
    ensures Lawful(x, RequestStop(x)) && Lawful(x, WakeDone(x)) && Lawful(x, FinishDestroy(x))
    ensures Terminal(x.life) ==> Lawful(x, Settle(x))
  {
  }

  lemma OwnerFailsStands(s: State, message: string, memory: bool, closes: bool)
    requires Settled(s.shell, s.owner)
    ensures Stands(s, OwnerFails(s, message, memory, closes))
  {
    hide Leave, Lawful;
    SectionsAreLawful(s.shell, false, CopyError(message, memory));
    LeaveStands(s, MarkFailed(s.shell, CopyError(message, memory)));
  }

  lemma OwnerSettlesStands(s: State)
    requires Settled(s.shell, s.owner) && s.owner.MarkedFailed?
    ensures Stands(s, OwnerSettles(s))
  {
    hide Leave, Lawful;
    SectionsAreLawful(s.shell, false, None);
    LeaveStands(s, Settle(s.shell));
  }

  lemma SinkFailsStands(s: State, i: nat, copy: Option<string>)
    requires Settled(s.shell, s.owner) && i < |s.sinks|
    ensures Stands(s, SinkFails(s, i, copy))
  {
    hide Leave, Lawful;
    SectionsAreLawful(s.shell, false, copy);
    LeaveStands(s, MarkFailed(s.shell, copy));
  }

  lemma SinkCompletesStands(s: State, i: nat)
    requires Settled(s.shell, s.owner) && i < |s.sinks| && s.sinks[i].DoneRead?
    ensures Stands(s, SinkCompletes(s, i))
  {
    hide Leave, Lawful;
    var copy := CopyError("Run completed while Actor was RUNNING", s.sinks[i].copied);
    SectionsAreLawful(s.shell, s.natural, copy);
    LeaveStands(s, SinkDone(s.shell, s.natural, copy));
  }

  lemma SinkReturnsStands(s: State, i: nat)
    requires Settled(s.shell, s.owner) && i < |s.sinks| && s.sinks[i].InCallback?
    requires s.sinks[i].settles ==> Terminal(s.shell.life)
    ensures Stands(s, SinkReturns(s, i))
  {
    hide Leave, Lawful;
    SectionsAreLawful(s.shell, false, None);
    if s.sinks[i].settles {
      LeaveStands(s, Settle(s.shell));
    }
  }

  // The remaining sections that leave with a broadcast, or may.
  lemma OthersStand(s: State, step: Step)
    requires Settled(s.shell, s.owner) && Enabled(s, step)
    requires step.StartCloses? || step.StopRequested? || step.WakeReturns? || step.RuntimeDestroyed?
    ensures Stands(s, Apply(s, step))
  {
    hide Leave, Lawful, Settle, RequestStop, WakeDone, FinishDestroy;
    SectionsAreLawful(s.shell, false, None);
    match step
    case StartCloses => LeaveStands(s, Settle(s.shell));
    case StopRequested => LeaveStands(s, RequestStop(s.shell));
    case WakeReturns(i) => LeaveStands(s, WakeDone(s.shell));
    case _ => LeaveStands(s, FinishDestroy(s.shell));
  }

  // The sections that change fields without leaving through a broadcast.
  lemma PlainStands(s: State, step: Step)
    requires Settled(s.shell, s.owner) && Enabled(s, step)
    requires step.StartGate? || step.StartedGate? || step.DestroyGate? || step.Sends? ||
             step.RefAcquired? || step.RefRetained? || step.RefReleased?
    ensures Stands(s, Apply(s, step))
  {
  }

  lemma StepStands(s: State, step: Step)
    requires Settled(s.shell, s.owner) && Owed(s.shell, s.sinks, s.owner) && Enabled(s, step)
    ensures Stands(s, Apply(s, step))
  {
    hide OwnerFails, OwnerSettles, SinkFails, SinkCompletes, SinkReturns, Leave, Sending, WakeReturned, TakesRef,
         DropsRef, BeginStart, BeginDestroy, FinishDestroy, RequestStop, Settle, Settled;
    match step
    case AttachFails(message, memory) => OwnerFailsStands(s, message, memory, false);
    case SubscribeFails(memory) => OwnerFailsStands(s, "actor could not open Run", memory, false);
    case RefusalMarks(memory) => OwnerFailsStands(s, "actor could not request Run demand", memory, true);
    case FailureSettles => OwnerSettlesStands(s);
    case ErrorGate(i, message, memory) => SinkFailsStands(s, i, CopyError(message, memory));
    case DoneGate(i) => SinkCompletesStands(s, i);
    case CallbackReturns(i) => SinkReturnsStands(s, i);
    case StartCloses => OthersStand(s, step);
    case StopRequested => OthersStand(s, step);
    case WakeReturns(_) => OthersStand(s, step);
    case RuntimeDestroyed => OthersStand(s, step);
    case StartGate => PlainStands(s, step);
    case StartedGate => PlainStands(s, step);
    case DestroyGate => PlainStands(s, step);
    case Sends(_, _, _, _) => PlainStands(s, step);
    case RefAcquired(_) => PlainStands(s, step);
    case RefRetained(_) => PlainStands(s, step);
    case RefReleased(_) => PlainStands(s, step);
    case _ =>
  }

  // Terminal states absorb, the first stored error stays, settlement stays, and
  // once the shell is stale no send is ever accepted again.
  lemma {:induction false} HistoryStands(run: seq<State>, i: nat, j: nat)
    requires Behavior(run) && i <= j < |run|
    ensures Stands(run[i], run[j])
    decreases j - i
  {
    hide Enabled, Apply, Init, Settled, Owed, Inv;
    if i < j {
      HistoryStands(run, i, j - 1);
      RunsKeepInvariant(run, j - 1);
      InvSettled(run[j - 1]);
      assert Next(run[j - 1], run[j]);
      var step :| Enabled(run[j - 1], step) && run[j] == Apply(run[j - 1], step);
      StepStands(run[j - 1], step);
    }
  }

  lemma InvSettled(s: State)
    requires Inv(s)
    ensures Settled(s.shell, s.owner) && Owed(s.shell, s.sinks, s.owner)
  {
  }

  // ---- The destruction barrier ----

  lemma {:induction false} NoWakers(senders: seq<Sender>)
    requires Wakers(senders) == 0
    ensures forall i :: 0 <= i < |senders| ==> !senders[i].Waking?
  {
    forall i | 0 <= i < |senders| ensures !senders[i].Waking? {
      CountsSee(senders, i);
    }
  }

  lemma DestructionBarrier(run: seq<State>, k: nat)
    requires Behavior(run) && k < |run|
    ensures run[k].shell.pendingWakes == Wakers(run[k].senders)
    ensures RuntimeGone(run[k].owner) ==>
              forall i :: 0 <= i < |run[k].senders| ==> !run[k].senders[i].Waking?
    ensures run[k].owner.DestroyAsleep? ==>
              run[k].shell.stale && exists i :: 0 <= i < |run[k].senders| && run[k].senders[i].Waking?
  {
    hide Behavior, Enabled, Apply;
    RunsKeepInvariant(run, k);
    var senders := run[k].senders;
    if Wakers(senders) == 0 {
      NoWakers(senders);
    } else {
      SomeWaker(senders);
    }
  }

  lemma {:induction false} SomeWaker(senders: seq<Sender>)
    requires Wakers(senders) > 0
    ensures exists i :: 0 <= i < |senders| && senders[i].Waking?
  {
    if !senders[0].Waking? {
      SomeWaker(senders[1..]);
      var i :| 0 <= i < |senders[1..]| && senders[1..][i].Waking?;
      assert senders[i + 1].Waking?;
    }
  }

  // The shell is freed exactly when the owner is done and nobody holds a
  // reference, so no sender ever touches a freed shell.
  lemma FreedExactlyWhenUnused(run: seq<State>, k: nat)
    requires Behavior(run) && k < |run|
    ensures run[k].freed <==>
              run[k].owner.Destroyed? && forall i :: 0 <= i < |run[k].senders| ==> run[k].senders[i].NoRef?
  {
    hide Behavior, Enabled, Apply;
    RunsKeepInvariant(run, k);
    var senders := run[k].senders;
    if Holders(senders) == 0 {
      forall i | 0 <= i < |senders| ensures senders[i].NoRef? {
        CountsSee(senders, i);
      }
    } else {
      SomeHolder(senders);
    }
  }

  lemma {:induction false} SomeHolder(senders: seq<Sender>)
    requires Holders(senders) > 0
    ensures exists i :: 0 <= i < |senders| && !senders[i].NoRef?
  {
    if senders[0].NoRef? {
      SomeHolder(senders[1..]);
      var i :| 0 <= i < |senders[1..]| && !senders[1..][i].NoRef?;
      assert !senders[i + 1].NoRef?;
    }
  }

  // ---- Settlement ----

  // A waiter sleeps only while its condition is false, and what it returns is
  // the state the actor keeps.
  lemma WaitersAreNotLost(run: seq<State>, k: nat, w: nat)
    requires Behavior(run) && k < |run| && w < |run[k].waiters|
    ensures run[k].waiters[w].Asleep? ==> !(Terminal(run[k].shell.life) && run[k].shell.settled)
    ensures run[k].waiters[w].Returned? ==> forall j :: k <= j < |run| ==> run[j].shell.life == run[k].waiters[w].seen
  {
    hide Behavior, Enabled, Apply;
    RunsKeepInvariant(run, k);
    forall j | k <= j < |run| ensures run[k].waiters[w].Returned? ==> run[j].shell.life == run[k].waiters[w].seen {
      HistoryStands(run, k, j);
    }
  }

  predicate BySink(step: Step, i: nat) {
    (step.ErrorGate? || step.DoneGate?) && step.sink == i
  }

  lemma SinkOwes(s: State, step: Step, i: nat)
    requires Enabled(s, step) && BySink(step, i)
    requires !Terminal(s.shell.life) && Terminal(Apply(s, step).shell.life)
    ensures i < |s.sinks| && Apply(s, step).sinks == s.sinks[i := InCallback(true)]
  {
  }

  lemma {:induction false} CallbackReturned(run: seq<State>, i: nat, from: nat, k: nat) returns (m: nat)
    requires Behavior(run) && from <= k < |run|
    requires i < |run[from].sinks| && run[from].sinks[i] == InCallback(true)
    requires run[k].shell.settled
    ensures from < m <= k && i < |run[m - 1].sinks| && i < |run[m].sinks|
    ensures run[m - 1].sinks[i] == InCallback(true) && run[m].sinks[i] != InCallback(true)
    decreases k - from
  {
    hide Enabled, Apply, Init;
    RunsKeepInvariant(run, from);
    assert !run[from].shell.settled;
    HistoryStands(run, from, from + 1);
    if run[from + 1].sinks[i] == InCallback(true) {
      m := CallbackReturned(run, i, from + 1, k);
    } else {
      m := from + 1;
    }
  }

  // When a callback makes the terminal transition, wait returns only after that
  // callback has returned.
  lemma WaitFollowsCallback(run: seq<State>, j: nat, step: Step, i: nat, k: nat, w: nat)
    requires Behavior(run) && j + 1 < |run| && k < |run|
    requires Enabled(run[j], step) && run[j + 1] == Apply(run[j], step) && BySink(step, i)
    requires !Terminal(run[j].shell.life) && Terminal(run[j + 1].shell.life)
    requires w < |run[k].waiters| && run[k].waiters[w].Returned?
    ensures exists m :: j + 1 < m <= k && Returns(run, m, i)
  {
    hide Enabled, Apply, Init, Behavior;
    SinkOwes(run[j], step, i);
    RunsKeepInvariant(run, k);
    RunsKeepInvariant(run, j + 1);
    assert run[j + 1].sinks[i] == InCallback(true);
    assert !run[j + 1].shell.settled;
    assert run[k].shell.settled;
    if k <= j + 1 {
      HistoryStands(run, k, j + 1);
      assert false;
    }
    var m := CallbackReturned(run, i, j + 1, k);
    assert Returns(run, m, i);
  }

  // At step m the callback that owed settlement ends.
  predicate Returns(run: seq<State>, m: nat, i: nat) {
    && 0 < m < |run|
    && i < |run[m - 1].sinks| && i < |run[m].sinks|
    && run[m - 1].sinks[i] == InCallback(true)
    && run[m].sinks[i] != InCallback(true)
  }
}
