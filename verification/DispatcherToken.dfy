/**
  How long a worker keeps the serial token, over every run: it gives it up after a
  full batch of messages or on an empty queue, never later and never sooner, and to
  another worker if one is there.
 */
module DispatcherToken {
  import opened Common
  import opened Dispatcher
  import opened DispatcherSafety

  // What the token's holder has counted since it was elected.
  function LeaderHeld(s: State): nat {
    if s.leader.Some? && s.leader.value < |s.workers| then s.workers[s.leader.value].held else 0
  }

  // Only the leader counts, and never up to a full batch.
  ghost predicate Token(c: Config, s: State) {
    && (forall i :: 0 <= i < |s.workers| ==> Counted(c, s, i, s.workers[i]))
    && (s.leader.Some? ==> s.leader.value < |s.workers| && s.lastLeader == s.leader.value)
  }

  ghost predicate Counted(c: Config, s: State, i: int, w: Worker) {
    w.held < c.batch && (w.held > 0 ==> s.leader == Some(i))
  }

  // ---- What leaves the token alone ----

  ghost predicate SameToken(s: State, t: State) {
    && |s.workers| == |t.workers| && (forall i :: 0 <= i < |s.workers| ==> t.workers[i].held == s.workers[i].held)
    && t.leader == s.leader && t.lastLeader == s.lastLeader && t.handoffs == s.handoffs
  }

  lemma SameTokenKeeps(c: Config, s: State, t: State)
    requires Token(c, s) && SameToken(s, t)
    ensures Token(c, t) && LeaderHeld(t) == LeaderHeld(s)
  {
    forall i | 0 <= i < |t.workers| ensures Counted(c, t, i, t.workers[i]) {
      assert Counted(c, s, i, s.workers[i]);
    }
  }

  lemma NotifySame(c: Config, s: State)
    requires s.leader.Some? ==> s.leader.value < |s.workers|
    ensures SameToken(s, NotifyLeader(c, s)) && NotifyLeader(c, s).settled == s.settled
  {
  }

  // The top of the loop, in serial mode: a claim, a wait or an exit.
  lemma LoopTopSame(c: Config, s: State, w: nat)
    requires InvAt(c, s, Some(w)) && w < |s.workers| && c.mode == SerialToken
    ensures SameToken(s, LoopTop(c, s, w)) && LoopTop(c, s, w).settled == s.settled
  {
    hide Queue, Accounts, Serial, Workers, Wakes;
    QueueBounds(c, s);
    if !s.closing && !s.failed && s.leader == Some(w) && s.queued != 0 {
      ClaimTakes(c, s, w, 1);
    }
  }

  // ---- Elections ----

  // The state after one election won by `i`.
  lemma ElectedToken(c: Config, s: State)
    requires s.leader.None? && |s.workers| > 0 && s.lastLeader < |s.workers|
    requires forall i :: 0 <= i < |s.workers| ==> s.workers[i].held == 0
    requires c.batch > 0 && exists i :: 0 <= i < |s.workers| && s.workers[i].eligible
    ensures var r := Elect(c, s);
            && Token(c, r) && LeaderHeld(r) == 0 && r.handoffs == s.handoffs + 1 && r.settled == s.settled
            && r.leader.Some? && r.leader.value < |s.workers|
            && forall i :: 0 <= i < |s.workers| && s.workers[i].eligible ==>
                 Ahead(|s.workers|, s.lastLeader, r.leader.value) <= Ahead(|s.workers|, s.lastLeader, i)
  {
    hide NotifyLeader, Elect, Ahead;
    ElectOutcome(c, s);
    var r := Elect(c, s);
    var t := s.(leader := r.leader, lastLeader := r.lastLeader, handoffs := r.handoffs);
    forall i | 0 <= i < |t.workers| ensures Counted(c, t, i, t.workers[i]) {}
    NotifySame(c, t);
    SameTokenKeeps(c, t, r);
  }

  // ---- One step ----

  // What a step does to the token: nothing; or one more message is counted; or the
  // token is given up, after a message or when the first worker registers.
  ghost predicate TokenMoves(c: Config, s: State, step: Step, t: State) {
    && Token(c, t)
    && |t.settled| == |s.settled| + (if step.Finish? then 1 else 0)
    && (step.Finish? ==>
          if LeaderHeld(s) + 1 == c.batch || s.queued == 0
          then t.handoffs == s.handoffs + 1 && LeaderHeld(t) == 0
          else t.handoffs == s.handoffs && LeaderHeld(t) == LeaderHeld(s) + 1)
    && (step.Start? && s.leader.None? ==> t.handoffs == s.handoffs + 1 && LeaderHeld(t) == LeaderHeld(s) == 0)
    && (!step.Finish? && !(step.Start? && s.leader.None?) ==> t.handoffs == s.handoffs && LeaderHeld(t) == LeaderHeld(s))
  }

  lemma StartToken(c: Config, s: State, w: nat)
    requires Inv(c, s) && Token(c, s) && c.mode == SerialToken && Enabled(c, s, Start(w))
    ensures TokenMoves(c, s, Start(w), Apply(c, s, Start(w)))
  {
    hide Queue, Accounts, Serial, Wakes, LoopTop, Elect;
    var t := s.(workers := s.workers[w := s.workers[w].(eligible := true, phase := Holding)]);
    var u := StartSection(c, s, w);
    StartSectionKeeps(c, s, w);
    LoopTopSame(c, u, w);
    if s.leader.None? {
      forall i | 0 <= i < |t.workers| ensures t.workers[i].held == 0 { assert Counted(c, s, i, s.workers[i]); }
      assert t.workers[w].eligible;
      ElectedToken(c, t);
    } else {
      ElectIdle(c, t);
      SameTokenKeeps(c, s, u);
    }
    SameTokenKeeps(c, u, LoopTop(c, u, w));
  }

  lemma ElectIdle(c: Config, s: State)
    requires s.leader.Some?
    ensures Elect(c, s) == s
  {
  }

  lemma WakeToken(c: Config, s: State, w: nat)
    requires Inv(c, s) && Token(c, s) && c.mode == SerialToken && Enabled(c, s, Wake(w))
    ensures TokenMoves(c, s, Wake(w), Apply(c, s, Wake(w)))
  {
    hide Queue, Accounts, Serial, Wakes, LoopTop;
    var u := WakeSection(s, w);
    assert Shape(c, s, None, w, s.workers[w]);
    WakeSectionKeeps(c, s, w);
    SameTokenKeeps(c, s, u);
    LoopTopSame(c, u, w);
    SameTokenKeeps(c, u, LoopTop(c, u, w));
  }

  // The section after processing, in serial mode.
  lemma FinishToken(c: Config, s: State, w: nat)
    requires Inv(c, s) && Token(c, s) && c.mode == SerialToken && Enabled(c, s, Finish(w))
    ensures s.leader == Some(w)
    ensures TokenMoves(c, s, Finish(w), Apply(c, s, Finish(w)))
    ensures LeaderHeld(s) + 1 == c.batch || s.queued == 0 ==>
              Rotates(s, w, Apply(c, s, Finish(w)))
  {
    hide Queue, Accounts, Serial, Wakes, LoopTop, Elect, Inv;
    InvBounded(c, s);
    FinishSectionToken(c, s, w);
    var u := FinishSection(c, s, w);
    TokenFinishKeeps(c, s, w);
    LoopTopSame(c, u, w);
    SameTokenKeeps(c, u, LoopTop(c, u, w));
  }

  // The token has gone to the eligible worker nearest after `w`, who gets it back only
  // if nobody else is eligible.
  ghost predicate Rotates(s: State, w: nat, t: State) {
    && t.leader.Some? && t.leader.value < |s.workers|
    && (forall i :: 0 <= i < |s.workers| && s.workers[i].eligible ==>
          Ahead(|s.workers|, w, t.leader.value) <= Ahead(|s.workers|, w, i))
    && ((exists i :: 0 <= i < |s.workers| && i != w && s.workers[i].eligible) ==> t.leader != Some(w))
  }

  lemma FinishSectionToken(c: Config, s: State, w: nat)
    requires Inv(c, s) && Token(c, s) && c.mode == SerialToken && Enabled(c, s, Finish(w))
    ensures s.leader == Some(w)
    ensures TokenMoves(c, s, Finish(w), FinishSection(c, s, w))
    ensures LeaderHeld(s) + 1 == c.batch || s.queued == 0 ==> Rotates(s, w, FinishSection(c, s, w))
  {
    hide Queue, Accounts, Wakes, Elect, Settled, Inv;
    InvBounded(c, s);
    HolderIsLeader(c, s, w);
    SettledIs(c, s, w);
    TokenFinishIs(c, s, w);
    var held := s.workers[w].held + 1;
    assert Counted(c, s, w, s.workers[w]);
    var release := held >= c.batch || s.queued == 0;
    var t := Return(Settled(c, s, w), w, 1, if release then 0 else held);
    forall i | 0 <= i < |t.workers| && i != w ensures t.workers[i].held == 0 { assert Counted(c, s, i, s.workers[i]); }
    if release {
      ReleaseToken(c, s, w, t.(leader := None));
    } else {
      forall i | 0 <= i < |t.workers| ensures Counted(c, t, i, t.workers[i]) {}
    }
  }

  lemma HolderIsLeader(c: Config, s: State, w: nat)
    requires Inv(c, s) && c.mode == SerialToken && w < |s.workers| && s.workers[w].phase.Processing?
    ensures s.leader == Some(w) && |s.workers[w].phase.batch| == 1 && c.batch > 0
  {
    SerialBatch(c, s, w);
  }

  lemma ReleaseToken(c: Config, s: State, w: nat, u: State)
    requires Token(c, s) && s.leader == Some(w) && c.batch > 0
    requires u.leader.None? && u.lastLeader == w && w < |u.workers| == |s.workers| && u.workers[w].eligible
    requires forall i :: 0 <= i < |u.workers| ==> u.workers[i].held == 0
    requires forall i :: 0 <= i < |u.workers| && i != w ==> u.workers[i] == s.workers[i]
    ensures var r := Elect(c, u);
            && Token(c, r) && LeaderHeld(r) == 0 && r.handoffs == u.handoffs + 1 && r.settled == u.settled && Rotates(s, w, r)
  {
    hide Elect;
    ElectedToken(c, u);
    var r := Elect(c, u);
    assert Ahead(|u.workers|, w, w) == |u.workers|;
    forall i | 0 <= i < |s.workers| && s.workers[i].eligible
      ensures Ahead(|s.workers|, w, r.leader.value) <= Ahead(|s.workers|, w, i)
    {
      assert u.workers[i].eligible;
    }
  }

  lemma AdmitToken(c: Config, s: State, id: nat)
    requires Inv(c, s) && Token(c, s) && Enabled(c, s, Admit(id))
    ensures SameToken(s, Apply(c, s, Admit(id))) && Apply(c, s, Admit(id)).settled == s.settled
  {
    hide NotifyLeader;
    NotifySame(c, Enqueued(s, id));
  }

  lemma StepToken(c: Config, s: State, step: Step)
    requires Inv(c, s) && Token(c, s) && c.mode == SerialToken && Enabled(c, s, step)
    ensures TokenMoves(c, s, step, Apply(c, s, step))
  {
    hide InvAt, StartSection, FinishSection, LoopTop, AdmitSection;
    InvBounded(c, s);
    match step
    case Start(w) => StartToken(c, s, w);
    case Wake(w) => WakeToken(c, s, w);
    case Finish(w) => FinishToken(c, s, w);
    case Admit(id) =>
      AdmitToken(c, s, id);
      SameTokenKeeps(c, s, Apply(c, s, step));
    case NextEpoch => SameTokenKeeps(c, s, Apply(c, s, step));
    case Close => SameTokenKeeps(c, s, Apply(c, s, step));
    case Expire => SameTokenKeeps(c, s, Apply(c, s, step));
  }

  // ---- Runs ----

  // In every reachable state only the token's holder has counted messages, and fewer
  // than a batch of them.
  lemma {:induction false} HeldIsBounded(c: Config, run: seq<State>, k: nat)
    requires Behavior(c, run) && k < |run| && c.mode == SerialToken
    ensures Token(c, run[k])
    ensures forall i :: 0 <= i < |run[k].workers| ==> run[k].workers[i].held < c.batch
  {
    hide Enabled, Apply, Inv, TokenMoves;
    if k > 0 {
      HeldIsBounded(c, run, k - 1);
      var step := RunToken(c, run, k - 1);
      MovesKeep(c, run[k - 1], step, run[k]);
    }
    forall i | 0 <= i < |run[k].workers| ensures run[k].workers[i].held < c.batch {
      assert Counted(c, run[k], i, run[k].workers[i]);
    }
  }

  lemma MovesKeep(c: Config, s: State, step: Step, t: State)
    requires TokenMoves(c, s, step, t)
    ensures Token(c, t)
  {
  }

  // The step a run takes at `k`.
  lemma RunToken(c: Config, run: seq<State>, k: nat) returns (step: Step)
    requires Behavior(c, run) && k + 1 < |run| && c.mode == SerialToken && Token(c, run[k])
    ensures Inv(c, run[k]) && Enabled(c, run[k], step) && run[k + 1] == Apply(c, run[k], step)
    ensures TokenMoves(c, run[k], step, run[k + 1])
  {
    hide Enabled, Apply, Inv, TokenMoves;
    RunsKeepInvariant(c, run, k);
    assert Next(c, run[k], run[k + 1]);
    var s := run[k];
    step :| |s.observations| == c.messages && (s.leader.Some? ==> s.leader.value < |s.workers|)
            && Enabled(c, s, step) && run[k + 1] == Apply(c, s, step);
    StepToken(c, s, step);
  }

  // While no election is held, the holder counts exactly the messages settled.
  lemma {:induction false} HolderCountsSettled(c: Config, run: seq<State>, i: nat, j: nat)
    requires Behavior(c, run) && i <= j < |run| && c.mode == SerialToken
    ensures run[i].handoffs <= run[j].handoffs && |run[i].settled| <= |run[j].settled|
    ensures run[i].handoffs == run[j].handoffs ==>
              LeaderHeld(run[j]) - LeaderHeld(run[i]) == |run[j].settled| - |run[i].settled|
    decreases j - i
  {
    hide Enabled, Apply, Inv, LeaderHeld, Token;
    if i < j {
      HolderCountsSettled(c, run, i, j - 1);
      HeldIsBounded(c, run, j - 1);
      var step := RunToken(c, run, j - 1);
    }
  }

  lemma LeaderHeldBounded(c: Config, s: State)
    requires Token(c, s) && c.batch > 0
    ensures LeaderHeld(s) < c.batch
  {
    if s.leader.Some? { assert Counted(c, s, s.leader.value, s.workers[s.leader.value]); }
  }

  // Between two elections fewer than a batch of messages is settled.
  lemma TokenIsBounded(c: Config, run: seq<State>, i: nat, j: nat)
    requires Behavior(c, run) && i <= j < |run| && c.mode == SerialToken
    requires run[i].handoffs == run[j].handoffs
    ensures |run[j].settled| - |run[i].settled| < c.batch
  {
    hide Next, Inv, LeaderHeld, Token;
    HolderCountsSettled(c, run, i, j);
    HeldIsBounded(c, run, j);
    LeaderHeldBounded(c, run[j]);
  }

  // Someone was elected on the way to state `a`, or it is the first state.
  ghost predicate TenureStarts(run: seq<State>, a: nat) {
    a < |run| && (a == 0 || run[a].handoffs != run[a - 1].handoffs)
  }

  lemma TenureCountsFromZero(c: Config, run: seq<State>, a: nat)
    requires Behavior(c, run) && c.mode == SerialToken && TenureStarts(run, a)
    ensures LeaderHeld(run[a]) == 0
  {
    hide Enabled, Apply, Inv, Token;
    if a > 0 {
      HeldIsBounded(c, run, a - 1);
      var step := RunToken(c, run, a - 1);
    }
  }

  // The holder gives the token up when it has settled a full batch since its election,
  // or when the queue is empty, and only then; another eligible worker gets it.
  lemma TokenGivenUpExactly(c: Config, run: seq<State>, a: nat, j: nat, w: nat)
    requires Behavior(c, run) && c.mode == SerialToken && TenureStarts(run, a) && a <= j && j + 1 < |run|
    requires run[a].handoffs == run[j].handoffs
    requires Inv(c, run[j]) && Enabled(c, run[j], Finish(w)) && run[j + 1] == Apply(c, run[j], Finish(w))
    ensures run[j].leader == Some(w) && |run[j + 1].settled| == |run[j].settled| + 1
    ensures run[j + 1].handoffs ==
            run[j].handoffs + if |run[j + 1].settled| - |run[a].settled| == c.batch || run[j].queued == 0 then 1 else 0
    ensures run[j + 1].handoffs != run[j].handoffs ==> Rotates(run[j], w, run[j + 1])
  {
    hide Enabled, Apply, Inv, LeaderHeld, Token, Rotates;
    TenureCountsFromZero(c, run, a);
    HolderCountsSettled(c, run, a, j);
    HeldIsBounded(c, run, j);
    FinishToken(c, run[j], w);
  }

  // No other step of a serving dispatcher takes the token away.
  lemma OnlyFinishGivesUp(c: Config, run: seq<State>, j: nat)
    requires Behavior(c, run) && c.mode == SerialToken && j + 1 < |run| && run[j].leader.Some?
    ensures run[j + 1].handoffs != run[j].handoffs ==>
              exists w :: Enabled(c, run[j], Finish(w)) && run[j + 1] == Apply(c, run[j], Finish(w))
  {
    hide Enabled, Apply, Inv, Token, LeaderHeld;
    HeldIsBounded(c, run, j);
    var step := RunToken(c, run, j);
    if step.Finish? { assert step == Finish(step.worker); }
  }
}
