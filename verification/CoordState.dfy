/**
  The coordinator's state, what ties it to its log, and how its elementary
  actions (resuming a child, dropping children, emitting) keep the rules.
 */
module CoordState {
  import opened Common
  import opened CoordLog

  datatype Child = Child(resumes: nat, value: Option<int>, done: bool, waiting: bool, armed: bool)

  datatype Coord = Coord(mode: Mode, kids: seq<Child>, cursor: nat, sequenceIndex: nat, generation: nat,
                         emittedAll: bool, cancelled: bool, log: seq<Entry>)

  predicate AllHaveValue(kids: seq<Child>) {
    forall i :: 0 <= i < |kids| ==> kids[i].value.Some?
  }

  predicate AreAllDone(kids: seq<Child>) {
    forall i :: 0 <= i < |kids| ==> kids[i].done
  }

  // Whether the coordinator may resume child `i` now.
  predicate CanRun(mode: Mode, kids: seq<Child>, sequenceIndex: nat, i: nat) {
    && i < |kids| && !kids[i].done && !kids[i].waiting
    && match mode
       case All => kids[i].value.None?
       case AllDone => true
       case Any => true
       case Latest => AllHaveValue(kids) || kids[i].value.None?
       case Sequence => i == sequenceIndex && kids[i].value.None?
  }

  predicate AnyCanRun(mode: Mode, kids: seq<Child>, sequenceIndex: nat) {
    exists i :: 0 <= i < |kids| && CanRun(mode, kids, sequenceIndex, i)
  }

  predicate Runnable(s: Coord, i: nat) {
    CanRun(s.mode, s.kids, s.sequenceIndex, i)
  }

  function RunnableSet(s: Coord): set<nat> {
    set i: nat | i < |s.kids| && Runnable(s, i)
  }

  predicate AnyRunnable(s: Coord) {
    AnyCanRun(s.mode, s.kids, s.sequenceIndex)
  }

  // How far the scan from `cursor` has to go to reach child `i`.
  function Distance(n: int, cursor: int, i: int): int {
    if i >= cursor then i - cursor else i - cursor + n
  }

  // What a resumed child becomes.
  function After(c: Child, step: Step): Child {
    var d := c.(resumes := c.resumes + 1);
    match step
    case Value(v) => d.(value := Some(v))
    case ValueAndDone(v) => d.(value := Some(v), done := true)
    case Wait => d.(waiting := true)
    case Done => d.(done := true)
    case Error => d
  }

  // ---- The invariant ----

  ghost predicate ChildOk(s: Coord, i: nat)
    requires i < |s.kids|
  {
    var c := s.kids[i];
    && c.resumes == Resumes(s.log, i)
    && c.value == LatestValue(s.log, i)
    && (c.value.Some? <==> Values(s.log, i) > 0)
    && (Ended(s.log, i) ==> c.done)
    && (c.armed ==> c.waiting)
    && (s.cancelled ==> c.done)
    && (s.mode == All || s.mode == Sequence ==> Values(s.log, i) <= 1)
    && (c.done && !s.cancelled && (s.mode == AllDone || (s.mode == Sequence && c.value.None?)) ==> Ended(s.log, i))
  }

  ghost predicate Progressed(s: Coord) {
    match s.mode
    case All => s.emittedAll <==> Events(s.log) > 0
    case AllDone => s.emittedAll <==> Events(s.log) > 0
    case Any => LastEvent(s.log).Some? ==> forall i :: 0 <= i < |s.kids| && i != LastEvent(s.log).value ==> s.kids[i].done
    case Latest => true
    case Sequence =>
      && (forall i: nat :: i < s.sequenceIndex ==> Announced(s.log, i) || (Ended(s.log, i) && Values(s.log, i) == 0))
      && (forall i: nat :: i >= s.sequenceIndex ==> !Announced(s.log, i))
  }

  // Children owed a turn are runnable, and come up before the one they wait for.
  ghost predicate OwedInOrder(s: Coord) {
    s.mode != Sequence ==>
      forall j: nat, i: nat :: j < |s.kids| && i in Pending(s.log, j) ==>
        i != j && Runnable(s, i) && Distance(|s.kids|, s.cursor, i) < Distance(|s.kids|, s.cursor, j)
  }

  ghost predicate Inv(s: Coord) {
    && s.cursor < |s.kids| && s.sequenceIndex <= |s.kids|
    && s.generation == Events(s.log)
    && LogOk(s.mode, |s.kids|, s.log)
    && (forall i: nat :: i < |s.kids| ==> ChildOk(s, i))
    && Progressed(s) && OwedInOrder(s)
  }

  // The scan has passed `skipped` children after the cursor, none of them owed a turn.
  ghost predicate Scanned(s: Coord, at: nat, skipped: nat) {
    && at < |s.kids| && s.cursor < |s.kids|
    && Distance(|s.kids|, s.cursor, at) == skipped
    && (s.mode != Sequence ==>
          forall j: nat, i: nat :: j < |s.kids| && i in Pending(s.log, j) ==> Distance(|s.kids|, s.cursor, i) >= skipped)
  }

  // ---- Actions ----

  function Resume(s: Coord, i: nat, step: Step): Coord
    requires i < |s.kids|
  {
    s.(kids := s.kids[i := After(s.kids[i], step)], log := s.log + [Resumed(i, step, RunnableSet(s))])
  }

  function Emit(s: Coord, index: Option<nat>): Coord {
    s.(generation := s.generation + 1, log := s.log + [Emitted(index, s.generation + 1)])
  }

  // Marks the given children done.
  function Drop(s: Coord, who: Group): Coord {
    s.(kids := seq(|s.kids|, i requires 0 <= i < |s.kids| =>
                     if who.Has(i) then s.kids[i].(done := true) else s.kids[i]),
       log := s.log + [Dropped(who)])
  }

  // Wakes some of the armed children.
  function Wake(s: Coord, who: set<nat>): Coord {
    s.(kids := seq(|s.kids|, i requires 0 <= i < |s.kids| =>
                     if i in who && s.kids[i].armed then s.kids[i].(waiting := false, armed := false) else s.kids[i]))
  }

  // Appending an entry, read by every log function.
  lemma LogAppend(log: seq<Entry>, e: Entry)
    ensures var l := log + [e]; l[..|l| - 1] == log && l[|l| - 1] == e
  {}

  lemma AppendReads(log: seq<Entry>, e: Entry, i: nat)
    ensures Announced(log + [e], i) <==> Announced(log, i) || (e.Emitted? && e.index == Some(i))
    ensures Ended(log + [e], i) <==> Ended(log, i) || (e.Resumed? && e.child == i && e.step.Ends())
    ensures Values(log + [e], i) == Values(log, i) + if e.Resumed? && e.child == i && e.step.Produces() then 1 else 0
  {
    LogAppend(log, e);
  }

  // Entries about child `x` alone leave the standing of the others in a sequence.
  lemma SequenceStanding(s: Coord, e: Entry)
    requires s.mode == Sequence && Progressed(s) && !e.Emitted?
    requires e.Resumed? ==> e.child >= s.sequenceIndex
    ensures forall i: nat :: i < s.sequenceIndex ==>
              Announced(s.log + [e], i) || (Ended(s.log + [e], i) && Values(s.log + [e], i) == 0)
    ensures forall i: nat :: i >= s.sequenceIndex ==> !Announced(s.log + [e], i)
  {
    forall i: nat ensures Announced(s.log + [e], i) <==> Announced(s.log, i) { AppendReads(s.log, e, i); }
    forall i: nat | i < s.sequenceIndex
      ensures Announced(s.log + [e], i) || (Ended(s.log + [e], i) && Values(s.log + [e], i) == 0)
    {
      AppendReads(s.log, e, i);
    }
  }

  lemma RunnableMayResume(s: Coord, i: nat)
    requires Inv(s) && Runnable(s, i)
    requires s.mode == All || s.mode == AllDone ==> !s.emittedAll
    ensures MayResume(s.mode, |s.kids|, s.log, i)
  {
    assert ChildOk(s, i);
    if s.mode == Latest && AllHaveValue(s.kids) {
      forall k: nat | k < |s.kids| ensures Values(s.log, k) > 0 { assert ChildOk(s, k); }
    }
  }

  // Outside SEQUENCE, who is runnable is exactly who is awake and may be resumed.
  lemma RunnableExactly(s: Coord, i: nat)
    requires Inv(s) && i < |s.kids| && s.mode != Sequence
    requires s.mode == All || s.mode == AllDone ==> !s.emittedAll
    ensures Runnable(s, i) <==> !s.kids[i].done && !s.kids[i].waiting && MayResume(s.mode, |s.kids|, s.log, i)
  {
    if Runnable(s, i) { RunnableMayResume(s, i); }
    assert ChildOk(s, i);
    if EveryChildHasValue(|s.kids|, s.log) {
      forall k | 0 <= k < |s.kids| ensures s.kids[k].value.Some? {
        assert Values(s.log, k) > 0;
        assert ChildOk(s, k);
      }
    }
  }

  // Nobody owed a turn is passed over: a runnable child reached by the scan is
  // not itself blocked by owed turns.
  lemma NothingOwed(s: Coord, i: nat, skipped: nat)
    requires Inv(s) && s.mode != Sequence && Scanned(s, i, skipped)
    ensures Pending(s.log, i) == {}
  {
    var n := |s.kids|;
    assert forall k: nat :: k in Pending(s.log, i) ==>
             Distance(n, s.cursor, k) < skipped && Distance(n, s.cursor, k) >= skipped;
  }

  // Other children keep their standing when child `i` is resumed.
  lemma ResumeKeepsRunnable(s: Coord, i: nat, step: Step, k: nat)
    requires Runnable(s, i) && Runnable(s, k) && k != i && s.mode != Sequence
    ensures Runnable(Resume(s, i, step), k)
  {
    var t := Resume(s, i, step);
    if s.mode == Latest && AllHaveValue(s.kids) {
      assert forall x :: 0 <= x < |t.kids| ==> t.kids[x].value.Some?;
    }
  }

  lemma ResumeOneChild(s: Coord, i: nat, step: Step, k: nat)
    requires i < |s.kids| && k < |s.kids| && ChildOk(s, k)
    requires !s.kids[i].done && !s.kids[i].waiting && !s.cancelled
    requires s.mode == All || s.mode == Sequence ==> s.kids[i].value.None?
    ensures ChildOk(Resume(s, i, step), k)
  {
    hide RunnableSet;
    LogAppend(s.log, Resumed(i, step, RunnableSet(s)));
  }

  lemma ResumeChildren(s: Coord, i: nat, step: Step)
    requires Inv(s) && Runnable(s, i) && !s.cancelled
    ensures forall k: nat :: k < |s.kids| ==> ChildOk(Resume(s, i, step), k)
  {
    hide ChildOk, OwedInOrder, LogOk, Progressed, RunnableSet;
    forall k: nat | k < |s.kids| ensures ChildOk(Resume(s, i, step), k) { ResumeOneChild(s, i, step, k); }
  }

  lemma ResumeTurns(s: Coord, i: nat, step: Step, skipped: nat)
    requires Inv(s) && Runnable(s, i) && s.mode != Sequence && Scanned(s, i, skipped)
    ensures OwedInOrder(Resume(s, i, step).(cursor := if i + 1 == |s.kids| then 0 else i + 1))
  {
    var n := |s.kids|;
    var next := if i + 1 == n then 0 else i + 1;
    var r := Resume(s, i, step);
    var t := r.(cursor := next);
    LogAppend(s.log, Resumed(i, step, RunnableSet(s)));
    NothingOwed(s, i, skipped);
    forall j: nat, k: nat | j < n && k in Pending(t.log, j)
      ensures k != j && Runnable(t, k) && Distance(n, next, k) < Distance(n, next, j)
    {
      if j == i {
        assert k in RunnableSet(s);
      } else {
        assert k in Pending(s.log, j) && k != i;
        assert Distance(n, s.cursor, k) >= skipped;
        assert Distance(n, s.cursor, k) != Distance(n, s.cursor, i);
      }
      ResumeKeepsRunnable(s, i, step, k);
      assert Runnable(r, k);
      assert t.kids == r.kids;
    }
  }

  // A turn given to the child the scan has reached keeps every rule.
  lemma ResumeKeeps(s: Coord, i: nat, step: Step, skipped: nat)
    requires Inv(s) && Runnable(s, i) && !s.cancelled && Scanned(s, i, skipped) && s.mode != Sequence
    requires s.mode == All || s.mode == AllDone ==> !s.emittedAll
    ensures var next := if i + 1 == |s.kids| then 0 else i + 1;
            Inv(Resume(s, i, step).(cursor := next))
  {
    var next := if i + 1 == |s.kids| then 0 else i + 1;
    var t := Resume(s, i, step).(cursor := next);
    LogAppend(s.log, Resumed(i, step, RunnableSet(s)));
    RunnableMayResume(s, i);
    NothingOwed(s, i, skipped);
    ResumeChildren(s, i, step);
    ResumeTurns(s, i, step, skipped);
    forall k: nat | k < |t.kids| ensures ChildOk(t, k) { assert ChildOk(Resume(s, i, step), k); }
  }

  // Passing over a child that is not runnable.
  lemma SkipKeeps(s: Coord, at: nat, skipped: nat, next: nat)
    requires Inv(s) && s.mode != Sequence && Scanned(s, at, skipped) && !Runnable(s, at)
    requires next == if at + 1 == |s.kids| then 0 else at + 1
    requires skipped + 1 < |s.kids|
    ensures Scanned(s, next, skipped + 1)
  {
    forall j: nat, k: nat | j < |s.kids| && k in Pending(s.log, j)
      ensures Distance(|s.kids|, s.cursor, k) >= skipped + 1
    {
      assert Runnable(s, k);
    }
  }

  lemma WakeKeeps(s: Coord, who: set<nat>)
    requires Inv(s)
    ensures Inv(Wake(s, who))
    ensures forall i: nat :: Runnable(s, i) ==> Runnable(Wake(s, who), i)
    ensures forall at: nat, skipped: nat :: Scanned(s, at, skipped) ==> Scanned(Wake(s, who), at, skipped)
  {
    var t := Wake(s, who);
    forall i: nat | i < |s.kids| ensures ChildOk(t, i) { assert ChildOk(s, i); }
    assert AllHaveValue(s.kids) ==> AllHaveValue(t.kids);
    forall i: nat | Runnable(s, i) ensures Runnable(t, i) {}
  }

  // ---- Emitting and dropping ----

  // An event leaves the children, the turns owed and the cursor alone.
  lemma EmitChildren(s: Coord, index: Option<nat>, emittedAll: bool)
    requires Inv(s)
    ensures var t := Emit(s, index).(emittedAll := emittedAll);
            forall i: nat :: i < |t.kids| ==> ChildOk(t, i)
  {
    hide ChildOk, LogOk, Progressed, OwedInOrder, Events;
    var t := Emit(s, index).(emittedAll := emittedAll);
    forall i: nat | i < |s.kids| ensures ChildOk(t, i) { EmitOneChild(s, index, emittedAll, i); }
  }

  lemma EmitOneChild(s: Coord, index: Option<nat>, emittedAll: bool, i: nat)
    requires i < |s.kids| && ChildOk(s, i)
    ensures ChildOk(Emit(s, index).(emittedAll := emittedAll), i)
  {
    LogAppend(s.log, Emitted(index, s.generation + 1));
  }

  lemma EmitTurns(s: Coord, index: Option<nat>, emittedAll: bool)
    requires OwedInOrder(s)
    ensures OwedInOrder(Emit(s, index).(emittedAll := emittedAll))
  {
    var e := Emitted(index, s.generation + 1);
    LogAppend(s.log, e);
    var t := Emit(s, index).(emittedAll := emittedAll);
    if s.mode != Sequence {
      forall j: nat, i: nat | j < |t.kids| && i in Pending(t.log, j)
        ensures i != j && Runnable(t, i) && Distance(|t.kids|, t.cursor, i) < Distance(|t.kids|, t.cursor, j)
      {
        assert i in Pending(s.log, j);
        assert Runnable(s, i);
      }
    }
  }

  lemma EmitLog(mode: Mode, n: nat, log: seq<Entry>, index: Option<nat>)
    requires LogOk(mode, n, log) && MayEmit(mode, n, log, index)
    ensures var l := log + [Emitted(index, Events(log) + 1)];
            LogOk(mode, n, l) && Events(l) == Events(log) + 1 && LastEvent(l) == index
  {
    LogAppend(log, Emitted(index, Events(log) + 1));
  }

  lemma EmitBarrierKeeps(s: Coord)
    requires Inv(s) && MayEmit(s.mode, |s.kids|, s.log, None) && (s.mode == All || s.mode == AllDone)
    ensures Inv(Emit(s, None).(emittedAll := true))
  {
    hide MayEmit, ChildOk, OwedInOrder, LogOk, Events, LastEvent;
    EmitChildren(s, None, true);
    EmitTurns(s, None, true);
    EmitLog(s.mode, |s.kids|, s.log, None);
  }

  lemma EmitChildKeeps(s: Coord, i: nat)
    requires Inv(s) && MayEmit(s.mode, |s.kids|, s.log, Some(i)) && (s.mode == Any || s.mode == Latest)
    requires s.mode == Any ==> forall k :: 0 <= k < |s.kids| && k != i ==> s.kids[k].done
    ensures Inv(Emit(s, Some(i)))
  {
    hide MayEmit, ChildOk, OwedInOrder, LogOk, Events, LastEvent;
    EmitChildren(s, Some(i), s.emittedAll);
    EmitTurns(s, Some(i), s.emittedAll);
    assert Emit(s, Some(i)).(emittedAll := s.emittedAll) == Emit(s, Some(i));
    EmitLog(s.mode, |s.kids|, s.log, Some(i));
  }

  lemma DropTurns(s: Coord, who: Group)
    requires OwedInOrder(s) && s.mode != Sequence
    ensures OwedInOrder(Drop(s, who))
  {
    LogAppend(s.log, Dropped(who));
    var t := Drop(s, who);
    assert AllHaveValue(s.kids) ==> AllHaveValue(t.kids);
    forall j: nat, i: nat | j < |t.kids| && i in Pending(t.log, j)
      ensures i != j && Runnable(t, i) && Distance(|t.kids|, t.cursor, i) < Distance(|t.kids|, t.cursor, j)
    {
      assert i in Pending(s.log, j) && !who.Has(i);
      assert Runnable(s, i);
    }
  }

  // Dropping children keeps every rule: a dropped child is owed nothing.
  lemma DropKeeps(s: Coord, who: Group)
    requires Inv(s) && s.mode != Sequence && (s.mode != AllDone || s.cancelled) && MayDrop(s.mode, s.log, who)
    ensures Inv(Drop(s, who))
  {
    hide Pending, Runnable, OwedInOrder;
    LogAppend(s.log, Dropped(who));
    DropTurns(s, who);
    var t := Drop(s, who);
    forall i: nat | i < |s.kids| ensures ChildOk(t, i) { assert ChildOk(s, i); }
  }

  // ---- SEQUENCE ----

  lemma SequenceResumeKeeps(s: Coord, step: Step)
    requires Inv(s) && s.mode == Sequence && !s.cancelled && Runnable(s, s.sequenceIndex)
    ensures Inv(Resume(s, s.sequenceIndex, step))
    ensures Events(Resume(s, s.sequenceIndex, step).log) == Events(s.log)
  {
    var i := s.sequenceIndex;
    LogAppend(s.log, Resumed(i, step, RunnableSet(s)));
    SequenceStanding(s, Resumed(i, step, RunnableSet(s)));
    RunnableMayResume(s, i);
    ResumeChildren(s, i, step);
  }

  // The sequence moves past a child that ended without a value.
  lemma AdvanceKeeps(s: Coord)
    requires Inv(s) && s.mode == Sequence && !s.cancelled && s.sequenceIndex < |s.kids|
    requires s.kids[s.sequenceIndex].done && s.kids[s.sequenceIndex].value.None?
    ensures Inv(s.(sequenceIndex := s.sequenceIndex + 1))
  {
    var t := s.(sequenceIndex := s.sequenceIndex + 1);
    assert ChildOk(s, s.sequenceIndex);
    forall k: nat | k < |t.kids| ensures ChildOk(t, k) { assert ChildOk(s, k); }
  }

  // The sequence announces the child that holds a value, and moves on.
  function Announce(s: Coord): Coord
    requires s.sequenceIndex < |s.kids|
  {
    Emit(Drop(s, Only(s.sequenceIndex)).(sequenceIndex := s.sequenceIndex + 1), Some(s.sequenceIndex))
  }

  lemma DropOneKeeps(s: Coord)
    requires Inv(s) && s.mode == Sequence && s.sequenceIndex < |s.kids| && s.kids[s.sequenceIndex].value.Some?
    ensures Inv(Drop(s, Only(s.sequenceIndex)))
    ensures MayEmit(Sequence, |s.kids|, Drop(s, Only(s.sequenceIndex)).log, Some(s.sequenceIndex))
  {
    var i := s.sequenceIndex;
    LogAppend(s.log, Dropped(Only(i)));
    SequenceStanding(s, Dropped(Only(i)));
    var t := Drop(s, Only(i));
    forall k: nat | k < |s.kids| ensures ChildOk(t, k) { assert ChildOk(s, k); }
    assert ChildOk(t, i);
  }

  lemma AnnounceKeeps(s: Coord)
    requires Inv(s) && s.mode == Sequence && s.sequenceIndex < |s.kids| && s.kids[s.sequenceIndex].value.Some?
    ensures Inv(Announce(s)) && Events(Announce(s).log) == Events(s.log) + 1
  {
    var i := s.sequenceIndex;
    DropOneKeeps(s);
    var d := Drop(s, Only(i));
    EmitLog(Sequence, |s.kids|, d.log, Some(i));
    var e := Emitted(Some(i), d.generation + 1);
    LogAppend(d.log, e);
    var t := Announce(s);
    EmitChildren(d, Some(i), d.emittedAll);
    forall k: nat | k < |t.kids| ensures ChildOk(t, k) {
      assert ChildOk(Emit(d, Some(i)).(emittedAll := d.emittedAll), k);
    }
    forall k: nat ensures Announced(t.log, k) <==> k == i || Announced(d.log, k) { AppendReads(d.log, e, k); }
    forall k: nat | k < t.sequenceIndex
      ensures Announced(t.log, k) || (Ended(t.log, k) && Values(t.log, k) == 0)
    {
      AppendReads(d.log, e, k);
    }
  }

  // ---- Why a call returns ----

  // The child can still be resumed during this call: it is not done, not past
  // what its mode asks of it, and not asleep without a pending wake.
  predicate Live(mode: Mode, whole: bool, c: Child) {
    && !c.done && (!c.waiting || c.armed)
    && match mode
       case All => c.value.None?
       case AllDone => true
       case Any => true
       case Latest => whole || c.value.None?
       case Sequence => c.value.None?
  }

  // What one child can still contribute to a call; `horizon` bounds the values
  // an ALL_DONE child may still produce.
  function Weight(mode: Mode, whole: bool, horizon: nat, c: Child): nat {
    (if Live(mode, whole, c) then 1 else 0) + (if c.armed then 1 else 0)
    + (if mode == AllDone && c.resumes < horizon then horizon - c.resumes else 0)
  }

  function Energy(mode: Mode, whole: bool, horizon: nat, kids: seq<Child>): nat {
    if kids == [] then 0
    else Energy(mode, whole, horizon, kids[..|kids| - 1]) + Weight(mode, whole, horizon, kids[|kids| - 1])
  }

  lemma {:induction false} EnergyReplace(mode: Mode, whole: bool, horizon: nat, kids: seq<Child>, i: nat, c: Child)
    requires i < |kids|
    ensures Energy(mode, whole, horizon, kids[i := c]) + Weight(mode, whole, horizon, kids[i])
         == Energy(mode, whole, horizon, kids) + Weight(mode, whole, horizon, c)
  {
    var n := |kids| - 1;
    if i < n {
      assert kids[i := c][..n] == kids[..n][i := c];
      EnergyReplace(mode, whole, horizon, kids[..n], i, c);
    } else {
      assert kids[i := c][..n] == kids[..n];
    }
  }

  // Lighter children make a lighter whole.
  lemma {:induction false} EnergyShrinks(mode: Mode, whole: bool, horizon: nat, kids: seq<Child>, kids': seq<Child>)
    requires |kids| == |kids'|
    requires forall i :: 0 <= i < |kids| ==>
               kids'[i] == kids[i] || Weight(mode, whole, horizon, kids'[i]) < Weight(mode, whole, horizon, kids[i])
    ensures Energy(mode, whole, horizon, kids') <= Energy(mode, whole, horizon, kids)
    ensures Energy(mode, whole, horizon, kids') == Energy(mode, whole, horizon, kids) ==> kids' == kids
  {
    var n := |kids| - 1;
    if kids != [] {
      EnergyShrinks(mode, whole, horizon, kids[..n], kids'[..n]);
      if Energy(mode, whole, horizon, kids') == Energy(mode, whole, horizon, kids) {
        assert kids'[..n] == kids[..n] && kids' == kids'[..n] + [kids'[n]];
      }
    }
  }

  // No child has been resumed twice since the call began.
  ghost predicate AtMostOnce(mode: Mode, whole: bool, before: seq<Child>, kids: seq<Child>) {
    && |kids| == |before|
    && forall i :: 0 <= i < |kids| ==>
         kids[i].resumes == before[i].resumes ||
         (kids[i].resumes == before[i].resumes + 1 && !Live(mode, whole, kids[i]))
  }

  // ---- One round of the scan ----

  // In ALL, no child has ended without a value since the call began.
  ghost predicate NoNewEmpty(mode: Mode, before: seq<Child>, kids: seq<Child>) {
    mode == All ==>
      |kids| == |before| && forall i :: 0 <= i < |kids| && kids[i].done && kids[i].value.None? ==> before[i].done
  }

  // The facts fixed for a call: its start, and how it is counted.
  datatype Call = Call(before: seq<Child>, whole: bool, horizon: nat, counted: bool)

  ghost predicate Round(k: Call, s0: Coord, s: Coord, start: nat, n: nat, skipped: nat) {
    && Inv(s) && !s.cancelled && s == s0.(kids := s.kids, cursor := s.cursor, log := s.log)
    && |s.kids| == |s0.kids| == |k.before| && start < |s.kids| && n <= |s.kids| && skipped <= n
    && (n < |s.kids| ==> Scanned(s, Turn(|s.kids|, start, n), skipped))
    && (s.mode == Latest ==> AllHaveValue(s.kids) == k.whole)
    && s0.log <= s.log && Events(s.log) == Events(s0.log)
    && (s.mode != AllDone ==> AtMostOnce(s.mode, k.whole, k.before, s.kids))
    && NoNewEmpty(s.mode, k.before, s.kids)
    && (k.counted ==>
          var e0, e := Energy(s.mode, k.whole, k.horizon, s0.kids), Energy(s.mode, k.whole, k.horizon, s.kids);
          e <= e0 && (e == e0 ==> Untouched(s0, s, start, n)))
  }

  // Nothing has changed this round, and nobody inspected was runnable.
  ghost predicate Untouched(s0: Coord, s: Coord, start: nat, n: nat) {
    s.kids == s0.kids && forall i: nat :: i < |s.kids| && Distance(|s.kids|, start, i) < n ==> !Runnable(s, i)
  }

  // The child inspected at step `n` of a round.
  function Turn(count: nat, start: nat, n: nat): nat
    requires start < count && n < count
  {
    if start + n < count then start + n else start + n - count
  }

  lemma TurnIsModular(count: nat, start: nat, n: nat)
    requires start < count && n <= count
    ensures (start + n) % count == if start + n < count then start + n else start + n - count
  {
    if start + n < count {
      Remainder(start + n, count, 0, start + n);
    } else {
      Remainder(start + n, count, 1, start + n - count);
    }
  }

  lemma RoundStarts(k: Call, s: Coord)
    requires Inv(s) && !s.cancelled && |s.kids| == |k.before|
    requires s.mode == Latest ==> AllHaveValue(s.kids) == k.whole
    requires s.mode != AllDone ==> AtMostOnce(s.mode, k.whole, k.before, s.kids)
    requires NoNewEmpty(s.mode, k.before, s.kids)
    ensures Round(k, s, s, s.cursor, 0, 0)
  {}

  lemma WakeLightens(k: Call, s: Coord, who: set<nat>)
    requires Inv(s)
    ensures var e, e' := Energy(s.mode, k.whole, k.horizon, s.kids), Energy(s.mode, k.whole, k.horizon, Wake(s, who).kids);
            e' <= e && (e' == e ==> Wake(s, who).kids == s.kids)
    ensures AtMostOnce(s.mode, k.whole, k.before, s.kids) ==> AtMostOnce(s.mode, k.whole, k.before, Wake(s, who).kids)
  {
    var t := Wake(s, who);
    forall i | 0 <= i < |s.kids| ensures t.kids[i] == s.kids[i] ||
      Weight(s.mode, k.whole, k.horizon, t.kids[i]) < Weight(s.mode, k.whole, k.horizon, s.kids[i])
    {
      assert ChildOk(s, i);
    }
    EnergyShrinks(s.mode, k.whole, k.horizon, s.kids, t.kids);
  }

  lemma RoundWakes(k: Call, s0: Coord, s: Coord, start: nat, n: nat, skipped: nat, who: set<nat>)
    requires Round(k, s0, s, start, n, skipped)
    ensures Round(k, s0, Wake(s, who), start, n, skipped)
    ensures Energy(s.mode, k.whole, k.horizon, Wake(s, who).kids) <= Energy(s.mode, k.whole, k.horizon, s.kids)
  {
    hide Runnable, AtMostOnce, Energy, Scanned, Inv;
    var t := Wake(s, who);
    WakeKeeps(s, who);
    WakeLightens(k, s, who);
    assert forall i :: 0 <= i < |s.kids| ==> t.kids[i].value == s.kids[i].value;
    assert AllHaveValue(s.kids) ==> AllHaveValue(t.kids);
    assert AllHaveValue(t.kids) ==> AllHaveValue(s.kids);
    if t.kids == s.kids { assert t == s; }
  }

  lemma RoundSkips(k: Call, s0: Coord, s: Coord, start: nat, n: nat, skipped: nat)
    requires Round(k, s0, s, start, n, skipped) && n < |s.kids| && s.mode != Sequence
    requires !Runnable(s, Turn(|s.kids|, start, n))
    ensures Round(k, s0, s, start, n + 1, skipped + 1)
  {
    hide Inv, AtMostOnce, Energy, Events, Runnable;
    var at := Turn(|s.kids|, start, n);
    if n + 1 < |s.kids| { SkipKeeps(s, at, skipped, Turn(|s.kids|, start, n + 1)); }
    if Untouched(s0, s, start, n) {
      forall i: nat | i < |s.kids| && Distance(|s.kids|, start, i) < n + 1 ensures !Runnable(s, i) {
        assert i == at || Distance(|s.kids|, start, i) < n;
      }
    }
  }

  // Resuming takes weight off a child, unless it emits or keeps producing.
  lemma ResumeLightens(k: Call, s: Coord, i: nat, step: Step)
    requires Inv(s) && Runnable(s, i) && !step.Error?
    requires s.mode == Any || (s.mode == Latest && k.whole) ==> !step.Produces()
    requires s.mode == Latest ==> AllHaveValue(s.kids) == k.whole
    requires s.mode == AllDone && step.Value? ==> s.kids[i].resumes < k.horizon
    ensures Weight(s.mode, k.whole, k.horizon, After(s.kids[i], step)) < Weight(s.mode, k.whole, k.horizon, s.kids[i])
    ensures s.mode != AllDone && s.mode != Sequence ==>
              Live(s.mode, k.whole, s.kids[i]) && !Live(s.mode, k.whole, After(s.kids[i], step))
  {
    assert ChildOk(s, i);
  }

  lemma ResumeOnce(k: Call, s: Coord, i: nat, step: Step)
    requires Inv(s) && Runnable(s, i) && !step.Error? && s.mode != AllDone && s.mode != Sequence
    requires s.mode == Any || (s.mode == Latest && k.whole) ==> !step.Produces()
    requires s.mode == Latest ==> AllHaveValue(s.kids) == k.whole
    requires AtMostOnce(s.mode, k.whole, k.before, s.kids)
    ensures AtMostOnce(s.mode, k.whole, k.before, s.kids[i := After(s.kids[i], step)])
  {
    ResumeLightens(k.(horizon := 0), s, i, step);
  }

  lemma ResumeUsesEnergy(k: Call, s: Coord, i: nat, step: Step)
    requires Inv(s) && Runnable(s, i) && !step.Error?
    requires s.mode == Any || (s.mode == Latest && k.whole) ==> !step.Produces()
    requires s.mode == Latest ==> AllHaveValue(s.kids) == k.whole
    requires s.mode == AllDone && step.Value? ==> s.kids[i].resumes < k.horizon
    ensures Energy(s.mode, k.whole, k.horizon, s.kids[i := After(s.kids[i], step)])
            < Energy(s.mode, k.whole, k.horizon, s.kids)
  {
    ResumeLightens(k, s, i, step);
    EnergyReplace(s.mode, k.whole, k.horizon, s.kids, i, After(s.kids[i], step));
  }

  lemma ScanRestarts(s: Coord)
    requires Inv(s) && s.mode != Sequence
    ensures s.cursor < |s.kids| && Scanned(s, s.cursor, 0)
  {
    forall j: nat, i: nat | j < |s.kids| && i in Pending(s.log, j)
      ensures Distance(|s.kids|, s.cursor, i) >= 0
    {
      assert Runnable(s, i);
    }
  }

  lemma RoundResumes(k: Call, s0: Coord, s: Coord, start: nat, n: nat, skipped: nat, step: Step, t: Coord)
    requires Round(k, s0, s, start, n, skipped) && n < |s.kids| && s.mode != Sequence
    requires var at := Turn(|s.kids|, start, n);
             && Runnable(s, at) && !step.Error?
             && (s.mode == AllDone && step.Value? && k.counted ==> s.kids[at].resumes < k.horizon)
             && t == Resume(s, at, step).(cursor := if at + 1 == |s.kids| then 0 else at + 1)
    requires s.mode == Any || (s.mode == Latest && k.whole) ==> !step.Produces()
    requires s.mode == All || s.mode == AllDone ==> !s.emittedAll
    requires s.mode == Latest ==> AllHaveValue(t.kids) == k.whole
    requires s.mode == All ==> !step.Done?
    ensures Round(k, s0, t, start, n + 1, 0)
    ensures k.counted ==> Energy(s.mode, k.whole, k.horizon, t.kids) < Energy(s.mode, k.whole, k.horizon, s0.kids)
  {
    hide Inv, Runnable, AtMostOnce, Energy, Scanned, RunnableSet, AllHaveValue;
    var at := Turn(|s.kids|, start, n);
    ResumeKeeps(s, at, step, skipped);
    LogAppend(s.log, Resumed(at, step, RunnableSet(s)));
    if s.mode != AllDone { ResumeOnce(k, s, at, step); }
    if k.counted { ResumeUsesEnergy(k, s, at, step); }
    ScanRestarts(t);
    assert n + 1 < |s.kids| ==> Turn(|s.kids|, start, n + 1) == t.cursor;
  }

  // A round after which somebody is runnable has used energy.
  lemma RoundEnds(k: Call, s0: Coord, s: Coord, start: nat, skipped: nat)
    requires Round(k, s0, s, start, |s.kids|, skipped) && k.counted && AnyRunnable(s)
    ensures Energy(s.mode, k.whole, k.horizon, s.kids) < Energy(s.mode, k.whole, k.horizon, s0.kids)
  {
    var i :| 0 <= i < |s.kids| && CanRun(s.mode, s.kids, s.sequenceIndex, i);
    assert Distance(|s.kids|, start, i) < |s.kids|;
  }

  // ---- A whole call ----

  // No child has been resumed more than once.
  ghost predicate EachOnce(before: seq<Child>, after: seq<Child>) {
    |before| == |after| && forall i :: 0 <= i < |before| ==> before[i].resumes <= after[i].resumes <= before[i].resumes + 1
  }

  // A call that began in `s1` can return from `s` without an event.
  ghost predicate Silent(k: Call, s1: Coord, s: Coord) {
    && Inv(s) && s == s1.(kids := s.kids, cursor := s.cursor, log := s.log)
    && s1.log <= s.log && Events(s.log) == Events(s1.log)
    && (s.mode != AllDone ==> EachOnce(k.before, s.kids))
  }

  // It can also go on: nobody it has resumed can be resumed again.
  ghost predicate OnCall(k: Call, s1: Coord, s: Coord) {
    && Silent(k, s1, s) && !s.cancelled && |s.kids| == |s1.kids| == |k.before|
    && (s.mode == Latest ==> AllHaveValue(s.kids) == k.whole)
    && (s.mode != AllDone ==> AtMostOnce(s.mode, k.whole, k.before, s.kids))
    && NoNewEmpty(s.mode, k.before, s.kids)
  }

  lemma CallStarts(k: Call, s: Coord)
    requires Inv(s) && !s.cancelled && k.before == s.kids
    requires s.mode == Latest ==> AllHaveValue(s.kids) == k.whole
    ensures OnCall(k, s, s) && Silent(k, s, s)
  {}

  lemma RoundOpens(k: Call, s1: Coord, s: Coord)
    requires OnCall(k, s1, s)
    ensures s.cursor < |s.kids| && Round(k, s, s, s.cursor, 0, 0)
  {
    RoundStarts(k, s);
  }

  lemma RoundCloses(k: Call, s1: Coord, s0: Coord, s: Coord, start: nat, n: nat, skipped: nat)
    requires OnCall(k, s1, s0) && Round(k, s0, s, start, n, skipped)
    ensures OnCall(k, s1, s)
    ensures k.counted ==>
              Energy(s.mode, k.whole, k.horizon, s.kids) <= Energy(s.mode, k.whole, k.horizon, s0.kids)
  {
    hide Inv, Energy, Scanned, Events;
  }

  // No other child has won an ANY race.
  ghost predicate Winning(s: Coord, i: nat) {
    LastEvent(s.log).Some? ==> LastEvent(s.log) == Some(i)
  }

  // The last thing that happened: child `i` answered `step`.
  ghost predicate Answered(s: Coord, i: nat, step: Step) {
    && i < |s.kids| && s.log != []
    && var e := s.log[|s.log| - 1]; e.Resumed? && e.child == i && e.step == step
  }

  // What makes a call fail: an error, a child of an ALL barrier that has just ended
  // without a value, or an ALL_DONE barrier missing a value at the end.
  ghost predicate Faulted(s: Coord) {
    || (exists i: nat, step ::
          Answered(s, i, step) && (step.Error? || (s.mode == All && s.kids[i].done && s.kids[i].value.None?)))
    || (s.mode == AllDone && AreAllDone(s.kids) && !AllHaveValue(s.kids))
  }

  // Child `i` has just produced the value that the mode announces.
  ghost predicate Chosen(s: Coord, i: nat) {
    && i < |s.kids| && JustProduced(s.log, i)
    && match s.mode
       case Any => Winning(s, i)
       case Latest => AllHaveValue(s.kids)
       case _ => false
  }

  // Resuming never takes a value away, and adds one only if the child produces.
  lemma ResumeValues(kids: seq<Child>, i: nat, step: Step)
    requires i < |kids|
    ensures AllHaveValue(kids) ==> AllHaveValue(kids[i := After(kids[i], step)])
    ensures !step.Produces() ==> (AllHaveValue(kids) <==> AllHaveValue(kids[i := After(kids[i], step)]))
  {
    var after := kids[i := After(kids[i], step)];
    if !step.Produces() && AllHaveValue(after) {
      forall x | 0 <= x < |kids| ensures kids[x].value.Some? { assert after[x].value.Some?; }
    }
  }

  lemma OnCallLatest(k: Call, s0: Coord, s: Coord, start: nat, n: nat, skipped: nat)
    requires Round(k, s0, s, start, n, skipped)
    ensures s.mode == Latest ==> AllHaveValue(s.kids) == k.whole
    ensures s.cancelled == s0.cancelled && s.emittedAll == s0.emittedAll && |s.kids| == |s0.kids|
  {}

  // Whatever the resumed child answered, the call may return.
  lemma RoundReturns(k: Call, s1: Coord, s0: Coord, s: Coord, start: nat, n: nat, skipped: nat, step: Step, t: Coord)
    requires OnCall(k, s1, s0) && Round(k, s0, s, start, n, skipped) && n < |s.kids| && s.mode != Sequence
    requires var at := Turn(|s.kids|, start, n);
             && Runnable(s, at)
             && t == Resume(s, at, step).(cursor := if at + 1 == |s.kids| then 0 else at + 1)
    requires s.mode == All || s.mode == AllDone ==> !s.emittedAll
    ensures Silent(k, s1, t) && Answered(t, Turn(|s.kids|, start, n), step)
    ensures s.mode == Any ==> Winning(t, Turn(|s.kids|, start, n))
    ensures |k.before| == |t.kids|
    ensures s.mode != AllDone ==>
              var at := Turn(|s.kids|, start, n); t.kids[at].resumes == k.before[at].resumes + 1
  {
    hide Inv, Scanned, Energy, RunnableSet, Runnable, AllHaveValue;
    var at := Turn(|s.kids|, start, n);
    ResumeKeeps(s, at, step, skipped);
    LogAppend(s.log, Resumed(at, step, RunnableSet(s)));
    if s.mode != AllDone { NotYetResumed(k, s, at); }
    if s.mode == Any { RunnableWins(s, at); }
  }

  lemma RunnableWins(s: Coord, i: nat)
    requires Inv(s) && Runnable(s, i) && s.mode == Any
    ensures Winning(s, i)
  {}

  // A runnable child has not been resumed since the call began.
  lemma NotYetResumed(k: Call, s: Coord, i: nat)
    requires Inv(s) && Runnable(s, i) && s.mode != AllDone && s.mode != Sequence
    requires s.mode == Latest ==> AllHaveValue(s.kids) == k.whole
    requires AtMostOnce(s.mode, k.whole, k.before, s.kids)
    ensures s.kids[i].resumes == k.before[i].resumes
  {
    hide LogOk, Progressed, OwedInOrder;
    assert ChildOk(s, i);
    assert Live(s.mode, k.whole, s.kids[i]);
  }

  // The ALL barrier: drop everybody, then announce.
  lemma BarrierEmits(k: Call, s1: Coord, s: Coord)
    requires OnCall(k, s1, s) && s.mode == All && AllHaveValue(s.kids) && !s.emittedAll
    ensures var d := Drop(s, Everyone);
            var t := Emit(d, None).(emittedAll := true);
            Inv(t) && EachOnce(k.before, t.kids) && Replied(s1, t, Event(None, t.generation, true))
  {
    var d := Drop(s, Everyone);
    DropKeeps(s, Everyone);
    LogAppend(s.log, Dropped(Everyone));
    forall i: nat | i < |s.kids| ensures Values(d.log, i) == 1 { assert ChildOk(d, i); }
    EmitBarrierKeeps(d);
    EmitLog(All, |s.kids|, d.log, None);
  }

  lemma RunnableIsAwake(s: Coord, i: nat)
    requires i < |s.kids| && Runnable(s, i)
    ensures !s.kids[i].done && !s.kids[i].waiting && (s.mode == All ==> s.kids[i].value.None?)
  {}

  // A round that changed a child has used energy.
  lemma RoundUsed(k: Call, s0: Coord, s: Coord, start: nat, n: nat, skipped: nat)
    requires Round(k, s0, s, start, n, skipped) && k.counted && s.kids != s0.kids
    ensures Energy(s.mode, k.whole, k.horizon, s.kids) < Energy(s.mode, k.whole, k.horizon, s0.kids)
  {}

  // ---- Replies ----

  datatype Reply =
    | Event(index: Option<nat>, generation: nat, final: bool)
    | Waiting
    | Finished
    | Failed

  // What a call did, by its reply.
  ghost predicate Replied(before: Coord, after: Coord, reply: Reply) {
    && before.log <= after.log
    && match reply
       case Event(index, generation, _) =>
         && after.log != [] && after.log[|after.log| - 1] == Emitted(index, generation)
         && Events(after.log) == Events(before.log) + 1
       case Waiting => Events(after.log) == Events(before.log) && !AnyRunnable(after)
       case Finished => Events(after.log) == Events(before.log)
       case Failed => Events(after.log) == Events(before.log)
  }

  // A call may return from a silent state with any reply but an event; it may
  // wait only if nobody is runnable.
  lemma Quiet(k: Call, s1: Coord, s: Coord)
    requires Silent(k, s1, s) && k.before == s1.kids
    ensures Inv(s) && Replied(s1, s, Finished) && Replied(s1, s, Failed)
    ensures !AnyRunnable(s) ==> Replied(s1, s, Waiting)
    ensures s.mode != AllDone ==> EachOnce(s1.kids, s.kids)
  {}

  lemma LogGrows(k: Call, s1: Coord, s: Coord)
    requires Silent(k, s1, s)
    ensures s1.log <= s.log
  {}

  lemma Continuing(k: Call, s1: Coord, s: Coord)
    requires OnCall(k, s1, s)
    ensures Silent(k, s1, s) && NoNewEmpty(s.mode, k.before, s.kids)
  {}

  lemma AllDoneEmits(k: Call, s1: Coord, s: Coord)
    requires OnCall(k, s1, s) && s.mode == AllDone && AreAllDone(s.kids) && AllHaveValue(s.kids) && !s.emittedAll
    ensures var t := Emit(s, None).(emittedAll := true);
            Inv(t) && Replied(s1, t, Event(None, t.generation, true))
  {
    forall i: nat | i < |s.kids| ensures Values(s.log, i) > 0 && Ended(s.log, i) { assert ChildOk(s, i); }
    EmitBarrierKeeps(s);
    EmitLog(AllDone, |s.kids|, s.log, None);
  }

  lemma InvLog(s: Coord)
    requires Inv(s)
    ensures LogOk(s.mode, |s.kids|, s.log) && s.generation == Events(s.log)
  {}

  lemma ChosenMayWin(s: Coord, i: nat)
    requires s.mode == Any && Chosen(s, i)
    ensures i < |s.kids| && MayDrop(Any, s.log, AllBut(i))
    ensures MayEmit(Any, |s.kids|, Drop(s, AllBut(i)).log, Some(i))
  {
    LogAppend(s.log, Dropped(AllBut(i)));
  }

  lemma AnyEmits(k: Call, s1: Coord, s: Coord, i: nat)
    requires Silent(k, s1, s) && s.mode == Any && Chosen(s, i)
    ensures var t := Emit(Drop(s, AllBut(i)), Some(i));
            Inv(t) && EachOnce(k.before, t.kids) && Replied(s1, t, Event(Some(i), t.generation, true))
  {
    hide Inv, MayEmit, MayDrop, Chosen;
    var d := Drop(s, AllBut(i));
    ChosenMayWin(s, i);
    DropKeeps(s, AllBut(i));
    LogAppend(s.log, Dropped(AllBut(i)));
    InvLog(d);
    EmitChildKeeps(d, i);
    EmitLog(Any, |s.kids|, d.log, Some(i));
  }

  lemma LatestEmits(k: Call, s1: Coord, s: Coord, i: nat, final: bool)
    requires Silent(k, s1, s) && s.mode == Latest && Chosen(s, i)
    ensures var t := Emit(s, Some(i));
            Inv(t) && EachOnce(k.before, t.kids) && Replied(s1, t, Event(Some(i), t.generation, final))
  {
    forall x: nat | x < |s.kids| ensures Values(s.log, x) > 0 { assert ChildOk(s, x); }
    EmitChildKeeps(s, i);
    EmitLog(Latest, |s.kids|, s.log, Some(i));
  }

  // Cancelling drops everybody for good.
  lemma CancelKeeps(s: Coord)
    requires Inv(s)
    ensures Inv(Drop(s.(cancelled := true), Everyone))
  {
    hide Runnable, CanRun;
    LogAppend(s.log, Dropped(Everyone));
    var t := Drop(s.(cancelled := true), Everyone);
    forall i: nat | i < |s.kids| ensures ChildOk(t, i) { assert ChildOk(s, i); }
    if s.mode == Sequence { SequenceStanding(s, Dropped(Everyone)); }
  }

  // A SEQUENCE call that began in `s1` has come to `s` without an event.
  // Nobody from the current child on has been resumed yet, if `untouched`.
  ghost predicate InSequence(s1: Coord, s: Coord, untouched: bool) {
    && Inv(s) && s.mode == Sequence && !s.cancelled && s1.sequenceIndex <= s.sequenceIndex
    && s1.log <= s.log && Events(s.log) == Events(s1.log) && EachOnce(s1.kids, s.kids)
    && forall x :: s.sequenceIndex <= x < |s.kids| && (x > s.sequenceIndex || untouched) ==> s.kids[x].resumes == s1.kids[x].resumes
  }

  lemma SequenceStarts(s: Coord)
    requires Inv(s) && s.mode == Sequence && !s.cancelled
    ensures InSequence(s, s, true)
  {}

  lemma InSequenceReturns(s1: Coord, s: Coord, untouched: bool)
    requires InSequence(s1, s, untouched)
    ensures Inv(s) && s.sequenceIndex <= |s.kids| && EachOnce(s1.kids, s.kids)
    ensures Replied(s1, s, Finished) && Replied(s1, s, Failed)
    ensures (s.sequenceIndex < |s.kids| ==> s.kids[s.sequenceIndex].waiting) ==> Replied(s1, s, Waiting)
  {}

  lemma InSequenceWakes(s1: Coord, s: Coord, who: set<nat>)
    requires InSequence(s1, s, true)
    ensures InSequence(s1, Wake(s, who), true)
  {
    hide Inv;
    WakeKeeps(s, who);
  }

  lemma InSequenceResumes(s1: Coord, s: Coord, step: Step)
    requires InSequence(s1, s, true) && Runnable(s, s.sequenceIndex)
    ensures InSequence(s1, Resume(s, s.sequenceIndex, step), false)
  {
    hide Inv;
    SequenceResumeKeeps(s, step);
  }

  lemma InSequenceAdvances(s1: Coord, s: Coord, untouched: bool)
    requires InSequence(s1, s, untouched) && s.sequenceIndex < |s.kids|
    requires s.kids[s.sequenceIndex].done && s.kids[s.sequenceIndex].value.None?
    ensures InSequence(s1, s.(sequenceIndex := s.sequenceIndex + 1), true)
  {
    hide Inv;
    AdvanceKeeps(s);
  }

  lemma InSequenceAnnounces(s1: Coord, s: Coord, untouched: bool, final: bool)
    requires InSequence(s1, s, untouched) && s.sequenceIndex < |s.kids| && s.kids[s.sequenceIndex].value.Some?
    ensures var t := Announce(s);
            && Inv(t) && EachOnce(s1.kids, t.kids)
            && Replied(s1, t, Event(Some(s.sequenceIndex), t.generation, final))
  {
    hide Inv;
    AnnounceKeeps(s);
  }

  // Arming marks every waiting child.
  function Arm(s: Coord): Coord {
    s.(kids := seq(|s.kids|, i requires 0 <= i < |s.kids| =>
                     if s.kids[i].waiting then s.kids[i].(armed := true) else s.kids[i]))
  }

  lemma ArmKeeps(s: Coord)
    requires Inv(s)
    ensures Inv(Arm(s))
  {
    var t := Arm(s);
    forall i: nat | i < |s.kids| ensures ChildOk(t, i) { assert ChildOk(s, i); }
    assert AllHaveValue(s.kids) ==> AllHaveValue(t.kids);
    forall i: nat | Runnable(s, i) ensures Runnable(t, i) {}
  }
}
