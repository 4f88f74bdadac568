/**
  What a coordinator may do, stated over the log of everything it did: which
  child it resumed, with what outcome and who else was runnable, which children
  it dropped, and which events it emitted.

  Each entry is judged against the entries before it. The readable consequences
  follow: one barrier event, ordered events, first values first, fair turns.
 */
module CoordLog {
  import opened Common

  datatype Mode = All | AllDone | Any | Latest | Sequence

  // What a child answers when it is resumed.
  datatype Step = Value(v: int) | ValueAndDone(v: int) | Wait | Done | Error
  {
    predicate Produces() { Value? || ValueAndDone? }
    predicate Ends() { ValueAndDone? || Done? }
  }

  // Children the coordinator marks done together.
  datatype Group = Everyone | AllBut(child: nat) | Only(child: nat)
  {
    predicate Has(i: nat) {
      match this
      case Everyone => true
      case AllBut(c) => i != c
      case Only(c) => i == c
    }
  }

  datatype Entry =
    | Resumed(child: nat, step: Step, runnable: set<nat>)
    | Dropped(group: Group)                            // marked done by the coordinator
    | Emitted(index: Option<nat>, generation: nat)     // None is the barrier event

  // ---- Reading a log ----

  function Events(log: seq<Entry>): nat {
    if log == [] then 0
    else Events(log[..|log| - 1]) + if log[|log| - 1].Emitted? then 1 else 0
  }

  // How often child `i` was resumed.
  function Resumes(log: seq<Entry>, i: nat): nat {
    if log == [] then 0
    else
      var e := log[|log| - 1];
      Resumes(log[..|log| - 1], i) + if e.Resumed? && e.child == i then 1 else 0
  }

  // How many values child `i` has produced.
  function Values(log: seq<Entry>, i: nat): nat {
    if log == [] then 0
    else
      var e := log[|log| - 1];
      Values(log[..|log| - 1], i) + if e.Resumed? && e.child == i && e.step.Produces() then 1 else 0
  }

  // The latest value child `i` has produced.
  function LatestValue(log: seq<Entry>, i: nat): Option<int> {
    if log == [] then None
    else
      var e := log[|log| - 1];
      if e.Resumed? && e.child == i && e.step.Produces() then Some(e.step.v)
      else LatestValue(log[..|log| - 1], i)
  }

  // Child `i` has answered that it is done.
  predicate Ended(log: seq<Entry>, i: nat) {
    log != [] &&
    var e := log[|log| - 1];
    (e.Resumed? && e.child == i && e.step.Ends()) || Ended(log[..|log| - 1], i)
  }

  // The child named by the latest event.
  function LastEvent(log: seq<Entry>): Option<nat> {
    if log == [] then None
    else
      var e := log[|log| - 1];
      if e.Emitted? then e.index else LastEvent(log[..|log| - 1])
  }

  // An event for child `i` has been emitted.
  predicate Announced(log: seq<Entry>, i: nat) {
    log != [] &&
    var e := log[|log| - 1];
    (e.Emitted? && e.index == Some(i)) || Announced(log[..|log| - 1], i)
  }

  // Children that were runnable at `j`'s latest turn and have had no turn since.
  function Pending(log: seq<Entry>, j: nat): set<nat> {
    if log == [] then {}
    else
      var rest := Pending(log[..|log| - 1], j);
      match log[|log| - 1]
      case Resumed(x, _, runnable) => if x == j then runnable - {x} else rest - {x}
      case Dropped(group) => set i | i in rest && !group.Has(i)
      case Emitted(_, _) => rest
  }

  // ---- The rules ----

  ghost predicate EveryChildHasValue(n: nat, log: seq<Entry>) {
    forall i: nat :: i < n ==> Values(log, i) > 0
  }

  ghost predicate MayResume(mode: Mode, n: nat, log: seq<Entry>, x: nat) {
    && x < n && !Ended(log, x)
    && match mode
       case All => Values(log, x) == 0 && Events(log) == 0
       case AllDone => Events(log) == 0
       case Any => LastEvent(log).Some? ==> LastEvent(log) == Some(x)
       case Latest => Values(log, x) == 0 || EveryChildHasValue(n, log)
       case Sequence =>
         Values(log, x) == 0 && forall i: nat :: i < x ==> Announced(log, i) || (Ended(log, i) && Values(log, i) == 0)
  }

  // The last thing that happened: child `i` was resumed and produced a value.
  ghost predicate JustProduced(log: seq<Entry>, i: nat) {
    log != [] && var e := log[|log| - 1]; e.Resumed? && e.child == i && e.step.Produces()
  }

  // The last thing that happened: the group was dropped.
  ghost predicate JustDropped(log: seq<Entry>, group: Group) {
    log != [] && log[|log| - 1] == Dropped(group)
  }

  ghost predicate MayEmit(mode: Mode, n: nat, log: seq<Entry>, index: Option<nat>) {
    match mode
    case All =>
      index == None && Events(log) == 0 && JustDropped(log, Everyone) && forall i: nat :: i < n ==> Values(log, i) == 1
    case AllDone => index == None && Events(log) == 0 && forall i: nat :: i < n ==> Values(log, i) > 0 && Ended(log, i)
    case Any =>
      && index.Some? && index.value < n && (LastEvent(log).Some? ==> LastEvent(log) == index)
      && JustDropped(log, AllBut(index.value)) && JustProduced(log[..|log| - 1], index.value)
    case Latest => index.Some? && index.value < n && JustProduced(log, index.value) && EveryChildHasValue(n, log)
    case Sequence =>
      && index.Some? && index.value < n && Values(log, index.value) == 1 && JustDropped(log, Only(index.value))
      && (forall i: nat :: i >= index.value ==> !Announced(log, i))
      && (forall i: nat :: i < index.value ==> Announced(log, i) || (Ended(log, i) && Values(log, i) == 0))
  }

  // Children are dropped to be rid of the losers of a race, to finish the child a
  // sequence announces, or all together.
  ghost predicate MayDrop(mode: Mode, log: seq<Entry>, group: Group) {
    match group
    case Everyone => true
    case AllBut(i) => mode == Any && JustProduced(log, i)
    case Only(i) => mode == Sequence && Values(log, i) == 1
  }

  ghost predicate EntryOk(mode: Mode, n: nat, log: seq<Entry>, e: Entry) {
    match e
    case Resumed(x, _, _) => MayResume(mode, n, log, x) && (mode != Sequence ==> Pending(log, x) == {})
    case Dropped(group) => MayDrop(mode, log, group)
    case Emitted(index, generation) => generation == Events(log) + 1 && MayEmit(mode, n, log, index)
  }

  ghost predicate LogOk(mode: Mode, n: nat, log: seq<Entry>) {
    log == [] || (LogOk(mode, n, log[..|log| - 1]) && EntryOk(mode, n, log[..|log| - 1], log[|log| - 1]))
  }

  // ---- Consequences ----

  lemma {:induction false} EntryAt(mode: Mode, n: nat, log: seq<Entry>, k: nat)
    requires LogOk(mode, n, log) && k < |log|
    ensures LogOk(mode, n, log[..k]) && EntryOk(mode, n, log[..k], log[k])
  {
    var m := |log| - 1;
    if k < m {
      assert log[..m][..k] == log[..k];
      EntryAt(mode, n, log[..m], k);
    }
  }

  lemma {:induction false} EventsGrow(log: seq<Entry>, k: nat, m: nat)
    requires k <= m <= |log|
    ensures Events(log[..k]) <= Events(log[..m])
    ensures k < m && log[k].Emitted? ==> Events(log[..k]) < Events(log[..m])
  {
    if k < m {
      assert log[..m][..m - 1] == log[..m - 1];
      if k < m - 1 { EventsGrow(log, k, m - 1); }
    }
  }

  // The k-th event carries generation k: generations rise by exactly one.
  lemma GenerationCountsEvents(mode: Mode, n: nat, log: seq<Entry>, k: nat)
    requires LogOk(mode, n, log) && k < |log| && log[k].Emitted?
    ensures log[k].generation == Events(log[..k]) + 1 == Events(log[..k + 1])
  {
    EntryAt(mode, n, log, k);
    assert log[..k + 1][..k] == log[..k];
  }

  // ALL and ALL_DONE emit at most one event and resume nobody after it; ALL
  // emits only once every child holds exactly its first value.
  lemma BarrierIsOneShot(mode: Mode, n: nat, log: seq<Entry>, k: nat, m: nat)
    requires LogOk(mode, n, log) && (mode == All || mode == AllDone)
    requires k < m < |log| && log[k].Emitted?
    ensures log[m].Dropped?
  {
    EntryAt(mode, n, log, m);
    EventsGrow(log, k, m);
  }

  lemma AllWaitsForFirstValues(n: nat, log: seq<Entry>, k: nat, i: nat)
    requires LogOk(All, n, log) && k < |log| && i < n
    ensures log[k].Emitted? ==> log[k].index == None && Values(log[..k], i) == 1
    ensures log[k].Resumed? && log[k].child == i ==> Values(log[..k], i) == 0
  {
    EntryAt(All, n, log, k);
  }

  // A child that ended without a value keeps ALL from ever emitting, although
  // the error this causes is reported only once.
  lemma {:induction false} EmptyChildBlocksAll(n: nat, log: seq<Entry>, k: nat, m: nat, i: nat)
    requires LogOk(All, n, log) && k <= m <= |log| && i < n
    requires Ended(log[..k], i) && Values(log[..k], i) == 0
    ensures Ended(log[..m], i) && Values(log[..m], i) == 0
    ensures m < |log| ==> !log[m].Emitted?
  {
    if k < m {
      EmptyChildBlocksAll(n, log, k, m - 1, i);
      EntryAt(All, n, log, m - 1);
      assert log[..m][..m - 1] == log[..m - 1];
    }
    if m < |log| { EntryAt(All, n, log, m); }
  }

  lemma AllDoneWaitsForCompletion(n: nat, log: seq<Entry>, k: nat, i: nat)
    requires LogOk(AllDone, n, log) && k < |log| && i < n && log[k].Emitted?
    ensures Ended(log[..k], i) && Values(log[..k], i) > 0
  {
    EntryAt(AllDone, n, log, k);
  }

  lemma {:induction false} AnnouncedAt(mode: Mode, n: nat, log: seq<Entry>, k: nat)
    requires LogOk(mode, n, log) && k < |log| && log[k].Emitted? && log[k].index.Some?
    ensures Announced(log, log[k].index.value)
  {
    var m := |log| - 1;
    if k < m {
      assert log[..m][k] == log[k];
      AnnouncedAt(mode, n, log[..m], k);
    }
  }

  // SEQUENCE emits strictly increasing child indices.
  lemma SequenceIncreases(n: nat, log: seq<Entry>, k: nat, m: nat)
    requires LogOk(Sequence, n, log) && k < m < |log| && log[k].Emitted? && log[m].Emitted?
    ensures log[k].index.Some? && log[m].index.Some? && log[k].index.value < log[m].index.value
  {
    EntryAt(Sequence, n, log, k);
    EntryAt(Sequence, n, log, m);
    assert log[..m][k] == log[k];
    AnnouncedAt(Sequence, n, log[..m], k);
  }

  // SEQUENCE resumes a child only after every earlier child has emitted or
  // ended empty, and never past its first value.
  lemma SequenceRunsInOrder(n: nat, log: seq<Entry>, k: nat, i: nat)
    requires LogOk(Sequence, n, log) && k < |log| && log[k].Resumed?
    ensures i < log[k].child ==> Announced(log[..k], i) || (Ended(log[..k], i) && Values(log[..k], i) == 0)
    ensures i == log[k].child ==> Values(log[..k], i) == 0
  {
    EntryAt(Sequence, n, log, k);
  }

  // LATEST emits nothing, and resumes no child past its first value, until
  // every child has one.
  lemma LatestWaitsForEveryone(n: nat, log: seq<Entry>, k: nat, i: nat)
    requires LogOk(Latest, n, log) && k < |log| && i < n
    requires log[k].Emitted? || (log[k].Resumed? && Values(log[..k], log[k].child) > 0)
    ensures Values(log[..k], i) > 0
  {
    EntryAt(Latest, n, log, k);
  }

  // LATEST announces the child whose value it has just received, with that value.
  lemma LatestAnnouncesTheNewValue(n: nat, log: seq<Entry>, k: nat)
    requires LogOk(Latest, n, log) && k < |log| && log[k].Emitted?
    ensures k > 0 && log[k].index.Some? && log[k - 1].Resumed? && log[k - 1].child == log[k].index.value
    ensures log[k - 1].step.Produces() && LatestValue(log[..k], log[k].index.value) == Some(log[k - 1].step.v)
  {
    EntryAt(Latest, n, log, k);
    assert log[..k][k - 1] == log[k - 1];
  }

  // ANY announces the child whose value it has just received, once it has dropped the others.
  lemma AnyAnnouncesTheNewValue(n: nat, log: seq<Entry>, k: nat)
    requires LogOk(Any, n, log) && k < |log| && log[k].Emitted?
    ensures k > 1 && log[k].index.Some? && log[k - 1] == Dropped(AllBut(log[k].index.value))
    ensures log[k - 2].Resumed? && log[k - 2].child == log[k].index.value && log[k - 2].step.Produces()
    ensures LatestValue(log[..k], log[k].index.value) == Some(log[k - 2].step.v)
  {
    EntryAt(Any, n, log, k);
    var before := log[..k];
    assert before[k - 1] == log[k - 1] && before[..k - 1][k - 2] == log[k - 2];
    assert LatestValue(before, log[k].index.value) == LatestValue(before[..k - 1], log[k].index.value);
  }

  // ANY: after its first event only the winner is ever resumed or announced.
  lemma {:induction false} AnyKeepsItsWinner(n: nat, log: seq<Entry>, k: nat, m: nat)
    requires LogOk(Any, n, log) && k < m < |log| && log[k].Emitted?
    ensures log[m].Resumed? ==> Some(log[m].child) == log[k].index
    ensures log[m].Emitted? ==> log[m].index == log[k].index
  {
    EntryAt(Any, n, log, m);
    WinnerPersists(n, log, k, m);
  }

  lemma {:induction false} WinnerPersists(n: nat, log: seq<Entry>, k: nat, m: nat)
    requires LogOk(Any, n, log) && k < m <= |log| && log[k].Emitted?
    ensures log[k].index.Some? && LastEvent(log[..m]) == log[k].index
  {
    EntryAt(Any, n, log, k);
    assert log[..m][..m - 1] == log[..m - 1] && log[..m][m - 1] == log[m - 1];
    if k < m - 1 {
      WinnerPersists(n, log, k, m - 1);
      EntryAt(Any, n, log, m - 1);
    }
  }

  // Child `i` has a turn, or is dropped, somewhere strictly between `a` and `b`.
  ghost predicate HasTurn(log: seq<Entry>, a: nat, b: nat, i: nat)
    requires b <= |log|
  {
    exists c :: a < c < b && ((log[c].Resumed? && log[c].child == i) || (log[c].Dropped? && log[c].group.Has(i)))
  }

  lemma {:induction false} PendingSince(log: seq<Entry>, a: nat, b: nat, j: nat, i: nat)
    requires a < b <= |log| && log[a].Resumed? && log[a].child == j && i in log[a].runnable && i != j
    requires forall c :: a < c < b ==> !(log[c].Resumed? && log[c].child == j)
    ensures i in Pending(log[..b], j) || HasTurn(log, a, b, i)
  {
    assert log[..b][..b - 1] == log[..b - 1] && log[..b][b - 1] == log[b - 1];
    if a < b - 1 {
      PendingSince(log, a, b - 1, j, i);
      if HasTurn(log, a, b - 1, i) {
        var c :| a < c < b - 1 && ((log[c].Resumed? && log[c].child == i) || (log[c].Dropped? && log[c].group.Has(i)));
        assert a < c < b;
      } else {
        var e := log[b - 1];
        if (e.Resumed? && e.child == i) || (e.Dropped? && e.group.Has(i)) { assert a < b - 1 < b; }
      }
    }
  }

  // Round-robin fairness, across calls: between two consecutive turns of `j`,
  // every child that was runnable at the first of them has a turn (or is dropped).
  lemma TurnsAreFair(mode: Mode, n: nat, log: seq<Entry>, a: nat, b: nat, j: nat, i: nat)
    requires LogOk(mode, n, log) && mode != Sequence
    requires a < b < |log| && log[a].Resumed? && log[b].Resumed? && log[a].child == log[b].child == j
    requires i in log[a].runnable && i != j
    ensures HasTurn(log, a, b, i)
    decreases b - a
  {
    if c :| a < c < b && log[c].Resumed? && log[c].child == j {
      TurnsAreFair(mode, n, log, a, c, j, i);
      var d :| a < d < c && ((log[d].Resumed? && log[d].child == i) || (log[d].Dropped? && log[d].group.Has(i)));
      assert a < d < b;
    } else {
      PendingSince(log, a, b, j, i);
      EntryAt(mode, n, log, b);
    }
  }
}
