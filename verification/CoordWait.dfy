/**
  Aggregate waiting of a coordinator. The parent arms one waker; the coordinator
  arms its waiting children and passes the parent's waker on, once, to whoever
  wakes first. Arming is a locked section followed by unlocked steps, and child
  wakes interleave with all of them.
 */
module CoordWait {
  import opened Common

  // `open` is what the mode makes of the child: it would be resumed if awake.
  // `registered` means that the child's waitable holds the coordinator's waker.
  datatype Child = Child(waiting: bool, armed: bool, open: bool, registered: bool)
  {
    predicate Runnable() { !waiting && open }
  }

  // An arm call between its locked section and its return.
  datatype Arming = Arming(todo: seq<nat>, ready: bool, failed: bool)

  // Arms are numbered; the waker of arm `k` is the number `k`.
  datatype State = State(
    kids: seq<Child>,
    closed: bool,            // cancelled, or an error is stored
    waiter: Option<nat>,     // the stored waker
    arms: nat,
    arming: Option<Arming>,
    taken: set<nat>,         // wakers taken out by child wakes, not yet invoked
    invoked: seq<nat>,       // history: wakers invoked, in order
    failed: set<nat>,        // history: arms that reported failure
    owed: set<nat>           // history: arms due an invocation
  )

  datatype Step =
    | BeginArm                                 // the locked section of arming
    | ArmOne                                   // one child's waitable accepts
    | ArmFails                                 // one child's waitable refuses
    | EndArm                                   // the arm call returns
    | ChildWakes(child: nat)                   // the locked section of a child wake
    | Invoke(waker: nat)                       // a child wake calls the parent
    // The coordinator resumes a child and reacts: the child may wait, any child
    // may become open or cease to be, and an error may be stored.
    | Resume(child: nat, waits: bool, opens: seq<bool>, errs: bool)

  // ---- The locked section of arming ----

  function NeedsArming(c: Child): bool { c.waiting && !c.armed }

  // The children to arm, in order.
  function ToArm(kids: seq<Child>): seq<nat> {
    if kids == [] then []
    else
      var n := |kids| - 1;
      ToArm(kids[..n]) + if NeedsArming(kids[n]) then [n] else []
  }

  function MarkArmed(kids: seq<Child>): seq<Child> {
    seq(|kids|, i requires 0 <= i < |kids| => if NeedsArming(kids[i]) then kids[i].(armed := true) else kids[i])
  }

  predicate SomeRunnable(kids: seq<Child>) {
    exists i :: 0 <= i < |kids| && kids[i].Runnable()
  }

  method ArmSection(kids: seq<Child>) returns (marked: seq<Child>, todo: seq<nat>, ready: bool)
    ensures marked == MarkArmed(kids) && todo == ToArm(kids) && (ready <==> SomeRunnable(kids))
    ensures forall i: nat :: i in todo <==> i < |kids| && kids[i].waiting && !kids[i].armed
    ensures |marked| == |kids| && forall i :: 0 <= i < |kids| ==>
              marked[i] == kids[i].(armed := kids[i].armed || kids[i].waiting)
    ensures ready <==> exists i :: 0 <= i < |kids| && !kids[i].waiting && kids[i].open
  {
    ToArmIs(kids);
    marked, todo, ready := kids, [], false;
    for i := 0 to |kids|
      invariant |marked| == |kids| && todo == ToArm(kids[..i])
      invariant forall x :: 0 <= x < i ==> marked[x] == if NeedsArming(kids[x]) then kids[x].(armed := true) else kids[x]
      invariant forall x :: i <= x < |kids| ==> marked[x] == kids[x]
      invariant ready <==> exists x :: 0 <= x < i && kids[x].Runnable()
    {
      assert kids[..i + 1][..i] == kids[..i];
      if kids[i].waiting && !kids[i].armed {
        marked := marked[i := kids[i].(armed := true)];
        todo := todo + [i];
      } else if kids[i].Runnable() {
        ready := true;
      }
    }
    assert kids[..|kids|] == kids;
  }

  // ---- The step relation ----

  predicate Enabled(s: State, step: Step) {
    match step
    case BeginArm => s.arming.None?
    case ArmOne => s.arming.Some? && s.arming.value.todo != [] && s.arming.value.todo[0] < |s.kids|
    case ArmFails => s.arming.Some? && s.arming.value.todo != [] && s.arming.value.todo[0] < |s.kids|
    case EndArm => s.arming.Some? && s.arming.value.todo == [] && s.arms > 0
    case ChildWakes(i) => i < |s.kids| && s.kids[i].registered
    case Invoke(k) => k in s.taken
    case Resume(i, _, opens, _) =>
      s.arming.None? && !s.closed && i < |s.kids| == |opens| && s.kids[i].Runnable()
  }

  function Apply(s: State, step: Step): State
    requires Enabled(s, step)
  {
    match step
    case BeginArm =>
      var k := s.arms;
      if s.closed then
        s.(waiter := None, arms := k + 1, arming := Some(Arming([], true, false)), owed := s.owed + {k})
      else
        var ready := SomeRunnable(s.kids);
        s.(kids := MarkArmed(s.kids), waiter := if ready then None else Some(k), arms := k + 1,
           arming := Some(Arming(ToArm(s.kids), ready, false)),
           owed := if ready then s.owed + {k} else s.owed)
    case ArmOne =>
      var a := s.arming.value;
      var i := a.todo[0];
      s.(kids := s.kids[i := s.kids[i].(registered := true)], arming := Some(a.(todo := a.todo[1..])))
    case ArmFails =>
      var a := s.arming.value;
      var i := a.todo[0];
      s.(kids := s.kids[i := s.kids[i].(armed := false, waiting := false)],
         closed := true, waiter := None, arming := Some(a.(todo := [], failed := true)))
    case EndArm =>
      var a := s.arming.value;
      s.(arming := None,
         invoked := if a.ready then s.invoked + [s.arms - 1] else s.invoked,
         failed := if a.failed then s.failed + {s.arms - 1} else s.failed)
    case ChildWakes(i) =>
      s.(kids := s.kids[i := s.kids[i].(waiting := false, armed := false, registered := false)],
         waiter := None,
         taken := if s.waiter.Some? then s.taken + {s.waiter.value} else s.taken,
         owed := if s.arms > 0 then s.owed + {s.arms - 1} else s.owed)
    case Invoke(k) => s.(taken := s.taken - {k}, invoked := s.invoked + [k])
    case Resume(i, waits, opens, errs) =>
      s.(kids := Reopened(s.kids[i := s.kids[i].(waiting := waits)], opens), closed := errs)
  }

  // The children with the openness the mode now gives each of them.
  function Reopened(kids: seq<Child>, opens: seq<bool>): seq<Child>
    requires |opens| == |kids|
  {
    seq(|kids|, i requires 0 <= i < |kids| => kids[i].(open := opens[i]))
  }

  // A mode starts with some of the children open.
  function Init(opens: seq<bool>): State {
    State(seq(|opens|, i requires 0 <= i < |opens| => Child(false, false, opens[i], false)),
          false, None, 0, None, {}, [], {}, {})
  }

  // ---- The invariant ----

  // The current arm call is going to invoke its waker when it returns.
  predicate ReadyNow(s: State) { s.arming.Some? && s.arming.value.ready }

  predicate FailedNow(s: State) { s.arming.Some? && s.arming.value.failed }

  // Every waker is in one place: stored, taken, due at return, or invoked.
  ghost predicate OnePlace(s: State) {
    && (forall k :: k in s.invoked || k in s.taken || k in s.owed || k in s.failed ==> k < s.arms)
    && (forall i, j :: 0 <= i < j < |s.invoked| ==> s.invoked[i] != s.invoked[j])
    && (forall k :: k in s.taken ==> k !in s.invoked)
    && (s.waiter.Some? ==> s.arms > 0 && s.waiter.value == s.arms - 1 && !ReadyNow(s) && !FailedNow(s)
                           && s.waiter.value !in s.invoked && s.waiter.value !in s.taken)
    && (s.arming.Some? ==> s.arms > 0)
    && (ReadyNow(s) ==> s.arms - 1 !in s.invoked && s.arms - 1 !in s.taken)
  }

  // Whoever is due an invocation gets one, unless its arm failed.
  ghost predicate DuesPaid(s: State) {
    forall k :: k in s.owed && k !in s.failed && !(FailedNow(s) && k == s.arms - 1) ==>
      k in s.invoked || k in s.taken || (ReadyNow(s) && k == s.arms - 1)
  }

  // The latest arm, unless it failed or is due an invocation, is still stored.
  ghost predicate StillStored(s: State) {
    s.arms > 0 && s.arms - 1 !in s.failed && !FailedNow(s) && s.arms - 1 !in s.owed ==> s.waiter == Some(s.arms - 1)
  }

  // Armed children are registered or about to be.
  ghost predicate Registered(s: State) {
    && (forall i :: 0 <= i < |s.kids| ==> ChildOk(s, i))
    && (s.arming.Some? ==> forall x, y :: 0 <= x < y < |s.arming.value.todo| ==> s.arming.value.todo[x] != s.arming.value.todo[y])
    && (s.arming.Some? ==> forall i :: i in s.arming.value.todo ==> i < |s.kids| && s.kids[i].armed && !s.kids[i].registered)
  }

  ghost predicate ChildOk(s: State, i: int)
    requires 0 <= i < |s.kids|
  {
    var c := s.kids[i];
    && (c.registered ==> c.armed) && (c.armed ==> c.waiting)
    && (c.armed && !c.registered && !s.closed ==> s.arming.Some? && i in s.arming.value.todo)
  }

  // While a waker is stored nothing is closed, nobody is runnable, and every
  // waiting child is armed.
  ghost predicate Quiet(s: State) {
    s.waiter.Some? ==> !s.closed && forall i :: 0 <= i < |s.kids| ==> Asleep(s.kids[i])
  }

  predicate Asleep(c: Child) { !c.Runnable() && (c.waiting ==> c.armed) }

  ghost predicate Inv(s: State) {
    OnePlace(s) && DuesPaid(s) && StillStored(s) && Registered(s) && Quiet(s)
  }

  // ---- Every step keeps the invariant ----

  lemma {:induction false} ToArmIs(kids: seq<Child>)
    ensures forall i: nat :: i in ToArm(kids) <==> i < |kids| && NeedsArming(kids[i])
  {
    if kids != [] {
      var n := |kids| - 1;
      ToArmIs(kids[..n]);
      forall i: nat ensures i in ToArm(kids) <==> i < |kids| && NeedsArming(kids[i]) {
        assert i in ToArm(kids) <==> i in ToArm(kids[..n]) || (NeedsArming(kids[n]) && i == n);
        if i < n { assert kids[..n][i] == kids[i]; }
      }
    }
  }

  lemma {:induction false} ToArmDistinct(kids: seq<Child>)
    ensures forall x, y :: 0 <= x < y < |ToArm(kids)| ==> ToArm(kids)[x] != ToArm(kids)[y]
  {
    if kids != [] {
      var n := |kids| - 1;
      var front := ToArm(kids[..n]);
      ToArmDistinct(kids[..n]);
      ToArmIs(kids[..n]);
      forall x, y | 0 <= x < y < |ToArm(kids)| ensures ToArm(kids)[x] != ToArm(kids)[y] {
        assert ToArm(kids)[x] == front[x];
        assert front[x] in front && front[x] < n;
      }
    }
  }

  lemma BeginArmKeeps(s: State)
    requires Inv(s) && Enabled(s, BeginArm)
    ensures Inv(Apply(s, BeginArm))
  {
    ToArmIs(s.kids);
    ToArmDistinct(s.kids);
    var t := Apply(s, BeginArm);
    forall i | 0 <= i < |t.kids| ensures ChildOk(t, i) { assert ChildOk(s, i); }
    if !s.closed {
      forall i | i in t.arming.value.todo ensures i < |t.kids| && t.kids[i].armed && !t.kids[i].registered {
        assert ChildOk(s, i);
      }
    }
  }

  lemma ArmOneKeeps(s: State)
    requires Inv(s) && Enabled(s, ArmOne)
    ensures Inv(Apply(s, ArmOne))
  {
    var t := Apply(s, ArmOne);
    var todo := s.arming.value.todo;
    assert todo == [todo[0]] + todo[1..];
    forall i | 0 <= i < |t.kids| ensures ChildOk(t, i) { assert ChildOk(s, i); }
    forall i | i in t.arming.value.todo ensures i in todo && i != todo[0] {}
  }

  lemma ArmFailsKeeps(s: State)
    requires Inv(s) && Enabled(s, ArmFails)
    ensures Inv(Apply(s, ArmFails))
  {
    var t := Apply(s, ArmFails);
    forall i | 0 <= i < |t.kids| ensures ChildOk(t, i) { assert ChildOk(s, i); }
  }

  lemma EndArmKeeps(s: State)
    requires Inv(s) && Enabled(s, EndArm)
    ensures Inv(Apply(s, EndArm))
  {
    var t := Apply(s, EndArm);
    forall i | 0 <= i < |t.kids| ensures ChildOk(t, i) { assert ChildOk(s, i); }
  }

  lemma ChildWakesKeeps(s: State, i: nat)
    requires Inv(s) && Enabled(s, ChildWakes(i))
    ensures Inv(Apply(s, ChildWakes(i)))
  {
    var t := Apply(s, ChildWakes(i));
    forall k | 0 <= k < |t.kids| ensures ChildOk(t, k) { assert ChildOk(s, k); }
  }

  lemma OtherKeeps(s: State, step: Step)
    requires Inv(s) && Enabled(s, step) && (step.Invoke? || step.Resume?)
    ensures Inv(Apply(s, step))
  {
    var t := Apply(s, step);
    forall k | 0 <= k < |t.kids| ensures ChildOk(t, k) { assert ChildOk(s, k); }
  }

  lemma StepKeeps(s: State, step: Step)
    requires Inv(s) && Enabled(s, step)
    ensures Inv(Apply(s, step))
  {
    hide Inv, Enabled, Apply;
    match step
    case BeginArm => BeginArmKeeps(s);
    case ArmOne => ArmOneKeeps(s);
    case ArmFails => ArmFailsKeeps(s);
    case EndArm => EndArmKeeps(s);
    case ChildWakes(i) => ChildWakesKeeps(s, i);
    case Invoke(_) => OtherKeeps(s, step);
    case Resume(_, _, _, _) => OtherKeeps(s, step);
  }

  ghost predicate Next(s: State, t: State) {
    exists step: Step :: Enabled(s, step) && t == Apply(s, step)
  }

  // Any interleaving of arming, child wakes and resumes.
  ghost predicate Behavior(run: seq<State>) {
    && |run| > 0 && (exists opens: seq<bool> :: run[0] == Init(opens))
    && forall i, j :: 0 <= i < |run| && j == i + 1 && j < |run| ==> Next(run[i], run[j])
  }

  lemma {:induction false} RunsKeepInvariant(run: seq<State>, k: nat)
    requires Behavior(run) && k < |run|
    ensures Inv(run[k])
  {
    if k > 0 {
      RunsKeepInvariant(run, k - 1);
      assert Next(run[k - 1], run[k]);
      var step: Step :| Enabled(run[k - 1], step) && run[k] == Apply(run[k - 1], step);
      StepKeeps(run[k - 1], step);
    }
  }

  // ---- Main results ----

  // No waker is ever invoked twice.
  lemma WakersInvokedAtMostOnce(run: seq<State>, k: nat, i: nat, j: nat)
    requires Behavior(run) && k < |run| && i < j < |run[k].invoked|
    ensures run[k].invoked[i] != run[k].invoked[j]
  {
    RunsKeepInvariant(run, k);
  }

  // A successful arm with a child runnable at the time, or woken since, has
  // had its waker invoked, or a thread is about to invoke it.
  lemma DueWakersAreInvoked(run: seq<State>, k: nat, waker: nat)
    requires Behavior(run) && k < |run|
    requires waker in run[k].owed && waker !in run[k].failed && !FailedNow(run[k])
    ensures waker in run[k].invoked || waker in run[k].taken || (ReadyNow(run[k]) && waker == run[k].arms - 1)
  {
    RunsKeepInvariant(run, k);
  }

  // When an arm has returned successfully and owes nothing yet, its waker is
  // stored, nobody is runnable, and every waiting child is registered, so that
  // the next wake of any of them takes the waker.
  lemma ArmedMeansReachable(run: seq<State>, k: nat, i: nat)
    requires Behavior(run) && k < |run| && i < |run[k].kids|
    requires var s := run[k]; s.arms > 0 && s.arming.None? && s.arms - 1 !in s.failed && s.arms - 1 !in s.owed
    ensures run[k].waiter == Some(run[k].arms - 1) && !run[k].kids[i].Runnable()
    ensures run[k].kids[i].waiting ==>
              && run[k].kids[i].registered && Enabled(run[k], ChildWakes(i))
              && run[k].arms - 1 in Apply(run[k], ChildWakes(i)).taken
  {
    RunsKeepInvariant(run, k);
    assert Asleep(run[k].kids[i]) && ChildOk(run[k], i);
  }

  lemma ArmedChildrenAreRegistered(run: seq<State>, k: nat, i: nat)
    requires Behavior(run) && k < |run| && i < |run[k].kids|
    requires run[k].arming.None? && !run[k].closed && run[k].kids[i].armed
    ensures run[k].kids[i].registered && run[k].kids[i].waiting
  {
    RunsKeepInvariant(run, k);
    assert ChildOk(run[k], i);
  }
}
