/**
  The coordinator's steps as the waiting protocol sees them: whatever a mode does
  to its children is a step of that protocol, with the openness the mode gives.
 */
module CoordTie {
  import opened Common
  import opened CoordLog
  import C = CoordState
  import W = CoordWait

  // Whether the mode would resume child `i` if it were awake.
  predicate Opens(s: C.Coord, i: nat) {
    && i < |s.kids| && !s.kids[i].done
    && match s.mode
       case All => s.kids[i].value.None?
       case AllDone => true
       case Any => true
       case Latest => C.AllHaveValue(s.kids) || s.kids[i].value.None?
       case Sequence => i == s.sequenceIndex && s.kids[i].value.None?
  }

  // The children as the waiting protocol sees them.
  function Seen(s: C.Coord, registered: seq<bool>): seq<W.Child>
    requires |registered| == |s.kids|
  {
    seq(|s.kids|, i requires 0 <= i < |s.kids| =>
          W.Child(s.kids[i].waiting, s.kids[i].armed, Opens(s, i), registered[i]))
  }

  function OpenNow(s: C.Coord): seq<bool> {
    seq(|s.kids|, i requires 0 <= i < |s.kids| => Opens(s, i))
  }

  // Runnable means the same to both.
  lemma RunnableIsRunnable(s: C.Coord, registered: seq<bool>, i: nat)
    requires |registered| == |s.kids| && i < |s.kids|
    ensures C.Runnable(s, i) <==> Seen(s, registered)[i].Runnable()
  {
  }

  // A new coordinator starts the protocol.
  lemma NewIsInit(s: C.Coord)
    requires forall i :: 0 <= i < |s.kids| ==> !s.kids[i].waiting && !s.kids[i].armed
    ensures Seen(s, seq(|s.kids|, _ => false)) == W.Init(OpenNow(s)).kids
  {
  }

  // Only child `i` may have begun to wait; what else the coordinator did (retain a
  // value, announce, drop children, move on) shows as openness.
  predicate OnlyResumed(s: C.Coord, t: C.Coord, i: nat) {
    && |t.kids| == |s.kids| && i < |s.kids|
    && forall k :: 0 <= k < |s.kids| ==>
         t.kids[k].armed == s.kids[k].armed && (k != i ==> t.kids[k].waiting == s.kids[k].waiting)
  }

  lemma ResumeIsOnlyResumed(s: C.Coord, i: nat, step: Step)
    requires i < |s.kids|
    ensures OnlyResumed(s, C.Resume(s, i, step), i)
  {
  }

  lemma EmitAndDropShowNothing(s: C.Coord, t: C.Coord, i: nat, index: Option<nat>, who: Group)
    requires OnlyResumed(s, t, i)
    ensures OnlyResumed(s, C.Emit(t, index), i) && OnlyResumed(s, C.Drop(t, who), i)
  {
  }

  // Resuming a runnable child, in any mode, is a step of the waiting protocol.
  lemma ResumeIsStep(w: W.State, s: C.Coord, t: C.Coord, registered: seq<bool>, i: nat, errs: bool)
    requires |registered| == |s.kids| && w.kids == Seen(s, registered) && w.arming.None? && !w.closed
    requires i < |s.kids| && C.Runnable(s, i) && OnlyResumed(s, t, i)
    ensures var step := W.Step.Resume(i, t.kids[i].waiting, OpenNow(t), errs);
            W.Enabled(w, step) && W.Apply(w, step) == w.(kids := Seen(t, registered), closed := errs)
  {
    RunnableIsRunnable(s, registered, i);
    var step := W.Step.Resume(i, t.kids[i].waiting, OpenNow(t), errs);
    assert W.Apply(w, step).kids == Seen(t, registered);
  }

  // A turn as the modes take it: resume child `i`, drop some children, announce,
  // move on.
  function React(s: C.Coord, i: nat, answer: Step, drop: Option<Group>, emit: Option<Option<nat>>, index: nat): C.Coord
    requires i < |s.kids|
  {
    var resumed := C.Resume(s, i, answer);
    var dropped := if drop.Some? then C.Drop(resumed, drop.value) else resumed;
    var emitted := if emit.Some? then C.Emit(dropped, emit.value) else dropped;
    emitted.(sequenceIndex := index)
  }

  lemma ReactionIsStep(w: W.State, s: C.Coord, registered: seq<bool>, i: nat, answer: Step,
                       drop: Option<Group>, emit: Option<Option<nat>>, index: nat)
    requires |registered| == |s.kids| && w.kids == Seen(s, registered) && w.arming.None? && !w.closed
    requires i < |s.kids| && C.Runnable(s, i)
    ensures var t := React(s, i, answer, drop, emit, index);
            var step := W.Step.Resume(i, answer.Wait?, OpenNow(t), answer.Error?);
            && |t.kids| == |registered| && W.Enabled(w, step)
            && W.Apply(w, step) == w.(kids := Seen(t, registered), closed := answer.Error?)
  {
    hide Seen, OpenNow, W.Enabled, W.Apply;
    ResumeIsOnlyResumed(s, i, answer);
    var resumed := C.Resume(s, i, answer);
    if drop.Some? {
      EmitAndDropShowNothing(s, resumed, i, None, drop.value);
    }
    var t := React(s, i, answer, drop, emit, index);
    assert OnlyResumed(s, t, i) && t.kids[i].waiting == answer.Wait?;
    ResumeIsStep(w, s, t, registered, i, answer.Error?);
  }

  // So is waking a registered child ...
  lemma WakeIsStep(w: W.State, s: C.Coord, registered: seq<bool>, i: nat)
    requires |registered| == |s.kids| && w.kids == Seen(s, registered)
    requires i < |s.kids| && registered[i] && s.kids[i].armed
    ensures W.Enabled(w, W.ChildWakes(i))
    ensures W.Apply(w, W.ChildWakes(i)).kids == Seen(C.Wake(s, {i}), registered[i := false])
  {
    assert C.AllHaveValue(s.kids) <==> C.AllHaveValue(C.Wake(s, {i}).kids) by {
      assert forall k :: 0 <= k < |s.kids| ==> C.Wake(s, {i}).kids[k].value == s.kids[k].value;
    }
  }

  // ... and arming the children that wait.
  lemma ArmIsStep(w: W.State, s: C.Coord, registered: seq<bool>)
    requires |registered| == |s.kids| && w.kids == Seen(s, registered) && w.arming.None? && !w.closed
    ensures W.Enabled(w, W.BeginArm)
    ensures W.Apply(w, W.BeginArm).kids == Seen(C.Arm(s), registered)
  {
    assert C.AllHaveValue(s.kids) <==> C.AllHaveValue(C.Arm(s).kids) by {
      assert forall k :: 0 <= k < |s.kids| ==> C.Arm(s).kids[k].value == s.kids[k].value;
    }
  }
}
