/**
  The coordination combinators. A coordinator owns resumable children, given
  here as scripts of answers, and combines them by mode. Wakes of armed children
  may arrive before every point at which a call looks at who is runnable, so a
  reply of waiting speaks of what the last such look saw.
 */
module Coordination {
  import opened Common
  import opened CoordLog
  import opened CoordState

  // A child's answers, by number of earlier resumes.
  type Script = nat -> Step

  // How a round over the children ends.
  datatype Outcome = Through | Barrier | Fault | Produced(child: nat)

  // What a mode makes of the answer of child `i`.
  function Reaction(mode: Mode, kids: seq<Child>, i: nat, step: Step): Outcome
    requires i < |kids|
  {
    if step.Error? then Fault
    else if mode == All && kids[i].done && kids[i].value.None? then Fault
    else if step.Produces() && (mode == Any || (mode == Latest && AllHaveValue(kids))) then Produced(i)
    else if mode == All && AllHaveValue(kids) then Barrier
    else Through
  }

  class Coordinator {
    const mode: Mode
    const scripts: seq<Script>
    var children: seq<Child>
    var cursor: nat
    var sequenceIndex: nat
    var generation: nat
    var emittedAll: bool
    var cancelled: bool
    var error: bool
    ghost var log: seq<Entry>

    ghost function View(): Coord
      reads this
    {
      Coord(mode, children, cursor, sequenceIndex, generation, emittedAll, cancelled, log)
    }

    ghost predicate Valid()
      reads this
    {
      |children| == |scripts| && Inv(View())
    }

    constructor (mode: Mode, scripts: seq<Script>)
      requires scripts != []
      ensures this.mode == mode && this.scripts == scripts
      ensures Valid() && log == [] && !cancelled && !error
    {
      this.mode, this.scripts := mode, scripts;
      children := seq(|scripts|, _ => Child(0, None, false, false, false));
      cursor, sequenceIndex, generation := 0, 0, 0;
      emittedAll, cancelled, error := false, false, false;
      log := [];
    }

    // Any number of armed children are woken by other threads.
    method Interleave() returns (ghost who: set<nat>)
      modifies this`children
      ensures View() == Wake(old(View()), who)
    {
      var woken: set<nat> := *;
      who := woken;
      var kids := children;
      children := seq(|kids|, i requires 0 <= i < |kids| =>
                        if i in woken && kids[i].armed then kids[i].(waiting := false, armed := false) else kids[i]);
    }

    // Resumes child `i` and retains what it answers.
    method ResumeChild(i: nat) returns (step: Step)
      requires i < |children| == |scripts|
      modifies this`children, this`error, this`log
      ensures old(children[i].done || children[i].waiting) ==> step == Done && View() == old(View()) && error == old(error)
      ensures !old(children[i].done || children[i].waiting) ==>
                && step == scripts[i](old(children[i].resumes))
                && View() == Resume(old(View()), i, step)
                && error == (old(error) || step.Error?)
    {
      var c := children[i];
      if c.done || c.waiting { return Done; }
      ghost var runnable := RunnableSet(View());
      step := scripts[i](c.resumes);
      match step {
        case Value(v) =>
          children := children[i := c.(resumes := c.resumes + 1, value := Some(v))];
        case ValueAndDone(v) =>
          children := children[i := c.(resumes := c.resumes + 1, value := Some(v), done := true)];
        case Wait =>
          children := children[i := c.(resumes := c.resumes + 1, waiting := true)];
        case Done =>
          children := children[i := c.(resumes := c.resumes + 1, done := true)];
        case Error =>
          children := children[i := c.(resumes := c.resumes + 1)];
          error := true;
      }
      log := log + [Resumed(i, step, runnable)];
    }

    // Emits the next event.
    method EmitEvent(index: Option<nat>, final: bool) returns (reply: Reply)
      modifies this`generation, this`log
      ensures View() == Emit(old(View()), index)
      ensures reply == Event(index, generation, final)
    {
      generation := generation + 1;
      log := log + [Emitted(index, generation)];
      reply := Event(index, generation, final);
    }

    // Marks a group of children done, cancelling those that are not.
    method DropChildren(who: Group)
      modifies this`children, this`log
      ensures View() == Drop(old(View()), who)
    {
      for i := 0 to |children|
        invariant |children| == |old(children)| && log == old(log)
        invariant forall x :: 0 <= x < i ==>
                    children[x] == if who.Has(x) then old(children)[x].(done := true) else old(children)[x]
        invariant forall x :: i <= x < |children| ==> children[x] == old(children)[x]
      {
        if who.Has(i) { children := children[i := children[i].(done := true)]; }
      }
      assert children == Drop(old(View()), who).kids;
      log := log + [Dropped(who)];
    }

    // Child `i` was resumed once since `before`, and its answer was a value, which is
    // the one retained; it is done exactly if it said so.
    ghost predicate NewValue(before: seq<Child>, i: nat)
      reads this
    {
      && i < |children| == |scripts| == |before|
      && var step := scripts[i](before[i].resumes);
        && step.Produces() && children[i].value == Some(step.v) && children[i].resumes == before[i].resumes + 1
        && (children[i].done <==> step.ValueAndDone?)
    }

    // The scan has reached a runnable child: resume it and move the cursor on.
    method TakeTurn(ghost k: Call, ghost s1: Coord, ghost s0: Coord, ghost start: nat, ghost n: nat,
                    ghost skipped: nat, i: nat) returns (step: Step)
      requires |children| == |scripts| && mode != Sequence && OnCall(k, s1, s0)
      requires mode == All || mode == AllDone ==> !emittedAll
      requires k.counted && mode == AllDone ==> Exhausts(k.horizon)
      requires Round(k, s0, View(), start, n, skipped) && start < |children| && n < |children|
      requires i == Turn(|children|, start, n) && Runnable(View(), i)
      modifies this`children, this`cursor, this`error, this`log
      ensures |children| == |scripts| && Silent(k, s1, View()) && Answered(View(), i, step)
      ensures error == (old(error) || step.Error?)
      ensures mode != AllDone && step.Produces() ==> NewValue(k.before, i)
      ensures mode == Any ==> Winning(View(), i)
      ensures var outcome := Reaction(mode, children, i, step);
              outcome.Through? || outcome.Barrier? ==>
                && Round(k, s0, View(), start, n + 1, 0)
                && (k.counted ==>
                      Energy(mode, k.whole, k.horizon, children) < Energy(mode, k.whole, k.horizon, s0.kids))
    {
      hide Inv, CanRun, Energy, AtMostOnce, Scanned, Events, RunnableSet, Round, Silent, OnCall, EachOnce, Winning, AllHaveValue;
      ghost var s := View();
      OnCallLatest(k, s0, s, start, n, skipped);
      RunnableIsAwake(s, i);
      step := ResumeChild(i);
      ResumeValues(s.kids, i, step);
      TurnIsModular(|children|, i, 1);
      cursor := (i + 1) % |children|;
      RoundReturns(k, s1, s0, s, start, n, skipped, step, View());
      ghost var outcome := Reaction(mode, children, i, step);
      if outcome.Through? || outcome.Barrier? {
        RoundResumes(k, s0, s, start, n, skipped, step, View());
      }
    }

    // One step of a round: wakes may arrive, then child (start + n) is skipped
    // or given its turn. `moved` says that the child produced or ended.
    method Visit(ghost k: Call, ghost s1: Coord, ghost s0: Coord, start: nat, n: nat, ghost skipped: nat)
      returns (outcome: Outcome, moved: bool, ghost skipped': nat)
      requires |children| == |scripts| && mode != Sequence && OnCall(k, s1, s0)
      requires mode == All || mode == AllDone ==> !emittedAll
      requires k.counted && mode == AllDone ==> Exhausts(k.horizon)
      requires Round(k, s0, View(), start, n, skipped) && start < |children| && n < |children|
      modifies this`children, this`cursor, this`error, this`log
      ensures |children| == |scripts|
      ensures outcome.Through? || outcome.Barrier? ==> Round(k, s0, View(), start, n + 1, skipped')
      ensures (outcome.Through? && moved) || outcome.Barrier? ==>
                (k.counted ==> Energy(mode, k.whole, k.horizon, children) < Energy(mode, k.whole, k.horizon, s0.kids))
      ensures Energy(mode, k.whole, k.horizon, old(children)) < Energy(mode, k.whole, k.horizon, s0.kids) &&
              outcome.Through? && k.counted ==>
                Energy(mode, k.whole, k.horizon, children) < Energy(mode, k.whole, k.horizon, s0.kids)
      ensures outcome.Barrier? ==> mode == All
      ensures outcome.Fault? || outcome.Produced? ==> Silent(k, s1, View())
      ensures outcome.Produced? ==> Chosen(View(), outcome.child) && NewValue(k.before, outcome.child)
      ensures if outcome.Fault? then Faulted(View()) else error == old(error)
    {
      hide Inv, CanRun, Energy, AtMostOnce, Scanned, Events, RunnableSet, Round, Silent, OnCall, EachOnce, AnyRunnable,
           Winning, AllHaveValue;
      ghost var s := View();
      ghost var who := Interleave();
      RoundWakes(k, s0, s, start, n, skipped, who);
      TurnIsModular(|children|, start, n);
      var i := (start + n) % |children|;
      if !CanRun(mode, children, sequenceIndex, i) {
        RoundSkips(k, s0, View(), start, n, skipped);
        return Through, false, skipped + 1;
      }
      var step := TakeTurn(k, s1, s0, start, n, skipped, i);
      return Reaction(mode, children, i, step), step.Produces() || step.Done?, 0;
    }

    // One round over the children from the cursor, shared by ALL, ALL_DONE, ANY
    // and LATEST: resume whoever is runnable, and stop where the mode reacts.
    method Scan(ghost k: Call, ghost s1: Coord) returns (outcome: Outcome, progressed: bool)
      requires |children| == |scripts| && mode != Sequence && OnCall(k, s1, View())
      requires mode == All || mode == AllDone ==> !emittedAll
      requires k.counted && mode == AllDone ==> Exhausts(k.horizon)
      modifies this`children, this`cursor, this`error, this`log
      ensures |children| == |scripts|
      ensures outcome.Through? || outcome.Barrier? ==> OnCall(k, s1, View())
      ensures outcome.Through? && k.counted ==>
                var e0, e := Energy(mode, k.whole, k.horizon, old(children)), Energy(mode, k.whole, k.horizon, children);
                e <= e0 && (progressed || AnyRunnable(View()) || children != old(children) ==> e < e0)
      ensures outcome.Barrier? ==> mode == All
      ensures outcome.Barrier? && k.counted ==>
                Energy(mode, k.whole, k.horizon, children) < Energy(mode, k.whole, k.horizon, old(children))
      ensures outcome.Fault? || outcome.Produced? ==> Silent(k, s1, View())
      ensures outcome.Produced? ==> Chosen(View(), outcome.child) && NewValue(k.before, outcome.child)
      ensures if outcome.Fault? then Faulted(View()) else error == old(error)
    {
      hide Energy, Round, Silent, OnCall, AnyRunnable, Chosen, Exhausts, Faulted;
      progressed := false;
      var start, n := cursor, 0;
      ghost var s0, skipped := View(), 0;
      RoundOpens(k, s1, s0);
      while n < |children|
        invariant n <= |children| == |scripts| && error == old(error)
        invariant Round(k, s0, View(), start, n, skipped)
        invariant progressed && k.counted ==>
                    Energy(mode, k.whole, k.horizon, children) < Energy(mode, k.whole, k.horizon, s0.kids)
      {
        var moved;
        outcome, moved, skipped := Visit(k, s1, s0, start, n, skipped);
        if outcome.Fault? || outcome.Produced? { return; }
        if outcome.Barrier? {
          RoundCloses(k, s1, s0, View(), start, n + 1, skipped);
          return;
        }
        if moved { progressed := true; }
        n := n + 1;
      }
      ghost var s := View();
      ghost var who := Interleave();
      RoundWakes(k, s0, s, start, n, skipped, who);
      RoundCloses(k, s1, s0, View(), start, n, skipped);
      if k.counted && AnyRunnable(View()) { RoundEnds(k, s0, View(), start, skipped); }
      if k.counted && children != s0.kids { RoundUsed(k, s0, View(), start, n, skipped); }
      outcome := Through;
    }

    // Every script stops producing plain values from answer `horizon` on.
    ghost predicate Exhausts(horizon: nat) {
      forall i, r: nat :: 0 <= i < |scripts| && r >= horizon ==> !scripts[i](r).Value?
    }

    // ALL: a one-shot barrier over first values.
    method ResumeAll() returns (reply: Reply)
      requires Valid() && mode == All && !cancelled
      modifies this
      ensures Valid() && Replied(old(View()), View(), reply) && EachOnce(old(children), children)
      ensures reply.Event? ==>
                reply.index == None && reply.final && emittedAll && AllHaveValue(children) && AreAllDone(children)
      ensures reply.Finished? <==> old(emittedAll)
      ensures reply.Waiting? ==> !AllHaveValue(children)
      ensures reply.Waiting? ==>
                forall i :: 0 <= i < |children| && children[i].done && children[i].value.None? ==> old(children)[i].done
      ensures if reply.Failed? then Faulted(View()) else error == old(error)
    {
      hide Inv, CanRun, Energy, OnCall, Silent, Replied, EachOnce, Exhausts, Faulted;
      ghost var s1 := View();
      ghost var k := Call(children, false, 0, true);
      CallStarts(k, s1);
      if emittedAll {
        Quiet(k, s1, s1);
        return Finished;
      }
      while true
        invariant |children| == |scripts| && !emittedAll && OnCall(k, s1, View()) && error == old(error)
        decreases Energy(All, false, 0, children)
      {
        if AllHaveValue(children) {
          BarrierEmits(k, s1, View());
          DropChildren(Everyone);
          emittedAll := true;
          reply := EmitEvent(None, true);
          return;
        }
        var outcome, progressed := Scan(k, s1);
        if outcome.Fault? {
          Quiet(k, s1, View());
          return Failed;
        }
        if AllHaveValue(children) { continue; }
        if !progressed && !AnyCanRun(mode, children, sequenceIndex) {
          Continuing(k, s1, View());
          Quiet(k, s1, View());
          return Waiting;
        }
      }
    }

    // ALL_DONE: a barrier over completion. A child that keeps producing values
    // keeps the call going, so this runs at most `rounds` rounds; None means
    // that the call is still running.
    method ResumeAllDone(rounds: nat, ghost horizon: nat) returns (reply: Option<Reply>)
      requires Valid() && mode == AllDone && !cancelled
      modifies this
      ensures Valid() && old(log) <= log
      ensures reply.Some? ==> Replied(old(View()), View(), reply.value)
      ensures reply.Some? && reply.value.Event? ==>
                reply.value.index == None && reply.value.final && emittedAll && AllHaveValue(children) && AreAllDone(children)
      ensures reply.Some? ==> (reply.value.Finished? <==> old(emittedAll))
      ensures reply.Some? && reply.value.Waiting? ==> !AreAllDone(children)
      ensures if reply == Some(Failed) then Faulted(View()) else error == old(error)
      ensures Exhausts(horizon) && rounds > Energy(AllDone, false, horizon, old(children)) ==> reply.Some?
    {
      hide Inv, CanRun, Energy, OnCall, Silent, Replied, EachOnce, AllHaveValue, AreAllDone, Exhausts, Answered;
      ghost var s1 := View();
      ghost var k := Call(children, false, horizon, Exhausts(horizon));
      CallStarts(k, s1);
      Quiet(k, s1, s1);
      if emittedAll { return Some(Finished); }
      for round := 0 to rounds
        invariant |children| == |scripts| && !emittedAll && OnCall(k, s1, View()) && error == old(error)
        invariant k.counted ==> Energy(AllDone, false, horizon, children) + round <= Energy(AllDone, false, horizon, s1.kids)
      {
        Continuing(k, s1, View());
        Quiet(k, s1, View());
        if AreAllDone(children) {
          if !AllHaveValue(children) { return Some(Failed); }
          AllDoneEmits(k, s1, View());
          emittedAll := true;
          var event := EmitEvent(None, true);
          return Some(event);
        }
        var outcome, progressed := Scan(k, s1);
        if outcome.Fault? {
          Quiet(k, s1, View());
          return Some(Failed);
        }
        if !AreAllDone(children) && !progressed && !AnyCanRun(mode, children, sequenceIndex) {
          Continuing(k, s1, View());
          Quiet(k, s1, View());
          return Some(Waiting);
        }
      }
      Continuing(k, s1, View());
      Quiet(k, s1, View());
      LogGrows(k, s1, View());
      return None;
    }

    // ANY: the first value wins and the other children are cancelled. The
    // winner itself is not marked done.
    method ResumeAny() returns (reply: Reply)
      requires Valid() && mode == Any && !cancelled
      modifies this
      ensures Valid() && Replied(old(View()), View(), reply) && EachOnce(old(children), children)
      ensures reply.Event? ==>
                && reply.final && reply.index.Some? && reply.index.value < |children|
                && NewValue(old(children), reply.index.value)
                && forall i :: 0 <= i < |children| && i != reply.index.value ==> children[i].done
      ensures reply.Finished? ==> AreAllDone(children)
      ensures reply.Waiting? ==> !AreAllDone(children)
      ensures if reply.Failed? then Faulted(View()) else error == old(error)
    {
      hide Inv, CanRun, Energy, OnCall, Silent, Replied, EachOnce, AllHaveValue, AreAllDone, Exhausts, Winning, Faulted;
      ghost var s1 := View();
      ghost var k := Call(children, false, 0, true);
      CallStarts(k, s1);
      while true
        invariant |children| == |scripts| && OnCall(k, s1, View()) && error == old(error)
        decreases Energy(Any, false, 0, children)
      {
        var outcome, progressed := Scan(k, s1);
        if outcome.Fault? {
          Quiet(k, s1, View());
          return Failed;
        }
        if outcome.Produced? {
          AnyEmits(k, s1, View(), outcome.child);
          DropChildren(AllBut(outcome.child));
          reply := EmitEvent(Some(outcome.child), true);
          return;
        }
        Continuing(k, s1, View());
        Quiet(k, s1, View());
        if AreAllDone(children) { return Finished; }
        if !AnyCanRun(mode, children, sequenceIndex) { return Waiting; }
      }
    }

    // LATEST: once every child holds a value, each further value is an event.
    method ResumeLatest() returns (reply: Reply)
      requires Valid() && mode == Latest && !cancelled
      modifies this
      ensures Valid() && Replied(old(View()), View(), reply) && EachOnce(old(children), children)
      ensures reply.Event? ==>
                && reply.index.Some? && NewValue(old(children), reply.index.value) && AllHaveValue(children)
                && (reply.final <==> AreAllDone(children))
      ensures reply.Finished? ==>
                AreAllDone(children) || exists i :: 0 <= i < |children| && children[i].done && children[i].value.None?
      ensures reply.Waiting? ==> !exists i :: 0 <= i < |children| && children[i].done && children[i].value.None?
      ensures if reply.Failed? then Faulted(View()) else error == old(error)
    {
      hide Inv, CanRun, Energy, OnCall, Silent, Replied, EachOnce, AllHaveValue, AreAllDone, Exhausts, Faulted;
      ghost var s1 := View();
      ghost var k := Call(children, AllHaveValue(children), 0, true);
      CallStarts(k, s1);
      while true
        invariant |children| == |scripts| && OnCall(k, s1, View()) && error == old(error)
        decreases Energy(Latest, k.whole, 0, children)
      {
        Continuing(k, s1, View());
        Quiet(k, s1, View());
        if AreAllDone(children) { return Finished; }
        var outcome, progressed := Scan(k, s1);
        if outcome.Fault? {
          Quiet(k, s1, View());
          return Failed;
        }
        if outcome.Produced? {
          var final := AreAllDone(children);
          LatestEmits(k, s1, View(), outcome.child, final);
          reply := EmitEvent(Some(outcome.child), final);
          return;
        }
        Continuing(k, s1, View());
        Quiet(k, s1, View());
        if exists i :: 0 <= i < |children| && children[i].done && children[i].value.None? { return Finished; }
        if !progressed && !AnyCanRun(mode, children, sequenceIndex) { return Waiting; }
      }
    }

    // The current child of a SEQUENCE holds a value: finish it and announce it.
    method AnnounceCurrent(ghost s1: Coord, ghost untouched: bool) returns (reply: Reply)
      requires InSequence(s1, View(), untouched) && sequenceIndex < |children| && children[sequenceIndex].value.Some?
      modifies this`children, this`sequenceIndex, this`generation, this`log
      ensures |children| == |old(children)| && Inv(View())
      ensures EachOnce(s1.kids, children) && Replied(s1, View(), reply)
      ensures reply == Event(Some(old(sequenceIndex)), generation, sequenceIndex == |children|)
      ensures sequenceIndex == old(sequenceIndex) + 1
      ensures children[old(sequenceIndex)] == old(children)[old(sequenceIndex)].(done := true)
    {
      hide Inv, Replied, EachOnce, InSequence;
      var i := sequenceIndex;
      var final := i + 1 == |children|;
      InSequenceAnnounces(s1, View(), untouched, final);
      DropChildren(Only(i));
      sequenceIndex := sequenceIndex + 1;
      reply := EmitEvent(Some(i), final);
    }

    // The current child of a SEQUENCE has no value yet: resume it. None means
    // that it has one now, or that it ended and the sequence moves on.
    method ResumeCurrent(ghost s1: Coord) returns (reply: Option<Reply>)
      requires |children| == |scripts| && InSequence(s1, View(), true)
      requires sequenceIndex < |children| && Runnable(View(), sequenceIndex)
      modifies this`children, this`error, this`log
      ensures |children| == |scripts| && InSequence(s1, View(), false)
      ensures reply.Some? ==> reply.value.Failed? || (reply.value.Waiting? && children[sequenceIndex].waiting)
      ensures reply.None? ==> children[sequenceIndex].value.Some? || children[sequenceIndex].done
      ensures if reply == Some(Failed) then Faulted(View()) else error == old(error)
    {
      hide Inv, InSequence, RunnableSet;
      ghost var s := View();
      var step := ResumeChild(sequenceIndex);
      InSequenceResumes(s1, s, step);
      assert Answered(View(), sequenceIndex, step);
      if step.Error? { return Some(Failed); }
      if step.Wait? { return Some(Waiting); }
      return None;
    }

    // One step of a SEQUENCE: wakes may arrive, then the current child is resumed,
    // announced or passed over. None means that the sequence has moved past it.
    method SequenceTurn(ghost s1: Coord) returns (reply: Option<Reply>)
      requires |children| == |scripts| && InSequence(s1, View(), true) && sequenceIndex < |children|
      modifies this`children, this`sequenceIndex, this`generation, this`error, this`log
      ensures |children| == |scripts|
      ensures reply.None? ==>
                InSequence(s1, View(), true) && error == old(error) && sequenceIndex == old(sequenceIndex) + 1
      ensures reply.Some? ==> Inv(View()) && Replied(s1, View(), reply.value) && EachOnce(s1.kids, children)
      ensures reply.Some? ==> !reply.value.Finished? && (reply.value.Failed? ==> Faulted(View()))
      ensures reply.Some? && !reply.value.Failed? ==> error == old(error)
      ensures reply.Some? && reply.value.Event? ==>
                && reply.value.index == Some(old(sequenceIndex)) && sequenceIndex == old(sequenceIndex) + 1
                && (reply.value.final <==> sequenceIndex == |children|)
                && children[old(sequenceIndex)].done && children[old(sequenceIndex)].value.Some?
      ensures reply.Some? && !reply.value.Event? ==> sequenceIndex == old(sequenceIndex)
      ensures reply == Some(Waiting) ==> children[sequenceIndex].waiting
    {
      hide Inv, Replied, EachOnce, InSequence, RunnableSet, Faulted, AllHaveValue;
      ghost var s := View();
      ghost var who := Interleave();
      InSequenceWakes(s1, s, who);
      InSequenceReturns(s1, View(), true);
      ghost var untouched := true;
      if children[sequenceIndex].waiting { return Some(Waiting); }
      if !children[sequenceIndex].done && children[sequenceIndex].value.None? {
        reply := ResumeCurrent(s1);
        untouched := false;
        InSequenceReturns(s1, View(), false);
        if reply.Some? { return; }
      }
      if children[sequenceIndex].value.Some? {
        var event := AnnounceCurrent(s1, untouched);
        return Some(event);
      }
      InSequenceAdvances(s1, View(), untouched);
      sequenceIndex := sequenceIndex + 1;
      return None;
    }

    // SEQUENCE: children in order, one value each; empty ones are passed over.
    method ResumeSequence() returns (reply: Reply)
      requires Valid() && mode == Sequence && !cancelled
      modifies this`children, this`sequenceIndex, this`generation, this`error, this`log
      ensures Valid() && Replied(old(View()), View(), reply) && EachOnce(old(children), children)
      ensures reply.Event? ==>
                && reply.index.Some? && reply.index.value < |children| && sequenceIndex == reply.index.value + 1
                && (reply.final <==> sequenceIndex == |children|)
                && children[reply.index.value].done && children[reply.index.value].value.Some?
      ensures reply.Finished? ==> sequenceIndex == |children|
      ensures reply.Waiting? ==> sequenceIndex < |children| && children[sequenceIndex].waiting
      ensures if reply.Failed? then Faulted(View()) else error == old(error)
      ensures old(sequenceIndex) <= sequenceIndex
    {
      hide Inv, Replied, EachOnce, InSequence, Faulted;
      ghost var s1 := View();
      SequenceStarts(s1);
      while sequenceIndex < |children|
        invariant |children| == |scripts| && sequenceIndex >= old(sequenceIndex) && InSequence(s1, View(), true)
        invariant error == old(error)
        decreases |children| - sequenceIndex
      {
        var answer := SequenceTurn(s1);
        if answer.Some? { return answer.value; }
      }
      InSequenceReturns(s1, View(), true);
      reply := Finished;
    }

    // Cancels the coordinator and every child.
    method Cancel()
      requires Valid()
      modifies this
      ensures Valid() && cancelled && AreAllDone(children)
      ensures View() == Drop(old(View()).(cancelled := true), Everyone)
    {
      hide Inv;
      CancelKeeps(View());
      cancelled := true;
      DropChildren(Everyone);
    }

    // Arms every waiting child, as the locked part of arming the coordinator does.
    method ArmWaiting()
      requires Valid()
      modifies this`children
      ensures Valid() && View() == Arm(old(View()))
    {
      hide Inv;
      ArmKeeps(View());
      for i := 0 to |children|
        invariant |children| == |old(children)|
        invariant forall x :: 0 <= x < i ==>
                    children[x] == if old(children)[x].waiting then old(children)[x].(armed := true) else old(children)[x]
        invariant forall x :: i <= x < |children| ==> children[x] == old(children)[x]
      {
        if children[i].waiting && !children[i].armed { children := children[i := children[i].(armed := true)]; }
      }
      assert children == Arm(old(View())).kids;
    }

    // The value retained for a child is the latest one it produced.
    method GetValue(i: nat) returns (value: Option<int>)
      requires Valid()
      ensures value == if i < |children| then LatestValue(log, i) else None
    {
      if i >= |children| { return None; }
      assert ChildOk(View(), i);
      value := children[i].value;
    }

    // The resumable operation: cancelled and failed coordinators answer at once.
    method ResumeCoordination(rounds: nat, ghost horizon: nat) returns (reply: Option<Reply>)
      requires Valid()
      modifies this
      ensures Valid() && old(log) <= log
      ensures reply.Some? ==> Replied(old(View()), View(), reply.value)
      ensures reply.None? ==> mode == AllDone
      ensures Exhausts(horizon) && rounds > Energy(AllDone, false, horizon, old(children)) ==> reply.Some?
      ensures old(cancelled) ==> reply == Some(Finished) && View() == old(View())
      ensures !old(cancelled) && old(error) ==> reply == Some(Failed) && View() == old(View())
      ensures !old(cancelled) && !old(error) ==> if reply == Some(Failed) then Faulted(View()) else !error
    {
      hide Inv, Events, Energy, Exhausts, Faulted, AllHaveValue, AreAllDone;
      if cancelled { return Some(Finished); }
      if error { return Some(Failed); }
      var r;
      match mode {
        case All => r := ResumeAll();
        case AllDone =>
          reply := ResumeAllDone(rounds, horizon);
          return;
        case Any => r := ResumeAny();
        case Latest => r := ResumeLatest();
        case Sequence => r := ResumeSequence();
      }
      return Some(r);
    }
  }
}
