/**
  What the manual executor owes: every task it takes gets its body callback (run
  or cancel) and then its finalizer, once each. A task is the scripts its
  callbacks follow, so callbacks may post, shut down, run and ask, to any depth.
 */
module ManualLedger {
  import opened Settlement

  datatype Op = Post(task: Task) | ShutDown(policy: Policy) | RunNested | AskIdle | AskStats

  datatype Task = Task(name: nat, run: seq<Op>, cancel: seq<Op>, finalize: seq<Op>)

  // A callback, named by the index of the task it belongs to.
  datatype Call = Runs(index: nat) | Cancels(index: nat) | Finalizes(index: nat)

  datatype Stage = InBody | Finalized

  function Body(b: Begun<Task>, i: nat): Call { if b.cancel then Cancels(i) else Runs(i) }

  function Script(b: Begun<Task>, i: nat, stage: Stage): seq<Call> {
    if stage == InBody then [Body(b, i)] else [Body(b, i), Finalizes(i)]
  }

  // The script a callback follows.
  function OpsOf(begun: seq<Begun<Task>>, call: Call): seq<Op>
    requires call.index < |begun|
  {
    var task := begun[call.index].task;
    match call
    case Runs(_) => task.run
    case Cancels(_) => task.cancel
    case Finalizes(_) => task.finalize
  }

  // The callbacks of task i, in the order they were made.
  function CallsOf(calls: seq<Call>, i: nat): seq<Call> {
    if calls == [] then []
    else
      var last := calls[|calls| - 1];
      CallsOf(calls[..|calls| - 1], i) + if last.index == i then [last] else []
  }

  lemma CallsOfAppend(calls: seq<Call>, c: Call, i: nat)
    ensures CallsOf(calls + [c], i) == if c.index == i then CallsOf(calls, i) + [c] else CallsOf(calls, i)
  {
    assert (calls + [c])[..|calls|] == calls;
  }

  lemma {:induction false} NoCallsYet(calls: seq<Call>, i: nat)
    requires forall k :: 0 <= k < |calls| ==> calls[k].index < i
    ensures CallsOf(calls, i) == []
  {
    if calls != [] {
      NoCallsYet(calls[..|calls| - 1], i);
    }
  }

  // Each task begun has had exactly the callbacks its stage says.
  predicate Ledger(begun: seq<Begun<Task>>, stages: seq<Stage>, calls: seq<Call>) {
    && |stages| == |begun|
    && (forall k :: 0 <= k < |calls| ==> calls[k].index < |begun|)
    && (forall i :: 0 <= i < |begun| ==> CallsOf(calls, i) == Script(begun[i], i, stages[i]))
  }

  lemma LedgerBegins(begun: seq<Begun<Task>>, stages: seq<Stage>, calls: seq<Call>, b: Begun<Task>)
    requires Ledger(begun, stages, calls)
    ensures Ledger(begun + [b], stages + [InBody], calls + [Body(b, |begun|)])
  {
    var n := |begun|;
    var longer := calls + [Body(b, n)];
    NoCallsYet(calls, n);
    forall i | 0 <= i < n + 1 ensures CallsOf(longer, i) == Script((begun + [b])[i], i, (stages + [InBody])[i]) {
      CallsOfAppend(calls, Body(b, n), i);
    }
  }

  lemma LedgerFinalizes(begun: seq<Begun<Task>>, stages: seq<Stage>, calls: seq<Call>, n: nat)
    requires Ledger(begun, stages, calls) && n < |begun| && stages[n] == InBody
    ensures Ledger(begun, stages[n := Finalized], calls + [Finalizes(n)])
  {
    var longer := calls + [Finalizes(n)];
    forall i | 0 <= i < |begun| ensures CallsOf(longer, i) == Script(begun[i], i, stages[n := Finalized][i]) {
      CallsOfAppend(calls, Finalizes(n), i);
    }
  }

  lemma {:induction false} CountsSplit(begun: seq<Begun<Task>>)
    ensures Count(begun, false) + Count(begun, true) == |begun|
  {
    if begun != [] {
      CountsSplit(begun[..|begun| - 1]);
    }
  }

  // Tasks begun, slots being cancelled and the queue are the tasks admitted, in order.
  predicate InOrder(begun: seq<Begun<Task>>, due: seq<Task>, queue: seq<Task>, admitted: seq<Task>) {
    Tasks(begun) + due + queue == admitted
  }

  lemma OrderPosts(begun: seq<Begun<Task>>, queue: seq<Task>, admitted: seq<Task>, t: Task)
    requires InOrder(begun, [], queue, admitted)
    ensures InOrder(begun, [], queue + [t], admitted + [t])
  {
  }

  lemma OrderRuns(begun: seq<Begun<Task>>, queue: seq<Task>, admitted: seq<Task>, cancel: bool)
    requires InOrder(begun, [], queue, admitted) && queue != []
    ensures InOrder(begun + [Begun(queue[0], cancel)], [], queue[1..], admitted)
  {
    assert queue == [queue[0]] + queue[1..];
    assert Tasks(begun + [Begun(queue[0], cancel)]) == Tasks(begun) + [queue[0]];
  }

  lemma OrderCancels(begun: seq<Begun<Task>>, due: seq<Task>, admitted: seq<Task>)
    requires InOrder(begun, due, [], admitted) && due != []
    ensures InOrder(begun + [Begun(due[0], true)], due[1..], [], admitted)
  {
    assert due == [due[0]] + due[1..];
    assert Tasks(begun + [Begun(due[0], true)]) == Tasks(begun) + [due[0]];
  }

  lemma OrderClears(begun: seq<Begun<Task>>, queue: seq<Task>, admitted: seq<Task>)
    requires InOrder(begun, [], queue, admitted)
    ensures InOrder(begun, queue, [], admitted)
  {
    assert Tasks(begun) + [] + queue == Tasks(begun) + queue + [];
  }

  // The slots being cancelled still hold the tasks they held.
  predicate Slots(tasks: seq<Task>, due: seq<Task>, end: nat) {
    |due| <= end <= |tasks| && tasks[end - |due|..end] == due
  }

  lemma SlotsNone(tasks: seq<Task>)
    ensures Slots(tasks, [], 0)
  {
  }

  lemma SlotsAll(tasks: seq<Task>, count: nat)
    requires count <= |tasks|
    ensures Slots(tasks, tasks[..count], count)
  {
  }

  lemma SlotsNext(tasks: seq<Task>, due: seq<Task>, end: nat)
    requires Slots(tasks, due, end) && due != []
    ensures |due| <= end <= |tasks| && due[0] == tasks[end - |due|] && Slots(tasks, due[1..], end)
  {
  }
}
