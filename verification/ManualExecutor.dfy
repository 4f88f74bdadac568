/**
  The manual executor: one array of tasks, run or cancelled by its caller, with
  callbacks that may re-enter any operation.
 */
module ManualExecutor {
  import opened Common
  import opened Settlement
  import opened ManualLedger

  datatype AdmissionStatus = Accepted | Full | IsClosed

  const EMPTY: Task := Task(0, [], [], [])

  class ManualExecutor {
    const tasks: array<Task>
    const capacity: nat
    var count: nat
    var settling: nat
    var peakPending: nat
    var accepted: nat
    var completed: nat
    var cancelled: nat
    var rejectedFull: nat
    var rejectedClosed: nat
    var rejectedWouldBlock: nat
    var lifecycle: Lifecycle
    var policy: Option<Policy>
    var running: bool

    ghost var admitted: seq<Task>      // every task accepted, oldest first
    ghost var begun: seq<Begun<Task>>  // every task taken, oldest first
    ghost var stages: seq<Stage>
    ghost var calls: seq<Call>
    ghost var due: seq<Task>           // slots waiting to be cancelled
    ghost var end: nat                 // one past the last of them
    ghost var cancelling: bool         // a slot's callbacks are running

    ghost predicate Valid()
      reads this, tasks
    {
      && tasks.Length == capacity && count <= capacity
      && settling == |due| + (if cancelling then 1 else 0)
      && (settling > 0 ==> count == 0 && lifecycle != Open && settling <= end)
      && (settling == 0 ==> end == 0)
      && Slots(tasks[..], due, end)
      && InOrder(begun, due, tasks[..count], admitted)
      && Ledger(begun, stages, calls)
      && accepted == |admitted|
      && Count(begun, false) == completed + (if running then 1 else 0)
      && Count(begun, true) == cancelled + (if cancelling then 1 else 0)
      && (policy.Some? ==> lifecycle != Open)
      && (lifecycle == Closed ==> count == 0 && settling == 0 && !running)
    }

    // How deep callbacks may still nest: cancel callbacks run nothing further, and
    // a run can only be re-entered by a cancelling shutdown.
    ghost function Level(): nat
      reads this
    {
      if settling > 0 then 0 else if running then 1 else 2
    }

    // What an operation called from a callback leaves as it found it.
    twostate predicate Nested()
      reads this, tasks
    {
      && running == old(running) && settling == old(settling)
      && due == old(due) && end == old(end) && cancelling == old(cancelling)
      && old(begun) <= begun && old(stages) <= stages && old(admitted) <= admitted
      && (forall i :: |old(stages)| <= i < |stages| ==> stages[i] == Finalized)
      && (old(lifecycle) != Open ==> lifecycle != Open && admitted == old(admitted))
      && (old(settling) > 0 ==> tasks[..] == old(tasks[..]) && begun == old(begun))
      && (old(policy).Some? ==> policy == old(policy))
    }

    lemma Conservation()
      requires Valid()
      ensures accepted == count + settling + (if running then 1 else 0) + completed + cancelled
    {
      CountsSplit(begun);
      assert |Tasks(begun) + due + tasks[..count]| == |begun| + |due| + count;
    }

    constructor (slots: nat)
      ensures Valid() && capacity == slots && lifecycle == Open && policy == None && !running && admitted == [] && begun == []
      ensures fresh(tasks)
    {
      capacity := slots;
      tasks := new Task[slots](_ => EMPTY);
      count, settling, peakPending, accepted, completed, cancelled := 0, 0, 0, 0, 0, 0;
      rejectedFull, rejectedClosed, rejectedWouldBlock := 0, 0, 0;
      lifecycle, policy, running := Open, None, false;
      admitted, begun, stages, calls, due, end, cancelling := [], [], [], [], [], 0, false;
      new;
      SlotsNone(tasks[..]);
    }

    method MaybeClose()
      requires Valid()
      modifies this`lifecycle
      ensures Valid()
      ensures lifecycle == if old(lifecycle) == Closing && count == 0 && settling == 0 && !running then Closed else old(lifecycle)
    {
      hide Ledger, InOrder, Count, Slots;
      if lifecycle == Closing && count == 0 && settling == 0 && !running {
        lifecycle := Closed;
      }
    }

    // Append one admitted task.
    method Accept(task: Task)
      requires Valid() && lifecycle == Open && count < capacity
      modifies this`count, this`accepted, this`admitted, this`peakPending, tasks
      ensures Valid() && count == old(count) + 1
      ensures tasks[..count] == old(tasks[..count]) + [task] && admitted == old(admitted) + [task]
      ensures peakPending == if count > old(peakPending) then count else old(peakPending)
    {
      hide Ledger, InOrder, Count, Slots;
      assert due == [];
      OrderPosts(begun, tasks[..count], admitted, task);
      tasks[count] := task;
      SlotsNone(tasks[..]);
      count := count + 1;
      accepted := accepted + 1;
      admitted := admitted + [task];
      assert tasks[..count] == old(tasks[..count]) + [task];
      if count > peakPending {
        peakPending := count;
      }
    }

    method TryPost(task: Task) returns (status: AdmissionStatus)
      requires Valid()
      modifies this, tasks
      ensures Valid() && Nested() && begun == old(begun) && lifecycle == old(lifecycle) && policy == old(policy)
      ensures status == if old(lifecycle) != Open then IsClosed else if old(count) >= capacity then Full else Accepted
      ensures status == Accepted ==>
                count == old(count) + 1 && tasks[..count] == old(tasks[..count]) + [task] && admitted == old(admitted) + [task]
      ensures status != Accepted ==> count == old(count) && tasks[..] == old(tasks[..]) && admitted == old(admitted)
      ensures peakPending == if count > old(count) && count > old(peakPending) then count else old(peakPending)
      ensures rejectedClosed == old(rejectedClosed) + if status == IsClosed then 1 else 0
      ensures rejectedFull == old(rejectedFull) + if status == Full then 1 else 0
    {
      hide Ledger, InOrder, Count, Slots;
      if lifecycle != Open {
        rejectedClosed := rejectedClosed + 1;
        return IsClosed;
      }
      if count >= capacity {
        rejectedFull := rejectedFull + 1;
        return Full;
      }
      Accept(task);
      status := Accepted;
    }

    method WaitIdle(fromCallback: bool) returns (idle: bool)
      requires Valid()
      modifies this
      ensures Valid() && Nested() && begun == old(begun) && count == old(count) && policy == old(policy)
      ensures idle <==> !fromCallback && count == 0 && settling == 0 && !running
      ensures fromCallback ==> lifecycle == old(lifecycle)
      ensures rejectedWouldBlock == old(rejectedWouldBlock) + if fromCallback then 1 else 0
    {
      hide Ledger, InOrder, Count, Slots;
      if fromCallback {
        rejectedWouldBlock := rejectedWouldBlock + 1;
        return false;
      }
      MaybeClose();
      idle := count == 0 && settling == 0 && !running;
    }

    // ---- Taking and settling a task ----

    // Remove the oldest task and shift the rest down.
    method TakeFirst() returns (task: Task)
      requires tasks.Length == capacity && 0 < count <= capacity
      modifies this`count, tasks
      ensures count == old(count) - 1
      ensures task == old(tasks[0]) && tasks[..count] == old(tasks[..count])[1..]
    {
      task := tasks[0];
      for i := 0 to count - 1
        invariant count == old(count)
        invariant forall k :: 0 <= k < i ==> tasks[k] == old(tasks[k + 1])
        invariant forall k :: i <= k < tasks.Length ==> tasks[k] == old(tasks[k])
      {
        tasks[i] := tasks[i + 1];
      }
      count := count - 1;
      assert tasks[..count] == old(tasks[..count])[1..];
    }

    // Note that a task is taken and its body callback made.
    ghost method Record(b: Begun<Task>)
      requires Ledger(begun, stages, calls)
      modifies this`begun, this`stages, this`calls
      ensures begun == old(begun) + [b] && stages == old(stages) + [InBody]
      ensures calls == old(calls) + [Body(b, |old(begun)|)]
      ensures Ledger(begun, stages, calls)
      ensures forall cancel :: Count(begun, cancel) == Count(old(begun), cancel) + if b.cancel == cancel then 1 else 0
    {
      hide Ledger, Count;
      LedgerBegins(begun, stages, calls, b);
      CountAppend(begun, b);
      calls := calls + [Body(b, |begun|)];
      begun := begun + [b];
      stages := stages + [InBody];
    }

    method RunBegin() returns (task: Task)
      requires Valid() && count > 0 && !running && settling == 0
      modifies this, tasks
      ensures Valid() && running && settling == 0 && task == old(tasks[0]) && count == old(count) - 1
      ensures begun == old(begun) + [Begun(task, false)] && stages == old(stages) + [InBody]
      ensures calls == old(calls) + [Runs(|old(begun)|)]
      ensures lifecycle == old(lifecycle) && policy == old(policy) && admitted == old(admitted)
    {
      hide Ledger, InOrder, Count, Slots;
      assert due == [];
      OrderRuns(begun, tasks[..count], admitted, false);
      task := TakeFirst();
      SlotsNone(tasks[..]);
      running := true;
      Record(Begun(task, false));
    }

    // Begin the next slot's cancellation.
    method CancelBegin()
      requires Valid() && due != [] && !cancelling
      modifies this
      ensures Valid() && cancelling && due == old(due)[1..] && settling == old(settling)
      ensures begun == old(begun) + [Begun(old(due)[0], true)] && stages == old(stages) + [InBody]
      ensures calls == old(calls) + [Cancels(|old(begun)|)]
      ensures end == old(end) && lifecycle == old(lifecycle) && policy == old(policy) && admitted == old(admitted)
      ensures running == old(running) && count == old(count)
    {
      hide Ledger, InOrder, Count, Slots;
      assert tasks[..count] == [];
      OrderCancels(begun, due, admitted);
      SlotsNext(tasks[..], due, end);
      Record(Begun(due[0], true));
      cancelling := true;
      due := due[1..];
    }

    method Finalize(ghost n: nat)
      requires Valid() && n < |stages| && stages[n] == InBody
      modifies this`stages, this`calls
      ensures Valid() && stages == old(stages)[n := Finalized] && calls == old(calls) + [Finalizes(n)]
    {
      hide InOrder, Count, Slots;
      LedgerFinalizes(begun, stages, calls, n);
      stages := stages[n := Finalized];
      calls := calls + [Finalizes(n)];
    }

    // The current slot is settled.
    method CancelEnd()
      requires Valid() && cancelling
      modifies this
      ensures Valid() && !cancelling && settling == old(settling) - 1 == |due| && due == old(due)
      ensures settling > 0 ==> end == old(end)
      ensures begun == old(begun) && stages == old(stages) && admitted == old(admitted) && calls == old(calls)
      ensures running == old(running) && lifecycle == old(lifecycle) && policy == old(policy) && count == old(count)
    {
      hide Ledger, InOrder, Count, Slots;
      settling := settling - 1;
      cancelled := cancelled + 1;
      cancelling := false;
      if settling == 0 {
        end := 0;
        SlotsNone(tasks[..]);
      }
    }

    method RunEnd()
      requires Valid() && running && settling == 0
      modifies this
      ensures Valid() && !running && settling == 0 && count == old(count)
      ensures begun == old(begun) && stages == old(stages) && admitted == old(admitted) && calls == old(calls)
      ensures policy == old(policy) && (lifecycle == Open <==> old(lifecycle) == Open)
    {
      hide Ledger, InOrder, Count, Slots;
      running := false;
      completed := completed + 1;
      MaybeClose();
    }

    // ---- Re-entrant operations ----

    // Carry out the script of the callback that has just been made.
    method Perform(ops: seq<Op>)
      requires Valid() && (running || settling > 0)
      requires calls != [] && calls[|calls| - 1].index < |begun| && ops == OpsOf(begun, calls[|calls| - 1])
      modifies this, tasks
      ensures Valid() && Nested()
      decreases Level(), 3
    {
      hide Ledger, InOrder, Count, Slots;
      for i := 0 to |ops|
        invariant Valid() && Nested()
      {
        match ops[i] {
          case Post(task) => var status := TryPost(task);
          case ShutDown(p) => var ok := Shutdown(p);
          case RunNested => var ran := RunOne();
          case AskIdle => var idle := WaitIdle(true);
          case AskStats => MaybeClose();
        }
      }
    }

    method RunOne() returns (ran: bool)
      requires Valid()
      modifies this, tasks
      ensures Valid() && running == old(running) && settling == old(settling)
      ensures ran <==> old(count) > 0 && !old(running) && old(settling) == 0
      ensures ran ==> old(begun) + [Begun(old(tasks[0]), false)] <= begun && old(stages) <= stages
      ensures ran ==> forall i :: |old(stages)| <= i < |stages| ==> stages[i] == Finalized
      ensures ran ==> old(admitted) <= admitted
      ensures !ran ==> Nested() && count == old(count) && begun == old(begun) && lifecycle == old(lifecycle)
      decreases Level(), 0
    {
      hide Ledger, InOrder, Count, Slots;
      if count == 0 || running || settling > 0 {
        return false;
      }
      var task := RunBegin();
      ghost var n := |begun| - 1;
      ghost var stagesWere := stages;
      LedgerAligned();
      Perform(task.run);
      assert stages[n] == stagesWere[n];
      Finalize(n);
      Perform(task.finalize);
      RunEnd();
      ran := true;
    }

    lemma LedgerAligned()
      requires Valid()
      ensures |stages| == |begun|
    {
    }

    // Cancel and finalize one slot; its callbacks read the slot itself.
    method CancelSlot(i: nat)
      requires Valid() && due != [] && !cancelling && i == end - |due|
      modifies this, tasks
      ensures Valid() && !cancelling && due == old(due)[1..] && settling == old(settling) - 1 == |due|
      ensures settling > 0 ==> end == old(end)
      ensures tasks[..] == old(tasks[..]) && count == 0 && admitted == old(admitted) && running == old(running)
      ensures begun == old(begun) + [Begun(old(due)[0], true)] && stages == old(stages) + [Finalized]
      ensures lifecycle != Open && (old(policy).Some? ==> policy == old(policy))
      decreases Level(), 4
    {
      hide Ledger, InOrder, Count, Slots;
      LedgerAligned();
      SlotsNext(tasks[..], due, end);
      CancelBegin();
      ghost var n := |begun| - 1;
      Perform(tasks[i].cancel);
      LedgerAligned();
      Finalize(n);
      Perform(tasks[i].finalize);
      LedgerAligned();
      CancelEnd();
    }

    // Hand every queued task to the cancelling loop.
    method ClearQueue() returns (n: nat)
      requires Valid() && lifecycle != Open && count > 0 && !cancelling
      modifies this
      ensures Valid() && n == old(count) && count == 0 && settling == n == end && !cancelling
      ensures due == tasks[..n]
      ensures begun == old(begun) && stages == old(stages) && admitted == old(admitted)
      ensures running == old(running) && lifecycle == old(lifecycle) && policy == old(policy)
    {
      hide Ledger, InOrder, Count, Slots;
      n := count;
      assert tasks[..][..n] == tasks[..n];
      OrderClears(begun, tasks[..n], admitted);
      SlotsAll(tasks[..], n);
      count := 0;
      settling := n;
      due, end := tasks[..n], n;
      assert tasks[..count] == [];
    }

    // Empty the queue and cancel what it held, oldest first.
    method CancelAll()
      requires Valid() && lifecycle != Open
      modifies this, tasks
      ensures Valid() && Nested() && count == 0 && lifecycle != Open && admitted == old(admitted)
      ensures |begun| == |old(begun)| + old(count) && forall i :: |old(begun)| <= i < |begun| ==> begun[i].cancel
      decreases Level(), 1
    {
      hide Ledger, InOrder, Count, Slots;
      if count == 0 {
        return;
      }
      assert due == [];
      var n := ClearQueue();
      for i := 0 to n
        invariant Valid() && !cancelling && |due| == settling == n - i && count == 0 && lifecycle != Open
        invariant settling > 0 ==> end == n
        invariant running == old(running) && admitted == old(admitted)
        invariant old(begun) <= begun && old(stages) <= stages && (old(policy).Some? ==> policy == old(policy))
        invariant |begun| == |old(begun)| + i && forall k :: |old(begun)| <= k < |begun| ==> begun[k].cancel
        invariant forall k :: |old(stages)| <= k < |stages| ==> stages[k] == Finalized
      {
        CancelSlot(i);
      }
      assert due == [];
    }

    method Shutdown(selected: Policy) returns (ok: bool)
      requires Valid()
      modifies this, tasks
      ensures Valid() && Nested() && admitted == old(admitted)
      ensures ok == (old(policy) == None || old(policy) == Some(selected))
      ensures !ok ==> lifecycle == old(lifecycle) && policy == old(policy) && begun == old(begun)
      ensures ok ==> lifecycle != Open
      ensures ok ==> policy == Some(selected)
      ensures ok && old(policy) == None && selected == CancelPending ==>
                && count == 0 && |begun| == |old(begun)| + old(count)
                && forall i :: |old(begun)| <= i < |begun| ==> begun[i].cancel
      ensures ok && (old(policy).Some? || selected == Drain) ==> begun == old(begun) && count == old(count)
      ensures ok && count == 0 && settling == 0 && !running ==> lifecycle == Closed
      decreases Level(), 2
    {
      hide Ledger, InOrder, Count, Slots;
      if policy.Some? {
        if policy.value != selected {
          return false;
        }
      } else {
        policy := Some(selected);
        lifecycle := Closing;
        if selected == CancelPending {
          CancelAll();
        }
      }
      MaybeClose();
      ok := true;
    }

    // Cancel what is left. Every task ever accepted has then been settled once.
    method Destroy()
      requires Valid() && !running && settling == 0
      requires forall i :: 0 <= i < |stages| ==> stages[i] == Finalized
      modifies this, tasks
      ensures Valid() && lifecycle == Closed && Tasks(begun) == admitted == old(admitted) && old(begun) <= begun
      ensures forall i :: |old(begun)| <= i < |begun| ==> begun[i].cancel
      ensures |stages| == |begun| && forall i :: 0 <= i < |begun| ==>
                stages[i] == Finalized && CallsOf(calls, i) == [Body(begun[i], i), Finalizes(i)]
    {
      hide Count, Slots;
      lifecycle := Closing;
      CancelAll();
      lifecycle := Closed;
    }
  }
}
