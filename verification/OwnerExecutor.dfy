/**
  The owner-bound executor: a bounded mailbox of tasks that one owner thread
  runs or cancels in order. A task is the bytes the mailbox stores for it.
  Callbacks run with the gate released, so anything may happen inside them that
  the gate lets happen: posts, shutdowns, nested runs and waits.
 */
module OwnerExecutor {
  import opened Common
  import opened MailboxSchema
  import opened MailboxRing
  import opened Settlement
  import M = Mailbox

  const TASK: EventType := EventType(1, Type(0, 32, 8, true, true))

  datatype AdmissionStatus = Accepted | Full | IsClosed | Invalid

  // A callback the executor made.
  datatype Call = Runs(task: Item) | Cancels(task: Item) | Finalizes(task: Item)

  // What may happen while a callback runs.
  datatype Op = Post(task: seq<bv8>) | ShutDown(policy: Policy) | RunNested | AskIdle

  // Both callbacks of one task, body first.
  function Both(b: Begun<Item>): seq<Call> {
    [Body(b), Finalizes(b.task)]
  }

  function Body(b: Begun<Item>): Call {
    if b.cancel then Cancels(b.task) else Runs(b.task)
  }

  // The callbacks of finished tasks, in order: each task's body, then its finalizer.
  function Calls(begun: seq<Begun<Item>>): seq<Call> {
    if begun == [] then [] else Calls(begun[..|begun| - 1]) + Both(begun[|begun| - 1])
  }

  lemma CallsAppend(begun: seq<Begun<Item>>, b: Begun<Item>)
    ensures Calls(begun + [b]) == Calls(begun) + Both(b)
  {
    assert (begun + [b])[..|begun|] == begun;
  }

  // The i-th task begun has its body as callback 2i and its finalizer as 2i+1, and
  // there are no other callbacks.
  lemma {:induction false} CallsAt(begun: seq<Begun<Item>>, i: nat)
    requires i < |begun|
    ensures |Calls(begun)| == 2 * |begun|
    ensures Calls(begun)[2 * i] == Body(begun[i]) && Calls(begun)[2 * i + 1] == Finalizes(begun[i].task)
  {
    var shorter := begun[..|begun| - 1];
    if |begun| > 1 {
      CallsAt(shorter, if i < |shorter| then i else 0);
    }
  }

  // When a post or a shutdown calls the host's wake.
  predicate PostWakes(queued: nat, running: bool) { queued == 0 && !running }

  predicate ShutdownWakes(queued: nat, running: bool) { queued != 0 && !running }

  // Where the running task stands.
  datatype Stage = Idle | BodyDue | InBody | InFinalizer

  // The tasks whose run is over.
  function Finished(begun: seq<Begun<Item>>, stage: Stage): seq<Begun<Item>> {
    if stage == Idle || begun == [] then begun else begun[..|begun| - 1]
  }

  // The callbacks the running task has had so far.
  function Partial(b: Begun<Item>, stage: Stage): seq<Call> {
    match stage
    case InBody => [Body(b)]
    case InFinalizer => Both(b)
    case _ => []
  }

  // The tasks begun are the ones taken from the queue, in order, and the callbacks
  // made are exactly theirs: one body and one finalizer each.
  predicate SettledOnce(taken: seq<Item>, begun: seq<Begun<Item>>, calls: seq<Call>, stage: Stage) {
    && taken == Tasks(begun)
    && (stage != Idle ==> begun != [])
    && calls == Calls(Finished(begun, stage)) + if stage == Idle then [] else Partial(begun[|begun| - 1], stage)
  }

  lemma BeginSettles(taken: seq<Item>, begun: seq<Begun<Item>>, calls: seq<Call>, b: Begun<Item>)
    requires SettledOnce(taken, begun, calls, Idle)
    ensures SettledOnce(taken + [b.task], begun + [b], calls, BodyDue)
    ensures Finished(begun + [b], BodyDue) == begun == Finished(begun, Idle)
  {
    assert (begun + [b])[..|begun|] == begun;
    assert Tasks(begun + [b]) == Tasks(begun) + [b.task];
  }

  lemma BodySettles(taken: seq<Item>, begun: seq<Begun<Item>>, calls: seq<Call>)
    requires SettledOnce(taken, begun, calls, BodyDue)
    ensures SettledOnce(taken, begun, calls + [Body(begun[|begun| - 1])], InBody)
  {
  }

  lemma FinalizerSettles(taken: seq<Item>, begun: seq<Begun<Item>>, calls: seq<Call>)
    requires SettledOnce(taken, begun, calls, InBody)
    ensures SettledOnce(taken, begun, calls + [Finalizes(begun[|begun| - 1].task)], InFinalizer)
  {
  }

  lemma {:induction false} EndSettles(taken: seq<Item>, begun: seq<Begun<Item>>, calls: seq<Call>)
    requires SettledOnce(taken, begun, calls, InFinalizer)
    ensures SettledOnce(taken, begun, calls, Idle) && Finished(begun, Idle) == begun != []
    ensures forall cancel :: Count(begun, cancel) ==
              Count(Finished(begun, InFinalizer), cancel) + if begun[|begun| - 1].cancel == cancel then 1 else 0
  {
    var b := begun[|begun| - 1];
    assert begun == Finished(begun, InFinalizer) + [b];
    CallsAppend(Finished(begun, InFinalizer), b);
    CountAppend(Finished(begun, InFinalizer), b);
  }

  class OwnerExecutor {
    const mailbox: M.Mailbox
    const capacity: nat
    var queued: nat
    var accepted: nat
    var completed: nat
    var cancelled: nat
    var peakPending: nat
    var rejectedFull: nat
    var rejectedClosed: nat
    var rejectedWouldBlock: nat
    var lifecycle: Lifecycle
    var policy: Option<Policy>
    var running: bool

    ghost var begun: seq<Begun<Item>>  // tasks taken from the queue, oldest first
    ghost var calls: seq<Call>         // callbacks made
    ghost var stage: Stage

    ghost function Repr(): set<object>
      reads this
    {
      {this, mailbox, mailbox.slots, mailbox.payloads}
    }

    ghost predicate Valid()
      reads Repr()
    {
      && mailbox.Valid() && mailbox.schema == [TASK] && mailbox.terminal == M.Open && mailbox.capacity == capacity
      && queued == mailbox.count
      && accepted == |mailbox.sent| == queued + (if running then 1 else 0) + completed + cancelled
      && (lifecycle == Open <==> policy == None)
      && (lifecycle == Closed ==> queued == 0 && !running)
      && SettledOnce(mailbox.taken, begun, calls, stage)
      && (running <==> stage != Idle)
      && completed == Count(Finished(begun, stage), false) && cancelled == Count(Finished(begun, stage), true)
      && (cancelled > 0 || (running && begun != [] && Current().cancel) ==> policy == Some(CancelPending))
    }

    ghost function Current(): Begun<Item>
      requires begun != []
      reads this
    {
      begun[|begun| - 1]
    }

    // What operations other than running leave alone.
    twostate predicate Undisturbed()
      reads Repr()
    {
      && begun == old(begun) && calls == old(calls) && stage == old(stage) && running == old(running)
      && completed == old(completed) && cancelled == old(cancelled)
      && mailbox.taken == old(mailbox.taken)
      && old(mailbox.sent) <= mailbox.sent
      && (old(policy) != None ==> policy == old(policy))
      && (old(lifecycle) != Open ==> lifecycle != Open && mailbox.sent == old(mailbox.sent) && queued == old(queued))
    }

    constructor (m: M.Mailbox)
      requires m.Valid() && m.schema == [TASK] && m.terminal == M.Open && m.Queue() == [] && m.sent == [] && m.taken == []
      ensures Valid() && mailbox == m && capacity == m.capacity && lifecycle == Open && !running && begun == []
    {
      mailbox, capacity := m, m.capacity;
      queued, accepted, completed, cancelled, peakPending := 0, 0, 0, 0, 0;
      rejectedFull, rejectedClosed, rejectedWouldBlock := 0, 0, 0;
      lifecycle, policy, running := Open, None, false;
      begun, calls, stage := [], [], Idle;
    }

    method MaybeClose()
      requires Valid()
      modifies this`lifecycle
      ensures Valid()
      ensures lifecycle == if old(lifecycle) == Closing && queued == 0 && !running then Closed else old(lifecycle)
    {
      if lifecycle == Closing && queued == 0 && !running {
        lifecycle := Closed;
      }
    }

    // The mailbox is the one bounded queue.
    method Enqueue(task: seq<bv8>) returns (sent: bool)
      requires mailbox.Valid() && mailbox.schema == [TASK] && mailbox.terminal == M.Open && |task| == TASK.payload.size
      modifies mailbox, mailbox.slots, mailbox.payloads
      ensures mailbox.Valid() && mailbox.terminal == M.Open && mailbox.taken == old(mailbox.taken)
      ensures sent <==> old(mailbox.count) != mailbox.capacity
      ensures mailbox.sent == old(mailbox.sent) + if sent then [Item(1, task)] else []
      ensures mailbox.count == old(mailbox.count) + if sent then 1 else 0
    {
      hide M.Mailbox.Valid;
      assert TASK in mailbox.schema;
      var status, detached := mailbox.TrySend(1, TASK.payload, task);
      sent := status == M.Done;
    }

    method Admit(task: seq<bv8>, runnable: bool) returns (status: AdmissionStatus, wake: bool)
      requires Valid() && |task| == TASK.payload.size
      modifies Repr()
      ensures Valid() && Undisturbed() && lifecycle == old(lifecycle) && policy == old(policy)
      ensures status == if !runnable then Invalid
                        else if old(lifecycle) != Open then IsClosed
                        else if old(queued) == capacity then Full
                        else Accepted
      ensures status == Accepted ==>
                && mailbox.sent == old(mailbox.sent) + [Item(1, task)] && queued == old(queued) + 1
                && wake == PostWakes(old(queued), running)
      ensures status != Accepted ==> mailbox.sent == old(mailbox.sent) && queued == old(queued) && !wake
      ensures wake <==> status == Accepted && old(queued) == 0 && !running
      ensures var pending := queued + if running then 1 else 0;
              peakPending == if status == Accepted && pending > old(peakPending) then pending else old(peakPending)
      ensures rejectedClosed == old(rejectedClosed) + if status == IsClosed then 1 else 0
      ensures rejectedFull == old(rejectedFull) + if status == Full then 1 else 0
    {
      hide M.Mailbox.Valid, SettledOnce, Count, Finished;
      wake := false;
      if !runnable {
        return Invalid, false;
      }
      if lifecycle != Open {
        rejectedClosed := rejectedClosed + 1;
        return IsClosed, false;
      }
      var sent := Enqueue(task);
      if sent {
        wake := queued == 0 && !running;
        queued := queued + 1;
        accepted := accepted + 1;
        var pending := queued + if running then 1 else 0;
        if pending > peakPending {
          peakPending := pending;
        }
        status := Accepted;
      } else {
        rejectedFull := rejectedFull + 1;
        status := Full;
      }
    }

    method Shutdown(selected: Policy) returns (ok: bool, wake: bool)
      requires Valid()
      modifies this
      ensures Valid() && Undisturbed() && mailbox.sent == old(mailbox.sent) && queued == old(queued)
      ensures ok == (old(policy) == None || old(policy) == Some(selected))
      ensures ok ==> policy == Some(selected) && lifecycle != Open && (queued == 0 && !running ==> lifecycle == Closed)
      ensures !ok ==> policy == old(policy) && lifecycle == old(lifecycle)
      ensures wake == (old(policy) == None && ShutdownWakes(queued, running))
      ensures wake <==> old(policy) == None && queued > 0 && !running
    {
      hide M.Mailbox.Valid, SettledOnce, Count, Finished;
      wake := false;
      if policy.Some? && policy.value != selected {
        return false, false;
      }
      if policy.None? {
        policy := Some(selected);
        lifecycle := Closing;
        wake := queued != 0 && !running;
      }
      MaybeClose();
      ok := true;
    }

    // Idle means nothing is queued or running; asked from a callback it would block.
    method WaitIdle(fromCallback: bool) returns (idle: bool)
      requires Valid()
      modifies this
      ensures Valid() && Undisturbed() && mailbox.sent == old(mailbox.sent) && queued == old(queued) && policy == old(policy)
      ensures idle <==> !fromCallback && queued == 0 && !running
      ensures lifecycle != old(lifecycle) ==> old(lifecycle) == Closing && lifecycle == Closed
      ensures !fromCallback && queued == 0 && !running && old(lifecycle) != Open ==> lifecycle == Closed
      ensures rejectedWouldBlock == old(rejectedWouldBlock) + if fromCallback then 1 else 0
    {
      hide M.Mailbox.Valid, SettledOnce, Count, Finished;
      if fromCallback {
        rejectedWouldBlock := rejectedWouldBlock + 1;
        return false;
      }
      MaybeClose();
      idle := queued == 0 && !running;
    }

    // The first gate-held section of a run: take the oldest task.
    method RunBegin(onOwner: bool) returns (took: bool, cancel: bool)
      requires Valid()
      modifies Repr()
      ensures Valid() && lifecycle == old(lifecycle) && policy == old(policy) && mailbox.sent == old(mailbox.sent)
      ensures took <==> onOwner && !old(running) && old(queued) > 0
      ensures took ==>
                && running && stage == BodyDue && queued == old(queued) - 1 && old(mailbox.Queue()) != []
                && begun == old(begun) + [Begun(old(mailbox.Queue())[0], cancel)]
                && cancel == (policy == Some(CancelPending))
      ensures !took ==> Undisturbed() && queued == old(queued)
    {
      hide M.Mailbox.Valid, SettledOnce, Count, Finished;
      if !onOwner || running || queued == 0 {
        return false, false;
      }
      var status, id, ptype, data := mailbox.TryReceive(TASK.payload.size, 0);
      assert status == M.Done;
      queued := queued - 1;
      running := true;
      cancel := policy == Some(CancelPending);
      BeginSettles(old(mailbox.taken), begun, calls, Begun(Item(id, data), cancel));
      begun := begun + [Begun(Item(id, data), cancel)];
      stage := BodyDue;
      took := true;
    }

    // The last gate-held section of a run: the task is settled.
    method RunEnd(cancel: bool)
      requires Valid() && stage == InFinalizer && cancel == Current().cancel
      modifies this
      ensures Valid() && stage == Idle && begun == old(begun) && queued == old(queued) && mailbox.sent == old(mailbox.sent)
      ensures policy == old(policy) && (lifecycle == Open <==> old(lifecycle) == Open)
    {
      hide M.Mailbox.Valid, SettledOnce, Count, Finished;
      EndSettles(mailbox.taken, begun, calls);
      running := false;
      stage := Idle;
      if cancel {
        cancelled := cancelled + 1;
      } else {
        completed := completed + 1;
      }
      MaybeClose();
    }

    // ---- Callbacks, and what happens while they run ----

    method InvokeBody(cancel: bool)
      requires Valid() && stage == BodyDue && cancel == Current().cancel
      modifies this`calls, this`stage
      ensures Valid() && stage == InBody
    {
      hide M.Mailbox.Valid, SettledOnce, Count, Calls;
      BodySettles(mailbox.taken, begun, calls);
      calls := calls + [Body(Current())];
      stage := InBody;
    }

    method InvokeFinalizer()
      requires Valid() && stage == InBody
      modifies this`calls, this`stage
      ensures Valid() && stage == InFinalizer
    {
      hide M.Mailbox.Valid, SettledOnce, Count, Calls;
      FinalizerSettles(mailbox.taken, begun, calls);
      calls := calls + [Finalizes(Current().task)];
      stage := InFinalizer;
    }

    // One operation while a callback runs: a nested run finds the executor busy.
    method Interleave(op: Op)
      requires Valid() && running && (op.Post? ==> |op.task| == TASK.payload.size)
      modifies Repr()
      ensures Valid() && Undisturbed()
    {
      hide M.Mailbox.Valid, SettledOnce, Count;
      match op {
        case Post(task) => var status, wake := Admit(task, true);
        case ShutDown(p) => var ok, wake := Shutdown(p);
        case RunNested => var took, cancel := RunBegin(true);
        case AskIdle => var idle := WaitIdle(true);
      }
    }

    method InterleaveAll(ops: seq<Op>)
      requires Valid() && running && WellSized(ops)
      modifies Repr()
      ensures Valid() && Undisturbed()
    {
      hide M.Mailbox.Valid, SettledOnce, Count, Valid;
      for i := 0 to |ops|
        invariant Valid() && running && Undisturbed()
      {
        Interleave(ops[i]);
      }
    }

    // Run or cancel the oldest task; `during` and `after` happen while its body and
    // its finalizer run.
    method RunOne(onOwner: bool, during: seq<Op>, after: seq<Op>) returns (ran: bool)
      requires Valid() && !running && WellSized(during) && WellSized(after)
      modifies Repr()
      ensures Valid() && !running && old(mailbox.sent) <= mailbox.sent
      ensures ran <==> onOwner && old(queued) > 0
      ensures ran ==> old(mailbox.Queue()) != []
                      && begun == old(begun) + [Begun(old(mailbox.Queue())[0], old(policy) == Some(CancelPending))]
      ensures !ran ==> begun == old(begun) && calls == old(calls) && queued == old(queued) && lifecycle == old(lifecycle)
      ensures old(lifecycle) != Open ==>
                lifecycle != Open && policy == old(policy) && mailbox.sent == old(mailbox.sent) && (ran ==> queued == old(queued) - 1)
    {
      hide M.Mailbox.Valid, SettledOnce, Count;
      var cancel;
      ran, cancel := RunBegin(onOwner);
      if !ran {
        return;
      }
      InvokeBody(cancel);
      InterleaveAll(during);
      InvokeFinalizer();
      InterleaveAll(after);
      RunEnd(cancel);
    }

    // Run until the queue is empty. This ends because nothing is accepted once the
    // executor is closing.
    method DrainQueue(ops: nat -> seq<Op>)
      requires Valid() && !running && lifecycle != Open && forall i: nat :: WellSized(ops(i))
      modifies Repr()
      ensures Valid() && !running && lifecycle != Open && queued == 0
      ensures mailbox.sent == old(mailbox.sent) && policy == old(policy) && old(begun) <= begun
      ensures forall i :: |old(begun)| <= i < |begun| ==> begun[i].cancel == (policy == Some(CancelPending))
    {
      hide M.Mailbox.Valid, SettledOnce, Count, Finished;
      var round: nat := 0;
      var more := true;
      while more
        invariant Valid() && !running && lifecycle != Open && (more || queued == 0)
        invariant mailbox.sent == old(mailbox.sent) && policy == old(policy) && old(begun) <= begun
        invariant forall i :: |old(begun)| <= i < |begun| ==> begun[i].cancel == (policy == Some(CancelPending))
        decreases queued, more
      {
        more := RunOne(true, ops(2 * round), ops(2 * round + 1));
        round := round + 1;
      }
    }

    // Cancel what is pending unless a policy was chosen, then drain: everything
    // accepted is settled and the executor is closed.
    method Destroy(ops: nat -> seq<Op>)
      requires Valid() && !running && forall i: nat :: WellSized(ops(i))
      modifies Repr()
      ensures Valid() && lifecycle == Closed && queued == 0 && !running
      ensures mailbox.sent == old(mailbox.sent) == Tasks(begun) && calls == Calls(begun) && old(begun) <= begun
      ensures old(policy) == None ==> forall i :: |old(begun)| <= i < |begun| ==> begun[i].cancel
    {
      hide M.Mailbox.Valid, Count;
      if lifecycle == Open {
        var ok, wake := Shutdown(CancelPending);
      }
      DrainQueue(ops);
      var idle := WaitIdle(false);
      mailbox.AllDelivered();
    }
  }

  predicate WellSized(ops: seq<Op>) {
    forall i :: 0 <= i < |ops| && ops[i].Post? ==> |ops[i].task| == TASK.payload.size
  }
}
