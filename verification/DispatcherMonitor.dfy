/**
  The monitor as the threads run it: shared fields updated in place by sections
  that hold the lock. Each section is proved to compute the step function of
  module Dispatcher and to extend a run of it, so the safety results hold of the
  monitor at every release of the lock.
 */
module DispatcherMonitor {
  import opened Common
  import opened Dispatcher
  import opened DispatcherSafety

  class Monitor {
    const c: Config
    var workers: seq<Worker>
    var leader: Option<nat>
    var lastLeader: nat
    var handoffs: nat
    var mailbox: seq<nat>
    var queued: nat
    var active: int
    var inFlight: int
    var accepted: nat
    var dequeued: nat
    var nextSettlement: nat
    var completed: nat
    var epoch: nat
    var observations: seq<nat>
    var closing: bool
    var failed: bool
    ghost var admitted: seq<nat>
    ghost var settled: seq<nat>
    ghost var expired: bool
    ghost var history: seq<State>  // the state at every release of the lock

    ghost function View(): State
      reads this
    {
      State(workers, leader, lastLeader, handoffs, mailbox, queued, active, inFlight, accepted, dequeued,
            nextSettlement, completed, epoch, observations, closing, failed, admitted, settled, expired)
    }

    // What code inside a section relies on.
    ghost predicate Bounded()
      reads this
    {
      && |observations| == c.messages
      && (leader.Some? ==> leader.value < |workers|)
    }

    // What holds whenever the lock is free: the monitor has got here by a run.
    ghost predicate Valid()
      reads this
    {
      Behavior(c, history) && history[|history| - 1] == View() && Inv(c, View())
    }

    lemma ValidIsBounded()
      requires Valid()
      ensures Bounded()
    {
    }

    // The lock is released after a section that made `step` from `before`.
    ghost method Release(before: State, step: Step)
      requires Behavior(c, history) && history[|history| - 1] == before && Inv(c, before)
      requires Enabled(c, before, step) && View() == Apply(c, before, step)
      modifies this`history
      ensures Valid() && history == old(history) + [View()]
    {
      hide Behavior, Inv, Enabled, Apply;
      StepKeeps(c, before, step);
      RunExtends(c, history, before, step, View());
      history := history + [View()];
    }

    constructor (config: Config)
      requires config.Valid()
      ensures c == config && Valid() && View() == Init(config)
      ensures |workers| == config.workers && leader == None && (workers != [] ==> lastLeader == |workers| - 1)
      ensures forall i :: 0 <= i < |workers| ==> workers[i] == Worker(NotStarted, false, false, 0)
      ensures mailbox == [] && admitted == [] && settled == [] && epoch == 0 && !closing && !failed
    {
      c := config;
      workers := seq(config.workers, i => Worker(NotStarted, false, false, 0));
      leader := None;
      lastLeader := if config.workers == 0 then 0 else config.workers - 1;
      handoffs := 0;
      mailbox, queued, active, inFlight := [], 0, 0, 0;
      accepted, dequeued, nextSettlement, completed, epoch := 0, 0, 0, 0, 0;
      observations := seq(config.messages, i => 0);
      closing, failed := false, false;
      admitted, settled, expired := [], [], false;
      history := [Init(config)];
      new;
      RunsKeepInvariant(c, history, 0);
    }

    method SignalWorker(index: nat)
      requires index < |workers|
      modifies this`workers
      ensures View() == Signal(old(View()), index)
      ensures !workers[index].phase.Waiting? && Held(workers) == Held(old(workers)) && Busy(workers) == Busy(old(workers))
    {
      if workers[index].phase.Waiting? {
        SameBatches(workers[index := workers[index].(phase := Signalled)], workers);
        workers := workers[index := workers[index].(phase := Signalled)];
      }
    }

    method NotifyLeaderLocked()
      requires leader.Some? ==> leader.value < |workers|
      modifies this`workers
      ensures View() == NotifyLeader(c, old(View()))
      ensures forall i :: 0 <= i < |workers| && leader != Some(i) ==> workers[i] == old(workers)[i]
      ensures c.coalesce && queued == 0 ==> workers == old(workers)
      ensures leader.Some? && (!c.coalesce || (queued > 0 && old(workers)[leader.value].waiting)) ==>
                !workers[leader.value].phase.Waiting?
    {
      if leader.None? { return; }
      if !c.coalesce || (queued != 0 && workers[leader.value].waiting) {
        SignalWorker(leader.value);
      }
    }

    method WakeAllLocked()
      modifies this`workers
      ensures View() == WakeAll(old(View()))
      ensures forall i :: 0 <= i < |workers| ==> !workers[i].phase.Waiting?
    {
      hide Held, Busy;
      var index := 0;
      while index < |workers|
        invariant 0 <= index <= |workers| == |old(workers)|
        invariant forall i :: 0 <= i < index ==> workers[i] == Awake(old(workers)[i])
        invariant forall i :: index <= i < |workers| ==> workers[i] == old(workers)[i]
      {
        SignalWorker(index);
        index := index + 1;
      }
    }

    method FailLocked()
      modifies this`workers, this`failed
      ensures View() == Fail(old(View()))
      ensures failed && forall i :: 0 <= i < |workers| ==> !workers[i].phase.Waiting?
    {
      failed := true;
      WakeAllLocked();
    }

    // The election loop: the first eligible worker after the last leader.
    method FindEligible() returns (found: Option<nat>)
      ensures found == if |workers| == 0 || Winner(View(), 1).None? then None
                       else Some(Candidate(View(), Winner(View(), 1).value))
    {
      var step := 1;
      while step <= |workers|
        invariant 1 <= step <= |workers| + 1
        invariant |workers| > 0 ==> Winner(View(), 1) == Winner(View(), step)
      {
        var index := (lastLeader + step) % |workers|;
        if workers[index].eligible { return Some(index); }
        step := step + 1;
      }
      return None;
    }

    // Round-robin election.
    method ElectLocked()
      modifies this`workers, this`leader, this`lastLeader, this`handoffs
      ensures View() == Elect(c, old(View()))
    {
      hide NotifyLeader, Winner;
      if leader.Some? { return; }
      var found := FindEligible();
      if found.Some? {
        leader, lastLeader, handoffs := found, found.value, handoffs + 1;
        NotifyLeaderLocked();
      }
    }

    // The leader gives up the lead, and the next one is elected.
    method HandOnLocked()
      modifies this`workers, this`leader, this`lastLeader, this`handoffs
      ensures View() == Elect(c, old(View()).(leader := None))
      ensures |workers| == |old(workers)|
      ensures forall i :: 0 <= i < |workers| ==> workers[i] == old(workers)[i] || workers[i] == Awake(old(workers)[i])
      ensures old(lastLeader) < |workers| && (exists i :: 0 <= i < |workers| && old(workers)[i].eligible) ==>
                leader.Some? && handoffs == old(handoffs) + 1
    {
      hide Elect, Ahead;
      leader := None;
      ElectSignals(c, View());
      if lastLeader < |workers| { ElectOutcome(c, View()); }
      ElectLocked();
    }

    method SettleLocked(id: nat)
      requires Bounded()
      modifies this`workers, this`failed, this`observations, this`completed, this`settled
      ensures View() == Settle(c, old(View()), id) && |observations| == c.messages
      ensures if id < c.messages && old(observations)[id] < epoch then
                && observations == old(observations)[id := old(observations)[id] + 1] && completed == old(completed) + 1
                && settled == old(settled) + [id] && workers == old(workers) && failed == old(failed)
              else
                && failed && observations == old(observations) && completed == old(completed) && settled == old(settled)
    {
      if id >= c.messages || observations[id] >= epoch {
        FailLocked();
        return;
      }
      observations := observations[id := observations[id] + 1];
      completed := completed + 1;
      settled := settled + [id];
    }

    // Receiving takes the oldest messages, as many as there are up to the limit.
    lemma TakesOldest(mailbox: seq<nat>, limit: nat)
      ensures var k := if limit <= |mailbox| then limit else |mailbox|;
              Dequeue(mailbox, |mailbox|, [], limit) == Dequeued(mailbox[k..], |mailbox| - k, mailbox[..k], false)
    {
      DequeueTakes(mailbox, [], limit);
      var k := if limit <= |mailbox| then limit else |mailbox|;
      assert [] + mailbox[..k] == mailbox[..k];
    }

    // The leader's receive loop.
    method ReceiveLocked(limit: nat) returns (batch: seq<nat>)
      modifies this`workers, this`failed, this`mailbox, this`dequeued, this`queued
      ensures var d := Dequeue(old(mailbox), old(queued), [], limit);
              View() == Receive(c, old(View()), d) && batch == d.taken
      ensures old(queued) == |old(mailbox)| ==>
                var k := if limit <= |old(mailbox)| then limit else |old(mailbox)|;
                && batch == old(mailbox)[..k] && mailbox == old(mailbox)[k..] && queued == |mailbox|
                && dequeued == old(dequeued) + k && failed == old(failed)
    {
      hide Fail;
      if queued == |mailbox| { TakesOldest(mailbox, limit); }
      batch := [];
      while |batch| < limit && queued != 0
        invariant |batch| <= limit && dequeued == old(dequeued) + |batch|
        invariant workers == old(workers) && failed == old(failed)
        invariant Dequeue(mailbox, queued, batch, limit) == Dequeue(old(mailbox), old(queued), [], limit)
        decreases limit - |batch|
      {
        if mailbox == [] {
          FailLocked();
          return;
        }
        batch := batch + [mailbox[0]];
        mailbox := mailbox[1..];
        dequeued := dequeued + 1;
        queued := queued - 1;
      }
    }

    // The settlement loop over a worker's results.
    method SettleResults(results: seq<nat>)
      requires Bounded()
      modifies this`workers, this`failed, this`observations, this`completed, this`settled
      ensures View() == SettleAll(c, old(View()), results) && |observations| == c.messages
      ensures old(failed) ==> failed
    {
      hide Settle;
      var index := 0;
      while index < |results|
        invariant 0 <= index <= |results| && |observations| == c.messages && (old(failed) ==> failed)
        invariant View() == SettleAll(c, old(View()), results[..index])
      {
        assert results[..index + 1][..index] == results[..index];
        SettleLocked(results[index]);
        index := index + 1;
      }
      assert results[..index] == results;
    }

    // The claiming worker leaves the monitor with its batch.
    method DepartLocked(self: nat, batch: seq<nat>, ticket: nat)
      requires self < |workers|
      modifies this`active, this`inFlight, this`workers
      ensures View() == Depart(old(View()), self, batch, ticket)
      ensures !old(workers)[self].phase.Processing? ==>
                && Held(workers) == Held(old(workers)) + multiset(batch)
                && active - Busy(workers) == old(active) - Busy(old(workers))
    {
      ReplaceWorker(workers, self, workers[self].(eligible := false, phase := Processing(batch, ticket)));
      active := active + 1;
      inFlight := inFlight + |batch|;
      workers := workers[self := workers[self].(eligible := false, phase := Processing(batch, ticket))];
    }

    method ClaimLocked(self: nat)
      requires self < |workers|
      modifies this
      ensures history == old(history)
      ensures View() == Claim(c, old(View()), self)
      ensures old(queued) == |old(mailbox)| > 0 && c.batch > 0 ==>
                var limit := if c.mode == LeaderFollowers then c.batch else 1;
                var k := if limit <= |old(mailbox)| then limit else |old(mailbox)|;
                && mailbox == old(mailbox)[k..]
                && self < |workers| && workers[self].phase == Processing(old(mailbox)[..k], old(dequeued))
    {
      hide Elect, Fail, Receive, Dequeue, Held, Busy;
      var ticket := dequeued;
      var batch := ReceiveLocked(if c.mode == LeaderFollowers then c.batch else 1);
      if batch == [] {
        workers := workers[self := workers[self].(phase := Exited)];
        return;
      }
      DepartLocked(self, batch, ticket);
      if c.mode == LeaderFollowers {
        HandOnLocked();
      }
    }

    // From the top of the worker loop to the release of the monitor.
    method LoopTopLocked(self: nat)
      requires self < |workers|
      modifies this
      ensures history == old(history)
      ensures View() == LoopTop(c, old(View()), self)
    {
      if closing || failed {
        workers := workers[self := workers[self].(phase := Exited)];
      } else if leader != Some(self) || queued == 0 {
        workers := workers[self := workers[self].(waiting := true, phase := Waiting)];
      } else {
        ClaimLocked(self);
      }
    }

    // A worker thread starts: it becomes eligible and may elect itself.
    method RunWorkerStart(self: nat)
      requires Valid() && Enabled(c, View(), Start(self))
      modifies this
      ensures Valid() && View() == Apply(c, old(View()), Start(self))
    {
      hide Behavior, Inv, WakeSection, FinishSection, LoopTop, AdmitSection, WakeAll, Fail, Elect;
      ghost var before := View();
      workers := workers[self := workers[self].(eligible := true, phase := Holding)];
      ElectLocked();
      LoopTopLocked(self);
      Release(before, Start(self));
    }

    // A worker's condition wait returns.
    method RunWorkerWake(self: nat)
      requires Valid() && Enabled(c, View(), Wake(self))
      modifies this
      ensures Valid() && View() == Apply(c, old(View()), Wake(self))
    {
      hide Behavior, Inv, StartSection, FinishSection, LoopTop, AdmitSection, WakeAll, Fail;
      ghost var before := View();
      workers := workers[self := workers[self].(waiting := false, phase := Holding)];
      LoopTopLocked(self);
      Release(before, Wake(self));
    }

    method ReturnLocked(self: nat, items: nat, held: nat)
      requires self < |workers|
      modifies this`active, this`inFlight, this`workers
      ensures View() == Return(old(View()), self, items, held)
      ensures old(workers)[self].phase.Processing? ==>
                && Held(old(workers)) == Held(workers) + multiset(old(workers)[self].phase.batch)
                && active - Busy(workers) == old(active) - Busy(old(workers))
    {
      ReplaceWorker(workers, self, workers[self].(eligible := true, phase := Holding, held := held));
      inFlight := inFlight - items;
      active := active - 1;
      workers := workers[self := workers[self].(eligible := true, phase := Holding, held := held)];
    }

    // Settlement of a processed batch, with serial mode's ticket check.
    method SettlementLocked(results: seq<nat>, ticket: nat)
      requires Bounded()
      modifies this
      ensures history == old(history)
      ensures View() == Settlement(c, old(View()), Processing(results, ticket))
      ensures nextSettlement == old(nextSettlement) + if c.mode == SerialToken then 1 else 0
      ensures c.mode == SerialToken && ticket != old(nextSettlement) ==> failed
    {
      if c.mode == SerialToken {
        var expected := nextSettlement;
        nextSettlement := nextSettlement + 1;
        if ticket != expected { FailLocked(); }
      }
      SettleResults(results);
    }

    // The token or election policy after settlement.
    method HandBackLocked(self: nat, items: nat)
      requires self < |workers|
      modifies this
      ensures history == old(history)
      ensures View() == HandBack(c, old(View()), self, items)
      ensures c.mode == SerialToken && old(workers)[self].held + 1 < c.batch && queued > 0 ==>
                leader == old(leader) && handoffs == old(handoffs) && workers[self].held == old(workers)[self].held + 1
      ensures c.mode == SerialToken && (old(workers)[self].held + 1 >= c.batch || queued == 0) &&
              old(lastLeader) < |workers| ==>
                leader.Some? && handoffs == old(handoffs) + 1 && |workers| == |old(workers)| && workers[self].held == 0
    {
      hide Elect, Held, Busy;
      var held := workers[self].held;
      if c.mode == SerialToken {
        held := held + 1;
        if held >= c.batch || queued == 0 {
          ReturnLocked(self, items, 0);
          assert workers[self].eligible;
          HandOnLocked();
        } else {
          ReturnLocked(self, items, held);
        }
      } else {
        ReturnLocked(self, items, held);
        ElectLocked();
      }
    }

    // A worker returns with processed results.
    method RunWorkerFinish(self: nat)
      requires Valid() && Enabled(c, View(), Finish(self))
      modifies this
      ensures Valid() && View() == Apply(c, old(View()), Finish(self))
    {
      hide Behavior, Inv, StartSection, WakeSection, LoopTop, AdmitSection, WakeAll, Fail, Settlement, HandBack;
      ghost var before := View();
      ValidIsBounded();
      var p := workers[self].phase;
      SettlementLocked(p.batch, p.ticket);
      HandBackLocked(self, |p.batch|);
      LoopTopLocked(self);
      Release(before, Finish(self));
    }

    // A producer's attempt: 1 accepted, 0 full, -1 closing or failed.
    method AdmitLocked(id: nat) returns (result: int)
      requires leader.Some? ==> leader.value < |workers|
      modifies this`workers, this`mailbox, this`queued, this`accepted, this`admitted
      ensures View() == AdmitSection(c, old(View()), id)
      ensures result == 1 <==> accepted == old(accepted) + 1
      ensures result == -1 <==> failed || closing
      ensures result == 0 <==> !failed && !closing && |old(mailbox)| == c.capacity
      ensures result == 1 ==> mailbox == old(mailbox) + [id] && queued == old(queued) + 1
      ensures result != 1 ==> View() == old(View())
      ensures c.coalesce && old(queued) > 0 ==> workers == old(workers)
    {
      hide NotifyLeader;
      if failed || closing {
        return -1;
      }
      if |mailbox| == c.capacity {
        return 0;
      }
      var wasEmpty := queued == 0;
      mailbox := mailbox + [id];
      queued := queued + 1;
      accepted := accepted + 1;
      admitted := admitted + [id];
      if !c.coalesce || wasEmpty { NotifyLeaderLocked(); }
      result := 1;
    }

    method SendPayload(id: nat) returns (result: int)
      requires Valid() && Enabled(c, View(), Admit(id))
      modifies this
      ensures Valid() && View() == Apply(c, old(View()), Admit(id))
      ensures result == 1 <==> accepted == old(accepted) + 1
      ensures result == -1 <==> failed || closing
      ensures result == 0 <==> !failed && !closing && |old(mailbox)| == c.capacity
      ensures result == 1 ==> mailbox == old(mailbox) + [id]
    {
      hide Behavior, Inv, StartSection, WakeSection, LoopTop, FinishSection, WakeAll, Fail, AdmitSection;
      ghost var before := View();
      ValidIsBounded();
      result := AdmitLocked(id);
      Release(before, Admit(id));
    }

    // The next round of messages may be sent.
    method OpenEpoch()
      requires Valid()
      modifies this
      ensures Valid() && View() == Apply(c, old(View()), NextEpoch) && epoch == old(epoch) + 1
    {
      hide Behavior, Inv;
      ghost var before := View();
      ValidIsBounded();
      epoch := epoch + 1;
      Release(before, NextEpoch);
    }

    // Destruction begins: nobody is left asleep.
    method Close()
      requires Valid()
      modifies this
      ensures Valid() && View() == Apply(c, old(View()), Step.Close) && closing
      ensures forall i :: 0 <= i < |workers| ==> !workers[i].phase.Waiting?
    {
      hide Behavior, Inv;
      ghost var before := View();
      ValidIsBounded();
      closing := true;
      WakeAllLocked();
      Release(before, Step.Close);
    }

    // A deadline passes: the run has failed and nobody is left asleep.
    method Expire()
      requires Valid()
      modifies this
      ensures Valid() && View() == Apply(c, old(View()), Step.Expire) && failed
      ensures forall i :: 0 <= i < |workers| ==> !workers[i].phase.Waiting?
    {
      hide Behavior, Inv;
      ghost var before := View();
      ValidIsBounded();
      expired := true;
      FailLocked();
      Release(before, Step.Expire);
    }

    // The safety results, for the monitor itself.
    lemma PendingWorkIsSeen()
      requires Valid() && !closing && !failed && queued > 0
      requires exists i :: 0 <= i < |workers| && !workers[i].phase.NotStarted?
      ensures exists i :: 0 <= i < |workers| &&
                (workers[i].phase.Processing? || (leader == Some(i) && workers[i].phase.Signalled?))
    {
      hide Inv;
      NoLostWakeup(c, history, |history| - 1, View());
    }

    lemma EveryMessageAccounted()
      requires Valid()
      ensures multiset(admitted) == multiset(mailbox) + Held(workers) + multiset(settled)
      ensures accepted == queued + inFlight + completed && inFlight <= c.workers * c.batch
      ensures c.mode == SerialToken ==> settled <= admitted
    {
      hide Inv;
      SettlesExactlyOnce(c, history, |history| - 1, View());
      if c.mode == SerialToken {
        SerialTokenIsFifo(c, history, |history| - 1, View());
      }
    }
  }
}
