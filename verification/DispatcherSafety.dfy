/**
  What every run of the dispatcher keeps, for any number of workers and every
  interleaving of admissions, wake-ups and worker steps.
 */
module DispatcherSafety {
  import opened Common
  import opened Dispatcher

  // ---- Accounting over the workers ----

  function Batch(w: Worker): seq<nat> {
    if w.phase.Processing? then w.phase.batch else []
  }

  // All claimed messages that have not been settled yet.
  function Held(ws: seq<Worker>): multiset<nat> {
    if ws == [] then multiset{} else Held(ws[..|ws| - 1]) + multiset(Batch(ws[|ws| - 1]))
  }

  // The number of handlers that are running.
  function Busy(ws: seq<Worker>): nat {
    if ws == [] then 0 else Busy(ws[..|ws| - 1]) + if ws[|ws| - 1].phase.Processing? then 1 else 0
  }

  // ---- The invariant ----

  ghost predicate Workers(c: Config, s: State, me: Option<nat>) {
    && |s.workers| == c.workers
    && (|s.workers| > 0 ==> s.lastLeader < |s.workers|)
    && forall i :: 0 <= i < |s.workers| ==> Shape(c, s, me, i, s.workers[i])
  }

  ghost predicate Shape(c: Config, s: State, me: Option<nat>, i: int, w: Worker) {
    && (w.phase.Holding? <==> me == Some(i))
    && (w.eligible <==> !w.phase.NotStarted? && !w.phase.Processing?)
    && (w.waiting <==> w.phase.Waiting? || w.phase.Signalled?)
    && (w.phase.Exited? ==> s.closing || s.failed)
    && (w.phase.Processing? ==> 1 <= |w.phase.batch| <= c.Limit())
  }

  ghost predicate Leads(c: Config, s: State) {
    && (s.leader.Some? ==>
          && s.leader.value < |s.workers|
          && (s.workers[s.leader.value].eligible ||
              (c.mode == SerialToken && s.workers[s.leader.value].phase.Processing?)))
    && (s.leader.None? ==> forall i :: 0 <= i < |s.workers| ==> !s.workers[i].eligible)
  }

  // The coalesced wake protocol: a leader that has work is not asleep, and
  // closing or failing leaves nobody asleep.
  ghost predicate Wakes(s: State, me: Option<nat>) {
    && (s.leader.Some? && s.leader.value < |s.workers| && s.queued > 0 && s.leader != me &&
        !s.closing && !s.failed
        ==> s.workers[s.leader.value].phase.Signalled? || s.workers[s.leader.value].phase.Processing?)
    && AllAwakeAtEnd(s)
  }

  ghost predicate AllAwakeAtEnd(s: State) {
    s.closing || s.failed ==> forall i :: 0 <= i < |s.workers| ==> !s.workers[i].phase.Waiting?
  }

  ghost predicate Queue(c: Config, s: State) {
    && s.queued == |s.mailbox| <= c.capacity
    && s.accepted == |s.admitted|
    && s.dequeued + s.queued == s.accepted
    && s.mailbox == s.admitted[s.dequeued..]
    && (forall id :: id in s.admitted ==> id < c.messages)
    && (forall id :: multiset(s.admitted)[id] <= s.epoch)
  }

  ghost predicate Accounts(c: Config, s: State) {
    && s.active == Busy(s.workers)
    && s.inFlight == |Held(s.workers)|
    && s.completed == |s.settled|
    && Observed(c, s)
    && s.dequeued <= |s.admitted|
    && multiset(s.admitted[..s.dequeued]) == multiset(s.settled) + Held(s.workers)
    && (s.failed ==> s.expired)
  }

  // Serial-token mode: the token owner is the only handler and settles in order.
  ghost predicate Serial(c: Config, s: State) {
    c.mode == SerialToken ==>
      && s.nextSettlement == |s.settled| <= s.dequeued <= |s.admitted|
      && s.settled == s.admitted[..s.nextSettlement]
      && (forall i :: 0 <= i < |s.workers| && s.workers[i].phase.Processing? ==>
            s.leader == Some(i) && s.workers[i].phase.ticket == s.nextSettlement)
      && s.dequeued == s.nextSettlement + |Held(s.workers)|
  }

  // Everything but the choice of the leader and its wake-up.
  ghost predicate Core(c: Config, s: State, me: Option<nat>) {
    c.Valid() && Workers(c, s, me) && Queue(c, s) && Accounts(c, s) && Serial(c, s)
  }

  // `me` is the worker holding the monitor, if the state lies inside a step.
  ghost predicate InvAt(c: Config, s: State, me: Option<nat>) {
    Core(c, s, me) && Leads(c, s) && Wakes(s, me)
  }

  ghost predicate Inv(c: Config, s: State) {
    InvAt(c, s, None)
  }

  // ---- Lemmas about the accounting functions ----

  lemma {:induction false} SameBatches(ws: seq<Worker>, vs: seq<Worker>)
    requires |ws| == |vs|
    requires forall i :: 0 <= i < |ws| ==> Batch(ws[i]) == Batch(vs[i])
    requires forall i :: 0 <= i < |ws| ==> ws[i].phase.Processing? == vs[i].phase.Processing?
    ensures Held(ws) == Held(vs) && Busy(ws) == Busy(vs)
  {
    if ws != [] { SameBatches(ws[..|ws| - 1], vs[..|vs| - 1]); }
  }

  lemma {:induction false} ReplaceWorker(ws: seq<Worker>, i: nat, w: Worker)
    requires i < |ws|
    ensures Held(ws[i := w]) + multiset(Batch(ws[i])) == Held(ws) + multiset(Batch(w))
    ensures Busy(ws[i := w]) + (if ws[i].phase.Processing? then 1 else 0)
         == Busy(ws) + (if w.phase.Processing? then 1 else 0)
  {
    var n := |ws| - 1;
    var vs := ws[i := w];
    if i == n {
      assert vs[..n] == ws[..n];
    } else {
      assert vs[..n] == ws[..n][i := w];
      ReplaceWorker(ws[..n], i, w);
      var last := multiset(Batch(ws[n]));
      assert Held(vs) + multiset(Batch(ws[i])) == (Held(ws[..n][i := w]) + multiset(Batch(ws[i]))) + last;
      assert Held(ws) + multiset(Batch(w)) == (Held(ws[..n]) + multiset(Batch(w))) + last;
    }
  }

  lemma {:induction false} NoneBusy(ws: seq<Worker>)
    requires forall i :: 0 <= i < |ws| ==> !ws[i].phase.Processing?
    ensures Busy(ws) == 0 && Held(ws) == multiset{}
  {
    if ws != [] { NoneBusy(ws[..|ws| - 1]); }
  }

  lemma {:induction false} HeldBound(ws: seq<Worker>, limit: nat)
    requires forall i :: 0 <= i < |ws| ==> |Batch(ws[i])| <= limit
    ensures |Held(ws)| <= |ws| * limit
  {
    if ws != [] {
      var n := |ws| - 1;
      HeldBound(ws[..n], limit);
      assert |multiset(Batch(ws[n]))| == |Batch(ws[n])|;
      Multiple(n, limit);
    }
  }

  lemma Multiple(n: nat, limit: nat)
    ensures (n + 1) * limit == n * limit + limit
  {}

  // ---- Election ----

  // An election round visits every worker.
  lemma {:induction false} CandidateCovers(s: State, i: nat) returns (step: nat)
    requires i < |s.workers| && s.lastLeader < |s.workers|
    ensures 1 <= step <= |s.workers| && Candidate(s, step) == i
  {
    step := if i > s.lastLeader then i - s.lastLeader else i + |s.workers| - s.lastLeader;
    Remainder(s.lastLeader + step, |s.workers|, if i > s.lastLeader then 0 else 1, i);
  }

  lemma {:induction false} WinnerIsFirst(s: State, step: nat)
    requires |s.workers| > 0 && 1 <= step <= |s.workers| + 1
    ensures match Winner(s, step)
            case None => forall k :: step <= k <= |s.workers| ==> !s.workers[Candidate(s, k)].eligible
            case Some(k) =>
              && step <= k <= |s.workers| && s.workers[Candidate(s, k)].eligible
              && forall j :: step <= j < k ==> !s.workers[Candidate(s, j)].eligible
    decreases |s.workers| + 1 - step
  {
    if step <= |s.workers| && !s.workers[Candidate(s, step)].eligible {
      WinnerIsFirst(s, step + 1);
    }
  }

  lemma {:induction false} CandidateIsAhead(s: State, step: nat)
    requires 1 <= step <= |s.workers| && s.lastLeader < |s.workers|
    ensures Candidate(s, step) < |s.workers| && Ahead(|s.workers|, s.lastLeader, Candidate(s, step)) == step
  {
    var n, sum := |s.workers|, s.lastLeader + step;
    if sum < n { Remainder(sum, n, 0, sum); } else { Remainder(sum, n, 1, sum - n); }
  }

  lemma WinnerIsNearest(s: State)
    requires |s.workers| > 0 && s.lastLeader < |s.workers| && Winner(s, 1).Some?
    ensures var w := Candidate(s, Winner(s, 1).value);
            forall i :: 0 <= i < |s.workers| && s.workers[i].eligible ==>
              Ahead(|s.workers|, s.lastLeader, w) <= Ahead(|s.workers|, s.lastLeader, i)
  {
    WinnerIsFirst(s, 1);
    var k := Winner(s, 1).value;
    CandidateIsAhead(s, k);
    forall i | 0 <= i < |s.workers| && s.workers[i].eligible
      ensures k <= Ahead(|s.workers|, s.lastLeader, i)
    {
      var j := CandidateCovers(s, i);
      CandidateIsAhead(s, j);
    }
  }

  // How far after worker `from` worker `i` comes, round the ring; `from` itself is last.
  function Ahead(n: nat, from: nat, i: nat): int {
    if i > from then i - from else i + n - from
  }

  // An election leaves the leader unset exactly when nobody is eligible. Otherwise it
  // is one more election, won by the first eligible worker after the last leader.
  lemma {:induction false} ElectOutcome(c: Config, s: State)
    requires |s.workers| > 0 ==> s.lastLeader < |s.workers|
    requires s.leader.None?
    ensures var r := Elect(c, s);
            && |r.workers| == |s.workers|
            && (r.leader.Some? ==>
                  && r.leader.value < |s.workers| && s.workers[r.leader.value].eligible
                  && r.lastLeader == r.leader.value && r.handoffs == s.handoffs + 1
                  && r == NotifyLeader(c, s.(leader := r.leader, lastLeader := r.lastLeader, handoffs := r.handoffs))
                  && forall i :: 0 <= i < |s.workers| && s.workers[i].eligible ==>
                       Ahead(|s.workers|, s.lastLeader, r.leader.value) <= Ahead(|s.workers|, s.lastLeader, i))
            && (r.leader.None? ==> r == s && forall i :: 0 <= i < |s.workers| ==> !s.workers[i].eligible)
  {
    if |s.workers| > 0 {
      WinnerIsFirst(s, 1);
      if Winner(s, 1).Some? {
        WinnerIsNearest(s);
      } else {
        forall i | 0 <= i < |s.workers|
          ensures !s.workers[i].eligible
        {
          var k := CandidateCovers(s, i);
        }
      }
    }
  }

  // Whatever an election does to the workers is to signal a sleeper.
  lemma ElectSignals(c: Config, s: State)
    ensures forall i :: 0 <= i < |s.workers| ==>
              Elect(c, s).workers[i] == s.workers[i] || Elect(c, s).workers[i] == Awake(s.workers[i])
  {
  }

  lemma InvBounded(c: Config, s: State)
    requires Inv(c, s)
    ensures |s.observations| == c.messages && (s.leader.Some? ==> s.leader.value < |s.workers|)
  {
  }

  // ---- Steps that move no work ----

  // The queue, the accounts and the token are blind to idle workers.
  lemma SameWorkload(c: Config, s: State, t: State)
    requires t == s.(workers := t.workers) && |t.workers| == |s.workers|
    requires forall i :: 0 <= i < |s.workers| ==>
               s.workers[i].phase == t.workers[i].phase || (Idle(s.workers[i]) && Idle(t.workers[i]))
    ensures Queue(c, s) ==> Queue(c, t)
    ensures Accounts(c, s) ==> Accounts(c, t)
    ensures Serial(c, s) ==> Serial(c, t)
  {
    hide Held, Busy;
    SameBatches(s.workers, t.workers);
  }

  predicate Idle(w: Worker) { !w.phase.Processing? }

  // ---- Signals only move sleepers to `Signalled` ----

  ghost predicate Signals(s: State, t: State) {
    && t == s.(workers := t.workers) && |t.workers| == |s.workers|
    && forall i :: 0 <= i < |s.workers| ==> t.workers[i] == s.workers[i] || t.workers[i] == Awake(s.workers[i])
  }

  lemma SignalsKeepCore(c: Config, s: State, t: State, me: Option<nat>)
    requires Core(c, s, me) && Signals(s, t)
    ensures Core(c, t, me)
    ensures AllAwakeAtEnd(s) ==> AllAwakeAtEnd(t)
    ensures Leads(c, s) ==> Leads(c, t)
  {
    hide Queue, Accounts, Serial;
    SameWorkload(c, s, t);
    forall i | 0 <= i < |s.workers| ensures Shape(c, t, me, i, t.workers[i]) {
      assert Shape(c, s, me, i, s.workers[i]);
    }
  }

  // Notifying the leader leaves no leader asleep on pending work.
  lemma NotifyEstablishesWakes(c: Config, t: State, me: Option<nat>)
    requires Core(c, t, me) && Leads(c, t) && AllAwakeAtEnd(t)
    ensures InvAt(c, NotifyLeader(c, t), me)
  {
    SignalsKeepCore(c, t, NotifyLeader(c, t), me);
    if t.leader.Some? { assert Shape(c, t, me, t.leader.value, t.workers[t.leader.value]); }
  }

  lemma ElectEstablishes(c: Config, s: State, me: Option<nat>)
    requires Core(c, s, me) && AllAwakeAtEnd(s)
    requires s.leader.None?
    requires c.mode == SerialToken ==> forall i :: 0 <= i < |s.workers| ==> !s.workers[i].phase.Processing?
    ensures InvAt(c, Elect(c, s), me)
  {
    ElectOutcome(c, s);
    var r := Elect(c, s);
    if r.leader.Some? {
      var t := s.(leader := r.leader, lastLeader := r.lastLeader, handoffs := r.handoffs);
      assert Core(c, t, me) by {
        assert forall i :: 0 <= i < |s.workers| ==> Shape(c, s, me, i, s.workers[i]) ==> Shape(c, t, me, i, t.workers[i]);
      }
      NotifyEstablishesWakes(c, t, me);
    }
  }

  // ---- The top of the worker loop ----

  lemma {:induction false} DequeueTakes(mailbox: seq<nat>, taken: seq<nat>, limit: nat)
    requires |taken| <= limit
    ensures var k := if limit - |taken| <= |mailbox| then limit - |taken| else |mailbox|;
            Dequeue(mailbox, |mailbox|, taken, limit) ==
            Dequeued(mailbox[k..], |mailbox| - k, taken + mailbox[..k], false)
    decreases limit - |taken|
  {
    if |taken| < limit && mailbox != [] {
      DequeueTakes(mailbox[1..], taken + [mailbox[0]], limit);
      var k := if limit - |taken| <= |mailbox| then limit - |taken| else |mailbox|;
      assert mailbox[1..][k - 1..] == mailbox[k..];
      assert taken + [mailbox[0]] + mailbox[1..][..k - 1] == taken + mailbox[..k];
    } else {
      assert mailbox[0..] == mailbox && taken + mailbox[..0] == taken;
    }
  }

  // The state right after the leader has taken its batch, before any hand-off.
  function Claimed(c: Config, s: State, w: nat, k: nat): State
    requires w < |s.workers| && k <= |s.mailbox| && s.queued == |s.mailbox|
  {
    Depart(s.(mailbox := s.mailbox[k..], dequeued := s.dequeued + k, queued := s.queued - k),
           w, s.mailbox[..k], s.dequeued)
  }

  lemma ClaimedQueue(c: Config, s: State, w: nat, k: nat)
    requires Queue(c, s) && w < |s.workers| && k <= |s.mailbox|
    ensures Queue(c, Claimed(c, s, w, k))
    ensures s.admitted[..s.dequeued + k] == s.admitted[..s.dequeued] + s.mailbox[..k]
  {
    assert s.mailbox[k..] == s.admitted[s.dequeued + k..];
  }

  lemma ClaimedObserved(c: Config, s: State, w: nat, k: nat)
    requires w < |s.workers| && k <= |s.mailbox| && s.queued == |s.mailbox|
    ensures Observed(c, s) <==> Observed(c, Claimed(c, s, w, k))
  {
  }

  lemma QueueBounds(c: Config, s: State)
    requires Queue(c, s)
    ensures s.queued == |s.mailbox| && s.dequeued + s.queued == |s.admitted|
  {
  }

  lemma ClaimedAccounts(c: Config, s: State, w: nat, k: nat)
    requires Queue(c, s) && Accounts(c, s)
    requires w < |s.workers| && k <= |s.mailbox| && s.workers[w].phase.Holding?
    ensures Accounts(c, Claimed(c, s, w, k))
    ensures |Held(Claimed(c, s, w, k).workers)| == |Held(s.workers)| + k
  {
    hide Queue, Held, Busy, Observed;
    ClaimedQueue(c, s, w, k);
    ClaimedObserved(c, s, w, k);
    QueueBounds(c, s);
    var t := Claimed(c, s, w, k);
    var batch := s.mailbox[..k];
    ReplaceWorker(s.workers, w, t.workers[w]);
    assert Held(t.workers) == Held(s.workers) + multiset(batch);
    assert multiset(s.admitted[..t.dequeued]) == multiset(s.admitted[..s.dequeued]) + multiset(batch);
    assert |multiset(batch)| == k;
  }

  lemma ClaimedWorkers(c: Config, s: State, w: nat, k: nat)
    requires Core(c, s, Some(w)) && w < |s.workers|
    requires 1 <= k <= |s.mailbox| && k <= c.Limit()
    ensures Workers(c, Claimed(c, s, w, k), None)
  {
    var t := Claimed(c, s, w, k);
    forall i | 0 <= i < |t.workers| ensures Shape(c, t, None, i, t.workers[i]) {
      assert Shape(c, s, Some(w), i, s.workers[i]);
    }
  }

  lemma ClaimedKeepsCore(c: Config, s: State, w: nat, k: nat)
    requires InvAt(c, s, Some(w)) && w < |s.workers| && s.leader == Some(w)
    requires 1 <= k <= |s.mailbox| && k <= c.Limit()
    ensures Core(c, Claimed(c, s, w, k), None)
  {
    assert Shape(c, s, Some(w), w, s.workers[w]);
    ClaimedQueue(c, s, w, k);
    ClaimedAccounts(c, s, w, k);
    ClaimedWorkers(c, s, w, k);
    if c.mode == SerialToken {
      forall i | 0 <= i < |s.workers| ensures !s.workers[i].phase.Processing? {
        assert Shape(c, s, Some(w), i, s.workers[i]);
        assert s.workers[i].phase.Processing? ==> s.leader == Some(i);
      }
      NoneBusy(s.workers);
    }
  }

  lemma LeavingKeeps(c: Config, s: State, w: nat)
    requires InvAt(c, s, Some(w)) && w < |s.workers|
    requires s.closing || s.failed || s.leader != Some(w) || s.queued == 0
    ensures Inv(c, LoopTop(c, s, w))
  {
    hide Queue, Accounts, Serial, Claim;
    QueueBounds(c, s);
    var r := LoopTop(c, s, w);
    SameWorkload(c, s, r);
    forall i | 0 <= i < |r.workers| ensures Shape(c, r, None, i, r.workers[i]) {
      assert Shape(c, s, Some(w), i, s.workers[i]);
    }
    assert Shape(c, s, Some(w), w, s.workers[w]);
  }

  lemma HandOffKeeps(c: Config, t: State)
    requires Core(c, t, None) && AllAwakeAtEnd(t) && c.mode == LeaderFollowers
    ensures Inv(c, Elect(c, t.(leader := None)))
  {
    LeaderlessCore(c, t, None);
    ElectEstablishes(c, t.(leader := None), None);
  }

  // What a claim amounts to when the mailbox agrees with its counter.
  lemma ClaimTakes(c: Config, s: State, w: nat, k: nat)
    requires w < |s.workers| && s.queued == |s.mailbox| > 0 && c.Limit() > 0
    requires k == if c.Limit() <= |s.mailbox| then c.Limit() else |s.mailbox|
    ensures var t := Claimed(c, s, w, k);
            Claim(c, s, w) == if c.mode == LeaderFollowers then Elect(c, t.(leader := None)) else t
  {
    hide Elect, Dequeue, Depart, Fail;
    DequeueTakes(s.mailbox, [], c.Limit());
    assert [] + s.mailbox[..k] == s.mailbox[..k];
  }

  lemma LoopTopKeeps(c: Config, s: State, w: nat)
    requires InvAt(c, s, Some(w)) && w < |s.workers|
    ensures Inv(c, LoopTop(c, s, w))
  {
    if s.closing || s.failed || s.leader != Some(w) || s.queued == 0 {
      LeavingKeeps(c, s, w);
    } else {
      var k := if c.Limit() <= |s.mailbox| then c.Limit() else |s.mailbox|;
      ClaimTakes(c, s, w, k);
      ClaimedKeepsCore(c, s, w, k);
      var t := Claimed(c, s, w, k);
      if c.mode == LeaderFollowers { HandOffKeeps(c, t); }
    }
  }

  // ---- The three ways a worker enters the monitor ----

  // A worker that re-enters the monitor becomes its holder.
  lemma EnterKeepsCore(c: Config, s: State, w: nat, t: State)
    requires Inv(c, s) && w < |s.workers| && !s.workers[w].phase.Processing?
    requires !s.workers[w].phase.Exited?
    requires t == s.(workers := s.workers[w := Worker(Holding, true, false, s.workers[w].held)])
    ensures Core(c, t, Some(w)) && AllAwakeAtEnd(t)
    ensures s.leader.Some? ==> InvAt(c, t, Some(w))
  {
    hide Queue, Accounts, Serial;
    SameWorkload(c, s, t);
    forall i | 0 <= i < |t.workers| ensures Shape(c, t, Some(w), i, t.workers[i]) {
      assert Shape(c, s, None, i, s.workers[i]);
    }
  }

  lemma StartSectionKeeps(c: Config, s: State, w: nat)
    requires Inv(c, s) && w < |s.workers| && s.workers[w].phase.NotStarted?
    ensures InvAt(c, StartSection(c, s, w), Some(w))
  {
    assert Shape(c, s, None, w, s.workers[w]);
    var t := s.(workers := s.workers[w := s.workers[w].(eligible := true, phase := Holding)]);
    EnterKeepsCore(c, s, w, t);
    if s.leader.None? {
      forall i | 0 <= i < |t.workers| && c.mode == SerialToken ensures !t.workers[i].phase.Processing? {
        assert s.workers[i].phase.Processing? ==> s.leader == Some(i);
      }
      ElectEstablishes(c, t, Some(w));
    }
  }

  lemma StartKeeps(c: Config, s: State, w: nat)
    requires Inv(c, s) && w < |s.workers| && s.workers[w].phase.NotStarted?
    ensures Inv(c, LoopTop(c, StartSection(c, s, w), w))
  {
    hide InvAt, LoopTop, StartSection;
    StartSectionKeeps(c, s, w);
    LoopTopKeeps(c, StartSection(c, s, w), w);
  }

  lemma WakeSectionKeeps(c: Config, s: State, w: nat)
    requires Inv(c, s) && w < |s.workers|
    requires s.workers[w].phase.Waiting? || s.workers[w].phase.Signalled?
    ensures InvAt(c, WakeSection(s, w), Some(w))
  {
    assert Shape(c, s, None, w, s.workers[w]);
    EnterKeepsCore(c, s, w, WakeSection(s, w));
  }

  lemma WakeKeeps(c: Config, s: State, w: nat)
    requires Inv(c, s) && w < |s.workers|
    requires s.workers[w].phase.Waiting? || s.workers[w].phase.Signalled?
    ensures Inv(c, LoopTop(c, WakeSection(s, w), w))
  {
    hide InvAt, LoopTop;
    WakeSectionKeeps(c, s, w);
    LoopTopKeeps(c, WakeSection(s, w), w);
  }

  lemma SettleSucceeds(c: Config, s: State, id: nat)
    requires Observed(c, s)
    requires id < c.messages && multiset(s.settled)[id] < s.epoch
    ensures var r := Settle(c, s, id);
            && r == s.(observations := r.observations, completed := s.completed + 1, settled := s.settled + [id])
            && Observed(c, r)
  {}

  // Every message of `ids` may still be settled once more per occurrence.
  ghost predicate Owed(c: Config, settled: seq<nat>, ids: seq<nat>, epoch: nat) {
    forall id :: id in ids ==> id < c.messages && multiset(settled)[id] + multiset(ids)[id] <= epoch
  }

  lemma OwedInit(c: Config, settled: seq<nat>, ids: seq<nat>, epoch: nat)
    requires Owed(c, settled, ids, epoch) && ids != []
    ensures var n := |ids| - 1;
            && Owed(c, settled, ids[..n], epoch)
            && ids[n] < c.messages && multiset(settled + ids[..n])[ids[n]] < epoch
  {
    var n := |ids| - 1;
    assert ids == ids[..n] + [ids[n]];
    assert ids[n] in ids;
    assert forall id :: id in ids[..n] ==> id in ids && multiset(ids[..n])[id] <= multiset(ids)[id];
  }

  ghost predicate Observed(c: Config, s: State) {
    && |s.observations| == c.messages
    && forall id :: 0 <= id < c.messages ==> s.observations[id] == multiset(s.settled)[id]
  }

  // Settling a batch whose messages are all owed never takes a failure branch.
  lemma {:induction false} SettleAllSucceeds(c: Config, s: State, ids: seq<nat>)
    requires |s.observations| == c.messages && Observed(c, s) && Owed(c, s.settled, ids, s.epoch)
    ensures var r := SettleAll(c, s, ids);
            && r == s.(observations := r.observations, completed := s.completed + |ids|, settled := s.settled + ids)
            && Observed(c, r)
  {
    hide Owed, Observed, Settle;
    if ids == [] {
      assert s.settled + ids == s.settled;
    } else {
      var n := |ids| - 1;
      OwedInit(c, s.settled, ids, s.epoch);
      SettleAllSucceeds(c, s, ids[..n]);
      SettleSucceeds(c, SettleAll(c, s, ids[..n]), ids[n]);
      assert s.settled + ids == (s.settled + ids[..n]) + [ids[n]];
    }
  }

  lemma {:induction false} HeldContains(ws: seq<Worker>, w: nat)
    requires w < |ws|
    ensures multiset(Batch(ws[w])) <= Held(ws)
  {
    if w < |ws| - 1 { HeldContains(ws[..|ws| - 1], w); }
  }

  // What a finishing worker's batch amounts to.
  lemma BatchIsOwed(c: Config, s: State, w: nat)
    requires Inv(c, s) && w < |s.workers| && s.workers[w].phase.Processing?
    ensures var b := s.workers[w].phase.batch;
            && Owed(c, s.settled, b, s.epoch)
            && multiset(s.settled + b) + Held(s.workers[w := s.workers[w].(phase := Holding)])
               == multiset(s.admitted[..s.dequeued])
  {
    var b := s.workers[w].phase.batch;
    HeldContains(s.workers, w);
    ReplaceWorker(s.workers, w, s.workers[w].(phase := Holding));
    var front := multiset(s.admitted[..s.dequeued]);
    assert s.admitted == s.admitted[..s.dequeued] + s.admitted[s.dequeued..];
    assert front <= multiset(s.admitted);
    forall id | id in b
      ensures id < c.messages && multiset(s.settled)[id] + multiset(b)[id] <= s.epoch
    {
      assert id in multiset(b);
      assert front[id] == multiset(s.settled)[id] + Held(s.workers)[id];
      assert id in s.admitted[..s.dequeued];
      assert id in s.admitted;
    }
    var idle := Held(s.workers[w := s.workers[w].(phase := Holding)]);
    assert idle + multiset(b) == Held(s.workers) by { assert Held(s.workers) + multiset([]) == Held(s.workers); }
    assert multiset(s.settled + b) + idle == multiset(s.settled) + (idle + multiset(b));
  }

  // In serial mode the finishing batch is the next admitted message.
  lemma SerialBatch(c: Config, s: State, w: nat)
    requires Inv(c, s) && c.mode == SerialToken
    requires w < |s.workers| && s.workers[w].phase.Processing?
    ensures |s.workers[w].phase.batch| == 1 && s.workers[w].phase.ticket == s.nextSettlement
    ensures s.nextSettlement < s.dequeued && s.workers[w].phase.batch == [s.admitted[s.nextSettlement]]
    ensures Held(s.workers) == multiset(s.workers[w].phase.batch)
  {
    var b := s.workers[w].phase.batch;
    var idle := s.workers[w := s.workers[w].(phase := Holding)];
    forall i | 0 <= i < |idle| ensures !idle[i].phase.Processing? {
      assert s.workers[i].phase.Processing? ==> s.leader == Some(i);
    }
    NoneBusy(idle);
    ReplaceWorker(s.workers, w, idle[w]);
    assert Shape(c, s, None, w, s.workers[w]);
    assert Held(idle) + multiset(b) == Held(s.workers) + multiset{};
    assert Held(s.workers) + multiset{} == Held(s.workers);
    assert multiset{} + multiset(b) == multiset(b);
    assert |multiset(b)| == |b| == 1;
    var n := s.nextSettlement;
    assert s.dequeued == n + 1;
    assert s.admitted[..s.dequeued] == s.admitted[..n] + [s.admitted[n]];
    assert multiset(b) == multiset{s.admitted[n]} by {
      assert multiset(s.settled) + multiset(b) == multiset(s.settled) + multiset{s.admitted[n]};
      MultisetCancel(multiset(s.settled), multiset(b), multiset{s.admitted[n]});
    }
    assert b == [b[0]] && b[0] in multiset(b);
  }

  lemma MultisetCancel<T>(a: multiset<T>, x: multiset<T>, y: multiset<T>)
    requires a + x == a + y
    ensures x == y
  {
    assert (a + x) - a == x && (a + y) - a == y;
  }

  // The state after a worker has settled its batch, before any hand-off.
  function Settled(c: Config, s: State, w: nat): State
    requires w < |s.workers| && s.workers[w].phase.Processing?
    requires |s.observations| == c.messages
  {
    SettleAll(c, if c.mode == SerialToken then s.(nextSettlement := s.nextSettlement + 1) else s,
              s.workers[w].phase.batch)
  }

  ghost predicate SettlesTo(c: Config, s: State, r: State, b: seq<nat>) {
    && r == s.(nextSettlement := if c.mode == SerialToken then s.nextSettlement + 1 else s.nextSettlement,
               observations := r.observations, completed := s.completed + |b|, settled := s.settled + b)
    && Observed(c, r)
  }

  lemma SettledIsAux(c: Config, s: State, w: nat, b: seq<nat>)
    requires w < |s.workers| && s.workers[w].phase.Processing? && b == s.workers[w].phase.batch
    requires Observed(c, s) && Owed(c, s.settled, b, s.epoch)
    ensures SettlesTo(c, s, Settled(c, s, w), b)
  {
    if c.mode == SerialToken {
      SettleAllSucceeds(c, s.(nextSettlement := s.nextSettlement + 1), b);
    } else {
      SettleAllSucceeds(c, s, b);
    }
  }

  lemma SettledIs(c: Config, s: State, w: nat)
    requires Inv(c, s) && w < |s.workers| && s.workers[w].phase.Processing?
    ensures SettlesTo(c, s, Settled(c, s, w), s.workers[w].phase.batch)
  {
    BatchIsOwed(c, s, w);
    SettledIsAux(c, s, w, s.workers[w].phase.batch);
  }

  lemma ReturnHeld(ws: seq<Worker>, w: nat, held: nat)
    requires w < |ws| && ws[w].phase.Processing?
    ensures var vs := ws[w := ws[w].(eligible := true, phase := Holding, held := held)];
            && Held(vs) == Held(ws[w := ws[w].(phase := Holding)])
            && |Held(vs)| == |Held(ws)| - |ws[w].phase.batch|
            && Busy(vs) == Busy(ws) - 1
  {
    var b := multiset(ws[w].phase.batch);
    var idle := ws[w := ws[w].(phase := Holding)];
    var vs := ws[w := ws[w].(eligible := true, phase := Holding, held := held)];
    ReplaceWorker(ws, w, idle[w]);
    SameBatches(idle, vs);
    assert |b| == |ws[w].phase.batch|;
    assert Held(idle) + b == Held(ws) by { assert Held(ws) + multiset([]) == Held(ws); }
    assert |Held(idle) + b| == |Held(idle)| + |b|;
  }

  lemma ReturnAccounts(c: Config, s: State, w: nat, held: nat, r: State)
    requires Inv(c, s) && w < |s.workers| && s.workers[w].phase.Processing?
    requires SettlesTo(c, s, r, s.workers[w].phase.batch)
    ensures var t := Return(r, w, |s.workers[w].phase.batch|, held);
            Queue(c, t) && Accounts(c, t)
  {
    BatchIsOwed(c, s, w);
    ReturnHeld(s.workers, w, held);
  }

  lemma ReturnSerial(c: Config, s: State, w: nat, held: nat, r: State)
    requires Inv(c, s) && w < |s.workers| && s.workers[w].phase.Processing?
    requires SettlesTo(c, s, r, s.workers[w].phase.batch)
    requires c.mode == SerialToken
    ensures var t := Return(r, w, |s.workers[w].phase.batch|, held);
            && Serial(c, t) && s.leader == Some(w)
            && forall i :: 0 <= i < |t.workers| ==> !t.workers[i].phase.Processing?
  {
    SerialBatch(c, s, w);
    var t := Return(r, w, |s.workers[w].phase.batch|, held);
    forall i | 0 <= i < |t.workers| ensures !t.workers[i].phase.Processing? {
      assert s.workers[i].phase.Processing? ==> s.leader == Some(i);
    }
    NoneBusy(t.workers);
    var n := s.nextSettlement;
    assert s.admitted[..n + 1] == s.admitted[..n] + [s.admitted[n]];
  }

  lemma ReturnCore(c: Config, s: State, w: nat, held: nat, r: State)
    requires Inv(c, s) && w < |s.workers| && s.workers[w].phase.Processing?
    requires SettlesTo(c, s, r, s.workers[w].phase.batch)
    ensures var t := Return(r, w, |s.workers[w].phase.batch|, held);
            && Core(c, t, Some(w)) && AllAwakeAtEnd(t) && t.leader == s.leader
            && (s.leader.Some? ==> InvAt(c, t, Some(w)))
  {
    ReturnAccounts(c, s, w, held, r);
    if c.mode == SerialToken { ReturnSerial(c, s, w, held, r); }
    var t := Return(r, w, |s.workers[w].phase.batch|, held);
    forall i | 0 <= i < |t.workers| ensures Shape(c, t, Some(w), i, t.workers[i]) {
      assert Shape(c, s, None, i, s.workers[i]);
    }
  }

  // Changing only the leader keeps everything that does not mention it.
  lemma LeaderlessCore(c: Config, t: State, me: Option<nat>)
    requires Core(c, t, me)
    requires c.mode == SerialToken ==> forall i :: 0 <= i < |t.workers| ==> !t.workers[i].phase.Processing?
    ensures Core(c, t.(leader := None), me)
  {
    var u := t.(leader := None);
    assert forall i :: 0 <= i < |t.workers| ==> Shape(c, t, me, i, t.workers[i]) ==> Shape(c, u, me, i, u.workers[i]);
  }

  lemma FollowerFinishKeeps(c: Config, s: State, w: nat)
    requires Inv(c, s) && w < |s.workers| && s.workers[w].phase.Processing?
    requires c.mode == LeaderFollowers
    ensures InvAt(c, FinishSection(c, s, w), Some(w))
  {
    SettledIs(c, s, w);
    var r := Settled(c, s, w);
    var t := Return(r, w, |s.workers[w].phase.batch|, s.workers[w].held);
    ReturnCore(c, s, w, s.workers[w].held, r);
    assert FinishSection(c, s, w) == Elect(c, t);
    if s.leader.None? { ElectEstablishes(c, t, Some(w)); }
  }

  // What the section after processing amounts to in serial mode.
  lemma TokenFinishIs(c: Config, s: State, w: nat)
    requires Inv(c, s) && w < |s.workers| && s.workers[w].phase.Processing?
    requires c.mode == SerialToken
    ensures var held := s.workers[w].held + 1;
            var release := held >= c.batch || s.queued == 0;
            var t := Return(Settled(c, s, w), w, |s.workers[w].phase.batch|, if release then 0 else held);
            FinishSection(c, s, w) == if release then Elect(c, t.(leader := None)) else t
  {
    hide Elect, Return;
    SettledIs(c, s, w);
    SerialBatch(c, s, w);
  }

  lemma TokenFinishKeeps(c: Config, s: State, w: nat)
    requires Inv(c, s) && w < |s.workers| && s.workers[w].phase.Processing?
    requires c.mode == SerialToken
    ensures InvAt(c, FinishSection(c, s, w), Some(w))
  {
    SettledIs(c, s, w);
    TokenFinishIs(c, s, w);
    var r := Settled(c, s, w);
    var held := s.workers[w].held + 1;
    var release := held >= c.batch || s.queued == 0;
    var h := if release then 0 else held;
    var t := Return(r, w, |s.workers[w].phase.batch|, h);
    ReturnCore(c, s, w, h, r);
    ReturnSerial(c, s, w, h, r);
    if release {
      LeaderlessCore(c, t, Some(w));
      ElectEstablishes(c, t.(leader := None), Some(w));
    }
  }

  lemma FinishKeeps(c: Config, s: State, w: nat)
    requires Inv(c, s) && w < |s.workers| && s.workers[w].phase.Processing?
    ensures Inv(c, LoopTop(c, FinishSection(c, s, w), w))
  {
    if c.mode == SerialToken { TokenFinishKeeps(c, s, w); } else { FollowerFinishKeeps(c, s, w); }
    LoopTopKeeps(c, FinishSection(c, s, w), w);
  }

  // ---- Admission and the control steps ----

  function Enqueued(s: State, id: nat): State {
    s.(mailbox := s.mailbox + [id], queued := s.queued + 1,
       accepted := s.accepted + 1, admitted := s.admitted + [id])
  }

  lemma EnqueuedCore(c: Config, s: State, id: nat)
    requires Inv(c, s) && id < c.messages && multiset(s.admitted)[id] < s.epoch
    requires |s.mailbox| != c.capacity
    ensures Core(c, Enqueued(s, id), None)
  {
    var t := Enqueued(s, id);
    assert Queue(c, t) by {
      assert t.mailbox == t.admitted[t.dequeued..];
      assert forall k :: multiset(t.admitted)[k] == multiset(s.admitted)[k] + if k == id then 1 else 0;
    }
    assert t.admitted[..s.dequeued] == s.admitted[..s.dequeued];
    assert c.mode == SerialToken ==> t.admitted[..t.nextSettlement] == s.admitted[..s.nextSettlement];
    assert forall i :: 0 <= i < |t.workers| ==> Shape(c, s, None, i, s.workers[i]) ==> Shape(c, t, None, i, t.workers[i]);
  }

  lemma AdmitKeeps(c: Config, s: State, id: nat)
    requires Inv(c, s) && id < c.messages && multiset(s.admitted)[id] < s.epoch
    ensures Inv(c, AdmitSection(c, s, id))
  {
    if !s.failed && !s.closing && |s.mailbox| != c.capacity {
      EnqueuedCore(c, s, id);
      if !c.coalesce || s.queued == 0 { NotifyEstablishesWakes(c, Enqueued(s, id), None); }
    }
  }

  // Opening an epoch, closing and expiring only raise flags.
  lemma FlagsKeep(c: Config, s: State, t: State)
    requires Inv(c, s)
    requires t == s.(epoch := t.epoch, closing := t.closing, failed := t.failed, expired := t.expired)
    requires s.epoch <= t.epoch && (s.closing ==> t.closing) && (s.failed ==> t.failed)
    requires t.failed ==> t.expired
    ensures Core(c, t, None) && Leads(c, t)
  {
    assert forall i :: 0 <= i < |s.workers| ==> Shape(c, s, None, i, s.workers[i]) ==> Shape(c, t, None, i, t.workers[i]);
  }

  lemma EveryoneAwakeKeeps(c: Config, t: State)
    requires Core(c, t, None) && Leads(c, t) && (t.closing || t.failed)
    ensures Inv(c, WakeAll(t))
  {
    SignalsKeepCore(c, t, WakeAll(t), None);
  }

  lemma StepKeeps(c: Config, s: State, step: Step)
    requires Inv(c, s) && Enabled(c, s, step)
    ensures Inv(c, Apply(c, s, step))
  {
    match step
    case Start(w) => StartKeeps(c, s, w);
    case Wake(w) => WakeKeeps(c, s, w);
    case Finish(w) => FinishKeeps(c, s, w);
    case Admit(id) => AdmitKeeps(c, s, id);
    case NextEpoch => FlagsKeep(c, s, s.(epoch := s.epoch + 1));
    case Close =>
      FlagsKeep(c, s, s.(closing := true));
      EveryoneAwakeKeeps(c, s.(closing := true));
    case Expire =>
      FlagsKeep(c, s, s.(expired := true, failed := true));
      EveryoneAwakeKeeps(c, s.(expired := true, failed := true));
  }

  // ---- Runs ----

  ghost predicate Next(c: Config, s: State, t: State) {
    exists step: Step ::
      && |s.observations| == c.messages
      && (s.leader.Some? ==> s.leader.value < |s.workers|)
      && Enabled(c, s, step) && t == Apply(c, s, step)
  }

  // A run of the dispatcher: any interleaving of enabled steps from the start.
  ghost predicate Behavior(c: Config, run: seq<State>) {
    && c.Valid() && |run| > 0 && run[0] == Init(c)
    && forall i, j :: 0 <= i < |run| && j == i + 1 && j < |run| ==> Next(c, run[i], run[j])
  }

  // One more step makes a run one longer.
  lemma RunExtends(c: Config, run: seq<State>, s: State, step: Step, t: State)
    requires Behavior(c, run) && run[|run| - 1] == s
    requires Inv(c, s) && Enabled(c, s, step) && t == Apply(c, s, step)
    ensures Behavior(c, run + [t])
  {
    hide Enabled, Apply;
    var longer := run + [t];
    forall i, j | 0 <= i < |longer| && j == i + 1 && j < |longer| ensures Next(c, longer[i], longer[j]) {
      assert j < |run| ==> Next(c, run[i], run[j]);
    }
  }

  lemma {:induction false} RunsKeepInvariant(c: Config, run: seq<State>, k: nat)
    requires Behavior(c, run) && k < |run|
    ensures Inv(c, run[k])
  {
    if k == 0 {
      NoneBusy(run[0].workers);
    } else {
      RunsKeepInvariant(c, run, k - 1);
      var s := run[k - 1];
      assert Next(c, s, run[k]);
      var step :| |s.observations| == c.messages && (s.leader.Some? ==> s.leader.value < |s.workers|)
                  && Enabled(c, s, step) && run[k] == Apply(c, s, step);
      StepKeeps(c, s, step);
    }
  }

  // ---- Main results, for every reachable state ----

  // No lost wake-up: pending work is never left to sleepers. If any worker has
  // registered, some handler is running or the leader has been signalled; and
  // with Leader/Followers a set leader has itself been signalled.
  lemma NoLostWakeup(c: Config, run: seq<State>, k: nat, s: State)
    requires Behavior(c, run) && k < |run| && s == run[k]
    requires !s.closing && !s.failed && s.queued > 0
    requires exists i :: 0 <= i < |s.workers| && !s.workers[i].phase.NotStarted?
    ensures exists i :: 0 <= i < |s.workers| &&
              (s.workers[i].phase.Processing? || (s.leader == Some(i) && s.workers[i].phase.Signalled?))
    ensures s.leader.Some? && c.mode == LeaderFollowers ==>
              s.leader.value < |s.workers| && s.workers[s.leader.value].phase.Signalled?
  {
    RunsKeepInvariant(c, run, k);
    var i :| 0 <= i < |s.workers| && !s.workers[i].phase.NotStarted?;
    assert Shape(c, s, None, i, s.workers[i]);
    if s.leader.Some? {
      assert Shape(c, s, None, s.leader.value, s.workers[s.leader.value]);
      assert s.workers[s.leader.value].phase.Signalled? || s.workers[s.leader.value].phase.Processing?;
    }
  }

  // The leader is unset only while nobody is eligible; with Leader/Followers it
  // is unset exactly then, and the leader is never itself processing.
  lemma LeaderUnsetMeansNobodyEligible(c: Config, run: seq<State>, k: nat, s: State)
    requires Behavior(c, run) && k < |run| && s == run[k]
    ensures s.leader.None? ==> forall i :: 0 <= i < |s.workers| ==> !s.workers[i].eligible
    ensures c.mode == LeaderFollowers ==>
              (s.leader.None? <==> forall i :: 0 <= i < |s.workers| ==> !s.workers[i].eligible)
    ensures s.leader.Some? ==> s.leader.value < |s.workers|
    ensures s.leader.Some? && c.mode == LeaderFollowers ==> !s.workers[s.leader.value].phase.Processing?
  {
    RunsKeepInvariant(c, run, k);
    if s.leader.Some? { assert Shape(c, s, None, s.leader.value, s.workers[s.leader.value]); }
  }

  // If every started worker sleeps, everything admitted has been settled.
  lemma AsleepMeansSettled(c: Config, run: seq<State>, k: nat, s: State)
    requires Behavior(c, run) && k < |run| && s == run[k]
    requires !s.closing && !s.failed
    requires exists i :: 0 <= i < |s.workers| && s.workers[i].phase.Waiting?
    requires forall i :: 0 <= i < |s.workers| ==> s.workers[i].phase.Waiting? || s.workers[i].phase.NotStarted?
    ensures s.mailbox == [] && s.active == 0 && s.inFlight == 0
    ensures multiset(s.settled) == multiset(s.admitted)
    ensures c.mode == SerialToken ==> s.settled == s.admitted
  {
    RunsKeepInvariant(c, run, k);
    NoneBusy(s.workers);
    if s.queued > 0 { NoLostWakeup(c, run, k, s); }
    assert s.admitted[..s.dequeued] == s.admitted;
    assert multiset(s.settled) + multiset{} == multiset(s.settled);
  }

  // Exactly-once accounting: every admitted message is queued, in flight or
  // settled, never twice; and none of the dispatcher's own failure branches
  // (a refused receive, a misordered ticket, a surplus settlement) is ever taken.
  lemma SettlesExactlyOnce(c: Config, run: seq<State>, k: nat, s: State)
    requires Behavior(c, run) && k < |run| && s == run[k]
    ensures multiset(s.admitted) == multiset(s.mailbox) + Held(s.workers) + multiset(s.settled)
    ensures s.accepted == s.queued + s.inFlight + s.completed
    ensures s.active == Busy(s.workers) && s.inFlight <= c.workers * c.batch
    ensures forall id :: multiset(s.settled)[id] <= multiset(s.admitted)[id] <= s.epoch
    ensures s.failed ==> s.expired
  {
    RunsKeepInvariant(c, run, k);
    assert s.admitted == s.admitted[..s.dequeued] + s.mailbox;
    assert |multiset(s.admitted[..s.dequeued])| == s.dequeued;
    assert |multiset(s.settled) + Held(s.workers)| == |s.settled| + |Held(s.workers)|;
    forall i | 0 <= i < |s.workers| ensures |Batch(s.workers[i])| <= c.batch {
      assert Shape(c, s, None, i, s.workers[i]);
    }
    HeldBound(s.workers, c.batch);
  }

  // In serial mode an active handler is alone, and holds the message between
  // the settled ones and the queued ones.
  lemma TokenHolder(c: Config, s: State, i: nat)
    requires Inv(c, s) && c.mode == SerialToken
    requires i < |s.workers| && s.workers[i].phase.Processing?
    ensures s.leader == Some(i)
    ensures s.admitted == s.settled + s.workers[i].phase.batch + s.mailbox
  {
    SerialBatch(c, s, i);
    var n := s.nextSettlement;
    assert |multiset(s.workers[i].phase.batch)| == 1;
    assert s.dequeued == n + 1;
    assert s.admitted == s.admitted[..n] + [s.admitted[n]] + s.admitted[n + 1..];
  }

  // Serial-token mode: one handler at a time, settlement in admission order.
  lemma SerialTokenIsFifo(c: Config, run: seq<State>, k: nat, s: State)
    requires Behavior(c, run) && k < |run| && s == run[k]
    requires c.mode == SerialToken
    ensures s.settled <= s.admitted && s.nextSettlement == |s.settled|
    ensures forall i :: 0 <= i < |s.workers| && s.workers[i].phase.Processing? ==>
              s.leader == Some(i) && s.admitted == s.settled + s.workers[i].phase.batch + s.mailbox
    ensures (forall i :: 0 <= i < |s.workers| ==> !s.workers[i].phase.Processing?) ==>
              s.admitted == s.settled + s.mailbox
  {
    RunsKeepInvariant(c, run, k);
    forall i | 0 <= i < |s.workers| && s.workers[i].phase.Processing?
      ensures s.leader == Some(i) && s.admitted == s.settled + s.workers[i].phase.batch + s.mailbox
    {
      TokenHolder(c, s, i);
    }
    if forall i :: 0 <= i < |s.workers| ==> !s.workers[i].phase.Processing? { NoneBusy(s.workers); }
  }

  // Closing or failing never leaves a worker asleep, so destruction can join them.
  lemma ShutdownReachesEveryWorker(c: Config, run: seq<State>, k: nat, s: State)
    requires Behavior(c, run) && k < |run| && s == run[k]
    requires s.closing || s.failed
    ensures forall i :: 0 <= i < |s.workers| ==> !s.workers[i].phase.Waiting?
    ensures forall i :: 0 <= i < |s.workers| && s.workers[i].phase.Signalled? ==>
              LoopTop(c, WakeSection(s, i), i).workers[i].phase.Exited?
  {
    RunsKeepInvariant(c, run, k);
  }
}
