/**
  The benchmark-local worker dispatcher: a monitor elects one worker, the leader,
  as the only mailbox consumer; wake signals are coalesced.

  Every stretch of code that holds the monitor is one atomic step. A worker is
  outside the monitor in one of the phases below; `Holding` is used only inside
  a step, for the worker that is executing it.
 */
module Dispatcher {
  import opened Common

  datatype Mode = LeaderFollowers | SerialToken

  datatype Phase =
    | NotStarted
    | Waiting                                  // asleep on its own condition
    | Signalled                                // signalled, has not re-entered yet
    | Holding                                  // executing the current step
    | Processing(batch: seq<nat>, ticket: nat) // handling claimed messages
    | Exited

  datatype Worker = Worker(phase: Phase, eligible: bool, waiting: bool, held: nat)

  datatype Config = Config(mode: Mode, workers: nat, batch: nat, coalesce: bool,
                           capacity: nat, messages: nat)
  {
    predicate Valid() { batch > 0 && capacity > 0 }

    // How many messages one claim may take.
    function Limit(): nat { if mode == LeaderFollowers then batch else 1 }
  }

  datatype State = State(
    workers: seq<Worker>,
    leader: Option<nat>,
    lastLeader: nat,
    handoffs: nat,       // elections held
    mailbox: seq<nat>,
    queued: nat,
    active: int,
    inFlight: int,
    accepted: nat,
    dequeued: nat,
    nextSettlement: nat,
    completed: nat,
    epoch: nat,
    observations: seq<nat>,
    closing: bool,
    failed: bool,
    admitted: seq<nat>,  // history: message ids in admission order
    settled: seq<nat>,   // history: message ids in settlement order
    expired: bool        // history: a deadline forced a failure
  )

  datatype Step =
    | Start(worker: nat)   // a worker thread enters run_worker
    | Wake(worker: nat)    // a wait returns, signalled or spuriously
    | Finish(worker: nat)  // a worker comes back from processing
    | Admit(id: nat)       // a producer sends message `id`
    | NextEpoch            // run_sample opens the next round of messages
    | Close                // destroy_case
    | Expire               // a sample deadline passes

  // ---- Functional reading of the monitor sections ----

  function SetPhase(s: State, i: nat, p: Phase): State
    requires i < |s.workers|
  {
    s.(workers := s.workers[i := s.workers[i].(phase := p)])
  }

  function Signal(s: State, i: nat): State
    requires i < |s.workers|
  {
    if s.workers[i].phase.Waiting? then SetPhase(s, i, Signalled) else s
  }

  function NotifyLeader(c: Config, s: State): State
    requires s.leader.Some? ==> s.leader.value < |s.workers|
  {
    if s.leader.None? then s
    else if !c.coalesce || (s.queued != 0 && s.workers[s.leader.value].waiting)
    then Signal(s, s.leader.value)
    else s
  }

  function Awake(w: Worker): Worker {
    if w.phase.Waiting? then w.(phase := Signalled) else w
  }

  function WakeAll(s: State): State {
    s.(workers := seq(|s.workers|, i requires 0 <= i < |s.workers| => Awake(s.workers[i])))
  }

  function Fail(s: State): State {
    WakeAll(s.(failed := true))
  }

  // The worker inspected at the given step of an election round.
  function Candidate(s: State, step: nat): nat
    requires |s.workers| > 0
  {
    (s.lastLeader + step) % |s.workers|
  }

  // The winner's step: the first candidate, from `step` on, that is eligible.
  function Winner(s: State, step: nat): Option<nat>
    requires |s.workers| > 0 && 1 <= step <= |s.workers| + 1
    decreases |s.workers| + 1 - step
  {
    if step > |s.workers| then None
    else if s.workers[Candidate(s, step)].eligible then Some(step)
    else Winner(s, step + 1)
  }

  function Elect(c: Config, s: State): (r: State)
    ensures |r.workers| == |s.workers|
  {
    if s.leader.Some? || |s.workers| == 0 then s
    else match Winner(s, 1)
      case None => s
      case Some(step) =>
        var i := Candidate(s, step);
        NotifyLeader(c, s.(leader := Some(i), lastLeader := i, handoffs := s.handoffs + 1))
  }

  function Settle(c: Config, s: State, id: nat): State
    requires |s.observations| == c.messages
  {
    if id >= c.messages || s.observations[id] >= s.epoch then Fail(s)
    else s.(observations := s.observations[id := s.observations[id] + 1],
            completed := s.completed + 1,
            settled := s.settled + [id])
  }

  function SettleAll(c: Config, s: State, ids: seq<nat>): (r: State)
    requires |s.observations| == c.messages
    ensures |r.observations| == c.messages && |r.workers| == |s.workers|
  {
    if ids == [] then s
    else Settle(c, SettleAll(c, s, ids[..|ids| - 1]), ids[|ids| - 1])
  }

  datatype Dequeued = Dequeued(mailbox: seq<nat>, queued: nat, taken: seq<nat>, refused: bool)

  // Receives up to `limit` messages in total; `taken` are those received so far.
  function Dequeue(mailbox: seq<nat>, queued: nat, taken: seq<nat>, limit: nat): Dequeued
    decreases limit - |taken|
  {
    if |taken| >= limit || queued == 0 then Dequeued(mailbox, queued, taken, false)
    else if mailbox == [] then Dequeued(mailbox, queued, taken, true)
    else Dequeue(mailbox[1..], queued - 1, taken + [mailbox[0]], limit)
  }

  // The receive loop; a refused receive fails the dispatcher.
  function Receive(c: Config, s: State, d: Dequeued): (r: State)
    ensures |r.workers| == |s.workers|
  {
    var t := s.(mailbox := d.mailbox, queued := d.queued, dequeued := s.dequeued + |d.taken|);
    if d.refused then Fail(t) else t
  }

  // The claiming worker leaves the monitor to process its batch.
  function Depart(s: State, w: nat, batch: seq<nat>, ticket: nat): State
    requires w < |s.workers|
  {
    var me := s.workers[w].(eligible := false, phase := Processing(batch, ticket));
    s.(active := s.active + 1, inFlight := s.inFlight + |batch|, workers := s.workers[w := me])
  }

  // The leader takes its batch; with Leader/Followers it also hands the lead on.
  function Claim(c: Config, s: State, w: nat): State
    requires w < |s.workers|
  {
    var d := Dequeue(s.mailbox, s.queued, [], c.Limit());
    var t := Receive(c, s, d);
    if d.taken == [] then SetPhase(t, w, Exited)
    else
      var u := Depart(t, w, d.taken, s.dequeued);
      if c.mode == LeaderFollowers then Elect(c, u.(leader := None)) else u
  }

  // From the top of the worker loop until the monitor is released.
  function LoopTop(c: Config, s: State, w: nat): State
    requires w < |s.workers|
  {
    if s.closing || s.failed then SetPhase(s, w, Exited)
    else if s.leader != Some(w) || s.queued == 0 then
      s.(workers := s.workers[w := s.workers[w].(waiting := true, phase := Waiting)])
    else Claim(c, s, w)
  }

  function StartSection(c: Config, s: State, w: nat): (r: State)
    requires w < |s.workers|
    ensures |r.workers| == |s.workers|
  {
    Elect(c, s.(workers := s.workers[w := s.workers[w].(eligible := true, phase := Holding)]))
  }

  function WakeSection(s: State, w: nat): State
    requires w < |s.workers|
  {
    s.(workers := s.workers[w := s.workers[w].(waiting := false, phase := Holding)])
  }

  // A worker that has settled its batch is eligible again.
  function Return(s: State, w: nat, items: nat, held: nat): State
    requires w < |s.workers|
  {
    s.(workers := s.workers[w := s.workers[w].(eligible := true, phase := Holding, held := held)],
       inFlight := s.inFlight - items, active := s.active - 1)
  }

  // The ticket check of serial mode, and the settlement of the batch.
  function Settlement(c: Config, s: State, p: Phase): (r: State)
    requires p.Processing? && |s.observations| == c.messages
    ensures |r.workers| == |s.workers|
  {
    var misordered := c.mode == SerialToken && p.ticket != s.nextSettlement;
    var s1 := if c.mode == SerialToken then s.(nextSettlement := s.nextSettlement + 1) else s;
    SettleAll(c, if misordered then Fail(s1) else s1, p.batch)
  }

  // Whether the worker keeps the token, and the election otherwise.
  function HandBack(c: Config, s: State, w: nat, items: nat): (r: State)
    requires w < |s.workers|
    ensures |r.workers| == |s.workers|
  {
    if c.mode == LeaderFollowers then Elect(c, Return(s, w, items, s.workers[w].held))
    else if s.workers[w].held + 1 >= c.batch || s.queued == 0
    then Elect(c, Return(s, w, items, 0).(leader := None))
    else Return(s, w, items, s.workers[w].held + 1)
  }

  function FinishSection(c: Config, s: State, w: nat): (r: State)
    requires w < |s.workers| && s.workers[w].phase.Processing?
    requires |s.observations| == c.messages
    ensures |r.workers| == |s.workers|
  {
    var p := s.workers[w].phase;
    HandBack(c, Settlement(c, s, p), w, |p.batch|)
  }

  function AdmitSection(c: Config, s: State, id: nat): State
    requires s.leader.Some? ==> s.leader.value < |s.workers|
  {
    if s.failed || s.closing || |s.mailbox| == c.capacity then s
    else
      var t := s.(mailbox := s.mailbox + [id], queued := s.queued + 1,
                  accepted := s.accepted + 1, admitted := s.admitted + [id]);
      if !c.coalesce || s.queued == 0 then NotifyLeader(c, t) else t
  }

  // ---- The step relation ----

  function Init(c: Config): State {
    State(seq(c.workers, i => Worker(NotStarted, false, false, 0)), None,
          if c.workers == 0 then 0 else c.workers - 1, 0,
          [], 0, 0, 0, 0, 0, 0, 0, 0, seq(c.messages, i => 0), false, false, [], [], false)
  }

  predicate Enabled(c: Config, s: State, step: Step) {
    match step
    case Start(w) => w < |s.workers| && s.workers[w].phase.NotStarted?
    case Wake(w) => w < |s.workers| && (s.workers[w].phase.Waiting? || s.workers[w].phase.Signalled?)
    case Finish(w) => w < |s.workers| && s.workers[w].phase.Processing?
    // Producers send every message id once per epoch.
    case Admit(id) => id < c.messages && multiset(s.admitted)[id] < s.epoch
    case NextEpoch => true
    case Close => true
    case Expire => true
  }

  function Apply(c: Config, s: State, step: Step): State
    requires Enabled(c, s, step)
    requires |s.observations| == c.messages
    requires s.leader.Some? ==> s.leader.value < |s.workers|
  {
    match step
    case Start(w) => LoopTop(c, StartSection(c, s, w), w)
    case Wake(w) => LoopTop(c, WakeSection(s, w), w)
    case Finish(w) => LoopTop(c, FinishSection(c, s, w), w)
    case Admit(id) => AdmitSection(c, s, id)
    case NextEpoch => s.(epoch := s.epoch + 1)
    case Close => WakeAll(s.(closing := true))
    case Expire => Fail(s.(expired := true))
  }
}
