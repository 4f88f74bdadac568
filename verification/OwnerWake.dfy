/**
  The host's side of the owner executor. The host sleeps only after it has seen
  nothing pending, and a wake that is delivered stays latched until the host
  consumes it. Posts, shutdowns and deliveries come from any thread.
 */
module OwnerWake {
  import opened OwnerExecutor

  datatype Host = Active | SawZero | Sleeping

  datatype State = State(
    capacity: nat,
    queued: nat,
    running: bool,
    open: bool,
    host: Host,
    latch: bool,
    inFlight: nat   // wakes decided under the gate and not delivered yet
  )

  datatype Step =
    | Posts | ShutsDown | WakeDelivered
    | RunBegins | RunEnds
    | HostSeesPending | HostConsumesLatch | HostSleeps | HostWakes | HostWakesSpuriously

  function Init(capacity: nat): State {
    State(capacity, 0, false, true, Active, false, 0)
  }

  predicate Enabled(s: State, step: Step) {
    match step
    case WakeDelivered => s.inFlight > 0
    case RunBegins => s.host.Active? && !s.running && s.queued > 0
    case RunEnds => s.running
    case HostSeesPending => s.host.Active? && !s.running
    case HostConsumesLatch => s.host.Active?
    case HostSleeps => s.host.SawZero?
    case HostWakes => s.host.Sleeping? && s.latch
    case HostWakesSpuriously => s.host.Sleeping?
    case _ => true
  }

  function Apply(s: State, step: Step): State
    requires Enabled(s, step)
  {
    match step
    case Posts =>
      if s.open && s.queued < s.capacity then
        s.(queued := s.queued + 1, inFlight := s.inFlight + if PostWakes(s.queued, s.running) then 1 else 0)
      else s
    case ShutsDown =>
      if s.open then
        s.(open := false, inFlight := s.inFlight + if ShutdownWakes(s.queued, s.running) then 1 else 0)
      else s
    case WakeDelivered => s.(inFlight := s.inFlight - 1, latch := true)
    case RunBegins => s.(queued := s.queued - 1, running := true)
    case RunEnds => s.(running := false)
    case HostSeesPending => if s.queued == 0 then s.(host := SawZero) else s
    case HostConsumesLatch => s.(latch := false)
    case HostSleeps => if s.latch then s.(host := Active, latch := false) else s.(host := Sleeping)
    case HostWakes => s.(host := Active, latch := false)
    case HostWakesSpuriously => s.(host := Active)
  }

  ghost predicate Next(s: State, t: State) {
    exists step :: Enabled(s, step) && t == Apply(s, step)
  }

  ghost predicate Behavior(run: seq<State>) {
    && |run| > 0
    && (exists capacity :: run[0] == Init(capacity))
    && (forall i, j :: 0 <= i < |run| && j == i + 1 && j < |run| ==> Next(run[i], run[j]))
  }

  predicate Inv(s: State) {
    && (s.running ==> s.host.Active?)
    && (!s.host.Active? && s.queued > 0 ==> s.latch || s.inFlight > 0)
  }

  lemma {:induction false} RunsKeepInvariant(run: seq<State>, k: nat)
    requires Behavior(run) && k < |run|
    ensures Inv(run[k])
  {
    if k > 0 {
      RunsKeepInvariant(run, k - 1);
      assert Next(run[k - 1], run[k]);
    }
  }

  // No lost host wake: a sleeping host with tasks queued has a wake delivered or
  // on its way.
  lemma NoLostHostWake(run: seq<State>, k: nat)
    requires Behavior(run) && k < |run|
    ensures run[k].host.Sleeping? && run[k].queued > 0 ==> run[k].latch || run[k].inFlight > 0
  {
    RunsKeepInvariant(run, k);
  }

  // A delivery to such a host makes it able to wake and run.
  lemma DeliveryUnblocks(run: seq<State>, k: nat)
    requires Behavior(run) && k < |run| && run[k].host.Sleeping? && run[k].queued > 0
    ensures Enabled(run[k], HostWakes) || Enabled(run[k], WakeDelivered)
    ensures Enabled(run[k], WakeDelivered) ==> Enabled(Apply(run[k], WakeDelivered), HostWakes)
    ensures Enabled(run[k], HostWakes) ==> Enabled(Apply(run[k], HostWakes), RunBegins)
  {
    RunsKeepInvariant(run, k);
  }
}
