/**
  The actor lifecycle shell. Everything the shell changes is changed under its
  gate, so each gate-held section is one function of the shell's fields, and the
  protocol is a step relation in which senders, subscription callbacks, waiters,
  stop requests and the owner's start and destroy interleave freely.
 */
module Actor {
  import opened Common

  datatype Life = Start | Running | Stopping | Stopped | Failed

  predicate Terminal(l: Life) { l.Stopped? || l.Failed? }

  // The fields that the gate protects, and the reference count.
  datatype Shell = Shell(
    life: Life,
    settled: bool,
    stale: bool,
    starting: bool,
    pendingWakes: nat,
    refs: nat,
    error: Option<string>
  )

  // A gate-held section: the shell it leaves, and whether it broadcast.
  datatype Section = Section(shell: Shell, broadcast: bool)

  // ---- Gate-held sections ----

  // The text a failure stores; None when its copy could not be allocated.
  function CopyError(message: string, memory: bool): Option<string> {
    if !memory then None else Some(if message == "" then "actor failed" else message)
  }

  function StoreError(s: Shell, copy: Option<string>): Shell {
    if s.error.None? then s.(error := copy) else s
  }

  // The first half of a failure.
  function MarkFailed(s: Shell, copy: Option<string>): Section {
    var t := s.(starting := false);
    if Terminal(t.life) then Section(StoreError(t, copy), false)
    else Section(StoreError(t.(settled := false, life := Failed), copy), true)
  }

  function Settle(s: Shell): Section {
    Section(s.(settled := true), true)
  }

  // The second section of a completion callback; `natural` says that the run
  // may complete by itself.
  function SinkDone(s: Shell, natural: bool, copy: Option<string>): Section {
    if s.life.Stopping? || (s.life.Running? && natural) then
      Section(s.(settled := false, life := Stopped), false)
    else if s.life.Running? then
      Section(StoreError(s, copy).(settled := false, life := Failed), true)
    else Section(s, false)
  }

  function BeginStart(s: Shell): Shell {
    if s.life.Start? then s.(starting := true, life := Running) else s
  }

  function RequestStop(s: Shell): Section {
    match s.life
    case Start => Section(s.(life := Stopped, settled := true), true)
    case Running => Section(s.(life := Stopping), false)
    case _ => Section(s, false)
  }

  predicate WaitDone(s: Shell) { Terminal(s.life) && s.settled }

  // Would a well-formed event reach the runtime's own admission?
  predicate Admits(s: Shell) {
    !s.stale && s.life.Running? && !s.starting && s.pendingWakes != SIZE_MAX
  }

  function TrySend(s: Shell, valid: bool, wakes: bool): Shell {
    if Admits(s) && valid && wakes then s.(pendingWakes := s.pendingWakes + 1) else s
  }

  function WakeDone(s: Shell): Section {
    var left := (s.pendingWakes + SIZE_MAX) % (SIZE_MAX + 1);
    Section(s.(pendingWakes := left), s.stale && left == 0)
  }

  function BeginDestroy(s: Shell): Shell {
    s.(stale := true, life := match s.life case Start => Stopped case Running => Stopping case other => other)
  }

  function FinishDestroy(s: Shell): Section {
    Section(s.(life := if s.life.Failed? then Failed else Stopped, settled := true), true)
  }

  function Retain(s: Shell): Shell {
    if s.refs != 0 && s.refs != SIZE_MAX then s.(refs := s.refs + 1) else s
  }

  function Acquire(s: Shell): Shell {
    if s.stale then s else Retain(s)
  }

  function Release(s: Shell): Shell {
    s.(refs := (s.refs + SIZE_MAX) % (SIZE_MAX + 1))
  }

  // What every gate-held section keeps: it never unsettles, never leaves a
  // terminal state, never replaces a stored error, never makes a stale shell
  // fresh, and broadcasts whenever it makes the waiters' condition true.
  predicate Lawful(x: Shell, y: Section) {
    && (Terminal(x.life) ==> y.shell.life == x.life)
    && (x.settled ==> y.shell.settled)
    && (x.error.Some? ==> y.shell.error == x.error)
    && (x.stale ==> y.shell.stale)
    && (WaitDone(y.shell) && !WaitDone(x) ==> y.broadcast)
  }

  // ---- The threads around the shell ----

  // A sending thread: `Waking` holds a detached progress wake outside the gate.
  datatype Sender = NoRef | Ready | Waking

  // A subscription callback: `InCallback` runs user code; `settles` says that
  // this callback made the terminal transition and settles it when it returns.
  datatype Sink = Away | DoneRead(copied: bool) | InCallback(settles: bool)

  datatype Waiter = Outside | Asleep | Signalled | Returned(seen: Life)

  // The owner's own calls, between their gate-held sections.
  datatype Owner =
    | Free
    | Subscribing                              // start has published RUNNING
    | Requesting                               // the run is open, demand not requested yet
    | Refused                                  // demand was refused and the actor is not STOPPED
    | MarkedFailed(first: bool, closes: bool)  // between the two halves of a failure
    | Closing                                  // start waits for callbacks before it settles
    | DestroyAsleep | DestroySignalled         // destroy waits for detached wakes
    | DestroyClosing                           // no wake is left; the run is being closed
    | DestroyingRuntime                        // the runtime instance is being destroyed
    | Destroyed

  predicate DestroyBegun(o: Owner) {
    o.DestroyAsleep? || o.DestroySignalled? || WakesDrained(o)
  }

  predicate WakesDrained(o: Owner) {
    o.DestroyClosing? || RuntimeGone(o)
  }

  predicate RuntimeGone(o: Owner) {
    o.DestroyingRuntime? || o.Destroyed?
  }

  datatype State = State(
    shell: Shell,
    natural: bool,         // this runtime may complete on its own
    open: bool,            // the subscription may deliver callbacks
    senders: seq<Sender>,
    sinks: seq<Sink>,
    waiters: seq<Waiter>,
    owner: Owner,
    accepted: nat,         // history: sends accepted
    freed: bool            // history: the shell was freed
  )

  datatype Step =
    | StartGate | AttachFails(message: string, memory: bool) | SubscribeOpens | SubscribeFails(memory: bool)
    | StartedGate | DemandGranted | DemandRefused | RefusalMarks(memory: bool) | FailureSettles | StartCloses
    | StopRequested
    | ErrorGate(sink: nat, message: string, memory: bool) | DoneReads(sink: nat, memory: bool) | DoneGate(sink: nat)
    | CallbackReturns(sink: nat)
    | WaitEnters(waiter: nat) | WaitWakes(waiter: nat)
    | RefAcquired(sender: nat) | RefRetained(sender: nat) | RefReleased(sender: nat)
    | Sends(sender: nat, valid: bool, accepts: bool, wakes: bool) | WakeReturns(sender: nat)
    | DestroyGate | DestroyWakes | RunCloses | RuntimeDestroyed

  predicate AllAway(sinks: seq<Sink>) {
    forall i :: 0 <= i < |sinks| ==> sinks[i].Away?
  }

  function Signal(w: Waiter): Waiter { if w.Asleep? then Signalled else w }

  // The shell after a section, with everyone asleep on the condition signalled
  // if the section broadcast.
  function Leave(s: State, x: Section): State {
    if x.broadcast then
      s.(shell := x.shell,
         waiters := seq(|s.waiters|, i requires 0 <= i < |s.waiters| => Signal(s.waiters[i])),
         owner := if s.owner.DestroyAsleep? then DestroySignalled else s.owner)
    else s.(shell := x.shell)
  }

  function Init(natural: bool, senders: nat, sinks: nat, waiters: nat): State {
    State(Shell(Start, false, false, false, 0, 1, None), natural, false,
          seq(senders, _ => NoRef), seq(sinks, _ => Away), seq(waiters, _ => Outside), Free, 0, false)
  }

  predicate Enabled(s: State, step: Step) {
    match step
    case StartGate => s.owner.Free?
    case AttachFails(_, _) => s.owner.Subscribing? && !s.open
    case SubscribeOpens => s.owner.Subscribing? && !s.open
    case SubscribeFails(_) => s.owner.Subscribing? && AllAway(s.sinks)
    case StartedGate => s.owner.Subscribing? && s.open
    case DemandGranted => s.owner.Requesting?
    case DemandRefused => s.owner.Requesting?
    case RefusalMarks(_) => s.owner.Refused?
    case FailureSettles => s.owner.MarkedFailed?
    case StartCloses => s.owner.Closing? && AllAway(s.sinks)
    case StopRequested => !s.owner.Destroyed?
    case ErrorGate(i, _, _) => i < |s.sinks| && s.sinks[i].Away? && s.open
    case DoneReads(i, _) => i < |s.sinks| && s.sinks[i].Away? && s.open
    case DoneGate(i) => i < |s.sinks| && s.sinks[i].DoneRead?
    case CallbackReturns(i) => i < |s.sinks| && s.sinks[i].InCallback?
    case WaitEnters(i) => i < |s.waiters| && s.waiters[i].Outside? && !s.owner.Destroyed?
    case WaitWakes(i) => i < |s.waiters| && (s.waiters[i].Asleep? || s.waiters[i].Signalled?)
    case RefAcquired(i) => i < |s.senders| && s.senders[i].NoRef? && !s.owner.Destroyed?
    case RefRetained(i) => i < |s.senders| && s.senders[i].NoRef? && exists j :: 0 <= j < |s.senders| && !s.senders[j].NoRef?
    case RefReleased(i) => i < |s.senders| && s.senders[i].Ready?
    case Sends(i, _, _, _) => i < |s.senders| && s.senders[i].Ready?
    case WakeReturns(i) => i < |s.senders| && s.senders[i].Waking?
    case DestroyGate => s.owner.Free?
    case DestroyWakes => s.owner.DestroyAsleep? || s.owner.DestroySignalled?
    case RunCloses => s.owner.DestroyClosing? && AllAway(s.sinks)
    case RuntimeDestroyed => s.owner.DestroyingRuntime?
  }

  // ---- Steps of each kind of thread ----

  function OwnerFails(s: State, message: string, memory: bool, closes: bool): State {
    Leave(s, MarkFailed(s.shell, CopyError(message, memory)))
      .(owner := MarkedFailed(!Terminal(s.shell.life), closes))
  }

  function OwnerSettles(s: State): State
    requires s.owner.MarkedFailed?
  {
    var t := if s.owner.first then Leave(s, Settle(s.shell)) else s;
    t.(owner := if s.owner.closes then Closing else Free)
  }

  function SinkFails(s: State, i: nat, copy: Option<string>): State
    requires i < |s.sinks|
  {
    Leave(s, MarkFailed(s.shell, copy)).(sinks := s.sinks[i := InCallback(!Terminal(s.shell.life))])
  }

  function SinkCompletes(s: State, i: nat): State
    requires i < |s.sinks| && s.sinks[i].DoneRead?
  {
    var copy := CopyError("Run completed while Actor was RUNNING", s.sinks[i].copied);
    Leave(s, SinkDone(s.shell, s.natural, copy))
      .(sinks := s.sinks[i := InCallback(s.shell.life.Running? || s.shell.life.Stopping?)])
  }

  function SinkReturns(s: State, i: nat): State
    requires i < |s.sinks| && s.sinks[i].InCallback?
  {
    (if s.sinks[i].settles then Leave(s, Settle(s.shell)) else s).(sinks := s.sinks[i := Away])
  }

  function Waits(s: State, i: nat): State
    requires i < |s.waiters|
  {
    s.(waiters := s.waiters[i := if WaitDone(s.shell) then Returned(s.shell.life) else Asleep])
  }

  function Sending(s: State, i: nat, valid: bool, accepts: bool, wakes: bool): State
    requires i < |s.senders|
  {
    var runs := Admits(s.shell) && valid;
    s.(shell := TrySend(s.shell, valid, wakes),
       accepted := s.accepted + (if runs && accepts then 1 else 0),
       senders := if runs && wakes then s.senders[i := Waking] else s.senders)
  }

  function WakeReturned(s: State, i: nat): State
    requires i < |s.senders|
  {
    Leave(s, WakeDone(s.shell)).(senders := s.senders[i := Ready])
  }

  function TakesRef(s: State, i: nat, t: Shell): State
    requires i < |s.senders|
  {
    s.(shell := t, senders := if t.refs != s.shell.refs then s.senders[i := Ready] else s.senders)
  }

  function DropsRef(s: State): State {
    s.(shell := Release(s.shell), freed := s.freed || s.shell.refs == 1)
  }

  function ChecksWakes(s: State): State {
    s.(owner := if s.shell.pendingWakes != 0 then DestroyAsleep else DestroyClosing)
  }

  function Apply(s: State, step: Step): State
    requires Enabled(s, step)
  {
    match step
    case StartGate => s.(shell := BeginStart(s.shell), owner := if s.shell.life.Start? then Subscribing else Free)
    case AttachFails(message, memory) => OwnerFails(s, message, memory, false)
    case SubscribeOpens => s.(open := true)
    case SubscribeFails(memory) => OwnerFails(s, "actor could not open Run", memory, false).(open := false)
    case StartedGate => s.(shell := s.shell.(starting := false), owner := Requesting)
    case DemandGranted => s.(owner := Free)
    case DemandRefused => s.(owner := if s.shell.life.Stopped? then Closing else Refused)
    case RefusalMarks(memory) => OwnerFails(s, "actor could not request Run demand", memory, true)
    case FailureSettles => OwnerSettles(s)
    case StartCloses => Leave(s, Settle(s.shell)).(owner := Free, open := false)
    case StopRequested => Leave(s, RequestStop(s.shell))
    case ErrorGate(i, message, memory) => SinkFails(s, i, CopyError(message, memory))
    case DoneReads(i, memory) => s.(sinks := s.sinks[i := DoneRead(memory && s.shell.life.Running? && !s.natural)])
    case DoneGate(i) => SinkCompletes(s, i)
    case CallbackReturns(i) => SinkReturns(s, i)
    case WaitEnters(i) => Waits(s, i)
    case WaitWakes(i) => Waits(s, i)
    case RefAcquired(i) => TakesRef(s, i, Acquire(s.shell))
    case RefRetained(i) => TakesRef(s, i, Retain(s.shell))
    case RefReleased(i) => DropsRef(s.(senders := s.senders[i := NoRef]))
    case Sends(i, valid, accepts, wakes) => Sending(s, i, valid, accepts, wakes)
    case WakeReturns(i) => WakeReturned(s, i)
    case DestroyGate => ChecksWakes(s.(shell := BeginDestroy(s.shell)))
    case DestroyWakes => ChecksWakes(s)
    case RunCloses => s.(owner := DestroyingRuntime, open := false)
    case RuntimeDestroyed => DropsRef(Leave(s, FinishDestroy(s.shell)).(owner := Destroyed))
  }
}
