/**
  The boot supervisor as a step system.  Every atomic access of the program is a step of its
  own: a fetch-and-add or load of the epoch counter, a load or store of the shutdown flag, the
  acquisition of the slot mutex, one action on the slot, one call of the mutex-guarded boot machine,
  one spawn, one shutdown of a child.  A boot thread releases the mutex with its action on the slot,
  `stop_all` with the end of its shutdown: the guard lives as long as the body of its `if let`.

  A boot spawns at most one child, so a child is named by the epoch of the boot that spawned it;
  `SupervisorSafety.SpawnIsFresh` shows that no name is ever used twice.
 */
module Supervisor {
  import opened Wrappers
  import opened Lifecycle

  /** The three critical sections that ask `is_stale` under the slot mutex. */
  datatype Site =
    | Entry   // the first block of run_boot
    | Store   // store_server
    | Reap    // take_server, called by reap_server_tail

  /** Inside such a section: acquire the mutex, load the flag, load the counter, act on the slot. */
  datatype Stage = Lock | Flag | Counter | Act

  /** Program counter of a boot thread. */
  datatype Pc =
    | Critical(site: Site, stage: Stage)
    | Shut(after: Site)             // shut down what the section left in the local variable
    | MachineStart
    | Spawn
    | WaitPort
    | MachineRunning(port: nat)
    | WatchFlag | WatchCounter      // watch_for_crash: is_stale outside the mutex
    | WatchLock | WatchProbe        // the liveness probe under the mutex
    | MachineFailed
    | Returned

  /** The message and the log tail that `fail` is going to be called with. */
  datatype Report = Report(message: string, tail: seq<string>)

  const CRASHED: string := "the superkick server exited unexpectedly"

  /** A boot thread with its local variables. */
  datatype Boot = Boot(project: string, pc: Pc, held: Option<nat>, report: Report)

  datatype StopPc = RaiseFlag | BumpCounter | StopLock | StopTake | ShutTaken | Stopped

  /** One call of `stop_all`; `ticket` is the counter value its fetch-and-add produced. */
  datatype Stop = Stop(pc: StopPc, ticket: nat, held: Option<nat>)

  datatype Tid = BootThread(epoch: nat) | StopCall(index: nat)

  datatype State = State(
    counter: nat,
    shuttingDown: bool,
    holder: Option<Tid>,            // who holds the slot mutex
    slot: Option<nat>,
    machine: Machine,
    boots: map<nat, Boot>,
    stops: seq<Stop>,
    live: set<nat>,                 // spawned and not yet shut down
    ended: set<nat>)                // shut down

  /**
    What the outside world answers at one step: did the spawn succeed, did the port answer, is the
    child still alive, and the texts and port number that come with the answer.
   */
  datatype Env = Env(ok: bool, port: nat, message: string, tail: seq<string>)

  datatype Event =
    | CallBoot(project: string)
    | CallStop
    | StepBoot(epoch: nat, env: Env)
    | StepStop(index: nat)

  const INIT: State := State(0, false, None, None, INITIAL, map[], [], {}, {})

  predicate WaitsForLock(pc: Pc) {
    pc.WatchLock? || (pc.Critical? && pc.stage.Lock?)
  }

  predicate Enabled(s: State, ev: Event) {
    match ev
    case CallBoot(_) => true
    case CallStop => true
    case StepBoot(e, _) =>
      e in s.boots && !s.boots[e].pc.Returned? && (WaitsForLock(s.boots[e].pc) ==> s.holder.None?)
    case StepStop(k) =>
      k < |s.stops| && !s.stops[k].pc.Stopped? && (s.stops[k].pc.StopLock? ==> s.holder.None?)
  }

  function Goto(s: State, e: nat, pc: Pc): State
    requires e in s.boots
  {
    s.(boots := s.boots[e := s.boots[e].(pc := pc)])
  }

  /** On the way to `fail`, with that message and no log tail yet. */
  function FailWith(s: State, e: nat, pc: Pc, message: string): State
    requires e in s.boots
  {
    s.(boots := s.boots[e := s.boots[e].(pc := pc, report := Report(message, []))])
  }

  function Acquire(s: State, e: nat, pc: Pc): State
    requires e in s.boots
  {
    Goto(s, e, pc).(holder := Some(BootThread(e)))
  }

  function Release(s: State, e: nat, pc: Pc): State
    requires e in s.boots
  {
    Goto(s, e, pc).(holder := None)
  }

  /** Where a section goes when `is_stale` answers yes. */
  function StaleExit(site: Site): Pc {
    match site
    case Entry => Returned
    case Store => Shut(Store)
    case Reap => MachineFailed
  }

  /** Acquiring the mutex and the two loads of `is_stale`. */
  function StalenessStep(s: State, e: nat): State
    requires e in s.boots && s.boots[e].pc.Critical? && !s.boots[e].pc.stage.Act?
  {
    var site := s.boots[e].pc.site;
    match s.boots[e].pc.stage
    case Lock => Acquire(s, e, Critical(site, Flag))
    case Flag => if s.shuttingDown then Release(s, e, StaleExit(site)) else Goto(s, e, Critical(site, Counter))
    case Counter => if s.counter != e then Release(s, e, StaleExit(site)) else Goto(s, e, Critical(site, Act))
  }

  /** The action on the slot; what was in it moves to the thread's local variable. */
  function SlotStep(s: State, e: nat): State
    requires e in s.boots && s.boots[e].pc.Critical?
  {
    var b := s.boots[e];
    match b.pc.site
    case Entry => s.(slot := None, holder := None, boots := s.boots[e := b.(pc := Shut(Entry), held := s.slot)])
    case Reap => s.(slot := None, holder := None, boots := s.boots[e := b.(pc := Shut(Reap), held := s.slot)])
    case Store =>
      s.(slot := b.held, holder := None,
         boots := s.boots[e := b.(pc := if s.slot.Some? then Shut(Store) else WaitPort, held := s.slot)])
  }

  /** `shutdown_server` on the child held, if any; `reap_server_tail` reads its log tail before that. */
  function ShutStep(s: State, e: nat, env: Env): State
    requires e in s.boots && s.boots[e].pc.Shut?
  {
    var b := s.boots[e];
    var next := match b.pc.after case Entry => MachineStart case Store => Returned case Reap => MachineFailed;
    var gone := if b.held.Some? then {b.held.value} else {};
    var report := if b.pc.after.Reap? && b.held.Some? then b.report.(tail := env.tail) else b.report;
    s.(boots := s.boots[e := b.(pc := next, held := None, report := report)],
       live := s.live - gone, ended := s.ended + gone)
  }

  /** The three calls of the boot machine. */
  function MachineStep(s: State, e: nat, env: Env): State
    requires e in s.boots
  {
    var b := s.boots[e];
    match b.pc
    case MachineStart =>
      if CanStart(s.machine, e)
      then Goto(s, e, Spawn).(machine := Started(s.machine, b.project, e))
      else Goto(s, e, Returned)
    case MachineRunning(port) =>
      if CanRun(s.machine, b.project, e)
      then Goto(s, e, WatchFlag).(machine := MarkedRunning(s.machine, b.project, e, port))
      else Goto(s, e, Returned)
    case MachineFailed =>
      Goto(s, e, Returned).(machine := MarkedFailed(s.machine, b.project, e, b.report.message, b.report.tail))
    case _ => s
  }

  /** Spawning the child, and the wait for its port file. */
  function ServerStep(s: State, e: nat, env: Env): State
    requires e in s.boots
  {
    var b := s.boots[e];
    match b.pc
    case Spawn =>
      if env.ok
      then s.(boots := s.boots[e := b.(pc := Critical(Store, Lock), held := Some(e))], live := s.live + {e})
      else FailWith(s, e, MachineFailed, env.message)
    case WaitPort => if env.ok then Goto(s, e, MachineRunning(env.port)) else FailWith(s, e, Critical(Reap, Lock), env.message)
    case _ => s
  }

  /** One step of the loop in `watch_for_crash`; a failed probe counts as an exit. */
  function WatchStep(s: State, e: nat, env: Env): State
    requires e in s.boots
  {
    match s.boots[e].pc
    case WatchFlag => Goto(s, e, if s.shuttingDown then Returned else WatchCounter)
    case WatchCounter => Goto(s, e, if s.counter != e then Returned else WatchLock)
    case WatchLock => Acquire(s, e, WatchProbe)
    case WatchProbe =>
      if s.slot.Some? && !env.ok then FailWith(s, e, Critical(Reap, Lock), CRASHED).(holder := None)
      else Release(s, e, if s.slot.None? then Returned else WatchFlag)
    case _ => s
  }

  predicate InWatch(pc: Pc) {
    pc.WatchFlag? || pc.WatchCounter? || pc.WatchLock? || pc.WatchProbe?
  }

  predicate InServer(pc: Pc) {
    pc.Spawn? || pc.WaitPort?
  }

  function StepOfBoot(s: State, e: nat, env: Env): State
    requires e in s.boots
  {
    var pc := s.boots[e].pc;
    if pc.Critical? then (if pc.stage.Act? then SlotStep(s, e) else StalenessStep(s, e))
    else if pc.Shut? then ShutStep(s, e, env)
    else if InWatch(pc) then WatchStep(s, e, env)
    else if InServer(pc) then ServerStep(s, e, env)
    else MachineStep(s, e, env)
  }

  /** `stop_all` keeps the mutex until the child it took from the slot is shut down. */
  function StepOfStop(s: State, k: nat): State
    requires k < |s.stops|
  {
    var c := s.stops[k];
    match c.pc
    case RaiseFlag => s.(shuttingDown := true, stops := s.stops[k := c.(pc := BumpCounter)])
    case BumpCounter =>
      s.(counter := s.counter + 1, stops := s.stops[k := c.(pc := StopLock, ticket := s.counter + 1)])
    case StopLock => s.(holder := Some(StopCall(k)), stops := s.stops[k := c.(pc := StopTake)])
    case StopTake =>
      s.(slot := None, stops := s.stops[k := c.(pc := ShutTaken, held := s.slot)])
    case ShutTaken =>
      var gone := if c.held.Some? then {c.held.value} else {};
      s.(holder := None, stops := s.stops[k := c.(pc := Stopped, held := None)],
         live := s.live - gone, ended := s.ended + gone)
    case Stopped => s
  }

  function Apply(s: State, ev: Event): State
    requires Enabled(s, ev)
  {
    match ev
    case CallBoot(project) =>
      var e := s.counter + 1;
      s.(counter := e, boots := s.boots[e := Boot(project, Critical(Entry, Lock), None, Report("", []))])
    case CallStop => s.(stops := s.stops + [Stop(RaiseFlag, 0, None)])
    case StepBoot(e, env) => StepOfBoot(s, e, env)
    case StepStop(k) => StepOfStop(s, k)
  }

  /** An event that is not enabled leaves the state as it is. */
  function Step(s: State, ev: Event): State {
    if Enabled(s, ev) then Apply(s, ev) else s
  }

  /** The state after a schedule of events: every interleaving is one such schedule. */
  function Run(s: State, schedule: seq<Event>): State
    decreases |schedule|
  {
    if schedule == [] then s else Step(Run(s, schedule[..|schedule| - 1]), schedule[|schedule| - 1])
  }

  lemma RunAppend(s: State, schedule: seq<Event>, ev: Event)
    ensures Run(s, schedule + [ev]) == Step(Run(s, schedule), ev)
  {
    assert (schedule + [ev])[..|schedule|] == schedule;
  }

  lemma RunTake(s: State, schedule: seq<Event>, i: nat)
    requires i < |schedule|
    ensures Run(s, schedule[..i + 1]) == Step(Run(s, schedule[..i]), schedule[i])
  {
    assert schedule[..i + 1] == schedule[..i] + [schedule[i]];
    RunAppend(s, schedule[..i], schedule[i]);
  }

  lemma {:induction false} RunConcat(s: State, a: seq<Event>, b: seq<Event>)
    ensures Run(s, a + b) == Run(Run(s, a), b)
    decreases |b|
  {
    if b == [] {
      assert a + b == a;
    } else {
      RunConcat(s, a, b[..|b| - 1]);
      assert (a + b)[..|a + b| - 1] == a + b[..|b| - 1];
    }
  }
}
