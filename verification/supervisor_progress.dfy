/**
  What becomes of a boot, told from the answers it got.  `FailureOf` and `PortOf` read the schedule and know
  nothing of what a step does; the machine shows exactly what they say.
 */
module SupervisorProgress {
  import opened Wrappers
  import opened Lifecycle
  import opened Supervisor
  import opened SupervisorInvariant
  import SupervisorSafety

  // ---- what a boot was told ----------------------------------------------------------------------------------

  /** A failed spawn, a failed wait for the port, a child found dead; and the log tail read from it afterwards. */
  function Heard(s: State, e: nat, env: Env, before: Option<Report>): Option<Report>
    requires e in s.boots
  {
    match s.boots[e].pc
    case Spawn => if env.ok then before else Some(Report(env.message, []))
    case WaitPort => if env.ok then before else Some(Report(env.message, []))
    case WatchProbe =>
      if s.slot.None? || env.ok then before else Some(Report("the superkick server exited unexpectedly", []))
    case Shut(Reap) => if before.Some? then Some(Report(before.value.message, env.tail)) else None
    case _ => before
  }

  /** The failure that boot `e` met with so far: the message, and the log tail of the child it reaped. */
  function FailureOf(schedule: seq<Event>, e: nat): Option<Report> {
    if schedule == [] then None
    else
      var init, ev := schedule[..|schedule| - 1], schedule[|schedule| - 1];
      if ev.StepBoot? && ev.epoch == e && Enabled(Run(INIT, init), ev) then
        Heard(Run(INIT, init), e, ev.env, FailureOf(init, e))
      else FailureOf(init, e)
  }

  function Answered(s: State, e: nat, env: Env, before: Option<nat>): Option<nat>
    requires e in s.boots
  {
    if s.boots[e].pc.WaitPort? && env.ok then Some(env.port) else before
  }

  /** The port boot `e` was answered. */
  function PortOf(schedule: seq<Event>, e: nat): Option<nat> {
    if schedule == [] then None
    else
      var init, ev := schedule[..|schedule| - 1], schedule[|schedule| - 1];
      if ev.StepBoot? && ev.epoch == e && Enabled(Run(INIT, init), ev) then
        Answered(Run(INIT, init), e, ev.env, PortOf(init, e))
      else PortOf(init, e)
  }

  // ---- what it shows of it -----------------------------------------------------------------------------------

  /** Reaping the child, or on the way to `fail`. */
  predicate Failing(pc: Pc) {
    pc.MachineFailed? || pc == Shut(Reap) || (pc.Critical? && pc.site == Reap)
  }

  /** The thread's place and its local variables agree with the answers. */
  predicate PlaceOk(b: Boot, failure: Option<Report>, port: Option<nat>) {
    && (Failing(b.pc) ==> failure == Some(b.report))
    && (failure.Some? ==> Failing(b.pc) || b.pc.Returned?)
    && (b.pc.MachineRunning? ==> port == Some(b.pc.port))
    && (InWatch(b.pc) ==> port.Some?)
  }

  /** And so does the machine, as long as it shows this boot. */
  predicate ShownOk(m: Machine, e: nat, b: Boot, failure: Option<Report>, port: Option<nat>) {
    m.epoch == e ==>
      && (m.phase.Running? ==> port == Some(m.phase.port))
      && (m.phase.Failed? ==> failure == Some(Report(m.phase.message, m.phase.logTail)))
      && (b.pc.Returned? && failure.Some? ==> m.phase == Failed(b.project, failure.value.message, failure.value.tail))
  }

  ghost predicate ToldOk(s: State, e: nat, failure: Option<Report>, port: Option<nat>) {
    e in s.boots && PlaceOk(s.boots[e], failure, port) && ShownOk(s.machine, e, s.boots[e], failure, port)
  }

  ghost predicate Moves(s: State, e: nat, env: Env, failure: Option<Report>, port: Option<nat>) {
    Shared(s) && Enabled(s, StepBoot(e, env)) && BootOk(s, e, s.boots[e]) && ToldOk(s, e, failure, port)
  }

  lemma AskingTold(s: State, e: nat, env: Env, failure: Option<Report>, port: Option<nat>)
    requires Moves(s, e, env, failure, port) && s.boots[e].pc.Critical? && !s.boots[e].pc.stage.Act?
    ensures ToldOk(StalenessStep(s, e), e, Heard(s, e, env, failure), Answered(s, e, env, port))
  {
  }

  lemma SlotTold(s: State, e: nat, env: Env, failure: Option<Report>, port: Option<nat>)
    requires Moves(s, e, env, failure, port) && s.boots[e].pc.Critical? && s.boots[e].pc.stage.Act?
    ensures ToldOk(SlotStep(s, e), e, Heard(s, e, env, failure), Answered(s, e, env, port))
  {
  }

  lemma ShutTold(s: State, e: nat, env: Env, failure: Option<Report>, port: Option<nat>)
    requires Moves(s, e, env, failure, port) && s.boots[e].pc.Shut?
    ensures ToldOk(ShutStep(s, e, env), e, Heard(s, e, env, failure), Answered(s, e, env, port))
  {
  }

  lemma WatchTold(s: State, e: nat, env: Env, failure: Option<Report>, port: Option<nat>)
    requires Moves(s, e, env, failure, port) && InWatch(s.boots[e].pc)
    ensures ToldOk(WatchStep(s, e, env), e, Heard(s, e, env, failure), Answered(s, e, env, port))
  {
  }

  lemma ServerTold(s: State, e: nat, env: Env, failure: Option<Report>, port: Option<nat>)
    requires Moves(s, e, env, failure, port) && InServer(s.boots[e].pc)
    ensures ToldOk(ServerStep(s, e, env), e, Heard(s, e, env, failure), Answered(s, e, env, port))
  {
  }

  lemma MachineTold(s: State, e: nat, env: Env, failure: Option<Report>, port: Option<nat>)
    requires Moves(s, e, env, failure, port)
    requires s.boots[e].pc.MachineStart? || s.boots[e].pc.MachineRunning? || s.boots[e].pc.MachineFailed?
    ensures ToldOk(MachineStep(s, e, env), e, Heard(s, e, env, failure), Answered(s, e, env, port))
  {
  }

  lemma OwnStepTold(s: State, e: nat, env: Env, failure: Option<Report>, port: Option<nat>)
    requires Moves(s, e, env, failure, port)
    ensures ToldOk(StepOfBoot(s, e, env), e, Heard(s, e, env, failure), Answered(s, e, env, port))
  {
    var pc := s.boots[e].pc;
    if pc.Critical? {
      if pc.stage.Act? {
        SlotTold(s, e, env, failure, port);
      } else {
        AskingTold(s, e, env, failure, port);
      }
    } else if pc.Shut? {
      ShutTold(s, e, env, failure, port);
    } else if InWatch(pc) {
      WatchTold(s, e, env, failure, port);
    } else if InServer(pc) {
      ServerTold(s, e, env, failure, port);
    } else {
      MachineTold(s, e, env, failure, port);
    }
  }

  /** Another thread's step leaves the boot where it is, and the machine too unless it takes it over. */
  lemma OtherStepTold(s: State, ev: Event, e: nat, failure: Option<Report>, port: Option<nat>)
    requires Inv(s) && Enabled(s, ev) && ToldOk(s, e, failure, port) && !(ev.StepBoot? && ev.epoch == e)
    ensures ToldOk(Apply(s, ev), e, failure, port)
  {
    assert BootOk(s, e, s.boots[e]);
    if ev.StepBoot? {
      assert BootOk(s, ev.epoch, s.boots[ev.epoch]);
      BootStepOk(s, ev.epoch, ev.env);
    }
  }

  /** A boot that was just requested has been told nothing. */
  lemma {:induction false} NothingToldYet(schedule: seq<Event>, e: nat)
    requires e !in Run(INIT, schedule).boots
    ensures FailureOf(schedule, e) == None && PortOf(schedule, e) == None
  {
    if schedule != [] {
      var init := schedule[..|schedule| - 1];
      BootsRemain(Run(INIT, init), schedule[|schedule| - 1]);
      NothingToldYet(init, e);
    }
  }

  lemma BootsRemain(s: State, ev: Event)
    ensures s.boots.Keys <= Step(s, ev).boots.Keys
  {
  }

  lemma CallTold(s: State, project: string, e: nat)
    requires Inv(s) && e !in s.boots && e in Apply(s, CallBoot(project)).boots
    ensures ToldOk(Apply(s, CallBoot(project)), e, None, None)
  {
  }

  /** In every reachable state every boot, and the machine, show what the boot was told. */
  lemma {:induction false} AlwaysTold(schedule: seq<Event>, e: nat)
    requires e in Run(INIT, schedule).boots
    ensures ToldOk(Run(INIT, schedule), e, FailureOf(schedule, e), PortOf(schedule, e))
    decreases |schedule|
  {
    var init, ev := schedule[..|schedule| - 1], schedule[|schedule| - 1];
    var s := Run(INIT, init);
    SupervisorSafety.Reachable(init);
    if e !in s.boots {
      NothingToldYet(init, e);
      BornOfCall(s, ev, e);
      CallTold(s, ev.project, e);
    } else {
      AlwaysTold(init, e);
      if !Enabled(s, ev) {
      } else if ev.StepBoot? && ev.epoch == e {
        assert BootOk(s, e, s.boots[e]);
        OwnStepTold(s, e, ev.env, FailureOf(init, e), PortOf(init, e));
      } else {
        OtherStepTold(s, ev, e, FailureOf(init, e), PortOf(init, e));
      }
    }
  }

  lemma BornOfCall(s: State, ev: Event, e: nat)
    requires e !in s.boots && e in Step(s, ev).boots
    ensures ev.CallBoot?
  {
  }

  // ---- the laws ------------------------------------------------------------------------------------------------

  /** Has stored its child and got no bad answer since. */
  predicate Serving(pc: Pc) {
    pc.WaitPort? || pc.MachineRunning? || pc.WatchFlag? || pc.WatchCounter? || pc.WatchLock? || pc.WatchProbe?
  }

  predicate Watching(pc: Pc) {
    pc.WatchFlag? || pc.WatchCounter? || pc.WatchLock? || pc.WatchProbe?
  }

  /**
    The newest boot, met with no failure and no shutdown, does not fail, reap or return; once it has stored its
    child the child is alive in the slot; and once past `mark_running` the machine shows it running, on the port
    it was answered.
   */
  lemma BootSucceeds(schedule: seq<Event>, s: State, e: nat)
    requires s == Run(INIT, schedule) && e in s.boots
    requires s.counter == e && !s.shuttingDown && FailureOf(schedule, e) == None
    ensures !Failing(s.boots[e].pc) && !s.boots[e].pc.Returned? && s.boots[e].pc != Shut(Store)
    ensures Serving(s.boots[e].pc) ==> s.slot == Some(e) && e in s.live
    ensures Watching(s.boots[e].pc) ==>
              && s.machine.epoch == e && s.machine.phase.Running? && s.machine.phase.projectId == s.boots[e].project
              && PortOf(schedule, e) == Some(s.machine.phase.port)
  {
    SupervisorSafety.Reachable(schedule);
    AlwaysTold(schedule, e);
    assert BootOk(s, e, s.boots[e]);
  }

  /** In particular when every answer it gets is a good one. */
  lemma {:induction false} GoodAnswers(schedule: seq<Event>, e: nat)
    requires forall i :: 0 <= i < |schedule| && schedule[i].StepBoot? && schedule[i].epoch == e ==> schedule[i].env.ok
    ensures FailureOf(schedule, e) == None
  {
    if schedule != [] {
      GoodAnswers(schedule[..|schedule| - 1], e);
    }
  }

  /** A boot that met with a failure is on its way to `fail` or has returned, whoever is newest, shutdown or not. */
  lemma FailureEndsBoot(schedule: seq<Event>, s: State, e: nat)
    requires s == Run(INIT, schedule) && e in s.boots && FailureOf(schedule, e).Some?
    ensures Failing(s.boots[e].pc) || s.boots[e].pc.Returned?
    ensures Failing(s.boots[e].pc) ==> FailureOf(schedule, e) == Some(s.boots[e].report)
  {
    AlwaysTold(schedule, e);
  }

  /** While the machine still shows a returned boot, it shows it failed exactly with the failure it met, if any. */
  lemma FailureIsShown(schedule: seq<Event>, s: State, e: nat)
    requires s == Run(INIT, schedule) && e in s.boots && s.machine.epoch == e
    ensures s.machine.phase.Failed? ==>
              s.boots[e].pc.Returned?
              && FailureOf(schedule, e) == Some(Report(s.machine.phase.message, s.machine.phase.logTail))
    ensures s.boots[e].pc.Returned? ==>
              (s.machine.phase.Failed? <==> FailureOf(schedule, e).Some?)
    ensures s.machine.phase.Running? ==> PortOf(schedule, e) == Some(s.machine.phase.port)
  {
    SupervisorSafety.Reachable(schedule);
    AlwaysTold(schedule, e);
    assert BootOk(s, e, s.boots[e]);
  }

  // ---- and it gets there -----------------------------------------------------------------------------------------

  const START: seq<Pc> :=
    [Critical(Entry, Lock), Critical(Entry, Flag), Critical(Entry, Counter), Critical(Entry, Act), Shut(Entry),
     MachineStart, Spawn, Critical(Store, Lock), Critical(Store, Flag), Critical(Store, Counter), Critical(Store, Act),
     WaitPort]

  /** `n` steps on the way of a boot that gets good answers. */
  predicate OnPath(s: State, e: nat, n: nat, port: nat) {
    && e in s.boots && s.counter == e && !s.shuttingDown && n <= 12
    && s.boots[e].pc == (if n < 12 then START[n] else Pc.MachineRunning(port))
    && (s.holder.None? || s.holder == Some(BootThread(e)))
  }

  lemma PathSection(s: State, e: nat, n: nat, env: Env)
    requires OnPath(s, e, n, env.port) && n < 12 && START[n].Critical? && Shared(s) && BootOk(s, e, s.boots[e])
    ensures Enabled(s, StepBoot(e, env))
    ensures var t := StepOfBoot(s, e, env); OnPath(t, e, n + 1, env.port) && t.boots[e].project == s.boots[e].project
  {
  }

  lemma PathOutside(s: State, e: nat, n: nat, env: Env)
    requires OnPath(s, e, n, env.port) && n < 12 && !START[n].Critical? && Shared(s) && BootOk(s, e, s.boots[e]) && env.ok
    ensures Enabled(s, StepBoot(e, env))
    ensures var t := StepOfBoot(s, e, env); OnPath(t, e, n + 1, env.port) && t.boots[e].project == s.boots[e].project
  {
  }

  lemma PathStep(s: State, e: nat, n: nat, env: Env)
    requires Inv(s) && OnPath(s, e, n, env.port) && n < 12 && env.ok
    ensures var t := Step(s, StepBoot(e, env));
            Inv(t) && OnPath(t, e, n + 1, env.port) && t.boots[e].project == s.boots[e].project
  {
    StepKeepsInv(s, StepBoot(e, env));
    assert BootOk(s, e, s.boots[e]);
    if START[n].Critical? {
      PathSection(s, e, n, env);
    } else {
      PathOutside(s, e, n, env);
    }
  }

  lemma LastPathStep(s: State, e: nat, env: Env)
    requires Inv(s) && OnPath(s, e, 12, env.port)
    ensures var t := Step(s, StepBoot(e, env));
            && t.boots[e].pc == WatchFlag && t.machine == Machine(Running(s.boots[e].project, env.port), e)
            && t.slot == Some(e) && e in t.live && t.holder == s.holder
  {
    assert BootOk(s, e, s.boots[e]);
  }

  /**
    From its first line, or any line before `mark_running` returns, a boot that is the newest and gets good
    answers has a running server after at most 13 steps of its own, if the mutex is free.
   */
  lemma {:induction false} ReachesRunning(s: State, e: nat, n: nat, env: Env) returns (work: seq<Event>)
    requires Inv(s) && OnPath(s, e, n, env.port) && env.ok
    ensures |work| == 13 - n && forall i :: 0 <= i < |work| ==> work[i] == StepBoot(e, env)
    ensures var t := Run(s, work);
            && e in t.boots && t.boots[e].pc == WatchFlag
            && t.machine == Machine(Running(s.boots[e].project, env.port), e) && t.slot == Some(e) && e in t.live
    decreases 12 - n
  {
    var ev := StepBoot(e, env);
    if n == 12 {
      work := [ev];
      LastPathStep(s, e, env);
      RunAppend(s, [], ev);
      assert [] + [ev] == [ev];
    } else {
      PathStep(s, e, n, env);
      var rest := ReachesRunning(Step(s, ev), e, n + 1, env);
      work := [ev] + rest;
      RunConcat(s, [ev], rest);
      RunAppend(s, [], ev);
      assert [] + [ev] == [ev];
    }
  }

  // ---- threads that have nothing left to do go home --------------------------------------------------------------

  /** Returned with this step, and nothing else changed but the mutex. */
  predicate Home(s: State, t: State, e: nat)
    requires e in s.boots
  {
    && t.boots == s.boots[e := s.boots[e].(pc := Returned)]
    && t.machine == s.machine && t.slot == s.slot && t.live == s.live && t.ended == s.ended
  }

  lemma WatcherGoesHome(s: State, e: nat, env: Env)
    requires e in s.boots
    requires var pc := s.boots[e].pc;
             (pc.WatchFlag? && s.shuttingDown) || (pc.WatchCounter? && s.counter != e) || (pc.WatchProbe? && s.slot.None?)
    ensures Home(s, StepOfBoot(s, e, env), e)
  {
  }

  lemma RefusedGoesHome(s: State, e: nat, env: Env)
    requires e in s.boots && (s.boots[e].pc.MachineStart? || s.boots[e].pc.MachineRunning?) && e < s.machine.epoch
    ensures Home(s, StepOfBoot(s, e, env), e)
  {
  }

  /**
    A watcher that sees the flag, a newer epoch or an empty slot, and a boot that the machine refuses, return with
    their next step and leave the machine, the slot and all children alone.
   */
  lemma GoesHome(s: State, e: nat, env: Env)
    requires Enabled(s, StepBoot(e, env))
    requires var pc := s.boots[e].pc;
             || (pc.WatchFlag? && s.shuttingDown)
             || (pc.WatchCounter? && s.counter != e)
             || (pc.WatchProbe? && s.slot.None?)
             || ((pc.MachineStart? || pc.MachineRunning?) && e < s.machine.epoch)
    ensures Home(s, Step(s, StepBoot(e, env)), e)
  {
    if InWatch(s.boots[e].pc) {
      WatcherGoesHome(s, e, env);
    } else {
      RefusedGoesHome(s, e, env);
    }
  }
}
