/**
  `run_boot` and `watch_for_crash` with their own control flow.  A worker runs them on the shared supervisor;
  before each of its atomic actions other threads do whatever they like.  Every branch is taken on values the
  worker read itself, and the program counter of the step system is shown to follow.
 */
module SupervisorProgram {
  import opened Wrappers
  import opened Lifecycle
  import opened Supervisor
  import opened SupervisorInvariant
  import opened SupervisorObject

  /** What comes before one action of the worker, and what the outside world answers to the action. */
  datatype Turn = Turn(others: seq<Event>, env: Env)

  function OfOthers(events: seq<Event>, e: nat): (r: seq<Event>)
    ensures forall i :: 0 <= i < |r| ==> !(r[i].StepBoot? && r[i].epoch == e)
  {
    if events == [] then []
    else (if events[0].StepBoot? && events[0].epoch == e then [] else [events[0]]) + OfOthers(events[1..], e)
  }

  lemma {:induction false} OthersLeaveAlone(s: State, e: nat, work: seq<Event>)
    requires Inv(s) && e in s.boots && forall i :: 0 <= i < |work| ==> !(work[i].StepBoot? && work[i].epoch == e)
    ensures var t := Run(s, work); Inv(t) && e in t.boots && t.boots[e] == s.boots[e]
    decreases |work|
  {
    if work != [] {
      var rest := work[..|work| - 1];
      OthersLeaveAlone(s, e, rest);
      StepKeepsInv(Run(s, rest), work[|work| - 1]);
      assert BootOk(Run(s, rest), e, Run(s, rest).boots[e]);
      StepLeavesAlone(Run(s, rest), e, work[|work| - 1]);
    }
  }

  lemma BootStepFrame(s: State, f: nat, env: Env)
    requires Enabled(s, StepBoot(f, env))
    ensures var t := StepOfBoot(s, f, env); f in t.boots && t.boots == s.boots[f := t.boots[f]]
    ensures StepOfBoot(s, f, env).boots[f].project == s.boots[f].project
  {
  }

  lemma StepLeavesAlone(s: State, e: nat, ev: Event)
    requires e in s.boots && e <= s.counter && !(ev.StepBoot? && ev.epoch == e)
    ensures var t := Step(s, ev); e in t.boots && t.boots[e] == s.boots[e]
  {
    if ev.StepBoot? && Enabled(s, ev) {
      BootStepFrame(s, ev.epoch, ev.env);
    }
  }

  /** How an action of the worker ends: it is carried out, or the worker is suspended for good before it. */
  datatype Outcome<T> = Suspended | Did(value: T)

  class BootWorker {
    const supervisor: BootSupervisor
    const epoch: nat
    const project: string
    var turns: seq<Turn>          // when they run out the worker is suspended for good
    ghost var played: seq<Event>

    /** What happened so far is a schedule of the step system. */
    ghost predicate Traced()
      reads this, supervisor, supervisor.machine
    {
      supervisor.View() == Run(INIT, played)
    }

    /** And it left the worker's boot as `b`. */
    ghost predicate At(b: Boot)
      reads this, supervisor, supervisor.machine
    {
      Traced() && epoch in supervisor.threads && supervisor.threads[epoch] == b && b.project == project
    }

    /** The worker has returned, with no child in hand. */
    ghost predicate Over()
      reads this, supervisor, supervisor.machine
    {
      epoch in supervisor.threads && At(supervisor.threads[epoch])
      && supervisor.threads[epoch].pc.Returned? && supervisor.threads[epoch].held.None?
    }

    /** The worker uses up its turns, and is not suspended before there are none left. */
    ghost predicate Went(suspended: bool, before: nat)
      reads this, supervisor, supervisor.machine
    {
      Traced() && |turns| <= before && (suspended ==> turns == [])
    }

    constructor (supervisor: BootSupervisor, epoch: nat, turns: seq<Turn>, ghost played: seq<Event>)
      requires supervisor.View() == Run(INIT, played) && epoch in supervisor.threads
      ensures this.supervisor == supervisor && this.epoch == epoch && At(supervisor.threads[epoch])
    {
      this.supervisor, this.epoch, this.project := supervisor, epoch, supervisor.threads[epoch].project;
      this.turns, this.played := turns, played;
    }

    /** Other threads move; the worker's own place and child stay. */
    method Await(ghost b: Boot) returns (answer: Outcome<Env>)
      requires At(b)
      modifies this, supervisor, supervisor.machine
      ensures At(b) && Went(answer.Suspended?, |old(turns)|) && (answer.Did? ==> |turns| < |old(turns)|)
    {
      if turns == [] {
        return Suspended;
      }
      var turn := turns[0];
      turns := turns[1..];
      var others := OfOthers(turn.others, epoch);
      RunKeepsInv(INIT, played);
      OthersLeaveAlone(supervisor.View(), epoch, others);
      RunConcat(INIT, played, others);
      supervisor.Execute(others);
      played := played + others;
      return Did(turn.env);
    }

    /** The worker's next step. */
    method Act(ghost b: Boot, env: Env)
      requires At(b) && Enabled(supervisor.View(), StepBoot(epoch, env))
      modifies this`played, supervisor, supervisor.machine
      ensures epoch in old(supervisor.View()).boots
      ensures supervisor.View() == StepOfBoot(old(supervisor.View()), epoch, env)
      ensures epoch in supervisor.threads
      ensures At(supervisor.threads[epoch])
    {
      BootStepFrame(supervisor.View(), epoch, env);
      supervisor.AdvanceBoot(epoch, env);
      assert (played + [StepBoot(epoch, env)])[..|played|] == played;
      played := played + [StepBoot(epoch, env)];
    }

    method AwaitFree(ghost b: Boot) returns (answer: Outcome<Env>)
      requires At(b)
      modifies this, supervisor, supervisor.machine
      ensures At(b) && Went(answer.Suspended?, |old(turns)|)
      ensures answer.Did? ==> |turns| < |old(turns)| && supervisor.lockHolder.None?
    {
      answer := Await(b);
      while answer.Did? && supervisor.lockHolder.Some?
        invariant At(b) && Went(answer.Suspended?, |old(turns)|) && (answer.Did? ==> |turns| < |old(turns)|)
        decreases |turns|, answer.Did?
      {
        answer := Await(b);
      }
    }

    /** `lock(&self.server)`: waits until the mutex is free and takes it. */
    method Lock(ghost b: Boot) returns (r: Outcome<()>)
      requires At(b) && WaitsForLock(b.pc)
      modifies this, supervisor, supervisor.machine
      ensures Went(r.Suspended?, |old(turns)|)
      ensures r.Did? ==> At(b.(pc := if b.pc.WatchLock? then WatchProbe else Critical(b.pc.site, Flag)))
    {
      var answer := AwaitFree(b);
      if answer.Suspended? {
        return Suspended;
      }
      Act(b, answer.value);
      return Did(());
    }

    method LoadFlag(ghost b: Boot, site: Site) returns (r: Outcome<bool>)
      requires At(b) && b.pc == Critical(site, Flag)
      modifies this, supervisor, supervisor.machine
      ensures Went(r.Suspended?, |old(turns)|)
      ensures r.Did? ==> At(b.(pc := if r.value then StaleExit(site) else Critical(site, Counter)))
    {
      var answer := Await(b);
      if answer.Suspended? {
        return Suspended;
      }
      var down := supervisor.shuttingDown;
      Act(b, answer.value);
      return Did(down);
    }

    method LoadCounter(ghost b: Boot, site: Site) returns (r: Outcome<bool>)
      requires At(b) && b.pc == Critical(site, Counter)
      modifies this, supervisor, supervisor.machine
      ensures Went(r.Suspended?, |old(turns)|)
      ensures r.Did? ==> At(b.(pc := if r.value then StaleExit(site) else Critical(site, Stage.Act)))
    {
      var answer := Await(b);
      if answer.Suspended? {
        return Suspended;
      }
      var newer := supervisor.epoch != epoch;
      Act(b, answer.value);
      return Did(newer);
    }

    /** `lock(&self.server)` and `is_stale`; a stale worker has let go of the mutex. */
    method LockAndAsk(ghost b: Boot, site: Site) returns (stale: Outcome<bool>)
      requires At(b) && b.pc == Critical(site, Stage.Lock)
      modifies this, supervisor, supervisor.machine
      ensures Went(stale.Suspended?, |old(turns)|)
      ensures stale.Did? ==> At(b.(pc := if stale.value then StaleExit(site) else Critical(site, Stage.Act)))
    {
      var locked := Lock(b);
      if locked.Suspended? {
        return Suspended;
      }
      stale := LoadFlag(b.(pc := Critical(site, Flag)), site);
      if stale.Did? && !stale.value {
        stale := LoadCounter(b.(pc := Critical(site, Counter)), site);
      }
    }

    /** `guard.take()`, and the guard dropped. */
    method Take(ghost b: Boot, site: Site) returns (r: Outcome<Option<nat>>)
      requires At(b) && b.pc == Critical(site, Stage.Act) && !site.Store?
      modifies this, supervisor, supervisor.machine
      ensures Went(r.Suspended?, |old(turns)|)
      ensures r.Did? ==> At(b.(pc := Shut(site), held := r.value))
    {
      var answer := Await(b);
      if answer.Suspended? {
        return Suspended;
      }
      var taken := supervisor.server;
      Act(b, answer.value);
      return Did(taken);
    }

    /** The end of `store_server`: what was in the slot comes out, the worker's server goes in. */
    method Put(ghost b: Boot) returns (displaced: Outcome<Option<nat>>)
      requires At(b) && b.pc == Critical(Store, Stage.Act)
      modifies this, supervisor, supervisor.machine
      ensures Went(displaced.Suspended?, |old(turns)|)
      ensures displaced.Did? ==>
                At(b.(pc := if displaced.value.Some? then Shut(Store) else WaitPort, held := displaced.value))
    {
      var answer := Await(b);
      if answer.Suspended? {
        return Suspended;
      }
      var before := supervisor.server;
      Act(b, answer.value);
      return Did(before);
    }

    /** The server's log tail, and `shutdown_server`, if there is a server. */
    method Shutdown(ghost b: Boot, after: Site) returns (tail: Outcome<seq<string>>)
      requires At(b) && b.pc == Shut(after)
      modifies this, supervisor, supervisor.machine
      ensures Went(tail.Suspended?, |old(turns)|)
      ensures tail.Did? ==> At(AfterShutdown(b, after, tail.value))
    {
      var answer := Await(b);
      if answer.Suspended? {
        return Suspended;
      }
      Act(b, answer.value);
      return Did(answer.value.tail);
    }

    ghost function AfterShutdown(b: Boot, after: Site, tail: seq<string>): Boot {
      match after
      case Entry => b.(pc := MachineStart, held := None)
      case Store => b.(pc := Returned, held := None)
      case Reap =>
        b.(pc := Pc.MachineFailed, held := None,
           report := Report(b.report.message, if b.held.Some? then tail else b.report.tail))
    }

    method Start(ghost b: Boot) returns (accepted: Outcome<bool>)
      requires At(b) && b.pc.MachineStart?
      modifies this, supervisor, supervisor.machine
      ensures Went(accepted.Suspended?, |old(turns)|)
      ensures accepted.Did? ==> At(b.(pc := if accepted.value then Spawn else Returned))
    {
      var answer := Await(b);
      if answer.Suspended? {
        return Suspended;
      }
      var accepts := supervisor.machine.epoch <= epoch;
      Act(b, answer.value);
      return Did(accepts);
    }

    method MarkRunning(ghost b: Boot, port: nat) returns (accepted: Outcome<bool>)
      requires At(b) && b.pc == Pc.MachineRunning(port)
      modifies this, supervisor, supervisor.machine
      ensures Went(accepted.Suspended?, |old(turns)|)
      ensures accepted.Did? ==> At(b.(pc := if accepted.value then WatchFlag else Returned))
    {
      var answer := Await(b);
      if answer.Suspended? {
        return Suspended;
      }
      var accepts := supervisor.machine.phase == Starting(project) && supervisor.machine.epoch == epoch;
      Act(b, answer.value);
      return Did(accepts);
    }

    /** `fail`: the machine is told the message and the tail, and the worker is done. */
    method Fail(ghost b: Boot, message: string, tail: seq<string>) returns (r: Outcome<()>)
      requires At(b) && b.pc.MachineFailed? && b.report == Report(message, tail)
      modifies this, supervisor, supervisor.machine
      ensures Went(r.Suspended?, |old(turns)|)
      ensures r.Did? ==> At(b.(pc := Returned))
    {
      var answer := Await(b);
      if answer.Suspended? {
        return Suspended;
      }
      Act(b, answer.value);
      return Did(());
    }

    /** The message of a failed spawn, if it fails. */
    method SpawnServer(ghost b: Boot) returns (error: Outcome<Option<string>>)
      requires At(b) && b.pc.Spawn?
      modifies this, supervisor, supervisor.machine
      ensures Went(error.Suspended?, |old(turns)|)
      ensures error.Did? ==>
                At(if error.value.None? then b.(pc := Critical(Store, Stage.Lock), held := Some(epoch))
                   else b.(pc := Pc.MachineFailed, report := Report(error.value.value, [])))
    {
      var answer := Await(b);
      if answer.Suspended? {
        return Suspended;
      }
      Act(b, answer.value);
      return Did(if answer.value.ok then None else Some(answer.value.message));
    }

    /** `wait_for_port_file`. */
    method AwaitPort(ghost b: Boot) returns (port: Outcome<Result<nat, string>>)
      requires At(b) && b.pc.WaitPort?
      modifies this, supervisor, supervisor.machine
      ensures Went(port.Suspended?, |old(turns)|)
      ensures port.Did? ==>
                At(if port.value.Ok? then b.(pc := Pc.MachineRunning(port.value.value))
                   else b.(pc := Critical(Reap, Stage.Lock), report := Report(port.value.error, [])))
    {
      var answer := Await(b);
      if answer.Suspended? {
        return Suspended;
      }
      Act(b, answer.value);
      return Did(if answer.value.ok then Ok(answer.value.port) else Err(answer.value.message));
    }

    /** The first load of `is_stale` outside the mutex. */
    method WatchLoadFlag(ghost b: Boot) returns (down: Outcome<bool>)
      requires At(b) && b.pc.WatchFlag?
      modifies this, supervisor, supervisor.machine
      ensures Went(down.Suspended?, |old(turns)|) && (down.Did? ==> |turns| < |old(turns)|)
      ensures down.Did? ==> At(b.(pc := if down.value then Returned else WatchCounter))
    {
      var answer := Await(b);
      if answer.Suspended? {
        return Suspended;
      }
      var flag := supervisor.shuttingDown;
      Act(b, answer.value);
      return Did(flag);
    }

    method WatchLoadCounter(ghost b: Boot) returns (newer: Outcome<bool>)
      requires At(b) && b.pc.WatchCounter?
      modifies this, supervisor, supervisor.machine
      ensures Went(newer.Suspended?, |old(turns)|)
      ensures newer.Did? ==> At(b.(pc := if newer.value then Returned else WatchLock))
    {
      var answer := Await(b);
      if answer.Suspended? {
        return Suspended;
      }
      var other := supervisor.epoch != epoch;
      Act(b, answer.value);
      return Did(other);
    }

    /** The probe under the mutex: nothing when the slot is empty, else whether the server has exited. */
    method Probe(ghost b: Boot) returns (exited: Outcome<Option<bool>>)
      requires At(b) && b.pc.WatchProbe?
      modifies this, supervisor, supervisor.machine
      ensures Went(exited.Suspended?, |old(turns)|)
      ensures exited.Did? ==>
                At(if exited.value == Some(true) then b.(pc := Critical(Reap, Stage.Lock), report := Report(CRASHED, []))
                   else b.(pc := if exited.value.None? then Returned else WatchFlag))
    {
      var answer := Await(b);
      if answer.Suspended? {
        return Suspended;
      }
      var server := supervisor.server;
      Act(b, answer.value);
      return Did(if server.None? then None else Some(!answer.value.ok));
    }

    /** `reap_server_tail`, then `fail`. */
    method ReapAndFail(ghost b: Boot, message: string) returns (r: Outcome<()>)
      requires At(b) && b.pc == Critical(Reap, Stage.Lock) && b.held.None? && b.report == Report(message, [])
      modifies this, supervisor, supervisor.machine
      ensures Went(r.Suspended?, |old(turns)|)
      ensures r.Did? ==> Over()
    {
      var tail: seq<string> := [];
      ghost var now := b.(pc := Pc.MachineFailed);
      var stale := LockAndAsk(b, Reap);
      if stale.Suspended? {
        return Suspended;
      }
      if !stale.value {
        var taken := Take(b.(pc := Critical(Reap, Stage.Act)), Reap);
        if taken.Suspended? {
          return Suspended;
        }
        var read := Shutdown(b.(pc := Shut(Reap), held := taken.value), Reap);
        if read.Suspended? {
          return Suspended;
        }
        if taken.value.Some? {
          tail := read.value;
        }
        now := AfterShutdown(b.(pc := Shut(Reap), held := taken.value), Reap, read.value);
      }
      r := Fail(now, message, tail);
    }

    /** Polls the child until it exits, the app shuts down, or a newer boot takes over. */
    method WatchForCrash(ghost b: Boot) returns (r: Outcome<()>)
      requires At(b) && b.pc.WatchFlag? && b.held.None?
      modifies this, supervisor, supervisor.machine
      ensures Went(r.Suspended?, |old(turns)|)
      ensures r.Did? ==> Over()
    {
      while true
        invariant At(b) && |turns| <= |old(turns)|
        decreases |turns|
      {
        var down := WatchLoadFlag(b);
        if down.Suspended? {
          return Suspended;
        }
        if down.value {
          return Did(());
        }
        var newer := WatchLoadCounter(b.(pc := WatchCounter));
        if newer.Suspended? {
          return Suspended;
        }
        if newer.value {
          return Did(());
        }
        var locked := Lock(b.(pc := WatchLock));
        if locked.Suspended? {
          return Suspended;
        }
        var exited := Probe(b.(pc := WatchProbe));
        if exited.Suspended? {
          return Suspended;
        }
        if exited.value.None? {
          return Did(());
        }
        if exited.value.value {
          r := ReapAndFail(b.(pc := Critical(Reap, Stage.Lock), report := Report(CRASHED, [])), CRASHED);
          return;
        }
        assert b.(pc := WatchFlag) == b;
      }
    }

    /** The server is spawned: store it, wait for its port, watch it. */
    method Serve(ghost b: Boot) returns (r: Outcome<()>)
      requires At(b) && b.pc == Critical(Store, Stage.Lock) && b.held == Some(epoch)
      modifies this, supervisor, supervisor.machine
      ensures Went(r.Suspended?, |old(turns)|)
      ensures r.Did? ==> Over()
    {
      var stale := LockAndAsk(b, Store);
      if stale.Suspended? {
        return Suspended;
      }
      if stale.value {
        var done := Shutdown(b.(pc := Shut(Store)), Store);
        return if done.Did? then Did(()) else Suspended;
      }
      var displaced := Put(b.(pc := Critical(Store, Stage.Act)));
      if displaced.Suspended? {
        return Suspended;
      }
      if displaced.value.Some? {
        var done := Shutdown(b.(pc := Shut(Store), held := displaced.value), Store);
        return if done.Did? then Did(()) else Suspended;
      }
      var port := AwaitPort(b.(pc := WaitPort, held := None));
      if port.Suspended? {
        return Suspended;
      }
      if port.value.Err? {
        var message := port.value.error;
        r := ReapAndFail(b.(pc := Critical(Reap, Stage.Lock), held := None, report := Report(message, [])), message);
        return;
      }
      var accepted := MarkRunning(b.(pc := Pc.MachineRunning(port.value.value), held := None), port.value.value);
      if accepted.Suspended? {
        return Suspended;
      }
      if !accepted.value {
        return Did(());
      }
      r := WatchForCrash(b.(pc := WatchFlag, held := None));
    }

    /**
      One boot attempt from its first line to its return: whatever the other threads do in between, all of it is
      one schedule of the step system, and the boot ends `Returned` with no child in hand.
     */
    method RunBoot(ghost b: Boot) returns (r: Outcome<()>)
      requires At(b) && b.pc == Critical(Entry, Stage.Lock) && b.held.None?
      modifies this, supervisor, supervisor.machine
      ensures Went(r.Suspended?, |old(turns)|)
      ensures r.Did? ==> Over()
    {
      var stale := LockAndAsk(b, Entry);
      if stale.Suspended? {
        return Suspended;
      }
      if stale.value {
        return Did(());
      }
      var previous := Take(b.(pc := Critical(Entry, Stage.Act)), Entry);
      if previous.Suspended? {
        return Suspended;
      }
      var done := Shutdown(b.(pc := Shut(Entry), held := previous.value), Entry);
      if done.Suspended? {
        return Suspended;
      }
      var accepted := Start(b.(pc := MachineStart));
      if accepted.Suspended? {
        return Suspended;
      }
      if !accepted.value {
        return Did(());
      }
      var spawned := SpawnServer(b.(pc := Spawn));
      if spawned.Suspended? {
        return Suspended;
      }
      if spawned.value.Some? {
        r := Fail(b.(pc := Pc.MachineFailed, report := Report(spawned.value.value, [])), spawned.value.value, []);
        return;
      }
      r := Serve(b.(pc := Critical(Store, Stage.Lock), held := Some(epoch)));
    }
  }
}
