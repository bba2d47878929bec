/**
  The supervisor as the desktop shell keeps it: an object whose atomics, mutex-guarded slot and boot
  machine are overwritten in place.  Each method is one atomic action of one thread and is proved
  equal to the step of the same name; `Execute` plays an arbitrary schedule on the object.
 */
module SupervisorObject {
  import opened Wrappers
  import opened Lifecycle
  import opened Supervisor
  import opened SupervisorInvariant

  class BootSupervisor {
    const machine: BootMachine
    var epoch: nat
    var shuttingDown: bool
    var lockHolder: Option<Tid>
    var server: Option<nat>
    var threads: map<nat, Boot>
    var stopCalls: seq<Stop>
    var live: set<nat>
    var ended: set<nat>

    ghost function View(): State
      reads this, machine
    {
      State(epoch, shuttingDown, lockHolder, server, machine.View(), threads, stopCalls, live, ended)
    }

    constructor ()
      ensures View() == INIT && fresh(machine)
    {
      machine := new BootMachine();
      epoch, shuttingDown, lockHolder, server := 0, false, None, None;
      threads, stopCalls, live, ended := map[], [], {}, {};
    }

    method Boot(project: string) returns (e: nat)
      modifies this
      ensures e == old(epoch) + 1 && View() == Apply(old(View()), CallBoot(project))
    {
      epoch := epoch + 1;
      e := epoch;
      threads := threads[e := Supervisor.Boot(project, Critical(Entry, Lock), None, Supervisor.Report("", []))];
    }

    method StopAll() returns (k: nat)
      modifies this
      ensures k == |old(stopCalls)| && View() == Apply(old(View()), CallStop)
    {
      k := |stopCalls|;
      stopCalls := stopCalls + [Stop(RaiseFlag, 0, None)];
    }

    method Jump(e: nat, pc: Pc)
      requires e in threads
      modifies `threads
      ensures View() == Goto(old(View()), e, pc)
    {
      threads := threads[e := threads[e].(pc := pc)];
    }

    method Report(e: nat, message: string)
      requires e in threads
      modifies `threads
      ensures threads == old(threads)[e := old(threads)[e].(report := Supervisor.Report(message, []))]
    {
      threads := threads[e := threads[e].(report := Supervisor.Report(message, []))];
    }

    method Unlock(e: nat, pc: Pc)
      requires e in threads
      modifies `threads, `lockHolder
      ensures View() == Release(old(View()), e, pc)
    {
      lockHolder := None;
      Jump(e, pc);
    }

    method AskStale(e: nat)
      requires e in threads && threads[e].pc.Critical? && !threads[e].pc.stage.Act?
      modifies this
      ensures View() == StalenessStep(old(View()), e)
    {
      var site := threads[e].pc.site;
      match threads[e].pc.stage
      case Lock =>
        lockHolder := Some(BootThread(e));
        Jump(e, Critical(site, Flag));
      case Flag =>
        if shuttingDown {
          Unlock(e, StaleExit(site));
        } else {
          Jump(e, Critical(site, Counter));
        }
      case Counter =>
        if epoch != e {
          Unlock(e, StaleExit(site));
        } else {
          Jump(e, Critical(site, Act));
        }
    }

    method ActOnSlot(e: nat)
      requires e in threads && threads[e].pc.Critical?
      modifies this
      ensures View() == SlotStep(old(View()), e)
    {
      var taken := server;
      if threads[e].pc.site.Store? {
        server := threads[e].held;
        threads := threads[e := threads[e].(held := taken)];
        Unlock(e, if taken.Some? then Shut(Store) else WaitPort);
      } else {
        server := None;
        threads := threads[e := threads[e].(held := taken)];
        Unlock(e, Shut(threads[e].pc.site));
      }
    }

    method ShutHeld(e: nat, env: Env)
      requires e in threads && threads[e].pc.Shut?
      modifies this
      ensures View() == ShutStep(old(View()), e, env)
    {
      if threads[e].pc.after.Reap? && threads[e].held.Some? {
        threads := threads[e := threads[e].(report := threads[e].report.(tail := env.tail))];
      }
      if threads[e].held.Some? {
        live := live - {threads[e].held.value};
        ended := ended + {threads[e].held.value};
      }
      threads := threads[e := threads[e].(held := None)];
      match threads[e].pc.after
      case Entry => Jump(e, MachineStart);
      case Store => Jump(e, Returned);
      case Reap => Jump(e, MachineFailed);
    }

    method CallMachine(e: nat, env: Env)
      requires e in threads && !threads[e].pc.Returned?
      modifies this, machine
      ensures View() == MachineStep(old(View()), e, env)
    {
      var project := threads[e].project;
      match threads[e].pc
      case MachineStart =>
        var accepted := machine.Start(project, e);
        Jump(e, if accepted then Spawn else Returned);
      case MachineRunning(port) =>
        var accepted := machine.MarkRunning(project, e, port);
        Jump(e, if accepted then WatchFlag else Returned);
      case MachineFailed =>
        var accepted := machine.MarkFailed(project, e, threads[e].report.message, threads[e].report.tail);
        Jump(e, Returned);
      case _ =>
    }

    method StartServer(e: nat, env: Env)
      requires e in threads
      modifies this
      ensures View() == ServerStep(old(View()), e, env)
    {
      match threads[e].pc
      case Spawn =>
        if env.ok {
          live := live + {e};
          threads := threads[e := threads[e].(held := Some(e))];
          Jump(e, Critical(Store, Lock));
        } else {
          Report(e, env.message);
          Jump(e, MachineFailed);
        }
      case WaitPort =>
        if env.ok {
          Jump(e, MachineRunning(env.port));
        } else {
          Report(e, env.message);
          Jump(e, Critical(Reap, Lock));
        }
      case _ =>
    }

    method WatchForCrash(e: nat, env: Env)
      requires e in threads
      modifies this
      ensures View() == WatchStep(old(View()), e, env)
    {
      match threads[e].pc
      case WatchFlag => Jump(e, if shuttingDown then Returned else WatchCounter);
      case WatchCounter => Jump(e, if epoch != e then Returned else WatchLock);
      case WatchLock =>
        lockHolder := Some(BootThread(e));
        Jump(e, WatchProbe);
      case WatchProbe =>
        if server.Some? && !env.ok {
          Report(e, CRASHED);
          Unlock(e, Critical(Reap, Lock));
        } else {
          Unlock(e, if server.None? then Returned else WatchFlag);
        }
      case _ =>
    }

    method AdvanceBoot(e: nat, env: Env)
      requires Enabled(View(), StepBoot(e, env))
      modifies this, machine
      ensures View() == StepOfBoot(old(View()), e, env)
    {
      var pc := threads[e].pc;
      if pc.Critical? && pc.stage.Act? {
        ActOnSlot(e);
      } else if pc.Critical? {
        AskStale(e);
      } else if pc.Shut? {
        ShutHeld(e, env);
      } else if InWatch(pc) {
        WatchForCrash(e, env);
      } else if InServer(pc) {
        StartServer(e, env);
      } else {
        CallMachine(e, env);
      }
    }

    method AdvanceStop(k: nat)
      requires Enabled(View(), StepStop(k))
      modifies this
      ensures View() == StepOfStop(old(View()), k)
    {
      var c := stopCalls[k];
      match c.pc
      case RaiseFlag =>
        shuttingDown := true;
        stopCalls := stopCalls[k := c.(pc := BumpCounter)];
      case BumpCounter =>
        epoch := epoch + 1;
        stopCalls := stopCalls[k := c.(pc := StopLock, ticket := epoch)];
      case StopLock =>
        lockHolder := Some(StopCall(k));
        stopCalls := stopCalls[k := c.(pc := StopTake)];
      case StopTake =>
        stopCalls := stopCalls[k := c.(pc := ShutTaken, held := server)];
        server := None;
      case ShutTaken =>
        lockHolder := None;
        if c.held.Some? {
          live := live - {c.held.value};
          ended := ended + {c.held.value};
        }
        stopCalls := stopCalls[k := c.(pc := Stopped, held := None)];
      case Stopped =>
    }

    /** Plays a schedule; an event that is not enabled is passed over. */
    method Execute(schedule: seq<Event>)
      modifies this, machine
      ensures View() == Run(old(View()), schedule)
      ensures old(Inv(View())) ==> Inv(View())
    {
      for i := 0 to |schedule|
        invariant View() == Run(old(View()), schedule[..i])
        invariant old(Inv(View())) ==> Inv(View())
      {
        var ev := schedule[i];
        assert schedule[..i + 1] == schedule[..i] + [ev];
        if old(Inv(View())) {
          StepKeepsInv(View(), ev);
        }
        match ev
        case CallBoot(project) => var e := Boot(project);
        case CallStop => var k := StopAll();
        case StepBoot(e, env) =>
          if e in threads && !threads[e].pc.Returned? && (WaitsForLock(threads[e].pc) ==> lockHolder.None?) {
            AdvanceBoot(e, env);
          }
        case StepStop(k) =>
          if k < |stopCalls| && !stopCalls[k].pc.Stopped? && (stopCalls[k].pc.StopLock? ==> lockHolder.None?) {
            AdvanceStop(k);
          }
      }
      assert schedule[..|schedule|] == schedule;
    }
  }
}
