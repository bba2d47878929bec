/** The desktop boot state machine: one phase and the newest boot epoch accepted so far. */
module Lifecycle {
  datatype BootPhase =
    | Idle
    | Starting(projectId: string)
    | Running(projectId: string, port: nat)
    | Failed(projectId: string, message: string, logTail: seq<string>)

  datatype Machine = Machine(phase: BootPhase, epoch: nat)

  const INITIAL: Machine := Machine(Idle, 0)

  predicate CanStart(m: Machine, epoch: nat) {
    m.epoch <= epoch
  }

  predicate CanRun(m: Machine, projectId: string, epoch: nat) {
    m.phase == Starting(projectId) && m.epoch == epoch
  }

  predicate CanFail(m: Machine, projectId: string, epoch: nat) {
    (m.phase.Starting? || m.phase.Running?) && m.phase.projectId == projectId && m.epoch == epoch
  }

  function Started(m: Machine, projectId: string, epoch: nat): Machine {
    if CanStart(m, epoch) then Machine(Starting(projectId), epoch) else m
  }

  function MarkedRunning(m: Machine, projectId: string, epoch: nat, port: nat): Machine {
    if CanRun(m, projectId, epoch) then m.(phase := Running(projectId, port)) else m
  }

  function MarkedFailed(m: Machine, projectId: string, epoch: nat, message: string, tail: seq<string>): Machine {
    if CanFail(m, projectId, epoch) then m.(phase := Failed(projectId, message, tail)) else m
  }

  /** The machine as the desktop shell keeps it: two fields overwritten in place behind a mutex. */
  class BootMachine {
    var phase: BootPhase
    var epoch: nat

    ghost function View(): Machine
      reads this
    {
      Machine(phase, epoch)
    }

    constructor ()
      ensures View() == INITIAL
    {
      phase := Idle;
      epoch := 0;
    }

    method Start(projectId: string, epoch: nat) returns (accepted: bool)
      modifies this
      ensures accepted <==> old(this.epoch) <= epoch
      ensures View() == Started(old(View()), projectId, epoch)
      ensures if accepted then phase == Starting(projectId) && this.epoch == epoch
              else phase == old(phase) && this.epoch == old(this.epoch)
    {
      if epoch < this.epoch {
        return false;
      }
      this.epoch := epoch;
      phase := Starting(projectId);
      return true;
    }

    method MarkRunning(projectId: string, epoch: nat, port: nat) returns (accepted: bool)
      modifies this
      ensures accepted <==> old(phase) == Starting(projectId) && epoch == old(this.epoch)
      ensures View() == MarkedRunning(old(View()), projectId, epoch, port)
      ensures phase == (if accepted then Running(projectId, port) else old(phase)) && this.epoch == old(this.epoch)
    {
      match phase
      case Starting(current) =>
        if current == projectId && epoch == this.epoch {
          phase := Running(projectId, port);
          return true;
        }
        return false;
      case _ =>
        return false;
    }

    method MarkFailed(projectId: string, epoch: nat, message: string, tail: seq<string>) returns (accepted: bool)
      modifies this
      ensures accepted <==>
              && epoch == old(this.epoch)
              && (old(phase) == Starting(projectId) || (old(phase).Running? && old(phase).projectId == projectId))
      ensures View() == MarkedFailed(old(View()), projectId, epoch, message, tail)
      ensures phase == (if accepted then Failed(projectId, message, tail) else old(phase)) && this.epoch == old(this.epoch)
    {
      accepted := epoch == this.epoch
                  && (phase.Starting? || phase.Running?) && phase.projectId == projectId;
      if accepted {
        phase := Failed(projectId, message, tail);
      }
    }
  }
}
