/** What `stop_all` achieves: the slot stays empty, every thread runs out, and no child survives. */
module SupervisorShutdown {
  import opened Wrappers
  import opened Supervisor
  import opened SupervisorInvariant
  import SupervisorSafety

  // ---- the slot stays empty -------------------------------------------------------------------

  lemma StepKeepsTaken(s: State, ev: Event, k: nat)
    requires Inv(s) && k < |s.stops| && Taken(s.stops[k].pc)
    ensures var t := Step(s, ev); k < |t.stops| && Taken(t.stops[k].pc)
  {
    if ev.StepBoot? && Enabled(s, ev) {
      BootStepOk(s, ev.epoch, ev.env);
    }
  }

  /** Once a `stop_all` call has taken the slot it is empty, whatever else is called or runs. */
  lemma {:induction false} SlotStaysEmpty(schedule: seq<Event>, k: nat, more: seq<Event>)
    requires k < |Run(INIT, schedule).stops| && Taken(Run(INIT, schedule).stops[k].pc)
    ensures var t := Run(INIT, schedule + more);
            k < |t.stops| && Taken(t.stops[k].pc) && t.slot == None
    decreases |more|
  {
    if more == [] {
      assert schedule + more == schedule;
    } else {
      var rest, ev := more[..|more| - 1], more[|more| - 1];
      SlotStaysEmpty(schedule, k, rest);
      SupervisorSafety.Reachable(schedule + rest);
      StepKeepsTaken(Run(INIT, schedule + rest), ev, k);
      RunAppend(INIT, schedule + rest, ev);
      assert schedule + more == schedule + rest + [ev];
    }
    SupervisorSafety.Reachable(schedule + more);
    assert StopOk(Run(INIT, schedule + more), k, Run(INIT, schedule + more).stops[k]);
  }

  /** A boot requested after shutdown began never gets past the first question of `is_stale`. */
  lemma LateBootsDoNothing(schedule: seq<Event>, s: State, k: nat, e: nat)
    requires s == Run(INIT, schedule)
    requires k < |s.stops| && Bumped(s.stops[k].pc) && e in s.boots && s.stops[k].ticket < e
    ensures s.boots[e].pc in {Critical(Entry, Lock), Critical(Entry, Flag), Returned}
    ensures s.boots[e].held == None && s.slot != Some(e) && s.machine.epoch != e
  {
    SupervisorSafety.Reachable(schedule);
    assert CrossOk(s.stops[k], s.boots[e], e);
    assert BootOk(s, e, s.boots[e]) && StopOk(s, k, s.stops[k]);
  }

  // ---- stop_all does not wait for boot threads --------------------------------------------------

  /** After `stop_all` returned, a child is still live exactly when some thread's local variable holds one. */
  lemma LiveAfterStop(schedule: seq<Event>, s: State, k: nat)
    requires s == Run(INIT, schedule) && k < |s.stops| && s.stops[k].pc.Stopped?
    ensures s.live == {} <==> forall e :: e in s.boots ==> s.boots[e].held == None
  {
    SupervisorSafety.Reachable(schedule);
    assert StopOk(s, k, s.stops[k]);
    assert forall c :: OwnedBy(s, SlotOwner, c) ==> c !in s.live;
    forall e | e in s.boots
      ensures s.boots[e].held.Some? ==> s.boots[e].held.value in s.live
    {
      assert BootOk(s, e, s.boots[e]);
    }
    forall j | 0 <= j < |s.stops|
      ensures s.stops[j].held == None
    {
      assert j != k ==> StopPairOk(s.stops[j], s.stops[k]);
    }
  }

  /** A boot alone after `n` steps of its own. */
  ghost predicate AloneAt(t: State, n: nat)
    requires n <= 7
  {
    && t.counter == 1 && !t.shuttingDown && t.slot == None && t.stops == [] && t.machine.epoch <= 1
    && t.boots.Keys == {1} && t.boots[1].pc == BootPath(n)
    && t.holder == (if 1 <= n <= 3 then Some(BootThread(1)) else None)
    && t.boots[1].held == (if n == 7 then Some(1) else None)
    && t.live == if n == 7 then {1} else {}
  }

  lemma AloneStep(t: State, n: nat, env: Env)
    requires n < 7 && AloneAt(t, n) && env.ok
    ensures AloneAt(Step(t, StepBoot(1, env)), n + 1)
  {
  }

  lemma BootAlone() returns (schedule: seq<Event>, t: State)
    ensures t == Run(INIT, schedule) && AloneAt(t, 7)
  {
    var step := StepBoot(1, Env(true, 0, "", []));
    t := Step(INIT, CallBoot("p"));
    schedule := [CallBoot("p")];
    RunAppend(INIT, [], CallBoot("p"));
    assert [] + [CallBoot("p")] == schedule;
    for n := 0 to 7
      invariant t == Run(INIT, schedule) && AloneAt(t, n)
    {
      AloneStep(t, n, step.env);
      RunAppend(INIT, schedule, step);
      schedule, t := schedule + [step], Step(t, step);
    }
  }

  /** It does happen: a boot caught between its spawn and `store_server` outlives the return of `stop_all`. */
  lemma StopAllMayLeaveAChild() returns (schedule: seq<Event>)
    ensures var s := Run(INIT, schedule);
            && |s.stops| == 1 && s.stops[0].pc.Stopped?
            && s.live == {1} && s.boots.Keys == {1} && s.boots[1].held == Some(1)
  {
    var t;
    schedule, t := BootAlone();
    RunAppend(INIT, schedule, CallStop);
    schedule, t := schedule + [CallStop], Step(t, CallStop);
    var n := 0;
    while n < 5
      invariant 0 <= n <= 5
      invariant t == Run(INIT, schedule)
      invariant t.slot == None && t.boots.Keys == {1} && t.boots[1].held == Some(1) && t.live == {1}
      invariant t.holder == if n == 3 || n == 4 then Some(StopCall(0)) else None
      invariant |t.stops| == 1 && t.stops[0].held == None && t.stops[0].pc == StopPath(n)
    {
      RunAppend(INIT, schedule, StepStop(0));
      schedule, t, n := schedule + [StepStop(0)], Step(t, StepStop(0)), n + 1;
    }
  }

  function BootPath(n: nat): Pc
    requires n <= 7
  {
    [Critical(Entry, Lock), Critical(Entry, Flag), Critical(Entry, Counter), Critical(Entry, Act),
     Shut(Entry), MachineStart, Spawn, Critical(Store, Lock)][n]
  }

  function StopPath(n: nat): StopPc
    requires n <= 5
  {
    [RaiseFlag, BumpCounter, StopLock, StopTake, ShutTaken, Stopped][n]
  }

  // ---- every thread runs out --------------------------------------------------------------------

  /** How many steps a boot thread can still take once the shutdown flag is up. */
  function Left(pc: Pc): nat {
    match pc
    case Critical(site, stage) =>
      (match site case Entry => 21 case Store => 14 case Reap => 5)
      + (match stage case Lock => 3 case Flag => 2 case Counter => 1 case Act => 0)
    case Shut(after) => (match after case Entry => 20 case Store => 1 case Reap => 4)
    case MachineStart => 19
    case Spawn => 18
    case WaitPort => 13
    case MachineRunning(_) => 12
    case WatchCounter => 11
    case WatchLock => 10
    case WatchProbe => 9
    case MachineFailed => 3
    case WatchFlag => 2
    case Returned => 0
  }

  function StopLeft(pc: StopPc): nat {
    match pc
    case RaiseFlag => 5
    case BumpCounter => 4
    case StopLock => 3
    case StopTake => 2
    case ShutTaken => 1
    case Stopped => 0
  }

  function BootsLeft(boots: map<nat, Boot>, n: nat): nat {
    if n == 0 then 0 else BootsLeft(boots, n - 1) + if n in boots then Left(boots[n].pc) else 0
  }

  function StopsLeft(stops: seq<Stop>): nat {
    if stops == [] then 0 else StopsLeft(stops[..|stops| - 1]) + StopLeft(stops[|stops| - 1].pc)
  }

  function TotalLeft(s: State): nat {
    BootsLeft(s.boots, s.counter) + StopsLeft(s.stops)
  }

  lemma {:induction false} BootsLeftUpdate(boots: map<nat, Boot>, n: nat, e: nat, b: Boot)
    requires e in boots
    ensures BootsLeft(boots[e := b], n) ==
            BootsLeft(boots, n) + if 1 <= e <= n then Left(b.pc) - Left(boots[e].pc) else 0
  {
    if n > 0 {
      BootsLeftUpdate(boots, n - 1, e, b);
    }
  }

  lemma {:induction false} StopsLeftUpdate(stops: seq<Stop>, k: nat, c: Stop)
    requires k < |stops|
    ensures StopsLeft(stops[k := c]) == StopsLeft(stops) + StopLeft(c.pc) - StopLeft(stops[k].pc)
  {
    var n := |stops| - 1;
    if k < n {
      StopsLeftUpdate(stops[..n], k, c);
      assert stops[k := c][..n] == stops[..n][k := c];
    } else {
      assert stops[k := c][..n] == stops[..n];
    }
  }

  lemma BootStepGoesDown(s: State, e: nat, env: Env)
    requires s.shuttingDown && Enabled(s, StepBoot(e, env))
    ensures var t := StepOfBoot(s, e, env);
            e in t.boots && t.shuttingDown && Left(t.boots[e].pc) < Left(s.boots[e].pc)
  {
  }

  lemma StopStepGoesDown(s: State, k: nat)
    requires s.shuttingDown && Enabled(s, StepStop(k))
    ensures var t := StepOfStop(s, k);
            t.shuttingDown && s.counter <= t.counter <= s.counter + 1 && |t.stops| == |s.stops|
            && StopLeft(t.stops[k].pc) < StopLeft(s.stops[k].pc)
  {
  }

  predicate IsThreadStep(ev: Event) {
    ev.StepBoot? || ev.StepStop?
  }

  lemma BootUsesBudget(s: State, t: State, e: nat)
    requires e in s.boots && e in t.boots && 1 <= e <= s.counter
    requires t.boots == s.boots[e := t.boots[e]] && t.counter == s.counter && t.stops == s.stops
    requires Left(t.boots[e].pc) < Left(s.boots[e].pc)
    ensures TotalLeft(t) < TotalLeft(s)
  {
    BootsLeftUpdate(s.boots, s.counter, e, t.boots[e]);
  }

  lemma StopUsesBudget(s: State, t: State, k: nat)
    requires k < |s.stops| && |s.stops| == |t.stops| && t.stops == s.stops[k := t.stops[k]] && t.boots == s.boots
    requires t.counter == s.counter || (t.counter == s.counter + 1 && t.counter !in s.boots)
    requires StopLeft(t.stops[k].pc) < StopLeft(s.stops[k].pc)
    ensures TotalLeft(t) < TotalLeft(s)
  {
    StopsLeftUpdate(s.stops, k, t.stops[k]);
  }

  /** After the flag is up, each step any thread takes uses up part of a fixed budget. */
  lemma ThreadStepGoesDown(s: State, ev: Event)
    requires Inv(s) && s.shuttingDown && Enabled(s, ev) && IsThreadStep(ev)
    ensures TotalLeft(Apply(s, ev)) < TotalLeft(s) && Apply(s, ev).shuttingDown
  {
    match ev
    case StepBoot(e, env) =>
      assert BootOk(s, e, s.boots[e]);
      BootStepOk(s, e, env);
      BootStepGoesDown(s, e, env);
      BootUsesBudget(s, Apply(s, ev), e);
    case StepStop(k) =>
      StopSelf(s, k);
      StopStepGoesDown(s, k);
      StopUsesBudget(s, Apply(s, ev), k);
  }

  /** How many events of a schedule actually take effect. */
  function Effective(s: State, schedule: seq<Event>): nat
    decreases |schedule|
  {
    if schedule == [] then 0
    else
      var rest, ev := schedule[..|schedule| - 1], schedule[|schedule| - 1];
      Effective(s, rest) + if Enabled(Run(s, rest), ev) then 1 else 0
  }

  /** From any reachable state with the flag up, the threads take at most `TotalLeft` more steps in any order. */
  lemma {:induction false} ShutdownRunsOut(s: State, work: seq<Event>)
    requires Inv(s) && s.shuttingDown
    requires forall i :: 0 <= i < |work| ==> IsThreadStep(work[i])
    ensures Run(s, work).shuttingDown && Inv(Run(s, work))
    ensures Effective(s, work) + TotalLeft(Run(s, work)) <= TotalLeft(s)
    decreases |work|
  {
    if work != [] {
      var rest, ev := work[..|work| - 1], work[|work| - 1];
      ShutdownRunsOut(s, rest);
      StepKeepsInv(Run(s, rest), ev);
      if Enabled(Run(s, rest), ev) {
        ThreadStepGoesDown(Run(s, rest), ev);
      }
    }
  }

  // ---- no deadlock, and no child left -------------------------------------------------------------

  ghost predicate CanMove(s: State) {
    exists ev :: IsThreadStep(ev) && Enabled(s, ev)
  }

  ghost predicate Finished(s: State) {
    && (forall e :: e in s.boots ==> s.boots[e].pc.Returned?)
    && (forall k :: 0 <= k < |s.stops| ==> s.stops[k].pc.Stopped?)
  }

  /** As long as a thread is unfinished some thread can move: the slot mutex never deadlocks. */
  lemma NoDeadlock(schedule: seq<Event>, s: State)
    requires s == Run(INIT, schedule)
    ensures CanMove(s) <==> !Finished(s)
  {
    SupervisorSafety.Reachable(schedule);
    var env := Env(true, 0, "", []);
    if s.holder.Some? {
      match s.holder.value
      case BootThread(e) =>
        assert BootOk(s, e, s.boots[e]);
        assert Enabled(s, StepBoot(e, env)) && IsThreadStep(StepBoot(e, env));
      case StopCall(k) =>
        assert StopOk(s, k, s.stops[k]);
        assert Enabled(s, StepStop(k)) && IsThreadStep(StepStop(k));
    } else if e :| e in s.boots && !s.boots[e].pc.Returned? {
      assert Enabled(s, StepBoot(e, env)) && IsThreadStep(StepBoot(e, env));
    } else if k :| 0 <= k < |s.stops| && !s.stops[k].pc.Stopped? {
      assert Enabled(s, StepStop(k)) && IsThreadStep(StepStop(k));
    }
  }

  lemma FinishedOwnsNothing(s: State, o: Owner, c: nat)
    requires Inv(s) && Finished(s) && s.slot == None
    ensures !OwnedBy(s, o, c)
  {
    match o
    case SlotOwner =>
    case BootOwner(e) => assert e in s.boots ==> BootOk(s, e, s.boots[e]);
    case StopOwner(k) => assert k < |s.stops| ==> StopOk(s, k, s.stops[k]);
  }

  /** When the app is shutting down and no thread can move any more, no child is alive. */
  lemma NoOrphanAtTheEnd(schedule: seq<Event>, s: State)
    requires s == Run(INIT, schedule) && s.shuttingDown && !CanMove(s)
    ensures Finished(s) && s.slot == None && s.live == {}
  {
    NoDeadlock(schedule, s);
    SupervisorSafety.Reachable(schedule);
    assert StopOk(s, 0, s.stops[0]);
    forall o, c
      ensures !OwnedBy(s, o, c)
    {
      FinishedOwnsNothing(s, o, c);
    }
  }
}
