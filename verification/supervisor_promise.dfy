/**
  When `stop_all` keeps its promise that no child is orphaned, read off the state in which it is called.
  `MayHold` tells whether a boot thread can get to hold a child past the return of the call; the promise is
  kept in every continuation exactly when no thread may.
 */
module SupervisorPromise {
  import opened Wrappers
  import opened Lifecycle
  import opened Supervisor
  import opened SupervisorInvariant
  import SupervisorSafety
  import opened SupervisorShutdown

  /**
    Boot `e` holds a child it is not about to store, or is past the question of `is_stale` and on its way to
    one, or is the newest boot, unfinished, and has not been told of a shutdown.
   */
  predicate MayHold(s: State, e: nat) {
    e in s.boots
    && var b := s.boots[e];
       || (b.held.Some? && b.pc != Critical(Store, Act))
       || b.pc.Spawn? || b.pc == Critical(Entry, Act) || b.pc == Critical(Reap, Act)
       || ((b.pc == Shut(Entry) || b.pc.MachineStart?) && s.machine.epoch <= e)
       || (s.counter == e && (b.pc.Critical? && b.pc.stage.Counter?))
       || (s.counter == e && !s.shuttingDown && !b.pc.Returned? && !b.pc.MachineFailed?)
  }

  /** A boot is requested only once the shutdown flag is up. */
  ghost predicate BootsOnlyInShutdown(s: State, work: seq<Event>) {
    forall i :: 0 <= i < |work| && work[i].CallBoot? ==> Run(s, work[..i]).shuttingDown
  }

  /** After `work`, the `stop_all` called in `s` has returned and a child is alive. */
  predicate LeavesAChild(s: State, work: seq<Event>) {
    var t := Run(Step(s, CallStop), work);
    |s.stops| < |t.stops| && t.stops[|s.stops|].pc.Stopped? && t.live != {}
  }

  // ---- the promise is kept when no thread may hold a child ----------------------------------------------

  ghost predicate Quiet(s: State) {
    forall e :: !MayHold(s, e)
  }

  /** A step of boot `e` leaves it without a way to a child, and with it everything the others' ways depend on. */
  ghost predicate StaysQuiet(s: State, t: State, e: nat)
    requires e in s.boots
  {
    && !MayHold(t, e) && t.machine.epoch == s.machine.epoch
    && t.counter == s.counter && t.shuttingDown == s.shuttingDown && e in t.boots && t.boots == s.boots[e := t.boots[e]]
  }

  lemma SectionStaysQuiet(s: State, e: nat, env: Env)
    requires Shared(s) && Enabled(s, StepBoot(e, env)) && BootOk(s, e, s.boots[e]) && !MayHold(s, e)
    requires s.boots[e].pc.Critical? && !s.boots[e].pc.stage.Act?
    ensures StaysQuiet(s, StalenessStep(s, e), e)
  {
  }

  lemma StoreStaysQuiet(s: State, e: nat, env: Env)
    requires Shared(s) && Enabled(s, StepBoot(e, env)) && BootOk(s, e, s.boots[e]) && !MayHold(s, e)
    requires s.boots[e].pc.Critical? && s.boots[e].pc.stage.Act?
    ensures StaysQuiet(s, SlotStep(s, e), e)
  {
  }

  lemma ShutStaysQuiet(s: State, e: nat, env: Env)
    requires Shared(s) && Enabled(s, StepBoot(e, env)) && BootOk(s, e, s.boots[e]) && !MayHold(s, e)
    requires s.boots[e].pc.Shut?
    ensures StaysQuiet(s, ShutStep(s, e, env), e)
  {
  }

  lemma WatchStaysQuiet(s: State, e: nat, env: Env)
    requires Shared(s) && Enabled(s, StepBoot(e, env)) && BootOk(s, e, s.boots[e]) && !MayHold(s, e)
    requires InWatch(s.boots[e].pc)
    ensures StaysQuiet(s, WatchStep(s, e, env), e)
  {
  }

  lemma ServerStaysQuiet(s: State, e: nat, env: Env)
    requires Shared(s) && Enabled(s, StepBoot(e, env)) && BootOk(s, e, s.boots[e]) && !MayHold(s, e)
    requires InServer(s.boots[e].pc)
    ensures StaysQuiet(s, ServerStep(s, e, env), e)
  {
  }

  lemma MachineStaysQuiet(s: State, e: nat, env: Env)
    requires Shared(s) && Enabled(s, StepBoot(e, env)) && BootOk(s, e, s.boots[e]) && !MayHold(s, e)
    requires s.boots[e].pc.MachineStart? || s.boots[e].pc.MachineRunning? || s.boots[e].pc.MachineFailed?
    ensures StaysQuiet(s, MachineStep(s, e, env), e)
  {
  }

  lemma BootStepStaysQuiet(s: State, e: nat, env: Env)
    requires Shared(s) && Enabled(s, StepBoot(e, env)) && BootOk(s, e, s.boots[e]) && !MayHold(s, e)
    ensures StaysQuiet(s, StepOfBoot(s, e, env), e)
  {
    var pc := s.boots[e].pc;
    if pc.Critical? {
      if pc.stage.Act? {
        StoreStaysQuiet(s, e, env);
      } else {
        SectionStaysQuiet(s, e, env);
      }
    } else if pc.Shut? {
      ShutStaysQuiet(s, e, env);
    } else if InWatch(pc) {
      WatchStaysQuiet(s, e, env);
    } else if InServer(pc) {
      ServerStaysQuiet(s, e, env);
    } else {
      MachineStaysQuiet(s, e, env);
    }
  }

  /** A thread that did not move has no new way to a child: the counter and the flag only ever close ways. */
  lemma OthersStayQuiet(s: State, t: State, f: nat)
    requires f in s.boots ==> f in t.boots && t.boots[f] == s.boots[f] && f <= s.counter
    requires f in t.boots ==> f in s.boots
    requires t.machine.epoch == s.machine.epoch && s.counter <= t.counter && (s.shuttingDown ==> t.shuttingDown)
    requires !MayHold(s, f)
    ensures !MayHold(t, f)
  {
  }

  /** A boot requested under shutdown will find itself stale. */
  lemma LateBootStaysQuiet(s: State, project: string)
    requires Inv(s) && Quiet(s) && s.shuttingDown
    ensures Quiet(Apply(s, CallBoot(project)))
  {
    var t := Apply(s, CallBoot(project));
    forall f
      ensures !MayHold(t, f)
    {
      assert f in s.boots ==> BootOk(s, f, s.boots[f]);
      if f != t.counter {
        OthersStayQuiet(s, t, f);
      }
    }
  }

  lemma StepStaysQuiet(s: State, ev: Event)
    requires Inv(s) && Quiet(s) && (ev.CallBoot? ==> s.shuttingDown)
    ensures Quiet(Step(s, ev))
  {
    if ev.CallBoot? {
      LateBootStaysQuiet(s, ev.project);
    } else if Enabled(s, ev) {
      var t := Apply(s, ev);
      if ev.StepBoot? {
        BootStepStaysQuiet(s, ev.epoch, ev.env);
      }
      forall f | !(ev.StepBoot? && ev.epoch == f)
        ensures !MayHold(t, f)
      {
        assert f in s.boots ==> BootOk(s, f, s.boots[f]);
        OthersStayQuiet(s, t, f);
      }
    }
  }

  lemma {:induction false} WorkStaysQuiet(s: State, work: seq<Event>)
    requires Inv(s) && Quiet(s) && BootsOnlyInShutdown(s, work)
    ensures Inv(Run(s, work)) && Quiet(Run(s, work))
    decreases |work|
  {
    if work != [] {
      var rest := work[..|work| - 1];
      assert forall i :: 0 <= i < |rest| ==> rest[..i] == work[..i];
      WorkStaysQuiet(s, rest);
      StepKeepsInv(Run(s, rest), work[|work| - 1]);
      StepStaysQuiet(Run(s, rest), work[|work| - 1]);
    }
  }

  /** If no thread may hold a child when `stop_all` is called, none is alive whenever it has returned. */
  lemma PromiseKept(schedule: seq<Event>, s: State, work: seq<Event>)
    requires s == Run(INIT, schedule) && (forall e :: !MayHold(s, e)) && BootsOnlyInShutdown(Step(s, CallStop), work)
    ensures !LeavesAChild(s, work)
  {
    var t := Run(Step(s, CallStop), work);
    SupervisorSafety.Reachable(schedule);
    StepKeepsInv(s, CallStop);
    StepStaysQuiet(s, CallStop);
    WorkStaysQuiet(Step(s, CallStop), work);
    if |s.stops| < |t.stops| && t.stops[|s.stops|].pc.Stopped? {
      QuietIsChildless(t, |s.stops|);
    }
  }

  lemma QuietIsChildless(t: State, k: nat)
    requires Inv(t) && Quiet(t) && k < |t.stops| && t.stops[k].pc.Stopped?
    ensures t.live == {}
  {
    assert StopOk(t, k, t.stops[k]);
    forall o, c
      ensures !OwnedBy(t, o, c)
    {
      match o
      case SlotOwner =>
      case BootOwner(e) => assert e in t.boots ==> CrossOk(t.stops[k], t.boots[e], e) && !MayHold(t, e);
      case StopOwner(j) => assert j < |t.stops| && j != k ==> StopPairOk(t.stops[j], t.stops[k]);
    }
  }

  // ---- and is broken by some continuation when one may ----------------------------------------------------

  lemma RunCons(s: State, ev: Event, work: seq<Event>)
    ensures Run(s, [ev] + work) == Run(Step(s, ev), work)
  {
    RunConcat(s, [ev], work);
    assert [ev] == [] + [ev];
    RunAppend(s, [], ev);
  }

  predicate ThreadsOnly(work: seq<Event>) {
    forall i :: 0 <= i < |work| ==> IsThreadStep(work[i])
  }

  /** Holds a child and is not in a critical section. */
  predicate Holding(s: State, e: nat) {
    e in s.boots && s.boots[e].held.Some? && !HoldsLock(s.boots[e].pc)
  }

  /** How many steps the holder of the mutex needs at most to release it. */
  function UntilFree(s: State): nat {
    match s.holder
    case None => 0
    case Some(BootThread(e)) =>
      if e !in s.boots || !s.boots[e].pc.Critical? then 1
      else (match s.boots[e].pc.stage case Lock => 4 case Flag => 3 case Counter => 2 case Act => 1)
    case Some(StopCall(k)) => if k < |s.stops| && s.stops[k].pc.StopTake? then 2 else 1
  }

  function HolderStep(o: Tid): Event {
    match o
    case BootThread(e) => StepBoot(e, ANY)
    case StopCall(k) => StepStop(k)
  }

  /** Closer to a free mutex, with every thread but the holder as it was. */
  ghost predicate Freer(s: State, t: State, o: Tid) {
    && UntilFree(t) < UntilFree(s) && t.counter == s.counter && t.shuttingDown == s.shuttingDown
    && |t.stops| == |s.stops|
    && (forall f :: f in s.boots && o != BootThread(f) ==> f in t.boots && t.boots[f] == s.boots[f])
    && (forall j :: 0 <= j < |s.stops| && o != StopCall(j) ==> t.stops[j] == s.stops[j])
  }

  lemma BootFrees(s: State, e: nat)
    requires Shared(s) && s.holder == Some(BootThread(e)) && e in s.boots && BootOk(s, e, s.boots[e])
    ensures Enabled(s, StepBoot(e, ANY)) && Freer(s, StepOfBoot(s, e, ANY), BootThread(e))
  {
    assert HoldsLock(s.boots[e].pc);
  }

  lemma StopFrees(s: State, k: nat)
    requires Shared(s) && s.holder == Some(StopCall(k)) && k < |s.stops| && StopOk(s, k, s.stops[k])
    ensures Enabled(s, StepStop(k)) && Freer(s, StepOfStop(s, k), StopCall(k))
  {
  }

  /** The holder of the mutex can move and comes closer to releasing it. */
  lemma AdvanceHolder(s: State)
    requires Inv(s) && s.holder.Some?
    ensures var ev := HolderStep(s.holder.value);
            IsThreadStep(ev) && Enabled(s, ev) && Freer(s, Step(s, ev), s.holder.value)
  {
    match s.holder.value
    case BootThread(e) =>
      assert BootOk(s, e, s.boots[e]);
      BootFrees(s, e);
    case StopCall(k) =>
      assert StopOk(s, k, s.stops[k]);
      StopFrees(s, k);
  }

  const ANY: Env := Env(true, 0, "", [])

  /** What brings `stop_all` call `k` closer to its return: its own step, or one of whoever holds the mutex. */
  function TowardsReturn(s: State, k: nat): Event
    requires k < |s.stops|
  {
    if s.stops[k].pc.StopLock? && s.holder.Some? then HolderStep(s.holder.value) else StepStop(k)
  }

  lemma StopStepCloser(s: State, k: nat)
    requires k < |s.stops| && Enabled(s, StepStop(k))
    ensures var t := Step(s, StepStop(k));
            t.boots == s.boots && |t.stops| == |s.stops| && StopLeft(t.stops[k].pc) < StopLeft(s.stops[k].pc)
  {
  }

  lemma ReturnsSooner(s: State, e: nat, k: nat)
    requires Inv(s) && Holding(s, e) && k < |s.stops| && !s.stops[k].pc.Stopped?
    ensures var ev := TowardsReturn(s, k);
            var t := Step(s, ev);
            && IsThreadStep(ev) && Holding(t, e) && |t.stops| == |s.stops|
            && (|| StopLeft(t.stops[k].pc) < StopLeft(s.stops[k].pc)
                || (t.stops[k] == s.stops[k] && UntilFree(t) < UntilFree(s)))
  {
    assert BootOk(s, e, s.boots[e]) && StopOk(s, k, s.stops[k]);
    if s.stops[k].pc.StopLock? && s.holder.Some? {
      AdvanceHolder(s);
    } else {
      StopStepCloser(s, k);
    }
  }

  /** A thread outside its critical sections that holds a child outlives the return of any `stop_all`. */
  lemma {:induction false} Outlives(s: State, e: nat, k: nat) returns (work: seq<Event>)
    requires Inv(s) && Holding(s, e) && k < |s.stops|
    ensures ThreadsOnly(work)
    ensures var t := Run(s, work); k < |t.stops| && t.stops[k].pc.Stopped? && t.live != {}
    decreases StopLeft(s.stops[k].pc), UntilFree(s)
  {
    if s.stops[k].pc.Stopped? {
      assert BootOk(s, e, s.boots[e]);
      assert s.boots[e].held.value in s.live;
      work := [];
    } else {
      var ev := TowardsReturn(s, k);
      ReturnsSooner(s, e, k);
      StepKeepsInv(s, ev);
      var rest := Outlives(Step(s, ev), e, k);
      work := [ev] + rest;
      RunCons(s, ev, rest);
    }
  }

  /** How far a thread is from holding a child outside its critical sections. */
  function Distance(pc: Pc): nat {
    if pc.WatchFlag? then 23 else 2 * Left(pc)
  }

  /** The answers of the world that lead there: the spawn succeeds, the port stays silent, the child exits. */
  function Mishap(pc: Pc): Env {
    ANY.(ok := !pc.WaitPort? && !pc.WatchProbe?)
  }

  /** After one step of its own: closer to holding a child, and still on the way. */
  ghost predicate Closer(s: State, t: State, e: nat)
    requires e in s.boots
  {
    MayHold(t, e) && Distance(t.boots[e].pc) < Distance(s.boots[e].pc) && t.stops == s.stops
  }

  ghost predicate OnTheWay(s: State, e: nat) {
    && Shared(s) && MayHold(s, e) && BootOk(s, e, s.boots[e])
    && (WaitsForLock(s.boots[e].pc) ==> s.holder.None?)
    && (s.boots[e].held.None? || s.boots[e].pc == Critical(Store, Act))
  }

  lemma SectionCloser(s: State, e: nat)
    requires OnTheWay(s, e) && s.boots[e].pc.Critical? && !s.boots[e].pc.stage.Act?
    ensures Closer(s, StalenessStep(s, e), e)
  {
  }

  lemma SlotCloser(s: State, e: nat)
    requires OnTheWay(s, e) && s.boots[e].pc.Critical? && s.boots[e].pc.stage.Act?
    ensures Closer(s, SlotStep(s, e), e)
  {
  }

  lemma WatchCloser(s: State, e: nat)
    requires OnTheWay(s, e) && InWatch(s.boots[e].pc)
    ensures Closer(s, WatchStep(s, e, Mishap(s.boots[e].pc)), e)
  {
  }

  lemma MachineCloser(s: State, e: nat)
    requires OnTheWay(s, e) && (s.boots[e].pc.MachineStart? || s.boots[e].pc.MachineRunning?)
    ensures Closer(s, MachineStep(s, e, Mishap(s.boots[e].pc)), e)
  {
  }

  /** A thread that may hold a child, and does not yet, can always come closer to it. */
  lemma ComesCloser(s: State, e: nat)
    requires OnTheWay(s, e)
    ensures var ev := StepBoot(e, Mishap(s.boots[e].pc)); Enabled(s, ev) && Closer(s, Apply(s, ev), e)
  {
    var pc := s.boots[e].pc;
    if pc.Critical? {
      if pc.stage.Act? {
        SlotCloser(s, e);
      } else {
        SectionCloser(s, e);
      }
    } else if InWatch(pc) {
      WatchCloser(s, e);
    } else if pc.MachineStart? || pc.MachineRunning? {
      MachineCloser(s, e);
    }
  }

  lemma RaisedAndBumped(s: State, k: nat)
    requires k < |s.stops| && s.stops[k].pc.RaiseFlag?
    ensures var t := Run(s, [StepStop(k), StepStop(k)]);
            && t.shuttingDown && t.counter == s.counter + 1 && t.boots == s.boots && |t.stops| == |s.stops|
            && t.holder == s.holder
  {
    var t := Step(s, StepStop(k));
    RunCons(s, StepStop(k), [StepStop(k)]);
    RunCons(t, StepStop(k), []);
    assert [StepStop(k)] + [StepStop(k)] == [StepStop(k), StepStop(k)] && [StepStop(k)] + [] == [StepStop(k)];
  }

  lemma StaleKeepsChild(t: State, e: nat)
    requires t.shuttingDown && e in t.boots && t.counter != e && t.boots[e].held.Some?
    requires t.boots[e].pc == Critical(Store, Flag) || t.boots[e].pc == Critical(Store, Counter)
    ensures var u := Step(t, StepBoot(e, ANY)); Holding(u, e) && u.stops == t.stops
  {
  }

  /** A thread caught in `store_server` before the answer of `is_stale` is made stale by the call and keeps its child. */
  lemma MadeStale(s: State, e: nat, k: nat) returns (work: seq<Event>)
    requires Inv(s) && k < |s.stops| && s.stops[k].pc.RaiseFlag?
    requires e in s.boots && s.boots[e].held.Some? && HoldsLock(s.boots[e].pc) && s.boots[e].pc != Critical(Store, Act)
    ensures ThreadsOnly(work)
    ensures var t := Run(s, work); Holding(t, e) && |t.stops| == |s.stops|
  {
    assert BootOk(s, e, s.boots[e]);
    var raise := [StepStop(k), StepStop(k)];
    RaisedAndBumped(s, k);
    StaleKeepsChild(Run(s, raise), e);
    work := raise + [StepBoot(e, ANY)];
    RunAppend(s, raise, StepBoot(e, ANY));
  }

  /** What brings boot `e` closer to a child: its own step, or one of whoever holds the mutex it waits for. */
  function TowardsChild(s: State, e: nat): Event
    requires e in s.boots
  {
    var pc := s.boots[e].pc;
    if WaitsForLock(pc) && s.holder.Some? then HolderStep(s.holder.value) else StepBoot(e, Mishap(pc))
  }

  lemma ChildSooner(s: State, e: nat, k: nat)
    requires Inv(s) && MayHold(s, e) && !Holding(s, e)
    requires s.boots[e].held.None? || s.boots[e].pc == Critical(Store, Act)
    requires k < |s.stops| && s.stops[k].pc.RaiseFlag?
    ensures var ev := TowardsChild(s, e);
            var t := Step(s, ev);
            && IsThreadStep(ev) && MayHold(t, e) && |t.stops| == |s.stops|
            && t.stops[k] == s.stops[k]
            && (|| Distance(t.boots[e].pc) < Distance(s.boots[e].pc)
                || (t.boots[e].pc == s.boots[e].pc && UntilFree(t) < UntilFree(s)))
  {
    assert BootOk(s, e, s.boots[e]);
    if WaitsForLock(s.boots[e].pc) && s.holder.Some? {
      assert StopOk(s, k, s.stops[k]);
      AdvanceHolder(s);
    } else {
      ComesCloser(s, e);
    }
  }

  /** A thread that may hold a child gets to hold one outside its critical sections. */
  lemma {:induction false} GetsToHold(s: State, e: nat, k: nat) returns (work: seq<Event>)
    requires Inv(s) && MayHold(s, e) && k < |s.stops| && s.stops[k].pc.RaiseFlag?
    ensures ThreadsOnly(work)
    ensures var t := Run(s, work); Holding(t, e) && |t.stops| == |s.stops|
    decreases Distance(s.boots[e].pc), UntilFree(s)
  {
    if Holding(s, e) {
      work := [];
    } else if s.boots[e].held.Some? && s.boots[e].pc != Critical(Store, Act) {
      work := MadeStale(s, e, k);
    } else {
      var ev := TowardsChild(s, e);
      ChildSooner(s, e, k);
      StepKeepsInv(s, ev);
      var rest := GetsToHold(Step(s, ev), e, k);
      work := [ev] + rest;
      RunCons(s, ev, rest);
    }
  }

  /** If some thread may hold a child when `stop_all` is called, a child may be alive when it returns. */
  lemma PromiseBroken(schedule: seq<Event>, s: State, e: nat) returns (work: seq<Event>)
    requires s == Run(INIT, schedule) && MayHold(s, e)
    ensures ThreadsOnly(work) && LeavesAChild(s, work)
  {
    var k, t := |s.stops|, Step(s, CallStop);
    SupervisorSafety.Reachable(schedule);
    StepKeepsInv(s, CallStop);
    var reach := GetsToHold(t, e, k);
    RunKeepsInv(t, reach);
    var rest := Outlives(Run(t, reach), e, k);
    work := reach + rest;
    RunConcat(t, reach, rest);
  }

  /**
    `stop_all` can return with a child alive exactly when some thread may hold one at the call, whether further
    `stop_all` calls, and boots once the flag is up, come in meanwhile or only the threads there are go on.
   */
  lemma OrphanIff(schedule: seq<Event>, s: State)
    requires s == Run(INIT, schedule)
    ensures (exists work :: BootsOnlyInShutdown(Step(s, CallStop), work) && LeavesAChild(s, work))
            <==> (exists e :: MayHold(s, e))
    ensures (exists work :: ThreadsOnly(work) && LeavesAChild(s, work)) <==> (exists e :: MayHold(s, e))
  {
    assert forall work :: ThreadsOnly(work) ==> BootsOnlyInShutdown(Step(s, CallStop), work);
    if e :| MayHold(s, e) {
      var work := PromiseBroken(schedule, s, e);
      assert BootsOnlyInShutdown(Step(s, CallStop), work);
    } else {
      forall work | BootsOnlyInShutdown(Step(s, CallStop), work)
        ensures !LeavesAChild(s, work)
      {
        PromiseKept(schedule, s, work);
      }
    }
  }

  lemma {:induction false} CallsStay(s: State, work: seq<Event>)
    ensures |s.stops| <= |Run(s, work).stops|
    decreases |work|
  {
    if work != [] {
      CallsStay(s, work[..|work| - 1]);
    }
  }

  lemma NewestMayHold(u: State, project: string, k: nat)
    requires Inv(u) && !u.shuttingDown && k < |u.stops|
    ensures var t := Step(u, CallBoot(project));
            Inv(t) && MayHold(t, t.counter) && k < |t.stops| && t.stops[k].pc.RaiseFlag?
  {
    assert StopOk(u, k, u.stops[k]);
    StepKeepsInv(u, CallBoot(project));
  }

  /** A boot requested between the call of `stop_all` and its raising of the flag can always leave a child. */
  lemma EarlyBootBreaks(schedule: seq<Event>, s: State, before: seq<Event>, project: string) returns (work: seq<Event>)
    requires s == Run(INIT, schedule) && !Run(Step(s, CallStop), before).shuttingDown
    ensures ThreadsOnly(work) && LeavesAChild(s, before + [CallBoot(project)] + work)
  {
    var k, t := |s.stops|, Step(s, CallStop);
    var u := Run(t, before);
    SupervisorSafety.Reachable(schedule);
    StepKeepsInv(s, CallStop);
    RunKeepsInv(t, before);
    CallsStay(t, before);
    NewestMayHold(u, project, k);
    var v := Step(u, CallBoot(project));
    var reach := GetsToHold(v, v.counter, k);
    RunKeepsInv(v, reach);
    var rest := Outlives(Run(v, reach), v.counter, k);
    work := reach + rest;
    RunConcat(v, reach, rest);
    RunAppend(t, before, CallBoot(project));
    RunConcat(t, before + [CallBoot(project)], work);
  }
}
