/**
  The inductive invariant of the supervisor.  It is thread-modular: one predicate on the shared
  variables, one per boot thread, one per `stop_all` call, and one per pair of those.  A step is
  checked against the thread that takes it, and against the others through `Guarantee`, which says
  all that a step may do to the shared variables.
 */
module SupervisorInvariant {
  import opened Wrappers
  import opened Lifecycle
  import opened Supervisor

  // ---- regions of the program --------------------------------------------------------------

  predicate HoldsLock(pc: Pc) {
    pc.WatchProbe? || (pc.Critical? && !pc.stage.Lock?)
  }

  /** Under the mutex, after the shutdown flag was read as false. */
  predicate FlagChecked(pc: Pc) {
    pc.Critical? && (pc.stage.Counter? || pc.stage.Act?)
  }

  /** Under the mutex, after `is_stale` answered no. */
  predicate Checked(pc: Pc) {
    pc.Critical? && pc.stage.Act?
  }

  /** Has emptied the slot at entry and is still running. */
  predicate PastTake(pc: Pc) {
    !pc.Returned? && !(pc.Critical? && pc.site.Entry?)
  }

  /** Has also been accepted by the machine. */
  predicate PastStart(pc: Pc) {
    PastTake(pc) && pc != Shut(Entry) && !pc.MachineStart?
  }

  predicate BeforeSpawn(pc: Pc) {
    !pc.Returned? && (!PastStart(pc) || pc.Spawn?)
  }

  /** Holds the child it spawned itself. */
  predicate HoldsOwn(pc: Pc) {
    pc == Shut(Store) || pc == Shut(Reap) || (pc.Critical? && pc.site.Store?)
  }

  /** Has stored its child and not yet taken it back. */
  predicate Stored(pc: Pc) {
    pc.WaitPort? || pc.MachineRunning? || InWatch(pc) || (pc.Critical? && pc.site.Reap?)
  }

  predicate Bumped(pc: StopPc) {
    !pc.RaiseFlag? && !pc.BumpCounter?
  }

  predicate Taken(pc: StopPc) {
    pc.ShutTaken? || pc.Stopped?
  }

  // ---- the invariant -------------------------------------------------------------------------

  /** Facts about the shared variables alone. */
  ghost predicate Shared(s: State) {
    && s.live !! s.ended
    && s.live <= s.boots.Keys
    && s.ended <= s.boots.Keys
    && (s.slot.Some? ==> s.slot.value in s.live && s.slot.value == s.machine.epoch)
    && s.machine.epoch <= s.counter
    && (if s.machine.epoch == 0 then s.machine.phase.Idle? else s.machine.epoch in s.boots)
    && (s.holder.Some? && s.holder.value.BootThread? ==> s.holder.value.epoch in s.boots)
    && (s.holder.Some? && s.holder.value.StopCall? ==> s.holder.value.index < |s.stops|)
    && (s.shuttingDown ==> |s.stops| > 0)
  }

  /** Which child a boot thread may hold at which point. */
  ghost predicate HeldOk(s: State, e: nat, b: Boot) {
    && (HoldsOwn(b.pc) ==> b.held == Some(e))
    && (b.held.Some? ==>
          && b.held.value in s.live
          && b.held != s.slot
          && (HoldsOwn(b.pc) || (b.pc == Shut(Entry) && b.held.value < e)))
    && (BeforeSpawn(b.pc) ==> e !in s.live && e !in s.ended)
  }

  /** What a thread may rely on about the mutex and the slot. */
  ghost predicate SlotOk(s: State, e: nat, b: Boot) {
    && (HoldsLock(b.pc) <==> s.holder == Some(BootThread(e)))
    && (Checked(b.pc) ==> s.machine.epoch <= e)
    && (PastTake(b.pc) && s.slot.Some? ==> e <= s.slot.value)
    && (Stored(b.pc) && s.counter == e ==> s.slot == Some(e))
    && (b.pc == Critical(Reap, Act) ==> s.slot == Some(e))
  }

  /** How the machine's phase follows the thread whose epoch it carries. */
  ghost predicate PhaseMatches(phase: BootPhase, b: Boot) {
    && !phase.Idle? && phase.projectId == b.project
    && (b.pc.Returned? || PastStart(b.pc))
    && (b.pc.Spawn? || b.pc.WaitPort? || b.pc.MachineRunning? ==> phase.Starting?)
    && (b.pc == Shut(Store) || (b.pc.Critical? && b.pc.site.Store?) ==> phase.Starting?)
    && (InWatch(b.pc) ==> phase.Running?)
    && (!b.pc.Returned? ==> !phase.Failed?)
  }

  ghost predicate MachineOk(s: State, e: nat, b: Boot) {
    && (PastStart(b.pc) ==> e <= s.machine.epoch)
    && (s.machine.epoch == e ==> PhaseMatches(s.machine.phase, b))
  }

  /** The outcome of the newest boot is never lost. */
  ghost predicate OutcomeOk(s: State, e: nat, b: Boot) {
    s.counter == e ==>
      && (b.pc.Returned? && !s.shuttingDown ==> s.machine.epoch == e && s.machine.phase.Failed?)
      && (b.pc.Returned? && s.machine.epoch == e && s.machine.phase.Running? ==> s.slot == Some(e))
      && (b.pc == Shut(Store) ==> s.shuttingDown)
      && (b.pc.MachineFailed? && !s.shuttingDown ==> e !in s.live)
      && (s.machine.epoch == e && s.machine.phase.Failed? && !s.shuttingDown ==> e !in s.live)
  }

  ghost predicate BootOk(s: State, e: nat, b: Boot) {
    1 <= e <= s.counter && HeldOk(s, e, b) && SlotOk(s, e, b) && MachineOk(s, e, b) && OutcomeOk(s, e, b)
  }

  ghost predicate StopOk(s: State, k: nat, c: Stop) {
    && (!c.pc.RaiseFlag? ==> s.shuttingDown)
    && (c.pc.StopTake? || c.pc.ShutTaken? <==> s.holder == Some(StopCall(k)))
    && (Bumped(c.pc) ==> s.machine.epoch < c.ticket <= s.counter)
    && (Taken(c.pc) ==> s.slot.None?)
    && (c.held.Some? ==> c.pc.ShutTaken? && c.held.value in s.live)
  }

  /** Two boot threads: the one past `is_stale` is the newest of those running, and they share no child. */
  ghost predicate PairOk(b: Boot, e: nat, c: Boot, f: nat) {
    && (Checked(b.pc) && PastTake(c.pc) ==> f <= e)
    && (b.held.Some? ==> b.held != c.held)
  }

  /** A `stop_all` call and a boot thread. */
  ghost predicate CrossOk(c: Stop, b: Boot, e: nat) {
    && (Bumped(c.pc) ==> c.ticket != e)
    && (Bumped(c.pc) && c.ticket < e ==>
          b.pc == Critical(Entry, Lock) || b.pc == Critical(Entry, Flag) || b.pc.Returned?)
    && (Taken(c.pc) ==> !FlagChecked(b.pc))
    && (b.held.Some? ==> b.held != c.held)
  }

  datatype Owner = SlotOwner | BootOwner(epoch: nat) | StopOwner(index: nat)

  predicate OwnedBy(s: State, o: Owner, c: nat) {
    match o
    case SlotOwner => s.slot == Some(c)
    case BootOwner(e) => e in s.boots && s.boots[e].held == Some(c)
    case StopOwner(k) => k < |s.stops| && s.stops[k].held == Some(c)
  }

  ghost predicate BootsOk(s: State) {
    && (forall e :: e in s.boots ==> BootOk(s, e, s.boots[e]))
    && (forall e, f :: e in s.boots && f in s.boots && e != f ==> PairOk(s.boots[e], e, s.boots[f], f))
  }

  /** Two `stop_all` calls share no child, and once one has emptied the slot the other holds none. */
  ghost predicate StopPairOk(b: Stop, c: Stop) {
    && (b.held.Some? ==> b.held != c.held)
    && (Taken(c.pc) ==> b.held == None)
  }

  ghost predicate StopsOk(s: State) {
    && (forall k :: 0 <= k < |s.stops| ==> StopOk(s, k, s.stops[k]))
    && (forall j, k :: 0 <= j < |s.stops| && 0 <= k < |s.stops| && j != k ==> StopPairOk(s.stops[j], s.stops[k]))
  }

  ghost predicate CrossesOk(s: State) {
    forall k, e :: 0 <= k < |s.stops| && e in s.boots ==> CrossOk(s.stops[k], s.boots[e], e)
  }

  ghost predicate Covered(s: State) {
    forall c :: c in s.live ==> exists o :: OwnedBy(s, o, c)
  }

  ghost predicate Inv(s: State) {
    Shared(s) && BootsOk(s) && StopsOk(s) && CrossesOk(s) && Covered(s)
  }

  // ---- steps of a boot thread ----------------------------------------------------------------

  /** Everything a step of boot `e` may do to the variables other threads can see. */
  ghost predicate Guarantee(s: State, t: State, e: nat)
    requires e in s.boots
  {
    var b := s.boots[e];
    && t.counter == s.counter && t.shuttingDown == s.shuttingDown && t.stops == s.stops
    && (|| t.holder == s.holder
        || (s.holder == None && t.holder == Some(BootThread(e)))
        || (s.holder == Some(BootThread(e)) && t.holder == None))
    && (t.slot == s.slot || (Checked(b.pc) && (t.slot == None || t.slot == Some(e))))
    && (|| t.machine == s.machine
        || (t.machine.epoch == s.machine.epoch == e)
        || (b.pc.MachineStart? && s.machine.epoch <= t.machine.epoch == e))
    && (|| (t.live == s.live && t.ended == s.ended)
        || (b.pc.Spawn? && t.live == s.live + {e} && t.ended == s.ended)
        || (b.held.Some? && t.live == s.live - {b.held.value} && t.ended == s.ended + {b.held.value}))
  }

  /** What a step may do to the thread's own program counter and local child, as seen by the others. */
  ghost predicate Move(s: State, e: nat, b: Boot, c: Boot) {
    && (Checked(c.pc) ==> Checked(b.pc) || (HoldsLock(b.pc) && s.counter == e))
    && (PastTake(c.pc) ==> PastTake(b.pc) || HoldsLock(b.pc))
    && (FlagChecked(c.pc) ==> FlagChecked(b.pc) || !s.shuttingDown)
    && (c.held.Some? ==> c.held == b.held || c.held == s.slot || (b.pc.Spawn? && c.held == Some(e)))
    && (b.pc == Critical(Entry, Lock) ==> c.pc == Critical(Entry, Flag))
    && (b.pc == Critical(Entry, Flag) && s.shuttingDown ==> c.pc.Returned?)
  }

  /** No live child drops out of sight: it stays in the slot or the local variable, or moves between them. */
  ghost predicate Transfer(s: State, t: State, e: nat, b: Boot, c: Boot) {
    && (s.slot.Some? ==> t.slot == s.slot || c.held == s.slot)
    && (b.held.Some? && b.held.value in t.live ==> t.slot == b.held || c.held == b.held)
    && (e in t.live && e !in s.live ==> c.held == Some(e))
  }

  ghost predicate StepOk(s: State, t: State, e: nat)
    requires e in s.boots
  {
    && e in t.boots
    && t.boots.Keys == s.boots.Keys
    && t.boots == s.boots[e := t.boots[e]]
    && Shared(t) && Guarantee(s, t, e) && Move(s, e, s.boots[e], t.boots[e])
    && Transfer(s, t, e, s.boots[e], t.boots[e])
  }

  lemma LockStepOk(s: State, e: nat, env: Env)
    requires Shared(s) && Enabled(s, StepBoot(e, env)) && BootOk(s, e, s.boots[e])
    requires s.boots[e].pc.Critical? && s.boots[e].pc.stage.Lock?
    ensures var t := StalenessStep(s, e); BootOk(t, e, t.boots[e]) && StepOk(s, t, e)
  {
  }

  lemma FlagLoadStepOk(s: State, e: nat, env: Env)
    requires Shared(s) && Enabled(s, StepBoot(e, env)) && BootOk(s, e, s.boots[e])
    requires s.boots[e].pc.Critical? && s.boots[e].pc.stage.Flag?
    ensures var t := StalenessStep(s, e); BootOk(t, e, t.boots[e]) && StepOk(s, t, e)
  {
  }

  lemma CounterLoadSelf(s: State, e: nat, env: Env)
    requires Shared(s) && Enabled(s, StepBoot(e, env)) && BootOk(s, e, s.boots[e])
    requires s.boots[e].pc.Critical? && s.boots[e].pc.stage.Counter?
    ensures var t := StalenessStep(s, e); BootOk(t, e, t.boots[e])
  {
  }

  lemma CounterLoadFrame(s: State, e: nat, env: Env)
    requires Shared(s) && Enabled(s, StepBoot(e, env)) && BootOk(s, e, s.boots[e])
    requires s.boots[e].pc.Critical? && s.boots[e].pc.stage.Counter?
    ensures var t := StalenessStep(s, e); StepOk(s, t, e)
  {
  }

  lemma SlotStepOk(s: State, e: nat, env: Env)
    requires Shared(s) && Enabled(s, StepBoot(e, env)) && BootOk(s, e, s.boots[e])
    requires s.boots[e].pc.Critical? && s.boots[e].pc.stage.Act?
    ensures var t := SlotStep(s, e); BootOk(t, e, t.boots[e]) && StepOk(s, t, e)
  {
  }

  lemma ShutStepOk(s: State, e: nat, env: Env)
    requires Shared(s) && Enabled(s, StepBoot(e, env)) && BootOk(s, e, s.boots[e])
    requires s.boots[e].pc.Shut?
    ensures var t := ShutStep(s, e, env); BootOk(t, e, t.boots[e]) && StepOk(s, t, e)
  {
  }

  lemma WatchSelf(s: State, e: nat, env: Env)
    requires Shared(s) && Enabled(s, StepBoot(e, env)) && BootOk(s, e, s.boots[e])
    requires InWatch(s.boots[e].pc)
    ensures var t := WatchStep(s, e, env); BootOk(t, e, t.boots[e])
  {
  }

  lemma WatchFrame(s: State, e: nat, env: Env)
    requires Shared(s) && Enabled(s, StepBoot(e, env)) && BootOk(s, e, s.boots[e])
    requires InWatch(s.boots[e].pc)
    ensures var t := WatchStep(s, e, env); StepOk(s, t, e)
  {
  }

  lemma ServerSelf(s: State, e: nat, env: Env)
    requires Shared(s) && Enabled(s, StepBoot(e, env)) && BootOk(s, e, s.boots[e])
    requires InServer(s.boots[e].pc)
    ensures var t := ServerStep(s, e, env); BootOk(t, e, t.boots[e])
  {
  }

  lemma ServerFrame(s: State, e: nat, env: Env)
    requires Shared(s) && Enabled(s, StepBoot(e, env)) && BootOk(s, e, s.boots[e])
    requires InServer(s.boots[e].pc)
    ensures var t := ServerStep(s, e, env); StepOk(s, t, e)
  {
  }

  lemma MachineSelf(s: State, e: nat, env: Env)
    requires Shared(s) && Enabled(s, StepBoot(e, env)) && BootOk(s, e, s.boots[e])
    requires s.boots[e].pc.MachineStart? || s.boots[e].pc.MachineRunning? || s.boots[e].pc.MachineFailed?
    ensures var t := MachineStep(s, e, env); BootOk(t, e, t.boots[e])
  {
    if s.boots[e].pc.MachineStart? {
      MachineStartSelf(s, e, env);
    } else {
      MachineMarkSelf(s, e, env);
    }
  }

  lemma MachineStartSelf(s: State, e: nat, env: Env)
    requires Shared(s) && Enabled(s, StepBoot(e, env)) && BootOk(s, e, s.boots[e])
    requires s.boots[e].pc.MachineStart?
    ensures var t := MachineStep(s, e, env); BootOk(t, e, t.boots[e])
  {
  }

  lemma MachineMarkSelf(s: State, e: nat, env: Env)
    requires Shared(s) && Enabled(s, StepBoot(e, env)) && BootOk(s, e, s.boots[e])
    requires s.boots[e].pc.MachineRunning? || s.boots[e].pc.MachineFailed?
    ensures var t := MachineStep(s, e, env); BootOk(t, e, t.boots[e])
  {
  }

  lemma MachineFrame(s: State, e: nat, env: Env)
    requires Shared(s) && Enabled(s, StepBoot(e, env)) && BootOk(s, e, s.boots[e])
    requires s.boots[e].pc.MachineStart? || s.boots[e].pc.MachineRunning? || s.boots[e].pc.MachineFailed?
    ensures var t := MachineStep(s, e, env); StepOk(s, t, e)
  {
  }


  /** A step of one thread keeps what another relies on. */
  lemma BootKeepsOther(s: State, t: State, e: nat, f: nat)
    requires e in s.boots && f in s.boots && e != f
    requires Shared(s) && BootOk(s, e, s.boots[e]) && BootOk(s, f, s.boots[f])
    requires PairOk(s.boots[e], e, s.boots[f], f) && PairOk(s.boots[f], f, s.boots[e], e)
    requires StepOk(s, t, e)
    ensures BootOk(t, f, t.boots[f])
    ensures PairOk(t.boots[e], e, t.boots[f], f) && PairOk(t.boots[f], f, t.boots[e], e)
  {
  }

  lemma BootKeepsStop(s: State, t: State, e: nat, k: nat)
    requires e in s.boots && k < |s.stops|
    requires Shared(s) && BootOk(s, e, s.boots[e]) && StopOk(s, k, s.stops[k]) && CrossOk(s.stops[k], s.boots[e], e)
    requires StepOk(s, t, e)
    ensures StopOk(t, k, t.stops[k]) && CrossOk(t.stops[k], t.boots[e], e)
  {
  }

  lemma BootStepOk(s: State, e: nat, env: Env)
    requires Shared(s) && Enabled(s, StepBoot(e, env)) && BootOk(s, e, s.boots[e])
    ensures var t := StepOfBoot(s, e, env); BootOk(t, e, t.boots[e]) && StepOk(s, t, e)
  {
    var pc := s.boots[e].pc;
    if pc.Critical? {
      match pc.stage
      case Lock => LockStepOk(s, e, env);
      case Flag => FlagLoadStepOk(s, e, env);
      case Counter => CounterLoadSelf(s, e, env); CounterLoadFrame(s, e, env);
      case Act => SlotStepOk(s, e, env);
    } else if pc.Shut? {
      ShutStepOk(s, e, env);
    } else if InWatch(pc) {
      WatchSelf(s, e, env); WatchFrame(s, e, env);
    } else if InServer(pc) {
      ServerSelf(s, e, env); ServerFrame(s, e, env);
    } else {
      MachineSelf(s, e, env); MachineFrame(s, e, env);
    }
  }

  /** A child live after a boot step has an owner again: the old one, or the thread that stepped, or the slot. */
  lemma BootStepOwner(s: State, t: State, e: nat, c: nat, o: Owner) returns (p: Owner)
    requires e in s.boots && StepOk(s, t, e)
    requires c in t.live && (c in s.live ==> OwnedBy(s, o, c))
    ensures OwnedBy(t, p, c)
  {
    if c !in s.live || (o == SlotOwner && t.slot != s.slot) {
      p := BootOwner(e);
    } else if o == BootOwner(e) && t.boots[e].held != Some(c) {
      p := SlotOwner;
    } else {
      p := o;
    }
  }

  lemma StepOkKeepsInv(s: State, t: State, e: nat)
    requires Inv(s) && e in s.boots
    requires StepOk(s, t, e) && BootOk(t, e, t.boots[e])
    ensures Inv(t)
  {
    forall f | f in t.boots && f != e
      ensures BootOk(t, f, t.boots[f])
      ensures PairOk(t.boots[e], e, t.boots[f], f) && PairOk(t.boots[f], f, t.boots[e], e)
    {
      BootKeepsOther(s, t, e, f);
    }
    assert BootsOk(t);
    forall k | 0 <= k < |t.stops|
      ensures StopOk(t, k, t.stops[k]) && CrossOk(t.stops[k], t.boots[e], e)
    {
      BootKeepsStop(s, t, e, k);
    }
    assert StopsOk(t) && CrossesOk(t);
    forall c | c in t.live
      ensures exists o :: OwnedBy(t, o, c)
    {
      var o :| c in s.live ==> OwnedBy(s, o, c);
      var p := BootStepOwner(s, t, e, c, o);
    }
  }

  // ---- steps of a stop_all call, and new calls -----------------------------------------------

  /** A step of call `k` leaves the boot threads and the other calls alone. */
  ghost predicate StopStepOk(s: State, t: State, k: nat)
    requires k < |s.stops|
  {
    && t.boots == s.boots && |t.stops| == |s.stops|
    && t.stops == s.stops[k := t.stops[k]]
    && t.live <= s.live
  }

  lemma StopSelf(s: State, k: nat)
    requires Shared(s) && Enabled(s, StepStop(k)) && StopOk(s, k, s.stops[k])
    ensures var t := StepOfStop(s, k);
            Shared(t) && StopStepOk(s, t, k) && StopOk(t, k, t.stops[k])
  {
  }

  lemma StopKeepsBoot(s: State, k: nat, e: nat)
    requires Enabled(s, StepStop(k)) && e in s.boots
    requires Shared(s) && StopOk(s, k, s.stops[k]) && BootOk(s, e, s.boots[e]) && CrossOk(s.stops[k], s.boots[e], e)
    ensures var t := StepOfStop(s, k);
            BootOk(t, e, t.boots[e]) && CrossOk(t.stops[k], t.boots[e], e)
  {
  }

  lemma StopKeepsOtherStop(s: State, k: nat, j: nat)
    requires Enabled(s, StepStop(k)) && j < |s.stops| && j != k
    requires Shared(s) && StopOk(s, k, s.stops[k]) && StopOk(s, j, s.stops[j])
    requires StopPairOk(s.stops[j], s.stops[k]) && StopPairOk(s.stops[k], s.stops[j])
    ensures var t := StepOfStop(s, k);
            StopOk(t, j, t.stops[j]) && StopPairOk(t.stops[j], t.stops[k]) && StopPairOk(t.stops[k], t.stops[j])
  {
  }

  lemma StopStepOwner(s: State, k: nat, c: nat, o: Owner) returns (p: Owner)
    requires Enabled(s, StepStop(k)) && StopOk(s, k, s.stops[k])
    requires OwnedBy(s, o, c) && c in StepOfStop(s, k).live
    ensures OwnedBy(StepOfStop(s, k), p, c)
  {
    p := if o == SlotOwner && s.stops[k].pc.StopTake? then StopOwner(k) else o;
  }

  lemma StopStepKeepsStops(s: State, k: nat)
    requires Shared(s) && StopsOk(s) && Enabled(s, StepStop(k))
    ensures StopsOk(StepOfStop(s, k))
  {
    var t := StepOfStop(s, k);
    StopSelf(s, k);
    forall j | 0 <= j < |t.stops| && j != k
      ensures StopOk(t, j, t.stops[j])
      ensures StopPairOk(t.stops[j], t.stops[k]) && StopPairOk(t.stops[k], t.stops[j])
    {
      StopKeepsOtherStop(s, k, j);
    }
  }

  lemma StopStepKeepsBoots(s: State, k: nat)
    requires Shared(s) && StopsOk(s) && BootsOk(s) && CrossesOk(s) && Enabled(s, StepStop(k))
    ensures BootsOk(StepOfStop(s, k)) && CrossesOk(StepOfStop(s, k))
  {
    var t := StepOfStop(s, k);
    StopSelf(s, k);
    forall e | e in t.boots
      ensures BootOk(t, e, t.boots[e]) && CrossOk(t.stops[k], t.boots[e], e)
    {
      StopKeepsBoot(s, k, e);
    }
  }

  lemma StopStepKeepsCover(s: State, k: nat)
    requires Shared(s) && StopsOk(s) && Covered(s) && Enabled(s, StepStop(k))
    ensures Covered(StepOfStop(s, k))
  {
    StopSelf(s, k);
    forall c | c in StepOfStop(s, k).live
      ensures exists o :: OwnedBy(StepOfStop(s, k), o, c)
    {
      var o :| OwnedBy(s, o, c);
      var p := StopStepOwner(s, k, c, o);
    }
  }

  /** A new call: a thread or a `stop_all` is added, and the counter may grow with it. */
  ghost predicate Grown(s: State, t: State) {
    && t == s.(counter := t.counter, boots := t.boots, stops := t.stops)
    && s.counter <= t.counter
    && s.stops <= t.stops
    && s.boots.Keys <= t.boots.Keys
    && (forall e :: e in s.boots ==> t.boots[e] == s.boots[e])
  }

  lemma CallKeepsCover(s: State, t: State)
    requires Covered(s) && Grown(s, t)
    ensures Covered(t)
  {
    forall c | c in t.live
      ensures exists o :: OwnedBy(t, o, c)
    {
      var o :| OwnedBy(s, o, c);
      assert OwnedBy(t, o, c);
    }
  }

  lemma CallKeepsBoot(s: State, t: State, e: nat)
    requires Grown(s, t) && e in s.boots && BootOk(s, e, s.boots[e])
    requires t.counter == s.counter || e < t.counter
    ensures BootOk(t, e, t.boots[e])
  {
  }

  lemma NewBootOk(s: State, t: State, project: string)
    requires Shared(s) && BootsOk(s) && StopsOk(s) && t == Apply(s, CallBoot(project))
    ensures Grown(s, t) && Shared(t) && BootOk(t, t.counter, t.boots[t.counter])
    ensures forall f :: f in s.boots ==>
              PairOk(t.boots[t.counter], t.counter, s.boots[f], f) && PairOk(s.boots[f], f, t.boots[t.counter], t.counter)
    ensures forall k :: 0 <= k < |s.stops| ==> CrossOk(s.stops[k], t.boots[t.counter], t.counter)
  {
    assert s.counter + 1 !in s.boots;
    assert s.holder != Some(BootThread(s.counter + 1));
  }

  lemma CallBootKeepsInv(s: State, t: State, project: string)
    requires Inv(s) && t == Apply(s, CallBoot(project))
    ensures Inv(t)
  {
    NewBootOk(s, t, project);
    forall e | e in s.boots
      ensures BootOk(t, e, t.boots[e])
    {
      CallKeepsBoot(s, t, e);
    }
    CallKeepsCover(s, t);
  }

  lemma CallStopKeepsStops(s: State, t: State)
    requires Shared(s) && StopsOk(s) && CrossesOk(s) && t == s.(stops := s.stops + [Stop(RaiseFlag, 0, None)])
    ensures StopsOk(t) && CrossesOk(t)
  {
    forall k | 0 <= k < |t.stops|
      ensures StopOk(t, k, t.stops[k])
    {
      assert k < |s.stops| ==> StopOk(s, k, s.stops[k]);
    }
  }

  lemma CallStopKeepsInv(s: State, t: State)
    requires Inv(s) && t == s.(stops := s.stops + [Stop(RaiseFlag, 0, None)])
    ensures Inv(t)
  {
    CallStopKeepsStops(s, t);
    forall e | e in s.boots
      ensures BootOk(t, e, t.boots[e])
    {
      CallKeepsBoot(s, t, e);
    }
    assert BootsOk(t);
    CallKeepsCover(s, t);
  }

  lemma StepKeepsInv(s: State, ev: Event)
    requires Inv(s)
    ensures Inv(Step(s, ev))
  {
    if Enabled(s, ev) {
      match ev
      case CallBoot(project) =>
        CallBootKeepsInv(s, Apply(s, ev), project);
      case CallStop =>
        CallStopKeepsInv(s, Apply(s, ev));
      case StepBoot(e, env) =>
        BootStepOk(s, e, env);
        StepOkKeepsInv(s, Apply(s, ev), e);
      case StepStop(k) =>
        StopSelf(s, k); StopStepKeepsStops(s, k); StopStepKeepsBoots(s, k); StopStepKeepsCover(s, k);
    }
  }

  /** The invariant holds after every schedule of boots, watchers and `stop_all` calls. */
  lemma {:induction false} RunKeepsInv(s: State, schedule: seq<Event>)
    requires Inv(s)
    ensures Inv(Run(s, schedule))
    decreases |schedule|
  {
    if schedule != [] {
      RunKeepsInv(s, schedule[..|schedule| - 1]);
      StepKeepsInv(Run(s, schedule[..|schedule| - 1]), schedule[|schedule| - 1]);
    }
  }
}
