/** What every interleaving of boots, crash watchers and `stop_all` calls keeps. */
module SupervisorSafety {
  import opened Wrappers
  import opened Lifecycle
  import opened Supervisor
  import opened SupervisorInvariant

  lemma Reachable(schedule: seq<Event>)
    ensures Inv(Run(INIT, schedule))
  {
    RunKeepsInv(INIT, schedule);
  }

  lemma OwnedIsLive(s: State, c: nat)
    requires Inv(s)
    ensures c in s.live <==> exists o :: OwnedBy(s, o, c)
  {
    forall o | OwnedBy(s, o, c)
      ensures c in s.live
    {
      match o
      case SlotOwner =>
      case BootOwner(e) => assert BootOk(s, e, s.boots[e]);
      case StopOwner(k) => assert StopOk(s, k, s.stops[k]);
    }
  }

  lemma OwnsAlone(s: State, c: nat, o: Owner, p: Owner)
    requires Inv(s) && OwnedBy(s, o, c) && o != p
    ensures !OwnedBy(s, p, c)
  {
    match o
    case SlotOwner =>
      assert p.BootOwner? && p.epoch in s.boots ==> BootOk(s, p.epoch, s.boots[p.epoch]);
      assert p.StopOwner? && p.index < |s.stops| ==> StopOk(s, p.index, s.stops[p.index]);
    case BootOwner(e) =>
      assert BootOk(s, e, s.boots[e]);
      assert p.BootOwner? && p.epoch in s.boots ==> PairOk(s.boots[e], e, s.boots[p.epoch], p.epoch);
      assert p.StopOwner? && p.index < |s.stops| ==> CrossOk(s.stops[p.index], s.boots[e], e);
    case StopOwner(k) =>
      assert StopOk(s, k, s.stops[k]);
      assert p.BootOwner? && p.epoch in s.boots ==> CrossOk(s.stops[k], s.boots[p.epoch], p.epoch);
      assert p.StopOwner? && p.index < |s.stops| ==> StopPairOk(s.stops[k], s.stops[p.index]);
  }

  /** A child is live exactly when someone owns it, and it never has two owners. */
  lemma OneOwner(schedule: seq<Event>, s: State, c: nat)
    requires s == Run(INIT, schedule)
    ensures (c in s.live <==> exists o :: OwnedBy(s, o, c))
            && (forall o, p :: OwnedBy(s, o, c) && OwnedBy(s, p, c) ==> o == p)
  {
    Reachable(schedule);
    OwnedIsLive(s, c);
    forall o, p | OwnedBy(s, o, c) && o != p
      ensures !OwnedBy(s, p, c)
    {
      OwnsAlone(s, c, o, p);
    }
  }

  /** A boot spawns under a name that no child has or had, and a child shut down stays so. */
  lemma SpawnIsFresh(schedule: seq<Event>, s: State, e: nat)
    requires s == Run(INIT, schedule)
    ensures s.live !! s.ended
            && (e in s.boots && s.boots[e].pc.Spawn? ==> e !in s.live && e !in s.ended)
  {
    Reachable(schedule);
    assert e in s.boots ==> BootOk(s, e, s.boots[e]);
  }

  lemma StepKeepsEnded(s: State, ev: Event)
    ensures s.ended <= Step(s, ev).ended
  {
  }

  /** A child that was shut down is never alive again, whatever happens later. */
  lemma {:induction false} EndedForGood(schedule: seq<Event>, more: seq<Event>)
    ensures Run(INIT, schedule).ended <= Run(INIT, schedule + more).ended
    ensures Run(INIT, schedule).ended !! Run(INIT, schedule + more).live
    decreases |more|
  {
    if more == [] {
      assert schedule + more == schedule;
    } else {
      var rest, ev := more[..|more| - 1], more[|more| - 1];
      EndedForGood(schedule, rest);
      assert schedule + more == (schedule + rest) + [ev];
      assert (schedule + more)[..|schedule + more| - 1] == schedule + rest;
      StepKeepsEnded(Run(INIT, schedule + rest), ev);
    }
    Reachable(schedule + more);
  }

  /** `store_server` never displaces a server: the slot is empty whenever a boot passed the check. */
  lemma NothingDisplaced(schedule: seq<Event>, s: State, e: nat)
    requires s == Run(INIT, schedule)
    requires e in s.boots
    requires s.boots[e].pc == Critical(Store, Act)
    ensures s.slot == None && s.boots[e].held == Some(e)
            && SlotStep(s, e).slot == Some(e) && SlotStep(s, e).boots[e].pc == WaitPort
  {
    Reachable(schedule);
    assert BootOk(s, e, s.boots[e]);
  }

  /** `take_server(e)`, when not stale, always yields a child, and always the one boot `e` stored. */
  lemma TakesItsOwn(schedule: seq<Event>, s: State, e: nat)
    requires s == Run(INIT, schedule)
    requires e in s.boots
    requires s.boots[e].pc == Critical(Reap, Act)
    ensures s.slot == Some(e)
  {
    Reachable(schedule);
    assert BootOk(s, e, s.boots[e]);
  }

  /** A boot's first critical section only ever takes over an older boot's child. */
  lemma TakesOverOlder(schedule: seq<Event>, s: State, e: nat)
    requires s == Run(INIT, schedule)
    requires e in s.boots
    requires s.boots[e].pc == Critical(Entry, Act)
    ensures s.slot.Some? ==> s.slot.value < e
  {
    Reachable(schedule);
    assert BootOk(s, e, s.boots[e]);
  }

  /** The server in the slot is always the one of the epoch the machine shows. */
  lemma SlotFollowsMachine(schedule: seq<Event>, s: State)
    requires s == Run(INIT, schedule)
    ensures s.slot.Some? ==> s.slot == Some(s.machine.epoch)
  {
    Reachable(schedule);
  }

  /** A machine that shows the newest boot as running has that boot's server, or is about to fail it. */
  lemma RunningIsServed(schedule: seq<Event>, s: State)
    requires s == Run(INIT, schedule)
    requires s.machine.phase.Running?
    requires s.machine.epoch == s.counter
    ensures var e := s.machine.epoch;
            && e in s.boots && s.machine.phase.projectId == s.boots[e].project
            && (s.slot == Some(e) || s.boots[e].pc == Shut(Reap) || s.boots[e].pc == MachineFailed)
  {
    Reachable(schedule);
    var b := s.boots[s.counter];
    assert BootOk(s, s.counter, b);
    if b.pc.Shut? {
      match b.pc.after
      case Entry =>
      case Store =>
      case Reap =>
    }
  }

  /**
    No silent exit: when the newest boot's thread is gone and no shutdown has begun, the machine
    shows that very boot as failed, and its server is gone.
   */
  lemma NoSilentExit(schedule: seq<Event>, s: State, e: nat)
    requires s == Run(INIT, schedule)
    requires e in s.boots && s.boots[e].pc.Returned?
    requires s.counter == e && !s.shuttingDown
    ensures s.machine.epoch == e
            && s.machine.phase.Failed? && s.machine.phase.projectId == s.boots[e].project
            && e !in s.live && s.slot == None
  {
    Reachable(schedule);
    assert BootOk(s, e, s.boots[e]);
  }

  /** A step of a boot older than the machine's epoch leaves the machine as it is, and none takes its epoch back. */
  lemma StepAndMachine(s: State, ev: Event)
    requires Inv(s)
    ensures s.machine.epoch <= Step(s, ev).machine.epoch
    ensures ev.StepBoot? && ev.epoch < s.machine.epoch ==> Step(s, ev).machine == s.machine
  {
    if ev.StepBoot? && Enabled(s, ev) {
      BootStepOk(s, ev.epoch, ev.env);
    }
  }

  /** The machine's epoch never goes back. */
  lemma {:induction false} MachineEpochGrows(schedule: seq<Event>, more: seq<Event>)
    ensures Run(INIT, schedule).machine.epoch <= Run(INIT, schedule + more).machine.epoch
    decreases |more|
  {
    if more == [] {
      assert schedule + more == schedule;
    } else {
      var rest := more[..|more| - 1];
      MachineEpochGrows(schedule, rest);
      Reachable(schedule + rest);
      StepAndMachine(Run(INIT, schedule + rest), more[|more| - 1]);
      assert (schedule + more)[..|schedule + more| - 1] == schedule + rest;
    }
  }

  lemma EpochGrowsAlong(schedule: seq<Event>, p: nat, i: nat)
    requires p <= i <= |schedule|
    ensures Run(INIT, schedule[..p]).machine.epoch <= Run(INIT, schedule[..i]).machine.epoch
  {
    MachineEpochGrows(schedule[..p], schedule[p..i]);
    assert schedule[..i] == schedule[..p] + schedule[p..i];
  }

  /**
    Once boot `f` has been accepted, no later step of an older boot changes the machine, whatever else happens
    in between.
   */
  lemma OldBootsChangeNothing(schedule: seq<Event>, p: nat, i: nat, f: nat)
    requires p <= i < |schedule| && f <= Run(INIT, schedule[..p]).machine.epoch
    requires schedule[i].StepBoot? && schedule[i].epoch < f
    ensures Run(INIT, schedule[..i + 1]).machine == Run(INIT, schedule[..i]).machine
  {
    EpochGrowsAlong(schedule, p, i);
    Reachable(schedule[..i]);
    RunTake(INIT, schedule, i);
    StepAndMachine(Run(INIT, schedule[..i]), schedule[i]);
  }
}
