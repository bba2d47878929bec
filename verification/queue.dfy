/** The operator queue: which bucket a run falls into, and which runs the board shows at all. */
module Queue {
  import opened Wrappers
  import opened Sequences
  import opened Sorting

  datatype RunState =
    | Queued | Preparing | Planning | Coding | RunningCommands | Reviewing | WaitingHuman | OpeningPr
    | Completed | Failed | Cancelled

  predicate IsTerminal(state: RunState) {
    state.Completed? || state.Failed? || state.Cancelled?
  }

  datatype OperatorQueue = Waiting | Active | InPr | Done | BlockedByDependency | NeedsHuman

  datatype PrState = PrOpen | PrDraft | PrMerged | PrClosed

  datatype SuspendReason = PendingHandoff(handoffId: nat) | AttentionRequested(attentionId: nat) | OtherReason(note: string)

  datatype OrchestrationOwner = Orchestrator | Operator(operatorId: string) | Suspended(reason: SuspendReason)

  datatype Run = Run(id: nat, state: RunState, updatedAt: int, finishedAt: Option<int>)

  datatype QueueInputs = QueueInputs(
    run: Run,
    pendingAttention: nat,
    pendingInterrupts: nat,
    pr: Option<PrState>,
    ownership: seq<OrchestrationOwner>)

  predicate HasPendingHandoff(ownership: seq<OrchestrationOwner>) {
    exists i :: 0 <= i < |ownership| && ownership[i].Suspended? && ownership[i].reason.PendingHandoff?
  }

  function Classify(q: QueueInputs): Option<OperatorQueue> {
    if q.run.state.Cancelled? then None
    else if q.run.state.Completed? then Some(Done)
    else if q.pendingAttention > 0 || q.pendingInterrupts > 0 || q.run.state.WaitingHuman? || q.run.state.Failed? then
      Some(NeedsHuman)
    else if HasPendingHandoff(q.ownership) then Some(BlockedByDependency)
    else if q.pr.Some? && (q.pr.value.PrOpen? || q.pr.value.PrDraft?) then Some(InPr)
    else if q.run.state.Queued? then Some(Waiting)
    else Some(Active)
  }

  /** A session of the run is suspended until a handoff is dealt with. */
  ghost predicate AwaitsHandoff(q: QueueInputs) {
    exists i, id :: 0 <= i < |q.ownership| && q.ownership[i] == Suspended(PendingHandoff(id))
  }

  /** The bucket of a run, signal by signal. */
  lemma ClassifiesExactly(q: QueueInputs)
    ensures var s, c := q.run.state, Classify(q);
            var over := s == Cancelled || s == Completed;
            var asks := q.pendingAttention > 0 || q.pendingInterrupts > 0 || s == RunState.WaitingHuman || s == RunState.Failed;
            var open := q.pr == Some(PrOpen) || q.pr == Some(PrDraft);
            && (c == None <==> s == Cancelled)
            && (c == Some(Done) <==> s == Completed)
            && (c == Some(NeedsHuman) <==> !over && asks)
            && (c == Some(BlockedByDependency) <==> !over && !asks && AwaitsHandoff(q))
            && (c == Some(InPr) <==> !over && !asks && !AwaitsHandoff(q) && open)
            && (c == Some(Waiting) <==> !over && !asks && !AwaitsHandoff(q) && !open && s == Queued)
            && (c == Some(Active) <==>
                  && !asks && !AwaitsHandoff(q) && !open
                  && s in {Preparing, Planning, Coding, RunningCommands, Reviewing, OpeningPr})
  {
    HandoffExactly(q);
    match q.run.state
    case Queued => case Preparing => case Planning => case Coding => case RunningCommands => case Reviewing =>
    case WaitingHuman => case OpeningPr => case Completed => case Failed => case Cancelled =>
  }

  lemma HandoffExactly(q: QueueInputs)
    ensures HasPendingHandoff(q.ownership) <==> AwaitsHandoff(q)
  {
    if i :| 0 <= i < |q.ownership| && q.ownership[i].Suspended? && q.ownership[i].reason.PendingHandoff? {
      assert q.ownership[i] == Suspended(PendingHandoff(q.ownership[i].reason.handoffId));
    }
  }

  lemma TerminalExactly(state: RunState)
    ensures IsTerminal(state) <==> state in {Completed, RunState.Failed, Cancelled}
  {
  }

  // ---- trim_for_queue ----------------------------------------------------------------------------------

  const DONE_COLUMN_LIMIT: nat := 15

  predicate IsLive(r: Run) {
    !r.state.Cancelled? && !r.state.Completed?
  }

  predicate IsCompleted(r: Run) {
    r.state.Completed?
  }

  function FinishTime(r: Run): int {
    if r.finishedAt.Some? then r.finishedAt.value else r.updatedAt
  }

  /** Newest first. */
  predicate NotOlder(a: Run, b: Run) {
    FinishTime(b) <= FinishTime(a)
  }

  /** The completed runs the board shows: the newest ones, stably sorted. */
  function Shown(runs: seq<Run>): seq<Run> {
    Take(StableSort(Filter(IsCompleted, runs), NotOlder), DONE_COLUMN_LIMIT)
  }

  function Trimmed(runs: seq<Run>): seq<Run> {
    Filter(IsLive, runs) + Shown(runs)
  }

  /** Drops cancelled runs, keeps live ones in order, and after them the most recently completed ones. */
  method TrimForQueue(runs: seq<Run>) returns (kept: seq<Run>)
    ensures kept == Trimmed(runs)
  {
    var live: seq<Run> := [];
    var completed: seq<Run> := [];
    for i := 0 to |runs|
      invariant live == Filter(IsLive, runs[..i]) && completed == Filter(IsCompleted, runs[..i])
    {
      assert runs[..i + 1] == runs[..i] + [runs[i]];
      FilterSnoc(IsLive, runs[..i], runs[i]);
      FilterSnoc(IsCompleted, runs[..i], runs[i]);
      if !runs[i].state.Cancelled? {
        if !runs[i].state.Completed? {
          live := live + [runs[i]];
        } else {
          completed := completed + [runs[i]];
        }
      }
    }
    assert runs[..|runs|] == runs;
    completed := StableSort(completed, NotOlder);
    if |completed| > DONE_COLUMN_LIMIT {
      completed := completed[..DONE_COLUMN_LIMIT];
    }
    kept := live + completed;
  }

  lemma SortedCompleted(runs: seq<Run>)
    ensures var c := Filter(IsCompleted, runs);
            var t := StableSort(c, NotOlder);
            StablySorted(c, t, NotOlder) && multiset(t) == multiset(c)
            && forall i :: 0 <= i < |t| ==> IsCompleted(t[i])
  {
    var c := Filter(IsCompleted, runs);
    var t := StableSort(c, NotOlder);
    assert TotalPreorder(NotOlder);
    StableSortSorts(c, NotOlder);
    forall i | 0 <= i < |t|
      ensures IsCompleted(t[i])
    {
      assert t[i] in multiset(t);
      FilterKeeps(IsCompleted, runs, t[i]);
    }
  }

  lemma ShownAreCompleted(runs: seq<Run>)
    ensures forall i :: 0 <= i < |Shown(runs)| ==> IsCompleted(Shown(runs)[i]) && Shown(runs)[i] in runs
  {
    SortedCompleted(runs);
    var sorted := StableSort(Filter(IsCompleted, runs), NotOlder);
    forall i | 0 <= i < |sorted|
      ensures IsCompleted(sorted[i]) && sorted[i] in runs
    {
      assert sorted[i] in multiset(sorted);
      FilterKeeps(IsCompleted, runs, sorted[i]);
    }
  }

  /**
    Every live run survives in its place, every cancelled run is gone, and behind the live runs stand the first
    min(15, n) completed ones of their newest-first order, ties in the order given.
   */
  lemma TrimKeepsExactly(runs: seq<Run>)
    ensures var kept := Trimmed(runs);
            var completed := Filter(IsCompleted, runs);
            && Filter(IsLive, kept) == Filter(IsLive, runs)
            && kept == Filter(IsLive, kept) + Filter(IsCompleted, kept)
            && (forall i :: 0 <= i < |kept| ==> kept[i] in runs && !kept[i].state.Cancelled?)
            && Sorted(Filter(IsCompleted, kept), NotOlder)
            && |Filter(IsCompleted, kept)| == (if |completed| <= 15 then |completed| else 15)
            && forall t :: StablySorted(completed, t, NotOlder) ==> Filter(IsCompleted, kept) <= t
  {
    KeptSplit(runs);
    SortedCompleted(runs);
    var completed := Filter(IsCompleted, runs);
    forall t | StablySorted(completed, t, NotOlder)
      ensures Shown(runs) <= t
    {
      StableSortIsUnique(completed, t, StableSort(completed, NotOlder), NotOlder);
    }
  }

  lemma KeptSplit(runs: seq<Run>)
    ensures var kept := Trimmed(runs);
            && Filter(IsLive, kept) == Filter(IsLive, runs)
            && (forall i :: 0 <= i < |kept| ==> kept[i] in runs && !kept[i].state.Cancelled?)
            && Filter(IsCompleted, kept) == Shown(runs)
  {
    var live, shown := Filter(IsLive, runs), Shown(runs);
    ShownAreCompleted(runs);
    forall i | 0 <= i < |live|
      ensures IsLive(live[i]) && live[i] in runs
    {
      FilterAll(IsLive, runs, i);
    }
    FilterAppend(IsLive, live, shown);
    FilterIdentity(IsLive, live);
    FilterNothing(IsLive, shown);
    FilterAppend(IsCompleted, live, shown);
    FilterNothing(IsCompleted, live);
    FilterIdentity(IsCompleted, shown);
  }

  /** The completed runs that are left out, occurrence by occurrence. */
  function Dropped(runs: seq<Run>): multiset<Run> {
    multiset(Filter(IsCompleted, runs)) - multiset(Filter(IsCompleted, Trimmed(runs)))
  }

  lemma TailDropped(runs: seq<Run>) returns (rest: seq<Run>)
    ensures StableSort(Filter(IsCompleted, runs), NotOlder) == Shown(runs) + rest
    ensures Dropped(runs) == multiset(rest)
    ensures multiset(Filter(IsCompleted, runs)) == multiset(Shown(runs)) + multiset(rest)
  {
    KeptSplit(runs);
    SortedCompleted(runs);
    var sorted := StableSort(Filter(IsCompleted, runs), NotOlder);
    rest := sorted[|Shown(runs)|..];
    MultisetCut(sorted, |Shown(runs)|);
    assert sorted[..|Shown(runs)|] == Shown(runs);
  }

  lemma SortedAcross(s: seq<Run>, t: seq<Run>, i: nat, r: Run)
    requires Sorted(s + t, NotOlder) && i < |s| && r in multiset(t)
    ensures NotOlder(s[i], r)
  {
    var j :| 0 <= j < |t| && t[j] == r;
    assert (s + t)[i] == s[i] && (s + t)[|s| + j] == r;
  }

  /** When a completed run was done: at its finish, or at its last update if it has none. */
  lemma FinishExactly(r: Run)
    ensures r.finishedAt.Some? ==> FinishTime(r) == r.finishedAt.value
    ensures r.finishedAt.None? ==> FinishTime(r) == r.updatedAt
    ensures IsCompleted(r) <==> r.state == Completed
    ensures IsLive(r) <==> r.state != Completed && r.state != Cancelled
  {
  }

  /** Kept and dropped completed runs are all of them, and none dropped is newer than one kept. */
  lemma NothingNewerDropped(runs: seq<Run>, i: nat, r: Run)
    ensures multiset(Filter(IsCompleted, Trimmed(runs))) + Dropped(runs) == multiset(Filter(IsCompleted, runs))
    ensures i < |Filter(IsCompleted, Trimmed(runs))| && r in Dropped(runs) ==>
              FinishTime(r) <= FinishTime(Filter(IsCompleted, Trimmed(runs))[i])
  {
    var rest := TailDropped(runs);
    KeptSplit(runs);
    SortedCompleted(runs);
    if i < |Shown(runs)| && r in Dropped(runs) {
      SortedAcross(Shown(runs), rest, i, r);
    }
  }

  lemma NoneCancelled(runs: seq<Run>, r: Run)
    requires r in Trimmed(runs)
    ensures !r.state.Cancelled?
  {
    KeptSplit(runs);
  }

  /** Every run that survives has a place on the board, whatever else is known about it. */
  lemma SurvivorsClassify(runs: seq<Run>, q: QueueInputs)
    requires q.run in Trimmed(runs)
    ensures Classify(q).Some? && (Classify(q) == Some(Done) <==> q.run.state.Completed?)
  {
    NoneCancelled(runs, q.run);
  }
}
