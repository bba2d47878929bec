/** Launch profiles and the step rows of a dynamic launch task. */
module LaunchTask {
  import opened Wrappers
  import opened Text
  import opened Sequences
  import opened Sorting
  import opened RoleRouter

  /** A value of an enumeration that is copied through without being looked at. */
  type Tag = nat

  datatype StepExecutor = CodexStructured | ClaudeWorkflow | ClaudeBackground | PtyExecutor | Future

  // ---- LaunchProfile::validate ----------------------------------------------------------------------------

  datatype ProfileStep = ProfileStep(ordering: nat, title: string, skillRef: string, enabled: bool)

  datatype LaunchProfile = LaunchProfile(id: string, name: string, steps: seq<ProfileStep>)

  datatype ProfileError = EmptyId | EmptyProfileName | RepeatedOrdering

  predicate IntLe(a: int, b: int) {
    a <= b
  }

  ghost predicate Distinct(s: seq<int>) {
    forall i, j :: 0 <= i < j < |s| ==> s[i] != s[j]
  }

  function Orderings(steps: seq<ProfileStep>): seq<int> {
    Map((s: ProfileStep) => s.ordering, steps)
  }

  /** `Vec::dedup`: drops every element equal to the one before it. */
  method Dedup(s: seq<int>) returns (t: seq<int>)
    requires Sorted(s, IntLe)
    ensures (forall x :: x in t <==> x in s) && forall i, j :: 0 <= i < j < |t| ==> t[i] < t[j]
    ensures |t| <= |s|
    ensures |t| == |s| <==> Distinct(s)
  {
    t := [];
    for i := 0 to |s|
      invariant |t| <= i && (|t| == 0 <==> i == 0)
      invariant i > 0 ==> t[|t| - 1] == s[i - 1]
      invariant (forall x :: x in t <==> x in s[..i]) && forall k, l :: 0 <= k < l < |t| ==> t[k] < t[l]
      invariant |t| == i <==> Distinct(s[..i])
    {
      assert s[..i + 1] == s[..i] + [s[i]];
      if t == [] || t[|t| - 1] != s[i] {
        t := t + [s[i]];
        if i > 0 {
          assert forall j :: 0 <= j < i ==> IntLe(s[j], s[i - 1]);
        }
      } else {
        assert s[..i + 1][i - 1] == s[..i + 1][i];
      }
    }
    assert s[..|s|] == s;
  }

  lemma DistinctOnce(s: seq<int>, i: nat)
    requires Distinct(s) && i < |s|
    ensures multiset(s)[s[i]] == 1
  {
    WithoutOne(s, i);
    assert s[i] !in Without(s, i);
    assert s[i] !in multiset(Without(s, i));
  }

  lemma RepeatedTwice(s: seq<int>, i: nat, j: nat)
    requires i < j < |s| && s[i] == s[j]
    ensures multiset(s)[s[i]] >= 2
  {
    WithoutOne(s, j);
    assert Without(s, j)[i] == s[i];
    assert s[i] in multiset(Without(s, j));
  }

  lemma DistinctTransfers(s: seq<int>, t: seq<int>)
    requires multiset(s) == multiset(t) && Distinct(s)
    ensures Distinct(t)
  {
    forall i, j | 0 <= i < j < |t|
      ensures t[i] != t[j]
    {
      if t[i] == t[j] {
        RepeatedTwice(t, i, j);
        SameMembers(s, t, t[i]);
        var k :| 0 <= k < |s| && s[k] == t[i];
        DistinctOnce(s, k);
      }
    }
  }

  lemma DistinctUnderPermutation(s: seq<int>, t: seq<int>)
    requires multiset(s) == multiset(t)
    ensures Distinct(s) <==> Distinct(t)
  {
    if Distinct(s) {
      DistinctTransfers(s, t);
    }
    if Distinct(t) {
      DistinctTransfers(t, s);
    }
  }

  /** Sorting, removing adjacent duplicates and comparing lengths accepts exactly the pairwise distinct orderings. */
  method ValidateProfile(profile: LaunchProfile) returns (r: Result<(), ProfileError>)
    ensures r.Ok? <==>
            && !IsBlank(profile.id) && !IsBlank(profile.name)
            && forall i, j :: 0 <= i < j < |profile.steps| ==> profile.steps[i].ordering != profile.steps[j].ordering
    ensures r == Err(EmptyId) <==> IsBlank(profile.id)
    ensures r == Err(EmptyProfileName) <==> !IsBlank(profile.id) && IsBlank(profile.name)
  {
    if IsBlank(profile.id) {
      return Err(EmptyId);
    }
    if IsBlank(profile.name) {
      return Err(EmptyProfileName);
    }
    assert forall i :: 0 <= i < |profile.steps| ==> Orderings(profile.steps)[i] == profile.steps[i].ordering;
    StableSortSorts(Orderings(profile.steps), IntLe);
    DistinctUnderPermutation(Orderings(profile.steps), StableSort(Orderings(profile.steps), IntLe));
    var orderings := StableSort(Orderings(profile.steps), IntLe);
    orderings := Dedup(orderings);
    if |orderings| != |profile.steps| {
      return Err(RepeatedOrdering);
    }
    return Ok(());
  }

  // ---- LaunchTask::new_dynamic -------------------------------------------------------------------------------

  datatype StepSnapshot = StepSnapshot(
    ordering: nat,
    title: string,
    skillRef: string,
    agentRef: Option<string>,
    skillSource: Tag,
    skillKind: Option<Tag>,
    stepKind: Tag,
    provider: AgentProvider,
    model: Option<string>,
    reasoning: Tag,
    executor: StepExecutor,
    sessionPolicy: Tag,
    outputExpectation: Tag,
    enabled: bool)

  datatype ProfileSnapshot = ProfileSnapshot(profileId: string, profileName: string, profileKind: Tag, steps: seq<StepSnapshot>)

  datatype StepStatus = Pending | Running | Completed | Failed | NeedsHuman | Skipped | Cancelled

  datatype TaskStep = TaskStep(
    taskId: nat,
    sequence: nat,
    stepKind: Tag,
    agentName: string,
    agentRef: Option<string>,
    provider: Option<string>,
    model: Option<string>,
    mode: Option<string>,
    title: Option<string>,
    skillSource: Option<Tag>,
    skillKind: Option<Tag>,
    reasoning: Option<Tag>,
    executor: Option<StepExecutor>,
    sessionPolicy: Option<Tag>,
    outputExpectation: Option<Tag>,
    enabled: bool,
    status: StepStatus,
    linkedRun: Option<nat>,
    linkedConversation: Option<nat>,
    linkedSession: Option<nat>,
    summary: Option<string>,
    structuredResult: Option<Tag>,
    failureClassification: Option<Tag>,
    autoResumeCount: nat,
    resumeKey: Option<string>,
    createdAt: int,
    updatedAt: int)

  datatype RecipeKind = PlanImplementReview | Dynamic

  datatype TaskStatus = Pending | Running | NeedsHuman | Completed | Failed | Cancelled

  datatype ReuseWorktree = ReuseWorktree(path: string, branch: string)

  datatype Task = Task(
    id: nat,
    linearIssueId: string,
    recipeKind: RecipeKind,
    status: TaskStatus,
    currentStep: Option<nat>,
    summary: Option<string>,
    baseBranch: Option<string>,
    useWorktree: Option<bool>,
    profileId: Option<string>,
    snapshot: Option<ProfileSnapshot>,
    reuseWorktree: Option<ReuseWorktree>,
    createdAt: int,
    updatedAt: int)

  /** A task that waits for its first step, with nothing overridden. */
  function NewTask(id: nat, now: int, linearIssueId: string, snapshot: ProfileSnapshot): Task {
    Task(id, linearIssueId, Dynamic, TaskStatus.Pending, None, None, None, None, Some(snapshot.profileId), Some(snapshot),
         None, now, now)
  }

  datatype TaskError = EmptyIssueId | NoEnabledStep

  function ProviderName(provider: AgentProvider): string {
    match provider case Claude => "claude" case Codex => "codex"
  }

  function ModeTag(mode: RunnerMode): string {
    match mode
    case InteractivePty => "interactive_pty"
    case PrintStreamJson => "print_stream_json"
    case ExecJson => "exec_json"
    case BackgroundSession => "background_session"
  }

  function ExecutorMode(executor: StepExecutor): Option<RunnerMode> {
    match executor
    case CodexStructured => Some(ExecJson)
    case ClaudeWorkflow => Some(PrintStreamJson)
    case ClaudeBackground => Some(BackgroundSession)
    case PtyExecutor => Some(InteractivePty)
    case Future => None
  }

  function StepRow(taskId: nat, now: int, s: StepSnapshot): TaskStep {
    var mode := if ExecutorMode(s.executor).Some? then Some(ModeTag(ExecutorMode(s.executor).value)) else None;
    TaskStep(
      taskId, s.ordering, s.stepKind, s.skillRef, s.agentRef, Some(ProviderName(s.provider)), s.model, mode,
      Some(s.title), Some(s.skillSource), s.skillKind, Some(s.reasoning), Some(s.executor), Some(s.sessionPolicy),
      Some(s.outputExpectation), s.enabled, StepStatus.Pending, None, None, None, None, None, None, 0, None, now, now)
  }

  predicate ByOrdering(a: StepSnapshot, b: StepSnapshot) {
    a.ordering <= b.ordering
  }

  /** Pending, for that issue, with the snapshot stored as it is and nothing overridden. */
  predicate IsNewTask(t: Task, taskId: nat, now: int, linearIssueId: string, snapshot: ProfileSnapshot) {
    && t.id == taskId && t.linearIssueId == linearIssueId && t.recipeKind == Dynamic && t.status == TaskStatus.Pending
    && t.profileId == Some(snapshot.profileId) && t.snapshot == Some(snapshot)
    && t.currentStep == None && t.summary == None && t.baseBranch == None && t.useWorktree == None
    && t.reuseWorktree == None && t.createdAt == now && t.updatedAt == now
  }

  /** Builds the task and its step rows; ids and the clock are inputs. */
  method NewDynamic(taskId: nat, now: int, linearIssueId: string, snapshot: ProfileSnapshot)
    returns (r: Result<(Task, seq<TaskStep>), TaskError>)
    ensures r == Err(EmptyIssueId) <==> IsBlank(linearIssueId)
    ensures r == Err(NoEnabledStep) <==>
            !IsBlank(linearIssueId) && forall i :: 0 <= i < |snapshot.steps| ==> !snapshot.steps[i].enabled
    ensures r.Ok? ==>
              && IsNewTask(r.value.0, taskId, now, linearIssueId, snapshot)
              && r.value.1 == Map(s => StepRow(taskId, now, s), StableSort(snapshot.steps, ByOrdering))
  {
    if IsBlank(linearIssueId) {
      return Err(EmptyIssueId);
    }
    if !exists i :: 0 <= i < |snapshot.steps| && snapshot.steps[i].enabled {
      return Err(NoEnabledStep);
    }
    var sorted := StableSort(snapshot.steps, ByOrdering);
    var steps: seq<TaskStep> := [];
    for i := 0 to |sorted|
      invariant |steps| == i
      invariant forall j :: 0 <= j < i ==> steps[j] == StepRow(taskId, now, sorted[j])
    {
      steps := steps + [StepRow(taskId, now, sorted[i])];
    }
    assert steps == Map(s => StepRow(taskId, now, s), sorted);
    return Ok((NewTask(taskId, now, linearIssueId, snapshot), steps));
  }

  /** The snapshot step a row was made from, read back out of the row. */
  function SnapshotOf(row: TaskStep): Option<StepSnapshot> {
    if row.provider.None? || row.title.None? || row.skillSource.None? || row.reasoning.None? || row.executor.None?
       || row.sessionPolicy.None? || row.outputExpectation.None? then None
    else
      Some(StepSnapshot(
             row.sequence, row.title.value, row.agentName, row.agentRef, row.skillSource.value, row.skillKind,
             row.stepKind, if row.provider.value == "claude" then Claude else Codex, row.model, row.reasoning.value,
             row.executor.value, row.sessionPolicy.value, row.outputExpectation.value, row.enabled))
  }

  /** The row has not run yet: pending, with no link, no result and no resume attempt. */
  predicate IsFresh(row: TaskStep) {
    && row.status == StepStatus.Pending && row.autoResumeCount == 0 && row.updatedAt == row.createdAt
    && row.linkedRun.None? && row.linkedConversation.None? && row.linkedSession.None? && row.summary.None?
    && row.structuredResult.None? && row.failureClassification.None? && row.resumeKey.None?
  }

  lemma RowKeepsStep(taskId: nat, now: int, s: StepSnapshot)
    ensures SnapshotOf(StepRow(taskId, now, s)) == Some(s) && IsFresh(StepRow(taskId, now, s))
  {
    assert "claude" != "codex" by { assert "claude"[1] != "codex"[1]; }
  }

  function RowsOf(taskId: nat, now: int, steps: seq<StepSnapshot>): seq<TaskStep> {
    Map(s => StepRow(taskId, now, s), StableSort(steps, ByOrdering))
  }

  function Wrap(s: StepSnapshot): Option<StepSnapshot> {
    Some(s)
  }

  /** The names a row stores for the provider and the runner mode of its step. */
  lemma RowTags(taskId: nat, now: int, s: StepSnapshot)
    ensures var row := StepRow(taskId, now, s);
            && row.provider == Some(if s.provider == Claude then "claude" else "codex")
            && (s.executor == CodexStructured ==> row.mode == Some("exec_json"))
            && (s.executor == ClaudeWorkflow ==> row.mode == Some("print_stream_json"))
            && (s.executor == ClaudeBackground ==> row.mode == Some("background_session"))
            && (s.executor == PtyExecutor ==> row.mode == Some("interactive_pty"))
            && (s.executor == Future ==> row.mode == None)
            && row.sequence == s.ordering && row.agentName == s.skillRef && row.agentRef == s.agentRef
            && row.model == s.model && row.title == Some(s.title) && row.enabled == s.enabled
            && row.stepKind == s.stepKind && row.skillKind == s.skillKind && row.skillSource == Some(s.skillSource)
            && row.reasoning == Some(s.reasoning) && row.executor == Some(s.executor)
            && row.sessionPolicy == Some(s.sessionPolicy) && row.outputExpectation == Some(s.outputExpectation)
  {
  }

  lemma RowReadsBack(taskId: nat, now: int, steps: seq<StepSnapshot>, i: nat)
    requires i < |steps|
    ensures var row := RowsOf(taskId, now, steps)[i];
            && SnapshotOf(row) == Wrap(StableSort(steps, ByOrdering)[i])
            && IsFresh(row) && row.taskId == taskId && row.createdAt == now
  {
    RowKeepsStep(taskId, now, StableSort(steps, ByOrdering)[i]);
  }

  lemma ReadBackSorted(taskId: nat, now: int, steps: seq<StepSnapshot>)
    ensures Map(SnapshotOf, RowsOf(taskId, now, steps)) == Map(Wrap, StableSort(steps, ByOrdering))
  {
    var back, sorted := Map(SnapshotOf, RowsOf(taskId, now, steps)), Map(Wrap, StableSort(steps, ByOrdering));
    forall i | 0 <= i < |back|
      ensures back[i] == sorted[i]
    {
      RowReadsBack(taskId, now, steps, i);
    }
  }

  /** Reading the rows back gives a permutation of the snapshot's steps: none lost, none altered. */
  lemma RowsPermuteSteps(taskId: nat, now: int, steps: seq<StepSnapshot>)
    ensures multiset(Map(SnapshotOf, RowsOf(taskId, now, steps))) == multiset(Map(Wrap, steps))
  {
    ReadBackSorted(taskId, now, steps);
    StableSortSorts(steps, ByOrdering);
    MapUnderPermutation(Wrap, StableSort(steps, ByOrdering), steps);
  }

  lemma SortedStrictly(s: seq<int>)
    requires Sorted(s, IntLe)
    ensures (forall i, j :: 0 <= i < j < |s| ==> s[i] < s[j]) <==> Distinct(s)
  {
    forall i, j | 0 <= i < j < |s|
      ensures s[i] < s[j] <==> s[i] != s[j]
    {
      assert IntLe(s[i], s[j]);
    }
  }

  function Sequence(row: TaskStep): int {
    row.sequence
  }

  function Ordering(s: StepSnapshot): int {
    s.ordering
  }

  lemma SortedOrderings(taskId: nat, now: int, steps: seq<StepSnapshot>)
    ensures var sequences := Map(Sequence, RowsOf(taskId, now, steps));
            Sorted(sequences, IntLe) && multiset(sequences) == multiset(Map(Ordering, steps))
  {
    var sorted := StableSort(steps, ByOrdering);
    var sequences := Map(Sequence, RowsOf(taskId, now, steps));
    StableSortSorts(steps, ByOrdering);
    assert sequences == Map(Ordering, sorted);
    MapUnderPermutation(Ordering, sorted, steps);
    forall i, j | 0 <= i < j < |sequences|
      ensures IntLe(sequences[i], sequences[j])
    {
      assert ByOrdering(sorted[i], sorted[j]);
    }
  }

  /** The rows come in increasing sequence, strictly so exactly when the orderings are pairwise distinct. */
  lemma RowsInSequence(taskId: nat, now: int, steps: seq<StepSnapshot>)
    ensures var sequences := Map(Sequence, RowsOf(taskId, now, steps));
            && Sorted(sequences, IntLe)
            && ((forall i, j :: 0 <= i < j < |sequences| ==> sequences[i] < sequences[j])
                <==> Distinct(Map(Ordering, steps)))
  {
    SortedOrderings(taskId, now, steps);
    SortedStrictly(Map(Sequence, RowsOf(taskId, now, steps)));
    DistinctUnderPermutation(Map(Sequence, RowsOf(taskId, now, steps)), Map(Ordering, steps));
  }
}
