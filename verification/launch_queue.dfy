/** The launch queue: a pure classification of Linear issues against the runs, and the effect of a dispatch. */
module LaunchQueue {
  import opened Wrappers
  import opened Sequences
  import Queue

  datatype Bucket = Backlog | Todo | Launchable | Waiting | Blocked | Active | NeedsHuman | InPr | Done

  datatype Blocker = Blocker(identifier: string, stateType: string)

  datatype Issue = Issue(
    id: string,
    identifier: string,
    stateType: string,
    stateName: string,
    priority: nat,
    parent: Option<string>,
    blockers: seq<Blocker>)

  datatype RunInput = RunInput(
    runId: nat,
    issueIdentifier: string,
    state: Queue.RunState,
    operatorBucket: Queue.OperatorQueue,
    reason: string)

  datatype Orchestration = Orchestration(maxActive: nat, approvalPriorities: seq<nat>, trigger: string)

  /** Why an issue sits where it does; the operator reads one sentence per case. */
  datatype Reason =
    | FromRun(text: string)
    | LinearStatus(name: string)
    | BlockedBy(blockers: seq<Blocker>)
    | ParentActive(parent: string, runId: nat)
    | NeedsApproval(priority: nat)
    | CapReached(active: nat, max: nat)
    | HasCapacity(active: nat, max: nat)

  datatype Verdict = Verdict(id: string, identifier: string, bucket: Bucket, reason: Reason, linkedRun: Option<nat>)

  datatype RunVerdict = RunVerdict(runId: nat, issueIdentifier: string, bucket: Bucket, reason: string)

  datatype Classification = Classification(issues: seq<Verdict>, runs: seq<RunVerdict>, current: nat, max: nat)

  const U32_MAX: nat := 0xFFFF_FFFF

  predicate IsDoneState(stateType: string) {
    stateType == "completed" || stateType == "canceled"
  }

  function MapBucket(bucket: Queue.OperatorQueue): Bucket {
    match bucket
    case Waiting => Active
    case Active => Active
    case InPr => InPr
    case Done => Done
    case NeedsHuman => NeedsHuman
    case BlockedByDependency => Blocked
  }

  predicate IsLiveRun(r: RunInput) {
    !Queue.IsTerminal(r.state)
  }

  predicate IsLiveFor(r: RunInput, identifier: string) {
    r.issueIdentifier == identifier && IsLiveRun(r)
  }

  function FindActive(runs: seq<RunInput>, identifier: string): Option<RunInput> {
    if runs == [] then None
    else if IsLiveFor(runs[0], identifier) then Some(runs[0])
    else FindActive(runs[1..], identifier)
  }

  function LiveCount(runs: seq<RunInput>): nat {
    if runs == [] then 0 else (if IsLiveRun(runs[0]) then 1 else 0) + LiveCount(runs[1..])
  }

  /** `active_run_count`: a 32-bit count that saturates. */
  function ActiveCount(runs: seq<RunInput>): nat {
    if LiveCount(runs) <= U32_MAX then LiveCount(runs) else U32_MAX
  }

  function GatingBlockers(blockers: seq<Blocker>): seq<Blocker> {
    if blockers == [] then []
    else (if IsDoneState(blockers[0].stateType) then [] else [blockers[0]]) + GatingBlockers(blockers[1..])
  }

  function ClassifyIssue(issue: Issue, runs: seq<RunInput>, o: Orchestration, active: nat): Verdict {
    match FindActive(runs, issue.identifier)
    case Some(run) =>
      Verdict(issue.id, issue.identifier, MapBucket(run.operatorBucket), FromRun(run.reason), Some(run.runId))
    case None =>
      var (bucket, reason) := ClassifyIdle(issue, runs, o, active);
      Verdict(issue.id, issue.identifier, bucket, reason, None)
  }

  /** The cascade for an issue without a live run: the first gate that applies wins. */
  function ClassifyIdle(issue: Issue, runs: seq<RunInput>, o: Orchestration, active: nat): (Bucket, Reason) {
    if IsDoneState(issue.stateType) then (Done, LinearStatus(issue.stateName))
    else if GatingBlockers(issue.blockers) != [] then (Blocked, BlockedBy(GatingBlockers(issue.blockers)))
    else if issue.parent.Some? && FindActive(runs, issue.parent.value).Some? then
      (Blocked, ParentActive(issue.parent.value, FindActive(runs, issue.parent.value).value.runId))
    else if issue.stateType != o.trigger then
      (if issue.stateType == "backlog" then Backlog else Todo, LinearStatus(issue.stateName))
    else if issue.priority in o.approvalPriorities then (Waiting, NeedsApproval(issue.priority))
    else if active >= o.maxActive then (Waiting, CapReached(active, o.maxActive))
    else (Launchable, HasCapacity(active, o.maxActive))
  }

  function Classified(issue: Issue, runs: seq<RunInput>, o: Orchestration): Verdict {
    ClassifyIssue(issue, runs, o, ActiveCount(runs))
  }

  function ClassifyRun(r: RunInput): RunVerdict {
    RunVerdict(r.runId, r.issueIdentifier, MapBucket(r.operatorBucket), r.reason)
  }

  function ClassifyLaunchQueue(issues: seq<Issue>, runs: seq<RunInput>, o: Orchestration): Classification {
    Classification(
      Map((issue: Issue) => Classified(issue, runs, o), issues), Map(ClassifyRun, runs), ActiveCount(runs), o.maxActive)
  }

  // ---- what each bucket means -------------------------------------------------------------------------

  ghost predicate HasLive(runs: seq<RunInput>, identifier: string) {
    exists r :: r in runs && r.issueIdentifier == identifier && r.state !in {Queue.Completed, Queue.Failed, Queue.Cancelled}
  }

  /** An unfinished blocker, or a parent that is being worked on. */
  ghost predicate Gated(issue: Issue, runs: seq<RunInput>) {
    || (exists b :: b in issue.blockers && b.stateType != "completed" && b.stateType != "canceled")
    || (issue.parent.Some? && HasLive(runs, issue.parent.value))
  }

  lemma {:induction false} GatingBlockersAre(blockers: seq<Blocker>, b: Blocker)
    ensures b in GatingBlockers(blockers) <==> b in blockers && !IsDoneState(b.stateType)
  {
    if blockers != [] {
      GatingBlockersAre(blockers[1..], b);
    }
  }

  lemma FindActiveExactly(runs: seq<RunInput>, identifier: string)
    ensures FindActive(runs, identifier).Some? <==> HasLive(runs, identifier)
  {
    FindActiveIs(runs, identifier);
  }

  lemma GatedExactly(issue: Issue, runs: seq<RunInput>)
    ensures Gated(issue, runs) <==>
            || GatingBlockers(issue.blockers) != []
            || (issue.parent.Some? && FindActive(runs, issue.parent.value).Some?)
  {
    var gating := GatingBlockers(issue.blockers);
    forall b
      ensures b in gating <==> b in issue.blockers && !IsDoneState(b.stateType)
    {
      GatingBlockersAre(issue.blockers, b);
    }
    if gating != [] {
      assert gating[0] in gating;
    }
    if issue.parent.Some? {
      FindActiveExactly(runs, issue.parent.value);
    }
  }

  /** The bucket of an issue without a live run, gate by gate and without reference to the order of the runs. */
  lemma BucketsExactly(issue: Issue, runs: seq<RunInput>, o: Orchestration)
    requires !HasLive(runs, issue.identifier)
    ensures var b := Classified(issue, runs, o).bucket;
            var over := issue.stateType == "completed" || issue.stateType == "canceled";
            var open := !over && !Gated(issue, runs);
            var ready := open && issue.stateType == o.trigger;
            var held := issue.priority in o.approvalPriorities || ActiveCount(runs) >= o.maxActive;
            && (b.Done? <==> over)
            && (b.Blocked? <==> !over && Gated(issue, runs))
            && (b.Backlog? <==> open && !ready && issue.stateType == "backlog")
            && (b.Todo? <==> open && !ready && issue.stateType != "backlog")
            && (b.Waiting? <==> ready && held)
            && (b.Launchable? <==> ready && !held)
            && Classified(issue, runs, o).linkedRun == None
  {
    FindActiveExactly(runs, issue.identifier);
    GatedExactly(issue, runs);
  }

  /** The blockers that gate, in their order. */
  lemma {:induction false} GatingInOrder(blockers: seq<Blocker>)
    ensures GatingBlockers(blockers) == Filter((b: Blocker) => b.stateType != "completed" && b.stateType != "canceled", blockers)
  {
    if blockers != [] {
      GatingInOrder(blockers[1..]);
    }
  }

  /** The reason of an issue without a live run, gate by gate. */
  lemma ReasonsExactly(issue: Issue, runs: seq<RunInput>, o: Orchestration)
    requires !HasLive(runs, issue.identifier)
    ensures var v := Classified(issue, runs, o);
            var gating := Filter((b: Blocker) => b.stateType != "completed" && b.stateType != "canceled", issue.blockers);
            var parent := if issue.parent.Some? then FindActive(runs, issue.parent.value) else None;
            && v.id == issue.id && v.identifier == issue.identifier
            && (v.bucket in {Bucket.Done, Backlog, Todo} ==> v.reason == LinearStatus(issue.stateName))
            && (v.bucket == Blocked && gating != [] ==> v.reason == BlockedBy(gating))
            && (v.bucket == Blocked && gating == [] ==>
                  parent.Some? && v.reason == ParentActive(issue.parent.value, parent.value.runId))
            && (v.bucket == Bucket.Waiting && issue.priority in o.approvalPriorities ==> v.reason == NeedsApproval(issue.priority))
            && (v.bucket == Bucket.Waiting && issue.priority !in o.approvalPriorities ==>
                  v.reason == CapReached(ActiveCount(runs), o.maxActive))
            && (v.bucket == Launchable ==> v.reason == HasCapacity(ActiveCount(runs), o.maxActive))
  {
    FindActiveExactly(runs, issue.identifier);
    GatingInOrder(issue.blockers);
  }

  /** A run's place on the board: queued and executing runs share the active column. */
  lemma RunBucketExactly(r: RunInput)
    ensures var v := ClassifyRun(r);
            && v.runId == r.runId && v.issueIdentifier == r.issueIdentifier && v.reason == r.reason
            && (v.bucket == Bucket.Active <==> r.operatorBucket == Queue.Waiting || r.operatorBucket == Queue.OperatorQueue.Active)
            && (v.bucket == Bucket.InPr <==> r.operatorBucket == Queue.OperatorQueue.InPr)
            && (v.bucket == Bucket.Done <==> r.operatorBucket == Queue.OperatorQueue.Done)
            && (v.bucket == Bucket.NeedsHuman <==> r.operatorBucket == Queue.OperatorQueue.NeedsHuman)
            && (v.bucket == Bucket.Blocked <==> r.operatorBucket == Queue.BlockedByDependency)
  {
    match r.operatorBucket
    case Waiting => case Active => case InPr => case Done => case NeedsHuman => case BlockedByDependency =>
  }

  /** The count of live runs, up to the greatest 32-bit number, and the states it leaves out. */
  lemma CapacityExactly(issues: seq<Issue>, runs: seq<RunInput>, o: Orchestration)
    ensures var c := ClassifyLaunchQueue(issues, runs, o);
            var live := |Filter((r: RunInput) => r.state !in {Queue.Completed, Queue.Failed, Queue.Cancelled}, runs)|;
            && c.current == (if live <= 4294967295 then live else 4294967295) && c.max == o.maxActive
            && |c.issues| == |issues| && |c.runs| == |runs|
            && (forall i :: 0 <= i < |issues| ==> c.issues[i] == Classified(issues[i], runs, o))
            && (forall i :: 0 <= i < |runs| ==> c.runs[i] == ClassifyRun(runs[i]))
  {
    LiveCountIsFilter(runs);
  }

  lemma {:induction false} LiveCountIsFilter(runs: seq<RunInput>)
    ensures LiveCount(runs) == |Filter((r: RunInput) => r.state !in {Queue.Completed, Queue.Failed, Queue.Cancelled}, runs)|
  {
    if runs != [] {
      LiveCountIsFilter(runs[1..]);
    }
  }

  // ---- order does not matter --------------------------------------------------------------------------

  /** Live runs of one issue say the same thing on the board. */
  ghost predicate Agree(runs: seq<RunInput>) {
    forall r, q :: r in runs && q in runs && IsLiveRun(r) && IsLiveRun(q) && r.issueIdentifier == q.issueIdentifier ==>
      ClassifyRun(r) == ClassifyRun(q)
  }

  ghost predicate AtMostOneLive(runs: seq<RunInput>) {
    forall i, j :: 0 <= i < j < |runs| && IsLiveRun(runs[i]) && IsLiveRun(runs[j]) ==>
      runs[i].issueIdentifier != runs[j].issueIdentifier
  }

  lemma OneLiveAgrees(runs: seq<RunInput>)
    requires AtMostOneLive(runs)
    ensures Agree(runs)
  {
  }

  lemma {:induction false} FindActiveIs(runs: seq<RunInput>, identifier: string)
    ensures match FindActive(runs, identifier)
            case Some(r) => r in runs && IsLiveFor(r, identifier)
            case None => forall r :: r in runs ==> !IsLiveFor(r, identifier)
  {
    if runs != [] {
      FindActiveIs(runs[1..], identifier);
    }
  }

  lemma FindUnderPermutation(a: seq<RunInput>, b: seq<RunInput>, identifier: string)
    requires multiset(a) == multiset(b) && Agree(a)
    ensures match (FindActive(a, identifier), FindActive(b, identifier))
            case (Some(r), Some(q)) => ClassifyRun(r) == ClassifyRun(q)
            case (None, None) => true
            case _ => false
  {
    FindActiveIs(a, identifier);
    FindActiveIs(b, identifier);
    forall r: RunInput
      ensures r in a <==> r in b
    {
      SameMembers(a, b, r);
    }
  }

  lemma {:induction false} LiveCountSplit(a: seq<RunInput>, b: seq<RunInput>)
    ensures LiveCount(a + b) == LiveCount(a) + LiveCount(b)
  {
    if a == [] {
      assert a + b == b;
    } else {
      LiveCountSplit(a[1..], b);
      assert (a + b)[1..] == a[1..] + b;
    }
  }

  lemma LiveCountWithout(runs: seq<RunInput>, i: nat)
    requires i < |runs|
    ensures LiveCount(runs) == LiveCount(Without(runs, i)) + if IsLiveRun(runs[i]) then 1 else 0
  {
    LiveCountSplit(runs[..i], runs[i..]);
    LiveCountSplit(runs[..i], runs[i + 1..]);
    assert runs == runs[..i] + runs[i..] && runs[i..][1..] == runs[i + 1..];
  }

  lemma {:induction false} LiveCountUnderPermutation(a: seq<RunInput>, b: seq<RunInput>)
    requires multiset(a) == multiset(b)
    ensures LiveCount(a) == LiveCount(b)
    decreases |a|
  {
    if a == [] {
      assert |multiset(b)| == 0;
    } else {
      var i := PullOut(a, b);
      LiveCountUnderPermutation(a[1..], Without(b, i));
      LiveCountWithout(b, i);
    }
  }

  /** If the live runs of each issue agree, no issue's verdict depends on the order of the runs. */
  lemma VerdictUnderPermutation(issue: Issue, a: seq<RunInput>, b: seq<RunInput>, o: Orchestration)
    requires multiset(a) == multiset(b) && Agree(a)
    ensures Classified(issue, a, o) == Classified(issue, b, o)
  {
    LiveCountUnderPermutation(a, b);
    FindUnderPermutation(a, b, issue.identifier);
    if issue.parent.Some? {
      FindUnderPermutation(a, b, issue.parent.value);
    }
  }

  function ToFront(runs: seq<RunInput>, i: nat): seq<RunInput>
    requires i < |runs|
  {
    [runs[i]] + runs[..i] + runs[i + 1..]
  }

  lemma ToFrontPermutes(runs: seq<RunInput>, i: nat)
    requires i < |runs|
    ensures multiset(ToFront(runs, i)) == multiset(runs)
  {
    assert runs == runs[..i] + [runs[i]] + runs[i + 1..];
  }

  /** The verdict of an issue whose live run is moved to the front is that run's. */
  lemma FrontRunDecides(runs: seq<RunInput>, i: nat, issue: Issue, o: Orchestration)
    requires i < |runs| && IsLiveRun(runs[i]) && issue.identifier == runs[i].issueIdentifier
    ensures var v := Classified(issue, ToFront(runs, i), o);
            && v.linkedRun == Some(runs[i].runId) && v.bucket == MapBucket(runs[i].operatorBucket)
            && v.reason == FromRun(runs[i].reason)
  {
    assert ToFront(runs, i)[0] == runs[i];
  }

  /** Exactly when the live runs of each issue agree, every issue's verdict is the same for every order of the runs. */
  lemma OrderIndependentIff(runs: seq<RunInput>, o: Orchestration)
    ensures Agree(runs) <==>
            forall issue, b :: multiset(b) == multiset(runs) ==> Classified(issue, b, o) == Classified(issue, runs, o)
  {
    if Agree(runs) {
      forall issue, b | multiset(b) == multiset(runs)
        ensures Classified(issue, b, o) == Classified(issue, runs, o)
      {
        VerdictUnderPermutation(issue, runs, b, o);
      }
    }
    if forall issue, b :: multiset(b) == multiset(runs) ==> Classified(issue, b, o) == Classified(issue, runs, o) {
      forall r, q | r in runs && q in runs && IsLiveRun(r) && IsLiveRun(q) && r.issueIdentifier == q.issueIdentifier
        ensures ClassifyRun(r) == ClassifyRun(q)
      {
        var i :| 0 <= i < |runs| && runs[i] == r;
        var j :| 0 <= j < |runs| && runs[j] == q;
        var issue := Issue("", r.issueIdentifier, "", "", 0, None, []);
        ToFrontPermutes(runs, i);
        ToFrontPermutes(runs, j);
        FrontRunDecides(runs, i, issue, o);
        FrontRunDecides(runs, j, issue, o);
      }
    }
  }

  /** Two live runs of one issue that disagree, and a board that changes when they change places. */
  lemma OrderMayMatter() returns (runs: seq<RunInput>, swapped: seq<RunInput>, issue: Issue, o: Orchestration)
    ensures multiset(swapped) == multiset(runs) && !Agree(runs)
    ensures Classified(issue, runs, o).bucket.Active? && Classified(issue, swapped, o).bucket.NeedsHuman?
  {
    var a := RunInput(1, "SUP-1", Queue.Coding, Queue.OperatorQueue.Active, "run in state coding");
    var b := RunInput(2, "SUP-1", Queue.WaitingHuman, Queue.OperatorQueue.NeedsHuman, "waiting on human");
    runs, swapped := [a, b], [b, a];
    issue := Issue("id", "SUP-1", "started", "In Progress", 0, None, []);
    o := Orchestration(3, [], "started");
    assert a in runs && b in runs && ClassifyRun(a) != ClassifyRun(b);
  }

  /** Permuting issues and runs permutes the board and changes nothing else. */
  lemma BoardUnderPermutation(issues: seq<Issue>, issues': seq<Issue>, runs: seq<RunInput>, runs': seq<RunInput>, o: Orchestration)
    requires multiset(issues) == multiset(issues') && multiset(runs) == multiset(runs') && Agree(runs)
    ensures var c, d := ClassifyLaunchQueue(issues, runs, o), ClassifyLaunchQueue(issues', runs', o);
            multiset(c.issues) == multiset(d.issues) && multiset(c.runs) == multiset(d.runs)
            && c.current == d.current && c.max == d.max
  {
    LiveCountUnderPermutation(runs, runs');
    MapUnderPermutation(ClassifyRun, runs, runs');
    var f := (issue: Issue) => Classified(issue, runs, o);
    var g := (issue: Issue) => Classified(issue, runs', o);
    MapUnderPermutation(f, issues, issues');
    forall issue: Issue
      ensures f(issue) == g(issue)
    {
      VerdictUnderPermutation(issue, runs, runs', o);
    }
    assert Map(f, issues') == Map(g, issues');
  }

  /** An issue with a live run shares that run's bucket, whichever of its live runs one looks at. */
  lemma SharesBucketWithRun(issue: Issue, runs: seq<RunInput>, o: Orchestration, r: RunInput)
    requires Agree(runs) && r in runs && IsLiveFor(r, issue.identifier)
    ensures var v := Classified(issue, runs, o);
            v.bucket == ClassifyRun(r).bucket && v.linkedRun == Some(r.runId) && v.reason == FromRun(r.reason)
  {
    FindActiveIs(runs, issue.identifier);
  }
}
