/** What dispatching launchable issues does to the launch queue, one dispatch after another. */
module Dispatch {
  import opened Wrappers
  import Queue
  import opened LaunchQueue

  /**
    The run a dispatch creates: queued, with nothing pending, hence in the operator queue's `Waiting`
    bucket.  Its place among the runs is whatever the storage listing makes it.
   */
  function NewRun(runId: nat, identifier: string): RunInput {
    RunInput(runId, identifier, Queue.Queued, Queue.OperatorQueue.Waiting, "queued")
  }

  /** The bucket is the operator queue's own for a fresh run. */
  lemma NewRunIsWaiting(run: Queue.Run)
    requires run.state.Queued?
    ensures Queue.Classify(Queue.QueueInputs(run, 0, 0, None, [])) == Some(NewRun(run.id, "").operatorBucket)
  {
  }

  function AddRun(runs: seq<RunInput>, r: RunInput, at: nat): seq<RunInput> {
    if at <= |runs| then runs[..at] + [r] + runs[at..] else runs + [r]
  }

  /** Only an issue the board shows as launchable is dispatched. */
  predicate CanDispatch(issue: Issue, runs: seq<RunInput>, o: Orchestration) {
    Classified(issue, runs, o).bucket.Launchable?
  }

  /** The cap is a 32-bit setting. */
  predicate CapFits(o: Orchestration) {
    o.maxActive <= U32_MAX
  }

  lemma AddRunSplits(runs: seq<RunInput>, r: RunInput, at: nat) returns (a: seq<RunInput>, b: seq<RunInput>)
    ensures runs == a + b && AddRun(runs, r, at) == a + [r] + b
  {
    if at <= |runs| {
      a, b := runs[..at], runs[at..];
    } else {
      a, b := runs, [];
    }
  }

  lemma AddRunCounts(runs: seq<RunInput>, r: RunInput, at: nat)
    requires IsLiveRun(r)
    ensures LiveCount(AddRun(runs, r, at)) == LiveCount(runs) + 1
  {
    var a, b := AddRunSplits(runs, r, at);
    LiveCountSplit(a + [r], b);
    LiveCountSplit(a, [r]);
    LiveCountSplit(a, b);
  }

  lemma {:induction false} FindInConcat(a: seq<RunInput>, b: seq<RunInput>, identifier: string)
    ensures FindActive(a + b, identifier) ==
            if FindActive(a, identifier).Some? then FindActive(a, identifier) else FindActive(b, identifier)
  {
    if a == [] {
      assert a + b == b;
    } else {
      FindInConcat(a[1..], b, identifier);
      assert (a + b)[1..] == a[1..] + b;
    }
  }

  lemma FindAfterAdd(runs: seq<RunInput>, r: RunInput, at: nat, identifier: string)
    requires IsLiveRun(r)
    requires r.issueIdentifier == identifier ==> FindActive(runs, identifier).None?
    ensures FindActive(AddRun(runs, r, at), identifier) ==
            if r.issueIdentifier == identifier then Some(r) else FindActive(runs, identifier)
  {
    var a, b := AddRunSplits(runs, r, at);
    FindInConcat(a, b, identifier);
    FindInConcat(a + [r], b, identifier);
    FindInConcat(a, [r], identifier);
  }

  /** A launchable issue has no live run, is not capped out, and no gate holds it. */
  lemma LaunchableMeans(issue: Issue, runs: seq<RunInput>, o: Orchestration)
    ensures CanDispatch(issue, runs, o) ==>
              FindActive(runs, issue.identifier).None? && ActiveCount(runs) < o.maxActive
  {
    FindActiveIs(runs, issue.identifier);
    if FindActive(runs, issue.identifier).Some? {
      assert !Classified(issue, runs, o).bucket.Launchable? by {
        var b := FindActive(runs, issue.identifier).value.operatorBucket;
        match b case Waiting => case Active => case InPr => case Done => case NeedsHuman => case BlockedByDependency =>
      }
    }
  }

  /** How the verdict on another issue may change when `d` is dispatched as run `runId`. */
  predicate Allowed(v: Verdict, w: Verdict, issue: Issue, d: string, runId: nat, active: nat, max: nat) {
    || w == v
    || (v.bucket.Launchable? && w == v.(bucket := Waiting, reason := CapReached(active, max)))
    || (v.bucket.Launchable? && w == v.(reason := HasCapacity(active, max)))
    || (v.reason.CapReached? && w == v.(reason := CapReached(active, max)))
    || (issue.parent == Some(d) && w == v.(bucket := Blocked, reason := ParentActive(d, runId)))
  }

  /** The dispatched issue becomes active and is linked to its run. */
  lemma DispatchedIsActive(issue: Issue, runs: seq<RunInput>, o: Orchestration, runId: nat, at: nat)
    requires CanDispatch(issue, runs, o)
    ensures var after := AddRun(runs, NewRun(runId, issue.identifier), at);
            Classified(issue, after, o) ==
            Verdict(issue.id, issue.identifier, Active, FromRun("queued"), Some(runId))
  {
    LaunchableMeans(issue, runs, o);
    FindAfterAdd(runs, NewRun(runId, issue.identifier), at, issue.identifier);
  }

  /** Every other issue keeps its verdict, or loses capacity, or is a child that becomes blocked; none becomes launchable. */
  lemma OthersAfterDispatch(d: Issue, other: Issue, runs: seq<RunInput>, o: Orchestration, runId: nat, at: nat)
    requires CanDispatch(d, runs, o) && other.identifier != d.identifier
    ensures var after := AddRun(runs, NewRun(runId, d.identifier), at);
            var v, w := Classified(other, runs, o), Classified(other, after, o);
            && Allowed(v, w, other, d.identifier, runId, ActiveCount(after), o.maxActive)
            && (w.bucket.Launchable? ==> v.bucket.Launchable?)
  {
    var r := NewRun(runId, d.identifier);
    LaunchableMeans(d, runs, o);
    AddRunCounts(runs, r, at);
    FindAfterAdd(runs, r, at, other.identifier);
    if other.parent.Some? {
      FindAfterAdd(runs, r, at, other.parent.value);
    }
  }

  // ---- any number of dispatches -----------------------------------------------------------------------

  datatype Click = Click(issue: Issue, runId: nat, at: nat)

  function After(runs: seq<RunInput>, click: Click, o: Orchestration): seq<RunInput> {
    if CanDispatch(click.issue, runs, o) then AddRun(runs, NewRun(click.runId, click.issue.identifier), click.at) else runs
  }

  function AfterAll(runs: seq<RunInput>, clicks: seq<Click>, o: Orchestration): seq<RunInput>
    decreases |clicks|
  {
    if clicks == [] then runs
    else After(AfterAll(runs, clicks[..|clicks| - 1], o), clicks[|clicks| - 1], o)
  }

  /** How many of the tries were dispatched. */
  function Dispatched(runs: seq<RunInput>, clicks: seq<Click>, o: Orchestration): nat
    decreases |clicks|
  {
    if clicks == [] then 0
    else
      var init := clicks[..|clicks| - 1];
      Dispatched(runs, init, o) + if CanDispatch(clicks[|clicks| - 1].issue, AfterAll(runs, init, o), o) then 1 else 0
  }

  lemma AddKeepsOneLive(runs: seq<RunInput>, r: RunInput, at: nat)
    requires AtMostOneLive(runs) && IsLiveRun(r) && FindActive(runs, r.issueIdentifier).None?
    ensures AtMostOneLive(AddRun(runs, r, at))
  {
    var a, b := AddRunSplits(runs, r, at);
    FindActiveIs(runs, r.issueIdentifier);
    var t := a + [r] + b;
    forall i, j | 0 <= i < j < |t| && IsLiveRun(t[i]) && IsLiveRun(t[j])
      ensures t[i].issueIdentifier != t[j].issueIdentifier
    {
      var k := |a|;
      assert i != k ==> t[i] == runs[if i < k then i else i - 1] && t[i] in runs;
      assert j != k ==> t[j] == runs[if j < k then j else j - 1] && t[j] in runs;
      assert forall q :: q in runs && IsLiveRun(q) ==> q.issueIdentifier != r.issueIdentifier by {
        assert forall q :: q in runs ==> !IsLiveFor(q, r.issueIdentifier);
      }
    }
  }

  /**
    However many dispatches are tried, on whatever issues: the live runs never exceed the cap (or what
    they were at the start), and each issue keeps at most one live run.
   */
  lemma {:induction false} CapHolds(runs: seq<RunInput>, clicks: seq<Click>, o: Orchestration)
    requires CapFits(o)
    ensures var end := AfterAll(runs, clicks, o);
            && LiveCount(end) == LiveCount(runs) + Dispatched(runs, clicks, o)
            && (LiveCount(end) <= o.maxActive || LiveCount(end) == LiveCount(runs))
            && (AtMostOneLive(runs) ==> AtMostOneLive(end))
    decreases |clicks|
  {
    if clicks != [] {
      var init, click := clicks[..|clicks| - 1], clicks[|clicks| - 1];
      CapHolds(runs, init, o);
      var before := AfterAll(runs, init, o);
      if CanDispatch(click.issue, before, o) {
        var r := NewRun(click.runId, click.issue.identifier);
        LaunchableMeans(click.issue, before, o);
        AddRunCounts(before, r, click.at);
        if AtMostOneLive(before) {
          AddKeepsOneLive(before, r, click.at);
        }
      }
    }
  }

  /** Once an issue has a live run, no later dispatch changes its verdict. */
  lemma {:induction false} RunningStays(issue: Issue, runs: seq<RunInput>, clicks: seq<Click>, o: Orchestration)
    requires FindActive(runs, issue.identifier).Some?
    ensures Classified(issue, AfterAll(runs, clicks, o), o) == Classified(issue, runs, o)
    ensures FindActive(AfterAll(runs, clicks, o), issue.identifier) == FindActive(runs, issue.identifier)
    decreases |clicks|
  {
    if clicks != [] {
      var init, click := clicks[..|clicks| - 1], clicks[|clicks| - 1];
      RunningStays(issue, runs, init, o);
      var before := AfterAll(runs, init, o);
      if CanDispatch(click.issue, before, o) {
        LaunchableMeans(click.issue, before, o);
        FindAfterAdd(before, NewRun(click.runId, click.issue.identifier), click.at, issue.identifier);
      }
    }
  }

  lemma DispatchOpensNothing(issue: Issue, runs: seq<RunInput>, click: Click, o: Orchestration)
    requires CanDispatch(issue, After(runs, click, o), o)
    ensures CanDispatch(issue, runs, o)
  {
    if CanDispatch(click.issue, runs, o) {
      if issue.identifier == click.issue.identifier {
        LaunchableMeans(click.issue, runs, o);
        FindAfterAdd(runs, NewRun(click.runId, click.issue.identifier), click.at, issue.identifier);
        LaunchableMeans(issue, After(runs, click, o), o);
      } else {
        OthersAfterDispatch(click.issue, issue, runs, o, click.runId, click.at);
      }
    }
  }

  /** No series of dispatches makes any issue launchable that was not launchable before. */
  lemma {:induction false} NothingOpensUp(issue: Issue, runs: seq<RunInput>, clicks: seq<Click>, o: Orchestration)
    requires CanDispatch(issue, AfterAll(runs, clicks, o), o)
    ensures CanDispatch(issue, runs, o)
    decreases |clicks|
  {
    if clicks != [] {
      var init := clicks[..|clicks| - 1];
      DispatchOpensNothing(issue, AfterAll(runs, init, o), clicks[|clicks| - 1], o);
      NothingOpensUp(issue, runs, init, o);
    }
  }
}
