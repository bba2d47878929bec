/** The recovery scheduler: staleness of runs, and the audit table it appends to. */
module Recovery {
  import opened Wrappers
  import opened Sequences
  import Queue

  /** Times and durations are counted in nanoseconds. */
  const SECOND: int := 1_000_000_000

  const MINUTE: int := 60 * SECOND

  datatype Candidate = Candidate(run: nat, state: Queue.RunState, updatedAt: int, lastHeartbeat: Option<int>)

  datatype StalledReason =
    | NeverDispatched(state: Queue.RunState, ageSecs: nat)
    | AwaitingHuman(ageSecs: nat)
    | NoHeartbeat(state: Queue.RunState, ageSecs: nat)

  datatype Status = Healthy | Stalled(since: int, reason: StalledReason)

  type Thresholds = map<Queue.RunState, nat>

  const DEFAULT_THRESHOLD: nat := 30 * MINUTE

  function DefaultThresholds(): Thresholds {
    map[
      Queue.Queued := 2 * MINUTE,
      Queue.Preparing := 5 * MINUTE,
      Queue.Planning := 10 * MINUTE,
      Queue.Coding := 5 * MINUTE,
      Queue.RunningCommands := 10 * MINUTE,
      Queue.Reviewing := 5 * MINUTE,
      Queue.OpeningPr := 5 * MINUTE,
      Queue.WaitingHuman := 30 * MINUTE
    ]
  }

  function ThresholdFor(thresholds: Thresholds, state: Queue.RunState): nat {
    if state in thresholds then thresholds[state] else DEFAULT_THRESHOLD
  }

  function NewestSignal(c: Candidate): int {
    if c.lastHeartbeat.Some? && c.lastHeartbeat.value >= c.updatedAt then c.lastHeartbeat.value else c.updatedAt
  }

  /** Whole seconds of a signed duration: `num_seconds` rounds toward zero. */
  function NumSeconds(duration: int): int {
    if duration >= 0 then duration / SECOND else -(-duration / SECOND)
  }

  function Classify(c: Candidate, now: int, thresholds: Thresholds): Status {
    if Queue.IsTerminal(c.state) then Healthy
    else
      var seconds := NumSeconds(now - NewestSignal(c));
      var age: nat := if seconds < 0 then 0 else seconds;
      if age <= ThresholdFor(thresholds, c.state) / SECOND then Healthy
      else
        Stalled(
          NewestSignal(c),
          if c.state.WaitingHuman? then AwaitingHuman(age)
          else if c.lastHeartbeat.None? then NeverDispatched(c.state, age)
          else NoHeartbeat(c.state, age))
  }

  // ---- When a run counts as stalled ----------------------------------------------------------------------

  /** The later of the last update and the last heartbeat. */
  predicate IsNewest(c: Candidate, newest: int) {
    match c.lastHeartbeat
    case None => newest == c.updatedAt
    case Some(beat) => beat <= newest && c.updatedAt <= newest && (newest == beat || newest == c.updatedAt)
  }

  /** The ceiling for a state: the configured one, or half an hour. */
  predicate IsCeiling(thresholds: Thresholds, state: Queue.RunState, ceiling: nat) {
    ceiling == if state in thresholds then thresholds[state] else 1_800_000_000_000
  }

  /**
    The whole verdict from the candidate, the clock and the ceiling: stalled from one whole second past the ceiling
    on, since the newest signal, for as many whole seconds, and for which reason.
   */
  lemma VerdictExactly(c: Candidate, now: int, thresholds: Thresholds, newest: int, ceiling: nat)
    requires IsNewest(c, newest) && IsCeiling(thresholds, c.state, ceiling)
    ensures var v := Classify(c, now, thresholds);
            var over := c.state in {Queue.Completed, Queue.Failed, Queue.Cancelled};
            && (v.Stalled? <==> !over && now - newest >= (ceiling / 1_000_000_000 + 1) * 1_000_000_000)
            && (v.Stalled? ==>
                  && v.since == newest
                  && v.reason.ageSecs * 1_000_000_000 <= now - newest < (v.reason.ageSecs + 1) * 1_000_000_000
                  && (v.reason.AwaitingHuman? <==> c.state == Queue.WaitingHuman)
                  && (v.reason.NeverDispatched? <==> c.state != Queue.WaitingHuman && c.lastHeartbeat == None)
                  && (v.reason.NoHeartbeat? <==> c.state != Queue.WaitingHuman && c.lastHeartbeat != None)
                  && (!v.reason.AwaitingHuman? ==> v.reason.state == c.state))
  {
    FlipsExactly(c, now, thresholds);
    var age := now - newest;
    assert age == age / SECOND * SECOND + age % SECOND;
  }

  /** The verdict flips exactly one whole second past the ceiling, measured from the newest signal. */
  lemma FlipsExactly(c: Candidate, now: int, thresholds: Thresholds)
    ensures Classify(c, now, thresholds).Stalled? <==>
            && !Queue.IsTerminal(c.state)
            && now >= NewestSignal(c) + (ThresholdFor(thresholds, c.state) / SECOND + 1) * SECOND
  {
    var age, limit := now - NewestSignal(c), ThresholdFor(thresholds, c.state) / SECOND;
    if age >= 0 {
      assert age == age / SECOND * SECOND + age % SECOND;
    }
  }

  /** Without a new signal a stalled run stays stalled, since the same moment and for the same kind of reason. */
  lemma StaysStalled(c: Candidate, now: int, later: int, thresholds: Thresholds)
    requires now <= later && Classify(c, now, thresholds).Stalled?
    ensures var was, still := Classify(c, now, thresholds), Classify(c, later, thresholds);
            && still.Stalled? && still.since == was.since && still.reason.ageSecs >= was.reason.ageSecs
            && still.reason == was.reason.(ageSecs := still.reason.ageSecs)
  {
    FlipsExactly(c, now, thresholds);
    FlipsExactly(c, later, thresholds);
    var age := now - NewestSignal(c);
    assert 0 <= age && age / SECOND <= (later - NewestSignal(c)) / SECOND;
  }

  /** "Older than the ceiling" is met up to rounding: only within the second after the ceiling is the run let off. */
  lemma CeilingRoundsToSeconds(c: Candidate, now: int, thresholds: Thresholds)
    requires !Queue.IsTerminal(c.state)
    ensures var age, ceiling := now - NewestSignal(c), ThresholdFor(thresholds, c.state);
            (Classify(c, now, thresholds).Stalled? <==> age > ceiling)
            <==> !(ceiling < age < (ceiling / SECOND + 1) * SECOND)
  {
    FlipsExactly(c, now, thresholds);
    var ceiling := ThresholdFor(thresholds, c.state);
    assert ceiling == ceiling / SECOND * SECOND + ceiling % SECOND;
  }

  /** The defaults in minutes. */
  lemma DefaultsExactly(state: Queue.RunState)
    ensures var minutes := if state == Queue.Queued then 2
                           else if state == Queue.Planning || state == Queue.RunningCommands then 10
                           else if state in {Queue.Preparing, Queue.Coding, Queue.Reviewing, Queue.OpeningPr} then 5
                           else 30;
            ThresholdFor(DefaultThresholds(), state) == minutes * 60 * 1_000_000_000
  {
    match state
    case Queued => case Preparing => case Planning => case Coding => case RunningCommands => case Reviewing =>
    case WaitingHuman => case OpeningPr => case Completed => case Failed => case Cancelled =>
  }

  /** Half a second over the ceiling of two minutes, and still healthy. */
  lemma OverdueButHealthy() returns (c: Candidate, now: int)
    ensures now - NewestSignal(c) > ThresholdFor(DefaultThresholds(), c.state)
    ensures !Queue.IsTerminal(c.state) && Classify(c, now, DefaultThresholds()).Healthy?
  {
    c, now := Candidate(1, Queue.Queued, 0, None), 2 * MINUTE + SECOND / 2;
  }

  /** The map covers exactly the live states, and the fallback is longer than every entry but the one for a human. */
  lemma DefaultsCoverLiveStates(state: Queue.RunState)
    ensures state in DefaultThresholds() <==> !Queue.IsTerminal(state)
    ensures ThresholdFor(DefaultThresholds(), state) <= DEFAULT_THRESHOLD
    ensures ThresholdFor(DefaultThresholds(), state) < DEFAULT_THRESHOLD
            <==> !Queue.IsTerminal(state) && state != Queue.WaitingHuman
  {
    match state
    case Queued => case Preparing => case Planning => case Coding => case RunningCommands => case Reviewing =>
    case WaitingHuman => case OpeningPr => case Completed => case Failed => case Cancelled =>
  }

  // ---- The audit table -----------------------------------------------------------------------------------

  datatype Kind = StalledRow | RecoveredRow

  datatype Row = Row(run: nat, kind: Kind, since: Option<int>, reason: Option<StalledReason>, detectedAt: int)

  datatype Action = EmitStalled(since: int, reason: StalledReason) | EmitRecovered | Skip

  function Decide(status: Status, latest: Option<Kind>): Action {
    match (status, latest)
    case (Stalled(since, reason), None) => EmitStalled(since, reason)
    case (Stalled(since, reason), Some(RecoveredRow)) => EmitStalled(since, reason)
    case (Healthy, Some(StalledRow)) => EmitRecovered
    case _ => Skip
  }

  /** The first row in order of detection time and then of row id, both descending; a row's place is its id. */
  function Latest(log: seq<Row>, run: nat): Option<Row> {
    if log == [] then None
    else
      var last, earlier := log[|log| - 1], Latest(log[..|log| - 1], run);
      if last.run == run && (earlier.None? || earlier.value.detectedAt <= last.detectedAt) then Some(last) else earlier
  }

  function LatestKind(log: seq<Row>, run: nat): Option<Kind> {
    if Latest(log, run).Some? then Some(Latest(log, run).value.kind) else None
  }

  /** The row the dashboard shows for a run that is stalled at the moment. */
  function CurrentStall(log: seq<Row>, run: nat): Option<Row> {
    if LatestKind(log, run) == Some(StalledRow) then Latest(log, run) else None
  }

  /** How the table answers while one candidate is looked at. */
  datatype Access = Works | ReadFails | InsertFails

  /** One candidate looked at during the tick of time `now`. */
  datatype Visit = Visit(now: int, candidate: Candidate, access: Access)

  /** The row the decision on a visit asks for. */
  function WantedRow(log: seq<Row>, v: Visit, thresholds: Thresholds): Option<Row> {
    match Decide(Classify(v.candidate, v.now, thresholds), LatestKind(log, v.candidate.run))
    case EmitStalled(since, reason) => Some(Row(v.candidate.run, StalledRow, Some(since), Some(reason), v.now))
    case EmitRecovered => Some(Row(v.candidate.run, RecoveredRow, None, None, v.now))
    case Skip => None
  }

  /** The table has a row with that run, kind and time: its natural key, which is unique. */
  predicate KeyTaken(log: seq<Row>, run: nat, kind: Kind, detectedAt: int) {
    exists i :: 0 <= i < |log| && log[i].run == run && log[i].kind == kind && log[i].detectedAt == detectedAt
  }

  /** Nothing fails at the visit: neither the table, nor the insert because its key is taken. */
  predicate Succeeds(log: seq<Row>, v: Visit, thresholds: Thresholds) {
    && v.access.Works?
    && var row := WantedRow(log, v, thresholds);
       row.Some? ==> !KeyTaken(log, row.value.run, row.value.kind, row.value.detectedAt)
  }

  /** The rows one visit adds: one or none. */
  function NewRows(log: seq<Row>, v: Visit, thresholds: Thresholds): seq<Row> {
    var row := WantedRow(log, v, thresholds);
    if row.Some? && Succeeds(log, v, thresholds) then [row.value] else []
  }

  /** The table after a series of visits. */
  function Audit(log: seq<Row>, visits: seq<Visit>, thresholds: Thresholds): seq<Row> {
    if visits == [] then log
    else
      var before := Audit(log, visits[..|visits| - 1], thresholds);
      before + NewRows(before, visits[|visits| - 1], thresholds)
  }

  lemma AuditTake(log: seq<Row>, visits: seq<Visit>, i: nat, thresholds: Thresholds)
    requires i < |visits|
    ensures var before := Audit(log, visits[..i], thresholds);
            Audit(log, visits[..i + 1], thresholds) == before + NewRows(before, visits[i], thresholds)
  {
    assert visits[..i + 1][..i] == visits[..i];
  }

  function VisitsOf(now: int, candidates: seq<(Candidate, Access)>): seq<Visit> {
    Map((c: (Candidate, Access)) => Visit(now, c.0, c.1), candidates)
  }

  /** What subscribers of the workspace are told about a row. */
  datatype Notice = RunStalled(run: nat, since: int, reason: StalledReason, detectedAt: int) | RunRecovered(run: nat, detectedAt: int)

  class Scheduler {
    var log: seq<Row>
    var notices: seq<Notice>
    const thresholds: Thresholds

    constructor (thresholds: Thresholds)
      ensures log == [] && notices == [] && this.thresholds == thresholds
    {
      log, notices, this.thresholds := [], [], thresholds;
    }

    /** Each candidate is read, judged and possibly recorded; a failing access skips that candidate only. */
    method Tick(now: int, candidates: seq<(Candidate, Access)>)
      modifies this
      ensures log == Audit(old(log), VisitsOf(now, candidates), thresholds)
      ensures Published(old(log), log, old(notices), notices)
    {
      var visits := VisitsOf(now, candidates);
      ghost var table, told := log, notices;
      for i := 0 to |candidates|
        invariant log == Audit(table, visits[..i], thresholds)
        invariant Published(table, log, told, notices)
      {
        AuditTake(table, visits, i, thresholds);
        PublishedMore(table, log, told, notices, NewRows(log, visits[i], thresholds));
        Look(visits[i]);
      }
      assert visits[..|candidates|] == visits;
    }

    /** The insert: refused when the table fails or has the key already. */
    method Insert(row: Row, access: Access) returns (done: bool)
      modifies this`log
      ensures done <==> access.Works? && !KeyTaken(old(log), row.run, row.kind, row.detectedAt)
      ensures log == if done then old(log) + [row] else old(log)
    {
      done := access.Works? && !KeyTaken(log, row.run, row.kind, row.detectedAt);
      if done {
        log := log + [row];
      }
    }

    method Look(v: Visit)
      modifies this
      ensures log == old(log) + NewRows(old(log), v, thresholds)
      ensures notices == old(notices) + Map(NoticeOf, NewRows(old(log), v, thresholds))
    {
      if v.access.ReadFails? {
        return;
      }
      var run := v.candidate.run;
      match Decide(Classify(v.candidate, v.now, thresholds), LatestKind(log, run))
      case EmitStalled(since, reason) =>
        var done := Insert(Row(run, StalledRow, Some(since), Some(reason), v.now), v.access);
        if done {
          notices := notices + [RunStalled(run, since, reason, v.now)];
        }
      case EmitRecovered =>
        var done := Insert(Row(run, RecoveredRow, None, None, v.now), v.access);
        if done {
          notices := notices + [RunRecovered(run, v.now)];
        }
      case Skip =>
    }
  }

  /** Exactly the rows added to the table were told, in order. */
  predicate Published(before: seq<Row>, after: seq<Row>, told: seq<Notice>, telling: seq<Notice>) {
    before <= after && telling == told + Map(NoticeOf, after[|before|..])
  }

  lemma PublishedMore(before: seq<Row>, after: seq<Row>, told: seq<Notice>, telling: seq<Notice>, rows: seq<Row>)
    requires Published(before, after, told, telling)
    ensures Published(before, after + rows, told, telling + Map(NoticeOf, rows))
  {
    DropOfAppend(after, rows, |before|);
    MapAppend(NoticeOf, after[|before|..], rows);
    ConcatAssociates(told, Map(NoticeOf, after[|before|..]), Map(NoticeOf, rows));
  }

  function NoticeOf(row: Row): Notice {
    if row.kind.StalledRow? && row.since.Some? && row.reason.Some? then
      RunStalled(row.run, row.since.value, row.reason.value, row.detectedAt)
    else RunRecovered(row.run, row.detectedAt)
  }

  /** A notice tells its row, field by field. */
  lemma NoticeTells(row: Row)
    ensures row.kind == StalledRow && row.since.Some? && row.reason.Some? ==>
              NoticeOf(row) == RunStalled(row.run, row.since.value, row.reason.value, row.detectedAt)
    ensures row.kind == RecoveredRow ==> NoticeOf(row) == RunRecovered(row.run, row.detectedAt)
  {
  }

  /** The row stands for a visit that worked, and tells what it found. */
  predicate RowOf(row: Row, v: Visit, thresholds: Thresholds) {
    && v.access == Works && row.run == v.candidate.run && row.detectedAt == v.now
    && match Classify(v.candidate, v.now, thresholds)
       case Healthy => row.kind == RecoveredRow && row.since == None && row.reason == None
       case Stalled(since, reason) => row.kind == StalledRow && row.since == Some(since) && row.reason == Some(reason)
  }

  /** Every row of the table stands for one of the visits. */
  lemma {:induction false} EveryRowHasItsVisit(visits: seq<Visit>, row: Row, thresholds: Thresholds) returns (i: nat)
    requires row in Audit([], visits, thresholds)
    ensures i < |visits| && RowOf(row, visits[i], thresholds)
  {
    var earlier, last := visits[..|visits| - 1], visits[|visits| - 1];
    var before := Audit([], earlier, thresholds);
    if row in before {
      i := EveryRowHasItsVisit(earlier, row, thresholds);
    } else {
      assert row in NewRows(before, last, thresholds);
      i := |visits| - 1;
    }
  }

  // ---- What the table says about each run ------------------------------------------------------------------

  function Kinds(log: seq<Row>, run: nat): seq<Kind> {
    if log == [] then []
    else
      var last := log[|log| - 1];
      Kinds(log[..|log| - 1], run) + if last.run == run then [last.kind] else []
  }

  /** Stalled, Recovered, Stalled, ... */
  predicate Alternates(kinds: seq<Kind>) {
    forall i :: 0 <= i < |kinds| ==> kinds[i] == if i % 2 == 0 then StalledRow else RecoveredRow
  }

  ghost predicate ClockRuns(visits: seq<Visit>) {
    forall i, j :: 0 <= i < j < |visits| ==> visits[i].now <= visits[j].now
  }

  ghost predicate InOrder(log: seq<Row>, now: int) {
    && (forall i, j :: 0 <= i < j < |log| ==> log[i].detectedAt <= log[j].detectedAt)
    && forall i :: 0 <= i < |log| ==> log[i].detectedAt <= now
  }

  function LastKind(kinds: seq<Kind>): Option<Kind> {
    if kinds == [] then None else Some(kinds[|kinds| - 1])
  }

  lemma {:induction false} LatestIsMember(log: seq<Row>, run: nat)
    ensures Latest(log, run).Some? ==> Latest(log, run).value in log && Latest(log, run).value.run == run
  {
    if log != [] {
      LatestIsMember(log[..|log| - 1], run);
    }
  }

  lemma {:induction false} LatestIsLast(log: seq<Row>, run: nat, now: int)
    requires InOrder(log, now)
    ensures LatestKind(log, run) == LastKind(Kinds(log, run))
  {
    if log != [] {
      LatestIsLast(log[..|log| - 1], run, now);
      LatestIsMember(log[..|log| - 1], run);
    }
  }

  lemma {:induction false} AuditInOrder(visits: seq<Visit>, thresholds: Thresholds, now: int)
    requires ClockRuns(visits) && forall i :: 0 <= i < |visits| ==> visits[i].now <= now
    ensures InOrder(Audit([], visits, thresholds), now)
  {
    if visits != [] {
      var last := visits[|visits| - 1];
      AuditInOrder(visits[..|visits| - 1], thresholds, last.now);
    }
  }

  function Opposite(kind: Option<Kind>): Kind {
    if kind == Some(StalledRow) then RecoveredRow else StalledRow
  }

  /** A new row says the opposite of the latest one, and its key was free. */
  lemma NewRowTurns(log: seq<Row>, v: Visit, thresholds: Thresholds)
    ensures var rows := NewRows(log, v, thresholds);
            || rows == []
            || (&& |rows| == 1 && rows[0].run == v.candidate.run && rows[0].detectedAt == v.now
                && rows[0].kind == Opposite(LatestKind(log, v.candidate.run))
                && !KeyTaken(log, v.candidate.run, rows[0].kind, v.now))
  {
  }

  lemma KindsSnoc(log: seq<Row>, row: Row, run: nat)
    ensures Kinds(log + [row], run) == if row.run == run then Kinds(log, run) + [row.kind] else Kinds(log, run)
    ensures row.run != run ==> Latest(log + [row], run) == Latest(log, run)
  {
    assert (log + [row])[..|log|] == log;
  }

  lemma LatestSnoc(log: seq<Row>, row: Row)
    ensures Latest(log + [row], row.run) ==
            if Latest(log, row.run).None? || Latest(log, row.run).value.detectedAt <= row.detectedAt then Some(row)
            else Latest(log, row.run)
    ensures KeyTaken(log + [row], row.run, row.kind, row.detectedAt)
  {
    assert (log + [row])[..|log|] == log;
    assert (log + [row])[|log|] == row;
  }

  lemma AlternatesSnoc(kinds: seq<Kind>, kind: Kind)
    requires Alternates(kinds) && kind == Opposite(LastKind(kinds))
    ensures Alternates(kinds + [kind])
  {
  }

  // ---- The rows alternate as far as the clock lets them ----------------------------------------------------

  /** Once the clock has stepped back it stands still. */
  ghost predicate StandsAfterStep(times: seq<int>) {
    forall i, j, k :: 0 <= i < j < k < |times| && times[i] > times[j] ==> times[k] == times[j]
  }

  ghost predicate ClockStands(visits: seq<Visit>) {
    forall i, j, k :: 0 <= i < j < k < |visits| && visits[i].now > visits[j].now ==> visits[k].now == visits[j].now
  }

  function TimeOf(v: Visit): int {
    v.now
  }

  /** The latest row is the one recorded last; or a row of the other kind already stands at the present time. */
  predicate Settled(log: seq<Row>, run: nat, now: int) {
    LatestKind(log, run) == LastKind(Kinds(log, run)) || KeyTaken(log, run, Opposite(LatestKind(log, run)), now)
  }

  /** One visit keeps the rows of a run alternating and settled. */
  lemma VisitKeepsAlternation(log: seq<Row>, v: Visit, run: nat, thresholds: Thresholds)
    requires Settled(log, run, v.now) && Alternates(Kinds(log, run))
    ensures var later := log + NewRows(log, v, thresholds);
            Settled(later, run, v.now) && Alternates(Kinds(later, run))
  {
    NewRowTurns(log, v, thresholds);
    var rows := NewRows(log, v, thresholds);
    if rows == [] {
      assert log + rows == log;
    } else {
      var row := rows[0];
      assert rows == [row];
      KindsSnoc(log, row, run);
      if v.candidate.run == run {
        AlternatesSnoc(Kinds(log, run), row.kind);
        LatestSnoc(log, row);
      } else if KeyTaken(log, run, Opposite(LatestKind(log, run)), v.now) {
        KeyStays(log, row, run, Opposite(LatestKind(log, run)), v.now);
      }
    }
  }

  lemma KeyStays(log: seq<Row>, row: Row, run: nat, kind: Kind, now: int)
    requires KeyTaken(log, run, kind, now)
    ensures KeyTaken(log + [row], run, kind, now)
  {
    var i :| 0 <= i < |log| && log[i].run == run && log[i].kind == kind && log[i].detectedAt == now;
    assert (log + [row])[i] == log[i];
  }

  /** As long as the clock ran, and from then on as long as it stands, the rows are settled for the next visit. */
  lemma SettledForNext(visits: seq<Visit>, now: int, run: nat, thresholds: Thresholds)
    requires !ClockRuns(visits) ==> now == visits[|visits| - 1].now
    requires visits != [] ==> Settled(Audit([], visits, thresholds), run, visits[|visits| - 1].now)
    ensures Settled(Audit([], visits, thresholds), run, now)
  {
    if ClockRuns(visits) {
      var last := if visits == [] then 0 else visits[|visits| - 1].now;
      AuditInOrder(visits, thresholds, last);
      LatestIsLast(Audit([], visits, thresholds), run, last);
    }
  }

  lemma StandsAtTheEnd(visits: seq<Visit>)
    requires visits != [] && ClockStands(visits) && !ClockRuns(visits[..|visits| - 1])
    ensures |visits| > 1 && visits[|visits| - 1].now == visits[|visits| - 2].now
  {
    var n := |visits| - 1;
    var i, j :| 0 <= i < j < n && visits[..n][i].now > visits[..n][j].now;
    assert visits[i].now > visits[j].now;
  }

  /** With a clock that stands still once it has stepped back, every run's rows alternate, starting with Stalled. */
  lemma {:induction false} RowsAlternate(visits: seq<Visit>, run: nat, thresholds: Thresholds)
    requires ClockStands(visits)
    ensures Alternates(Kinds(Audit([], visits, thresholds), run))
    ensures visits != [] ==> Settled(Audit([], visits, thresholds), run, visits[|visits| - 1].now)
  {
    if visits != [] {
      var earlier, last := visits[..|visits| - 1], visits[|visits| - 1];
      RowsAlternate(earlier, run, thresholds);
      if !ClockRuns(earlier) {
        StandsAtTheEnd(visits);
      }
      SettledForNext(earlier, last.now, run, thresholds);
      VisitKeepsAlternation(Audit([], earlier, thresholds), last, run, thresholds);
    }
  }

  // ---- The dashboard agrees with the last visit as far as the clock lets it -------------------------------

  /** Whether the last visit to the run at which nothing failed found it stalled. */
  function LastSeenStalled(visits: seq<Visit>, run: nat, thresholds: Thresholds): bool {
    if visits == [] then false
    else
      var earlier, last := visits[..|visits| - 1], visits[|visits| - 1];
      if last.candidate.run == run && Succeeds(Audit([], earlier, thresholds), last, thresholds) then
        Classify(last.candidate, last.now, thresholds).Stalled?
      else LastSeenStalled(earlier, run, thresholds)
  }

  /** After a visit at which nothing fails, the run's last row says what the visit found. */
  lemma VisitSettles(log: seq<Row>, v: Visit, thresholds: Thresholds)
    requires LatestKind(log, v.candidate.run) == LastKind(Kinds(log, v.candidate.run)) && Succeeds(log, v, thresholds)
    ensures LastKind(Kinds(log + NewRows(log, v, thresholds), v.candidate.run)) == Some(StalledRow)
            <==> Classify(v.candidate, v.now, thresholds).Stalled?
  {
    var rows := NewRows(log, v, thresholds);
    if rows == [] {
      assert log + rows == log;
    } else {
      KindsSnoc(log, rows[0], v.candidate.run);
      assert rows == [rows[0]];
    }
  }

  lemma VisitElsewhere(log: seq<Row>, v: Visit, run: nat, thresholds: Thresholds)
    requires run != v.candidate.run || !Succeeds(log, v, thresholds)
    ensures Kinds(log + NewRows(log, v, thresholds), run) == Kinds(log, run)
  {
    NewRowTurns(log, v, thresholds);
    var rows := NewRows(log, v, thresholds);
    if rows == [] {
      assert log + rows == log;
    } else {
      KindsSnoc(log, rows[0], run);
      assert rows == [rows[0]];
    }
  }

  lemma {:induction false} LastRowIsLastSeen(visits: seq<Visit>, run: nat, thresholds: Thresholds)
    requires ClockRuns(visits)
    ensures LastKind(Kinds(Audit([], visits, thresholds), run)) == Some(StalledRow)
            <==> LastSeenStalled(visits, run, thresholds)
  {
    if visits != [] {
      var earlier, last := visits[..|visits| - 1], visits[|visits| - 1];
      var before := Audit([], earlier, thresholds);
      LastRowIsLastSeen(earlier, run, thresholds);
      AuditInOrder(earlier, thresholds, last.now);
      LatestIsLast(before, run, last.now);
      if last.candidate.run == run && Succeeds(before, last, thresholds) {
        VisitSettles(before, last, thresholds);
      } else {
        VisitElsewhere(before, last, run, thresholds);
      }
    }
  }

  /** With an ordered clock the current stall is shown exactly when the last successful visit found the run stalled. */
  lemma CurrentStallIsLastSeen(visits: seq<Visit>, run: nat, thresholds: Thresholds)
    requires ClockRuns(visits)
    ensures CurrentStall(Audit([], visits, thresholds), run).Some? <==> LastSeenStalled(visits, run, thresholds)
  {
    var now := if visits == [] then 0 else visits[|visits| - 1].now;
    AuditInOrder(visits, thresholds, now);
    LatestIsLast(Audit([], visits, thresholds), run, now);
    LastRowIsLastSeen(visits, run, thresholds);
  }

  // ---- and no further ----------------------------------------------------------------------------------------

  /** Whatever the visits of these times find, every run's rows alternate. */
  ghost predicate AlwaysAlternates(times: seq<int>, thresholds: Thresholds) {
    forall visits: seq<Visit>, run: nat :: Map(TimeOf, visits) == times ==>
      Alternates(Kinds(Audit([], visits, thresholds), run))
  }

  /** Whatever the visits of these times find, the dashboard agrees with the last successful one of each run. */
  ghost predicate AlwaysAgrees(times: seq<int>, thresholds: Thresholds) {
    forall visits: seq<Visit>, run: nat :: Map(TimeOf, visits) == times ==>
      (CurrentStall(Audit([], visits, thresholds), run).Some? <==> LastSeenStalled(visits, run, thresholds))
  }

  /** A visit that finds run 0 stalled, or healthy, at a time of one's choice. */
  function Finding(now: int, stalled: bool, access: Access, thresholds: Thresholds): Visit {
    var updatedAt := if stalled then now - (ThresholdFor(thresholds, Queue.Queued) / SECOND + 1) * SECOND else now;
    Visit(now, Candidate(0, Queue.Queued, updatedAt, None), access)
  }

  lemma FoundAsAsked(now: int, stalled: bool, access: Access, thresholds: Thresholds)
    ensures var v := Finding(now, stalled, access, thresholds);
            (Classify(v.candidate, now, thresholds).Stalled? <==> stalled) && v.candidate.run == 0 && v.now == now
  {
    FlipsExactly(Finding(now, stalled, access, thresholds).candidate, now, thresholds);
  }

  /** Run 0 is stalled at visit `i` and healthy at `j` and `k`; the others fail. */
  ghost predicate Staged(visits: seq<Visit>, times: seq<int>, i: nat, j: nat, k: nat, thresholds: Thresholds) {
    && i < |visits| && j < |visits| && k < |visits| && |visits| == |times|
    && visits[i] == Finding(times[i], true, Works, thresholds)
    && visits[j] == Finding(times[j], false, Works, thresholds)
    && visits[k] == Finding(times[k], false, Works, thresholds)
    && forall n :: 0 <= n < |visits| && n != i && n != j && n != k ==> !visits[n].access.Works?
  }

  lemma StepBack(times: seq<int>, i: nat, j: nat, k: nat, thresholds: Thresholds) returns (visits: seq<Visit>)
    requires i < j <= k < |times|
    ensures Staged(visits, times, i, j, k, thresholds) && Map(TimeOf, visits) == times
  {
    visits := seq(|times|, n requires 0 <= n < |times| =>
      Finding(times[n], n == i, if n == i || n == j || n == k then Works else ReadFails, thresholds));
    forall n | 0 <= n < |times|
      ensures TimeOf(visits[n]) == times[n]
    {
      FoundAsAsked(times[n], n == i, visits[n].access, thresholds);
    }
  }

  /** A stretch of visits that fail changes nothing. */
  lemma {:induction false} Idle(visits: seq<Visit>, a: nat, b: nat, run: nat, thresholds: Thresholds)
    requires a <= b <= |visits| && forall n :: a <= n < b ==> !visits[n].access.Works?
    ensures Audit([], visits[..b], thresholds) == Audit([], visits[..a], thresholds)
    ensures LastSeenStalled(visits[..b], run, thresholds) == LastSeenStalled(visits[..a], run, thresholds)
  {
    if a < b {
      Idle(visits, a, b - 1, run, thresholds);
      assert visits[..b][..b - 1] == visits[..b - 1] && visits[..b][b - 1] == visits[b - 1];
    }
  }

  lemma SeenTake(visits: seq<Visit>, n: nat, thresholds: Thresholds)
    requires n < |visits|
    ensures LastSeenStalled(visits[..n + 1], 0, thresholds) ==
            if visits[n].candidate.run == 0 && Succeeds(Audit([], visits[..n], thresholds), visits[n], thresholds)
            then Classify(visits[n].candidate, visits[n].now, thresholds).Stalled?
            else LastSeenStalled(visits[..n], 0, thresholds)
  {
    assert visits[..n + 1][..n] == visits[..n];
  }

  /** The first finding is recorded as a stall. */
  lemma Stalls(v: Visit, now: int, thresholds: Thresholds) returns (stall: Row)
    requires v == Finding(now, true, Works, thresholds)
    ensures NewRows([], v, thresholds) == [stall] && stall.run == 0 && stall.kind == StalledRow && stall.detectedAt == now
    ensures Kinds([stall], 0) == [StalledRow] && Latest([stall], 0) == Some(stall)
  {
    FoundAsAsked(now, true, Works, thresholds);
    stall := WantedRow([], v, thresholds).value;
    KindsSnoc([], stall, 0);
    LatestSnoc([], stall);
    assert [] + [stall] == [stall];
  }

  /** While run 0's latest row is a stall, a healthy finding at a free key records a recovery. */
  lemma Recovers(log: seq<Row>, stall: Row, v: Visit, now: int, thresholds: Thresholds)
    requires Latest(log, 0) == Some(stall) && stall.kind == StalledRow && v == Finding(now, false, Works, thresholds)
    requires !KeyTaken(log, 0, RecoveredRow, now)
    ensures Succeeds(log, v, thresholds)
    ensures NewRows(log, v, thresholds) == [Row(0, RecoveredRow, None, None, now)]
    ensures var later := log + NewRows(log, v, thresholds);
            && Kinds(later, 0) == Kinds(log, 0) + [RecoveredRow]
            && (now < stall.detectedAt ==> Latest(later, 0) == Some(stall))
  {
    FoundAsAsked(now, false, Works, thresholds);
    KindsSnoc(log, Row(0, RecoveredRow, None, None, now), 0);
    LatestSnoc(log, Row(0, RecoveredRow, None, None, now));
  }

  /** At the stall. */
  lemma StallStands(visits: seq<Visit>, times: seq<int>, i: nat, j: nat, k: nat, thresholds: Thresholds) returns (stall: Row)
    requires i < j <= k && Staged(visits, times, i, j, k, thresholds)
    ensures Audit([], visits[..j], thresholds) == [stall]
    ensures stall.run == 0 && stall.kind == StalledRow && stall.detectedAt == times[i]
    ensures Kinds([stall], 0) == [StalledRow] && Latest([stall], 0) == Some(stall)
  {
    Idle(visits, 0, i, 0, thresholds);
    AuditTake([], visits, i, thresholds);
    stall := Stalls(visits[i], times[i], thresholds);
    assert Audit([], visits[..i + 1], thresholds) == [stall];
    Idle(visits, i + 1, j, 0, thresholds);
  }

  /** At the step back: Stalled, Recovered, and the stall is still read back as the latest row. */
  lemma StepBackHides(visits: seq<Visit>, times: seq<int>, i: nat, j: nat, k: nat, thresholds: Thresholds)
    returns (log: seq<Row>, stall: Row)
    requires i < j <= k && Staged(visits, times, i, j, k, thresholds) && times[j] < times[i]
    ensures log == Audit([], visits[..j + 1], thresholds) && !LastSeenStalled(visits[..j + 1], 0, thresholds)
    ensures log == [stall, Row(0, RecoveredRow, None, None, times[j])] && stall.kind == StalledRow
    ensures Kinds(log, 0) == [StalledRow] + [RecoveredRow] && Latest(log, 0) == Some(stall)
  {
    stall := StallStands(visits, times, i, j, k, thresholds);
    AuditTake([], visits, j, thresholds);
    SeenTake(visits, j, thresholds);
    FoundAsAsked(times[j], false, Works, thresholds);
    Recovers([stall], stall, visits[j], times[j], thresholds);
    log := [stall] + NewRows([stall], visits[j], thresholds);
  }

  lemma IdleToTheEnd(visits: seq<Visit>, a: nat, thresholds: Thresholds)
    requires a <= |visits| && forall n :: a <= n < |visits| ==> !visits[n].access.Works?
    ensures Audit([], visits, thresholds) == Audit([], visits[..a], thresholds)
    ensures LastSeenStalled(visits, 0, thresholds) == LastSeenStalled(visits[..a], 0, thresholds)
  {
    Idle(visits, a, |visits|, 0, thresholds);
    assert visits[..|visits|] == visits;
  }

  lemma StepBackMisleads(times: seq<int>, i: nat, j: nat, thresholds: Thresholds)
    requires i < j < |times| && times[j] < times[i]
    ensures !AlwaysAgrees(times, thresholds)
  {
    var visits := StepBack(times, i, j, j, thresholds);
    var log, stall := StepBackHides(visits, times, i, j, j, thresholds);
    IdleToTheEnd(visits, j + 1, thresholds);
    assert CurrentStall(log, 0) == Some(stall);
    assert CurrentStall(Audit([], visits, thresholds), 0).Some? && !LastSeenStalled(visits, 0, thresholds);
  }

  lemma RepeatsDoNotAlternate(kinds: seq<Kind>)
    requires kinds == [StalledRow] + [RecoveredRow] + [RecoveredRow]
    ensures !Alternates(kinds)
  {
    assert kinds[2] == RecoveredRow;
  }

  lemma RecoversAgain(log: seq<Row>, stall: Row, v: Visit, t: int, u: int, thresholds: Thresholds)
    requires log == [stall, Row(0, RecoveredRow, None, None, t)] && stall.kind == StalledRow && t != u
    requires Kinds(log, 0) == [StalledRow] + [RecoveredRow] && Latest(log, 0) == Some(stall)
    requires v == Finding(u, false, Works, thresholds)
    ensures Kinds(log + NewRows(log, v, thresholds), 0) == [StalledRow] + [RecoveredRow] + [RecoveredRow]
  {
    assert !KeyTaken(log, 0, RecoveredRow, u);
    Recovers(log, stall, v, u, thresholds);
  }

  lemma OnlyOneAfter(visits: seq<Visit>, a: nat, k: nat, thresholds: Thresholds)
    requires a <= k < |visits| && forall n :: a <= n < |visits| && n != k ==> !visits[n].access.Works?
    ensures var log := Audit([], visits[..a], thresholds);
            Audit([], visits, thresholds) == log + NewRows(log, visits[k], thresholds)
  {
    Idle(visits, a, k, 0, thresholds);
    AuditTake([], visits, k, thresholds);
    IdleToTheEnd(visits, k + 1, thresholds);
  }

  /** A healthy finding at yet another time: Stalled, Recovered, Recovered. */
  lemma StagedRepeats(visits: seq<Visit>, times: seq<int>, i: nat, j: nat, k: nat, thresholds: Thresholds)
    requires i < j < k && Staged(visits, times, i, j, k, thresholds) && times[j] < times[i] && times[k] != times[j]
    ensures Kinds(Audit([], visits, thresholds), 0) == [StalledRow] + [RecoveredRow] + [RecoveredRow]
  {
    OnlyOneAfter(visits, j + 1, k, thresholds);
    var log, stall := StepBackHides(visits, times, i, j, k, thresholds);
    RecoversAgain(log, stall, visits[k], times[j], times[k], thresholds);
  }

  lemma StepBackRepeats(times: seq<int>, i: nat, j: nat, k: nat, thresholds: Thresholds)
    requires i < j < k < |times| && times[j] < times[i] && times[k] != times[j]
    ensures !AlwaysAlternates(times, thresholds)
  {
    var visits := StepBack(times, i, j, k, thresholds);
    StagedRepeats(visits, times, i, j, k, thresholds);
    RepeatsDoNotAlternate(Kinds(Audit([], visits, thresholds), 0));
  }

  /**
    The rows alternate whatever the visits find exactly when the clock, once it has stepped back, stands still. (The
    unique key then turns down what would be recorded a second time.)
   */
  lemma AlternationNeedsTheClock(times: seq<int>, thresholds: Thresholds)
    ensures AlwaysAlternates(times, thresholds) <==> StandsAfterStep(times)
  {
    if StandsAfterStep(times) {
      forall visits: seq<Visit>, run: nat | Map(TimeOf, visits) == times
        ensures Alternates(Kinds(Audit([], visits, thresholds), run))
      {
        assert forall n :: 0 <= n < |visits| ==> TimeOf(visits[n]) == times[n];
        RowsAlternate(visits, run, thresholds);
      }
    } else {
      var i, j, k :| 0 <= i < j < k < |times| && times[i] > times[j] && times[k] != times[j];
      StepBackRepeats(times, i, j, k, thresholds);
    }
  }

  /** The dashboard agrees with the last successful visits whatever they find exactly when the clock never steps back. */
  lemma DashboardNeedsTheClock(times: seq<int>, thresholds: Thresholds)
    ensures AlwaysAgrees(times, thresholds) <==> forall i, j :: 0 <= i < j < |times| ==> times[i] <= times[j]
  {
    if i, j :| 0 <= i < j < |times| && times[i] > times[j] {
      StepBackMisleads(times, i, j, thresholds);
    } else {
      forall visits: seq<Visit>, run: nat | Map(TimeOf, visits) == times
        ensures CurrentStall(Audit([], visits, thresholds), run).Some? <==> LastSeenStalled(visits, run, thresholds)
      {
        assert forall n :: 0 <= n < |visits| ==> TimeOf(visits[n]) == times[n];
        CurrentStallIsLastSeen(visits, run, thresholds);
      }
    }
  }

  /** Small clocks: which of them can break the alternation, and the dashboard. */
  lemma SmallClocks(thresholds: Thresholds)
    ensures !AlwaysAgrees([2, 1], thresholds) && AlwaysAlternates([2, 1], thresholds)
    ensures AlwaysAlternates([2, 1, 1], thresholds) && !AlwaysAlternates([2, 1, 3], thresholds)
  {
    DashboardNeedsTheClock([2, 1], thresholds);
    AlternationNeedsTheClock([2, 1], thresholds);
    AlternationNeedsTheClock([2, 1, 1], thresholds);
    AlternationNeedsTheClock([2, 1, 3], thresholds);
    var stepped, turned := [2, 1], [2, 1, 3];
    assert stepped[0] > stepped[1] && turned[0] > turned[1] && turned[2] != turned[1];
  }
}
