/** Handoffs between sessions: a record whose lifecycle methods update it in place. */
module Handoffs {
  import opened Wrappers
  import opened Text

  datatype Status = Pending | Delivered | Accepted | Completed | Failed | Escalated | Superseded

  predicate IsTerminal(s: Status) {
    s.Completed? || s.Failed? || s.Escalated? || s.Superseded?
  }

  predicate CanTransition(from: Status, to: Status) {
    match from
    case Pending => to.Delivered? || to.Superseded?
    case Delivered => to.Accepted? || to.Failed? || to.Superseded?
    case Accepted => to.Completed? || to.Failed? || to.Superseded?
    case Failed => to.Escalated?
    case Completed => false
    case Escalated => false
    case Superseded => false
  }

  /** The nine moves there are. */
  lemma MovesExactly(from: Status, to: Status)
    ensures CanTransition(from, to) <==>
            (from, to) in {(Pending, Delivered), (Pending, Superseded), (Delivered, Accepted), (Delivered, Failed),
                           (Delivered, Superseded), (Accepted, Completed), (Accepted, Failed), (Accepted, Superseded),
                           (Failed, Escalated)}
    ensures IsTerminal(from) <==> from in {Completed, Failed, Escalated, Superseded}
  {
    match from case Pending => case Delivered => case Accepted => case Completed => case Failed => case Escalated => case Superseded =>
    match to case Pending => case Delivered => case Accepted => case Completed => case Failed => case Escalated => case Superseded =>
  }

  datatype AttentionKind = Clarification | Decision | OtherAttention

  datatype Payload =
    | Plan(scope: string)
    | Implement(scope: string, planHandoff: Option<nat>)
    | Review(target: string, criteria: seq<string>)
    | Fix(parentReview: nat, findings: seq<string>)
    | Escalation(reason: string, attention: AttentionKind, options: Option<seq<string>>)

  datatype Kind = PlanKind | ImplementKind | ReviewKind | FixKind | EscalateKind

  function KindOf(p: Payload): Kind {
    match p
    case Plan(_) => PlanKind
    case Implement(_, _) => ImplementKind
    case Review(_, _) => ReviewKind
    case Fix(_, _) => FixKind
    case Escalation(_, _, _) => EscalateKind
  }

  predicate ValidPayload(p: Payload) {
    match p
    case Plan(scope) => !IsBlank(scope)
    case Implement(scope, _) => !IsBlank(scope)
    case Review(target, _) => !IsBlank(target)
    case Fix(_, findings) => findings != []
    case Escalation(reason, attention, options) =>
      !IsBlank(reason) && (attention.Decision? ==> options.Some? && options.value != [])
  }

  /** What a payload must carry, kind by kind, and the kind itself. */
  lemma PayloadsExactly(p: Payload)
    ensures p.Plan? ==> KindOf(p) == PlanKind && (ValidPayload(p) <==> !IsBlank(p.scope))
    ensures p.Implement? ==> KindOf(p) == ImplementKind && (ValidPayload(p) <==> !IsBlank(p.scope))
    ensures p.Review? ==> KindOf(p) == ReviewKind && (ValidPayload(p) <==> !IsBlank(p.target))
    ensures p.Fix? ==> KindOf(p) == FixKind && (ValidPayload(p) <==> |p.findings| > 0)
    ensures p.Escalation? ==>
              && KindOf(p) == EscalateKind
              && (ValidPayload(p) <==>
                    && !IsBlank(p.reason)
                    && (p.attention == Decision ==> exists options :: p.options == Some(options) && |options| > 0))
  {
    if p.Escalation? && p.options.Some? {
      assert p.options == Some(p.options.value);
    }
  }

  datatype Outcome = Outcome(summary: string, artifacts: seq<nat>, gitRef: Option<string>)

  datatype Failure = Failure(reason: string, retryCount: nat, attention: Option<nat>)

  /** What never changes after creation. */
  datatype Origin = Origin(
    id: nat, run: nat, step: nat, fromSession: Option<nat>, toRole: string, kind: Kind, payload: Payload,
    parent: Option<nat>, createdAt: int)

  datatype Record = Record(
    origin: Origin,
    status: Status,
    toSession: Option<nat>,
    result: Option<Outcome>,
    failure: Option<Failure>,
    deliveredAt: Option<int>,
    completedAt: Option<int>)

  datatype InputError = EmptyRole | InvalidPayload

  datatype TransitionError = InvalidTransition(from: Status, to: Status)

  /** The lifecycle methods, with the clock reading each of them makes. */
  datatype Call =
    | MarkDelivered(session: nat, now: int)
    | MarkAccepted(now: int)
    | Complete(result: Outcome, now: int)
    | Fail(failure: Failure, now: int)
    | Escalate(attention: nat, now: int)
    | Supersede(now: int)

  function Target(c: Call): Status {
    match c
    case MarkDelivered(_, _) => Delivered
    case MarkAccepted(_) => Accepted
    case Complete(_, _) => Completed
    case Fail(_, _) => Failed
    case Escalate(_, _) => Escalated
    case Supersede(_) => Superseded
  }

  const UNEXPLAINED: Failure := Failure("escalated without explicit reason", 0, None)

  predicate Accepts(h: Record, c: Call) {
    CanTransition(h.status, Target(c))
  }

  /** The record after a call; a call that is not accepted leaves it alone. */
  function After(h: Record, c: Call): Record {
    if !Accepts(h, c) then h
    else
      match c
      case MarkDelivered(session, now) => h.(status := Delivered, toSession := Some(session), deliveredAt := Some(now))
      case MarkAccepted(_) => h.(status := Accepted)
      case Complete(result, now) => h.(status := Completed, result := Some(result), completedAt := Some(now))
      case Fail(failure, now) => h.(status := Failed, failure := Some(failure), completedAt := Some(now))
      case Escalate(attention, now) =>
        var failure := if h.failure.Some? then h.failure.value else UNEXPLAINED;
        h.(status := Escalated, failure := Some(failure.(attention := Some(attention))), completedAt := Some(now))
      case Supersede(now) => h.(status := Superseded, completedAt := Some(now))
  }

  /** Which calls are accepted when, and all that each of them changes. */
  lemma CallsExactly(h: Record, c: Call)
    ensures Accepts(h, c) <==>
            || (c.MarkDelivered? && h.status == Pending)
            || (c.MarkAccepted? && h.status == Delivered)
            || (c.Complete? && h.status == Accepted)
            || (c.Fail? && h.status in {Delivered, Accepted})
            || (c.Escalate? && h.status == Failed)
            || (c.Supersede? && h.status in {Pending, Delivered, Accepted})
    ensures !Accepts(h, c) ==> After(h, c) == h
    ensures Accepts(h, c) ==>
              var t := After(h, c);
              && t.origin == h.origin
              && t.status == (if c.MarkDelivered? then Delivered else if c.MarkAccepted? then Accepted
                              else if c.Complete? then Completed else if c.Fail? then Failed
                              else if c.Escalate? then Escalated else Superseded)
              && t.toSession == (if c.MarkDelivered? then Some(c.session) else h.toSession)
              && t.deliveredAt == (if c.MarkDelivered? then Some(c.now) else h.deliveredAt)
              && t.result == (if c.Complete? then Some(c.result) else h.result)
              && t.completedAt == (if c.MarkDelivered? || c.MarkAccepted? then h.completedAt else Some(c.now))
              && (!c.Fail? && !c.Escalate? ==> t.failure == h.failure)
              && (c.Fail? ==> t.failure == Some(c.failure))
              && (c.Escalate? && h.failure.Some? ==>
                    t.failure == Some(Failure(h.failure.value.reason, h.failure.value.retryCount, Some(c.attention))))
              && (c.Escalate? && h.failure.None? ==>
                    t.failure == Some(Failure("escalated without explicit reason", 0, Some(c.attention))))
  {
    match c
    case MarkDelivered(_, _) => case MarkAccepted(_) => case Complete(_, _) => case Fail(_, _) =>
    case Escalate(_, _) => case Supersede(_) =>
  }

  /** The answer of a call, and the record it leaves. */
  predicate Does(before: Record, c: Call, r: Result<(), TransitionError>, after: Record) {
    && after == After(before, c)
    && r == if Accepts(before, c) then Ok(()) else Err(InvalidTransition(before.status, Target(c)))
  }

  class Handoff {
    const origin: Origin
    var status: Status
    var toSession: Option<nat>
    var result: Option<Outcome>
    var failure: Option<Failure>
    var deliveredAt: Option<int>
    var completedAt: Option<int>

    function View(): Record
      reads this
    {
      Record(origin, status, toSession, result, failure, deliveredAt, completedAt)
    }

    constructor (origin: Origin)
      ensures View() == Fresh(origin)
    {
      this.origin := origin;
      status, toSession, result, failure, deliveredAt, completedAt := Pending, None, None, None, None, None;
    }

    /** Checks the role first, then the payload; the kind is read off the payload. */
    static method Create(
      id: nat, run: nat, step: nat, fromSession: Option<nat>, toRole: string, payload: Payload, parent: Option<nat>,
      now: int) returns (r: Result<Handoff, InputError>)
      ensures r.Ok? <==> !IsBlank(toRole) && ValidPayload(payload)
      ensures r.Ok? ==> fresh(r.value)
                        && r.value.View()
                           == Fresh(Origin(id, run, step, fromSession, toRole, KindOf(payload), payload, parent, now))
      ensures r == Err(EmptyRole) <==> IsBlank(toRole)
    {
      if IsBlank(toRole) {
        return Err(EmptyRole);
      }
      if !ValidPayload(payload) {
        return Err(InvalidPayload);
      }
      var h := new Handoff(Origin(id, run, step, fromSession, toRole, KindOf(payload), payload, parent, now));
      return Ok(h);
    }

    method Transition(target: Status) returns (r: Result<(), TransitionError>)
      modifies this`status
      ensures r == if CanTransition(old(status), target) then Ok(()) else Err(InvalidTransition(old(status), target))
      ensures status == if r.Ok? then target else old(status)
    {
      if !CanTransition(status, target) {
        return Err(InvalidTransition(status, target));
      }
      status := target;
      return Ok(());
    }

    method Deliver(session: nat, now: int) returns (r: Result<(), TransitionError>)
      modifies this
      ensures Does(old(View()), MarkDelivered(session, now), r, View())
    {
      r := Transition(Delivered);
      if r.Err? {
        return;
      }
      toSession := Some(session);
      deliveredAt := Some(now);
    }

    method Accept(now: int) returns (r: Result<(), TransitionError>)
      modifies this
      ensures Does(old(View()), MarkAccepted(now), r, View())
    {
      r := Transition(Accepted);
    }

    method Finish(outcome: Outcome, now: int) returns (r: Result<(), TransitionError>)
      modifies this
      ensures Does(old(View()), Complete(outcome, now), r, View())
    {
      r := Transition(Completed);
      if r.Err? {
        return;
      }
      result := Some(outcome);
      completedAt := Some(now);
    }

    method GiveUp(why: Failure, now: int) returns (r: Result<(), TransitionError>)
      modifies this
      ensures Does(old(View()), Fail(why, now), r, View())
    {
      r := Transition(Failed);
      if r.Err? {
        return;
      }
      failure := Some(why);
      completedAt := Some(now);
    }

    method AskOperator(attention: nat, now: int) returns (r: Result<(), TransitionError>)
      modifies this
      ensures Does(old(View()), Escalate(attention, now), r, View())
    {
      r := Transition(Escalated);
      if r.Err? {
        return;
      }
      if failure.None? {
        failure := Some(UNEXPLAINED);
      }
      failure := Some(failure.value.(attention := Some(attention)));
      completedAt := Some(now);
    }

    method Cancel(now: int) returns (r: Result<(), TransitionError>)
      modifies this
      ensures Does(old(View()), Supersede(now), r, View())
    {
      r := Transition(Superseded);
      if r.Err? {
        return;
      }
      completedAt := Some(now);
    }
  }

  function Fresh(origin: Origin): Record {
    Record(origin, Pending, None, None, None, None, None)
  }

  // ---- Any sequence of calls -------------------------------------------------------------------------------

  function AfterAll(h: Record, calls: seq<Call>): Record {
    if calls == [] then h else After(AfterAll(h, calls[..|calls| - 1]), calls[|calls| - 1])
  }

  /** The calls that were accepted, in order. */
  function AcceptedOf(h: Record, calls: seq<Call>): seq<Call> {
    if calls == [] then []
    else
      var earlier, last := calls[..|calls| - 1], calls[|calls| - 1];
      AcceptedOf(h, earlier) + if Accepts(AfterAll(h, earlier), last) then [last] else []
  }

  /** The statuses reached from Pending by a number of steps, at most. */
  function Height(s: Status): nat {
    match s
    case Pending => 0
    case Delivered => 1
    case Accepted => 2
    case Completed => 3
    case Failed => 3
    case Superseded => 3
    case Escalated => 4
  }

  /** At most four calls are ever accepted, and replaying only those leaves the same record. */
  lemma {:induction false} RejectedCallsDoNotMatter(origin: Origin, calls: seq<Call>)
    ensures var accepted := AcceptedOf(Fresh(origin), calls);
            && |accepted| <= Height(AfterAll(Fresh(origin), calls).status) <= 4
            && AfterAll(Fresh(origin), accepted) == AfterAll(Fresh(origin), calls)
            && AcceptedOf(Fresh(origin), accepted) == accepted
  {
    if calls != [] {
      var h, earlier, last := Fresh(origin), calls[..|calls| - 1], calls[|calls| - 1];
      RejectedCallsDoNotMatter(origin, earlier);
      var accepted := AcceptedOf(h, earlier);
      HeightGrows(AfterAll(h, earlier), last);
      if Accepts(AfterAll(h, earlier), last) {
        assert (accepted + [last])[..|accepted|] == accepted;
        assert AcceptedOf(h, calls) == accepted + [last];
      } else {
        assert AcceptedOf(h, calls) == accepted;
      }
    }
  }

  lemma HeightGrows(h: Record, c: Call)
    ensures Accepts(h, c) ==> Height(h.status) < Height(After(h, c).status)
  {
    match c
    case MarkDelivered(_, _) => case MarkAccepted(_) => case Complete(_, _) => case Fail(_, _) =>
    case Escalate(_, _) => case Supersede(_) =>
  }

  /** Which fields are filled in, status by status. */
  predicate Consistent(h: Record) {
    && (h.completedAt.Some? <==> IsTerminal(h.status))
    && (h.result.Some? <==> h.status.Completed?)
    && (h.failure.Some? <==> h.status.Failed? || h.status.Escalated?)
    && (h.deliveredAt.Some? <==> h.toSession.Some?)
    && (h.status.Pending? ==> h.toSession.None?)
    && (h.toSession.None? ==> h.status.Pending? || h.status.Superseded?)
    && (h.status.Escalated? ==> h.failure.value.attention.Some?)
  }

  lemma CallKeepsConsistent(h: Record, c: Call)
    requires Consistent(h)
    ensures Consistent(After(h, c)) && After(h, c).origin == h.origin
  {
    match c
    case MarkDelivered(_, _) => case MarkAccepted(_) => case Complete(_, _) => case Fail(_, _) =>
    case Escalate(_, _) => case Supersede(_) =>
  }

  lemma {:induction false} AlwaysConsistent(origin: Origin, calls: seq<Call>)
    ensures var h := AfterAll(Fresh(origin), calls); Consistent(h) && h.origin == origin
  {
    if calls != [] {
      AlwaysConsistent(origin, calls[..|calls| - 1]);
      CallKeepsConsistent(AfterAll(Fresh(origin), calls[..|calls| - 1]), calls[|calls| - 1]);
    }
  }

  /** Every filled field is what one of the accepted calls brought. */
  ghost predicate Traced(h: Record, accepted: seq<Call>)
    requires Consistent(h)
  {
    && (h.toSession.Some? ==>
          exists i :: 0 <= i < |accepted| && accepted[i] == MarkDelivered(h.toSession.value, h.deliveredAt.value))
    && (h.status.Completed? ==> accepted != [] && accepted[|accepted| - 1] == Complete(h.result.value, h.completedAt.value))
    && (h.status.Superseded? ==> accepted != [] && accepted[|accepted| - 1] == Supersede(h.completedAt.value))
    && (h.status.Failed? ==> accepted != [] && accepted[|accepted| - 1] == Fail(h.failure.value, h.completedAt.value))
    && (h.status.Escalated? ==>
          && |accepted| >= 2
          && accepted[|accepted| - 1] == Escalate(h.failure.value.attention.value, h.completedAt.value)
          && accepted[|accepted| - 2].Fail?
          && h.failure.value == accepted[|accepted| - 2].failure.(attention := h.failure.value.attention))
  }

  /**
   * The fields never hold anything made up: in particular an escalated handoff carries the failure of the call
   * right before the escalation, never the default one.
   */
  lemma {:induction false} FieldsComeFromCalls(origin: Origin, calls: seq<Call>)
    ensures var h := AfterAll(Fresh(origin), calls); Consistent(h) && Traced(h, AcceptedOf(Fresh(origin), calls))
  {
    AlwaysConsistent(origin, calls);
    if calls != [] {
      var earlier, last := calls[..|calls| - 1], calls[|calls| - 1];
      AlwaysConsistent(origin, earlier);
      FieldsComeFromCalls(origin, earlier);
      CallKeepsTraced(AfterAll(Fresh(origin), earlier), AcceptedOf(Fresh(origin), earlier), last);
    }
  }

  lemma CallKeepsTraced(h: Record, accepted: seq<Call>, c: Call)
    requires Consistent(h) && Consistent(After(h, c)) && Traced(h, accepted)
    ensures Traced(After(h, c), accepted + if Accepts(h, c) then [c] else [])
  {
    if Accepts(h, c) {
      var now := accepted + [c];
      assert now[|now| - 1] == c;
      if h.toSession.Some? {
        var i :| 0 <= i < |accepted| && accepted[i] == MarkDelivered(h.toSession.value, h.deliveredAt.value);
        assert now[i] == accepted[i];
      }
      if c.Escalate? {
        assert now[|now| - 2] == accepted[|accepted| - 1];
      }
    } else {
      assert accepted + [] == accepted;
    }
  }

  function FirstEscalation(calls: seq<Call>): Option<Call> {
    if calls == [] then None
    else
      var earlier, last := FirstEscalation(calls[..|calls| - 1]), calls[|calls| - 1];
      if earlier.Some? then earlier else if last.Escalate? then Some(last) else None
  }

  /** A terminal handoff never changes again, except that the first escalation of a failed one is recorded. */
  lemma {:induction false} TerminalIsFinal(h: Record, calls: seq<Call>)
    requires IsTerminal(h.status)
    ensures AfterAll(h, calls) ==
            if h.status.Failed? && FirstEscalation(calls).Some? then After(h, FirstEscalation(calls).value) else h
  {
    FirstEscalates(calls);
    if calls != [] {
      TerminalIsFinal(h, calls[..|calls| - 1]);
      FirstEscalates(calls[..|calls| - 1]);
    }
  }

  lemma {:induction false} FirstEscalates(calls: seq<Call>)
    ensures FirstEscalation(calls).Some? ==> FirstEscalation(calls).value.Escalate?
  {
    if calls != [] {
      FirstEscalates(calls[..|calls| - 1]);
    }
  }
}
