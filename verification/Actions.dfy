/** One agent action from approval to confirmed execution: its stored row, the audit
    entries it leaves and every commit on it. A dispatch is two commits with the remote
    call between them. */
module Actions {
  import opened Basics
  import opened Wrappers

  type Time = int
  type User = string

  datatype Status = PendingApproval | Approved | Dispatched | DispatchFailed | Executed | Failed

  const TERMINAL := {Executed, Failed}

  /** What the executor may report. A dry run delivered nothing. */
  datatype Outcome = OutcomeExecuted | OutcomeFailed | OutcomeDryRun

  /** The stored execution result. */
  datatype Stage =
    | NoStage
    | Intent(recipients: seq<string>)
    | Refusal(reason: string)
    | Execution(outcome: Outcome, summary: string, at: Time)

  datatype Row = Row(
    status: Status, approvedBy: Option<User>, approvedAt: Option<Time>, executor: Option<string>, taskId: Option<string>,
    dispatchedAt: Option<Time>, executedAt: Option<Time>, stage: Stage, taskStatus: Option<string>, error: Option<string>)

  /** A record of the executor's report, its content without surrounding blanks. */
  datatype Record = NotAnObject | Record(content: string, sourceType: string, sourceId: string)

  datatype Evidence = Evidence(sourceType: string, sourceId: string, content: string, outcome: Outcome)

  /** The audit entries about one action. */
  datatype Entry = Approve(user: User) | Dispatch(at: Time) | Refuse(reason: string) | Report(outcome: Outcome, created: nat)

  /** `inFlight` counts the remote calls that have not returned. */
  datatype State = State(row: Row, evidence: seq<Evidence>, trail: seq<Entry>, inFlight: nat)

  const PROPOSED := State(Row(PendingApproval, None, None, None, None, None, None, NoStage, None, None), [], [], 0)

  // ---------------------------------------------------------------- commits

  function Approval(s: State, user: User, now: Time): State {
    if s.row.status == Approved then s
    else s.(row := s.row.(status := Approved, approvedBy := Some(user), approvedAt := Some(now)),
            trail := s.trail + [Approve(user)])
  }

  /** A dispatch request, checked and committed before the remote call is made. */
  datatype Request = Request(clean: seq<string>, errors: seq<string>, projectExists: bool)

  predicate Dispatchable(row: Row) {
    row.status == Approved && row.approvedBy.Some? && row.approvedBy.value != ""
  }

  predicate Complete(r: Request) { r.errors == [] && r.clean != [] && r.projectExists }

  function Begin(s: State, r: Request, now: Time): Option<State> {
    if !Dispatchable(s.row) || !Complete(r) then None
    else Some(State(
      s.row.(status := Dispatched, executor := Some("oneclaw"), dispatchedAt := Some(now), error := None,
             stage := Intent(r.clean), taskStatus := None),
      s.evidence, s.trail + [Dispatch(now)], s.inFlight + 1))
  }

  datatype Reply = Accepted(taskId: string, taskStatus: string) | Refused(reason: string)

  /** The remote call returns: the row is read again, and an outcome that was reported
      meanwhile stays. */
  function End(s: State, reply: Reply): Option<State> {
    if s.inFlight == 0 then None
    else
      var t := s.(inFlight := s.inFlight - 1);
      match reply
      case Refused(reason) =>
        if s.row.status in TERMINAL then Some(t)
        else Some(t.(row := s.row.(status := DispatchFailed, error := Some(reason), stage := Refusal(reason), taskStatus := None),
                     trail := s.trail + [Refuse(reason)]))
      case Accepted(taskId, taskStatus) =>
        var row := s.row.(taskId := if taskId != "" then Some(taskId) else s.row.taskId);
        Some(t.(row := if s.row.status in TERMINAL then row else row.(taskStatus := Some(taskStatus))))
  }

  datatype Account = Account(
    outcome: Option<Outcome>, taskId: Option<string>, summary: string, error: Option<string>, records: seq<Record>)

  function EvidenceOf(id: string, records: seq<Record>, outcome: Outcome): seq<Evidence> {
    if records == [] then []
    else
      var last := records[|records| - 1];
      EvidenceOf(id, records[..|records| - 1], outcome)
      + (if last.Record? && last.content != ""
         then [Evidence(if last.sourceType != "" then last.sourceType else "oneclaw_execution",
                        if last.sourceId != "" then last.sourceId else id, last.content, outcome)]
         else [])
  }

  /** What the records at the positions `at` become, which are all those with content. */
  ghost predicate Filed(id: string, records: seq<Record>, outcome: Outcome, at: seq<nat>, added: seq<Evidence>) {
    && Enumerates(at, set i | 0 <= i < |records| && records[i].Record? && records[i].content != "")
    && |added| == |at|
    && forall n :: 0 <= n < |at| ==> at[n] < |records| && records[at[n]].Record? && FiledAs(id, records[at[n]], outcome, added[n])
  }

  ghost predicate FiledAs(id: string, record: Record, outcome: Outcome, e: Evidence)
    requires record.Record?
  {
    && e.content == record.content && e.outcome == outcome
    && (if record.sourceType == "" then e.sourceType == "oneclaw_execution" else e.sourceType == record.sourceType)
    && (if record.sourceId == "" then e.sourceId == id else e.sourceId == record.sourceId)
  }

  lemma FiledMore(id: string, front: seq<Record>, record: Record, outcome: Outcome, at: seq<nat>, added: seq<Evidence>, e: Evidence)
    requires Filed(id, front, outcome, at, added)
    requires record.Record? && record.content != "" ==> FiledAs(id, record, outcome, e)
    ensures if record.Record? && record.content != "" then Filed(id, front + [record], outcome, at + [|front|], added + [e])
            else Filed(id, front + [record], outcome, at, added)
  {
    var records := front + [record];
    var before := set i | 0 <= i < |front| && front[i].Record? && front[i].content != "";
    var chosen := set i | 0 <= i < |records| && records[i].Record? && records[i].content != "";
    if record.Record? && record.content != "" {
      EnumeratesMore(at, before, |front|);
      assert chosen == before + {|front|};
    } else {
      assert chosen == before;
    }
  }

  lemma {:induction false} EvidenceIsFiled(id: string, records: seq<Record>, outcome: Outcome) returns (at: seq<nat>)
    ensures Filed(id, records, outcome, at, EvidenceOf(id, records, outcome)) && |at| == |EvidenceOf(id, records, outcome)|
  {
    if records == [] {
      at := [];
    } else {
      var front, last := records[..|records| - 1], records[|records| - 1];
      assert records == front + [last];
      at := EvidenceIsFiled(id, front, outcome);
      hide Filed;
      var more := EvidenceOf(id, records, outcome);
      var wanted := last.Record? && last.content != "";
      FiledMore(id, front, last, outcome, at, EvidenceOf(id, front, outcome),
                if wanted then more[|more| - 1] else Evidence("", "", "", outcome));
      if wanted {
        at := at + [|front|];
        assert more == EvidenceOf(id, front, outcome) + [more[|more| - 1]];
      }
    }
  }

  /** The row an outcome moves to. A dry run puts it back where it was approved. */
  function Moved(row: Row, a: Account, outcome: Outcome, now: Time): Row {
    match outcome
    case OutcomeExecuted => row.(status := Executed, executedAt := Some(now), error := None)
    case OutcomeFailed => row.(status := Failed, executedAt := Some(now), error := Some(Reason(a)))
    case OutcomeDryRun => row.(status := Approved, dispatchedAt := None, error := None)
  }

  /** The report is written to the row, its evidence is added and the audit entry says
      how much there was. */
  function Applied(id: string, s: State, a: Account, outcome: Outcome, now: Time): State {
    var added := EvidenceOf(id, a.records, outcome);
    State(
      Moved(s.row, a, outcome, now).(
        executor := Some(Or(s.row.executor, "oneclaw")), taskId := if Given(a.taskId) then a.taskId else s.row.taskId,
        stage := Execution(outcome, a.summary, now), taskStatus := None),
      s.evidence + added, s.trail + [Report(outcome, |added|)], s.inFlight)
  }

  /** The executor's report. One about a terminal action is ignored. */
  function Reported(id: string, s: State, a: Account, now: Time): Result<State, string> {
    if a.outcome.None? then Err("outcome must be one of: dry_run, executed, failed")
    else if s.row.status in TERMINAL then Ok(s)
    else if s.row.status !in {Dispatched, Approved} then Err("only a dispatched action can be reported on")
    else Ok(Applied(id, s, a, a.outcome.value, now))
  }

  predicate Given(text: Option<string>) { text.Some? && text.value != "" }

  function Or(text: Option<string>, default: string): string { if Given(text) then text.value else default }

  function Reason(a: Account): string {
    if Given(a.error) then a.error.value
    else if a.summary != "" then a.summary else "The executor reported a failure"
  }

  /** Waiting for confirmation for too long. A missing dispatch time counts as too long. */
  predicate Stale(row: Row, now: Time, staleAfter: nat) {
    row.status == Dispatched && (row.dispatchedAt.None? || row.dispatchedAt.value < now - staleAfter)
  }

  // ---------------------------------------------------------------- what the commits mean

  /** An approval names its user and leaves what earlier dispatches recorded. */
  ghost predicate Approves(s: State, t: State, user: User, now: Time) {
    && t.row.status == Approved && t.row.executor == s.row.executor && t.row.taskId == s.row.taskId
    && t.row.dispatchedAt == s.row.dispatchedAt && t.row.executedAt == s.row.executedAt && t.row.stage == s.row.stage
    && t.row.taskStatus == s.row.taskStatus && t.row.error == s.row.error && t.evidence == s.evidence
    && if s.row.status == Approved then t == s
       else t.row.approvedBy == Some(user) && t.row.approvedAt == Some(now) && t.trail == s.trail + [Approve(user)]
  }

  ghost predicate CanSend(s: State, r: Request) {
    && s.row.status == Approved && s.row.approvedBy.Some? && s.row.approvedBy.value != ""
    && r.errors == [] && r.clean != [] && r.projectExists
  }

  /** The intent is on the row before the call. */
  ghost predicate Sends(s: State, t: State, r: Request, now: Time) {
    && CanSend(s, r)
    && t.row.status == Dispatched && t.row.dispatchedAt == Some(now) && t.row.executor == Some("oneclaw")
    && t.row.stage == Intent(r.clean) && t.row.taskStatus == None && t.row.error == None
    && t.row.approvedBy == s.row.approvedBy && t.row.approvedAt == s.row.approvedAt && t.row.taskId == s.row.taskId
    && t.row.executedAt == s.row.executedAt
    && t.evidence == s.evidence && t.trail == s.trail + [Dispatch(now)] && t.inFlight == s.inFlight + 1
  }

  lemma BeginSends(s: State, r: Request, now: Time)
    ensures Begin(s, r, now).Some? <==> CanSend(s, r)
    ensures CanSend(s, r) ==> Sends(s, Begin(s, r, now).value, r, now)
  {}

  /** A refusal is recorded unless an outcome is; an accepted call leaves its task id, and its
      answer unless an outcome is recorded. */
  ghost predicate Returns(s: State, t: State, reply: Reply) {
    && t.inFlight == s.inFlight - 1 && t.evidence == s.evidence
    && t.row.approvedBy == s.row.approvedBy && t.row.approvedAt == s.row.approvedAt && t.row.executor == s.row.executor
    && t.row.dispatchedAt == s.row.dispatchedAt && t.row.executedAt == s.row.executedAt
    && if reply.Refused? && s.row.status !in {Executed, Failed} then
         && t.row.status == DispatchFailed && t.row.error == Some(reply.reason) && t.row.stage == Refusal(reply.reason)
         && t.row.taskStatus == None && t.row.taskId == s.row.taskId && t.trail == s.trail + [Refuse(reply.reason)]
       else
         && t.row.status == s.row.status && t.row.error == s.row.error && t.row.stage == s.row.stage && t.trail == s.trail
         && t.row.taskId == (if reply.Accepted? && reply.taskId != "" then Some(reply.taskId) else s.row.taskId)
         && t.row.taskStatus == (if reply.Accepted? && s.row.status !in {Executed, Failed} then Some(reply.taskStatus)
                                 else s.row.taskStatus)
  }

  /** The row says what the report says, and a dry run leaves it where it was approved. */
  ghost predicate Tells(before: Row, row: Row, a: Account, now: Time)
    requires a.outcome.Some?
  {
    && row.stage == Execution(a.outcome.value, a.summary, now) && row.taskStatus == None
    && row.approvedBy == before.approvedBy && row.approvedAt == before.approvedAt
    && row.executor == (if before.executor.Some? && before.executor.value != "" then before.executor else Some("oneclaw"))
    && row.taskId == (if a.taskId.Some? && a.taskId.value != "" then a.taskId else before.taskId)
    && match a.outcome.value
       case OutcomeExecuted =>
         row.status == Executed && row.executedAt == Some(now) && row.error == None && row.dispatchedAt == before.dispatchedAt
       case OutcomeFailed =>
         && row.status == Failed && row.executedAt == Some(now) && row.dispatchedAt == before.dispatchedAt
         && row.error == Some(if a.error.Some? && a.error.value != "" then a.error.value
                              else if a.summary != "" then a.summary else "The executor reported a failure")
       case OutcomeDryRun =>
         row.status == Approved && row.executedAt == before.executedAt && row.error == None && row.dispatchedAt == None
  }

  lemma AppliedTells(id: string, s: State, a: Account, now: Time)
    requires a.outcome.Some?
    ensures Tells(s.row, Applied(id, s, a, a.outcome.value, now).row, a, now)
  {}

  // ---------------------------------------------------------------- the row in place

  class AgentAction {
    const id: string
    var status: Status
    var approvedBy: Option<User>
    var approvedAt: Option<Time>
    var executor: Option<string>
    var taskId: Option<string>
    var dispatchedAt: Option<Time>
    var executedAt: Option<Time>
    var stage: Stage
    var taskStatus: Option<string>
    var error: Option<string>
    var evidence: seq<Evidence>
    var trail: seq<Entry>
    ghost var inFlight: nat

    ghost function Stored(): State
      reads this
    {
      State(Row(status, approvedBy, approvedAt, executor, taskId, dispatchedAt, executedAt, stage, taskStatus, error),
            evidence, trail, inFlight)
    }

    constructor (id: string)
      ensures Stored() == PROPOSED && this.id == id
    {
      this.id := id;
      status, approvedBy, approvedAt, executor, taskId := PendingApproval, None, None, None, None;
      dispatchedAt, executedAt, stage, taskStatus, error := None, None, NoStage, None, None;
      evidence, trail, inFlight := [], [], 0;
    }

    method ApproveAction(user: User, now: Time)
      modifies this
      ensures Stored() == Approval(old(Stored()), user, now)
      ensures Approves(old(Stored()), Stored(), user, now)
    {
      if status == Approved { return; }
      status, approvedBy, approvedAt := Approved, Some(user), Some(now);
      trail := trail + [Approve(user)];
    }

    method CheckDispatch(r: Request) returns (refusal: Option<string>)
      ensures refusal.None? <==> CanSend(Stored(), r)
    {
      if status in TERMINAL { return Some("Action is already terminal"); }
      if status == Dispatched { return Some("Action is already with the executor"); }
      if status != Approved || approvedBy.None? || approvedBy.value == "" {
        return Some("Only an approved action can be dispatched");
      }
      if r.errors != [] { return Some("Invalid recipients"); }
      if r.clean == [] { return Some("At least one recipient is required to dispatch an action"); }
      if !r.projectExists { return Some("The action's project no longer exists"); }
      return None;
    }

    /** The first commit of a dispatch. */
    method BeginDispatch(r: Request, now: Time) returns (refusal: Option<string>)
      modifies this
      ensures refusal.None? <==> Begin(old(Stored()), r, now).Some?
      ensures Stored() == if refusal.None? then Begin(old(Stored()), r, now).value else old(Stored())
      ensures if refusal.None? then Sends(old(Stored()), Stored(), r, now) else !CanSend(old(Stored()), r)
    {
      hide Sends, CanSend, Dispatchable, Complete;
      BeginSends(Stored(), r, now);
      refusal := CheckDispatch(r);
      if refusal.None? {
        status, executor, dispatchedAt, error := Dispatched, Some("oneclaw"), Some(now), None;
        stage, taskStatus := Intent(r.clean), None;
        trail := trail + [Dispatch(now)];
        inFlight := inFlight + 1;
      }
    }

    /** The second commit, once the remote call has returned. */
    method EndDispatch(reply: Reply)
      requires inFlight > 0
      modifies this
      ensures Some(Stored()) == End(old(Stored()), reply)
      ensures Returns(old(Stored()), Stored(), reply)
    {
      inFlight := inFlight - 1;
      var reported := status in TERMINAL;
      match reply {
        case Refused(reason) =>
          if reported { return; }
          status, error, stage, taskStatus := DispatchFailed, Some(reason), Refusal(reason), None;
          trail := trail + [Refuse(reason)];
        case Accepted(task, answer) =>
          if task != "" { taskId := Some(task); }
          if !reported { taskStatus := Some(answer); }
      }
    }

    method Move(a: Account, outcome: Outcome, now: Time)
      modifies this`status, this`executedAt, this`error, this`dispatchedAt
      ensures Stored() == old(Stored()).(row := Moved(old(Stored()).row, a, outcome, now))
    {
      match outcome {
        case OutcomeExecuted => status, executedAt, error := Executed, Some(now), None;
        case OutcomeFailed => status, executedAt, error := Failed, Some(now), Some(Reason(a));
        case OutcomeDryRun => status, dispatchedAt, error := Approved, None, None;
      }
    }

    method ApplyReport(a: Account, outcome: Outcome, now: Time) returns (created: nat)
      modifies this
      ensures Stored() == Applied(id, old(Stored()), a, outcome, now)
      ensures created == |EvidenceOf(id, a.records, outcome)|
    {
      hide Moved, EvidenceOf, Filed;
      Move(a, outcome, now);
      executor := Some(Or(executor, "oneclaw"));
      if Given(a.taskId) { taskId := a.taskId; }
      stage, taskStatus := Execution(outcome, a.summary, now), None;
      created := AddEvidence(a.records, outcome);
      trail := trail + [Report(outcome, created)];
    }

    method RecordExecution(a: Account, now: Time) returns (r: Result<nat, string>)
      modifies this
      ensures r.Ok? <==> Reported(id, old(Stored()), a, now).Ok?
      ensures r.Ok? ==> Stored() == Reported(id, old(Stored()), a, now).value
      ensures r.Err? ==> Stored() == old(Stored())
      ensures r.Err? <==> a.outcome.None? || old(status) !in {Dispatched, Approved, Executed, Failed}
      ensures r.Ok? && old(status) in {Executed, Failed} ==> r.value == 0 && Stored() == old(Stored())
      ensures r.Ok? && old(status) in {Dispatched, Approved} ==>
                Tells(old(Stored()).row, Stored().row, a, now)
                && trail == old(trail) + [Report(a.outcome.value, r.value)]
                && exists at, added :: Filed(id, a.records, a.outcome.value, at, added)
                                       && evidence == old(evidence) + added && r.value == |at|
    {
      if a.outcome.None? { return Err("outcome must be one of: dry_run, executed, failed"); }
      if status in TERMINAL { return Ok(0); }
      if status !in {Dispatched, Approved} { return Err("only a dispatched action can be reported on"); }
      hide Applied, Filed, Tells;
      ghost var before := Stored();
      AppliedTells(id, before, a, now);
      var created := ApplyReport(a, a.outcome.value, now);
      ghost var at := EvidenceIsFiled(id, a.records, a.outcome.value);
      assert Stored().evidence == before.evidence + EvidenceOf(id, a.records, a.outcome.value);
      return Ok(created);
    }

    method AddEvidence(records: seq<Record>, outcome: Outcome) returns (created: nat)
      modifies this`evidence
      ensures evidence == old(evidence) + EvidenceOf(id, records, outcome)
      ensures created == |EvidenceOf(id, records, outcome)|
      ensures exists at, added :: Filed(id, records, outcome, at, added) && evidence == old(evidence) + added && created == |at|
    {
      hide Filed;
      ghost var at := EvidenceIsFiled(id, records, outcome);
      created := 0;
      for i := 0 to |records|
        invariant evidence == old(evidence) + EvidenceOf(id, records[..i], outcome)
        invariant created == |EvidenceOf(id, records[..i], outcome)|
      {
        assert records[..i + 1][..i] == records[..i];
        var record := records[i];
        if record.Record? && record.content != "" {
          var sourceType := if record.sourceType != "" then record.sourceType else "oneclaw_execution";
          var sourceId := if record.sourceId != "" then record.sourceId else id;
          evidence := evidence + [Evidence(sourceType, sourceId, record.content, outcome)];
          created := created + 1;
        }
      }
      assert records[..|records|] == records;
    }

    /** A whole dispatch whose executor reports `callbacks` before the call returns. */
    method DispatchAction(r: Request, now: Time, callbacks: seq<Account>, reply: Reply) returns (refusal: Option<string>)
      modifies this
      ensures refusal.None? <==> Begin(old(Stored()), r, now).Some?
      ensures refusal.Some? ==> Stored() == old(Stored())
      ensures refusal.None? ==>
                Some(Stored()) == End(ReportAll(id, Begin(old(Stored()), r, now).value, callbacks, now), reply)
      ensures refusal.None? ==> DispatchLeaves(callbacks, reply, status)
    {
      hide DispatchLeaves, Tells, Filed;
      refusal := BeginDispatch(r, now);
      if refusal.Some? { return; }
      ghost var sent := Stored();
      for k := 0 to |callbacks|
        invariant Stored() == ReportAll(id, sent, callbacks[..k], now) && inFlight == sent.inFlight
      {
        assert callbacks[..k + 1][..k] == callbacks[..k];
        var _ := RecordExecution(callbacks[k], now);
      }
      assert callbacks[..|callbacks|] == callbacks;
      ghost var heard := Stored();
      EndDispatch(reply);
      DispatchDecided(id, sent, callbacks, now, heard, Stored(), reply);
    }
  }

  /** Successive reports; one that is refused changes nothing. */
  function ReportAll(id: string, s: State, callbacks: seq<Account>, now: Time): State {
    if callbacks == [] then s
    else
      var before := ReportAll(id, s, callbacks[..|callbacks| - 1], now);
      match Reported(id, before, callbacks[|callbacks| - 1], now)
      case Ok(t) => t
      case Err(_) => before
  }

  predicate IsFinalReport(a: Account) { a.outcome == Some(OutcomeExecuted) || a.outcome == Some(OutcomeFailed) }

  /** The first outcome reported during the call is final, whatever the call returns. Without
      one a refusal is recorded, and otherwise a dry run puts the action back. */
  ghost predicate DispatchLeaves(callbacks: seq<Account>, reply: Reply, status: Status) {
    && (forall n :: 0 <= n < |callbacks| && IsFinalReport(callbacks[n]) && (forall k :: 0 <= k < n ==> !IsFinalReport(callbacks[k]))
          ==> status == if callbacks[n].outcome == Some(OutcomeExecuted) then Executed else Failed)
    && ((forall n :: 0 <= n < |callbacks| ==> !IsFinalReport(callbacks[n])) ==>
          status == if reply.Refused? then DispatchFailed
                    else if exists n :: 0 <= n < |callbacks| && callbacks[n].outcome == Some(OutcomeDryRun) then Approved
                    else Dispatched)
  }

  lemma ReportAllMore(id: string, s: State, front: seq<Account>, last: Account, now: Time)
    ensures var before := ReportAll(id, s, front, now);
            ReportAll(id, s, front + [last], now).row.status ==
              if last.outcome.None? || before.row.status !in {Dispatched, Approved} then before.row.status
              else match last.outcome.value
                   case OutcomeExecuted => Executed
                   case OutcomeFailed => Failed
                   case OutcomeDryRun => Approved
  {
    assert (front + [last])[..|front|] == front;
  }

  lemma LeavesMore(front: seq<Account>, last: Account, before: Status, after: Status)
    requires DispatchLeaves(front, Accepted("", ""), before) && before in {Dispatched, Approved, Executed, Failed}
    requires before in {Executed, Failed} <==> exists n :: 0 <= n < |front| && IsFinalReport(front[n])
    requires after == if last.outcome.None? || before !in {Dispatched, Approved} then before
                      else match last.outcome.value
                           case OutcomeExecuted => Executed
                           case OutcomeFailed => Failed
                           case OutcomeDryRun => Approved
    ensures DispatchLeaves(front + [last], Accepted("", ""), after) && after in {Dispatched, Approved, Executed, Failed}
    ensures after in {Executed, Failed} <==> exists n :: 0 <= n < |front + [last]| && IsFinalReport((front + [last])[n])
  {
    var all := front + [last];
    assert all[|front|] == last && forall n :: 0 <= n < |front| ==> all[n] == front[n];
  }

  lemma {:induction false} ReportsDecide(id: string, s: State, callbacks: seq<Account>, now: Time)
    requires s.row.status == Dispatched
    ensures DispatchLeaves(callbacks, Accepted("", ""), ReportAll(id, s, callbacks, now).row.status)
    ensures ReportAll(id, s, callbacks, now).row.status in {Dispatched, Approved, Executed, Failed}
    ensures ReportAll(id, s, callbacks, now).row.status in {Executed, Failed} <==>
              exists n :: 0 <= n < |callbacks| && IsFinalReport(callbacks[n])
  {
    if callbacks != [] {
      hide ReportAll, DispatchLeaves;
      var front, last := callbacks[..|callbacks| - 1], callbacks[|callbacks| - 1];
      assert callbacks == front + [last];
      ReportsDecide(id, s, front, now);
      ReportAllMore(id, s, front, last, now);
      LeavesMore(front, last, ReportAll(id, s, front, now).row.status, ReportAll(id, s, callbacks, now).row.status);
    }
  }

  lemma DispatchDecided(id: string, sent: State, callbacks: seq<Account>, now: Time, heard: State, t: State, reply: Reply)
    requires sent.row.status == Dispatched && heard == ReportAll(id, sent, callbacks, now) && Returns(heard, t, reply)
    ensures DispatchLeaves(callbacks, reply, t.row.status)
  {
    ReportsDecide(id, sent, callbacks, now);
  }
}
