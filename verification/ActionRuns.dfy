/** Every interleaving of approvals, dispatches, reports, and returning or lost calls. */
module ActionRuns {
  import opened Wrappers
  import opened Actions

  /** A crash while a call is out is a return that never comes. */
  datatype Event =
    | EApprove(user: User, now: Time)
    | EDispatch(r: Request, now: Time)
    | EReturn(reply: Reply)
    | EReport(a: Account, now: Time)

  /** A refused request changes nothing. */
  function Step(id: string, s: State, e: Event): State {
    match e
    case EApprove(user, now) => Approval(s, user, now)
    case EDispatch(r, now) => (match Begin(s, r, now) case Some(t) => t case None => s)
    case EReturn(reply) => (match End(s, reply) case Some(t) => t case None => s)
    case EReport(a, now) => (match Reported(id, s, a, now) case Ok(t) => t case Err(_) => s)
  }

  function After(id: string, events: seq<Event>): State {
    if events == [] then PROPOSED
    else Step(id, After(id, events[..|events| - 1]), events[|events| - 1])
  }

  // ---------------------------------------------------------------- what the audit entries say

  function StatusOf(trail: seq<Entry>): Status {
    if trail == [] then PendingApproval
    else
      match trail[|trail| - 1]
      case Approve(_) => Approved
      case Dispatch(_) => Dispatched
      case Refuse(_) => DispatchFailed
      case Report(OutcomeExecuted, _) => Executed
      case Report(OutcomeFailed, _) => Failed
      case Report(OutcomeDryRun, _) => Approved
  }

  function ApproverOf(trail: seq<Entry>): Option<User> {
    if trail == [] then None
    else if trail[|trail| - 1].Approve? then Some(trail[|trail| - 1].user)
    else ApproverOf(trail[..|trail| - 1])
  }

  function Count(trail: seq<Entry>, f: Entry -> bool): nat {
    if trail == [] then 0 else Count(trail[..|trail| - 1], f) + (if f(trail[|trail| - 1]) then 1 else 0)
  }

  function IsApproval(e: Entry): bool { e.Approve? }
  function IsSend(e: Entry): bool { e.Dispatch? }
  function IsRefusal(e: Entry): bool { e.Refuse? }
  function IsRehearsal(e: Entry): bool { e.Report? && e.outcome.OutcomeDryRun? }
  function IsFinal(e: Entry): bool { e.Report? && !e.outcome.OutcomeDryRun? }

  function EvidenceCount(trail: seq<Entry>): nat {
    if trail == [] then 0
    else
      var last := trail[|trail| - 1];
      EvidenceCount(trail[..|trail| - 1]) + (if last.Report? then last.created else 0)
  }

  /** What may be added to a trail. */
  predicate Next(trail: seq<Entry>, e: Entry) {
    match e
    case Approve(_) => StatusOf(trail) != Approved
    case Dispatch(_) => StatusOf(trail) == Approved && ApproverOf(trail).Some? && ApproverOf(trail).value != ""
    case Refuse(_) => StatusOf(trail) !in TERMINAL && Count(trail, IsRefusal) < Count(trail, IsSend)
    case Report(_, _) => StatusOf(trail) in {Dispatched, Approved}
  }

  predicate Legal(trail: seq<Entry>) {
    trail == [] || (Legal(trail[..|trail| - 1]) && Next(trail[..|trail| - 1], trail[|trail| - 1]))
  }

  function SentAt(trail: seq<Entry>): Option<Time> {
    if trail == [] then None
    else if trail[|trail| - 1].Dispatch? then Some(trail[|trail| - 1].at)
    else SentAt(trail[..|trail| - 1])
  }

  /** The row is what the audit entries say it is. */
  ghost predicate Accounted(s: State) {
    && Legal(s.trail)
    && s.row.status == StatusOf(s.trail) && s.row.approvedBy == ApproverOf(s.trail)
    && |s.evidence| == EvidenceCount(s.trail)
    && s.inFlight + Count(s.trail, IsRefusal) <= Count(s.trail, IsSend)
    && (s.row.status == Dispatched ==> s.row.dispatchedAt == SentAt(s.trail) && SentAt(s.trail).Some?)
    && (s.row.status == Executed ==> s.row.executedAt.Some? && s.row.stage.Execution? && s.row.stage.outcome == OutcomeExecuted)
    && (s.row.status == Failed ==> s.row.executedAt.Some? && s.row.stage.Execution? && s.row.stage.outcome == OutcomeFailed)
  }

  lemma Grown(trail: seq<Entry>, e: Entry)
    requires Legal(trail) && Next(trail, e)
    ensures Legal(trail + [e])
    ensures ApproverOf(trail + [e]) == if e.Approve? then Some(e.user) else ApproverOf(trail)
    ensures EvidenceCount(trail + [e]) == EvidenceCount(trail) + (if e.Report? then e.created else 0)
    ensures Count(trail + [e], IsRefusal) == Count(trail, IsRefusal) + (if e.Refuse? then 1 else 0)
    ensures Count(trail + [e], IsSend) == Count(trail, IsSend) + (if e.Dispatch? then 1 else 0)
    ensures SentAt(trail + [e]) == if e.Dispatch? then Some(e.at) else SentAt(trail)
  {
    assert (trail + [e])[..|trail|] == trail;
  }

  lemma ApproveAccounted(s: State, user: User, now: Time)
    requires Accounted(s)
    ensures Accounted(Approval(s, user, now))
  {
    if s.row.status != Approved { Grown(s.trail, Approve(user)); }
  }

  lemma BeginAccounted(s: State, r: Request, now: Time)
    requires Accounted(s) && Begin(s, r, now).Some?
    ensures Accounted(Begin(s, r, now).value)
  {
    hide Legal, ApproverOf, EvidenceCount, Count, SentAt;
    Grown(s.trail, Dispatch(now));
  }

  lemma EndAccounted(s: State, reply: Reply)
    requires Accounted(s) && End(s, reply).Some?
    ensures Accounted(End(s, reply).value)
  {
    hide Legal, ApproverOf, EvidenceCount, Count, SentAt;
    if reply.Refused? && s.row.status !in TERMINAL { Grown(s.trail, Refuse(reply.reason)); }
  }

  lemma ReportAccounted(id: string, s: State, a: Account, now: Time)
    requires Accounted(s) && Reported(id, s, a, now).Ok?
    ensures Accounted(Reported(id, s, a, now).value)
  {
    hide Legal, ApproverOf, EvidenceCount, Count, SentAt, EvidenceOf, Reason;
    if s.row.status !in TERMINAL {
      Grown(s.trail, Report(a.outcome.value, |EvidenceOf(id, a.records, a.outcome.value)|));
    }
  }

  lemma StepAccounted(id: string, s: State, e: Event)
    requires Accounted(s)
    ensures Accounted(Step(id, s, e))
  {
    hide Accounted, Approval, Begin, End, Reported;
    match e
    case EApprove(user, now) => ApproveAccounted(s, user, now);
    case EDispatch(r, now) => if Begin(s, r, now).Some? { BeginAccounted(s, r, now); }
    case EReturn(reply) => if End(s, reply).Some? { EndAccounted(s, reply); }
    case EReport(a, now) => if Reported(id, s, a, now).Ok? { ReportAccounted(id, s, a, now); }
  }

  /** In every interleaving the audit entries determine the status, the approver, the
      number of evidence rows and, for a dispatched action, its dispatch time. */
  lemma {:induction false} RunAccounted(id: string, events: seq<Event>)
    ensures Accounted(After(id, events))
  {
    if events != [] {
      RunAccounted(id, events[..|events| - 1]);
      StepAccounted(id, After(id, events[..|events| - 1]), events[|events| - 1]);
    }
  }

  // ---------------------------------------------------------------- exactly the legal trails

  function Filler(n: nat): seq<Record> { if n == 0 then [] else Filler(n - 1) + [Record("receipt", "", "")] }

  lemma {:induction false} FillerCounts(id: string, n: nat, outcome: Outcome)
    ensures |EvidenceOf(id, Filler(n), outcome)| == n
  {
    if n > 0 {
      FillerCounts(id, n - 1, outcome);
      assert Filler(n)[..|Filler(n)| - 1] == Filler(n - 1);
    }
  }

  /** The event that adds a given entry. */
  function Cause(e: Entry): Event {
    match e
    case Approve(user) => EApprove(user, 0)
    case Dispatch(at) => EDispatch(Request(["site@example.com"], [], true), at)
    case Refuse(reason) => EReturn(Refused(reason))
    case Report(outcome, created) => EReport(Account(Some(outcome), None, "", None, Filler(created)), 0)
  }

  lemma CauseAdds(id: string, s: State, e: Entry)
    requires Accounted(s) && Next(s.trail, e) && s.inFlight + Count(s.trail, IsRefusal) == Count(s.trail, IsSend)
    ensures var t := Step(id, s, Cause(e));
            && t.trail == s.trail + [e] && t.inFlight + Count(t.trail, IsRefusal) == Count(t.trail, IsSend)
  {
    hide Legal, ApproverOf, EvidenceCount, SentAt, EvidenceOf, Reason, Filler;
    Grown(s.trail, e);
    if e.Report? { FillerCounts(id, e.created, e.outcome); }
  }

  lemma {:induction false} LegalIsReached(id: string, trail: seq<Entry>) returns (events: seq<Event>)
    requires Legal(trail)
    ensures After(id, events).trail == trail
    ensures After(id, events).inFlight + Count(trail, IsRefusal) == Count(trail, IsSend)
  {
    if trail == [] {
      events := [];
    } else {
      var front, last := trail[..|trail| - 1], trail[|trail| - 1];
      var before := LegalIsReached(id, front);
      RunAccounted(id, before);
      CauseAdds(id, After(id, before), last);
      events := before + [Cause(last)];
      assert events[..|before|] == before && front + [last] == trail;
    }
  }

  /** The protocol leaves exactly the legal trails: no interleaving leaves another, and
      each of them is left by some interleaving. */
  lemma TrailsAreLegal(id: string, trail: seq<Entry>)
    ensures (exists events :: After(id, events).trail == trail) <==> Legal(trail)
  {
    if events :| After(id, events).trail == trail { RunAccounted(id, events); }
    if Legal(trail) { var events := LegalIsReached(id, trail); }
  }

  // ---------------------------------------------------------------- what legal trails imply

  lemma {:induction false} ApproverIsIn(trail: seq<Entry>) returns (i: nat)
    requires ApproverOf(trail).Some?
    ensures i < |trail| && trail[i] == Approve(ApproverOf(trail).value)
    ensures forall k :: i < k < |trail| ==> !trail[k].Approve?
  {
    if trail[|trail| - 1].Approve? { i := |trail| - 1; } else { i := ApproverIsIn(trail[..|trail| - 1]); }
  }

  lemma {:induction false} ApprovedOnce(trail: seq<Entry>)
    requires Legal(trail) && trail != []
    ensures ApproverOf(trail).Some?
  {
    var front := trail[..|trail| - 1];
    if front == [] {
      assert Count(front, IsSend) == 0;
    } else {
      ApprovedOnce(front);
    }
  }

  lemma ExecutedTrail(trail: seq<Entry>) returns (i: nat)
    requires Legal(trail) && StatusOf(trail) == Executed
    ensures ApproverOf(trail).Some? && i < |trail| - 1 && trail[i] == Approve(ApproverOf(trail).value)
    ensures trail[|trail| - 1].Report? && trail[|trail| - 1].outcome == OutcomeExecuted
  {
    ApprovedOnce(trail);
    i := ApproverIsIn(trail);
  }

  /** An executed action was approved by the user it names, and after that the executor
      reported it executed. */
  lemma ExecutedIsEarned(id: string, events: seq<Event>) returns (i: nat)
    requires After(id, events).row.status == Executed
    ensures var s := After(id, events);
            && i < |s.trail| - 1 && s.row.approvedBy.Some? && s.trail[i] == Approve(s.row.approvedBy.value)
            && s.trail[|s.trail| - 1].Report? && s.trail[|s.trail| - 1].outcome == OutcomeExecuted
            && s.row.stage.Execution? && s.row.stage.outcome == OutcomeExecuted
  {
    hide After, Legal, ApproverOf, Count, EvidenceCount, SentAt, StatusOf;
    RunAccounted(id, events);
    i := ExecutedTrail(After(id, events).trail);
  }

  lemma {:induction false} NoApprovalStaysFinal(trail: seq<Entry>, i: nat)
    requires Legal(trail) && i < |trail| && IsFinal(trail[i]) && forall k :: i < k < |trail| ==> !trail[k].Approve?
    ensures i == |trail| - 1
  {
    if i < |trail| - 1 {
      NoApprovalStaysFinal(trail[..|trail| - 1], i);
    }
  }

  lemma {:induction false} PrefixLegal(trail: seq<Entry>, n: nat)
    requires Legal(trail) && n <= |trail|
    ensures Legal(trail[..n])
  {
    if n < |trail| {
      PrefixLegal(trail[..|trail| - 1], n);
      assert trail[..|trail| - 1][..n] == trail[..n];
    } else {
      assert trail[..n] == trail;
    }
  }

  /** No second outcome, and so no second evidence for one, without a new approval: between
      two reported outcomes there is an approval. */
  lemma OutcomesNeedApprovals(trail: seq<Entry>, i: nat, j: nat)
    requires Legal(trail) && i < j < |trail| && IsFinal(trail[i]) && IsFinal(trail[j])
    ensures exists k :: i < k < j && trail[k].Approve?
  {
    if forall k :: i < k < j ==> !trail[k].Approve? {
      PrefixLegal(trail, j + 1);
      NoApprovalStaysFinal(trail[..j + 1], i);
      assert false;
    }
  }

  /** Every message sent was authorised by an approval of its own, or follows a dry run
      that put the approval back. */
  lemma {:induction false} SendsAreAuthorised(trail: seq<Entry>)
    requires Legal(trail)
    ensures Count(trail, IsSend) + (if StatusOf(trail) == Approved then 1 else 0)
            <= Count(trail, IsApproval) + Count(trail, IsRehearsal)
  {
    if trail != [] { SendsAreAuthorised(trail[..|trail| - 1]); }
  }

  // ---------------------------------------------------------------- unconfirmed actions

  /** The last message sent is entry `n`, and nothing was heard of it since. */
  predicate Unheard(trail: seq<Entry>, n: nat) {
    n < |trail| && trail[n].Dispatch? && forall k :: n < k < |trail| ==> trail[k].Approve?
  }

  lemma {:induction false} UnheardStatus(trail: seq<Entry>, n: nat)
    requires Legal(trail) && Unheard(trail, n)
    ensures SentAt(trail) == Some(trail[n].at)
    ensures StatusOf(trail) == Dispatched <==> n == |trail| - 1
  {
    if n < |trail| - 1 { UnheardStatus(trail[..|trail| - 1], n); }
  }

  /** An action that was sent and not heard of since is still dispatched, with the time it
      was sent, exactly when it was not approved again meanwhile; and it is then listed as
      unconfirmed exactly when the threshold has passed. */
  lemma UnheardIsVisible(id: string, events: seq<Event>, n: nat, now: Time, staleAfter: nat)
    requires Unheard(After(id, events).trail, n)
    ensures var s := After(id, events);
            && (s.row.status == Dispatched <==> n == |s.trail| - 1)
            && (Stale(s.row, now, staleAfter) <==> n == |s.trail| - 1 && now - s.trail[n].at > staleAfter)
  {
    hide Legal, ApproverOf, EvidenceCount, Count, SentAt, After;
    RunAccounted(id, events);
    UnheardStatus(After(id, events).trail, n);
  }

  /** Approval only where a proposal or a refused dispatch waits for one. */
  predicate ApprovesWaiting(trail: seq<Entry>) {
    forall k :: 0 <= k < |trail| && trail[k].Approve? ==> StatusOf(trail[..k]) in {PendingApproval, DispatchFailed}
  }

  lemma SentStatus(trail: seq<Entry>, n: nat)
    requires n < |trail| && trail[n].Dispatch?
    ensures StatusOf(trail[..n + 1]) == Dispatched
  {}

  lemma WaitingApprovalsComeLater(trail: seq<Entry>, n: nat)
    requires Unheard(trail, n) && ApprovesWaiting(trail)
    ensures n == |trail| - 1
  {
    SentStatus(trail, n);
    if n < |trail| - 1 { assert false; }
  }

  /** Under that discipline every sent action without word since is visible. */
  lemma WaitingApprovalsKeepItVisible(id: string, events: seq<Event>, n: nat, now: Time, staleAfter: nat)
    requires Unheard(After(id, events).trail, n) && ApprovesWaiting(After(id, events).trail)
    ensures var s := After(id, events);
            s.row.status == Dispatched && s.row.dispatchedAt == Some(s.trail[n].at)
            && (Stale(s.row, now, staleAfter) <==> now - s.trail[n].at > staleAfter)
  {
    hide After, Legal, ApproverOf, EvidenceCount, Count, SentAt, ApprovesWaiting;
    UnheardIsVisible(id, events, n, now, staleAfter);
    RunAccounted(id, events);
    WaitingApprovalsComeLater(After(id, events).trail, n);
    UnheardStatus(After(id, events).trail, n);
  }

  /** The rows listed for reconciliation, by position. */
  function Unconfirmed(rows: seq<Row>, now: Time, staleAfter: nat): (r: seq<nat>)
    ensures forall k: nat :: k in r <==>
              k < |rows| && rows[k].status == Dispatched
              && (rows[k].dispatchedAt.None? || now - rows[k].dispatchedAt.value > staleAfter)
  {
    if rows == [] then []
    else
      var last := |rows| - 1;
      var front := Unconfirmed(rows[..last], now, staleAfter);
      if Stale(rows[last], now, staleAfter) then front + [last] else front
  }

  // ---------------------------------------------------------------- what may change an outcome

  /** On an action with a reported outcome nothing but an approval changes the status, the
      outcome, its time, the evidence or the audit entries; an approval always does. */
  lemma OnlyApprovalReopens(id: string, s: State, e: Event)
    requires s.row.status in TERMINAL
    ensures e.EApprove? <==> Step(id, s, e).row.status != s.row.status
    ensures !e.EApprove? ==>
              var t := Step(id, s, e);
              && t.row.stage == s.row.stage && t.row.executedAt == s.row.executedAt && t.row.taskStatus == s.row.taskStatus
              && t.evidence == s.evidence && t.trail == s.trail
  {}

  /** A returning call moves the status exactly when it was refused and no outcome is
      reported, and an accepted one leaves its task id whatever was reported meanwhile. */
  lemma ReturnMovesStatus(id: string, s: State, reply: Reply)
    requires s.inFlight > 0
    ensures Step(id, s, EReturn(reply)).row.status ==
            if reply.Refused? && s.row.status !in TERMINAL then DispatchFailed else s.row.status
    ensures reply.Accepted? && reply.taskId != "" ==> Step(id, s, EReturn(reply)).row.taskId == Some(reply.taskId)
  {}

  /** Evidence is only ever added. */
  lemma {:induction false} EvidenceOnlyGrows(id: string, events: seq<Event>, n: nat)
    requires n <= |events|
    ensures After(id, events[..n]).evidence <= After(id, events).evidence
  {
    if n < |events| {
      var front := events[..|events| - 1];
      EvidenceOnlyGrows(id, front, n);
      assert front[..n] == events[..n];
      StepAddsEvidence(id, After(id, front), events[|events| - 1]);
    } else {
      assert events[..n] == events;
    }
  }

  lemma StepAddsEvidence(id: string, s: State, e: Event)
    ensures s.evidence <= Step(id, s, e).evidence
  {}

  /** A refusal that returns after a dry-run report takes the approval with it. */
  lemma RefusalUndoesRehearsal(id: string, s: State, a: Account, now: Time, reason: string)
    requires s.inFlight > 0 && s.row.status in {Dispatched, Approved} && a.outcome == Some(OutcomeDryRun)
    ensures var t := Step(id, s, EReport(a, now));
            t.row.status == Approved && Step(id, t, EReturn(Refused(reason))).row.status == DispatchFailed
  {}

  // ---------------------------------------------------------------- the documented progression

  /** The arrows of the documented progression; both failures end a dispatch. */
  predicate Documented(a: Status, b: Status) {
    || (a == PendingApproval && b == Approved)
    || (a == Approved && b == Dispatched)
    || (a == Dispatched && b in {Executed, DispatchFailed, Failed})
  }

  /** What moves the status against it: an approval of anything but a proposal, a refusal
      that returns or a final report that arrives once the action is approved again, and a
      dry-run report, which takes a dispatched action back. */
  predicate Against(s: State, e: Event) {
    match e
    case EApprove(_, _) => s.row.status !in {PendingApproval, Approved}
    case EDispatch(_, _) => false
    case EReturn(reply) => s.inFlight > 0 && reply.Refused? && s.row.status == Approved
    case EReport(a, _) =>
      a.outcome.Some? && s.row.status == if a.outcome.value == OutcomeDryRun then Dispatched else Approved
  }

  lemma ProposalIsUnsent(trail: seq<Entry>)
    requires Legal(trail) && StatusOf(trail) == PendingApproval
    ensures trail == []
  {}

  /** A step keeps the status or follows an arrow exactly when it is none of these. */
  lemma StepProgresses(id: string, s: State, e: Event)
    requires Accounted(s)
    ensures var t := Step(id, s, e);
            t.row.status == s.row.status || Documented(s.row.status, t.row.status) <==> !Against(s, e)
  {
    if s.row.status == PendingApproval {
      ProposalIsUnsent(s.trail);
      assert s.inFlight == 0;
    }
  }

  /** Step `n` of the run keeps the status or follows an arrow. */
  ghost predicate ProgressesAt(id: string, events: seq<Event>, n: nat)
    requires n < |events|
  {
    var before, after := After(id, events[..n]).row.status, After(id, events[..n + 1]).row.status;
    before == after || Documented(before, after)
  }

  ghost predicate Progresses(id: string, events: seq<Event>) {
    forall n: nat {:trigger ProgressesAt(id, events, n)} :: n < |events| ==> ProgressesAt(id, events, n)
  }

  ghost predicate AgainstAt(id: string, events: seq<Event>, n: nat)
    requires n < |events|
  {
    Against(After(id, events[..n]), events[n])
  }

  lemma ProgressesAtIff(id: string, events: seq<Event>, n: nat)
    requires n < |events|
    ensures ProgressesAt(id, events, n) <==> !AgainstAt(id, events, n)
  {
    assert events[..n + 1][..n] == events[..n];
    var s := After(id, events[..n]);
    assert After(id, events[..n + 1]) == Step(id, s, events[n]);
    RunAccounted(id, events[..n]);
    StepProgresses(id, s, events[n]);
  }

  /** For every run: the status progresses as documented if and only if no step is one of
      those against it. */
  lemma RunProgressesIff(id: string, events: seq<Event>)
    ensures Progresses(id, events) <==>
              forall n: nat {:trigger AgainstAt(id, events, n)} :: n < |events| ==> !AgainstAt(id, events, n)
  {
    hide ProgressesAt, AgainstAt;
    forall n: nat | n < |events| ensures ProgressesAt(id, events, n) <==> !AgainstAt(id, events, n) {
      ProgressesAtIff(id, events, n);
    }
  }

  /** One message once the action was dispatched, one outcome once it has one. */
  predicate SentOnce(s: State) {
    && Count(s.trail, IsSend) == (if s.row.status in {PendingApproval, Approved} then 0 else 1)
    && Count(s.trail, IsFinal) == (if s.row.status in TERMINAL then 1 else 0)
  }

  /** Where the progression leaves room for an entry. */
  predicate InTurn(status: Status, e: Entry) {
    match e
    case Approve(_) => status == PendingApproval
    case Dispatch(_) => status == Approved
    case Refuse(_) => status in {Dispatched, DispatchFailed}
    case Report(outcome, _) => status == if outcome == OutcomeDryRun then Approved else Dispatched
  }

  lemma EntrySendsOnce(s: State, t: State, e: Entry)
    requires SentOnce(s) && InTurn(s.row.status, e) && t.trail == s.trail + [e] && t.row.status == StatusOf(t.trail)
    ensures SentOnce(t)
  {
    assert t.trail[..|s.trail|] == s.trail;
  }

  lemma StepSendsOnce(id: string, s: State, e: Event)
    requires Accounted(s) && SentOnce(s) && !Against(s, e)
    ensures SentOnce(Step(id, s, e))
  {
    var t := Step(id, s, e);
    assert s.row.status == PendingApproval ==> s.inFlight == 0 by {
      if s.row.status == PendingApproval { ProposalIsUnsent(s.trail); }
    }
    assert t.row.status == StatusOf(t.trail) by { StepAccounted(id, s, e); }
    hide Accounted, StatusOf, Count, EvidenceOf, Reason;
    match e
    case EApprove(user, _) => if s.row.status != Approved { EntrySendsOnce(s, t, Approve(user)); }
    case EDispatch(r, now) => if Begin(s, r, now).Some? { EntrySendsOnce(s, t, Dispatch(now)); }
    case EReturn(reply) => if t.trail != s.trail { EntrySendsOnce(s, t, Refuse(reply.reason)); }
    case EReport(a, _) =>
      if t.trail != s.trail { EntrySendsOnce(s, t, Report(a.outcome.value, |EvidenceOf(id, a.records, a.outcome.value)|)); }
  }

  /** A run that progresses as documented sends at most one message and reports at most one
      outcome. */
  lemma {:induction false} ProgressSendsOnce(id: string, events: seq<Event>)
    requires Progresses(id, events)
    ensures SentOnce(After(id, events))
    ensures Count(After(id, events).trail, IsSend) <= 1 && Count(After(id, events).trail, IsFinal) <= 1
  {
    if events != [] {
      var front, n := events[..|events| - 1], |events| - 1;
      forall k: nat | k < |front| ensures ProgressesAt(id, front, k) {
        assert front[..k] == events[..k] && front[..k + 1] == events[..k + 1] && ProgressesAt(id, events, k);
      }
      ProgressSendsOnce(id, front);
      RunAccounted(id, front);
      ProgressesAtIff(id, events, n);
      StepSendsOnce(id, After(id, front), events[n]);
    }
  }

  /** An executed action that is approved again can be sent and reported on a second time. */
  lemma ExecutedCanBeSentAgain(id: string)
    ensures Legal([Approve("ann"), Dispatch(1), Report(OutcomeExecuted, 1), Approve("ann"), Dispatch(2), Report(OutcomeExecuted, 1)])
    ensures exists events :: After(id, events).trail ==
              [Approve("ann"), Dispatch(1), Report(OutcomeExecuted, 1), Approve("ann"), Dispatch(2), Report(OutcomeExecuted, 1)]
  {
    var first := Sent(Approve("ann"), Dispatch(1));
    Grown(first, Report(OutcomeExecuted, 1));
    Grown(first + [Report(OutcomeExecuted, 1)], Approve("ann"));
    Grown(first + [Report(OutcomeExecuted, 1)] + [Approve("ann")], Dispatch(2));
    Grown(first + [Report(OutcomeExecuted, 1)] + [Approve("ann")] + [Dispatch(2)], Report(OutcomeExecuted, 1));
    var all := first + [Report(OutcomeExecuted, 1)] + [Approve("ann")] + [Dispatch(2)] + [Report(OutcomeExecuted, 1)];
    assert all == [Approve("ann"), Dispatch(1), Report(OutcomeExecuted, 1), Approve("ann"), Dispatch(2), Report(OutcomeExecuted, 1)];
    TrailsAreLegal(id, all);
  }

  /** So can, without another approval, one whose first dispatch was reported as a dry run. */
  lemma RehearsedIsSentAgain(id: string)
    ensures Legal([Approve("ann"), Dispatch(1), Report(OutcomeDryRun, 0), Dispatch(2)])
    ensures exists events :: After(id, events).trail == [Approve("ann"), Dispatch(1), Report(OutcomeDryRun, 0), Dispatch(2)]
  {
    var first := Sent(Approve("ann"), Dispatch(1));
    Grown(first, Report(OutcomeDryRun, 0));
    Grown(first + [Report(OutcomeDryRun, 0)], Dispatch(2));
    var all := first + [Report(OutcomeDryRun, 0)] + [Dispatch(2)];
    assert all == [Approve("ann"), Dispatch(1), Report(OutcomeDryRun, 0), Dispatch(2)];
    TrailsAreLegal(id, all);
  }

  lemma Sent(approval: Entry, send: Entry) returns (trail: seq<Entry>)
    requires approval.Approve? && approval.user != "" && send.Dispatch?
    ensures trail == [approval, send] && Legal(trail)
    ensures ApproverOf(trail) == Some(approval.user)
  {
    trail := [approval, send];
    assert [] + [approval] == [approval] && [approval] + [send] == trail;
    assert Legal([]);
    Grown([], approval);
    Grown([approval], send);
  }
}
