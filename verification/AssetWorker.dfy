/** Progress of the worker loop: what every unit of work lowers, and how long a lone job takes. */
module AssetWorker {
  import opened Wrappers
  import opened Planner
  import opened AssetJobs
  import opened AssetInvariants
  import opened AssetRuns

  // ---------------------------------------------------------------- what is left to do

  function PlanningLeft(job: Job): nat {
    if job.status == Queued then 2 else if job.status == Planning then 1 else 0
  }

  function PartsLeft(parts: seq<Part>): nat {
    if parts == [] then 0
    else
      var last := parts[|parts| - 1];
      PartsLeft(parts[..|parts| - 1]) + (if last.status == Queued then 2 else if last.status == Running then 1 else 0)
  }

  function BuildingLeft(job: Job): nat { PartsLeft(job.parts) }

  function FinishingLeft(job: Job): nat {
    if job.status == Running then 2 else if job.status == Finalizing then 1 else 0
  }

  function SumOver(jobs: seq<Job>, f: Job -> nat): nat {
    if jobs == [] then 0 else SumOver(jobs[..|jobs| - 1], f) + f(jobs[|jobs| - 1])
  }

  datatype Work = Work(planning: nat, building: nat, finishing: nat) {
    /** Lexicographic order. */
    predicate Below(other: Work) {
      || planning < other.planning
      || (planning == other.planning && building < other.building)
      || (planning == other.planning && building == other.building && finishing < other.finishing)
    }
  }

  function JobWork(job: Job): Work { Work(PlanningLeft(job), BuildingLeft(job), FinishingLeft(job)) }

  function WorkLeft(s: State): Work {
    Work(SumOver(s.jobs, PlanningLeft), SumOver(s.jobs, BuildingLeft), SumOver(s.jobs, FinishingLeft))
  }

  /** Claims and outcomes: everything a worker commits but a lease renewal. */
  predicate IsWork(e: JobEvent) { !e.ECancel? && !e.EResume? && !e.EHeartbeat? }

  lemma {:induction false} PartsLeftUpdate(parts: seq<Part>, i: nat, p: Part)
    requires i < |parts|
    ensures PartsLeft(parts[i := p]) == PartsLeft(parts)
              - (if parts[i].status == Queued then 2 else if parts[i].status == Running then 1 else 0)
              + (if p.status == Queued then 2 else if p.status == Running then 1 else 0)
  {
    var n := |parts| - 1;
    if i < n {
      PartsLeftUpdate(parts[..n], i, p);
      assert parts[i := p][..n] == parts[..n][i := p];
    } else {
      assert parts[i := p][..n] == parts[..n];
    }
  }

  lemma {:induction false} SumOverUpdate(jobs: seq<Job>, j: nat, job: Job, f: Job -> nat)
    requires j < |jobs|
    ensures SumOver(jobs[j := job], f) == SumOver(jobs, f) - f(jobs[j]) + f(job)
  {
    var n := |jobs| - 1;
    if j < n {
      SumOverUpdate(jobs[..n], j, job, f);
      assert jobs[j := job][..n] == jobs[..n][j := job];
    } else {
      assert jobs[j := job][..n] == jobs[..n];
    }
  }

  /** A partition that `e` moves on. */
  lemma PartWorkDecreases(c: Config, job: Job, e: JobEvent)
    requires JobStep(c, job, e).Some? && (e.EClaimPart? || e.ECompletePart? || e.EFailPart? || e.EStopPart?)
    ensures var next := JobStep(c, job, e).value;
            && PlanningLeft(next) <= PlanningLeft(job) && BuildingLeft(next) < BuildingLeft(job)
            && FinishingLeft(next) <= FinishingLeft(job)
  {
    var next := JobStep(c, job, e).value;
    var p := next.parts[e.i];
    assert next.parts == job.parts[e.i := p];
    PartsLeftUpdate(job.parts, e.i, p);
  }

  /** Every unit of work on a job lowers what is left of it. */
  lemma JobWorkDecreases(c: Config, job: Job, e: JobEvent)
    requires JobStep(c, job, e).Some? && IsWork(e)
    ensures var next := JobStep(c, job, e).value;
            && JobWork(next).Below(JobWork(job))
            && (PlanningLeft(job) == 0 ==> BuildingLeft(next) + FinishingLeft(next) < BuildingLeft(job) + FinishingLeft(job))
  {
    if e.EClaimPart? || e.ECompletePart? || e.EFailPart? || e.EStopPart? {
      PartWorkDecreases(c, job, e);
    }
  }

  /** In any interleaving of any number of workers, each claim and each outcome lowers the
      work left in the whole database, in lexicographic order. */
  lemma WorkDecreases(c: Config, s: State, j: nat, e: JobEvent)
    requires Step(c, s, EJob(j, e)).Some? && IsWork(e)
    ensures var t := Step(c, s, EJob(j, e)).value;
            && WorkLeft(t).Below(WorkLeft(s))
            && (WorkLeft(s).planning == 0 ==>
                  WorkLeft(t).planning == 0
                  && WorkLeft(t).building + WorkLeft(t).finishing < WorkLeft(s).building + WorkLeft(s).finishing)
  {
    hide Step, JobStep;
    JobRow(c, s, j, e);
    var next := JobStep(c, s.jobs[j], e).value;
    JobWorkDecreases(c, s.jobs[j], e);
    SumOverUpdate(s.jobs, j, next, PlanningLeft);
    SumOverUpdate(s.jobs, j, next, BuildingLeft);
    SumOverUpdate(s.jobs, j, next, FinishingLeft);
    if WorkLeft(s).planning == 0 { SumOverIsLarge(s.jobs, j, PlanningLeft); }
  }

  lemma {:induction false} SumOverIsLarge(jobs: seq<Job>, j: nat, f: Job -> nat)
    requires j < |jobs|
    ensures f(jobs[j]) <= SumOver(jobs, f)
  {
    if j < |jobs| - 1 { SumOverIsLarge(jobs[..|jobs| - 1], j, f); }
  }

  /** Once nothing is left to plan, no run of pure work is longer than the work left:
      two transactions for each waiting partition, one for each held one, two for each
      job still to finish. */
  lemma {:induction false} WorkIsBounded(c: Config, s: State, events: seq<Event>)
    requires WorkLeft(s).planning == 0 && After(c, s, events).Some?
    requires forall e :: e in events ==> e.EJob? && IsWork(e.step)
    ensures WorkLeft(After(c, s, events).value).planning == 0
    ensures |events| + WorkLeft(After(c, s, events).value).building + WorkLeft(After(c, s, events).value).finishing
            <= WorkLeft(s).building + WorkLeft(s).finishing
  {
    hide WorkLeft;
    if events != [] {
      var n := |events| - 1;
      WorkIsBounded(c, s, events[..n]);
      assert events[n] in events;
      WorkDecreases(c, After(c, s, events[..n]).value, events[n].j, events[n].step);
    }
  }

  // ---------------------------------------------------------------- one worker cycle

  predicate NothingPlannable(s: State) { forall j :: 0 <= j < |s.jobs| ==> !Plannable(s.jobs[j]) }

  ghost predicate HasClaimable(job: Job) { exists i: nat :: Claimable(job, i) }

  ghost predicate NothingClaimable(s: State) { forall j :: 0 <= j < |s.jobs| ==> !HasClaimable(s.jobs[j]) }

  predicate NothingFinalizable(s: State) { forall j :: 0 <= j < |s.jobs| ==> !Finalizable(s.jobs[j]) }

  predicate PlanOutcome(w: Worker, e: JobEvent) { (e.EPlan? || e.EFailPlanning?) && e.w == w }

  predicate PartOutcome(i: nat, w: Worker, e: JobEvent) { (e.ECompletePart? || e.EFailPart?) && e.i == i && e.w == w }

  predicate FinalOutcome(w: Worker, e: JobEvent) { (e.EFinalize? || e.EFailFinal?) && e.w == w }

  /** What a cycle commits after recovery: the claim and the outcome of one unit of work,
      planning before building before finishing. */
  ghost predicate Unit(s: State, w: Worker, now: Time, claim: JobEvent, outcome: JobEvent) {
    || (claim == EClaimPlanning(w, now) && PlanOutcome(w, outcome))
    || (NothingPlannable(s) && claim.EClaimPart? && claim == EClaimPart(claim.i, w, now) && PartOutcome(claim.i, w, outcome))
    || (NothingPlannable(s) && NothingClaimable(s) && claim == EClaimFinal(w, now) && FinalOutcome(w, outcome))
  }

  /** The transactions of one undisturbed cycle of worker `w`: recovery and, if there is
      any, one unit of work. The cycle reports whether there was. */
  ghost predicate Cycle(c: Config, s: State, w: Worker, now: Time, events: seq<Event>) {
    && After(c, s, events).Some? && |events| > 0 && events[0] == ERecover(now)
    && var r := Step(c, s, ERecover(now)).value;
       if |events| == 1 then NothingPlannable(r) && NothingClaimable(r) && NothingFinalizable(r)
       else |events| == 3 && events[1].EJob? && events[2].EJob? && events[1].j == events[2].j
            && Unit(r, w, now, events[1].step, events[2].step)
  }

  /** No lease is held and no cancellation is pending: what undisturbed cycles leave behind. */
  ghost predicate Settled(s: State) {
    forall j {:trigger s.jobs[j]} :: 0 <= j < |s.jobs| ==> SettledJob(s.jobs[j])
  }

  predicate SettledJob(job: Job) {
    job.status != Planning && !AnyRunning(job.parts) && !(job.cancelRequested && job.status in ACTIVE)
  }

  lemma SettledIsStill(s: State, now: Time, maxAttempts: int)
    requires Settled(s)
    ensures MapJobs(s.jobs, job => Recovered(job, now, maxAttempts)) == s.jobs
  {
    forall j | 0 <= j < |s.jobs| ensures Recovered(s.jobs[j], now, maxAttempts) == s.jobs[j] {
      var job := s.jobs[j];
      assert SettledJob(job);
      assert MapParts(job.parts, p => RecoveredPart(p, now, maxAttempts)) == job.parts;
    }
  }

  lemma RecoverySettled(c: Config, s: State, now: Time)
    requires Settled(s)
    ensures Step(c, s, ERecover(now)) == Some(s)
  {
    SettledIsStill(s, now, c.maxAttempts);
  }

  /** The states a working cycle goes through. */
  lemma CycleStates(c: Config, s: State, w: Worker, now: Time, events: seq<Event>)
    requires Settled(s) && Cycle(c, s, w, now, events)
    ensures |events| == 1 ==> After(c, s, events) == Some(s)
    ensures |events| == 3 ==>
              && Step(c, s, events[1]).Some?
              && Step(c, Step(c, s, events[1]).value, events[2]) == After(c, s, events)
              && Unit(s, w, now, events[1].step, events[2].step)
  {
    RecoverySettled(c, s, now);
    assert events[..1] == [ERecover(now)] && events[..1][..0] == [];
    assert After(c, s, events[..1]) == Some(s);
    if |events| == 3 {
      assert events[..2] == events[..1] + [events[1]];
      AfterOne(c, s, events[..1], events[1]);
      assert events[..2][..1] == events[..1];
    } else {
      assert events[..1] == events;
    }
  }

  lemma UnitSettles(c: Config, job: Job, s: State, w: Worker, now: Time, claim: JobEvent, outcome: JobEvent)
    requires SettledJob(job) && Unit(s, w, now, claim, outcome)
    requires JobStep(c, job, claim).Some? && JobStep(c, JobStep(c, job, claim).value, outcome).Some?
    ensures SettledJob(JobStep(c, JobStep(c, job, claim).value, outcome).value)
  {
    hide NothingPlannable, NothingClaimable, Split, Done, AllDone;
    if claim.EClaimPlanning? { PlanUnitSettles(c, job, claim, outcome); }
    else if claim.EClaimPart? { PartUnitSettles(c, job, claim, outcome); }
  }

  lemma PlanUnitSettles(c: Config, job: Job, claim: JobEvent, outcome: JobEvent)
    requires SettledJob(job) && claim.EClaimPlanning? && PlanOutcome(claim.w, outcome)
    requires JobStep(c, job, claim).Some? && JobStep(c, JobStep(c, job, claim).value, outcome).Some?
    ensures SettledJob(JobStep(c, JobStep(c, job, claim).value, outcome).value)
  {}

  lemma PartUnitSettles(c: Config, job: Job, claim: JobEvent, outcome: JobEvent)
    requires SettledJob(job) && claim.EClaimPart? && PartOutcome(claim.i, claim.w, outcome)
    requires JobStep(c, job, claim).Some? && JobStep(c, JobStep(c, job, claim).value, outcome).Some?
    ensures SettledJob(JobStep(c, JobStep(c, job, claim).value, outcome).value)
  {}

  lemma WorkingCycleRow(c: Config, s: State, w: Worker, now: Time, events: seq<Event>)
    requires Settled(s) && Cycle(c, s, w, now, events) && |events| == 3
    ensures var j, claim, outcome := events[1].j, events[1].step, events[2].step;
            && j < |s.jobs| && JobStep(c, s.jobs[j], claim).Some?
            && JobStep(c, JobStep(c, s.jobs[j], claim).value, outcome).Some?
            && After(c, s, events).value.jobs == s.jobs[j := JobStep(c, JobStep(c, s.jobs[j], claim).value, outcome).value]
  {
    CycleStates(c, s, w, now, events);
    var j := events[1].j;
    JobRow(c, s, j, events[1].step);
    JobRow(c, Step(c, s, events[1]).value, j, events[2].step);
  }

  /** Without crash, cancellation or resumption every cycle that reports work lowers the
      work left, one that reports none changes nothing and finds nothing to claim, and
      either leaves no lease behind. */
  lemma CycleProgress(c: Config, s: State, w: Worker, now: Time, events: seq<Event>)
    requires Settled(s) && Cycle(c, s, w, now, events)
    ensures var t := After(c, s, events).value;
            && Settled(t)
            && (|events| == 3 ==> WorkLeft(t).Below(WorkLeft(s)))
            && (|events| == 1 ==> t == s && NothingPlannable(s) && NothingClaimable(s) && NothingFinalizable(s))
  {
    hide Step, JobStep, After;
    CycleStates(c, s, w, now, events);
    if |events| == 3 {
      WorkingCycleRow(c, s, w, now, events);
      var j := events[1].j;
      assert SettledJob(s.jobs[j]);
      UnitSettles(c, s.jobs[j], s, w, now, events[1].step, events[2].step);
      var m := Step(c, s, events[1]).value;
      WorkDecreases(c, s, j, events[1].step);
      WorkDecreases(c, m, j, events[2].step);
    } else {
      RecoverySettled(c, s, now);
    }
  }

  // ---------------------------------------------------------------- a lone job

  /** A job of `n` partitions after `m` successful working cycles. */
  predicate Stage(job: Job, m: nat, n: nat) {
    if m == 0 then job.status == Queued && !job.cancelRequested && job.parts == []
    else if m < n + 2 then
      && job.status == Running && !job.cancelRequested && |job.parts| == n && job.total == n
      && job.completed == m - 1 && Done(job.parts) == m - 1
      && forall i :: 0 <= i < n ==> job.parts[i].status in {Queued, Completed}
    else m == n + 2 && job.status == Completed
  }

  /** Planning yields `n` partitions, and nothing fails. */
  predicate Succeeds(n: nat, events: seq<Event>) {
    |events| == 3 ==>
      && events[2].EJob?
      && match events[2].step
         case EPlan(_, stream, batches) => stream != [] && |batches| == n
         case ECompletePart(_, _, _) => true
         case EFinalize(_) => true
         case _ => false
  }

  lemma StageSettled(job: Job, m: nat, n: nat)
    requires Stage(job, m, n)
    ensures job.status == Completed || SettledJob(job)
  {}

  lemma {:induction false} SomeWaits(parts: seq<Part>) returns (i: nat)
    requires Done(parts) < |parts| && forall k :: 0 <= k < |parts| ==> parts[k].status in {Queued, Completed}
    ensures i < |parts| && parts[i].status == Queued
  {
    DoneBound(parts);
    i :| 0 <= i < |parts| && parts[i].status != Completed;
  }

  /** Which unit of work the next cycle finds. */
  lemma StageUnit(s: State, m: nat, n: nat)
    requires |s.jobs| == 1 && n > 0 && Stage(s.jobs[0], m, n)
    ensures m == 0 <==> !NothingPlannable(s)
    ensures 0 < m <= n <==> !NothingClaimable(s)
    ensures m == n + 1 <==> !NothingFinalizable(s)
  {
    var job := s.jobs[0];
    if 0 < m <= n {
      var i := SomeWaits(job.parts);
      assert Claimable(s.jobs[0], i);
    } else {
      DoneBound(job.parts);
    }
    if m == n + 1 {
      DoneBound(job.parts);
      assert Finalizable(s.jobs[0]);
    }
    if m == 0 { assert Plannable(s.jobs[0]); }
  }

  lemma PlanStage(c: Config, job: Job, n: nat, claim: JobEvent, outcome: JobEvent)
    requires Stage(job, 0, n) && n > 0 && claim.EClaimPlanning? && outcome.EPlan? && outcome.stream != [] && |outcome.batches| == n
    requires JobStep(c, job, claim).Some? && JobStep(c, JobStep(c, job, claim).value, outcome).Some?
    ensures Stage(JobStep(c, JobStep(c, job, claim).value, outcome).value, 1, n)
  {
    DoneOfNone(PartsOf(outcome.batches));
  }

  lemma BuildStage(c: Config, job: Job, m: nat, n: nat, claim: JobEvent, outcome: JobEvent)
    requires Stage(job, m, n) && 0 < m <= n && claim.EClaimPart? && outcome.ECompletePart? && outcome.i == claim.i
    requires JobStep(c, job, claim).Some? && JobStep(c, JobStep(c, job, claim).value, outcome).Some?
    ensures Stage(JobStep(c, JobStep(c, job, claim).value, outcome).value, m + 1, n)
  {
    var held := JobStep(c, job, claim).value;
    var next := JobStep(c, held, outcome).value;
    assert held.parts == job.parts[claim.i := held.parts[claim.i]];
    assert next.parts == held.parts[claim.i := next.parts[claim.i]];
    DoneUpdate(job.parts, claim.i, held.parts[claim.i]);
    DoneUpdate(held.parts, claim.i, next.parts[claim.i]);
    DoneBound(next.parts);
  }

  lemma FinalStage(c: Config, job: Job, n: nat, claim: JobEvent, outcome: JobEvent)
    requires Stage(job, n + 1, n) && n > 0 && claim.EClaimFinal? && outcome.EFinalize? && claim.w == outcome.w
    requires JobStep(c, job, claim).Some? && JobStep(c, JobStep(c, job, claim).value, outcome).Some?
    ensures Stage(JobStep(c, JobStep(c, job, claim).value, outcome).value, n + 2, n)
  {
    DoneBound(job.parts);
  }

  lemma StageStep(c: Config, job: Job, s: State, w: Worker, now: Time, claim: JobEvent, outcome: JobEvent, m: nat, n: nat)
    requires Stage(job, m, n) && n > 0 && Unit(s, w, now, claim, outcome) && Succeeds(n, [ERecover(now), EJob(0, claim), EJob(0, outcome)])
    requires JobStep(c, job, claim).Some? && JobStep(c, JobStep(c, job, claim).value, outcome).Some?
    requires (claim.EClaimPlanning? <==> m == 0) && (claim.EClaimFinal? ==> m == n + 1) && m < n + 2
    requires claim.EClaimPart? ==> m <= n
    ensures Stage(JobStep(c, JobStep(c, job, claim).value, outcome).value, m + 1, n)
  {
    hide Stage, JobStep, NothingClaimable, NothingPlannable;
    if m == 0 {
      PlanStage(c, job, n, claim, outcome);
    } else if m <= n {
      BuildStage(c, job, m, n, claim, outcome);
    } else {
      FinalStage(c, job, n, claim, outcome);
    }
  }

  /** One cycle of a lone job: the next stage, or nothing once it is completed. */
  lemma StageCycle(c: Config, s: State, w: Worker, now: Time, events: seq<Event>, m: nat, n: nat)
    requires |s.jobs| == 1 && n > 0 && Stage(s.jobs[0], m, n) && Settled(s)
    requires Cycle(c, s, w, now, events) && Succeeds(n, events)
    ensures |events| == (if m < n + 2 then 3 else 1)
    ensures var t := After(c, s, events).value;
            |t.jobs| == 1 && Settled(t) && Stage(t.jobs[0], if m < n + 2 then m + 1 else m, n)
  {
    hide Step, JobStep, After, Stage, Settled, Done, NothingPlannable, NothingClaimable, NothingFinalizable;
    CycleProgress(c, s, w, now, events);
    StageUnit(s, m, n);
    if |events| == 3 {
      WorkingCycleRow(c, s, w, now, events);
      CycleStates(c, s, w, now, events);
      var claim, outcome := events[1].step, events[2].step;
      StageClaim(c, s.jobs[0], m, n, claim);
      StageStep(c, s.jobs[0], s, w, now, claim, outcome, m, n);
    }
  }

  lemma StageClaim(c: Config, job: Job, m: nat, n: nat, claim: JobEvent)
    requires Stage(job, m, n) && JobStep(c, job, claim).Some? && IsClaim(claim)
    ensures m < n + 2
    ensures claim.EClaimPlanning? <==> m == 0
    ensures claim.EClaimFinal? ==> m == n + 1
    ensures claim.EClaimPart? ==> m <= n
  {
    DoneBound(job.parts);
  }

  /** A worker cycle at some time, with what it committed. */
  datatype Turn = Turn(now: Time, events: seq<Event>)

  /** The state after a worker's successive cycles. */
  ghost function AfterTurns(c: Config, s: State, w: Worker, turns: seq<Turn>): Option<State> {
    if turns == [] then Some(s)
    else
      var last := turns[|turns| - 1];
      match AfterTurns(c, s, w, turns[..|turns| - 1])
      case None => None
      case Some(m) => if Cycle(c, m, w, last.now, last.events) then After(c, m, last.events) else None
  }

  predicate AllSucceed(n: nat, turns: seq<Turn>) {
    forall k :: 0 <= k < |turns| ==> Succeeds(n, turns[k].events)
  }

  lemma {:induction false} StageReached(c: Config, s: State, w: Worker, n: nat, turns: seq<Turn>)
    requires |s.jobs| == 1 && Stage(s.jobs[0], 0, n) && n > 0
    requires AfterTurns(c, s, w, turns).Some? && AllSucceed(n, turns)
    ensures var t := AfterTurns(c, s, w, turns).value;
            |t.jobs| == 1 && Settled(t) && Stage(t.jobs[0], if |turns| < n + 2 then |turns| else n + 2, n)
    ensures turns != [] ==> |turns[|turns| - 1].events| == (if |turns| <= n + 2 then 3 else 1)
  {
    if turns == [] {
      StageSettled(s.jobs[0], 0, n);
    } else {
      var k := |turns| - 1;
      hide Cycle, Succeeds, Settled, After, Stage;
      StageReached(c, s, w, n, turns[..k]);
      var m := AfterTurns(c, s, w, turns[..k]).value;
      StageCycle(c, m, w, turns[k].now, turns[k].events, if k < n + 2 then k else n + 2, n);
    }
  }

  /** A lone queued job that is planned into `n` partitions which all succeed completes
      after exactly `n + 2` working cycles; every later cycle is idle. */
  lemma LoneJobCompletes(c: Config, s: State, w: Worker, n: nat, turns: seq<Turn>)
    requires |s.jobs| == 1 && Stage(s.jobs[0], 0, n) && n > 0
    requires AfterTurns(c, s, w, turns).Some? && AllSucceed(n, turns)
    ensures var t := AfterTurns(c, s, w, turns).value;
            && |t.jobs| == 1
            && (t.jobs[0].status == Completed <==> |turns| >= n + 2)
            && (t.jobs[0].status in TERMINAL <==> |turns| >= n + 2)
    ensures turns != [] ==> (|turns[|turns| - 1].events| == 3 <==> |turns| <= n + 2)
  {
    StageReached(c, s, w, n, turns);
  }
}
