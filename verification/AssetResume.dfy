/** Which jobs can still be completed: in every consistent state, all but the half planned ones. */
module AssetResume {
  import opened Wrappers
  import opened AssetOptions
  import opened Planner
  import opened AssetJobs
  import opened AssetInvariants
  import opened AssetRuns
  import opened AssetWorker

  /** A request about the job, or a commit of worker `w`, whose planning reads `stream`, or
      as far as it came before an error. */
  predicate Allowed(step: JobEvent, w: Worker, stream: seq<Entity>) {
    && (step.ECancel? || step.EResume? || step.w == w)
    && (step.EPlan? ==> step.stream == stream) && (step.EFailPlanning? ==> step.read <= stream)
  }

  /** Recovery, requests about job `j` and worker `w` on it: nothing else has to happen. */
  predicate AllowedOn(e: Event, j: nat, w: Worker, stream: seq<Entity>) {
    e.ERecover? || (e.EJob? && e.j == j && Allowed(e.step, w, stream))
  }

  /** The run `events`, to which no other worker contributes, ends with the job completed. */
  ghost predicate Completes(c: Config, s: State, j: nat, w: Worker, stream: seq<Entity>, events: seq<Event>) {
    && After(c, s, events).Some?
    && j < |After(c, s, events).value.jobs| && After(c, s, events).value.jobs[j].status == Completed
    && forall e :: e in events ==> AllowedOn(e, j, w, stream)
  }

  ghost predicate CanComplete(c: Config, s: State, j: nat, w: Worker, stream: seq<Entity>) {
    exists events :: Completes(c, s, j, w, stream, events)
  }

  // ---------------------------------------------------------------- one step more

  lemma {:induction false} AfterFirst(c: Config, s: State, e: Event, m: State, events: seq<Event>)
    requires Step(c, s, e) == Some(m)
    ensures After(c, s, [e] + events) == After(c, m, events)
  {
    var all := [e] + events;
    if events == [] {
      assert all == [e] && all[..0] == [];
    } else {
      var front := events[..|events| - 1];
      assert all[..|all| - 1] == [e] + front;
      AfterFirst(c, s, e, m, front);
    }
  }

  lemma ThenCompletes(c: Config, s: State, e: Event, m: State, j: nat, w: Worker, stream: seq<Entity>)
    requires Step(c, s, e) == Some(m) && AllowedOn(e, j, w, stream) && CanComplete(c, m, j, w, stream)
    ensures CanComplete(c, s, j, w, stream)
  {
    hide Step, After;
    var events :| Completes(c, m, j, w, stream, events);
    AfterFirst(c, s, e, m, events);
    assert Completes(c, s, j, w, stream, [e] + events);
  }

  /** A transaction that is enabled for its job is enabled. */
  lemma Take(c: Config, s: State, j: nat, step: JobEvent) returns (m: State)
    requires j < |s.jobs| && JobStep(c, s.jobs[j], step).Some?
    ensures Step(c, s, EJob(j, step)) == Some(m) && m.jobs == s.jobs[j := JobStep(c, s.jobs[j], step).value]
  {
    hide Outputs, Cancel, Resume, ClaimPlanning, Plan, ClaimPart, CompletePart, ClaimFinal, Heartbeat, FailPart, StopPart;
    assert Step(c, s, EJob(j, step)).Some?;
    m := Step(c, s, EJob(j, step)).value;
    JobRow(c, s, j, step);
  }

  lemma StepThenCompletes(c: Config, s: State, j: nat, step: JobEvent, m: State, w: Worker, stream: seq<Entity>)
    requires Step(c, s, EJob(j, step)) == Some(m) && Allowed(step, w, stream)
    requires CanComplete(c, m, j, w, stream)
    ensures CanComplete(c, s, j, w, stream)
  {
    hide Step, CanComplete;
    ThenCompletes(c, s, EJob(j, step), m, j, w, stream);
  }

  // ---------------------------------------------------------------- from the stages of a job

  /** Every entity in a batch of its own. */
  function Singles(stream: seq<Entity>): (r: seq<Batch>)
    ensures |r| == |stream|
  {
    if stream == [] then [] else Singles(stream[..|stream| - 1]) + [[stream[|stream| - 1]]]
  }

  lemma {:induction false} SinglesSplit(stream: seq<Entity>, o: Options)
    ensures PlannedBy(o, stream, Singles(stream))
  {
    if stream != [] {
      var front := stream[..|stream| - 1];
      SinglesSplit(front, o);
      assert Singles(stream)[..|stream| - 1] == Singles(front);
    }
  }

  /** The claim and the outcome that take a job to its next stage. */
  lemma NextUnit(c: Config, job: Job, m: nat, n: nat, w: Worker, stream: seq<Entity>) returns (claim: JobEvent, outcome: JobEvent)
    requires Stage(job, m, n) && n > 0 && m < n + 2 && (m == 0 ==> |stream| == n)
    ensures JobStep(c, job, claim).Some? && JobStep(c, JobStep(c, job, claim).value, outcome).Some?
    ensures Stage(JobStep(c, JobStep(c, job, claim).value, outcome).value, m + 1, n)
    ensures Allowed(claim, w, stream) && Allowed(outcome, w, stream)
  {
    if m == 0 {
      claim, outcome := EClaimPlanning(w, 0), EPlan(w, stream, Singles(stream));
      SinglesSplit(stream, job.key.options);
      PlanStage(c, job, n, claim, outcome);
    } else if m <= n {
      var i := SomeWaits(job.parts);
      claim, outcome := EClaimPart(i, w, 0), ECompletePart(i, w, job.parts[i].entities);
      assert Claimable(job, i);
      BuildStage(c, job, m, n, claim, outcome);
    } else {
      claim, outcome := EClaimFinal(w, 0), EFinalize(w);
      DoneBound(job.parts);
      FinalStage(c, job, n, claim, outcome);
    }
  }

  lemma {:induction false} StageCompletes(c: Config, s: State, j: nat, m: nat, n: nat, w: Worker, stream: seq<Entity>)
    requires j < |s.jobs| && Stage(s.jobs[j], m, n) && n > 0 && m <= n + 2 && (m == 0 ==> |stream| == n)
    ensures CanComplete(c, s, j, w, stream)
    decreases n + 2 - m
  {
    if m == n + 2 {
      assert Completes(c, s, j, w, stream, []);
    } else {
      var claim, outcome := NextUnit(c, s.jobs[j], m, n, w, stream);
      var held := Take(c, s, j, claim);
      var next := Take(c, held, j, outcome);
      StageCompletes(c, next, j, m + 1, n, w, stream);
      StepThenCompletes(c, held, j, outcome, next, w, stream);
      StepThenCompletes(c, s, j, claim, held, w, stream);
    }
  }

  // ---------------------------------------------------------------- from a failed or cancelled job

  /** There is something to build: partitions, or entities to make them from. */
  predicate BuildsSomething(job: Job, stream: seq<Entity>) { job.parts != [] || stream != [] }

  /** A resumed job that is not half planned is as far as its completed partitions. */
  lemma ResumedStage(job: Job, stream: seq<Entity>) returns (m: nat, n: nat)
    requires JobOk(job) && !HalfPlannedJob(job) && job.status in {Failed, Cancelled} && BuildsSomething(job, stream)
    ensures Resume(job).Some? && Stage(Resume(job).value, m, n) && n > 0 && m <= n + 1 && (m == 0 ==> |stream| == n)
  {
    var next := Resume(job).value;
    if job.parts == [] {
      m, n := 0, |stream|;
      assert next.parts == [];
    } else {
      DoneBound(next.parts);
      m, n := Done(next.parts) + 1, |job.parts|;
      forall i | 0 <= i < n ensures next.parts[i].status in {Queued, Completed} {
        assert PartOk(job.parts[i], job.key.options);
      }
    }
  }

  lemma StoppedCompletes(c: Config, s: State, j: nat, w: Worker, stream: seq<Entity>)
    requires j < |s.jobs| && JobOk(s.jobs[j]) && !HalfPlannedJob(s.jobs[j]) && s.jobs[j].status in {Failed, Cancelled}
    requires BuildsSomething(s.jobs[j], stream)
    ensures CanComplete(c, s, j, w, stream)
  {
    hide JobOk, HalfPlannedJob, CanComplete, Step, Stage, Resume, BuildsSomething;
    var m, n := ResumedStage(s.jobs[j], stream);
    var next := Take(c, s, j, EResume);
    StageCompletes(c, next, j, m, n, w, stream);
    StepThenCompletes(c, s, j, EResume, next, w, stream);
  }

  // ---------------------------------------------------------------- from any job

  /** A time when all leases have expired. */
  function AfterLeases(parts: seq<Part>): (t: Time)
    ensures forall i :: 0 <= i < |parts| && parts[i].lease.Some? ==> parts[i].lease.value < t
  {
    if parts == [] then 0
    else
      var front, last := parts[..|parts| - 1], parts[|parts| - 1];
      assert parts == front + [last];
      var t := AfterLeases(front);
      if last.lease.Some? && last.lease.value >= t then last.lease.value + 1 else t
  }

  /** Where nothing of a cancelled job runs, recovery ends it. */
  lemma QuietStops(job: Job, now: Time, maxAttempts: int)
    requires JobOk(job) && job.status in ACTIVE && job.cancelRequested && !AnyRunning(job.parts)
    ensures var r := Recovered(job, now, maxAttempts);
            r.status == Cancelled && r.total == job.total && |r.parts| == |job.parts|
  {}

  /** Where something does, recovery after all leases leaves nothing running. */
  lemma RecoveryQuiets(job: Job, maxAttempts: int)
    requires JobOk(job) && job.status in ACTIVE && job.cancelRequested && AnyRunning(job.parts)
    ensures var r := Recovered(job, AfterLeases(job.parts), maxAttempts);
            && r.total == job.total && |r.parts| == |job.parts| && r.cancelRequested
            && (r.status == Failed || (r.status in ACTIVE && !AnyRunning(r.parts)))
  {
    var now := AfterLeases(job.parts);
    forall i | 0 <= i < |job.parts| ensures RecoveredPart(job.parts[i], now, maxAttempts).status != Running {
      assert PartOk(job.parts[i], job.key.options);
    }
    assert job.status == Running;
  }

  /** The state after a recovery. */
  lemma Recover(c: Config, s: State, now: Time, j: nat) returns (m: State)
    requires Consistent(s) && j < |s.jobs|
    ensures Step(c, s, ERecover(now)) == Some(m) && Consistent(m) && |m.jobs| == |s.jobs|
    ensures m.jobs[j] == Recovered(s.jobs[j], now, c.maxAttempts) && JobOk(m.jobs[j])
  {
    m := Step(c, s, ERecover(now)).value;
    StepOk(c, s, ERecover(now));
  }

  lemma ConsistentJob(s: State, j: nat)
    requires Consistent(s) && j < |s.jobs|
    ensures JobOk(s.jobs[j])
  {}

  lemma QuietCompletes(c: Config, s: State, j: nat, w: Worker, stream: seq<Entity>)
    requires Consistent(s) && j < |s.jobs| && !HalfPlannedJob(s.jobs[j]) && BuildsSomething(s.jobs[j], stream)
    requires s.jobs[j].status in ACTIVE && s.jobs[j].cancelRequested && !AnyRunning(s.jobs[j].parts)
    ensures CanComplete(c, s, j, w, stream)
  {
    hide Consistent, Step, Recovered, CanComplete, JobOk, AnyRunning;
    ConsistentJob(s, j);
    QuietStops(s.jobs[j], 0, c.maxAttempts);
    var next := Recover(c, s, 0, j);
    StoppedCompletes(c, next, j, w, stream);
    ThenCompletes(c, s, ERecover(0), next, j, w, stream);
  }

  lemma CancellingCompletes(c: Config, s: State, j: nat, w: Worker, stream: seq<Entity>)
    requires Consistent(s) && j < |s.jobs| && !HalfPlannedJob(s.jobs[j]) && BuildsSomething(s.jobs[j], stream)
    requires s.jobs[j].status in ACTIVE && s.jobs[j].cancelRequested
    ensures CanComplete(c, s, j, w, stream)
  {
    hide Consistent, Step, Recovered, CanComplete, JobOk, AnyRunning;
    if AnyRunning(s.jobs[j].parts) {
      var now := AfterLeases(s.jobs[j].parts);
      ConsistentJob(s, j);
      RecoveryQuiets(s.jobs[j], c.maxAttempts);
      var next := Recover(c, s, now, j);
      if next.jobs[j].status == Failed {
        StoppedCompletes(c, next, j, w, stream);
      } else {
        QuietCompletes(c, next, j, w, stream);
      }
      ThenCompletes(c, s, ERecover(now), next, j, w, stream);
    } else {
      QuietCompletes(c, s, j, w, stream);
    }
  }

  lemma CancelRequests(job: Job, stream: seq<Entity>)
    requires job.status in ACTIVE && !HalfPlannedJob(job) && BuildsSomething(job, stream)
    ensures !HalfPlannedJob(Cancel(job)) && BuildsSomething(Cancel(job), stream)
    ensures Cancel(job).status == (if job.status == Queued then Cancelled else job.status) && Cancel(job).cancelRequested
  {}

  /** Cancelling an active job, recovering and resuming it, by whoever may. */
  lemma ActiveCompletes(c: Config, s: State, j: nat, w: Worker, stream: seq<Entity>)
    requires Consistent(s) && j < |s.jobs| && !HalfPlannedJob(s.jobs[j]) && s.jobs[j].status in ACTIVE
    requires BuildsSomething(s.jobs[j], stream)
    ensures CanComplete(c, s, j, w, stream)
  {
    hide JobOk, HalfPlannedJob, CanComplete, Step, Consistent, Cancel, BuildsSomething;
    var next := Take(c, s, j, ECancel);
    CancelRequests(s.jobs[j], stream);
    StepOk(c, s, EJob(j, ECancel));
    ConsistentJob(next, j);
    if s.jobs[j].status == Queued {
      StoppedCompletes(c, next, j, w, stream);
    } else {
      CancellingCompletes(c, next, j, w, stream);
    }
    StepThenCompletes(c, s, j, ECancel, next, w, stream);
  }

  lemma HalfPlannedCannot(c: Config, s: State, j: nat, w: Worker, stream: seq<Entity>)
    requires Consistent(s) && j < |s.jobs| && HalfPlannedJob(s.jobs[j])
    ensures !CanComplete(c, s, j, w, stream)
  {
    if CanComplete(c, s, j, w, stream) {
      var events :| Completes(c, s, j, w, stream, events);
      RunStaysHalfPlanned(c, s, events, After(c, s, events).value, j);
    }
  }

  /** A job without partitions whose model is empty. */
  predicate EmptyJob(job: Job) { job.parts == [] && job.status != Completed }

  /** An empty model flushes nothing, for no batch is empty. */
  lemma NothingFlushed(o: Options, read: seq<Entity>, batches: seq<Batch>)
    requires PlannedBy(o, read, batches)
    ensures batches != [] ==> read != []
  {
    if batches != [] {
      var last := batches[|batches| - 1];
      assert Fits(last, o.maxEntities, o.maxTriangles) && |Concat(batches)| >= |last|;
    }
  }

  lemma JobStaysEmpty(c: Config, job: Job, e: JobEvent, w: Worker)
    requires JobOk(job) && EmptyJob(job) && JobStep(c, job, e).Some? && Allowed(e, w, [])
    ensures EmptyJob(JobStep(c, job, e).value)
  {
    hide PartsOk, Done, AllDone, Split;
    if e.EFailPlanning? { NothingFlushed(job.key.options, e.read, e.flushed); }
  }

  lemma StaysEmpty(c: Config, s: State, e: Event, t: State, j: nat, w: Worker)
    requires Consistent(s) && Step(c, s, e) == Some(t) && j < |s.jobs| && EmptyJob(s.jobs[j]) && AllowedOn(e, j, w, [])
    ensures j < |t.jobs| && EmptyJob(t.jobs[j])
  {
    assert JobOk(s.jobs[j]);
    assert e.ERecover? ==> EmptyJob(Recovered(s.jobs[j], e.now, c.maxAttempts));
    StepIndex(c, s, e);
    StepRow(c, s, e, j);
    if e.EJob? && e.j == j { JobStaysEmpty(c, s.jobs[j], e.step, w); }
  }

  lemma {:induction false} RunStaysEmpty(c: Config, s: State, events: seq<Event>, t: State, j: nat, w: Worker)
    requires Consistent(s) && j < |s.jobs| && EmptyJob(s.jobs[j]) && After(c, s, events) == Some(t)
    requires forall e :: e in events ==> AllowedOn(e, j, w, [])
    ensures j < |t.jobs| && EmptyJob(t.jobs[j])
  {
    hide Step, Consistent, EmptyJob, AllowedOn;
    if events != [] {
      var n := |events| - 1;
      var m := After(c, s, events[..n]).value;
      assert events[n] in events;
      RunStaysEmpty(c, s, events[..n], m, j, w);
      RunKeeps(c, s, events[..n], m);
      StaysEmpty(c, m, events[n], t, j, w);
    }
  }

  lemma EmptyCannot(c: Config, s: State, j: nat, w: Worker)
    requires Consistent(s) && j < |s.jobs| && EmptyJob(s.jobs[j])
    ensures !CanComplete(c, s, j, w, [])
  {
    if CanComplete(c, s, j, w, []) {
      var events :| Completes(c, s, j, w, [], events);
      RunStaysEmpty(c, s, events, After(c, s, events).value, j, w);
    }
  }

  /** In every consistent state, whatever the status of the job, whoever holds its rows and
      whatever its model holds: some run to which any one worker alone contributes completes
      the job if and only if it is not half planned and, unless it is completed already, there
      is something to build. So the job survives the crash of all workers that hold it. */
  lemma CanCompleteIff(c: Config, s: State, j: nat, w: Worker, stream: seq<Entity>)
    requires Consistent(s) && j < |s.jobs|
    ensures var job := s.jobs[j];
            CanComplete(c, s, j, w, stream) <==>
              !HalfPlannedJob(job) && (job.status == Completed || BuildsSomething(job, stream))
  {
    var job := s.jobs[j];
    assert JobOk(job);
    if job.status == Completed { assert Completes(c, s, j, w, stream, []); }
    if HalfPlannedJob(job) {
      HalfPlannedCannot(c, s, j, w, stream);
    } else if job.status != Completed && !BuildsSomething(job, stream) {
      EmptyCannot(c, s, j, w);
    } else if job.status in ACTIVE {
      ActiveCompletes(c, s, j, w, stream);
    } else if job.status != Completed {
      StoppedCompletes(c, s, j, w, stream);
    }
  }

  /** After a planning error before the total is set any one worker can still complete the job
      if and only if nothing had been flushed and the model has an entity. */
  lemma BrokenPlanCompletesIff(c: Config, s: State, j: nat, planner: Worker, read: seq<Entity>, flushed: seq<Batch>, broken: State,
                               w: Worker, stream: seq<Entity>)
    requires Consistent(s) && j < |s.jobs|
    requires Step(c, s, EJob(j, EFailPlanning(planner, read, flushed))) == Some(broken)
    ensures j < |broken.jobs| && (CanComplete(c, broken, j, w, stream) <==> flushed == [] && stream != [])
  {
    hide Step, Consistent, CanComplete, JobOk;
    BrokenPlan(c, s, j, planner, read, flushed);
    StepOk(c, s, EJob(j, EFailPlanning(planner, read, flushed)));
    CanCompleteIff(c, broken, j, w, stream);
  }

  lemma BrokenPlan(c: Config, s: State, j: nat, planner: Worker, read: seq<Entity>, flushed: seq<Batch>)
    requires Consistent(s) && j < |s.jobs| && Step(c, s, EJob(j, EFailPlanning(planner, read, flushed))).Some?
    ensures var broken := Step(c, s, EJob(j, EFailPlanning(planner, read, flushed))).value;
            && |broken.jobs| == |s.jobs| && broken.jobs[j].status == Failed
            && (broken.jobs[j].parts != [] <==> flushed != []) && (HalfPlannedJob(broken.jobs[j]) <==> flushed != [])
  {
    assert JobOk(s.jobs[j]);
  }
}
