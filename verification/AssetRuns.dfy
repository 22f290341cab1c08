/** Theorems over every interleaving of requests, claims, crashes, lease recovery, cancellation and resumption. */
module AssetRuns {
  import opened Basics
  import opened Wrappers
  import opened AssetOptions
  import opened Planner
  import opened AssetJobs
  import opened AssetInvariants

  /** The state after a sequence of committed transactions, if all were enabled. */
  ghost function After(c: Config, s: State, events: seq<Event>): Option<State> {
    if events == [] then Some(s)
    else
      match After(c, s, events[..|events| - 1])
      case None => None
      case Some(m) => Step(c, m, events[|events| - 1])
  }

  lemma PartsKeepTransitive(a: seq<Part>, b: seq<Part>, d: seq<Part>)
    requires PartsKeep(a, b) && PartsKeep(b, d)
    ensures PartsKeep(a, d)
  {
    forall i | 0 <= i < |a| ensures PartKeeps(a[i], d[i]) {
      assert PartKeeps(a[i], b[i]) && PartKeeps(b[i], d[i]);
    }
  }

  lemma KeepsTransitive(s: State, m: State, t: State)
    requires Keeps(s, m) && Keeps(m, t)
    ensures Keeps(s, t)
  {
    forall j | 0 <= j < |s.jobs| ensures JobKeeps(s.jobs[j], t.jobs[j]) {
      assert JobKeeps(s.jobs[j], m.jobs[j]) && JobKeeps(m.jobs[j], t.jobs[j]);
      if s.jobs[j].parts != [] { PartsKeepTransitive(s.jobs[j].parts, m.jobs[j].parts, t.jobs[j].parts); }
    }
  }

  /** Over every run: the counters agree with the partition rows, a finalizing or built
      job has all partitions completed, the cache counts the completed jobs; partition
      entity lists are written once, and completed partitions, their outputs and
      completed jobs never change again. */
  lemma {:induction false} RunKeeps(c: Config, s: State, events: seq<Event>, t: State)
    requires Consistent(s) && After(c, s, events) == Some(t)
    ensures Consistent(t) && Keeps(s, t)
  {
    if events == [] {
      JobKeepsItself(s.jobs);
    } else {
      var front := events[..|events| - 1];
      var m := After(c, s, front).value;
      RunKeeps(c, s, front, m);
      StepOk(c, m, events[|events| - 1]);
      KeepsTransitive(s, m, t);
    }
  }

  lemma ReachableIsConsistent(c: Config, events: seq<Event>, t: State)
    requires After(c, EMPTY, events) == Some(t)
    ensures Consistent(t)
  {
    RunKeeps(c, EMPTY, events, t);
  }

  /** In every reachable state: the check for unfinished partitions never refuses a worker
      that holds a job for finalization, planning never meets existing partitions, and a
      cancelled queued job has no partition to cancel. */
  lemma RefusalsAreUnreachable(c: Config, events: seq<Event>, t: State, j: nat)
    requires After(c, EMPTY, events) == Some(t) && j < |t.jobs|
    ensures var job := t.jobs[j];
            && (job.status == Finalizing ==> ReadyToFinalize(job))
            && (job.status in {Queued, Planning} ==> job.parts == [])
            && job.completed == Done(job.parts) && (Finalizable(job) ==> AllDone(job.parts))
  {
    ReachableIsConsistent(c, events, t);
    var job := t.jobs[j];
    assert JobOk(job);
    DoneBound(job.parts);
  }

  // ---------------------------------------------------------------- every entity once

  lemma {:induction false} OutputsArePermuted(parts: seq<Part>, o: Options)
    requires PartsOk(parts, o) && AllDone(parts)
    ensures multiset(Outputs(parts)) == multiset(Entities(parts))
  {
    if parts != [] {
      var front, last := parts[..|parts| - 1], parts[|parts| - 1];
      assert PartOk(last, o);
      OutputsArePermuted(front, o);
    }
  }

  lemma {:induction false} EntitiesKept(a: seq<Part>, b: seq<Part>)
    requires |a| == |b| && forall i :: 0 <= i < |a| ==> a[i].entities == b[i].entities
    ensures Entities(a) == Entities(b)
  {
    if a != [] { EntitiesKept(a[..|a| - 1], b[..|b| - 1]); }
  }

  lemma {:induction false} PlannedEntities(batches: seq<Batch>)
    ensures Entities(PartsOf(batches)) == Ids(Concat(batches))
  {
    if batches != [] {
      var front, last := batches[..|batches| - 1], batches[|batches| - 1];
      PlannedEntities(front);
      assert PartsOf(batches)[..|batches| - 1] == PartsOf(front);
      assert Ids(Concat(front) + last) == Ids(Concat(front)) + Ids(last);
    }
  }

  lemma KeptEntities(a: Job, b: Job)
    requires JobKeeps(a, b) && a.parts != []
    ensures Entities(a.parts) == Entities(b.parts)
  {
    forall i | 0 <= i < |a.parts| ensures a.parts[i].entities == b.parts[i].entities {
      assert PartKeeps(a.parts[i], b.parts[i]);
    }
    EntitiesKept(a.parts, b.parts);
  }

  lemma PlannedParts(c: Config, s: State, j: nat, w: Worker, stream: seq<Entity>, batches: seq<Batch>, planned: State)
    requires Consistent(s) && j < |s.jobs| && Step(c, s, EJob(j, EPlan(w, stream, batches))) == Some(planned)
    requires planned.jobs[j].status == Running
    ensures j < |planned.jobs| && planned.jobs[j].parts != [] && Entities(planned.jobs[j].parts) == Ids(stream)
  {
    assert JobOk(s.jobs[j]);
    PlannedEntities(batches);
    assert planned.jobs[j].parts == PartsOf(batches) && Concat(batches) == stream;
  }

  /** What a job that was planned from `stream` still has: the stream, cut in partitions. */
  lemma PlanIsKept(c: Config, s: State, j: nat, w: Worker, stream: seq<Entity>, batches: seq<Batch>, planned: State,
                   events: seq<Event>, m: State)
    requires Consistent(s) && j < |s.jobs| && Step(c, s, EJob(j, EPlan(w, stream, batches))) == Some(planned)
    requires planned.jobs[j].status == Running && After(c, planned, events) == Some(m)
    ensures Consistent(m) && j < |m.jobs| && m.jobs[j].key == s.jobs[j].key && Entities(m.jobs[j].parts) == Ids(stream)
  {
    hide Step, After, Consistent, Entities, Ids, PartsKeep;
    StepOk(c, s, EJob(j, EPlan(w, stream, batches)));
    PlannedParts(c, s, j, w, stream, batches, planned);
    RunKeeps(c, planned, events, m);
    assert JobKeeps(planned.jobs[j], m.jobs[j]) && JobKeeps(s.jobs[j], planned.jobs[j]);
    KeptEntities(planned.jobs[j], m.jobs[j]);
  }

  lemma FinalizeStores(c: Config, m: State, j: nat, w: Worker, t: State)
    requires Consistent(m) && j < |m.jobs| && Step(c, m, EJob(j, EFinalize(w))) == Some(t) && t.jobs[j].status == Completed
    ensures var key := KeyOfManifest(m.jobs[j]);
            && key in t.objects && t.jobs[j].manifest == Some(key)
            && multiset(t.objects[key]) == multiset(Entities(m.jobs[j].parts))
  {
    assert JobOk(m.jobs[j]);
    OutputsArePermuted(m.jobs[j].parts, m.jobs[j].key.options);
  }

  /** Whatever happens between planning and finalization, the manifest that a finalizing
      worker stores names every entity of the planned stream as often as the stream does,
      and nothing else: exactly once each when the stream has no repeats. */
  lemma ManifestListsEachEntityOnce(c: Config, s: State, j: nat, w: Worker, stream: seq<Entity>, batches: seq<Batch>,
                                    planned: State, events: seq<Event>, m: State, finalizer: Worker, t: State)
    requires Consistent(s) && j < |s.jobs| && Step(c, s, EJob(j, EPlan(w, stream, batches))) == Some(planned)
    requires planned.jobs[j].status == Running && After(c, planned, events) == Some(m) && j < |m.jobs|
    requires Step(c, m, EJob(j, EFinalize(finalizer))) == Some(t) && t.jobs[j].status == Completed
    ensures var key := KeyOfManifest(s.jobs[j]);
            && key in t.objects && t.jobs[j].manifest == Some(key)
            && multiset(t.objects[key]) == multiset(Ids(stream))
  {
    hide Step, After, Consistent, Entities, Ids;
    PlanIsKept(c, s, j, w, stream, batches, planned, events, m);
    FinalizeStores(c, m, j, finalizer, t);
  }

  // ---------------------------------------------------------------- cache and rebuild

  /** Over every run, two completed jobs, whether built or answered from the cache, carry
      the same manifest exactly when they are for the same source and normalized options;
      and each key's reference count is the number of its completed jobs. */
  lemma CacheAgreesWithRebuild(c: Config, events: seq<Event>, s: State, j: nat, k: nat)
    requires After(c, EMPTY, events) == Some(s)
    requires j < |s.jobs| && k < |s.jobs|
    requires s.jobs[j].status == Completed
    requires s.jobs[k].status == Completed
    ensures && (s.jobs[j].manifest == s.jobs[k].manifest <==> s.jobs[j].key == s.jobs[k].key)
            && s.jobs[j].key in s.cache && s.cache[s.jobs[j].key].refCount == Holders(s.jobs, s.jobs[j].key)
            && (s.cache[s.jobs[j].key].ready ==> s.cache[s.jobs[j].key].manifest == s.jobs[j].manifest)
  {
    ReachableIsConsistent(c, events, s);
    assert JobOk(s.jobs[j]) && JobOk(s.jobs[k]);
    HoldersCount(s.jobs, j);
  }

  lemma {:induction false} HoldersCount(jobs: seq<Job>, j: nat)
    requires j < |jobs| && jobs[j].status == Completed
    ensures Holders(jobs, jobs[j].key) > 0
  {
    if j < |jobs| - 1 { HoldersCount(jobs[..|jobs| - 1], j); }
  }

  // ---------------------------------------------------------------- claims and attempts

  function Claims(events: seq<Event>, j: nat, i: nat): nat {
    if events == [] then 0
    else
      var e := events[|events| - 1];
      Claims(events[..|events| - 1], j, i) + (if e.EJob? && e.j == j && e.step.EClaimPart? && e.step.i == i then 1 else 0)
  }

  function Resumes(events: seq<Event>, j: nat): nat {
    if events == [] then 0
    else Resumes(events[..|events| - 1], j) + (if events[|events| - 1] == EJob(j, EResume) then 1 else 0)
  }

  /** Attempts count the claims, and a waiting partition has one attempt in hand. */
  ghost predicate Tallied(c: Config, p: Part, claims: nat, resumes: nat) {
    && p.attempts == claims
    && claims <= Max(1, c.maxAttempts) + resumes
    && (p.status == Queued ==> claims < Max(1, c.maxAttempts) + resumes)
  }

  ghost predicate AllTallied(c: Config, parts: seq<Part>, events: seq<Event>, j: nat) {
    && (forall i :: 0 <= i < |parts| ==> Tallied(c, parts[i], Claims(events, j, i), Resumes(events, j)))
    && (forall i: nat :: i >= |parts| ==> Claims(events, j, i) == 0)
  }

  ghost predicate StateTallied(c: Config, s: State, events: seq<Event>) {
    && (forall j: nat :: j < |s.jobs| ==> AllTallied(c, s.jobs[j].parts, events, j))
    && (forall j: nat, i: nat :: j >= |s.jobs| ==> Claims(events, j, i) == 0)
  }

  /** A partition step that is neither a claim nor a resumption. */
  ghost predicate Unclaimed(c: Config, p: Part, q: Part) {
    q.attempts == p.attempts && (q.status == Queued ==> p.status == Queued || p.attempts < c.maxAttempts)
  }

  lemma UnclaimedTally(c: Config, a: seq<Part>, b: seq<Part>, events: seq<Event>, j: nat, e: Event)
    requires AllTallied(c, a, events, j) && |a| == |b| && forall i :: 0 <= i < |a| ==> Unclaimed(c, a[i], b[i])
    requires !(e.EJob? && e.j == j && e.step.EClaimPart?)
    ensures AllTallied(c, b, events + [e], j)
  {
    assert (events + [e])[..|events|] == events;
    forall i | 0 <= i < |b| ensures Tallied(c, b[i], Claims(events + [e], j, i), Resumes(events + [e], j)) {
      assert Tallied(c, a[i], Claims(events, j, i), Resumes(events, j)) && Unclaimed(c, a[i], b[i]);
    }
  }

  lemma ResumeTally(c: Config, job: Job, events: seq<Event>, j: nat)
    requires AllTallied(c, job.parts, events, j) && Resume(job).Some?
    ensures AllTallied(c, Resume(job).value.parts, events + [EJob(j, EResume)], j)
  {
    assert (events + [EJob(j, EResume)])[..|events|] == events;
  }

  lemma ClaimTally(c: Config, job: Job, events: seq<Event>, j: nat, i: nat, w: Worker, now: Time)
    requires AllTallied(c, job.parts, events, j) && ClaimPart(job, i, w, now, c.leaseSeconds).Some?
    ensures AllTallied(c, ClaimPart(job, i, w, now, c.leaseSeconds).value.parts, events + [EJob(j, EClaimPart(i, w, now))], j)
  {
    var e := EJob(j, EClaimPart(i, w, now));
    assert (events + [e])[..|events|] == events;
    assert Tallied(c, job.parts[i], Claims(events, j, i), Resumes(events, j));
  }

  /** A first plan starts every partition at no attempt. */
  lemma PlanTally(c: Config, job: Job, events: seq<Event>, j: nat, w: Worker, stream: seq<Entity>, batches: seq<Batch>)
    requires AllTallied(c, job.parts, events, j) && Plan(job, w, stream, batches).Some?
    ensures AllTallied(c, Plan(job, w, stream, batches).value.parts, events + [EJob(j, EPlan(w, stream, batches))], j)
  {
    var e := EJob(j, EPlan(w, stream, batches));
    assert (events + [e])[..|events|] == events;
  }

  lemma FailPlanTally(c: Config, job: Job, events: seq<Event>, j: nat, w: Worker, read: seq<Entity>, flushed: seq<Batch>)
    requires AllTallied(c, job.parts, events, j) && FailPlanning(job, w, flushed).Some?
    ensures AllTallied(c, PartsOf(flushed), events + [EJob(j, EFailPlanning(w, read, flushed))], j)
  {
    var e := EJob(j, EFailPlanning(w, read, flushed));
    assert (events + [e])[..|events|] == events;
  }

  lemma OtherStepUnclaimed(c: Config, job: Job, e: JobEvent)
    requires JobStep(c, job, e).Some? && !e.EClaimPart? && !e.EPlan? && !e.EFailPlanning? && !e.EResume?
    ensures |JobStep(c, job, e).value.parts| == |job.parts|
    ensures forall i :: 0 <= i < |job.parts| ==> Unclaimed(c, job.parts[i], JobStep(c, job, e).value.parts[i])
  {}

  lemma RecoveredUnclaimed(c: Config, job: Job, now: Time)
    ensures |Recovered(job, now, c.maxAttempts).parts| == |job.parts|
    ensures forall i :: 0 <= i < |job.parts| ==> Unclaimed(c, job.parts[i], Recovered(job, now, c.maxAttempts).parts[i])
  {}

  lemma JobTally(c: Config, job: Job, events: seq<Event>, j: nat, e: JobEvent)
    requires AllTallied(c, job.parts, events, j) && JobStep(c, job, e).Some?
    ensures AllTallied(c, JobStep(c, job, e).value.parts, events + [EJob(j, e)], j)
  {
    hide AllTallied, Tallied, Unclaimed, Resume, ClaimPart, Plan;
    match e
    case EResume => ResumeTally(c, job, events, j);
    case EClaimPart(i, w, now) => ClaimTally(c, job, events, j, i, w, now);
    case EPlan(w, stream, batches) => PlanTally(c, job, events, j, w, stream, batches);
    case EFailPlanning(w, read, flushed) => FailPlanTally(c, job, events, j, w, read, flushed);
    case _ =>
      OtherStepUnclaimed(c, job, e);
      UnclaimedTally(c, job.parts, JobStep(c, job, e).value.parts, events, j, EJob(j, e));
  }

  lemma OtherJobTally(c: Config, parts: seq<Part>, events: seq<Event>, j: nat, e: Event)
    requires AllTallied(c, parts, events, j) && (e.EJob? ==> e.j != j)
    ensures AllTallied(c, parts, events + [e], j)
  {
    UnclaimedTally(c, parts, parts, events, j, e);
  }

  /** A new job starts with no claim. */
  lemma NewRowTally(c: Config, s: State, events: seq<Event>, e: Event, j: nat)
    requires StateTallied(c, s, events) && j >= |s.jobs| && (e.EJob? ==> e.j != j)
    ensures AllTallied(c, [], events + [e], j)
  {
    assert (events + [e])[..|events|] == events;
  }

  /** The row of each job after a step comes from its own row before, or is new. */
  lemma StepRow(c: Config, s: State, e: Event, j: nat)
    requires Step(c, s, e).Some? && j < |Step(c, s, e).value.jobs|
    ensures var t := Step(c, s, e).value;
            && |s.jobs| <= |t.jobs|
            && (j >= |s.jobs| ==> t.jobs[j].parts == [] && !e.EJob?)
            && (j < |s.jobs| && !e.ERecover? && !(e.EJob? && e.j == j) ==> t.jobs[j] == s.jobs[j])
            && (j < |s.jobs| && e.ERecover? ==> t.jobs[j] == Recovered(s.jobs[j], e.now, c.maxAttempts))
            && (e.EJob? && e.j == j ==> JobStep(c, s.jobs[j], e.step) == Some(t.jobs[j]))
  {
    hide NormalizeOptions, Outputs;
    match e
    case EJob(k, step) => JobRow(c, s, k, step);
    case _ =>
  }

  lemma JobRow(c: Config, s: State, k: nat, step: JobEvent)
    requires Step(c, s, EJob(k, step)).Some?
    ensures k < |s.jobs| && JobStep(c, s.jobs[k], step).Some?
    ensures Step(c, s, EJob(k, step)).value.jobs == s.jobs[k := JobStep(c, s.jobs[k], step).value]
  {
    hide Outputs, Cancel, Resume, ClaimPlanning, Plan, ClaimPart, CompletePart, ClaimFinal, Heartbeat, FailPart, StopPart;
    match step
    case EFinalize(w) =>
    case EFailFinal(w, stored) =>
    case _ =>
  }

  lemma StepTally(c: Config, s: State, events: seq<Event>, e: Event, t: State)
    requires StateTallied(c, s, events) && Step(c, s, e) == Some(t)
    ensures StateTallied(c, t, events + [e])
  {
    hide Step, JobStep, Recovered;
    forall j: nat | j < |t.jobs| ensures AllTallied(c, t.jobs[j].parts, events + [e], j) {
      StepRow(c, s, e, j);
      if j >= |s.jobs| {
        NewRowTally(c, s, events, e, j);
      } else {
        assert AllTallied(c, s.jobs[j].parts, events, j);
        RowTally(c, s.jobs[j], t.jobs[j], events, e, j);
      }
    }
    forall j: nat, i: nat | j >= |t.jobs| ensures Claims(events + [e], j, i) == 0 {
      StepIndex(c, s, e);
      assert (events + [e])[..|events|] == events;
    }
  }

  lemma StepIndex(c: Config, s: State, e: Event)
    requires Step(c, s, e).Some?
    ensures |s.jobs| <= |Step(c, s, e).value.jobs| && (e.EJob? ==> e.j < |s.jobs|)
  {
    hide NormalizeOptions, Outputs;
  }

  lemma RowTally(c: Config, before: Job, after: Job, events: seq<Event>, e: Event, j: nat)
    requires AllTallied(c, before.parts, events, j)
    requires !e.ERecover? && !(e.EJob? && e.j == j) ==> after == before
    requires e.ERecover? ==> after == Recovered(before, e.now, c.maxAttempts)
    requires e.EJob? && e.j == j ==> JobStep(c, before, e.step) == Some(after)
    ensures AllTallied(c, after.parts, events + [e], j)
  {
    hide AllTallied, Recovered, JobStep;
    if e.ERecover? {
      RecoveredUnclaimed(c, before, e.now);
      UnclaimedTally(c, before.parts, after.parts, events, j, e);
    } else if e.EJob? && e.j == j {
      JobTally(c, before, events, j, e.step);
    } else {
      OtherJobTally(c, before.parts, events, j, e);
    }
  }

  lemma {:induction false} RunTally(c: Config, events: seq<Event>, t: State)
    requires After(c, EMPTY, events) == Some(t)
    ensures StateTallied(c, t, events)
  {
    if events != [] {
      var front, e := events[..|events| - 1], events[|events| - 1];
      var m := After(c, EMPTY, front).value;
      hide Step, StateTallied;
      RunTally(c, front, m);
      StepTally(c, m, front, e, t);
      assert front + [e] == events;
    }
  }

  /** Over every run from an empty database, the attempts of a partition are its claims,
      and those never exceed the configured attempts (at least one) plus the number of
      times its job was resumed. */
  lemma ClaimsAreBounded(c: Config, events: seq<Event>, t: State, j: nat, i: nat)
    requires After(c, EMPTY, events) == Some(t)
    requires j < |t.jobs| && i < |t.jobs[j].parts|
    ensures t.jobs[j].parts[i].attempts == Claims(events, j, i)
    ensures Claims(events, j, i) <= Max(1, c.maxAttempts) + Resumes(events, j)
  {
    RunTally(c, events, t);
    assert AllTallied(c, t.jobs[j].parts, events, j);
    assert Tallied(c, t.jobs[j].parts[i], Claims(events, j, i), Resumes(events, j));
  }

  // ---------------------------------------------------------------- between two claims

  /** The event puts partition `i` of job `j` back in the queue: a resumption of the job,
      or a recovery that finds the partition's lease expired and attempts left. */
  ghost predicate Requeues(c: Config, s: State, e: Event, j: nat, i: nat) {
    || e == EJob(j, EResume)
    || (e.ERecover? && j < |s.jobs| && i < |s.jobs[j].parts|
        && s.jobs[j].parts[i].status == Running && Expired(s.jobs[j].parts[i].lease, e.now)
        && s.jobs[j].parts[i].attempts < c.maxAttempts)
  }

  ghost predicate SomeRequeues(c: Config, s: State, events: seq<Event>, j: nat, i: nat) {
    exists n :: 0 <= n < |events| && After(c, s, events[..n]).Some?
                && Requeues(c, After(c, s, events[..n]).value, events[n], j, i)
  }

  ghost predicate OutOfQueue(s: State, j: nat, i: nat) {
    j < |s.jobs| && i < |s.jobs[j].parts| && s.jobs[j].parts[i].status != Queued
  }

  lemma StaysOutOfQueue(c: Config, s: State, e: Event, t: State, j: nat, i: nat)
    requires Consistent(s) && Step(c, s, e) == Some(t) && OutOfQueue(s, j, i) && !Requeues(c, s, e, j, i)
    ensures OutOfQueue(t, j, i)
  {
    StepIndex(c, s, e);
    StepRow(c, s, e, j);
    assert JobOk(s.jobs[j]);
    if e.EJob? && e.j == j { JobStaysOutOfQueue(c, s.jobs[j], e.step, i); }
  }

  lemma JobStaysOutOfQueue(c: Config, job: Job, e: JobEvent, i: nat)
    requires JobOk(job) && JobStep(c, job, e).Some? && !e.EResume?
    requires i < |job.parts| && job.parts[i].status != Queued
    ensures i < |JobStep(c, job, e).value.parts| && JobStep(c, job, e).value.parts[i].status != Queued
  {}

  lemma NoneRequeuesBefore(c: Config, s: State, events: seq<Event>, j: nat, i: nat)
    requires events != [] && After(c, s, events).Some? && !SomeRequeues(c, s, events, j, i)
    ensures var n := |events| - 1;
            !SomeRequeues(c, s, events[..n], j, i) && !Requeues(c, After(c, s, events[..n]).value, events[n], j, i)
  {
    var n := |events| - 1;
    var front := events[..n];
    assert After(c, s, events[..n]).Some?;
    forall k | 0 <= k < n && After(c, s, front[..k]).Some?
      ensures !Requeues(c, After(c, s, front[..k]).value, front[k], j, i)
    {
      assert front[..k] == events[..k];
    }
  }

  lemma {:induction false} RunStaysOutOfQueue(c: Config, s: State, events: seq<Event>, t: State, j: nat, i: nat)
    requires Consistent(s) && After(c, s, events) == Some(t) && OutOfQueue(s, j, i) && !SomeRequeues(c, s, events, j, i)
    ensures OutOfQueue(t, j, i)
  {
    hide SomeRequeues, Requeues, OutOfQueue, Step, Consistent;
    if events != [] {
      var n := |events| - 1;
      var m := After(c, s, events[..n]).value;
      NoneRequeuesBefore(c, s, events, j, i);
      RunStaysOutOfQueue(c, s, events[..n], m, j, i);
      RunKeeps(c, s, events[..n], m);
      StaysOutOfQueue(c, m, events[n], t, j, i);
    }
  }

  lemma ClaimTakesOut(c: Config, s: State, j: nat, i: nat, w: Worker, now: Time)
    requires Step(c, s, EJob(j, EClaimPart(i, w, now))).Some?
    ensures OutOfQueue(Step(c, s, EJob(j, EClaimPart(i, w, now))).value, j, i)
  {}

  lemma ClaimFindsQueued(c: Config, s: State, j: nat, i: nat, w: Worker, now: Time)
    requires Step(c, s, EJob(j, EClaimPart(i, w, now))).Some?
    ensures !OutOfQueue(s, j, i)
  {}

  /** Between two claims of a partition there is a resumption of its job or a recovery of
      its expired lease. */
  lemma BetweenTwoClaims(c: Config, s: State, j: nat, i: nat, w: Worker, now: Time, claimed: State, events: seq<Event>,
                         m: State, w': Worker, now': Time)
    requires Consistent(s) && Step(c, s, EJob(j, EClaimPart(i, w, now))) == Some(claimed)
    requires After(c, claimed, events) == Some(m) && Step(c, m, EJob(j, EClaimPart(i, w', now'))).Some?
    ensures SomeRequeues(c, claimed, events, j, i)
  {
    hide *;
    StepOk(c, s, EJob(j, EClaimPart(i, w, now)));
    ClaimTakesOut(c, s, j, i, w, now);
    ClaimFindsQueued(c, m, j, i, w', now');
    if !SomeRequeues(c, claimed, events, j, i) {
      RunStaysOutOfQueue(c, claimed, events, m, j, i);
      assert false;
    }
  }

  // ---------------------------------------------------------------- cancellation

  predicate IsClaim(e: JobEvent) { e.EClaimPlanning? || e.EClaimPart? || e.EClaimFinal? }

  ghost predicate CancelPending(s: State, j: nat) { j < |s.jobs| && s.jobs[j].cancelRequested }

  lemma CancelStaysPending(c: Config, s: State, e: Event, t: State, j: nat)
    requires Step(c, s, e) == Some(t) && CancelPending(s, j) && e != EJob(j, EResume)
    ensures CancelPending(t, j)
  {
    StepIndex(c, s, e);
    StepRow(c, s, e, j);
  }

  lemma {:induction false} RunStaysPending(c: Config, s: State, events: seq<Event>, t: State, j: nat)
    requires After(c, s, events) == Some(t) && CancelPending(s, j) && EJob(j, EResume) !in events
    ensures CancelPending(t, j)
  {
    if events != [] {
      var n := |events| - 1;
      var m := After(c, s, events[..n]).value;
      RunStaysPending(c, s, events[..n], m, j);
      CancelStaysPending(c, m, events[n], t, j);
    }
  }

  /** After a cancel request on an active job no claim of any kind succeeds for it until
      it is resumed. */
  lemma NoClaimAfterCancel(c: Config, s: State, j: nat, cancelled: State, events: seq<Event>, m: State, claim: JobEvent)
    requires j < |s.jobs| && s.jobs[j].status in ACTIVE && Step(c, s, EJob(j, ECancel)) == Some(cancelled)
    requires After(c, cancelled, events) == Some(m) && EJob(j, EResume) !in events && IsClaim(claim)
    ensures Step(c, m, EJob(j, claim)) == None
  {
    RunStaysPending(c, cancelled, events, m, j);
  }

  // ---------------------------------------------------------------- a crash while finalizing

  ghost predicate Frees(e: Event, j: nat) {
    e.EJob? && e.j == j && (e.step.EFinalize? || e.step.EFailFinal? || e.step.ECancel?)
  }

  ghost predicate HeldForFinalization(s: State, j: nat) {
    j < |s.jobs| && s.jobs[j].status == Finalizing && !s.jobs[j].cancelRequested
  }

  lemma StaysHeld(c: Config, s: State, e: Event, t: State, j: nat)
    requires Consistent(s) && Step(c, s, e) == Some(t) && HeldForFinalization(s, j) && !Frees(e, j)
    ensures HeldForFinalization(t, j)
    ensures t.jobs[j].worker == s.jobs[j].worker
  {
    StepIndex(c, s, e);
    StepRow(c, s, e, j);
    assert JobOk(s.jobs[j]);
  }

  /** Lease recovery looks at planning jobs and at partitions only: a job whose finalizing
      worker is gone stays with that worker, however much time passes, until it is
      cancelled. */
  lemma {:induction false} FinalizingIsNeverRecovered(c: Config, s: State, events: seq<Event>, t: State, j: nat)
    requires Consistent(s) && HeldForFinalization(s, j) && After(c, s, events) == Some(t)
    requires forall e :: e in events ==> !Frees(e, j)
    ensures HeldForFinalization(t, j)
    ensures t.jobs[j].worker == s.jobs[j].worker
  {
    if events != [] {
      var n := |events| - 1;
      var m := After(c, s, events[..n]).value;
      FinalizingIsNeverRecovered(c, s, events[..n], m, j);
      RunKeeps(c, s, events[..n], m);
      StaysHeld(c, m, events[n], t, j);
    }
  }

  lemma AfterOne(c: Config, s: State, events: seq<Event>, e: Event)
    requires After(c, s, events).Some?
    ensures After(c, s, events + [e]) == Step(c, After(c, s, events).value, e)
  {
    assert (events + [e])[..|events|] == events;
  }

  lemma FinalizingJobFreed(job: Job, now: Time, maxAttempts: int)
    requires JobOk(job) && job.status == Finalizing && !job.cancelRequested
    ensures var freed := Resume(Recovered(Cancel(job), now, maxAttempts));
            freed.Some? && Finalizable(freed.value) && freed.value.parts == job.parts
  {
    assert !AnyRunning(job.parts);
    assert MapParts(job.parts, CancelledIfWaiting) == job.parts;
    assert MapParts(job.parts, Requeued) == job.parts;
    DoneBound(job.parts);
  }

  /** Cancelling such a job and recovering frees it, and a resumption makes it claimable
      again with its completed partitions. */
  lemma CancelThenResumeFrees(c: Config, s: State, j: nat, now: Time)
    requires Consistent(s) && HeldForFinalization(s, j)
    ensures var events := [EJob(j, ECancel), ERecover(now), EJob(j, EResume)];
            && After(c, s, events).Some?
            && Finalizable(After(c, s, events).value.jobs[j])
            && After(c, s, events).value.jobs[j].parts == s.jobs[j].parts
  {
    var cancel, recover, resume := EJob(j, ECancel), ERecover(now), EJob(j, EResume);
    assert JobOk(s.jobs[j]);
    FinalizingJobFreed(s.jobs[j], now, c.maxAttempts);
    assert After(c, s, []) == Some(s);
    AfterOne(c, s, [], cancel);
    AfterOne(c, s, [cancel], recover);
    AfterOne(c, s, [cancel, recover], resume);
    assert [] + [cancel] == [cancel] && [cancel] + [recover] == [cancel, recover]
           && [cancel, recover] + [resume] == [cancel, recover, resume];
    var t0 := Step(c, s, cancel).value;
    assert t0.jobs[j] == Cancel(s.jobs[j]);
    var t1 := Step(c, t0, recover).value;
    assert t1.jobs[j] == Recovered(Cancel(s.jobs[j]), now, c.maxAttempts);
  }

  // ---------------------------------------------------------------- a planning error

  /** A job with partitions but without the total that only finished planning sets. */
  predicate HalfPlannedJob(job: Job) { job.total == 0 && job.parts != [] && job.status !in {Finalizing, Completed} }

  ghost predicate HalfPlanned(s: State, j: nat) { j < |s.jobs| && HalfPlannedJob(s.jobs[j]) }

  lemma JobStaysHalfPlanned(c: Config, job: Job, e: JobEvent)
    requires JobOk(job) && HalfPlannedJob(job) && JobStep(c, job, e).Some?
    ensures HalfPlannedJob(JobStep(c, job, e).value)
  {
    hide PartsOk, Done, AllDone, Split;
  }

  lemma RecoveredStaysHalfPlanned(job: Job, now: Time, maxAttempts: int)
    requires HalfPlannedJob(job)
    ensures HalfPlannedJob(Recovered(job, now, maxAttempts))
  {}

  lemma StaysHalfPlanned(c: Config, s: State, e: Event, t: State, j: nat)
    requires Consistent(s) && Step(c, s, e) == Some(t) && HalfPlanned(s, j)
    ensures HalfPlanned(t, j)
  {
    assert JobOk(s.jobs[j]);
    StepIndex(c, s, e);
    StepRow(c, s, e, j);
    if e.ERecover? { RecoveredStaysHalfPlanned(s.jobs[j], e.now, c.maxAttempts); }
    else if e.EJob? && e.j == j { JobStaysHalfPlanned(c, s.jobs[j], e.step); }
  }

  lemma {:induction false} RunStaysHalfPlanned(c: Config, s: State, events: seq<Event>, t: State, j: nat)
    requires Consistent(s) && HalfPlanned(s, j) && After(c, s, events) == Some(t)
    ensures HalfPlanned(t, j)
  {
    if events != [] {
      var n := |events| - 1;
      var m := After(c, s, events[..n]).value;
      RunStaysHalfPlanned(c, s, events[..n], m, j);
      RunKeeps(c, s, events[..n], m);
      StaysHalfPlanned(c, m, events[n], t, j);
    }
  }

  lemma BrokenPlanIsHalf(c: Config, s: State, j: nat, w: Worker, read: seq<Entity>, flushed: seq<Batch>, broken: State)
    requires Consistent(s) && j < |s.jobs| && flushed != []
    requires Step(c, s, EJob(j, EFailPlanning(w, read, flushed))) == Some(broken)
    ensures HalfPlanned(broken, j)
  {
    assert JobOk(s.jobs[j]);
    DoneOfNone([]);
  }

  /** When planning breaks off after flushing a batch but before setting the total, the job can
      be resumed and all its partitions built, but in no run does it ever complete. */
  lemma BrokenPlanNeverCompletes(c: Config, s: State, j: nat, w: Worker, read: seq<Entity>, flushed: seq<Batch>, broken: State,
                                 events: seq<Event>, t: State)
    requires Consistent(s) && j < |s.jobs| && flushed != []
    requires Step(c, s, EJob(j, EFailPlanning(w, read, flushed))) == Some(broken) && After(c, broken, events) == Some(t)
    ensures j < |t.jobs| && t.jobs[j].status != Completed && !Finalizable(t.jobs[j])
  {
    hide Consistent, Step;
    BrokenPlanIsHalf(c, s, j, w, read, flushed, broken);
    StepOk(c, s, EJob(j, EFailPlanning(w, read, flushed)));
    RunStaysHalfPlanned(c, broken, events, t, j);
  }
}
