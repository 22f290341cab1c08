/** What every committed transaction keeps: the consistency of each job with its
    partitions, what never changes again, and the agreement of cache and jobs. */
module AssetInvariants {
  import opened Wrappers
  import opened AssetOptions
  import opened Planner
  import opened AssetJobs

  // ---------------------------------------------------------------- one job

  ghost predicate PartOk(p: Part, o: Options) {
    && p.entities != []
    && (|p.entities| == 1 || (|p.entities| <= o.maxEntities && p.triangles <= o.maxTriangles))
    && (p.status == Completed ==> multiset(p.output) == multiset(p.entities))
    && (p.status == Running ==> p.worker.Some? && p.lease.Some?)
    && p.status != Planning && p.status != Finalizing
  }

  ghost predicate PartsOk(parts: seq<Part>, o: Options) {
    forall i {:trigger parts[i]} :: 0 <= i < |parts| ==> PartOk(parts[i], o)
  }

  /** The counters agree with the rows, and the status with both. */
  ghost predicate JobOk(job: Job) {
    && PartsOk(job.parts, job.key.options)
    && job.completed == Done(job.parts) && (job.total == |job.parts| || job.total == 0)
    && (job.status in {Finalizing, Completed} ==> job.total == |job.parts|)
    && (job.status in {Queued, Planning} ==> job.parts == [])
    && (job.status in {Running, Finalizing} ==> job.parts != [])
    && (job.status == Finalizing ==> AllDone(job.parts))
    && (job.cacheHit ==> job.status == Completed && job.parts == [])
    && (job.status == Completed && !job.cacheHit ==> job.parts != [] && AllDone(job.parts))
    && (job.status == Completed ==> job.manifest == Some(KeyOfManifest(job)))
    && (job.status in {Planning, Finalizing} ==> job.worker.Some? && job.lease.Some?)
  }

  /** A row that keeps what was written once: its entities always, and once completed its
      output. */
  ghost predicate PartKeeps(p: Part, q: Part) {
    && q.entities == p.entities && q.triangles == p.triangles && p.attempts <= q.attempts
    && (p.status == Completed ==> q.status == Completed && q.output == p.output && q.attempts == p.attempts)
  }

  ghost predicate PartsKeep(a: seq<Part>, b: seq<Part>) {
    |a| == |b| && forall i {:trigger a[i]} {:trigger b[i]} :: 0 <= i < |a| ==> PartKeeps(a[i], b[i])
  }

  /** A job keeps its content, its partitions once it has any, and its completion. */
  ghost predicate JobKeeps(a: Job, b: Job) {
    && b.key == a.key && b.cacheHit == a.cacheHit
    && (a.parts != [] ==> PartsKeep(a.parts, b.parts))
    && (a.status == Completed ==> b.status == Completed && b.manifest == a.manifest && b.parts == a.parts)
  }

  lemma {:induction false} DoneBound(parts: seq<Part>)
    ensures Done(parts) <= |parts|
    ensures Done(parts) == |parts| <==> AllDone(parts)
  {
    if parts != [] {
      var front, last := parts[..|parts| - 1], parts[|parts| - 1];
      DoneBound(front);
      assert parts == front + [last];
    }
  }

  lemma {:induction false} DoneSame(a: seq<Part>, b: seq<Part>)
    requires |a| == |b|
    requires forall i :: 0 <= i < |a| ==> (a[i].status == Completed <==> b[i].status == Completed)
    ensures Done(a) == Done(b)
  {
    if a != [] { DoneSame(a[..|a| - 1], b[..|b| - 1]); }
  }

  lemma {:induction false} DoneUpdate(parts: seq<Part>, i: nat, p: Part)
    requires i < |parts|
    ensures Done(parts[i := p]) == Done(parts) - (if parts[i].status == Completed then 1 else 0)
                                   + (if p.status == Completed then 1 else 0)
  {
    var n := |parts| - 1;
    if i < n {
      DoneUpdate(parts[..n], i, p);
      assert parts[i := p][..n] == parts[..n][i := p];
    } else {
      assert parts[i := p][..n] == parts[..n];
    }
  }

  lemma {:induction false} DoneOfNone(parts: seq<Part>)
    requires forall i :: 0 <= i < |parts| ==> parts[i].status != Completed
    ensures Done(parts) == 0
  {
    if parts != [] { DoneOfNone(parts[..|parts| - 1]); }
  }

  // ---------------------------------------------------------------- partition updates

  lemma RenewedAgain(job: Job, i: nat, until: Time)
    requires i < |job.parts|
    ensures LeaseRenewed(LeaseRenewed(job, i, until), i, until) == LeaseRenewed(job, i, until)
  {
    assert LeaseRenewed(LeaseRenewed(job, i, until), i, until).parts == LeaseRenewed(job, i, until).parts;
  }

  lemma PartUpdateKeeps(job: Job, i: nat, p: Part)
    requires i < |job.parts| && PartKeeps(job.parts[i], p) && PartsOk(job.parts, job.key.options)
    requires PartOk(p, job.key.options)
    ensures PartsKeep(job.parts, job.parts[i := p]) && PartsOk(job.parts[i := p], job.key.options)
  {}

  /** An update of one unfinished partition that leaves it unfinished. */
  lemma OpenPartStep(job: Job, i: nat, p: Part, status: Status)
    requires JobOk(job) && i < |job.parts| && job.parts[i].status != Completed && p.status != Completed
    requires PartKeeps(job.parts[i], p) && PartOk(p, job.key.options)
    requires status == job.status || status in {Failed, Cancelled}
    ensures JobOk(job.(parts := job.parts[i := p], status := status))
    ensures JobKeeps(job, job.(parts := job.parts[i := p], status := status))
  {
    PartUpdateKeeps(job, i, p);
    DoneUpdate(job.parts, i, p);
    assert !AllDone(job.parts);
  }

  lemma CompletePartStep(job: Job, i: nat, w: Worker, meshes: seq<EntityId>)
    requires JobOk(job) && CompletePart(job, i, w, meshes).Some?
    ensures JobOk(CompletePart(job, i, w, meshes).value) && JobKeeps(job, CompletePart(job, i, w, meshes).value)
  {
    var p := job.parts[i].(status := Completed, worker := Some(w), lease := None, output := meshes);
    assert !AllDone(job.parts);
    PartUpdateKeeps(job, i, p);
    DoneUpdate(job.parts, i, p);
    DoneBound(job.parts[i := p]);
  }

  lemma MapPartsKeeps(job: Job, f: Part -> Part)
    requires PartsOk(job.parts, job.key.options)
    requires forall i :: 0 <= i < |job.parts| ==>
               PartKeeps(job.parts[i], f(job.parts[i])) && PartOk(f(job.parts[i]), job.key.options)
               && (f(job.parts[i]).status == Completed ==> job.parts[i].status == Completed)
    ensures PartsKeep(job.parts, MapParts(job.parts, f)) && PartsOk(MapParts(job.parts, f), job.key.options)
    ensures Done(MapParts(job.parts, f)) == Done(job.parts)
  {
    DoneSame(job.parts, MapParts(job.parts, f));
  }

  // ---------------------------------------------------------------- transitions of one job

  lemma CancelStep(job: Job)
    requires JobOk(job)
    ensures JobOk(Cancel(job)) && JobKeeps(job, Cancel(job))
  {
    MapPartsKeeps(job, CancelledIfQueued);
  }

  lemma ResumeStep(job: Job)
    requires JobOk(job) && Resume(job).Some?
    ensures JobOk(Resume(job).value) && JobKeeps(job, Resume(job).value)
  {
    hide PartOk, PartKeeps, PartsOk, PartsKeep, Requeued, Done;
    RequeuedPartsStep(job);
    DoneBound(job.parts);
    DoneBound(Resume(job).value.parts);
  }

  lemma RequeuedPartsStep(job: Job)
    requires PartsOk(job.parts, job.key.options)
    ensures var parts := MapParts(job.parts, Requeued);
            PartsKeep(job.parts, parts) && PartsOk(parts, job.key.options) && Done(parts) == Done(job.parts)
  {
    hide Done;
    MapPartsKeeps(job, Requeued);
  }

  lemma CancelWaitingStep(job: Job)
    requires JobOk(job) && job.status in ACTIVE
    ensures var r := job.(parts := MapParts(job.parts, CancelledIfWaiting), status := Cancelled, worker := None, lease := None);
            JobOk(r) && JobKeeps(job, r)
  {
    hide PartOk, PartKeeps, PartsOk, PartsKeep, CancelledIfWaiting, Done, AllDone;
    WaitingPartsStep(job);
  }

  lemma WaitingPartsStep(job: Job)
    requires PartsOk(job.parts, job.key.options)
    ensures var parts := MapParts(job.parts, CancelledIfWaiting);
            PartsKeep(job.parts, parts) && PartsOk(parts, job.key.options) && Done(parts) == Done(job.parts)
  {
    hide Done;
    MapPartsKeeps(job, CancelledIfWaiting);
  }

  lemma RecoveredPartStep(p: Part, o: Options, now: Time, maxAttempts: int)
    requires PartOk(p, o)
    ensures var q := RecoveredPart(p, now, maxAttempts);
            PartKeeps(p, q) && PartOk(q, o) && (q.status == Completed <==> p.status == Completed)
  {}

  lemma RecoverPartsStep(job: Job, now: Time, maxAttempts: int)
    requires JobOk(job)
    ensures var r := job.(parts := MapParts(job.parts, p => RecoveredPart(p, now, maxAttempts)));
            PartsOk(r.parts, r.key.options) && PartsKeep(job.parts, r.parts) && Done(r.parts) == Done(job.parts)
            && (AllDone(job.parts) ==> AllDone(r.parts) && !GivesUp(job.parts, now, maxAttempts))
  {
    var f := p => RecoveredPart(p, now, maxAttempts);
    forall i | 0 <= i < |job.parts|
      ensures var p := job.parts[i];
              PartKeeps(p, f(p)) && PartOk(f(p), job.key.options) && (f(p).status == Completed <==> p.status == Completed)
    {
      hide RecoveredPart, PartKeeps, PartOk;
      RecoveredPartStep(job.parts[i], job.key.options, now, maxAttempts);
    }
    MapPartsKeeps(job, f);
  }

  lemma RecoveredStep(job: Job, now: Time, maxAttempts: int)
    requires JobOk(job)
    ensures JobOk(Recovered(job, now, maxAttempts)) && JobKeeps(job, Recovered(job, now, maxAttempts))
  {
    hide RecoveredPart, PartsOk, PartsKeep, Done, AllDone, GivesUp;
    if job.status == Completed {
      CompletedIsStill(job, now, maxAttempts);
      KeepsParts(job.parts);
    } else if job.cancelRequested && job.status in ACTIVE && !AnyRunning(job.parts) {
      CancelWaitingStep(job);
    } else {
      RecoverPartsStep(job, now, maxAttempts);
    }
  }

  /** Recovery finds nothing to do on a completed job. */
  lemma CompletedIsStill(job: Job, now: Time, maxAttempts: int)
    requires JobOk(job) && job.status == Completed
    ensures Recovered(job, now, maxAttempts) == job
  {
    var parts := MapParts(job.parts, p => RecoveredPart(p, now, maxAttempts));
    assert parts == job.parts by {
      forall i | 0 <= i < |parts| ensures parts[i] == job.parts[i] {
        assert job.parts[i].status == Completed;
      }
    }
  }

  lemma {:induction false} ConcatFits(batches: seq<Batch>, o: Options)
    requires forall i :: 0 <= i < |batches| ==> Fits(batches[i], o.maxEntities, o.maxTriangles)
    ensures PartsOk(PartsOf(batches), o)
  {
    forall i | 0 <= i < |batches| ensures PartOk(PartsOf(batches)[i], o) {
      assert Fits(batches[i], o.maxEntities, o.maxTriangles);
    }
  }

  lemma PlanStep(job: Job, w: Worker, stream: seq<Entity>, batches: seq<Batch>)
    requires JobOk(job) && Plan(job, w, stream, batches).Some? && PlannedBy(job.key.options, stream, batches)
    ensures JobOk(Plan(job, w, stream, batches).value) && JobKeeps(job, Plan(job, w, stream, batches).value)
  {
    if !job.cancelRequested && stream != [] {
      ConcatFits(batches, job.key.options);
      DoneOfNone(PartsOf(batches));
    }
  }

  lemma FailPlanningStep(job: Job, w: Worker, read: seq<Entity>, flushed: seq<Batch>)
    requires JobOk(job) && FailPlanning(job, w, flushed).Some? && PlannedBy(job.key.options, read, flushed)
    ensures JobOk(FailPlanning(job, w, flushed).value) && JobKeeps(job, FailPlanning(job, w, flushed).value)
  {
    ConcatFits(flushed, job.key.options);
    DoneOfNone(PartsOf(flushed));
  }

  lemma ClaimFinalStep(job: Job, w: Worker, now: Time, leaseSeconds: nat)
    requires JobOk(job) && ClaimFinal(job, w, now, leaseSeconds).Some?
    ensures JobOk(ClaimFinal(job, w, now, leaseSeconds).value)
    ensures JobKeeps(job, ClaimFinal(job, w, now, leaseSeconds).value)
  {
    DoneBound(job.parts);
    KeepsParts(job.parts);
  }

  lemma KeepsParts(parts: seq<Part>)
    ensures PartsKeep(parts, parts)
  {}

  lemma FinalizedStep(job: Job, w: Worker)
    requires JobOk(job) && HoldsFinal(job, w)
    ensures JobOk(Finalized(job, w)) && JobKeeps(job, Finalized(job, w))
  {
    DoneBound(job.parts);
    KeepsParts(job.parts);
  }

  lemma HeldPartStep(c: Config, job: Job, e: JobEvent)
    requires JobOk(job) && JobStep(c, job, e).Some?
    requires e.EClaimPart? || e.EHeartbeat? || e.EFailPart? || e.EStopPart?
    ensures JobOk(JobStep(c, job, e).value) && JobKeeps(job, JobStep(c, job, e).value)
  {
    hide JobOk, JobKeeps;
    var p := job.parts[e.i];
    assert p.status != Completed;
    assert PartOk(p, job.key.options) by { assert JobOk(job); PartIsOk(job, e.i); }
    match e
    case EClaimPart(i, w, now) =>
      OpenPartStep(job, i, p.(status := Running, worker := Some(w), lease := Some(now + c.leaseSeconds), attempts := p.attempts + 1),
                   job.status);
    case EHeartbeat(i, w, now) => OpenPartStep(job, i, p.(lease := Some(now + c.leaseSeconds)), job.status);
    case EFailPart(i, w) => OpenPartStep(job, i, p.(status := Failed, lease := None), Failed);
    case EStopPart(i, w) => OpenPartStep(job, i, p.(status := Cancelled, lease := None), Cancelled);
  }

  lemma PartIsOk(job: Job, i: nat)
    requires JobOk(job) && i < |job.parts|
    ensures PartOk(job.parts[i], job.key.options)
  {}

  lemma WholeJobStep(c: Config, job: Job, e: JobEvent)
    requires JobOk(job) && JobStep(c, job, e).Some?
    requires e.EClaimPlanning? || e.EFailFinal? || (e.EFinalize? && job.cancelRequested)
    ensures JobOk(JobStep(c, job, e).value) && JobKeeps(job, JobStep(c, job, e).value)
  {
    KeepsParts(job.parts);
  }

  /** Every transaction on a job keeps it consistent and keeps what is settled. */
  lemma JobStepOk(c: Config, job: Job, e: JobEvent)
    requires JobOk(job) && JobStep(c, job, e).Some?
    ensures JobOk(JobStep(c, job, e).value) && JobKeeps(job, JobStep(c, job, e).value)
  {
    hide JobOk, JobKeeps, Cancel, Resume, Plan, FailPlanning, CompletePart, ClaimFinal, Finalized;
    match e
    case ECancel => CancelStep(job);
    case EResume => ResumeStep(job);
    case EPlan(w, stream, batches) => PlanStep(job, w, stream, batches);
    case EFailPlanning(w, read, flushed) => FailPlanningStep(job, w, read, flushed);
    case EClaimPart(_, _, _) => HeldPartStep(c, job, e);
    case EHeartbeat(_, _, _) => HeldPartStep(c, job, e);
    case ECompletePart(i, w, meshes) => CompletePartStep(job, i, w, meshes);
    case EFailPart(_, _) => HeldPartStep(c, job, e);
    case EStopPart(_, _) => HeldPartStep(c, job, e);
    case EClaimFinal(w, now) => ClaimFinalStep(job, w, now, c.leaseSeconds);
    case EFinalize(w) => if job.cancelRequested { WholeJobStep(c, job, e); } else { FinalizedStep(job, w); }
    case _ => WholeJobStep(c, job, e);
  }

  // ---------------------------------------------------------------- the whole state

  /** Completed jobs for a key. */
  function Holders(jobs: seq<Job>, key: CacheKey): nat {
    if jobs == [] then 0
    else
      var last := jobs[|jobs| - 1];
      Holders(jobs[..|jobs| - 1], key) + (if last.key == key && last.status == Completed then 1 else 0)
  }

  /** The cache counts the completed jobs of each key and points at their manifest. */
  ghost predicate CacheOk(s: State) {
    && (forall key :: key !in s.cache ==> Holders(s.jobs, key) == 0)
    && (forall key :: key in s.cache ==> s.cache[key].refCount == Holders(s.jobs, key))
    && (forall key :: key in s.cache && s.cache[key].manifest.Some? ==>
          s.cache[key].manifest.value == ManifestKey(key.source.tenant, key))
    && (forall key :: key in s.cache && s.cache[key].ready ==> s.cache[key].manifest.Some?)
  }

  ghost predicate JobsOk(jobs: seq<Job>) {
    forall j {:trigger jobs[j]} :: 0 <= j < |jobs| ==> JobOk(jobs[j])
  }

  ghost predicate Consistent(s: State) { JobsOk(s.jobs) && CacheOk(s) }

  /** Jobs are only added, and each keeps what is settled. */
  ghost predicate Keeps(s: State, t: State) {
    && |s.jobs| <= |t.jobs|
    && forall j {:trigger s.jobs[j]} {:trigger t.jobs[j]} :: 0 <= j < |s.jobs| ==> JobKeeps(s.jobs[j], t.jobs[j])
  }

  lemma {:induction false} HoldersUpdate(jobs: seq<Job>, j: nat, job: Job, key: CacheKey)
    requires j < |jobs|
    ensures Holders(jobs[j := job], key) == Holders(jobs, key)
              - (if jobs[j].key == key && jobs[j].status == Completed then 1 else 0)
              + (if job.key == key && job.status == Completed then 1 else 0)
  {
    var n := |jobs| - 1;
    if j < n {
      HoldersUpdate(jobs[..n], j, job, key);
      assert jobs[j := job][..n] == jobs[..n][j := job];
    } else {
      assert jobs[j := job][..n] == jobs[..n];
    }
  }

  lemma HoldersAppend(jobs: seq<Job>, job: Job, key: CacheKey)
    ensures Holders(jobs + [job], key) == Holders(jobs, key) + (if job.key == key && job.status == Completed then 1 else 0)
  {
    assert (jobs + [job])[..|jobs|] == jobs;
  }

  lemma {:induction false} HoldersSame(a: seq<Job>, b: seq<Job>, key: CacheKey)
    requires |a| == |b|
    requires forall j :: 0 <= j < |a| ==> a[j].key == b[j].key && (a[j].status == Completed <==> b[j].status == Completed)
    ensures Holders(a, key) == Holders(b, key)
  {
    if a != [] { HoldersSame(a[..|a| - 1], b[..|b| - 1], key); }
  }

  /** A transaction on one job that does not complete it leaves the cache in agreement. */
  lemma OneJobStep(s: State, t: State, j: nat, job: Job)
    requires Consistent(s) && j < |s.jobs| && t.jobs == s.jobs[j := job] && t.cache == s.cache
    requires JobOk(job) && JobKeeps(s.jobs[j], job) && (job.status == Completed ==> s.jobs[j].status == Completed)
    ensures Consistent(t) && Keeps(s, t)
  {
    forall key ensures Holders(t.jobs, key) == Holders(s.jobs, key) { HoldersUpdate(s.jobs, j, job, key); }
    JobKeepsItself(s.jobs);
  }

  lemma JobKeepsItself(jobs: seq<Job>)
    ensures forall j {:trigger jobs[j]} :: 0 <= j < |jobs| ==> JobKeeps(jobs[j], jobs[j])
  {
    forall j | 0 <= j < |jobs| ensures JobKeeps(jobs[j], jobs[j]) { KeepsParts(jobs[j].parts); }
  }

  lemma AppendKeeps(s: State, t: State, job: Job)
    requires JobsOk(s.jobs) && t.jobs == s.jobs + [job] && JobOk(job)
    ensures JobsOk(t.jobs) && Keeps(s, t)
  {
    JobKeepsItself(s.jobs);
  }

  lemma NewJobStep(s: State, t: State, key: CacheKey)
    requires Consistent(s) && t.jobs == s.jobs + [NewJob(key)]
    requires t.cache == s.cache || (key in s.cache && t.cache == s.cache[key := s.cache[key].(ready := false, manifest := None)])
    ensures Consistent(t) && Keeps(s, t)
  {
    AppendKeeps(s, t, NewJob(key));
    forall k ensures Holders(t.jobs, k) == Holders(s.jobs, k) { HoldersAppend(s.jobs, NewJob(key), k); }
  }

  lemma HitJobStep(s: State, t: State, key: CacheKey)
    requires Consistent(s) && CacheHits(s, key)
    requires t.jobs == s.jobs + [HitJob(key, s.cache[key].manifest.value)]
    requires t.cache == s.cache[key := s.cache[key].(refCount := s.cache[key].refCount + 1)]
    ensures Consistent(t) && Keeps(s, t)
  {
    var job := HitJob(key, s.cache[key].manifest.value);
    AppendKeeps(s, t, job);
    forall k ensures Holders(t.jobs, k) == Holders(s.jobs, k) + (if k == key then 1 else 0) { HoldersAppend(s.jobs, job, k); }
  }

  lemma CreateStep(s: State, source: Source, raw: RawOptions, force: bool, settings: Settings)
    requires Consistent(s) && CreateJob(s, source, raw, force, settings).Ok?
    ensures Consistent(CreateJob(s, source, raw, force, settings).value.state)
    ensures Keeps(s, CreateJob(s, source, raw, force, settings).value.state)
  {
    hide Consistent, Keeps, NormalizeOptions;
    var t := CreateJob(s, source, raw, force, settings).value.state;
    var key := CacheKey(source, NormalizeOptions(raw, settings).value);
    if !force && ActiveJob(s.jobs, key).Some? {
      SameRows(s, t);
    } else if !force && CacheHits(s, key) {
      HitJobStep(s, t, key);
    } else {
      NewJobStep(s, t, key);
    }
  }

  lemma FinalizeStep(s: State, j: nat, w: Worker)
    requires Consistent(s) && j < |s.jobs| && Finalize(s, j, w).Some?
    ensures Consistent(Finalize(s, j, w).value) && Keeps(s, Finalize(s, j, w).value)
  {
    var t, job := Finalize(s, j, w).value, s.jobs[j];
    assert JobOk(job);
    if job.cancelRequested {
      KeepsParts(job.parts);
      OneJobStep(s, t, j, job.(status := Cancelled, lease := None));
    } else {
      CompletedStep(s, j, w);
    }
  }

  lemma CompletedStep(s: State, j: nat, w: Worker)
    requires Consistent(s) && j < |s.jobs| && Finalize(s, j, w).Some? && !s.jobs[j].cancelRequested
    ensures Consistent(Finalize(s, j, w).value) && Keeps(s, Finalize(s, j, w).value)
  {
    hide JobKeeps, Outputs, Done, AllDone, PartsOk;
    var t, job := Finalize(s, j, w).value, s.jobs[j];
    assert JobOk(job);
    FinalizedStep(job, w);
    JobKeepsItself(s.jobs);
    forall key ensures Holders(t.jobs, key) == Holders(s.jobs, key) + (if key == job.key then 1 else 0) {
      HoldersUpdate(s.jobs, j, Finalized(job, w), key);
    }
  }

  lemma RecoverStep(s: State, now: Time, maxAttempts: int)
    requires Consistent(s)
    ensures var t := s.(jobs := MapJobs(s.jobs, job => Recovered(job, now, maxAttempts)));
            Consistent(t) && Keeps(s, t)
  {
    var t := s.(jobs := MapJobs(s.jobs, job => Recovered(job, now, maxAttempts)));
    forall j | 0 <= j < |s.jobs|
      ensures JobOk(t.jobs[j]) && JobKeeps(s.jobs[j], t.jobs[j])
      ensures t.jobs[j].status == Completed ==> s.jobs[j].status == Completed
    {
      assert t.jobs[j] == Recovered(s.jobs[j], now, maxAttempts);
      RecoveredStep(s.jobs[j], now, maxAttempts);
    }
    forall key ensures Holders(t.jobs, key) == Holders(s.jobs, key) { HoldersSame(s.jobs, t.jobs, key); }
  }

  /** No transaction but finalization completes a job. */
  lemma OnlyFinalizeCompletes(c: Config, job: Job, e: JobEvent)
    requires JobStep(c, job, e).Some? && !e.EFinalize?
    ensures JobStep(c, job, e).value.status == Completed ==> job.status == Completed
  {}

  /** Every transaction keeps the state consistent and keeps what is settled. */
  lemma StepOk(c: Config, s: State, e: Event)
    requires Consistent(s) && Step(c, s, e).Some?
    ensures Consistent(Step(c, s, e).value) && Keeps(s, Step(c, s, e).value)
  {
    hide JobStep, CreateJob, Finalize, JobOk, JobKeeps, CacheOk, Recovered;
    match e
    case ECreate(source, raw, force) => CreateStep(s, source, raw, force, c.settings);
    case ERecover(now) => RecoverStep(s, now, c.maxAttempts);
    case ELoseObject(m) => SameRows(s, Step(c, s, e).value);
    case EJob(j, step) =>
      match step {
        case EFinalize(w) => FinalizeStep(s, j, w);
        case EFailFinal(w, stored) => FailFinalStep(s, j, w, stored);
        case _ =>
          JobStepOk(c, s.jobs[j], step);
          OnlyFinalizeCompletes(c, s.jobs[j], step);
          OneJobStep(s, Step(c, s, e).value, j, JobStep(c, s.jobs[j], step).value);
      }
  }

  lemma FailFinalStep(s: State, j: nat, w: Worker, stored: bool)
    requires Consistent(s) && j < |s.jobs| && FailFinal(s, j, w, stored).Some?
    ensures Consistent(FailFinal(s, j, w, stored).value) && Keeps(s, FailFinal(s, j, w, stored).value)
  {
    var job := s.jobs[j];
    KeepsParts(job.parts);
    OneJobStep(s, FailFinal(s, j, w, stored).value, j, job.(status := Failed, lease := None));
  }

  lemma SameRows(s: State, t: State)
    requires Consistent(s) && t.jobs == s.jobs && t.cache == s.cache
    ensures Consistent(t) && Keeps(s, t)
  {
    JobKeepsItself(s.jobs);
  }
}
