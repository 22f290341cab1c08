/** What requests and leases promise: single builds, forced builds and protection by leases. */
module AssetRequests {
  import opened Wrappers
  import opened AssetOptions
  import opened Planner
  import opened AssetJobs
  import opened AssetInvariants
  import opened AssetRuns

  // ---------------------------------------------------------------- how requests are answered

  /** The result of an earlier build can be handed out. */
  predicate InService(s: State, key: CacheKey) {
    key in s.cache && s.cache[key].ready && s.cache[key].manifest.Some? && s.cache[key].manifest.value in s.objects
  }

  /** The job has the earlier result, and one more job counts on it. */
  ghost predicate FromCache(s: State, key: CacheKey, t: State, job: Job)
    requires key in s.cache
  {
    && job == Job(key, Completed, false, true, 0, 0, 0, None, None, s.cache[key].manifest, [])
    && t.cache == s.cache[key := CacheEntry(true, s.cache[key].manifest, s.cache[key].refCount + 1)]
  }

  /** The job waits, and a forced one takes the earlier result out of service. */
  ghost predicate ToBuild(s: State, key: CacheKey, force: bool, t: State, job: Job) {
    && job == Job(key, Queued, false, false, 0, 0, 0, None, None, None, [])
    && t.cache.Keys == s.cache.Keys && (forall k :: k in s.cache && k != key ==> t.cache[k] == s.cache[k])
    && (key in s.cache ==> if force then !t.cache[key].ready && t.cache[key].refCount == s.cache[key].refCount
                           else t.cache[key] == s.cache[key])
  }

  /** An unforced request joins an active job for the same content, or else gets the result
      in service; any other request queues one more job. */
  ghost predicate Answered(s: State, key: CacheKey, force: bool, t: State, j: nat, existing: bool) {
    && j < |t.jobs| && t.jobs[j].key == key && t.objects == s.objects
    && (existing <==> !force && exists i :: 0 <= i < |s.jobs| && s.jobs[i].key == key
                                            && s.jobs[i].status in {Queued, Planning, Running, Finalizing})
    && if existing then
         && t == s && t.jobs[j].status in {Queued, Planning, Running, Finalizing}
         && forall i :: j < i < |t.jobs| && t.jobs[i].key == key ==> t.jobs[i].status !in {Queued, Planning, Running, Finalizing}
       else
         && j == |s.jobs| && t.jobs == s.jobs + [t.jobs[j]]
         && if !force && InService(s, key) then FromCache(s, key, t, t.jobs[j]) else ToBuild(s, key, force, t, t.jobs[j])
  }

  lemma RequestIsAnswered(s: State, source: Source, raw: RawOptions, force: bool, settings: Settings)
    requires CreateJob(s, source, raw, force, settings).Ok?
    ensures var made := CreateJob(s, source, raw, force, settings).value;
            && made.job < |made.state.jobs| && made.state.jobs[made.job].key.source == source
            && Honoured(raw, settings, made.state.jobs[made.job].key.options)
            && Answered(s, made.state.jobs[made.job].key, force, made.state, made.job, made.existing)
  {
    hide NormalizeOptions, Honoured;
    NormalizeHonours(raw, settings);
  }

  /** Two requests of any run that get the same job, or jobs with the same result, are for
      the same model at the same site. */
  lemma SharedBuildSharedSite(c: Config, s: State, source: Source, raw: RawOptions, force: bool, first: Created,
                              events: seq<Event>, t: State, other: Source, otherRaw: RawOptions, otherForce: bool,
                              second: Created, later: seq<Event>, u: State)
    requires Consistent(s) && CreateJob(s, source, raw, force, c.settings) == Ok(first)
    requires After(c, first.state, events) == Some(t)
    requires CreateJob(t, other, otherRaw, otherForce, c.settings) == Ok(second)
    requires After(c, second.state, later) == Some(u)
    ensures first.job < |u.jobs| && second.job < |u.jobs|
    ensures first.job == second.job || (u.jobs[first.job].status == u.jobs[second.job].status == Completed
                                        && u.jobs[first.job].manifest == u.jobs[second.job].manifest)
            ==> source == other && SameSite(raw, otherRaw)
  {
    hide CreateJob, Answered, Honoured, After, Consistent, Keeps, SameSite;
    RequestIsAnswered(s, source, raw, force, c.settings);
    RequestIsAnswered(t, other, otherRaw, otherForce, c.settings);
    CreateStep(s, source, raw, force, c.settings);
    RunKeeps(c, first.state, events, t);
    CreateStep(t, other, otherRaw, otherForce, c.settings);
    RunKeeps(c, second.state, later, u);
    KeepsTransitive(t, second.state, u);
    KeepsTransitive(first.state, t, u);
    KeyKept(first.state, u, first.job);
    KeyKept(second.state, u, second.job);
    if u.jobs[first.job].key == u.jobs[second.job].key {
      SameOptionsSameSite(raw, otherRaw, c.settings, u.jobs[first.job].key.options);
    }
  }

  lemma KeyKept(s: State, t: State, j: nat)
    requires Keeps(s, t) && Consistent(t) && j < |s.jobs|
    ensures j < |t.jobs| && t.jobs[j].key == s.jobs[j].key
    ensures t.jobs[j].status == Completed ==> t.jobs[j].manifest.Some? && t.jobs[j].manifest.value.key == t.jobs[j].key
  {
    assert JobKeeps(s.jobs[j], t.jobs[j]) && JobOk(t.jobs[j]);
  }

  // ---------------------------------------------------------------- one build at a time

  /** No two active jobs are for the same content. */
  ghost predicate SingleFlight(jobs: seq<Job>) {
    forall j, k {:trigger jobs[j], jobs[k]} ::
      0 <= j < k < |jobs| && jobs[j].status in ACTIVE && jobs[k].status in ACTIVE ==> jobs[j].key != jobs[k].key
  }

  predicate Polite(e: Event) { !(e.ECreate? && e.force) && !(e.EJob? && e.step.EResume?) }

  lemma TerminalStays(c: Config, job: Job, e: JobEvent)
    requires JobStep(c, job, e).Some? && !e.EResume? && job.status !in ACTIVE
    ensures JobStep(c, job, e).value.status !in ACTIVE
  {
    hide Split, PartsOf, Done, AllDone;
  }

  lemma KeyStays(c: Config, job: Job, e: JobEvent)
    requires JobStep(c, job, e).Some?
    ensures JobStep(c, job, e).value.key == job.key
  {
    hide Split, PartsOf, Done, AllDone;
  }

  lemma RowStaysTerminal(c: Config, s: State, e: Event, t: State, j: nat)
    requires Step(c, s, e) == Some(t) && Polite(e) && j < |s.jobs| && j < |t.jobs|
    ensures t.jobs[j].key == s.jobs[j].key && (t.jobs[j].status in ACTIVE ==> s.jobs[j].status in ACTIVE)
  {
    hide Step, JobStep;
    StepRow(c, s, e, j);
    if e.EJob? && e.j == j {
      KeyStays(c, s.jobs[j], e.step);
      if s.jobs[j].status !in ACTIVE { TerminalStays(c, s.jobs[j], e.step); }
    }
  }

  /** A new active job is for content that no active job is for. */
  lemma NewRowIsAlone(c: Config, s: State, e: Event, t: State, k: nat)
    requires Step(c, s, e) == Some(t) && Polite(e) && |s.jobs| <= k < |t.jobs|
    ensures k == |s.jobs| && (t.jobs[k].status in ACTIVE ==>
              forall j :: 0 <= j < |s.jobs| && s.jobs[j].status in ACTIVE ==> s.jobs[j].key != t.jobs[k].key)
  {
    hide NormalizeOptions, JobStep, Outputs;
    if e.EJob? { JobRow(c, s, e.j, e.step); }
  }

  lemma StepSingleFlight(c: Config, s: State, e: Event, t: State)
    requires SingleFlight(s.jobs) && Step(c, s, e) == Some(t) && Polite(e)
    ensures SingleFlight(t.jobs)
  {
    hide Step;
    StepIndex(c, s, e);
    forall j, k | 0 <= j < k < |t.jobs| && t.jobs[j].status in ACTIVE && t.jobs[k].status in ACTIVE
      ensures t.jobs[j].key != t.jobs[k].key
    {
      if j < |s.jobs| { RowStaysTerminal(c, s, e, t, j); } else { NewRowIsAlone(c, s, e, t, j); }
      if k < |s.jobs| { RowStaysTerminal(c, s, e, t, k); } else { NewRowIsAlone(c, s, e, t, k); }
    }
  }

  /** Over every run without forced requests and resumptions there is at most one active
      job for the same source and options, however many requests there are. */
  lemma {:induction false} RequestsAreSingleFlight(c: Config, events: seq<Event>, t: State)
    requires After(c, EMPTY, events) == Some(t) && forall e :: e in events ==> Polite(e)
    ensures SingleFlight(t.jobs)
  {
    if events != [] {
      var n := |events| - 1;
      var m := After(c, EMPTY, events[..n]).value;
      RequestsAreSingleFlight(c, events[..n], m);
      assert events[n] in events;
      StepSingleFlight(c, m, events[n], t);
    } else {
      assert t == EMPTY;
    }
  }

  ghost predicate OthersActive(jobs: seq<Job>, j: int, key: CacheKey) {
    exists k :: 0 <= k < |jobs| && k != j && jobs[k].status in ACTIVE && jobs[k].key == key
  }

  lemma OneMoreActive(before: seq<Job>, after: seq<Job>, j: nat)
    requires SingleFlight(before) && j < |after| && |before| <= |after| <= |before| + 1 && (|after| > |before| ==> j == |before|)
    requires forall k :: 0 <= k < |before| && k != j ==> after[k] == before[k]
    requires after[j].status in ACTIVE && (j < |before| ==> before[j].status !in ACTIVE)
    ensures SingleFlight(after) <==> !OthersActive(before, j, after[j].key)
  {
    if OthersActive(before, j, after[j].key) {
      var k :| 0 <= k < |before| && k != j && before[k].status in ACTIVE && before[k].key == after[j].key;
      assert after[k] == before[k];
    } else {
      forall a, b | 0 <= a < b < |after| && after[a].status in ACTIVE && after[b].status in ACTIVE
        ensures after[a].key != after[b].key
      {
        assert a != j ==> after[a] == before[a];
        assert b != j ==> after[b] == before[b];
      }
    }
  }

  /** A resumption keeps it so exactly when no other active job is for the same content. */
  lemma ResumeSingleFlight(c: Config, s: State, j: nat, t: State)
    requires SingleFlight(s.jobs) && Step(c, s, EJob(j, EResume)) == Some(t)
    ensures j < |s.jobs| && (SingleFlight(t.jobs) <==> !OthersActive(s.jobs, j, s.jobs[j].key))
  {
    hide Step, SingleFlight, OthersActive;
    JobRow(c, s, j, EResume);
    OneMoreActive(s.jobs, t.jobs, j);
  }

  /** So does a forced request. */
  lemma ForcedSingleFlight(c: Config, s: State, source: Source, raw: RawOptions, t: State)
    requires SingleFlight(s.jobs) && Step(c, s, ECreate(source, raw, true)) == Some(t)
    ensures NormalizeOptions(raw, c.settings).Ok?
    ensures SingleFlight(t.jobs) <==> !OthersActive(s.jobs, -1, CacheKey(source, NormalizeOptions(raw, c.settings).value))
  {
    hide NormalizeOptions, SingleFlight;
    OneMoreActive(s.jobs, t.jobs, |s.jobs|);
  }

  // ---------------------------------------------------------------- forced builds

  predicate OutOfService(s: State, key: CacheKey) { key in s.cache ==> !s.cache[key].ready }

  lemma OnlyFinalizeServes(c: Config, s: State, e: Event, t: State, key: CacheKey)
    requires Step(c, s, e) == Some(t) && OutOfService(s, key) && !(e.EJob? && e.step.EFinalize?)
    ensures OutOfService(t, key)
  {
    hide NormalizeOptions, JobStep, Outputs;
  }

  lemma {:induction false} StaysOutOfService(c: Config, s: State, events: seq<Event>, t: State, key: CacheKey)
    requires After(c, s, events) == Some(t) && OutOfService(s, key)
    requires forall e :: e in events ==> !(e.EJob? && e.step.EFinalize?)
    ensures OutOfService(t, key)
  {
    hide OutOfService, Step;
    if events != [] {
      var n := |events| - 1;
      var m := After(c, s, events[..n]).value;
      StaysOutOfService(c, s, events[..n], m, key);
      assert events[n] in events;
      OnlyFinalizeServes(c, m, events[n], t, key);
    }
  }

  /** After a forced request no request for the same content is answered from the cache
      until some build is finalized. */
  lemma ForcedIsNotServed(c: Config, s: State, source: Source, raw: RawOptions, forced: State, events: seq<Event>, m: State)
    requires NormalizeOptions(raw, c.settings).Ok?
    requires Step(c, s, ECreate(source, raw, true)) == Some(forced) && After(c, forced, events) == Some(m)
    requires forall e :: e in events ==> !(e.EJob? && e.step.EFinalize?)
    ensures !CacheHits(m, CacheKey(source, NormalizeOptions(raw, c.settings).value))
  {
    var key := CacheKey(source, NormalizeOptions(raw, c.settings).value);
    assert OutOfService(forced, key);
    StaysOutOfService(c, forced, events, m, key);
  }

  // ---------------------------------------------------------------- leases

  /** A partition claimed at `now`, or whose lease was renewed then, is taken away by a
      recovery at `later` exactly when that is after the lease. */
  lemma LeaseProtects(c: Config, job: Job, i: nat, w: Worker, now: Time, e: JobEvent, later: Time)
    requires e == EClaimPart(i, w, now) || e == EHeartbeat(i, w, now)
    requires JobStep(c, job, e).Some?
    ensures var held := JobStep(c, job, e).value;
            Holds(Recovered(held, later, c.maxAttempts), i, w) <==> later <= now + c.leaseSeconds
  {
    var held := JobStep(c, job, e).value;
    assert held.parts[i].status == Running && AnyRunning(held.parts);
  }

  /** The same for planning, unless the job is cancelled meanwhile. */
  lemma PlanningLeaseProtects(c: Config, job: Job, w: Worker, now: Time, later: Time)
    requires JobOk(job) && JobStep(c, job, EClaimPlanning(w, now)).Some?
    ensures var held := JobStep(c, job, EClaimPlanning(w, now)).value;
            Recovered(held, later, c.maxAttempts).status == (if later <= now + c.leaseSeconds then Planning else Queued)
  {
    assert job.parts == [];
  }
}
