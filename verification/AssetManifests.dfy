/** What the stored manifests contain, whichever build stored them. */
module AssetManifests {
  import opened Basics
  import opened Wrappers
  import opened AssetOptions
  import opened Planner
  import opened Geometry
  import opened AssetJobs
  import opened AssetInvariants
  import opened AssetRuns
  import opened AssetEntities

  /** The entity stream of each model. */
  type Streams = Source -> seq<Entity>

  ghost predicate JobFaithful(job: Job, streams: Streams) {
    job.total != 0 ==> Entities(job.parts) == Ids(streams(job.key.source))
  }

  /** Fully planned jobs hold the stream of their model, and every stored manifest lists
      each of its entities as often as the stream does. */
  ghost predicate Faithful(s: State, streams: Streams) {
    && (forall j {:trigger s.jobs[j]} :: 0 <= j < |s.jobs| ==> JobFaithful(s.jobs[j], streams))
    && (forall m :: m in s.objects ==> multiset(s.objects[m]) == multiset(Ids(streams(m.key.source))))
  }

  /** Planning reads the stream of the job's model, unless it finds the job cancelled. */
  ghost predicate PlansFrom(s: State, e: Event, streams: Streams) {
    e.EJob? && e.step.EPlan? && e.j < |s.jobs| && !s.jobs[e.j].cancelRequested ==>
      e.step.stream == streams(s.jobs[e.j].key.source)
  }

  ghost predicate RunPlansFrom(c: Config, s: State, events: seq<Event>, streams: Streams) {
    events == [] ||
    (var front := events[..|events| - 1];
     RunPlansFrom(c, s, front, streams)
     && (After(c, s, front).Some? ==> PlansFrom(After(c, s, front).value, events[|events| - 1], streams)))
  }

  lemma KeptFaithful(a: Job, b: Job, streams: Streams)
    requires JobFaithful(a, streams) && JobKeeps(a, b) && a.parts != [] && (b.total == 0 || a.total != 0)
    ensures JobFaithful(b, streams)
  {
    KeptEntities(a, b);
  }

  lemma PlanFaithful(c: Config, job: Job, e: JobEvent, streams: Streams)
    requires JobOk(job) && JobFaithful(job, streams) && e.EPlan? && JobStep(c, job, e).Some?
    requires !job.cancelRequested ==> e.stream == streams(job.key.source)
    ensures JobFaithful(JobStep(c, job, e).value, streams)
  {
    PlannedEntities(e.batches);
  }

  /** Only planning sets the total. */
  lemma TotalKept(c: Config, job: Job, e: JobEvent)
    requires JobStep(c, job, e).Some? && !e.EPlan?
    ensures JobStep(c, job, e).value.total == job.total
    ensures !e.EFailPlanning? && job.parts == [] ==> JobStep(c, job, e).value.parts == []
  {}

  lemma JobStepFaithful(c: Config, job: Job, e: JobEvent, streams: Streams)
    requires JobOk(job) && JobFaithful(job, streams) && JobStep(c, job, e).Some?
    requires e.EPlan? && !job.cancelRequested ==> e.stream == streams(job.key.source)
    ensures JobFaithful(JobStep(c, job, e).value, streams)
  {
    JobStepOk(c, job, e);
    if e.EPlan? {
      PlanFaithful(c, job, e, streams);
    } else {
      TotalKept(c, job, e);
      if job.parts != [] && job.total != 0 {
        KeptFaithful(job, JobStep(c, job, e).value, streams);
      }
    }
  }

  lemma RecoveredFaithful(job: Job, now: Time, maxAttempts: int, streams: Streams)
    requires JobOk(job) && JobFaithful(job, streams)
    ensures JobFaithful(Recovered(job, now, maxAttempts), streams)
  {
    RecoveredStep(job, now, maxAttempts);
    if job.parts != [] {
      assert Recovered(job, now, maxAttempts).total == job.total;
      KeptFaithful(job, Recovered(job, now, maxAttempts), streams);
    }
  }

  /** The manifest combined from a job that is ready. */
  lemma OutputsFaithful(job: Job, streams: Streams)
    requires JobOk(job) && JobFaithful(job, streams) && job.status == Finalizing
    ensures multiset(Outputs(job.parts)) == multiset(Ids(streams(job.key.source)))
  {
    OutputsArePermuted(job.parts, job.key.options);
  }

  /** Only finalization stores a manifest, and it stores the combined outputs. */
  lemma StoredObjects(c: Config, s: State, e: Event, t: State)
    requires Step(c, s, e) == Some(t)
    ensures || (forall m :: m in t.objects ==> m in s.objects && t.objects[m] == s.objects[m])
            || (e.EJob? && e.j < |s.jobs| && s.jobs[e.j].status == Finalizing
                && t.objects == s.objects[KeyOfManifest(s.jobs[e.j]) := Outputs(s.jobs[e.j].parts)])
  {
    hide NormalizeOptions, Outputs, Ids, JobStep;
  }

  lemma ObjectsFaithful(c: Config, s: State, e: Event, t: State, streams: Streams)
    requires Consistent(s) && Faithful(s, streams) && Step(c, s, e) == Some(t)
    ensures forall m :: m in t.objects ==>
              multiset(t.objects[m]) == multiset(Ids(streams(m.key.source)))
  {
    hide Step, JobOk, JobFaithful, CacheOk, Outputs, Ids;
    StoredObjects(c, s, e, t);
    if e.EJob? && e.j < |s.jobs| && s.jobs[e.j].status == Finalizing {
      assert JobOk(s.jobs[e.j]) && JobFaithful(s.jobs[e.j], streams);
      OutputsFaithful(s.jobs[e.j], streams);
    }
  }

  lemma StepFaithful(c: Config, s: State, e: Event, t: State, streams: Streams)
    requires Consistent(s) && Faithful(s, streams) && Step(c, s, e) == Some(t) && PlansFrom(s, e, streams)
    ensures Faithful(t, streams)
  {
    ObjectsFaithful(c, s, e, t, streams);
    forall j | 0 <= j < |t.jobs| ensures JobFaithful(t.jobs[j], streams) {
      StepRow(c, s, e, j);
      NewRow(c, s, e, t, j);
      if j < |s.jobs| {
        assert JobOk(s.jobs[j]) && JobFaithful(s.jobs[j], streams);
        if e.ERecover? { RecoveredFaithful(s.jobs[j], e.now, c.maxAttempts, streams); }
        else if e.EJob? && e.j == j { JobStepFaithful(c, s.jobs[j], e.step, streams); }
      }
    }
  }

  lemma NewRow(c: Config, s: State, e: Event, t: State, j: nat)
    requires Step(c, s, e) == Some(t) && j < |t.jobs|
    ensures j >= |s.jobs| ==> t.jobs[j].total == 0
  {
    hide NormalizeOptions, Outputs;
  }

  lemma {:induction false} RunFaithful(c: Config, events: seq<Event>, t: State, streams: Streams)
    requires After(c, EMPTY, events) == Some(t) && RunPlansFrom(c, EMPTY, events, streams)
    ensures Faithful(t, streams)
  {
    if events != [] {
      var front := events[..|events| - 1];
      var m := After(c, EMPTY, front).value;
      RunFaithful(c, front, m, streams);
      ReachableIsConsistent(c, front, m);
      StepFaithful(c, m, events[|events| - 1], t, streams);
    } else {
      assert t == EMPTY;
    }
  }

  /** Over every run in which planning reads the stream of the job's model, every manifest
      in the store, whichever build put it there, and so every manifest a request can be
      answered with from the cache, names exactly the entities of that model: a request
      answered from the cache gets what a fresh build would list. */
  lemma EveryManifestIsComplete(c: Config, events: seq<Event>, s: State, streams: Streams, key: CacheKey)
    requires After(c, EMPTY, events) == Some(s) && RunPlansFrom(c, EMPTY, events, streams)
    ensures && (forall m :: m in s.objects ==> multiset(s.objects[m]) == multiset(Ids(streams(m.key.source))))
            && (CacheHits(s, key) ==>
                  s.cache[key].manifest.value.key == key
                  && multiset(s.objects[s.cache[key].manifest.value]) == multiset(Ids(streams(key.source))))
  {
    hide JobsOk, JobFaithful;
    RunFaithful(c, events, s, streams);
    ReachableIsConsistent(c, events, s);
  }

  /** So in every run that plans from lists of the table's rows, every stored manifest names
      exactly the entities of the rows of its document, once each. */
  lemma ManifestListsTheTable(c: Config, events: seq<Event>, s: State, streams: Streams, rows: seq<Row>, m: ManifestKey)
    requires Distinct(RowIds(rows)) && After(c, EMPTY, events) == Some(s) && RunPlansFrom(c, EMPTY, events, streams)
    requires forall source: Source :: exists at :: Lists(rows, source.document, at, streams(source))
    requires m in s.objects
    ensures NamesModel(s.objects[m], rows, m.key.source.document)
  {
    hide Lists, Distinct;
    RunFaithful(c, events, s, streams);
    var at :| Lists(rows, m.key.source.document, at, streams(m.key.source));
    ListedIsComplete(rows, m.key.source.document, at, streams(m.key.source));
  }

  /** The streams that planning reads from the table. */
  function TableStreams(rows: seq<Row>): Streams { (source: Source) => Stream(rows, source.document) }

  lemma TableManifest(s: State, rows: seq<Row>, m: ManifestKey)
    requires Distinct(RowIds(rows)) && Faithful(s, TableStreams(rows)) && m in s.objects
    ensures NamesModel(s.objects[m], rows, m.key.source.document)
  {
    hide Stream, Distinct, JobFaithful;
    StreamHolds(rows, m.key.source.document);
  }
}
