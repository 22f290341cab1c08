/** The build queue as its services update it in place. Each method is one or more
    committed transactions, and commits exactly what the event of that name does. */
module AssetStore {
  import opened Basics
  import opened Wrappers
  import opened AssetOptions
  import opened Planner
  import opened Geometry
  import opened AssetJobs
  import opened AssetEffects
  import opened AssetInvariants
  import opened AssetRuns
  import opened AssetWorker
  import opened AssetEntities
  import opened AssetManifests
  import opened AssetRequests
  import opened AssetRows

  /** How far storing the manifest gets. */
  datatype Storing = Stores | FailsBefore | FailsAfter

  /** What the outside world does to a worker cycle: when planning breaks off, which guids
      triangulate, whether storing the meshes or the manifest fails. */
  datatype Env = Env(now: Time, breaksAt: Option<nat>, usable: set<string>, broken: bool, storing: Storing)

  datatype Handle = Handle(job: nat, existing: bool)

  /** The rows agree with each other, every partition can be built from the entity table, and
      every plan and every stored manifest lists the entities of its model in the table. */
  ghost predicate Sound(s: State, rows: seq<Row>) {
    Consistent(s) && Covered(s.jobs, rows) && Faithful(s, TableStreams(rows))
  }

  /** The job's result is stored, lists exactly the entities of its model, and is what the
      cache answers later requests for the same content with. */
  ghost predicate Served(s: State, job: Job, rows: seq<Row>) {
    && job.manifest.Some? && job.manifest.value in s.objects
    && NamesModel(s.objects[job.manifest.value], rows, job.key.source.document)
    && job.key in s.cache && s.cache[job.key].ready && s.cache[job.key].manifest == job.manifest
  }

  class Pipeline {
    const config: Config
    /** The entity table, in creation order. It stays as it is while jobs run. */
    const rows: seq<Row>
    var jobs: seq<Job>
    var cache: map<CacheKey, CacheEntry>
    var objects: map<ManifestKey, seq<EntityId>>

    ghost function Stored(): State
      reads this
    {
      State(jobs, cache, objects)
    }

    ghost predicate Valid()
      reads this
    {
      Sound(Stored(), rows)
    }

    constructor (config: Config, rows: seq<Row>)
      requires Distinct(RowIds(rows))
      ensures Valid() && Stored() == EMPTY && this.config == config && this.rows == rows
    {
      this.config, this.rows := config, rows;
      jobs, cache, objects := [], map[], map[];
    }

    // -------------------------------------------------------------- requests

    method CreateJob(source: Source, raw: RawOptions, force: bool) returns (r: Result<Handle, string>)
      requires Valid()
      modifies this
      ensures r.Ok? ==> Step(config, old(Stored()), ECreate(source, raw, force)) == Some(Stored()) && Valid()
      ensures r.Ok? ==> var made := AssetJobs.CreateJob(old(Stored()), source, raw, force, config.settings);
                        made.Ok? && made.value.job == r.value.job && made.value.existing == r.value.existing
      ensures r.Ok? ==> r.value.job < |jobs| && jobs[r.value.job].key.source == source
                        && Honoured(raw, config.settings, jobs[r.value.job].key.options)
                        && Answered(old(Stored()), jobs[r.value.job].key, force, Stored(), r.value.job, r.value.existing)
      ensures r.Err? <==> forall compression :: !Compresses(raw, config.settings, compression)
      ensures r.Err? ==> Stored() == old(Stored())
    {
      hide Step, Sound, ActiveJob, NormalizeOptions, Honoured, Compresses, Answered;
      CommitCreate(config, Stored(), source, raw, force, rows);
      NormalizeHonours(raw, config.settings);
      if NormalizeOptions(raw, config.settings).Ok? { RequestIsAnswered(Stored(), source, raw, force, config.settings); }
      var normalized := NormalizeOptions(raw, config.settings);
      if normalized.Err? { return Err(normalized.error); }
      var key := CacheKey(source, normalized.value);
      if !force {
        var active := FindActive(jobs, key);
        if active.Some? { return Ok(Handle(active.value, true)); }
        if key in cache && cache[key].ready && cache[key].manifest.Some? && cache[key].manifest.value in objects {
          jobs := jobs + [HitJob(key, cache[key].manifest.value)];
          cache := cache[key := cache[key].(refCount := cache[key].refCount + 1)];
          return Ok(Handle(|jobs| - 1, false));
        }
      } else if key in cache {
        cache := cache[key := cache[key].(ready := false, manifest := None)];
      }
      jobs := jobs + [NewJob(key)];
      return Ok(Handle(|jobs| - 1, false));
    }

    method CancelJob(j: nat) returns (found: bool)
      requires Valid()
      modifies this
      ensures found <==> j < old(|jobs|)
      ensures found ==> Step(config, old(Stored()), EJob(j, ECancel)) == Some(Stored()) && Valid()
      ensures found ==> j < |jobs| && jobs == old(jobs)[j := jobs[j]] && CancelledAs(old(jobs)[j], jobs[j])
      ensures !found ==> Stored() == old(Stored())
    {
      hide Step, Sound, CancelledAs;
      if j >= |jobs| { return false; }
      var job := jobs[j];
      CancelEffect(job);
      if job.status !in TERMINAL {
        job := job.(cancelRequested := true);
        if job.status == Queued {
          var parts := CancelQueued(job.parts);
          job := job.(status := Cancelled, parts := parts);
        }
      }
      CommitJob(config, Stored(), j, ECancel, job, rows);
      jobs := jobs[j := job];
      return true;
    }

    method ResumeJob(j: nat) returns (r: Result<nat, string>)
      requires Valid()
      modifies this
      ensures r.Ok? <==> j < old(|jobs|) && old(jobs)[j].status in {Failed, Cancelled}
      ensures r.Ok? ==> r.value == j && Step(config, old(Stored()), EJob(j, EResume)) == Some(Stored()) && Valid()
      ensures r.Ok? ==> j < |jobs| && jobs == old(jobs)[j := jobs[j]] && ResumedAs(old(jobs)[j], jobs[j])
      ensures r.Err? ==> Stored() == old(Stored())
    {
      hide Step, Sound, Requeued, Done, MapParts, ResumedAs;
      if j >= |jobs| { return Err("Asset job not found"); }
      var job := jobs[j];
      if job.status !in {Failed, Cancelled} { return Err("Only failed or cancelled jobs can be resumed"); }
      ResumeEffect(job);
      var parts := RequeueParts(job.parts);
      var done := CountDone(parts);
      job := job.(parts := parts, cancelRequested := false, worker := None, lease := None, attempts := job.attempts + 1,
                  completed := done, status := if parts != [] then Running else Queued);
      CommitJob(config, Stored(), j, EResume, job, rows);
      jobs := jobs[j := job];
      return Ok(j);
    }

    // -------------------------------------------------------------- recovery and claims

    /** Nothing is committed when nothing was recovered. */
    method RecoverStaleLeases(now: Time) returns (recovered: nat)
      requires Valid()
      modifies this
      ensures Step(config, old(Stored()), ERecover(now)) == Some(Stored()) && Valid()
      ensures |jobs| == |old(jobs)| && cache == old(cache) && objects == old(objects)
      ensures forall j :: 0 <= j < |jobs| ==> RecoveredAs(old(jobs)[j], jobs[j], now, config.maxAttempts)
    {
      hide Sound, Freed, PartsRecovered, Recovered, RecoveredAs;
      StepOkIfEnabled(config, Stored(), ERecover(now), rows);
      var freed, a := FreePlanners(jobs, now);
      var built, b := RecoverParts(jobs, freed, now, config.maxAttempts);
      var ended, d := FinishCancels(jobs, built, now, config.maxAttempts);
      recovered := a + b + d;
      assert ended == MapJobs(jobs, job => Recovered(job, now, config.maxAttempts));
      forall j | 0 <= j < |jobs| ensures RecoveredAs(jobs[j], ended[j], now, config.maxAttempts) {
        RecoverEffect(jobs[j], now, config.maxAttempts);
      }
      if recovered > 0 { jobs := ended; }
    }

    /** The oldest queued job. */
    method ClaimJobForPlanning(w: Worker, now: Time) returns (r: Option<nat>)
      requires Valid()
      modifies this
      ensures r.None? ==> Stored() == old(Stored()) && NothingPlannable(Stored())
      ensures r.Some? ==>
                && Step(config, old(Stored()), EJob(r.value, EClaimPlanning(w, now))) == Some(Stored()) && Valid()
                && r.value < |jobs| && forall k :: 0 <= k < r.value ==> !Plannable(old(jobs)[k])
      ensures r.Some? ==> jobs[r.value].status == Planning && jobs[r.value].worker == Some(w)
      ensures r.Some? ==> PlanningClaimed(old(jobs), jobs, r.value, w, now + config.leaseSeconds)
    {
      hide Sound;
      for j := 0 to |jobs|
        invariant Stored() == old(Stored()) && Valid()
        invariant forall k :: 0 <= k < j ==> !Plannable(jobs[k])
      {
        var job := jobs[j];
        if job.status == Queued && !job.cancelRequested {
          job := job.(status := Planning, worker := Some(w), lease := Some(now + config.leaseSeconds), attempts := job.attempts + 1);
          CommitJob(config, Stored(), j, EClaimPlanning(w, now), job, rows);
          jobs := jobs[j := job];
          return Some(j);
        }
      }
      return None;
    }

    /** The first waiting partition of a running job. */
    method ClaimPartition(w: Worker, now: Time) returns (r: Option<(nat, nat)>)
      requires Valid()
      modifies this
      ensures r.None? ==> Stored() == old(Stored()) && NothingClaimable(Stored())
      ensures r.Some? ==> Step(config, old(Stored()), EJob(r.value.0, EClaimPart(r.value.1, w, now))) == Some(Stored()) && Valid()
      ensures r.Some? ==> r.value.0 < |jobs| && Holds(jobs[r.value.0], r.value.1, w) && !jobs[r.value.0].cancelRequested
      ensures r.Some? ==> PartClaimed(old(jobs), jobs, r.value.0, r.value.1, w, now + config.leaseSeconds)
    {
      hide Sound;
      for j := 0 to |jobs|
        invariant Stored() == old(Stored()) && Valid()
        invariant forall k :: 0 <= k < j ==> !HasClaimable(jobs[k])
      {
        var job := jobs[j];
        if job.status == Running && !job.cancelRequested {
          var i := FindQueued(job.parts);
          if i.Some? {
            var p := job.parts[i.value].(status := Running, worker := Some(w), lease := Some(now + config.leaseSeconds),
                                         attempts := job.parts[i.value].attempts + 1);
            job := job.(parts := job.parts[i.value := p]);
            CommitJob(config, Stored(), j, EClaimPart(i.value, w, now), job, rows);
            jobs := jobs[j := job];
            return Some((j, i.value));
          }
        }
      }
      return None;
    }

    method ClaimJobForFinalization(w: Worker, now: Time) returns (r: Option<nat>)
      requires Valid()
      modifies this
      ensures r.None? ==> Stored() == old(Stored()) && NothingFinalizable(Stored())
      ensures r.Some? ==> Step(config, old(Stored()), EJob(r.value, EClaimFinal(w, now))) == Some(Stored()) && Valid()
      ensures r.Some? ==> r.value < |jobs| && HoldsFinal(jobs[r.value], w)
      ensures r.Some? ==> FinalClaimed(old(jobs), jobs, r.value, w, now + config.leaseSeconds)
    {
      hide Sound;
      for j := 0 to |jobs|
        invariant Stored() == old(Stored()) && Valid()
        invariant forall k :: 0 <= k < j ==> !Finalizable(jobs[k])
      {
        var job := jobs[j];
        if job.status == Running && job.total > 0 && job.completed >= job.total && !job.cancelRequested {
          job := job.(status := Finalizing, worker := Some(w), lease := Some(now + config.leaseSeconds));
          CommitJob(config, Stored(), j, EClaimFinal(w, now), job, rows);
          jobs := jobs[j := job];
          HeldIsReady(Stored(), rows, j, w);
          return Some(j);
        }
      }
      return None;
    }

    // -------------------------------------------------------------- outcomes

    /** Planning by the worker that holds the job, which has no partitions yet. When the
        stream breaks off, what was flushed before is committed with the failure. */
    method PlanJob(j: nat, w: Worker, breaksAt: Option<nat>) returns (ghost e: JobEvent)
      requires Valid() && j < |jobs| && jobs[j].status == Planning && jobs[j].worker == Some(w)
      modifies this
      ensures PlanOutcome(w, e) && Step(config, old(Stored()), EJob(j, e)) == Some(Stored()) && Valid()
      ensures e.EFailPlanning? ==> breaksAt.Some?
      ensures e.EPlan? && !old(jobs)[j].cancelRequested ==>
                (exists at :: Lists(rows, old(jobs)[j].key.source.document, at, e.stream))
                && forall other :: PlannedBy(old(jobs)[j].key.options, e.stream, other) ==> |e.batches| <= |other|
      ensures j < |jobs| && jobs == old(jobs)[j := jobs[j]] && PlannedAs(old(jobs)[j], jobs[j], e)
      ensures e.EFailPlanning? ==>
                exists at, stream :: Lists(rows, old(jobs)[j].key.source.document, at, stream) && e.read <= stream
    {
      hide Step, JobStep, Lists, PlannedAs;
      var job := jobs[j];
      assert job.parts == [] by { assert JobOk(job); }
      StreamHolds(rows, job.key.source.document);
      ghost var at := StreamLists(rows, job.key.source.document);
      ghost var event;
      job, event := PlanRow(config, job, w, rows, breaksAt);
      e := event;
      PlanEffect(config, jobs[j], e);
      CommitJob(config, Stored(), j, e, job, rows);
      jobs := jobs[j := job];
    }

    /** The meshes of a partition: exactly its entities, once each. */
    method PartitionMeshes(j: nat, i: nat, usable: set<string>) returns (meshes: seq<Mesh>)
      requires Valid() && j < |jobs| && i < |jobs[j].parts|
      ensures meshes != [] && multiset(MeshIds(meshes)) == multiset(jobs[j].parts[i].entities)
    {
      var p := jobs[j].parts[i];
      assert PartOk(p, jobs[j].key.options) by { assert JobOk(jobs[j]); }
      assert RowsHold(rows, p.entities) by { assert JobCovered(jobs[j], rows); }
      var ids := set x | x in p.entities;
      meshes := GeometryForModel(rows, ids, usable);
      SelectsExactly(rows, p.entities);
      assert |multiset(MeshIds(meshes))| == |p.entities|;
    }

    /** The records of the meshes, with the lease renewed after each of them. */
    method StoreMeshes(j: nat, i: nat, meshes: seq<Mesh>, now: Time) returns (records: seq<EntityId>)
      requires j < |jobs| && i < |jobs[j].parts|
      modifies this`jobs
      ensures records == MeshIds(meshes)
      ensures jobs == if meshes == [] then old(jobs) else old(jobs)[j := LeaseRenewed(old(jobs)[j], i, now + config.leaseSeconds)]
    {
      records := [];
      for k := 0 to |meshes|
        invariant records == MeshIds(meshes)[..k]
        invariant jobs == if k == 0 then old(jobs) else old(jobs)[j := LeaseRenewed(old(jobs)[j], i, now + config.leaseSeconds)]
      {
        records := records + [meshes[k].entity];
        var job := jobs[j];
        RenewedAgain(old(jobs)[j], i, now + config.leaseSeconds);
        jobs := jobs[j := LeaseRenewed(job, i, now + config.leaseSeconds)];
      }
    }

    /** Building by the worker that holds the partition. The outcome is the meshes of
        exactly the partition's entities. */
    method ProcessPartition(j: nat, i: nat, w: Worker, env: Env) returns (ghost e: JobEvent)
      requires Valid() && j < |jobs| && Holds(jobs[j], i, w)
      modifies this
      ensures if old(jobs)[j].cancelRequested then e == EStopPart(i, w) else PartOutcome(i, w, e)
      ensures e.EFailPart? ==> env.broken
      ensures j < |jobs| && i < |old(jobs)[j].parts| && (e.ECompletePart? || e.EFailPart? || e.EStopPart?) && e.i == i
      ensures jobs == old(jobs)[j := jobs[j]] && BuiltAs(old(jobs)[j], jobs[j], e)
      ensures Step(config, old(Stored()), EJob(j, e)) == Some(Stored()) && Valid()
    {
      hide CompletePart, LeaseRenewed, Sound, BuiltAs;
      ghost var before := Stored();
      var job, p := jobs[j], jobs[j].parts[i];
      if job.cancelRequested {
        e := EStopPart(i, w);
        job := job.(parts := job.parts[i := p.(status := Cancelled, lease := None)], status := Cancelled);
      } else {
        var meshes := PartitionMeshes(j, i, env.usable);
        if env.broken || meshes == [] {
          e := EFailPart(i, w);
          job := job.(parts := job.parts[i := p.(status := Failed, lease := None)], status := Failed);
        } else {
          var records := StoreMeshes(j, i, meshes, env.now);
          e := ECompletePart(i, w, records);
          job := CompleteRow(job, i, w, records);
        }
      }
      BuildEffect(config, before.jobs[j], e);
      CommitJob(config, before, j, e, job, rows);
      jobs := jobs[j := job];
      assert jobs == before.jobs[j := job];
    }

    /** The row of the job with the partition completed. */
    static method CompleteRow(job: Job, i: nat, w: Worker, records: seq<EntityId>) returns (next: Job)
      requires Holds(job, i, w) && multiset(records) == multiset(job.parts[i].entities)
      ensures CompletePart(job, i, w, records) == Some(next)
    {
      var done := CountDone(job.parts);
      var count := done + 1;
      next := job.(parts := job.parts[i := job.parts[i].(status := Completed, worker := Some(w), lease := None, output := records)],
                   completed := Min(count, if job.total != 0 then job.total else count));
    }

    /** Finalization by the worker that holds the job. The check for unfinished partitions
        never refuses. */
    method FinalizeJob(j: nat, w: Worker, storing: Storing) returns (ghost e: JobEvent)
      requires Valid() && j < |jobs| && HoldsFinal(jobs[j], w)
      modifies this
      ensures FinalOutcome(w, e) && (e.EFinalize? <==> old(jobs)[j].cancelRequested || storing == Stores)
      ensures Step(config, old(Stored()), EJob(j, e)) == Some(Stored()) && Valid()
      ensures FinishedAs(old(Stored()), Stored(), j, e)
      ensures j < |jobs| && (jobs[j].status == Completed <==> !old(jobs)[j].cancelRequested && storing == Stores)
      ensures jobs[j].status == Completed ==> Served(Stored(), jobs[j], rows)
    {
      hide Sound, NamesModel, Outputs, JobOk, FinishedAs;
      var job := jobs[j];
      HeldIsReady(Stored(), rows, j, w);
      e := if job.cancelRequested || storing == Stores then EFinalize(w) else EFailFinal(w, storing == FailsAfter);
      StepOkIfEnabled(config, Stored(), EJob(j, e), rows);
      FinishEffect(config, Stored(), j, e);
      if job.cancelRequested {
        jobs := jobs[j := job.(status := Cancelled, lease := None)];
        return;
      }
      var ready := CheckAllDone(job.parts);
      if job.parts == [] || !ready { assert false; }
      var records := CombineOutputs(job.parts);
      var manifest := KeyOfManifest(job);
      if storing == Stores {
        objects := objects[manifest := records];
        var refs := if job.key in cache then cache[job.key].refCount else 0;
        cache := cache[job.key := CacheEntry(true, Some(manifest), refs + 1)];
        jobs := jobs[j := job.(status := Completed, completed := |job.parts|, manifest := Some(manifest), worker := Some(w),
                               lease := None)];
        SoundManifest(Stored(), rows, manifest);
      } else {
        if storing == FailsAfter { objects := objects[manifest := records]; }
        jobs := jobs[j := job.(status := Failed, lease := None)];
      }
    }

    // -------------------------------------------------------------- the worker loop

    /** One cycle: recovery, and one unit of work if there is any. */
    method RunWorkerCycle(w: Worker, env: Env) returns (worked: bool, ghost events: seq<Event>)
      requires Valid()
      modifies this
      ensures Valid() && After(config, old(Stored()), events) == Some(Stored())
      ensures Cycle(config, old(Stored()), w, env.now, events) && worked == (|events| == 3)
      ensures worked && env.breaksAt == None && !env.broken && env.storing == Stores ==> !Fails(events[2].step)
    {
      hide Sound, Step, NothingPlannable, NothingClaimable, NothingFinalizable;
      hide PlanningClaimed, PartClaimed, FinalClaimed, RecoveredAs, PlannedAs, BuiltAs, FinishedAs, Served, Lists;
      ghost var s := Stored();
      var _ := RecoverStaleLeases(env.now);
      ghost var r := Stored();
      var planning := ClaimJobForPlanning(w, env.now);
      if planning.Some? {
        var j := planning.value;
        ghost var claimed := Stored();
        ghost var e := PlanJob(j, w, env.breaksAt);
        WorkingCycle(config, s, r, claimed, Stored(), w, env.now, j, EClaimPlanning(w, env.now), e);
        return true, [ERecover(env.now), EJob(j, EClaimPlanning(w, env.now)), EJob(j, e)];
      }
      var building := ClaimPartition(w, env.now);
      if building.Some? {
        var j, i := building.value.0, building.value.1;
        ghost var claimed := Stored();
        ghost var e := ProcessPartition(j, i, w, env);
        WorkingCycle(config, s, r, claimed, Stored(), w, env.now, j, EClaimPart(i, w, env.now), e);
        return true, [ERecover(env.now), EJob(j, EClaimPart(i, w, env.now)), EJob(j, e)];
      }
      var finishing := ClaimJobForFinalization(w, env.now);
      if finishing.Some? {
        var j := finishing.value;
        ghost var claimed := Stored();
        ghost var e := FinalizeJob(j, w, env.storing);
        WorkingCycle(config, s, r, claimed, Stored(), w, env.now, j, EClaimFinal(w, env.now), e);
        return true, [ERecover(env.now), EJob(j, EClaimFinal(w, env.now)), EJob(j, e)];
      }
      IdleCycle(config, s, r, w, env.now);
      return false, [ERecover(env.now)];
    }

    /** Cycles until the job is terminal, looked for before each cycle. A lone job of `n`
        partitions on which nothing fails is returned exactly when more than `n + 2`
        cycles are allowed. */
    method RunUntilTerminal(j: nat, w: Worker, envs: seq<Env>) returns (r: Result<Status, string>, ghost turns: seq<Turn>)
      requires Valid()
      modifies this
      ensures Valid() && AfterTurns(config, old(Stored()), w, turns) == Some(Stored())
      ensures r.Ok? ==> j < |jobs| && jobs[j].status in TERMINAL && r.value == jobs[j].status && |turns| < |envs|
      ensures r.Err? ==> |turns| == |envs|
      ensures forall n: nat :: Lone(old(jobs), j, n) && AllSucceed(n, turns) ==>
                (r.Ok? <==> n + 2 < |envs|) && (r.Ok? ==> r.value == Completed && |turns| == n + 2)
    {
      hide Consistent, Covered, Cycle, Stage, After, Succeeds;
      ghost var s := Stored();
      turns := [];
      for k := 0 to |envs|
        invariant Valid() && AfterTurns(config, s, w, turns) == Some(Stored()) && |turns| == k
        invariant forall n: nat :: Lone(s.jobs, j, n) && AllSucceed(n, turns) ==> k <= n + 2
      {
        LoneStatus(config, s, w, j, turns);
        if j < |jobs| && jobs[j].status in {Completed, Failed, Cancelled} {
          return Ok(jobs[j].status), turns;
        }
        var worked, events := RunWorkerCycle(w, envs[k]);
        assert (turns + [Turn(envs[k].now, events)])[..k] == turns;
        turns := turns + [Turn(envs[k].now, events)];
        assert forall n: nat :: AllSucceed(n, turns) ==> AllSucceed(n, turns[..k]);
      }
      return Err("Asset job did not reach a terminal state"), turns;
    }
  }

  /** The failures a cycle can end in. */
  predicate Fails(e: JobEvent) { e.EFailPlanning? || e.EFailPart? || e.EFailFinal? }

  predicate Lone(jobs: seq<Job>, j: nat, n: nat) { |jobs| == 1 && j == 0 && n > 0 && Stage(jobs[0], 0, n) }

  lemma LoneStatus(c: Config, s: State, w: Worker, j: nat, turns: seq<Turn>)
    requires AfterTurns(c, s, w, turns).Some?
    ensures var t := AfterTurns(c, s, w, turns).value;
            forall n: nat :: Lone(s.jobs, j, n) && AllSucceed(n, turns) ==>
              && j < |t.jobs| && (t.jobs[j].status in TERMINAL <==> |turns| >= n + 2)
              && (t.jobs[j].status in TERMINAL <==> t.jobs[j].status == Completed)
  {
    forall n: nat | Lone(s.jobs, j, n) && AllSucceed(n, turns)
      ensures var t := AfterTurns(c, s, w, turns).value;
              && j < |t.jobs| && (t.jobs[j].status in TERMINAL <==> |turns| >= n + 2)
              && (t.jobs[j].status in TERMINAL <==> t.jobs[j].status == Completed)
    {
      LoneJobCompletes(c, s, w, n, turns);
    }
  }

  lemma WorkingCycle(c: Config, s: State, r: State, claimed: State, t: State, w: Worker, now: Time, j: nat,
                     claim: JobEvent, outcome: JobEvent)
    requires Step(c, s, ERecover(now)) == Some(r) && Step(c, r, EJob(j, claim)) == Some(claimed)
    requires Step(c, claimed, EJob(j, outcome)) == Some(t) && Unit(r, w, now, claim, outcome)
    ensures var events := [ERecover(now), EJob(j, claim), EJob(j, outcome)];
            After(c, s, events) == Some(t) && Cycle(c, s, w, now, events)
  {
    hide Step, Unit;
    AfterOne(c, s, [], ERecover(now));
    AfterOne(c, s, [ERecover(now)], EJob(j, claim));
    AfterOne(c, s, [ERecover(now), EJob(j, claim)], EJob(j, outcome));
    assert [] + [ERecover(now)] == [ERecover(now)];
    assert [ERecover(now)] + [EJob(j, claim)] == [ERecover(now), EJob(j, claim)];
    assert [ERecover(now), EJob(j, claim)] + [EJob(j, outcome)] == [ERecover(now), EJob(j, claim), EJob(j, outcome)];
  }

  lemma IdleCycle(c: Config, s: State, r: State, w: Worker, now: Time)
    requires Step(c, s, ERecover(now)) == Some(r)
    requires NothingPlannable(r) && NothingClaimable(r) && NothingFinalizable(r)
    ensures After(c, s, [ERecover(now)]) == Some(r) && Cycle(c, s, w, now, [ERecover(now)])
  {
    hide Step, NothingPlannable, NothingClaimable, NothingFinalizable;
    AfterOne(c, s, [], ERecover(now));
    assert [] + [ERecover(now)] == [ERecover(now)];
  }

  /** Planning of one job row from the stream of its model. */
  method PlanRow(ghost c: Config, job: Job, w: Worker, rows: seq<Row>, breaksAt: Option<nat>) returns (next: Job, ghost e: JobEvent)
    requires job.status == Planning && job.worker == Some(w) && job.parts == []
    requires RowsHold(rows, Ids(Stream(rows, job.key.source.document)))
    ensures PlanOutcome(w, e) && JobStep(c, job, e) == Some(next) && PlansCovered(EJob(0, e), rows)
    ensures e.EFailPlanning? ==> breaksAt.Some?
    ensures e.EFailPlanning? ==> e.read <= Stream(rows, job.key.source.document)
    ensures e.EPlan? && !job.cancelRequested ==>
              e.stream == Stream(rows, job.key.source.document)
              && forall other :: PlannedBy(job.key.options, e.stream, other) ==> |e.batches| <= |other|
  {
    hide Done, Ids, Triangles, Fits, Full, Stream, Cuts, WithinLimits, RowsHold, Distinct;
    if job.cancelRequested {
      assert RowsHold(rows, Ids([])) by { PrefixHolds(rows, Stream(rows, job.key.source.document), 0); }
      return job.(status := Cancelled), EPlan(w, [], []);
    }
    if job.parts != [] { assert false; }
    var stream := Stream(rows, job.key.source.document);
    if breaksAt.Some? && breaksAt.value < |stream| {
      var flushed, open := ReadStream(stream[..breaksAt.value], job.key.options.maxEntities, job.key.options.maxTriangles);
      FlushedAreCovered(rows, stream, breaksAt.value, flushed, open);
      return job.(status := Failed, lease := None, parts := PartsOf(flushed)), EFailPlanning(w, Concat(flushed), flushed);
    }
    var batches := PlanBatches(stream, job.key.options.maxEntities, job.key.options.maxTriangles);
    e := EPlan(w, stream, batches);
    if stream == [] {
      next := job.(status := Failed, lease := None);
    } else {
      next := job.(parts := PartsOf(batches), total := |batches|, completed := 0, status := Running, worker := None, lease := None);
    }
  }

  lemma FlushedAreCovered(rows: seq<Row>, stream: seq<Entity>, n: nat, flushed: seq<Batch>, open: Batch)
    requires n <= |stream| && RowsHold(rows, Ids(stream)) && Concat(flushed) + open == stream[..n]
    ensures RowsHold(rows, Ids(Concat(flushed))) && Concat(flushed) <= stream
  {
    assert Concat(flushed) == stream[..|Concat(flushed)|];
    PrefixHolds(rows, stream, |Concat(flushed)|);
  }

  /** What an enabled transaction leaves is consistent and can still be built. */
  lemma StepOkIfEnabled(c: Config, s: State, e: Event, rows: seq<Row>)
    requires Sound(s, rows) && PlansCovered(e, rows) && PlansFrom(s, e, TableStreams(rows))
    ensures Step(c, s, e).Some? ==> Sound(Step(c, s, e).value, rows)
  {
    hide Step, Consistent, Covered, Faithful, PlansCovered, PlansFrom;
    if Step(c, s, e).Some? {
      StepOk(c, s, e);
      StepCovered(c, s, e, rows);
      StepFaithful(c, s, e, Step(c, s, e).value, TableStreams(rows));
    }
  }

  lemma SoundManifest(s: State, rows: seq<Row>, m: ManifestKey)
    requires Sound(s, rows) && m in s.objects
    ensures NamesModel(s.objects[m], rows, m.key.source.document)
  {
    TableManifest(s, rows, m);
  }

  lemma HeldIsReady(s: State, rows: seq<Row>, j: nat, w: Worker)
    requires Sound(s, rows) && j < |s.jobs| && HoldsFinal(s.jobs[j], w)
    ensures ReadyToFinalize(s.jobs[j])
  {
    assert JobOk(s.jobs[j]);
  }

  lemma CommitCreate(c: Config, s: State, source: Source, raw: RawOptions, force: bool, rows: seq<Row>)
    requires Sound(s, rows)
    ensures var made := CreateJob(s, source, raw, force, c.settings);
            made.Ok? ==> Step(c, s, ECreate(source, raw, force)) == Some(made.value.state) && Sound(made.value.state, rows)
  {
    hide Sound, CreateJob;
    StepOkIfEnabled(c, s, ECreate(source, raw, force), rows);
  }

  /** Writing a job's next row is the transaction. */
  lemma CommitJob(c: Config, s: State, j: nat, e: JobEvent, next: Job, rows: seq<Row>)
    requires Sound(s, rows) && PlansCovered(EJob(j, e), rows) && PlansFrom(s, EJob(j, e), TableStreams(rows)) && j < |s.jobs|
    requires JobStep(c, s.jobs[j], e) == Some(next) && !e.EFinalize? && !e.EFailFinal?
    ensures var t := State(s.jobs[j := next], s.cache, s.objects);
            Step(c, s, EJob(j, e)) == Some(t) && Sound(t, rows)
  {
    hide JobStep, Sound;
    StepOkIfEnabled(c, s, EJob(j, e), rows);
  }
}
