/** Asset build jobs and their partitions as stored rows, and every committed
    transaction on them as a function of the stored state. */
module AssetJobs {
  import opened Basics
  import opened Wrappers
  import opened AssetOptions
  import opened Planner

  type Worker = string
  type Time = int

  /** Job and partition rows share their status names. */
  datatype Status = Queued | Planning | Running | Finalizing | Completed | Failed | Cancelled

  const TERMINAL := {Completed, Failed, Cancelled}
  const ACTIVE := {Queued, Planning, Running, Finalizing}

  /** A partition row. `output` names the entity of every mesh record it produced. */
  datatype Part = Part(
    status: Status, entities: seq<EntityId>, triangles: nat, attempts: nat,
    worker: Option<Worker>, lease: Option<Time>, output: seq<EntityId>)

  /** Where the result of a build is stored. */
  datatype ManifestKey = ManifestKey(tenant: string, key: CacheKey)

  /** A job row with its partition rows, in partition order. */
  datatype Job = Job(
    key: CacheKey, status: Status, cancelRequested: bool, cacheHit: bool, total: nat, completed: nat, attempts: nat,
    worker: Option<Worker>, lease: Option<Time>, manifest: Option<ManifestKey>, parts: seq<Part>)

  datatype CacheEntry = CacheEntry(ready: bool, manifest: Option<ManifestKey>, refCount: nat)

  /** The database, with jobs in creation order, and the object store's manifests, each
      as the list of entities it names. */
  datatype State = State(jobs: seq<Job>, cache: map<CacheKey, CacheEntry>, objects: map<ManifestKey, seq<EntityId>>)

  datatype Config = Config(settings: Settings, leaseSeconds: nat, maxAttempts: int)

  const EMPTY := State([], map[], map[])

  // ---------------------------------------------------------------- rows

  function Done(parts: seq<Part>): nat {
    if parts == [] then 0
    else Done(parts[..|parts| - 1]) + (if parts[|parts| - 1].status == Completed then 1 else 0)
  }

  predicate AllDone(parts: seq<Part>) { forall i :: 0 <= i < |parts| ==> parts[i].status == Completed }

  predicate AnyRunning(parts: seq<Part>) { exists i :: 0 <= i < |parts| && parts[i].status == Running }

  function MapParts(parts: seq<Part>, f: Part -> Part): (r: seq<Part>)
    ensures |r| == |parts| && forall i :: 0 <= i < |parts| ==> r[i] == f(parts[i])
  {
    seq(|parts|, i requires 0 <= i < |parts| => f(parts[i]))
  }

  function MapJobs(jobs: seq<Job>, f: Job -> Job): (r: seq<Job>)
    ensures |r| == |jobs| && forall j :: 0 <= j < |jobs| ==> r[j] == f(jobs[j])
  {
    seq(|jobs|, j requires 0 <= j < |jobs| => f(jobs[j]))
  }

  predicate Expired(lease: Option<Time>, now: Time) { lease.Some? && lease.value < now }

  function Ids(batch: Batch): (r: seq<EntityId>)
    ensures |r| == |batch| && forall i :: 0 <= i < |batch| ==> r[i] == batch[i].id
  {
    seq(|batch|, i requires 0 <= i < |batch| => batch[i].id)
  }

  function PartOf(batch: Batch): Part {
    Part(Queued, Ids(batch), Triangles(batch), 0, None, None, [])
  }

  function PartsOf(batches: seq<Batch>): (r: seq<Part>)
    ensures |r| == |batches| && forall i :: 0 <= i < |batches| ==> r[i] == PartOf(batches[i])
  {
    seq(|batches|, i requires 0 <= i < |batches| => PartOf(batches[i]))
  }

  function Outputs(parts: seq<Part>): seq<EntityId> {
    if parts == [] then [] else Outputs(parts[..|parts| - 1]) + parts[|parts| - 1].output
  }

  function Entities(parts: seq<Part>): seq<EntityId> {
    if parts == [] then [] else Entities(parts[..|parts| - 1]) + parts[|parts| - 1].entities
  }

  function NewJob(key: CacheKey): Job {
    Job(key, Queued, false, false, 0, 0, 0, None, None, None, [])
  }

  /** A job answered from the cache is born completed. */
  function HitJob(key: CacheKey, manifest: ManifestKey): Job {
    Job(key, Completed, false, true, 0, 0, 0, None, None, Some(manifest), [])
  }

  // ---------------------------------------------------------------- transactions on one job

  function CancelledIfQueued(p: Part): Part {
    if p.status == Queued then p.(status := Cancelled) else p
  }

  function Cancel(job: Job): Job {
    if job.status in TERMINAL then job
    else if job.status == Queued then
      job.(cancelRequested := true, status := Cancelled, parts := MapParts(job.parts, CancelledIfQueued))
    else job.(cancelRequested := true)
  }

  function Requeued(p: Part): Part {
    if p.status in {Failed, Cancelled, Running} then p.(status := Queued, worker := None, lease := None) else p
  }

  function Resume(job: Job): Option<Job> {
    if job.status !in {Failed, Cancelled} then None
    else
      var parts := MapParts(job.parts, Requeued);
      Some(job.(parts := parts, cancelRequested := false, worker := None, lease := None, attempts := job.attempts + 1,
                completed := Done(parts), status := if parts != [] then Running else Queued))
  }

  /** An expired partition goes back to the queue, or fails once it was tried too often. */
  function RecoveredPart(p: Part, now: Time, maxAttempts: int): Part {
    if p.status != Running || !Expired(p.lease, now) then p
    else if p.attempts >= maxAttempts then p.(status := Failed)
    else p.(status := Queued, worker := None, lease := None)
  }

  predicate GivesUp(parts: seq<Part>, now: Time, maxAttempts: int) {
    exists i :: 0 <= i < |parts| && parts[i].status == Running && Expired(parts[i].lease, now)
                && parts[i].attempts >= maxAttempts
  }

  function CancelledIfWaiting(p: Part): Part {
    if p.status in {Queued, Failed} then p.(status := Cancelled) else p
  }

  /** Lease recovery of one job. The three steps all read the rows as last committed, so
      a cancelled job waits for the cycle after the one that freed its last partition. */
  function Recovered(job: Job, now: Time, maxAttempts: int): Job {
    var freed := if job.status == Planning && Expired(job.lease, now)
                 then job.(status := Queued, worker := None, lease := None) else job;
    if job.cancelRequested && job.status in ACTIVE && !AnyRunning(job.parts) then
      freed.(parts := MapParts(job.parts, CancelledIfWaiting), status := Cancelled, worker := None, lease := None)
    else
      freed.(parts := MapParts(job.parts, p => RecoveredPart(p, now, maxAttempts)),
             status := if GivesUp(job.parts, now, maxAttempts) then Failed else freed.status)
  }

  predicate Plannable(job: Job) { job.status == Queued && !job.cancelRequested }

  function ClaimPlanning(job: Job, w: Worker, now: Time, leaseSeconds: nat): Option<Job> {
    if !Plannable(job) then None
    else Some(job.(status := Planning, worker := Some(w), lease := Some(now + leaseSeconds), attempts := job.attempts + 1))
  }

  /** Planning by the worker that holds the job: a cancelled one stops, one that already
      has partitions is only recounted, an empty model fails, and otherwise the batches
      become the partitions. */
  function Plan(job: Job, w: Worker, stream: seq<Entity>, batches: seq<Batch>): Option<Job> {
    if job.status != Planning || job.worker != Some(w) then None
    else if job.cancelRequested then Some(job.(status := Cancelled))
    else if job.parts != [] then
      Some(job.(total := |job.parts|, completed := Done(job.parts), status := Running, worker := None, lease := None))
    else if stream == [] then Some(job.(status := Failed, lease := None))
    else Some(job.(parts := PartsOf(batches), total := |batches|, completed := 0, status := Running, worker := None, lease := None))
  }

  /** Planning that breaks off with an error before the total is set: the failure is recorded
      in the session that already holds the batches flushed so far, so these become
      partitions although the total stays unset. */
  function FailPlanning(job: Job, w: Worker, flushed: seq<Batch>): Option<Job> {
    if job.status != Planning || job.worker != Some(w) || job.cancelRequested || job.parts != [] then None
    else Some(job.(status := Failed, lease := None, parts := PartsOf(flushed)))
  }

  predicate Claimable(job: Job, i: nat) {
    i < |job.parts| && job.parts[i].status == Queued && job.status == Running && !job.cancelRequested
  }

  function ClaimPart(job: Job, i: nat, w: Worker, now: Time, leaseSeconds: nat): Option<Job> {
    if !Claimable(job, i) then None
    else
      var p := job.parts[i];
      Some(job.(parts := job.parts[i := p.(status := Running, worker := Some(w), lease := Some(now + leaseSeconds),
                                           attempts := p.attempts + 1)]))
  }

  /** `w` still holds partition `i`. */
  predicate Holds(job: Job, i: nat, w: Worker) {
    i < |job.parts| && job.parts[i].status == Running && job.parts[i].worker == Some(w)
  }

  function LeaseRenewed(job: Job, i: nat, until: Time): Job
    requires i < |job.parts|
  {
    job.(parts := job.parts[i := job.parts[i].(lease := Some(until))])
  }

  function Heartbeat(job: Job, i: nat, w: Worker, now: Time, leaseSeconds: nat): Option<Job> {
    if !Holds(job, i, w) then None
    else Some(LeaseRenewed(job, i, now + leaseSeconds))
  }

  /** The completion count reads the committed rows, where this one is not completed yet,
      and adds one, up to the planned total. */
  function CompletePart(job: Job, i: nat, w: Worker, meshes: seq<EntityId>): Option<Job> {
    if !Holds(job, i, w) || multiset(meshes) != multiset(job.parts[i].entities) then None
    else
      var count := Done(job.parts) + 1;
      var p := job.parts[i].(status := Completed, worker := Some(w), lease := None, output := meshes);
      Some(job.(parts := job.parts[i := p], completed := Min(count, if job.total != 0 then job.total else count)))
  }

  function FailPart(job: Job, i: nat, w: Worker): Option<Job> {
    if !Holds(job, i, w) then None
    else Some(job.(parts := job.parts[i := job.parts[i].(status := Failed, lease := None)], status := Failed))
  }

  /** A worker that sees the cancel request stops its partition and the job. */
  function StopPart(job: Job, i: nat, w: Worker): Option<Job> {
    if !Holds(job, i, w) || !job.cancelRequested then None
    else Some(job.(parts := job.parts[i := job.parts[i].(status := Cancelled, lease := None)], status := Cancelled))
  }

  predicate Finalizable(job: Job) {
    job.status == Running && job.total > 0 && job.completed >= job.total && !job.cancelRequested
  }

  function ClaimFinal(job: Job, w: Worker, now: Time, leaseSeconds: nat): Option<Job> {
    if !Finalizable(job) then None
    else Some(job.(status := Finalizing, worker := Some(w), lease := Some(now + leaseSeconds)))
  }

  /** `w` still holds the job for finalization. */
  predicate HoldsFinal(job: Job, w: Worker) { job.status == Finalizing && job.worker == Some(w) }

  /** The check that refuses to combine partitions that are not all completed. */
  predicate ReadyToFinalize(job: Job) { job.parts != [] && AllDone(job.parts) }

  function KeyOfManifest(job: Job): ManifestKey { ManifestKey(job.key.source.tenant, job.key) }

  function Finalized(job: Job, w: Worker): Job {
    job.(status := Completed, completed := |job.parts|, manifest := Some(KeyOfManifest(job)), worker := Some(w), lease := None)
  }

  // ---------------------------------------------------------------- transactions on the state

  /** The latest active job for a key. */
  function ActiveJob(jobs: seq<Job>, key: CacheKey): (r: Option<nat>)
    ensures r.Some? ==> r.value < |jobs| && jobs[r.value].key == key && jobs[r.value].status in ACTIVE
    ensures forall j :: 0 <= j < |jobs| && (r.Some? ==> r.value < j) ==> !(jobs[j].key == key && jobs[j].status in ACTIVE)
  {
    if jobs == [] then None
    else
      var last := |jobs| - 1;
      if jobs[last].key == key && jobs[last].status in ACTIVE then Some(last) else ActiveJob(jobs[..last], key)
  }

  predicate CacheHits(s: State, key: CacheKey) {
    key in s.cache && s.cache[key].ready && s.cache[key].manifest.Some? && s.cache[key].manifest.value in s.objects
  }

  datatype Created = Created(state: State, job: nat, existing: bool)

  /** A request for a build: joins an active job for the same content, is answered from
      the cache, or queues a new job. A forced one always builds and takes the cached
      result out of service first. */
  function CreateJob(s: State, source: Source, raw: RawOptions, force: bool, settings: Settings): Result<Created, string> {
    match NormalizeOptions(raw, settings)
    case Err(e) => Err(e)
    case Ok(o) =>
      var key := CacheKey(source, o);
      if !force && ActiveJob(s.jobs, key).Some? then Ok(Created(s, ActiveJob(s.jobs, key).value, true))
      else if !force && CacheHits(s, key) then
        var e := s.cache[key];
        Ok(Created(s.(jobs := s.jobs + [HitJob(key, e.manifest.value)], cache := s.cache[key := e.(refCount := e.refCount + 1)]),
                   |s.jobs|, false))
      else
        var cache := if force && key in s.cache then s.cache[key := s.cache[key].(ready := false, manifest := None)] else s.cache;
        Ok(Created(s.(jobs := s.jobs + [NewJob(key)], cache := cache), |s.jobs|, false))
  }

  /** The cache entry after one more build of its key. */
  function Rebuilt(cache: map<CacheKey, CacheEntry>, key: CacheKey, manifest: ManifestKey): CacheEntry {
    CacheEntry(true, Some(manifest), (if key in cache then cache[key].refCount else 0) + 1)
  }

  /** Combining the partition outputs: the manifest is stored and the cache entry is put
      in service. A cancelled job stops; unfinished partitions are an error. */
  function Finalize(s: State, j: nat, w: Worker): Option<State>
    requires j < |s.jobs|
  {
    var job := s.jobs[j];
    if !HoldsFinal(job, w) then None
    else if job.cancelRequested then Some(s.(jobs := s.jobs[j := job.(status := Cancelled, lease := None)]))
    else if !ReadyToFinalize(job) then None
    else
      var m := KeyOfManifest(job);
      Some(State(s.jobs[j := Finalized(job, w)], s.cache[job.key := Rebuilt(s.cache, job.key, m)],
                 s.objects[m := Outputs(job.parts)]))
  }

  /** A finalization that fails, before or after the manifest was stored. */
  function FailFinal(s: State, j: nat, w: Worker, stored: bool): Option<State>
    requires j < |s.jobs|
  {
    var job := s.jobs[j];
    if !HoldsFinal(job, w) || job.cancelRequested || !ReadyToFinalize(job) then None
    else Some(s.(jobs := s.jobs[j := job.(status := Failed, lease := None)],
                 objects := if stored then s.objects[KeyOfManifest(job) := Outputs(job.parts)] else s.objects))
  }

  // ---------------------------------------------------------------- events

  /** The committed transactions. Every choice the code leaves to the database, a worker
      or the outside world is an argument. */
  datatype Event =
    | ECreate(source: Source, raw: RawOptions, force: bool)
    | ERecover(now: Time)
    | ELoseObject(object_: ManifestKey)
    | EJob(j: nat, step: JobEvent)

  datatype JobEvent =
    | ECancel
    | EResume
    | EClaimPlanning(w: Worker, now: Time)
    | EPlan(w: Worker, stream: seq<Entity>, batches: seq<Batch>)
    | EFailPlanning(w: Worker, read: seq<Entity>, flushed: seq<Batch>)
    | EClaimPart(i: nat, w: Worker, now: Time)
    | EHeartbeat(i: nat, w: Worker, now: Time)
    | ECompletePart(i: nat, w: Worker, meshes: seq<EntityId>)
    | EFailPart(i: nat, w: Worker)
    | EStopPart(i: nat, w: Worker)
    | EClaimFinal(w: Worker, now: Time)
    | EFinalize(w: Worker)
    | EFailFinal(w: Worker, stored: bool)

  /** What an event does to its job, if it is enabled. Batches are any that the planner
      may produce for the stream. */
  ghost function JobStep(c: Config, job: Job, e: JobEvent): Option<Job> {
    match e
    case ECancel => Some(Cancel(job))
    case EResume => Resume(job)
    case EClaimPlanning(w, now) => ClaimPlanning(job, w, now, c.leaseSeconds)
    case EPlan(w, stream, batches) =>
      if PlannedBy(job.key.options, stream, batches) then Plan(job, w, stream, batches) else None
    case EFailPlanning(w, read, flushed) =>
      if PlannedBy(job.key.options, read, flushed) then FailPlanning(job, w, flushed) else None
    case EClaimPart(i, w, now) => ClaimPart(job, i, w, now, c.leaseSeconds)
    case EHeartbeat(i, w, now) => Heartbeat(job, i, w, now, c.leaseSeconds)
    case ECompletePart(i, w, meshes) => CompletePart(job, i, w, meshes)
    case EFailPart(i, w) => FailPart(job, i, w)
    case EStopPart(i, w) => StopPart(job, i, w)
    case EClaimFinal(w, now) => ClaimFinal(job, w, now, c.leaseSeconds)
    case EFinalize(w) =>
      if !HoldsFinal(job, w) then None
      else if job.cancelRequested then Some(job.(status := Cancelled, lease := None))
      else if ReadyToFinalize(job) then Some(Finalized(job, w)) else None
    case EFailFinal(w, _) =>
      if HoldsFinal(job, w) && !job.cancelRequested && ReadyToFinalize(job) then Some(job.(status := Failed, lease := None)) else None
  }

  /** The planner's contract. */
  ghost predicate PlannedBy(o: Options, stream: seq<Entity>, batches: seq<Batch>) {
    Split(batches, stream, o.maxEntities, o.maxTriangles)
  }

  /** One committed transaction, if it is enabled. */
  ghost function Step(c: Config, s: State, e: Event): Option<State> {
    match e
    case ECreate(source, raw, force) =>
      (match CreateJob(s, source, raw, force, c.settings)
       case Ok(r) => Some(r.state)
       case Err(_) => None)
    case ERecover(now) => Some(s.(jobs := MapJobs(s.jobs, job => Recovered(job, now, c.maxAttempts))))
    case ELoseObject(m) => Some(s.(objects := s.objects - {m}))
    case EJob(j, step) =>
      if j >= |s.jobs| then None
      else match step
        case EFinalize(w) => Finalize(s, j, w)
        case EFailFinal(w, stored) => FailFinal(s, j, w, stored)
        case _ =>
          (match JobStep(c, s.jobs[j], step)
           case Some(job) => Some(s.(jobs := s.jobs[j := job]))
           case None => None)
  }
}
