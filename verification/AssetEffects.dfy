/** What each commit does to the rows of a job, field by field. */
module AssetEffects {
  import opened Basics
  import opened Wrappers
  import opened AssetOptions
  import opened Planner
  import opened AssetJobs

  // ---------------------------------------------------------------- requests

  /** The waiting partitions are cancelled, and the others stay. */
  ghost predicate CancelsWaiting(a: seq<Part>, b: seq<Part>, waiting: set<Status>) {
    |b| == |a| && forall i :: 0 <= i < |a| ==> b[i] == if a[i].status in waiting then a[i].(status := Cancelled) else a[i]
  }

  /** A terminal job stays, a queued one ends at once, and any other is asked to stop. */
  ghost predicate CancelledAs(a: Job, b: Job) {
    if a.status in {Completed, Failed, Cancelled} then b == a
    else if a.status == Queued then
      b == a.(cancelRequested := true, status := Cancelled, parts := b.parts) && CancelsWaiting(a.parts, b.parts, {Queued})
    else b == a.(cancelRequested := true)
  }

  lemma CancelEffect(job: Job)
    ensures CancelledAs(job, Cancel(job))
  {}

  ghost function CompletedAt(parts: seq<Part>): set<nat> { set i | 0 <= i < |parts| && parts[i].status == Completed }

  lemma {:induction false} DoneIsNumber(parts: seq<Part>)
    ensures Done(parts) == |CompletedAt(parts)|
  {
    if parts == [] {
      assert CompletedAt(parts) == {};
    } else {
      var front, n := parts[..|parts| - 1], |parts| - 1;
      DoneIsNumber(front);
      assert CompletedAt(parts) == CompletedAt(front) + (if parts[n].status == Completed then {n} else {});
      assert n !in CompletedAt(front);
    }
  }

  /** A job that ended without a result runs again, or waits to be planned if it has no
      partitions; what was completed stays completed. */
  ghost predicate ResumedAs(a: Job, b: Job) {
    && a.status in {Failed, Cancelled}
    && b == a.(status := if a.parts != [] then Running else Queued, cancelRequested := false, worker := None, lease := None,
               attempts := a.attempts + 1, completed := b.completed, parts := b.parts)
    && |b.parts| == |a.parts| && b.completed == |CompletedAt(b.parts)|
    && forall i :: 0 <= i < |a.parts| ==>
         b.parts[i] == if a.parts[i].status in {Failed, Cancelled, Running}
                       then a.parts[i].(status := Queued, worker := None, lease := None) else a.parts[i]
  }

  lemma ResumeEffect(job: Job)
    requires Resume(job).Some?
    ensures ResumedAs(job, Resume(job).value)
  {
    DoneIsNumber(Resume(job).value.parts);
  }

  // ---------------------------------------------------------------- lease recovery

  ghost predicate LeaseOver(lease: Option<Time>, now: Time) { lease.Some? && lease.value < now }

  /** A partition whose lease is over waits again, unless it was tried too often. */
  ghost predicate PartRecoveredAs(p: Part, q: Part, now: Time, maxAttempts: int) {
    if p.status != Running || !LeaseOver(p.lease, now) then q == p
    else if p.attempts < maxAttempts then q == p.(status := Queued, worker := None, lease := None)
    else q == p.(status := Failed)
  }

  /** A job asked to stop of which nothing runs is cancelled. Of any other, partitions and
      planning are freed whose lease is over, and it fails with a partition tried too often. */
  ghost predicate RecoveredAs(a: Job, b: Job, now: Time, maxAttempts: int) {
    var gone := a.status == Planning && LeaseOver(a.lease, now);
    var givenUp := exists i :: 0 <= i < |a.parts| && a.parts[i].status == Running && LeaseOver(a.parts[i].lease, now)
                               && a.parts[i].attempts >= maxAttempts;
    if a.cancelRequested && a.status in {Queued, Planning, Running, Finalizing}
       && forall i :: 0 <= i < |a.parts| ==> a.parts[i].status != Running
    then
      && b == a.(status := Cancelled, worker := None, lease := None, parts := b.parts)
      && CancelsWaiting(a.parts, b.parts, {Queued, Failed})
    else
      && b == a.(status := if givenUp then Failed else if gone then Queued else a.status, parts := b.parts,
                 worker := if gone then None else a.worker, lease := if gone then None else a.lease)
      && |b.parts| == |a.parts|
      && forall i :: 0 <= i < |a.parts| ==> PartRecoveredAs(a.parts[i], b.parts[i], now, maxAttempts)
  }

  lemma RecoverEffect(job: Job, now: Time, maxAttempts: int)
    ensures RecoveredAs(job, Recovered(job, now, maxAttempts), now, maxAttempts)
  {}

  // ---------------------------------------------------------------- claims

  /** A queued job that nobody asked to stop is the worker's until its lease is over. */
  ghost predicate PlanningClaimed(a: seq<Job>, b: seq<Job>, j: nat, w: Worker, until: Time) {
    && j < |a| && a[j].status == Queued && !a[j].cancelRequested
    && b == a[j := a[j].(status := Planning, worker := Some(w), lease := Some(until), attempts := a[j].attempts + 1)]
  }

  /** So is a waiting partition of a running job. */
  ghost predicate PartClaimed(a: seq<Job>, b: seq<Job>, j: nat, i: nat, w: Worker, until: Time) {
    && j < |a| && a[j].status == Running && !a[j].cancelRequested && i < |a[j].parts| && a[j].parts[i].status == Queued
    && var p := a[j].parts[i];
       b == a[j := a[j].(parts := a[j].parts[i := p.(status := Running, worker := Some(w), lease := Some(until),
                                                     attempts := p.attempts + 1)])]
  }

  /** And a running job whose partitions are all completed, for finalization. */
  ghost predicate FinalClaimed(a: seq<Job>, b: seq<Job>, j: nat, w: Worker, until: Time) {
    && j < |a| && a[j].status == Running && !a[j].cancelRequested
    && (forall i :: 0 <= i < |a[j].parts| ==> a[j].parts[i].status == Completed)
    && b == a[j := a[j].(status := Finalizing, worker := Some(w), lease := Some(until))]
  }

  // ---------------------------------------------------------------- planning

  /** The partition of a batch waits with exactly the batch's entities. */
  ghost predicate PartFor(p: Part, batch: Batch) {
    && p == Part(Queued, p.entities, Triangles(batch), 0, None, None, [])
    && |p.entities| == |batch| && forall n :: 0 <= n < |batch| ==> p.entities[n] == batch[n].id
  }

  ghost predicate PartsFor(parts: seq<Part>, batches: seq<Batch>) {
    |parts| == |batches| && forall i :: 0 <= i < |parts| ==> PartFor(parts[i], batches[i])
  }

  /** Planning by the worker that holds a job: a cancelled job stops, one that has partitions
      only recounts them, one of an empty model fails, and any other runs with a partition for
      each batch. A job whose planning broke off fails with the batches flushed before. */
  ghost predicate PlannedAs(a: Job, b: Job, e: JobEvent) {
    match e
    case EPlan(w, stream, batches) =>
      if a.cancelRequested then b == a.(status := Cancelled)
      else if a.parts != [] then
        b == a.(status := Running, total := |a.parts|, completed := |CompletedAt(a.parts)|, worker := None, lease := None)
      else if stream == [] then b == a.(status := Failed, lease := None)
      else
        && b == a.(status := Running, total := |batches|, completed := 0, worker := None, lease := None, parts := b.parts)
        && PartsFor(b.parts, batches)
    case EFailPlanning(w, read, flushed) =>
      !a.cancelRequested && a.parts == [] && b == a.(status := Failed, lease := None, parts := b.parts) && PartsFor(b.parts, flushed)
    case _ => false
  }

  lemma PlanEffect(c: Config, job: Job, e: JobEvent)
    requires (e.EPlan? || e.EFailPlanning?) && JobStep(c, job, e).Some?
    ensures PlannedAs(job, JobStep(c, job, e).value, e)
  {
    DoneIsNumber(job.parts);
  }

  // ---------------------------------------------------------------- building

  /** The worker's partition is completed with its records, failed with its job, or stopped
      with its job where that was asked for; every other partition stays. */
  ghost predicate BuiltAs(a: Job, b: Job, e: JobEvent)
    requires e.ECompletePart? || e.EFailPart? || e.EStopPart?
    requires e.i < |a.parts|
  {
    var p := a.parts[e.i];
    match e
    case ECompletePart(i, w, meshes) =>
      && b == a.(completed := b.completed,
                 parts := a.parts[i := p.(status := Completed, worker := Some(w), lease := None, output := meshes)])
      && b.completed == (var n := |CompletedAt(a.parts)| + 1; if a.total != 0 && a.total < n then a.total else n)
    case EFailPart(i, w) => b == a.(status := Failed, parts := a.parts[i := p.(status := Failed, lease := None)])
    case EStopPart(i, w) =>
      a.cancelRequested && b == a.(status := Cancelled, parts := a.parts[i := p.(status := Cancelled, lease := None)])
  }

  lemma BuildEffect(c: Config, job: Job, e: JobEvent)
    requires (e.ECompletePart? || e.EFailPart? || e.EStopPart?) && JobStep(c, job, e).Some?
    ensures e.i < |job.parts| && BuiltAs(job, JobStep(c, job, e).value, e)
  {
    DoneIsNumber(job.parts);
  }

  // ---------------------------------------------------------------- finalization

  /** The outputs of the partitions stand one after the other, in partition order. */
  ghost predicate Joined(parts: seq<Part>, starts: seq<nat>, records: seq<EntityId>) {
    && |starts| == |parts| + 1 && starts[0] == 0 && starts[|parts|] == |records|
    && forall i {:trigger JoinedAt(parts, starts, records, i)} :: 0 <= i < |parts| ==> JoinedAt(parts, starts, records, i)
  }

  ghost predicate JoinedAt(parts: seq<Part>, starts: seq<nat>, records: seq<EntityId>, i: nat)
    requires i < |parts| && i + 1 < |starts|
  {
    && starts[i + 1] == starts[i] + |parts[i].output| && starts[i + 1] <= |records|
    && records[starts[i]..starts[i + 1]] == parts[i].output
  }

  lemma JoinedMore(parts: seq<Part>, starts: seq<nat>, records: seq<EntityId>, p: Part)
    requires Joined(parts, starts, records)
    ensures Joined(parts + [p], starts + [|records + p.output|], records + p.output)
  {
    var all, more, ends := parts + [p], records + p.output, starts + [|records + p.output|];
    forall i | 0 <= i < |all| ensures JoinedAt(all, ends, more, i) {
      if i < |parts| {
        assert JoinedAt(parts, starts, records, i);
        assert more[starts[i]..starts[i + 1]] == records[starts[i]..starts[i + 1]];
      }
    }
  }

  lemma {:induction false} OutputsJoined(parts: seq<Part>) returns (starts: seq<nat>)
    ensures Joined(parts, starts, Outputs(parts))
  {
    if parts == [] {
      starts := [0];
    } else {
      hide Joined;
      var front, last := parts[..|parts| - 1], parts[|parts| - 1];
      assert parts == front + [last];
      starts := OutputsJoined(front);
      JoinedMore(front, starts, Outputs(front), last);
      starts := starts + [|Outputs(parts)|];
    }
  }

  /** The job is completed with a manifest of its own that joins the outputs, and the cache
      entry of its content is in service with one reference more; or the job ends cancelled or
      failed, and the cache stays. */
  ghost predicate FinishedAs(s: State, t: State, j: nat, e: JobEvent) {
    && j < |s.jobs|
    && var a, m := s.jobs[j], ManifestKey(s.jobs[j].key.source.tenant, s.jobs[j].key);
       match e
       case EFinalize(w) =>
         if a.cancelRequested then t == s.(jobs := s.jobs[j := a.(status := Cancelled, lease := None)])
         else
           && t.jobs == s.jobs[j := a.(status := Completed, completed := |a.parts|, manifest := Some(m), worker := Some(w),
                                       lease := None)]
           && m in t.objects && t.objects == s.objects[m := t.objects[m]]
           && (exists starts :: Joined(a.parts, starts, t.objects[m]))
           && t.cache == s.cache[a.key := CacheEntry(true, Some(m), if a.key in s.cache then s.cache[a.key].refCount + 1 else 1)]
       case EFailFinal(w, stored) =>
         && !a.cancelRequested && t.cache == s.cache && t.jobs == s.jobs[j := a.(status := Failed, lease := None)]
         && if stored then
              && m in t.objects && t.objects == s.objects[m := t.objects[m]]
              && exists starts :: Joined(a.parts, starts, t.objects[m])
            else t.objects == s.objects
       case _ => false
  }

  lemma FinishEffect(c: Config, s: State, j: nat, e: JobEvent)
    requires (e.EFinalize? || e.EFailFinal?) && Step(c, s, EJob(j, e)).Some?
    ensures FinishedAs(s, Step(c, s, EJob(j, e)).value, j, e)
  {
    hide Outputs, Joined;
    var a, t := s.jobs[j], Step(c, s, EJob(j, e)).value;
    var starts := OutputsJoined(a.parts);
    var m := ManifestKey(a.key.source.tenant, a.key);
    if m in t.objects && t.objects != s.objects { assert Joined(a.parts, starts, t.objects[m]); }
  }
}
