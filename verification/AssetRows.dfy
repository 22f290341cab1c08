/** The loops over job and partition rows, each proved against what it is meant to do to
    every row. */
module AssetRows {
  import opened Wrappers
  import opened AssetOptions
  import opened Planner
  import opened AssetJobs
  import opened AssetEffects

  // ---------------------------------------------------------------- loops over rows

  method CancelQueued(parts: seq<Part>) returns (r: seq<Part>)
    ensures r == MapParts(parts, CancelledIfQueued) && CancelsWaiting(parts, r, {Queued})
  {
    r := parts;
    for i := 0 to |parts|
      invariant |r| == |parts|
      invariant forall k :: 0 <= k < |parts| ==> r[k] == if k < i then CancelledIfQueued(parts[k]) else parts[k]
    {
      if parts[i].status == Queued { r := r[i := parts[i].(status := Cancelled)]; }
    }
  }

  method CancelWaiting(parts: seq<Part>) returns (r: seq<Part>)
    ensures r == MapParts(parts, CancelledIfWaiting) && CancelsWaiting(parts, r, {Queued, Failed})
  {
    r := parts;
    for i := 0 to |parts|
      invariant |r| == |parts|
      invariant forall k :: 0 <= k < |parts| ==> r[k] == if k < i then CancelledIfWaiting(parts[k]) else parts[k]
    {
      if parts[i].status in {Queued, Failed} { r := r[i := parts[i].(status := Cancelled)]; }
    }
  }

  method RequeueParts(parts: seq<Part>) returns (r: seq<Part>)
    ensures r == MapParts(parts, Requeued)
    ensures forall k :: 0 <= k < |parts| ==>
              r[k] == if parts[k].status in {Failed, Cancelled, Running} then parts[k].(status := Queued, worker := None, lease := None)
                      else parts[k]
  {
    r := parts;
    for i := 0 to |parts|
      invariant |r| == |parts|
      invariant forall k :: 0 <= k < |parts| ==> r[k] == if k < i then Requeued(parts[k]) else parts[k]
    {
      if parts[i].status in {Failed, Cancelled, Running} {
        r := r[i := parts[i].(status := Queued, worker := None, lease := None)];
      }
    }
  }

  method CountDone(parts: seq<Part>) returns (n: nat)
    ensures n == Done(parts) && n == |CompletedAt(parts)|
  {
    DoneIsNumber(parts);
    n := 0;
    for i := 0 to |parts|
      invariant n == Done(parts[..i])
    {
      assert parts[..i + 1][..i] == parts[..i];
      if parts[i].status == Completed { n := n + 1; }
    }
    assert parts[..|parts|] == parts;
  }

  method CheckAllDone(parts: seq<Part>) returns (ready: bool)
    ensures ready <==> AllDone(parts)
  {
    for i := 0 to |parts|
      invariant forall k :: 0 <= k < i ==> parts[k].status == Completed
    {
      if parts[i].status != Completed { return false; }
    }
    return true;
  }

  method CheckAnyRunning(parts: seq<Part>) returns (running: bool)
    ensures running <==> AnyRunning(parts)
  {
    for i := 0 to |parts|
      invariant forall k :: 0 <= k < i ==> parts[k].status != Running
    {
      if parts[i].status == Running { return true; }
    }
    return false;
  }

  /** The first waiting partition. */
  method FindQueued(parts: seq<Part>) returns (r: Option<nat>)
    ensures r.Some? ==> r.value < |parts| && parts[r.value].status == Queued
    ensures r.None? ==> forall i :: 0 <= i < |parts| ==> parts[i].status != Queued
  {
    for i := 0 to |parts|
      invariant forall k :: 0 <= k < i ==> parts[k].status != Queued
    {
      if parts[i].status == Queued { return Some(i); }
    }
    return None;
  }

  /** The combined records of the partitions, in partition order. */
  method CombineOutputs(parts: seq<Part>) returns (records: seq<EntityId>)
    ensures records == Outputs(parts) && exists starts :: Joined(parts, starts, records)
  {
    hide Joined;
    ghost var starts := OutputsJoined(parts);
    records := [];
    for i := 0 to |parts|
      invariant records == Outputs(parts[..i])
    {
      assert parts[..i + 1][..i] == parts[..i];
      records := records + parts[i].output;
    }
    assert parts[..|parts|] == parts;
  }

  /** The latest active job for a key. */
  method FindActive(jobs: seq<Job>, key: CacheKey) returns (r: Option<nat>)
    ensures r == ActiveJob(jobs, key)
    ensures r.Some? ==> r.value < |jobs| && jobs[r.value].key == key && jobs[r.value].status in {Queued, Planning, Running, Finalizing}
    ensures forall i :: 0 <= i < |jobs| && (r.Some? ==> r.value < i) && jobs[i].key == key ==>
              jobs[i].status !in {Queued, Planning, Running, Finalizing}
  {
    var j := |jobs|;
    assert jobs[..j] == jobs;
    while j > 0
      invariant 0 <= j <= |jobs| && ActiveJob(jobs, key) == ActiveJob(jobs[..j], key)
      invariant forall i :: j <= i < |jobs| && jobs[i].key == key ==> jobs[i].status !in {Queued, Planning, Running, Finalizing}
    {
      j := j - 1;
      assert jobs[..j + 1][..j] == jobs[..j];
      if jobs[j].key == key && jobs[j].status in ACTIVE { return Some(j); }
    }
    return None;
  }

  // ---------------------------------------------------------------- lease recovery

  predicate PlannerGone(job: Job, now: Time) { job.status == Planning && Expired(job.lease, now) }

  function Freed(job: Job, now: Time): Job {
    if PlannerGone(job, now) then job.(status := Queued, worker := None, lease := None) else job
  }

  function PartsRecovered(job: Job, now: Time, maxAttempts: int): Job {
    Freed(job, now).(parts := MapParts(job.parts, p => RecoveredPart(p, now, maxAttempts)),
                     status := if GivesUp(job.parts, now, maxAttempts) then Failed else Freed(job, now).status)
  }

  method FreePlanners(jobs: seq<Job>, now: Time) returns (rows: seq<Job>, n: nat)
    ensures rows == MapJobs(jobs, job => Freed(job, now))
    ensures forall k :: 0 <= k < |jobs| ==>
              rows[k] == if jobs[k].status == Planning && LeaseOver(jobs[k].lease, now)
                         then jobs[k].(status := Queued, worker := None, lease := None) else jobs[k]
    ensures n == 0 ==> rows == jobs
  {
    rows, n := jobs, 0;
    for j := 0 to |jobs|
      invariant |rows| == |jobs| && (n == 0 ==> rows == jobs)
      invariant forall k :: 0 <= k < |jobs| ==> rows[k] == if k < j then Freed(jobs[k], now) else jobs[k]
    {
      if jobs[j].status == Planning && Expired(jobs[j].lease, now) {
        rows := rows[j := rows[j].(status := Queued, worker := None, lease := None)];
        n := n + 1;
      }
    }
  }

  /** Recovery of one job's partitions. The rows read are the committed ones. */
  method RecoverPartsOf(job: Job, row: Job, now: Time, maxAttempts: int) returns (r: Job, n: nat)
    requires row == Freed(job, now)
    ensures r == PartsRecovered(job, now, maxAttempts)
    ensures forall k :: 0 <= k < |job.parts| ==> PartRecoveredAs(job.parts[k], r.parts[k], now, maxAttempts)
    ensures n == 0 ==> r == row
  {
    r, n := row, 0;
    for i := 0 to |job.parts|
      invariant |r.parts| == |job.parts| && (n == 0 ==> r == row)
      invariant r == row.(parts := r.parts, status := if GivesUp(job.parts[..i], now, maxAttempts) then Failed else row.status)
      invariant forall k :: 0 <= k < |job.parts| ==>
                  r.parts[k] == if k < i then RecoveredPart(job.parts[k], now, maxAttempts) else job.parts[k]
    {
      hide GivesUp;
      var p := job.parts[i];
      GivesUpGrows(job.parts, i, now, maxAttempts);
      if p.status == Running && Expired(p.lease, now) {
        if p.attempts >= maxAttempts {
          r := r.(parts := r.parts[i := p.(status := Failed)], status := Failed);
        } else {
          r := r.(parts := r.parts[i := p.(status := Queued, worker := None, lease := None)]);
        }
        n := n + 1;
      }
    }
    assert job.parts[..|job.parts|] == job.parts;
  }

  lemma GivesUpGrows(parts: seq<Part>, i: nat, now: Time, maxAttempts: int)
    requires i < |parts|
    ensures GivesUp(parts[..i + 1], now, maxAttempts) <==>
            GivesUp(parts[..i], now, maxAttempts)
            || (parts[i].status == Running && Expired(parts[i].lease, now) && parts[i].attempts >= maxAttempts)
  {
    var a, b := parts[..i], parts[..i + 1];
    assert b[i] == parts[i];
    if GivesUp(a, now, maxAttempts) {
      var k :| 0 <= k < |a| && a[k].status == Running && Expired(a[k].lease, now) && a[k].attempts >= maxAttempts;
      assert b[k] == a[k];
    }
    if GivesUp(b, now, maxAttempts) {
      var k :| 0 <= k < |b| && b[k].status == Running && Expired(b[k].lease, now) && b[k].attempts >= maxAttempts;
      assert k < i ==> a[k] == b[k];
    }
  }

  method RecoverParts(jobs: seq<Job>, freed: seq<Job>, now: Time, maxAttempts: int) returns (rows: seq<Job>, n: nat)
    requires freed == MapJobs(jobs, job => Freed(job, now))
    ensures rows == MapJobs(jobs, job => PartsRecovered(job, now, maxAttempts))
    ensures n == 0 ==> rows == freed
  {
    rows, n := freed, 0;
    for j := 0 to |jobs|
      invariant |rows| == |jobs| && (n == 0 ==> rows == freed)
      invariant forall k :: 0 <= k < |jobs| ==>
                  rows[k] == if k < j then PartsRecovered(jobs[k], now, maxAttempts) else freed[k]
    {
      hide PartsRecovered;
      var r, m := RecoverPartsOf(jobs[j], rows[j], now, maxAttempts);
      rows, n := rows[j := r], n + m;
    }
  }

  lemma NothingRunsNothingRecovers(job: Job, now: Time, maxAttempts: int)
    requires !AnyRunning(job.parts)
    ensures PartsRecovered(job, now, maxAttempts) == Freed(job, now)
  {
    assert MapParts(job.parts, p => RecoveredPart(p, now, maxAttempts)) == job.parts;
  }

  /** The last step of a cancellation: nothing of the job runs any more. */
  method FinishCancel(job: Job, row: Job, now: Time, maxAttempts: int) returns (r: Job, n: nat)
    requires row == PartsRecovered(job, now, maxAttempts)
    ensures r == Recovered(job, now, maxAttempts) && RecoveredAs(job, r, now, maxAttempts)
    ensures n == 0 ==> r == row
  {
    hide RecoveredAs;
    RecoverEffect(job, now, maxAttempts);
    r, n := row, 0;
    if job.cancelRequested && job.status in ACTIVE {
      var running := CheckAnyRunning(job.parts);
      if !running {
        NothingRunsNothingRecovers(job, now, maxAttempts);
        var parts := CancelWaiting(row.parts);
        r, n := row.(parts := parts, status := Cancelled, worker := None, lease := None), 1;
      }
    }
  }

  method FinishCancels(jobs: seq<Job>, recovered: seq<Job>, now: Time, maxAttempts: int) returns (rows: seq<Job>, n: nat)
    requires recovered == MapJobs(jobs, job => PartsRecovered(job, now, maxAttempts))
    ensures rows == MapJobs(jobs, job => Recovered(job, now, maxAttempts))
    ensures n == 0 ==> rows == recovered
  {
    rows, n := recovered, 0;
    for j := 0 to |jobs|
      invariant |rows| == |jobs| && (n == 0 ==> rows == recovered)
      invariant forall k :: 0 <= k < |jobs| ==>
                  rows[k] == if k < j then Recovered(jobs[k], now, maxAttempts) else recovered[k]
    {
      hide PartsRecovered, Recovered;
      var r, m := FinishCancel(jobs[j], rows[j], now, maxAttempts);
      rows, n := rows[j := r], n + m;
    }
  }
}
