/** Partitions against the entity table. What is planned from the table can be built from
    it: each partition lists rows of the table, without repeats, and keeps them. So the
    geometry of a partition has exactly its entities as long as the table stays as it is,
    whatever is committed meanwhile. */
module AssetEntities {
  import opened Basics
  import opened Planner
  import opened Geometry
  import opened AssetJobs
  import opened AssetInvariants
  import opened AssetRuns

  /** A list of entities of the table, without repeats. */
  ghost predicate RowsHold(rows: seq<Row>, entities: seq<EntityId>) {
    Distinct(entities) && forall x :: x in entities ==> x in RowIds(rows)
  }

  ghost predicate JobCovered(job: Job, rows: seq<Row>) {
    forall i {:trigger job.parts[i]} :: 0 <= i < |job.parts| ==> RowsHold(rows, job.parts[i].entities)
  }

  /** Every partition of every job can be built from the table. */
  ghost predicate Covered(jobs: seq<Job>, rows: seq<Row>) {
    Distinct(RowIds(rows)) && forall j {:trigger jobs[j]} :: 0 <= j < |jobs| ==> JobCovered(jobs[j], rows)
  }

  predicate InModel(rows: seq<Row>, document: string, x: EntityId) {
    exists i :: 0 <= i < |rows| && rows[i].id == x && rows[i].document == document
  }

  /** The list names the entity of every row of the document once, and nothing else. */
  ghost predicate NamesModel(entities: seq<EntityId>, rows: seq<Row>, document: string) {
    forall x :: multiset(entities)[x] == if InModel(rows, document, x) then 1 else 0
  }

  /** What lists the rows of a document is complete and can be built from the table. */
  lemma ListedIsComplete(rows: seq<Row>, document: string, at: seq<nat>, stream: seq<Entity>)
    requires Distinct(RowIds(rows)) && Lists(rows, document, at, stream)
    ensures NamesModel(Ids(stream), rows, document) && RowsHold(rows, Ids(stream))
  {
    var ids := Ids(stream);
    forall m, n | 0 <= m < n < |ids| ensures ids[m] != ids[n] {
      assert RowIds(rows)[at[m]] != RowIds(rows)[at[n]];
    }
    forall x ensures multiset(ids)[x] == if InModel(rows, document, x) then 1 else 0 {
      DistinctCount(ids, x);
      ListedIn(rows, document, at, stream, x);
    }
    forall x | x in ids ensures x in RowIds(rows) {
      ListedIn(rows, document, at, stream, x);
      var i :| 0 <= i < |rows| && rows[i].id == x;
      assert RowIds(rows)[i] == x;
    }
  }

  lemma ListedIn(rows: seq<Row>, document: string, at: seq<nat>, stream: seq<Entity>, x: EntityId)
    requires Lists(rows, document, at, stream)
    ensures x in Ids(stream) <==> InModel(rows, document, x)
  {
    if x in Ids(stream) {
      var n :| 0 <= n < |stream| && Ids(stream)[n] == x;
      assert at[n] in at;
    }
    if InModel(rows, document, x) {
      var i :| 0 <= i < |rows| && rows[i].id == x && rows[i].document == document;
      assert i in at;
      var n :| 0 <= n < |at| && at[n] == i;
      assert Ids(stream)[n] == x;
    }
  }

  lemma StreamHolds(rows: seq<Row>, document: string)
    requires Distinct(RowIds(rows))
    ensures NamesModel(Ids(Stream(rows, document)), rows, document) && RowsHold(rows, Ids(Stream(rows, document)))
  {
    hide Distinct, Lists, NamesModel, RowsHold;
    var at := StreamLists(rows, document);
    ListedIsComplete(rows, document, at, Stream(rows, document));
  }

  lemma HoldsPieces(rows: seq<Row>, a: seq<EntityId>, b: seq<EntityId>)
    requires RowsHold(rows, a + b)
    ensures RowsHold(rows, a) && RowsHold(rows, b)
  {
    assert forall i :: 0 <= i < |a| ==> a[i] == (a + b)[i];
    assert forall i :: 0 <= i < |b| ==> b[i] == (a + b)[|a| + i];
  }

  lemma {:induction false} BatchesHold(rows: seq<Row>, batches: seq<Batch>)
    requires RowsHold(rows, Ids(Concat(batches)))
    ensures forall i {:trigger batches[i]} :: 0 <= i < |batches| ==> RowsHold(rows, Ids(batches[i]))
  {
    hide RowsHold;
    if batches != [] {
      var front, last := batches[..|batches| - 1], batches[|batches| - 1];
      assert Ids(Concat(front) + last) == Ids(Concat(front)) + Ids(last);
      HoldsPieces(rows, Ids(Concat(front)), Ids(last));
      BatchesHold(rows, front);
      assert forall i :: 0 <= i < |front| ==> batches[i] == front[i];
    }
  }

  /** A prefix of a planned stream holds as well. */
  lemma PrefixHolds(rows: seq<Row>, stream: seq<Entity>, n: nat)
    requires n <= |stream| && RowsHold(rows, Ids(stream))
    ensures RowsHold(rows, Ids(stream[..n]))
  {
    assert Ids(stream) == Ids(stream[..n]) + Ids(stream[n..]);
    HoldsPieces(rows, Ids(stream[..n]), Ids(stream[n..]));
  }

  /** The entities an event plans, if it plans any, are in the table. */
  ghost predicate PlansCovered(e: Event, rows: seq<Row>) {
    e.EJob? ==>
      && (e.step.EPlan? ==> RowsHold(rows, Ids(e.step.stream)))
      && (e.step.EFailPlanning? ==> RowsHold(rows, Ids(e.step.read)))
  }

  lemma KeptCovered(a: Job, b: Job, rows: seq<Row>)
    requires JobCovered(a, rows) && JobKeeps(a, b) && (a.parts == [] ==> b.parts == [])
    ensures JobCovered(b, rows)
  {
    forall i | 0 <= i < |b.parts| ensures RowsHold(rows, b.parts[i].entities) {
      assert PartKeeps(a.parts[i], b.parts[i]);
    }
  }

  lemma PlannedCovered(c: Config, job: Job, e: JobEvent, rows: seq<Row>)
    requires JobOk(job) && JobCovered(job, rows) && JobStep(c, job, e).Some? && (e.EPlan? || e.EFailPlanning?)
    requires e.EPlan? ==> RowsHold(rows, Ids(e.stream))
    requires e.EFailPlanning? ==> RowsHold(rows, Ids(e.read))
    ensures JobCovered(JobStep(c, job, e).value, rows)
  {
    hide RowsHold, Fits;
    if e.EPlan? { BatchesHold(rows, e.batches); } else { BatchesHold(rows, e.flushed); }
  }

  lemma OtherStepsPlanNothing(c: Config, job: Job, e: JobEvent)
    requires JobStep(c, job, e).Some? && !e.EPlan? && !e.EFailPlanning?
    ensures job.parts == [] ==> JobStep(c, job, e).value.parts == []
  {}

  lemma JobStepCovered(c: Config, job: Job, e: JobEvent, rows: seq<Row>)
    requires JobOk(job) && JobCovered(job, rows) && JobStep(c, job, e).Some?
    requires e.EPlan? ==> RowsHold(rows, Ids(e.stream))
    requires e.EFailPlanning? ==> RowsHold(rows, Ids(e.read))
    ensures JobCovered(JobStep(c, job, e).value, rows)
  {
    hide JobStep, JobOk, JobKeeps, JobCovered;
    if e.EPlan? || e.EFailPlanning? {
      PlannedCovered(c, job, e, rows);
    } else {
      OtherStepsPlanNothing(c, job, e);
      JobStepOk(c, job, e);
      KeptCovered(job, JobStep(c, job, e).value, rows);
    }
  }

  lemma RecoveredCovered(job: Job, now: Time, maxAttempts: int, rows: seq<Row>)
    requires JobOk(job) && JobCovered(job, rows)
    ensures JobCovered(Recovered(job, now, maxAttempts), rows)
  {
    RecoveredStep(job, now, maxAttempts);
    assert job.parts == [] ==> Recovered(job, now, maxAttempts).parts == [];
    KeptCovered(job, Recovered(job, now, maxAttempts), rows);
  }

  /** Whatever is committed, every partition can still be built from the table. */
  lemma StepCovered(c: Config, s: State, e: Event, rows: seq<Row>)
    requires Consistent(s) && Covered(s.jobs, rows) && Step(c, s, e).Some? && PlansCovered(e, rows)
    ensures Covered(Step(c, s, e).value.jobs, rows)
  {
    hide Step, JobStep, Recovered;
    var t := Step(c, s, e).value;
    forall j | 0 <= j < |t.jobs| ensures JobCovered(t.jobs[j], rows) {
      StepRow(c, s, e, j);
      if j < |s.jobs| {
        assert JobOk(s.jobs[j]) && JobCovered(s.jobs[j], rows);
        if e.ERecover? { RecoveredCovered(s.jobs[j], e.now, c.maxAttempts, rows); }
        else if e.EJob? && e.j == j { JobStepCovered(c, s.jobs[j], e.step, rows); }
      }
    }
  }
}
