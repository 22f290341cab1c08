/** Cutting a model's entity stream into partitions. */
module Planner {

  type EntityId = string

  /** An entity of the model with its triangle estimate. */
  datatype Entity = Entity(id: EntityId, triangles: nat)

  type Batch = seq<Entity>

  function Triangles(batch: Batch): nat {
    if batch == [] then 0 else Triangles(batch[..|batch| - 1]) + batch[|batch| - 1].triangles
  }

  /** A batch within both limits. A single entity always goes through. */
  predicate Fits(batch: Batch, maxEntities: int, maxTriangles: int) {
    |batch| == 1 || (batch != [] && |batch| <= maxEntities && Triangles(batch) <= maxTriangles)
  }

  function Concat<T>(parts: seq<seq<T>>): seq<T> {
    if parts == [] then [] else Concat(parts[..|parts| - 1]) + parts[|parts| - 1]
  }

  /** A way to cut the stream into contiguous batches within the limits. */
  ghost predicate Split(batches: seq<Batch>, stream: seq<Entity>, maxEntities: int, maxTriangles: int) {
    && Concat(batches) == stream
    && forall i :: 0 <= i < |batches| ==> Fits(batches[i], maxEntities, maxTriangles)
  }

  /** `batch` has no room for the first entity of `next`. */
  ghost predicate NoRoom(batch: Batch, next: Batch, maxEntities: int, maxTriangles: int) {
    next != [] ==> !Fits(batch + [next[0]], maxEntities, maxTriangles)
  }

  /** No batch has room for the first entity of the next one. */
  ghost predicate Full(batches: seq<Batch>, maxEntities: int, maxTriangles: int) {
    forall i :: 0 <= i < |batches| - 1 ==> NoRoom(batches[i], batches[i + 1], maxEntities, maxTriangles)
  }

  // ---------------------------------------------------------------- what a split is

  /** The batches are the stretches of the stream between consecutive starts. */
  ghost predicate Cuts(batches: seq<Batch>, starts: seq<nat>, stream: seq<Entity>) {
    && |starts| == |batches| + 1 && starts[0] == 0 && starts[|batches|] == |stream|
    && forall i {:trigger CutsAt(batches, starts, stream, i)} :: 0 <= i < |batches| ==> CutsAt(batches, starts, stream, i)
  }

  ghost predicate CutsAt(batches: seq<Batch>, starts: seq<nat>, stream: seq<Entity>, i: nat)
    requires i < |batches| && i + 1 < |starts|
  {
    starts[i] <= starts[i + 1] <= |stream| && batches[i] == stream[starts[i]..starts[i + 1]]
  }

  lemma CutsMore(batches: seq<Batch>, starts: seq<nat>, stream: seq<Entity>, last: Batch)
    requires Cuts(batches, starts, stream)
    ensures Cuts(batches + [last], starts + [|stream + last|], stream + last)
  {
    var all, more, ends := batches + [last], stream + last, starts + [|stream + last|];
    forall i | 0 <= i < |all| ensures CutsAt(all, ends, more, i) {
      if i < |batches| {
        assert CutsAt(batches, starts, stream, i);
        assert more[starts[i]..starts[i + 1]] == stream[starts[i]..starts[i + 1]];
      }
    }
  }

  lemma {:induction false} ConcatCuts(batches: seq<Batch>) returns (starts: seq<nat>)
    ensures Cuts(batches, starts, Concat(batches))
  {
    if batches == [] {
      starts := [0];
    } else {
      hide Cuts;
      var front, last := batches[..|batches| - 1], batches[|batches| - 1];
      assert batches == front + [last];
      starts := ConcatCuts(front);
      CutsMore(front, starts, Concat(front), last);
      starts := starts + [|Concat(batches)|];
    }
  }

  /** The running totals of the triangles of a batch. */
  ghost predicate Totals(batch: Batch, sums: seq<int>) {
    |sums| == |batch| + 1 && sums[0] == 0 && forall n :: 0 <= n < |batch| ==> sums[n + 1] == sums[n] + batch[n].triangles
  }

  lemma {:induction false} TrianglesTotal(batch: Batch, sums: seq<int>)
    requires Totals(batch, sums)
    ensures Triangles(batch) == sums[|batch|]
  {
    if batch != [] { TrianglesTotal(batch[..|batch| - 1], sums[..|batch|]); }
  }

  /** A single entity, or several within both limits. */
  ghost predicate WithinLimits(batch: Batch, maxEntities: int, maxTriangles: int) {
    batch != [] && (|batch| > 1 ==> |batch| <= maxEntities && forall sums :: Totals(batch, sums) ==> sums[|batch|] <= maxTriangles)
  }

  lemma FitsIsLimited(batch: Batch, maxEntities: int, maxTriangles: int)
    requires Fits(batch, maxEntities, maxTriangles)
    ensures WithinLimits(batch, maxEntities, maxTriangles)
  {
    forall sums | Totals(batch, sums) ensures Triangles(batch) == sums[|batch|] { TrianglesTotal(batch, sums); }
  }

  // ---------------------------------------------------------------- fewest batches

  lemma {:induction false} TrianglesGrow(a: Batch, b: Batch)
    ensures Triangles(a + b) == Triangles(a) + Triangles(b)
  {
    if b == [] {
      assert a + b == a;
    } else {
      assert (a + b)[..|a + b| - 1] == a + b[..|b| - 1];
      TrianglesGrow(a, b[..|b| - 1]);
    }
  }

  /** Every non-empty stretch of a fitting batch fits. */
  lemma StretchFits(batch: Batch, i: nat, j: nat, maxEntities: int, maxTriangles: int)
    requires Fits(batch, maxEntities, maxTriangles) && i < j <= |batch|
    ensures Fits(batch[i..j], maxEntities, maxTriangles)
  {
    TrianglesGrow(batch[..i], batch[i..j]);
    TrianglesGrow(batch[..j], batch[j..]);
    assert batch[..j] == batch[..i] + batch[i..j] && batch == batch[..j] + batch[j..];
  }

  lemma {:induction false} ConcatFront<T>(parts: seq<seq<T>>)
    requires parts != []
    ensures Concat(parts) == parts[0] + Concat(parts[1..])
  {
    if |parts| > 1 {
      var front, rest, last := parts[..|parts| - 1], parts[1..], parts[|parts| - 1];
      assert rest[..|rest| - 1] == front[1..] && rest[|rest| - 1] == last && front[0] == parts[0];
      ConcatFront(front);
      assert (parts[0] + Concat(front[1..])) + last == parts[0] + (Concat(front[1..]) + last);
    } else {
      assert parts[..0] == [] && parts[1..] == [];
    }
  }

  lemma FullTail(batches: seq<Batch>, maxEntities: int, maxTriangles: int)
    requires batches != [] && Full(batches, maxEntities, maxTriangles)
    ensures Full(batches[1..], maxEntities, maxTriangles)
  {
    forall i | 0 <= i < |batches[1..]| - 1
      ensures NoRoom(batches[1..][i], batches[1..][i + 1], maxEntities, maxTriangles)
    {
      assert NoRoom(batches[i + 1], batches[i + 1 + 1], maxEntities, maxTriangles);
    }
  }

  /** A full first batch reaches at least as far as any fitting start of the stream. */
  lemma FirstBatchReaches(batches: seq<Batch>, stream: seq<Entity>, n: nat, maxEntities: int, maxTriangles: int)
    requires Split(batches, stream, maxEntities, maxTriangles) && Full(batches, maxEntities, maxTriangles)
    requires batches != [] && 0 < n <= |stream| && Fits(stream[..n], maxEntities, maxTriangles)
    ensures n <= |batches[0]|
  {
    ConcatFront(batches);
    var m := |batches[0]|;
    if n > m {
      ConcatFront(batches[1..]);
      assert NoRoom(batches[0], batches[0 + 1], maxEntities, maxTriangles);
      assert batches[0] + [batches[1][0]] == stream[..m + 1] == stream[..n][0..m + 1];
      StretchFits(stream[..n], 0, m + 1, maxEntities, maxTriangles);
    }
  }

  /** Staying ahead: cutting fully what is left of a stream after its first `d` entities
      takes no more batches than any other split of the whole stream. */
  lemma {:induction false} FullStaysAhead(batches: seq<Batch>, stream: seq<Entity>, d: nat, other: seq<Batch>,
                                          maxEntities: int, maxTriangles: int)
    requires d <= |stream| && Split(batches, stream[d..], maxEntities, maxTriangles)
    requires Full(batches, maxEntities, maxTriangles) && Split(other, stream, maxEntities, maxTriangles)
    ensures |batches| <= |other|
    decreases |other|
  {
    if batches != [] {
      assert other != [];
      ConcatFront(batches);
      ConcatFront(other);
      assert |batches[0]| > 0;
      var w := |other[0]|;
      var rest := stream[w..];
      assert Concat(other[1..]) == rest;
      assert Split(other[1..], rest, maxEntities, maxTriangles);
      if d >= w {
        assert stream[d..] == rest[d - w..];
        FullStaysAhead(batches, rest, d - w, other[1..], maxEntities, maxTriangles);
      } else {
        assert stream[d..][..w - d] == other[0][d..w];
        StretchFits(other[0], d, w, maxEntities, maxTriangles);
        FirstBatchReaches(batches, stream[d..], w - d, maxEntities, maxTriangles);
        var e := d + |batches[0]| - w;
        assert Concat(batches[1..]) == stream[d..][|batches[0]|..] == rest[e..];
        FullTail(batches, maxEntities, maxTriangles);
        FullStaysAhead(batches[1..], rest, e, other[1..], maxEntities, maxTriangles);
      }
    }
  }

  lemma FullIsFewest(batches: seq<Batch>, stream: seq<Entity>, other: seq<Batch>, maxEntities: int, maxTriangles: int)
    requires Split(batches, stream, maxEntities, maxTriangles) && Full(batches, maxEntities, maxTriangles)
    requires Split(other, stream, maxEntities, maxTriangles)
    ensures |batches| <= |other|
  {
    assert stream[0..] == stream;
    FullStaysAhead(batches, stream, 0, other, maxEntities, maxTriangles);
  }

  // ---------------------------------------------------------------- the loop

  /** What the loop has flushed so far, with `ids` still open. */
  ghost predicate Underway(batches: seq<Batch>, ids: Batch, maxEntities: int, maxTriangles: int) {
    && (forall i :: 0 <= i < |batches| ==> Fits(batches[i], maxEntities, maxTriangles))
    && Full(batches, maxEntities, maxTriangles)
    && (batches != [] ==> ids != [] && NoRoom(batches[|batches| - 1], ids, maxEntities, maxTriangles))
    && (ids != [] ==> Fits(ids, maxEntities, maxTriangles))
  }

  lemma FullGrows(batches: seq<Batch>, last: Batch, maxEntities: int, maxTriangles: int)
    requires Full(batches, maxEntities, maxTriangles)
    requires batches != [] ==> NoRoom(batches[|batches| - 1], last, maxEntities, maxTriangles)
    ensures Full(batches + [last], maxEntities, maxTriangles)
  {}

  lemma OpenGrows(batches: seq<Batch>, ids: Batch, e: Entity, maxEntities: int, maxTriangles: int)
    requires Underway(batches, ids, maxEntities, maxTriangles)
    requires ids == [] || (|ids| < maxEntities && Triangles(ids) + e.triangles <= maxTriangles)
    ensures Underway(batches, ids + [e], maxEntities, maxTriangles)
  {
    assert (ids + [e])[..|ids|] == ids;
  }

  lemma OpenFlushes(batches: seq<Batch>, ids: Batch, e: Entity, maxEntities: int, maxTriangles: int)
    requires Underway(batches, ids, maxEntities, maxTriangles) && ids != []
    requires |ids| >= maxEntities || Triangles(ids) + e.triangles > maxTriangles
    ensures Underway(batches + [ids], [e], maxEntities, maxTriangles)
  {
    hide Full, Triangles;
    TooMuch(ids, e, maxEntities, maxTriangles);
    FullGrows(batches, ids, maxEntities, maxTriangles);
  }

  lemma TooMuch(ids: Batch, e: Entity, maxEntities: int, maxTriangles: int)
    requires ids != [] && (|ids| >= maxEntities || Triangles(ids) + e.triangles > maxTriangles)
    ensures !Fits(ids + [e], maxEntities, maxTriangles)
  {
    assert (ids + [e])[..|ids|] == ids;
  }

  lemma ConcatGrows<T>(parts: seq<seq<T>>, last: seq<T>)
    ensures Concat(parts + [last]) == Concat(parts) + last
  {
    assert (parts + [last])[..|parts|] == parts;
  }

  /** One pass over the stream, flushing a batch when the next entity would overfill it.
      `ids` is the batch still open at the end. */
  method ReadStream(stream: seq<Entity>, maxEntities: int, maxTriangles: int) returns (batches: seq<Batch>, ids: Batch)
    ensures Underway(batches, ids, maxEntities, maxTriangles) && Concat(batches) + ids == stream
  {
    hide Underway, Fits;
    batches, ids := [], [];
    var triangles := 0;
    NothingUnderway(maxEntities, maxTriangles);
    for i := 0 to |stream|
      invariant Concat(batches) + ids == stream[..i] && triangles == Triangles(ids)
      invariant Underway(batches, ids, maxEntities, maxTriangles)
    {
      var entity := stream[i];
      assert stream[..i + 1] == stream[..i] + [entity];
      if ids != [] && (|ids| >= maxEntities || triangles + entity.triangles > maxTriangles) {
        OpenFlushes(batches, ids, entity, maxEntities, maxTriangles);
        ConcatGrows(batches, ids);
        batches, ids, triangles := batches + [ids], [], 0;
      } else {
        OpenGrows(batches, ids, entity, maxEntities, maxTriangles);
      }
      TrianglesGrow(ids, [entity]);
      ids, triangles := ids + [entity], triangles + entity.triangles;
    }
    assert stream[..|stream|] == stream;
  }

  /** Nothing of the stream is lost or reordered, and no split within the limits has fewer
      batches. */
  method PlanBatches(stream: seq<Entity>, maxEntities: int, maxTriangles: int) returns (batches: seq<Batch>)
    ensures Split(batches, stream, maxEntities, maxTriangles)
    ensures exists starts :: Cuts(batches, starts, stream)
    ensures forall i :: 0 <= i < |batches| ==> WithinLimits(batches[i], maxEntities, maxTriangles)
    ensures forall other :: Split(other, stream, maxEntities, maxTriangles) ==> |batches| <= |other|
    ensures Full(batches, maxEntities, maxTriangles)
  {
    hide *;
    var ids;
    batches, ids := ReadStream(stream, maxEntities, maxTriangles);
    LastFlush(batches, ids, stream, maxEntities, maxTriangles);
    if ids != [] { batches := batches + [ids]; }
    ghost var starts := SplitCuts(batches, stream, maxEntities, maxTriangles);
  }

  lemma SplitCuts(batches: seq<Batch>, stream: seq<Entity>, maxEntities: int, maxTriangles: int) returns (starts: seq<nat>)
    requires Split(batches, stream, maxEntities, maxTriangles)
    ensures Cuts(batches, starts, stream)
    ensures forall i :: 0 <= i < |batches| ==> WithinLimits(batches[i], maxEntities, maxTriangles)
  {
    hide Cuts, WithinLimits, Fits;
    starts := ConcatCuts(batches);
    forall i | 0 <= i < |batches| ensures WithinLimits(batches[i], maxEntities, maxTriangles) {
      FitsIsLimited(batches[i], maxEntities, maxTriangles);
    }
  }

  lemma NothingUnderway(maxEntities: int, maxTriangles: int)
    ensures Underway([], [], maxEntities, maxTriangles)
  {}

  lemma LastFlush(batches: seq<Batch>, ids: Batch, stream: seq<Entity>, maxEntities: int, maxTriangles: int)
    requires Underway(batches, ids, maxEntities, maxTriangles) && Concat(batches) + ids == stream
    ensures var all := if ids != [] then batches + [ids] else batches;
            && Split(all, stream, maxEntities, maxTriangles) && Full(all, maxEntities, maxTriangles)
            && (forall other :: Split(other, stream, maxEntities, maxTriangles) ==> |all| <= |other|)
  {
    var all := if ids != [] then batches + [ids] else batches;
    ConcatGrows(batches, ids);
    if ids != [] { FullGrows(batches, ids, maxEntities, maxTriangles); }
    forall other | Split(other, stream, maxEntities, maxTriangles) ensures |all| <= |other| {
      FullIsFewest(all, stream, other, maxEntities, maxTriangles);
    }
  }
}
