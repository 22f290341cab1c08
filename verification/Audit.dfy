/** The tamper-evident audit trail: entries chained by hash per tenant, and the check of
    a tenant's chain. The hash is a parameter of every statement. */
module Audit {
  import opened Basics
  import opened Wrappers

  type Time = int

  /** A recorded hash: missing, the one that starts a chain, or a digest. */
  datatype Hash = Missing | Genesis | Digest(hex: string)

  datatype Content = Content(
    organization: string, project: Option<string>, actor: string, actorType: string, action: string,
    resourceType: string, resourceId: string, before: string, after: string, meta: string)

  /** A stored entry. Entries from before the chain existed have sequence 0 and no hash. */
  datatype Row = Row(
    id: string, tenant: string, createdAt: Time, sequence: nat, prev: Hash, entryHash: Hash, content: Content)

  /** What is hashed. */
  datatype Body = Body(id: string, tenant: string, createdAt: Time, sequence: nat, prev: Hash, content: Content)

  type Hasher = Body -> Hash

  function PrevOf(r: Row): Hash { if r.prev == Missing then Genesis else r.prev }

  function BodyOf(r: Row): Body { Body(r.id, r.tenant, r.createdAt, r.sequence, PrevOf(r), r.content) }

  /** No two bodies share a hash, and every hash is a digest. */
  ghost predicate Collisionless(h: Hasher) {
    && (forall a, b :: h(a) == h(b) ==> a == b)
    && (forall a :: h(a).Digest?)
  }

  // ---------------------------------------------------------------- selecting and ordering

  function Keep(rows: seq<Row>, f: Row -> bool): seq<Row> {
    if rows == [] then []
    else Keep(rows[..|rows| - 1], f) + (if f(rows[|rows| - 1]) then [rows[|rows| - 1]] else [])
  }

  function IsOf(tenant: string): Row -> bool { (r: Row) => r.tenant == tenant }

  function IsLegacy(r: Row): bool { r.sequence == 0 && r.entryHash == Missing }

  function IsChained(r: Row): bool { !IsLegacy(r) }

  /** Ordered by sequence, then by time. */
  predicate Before(a: Row, b: Row) {
    a.sequence < b.sequence || (a.sequence == b.sequence && a.createdAt <= b.createdAt)
  }

  predicate Ordered(rows: seq<Row>) { forall i, j :: 0 <= i < j < |rows| ==> Before(rows[i], rows[j]) }

  function Insert(rows: seq<Row>, r: Row): seq<Row> {
    if rows == [] || Before(rows[|rows| - 1], r) then rows + [r]
    else Insert(rows[..|rows| - 1], r) + [rows[|rows| - 1]]
  }

  function Sort(rows: seq<Row>): seq<Row> {
    if rows == [] then [] else Insert(Sort(rows[..|rows| - 1]), rows[|rows| - 1])
  }

  function Limited(rows: seq<Row>, limit: Option<nat>): seq<Row> {
    if limit.Some? && 0 < limit.value < |rows| then rows[..limit.value] else rows
  }

  /** The entries of a tenant in chain order, as the check reads them. */
  function Query(table: seq<Row>, tenant: string, limit: Option<nat>): seq<Row> {
    Limited(Sort(Keep(table, IsOf(tenant))), limit)
  }

  /** The chained entries of a tenant in order. */
  function ChainOf(table: seq<Row>, tenant: string): seq<Row> { Keep(Query(table, tenant, None), IsChained) }

  lemma {:induction false} KeepIn(rows: seq<Row>, f: Row -> bool, x: Row)
    ensures x in Keep(rows, f) <==> x in rows && f(x)
  {
    if rows != [] {
      var front, last := rows[..|rows| - 1], rows[|rows| - 1];
      KeepIn(front, f, x);
      assert rows == front + [last];
    }
  }

  lemma {:induction false} InsertOrdered(rows: seq<Row>, r: Row)
    requires Ordered(rows)
    ensures Ordered(Insert(rows, r))
    ensures forall x :: x in Insert(rows, r) <==> x in rows || x == r
  {
    if rows != [] && !Before(rows[|rows| - 1], r) {
      var front, last := rows[..|rows| - 1], rows[|rows| - 1];
      InsertOrdered(front, r);
      assert rows == front + [last];
      AppendOrdered(Insert(front, r), last);
    } else {
      AppendOrdered(rows, r);
    }
  }

  lemma AppendOrdered(rows: seq<Row>, r: Row)
    requires Ordered(rows) && forall x :: x in rows ==> Before(x, r)
    ensures Ordered(rows + [r])
  {}

  lemma {:induction false} SortOrdered(rows: seq<Row>)
    ensures Ordered(Sort(rows))
    ensures forall x :: x in Sort(rows) <==> x in rows
  {
    if rows != [] {
      var front, last := rows[..|rows| - 1], rows[|rows| - 1];
      SortOrdered(front);
      InsertOrdered(Sort(front), last);
      assert rows == front + [last];
    }
  }

  lemma {:induction false} KeepCounts(rows: seq<Row>, f: Row -> bool, x: Row)
    ensures multiset(Keep(rows, f))[x] == if f(x) then multiset(rows)[x] else 0
  {
    if rows != [] {
      var front, last := rows[..|rows| - 1], rows[|rows| - 1];
      KeepCounts(front, f, x);
      assert rows == front + [last];
    }
  }

  lemma {:induction false} InsertCounts(rows: seq<Row>, r: Row)
    ensures multiset(Insert(rows, r)) == multiset(rows) + multiset{r}
  {
    if rows != [] {
      InsertCounts(rows[..|rows| - 1], r);
      assert rows == rows[..|rows| - 1] + [rows[|rows| - 1]];
    }
  }

  lemma {:induction false} SortCounts(rows: seq<Row>)
    ensures multiset(Sort(rows)) == multiset(rows)
  {
    if rows != [] {
      var front, last := rows[..|rows| - 1], rows[|rows| - 1];
      SortCounts(front);
      InsertCounts(Sort(front), last);
      assert rows == front + [last];
    }
  }

  /** What is kept are the entries at some positions, in order. */
  ghost predicate Picks(rows: seq<Row>, at: seq<nat>, kept: seq<Row>) {
    |at| == |kept| && forall n :: 0 <= n < |at| ==> at[n] < |rows| && kept[n] == rows[at[n]]
  }

  ghost function Kept(rows: seq<Row>, f: Row -> bool): set<nat> { set i | 0 <= i < |rows| && f(rows[i]) }

  lemma KeptMore(front: seq<Row>, last: Row, f: Row -> bool)
    ensures Kept(front + [last], f) == Kept(front, f) + (if f(last) then {|front|} else {})
  {
    assert forall i :: 0 <= i < |front| ==> (front + [last])[i] == front[i];
  }

  lemma {:induction false} KeepPicks(rows: seq<Row>, f: Row -> bool) returns (at: seq<nat>)
    ensures Enumerates(at, Kept(rows, f)) && Picks(rows, at, Keep(rows, f))
  {
    if rows == [] {
      at := [];
    } else {
      hide Enumerates, Kept;
      var front, last := rows[..|rows| - 1], rows[|rows| - 1];
      assert rows == front + [last];
      at := KeepPicks(front, f);
      KeptMore(front, last, f);
      if f(last) {
        KeptBelow(front, f);
        EnumeratesMore(at, Kept(front, f), |front|);
        at := at + [|front|];
      }
    }
  }

  lemma KeptBelow(rows: seq<Row>, f: Row -> bool)
    ensures forall i :: i in Kept(rows, f) ==> i < |rows|
  {}

  lemma {:induction false} KeepSplits(rows: seq<Row>)
    ensures |Keep(rows, IsLegacy)| + |Keep(rows, IsChained)| == |rows|
  {
    if rows != [] { KeepSplits(rows[..|rows| - 1]); }
  }

  // ---------------------------------------------------------------- chains

  function PrevHash(rows: seq<Row>, i: nat): Hash
    requires i <= |rows|
  {
    if i == 0 then Genesis else rows[i - 1].entryHash
  }

  predicate PrevFits(rows: seq<Row>, i: nat)
    requires i < |rows|
  {
    PrevOf(rows[i]) == PrevHash(rows, i)
  }

  predicate Fits(h: Hasher, rows: seq<Row>, i: nat)
    requires i < |rows|
  {
    PrevFits(rows, i) && rows[i].sequence == i + 1 && h(BodyOf(rows[i])) == rows[i].entryHash
  }

  /** Every entry continues the one before it and hashes to what it records. */
  ghost predicate Linked(h: Hasher, rows: seq<Row>) {
    forall i {:trigger Fits(h, rows, i)} :: 0 <= i < |rows| ==> Fits(h, rows, i)
  }

  datatype Report =
    | Intact(entries: nat, legacy: nat, head: Hash)
    | Broken(at: nat, id: string, reason: string, entries: nat)

  // ---------------------------------------------------------------- what a check finds

  /** The entries of the tenant, by sequence and then time. */
  ghost predicate Entries(table: seq<Row>, tenant: string, all: seq<Row>) {
    && (forall x :: multiset(all)[x] == if x.tenant == tenant then multiset(table)[x] else 0)
    && forall i, j :: 0 <= i < j < |all| ==>
         all[i].sequence < all[j].sequence || (all[i].sequence == all[j].sequence && all[i].createdAt <= all[j].createdAt)
  }

  lemma QueryEntries(table: seq<Row>, tenant: string)
    ensures Entries(table, tenant, Query(table, tenant, None))
  {
    var own := Keep(table, IsOf(tenant));
    SortCounts(own);
    SortOrdered(own);
    forall x ensures multiset(Sort(own))[x] == if x.tenant == tenant then multiset(table)[x] else 0 {
      KeepCounts(table, IsOf(tenant), x);
    }
    assert forall i, j :: 0 <= i < j < |Sort(own)| ==> Before(Sort(own)[i], Sort(own)[j]);
  }

  /** The first entries, as many as the limit says if it says so. */
  ghost predicate UpToLimit(all: seq<Row>, limit: Option<nat>, some: seq<Row>) {
    some <= all && |some| == if limit.Some? && 0 < limit.value < |all| then limit.value else |all|
  }

  /** The positions of the entries that have a sequence or a hash. */
  ghost predicate ChainedAt(some: seq<Row>, at: seq<nat>) {
    Enumerates(at, set i | 0 <= i < |some| && (some[i].sequence != 0 || some[i].entryHash != Missing))
  }

  ghost predicate PrevSound(some: seq<Row>, at: seq<nat>, n: nat)
    requires n < |at| && forall m :: 0 <= m < |at| ==> at[m] < |some|
  {
    var row := some[at[n]];
    (if row.prev == Missing then Genesis else row.prev) == if n == 0 then Genesis else some[at[n - 1]].entryHash
  }

  ghost predicate HashSound(h: Hasher, row: Row) {
    var prev := if row.prev == Missing then Genesis else row.prev;
    row.entryHash == h(Body(row.id, row.tenant, row.createdAt, row.sequence, prev, row.content))
  }

  ghost predicate EntrySound(h: Hasher, some: seq<Row>, at: seq<nat>, n: nat)
    requires n < |at| && forall m :: 0 <= m < |at| ==> at[m] < |some|
  {
    PrevSound(some, at, n) && some[at[n]].sequence == n + 1 && HashSound(h, some[at[n]])
  }

  /** Intact with the counts and the head, or broken at the first entry that does not continue
      the one before it or is not what was hashed. */
  ghost predicate Verdict(h: Hasher, some: seq<Row>, at: seq<nat>, r: Report)
    requires forall m :: 0 <= m < |at| ==> at[m] < |some|
  {
    match r
    case Intact(entries, legacy, head) =>
      && (forall n :: 0 <= n < |at| ==> EntrySound(h, some, at, n)) && entries == |at| && legacy == |some| - |at|
      && head == if at == [] then Genesis else some[at[|at| - 1]].entryHash
    case Broken(n, id, reason, entries) =>
      && n < |at| && !EntrySound(h, some, at, n) && (forall k :: 0 <= k < n ==> EntrySound(h, some, at, k))
      && id == some[at[n]].id && entries == |at|
      && reason == (if !PrevSound(some, at, n) then "prev_hash does not match the preceding entry"
                    else if some[at[n]].sequence != n + 1 then "sequence is not contiguous (an entry was removed)"
                    else "entry content does not match its recorded hash")
  }

  /** The same on the kept entries. */
  ghost predicate FoundOn(h: Hasher, rows: seq<Row>, legacy: nat, r: Report) {
    match r
    case Intact(entries, unchained, head) =>
      Linked(h, rows) && entries == |rows| && unchained == legacy && head == PrevHash(rows, |rows|)
    case Broken(at, id, reason, entries) =>
      && at < |rows| && !Fits(h, rows, at) && (forall k :: 0 <= k < at ==> Fits(h, rows, k))
      && id == rows[at].id && entries == |rows|
      && reason == (if !PrevFits(rows, at) then "prev_hash does not match the preceding entry"
                    else if rows[at].sequence != at + 1 then "sequence is not contiguous (an entry was removed)"
                    else "entry content does not match its recorded hash")
  }

  lemma PickedSound(h: Hasher, some: seq<Row>, at: seq<nat>, rows: seq<Row>, n: nat)
    requires Picks(some, at, rows) && n < |at|
    ensures PrevSound(some, at, n) <==> PrevFits(rows, n)
    ensures EntrySound(h, some, at, n) <==> Fits(h, rows, n)
  {}

  lemma FoundIsVerdict(h: Hasher, some: seq<Row>, at: seq<nat>, rows: seq<Row>, r: Report)
    requires Picks(some, at, rows) && |rows| <= |some| && FoundOn(h, rows, |some| - |rows|, r)
    ensures Verdict(h, some, at, r)
  {
    forall n | 0 <= n < |at|
      ensures (PrevSound(some, at, n) <==> PrevFits(rows, n)) && (EntrySound(h, some, at, n) <==> Fits(h, rows, n))
    {
      PickedSound(h, some, at, rows, n);
    }
    hide PrevSound, EntrySound, PrevFits, Fits;
  }

  /** What the check says about a tenant: the verdict on the chained ones among its first
      entries. */
  ghost predicate ReportsOn(h: Hasher, table: seq<Row>, tenant: string, limit: Option<nat>, r: Report) {
    exists all, some, at :: ReportOn(h, table, tenant, limit, all, some, at, r)
  }

  ghost predicate ReportOn(h: Hasher, table: seq<Row>, tenant: string, limit: Option<nat>, all: seq<Row>, some: seq<Row>,
                           at: seq<nat>, r: Report)
  {
    && Entries(table, tenant, all) && UpToLimit(all, limit, some) && ChainedAt(some, at)
    && (forall n :: 0 <= n < |at| ==> at[n] < |some|) && Verdict(h, some, at, r)
  }

  lemma ReportsFound(h: Hasher, table: seq<Row>, tenant: string, limit: Option<nat>, r: Report)
    requires var all := Query(table, tenant, limit);
             FoundOn(h, Keep(all, IsChained), |Keep(all, IsLegacy)|, r)
    ensures ReportsOn(h, table, tenant, limit, r)
  {
    hide FoundOn, Verdict, Entries, Keep, Sort;
    var all, some := Query(table, tenant, None), Query(table, tenant, limit);
    QueryEntries(table, tenant);
    KeepSplits(some);
    var at := KeepPicks(some, IsChained);
    assert Kept(some, IsChained) == (set i | 0 <= i < |some| && (some[i].sequence != 0 || some[i].entryHash != Missing));
    FoundIsVerdict(h, some, at, Keep(some, IsChained), r);
    assert ReportOn(h, table, tenant, limit, all, some, at, r);
  }

  // ---------------------------------------------------------------- the table

  class AuditTrail {
    const h: Hasher
    var table: seq<Row>

    constructor (h: Hasher, table: seq<Row>)
      ensures this.h == h && this.table == table
    {
      this.h, this.table := h, table;
    }

    /** The latest entry of a tenant. */
    method Tail(tenant: string) returns (r: Option<Row>)
      ensures r.None? ==> forall x :: x in table ==> x.tenant != tenant
      ensures r.Some? ==> r.value in table && r.value.tenant == tenant
      ensures r.Some? ==> forall x :: x in table && x.tenant == tenant ==> Before(x, r.value)
    {
      r := None;
      for i := 0 to |table|
        invariant r.None? ==> forall k :: 0 <= k < i ==> table[k].tenant != tenant
        invariant r.Some? ==> r.value in table && r.value.tenant == tenant
        invariant r.Some? ==> forall k :: 0 <= k < i && table[k].tenant == tenant ==> Before(table[k], r.value)
      {
        if table[i].tenant == tenant && (r.None? || Before(r.value, table[i])) { r := Some(table[i]); }
      }
    }

    /** The new entry continues the tenant's chain; every other entry stays. */
    method Audit(id: string, tenant: string, now: Time, content: Content) returns (row: Row)
      modifies this
      ensures table == old(table) + [row]
      ensures row.id == id && row.tenant == tenant && row.createdAt == now && row.content == content
      ensures HashSound(h, row)
      ensures Appends(old(table), row)
    {
      var previous := Tail(tenant);
      var sequence := if previous.Some? then previous.value.sequence + 1 else 1;
      var prev := if previous.Some? && previous.value.entryHash != Missing then previous.value.entryHash else Genesis;
      row := Row(id, tenant, now, sequence, prev, Missing, content);
      row := row.(entryHash := h(BodyOf(row)));
      table := table + [row];
      assert previous.Some? ==> Continues(previous.value, row);
    }

    /** The check of a tenant's chain, stopping at the first break. */
    method VerifyAuditChain(tenant: string, limit: Option<nat>) returns (r: Report)
      ensures var all := Query(table, tenant, limit);
              FoundOn(h, Keep(all, IsChained), |Keep(all, IsLegacy)|, r)
      ensures ReportsOn(h, table, tenant, limit, r)
    {
      hide ReportsOn, Query, Keep;
      var all := Query(table, tenant, limit);
      var legacy := Keep(all, IsLegacy);
      var rows := Keep(all, IsChained);
      var expectedPrev, expectedSequence := Genesis, 1;
      for i := 0 to |rows|
        invariant expectedPrev == PrevHash(rows, i) && expectedSequence == i + 1
        invariant forall k :: 0 <= k < i ==> Fits(h, rows, k)
      {
        var row := rows[i];
        if PrevOf(row) != expectedPrev {
          r := Broken(i, row.id, "prev_hash does not match the preceding entry", |rows|);
          ReportsFound(h, table, tenant, limit, r);
          return;
        }
        if row.sequence != expectedSequence {
          r := Broken(i, row.id, "sequence is not contiguous (an entry was removed)", |rows|);
          ReportsFound(h, table, tenant, limit, r);
          return;
        }
        if h(BodyOf(row)) != row.entryHash {
          r := Broken(i, row.id, "entry content does not match its recorded hash", |rows|);
          ReportsFound(h, table, tenant, limit, r);
          return;
        }
        expectedPrev, expectedSequence := row.entryHash, expectedSequence + 1;
      }
      r := Intact(|rows|, |legacy|, expectedPrev);
      ReportsFound(h, table, tenant, limit, r);
    }
  }

  /** `row` comes right after `last`. */
  predicate Continues(last: Row, row: Row) {
    row.sequence == last.sequence + 1 && row.prev == (if last.entryHash != Missing then last.entryHash else Genesis)
  }

  /** `row` comes right after the latest entry of its tenant, or starts the tenant's chain. */
  ghost predicate Appends(table: seq<Row>, row: Row) {
    || (row.sequence == 1 && row.prev == Genesis && forall x :: x in table ==> x.tenant != row.tenant)
    || (exists last :: last in table && last.tenant == row.tenant && Continues(last, row)
                       && forall x :: x in table && x.tenant == row.tenant ==> Before(x, last))
  }
}
