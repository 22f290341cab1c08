/** What the audit chain proves: honest trails verify, and exactly which changes are noticed. */
module AuditChains {
  import opened Basics
  import opened Wrappers
  import opened Audit

  // ---------------------------------------------------------------- selecting and ordering

  lemma {:induction false} KeepAppend(a: seq<Row>, b: seq<Row>, f: Row -> bool)
    ensures Keep(a + b, f) == Keep(a, f) + Keep(b, f)
  {
    if b == [] {
      assert a + b == a;
    } else {
      KeepAppend(a, b[..|b| - 1], f);
      assert (a + b)[..|a + b| - 1] == a + b[..|b| - 1];
    }
  }

  lemma {:induction false} KeepAll(rows: seq<Row>, f: Row -> bool)
    requires forall x :: x in rows ==> f(x)
    ensures Keep(rows, f) == rows
  {
    if rows != [] { KeepAll(rows[..|rows| - 1], f); }
  }

  lemma {:induction false} KeepNone(rows: seq<Row>, f: Row -> bool)
    requires forall x :: x in rows ==> !f(x)
    ensures Keep(rows, f) == []
  {
    if rows != [] { KeepNone(rows[..|rows| - 1], f); }
  }

  lemma {:induction false} SortOfOrdered(rows: seq<Row>)
    requires Ordered(rows)
    ensures Sort(rows) == rows
  {
    if rows != [] {
      SortOfOrdered(rows[..|rows| - 1]);
      if |rows| > 1 { assert Before(rows[|rows| - 2], rows[|rows| - 1]); }
    }
  }

  lemma KeepOne(rows: seq<Row>, r: Row, f: Row -> bool)
    ensures Keep(rows + [r], f) == if f(r) then Keep(rows, f) + [r] else Keep(rows, f)
  {
    assert (rows + [r])[..|rows|] == rows;
  }

  /** What is kept of entries that all come before `r` comes before it too. */
  lemma KeptBefore(rows: seq<Row>, r: Row, f: Row -> bool)
    requires forall x :: x in rows ==> Before(x, r)
    ensures forall x :: x in Keep(rows, f) ==> Before(x, r)
  {
    forall x | x in Keep(rows, f) ensures Before(x, r) { KeepIn(rows, f, x); }
  }

  lemma InsertLast(rows: seq<Row>, r: Row)
    requires forall x :: x in rows ==> Before(x, r)
    ensures Insert(rows, r) == rows + [r]
  {}

  lemma InsertBeforeLast(rows: seq<Row>, last: Row, r: Row)
    requires !Before(last, r)
    ensures Insert(rows + [last], r) == Insert(rows, r) + [last]
  {
    assert (rows + [last])[..|rows|] == rows;
  }

  lemma {:induction false} KeepInsert(rows: seq<Row>, r: Row, f: Row -> bool)
    requires Ordered(rows)
    ensures Keep(Insert(rows, r), f) == if f(r) then Insert(Keep(rows, f), r) else Keep(rows, f)
  {
    if rows != [] && !Before(rows[|rows| - 1], r) {
      var front, last := rows[..|rows| - 1], rows[|rows| - 1];
      assert rows == front + [last] && Ordered(front);
      KeepInsert(front, r, f);
      InsertBeforeLast(front, last, r);
      KeepOne(Insert(front, r), last, f);
      KeepOne(front, last, f);
      InsertBeforeLast(Keep(front, f), last, r);
    } else {
      assert forall x :: x in rows ==> Before(x, r);
      hide Ordered, Before, Keep, Insert;
      InsertLast(rows, r);
      KeepOne(rows, r, f);
      KeptBefore(rows, r, f);
      InsertLast(Keep(rows, f), r);
    }
  }

  lemma SortOne(rows: seq<Row>, r: Row)
    ensures Sort(rows + [r]) == Insert(Sort(rows), r)
  {
    assert (rows + [r])[..|rows|] == rows;
  }

  lemma {:induction false} KeepSort(rows: seq<Row>, f: Row -> bool)
    ensures Keep(Sort(rows), f) == Sort(Keep(rows, f))
  {
    if rows != [] {
      var front, last := rows[..|rows| - 1], rows[|rows| - 1];
      assert rows == front + [last];
      KeepSort(front, f);
      SortOrdered(front);
      KeepInsert(Sort(front), last, f);
      SortOne(front, last);
      KeepOne(front, last, f);
      SortOne(Keep(front, f), last);
    }
  }

  lemma {:induction false} SortLength(rows: seq<Row>)
    ensures |Sort(rows)| == |rows|
  {
    if rows != [] {
      SortLength(rows[..|rows| - 1]);
      InsertLength(Sort(rows[..|rows| - 1]), rows[|rows| - 1]);
    }
  }

  lemma {:induction false} InsertLength(rows: seq<Row>, r: Row)
    ensures |Insert(rows, r)| == |rows| + 1
  {
    if rows != [] { InsertLength(rows[..|rows| - 1], r); }
  }

  /** Ordered entries are the legacy ones followed by the chained ones. */
  lemma {:induction false} LegacyFirst(rows: seq<Row>)
    requires Ordered(rows) && forall x :: x in rows && IsChained(x) ==> x.sequence > 0
    ensures rows == Keep(rows, IsLegacy) + Keep(rows, IsChained)
  {
    if rows != [] {
      var front, last := rows[..|rows| - 1], rows[|rows| - 1];
      assert rows == front + [last];
      assert Ordered(front);
      assert IsLegacy(last) ==> forall x :: x in front ==> !IsChained(x) by {
        if IsLegacy(last) { forall x | x in front ensures !IsChained(x) { assert Before(x, last); } }
      }
      LegacyFirst(front);
      KeepOne(front, last, IsLegacy);
      KeepOne(front, last, IsChained);
      if IsLegacy(last) { KeepNone(front, IsChained); }
    }
  }

  // ---------------------------------------------------------------- honest trails

  /** The table after some serial entries, of any tenants, on top of what was there. */
  ghost predicate Grown(h: Hasher, base: seq<Row>, table: seq<Row>) {
    table == base ||
    (|table| > |base|
     && (var front, row := table[..|table| - 1], table[|table| - 1];
         Grown(h, base, front) && Appends(front, row) && row.entryHash == h(BodyOf(row))))
  }

  lemma LinkedPrefix(h: Hasher, rows: seq<Row>, n: nat)
    requires Linked(h, rows) && n <= |rows|
    ensures Linked(h, rows[..n])
  {
    forall i | 0 <= i < n ensures Fits(h, rows[..n], i) { assert Fits(h, rows, i) && rows[..n][i] == rows[i]; }
  }

  lemma LinkedGrows(h: Hasher, rows: seq<Row>, row: Row)
    requires Linked(h, rows) && PrevOf(row) == PrevHash(rows, |rows|) && row.sequence == |rows| + 1
    requires h(BodyOf(row)) == row.entryHash
    ensures Linked(h, rows + [row])
  {
    var all := rows + [row];
    forall i | 0 <= i < |all| ensures Fits(h, all, i) {
      if i < |rows| { assert Fits(h, rows, i); }
    }
  }

  lemma LinkedOrdered(h: Hasher, rows: seq<Row>)
    requires Linked(h, rows)
    ensures Ordered(rows)
  {
    forall i, j | 0 <= i < j < |rows| ensures Before(rows[i], rows[j]) { assert Fits(h, rows, i) && Fits(h, rows, j); }
  }

  /** The entry a linked chain continues with is its last one. */
  lemma LatestIsLast(h: Hasher, own: seq<Row>, last: Row)
    requires Linked(h, Keep(own, IsChained)) && Keep(own, IsChained) != []
    requires last in own && forall x :: x in own ==> Before(x, last)
    ensures var chain := Keep(own, IsChained);
            last == chain[|chain| - 1]
  {
    var chain := Keep(own, IsChained);
    var end := chain[|chain| - 1];
    assert Fits(h, chain, |chain| - 1);
    KeepIn(own, IsChained, end);
    KeepIn(own, IsChained, last);
    assert Before(end, last);
    var k :| 0 <= k < |chain| && chain[k] == last;
    assert Fits(h, chain, k);
  }

  lemma AppendLinks(h: Hasher, own: seq<Row>, row: Row)
    requires Collisionless(h) && Linked(h, Keep(own, IsChained)) && row.entryHash == h(BodyOf(row))
    requires || (own == [] && row.sequence == 1 && row.prev == Genesis)
             || (exists last :: last in own && Continues(last, row) && forall x :: x in own ==> Before(x, last))
    ensures Linked(h, Keep(own, IsChained) + [row]) && IsChained(row)
  {
    var chain := Keep(own, IsChained);
    if own != [] {
      var last :| last in own && Continues(last, row) && forall x :: x in own ==> Before(x, last);
      if chain == [] {
        KeepIn(own, IsChained, last);
      } else {
        LatestIsLast(h, own, last);
        assert Fits(h, chain, |chain| - 1);
      }
    }
    LinkedGrows(h, chain, row);
  }

  lemma BaseChain(h: Hasher, base: seq<Row>, tenant: string)
    requires forall x :: x in base ==> IsLegacy(x)
    ensures var own := Keep(base, IsOf(tenant));
            Keep(own, IsChained) == [] && Keep(own, IsLegacy) == own
  {
    var own := Keep(base, IsOf(tenant));
    forall x | x in own ensures IsLegacy(x) { KeepIn(base, IsOf(tenant), x); }
    KeepAll(own, IsLegacy);
    KeepNone(own, IsChained);
  }

  /** One more entry of the tenant. */
  lemma HonestStep(h: Hasher, front: seq<Row>, row: Row)
    requires Collisionless(h) && Linked(h, Keep(Keep(front, IsOf(row.tenant)), IsChained))
    requires Appends(front, row) && row.entryHash == h(BodyOf(row))
    ensures var own := Keep(front, IsOf(row.tenant));
            && Keep(own + [row], IsChained) == Keep(own, IsChained) + [row]
            && Keep(own + [row], IsLegacy) == Keep(own, IsLegacy)
            && Linked(h, Keep(own + [row], IsChained))
  {
    hide Keep, Linked;
    var own := Keep(front, IsOf(row.tenant));
    forall x ensures x in own <==> x in front && x.tenant == row.tenant { KeepIn(front, IsOf(row.tenant), x); }
    OwnContinues(front, own, row);
    AppendLinks(h, own, row);
    KeepOne(own, row, IsChained);
    KeepOne(own, row, IsLegacy);
  }

  /** The chain of a tenant in an honest table: linked, one entry per call, after the
      entries that were there before the chain. */
  lemma {:induction false} HonestChain(h: Hasher, base: seq<Row>, table: seq<Row>, tenant: string)
    requires Collisionless(h) && Grown(h, base, table) && forall x :: x in base ==> IsLegacy(x)
    ensures |table| >= |base|
    ensures var own := Keep(table, IsOf(tenant));
            && Linked(h, Keep(own, IsChained)) && Keep(own, IsLegacy) == Keep(base, IsOf(tenant))
            && |Keep(own, IsChained)| == |Keep(table[|base|..], IsOf(tenant))|
    decreases |table|
  {
    var of := IsOf(tenant);
    if table == base {
      BaseChain(h, base, tenant);
      assert table[|base|..] == [];
    } else {
      var front, row := table[..|table| - 1], table[|table| - 1];
      assert Grown(h, base, front) && Appends(front, row) && row.entryHash == h(BodyOf(row));
      assert table == front + [row] && table[|base|..] == front[|base|..] + [row];
      hide Keep, Linked, Grown, Appends, Collisionless, IsChained, IsLegacy;
      HonestChain(h, base, front, tenant);
      KeepOne(front, row, of);
      KeepOne(front[|base|..], row, of);
      if row.tenant == tenant { HonestStep(h, front, row); }
    }
  }

  lemma OwnContinues(front: seq<Row>, own: seq<Row>, row: Row)
    requires Appends(front, row) && forall x :: x in own <==> x in front && x.tenant == row.tenant
    ensures || (own == [] && row.sequence == 1 && row.prev == Genesis)
            || (exists last :: last in own && Continues(last, row) && forall x :: x in own ==> Before(x, last))
  {
    if own != [] { assert own[0] in own; }
  }

  /** Any serial entries, interleaved over tenants, on an empty table or one with only
      entries from before the chain, verify for every tenant: without a limit with the
      right counts, and with one as a prefix of the chain. */
  lemma HonestTrailVerifies(h: Hasher, base: seq<Row>, table: seq<Row>, tenant: string, limit: Option<nat>)
    requires Collisionless(h) && Grown(h, base, table) && forall x :: x in base ==> IsLegacy(x)
    ensures var all := Query(table, tenant, limit);
            var chain := ChainOf(table, tenant);
            && Linked(h, Keep(all, IsChained)) && Keep(all, IsChained) <= chain
            && |base| <= |table| && |chain| == |Keep(table[|base|..], IsOf(tenant))|
            && |Keep(all, IsLegacy)| + |Keep(all, IsChained)| == |all|
            && (limit == None || limit.value == 0 ==> Keep(all, IsChained) == chain && |Keep(all, IsLegacy)| == |Keep(base, IsOf(tenant))|)
            && (Keep(all, IsChained) != [] ==> |Keep(all, IsLegacy)| == |Keep(base, IsOf(tenant))|)
  {
    HonestChain(h, base, table, tenant);
    var own := Keep(table, IsOf(tenant));
    var chain := Keep(own, IsChained);
    var all := Sort(own);
    KeepSort(own, IsChained);
    KeepSort(own, IsLegacy);
    LinkedOrdered(h, chain);
    SortOfOrdered(chain);
    SortLength(Keep(own, IsLegacy));
    SortOrdered(own);
    forall x | x in all && IsChained(x) ensures x.sequence > 0 {
      KeepIn(own, IsChained, x);
      var k :| 0 <= k < |chain| && chain[k] == x;
      assert Fits(h, chain, k);
    }
    LegacyFirst(all);
    var legacy := Keep(all, IsLegacy);
    forall x | x in legacy ensures IsLegacy(x) { KeepIn(all, IsLegacy, x); }
    forall x | x in chain ensures IsChained(x) { KeepIn(all, IsChained, x); }
    LimitedSplit(h, legacy, chain, limit);
  }

  lemma SplitKept(legacy: seq<Row>, chain: seq<Row>)
    requires (forall x :: x in legacy ==> IsLegacy(x)) && forall x :: x in chain ==> IsChained(x)
    ensures Keep(legacy + chain, IsLegacy) == legacy && Keep(legacy + chain, IsChained) == chain
  {
    KeepAppend(legacy, chain, IsLegacy);
    KeepAppend(legacy, chain, IsChained);
    KeepAll(legacy, IsLegacy);
    KeepNone(legacy, IsChained);
    KeepAll(chain, IsChained);
    KeepNone(chain, IsLegacy);
  }

  lemma LimitedParts(legacy: seq<Row>, chain: seq<Row>, limit: Option<nat>) returns (kept: seq<Row>, tail: seq<Row>)
    ensures Limited(legacy + chain, limit) == kept + tail
    ensures kept <= legacy && tail <= chain && (tail != [] ==> kept == legacy)
  {
    var n := |Limited(legacy + chain, limit)|;
    kept := if n <= |legacy| then legacy[..n] else legacy;
    tail := if n <= |legacy| then [] else chain[..n - |legacy|];
  }

  /** A limit cuts the chain, after the legacy entries. */
  lemma LimitedSplit(h: Hasher, legacy: seq<Row>, chain: seq<Row>, limit: Option<nat>)
    requires (forall x :: x in legacy ==> IsLegacy(x)) && (forall x :: x in chain ==> IsChained(x)) && Linked(h, chain)
    ensures var some := Limited(legacy + chain, limit);
            && Linked(h, Keep(some, IsChained)) && Keep(some, IsChained) <= chain
            && |Keep(some, IsLegacy)| + |Keep(some, IsChained)| == |some|
            && (Keep(some, IsChained) != [] ==> Keep(some, IsLegacy) == legacy)
  {
    hide Keep, Linked, IsLegacy, IsChained, Limited;
    var kept, tail := LimitedParts(legacy, chain, limit);
    SplitKept(kept, tail);
    LinkedPrefix(h, chain, |tail|);
    assert tail == chain[..|tail|];
  }

  // ---------------------------------------------------------------- what the head proves

  lemma HeadIsDigest(h: Hasher, rows: seq<Row>)
    requires Collisionless(h) && Linked(h, rows) && rows != []
    ensures PrevHash(rows, |rows|).Digest?
  {
    assert Fits(h, rows, |rows| - 1);
  }

  /** The entries record the same. A missing previous hash is as good as that of a first entry. */
  ghost predicate SameEntry(a: Row, b: Row) {
    && a.id == b.id && a.tenant == b.tenant && a.createdAt == b.createdAt && a.sequence == b.sequence
    && a.content == b.content && a.entryHash == b.entryHash
    && (a.prev == b.prev || (a.prev in {Missing, Genesis} && b.prev in {Missing, Genesis}))
  }

  /** Two verified chains with the same head hash are equal entry by entry. */
  lemma {:induction false} SameHeadSameChain(h: Hasher, a: seq<Row>, b: seq<Row>)
    requires Collisionless(h) && Linked(h, a) && Linked(h, b) && PrevHash(a, |a|) == PrevHash(b, |b|)
    ensures |a| == |b|
    ensures forall i :: 0 <= i < |a| ==> SameEntry(a[i], b[i])
  {
    if a != [] { HeadIsDigest(h, a); }
    if b != [] { HeadIsDigest(h, b); }
    if a != [] && b != [] {
      var m, n := |a| - 1, |b| - 1;
      assert Fits(h, a, m) && Fits(h, b, n);
      LinkedPrefix(h, a, m);
      LinkedPrefix(h, b, n);
      SameHeadSameChain(h, a[..m], b[..n]);
      assert forall i :: 0 <= i < m ==> a[..m][i] == a[i] && b[..n][i] == b[i];
    }
  }

  /** Whatever is made of the entries of a verified chain by removing, repeating or
      reordering them verifies exactly when it is a prefix: every removal is noticed but
      that of the latest entries. */
  lemma RemovalsNoticed(h: Hasher, chain: seq<Row>, rest: seq<Row>)
    requires Linked(h, chain) && forall x :: x in rest ==> x in chain
    ensures Linked(h, rest) <==> rest <= chain
  {
    if Linked(h, rest) {
      forall i | 0 <= i < |rest| ensures i < |chain| && rest[i] == chain[i] {
        assert rest[i] in rest && Fits(h, rest, i);
        var k :| 0 <= k < |chain| && chain[k] == rest[i];
        assert Fits(h, chain, k);
      }
      assert |rest| <= |chain| by {
        if rest != [] { var last := rest[|rest| - 1]; }
      }
    }
    if rest <= chain {
      LinkedPrefix(h, chain, |rest|);
      assert rest == chain[..|rest|];
    }
  }

  /** The entry is hashed as the `n`th of a chain, after an entry with hash `prev`. */
  ghost predicate HashedAfter(h: Hasher, row: Row, prev: Hash, n: nat) {
    (if row.prev == Missing then Genesis else row.prev) == prev && row.sequence == n && HashSound(h, row)
  }

  /** Replacing an entry goes unnoticed exactly when all that is recorded stays the same, or
      when it is the latest entry and the replacement is hashed again. */
  lemma EditsNoticed(h: Hasher, chain: seq<Row>, i: nat, row: Row)
    requires Collisionless(h) && Linked(h, chain) && i < |chain|
    ensures Linked(h, chain[i := row]) <==>
            if i == |chain| - 1
            then HashedAfter(h, row, if i == 0 then Genesis else chain[i - 1].entryHash, i + 1)
            else SameEntry(row, chain[i])
  {
    var edited := chain[i := row];
    assert Fits(h, chain, i);
    if Linked(h, edited) {
      assert Fits(h, edited, i);
      if i < |chain| - 1 {
        assert Fits(h, chain, i + 1) && Fits(h, edited, i + 1);
      }
    }
    forall k | 0 <= k < |chain| && k != i && k != i + 1 ensures Fits(h, edited, k) { assert Fits(h, chain, k); }
    if i < |chain| - 1 { assert Fits(h, chain, i + 1); }
    if Fits(h, edited, i) && (i < |chain| - 1 ==> Fits(h, edited, i + 1)) {
      forall k | 0 <= k < |edited| ensures Fits(h, edited, k) {}
    }
  }

  lemma ChainIn(table: seq<Row>, tenant: string, x: Row)
    ensures x in ChainOf(table, tenant) <==> x in table && x.tenant == tenant && IsChained(x)
  {
    var own := Keep(table, IsOf(tenant));
    KeepIn(Sort(own), IsChained, x);
    SortOrdered(own);
    KeepIn(table, IsOf(tenant), x);
  }

  /** Taking entries of a tenant out of an honest table passes the check exactly when what
      is left of its chain is a prefix of it. */
  lemma RemovedFromTable(h: Hasher, base: seq<Row>, table: seq<Row>, left: seq<Row>, tenant: string)
    requires Collisionless(h) && Grown(h, base, table) && (forall x :: x in base ==> IsLegacy(x))
    requires forall x :: x in left ==> x in table
    ensures Linked(h, ChainOf(left, tenant)) <==> ChainOf(left, tenant) <= ChainOf(table, tenant)
  {
    HonestTrailVerifies(h, base, table, tenant, None);
    forall x | x in ChainOf(left, tenant) ensures x in ChainOf(table, tenant) {
      ChainIn(left, tenant, x);
      ChainIn(table, tenant, x);
    }
    RemovalsNoticed(h, ChainOf(table, tenant), ChainOf(left, tenant));
  }

  // ---------------------------------------------------------------- what the check answers

  ghost predicate Contiguous(rows: seq<Row>) { forall i :: 0 <= i < |rows| ==> rows[i].sequence == i + 1 }

  lemma LinkedContiguous(h: Hasher, rows: seq<Row>)
    requires Linked(h, rows)
    ensures Contiguous(rows)
  {
    forall i | 0 <= i < |rows| ensures rows[i].sequence == i + 1 { assert Fits(h, rows, i); }
  }

  /** Without gaps there is only one order. */
  lemma {:induction false} OneOrder(a: seq<Row>, b: seq<Row>)
    requires Ordered(a) && Contiguous(b) && multiset(a) == multiset(b)
    ensures a == b
  {
    hide Ordered, Contiguous;
    assert |multiset(a)| == |a| && |multiset(b)| == |b|;
    if a != [] {
      var n := |a| - 1;
      SameLast(a, b);
      SameFront(a, b);
      FrontInOrder(a, b);
      OneOrder(a[..n], b[..n]);
    }
  }

  lemma SameFront(a: seq<Row>, b: seq<Row>)
    requires multiset(a) == multiset(b) && |a| == |b| > 0 && a[|a| - 1] == b[|a| - 1]
    ensures multiset(a[..|a| - 1]) == multiset(b[..|a| - 1])
  {
    var n := |a| - 1;
    FrontCounts(a);
    FrontCounts(b);
    TakeOneAway(multiset(a[..n]), multiset(b[..n]), a[n]);
  }

  lemma FrontInOrder(a: seq<Row>, b: seq<Row>)
    requires Ordered(a) && Contiguous(b) && |a| == |b| > 0
    ensures Ordered(a[..|a| - 1]) && Contiguous(b[..|a| - 1])
  {}

  lemma SameLast(a: seq<Row>, b: seq<Row>)
    requires Ordered(a) && Contiguous(b) && multiset(a) == multiset(b) && |a| == |b| > 0
    ensures a[|a| - 1] == b[|a| - 1]
  {
    var n := |a| - 1;
    assert a[n] in multiset(b) && b[n] in multiset(a);
    var p :| 0 <= p <= n && b[p] == a[n];
    var q :| 0 <= q <= n && a[q] == b[n];
    if q < n { assert Before(a[q], a[n]); }
  }

  lemma ChainCounts(table: seq<Row>, tenant: string)
    ensures Ordered(ChainOf(table, tenant))
    ensures forall x :: multiset(ChainOf(table, tenant))[x] == if x.tenant == tenant && IsChained(x) then multiset(table)[x] else 0
  {
    hide Before;
    var own := Keep(table, IsOf(tenant));
    SortCounts(own);
    SortOrdered(own);
    KeepOrdered(Sort(own), IsChained);
    forall x ensures multiset(ChainOf(table, tenant))[x] == if x.tenant == tenant && IsChained(x) then multiset(table)[x] else 0 {
      KeepCounts(Sort(own), IsChained, x);
      KeepCounts(table, IsOf(tenant), x);
    }
  }

  lemma {:induction false} KeepOrdered(rows: seq<Row>, f: Row -> bool)
    requires Ordered(rows)
    ensures Ordered(Keep(rows, f))
  {
    if rows != [] {
      var front, last := rows[..|rows| - 1], rows[|rows| - 1];
      KeepOrdered(front, f);
      if f(last) {
        forall x | x in Keep(front, f) ensures Before(x, last) { KeepIn(front, f, x); }
        AppendOrdered(Keep(front, f), last);
      }
    }
  }

  lemma EntriesKept(table: seq<Row>, tenant: string, all: seq<Row>)
    requires Entries(table, tenant, all)
    ensures Ordered(Keep(all, IsChained)) && multiset(Keep(all, IsChained)) == multiset(ChainOf(table, tenant))
  {
    hide Keep, ChainOf, IsChained;
    assert Ordered(all);
    KeepOrdered(all, IsChained);
    ChainCounts(table, tenant);
    forall x ensures multiset(Keep(all, IsChained))[x] == multiset(ChainOf(table, tenant))[x] { KeepCounts(all, IsChained, x); }
  }

  lemma ChainedPicks(all: seq<Row>, at: seq<nat>)
    requires ChainedAt(all, at)
    ensures Picks(all, at, Keep(all, IsChained))
  {
    hide Keep, Enumerates;
    var picked := KeepPicks(all, IsChained);
    assert Kept(all, IsChained) == (set i | 0 <= i < |all| && (all[i].sequence != 0 || all[i].entryHash != Missing));
    EnumeratesOnce(at, picked, Kept(all, IsChained));
  }

  /** The check reports on the tenant's chained entries in some order it may read them in. */
  lemma ReportIsFound(h: Hasher, table: seq<Row>, tenant: string, r: Report) returns (rows: seq<Row>, legacy: nat)
    requires ReportsOn(h, table, tenant, None, r)
    ensures Ordered(rows) && multiset(rows) == multiset(ChainOf(table, tenant)) && FoundOn(h, rows, legacy, r)
  {
    hide Verdict, FoundOn, Keep, Entries, ChainedAt, Ordered, ChainOf, Picks;
    var all: seq<Row>, some: seq<Row>, at: seq<nat> :| ReportOn(h, table, tenant, None, all, some, at, r);
    assert some == all;
    rows := Keep(all, IsChained);
    ChainedPicks(all, at);
    KeepSplits(all);
    legacy := |all| - |rows|;
    VerdictIsFound(h, all, at, rows, r);
    EntriesKept(table, tenant, all);
  }

  lemma VerdictIsFound(h: Hasher, some: seq<Row>, at: seq<nat>, rows: seq<Row>, r: Report)
    requires Picks(some, at, rows) && |rows| <= |some| && Verdict(h, some, at, r)
    ensures FoundOn(h, rows, |some| - |rows|, r)
  {
    forall n | 0 <= n < |at|
      ensures (PrevSound(some, at, n) <==> PrevFits(rows, n)) && (EntrySound(h, some, at, n) <==> Fits(h, rows, n))
    {
      PickedSound(h, some, at, rows, n);
    }
    hide PrevSound, EntrySound, PrevFits, Fits;
  }

  /** The check answers that a tenant's chain is intact exactly when it is linked. */
  lemma ReportDecides(h: Hasher, table: seq<Row>, tenant: string, r: Report)
    requires ReportsOn(h, table, tenant, None, r)
    ensures r.Intact? <==> Linked(h, ChainOf(table, tenant))
  {
    hide ReportsOn, Fits, Before;
    var rows, legacy := ReportIsFound(h, table, tenant, r);
    var chain := ChainOf(table, tenant);
    ChainCounts(table, tenant);
    if Linked(h, chain) {
      LinkedContiguous(h, chain);
      OneOrder(rows, chain);
    }
    if Linked(h, rows) {
      LinkedContiguous(h, rows);
      OneOrder(chain, rows);
    }
  }

  /** Where an entry stands in its tenant's chain. */
  lemma StandsAt(h: Hasher, table: seq<Row>, row: Row) returns (i: nat)
    requires Linked(h, ChainOf(table, row.tenant)) && row in table && IsChained(row)
    ensures i < |ChainOf(table, row.tenant)| && ChainOf(table, row.tenant)[i] == row && row.sequence == i + 1
  {
    var chain := ChainOf(table, row.tenant);
    ChainIn(table, row.tenant, row);
    i :| 0 <= i < |chain| && chain[i] == row;
    assert Fits(h, chain, i);
  }

  lemma EditedCounts(table: seq<Row>, k: nat, row: Row, tenant: string, i: nat)
    requires k < |table| && table[k].tenant == tenant && IsChained(table[k])
    requires i < |ChainOf(table, tenant)| && ChainOf(table, tenant)[i] == table[k]
    ensures var chain, edited := ChainOf(table, tenant), ChainOf(table[k := row], tenant);
            multiset(edited) == if row.tenant == tenant && IsChained(row) then multiset(chain[i := row])
                                else multiset(chain) - multiset{table[k]}
  {
    hide ChainOf, IsChained, Ordered;
    var chain, edited := ChainOf(table, tenant), ChainOf(table[k := row], tenant);
    ChainCounts(table, tenant);
    ChainCounts(table[k := row], tenant);
    ReplacedCounts(table, k, row);
    ReplacedCounts(chain, i, row);
  }

  /** The replacement keeps the place of the entry in the chain. */
  lemma EditedInPlace(h: Hasher, table: seq<Row>, k: nat, row: Row, tenant: string, i: nat)
    requires Linked(h, ChainOf(table, tenant)) && k < |table| && table[k].tenant == tenant && IsChained(table[k])
    requires i < |ChainOf(table, tenant)| && ChainOf(table, tenant)[i] == table[k]
    requires row.tenant == tenant && IsChained(row) && row.sequence == i + 1
    ensures ChainOf(table[k := row], tenant) == ChainOf(table, tenant)[i := row]
  {
    hide ChainOf, IsChained, Linked;
    var chain := ChainOf(table, tenant);
    EditedCounts(table, k, row, tenant, i);
    ChainCounts(table[k := row], tenant);
    LinkedContiguous(h, chain);
    OneOrder(ChainOf(table[k := row], tenant), chain[i := row]);
  }

  /** One that does not leaves a gap. */
  lemma EditedElsewhere(h: Hasher, table: seq<Row>, k: nat, row: Row, tenant: string, i: nat)
    requires Linked(h, ChainOf(table, tenant)) && k < |table| && table[k].tenant == tenant && IsChained(table[k])
    requires i < |ChainOf(table, tenant)| && ChainOf(table, tenant)[i] == table[k]
    requires row.tenant == tenant && IsChained(row) && row.sequence != i + 1
    ensures !Linked(h, ChainOf(table[k := row], tenant))
  {
    hide ChainOf, IsChained, Linked;
    var chain, edited := ChainOf(table, tenant), ChainOf(table[k := row], tenant);
    EditedCounts(table, k, row, tenant, i);
    LinkedContiguous(h, chain);
    if Linked(h, edited) {
      LinkedContiguous(h, edited);
      NoGap(chain, edited, row, i);
    }
  }

  lemma NoGap(chain: seq<Row>, edited: seq<Row>, row: Row, i: nat)
    requires Contiguous(chain) && Contiguous(edited) && i < |chain| && multiset(edited) == multiset(chain[i := row])
    ensures row.sequence == i + 1
  {
    assert |multiset(edited)| == |edited| && |multiset(chain[i := row])| == |chain|;
    assert edited[i] in multiset(chain[i := row]);
    var p :| 0 <= p < |chain| && chain[i := row][p] == edited[i];
  }

  /** What is left of the chain when the entry drops out of it. */
  lemma DroppedOut(h: Hasher, table: seq<Row>, k: nat, row: Row, tenant: string, i: nat)
    requires Linked(h, ChainOf(table, tenant)) && k < |table| && table[k].tenant == tenant && IsChained(table[k])
    requires i < |ChainOf(table, tenant)| && ChainOf(table, tenant)[i] == table[k]
    requires !(row.tenant == tenant && IsChained(row))
    ensures Linked(h, ChainOf(table[k := row], tenant)) <==> i == |ChainOf(table, tenant)| - 1
  {
    hide ChainOf, IsChained, Linked;
    var chain, edited := ChainOf(table, tenant), ChainOf(table[k := row], tenant);
    EditedCounts(table, k, row, tenant, i);
    ChainCounts(table[k := row], tenant);
    LinkedContiguous(h, chain);
    forall x | x in edited ensures x in chain { assert x in multiset(chain); }
    RemovalsNoticed(h, chain, edited);
    AllButOne(chain, edited, i);
  }

  lemma AllButOne(chain: seq<Row>, rest: seq<Row>, i: nat)
    requires Contiguous(chain) && Ordered(rest) && i < |chain| && multiset(rest) == multiset(chain) - multiset{chain[i]}
    ensures rest <= chain <==> i == |chain| - 1
  {
    var n := |chain| - 1;
    assert chain == chain[..n] + [chain[n]];
    assert |multiset(rest)| == |rest| && |multiset(chain)| == n + 1;
    if i == n {
      assert multiset(chain[..n]) == multiset(chain) - multiset{chain[n]};
      OneOrder(rest, chain[..n]);
    } else if rest <= chain {
      assert rest[i] == chain[i] && chain[i] in multiset(rest);
      OnlyOnce(chain, i);
    }
  }

  lemma OnlyOnce(chain: seq<Row>, i: nat)
    requires Contiguous(chain) && i < |chain|
    ensures multiset(chain)[chain[i]] == 1
  {
    assert chain == chain[..i] + [chain[i]] + chain[i + 1..];
    assert chain[i] !in chain[..i] && chain[i] !in chain[i + 1..];
  }

  /** Whatever replaces one entry of an honest table, the check of its tenant stays intact
      exactly when the replacement records the same, or the entry is the latest and the
      replacement is hashed again in its place or drops out of the chain. */
  lemma EditsInTable(h: Hasher, base: seq<Row>, table: seq<Row>, k: nat, row: Row, r: Report)
    requires Collisionless(h) && Grown(h, base, table) && (forall x :: x in base ==> IsLegacy(x))
    requires k < |table| && IsChained(table[k]) && ReportsOn(h, table[k := row], table[k].tenant, None, r)
    ensures var chain := ChainOf(table, table[k].tenant);
            && 0 < table[k].sequence <= |chain|
            && (r.Intact? <==>
                  if row.tenant != table[k].tenant || IsLegacy(row) then table[k].sequence == |chain|
                  else if table[k].sequence < |chain| then SameEntry(row, table[k])
                  else HashedAfter(h, row, if |chain| == 1 then Genesis else chain[|chain| - 2].entryHash, |chain|))
  {
    hide ChainOf, ReportsOn, Grown, Linked, SameEntry, HashedAfter, Collisionless;
    var tenant := table[k].tenant;
    var chain := ChainOf(table, tenant);
    HonestIsLinked(h, base, table, tenant);
    var i := StandsAt(h, table, table[k]);
    ReportDecides(h, table[k := row], tenant, r);
    if row.tenant != tenant || IsLegacy(row) {
      DroppedOut(h, table, k, row, tenant, i);
    } else if row.sequence == i + 1 {
      EditedInPlace(h, table, k, row, tenant, i);
      EditsNoticed(h, chain, i, row);
    } else {
      EditedElsewhere(h, table, k, row, tenant, i);
      PlacesDiffer(h, row, table[k], if i == 0 then Genesis else chain[i - 1].entryHash, i + 1);
    }
  }

  lemma PlacesDiffer(h: Hasher, row: Row, other: Row, prev: Hash, n: nat)
    requires row.sequence != n && other.sequence == n
    ensures !SameEntry(row, other) && !HashedAfter(h, row, prev, n)
  {}

  lemma HonestIsLinked(h: Hasher, base: seq<Row>, table: seq<Row>, tenant: string)
    requires Collisionless(h) && Grown(h, base, table) && (forall x :: x in base ==> IsLegacy(x))
    ensures Linked(h, ChainOf(table, tenant))
  {
    HonestTrailVerifies(h, base, table, tenant, None);
  }

  /** An entry whose recorded content was changed is named as the first break. */
  lemma EditedContentIsReported(h: Hasher, base: seq<Row>, table: seq<Row>, k: nat, content: Content, r: Report)
    requires Collisionless(h) && Grown(h, base, table) && (forall x :: x in base ==> IsLegacy(x))
    requires k < |table| && IsChained(table[k]) && content != table[k].content
    requires ReportsOn(h, table[k := table[k].(content := content)], table[k].tenant, None, r)
    ensures r.Broken? && r.at == table[k].sequence - 1 && r.id == table[k].id
    ensures r.reason == "entry content does not match its recorded hash"
  {
    hide ChainOf, ReportsOn, Grown, FoundOn;
    var tenant, row := table[k].tenant, table[k].(content := content);
    var chain := ChainOf(table, tenant);
    HonestIsLinked(h, base, table, tenant);
    var i := StandsAt(h, table, table[k]);
    EditedInPlace(h, table, k, row, tenant, i);
    var rows, legacy := ReportIsFound(h, table[k := row], tenant, r);
    LinkedContiguous(h, chain);
    OneOrder(rows, chain[i := row]);
    ContentBreaks(h, chain, i, row, legacy, r);
  }

  lemma ContentBreaks(h: Hasher, chain: seq<Row>, i: nat, row: Row, legacy: nat, r: Report)
    requires Collisionless(h) && Linked(h, chain) && i < |chain| && row == chain[i].(content := row.content)
    requires row.content != chain[i].content && FoundOn(h, chain[i := row], legacy, r)
    ensures r.Broken? && r.at == i && r.id == row.id && r.reason == "entry content does not match its recorded hash"
  {
    var edited := chain[i := row];
    assert Fits(h, chain, i) && PrevFits(edited, i) && !Fits(h, edited, i);
    forall p | 0 <= p < i ensures Fits(h, edited, p) { assert Fits(h, chain, p); }
  }
}
