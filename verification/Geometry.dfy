/** The meshes of a model's entities: exact where triangulation works, a proxy box for
    the rest. Entities are looked up by guid for exact meshes, and those that get none are
    given a proxy, so that each selected entity has exactly one mesh, whatever fails to
    triangulate. */
module Geometry {
  import opened Basics
  import opened Planner

  /** An entity row. The guid is empty when the model gives none. */
  datatype Row = Row(id: EntityId, document: string, guid: string, triangles: nat)

  datatype Mesh = Mesh(entity: EntityId, exact: bool)

  function RowIds(rows: seq<Row>): (r: seq<EntityId>)
    ensures |r| == |rows| && forall i :: 0 <= i < |rows| ==> r[i] == rows[i].id
  {
    seq(|rows|, i requires 0 <= i < |rows| => rows[i].id)
  }

  function MeshIds(meshes: seq<Mesh>): (r: seq<EntityId>)
    ensures |r| == |meshes| && forall i :: 0 <= i < |meshes| ==> r[i] == meshes[i].entity
  {
    seq(|meshes|, i requires 0 <= i < |meshes| => meshes[i].entity)
  }

  /** The rows with the given ids, in row order. */
  function Select(rows: seq<Row>, ids: set<EntityId>): seq<Row> {
    if rows == [] then []
    else Select(rows[..|rows| - 1], ids) + (if rows[|rows| - 1].id in ids then [rows[|rows| - 1]] else [])
  }

  /** The rows of one model as the planner reads them. */
  function Stream(rows: seq<Row>, document: string): seq<Entity> {
    if rows == [] then []
    else
      var last := rows[|rows| - 1];
      Stream(rows[..|rows| - 1], document) + (if last.document == document then [Entity(last.id, last.triangles)] else [])
  }

  /** The entities of the rows at the positions `at`, which are all those of the document. */
  ghost predicate Lists(rows: seq<Row>, document: string, at: seq<nat>, stream: seq<Entity>) {
    && Enumerates(at, set i | 0 <= i < |rows| && rows[i].document == document)
    && |stream| == |at|
    && forall n :: 0 <= n < |at| ==> at[n] < |rows| && stream[n] == Entity(rows[at[n]].id, rows[at[n]].triangles)
  }

  lemma {:induction false} StreamLists(rows: seq<Row>, document: string) returns (at: seq<nat>)
    ensures Lists(rows, document, at, Stream(rows, document))
  {
    if rows == [] {
      at := [];
    } else {
      var front, n := rows[..|rows| - 1], |rows| - 1;
      at := StreamLists(front, document);
      var chosen := set i | 0 <= i < |front| && front[i].document == document;
      if rows[n].document == document {
        EnumeratesMore(at, chosen, n);
        at := at + [n];
        assert (set i | 0 <= i < |rows| && rows[i].document == document) == chosen + {n};
      } else {
        assert (set i | 0 <= i < |rows| && rows[i].document == document) == chosen;
      }
    }
  }

  /** The row that is looked up for a guid is the last one that has it. */
  ghost predicate Found(rows: seq<Row>, i: nat, guid: string) {
    i < |rows| && rows[i].guid == guid && forall k :: i < k < |rows| ==> rows[k].guid != guid
  }

  lemma DistinctCount<T>(s: seq<T>, x: T)
    requires Distinct(s)
    ensures multiset(s)[x] == (if x in s then 1 else 0)
  {
    if s != [] {
      var front := s[..|s| - 1];
      DistinctCount(front, x);
      assert s == front + [s[|s| - 1]];
    }
  }

  lemma DistinctGrows<T>(s: seq<T>, x: T)
    ensures Distinct(s + [x]) <==> Distinct(s) && x !in s
  {
    if Distinct(s + [x]) {
      forall i, j | 0 <= i < j < |s| ensures s[i] != s[j] { assert (s + [x])[i] != (s + [x])[j]; }
      forall i | 0 <= i < |s| ensures s[i] != x { assert (s + [x])[i] != (s + [x])[|s|]; }
    }
  }

  lemma RowIdsGrow(rows: seq<Row>, row: Row)
    ensures RowIds(rows + [row]) == RowIds(rows) + [row.id]
  {}

  lemma {:induction false} SelectIds(rows: seq<Row>, ids: set<EntityId>)
    requires Distinct(RowIds(rows))
    ensures Distinct(RowIds(Select(rows, ids)))
    ensures forall x :: x in RowIds(Select(rows, ids)) <==> x in RowIds(rows) && x in ids
  {
    hide Distinct, RowIds;
    if rows != [] {
      var front, last := rows[..|rows| - 1], rows[|rows| - 1];
      assert rows == front + [last];
      RowIdsGrow(front, last);
      RowIdsGrow(Select(front, ids), last);
      DistinctGrows(RowIds(front), last.id);
      DistinctGrows(RowIds(Select(front, ids)), last.id);
      SelectIds(front, ids);
      assert Select(rows, ids) == if last.id in ids then Select(front, ids) + [last] else Select(front, ids);
    }
  }

  /** One list and the leftovers beside it make up the whole, each id once. */
  lemma SplitOnce(all: seq<EntityId>, chosen: seq<EntityId>, rest: seq<EntityId>)
    requires Distinct(all) && Distinct(chosen) && Distinct(rest)
    requires forall x :: x in all <==> x in chosen || x in rest
    requires forall x :: !(x in chosen && x in rest)
    ensures multiset(chosen + rest) == multiset(all)
  {
    forall x ensures multiset(chosen + rest)[x] == multiset(all)[x] {
      DistinctCount(all, x);
      DistinctCount(chosen, x);
      DistinctCount(rest, x);
    }
  }

  /** A partition list without repeats whose entities are all still there gets each of
      them once. */
  lemma SelectsExactly(rows: seq<Row>, entities: seq<EntityId>)
    requires Distinct(RowIds(rows)) && Distinct(entities) && forall x :: x in entities ==> x in RowIds(rows)
    ensures multiset(RowIds(Select(rows, set x | x in entities))) == multiset(entities)
  {
    var ids := set x | x in entities;
    SelectIds(rows, ids);
    forall x ensures multiset(RowIds(Select(rows, ids)))[x] == multiset(entities)[x] {
      DistinctCount(RowIds(Select(rows, ids)), x);
      DistinctCount(entities, x);
    }
  }

  /** What `by_guid` holds after some rows: each guid once, with the last row that has it. */
  ghost predicate Lookup(rows: seq<Row>, guids: seq<string>, byGuid: map<string, Row>) {
    && Distinct(guids) && (forall g :: g in guids <==> g in byGuid)
    && (forall g :: g in byGuid ==> g != "" && exists i: nat :: Found(rows, i, g) && byGuid[g] == rows[i])
    && (forall i :: 0 <= i < |rows| && rows[i].guid != "" ==> rows[i].guid in byGuid)
  }

  lemma LookupGrows(rows: seq<Row>, guids: seq<string>, byGuid: map<string, Row>, row: Row)
    requires Lookup(rows, guids, byGuid)
    ensures row.guid == "" ==> Lookup(rows + [row], guids, byGuid)
    ensures row.guid != "" ==> Lookup(rows + [row], if row.guid in byGuid then guids else guids + [row.guid], byGuid[row.guid := row])
  {
    var byGuid' := if row.guid == "" then byGuid else byGuid[row.guid := row];
    forall g | g in byGuid' ensures g != "" && exists i: nat :: Found(rows + [row], i, g) && byGuid'[g] == (rows + [row])[i] {
      if g == row.guid {
        assert Found(rows + [row], |rows|, g);
      } else {
        var i: nat :| Found(rows, i, g) && byGuid[g] == rows[i];
        assert Found(rows + [row], i, g);
      }
    }
  }

  method IndexByGuid(rows: seq<Row>) returns (guids: seq<string>, byGuid: map<string, Row>)
    ensures Lookup(rows, guids, byGuid)
  {
    guids, byGuid := [], map[];
    for i := 0 to |rows|
      invariant Lookup(rows[..i], guids, byGuid)
    {
      hide Lookup;
      var row := rows[i];
      LookupGrows(rows[..i], guids, byGuid, row);
      assert rows[..i] + [row] == rows[..i + 1];
      if row.guid != "" {
        guids := if row.guid in byGuid then guids else guids + [row.guid];
        byGuid := byGuid[row.guid := row];
      }
    }
    assert rows[..|rows|] == rows;
  }

  /** Row `i` is looked up under its guid and that guid triangulates. */
  ghost predicate IsExact(rows: seq<Row>, i: nat, usable: set<string>) {
    i < |rows| && rows[i].guid != "" && rows[i].guid in usable && Found(rows, i, rows[i].guid)
  }

  /** The meshes for the guids read so far. */
  ghost predicate ExactMeshes(rows: seq<Row>, guids: seq<string>, usable: set<string>, meshes: seq<Mesh>) {
    && Distinct(MeshIds(meshes)) && (forall m :: m in meshes ==> m.exact)
    && (forall i: nat :: i < |rows| ==> (rows[i].id in MeshIds(meshes) <==> IsExact(rows, i, usable) && rows[i].guid in guids))
    && (forall x :: x in MeshIds(meshes) ==> x in RowIds(rows))
  }

  lemma FoundIsUnique(rows: seq<Row>, i: nat, j: nat, guid: string)
    requires Found(rows, i, guid) && Found(rows, j, guid)
    ensures i == j
  {}

  lemma SameIdSameRow(rows: seq<Row>, i: nat, j: nat)
    requires Distinct(RowIds(rows)) && i < |rows| && j < |rows| && rows[i].id == rows[j].id
    ensures i == j
  {
    assert RowIds(rows)[i] == RowIds(rows)[j];
  }

  lemma ExactGrows(rows: seq<Row>, guids: seq<string>, usable: set<string>, meshes: seq<Mesh>, guid: string, row: Row)
    requires Distinct(RowIds(rows)) && ExactMeshes(rows, guids, usable, meshes) && guid !in guids && guid != ""
    requires exists i: nat :: Found(rows, i, guid) && rows[i] == row
    ensures ExactMeshes(rows, guids + [guid], usable, if guid in usable then meshes + [Mesh(row.id, true)] else meshes)
  {
    var n: nat :| Found(rows, n, guid) && rows[n] == row;
    var all := if guid in usable then meshes + [Mesh(row.id, true)] else meshes;
    DistinctGrows(MeshIds(meshes), row.id);
    assert guid in usable ==> MeshIds(all) == MeshIds(meshes) + [row.id];
    assert row.id == RowIds(rows)[n];
    forall i: nat | i < |rows|
      ensures rows[i].id in MeshIds(all) <==> IsExact(rows, i, usable) && rows[i].guid in guids + [guid]
    {
      if rows[i].id == row.id { SameIdSameRow(rows, i, n); }
      if IsExact(rows, i, usable) && rows[i].guid == guid { FoundIsUnique(rows, i, n, guid); }
    }
  }

  method ExactGeometry(rows: seq<Row>, guids: seq<string>, byGuid: map<string, Row>, usable: set<string>) returns (meshes: seq<Mesh>)
    requires Distinct(RowIds(rows)) && Lookup(rows, guids, byGuid)
    ensures ExactMeshes(rows, guids, usable, meshes)
  {
    meshes := [];
    for k := 0 to |guids|
      invariant ExactMeshes(rows, guids[..k], usable, meshes)
    {
      hide ExactMeshes;
      var guid := guids[k];
      assert guid in byGuid;
      assert guids[..k + 1] == guids[..k] + [guid];
      ExactGrows(rows, guids[..k], usable, meshes, guid, byGuid[guid]);
      if guid in usable {
        meshes := meshes + [Mesh(byGuid[guid].id, true)];
      }
    }
    assert guids[..|guids|] == guids;
  }

  /** The proxies for the rows without an exact mesh. */
  ghost predicate ProxyMeshes(rows: seq<Row>, exact: set<EntityId>, meshes: seq<Mesh>) {
    && Distinct(MeshIds(meshes)) && (forall m :: m in meshes ==> !m.exact)
    && (forall x :: x in MeshIds(meshes) <==> x in RowIds(rows) && x !in exact)
  }

  lemma ProxiesGrow(rows: seq<Row>, exact: set<EntityId>, meshes: seq<Mesh>, row: Row)
    requires ProxyMeshes(rows, exact, meshes) && row.id !in RowIds(rows)
    ensures ProxyMeshes(rows + [row], exact, if row.id in exact then meshes else meshes + [Mesh(row.id, false)])
  {
    RowIdsGrow(rows, row);
    DistinctGrows(MeshIds(meshes), row.id);
    assert MeshIds(meshes + [Mesh(row.id, false)]) == MeshIds(meshes) + [row.id];
  }

  method ProxyGeometry(rows: seq<Row>, exact: set<EntityId>) returns (meshes: seq<Mesh>)
    requires Distinct(RowIds(rows))
    ensures ProxyMeshes(rows, exact, meshes)
  {
    meshes := [];
    for i := 0 to |rows|
      invariant ProxyMeshes(rows[..i], exact, meshes)
    {
      hide ProxyMeshes;
      var row := rows[i];
      assert rows[..i + 1] == rows[..i] + [row];
      assert row.id !in RowIds(rows[..i]) by {
        forall k | 0 <= k < i ensures rows[k].id != row.id { assert RowIds(rows)[k] != RowIds(rows)[i]; }
      }
      ProxiesGrow(rows[..i], exact, meshes, row);
      if row.id !in exact {
        meshes := meshes + [Mesh(row.id, false)];
      }
    }
    assert rows[..|rows|] == rows;
  }

  /** One mesh for each selected entity, whatever triangulates: exact where the entity is
      the one looked up under a guid that triangulates, a proxy otherwise. */
  ghost predicate OneMeshEach(rows: seq<Row>, usable: set<string>, meshes: seq<Mesh>) {
    && multiset(MeshIds(meshes)) == multiset(RowIds(rows))
    && forall i: nat {:trigger rows[i]} :: i < |rows| ==> Mesh(rows[i].id, IsExact(rows, i, usable)) in meshes
  }

  lemma MeshesMakeUp(rows: seq<Row>, guids: seq<string>, byGuid: map<string, Row>, usable: set<string>,
                     exact: seq<Mesh>, proxies: seq<Mesh>)
    requires Distinct(RowIds(rows)) && Lookup(rows, guids, byGuid) && ExactMeshes(rows, guids, usable, exact)
    requires ProxyMeshes(rows, set m | m in exact :: m.entity, proxies)
    ensures OneMeshEach(rows, usable, exact + proxies)
  {
    var ids := set m | m in exact :: m.entity;
    forall x ensures x in ids <==> x in MeshIds(exact) { MeshIdIn(exact, x); }
    SplitOnce(RowIds(rows), MeshIds(exact), MeshIds(proxies));
    assert MeshIds(exact + proxies) == MeshIds(exact) + MeshIds(proxies);
    forall i: nat | i < |rows| ensures Mesh(rows[i].id, IsExact(rows, i, usable)) in exact + proxies {
      assert RowIds(rows)[i] == rows[i].id;
      MeshIdIn(exact, rows[i].id);
      MeshIdIn(proxies, rows[i].id);
    }
  }

  lemma MeshIdIn(meshes: seq<Mesh>, x: EntityId)
    ensures x in MeshIds(meshes) <==> exists m :: m in meshes && m.entity == x
  {
    if x in MeshIds(meshes) {
      var i :| 0 <= i < |meshes| && MeshIds(meshes)[i] == x;
      assert meshes[i] in meshes;
    }
    if m :| m in meshes && m.entity == x {
      var i :| 0 <= i < |meshes| && meshes[i] == m;
      assert MeshIds(meshes)[i] == x;
    }
  }

  /** Geometry of the selected entities. `usable` holds the guids that triangulate; it is
      empty when the library or the file is missing. */
  method GeometryForModel(table: seq<Row>, ids: set<EntityId>, usable: set<string>) returns (meshes: seq<Mesh>)
    requires Distinct(RowIds(table))
    ensures OneMeshEach(Select(table, ids), usable, meshes)
  {
    SelectIds(table, ids);
    var rows := Select(table, ids);
    var guids, byGuid := IndexByGuid(rows);
    var exact := ExactGeometry(rows, guids, byGuid, usable);
    var exactIds := set m | m in exact :: m.entity;
    var proxies := ProxyGeometry(rows, exactIds);
    MeshesMakeUp(rows, guids, byGuid, usable, exact, proxies);
    meshes := exact + proxies;
  }
}
