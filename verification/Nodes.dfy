/** The mutable nodes of the critical path analysis and how they are built from the
    imported schedule rows: one node for the first row of each id, with the links that
    name an activity of the schedule, and with successor lists in schedule order, one entry
    for each link. Rows and references that are left out are reported. */
module Nodes {
  import opened Basics
  import opened Networks
  import opened Kahn

  /** A schedule row as imported: its links may name unknown or blank activities. */
  datatype Row = Row(id: Id, duration: nat, slip: nat, links: seq<Link>)

  datatype Warning = Duplicate(id: Id) | Missing(id: Id, reference: Id)

  class Node {
    const duration: nat
    const slip: nat
    var predecessors: seq<Link>
    var successors: seq<Id>
    var earlyStart: int
    var earlyFinish: int
    var lateStart: int
    var lateFinish: int
    var freeFloat: int

    constructor (duration: nat, slip: nat, predecessors: seq<Link>)
      ensures this.duration == duration && this.slip == slip
      ensures this.predecessors == predecessors && successors == []
    {
      this.duration, this.slip, this.predecessors, this.successors := duration, slip, predecessors, [];
      earlyStart, earlyFinish, lateStart, lateFinish, freeFloat := 0, 0, 0, 0, 0;
    }

    function TotalFloat(): int
      reads this
    {
      lateStart - earlyStart
    }

    /** Total float of at most 0.001 days, in hundredths. */
    predicate IsCritical()
      reads this
    {
      10 * TotalFloat() <= 1
    }
  }

  type NodeMap = map<Id, Node>

  // ---------------------------------------------------------------- the network of a schedule

  function Ids(rows: seq<Row>): set<Id> { set i | 0 <= i < |rows| :: rows[i].id }

  function FirstRow(rows: seq<Row>, k: Id): (r: Row)
    requires k in Ids(rows)
    ensures r in rows && r.id == k
  {
    if rows[0].id == k then rows[0]
    else
      assert forall i :: 0 < i < |rows| ==> rows[1..][i - 1] == rows[i];
      FirstRow(rows[1..], k)
  }

  function Resolve(links: seq<Link>, ids: set<Id>): (r: seq<Link>)
    ensures forall l :: l in r <==> l in links && l.activity != "" && l.activity in ids
  {
    if links == [] then []
    else
      var front, last := links[..|links| - 1], links[|links| - 1];
      assert links == front + [last];
      Resolve(front, ids) + (if last.activity != "" && last.activity in ids then [last] else [])
  }

  /** The network a schedule describes: the first row of each id, with the links that
      name an activity of the schedule. */
  function NetworkOf(rows: seq<Row>): Network {
    map k | k in Ids(rows) :: Task(FirstRow(rows, k).duration, Resolve(FirstRow(rows, k).links, Ids(rows)))
  }

  function SlipsOf(rows: seq<Row>): map<Id, nat> {
    map k | k in Ids(rows) :: FirstRow(rows, k).slip
  }

  /** No earlier row has the id of row `i`. */
  predicate IsFirst(rows: seq<Row>, i: nat)
    requires i < |rows|
  {
    forall j :: 0 <= j < i ==> rows[j].id != rows[i].id
  }

  /** The links that name an activity of the schedule, in their order. */
  ghost predicate Resolved(rows: seq<Row>, links: seq<Link>, at: seq<nat>, resolved: seq<Link>) {
    && Enumerates(at, set j | 0 <= j < |links| && links[j].activity != "" && exists m :: 0 <= m < |rows| && rows[m].id == links[j].activity)
    && |resolved| == |at| && forall n :: 0 <= n < |at| ==> at[n] < |links| && resolved[n] == links[at[n]]
  }

  ghost function Resolving(links: seq<Link>, ids: set<Id>): set<nat> {
    set j | 0 <= j < |links| && links[j].activity != "" && links[j].activity in ids
  }

  lemma KeptGrows(front: seq<Link>, last: Link, ids: set<Id>)
    ensures Resolving(front + [last], ids) == Resolving(front, ids) + (if last.activity != "" && last.activity in ids then {|front|} else {})
  {
    var links := front + [last];
    forall j ensures j in Resolving(links, ids) <==> j in Resolving(front, ids) || (j == |front| && last.activity != "" && last.activity in ids) {
      assert 0 <= j < |front| ==> links[j] == front[j];
    }
  }

  lemma {:induction false} ResolvePicks(links: seq<Link>, ids: set<Id>) returns (at: seq<nat>)
    ensures Enumerates(at, Resolving(links, ids))
    ensures |Resolve(links, ids)| == |at| && forall n :: 0 <= n < |at| ==> at[n] < |links| && Resolve(links, ids)[n] == links[at[n]]
  {
    if links == [] {
      at := [];
    } else {
      var front, last := links[..|links| - 1], links[|links| - 1];
      assert links == front + [last];
      at := ResolvePicks(front, ids);
      KeptGrows(front, last, ids);
      if last.activity != "" && last.activity in ids {
        EnumeratesMore(at, Resolving(front, ids), |front|);
        at := at + [|front|];
      }
    }
  }

  /** The network and the slips, row by row. */
  lemma NetworkOfRow(rows: seq<Row>, i: nat) returns (at: seq<nat>)
    requires i < |rows| && IsFirst(rows, i)
    ensures rows[i].id in NetworkOf(rows) && NetworkOf(rows)[rows[i].id].duration == rows[i].duration
    ensures SlipsOf(rows)[rows[i].id] == rows[i].slip
    ensures Resolved(rows, rows[i].links, at, NetworkOf(rows)[rows[i].id].predecessors)
  {
    hide FirstRow, Resolve;
    FirstRowIsNew(rows, i);
    var links := rows[i].links;
    at := ResolvePicks(links, Ids(rows));
    assert Resolving(links, Ids(rows)) ==
           (set j | 0 <= j < |links| && links[j].activity != "" && exists m :: 0 <= m < |rows| && rows[m].id == links[j].activity);
  }

  lemma NetworkIsWellFormed(rows: seq<Row>)
    ensures WellFormed(NetworkOf(rows))
  {}

  // ---------------------------------------------------------------- nodes and values

  ghost predicate Injective(nodes: NodeMap) {
    forall a, b :: a in nodes && b in nodes && nodes[a] == nodes[b] ==> a == b
  }

  ghost predicate Keyed(keys: seq<Id>, net: Network) {
    Distinct(keys) && forall k :: k in keys <==> k in net
  }

  /** Every activity has a node of its own, with its duration and links. */
  ghost predicate Mirrors(nodes: NodeMap, net: Network)
    reads nodes.Values`predecessors
  {
    && Injective(nodes) && nodes.Keys == net.Keys
    && (forall k :: k in net ==> nodes[k].duration == net[k].duration)
    && (forall k :: k in net ==> nodes[k].predecessors == net[k].predecessors)
  }

  /** The nodes carry the network, keyed in the order of `keys`. */
  ghost predicate Represents(keys: seq<Id>, nodes: NodeMap, net: Network)
    reads nodes.Values`predecessors, nodes.Values`successors
  {
    && Mirrors(nodes, net) && WellFormed(net) && Keyed(keys, net)
    && (forall k :: k in net ==> nodes[k].successors == Successors(net, keys, k))
  }

  // ---------------------------------------------------------------- building

  lemma {:induction false} FirstRowOfPrefix(rows: seq<Row>, i: nat, k: Id)
    requires i <= |rows| && k in Ids(rows[..i])
    ensures k in Ids(rows) && FirstRow(rows[..i], k) == FirstRow(rows, k)
  {
    var j :| 0 <= j < i && rows[..i][j].id == k;
    assert rows[j].id == k;
    if rows[0].id != k {
      assert rows[1..][j - 1] == rows[j] && rows[1..][..i - 1] == rows[..i][1..];
      assert rows[1..][..i - 1][j - 1].id == k;
      FirstRowOfPrefix(rows[1..], i - 1, k);
    }
  }

  lemma IdsOfTail(rows: seq<Row>)
    requires rows != []
    ensures Ids(rows[1..]) <= Ids(rows)
  {
    forall k | k in Ids(rows[1..]) ensures k in Ids(rows) {
      var j :| 0 <= j < |rows[1..]| && rows[1..][j].id == k;
      assert rows[j + 1].id == k;
    }
  }

  lemma {:induction false} FirstRowIsNew(rows: seq<Row>, i: nat)
    requires i < |rows| && rows[i].id !in Ids(rows[..i])
    ensures rows[i].id in Ids(rows) && FirstRow(rows, rows[i].id) == rows[i]
  {
    if i > 0 {
      assert rows[..i][0].id in Ids(rows[..i]);
      assert rows[1..][i - 1] == rows[i] && rows[1..][..i - 1] == rows[..i][1..];
      IdsOfTail(rows[..i]);
      FirstRowIsNew(rows[1..], i - 1);
    }
  }

  lemma IdsGrow(rows: seq<Row>, i: nat)
    requires i < |rows|
    ensures Ids(rows[..i + 1]) == Ids(rows[..i]) + {rows[i].id}
  {
    var a, b := rows[..i], rows[..i + 1];
    forall k | k in Ids(b) ensures k in Ids(a) + {rows[i].id} {
      var j :| 0 <= j < |b| && b[j].id == k;
      if j < i { assert a[j].id == k; }
    }
    forall k | k in Ids(a) ensures k in Ids(b) {
      var j :| 0 <= j < |a| && a[j].id == k;
      assert b[j].id == k;
    }
    assert b[i].id in Ids(b);
  }

  /** The nodes hold the first row of each of `ids`, links as imported, no successors. */
  ghost predicate HoldsRows(rows: seq<Row>, ids: set<Id>, nodes: NodeMap)
    reads nodes.Values`predecessors, nodes.Values`successors
  {
    && Injective(nodes) && nodes.Keys == ids && ids <= Ids(rows)
    && forall k :: k in ids ==> HoldsRow(FirstRow(rows, k), nodes[k])
  }

  ghost predicate HoldsRow(row: Row, node: Node)
    reads node`predecessors, node`successors
  {
    node.duration == row.duration && node.slip == row.slip && node.predecessors == row.links && node.successors == []
  }

  /** `k` occurs twice among the first `n` rows. */
  ghost predicate Repeated(rows: seq<Row>, n: nat, k: Id)
    requires n <= |rows|
  {
    exists i, j :: 0 <= i < j < n && rows[i].id == rows[j].id == k
  }

  lemma RepeatedGrows(rows: seq<Row>, n: nat)
    requires n < |rows|
    ensures forall k :: Repeated(rows, n + 1, k) <==> Repeated(rows, n, k) || (k == rows[n].id && k in Ids(rows[..n]))
  {
    var id := rows[n].id;
    if id in Ids(rows[..n]) {
      var i :| 0 <= i < n && rows[..n][i].id == id;
      assert rows[i].id == rows[n].id == id;
    }
    forall k | Repeated(rows, n + 1, k) ensures Repeated(rows, n, k) || (k == id && k in Ids(rows[..n])) {
      var i, j :| 0 <= i < j < n + 1 && rows[i].id == rows[j].id == k;
      if j == n { assert rows[..n][i].id == k; }
    }
  }

  /** The node of the first row of its id. */
  method NodeOf(rows: seq<Row>, i: nat, nodes: NodeMap) returns (node: Node)
    requires i < |rows| && HoldsRows(rows, Ids(rows[..i]), nodes) && rows[i].id !in nodes
    ensures fresh(node) && HoldsRows(rows, Ids(rows[..i + 1]), nodes[rows[i].id := node])
  {
    FirstRowIsNew(rows, i);
    IdsGrow(rows, i);
    node := new Node(rows[i].duration, rows[i].slip, rows[i].links);
  }

  /** Exactly the repeated ids among the first `n` rows are reported. */
  ghost predicate Reports(rows: seq<Row>, n: nat, warnings: seq<Warning>)
    requires n <= |rows|
  {
    forall w :: w in warnings <==> w.Duplicate? && Repeated(rows, n, w.id)
  }

  lemma ReportsGrow(rows: seq<Row>, n: nat, warnings: seq<Warning>)
    requires n < |rows| && Reports(rows, n, warnings)
    ensures Reports(rows, n + 1, if rows[n].id in Ids(rows[..n]) then warnings + [Duplicate(rows[n].id)] else warnings)
  {
    hide Repeated, Ids;
    RepeatedGrows(rows, n);
  }

  /** The keys are those of the nodes, each once. */
  ghost predicate KeysAre(keys: seq<Id>, ids: set<Id>) { Distinct(keys) && forall k :: k in keys <==> k in ids }

  lemma KeysGrow(keys: seq<Id>, ids: set<Id>, id: Id)
    requires KeysAre(keys, ids) && id !in ids
    ensures KeysAre(keys + [id], ids + {id})
  {
    assert forall i :: 0 <= i < |keys| ==> keys[i] in keys;
  }

  /** The keys are the ids of the first rows of each id, in row order. */
  ghost predicate InRowOrder(rows: seq<Row>, n: nat, keys: seq<Id>)
    requires n <= |rows|
  {
    exists at :: FirstAt(rows, n, keys, at)
  }

  ghost predicate FirstAt(rows: seq<Row>, n: nat, keys: seq<Id>, at: seq<nat>)
    requires n <= |rows|
  {
    && Enumerates(at, set i | 0 <= i < n && IsFirst(rows, i))
    && |keys| == |at| && forall m :: 0 <= m < |at| ==> at[m] < n && keys[m] == rows[at[m]].id
  }

  lemma RowOrderGrows(rows: seq<Row>, n: nat, keys: seq<Id>)
    requires n < |rows| && InRowOrder(rows, n, keys)
    ensures InRowOrder(rows, n + 1, if rows[n].id in Ids(rows[..n]) then keys else keys + [rows[n].id])
  {
    var at :| FirstAt(rows, n, keys, at);
    var before, chosen := set i | 0 <= i < n && IsFirst(rows, i), set i | 0 <= i < n + 1 && IsFirst(rows, i);
    SeenBefore(rows, n);
    if IsFirst(rows, n) {
      EnumeratesMore(at, before, n);
      assert chosen == before + {n};
      assert FirstAt(rows, n + 1, keys + [rows[n].id], at + [n]);
    } else {
      assert chosen == before;
      assert FirstAt(rows, n + 1, keys, at);
    }
  }

  lemma SeenBefore(rows: seq<Row>, n: nat)
    requires n < |rows|
    ensures rows[n].id in Ids(rows[..n]) <==> !IsFirst(rows, n)
  {
    if rows[n].id in Ids(rows[..n]) {
      var j :| 0 <= j < n && rows[..n][j].id == rows[n].id;
      assert rows[j].id == rows[n].id;
    }
    if !IsFirst(rows, n) {
      var j :| 0 <= j < n && rows[j].id == rows[n].id;
      assert rows[..n][j].id == rows[n].id;
    }
  }

  /** What is read of the first `n` rows. */
  ghost predicate ReadSoFar(rows: seq<Row>, n: nat, keys: seq<Id>, nodes: NodeMap, warnings: seq<Warning>)
    requires n <= |rows|
    reads nodes.Values`predecessors, nodes.Values`successors
  {
    && HoldsRows(rows, Ids(rows[..n]), nodes) && KeysAre(keys, Ids(rows[..n])) && InRowOrder(rows, n, keys)
    && Reports(rows, n, warnings)
  }

  method ReadRow(rows: seq<Row>, i: nat, keys: seq<Id>, nodes: NodeMap, warnings: seq<Warning>)
    returns (keys': seq<Id>, nodes': NodeMap, warnings': seq<Warning>)
    requires i < |rows| && ReadSoFar(rows, i, keys, nodes, warnings)
    ensures ReadSoFar(rows, i + 1, keys', nodes', warnings')
    ensures forall k :: k in nodes' ==> (k in nodes && nodes'[k] == nodes[k]) || fresh(nodes'[k])
  {
    keys', nodes', warnings' := keys, nodes, warnings;
    assert nodes.Keys == Ids(rows[..i]);
    hide InRowOrder;
    ReportsGrow(rows, i, warnings);
    RowOrderGrows(rows, i, keys);
    IdsGrow(rows, i);
    if rows[i].id in nodes {
      assert Ids(rows[..i + 1]) == Ids(rows[..i]);
      warnings' := warnings + [Duplicate(rows[i].id)];
    } else {
      KeysGrow(keys, nodes.Keys, rows[i].id);
      var node := NodeOf(rows, i, nodes);
      nodes' := nodes[rows[i].id := node];
      keys' := keys + [rows[i].id];
    }
  }

  /** A node for the first row of each id; every later row of an id is reported. */
  method ReadRows(rows: seq<Row>) returns (keys: seq<Id>, nodes: NodeMap, warnings: seq<Warning>)
    ensures fresh(nodes.Values) && HoldsRows(rows, Ids(rows), nodes)
    ensures KeysAre(keys, nodes.Keys) && InRowOrder(rows, |rows|, keys) && Reports(rows, |rows|, warnings)
  {
    keys, nodes, warnings := [], map[], [];
    assert FirstAt(rows, 0, keys, []);
    for i := 0 to |rows|
      invariant (forall k :: k in nodes ==> fresh(nodes[k])) && ReadSoFar(rows, i, keys, nodes, warnings)
    {
      hide *;
      keys, nodes, warnings := ReadRow(rows, i, keys, nodes, warnings);
    }
    assert rows[..|rows|] == rows;
  }

  ghost predicate Named(links: seq<Link>, reference: Id) {
    exists l :: l in links && l.activity == reference
  }

  lemma NamedGrows(links: seq<Link>, j: nat)
    requires j < |links|
    ensures forall r :: Named(links[..j + 1], r) <==> Named(links[..j], r) || r == links[j].activity
  {
    TakeNextOne(links, j);
    assert links[j] in links[..j + 1];
  }

  /** Some link of the activity's row names `reference`, which is no activity. */
  ghost predicate Unresolved(rows: seq<Row>, k: Id, reference: Id) {
    k in Ids(rows) && reference != "" && reference !in Ids(rows) && Named(FirstRow(rows, k).links, reference)
  }

  /** The successors of `p` once the activities of `listed`, and `links` of `extra`, are
      resolved. */
  ghost function Listing(net: Network, listed: seq<Id>, extra: Id, links: seq<Link>, p: Id): seq<Id>
    requires forall k :: k in listed ==> k in net
  {
    Successors(net, listed, p) + Repeat(extra, Count(links, p))
  }

  ghost predicate SuccessorsAre(nodes: NodeMap, net: Network, listed: seq<Id>, extra: Id, links: seq<Link>)
    requires forall k :: k in listed ==> k in net
    reads nodes.Values`successors
  {
    forall p :: p in nodes ==> nodes[p].successors == Listing(net, listed, extra, links, p)
  }

  lemma {:induction false} ResolveGrows(links: seq<Link>, ids: set<Id>, j: nat)
    requires j < |links|
    ensures Resolve(links[..j + 1], ids)
            == Resolve(links[..j], ids) + (if links[j].activity != "" && links[j].activity in ids then [links[j]] else [])
  {
    assert links[..j + 1][..j] == links[..j];
  }

  lemma ListingGrows(net: Network, listed: seq<Id>, extra: Id, links: seq<Link>, l: Link, p: Id)
    requires forall k :: k in listed ==> k in net
    ensures Listing(net, listed, extra, links + [l], p)
            == Listing(net, listed, extra, links, p) + (if l.activity == p then [extra] else [])
  {
    assert (links + [l])[..|links|] == links;
    assert Repeat(extra, Count(links, p) + 1) == Repeat(extra, Count(links, p)) + [extra];
  }

  /** Appends `key` to the successors of its predecessor `link.activity`. */
  method AddSuccessor(nodes: NodeMap, ghost net: Network, ghost listed: seq<Id>, key: Id, link: Link, ghost links: seq<Link>)
    requires Injective(nodes) && link.activity in nodes && forall k :: k in listed ==> k in net
    requires SuccessorsAre(nodes, net, listed, key, links)
    modifies nodes.Values`successors
    ensures SuccessorsAre(nodes, net, listed, key, links + [link])
  {
    hide Listing;
    var other := nodes[link.activity];
    other.successors := other.successors + [key];
    forall p | p in nodes ensures nodes[p].successors == Listing(net, listed, key, links + [link], p) {
      ListingGrows(net, listed, key, links, link, p);
    }
  }

  /** Resolves the links of one activity: blank references are dropped, unknown ones
      reported, and every other link is entered with its predecessor. */
  method ResolveLinks(links: seq<Link>, ids: set<Id>, nodes: NodeMap, ghost net: Network, ghost listed: seq<Id>, key: Id)
    returns (resolved: seq<Link>, warnings: seq<Warning>)
    requires Injective(nodes) && nodes.Keys == ids
    requires (forall k :: k in listed ==> k in net) && SuccessorsAre(nodes, net, listed, key, [])
    modifies nodes.Values`successors
    ensures resolved == Resolve(links, ids) && SuccessorsAre(nodes, net, listed, key, resolved)
    ensures forall w :: w in warnings <==> w.Missing? && w.id == key && w.reference != "" && w.reference !in ids
                                           && Named(links, w.reference)
  {
    resolved, warnings := [], [];
    for j := 0 to |links|
      invariant resolved == Resolve(links[..j], ids)
      invariant SuccessorsAre(nodes, net, listed, key, resolved)
      invariant forall w :: w in warnings <==> w.Missing? && w.id == key && w.reference != "" && w.reference !in ids
                                               && Named(links[..j], w.reference)
    {
      var link := links[j];
      ResolveGrows(links, ids, j);
      NamedGrows(links, j);
      if link.activity != "" {
        if link.activity !in nodes {
          warnings := warnings + [Missing(key, link.activity)];
        } else {
          AddSuccessor(nodes, net, listed, key, link, resolved);
          resolved := resolved + [link];
        }
      }
    }
    assert links[..|links|] == links;
  }

  lemma SuccessorsGrow(net: Network, keys: seq<Id>, i: nat, p: Id)
    requires i < |keys| && forall k :: k in keys ==> k in net
    ensures Successors(net, keys[..i + 1], p)
            == Successors(net, keys[..i], p) + Repeat(keys[i], Count(net[keys[i]].predecessors, p))
  {
    assert keys[..i + 1][..i] == keys[..i];
  }

  /** The links an activity carries while those of `listed` are resolved. */
  ghost function LinksAt(rows: seq<Row>, listed: seq<Id>, k: Id): seq<Link>
    requires k in Ids(rows)
  {
    if k in listed then Resolve(FirstRow(rows, k).links, Ids(rows)) else FirstRow(rows, k).links
  }

  /** Where link resolution stands. */
  ghost predicate LinksStand(rows: seq<Row>, listed: seq<Id>, nodes: NodeMap)
    requires nodes.Keys == Ids(rows)
    reads nodes.Values`predecessors
  {
    forall k :: k in nodes ==> nodes[k].predecessors == LinksAt(rows, listed, k)
  }

  /** The successor lists name the activities of `listed` only. */
  ghost predicate Entered(net: Network, listed: seq<Id>, nodes: NodeMap)
    requires forall k :: k in listed ==> k in net
    reads nodes.Values`successors
  {
    forall p :: p in nodes ==> nodes[p].successors == Successors(net, listed, p)
  }

  lemma EnteredStarts(net: Network, listed: seq<Id>, nodes: NodeMap, key: Id)
    requires (forall k :: k in listed ==> k in net) && Entered(net, listed, nodes)
    ensures SuccessorsAre(nodes, net, listed, key, [])
  {}

  lemma EnteredGrows(net: Network, keys: seq<Id>, nodes: NodeMap, i: nat)
    requires i < |keys| && (forall k :: k in keys ==> k in net)
    requires SuccessorsAre(nodes, net, keys[..i], keys[i], net[keys[i]].predecessors)
    ensures Entered(net, keys[..i + 1], nodes)
  {
    forall p | p in nodes ensures nodes[p].successors == Successors(net, keys[..i + 1], p) {
      SuccessorsGrow(net, keys, i, p);
    }
  }

  /** Stores the resolved links of one activity. */
  method SetLinks(node: Node, resolved: seq<Link>, ghost rows: seq<Row>, ghost listed: seq<Id>, ghost nodes: NodeMap, ghost key: Id)
    requires Injective(nodes) && nodes.Keys == Ids(rows) && key in nodes && nodes[key] == node
    requires LinksStand(rows, listed, nodes) && resolved == LinksAt(rows, listed + [key], key)
    modifies node`predecessors
    ensures LinksStand(rows, listed + [key], nodes)
  {
    assert forall k :: k in nodes && k != key ==> LinksAt(rows, listed + [key], k) == LinksAt(rows, listed, k);
    node.predecessors := resolved;
  }

  /** One activity of the resolution loop. */
  method ResolveOne(rows: seq<Row>, ghost keys: seq<Id>, nodes: NodeMap, ghost i: nat, key: Id) returns (warnings: seq<Warning>)
    requires Injective(nodes) && nodes.Keys == Ids(rows) && Keyed(keys, NetworkOf(rows)) && i < |keys| && keys[i] == key
    requires LinksStand(rows, keys[..i], nodes) && Entered(NetworkOf(rows), keys[..i], nodes)
    modifies nodes.Values`predecessors, nodes.Values`successors
    ensures LinksStand(rows, keys[..i + 1], nodes) && Entered(NetworkOf(rows), keys[..i + 1], nodes)
    ensures forall w :: w in warnings <==> w.Missing? && w.id == key && Unresolved(rows, key, w.reference)
  {
    TakeNextOne(keys, i);
    assert key in keys && key !in keys[..i];
    EnteredStarts(NetworkOf(rows), keys[..i], nodes, key);
    var resolved;
    resolved, warnings := ResolveLinks(nodes[key].predecessors, nodes.Keys, nodes, NetworkOf(rows), keys[..i], key);
    EnteredGrows(NetworkOf(rows), keys, nodes, i);
    SetLinks(nodes[key], resolved, rows, keys[..i], nodes, key);
  }

  lemma AllResolved(rows: seq<Row>, keys: seq<Id>, nodes: NodeMap)
    requires Injective(nodes) && nodes.Keys == Ids(rows) && Keyed(keys, NetworkOf(rows))
    requires forall k :: k in nodes ==> nodes[k].duration == FirstRow(rows, k).duration
    requires LinksStand(rows, keys, nodes) && Entered(NetworkOf(rows), keys, nodes)
    ensures Represents(keys, nodes, NetworkOf(rows))
  {
    NetworkIsWellFormed(rows);
  }

  /** Builds the nodes of a schedule. Repeated ids and links to unknown activities are
      left out of the network and reported, and nothing else is. */
  method BuildNetwork(rows: seq<Row>) returns (keys: seq<Id>, nodes: NodeMap, warnings: seq<Warning>)
    ensures fresh(nodes.Values) && Represents(keys, nodes, NetworkOf(rows))
    ensures forall k :: k in nodes ==> nodes[k].slip == SlipsOf(rows)[k]
    ensures InRowOrder(rows, |rows|, keys)
    ensures forall w :: w in warnings <==> if w.Duplicate? then Repeated(rows, |rows|, w.id) else Unresolved(rows, w.id, w.reference)
  {
    keys, nodes, warnings := ReadRows(rows);
    assert Keyed(keys, NetworkOf(rows));
    for i := 0 to |keys|
      invariant LinksStand(rows, keys[..i], nodes) && Entered(NetworkOf(rows), keys[..i], nodes)
      invariant forall w :: w in warnings <==> if w.Duplicate? then Repeated(rows, |rows|, w.id)
                                               else w.id in keys[..i] && Unresolved(rows, w.id, w.reference)
    {
      var missing := ResolveOne(rows, keys, nodes, i, keys[i]);
      warnings := warnings + missing;
      TakeNextOne(keys, i);
    }
    assert keys[..|keys|] == keys;
    AllResolved(rows, keys, nodes);
  }

  /** The first row of each id has a node with its duration, slip and resolved links, and with
      an entry among its successors for every link that names it. */
  ghost predicate BuiltFrom(rows: seq<Row>, nodes: NodeMap)
    reads nodes.Values`predecessors, nodes.Values`successors
  {
    && (forall k :: k in nodes <==> exists i :: 0 <= i < |rows| && rows[i].id == k)
    && forall i: nat {:trigger rows[i]} :: i < |rows| && IsFirst(rows, i) ==> BuiltFromRow(rows, i, nodes)
  }

  ghost predicate BuiltFromRow(rows: seq<Row>, i: nat, nodes: NodeMap)
    requires i < |rows|
    reads nodes.Values`predecessors, nodes.Values`successors
  {
    rows[i].id in nodes
    && (var node := nodes[rows[i].id];
        && node.duration == rows[i].duration && node.slip == rows[i].slip
        && (exists at :: Resolved(rows, rows[i].links, at, node.predecessors))
        && forall s :: s in nodes ==>
             multiset(node.successors)[s] == |Naming(nodes[s].predecessors, rows[i].id)|)
  }

  /** Nodes that represent the network of some rows are built from these rows. */
  lemma AllBuilt(rows: seq<Row>, keys: seq<Id>, nodes: NodeMap)
    requires Represents(keys, nodes, NetworkOf(rows))
    requires forall k :: k in nodes ==> nodes[k].slip == SlipsOf(rows)[k]
    ensures BuiltFrom(rows, nodes)
  {
    hide Resolved, FirstRow, Resolve, Successors;
    forall i: nat | i < |rows| && IsFirst(rows, i) ensures BuiltFromRow(rows, i, nodes) {
      var at := NetworkOfRow(rows, i);
      var k := rows[i].id;
      forall s | s in nodes
        ensures multiset(nodes[k].successors)[s] == |Naming(nodes[s].predecessors, k)|
      {
        SuccessorsCount(NetworkOf(rows), keys, k, s);
        CountIsNumber(nodes[s].predecessors, k);
      }
    }
  }

  /** The positions of the links that name `k`. */
  ghost function Naming(links: seq<Link>, k: Id): set<nat> { set j | 0 <= j < |links| && links[j].activity == k }

  lemma {:induction false} CountIsNumber(links: seq<Link>, k: Id)
    ensures |Naming(links, k)| == Count(links, k)
  {
    if links == [] {
      assert Naming(links, k) == {};
    } else {
      var front, last := links[..|links| - 1], links[|links| - 1];
      assert links == front + [last];
      CountIsNumber(front, k);
      NamingGrows(front, last, k);
    }
  }

  lemma NamingGrows(front: seq<Link>, last: Link, k: Id)
    ensures Naming(front + [last], k) == Naming(front, k) + (if last.activity == k then {|front|} else {})
    ensures |Naming(front + [last], k)| == |Naming(front, k)| + (if last.activity == k then 1 else 0)
  {
    assert forall j :: 0 <= j < |front| ==> (front + [last])[j] == front[j];
  }
}
