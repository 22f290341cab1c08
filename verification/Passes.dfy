/** The forward pass, the backward pass and the free floats, stored on the nodes. */
module Passes {
  import opened Basics
  import opened Networks
  import opened Schedules
  import opened Kahn
  import opened Nodes

  // ---------------------------------------------------------------- forward pass

  /** The dates of `start` are stored on the nodes, finishes included. */
  ghost predicate StoredEarly(nodes: NodeMap, start: Dates)
    reads nodes.Values`earlyStart, nodes.Values`earlyFinish
  {
    forall k :: k in start ==> k in nodes && nodes[k].earlyStart == start[k]
                               && nodes[k].earlyFinish == start[k] + nodes[k].duration
  }

  /** The start that one link into `key` demands. */
  function Candidate(nodes: NodeMap, key: Id, link: Link): int
    requires key in nodes && link.activity in nodes
    reads nodes[key], nodes[link.activity]
  {
    var node, other := nodes[key], nodes[link.activity];
    match link.kind
    case SS => other.earlyStart + link.lag
    case FF => other.earlyFinish + link.lag - node.duration
    case SF => other.earlyStart + link.lag - node.duration
    case _ => other.earlyFinish + link.lag
  }

  /** The largest start that a link into `key` demands, or 0. */
  method EarliestStart(nodes: NodeMap, key: Id, ghost net: Network, ghost start: Dates) returns (earliest: int)
    requires Mirrors(nodes, net) && key in net && StoredEarly(nodes, start)
    requires forall l :: l in net[key].predecessors ==> l.activity in net && l.activity in start
    ensures earliest >= 0
    ensures forall l :: l in net[key].predecessors ==> earliest >= start[l.activity] + Weight(net, key, l)
    ensures earliest == 0 || exists l :: l in net[key].predecessors && earliest == start[l.activity] + Weight(net, key, l)
  {
    earliest := 0;
    var links := nodes[key].predecessors;
    for i := 0 to |links|
      invariant earliest >= 0
      invariant forall j :: 0 <= j < i ==> earliest >= start[links[j].activity] + Weight(net, key, links[j])
      invariant earliest == 0 || exists l :: l in links && earliest == start[l.activity] + Weight(net, key, l)
    {
      assert links[i] in links;
      var candidate := Candidate(nodes, key, links[i]);
      assert candidate == start[links[i].activity] + Weight(net, key, links[i]);
      if candidate > earliest { earliest := candidate; }
    }
  }

  method SetEarly(node: Node, earliest: int, ghost nodes: NodeMap, ghost key: Id, ghost start: Dates)
    requires Injective(nodes) && key in nodes && nodes[key] == node && StoredEarly(nodes, start) && key !in start
    modifies node`earlyStart, node`earlyFinish
    ensures StoredEarly(nodes, start[key := earliest])
  {
    node.earlyStart := earliest;
    node.earlyFinish := earliest + node.duration;
  }

  /** Stores the earliest dates, in order; they are the least schedule of the network. */
  method ForwardPass(ghost keys: seq<Id>, nodes: NodeMap, order: seq<Id>, ghost net: Network) returns (ghost early: Dates)
    requires Represents(keys, nodes, net) && Topological(net, order)
    modifies nodes.Values`earlyStart, nodes.Values`earlyFinish
    ensures Early(net, early) && Least(net, early) && StoredEarly(nodes, early)
  {
    hide EarlyAt, Weight, Keyed, Least, Follows;
    early := map[];
    for i := 0 to |order|
      invariant forall k :: k in early <==> k in order[..i]
      invariant StoredEarly(nodes, early)
      invariant forall k {:trigger EarlyAt(net, early, k)} :: k in early ==> EarlyAt(net, early, k)
    {
      var key := order[i];
      assert key in net && key !in early;
      var earliest := EarliestStart(nodes, key, net, early);
      SetEarly(nodes[key], earliest, nodes, key, early);
      EarlyGrows(net, early, key, earliest);
      early := early[key := earliest];
      TakeNextOne(order, i);
    }
    assert order[..|order|] == order;
    assert Early(net, early);
    assert Least(net, early) by { EarlyIsLeast(net, order, early); }
  }

  lemma EarlyGrows(net: Network, start: Dates, key: Id, earliest: int)
    requires key in net && key !in start && (forall k :: k in start ==> k in net) && earliest >= 0
    requires forall k {:trigger EarlyAt(net, start, k)} :: k in start ==> EarlyAt(net, start, k)
    requires forall l :: l in net[key].predecessors ==>
               l.activity in net && l.activity in start && earliest >= start[l.activity] + Weight(net, key, l)
    requires earliest == 0 || exists l :: l in net[key].predecessors && earliest == start[l.activity] + Weight(net, key, l)
    ensures var more := start[key := earliest];
            forall k {:trigger EarlyAt(net, more, k)} :: k in more ==> EarlyAt(net, more, k)
  {
    var more := start[key := earliest];
    forall k | k in more ensures EarlyAt(net, more, k) {
      if k != key { assert EarlyAt(net, start, k); }
    }
  }

  /** The latest early finish, or 0 for no activities. */
  method LatestFinish(keys: seq<Id>, nodes: NodeMap, ghost net: Network, ghost early: Dates) returns (finish: int)
    requires Represents(keys, nodes, net) && StoredEarly(nodes, early) && Early(net, early)
    ensures early.Keys == net.Keys && ProjectFinish(net, early, finish)
  {
    if keys == [] {
      assert net.Keys == {};
      return 0;
    }
    finish := nodes[keys[0]].earlyFinish;
    assert keys[0] in net;
    for i := 0 to |keys|
      invariant forall j :: 0 <= j < i ==> early[keys[j]] + net[keys[j]].duration <= finish
      invariant exists k :: k in net && early[k] + net[k].duration == finish
    {
      assert keys[i] in net;
      finish := Max(finish, nodes[keys[i]].earlyFinish);
    }
  }

  // ---------------------------------------------------------------- backward pass

  ghost predicate StoredLate(nodes: NodeMap, late: Dates)
    reads nodes.Values`lateStart, nodes.Values`lateFinish
  {
    forall k :: k in late ==> k in nodes && nodes[k].lateStart == late[k]
                              && nodes[k].lateFinish == late[k] + nodes[k].duration
  }

  /** `latest` is the smallest late finish that one of the first `i` successors grants. */
  ghost predicate LatestSoFar(net: Network, late: Dates, key: Id, successors: seq<Id>, i: nat, latest: int)
    requires forall s :: s in successors ==> s in late && Follows(net, s, key)
  {
    && i <= |successors|
    && (forall j :: 0 <= j < i ==> latest <= LateBound(net, late, key, successors[j]))
    && (exists s :: s in successors && latest == LateBound(net, late, key, s))
  }

  lemma LatestStarts(net: Network, late: Dates, key: Id, successors: seq<Id>)
    requires successors != [] && forall s :: s in successors ==> s in late && Follows(net, s, key)
    ensures LatestSoFar(net, late, key, successors, 1, LateBound(net, late, key, successors[0]))
  {}

  lemma LatestGrows(net: Network, late: Dates, key: Id, successors: seq<Id>, i: nat, latest: int)
    requires i < |successors| && forall s :: s in successors ==> s in late && Follows(net, s, key)
    requires LatestSoFar(net, late, key, successors, i, latest)
    ensures LatestSoFar(net, late, key, successors, i + 1, Min(LateBound(net, late, key, successors[i]), latest))
  {
    hide LateBound, Follows;
    assert successors[i] in successors;
  }

  lemma LatestEnds(net: Network, late: Dates, key: Id, successors: seq<Id>, latest: int)
    requires forall s :: s in successors ==> s in late && Follows(net, s, key)
    requires LatestSoFar(net, late, key, successors, |successors|, latest)
    ensures forall s :: s in successors ==> latest <= LateBound(net, late, key, s)
    ensures exists s :: s in successors && latest == LateBound(net, late, key, s)
  {
    hide LateBound, Follows;
  }

  /** The smallest late finish that a successor of `key` grants. */
  method LatestBySuccessors(nodes: NodeMap, key: Id, ghost net: Network, ghost late: Dates) returns (latest: int)
    requires Mirrors(nodes, net) && key in net && nodes[key].successors != [] && StoredLate(nodes, late)
    requires forall s :: s in nodes[key].successors ==> s in late && Follows(net, s, key)
    ensures forall s :: s in nodes[key].successors ==> latest <= LateBound(net, late, key, s)
    ensures exists s :: s in nodes[key].successors && latest == LateBound(net, late, key, s)
  {
    var successors := nodes[key].successors;
    latest := SuccessorBound(nodes, key, successors[0], net, late);
    LatestStarts(net, late, key, successors);
    for i := 1 to |successors|
      invariant LatestSoFar(net, late, key, successors, i, latest)
    {
      var bound := SuccessorBound(nodes, key, successors[i], net, late);
      LatestGrows(net, late, key, successors, i, latest);
      if bound < latest { latest := bound; }
    }
    LatestEnds(net, late, key, successors, latest);
  }

  /** A finish-to-start successor must not start before `key` is done and the lag is
      over; for any other link type the bound is the successor's own late finish. */
  method SuccessorBound(nodes: NodeMap, key: Id, s: Id, ghost net: Network, ghost late: Dates) returns (bound: int)
    requires Mirrors(nodes, net) && StoredLate(nodes, late) && s in late && Follows(net, s, key)
    ensures bound == LateBound(net, late, key, s)
  {
    var link := FirstLink(nodes[s].predecessors, key);
    bound := if link.kind == FS then nodes[s].lateStart - link.lag else nodes[s].lateFinish;
  }

  method SetLateFinishes(keys: seq<Id>, nodes: NodeMap, finish: int, ghost net: Network)
    requires Injective(nodes) && nodes.Keys == net.Keys && Keyed(keys, net)
    modifies nodes.Values`lateFinish
    ensures forall k :: k in net ==> nodes[k].lateFinish == finish
  {
    for i := 0 to |keys|
      invariant forall j :: 0 <= j < i ==> nodes[keys[j]].lateFinish == finish
    {
      nodes[keys[i]].lateFinish := finish;
    }
  }

  /** The late finish of an activity whose successors have their late dates. */
  ghost predicate LateFinishIs(net: Network, finish: int, late: Dates, key: Id, latest: int)
    requires forall s :: Follows(net, s, key) ==> s in late
  {
    && (Terminal(net, key) ==> latest == finish)
    && (forall s :: Follows(net, s, key) ==> latest <= LateBound(net, late, key, s))
    && (Terminal(net, key) || exists s :: Follows(net, s, key) && latest == LateBound(net, late, key, s))
  }

  method LatestFinishOf(nodes: NodeMap, key: Id, ghost finish: int, ghost net: Network, ghost late: Dates) returns (latest: int)
    requires Mirrors(nodes, net) && StoredLate(nodes, late) && key in net && nodes[key].lateFinish == finish
    requires forall s :: s in nodes[key].successors <==> Follows(net, s, key)
    requires forall s :: Follows(net, s, key) ==> s in late
    ensures LateFinishIs(net, finish, late, key, latest)
  {
    latest := nodes[key].lateFinish;
    if nodes[key].successors != [] {
      assert Follows(net, nodes[key].successors[0], key);
      latest := LatestBySuccessors(nodes, key, net, late);
    }
  }

  /** The part of the late dates settled so far, and the project finish on the rest. */
  ghost predicate LateSoFar(net: Network, nodes: NodeMap, finish: int, late: Dates)
    requires nodes.Keys == net.Keys
    reads nodes.Values`lateStart, nodes.Values`lateFinish
  {
    && late.Keys <= net.Keys && StoredLate(nodes, late)
    && (forall k :: k in net && k !in late ==> nodes[k].lateFinish == finish)
  }

  method SetLate(node: Node, latest: int, ghost net: Network, ghost nodes: NodeMap, ghost finish: int, ghost key: Id, ghost late: Dates)
    requires Mirrors(nodes, net) && key in nodes && nodes[key] == node && key !in late
    requires LateSoFar(net, nodes, finish, late)
    modifies node`lateStart, node`lateFinish
    ensures LateSoFar(net, nodes, finish, late[key := latest - net[key].duration])
  {
    node.lateFinish := latest;
    node.lateStart := latest - node.duration;
  }

  ghost predicate LateFrom(net: Network, finish: int, late: Dates) {
    late.Keys <= net.Keys
    && forall k {:trigger LateAt(net, finish, late, k)} :: k in late ==> LateAt(net, finish, late, k)
  }

  /** One step of the backward pass: the late dates of `order[i]`. */
  method LateStep(keys: seq<Id>, nodes: NodeMap, order: seq<Id>, i: nat, ghost finish: int, ghost net: Network, ghost late: Dates)
    returns (ghost more: Dates)
    requires Represents(keys, nodes, net) && Topological(net, order) && i < |order|
    requires LateSoFar(net, nodes, finish, late) && LateFrom(net, finish, late)
    requires forall k :: k in late <==> k in order[i + 1..]
    modifies nodes.Values`lateStart, nodes.Values`lateFinish
    ensures LateSoFar(net, nodes, finish, more) && LateFrom(net, finish, more)
    ensures forall k :: k in more <==> k in order[i..]
  {
    var key := order[i];
    DropNextOne(order, i);
    assert key in net && key !in order[i + 1..];
    SuccessorsAreSettled(keys, net, order, i, late);
    var latest := LatestFinishOf(nodes, key, finish, net, late);
    SetLate(nodes[key], latest, net, nodes, finish, key, late);
    LateGrows(net, finish, late, key, latest);
    more := late[key := latest - net[key].duration];
  }

  /** Stores the late dates, against the order. */
  method BackwardPass(keys: seq<Id>, nodes: NodeMap, order: seq<Id>, finish: int, ghost net: Network)
    returns (ghost late: Dates)
    requires Represents(keys, nodes, net) && Topological(net, order)
    modifies nodes.Values`lateStart, nodes.Values`lateFinish
    ensures Late(net, finish, late) && StoredLate(nodes, late)
  {
    hide *;
    Represented(keys, nodes, net);
    SetLateFinishes(keys, nodes, finish, net);
    late := map[];
    NothingLate(net, nodes, finish, order);
    for i := |order| downto 0
      invariant LateSoFar(net, nodes, finish, late) && LateFrom(net, finish, late)
      invariant forall k :: k in late <==> k in order[i..]
    {
      late := LateStep(keys, nodes, order, i, finish, net, late);
    }
    AllAreLate(net, nodes, finish, order, late);
  }

  lemma Represented(keys: seq<Id>, nodes: NodeMap, net: Network)
    requires Represents(keys, nodes, net)
    ensures Injective(nodes) && nodes.Keys == net.Keys && Keyed(keys, net)
  {}

  lemma NothingLate(net: Network, nodes: NodeMap, finish: int, order: seq<Id>)
    requires nodes.Keys == net.Keys && forall k :: k in net ==> nodes[k].lateFinish == finish
    ensures LateSoFar(net, nodes, finish, map[]) && LateFrom(net, finish, map[])
    ensures forall k :: k !in order[|order|..]
  {}

  lemma AllAreLate(net: Network, nodes: NodeMap, finish: int, order: seq<Id>, late: Dates)
    requires nodes.Keys == net.Keys && Topological(net, order) && forall k :: k in late <==> k in order[0..]
    requires LateSoFar(net, nodes, finish, late) && LateFrom(net, finish, late)
    ensures Late(net, finish, late) && StoredLate(nodes, late)
  {
    assert order[0..] == order;
  }

  lemma SuccessorsAreSettled(keys: seq<Id>, net: Network, order: seq<Id>, i: nat, late: Dates)
    requires Keyed(keys, net) && Topological(net, order) && i < |order|
    requires forall k :: k in late <==> k in order[i + 1..]
    ensures forall s :: s in Successors(net, keys, order[i]) <==> Follows(net, s, order[i])
    ensures forall s :: Follows(net, s, order[i]) ==> s in late
  {
    SuccessorsAreFollowers(keys, net, order[i]);
    forall s | Follows(net, s, order[i]) ensures s in late { SuccessorIsLater(net, order, order[i], s, i); }
  }

  lemma LateGrows(net: Network, finish: int, late: Dates, key: Id, latest: int)
    requires key in net && key !in late && LateFrom(net, finish, late)
    requires forall s :: Follows(net, s, key) ==> s in late
    requires LateFinishIs(net, finish, late, key, latest)
    ensures LateFrom(net, finish, late[key := latest - net[key].duration])
  {
    var more := late[key := latest - net[key].duration];
    LateAgrees(net, finish, late, more, key, latest);
    forall k | k in more ensures k in net && LateAt(net, finish, more, k) {
      if k != key {
        assert k in net;
        assert LateAt(net, finish, late, k);
        LateAgrees(net, finish, late, more, k, late[k] + net[k].duration);
      }
    }
  }

  lemma LateAgrees(net: Network, finish: int, late: Dates, more: Dates, k: Id, latest: int)
    requires k in net && k in more && more[k] + net[k].duration == latest
    requires forall s :: Follows(net, s, k) ==> s in late && s in more && late[s] == more[s]
    requires LateFinishIs(net, finish, late, k, latest)
    ensures LateAt(net, finish, more, k)
  {
    if !Terminal(net, k) {
      var s :| Follows(net, s, k) && latest == LateBound(net, late, k, s);
      assert latest == LateBound(net, more, k, s);
      forall t | Follows(net, t, k) ensures latest <= LateBound(net, more, k, t) {
        assert latest <= LateBound(net, late, k, t);
      }
    }
  }

  // ---------------------------------------------------------------- free float

  /** The gap to one successor's early start, whatever the link type. */
  method GapTo(nodes: NodeMap, key: Id, s: Id, ghost net: Network, ghost early: Dates) returns (gap: int)
    requires Mirrors(nodes, net) && StoredEarly(nodes, early) && early.Keys == net.Keys && key in net && Follows(net, s, key)
    ensures gap == Gap(net, early, key, s)
  {
    var link := FirstLink(nodes[s].predecessors, key);
    gap := nodes[s].earlyStart - (nodes[key].earlyFinish + link.lag);
  }

  method SmallestGap(nodes: NodeMap, key: Id, ghost net: Network, ghost early: Dates) returns (gap: int)
    requires Mirrors(nodes, net) && StoredEarly(nodes, early) && early.Keys == net.Keys && key in net
    requires nodes[key].successors != [] && forall s :: s in nodes[key].successors ==> Follows(net, s, key)
    ensures forall s :: s in nodes[key].successors ==> gap <= Gap(net, early, key, s)
    ensures exists s :: s in nodes[key].successors && gap == Gap(net, early, key, s)
  {
    var successors := nodes[key].successors;
    gap := GapTo(nodes, key, successors[0], net, early);
    for i := 1 to |successors|
      invariant forall j :: 0 <= j < i ==> gap <= Gap(net, early, key, successors[j])
      invariant exists s :: s in successors && gap == Gap(net, early, key, s)
    {
      var next := GapTo(nodes, key, successors[i], net, early);
      assert successors[i] in successors;
      if next < gap { gap := next; }
    }
  }

  /** The free float of one activity. */
  method FreeFloatOf(nodes: NodeMap, key: Id, ghost net: Network, ghost early: Dates, ghost late: Dates, ghost free: Dates)
    returns (value: int)
    requires Mirrors(nodes, net) && StoredEarly(nodes, early) && StoredLate(nodes, late)
    requires early.Keys == late.Keys == net.Keys && key in net
    requires forall s :: s in nodes[key].successors <==> Follows(net, s, key)
    ensures FreeAt(net, early, late, free[key := value], key)
  {
    if nodes[key].successors == [] {
      assert Terminal(net, key);
      value := nodes[key].TotalFloat();
    } else {
      assert Follows(net, nodes[key].successors[0], key);
      var gap := SmallestGap(nodes, key, net, early);
      value := Max(0, gap);
    }
  }

  ghost predicate FreeStored(nodes: NodeMap, free: Dates)
    reads nodes.Values`freeFloat
  {
    forall k :: k in free ==> k in nodes && nodes[k].freeFloat == free[k]
  }

  ghost predicate FreeSoFar(net: Network, early: Dates, late: Dates, free: Dates) {
    && early.Keys == late.Keys == net.Keys && free.Keys <= net.Keys
    && (forall k {:trigger FreeAt(net, early, late, free, k)} :: k in free ==> FreeAt(net, early, late, free, k))
  }

  method SetFree(node: Node, value: int, ghost nodes: NodeMap, ghost key: Id, ghost free: Dates)
    requires Injective(nodes) && key in nodes && nodes[key] == node && key !in free && FreeStored(nodes, free)
    modifies node`freeFloat
    ensures FreeStored(nodes, free[key := value])
  {
    node.freeFloat := value;
  }

  lemma FreeGrows(net: Network, early: Dates, late: Dates, free: Dates, key: Id, value: int)
    requires FreeSoFar(net, early, late, free) && key in net && key !in free
    requires FreeAt(net, early, late, free[key := value], key)
    ensures FreeSoFar(net, early, late, free[key := value])
  {
    forall k | k in free && k != key ensures FreeAt(net, early, late, free[key := value], k) {
      assert FreeAt(net, early, late, free, k);
    }
  }

  /** The free float of one activity, computed and stored. */
  method FreeOne(keys: seq<Id>, nodes: NodeMap, i: nat, ghost net: Network, ghost early: Dates, ghost late: Dates, ghost free: Dates)
    returns (ghost more: Dates)
    requires Represents(keys, nodes, net) && StoredEarly(nodes, early) && StoredLate(nodes, late) && i < |keys|
    requires FreeStored(nodes, free) && FreeSoFar(net, early, late, free)
    requires forall k :: k in free <==> k in keys[..i]
    modifies nodes.Values`freeFloat
    ensures FreeStored(nodes, more) && FreeSoFar(net, early, late, more)
    ensures forall k :: k in more <==> k in keys[..i + 1]
  {
    var key := keys[i];
    TakeNextOne(keys, i);
    assert key in net && key !in keys[..i];
    SuccessorsAreFollowers(keys, net, key);
    var value := FreeFloatOf(nodes, key, net, early, late, free);
    SetFree(nodes[key], value, nodes, key, free);
    FreeGrows(net, early, late, free, key, value);
    more := free[key := value];
  }

  lemma FreeIsComplete(keys: seq<Id>, net: Network, early: Dates, late: Dates, free: Dates)
    requires Keyed(keys, net) && FreeSoFar(net, early, late, free) && forall k :: k in free <==> k in keys
    ensures Free(net, early, late, free)
  {}

  /** Stores the free float of every activity. */
  method FreeFloatPass(keys: seq<Id>, nodes: NodeMap, ghost finish: int, ghost net: Network, ghost early: Dates, ghost late: Dates)
    returns (ghost free: Dates)
    requires Represents(keys, nodes, net) && StoredEarly(nodes, early) && StoredLate(nodes, late)
    requires Early(net, early) && Late(net, finish, late)
    modifies nodes.Values`freeFloat
    ensures Free(net, early, late, free) && FreeStored(nodes, free)
  {
    hide FreeAt, EarlyAt, LateAt, Mirrors, Follows, WellFormed;
    free := map[];
    for i := 0 to |keys|
      invariant FreeStored(nodes, free) && FreeSoFar(net, early, late, free)
      invariant forall k :: k in free <==> k in keys[..i]
    {
      free := FreeOne(keys, nodes, i, net, early, late, free);
    }
    assert keys[..|keys|] == keys;
    FreeIsComplete(keys, net, early, late, free);
  }

  lemma SuccessorsAreFollowers(keys: seq<Id>, net: Network, key: Id)
    requires Keyed(keys, net)
    ensures forall s :: s in Successors(net, keys, key) <==> Follows(net, s, key)
  {
    forall s ensures s in Successors(net, keys, key) <==> Follows(net, s, key) {
      SuccessorsFollow(net, keys, key, s);
    }
  }
}
