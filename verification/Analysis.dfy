/** The two services of the critical path analysis: computing all dates and floats of a
    schedule, and tracing its measured slips to the project finish. */
module Analysis {
  import opened Basics
  import opened Networks
  import opened Schedules
  import opened LateDates
  import opened Nodes
  import opened TopologicalSort
  import opened Passes

  /** Why there is no analysis, or the order it was made in. */
  datatype Outcome =
    | NoActivities
    | NoLogic(activities: nat)
    | Cyclic(cycle: seq<Id>)
    | Analysed(order: seq<Id>, finish: int)

  ghost predicate NoLinks(net: Network) {
    forall k :: k in net ==> net[k].predecessors == []
  }

  /** Dates and floats as one analysis computes them. */
  datatype Figures = Figures(finish: int, early: Dates, late: Dates, free: Dates)

  /** The figures are those of the network: both passes and the free floats. */
  ghost predicate FiguresOf(net: Network, f: Figures) {
    && Early(net, f.early) && ProjectFinish(net, f.early, f.finish)
    && Late(net, f.finish, f.late) && Free(net, f.early, f.late, f.free)
  }

  /** The nodes carry the figures. */
  ghost predicate Stored(nodes: NodeMap, f: Figures)
    reads nodes.Values`earlyStart, nodes.Values`earlyFinish, nodes.Values`lateStart, nodes.Values`lateFinish,
          nodes.Values`freeFloat
  {
    StoredEarly(nodes, f.early) && StoredLate(nodes, f.late) && FreeStored(nodes, f.free)
  }

  method CountLinked(keys: seq<Id>, nodes: NodeMap, ghost net: Network) returns (linked: nat)
    requires Represents(keys, nodes, net)
    ensures linked == 0 <==> NoLinks(net)
  {
    linked := 0;
    for i := 0 to |keys|
      invariant linked == 0 <==> forall j :: 0 <= j < i ==> net[keys[j]].predecessors == []
    {
      assert keys[i] in net;
      if nodes[keys[i]].predecessors != [] { linked := linked + 1; }
    }
  }

  method RunDates(keys: seq<Id>, nodes: NodeMap, order: seq<Id>, ghost net: Network)
    returns (finish: int, ghost early: Dates, ghost late: Dates)
    requires Represents(keys, nodes, net) && Topological(net, order)
    modifies nodes.Values`earlyStart, nodes.Values`earlyFinish, nodes.Values`lateStart, nodes.Values`lateFinish
    ensures StoredEarly(nodes, early) && Early(net, early)
    ensures ProjectFinish(net, early, finish)
    ensures StoredLate(nodes, late) && Late(net, finish, late)
  {
    hide *;
    early := ForwardPass(keys, nodes, order, net);
    finish := LatestFinish(keys, nodes, net, early);
    late := BackwardPass(keys, nodes, order, finish, net);
  }

  /** The forward pass, the backward pass and the free floats. */
  method RunPasses(keys: seq<Id>, nodes: NodeMap, order: seq<Id>, ghost net: Network)
    returns (finish: int, ghost early: Dates, ghost late: Dates, ghost free: Dates)
    requires Represents(keys, nodes, net) && Topological(net, order)
    modifies nodes.Values`earlyStart, nodes.Values`earlyFinish, nodes.Values`lateStart, nodes.Values`lateFinish,
             nodes.Values`freeFloat
    ensures StoredEarly(nodes, early) && Early(net, early)
    ensures ProjectFinish(net, early, finish)
    ensures StoredLate(nodes, late) && Late(net, finish, late)
    ensures Free(net, early, late, free) && FreeStored(nodes, free)
  {
    hide *;
    finish, early, late := RunDates(keys, nodes, order, net);
    free := FreeFloatPass(keys, nodes, finish, net, early, late);
  }

  /** Sorts the network and runs the passes, unless there is nothing to sort or a cycle. */
  method ComputeNodes(keys: seq<Id>, nodes: NodeMap, ghost net: Network) returns (outcome: Outcome, ghost f: Figures)
    requires Represents(keys, nodes, net)
    modifies nodes.Values`earlyStart, nodes.Values`earlyFinish, nodes.Values`lateStart, nodes.Values`lateFinish,
             nodes.Values`freeFloat
    ensures outcome.NoActivities? <==> net == map[]
    ensures outcome.NoLogic? <==> net != map[] && NoLinks(net)
    ensures outcome.NoLogic? ==> outcome.activities == |keys|
    ensures outcome.Cyclic? <==> HasCycle(net)
    ensures outcome.Cyclic? ==> forall k :: k in outcome.cycle <==> BehindCycle(net, k)
    ensures outcome.Analysed? ==> Topological(net, outcome.order)
    ensures outcome.Analysed? ==> Stored(nodes, f) && FiguresOf(net, f) && f.finish == outcome.finish
  {
    f := Figures(0, map[], map[], map[]);
    var linked := CountLinked(keys, nodes, net);
    if linked == 0 {
      NoLinksNoCycle(net);
      NoKeys(keys, net);
      outcome := if keys == [] then NoActivities else NoLogic(|keys|);
      return;
    }
    var order, cycle := TopologicalOrder(keys, nodes, net);
    if cycle != [] {
      outcome := Cyclic(cycle);
      return;
    }
    var finish;
    ghost var early, late, free;
    finish, early, late, free := RunPasses(keys, nodes, order, net);
    f := Figures(finish, early, late, free);
    outcome := Analysed(order, finish);
  }

  lemma NoKeys(keys: seq<Id>, net: Network)
    requires Keyed(keys, net)
    ensures keys == [] <==> net == map[]
    ensures |keys| == |net|
  {
    if keys != [] { assert keys[0] in net; }
    DistinctSize(keys);
    assert net.Keys == set k | k in keys;
    assert |net| == |net.Keys|;
  }

  lemma {:induction false} DistinctSize(keys: seq<Id>)
    requires Distinct(keys)
    ensures |set k | k in keys| == |keys|
  {
    if keys != [] {
      var front, last := keys[..|keys| - 1], keys[|keys| - 1];
      DistinctSize(front);
      assert keys == front + [last];
      assert (set k | k in keys) == (set k | k in front) + {last};
    }
  }

  /** Runs both passes once, unless the schedule has no activities, no logic or a cycle. */
  method Compute(rows: seq<Row>)
    returns (keys: seq<Id>, nodes: NodeMap, warnings: seq<Warning>, outcome: Outcome, ghost f: Figures)
    ensures fresh(nodes.Values) && Represents(keys, nodes, NetworkOf(rows))
    ensures forall k :: k in nodes ==> nodes[k].slip == SlipsOf(rows)[k]
    ensures outcome.NoActivities? <==> rows == []
    ensures outcome.NoLogic? <==> rows != [] && NoLinks(NetworkOf(rows))
    ensures outcome.NoLogic? ==> outcome.activities == |keys|
    ensures outcome.Cyclic? <==> HasCycle(NetworkOf(rows))
    ensures outcome.Cyclic? ==> forall k :: k in outcome.cycle <==> BehindCycle(NetworkOf(rows), k)
    ensures outcome.Analysed? ==> Topological(NetworkOf(rows), outcome.order)
    ensures outcome.Analysed? ==> Stored(nodes, f) && FiguresOf(NetworkOf(rows), f) && f.finish == outcome.finish
  {
    hide Represents, FiguresOf, Stored, Topological, HasCycle, BehindCycle, Resolve, FirstRow, InRowOrder, BuiltFrom;
    if rows != [] { FirstRowIsKey(rows); }
    keys, nodes, warnings := BuildNetwork(rows);
    outcome, f := ComputeNodes(keys, nodes, NetworkOf(rows));
  }

  lemma FirstRowIsKey(rows: seq<Row>)
    requires rows != []
    ensures rows[0].id in NetworkOf(rows)
  {
    assert rows[0].id in Ids(rows);
  }

  lemma NoLinksNoCycle(net: Network)
    requires NoLinks(net)
    ensures !HasCycle(net)
  {
    forall w: seq<Id> | |w| >= 2 && w[0] == w[|w| - 1] ensures !Walk(net, w) {
      assert !Follows(net, w[0 + 1], w[0]);
    }
  }

  /** Where the longest chains agree, an activity is reported as critical exactly when it
      cannot start any later without moving the finish. */
  lemma CriticalIsStuck(keys: seq<Id>, nodes: NodeMap, net: Network, order: seq<Id>, f: Figures, k: Id)
    requires Represents(keys, nodes, net) && Topological(net, order) && ChainsAgree(net) && k in net
    requires FiguresOf(net, f) && Stored(nodes, f)
    ensures k in nodes && (nodes[k].IsCritical() <==> !CanStartAt(net, k, f.early[k] + 1, f.finish))
  {
    assert WellFormed(net);
    CriticalCannotMove(net, order, f.finish, f.early, f.late, k);
  }
}
