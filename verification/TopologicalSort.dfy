/** The topological sort of the schedule network. */
module TopologicalSort {
  import opened Basics
  import opened Networks
  import opened Kahn
  import opened Nodes

  /** The bookkeeping of the sort: `indegree` counts the links from outside `done`, less
      those of `crossed`, and exactly the activities at 0 are settled or queued. */
  ghost predicate Counting(net: Network, done: set<Id>, crossed: multiset<Id>, indegree: map<Id, int>, listed: seq<Id>) {
    && indegree.Keys == net.Keys && Distinct(listed)
    && (forall k :: k in net ==> indegree[k] == Open(net[k].predecessors, done) - crossed[k])
    && (forall k :: k in listed <==> k in net && indegree[k] == 0)
  }

  lemma CrossOff(net: Network, done: set<Id>, crossed: multiset<Id>, indegree: map<Id, int>, listed: seq<Id>, s: Id)
    requires Counting(net, done, crossed, indegree, listed) && s in net
    requires crossed[s] < Open(net[s].predecessors, done)
    ensures s in indegree
    ensures var fewer := indegree[s := indegree[s] - 1];
            Counting(net, done, crossed + multiset{s}, fewer, if fewer[s] == 0 then listed + [s] else listed)
  {
    assert s !in listed;
  }

  lemma CrossedOff(net: Network, keys: seq<Id>, done: set<Id>, key: Id, indegree: map<Id, int>, listed: seq<Id>)
    requires Distinct(keys) && (forall k :: k in keys <==> k in net) && key !in done
    requires Counting(net, done, multiset(Successors(net, keys, key)), indegree, listed)
    ensures Counting(net, done + {key}, multiset{}, indegree, listed)
  {
    forall k | k in net ensures indegree[k] == Open(net[k].predecessors, done + {key}) {
      SuccessorsCount(net, keys, key, k);
      OpenShrinks(net[k].predecessors, done, key);
    }
  }

  /** Activities without links, in schedule order. */
  method InitialQueue(keys: seq<Id>, nodes: NodeMap, ghost net: Network) returns (indegree: map<Id, int>, queue: seq<Id>)
    requires Mirrors(nodes, net) && Keyed(keys, net)
    ensures Counting(net, {}, multiset{}, indegree, queue)
  {
    indegree := map k | k in nodes :: |nodes[k].predecessors|;
    queue := [];
    for i := 0 to |keys|
      invariant Distinct(queue) && forall k :: k in queue <==> k in keys[..i] && indegree[k] == 0
    {
      hide Open, Distinct;
      assert keys[..i + 1] == keys[..i] + [keys[i]];
      if indegree[keys[i]] == 0 { queue := queue + [keys[i]]; }
    }
    assert keys[..|keys|] == keys;
    StartsCounting(net, indegree, queue);
  }

  lemma StartsCounting(net: Network, indegree: map<Id, int>, queue: seq<Id>)
    requires indegree.Keys == net.Keys && Distinct(queue)
    requires forall k :: k in net ==> indegree[k] == |net[k].predecessors|
    requires forall k :: k in queue <==> k in net && indegree[k] == 0
    ensures Counting(net, {}, multiset{}, indegree, queue)
  {
    forall k | k in net ensures indegree[k] == Open(net[k].predecessors, {}) { OpenStarts(net[k].predecessors); }
  }

  lemma PrefixGrows(s: seq<Id>, j: nat)
    requires j < |s|
    ensures multiset(s[..j + 1]) == multiset(s[..j]) + multiset{s[j]}
  {
    assert s[..j + 1] == s[..j] + [s[j]];
  }

  /** Crosses `key` off every successor's count and queues those that reach 0. */
  method Release(successors: seq<Id>, ghost net: Network, ghost keys: seq<Id>, ghost key: Id, ghost done: set<Id>,
                 ghost order: seq<Id>, indegree0: map<Id, int>, queue0: seq<Id>)
    returns (indegree: map<Id, int>, queue: seq<Id>)
    requires Distinct(keys) && (forall k :: k in keys <==> k in net) && key !in done
    requires successors == Successors(net, keys, key)
    requires Counting(net, done, multiset{}, indegree0, order + queue0)
    ensures Counting(net, done + {key}, multiset{}, indegree, order + queue)
  {
    hide *;
    indegree, queue := indegree0, queue0;
    ghost var crossed: multiset<Id>, listed := multiset{}, order + queue;
    for j := 0 to |successors|
      invariant crossed == multiset(successors[..j]) && listed == order + queue
      invariant Counting(net, done, crossed, indegree, listed)
    {
      var successor := successors[j];
      SuccessorStep(net, keys, key, done, successors, j);
      PrefixGrows(successors, j);
      CrossOff(net, done, crossed, indegree, listed, successor);
      crossed := crossed + multiset{successor};
      indegree := indegree[successor := indegree[successor] - 1];
      if indegree[successor] == 0 {
        queue := queue + [successor];
        listed := listed + [successor];
      }
    }
    assert successors[..|successors|] == successors;
    CrossedOff(net, keys, done, key, indegree, listed);
  }

  /** The activities left out of the order, in schedule order. */
  method Remainder(keys: seq<Id>, order: seq<Id>) returns (cycle: seq<Id>)
    ensures forall k :: k in cycle <==> k in keys && k !in order
  {
    cycle := [];
    for i := 0 to |keys|
      invariant forall k :: k in cycle <==> k in keys[..i] && k !in order
    {
      assert keys[..i + 1] == keys[..i] + [keys[i]];
      if keys[i] !in order { cycle := cycle + [keys[i]]; }
    }
    assert keys[..|keys|] == keys;
  }

  lemma TakeNext(net: Network, done: set<Id>, indegree: map<Id, int>, order: seq<Id>, queue: seq<Id>)
    requires Counting(net, done, multiset{}, indegree, order + queue) && queue != []
    requires (forall k :: k in done <==> k in order) && (forall k :: k in order ==> k in net) && PredecessorsFirst(net, order)
    ensures queue[0] in net && queue[0] !in done
    ensures order + queue == (order + [queue[0]]) + queue[1..]
    ensures PredecessorsFirst(net, order + [queue[0]])
  {
    var key := queue[0];
    assert (order + queue)[|order|] == key;
    assert forall i :: 0 <= i < |order| ==> (order + queue)[i] == order[i];
    OpenIsZero(net[key].predecessors, done);
    FirstStays(net, order, key);
  }

  lemma OrderIsComplete(net: Network, order: seq<Id>, done: set<Id>, indegree: map<Id, int>, cycle: seq<Id>)
    requires Counting(net, done, multiset{}, indegree, order) && WellFormed(net)
    requires (forall k :: k in done <==> k in order) && (forall k :: k in order ==> k in net) && PredecessorsFirst(net, order)
    requires forall k :: k in cycle <==> k in net && k !in order
    ensures forall k :: k in cycle <==> BehindCycle(net, k)
    ensures cycle == [] <==> !HasCycle(net)
    ensures cycle == [] ==> Topological(net, order)
  {
    hide Counting, Open, BehindCycle, HasCycle, WellFormed, PredecessorsFirst;
    forall k ensures k in cycle <==> BehindCycle(net, k) {
      LeftIffBehind(net, order, done, indegree, k);
    }
    CycleHasBehind(net);
    if cycle == [] {
      assert forall k :: k in net ==> k !in cycle;
      NothingLeft(net, order, done, indegree);
      if k :| BehindCycle(net, k) { assert k in cycle; }
    } else {
      BehindHasCycle(net, cycle[0]);
    }
  }

  lemma NothingLeft(net: Network, order: seq<Id>, done: set<Id>, indegree: map<Id, int>)
    requires Counting(net, done, multiset{}, indegree, order)
    requires (forall k :: k in net <==> k in order) && PredecessorsFirst(net, order)
    ensures Topological(net, order)
  {}

  lemma LeftIffBehind(net: Network, order: seq<Id>, done: set<Id>, indegree: map<Id, int>, k: Id)
    requires Counting(net, done, multiset{}, indegree, order) && WellFormed(net)
    requires (forall j :: j in done <==> j in order) && (forall j :: j in order ==> j in net) && PredecessorsFirst(net, order)
    ensures k in net && k !in order <==> BehindCycle(net, k)
  {
    if BehindCycle(net, k) { OrderedIsNotBehind(net, order, k); }
    if k in net && k !in order { LeftIsBehind(net, order, done, k); }
  }

  /** Kahn's algorithm: every activity at most once, each after its predecessors, and left
      over are exactly the activities behind a cycle. */
  method TopologicalOrder(keys: seq<Id>, nodes: NodeMap, ghost net: Network) returns (order: seq<Id>, cycle: seq<Id>)
    requires Represents(keys, nodes, net)
    ensures Distinct(order) && (forall k :: k in order ==> k in net) && PredecessorsFirst(net, order)
    ensures forall k :: k in cycle <==> k in net && k !in order
    ensures forall k :: k in cycle <==> BehindCycle(net, k)
    ensures cycle == [] <==> !HasCycle(net)
    ensures cycle == [] ==> Topological(net, order)
  {
    var indegree, queue := InitialQueue(keys, nodes, net);
    order := [];
    ghost var done: set<Id> := {};
    assert order + queue == queue;
    while queue != []
      invariant done <= net.Keys && (forall k :: k in done <==> k in order) && (forall k :: k in order ==> k in net)
      invariant Counting(net, done, multiset{}, indegree, order + queue) && PredecessorsFirst(net, order)
      decreases net.Keys - done
    {
      var key := queue[0];
      TakeNext(net, done, indegree, order, queue);
      order := order + [key];
      indegree, queue := Release(nodes[key].successors, net, keys, key, done, order, indegree, queue[1..]);
      done := done + {key};
    }
    assert order + queue == order;
    cycle := Remainder(keys, order);
    OrderIsComplete(net, order, done, indegree, cycle);
  }

  lemma FirstStays(net: Network, order: seq<Id>, key: Id)
    requires (forall k :: k in order ==> k in net) && PredecessorsFirst(net, order) && key in net
    requires forall l :: l in net[key].predecessors ==> l.activity in order
    ensures PredecessorsFirst(net, order + [key])
  {
    var longer := order + [key];
    forall i, l | 0 <= i < |longer| && l in net[longer[i]].predecessors ensures l.activity in longer[..i] {
      assert longer[..i] == order[..i];
      if i < |order| { assert l in net[order[i]].predecessors; } else { assert order[..i] == order; }
    }
  }

  /** Each entry of a successor list still has an open link when it is reached. */
  lemma SuccessorStep(net: Network, keys: seq<Id>, key: Id, done: set<Id>, successors: seq<Id>, j: nat)
    requires Distinct(keys) && (forall k :: k in keys <==> k in net)
    requires successors == Successors(net, keys, key) && j < |successors| && key !in done
    ensures successors[j] in net
    ensures multiset(successors[..j])[successors[j]] < Open(net[successors[j]].predecessors, done)
  {
    hide Count, Open, Successors, Distinct;
    var s := successors[j];
    SuccessorsCount(net, keys, key, s);
    assert successors == successors[..j] + [s] + successors[j + 1..];
    assert multiset(successors)[s] > multiset(successors[..j])[s];
    OpenShrinks(net[s].predecessors, done, key);
  }

  lemma LeftIsBehind(net: Network, order: seq<Id>, done: set<Id>, left: Id)
    requires WellFormed(net) && forall k :: k in done <==> k in order
    requires forall k :: k in net && k !in order ==> Open(net[k].predecessors, done) != 0
    requires left in net && left !in order
    ensures BehindCycle(net, left)
  {
    var stuck := net.Keys - done;
    forall s | s in stuck ensures StuckAt(net, stuck, s) {
      OpenIsZero(net[s].predecessors, done);
      var l :| l in net[s].predecessors && l.activity !in done;
      assert l.activity in stuck && Follows(net, s, l.activity);
    }
    StuckIsBehind(net, stuck, left);
  }
}
