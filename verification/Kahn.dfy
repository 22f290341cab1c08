/** Facts about links and cycles behind the topological sort: how many links of an
    activity are still open, the order of successor lists, and why an activity that the
    sort cannot reach lies behind a cycle. */
module Kahn {
  import opened Basics
  import opened Networks

  /** How many of `links` come from `p`. */
  function Count(links: seq<Link>, p: Id): nat {
    if links == [] then 0
    else Count(links[..|links| - 1], p) + (if links[|links| - 1].activity == p then 1 else 0)
  }

  /** How many of `links` come from outside `done`. */
  function Open(links: seq<Link>, done: set<Id>): nat {
    if links == [] then 0
    else Open(links[..|links| - 1], done) + (if links[|links| - 1].activity in done then 0 else 1)
  }

  function Repeat(k: Id, n: nat): seq<Id> { seq(n, _ => k) }

  /** The successor list of `p`: every activity of `keys` once per link it has to `p`. */
  function Successors(net: Network, keys: seq<Id>, p: Id): seq<Id>
    requires forall k :: k in keys ==> k in net
  {
    if keys == [] then []
    else
      var k := keys[|keys| - 1];
      Successors(net, keys[..|keys| - 1], p) + Repeat(k, Count(net[k].predecessors, p))
  }

  lemma {:induction false} OpenStarts(links: seq<Link>)
    ensures Open(links, {}) == |links|
  {
    if links != [] { OpenStarts(links[..|links| - 1]); }
  }

  lemma {:induction false} OpenShrinks(links: seq<Link>, done: set<Id>, p: Id)
    requires p !in done
    ensures Open(links, done + {p}) + Count(links, p) == Open(links, done)
  {
    if links != [] { OpenShrinks(links[..|links| - 1], done, p); }
  }

  lemma {:induction false} OpenIsZero(links: seq<Link>, done: set<Id>)
    ensures Open(links, done) == 0 <==> forall l :: l in links ==> l.activity in done
  {
    if links != [] {
      var front, last := links[..|links| - 1], links[|links| - 1];
      OpenIsZero(front, done);
      assert links == front + [last];
    }
  }

  lemma {:induction false} CountIsPositive(links: seq<Link>, p: Id)
    ensures Count(links, p) > 0 <==> exists l :: l in links && l.activity == p
  {
    if links != [] {
      var front, last := links[..|links| - 1], links[|links| - 1];
      CountIsPositive(front, p);
      assert links == front + [last];
      assert last in links;
      assert forall l :: l in front ==> l in links;
    }
  }

  lemma {:induction false} RepeatCounts(k: Id, n: nat, s: Id)
    ensures multiset(Repeat(k, n))[s] == if s == k then n else 0
  {
    if n > 0 {
      RepeatCounts(k, n - 1, s);
      assert Repeat(k, n) == Repeat(k, n - 1) + [k];
    }
  }

  /** A successor list names each activity as often as it links back. */
  lemma {:induction false} SuccessorsCount(net: Network, keys: seq<Id>, p: Id, s: Id)
    requires Distinct(keys) && forall k :: k in keys ==> k in net
    ensures multiset(Successors(net, keys, p))[s] == if s in keys then Count(net[s].predecessors, p) else 0
  {
    if keys != [] {
      var front, k := keys[..|keys| - 1], keys[|keys| - 1];
      assert keys == front + [k];
      SuccessorsCount(net, front, p, s);
      RepeatCounts(k, Count(net[k].predecessors, p), s);
      assert k !in front;
    }
  }

  lemma SuccessorsFollow(net: Network, keys: seq<Id>, p: Id, s: Id)
    requires Distinct(keys) && forall k :: k in keys <==> k in net
    ensures s in Successors(net, keys, p) <==> Follows(net, s, p)
  {
    SuccessorsCount(net, keys, p, s);
    if s in net { CountIsPositive(net[s].predecessors, p); }
    assert s in Successors(net, keys, p) <==> multiset(Successors(net, keys, p))[s] > 0;
  }

  // ---------------------------------------------------------------- cycles

  /** Every member of `stuck` has a predecessor in it. */
  ghost predicate Stuck(net: Network, stuck: set<Id>) {
    forall s {:trigger StuckAt(net, stuck, s)} :: s in stuck ==> StuckAt(net, stuck, s)
  }

  ghost predicate StuckAt(net: Network, stuck: set<Id>, s: Id) {
    exists p :: p in stuck && Follows(net, s, p)
  }

  lemma {:induction false} WalkBack(net: Network, stuck: set<Id>, s: Id, n: nat) returns (w: seq<Id>)
    requires Stuck(net, stuck) && s in stuck
    ensures |w| == n + 1 && Walk(net, w) && w[n] == s && forall k :: k in w ==> k in stuck
  {
    if n == 0 {
      w := [s];
    } else {
      var rest := WalkBack(net, stuck, s, n - 1);
      assert rest[0] in rest && StuckAt(net, stuck, rest[0]);
      var p :| p in stuck && Follows(net, rest[0], p);
      w := [p] + rest;
      forall i | 0 <= i < |w| - 1 ensures Follows(net, w[i + 1], w[i]) {
        if i > 0 { assert Follows(net, rest[i - 1 + 1], rest[i - 1]); }
      }
    }
  }

  lemma {:induction false} DistinctFits(w: seq<Id>, ids: set<Id>)
    requires Distinct(w) && forall k :: k in w ==> k in ids
    ensures |w| <= |ids|
  {
    if w != [] {
      var front, k := w[..|w| - 1], w[|w| - 1];
      assert w == front + [k];
      DistinctFits(front, ids - {k});
    }
  }

  lemma StretchIsWalk(net: Network, w: seq<Id>, i: nat, j: nat)
    requires Walk(net, w) && i <= j <= |w|
    ensures Walk(net, w[i..j])
  {
    var stretch := w[i..j];
    forall n | 0 <= n < |stretch| - 1 ensures Follows(net, stretch[n + 1], stretch[n]) {
      assert Follows(net, w[i + n + 1], w[i + n]);
    }
  }

  lemma RepeatedIsCycle(net: Network, w: seq<Id>, i: nat, j: nat)
    requires Walk(net, w) && i < j < |w| && w[i] == w[j]
    ensures HasCycle(net)
  {
    StretchIsWalk(net, w, i, j + 1);
    var loop := w[i..j + 1];
    assert loop[0] == loop[|loop| - 1];
  }

  lemma BehindHasCycle(net: Network, k: Id)
    requires BehindCycle(net, k)
    ensures HasCycle(net)
  {
    var w: seq<Id> :| w != [] && Walk(net, w) && w[|w| - 1] == k && !Distinct(w);
    var i, j :| 0 <= i < j < |w| && w[i] == w[j];
    RepeatedIsCycle(net, w, i, j);
  }

  lemma CycleHasBehind(net: Network)
    ensures HasCycle(net) ==> exists k :: BehindCycle(net, k)
  {
    if HasCycle(net) {
      var w: seq<Id> :| |w| >= 2 && w[0] == w[|w| - 1] && Walk(net, w);
      assert BehindCycle(net, w[|w| - 1]);
    }
  }

  /** Where every activity waits for another one, each lies behind a cycle. */
  lemma StuckIsBehind(net: Network, stuck: set<Id>, s: Id)
    requires Stuck(net, stuck) && s in stuck
    ensures BehindCycle(net, s)
  {
    hide Stuck, Walk;
    var w := WalkBack(net, stuck, s, |stuck|);
    assert !Distinct(w) by {
      if Distinct(w) { DistinctFits(w, stuck); }
    }
  }

  /** Going back from an ordered activity goes back in the order. */
  lemma {:induction false} WalkStaysAhead(net: Network, order: seq<Id>, w: seq<Id>, a: nat, b: nat, j: nat)
    returns (i: nat)
    requires (forall k :: k in order ==> k in net) && PredecessorsFirst(net, order) && Walk(net, w)
    requires a <= b < |w| && j < |order| && order[j] == w[b]
    ensures i < |order| && order[i] == w[a] && i + (b - a) <= j
  {
    if a == b {
      i := j;
    } else {
      assert Follows(net, w[b - 1 + 1], w[b - 1]);
      assert w[b - 1] in order[..j];
      var h :| 0 <= h < j && order[h] == w[b - 1];
      i := WalkStaysAhead(net, order, w, a, b - 1, h);
    }
  }

  /** No ordered activity lies behind a cycle. */
  lemma OrderedIsNotBehind(net: Network, order: seq<Id>, k: Id)
    requires Distinct(order) && (forall k :: k in order ==> k in net) && PredecessorsFirst(net, order)
    requires BehindCycle(net, k)
    ensures k in net && k !in order
  {
    hide PredecessorsFirst;
    var w: seq<Id> :| w != [] && Walk(net, w) && w[|w| - 1] == k && !Distinct(w);
    var a, b :| 0 <= a < b < |w| && w[a] == w[b];
    assert Follows(net, w[|w| - 2 + 1], w[|w| - 2]);
    if k in order {
      var j :| 0 <= j < |order| && order[j] == k;
      var later := WalkStaysAhead(net, order, w, b, |w| - 1, j);
      var earlier := WalkStaysAhead(net, order, w, a, b, later);
      assert false;
    }
  }

  /** An order of all activities leaves no room for a cycle. */
  lemma OrderedHasNoCycle(net: Network, order: seq<Id>)
    requires Topological(net, order)
    ensures !HasCycle(net)
  {
    CycleHasBehind(net);
    if k :| BehindCycle(net, k) {
      OrderedIsNotBehind(net, order, k);
      assert false;
    }
  }
}
