/** The equations both passes and the free floats establish, and what follows for the early dates. */
module Schedules {
  import opened Basics
  import opened Networks

  /** How much later than `l.activity` the link makes `k` start. */
  function Weight(net: Network, k: Id, l: Link): int
    requires k in net && l.activity in net
  {
    match l.kind
    case SS => l.lag
    case FF => net[l.activity].duration + l.lag - net[k].duration
    case SF => l.lag - net[k].duration
    case _ => net[l.activity].duration + l.lag
  }

  lemma HonoursIsWeight(net: Network, start: Dates, k: Id, l: Link)
    requires k in net && k in start && l.activity in net && l.activity in start
    ensures Honours(net, start, k, l) <==> start[k] >= start[l.activity] + Weight(net, k, l)
  {}

  // ---------------------------------------------------------------- early dates

  /** The forward pass has settled `k`: nothing holds it back that it does not obey,
      and it starts at 0 or is held by some link. `start` may cover part of the network. */
  ghost predicate EarlyAt(net: Network, start: Dates, k: Id)
    requires k in net && k in start
  {
    && start[k] >= 0
    && (forall l :: l in net[k].predecessors ==>
          l.activity in net && l.activity in start && start[k] >= start[l.activity] + Weight(net, k, l))
    && (start[k] == 0 || exists l :: l in net[k].predecessors && l.activity in net && l.activity in start
                                     && start[k] == start[l.activity] + Weight(net, k, l))
  }

  ghost predicate Early(net: Network, start: Dates) {
    start.Keys == net.Keys && forall k {:trigger EarlyAt(net, start, k)} :: k in net ==> EarlyAt(net, start, k)
  }

  lemma EarlyIsFeasible(net: Network, start: Dates)
    requires Early(net, start)
    ensures Feasible(net, start)
  {
    forall k | k in net ensures EarlyAt(net, start, k) {}
    forall k, l | k in net && l in net[k].predecessors && l.activity in net
      ensures Honours(net, start, k, l)
    {
      assert EarlyAt(net, start, k);
      HonoursIsWeight(net, start, k, l);
    }
  }

  lemma EarlyStep(net: Network, early: Dates, s: Dates, k: Id)
    requires early.Keys == s.Keys == net.Keys && k in net && Feasible(net, s) && EarlyAt(net, early, k)
    requires forall l :: l in net[k].predecessors ==> early[l.activity] <= s[l.activity]
    ensures early[k] <= s[k]
  {
    if early[k] != 0 {
      var l :| l in net[k].predecessors && l.activity in net && early[k] == early[l.activity] + Weight(net, k, l);
      HonoursIsWeight(net, s, k, l);
    }
  }

  /** Any feasible start is no earlier, by induction along the order. */
  lemma {:induction false} EarlyIsBelow(net: Network, order: seq<Id>, early: Dates, s: Dates, i: nat)
    requires Topological(net, order) && Early(net, early) && Feasible(net, s) && i <= |order|
    ensures forall k :: k in order[..i] ==> early[k] <= s[k]
  {
    hide Honours, Weight, Distinct;
    if i > 0 {
      EarlyIsBelow(net, order, early, s, i - 1);
      var k := order[i - 1];
      assert EarlyAt(net, early, k);
      EarlyStep(net, early, s, k);
      assert order[..i] == order[..i - 1] + [k];
    }
  }

  /** For every link type and lags of either sign, the forward pass yields the least
      schedule of the network. */
  lemma EarlyIsLeast(net: Network, order: seq<Id>, early: Dates)
    requires Topological(net, order) && Early(net, early)
    ensures Least(net, early)
  {
    EarlyIsFeasible(net, early);
    forall s | Feasible(net, s) ensures Below(early, s) {
      EarlyIsBelow(net, order, early, s, |order|);
      assert order[..|order|] == order;
    }
  }

  // ---------------------------------------------------------------- late dates

  /** The link the backward pass and the free float read for a pair: the first one. */
  function FirstLink(links: seq<Link>, p: Id): (r: Link)
    requires exists l :: l in links && l.activity == p
    ensures r in links && r.activity == p
  {
    if links[0].activity == p then links[0] else FirstLink(links[1..], p)
  }

  /** The latest finish of `k` that the backward pass grants it for its successor `s`. */
  ghost function LateBound(net: Network, late: Dates, k: Id, s: Id): int
    requires Follows(net, s, k) && s in late
  {
    var l := FirstLink(net[s].predecessors, k);
    if l.kind == FS then late[s] - l.lag else late[s] + net[s].duration
  }

  ghost predicate LateAt(net: Network, finish: int, late: Dates, k: Id)
    requires k in net && k in late
  {
    var lateFinish := late[k] + net[k].duration;
    if Terminal(net, k) then lateFinish == finish
    else
      && (forall s :: Follows(net, s, k) ==> s in late && lateFinish <= LateBound(net, late, k, s))
      && (exists s :: Follows(net, s, k) && s in late && lateFinish == LateBound(net, late, k, s))
  }

  ghost predicate Late(net: Network, finish: int, late: Dates) {
    late.Keys == net.Keys && forall k {:trigger LateAt(net, finish, late, k)} :: k in net ==> LateAt(net, finish, late, k)
  }

  /** Finish-to-start links only, no lead longer than the successor it overlaps, and of
      several links between the same two activities the first is the binding one. One link
      a pair with non-negative lags is the plain case. */
  ghost predicate FinishToStart(net: Network) {
    forall k, l :: k in net && l in net[k].predecessors ==>
      && l.kind == FS
      && l.lag + net[k].duration >= 0
      && l.lag <= FirstLink(net[k].predecessors, l.activity).lag
  }

  lemma SuccessorIsLater(net: Network, order: seq<Id>, k: Id, s: Id, i: nat)
    requires Topological(net, order) && i < |order| && order[i] == k && Follows(net, s, k)
    ensures s in order[i + 1..]
  {
    var j :| 0 <= j < |order| && order[j] == s;
    var l :| l in net[s].predecessors && l.activity == k;
    assert k in order[..j];
    assert order[i + 1..][j - i - 1] == s;
  }

  // ---------------------------------------------------------------- free float

  /** Slack towards one successor, as the analysis measures it for every link type. */
  ghost function Gap(net: Network, early: Dates, k: Id, s: Id): int
    requires Follows(net, s, k) && s in early && k in net && k in early
  {
    early[s] - (early[k] + net[k].duration + FirstLink(net[s].predecessors, k).lag)
  }

  ghost predicate FreeAt(net: Network, early: Dates, late: Dates, free: Dates, k: Id)
    requires k in net && k in free && early.Keys == late.Keys == net.Keys
  {
    if Terminal(net, k) then free[k] == late[k] - early[k]
    else
      && (forall s :: Follows(net, s, k) ==> free[k] <= Max(0, Gap(net, early, k, s)))
      && (exists s :: Follows(net, s, k) && free[k] == Max(0, Gap(net, early, k, s)))
  }

  ghost predicate Free(net: Network, early: Dates, late: Dates, free: Dates) {
    && early.Keys == late.Keys == free.Keys == net.Keys
    && forall k {:trigger FreeAt(net, early, late, free, k)} :: k in net ==> FreeAt(net, early, late, free, k)
  }

  // ---------------------------------------------------------------- what floats are about

  /** Some schedule starts `k` no earlier than `start` and is done by `finish`. */
  ghost predicate CanStartAt(net: Network, k: Id, start: int, finish: int)
    requires k in net
  {
    exists s :: Feasible(net, s) && s[k] >= start && DoneBy(net, s, finish)
  }

  /** `k` alone moved by `delay`. */
  ghost function Moved(early: Dates, k: Id, delay: int): Dates
    requires k in early
  {
    early[k := early[k] + delay]
  }
}
