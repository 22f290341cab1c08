/** Exactly when the reported impact covers the growth of a re-run, for all link types. */
module Chains {
  import opened Basics
  import opened Networks
  import opened Schedules
  import opened Delays
  import opened Coverage
  import opened Exactness

  /** A chain of links through the network, from an activity that starts at 0. */
  datatype Chain = First(activity: Id) | Onto(before: Chain, link: Link, activity: Id)

  /** The link passes on the finish of its predecessor, not only its start. */
  predicate HandsFinish(l: Link) { l.kind != SS && l.kind != SF }

  /** The link holds the finish of its successor, so that a longer duration starts earlier. */
  predicate HoldsFinish(l: Link) { l.kind == FF || l.kind == SF }

  predicate Held(c: Chain) { c.Onto? && HoldsFinish(c.link) }

  ghost predicate ChainOf(net: Network, c: Chain) {
    && c.activity in net
    && (c.Onto? ==> ChainOf(net, c.before) && c.link in net[c.activity].predecessors && c.link.activity == c.before.activity)
  }

  /** When the chain lets its last activity start. */
  ghost function Reach(net: Network, c: Chain): int
    requires ChainOf(net, c)
  {
    if c.First? then 0 else Reach(net, c.before) + Weight(net, c.activity, c.link)
  }

  ghost function ChainFinish(net: Network, c: Chain): int
    requires ChainOf(net, c)
  {
    Reach(net, c) + net[c.activity].duration
  }

  /** The activities whose slip moves the start of the last one. */
  function PlusAtStart(c: Chain): seq<Id>
    decreases c, 0
  {
    if c.First? then [] else if HandsFinish(c.link) then Plus(c.before) else PlusAtStart(c.before)
  }

  /** The activities whose slip moves the finish of the chain: those whose finish is handed
      on, unless a link holds it where it is. */
  function Plus(c: Chain): seq<Id>
    decreases c, 1
  {
    if Held(c) then PlusAtStart(c) else PlusAtStart(c) + [c.activity]
  }

  /** How much later the slips let the last activity start. */
  function Gained(c: Chain, slip: map<Id, nat>): int
    requires forall k :: k in Nodes(c) ==> k in slip
  {
    if c.First? then 0
    else
      Gained(c.before, slip) + (if HandsFinish(c.link) then slip[c.before.activity] else 0)
      - (if HoldsFinish(c.link) then slip[c.activity] else 0)
  }

  function Nodes(c: Chain): (r: seq<Id>)
    ensures c.activity in r
  {
    if c.First? then [c.activity] else Nodes(c.before) + [c.activity]
  }

  /** The activities whose finish a link of the chain holds. */
  function HeldNodes(c: Chain): set<Id> {
    (if c.First? then {} else HeldNodes(c.before)) + (if Held(c) then {c.activity} else {})
  }

  // ---------------------------------------------------------------- chains and the re-run

  lemma {:induction false} NodesAreIn(net: Network, c: Chain)
    requires ChainOf(net, c)
    ensures forall k :: k in Nodes(c) ==> k in net
  {
    if c.Onto? { NodesAreIn(net, c.before); }
  }

  lemma SlippedLink(net: Network, slip: map<Id, nat>, k: Id, l: Link)
    requires WellFormed(net) && slip.Keys == net.Keys && k in net && l in net[k].predecessors
    ensures Weight(Slipped(net, slip), k, l) ==
            Weight(net, k, l) + (if HandsFinish(l) then slip[l.activity] else 0) - (if HoldsFinish(l) then slip[k] else 0)
  {}

  /** No chain reaches further than the re-run start. */
  lemma {:induction false} NoChainReachesFurther(net: Network, slip: map<Id, nat>, again: Dates, c: Chain)
    requires WellFormed(net) && slip.Keys == net.Keys && Early(Slipped(net, slip), again) && ChainOf(net, c)
    ensures c.activity in again && (forall k :: k in Nodes(c) ==> k in slip)
    ensures Reach(net, c) + Gained(c, slip) <= again[c.activity]
  {
    assert EarlyAt(Slipped(net, slip), again, c.activity);
    NodesAreIn(net, c);
    if c.Onto? {
      NoChainReachesFurther(net, slip, again, c.before);
      SlippedLink(net, slip, c.activity, c.link);
    }
  }

  /** Some chain reaches exactly as far. */
  lemma {:induction false} SomeChainReaches(net: Network, order: seq<Id>, slip: map<Id, nat>, again: Dates, i: nat)
    returns (c: Chain)
    requires WellFormed(net) && Topological(net, order) && slip.Keys == net.Keys
    requires Early(Slipped(net, slip), again) && i < |order|
    ensures ChainOf(net, c) && c.activity == order[i] && order[i] in again && (forall k :: k in Nodes(c) ==> k in slip)
    ensures Reach(net, c) + Gained(c, slip) == again[order[i]]
  {
    var k := order[i];
    assert EarlyAt(Slipped(net, slip), again, k);
    if again[k] == 0 {
      c := First(k);
    } else {
      var l :| l in net[k].predecessors && again[k] == again[l.activity] + Weight(Slipped(net, slip), k, l);
      var j := PositionBefore(net, order, i, l);
      var before := SomeChainReaches(net, order, slip, again, j);
      c := Onto(before, l, k);
      SlippedLink(net, slip, k, l);
    }
  }

  // ---------------------------------------------------------------- what a chain gains

  lemma TotalAfter(keys: seq<Id>, k: Id, slip: map<Id, nat>)
    requires k in slip && forall j :: j in keys ==> j in slip
    ensures Total(keys + [k], slip) == Total(keys, slip) + slip[k]
  {
    assert (keys + [k])[..|keys|] == keys;
  }

  lemma {:induction false} PlusAreNodes(c: Chain)
    ensures forall k :: k in Plus(c) ==> k in Nodes(c)
    ensures forall k :: k in PlusAtStart(c) ==> c.Onto? && k in Nodes(c.before)
  {
    if c.Onto? { PlusAreNodes(c.before); }
  }

  /** Slips never gain a chain more than those of its `Plus`. */
  lemma {:induction false} GainedAtMost(c: Chain, slip: map<Id, nat>)
    requires forall k :: k in Nodes(c) ==> k in slip
    ensures (forall k :: k in Plus(c) ==> k in slip) && forall k :: k in PlusAtStart(c) ==> k in slip
    ensures Gained(c, slip) <= Total(PlusAtStart(c), slip)
    ensures Gained(c, slip) + slip[c.activity] <= Total(Plus(c), slip)
  {
    PlusAreNodes(c);
    TotalAfter(PlusAtStart(c), c.activity, slip);
    if c.Onto? { GainedAtMost(c.before, slip); }
  }

  /** They gain exactly that if no activity slips whose finish the chain holds. */
  lemma {:induction false} GainedWithoutHeld(c: Chain, slip: map<Id, nat>)
    requires forall k :: k in Nodes(c) ==> k in slip
    requires forall k :: k in Nodes(c) && k in HeldNodes(c) ==> slip[k] == 0
    ensures (forall k :: k in Plus(c) ==> k in slip) && forall k :: k in PlusAtStart(c) ==> k in slip
    ensures Gained(c, slip) == Total(PlusAtStart(c), slip)
    ensures Gained(c, slip) + slip[c.activity] == Total(Plus(c), slip)
  {
    PlusAreNodes(c);
    TotalAfter(PlusAtStart(c), c.activity, slip);
    if c.Onto? { GainedWithoutHeld(c.before, slip); }
  }

  /** The activities of a chain are distinct and in order. */
  lemma {:induction false} ChainAdvances(net: Network, order: seq<Id>, c: Chain, i: nat)
    requires Topological(net, order) && ChainOf(net, c) && i < |order| && order[i] == c.activity
    ensures forall k :: k in Nodes(c) ==> k in order[..i + 1]
    ensures c.Onto? ==> c.activity !in Nodes(c.before)
    ensures Distinct(Nodes(c))
  {
    if c.Onto? {
      var j := PositionBefore(net, order, i, c.link);
      ChainAdvances(net, order, c.before, j);
    }
  }

  lemma {:induction false} PlusIsDistinct(net: Network, order: seq<Id>, c: Chain)
    requires Topological(net, order) && ChainOf(net, c)
    ensures Distinct(Plus(c)) && Distinct(PlusAtStart(c))
    ensures forall k :: k in Plus(c) ==> k !in HeldNodes(c)
    ensures forall k :: k in HeldNodes(c) ==> k in Nodes(c)
  {
    var i := Position(net, order, c.activity);
    ChainAdvances(net, order, c, i);
    PlusAreNodes(c);
    if c.Onto? { PlusIsDistinct(net, order, c.before); }
  }

  // ---------------------------------------------------------------- sums over some activities

  /** Distinct activities, all but idle ones among `b`, slip no more than `b` does. */
  lemma {:induction false} TotalWithin(a: seq<Id>, b: seq<Id>, slip: map<Id, nat>)
    requires (forall k :: k in a ==> k in slip) && (forall k :: k in b ==> k in slip)
    requires Distinct(a) && forall k :: k in a && slip[k] > 0 ==> k in b
    ensures Total(a, slip) <= Total(b, slip)
  {
    if a != [] {
      var front, k := a[..|a| - 1], Last(a);
      assert a == front + [k];
      if k in b && slip[k] > 0 {
        var i :| 0 <= i < |b| && b[i] == k;
        var rest := b[..i] + b[i + 1..];
        TotalRemoves(b, i, slip);
        forall j | j in front && slip[j] > 0 ensures j in rest { var h :| 0 <= h < |b| && b[h] == j; }
        TotalWithin(front, rest, slip);
      } else {
        TotalWithin(front, b, slip);
      }
    }
  }

  /** The slip `amount` for each of `late`. */
  function Each(net: Network, late: seq<Id>, amount: nat): map<Id, nat> {
    map j | j in net :: if j in late then amount else 0
  }

  /** Distinct activities of which none is `missing` slip less than `late` by its slip. */
  lemma TotalWithout(net: Network, a: seq<Id>, late: seq<Id>, amount: nat, missing: Id)
    requires (forall k :: k in a ==> k in net) && (forall k :: k in late ==> k in net)
    requires Distinct(a) && missing in late && missing !in a
    ensures Total(a, Each(net, late, amount)) <= Total(late, Each(net, late, amount)) - amount
  {
    var slip := Each(net, late, amount);
    var i :| 0 <= i < |late| && late[i] == missing;
    var rest := late[..i] + late[i + 1..];
    TotalRemoves(late, i, slip);
    forall k | k in a && slip[k] > 0 ensures k in rest { var h :| 0 <= h < |late| && late[h] == k; }
    TotalWithin(a, rest, slip);
  }

  lemma TotalAtLeast(keys: seq<Id>, slip: map<Id, nat>, k: Id)
    requires (forall j :: j in keys ==> j in slip) && k in keys
    ensures Total(keys, slip) >= slip[k]
  {
    var i :| 0 <= i < |keys| && keys[i] == k;
    TotalRemoves(keys, i, slip);
  }

  lemma {:induction false} CarriedIsTotal(path: seq<Id>, slip: map<Id, nat>, free: Dates)
    requires forall k :: k in path ==> k in slip && k in free
    ensures Carried(path, slip, free) == Total(path, slip) - Slack(path, free)
  {
    if path != [] {
      var front, k := path[..|path| - 1], Last(path);
      CarriedIsTotal(front, slip, free);
      SlackOfSnoc(front, k, free);
      assert path == front + [k];
    }
  }

  // ---------------------------------------------------------------- growth and impact

  lemma {:induction false} NoChainIsLater(net: Network, early: Dates, finish: int, c: Chain)
    requires Early(net, early) && DoneBy(net, early, finish) && ChainOf(net, c)
    ensures Reach(net, c) <= early[c.activity] && ChainFinish(net, c) <= finish
  {
    assert EarlyAt(net, early, c.activity);
    if c.Onto? { NoChainIsLater(net, early, finish, c.before); }
  }

  lemma RunReachesChain(net: Network, slip: map<Id, nat>, again: Dates, newFinish: int, c: Chain)
    requires WellFormed(net) && slip.Keys == net.Keys && Rerun(net, slip, again, newFinish) && ChainOf(net, c)
    ensures (forall k :: k in Nodes(c) ==> k in slip) && ChainFinish(net, c) + Gained(c, slip) + slip[c.activity] <= newFinish
  {
    NoChainReachesFurther(net, slip, again, c);
    assert c.activity in Slipped(net, slip);
  }

  lemma ChainReachesRun(net: Network, order: seq<Id>, slip: map<Id, nat>, again: Dates, newFinish: int, some: Id)
    returns (c: Chain)
    requires WellFormed(net) && Topological(net, order) && slip.Keys == net.Keys && Rerun(net, slip, again, newFinish)
    requires some in net
    ensures ChainOf(net, c) && (forall k :: k in Nodes(c) ==> k in slip)
    ensures ChainFinish(net, c) + Gained(c, slip) + slip[c.activity] == newFinish
  {
    var k := LatestActivity(Slipped(net, slip), again, newFinish, some);
    var i := Position(net, order, k);
    c := SomeChainReaches(net, order, slip, again, i);
  }

  lemma ImpactCarries(net: Network, slip: map<Id, nat>, free: Dates, pushed: Dates, impact: int, path: seq<Id>)
    requires WellFormed(net) && Reported(net, slip, free, pushed, impact) && Path(net, path) && Terminal(net, Last(path))
    ensures (forall k :: k in path ==> k in slip && k in free) && impact >= Total(path, slip) - Slack(path, free)
  {
    NoPathCarriesMore(net, slip, free, pushed, path);
    CarriedIsTotal(path, slip, free);
  }

  lemma PathCarriesImpact(net: Network, order: seq<Id>, slip: map<Id, nat>, free: Dates, pushed: Dates, impact: int)
    returns (path: seq<Id>)
    requires WellFormed(net) && Topological(net, order) && Reported(net, slip, free, pushed, impact) && impact > 0
    ensures Path(net, path) && Terminal(net, Last(path)) && Distinct(path)
    ensures (forall k :: k in path ==> k in slip && k in free) && impact == Total(path, slip) - Slack(path, free)
  {
    var t :| t in net && Terminal(net, t) && pushed[t] == impact;
    var i := Position(net, order, t);
    path := SomePathCarriesIt(net, order, slip, free, pushed, i);
    CarriedIsTotal(path, slip, free);
    PathIsDistinct(net, order, path);
  }

  lemma {:induction false} SlackIsNonNegative(path: seq<Id>, free: Dates)
    requires forall k :: k in path ==> k in free && free[k] >= 0
    ensures Slack(path, free) >= 0
  {
    if path != [] { SlackIsNonNegative(path[1..], free); }
  }

  // ---------------------------------------------------------------- when the impact covers the growth

  /** The path to the end of the network passes all activities whose slip moves the chain,
      and holds no more free float than the chain leaves to the finish. */
  ghost predicate FitsBy(net: Network, free: Dates, finish: int, c: Chain, path: seq<Id>)
    requires ChainOf(net, c) && free.Keys == net.Keys
  {
    && Path(net, path) && Terminal(net, Last(path)) && (forall k :: k in Plus(c) ==> k in path)
    && Slack(path, free) <= finish - ChainFinish(net, c)
  }

  ghost predicate ChainFits(net: Network, free: Dates, finish: int, c: Chain)
    requires ChainOf(net, c) && free.Keys == net.Keys
  {
    exists path :: FitsBy(net, free, finish, c, path)
  }

  /** Every chain that some slip moves has such a path. */
  ghost predicate ChainsFit(net: Network, free: Dates, finish: int)
    requires free.Keys == net.Keys
  {
    forall c {:trigger ChainFits(net, free, finish, c)} :: ChainOf(net, c) && Plus(c) != [] ==> ChainFits(net, free, finish, c)
  }

  lemma FittingChainIsCovered(net: Network, order: seq<Id>, slip: map<Id, nat>, finish: int, free: Dates, pushed: Dates,
                              impact: int, c: Chain)
    requires WellFormed(net) && Topological(net, order) && free.Keys == net.Keys && slip.Keys == net.Keys
    requires Reported(net, slip, free, pushed, impact) && ChainOf(net, c) && ChainFits(net, free, finish, c)
    ensures (forall k :: k in Nodes(c) ==> k in slip)
    ensures ChainFinish(net, c) + Gained(c, slip) + slip[c.activity] - finish <= impact
  {
    var path :| FitsBy(net, free, finish, c, path);
    NodesAreIn(net, c);
    GainedAtMost(c, slip);
    PlusIsDistinct(net, order, c);
    ImpactCarries(net, slip, free, pushed, impact, path);
    TotalWithin(Plus(c), path, slip);
  }

  lemma UnmovedChainIsCovered(net: Network, slip: map<Id, nat>, early: Dates, finish: int, c: Chain)
    requires Early(net, early) && DoneBy(net, early, finish) && slip.Keys == net.Keys && ChainOf(net, c) && Plus(c) == []
    ensures (forall k :: k in Nodes(c) ==> k in slip)
    ensures ChainFinish(net, c) + Gained(c, slip) + slip[c.activity] <= finish
  {
    NodesAreIn(net, c);
    GainedAtMost(c, slip);
    NoChainIsLater(net, early, finish, c);
  }

  lemma FittingChainsCover(net: Network, order: seq<Id>, early: Dates, finish: int, free: Dates, slip: map<Id, nat>)
    requires WellFormed(net) && Topological(net, order) && Early(net, early) && ProjectFinish(net, early, finish)
    requires free.Keys == net.Keys && slip.Keys == net.Keys && ChainsFit(net, free, finish)
    ensures Covers(net, finish, free, slip)
  {
    hide Topological, WellFormed, EarlyAt, Gained, ChainOf, ChainFinish, ChainFits;
    forall pushed, impact, again, newFinish |
      Reported(net, slip, free, pushed, impact) && Rerun(net, slip, again, newFinish)
      ensures newFinish - finish <= impact
    {
      if some :| some in net {
        var c := ChainReachesRun(net, order, slip, again, newFinish, some);
        if Plus(c) == [] {
          UnmovedChainIsCovered(net, slip, early, finish, c);
        } else {
          FittingChainIsCovered(net, order, slip, finish, free, pushed, impact, c);
        }
      } else {
        NothingGrows(net, slip, early, finish, again, newFinish);
      }
    }
  }

  lemma NothingGrows(net: Network, slip: map<Id, nat>, early: Dates, finish: int, again: Dates, newFinish: int)
    requires early.Keys == slip.Keys == net.Keys && ProjectFinish(net, early, finish) && Rerun(net, slip, again, newFinish)
    requires forall k :: k !in net
    ensures finish == newFinish == 0
  {
    assert net.Keys == {} && |net| == |net.Keys|;
    assert |Slipped(net, slip)| == |Slipped(net, slip).Keys|;
  }

  /** Distinct activities that slip nearly as much as `late` include all of it. */
  lemma IncludesAll(net: Network, a: seq<Id>, late: seq<Id>, amount: nat)
    requires (forall k :: k in a ==> k in net) && (forall k :: k in late ==> k in net) && Distinct(a)
    requires Total(a, Each(net, late, amount)) > Total(late, Each(net, late, amount)) - amount
    ensures forall k :: k in late ==> k in a
    ensures Total(a, Each(net, late, amount)) <= Total(late, Each(net, late, amount))
  {
    forall k | k in late ensures k in a {
      if k !in a { TotalWithout(net, a, late, amount, k); }
    }
    TotalWithin(a, late, Each(net, late, amount));
  }

  /** Letting exactly `Plus` slip moves the chain by all of it. */
  lemma PlusMovesChain(net: Network, order: seq<Id>, c: Chain, amount: nat, again: Dates, newFinish: int)
    requires WellFormed(net) && Topological(net, order) && ChainOf(net, c) && Plus(c) != []
    requires Rerun(net, Each(net, Plus(c), amount), again, newFinish)
    ensures forall k :: k in Plus(c) ==> k in net
    ensures Total(Plus(c), Each(net, Plus(c), amount)) >= amount
    ensures ChainFinish(net, c) + Total(Plus(c), Each(net, Plus(c), amount)) <= newFinish
  {
    hide WellFormed, Topological, Rerun, ChainOf, ChainFinish, Plus, Gained, Total, Nodes, HeldNodes;
    var slip := Each(net, Plus(c), amount);
    NodesAreIn(net, c);
    PlusAreNodes(c);
    PlusIsDistinct(net, order, c);
    GainedWithoutHeld(c, slip);
    RunReachesChain(net, slip, again, newFinish, c);
    TotalAtLeast(Plus(c), slip, Plus(c)[0]);
  }

  /** By more than the chain leaves to the finish, it shows whether the chain fits. */
  lemma CoveredChainFits(net: Network, order: seq<Id>, finish: int, free: Dates, c: Chain, amount: nat,
                         pushed: Dates, impact: int, again: Dates, newFinish: int)
    requires WellFormed(net) && Topological(net, order)
    requires free.Keys == net.Keys && (forall k :: k in net ==> free[k] >= 0) && ChainOf(net, c) && Plus(c) != []
    requires amount == finish - ChainFinish(net, c) + 1
    requires Reported(net, Each(net, Plus(c), amount), free, pushed, impact)
    requires Rerun(net, Each(net, Plus(c), amount), again, newFinish) && newFinish - finish <= impact
    ensures ChainFits(net, free, finish, c)
  {
    hide WellFormed, Topological, Reported, Rerun, ChainOf, ChainFinish, Plus, Each, Total, Slack, Terminal, Walk;
    PlusMovesChain(net, order, c, amount, again, newFinish);
    var path := PathCarriesImpact(net, order, Each(net, Plus(c), amount), free, pushed, impact);
    SlackIsNonNegative(path, free);
    IncludesAll(net, path, Plus(c), amount);
    assert FitsBy(net, free, finish, c, path);
  }

  lemma CoveringChainsFit(net: Network, order: seq<Id>, early: Dates, finish: int, free: Dates)
    requires WellFormed(net) && Topological(net, order) && Early(net, early) && ProjectFinish(net, early, finish)
    requires free.Keys == net.Keys && forall k :: k in net ==> free[k] >= 0
    requires forall slip: map<Id, nat> :: slip.Keys == net.Keys ==> Covers(net, finish, free, slip)
    ensures ChainsFit(net, free, finish)
  {
    hide WellFormed, Topological, Reported, Rerun, ChainOf, ChainFinish, Plus, ChainFits;
    forall c | ChainOf(net, c) && Plus(c) != [] ensures ChainFits(net, free, finish, c) {
      NoChainIsLater(net, early, finish, c);
      var amount: nat := finish - ChainFinish(net, c) + 1;
      var slip := Each(net, Plus(c), amount);
      assert Covers(net, finish, free, slip);
      var pushed, impact, again, newFinish := RunExists(net, order, slip, free);
      CoveredChainFits(net, order, finish, free, c, amount, pushed, impact, again, newFinish);
    }
  }

  /** For every mix of link types, lags of either sign and repeated pairs: the impact covers
      the growth for all slips if and only if every chain fits. */
  lemma CoversAllSlipsIffChainsFit(net: Network, order: seq<Id>, early: Dates, finish: int, late: Dates, free: Dates)
    requires WellFormed(net) && Topological(net, order)
    requires Early(net, early) && ProjectFinish(net, early, finish) && Late(net, finish, late)
    requires Free(net, early, late, free)
    ensures (forall slip: map<Id, nat> :: slip.Keys == net.Keys ==> Covers(net, finish, free, slip))
            <==> ChainsFit(net, free, finish)
  {
    hide WellFormed, Topological, EarlyAt, LateAt, FreeAt, ProjectFinish, ChainsFit, Covers;
    FreeIsNonNegative(net, early, finish, late, free);
    if ChainsFit(net, free, finish) {
      forall slip: map<Id, nat> | slip.Keys == net.Keys ensures Covers(net, finish, free, slip) {
        FittingChainsCover(net, order, early, finish, free, slip);
      }
    }
    if forall slip: map<Id, nat> :: slip.Keys == net.Keys ==> Covers(net, finish, free, slip) {
      CoveringChainsFit(net, order, early, finish, free);
    }
  }
}
