/** When the reported project impact covers the growth of a re-run forward pass with the slips. */
module Coverage {
  import opened Basics
  import opened Networks
  import opened Schedules
  import opened Delays

  // ---------------------------------------------------------------- there is always a result

  /** The start the forward pass gives `k` once its predecessors have theirs. */
  function HeldStart(net: Network, start: Dates, k: Id, links: seq<Link>): (h: int)
    requires k in net && forall l :: l in links ==> l.activity in net && l.activity in start
    ensures h >= 0
    ensures forall l :: l in links ==> h >= start[l.activity] + Weight(net, k, l)
    ensures h == 0 || exists l :: l in links && h == start[l.activity] + Weight(net, k, l)
  {
    if links == [] then 0
    else
      var l := links[|links| - 1];
      Max(HeldStart(net, start, k, links[..|links| - 1]), start[l.activity] + Weight(net, k, l))
  }

  lemma {:induction false} EarlyUpTo(net: Network, order: seq<Id>, i: nat) returns (start: Dates)
    requires WellFormed(net) && Topological(net, order) && i <= |order|
    ensures forall k :: k in start <==> k in order[..i]
    ensures forall k {:trigger EarlyAt(net, start, k)} :: k in start ==> EarlyAt(net, start, k)
  {
    if i == 0 {
      start := map[];
    } else {
      var before := EarlyUpTo(net, order, i - 1);
      var k := order[i - 1];
      assert order[..i] == order[..i - 1] + [k];
      assert k !in before;
      start := before[k := HeldStart(net, before, k, net[k].predecessors)];
      forall j | j in start ensures EarlyAt(net, start, j) {
        if j != k { assert EarlyAt(net, before, j); }
      }
    }
  }

  lemma EarlyExists(net: Network, order: seq<Id>) returns (start: Dates)
    requires WellFormed(net) && Topological(net, order)
    ensures Early(net, start)
  {
    start := EarlyUpTo(net, order, |order|);
    assert order[..|order|] == order;
  }

  lemma PushedAgrees(net: Network, slip: map<Id, nat>, free: Dates, a: Dates, b: Dates, k: Id)
    requires k in net && k in slip && k in free && k in a && k in b && a[k] == b[k]
    requires PushedAt(net, slip, free, a, k)
    requires forall l :: l in net[k].predecessors ==> l.activity in a && l.activity in b && a[l.activity] == b[l.activity]
    ensures PushedAt(net, slip, free, b, k)
  {
    IncomingAgrees(net[k].predecessors, a, b);
  }

  lemma PushedNew(net: Network, slip: map<Id, nat>, free: Dates, pushed: Dates, k: Id, value: int)
    requires k in net && k in slip && k in free
    requires forall l :: l in net[k].predecessors ==> l.activity in pushed && l.activity != k
    requires value == Max(0, Incoming(net[k].predecessors, pushed) + slip[k] - free[k])
    ensures PushedAt(net, slip, free, pushed[k := value], k)
  {
    var links, more := net[k].predecessors, pushed[k := value];
    assert forall l :: l in links ==> l.activity in more && more[l.activity] == pushed[l.activity];
    IncomingAgrees(links, pushed, more);
  }

  lemma PushedStep(net: Network, slip: map<Id, nat>, free: Dates, before: Dates, k: Id) returns (pushed: Dates)
    requires slip.Keys == free.Keys == net.Keys && before.Keys <= net.Keys && k in net && k !in before
    requires forall l :: l in net[k].predecessors ==> l.activity in before
    requires forall j {:trigger PushedAt(net, slip, free, before, j)} :: j in before ==> PushedAt(net, slip, free, before, j)
    ensures pushed.Keys == before.Keys + {k}
    ensures forall j {:trigger PushedAt(net, slip, free, pushed, j)} :: j in pushed ==> PushedAt(net, slip, free, pushed, j)
  {
    hide Incoming;
    pushed := before[k := Max(0, Incoming(net[k].predecessors, before) + slip[k] - free[k])];
    PushedNew(net, slip, free, before, k, pushed[k]);
    forall j | j in before ensures PushedAt(net, slip, free, pushed, j) {
      assert PushedAt(net, slip, free, before, j);
      PushedAgrees(net, slip, free, before, pushed, j);
    }
  }

  lemma {:induction false} PushedUpTo(net: Network, order: seq<Id>, slip: map<Id, nat>, free: Dates, i: nat) returns (pushed: Dates)
    requires WellFormed(net) && Topological(net, order) && slip.Keys == free.Keys == net.Keys && i <= |order|
    ensures forall k :: k in pushed <==> k in order[..i]
    ensures forall k {:trigger PushedAt(net, slip, free, pushed, k)} :: k in pushed ==> PushedAt(net, slip, free, pushed, k)
  {
    hide PushedAt;
    if i == 0 {
      pushed := map[];
    } else {
      var before := PushedUpTo(net, order, slip, free, i - 1);
      var k := order[i - 1];
      assert order[..i] == order[..i - 1] + [k] && k !in before;
      pushed := PushedStep(net, slip, free, before, k);
    }
  }

  lemma PushedExists(net: Network, order: seq<Id>, slip: map<Id, nat>, free: Dates) returns (pushed: Dates)
    requires WellFormed(net) && Topological(net, order) && slip.Keys == free.Keys == net.Keys
    ensures Pushed(net, slip, free, pushed)
  {
    pushed := PushedUpTo(net, order, slip, free, |order|);
    assert order[..|order|] == order;
  }

  // ---------------------------------------------------------------- a structural condition

  /** Obeying some link out of `k` makes the successor finish no earlier than `k`. */
  ghost predicate FinishCarried(net: Network, k: Id)
    requires k in net
  {
    exists s, l :: s in net && l in net[s].predecessors && l.activity == k
                   && Weight(net, s, l) + net[s].duration >= net[k].duration
  }

  /** Every activity that has successors hands its finish on to one of them. With
      finish-to-start links this excludes only leads longer than the successor. */
  ghost predicate FinishesCarried(net: Network) {
    forall k :: k in net && !Terminal(net, k) ==> FinishCarried(net, k)
  }

  lemma FreeWithinFinishes(net: Network, early: Dates, late: Dates, free: Dates, k: Id, s: Id, l: Link)
    requires early.Keys == late.Keys == free.Keys == net.Keys && k in net && s in net
    requires l in net[s].predecessors && l.activity == k && Weight(net, s, l) + net[s].duration >= net[k].duration
    requires l.lag <= FirstLink(net[s].predecessors, k).lag
    requires EarlyAt(net, early, s) && FreeAt(net, early, late, free, k)
    ensures free[k] <= early[s] + net[s].duration - (early[k] + net[k].duration)
  {
    assert Follows(net, s, k);
    assert free[k] <= Max(0, Gap(net, early, k, s));
  }

  lemma {:induction false} SlackPathFrom(net: Network, order: seq<Id>, early: Dates, finish: int, late: Dates, free: Dates, i: nat)
    returns (path: seq<Id>)
    requires WellFormed(net) && FirstLinkBinds(net) && FinishesCarried(net) && Topological(net, order) && i < |order|
    requires Early(net, early) && Late(net, finish, late) && Free(net, early, late, free)
    ensures SlackPath(net, early, free, finish, order[i], path)
    decreases |order| - i
  {
    var k := order[i];
    assert LateAt(net, finish, late, k) && FreeAt(net, early, late, free, k);
    if Terminal(net, k) {
      path := [k];
      assert Slack(path[1..], free) == 0;
    } else {
      var s, l :| s in net && l in net[s].predecessors && l.activity == k
                  && Weight(net, s, l) + net[s].duration >= net[k].duration;
      assert Follows(net, s, k);
      SuccessorIsLater(net, order, k, s, i);
      var j :| i < j < |order| && order[j] == s;
      assert EarlyAt(net, early, s);
      FreeWithinFinishes(net, early, late, free, k, s, l);
      var rest := SlackPathFrom(net, order, early, finish, late, free, j);
      PathGrows(net, k, rest);
      path := [k] + rest;
      assert path[1..] == rest;
    }
  }

  lemma CarriedFinishesFit(net: Network, order: seq<Id>, early: Dates, finish: int, late: Dates, free: Dates)
    requires WellFormed(net) && FirstLinkBinds(net) && FinishesCarried(net) && Topological(net, order)
    requires Early(net, early) && Late(net, finish, late) && Free(net, early, late, free)
    ensures SlackFits(net, early, free, finish)
  {
    forall k | k in net ensures SlackFitsAt(net, early, free, finish, k) {
      var i :| 0 <= i < |order| && order[i] == k;
      var path := SlackPathFrom(net, order, early, finish, late, free, i);
    }
  }

  /** For every mix of link types in which finishes are handed on, the reported impact
      is never smaller than the growth of the project. */
  lemma ImpactIsNeverTooSmall(net: Network, order: seq<Id>, slip: map<Id, nat>, early: Dates, finish: int, late: Dates,
                              free: Dates, pushed: Dates, impact: int, again: Dates, newFinish: int)
    requires WellFormed(net) && FirstLinkBinds(net) && FinishesCarried(net) && Topological(net, order)
    requires Early(net, early) && ProjectFinish(net, early, finish) && Late(net, finish, late)
    requires Free(net, early, late, free) && Pushed(net, slip, free, pushed) && Impact(net, pushed, impact)
    requires Early(Slipped(net, slip), again) && ProjectFinish(Slipped(net, slip), again, newFinish)
    ensures newFinish - finish <= impact
  {
    CarriedFinishesFit(net, order, early, finish, late, free);
    ImpactCoversGrowth(net, order, slip, early, finish, late, free, pushed, impact, again, newFinish);
  }

  // ---------------------------------------------------------------- the exact condition where first links bind

  /** No link is driven by the finish of its successor. */
  ghost predicate StartDriven(net: Network) {
    forall k, l :: k in net && l in net[k].predecessors ==> l.kind != FF && l.kind != SF
  }

  /** Without such links, longer durations never let anything start earlier. */
  lemma SlippedStartsLater(net: Network, order: seq<Id>, slip: map<Id, nat>, early: Dates, again: Dates)
    requires WellFormed(net) && StartDriven(net) && Topological(net, order) && slip.Keys == net.Keys
    requires Early(net, early) && Early(Slipped(net, slip), again)
    ensures forall k :: k in net ==> early[k] <= again[k]
  {
    assert Feasible(net, again) by {
      EarlyIsFeasible(Slipped(net, slip), again);
      forall k, l | k in net && l in net[k].predecessors ensures Honours(net, again, k, l) {
        assert Honours(Slipped(net, slip), again, k, l);
      }
    }
    EarlyIsBelow(net, order, early, again, |order|);
    assert order[..|order|] == order;
  }

  /** One activity late by `amount`, all others on time. */
  function Only(net: Network, k: Id, amount: nat): map<Id, nat> {
    map j | j in net :: if j == k then amount else 0
  }

  lemma {:induction false} SlackOfSnoc(path: seq<Id>, k: Id, free: Dates)
    requires k in free && forall j :: j in path ==> j in free
    ensures forall j :: j in path + [k] ==> j in free
    ensures Slack(path + [k], free) == Slack(path, free) + free[k]
  {
    if path != [] {
      SlackOfSnoc(path[1..], k, free);
      assert (path + [k])[1..] == path[1..] + [k];
    } else {
      assert (path + [k])[1..] == [];
    }
  }

  lemma {:induction false} OnlyCarries(net: Network, path: seq<Id>, k: Id, amount: nat, free: Dates, a: nat)
    requires Distinct(path) && free.Keys == net.Keys && (forall j :: j in path ==> j in net && free[j] >= 0)
    requires k in path ==> a < |path| && path[a] == k
    ensures k !in path ==> Carried(path, Only(net, k, amount), free) <= 0
    ensures k in path ==> Carried(path, Only(net, k, amount), free) <= amount - Slack(path[a..], free)
  {
    if path != [] {
      var front := path[..|path| - 1];
      var n := |path| - 1;
      if k in path && a == n {
        assert k !in front;
        OnlyCarries(net, front, k, amount, free, 0);
        assert path[a..] == [k] && path[a..][1..] == [];
      } else {
        if k in path {
          assert front[a] == k;
          SlackOfSnoc(front[a..], path[n], free);
          assert path[a..] == front[a..] + [path[n]];
        }
        OnlyCarries(net, front, k, amount, free, a);
      }
    }
  }

  /** A late `k` that reaches the end does so over a path whose slack is short of the
      amount by at least the impact. */
  lemma ImpactOfOnly(net: Network, order: seq<Id>, k: Id, amount: nat, free: Dates, pushed: Dates, impact: int)
    returns (path: seq<Id>)
    requires WellFormed(net) && Topological(net, order) && k in net
    requires Pushed(net, Only(net, k, amount), free, pushed) && Impact(net, pushed, impact) && impact > 0
    requires forall j :: j in net ==> free[j] >= 0
    ensures Path(net, path) && path[0] == k && Terminal(net, Last(path)) && Slack(path, free) <= amount - impact
  {
    var t :| t in net && Terminal(net, t) && pushed[t] == impact;
    var i :| 0 <= i < |order| && order[i] == t;
    var whole := SomePathCarriesIt(net, order, Only(net, k, amount), free, pushed, i);
    PathIsDistinct(net, order, whole);
    if k !in whole {
      OnlyCarries(net, whole, k, amount, free, 0);
      assert false;
    }
    var a: nat :| a < |whole| && whole[a] == k;
    OnlyCarries(net, whole, k, amount, free, a);
    SuffixIsPath(net, whole, a);
    path := whole[a..];
  }

  /** Where the slack does not fit, a late enough `k` alone makes the project grow by
      more than the reported impact. */
  lemma UncoveredSlip(net: Network, order: seq<Id>, early: Dates, finish: int, free: Dates, k: Id,
                      pushed: Dates, impact: int, again: Dates, newFinish: int)
    requires WellFormed(net) && StartDriven(net) && Topological(net, order) && k in net
    requires Early(net, early) && ProjectFinish(net, early, finish) && free.Keys == net.Keys
    requires (forall j :: j in net ==> free[j] >= 0) && !SlackFitsAt(net, early, free, finish, k)
    requires var slip := Only(net, k, finish - early[k] - net[k].duration + 1);
             && Pushed(net, slip, free, pushed) && Impact(net, pushed, impact)
             && Early(Slipped(net, slip), again) && ProjectFinish(Slipped(net, slip), again, newFinish)
    ensures impact < newFinish - finish
  {
    var amount := finish - early[k] - net[k].duration + 1;
    var slip := Only(net, k, amount);
    assert newFinish >= finish + 1 by {
      SlippedStartsLater(net, order, slip, early, again);
      assert k in Slipped(net, slip);
    }
    if impact > 0 {
      var path := ImpactOfOnly(net, order, k, amount, free, pushed, impact);
      assert SlackPath(net, early, free, finish, k, path);
    }
  }

  /** What the recursion reports for the slips. */
  ghost predicate Reported(net: Network, slip: map<Id, nat>, free: Dates, pushed: Dates, impact: int) {
    Pushed(net, slip, free, pushed) && Impact(net, pushed, impact)
  }

  /** What the forward pass gives with the slips. */
  ghost predicate Rerun(net: Network, slip: map<Id, nat>, again: Dates, newFinish: int)
    requires slip.Keys == net.Keys
  {
    Early(Slipped(net, slip), again) && ProjectFinish(Slipped(net, slip), again, newFinish)
  }

  lemma RunExists(net: Network, order: seq<Id>, slip: map<Id, nat>, free: Dates)
    returns (pushed: Dates, impact: int, again: Dates, newFinish: int)
    requires WellFormed(net) && Topological(net, order) && slip.Keys == free.Keys == net.Keys
    ensures Reported(net, slip, free, pushed, impact) && Rerun(net, slip, again, newFinish)
  {
    hide Topological, WellFormed, Impact, EarlyAt, PushedAt;
    pushed := PushedExists(net, order, slip, free);
    impact := ImpactExists(net, pushed);
    SlippedOrder(net, order, slip);
    again := EarlyExists(Slipped(net, slip), order);
    newFinish := FinishExists(Slipped(net, slip), again);
  }

  /** The impact covers the growth of the project for one set of slips. */
  ghost predicate Covers(net: Network, finish: int, free: Dates, slip: map<Id, nat>)
    requires slip.Keys == free.Keys == net.Keys
  {
    forall pushed, impact, again, newFinish ::
      Reported(net, slip, free, pushed, impact) && Rerun(net, slip, again, newFinish) ==> newFinish - finish <= impact
  }

  /** If the first link of each pair has its largest lag and no link is driven by its
      successor's finish: the impact covers the growth for all slips if and only if the slack
      fits, which the computed floats alone decide. */
  lemma CoversAllSlipsIffSlackFits(net: Network, order: seq<Id>, early: Dates, finish: int, late: Dates, free: Dates)
    requires WellFormed(net) && FirstLinkBinds(net) && StartDriven(net) && Topological(net, order)
    requires Early(net, early) && ProjectFinish(net, early, finish) && Free(net, early, late, free)
    requires forall j :: j in net ==> free[j] >= 0
    ensures (forall slip: map<Id, nat> :: slip.Keys == net.Keys ==> Covers(net, finish, free, slip))
            <==> SlackFits(net, early, free, finish)
  {
    assert early.Keys == free.Keys == net.Keys;
    hide Covers, SlackFits, Early, Topological, Free, FirstLinkBinds, StartDriven, ProjectFinish;
    if SlackFits(net, early, free, finish) {
      forall slip: map<Id, nat> | slip.Keys == net.Keys ensures Covers(net, finish, free, slip) {
        FittingSlackCovers(net, order, slip, early, finish, late, free);
      }
    } else {
      var slip := UnfitSlackUncovers(net, order, early, finish, free);
    }
  }

  lemma FittingSlackCovers(net: Network, order: seq<Id>, slip: map<Id, nat>, early: Dates, finish: int, late: Dates, free: Dates)
    requires WellFormed(net) && FirstLinkBinds(net) && Topological(net, order) && slip.Keys == net.Keys
    requires Early(net, early) && ProjectFinish(net, early, finish) && Free(net, early, late, free)
    requires SlackFits(net, early, free, finish)
    ensures Covers(net, finish, free, slip)
  {
    hide Pushed, Impact, Early, ProjectFinish, Topological, FirstLinkBinds, SlackFits, Free;
    forall pushed, impact, again, newFinish |
      Reported(net, slip, free, pushed, impact) && Rerun(net, slip, again, newFinish)
      ensures newFinish - finish <= impact
    {
      ImpactCoversGrowth(net, order, slip, early, finish, late, free, pushed, impact, again, newFinish);
    }
  }

  lemma UnfitSlackUncovers(net: Network, order: seq<Id>, early: Dates, finish: int, free: Dates) returns (slip: map<Id, nat>)
    requires WellFormed(net) && StartDriven(net) && Topological(net, order) && free.Keys == net.Keys
    requires Early(net, early) && ProjectFinish(net, early, finish) && forall j :: j in net ==> free[j] >= 0
    requires !SlackFits(net, early, free, finish)
    ensures slip.Keys == net.Keys && !Covers(net, finish, free, slip)
  {
    assert early.Keys == net.Keys;
    var k :| k in net && !SlackFitsAt(net, early, free, finish, k);
    slip := Only(net, k, finish - early[k] - net[k].duration + 1);
    var pushed, impact, again, newFinish := RunExists(net, order, slip, free);
    UncoveredSlip(net, order, early, finish, free, k, pushed, impact, again, newFinish);
  }

  lemma SlippedOrder(net: Network, order: seq<Id>, slip: map<Id, nat>)
    requires WellFormed(net) && Topological(net, order) && slip.Keys == net.Keys
    ensures WellFormed(Slipped(net, slip)) && Topological(Slipped(net, slip), order)
  {
    assert forall k :: k in net ==> Slipped(net, slip)[k].predecessors == net[k].predecessors;
  }

  lemma ImpactExists(net: Network, pushed: Dates) returns (impact: int)
    requires pushed.Keys == net.Keys
    ensures Impact(net, pushed, impact)
  {
    var ends := set k | k in net && Terminal(net, k);
    impact := 0;
    var seen: set<Id> := {};
    while ends - seen != {}
      invariant seen <= ends && impact >= 0
      invariant forall k :: k in seen ==> pushed[k] <= impact
      invariant impact == 0 || exists k :: k in seen && pushed[k] == impact
      decreases ends - seen
    {
      var k :| k in ends - seen;
      impact := Max(impact, pushed[k]);
      seen := seen + {k};
    }
  }

  lemma FinishExists(net: Network, start: Dates) returns (finish: int)
    requires start.Keys == net.Keys
    ensures ProjectFinish(net, start, finish)
  {
    if |net| == 0 {
      finish := 0;
      assert net.Keys == {};
    } else {
      assert |net.Keys| > 0;
      var first :| first in net.Keys;
      finish := start[first] + net[first].duration;
      var seen := {first};
      while net.Keys - seen != {}
        invariant seen <= net.Keys
        invariant forall k :: k in seen ==> start[k] + net[k].duration <= finish
        invariant exists k :: k in seen && start[k] + net[k].duration == finish
        decreases net.Keys - seen
      {
        var k :| k in net.Keys - seen;
        finish := Max(finish, start[k] + net[k].duration);
        seen := seen + {k};
      }
    }
  }
}
