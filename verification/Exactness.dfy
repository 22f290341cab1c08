/** When the reported impact equals the growth of a re-run where first links bind, and the plain networks that are so. */
module Exactness {
  import opened Basics
  import opened Networks
  import opened Schedules
  import opened Delays
  import opened Coverage

  /** Links driven by the predecessor's finish only. */
  ghost predicate FinishDriven(net: Network) {
    forall k, l :: k in net && l in net[k].predecessors ==> l.kind == FS || l.kind == Unknown
  }

  /** The impact is the growth of the project for one set of slips. */
  ghost predicate Exact(net: Network, finish: int, free: Dates, slip: map<Id, nat>)
    requires slip.Keys == free.Keys == net.Keys
  {
    forall pushed, impact, again, newFinish ::
      Reported(net, slip, free, pushed, impact) && Rerun(net, slip, again, newFinish) ==> impact == newFinish - finish
  }

  /** The slack along a path: the sum of the gaps between its consecutive activities. */
  ghost function RouteGap(net: Network, early: Dates, path: seq<Id>): int
    requires Path(net, path) && early.Keys == net.Keys
  {
    if |path| == 1 then 0
    else
      var front := path[..|path| - 1];
      FrontIsPath(net, path);
      RouteGap(net, early, front) + Gap(net, early, Last(front), Last(path))
  }

  /** Along some path from `k` to `s` there is no more slack than `most`. */
  ghost predicate Route(net: Network, early: Dates, k: Id, s: Id, most: int)
    requires early.Keys == net.Keys
  {
    exists path :: RouteBy(net, early, k, s, most, path)
  }

  ghost predicate RouteBy(net: Network, early: Dates, k: Id, s: Id, most: int, path: seq<Id>)
    requires early.Keys == net.Keys
  {
    |path| > 1 && Path(net, path) && path[0] == k && Last(path) == s && RouteGap(net, early, path) <= most
  }

  /** Every successor of an activity can be reached, directly or not, with no more slack
      than the activity's free float. */
  ghost predicate EvenRoutes(net: Network, early: Dates, free: Dates)
    requires early.Keys == free.Keys == net.Keys
  {
    forall k, s {:trigger Follows(net, s, k)} :: k in net && Follows(net, s, k) ==> Route(net, early, k, s, free[k])
  }

  lemma FrontIsPath(net: Network, path: seq<Id>)
    requires Path(net, path) && |path| > 1
    ensures var front := path[..|path| - 1]; Path(net, front) && Follows(net, Last(path), Last(front))
  {
    var front := path[..|path| - 1];
    assert Follows(net, path[|path| - 2 + 1], path[|path| - 2]);
    forall i | 0 <= i < |front| - 1 ensures Follows(net, front[i + 1], front[i]) {
      assert Follows(net, path[i + 1], path[i]);
    }
  }

  lemma RouteGrows(net: Network, early: Dates, path: seq<Id>, k: Id)
    requires Path(net, path) && k in net && Follows(net, k, Last(path)) && early.Keys == net.Keys
    ensures Path(net, path + [k]) && RouteGap(net, early, path + [k]) == RouteGap(net, early, path) + Gap(net, early, Last(path), k)
  {
    var more := path + [k];
    assert more[..|more| - 1] == path;
    forall i | 0 <= i < |more| - 1 ensures Follows(net, more[i + 1], more[i]) {
      if i < |path| - 1 { assert Follows(net, path[i + 1], path[i]); }
    }
  }

  /** With such links no gap is negative. */
  lemma GapOfLink(net: Network, early: Dates, k: Id, s: Id)
    requires WellFormed(net) && FinishDriven(net) && k in net && Follows(net, s, k) && early.Keys == net.Keys && EarlyAt(net, early, s)
    ensures Gap(net, early, k, s) >= 0
  {
    assert FirstLink(net[s].predecessors, k) in net[s].predecessors;
  }

  // ---------------------------------------------------------------- even routes are enough

  /** How far the re-run moves a start. */
  ghost function Shift(early: Dates, again: Dates, k: Id): int
    requires k in early && k in again
  {
    again[k] - early[k]
  }

  /** A link passes on the shift and the slip, less the gap. */
  lemma LinkShifts(net: Network, slip: map<Id, nat>, early: Dates, again: Dates, k: Id, s: Id)
    requires WellFormed(net) && FinishDriven(net) && k in net && Follows(net, s, k)
    requires slip.Keys == early.Keys == again.Keys == net.Keys && EarlyAt(Slipped(net, slip), again, s)
    ensures Shift(early, again, s) >= Shift(early, again, k) + slip[k] - Gap(net, early, k, s)
  {
    var first := FirstLink(net[s].predecessors, k);
    assert again[s] >= again[k] + Weight(Slipped(net, slip), s, first);
  }

  /** So does a path: its end moves by at least what its first activity moves and slips,
      less the slack along it. */
  lemma {:induction false} RouteShifts(net: Network, slip: map<Id, nat>, early: Dates, again: Dates, path: seq<Id>)
    requires WellFormed(net) && FinishDriven(net) && Path(net, path) && |path| > 1
    requires slip.Keys == early.Keys == net.Keys && Early(Slipped(net, slip), again)
    ensures Last(path) in again && path[0] in again
    ensures Shift(early, again, Last(path)) >= Shift(early, again, path[0]) + slip[path[0]] - RouteGap(net, early, path)
  {
    var front, s := path[..|path| - 1], Last(path);
    FrontIsPath(net, path);
    assert EarlyAt(Slipped(net, slip), again, s);
    LinkShifts(net, slip, early, again, Last(front), s);
    if |front| > 1 { RouteShifts(net, slip, early, again, front); }
  }

  /** The re-run start of `k` is exactly its early start plus what arrives. */
  ghost predicate MovesExactly(net: Network, early: Dates, pushed: Dates, again: Dates, k: Id)
    requires k in net && k in early && k in again
  {
    && (forall l :: l in net[k].predecessors ==> l.activity in pushed)
    && again[k] == early[k] + Incoming(net[k].predecessors, pushed)
  }

  lemma RouteMoves(net: Network, slip: map<Id, nat>, early: Dates, free: Dates, pushed: Dates, again: Dates, p: Id, k: Id)
    requires WellFormed(net) && FinishDriven(net) && p in net && k in net
    requires slip.Keys == early.Keys == free.Keys == pushed.Keys == net.Keys && Early(Slipped(net, slip), again)
    requires Route(net, early, p, k, free[p]) && pushed[p] > 0
    requires PushedAt(net, slip, free, pushed, p) && MovesExactly(net, early, pushed, again, p)
    ensures k in again && again[k] >= early[k] + pushed[p]
  {
    hide Early, RouteGap, Incoming, FinishDriven, Path;
    var path :| RouteBy(net, early, p, k, free[p], path);
    RouteShifts(net, slip, early, again, path);
  }

  lemma StartMovesExactly(net: Network, slip: map<Id, nat>, early: Dates, free: Dates, pushed: Dates, again: Dates, k: Id)
    requires WellFormed(net) && FinishDriven(net) && k in net
    requires early.Keys == net.Keys && Pushed(net, slip, free, pushed) && Early(Slipped(net, slip), again)
    requires EvenRoutes(net, early, free)
    requires again.Keys == net.Keys && early[k] <= again[k] && MovesAtMost(net, early, pushed, again, k)
    requires forall l :: l in net[k].predecessors ==> MovesExactly(net, early, pushed, again, l.activity)
    ensures MovesExactly(net, early, pushed, again, k)
  {
    hide Early, EarlyAt, Route, Incoming, FinishDriven, PushedAt, Weight, Slipped, Gap, Path;
    var incoming := Incoming(net[k].predecessors, pushed);
    if incoming > 0 {
      var l :| l in net[k].predecessors && pushed[l.activity] == incoming;
      var p := l.activity;
      assert Follows(net, k, p) && PushedAt(net, slip, free, pushed, p) && MovesExactly(net, early, pushed, again, p);
      RouteMoves(net, slip, early, free, pushed, again, p, k);
    }
  }

  lemma {:induction false} StartsMoveExactly(net: Network, order: seq<Id>, slip: map<Id, nat>, early: Dates, free: Dates,
                                             pushed: Dates, again: Dates, i: nat)
    requires WellFormed(net) && FinishDriven(net) && Topological(net, order) && i <= |order|
    requires Pushed(net, slip, free, pushed) && early.Keys == net.Keys && EvenRoutes(net, early, free)
    requires Early(Slipped(net, slip), again) && again.Keys == net.Keys
    requires forall k :: k in net ==> early[k] <= again[k]
    requires forall k {:trigger MovesAtMost(net, early, pushed, again, k)} :: k in net ==> MovesAtMost(net, early, pushed, again, k)
    ensures forall k :: k in order[..i] ==> MovesExactly(net, early, pushed, again, k)
  {
    hide MovesAtMost, MovesExactly, Early, EarlyAt, EvenRoutes, PushedAt, FinishDriven;
    if i > 0 {
      StartsMoveExactly(net, order, slip, early, free, pushed, again, i - 1);
      var k := order[i - 1];
      assert order[..i] == order[..i - 1] + [k];
      assert MovesAtMost(net, early, pushed, again, k);
      StartMovesExactly(net, slip, early, free, pushed, again, k);
    }
  }

  lemma TerminalMovesExactly(net: Network, slip: map<Id, nat>, early: Dates, finish: int, late: Dates, free: Dates,
                             pushed: Dates, again: Dates, t: Id)
    requires t in net && Terminal(net, t)
    requires slip.Keys == early.Keys == late.Keys == free.Keys == pushed.Keys == again.Keys == net.Keys
    requires LateAt(net, finish, late, t) && FreeAt(net, early, late, free, t) && PushedAt(net, slip, free, pushed, t)
    requires MovesExactly(net, early, pushed, again, t)
    ensures pushed[t] == Max(0, again[t] + net[t].duration + slip[t] - finish)
  {}

  lemma GrowthIsNonNegative(net: Network, slip: map<Id, nat>, early: Dates, finish: int, again: Dates, newFinish: int)
    requires slip.Keys == early.Keys == again.Keys == net.Keys
    requires ProjectFinish(net, early, finish) && ProjectFinish(Slipped(net, slip), again, newFinish)
    requires forall k :: k in net ==> early[k] <= again[k]
    ensures finish <= newFinish
  {
    if |net| > 0 {
      var k :| k in net && early[k] + net[k].duration == finish;
      assert k in Slipped(net, slip);
    } else {
      assert |Slipped(net, slip).Keys| == |net.Keys|;
    }
  }

  lemma AllStartsMoveExactly(net: Network, order: seq<Id>, slip: map<Id, nat>, early: Dates, late: Dates,
                             free: Dates, pushed: Dates, again: Dates)
    requires WellFormed(net) && FirstLinkBinds(net) && FinishDriven(net) && Topological(net, order)
    requires Early(net, early) && Free(net, early, late, free) && Pushed(net, slip, free, pushed)
    requires Early(Slipped(net, slip), again) && EvenRoutes(net, early, free)
    ensures again.Keys == net.Keys && forall k :: k in net ==> early[k] <= again[k] && MovesExactly(net, early, pushed, again, k)
  {
    assert Slipped(net, slip).Keys == net.Keys;
    assert order[..|order|] == order;
    SlippedStartsLater(net, order, slip, early, again);
    StartsMoveAtMost(net, order, slip, early, late, free, pushed, again, |order|);
    StartsMoveExactly(net, order, slip, early, free, pushed, again, |order|);
  }

  lemma ImpactIsReached(net: Network, slip: map<Id, nat>, early: Dates, finish: int, late: Dates, free: Dates,
                        pushed: Dates, impact: int, again: Dates, newFinish: int)
    requires Late(net, finish, late) && Free(net, early, late, free) && Pushed(net, slip, free, pushed)
    requires Impact(net, pushed, impact) && impact > 0
    requires again.Keys == net.Keys && ProjectFinish(Slipped(net, slip), again, newFinish)
    requires forall k {:trigger MovesExactly(net, early, pushed, again, k)} :: k in net ==> MovesExactly(net, early, pushed, again, k)
    ensures impact <= newFinish - finish
  {
    var t :| t in net && Terminal(net, t) && pushed[t] == impact;
    assert LateAt(net, finish, late, t) && FreeAt(net, early, late, free, t) && PushedAt(net, slip, free, pushed, t);
    assert MovesExactly(net, early, pushed, again, t) && t in Slipped(net, slip);
    TerminalMovesExactly(net, slip, early, finish, late, free, pushed, again, t);
  }

  lemma EvenIsExact(net: Network, order: seq<Id>, slip: map<Id, nat>, early: Dates, finish: int, late: Dates,
                    free: Dates, pushed: Dates, impact: int, again: Dates, newFinish: int)
    requires WellFormed(net) && FirstLinkBinds(net) && FinishDriven(net) && Topological(net, order)
    requires Early(net, early) && ProjectFinish(net, early, finish) && Late(net, finish, late)
    requires Free(net, early, late, free) && Pushed(net, slip, free, pushed) && Impact(net, pushed, impact)
    requires Early(Slipped(net, slip), again) && ProjectFinish(Slipped(net, slip), again, newFinish)
    requires SlackFits(net, early, free, finish) && EvenRoutes(net, early, free)
    ensures impact == newFinish - finish
  {
    hide EarlyAt, LateAt, FreeAt, PushedAt, MovesExactly, MovesAtMost, SlackFitsAt, Route, Path, Gap, Weight;
    ImpactCoversGrowth(net, order, slip, early, finish, late, free, pushed, impact, again, newFinish);
    AllStartsMoveExactly(net, order, slip, early, late, free, pushed, again);
    if impact > 0 {
      ImpactIsReached(net, slip, early, finish, late, free, pushed, impact, again, newFinish);
    } else {
      GrowthIsNonNegative(net, slip, early, finish, again, newFinish);
    }
  }

  // ---------------------------------------------------------------- uneven routes are not

  /** Two late activities: `s` by `big` and `k` by `small`. */
  ghost function Two(net: Network, s: Id, big: nat, k: Id, small: nat): map<Id, nat>
    requires k in net
  {
    Only(net, s, big)[k := small]
  }

  /** The link that holds a re-run start passes on no more than shift and slip, less the gap. */
  lemma HoldingLinkShifts(net: Network, slip: map<Id, nat>, early: Dates, again: Dates, k: Id, l: Link)
    requires WellFormed(net) && FirstLinkBinds(net) && FinishDriven(net) && k in net && l in net[k].predecessors
    requires slip.Keys == early.Keys == again.Keys == net.Keys
    requires again[k] == again[l.activity] + Weight(Slipped(net, slip), k, l)
    ensures Follows(net, k, l.activity)
    ensures Shift(early, again, k) <= Shift(early, again, l.activity) + slip[l.activity] - Gap(net, early, l.activity, k)
  {
    assert Follows(net, k, l.activity);
    assert FirstLink(net[k].predecessors, l.activity) in net[k].predecessors;
  }

  lemma NoRouteBack(net: Network, order: seq<Id>, early: Dates, k: Id, most: int, path: seq<Id>)
    requires Topological(net, order) && k in net && early.Keys == net.Keys
    ensures !RouteBy(net, early, k, k, most, path)
  {
    if RouteBy(net, early, k, k, most, path) {
      var i := Position(net, order, k);
      WalkAdvances(net, order, path, 0, |path| - 1, i, i);
    }
  }

  lemma DirectRoute(net: Network, early: Dates, k: Id, s: Id, most: int)
    requires early.Keys == net.Keys && k in net && Follows(net, s, k) && Gap(net, early, k, s) <= most
    ensures RouteBy(net, early, k, s, most, [k, s])
  {
    RouteGrows(net, early, [k], s);
    assert [k] + [s] == [k, s];
  }

  lemma LongerRoute(net: Network, early: Dates, k: Id, p: Id, s: Id, path: seq<Id>, most: int, more: int)
    requires early.Keys == net.Keys && p in net && Follows(net, s, p) && RouteBy(net, early, k, p, most, path)
    requires most + Gap(net, early, p, s) <= more
    ensures RouteBy(net, early, k, s, more, path + [s])
  {
    RouteGrows(net, early, path, s);
  }

  lemma HeldByLink(net: Network, early: Dates, again: Dates, j: Id) returns (l: Link)
    requires j in net && j in early && j in again && EarlyAt(net, again, j) && early[j] >= 0 && Shift(early, again, j) > 0
    ensures l in net[j].predecessors && l.activity in net && l.activity in again
    ensures again[j] == again[l.activity] + Weight(net, j, l)
  {
    l :| l in net[j].predecessors && l.activity in net && again[j] == again[l.activity] + Weight(net, j, l);
  }

  /** Up to `s`, only what `k` slips moves anything, and only along routes from `k`. */
  lemma {:induction false} MovedIsOnRoute(net: Network, order: seq<Id>, early: Dates, again: Dates,
                                          s: Id, big: nat, k: Id, small: nat, h: nat, i: nat)
    returns (path: seq<Id>)
    requires WellFormed(net) && FirstLinkBinds(net) && FinishDriven(net) && Topological(net, order)
    requires Early(net, early) && k in net && Early(Slipped(net, Two(net, s, big, k, small)), again)
    requires i <= h < |order| && order[h] == s
    ensures again.Keys == net.Keys && order[i] in net
    ensures Shift(early, again, order[i]) > 0 ==>
              RouteBy(net, early, k, order[i], small - Shift(early, again, order[i]), path)
  {
    var slip, j := Two(net, s, big, k, small), order[i];
    var more := Slipped(net, slip);
    assert EarlyAt(net, early, j) && EarlyAt(more, again, j);
    path := [];
    if Shift(early, again, j) > 0 {
      var l := HeldByLink(more, early, again, j);
      var p := l.activity;
      var n := PositionBefore(net, order, i, l);
      var front := MovedIsOnRoute(net, order, early, again, s, big, k, small, h, n);
      assert p != s && slip[p] == if p == k then small else 0;
      HoldingLinkShifts(net, slip, early, again, j, l);
      GapOfLink(net, early, p, j);
      path := StepOnRoute(net, order, early, k, p, j, front, small, Shift(early, again, p), Shift(early, again, j));
    }
  }

  /** What moved `j` came from `k`, directly or through a predecessor `p` that it moved. */
  lemma StepOnRoute(net: Network, order: seq<Id>, early: Dates, k: Id, p: Id, j: Id, front: seq<Id>, small: nat,
                    before: int, after: int) returns (path: seq<Id>)
    requires Topological(net, order) && k in net && p in net && early.Keys == net.Keys && Follows(net, j, p)
    requires 0 < after <= before + (if p == k then small else 0) - Gap(net, early, p, j) && Gap(net, early, p, j) >= 0
    requires before > 0 ==> RouteBy(net, early, k, p, small - before, front)
    ensures RouteBy(net, early, k, j, small - after, path)
  {
    hide RouteBy, Gap, Topological, Follows;
    if p == k {
      NoRouteBack(net, order, early, k, small - before, front);
      DirectRoute(net, early, k, j, small - after);
      path := [k, j];
    } else {
      LongerRoute(net, early, k, p, j, front, small - before, small - after);
      path := front + [j];
    }
  }

  lemma RouteIsThere(net: Network, early: Dates, k: Id, s: Id, path: seq<Id>, some: int, most: int)
    requires early.Keys == net.Keys && RouteBy(net, early, k, s, some, path) && some <= most
    ensures Route(net, early, k, s, most)
  {
    assert RouteBy(net, early, k, s, most, path);
  }

  /** So neither `k` nor its successor `s` moves when `k` slips by one more than its free
      float and every route to `s` has more slack than that float. */
  lemma BothStay(net: Network, order: seq<Id>, early: Dates, again: Dates, s: Id, big: nat, k: Id, most: nat)
    requires WellFormed(net) && FirstLinkBinds(net) && FinishDriven(net) && Topological(net, order)
    requires Early(net, early) && k in net && Early(Slipped(net, Two(net, s, big, k, most + 1)), again)
    requires Follows(net, s, k) && !Route(net, early, k, s, most)
    ensures again.Keys == net.Keys && again[k] <= early[k] && again[s] <= early[s]
  {
    var h := Position(net, order, s);
    var l :| l in net[order[h]].predecessors && l.activity == k;
    var i := PositionBefore(net, order, h, l);
    var path := MovedIsOnRoute(net, order, early, again, s, big, k, most + 1, h, h);
    var back := MovedIsOnRoute(net, order, early, again, s, big, k, most + 1, h, i);
    NoRouteBack(net, order, early, k, most + 1 - Shift(early, again, k), back);
    if Shift(early, again, s) > 0 { RouteIsThere(net, early, k, s, path, most + 1 - Shift(early, again, s), most); }
  }

  /** Every other start moves no further than it does without the slip of `k`, or than by
      that slip. */
  ghost predicate MovesWithin(early: Dates, without: Dates, again: Dates, small: nat, j: Id)
    requires j in early && j in without && j in again
  {
    again[j] <= Max(without[j], early[j] + small)
  }

  lemma SlippedWeight(net: Network, slip: map<Id, nat>, j: Id, l: Link)
    requires WellFormed(net) && FinishDriven(net) && slip.Keys == net.Keys && j in net && l in net[j].predecessors
    ensures Weight(Slipped(net, slip), j, l) == Weight(net, j, l) + slip[l.activity]
  {}

  lemma StepWithin(net: Network, early: Dates, without: Dates, again: Dates, s: Id, big: nat, k: Id, small: nat, j: Id, l: Link)
    requires WellFormed(net) && FinishDriven(net) && k in net && j in net && l in net[j].predecessors && s != k
    requires early.Keys == without.Keys == again.Keys == net.Keys && EarlyAt(net, early, j)
    requires EarlyAt(Slipped(net, Only(net, s, big)), without, j)
    requires again[j] == again[l.activity] + Weight(Slipped(net, Two(net, s, big, k, small)), j, l)
    requires l.activity == s ==> again[s] <= early[s] <= without[s]
    requires l.activity == k ==> again[k] <= early[k]
    requires MovesWithin(early, without, again, small, l.activity)
    ensures MovesWithin(early, without, again, small, j)
  {
    var p := l.activity;
    var one, two := Only(net, s, big), Two(net, s, big, k, small);
    assert early[j] >= early[p] + Weight(net, j, l);
    assert without[j] >= without[p] + Weight(Slipped(net, one), j, l);
    SlippedWeight(net, one, j, l);
    SlippedWeight(net, two, j, l);
    assert one[p] == (if p == s then big else 0) && two[p] == (if p == k then small else one[p]);
    hide *;
    assert p != s && p != k && again[p] > early[p] + small ==> again[p] <= without[p];
  }

  lemma OneMovesWithin(net: Network, early: Dates, without: Dates, again: Dates, s: Id, big: nat, k: Id, small: nat, j: Id)
    requires WellFormed(net) && FinishDriven(net) && k in net && j in net && s in net && s != k
    requires early.Keys == without.Keys == again.Keys == net.Keys && EarlyAt(net, early, j)
    requires EarlyAt(Slipped(net, Only(net, s, big)), without, j)
    requires EarlyAt(Slipped(net, Two(net, s, big, k, small)), again, j)
    requires early[s] <= without[s] && again[s] <= early[s] && again[k] <= early[k]
    requires forall l :: l in net[j].predecessors ==> MovesWithin(early, without, again, small, l.activity)
    ensures MovesWithin(early, without, again, small, j)
  {
    if Shift(early, again, j) > 0 {
      var l := HeldByLink(Slipped(net, Two(net, s, big, k, small)), early, again, j);
      hide *;
      StepWithin(net, early, without, again, s, big, k, small, j, l);
    }
  }

  lemma {:induction false} AllMoveWithin(net: Network, order: seq<Id>, early: Dates, without: Dates, again: Dates,
                                         s: Id, big: nat, k: Id, small: nat, i: nat)
    requires WellFormed(net) && FinishDriven(net) && Topological(net, order) && k in net && s in net && s != k
    requires Early(net, early) && i <= |order|
    requires Early(Slipped(net, Only(net, s, big)), without) && Early(Slipped(net, Two(net, s, big, k, small)), again)
    requires without.Keys == again.Keys == net.Keys
    requires early[s] <= without[s] && again[s] <= early[s] && again[k] <= early[k]
    ensures forall j {:trigger MovesWithin(early, without, again, small, j)} :: j in order[..i] ==> MovesWithin(early, without, again, small, j)
  {
    hide EarlyAt, MovesWithin, FinishDriven, Only, Two, Weight;
    if i > 0 {
      AllMoveWithin(net, order, early, without, again, s, big, k, small, i - 1);
      var j := order[i - 1];
      assert order[..i] == order[..i - 1] + [j];
      OneMovesWithin(net, early, without, again, s, big, k, small, j);
    }
  }

  lemma FinishWithin(net: Network, early: Dates, finish: int, s: Id, big: nat, k: Id, small: nat,
                     without: Dates, base: int, again: Dates, j: Id)
    requires k in net && s in net && s != k && j in net
    requires early.Keys == without.Keys == again.Keys == net.Keys && finish + small <= base
    requires early[j] + net[j].duration <= finish
    requires without[j] + Slipped(net, Only(net, s, big))[j].duration <= base
    requires MovesWithin(early, without, again, small, j) && (j == k ==> again[k] <= early[k])
    requires j == s ==> again[s] <= without[s]
    ensures again[j] + Slipped(net, Two(net, s, big, k, small))[j].duration <= base
  {}

  /** So the slip of `k` does not show in the finish, which the slip of `s` moves further. */
  lemma FinishStays(net: Network, order: seq<Id>, early: Dates, finish: int, s: Id, big: nat, k: Id, small: nat,
                    without: Dates, base: int, again: Dates, newFinish: int)
    requires WellFormed(net) && FinishDriven(net) && Topological(net, order) && k in net && s in net && s != k
    requires Early(net, early) && DoneBy(net, early, finish) && finish + small <= base
    requires var slip := Only(net, s, big);
             Early(Slipped(net, slip), without) && ProjectFinish(Slipped(net, slip), without, base)
    requires var slip := Two(net, s, big, k, small);
             Early(Slipped(net, slip), again) && ProjectFinish(Slipped(net, slip), again, newFinish)
    requires early[s] <= without[s] && again[s] <= early[s] && again[k] <= early[k]
    ensures newFinish <= base
  {
    var j := LatestActivity(Slipped(net, Two(net, s, big, k, small)), again, newFinish, k);
    AllMoveWithin(net, order, early, without, again, s, big, k, small, |order|);
    assert j in order[..|order|];
    assert MovesWithin(early, without, again, small, j) && early[j] + net[j].duration <= finish;
    assert without[j] + Slipped(net, Only(net, s, big))[j].duration <= base;
    hide *;
    FinishWithin(net, early, finish, s, big, k, small, without, base, again, j);
  }

  /** The impact, however, grows by it: what reaches `s` adds to the slip of `s`. */
  lemma ImpactGrows(net: Network, order: seq<Id>, free: Dates, s: Id, big: nat, k: Id, small: nat,
                    pushed0: Dates, impact0: int, pushed: Dates, impact: int)
    requires WellFormed(net) && Topological(net, order) && k in net && Follows(net, s, k) && s != k
    requires Pushed(net, Only(net, s, big), free, pushed0) && Impact(net, pushed0, impact0) && impact0 > 0
    requires Pushed(net, Two(net, s, big, k, small), free, pushed) && Impact(net, pushed, impact)
    requires (forall j :: j in net ==> free[j] >= 0) && small == free[k] + 1
    ensures impact > impact0
  {
    var slip := Two(net, s, big, k, small);
    assert slip[k] == small && slip[s] == big;
    SlipArrives(net, slip, free, pushed, k, s);
    var path := ImpactOfOnly(net, order, s, big, free, pushed0, impact0);
    hide *;
    ImpactCoversPath(net, slip, free, pushed, impact, path);
  }

  lemma SlipArrives(net: Network, slip: map<Id, nat>, free: Dates, pushed: Dates, k: Id, s: Id)
    requires Pushed(net, slip, free, pushed) && k in net && Follows(net, s, k) && slip[k] > free[k]
    ensures forall l :: l in net[s].predecessors ==> l.activity in pushed
    ensures Incoming(net[s].predecessors, pushed) >= 1
  {
    assert PushedAt(net, slip, free, pushed, k) && PushedAt(net, slip, free, pushed, s);
    var l :| l in net[s].predecessors && l.activity == k;
    assert Incoming(net[s].predecessors, pushed) >= pushed[l.activity];
  }

  lemma FinishIsNonNegative(net: Network, early: Dates, finish: int)
    requires Early(net, early) && ProjectFinish(net, early, finish)
    ensures finish >= 0
  {
    if |net| > 0 {
      var k :| k in net && early[k] + net[k].duration == finish;
      assert EarlyAt(net, early, k);
    }
  }

  /** A late `s` moves the finish by at least what it is late beyond the finish. */
  lemma LateOneGrows(net: Network, order: seq<Id>, early: Dates, finish: int, s: Id, big: nat, without: Dates, base: int)
    requires WellFormed(net) && FinishDriven(net) && Topological(net, order) && s in net && Early(net, early)
    requires Rerun(net, Only(net, s, big), without, base)
    ensures s in without && early[s] <= without[s] && big <= base
  {
    SlippedStartsLater(net, order, Only(net, s, big), early, without);
    assert s in Slipped(net, Only(net, s, big)) && EarlyAt(net, early, s);
  }

  /** If the report is exact for `s` alone, it is not for `s` and `k` together. */
  lemma TwoAreNotExact(net: Network, order: seq<Id>, early: Dates, finish: int, free: Dates, k: Id, s: Id, most: nat, big: nat,
                       pushed0: Dates, impact0: int, without: Dates, base: int,
                       pushed: Dates, impact: int, again: Dates, newFinish: int)
    requires WellFormed(net) && FirstLinkBinds(net) && FinishDriven(net) && Topological(net, order)
    requires Early(net, early) && ProjectFinish(net, early, finish) && free.Keys == net.Keys
    requires (forall j :: j in net ==> free[j] >= 0) && k in net && Follows(net, s, k) && s != k
    requires !Route(net, early, k, s, most) && big == finish + most + 1 && most == free[k]
    requires Reported(net, Only(net, s, big), free, pushed0, impact0) && Rerun(net, Only(net, s, big), without, base)
    requires Reported(net, Two(net, s, big, k, most + 1), free, pushed, impact)
    requires Rerun(net, Two(net, s, big, k, most + 1), again, newFinish)
    requires impact0 == base - finish
    ensures impact > newFinish - finish
  {
    FinishIsNonNegative(net, early, finish);
    LateOneGrows(net, order, early, finish, s, big, without, base);
    hide Early, Pushed, Impact, FirstLinkBinds, FinishDriven, Topological, Follows, Route, Two, Only, Slipped, WellFormed;
    BothStay(net, order, early, again, s, big, k, most);
    FinishStays(net, order, early, finish, s, big, k, most + 1, without, base, again, newFinish);
    ImpactGrows(net, order, free, s, big, k, most + 1, pushed0, impact0, pushed, impact);
  }

  lemma ExactRun(net: Network, order: seq<Id>, finish: int, free: Dates, slip: map<Id, nat>)
    returns (pushed: Dates, impact: int, again: Dates, newFinish: int)
    requires WellFormed(net) && Topological(net, order) && slip.Keys == free.Keys == net.Keys
    requires Exact(net, finish, free, slip)
    ensures Reported(net, slip, free, pushed, impact) && Rerun(net, slip, again, newFinish) && impact == newFinish - finish
  {
    hide Reported, Rerun, Topological, WellFormed;
    pushed, impact, again, newFinish := RunExists(net, order, slip, free);
  }

  /** Where some successor of `k` is out of reach, two runs tell. */
  lemma UnevenIsNotExact(net: Network, order: seq<Id>, early: Dates, finish: int, free: Dates, k: Id, s: Id, most: nat, big: nat)
    requires WellFormed(net) && FirstLinkBinds(net) && FinishDriven(net) && Topological(net, order)
    requires Early(net, early) && ProjectFinish(net, early, finish) && free.Keys == net.Keys
    requires (forall j :: j in net ==> free[j] >= 0) && k in net && Follows(net, s, k) && s != k
    requires !Route(net, early, k, s, most) && big == finish + most + 1 && most == free[k]
    ensures Only(net, s, big).Keys == Two(net, s, big, k, most + 1).Keys == net.Keys
    ensures !Exact(net, finish, free, Only(net, s, big)) || !Exact(net, finish, free, Two(net, s, big, k, most + 1))
  {
    var one, two := Only(net, s, big), Two(net, s, big, k, most + 1);
    assert one.Keys == two.Keys == net.Keys;
    hide Early, ProjectFinish, FirstLinkBinds, FinishDriven, Topological, Route, WellFormed, Exact, Reported, Rerun, Only, Two;
    if Exact(net, finish, free, one) && Exact(net, finish, free, two) {
      var pushed0, impact0, without, base := ExactRun(net, order, finish, free, one);
      var pushed, impact, again, newFinish := ExactRun(net, order, finish, free, two);
      TwoAreNotExact(net, order, early, finish, free, k, s, most, big, pushed0, impact0, without, base, pushed, impact, again, newFinish);
    }
  }

  // ---------------------------------------------------------------- the exact condition

  lemma ExactIsCovered(net: Network, finish: int, free: Dates, slip: map<Id, nat>)
    requires slip.Keys == free.Keys == net.Keys && Exact(net, finish, free, slip)
    ensures Covers(net, finish, free, slip)
  {}

  lemma FreeIsNonNegative(net: Network, early: Dates, finish: int, late: Dates, free: Dates)
    requires Early(net, early) && ProjectFinish(net, early, finish) && Late(net, finish, late)
    requires Free(net, early, late, free)
    ensures forall k :: k in net ==> free[k] >= 0
  {
    forall k | k in net ensures free[k] >= 0 {
      assert FreeAt(net, early, late, free, k) && LateAt(net, finish, late, k);
    }
  }

  /** For links driven by the predecessor's finish, the largest lag of a pair first: the impact
      equals the growth for all slips if and only if the slack fits and all routes are even,
      which the computed floats decide. */
  lemma ExactForAllSlipsIffEven(net: Network, order: seq<Id>, early: Dates, finish: int, late: Dates, free: Dates)
    requires WellFormed(net) && FirstLinkBinds(net) && FinishDriven(net) && Topological(net, order)
    requires Early(net, early) && ProjectFinish(net, early, finish) && Late(net, finish, late)
    requires Free(net, early, late, free)
    ensures (forall slip: map<Id, nat> :: slip.Keys == net.Keys ==> Exact(net, finish, free, slip))
            <==> SlackFits(net, early, free, finish) && EvenRoutes(net, early, free)
  {
    assert early.Keys == free.Keys == net.Keys && StartDriven(net);
    FreeIsNonNegative(net, early, finish, late, free);
    FinishIsNonNegative(net, early, finish);
    hide Exact, Covers, Early, Free, Late, ProjectFinish, Topological, FinishDriven, FirstLinkBinds, SlackFits, Route;
    CoversAllSlipsIffSlackFits(net, order, early, finish, late, free);
    if SlackFits(net, early, free, finish) && EvenRoutes(net, early, free) {
      forall slip: map<Id, nat> | slip.Keys == net.Keys ensures Exact(net, finish, free, slip) {
        EvenIsAlwaysExact(net, order, slip, early, finish, late, free);
      }
    }
    if forall slip: map<Id, nat> :: slip.Keys == net.Keys ==> Exact(net, finish, free, slip) {
      forall slip: map<Id, nat> | slip.Keys == net.Keys ensures Covers(net, finish, free, slip) {
        ExactIsCovered(net, finish, free, slip);
      }
      forall k, s | k in net && Follows(net, s, k) ensures Route(net, early, k, s, free[k]) {
        if !Route(net, early, k, s, free[k]) {
          var i := Position(net, order, s);
          NoSelfLink(net, order, i);
          UnevenIsNotExact(net, order, early, finish, free, k, s, free[k], finish + free[k] + 1);
        }
      }
    }
  }

  lemma EvenIsAlwaysExact(net: Network, order: seq<Id>, slip: map<Id, nat>, early: Dates, finish: int, late: Dates, free: Dates)
    requires WellFormed(net) && FirstLinkBinds(net) && FinishDriven(net) && Topological(net, order)
    requires Early(net, early) && ProjectFinish(net, early, finish) && Late(net, finish, late)
    requires Free(net, early, late, free) && slip.Keys == net.Keys
    requires SlackFits(net, early, free, finish) && EvenRoutes(net, early, free)
    ensures Exact(net, finish, free, slip)
  {
    hide Pushed, Impact, Early, ProjectFinish, Topological, FinishDriven, FirstLinkBinds, SlackFits, EvenRoutes, Late, Free;
    forall pushed, impact, again, newFinish |
      Reported(net, slip, free, pushed, impact) && Rerun(net, slip, again, newFinish)
      ensures impact == newFinish - finish
    {
      EvenIsExact(net, order, slip, early, finish, late, free, pushed, impact, again, newFinish);
    }
  }

  /** For links driven by the predecessor's finish, the largest lag of a pair first: where
      finishes are handed on, the slack always fits, and the impact is exact for all slips if
      and only if all routes are even. */
  lemma CarriedExactIffEven(net: Network, order: seq<Id>, early: Dates, finish: int, late: Dates, free: Dates)
    requires WellFormed(net) && FirstLinkBinds(net) && FinishDriven(net) && FinishesCarried(net) && Topological(net, order)
    requires Early(net, early) && ProjectFinish(net, early, finish) && Late(net, finish, late)
    requires Free(net, early, late, free)
    ensures (forall slip: map<Id, nat> :: slip.Keys == net.Keys ==> Exact(net, finish, free, slip))
            <==> EvenRoutes(net, early, free)
  {
    hide *;
    CarriedFinishesFit(net, order, early, finish, late, free);
    ExactForAllSlipsIffEven(net, order, early, finish, late, free);
  }

  /** For such links, with finishes handed on and even routes, the reported impact is the
      growth of the project. */
  lemma ImpactIsExact(net: Network, order: seq<Id>, slip: map<Id, nat>, early: Dates, finish: int, late: Dates,
                      free: Dates, pushed: Dates, impact: int, again: Dates, newFinish: int)
    requires WellFormed(net) && FirstLinkBinds(net) && FinishDriven(net) && FinishesCarried(net) && Topological(net, order)
    requires Early(net, early) && ProjectFinish(net, early, finish) && Late(net, finish, late)
    requires Free(net, early, late, free) && Pushed(net, slip, free, pushed) && Impact(net, pushed, impact)
    requires Early(Slipped(net, slip), again) && ProjectFinish(Slipped(net, slip), again, newFinish)
    requires EvenRoutes(net, early, free)
    ensures impact == newFinish - finish
  {
    assert Reported(net, slip, free, pushed, impact) && Rerun(net, slip, again, newFinish);
    assert slip.Keys == free.Keys == net.Keys;
    CarriedExactIffEven(net, order, early, finish, late, free);
    assert Exact(net, finish, free, slip);
  }

  // ---------------------------------------------------------------- plain networks

  /** Every successor of an activity leaves it the same slack. */
  ghost predicate EvenSlack(net: Network, early: Dates, free: Dates)
    requires early.Keys == free.Keys == net.Keys
  {
    forall k, s :: k in net && Follows(net, s, k) ==> Gap(net, early, k, s) == free[k]
  }

  lemma EvenSlackIsEven(net: Network, early: Dates, free: Dates)
    requires early.Keys == free.Keys == net.Keys && EvenSlack(net, early, free)
    ensures EvenRoutes(net, early, free)
  {
    forall k, s | k in net && Follows(net, s, k) ensures Route(net, early, k, s, free[k]) {
      DirectRoute(net, early, k, s, free[k]);
      RouteIsThere(net, early, k, s, [k, s], free[k], free[k]);
    }
  }

  /** Each activity has at most one successor. */
  ghost predicate SingleSuccessor(net: Network) {
    forall s, t, k :: Follows(net, s, k) && Follows(net, t, k) ==> s == t
  }

  /** No two links join the same two activities. */
  ghost predicate SingleLinks(net: Network) {
    forall k, l, m :: k in net && l in net[k].predecessors && m in net[k].predecessors && l.activity == m.activity ==>
      l == m
  }

  lemma OnlySuccessorIsEven(net: Network, early: Dates, late: Dates, free: Dates, k: Id, s: Id)
    requires early.Keys == late.Keys == free.Keys == net.Keys && k in net && Follows(net, s, k)
    requires FirstLink(net[s].predecessors, k).kind in {FS, Unknown}
    requires forall t :: Follows(net, t, k) ==> t == s
    requires FreeAt(net, early, late, free, k) && EarlyAt(net, early, s)
    ensures Gap(net, early, k, s) == free[k]
  {
    assert FirstLink(net[s].predecessors, k) in net[s].predecessors;
  }

  /** One successor and one link a pair give even slack and so even routes. */
  lemma SingleSuccessorIsEven(net: Network, early: Dates, late: Dates, free: Dates)
    requires WellFormed(net) && FinishDriven(net) && SingleSuccessor(net) && SingleLinks(net)
    requires Early(net, early) && Free(net, early, late, free)
    ensures EvenSlack(net, early, free) && EvenRoutes(net, early, free)
  {
    hide EarlyAt, FreeAt;
    forall k, s | k in net && Follows(net, s, k) ensures Gap(net, early, k, s) == free[k] {
      assert FreeAt(net, early, late, free, k) && EarlyAt(net, early, s);
      OnlySuccessorIsEven(net, early, late, free, k, s);
    }
    EvenSlackIsEven(net, early, free);
  }

  /** Finish-to-start networks hand every finish on. */
  lemma FinishToStartIsCarried(net: Network)
    requires WellFormed(net) && FinishToStart(net)
    ensures FirstLinkBinds(net) && FinishDriven(net) && StartDriven(net) && FinishesCarried(net)
  {
    forall k | k in net && !Terminal(net, k) ensures FinishCarried(net, k) {
      var s :| Follows(net, s, k);
      var l :| l in net[s].predecessors && l.activity == k;
    }
  }

  /** The plain case: finish-to-start links without leads, one a pair. */
  ghost predicate Plain(net: Network) {
    SingleLinks(net) && forall k, l :: k in net && l in net[k].predecessors ==> l.kind == FS && l.lag >= 0
  }

  lemma PlainIsFinishToStart(net: Network)
    requires WellFormed(net) && Plain(net)
    ensures FinishToStart(net)
  {}

  /** On plain networks the impact is never smaller than the growth of the project, and
      equal to it if each activity has at most one successor. */
  lemma PlainImpact(net: Network, order: seq<Id>, slip: map<Id, nat>, early: Dates, finish: int, late: Dates,
                    free: Dates, pushed: Dates, impact: int, again: Dates, newFinish: int)
    requires WellFormed(net) && Plain(net) && Topological(net, order)
    requires Early(net, early) && ProjectFinish(net, early, finish) && Late(net, finish, late)
    requires Free(net, early, late, free) && Pushed(net, slip, free, pushed) && Impact(net, pushed, impact)
    requires Early(Slipped(net, slip), again) && ProjectFinish(Slipped(net, slip), again, newFinish)
    ensures impact >= newFinish - finish
    ensures SingleSuccessor(net) ==> impact == newFinish - finish
  {
    PlainIsFinishToStart(net);
    assert SingleLinks(net);
    FinishToStartIsCarried(net);
    ImpactIsNeverTooSmall(net, order, slip, early, finish, late, free, pushed, impact, again, newFinish);
    if SingleSuccessor(net) {
      SingleSuccessorIsEven(net, early, late, free);
      ImpactIsExact(net, order, slip, early, finish, late, free, pushed, impact, again, newFinish);
    }
  }
}
