/** Exactly when free floats are right, and the critical chain. */
module Floats {
  import opened Basics
  import opened Networks
  import opened Schedules
  import opened LateDates

  // ---------------------------------------------------------------- free float

  lemma GapIsNonNegative(net: Network, order: seq<Id>, early: Dates, k: Id, s: Id)
    requires WellFormed(net) && FinishToStart(net) && Topological(net, order) && k in net
    requires Feasible(net, early) && Follows(net, s, k)
    ensures s != k && Gap(net, early, k, s) >= 0
  {
    var i :| 0 <= i < |order| && order[i] == k;
    SuccessorIsLater(net, order, k, s, i);
    assert Honours(net, early, s, FirstLink(net[s].predecessors, k));
  }

  lemma MovedHonours(net: Network, early: Dates, k: Id, delay: nat, j: Id, l: Link)
    requires early.Keys == net.Keys && k in net && j in net && l in net[j].predecessors && l.activity in net
    requires l.kind == FS && Honours(net, early, j, l)
    requires l.activity == k ==> j != k && l.lag <= FirstLink(net[j].predecessors, k).lag
                                 && early[k] + net[k].duration + delay + FirstLink(net[j].predecessors, k).lag <= early[j]
    ensures Honours(net, Moved(early, k, delay), j, l)
  {}

  lemma SmallMoveIsFree(net: Network, finish: int, early: Dates, k: Id, delay: nat)
    requires WellFormed(net) && FinishToStart(net) && k in net
    requires Feasible(net, early) && DoneBy(net, early, finish)
    requires forall s :: Follows(net, s, k) ==> s != k && delay <= Gap(net, early, k, s)
    requires Terminal(net, k) ==> early[k] + net[k].duration + delay <= finish
    ensures Feasible(net, Moved(early, k, delay)) && DoneBy(net, Moved(early, k, delay), finish)
  {
    var moved := Moved(early, k, delay);
    assert moved.Keys == net.Keys;
    forall j, l | j in net && l in net[j].predecessors ensures Honours(net, moved, j, l) {
      assert Honours(net, early, j, l);
      if l.activity == k { assert Follows(net, j, k) && delay <= Gap(net, early, k, j); }
      MovedHonours(net, early, k, delay, j, l);
    }
    MovedIsDone(net, finish, early, k, delay);
  }

  lemma MovedIsDone(net: Network, finish: int, early: Dates, k: Id, delay: nat)
    requires FinishToStart(net) && early.Keys == net.Keys && k in net && DoneBy(net, early, finish)
    requires forall s :: Follows(net, s, k) ==> delay <= Gap(net, early, k, s)
    requires Terminal(net, k) ==> early[k] + net[k].duration + delay <= finish
    ensures DoneBy(net, Moved(early, k, delay), finish)
  {
    if !Terminal(net, k) {
      var t :| Follows(net, t, k);
      assert delay <= Gap(net, early, k, t) && FirstLink(net[t].predecessors, k) in net[t].predecessors;
    }
  }

  lemma LargeMoveIsNot(net: Network, finish: int, early: Dates, k: Id, delay: nat, t: Id)
    requires WellFormed(net) && FinishToStart(net) && k in net && early.Keys == net.Keys
    requires Follows(net, t, k) && t != k && delay > Gap(net, early, k, t)
    ensures !Feasible(net, Moved(early, k, delay))
  {
    var l := FirstLink(net[t].predecessors, k);
    assert l in net[t].predecessors && l.kind == FS;
    assert !Honours(net, Moved(early, k, delay), t, l);
  }

  lemma FreeStep(net: Network, finish: int, early: Dates, late: Dates, free: Dates, k: Id, delay: nat)
    requires WellFormed(net) && FinishToStart(net) && k in net
    requires Feasible(net, early) && DoneBy(net, early, finish)
    requires early.Keys == late.Keys == free.Keys && FreeAt(net, early, late, free, k)
    requires Terminal(net, k) ==> late[k] + net[k].duration == finish
    requires forall s :: Follows(net, s, k) ==> s != k && Gap(net, early, k, s) >= 0
    ensures Feasible(net, Moved(early, k, delay)) && DoneBy(net, Moved(early, k, delay), finish)
            <==> delay <= free[k]
  {
    assert early.Keys == net.Keys;
    hide Feasible, DoneBy, FinishToStart, WellFormed, Moved;
    if delay <= free[k] {
      SmallMoveIsFree(net, finish, early, k, delay);
    } else if !Terminal(net, k) {
      var t :| Follows(net, t, k) && free[k] == Max(0, Gap(net, early, k, t));
      LargeMoveIsNot(net, finish, early, k, delay, t);
    }
  }

  /** Free float is exact: moving `k` alone by `delay` keeps every link and the project
      finish exactly when `delay` is at most its free float. */
  lemma FreeFloatIsExact(net: Network, order: seq<Id>, finish: int, early: Dates, late: Dates, free: Dates, k: Id, delay: nat)
    requires WellFormed(net) && FinishToStart(net) && Topological(net, order) && k in net
    requires Early(net, early) && ProjectFinish(net, early, finish) && Late(net, finish, late)
    requires Free(net, early, late, free)
    ensures Feasible(net, Moved(early, k, delay)) && DoneBy(net, Moved(early, k, delay), finish)
            <==> delay <= free[k]
  {
    EarlyIsFeasible(net, early);
    assert FreeAt(net, early, late, free, k) && LateAt(net, finish, late, k);
    forall s | Follows(net, s, k) ensures s != k && Gap(net, early, k, s) >= 0 {
      GapIsNonNegative(net, order, early, k, s);
    }
    FreeStep(net, finish, early, late, free, k, delay);
  }

  /** Free float is non-negative and never exceeds total float. */
  lemma FreeFloatIsWithinTotal(net: Network, order: seq<Id>, finish: int, early: Dates, late: Dates, free: Dates, k: Id)
    requires WellFormed(net) && FinishToStart(net) && Topological(net, order) && k in net
    requires Early(net, early) && ProjectFinish(net, early, finish) && Late(net, finish, late)
    requires Free(net, early, late, free)
    ensures 0 <= free[k] <= late[k] - early[k]
  {
    hide FinishToStart, ReadsRight, ChainsAgree, WellFormed;
    hide Topological, Late, Early, Feasible, DoneBy, ProjectFinish, Follows;
    FinishToStartReadsRight(net);
    ReadsRightAgrees(net, order, finish, late);
    TotalFloatIsNonNegative(net, order, finish, early, late);
    assert FreeAt(net, early, late, free, k);
    assert free[k] >= 0;
    FreeFloatIsExact(net, order, finish, early, late, free, k, free[k]);
    LateShifts(net, order, finish, late, 0, Moved(early, k, free[k]));
  }

  // ---------------------------------------------------------------- free float over all link types

  /** How late `k` leaves its successors and the finish where they are, by all links. */
  ghost predicate RoomIs(net: Network, early: Dates, finish: int, k: Id, room: int)
    requires early.Keys == net.Keys && k in net
  {
    && room <= finish - early[k] - net[k].duration
    && (forall s :: Follows(net, s, k) ==> room <= early[s] - early[k] - PairWeight(net, true, k, s))
    && (room == finish - early[k] - net[k].duration
        || exists s :: Follows(net, s, k) && room == early[s] - early[k] - PairWeight(net, true, k, s))
  }

  /** The same as the analysis measures it: from the finish of `k`, by the lag of the first
      link of a pair. */
  ghost predicate GapIs(net: Network, early: Dates, finish: int, k: Id, gap: int)
    requires early.Keys == net.Keys && k in net
  {
    if Terminal(net, k) then gap == finish - early[k] - net[k].duration
    else
      && (forall s :: Follows(net, s, k) ==> gap <= Max(0, Gap(net, early, k, s)))
      && (exists s :: Follows(net, s, k) && gap == Max(0, Gap(net, early, k, s)))
  }

  /** Both measures agree, which links and early dates decide. */
  ghost predicate GapsAgree(net: Network, early: Dates, finish: int, k: Id)
    requires early.Keys == net.Keys && k in net
  {
    exists room :: RoomIs(net, early, finish, k, room) && GapIs(net, early, finish, k, room)
  }

  ghost predicate CanMove(net: Network, early: Dates, finish: int, k: Id, delay: nat)
    requires early.Keys == net.Keys && k in net
  {
    Feasible(net, Moved(early, k, delay)) && DoneBy(net, Moved(early, k, delay), finish)
  }

  ghost predicate FreeExactAt(net: Network, early: Dates, finish: int, free: Dates, k: Id)
    requires early.Keys == free.Keys == net.Keys && k in net
  {
    forall delay: nat {:trigger CanMove(net, early, finish, k, delay)} :: CanMove(net, early, finish, k, delay) <==> delay <= free[k]
  }

  lemma MovedMeetsLinks(net: Network, order: seq<Id>, early: Dates, k: Id, delay: nat, j: Id, l: Link)
    requires WellFormed(net) && Topological(net, order) && Feasible(net, early) && k in net && j in net && l in net[j].predecessors
    requires forall s :: Follows(net, s, k) ==> delay <= early[s] - early[k] - PairWeight(net, true, k, s)
    ensures Honours(net, Moved(early, k, delay), j, l)
  {
    var moved := Moved(early, k, delay);
    var i := Position(net, order, j);
    NoSelfLink(net, order, i);
    assert Honours(net, early, j, l);
    HonoursIsWeight(net, early, j, l);
    HonoursIsWeight(net, moved, j, l);
    if l.activity == k {
      assert Follows(net, j, k);
      PairIsHonoured(net, moved, k, j);
    }
  }

  /** A lone move breaks nothing exactly when every successor and the finish have room for
      it. */
  lemma MoveNeedsRoom(net: Network, order: seq<Id>, finish: int, early: Dates, k: Id, delay: nat)
    requires WellFormed(net) && Topological(net, order) && Feasible(net, early) && DoneBy(net, early, finish) && k in net
    ensures CanMove(net, early, finish, k, delay) <==>
              && delay <= finish - early[k] - net[k].duration
              && forall s :: Follows(net, s, k) ==> delay <= early[s] - early[k] - PairWeight(net, true, k, s)
  {
    var moved := Moved(early, k, delay);
    if CanMove(net, early, finish, k, delay) {
      forall s | Follows(net, s, k) ensures delay <= early[s] - early[k] - PairWeight(net, true, k, s) {
        var i := Position(net, order, s);
        NoSelfLink(net, order, i);
        PairIsHonoured(net, moved, k, s);
      }
    }
    if delay <= finish - early[k] - net[k].duration
       && forall s :: Follows(net, s, k) ==> delay <= early[s] - early[k] - PairWeight(net, true, k, s) {
      forall j, l | j in net && l in net[j].predecessors && l.activity in net ensures Honours(net, moved, j, l) {
        MovedMeetsLinks(net, order, early, k, delay, j, l);
      }
      assert CanMove(net, early, finish, k, delay);
    }
  }

  lemma FreeExactIffRoom(net: Network, order: seq<Id>, finish: int, early: Dates, free: Dates, k: Id)
    requires WellFormed(net) && Topological(net, order) && Feasible(net, early) && DoneBy(net, early, finish) && k in net
    requires early.Keys == free.Keys && free[k] >= 0
    ensures FreeExactAt(net, early, finish, free, k) <==> RoomIs(net, early, finish, k, free[k])
  {
    hide CanMove, Topological, WellFormed, PairWeight, Follows;
    if RoomIs(net, early, finish, k, free[k]) {
      forall delay: nat ensures CanMove(net, early, finish, k, delay) <==> delay <= free[k] {
        MoveNeedsRoom(net, order, finish, early, k, delay);
      }
    }
    if FreeExactAt(net, early, finish, free, k) {
      MoveNeedsRoom(net, order, finish, early, k, free[k]);
      MoveNeedsRoom(net, order, finish, early, k, free[k] + 1);
      assert CanMove(net, early, finish, k, free[k]) && !CanMove(net, early, finish, k, free[k] + 1);
    }
  }

  lemma FreeIsGap(net: Network, finish: int, early: Dates, late: Dates, free: Dates, k: Id)
    requires early.Keys == late.Keys == free.Keys == net.Keys && k in net && early[k] + net[k].duration <= finish
    requires LateAt(net, finish, late, k) && FreeAt(net, early, late, free, k)
    ensures free[k] >= 0 && forall gap :: GapIs(net, early, finish, k, gap) <==> gap == free[k]
  {
    hide Gap;
  }

  /** For every mix of link types: the free float of an activity says exactly how late it
      can start alone if and only if both measures agree. */
  lemma FreeFloatIsExactIffGapsAgree(net: Network, order: seq<Id>, finish: int, early: Dates, late: Dates, free: Dates, k: Id)
    requires WellFormed(net) && Topological(net, order) && k in net
    requires Early(net, early) && ProjectFinish(net, early, finish) && Late(net, finish, late)
    requires Free(net, early, late, free)
    ensures FreeExactAt(net, early, finish, free, k) <==> GapsAgree(net, early, finish, k)
  {
    hide EarlyAt, LateAt, FreeAt, Feasible, Topological, WellFormed, RoomIs, GapIs, FreeExactAt;
    EarlyIsFeasible(net, early);
    assert LateAt(net, finish, late, k) && FreeAt(net, early, late, free, k);
    FreeIsGap(net, finish, early, late, free, k);
    FreeExactIffRoom(net, order, finish, early, free, k);
  }

  // ---------------------------------------------------------------- the critical chain

  /** A link from `p` holds `k` exactly where it is. */
  ghost predicate TightPair(net: Network, early: Dates, p: Id, k: Id)
    requires early.Keys == net.Keys && p in net && k in net
  {
    exists l :: l in net[k].predecessors && l.activity == p && early[k] == early[p] + Weight(net, k, l)
  }

  /** A chain of linked activities, each starting exactly when the one before it lets
      it, from the project's start to its finish, with no float anywhere on it. */
  ghost predicate CriticalChain(net: Network, finish: int, early: Dates, late: Dates, chain: seq<Id>)
    requires early.Keys == late.Keys == net.Keys && WellFormed(net)
  {
    && chain != []
    && (forall i :: 0 <= i < |chain| ==> chain[i] in net && late[chain[i]] == early[chain[i]])
    && early[chain[0]] == 0
    && (forall i :: 0 < i < |chain| ==> TightPair(net, early, chain[i - 1], chain[i]))
    && early[chain[|chain| - 1]] + net[chain[|chain| - 1]].duration == finish
  }

  /** A link that holds `k` at its only possible start holds its predecessor there too. */
  lemma TightLinkIsCritical(net: Network, early: Dates, late: Dates, k: Id, l: Link)
    requires WellFormed(net) && Feasible(net, late) && early.Keys == net.Keys && Below(early, late)
    requires k in net && l in net[k].predecessors && early[k] == late[k]
    requires early[k] == early[l.activity] + Weight(net, k, l)
    ensures early[l.activity] == late[l.activity]
  {
    HonoursIsWeight(net, late, k, l);
  }

  /** The part of a critical chain up to `order[i]`, which is known to be critical. */
  lemma {:induction false} ChainBackFrom(net: Network, order: seq<Id>, early: Dates, late: Dates, i: nat)
    returns (chain: seq<Id>)
    requires WellFormed(net) && Topological(net, order) && i < |order|
    requires Early(net, early) && Feasible(net, late) && Below(early, late)
    requires early[order[i]] == late[order[i]]
    ensures chain != [] && chain[|chain| - 1] == order[i]
    ensures forall j :: 0 <= j < |chain| ==> chain[j] in net && late[chain[j]] == early[chain[j]]
    ensures early[chain[0]] == 0
    ensures forall j :: 0 < j < |chain| ==> TightPair(net, early, chain[j - 1], chain[j])
  {
    var k := order[i];
    assert EarlyAt(net, early, k);
    if early[k] == 0 {
      chain := [k];
    } else {
      var l :| l in net[k].predecessors && early[k] == early[l.activity] + Weight(net, k, l);
      TightLinkIsCritical(net, early, late, k, l);
      var j := PositionBefore(net, order, i, l);
      var front := ChainBackFrom(net, order, early, late, j);
      assert TightPair(net, early, l.activity, k);
      chain := front + [k];
    }
  }

  /** Where the floats are exact the critical path exists: a zero-float chain spans the
      whole project. */
  lemma CriticalChainExists(net: Network, order: seq<Id>, finish: int, early: Dates, late: Dates)
    returns (chain: seq<Id>)
    requires WellFormed(net) && ChainsAgree(net) && Topological(net, order) && |net| > 0
    requires Early(net, early) && ProjectFinish(net, early, finish) && Late(net, finish, late)
    ensures CriticalChain(net, finish, early, late, chain)
  {
    hide Topological, ChainsAgree, Late;
    LateIsGreatestIffChainsAgree(net, order, finish, early, late);
    TotalFloatIsNonNegative(net, order, finish, early, late);
    var k :| k in net && early[k] + net[k].duration == finish;
    var i := Position(net, order, k);
    chain := ChainBackFrom(net, order, early, late, i);
  }
}
