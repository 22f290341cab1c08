/** Exactly when the backward pass is right: two readings of the links, and the longest chains by each. */
module LateDates {
  import opened Basics
  import opened Networks
  import opened Schedules

  // ---------------------------------------------------------------- two readings of a pair

  /** The largest weight of the links from `k` to `s`. */
  function Heaviest(net: Network, k: Id, s: Id, links: seq<Link>): (w: int)
    requires k in net && s in net && exists l :: l in links && l.activity == k
    ensures forall l :: l in links && l.activity == k ==> Weight(net, s, l) <= w
    ensures exists l :: l in links && l.activity == k && Weight(net, s, l) == w
  {
    var front, last := links[..|links| - 1], links[|links| - 1];
    assert links == front + [last];
    if last.activity != k then Heaviest(net, k, s, front)
    else if exists l :: l in front && l.activity == k then Max(Heaviest(net, k, s, front), Weight(net, s, last))
    else Weight(net, s, last)
  }

  /** How much later than `k` its successor `s` is held: by all links between them, or as
      the backward pass reads it off the first one. */
  ghost function PairWeight(net: Network, all: bool, k: Id, s: Id): int
    requires k in net && Follows(net, s, k)
  {
    var links := net[s].predecessors;
    if all then Heaviest(net, k, s, links)
    else if FirstLink(links, k).kind == FS then net[k].duration + FirstLink(links, k).lag
    else net[k].duration - net[s].duration
  }

  /** The finish binds every activity, but the pass applies it only where nothing follows. */
  ghost predicate MayEnd(net: Network, all: bool, k: Id) { all || Terminal(net, k) }

  /** The late date of `k` obeys what follows and is held by some of it. */
  ghost predicate SettledAt(net: Network, all: bool, finish: int, late: Dates, k: Id)
    requires late.Keys == net.Keys && k in net
  {
    && (MayEnd(net, all, k) ==> late[k] + net[k].duration <= finish)
    && (forall s :: Follows(net, s, k) ==> late[k] + PairWeight(net, all, k, s) <= late[s])
    && ((MayEnd(net, all, k) && late[k] + net[k].duration == finish)
        || exists s :: Follows(net, s, k) && late[k] + PairWeight(net, all, k, s) == late[s])
  }

  ghost predicate Settled(net: Network, all: bool, finish: int, late: Dates)
    requires late.Keys == net.Keys
  {
    forall k {:trigger SettledAt(net, all, finish, late, k)} :: k in net ==> SettledAt(net, all, finish, late, k)
  }

  lemma LateAtIsSettled(net: Network, finish: int, late: Dates, k: Id)
    requires late.Keys == net.Keys && k in net
    ensures LateAt(net, finish, late, k) <==> SettledAt(net, false, finish, late, k)
  {
    forall s | Follows(net, s, k)
      ensures late[k] + PairWeight(net, false, k, s) - late[s] == late[k] + net[k].duration - LateBound(net, late, k, s)
    {}
  }

  lemma LateIsSettled(net: Network, finish: int, late: Dates)
    requires late.Keys == net.Keys
    ensures Late(net, finish, late) <==> Settled(net, false, finish, late)
  {
    hide LateAt, SettledAt;
    forall k | k in net ensures LateAt(net, finish, late, k) <==> SettledAt(net, false, finish, late, k) {
      LateAtIsSettled(net, finish, late, k);
    }
  }

  // ---------------------------------------------------------------- chains

  /** The time a chain takes from the start of its first activity to the finish of its last. */
  ghost function Length(net: Network, all: bool, path: seq<Id>): int
    requires Path(net, path)
  {
    if |path| == 1 then net[path[0]].duration
    else
      SuffixIsPath(net, path, 1);
      assert Follows(net, path[0 + 1], path[0]);
      PairWeight(net, all, path[0], path[1]) + Length(net, all, path[1..])
  }

  ghost predicate ChainFrom(net: Network, all: bool, k: Id, path: seq<Id>) {
    Path(net, path) && path[0] == k && MayEnd(net, all, Last(path))
  }

  /** The longest chain from `k` takes `n`. */
  ghost predicate Longest(net: Network, all: bool, k: Id, n: int) {
    && (exists path :: ChainFrom(net, all, k, path) && Length(net, all, path) == n)
    && (forall path :: ChainFrom(net, all, k, path) ==> Length(net, all, path) <= n)
  }

  /** From every activity the longest chain to the end, as the backward pass reads the
      links, is as long as the longest chain by all links. */
  ghost predicate ChainsAgree(net: Network) {
    forall k {:trigger ChainsAgreeAt(net, k)} :: k in net ==> ChainsAgreeAt(net, k)
  }

  ghost predicate ChainsAgreeAt(net: Network, k: Id) {
    exists n :: Longest(net, false, k, n) && Longest(net, true, k, n)
  }

  lemma ChainGrows(net: Network, all: bool, k: Id, s: Id, rest: seq<Id>)
    requires k in net && Follows(net, s, k) && ChainFrom(net, all, s, rest)
    ensures ChainFrom(net, all, k, [k] + rest)
    ensures Length(net, all, [k] + rest) == PairWeight(net, all, k, s) + Length(net, all, rest)
  {
    PathGrows(net, k, rest);
    assert ([k] + rest)[1..] == rest;
  }

  lemma ChainShrinks(net: Network, all: bool, k: Id, path: seq<Id>)
    requires ChainFrom(net, all, k, path) && |path| > 1
    ensures Follows(net, path[1], k) && ChainFrom(net, all, path[1], path[1..])
    ensures Length(net, all, path) == PairWeight(net, all, k, path[1]) + Length(net, all, path[1..])
  {
    SuffixIsPath(net, path, 1);
    assert Follows(net, path[0 + 1], path[0]);
  }

  lemma {:induction false} NoChainIsLonger(net: Network, all: bool, finish: int, late: Dates, k: Id, path: seq<Id>)
    requires late.Keys == net.Keys && Settled(net, all, finish, late) && ChainFrom(net, all, k, path)
    ensures k in net && Length(net, all, path) <= finish - late[k]
    decreases |path|
  {
    assert k in path;
    assert SettledAt(net, all, finish, late, k);
    if |path| > 1 {
      ChainShrinks(net, all, k, path);
      NoChainIsLonger(net, all, finish, late, path[1], path[1..]);
    }
  }

  lemma {:induction false} SomeChainIsAsLong(net: Network, order: seq<Id>, all: bool, finish: int, late: Dates, i: nat)
    returns (path: seq<Id>)
    requires Topological(net, order) && late.Keys == net.Keys && Settled(net, all, finish, late) && i < |order|
    ensures ChainFrom(net, all, order[i], path) && Length(net, all, path) == finish - late[order[i]]
    decreases |order| - i
  {
    var k := order[i];
    assert SettledAt(net, all, finish, late, k);
    if MayEnd(net, all, k) && late[k] + net[k].duration == finish {
      path := [k];
    } else {
      var s :| Follows(net, s, k) && late[k] + PairWeight(net, all, k, s) == late[s];
      SuccessorIsLater(net, order, k, s, i);
      var j :| i < j < |order| && order[j] == s;
      var rest := SomeChainIsAsLong(net, order, all, finish, late, j);
      ChainGrows(net, all, k, s, rest);
      path := [k] + rest;
    }
  }

  lemma SettledIsLongest(net: Network, order: seq<Id>, all: bool, finish: int, late: Dates, k: Id)
    requires Topological(net, order) && late.Keys == net.Keys && Settled(net, all, finish, late) && k in net
    ensures Longest(net, all, k, finish - late[k])
  {
    hide Topological, Settled, Length;
    var i := Position(net, order, k);
    var path := SomeChainIsAsLong(net, order, all, finish, late, i);
    forall path | ChainFrom(net, all, k, path) ensures Length(net, all, path) <= finish - late[k] {
      NoChainIsLonger(net, all, finish, late, k, path);
    }
  }

  lemma ChainsSettle(net: Network, all: bool, finish: int, late: Dates, k: Id)
    requires late.Keys == net.Keys && k in net
    requires forall j {:trigger Longest(net, all, j, finish - late[j])} :: j in net ==> Longest(net, all, j, finish - late[j])
    ensures SettledAt(net, all, finish, late, k)
  {
    hide Length;
    assert Longest(net, all, k, finish - late[k]);
    if MayEnd(net, all, k) { LoneActivity(net, all, k); }
    forall s | Follows(net, s, k) ensures late[k] + PairWeight(net, all, k, s) <= late[s] {
      assert Longest(net, all, s, finish - late[s]);
      var rest :| ChainFrom(net, all, s, rest) && Length(net, all, rest) == finish - late[s];
      ChainGrows(net, all, k, s, rest);
    }
    var path :| ChainFrom(net, all, k, path) && Length(net, all, path) == finish - late[k];
    if |path| == 1 {
      LoneActivity(net, all, k);
      assert path == [k];
    } else {
      ChainShrinks(net, all, k, path);
      var s := path[1];
      assert Longest(net, all, s, finish - late[s]);
      assert Follows(net, s, k) && late[k] + PairWeight(net, all, k, s) >= late[s];
    }
  }

  lemma LoneActivity(net: Network, all: bool, k: Id)
    requires k in net
    ensures MayEnd(net, all, k) ==> ChainFrom(net, all, k, [k])
    ensures Path(net, [k]) && Length(net, all, [k]) == net[k].duration
  {}

  lemma LongestIsOne(net: Network, all: bool, k: Id, a: int, b: int)
    requires Longest(net, all, k, a) && Longest(net, all, k, b)
    ensures a == b
  {}

  /** Dates that the backward pass computes obey and are held by all links exactly when
      the longest chains agree. */
  lemma LateIsSettledIffChainsAgree(net: Network, order: seq<Id>, finish: int, late: Dates)
    requires Topological(net, order) && Late(net, finish, late)
    ensures Settled(net, true, finish, late) <==> ChainsAgree(net)
  {
    assert late.Keys == net.Keys;
    LateIsSettled(net, finish, late);
    forall k | k in net ensures Longest(net, false, k, finish - late[k]) {
      SettledIsLongest(net, order, false, finish, late, k);
    }
    if Settled(net, true, finish, late) {
      forall k | k in net ensures ChainsAgreeAt(net, k) {
        SettledIsLongest(net, order, true, finish, late, k);
      }
    }
    if ChainsAgree(net) {
      forall k | k in net ensures Longest(net, true, k, finish - late[k]) {
        assert ChainsAgreeAt(net, k);
        var n :| Longest(net, false, k, n) && Longest(net, true, k, n);
        LongestIsOne(net, false, k, n, finish - late[k]);
      }
      forall k | k in net ensures SettledAt(net, true, finish, late, k) {
        ChainsSettle(net, true, finish, late, k);
      }
    }
  }

  // ---------------------------------------------------------------- the greatest schedule

  /** What one link between a pair asks of two dates, all of them ask together. */
  lemma PairIsHonoured(net: Network, s: Dates, k: Id, j: Id)
    requires s.Keys == net.Keys && WellFormed(net) && k in net && Follows(net, j, k)
    ensures (forall l :: l in net[j].predecessors && l.activity == k ==> Honours(net, s, j, l))
            <==> s[k] + PairWeight(net, true, k, j) <= s[j]
  {
    forall l | l in net[j].predecessors && l.activity == k
      ensures Honours(net, s, j, l) <==> s[k] + Weight(net, j, l) <= s[j]
    {
      HonoursIsWeight(net, s, j, l);
    }
  }

  lemma NoLaterThanSettled(net: Network, order: seq<Id>, finish: int, late: Dates, s: Dates, i: nat)
    requires WellFormed(net) && Topological(net, order) && late.Keys == net.Keys && Settled(net, true, finish, late)
    requires Feasible(net, s) && DoneBy(net, s, finish) && i < |order|
    requires forall k :: k in order[i + 1..] ==> s[k] <= late[k]
    ensures s[order[i]] <= late[order[i]]
  {
    var k := order[i];
    assert SettledAt(net, true, finish, late, k);
    if late[k] + net[k].duration != finish {
      var t :| Follows(net, t, k) && late[k] + PairWeight(net, true, k, t) == late[t];
      SuccessorIsLater(net, order, k, t, i);
      PairIsHonoured(net, s, k, t);
    }
  }

  lemma {:induction false} SettledIsAbove(net: Network, order: seq<Id>, finish: int, late: Dates, s: Dates, i: nat)
    requires WellFormed(net) && Topological(net, order) && late.Keys == net.Keys && Settled(net, true, finish, late)
    requires Feasible(net, s) && DoneBy(net, s, finish) && i <= |order|
    ensures forall k :: k in order[i..] ==> s[k] <= late[k]
    decreases |order| - i
  {
    if i < |order| {
      SettledIsAbove(net, order, finish, late, s, i + 1);
      NoLaterThanSettled(net, order, finish, late, s, i);
      DropNextOne(order, i);
    }
  }

  lemma AllAreBelow(net: Network, order: seq<Id>, finish: int, late: Dates, s: Dates)
    requires WellFormed(net) && Topological(net, order) && late.Keys == net.Keys && Settled(net, true, finish, late)
    requires Feasible(net, s) && DoneBy(net, s, finish)
    ensures Below(s, late)
  {
    assert order[0..] == order;
    SettledIsAbove(net, order, finish, late, s, 0);
  }

  lemma SettledIsGreatest(net: Network, order: seq<Id>, finish: int, early: Dates, late: Dates)
    requires WellFormed(net) && Topological(net, order) && late.Keys == net.Keys && Settled(net, true, finish, late)
    requires Feasible(net, early) && DoneBy(net, early, finish)
    ensures Greatest(net, finish, late)
  {
    AllAreBelow(net, order, finish, late, early);
    forall k | k in net ensures late[k] >= 0 && late[k] + net[k].duration <= finish {
      assert SettledAt(net, true, finish, late, k);
    }
    forall k, l | k in net && l in net[k].predecessors && l.activity in net ensures Honours(net, late, k, l) {
      assert Follows(net, k, l.activity) && SettledAt(net, true, finish, late, l.activity);
      PairIsHonoured(net, late, l.activity, k);
    }
    forall s | Feasible(net, s) && DoneBy(net, s, finish) ensures Below(s, late) {
      AllAreBelow(net, order, finish, late, s);
    }
  }

  /** A late date that nothing holds can be moved. */
  lemma LooseCanMove(net: Network, order: seq<Id>, finish: int, late: Dates, k: Id)
    requires WellFormed(net) && Topological(net, order) && Feasible(net, late) && DoneBy(net, late, finish) && k in net
    requires late[k] + net[k].duration < finish
    requires forall s :: Follows(net, s, k) ==> late[k] + PairWeight(net, true, k, s) < late[s]
    ensures Feasible(net, Moved(late, k, 1)) && DoneBy(net, Moved(late, k, 1), finish)
  {
    var i := Position(net, order, k);
    NoSelfLink(net, order, i);
    var more := Moved(late, k, 1);
    forall j, l | j in net && l in net[j].predecessors && l.activity in net ensures Honours(net, more, j, l) {
      assert Honours(net, late, j, l);
      HonoursIsWeight(net, late, j, l);
      HonoursIsWeight(net, more, j, l);
      if l.activity == k {
        assert Follows(net, j, k);
        PairIsHonoured(net, more, k, j);
      }
    }
  }

  lemma GreatestIsSettled(net: Network, order: seq<Id>, finish: int, late: Dates)
    requires WellFormed(net) && Topological(net, order) && Greatest(net, finish, late)
    ensures Settled(net, true, finish, late)
  {
    forall k | k in net ensures SettledAt(net, true, finish, late, k) {
      forall s | Follows(net, s, k) ensures late[k] + PairWeight(net, true, k, s) <= late[s] {
        PairIsHonoured(net, late, k, s);
      }
      if late[k] + net[k].duration < finish && forall s :: Follows(net, s, k) ==> late[k] + PairWeight(net, true, k, s) < late[s] {
        LooseCanMove(net, order, finish, late, k);
        assert false;
      }
    }
  }

  /** For every mix of link types and lags of either sign: the backward pass yields the
      greatest schedule that keeps the project finish if and only if the longest chains agree. */
  lemma LateIsGreatestIffChainsAgree(net: Network, order: seq<Id>, finish: int, early: Dates, late: Dates)
    requires WellFormed(net) && Topological(net, order)
    requires Early(net, early) && ProjectFinish(net, early, finish) && Late(net, finish, late)
    ensures Greatest(net, finish, late) <==> ChainsAgree(net)
  {
    hide Greatest, Settled, Early, Topological, Feasible, ChainsAgree;
    EarlyIsFeasible(net, early);
    LateIsSettledIffChainsAgree(net, order, finish, late);
    if Settled(net, true, finish, late) { SettledIsGreatest(net, order, finish, early, late); }
    if Greatest(net, finish, late) { GreatestIsSettled(net, order, finish, late); }
  }

  // ---------------------------------------------------------------- a condition on each pair of activities

  /** What the pass reads for a pair is the heaviest of its links and hands the finish on,
      or is no lighter and amounts to the finish of a last activity. */
  ghost predicate ReadsRightAt(net: Network, k: Id, s: Id)
    requires k in net && Follows(net, s, k)
  {
    var read, heaviest := PairWeight(net, false, k, s), PairWeight(net, true, k, s);
    && heaviest <= read
    && read + net[s].duration >= net[k].duration
    && (heaviest == read || (Terminal(net, s) && read + net[s].duration == net[k].duration))
  }

  ghost predicate ReadsRight(net: Network) {
    forall k, s {:trigger ReadsRightAt(net, k, s)} :: k in net && Follows(net, s, k) ==> ReadsRightAt(net, k, s)
  }

  lemma ReadDateIsDone(net: Network, finish: int, late: Dates, k: Id)
    requires ReadsRight(net) && late.Keys == net.Keys && k in net && SettledAt(net, false, finish, late, k)
    requires forall s :: Follows(net, s, k) ==> late[s] + net[s].duration <= finish
    ensures late[k] + net[k].duration <= finish
  {
    if !Terminal(net, k) {
      var s :| Follows(net, s, k) && late[k] + PairWeight(net, false, k, s) == late[s];
      assert ReadsRightAt(net, k, s);
    }
  }

  lemma {:induction false} ReadDatesAreDone(net: Network, order: seq<Id>, finish: int, late: Dates, i: nat)
    requires ReadsRight(net) && Topological(net, order) && late.Keys == net.Keys && Settled(net, false, finish, late)
    requires i <= |order|
    ensures forall k :: k in order[i..] ==> late[k] + net[k].duration <= finish
    decreases |order| - i
  {
    if i < |order| {
      ReadDatesAreDone(net, order, finish, late, i + 1);
      var k := order[i];
      forall s | Follows(net, s, k) ensures late[s] + net[s].duration <= finish {
        SuccessorIsLater(net, order, k, s, i);
      }
      assert SettledAt(net, false, finish, late, k);
      ReadDateIsDone(net, finish, late, k);
      DropNextOne(order, i);
    }
  }

  lemma ReadDateIsSettled(net: Network, finish: int, late: Dates, k: Id)
    requires ReadsRight(net) && late.Keys == net.Keys && k in net
    requires Settled(net, false, finish, late) && late[k] + net[k].duration <= finish
    ensures SettledAt(net, true, finish, late, k)
  {
    assert SettledAt(net, false, finish, late, k);
    forall s | Follows(net, s, k) ensures late[k] + PairWeight(net, true, k, s) <= late[s] {
      assert ReadsRightAt(net, k, s);
    }
    if !Terminal(net, k) {
      var s :| Follows(net, s, k) && late[k] + PairWeight(net, false, k, s) == late[s];
      assert ReadsRightAt(net, k, s);
      assert SettledAt(net, false, finish, late, s);
    }
  }

  /** Where the pass reads every pair right, the chains agree. */
  lemma ReadsRightAgrees(net: Network, order: seq<Id>, finish: int, late: Dates)
    requires ReadsRight(net) && Topological(net, order) && Late(net, finish, late)
    ensures ChainsAgree(net)
  {
    assert late.Keys == net.Keys;
    LateIsSettled(net, finish, late);
    ReadDatesAreDone(net, order, finish, late, 0);
    assert order[0..] == order;
    forall k | k in net ensures SettledAt(net, true, finish, late, k) {
      assert k in order by { var i := Position(net, order, k); }
      ReadDateIsSettled(net, finish, late, k);
    }
    LateIsSettledIffChainsAgree(net, order, finish, late);
  }

  lemma FinishToStartReadsRight(net: Network)
    requires WellFormed(net) && FinishToStart(net)
    ensures ReadsRight(net)
  {
    forall k, s | k in net && Follows(net, s, k) ensures ReadsRightAt(net, k, s) {
      assert FirstLink(net[s].predecessors, k) in net[s].predecessors;
    }
  }

  /** So where every pair is read right, the late dates are the greatest schedule that keeps
      the project finish. */
  lemma LateIsGreatest(net: Network, order: seq<Id>, finish: int, early: Dates, late: Dates)
    requires WellFormed(net) && ReadsRight(net) && Topological(net, order)
    requires Early(net, early) && ProjectFinish(net, early, finish) && Late(net, finish, late)
    ensures Greatest(net, finish, late)
  {
    hide *;
    ReadsRightAgrees(net, order, finish, late);
    LateIsGreatestIffChainsAgree(net, order, finish, early, late);
  }

  // ---------------------------------------------------------------- exact floats

  /** `k` can start `delay` late without moving the finish exactly when `delay` is within
      its total float. */
  ghost predicate FloatExactAt(net: Network, finish: int, early: Dates, late: Dates, k: Id, delay: nat)
    requires early.Keys == late.Keys == net.Keys && k in net
  {
    CanStartAt(net, k, early[k] + delay, finish) <==> delay <= late[k] - early[k]
  }

  ghost predicate FloatsExact(net: Network, finish: int, early: Dates, late: Dates)
    requires early.Keys == late.Keys == net.Keys
  {
    forall k, delay: nat {:trigger FloatExactAt(net, finish, early, late, k, delay)} ::
      k in net ==> FloatExactAt(net, finish, early, late, k, delay)
  }

  lemma GreatestFloatsExact(net: Network, finish: int, early: Dates, late: Dates)
    requires early.Keys == net.Keys && Greatest(net, finish, late)
    ensures FloatsExact(net, finish, early, late)
  {
    forall k, delay: nat | k in net ensures FloatExactAt(net, finish, early, late, k, delay) {
      if delay <= late[k] - early[k] {
        assert Feasible(net, late) && late[k] >= early[k] + delay && DoneBy(net, late, finish);
      }
      if CanStartAt(net, k, early[k] + delay, finish) {
        var s :| Feasible(net, s) && s[k] >= early[k] + delay && DoneBy(net, s, finish);
        assert Below(s, late);
      }
    }
  }

  /** With exact floats every late start is reached by some schedule, and passed by none. */
  lemma ExactIsReached(net: Network, finish: int, early: Dates, late: Dates, k: Id) returns (s: Dates)
    requires early.Keys == late.Keys == net.Keys && k in net && FloatsExact(net, finish, early, late)
    requires Feasible(net, early) && DoneBy(net, early, finish)
    ensures Feasible(net, s) && DoneBy(net, s, finish) && s[k] >= late[k] >= early[k]
  {
    assert FloatExactAt(net, finish, early, late, k, 0);
    assert CanStartAt(net, k, early[k] + 0, finish);
    assert FloatExactAt(net, finish, early, late, k, late[k] - early[k]);
    s :| Feasible(net, s) && s[k] >= late[k] && DoneBy(net, s, finish);
  }

  lemma ExactIsAbove(net: Network, finish: int, early: Dates, late: Dates, s: Dates, k: Id)
    requires early.Keys == late.Keys == net.Keys && k in net && FloatsExact(net, finish, early, late)
    requires Feasible(net, s) && DoneBy(net, s, finish)
    ensures s[k] <= late[k] || s[k] < early[k]
  {
    if s[k] >= early[k] {
      assert CanStartAt(net, k, early[k] + (s[k] - early[k]), finish);
      assert FloatExactAt(net, finish, early, late, k, s[k] - early[k]);
    }
  }

  lemma ExactFloatsGreatest(net: Network, order: seq<Id>, finish: int, early: Dates, late: Dates)
    requires WellFormed(net) && Topological(net, order) && Early(net, early) && DoneBy(net, early, finish) && late.Keys == net.Keys
    requires FloatsExact(net, finish, early, late)
    ensures Greatest(net, finish, late)
  {
    EarlyIsFeasible(net, early);
    EarlyIsLeast(net, order, early);
    forall s | Feasible(net, s) && DoneBy(net, s, finish) ensures Below(s, late) {
      forall k | k in net ensures s[k] <= late[k] {
        assert Below(early, s);
        ExactIsAbove(net, finish, early, late, s, k);
      }
    }
    forall k | k in net ensures late[k] >= 0 && late[k] + net[k].duration <= finish {
      var s := ExactIsReached(net, finish, early, late, k);
    }
    forall k, l | k in net && l in net[k].predecessors && l.activity in net ensures Honours(net, late, k, l) {
      var s := ExactIsReached(net, finish, early, late, l.activity);
      assert Below(s, late) && Honours(net, s, k, l);
      HonoursIsWeight(net, s, k, l);
      HonoursIsWeight(net, late, k, l);
    }
  }

  /** For every mix of link types: the total floats of all activities are exact if and only
      if the longest chains agree. */
  lemma FloatsExactIffChainsAgree(net: Network, order: seq<Id>, finish: int, early: Dates, late: Dates)
    requires WellFormed(net) && Topological(net, order)
    requires Early(net, early) && ProjectFinish(net, early, finish) && Late(net, finish, late)
    ensures FloatsExact(net, finish, early, late) <==> ChainsAgree(net)
  {
    LateIsGreatestIffChainsAgree(net, order, finish, early, late);
    hide Greatest, Late, Early, Topological, FloatsExact, ChainsAgree;
    if FloatsExact(net, finish, early, late) { ExactFloatsGreatest(net, order, finish, early, late); }
    if Greatest(net, finish, late) { GreatestFloatsExact(net, finish, early, late); }
  }

  /** An activity that the analysis calls critical is one that cannot start any later. */
  lemma CriticalCannotMove(net: Network, order: seq<Id>, finish: int, early: Dates, late: Dates, k: Id)
    requires WellFormed(net) && ChainsAgree(net) && Topological(net, order) && k in net
    requires Early(net, early) && ProjectFinish(net, early, finish) && Late(net, finish, late)
    ensures late[k] - early[k] <= 0 <==> !CanStartAt(net, k, early[k] + 1, finish)
  {
    assert early.Keys == late.Keys == net.Keys;
    hide CanStartAt, Late, Early, Topological, ChainsAgree;
    FloatsExactIffChainsAgree(net, order, finish, early, late);
    assert FloatExactAt(net, finish, early, late, k, 1);
  }

  lemma TotalFloatIsNonNegative(net: Network, order: seq<Id>, finish: int, early: Dates, late: Dates)
    requires WellFormed(net) && ChainsAgree(net) && Topological(net, order)
    requires Early(net, early) && ProjectFinish(net, early, finish) && Late(net, finish, late)
    ensures Below(early, late)
  {
    LateIsGreatestIffChainsAgree(net, order, finish, early, late);
    EarlyIsFeasible(net, early);
  }

  // ---------------------------------------------------------------- allowing the project more time

  /** The later of the early schedule and the late schedule moved by `extra`. */
  ghost function Relaxed(net: Network, early: Dates, late: Dates, extra: nat): (r: Dates)
    requires early.Keys == late.Keys == net.Keys
  {
    map k | k in net :: if early[k] >= late[k] + extra then early[k] else late[k] + extra
  }

  lemma RelaxedIsFeasible(net: Network, finish: int, early: Dates, late: Dates, extra: nat)
    requires WellFormed(net) && Feasible(net, early) && Feasible(net, late)
    requires DoneBy(net, early, finish) && DoneBy(net, late, finish)
    ensures Feasible(net, Relaxed(net, early, late, extra))
    ensures DoneBy(net, Relaxed(net, early, late, extra), finish + extra)
  {
    var s := Relaxed(net, early, late, extra);
    forall j, l | j in net && l in net[j].predecessors ensures Honours(net, s, j, l) {
      HonoursIsWeight(net, early, j, l);
      HonoursIsWeight(net, late, j, l);
      HonoursIsWeight(net, s, j, l);
    }
  }

  ghost function Shifted(net: Network, late: Dates, extra: nat): Dates
    requires late.Keys == net.Keys
  {
    map k | k in net :: late[k] + extra
  }

  lemma ShiftedIsSettled(net: Network, finish: int, late: Dates, extra: nat)
    requires late.Keys == net.Keys && Settled(net, true, finish, late)
    ensures Settled(net, true, finish + extra, Shifted(net, late, extra))
  {
    var shifted := Shifted(net, late, extra);
    forall k | k in net ensures SettledAt(net, true, finish + extra, shifted, k) {
      assert SettledAt(net, true, finish, late, k);
      if late[k] + net[k].duration != finish {
        var t :| Follows(net, t, k) && late[k] + PairWeight(net, true, k, t) == late[t];
        assert shifted[k] + PairWeight(net, true, k, t) == shifted[t];
      }
    }
  }

  /** Allowing the whole project `extra` time allows each activity exactly that much past
      its late start. */
  lemma LateShifts(net: Network, order: seq<Id>, finish: int, late: Dates, extra: nat, s: Dates)
    requires WellFormed(net) && ChainsAgree(net) && Topological(net, order) && Late(net, finish, late)
    requires Feasible(net, s) && DoneBy(net, s, finish + extra)
    ensures forall k :: k in net ==> s[k] <= late[k] + extra
  {
    assert late.Keys == s.Keys == net.Keys;
    LateIsSettledIffChainsAgree(net, order, finish, late);
    ShiftedIsSettled(net, finish, late, extra);
    AllAreBelow(net, order, finish + extra, Shifted(net, late, extra), s);
  }

  /** Total float is exact: `k` can start late by `delay` with the project done `extra`
      after its finish exactly when the delay is at most the float plus `extra`. */
  lemma TotalFloatIsExact(net: Network, order: seq<Id>, finish: int, early: Dates, late: Dates, k: Id, delay: nat, extra: nat)
    requires WellFormed(net) && ChainsAgree(net) && Topological(net, order) && k in net
    requires Early(net, early) && ProjectFinish(net, early, finish) && Late(net, finish, late)
    ensures CanStartAt(net, k, early[k] + delay, finish + extra) <==> delay <= late[k] - early[k] + extra
  {
    assert early.Keys == late.Keys == net.Keys;
    hide Topological, Late, Early, ChainsAgree, DoneBy;
    LateIsGreatestIffChainsAgree(net, order, finish, early, late);
    EarlyIsFeasible(net, early);
    if delay <= late[k] - early[k] + extra {
      RelaxedIsFeasible(net, finish, early, late, extra);
      var s := Relaxed(net, early, late, extra);
      assert Feasible(net, s) && s[k] >= early[k] + delay && DoneBy(net, s, finish + extra);
    }
    if CanStartAt(net, k, early[k] + delay, finish + extra) {
      var s :| Feasible(net, s) && s[k] >= early[k] + delay && DoneBy(net, s, finish + extra);
      LateShifts(net, order, finish, late, extra, s);
    }
  }
}
