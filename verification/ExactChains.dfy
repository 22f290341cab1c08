/** Exactly when the reported impact equals the growth of a re-run, for all link types. */
module ExactChains {
  import opened Basics
  import opened Networks
  import opened Schedules
  import opened Delays
  import opened Coverage
  import opened Exactness
  import opened Chains

  // ---------------------------------------------------------------- chains that no slip shortens

  /** No activity whose finish the chain holds hands on its start alone, so that the chain
      loses no slip. */
  predicate Unshortened(c: Chain) {
    c.Onto? ==> Unshortened(c.before) && (Held(c.before) ==> HandsFinish(c.link))
  }

  lemma {:induction false} NothingTotals(keys: seq<Id>, slip: map<Id, nat>)
    requires forall k :: k in keys ==> k in slip && slip[k] == 0
    ensures Total(keys, slip) == 0
  {
    if keys != [] { NothingTotals(keys[..|keys| - 1], slip); }
  }

  /** Such a chain gains exactly the slips of its `Plus`. */
  lemma {:induction false} GainedExactly(c: Chain, slip: map<Id, nat>)
    requires Unshortened(c) && forall k :: k in Nodes(c) ==> k in slip
    ensures (forall k :: k in Plus(c) ==> k in slip) && forall k :: k in PlusAtStart(c) ==> k in slip
    ensures Gained(c, slip) + (if Held(c) then slip[c.activity] else 0) == Total(PlusAtStart(c), slip)
    ensures Gained(c, slip) + slip[c.activity] == Total(Plus(c), slip)
  {
    hide Total;
    PlusAreNodes(c);
    TotalAfter(PlusAtStart(c), c.activity, slip);
    if c.Onto? { GainedExactly(c.before, slip); } else { NothingTotals([], slip); }
  }

  // ---------------------------------------------------------------- slips that shorten all other chains

  /** What a link hands on of the relaxed dates of its predecessor. */
  function Handed(start: Dates, finish: Dates, l: Link): int
    requires l.activity in start && l.activity in finish
  {
    (if HandsFinish(l) then finish[l.activity] else start[l.activity]) + l.lag
  }

  /** The latest of `floor` and what the links hand on that hold a finish, or a start. */
  function LatestHanded(start: Dates, finish: Dates, links: seq<Link>, holds: bool, floor: int): (h: int)
    requires forall l :: l in links ==> l.activity in start && l.activity in finish
    ensures h >= floor
    ensures forall l :: l in links && HoldsFinish(l) == holds ==> h >= Handed(start, finish, l)
    ensures h == floor || exists l :: l in links && HoldsFinish(l) == holds && h == Handed(start, finish, l)
  {
    if links == [] then floor
    else
      var front, last := links[..|links| - 1], links[|links| - 1];
      assert links == front + [last];
      var h := LatestHanded(start, finish, front, holds, floor);
      if HoldsFinish(last) == holds then Max(h, Handed(start, finish, last)) else h
  }

  /** Relaxed dates: starts obey the links to starts, finishes those to finishes and a
      duration longer by at least `base`, and each is held by one of them. */
  ghost predicate RelaxedAt(net: Network, base: map<Id, nat>, start: Dates, finish: Dates, k: Id)
    requires k in net && k in base && k in start && k in finish
  {
    && (forall l :: l in net[k].predecessors ==> l.activity in start && l.activity in finish)
    && start[k] == LatestHanded(start, finish, net[k].predecessors, false, 0)
    && finish[k] == LatestHanded(start, finish, net[k].predecessors, true, start[k] + net[k].duration + base[k])
  }

  ghost predicate RelaxedDates(net: Network, base: map<Id, nat>, start: Dates, finish: Dates) {
    && base.Keys == start.Keys == finish.Keys == net.Keys
    && forall k {:trigger RelaxedAt(net, base, start, finish, k)} :: k in net ==> RelaxedAt(net, base, start, finish, k)
  }

  lemma {:induction false} LatestAgrees(a: Dates, b: Dates, c: Dates, d: Dates, links: seq<Link>, holds: bool, floor: int)
    requires forall l :: l in links ==> l.activity in a && l.activity in b && l.activity in c && l.activity in d
    requires forall l :: l in links ==> a[l.activity] == c[l.activity] && b[l.activity] == d[l.activity]
    ensures LatestHanded(a, b, links, holds, floor) == LatestHanded(c, d, links, holds, floor)
  {
    if links != [] { LatestAgrees(a, b, c, d, links[..|links| - 1], holds, floor); }
  }

  lemma RelaxedNext(net: Network, base: map<Id, nat>, start: Dates, finish: Dates, k: Id, first: int, last: int)
    requires k in net && k in base && k !in start && k !in finish
    requires forall l :: l in net[k].predecessors ==> l.activity in start && l.activity in finish
    requires first == LatestHanded(start, finish, net[k].predecessors, false, 0)
    requires last == LatestHanded(start, finish, net[k].predecessors, true, first + net[k].duration + base[k])
    ensures RelaxedAt(net, base, start[k := first], finish[k := last], k)
  {
    hide LatestHanded;
    var s, f := start[k := first], finish[k := last];
    LatestAgrees(start, finish, s, f, net[k].predecessors, false, 0);
    LatestAgrees(start, finish, s, f, net[k].predecessors, true, first + net[k].duration + base[k]);
  }

  lemma RelaxedStays(net: Network, base: map<Id, nat>, start: Dates, finish: Dates, k: Id, first: int, last: int, j: Id)
    requires k !in start && k !in finish && j in net && j in base && j in start && j in finish
    requires RelaxedAt(net, base, start, finish, j)
    ensures RelaxedAt(net, base, start[k := first], finish[k := last], j)
  {
    hide LatestHanded;
    var s, f := start[k := first], finish[k := last];
    LatestAgrees(start, finish, s, f, net[j].predecessors, false, 0);
    LatestAgrees(start, finish, s, f, net[j].predecessors, true, start[j] + net[j].duration + base[j]);
  }

  lemma RelaxedStep(net: Network, base: map<Id, nat>, start: Dates, finish: Dates, k: Id) returns (s: Dates, f: Dates)
    requires base.Keys == net.Keys && start.Keys == finish.Keys && k in net && k !in start
    requires (forall j :: j in start ==> j in net) && forall l :: l in net[k].predecessors ==> l.activity in start
    requires forall j {:trigger RelaxedAt(net, base, start, finish, j)} :: j in start ==> RelaxedAt(net, base, start, finish, j)
    ensures s.Keys == f.Keys == start.Keys + {k}
    ensures forall j {:trigger RelaxedAt(net, base, s, f, j)} :: j in s ==> RelaxedAt(net, base, s, f, j)
  {
    hide LatestHanded, RelaxedAt;
    var links := net[k].predecessors;
    var first := LatestHanded(start, finish, links, false, 0);
    var last := LatestHanded(start, finish, links, true, first + net[k].duration + base[k]);
    s, f := start[k := first], finish[k := last];
    RelaxedNext(net, base, start, finish, k, first, last);
    forall j | j in start ensures RelaxedAt(net, base, s, f, j) {
      RelaxedStays(net, base, start, finish, k, first, last, j);
    }
  }

  lemma {:induction false} RelaxedUpTo(net: Network, order: seq<Id>, base: map<Id, nat>, i: nat)
    returns (start: Dates, finish: Dates)
    requires WellFormed(net) && Topological(net, order) && base.Keys == net.Keys && i <= |order|
    ensures start.Keys == finish.Keys && (forall k :: k in start <==> k in order[..i])
    ensures forall k {:trigger RelaxedAt(net, base, start, finish, k)} :: k in start ==>
              k in net && RelaxedAt(net, base, start, finish, k)
  {
    hide RelaxedAt;
    if i == 0 {
      start, finish := map[], map[];
    } else {
      start, finish := RelaxedUpTo(net, order, base, i - 1);
      var k := order[i - 1];
      assert order[..i] == order[..i - 1] + [k] && k !in start;
      start, finish := RelaxedStep(net, base, start, finish, k);
    }
  }

  lemma RelaxedExist(net: Network, order: seq<Id>, base: map<Id, nat>) returns (start: Dates, finish: Dates)
    requires WellFormed(net) && Topological(net, order) && base.Keys == net.Keys
    ensures RelaxedDates(net, base, start, finish)
  {
    hide RelaxedAt;
    start, finish := RelaxedUpTo(net, order, base, |order|);
    assert order[..|order|] == order;
  }

  /** The slips that give every activity its relaxed dates. */
  ghost function Stretch(net: Network, start: Dates, finish: Dates): map<Id, nat>
    requires start.Keys == finish.Keys == net.Keys && forall k :: k in net ==> start[k] + net[k].duration <= finish[k]
  {
    map k | k in net :: finish[k] - start[k] - net[k].duration
  }

  lemma StretchIsEnough(net: Network, base: map<Id, nat>, start: Dates, finish: Dates)
    requires RelaxedDates(net, base, start, finish)
    ensures forall k :: k in net ==> start[k] >= 0 && start[k] + net[k].duration + base[k] <= finish[k]
  {
    hide LatestHanded;
    forall k | k in net ensures start[k] >= 0 && start[k] + net[k].duration + base[k] <= finish[k] {
      assert RelaxedAt(net, base, start, finish, k);
    }
  }

  lemma StretchedMeets(net: Network, base: map<Id, nat>, start: Dates, finish: Dates, k: Id, l: Link)
    requires WellFormed(net) && RelaxedDates(net, base, start, finish) && k in net && l in net[k].predecessors
    ensures forall j :: j in net ==> start[j] + net[j].duration <= finish[j]
    ensures Honours(Slipped(net, Stretch(net, start, finish)), start, k, l)
  {
    StretchIsEnough(net, base, start, finish);
    assert RelaxedAt(net, base, start, finish, k);
    hide LatestHanded;
    assert (if HoldsFinish(l) then finish[k] else start[k]) >= Handed(start, finish, l);
  }

  /** With these slips the re-run is no later than the relaxed dates. */
  lemma StretchedRun(net: Network, order: seq<Id>, base: map<Id, nat>, start: Dates, finish: Dates, again: Dates,
                     newFinish: int, some: Id)
    returns (k: Id)
    requires WellFormed(net) && Topological(net, order) && RelaxedDates(net, base, start, finish) && some in net
    requires forall j :: j in net ==> start[j] + net[j].duration <= finish[j]
    requires Rerun(net, Stretch(net, start, finish), again, newFinish)
    ensures k in net && newFinish <= finish[k]
  {
    hide RelaxedAt, Honours, EarlyAt;
    var slip := Stretch(net, start, finish);
    var more := Slipped(net, slip);
    StretchIsEnough(net, base, start, finish);
    forall j, l | j in more && l in more[j].predecessors && l.activity in more ensures Honours(more, start, j, l) {
      StretchedMeets(net, base, start, finish, j, l);
    }
    SlippedOrder(net, order, slip);
    EarlyIsLeast(more, order, again);
    assert Below(again, start);
    k := LatestActivity(more, again, newFinish, some);
  }

  // ---------------------------------------------------------------- relaxed dates and chains

  /** Where a chain with the slips of `base` lets its last activity start. */
  ghost function StartBy(net: Network, c: Chain, base: map<Id, nat>): int
    requires ChainOf(net, c) && forall k :: k in PlusAtStart(c) ==> k in base
  {
    Reach(net, c) + Total(PlusAtStart(c), base)
  }

  ghost function FinishBy(net: Network, c: Chain, base: map<Id, nat>): int
    requires ChainOf(net, c) && forall k :: k in Plus(c) ==> k in base
  {
    ChainFinish(net, c) + Total(Plus(c), base)
  }

  /** An unshortened chain of which `base` covers what moves it. */
  ghost predicate Carries(net: Network, c: Chain, base: map<Id, nat>) {
    ChainOf(net, c) && Unshortened(c) && (forall k :: k in Plus(c) ==> k in base) && forall k :: k in PlusAtStart(c) ==> k in base
  }

  lemma OneLinkMore(net: Network, c: Chain, l: Link, k: Id, base: map<Id, nat>)
    requires Carries(net, c, base) && k in net && k in base && l in net[k].predecessors && l.activity == c.activity
    requires Held(c) ==> HandsFinish(l)
    ensures Carries(net, Onto(c, l, k), base) && (Held(Onto(c, l, k)) <==> HoldsFinish(l))
    ensures (if HoldsFinish(l) then FinishBy(net, Onto(c, l, k), base) else StartBy(net, Onto(c, l, k), base))
            == l.lag + if HandsFinish(l) then FinishBy(net, c, base) else StartBy(net, c, base)
  {
    hide Total;
  }

  /** A carrying chain to what a link of `order[i]` hands on. */
  lemma {:induction false} ChainToHanded(net: Network, order: seq<Id>, base: map<Id, nat>, start: Dates, finish: Dates,
                                         i: nat, l: Link)
    returns (c: Chain)
    requires WellFormed(net) && Topological(net, order) && RelaxedDates(net, base, start, finish) && i < |order|
    requires order[i] in net && l in net[order[i]].predecessors
    ensures Carries(net, c, base) && c.activity == l.activity && (Held(c) ==> HandsFinish(l)) && l.activity in net
    ensures Handed(start, finish, l) == l.lag + if HandsFinish(l) then FinishBy(net, c, base) else StartBy(net, c, base)
    decreases i, 0
  {
    hide RelaxedAt, Carries, FinishBy, StartBy, Held;
    var j := PositionBefore(net, order, i, l);
    if HandsFinish(l) {
      c := ChainToFinish(net, order, base, start, finish, j);
    } else {
      c := ChainToStart(net, order, base, start, finish, j);
    }
  }

  /** One to the relaxed start of `order[i]`, whose finish it does not hold. */
  lemma {:induction false} ChainToStart(net: Network, order: seq<Id>, base: map<Id, nat>, start: Dates, finish: Dates, i: nat)
    returns (c: Chain)
    requires WellFormed(net) && Topological(net, order) && RelaxedDates(net, base, start, finish) && i < |order|
    ensures Carries(net, c, base) && c.activity == order[i] && order[i] in net && !Held(c)
    ensures start[order[i]] == StartBy(net, c, base)
    decreases i, 1
  {
    hide Distinct, Handed, StartBy, FinishBy, Carries, Held;
    var k := order[i];
    assert RelaxedAt(net, base, start, finish, k);
    if start[k] == 0 {
      c := First(k);
      Begins(net, k, base);
    } else {
      var l :| l in net[k].predecessors && !HoldsFinish(l) && start[k] == Handed(start, finish, l);
      var before := ChainToHanded(net, order, base, start, finish, i, l);
      OneLinkMore(net, before, l, k, base);
      c := Onto(before, l, k);
    }
  }

  lemma Begins(net: Network, k: Id, base: map<Id, nat>)
    requires k in net && k in base
    ensures Carries(net, First(k), base) && !Held(First(k)) && StartBy(net, First(k), base) == 0
  {}

  /** And one to its relaxed finish. */
  lemma {:induction false} ChainToFinish(net: Network, order: seq<Id>, base: map<Id, nat>, start: Dates, finish: Dates, i: nat)
    returns (c: Chain)
    requires WellFormed(net) && Topological(net, order) && RelaxedDates(net, base, start, finish) && i < |order|
    ensures Carries(net, c, base) && c.activity == order[i] && order[i] in net
    ensures finish[order[i]] == FinishBy(net, c, base)
    decreases i, 2
  {
    hide Distinct, Handed, StartBy, FinishBy, Carries, Held;
    var k := order[i];
    assert RelaxedAt(net, base, start, finish, k);
    if finish[k] == start[k] + net[k].duration + base[k] {
      c := ChainToStart(net, order, base, start, finish, i);
      Finishes(net, c, base);
    } else {
      var l :| l in net[k].predecessors && HoldsFinish(l) && finish[k] == Handed(start, finish, l);
      var before := ChainToHanded(net, order, base, start, finish, i, l);
      OneLinkMore(net, before, l, k, base);
      c := Onto(before, l, k);
    }
  }

  lemma Finishes(net: Network, c: Chain, base: map<Id, nat>)
    requires Carries(net, c, base) && !Held(c)
    ensures c.activity in base && FinishBy(net, c, base) == StartBy(net, c, base) + net[c.activity].duration + base[c.activity]
  {
    TotalAfter(PlusAtStart(c), c.activity, base);
  }

  lemma {:induction false} TotalGrows(keys: seq<Id>, less: map<Id, nat>, more: map<Id, nat>)
    requires forall k :: k in keys ==> k in less && k in more && less[k] <= more[k]
    ensures Total(keys, less) <= Total(keys, more)
  {
    if keys != [] { TotalGrows(keys[..|keys| - 1], less, more); }
  }

  /** Slips of at least `base` with which only unshortened chains count for the re-run, and
      these by no more than the slips of `base`. */
  lemma OnlyUnshortenedCount(net: Network, order: seq<Id>, early: Dates, project: int, free: Dates, base: map<Id,
                             nat>, some: Id)
    returns (slip: map<Id, nat>, pushed: Dates, impact: int, c: Chain)
    requires WellFormed(net) && Topological(net, order) && base.Keys == free.Keys == net.Keys && some in net
    requires Early(net, early) && ProjectFinish(net, early, project)
    requires forall slip: map<Id, nat> :: slip.Keys == net.Keys ==> Exact(net, project, free, slip)
    ensures slip.Keys == net.Keys && (forall k :: k in net ==> base[k] <= slip[k]) && Reported(net, slip, free, pushed, impact)
    ensures Carries(net, c, base) && ChainFinish(net, c) <= project && project + impact <= FinishBy(net, c, base)
  {
    hide WellFormed, Topological, EarlyAt, RelaxedAt, Reported, Rerun, ChainFinish, Reach, ChainOf, Unshortened, Total, Plus;
    var start, finish := RelaxedExist(net, order, base);
    StretchIsEnough(net, base, start, finish);
    slip := Stretch(net, start, finish);
    assert Exact(net, project, free, slip);
    var again, newFinish;
    pushed, impact, again, newFinish := RunExists(net, order, slip, free);
    var k := StretchedRun(net, order, base, start, finish, again, newFinish, some);
    var i := Position(net, order, k);
    c := ChainToFinish(net, order, base, start, finish, i);
    NoChainIsLater(net, early, project, c);
  }

  // ---------------------------------------------------------------- the exact condition

  /** The slips of the path all move the chain, which loses none and leaves no more to the
      finish than the path holds free float. */
  ghost predicate MetBy(net: Network, free: Dates, finish: int, path: seq<Id>, c: Chain)
    requires Path(net, path) && free.Keys == net.Keys
  {
    && ChainOf(net, c) && Unshortened(c) && (forall k :: k in path ==> k in Plus(c))
    && finish - ChainFinish(net, c) <= Slack(path, free)
  }

  ghost predicate PathIsMet(net: Network, free: Dates, finish: int, path: seq<Id>)
    requires Path(net, path) && free.Keys == net.Keys
  {
    exists c :: MetBy(net, free, finish, path, c)
  }

  /** Every path to the end of the network is met by some chain. */
  ghost predicate PathsAreMet(net: Network, free: Dates, finish: int)
    requires free.Keys == net.Keys
  {
    forall path {:trigger PathIsMet(net, free, finish, path)} ::
      Path(net, path) && Terminal(net, Last(path)) ==> PathIsMet(net, free, finish, path)
  }

  ghost predicate HoldsProject(net: Network, finish: int, c: Chain) {
    ChainOf(net, c) && Unshortened(c) && ChainFinish(net, c) == finish
  }

  /** Some chain that no slip shortens holds the project finish. */
  ghost predicate FinishIsHeld(net: Network, finish: int) {
    net == map[] || exists c :: HoldsProject(net, finish, c)
  }

  lemma ExactPathIsMet(net: Network, order: seq<Id>, early: Dates, finish: int, free: Dates, path: seq<Id>)
    requires WellFormed(net) && Topological(net, order) && Early(net, early) && ProjectFinish(net, early, finish)
    requires free.Keys == net.Keys && (forall k :: k in net ==> free[k] >= 0)
    requires forall slip: map<Id, nat> :: slip.Keys == net.Keys ==> Exact(net, finish, free, slip)
    requires Path(net, path) && Terminal(net, Last(path))
    ensures PathIsMet(net, free, finish, path)
  {
    hide WellFormed, Topological, Early, ProjectFinish, Exact, Reported, ChainOf, Unshortened, ChainFinish, Plus,
      Total, Slack, Terminal, Walk;
    SlackIsNonNegative(path, free);
    var amount: nat := Slack(path, free) + 1;
    var base := Each(net, path, amount);
    var slip, pushed, impact, c := OnlyUnshortenedCount(net, order, early, finish, free, base, path[0]);
    ImpactCarries(net, slip, free, pushed, impact, path);
    TotalGrows(path, base, slip);
    PlusIsDistinct(net, order, c);
    IncludesAll(net, Plus(c), path, amount);
    assert MetBy(net, free, finish, path, c);
  }

  lemma ExactFinishIsHeld(net: Network, order: seq<Id>, early: Dates, finish: int, free: Dates)
    requires WellFormed(net) && Topological(net, order) && Early(net, early) && ProjectFinish(net, early, finish)
    requires free.Keys == net.Keys
    requires forall slip: map<Id, nat> :: slip.Keys == net.Keys ==> Exact(net, finish, free, slip)
    ensures FinishIsHeld(net, finish)
  {
    hide WellFormed, Topological, Early, ProjectFinish, Exact, Pushed, ChainOf, Unshortened, ChainFinish, Plus, Total;
    if net != map[] {
      var some :| some in net;
      var base := Each(net, [], 0);
      var slip, pushed, impact, c := OnlyUnshortenedCount(net, order, early, finish, free, base, some);
      NothingTotals(Plus(c), base);
      assert HoldsProject(net, finish, c);
    }
  }

  lemma ExactIsMet(net: Network, order: seq<Id>, early: Dates, finish: int, free: Dates)
    requires WellFormed(net) && Topological(net, order) && Early(net, early) && ProjectFinish(net, early, finish)
    requires free.Keys == net.Keys && forall k :: k in net ==> free[k] >= 0
    requires forall slip: map<Id, nat> :: slip.Keys == net.Keys ==> Exact(net, finish, free, slip)
    ensures ChainsFit(net, free, finish) && PathsAreMet(net, free, finish) && FinishIsHeld(net, finish)
  {
    hide WellFormed, Topological, Early, ProjectFinish, Walk, PathIsMet, ChainsFit, FinishIsHeld, Terminal, Covers;
    forall slip: map<Id, nat> | slip.Keys == net.Keys ensures Covers(net, finish, free, slip) {
      ExactIsCovered(net, finish, free, slip);
    }
    CoveringChainsFit(net, order, early, finish, free);
    ExactFinishIsHeld(net, order, early, finish, free);
    forall path | Path(net, path) && Terminal(net, Last(path)) ensures PathIsMet(net, free, finish, path) {
      ExactPathIsMet(net, order, early, finish, free, path);
    }
  }

  lemma UnshortenedIsReached(net: Network, slip: map<Id, nat>, again: Dates, newFinish: int, c: Chain)
    requires WellFormed(net) && slip.Keys == net.Keys && Rerun(net, slip, again, newFinish) && ChainOf(net, c) && Unshortened(c)
    ensures (forall k :: k in Plus(c) ==> k in slip) && ChainFinish(net, c) + Total(Plus(c), slip) <= newFinish
  {
    hide Rerun, Total, Gained, ChainFinish, Plus;
    NodesAreIn(net, c);
    GainedExactly(c, slip);
    RunReachesChain(net, slip, again, newFinish, c);
  }

  lemma MetPathIsReached(net: Network, slip: map<Id, nat>, finish: int, free: Dates, again: Dates, newFinish: int,
                         path: seq<Id>)
    requires WellFormed(net) && slip.Keys == free.Keys == net.Keys && Rerun(net, slip, again, newFinish)
    requires Path(net, path) && Distinct(path) && PathIsMet(net, free, finish, path)
    ensures Total(path, slip) - Slack(path, free) <= newFinish - finish
  {
    hide Rerun, Total, Slack, Gained, ChainFinish, Walk;
    var c :| MetBy(net, free, finish, path, c);
    UnshortenedIsReached(net, slip, again, newFinish, c);
    TotalWithin(path, Plus(c), slip);
  }

  lemma HeldFinishStays(net: Network, slip: map<Id, nat>, early: Dates, finish: int, again: Dates, newFinish: int)
    requires WellFormed(net) && early.Keys == slip.Keys == net.Keys && ProjectFinish(net, early, finish)
    requires Rerun(net, slip, again, newFinish) && FinishIsHeld(net, finish)
    ensures finish <= newFinish
  {
    hide Rerun, Total, ChainFinish, ProjectFinish;
    if net == map[] {
      NothingGrows(net, slip, early, finish, again, newFinish);
    } else {
      var c :| HoldsProject(net, finish, c);
      UnshortenedIsReached(net, slip, again, newFinish, c);
    }
  }

  lemma MetPathsAreExact(net: Network, order: seq<Id>, early: Dates, finish: int, free: Dates, slip: map<Id, nat>)
    requires WellFormed(net) && Topological(net, order)
    requires Early(net, early) && ProjectFinish(net, early, finish) && free.Keys == slip.Keys == net.Keys
    requires ChainsFit(net, free, finish) && PathsAreMet(net, free, finish) && FinishIsHeld(net, finish)
    ensures Exact(net, finish, free, slip)
  {
    hide WellFormed, Topological, EarlyAt, ProjectFinish, ChainsFit, FinishIsHeld, PathIsMet, Walk, Terminal, Slack, Total;
    FittingChainsCover(net, order, early, finish, free, slip);
    forall pushed, impact, again, newFinish |
      Reported(net, slip, free, pushed, impact) && Rerun(net, slip, again, newFinish)
      ensures impact == newFinish - finish
    {
      HeldFinishStays(net, slip, early, finish, again, newFinish);
      if impact > 0 {
        var path := PathCarriesImpact(net, order, slip, free, pushed, impact);
        assert PathIsMet(net, free, finish, path);
        MetPathIsReached(net, slip, finish, free, again, newFinish, path);
      }
    }
  }

  /** For every mix of link types, lags of either sign and repeated pairs: the impact equals
      the growth for all slips if and only if every chain fits and chains that lose no slip
      meet every path to the end and hold the project finish. */
  lemma ExactForAllSlipsIffMet(net: Network, order: seq<Id>, early: Dates, finish: int, late: Dates, free: Dates)
    requires WellFormed(net) && Topological(net, order)
    requires Early(net, early) && ProjectFinish(net, early, finish) && Late(net, finish, late)
    requires Free(net, early, late, free)
    ensures (forall slip: map<Id, nat> :: slip.Keys == net.Keys ==> Exact(net, finish, free, slip))
            <==> ChainsFit(net, free, finish) && PathsAreMet(net, free, finish) && FinishIsHeld(net, finish)
  {
    hide WellFormed, Topological, EarlyAt, LateAt, FreeAt, ProjectFinish, ChainsFit, PathsAreMet, FinishIsHeld, Exact;
    FreeIsNonNegative(net, early, finish, late, free);
    if ChainsFit(net, free, finish) && PathsAreMet(net, free, finish) && FinishIsHeld(net, finish) {
      forall slip: map<Id, nat> | slip.Keys == net.Keys ensures Exact(net, finish, free, slip) {
        MetPathsAreExact(net, order, early, finish, free, slip);
      }
    }
    if forall slip: map<Id, nat> :: slip.Keys == net.Keys ==> Exact(net, finish, free, slip) {
      ExactIsMet(net, order, early, finish, free);
    }
  }

  // ---------------------------------------------------------------- where nothing shortens

  /** No activity whose finish is held hands on its start alone: then no slip ever makes
      anything earlier. */
  ghost predicate NothingShortens(net: Network) {
    forall k, l, s, m :: k in net && l in net[k].predecessors && s in net && m in net[s].predecessors && m.activity == k ==>
      HoldsFinish(l) ==> HandsFinish(m)
  }

  lemma {:induction false} NothingShortensChain(net: Network, c: Chain)
    requires NothingShortens(net) && ChainOf(net, c)
    ensures Unshortened(c)
  {
    if c.Onto? { NothingShortensChain(net, c.before); }
  }

  /** Some chain holds the project finish. */
  lemma ChainOfEarly(net: Network, order: seq<Id>, early: Dates, finish: int, some: Id) returns (c: Chain)
    requires WellFormed(net) && Topological(net, order) && Early(net, early) && ProjectFinish(net, early, finish) && some in net
    ensures ChainOf(net, c) && ChainFinish(net, c) == finish
  {
    var none := Each(net, [], 0);
    assert Slipped(net, none) == net;
    c := ChainReachesRun(net, order, none, early, finish, some);
    GainsNothing(c, none);
  }

  lemma {:induction false} GainsNothing(c: Chain, slip: map<Id, nat>)
    requires (forall k :: k in Nodes(c) ==> k in slip) && forall k :: k in slip ==> slip[k] == 0
    ensures Gained(c, slip) == 0
  {
    if c.Onto? { GainsNothing(c.before, slip); }
  }

  lemma NothingShortensHolds(net: Network, order: seq<Id>, early: Dates, finish: int)
    requires WellFormed(net) && Topological(net, order) && NothingShortens(net)
    requires Early(net, early) && ProjectFinish(net, early, finish)
    ensures FinishIsHeld(net, finish)
  {
    hide WellFormed, Topological, NothingShortens, Early, ProjectFinish, ChainOf, Unshortened, ChainFinish;
    if net != map[] {
      var some :| some in net;
      var c := ChainOfEarly(net, order, early, finish, some);
      NothingShortensChain(net, c);
      assert HoldsProject(net, finish, c);
    }
  }

  /** There some chain always holds the project finish, and the other two conditions decide. */
  lemma ExactWhereNothingShortens(net: Network, order: seq<Id>, early: Dates, finish: int, late: Dates, free: Dates)
    requires WellFormed(net) && Topological(net, order) && NothingShortens(net)
    requires Early(net, early) && ProjectFinish(net, early, finish) && Late(net, finish, late)
    requires Free(net, early, late, free)
    ensures (forall slip: map<Id, nat> :: slip.Keys == net.Keys ==> Exact(net, finish, free, slip))
            <==> ChainsFit(net, free, finish) && PathsAreMet(net, free, finish)
  {
    hide WellFormed, Topological, NothingShortens, EarlyAt, LateAt, FreeAt, ProjectFinish, ChainsFit, PathsAreMet,
      FinishIsHeld, Exact;
    NothingShortensHolds(net, order, early, finish);
    ExactForAllSlipsIffMet(net, order, early, finish, late, free);
  }

  lemma StartDrivenNeverShortens(net: Network)
    requires StartDriven(net)
    ensures NothingShortens(net)
  {}
}
