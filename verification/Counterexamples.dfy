/** Concrete schedules on which the analysis does not give what it does for
    finish-to-start networks: why the conditions of the theorems are there. */
module Counterexamples {
  import opened Basics
  import opened Networks
  import opened Schedules
  import opened Delays
  import opened LateDates
  import opened Exactness

  /** One network with the figures the passes compute for it. */
  datatype Case = Case(net: Network, order: seq<Id>, early: Dates, finish: int, late: Dates, free: Dates)

  ghost predicate Genuine(c: Case) {
    && WellFormed(c.net) && Topological(c.net, c.order)
    && Early(c.net, c.early) && ProjectFinish(c.net, c.early, c.finish)
    && Late(c.net, c.finish, c.late) && Free(c.net, c.early, c.late, c.free)
  }

  // ---------------------------------------------------------------- cycles

  /** `a` and `b` follow each other, and `c` follows `b`. */
  function Loop(a: Id, b: Id, c: Id): Network {
    map[a := Task(1, [Link(b, FS, 0)]), b := Task(1, [Link(a, FS, 0)]), c := Task(1, [Link(b, FS, 0)])]
  }

  /** What the sort leaves over, and the analysis names as involved in a cycle, need not be
      on one. */
  lemma BehindIsNotOnCycle(a: Id, b: Id, c: Id)
    requires a != b && a != c && b != c
    ensures BehindCycle(Loop(a, b, c), c)
    ensures forall w: seq<Id> :: |w| >= 2 && w[0] == w[|w| - 1] && Walk(Loop(a, b, c), w) ==> c !in w
  {
    var net := Loop(a, b, c);
    assert Link(b, FS, 0) in net[a].predecessors && Link(a, FS, 0) in net[b].predecessors && Link(b, FS, 0) in net[c].predecessors;
    var w := [b, a, b, c];
    assert Follows(net, a, b) && Follows(net, b, a) && Follows(net, c, b);
    assert Walk(net, w) && w[0] == w[2];
    forall w: seq<Id> | |w| >= 2 && w[0] == w[|w| - 1] && Walk(net, w) ensures c !in w {
      forall i | 0 <= i < |w| ensures w[i] != c {
        if i < |w| - 1 { assert Follows(net, w[i + 1], w[i]); } else { assert Follows(net, w[0 + 1], w[0]); }
      }
    }
  }

  // ---------------------------------------------------------------- two activities

  /** `x` of duration `a`, followed by `y` of duration `b` over `links`. */
  function Pair(x: Id, y: Id, a: nat, b: nat, links: seq<Link>): Network {
    map[x := Task(a, []), y := Task(b, links)]
  }

  /** The figures of a pair: `y` starts at `start`, and two figures of `x`. */
  function PairCase(x: Id, y: Id, a: nat, b: nat, links: seq<Link>, start: nat, lateA: int, freeA: int): Case {
    var finish := Max(a, start + b);
    Case(Pair(x, y, a, b, links), [x, y], map[x := 0, y := start], finish, map[x := lateA, y := finish - b],
         map[x := freeA, y := finish - b - start])
  }

  ghost predicate LinksFrom(x: Id, links: seq<Link>) {
    links != [] && forall l :: l in links ==> l.activity == x
  }

  lemma PairShape(x: Id, y: Id, a: nat, b: nat, links: seq<Link>)
    requires x != y
    requires LinksFrom(x, links)
    ensures Pair(x, y, a, b, links).Keys == {x, y} && WellFormed(Pair(x, y, a, b, links))
    ensures Topological(Pair(x, y, a, b, links), [x, y])
    ensures forall s, p :: Follows(Pair(x, y, a, b, links), s, p) <==> s == y && p == x
    ensures links[0] in links && FirstLink(links, x) == links[0]
  {
    assert links[0] in links;
    assert [x, y][..0] == [] && [x, y][..1] == [x];
  }

  /** `y` starts where its links put it. */
  ghost predicate StartsAt(x: Id, y: Id, a: nat, b: nat, links: seq<Link>, start: int) {
    && (forall l :: l in links ==> l.activity in Pair(x, y, a, b, links) && start >= Weight(Pair(x, y, a, b, links), y, l))
    && (start == 0 || exists l :: l in links && l.activity in Pair(x, y, a, b, links) && start == Weight(Pair(x, y, a, b, links), y, l))
  }

  lemma PairEarly(x: Id, y: Id, a: nat, b: nat, links: seq<Link>, start: nat, lateA: int, freeA: int)
    requires x != y
    requires LinksFrom(x, links) && StartsAt(x, y, a, b, links, start)
    ensures var c := PairCase(x, y, a, b, links, start, lateA, freeA);
            Early(c.net, c.early) && ProjectFinish(c.net, c.early, c.finish)
  {
    PairShape(x, y, a, b, links);
    var c := PairCase(x, y, a, b, links, start, lateA, freeA);
    assert EarlyAt(c.net, c.early, x) && EarlyAt(c.net, c.early, y);
    var last := if c.finish == a then x else y;
    assert c.early[last] + c.net[last].duration == c.finish;
  }

  lemma PairLate(x: Id, y: Id, a: nat, b: nat, links: seq<Link>, start: nat, lateA: int, freeA: int)
    requires x != y
    requires LinksFrom(x, links)
    requires lateA + a == if links[0].kind == FS then Max(a, start + b) - b - links[0].lag else Max(a, start + b)
    ensures var c := PairCase(x, y, a, b, links, start, lateA, freeA);
            Late(c.net, c.finish, c.late)
  {
    PairShape(x, y, a, b, links);
    var c := PairCase(x, y, a, b, links, start, lateA, freeA);
    assert Follows(c.net, y, x);
    assert LateAt(c.net, c.finish, c.late, x) && LateAt(c.net, c.finish, c.late, y);
  }

  lemma PairFree(x: Id, y: Id, a: nat, b: nat, links: seq<Link>, start: nat, lateA: int, freeA: int)
    requires x != y
    requires LinksFrom(x, links) && freeA == Max(0, start - (a + links[0].lag))
    ensures var c := PairCase(x, y, a, b, links, start, lateA, freeA);
            Free(c.net, c.early, c.late, c.free)
  {
    PairShape(x, y, a, b, links);
    var c := PairCase(x, y, a, b, links, start, lateA, freeA);
    assert Follows(c.net, y, x);
    assert FreeAt(c.net, c.early, c.late, c.free, x) && FreeAt(c.net, c.early, c.late, c.free, y);
  }

  lemma PairIsGenuine(x: Id, y: Id, a: nat, b: nat, links: seq<Link>, start: nat, lateA: int, freeA: int)
    requires x != y
    requires LinksFrom(x, links) && StartsAt(x, y, a, b, links, start)
    requires lateA + a == if links[0].kind == FS then Max(a, start + b) - b - links[0].lag else Max(a, start + b)
    requires freeA == Max(0, start - (a + links[0].lag))
    ensures Genuine(PairCase(x, y, a, b, links, start, lateA, freeA))
  {
    hide Early, ProjectFinish, Late, Free, Topological, WellFormed, StartsAt, LinksFrom;
    PairShape(x, y, a, b, links);
    PairEarly(x, y, a, b, links, start, lateA, freeA);
    PairLate(x, y, a, b, links, start, lateA, freeA);
    PairFree(x, y, a, b, links, start, lateA, freeA);
  }

  /** What the links of a pair must satisfy for the backward pass to be right about it: a
      first finish-to-start link is a heaviest one and its lead no longer than the
      successor; a first link of another type leaves none heavier than the difference of
      the durations, so that the finish alone holds `x`. */
  ghost predicate PairReadsRight(x: Id, y: Id, a: nat, b: nat, links: seq<Link>)
    requires LinksFrom(x, links)
  {
    var net := Pair(x, y, a, b, links);
    if links[0].kind == FS then
      links[0].lag + b >= 0 && forall l :: l in links ==> Weight(net, y, l) <= a + links[0].lag
    else
      forall l :: l in links ==> Weight(net, y, l) <= a - b
  }

  lemma PairIsRead(x: Id, y: Id, a: nat, b: nat, links: seq<Link>)
    requires x != y && LinksFrom(x, links)
    ensures var net := Pair(x, y, a, b, links);
            Follows(net, y, x) && PairWeight(net, false, x, y) == if links[0].kind == FS then a + links[0].lag else a - b
  {
    PairShape(x, y, a, b, links);
    assert Follows(Pair(x, y, a, b, links), y, x);
  }

  lemma NoneIsHeavier(x: Id, y: Id, a: nat, b: nat, links: seq<Link>, w: int)
    requires x != y && LinksFrom(x, links)
    ensures var net := Pair(x, y, a, b, links);
            Follows(net, y, x) && (PairWeight(net, true, x, y) <= w <==> forall l :: l in links ==> Weight(net, y, l) <= w)
    ensures links[0].kind == FS ==> PairWeight(Pair(x, y, a, b, links), true, x, y) >= a + links[0].lag
  {
    PairShape(x, y, a, b, links);
    var net := Pair(x, y, a, b, links);
    assert Follows(net, y, x) && net[y].predecessors == links;
    assert Weight(net, y, links[0]) <= PairWeight(net, true, x, y);
  }

  lemma PairSettles(x: Id, y: Id, a: nat, b: nat, links: seq<Link>, finish: int, late: Dates)
    requires x != y && LinksFrom(x, links) && late.Keys == {x, y}
    requires Settled(Pair(x, y, a, b, links), false, finish, late)
    ensures Settled(Pair(x, y, a, b, links), true, finish, late) <==> PairReadsRight(x, y, a, b, links)
    ensures ReadsRight(Pair(x, y, a, b, links)) <==> PairReadsRight(x, y, a, b, links)
  {
    hide PairWeight, Weight, LinksFrom, Follows;
    var net := Pair(x, y, a, b, links);
    PairShape(x, y, a, b, links);
    PairIsRead(x, y, a, b, links);
    NoneIsHeavier(x, y, a, b, links, if links[0].kind == FS then a + links[0].lag else a - b);
    assert SettledAt(net, false, finish, late, x) && SettledAt(net, false, finish, late, y);
    assert SettledAt(net, true, finish, late, y);
    assert SettledAt(net, true, finish, late, x) <==> PairReadsRight(x, y, a, b, links);
    assert ReadsRightAt(net, x, y) <==> PairReadsRight(x, y, a, b, links);
  }

  /** On two activities the condition on pairs is exact: the late dates are the greatest
      schedule if and only if the pass reads the pair right, which the links decide. */
  lemma PairIsExactIff(x: Id, y: Id, a: nat, b: nat, links: seq<Link>, finish: int, early: Dates, late: Dates)
    requires x != y && LinksFrom(x, links)
    requires var net := Pair(x, y, a, b, links);
             Early(net, early) && ProjectFinish(net, early, finish) && Late(net, finish, late)
    ensures var net := Pair(x, y, a, b, links);
            && (Greatest(net, finish, late) <==> PairReadsRight(x, y, a, b, links))
            && (ReadsRight(net) <==> PairReadsRight(x, y, a, b, links))
  {
    var net := Pair(x, y, a, b, links);
    assert late.Keys == {x, y};
    PairShape(x, y, a, b, links);
    LateIsSettled(net, finish, late);
    LateIsGreatestIffChainsAgree(net, [x, y], finish, early, late);
    LateIsSettledIffChainsAgree(net, [x, y], finish, late);
    PairSettles(x, y, a, b, links, finish, late);
  }

  /** A start-to-start link: the backward pass reports three days of float for an
      activity that cannot start late at all. */
  lemma StartToStartFloatIsWrong(x: Id, y: Id) returns (c: Case)
    requires x != y
    ensures Genuine(c) && x in c.net && c.late[x] - c.early[x] == 300
    ensures !CanStartAt(c.net, x, c.early[x] + 1, c.finish)
  {
    hide Genuine;
    var l := Link(x, SS, 0);
    c := PairCase(x, y, 200, 500, [l], 0, 300, 0);
    PairIsGenuine(x, y, 200, 500, [l], 0, 300, 0);
    forall s | Feasible(c.net, s) && s[x] >= 1 ensures !DoneBy(c.net, s, 500) {
      assert l in c.net[y].predecessors && Honours(c.net, s, y, l);
    }
  }

  /** A lead longer than its successor: the late finish lies after the project finish. */
  lemma LongLeadFloatIsWrong(x: Id, y: Id) returns (c: Case)
    requires x != y
    ensures Genuine(c) && x in c.net && c.late[x] + c.net[x].duration == 600 > c.finish == 200
  {
    hide Genuine;
    c := PairCase(x, y, 200, 100, [Link(x, FS, -500)], 0, 400, 300);
    PairIsGenuine(x, y, 200, 100, [Link(x, FS, -500)], 0, 400, 300);
  }

  /** Two links between the same activities, the second one binding: its lag is missed
      by the backward pass. */
  lemma SecondLinkFloatIsWrong(x: Id, y: Id) returns (c: Case)
    requires x != y
    ensures Genuine(c) && x in c.net && c.late[x] - c.early[x] == 500
    ensures !CanStartAt(c.net, x, c.early[x] + 1, c.finish)
  {
    hide Genuine;
    SecondLinkIsGenuine(x, y);
    c := SecondLinkCase(x, y);
    var m := SecondLink(x)[1];
    forall s | Feasible(c.net, s) && s[x] >= 1 ensures !DoneBy(c.net, s, 700) {
      assert m in c.net[y].predecessors && Honours(c.net, s, y, m);
    }
  }

  /** A slip of `x` alone makes it longer. */
  lemma PairSlipped(x: Id, y: Id, a: nat, more: nat, b: nat, links: seq<Link>)
    requires x != y
    ensures var slip: map<Id, nat> := map[x := more, y := 0];
            slip.Keys == Pair(x, y, a, b, links).Keys && Slipped(Pair(x, y, a, b, links), slip) == Pair(x, y, a + more, b, links)
  {
    var slip: map<Id, nat> := map[x := more, y := 0];
    var net := Pair(x, y, a, b, links);
    assert slip.Keys == net.Keys;
    assert Slipped(net, slip)[y] == net[y];
  }

  lemma HiddenPushed(x: Id, y: Id, slip: map<Id, nat>, pushed: Dates)
    requires x != y && slip == map[x := 500, y := 0] && pushed == map[x := 500, y := 0]
    ensures var c := PairCase(x, y, 1000, 100, [Link(x, SS, 0)], 0, 0, 0); Pushed(c.net, slip, c.free, pushed) && Impact(c.net, pushed, 0)
  {
    hide Incoming;
    var l := Link(x, SS, 0);
    var c := PairCase(x, y, 1000, 100, [l], 0, 0, 0);
    OneIncoming(l, pushed);
    assert l in c.net[y].predecessors && Follows(c.net, y, x);
    assert PushedAt(c.net, slip, c.free, pushed, x) && PushedAt(c.net, slip, c.free, pushed, y);
  }

  /** A slip that the reported impact hides altogether: the only successor is held by the
      start of the late activity, so it does not carry the finish. */
  lemma StartToStartHidesSlip(x: Id, y: Id) returns (c: Case, slip: map<Id, nat>, pushed: Dates, again: Dates)
    requires x != y
    ensures Genuine(c) && slip.Keys == c.net.Keys && Pushed(c.net, slip, c.free, pushed) && Impact(c.net, pushed, 0)
    ensures Early(Slipped(c.net, slip), again) && ProjectFinish(Slipped(c.net, slip), again, c.finish + 500)
  {
    hide Genuine, Early, ProjectFinish, Pushed, Impact, Slipped, FirstLink;
    var l := Link(x, SS, 0);
    PairIsGenuine(x, y, 1000, 100, [l], 0, 0, 0);
    PairEarly(x, y, 1500, 100, [l], 0, 0, 0);
    c := PairCase(x, y, 1000, 100, [l], 0, 0, 0);
    slip, pushed, again := map[x := 500, y := 0], map[x := 500, y := 0], map[x := 0, y := 0];
    HiddenPushed(x, y, slip, pushed);
    PairSlipped(x, y, 1000, 500, 100, [l]);
  }

  function SecondLink(x: Id): seq<Link> { [Link(x, FS, 0), Link(x, FS, 500)] }

  function SecondLinkCase(x: Id, y: Id): Case { PairCase(x, y, 100, 100, SecondLink(x), 600, 500, 500) }

  lemma SlackOfTwo(x: Id, y: Id, free: Dates)
    requires x in free && y in free
    ensures Slack([y], free) == free[y] && Slack([x, y], free) == free[x] + free[y]
  {
    assert [x, y][1..] == [y] && [y][1..] == [];
  }

  lemma SecondLinkFits(x: Id, y: Id)
    requires x != y
    ensures var c := SecondLinkCase(x, y); c.early.Keys == c.free.Keys == c.net.Keys
    ensures var c := SecondLinkCase(x, y); SlackFits(c.net, c.early, c.free, c.finish)
  {
    hide Slack, FirstLink;
    var c := SecondLinkCase(x, y);
    PairShape(x, y, 100, 100, SecondLink(x));
    assert Follows(c.net, y, x);
    SlackOfTwo(x, y, c.free);
    assert SlackPath(c.net, c.early, c.free, c.finish, x, [x, y]);
    assert SlackPath(c.net, c.early, c.free, c.finish, y, [y]);
  }

  lemma SecondLinkIsEven(x: Id, y: Id)
    requires x != y
    ensures var c := SecondLinkCase(x, y); c.early.Keys == c.free.Keys == c.net.Keys && EvenRoutes(c.net, c.early, c.free)
  {
    var c := SecondLinkCase(x, y);
    PairShape(x, y, 100, 100, SecondLink(x));
    EvenSlackIsEven(c.net, c.early, c.free);
  }

  lemma SecondLinkPushed(x: Id, y: Id, slip: map<Id, nat>, pushed: Dates)
    requires x != y && slip == map[x := 100, y := 0] && pushed == map[x := 0, y := 0]
    ensures var c := SecondLinkCase(x, y); Pushed(c.net, slip, c.free, pushed) && Impact(c.net, pushed, 0)
  {
    hide Weight, FirstLink;
    var c := SecondLinkCase(x, y);
    assert c.net[x].predecessors == [] && c.net[y].predecessors == SecondLink(x);
    assert Incoming(SecondLink(x), pushed) == 0;
    assert PushedAt(c.net, slip, c.free, pushed, x) && PushedAt(c.net, slip, c.free, pushed, y);
  }

  lemma SecondLinkReruns(x: Id, y: Id, slip: map<Id, nat>, again: Dates)
    requires x != y && slip == map[x := 100, y := 0] && again == map[x := 0, y := 700]
    ensures var c := SecondLinkCase(x, y);
            slip.Keys == c.net.Keys && Early(Slipped(c.net, slip), again) && ProjectFinish(Slipped(c.net, slip), again, c.finish + 100)
  {
    hide Early, ProjectFinish, Weight, StartsAt, LinksFrom, Slipped, Pair;
    SecondLinkStarts(x, y, 200);
    PairEarly(x, y, 200, 100, SecondLink(x), 700, 0, 0);
    PairSlipped(x, y, 100, 100, 100, SecondLink(x));
  }

  lemma SecondLinkStarts(x: Id, y: Id, a: nat)
    requires x != y
    ensures LinksFrom(x, SecondLink(x)) && StartsAt(x, y, a, 100, SecondLink(x), a + 500)
  {
    assert SecondLink(x)[1] in SecondLink(x);
  }

  /** Two links between the same activities, the second one binding: the slip of the first
      is thought to be within its float and reported as no impact, though slack and routes
      are in order. */
  lemma SecondLinkHidesSlip(x: Id, y: Id) returns (c: Case, slip: map<Id, nat>, pushed: Dates, again: Dates)
    requires x != y
    ensures Genuine(c) && c.early.Keys == c.free.Keys == c.net.Keys
    ensures SlackFits(c.net, c.early, c.free, c.finish) && EvenRoutes(c.net, c.early, c.free)
    ensures slip.Keys == c.net.Keys && Pushed(c.net, slip, c.free, pushed) && Impact(c.net, pushed, 0)
    ensures Early(Slipped(c.net, slip), again) && ProjectFinish(Slipped(c.net, slip), again, c.finish + 100)
  {
    hide *;
    c, slip, pushed, again := SecondLinkCase(x, y), map[x := 100, y := 0], map[x := 0, y := 0], map[x := 0, y := 700];
    SecondLinkIsGenuine(x, y);
    SecondLinkFits(x, y);
    SecondLinkIsEven(x, y);
    SecondLinkPushed(x, y, slip, pushed);
    SecondLinkReruns(x, y, slip, again);
  }

  lemma SecondLinkIsGenuine(x: Id, y: Id)
    requires x != y
    ensures Genuine(SecondLinkCase(x, y))
  {
    hide Genuine, Weight, StartsAt, LinksFrom;
    SecondLinkStarts(x, y, 100);
    PairIsGenuine(x, y, 100, 100, SecondLink(x), 600, 500, 500);
  }

  // ---------------------------------------------------------------- three activities

  /** `x` of duration `a`, then `y` at once and the long `z` with a lead of 500. */
  function Fork(x: Id, y: Id, z: Id, a: nat): Case {
    Case(map[x := Task(a, []), y := Task(100, [Link(x, FS, 0)]), z := Task(1000, [Link(x, FS, -500)])], [x, y, z],
         map[x := 0, y := a, z := 0], 1000, map[x := 500 - a, y := 900, z := 0],
         map[x := 0, y := 900 - a, z := 0])
  }

  lemma ForkFollows(x: Id, y: Id, z: Id, a: nat)
    requires x != y && x != z && y != z
    ensures Follows(Fork(x, y, z, a).net, y, x) && Follows(Fork(x, y, z, a).net, z, x)
    ensures forall s, p :: Follows(Fork(x, y, z, a).net, s, p) ==> s in {y, z} && p == x
  {
    var net := Fork(x, y, z, a).net;
    assert Link(x, FS, 0) in net[y].predecessors && Link(x, FS, -500) in net[z].predecessors;
  }

  lemma ForkIsFinishToStart(x: Id, y: Id, z: Id, a: nat)
    requires x != y && x != z && y != z
    ensures FinishToStart(Fork(x, y, z, a).net)
  {
    var net := Fork(x, y, z, a).net;
    assert net[x].predecessors == [] && net[y].predecessors == [Link(x, FS, 0)] && net[z].predecessors == [Link(x, FS, -500)];
    forall k, l | k in net && l in net[k].predecessors
      ensures l.kind == FS && l.lag + net[k].duration >= 0 && l.lag <= FirstLink(net[k].predecessors, l.activity).lag
    {
      assert k == y || k == z;
    }
  }

  lemma ForkEarly(x: Id, y: Id, z: Id, a: nat)
    requires x != y && x != z && y != z
    requires a <= 500
    ensures var c := Fork(x, y, z, a); Early(c.net, c.early) && ProjectFinish(c.net, c.early, c.finish)
  {
    var c := Fork(x, y, z, a);
    assert Link(x, FS, 0) in c.net[y].predecessors;
    assert EarlyAt(c.net, c.early, x) && EarlyAt(c.net, c.early, y) && EarlyAt(c.net, c.early, z);
    assert c.early[z] + c.net[z].duration == c.finish;
  }

  lemma ForkLateAt(x: Id, y: Id, z: Id, a: nat, k: Id)
    requires x != y && x != z && y != z && k in {x, y, z}
    requires a <= 500
    ensures var c := Fork(x, y, z, a); LateAt(c.net, c.finish, c.late, k) && FreeAt(c.net, c.early, c.late, c.free, k)
  {
    ForkFollows(x, y, z, a);
    var c := Fork(x, y, z, a);
    if k == x {
      assert LateBound(c.net, c.late, x, y) == 900 && LateBound(c.net, c.late, x, z) == 500;
      assert Gap(c.net, c.early, x, y) == 0 && Gap(c.net, c.early, x, z) == 500 - a;
    }
  }

  lemma ForkOrder(x: Id, y: Id, z: Id, a: nat)
    requires x != y && x != z && y != z
    ensures WellFormed(Fork(x, y, z, a).net) && Topological(Fork(x, y, z, a).net, [x, y, z])
  {
    assert [x, y, z][..0] == [] && [x, y, z][..1] == [x] && [x, y, z][..2] == [x, y];
  }

  lemma ForkLate(x: Id, y: Id, z: Id, a: nat)
    requires x != y && x != z && y != z
    requires a <= 500
    ensures var c := Fork(x, y, z, a); Late(c.net, c.finish, c.late) && Free(c.net, c.early, c.late, c.free)
  {
    hide LateAt, FreeAt;
    ForkLateAt(x, y, z, a, x);
    ForkLateAt(x, y, z, a, y);
    ForkLateAt(x, y, z, a, z);
  }

  lemma ForkIsGenuine(x: Id, y: Id, z: Id, a: nat)
    requires x != y && x != z && y != z
    requires a <= 500
    ensures Genuine(Fork(x, y, z, a))
  {
    hide Late, Free, Early, ProjectFinish, WellFormed, Topological;
    ForkOrder(x, y, z, a);
    ForkEarly(x, y, z, a);
    ForkLate(x, y, z, a);
  }

  lemma OneIncoming(l: Link, pushed: Dates)
    requires l.activity in pushed
    ensures Incoming([], pushed) == 0 && Incoming([l], pushed) == Max(0, pushed[l.activity])
  {
    assert [l][..0] == [];
  }

  lemma ForkPushedAt(x: Id, y: Id, z: Id, slip: map<Id, nat>, pushed: Dates, k: Id)
    requires x != y && x != z && y != z && k in {x, y, z}
    requires slip == map[x := 100, y := 0, z := 0] && pushed == map[x := 100, y := 0, z := 100]
    ensures var c := Fork(x, y, z, 100); PushedAt(c.net, slip, c.free, pushed, k)
  {
    OneIncoming(Link(x, FS, 0), pushed);
    OneIncoming(Link(x, FS, -500), pushed);
  }

  lemma ForkPushed(x: Id, y: Id, z: Id, slip: map<Id, nat>, pushed: Dates)
    requires x != y && x != z && y != z
    requires slip == map[x := 100, y := 0, z := 0] && pushed == map[x := 100, y := 0, z := 100]
    ensures var c := Fork(x, y, z, 100); Pushed(c.net, slip, c.free, pushed) && Impact(c.net, pushed, 100)
  {
    hide Follows;
    hide PushedAt;
    ForkPushedAt(x, y, z, slip, pushed, x);
    ForkPushedAt(x, y, z, slip, pushed, y);
    ForkPushedAt(x, y, z, slip, pushed, z);
    ForkFollows(x, y, z, 100);
    assert Terminal(Fork(x, y, z, 100).net, z);
  }

  /** A slip that the reported impact overstates: free float is the smallest gap, so the
      delay is passed on to a successor that has room for it. */
  lemma UnevenSlackOverstates(x: Id, y: Id, z: Id) returns (c: Case, slip: map<Id, nat>, pushed: Dates, again: Dates)
    requires x != y && x != z && y != z
    ensures Genuine(c) && FinishToStart(c.net)
    ensures slip.Keys == c.net.Keys && Pushed(c.net, slip, c.free, pushed) && Impact(c.net, pushed, 100)
    ensures Early(Slipped(c.net, slip), again) && ProjectFinish(Slipped(c.net, slip), again, c.finish)
  {
    hide Genuine, Early, ProjectFinish, FinishToStart, Pushed, Impact, Follows;
    c, again := Fork(x, y, z, 100), Fork(x, y, z, 200).early;
    slip, pushed := map[x := 100, y := 0, z := 0], map[x := 100, y := 0, z := 100];
    ForkIsGenuine(x, y, z, 100);
    ForkIsFinishToStart(x, y, z, 100);
    ForkPushed(x, y, z, slip, pushed);
    ForkEarly(x, y, z, 200);
    ForkSlipped(x, y, z, slip);
  }

  lemma ForkSlipped(x: Id, y: Id, z: Id, slip: map<Id, nat>)
    requires x != y && x != z && y != z && slip == map[x := 100, y := 0, z := 0]
    ensures slip.Keys == Fork(x, y, z, 100).net.Keys
    ensures Slipped(Fork(x, y, z, 100).net, slip) == Fork(x, y, z, 200).net
  {
    hide Slipped;
    ForkIsOver(x, y, z, slip);
    OneSlips(Fork(x, y, z, 100).net, slip, x);
    ForkGrows(x, y, z);
  }

  lemma ForkIsOver(x: Id, y: Id, z: Id, slip: map<Id, nat>)
    requires slip == map[x := 100, y := 0, z := 0]
    ensures slip.Keys == Fork(x, y, z, 100).net.Keys
  {}

  lemma ForkGrows(x: Id, y: Id, z: Id)
    requires x != y && x != z && y != z
    ensures var net := Fork(x, y, z, 100).net; x in net && net[x] == Task(100, []) && net[x := Task(200, [])] == Fork(x, y, z, 200).net
  {}

  lemma OneSlips(net: Network, slip: map<Id, nat>, x: Id)
    requires slip.Keys == net.Keys && x in net && forall k :: k in net && k != x ==> slip[k] == 0
    ensures Slipped(net, slip) == net[x := net[x].(duration := net[x].duration + slip[x])]
  {
    forall k | k in net && k != x ensures Slipped(net, slip)[k] == net[k] {}
  }
}
