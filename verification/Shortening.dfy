/** A schedule in which a slip brings the project forward unnoticed: why a chain that meets a
    path, and one that holds the finish, must be unshortened. */
module Shortening {
  import opened Basics
  import opened Networks
  import opened Schedules
  import opened Delays
  import opened Coverage
  import opened Exactness
  import opened Chains
  import opened ExactChains
  import opened Counterexamples

  function OfK(x: Id): seq<Link> { [Link(x, FF, 0), Link(x, FS, -5)] }

  function OfT(x: Id, k: Id): seq<Link> { [Link(x, SS, 17), Link(k, SS, -2), Link(k, FS, 0), Link(k, SS, 20)] }

  /** `x` holds the finish of `k`, whose start drives `t`: the longer `k` takes, the sooner
      `t` starts. */
  ghost predicate Through(net: Network, x: Id, k: Id, t: Id, b: nat) {
    && x != k && x != t && k != t && net.Keys == {x, k, t}
    && net[x] == Task(5, []) && net[k] == Task(b, OfK(x)) && net[t] == Task(10, OfT(x, k))
  }

  ghost predicate Dated(dates: Dates, x: Id, k: Id, t: Id, a: int, b: int, c: int) {
    dates.Keys == {x, k, t} && dates[x] == a && dates[k] == b && dates[t] == c
  }

  ghost predicate ThroughCase(c: Case, x: Id, k: Id, t: Id) {
    && Through(c.net, x, k, t, 3) && c.order == [x, k, t] && c.finish == 32
    && Dated(c.early, x, k, t, 0, 2, 22) && Dated(c.late, x, k, t, 27, 29, 22) && Dated(c.free, x, k, t, 0, 19, 0)
  }

  lemma ItsLinks(x: Id, k: Id)
    requires x != k
    ensures forall l :: l in OfK(x) <==> l in {Link(x, FF, 0), Link(x, FS, -5)}
    ensures forall l :: l in OfT(x, k) <==> l in {Link(x, SS, 17), Link(k, SS, -2), Link(k, FS, 0), Link(k, SS, 20)}
    ensures FirstLink(OfK(x), x) == Link(x, FF, 0) && FirstLink(OfT(x, k), x) == Link(x, SS, 17)
    ensures FirstLink(OfT(x, k), k) == Link(k, SS, -2)
  {
    assert OfK(x)[0] in OfK(x) && OfK(x)[1] in OfK(x);
    assert OfT(x, k)[0] in OfT(x, k) && OfT(x, k)[1] in OfT(x, k) && OfT(x, k)[2] in OfT(x, k) && OfT(x, k)[3] in OfT(x, k);
    assert OfT(x, k)[1..][0] == Link(k, SS, -2);
  }

  lemma ItsShape(net: Network, x: Id, k: Id, t: Id, b: nat)
    requires Through(net, x, k, t, b)
    ensures WellFormed(net) && Topological(net, [x, k, t])
    ensures Follows(net, k, x) && Follows(net, t, x) && Follows(net, t, k) && Terminal(net, t)
    ensures forall s, p :: Follows(net, s, p) ==> (s == k && p == x) || (s == t && p in {x, k})
  {
    hide OfK, OfT, FirstLink;
    ItsLinks(x, k);
    assert Link(x, FF, 0) in net[k].predecessors;
    assert Link(x, SS, 17) in net[t].predecessors && Link(k, FS, 0) in net[t].predecessors;
    assert [x, k, t][..0] == [] && [x, k, t][..1] == [x] && [x, k, t][..2] == [x, k];
  }

  lemma ItsEarly(net: Network, early: Dates, x: Id, k: Id, t: Id, b: nat)
    requires Through(net, x, k, t, b) && b <= 5 && Dated(early, x, k, t, 0, 5 - b, 25 - b)
    ensures Early(net, early) && ProjectFinish(net, early, 35 - b)
  {
    hide OfK, OfT, FirstLink;
    ItsLinks(x, k);
    assert Link(x, FF, 0) in net[k].predecessors && Link(k, SS, 20) in net[t].predecessors;
    assert EarlyAt(net, early, x);
    assert EarlyAt(net, early, k);
    assert EarlyAt(net, early, t);
    assert early[t] + net[t].duration == 35 - b;
  }

  lemma ItsLate(c: Case, x: Id, k: Id, t: Id)
    requires ThroughCase(c, x, k, t)
    ensures Late(c.net, c.finish, c.late)
  {
    hide OfK, OfT, FirstLink, Follows;
    ItsLinks(x, k);
    ItsShape(c.net, x, k, t, 3);
    assert LateBound(c.net, c.late, x, k) == 32 && LateBound(c.net, c.late, x, t) == 32 && LateBound(c.net, c.late, k, t) == 32;
    assert LateAt(c.net, c.finish, c.late, x);
    assert LateAt(c.net, c.finish, c.late, k);
    assert LateAt(c.net, c.finish, c.late, t);
  }

  lemma ItsFree(c: Case, x: Id, k: Id, t: Id)
    requires ThroughCase(c, x, k, t)
    ensures Free(c.net, c.early, c.late, c.free)
  {
    hide OfK, OfT, FirstLink, Follows;
    ItsLinks(x, k);
    ItsShape(c.net, x, k, t, 3);
    assert Gap(c.net, c.early, x, k) == -3 && Gap(c.net, c.early, x, t) == 0 && Gap(c.net, c.early, k, t) == 19;
    assert FreeAt(c.net, c.early, c.late, c.free, x);
    assert FreeAt(c.net, c.early, c.late, c.free, k);
    assert FreeAt(c.net, c.early, c.late, c.free, t);
  }

  lemma ItIsGenuine(c: Case, x: Id, k: Id, t: Id)
    requires ThroughCase(c, x, k, t)
    ensures Genuine(c)
  {
    hide Late, Free, Early, ProjectFinish, WellFormed, Topological;
    ItsShape(c.net, x, k, t, 3);
    ItsEarly(c.net, c.early, x, k, t, 3);
    ItsLate(c, x, k, t);
    ItsFree(c, x, k, t);
  }

  lemma ItIsReported(c: Case, x: Id, k: Id, t: Id, slip: map<Id, nat>, pushed: Dates)
    requires ThroughCase(c, x, k, t) && Dated(slip, x, k, t, 0, 2, 0) && Dated(pushed, x, k, t, 0, 0, 0)
    ensures Reported(c.net, slip, c.free, pushed, 0)
  {
    hide OfK, OfT, FirstLink;
    ItsLinks(x, k);
    assert PushedAt(c.net, slip, c.free, pushed, x);
    assert PushedAt(c.net, slip, c.free, pushed, k);
    assert PushedAt(c.net, slip, c.free, pushed, t);
  }

  lemma ItReruns(net: Network, x: Id, k: Id, t: Id, slip: map<Id, nat>, again: Dates)
    requires Through(net, x, k, t, 3) && Dated(slip, x, k, t, 0, 2, 0) && Dated(again, x, k, t, 0, 0, 20)
    ensures slip.Keys == net.Keys && Rerun(net, slip, again, 30)
  {
    hide Early, ProjectFinish, OfK, OfT;
    assert slip.Keys == net.Keys;
    ItsEarly(Slipped(net, slip), again, x, k, t, 5);
  }

  // ---------------------------------------------------------------- its chains and paths

  lemma ShortChains(net: Network, x: Id, k: Id, t: Id, c: Chain)
    requires Through(net, x, k, t, 3) && ChainOf(net, c)
    ensures c.activity == x ==> c == First(x) && Plus(c) == [x]
    ensures c.activity == k ==> k !in PlusAtStart(c) && (k in Plus(c) ==> Reach(net, c) <= 0)
  {
    hide OfK, OfT, FirstLink;
    ItsLinks(x, k);
    if c.activity == k && c.Onto? {
      assert ChainOf(net, c.before) && c.before.activity == x;
      assert c.before == First(x);
      assert Plus(c.before) == [x];
    }
  }

  /** A chain that the slip of `k` moves leaves 19 to the finish, the free float of `k`. */
  lemma ChainsMovedByK(net: Network, x: Id, k: Id, t: Id, c: Chain)
    requires Through(net, x, k, t, 3) && ChainOf(net, c) && k in Plus(c)
    ensures ChainFinish(net, c) <= 13
  {
    hide OfK, OfT, FirstLink;
    ItsLinks(x, k);
    ShortChains(net, x, k, t, c);
    if c.activity == t && c.Onto? { ShortChains(net, x, k, t, c.before); }
  }

  lemma ItsPaths(c: Case, x: Id, k: Id, t: Id)
    requires ThroughCase(c, x, k, t)
    ensures Path(c.net, [x, k, t]) && Path(c.net, [x, t])
    ensures Slack([x, k, t], c.free) == 19 && Slack([x, t], c.free) == 0
  {
    hide Slack, OfK, OfT, Follows;
    ItsShape(c.net, x, k, t, 3);
    SlackOfThree(x, k, t, c.free);
    SlackOfTwo(x, t, c.free);
  }

  lemma SlackOfThree(x: Id, k: Id, t: Id, free: Dates)
    requires x in free && k in free && t in free
    ensures Slack([x, k, t], free) == free[x] + free[k] + free[t]
  {
    assert [x, k, t][1..] == [k, t];
    SlackOfTwo(k, t, free);
  }

  lemma ItsChainsFit(c: Case, x: Id, k: Id, t: Id)
    requires ThroughCase(c, x, k, t)
    ensures ChainsFit(c.net, c.free, c.finish)
  {
    hide OfK, OfT, FirstLink, Walk, Early, ProjectFinish, Slack, Topological, Follows;
    ItsShape(c.net, x, k, t, 3);
    ItsEarly(c.net, c.early, x, k, t, 3);
    ItsPaths(c, x, k, t);
    forall chain | ChainOf(c.net, chain) && Plus(chain) != [] ensures ChainFits(c.net, c.free, c.finish, chain) {
      ItsChainFits(c, x, k, t, chain);
    }
  }

  lemma ItsChainFits(c: Case, x: Id, k: Id, t: Id, chain: Chain)
    requires ThroughCase(c, x, k, t) && Early(c.net, c.early) && ProjectFinish(c.net, c.early, c.finish) && ChainOf(c.net, chain)
    requires Terminal(c.net, t) && Path(c.net, [x, k, t]) && Path(c.net, [x, t])
    requires Slack([x, k, t], c.free) == 19 && Slack([x, t], c.free) == 0
    ensures ChainFits(c.net, c.free, c.finish, chain)
  {
    hide OfK, OfT, FirstLink, Walk, Early, Slack, Terminal, Plus, PlusAtStart, Nodes, ChainFinish, ChainOf;
    NodesAreIn(c.net, chain);
    PlusAreNodes(chain);
    if k in Plus(chain) {
      ChainsMovedByK(c.net, x, k, t, chain);
      assert FitsBy(c.net, c.free, c.finish, chain, [x, k, t]);
    } else {
      NoChainIsLater(c.net, c.early, c.finish, chain);
      assert FitsBy(c.net, c.free, c.finish, chain, [x, t]);
    }
  }

  ghost predicate MovesAll(c: Case, path: seq<Id>, chain: Chain)
    requires c.free.Keys == c.net.Keys && Path(c.net, path)
  {
    && ChainOf(c.net, chain) && (forall j :: j in path ==> j in Plus(chain))
    && c.finish - ChainFinish(c.net, chain) <= Slack(path, c.free)
  }

  /** Without `k` the critical chain meets every path, though slips of `k` shorten it. */
  lemma CriticalMoves(c: Case, x: Id, k: Id, t: Id, path: seq<Id>) returns (chain: Chain)
    requires ThroughCase(c, x, k, t) && Path(c.net, path) && k !in path
    ensures MovesAll(c, path, chain)
  {
    hide Walk, FirstLink;
    ItsLinks(x, k);
    hide OfK, OfT;
    var first := First(x);
    var before := Onto(first, Link(x, FF, 0), k);
    chain := Onto(before, Link(k, SS, 20), t);
    assert ChainOf(c.net, first) && ChainOf(c.net, before) && ChainOf(c.net, chain);
    assert Plus(first) == [x];
    assert PlusAtStart(before) == [x];
    assert PlusAtStart(chain) == [x];
    assert Plus(chain) == [x, t];
    assert Reach(c.net, before) == 2;
    SlackIsNonNegative(path, c.free);
  }

  lemma LongChainMoves(c: Case, x: Id, k: Id, t: Id, path: seq<Id>) returns (chain: Chain)
    requires ThroughCase(c, x, k, t) && Path(c.net, path) && k in path
    ensures MovesAll(c, path, chain)
  {
    hide Walk, FirstLink;
    ItsLinks(x, k);
    hide OfK, OfT;
    var first := First(x);
    var before := Onto(first, Link(x, FS, -5), k);
    chain := Onto(before, Link(k, FS, 0), t);
    assert ChainOf(c.net, first) && ChainOf(c.net, before) && ChainOf(c.net, chain);
    assert Plus(first) == [x];
    assert Plus(before) == [x, k];
    assert Plus(chain) == [x, k, t];
    assert Reach(c.net, before) == 0;
    SlackHolds(path, c.free, k);
  }

  lemma {:induction false} SlackHolds(path: seq<Id>, free: Dates, k: Id)
    requires (forall j :: j in path ==> j in free && free[j] >= 0) && k in path
    ensures Slack(path, free) >= free[k]
  {
    if path[0] == k { SlackIsNonNegative(path[1..], free); } else { SlackHolds(path[1..], free, k); }
  }

  lemma ItsFinishIsNotHeld(c: Case, slip: map<Id, nat>, again: Dates)
    requires Genuine(c) && slip.Keys == c.net.Keys && Rerun(c.net, slip, again, c.finish - 2)
    ensures !FinishIsHeld(c.net, c.finish)
  {
    hide Topological, EarlyAt, ProjectFinish, Late, Free, Rerun, FinishIsHeld;
    if FinishIsHeld(c.net, c.finish) { HeldFinishStays(c.net, slip, c.early, c.finish, again, c.finish - 2); }
  }

  /** Every chain fits and every path is moved whole by a chain that leaves no more to the
      finish than the path holds free float; yet only a chain that slips of `k` shorten holds
      the finish, so two of these make the project two shorter and are reported as no impact. */
  lemma ShorteningIsUnnoticed(x: Id, k: Id, t: Id) returns (c: Case, slip: map<Id, nat>, pushed: Dates, again: Dates)
    requires x != k && x != t && k != t
    ensures Genuine(c) && c.free.Keys == slip.Keys == c.net.Keys && ChainsFit(c.net, c.free, c.finish)
    ensures forall path :: Path(c.net, path) ==> exists chain :: MovesAll(c, path, chain)
    ensures Reported(c.net, slip, c.free, pushed, 0) && Rerun(c.net, slip, again, c.finish - 2)
    ensures !FinishIsHeld(c.net, c.finish)
  {
    hide Genuine, Path, MovesAll, ChainsFit, FinishIsHeld, Reported, Rerun, OfK, OfT;
    var net := map[x := Task(5, []), k := Task(3, OfK(x)), t := Task(10, OfT(x, k))];
    c := Case(net, [x, k, t], map[x := 0, k := 2, t := 22], 32, map[x := 27, k := 29, t := 22], map[x := 0, k := 19, t := 0]);
    slip, pushed, again := map[x := 0, k := 2, t := 0], map[x := 0, k := 0, t := 0], map[x := 0, k := 0, t := 20];
    assert ThroughCase(c, x, k, t);
    ItIsGenuine(c, x, k, t);
    ItsChainsFit(c, x, k, t);
    ItIsReported(c, x, k, t, slip, pushed);
    ItReruns(c.net, x, k, t, slip, again);
    ItsFinishIsNotHeld(c, slip, again);
    forall path | Path(c.net, path) ensures exists chain :: MovesAll(c, path, chain) {
      if k in path {
        var chain := LongChainMoves(c, x, k, t, path);
      } else {
        var chain := CriticalMoves(c, x, k, t, path);
      }
    }
  }
}
