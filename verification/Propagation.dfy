/** Tracing measured slips through the nodes of a computed network. */
module Propagation {
  import opened Basics
  import opened Wrappers
  import opened Networks
  import opened Schedules
  import opened Delays
  import opened Coverage
  import opened Kahn
  import opened Nodes
  import opened Passes
  import opened Analysis

  /** The slips that one run of the recursion uses: all, or all but one activity's. */
  ghost function SlipsWithout(slips: map<Id, nat>, excluded: Option<Id>): map<Id, nat> {
    match excluded
    case None => slips
    case Some(x) => slips[x := 0]
  }

  ghost predicate SlipsAre(nodes: NodeMap, slips: map<Id, nat>) {
    nodes.Keys == slips.Keys && forall k :: k in nodes ==> nodes[k].slip == slips[k]
  }

  /** The largest delay arriving over `links`. No delay is negative, so 0 is the least. */
  method LargestIncoming(links: seq<Link>, pushed: map<Id, int>) returns (incoming: int)
    requires forall l :: l in links ==> l.activity in pushed
    ensures incoming == Incoming(links, pushed)
  {
    incoming := 0;
    for i := 0 to |links|
      invariant incoming == Incoming(links[..i], pushed)
    {
      TakeNextOne(links, i);
      assert links[..i + 1][..i] == links[..i];
      incoming := Max(incoming, pushed[links[i].activity]);
    }
    assert links[..|links|] == links;
  }

  ghost predicate PushedSoFar(net: Network, slip: map<Id, nat>, free: Dates, pushed: Dates, order: seq<Id>, i: nat)
    requires i <= |order|
  {
    && slip.Keys == free.Keys == pushed.Keys == net.Keys && (forall k :: k in order ==> k in net)
    && forall j {:trigger PushedAt(net, slip, free, pushed, order[j])} :: 0 <= j < i ==> PushedAt(net, slip, free, pushed, order[j])
  }

  lemma PushedStays(net: Network, slip: map<Id, nat>, free: Dates, pushed: Dates, order: seq<Id>, i: nat, value: int, j: nat)
    requires Topological(net, order) && j < i < |order|
    requires slip.Keys == free.Keys == pushed.Keys == net.Keys && PushedAt(net, slip, free, pushed, order[j])
    ensures PushedAt(net, slip, free, pushed[order[i] := value], order[j])
  {
    assert order[i] !in order[..j];
    PushedAgrees(net, slip, free, pushed, pushed[order[i] := value], order[j]);
  }

  lemma PushedGrows(net: Network, slip: map<Id, nat>, free: Dates, pushed: Dates, order: seq<Id>, i: nat, value: int)
    requires WellFormed(net) && Topological(net, order) && i < |order|
    requires PushedSoFar(net, slip, free, pushed, order, i)
    requires value == Max(0, Incoming(net[order[i]].predecessors, pushed) + slip[order[i]] - free[order[i]])
    ensures PushedSoFar(net, slip, free, pushed[order[i] := value], order, i + 1)
  {
    hide Topological, WellFormed, PushedAt;
    var more := pushed[order[i] := value];
    NoSelfLink(net, order, i);
    PushedNew(net, slip, free, pushed, order[i], value);
    forall j | 0 <= j < i ensures PushedAt(net, slip, free, more, order[j]) {
      PushedStays(net, slip, free, pushed, order, i, value, j);
    }
  }

  lemma PushedIsComplete(net: Network, slip: map<Id, nat>, free: Dates, pushed: Dates, order: seq<Id>)
    requires Topological(net, order) && PushedSoFar(net, slip, free, pushed, order, |order|)
    ensures Pushed(net, slip, free, pushed) && pushed.Keys == net.Keys
  {
    forall k | k in net ensures PushedAt(net, slip, free, pushed, k) {
      var j :| 0 <= j < |order| && order[j] == k;
    }
  }

  /** The delay leaving one activity, once its predecessors have theirs. */
  method PushOne(nodes: NodeMap, key: Id, own: nat, pushed: map<Id, int>, ghost net: Network, ghost slip: map<Id, nat>, ghost free: Dates)
    returns (value: int)
    requires Mirrors(nodes, net) && key in net && FreeStored(nodes, free) && key in free && key in slip && own == slip[key]
    requires forall l :: l in net[key].predecessors ==> l.activity in pushed
    ensures value == Max(0, Incoming(net[key].predecessors, pushed) + slip[key] - free[key])
  {
    var incoming := LargestIncoming(nodes[key].predecessors, pushed);
    value := Max(0, incoming + own - nodes[key].freeFloat);
  }

  /** The slip that a run of the recursion uses for one activity. */
  method OwnSlip(nodes: NodeMap, key: Id, excluded: Option<Id>, ghost slips: map<Id, nat>) returns (own: nat)
    requires SlipsAre(nodes, slips) && key in nodes && (excluded.Some? ==> excluded.value in nodes)
    ensures key in SlipsWithout(slips, excluded) && own == SlipsWithout(slips, excluded)[key]
  {
    own := if excluded == Some(key) then 0 else nodes[key].slip;
  }

  lemma StepReady(keys: seq<Id>, nodes: NodeMap, order: seq<Id>, i: nat, excluded: Option<Id>, before: Dates,
                  net: Network, slips: map<Id, nat>, free: Dates)
    requires Represents(keys, nodes, net) && Topological(net, order) && i < |order|
    requires PushedSoFar(net, SlipsWithout(slips, excluded), free, before, order, i)
    ensures Mirrors(nodes, net) && WellFormed(net) && order[i] in net && order[i] in nodes && order[i] in free
    ensures excluded.Some? && excluded.value in net ==> excluded.value in nodes
    ensures forall l :: l in net[order[i]].predecessors ==> l.activity in before
  {}

  /** One step of the recursion: the delay leaving `order[i]`. */
  method PushStep(ghost keys: seq<Id>, nodes: NodeMap, order: seq<Id>, i: nat, excluded: Option<Id>, before: map<Id, int>,
                  ghost net: Network, ghost slips: map<Id, nat>, ghost free: Dates)
    returns (pushed: map<Id, int>)
    requires Represents(keys, nodes, net) && Topological(net, order) && FreeStored(nodes, free) && i < |order|
    requires SlipsAre(nodes, slips) && (excluded.Some? ==> excluded.value in net)
    requires PushedSoFar(net, SlipsWithout(slips, excluded), free, before, order, i)
    ensures PushedSoFar(net, SlipsWithout(slips, excluded), free, pushed, order, i + 1)
  {
    hide *;
    var key := order[i];
    StepReady(keys, nodes, order, i, excluded, before, net, slips, free);
    var own := OwnSlip(nodes, key, excluded, slips);
    var value := PushOne(nodes, key, own, before, net, SlipsWithout(slips, excluded), free);
    PushedGrows(net, SlipsWithout(slips, excluded), free, before, order, i, value);
    pushed := before[key := value];
  }

  /** No delay anywhere yet. */
  method ZeroDelays(ghost keys: seq<Id>, nodes: NodeMap, ghost order: seq<Id>, ghost net: Network, ghost slip: map<Id, nat>,
                    ghost free: Dates)
    returns (pushed: map<Id, int>)
    requires Represents(keys, nodes, net) && Topological(net, order) && slip.Keys == free.Keys == net.Keys
    ensures PushedSoFar(net, slip, free, pushed, order, 0)
  {
    hide *;
    SameKeys(keys, nodes, order, net);
    pushed := map k | k in nodes :: 0;
    NothingPushed(net, slip, free, pushed, order);
  }

  lemma SameKeys(keys: seq<Id>, nodes: NodeMap, order: seq<Id>, net: Network)
    requires Represents(keys, nodes, net) && Topological(net, order)
    ensures nodes.Keys == net.Keys && forall k :: k in order ==> k in net
  {}

  lemma NothingPushed(net: Network, slip: map<Id, nat>, free: Dates, pushed: Dates, order: seq<Id>)
    requires slip.Keys == free.Keys == pushed.Keys == net.Keys && forall k :: k in order ==> k in net
    ensures PushedSoFar(net, slip, free, pushed, order, 0)
  {}

  lemma SameSlipKeys(nodes: NodeMap, slips: map<Id, nat>, excluded: Option<Id>)
    requires SlipsAre(nodes, slips) && (excluded.Some? ==> excluded.value in nodes)
    ensures SlipsWithout(slips, excluded).Keys == nodes.Keys
  {}

  /** Fills the delays in order, with one activity's slip left out if asked. */
  method PushDelays(ghost keys: seq<Id>, nodes: NodeMap, order: seq<Id>, excluded: Option<Id>,
                    ghost net: Network, ghost slips: map<Id, nat>, ghost free: Dates)
    returns (pushed: map<Id, int>)
    requires Represents(keys, nodes, net) && Topological(net, order) && SlipsAre(nodes, slips)
    requires FreeStored(nodes, free) && free.Keys == net.Keys
    requires excluded.Some? ==> excluded.value in net
    ensures Pushed(net, SlipsWithout(slips, excluded), free, pushed) && pushed.Keys == net.Keys
  {
    hide *;
    SameKeys(keys, nodes, order, net);
    SameSlipKeys(nodes, slips, excluded);
    pushed := ZeroDelays(keys, nodes, order, net, SlipsWithout(slips, excluded), free);
    for i := 0 to |order|
      invariant PushedSoFar(net, SlipsWithout(slips, excluded), free, pushed, order, i)
    {
      pushed := PushStep(keys, nodes, order, i, excluded, pushed, net, slips, free);
    }
    PushedIsComplete(net, SlipsWithout(slips, excluded), free, pushed, order);
  }

  /** The largest delay leaving an activity without successors. */
  method LargestTerminal(keys: seq<Id>, nodes: NodeMap, pushed: map<Id, int>, ghost net: Network) returns (impact: int)
    requires Represents(keys, nodes, net) && pushed.Keys == net.Keys
    ensures Impact(net, pushed, impact)
  {
    hide Successors, Follows, Terminal, WellFormed;
    impact := 0;
    for i := 0 to |keys|
      invariant impact >= 0
      invariant forall j :: 0 <= j < i && Terminal(net, keys[j]) ==> pushed[keys[j]] <= impact
      invariant impact == 0 || exists k :: k in net && Terminal(net, k) && pushed[k] == impact
    {
      assert keys[i] in net;
      TerminalHasNoSuccessors(keys, net, keys[i]);
      if nodes[keys[i]].successors == [] { impact := Max(impact, pushed[keys[i]]); }
    }
  }

  lemma TerminalHasNoSuccessors(keys: seq<Id>, net: Network, k: Id)
    requires Keyed(keys, net)
    ensures Terminal(net, k) <==> Successors(net, keys, k) == []
  {
    SuccessorsAreFollowers(keys, net, k);
    if Successors(net, keys, k) != [] {
      assert Successors(net, keys, k)[0] in Successors(net, keys, k);
    }
  }

  method TotalSlip(keys: seq<Id>, nodes: NodeMap, ghost slips: map<Id, nat>) returns (total: nat)
    requires SlipsAre(nodes, slips) && forall k :: k in keys ==> k in nodes
    ensures total == Total(keys, slips)
  {
    total := 0;
    for i := 0 to |keys|
      invariant total == Total(keys[..i], slips)
    {
      assert keys[..i + 1][..i] == keys[..i];
      total := total + nodes[keys[i]].slip;
    }
    assert keys[..|keys|] == keys;
  }

  /** `share` is the impact less the impact of the same recursion without the slip of `k`. */
  ghost predicate ShareOf(net: Network, slips: map<Id, nat>, free: Dates, impact: int, k: Id, share: int) {
    Yields(net, slips[k := 0], free, impact - share)
  }

  /** The recursion with these slips gives this impact. */
  ghost predicate Yields(net: Network, slip: map<Id, nat>, free: Dates, impact: int) {
    exists pushed :: ImpactOf(net, slip, free, pushed, impact)
  }

  ghost predicate ImpactOf(net: Network, slip: map<Id, nat>, free: Dates, pushed: Dates, impact: int) {
    Pushed(net, slip, free, pushed) && Impact(net, pushed, impact)
  }

  /** The project impact, the total slip, what float absorbed, and the share of each
      late activity. */
  datatype Report = Report(impact: int, total: int, absorbed: int, shares: map<Id, int>)

  lemma FreeIsStored(nodes: NodeMap, net: Network, f: Figures)
    requires FiguresOf(net, f) && Stored(nodes, f)
    ensures FreeStored(nodes, f.free) && f.free.Keys == net.Keys && forall k :: k in net ==> f.free[k] >= 0
  {
    forall k | k in net ensures f.free[k] >= 0 {
      assert FreeAt(net, f.early, f.late, f.free, k) && LateAt(net, f.finish, f.late, k);
    }
  }

  lemma ReportReady(keys: seq<Id>, nodes: NodeMap, net: Network, slips: map<Id, nat>)
    requires Represents(keys, nodes, net) && SlipsAre(nodes, slips)
    ensures Keyed(keys, net) && WellFormed(net) && slips.Keys == net.Keys && (forall k :: k in keys ==> k in nodes)
    ensures SlipsWithout(slips, None) == slips
  {}

  lemma SameKeysSameTotal(net: Network, keys: seq<Id>, order: seq<Id>, slips: map<Id, nat>)
    requires Keyed(keys, net) && Topological(net, order) && slips.Keys == net.Keys
    ensures (forall k :: k in keys ==> k in slips) && Total(keys, slips) == Total(order, slips)
  {
    DistinctOnce(keys);
    DistinctOnce(order);
    assert multiset(keys) == multiset(order);
    TotalIgnoresOrder(keys, order, slips);
  }

  lemma {:induction false} DistinctOnce(s: seq<Id>)
    requires Distinct(s)
    ensures forall k :: multiset(s)[k] == if k in s then 1 else 0
  {
    if s != [] {
      var front, last := s[..|s| - 1], s[|s| - 1];
      assert s == front + [last];
      DistinctOnce(front);
    }
  }

  /** How far the measured slips travel: the impact lies between 0 and the total slip,
      float absorbs the rest, and each late activity's share lies between 0 and its own
      slip. */
  method PropagateDelay(keys: seq<Id>, nodes: NodeMap, order: seq<Id>, ghost net: Network, ghost slips: map<Id, nat>, ghost f: Figures)
    returns (report: Report, pushed: map<Id, int>)
    requires Represents(keys, nodes, net) && Topological(net, order) && SlipsAre(nodes, slips)
    requires Stored(nodes, f) && FiguresOf(net, f)
    ensures Pushed(net, slips, f.free, pushed) && Impact(net, pushed, report.impact)
    ensures report.total == Total(order, slips)
    ensures report.absorbed == report.total - report.impact && 0 <= report.impact <= report.total
    ensures forall k :: k in report.shares <==> k in net && slips[k] > 0
    ensures forall k :: k in report.shares ==> ShareOf(net, slips, f.free, report.impact, k, report.shares[k])
    ensures forall k :: k in report.shares ==> 0 <= report.shares[k] <= slips[k]
  {
    hide *;
    FreeIsStored(nodes, net, f);
    ReportReady(keys, nodes, net, slips);
    pushed := PushDelays(keys, nodes, order, None, net, slips, f.free);
    var impact := LargestTerminal(keys, nodes, pushed, net);
    SameKeysSameTotal(net, keys, order, slips);
    var total := TotalSlip(keys, nodes, slips);
    ImpactWithinTotal(net, order, slips, f.free, pushed, impact);
    var shares := Shares(keys, nodes, order, impact, pushed, net, slips, f.free);
    report := Report(impact, total, total - impact, shares);
  }

  /** One late activity's share, by running the recursion again without its slip. */
  method Share(keys: seq<Id>, nodes: NodeMap, order: seq<Id>, impact: int, key: Id, ghost pushed: Dates,
               ghost net: Network, ghost slips: map<Id, nat>, ghost free: Dates)
    returns (share: int)
    requires Represents(keys, nodes, net) && Topological(net, order) && SlipsAre(nodes, slips) && key in net
    requires FreeStored(nodes, free) && free.Keys == net.Keys
    requires Pushed(net, slips, free, pushed) && Impact(net, pushed, impact)
    ensures ShareOf(net, slips, free, impact, key, share) && 0 <= share <= slips[key]
  {
    hide Topological, PushedAt, Impact, FreeStored, Keyed, Mirrors;
    var trial := PushDelays(keys, nodes, order, Some(key), net, slips, free);
    var without := LargestTerminal(keys, nodes, trial, net);
    share := impact - without;
    ShareWithinSlip(net, order, slips, free, pushed, impact, key, trial, without);
    assert ImpactOf(net, slips[key := 0], free, trial, impact - share);
  }

  /** The share of every activity that slipped. */
  method Shares(keys: seq<Id>, nodes: NodeMap, order: seq<Id>, impact: int, ghost pushed: Dates,
                ghost net: Network, ghost slips: map<Id, nat>, ghost free: Dates)
    returns (shares: map<Id, int>)
    requires Represents(keys, nodes, net) && Topological(net, order) && SlipsAre(nodes, slips)
    requires FreeStored(nodes, free) && free.Keys == net.Keys
    requires Pushed(net, slips, free, pushed) && Impact(net, pushed, impact)
    ensures forall k :: k in shares <==> k in net && slips[k] > 0
    ensures forall k :: k in shares ==> ShareOf(net, slips, free, impact, k, shares[k]) && 0 <= shares[k] <= slips[k]
  {
    hide Topological, Pushed, Impact, ShareOf, FreeStored, WellFormed;
    shares := map[];
    for i := 0 to |keys|
      invariant forall k :: k in shares <==> k in keys[..i] && slips[k] > 0
      invariant forall k :: k in shares ==> ShareOf(net, slips, free, impact, k, shares[k]) && 0 <= shares[k] <= slips[k]
    {
      TakeNextOne(keys, i);
      var key := keys[i];
      assert key in net;
      if nodes[key].slip > 0 {
        var share := Share(keys, nodes, order, impact, key, pushed, net, slips, free);
        shares := shares[key := share];
      }
    }
    assert keys[..|keys|] == keys;
  }
}
