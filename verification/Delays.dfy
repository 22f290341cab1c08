/** The delay recursion over free float, against the worst path and against re-running the forward pass. */
module Delays {
  import opened Basics
  import opened Networks
  import opened Schedules

  // ---------------------------------------------------------------- the recursion

  /** The largest delay arriving over `links`, 0 without any. */
  function Incoming(links: seq<Link>, pushed: Dates): (m: int)
    requires forall l :: l in links ==> l.activity in pushed
    ensures m >= 0
    ensures forall l :: l in links ==> pushed[l.activity] <= m
    ensures m == 0 || exists l :: l in links && pushed[l.activity] == m
  {
    if links == [] then 0
    else Max(Incoming(links[..|links| - 1], pushed), pushed[links[|links| - 1].activity])
  }

  /** What `k` passes on: what arrives plus its own slip, less its free float. */
  ghost predicate PushedAt(net: Network, slip: map<Id, nat>, free: Dates, pushed: Dates, k: Id)
    requires k in net && k in slip && k in free && k in pushed
  {
    && (forall l :: l in net[k].predecessors ==> l.activity in pushed)
    && pushed[k] == Max(0, Incoming(net[k].predecessors, pushed) + slip[k] - free[k])
  }

  ghost predicate Pushed(net: Network, slip: map<Id, nat>, free: Dates, pushed: Dates) {
    && slip.Keys == free.Keys == pushed.Keys == net.Keys
    && forall k {:trigger PushedAt(net, slip, free, pushed, k)} :: k in net ==> PushedAt(net, slip, free, pushed, k)
  }

  /** The delay of the project: the largest delay leaving a terminal activity. */
  ghost predicate Impact(net: Network, pushed: Dates, impact: int)
    requires pushed.Keys == net.Keys
  {
    && impact >= 0
    && (forall k :: k in net && Terminal(net, k) ==> pushed[k] <= impact)
    && (impact == 0 || exists k :: k in net && Terminal(net, k) && pushed[k] == impact)
  }

  // ---------------------------------------------------------------- worst path

  /** Total slip less total free float along a path. */
  function Carried(path: seq<Id>, slip: map<Id, nat>, free: Dates): int
    requires forall k :: k in path ==> k in slip && k in free
  {
    if path == [] then 0
    else Carried(path[..|path| - 1], slip, free) + slip[Last(path)] - free[Last(path)]
  }

  lemma {:induction false} NoPathCarriesMore(net: Network, slip: map<Id, nat>, free: Dates, pushed: Dates, path: seq<Id>)
    requires WellFormed(net) && Pushed(net, slip, free, pushed) && Path(net, path)
    ensures Carried(path, slip, free) <= pushed[Last(path)]
  {
    var k := Last(path);
    assert PushedAt(net, slip, free, pushed, k);
    if |path| > 1 {
      var front := path[..|path| - 1];
      NoPathCarriesMore(net, slip, free, pushed, front);
      assert Follows(net, path[|path| - 1], path[|path| - 2]);
    } else {
      assert path[..0] == [];
    }
  }

  lemma {:induction false} SomePathCarriesIt(net: Network, order: seq<Id>, slip: map<Id, nat>, free: Dates, pushed: Dates, i: nat)
    returns (path: seq<Id>)
    requires WellFormed(net) && Topological(net, order) && Pushed(net, slip, free, pushed)
    requires i < |order| && pushed[order[i]] > 0
    ensures Path(net, path) && Last(path) == order[i] && Carried(path, slip, free) == pushed[order[i]]
  {
    var k := order[i];
    assert PushedAt(net, slip, free, pushed, k);
    var incoming := Incoming(net[k].predecessors, pushed);
    if incoming == 0 {
      path := [k];
      assert path[..0] == [];
    } else {
      var l :| l in net[k].predecessors && pushed[l.activity] == incoming;
      var j :| 0 <= j < i && order[j] == l.activity;
      var front := SomePathCarriesIt(net, order, slip, free, pushed, j);
      path := front + [k];
      assert path[..|path| - 1] == front;
      forall n | 0 <= n < |path| - 1 ensures Follows(net, path[n + 1], path[n]) {
        if n < |front| - 1 { assert Follows(net, front[n + 1], front[n]); }
      }
    }
  }

  /** In every acyclic network, whatever the link types, the delay leaving an activity
      is the largest slip-less-float total over the paths that end at it, or 0. */
  lemma DelayIsWorstPath(net: Network, order: seq<Id>, slip: map<Id, nat>, free: Dates, pushed: Dates, k: Id)
    requires WellFormed(net) && Topological(net, order) && Pushed(net, slip, free, pushed) && k in net
    ensures pushed[k] >= 0
    ensures forall path :: Path(net, path) && Last(path) == k ==> Carried(path, slip, free) <= pushed[k]
    ensures pushed[k] > 0 ==> exists path :: Path(net, path) && Last(path) == k && Carried(path, slip, free) == pushed[k]
  {
    assert PushedAt(net, slip, free, pushed, k);
    forall path | Path(net, path) && Last(path) == k ensures Carried(path, slip, free) <= pushed[k] {
      NoPathCarriesMore(net, slip, free, pushed, path);
    }
    if pushed[k] > 0 {
      var i :| 0 <= i < |order| && order[i] == k;
      var path := SomePathCarriesIt(net, order, slip, free, pushed, i);
    }
  }

  // ---------------------------------------------------------------- totals and shares

  function Total(keys: seq<Id>, slip: map<Id, nat>): nat
    requires forall k :: k in keys ==> k in slip
  {
    if keys == [] then 0 else Total(keys[..|keys| - 1], slip) + slip[Last(keys)]
  }

  lemma {:induction false} PushedWithinTotal(net: Network, order: seq<Id>, slip: map<Id, nat>, free: Dates, pushed: Dates, i: nat)
    requires WellFormed(net) && Topological(net, order) && Pushed(net, slip, free, pushed) && i <= |order|
    requires forall k :: k in net ==> free[k] >= 0
    ensures forall k :: k in order[..i] ==> pushed[k] <= Total(order[..i], slip)
  {
    if i > 0 {
      PushedWithinTotal(net, order, slip, free, pushed, i - 1);
      var k := order[i - 1];
      assert order[..i][..i - 1] == order[..i - 1] && Last(order[..i]) == k;
      assert PushedAt(net, slip, free, pushed, k);
    }
  }

  lemma {:induction false} TotalSplits(a: seq<Id>, b: seq<Id>, slip: map<Id, nat>)
    requires forall k :: k in a + b ==> k in slip
    ensures (forall k :: k in a ==> k in slip) && (forall k :: k in b ==> k in slip)
    ensures Total(a + b, slip) == Total(a, slip) + Total(b, slip)
  {
    assert forall k :: k in a ==> k in a + b;
    assert forall k :: k in b ==> k in a + b;
    if b == [] {
      assert a + b == a;
    } else {
      TotalSplits(a, b[..|b| - 1], slip);
      assert (a + b)[..|a + b| - 1] == a + b[..|b| - 1];
    }
  }

  lemma TotalRemoves(b: seq<Id>, i: nat, slip: map<Id, nat>)
    requires i < |b| && forall k :: k in b ==> k in slip
    ensures forall k :: k in b[..i] + b[i + 1..] ==> k in slip
    ensures Total(b, slip) == Total(b[..i] + b[i + 1..], slip) + slip[b[i]]
  {
    assert b == b[..i] + [b[i]] + b[i + 1..];
    TotalSplits(b[..i] + [b[i]], b[i + 1..], slip);
    TotalSplits(b[..i], b[i + 1..], slip);
    assert (b[..i] + [b[i]])[..i] == b[..i];
  }

  lemma {:induction false} TotalIgnoresOrder(a: seq<Id>, b: seq<Id>, slip: map<Id, nat>)
    requires multiset(a) == multiset(b)
    requires (forall k :: k in a ==> k in slip) && (forall k :: k in b ==> k in slip)
    ensures Total(a, slip) == Total(b, slip)
  {
    if a == [] {
      assert |b| == |multiset(b)| == |multiset(a)| == 0;
    } else {
      var i := SameWithoutLast(a, b);
      TotalRemoves(b, i, slip);
      TotalIgnoresOrder(a[..|a| - 1], b[..i] + b[i + 1..], slip);
    }
  }

  lemma SameWithoutLast(a: seq<Id>, b: seq<Id>) returns (i: nat)
    requires multiset(a) == multiset(b) && a != []
    ensures i < |b| && b[i] == Last(a) && multiset(a[..|a| - 1]) == multiset(b[..i] + b[i + 1..])
  {
    var n := |a| - 1;
    assert a[..n] + a[n + 1..] == a[..n];
    SplitOff(a, n);
    assert a[n] in multiset(b);
    i :| 0 <= i < |b| && b[i] == a[n];
    SplitOff(b, i);
  }

  lemma SplitOff(a: seq<Id>, i: nat)
    requires i < |a|
    ensures multiset(a[..i] + a[i + 1..]) == multiset(a) - multiset{a[i]} && a[i] in multiset(a)
  {
    assert a == a[..i] + [a[i]] + a[i + 1..];
    assert multiset(a) == multiset(a[..i] + a[i + 1..]) + multiset{a[i]};
  }

  /** The project is never later than the sum of the slips: what float absorbs is
      non-negative. */
  lemma ImpactWithinTotal(net: Network, order: seq<Id>, slip: map<Id, nat>, free: Dates, pushed: Dates, impact: int)
    requires WellFormed(net) && Topological(net, order) && Pushed(net, slip, free, pushed)
    requires Impact(net, pushed, impact) && forall k :: k in net ==> free[k] >= 0
    ensures 0 <= impact <= Total(order, slip)
  {
    PushedWithinTotal(net, order, slip, free, pushed, |order|);
    assert order[..|order|] == order;
  }

  lemma {:induction false} IncomingAgrees(links: seq<Link>, a: Dates, b: Dates)
    requires forall l :: l in links ==> l.activity in a && l.activity in b && a[l.activity] == b[l.activity]
    ensures Incoming(links, a) == Incoming(links, b)
  {
    if links != [] { IncomingAgrees(links[..|links| - 1], a, b); }
  }

  lemma WithoutOneAt(net: Network, slip: map<Id, nat>, free: Dates, pushed: Dates, x: Id, trial: Dates, k: Id)
    requires k in net && x in slip && k in slip && k in free && k in pushed && k in trial
    requires PushedAt(net, slip, free, pushed, k) && PushedAt(net, slip[x := 0], free, trial, k)
    requires forall l :: l in net[k].predecessors ==> trial[l.activity] <= pushed[l.activity] <= trial[l.activity] + slip[x]
    requires k == x ==> forall l :: l in net[k].predecessors ==> trial[l.activity] == pushed[l.activity]
    ensures trial[k] <= pushed[k] <= trial[k] + slip[x]
    ensures k != x && (forall l :: l in net[k].predecessors ==> trial[l.activity] == pushed[l.activity]) ==> trial[k] == pushed[k]
  {
    var links := net[k].predecessors;
    if forall l :: l in links ==> trial[l.activity] == pushed[l.activity] {
      IncomingAgrees(links, trial, pushed);
    }
  }

  lemma {:induction false} WithoutOne(net: Network, order: seq<Id>, slip: map<Id, nat>, free: Dates, pushed: Dates,
                                      x: Id, trial: Dates, i: nat)
    requires WellFormed(net) && Topological(net, order) && Pushed(net, slip, free, pushed) && x in net
    requires Pushed(net, slip[x := 0], free, trial) && i <= |order|
    ensures forall k :: k in order[..i] ==> trial[k] <= pushed[k] <= trial[k] + slip[x]
    ensures x !in order[..i] ==> forall k :: k in order[..i] ==> trial[k] == pushed[k]
  {
    hide Incoming, PushedAt;
    if i > 0 {
      WithoutOne(net, order, slip, free, pushed, x, trial, i - 1);
      var k := order[i - 1];
      assert order[..i] == order[..i - 1] + [k] && k !in order[..i - 1];
      assert PushedAt(net, slip, free, pushed, k) && PushedAt(net, slip[x := 0], free, trial, k);
      WithoutOneAt(net, slip, free, pushed, x, trial, k);
    }
  }

  /** An activity's share of the impact is the impact less what the recursion gives
      without its slip; it lies between 0 and the slip. */
  lemma ShareWithinSlip(net: Network, order: seq<Id>, slip: map<Id, nat>, free: Dates, pushed: Dates, impact: int,
                        x: Id, trial: Dates, without: int)
    requires WellFormed(net) && Topological(net, order) && x in net
    requires Pushed(net, slip, free, pushed) && Impact(net, pushed, impact)
    requires Pushed(net, slip[x := 0], free, trial) && Impact(net, trial, without)
    ensures 0 <= impact - without <= slip[x]
  {
    WithoutOne(net, order, slip, free, pushed, x, trial, |order|);
    assert order[..|order|] == order;
  }

  // ---------------------------------------------------------------- re-running the forward pass

  /** The network with every slip added to its activity's duration. */
  function Slipped(net: Network, slip: map<Id, nat>): (r: Network)
    requires slip.Keys == net.Keys
  {
    map k | k in net :: net[k].(duration := net[k].duration + slip[k])
  }

  /** Of several links between two activities, no later one has a larger lag than the
      first, which alone the free float reads. */
  ghost predicate FirstLinkBinds(net: Network) {
    forall k, l :: k in net && l in net[k].predecessors ==> l.lag <= FirstLink(net[k].predecessors, l.activity).lag
  }

  /** The re-run start of `k` is no later than its early start plus what arrives. */
  ghost predicate MovesAtMost(net: Network, early: Dates, pushed: Dates, again: Dates, k: Id)
    requires k in net && k in early && k in again
  {
    && (forall l :: l in net[k].predecessors ==> l.activity in pushed)
    && again[k] <= early[k] + Incoming(net[k].predecessors, pushed)
  }

  lemma LinkMovesAtMost(net: Network, slip: map<Id, nat>, early: Dates, late: Dates, free: Dates, pushed: Dates,
                        again: Dates, k: Id, l: Link)
    requires WellFormed(net) && k in net && l in net[k].predecessors
    requires slip.Keys == early.Keys == late.Keys == free.Keys == pushed.Keys == again.Keys == net.Keys
    requires l.lag <= FirstLink(net[k].predecessors, l.activity).lag
    requires EarlyAt(net, early, k) && FreeAt(net, early, late, free, l.activity)
    requires PushedAt(net, slip, free, pushed, l.activity) && MovesAtMost(net, early, pushed, again, l.activity)
    ensures again[l.activity] + Weight(Slipped(net, slip), k, l) <= early[k] + pushed[l.activity]
  {
    assert Follows(net, k, l.activity);
    assert free[l.activity] <= Max(0, Gap(net, early, l.activity, k));
  }

  lemma StartMovesAtMost(net: Network, slip: map<Id, nat>, early: Dates, late: Dates,
                         free: Dates, pushed: Dates, again: Dates, k: Id)
    requires WellFormed(net) && FirstLinkBinds(net) && k in net
    requires Free(net, early, late, free) && Pushed(net, slip, free, pushed) && EarlyAt(net, early, k)
    requires again.Keys == net.Keys && EarlyAt(Slipped(net, slip), again, k)
    requires forall l :: l in net[k].predecessors ==> MovesAtMost(net, early, pushed, again, l.activity)
    ensures MovesAtMost(net, early, pushed, again, k)
  {
    hide PushedAt, FreeAt, Weight, FirstLink;
    if again[k] != 0 {
      var l :| l in net[k].predecessors && again[k] == again[l.activity] + Weight(Slipped(net, slip), k, l);
      assert FreeAt(net, early, late, free, l.activity) && PushedAt(net, slip, free, pushed, l.activity);
      LinkMovesAtMost(net, slip, early, late, free, pushed, again, k, l);
    }
  }

  /** For every link type, if the first link of each pair has its largest lag: re-running the
      forward pass with the slips moves no start by more than the delay the recursion says
      arrives there. */
  lemma {:induction false} StartsMoveAtMost(net: Network, order: seq<Id>, slip: map<Id, nat>, early: Dates, late: Dates,
                                            free: Dates, pushed: Dates, again: Dates, i: nat)
    requires WellFormed(net) && FirstLinkBinds(net) && Topological(net, order) && i <= |order|
    requires Early(net, early) && Free(net, early, late, free) && Pushed(net, slip, free, pushed)
    requires Early(Slipped(net, slip), again)
    ensures forall k :: k in order[..i] ==> MovesAtMost(net, early, pushed, again, k)
  {
    hide EarlyAt, PushedAt, FreeAt, FirstLinkBinds, Weight;
    if i > 0 {
      StartsMoveAtMost(net, order, slip, early, late, free, pushed, again, i - 1);
      var k := order[i - 1];
      assert order[..i] == order[..i - 1] + [k];
      assert EarlyAt(net, early, k) && EarlyAt(Slipped(net, slip), again, k);
      StartMovesAtMost(net, slip, early, late, free, pushed, again, k);
    }
  }

  function Slack(path: seq<Id>, free: Dates): int
    requires forall k :: k in path ==> k in free
  {
    if path == [] then 0 else free[path[0]] + Slack(path[1..], free)
  }

  /** A path from `k` to a terminal activity that holds no more free float than the
      time between the early finish of `k` and the project finish. */
  ghost predicate SlackPath(net: Network, early: Dates, free: Dates, finish: int, k: Id, path: seq<Id>)
    requires early.Keys == free.Keys == net.Keys && k in net
  {
    && Path(net, path) && path[0] == k && Terminal(net, Last(path))
    && Slack(path, free) <= finish - early[k] - net[k].duration
  }

  ghost predicate SlackFitsAt(net: Network, early: Dates, free: Dates, finish: int, k: Id)
    requires early.Keys == free.Keys == net.Keys && k in net
  {
    exists path :: SlackPath(net, early, free, finish, k, path)
  }

  ghost predicate SlackFits(net: Network, early: Dates, free: Dates, finish: int)
    requires early.Keys == free.Keys == net.Keys
  {
    forall k :: k in net ==> SlackFitsAt(net, early, free, finish, k)
  }

  /** The impact is at least what any activity sends down any path to the end. */
  lemma {:induction false} ImpactCoversPath(net: Network, slip: map<Id, nat>, free: Dates, pushed: Dates, impact: int, path: seq<Id>)
    requires WellFormed(net) && Pushed(net, slip, free, pushed) && Impact(net, pushed, impact)
    requires Path(net, path) && Terminal(net, Last(path))
    ensures PushedAt(net, slip, free, pushed, path[0])
    ensures impact >= Incoming(net[path[0]].predecessors, pushed) + slip[path[0]] - Slack(path, free)
  {
    assert PushedAt(net, slip, free, pushed, path[0]);
    if |path| > 1 {
      var rest := path[1..];
      assert Path(net, rest) && Last(rest) == Last(path) by {
        forall n | 0 <= n < |rest| - 1 ensures Follows(net, rest[n + 1], rest[n]) {
          assert Follows(net, path[n + 2], path[n + 1]);
        }
      }
      ImpactCoversPath(net, slip, free, pushed, impact, rest);
      assert Follows(net, path[1], path[0]);
    } else {
      assert Slack(path[1..], free) == 0;
    }
  }

  lemma ImpactCoversFinish(net: Network, slip: map<Id, nat>, early: Dates, finish: int, free: Dates, pushed: Dates,
                           impact: int, again: Dates, k: Id)
    requires WellFormed(net) && Pushed(net, slip, free, pushed) && Impact(net, pushed, impact)
    requires early.Keys == again.Keys == net.Keys && k in net
    requires MovesAtMost(net, early, pushed, again, k) && SlackFitsAt(net, early, free, finish, k)
    ensures again[k] + net[k].duration + slip[k] - finish <= impact
  {
    var path :| SlackPath(net, early, free, finish, k, path);
    ImpactCoversPath(net, slip, free, pushed, impact, path);
  }

  /** If the first link of each pair has its largest lag and the slack fits, the impact is at
      least the growth of the project. */
  lemma ImpactCoversGrowth(net: Network, order: seq<Id>, slip: map<Id, nat>, early: Dates, finish: int, late: Dates,
                           free: Dates, pushed: Dates, impact: int, again: Dates, newFinish: int)
    requires WellFormed(net) && FirstLinkBinds(net) && Topological(net, order)
    requires Early(net, early) && ProjectFinish(net, early, finish) && Free(net, early, late, free)
    requires Pushed(net, slip, free, pushed) && Impact(net, pushed, impact)
    requires Early(Slipped(net, slip), again) && ProjectFinish(Slipped(net, slip), again, newFinish)
    requires SlackFits(net, early, free, finish)
    ensures newFinish - finish <= impact
  {
    hide PushedAt, EarlyAt, FreeAt, MovesAtMost, SlackFitsAt, FirstLinkBinds;
    assert Slipped(net, slip).Keys == net.Keys;
    StartsMoveAtMost(net, order, slip, early, late, free, pushed, again, |order|);
    forall k | k in net ensures again[k] + net[k].duration + slip[k] - finish <= impact {
      assert k in order[..|order|] && SlackFitsAt(net, early, free, finish, k);
      ImpactCoversFinish(net, slip, early, finish, free, pushed, impact, again, k);
    }
    if |net| == 0 { assert |Slipped(net, slip).Keys| == |net.Keys|; }
  }
}
