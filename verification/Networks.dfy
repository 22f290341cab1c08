/** The schedule network that the critical path analysis works on, as a value:
    activities with durations and typed, lagged predecessor links. Times are whole
    hundredths of a day, the precision every date is rounded to. */
module Networks {
  import opened Basics

  type Id = string

  /** A link type. `Unknown` stands for any string outside the four known types. */
  datatype Kind = FS | SS | FF | SF | Unknown

  datatype Link = Link(activity: Id, kind: Kind, lag: int)

  datatype Task = Task(duration: nat, predecessors: seq<Link>)

  type Network = map<Id, Task>

  type Dates = map<Id, int>

  /** Every link refers to an activity of the network. */
  ghost predicate WellFormed(net: Network) {
    forall k, l :: k in net && l in net[k].predecessors ==> l.activity in net
  }

  /** `s` has a link to its predecessor `p`. */
  ghost predicate Follows(net: Network, s: Id, p: Id) {
    s in net && exists l :: l in net[s].predecessors && l.activity == p
  }

  ghost predicate Terminal(net: Network, k: Id) {
    forall s :: !Follows(net, s, k)
  }

  lemma TakeNextOne<T>(s: seq<T>, i: nat)
    requires i < |s|
    ensures s[..i + 1] == s[..i] + [s[i]]
    ensures forall x :: x in s[..i + 1] <==> x in s[..i] || x == s[i]
  {}

  lemma DropNextOne<T>(s: seq<T>, i: nat)
    requires i < |s|
    ensures s[i..] == [s[i]] + s[i + 1..]
    ensures forall x :: x in s[i..] <==> x == s[i] || x in s[i + 1..]
  {}

  /** `order` lists every activity once, each after all its predecessors. */
  ghost predicate Topological(net: Network, order: seq<Id>) {
    && Distinct(order)
    && (forall k :: k in net <==> k in order)
    && (forall i, l :: 0 <= i < |order| && l in net[order[i]].predecessors ==> l.activity in order[..i])
  }

  /** Consecutive elements of a walk are joined by links, predecessor first. */
  ghost predicate Walk(net: Network, w: seq<Id>) {
    forall i :: 0 <= i < |w| - 1 ==> Follows(net, w[i + 1], w[i])
  }

  ghost predicate HasCycle(net: Network) {
    exists w: seq<Id> :: |w| >= 2 && w[0] == w[|w| - 1] && Walk(net, w)
  }

  /** `k` lies on a cycle or behind one: a walk to it repeats an activity. */
  ghost predicate BehindCycle(net: Network, k: Id) {
    exists w: seq<Id> :: w != [] && Walk(net, w) && w[|w| - 1] == k && !Distinct(w)
  }

  /** Every activity of the order comes after all its predecessors. */
  ghost predicate PredecessorsFirst(net: Network, order: seq<Id>)
    requires forall k :: k in order ==> k in net
  {
    forall i, l :: 0 <= i < |order| && l in net[order[i]].predecessors ==> l.activity in order[..i]
  }

  lemma NoSelfLink(net: Network, order: seq<Id>, i: nat)
    requires WellFormed(net) && Topological(net, order) && i < |order|
    ensures order[i] in net
    ensures forall l :: l in net[order[i]].predecessors ==> l.activity in net && l.activity != order[i]
  {
    assert order[i] !in order[..i];
  }

  lemma Position(net: Network, order: seq<Id>, k: Id) returns (i: nat)
    requires Topological(net, order) && k in net
    ensures i < |order| && order[i] == k
  {
    i :| 0 <= i < |order| && order[i] == k;
  }

  lemma PositionBefore(net: Network, order: seq<Id>, i: nat, l: Link) returns (j: nat)
    requires Topological(net, order) && i < |order| && order[i] in net && l in net[order[i]].predecessors
    ensures j < i && order[j] == l.activity
  {
    j :| 0 <= j < i && order[j] == l.activity;
  }

  // ---------------------------------------------------------------- paths

  ghost predicate Path(net: Network, path: seq<Id>) {
    path != [] && Walk(net, path) && forall k :: k in path ==> k in net
  }

  lemma PathGrows(net: Network, k: Id, rest: seq<Id>)
    requires Path(net, rest) && k in net && Follows(net, rest[0], k)
    ensures Path(net, [k] + rest) && Last([k] + rest) == Last(rest)
  {
    var path := [k] + rest;
    forall n | 0 <= n < |path| - 1 ensures Follows(net, path[n + 1], path[n]) {
      if n > 0 { assert Follows(net, rest[n - 1 + 1], rest[n - 1]); }
    }
  }

  lemma SuffixIsPath(net: Network, path: seq<Id>, a: nat)
    requires Path(net, path) && a < |path|
    ensures Path(net, path[a..]) && path[a..][0] == path[a] && Last(path[a..]) == Last(path)
  {
    forall n | 0 <= n < |path[a..]| - 1 ensures Follows(net, path[a..][n + 1], path[a..][n]) {
      assert Follows(net, path[a + n + 1], path[a + n]);
    }
  }

  lemma {:induction false} WalkAdvances(net: Network, order: seq<Id>, w: seq<Id>, a: nat, b: nat, i: nat, j: nat)
    requires Topological(net, order) && Walk(net, w) && a < b < |w|
    requires i < |order| && j < |order| && order[i] == w[a] && order[j] == w[b]
    ensures i < j
  {
    assert Follows(net, w[b - 1 + 1], w[b - 1]);
    assert w[b - 1] in order[..j];
    var h :| 0 <= h < j && order[h] == w[b - 1];
    if a < b - 1 { WalkAdvances(net, order, w, a, b - 1, i, h); }
  }

  lemma PathIsDistinct(net: Network, order: seq<Id>, path: seq<Id>)
    requires Topological(net, order) && Path(net, path)
    ensures Distinct(path)
  {
    forall a, b | 0 <= a < b < |path| ensures path[a] != path[b] {
      assert path[a] in path && path[b] in path;
      var i :| 0 <= i < |order| && order[i] == path[a];
      var j :| 0 <= j < |order| && order[j] == path[b];
      WalkAdvances(net, order, path, a, b, i, j);
    }
  }

  // ---------------------------------------------------------------- meeting links

  /** What each link type demands of the two activities' dates. An unrecognised type
      is read as finish-to-start. */
  predicate Honours(net: Network, start: Dates, k: Id, l: Link)
    requires k in net && k in start && l.activity in net && l.activity in start
  {
    var finish, otherFinish := start[k] + net[k].duration, start[l.activity] + net[l.activity].duration;
    match l.kind
    case SS => start[k] >= start[l.activity] + l.lag
    case FF => finish >= otherFinish + l.lag
    case SF => finish >= start[l.activity] + l.lag
    case _ => start[k] >= otherFinish + l.lag
  }

  /** A set of start times that obeys the whole network. */
  ghost predicate Feasible(net: Network, start: Dates) {
    && start.Keys == net.Keys
    && (forall k :: k in net ==> start[k] >= 0)
    && (forall k, l :: k in net && l in net[k].predecessors && l.activity in net ==> Honours(net, start, k, l))
  }

  /** Every activity is done by `finish`. */
  ghost predicate DoneBy(net: Network, start: Dates, finish: int)
    requires start.Keys == net.Keys
  {
    forall k :: k in net ==> start[k] + net[k].duration <= finish
  }

  ghost predicate Below(a: Dates, b: Dates)
    requires a.Keys == b.Keys
  {
    forall k :: k in a ==> a[k] <= b[k]
  }

  /** The pointwise least schedule of the network. */
  ghost predicate Least(net: Network, start: Dates) {
    Feasible(net, start) && forall s :: Feasible(net, s) ==> Below(start, s)
  }

  /** The pointwise greatest schedule that is done by `finish`. */
  ghost predicate Greatest(net: Network, finish: int, start: Dates) {
    && Feasible(net, start)
    && DoneBy(net, start, finish)
    && (forall s :: Feasible(net, s) && DoneBy(net, s, finish) ==> Below(s, start))
  }

  /** The project duration of a schedule: its latest finish, or 0 without activities. */
  ghost predicate ProjectFinish(net: Network, start: Dates, finish: int)
    requires start.Keys == net.Keys
  {
    && DoneBy(net, start, finish)
    && (if |net| == 0 then finish == 0 else exists k :: k in net && start[k] + net[k].duration == finish)
  }

  lemma LatestActivity(net: Network, start: Dates, finish: int, some: Id) returns (k: Id)
    requires start.Keys == net.Keys && ProjectFinish(net, start, finish) && some in net
    ensures k in net && start[k] + net[k].duration == finish
  {
    k :| k in net && start[k] + net[k].duration == finish;
  }
}
