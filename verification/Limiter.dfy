/** The public demo's fixed-window limiter. */
module Limiter {
  import opened Wrappers

  type Time = real

  const CAPACITY := 50_000

  datatype Slot = Slot(count: nat, expires: Time)

  type Slots = map<string, Slot>

  datatype Call = Call(key: string, limit: int, window: int, now: Time)

  // ---------------------------------------------------------------- one call

  function SlotOf(w: Slots, key: string): Slot { if key in w then w[key] else Slot(0, 0.0) }

  /** The slot once the call is counted: in the running window, or in a new one. */
  function Charged(slot: Slot, c: Call): Slot {
    if c.now >= slot.expires then Slot(1, c.now + c.window as real) else Slot(slot.count + 1, slot.expires)
  }

  predicate Allowed(w: Slots, c: Call) { Charged(SlotOf(w, c.key), c).count <= c.limit }

  function Live(w: Slots, now: Time): Slots { map k | k in w && now < w[k].expires :: w[k] }

  function Counted(w: Slots, c: Call): Slots { w[c.key := Charged(SlotOf(w, c.key), c)] }

  function AfterHit(w: Slots, c: Call): Slots {
    var v := Counted(w, c);
    if |v| > CAPACITY then Live(v, c.now) else v
  }

  // ---------------------------------------------------------------- runs

  /** The calls are made in time order on a clock that starts at zero or later. */
  predicate Clocked(calls: seq<Call>) {
    && (forall i :: 0 <= i < |calls| ==> 0.0 <= calls[i].now)
    && (forall i, j :: 0 <= i < j < |calls| ==> calls[i].now <= calls[j].now)
  }

  function After(calls: seq<Call>): Slots {
    if calls == [] then map[] else AfterHit(After(calls[..|calls| - 1]), calls[|calls| - 1])
  }

  /** A limiter that never evicts. */
  function AfterPlain(calls: seq<Call>): Slots {
    if calls == [] then map[] else Counted(AfterPlain(calls[..|calls| - 1]), calls[|calls| - 1])
  }

  // ---------------------------------------------------------------- eviction

  /** What a call at `now` can tell of a slot: an expired one is as good as none. */
  function Seen(w: Slots, key: string, now: Time): Slot {
    if key in w && now < w[key].expires then w[key] else Slot(0, 0.0)
  }

  ghost predicate Alike(w: Slots, v: Slots, now: Time) { forall k :: Seen(w, k, now) == Seen(v, k, now) }

  lemma SeenDecides(w: Slots, c: Call)
    requires 0.0 <= c.now
    ensures Charged(SlotOf(w, c.key), c) == Charged(Seen(w, c.key, c.now), c)
  {}

  lemma AlikeLater(w: Slots, v: Slots, since: Time, now: Time)
    requires Alike(w, v, since) && since <= now
    ensures Alike(w, v, now)
  {
    forall k ensures Seen(w, k, now) == Seen(v, k, now) {
      assert Seen(w, k, since) == Seen(v, k, since);
    }
  }

  lemma CountedAlike(w: Slots, v: Slots, c: Call)
    requires Alike(w, v, c.now) && 0.0 <= c.now
    ensures Allowed(w, c) <==> Allowed(v, c)
    ensures Alike(Counted(w, c), Counted(v, c), c.now)
  {
    hide Charged, SlotOf;
    SeenDecides(w, c);
    SeenDecides(v, c);
    assert Seen(w, c.key, c.now) == Seen(v, c.key, c.now);
    forall k ensures Seen(Counted(w, c), k, c.now) == Seen(Counted(v, c), k, c.now) {
      assert Seen(w, k, c.now) == Seen(v, k, c.now);
    }
  }

  lemma EvictedAlike(w: Slots, now: Time)
    ensures Alike(w, Live(w, now), now)
  {}

  /** A call decides and counts alike on what counts alike, evicting or not. */
  lemma LiveIsWhatCounts(w: Slots, v: Slots, c: Call, since: Time)
    requires Alike(w, v, since) && since <= c.now && 0.0 <= c.now
    ensures Allowed(w, c) <==> Allowed(v, c)
    ensures Alike(AfterHit(w, c), Counted(v, c), c.now)
  {
    hide Seen, Counted, Live, Allowed;
    AlikeLater(w, v, since, c.now);
    CountedAlike(w, v, c);
    EvictedAlike(Counted(w, c), c.now);
  }

  function Latest(calls: seq<Call>): Time { if calls == [] then 0.0 else calls[|calls| - 1].now }

  lemma {:induction false} SameLive(calls: seq<Call>)
    requires Clocked(calls)
    ensures Alike(After(calls), AfterPlain(calls), Latest(calls))
  {
    if calls != [] {
      var n := |calls| - 1;
      SameLive(calls[..n]);
      LiveIsWhatCounts(After(calls[..n]), AfterPlain(calls[..n]), calls[n], Latest(calls[..n]));
    }
  }

  /** Evicting expired keys changes no later decision. */
  lemma EvictionIsInvisible(calls: seq<Call>, c: Call)
    requires Clocked(calls + [c])
    ensures Allowed(After(calls), c) <==> Allowed(AfterPlain(calls), c)
  {
    hide Alike, AfterHit, Counted, Allowed, After, AfterPlain;
    var all := calls + [c];
    assert forall i :: 0 <= i < |calls| ==> all[i] == calls[i];
    assert all[|calls|] == c;
    assert Clocked(calls);
    SameLive(calls);
    LiveIsWhatCounts(After(calls), AfterPlain(calls), c, Latest(calls));
  }

  // ---------------------------------------------------------------- windows by the clock

  /** The call of the key that opened its latest window: its first call opens one, and so does
      each later one that comes no sooner than the open window is over. */
  function LastOpening(calls: seq<Call>, key: string): (r: Option<nat>)
    ensures r.Some? ==> r.value < |calls| && calls[r.value].key == key
  {
    if calls == [] then None
    else
      var n := |calls| - 1;
      var before := LastOpening(calls[..n], key);
      if calls[n].key != key then before
      else if before.Some? && calls[n].now < calls[before.value].now + calls[before.value].window as real then before
      else Some(n)
  }

  /** The calls of the key from the `from`th on. */
  function CallsSince(calls: seq<Call>, key: string, from: nat): set<nat> {
    set i | from <= i < |calls| && calls[i].key == key
  }

  /** The last call is no more than the limit allows since its window was opened. */
  predicate WithinWindow(calls: seq<Call>)
    requires calls != []
  {
    var c := calls[|calls| - 1];
    LastOpening(calls, c.key).Some? && |CallsSince(calls, c.key, LastOpening(calls, c.key).value)| <= c.limit
  }

  lemma OneMoreSince(calls: seq<Call>, c: Call, key: string, from: nat)
    requires from <= |calls|
    ensures CallsSince(calls + [c], key, from) == CallsSince(calls, key, from) + (if c.key == key then {|calls|} else {})
    ensures |CallsSince(calls + [c], key, from)| == |CallsSince(calls, key, from)| + (if c.key == key then 1 else 0)
  {
    assert |calls| !in CallsSince(calls, key, from);
  }

  /** The slot holds what the clock says. */
  ghost predicate Timed(calls: seq<Call>, key: string) {
    var w, o := AfterPlain(calls), LastOpening(calls, key);
    if o.None? then key !in w
    else key in w && w[key] == Slot(|CallsSince(calls, key, o.value)|, calls[o.value].now + calls[o.value].window as real)
  }

  lemma TimedGrows(calls: seq<Call>, c: Call, key: string)
    requires Timed(calls, key) && 0.0 <= c.now
    ensures Timed(calls + [c], key)
  {
    hide AfterPlain, LastOpening, CallsSince;
    PlainGrows(calls, c);
    OpeningGrows(calls, c, key);
    var before := LastOpening(calls, key);
    if before.Some? { OneMoreSince(calls, c, key, before.value); }
    OneMoreSince(calls, c, key, |calls|);
    NoneSince(calls, key);
  }

  lemma PlainGrows(calls: seq<Call>, c: Call)
    ensures AfterPlain(calls + [c]) == Counted(AfterPlain(calls), c)
  {
    assert (calls + [c])[..|calls|] == calls;
  }

  lemma NoneSince(calls: seq<Call>, key: string)
    ensures CallsSince(calls, key, |calls|) == {}
  {}

  lemma OpeningGrows(calls: seq<Call>, c: Call, key: string)
    ensures var before := LastOpening(calls, key);
            LastOpening(calls + [c], key) ==
              if c.key != key || (before.Some? && c.now < calls[before.value].now + calls[before.value].window as real) then before
              else Some(|calls|)
  {
    assert (calls + [c])[..|calls|] == calls;
  }

  lemma {:induction false} RunTimed(calls: seq<Call>, key: string)
    requires Clocked(calls)
    ensures Timed(calls, key)
  {
    if calls != [] {
      hide Timed;
      var n := |calls| - 1;
      RunTimed(calls[..n], key);
      TimedGrows(calls[..n], calls[n], key);
      assert calls[..n] + [calls[n]] == calls;
    } else {
      assert AfterPlain(calls) == map[];
    }
  }

  /** Over every run, evictions and all: a call is allowed exactly when the calls of its key
      since the one that opened its window are no more than its limit. */
  lemma WindowDecides(calls: seq<Call>, c: Call)
    requires Clocked(calls + [c])
    ensures Allowed(After(calls), c) <==> WithinWindow(calls + [c])
  {
    hide After, AfterPlain, LastOpening, CallsSince;
    EvictionIsInvisible(calls, c);
    var all := calls + [c];
    assert c == all[|calls|];
    RunTimed(all, c.key);
    PlainGrows(calls, c);
  }

  /** A call that comes no sooner than the open window is over is always allowed. */
  lemma NewWindowAllows(calls: seq<Call>, c: Call)
    requires Clocked(calls + [c]) && c.limit >= 1
    requires var o := LastOpening(calls, c.key);
             o.Some? ==> c.now >= calls[o.value].now + calls[o.value].window as real
    ensures Allowed(After(calls), c)
  {
    hide After, Allowed, LastOpening, CallsSince;
    WindowDecides(calls, c);
    OpeningGrows(calls, c, c.key);
    OneMoreSince(calls, c, c.key, |calls|);
    NoneSince(calls, c.key);
  }

  /** Only expired keys are forgotten, only above the capacity, and then all of them. */
  ghost predicate ForgetsExpired(w: Slots, key: string, v: Slots, now: Time) {
    && (forall k :: k in w && k != key && k !in v ==> w[k].expires <= now)
    && (|w.Keys + {key}| <= 50_000 ==> v.Keys == w.Keys + {key})
    && (|w.Keys + {key}| > 50_000 ==> forall k :: k in v ==> now < v[k].expires)
  }

  lemma HitForgetsExpired(w: Slots, c: Call)
    ensures ForgetsExpired(w, c.key, AfterHit(w, c), c.now)
  {
    assert Counted(w, c).Keys == w.Keys + {c.key} && |Counted(w, c)| == |Counted(w, c).Keys|;
  }

  /** What one more call means for the slots. */
  lemma HitDecides(calls: seq<Call>, c: Call)
    ensures After(calls + [c]) == AfterHit(After(calls), c)
    ensures ForgetsExpired(After(calls), c.key, After(calls + [c]), c.now)
    ensures Clocked(calls + [c]) ==> (Allowed(After(calls), c) <==> WithinWindow(calls + [c]))
  {
    hide AfterHit, ForgetsExpired, Clocked, Allowed, WithinWindow;
    assert (calls + [c])[..|calls|] == calls;
    HitForgetsExpired(After(calls), c);
    if Clocked(calls + [c]) { WindowDecides(calls, c); }
  }

  // ---------------------------------------------------------------- the limiter in place

  class Window {
    var windows: Slots
    /** All calls so far. */
    ghost var calls: seq<Call>

    ghost predicate Valid()
      reads this
    {
      windows == After(calls)
    }

    constructor ()
      ensures Valid() && calls == []
    {
      windows, calls := map[], [];
    }

    /** The call times alone decide: at most `limit` calls of the key since its window was
        opened. Only expired keys are forgotten, and only above the capacity. */
    method Hit(key: string, limit: int, windowSeconds: int, now: Time) returns (allowed: bool)
      requires Valid()
      modifies this
      ensures Valid() && calls == old(calls) + [Call(key, limit, windowSeconds, now)]
      ensures Clocked(calls) ==> (allowed <==> WithinWindow(calls))
      ensures windows == AfterHit(old(windows), Call(key, limit, windowSeconds, now))
      ensures ForgetsExpired(old(windows), key, windows, now)
    {
      hide After, Clocked, WithinWindow, ForgetsExpired;
      ghost var c := Call(key, limit, windowSeconds, now);
      HitDecides(calls, c);
      var slot := if key in windows then windows[key] else Slot(0, 0.0);
      var count, expires := slot.count, slot.expires;
      if now >= expires {
        count, expires := 0, now + windowSeconds as real;
      }
      count := count + 1;
      windows, calls := windows[key := Slot(count, expires)], calls + [c];
      if |windows| > CAPACITY {
        EvictExpired(now);
      }
      return count <= limit;
    }

    method EvictExpired(now: Time)
      modifies this`windows
      ensures windows == Live(old(windows), now)
    {
      var snapshot := windows;
      var todo := snapshot.Keys;
      while todo != {}
        invariant todo <= snapshot.Keys
        invariant windows == map k | k in snapshot && (k in todo || now < snapshot[k].expires) :: snapshot[k]
        decreases |todo|
      {
        var stale :| stale in todo;
        todo := todo - {stale};
        if now >= snapshot[stale].expires {
          windows := windows - {stale};
        }
      }
    }
  }

  // ---------------------------------------------------------------- the bound

  /** Allowed calls for a key in the closed interval of length `span` from `x`. */
  function AllowedIn(calls: seq<Call>, key: string, x: Time, span: int): nat {
    if calls == [] then 0
    else
      var front, c := calls[..|calls| - 1], calls[|calls| - 1];
      AllowedIn(front, key, x, span)
      + (if c.key == key && x <= c.now <= x + span as real && Allowed(After(front), c) then 1 else 0)
  }

  /** All calls for the key use one limit and one window. */
  predicate Uniform(calls: seq<Call>, key: string, limit: nat, window: int) {
    forall i :: 0 <= i < |calls| && calls[i].key == key ==> calls[i].limit == limit && calls[i].window == window
  }

  function AtMost(n: nat, limit: nat): nat { if n <= limit then n else limit }

  /** How the number of allowed calls in the interval relates to the key's last window,
      which started at `start`. */
  ghost predicate Within(slot: Slot, found: nat, limit: nat, window: int, x: Time) {
    var start := slot.expires - window as real;
    && (start <= x ==> found <= AtMost(slot.count, limit))
    && (x < start <= x + window as real ==> found <= limit + AtMost(slot.count, limit))
    && (start > x + window as real ==> found <= 2 * limit)
    && (slot.expires <= x ==> found == 0)
  }

  lemma ChargeWithin(slot: Slot, c: Call, found: nat, limit: nat, window: int, x: Time)
    requires Within(slot, found, limit, window, x) && window > 0 && c.limit == limit && c.window == window
    requires slot.expires - window as real <= c.now
    ensures Within(Charged(slot, c), found + (if x <= c.now <= x + window as real && Charged(slot, c).count <= limit then 1 else 0),
                   limit, window, x)
  {}

  ghost predicate Bounded(calls: seq<Call>, key: string, limit: nat, window: int, x: Time) {
    var w := AfterPlain(calls);
    var found := AllowedIn(calls, key, x, window);
    if key in w then Within(w[key], found, limit, window, x) && w[key].expires - window as real <= Latest(calls) else found == 0
  }

  lemma FirstCharge(c: Call, limit: nat, window: int, x: Time)
    requires window > 0 && c.limit == limit && c.window == window && 0.0 <= c.now
    ensures Within(Charged(Slot(0, 0.0), c), if x <= c.now <= x + window as real && Charged(Slot(0, 0.0), c).count <= limit then 1 else 0,
                   limit, window, x)
  {}

  lemma {:induction false} RunBounded(calls: seq<Call>, key: string, limit: nat, window: int, x: Time)
    requires Clocked(calls) && Uniform(calls, key, limit, window) && window > 0
    ensures Bounded(calls, key, limit, window, x)
  {
    hide Within;
    if calls != [] {
      var n := |calls| - 1;
      var front, c := calls[..n], calls[n];
      RunBounded(front, key, limit, window, x);
      assert front + [c] == calls;
      EvictionIsInvisible(front, c);
      if c.key == key {
        var w := AfterPlain(front);
        if key in w {
          ChargeWithin(w[key], c, AllowedIn(front, key, x, window), limit, window, x);
        } else {
          FirstCharge(c, limit, window, x);
        }
      }
    }
  }

  /** With one limit and one window, a key is allowed at most twice the limit in any
      interval as long as the window, evictions and all. */
  lemma AtMostTwiceTheLimit(calls: seq<Call>, key: string, limit: nat, window: int, x: Time)
    requires Clocked(calls) && Uniform(calls, key, limit, window) && window > 0
    ensures AllowedIn(calls, key, x, window) <= 2 * limit
  {
    RunBounded(calls, key, limit, window, x);
  }

  // ---------------------------------------------------------------- the bound is sharp

  function Burst(c: Call, n: nat): seq<Call> { if n == 0 then [] else Burst(c, n - 1) + [c] }

  lemma OneMore(calls: seq<Call>, c: Call)
    requires Clocked(calls + [c]) && 0.0 <= c.now
    ensures AfterPlain(calls + [c]) == Counted(AfterPlain(calls), c)
    ensures AllowedIn(calls + [c], c.key, 0.0, c.window) ==
              AllowedIn(calls, c.key, 0.0, c.window)
              + (if c.now <= c.window as real && Allowed(AfterPlain(calls), c) then 1 else 0)
  {
    hide Allowed, Counted, After, AfterHit, Live, Clocked;
    assert (calls + [c])[..|calls|] == calls;
    EvictionIsInvisible(calls, c);
  }

  /** The `n`th call of a burst: the first finds an expired slot. */
  lemma BurstStep(front: seq<Call>, c: Call, n: nat)
    requires 0 < n <= c.limit && c.window > 0 && Clocked(front) && Latest(front) <= c.now && 0.0 <= c.now
    requires var slot := SlotOf(AfterPlain(front), c.key);
             if n == 1 then slot.expires <= c.now else slot == Slot(n - 1, c.now + c.window as real)
    ensures Clocked(front + [c]) && Latest(front + [c]) == c.now
    ensures SlotOf(AfterPlain(front + [c]), c.key) == Slot(n, c.now + c.window as real)
    ensures AllowedIn(front + [c], c.key, 0.0, c.window)
            == AllowedIn(front, c.key, 0.0, c.window) + (if c.now <= c.window as real then 1 else 0)
  {
    hide Clocked, AfterPlain, AllowedIn;
    ClockedGrows(front, c);
    OneMore(front, c);
  }

  /** `n` calls at the same time, up to the limit, starting from an expired slot. */
  lemma {:induction false} BurstAllowed(before: seq<Call>, c: Call, n: nat)
    requires 0 < n <= c.limit && c.window > 0 && Clocked(before) && Latest(before) <= c.now && 0.0 <= c.now
    requires SlotOf(AfterPlain(before), c.key).expires <= c.now
    ensures Clocked(before + Burst(c, n)) && Latest(before + Burst(c, n)) == c.now
    ensures SlotOf(AfterPlain(before + Burst(c, n)), c.key) == Slot(n, c.now + c.window as real)
    ensures AllowedIn(before + Burst(c, n), c.key, 0.0, c.window)
            == AllowedIn(before, c.key, 0.0, c.window) + (if c.now <= c.window as real then n else 0)
  {
    var front := before + Burst(c, n - 1);
    assert before + Burst(c, n) == front + [c];
    assert n == 1 ==> front == before;
    if n > 1 { BurstAllowed(before, c, n - 1); }
    BurstStep(front, c, n);
  }

  lemma ClockedGrows(calls: seq<Call>, c: Call)
    requires Clocked(calls) && Latest(calls) <= c.now && 0.0 <= c.now
    ensures Clocked(calls + [c])
  {
    forall i | 0 <= i < |calls| ensures calls[i].now <= c.now { assert calls[i].now <= calls[|calls| - 1].now; }
  }

  lemma BurstsUniform(a: Call, b: Call, n: nat)
    requires a.key == b.key && a.limit == b.limit && a.limit >= 0 && a.window == b.window
    ensures Uniform(Burst(a, n) + Burst(b, n), a.key, a.limit, a.window)
  {
    BurstIs(a, n);
    BurstIs(b, n);
  }

  lemma TwoBursts(early: Call, late: Call)
    requires early.limit > 0 && early.window > 0 && early.now == 0.0 && late == early.(now := early.window as real)
    ensures var calls := Burst(early, early.limit) + Burst(late, late.limit);
            Clocked(calls) && AllowedIn(calls, early.key, 0.0, early.window) == 2 * early.limit
  {
    assert Clocked([]) && AfterPlain([]) == map[] && AllowedIn([], early.key, 0.0, early.window) == 0;
    var first := Burst(early, early.limit);
    assert [] + first == first;
    BurstAllowed([], early, early.limit);
    BurstAllowed(first, late, late.limit);
  }

  /** For every limit there are calls, all in one interval as long as the window, of which
      twice the limit are allowed. */
  lemma BoundIsSharp(key: string, limit: nat, window: int)
    requires limit > 0 && window > 0
    ensures exists calls :: Clocked(calls) && Uniform(calls, key, limit, window) && AllowedIn(calls, key, 0.0, window) == 2 * limit
  {
    hide *;
    var early, late := Call(key, limit, window, 0.0), Call(key, limit, window, window as real);
    TwoBursts(early, late);
    BurstsUniform(early, late, limit);
    var calls := Burst(early, limit) + Burst(late, limit);
    assert Clocked(calls) && Uniform(calls, key, limit, window) && AllowedIn(calls, key, 0.0, window) == 2 * limit;
  }

  lemma {:induction false} BurstIs(c: Call, n: nat)
    ensures |Burst(c, n)| == n && forall i :: 0 <= i < n ==> Burst(c, n)[i] == c
  {
    if n > 0 { BurstIs(c, n - 1); }
  }

  ghost predicate AllExpired(w: Slots, now: Time) { forall k :: k in w ==> w[k].expires <= now }

  lemma ExpiredAllows(w: Slots, c: Call, since: Time)
    requires AllExpired(w, since) && since <= c.now && 0.0 <= c.now && c.window <= 0 && c.limit >= 1
    ensures Allowed(w, c) && AllExpired(AfterHit(w, c), c.now)
  {}

  lemma {:induction false} StaysExpired(calls: seq<Call>)
    requires Clocked(calls) && forall i :: 0 <= i < |calls| ==> calls[i].window <= 0 && calls[i].limit >= 1
    ensures AllExpired(After(calls), Latest(calls))
  {
    if calls != [] {
      var n := |calls| - 1;
      StaysExpired(calls[..n]);
      ExpiredAllows(After(calls[..n]), calls[n], Latest(calls[..n]));
    }
  }

  /** A window that is not positive limits nothing: every call starts a new one. */
  lemma EmptyWindowLimitsNothing(calls: seq<Call>, c: Call)
    requires Clocked(calls + [c]) && forall k :: k in calls + [c] ==> k.window <= 0 && k.limit >= 1
    ensures Allowed(After(calls), c)
  {
    var all := calls + [c];
    assert forall i :: 0 <= i < |calls| ==> all[i] == calls[i] && calls[i] in all;
    assert all[|calls|] == c && c in all;
    StaysExpired(calls);
    ExpiredAllows(After(calls), c, Latest(calls));
  }
}
