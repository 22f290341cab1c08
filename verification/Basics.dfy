/** Small notions shared by the modules. */
module Basics {
  predicate Distinct<T(==)>(s: seq<T>) { forall i, j :: 0 <= i < j < |s| ==> s[i] != s[j] }

  function Max(a: int, b: int): int { if a >= b then a else b }

  function Min(a: int, b: int): int { if a <= b then a else b }

  function Last<T>(s: seq<T>): T
    requires s != []
  {
    s[|s| - 1]
  }

  lemma FrontCounts<T>(s: seq<T>)
    requires s != []
    ensures multiset(s) == multiset(s[..|s| - 1]) + multiset{s[|s| - 1]}
  {
    assert s == s[..|s| - 1] + [s[|s| - 1]];
  }

  lemma TakeOneAway<T>(a: multiset<T>, b: multiset<T>, x: T)
    requires a + multiset{x} == b + multiset{x}
    ensures a == b
  {
    assert a == a + multiset{x} - multiset{x} && b == b + multiset{x} - multiset{x};
  }

  lemma ReplacedCounts<T>(s: seq<T>, i: nat, x: T)
    requires i < |s|
    ensures multiset(s[i := x]) == multiset(s) - multiset{s[i]} + multiset{x}
  {}

  /** The chosen positions in increasing order. */
  ghost predicate Enumerates(at: seq<nat>, chosen: set<nat>) {
    && (forall m, n :: 0 <= m < n < |at| ==> at[m] < at[n])
    && forall i :: i in at <==> i in chosen
  }

  lemma {:induction false} EnumeratesOnce(a: seq<nat>, b: seq<nat>, chosen: set<nat>)
    requires Enumerates(a, chosen) && Enumerates(b, chosen)
    ensures a == b
  {
    NothingChosen(a, chosen);
    NothingChosen(b, chosen);
    if a != [] {
      assert Last(a) in a && Last(b) in b;
      var front := chosen - {Last(a)};
      EnumeratesLess(a, chosen);
      EnumeratesLess(b, chosen);
      assert Last(a) == Last(b);
      EnumeratesOnce(a[..|a| - 1], b[..|b| - 1], front);
      assert a == a[..|a| - 1] + [Last(a)] && b == b[..|b| - 1] + [Last(b)];
    }
  }

  lemma NothingChosen(at: seq<nat>, chosen: set<nat>)
    requires Enumerates(at, chosen)
    ensures at == [] <==> chosen == {}
  {
    if at != [] { assert at[0] in chosen; }
  }

  lemma EnumeratesLess(at: seq<nat>, chosen: set<nat>)
    requires Enumerates(at, chosen) && at != []
    ensures Enumerates(at[..|at| - 1], chosen - {Last(at)}) && forall i :: i in chosen ==> i <= Last(at)
  {
    var front := at[..|at| - 1];
    assert at == front + [Last(at)];
    forall i | i in chosen ensures i <= Last(at) {
      assert i in at;
      var n :| 0 <= n < |at| && at[n] == i;
    }
  }

  lemma EnumeratesMore(at: seq<nat>, chosen: set<nat>, i: nat)
    requires Enumerates(at, chosen) && forall k :: k in chosen ==> k < i
    ensures Enumerates(at + [i], chosen + {i})
  {
    forall m | 0 <= m < |at| ensures at[m] < i { assert at[m] in chosen; }
  }
}
