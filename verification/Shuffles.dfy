/** The order an in-place Fisher-Yates shuffle produces, as a function of its draws.

    Draw k picks which of the first |s| - k items moves to position |s| - 1 - k. */
module Shuffles {

  function Swapped<T>(s: seq<T>, i: nat, j: nat): (t: seq<T>)
    requires i < |s| && j < |s|
    ensures |t| == |s|
  {
    seq(|s|, k requires 0 <= k < |s| => if k == i then s[j] else if k == j then s[i] else s[k])
  }

  ghost predicate ValidDraws(n: nat, draws: seq<nat>) {
    |draws| < n && forall k :: 0 <= k < |draws| ==> draws[k] < n - k
  }

  /** After the first `m` draws. */
  ghost function Shuffled<T>(s: seq<T>, draws: seq<nat>, m: nat): (t: seq<T>)
    requires ValidDraws(|s|, draws) && m <= |draws|
    ensures |t| == |s|
  {
    if m == 0 then s else Swapped(Shuffled(s, draws, m - 1), |s| - m, draws[m - 1])
  }

  ghost predicate AllDifferent<T(!new)>(s: seq<T>) {
    forall i, j :: 0 <= i < |s| && 0 <= j < |s| && s[i] == s[j] ==> i == j
  }

  /** Equal from position `k` on. */
  ghost predicate SameFrom<T(!new)>(s: seq<T>, t: seq<T>, k: nat) {
    |s| == |t| && forall i :: k <= i < |s| ==> s[i] == t[i]
  }

  lemma SwapPermutes<T>(s: seq<T>, i: nat, j: nat)
    requires i < |s| && j < |s|
    ensures multiset(Swapped(s, i, j)) == multiset(s)
  {
    assert Swapped(s, i, j) == s[i := s[j]][j := s[i]];
  }

  lemma SwapKeepsDifferent<T(!new)>(s: seq<T>, i: nat, j: nat)
    requires AllDifferent(s) && i < |s| && j < |s|
    ensures AllDifferent(Swapped(s, i, j))
  {
    var t := Swapped(s, i, j);
    forall a, b | 0 <= a < |t| && 0 <= b < |t| && t[a] == t[b] ensures a == b {
      var x, y := if a == i then j else if a == j then i else a, if b == i then j else if b == j then i else b;
      assert t[a] == s[x] && t[b] == s[y];
    }
  }

  /** A swap settles position `i` and leaves those above it alone. */
  lemma SwapSettles<T(!new)>(s: seq<T>, i: nat, j: nat)
    requires j <= i < |s|
    ensures SameFrom(Swapped(s, i, j), s, i + 1) && Swapped(s, i, j)[i] == s[j]
  {
  }

  lemma {:induction false} ShufflePermutes<T>(s: seq<T>, draws: seq<nat>, m: nat)
    requires ValidDraws(|s|, draws) && m <= |draws|
    ensures multiset(Shuffled(s, draws, m)) == multiset(s)
  {
    if m > 0 {
      ShufflePermutes(s, draws, m - 1);
      SwapPermutes(Shuffled(s, draws, m - 1), |s| - m, draws[m - 1]);
    }
  }

  lemma {:induction false} ShuffleKeepsDifferent<T(!new)>(s: seq<T>, draws: seq<nat>, m: nat)
    requires ValidDraws(|s|, draws) && m <= |draws| && AllDifferent(s)
    ensures AllDifferent(Shuffled(s, draws, m))
  {
    if m > 0 {
      ShuffleKeepsDifferent(s, draws, m - 1);
      SwapKeepsDifferent(Shuffled(s, draws, m - 1), |s| - m, draws[m - 1]);
    }
  }

  /** Two swaps into the same position, ending alike from there on, picked the same item. */
  lemma SwapRevealsDraw<T(!new)>(x: seq<T>, y: seq<T>, i: nat, p: nat, q: nat)
    requires |x| == |y| && p <= i < |x| && q <= i
    requires SameFrom(Swapped(x, i, p), Swapped(y, i, q), i)
    ensures SameFrom(x, y, i + 1) && x[p] == y[q]
  {
    SwapSettles(x, i, p);
    SwapSettles(y, i, q);
    forall k | i < k < |x| ensures x[k] == y[k] {
      assert Swapped(x, i, p)[k] == Swapped(y, i, q)[k];
    }
  }

  /** The positions already settled reveal every draw made so far. */
  lemma {:induction false} TailRevealsDraws<T(!new)>(s: seq<T>, p: seq<nat>, q: seq<nat>, m: nat)
    requires AllDifferent(s) && ValidDraws(|s|, p) && ValidDraws(|s|, q) && m <= |p| && m <= |q|
    requires SameFrom(Shuffled(s, p, m), Shuffled(s, q, m), |s| - m)
    ensures p[..m] == q[..m] && Shuffled(s, p, m) == Shuffled(s, q, m)
  {
    if m > 0 {
      var x := Shuffled(s, p, m - 1);
      SwapRevealsDraw(x, Shuffled(s, q, m - 1), |s| - m, p[m - 1], q[m - 1]);
      TailRevealsDraws(s, p, q, m - 1);
      ShuffleKeepsDifferent(s, p, m - 1);
      assert p[m - 1] == q[m - 1];
      assert p[..m] == p[..m - 1] + [p[m - 1]] && q[..m] == q[..m - 1] + [q[m - 1]];
    }
  }

  /** Different draws give different orders. */
  lemma DrawsAreOrders<T(!new)>(s: seq<T>, p: seq<nat>, q: seq<nat>)
    requires AllDifferent(s) && ValidDraws(|s|, p) && ValidDraws(|s|, q) && |p| == |q|
    requires Shuffled(s, p, |p|) == Shuffled(s, q, |q|)
    ensures p == q
  {
    TailRevealsDraws(s, p, q, |p|);
    assert p[..|p|] == p && q[..|q|] == q;
  }

  lemma SameFront<T(!new)>(s: seq<T>, t: seq<T>, k: nat)
    requires multiset(s) == multiset(t) && k <= |s| && SameFrom(s, t, k)
    ensures multiset(s[..k]) == multiset(t[..k])
  {
    assert s[k..] == t[k..];
    assert s == s[..k] + s[k..] && t == t[..k] + t[k..];
    assert multiset(s[..k]) == multiset(s) - multiset(s[k..]);
    assert multiset(t[..k]) == multiset(t) - multiset(t[k..]);
  }

  /** Where the item wanted at position `k` is now. */
  lemma NextDraw<T(!new)>(x: seq<T>, t: seq<T>, k: nat) returns (j: nat)
    requires multiset(x) == multiset(t) && k < |x| && SameFrom(x, t, k + 1)
    ensures j <= k && x[j] == t[k]
  {
    SameFront(x, t, k + 1);
    assert t[..k + 1][k] == t[k];
    assert t[k] in multiset(x[..k + 1]);
    j :| 0 <= j <= k && x[..k + 1][j] == t[k];
  }

  lemma {:induction false} LaterDrawsDoNotMatter<T>(s: seq<T>, draws: seq<nat>, more: seq<nat>, m: nat)
    requires ValidDraws(|s|, draws) && ValidDraws(|s|, more) && draws <= more && m <= |draws|
    ensures Shuffled(s, more, m) == Shuffled(s, draws, m)
  {
    if m > 0 {
      LaterDrawsDoNotMatter(s, draws, more, m - 1);
    }
  }

  lemma {:induction false} DrawsFor<T(!new)>(s: seq<T>, t: seq<T>, m: nat) returns (draws: seq<nat>)
    requires multiset(s) == multiset(t) && |s| == |t| && m < |s|
    ensures |draws| == m && ValidDraws(|s|, draws)
    ensures SameFrom(Shuffled(s, draws, m), t, |s| - m)
  {
    if m == 0 {
      draws := [];
    } else {
      var before := DrawsFor(s, t, m - 1);
      var x := Shuffled(s, before, m - 1);
      ShufflePermutes(s, before, m - 1);
      var j := NextDraw(x, t, |s| - m);
      draws := before + [j];
      LaterDrawsDoNotMatter(s, before, draws, m - 1);
      SwapReaches(x, t, |s| - m, j);
    }
  }

  lemma SwapReaches<T(!new)>(x: seq<T>, t: seq<T>, i: nat, j: nat)
    requires j <= i < |x| && SameFrom(x, t, i + 1) && x[j] == t[i]
    ensures SameFrom(Swapped(x, i, j), t, i)
  {
  }

  /** Every order is given by some draws: with the lemma above, by exactly one list of them. */
  lemma EveryOrderHasDraws<T(!new)>(s: seq<T>, t: seq<T>) returns (draws: seq<nat>)
    requires s != [] && multiset(s) == multiset(t) && |s| == |t|
    ensures |draws| == |s| - 1 && ValidDraws(|s|, draws) && Shuffled(s, draws, |s| - 1) == t
  {
    draws := DrawsFor(s, t, |s| - 1);
    ShufflePermutes(s, draws, |s| - 1);
    var j := NextDraw(Shuffled(s, draws, |s| - 1), t, 0);
  }
}
