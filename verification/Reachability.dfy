/** Walks in a finite directed graph; a node that is not a key has no successors. */
module Reachability {

  type Links<N(!new)> = map<N, set<N>>

  ghost predicate Walk<N(!new)>(g: Links<N>, w: seq<N>) {
    && |w| > 0
    && forall i | 0 <= i < |w| - 1 :: w[i] in g && w[i + 1] in g[w[i]]
  }

  /** A walk from one of `starts` to `y`; it may have no steps. */
  ghost predicate ReachedFrom<N(!new)>(g: Links<N>, starts: seq<N>, y: N) {
    exists w :: Walk(g, w) && w[0] in starts && w[|w| - 1] == y
  }

  /** A walk of one or more steps. */
  ghost predicate Follows<N(!new)>(g: Links<N>, x: N, y: N) {
    exists w :: Walk(g, w) && |w| >= 2 && w[0] == x && w[|w| - 1] == y
  }

  ghost predicate Closed<N(!new)>(g: Links<N>, s: set<N>) {
    forall x | x in s && x in g :: g[x] <= s
  }

  lemma StepAfter<N(!new)>(g: Links<N>, w: seq<N>, y: N)
    requires Walk(g, w) && w[|w| - 1] in g && y in g[w[|w| - 1]]
    ensures Walk(g, w + [y])
  {
  }

  lemma Join<N(!new)>(g: Links<N>, v: seq<N>, w: seq<N>)
    requires Walk(g, v) && Walk(g, w) && v[|v| - 1] == w[0]
    ensures Walk(g, v + w[1..])
    ensures (v + w[1..])[0] == v[0] && (v + w[1..])[|v| + |w| - 2] == w[|w| - 1]
  {
    var u := v + w[1..];
    forall i | 0 <= i < |u| - 1 ensures u[i] in g && u[i + 1] in g[u[i]] {
      if i >= |v| - 1 {
        assert u[i] == w[i - |v| + 1] && u[i + 1] == w[i - |v| + 2];
      }
    }
  }

  lemma {:induction false} StaysInside<N(!new)>(g: Links<N>, s: set<N>, w: seq<N>, i: nat)
    requires Walk(g, w) && Closed(g, s) && w[0] in s && i < |w|
    ensures w[i] in s
  {
    if i > 0 {
      StaysInside(g, s, w, i - 1);
    }
  }

  /** A closed set that holds the starts, and only nodes reached from them, is the reached set. */
  lemma ClosureIsReached<N(!new)>(g: Links<N>, starts: seq<N>, s: set<N>, y: N)
    requires Closed(g, s) && (forall x | x in starts :: x in s)
    requires forall x | x in s :: ReachedFrom(g, starts, x)
    ensures y in s <==> ReachedFrom(g, starts, y)
  {
    if ReachedFrom(g, starts, y) {
      var w :| Walk(g, w) && w[0] in starts && w[|w| - 1] == y;
      StaysInside(g, s, w, |w| - 1);
    }
  }

  lemma ReachedStep<N(!new)>(g: Links<N>, starts: seq<N>, x: N, y: N)
    requires ReachedFrom(g, starts, x) && x in g && y in g[x]
    ensures ReachedFrom(g, starts, y)
  {
    var w :| Walk(g, w) && w[0] in starts && w[|w| - 1] == x;
    StepAfter(g, w, y);
    assert (w + [y])[|w|] == y;
  }

  /** What is reached from the successors of a reached node is reached. */
  lemma ReachedBeyond<N(!new)>(g: Links<N>, starts: seq<N>, x: N, next: seq<N>, y: N)
    requires ReachedFrom(g, starts, x) && ReachedFrom(g, next, y)
    requires x in g && forall z | z in next :: z in g[x]
    ensures ReachedFrom(g, starts, y)
  {
    var v :| Walk(g, v) && v[0] in starts && v[|v| - 1] == x;
    var w :| Walk(g, w) && w[0] in next && w[|w| - 1] == y;
    assert Walk(g, v + w) && (v + w)[0] == v[0] && (v + w)[|v| + |w| - 1] == y;
  }

  lemma ReachedStart<N(!new)>(g: Links<N>, starts: seq<N>, x: N)
    requires x in starts
    ensures ReachedFrom(g, starts, x)
  {
    assert Walk(g, [x]);
  }

  /** All nodes but the last are different, and the last may only equal the first. */
  ghost predicate Direct<N(!new)>(w: seq<N>) {
    && (forall i, j | 0 <= i < j < |w| - 1 :: w[i] != w[j])
    && (forall i | 1 <= i < |w| - 1 :: w[i] != w[|w| - 1])
  }

  lemma {:induction false} DirectWalk<N(!new)>(g: Links<N>, w: seq<N>) returns (d: seq<N>)
    requires Walk(g, w) && |w| >= 2
    ensures Walk(g, d) && |d| >= 2 && Direct(d) && d[0] == w[0] && d[|d| - 1] == w[|w| - 1]
    decreases |w|
  {
    var n := |w| - 1;
    if i, j :| 0 <= i < j < n && w[i] == w[j] {
      d := DirectWalk(g, w[..i] + w[j..]);
    } else if i :| 1 <= i < n && w[i] == w[n] {
      assert Walk(g, w[..i + 1]);
      d := DirectWalk(g, w[..i + 1]);
    } else {
      d := w;
    }
  }

  /** A walk whose last node, and no earlier one, repeats a node. */
  ghost predicate Lasso<N(!new)>(w: seq<N>) {
    && |w| >= 2
    && (forall i, j | 0 <= i < j < |w| - 1 :: w[i] != w[j])
    && w[|w| - 1] in w[..|w| - 1]
  }

  lemma {:induction false} LassoPrefix<N(!new)>(g: Links<N>, w: seq<N>, i: nat, j: nat) returns (n: nat)
    requires Walk(g, w) && i < j < |w| && w[i] == w[j]
    ensures 0 < n <= |w| && Lasso(w[..n]) && Walk(g, w[..n])
    decreases j
  {
    if k, l :| 0 <= k < l < j && w[k] == w[l] {
      n := LassoPrefix(g, w, k, l);
    } else {
      n := j + 1;
      assert w[..n][j] == w[..n][..j][i];
    }
  }

  // ---------------------------------------------------------------- worklists

  function Universe<N(!new)>(g: Links<N>, starts: seq<N>): set<N> {
    (set x | x in starts) + g.Keys + (set x, y | x in g && y in g[x] :: y)
  }

  /** The state of a search: `seen` is done, and whatever it points to is seen or pending. */
  ghost predicate Frontier<N(!new)>(g: Links<N>, starts: seq<N>, pending: seq<N>, seen: set<N>) {
    && (forall x | x in seen || x in pending :: x in Universe(g, starts) && ReachedFrom(g, starts, x))
    && (forall x | x in starts :: x in seen || x in pending)
    && (forall x, y | x in seen && x in g && y in g[x] :: y in seen || y in pending)
  }

  lemma FrontierStarts<N(!new)>(g: Links<N>, starts: seq<N>)
    ensures Frontier(g, starts, starts, {})
  {
    forall x | x in starts ensures ReachedFrom(g, starts, x) { ReachedStart(g, starts, x); }
  }

  /** Taking a node that was seen before. */
  lemma FrontierSkips<N(!new)>(g: Links<N>, starts: seq<N>, pending: seq<N>, seen: set<N>)
    requires Frontier(g, starts, pending, seen) && pending != [] && pending[|pending| - 1] in seen
    ensures Frontier(g, starts, pending[..|pending| - 1], seen)
  {
    assert forall x | x in pending :: x in pending[..|pending| - 1] || x == pending[|pending| - 1];
  }

  /** The nodes a search must add when it takes `x`: successors only, and every unseen one. */
  ghost predicate Expands<N(!new)>(g: Links<N>, x: N, seen: set<N>, more: seq<N>) {
    && (forall y | y in more :: x in g && y in g[x])
    && (x in g ==> forall y | y in g[x] :: y in more || y in seen || y == x)
  }

  lemma FrontierTakes<N(!new)>(g: Links<N>, starts: seq<N>, rest: seq<N>, x: N, seen: set<N>, more: seq<N>)
    requires Frontier(g, starts, rest + [x], seen) && Expands(g, x, seen, more)
    ensures Frontier(g, starts, rest + more, seen + {x}) && x in Universe(g, starts)
  {
    var pending, pending', seen' := rest + [x], rest + more, seen + {x};
    assert pending[|rest|] == x;
    forall y | y in more ensures y in Universe(g, starts) && ReachedFrom(g, starts, y) { ReachedStep(g, starts, x, y); }
    forall y | y in pending ensures y in seen' || y in pending' {}
    forall y | y in pending' ensures y in pending || y in more {}
    forall y, z | y in seen' && y in g && z in g[y] ensures z in seen' || z in pending' {
      if y != x { assert z in seen || z in pending; }
    }
  }

  /** Taking a new node, and adding the successors that are not seen yet. */
  lemma FrontierAdvances<N(!new)>(g: Links<N>, starts: seq<N>, pending: seq<N>, seen: set<N>, more: seq<N>)
    requires Frontier(g, starts, pending, seen) && pending != [] && pending[|pending| - 1] !in seen
    requires Expands(g, pending[|pending| - 1], seen, more)
    ensures Frontier(g, starts, pending[..|pending| - 1] + more, seen + {pending[|pending| - 1]})
    ensures |Universe(g, starts) - (seen + {pending[|pending| - 1]})| < |Universe(g, starts) - seen|
  {
    var x, rest := pending[|pending| - 1], pending[..|pending| - 1];
    assert pending == rest + [x];
    FrontierTakes(g, starts, rest, x, seen, more);
    LessUnseen(Universe(g, starts), seen, x);
  }

  lemma LessUnseen<N>(universe: set<N>, seen: set<N>, x: N)
    requires x in universe && x !in seen
    ensures |universe - (seen + {x})| < |universe - seen|
  {
    assert universe - seen == (universe - (seen + {x})) + {x};
  }

  lemma FrontierDone<N(!new)>(g: Links<N>, starts: seq<N>, seen: set<N>, y: N)
    requires Frontier(g, starts, [], seen)
    ensures y in seen <==> ReachedFrom(g, starts, y)
  {
    ClosureIsReached(g, starts, seen, y);
  }
}
