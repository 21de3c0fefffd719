/**
 Ancestry checks over observation graphs (evidence_chain.py, observation_graph.py). Parent links may
 form cycles and may point to observations that do not exist.
 */
module EvidenceChain {
  import opened Reachability

  type Id = string

  /** `by_id`: each observation with its parents, in order. */
  type Graph = map<Id, seq<Id>>

  function ParentLinks(graph: Graph): Links<Id> {
    map x | x in graph :: set p | p in graph[x]
  }

  /** A walk `visit(current, path)` is bound to explore: inner nodes are new to the path. */
  ghost predicate Unseen(w: seq<Id>, path: seq<Id>, root: Id) {
    && (forall i, j | 0 <= i < j < |w| - 1 :: w[i] != w[j])
    && (forall i | 1 <= i < |w| - 1 :: w[i] !in path && w[i] != root)
  }

  ghost predicate ClosesCycle(w: seq<Id>, path: seq<Id>, root: Id)
    requires |w| > 0
  {
    var last := w[|w| - 1];
    last in path || last == root || last in w[..|w| - 1]
  }

  /** Some cycle can be reached from `x`. */
  ghost predicate CycleAhead(g: Links<Id>, x: Id) {
    exists y :: (y == x || Follows(g, x, y)) && Follows(g, y, y)
  }

  lemma UnseenTail(g: Links<Id>, w: seq<Id>, path: seq<Id>, root: Id)
    requires Walk(g, w) && |w| >= 3 && Unseen(w, path, root)
    ensures Walk(g, w[1..]) && Unseen(w[1..], path + [w[0]], root)
    ensures w[1] !in path && w[1] != root
    ensures ClosesCycle(w, path, root) ==> ClosesCycle(w[1..], path + [w[0]], root)
  {
    var t := w[1..];
    forall i | 1 <= i < |t| - 1 ensures t[i] !in path + [w[0]] && t[i] != root {
      assert t[i] == w[i + 1] && w[0] != w[i + 1];
    }
    if w[|w| - 1] in w[..|w| - 1] {
      var k :| 0 <= k < |w| - 1 && w[k] == w[|w| - 1];
      if k > 0 { assert t[..|t| - 1][k - 1] == t[|t| - 1]; }
    }
  }

  lemma RepeatMeansCycle(g: Links<Id>, w: seq<Id>, i: nat)
    requires Walk(g, w) && i < |w| - 1 && w[i] == w[|w| - 1]
    ensures CycleAhead(g, w[0])
  {
    assert Walk(g, w[i..]) && Walk(g, w[..i + 1]);
    assert w[i..][0] == w[i] && w[i..][|w| - 1 - i] == w[i];
    assert Follows(g, w[i], w[i]);
    if i > 0 {
      assert w[..i + 1][0] == w[0] && w[..i + 1][i] == w[i];
      assert Follows(g, w[0], w[i]);
    }
  }

  /** The variables `visit` shares with its caller. */
  datatype Found = Found(ancestors: set<Id>, dangling: set<Id>, cycleDetected: bool) {
    ghost predicate Within(later: Found) {
      ancestors <= later.ancestors && dangling <= later.dangling && (cycleDetected ==> later.cycleDetected)
    }

    ghost predicate Records(graph: Graph, w: seq<Id>, path: seq<Id>, root: Id)
      requires |w| > 0
    {
      && w[|w| - 1] in ancestors
      && (w[|w| - 1] !in graph ==> w[|w| - 1] in dangling)
      && (ClosesCycle(w, path, root) ==> cycleDetected)
    }

    ghost predicate Sound(graph: Graph, root: Id) {
      var g := ParentLinks(graph);
      && (forall x | x in ancestors :: Follows(g, root, x))
      && (forall x | x in dangling :: Follows(g, root, x) && x !in graph)
      && (cycleDetected ==> CycleAhead(g, root))
    }

    /** Every unseen walk of one or more steps from `current` through its first `n` parents is recorded. */
    ghost predicate Recorded(graph: Graph, root: Id, current: Id, path: seq<Id>, n: nat)
      requires current in graph && n <= |graph[current]|
    {
      forall w | Walk(ParentLinks(graph), w) && |w| >= 2 && w[0] == current && Unseen(w, path, root) ::
        w[1] in graph[current][..n] ==> Records(graph, w, path, root)
    }

    ghost predicate Explored(graph: Graph, root: Id, current: Id, path: seq<Id>) {
      if current in graph then Recorded(graph, root, current, path, |graph[current]|) else current in dangling
    }
  }

  lemma RecordParent(f: Found, f': Found, graph: Graph, root: Id, current: Id, path: seq<Id>, n: nat)
    requires current in graph && n < |graph[current]| && root in graph
    requires forall x | x in path :: x in graph
    requires f.Recorded(graph, root, current, path, n) && f.Within(f')
    requires var parent := graph[current][n];
      && parent in f'.ancestors
      && if parent in path || parent == root then f'.cycleDetected
         else f'.Explored(graph, root, parent, path + [current])
    ensures f'.Recorded(graph, root, current, path, n + 1)
  {
    var g, parent := ParentLinks(graph), graph[current][n];
    forall w | Walk(g, w) && |w| >= 2 && w[0] == current && Unseen(w, path, root)
      ensures w[1] in graph[current][..n + 1] ==> f'.Records(graph, w, path, root)
    {
      if w[1] in graph[current][..n] {
        assert f.Records(graph, w, path, root);
      } else if w[1] == parent {
        RecordWalk(f', graph, root, current, path, w);
      }
    }
  }

  lemma RecordWalk(f: Found, graph: Graph, root: Id, current: Id, path: seq<Id>, w: seq<Id>)
    requires Walk(ParentLinks(graph), w) && |w| >= 2 && w[0] == current && Unseen(w, path, root)
    requires root in graph && forall x | x in path :: x in graph
    requires w[1] in f.ancestors
    requires if w[1] in path || w[1] == root then f.cycleDetected else f.Explored(graph, root, w[1], path + [current])
    ensures f.Records(graph, w, path, root)
  {
    var g := ParentLinks(graph);
    if |w| >= 3 {
      UnseenTail(g, w, path, root);
      assert w[1..][0] == w[1] && w[1..][1] == w[2];
      assert f.Records(graph, w[1..], path + [current], root);
    } else if w[1] !in path && w[1] != root && w[1] == current {
      // A node that is its own parent: the second visit has it on its path.
      var again := [current, current];
      assert Walk(g, again) && Unseen(again, path + [current], root) && again[1] in path + [current];
      assert f.Records(graph, again, path + [current], root);
    }
  }

  function OffPath(graph: Graph, path: seq<Id>): set<Id> {
    graph.Keys - (set x | x in path)
  }

  /** Why `visit` ends: the node it stands on is not on its path, unless it is its own parent. */
  lemma PathGrows(graph: Graph, current: Id, path: seq<Id>, parent: Id)
    requires current in graph && parent !in path
    ensures var before, after := OffPath(graph, path), OffPath(graph, path + [current]);
      |after| < |before| || (|after| == |before| && current in path && parent !in path + [current])
  {
    var before, after := OffPath(graph, path), OffPath(graph, path + [current]);
    assert after == before - {current};
    if current in path {
      assert after == before;
    }
  }

  /** The nested `visit`, with the variables it shares with its caller as fields. */
  class AncestryWalk {
    const graph: Graph
    const root: Id
    var ancestors: set<Id>
    var dangling: set<Id>
    var cycleDetected: bool

    constructor (graph: Graph, root: Id)
      ensures this.graph == graph && this.root == root
      ensures State() == Found({}, {}, false)
    {
      this.graph, this.root := graph, root;
      ancestors, dangling, cycleDetected := {}, {}, false;
    }

    function State(): Found
      reads this
    {
      Found(ancestors, dangling, cycleDetected)
    }

    method Visit(current: Id, path: seq<Id>)
      requires root in graph && State().Sound(graph, root)
      requires Walk(ParentLinks(graph), path + [current]) && (path + [current])[0] == root
      modifies this
      ensures State().Sound(graph, root) && old(State()).Within(State())
      ensures State().Explored(graph, root, current, path)
      decreases |OffPath(graph, path)|, if current in path then 1 else 0
    {
      var walked := path + [current];
      if current !in graph {
        DanglingIsSound(State(), graph, root, walked);
        dangling := dangling + {current};
        return;
      }
      var parents := graph[current];
      OnWalk(graph, path, current);
      for i := 0 to |parents|
        invariant State().Sound(graph, root) && old(State()).Within(State())
        invariant State().Recorded(graph, root, current, path, i)
      {
        var parent := parents[i];
        ghost var before := State();
        if parent in path || parent == root {
          CycleFound(before, graph, root, current, path, i);
          cycleDetected := true;
          ancestors := ancestors + {parent};
        } else {
          BeforeDescent(before, graph, root, current, path, parent);
          PathGrows(graph, current, path, parent);
          ancestors := ancestors + {parent};
          Visit(parent, walked);
          RecordParent(before, State(), graph, root, current, path, i);
        }
      }
    }
  }

  /** A parent that is on the path already. */
  lemma CycleFound(f: Found, graph: Graph, root: Id, current: Id, path: seq<Id>, n: nat)
    requires current in graph && n < |graph[current]| && root in graph && f.Sound(graph, root)
    requires Walk(ParentLinks(graph), path + [current]) && (path + [current])[0] == root
    requires f.Recorded(graph, root, current, path, n)
    requires graph[current][n] in path || graph[current][n] == root
    ensures var f' := f.(ancestors := f.ancestors + {graph[current][n]}, cycleDetected := true);
      f'.Sound(graph, root) && f'.Recorded(graph, root, current, path, n + 1)
  {
    var parent := graph[current][n];
    assert (path + [current])[..|path|] == path;
    ParentIsSound(f, graph, root, path + [current], parent);
    OnWalk(graph, path, current);
    RecordParent(f, f.(ancestors := f.ancestors + {parent}, cycleDetected := true), graph, root, current, path, n);
  }

  /** A parent that is new to the path may be visited. */
  lemma BeforeDescent(f: Found, graph: Graph, root: Id, current: Id, path: seq<Id>, parent: Id)
    requires current in graph && parent in graph[current] && f.Sound(graph, root)
    requires Walk(ParentLinks(graph), path + [current]) && (path + [current])[0] == root
    ensures f.(ancestors := f.ancestors + {parent}).Sound(graph, root)
    ensures Walk(ParentLinks(graph), path + [current] + [parent]) && (path + [current] + [parent])[0] == root
  {
    ParentIsSound(f, graph, root, path + [current], parent);
    StepAfter(ParentLinks(graph), path + [current], parent);
  }

  lemma OnWalk(graph: Graph, path: seq<Id>, current: Id)
    requires Walk(ParentLinks(graph), path + [current])
    ensures forall x | x in path :: x in graph
  {
    var walked := path + [current];
    forall x | x in path ensures x in graph {
      var i :| 0 <= i < |path| && path[i] == x;
      assert walked[i] == x;
    }
  }

  lemma DanglingIsSound(f: Found, graph: Graph, root: Id, walked: seq<Id>)
    requires f.Sound(graph, root) && root in graph
    requires Walk(ParentLinks(graph), walked) && walked[0] == root && walked[|walked| - 1] !in graph
    ensures f.(dangling := f.dangling + {walked[|walked| - 1]}).Sound(graph, root)
  {
    assert Follows(ParentLinks(graph), root, walked[|walked| - 1]);
  }

  lemma ParentIsSound(f: Found, graph: Graph, root: Id, walked: seq<Id>, parent: Id)
    requires f.Sound(graph, root)
    requires Walk(ParentLinks(graph), walked) && walked[0] == root
    requires walked[|walked| - 1] in graph && parent in graph[walked[|walked| - 1]]
    ensures f.(ancestors := f.ancestors + {parent}).Sound(graph, root)
    ensures parent in walked[..|walked| - 1] || parent == root ==>
              f.(ancestors := f.ancestors + {parent}, cycleDetected := true).Sound(graph, root)
  {
    var g, w := ParentLinks(graph), walked + [parent];
    StepAfter(g, walked, parent);
    assert w[0] == root && w[|w| - 1] == parent;
    assert Follows(g, root, parent);
    if parent in walked[..|walked| - 1] || parent == root {
      var i: nat;
      if parent == root {
        i := 0;
      } else {
        i :| 0 <= i < |walked| - 1 && walked[..|walked| - 1][i] == parent;
      }
      RepeatMeansCycle(g, w, i);
    }
  }

  /** The whole check: exactly the proper ancestors, the missing ones among them, and whether a cycle is reachable. */
  method AncestryIntegrity(graph: Graph, observationId: Id)
    returns (ancestors: set<Id>, dangling: set<Id>, cycleDetected: bool)
    ensures forall x :: x in ancestors <==> Follows(ParentLinks(graph), observationId, x)
    ensures forall x :: x in dangling <==> Follows(ParentLinks(graph), observationId, x) && x !in graph
    ensures cycleDetected <==> CycleAhead(ParentLinks(graph), observationId)
  {
    var visit := new AncestryWalk(graph, observationId);
    var g := ParentLinks(graph);
    if observationId in graph {
      assert Walk(g, [] + [observationId]);
      visit.Visit(observationId, []);
      forall x | Follows(g, observationId, x)
        ensures x in visit.ancestors && (x !in graph ==> x in visit.dangling)
      {
        EveryAncestorRecorded(visit.State(), graph, observationId, x);
      }
      if CycleAhead(g, observationId) {
        ReachableCycleRecorded(visit.State(), graph, observationId);
      }
    }
    return visit.ancestors, visit.dangling, visit.cycleDetected;
  }

  /** What `visit` records from the top covers every walk, though it follows only unseen ones. */
  lemma EveryAncestorRecorded(f: Found, graph: Graph, root: Id, x: Id)
    requires root in graph && f.Explored(graph, root, root, []) && Follows(ParentLinks(graph), root, x)
    ensures x in f.ancestors && (x !in graph ==> x in f.dangling)
  {
    var g := ParentLinks(graph);
    var w :| Walk(g, w) && |w| >= 2 && w[0] == root && w[|w| - 1] == x;
    var d := DirectWalk(g, w);
    assert Unseen(d, [], root) && d[1] in graph[root];
    assert f.Records(graph, d, [], root);
  }

  lemma CycleMakesLasso(g: Links<Id>, root: Id) returns (w: seq<Id>)
    requires CycleAhead(g, root)
    ensures Walk(g, w) && w[0] == root && Lasso(w)
  {
    var y :| (y == root || Follows(g, root, y)) && Follows(g, y, y);
    var c :| Walk(g, c) && |c| >= 2 && c[0] == y && c[|c| - 1] == y;
    var u := c;
    if y != root {
      var v :| Walk(g, v) && |v| >= 2 && v[0] == root && v[|v| - 1] == y;
      Join(g, v, c);
      u := v + c[1..];
      assert u[|v| - 1] == u[|u| - 1];
    }
    var n := LassoPrefix(g, u, |u| - |c|, |u| - 1);
    w := u[..n];
  }

  lemma ReachableCycleRecorded(f: Found, graph: Graph, root: Id)
    requires root in graph && f.Explored(graph, root, root, []) && CycleAhead(ParentLinks(graph), root)
    ensures f.cycleDetected
  {
    var w := CycleMakesLasso(ParentLinks(graph), root);
    assert Unseen(w, [], root) && w[1] in graph[root];
    assert f.Records(graph, w, [], root);
  }
}
