/**
 Duplicate-finding clusters (finding_correlation.py). Scores are in units of 1/10000; canonical assets,
 endpoints, CWE labels and title tokens are given.
 */
module FindingClusters {
  import opened Arithmetic
  import opened Wrappers
  import opened Reachability

  type Id = string

  datatype Finding = Finding(id: Id, asset: string, endpoint: Option<string>, cwe: Option<string>, title: set<string>)

  datatype Similarity = Similarity(left: Id, right: Id, score: nat, sameAsset: bool, sameEndpoint: bool, sameCwe: bool)

  datatype Cluster = Cluster(ids: set<Id>, confidence: nat, pairScores: seq<nat>)

  const MAX_SCORE := 10000

  // ---------------------------------------------------------------- scores

  /** `round` of a quotient: to the nearest integer, ties to even. */
  function Round(num: nat, den: nat): nat
    requires den > 0
  {
    var q, rest := num / den, num % den;
    if 2 * rest > den || (2 * rest == den && q % 2 == 1) then q + 1 else q
  }

  lemma RoundStaysBetween(num: nat, den: nat, lo: nat, hi: nat)
    requires den > 0 && lo * den <= num <= hi * den
    ensures lo <= Round(num, den) <= hi
  {
    QuotientStaysBetween(num, den, lo, hi);
  }

  lemma QuotientStaysBetween(num: nat, den: nat, lo: nat, hi: nat)
    requires den > 0 && lo * den <= num <= hi * den
    ensures lo <= num / den <= hi && (num / den == hi ==> num % den == 0)
  {
    var q, rest := num / den, num % den;
    assert num == q * den + rest;
    if q < lo {
      Multiples(q + 1, lo, den);
    } else if q >= hi {
      Multiples(hi, q, den);
      if q > hi { Multiples(hi + 1, q, den); }
    }
  }

  function TitlePart(left: set<string>, right: set<string>): nat {
    if left == {} || right == {} then 0
    else
      assert left <= left + right;
      SubsetSize(left, left + right);
      assert left != {} ==> |left + right| > 0;
      Round(1500 * |left * right|, |left + right|)
  }

  function Score(left: Finding, right: Finding): Similarity {
    var sameAsset := left.asset == right.asset;
    var sameEndpoint := left.endpoint.Some? && left.endpoint == right.endpoint;
    var sameCwe := left.cwe.Some? && left.cwe == right.cwe;
    var sum := (if sameAsset then 2500 else 0) + (if sameEndpoint then 3500 else 0) + (if sameCwe then 2500 else 0)
               + TitlePart(left.title, right.title);
    var score := if !sameAsset && sum > 4000 then 4000 else sum;
    Similarity(left.id, right.id, score, sameAsset, sameEndpoint, sameCwe)
  }

  /** Scores are symmetric and at most 1, and at most 0.40 across assets, below the lowest admissible threshold. */
  lemma ScoreLaws(left: Finding, right: Finding)
    ensures Score(left, right).score == Score(right, left).score <= MAX_SCORE
    ensures left.asset != right.asset ==> Score(left, right).score <= 4000
  {
    var a, b := left.title, right.title;
    assert a * b == b * a && a + b == b + a;
    if a != {} && b != {} {
      SubsetSize(a, a + b);
      SubsetSize(a * b, a + b);
      RoundStaysBetween(1500 * |a * b|, |a + b|, 0, 1500);
    }
  }

  predicate AgreeOnEndpoint(left: Finding, right: Finding) {
    left.endpoint.Some? && right.endpoint == left.endpoint
  }

  predicate AgreeOnCwe(left: Finding, right: Finding) {
    left.cwe.Some? && right.cwe == left.cwe
  }

  /** Findings of one asset: what each agreement adds, whatever the others are. */
  lemma ScoreGains(left: Finding, right: Finding, endpoint: Option<string>, cwe: Option<string>, title: set<string>)
    requires left.asset == right.asset
    ensures AgreeOnEndpoint(left, right) && !AgreeOnEndpoint(left, right.(endpoint := endpoint)) ==>
      Score(left, right).score == Score(left, right.(endpoint := endpoint)).score + 3500
    ensures AgreeOnCwe(left, right) && !AgreeOnCwe(left, right.(cwe := cwe)) ==>
      Score(left, right).score == Score(left, right.(cwe := cwe)).score + 2500
    ensures left.title == right.title != {} && title !! left.title ==>
      Score(left, right).score == Score(left, right.(title := title)).score + 1500
  {
    if left.title == right.title != {} && title !! left.title {
      TitleOfDisjoint(left.title, title);
      TitleOfEqual(left.title);
    }
  }

  lemma TitleOfDisjoint(left: set<string>, right: set<string>)
    requires left !! right
    ensures TitlePart(left, right) == 0
  {
    if left != {} && right != {} {
      assert left * right == {};
      SubsetSize(left, left + right);
      RoundStaysBetween(0, |left + right|, 0, 0);
    }
  }

  lemma TitleOfEqual(title: set<string>)
    requires title != {}
    ensures TitlePart(title, title) == 1500
  {
    assert title * title == title && title + title == title;
    RoundStaysBetween(1500 * |title|, |title|, 1500, 1500);
  }

  /** The title's share is the nearest to its part of 1500: common words over all words; ties go to the even. */
  lemma TitleIsNearest(left: Finding, right: Finding)
    requires left.asset == right.asset && left.title != {} && right.title != {}
    ensures Score(left, right).score >= Score(left, right.(title := {})).score
    ensures var share := Score(left, right).score - Score(left, right.(title := {})).score;
      var off := 2 * (share * |left.title + right.title| - 1500 * |left.title * right.title|);
      && -|left.title + right.title| <= off <= |left.title + right.title|
      && (off == |left.title + right.title| || off == -|left.title + right.title| ==> share % 2 == 0)
  {
    SubsetSize(left.title, left.title + right.title);
    RoundIsNearest(1500 * |left.title * right.title|, |left.title + right.title|);
  }

  lemma RoundIsNearest(num: nat, den: nat)
    requires den > 0
    ensures var off := 2 * (Round(num, den) * den - num);
      0 <= off + den <= 2 * den && (off + den == 0 || off == den ==> Round(num, den) % 2 == 0)
  {
    var q, rest := num / den, num % den;
    assert num == q * den + rest;
    assert (q + 1) * den == q * den + den;
  }

  /** Nothing in common is no score; another asset costs 2500, and then 4000 is the most there is. */
  lemma ScoreAcrossAssets(left: Finding, right: Finding)
    requires left.asset != right.asset
    ensures var same := Score(left, right.(asset := left.asset)).score;
      Score(left, right).score == if same < 6500 then same - 2500 else 4000
    ensures !AgreeOnEndpoint(left, right) && !AgreeOnCwe(left, right) && left.title !! right.title ==>
      Score(left, right).score == 0
  {
    if left.title !! right.title { TitleOfDisjoint(left.title, right.title); }
  }

  lemma ScoreNames(left: Finding, right: Finding)
    ensures var s := Score(left, right);
      && s.left == left.id && s.right == right.id && (s.sameAsset <==> left.asset == right.asset)
      && (s.sameEndpoint <==> AgreeOnEndpoint(left, right)) && (s.sameCwe <==> AgreeOnCwe(left, right))
  {
  }

  /** Findings that agree on asset, endpoint and CWE score at least 0.85, whatever their titles. */
  predicate Duplicates(left: Finding, right: Finding) {
    left.asset == right.asset && AgreeOnEndpoint(left, right) && AgreeOnCwe(left, right)
  }

  // ---------------------------------------------------------------- the link graph

  function Ids(findings: seq<Finding>): set<Id> {
    set f | f in findings :: f.id
  }

  predicate Joins(s: Similarity, threshold: nat, a: Id, b: Id) {
    s.score >= threshold && ((s.left == a && s.right == b) || (s.left == b && s.right == a))
  }

  /** Two findings with these ids score at least the threshold. */
  ghost predicate Linked(findings: seq<Finding>, threshold: nat, a: Id, b: Id) {
    exists i, j | 0 <= i < j < |findings| :: Joins(Score(findings[i], findings[j]), threshold, a, b)
  }

  ghost function LinkGraph(findings: seq<Finding>, threshold: nat): Links<Id> {
    map a | a in Ids(findings) :: set b | b in Ids(findings) && Linked(findings, threshold, a, b)
  }

  lemma DuplicatesAreConnected(findings: seq<Finding>, threshold: nat, left: Finding, right: Finding)
    requires threshold <= 8500 && Duplicates(left, right)
    requires left in findings && right in findings && left.id != right.id
    ensures Connected(findings, threshold, left.id, right.id)
  {
    var i :| 0 <= i < |findings| && findings[i] == left;
    var j :| 0 <= j < |findings| && findings[j] == right;
    var x, y := if i < j then i else j, if i < j then j else i;
    assert Joins(Score(findings[x], findings[y]), threshold, left.id, right.id);
    var g := LinkGraph(findings, threshold);
    ReachedStart(g, [left.id], left.id);
    ReachedStep(g, [left.id], left.id, right.id);
  }

  ghost predicate Connected(findings: seq<Finding>, threshold: nat, a: Id, b: Id) {
    ReachedFrom(LinkGraph(findings, threshold), [a], b)
  }

  /** Pairs of finding `i` with the findings after it, before position `n`. */
  function Row(findings: seq<Finding>, i: nat, n: nat): seq<Similarity>
    requires i < n <= |findings|
  {
    if n == i + 1 then [] else Row(findings, i, n - 1) + [Score(findings[i], findings[n - 1])]
  }

  /** All pairs whose first finding is before position `i`. */
  function Pairs(findings: seq<Finding>, i: nat): seq<Similarity>
    requires i <= |findings|
  {
    if i == 0 then [] else Pairs(findings, i - 1) + Row(findings, i - 1, |findings|)
  }

  lemma {:induction false} FromRow(findings: seq<Finding>, i: nat, n: nat, s: Similarity) returns (j: nat)
    requires i < n <= |findings| && s in Row(findings, i, n)
    ensures i < j < n && s == Score(findings[i], findings[j])
  {
    j := n - 1;
    if s != Score(findings[i], findings[j]) { j := FromRow(findings, i, n - 1, s); }
  }

  lemma {:induction false} IntoRow(findings: seq<Finding>, i: nat, n: nat, j: nat)
    requires i < j < n <= |findings|
    ensures Score(findings[i], findings[j]) in Row(findings, i, n)
  {
    if j < n - 1 { IntoRow(findings, i, n - 1, j); }
  }

  lemma {:induction false} RowOfPair(findings: seq<Finding>, n: nat, s: Similarity) returns (i: nat)
    requires n <= |findings| && s in Pairs(findings, n)
    ensures i < n && s in Row(findings, i, |findings|)
  {
    i := n - 1;
    if s in Pairs(findings, i) { i := RowOfPair(findings, i, s); }
  }

  lemma FromPairs(findings: seq<Finding>, n: nat, s: Similarity) returns (i: nat, j: nat)
    requires n <= |findings| && s in Pairs(findings, n)
    ensures i < j < |findings| && s == Score(findings[i], findings[j])
  {
    i := RowOfPair(findings, n, s);
    j := FromRow(findings, i, |findings|, s);
  }

  lemma {:induction false} IntoPairs(findings: seq<Finding>, n: nat, i: nat, j: nat)
    requires i < n <= |findings| && i < j < |findings|
    ensures Score(findings[i], findings[j]) in Pairs(findings, n)
  {
    if i == n - 1 {
      IntoRow(findings, i, |findings|, j);
    } else {
      IntoPairs(findings, n - 1, i, j);
    }
  }

  ghost predicate LinkedIn(similarities: seq<Similarity>, threshold: nat, a: Id, b: Id) {
    exists s | s in similarities :: Joins(s, threshold, a, b)
  }

  lemma LinkedInPairs(findings: seq<Finding>, threshold: nat, a: Id, b: Id)
    ensures LinkedIn(Pairs(findings, |findings|), threshold, a, b) <==> Linked(findings, threshold, a, b)
  {
    var n := |findings|;
    if LinkedIn(Pairs(findings, n), threshold, a, b) {
      var s :| s in Pairs(findings, n) && Joins(s, threshold, a, b);
      var i, j := FromPairs(findings, n, s);
      assert Joins(Score(findings[i], findings[j]), threshold, a, b);
    }
    if Linked(findings, threshold, a, b) {
      var i, j :| 0 <= i < j < n && Joins(Score(findings[i], findings[j]), threshold, a, b);
      IntoPairs(findings, n, i, j);
    }
  }

  /** The adjacency sets built so far: both directions of every pair that reaches the threshold. */
  ghost predicate Adjacent(adjacency: Links<Id>, similarities: seq<Similarity>, threshold: nat) {
    forall a, b :: a in adjacency ==> (b in adjacency[a] <==> LinkedIn(similarities, threshold, a, b))
  }

  lemma AdjacentGrows(adjacency: Links<Id>, similarities: seq<Similarity>, threshold: nat, s: Similarity)
    requires Adjacent(adjacency, similarities, threshold) && s.left in adjacency && s.right in adjacency
    ensures var linked := adjacency[s.left := adjacency[s.left] + {s.right}];
      Adjacent(if s.score >= threshold then linked[s.right := linked[s.right] + {s.left}] else adjacency,
               similarities + [s], threshold)
  {
    forall a, b
      ensures LinkedIn(similarities + [s], threshold, a, b) <==>
        LinkedIn(similarities, threshold, a, b) || Joins(s, threshold, a, b)
    {
      assert forall t :: t in similarities + [s] <==> t in similarities || t == s;
    }
  }

  method AddLink(adjacency: Links<Id>, ghost similarities: seq<Similarity>, threshold: nat, s: Similarity)
    returns (adjacency': Links<Id>)
    requires Adjacent(adjacency, similarities, threshold) && s.left in adjacency && s.right in adjacency
    ensures adjacency'.Keys == adjacency.Keys && Adjacent(adjacency', similarities + [s], threshold)
  {
    AdjacentGrows(adjacency, similarities, threshold, s);
    adjacency' := adjacency;
    if s.score >= threshold {
      adjacency' := adjacency'[s.left := adjacency'[s.left] + {s.right}];
      adjacency' := adjacency'[s.right := adjacency'[s.right] + {s.left}];
    }
  }

  method BuildAdjacency(findings: seq<Finding>, threshold: nat)
    returns (adjacency: Links<Id>, similarities: seq<Similarity>)
    ensures similarities == Pairs(findings, |findings|)
    ensures adjacency == LinkGraph(findings, threshold)
  {
    adjacency, similarities := map x | x in Ids(findings) :: {}, [];
    for i := 0 to |findings|
      invariant similarities == Pairs(findings, i)
      invariant adjacency.Keys == Ids(findings) && Adjacent(adjacency, similarities, threshold)
    {
      ghost var before := similarities;
      for j := i + 1 to |findings|
        invariant similarities == before + Row(findings, i, j)
        invariant adjacency.Keys == Ids(findings) && Adjacent(adjacency, similarities, threshold)
      {
        var s := Score(findings[i], findings[j]);
        assert s.left in Ids(findings) && s.right in Ids(findings);
        adjacency := AddLink(adjacency, similarities, threshold, s);
        similarities := similarities + [s];
      }
    }
    AdjacencyIsLinkGraph(findings, adjacency, threshold);
  }

  lemma AdjacencyIsLinkGraph(findings: seq<Finding>, adjacency: Links<Id>, threshold: nat)
    requires adjacency.Keys == Ids(findings) && Adjacent(adjacency, Pairs(findings, |findings|), threshold)
    ensures adjacency == LinkGraph(findings, threshold)
  {
    forall a, b | a in adjacency ensures b in adjacency[a] <==> b in LinkGraph(findings, threshold)[a] {
      LinkedInPairs(findings, threshold, a, b);
      if Linked(findings, threshold, a, b) {
        var i, j :| 0 <= i < j < |findings| && Joins(Score(findings[i], findings[j]), threshold, a, b);
        assert findings[i].id in Ids(findings) && findings[j].id in Ids(findings);
      }
    }
    var g := LinkGraph(findings, threshold);
    assert g.Keys == adjacency.Keys;
    forall a | a in adjacency ensures adjacency[a] == g[a] {
      assert forall b :: b in adjacency[a] <==> b in g[a];
    }
  }

  // ---------------------------------------------------------------- components

  ghost predicate Symmetric(g: Links<Id>) {
    && (forall a | a in g :: g[a] <= g.Keys)
    && forall a, b | a in g && b in g[a] :: a in g[b]
  }

  lemma LinkGraphIsSymmetric(findings: seq<Finding>, threshold: nat)
    ensures Symmetric(LinkGraph(findings, threshold))
  {
    var g := LinkGraph(findings, threshold);
    forall a, b | a in g && b in g[a] ensures b in g && a in g[b] {
      var i, j :| 0 <= i < j < |findings| && Joins(Score(findings[i], findings[j]), threshold, a, b);
      assert Joins(Score(findings[i], findings[j]), threshold, b, a);
    }
  }

  lemma {:induction false} Backwards(g: Links<Id>, w: seq<Id>)
    requires Symmetric(g) && Walk(g, w) && w[0] in g
    ensures w[|w| - 1] in g && ReachedFrom(g, [w[|w| - 1]], w[0])
  {
    if |w| == 1 {
      ReachedStart(g, [w[0]], w[0]);
    } else {
      assert Walk(g, w[1..]) && w[1] in g[w[0]];
      Backwards(g, w[1..]);
      ReachedStep(g, [w[|w| - 1]], w[1], w[0]);
    }
  }

  lemma ReachesBack(g: Links<Id>, a: Id, b: Id)
    requires Symmetric(g) && a in g && ReachedFrom(g, [a], b)
    ensures b in g && ReachedFrom(g, [b], a)
  {
    var w :| Walk(g, w) && w[0] in [a] && w[|w| - 1] == b;
    Backwards(g, w);
  }

  lemma ReachesOn(g: Links<Id>, a: Id, b: Id, c: Id)
    requires ReachedFrom(g, [a], b) && ReachedFrom(g, [b], c)
    ensures ReachedFrom(g, [a], c)
  {
    var v :| Walk(g, v) && v[0] in [a] && v[|v| - 1] == b;
    var w :| Walk(g, w) && w[0] in [b] && w[|w| - 1] == c;
    Join(g, v, w);
    var u := v + w[1..];
    assert u[|u| - 1] == c && u[0] == a;
  }

  /** The component of `a`: everything connected to it. */
  ghost predicate IsComponent(g: Links<Id>, a: Id, component: set<Id>) {
    a in component && forall b :: b in component <==> ReachedFrom(g, [a], b)
  }

  lemma SameComponent(g: Links<Id>, a: Id, component: set<Id>, b: Id)
    requires Symmetric(g) && a in g && IsComponent(g, a, component) && b in component
    ensures b in g && IsComponent(g, b, component)
  {
    ReachesBack(g, a, b);
    forall c ensures c in component <==> ReachedFrom(g, [b], c) {
      if ReachedFrom(g, [b], c) { ReachesOn(g, a, b, c); }
      if ReachedFrom(g, [a], c) { ReachesOn(g, b, a, c); }
    }
  }

  /** Everything found earlier is closed under links, so a new root never runs into it. */
  lemma EarlierIsApart(g: Links<Id>, earlier: set<Id>, root: Id, b: Id)
    requires Symmetric(g) && Closed(g, earlier) && root in g && root !in earlier && ReachedFrom(g, [root], b)
    ensures b !in earlier && b in g
  {
    ReachesBack(g, root, b);
    if b in earlier {
      var w :| Walk(g, w) && w[0] in [b] && w[|w| - 1] == root;
      StaysInside(g, earlier, w, |w| - 1);
    }
  }

  method Listed(s: set<Id>) returns (q: seq<Id>)
    ensures forall x :: x in q <==> x in s
  {
    q := [];
    var todo := s;
    while todo != {}
      invariant todo <= s && forall x :: x in q <==> x in s - todo
      decreases |todo|
    {
      var x :| x in todo;
      q, todo := q + [x], todo - {x};
    }
  }

  /** The stack loop so far: nodes taken are visited, and nothing found earlier comes up. */
  ghost predicate Collecting(g: Links<Id>, root: Id, earlier: set<Id>, stack: seq<Id>, component: set<Id>,
                             visited: set<Id>)
  {
    && Frontier(g, [root], stack, component)
    && component !! earlier && visited == earlier + component
  }

  lemma NeighboursAreNew(g: Links<Id>, root: Id, earlier: set<Id>, current: Id, seen: set<Id>, more: seq<Id>)
    requires Symmetric(g) && Closed(g, earlier) && root in g && root !in earlier
    requires current in g && ReachedFrom(g, [root], current)
    requires forall y :: y in more <==> y in g[current] && y !in earlier && y !in seen && y != current
    ensures Expands(g, current, seen, more)
  {
    forall y | y in g[current] ensures y !in earlier {
      ReachedStep(g, [root], current, y);
      EarlierIsApart(g, earlier, root, y);
    }
  }

  lemma CollectingTakes(g: Links<Id>, root: Id, earlier: set<Id>, stack: seq<Id>, component: set<Id>,
                        visited: set<Id>, more: seq<Id>)
    requires Symmetric(g) && Closed(g, earlier) && root in g && root !in earlier
    requires Collecting(g, root, earlier, stack, component, visited) && stack != []
    requires stack[|stack| - 1] in g && stack[|stack| - 1] !in visited
    requires forall y :: y in more <==> y in g[stack[|stack| - 1]] - (visited + {stack[|stack| - 1]})
    ensures var current := stack[|stack| - 1];
      Collecting(g, root, earlier, stack[..|stack| - 1] + more, component + {current}, visited + {current})
    ensures |Universe(g, [root]) - (component + {stack[|stack| - 1]})| < |Universe(g, [root]) - component|
  {
    var current := stack[|stack| - 1];
    assert Expands(g, current, component, more) by { NeighboursAreNew(g, root, earlier, current, component, more); }
    assert visited + {current} == earlier + (component + {current});
    FrontierAdvances(g, [root], stack, component, more);
  }

  lemma CollectingSkips(g: Links<Id>, root: Id, earlier: set<Id>, stack: seq<Id>, component: set<Id>, visited: set<Id>)
    requires Symmetric(g) && Closed(g, earlier) && root in g && root !in earlier
    requires Collecting(g, root, earlier, stack, component, visited) && stack != []
    ensures stack[|stack| - 1] in g
    ensures stack[|stack| - 1] in visited ==> Collecting(g, root, earlier, stack[..|stack| - 1], component, visited)
  {
    EarlierIsApart(g, earlier, root, stack[|stack| - 1]);
    if stack[|stack| - 1] in visited { FrontierSkips(g, [root], stack, component); }
  }

  lemma CollectingDone(g: Links<Id>, root: Id, earlier: set<Id>, component: set<Id>, visited: set<Id>)
    requires Collecting(g, root, earlier, [], component, visited)
    ensures IsComponent(g, root, component)
  {
    forall b ensures b in component <==> ReachedFrom(g, [root], b) { FrontierDone(g, [root], component, b); }
    ReachedStart(g, [root], root);
  }

  /** The stack loop: the component of `root`, and nothing found earlier. */
  method CollectComponent(adjacency: Links<Id>, root: Id, earlier: set<Id>)
    returns (component: set<Id>, visited: set<Id>)
    requires Symmetric(adjacency) && Closed(adjacency, earlier) && root in adjacency && root !in earlier
    ensures visited == earlier + component && component !! earlier
    ensures IsComponent(adjacency, root, component)
  {
    component, visited := {}, earlier;
    var stack := [root];
    FrontierStarts(adjacency, stack);
    while stack != []
      invariant Collecting(adjacency, root, earlier, stack, component, visited)
      decreases |Universe(adjacency, [root]) - component|, |stack|
    {
      var current := stack[|stack| - 1];
      CollectingSkips(adjacency, root, earlier, stack, component, visited);
      if current in visited {
        stack := stack[..|stack| - 1];
        continue;
      }
      var more := Listed(adjacency[current] - (visited + {current}));
      CollectingTakes(adjacency, root, earlier, stack, component, visited, more);
      visited, component := visited + {current}, component + {current};
      stack := stack[..|stack| - 1] + more;
    }
    CollectingDone(adjacency, root, earlier, component, visited);
  }

  /** Scores of the pairs inside a component that reach the threshold. */
  function ScoresWithin(similarities: seq<Similarity>, component: set<Id>, threshold: nat): seq<nat> {
    if similarities == [] then []
    else
      var s := similarities[|similarities| - 1];
      ScoresWithin(similarities[..|similarities| - 1], component, threshold)
      + (if s.left in component && s.right in component && s.score >= threshold then [s.score] else [])
  }

  function Sum(xs: seq<nat>): nat {
    if xs == [] then 0 else Sum(xs[..|xs| - 1]) + xs[|xs| - 1]
  }

  lemma {:induction false} SumBetween(xs: seq<nat>, lo: nat, hi: nat)
    requires forall x | x in xs :: lo <= x <= hi
    ensures lo * |xs| <= Sum(xs) <= hi * |xs|
  {
    if xs != [] {
      var n := |xs| - 1;
      assert forall x | x in xs[..n] :: x in xs;
      SumBetween(xs[..n], lo, hi);
      Multiples(n, n, lo);
      Multiples(n, n, hi);
      assert xs[n] in xs;
    }
  }

  lemma {:induction false} ScoresBetween(similarities: seq<Similarity>, component: set<Id>, threshold: nat)
    requires forall s | s in similarities :: s.score <= MAX_SCORE
    ensures forall x | x in ScoresWithin(similarities, component, threshold) :: threshold <= x <= MAX_SCORE
  {
    if similarities != [] {
      var n := |similarities| - 1;
      assert similarities[n] in similarities;
      ScoresBetween(similarities[..n], component, threshold);
    }
  }

  lemma {:induction false} ScoresNotEmpty(similarities: seq<Similarity>, component: set<Id>, threshold: nat,
                                          s: Similarity)
    requires s in similarities && s.left in component && s.right in component && s.score >= threshold
    ensures ScoresWithin(similarities, component, threshold) != []
  {
    var n := |similarities| - 1;
    if s != similarities[n] {
      assert s in similarities[..n];
      ScoresNotEmpty(similarities[..n], component, threshold, s);
    }
  }

  /** What is promised of each returned cluster. */
  ghost predicate GoodCluster(g: Links<Id>, similarities: seq<Similarity>, threshold: nat, c: Cluster) {
    && |c.ids| >= 2
    && (forall a | a in c.ids :: IsComponent(g, a, c.ids))
    && c.pairScores == ScoresWithin(similarities, c.ids, threshold) != []
    && c.confidence == Round(Sum(c.pairScores), |c.pairScores|)
    && threshold <= c.confidence <= MAX_SCORE
  }

  lemma PairsAreBounded(findings: seq<Finding>)
    ensures forall s | s in Pairs(findings, |findings|) :: s.score <= MAX_SCORE
  {
    forall s | s in Pairs(findings, |findings|) ensures s.score <= MAX_SCORE {
      var i, j := FromPairs(findings, |findings|, s);
      ScoreLaws(findings[i], findings[j]);
    }
  }

  lemma ComponentHasLink(findings: seq<Finding>, threshold: nat, root: Id, component: set<Id>) returns (s: Similarity)
    requires root in Ids(findings) && |component| >= 2 && IsComponent(LinkGraph(findings, threshold), root, component)
    ensures s in Pairs(findings, |findings|) && s.left in component && s.right in component && s.score >= threshold
  {
    var g := LinkGraph(findings, threshold);
    assert |{root}| == 1;
    assert component != {root};
    var b :| b in component && b != root;
    var w :| Walk(g, w) && w[0] in [root] && w[|w| - 1] == b;
    assert w[1] in g[root];
    ReachedStart(g, [root], root);
    ReachedStep(g, [root], root, w[1]);
    LinkedInPairs(findings, threshold, root, w[1]);
    s :| s in Pairs(findings, |findings|) && Joins(s, threshold, root, w[1]);
  }

  /** A component of two or more findings makes a good cluster: it has a link, so its mean is defined. */
  lemma ComponentMakesCluster(findings: seq<Finding>, threshold: nat, root: Id, component: set<Id>)
    requires root in Ids(findings) && |component| >= 2 && IsComponent(LinkGraph(findings, threshold), root, component)
    requires threshold <= MAX_SCORE
    ensures var scores := ScoresWithin(Pairs(findings, |findings|), component, threshold);
      && scores != []
      && GoodCluster(LinkGraph(findings, threshold), Pairs(findings, |findings|), threshold,
                     Cluster(component, Round(Sum(scores), |scores|), scores))
  {
    var g, similarities := LinkGraph(findings, threshold), Pairs(findings, |findings|);
    LinkGraphIsSymmetric(findings, threshold);
    forall a | a in component ensures IsComponent(g, a, component) { SameComponent(g, root, component, a); }
    var s := ComponentHasLink(findings, threshold, root, component);
    ScoresNotEmpty(similarities, component, threshold, s);
    PairsAreBounded(findings);
    ScoresBetween(similarities, component, threshold);
    var scores := ScoresWithin(similarities, component, threshold);
    SumBetween(scores, threshold, MAX_SCORE);
    RoundStaysBetween(Sum(scores), |scores|, threshold, MAX_SCORE);
  }

  ghost predicate TogetherIn(clusters: seq<Cluster>, a: Id, b: Id) {
    exists c | c in clusters :: a in c.ids && b in c.ids
  }

  /** The outer loop so far. */
  ghost predicate Partitioned(g: Links<Id>, similarities: seq<Similarity>, threshold: nat, clusters: seq<Cluster>,
                              visited: set<Id>)
  {
    && Closed(g, visited) && visited <= g.Keys
    && (forall c | c in clusters :: GoodCluster(g, similarities, threshold, c) && c.ids <= visited)
    && (forall i, j | 0 <= i < j < |clusters| :: clusters[i].ids !! clusters[j].ids)
    && (forall a, b | a in visited && a != b && ReachedFrom(g, [a], b) :: TogetherIn(clusters, a, b))
  }

  lemma ComponentIsClosed(g: Links<Id>, root: Id, component: set<Id>)
    requires Symmetric(g) && root in g && IsComponent(g, root, component)
    ensures Closed(g, component) && component <= g.Keys
    ensures forall a | a in component :: IsComponent(g, a, component)
  {
    forall a | a in component ensures IsComponent(g, a, component) && a in g { SameComponent(g, root, component, a); }
    forall a, y | a in component && a in g && y in g[a] ensures y in component {
      ReachedStart(g, [a], a);
      ReachedStep(g, [a], a, y);
    }
  }

  lemma TogetherGrows(g: Links<Id>, clusters: seq<Cluster>, visited: set<Id>, component: set<Id>,
                      clusters': seq<Cluster>)
    requires forall a, b | a in visited && a != b && ReachedFrom(g, [a], b) :: TogetherIn(clusters, a, b)
    requires forall a | a in component :: IsComponent(g, a, component)
    requires forall c | c in clusters :: c in clusters'
    requires |component| >= 2 ==> exists c :: c in clusters' && c.ids == component
    ensures forall a, b | a in visited + component && a != b && ReachedFrom(g, [a], b) :: TogetherIn(clusters', a, b)
  {
    forall a, b | a in visited + component && a != b && ReachedFrom(g, [a], b) ensures TogetherIn(clusters', a, b) {
      if a in visited {
        var c :| c in clusters && a in c.ids && b in c.ids;
        assert c in clusters';
      } else {
        TwoElements(component, a, b);
      }
    }
  }

  lemma SingletonAdds(g: Links<Id>, similarities: seq<Similarity>, threshold: nat, clusters: seq<Cluster>,
                      visited: set<Id>, root: Id, component: set<Id>)
    requires Symmetric(g) && Partitioned(g, similarities, threshold, clusters, visited)
    requires root in g && IsComponent(g, root, component) && |component| < 2
    ensures Partitioned(g, similarities, threshold, clusters, visited + component)
  {
    ComponentIsClosed(g, root, component);
    TogetherGrows(g, clusters, visited, component, clusters);
  }

  lemma ClusterAdds(g: Links<Id>, similarities: seq<Similarity>, threshold: nat, clusters: seq<Cluster>,
                    visited: set<Id>, root: Id, c: Cluster)
    requires Symmetric(g) && Partitioned(g, similarities, threshold, clusters, visited)
    requires root in g && IsComponent(g, root, c.ids) && c.ids !! visited && GoodCluster(g, similarities, threshold, c)
    ensures Partitioned(g, similarities, threshold, clusters + [c], visited + c.ids)
  {
    var clusters' := clusters + [c];
    assert c.ids <= g.Keys && Closed(g, visited + c.ids) by { ComponentIsClosed(g, root, c.ids); }
    assert forall a, b | a in visited + c.ids && a != b && ReachedFrom(g, [a], b) :: TogetherIn(clusters', a, b) by {
      assert clusters'[|clusters|] == c;
      TogetherGrows(g, clusters, visited, c.ids, clusters');
    }
    StillDisjoint(clusters, visited, c);
    StillGood(g, similarities, threshold, clusters, visited, c);
  }

  lemma StillGood(g: Links<Id>, similarities: seq<Similarity>, threshold: nat, clusters: seq<Cluster>,
                  visited: set<Id>, c: Cluster)
    requires forall d | d in clusters :: GoodCluster(g, similarities, threshold, d) && d.ids <= visited
    requires GoodCluster(g, similarities, threshold, c)
    ensures forall d | d in clusters + [c] :: GoodCluster(g, similarities, threshold, d) && d.ids <= visited + c.ids
  {
    forall d | d in clusters + [c] ensures GoodCluster(g, similarities, threshold, d) && d.ids <= visited + c.ids {
      if d !in clusters { assert d == c; }
    }
  }

  lemma StillDisjoint(clusters: seq<Cluster>, visited: set<Id>, c: Cluster)
    requires forall i, j | 0 <= i < j < |clusters| :: clusters[i].ids !! clusters[j].ids
    requires (forall d | d in clusters :: d.ids <= visited) && c.ids !! visited
    ensures forall i, j | 0 <= i < j < |clusters + [c]| :: (clusters + [c])[i].ids !! (clusters + [c])[j].ids
  {
    forall i, j | 0 <= i < j < |clusters + [c]| ensures (clusters + [c])[i].ids !! (clusters + [c])[j].ids {
      assert clusters[i] in clusters;
    }
  }

  /**
   The clusters are exactly the connected components of two or more findings, each returned once;
   confidence lies between the threshold and 1. A threshold out of range is the ValueError.
   */
  method ClusterFindings(findings: seq<Finding>, threshold: nat)
    returns (ok: bool, clusters: seq<Cluster>, similarities: seq<Similarity>)
    ensures ok <==> 5000 <= threshold <= 10000
    ensures ok ==>
      && similarities == Pairs(findings, |findings|)
      && (forall c | c in clusters :: GoodCluster(LinkGraph(findings, threshold), similarities, threshold, c))
      && (forall i, j | 0 <= i < j < |clusters| :: clusters[i].ids !! clusters[j].ids)
      && (forall a, b | a in Ids(findings) && a != b && Connected(findings, threshold, a, b) ::
            TogetherIn(clusters, a, b))
    ensures ok && threshold <= 8500 ==>
      forall f, h | f in findings && h in findings && f.id != h.id && Duplicates(f, h) ::
        TogetherIn(clusters, f.id, h.id)
  {
    if !(5000 <= threshold <= MAX_SCORE) {
      return false, [], [];
    }
    ok, clusters := true, [];
    var adjacency;
    adjacency, similarities := BuildAdjacency(findings, threshold);
    LinkGraphIsSymmetric(findings, threshold);
    var visited := {};
    for i := 0 to |findings|
      invariant Partitioned(adjacency, similarities, threshold, clusters, visited)
      invariant Visited(findings, i, visited)
    {
      var root := findings[i].id;
      VisitedGrows(findings, i, visited);
      if root in visited {
        continue;
      }
      var component, visited' := CollectComponent(adjacency, root, visited);
      if |component| < 2 {
        SingletonAdds(adjacency, similarities, threshold, clusters, visited, root, component);
      } else {
        ComponentMakesCluster(findings, threshold, root, component);
        var pairScores := ScoresWithin(similarities, component, threshold);
        var cluster := Cluster(component, Round(Sum(pairScores), |pairScores|), pairScores);
        ClusterAdds(adjacency, similarities, threshold, clusters, visited, root, cluster);
        clusters := clusters + [cluster];
      }
      visited := visited';
    }
    forall f, h | threshold <= 8500 && f in findings && h in findings && f.id != h.id && Duplicates(f, h)
      ensures TogetherIn(clusters, f.id, h.id)
    {
      DuplicatesAreConnected(findings, threshold, f, h);
      assert Partitioned(adjacency, similarities, threshold, clusters, visited);
    }
  }

  ghost predicate Visited(findings: seq<Finding>, n: nat, visited: set<Id>)
    requires n <= |findings|
  {
    forall k | 0 <= k < n :: findings[k].id in visited
  }

  lemma VisitedGrows(findings: seq<Finding>, i: nat, visited: set<Id>)
    requires i < |findings| && Visited(findings, i, visited)
    ensures findings[i].id in Ids(findings)
    ensures findings[i].id in visited ==> Visited(findings, i + 1, visited)
    ensures forall more | findings[i].id in more :: Visited(findings, i + 1, visited + more)
  {
    assert findings[i] in findings;
  }

  // ---------------------------------------------------------------- clusters and assets

  ghost predicate OneAsset(findings: seq<Finding>, a: Id) {
    forall f, h | f in findings && h in findings && f.id == a && h.id == a :: f.asset == h.asset
  }

  lemma LinkedShareAsset(findings: seq<Finding>, threshold: nat, a: Id, b: Id) returns (f: Finding, h: Finding)
    requires threshold >= 5000 && Linked(findings, threshold, a, b)
    ensures f in findings && h in findings && f.id == a && h.id == b && f.asset == h.asset
  {
    var i, j :| 0 <= i < j < |findings| && Joins(Score(findings[i], findings[j]), threshold, a, b);
    ScoreLaws(findings[i], findings[j]);
    f, h := if findings[i].id == a && findings[j].id == b then findings[i] else findings[j],
            if findings[i].id == a && findings[j].id == b then findings[j] else findings[i];
  }

  ghost predicate LinkChain(findings: seq<Finding>, threshold: nat, w: seq<Id>) {
    && |w| > 0
    && (forall i | 0 <= i < |w| - 1 :: Linked(findings, threshold, w[i], w[i + 1]))
    && (forall i | 0 <= i < |w| :: OneAsset(findings, w[i]))
  }

  lemma {:induction false} ChainKeepsAsset(findings: seq<Finding>, threshold: nat, w: seq<Id>, f: Finding, h: Finding)
    requires threshold >= 5000 && LinkChain(findings, threshold, w)
    requires f in findings && h in findings && f.id == w[0] && h.id == w[|w| - 1]
    ensures f.asset == h.asset
  {
    assert OneAsset(findings, w[0]);
    if |w| > 1 {
      var first, second := LinkedShareAsset(findings, threshold, w[0], w[1]);
      ChainKeepsAsset(findings, threshold, w[1..], second, h);
    }
  }

  lemma WalkStaysIn(g: Links<Id>, a: Id, ids: set<Id>, w: seq<Id>)
    requires IsComponent(g, a, ids) && Walk(g, w) && |w| > 0 && w[0] in [a]
    ensures forall x | x in w :: x in ids
  {
    forall x | x in w ensures x in ids {
      var k :| 0 <= k < |w| && w[k] == x;
      assert Walk(g, w[..k + 1]) && w[..k + 1][k] == x;
    }
  }

  lemma ComponentSharesAsset(findings: seq<Finding>, threshold: nat, ids: set<Id>, f: Finding, h: Finding)
    requires threshold >= 5000 && IsComponent(LinkGraph(findings, threshold), f.id, ids)
    requires f in findings && h in findings && h.id in ids && forall a | a in ids :: OneAsset(findings, a)
    ensures f.asset == h.asset
  {
    var g := LinkGraph(findings, threshold);
    var w :| Walk(g, w) && w[0] in [f.id] && w[|w| - 1] == h.id;
    WalkStaysIn(g, f.id, ids, w);
    ChainKeepsAsset(findings, threshold, w, f, h);
  }

  /** A cluster lies within one canonical asset exactly if none of its ids is used for two assets. */
  lemma ClustersStayWithinAsset(findings: seq<Finding>, threshold: nat, ids: set<Id>)
    requires threshold >= 5000 && forall a | a in ids :: IsComponent(LinkGraph(findings, threshold), a, ids)
    ensures (forall f, h | f in findings && h in findings && f.id in ids && h.id in ids :: f.asset == h.asset)
       <==> forall a | a in ids :: OneAsset(findings, a)
  {
    if forall a | a in ids :: OneAsset(findings, a) {
      forall f, h | f in findings && h in findings && f.id in ids && h.id in ids ensures f.asset == h.asset {
        ComponentSharesAsset(findings, threshold, ids, f, h);
      }
    }
  }
}
