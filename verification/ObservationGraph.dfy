/**
 Building an observation graph from stored records (observation_graph.py): a record is added once all
 of its parents are present, so the graph accepted in the end has no cycle and no dangling parent.
 */
module ObservationGraph {
  import opened Wrappers
  import opened Reachability
  import EvidenceChain

  type Id = EvidenceChain.Id

  datatype Observation = Observation(id: Id, kind: string, value: string, source: string, parents: seq<Id>)

  type Items = map<Id, Observation>

  predicate Ready(items: Items, o: Observation) {
    forall p | p in o.parents :: p in items
  }

  /** `add`; `None` is the ValueError. */
  function Add(items: Items, o: Observation): Option<Items> {
    if !Ready(items, o) then None
    else if o.id in items && items[o.id] != o then None
    else Some(items[o.id := o])
  }

  function Ids(records: seq<Observation>): set<Id> {
    set o | o in records :: o.id
  }

  /** One id, one content. */
  ghost predicate Consistent(records: seq<Observation>) {
    forall o, o' | o in records && o' in records && o.id == o'.id :: o == o'
  }

  /** Numbers that fall from every record to its parents, all of which are records: no cycle, nothing dangling. */
  ghost predicate Ranked(records: seq<Observation>, rank: map<Id, nat>) {
    && rank.Keys == Ids(records)
    && forall o | o in records :: forall p | p in o.parents :: p in rank && rank[p] < rank[o.id]
  }

  ghost predicate ItemsRanked(items: Items, rank: map<Id, nat>, bound: nat) {
    && rank.Keys == items.Keys
    && (forall x | x in rank :: rank[x] < bound)
    && forall x | x in items :: items[x].id == x && forall p | p in items[x].parents :: p in rank && rank[p] < rank[x]
  }

  ghost predicate Placed(records: seq<Observation>, items: Items, pending: seq<Observation>) {
    && (forall o | o in records :: o in pending || (o.id in items && items[o.id] == o))
    && (forall o | o in pending :: o in records)
    && (forall x | x in items :: items[x] in records && items[x].id == x)
  }

  lemma {:induction false} LowestPending(pending: seq<Observation>, rank: map<Id, nat>) returns (o: Observation)
    requires pending != [] && forall o | o in pending :: o.id in rank
    ensures o in pending && forall o' | o' in pending :: rank[o.id] <= rank[o'.id]
  {
    o := pending[0];
    if |pending| > 1 {
      var rest := LowestPending(pending[1..], rank);
      if rank[rest.id] < rank[o.id] { o := rest; }
    }
    assert forall o' | o' in pending :: o' == pending[0] || o' in pending[1..];
  }

  /** Records that can be ranked never get stuck: some pending one has all its parents. */
  lemma SomeRecordIsReady(records: seq<Observation>, items: Items, pending: seq<Observation>, rank: map<Id, nat>)
    requires Placed(records, items, pending) && pending != [] && Ranked(records, rank)
    ensures exists o | o in pending :: Ready(items, o)
  {
    forall o | o in pending ensures o.id in rank { assert o in records; assert o.id in Ids(records); }
    var o := LowestPending(pending, rank);
    forall p | p in o.parents ensures p in items {
      assert o in records;
      assert p in Ids(records);
      var parent :| parent in records && parent.id == p;
    }
  }

  lemma Deferred(records: seq<Observation>, items: Items, remaining: seq<Observation>, pending: seq<Observation>,
                 i: nat)
    requires i < |pending| && Placed(records, items, remaining + pending[i..])
    ensures Placed(records, items, remaining + [pending[i]] + pending[i + 1..])
  {
    assert remaining + pending[i..] == remaining + [pending[i]] + pending[i + 1..];
  }

  lemma Accepted(records: seq<Observation>, items: Items, remaining: seq<Observation>, pending: seq<Observation>,
                 i: nat)
    requires i < |pending| && Placed(records, items, remaining + pending[i..])
    requires pending[i].id in items ==> items[pending[i].id] == pending[i]
    ensures Placed(records, items[pending[i].id := pending[i]], remaining + pending[i + 1..])
  {
    assert pending[i..] == [pending[i]] + pending[i + 1..];
    assert pending[i] in remaining + pending[i..];
  }

  lemma RankGrows(items: Items, rank: map<Id, nat>, bound: nat, o: Observation, items': Items)
    returns (rank': map<Id, nat>, bound': nat)
    requires ItemsRanked(items, rank, bound) && Add(items, o) == Some(items')
    ensures ItemsRanked(items', rank', bound')
  {
    if o.id in items {
      assert items' == items;
      rank', bound' := rank, bound;
    } else {
      rank', bound' := rank[o.id := bound], bound + 1;
    }
  }

  /** One pass over the pending records; `conflict` is the ValueError of `add`. */
  method Sweep(ghost records: seq<Observation>, before: Items, pending: seq<Observation>,
               ghost rank: map<Id, nat>, ghost bound: nat)
    returns (items: Items, remaining: seq<Observation>, progressed: bool, conflict: bool,
             ghost rank': map<Id, nat>, ghost bound': nat)
    requires Placed(records, before, pending) && ItemsRanked(before, rank, bound)
    ensures conflict ==> !Consistent(records)
    ensures !conflict ==> Placed(records, items, remaining) && ItemsRanked(items, rank', bound')
    ensures !conflict && !progressed ==> forall o | o in pending :: !Ready(before, o)
    ensures |remaining| <= |pending| && (progressed ==> |remaining| < |pending|)
  {
    items, remaining, progressed, conflict, rank', bound' := before, [], false, false, rank, bound;
    assert [] + pending[0..] == pending;
    for i := 0 to |pending|
      invariant Placed(records, items, remaining + pending[i..]) && ItemsRanked(items, rank', bound')
      invariant !progressed ==> items == before && forall k | 0 <= k < i :: !Ready(before, pending[k])
      invariant |remaining| <= i && (progressed ==> |remaining| < i) && !conflict
    {
      var o := pending[i];
      if !Ready(items, o) {
        Deferred(records, items, remaining, pending, i);
        remaining := remaining + [o];
      } else {
        var added := Add(items, o);
        if added == None {
          assert o in remaining + pending[i..];
          conflict := true;
          return;
        }
        Accepted(records, items, remaining, pending, i);
        rank', bound' := RankGrows(items, rank', bound', o, added.value);
        items := added.value;
        progressed := true;
      }
    }
    assert remaining + pending[|pending|..] == remaining;
  }

  method FromRecords(records: seq<Observation>) returns (graph: Option<Items>)
    ensures graph.Some? <==> Consistent(records) && exists rank :: Ranked(records, rank)
    ensures graph.Some? ==>
      graph.value.Keys == Ids(records) && forall o | o in records :: graph.value[o.id] == o
  {
    var items: Items := map[];
    var pending := records;
    ghost var rank: map<Id, nat>, bound: nat := map[], 0;
    while pending != []
      invariant Placed(records, items, pending) && ItemsRanked(items, rank, bound)
      decreases |pending|
    {
      ghost var before := items;
      var remaining, progressed, conflict;
      items, remaining, progressed, conflict, rank, bound := Sweep(records, items, pending, rank, bound);
      if conflict {
        return None;
      }
      if !progressed {
        if r :| Ranked(records, r) {
          SomeRecordIsReady(records, before, pending, r);
        }
        return None;
      }
      pending := remaining;
    }
    AllPlaced(records, items, rank, bound);
    return Some(items);
  }

  lemma AllPlaced(records: seq<Observation>, items: Items, rank: map<Id, nat>, bound: nat)
    requires Placed(records, items, []) && ItemsRanked(items, rank, bound)
    ensures Consistent(records) && Ranked(records, rank)
    ensures items.Keys == Ids(records) && forall o | o in records :: items[o.id] == o
  {
    forall x ensures x in items <==> x in Ids(records) {
      if x in items { assert items[x] in records; }
    }
  }

  // ---------------------------------------------------------------- what the ancestry check then finds

  function ParentsOf(items: Items): EvidenceChain.Graph {
    map x | x in items :: items[x].parents
  }

  lemma {:induction false} WalksDescend(records: seq<Observation>, items: Items, rank: map<Id, nat>, w: seq<Id>)
    requires Ranked(records, rank) && items.Keys == Ids(records) && (forall o | o in records :: items[o.id] == o)
    requires Walk(EvidenceChain.ParentLinks(ParentsOf(items)), w) && |w| >= 2
    ensures w[0] in rank && w[|w| - 1] in rank && rank[w[|w| - 1]] < rank[w[0]]
  {
    var links := EvidenceChain.ParentLinks(ParentsOf(items));
    assert w[0] in items && w[1] in items[w[0]].parents;
    var o :| o in records && o.id == w[0];
    assert items[w[0]] == o;
    if |w| > 2 {
      assert Walk(links, w[1..]);
      WalksDescend(records, items, rank, w[1..]);
    }
  }

  /** A graph loaded from records never shows the two defects the ancestry check looks for. */
  method LoadAndCheck(records: seq<Observation>, observationId: Id)
    returns (graph: Option<Items>, dangling: set<Id>, cycleDetected: bool)
    ensures graph.Some? <==> Consistent(records) && exists rank :: Ranked(records, rank)
    ensures graph.Some? ==> dangling == {} && !cycleDetected
  {
    graph := FromRecords(records);
    if graph == None {
      return None, {}, false;
    }
    ghost var rank :| Ranked(records, rank);
    var ancestors: set<Id>;
    ancestors, dangling, cycleDetected := EvidenceChain.AncestryIntegrity(ParentsOf(graph.value), observationId);
    NoDefects(records, graph.value, rank, observationId);
  }

  lemma NoDefects(records: seq<Observation>, items: Items, rank: map<Id, nat>, x: Id)
    requires Ranked(records, rank) && items.Keys == Ids(records) && (forall o | o in records :: items[o.id] == o)
    ensures !EvidenceChain.CycleAhead(EvidenceChain.ParentLinks(ParentsOf(items)), x)
    ensures forall y | Follows(EvidenceChain.ParentLinks(ParentsOf(items)), x, y) :: y in items
  {
    var links := EvidenceChain.ParentLinks(ParentsOf(items));
    forall a, b | Follows(links, a, b) ensures a in rank && b in rank && rank[b] < rank[a] {
      var w :| Walk(links, w) && |w| >= 2 && w[0] == a && w[|w| - 1] == b;
      WalksDescend(records, items, rank, w);
    }
  }
}
