/** Operational incidents, one at a time per domain, in a bounded history (domain_incident_lifecycle.py). */
module Incidents {
  import opened Wrappers

  datatype Domain = Workload | ControlPlane | Observability

  const DOMAINS: seq<Domain> := [Workload, ControlPlane, Observability]
  const MAX_HISTORY := 1000

  datatype Status = Opened | Acknowledged | Resolved

  datatype Item = Item(
    domain: Domain,
    fingerprint: string,
    dedupeKey: string,
    severity: string,
    status: Status,
    openedAt: string,
    lastSeenAt: string,
    resolvedAt: Option<string>)

  /** What a snapshot reports for a domain. */
  datatype Incident = Incident(fingerprint: string, dedupeKey: string, severity: string)

  type Incoming = Domain -> Option<Incident>

  predicate IsActive(item: Item, d: Domain) {
    item.domain == d && item.status != Resolved
  }

  /** Index of the last unresolved item of a domain, or -1. */
  function LastActive(items: seq<Item>, d: Domain): (r: int)
    ensures -1 <= r < |items|
    ensures r >= 0 ==> IsActive(items[r], d)
    ensures forall j | r < j < |items| :: !IsActive(items[j], d)
  {
    if items == [] then -1
    else if IsActive(items[|items| - 1], d) then |items| - 1
    else LastActive(items[..|items| - 1], d)
  }

  function Recent(history: seq<Item>): seq<Item> {
    if |history| <= MAX_HISTORY then history else history[|history| - MAX_HISTORY..]
  }

  function Close(item: Item, now: string): Item {
    item.(status := Resolved, resolvedAt := Some(now))
  }

  function Open(d: Domain, incident: Incident, now: string): Item {
    Item(d, incident.fingerprint, incident.dedupeKey, incident.severity, Opened, now, now, None)
  }

  predicate Continues(items: seq<Item>, d: Domain, incident: Incident) {
    var i := LastActive(items, d);
    i >= 0 && items[i].fingerprint == incident.fingerprint
  }

  /** One domain's transition. */
  function DomainStep(items: seq<Item>, d: Domain, incident: Option<Incident>, now: string): seq<Item> {
    var i := LastActive(items, d);
    var closed := if i >= 0 then items[i := Close(items[i], now)] else items;
    match incident
    case None => closed
    case Some(x) =>
      if Continues(items, d, x) then items[i := items[i].(severity := x.severity, lastSeenAt := now)]
      else closed + [Open(d, x, now)]
  }

  function StepUpTo(items: seq<Item>, incoming: Incoming, now: string, n: nat): seq<Item>
    requires n <= |DOMAINS|
  {
    if n == 0 then items
    else DomainStep(StepUpTo(items, incoming, now, n - 1), DOMAINS[n - 1], incoming(DOMAINS[n - 1]), now)
  }

  /** The items after all three transitions, before the history is cut. */
  function Full(history: seq<Item>, incoming: Incoming, now: string): seq<Item> {
    StepUpTo(Recent(history), incoming, now, |DOMAINS|)
  }

  function Applied(history: seq<Item>, incoming: Incoming, now: string): seq<Item> {
    Recent(Full(history, incoming, now))
  }

  method ApplyDomainIncidents(history: seq<Item>, incoming: Incoming, now: string) returns (items: seq<Item>)
    ensures items == Applied(history, incoming, now)
  {
    items := Recent(history);
    for n := 0 to |DOMAINS|
      invariant items == StepUpTo(Recent(history), incoming, now, n)
    {
      var d := DOMAINS[n];
      var incident := incoming(d);
      var i := |items| - 1;
      while i >= 0 && !IsActive(items[i], d)
        invariant -1 <= i < |items|
        invariant forall j | i < j < |items| :: !IsActive(items[j], d)
      {
        i := i - 1;
      }
      assert i == LastActive(items, d);
      if incident == None {
        if i >= 0 { items := items[i := Close(items[i], now)]; }
        continue;
      }
      if i >= 0 && items[i].fingerprint == incident.value.fingerprint {
        items := items[i := items[i].(severity := incident.value.severity, lastSeenAt := now)];
        continue;
      }
      if i >= 0 { items := items[i := Close(items[i], now)]; }
      items := items + [Open(d, incident.value, now)];
    }
    items := Recent(items);
  }

  function ActiveIn(items: seq<Item>, d: Domain): Option<Item> {
    var i := LastActive(items, d);
    if i >= 0 then Some(items[i]) else None
  }

  lemma DomainListed(d: Domain)
    ensures d in DOMAINS
  {
    assert DOMAINS[0] == Workload && DOMAINS[1] == ControlPlane && DOMAINS[2] == Observability;
  }

  /** `active_incidents_by_domain`: the last unresolved item of each domain in the recent history. */
  method ActiveIncidentsByDomain(history: seq<Item>) returns (result: map<Domain, Option<Item>>)
    ensures forall d :: d in result && result[d] == ActiveIn(Recent(history), d)
  {
    var recent := Recent(history);
    result := map[];
    for n := 0 to |DOMAINS|
      invariant forall k | 0 <= k < n :: DOMAINS[k] in result && result[DOMAINS[k]] == ActiveIn(recent, DOMAINS[k])
    {
      var d := DOMAINS[n];
      var i := |recent| - 1;
      while i >= 0 && !IsActive(recent[i], d)
        invariant -1 <= i < |recent|
        invariant forall j | i < j < |recent| :: !IsActive(recent[j], d)
      {
        i := i - 1;
      }
      assert i == LastActive(recent, d);
      result := result[d := if i >= 0 then Some(recent[i]) else None];
    }
    forall d ensures d in result && result[d] == ActiveIn(recent, d) { DomainListed(d); }
  }

  // ---------------------------------------------------------------- one transition

  ghost predicate OneActive(items: seq<Item>) {
    forall i, j | 0 <= i < j < |items| :: items[i].domain == items[j].domain ==>
      items[i].status == Resolved || items[j].status == Resolved
  }

  /** Resolved items and items of other domains stay as they are. */
  ghost predicate Preserves(before: seq<Item>, after: seq<Item>) {
    |before| <= |after| && forall i | 0 <= i < |before| && before[i].status == Resolved :: after[i] == before[i]
  }

  lemma StepKeepsOneActive(items: seq<Item>, d: Domain, incident: Option<Incident>, now: string)
    requires OneActive(items)
    ensures OneActive(DomainStep(items, d, incident, now))
    ensures Preserves(items, DomainStep(items, d, incident, now))
    ensures |DomainStep(items, d, incident, now)| == |items| + Adds(items, d, incident)
  {
  }

  function Adds(items: seq<Item>, d: Domain, incident: Option<Incident>): nat {
    if incident.Some? && !Continues(items, d, incident.value) then 1 else 0
  }

  lemma OnlyActive(items: seq<Item>, d: Domain, i: nat)
    requires OneActive(items) && i < |items| && IsActive(items[i], d)
    ensures LastActive(items, d) == i
  {
  }

  /** Where the active item of the domain is after its transition. */
  lemma StepActive(items: seq<Item>, d: Domain, incident: Option<Incident>, now: string)
    requires OneActive(items)
    ensures var after := DomainStep(items, d, incident, now); var i := LastActive(after, d);
      match incident
      case None => i == -1
      case Some(x) =>
        && i >= 0 && after[i].fingerprint == x.fingerprint
        && after[i].severity == x.severity && after[i].lastSeenAt == now
        && i == (if Continues(items, d, x) then LastActive(items, d) else |items|)
  {
    StepKeepsOneActive(items, d, incident, now);
    var after := DomainStep(items, d, incident, now);
    if incident.Some? {
      OnlyActive(after, d, if Continues(items, d, incident.value) then LastActive(items, d) else |items|);
    } else if LastActive(after, d) >= 0 {
      OnlyActive(items, d, LastActive(after, d));
    }
  }

  lemma SameLastActive(a: seq<Item>, b: seq<Item>, d: Domain)
    requires |a| <= |b| && forall k | 0 <= k < |a| :: IsActive(b[k], d) <==> IsActive(a[k], d)
    requires forall k | |a| <= k < |b| :: !IsActive(b[k], d)
    ensures LastActive(b, d) == LastActive(a, d)
  {
  }

  /** A transition of another domain does not touch this one. */
  lemma StepElsewhere(items: seq<Item>, d: Domain, e: Domain, incident: Option<Incident>, now: string)
    requires d != e
    ensures var after := DomainStep(items, e, incident, now); var i := LastActive(items, d);
      LastActive(after, d) == i && (i >= 0 ==> after[i] == items[i])
  {
    var after, i := DomainStep(items, e, incident, now), LastActive(items, e);
    assert |items| <= |after|;
    assert forall k | 0 <= k < |items| :: after[k] == items[k] || (k == i && after[k].domain == e == items[k].domain);
    SameLastActive(items, after, d);
  }

  // ---------------------------------------------------------------- one snapshot

  function Added(items: seq<Item>, incoming: Incoming): nat {
    Adds(items, Workload, incoming(Workload)) + Adds(items, ControlPlane, incoming(ControlPlane))
    + Adds(items, Observability, incoming(Observability))
  }

  /** The three transitions in a row, each seeing its own domain as the snapshot found it. */
  lemma FullSteps(items: seq<Item>, incoming: Incoming, now: string) returns (a: seq<Item>, b: seq<Item>, c: seq<Item>)
    requires OneActive(items)
    ensures a == DomainStep(items, Workload, incoming(Workload), now)
    ensures b == DomainStep(a, ControlPlane, incoming(ControlPlane), now)
    ensures c == DomainStep(b, Observability, incoming(Observability), now) == StepUpTo(items, incoming, now, |DOMAINS|)
    ensures OneActive(a) && OneActive(b) && OneActive(c) && Preserves(items, c)
    ensures |c| == |items| + Added(items, incoming)
  {
    a := StepUpTo(items, incoming, now, 1);
    b := StepUpTo(items, incoming, now, 2);
    c := StepUpTo(items, incoming, now, 3);
    assert a == DomainStep(StepUpTo(items, incoming, now, 0), DOMAINS[0], incoming(DOMAINS[0]), now);
    StepKeepsOneActive(items, Workload, incoming(Workload), now);
    StepKeepsOneActive(a, ControlPlane, incoming(ControlPlane), now);
    StepKeepsOneActive(b, Observability, incoming(Observability), now);
    StepElsewhere(items, ControlPlane, Workload, incoming(Workload), now);
    StepElsewhere(items, Observability, Workload, incoming(Workload), now);
    StepElsewhere(a, Observability, ControlPlane, incoming(ControlPlane), now);
  }

  /** Index of a domain's active item after a snapshot, before the history is cut; -1 if it has none. */
  function NewActive(items: seq<Item>, d: Domain, incident: Option<Incident>, at: int): int {
    match incident
    case None => -1
    case Some(x) => if Continues(items, d, x) then LastActive(items, d) else at
  }

  ghost predicate Reports(item: Item, x: Incident, now: string) {
    item.fingerprint == x.fingerprint && item.severity == x.severity && item.lastSeenAt == now
  }

  /** After a snapshot a domain has an active item exactly when the snapshot reports one, and it carries the report. */
  lemma FullActive(items: seq<Item>, incoming: Incoming, now: string, d: Domain) returns (at: nat)
    requires OneActive(items)
    ensures var full := StepUpTo(items, incoming, now, |DOMAINS|); var i := LastActive(full, d);
      && |items| <= at <= |items| + 2
      && i == NewActive(items, d, incoming(d), at)
      && (incoming(d).Some? ==> i >= 0 && Reports(full[i], incoming(d).value, now))
  {
    var a, b, c := FullSteps(items, incoming, now);
    match d
    case Workload =>
      at := |items|;
      StepActive(items, d, incoming(d), now);
      StepElsewhere(a, d, ControlPlane, incoming(ControlPlane), now);
      StepElsewhere(b, d, Observability, incoming(Observability), now);
    case ControlPlane =>
      at := |a|;
      StepElsewhere(items, d, Workload, incoming(Workload), now);
      StepKeepsOneActive(items, Workload, incoming(Workload), now);
      StepActive(a, d, incoming(d), now);
      StepElsewhere(b, d, Observability, incoming(Observability), now);
    case Observability =>
      at := |b|;
      StepElsewhere(items, d, Workload, incoming(Workload), now);
      StepElsewhere(a, d, ControlPlane, incoming(ControlPlane), now);
      StepKeepsOneActive(items, Workload, incoming(Workload), now);
      StepKeepsOneActive(a, ControlPlane, incoming(ControlPlane), now);
      StepActive(b, d, incoming(d), now);
  }

  /** How many items the bound cuts off. */
  function Cut(items: seq<Item>): nat {
    if |items| <= MAX_HISTORY then 0 else |items| - MAX_HISTORY
  }

  /** How many items a snapshot drops from the front of the history. */
  function Dropped(history: seq<Item>, incoming: Incoming, now: string): nat {
    Cut(history) + Cut(Full(history, incoming, now))
  }

  /** But for the first `drop` items, every resolved item is still there, moved to the front by `drop`. */
  ghost predicate Keeps(before: seq<Item>, after: seq<Item>, drop: nat) {
    && |before| <= |after| + drop
    && forall i | drop <= i < |before| && before[i].status == Resolved :: after[i - drop] == before[i]
  }

  lemma KeepsChain(a: seq<Item>, b: seq<Item>, c: seq<Item>, first: nat, second: nat)
    requires Keeps(a, b, first) && Keeps(b, c, second)
    ensures Keeps(a, c, first + second)
  {
    forall i | first + second <= i < |a| && a[i].status == Resolved ensures c[i - (first + second)] == a[i] {
      assert b[i - first] == a[i];
      assert c[i - first - second] == b[i - first];
    }
  }

  lemma SuffixKeeps(items: seq<Item>, cut: nat)
    requires cut <= |items|
    ensures Keeps(items, items[cut..], cut)
  {
    forall i | cut <= i < |items| ensures items[cut..][i - cut] == items[i] {}
  }

  lemma SuffixKeepsOneActive(items: seq<Item>, cut: nat)
    requires cut <= |items| && OneActive(items)
    ensures OneActive(items[cut..])
  {
    var suffix := items[cut..];
    forall i, j | 0 <= i < j < |suffix| && suffix[i].domain == suffix[j].domain
      ensures suffix[i].status == Resolved || suffix[j].status == Resolved
    {
      assert items[i + cut].domain == items[j + cut].domain;
    }
  }

  lemma RecentKeeps(items: seq<Item>)
    requires OneActive(items)
    ensures Keeps(items, Recent(items), Cut(items)) && OneActive(Recent(items)) && |Recent(items)| <= MAX_HISTORY
  {
    assert Recent(items) == items[Cut(items)..];
    SuffixKeeps(items, Cut(items));
    SuffixKeepsOneActive(items, Cut(items));
  }

  lemma FullKeeps(history: seq<Item>, incoming: Incoming, now: string)
    requires OneActive(history)
    ensures var full := Full(history, incoming, now);
      OneActive(full) && Keeps(history, full, Cut(history)) && |full| <= |Recent(history)| + 3
  {
    RecentKeeps(history);
    var a, b, full := FullSteps(Recent(history), incoming, now);
    assert Keeps(Recent(history), full, 0);
    KeepsChain(history, Recent(history), full, Cut(history), 0);
  }

  lemma CutKeeps(history: seq<Item>, full: seq<Item>)
    requires OneActive(full) && Keeps(history, full, Cut(history)) && |full| <= |Recent(history)| + 3
    ensures OneActive(Recent(full)) && |Recent(full)| <= MAX_HISTORY
    ensures Keeps(history, Recent(full), Cut(history) + Cut(full))
    ensures |history| + 3 <= MAX_HISTORY ==> Cut(history) + Cut(full) == 0
  {
    RecentKeeps(full);
    KeepsChain(history, full, Recent(full), Cut(history), Cut(full));
  }

  /** The history stays bounded, with one unresolved item per domain at most, and resolved items move to the front. */
  lemma SnapshotKeeps(history: seq<Item>, incoming: Incoming, now: string)
    requires OneActive(history)
    ensures var r, drop := Applied(history, incoming, now), Dropped(history, incoming, now);
      && OneActive(r) && |r| <= MAX_HISTORY
      && Keeps(history, r, drop)
      && (|history| + 3 <= MAX_HISTORY ==> drop == 0)
  {
    var full := Full(history, incoming, now);
    FullKeeps(history, incoming, now);
    CutKeeps(history, full);
  }

  lemma RecentLastActive(items: seq<Item>, d: Domain)
    ensures var i := LastActive(items, d);
      ActiveIn(Recent(items), d) == if i >= Cut(items) then Some(items[i]) else None
  {
    var i, cut := LastActive(items, d), Cut(items);
  }

  /**
   After a snapshot a domain is active exactly when the snapshot reports an incident for it and a continued
   incident is not the one the bounded history has just dropped; the active item then carries the report.
   */
  lemma ActiveExactly(history: seq<Item>, incoming: Incoming, now: string, d: Domain)
    requires OneActive(history)
    ensures var recent := Recent(history);
      var overflow := |recent| + Added(recent, incoming) - MAX_HISTORY;
      var active := ActiveIn(Applied(history, incoming, now), d);
      && (active.Some? <==>
            && incoming(d).Some?
            && (Continues(recent, d, incoming(d).value) ==> LastActive(recent, d) >= overflow))
      && (active.Some? ==> Reports(active.value, incoming(d).value, now))
      && (|history| <= MAX_HISTORY - 3 ==> (active.Some? <==> incoming(d).Some?))
  {
    var recent, full := Recent(history), Full(history, incoming, now);
    RecentKeeps(history);
    var at := FullActive(recent, incoming, now, d);
    var a, b, c := FullSteps(recent, incoming, now);
    RecentLastActive(full, d);
    assert |recent| <= MAX_HISTORY && Added(recent, incoming) <= 3;
    if incoming(d).Some? && !Continues(recent, d, incoming(d).value) { NewSurvives(full, LastActive(full, d)); }
  }

  lemma NewSurvives(full: seq<Item>, i: int)
    requires 0 <= i < |full| <= MAX_HISTORY + 3 && i >= |full| - 3
    ensures i >= |full| - |Recent(full)|
  {
  }

  // ---------------------------------------------------------------- any number of snapshots

  datatype Snapshot = Snapshot(incoming: Incoming, now: string)

  function Run(history: seq<Item>, snapshots: seq<Snapshot>): seq<Item>
    decreases |snapshots|
  {
    if snapshots == [] then history
    else Run(Applied(history, snapshots[0].incoming, snapshots[0].now), snapshots[1..])
  }

  function RunDropped(history: seq<Item>, snapshots: seq<Snapshot>): nat
    decreases |snapshots|
  {
    if snapshots == [] then 0
    else Dropped(history, snapshots[0].incoming, snapshots[0].now)
         + RunDropped(Applied(history, snapshots[0].incoming, snapshots[0].now), snapshots[1..])
  }

  /** Over any run: one unresolved incident per domain, a bounded history, and resolved incidents never rewritten. */
  lemma {:induction false} RunKeeps(history: seq<Item>, snapshots: seq<Snapshot>)
    requires OneActive(history) && |history| <= MAX_HISTORY
    ensures var r, drop := Run(history, snapshots), RunDropped(history, snapshots);
      OneActive(r) && |r| <= MAX_HISTORY && Keeps(history, r, drop)
    decreases |snapshots|
  {
    if snapshots != [] {
      var next := Applied(history, snapshots[0].incoming, snapshots[0].now);
      SnapshotKeeps(history, snapshots[0].incoming, snapshots[0].now);
      RunKeeps(next, snapshots[1..]);
      KeepsChain(history, next, Run(next, snapshots[1..]), Dropped(history, snapshots[0].incoming, snapshots[0].now),
                 RunDropped(next, snapshots[1..]));
    }
  }
}
