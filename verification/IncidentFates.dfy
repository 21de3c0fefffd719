/** What one snapshot makes of each incident on record, field by field (domain_incident_lifecycle.py). */
module IncidentFates {
  import opened Wrappers
  import opened Incidents

  /** An unresolved item goes on when its fingerprint is reported again, and is resolved now otherwise. */
  predicate Fate(before: Item, incident: Option<Incident>, after: Item, now: string) {
    && after.domain == before.domain && after.fingerprint == before.fingerprint
    && after.dedupeKey == before.dedupeKey && after.openedAt == before.openedAt
    && if incident.Some? && incident.value.fingerprint == before.fingerprint then
         && after.status == before.status && after.resolvedAt == before.resolvedAt
         && after.severity == incident.value.severity && after.lastSeenAt == now
       else
         && after.status == Resolved && after.resolvedAt == Some(now)
         && after.severity == before.severity && after.lastSeenAt == before.lastSeenAt
  }

  /** A new item carries the report and starts now. */
  predicate IsNew(item: Item, d: Domain, incident: Incident, now: string) {
    && item.domain == d && item.fingerprint == incident.fingerprint && item.dedupeKey == incident.dedupeKey
    && item.severity == incident.severity && item.status == Opened
    && item.openedAt == now && item.lastSeenAt == now && item.resolvedAt == None
  }

  predicate Unresolved(item: Item, d: Domain) {
    item.domain == d && item.status != Resolved
  }

  /** What the items on record become in the transition of one domain. */
  ghost predicate OldMoved(items: seq<Item>, d: Domain, incident: Option<Incident>, after: seq<Item>, now: string) {
    && |items| <= |after|
    && forall k | 0 <= k < |items| ::
         if Unresolved(items[k], d) then Fate(items[k], incident, after[k], now) else after[k] == items[k]
  }

  /** What is added to them, and when. */
  ghost predicate NewAdded(items: seq<Item>, d: Domain, incident: Option<Incident>, after: seq<Item>, now: string) {
    && |items| <= |after|
    && (forall k | |items| <= k < |after| :: incident.Some? && IsNew(after[k], d, incident.value, now))
    && (|items| < |after| <==> incident.Some? && !Found(items, d, incident.value))
  }

  lemma StepMovesOld(items: seq<Item>, d: Domain, incident: Option<Incident>, now: string)
    requires OneActive(items)
    ensures OldMoved(items, d, incident, DomainStep(items, d, incident, now), now)
  {
    forall k | 0 <= k < |items| && Unresolved(items[k], d) ensures LastActive(items, d) == k {
      OnlyActive(items, d, k);
    }
  }

  lemma StepAddsNew(items: seq<Item>, d: Domain, incident: Option<Incident>, now: string)
    requires OneActive(items)
    ensures NewAdded(items, d, incident, DomainStep(items, d, incident, now), now)
  {
    if incident.Some? {
      var i := LastActive(items, d);
      if i >= 0 { assert Unresolved(items[i], d); }
      if Found(items, d, incident.value) {
        var k :| 0 <= k < |items| && Unresolved(items[k], d) && items[k].fingerprint == incident.value.fingerprint;
        OnlyActive(items, d, k);
      }
    }
  }

  /** The unresolved item a report finds, if any. */
  predicate Found(items: seq<Item>, d: Domain, incident: Incident) {
    exists k | 0 <= k < |items| :: Unresolved(items[k], d) && items[k].fingerprint == incident.fingerprint
  }

  ghost predicate OldFates(items: seq<Item>, incoming: Incoming, full: seq<Item>, now: string) {
    && |items| <= |full|
    && forall k | 0 <= k < |items| ::
         if items[k].status == Resolved then full[k] == items[k]
         else Fate(items[k], incoming(items[k].domain), full[k], now)
  }

  ghost predicate NewOnes(items: seq<Item>, incoming: Incoming, full: seq<Item>, now: string) {
    && |items| <= |full|
    && (forall k | |items| <= k < |full| ::
          var d := full[k].domain;
          incoming(d).Some? && !Found(items, d, incoming(d).value) && IsNew(full[k], d, incoming(d).value, now))
    && (forall d | incoming(d).Some? && !Found(items, d, incoming(d).value) ::
          exists k | |items| <= k < |full| :: full[k].domain == d)
  }

  /**
   One snapshot, before the history is cut: resolved items stay, every other item has its fate, and each
   report that finds no unresolved item of its fingerprint opens one.
   */
  lemma ItemFates(items: seq<Item>, incoming: Incoming, now: string)
    requires OneActive(items)
    ensures OldFates(items, incoming, StepUpTo(items, incoming, now, |DOMAINS|), now)
    ensures NewOnes(items, incoming, StepUpTo(items, incoming, now, |DOMAINS|), now)
  {
    var a, b, full := FullSteps(items, incoming, now);
    var w, c, o := incoming(Workload), incoming(ControlPlane), incoming(Observability);
    StepMovesOld(items, Workload, w, now);
    StepAddsNew(items, Workload, w, now);
    StepMovesOld(a, ControlPlane, c, now);
    StepAddsNew(a, ControlPlane, c, now);
    StepMovesOld(b, Observability, o, now);
    StepAddsNew(b, Observability, o, now);
    OldTogether(items, a, b, full, incoming, now);
    NewTogether(items, a, b, full, incoming, now);
  }

  lemma OldTogether(items: seq<Item>, a: seq<Item>, b: seq<Item>, full: seq<Item>, incoming: Incoming, now: string)
    requires OldMoved(items, Workload, incoming(Workload), a, now)
    requires OldMoved(a, ControlPlane, incoming(ControlPlane), b, now)
    requires OldMoved(b, Observability, incoming(Observability), full, now)
    ensures OldFates(items, incoming, full, now)
  {
    forall k | 0 <= k < |items|
      ensures if items[k].status == Resolved then full[k] == items[k]
              else Fate(items[k], incoming(items[k].domain), full[k], now)
    {
      assert a[k].domain == b[k].domain == items[k].domain;
    }
  }

  lemma NewTogether(items: seq<Item>, a: seq<Item>, b: seq<Item>, full: seq<Item>, incoming: Incoming, now: string)
    requires OldMoved(items, Workload, incoming(Workload), a, now)
    requires OldMoved(a, ControlPlane, incoming(ControlPlane), b, now)
    requires OldMoved(b, Observability, incoming(Observability), full, now)
    requires NewAdded(items, Workload, incoming(Workload), a, now)
    requires NewAdded(a, ControlPlane, incoming(ControlPlane), b, now)
    requires NewAdded(b, Observability, incoming(Observability), full, now)
    ensures NewOnes(items, incoming, full, now)
  {
    SameFound(items, a, ControlPlane, incoming(ControlPlane));
    SameFound(items, b, Observability, incoming(Observability));
    forall k | |items| <= k < |full|
      ensures var d := full[k].domain;
        incoming(d).Some? && !Found(items, d, incoming(d).value) && IsNew(full[k], d, incoming(d).value, now)
    {
      if k < |a| { assert full[k] == b[k] == a[k]; } else if k < |b| { assert full[k] == b[k]; }
    }
    forall d | incoming(d).Some? && !Found(items, d, incoming(d).value)
      ensures exists k | |items| <= k < |full| :: full[k].domain == d
    {
      match d
      case Workload => assert full[|items|].domain == Workload;
      case ControlPlane => assert full[|a|].domain == ControlPlane;
      case Observability => assert full[|b|].domain == Observability;
    }
  }

  /** What other domains do before leaves open what a report finds. */
  lemma SameFound(items: seq<Item>, later: seq<Item>, d: Domain, incident: Option<Incident>)
    requires |items| <= |later| && forall k | 0 <= k < |items| && items[k].domain == d :: later[k] == items[k]
    requires forall k | 0 <= k < |items| && items[k].domain != d :: later[k].domain != d
    requires forall k | |items| <= k < |later| :: later[k].domain != d
    ensures incident.Some? ==> (Found(items, d, incident.value) <==> Found(later, d, incident.value))
  {
    if incident.Some? && Found(items, d, incident.value) {
      var k :| 0 <= k < |items| && Unresolved(items[k], d) && items[k].fingerprint == incident.value.fingerprint;
      assert later[k] == items[k];
    }
  }

  /** The history holds the last thousand items, and each snapshot works on those. */
  lemma LastThousand(history: seq<Item>, incoming: Incoming, now: string)
    ensures |Applied(history, incoming, now)| <= 1000
    ensures var recent := if |history| > 1000 then history[|history| - 1000..] else history;
      var full := StepUpTo(recent, incoming, now, 3);
      Applied(history, incoming, now) == if |full| > 1000 then full[|full| - 1000..] else full
  {
  }
}
