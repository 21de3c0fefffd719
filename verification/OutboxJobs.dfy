/**
 The jobs behind the outbox: recovery (api_outbox.py) looks for a job under the kind and key by which the
 endpoint of the request enqueues it (main.py, browser.py).
 */
module OutboxJobs {
  import opened Wrappers
  import opened ApiOutbox
  import TextOrder

  /** What an endpoint hands to the queue to find a job again. */
  datatype Enqueued = Enqueued(jobKind: string, dedupeKey: string)

  /** The job of a request, as its endpoint enqueues it; the remote dispatch has a key of its own. */
  function JobFor(kind: Kind, requestId: string, platform: string): Option<Enqueued> {
    match kind
    case CampaignStart => Some(Enqueued("strix_scan", "api:start:" + requestId))
    case FindingValidation => Some(Enqueued("independent_validation", requestId))
    case ManualReport => Some(Enqueued("report", "report:" + platform + ":" + requestId))
    case CompletionReport => Some(Enqueued("report", requestId))
    case BrowserFlow => Some(Enqueued("browser_flow", "browser:" + requestId))
    case PentagiDispatch => None
  }

  /** Recovery looks where the endpoint enqueued; it knows no key only for a dispatch or a report without platform. */
  lemma RecoveryFindsTheJob(intent: Intent)
    ensures var d := Describe(intent);
      && d.kind == intent.key.kind && d.rawIdentity == intent.key.identity && d.request == intent.request
      && d.requestedAt == intent.request.Get(At)
      && (d.dedupeKey == None ==>
            d.jobKind == if intent.key.kind == PentagiDispatch then Some("pentagi_flow") else None)
      && (d.dedupeKey == None <==>
            intent.key.kind == PentagiDispatch || (intent.key.kind == ManualReport && !intent.request.Has(Platform)))
      && (d.dedupeKey.Some? ==>
            && d.jobKind.Some?
            && JobFor(intent.key.kind, intent.key.identity,
                      if intent.request.Has(Platform) then intent.request.fields[Platform] else "")
               == Some(Enqueued(d.jobKind.value, d.dedupeKey.value)))
  {
  }

  lemma AppendTells(prefix: string, a: string, b: string)
    requires prefix + a == prefix + b
    ensures a == b
  {
    assert (prefix + a)[|prefix|..] == a && (prefix + b)[|prefix|..] == b;
  }

  /** Two requests of one kind never share a job, except reports for platforms with a colon in their names. */
  lemma JobsTellRequests(kind: Kind, a: string, b: string, p: string, q: string)
    requires JobFor(kind, a, p).Some? && JobFor(kind, a, p) == JobFor(kind, b, q)
    requires kind == ManualReport ==> ':' !in p && ':' !in q
    ensures a == b && (kind == ManualReport ==> p == q)
  {
    match kind
    case CampaignStart => AppendTells("api:start:", a, b);
    case BrowserFlow => AppendTells("browser:", a, b);
    case ManualReport =>
      assert "report:" + p + ":" + a == "report:" + (p + ":" + a);
      assert "report:" + q + ":" + b == "report:" + (q + ":" + b);
      AppendTells("report:", p + ":" + a, q + ":" + b);
      TextOrder.ColonSplits(p, a, q, b);
    case _ =>
  }

  // ---------------------------------------------------------------- which events ask, and which complete

  function AskingType(kind: Kind): EventType {
    match kind
    case CampaignStart => CampaignStartRequested
    case FindingValidation => ValidationRequested
    case CompletionReport => ReportRequested
    case ManualReport => ReportRequested
    case BrowserFlow => BrowserFlowRequested
    case PentagiDispatch => PentagiDispatchRequested
  }

  function CompletingType(kind: Kind): EventType {
    match kind
    case CampaignStart => CampaignStarted
    case FindingValidation => ValidationQueued
    case CompletionReport => CampaignCompleted
    case ManualReport => ReportQueued
    case BrowserFlow => BrowserFlowQueued
    case PentagiDispatch => PentagiFlowQueued
  }

  function PurposeOf(kind: Kind): Option<string> {
    if kind == CompletionReport then Some("campaign_completion")
    else if kind == ManualReport then Some("manual") else None
  }

  /** The event carries the identity, and the purpose where reports need one. */
  predicate Names(e: Event, kind: Kind, identity: string) {
    && identity != "" && e.Get(if kind == PentagiDispatch then DispatchFingerprint else RequestId) == Some(identity)
    && (PurposeOf(kind).Some? ==> e.Get(Purpose) == PurposeOf(kind))
  }

  /** A request and a completion of one kind meet in the identity they name. */
  lemma KeysExactly(e: Event, kind: Kind, identity: string)
    ensures RequestKey(e) == Some(Key(kind, identity)) <==>
      && e.eventType == AskingType(kind) && Names(e, kind, identity)
      && (kind == FindingValidation ==> e.Has(FindingId)) && (kind == BrowserFlow ==> e.Has(FlowFingerprint))
    ensures CompletionKey(e) == Some(Key(kind, identity)) <==>
      e.eventType == CompletingType(kind) && Names(e, kind, identity)
  {
    assert "manual"[0] != "campaign_completion"[0];
    match kind
    case CampaignStart =>
    case FindingValidation =>
    case CompletionReport =>
    case ManualReport =>
    case BrowserFlow =>
    case PentagiDispatch =>
  }

  // ---------------------------------------------------------------- what a retry continues with

  /** Event `i` asks under the identity, and no event anywhere completes it. */
  predicate StillAsks(events: seq<Event>, i: nat, requested: EventType, completed: EventType,
                      identity: map<Field, string>, r: string)
    requires i < |events|
  {
    && r != "" && events[i].eventType == requested && events[i].Get(RequestId) == Some(r)
    && (forall f | f in identity :: events[i].Get(f) == Some(identity[f]))
    && forall j | 0 <= j < |events| && events[j].eventType == completed && events[j].Get(RequestId) == Some(r) ::
         exists f | f in identity :: events[j].Get(f) != Some(identity[f])
  }

  ghost predicate AsksLast(events: seq<Event>, i: nat, requested: EventType, completed: EventType,
                           identity: map<Field, string>, r: string)
    requires i < |events|
  {
    && StillAsks(events, i, requested, completed, identity, r)
    && forall j, q | i < j < |events| :: !StillAsks(events, j, requested, completed, identity, q)
  }

  /** A retry continues with the last request under its identity that is still open. */
  lemma RetryContinuesTheLast(events: seq<Event>, requested: EventType, completed: EventType,
                              identity: map<Field, string>, r: string)
    ensures PendingRequestId(events, requested, completed, identity) == Some(r) <==>
      exists i | 0 <= i < |events| :: AsksLast(events, i, requested, completed, identity, r)
  {
    var found := PendingRequestId(events, requested, completed, identity);
    if i :| 0 <= i < |events| && AsksLast(events, i, requested, completed, identity, r) {
      AsksExactly(events, i, requested, completed, identity);
      var k := FoundAsksLast(events, requested, completed, identity);
      OneAsksLast(events, requested, completed, identity, i, r, k, found.value);
    }
    if found == Some(r) { var k := FoundAsksLast(events, requested, completed, identity); }
  }

  lemma FoundAsksLast(events: seq<Event>, requested: EventType, completed: EventType, identity: map<Field, string>)
    returns (k: nat)
    requires PendingRequestId(events, requested, completed, identity).Some?
    ensures k < |events|
    ensures AsksLast(events, k, requested, completed, identity,
                     PendingRequestId(events, requested, completed, identity).value)
  {
    var found := PendingRequestId(events, requested, completed, identity);
    k :| 0 <= k < |events|
      && IsPendingRequest(events[k], events, requested, completed, identity)
      && events[k].fields[RequestId] == found.value
      && forall j | k < j < |events| :: !IsPendingRequest(events[j], events, requested, completed, identity);
    AsksExactly(events, k, requested, completed, identity);
    forall j, q | k < j < |events| ensures !StillAsks(events, j, requested, completed, identity, q) {
      AsksExactly(events, j, requested, completed, identity);
    }
  }

  lemma OneAsksLast(events: seq<Event>, requested: EventType, completed: EventType, identity: map<Field, string>,
                    i: nat, r: string, k: nat, q: string)
    requires i < |events| && k < |events|
    requires AsksLast(events, i, requested, completed, identity, r)
    requires AsksLast(events, k, requested, completed, identity, q)
    ensures i == k && r == q
  {
  }

  lemma AsksExactly(events: seq<Event>, i: nat, requested: EventType, completed: EventType,
                    identity: map<Field, string>)
    requires i < |events|
    ensures IsPendingRequest(events[i], events, requested, completed, identity) ==>
      RequestId in events[i].fields
      && StillAsks(events, i, requested, completed, identity, events[i].fields[RequestId])
    ensures forall r | StillAsks(events, i, requested, completed, identity, r) ::
      IsPendingRequest(events[i], events, requested, completed, identity) && events[i].fields[RequestId] == r
  {
  }

  // ---------------------------------------------------------------- the order of the snapshot

  function NameOf(kind: Kind): string {
    match kind
    case BrowserFlow => "browser_flow"
    case CompletionReport => "campaign_completion_report"
    case CampaignStart => "campaign_start"
    case FindingValidation => "finding_validation"
    case PentagiDispatch => "pentagi_dispatch"
    case ManualReport => "report_manual"
  }

  lemma FirstLetterDecides(a: string, b: string)
    requires a != "" && b != "" && a[0] < b[0]
    ensures TextOrder.Leq(a, b) && !TextOrder.Leq(b, a)
  {
  }

  lemma SameHead(head: string, a: string, b: string)
    ensures TextOrder.Leq(head + a, head + b) <==> TextOrder.Leq(a, b)
  {
    if head == "" {
      assert head + a == a && head + b == b;
    } else {
      assert (head + a)[1..] == head[1..] + a && (head + b)[1..] == head[1..] + b;
      SameHead(head[1..], a, b);
    }
  }

  /** Equal names apart, the kinds are ordered as their names are. */
  lemma KindsByName(a: Kind, b: Kind)
    ensures a.Rank() <= b.Rank() <==> TextOrder.Leq(NameOf(a), NameOf(b))
  {
    if a == b {
      TextOrder.Total(NameOf(a), NameOf(a));
    } else if NameOf(a)[0] < NameOf(b)[0] {
      FirstLetterDecides(NameOf(a), NameOf(b));
    } else if NameOf(b)[0] < NameOf(a)[0] {
      FirstLetterDecides(NameOf(b), NameOf(a));
    } else {
      CampaignNames();
    }
  }

  lemma CampaignNames()
    ensures TextOrder.Leq(NameOf(CompletionReport), NameOf(CampaignStart))
    ensures !TextOrder.Leq(NameOf(CampaignStart), NameOf(CompletionReport))
  {
    assert NameOf(CompletionReport) == "campaign_" + "completion_report";
    assert NameOf(CampaignStart) == "campaign_" + "start";
    SameHead("campaign_", "completion_report", "start");
    SameHead("campaign_", "start", "completion_report");
    FirstLetterDecides("completion_report", "start");
  }

  /** Items with a time come first, in its order; items of one time by the name of their kind. */
  lemma ItemsInOrder(a: Item, b: Item)
    ensures a.requestedAt.Some? && b.requestedAt == None ==> ItemLeq(a, b) && !ItemLeq(b, a)
    ensures a.requestedAt == b.requestedAt ==> (ItemLeq(a, b) <==> TextOrder.Leq(NameOf(a.kind), NameOf(b.kind)))
    ensures a.requestedAt.Some? && b.requestedAt.Some? && a.requestedAt != b.requestedAt ==>
      (ItemLeq(a, b) <==> TextOrder.Leq(a.requestedAt.value, b.requestedAt.value))
  {
    KindsByName(a.kind, b.kind);
  }
}
