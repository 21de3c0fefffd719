/**
 The request/completion outbox kept in the campaign event log (api_outbox.py): which intents are
 still pending, seen by the redacted diagnostics view and by the recovery view.
 An event is a dictionary whose values are strings; a missing key reads as `None`.
 */
module ApiOutbox {
  import opened Wrappers
  import opened StableSort
  import TextOrder

  datatype EventType =
    | CampaignStartRequested | CampaignStarted
    | ValidationRequested | ValidationQueued
    | ReportRequested | ReportQueued | CampaignCompleted
    | BrowserFlowRequested | BrowserFlowQueued
    | PentagiDispatchRequested | PentagiFlowQueued
    | OtherEvent

  datatype Field = RequestId | FindingId | Purpose | FlowFingerprint | DispatchFingerprint | JobId | Platform | At

  datatype Event = Event(eventType: EventType, fields: map<Field, string>)
  {
    function Get(f: Field): Option<string> {
      if f in fields then Some(fields[f]) else None
    }

    /** A present, non-empty string. */
    predicate Has(f: Field) {
      f in fields && fields[f] != ""
    }
  }

  // ---------------------------------------------------------------- identity queries

  predicate Matches(e: Event, identity: map<Field, string>) {
    forall f | f in identity :: e.Get(f) == Some(identity[f])
  }

  predicate HasEvent(events: seq<Event>, t: EventType, identity: map<Field, string>) {
    exists i | 0 <= i < |events| :: events[i].eventType == t && Matches(events[i], identity)
  }

  /** Some completion event with this identity carries the request id. */
  predicate CompletedUnder(events: seq<Event>, completed: EventType, identity: map<Field, string>, r: string) {
    exists i | 0 <= i < |events| ::
      events[i].eventType == completed && events[i].Get(RequestId) == Some(r) && Matches(events[i], identity)
  }

  /** An event that `pending_request_id` may return. */
  predicate IsPendingRequest(e: Event, all: seq<Event>, requested: EventType, completed: EventType,
                             identity: map<Field, string>)
  {
    && e.eventType == requested
    && e.Has(RequestId)
    && !CompletedUnder(all, completed, identity, e.fields[RequestId])
    && Matches(e, identity)
  }

  /** The scan of `pending_request_id` over the events in reverse. */
  function LatestPending(events: seq<Event>, all: seq<Event>, requested: EventType, completed: EventType,
                         identity: map<Field, string>): (r: Option<string>)
    ensures r == None <==> forall i | 0 <= i < |events| ::
      !IsPendingRequest(events[i], all, requested, completed, identity)
    ensures r.Some? ==> exists i | 0 <= i < |events| ::
      && IsPendingRequest(events[i], all, requested, completed, identity)
      && events[i].fields[RequestId] == r.value
      && forall j | i < j < |events| :: !IsPendingRequest(events[j], all, requested, completed, identity)
  {
    if events == [] then None
    else
      var last := events[|events| - 1];
      if IsPendingRequest(last, all, requested, completed, identity) then Some(last.fields[RequestId])
      else LatestPending(events[..|events| - 1], all, requested, completed, identity)
  }

  function PendingRequestId(events: seq<Event>, requested: EventType, completed: EventType,
                            identity: map<Field, string>): Option<string>
  {
    LatestPending(events, events, requested, completed, identity)
  }

  // ---------------------------------------------------------------- keys

  datatype Kind = CampaignStart | FindingValidation | CompletionReport | ManualReport | BrowserFlow | PentagiDispatch
  {
    /** Position of the kind's name in alphabetical order. */
    function Rank(): nat {
      match this
      case BrowserFlow => 0
      case CompletionReport => 1
      case CampaignStart => 2
      case FindingValidation => 3
      case PentagiDispatch => 4
      case ManualReport => 5
    }
  }

  datatype Key = Key(kind: Kind, identity: string)

  function KeyFrom(e: Event, f: Field, kind: Kind): Option<Key> {
    if e.Has(f) then Some(Key(kind, e.fields[f])) else None
  }

  function RequestKey(e: Event): Option<Key> {
    match e.eventType
    case CampaignStartRequested => KeyFrom(e, RequestId, CampaignStart)
    case ValidationRequested => if e.Has(FindingId) then KeyFrom(e, RequestId, FindingValidation) else None
    case ReportRequested =>
      if e.Get(Purpose) == Some("campaign_completion") then KeyFrom(e, RequestId, CompletionReport)
      else if e.Get(Purpose) == Some("manual") then KeyFrom(e, RequestId, ManualReport)
      else None
    case BrowserFlowRequested => if e.Has(FlowFingerprint) then KeyFrom(e, RequestId, BrowserFlow) else None
    case PentagiDispatchRequested => KeyFrom(e, DispatchFingerprint, PentagiDispatch)
    case _ => None
  }

  function CompletionKey(e: Event): Option<Key> {
    match e.eventType
    case CampaignStarted => KeyFrom(e, RequestId, CampaignStart)
    case ValidationQueued => KeyFrom(e, RequestId, FindingValidation)
    case ReportQueued => if e.Get(Purpose) == Some("manual") then KeyFrom(e, RequestId, ManualReport) else None
    case CampaignCompleted =>
      if e.Get(Purpose) == Some("campaign_completion") then KeyFrom(e, RequestId, CompletionReport) else None
    case BrowserFlowQueued => KeyFrom(e, RequestId, BrowserFlow)
    case PentagiFlowQueued => KeyFrom(e, DispatchFingerprint, PentagiDispatch)
    case _ => None
  }

  predicate Requests(events: seq<Event>, k: Key) {
    exists i | 0 <= i < |events| :: RequestKey(events[i]) == Some(k)
  }

  predicate Completes(events: seq<Event>, k: Key) {
    exists i | 0 <= i < |events| :: CompletionKey(events[i]) == Some(k)
  }

  function CompletedKeys(events: seq<Event>): set<Key> {
    set i | 0 <= i < |events| && CompletionKey(events[i]).Some? :: CompletionKey(events[i]).value
  }

  // ---------------------------------------------------------------- the pending intents

  datatype Intent = Intent(key: Key, request: Event)

  /** The first requests in `events` whose key is not in `done`, in log order. */
  function PendingAmong(events: seq<Event>, done: set<Key>): seq<Intent> {
    if events == [] then []
    else
      var before, last := events[..|events| - 1], events[|events| - 1];
      PendingAmong(before, done) + NewIntent(before, last, done)
  }

  function NewIntent(before: seq<Event>, e: Event, done: set<Key>): seq<Intent> {
    match RequestKey(e)
    case None => []
    case Some(k) => if k in done || Requests(before, k) then [] else [Intent(k, e)]
  }

  function Pending(events: seq<Event>): seq<Intent> {
    PendingAmong(events, CompletedKeys(events))
  }

  lemma RequestsSplit(before: seq<Event>, e: Event, k: Key)
    ensures Requests(before + [e], k) <==> Requests(before, k) || RequestKey(e) == Some(k)
    ensures Completes(before + [e], k) <==> Completes(before, k) || CompletionKey(e) == Some(k)
  {
    var all := before + [e];
    assert all[|before|] == e;
    if Requests(before, k) {
      var i :| 0 <= i < |before| && RequestKey(before[i]) == Some(k);
      assert all[i] == before[i];
    }
    if Completes(before, k) {
      var i :| 0 <= i < |before| && CompletionKey(before[i]) == Some(k);
      assert all[i] == before[i];
    }
  }

  ghost predicate FirstRequest(events: seq<Event>, intent: Intent) {
    exists i | 0 <= i < |events| ::
      && events[i] == intent.request
      && RequestKey(events[i]) == Some(intent.key)
      && forall j | 0 <= j < i :: RequestKey(events[j]) != Some(intent.key)
  }

  ghost predicate Lists(intents: seq<Intent>, k: Key) {
    exists i | 0 <= i < |intents| :: intents[i].key == k
  }

  ghost predicate DistinctKeys(intents: seq<Intent>) {
    forall i, j | 0 <= i < j < |intents| :: intents[i].key != intents[j].key
  }

  lemma ListsSplit(a: seq<Intent>, b: seq<Intent>, k: Key)
    ensures Lists(a + b, k) <==> Lists(a, k) || Lists(b, k)
  {
    if Lists(a, k) {
      var i :| 0 <= i < |a| && a[i].key == k;
      assert (a + b)[i].key == k;
    }
    if Lists(b, k) {
      var i :| 0 <= i < |b| && b[i].key == k;
      assert (a + b)[|a| + i].key == k;
    }
  }

  /** One intent per key, namely the first request of every key that is requested and not done. */
  lemma {:induction false} PendingExactly(events: seq<Event>, done: set<Key>)
    ensures DistinctKeys(PendingAmong(events, done))
    ensures forall k :: Lists(PendingAmong(events, done), k) <==> Requests(events, k) && k !in done
    ensures forall intent | intent in PendingAmong(events, done) :: FirstRequest(events, intent)
  {
    if events != [] {
      var before, last := events[..|events| - 1], events[|events| - 1];
      var old_, fresh_ := PendingAmong(before, done), NewIntent(before, last, done);
      assert events == before + [last];
      PendingExactly(before, done);
      forall k ensures Lists(old_ + fresh_, k) <==> Requests(events, k) && k !in done {
        RequestsSplit(before, last, k);
        ListsSplit(old_, fresh_, k);
        if RequestKey(last) == Some(k) && k !in done && !Requests(before, k) {
          assert fresh_[0].key == k;
        }
      }
      forall intent | intent in old_ + fresh_ ensures FirstRequest(events, intent) {
        if intent in old_ {
          assert FirstRequest(before, intent);
          FirstRequestSurvives(before, last, intent);
        } else {
          assert events[|before|] == intent.request;
        }
      }
      if fresh_ != [] {
        assert !Lists(old_, fresh_[0].key);
      }
    }
  }

  lemma FirstRequestSurvives(before: seq<Event>, e: Event, intent: Intent)
    requires FirstRequest(before, intent)
    ensures FirstRequest(before + [e], intent)
  {
    var i :| && 0 <= i < |before| && before[i] == intent.request && RequestKey(before[i]) == Some(intent.key)
             && forall j | 0 <= j < i :: RequestKey(before[j]) != Some(intent.key);
    assert (before + [e])[i] == intent.request;
  }

  lemma CompletedKeysExactly(events: seq<Event>, k: Key)
    ensures k in CompletedKeys(events) <==> Completes(events, k)
  {
  }

  // ---------------------------------------------------------------- how the log drives the outbox

  function Without(intents: seq<Intent>, k: Key): seq<Intent> {
    if intents == [] then []
    else
      var n := |intents| - 1;
      Without(intents[..n], k) + (if intents[n].key == k then [] else [intents[n]])
  }

  lemma {:induction false} WithoutSplits(a: seq<Intent>, b: seq<Intent>, k: Key)
    ensures Without(a + b, k) == Without(a, k) + Without(b, k)
    decreases |b|
  {
    if b == [] {
      assert a + b == a;
    } else {
      var n := |b| - 1;
      assert (a + b)[..|a + b| - 1] == a + b[..n];
      WithoutSplits(a, b[..n], k);
    }
  }

  lemma {:induction false} DoneDropsIntent(events: seq<Event>, done: set<Key>, k: Key)
    ensures PendingAmong(events, done + {k}) == Without(PendingAmong(events, done), k)
  {
    if events != [] {
      var before, last := events[..|events| - 1], events[|events| - 1];
      DoneDropsIntent(before, done, k);
      WithoutSplits(PendingAmong(before, done), NewIntent(before, last, done), k);
    }
  }

  /** A completion removes the one intent it names, whether it comes before or after other requests. */
  lemma CompletionClears(events: seq<Event>, e: Event, k: Key)
    requires CompletionKey(e) == Some(k)
    ensures Pending(events + [e]) == Without(Pending(events), k)
  {
    CompletedKeysAppend(events, e);
    DoneDropsIntent(events, CompletedKeys(events), k);
    assert (events + [e])[..|events|] == events;
    assert RequestKey(e) == None;
  }

  /** A request adds one intent, unless its key was requested or completed before. */
  lemma RequestAdds(events: seq<Event>, e: Event, k: Key)
    requires RequestKey(e) == Some(k)
    ensures Requests(events, k) || Completes(events, k) ==> Pending(events + [e]) == Pending(events)
    ensures !Requests(events, k) && !Completes(events, k) ==> Pending(events + [e]) == Pending(events) + [Intent(k, e)]
  {
    CompletedKeysAppend(events, e);
    CompletedKeysExactly(events, k);
    assert (events + [e])[..|events|] == events;
  }

  lemma OtherEventChangesNothing(events: seq<Event>, e: Event)
    requires RequestKey(e) == None && CompletionKey(e) == None
    ensures Pending(events + [e]) == Pending(events)
  {
    CompletedKeysAppend(events, e);
    assert (events + [e])[..|events|] == events;
  }

  lemma CompletedKeysAppend(events: seq<Event>, e: Event)
    ensures CompletionKey(e) == None ==> CompletedKeys(events + [e]) == CompletedKeys(events)
    ensures CompletionKey(e).Some? ==> CompletedKeys(events + [e]) == CompletedKeys(events) + {CompletionKey(e).value}
  {
    forall k ensures k in CompletedKeys(events + [e]) <==> k in CompletedKeys(events) || CompletionKey(e) == Some(k) {
      RequestsSplit(events, e, k);
      CompletedKeysExactly(events, k);
      CompletedKeysExactly(events + [e], k);
    }
  }

  // ---------------------------------------------------------------- the recovery view

  datatype Descriptor = Descriptor(
    kind: Kind,
    rawIdentity: string,
    requestedAt: Option<string>,
    request: Event,
    jobKind: Option<string>,
    dedupeKey: Option<string>,
    completionType: Option<EventType>)

  function Describe(intent: Intent): Descriptor {
    var Intent(Key(kind, identity), request) := intent;
    var blank := Descriptor(kind, identity, request.Get(At), request, None, None, None);
    match kind
    case CampaignStart =>
      blank.(jobKind := Some("strix_scan"), dedupeKey := Some("api:start:" + identity),
            completionType := Some(CampaignStarted))
    case FindingValidation =>
      blank.(jobKind := Some("independent_validation"), dedupeKey := Some(identity),
            completionType := Some(ValidationQueued))
    case ManualReport =>
      if request.Has(Platform) then
        blank.(jobKind := Some("report"), dedupeKey := Some("report:" + request.fields[Platform] + ":" + identity),
               completionType := Some(ReportQueued))
      else blank
    case CompletionReport =>
      blank.(jobKind := Some("report"), dedupeKey := Some(identity), completionType := Some(CampaignCompleted))
    case BrowserFlow =>
      blank.(jobKind := Some("browser_flow"), dedupeKey := Some("browser:" + identity),
            completionType := Some(BrowserFlowQueued))
    case PentagiDispatch =>
      blank.(jobKind := Some("pentagi_flow"), completionType := Some(PentagiFlowQueued))
  }

  /** The outcome of building a completion; `MissingField` is the `KeyError` of `request["platform"]`. */
  datatype Repair = Repaired(event: Event) | NotRepairable | MissingField

  /** `local_completion_event` (outbox_recovery.py) once the job of the intent was found. */
  function LocalCompletion(d: Descriptor, job: string, now: string): Repair {
    if d.completionType == None then NotRepairable
    else
      var base := map[JobId := job, At := now];
      var t := d.completionType.value;
      match d.kind
      case CampaignStart => CopyFields(d.request, t, base, {RequestId})
      case FindingValidation => CopyFields(d.request, t, base, {RequestId, FindingId})
      case ManualReport => CopyFields(d.request, t, base, {RequestId, Platform, Purpose})
      case CompletionReport => CopyFields(d.request, t, base, {RequestId, Platform, Purpose})
      case BrowserFlow => CopyFields(d.request, t, base, {RequestId, FlowFingerprint})
      case PentagiDispatch => NotRepairable
  }

  function CopyFields(request: Event, t: EventType, base: map<Field, string>, wanted: set<Field>): Repair {
    if wanted <= request.fields.Keys then Repaired(Event(t, base + map f | f in wanted :: request.fields[f]))
    else MissingField
  }

  /** Which pending intents local repair can complete, and that its event clears that intent and no other. */
  lemma LocalRepairClears(events: seq<Event>, intent: Intent, job: string, now: string)
    requires intent in Pending(events)
    ensures var repair := LocalCompletion(Describe(intent), job, now);
      && (repair.Repaired? <==>
            && intent.key.kind != PentagiDispatch
            && (intent.key.kind == ManualReport ==> intent.request.Has(Platform))
            && (intent.key.kind == CompletionReport ==> Platform in intent.request.fields))
      && (repair.Repaired? ==>
            && CompletionKey(repair.event) == Some(intent.key)
            && Pending(events + [repair.event]) == Without(Pending(events), intent.key))
  {
    PendingExactly(events, CompletedKeys(events));
    assert FirstRequest(events, intent);
    var repair := LocalCompletion(Describe(intent), job, now);
    RepairNamesKey(intent, job, now);
    if repair.Repaired? { CompletionClears(events, repair.event, intent.key); }
  }

  lemma RepairNamesKey(intent: Intent, job: string, now: string)
    requires RequestKey(intent.request) == Some(intent.key)
    ensures var repair := LocalCompletion(Describe(intent), job, now);
      && (repair.Repaired? <==>
            && intent.key.kind != PentagiDispatch
            && (intent.key.kind == ManualReport ==> intent.request.Has(Platform))
            && (intent.key.kind == CompletionReport ==> Platform in intent.request.fields))
      && (repair.Repaired? ==> CompletionKey(repair.event) == Some(intent.key))
  {
    assert intent.request.Has(RequestId) || intent.key.kind == PentagiDispatch;
  }

  function DescribeAll(intents: seq<Intent>): seq<Descriptor> {
    seq(|intents|, i requires 0 <= i < |intents| => Describe(intents[i]))
  }

  method CollectCompleted(events: seq<Event>) returns (done: set<Key>)
    ensures done == CompletedKeys(events)
  {
    done := {};
    for i := 0 to |events|
      invariant done == CompletedKeys(events[..i])
    {
      CompletedKeysAppend(events[..i], events[i]);
      assert events[..i + 1] == events[..i] + [events[i]];
      var key := CompletionKey(events[i]);
      if key.Some? { done := done + {key.value}; }
    }
    assert events[..|events|] == events;
  }

  method PendingOutboxIntents(events: seq<Event>) returns (intents: seq<Descriptor>)
    ensures intents == DescribeAll(Pending(events))
  {
    var completed := CollectCompleted(events);
    intents := [];
    var seen: set<Key> := {};
    for i := 0 to |events|
      invariant forall k :: k in seen <==> Requests(events[..i], k) && k !in completed
      invariant intents == DescribeAll(PendingAmong(events[..i], completed))
    {
      PrefixStep(events, i, completed);
      var key := RequestKey(events[i]);
      if key == None || key.value in seen || key.value in completed { continue; }
      seen := seen + {key.value};
      intents := intents + [Describe(Intent(key.value, events[i]))];
    }
    assert events[..|events|] == events;
  }

  lemma PrefixStep(events: seq<Event>, i: nat, done: set<Key>)
    requires i < |events|
    ensures PendingAmong(events[..i + 1], done)
      == PendingAmong(events[..i], done) + NewIntent(events[..i], events[i], done)
    ensures forall k :: Requests(events[..i + 1], k) <==> Requests(events[..i], k) || RequestKey(events[i]) == Some(k)
  {
    assert events[..i + 1] == events[..i] + [events[i]];
    assert events[..i + 1][..i] == events[..i];
    forall k ensures Requests(events[..i + 1], k) <==> Requests(events[..i], k) || RequestKey(events[i]) == Some(k) {
      RequestsSplit(events[..i], events[i], k);
    }
  }

  // ---------------------------------------------------------------- the redacted view

  datatype Item = Item(kind: Kind, requestedAt: Option<string>, digest: string)

  datatype Snapshot = Snapshot(
    total: nat,
    byKind: map<Kind, nat>,
    oldest: Option<string>,
    pending: seq<Item>,
    truncated: bool)

  function Redact(intent: Intent, digest: string -> string): Item {
    Item(intent.key.kind, intent.request.Get(At), digest(intent.key.identity))
  }

  function RedactAll(intents: seq<Intent>, digest: string -> string): seq<Item> {
    seq(|intents|, i requires 0 <= i < |intents| => Redact(intents[i], digest))
  }

  function Text(at: Option<string>): string {
    if at == None then "" else at.value
  }

  /** Known times first, then by time, then by the kind's name. */
  predicate ItemLeq(a: Item, b: Item) {
    if (a.requestedAt == None) != (b.requestedAt == None) then b.requestedAt == None
    else if Text(a.requestedAt) != Text(b.requestedAt) then TextOrder.Leq(Text(a.requestedAt), Text(b.requestedAt))
    else a.kind.Rank() <= b.kind.Rank()
  }

  lemma ItemOrder()
    ensures TotalPreorder(ItemLeq)
  {
    forall a: Item, b: Item ensures ItemLeq(a, b) || ItemLeq(b, a) {
      TextOrder.Total(Text(a.requestedAt), Text(b.requestedAt));
    }
    forall a: Item, b: Item, c: Item | ItemLeq(a, b) && ItemLeq(b, c) ensures ItemLeq(a, c) {
      var s, t, u := Text(a.requestedAt), Text(b.requestedAt), Text(c.requestedAt);
      if TextOrder.Leq(s, t) && TextOrder.Leq(t, u) { TextOrder.Transitive(s, t, u); }
      if TextOrder.Leq(s, t) && TextOrder.Leq(t, s) { TextOrder.Antisymmetric(s, t); }
    }
  }

  function CountKind(items: seq<Item>, k: Kind): nat {
    if items == [] then 0 else (if items[0].kind == k then 1 else 0) + CountKind(items[1..], k)
  }

  lemma {:induction false} InsertCount(x: Item, items: seq<Item>, k: Kind)
    ensures CountKind(Insert(x, items, ItemLeq), k) == (if x.kind == k then 1 else 0) + CountKind(items, k)
  {
    if items != [] && !ItemLeq(x, items[0]) { InsertCount(x, items[1..], k); }
  }

  lemma {:induction false} SortKeepsCounts(items: seq<Item>, k: Kind)
    ensures CountKind(Sort(items, ItemLeq), k) == CountKind(items, k)
  {
    if items != [] {
      SortKeepsCounts(items[1..], k);
      InsertCount(items[0], Sort(items[1..], ItemLeq), k);
    }
  }

  lemma {:induction false} CountsSum(items: seq<Item>)
    ensures CountKind(items, CampaignStart) + CountKind(items, FindingValidation) + CountKind(items, CompletionReport)
         + CountKind(items, ManualReport) + CountKind(items, BrowserFlow) + CountKind(items, PentagiDispatch) == |items|
  {
    if items != [] { CountsSum(items[1..]); }
  }

  lemma {:induction false} CountLast(items: seq<Item>, x: Item, k: Kind)
    ensures CountKind(items + [x], k) == CountKind(items, k) + (if x.kind == k then 1 else 0)
  {
    if items == [] {
      assert items + [x] == [x];
    } else {
      assert (items + [x])[1..] == items[1..] + [x];
      CountLast(items[1..], x, k);
    }
  }

  function Tally(m: map<Kind, nat>, k: Kind): nat {
    if k in m then m[k] else 0
  }

  method CountByKind(items: seq<Item>) returns (counts: map<Kind, nat>)
    ensures forall k :: Tally(counts, k) == CountKind(items, k)
    ensures forall k | k in counts :: counts[k] > 0
  {
    counts := map[];
    for i := 0 to |items|
      invariant forall k :: Tally(counts, k) == CountKind(items[..i], k)
      invariant forall k | k in counts :: counts[k] > 0
    {
      assert items[..i + 1] == items[..i] + [items[i]];
      forall k ensures CountKind(items[..i + 1], k)
        == CountKind(items[..i], k) + (if items[i].kind == k then 1 else 0) {
        CountLast(items[..i], items[i], k);
      }
      ghost var before := counts;
      counts := counts[items[i].kind := Tally(counts, items[i].kind) + 1];
      forall k ensures Tally(counts, k) == CountKind(items[..i + 1], k) {
        assert Tally(before, k) == CountKind(items[..i], k);
      }
    }
    assert items[..|items|] == items;
  }

  predicate Timed(item: Item) {
    item.requestedAt.Some? && item.requestedAt.value != ""
  }

  function FirstTime(items: seq<Item>): Option<string> {
    if items == [] then None
    else if Timed(items[0]) then items[0].requestedAt
    else FirstTime(items[1..])
  }

  /** The least non-empty time, if there is one. */
  ghost predicate IsOldest(oldest: Option<string>, items: seq<Item>) {
    match oldest
    case None => forall x | x in items :: !Timed(x)
    case Some(t) =>
      && t != ""
      && (exists x | x in items :: x.requestedAt == Some(t))
      && forall x | x in items && Timed(x) :: TextOrder.Leq(t, x.requestedAt.value)
  }

  lemma {:induction false} FirstTimeIsOldest(items: seq<Item>)
    requires Ordered(items, ItemLeq)
    ensures IsOldest(FirstTime(items), items)
  {
    if items != [] {
      FirstTimeIsOldest(items[1..]);
      if Timed(items[0]) {
        var t := items[0].requestedAt.value;
        forall x | x in items && Timed(x) ensures TextOrder.Leq(t, x.requestedAt.value) {
          TextOrder.Total(t, t);
          var j :| 0 <= j < |items| && items[j] == x;
          assert j == 0 || ItemLeq(items[0], items[j]);
        }
      } else if FirstTime(items[1..]).Some? {
        var x :| x in items[1..] && x.requestedAt == FirstTime(items[1..]);
        assert x in items;
      }
    }
  }

  /** What the diagnostics must say about the pending intents. */
  ghost predicate Summarizes(s: Snapshot, intents: seq<Intent>, digest: string -> string, maxItems: int) {
    var items := RedactAll(intents, digest);
    && s.total == |intents|
    && (forall k :: Tally(s.byKind, k) == CountKind(items, k))
    && Tally(s.byKind, CampaignStart) + Tally(s.byKind, FindingValidation) + Tally(s.byKind, CompletionReport)
       + Tally(s.byKind, ManualReport) + Tally(s.byKind, BrowserFlow) + Tally(s.byKind, PentagiDispatch) == s.total
    && IsOldest(s.oldest, items)
    && s.pending <= Sort(items, ItemLeq)
    && |s.pending| == (if s.total <= maxItems then s.total else maxItems)
    && s.truncated == (s.total > maxItems)
  }

  lemma SortedSummary(s: Snapshot, intents: seq<Intent>, digest: string -> string, maxItems: int)
    requires maxItems >= 0
    requires var sorted := Sort(RedactAll(intents, digest), ItemLeq);
      && s.total == |sorted|
      && (forall k :: Tally(s.byKind, k) == CountKind(sorted, k))
      && s.oldest == FirstTime(sorted)
      && s.pending == (if |sorted| <= maxItems then sorted else sorted[..maxItems])
      && s.truncated == (|s.pending| < |sorted|)
    ensures Summarizes(s, intents, digest, maxItems)
  {
    var items := RedactAll(intents, digest);
    var sorted := Sort(items, ItemLeq);
    ItemOrder();
    SortOrders(items, ItemLeq);
    SortKeepsMembers(items, ItemLeq);
    FirstTimeIsOldest(sorted);
    CountsSum(sorted);
    forall k ensures Tally(s.byKind, k) == CountKind(items, k) { SortKeepsCounts(items, k); }
  }

  /** `None` is the `ValueError` for a limit outside 1..500. */
  method OutboxSnapshot(events: seq<Event>, maxItems: int, digest: string -> string) returns (s: Option<Snapshot>)
    ensures s == None <==> !(1 <= maxItems <= 500)
    ensures s.Some? ==> Summarizes(s.value, Pending(events), digest, maxItems)
  {
    if !(1 <= maxItems <= 500) { return None; }
    var completed := CollectCompleted(events);
    var pending: seq<Item> := [];
    var seen: set<Key> := {};
    for i := 0 to |events|
      invariant forall k :: k in seen <==> Requests(events[..i], k)
      invariant pending == RedactAll(PendingAmong(events[..i], completed), digest)
    {
      PrefixStep(events, i, completed);
      var key := RequestKey(events[i]);
      if key == None || key.value in seen { continue; }
      seen := seen + {key.value};
      if key.value in completed { continue; }
      pending := pending + [Redact(Intent(key.value, events[i]), digest)];
    }
    assert events[..|events|] == events;
    pending := Sort(pending, ItemLeq);
    var counts := CountByKind(pending);
    var visible := if |pending| <= maxItems then pending else pending[..maxItems];
    var result := Snapshot(|pending|, counts, FirstTime(pending), visible, |visible| < |pending|);
    SortedSummary(result, Pending(events), digest, maxItems);
    return Some(result);
  }

  function RedactDescriptor(d: Descriptor, digest: string -> string): Item {
    Item(d.kind, d.requestedAt, digest(d.rawIdentity))
  }

  /** Without truncation the redacted view shows exactly the intents recovery works on, times included. */
  lemma ViewsAgree(events: seq<Event>, intents: seq<Descriptor>, s: Snapshot, digest: string -> string, maxItems: int)
    requires intents == DescribeAll(Pending(events))
    requires Summarizes(s, Pending(events), digest, maxItems)
    ensures s.total == |intents|
    ensures !s.truncated ==>
      multiset(s.pending)
        == multiset(seq(|intents|, i requires 0 <= i < |intents| => RedactDescriptor(intents[i], digest)))
  {
    var items := RedactAll(Pending(events), digest);
    var sorted := Sort(items, ItemLeq);
    assert items == seq(|intents|, i requires 0 <= i < |intents| => RedactDescriptor(intents[i], digest));
    assert |sorted| == |items| && multiset(sorted) == multiset(items) by {
      SortPermutes(items, ItemLeq);
      SortKeepsMembers(items, ItemLeq);
    }
    if !s.truncated { assert s.pending == sorted; }
  }

  ghost predicate FirstAsked(events: seq<Event>, d: Descriptor) {
    exists i | 0 <= i < |events| ::
      && RequestKey(events[i]) == Some(Key(d.kind, d.rawIdentity))
      && events[i].Get(At) == d.requestedAt
      && forall j | 0 <= j < i :: RequestKey(events[j]) != Some(Key(d.kind, d.rawIdentity))
  }

  /** Every described intent carries the time of the first request for its key. */
  lemma TimesAreFirstRequests(events: seq<Event>, d: Descriptor)
    requires d in DescribeAll(Pending(events))
    ensures FirstAsked(events, d)
  {
    PendingExactly(events, CompletedKeys(events));
    var n :| 0 <= n < |Pending(events)| && DescribeAll(Pending(events))[n] == d;
    var intent := Pending(events)[n];
    assert FirstRequest(events, intent);
    var i :| && 0 <= i < |events| && events[i] == intent.request && RequestKey(events[i]) == Some(intent.key)
             && forall j | 0 <= j < i :: RequestKey(events[j]) != Some(intent.key);
    assert d.kind == intent.key.kind && d.rawIdentity == intent.key.identity && d.requestedAt == intent.request.Get(At);
  }
}
