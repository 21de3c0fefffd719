/**
 Queueing a browser flow (browser.py): write the request under compare-and-set, enqueue a job under
 the request's dedupe key, write the outcome under compare-and-set with up to three attempts.
 Callers run concurrently and may crash anywhere; local outbox repair (main.py) completes requests
 meanwhile, and other writers append unrelated events and stop or resume the campaign.
 The main results come before the lemmas they rest on.
 */
module BrowserOutbox {
  import opened Wrappers
  import opened VersionedLog
  import opened ApiOutbox

  /** A flow is known by its collision-free fingerprint, which fixes the job payload. */
  type Flow = string

  datatype Campaign = Campaign(events: seq<Event>, stopped: bool) // cancelled or completed

  datatype Job = Job(id: string, payload: Flow)

  datatype Call =
    | Idle
    | Reading(flow: Flow, snapshot: Record<Campaign>)
    | Checking(flow: Flow, request: string)
    | Enqueuing(flow: Flow, request: string)
    | Reconciling(flow: Flow, request: string, job: string, attempts: nat)
    | Saving(flow: Flow, request: string, job: string, attempts: nat, snapshot: Record<Campaign>)
    | Returned(flow: Flow, request: string, job: string)
  {
    predicate HasRequest() {
      Checking? || Enqueuing? || HasJob()
    }

    predicate HasJob() {
      Reconciling? || Saving? || Returned?
    }
  }

  datatype World = World(
    campaign: Record<Campaign>,
    jobs: map<string, Job>, // by dedupe key, unique per campaign and kind
    calls: seq<Call>,
    used: set<string>)

  datatype Label =
    | Start(call: nat, flow: Flow)
    | CommitRequest(call: nat, token: string, now: string)
    | Recheck(call: nat)
    | Enqueue(call: nat, id: string)
    | Reload(call: nat)
    | CommitQueued(call: nat, now: string)
    | Crash(call: nat)
    | Repair(found: set<string>, now: string) // `found`: the dedupe keys whose jobs the repair had seen
    | Other(event: Event, stopped: bool)

  const ATTEMPTS := 3

  function DedupeKey(request: string): string {
    "browser:" + request
  }

  function RequestEvent(r: string, f: Flow, now: string): Event {
    Event(BrowserFlowRequested, map[RequestId := r, FlowFingerprint := f, At := now])
  }

  function QueuedEvent(r: string, f: Flow, job: string, now: string): Event {
    Event(BrowserFlowQueued, map[RequestId := r, FlowFingerprint := f, JobId := job, At := now])
  }

  function PendingFor(events: seq<Event>, f: Flow): Option<string> {
    PendingRequestId(events, BrowserFlowRequested, BrowserFlowQueued, map[FlowFingerprint := f])
  }

  predicate IsRequested(events: seq<Event>, r: string, f: Flow) {
    HasEvent(events, BrowserFlowRequested, map[RequestId := r, FlowFingerprint := f])
  }

  predicate IsQueued(events: seq<Event>, r: string, f: Flow, job: string) {
    HasEvent(events, BrowserFlowQueued, map[RequestId := r, FlowFingerprint := f, JobId := job])
  }

  predicate Enabled(w: World, l: Label) {
    match l
    case Start(p, f) => p < |w.calls| && (w.calls[p].Idle? || w.calls[p].Returned?) && f != ""
    case CommitRequest(p, token, _) => p < |w.calls| && w.calls[p].Reading? && token !in w.used && token != ""
    case Recheck(p) => p < |w.calls| && w.calls[p].Checking?
    case Enqueue(p, id) => p < |w.calls| && w.calls[p].Enqueuing? && forall d | d in w.jobs :: w.jobs[d].id != id
    case Reload(p) => p < |w.calls| && w.calls[p].Reconciling?
    case CommitQueued(p, _) => p < |w.calls| && w.calls[p].Saving?
    case Crash(p) => p < |w.calls|
    case Repair(found, _) => found <= w.jobs.Keys
    case Other(e, _) => e.eventType != BrowserFlowRequested && e.eventType != BrowserFlowQueued
  }

  function Append(c: Campaign, more: seq<Event>): Campaign {
    c.(events := c.events + more)
  }

  /** The browser completions one local repair writes, for the pending intents whose job it found. */
  function RepairEvents(intents: seq<Intent>, jobs: map<string, Job>, found: set<string>, now: string): seq<Event>
    requires found <= jobs.Keys
  {
    if intents == [] then []
    else
      var first, rest := intents[0], RepairEvents(intents[1..], jobs, found, now);
      var d := Describe(first);
      if d.kind != BrowserFlow || d.dedupeKey == None || d.dedupeKey.value !in found then rest
      else
        match LocalCompletion(d, jobs[d.dedupeKey.value].id, now)
        case Repaired(e) => [e] + rest
        case _ => rest
  }

  function Move(w: World, p: nat, c: Call): World
    requires p < |w.calls|
  {
    w.(calls := w.calls[p := c])
  }

  function Step(w: World, l: Label): World
    requires Enabled(w, l)
  {
    match l
    case Start(p, f) => Move(w, p, if w.campaign.doc.stopped then Idle else Reading(f, w.campaign))
    case CommitRequest(p, token, now) =>
      var Reading(f, snapshot) := w.calls[p];
      var pending := PendingFor(snapshot.doc.events, f);
      var r := if pending.Some? then pending.value else token;
      if IsRequested(snapshot.doc.events, r, f) then Move(w, p, Checking(f, r))
      else (
        match Save(w.campaign, snapshot.version, Append(snapshot.doc, [RequestEvent(r, f, now)]))
        case None => Move(w, p, Idle)
        case Some(saved) => Move(w, p, Checking(f, r)).(campaign := saved, used := w.used + {r}))
    case Recheck(p) =>
      var Checking(f, r) := w.calls[p];
      Move(w, p, if w.campaign.doc.stopped then Idle else Enqueuing(f, r))
    case Enqueue(p, id) =>
      var Enqueuing(f, r) := w.calls[p];
      var key := DedupeKey(r);
      if key !in w.jobs then Move(w, p, Reconciling(f, r, id, ATTEMPTS)).(jobs := w.jobs[key := Job(id, f)])
      else if w.jobs[key].payload != f then Move(w, p, Idle) // ValueError: key reused with another payload
      else Move(w, p, Reconciling(f, r, w.jobs[key].id, ATTEMPTS))
    case Reload(p) =>
      var Reconciling(f, r, job, attempts) := w.calls[p];
      if attempts == 0 then Move(w, p, Idle)
      else if IsQueued(w.campaign.doc.events, r, f, job) then Move(w, p, Returned(f, r, job))
      else Move(w, p, Saving(f, r, job, attempts - 1, w.campaign))
    case CommitQueued(p, now) =>
      var Saving(f, r, job, attempts, snapshot) := w.calls[p];
      (match Save(w.campaign, snapshot.version, Append(snapshot.doc, [QueuedEvent(r, f, job, now)]))
       case None => Move(w, p, Reconciling(f, r, job, attempts))
       case Some(saved) => Move(w, p, Returned(f, r, job)).(campaign := saved))
    case Crash(p) => Move(w, p, Idle)
    case Repair(found, now) =>
      var c := w.campaign.doc;
      w.(campaign := Record(Append(c, RepairEvents(Pending(c.events), w.jobs, found, now)), w.campaign.version + 1))
    case Other(e, stopped) =>
      w.(campaign := Record(Append(w.campaign.doc, [e]).(stopped := stopped), w.campaign.version + 1))
  }

  ghost predicate Run(w: World, labels: seq<Label>, w': World)
    decreases |labels|
  {
    if labels == [] then w' == w
    else Enabled(w, labels[0]) && Run(Step(w, labels[0]), labels[1..], w')
  }

  predicate Initial(w: World) {
    && w.campaign.doc.events == []
    && w.jobs == map[]
    && forall p | 0 <= p < |w.calls| :: w.calls[p] == Idle
  }

  // ---------------------------------------------------------------- the log as facts

  datatype Fact =
    | Asked(request: string, flow: Flow)
    | Queued(request: string, flow: Flow, job: string)
    | Unrelated

  function View(e: Event): Fact {
    if e.eventType == BrowserFlowRequested && e.Has(RequestId) && e.Has(FlowFingerprint) then
      Asked(e.fields[RequestId], e.fields[FlowFingerprint])
    else if e.eventType == BrowserFlowQueued && e.Has(RequestId)
            && FlowFingerprint in e.fields && JobId in e.fields then
      Queued(e.fields[RequestId], e.fields[FlowFingerprint], e.fields[JobId])
    else Unrelated
  }

  predicate WellFormed(events: seq<Event>) {
    forall i | 0 <= i < |events|
      && (events[i].eventType == BrowserFlowRequested || events[i].eventType == BrowserFlowQueued) ::
      View(events[i]) != Unrelated
  }

  function Facts(events: seq<Event>): seq<Fact> {
    seq(|events|, i requires 0 <= i < |events| => View(events[i]))
  }

  predicate QueuedFor(facts: seq<Fact>, r: string) {
    exists i | 0 <= i < |facts| :: facts[i].Queued? && facts[i].request == r
  }

  /** Requested and not yet completed. */
  predicate Open(facts: seq<Fact>, r: string, f: Flow) {
    Asked(r, f) in facts && !QueuedFor(facts, r)
  }

  ghost predicate RequestsUnique(facts: seq<Fact>) {
    forall i, j | 0 <= i < j < |facts| && facts[i].Asked? && facts[j].Asked? :: facts[i].request != facts[j].request
  }

  /** A flow is requested again only after its previous request was completed. */
  ghost predicate RequestsSerialized(facts: seq<Fact>) {
    forall i, j | 0 <= i < j < |facts| && facts[i].Asked? && facts[j].Asked? && facts[i].flow == facts[j].flow ::
      QueuedFor(facts[..j], facts[i].request)
  }

  ghost predicate CompletionsUnique(facts: seq<Fact>) {
    forall i, j | 0 <= i < j < |facts| && facts[i].Queued? && facts[j].Queued? :: facts[i].request != facts[j].request
  }

  /** A completion follows its request and names the job of that request. */
  ghost predicate CompletionsFounded(facts: seq<Fact>, jobs: map<string, Job>) {
    forall i | 0 <= i < |facts| && facts[i].Queued? ::
      && Asked(facts[i].request, facts[i].flow) in facts[..i]
      && DedupeKey(facts[i].request) in jobs
      && jobs[DedupeKey(facts[i].request)] == Job(facts[i].job, facts[i].flow)
  }

  ghost predicate NamesRequest(facts: seq<Fact>, dedupe: string, f: Flow) {
    exists r :: dedupe == DedupeKey(r) && Asked(r, f) in facts
  }

  ghost predicate JobsFounded(facts: seq<Fact>, jobs: map<string, Job>) {
    forall d | d in jobs :: NamesRequest(facts, d, jobs[d].payload)
  }

  ghost predicate LogOk(facts: seq<Fact>, jobs: map<string, Job>) {
    && RequestsUnique(facts)
    && RequestsSerialized(facts)
    && CompletionsUnique(facts)
    && CompletionsFounded(facts, jobs)
    && JobsFounded(facts, jobs)
  }

  ghost predicate CallOk(w: World, c: Call) {
    var facts := Facts(w.campaign.doc.events);
    && (c.Reading? || c.Saving? ==> Past(c.snapshot, w.campaign))
    && (c.Reading? ==> c.flow != "" && c.snapshot.doc.events <= w.campaign.doc.events)
    && (c.HasRequest() ==> Asked(c.request, c.flow) in facts)
    && (c.HasJob() ==> DedupeKey(c.request) in w.jobs && w.jobs[DedupeKey(c.request)] == Job(c.job, c.flow))
    && (c.Saving? ==> !QueuedFor(Facts(c.snapshot.doc.events), c.request))
    && (c.Returned? ==> Queued(c.request, c.flow, c.job) in facts)
  }

  ghost predicate Inv(w: World) {
    && WellFormed(w.campaign.doc.events)
    && LogOk(Facts(w.campaign.doc.events), w.jobs)
    && (forall i | 0 <= i < |w.campaign.doc.events| && View(w.campaign.doc.events[i]).Asked? ::
          View(w.campaign.doc.events[i]).request in w.used)
    && forall p | 0 <= p < |w.calls| :: CallOk(w, w.calls[p])
  }

  // ---------------------------------------------------------------- what every step keeps

  lemma StepKeepsInv(w: World, l: Label)
    requires Inv(w) && Enabled(w, l)
    ensures Inv(Step(w, l))
  {
    match l
    case Start(p, f) => MoveKeepsInv(w, p, Step(w, l).calls[p]);
    case CommitRequest(p, token, now) => CommitRequestKeepsInv(w, p, token, now);
    case Recheck(p) =>
      assert CallOk(w, w.calls[p]);
      MoveKeepsInv(w, p, Step(w, l).calls[p]);
    case Enqueue(p, id) => EnqueueKeepsInv(w, p, id);
    case Reload(p) => ReloadKeepsInv(w, p);
    case CommitQueued(p, now) => CommitQueuedKeepsInv(w, p, now);
    case Crash(p) => MoveKeepsInv(w, p, Idle);
    case Repair(found, now) => RepairKeepsInv(w, found, now);
    case Other(e, _) =>
      FactsAppend(w.campaign.doc.events, e);
      UnrelatedKeepsLog(Facts(w.campaign.doc.events), w.jobs);
      WriteKeepsInv(w, Step(w, l), [e]);
  }

  lemma {:induction false} RunKeepsInv(w: World, labels: seq<Label>, w': World)
    requires Inv(w) && Run(w, labels, w')
    ensures Inv(w')
    decreases |labels|
  {
    if labels != [] {
      StepKeepsInv(w, labels[0]);
      RunKeepsInv(Step(w, labels[0]), labels[1..], w');
    }
  }

  // ---------------------------------------------------------------- what a caller may rely on

  /** In every reachable world a flow has at most one pending request. */
  lemma AtMostOnePending(w: World, labels: seq<Label>, w': World, r1: string, r2: string, f: Flow)
    requires Initial(w) && Run(w, labels, w')
    requires Open(Facts(w'.campaign.doc.events), r1, f) && Open(Facts(w'.campaign.doc.events), r2, f)
    ensures r1 == r2
  {
    RunKeepsInv(w, labels, w');
  }

  /** Every job belongs to a committed request for its flow; a request has at most one completion, naming its job. */
  lemma JobsAndCompletionsAreOwned(w: World, labels: seq<Label>, w': World)
    requires Initial(w) && Run(w, labels, w')
    ensures forall d | d in w'.jobs :: NamesRequest(Facts(w'.campaign.doc.events), d, w'.jobs[d].payload)
    ensures forall i, j | 0 <= i < j < |w'.campaign.doc.events| ::
      var x, y := View(w'.campaign.doc.events[i]), View(w'.campaign.doc.events[j]);
      && (x.Queued? && y.Queued? ==> x.request != y.request)
      && (x.Asked? && y.Asked? ==> x.request != y.request)
    ensures forall e | e in w'.campaign.doc.events && View(e).Queued? :: var Queued(r, f, job) := View(e);
      DedupeKey(r) in w'.jobs && w'.jobs[DedupeKey(r)] == Job(job, f) && IsRequested(w'.campaign.doc.events, r, f)
  {
    RunKeepsInv(w, labels, w');
    var events := w'.campaign.doc.events;
    forall i | 0 <= i < |events| ensures Facts(events)[i] == View(events[i]) {}
    forall e | e in events && View(e).Queued?
      ensures var Queued(r, f, job) := View(e);
        DedupeKey(r) in w'.jobs && w'.jobs[DedupeKey(r)] == Job(job, f) && IsRequested(events, r, f)
    {
      var i :| 0 <= i < |events| && events[i] == e;
      var Queued(r, f, job) := Facts(events)[i];
      assert Asked(r, f) in Facts(events)[..i];
      RequestNonEmpty(events, r, f);
      RequestedInFacts(events, r, f);
    }
  }

  /** Whichever step a call crashed at, a retry goes on with the committed request and writes no second one. */
  lemma RetryReusesRequest(w: World, p: nat, r: string, f: Flow, token: string, now: string)
    requires Inv(w) && Open(Facts(w.campaign.doc.events), r, f)
    requires p < |w.calls| && w.calls[p] == Reading(f, w.campaign) && Enabled(w, CommitRequest(p, token, now))
    ensures Step(w, CommitRequest(p, token, now)) == Move(w, p, Checking(f, r))
  {
    assert CallOk(w, w.calls[p]);
    RetryFindsOpenRequest(w.campaign.doc.events, w.jobs, r, f);
    PendingIsRequested(w.campaign.doc.events, r, f);
  }

  /** The queue never refuses a call for a reused key, and a retry gets the job its request already has. */
  lemma EnqueueReturnsTheJob(w: World, p: nat, id: string)
    requires Inv(w) && Enabled(w, Enqueue(p, id))
    ensures var Enqueuing(f, r) := w.calls[p];
      var w' := Step(w, Enqueue(p, id));
      && w'.calls[p].HasJob()
      && w'.jobs[DedupeKey(r)] == Job(w'.calls[p].job, f)
      && (DedupeKey(r) in w.jobs ==> w'.jobs == w.jobs && w'.calls[p].job == w.jobs[DedupeKey(r)].id)
  {
    EnqueueKeepsInv(w, p, id);
    assert CallOk(Step(w, Enqueue(p, id)), Step(w, Enqueue(p, id)).calls[p]);
  }

  /** A call returns a job only when the completion naming it is on record. */
  lemma ReturnMeansRecorded(w: World, labels: seq<Label>, w': World, p: nat)
    requires Initial(w) && Run(w, labels, w') && p < |w'.calls| && w'.calls[p].Returned?
    ensures var Returned(f, r, job) := w'.calls[p];
      IsQueued(w'.campaign.doc.events, r, f, job) && IsRequested(w'.campaign.doc.events, r, f)
  {
    RunKeepsInv(w, labels, w');
    var Returned(f, r, job) := w'.calls[p];
    assert CallOk(w', w'.calls[p]);
    RequestNonEmpty(w'.campaign.doc.events, r, f);
    QueuedInFacts(w'.campaign.doc.events, r, f, job);
    RequestedInFacts(w'.campaign.doc.events, r, f);
  }

  /** On logs the protocol produces, the outbox lists a browser request exactly when a retry would find it. */
  lemma OutboxListsWhatRetryFinds(w: World, labels: seq<Label>, w': World, r: string)
    requires Initial(w) && Run(w, labels, w')
    ensures Lists(Pending(w'.campaign.doc.events), Key(BrowserFlow, r))
       <==> exists f | f != "" :: PendingFor(w'.campaign.doc.events, f) == Some(r)
  {
    RunKeepsInv(w, labels, w');
    var events := w'.campaign.doc.events;
    PendingExactly(events, CompletedKeys(events));
    if Lists(Pending(events), Key(BrowserFlow, r)) {
      var i :| 0 <= i < |Pending(events)| && Pending(events)[i].key == Key(BrowserFlow, r);
      PendingIsRepairable(events, Pending(events)[i]);
      var f :| f != "" && Open(Facts(events), r, f);
      RetryFindsOpenRequest(events, w'.jobs, r, f);
    }
    if f :| f != "" && PendingFor(events, f) == Some(r) {
      RetryFindsOpenRequest(events, w'.jobs, r, f);
      OpenIsListed(events, r, f);
    }
  }

  /** A call left alone returns the job of its flow's open request, creating at most that job, after any crash. */
  lemma UndisturbedCallReturns(w: World, p: nat, f: Flow, token: string, id: string, now: string)
    returns (labels: seq<Label>, w': World)
    requires Inv(w) && Enabled(w, Start(p, f)) && !w.campaign.doc.stopped && token !in w.used && token != ""
    requires forall d | d in w.jobs :: w.jobs[d].id != id
    ensures Run(w, labels, w') && p < |w'.calls| && w'.calls[p].Returned? && w'.calls[p].flow == f
    ensures var pending := PendingFor(w.campaign.doc.events, f);
      && w'.calls[p].request == (if pending.Some? then pending.value else token)
      && w'.jobs.Keys == w.jobs.Keys + {DedupeKey(w'.calls[p].request)}
  {
    var r, w2 := UndisturbedRequest(w, p, f, token, now);
    var job, w4 := UndisturbedJob(w2, p, f, r, id);
    w' := UndisturbedRecord(w4, p, f, r, job, now);
    RunThenRun(w2, [Recheck(p), Enqueue(p, id)], w4, [Reload(p), CommitQueued(p, now)], w');
    var rest := [Recheck(p), Enqueue(p, id)] + [Reload(p), CommitQueued(p, now)];
    RunStep(Step(w, Start(p, f)), CommitRequest(p, token, now), rest, w');
    RunStep(w, Start(p, f), [CommitRequest(p, token, now)] + rest, w');
    labels := [Start(p, f)] + ([CommitRequest(p, token, now)] + rest);
  }

  // ---------------------------------------------------------------- reading the log

  lemma DedupeKeysDiffer(a: string, b: string)
    requires DedupeKey(a) == DedupeKey(b)
    ensures a == b
  {
    assert DedupeKey(a)[8..] == a && DedupeKey(b)[8..] == b;
  }

  lemma IdentityOfTwo(e: Event, r: string, f: Flow)
    ensures Matches(e, map[RequestId := r, FlowFingerprint := f]) <==>
      e.Get(RequestId) == Some(r) && e.Get(FlowFingerprint) == Some(f)
  {
    var identity := map[RequestId := r, FlowFingerprint := f];
    assert RequestId in identity && FlowFingerprint in identity;
  }

  lemma IdentityOfThree(e: Event, r: string, f: Flow, job: string)
    ensures Matches(e, map[RequestId := r, FlowFingerprint := f, JobId := job])
       <==> e.Get(RequestId) == Some(r) && e.Get(FlowFingerprint) == Some(f) && e.Get(JobId) == Some(job)
  {
    var identity := map[RequestId := r, FlowFingerprint := f, JobId := job];
    assert RequestId in identity && FlowFingerprint in identity && JobId in identity;
  }

  lemma RequestedInFacts(events: seq<Event>, r: string, f: Flow)
    requires r != "" && f != ""
    ensures IsRequested(events, r, f) <==> Asked(r, f) in Facts(events)
  {
    forall e: Event ensures e.eventType == BrowserFlowRequested && Matches(e, map[RequestId := r, FlowFingerprint := f])
                <==> View(e) == Asked(r, f) {
      IdentityOfTwo(e, r, f);
    }
    if Asked(r, f) in Facts(events) {
      var i :| 0 <= i < |events| && Facts(events)[i] == Asked(r, f);
      assert View(events[i]) == Asked(r, f);
    }
    if IsRequested(events, r, f) {
      var i :| 0 <= i < |events| && events[i].eventType == BrowserFlowRequested
            && Matches(events[i], map[RequestId := r, FlowFingerprint := f]);
      assert Facts(events)[i] == Asked(r, f);
    }
  }

  lemma QueuedInFacts(events: seq<Event>, r: string, f: Flow, job: string)
    requires r != ""
    ensures IsQueued(events, r, f, job) <==> Queued(r, f, job) in Facts(events)
  {
    forall e: Event
      ensures View(e) == Queued(r, f, job) <==>
        e.eventType == BrowserFlowQueued && Matches(e, map[RequestId := r, FlowFingerprint := f, JobId := job])
    {
      IdentityOfThree(e, r, f, job);
    }
    if Queued(r, f, job) in Facts(events) {
      var i :| 0 <= i < |events| && Facts(events)[i] == Queued(r, f, job);
      assert View(events[i]) == Queued(r, f, job);
    }
    if IsQueued(events, r, f, job) {
      var i :| 0 <= i < |events| && events[i].eventType == BrowserFlowQueued
            && Matches(events[i], map[RequestId := r, FlowFingerprint := f, JobId := job]);
      assert Facts(events)[i] == Queued(r, f, job);
    }
  }

  // ---------------------------------------------------------------- what every append keeps

  lemma FactsAppend(events: seq<Event>, e: Event)
    ensures Facts(events + [e]) == Facts(events) + [View(e)]
  {
  }

  lemma PrefixesStay(facts: seq<Fact>, x: Fact)
    ensures forall i | 0 <= i <= |facts| :: (facts + [x])[..i] == facts[..i]
    ensures forall y :: y in facts + [x] <==> y in facts || y == x
    ensures forall r :: QueuedFor(facts + [x], r) <==> QueuedFor(facts, r) || (x.Queued? && x.request == r)
  {
    forall i | 0 <= i <= |facts| ensures (facts + [x])[..i] == facts[..i] {}
    assert (facts + [x])[|facts|] == x;
    forall r ensures QueuedFor(facts + [x], r) <==> QueuedFor(facts, r) || (x.Queued? && x.request == r) {
      if QueuedFor(facts, r) {
        var i :| 0 <= i < |facts| && facts[i].Queued? && facts[i].request == r;
        assert (facts + [x])[i].Queued?;
      }
    }
  }

  lemma AskedKeepsLog(facts: seq<Fact>, jobs: map<string, Job>, r: string, f: Flow)
    requires LogOk(facts, jobs)
    requires forall i | 0 <= i < |facts| && facts[i].Asked? ::
      facts[i].request != r && (facts[i].flow == f ==> QueuedFor(facts, facts[i].request))
    ensures LogOk(facts + [Asked(r, f)], jobs)
  {
    PrefixesStay(facts, Asked(r, f));
    JobsStayFounded(facts, Asked(r, f), jobs);
  }

  lemma UnrelatedKeepsLog(facts: seq<Fact>, jobs: map<string, Job>)
    requires LogOk(facts, jobs)
    ensures LogOk(facts + [Unrelated], jobs)
  {
    PrefixesStay(facts, Unrelated);
    JobsStayFounded(facts, Unrelated, jobs);
  }

  lemma QueuedKeepsLog(facts: seq<Fact>, jobs: map<string, Job>, r: string, f: Flow, job: string)
    requires LogOk(facts, jobs) && Open(facts, r, f)
    requires DedupeKey(r) in jobs && jobs[DedupeKey(r)] == Job(job, f)
    ensures LogOk(facts + [Queued(r, f, job)], jobs)
  {
    PrefixesStay(facts, Queued(r, f, job));
    JobsStayFounded(facts, Queued(r, f, job), jobs);
  }

  lemma JobsStayFounded(facts: seq<Fact>, x: Fact, jobs: map<string, Job>)
    requires JobsFounded(facts, jobs)
    ensures JobsFounded(facts + [x], jobs)
  {
    forall d | d in jobs ensures NamesRequest(facts + [x], d, jobs[d].payload) {
      assert NamesRequest(facts, d, jobs[d].payload);
      var r :| d == DedupeKey(r) && Asked(r, jobs[d].payload) in facts;
      assert Asked(r, jobs[d].payload) in facts + [x];
    }
  }

  lemma NewJobKeepsLog(facts: seq<Fact>, jobs: map<string, Job>, r: string, f: Flow, id: string)
    requires LogOk(facts, jobs) && Asked(r, f) in facts && DedupeKey(r) !in jobs
    ensures LogOk(facts, jobs[DedupeKey(r) := Job(id, f)])
  {
    var jobs' := jobs[DedupeKey(r) := Job(id, f)];
    forall d | d in jobs' ensures NamesRequest(facts, d, jobs'[d].payload) {
      if d != DedupeKey(r) { assert NamesRequest(facts, d, jobs[d].payload); }
    }
  }

  /** An intent the log really contains, still open. */
  ghost predicate Repairable(facts: seq<Fact>, intent: Intent) {
    intent.key.kind == BrowserFlow ==>
      exists f | f != "" :: View(intent.request) == Asked(intent.key.identity, f) && Open(facts, intent.key.identity, f)
  }

  lemma RepairViews(intent: Intent, f: Flow, job: string, now: string)
    requires intent.key.kind == BrowserFlow && View(intent.request) == Asked(intent.key.identity, f)
    ensures LocalCompletion(Describe(intent), job, now).Repaired?
    ensures View(LocalCompletion(Describe(intent), job, now).event) == Queued(intent.key.identity, f, job)
  {
  }

  /** Every job repair finds belongs to the request whose dedupe key found it. */
  lemma FoundJobMatches(facts: seq<Fact>, jobs: map<string, Job>, r: string, f: Flow)
    requires JobsFounded(facts, jobs) && RequestsUnique(facts) && Asked(r, f) in facts && DedupeKey(r) in jobs
    ensures jobs[DedupeKey(r)].payload == f
  {
    assert NamesRequest(facts, DedupeKey(r), jobs[DedupeKey(r)].payload);
    var r' :| DedupeKey(r) == DedupeKey(r') && Asked(r', jobs[DedupeKey(r)].payload) in facts;
    DedupeKeysDiffer(r, r');
    var i :| 0 <= i < |facts| && facts[i] == Asked(r, f);
    var j :| 0 <= j < |facts| && facts[j] == Asked(r, jobs[DedupeKey(r)].payload);
    assert i == j;
  }

  /** Completing one intent leaves every other intent repairable. */
  lemma StaysRepairable(facts: seq<Fact>, x: Fact, intent: Intent)
    requires Repairable(facts, intent) && x.Queued?
      && (intent.key.kind == BrowserFlow ==> x.request != intent.key.identity)
    ensures Repairable(facts + [x], intent)
  {
    PrefixesStay(facts, x);
  }

  /** Appending `more` keeps the log in order and requests nothing. */
  ghost predicate OnlyCompletes(events: seq<Event>, more: seq<Event>, jobs: map<string, Job>) {
    && WellFormed(events + more)
    && LogOk(Facts(events + more), jobs)
    && forall i | 0 <= i < |more| :: !View(more[i]).Asked?
  }

  lemma OnlyCompletesChains(events: seq<Event>, e: Event, rest: seq<Event>, jobs: map<string, Job>)
    requires View(e).Queued? && OnlyCompletes(events + [e], rest, jobs)
    ensures OnlyCompletes(events, [e] + rest, jobs)
  {
    assert events + ([e] + rest) == (events + [e]) + rest;
  }

  lemma RepairEventsStep(intents: seq<Intent>, jobs: map<string, Job>, found: set<string>, now: string)
    requires intents != [] && found <= jobs.Keys
    ensures var rest := RepairEvents(intents[1..], jobs, found, now);
      var key := DedupeKey(intents[0].key.identity);
      if intents[0].key.kind != BrowserFlow || key !in found
         || !LocalCompletion(Describe(intents[0]), jobs[key].id, now).Repaired?
      then RepairEvents(intents, jobs, found, now) == rest
      else RepairEvents(intents, jobs, found, now)
           == [LocalCompletion(Describe(intents[0]), jobs[key].id, now).event] + rest
  {
  }

  /** Completing the first intent keeps the log in order and leaves the other intents repairable. */
  lemma OthersStayRepairable(facts: seq<Fact>, x: Fact, intents: seq<Intent>)
    requires intents != [] && DistinctKeys(intents) && x.Queued?
    requires intents[0].key == Key(BrowserFlow, x.request)
    requires forall i | 0 <= i < |intents| :: Repairable(facts, intents[i])
    ensures forall i | 1 <= i < |intents| :: Repairable(facts + [x], intents[i])
  {
    forall i | 1 <= i < |intents| ensures Repairable(facts + [x], intents[i]) {
      assert intents[0].key != intents[i].key;
      StaysRepairable(facts, x, intents[i]);
    }
  }

  lemma RepairFirst(events: seq<Event>, intents: seq<Intent>, jobs: map<string, Job>, now: string) returns (e: Event)
    requires intents != [] && WellFormed(events) && LogOk(Facts(events), jobs) && DistinctKeys(intents)
    requires intents[0].key.kind == BrowserFlow && DedupeKey(intents[0].key.identity) in jobs
    requires forall i | 0 <= i < |intents| :: Repairable(Facts(events), intents[i])
    ensures LocalCompletion(Describe(intents[0]), jobs[DedupeKey(intents[0].key.identity)].id, now) == Repaired(e)
    ensures View(e).Queued? && WellFormed(events + [e]) && LogOk(Facts(events + [e]), jobs)
    ensures forall i | 1 <= i < |intents| :: Repairable(Facts(events + [e]), intents[i])
  {
    var facts, r := Facts(events), intents[0].key.identity;
    assert Repairable(facts, intents[0]);
    var f :| f != "" && View(intents[0].request) == Asked(r, f) && Open(facts, r, f);
    RepairViews(intents[0], f, jobs[DedupeKey(r)].id, now);
    e := LocalCompletion(Describe(intents[0]), jobs[DedupeKey(r)].id, now).event;
    FactsAppend(events, e);
    FoundJobMatches(facts, jobs, r, f);
    QueuedKeepsLog(facts, jobs, r, f, jobs[DedupeKey(r)].id);
    OthersStayRepairable(facts, View(e), intents);
  }

  lemma RepairOne(events: seq<Event>, intents: seq<Intent>, rest: seq<Intent>, jobs: map<string, Job>,
                  found: set<string>, now: string) returns (e: Event)
    requires found <= jobs.Keys && WellFormed(events) && LogOk(Facts(events), jobs) && DistinctKeys(intents)
    requires intents != [] && rest == intents[1..]
    requires intents[0].key.kind == BrowserFlow && DedupeKey(intents[0].key.identity) in found
    requires forall i | 0 <= i < |intents| :: Repairable(Facts(events), intents[i])
    ensures RepairEvents(intents, jobs, found, now) == [e] + RepairEvents(rest, jobs, found, now)
    ensures View(e).Queued? && WellFormed(events + [e]) && LogOk(Facts(events + [e]), jobs) && DistinctKeys(rest)
    ensures forall i | 0 <= i < |rest| :: Repairable(Facts(events + [e]), rest[i])
  {
    RepairEventsStep(intents, jobs, found, now);
    e := RepairFirst(events, intents, jobs, now);
    forall i | 0 <= i < |rest| ensures Repairable(Facts(events + [e]), rest[i]) { assert rest[i] == intents[i + 1]; }
  }

  lemma {:induction false} RepairKeepsLog(events: seq<Event>, intents: seq<Intent>, jobs: map<string, Job>,
                                          found: set<string>, now: string)
    requires found <= jobs.Keys && WellFormed(events) && LogOk(Facts(events), jobs) && DistinctKeys(intents)
    requires forall i | 0 <= i < |intents| :: Repairable(Facts(events), intents[i])
    ensures OnlyCompletes(events, RepairEvents(intents, jobs, found, now), jobs)
    decreases |intents|
  {
    if intents == [] {
      assert events + [] == events;
    } else {
      var rest := intents[1..];
      RepairEventsStep(intents, jobs, found, now);
      if intents[0].key.kind != BrowserFlow || DedupeKey(intents[0].key.identity) !in found {
        RepairKeepsLog(events, rest, jobs, found, now);
      } else {
        var e := RepairOne(events, intents, rest, jobs, found, now);
        RepairKeepsLog(events + [e], rest, jobs, found, now);
        OnlyCompletesChains(events, e, RepairEvents(rest, jobs, found, now), jobs);
      }
    }
  }

  /** Whatever the outbox lists as pending is an open request of the log. */
  lemma PendingIsRepairable(events: seq<Event>, intent: Intent)
    requires WellFormed(events) && intent in Pending(events)
    ensures Repairable(Facts(events), intent)
  {
    PendingExactly(events, CompletedKeys(events));
    assert FirstRequest(events, intent);
    var i :| 0 <= i < |events| && events[i] == intent.request && RequestKey(events[i]) == Some(intent.key);
    if intent.key.kind == BrowserFlow {
      var r, f := intent.key.identity, events[i].fields[FlowFingerprint];
      assert Facts(events)[i] == Asked(r, f);
      assert Lists(Pending(events), intent.key);
      CompletedInFacts(events, r);
      CompletedKeysExactly(events, intent.key);
    }
  }

  lemma CompletedInFacts(events: seq<Event>, r: string)
    requires WellFormed(events)
    ensures Completes(events, Key(BrowserFlow, r)) <==> QueuedFor(Facts(events), r)
  {
    if QueuedFor(Facts(events), r) {
      var i :| 0 <= i < |events| && Facts(events)[i].Queued? && Facts(events)[i].request == r;
      assert CompletionKey(events[i]) == Some(Key(BrowserFlow, r));
    }
    if Completes(events, Key(BrowserFlow, r)) {
      var i :| 0 <= i < |events| && CompletionKey(events[i]) == Some(Key(BrowserFlow, r));
      assert Facts(events)[i].Queued? && Facts(events)[i].request == r;
    }
  }

  // ---------------------------------------------------------------- pending requests, read both ways

  lemma CompletedUnderFlow(events: seq<Event>, jobs: map<string, Job>, r: string, f: Flow)
    requires WellFormed(events) && LogOk(Facts(events), jobs) && r != "" && Asked(r, f) in Facts(events)
    ensures CompletedUnder(events, BrowserFlowQueued, map[FlowFingerprint := f], r) <==> QueuedFor(Facts(events), r)
  {
    var facts, identity := Facts(events), map[FlowFingerprint := f];
    forall e: Event ensures Matches(e, identity) <==> e.Get(FlowFingerprint) == Some(f) {
      assert FlowFingerprint in identity;
    }
    if QueuedFor(facts, r) {
      var i :| 0 <= i < |facts| && facts[i].Queued? && facts[i].request == r;
      SameFlow(facts, jobs, i, f);
      assert events[i].Get(RequestId) == Some(r) && Matches(events[i], identity);
    }
    if CompletedUnder(events, BrowserFlowQueued, identity, r) {
      var i :| 0 <= i < |events| && events[i].eventType == BrowserFlowQueued && events[i].Get(RequestId) == Some(r)
            && Matches(events[i], identity);
      assert facts[i].Queued? && facts[i].request == r;
    }
  }

  lemma SameFlow(facts: seq<Fact>, jobs: map<string, Job>, i: nat, f: Flow)
    requires LogOk(facts, jobs) && i < |facts| && facts[i].Queued? && Asked(facts[i].request, f) in facts
    ensures facts[i].flow == f
  {
    var j :| 0 <= j < i && facts[j] == Asked(facts[i].request, facts[i].flow);
    var k :| 0 <= k < |facts| && facts[k] == Asked(facts[i].request, f);
    assert j == k;
  }

  lemma PendingViewed(events: seq<Event>, jobs: map<string, Job>, i: nat, f: Flow)
    requires WellFormed(events) && LogOk(Facts(events), jobs) && i < |events| && f != ""
    ensures IsPendingRequest(events[i], events, BrowserFlowRequested, BrowserFlowQueued, map[FlowFingerprint := f])
       <==> View(events[i]).Asked? && View(events[i]).flow == f && !QueuedFor(Facts(events), View(events[i]).request)
  {
    var identity, e := map[FlowFingerprint := f], events[i];
    assert FlowFingerprint in identity;
    assert Matches(e, identity) <==> e.Get(FlowFingerprint) == Some(f);
    assert Facts(events)[i] == View(e);
    if View(e).Asked? && View(e).flow == f { CompletedUnderFlow(events, jobs, View(e).request, f); }
  }

  lemma FoundIsOpen(events: seq<Event>, jobs: map<string, Job>, f: Flow)
    requires WellFormed(events) && LogOk(Facts(events), jobs) && f != ""
    ensures var found := PendingFor(events, f); found.Some? ==> Open(Facts(events), found.value, f)
  {
    var identity, found := map[FlowFingerprint := f], PendingFor(events, f);
    if found.Some? {
      var i :| 0 <= i < |events| && events[i].Has(RequestId) && events[i].fields[RequestId] == found.value
            && IsPendingRequest(events[i], events, BrowserFlowRequested, BrowserFlowQueued, identity);
      PendingViewed(events, jobs, i, f);
      assert Facts(events)[i] == View(events[i]);
    }
  }

  lemma OpenIsFound(events: seq<Event>, jobs: map<string, Job>, r: string, f: Flow)
    requires WellFormed(events) && LogOk(Facts(events), jobs) && f != "" && Open(Facts(events), r, f)
    ensures PendingFor(events, f).Some?
  {
    var i :| 0 <= i < |events| && Facts(events)[i] == Asked(r, f);
    assert View(events[i]) == Asked(r, f);
    PendingViewed(events, jobs, i, f);
  }

  /** A retry finds exactly the open request of its flow, and there is at most one. */
  lemma RetryFindsOpenRequest(events: seq<Event>, jobs: map<string, Job>, r: string, f: Flow)
    requires WellFormed(events) && LogOk(Facts(events), jobs) && f != ""
    ensures PendingFor(events, f) == Some(r) <==> Open(Facts(events), r, f)
  {
    FoundIsOpen(events, jobs, f);
    if Open(Facts(events), r, f) {
      OpenIsFound(events, jobs, r, f);
    }
  }

  // ---------------------------------------------------------------- steps

  lemma GrowKeepsCalls(w: World, w': World, more: seq<Event>)
    requires w'.campaign.doc.events == w.campaign.doc.events + more
    requires w'.campaign.version > w.campaign.version && w'.jobs == w.jobs
    ensures forall c | CallOk(w, c) :: CallOk(w', c)
  {
    var facts, facts' := Facts(w.campaign.doc.events), Facts(w'.campaign.doc.events);
    assert forall x | x in facts :: x in facts' by {
      assert facts'[..|facts|] == facts;
    }
  }

  lemma OthersKeepCalls(w: World, w': World, p: nat)
    requires p < |w.calls| == |w'.calls| && (forall c | CallOk(w, c) :: CallOk(w', c)) && CallOk(w', w'.calls[p])
    requires forall q | 0 <= q < |w.calls| && q != p :: w'.calls[q] == w.calls[q]
    requires forall q | 0 <= q < |w.calls| :: CallOk(w, w.calls[q])
    ensures forall q | 0 <= q < |w'.calls| :: CallOk(w', w'.calls[q])
  {
  }

  /** A call that only moves on. */
  lemma MoveKeepsInv(w: World, p: nat, c: Call)
    requires Inv(w) && p < |w.calls| && CallOk(w, c)
    ensures Inv(Move(w, p, c))
  {
    var w' := Move(w, p, c);
    forall x | CallOk(w, x) ensures CallOk(w', x) {}
    OthersKeepCalls(w, w', p);
  }

  /** Appending events that keep the log in order. */
  lemma WriteKeepsInv(w: World, w': World, more: seq<Event>)
    requires Inv(w) && w'.campaign.doc.events == w.campaign.doc.events + more
    requires w'.campaign.version == w.campaign.version + 1 && w'.jobs == w.jobs && w.used <= w'.used
    requires WellFormed(w'.campaign.doc.events) && LogOk(Facts(w'.campaign.doc.events), w.jobs)
    requires forall i | 0 <= i < |more| && View(more[i]).Asked? :: View(more[i]).request in w'.used
    requires w'.calls == w.calls
    ensures Inv(w')
  {
    GrowKeepsCalls(w, w', more);
    var events, events' := w.campaign.doc.events, w'.campaign.doc.events;
    forall i | 0 <= i < |events'| && View(events'[i]).Asked? ensures View(events'[i]).request in w'.used {
      if i >= |events| { assert events'[i] == more[i - |events|]; }
    }
  }

  /** The same, with the call that appends them moving on. */
  lemma CallWriteKeepsInv(w: World, w': World, p: nat, c: Call, more: seq<Event>)
    requires Inv(w) && w'.campaign.doc.events == w.campaign.doc.events + more
    requires w'.campaign.version == w.campaign.version + 1 && w'.jobs == w.jobs && w.used <= w'.used
    requires WellFormed(w'.campaign.doc.events) && LogOk(Facts(w'.campaign.doc.events), w.jobs)
    requires forall i | 0 <= i < |more| && View(more[i]).Asked? :: View(more[i]).request in w'.used
    requires p < |w.calls| && w'.calls == w.calls[p := c] && CallOk(w', c)
    ensures Inv(w')
  {
    var written := w'.(calls := w.calls);
    WriteKeepsInv(w, written, more);
    assert w' == Move(written, p, c);
    MoveKeepsInv(written, p, c);
  }

  lemma FreshRequestKeepsLog(w: World, token: string, f: Flow, now: string)
    requires Inv(w) && token !in w.used && token != "" && f != "" && PendingFor(w.campaign.doc.events, f) == None
    ensures var all := w.campaign.doc.events + [RequestEvent(token, f, now)];
      WellFormed(all) && LogOk(Facts(all), w.jobs) && Asked(token, f) in Facts(all)
  {
    var events := w.campaign.doc.events;
    var e, facts := RequestEvent(token, f, now), Facts(events);
    FactsAppend(events, e);
    assert View(e) == Asked(token, f);
    forall i | 0 <= i < |facts| && facts[i].Asked?
      ensures facts[i].request != token && (facts[i].flow == f ==> QueuedFor(facts, facts[i].request))
    {
      assert View(events[i]) == facts[i];
      if facts[i].flow == f && !QueuedFor(facts, facts[i].request) {
        RetryFindsOpenRequest(events, w.jobs, facts[i].request, f);
      }
    }
    AskedKeepsLog(facts, w.jobs, token, f);
    assert Facts(events + [e])[|events|] == Asked(token, f);
  }

  /** What `pending_request_id` returns is a request on record, whatever the log looks like. */
  lemma PendingIsRequested(events: seq<Event>, r: string, f: Flow)
    requires PendingFor(events, f) == Some(r)
    ensures r != "" && IsRequested(events, r, f)
  {
    var identity := map[FlowFingerprint := f];
    var i :| 0 <= i < |events| && events[i].Has(RequestId) && events[i].fields[RequestId] == r
          && IsPendingRequest(events[i], events, BrowserFlowRequested, BrowserFlowQueued, identity);
    assert FlowFingerprint in identity;
    IdentityOfTwo(events[i], r, f);
  }

  lemma RequestedStays(events: seq<Event>, all: seq<Event>, r: string, f: Flow)
    requires events <= all && IsRequested(events, r, f) && r != "" && f != ""
    ensures Asked(r, f) in Facts(all)
  {
    var i :| 0 <= i < |events| && events[i].eventType == BrowserFlowRequested
          && Matches(events[i], map[RequestId := r, FlowFingerprint := f]);
    assert all[i] == events[i];
    RequestedInFacts(all, r, f);
  }

  lemma CommitRequestKeepsInv(w: World, p: nat, token: string, now: string)
    requires Inv(w) && Enabled(w, CommitRequest(p, token, now))
    ensures Inv(Step(w, CommitRequest(p, token, now)))
  {
    var Reading(f, snapshot) := w.calls[p];
    var w' := Step(w, CommitRequest(p, token, now));
    var pending := PendingFor(snapshot.doc.events, f);
    assert CallOk(w, w.calls[p]);
    if pending.Some? { PendingIsRequested(snapshot.doc.events, pending.value, f); }
    if IsRequested(snapshot.doc.events, if pending.Some? then pending.value else token, f) {
      RequestedStays(snapshot.doc.events, w.campaign.doc.events, w'.calls[p].request, f);
      MoveKeepsInv(w, p, w'.calls[p]);
    } else if w'.calls[p].Idle? {
      MoveKeepsInv(w, p, Idle);
    } else {
      FreshRequestKeepsLog(w, token, f, now);
      CallWriteKeepsInv(w, w', p, w'.calls[p], [RequestEvent(token, f, now)]);
    }
  }

  lemma EnqueueKeepsInv(w: World, p: nat, id: string)
    requires Inv(w) && Enabled(w, Enqueue(p, id))
    ensures Inv(Step(w, Enqueue(p, id))) && Step(w, Enqueue(p, id)).calls[p].HasJob()
  {
    var Enqueuing(f, r) := w.calls[p];
    var w', facts := Step(w, Enqueue(p, id)), Facts(w.campaign.doc.events);
    assert CallOk(w, w.calls[p]);
    if DedupeKey(r) in w.jobs {
      FoundJobMatches(facts, w.jobs, r, f);
      MoveKeepsInv(w, p, w'.calls[p]);
    } else {
      NewJobKeepsLog(facts, w.jobs, r, f, id);
      forall c | CallOk(w, c) ensures CallOk(w', c) {}
      OthersKeepCalls(w, w', p);
    }
  }

  /** The duplicate check by request, flow and job misses no completion of the request. */
  lemma NotQueuedYet(events: seq<Event>, jobs: map<string, Job>, r: string, f: Flow, job: string)
    requires LogOk(Facts(events), jobs) && Asked(r, f) in Facts(events) && r != ""
    requires DedupeKey(r) in jobs && jobs[DedupeKey(r)] == Job(job, f)
    ensures IsQueued(events, r, f, job) <==> QueuedFor(Facts(events), r)
    ensures IsQueued(events, r, f, job) ==> Queued(r, f, job) in Facts(events)
  {
    QueuedInFacts(events, r, f, job);
    if QueuedFor(Facts(events), r) {
      var i :| 0 <= i < |events| && Facts(events)[i].Queued? && Facts(events)[i].request == r;
      SameFlow(Facts(events), jobs, i, f);
      assert Facts(events)[i] == Queued(r, f, job);
    }
  }

  lemma ReloadKeepsInv(w: World, p: nat)
    requires Inv(w) && Enabled(w, Reload(p))
    ensures Inv(Step(w, Reload(p)))
  {
    var Reconciling(f, r, job, attempts) := w.calls[p];
    assert CallOk(w, w.calls[p]);
    RequestNonEmpty(w.campaign.doc.events, r, f);
    NotQueuedYet(w.campaign.doc.events, w.jobs, r, f, job);
    MoveKeepsInv(w, p, Step(w, Reload(p)).calls[p]);
  }

  lemma RequestNonEmpty(events: seq<Event>, r: string, f: Flow)
    requires Asked(r, f) in Facts(events)
    ensures r != "" && f != ""
  {
    var i :| 0 <= i < |events| && Facts(events)[i] == Asked(r, f);
    assert View(events[i]) == Asked(r, f);
  }

  lemma CompletionKeepsLog(events: seq<Event>, jobs: map<string, Job>, r: string, f: Flow, job: string, now: string)
    requires WellFormed(events) && LogOk(Facts(events), jobs) && Open(Facts(events), r, f)
    requires DedupeKey(r) in jobs && jobs[DedupeKey(r)] == Job(job, f)
    ensures var all := events + [QueuedEvent(r, f, job, now)];
      WellFormed(all) && LogOk(Facts(all), jobs)
  {
    var e := QueuedEvent(r, f, job, now);
    RequestNonEmpty(events, r, f);
    FactsAppend(events, e);
    assert View(e) == Queued(r, f, job);
    QueuedKeepsLog(Facts(events), jobs, r, f, job);
  }

  lemma CompletionIsOnRecord(events: seq<Event>, r: string, f: Flow, job: string, now: string)
    requires WellFormed(events) && Asked(r, f) in Facts(events)
    ensures var facts := Facts(events + [QueuedEvent(r, f, job, now)]);
      r != "" && f != "" ==> Queued(r, f, job) in facts && Asked(r, f) in facts
  {
    FactsAppend(events, QueuedEvent(r, f, job, now));
    var facts := Facts(events) + [View(QueuedEvent(r, f, job, now))];
    assert facts[|facts| - 1] in facts;
  }

  lemma CompletionKeepsInv(w: World, w': World, p: nat, r: string, f: Flow, job: string, now: string)
    requires Inv(w) && p < |w.calls| && Open(Facts(w.campaign.doc.events), r, f)
    requires DedupeKey(r) in w.jobs && w.jobs[DedupeKey(r)] == Job(job, f)
    requires w'.campaign.doc.events == w.campaign.doc.events + [QueuedEvent(r, f, job, now)]
    requires w'.campaign.version == w.campaign.version + 1 && w'.jobs == w.jobs && w'.used == w.used
    requires w'.calls == w.calls[p := Returned(f, r, job)]
    ensures Inv(w')
  {
    var events, c := w.campaign.doc.events, Returned(f, r, job);
    RequestNonEmpty(events, r, f);
    CompletionKeepsLog(events, w.jobs, r, f, job, now);
    assert CallOk(w', c) by { CompletionIsOnRecord(events, r, f, job, now); }
    CallWriteKeepsInv(w, w', p, c, [QueuedEvent(r, f, job, now)]);
  }

  lemma CommitQueuedKeepsInv(w: World, p: nat, now: string)
    requires Inv(w) && Enabled(w, CommitQueued(p, now))
    ensures Inv(Step(w, CommitQueued(p, now)))
  {
    var Saving(f, r, job, attempts, snapshot) := w.calls[p];
    var w' := Step(w, CommitQueued(p, now));
    assert CallOk(w, w.calls[p]);
    if snapshot.version != w.campaign.version {
      MoveKeepsInv(w, p, w'.calls[p]);
    } else {
      CompletionKeepsInv(w, w', p, r, f, job, now);
    }
  }

  lemma RepairKeepsInv(w: World, found: set<string>, now: string)
    requires Inv(w) && found <= w.jobs.Keys
    ensures Inv(Step(w, Repair(found, now)))
  {
    var events := w.campaign.doc.events;
    var intents := Pending(events);
    var more := RepairEvents(intents, w.jobs, found, now);
    PendingExactly(events, CompletedKeys(events));
    forall i | 0 <= i < |intents| ensures Repairable(Facts(events), intents[i]) {
      PendingIsRepairable(events, intents[i]);
    }
    RepairKeepsLog(events, intents, w.jobs, found, now);
    WriteKeepsInv(w, Step(w, Repair(found, now)), more);
  }

  lemma OpenIsListed(events: seq<Event>, r: string, f: Flow)
    requires WellFormed(events) && Open(Facts(events), r, f)
    ensures Lists(Pending(events), Key(BrowserFlow, r))
  {
    PendingExactly(events, CompletedKeys(events));
    var i :| 0 <= i < |events| && Facts(events)[i] == Asked(r, f);
    assert View(events[i]) == Asked(r, f);
    assert RequestKey(events[i]) == Some(Key(BrowserFlow, r));
    CompletedInFacts(events, r);
    CompletedKeysExactly(events, Key(BrowserFlow, r));
  }

  // ---------------------------------------------------------------- a call that nobody disturbs

  /** The first two steps of such a call leave its flow with one open request: the pending one, or a new one. */
  lemma UndisturbedRequest(w: World, p: nat, f: Flow, token: string, now: string) returns (r: string, w': World)
    requires Inv(w) && Enabled(w, Start(p, f)) && !w.campaign.doc.stopped && token !in w.used && token != ""
    ensures var w1 := Step(w, Start(p, f));
      Enabled(w1, CommitRequest(p, token, now)) && w' == Step(w1, CommitRequest(p, token, now))
    ensures var pending := PendingFor(w.campaign.doc.events, f); r == if pending.Some? then pending.value else token
    ensures Inv(w') && p < |w'.calls| && w'.calls[p] == Checking(f, r) && Open(Facts(w'.campaign.doc.events), r, f)
    ensures !w'.campaign.doc.stopped && w'.jobs == w.jobs
  {
    var events := w.campaign.doc.events;
    var w1 := Step(w, Start(p, f));
    w' := Step(w1, CommitRequest(p, token, now));
    StepKeepsInv(w, Start(p, f));
    StepKeepsInv(w1, CommitRequest(p, token, now));
    if PendingFor(events, f).Some? {
      r := PendingFor(events, f).value;
      PendingIsRequested(events, r, f);
      FoundIsOpen(events, w.jobs, f);
    } else {
      r := token;
      FreshIsOpen(w, token, f, now);
    }
  }

  lemma FreshIsOpen(w: World, token: string, f: Flow, now: string)
    requires Inv(w) && token !in w.used && token != "" && f != ""
    ensures !IsRequested(w.campaign.doc.events, token, f)
    ensures Open(Facts(w.campaign.doc.events + [RequestEvent(token, f, now)]), token, f)
  {
    var events, e := w.campaign.doc.events, RequestEvent(token, f, now);
    var facts := Facts(events);
    RequestedInFacts(events, token, f);
    FactsAppend(events, e);
    assert View(e) == Asked(token, f);
    PrefixesStay(facts, View(e));
    forall i | 0 <= i < |facts| ensures !(facts[i].Asked? && facts[i].request == token) {
      assert View(events[i]) == facts[i];
    }
    forall i | 0 <= i < |facts| && facts[i].Queued? ensures facts[i].request != token {
      assert Asked(facts[i].request, facts[i].flow) in facts[..i];
    }
  }

  lemma RunStep(w: World, l: Label, rest: seq<Label>, w': World)
    requires Enabled(w, l) && Run(Step(w, l), rest, w')
    ensures Run(w, [l] + rest, w')
  {
    assert ([l] + rest)[1..] == rest;
  }

  lemma JobGiven(w: World, p: nat, f: Flow, r: string, id: string)
    requires Enabled(w, Enqueue(p, id)) && w.calls[p] == Enqueuing(f, r)
    requires Step(w, Enqueue(p, id)).calls[p].HasJob()
    ensures var w' := Step(w, Enqueue(p, id));
      && w'.campaign == w.campaign && w'.jobs.Keys == w.jobs.Keys + {DedupeKey(r)}
      && w'.calls[p] == Reconciling(f, r, w'.calls[p].job, ATTEMPTS)
  {
  }

  lemma UndisturbedEnqueue(w: World, p: nat, f: Flow, r: string, id: string) returns (job: string, w': World)
    requires Inv(w) && p < |w.calls| && w.calls[p] == Enqueuing(f, r)
    requires forall d | d in w.jobs :: w.jobs[d].id != id
    ensures Run(w, [Enqueue(p, id)], w')
    ensures Inv(w') && w'.campaign == w.campaign && w'.jobs.Keys == w.jobs.Keys + {DedupeKey(r)}
    ensures p < |w'.calls| && w'.calls[p] == Reconciling(f, r, job, ATTEMPTS)
  {
    w' := Step(w, Enqueue(p, id));
    EnqueueKeepsInv(w, p, id);
    job := w'.calls[p].job;
    JobGiven(w, p, f, r, id);
    assert Run(w', [], w');
    RunStep(w, Enqueue(p, id), [], w');
  }

  /** With the request committed, the next two steps give the call its job. */
  lemma UndisturbedJob(w: World, p: nat, f: Flow, r: string, id: string) returns (job: string, w': World)
    requires Inv(w) && p < |w.calls| && w.calls[p] == Checking(f, r) && !w.campaign.doc.stopped
    requires forall d | d in w.jobs :: w.jobs[d].id != id
    ensures Run(w, [Recheck(p), Enqueue(p, id)], w')
    ensures Inv(w') && w'.campaign == w.campaign && w'.jobs.Keys == w.jobs.Keys + {DedupeKey(r)}
    ensures p < |w'.calls| && w'.calls[p] == Reconciling(f, r, job, ATTEMPTS)
  {
    var w1 := Step(w, Recheck(p));
    StepKeepsInv(w, Recheck(p));
    assert w1 == Move(w, p, Enqueuing(f, r)) && w1.calls[p] == Enqueuing(f, r);
    job, w' := UndisturbedEnqueue(w1, p, f, r, id);
    RunStep(w, Recheck(p), [Enqueue(p, id)], w');
  }

  /** The last two steps record the completion of an open request. */
  lemma UndisturbedRecord(w: World, p: nat, f: Flow, r: string, job: string, now: string) returns (w': World)
    requires Inv(w) && p < |w.calls| && w.calls[p] == Reconciling(f, r, job, ATTEMPTS)
      && Open(Facts(w.campaign.doc.events), r, f)
    ensures Run(w, [Reload(p), CommitQueued(p, now)], w')
    ensures p < |w'.calls| && w'.calls[p] == Returned(f, r, job) && w'.jobs == w.jobs
  {
    assert CallOk(w, w.calls[p]);
    RequestNonEmpty(w.campaign.doc.events, r, f);
    NotQueuedYet(w.campaign.doc.events, w.jobs, r, f, job);
    var w1 := Step(w, Reload(p));
    assert w1.calls[p] == Saving(f, r, job, ATTEMPTS - 1, w.campaign) && w1.campaign == w.campaign;
    w' := Step(w1, CommitQueued(p, now));
    assert Run(w', [], w');
    RunStep(w1, CommitQueued(p, now), [], w');
    RunStep(w, Reload(p), [CommitQueued(p, now)], w');
  }

  lemma {:induction false} RunThenRun(w: World, first: seq<Label>, mid: World, second: seq<Label>, w': World)
    requires Run(w, first, mid) && Run(mid, second, w')
    ensures Run(w, first + second, w')
    decreases |first|
  {
    if first == [] {
      assert first + second == second;
    } else {
      RunThenRun(Step(w, first[0]), first[1..], mid, second, w');
      assert (first + second)[1..] == first[1..] + second;
    }
  }
}
