/**
 Operator reset of the campaign circuit breaker (campaign_control.py, circuit_breaker.py). The reset
 spans two stores: requests and completions in the versioned campaign log, the breaker's own states in
 the observation store. Calls interleave and crash; the orchestrator opens the breaker meanwhile.
 */
module Breaker {
  import opened Wrappers
  import opened VersionedLog
  import opened StableSort
  import TextOrder

  /** A breaker state observed at a time; times are compared as text. */
  datatype Observation =
    | Opened(at: string, reason: string)
    | Reset(at: string, openedAt: string)

  /** The digest of the opening a reset answers, free of collisions. */
  datatype ResetId = ResetId(openedAt: string, reason: string)

  datatype Event =
    | Requested(id: ResetId)                             // circuit_breaker_reset_requested
    | Completed(id: ResetId, resetAt: Option<string>)    // circuit_breaker_reset_completed
    | OtherEvent

  // ---------------------------------------------------------------- reading both stores

  predicate ByTime(a: Observation, b: Observation) {
    TextOrder.Leq(a.at, b.at)
  }

  lemma ByTimeOrder()
    ensures TotalPreorder(ByTime)
  {
    forall a: Observation, b: Observation ensures ByTime(a, b) || ByTime(b, a) {
      TextOrder.Total(a.at, b.at);
    }
    forall a: Observation, b: Observation, c: Observation | ByTime(a, b) && ByTime(b, c) ensures ByTime(a, c) {
      TextOrder.Transitive(a.at, b.at, c.at);
    }
  }

  datatype State = Closed(resetAt: Option<string>) | Open(reason: string, openedAt: string)

  function StateAfter(o: Observation): State {
    match o
    case Opened(at, reason) => Open(reason, at)
    case Reset(at, _) => Closed(Some(at))
  }

  /** `circuit_breaker_state`: the last observation in order of time decides. */
  function StateOf(observations: seq<Observation>): State {
    if observations == [] then Closed(None)
    else
      SortKeepsMembers(observations, ByTime);
      StateAfter(Sort(observations, ByTime)[|observations| - 1])
  }

  /** The request names an opening on record. */
  predicate NamesOpening(observations: seq<Observation>, id: ResetId) {
    Opened(id.openedAt, id.reason) in observations
  }

  ghost predicate WasOpened(observations: seq<Observation>, at: string) {
    exists reason :: Opened(at, reason) in observations
  }

  lemma OpenIsOnRecord(observations: seq<Observation>)
    ensures var state := StateOf(observations); state.Open? ==> Opened(state.openedAt, state.reason) in observations
  {
    SortKeepsMembers(observations, ByTime);
    if observations != [] {
      var sorted := Sort(observations, ByTime);
      assert sorted[|sorted| - 1] in sorted;
    }
  }

  /** Storing an observation again changes nothing: its id is a digest of its content. */
  function Put(observations: seq<Observation>, o: Observation): seq<Observation> {
    if o in observations then observations else observations + [o]
  }

  predicate HasRequest(events: seq<Event>, id: ResetId) {
    exists i | 0 <= i < |events| :: events[i] == Requested(id)
  }

  predicate HasCompletion(events: seq<Event>, id: ResetId) {
    exists i | 0 <= i < |events| :: events[i].Completed? && events[i].id == id
  }

  /** Event `i` asks for the reset, and whatever was asked for later is completed. */
  predicate LastOpenRequest(events: seq<Event>, all: seq<Event>, i: nat, id: ResetId)
    requires i < |events|
  {
    && events[i] == Requested(id)
    && forall k | i < k < |events| && events[k].Requested? :: HasCompletion(all, events[k].id)
  }

  /** The scan of `_pending_breaker_reset`: the latest request without a completion anywhere. */
  function LatestPending(events: seq<Event>, all: seq<Event>): (r: Option<ResetId>)
    ensures r.Some? ==> HasRequest(events, r.value) && !HasCompletion(all, r.value)
    ensures r == None ==> forall id | HasRequest(events, id) :: HasCompletion(all, id)
  {
    if events == [] then None
    else
      var last := events[|events| - 1];
      if last.Requested? && !HasCompletion(all, last.id) then Some(last.id)
      else LatestPending(events[..|events| - 1], all)
  }

  lemma {:induction false} PendingIsLatest(events: seq<Event>, all: seq<Event>) returns (i: nat)
    requires LatestPending(events, all).Some?
    ensures i < |events| && LastOpenRequest(events, all, i, LatestPending(events, all).value)
  {
    i := |events| - 1;
    var last := events[i];
    if !last.Requested? || HasCompletion(all, last.id) { i := PendingIsLatest(events[..i], all); }
  }

  function Pending(events: seq<Event>): Option<ResetId> {
    LatestPending(events, events)
  }

  // ---------------------------------------------------------------- the protocol

  datatype Campaign = Campaign(events: seq<Event>, stopped: bool)

  datatype Call =
    | Idle
    | Started(seen: seq<Event>)
    | Requesting(id: ResetId, attempts: nat)
    | SavingRequest(id: ResetId, attempts: nat, snapshot: Record<Campaign>)
    | Resetting(id: ResetId)
    | Timed(id: ResetId, at: string)
    | Putting(id: ResetId, at: string, openedAt: string)
    | Completing(id: ResetId, attempts: nat, resetAt: Option<string>)
    | SavingCompletion(id: ResetId, attempts: nat, resetAt: Option<string>, snapshot: Record<Campaign>)
    | Returned(id: ResetId)
  {
    predicate RequestCommitted() {
      Resetting? || Timed? || Putting? || Completing? || SavingCompletion? || Returned?
    }
  }

  datatype World = World(campaign: Record<Campaign>, observations: seq<Observation>, calls: seq<Call>)

  datatype Label =
    | Begin(call: nat)
    | Decide(call: nat)
    | LoadRequest(call: nat)
    | CommitRequest(call: nat)
    | TakeTime(call: nat, now: string)
    | ReadBreaker(call: nat)
    | PutReset(call: nat)
    | LoadCompletion(call: nat)
    | CommitCompletion(call: nat)
    | Crash(call: nat)
    | OpenBreaker(at: string, reason: string) // the orchestrator, which may act on an outdated read
    | Other(stopped: bool)

  const ATTEMPTS := 3

  predicate Enabled(w: World, l: Label) {
    match l
    case Begin(p) => p < |w.calls| && (w.calls[p].Idle? || w.calls[p].Returned?)
    case Decide(p) => p < |w.calls| && w.calls[p].Started?
    case LoadRequest(p) => p < |w.calls| && w.calls[p].Requesting?
    case CommitRequest(p) => p < |w.calls| && w.calls[p].SavingRequest?
    case TakeTime(p, _) => p < |w.calls| && w.calls[p].Resetting?
    case ReadBreaker(p) => p < |w.calls| && w.calls[p].Timed?
    case PutReset(p) => p < |w.calls| && w.calls[p].Putting?
    case LoadCompletion(p) => p < |w.calls| && w.calls[p].Completing?
    case CommitCompletion(p) => p < |w.calls| && w.calls[p].SavingCompletion?
    case Crash(p) => p < |w.calls|
    case OpenBreaker(_, _) => true
    case Other(_) => true
  }

  function Append(c: Campaign, e: Event): Campaign {
    c.(events := c.events + [e])
  }

  function Move(w: World, p: nat, c: Call): World
    requires p < |w.calls|
  {
    w.(calls := w.calls[p := c])
  }

  function Step(w: World, l: Label): World
    requires Enabled(w, l)
  {
    match l
    case Begin(p) => Move(w, p, if w.campaign.doc.stopped then Idle else Started(w.campaign.doc.events))
    case Decide(p) =>
      var pending, state := Pending(w.calls[p].seen), StateOf(w.observations);
      (match state
       case Open(reason, openedAt) =>
         Move(w, p, Requesting(if pending.Some? then pending.value else ResetId(openedAt, reason), ATTEMPTS))
       case Closed(resetAt) =>
         Move(w, p, if pending == None then Idle else Completing(pending.value, ATTEMPTS, resetAt)))
    case LoadRequest(p) =>
      var Requesting(id, attempts) := w.calls[p];
      Move(w, p,
        if attempts == 0 then Idle
        else if HasRequest(w.campaign.doc.events, id) then Resetting(id)
        else SavingRequest(id, attempts - 1, w.campaign))
    case CommitRequest(p) =>
      var SavingRequest(id, attempts, snapshot) := w.calls[p];
      (match Save(w.campaign, snapshot.version, Append(snapshot.doc, Requested(id)))
       case None => Move(w, p, Requesting(id, attempts))
       case Some(saved) => Move(w, p, Resetting(id)).(campaign := saved))
    case TakeTime(p, now) => Move(w, p, Timed(w.calls[p].id, now))
    case ReadBreaker(p) =>
      var Timed(id, at) := w.calls[p];
      (match StateOf(w.observations)
       case Open(_, openedAt) => Move(w, p, Putting(id, at, openedAt))
       case Closed(resetAt) => Move(w, p, Completing(id, ATTEMPTS, resetAt)))
    case PutReset(p) =>
      var Putting(id, at, openedAt) := w.calls[p];
      Move(w, p, Completing(id, ATTEMPTS, Some(at))).(observations := Put(w.observations, Reset(at, openedAt)))
    case LoadCompletion(p) =>
      var Completing(id, attempts, resetAt) := w.calls[p];
      Move(w, p,
        if attempts == 0 then Idle
        else if HasCompletion(w.campaign.doc.events, id) then Returned(id)
        else SavingCompletion(id, attempts - 1, resetAt, w.campaign))
    case CommitCompletion(p) =>
      var SavingCompletion(id, attempts, resetAt, snapshot) := w.calls[p];
      (match Save(w.campaign, snapshot.version, Append(snapshot.doc, Completed(id, resetAt)))
       case None => Move(w, p, Completing(id, attempts, resetAt))
       case Some(saved) => Move(w, p, Returned(id)).(campaign := saved))
    case Crash(p) => Move(w, p, Idle)
    case OpenBreaker(at, reason) => w.(observations := Put(w.observations, Opened(at, reason)))
    case Other(stopped) =>
      w.(campaign := Record(Append(w.campaign.doc, OtherEvent).(stopped := stopped), w.campaign.version + 1))
  }

  ghost predicate Run(w: World, labels: seq<Label>, w': World)
    decreases |labels|
  {
    if labels == [] then w' == w
    else Enabled(w, labels[0]) && Run(Step(w, labels[0]), labels[1..], w')
  }

  predicate Initial(w: World) {
    w.campaign.doc.events == [] && w.observations == [] && forall p | 0 <= p < |w.calls| :: w.calls[p] == Idle
  }

  // ---------------------------------------------------------------- what every step keeps

  /** Each reset is requested at most once, completed at most once, and not completed before it was requested. */
  ghost predicate LogOk(events: seq<Event>) {
    && (forall i, j | 0 <= i < j < |events| && events[i].Requested? && events[j].Requested? ::
          events[i].id != events[j].id)
    && (forall i, j | 0 <= i < j < |events| && events[i].Completed? && events[j].Completed? ::
          events[i].id != events[j].id)
    && (forall j | 0 <= j < |events| && events[j].Completed? :: HasRequest(events[..j], events[j].id))
  }

  ghost predicate CallOk(w: World, c: Call) {
    && (c.Started? ==> c.seen <= w.campaign.doc.events)
    && (c.RequestCommitted() ==> HasRequest(w.campaign.doc.events, c.id))
    && (c.SavingRequest? || c.SavingCompletion? ==> Past(c.snapshot, w.campaign))
    && (c.SavingRequest? ==> !HasRequest(c.snapshot.doc.events, c.id))
    && (c.SavingCompletion? ==> !HasCompletion(c.snapshot.doc.events, c.id))
    && (c.Requesting? || c.SavingRequest? || c.RequestCommitted() ==> NamesOpening(w.observations, c.id))
    && (c.Putting? ==> WasOpened(w.observations, c.openedAt))
    && (c.Returned? ==> HasCompletion(w.campaign.doc.events, c.id))
  }

  ghost predicate Inv(w: World) {
    && LogOk(w.campaign.doc.events)
    && (forall p | 0 <= p < |w.calls| :: CallOk(w, w.calls[p]))
    && (forall e | e in w.campaign.doc.events && e.Requested? :: NamesOpening(w.observations, e.id))
    && (forall o | o in w.observations && o.Reset? :: WasOpened(w.observations, o.openedAt))
  }

  lemma AppendedReads(events: seq<Event>, e: Event)
    ensures forall id :: HasRequest(events + [e], id) <==> HasRequest(events, id) || e == Requested(id)
    ensures forall id :: HasCompletion(events + [e], id) <==> HasCompletion(events, id) || (e.Completed? && e.id == id)
  {
    var all := events + [e];
    assert all[|events|] == e;
    forall id ensures HasRequest(all, id) <==> HasRequest(events, id) || e == Requested(id) {
      if HasRequest(events, id) {
        var i :| 0 <= i < |events| && events[i] == Requested(id);
        assert all[i] == Requested(id);
      }
    }
    forall id ensures HasCompletion(all, id) <==> HasCompletion(events, id) || (e.Completed? && e.id == id) {
      if HasCompletion(events, id) {
        var i :| 0 <= i < |events| && events[i].Completed? && events[i].id == id;
        assert all[i].Completed?;
      }
    }
  }

  lemma AppendKeepsLog(events: seq<Event>, e: Event)
    requires LogOk(events)
    requires e.Requested? ==> !HasRequest(events, e.id)
    requires e.Completed? ==> HasRequest(events, e.id) && !HasCompletion(events, e.id)
    ensures LogOk(events + [e])
  {
    var all := events + [e];
    forall j | 0 <= j < |all| && all[j].Completed? ensures HasRequest(all[..j], all[j].id) {
      assert all[..j] == events[..j];
      if j == |events| { assert events[..j] == events; }
    }
  }

  lemma WriteKeepsInv(w: World, w': World, e: Event)
    requires Inv(w) && w'.campaign.doc.events == w.campaign.doc.events + [e]
    requires w'.campaign.version == w.campaign.version + 1 && w'.observations == w.observations
    requires LogOk(w'.campaign.doc.events) && (e.Requested? ==> NamesOpening(w.observations, e.id))
    requires forall p | 0 <= p < |w'.calls| :: CallOk(w, w'.calls[p]) || CallOk(w', w'.calls[p])
    ensures Inv(w')
  {
    AppendedReads(w.campaign.doc.events, e);
    forall p | 0 <= p < |w'.calls| ensures CallOk(w', w'.calls[p]) {}
    assert forall x | x in w.campaign.doc.events :: x in w'.campaign.doc.events;
  }

  lemma DecideKeepsInv(w: World, p: nat)
    requires Inv(w) && Enabled(w, Decide(p))
    ensures Inv(Step(w, Decide(p)))
  {
    var seen, events := w.calls[p].seen, w.campaign.doc.events;
    assert CallOk(w, w.calls[p]);
    OpenIsOnRecord(w.observations);
    if Pending(seen).Some? {
      var i :| 0 <= i < |seen| && seen[i] == Requested(Pending(seen).value);
      assert events[i] == seen[i];
    }
  }

  lemma CommitKeepsInv(w: World, l: Label)
    requires Inv(w) && Enabled(w, l) && (l.CommitRequest? || l.CommitCompletion?)
    ensures Inv(Step(w, l))
  {
    var w', events := Step(w, l), w.campaign.doc.events;
    var c := w.calls[l.call];
    assert CallOk(w, c);
    if c.snapshot.version != w.campaign.version {
    } else {
      var e := if l.CommitRequest? then Requested(c.id) else Completed(c.id, c.resetAt);
      AppendKeepsLog(events, e);
      AppendedReads(events, e);
      WriteKeepsInv(w, w', e);
    }
  }

  /** A new observation: an opening, or a reset of an opening on record. */
  lemma PutKeepsInv(w: World, w': World, o: Observation)
    requires Inv(w) && w'.campaign == w.campaign && w'.observations == Put(w.observations, o)
    requires o.Reset? ==> WasOpened(w.observations, o.openedAt)
    requires forall p | 0 <= p < |w'.calls| :: CallOk(w, w'.calls[p])
    ensures Inv(w')
  {
    assert forall x | x in w.observations :: x in w'.observations;
    forall at | WasOpened(w.observations, at) ensures WasOpened(w'.observations, at) {
      var reason :| Opened(at, reason) in w.observations;
      assert Opened(at, reason) in w'.observations;
    }
    forall p | 0 <= p < |w'.calls| ensures CallOk(w', w'.calls[p]) {
      assert CallOk(w, w'.calls[p]);
    }
  }

  lemma ReadKeepsInv(w: World, p: nat)
    requires Inv(w) && Enabled(w, ReadBreaker(p))
    ensures Inv(Step(w, ReadBreaker(p)))
  {
    assert CallOk(w, w.calls[p]);
    OpenIsOnRecord(w.observations);
    MoveKeepsInv(w, p, Step(w, ReadBreaker(p)).calls[p]);
  }

  lemma MoveKeepsInv(w: World, p: nat, c: Call)
    requires Inv(w) && p < |w.calls| && CallOk(w, c)
    ensures Inv(Move(w, p, c))
  {
    var w' := Move(w, p, c);
    forall q | 0 <= q < |w'.calls| ensures CallOk(w', w'.calls[q]) {
      assert CallOk(w, w'.calls[q]);
    }
  }

  lemma StepKeepsInv(w: World, l: Label)
    requires Inv(w) && Enabled(w, l)
    ensures Inv(Step(w, l))
  {
    var w' := Step(w, l);
    match l
    case Decide(p) => DecideKeepsInv(w, p);
    case CommitRequest(p) => CommitKeepsInv(w, l);
    case CommitCompletion(p) => CommitKeepsInv(w, l);
    case ReadBreaker(p) => ReadKeepsInv(w, p);
    case PutReset(p) =>
      assert CallOk(w, w.calls[p]) && CallOk(w, w'.calls[p]);
      PutKeepsInv(w, w', Reset(w.calls[p].at, w.calls[p].openedAt));
    case OpenBreaker(at, reason) => PutKeepsInv(w, w', Opened(at, reason));
    case Other(_) =>
      AppendKeepsLog(w.campaign.doc.events, OtherEvent);
      WriteKeepsInv(w, w', OtherEvent);
    case _ =>
      assert CallOk(w, w.calls[l.call]);
      MoveKeepsInv(w, l.call, w'.calls[l.call]);
  }

  lemma {:induction false} RunKeepsInv(w: World, labels: seq<Label>, w': World)
    requires Inv(w) && Run(w, labels, w')
    ensures Inv(w')
    decreases |labels|
  {
    if labels != [] {
      StepKeepsInv(w, labels[0]);
      RunKeepsInv(Step(w, labels[0]), labels[1..], w');
    }
  }

  // ---------------------------------------------------------------- what an operator may rely on

  /** In every interleaving a reset id is requested once, completed once, and requested first. */
  lemma ResetLifecycle(w: World, labels: seq<Label>, w': World)
    requires Initial(w) && Run(w, labels, w')
    ensures LogOk(w'.campaign.doc.events)
  {
    RunKeepsInv(w, labels, w');
  }

  /**
   The breaker is only ever reset by a call whose request is already on record; that request names a recorded
   opening, and so does the reset. The two openings differ when the request was pending from an earlier one.
   */
  lemma ResetNeedsRequest(w: World, l: Label, o: Observation)
    requires Inv(w) && Enabled(w, l) && o.Reset? && o !in w.observations && o in Step(w, l).observations
    ensures l.PutReset? && HasRequest(w.campaign.doc.events, w.calls[l.call].id)
    ensures NamesOpening(w.observations, w.calls[l.call].id)
    ensures o.openedAt == w.calls[l.call].openedAt && WasOpened(w.observations, o.openedAt)
  {
    if l.PutReset? { assert CallOk(w, w.calls[l.call]); }
  }

  /**
   When a crash left the breaker closed with a request pending, the next call, if nobody interferes,
   completes that very request and writes no further reset.
   */
  lemma ClosedBreakerCompletesPending(w: World, p: nat, id: ResetId) returns (labels: seq<Label>, w': World)
    requires Inv(w) && p < |w.calls| && w.calls[p].Idle? && !w.campaign.doc.stopped
    requires StateOf(w.observations).Closed? && Pending(w.campaign.doc.events) == Some(id)
    ensures labels == [Begin(p), Decide(p), LoadCompletion(p), CommitCompletion(p)] && Run(w, labels, w')
    ensures p < |w'.calls| && w'.calls[p] == Returned(id) && w'.observations == w.observations
    ensures w'.campaign.doc.events == w.campaign.doc.events + [Completed(id, StateOf(w.observations).resetAt)]
    ensures Pending(w'.campaign.doc.events) != Some(id)
  {
    labels := [Begin(p), Decide(p), LoadCompletion(p), CommitCompletion(p)];
    var w1 := Step(w, Begin(p));
    var w2 := Step(w1, Decide(p));
    var w3 := Step(w2, LoadCompletion(p));
    w' := Step(w3, CommitCompletion(p));
    assert Run(w', [], w');
    RunStep(w3, CommitCompletion(p), [], w');
    RunStep(w2, LoadCompletion(p), [CommitCompletion(p)], w');
    RunStep(w1, Decide(p), [LoadCompletion(p), CommitCompletion(p)], w');
    RunStep(w, Begin(p), [Decide(p), LoadCompletion(p), CommitCompletion(p)], w');
    AppendedReads(w.campaign.doc.events, Completed(id, StateOf(w.observations).resetAt));
  }

  lemma RunStep(w: World, l: Label, rest: seq<Label>, w': World)
    requires Enabled(w, l) && Run(Step(w, l), rest, w')
    ensures Run(w, [l] + rest, w')
  {
    assert ([l] + rest)[1..] == rest;
  }

  /** What a new observation does to the breaker: it counts unless an older one carries a later time. */
  lemma PutDecides(observations: seq<Observation>, o: Observation)
    requires o !in observations
    ensures var sorted := Sort(observations, ByTime);
      && |sorted| == |observations|
      && StateOf(Put(observations, o))
         == if observations == [] || ByTime(sorted[|sorted| - 1], o) then StateAfter(o) else StateOf(observations)
  {
    ByTimeOrder();
    SortKeepsMembers(observations, ByTime);
    if observations == [] {
      assert observations + [o] == [o];
    } else {
      SortLast(observations, ByTime);
      GreatestAppend(observations, o, ByTime);
    }
    SortLast(observations + [o], ByTime);
  }

  /**
   A reset closes the breaker exactly when its time, taken before it is written, is not earlier than that of
   the opening it meets; a late reset is recorded and its request completed while the breaker stays open.
   */
  lemma ResetClosesExactly(observations: seq<Observation>, at: string, openedAt: string)
    requires StateOf(observations).Open?
    ensures var state, state' := StateOf(observations), StateOf(Put(observations, Reset(at, openedAt)));
      if Reset(at, openedAt) !in observations && TextOrder.Leq(state.openedAt, at) then state' == Closed(Some(at))
      else state' == state
  {
    if Reset(at, openedAt) !in observations { PutDecides(observations, Reset(at, openedAt)); }
  }

  // ---------------------------------------------------------------- calls that nobody disturbs

  /** A call brings its request on record, unless it is there. */
  lemma UndisturbedRequest(w: World, p: nat, id: ResetId) returns (labels: seq<Label>, w': World)
    requires p < |w.calls| && w.calls[p] == Requesting(id, ATTEMPTS)
    ensures Run(w, labels, w')
    ensures w'.observations == w.observations && w'.calls == w.calls[p := Resetting(id)]
    ensures w'.campaign.doc.stopped == w.campaign.doc.stopped
    ensures var events := w.campaign.doc.events;
      w'.campaign.doc.events == if HasRequest(events, id) then events else events + [Requested(id)]
  {
    var w1 := Step(w, LoadRequest(p));
    if HasRequest(w.campaign.doc.events, id) {
      labels, w' := [LoadRequest(p)], w1;
      assert Run(w1, [], w1);
      RunStep(w, LoadRequest(p), [], w1);
    } else {
      labels, w' := [LoadRequest(p)] + [CommitRequest(p)], Step(w1, CommitRequest(p));
      assert Run(w', [], w');
      RunStep(w1, CommitRequest(p), [], w');
      RunStep(w, LoadRequest(p), [CommitRequest(p)], w');
    }
  }

  /** A call brings its completion on record, unless it is there. */
  lemma UndisturbedCompletion(w: World, p: nat, id: ResetId, resetAt: Option<string>)
    returns (labels: seq<Label>, w': World)
    requires p < |w.calls| && w.calls[p] == Completing(id, ATTEMPTS, resetAt)
    ensures Run(w, labels, w')
    ensures w'.observations == w.observations && w'.calls == w.calls[p := Returned(id)]
    ensures var events := w.campaign.doc.events;
      w'.campaign.doc.events == if HasCompletion(events, id) then events else events + [Completed(id, resetAt)]
  {
    var w1 := Step(w, LoadCompletion(p));
    if HasCompletion(w.campaign.doc.events, id) {
      labels, w' := [LoadCompletion(p)], w1;
      assert Run(w1, [], w1);
      RunStep(w, LoadCompletion(p), [], w1);
    } else {
      labels, w' := [LoadCompletion(p)] + [CommitCompletion(p)], Step(w1, CommitCompletion(p));
      assert Run(w', [], w');
      RunStep(w1, CommitCompletion(p), [], w');
      RunStep(w, LoadCompletion(p), [CommitCompletion(p)], w');
    }
  }

  lemma TimedReset(w: World, p: nat) returns (w': World)
    requires p < |w.calls| && w.calls[p].Timed? && StateOf(w.observations).Open?
    ensures Run(w, [ReadBreaker(p), PutReset(p)], w') && w'.campaign == w.campaign
    ensures w'.observations == Put(w.observations, Reset(w.calls[p].at, StateOf(w.observations).openedAt))
    ensures w'.calls == w.calls[p := Completing(w.calls[p].id, ATTEMPTS, Some(w.calls[p].at))]
  {
    var w1 := Step(w, ReadBreaker(p));
    w' := Step(w1, PutReset(p));
    assert Run(w', [], w');
    RunStep(w1, PutReset(p), [], w');
    RunStep(w, ReadBreaker(p), [PutReset(p)], w');
  }

  lemma UndisturbedReset(w: World, p: nat, id: ResetId, now: string) returns (labels: seq<Label>, w': World)
    requires p < |w.calls| && w.calls[p] == Resetting(id) && StateOf(w.observations).Open?
    ensures Run(w, labels, w') && w'.campaign == w.campaign
    ensures w'.observations == Put(w.observations, Reset(now, StateOf(w.observations).openedAt))
    ensures w'.calls == w.calls[p := Completing(id, ATTEMPTS, Some(now))]
  {
    w' := TimedReset(Step(w, TakeTime(p, now)), p);
    labels := [TakeTime(p, now)] + [ReadBreaker(p), PutReset(p)];
    RunStep(w, TakeTime(p, now), [ReadBreaker(p), PutReset(p)], w');
  }

  /** The id an undisturbed call works under: a pending one first, whatever opening is current. */
  function WorkingId(w: World): ResetId
    requires StateOf(w.observations).Open?
  {
    var pending, state := Pending(w.campaign.doc.events), StateOf(w.observations);
    if pending.Some? then pending.value else ResetId(state.openedAt, state.reason)
  }

  lemma UndisturbedStart(w: World, p: nat) returns (w': World)
    requires p < |w.calls| && w.calls[p].Idle? && !w.campaign.doc.stopped && StateOf(w.observations).Open?
    ensures Run(w, [Begin(p), Decide(p)], w') && w' == Move(w, p, Requesting(WorkingId(w), ATTEMPTS))
  {
    var w1 := Step(w, Begin(p));
    w' := Step(w1, Decide(p));
    assert Run(w', [], w');
    RunStep(w1, Decide(p), [], w');
    RunStep(w, Begin(p), [Decide(p)], w');
  }

  lemma {:induction false} RunThenRun(w: World, first: seq<Label>, mid: World, second: seq<Label>, w': World)
    requires Run(w, first, mid) && Run(mid, second, w')
    ensures Run(w, first + second, w')
    decreases |first|
  {
    if first == [] {
      assert first + second == second;
    } else {
      RunThenRun(Step(w, first[0]), first[1..], mid, second, w');
      assert (first + second)[1..] == first[1..] + second;
    }
  }

  /** What a call working under `id` leaves on record. */
  function Finished(events: seq<Event>, id: ResetId, resetAt: Option<string>): seq<Event> {
    var requested := if HasRequest(events, id) then events else events + [Requested(id)];
    if HasCompletion(events, id) then requested else requested + [Completed(id, resetAt)]
  }

  lemma UndisturbedWork(w: World, p: nat, id: ResetId, now: string) returns (labels: seq<Label>, w': World)
    requires p < |w.calls| && w.calls[p] == Requesting(id, ATTEMPTS) && StateOf(w.observations).Open?
    ensures Run(w, labels, w') && w'.calls == w.calls[p := Returned(id)]
    ensures w'.observations == Put(w.observations, Reset(now, StateOf(w.observations).openedAt))
    ensures w'.campaign.doc.events == Finished(w.campaign.doc.events, id, Some(now))
  {
    var first, w1 := UndisturbedRequest(w, p, id);
    var second, w2 := UndisturbedReset(w1, p, id, now);
    var third;
    third, w' := UndisturbedCompletion(w2, p, id, Some(now));
    RunThenRun(w1, second, w2, third, w');
    RunThenRun(w, first, w1, second + third, w');
    labels := first + (second + third);
    AppendedReads(w.campaign.doc.events, Requested(id));
    assert w'.calls == w.calls[p := Returned(id)];
  }

  /**
   With the breaker open, the next call, if nobody interferes, resets the opening it finds. It works under
   the pending request if a crash left one, even one of an earlier opening, and under its own otherwise.
   What it has to write to the log is what is missing there: nothing is requested or completed twice.
   */
  lemma OpenBreakerIsReset(w: World, p: nat, now: string) returns (labels: seq<Label>, w': World)
    requires p < |w.calls| && w.calls[p].Idle? && !w.campaign.doc.stopped && StateOf(w.observations).Open?
    ensures Run(w, labels, w') && w'.calls == w.calls[p := Returned(WorkingId(w))]
    ensures w'.observations == Put(w.observations, Reset(now, StateOf(w.observations).openedAt))
    ensures w'.campaign.doc.events == Finished(w.campaign.doc.events, WorkingId(w), Some(now))
    ensures Pending(w.campaign.doc.events).Some? ==>
      w'.campaign.doc.events == w.campaign.doc.events + [Completed(WorkingId(w), Some(now))]
  {
    var w1 := UndisturbedStart(w, p);
    var rest;
    rest, w' := UndisturbedWork(w1, p, WorkingId(w), now);
    labels := [Begin(p), Decide(p)] + rest;
    RunThenRun(w, [Begin(p), Decide(p)], w1, rest, w');
  }

  // ---------------------------------------------------------------- a reset that comes too late

  lemma OpenIsLatest(observations: seq<Observation>, o: Observation)
    requires StateOf(observations).Open? && o in observations
    ensures TextOrder.Leq(o.at, StateOf(observations).openedAt)
  {
    ByTimeOrder();
    SortKeepsMembers(observations, ByTime);
    SortOrders(observations, ByTime);
    var sorted := Sort(observations, ByTime);
    assert o in sorted;
    var i :| 0 <= i < |sorted| && sorted[i] == o;
    if i == |sorted| - 1 { TextOrder.Total(o.at, o.at); } else { assert ByTime(sorted[i], sorted[|sorted| - 1]); }
  }

  /** A run in which no reset is written and, as `record_circuit_open` checks, no open breaker is opened again. */
  ghost predicate QuietRun(w: World, labels: seq<Label>, w': World)
    decreases |labels|
  {
    if labels == [] then w' == w
    else
      && Enabled(w, labels[0]) && !labels[0].PutReset?
      && (labels[0].OpenBreaker? ==> StateOf(w.observations).Closed?)
      && QuietRun(Step(w, labels[0]), labels[1..], w')
  }

  lemma {:induction false} QuietRunKeepsObservations(w: World, labels: seq<Label>, w': World)
    requires QuietRun(w, labels, w') && StateOf(w.observations).Open?
    ensures w'.observations == w.observations
    decreases |labels|
  {
    if labels != [] {
      assert Step(w, labels[0]).observations == w.observations;
      QuietRunKeepsObservations(Step(w, labels[0]), labels[1..], w');
    }
  }

  /**
   One reset in flight and one clock: when the time a call takes is later than that of the opening, and no
   other reset is written before its own, the breaker is closed by it.
   */
  lemma LoneResetCloses(w: World, p: nat, labels: seq<Label>, w': World)
    requires p < |w.calls| && w.calls[p].Timed? && StateOf(w.observations).Open?
    requires !TextOrder.Leq(w.calls[p].at, StateOf(w.observations).openedAt)
    requires QuietRun(w, labels, w')
    requires p < |w'.calls| && w'.calls[p].Putting? && w'.calls[p].at == w.calls[p].at
    ensures StateOf(Step(w', PutReset(p)).observations) == Closed(Some(w.calls[p].at))
  {
    var at, openedAt := w.calls[p].at, w'.calls[p].openedAt;
    QuietRunKeepsObservations(w, labels, w');
    if Reset(at, openedAt) in w.observations { OpenIsLatest(w.observations, Reset(at, openedAt)); }
    TextOrder.Total(at, StateOf(w.observations).openedAt);
    ResetClosesExactly(w.observations, at, openedAt);
  }

  /** A call up to the time it takes, undisturbed. */
  lemma UndisturbedTiming(w: World, p: nat, now: string) returns (labels: seq<Label>, w': World)
    requires p < |w.calls| && w.calls[p].Idle? && !w.campaign.doc.stopped && StateOf(w.observations).Open?
    ensures Run(w, labels, w') && w'.calls == w.calls[p := Timed(WorkingId(w), now)]
    ensures w'.observations == w.observations && w'.campaign.doc.stopped == w.campaign.doc.stopped
    ensures var events := w.campaign.doc.events;
      w'.campaign.doc.events
        == if HasRequest(events, WorkingId(w)) then events else events + [Requested(WorkingId(w))]
  {
    var w1 := UndisturbedStart(w, p);
    var second, w2 := UndisturbedRequest(w1, p, WorkingId(w));
    w' := Step(w2, TakeTime(p, now));
    assert Run(w', [], w');
    RunStep(w2, TakeTime(p, now), [], w');
    RunThenRun(w1, second, w2, [TakeTime(p, now)], w');
    RunThenRun(w, [Begin(p), Decide(p)], w1, second + [TakeTime(p, now)], w');
    labels := [Begin(p), Decide(p)] + (second + [TakeTime(p, now)]);
    assert w'.calls == w.calls[p := Timed(WorkingId(w), now)];
  }

  /** Two calls reset one opening: the first has taken its time when the second resets the breaker. */
  lemma TwoResetsInFlight(w: World, id: ResetId, first: string, second: string)
    returns (labels: seq<Label>, w': World)
    requires w.calls == [Idle, Idle] && !w.campaign.doc.stopped && StateOf(w.observations).Open?
    requires WorkingId(w) == id && w.campaign.doc.events == []
    ensures Run(w, labels, w') && w'.calls == [Timed(id, first), Completing(id, ATTEMPTS, Some(second))]
    ensures w'.campaign.doc.events == [Requested(id)]
    ensures w'.observations == Put(w.observations, Reset(second, StateOf(w.observations).openedAt))
  {
    var begun, w1 := UndisturbedTiming(w, 0, first);
    assert w1.calls == [Timed(id, first), Idle] && w1.campaign.doc.events == [Requested(id)];
    SecondCallFindsPending(w1, id);
    var timed, w2 := UndisturbedTiming(w1, 1, second);
    w' := TimedReset(w2, 1);
    RunThenRun(w1, timed, w2, [ReadBreaker(1), PutReset(1)], w');
    labels := begun + (timed + [ReadBreaker(1), PutReset(1)]);
    RunThenRun(w, begun, w1, timed + [ReadBreaker(1), PutReset(1)], w');
  }

  lemma SecondCallFindsPending(w: World, id: ResetId)
    requires w.campaign.doc.events == [Requested(id)] && StateOf(w.observations).Open?
    ensures WorkingId(w) == id && HasRequest(w.campaign.doc.events, id)
  {
    assert w.campaign.doc.events[0] == Requested(id);
  }

  /**
   Two resets in flight: the breaker was closed at "3" and has been opened again at "4" when the call with the
   time "2" reads it. That call writes a reset of the opening at "4", records the completion and returns, as
   does the other; the breaker was not opened again, and it is open.
   */
  lemma LateResetExample(w: World) returns (labels: seq<Label>, mid: World, rest: seq<Label>, w': World)
    requires Initial(w) && w.calls == [Idle, Idle] && !w.campaign.doc.stopped
    ensures Run(w, labels, mid) && |mid.calls| == 2 && mid.calls[0] == Putting(ResetId("1", "r"), "2", "4")
    ensures rest == [PutReset(0), LoadCompletion(0), CommitCompletion(0), LoadCompletion(1)] && Run(mid, rest, w')
    ensures w'.observations == [Opened("1", "r"), Reset("3", "1"), Opened("4", "r"), Reset("2", "4")]
    ensures w'.calls == [Returned(ResetId("1", "r")), Returned(ResetId("1", "r"))]
    ensures w'.campaign.doc.events == [Requested(ResetId("1", "r")), Completed(ResetId("1", "r"), Some("2"))]
    ensures StateOf(w'.observations) == Open("r", "4")
  {
    var w1 := Step(w, OpenBreaker("1", "r"));
    OpenedOnce();
    assert w1.observations == [Opened("1", "r")];
    var first, w2 := TwoResetsInFlight(w1, ResetId("1", "r"), "2", "3");
    RunStep(w, OpenBreaker("1", "r"), first, w2);
    mid := OpenedAgain(w2, 0, "4", "r");
    RunThenRun(w, [OpenBreaker("1", "r")] + first, w2, [OpenBreaker("4", "r"), ReadBreaker(0)], mid);
    labels := [OpenBreaker("1", "r")] + first + [OpenBreaker("4", "r"), ReadBreaker(0)];
    rest, w' := LateCompletion(mid);
    ResetClosesExactly(mid.observations, "2", "4");
  }

  lemma OpenedOnce()
    ensures StateOf([Opened("1", "r")]) == Open("r", "1")
    ensures StateOf([Opened("1", "r"), Reset("3", "1")]) == Closed(Some("3"))
  {
    PutDecides([], Opened("1", "r"));
    assert [] + [Opened("1", "r")] == [Opened("1", "r")];
    ResetClosesExactly([Opened("1", "r")], "3", "1");
    assert [Opened("1", "r")] + [Reset("3", "1")] == [Opened("1", "r"), Reset("3", "1")];
  }

  /** A closed breaker is opened later than it was closed, and then read by the call that took its time before. */
  lemma OpenedAgain(w: World, p: nat, at: string, reason: string) returns (w': World)
    requires p < |w.calls| && w.calls[p].Timed? && Opened(at, reason) !in w.observations
    requires var state := StateOf(w.observations);
      state.Closed? && state.resetAt.Some? && TextOrder.Leq(state.resetAt.value, at)
    ensures Run(w, [OpenBreaker(at, reason), ReadBreaker(p)], w') && w'.campaign == w.campaign
    ensures w'.observations == w.observations + [Opened(at, reason)]
    ensures StateOf(w'.observations) == Open(reason, at)
    ensures w'.calls == w.calls[p := Putting(w.calls[p].id, w.calls[p].at, at)]
  {
    var w1 := Step(w, OpenBreaker(at, reason));
    PutDecides(w.observations, Opened(at, reason));
    w' := Step(w1, ReadBreaker(p));
    assert Run(w', [], w');
    RunStep(w1, ReadBreaker(p), [], w');
    RunStep(w, OpenBreaker(at, reason), [ReadBreaker(p)], w');
  }

  lemma LateCompletion(w: World) returns (labels: seq<Label>, w': World)
    requires w.calls == [Putting(ResetId("1", "r"), "2", "4"), Completing(ResetId("1", "r"), ATTEMPTS, Some("3"))]
    requires w.campaign.doc.events == [Requested(ResetId("1", "r"))] && Reset("2", "4") !in w.observations
    ensures labels == [PutReset(0), LoadCompletion(0), CommitCompletion(0), LoadCompletion(1)] && Run(w, labels, w')
    ensures w'.observations == w.observations + [Reset("2", "4")]
    ensures w'.calls == [Returned(ResetId("1", "r")), Returned(ResetId("1", "r"))]
    ensures w'.campaign.doc.events == [Requested(ResetId("1", "r")), Completed(ResetId("1", "r"), Some("2"))]
  {
    var w1 := Step(w, PutReset(0));
    var w2 := Step(w1, LoadCompletion(0));
    var w3 := Step(w2, CommitCompletion(0));
    assert w3.campaign.doc.events[1] == Completed(ResetId("1", "r"), Some("2"));
    w' := Step(w3, LoadCompletion(1));
    assert Run(w', [], w');
    RunStep(w3, LoadCompletion(1), [], w');
    RunStep(w2, CommitCompletion(0), [LoadCompletion(1)], w');
    RunStep(w1, LoadCompletion(0), [CommitCompletion(0), LoadCompletion(1)], w');
    RunStep(w, PutReset(0), [LoadCompletion(0), CommitCompletion(0), LoadCompletion(1)], w');
    labels := [PutReset(0), LoadCompletion(0), CommitCompletion(0), LoadCompletion(1)];
  }
}
