/** What a queueing call writes, how long it competes for the campaign log, and where it stops (browser.py). */
module BrowserRetries {
  import opened Wrappers
  import opened VersionedLog
  import opened ApiOutbox
  import opened BrowserOutbox

  // ---------------------------------------------------------------- the events of one call

  /** A flow without a pending request is requested under the new id, at the time of the call. */
  lemma RequestIsWritten(w: World, p: nat, f: Flow, token: string, now: string)
    requires Enabled(w, CommitRequest(p, token, now)) && w.calls[p] == Reading(f, w.campaign)
    requires PendingFor(w.campaign.doc.events, f) == None && !IsRequested(w.campaign.doc.events, token, f)
    ensures var w' := Step(w, CommitRequest(p, token, now));
      && w'.campaign.doc.events == w.campaign.doc.events
           + [Event(BrowserFlowRequested, map[RequestId := token, FlowFingerprint := f, At := now])]
      && w'.calls == w.calls[p := Checking(f, token)]
      && w'.jobs == w.jobs && w'.campaign.doc.stopped == w.campaign.doc.stopped && token in w'.used
  {
  }

  /** Saving the outcome names the request, the flow and the job, at the time of the save. */
  lemma CompletionIsWritten(w: World, p: nat, now: string)
    requires Enabled(w, CommitQueued(p, now)) && w.calls[p].snapshot == w.campaign
    ensures var w', c := Step(w, CommitQueued(p, now)), w.calls[p];
      && w'.campaign.doc.events == w.campaign.doc.events
           + [Event(BrowserFlowQueued,
                    map[RequestId := c.request, FlowFingerprint := c.flow, JobId := c.job, At := now])]
      && w'.calls == w.calls[p := Returned(c.flow, c.request, c.job)]
      && w'.jobs == w.jobs && w'.campaign.doc.stopped == w.campaign.doc.stopped
  {
  }

  /** A request that was overtaken ends the call: nothing is written, and no id is used up. */
  lemma OvertakenRequestIsDropped(w: World, p: nat, token: string, now: string)
    requires Enabled(w, CommitRequest(p, token, now)) && w.calls[p].snapshot.version != w.campaign.version
    requires var events, f := w.calls[p].snapshot.doc.events, w.calls[p].flow;
      PendingFor(events, f) == None && !IsRequested(events, token, f)
    ensures Step(w, CommitRequest(p, token, now)) == w.(calls := w.calls[p := Idle])
  {
  }

  // ---------------------------------------------------------------- losing every race

  /** A save is overtaken: the call loads, somebody else writes, and the save is refused. */
  function LostTry(p: nat, e: Event, stopped: bool, now: string): seq<Label> {
    [Reload(p), Other(e, stopped), CommitQueued(p, now)]
  }

  function LostTries(p: nat, e: Event, stopped: bool, now: string, n: nat): seq<Label> {
    if n == 0 then [] else LostTry(p, e, stopped, now) + LostTries(p, e, stopped, now, n - 1)
  }

  /** The log after others have written to it `n` times. */
  function OthersWrote(c: Campaign, e: Event, stopped: bool, n: nat): Campaign
    decreases n
  {
    if n == 0 then c else OthersWrote(Campaign(c.events + [e], stopped), e, stopped, n - 1)
  }

  predicate ByAnother(e: Event) {
    e.eventType != BrowserFlowRequested && e.eventType != BrowserFlowQueued
  }

  lemma StillNotQueued(events: seq<Event>, e: Event, r: string, f: Flow, job: string)
    requires ByAnother(e) && !IsQueued(events, r, f, job)
    ensures !IsQueued(events + [e], r, f, job)
  {
    var identity := map[RequestId := r, FlowFingerprint := f, JobId := job];
    forall i | 0 <= i < |events + [e]| && (events + [e])[i].eventType == BrowserFlowQueued
      ensures !Matches((events + [e])[i], identity)
    {
      assert i < |events| && events[i] == (events + [e])[i];
    }
  }

  lemma LosesOneTry(w: World, p: nat, f: Flow, r: string, job: string, attempts: nat, e: Event, stopped: bool,
                    now: string)
    returns (w': World)
    requires p < |w.calls| && w.calls[p] == Reconciling(f, r, job, attempts) && attempts > 0 && ByAnother(e)
    requires !IsQueued(w.campaign.doc.events, r, f, job)
    ensures Run(w, LostTry(p, e, stopped, now), w') && w'.jobs == w.jobs && w'.used == w.used
    ensures w'.campaign.doc == Campaign(w.campaign.doc.events + [e], stopped)
    ensures w'.calls == w.calls[p := Reconciling(f, r, job, attempts - 1)]
    ensures !IsQueued(w'.campaign.doc.events, r, f, job)
  {
    var w1 := Step(w, Reload(p));
    var w2 := Step(w1, Other(e, stopped));
    w' := Step(w2, CommitQueued(p, now));
    assert Run(w', [], w');
    RunStep(w2, CommitQueued(p, now), [], w');
    RunStep(w1, Other(e, stopped), [CommitQueued(p, now)], w');
    RunStep(w, Reload(p), [Other(e, stopped), CommitQueued(p, now)], w');
    StillNotQueued(w.campaign.doc.events, e, r, f, job);
  }

  lemma {:induction false} Loses(w: World, p: nat, f: Flow, r: string, job: string, attempts: nat, e: Event,
                                 stopped: bool, now: string, n: nat)
    returns (w': World)
    requires p < |w.calls| && w.calls[p] == Reconciling(f, r, job, attempts) && n <= attempts && ByAnother(e)
    requires !IsQueued(w.campaign.doc.events, r, f, job)
    ensures Run(w, LostTries(p, e, stopped, now, n), w') && w'.jobs == w.jobs && w'.used == w.used
    ensures w'.campaign.doc == OthersWrote(w.campaign.doc, e, stopped, n)
    ensures w'.calls == w.calls[p := Reconciling(f, r, job, attempts - n)]
    ensures !IsQueued(w'.campaign.doc.events, r, f, job)
    decreases n
  {
    if n == 0 {
      w' := w;
    } else {
      var w1 := LosesOneTry(w, p, f, r, job, attempts, e, stopped, now);
      w' := Loses(w1, p, f, r, job, attempts - 1, e, stopped, now, n - 1);
      RunThenRun(w, LostTry(p, e, stopped, now), w1, LostTries(p, e, stopped, now, n - 1), w');
    }
  }

  /** The job behind a request: the one the queue already has under its key, or the new one. */
  function JobBehind(w: World, r: string, id: string): string {
    if DedupeKey(r) in w.jobs then w.jobs[DedupeKey(r)].id else id
  }

  /**
   Three lost saves end a call with its job in the queue and its request still open; the log has only what
   others wrote to it.
   */
  lemma ThirdLostSaveGivesUp(w: World, p: nat, f: Flow, r: string, id: string, e: Event, stopped: bool, now: string)
    returns (w': World)
    requires Enabled(w, Enqueue(p, id)) && w.calls[p] == Enqueuing(f, r) && ByAnother(e)
    requires DedupeKey(r) in w.jobs ==> w.jobs[DedupeKey(r)].payload == f
    requires !IsQueued(w.campaign.doc.events, r, f, JobBehind(w, r, id))
    ensures Run(w, [Enqueue(p, id)] + (LostTries(p, e, stopped, now, 3) + [Reload(p)]), w')
    ensures w'.calls == w.calls[p := Idle] && w'.campaign.doc == OthersWrote(w.campaign.doc, e, stopped, 3)
    ensures w'.jobs == w.jobs[DedupeKey(r) := Job(JobBehind(w, r, id), f)] && w'.used == w.used
  {
    var job := JobBehind(w, r, id);
    var w1 := Step(w, Enqueue(p, id));
    assert w1.calls[p] == Reconciling(f, r, job, ATTEMPTS);
    var w2 := Loses(w1, p, f, r, job, ATTEMPTS, e, stopped, now, 3);
    w' := Step(w2, Reload(p));
    assert Run(w', [], w');
    RunStep(w2, Reload(p), [], w');
    RunThenRun(w1, LostTries(p, e, stopped, now, 3), w2, [Reload(p)], w');
    RunStep(w, Enqueue(p, id), LostTries(p, e, stopped, now, 3) + [Reload(p)], w');
  }

  /** After two lost saves the third may still record the outcome. */
  lemma ThirdSaveMaySucceed(w: World, p: nat, f: Flow, r: string, id: string, e: Event, stopped: bool, now: string)
    returns (w': World)
    requires Enabled(w, Enqueue(p, id)) && w.calls[p] == Enqueuing(f, r) && ByAnother(e)
    requires DedupeKey(r) in w.jobs ==> w.jobs[DedupeKey(r)].payload == f
    requires !IsQueued(w.campaign.doc.events, r, f, JobBehind(w, r, id))
    ensures Run(w, [Enqueue(p, id)] + (LostTries(p, e, stopped, now, 2) + [Reload(p), CommitQueued(p, now)]), w')
    ensures w'.calls == w.calls[p := Returned(f, r, JobBehind(w, r, id))]
    ensures w'.campaign.doc.events == OthersWrote(w.campaign.doc, e, stopped, 2).events
      + [Event(BrowserFlowQueued, map[RequestId := r, FlowFingerprint := f, JobId := JobBehind(w, r, id), At := now])]
  {
    var job := JobBehind(w, r, id);
    var w1 := Step(w, Enqueue(p, id));
    assert w1.calls[p] == Reconciling(f, r, job, ATTEMPTS);
    var w2 := Loses(w1, p, f, r, job, ATTEMPTS, e, stopped, now, 2);
    var w3 := Step(w2, Reload(p));
    w' := Step(w3, CommitQueued(p, now));
    assert Run(w', [], w');
    RunStep(w3, CommitQueued(p, now), [], w');
    RunStep(w2, Reload(p), [CommitQueued(p, now)], w');
    RunThenRun(w1, LostTries(p, e, stopped, now, 2), w2, [Reload(p), CommitQueued(p, now)], w');
    RunStep(w, Enqueue(p, id), LostTries(p, e, stopped, now, 2) + [Reload(p), CommitQueued(p, now)], w');
  }

  // ---------------------------------------------------------------- where a call stops

  /** A stopped campaign refuses a new call and a call that has its request, and its queue stays as it is. */
  lemma StoppedCampaignQueuesNothing(w: World, p: nat, f: Flow, e: Event, stopped: bool)
    requires Enabled(w, Other(e, stopped)) && p < |w.calls|
    ensures var w1 := Step(w, Other(e, stopped));
      && w1.jobs == w.jobs && w1.calls == w.calls && w1.campaign.doc.events == w.campaign.doc.events + [e]
      && (Enabled(w1, Start(p, f)) ==>
            Step(w1, Start(p, f)) == Move(w1, p, if stopped then Idle else Reading(f, w1.campaign)))
      && (w.calls[p].Checking? ==>
            Step(w1, Recheck(p))
              == Move(w1, p, if stopped then Idle else Enqueuing(w.calls[p].flow, w.calls[p].request)))
  {
  }

  /** A key that the queue holds with another payload is refused, and the queue keeps it. */
  lemma OtherPayloadIsRefused(w: World, p: nat, f: Flow, r: string, id: string)
    requires Enabled(w, Enqueue(p, id)) && w.calls[p] == Enqueuing(f, r)
    requires DedupeKey(r) in w.jobs && w.jobs[DedupeKey(r)].payload != f
    ensures Step(w, Enqueue(p, id)) == w.(calls := w.calls[p := Idle])
  {
  }

  predicate Busy(c: Call) {
    c.Reading? || c.Checking? || c.Enqueuing? || c.Reconciling? || c.Saving?
  }

  /** A call begins only where none is under way; a crash may end any. */
  lemma BusyCallsDoNotRestart(w: World, p: nat, f: Flow)
    requires p < |w.calls| && f != ""
    ensures Enabled(w, Start(p, f)) <==> !Busy(w.calls[p])
    ensures Enabled(w, Crash(p)) && Step(w, Crash(p)) == w.(calls := w.calls[p := Idle])
  {
  }
}
