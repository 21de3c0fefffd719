/** How long a reset call competes for the campaign log, and where it stops (campaign_control.py). */
module BreakerRetries {
  import opened Wrappers
  import opened VersionedLog
  import opened Breaker

  /** Every save is overtaken: the call loads, somebody else writes, and the save is refused. */
  function LostTry(p: nat, asking: bool, stopped: bool): seq<Label> {
    if asking then [LoadRequest(p), Other(stopped), CommitRequest(p)]
    else [LoadCompletion(p), Other(stopped), CommitCompletion(p)]
  }

  function LostTries(p: nat, asking: bool, stopped: bool, n: nat): seq<Label> {
    if n == 0 then [] else LostTry(p, asking, stopped) + LostTries(p, asking, stopped, n - 1)
  }

  /** The log after others have written to it `n` times. */
  function OthersWrote(c: Campaign, n: nat, stopped: bool): Campaign
    decreases n
  {
    if n == 0 then c else OthersWrote(Campaign(c.events + [OtherEvent], stopped), n - 1, stopped)
  }

  lemma RequestLosesOneTry(w: World, p: nat, id: ResetId, attempts: nat, stopped: bool) returns (w': World)
    requires p < |w.calls| && w.calls[p] == Requesting(id, attempts) && attempts > 0
    requires !HasRequest(w.campaign.doc.events, id)
    ensures Run(w, LostTry(p, true, stopped), w') && w'.observations == w.observations
    ensures w'.campaign.doc == Campaign(w.campaign.doc.events + [OtherEvent], stopped)
    ensures w'.calls == w.calls[p := Requesting(id, attempts - 1)] && !HasRequest(w'.campaign.doc.events, id)
  {
    var w1 := Step(w, LoadRequest(p));
    var w2 := Step(w1, Other(stopped));
    w' := Step(w2, CommitRequest(p));
    assert Run(w', [], w');
    RunStep(w2, CommitRequest(p), [], w');
    RunStep(w1, Other(stopped), [CommitRequest(p)], w');
    RunStep(w, LoadRequest(p), [Other(stopped), CommitRequest(p)], w');
    AppendedReads(w.campaign.doc.events, OtherEvent);
  }

  lemma CompletionLosesOneTry(w: World, p: nat, id: ResetId, attempts: nat, resetAt: Option<string>, stopped: bool)
    returns (w': World)
    requires p < |w.calls| && w.calls[p] == Completing(id, attempts, resetAt) && attempts > 0
    requires !HasCompletion(w.campaign.doc.events, id)
    ensures Run(w, LostTry(p, false, stopped), w') && w'.observations == w.observations
    ensures w'.campaign.doc == Campaign(w.campaign.doc.events + [OtherEvent], stopped)
    ensures w'.calls == w.calls[p := Completing(id, attempts - 1, resetAt)]
    ensures !HasCompletion(w'.campaign.doc.events, id)
  {
    var w1 := Step(w, LoadCompletion(p));
    var w2 := Step(w1, Other(stopped));
    w' := Step(w2, CommitCompletion(p));
    assert Run(w', [], w');
    RunStep(w2, CommitCompletion(p), [], w');
    RunStep(w1, Other(stopped), [CommitCompletion(p)], w');
    RunStep(w, LoadCompletion(p), [Other(stopped), CommitCompletion(p)], w');
    AppendedReads(w.campaign.doc.events, OtherEvent);
  }

  lemma {:induction false} RequestLoses(w: World, p: nat, id: ResetId, attempts: nat, n: nat, stopped: bool)
    returns (w': World)
    requires p < |w.calls| && w.calls[p] == Requesting(id, attempts) && n <= attempts
    requires !HasRequest(w.campaign.doc.events, id)
    ensures Run(w, LostTries(p, true, stopped, n), w') && w'.observations == w.observations
    ensures w'.campaign.doc == OthersWrote(w.campaign.doc, n, stopped)
    ensures w'.calls == w.calls[p := Requesting(id, attempts - n)] && !HasRequest(w'.campaign.doc.events, id)
    decreases n
  {
    if n == 0 {
      w' := w;
    } else {
      var w1 := RequestLosesOneTry(w, p, id, attempts, stopped);
      w' := RequestLoses(w1, p, id, attempts - 1, n - 1, stopped);
      RunThenRun(w, LostTry(p, true, stopped), w1, LostTries(p, true, stopped, n - 1), w');
    }
  }

  lemma {:induction false} CompletionLoses(
      w: World, p: nat, id: ResetId, attempts: nat, resetAt: Option<string>, n: nat, stopped: bool)
    returns (w': World)
    requires p < |w.calls| && w.calls[p] == Completing(id, attempts, resetAt) && n <= attempts
    requires !HasCompletion(w.campaign.doc.events, id)
    ensures Run(w, LostTries(p, false, stopped, n), w') && w'.observations == w.observations
    ensures w'.campaign.doc == OthersWrote(w.campaign.doc, n, stopped)
    ensures w'.calls == w.calls[p := Completing(id, attempts - n, resetAt)]
    ensures !HasCompletion(w'.campaign.doc.events, id)
    decreases n
  {
    if n == 0 {
      w' := w;
    } else {
      var w1 := CompletionLosesOneTry(w, p, id, attempts, resetAt, stopped);
      w' := CompletionLoses(w1, p, id, attempts - 1, resetAt, n - 1, stopped);
      RunThenRun(w, LostTry(p, false, stopped), w1, LostTries(p, false, stopped, n - 1), w');
    }
  }

  /** Three lost saves end a call before its request is on record: the breaker is not touched. */
  lemma ThirdLostRequestGivesUp(w: World, p: nat, now: string, stopped: bool) returns (w': World)
    requires p < |w.calls| && w.calls[p].Started? && w.calls[p].seen == w.campaign.doc.events
    requires StateOf(w.observations).Open? && !HasRequest(w.campaign.doc.events, WorkingId(w))
    ensures Run(w, [Decide(p)] + (LostTries(p, true, stopped, 3) + [LoadRequest(p)]), w')
    ensures w' == w.(campaign := w'.campaign, calls := w.calls[p := Idle])
    ensures w'.campaign.doc == OthersWrote(w.campaign.doc, 3, stopped)
  {
    var id := WorkingId(w);
    var w1 := Step(w, Decide(p));
    var w2 := RequestLoses(w1, p, id, ATTEMPTS, 3, stopped);
    w' := Step(w2, LoadRequest(p));
    assert Run(w', [], w');
    RunStep(w2, LoadRequest(p), [], w');
    RunThenRun(w1, LostTries(p, true, stopped, 3), w2, [LoadRequest(p)], w');
    RunStep(w, Decide(p), LostTries(p, true, stopped, 3) + [LoadRequest(p)], w');
  }

  /** After two lost saves the third may still succeed. */
  lemma ThirdTryMaySucceed(w: World, p: nat, stopped: bool) returns (w': World)
    requires p < |w.calls| && w.calls[p].Started? && w.calls[p].seen == w.campaign.doc.events
    requires StateOf(w.observations).Open? && !HasRequest(w.campaign.doc.events, WorkingId(w))
    ensures Run(w, [Decide(p)] + (LostTries(p, true, stopped, 2) + [LoadRequest(p), CommitRequest(p)]), w')
    ensures p < |w'.calls| && w'.calls[p] == Resetting(WorkingId(w))
    ensures w'.campaign.doc == Append(OthersWrote(w.campaign.doc, 2, stopped), Requested(WorkingId(w)))
  {
    var id := WorkingId(w);
    var w1 := Step(w, Decide(p));
    var w2 := RequestLoses(w1, p, id, ATTEMPTS, 2, stopped);
    var w3 := Step(w2, LoadRequest(p));
    w' := Step(w3, CommitRequest(p));
    assert Run(w', [], w');
    RunStep(w3, CommitRequest(p), [], w');
    RunStep(w2, LoadRequest(p), [CommitRequest(p)], w');
    RunThenRun(w1, LostTries(p, true, stopped, 2), w2, [LoadRequest(p), CommitRequest(p)], w');
    RunStep(w, Decide(p), LostTries(p, true, stopped, 2) + [LoadRequest(p), CommitRequest(p)], w');
  }

  /** Three lost saves after the reset end a call with the reset in place and its request still pending. */
  lemma ThirdLostCompletionGivesUp(w: World, p: nat, stopped: bool) returns (w': World)
    requires p < |w.calls| && w.calls[p].Putting? && !HasCompletion(w.campaign.doc.events, w.calls[p].id)
    ensures Run(w, [PutReset(p)] + (LostTries(p, false, stopped, 3) + [LoadCompletion(p)]), w')
    ensures w'.calls == w.calls[p := Idle] && w'.campaign.doc == OthersWrote(w.campaign.doc, 3, stopped)
    ensures w'.observations == Put(w.observations, Reset(w.calls[p].at, w.calls[p].openedAt))
    ensures !HasCompletion(w'.campaign.doc.events, w.calls[p].id)
  {
    var Putting(id, at, openedAt) := w.calls[p];
    var w1 := Step(w, PutReset(p));
    var w2 := CompletionLoses(w1, p, id, ATTEMPTS, Some(at), 3, stopped);
    w' := Step(w2, LoadCompletion(p));
    assert Run(w', [], w');
    RunStep(w2, LoadCompletion(p), [], w');
    RunThenRun(w1, LostTries(p, false, stopped, 3), w2, [LoadCompletion(p)], w');
    RunStep(w, PutReset(p), LostTries(p, false, stopped, 3) + [LoadCompletion(p)], w');
  }

  /** A campaign that has been stopped refuses every call, and one that goes on again does not. */
  lemma StoppedCampaignRefuses(w: World, p: nat, stopped: bool)
    requires p < |w.calls| && w.calls[p].Idle?
    ensures var w1 := Step(w, Other(stopped));
      Step(w1, Begin(p)).calls[p] == if stopped then Idle else Started(w.campaign.doc.events + [OtherEvent])
  {
  }

  /** With the breaker closed and nothing pending there is nothing to do. */
  lemma NothingToReset(w: World, p: nat)
    requires p < |w.calls| && w.calls[p].Idle? && !w.campaign.doc.stopped
    requires StateOf(w.observations).Closed?
    requires forall id | HasRequest(w.campaign.doc.events, id) :: HasCompletion(w.campaign.doc.events, id)
    ensures Run(w, [Begin(p), Decide(p)], w)
  {
    var w1 := Step(w, Begin(p));
    var w2 := Step(w1, Decide(p));
    assert Pending(w.campaign.doc.events) == None;
    assert w2.calls == w.calls && w2 == w;
    assert Run(w2, [], w);
    RunStep(w1, Decide(p), [], w);
    RunStep(w, Begin(p), [Decide(p)], w);
  }

  /** A call that finds the breaker closed by another reset writes none, and records the time of the one it found. */
  lemma ClosedMeanwhile(w: World, p: nat, resetAt: Option<string>) returns (w': World)
    requires p < |w.calls| && w.calls[p].Timed? && StateOf(w.observations) == Closed(resetAt)
    requires !HasCompletion(w.campaign.doc.events, w.calls[p].id)
    ensures Run(w, [ReadBreaker(p), LoadCompletion(p), CommitCompletion(p)], w')
    ensures w'.observations == w.observations && w'.calls == w.calls[p := Returned(w.calls[p].id)]
    ensures w'.campaign.doc == Append(w.campaign.doc, Completed(w.calls[p].id, resetAt))
  {
    var w1 := Step(w, ReadBreaker(p));
    var w2 := Step(w1, LoadCompletion(p));
    w' := Step(w2, CommitCompletion(p));
    assert Run(w', [], w');
    RunStep(w2, CommitCompletion(p), [], w');
    RunStep(w1, LoadCompletion(p), [CommitCompletion(p)], w');
    RunStep(w, ReadBreaker(p), [LoadCompletion(p), CommitCompletion(p)], w');
  }

  predicate Busy(c: Call) {
    || c.Started? || c.Requesting? || c.SavingRequest? || c.Resetting? || c.Timed? || c.Putting?
    || c.Completing? || c.SavingCompletion?
  }

  /** A call begins only where none is under way; a crash may end any. */
  lemma BusyCallsDoNotRestart(w: World, p: nat)
    requires p < |w.calls|
    ensures Enabled(w, Begin(p)) <==> !Busy(w.calls[p])
    ensures Enabled(w, Crash(p)) && Step(w, Crash(p)) == w.(calls := w.calls[p := Idle])
  {
  }
}
