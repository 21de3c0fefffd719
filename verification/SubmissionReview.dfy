/**
 What reviewers, and callers that lose a race, bring about (report_approval.py, submission_state.py and the
 submission endpoint), said about the log itself.
 */
module SubmissionReview {
  import opened Wrappers
  import opened VersionedLog
  import opened Whitespace
  import opened Submission

  // ---------------------------------------------------------------- the status of a report

  /** Event `m` is the latest approval or revocation of the report. */
  ghost predicate LatestReview(events: seq<Event>, a: ArtifactId, m: nat) {
    && m < |events|
    && (events[m].ReportApproved? || events[m].ApprovalRevoked?) && events[m].artifact == a
    && forall k | m < k < |events| && (events[k].ReportApproved? || events[k].ApprovalRevoked?) ::
         events[k].artifact != a
  }

  ghost predicate LatestSubmission(events: seq<Event>, a: ArtifactId, s: nat) {
    && s < |events| && events[s].ReportSubmitted? && events[s].artifact == a
    && forall k | s < k < |events| && events[k].ReportSubmitted? :: events[k].artifact != a
  }

  /** The approval covers these bytes and the campaign as it is. */
  predicate Covers(e: Event, c: Campaign, a: ArtifactId, sha: string) {
    e.ReportApproved? && e.artifact == a && e.sha256 == sha && e.basis == Basis(a, sha, c.facts)
  }

  predicate Reviewed(events: seq<Event>, a: ArtifactId) {
    exists m | 0 <= m < |events| ::
      (events[m].ReportApproved? || events[m].ApprovalRevoked?) && events[m].artifact == a
  }

  predicate EverSubmitted(events: seq<Event>, a: ArtifactId) {
    exists s | 0 <= s < |events| :: events[s].ReportSubmitted? && events[s].artifact == a
  }

  ghost predicate StaleApproval(c: Campaign, a: ArtifactId, sha: string, m: nat) {
    LatestReview(c.events, a, m) && c.events[m].ReportApproved? && !Covers(c.events[m], c, a, sha)
  }

  /** Approved is a report whose latest review covers it; stale, one whose latest review approves another state. */
  lemma ApprovalExactly(c: Campaign, a: ArtifactId, sha: string)
    ensures var status := ApprovalStatus(c, a, sha);
      && (status.approved <==> exists m: nat :: LatestReview(c.events, a, m) && Covers(c.events[m], c, a, sha))
      && (status.stale <==> exists m: nat :: StaleApproval(c, a, sha, m))
  {
    ReviewIndex(c.events, a);
    var i := LastIndex(c.events, e => IsReview(e, a));
    assert i >= 0 ==> LatestReview(c.events, a, i);
    assert ApprovalStatus(c, a, sha).stale ==> StaleApproval(c, a, sha, i);
  }

  ghost predicate SubmittedSince(c: Campaign, a: ArtifactId, sha: string, platform: string) {
    exists m: nat, s: nat ::
      && LatestReview(c.events, a, m) && Covers(c.events[m], c, a, sha)
      && LatestSubmission(c.events, a, s) && m < s && c.events[s].platform == platform
  }

  /**
   A draft was never reviewed nor submitted; a ready report is covered by its latest review and not submitted
   since; a submitted one shows the platform of its last submission since; anything else needs a review.
   */
  lemma StatusExactly(c: Campaign, a: ArtifactId, sha: string)
    ensures var status := SubmissionStatus(c, a, sha);
      && (status == Draft <==> !Reviewed(c.events, a) && !EverSubmitted(c.events, a))
      && (status == Ready <==>
            exists m: nat :: LatestReview(c.events, a, m) && Covers(c.events[m], c, a, sha)
              && forall s: nat | LatestSubmission(c.events, a, s) :: s < m)
      && (forall platform :: status == AlreadySubmitted(platform) <==> SubmittedSince(c, a, sha, platform))
  {
    ReviewIndex(c.events, a);
    SubmissionIndex(c.events, a);
    var review := LastIndex(c.events, e => IsReview(e, a));
    var submitted := LastIndex(c.events, (e: Event) => e.ReportSubmitted? && e.artifact == a);
    assert review >= 0 ==> LatestReview(c.events, a, review);
    assert submitted >= 0 ==> LatestSubmission(c.events, a, submitted);
  }

  lemma ReviewIndex(events: seq<Event>, a: ArtifactId)
    ensures var i := LastIndex(events, e => IsReview(e, a));
      && (i >= 0 <==> Reviewed(events, a))
      && (forall m: nat :: LatestReview(events, a, m) <==> m == i)
  {
    var i := LastIndex(events, e => IsReview(e, a));
    forall m: nat ensures LatestReview(events, a, m) <==> m == i {
      if LatestReview(events, a, m) { assert IsReview(events[m], a); }
      if m == i {
        forall k | i < k < |events| && (events[k].ReportApproved? || events[k].ApprovalRevoked?)
          ensures events[k].artifact != a
        {
          assert !IsReview(events[k], a);
        }
      }
    }
    if Reviewed(events, a) {
      var m :| 0 <= m < |events| && (events[m].ReportApproved? || events[m].ApprovalRevoked?)
        && events[m].artifact == a;
      assert IsReview(events[m], a);
    }
  }

  lemma SubmissionIndex(events: seq<Event>, a: ArtifactId)
    ensures var i := LastIndex(events, (e: Event) => e.ReportSubmitted? && e.artifact == a);
      && (i >= 0 <==> EverSubmitted(events, a))
      && (forall s: nat :: LatestSubmission(events, a, s) <==> s == i)
  {
    var i := LastIndex(events, (e: Event) => e.ReportSubmitted? && e.artifact == a);
  }

  // ---------------------------------------------------------------- what a review changes

  /** The world but for the log. */
  ghost predicate OnlyLogChanged(w: World, w': World) {
    && w' == w.(campaign := w'.campaign) && w.campaign.doc.events <= w'.campaign.doc.events
    && (w' != w ==> w'.campaign.version > w.campaign.version)
  }

  /** Approving a report of a campaign with confirmed findings leaves it approved, by an event only if it was not. */
  lemma ApprovingApproves(w: World, a: ArtifactId, reviewer: string)
    requires a in w.artifacts
    ensures var w' := Step(w, Approve(a, reviewer));
      && OnlyLogChanged(w, w') && w'.campaign.doc.facts == w.campaign.doc.facts
      && (w.campaign.doc.facts.confirmed == multiset{} ==> w' == w)
      && (w.campaign.doc.facts.confirmed != multiset{} ==>
            ApprovalStatus(w'.campaign.doc, a, w.artifacts[a].sha256) == Approval(true, false))
      && (w' != w ==>
            && |w'.campaign.doc.events| == |w.campaign.doc.events| + 1
            && var e := w'.campaign.doc.events[|w.campaign.doc.events|];
               Covers(e, w.campaign.doc, a, w.artifacts[a].sha256) && e.reviewer == reviewer)
  {
    var c, sha := w.campaign.doc, w.artifacts[a].sha256;
    var e := ReportApproved(a, sha, Basis(a, sha, c.facts), reviewer);
    var w' := Step(w, Approve(a, reviewer));
    if w' != w {
      assert w'.campaign.doc.events == c.events + [e];
      assert LastIndex(c.events + [e], x => IsReview(x, a)) == |c.events|;
    }
  }

  /** An approval is written again exactly when none is current or the current one is another reviewer's. */
  lemma ApprovalIsWrittenExactly(w: World, a: ArtifactId, reviewer: string)
    requires a in w.artifacts && w.campaign.doc.facts.confirmed != multiset{}
    ensures Step(w, Approve(a, reviewer)) == w <==>
      exists m: nat :: LatestReview(w.campaign.doc.events, a, m) && w.campaign.doc.events[m].ReportApproved?
        && Covers(w.campaign.doc.events[m], w.campaign.doc, a, w.artifacts[a].sha256)
        && w.campaign.doc.events[m].reviewer == reviewer
  {
    ApprovalExactly(w.campaign.doc, a, w.artifacts[a].sha256);
    ReviewIndex(w.campaign.doc.events, a);
    if Step(w, Approve(a, reviewer)) == w {
      assert Step(w, Approve(a, reviewer)).campaign.version == w.campaign.version;
    }
  }

  lemma RevokedIsNotApproved(c: Campaign, a: ArtifactId, report: Report)
    requires RevokedLast(c.events, a)
    ensures ApprovalStatus(c, a, report.sha256) == Approval(false, false) && !MayAttempt(c, a, report)
  {
    ReviewIndex(c.events, a);
  }

  /** Revoking leaves a report neither approved nor stale, so it cannot be sent; a second revocation writes nothing. */
  lemma RevokingEndsApproval(w: World, a: ArtifactId)
    requires a in w.artifacts
    ensures var w' := Step(w, Revoke(a));
      && OnlyLogChanged(w, w') && w'.campaign.doc.facts == w.campaign.doc.facts
      && ApprovalStatus(w'.campaign.doc, a, w.artifacts[a].sha256) == Approval(false, false)
      && !MayAttempt(w'.campaign.doc, a, w.artifacts[a])
      && (w' == w <==> RevokedLast(w.campaign.doc.events, a))
      && (w' != w ==> w'.campaign.doc.events == w.campaign.doc.events + [ApprovalRevoked(a)])
  {
    var events, w' := w.campaign.doc.events, Step(w, Revoke(a));
    ReviewIndex(events, a);
    if RevokedLast(events, a) {
      RevokedIsNotApproved(w.campaign.doc, a, w.artifacts[a]);
    } else {
      assert w'.campaign.version != w.campaign.version;
      var events' := events + [ApprovalRevoked(a)];
      assert events'[|events|] == ApprovalRevoked(a);
      assert LatestReview(events', a, |events|);
      RevokedIsNotApproved(w'.campaign.doc, a, w.artifacts[a]);
    }
  }

  ghost predicate RevokedLast(events: seq<Event>, a: ArtifactId) {
    exists m: nat :: LatestReview(events, a, m) && events[m].ApprovalRevoked?
  }

  /** A report is marked submitted exactly when it is ready, and is submitted to that platform then. */
  lemma MarkingSubmits(w: World, a: ArtifactId, platform: string)
    requires a in w.artifacts
    ensures var sha, w' := w.artifacts[a].sha256, Step(w, MarkSubmitted(a, platform));
      && OnlyLogChanged(w, w')
      && (SubmissionStatus(w.campaign.doc, a, sha) == Ready ==>
            SubmissionStatus(w'.campaign.doc, a, sha) == AlreadySubmitted(platform)
            && w'.campaign.doc.events == w.campaign.doc.events + [ReportSubmitted(a, platform)])
      && (SubmissionStatus(w.campaign.doc, a, sha) != Ready ==> w' == w)
  {
    var c, sha := w.campaign.doc, w.artifacts[a].sha256;
    if SubmissionStatus(c, a, sha) == Ready {
      var e := ReportSubmitted(a, platform);
      StatusExactly(c, a, sha);
      var m: nat :| LatestReview(c.events, a, m) && Covers(c.events[m], c, a, sha);
      var c' := Append(c, [e]);
      assert c'.events[m] == c.events[m] && c'.events[|c.events|] == e;
      assert LatestReview(c'.events, a, m) && LatestSubmission(c'.events, a, |c.events|);
      assert SubmittedSince(c', a, sha, platform);
      StatusExactly(c', a, sha);
    }
  }

  /** Changing the findings or the scope makes every current approval stale. */
  lemma EditingMakesStale(w: World, a: ArtifactId, facts: Facts)
    requires a in w.artifacts && facts != w.campaign.doc.facts
    requires ApprovalStatus(w.campaign.doc, a, w.artifacts[a].sha256).approved
    ensures ApprovalStatus(Step(w, Edit(facts)).campaign.doc, a, w.artifacts[a].sha256) == Approval(false, true)
  {
    var c, sha := w.campaign.doc, w.artifacts[a].sha256;
    var c' := Step(w, Edit(facts)).campaign.doc;
    ApprovalExactly(c, a, sha);
    var m: nat :| LatestReview(c.events, a, m) && Covers(c.events[m], c, a, sha);
    assert c'.events == c.events + [OtherEvent] && c'.events[m] == c.events[m];
    assert LatestReview(c'.events, a, m);
    ReviewIndex(c'.events, a);
  }

  /** The latest policy binding alone decides whether the program handle is verified. */
  lemma BindingDecides(w: World, handle: Option<string>)
    ensures HandleVerified(Step(w, Bind(handle)).campaign.doc.events) <==> handle.Some? && Strip(handle.value) != ""
  {
    var events := Step(w, Bind(handle)).campaign.doc.events;
    assert events[|w.campaign.doc.events|] == PolicyBound(handle);
  }

  // ---------------------------------------------------------------- callers that lose a race

  /** A call overtaken between its read and its save is over; it has written and sent nothing. */
  lemma OvertakenAttemptIsDropped(w: World, p: nat, r: RequestId)
    requires Enabled(w, CommitAttempt(p, r)) && w.calls[p].snapshot.version != w.campaign.version
    ensures Step(w, CommitAttempt(p, r)) == w.(calls := w.calls[p := Idle])
  {
  }

  /** A call that fails the checks is over as well. */
  lemma RefusedAttemptIsDropped(w: World, p: nat, r: RequestId)
    requires Enabled(w, CommitAttempt(p, r))
    requires !MayAttempt(w.calls[p].snapshot.doc, w.calls[p].artifact, w.artifacts[w.calls[p].artifact])
    ensures Step(w, CommitAttempt(p, r)) == w.(calls := w.calls[p := Idle])
  {
  }

  /** Overtaken at its outcome, a call is over too, and its attempt stays open on every run from there. */
  lemma OvertakenOutcomeBlocks(w: World, p: nat, labels: seq<Label>, w': World)
    requires Inv(w) && Enabled(w, CommitOutcome(p)) && w.calls[p].snapshot.version != w.campaign.version
    requires Run(Step(w, CommitOutcome(p)), labels, w')
    ensures Step(w, CommitOutcome(p)) == w.(calls := w.calls[p := Idle])
    ensures UnresolvedAttempt(w'.campaign.doc.events, w.calls[p].artifact) == Some(w.calls[p].request)
    ensures w.posts <= w'.posts
    ensures forall k | |w.posts| <= k < |w'.posts| :: w'.posts[k].artifact != w.calls[p].artifact
  {
    var a, r, w1 := w.calls[p].artifact, w.calls[p].request, Step(w, CommitOutcome(p));
    assert CallOk(w, w.calls[p]);
    assert Attempted(a, r) in w.campaign.doc.events;
    StepKeepsInv(w, CommitOutcome(p));
    assert Abandoned(w1, a, r);
    AbandonedBlocksForever(w1, labels, w', a, r);
  }
}
