/**
 Direct report submission (hackerone_api.py) as a protocol: concurrent, crashing callers, a remote
 side that may accept, reject or lose a report, and reviewers who approve, revoke and mark reports
 meanwhile. Approval and submission status follow report_approval.py and submission_state.py.
 */
module Submission {
  import opened Wrappers
  import opened VersionedLog
  import opened Whitespace

  type ArtifactId = string
  type RequestId = nat // a uuid4 token: only freshness and equality matter

  /** A confirmed finding: its impact text, and everything else about it. */
  datatype Finding = Finding(id: string, impact: string, rest: nat)

  /** The campaign state an approval is bound to: the confirmed findings, and the target with its rules. */
  datatype Facts = Facts(confirmed: multiset<Finding>, scope: nat)

  /** `report_basis_digest`: a collision-free digest of the report and of the campaign state it relies on. */
  datatype Basis = Basis(artifact: ArtifactId, sha256: string, facts: Facts)

  /** A stored report; its bytes never change, and may not be UTF-8. */
  datatype Report = Report(sha256: string, utf8: bool)

  datatype Event =
    | Attempted(artifact: ArtifactId, request: RequestId)         // hackerone_submission_attempted
    | Rejected(artifact: ArtifactId, request: RequestId)          // hackerone_submission_rejected
    | RemoteSubmitted(artifact: ArtifactId, request: RequestId)   // hackerone_report_submitted
    | ReportSubmitted(artifact: ArtifactId, platform: string)     // report_submitted
    | ReportApproved(artifact: ArtifactId, sha256: string, basis: Basis, reviewer: string)
    | ApprovalRevoked(artifact: ArtifactId)
    | PolicyBound(handle: Option<string>) // hackerone_policy_bound; `None` unless verified and with a handle
    | OtherEvent

  datatype Campaign = Campaign(events: seq<Event>, facts: Facts)

  // ---------------------------------------------------------------- reading the log

  predicate IsAttempt(e: Event, a: ArtifactId) {
    e.Attempted? && e.artifact == a
  }

  predicate IsReview(e: Event, a: ArtifactId) {
    (e.ReportApproved? || e.ApprovalRevoked?) && e.artifact == a
  }

  predicate IsOutcome(e: Event) {
    e.RemoteSubmitted? || e.Rejected?
  }

  predicate Resolves(e: Event, r: RequestId) {
    IsOutcome(e) && e.request == r
  }

  function LastIndex(events: seq<Event>, p: Event -> bool): (r: int)
    ensures -1 <= r < |events|
    ensures r >= 0 ==> p(events[r])
    ensures forall i | r < i < |events| :: !p(events[i])
  {
    if events == [] then -1
    else if p(events[|events| - 1]) then |events| - 1
    else LastIndex(events[..|events| - 1], p)
  }

  /** `_unresolved_hackerone_attempt`: looks at the latest attempt only. */
  function UnresolvedAttempt(events: seq<Event>, a: ArtifactId): Option<RequestId> {
    var i := LastIndex(events, e => IsAttempt(e, a));
    if i < 0 then None
    else
      var r := events[i].request;
      if exists k | i < k < |events| :: Resolves(events[k], r) then None else Some(r)
  }

  datatype Approval = Approval(approved: bool, stale: bool)

  function ApprovalStatus(c: Campaign, a: ArtifactId, sha256: string): Approval {
    var i := LastIndex(c.events, e => IsReview(e, a));
    if i < 0 || c.events[i].ApprovalRevoked? then Approval(false, false)
    else
      var stale := c.events[i].sha256 != sha256 || c.events[i].basis != Basis(a, sha256, c.facts);
      Approval(!stale, stale)
  }

  datatype Status = Draft | ReviewRequired | Ready | AlreadySubmitted(platform: string)

  function SubmissionStatus(c: Campaign, a: ArtifactId, sha256: string): Status {
    var approval := ApprovalStatus(c, a, sha256);
    var review := LastIndex(c.events, e => IsReview(e, a));
    var submitted := LastIndex(c.events, (e: Event) => e.ReportSubmitted? && e.artifact == a);
    if !approval.approved then
      if submitted >= 0 || approval.stale || (review >= 0 && c.events[review].ApprovalRevoked?)
      then ReviewRequired else Draft
    else if submitted > review then AlreadySubmitted(c.events[submitted].platform)
    else Ready
  }

  /** `_verified_remote_team_handle`: looks at the latest policy binding only. */
  predicate HandleVerified(events: seq<Event>) {
    var i := LastIndex(events, (e: Event) => e.PolicyBound?);
    i >= 0 && events[i].handle.Some? && Strip(events[i].handle.value) != ""
  }

  /** What the outbound report is built from: one confirmed finding with an impact, a handle, and text. */
  predicate Composable(c: Campaign, report: Report) {
    && |c.facts.confirmed| == 1
    && (forall f | f in c.facts.confirmed :: Strip(f.impact) != "")
    && HandleVerified(c.events)
    && report.utf8
  }

  /** The checks `submit_hackerone_report` makes on the campaign and the report before it records an attempt. */
  predicate MayAttempt(c: Campaign, a: ArtifactId, report: Report) {
    && !SubmissionStatus(c, a, report.sha256).AlreadySubmitted?
    && UnresolvedAttempt(c.events, a) == None
    && (var approval := ApprovalStatus(c, a, report.sha256); approval.approved && !approval.stale)
    && Composable(c, report)
  }

  // ---------------------------------------------------------------- the protocol

  /** Where one call stands. A crash, and every early return, leads back to `Idle`. */
  datatype Call =
    | Idle
    | Checking(artifact: ArtifactId, snapshot: Record<Campaign>)
    | Posting(artifact: ArtifactId, request: RequestId)
    | Answered(artifact: ArtifactId, request: RequestId, accepted: bool)
    | Recording(artifact: ArtifactId, request: RequestId, accepted: bool, snapshot: Record<Campaign>)
  {
    predicate InFlight() {
      Posting? || Answered? || Recording?
    }
  }

  /** A report the remote side has processed. */
  datatype Post = Post(artifact: ArtifactId, request: RequestId, accepted: bool)

  /** `Lost` stands for timeouts, 5xx answers and malformed 2xx answers, whatever the remote side did. */
  datatype Reply = Created | ClientError | Lost(accepted: bool)

  datatype World = World(
    campaign: Record<Campaign>,
    enabled: bool, // the switch for external submission
    artifacts: map<ArtifactId, Report>,
    calls: seq<Call>,
    posts: seq<Post>,
    used: set<RequestId>)

  datatype Label =
    | Read(call: nat, artifact: ArtifactId)
    | CommitAttempt(call: nat, request: RequestId)
    | Send(call: nat, reply: Reply)
    | Reread(call: nat)
    | CommitOutcome(call: nat)
    | Crash(call: nat)
    | Approve(artifact: ArtifactId, reviewer: string)
    | Revoke(artifact: ArtifactId)
    | MarkSubmitted(artifact: ArtifactId, platform: string)
    | Bind(handle: Option<string>)
    | Edit(facts: Facts) // any other writer: findings, scope, unrelated events
    | Switch(on: bool)

  predicate Enabled(w: World, l: Label) {
    match l
    case Read(p, a) => p < |w.calls| && w.calls[p].Idle? && a in w.artifacts
    case CommitAttempt(p, r) =>
      p < |w.calls| && w.calls[p].Checking? && w.calls[p].artifact in w.artifacts && r !in w.used
    case Send(p, _) => p < |w.calls| && w.calls[p].Posting?
    case Reread(p) => p < |w.calls| && w.calls[p].Answered?
    case CommitOutcome(p) => p < |w.calls| && w.calls[p].Recording?
    case Crash(p) => p < |w.calls|
    case Approve(a, _) => a in w.artifacts
    case Revoke(a) => a in w.artifacts
    case MarkSubmitted(a, _) => a in w.artifacts
    case Bind(_) => true
    case Edit(_) => true
    case Switch(_) => true
  }

  function Append(c: Campaign, more: seq<Event>): Campaign {
    c.(events := c.events + more)
  }

  /** A writer that reads, appends and saves without being overtaken. */
  function Write(w: World, more: seq<Event>): World {
    w.(campaign := Record(Append(w.campaign.doc, more), w.campaign.version + 1))
  }

  function OutcomeEvents(a: ArtifactId, r: RequestId, accepted: bool): seq<Event> {
    if accepted then [RemoteSubmitted(a, r), ReportSubmitted(a, "hackerone")] else [Rejected(a, r)]
  }

  function Step(w: World, l: Label): World
    requires Enabled(w, l)
  {
    match l
    case Read(p, a) => if w.enabled then w.(calls := w.calls[p := Checking(a, w.campaign)]) else w
    case CommitAttempt(p, r) =>
      var Checking(a, snapshot) := w.calls[p];
      if !MayAttempt(snapshot.doc, a, w.artifacts[a]) then w.(calls := w.calls[p := Idle])
      else (
        match Save(w.campaign, snapshot.version, Append(snapshot.doc, [Attempted(a, r)]))
        case None => w.(calls := w.calls[p := Idle])
        case Some(saved) => w.(campaign := saved, calls := w.calls[p := Posting(a, r)], used := w.used + {r}))
    case Send(p, reply) =>
      var Posting(a, r) := w.calls[p];
      (match reply
       case Created => w.(posts := w.posts + [Post(a, r, true)], calls := w.calls[p := Answered(a, r, true)])
       case ClientError => w.(posts := w.posts + [Post(a, r, false)], calls := w.calls[p := Answered(a, r, false)])
       case Lost(accepted) => w.(posts := w.posts + [Post(a, r, accepted)], calls := w.calls[p := Idle]))
    case Reread(p) =>
      var Answered(a, r, accepted) := w.calls[p];
      w.(calls := w.calls[p := Recording(a, r, accepted, w.campaign)])
    case CommitOutcome(p) =>
      var Recording(a, r, accepted, snapshot) := w.calls[p];
      (match Save(w.campaign, snapshot.version, Append(snapshot.doc, OutcomeEvents(a, r, accepted)))
       case None => w.(calls := w.calls[p := Idle])
       case Some(saved) => w.(campaign := saved, calls := w.calls[p := Idle]))
    case Crash(p) => w.(calls := w.calls[p := Idle])
    case Approve(a, reviewer) =>
      var c, sha := w.campaign.doc, w.artifacts[a].sha256;
      var last := LastIndex(c.events, e => IsReview(e, a));
      if c.facts.confirmed == multiset{} then w
      else if ApprovalStatus(c, a, sha).approved && c.events[last].reviewer == reviewer then w
      else Write(w, [ReportApproved(a, sha, Basis(a, sha, c.facts), reviewer)])
    case Revoke(a) =>
      var c := w.campaign.doc;
      var last := LastIndex(c.events, e => IsReview(e, a));
      if last >= 0 && c.events[last].ApprovalRevoked? then w else Write(w, [ApprovalRevoked(a)])
    case MarkSubmitted(a, platform) =>
      if SubmissionStatus(w.campaign.doc, a, w.artifacts[a].sha256) != Ready then w
      else Write(w, [ReportSubmitted(a, platform)])
    case Bind(handle) => Write(w, [PolicyBound(handle)])
    case Edit(facts) =>
      w.(campaign := Record(Append(w.campaign.doc, [OtherEvent]).(facts := facts), w.campaign.version + 1))
    case Switch(on) => w.(enabled := on)
  }

  ghost predicate Run(w: World, labels: seq<Label>, w': World)
    decreases |labels|
  {
    if labels == [] then w' == w
    else Enabled(w, labels[0]) && Run(Step(w, labels[0]), labels[1..], w')
  }

  predicate Initial(w: World) {
    && w.campaign.doc.events == []
    && (forall p | 0 <= p < |w.calls| :: w.calls[p] == Idle)
    && w.posts == []
    && w.used == {}
  }

  // ---------------------------------------------------------------- what every step keeps

  ghost predicate ResolvedBetween(events: seq<Event>, i: nat, j: nat)
    requires i < j <= |events| && events[i].Attempted?
  {
    exists k | i < k < j :: Resolves(events[k], events[i].request)
  }

  ghost predicate ApprovedBetween(events: seq<Event>, a: ArtifactId, i: nat, j: nat)
    requires i < j <= |events|
  {
    exists k | i < k < j :: events[k].ReportApproved? && events[k].artifact == a
  }

  ghost predicate HasPost(posts: seq<Post>, p: Post) {
    exists i | 0 <= i < |posts| :: posts[i] == p
  }

  ghost predicate UniqueAttempts(events: seq<Event>) {
    forall i, j | 0 <= i < j < |events| && events[i].Attempted? && events[j].Attempted? ::
      events[i].request != events[j].request
  }

  ghost predicate OutcomesFollowAttempts(events: seq<Event>) {
    forall k | 0 <= k < |events| && IsOutcome(events[k]) ::
      exists i | 0 <= i < k :: events[i] == Attempted(events[k].artifact, events[k].request)
  }

  /** Every attempt is resolved before the next attempt for the same report. */
  ghost predicate AttemptsSerialized(events: seq<Event>) {
    forall i, j | 0 <= i < j < |events| && events[i].Attempted? && IsAttempt(events[j], events[i].artifact) ::
      ResolvedBetween(events, i, j)
  }

  /** The remote success and the local submission event are written together. */
  ghost predicate SuccessesMarked(events: seq<Event>) {
    forall k | 0 <= k < |events| && events[k].RemoteSubmitted? ::
      k + 1 < |events| && events[k + 1] == ReportSubmitted(events[k].artifact, "hackerone")
  }

  /** An attempt after a submission has a new approval in between. */
  ghost predicate Reapproved(events: seq<Event>) {
    forall i, j | 0 <= i < j < |events| && events[i].ReportSubmitted? && IsAttempt(events[j], events[i].artifact) ::
      ApprovedBetween(events, events[i].artifact, i, j)
  }

  ghost predicate LogOk(events: seq<Event>) {
    && UniqueAttempts(events)
    && OutcomesFollowAttempts(events)
    && AttemptsSerialized(events)
    && SuccessesMarked(events)
    && Reapproved(events)
  }

  ghost predicate PostsOk(w: World) {
    var events := w.campaign.doc.events;
    && (forall i, j | 0 <= i < j < |w.posts| :: w.posts[i].request != w.posts[j].request)
    && (forall i | 0 <= i < |w.posts| :: Attempted(w.posts[i].artifact, w.posts[i].request) in events)
    && (forall k | 0 <= k < |events| && IsOutcome(events[k]) ::
          HasPost(w.posts, Post(events[k].artifact, events[k].request, events[k].RemoteSubmitted?)))
    && (forall k | 0 <= k < |events| && events[k].Attempted? :: events[k].request in w.used)
  }

  ghost predicate CallOk(w: World, c: Call) {
    && (c.Checking? || c.Recording? ==> Past(c.snapshot, w.campaign))
    && (c.InFlight() ==>
          && Attempted(c.artifact, c.request) in w.campaign.doc.events
          && forall k | 0 <= k < |w.campaign.doc.events| :: !Resolves(w.campaign.doc.events[k], c.request))
    && (c.Posting? ==> forall i | 0 <= i < |w.posts| :: w.posts[i].request != c.request)
    && (c.Answered? || c.Recording? ==> HasPost(w.posts, Post(c.artifact, c.request, c.accepted)))
  }

  ghost predicate CallsOk(w: World) {
    && (forall p | 0 <= p < |w.calls| :: CallOk(w, w.calls[p]))
    && (forall p, q | 0 <= p < q < |w.calls| && w.calls[p].InFlight() && w.calls[q].InFlight() ::
          w.calls[p].request != w.calls[q].request)
  }

  ghost predicate Inv(w: World) {
    LogOk(w.campaign.doc.events) && PostsOk(w) && CallsOk(w)
  }

  lemma BetweenSurvives(events: seq<Event>, more: seq<Event>, i: nat, j: nat, a: ArtifactId)
    requires i < j <= |events|
    ensures events[i].Attempted? && ResolvedBetween(events, i, j) ==> ResolvedBetween(events + more, i, j)
    ensures ApprovedBetween(events, a, i, j) ==> ApprovedBetween(events + more, a, i, j)
  {
    if events[i].Attempted? && ResolvedBetween(events, i, j) {
      var k :| i < k < j && Resolves(events[k], events[i].request);
      assert Resolves((events + more)[k], (events + more)[i].request);
    }
    if ApprovedBetween(events, a, i, j) {
      var k :| i < k < j && events[k].ReportApproved? && events[k].artifact == a;
      assert (events + more)[k].ReportApproved?;
    }
  }

  lemma OutcomesStillFollow(events: seq<Event>, more: seq<Event>)
    requires OutcomesFollowAttempts(events)
    requires forall k | 0 <= k < |more| && IsOutcome(more[k]) :: Attempted(more[k].artifact, more[k].request) in events
    ensures OutcomesFollowAttempts(events + more)
  {
    var new_ := events + more;
    forall k | 0 <= k < |new_| && IsOutcome(new_[k])
      ensures exists i | 0 <= i < k :: new_[i] == Attempted(new_[k].artifact, new_[k].request)
    {
      if k < |events| {
        var i :| 0 <= i < k && events[i] == Attempted(events[k].artifact, events[k].request);
        assert new_[i] == events[i];
      } else {
        assert new_[k] == more[k - |events|];
        var i :| 0 <= i < |events| && events[i] == Attempted(new_[k].artifact, new_[k].request);
        assert new_[i] == events[i];
      }
    }
  }

  lemma AttemptIsSerialized(events: seq<Event>, a: ArtifactId, r: RequestId)
    requires AttemptsSerialized(events) && UnresolvedAttempt(events, a) == None
    ensures AttemptsSerialized(events + [Attempted(a, r)])
  {
    var n, new_ := |events|, events + [Attempted(a, r)];
    AllResolvedExactly(events, a);
    forall i, j | 0 <= i < j < |new_| && new_[i].Attempted? && IsAttempt(new_[j], new_[i].artifact)
      ensures ResolvedBetween(new_, i, j)
    {
      if j < n {
        ResolvedBeforeNext(events, i, j);
      } else {
        assert IsAttempt(events[i], a);
      }
      BetweenSurvives(events, [Attempted(a, r)], i, if j < n then j else n, a);
    }
  }

  lemma AttemptIsReapproved(c: Campaign, a: ArtifactId, report: Report, r: RequestId)
    requires Reapproved(c.events) && MayAttempt(c, a, report)
    ensures Reapproved(c.events + [Attempted(a, r)])
  {
    var events, n, new_ := c.events, |c.events|, c.events + [Attempted(a, r)];
    var review := LastIndex(events, e => IsReview(e, a));
    forall i, j | 0 <= i < j < |new_| && new_[i].ReportSubmitted? && IsAttempt(new_[j], new_[i].artifact)
      ensures ApprovedBetween(new_, new_[i].artifact, i, j)
    {
      if j < n {
        assert ApprovedBetween(events, events[i].artifact, i, j);
      } else {
        assert events[i].ReportSubmitted? && events[i].artifact == a;
        assert i < review && events[review].ReportApproved?;
        assert ApprovedBetween(events, a, i, n);
      }
      BetweenSurvives(events, [Attempted(a, r)], i, if j < n then j else n, new_[i].artifact);
    }
  }

  /** Appending an attempt that passed the checks keeps the log in order. */
  lemma AttemptKeepsLog(c: Campaign, a: ArtifactId, report: Report, r: RequestId)
    requires LogOk(c.events) && MayAttempt(c, a, report)
    requires forall k | 0 <= k < |c.events| && c.events[k].Attempted? :: c.events[k].request != r
    ensures LogOk(c.events + [Attempted(a, r)])
  {
    OutcomesStillFollow(c.events, [Attempted(a, r)]);
    AttemptIsSerialized(c.events, a, r);
    AttemptIsReapproved(c, a, report, r);
  }

  /** Appending an outcome, or any event of another writer, keeps the log in order. */
  lemma OtherEventsKeepLog(events: seq<Event>, more: seq<Event>)
    requires LogOk(events)
    requires forall k | 0 <= k < |more| :: !more[k].Attempted?
    requires forall k | 0 <= k < |more| && IsOutcome(more[k]) :: Attempted(more[k].artifact, more[k].request) in events
    requires SuccessesMarked(more)
    ensures LogOk(events + more)
  {
    var new_ := events + more;
    OutcomesStillFollow(events, more);
    assert forall k | |events| <= k < |new_| :: new_[k] == more[k - |events|];
    forall i, j | 0 <= i < j < |new_| && new_[i].Attempted? && IsAttempt(new_[j], new_[i].artifact)
      ensures ResolvedBetween(new_, i, j)
    {
      assert ResolvedBetween(events, i, j);
      BetweenSurvives(events, more, i, j, events[i].artifact);
    }
    forall i, j | 0 <= i < j < |new_| && new_[i].ReportSubmitted? && IsAttempt(new_[j], new_[i].artifact)
      ensures ApprovedBetween(new_, new_[i].artifact, i, j)
    {
      assert ApprovedBetween(events, events[i].artifact, i, j);
      BetweenSurvives(events, more, i, j, events[i].artifact);
    }
  }

  /** Reviewers and other writers: no attempt and no outcome is written. */
  lemma WriteKeepsInv(w: World, c: Campaign, more: seq<Event>)
    requires Inv(w) && c.events == w.campaign.doc.events + more
    requires forall k | 0 <= k < |more| :: !more[k].Attempted? && !IsOutcome(more[k])
    ensures Inv(w.(campaign := Record(c, w.campaign.version + 1)))
  {
    var events := w.campaign.doc.events;
    OtherEventsKeepLog(events, more);
    assert forall k | |events| <= k < |c.events| :: c.events[k] == more[k - |events|];
    assert forall e | e in events :: e in c.events;
  }

  lemma CommitAttemptKeepsInv(w: World, p: nat, r: RequestId)
    requires Inv(w) && Enabled(w, CommitAttempt(p, r))
    ensures Inv(Step(w, CommitAttempt(p, r)))
  {
    var Checking(a, snapshot) := w.calls[p];
    var w' := Step(w, CommitAttempt(p, r));
    assert CallOk(w, w.calls[p]);
    if w'.calls[p].Posting? {
      assert snapshot == w.campaign;
      AttemptKeepsLog(snapshot.doc, a, w.artifacts[a], r);
      AttemptKeepsPosts(w, a, r, w');
      AttemptKeepsCalls(w, p, a, r, w');
    } else {
      MoveKeepsInv(w, p, Idle);
    }
  }

  ghost predicate AttemptAdded(w: World, a: ArtifactId, r: RequestId, w': World) {
    && w'.campaign.version == w.campaign.version + 1
    && w'.campaign.doc.events == w.campaign.doc.events + [Attempted(a, r)]
    && w'.posts == w.posts
    && w'.used == w.used + {r}
  }

  lemma AttemptKeepsPosts(w: World, a: ArtifactId, r: RequestId, w': World)
    requires PostsOk(w) && AttemptAdded(w, a, r, w')
    ensures PostsOk(w')
  {
    assert forall e | e in w.campaign.doc.events :: e in w'.campaign.doc.events;
  }

  lemma AttemptKeepsCalls(w: World, p: nat, a: ArtifactId, r: RequestId, w': World)
    requires CallsOk(w) && PostsOk(w) && AttemptAdded(w, a, r, w') && r !in w.used
    requires p < |w.calls| && w'.calls == w.calls[p := Posting(a, r)]
    ensures CallsOk(w')
  {
    var events, new_ := w.campaign.doc.events, w'.campaign.doc.events;
    assert new_[|events|] == Attempted(a, r);
    forall post | HasPost(w.posts, post) ensures post.request in w.used {
      var i :| 0 <= i < |w.posts| && w.posts[i] == post;
      assert Attempted(post.artifact, post.request) in events;
    }
    forall q | 0 <= q < |w.calls|
      ensures CallOk(w', w'.calls[q]) && (q != p && w.calls[q].InFlight() ==> w.calls[q].request != r)
    {
      assert CallOk(w, w.calls[q]);
      assert forall e | e in events :: e in new_;
      if q == p {
        forall k | 0 <= k < |events| && IsOutcome(events[k]) ensures events[k].request != r {
          assert HasPost(w.posts, Post(events[k].artifact, events[k].request, events[k].RemoteSubmitted?));
        }
        forall i | 0 <= i < |w.posts| ensures w.posts[i].request != r {
          assert HasPost(w.posts, w.posts[i]);
        }
      }
    }
  }

  lemma SendKeepsInv(w: World, p: nat, reply: Reply)
    requires Inv(w) && Enabled(w, Send(p, reply))
    ensures Inv(Step(w, Send(p, reply)))
  {
    var w' := Step(w, Send(p, reply));
    assert CallOk(w, w.calls[p]);
    var n := |w.posts|;
    forall post | HasPost(w.posts, post) ensures HasPost(w'.posts, post) {
      var i :| 0 <= i < n && w.posts[i] == post;
      assert w'.posts[i] == post;
    }
    forall q | 0 <= q < |w.calls| ensures CallOk(w', w'.calls[q]) {
      assert CallOk(w, w.calls[q]);
      if q == p && w'.calls[p].Answered? {
        assert w'.posts[n] == Post(w'.calls[p].artifact, w'.calls[p].request, w'.calls[p].accepted);
      }
    }
  }

  lemma CommitOutcomeKeepsInv(w: World, p: nat)
    requires Inv(w) && Enabled(w, CommitOutcome(p))
    ensures Inv(Step(w, CommitOutcome(p)))
  {
    var Recording(a, r, accepted, snapshot) := w.calls[p];
    var w' := Step(w, CommitOutcome(p));
    assert CallOk(w, w.calls[p]);
    if snapshot.version == w.campaign.version {
      assert snapshot == w.campaign;
      OtherEventsKeepLog(w.campaign.doc.events, OutcomeEvents(a, r, accepted));
      OutcomeKeepsPosts(w, a, r, accepted, w');
      OutcomeKeepsCalls(w, p, w');
    } else {
      MoveKeepsInv(w, p, Idle);
    }
  }

  ghost predicate OutcomeAdded(w: World, a: ArtifactId, r: RequestId, accepted: bool, w': World) {
    && w'.campaign.version == w.campaign.version + 1
    && w'.campaign.doc.events == w.campaign.doc.events + OutcomeEvents(a, r, accepted)
    && w'.posts == w.posts && w'.used == w.used
  }

  lemma OutcomeKeepsPosts(w: World, a: ArtifactId, r: RequestId, accepted: bool, w': World)
    requires PostsOk(w) && OutcomeAdded(w, a, r, accepted, w') && HasPost(w.posts, Post(a, r, accepted))
    ensures PostsOk(w')
  {
    var events, new_ := w.campaign.doc.events, w'.campaign.doc.events;
    assert forall k | |events| <= k < |new_| :: new_[k] == OutcomeEvents(a, r, accepted)[k - |events|];
    assert forall e | e in events :: e in new_;
  }

  lemma OutcomeKeepsCalls(w: World, p: nat, w': World)
    requires CallsOk(w) && p < |w.calls| && w.calls[p].Recording? && w'.calls == w.calls[p := Idle]
    requires OutcomeAdded(w, w.calls[p].artifact, w.calls[p].request, w.calls[p].accepted, w')
    ensures CallsOk(w')
  {
    var events, new_ := w.campaign.doc.events, w'.campaign.doc.events;
    var more := OutcomeEvents(w.calls[p].artifact, w.calls[p].request, w.calls[p].accepted);
    forall k | |events| <= k < |new_| && IsOutcome(new_[k]) ensures new_[k].request == w.calls[p].request {
      assert new_[k] == more[k - |events|];
    }
    forall q | 0 <= q < |w.calls| && q != p ensures CallOk(w', w.calls[q]) {
      assert CallOk(w, w.calls[q]);
      assert events <= new_;
    }
  }

  lemma OtherEventKeepsInv(w: World, c: Campaign, e: Event)
    requires Inv(w) && c.events == w.campaign.doc.events + [e] && !e.Attempted? && !IsOutcome(e)
    ensures Inv(w.(campaign := Record(c, w.campaign.version + 1)))
  {
    WriteKeepsInv(w, c, [e]);
  }

  lemma ReviewKeepsInv(w: World, l: Label)
    requires Inv(w) && Enabled(w, l) && (l.Approve? || l.Revoke? || l.MarkSubmitted?)
    ensures Inv(Step(w, l))
  {
    var c, w' := w.campaign.doc, Step(w, l);
    if w' != w {
      var e := w'.campaign.doc.events[|c.events|];
      assert w' == Write(w, [e]);
      OtherEventKeepsInv(w, w'.campaign.doc, e);
    }
  }

  lemma SwitchKeepsInv(w: World, on: bool)
    requires Inv(w)
    ensures Inv(w.(enabled := on))
  {
    forall q | 0 <= q < |w.calls| ensures CallOk(w.(enabled := on), w.calls[q]) {
      assert CallOk(w, w.calls[q]);
    }
  }

  lemma StepKeepsInv(w: World, l: Label)
    requires Inv(w) && Enabled(w, l)
    ensures Inv(Step(w, l))
  {
    var w' := Step(w, l);
    match l
    case CommitAttempt(p, r) => CommitAttemptKeepsInv(w, p, r);
    case Send(p, reply) => SendKeepsInv(w, p, reply);
    case CommitOutcome(p) => CommitOutcomeKeepsInv(w, p);
    case Read(p, _) =>
      if w.enabled { MoveKeepsInv(w, p, w'.calls[p]); }
    case Reread(p) =>
      assert CallOk(w, w.calls[p]);
      MoveKeepsInv(w, p, w'.calls[p]);
    case Crash(p) => MoveKeepsInv(w, p, Idle);
    case Switch(on) => SwitchKeepsInv(w, on);
    case Bind(handle) => OtherEventKeepsInv(w, w'.campaign.doc, PolicyBound(handle));
    case Edit(facts) => OtherEventKeepsInv(w, w'.campaign.doc, OtherEvent);
    case _ => ReviewKeepsInv(w, l);
  }

  /** A call that only moves on, without writing. */
  lemma MoveKeepsInv(w: World, p: nat, c: Call)
    requires Inv(w) && p < |w.calls| && CallOk(w, c)
    requires c.InFlight() ==> w.calls[p].InFlight() && w.calls[p].request == c.request
    ensures Inv(w.(calls := w.calls[p := c]))
  {
    var w' := w.(calls := w.calls[p := c]);
    forall q | 0 <= q < |w.calls| ensures CallOk(w', w'.calls[q]) {
      assert CallOk(w, w.calls[q]);
    }
  }

  lemma {:induction false} RunKeepsInv(w: World, labels: seq<Label>, w': World)
    requires Inv(w) && Run(w, labels, w')
    ensures Inv(w')
    decreases |labels|
  {
    if labels != [] {
      StepKeepsInv(w, labels[0]);
      RunKeepsInv(Step(w, labels[0]), labels[1..], w');
    }
  }

  // ---------------------------------------------------------------- what a caller may rely on

  /** A report was approved again after it had been marked submitted. */
  ghost predicate ReapprovedAfterSubmission(events: seq<Event>, a: ArtifactId) {
    exists i, j | 0 <= i < j < |events| ::
      && events[i].ReportSubmitted? && events[i].artifact == a
      && events[j].ReportApproved? && events[j].artifact == a
  }

  /** The outcome on record for a report the remote side has processed is what it answered. */
  lemma OutcomeIsTrue(w: World, i: nat, k: nat)
    requires PostsOk(w) && i < |w.posts| && k < |w.campaign.doc.events|
    requires Resolves(w.campaign.doc.events[k], w.posts[i].request)
    ensures var post := w.posts[i];
      w.campaign.doc.events[k]
        == if post.accepted then RemoteSubmitted(post.artifact, post.request) else Rejected(post.artifact, post.request)
  {
    var e := w.campaign.doc.events[k];
    assert HasPost(w.posts, Post(e.artifact, e.request, e.RemoteSubmitted?));
  }

  /** An accepted report whose artifact is attempted again has its success on record in between. */
  lemma SuccessIsRecorded(w: World, p: Post, i: nat, j: nat) returns (k: nat)
    requires Inv(w) && HasPost(w.posts, p) && p.accepted
    requires i < j < |w.campaign.doc.events| && IsAttempt(w.campaign.doc.events[j], p.artifact)
    requires w.campaign.doc.events[i] == Attempted(p.artifact, p.request)
    ensures i < k < j && w.campaign.doc.events[k] == RemoteSubmitted(p.artifact, p.request)
  {
    var events := w.campaign.doc.events;
    ResolvedBeforeNext(events, i, j);
    k :| i < k < j && Resolves(events[k], p.request);
    var x :| 0 <= x < |w.posts| && w.posts[x] == p;
    OutcomeIsTrue(w, x, k);
  }

  /**
   Two accepted reports for one artifact are always separated by the recorded success of the
   first and a later approval, both written before the second attempt.
   */
  lemma AcceptedReportsAreSeparated(w: World, p: Post, q: Post, i: nat, j: nat)
    requires Inv(w) && HasPost(w.posts, p) && HasPost(w.posts, q)
    requires p.accepted && q.accepted && p.artifact == q.artifact
    requires i < j < |w.campaign.doc.events|
    requires w.campaign.doc.events[i] == Attempted(p.artifact, p.request)
    requires w.campaign.doc.events[j] == Attempted(q.artifact, q.request)
    ensures exists k, m | i < k < m < j ::
      && w.campaign.doc.events[k] == RemoteSubmitted(p.artifact, p.request)
      && w.campaign.doc.events[m].ReportApproved? && w.campaign.doc.events[m].artifact == p.artifact
    ensures ReapprovedAfterSubmission(w.campaign.doc.events, p.artifact)
  {
    var events := w.campaign.doc.events;
    var k := SuccessIsRecorded(w, p, i, j);
    assert events[k + 1] == ReportSubmitted(p.artifact, "hackerone");
    var m := ApprovalIsRecorded(events, p.artifact, k + 1, j);
    assert i < k < m < j && events[k] == RemoteSubmitted(p.artifact, p.request);
  }

  lemma ApprovalIsRecorded(events: seq<Event>, a: ArtifactId, i: nat, j: nat) returns (m: nat)
    requires Reapproved(events) && i < |events| && j < |events| && i <= j
    requires events[i].ReportSubmitted? && events[i].artifact == a && IsAttempt(events[j], a)
    ensures i < m < j && events[m].ReportApproved? && events[m].artifact == a
  {
    assert ApprovedBetween(events, a, i, j);
    m :| i < m < j && events[m].ReportApproved? && events[m].artifact == a;
  }

  /** At most one accepted report per artifact, on every run in which nobody re-approves a submitted report. */
  lemma AtMostOnceSubmission(w: World, labels: seq<Label>, w': World, a: ArtifactId, i: nat, j: nat)
    requires Initial(w) && Run(w, labels, w')
    requires !ReapprovedAfterSubmission(w'.campaign.doc.events, a)
    requires i < j < |w'.posts| && w'.posts[i].artifact == w'.posts[j].artifact == a
    ensures !(w'.posts[i].accepted && w'.posts[j].accepted)
  {
    RunKeepsInv(w, labels, w');
    var p, q, events := w'.posts[i], w'.posts[j], w'.campaign.doc.events;
    assert HasPost(w'.posts, p) && HasPost(w'.posts, q);
    var x :| 0 <= x < |events| && events[x] == Attempted(a, p.request);
    var y :| 0 <= y < |events| && events[y] == Attempted(a, q.request);
    if p.accepted && q.accepted {
      if x < y { AcceptedReportsAreSeparated(w', p, q, x, y); } else { AcceptedReportsAreSeparated(w', q, p, y, x); }
    }
  }

  lemma ResolvedBeforeNext(events: seq<Event>, i: nat, j: nat)
    requires AttemptsSerialized(events)
    requires i < j < |events| && events[i].Attempted? && IsAttempt(events[j], events[i].artifact)
    ensures ResolvedBetween(events, i, j)
  {
  }

  /** Nothing is sent before every earlier report for the artifact has its true outcome in the log. */
  lemma SendNeedsRecordedOutcomes(w: World, p: nat, reply: Reply, i: nat)
    requires Inv(w) && Enabled(w, Send(p, reply))
    requires i < |w.posts| && w.posts[i].artifact == w.calls[p].artifact
    ensures var post := w.posts[i];
      (if post.accepted then RemoteSubmitted(post.artifact, post.request) else Rejected(post.artifact, post.request))
        in w.campaign.doc.events
  {
    var events, post, call := w.campaign.doc.events, w.posts[i], w.calls[p];
    assert CallOk(w, call);
    var x :| 0 <= x < |events| && events[x] == Attempted(post.artifact, post.request);
    var y :| 0 <= y < |events| && events[y] == Attempted(call.artifact, call.request);
    if y < x {
      ResolvedBeforeNext(events, y, x);
    } else {
      assert x != y;
      ResolvedBeforeNext(events, x, y);
      var k :| x < k < y && Resolves(events[k], post.request);
      OutcomeIsTrue(w, i, k);
    }
  }

  /** An attempt without recorded outcome whose caller is gone. */
  ghost predicate Abandoned(w: World, a: ArtifactId, r: RequestId) {
    && Attempted(a, r) in w.campaign.doc.events
    && (forall k | 0 <= k < |w.campaign.doc.events| :: !Resolves(w.campaign.doc.events[k], r))
    && (forall p | 0 <= p < |w.calls| && w.calls[p].InFlight() :: w.calls[p].request != r)
  }

  /** Since then nothing has been sent for the report. */
  ghost predicate NoneSent(before: seq<Post>, after: seq<Post>, a: ArtifactId) {
    before <= after && forall k | |before| <= k < |after| :: after[k].artifact != a
  }

  lemma AbandonedIsUnresolved(w: World, a: ArtifactId, r: RequestId)
    requires Inv(w) && Abandoned(w, a, r)
    ensures UnresolvedAttempt(w.campaign.doc.events, a) == Some(r)
    ensures forall p | 0 <= p < |w.calls| && w.calls[p].InFlight() :: w.calls[p].artifact != a
  {
    var events := w.campaign.doc.events;
    var x :| 0 <= x < |events| && events[x] == Attempted(a, r);
    var last := LastIndex(events, e => IsAttempt(e, a));
    assert IsAttempt(events[x], a) && x <= last;
    if x < last {
      ResolvedBeforeNext(events, x, last);
    }
    forall p | 0 <= p < |w.calls| && w.calls[p].InFlight() ensures w.calls[p].artifact != a {
      assert CallOk(w, w.calls[p]);
      if w.calls[p].artifact == a {
        var y :| 0 <= y < |events| && events[y] == Attempted(a, w.calls[p].request);
        if y < x { ResolvedBeforeNext(events, y, x); } else if x < y { ResolvedBeforeNext(events, x, y); }
      }
    }
  }

  /** What one step may add to the log. */
  lemma StepAppends(w: World, l: Label, r: RequestId)
    requires Inv(w) && Enabled(w, l)
    requires forall p | 0 <= p < |w.calls| && w.calls[p].InFlight() :: w.calls[p].request != r
    ensures w.campaign.doc.events <= Step(w, l).campaign.doc.events
    ensures forall k | |w.campaign.doc.events| <= k < |Step(w, l).campaign.doc.events| ::
              !Resolves(Step(w, l).campaign.doc.events[k], r)
    ensures |Step(w, l).calls| == |w.calls|
  {
    if l.CommitAttempt? || l.CommitOutcome? {
      assert CallOk(w, w.calls[l.call]);
    }
  }

  /** A step gives a call a request only from its own attempt, which is fresh. */
  lemma StepKeepsRequest(w: World, l: Label, r: RequestId, p: nat)
    requires Enabled(w, l) && r in w.used && p < |w.calls|
    requires w.calls[p].InFlight() ==> w.calls[p].request != r
    requires |Step(w, l).calls| == |w.calls|
    ensures Step(w, l).calls[p].InFlight() ==> Step(w, l).calls[p].request != r
  {
  }

  lemma SentElsewhere(w: World, l: Label, a: ArtifactId)
    requires Enabled(w, l)
    requires forall p | 0 <= p < |w.calls| && w.calls[p].InFlight() :: w.calls[p].artifact != a
    ensures NoneSent(w.posts, Step(w, l).posts, a)
  {
    if l.Send? {
      assert Step(w, l).posts[..|w.posts|] == w.posts;
      assert w.calls[l.call].artifact != a;
    } else {
      assert Step(w, l).posts == w.posts;
    }
  }

  lemma AbandonedStaysAbandoned(w: World, l: Label, a: ArtifactId, r: RequestId)
    requires Inv(w) && Enabled(w, l) && Abandoned(w, a, r)
    ensures Abandoned(Step(w, l), a, r)
    ensures NoneSent(w.posts, Step(w, l).posts, a)
  {
    AbandonedIsUnresolved(w, a, r);
    StepAppends(w, l, r);
    SentElsewhere(w, l, a);
    assert r in w.used;
    forall p | 0 <= p < |w.calls| ensures Step(w, l).calls[p].InFlight() ==> Step(w, l).calls[p].request != r {
      StepKeepsRequest(w, l, r, p);
    }
    StillAbandoned(w, Step(w, l), a, r);
  }

  lemma StillAbandoned(w: World, w': World, a: ArtifactId, r: RequestId)
    requires Abandoned(w, a, r) && |w'.calls| == |w.calls|
    requires w.campaign.doc.events <= w'.campaign.doc.events
    requires forall k | |w.campaign.doc.events| <= k < |w'.campaign.doc.events| ::
      !Resolves(w'.campaign.doc.events[k], r)
    requires forall p | 0 <= p < |w.calls| :: w'.calls[p].InFlight() ==> w'.calls[p].request != r
    ensures Abandoned(w', a, r)
  {
    var events, new_ := w.campaign.doc.events, w'.campaign.doc.events;
    forall k | 0 <= k < |new_| ensures !Resolves(new_[k], r) {
      if k < |events| { assert new_[k] == events[k]; }
    }
  }

  /** An abandoned attempt blocks the artifact for good: nothing is ever sent for it again. */
  lemma {:induction false} AbandonedBlocksForever(w: World, labels: seq<Label>, w': World, a: ArtifactId, r: RequestId)
    requires Inv(w) && Run(w, labels, w') && Abandoned(w, a, r)
    ensures NoneSent(w.posts, w'.posts, a)
    ensures UnresolvedAttempt(w'.campaign.doc.events, a) == Some(r)
    decreases |labels|
  {
    if labels == [] {
      AbandonedIsUnresolved(w, a, r);
    } else {
      AbandonedStaysAbandoned(w, labels[0], a, r);
      StepKeepsInv(w, labels[0]);
      AbandonedBlocksForever(Step(w, labels[0]), labels[1..], w', a, r);
    }
  }

  // ---------------------------------------------------------------- when a report is sent twice

  /** One undisturbed call, answered with `Created`. */
  function SubmitAlone(w: World, p: nat, a: ArtifactId, r: RequestId): World
    requires Enabled(w, Read(p, a)) && r !in w.used
  {
    var w1 := Step(w, Read(p, a));
    if !w1.calls[p].Checking? then w1
    else
      var w2 := Step(w1, CommitAttempt(p, r));
      if w2.calls[p].Posting? then Step(w2, Send(p, Created)) else w2
  }

  /** The latest review of the report is a current approval, and no submission is recorded after it. */
  ghost predicate ApprovedSinceSubmission(c: Campaign, a: ArtifactId, sha: string) {
    exists m | 0 <= m < |c.events| ::
      && c.events[m].ReportApproved? && c.events[m].artifact == a
      && c.events[m].sha256 == sha && c.events[m].basis == Basis(a, sha, c.facts)
      && forall k | m < k < |c.events| :: !Concerns(c.events[k], a)
  }

  /** An approval, a revocation or a submission of the report. */
  predicate Concerns(e: Event, a: ArtifactId) {
    (e.ReportApproved? || e.ApprovalRevoked? || e.ReportSubmitted?) && e.artifact == a
  }

  ghost predicate HoldsOneFinding(facts: Facts) {
    exists f :: facts.confirmed == multiset{f} && Strip(f.impact) != ""
  }

  /** The latest policy binding is verified and names a handle. */
  ghost predicate BoundToVerifiedProgram(events: seq<Event>) {
    exists m | 0 <= m < |events| ::
      && events[m].PolicyBound? && events[m].handle.Some? && Strip(events[m].handle.value) != ""
      && forall k | m < k < |events| :: !events[k].PolicyBound?
  }

  ghost predicate EveryAttemptResolved(events: seq<Event>, a: ArtifactId) {
    forall i | 0 <= i < |events| && IsAttempt(events[i], a) :: ResolvedBetween(events, i, |events|)
  }

  lemma AllResolvedExactly(events: seq<Event>, a: ArtifactId)
    requires AttemptsSerialized(events)
    ensures UnresolvedAttempt(events, a) == None <==> EveryAttemptResolved(events, a)
  {
    var last := LastIndex(events, e => IsAttempt(e, a));
    if UnresolvedAttempt(events, a) == None {
      forall i | 0 <= i < |events| && IsAttempt(events[i], a) ensures ResolvedBetween(events, i, |events|) {
        if i < last {
          ResolvedBeforeNext(events, i, last);
          var k :| i < k < last && Resolves(events[k], events[i].request);
          assert Resolves(events[k], events[i].request);
        }
      }
    } else {
      assert !ResolvedBetween(events, last, |events|);
    }
  }

  /** The checks before an attempt, said about the whole log instead of its latest entries. */
  lemma MayAttemptExactly(c: Campaign, a: ArtifactId, report: Report)
    requires AttemptsSerialized(c.events)
    ensures MayAttempt(c, a, report) <==>
      && EveryAttemptResolved(c.events, a) && ApprovedSinceSubmission(c, a, report.sha256)
      && HoldsOneFinding(c.facts) && BoundToVerifiedProgram(c.events) && report.utf8
  {
    AllResolvedExactly(c.events, a);
    BoundExactly(c.events);
    OneFindingExactly(c.facts);
    ReviewExactly(c, a, report.sha256);
  }

  lemma BoundExactly(events: seq<Event>)
    ensures HandleVerified(events) <==> BoundToVerifiedProgram(events)
  {
    var i := LastIndex(events, (e: Event) => e.PolicyBound?);
    if BoundToVerifiedProgram(events) {
      var m :| 0 <= m < |events| && events[m].PolicyBound?
        && events[m].handle.Some? && Strip(events[m].handle.value) != ""
        && forall k | m < k < |events| :: !events[k].PolicyBound?;
      assert m == i;
    }
  }

  lemma OneFindingExactly(facts: Facts)
    ensures |facts.confirmed| == 1 && (forall f | f in facts.confirmed :: Strip(f.impact) != "")
      <==> HoldsOneFinding(facts)
  {
    if |facts.confirmed| == 1 {
      var f :| f in facts.confirmed;
      assert |facts.confirmed - multiset{f}| == 0;
      assert facts.confirmed == multiset{f};
    }
  }

  /** Approved, and not marked submitted since, said about the whole log. */
  lemma ReviewExactly(c: Campaign, a: ArtifactId, sha: string)
    ensures !SubmissionStatus(c, a, sha).AlreadySubmitted? && ApprovalStatus(c, a, sha).approved
      <==> ApprovedSinceSubmission(c, a, sha)
  {
    var review := LastIndex(c.events, e => IsReview(e, a));
    if !SubmissionStatus(c, a, sha).AlreadySubmitted? && ApprovalStatus(c, a, sha).approved {
      assert c.events[review].ReportApproved?;
      assert forall k | review < k < |c.events| :: !(c.events[k].ReportSubmitted? && c.events[k].artifact == a);
      assert ApprovedSinceSubmission(c, a, sha);
    }
    if ApprovedSinceSubmission(c, a, sha) {
      var m :| 0 <= m < |c.events|
        && c.events[m].ReportApproved? && c.events[m].artifact == a
        && c.events[m].sha256 == sha && c.events[m].basis == Basis(a, sha, c.facts)
        && forall k | m < k < |c.events| :: !Concerns(c.events[k], a);
      assert IsReview(c.events[m], a) && review == m;
    }
  }

  /**
   At-most-once fails exactly here: whatever was accepted before, an undisturbed call is accepted
   once more if and only if submission is switched on, every attempt has an outcome, the report holds
   a current approval that is newer than its last submission, and the report can be composed: one
   confirmed finding with an impact, a verified program handle and readable text.
   */
  lemma SentAgainExactlyWhenReapproved(w: World, p: nat, a: ArtifactId, r: RequestId)
    requires Inv(w) && Enabled(w, Read(p, a)) && r !in w.used
    ensures Inv(SubmitAlone(w, p, a, r))
    ensures var c, report := w.campaign.doc, w.artifacts[a];
      if w.enabled && EveryAttemptResolved(c.events, a) && ApprovedSinceSubmission(c, a, report.sha256)
         && HoldsOneFinding(c.facts) && BoundToVerifiedProgram(c.events) && report.utf8
      then SubmitAlone(w, p, a, r).posts == w.posts + [Post(a, r, true)]
      else SubmitAlone(w, p, a, r).posts == w.posts
  {
    MayAttemptExactly(w.campaign.doc, a, w.artifacts[a]);
    var w1 := Step(w, Read(p, a));
    StepKeepsInv(w, Read(p, a));
    if w.enabled {
      StepKeepsInv(w1, CommitAttempt(p, r));
      var w2 := Step(w1, CommitAttempt(p, r));
      if w2.calls[p].Posting? {
        StepKeepsInv(w2, Send(p, Created));
      }
    }
  }

  lemma RunAfter(w: World, l: Label, rest: seq<Label>, w': World)
    requires Enabled(w, l) && Run(Step(w, l), rest, w')
    ensures Run(w, [l] + rest, w')
  {
    assert ([l] + rest)[1..] == rest;
  }

  lemma {:induction false} RunThenRun(w: World, first: seq<Label>, mid: World, second: seq<Label>, w': World)
    requires Run(w, first, mid) && Run(mid, second, w')
    ensures Run(w, first + second, w')
    decreases |first|
  {
    if first == [] {
      assert first + second == second;
    } else {
      RunThenRun(Step(w, first[0]), first[1..], mid, second, w');
      assert (first + second)[1..] == first[1..] + second;
    }
  }

  ghost predicate Submitted(w: World, a: ArtifactId, r: RequestId, w': World) {
    && w'.campaign.doc
       == Append(w.campaign.doc, [Attempted(a, r), RemoteSubmitted(a, r), ReportSubmitted(a, "hackerone")])
    && w'.artifacts == w.artifacts && w'.calls == w.calls && w'.enabled == w.enabled
    && w'.posts == w.posts + [Post(a, r, true)] && w'.used == w.used + {r}
  }

  ghost predicate Refused(w: World, a: ArtifactId, r: RequestId, w': World) {
    && w'.campaign.doc == Append(w.campaign.doc, [Attempted(a, r), Rejected(a, r)])
    && w'.artifacts == w.artifacts && w'.calls == w.calls && w'.enabled == w.enabled
    && w'.posts == w.posts + [Post(a, r, false)] && w'.used == w.used + {r}
  }

  /** A call up to the answer of the remote side. */
  lemma UndisturbedAttempt(w: World, p: nat, a: ArtifactId, r: RequestId, reply: Reply)
    returns (labels: seq<Label>, w': World)
    requires Enabled(w, Read(p, a)) && r !in w.used && w.enabled && MayAttempt(w.campaign.doc, a, w.artifacts[a])
    ensures labels == [Read(p, a), CommitAttempt(p, r), Send(p, reply)] && Run(w, labels, w')
    ensures w'.campaign.doc == Append(w.campaign.doc, [Attempted(a, r)]) && w'.used == w.used + {r}
    ensures w'.artifacts == w.artifacts && w'.enabled == w.enabled
    ensures match reply
      case Created => w'.posts == w.posts + [Post(a, r, true)] && w'.calls == w.calls[p := Answered(a, r, true)]
      case ClientError => w'.posts == w.posts + [Post(a, r, false)] && w'.calls == w.calls[p := Answered(a, r, false)]
      case Lost(accepted) => w'.posts == w.posts + [Post(a, r, accepted)] && w'.calls == w.calls
  {
    var w1 := Step(w, Read(p, a));
    var w2 := Step(w1, CommitAttempt(p, r));
    w' := Step(w2, Send(p, reply));
    assert Run(w', [], w');
    RunAfter(w2, Send(p, reply), [], w');
    RunAfter(w1, CommitAttempt(p, r), [Send(p, reply)], w');
    RunAfter(w, Read(p, a), [CommitAttempt(p, r), Send(p, reply)], w');
    labels := [Read(p, a), CommitAttempt(p, r), Send(p, reply)];
  }

  lemma UndisturbedOutcome(w: World, p: nat, a: ArtifactId, r: RequestId, accepted: bool) returns (w': World)
    requires p < |w.calls| && w.calls[p] == Answered(a, r, accepted)
    ensures Run(w, [Reread(p), CommitOutcome(p)], w')
    ensures w' == w.(campaign := w'.campaign, calls := w.calls[p := Idle])
    ensures w'.campaign.doc == Append(w.campaign.doc,
      if accepted then [RemoteSubmitted(a, r), ReportSubmitted(a, "hackerone")] else [Rejected(a, r)])
  {
    var w1 := Step(w, Reread(p));
    w' := Step(w1, CommitOutcome(p));
    assert Run(w', [], w');
    RunAfter(w1, CommitOutcome(p), [], w');
    RunAfter(w, Reread(p), [CommitOutcome(p)], w');
  }

  function WholeCall(p: nat, a: ArtifactId, r: RequestId, reply: Reply): seq<Label> {
    [Read(p, a), CommitAttempt(p, r), Send(p, reply)] + [Reread(p), CommitOutcome(p)]
  }

  /** An undisturbed call that passes the checks and is accepted sends one report and records its success. */
  lemma UndisturbedCallRecordsOutcome(w: World, p: nat, a: ArtifactId, r: RequestId) returns (w': World)
    requires Enabled(w, Read(p, a)) && r !in w.used && w.enabled && MayAttempt(w.campaign.doc, a, w.artifacts[a])
    ensures Run(w, WholeCall(p, a, r, Created), w') && Submitted(w, a, r, w')
  {
    var first, w1 := UndisturbedAttempt(w, p, a, r, Created);
    w' := UndisturbedOutcome(w1, p, a, r, true);
    RunThenRun(w, first, w1, [Reread(p), CommitOutcome(p)], w');
    assert w'.calls == w.calls;
    assert [Attempted(a, r)] + [RemoteSubmitted(a, r), ReportSubmitted(a, "hackerone")]
        == [Attempted(a, r), RemoteSubmitted(a, r), ReportSubmitted(a, "hackerone")];
    AppendTwice(w.campaign.doc, [Attempted(a, r)], [RemoteSubmitted(a, r), ReportSubmitted(a, "hackerone")]);
  }

  lemma AppendTwice(c: Campaign, first: seq<Event>, second: seq<Event>)
    ensures Append(Append(c, first), second) == Append(c, first + second)
  {
    assert c.events + first + second == c.events + (first + second);
  }

  /** One that is refused records that: nothing is left open, and the report may be sent again. */
  lemma RefusedCallMayBeRepeated(w: World, p: nat, a: ArtifactId, r: RequestId) returns (w': World)
    requires Enabled(w, Read(p, a)) && r !in w.used && w.enabled && MayAttempt(w.campaign.doc, a, w.artifacts[a])
    requires AttemptsSerialized(w.campaign.doc.events)
    ensures Run(w, WholeCall(p, a, r, ClientError), w') && Refused(w, a, r, w')
    ensures EveryAttemptResolved(w'.campaign.doc.events, a) && MayAttempt(w'.campaign.doc, a, w'.artifacts[a])
  {
    var first, w1 := UndisturbedAttempt(w, p, a, r, ClientError);
    w' := UndisturbedOutcome(w1, p, a, r, false);
    RunThenRun(w, first, w1, [Reread(p), CommitOutcome(p)], w');
    assert w'.calls == w.calls;
    assert [Attempted(a, r)] + [Rejected(a, r)] == [Attempted(a, r), Rejected(a, r)];
    AppendTwice(w.campaign.doc, [Attempted(a, r)], [Rejected(a, r)]);
    RefusalReopens(w.campaign.doc, a, r, w.artifacts[a]);
  }

  lemma RefusalReopens(c: Campaign, a: ArtifactId, r: RequestId, report: Report)
    requires MayAttempt(c, a, report) && AttemptsSerialized(c.events)
    ensures var c' := Append(c, [Attempted(a, r), Rejected(a, r)]);
      EveryAttemptResolved(c'.events, a) && MayAttempt(c', a, report)
  {
    var more := [Attempted(a, r), Rejected(a, r)];
    var c' := Append(c, more);
    var n := |c.events|;
    AllResolvedExactly(c.events, a);
    assert c'.events[n] == Attempted(a, r) && c'.events[n + 1] == Rejected(a, r);
    forall i | 0 <= i < |c'.events| && IsAttempt(c'.events[i], a) ensures ResolvedBetween(c'.events, i, |c'.events|) {
      if i < n {
        assert ResolvedBetween(c.events, i, n);
        var k :| i < k < n && Resolves(c.events[k], c.events[i].request);
        assert Resolves(c'.events[k], c'.events[i].request);
      } else {
        assert Resolves(c'.events[n + 1], c'.events[i].request);
      }
    }
    HandleStays(c.events, more);
    ReviewExactly(c, a, report.sha256);
    ApprovalStays(c, c', more, a, report.sha256);
    ReviewExactly(c', a, report.sha256);
    var last := LastIndex(c'.events, e => IsAttempt(e, a));
    assert last == n;
  }

  lemma ApprovalStays(c: Campaign, c': Campaign, more: seq<Event>, a: ArtifactId, sha: string)
    requires ApprovedSinceSubmission(c, a, sha) && c' == Append(c, more)
    requires forall k | 0 <= k < |more| :: !Concerns(more[k], a)
    ensures ApprovedSinceSubmission(c', a, sha)
  {
    var m :| 0 <= m < |c.events|
      && c.events[m].ReportApproved? && c.events[m].artifact == a
      && c.events[m].sha256 == sha && c.events[m].basis == Basis(a, sha, c.facts)
      && forall k | m < k < |c.events| :: !Concerns(c.events[k], a);
    assert c'.events[m] == c.events[m];
    forall k | m < k < |c'.events|
      ensures !Concerns(c'.events[k], a)
    {
      if k >= |c.events| { assert c'.events[k] == more[k - |c.events|]; }
    }
  }

  /** One whose answer is lost leaves its attempt open, and no call attempts the report again. */
  lemma LostCallBlocks(w: World, p: nat, a: ArtifactId, r: RequestId, accepted: bool) returns (w': World)
    requires Enabled(w, Read(p, a)) && r !in w.used && w.enabled && MayAttempt(w.campaign.doc, a, w.artifacts[a])
    ensures Run(w, [Read(p, a), CommitAttempt(p, r), Send(p, Lost(accepted))], w')
    ensures w'.campaign.doc == Append(w.campaign.doc, [Attempted(a, r)]) && w'.calls == w.calls
    ensures w'.posts == w.posts + [Post(a, r, accepted)]
    ensures UnresolvedAttempt(w'.campaign.doc.events, a) == Some(r)
    ensures !MayAttempt(w'.campaign.doc, a, w.artifacts[a])
  {
    var labels;
    labels, w' := UndisturbedAttempt(w, p, a, r, Lost(accepted));
    var events := w'.campaign.doc.events;
    assert events[|events| - 1] == Attempted(a, r);
    assert LastIndex(events, e => IsAttempt(e, a)) == |events| - 1;
  }

  function ApprovalOf(w: World, a: ArtifactId, reviewer: string): Event
    requires a in w.artifacts
  {
    ReportApproved(a, w.artifacts[a].sha256, Basis(a, w.artifacts[a].sha256, w.campaign.doc.facts), reviewer)
  }

  /** Events of other kinds leave the latest policy binding what it is. */
  lemma {:induction false} HandleStays(events: seq<Event>, more: seq<Event>)
    requires forall k | 0 <= k < |more| :: !more[k].PolicyBound?
    ensures HandleVerified(events + more) <==> HandleVerified(events)
    decreases |more|
  {
    if more == [] {
      assert events + more == events;
    } else {
      var n := |more| - 1;
      assert (events + more)[..|events| + n] == events + more[..n];
      HandleStays(events, more[..n]);
    }
  }

  lemma ResolvedStays(events: seq<Event>, e: Event, a: ArtifactId)
    requires EveryAttemptResolved(events, a) && !e.Attempted?
    ensures EveryAttemptResolved(events + [e], a)
  {
    var new_ := events + [e];
    forall i | 0 <= i < |new_| && IsAttempt(new_[i], a) ensures ResolvedBetween(new_, i, |new_|) {
      assert ResolvedBetween(events, i, |events|);
      var k :| i < k < |events| && Resolves(events[k], events[i].request);
      assert Resolves(new_[k], new_[i].request);
    }
  }

  /** A new approval by another reviewer re-opens a report whose attempts are all resolved. */
  lemma ApprovalReopens(w: World, a: ArtifactId, reviewer: string)
    requires LogOk(w.campaign.doc.events) && EveryAttemptResolved(w.campaign.doc.events, a) && a in w.artifacts
    requires Composable(w.campaign.doc, w.artifacts[a])
    requires forall k | 0 <= k < |w.campaign.doc.events| && w.campaign.doc.events[k].ReportApproved? ::
               w.campaign.doc.events[k].reviewer != reviewer
    ensures var w' := Step(w, Approve(a, reviewer));
      && w' == Write(w, [ApprovalOf(w, a, reviewer)])
      && MayAttempt(w'.campaign.doc, a, w.artifacts[a])
  {
    var w', events := Step(w, Approve(a, reviewer)), w.campaign.doc.events;
    var e := ApprovalOf(w, a, reviewer);
    var new_ := w'.campaign.doc.events;
    assert w' == Write(w, [e]) && new_[|events|] == e;
    OtherEventsKeepLog(events, [e]);
    HandleStays(events, [e]);
    BoundExactly(new_);
    OneFindingExactly(w'.campaign.doc.facts);
    ResolvedStays(events, e, a);
    MayAttemptExactly(w'.campaign.doc, a, w.artifacts[a]);
  }

  ghost predicate ApprovedAndSubmitted(w: World, a: ArtifactId, reviewer: string, r: RequestId, w': World) {
    && w'.artifacts == w.artifacts && w'.calls == w.calls && w'.enabled == w.enabled
    && w'.posts == w.posts + [Post(a, r, true)] && w'.used == w.used + {r}
    && EveryAttemptResolved(w'.campaign.doc.events, a)
    && w'.campaign.doc.facts == w.campaign.doc.facts
    && HandleVerified(w'.campaign.doc.events) == HandleVerified(w.campaign.doc.events)
    && forall e | e in w'.campaign.doc.events && e.ReportApproved? ::
         e in w.campaign.doc.events || e.reviewer == reviewer
  }

  lemma ApproveThenSubmit(w: World, a: ArtifactId, reviewer: string, r: RequestId)
    returns (labels: seq<Label>, w': World)
    requires Inv(w) && w.calls == [Idle] && a in w.artifacts && r !in w.used && w.enabled
    requires EveryAttemptResolved(w.campaign.doc.events, a) && Composable(w.campaign.doc, w.artifacts[a])
    requires forall e | e in w.campaign.doc.events && e.ReportApproved? :: e.reviewer != reviewer
    ensures Run(w, labels, w') && ApprovedAndSubmitted(w, a, reviewer, r, w')
  {
    var w1 := Step(w, Approve(a, reviewer));
    ApprovalReopens(w, a, reviewer);
    StepKeepsInv(w, Approve(a, reviewer));
    w' := UndisturbedCallRecordsOutcome(w1, 0, a, r);
    labels := WholeCall(0, a, r, Created);
    RunAfter(w, Approve(a, reviewer), labels, w');
    labels := [Approve(a, reviewer)] + labels;
    SubmittedIsResolved(w1, a, r, w');
    OnlyNewApproval(w, a, reviewer, r, w1, w');
  }

  lemma OnlyNewApproval(w: World, a: ArtifactId, reviewer: string, r: RequestId, w1: World, w': World)
    requires a in w.artifacts && Submitted(w1, a, r, w') && EveryAttemptResolved(w'.campaign.doc.events, a)
    requires w1 == Write(w, [ApprovalOf(w, a, reviewer)])
    ensures ApprovedAndSubmitted(w, a, reviewer, r, w')
  {
    HandleStays(w.campaign.doc.events, [ApprovalOf(w, a, reviewer)]);
    HandleStays(w1.campaign.doc.events, [Attempted(a, r), RemoteSubmitted(a, r), ReportSubmitted(a, "hackerone")]);
  }

  lemma SubmittedIsResolved(w: World, a: ArtifactId, r: RequestId, w': World)
    requires a in w.artifacts && Submitted(w, a, r, w') && MayAttempt(w.campaign.doc, a, w.artifacts[a])
    requires AttemptsSerialized(w.campaign.doc.events)
    ensures EveryAttemptResolved(w'.campaign.doc.events, a)
  {
    var events, new_ := w.campaign.doc.events, w'.campaign.doc.events;
    MayAttemptExactly(w.campaign.doc, a, w.artifacts[a]);
    assert Resolves(new_[|events| + 1], r);
    forall i | 0 <= i < |new_| && IsAttempt(new_[i], a) ensures ResolvedBetween(new_, i, |new_|) {
      if i < |events| {
        assert ResolvedBetween(events, i, |events|);
        var k :| i < k < |events| && Resolves(events[k], events[i].request);
        assert Resolves(new_[k], new_[i].request);
      }
    }
  }

  /** A campaign with one confirmed finding, bound to a verified program. */
  function ReadyCampaign(): Campaign {
    Campaign([OtherEvent, PolicyBound(Some("h"))], Facts(multiset{Finding("f", "i", 0)}, 0))
  }

  lemma ReadyCampaignIsComposable(report: Report)
    requires report.utf8
    ensures Composable(ReadyCampaign(), report)
  {
    var c := ReadyCampaign();
    assert Strip("h") == "h" && Strip("i") == "i";
    assert LastIndex(c.events, (e: Event) => e.PolicyBound?) == 1;
    assert |c.facts.confirmed| == 1;
  }

  /** Submission is switched on, a finding is confirmed, and the campaign is bound to a program. */
  lemma Prepare(w: World) returns (labels: seq<Label>, w': World)
    requires Initial(w)
    ensures Run(w, labels, w') && Inv(w')
    ensures w'.enabled && w'.calls == w.calls && w'.artifacts == w.artifacts && w'.posts == [] && w'.used == {}
    ensures w'.campaign.doc == ReadyCampaign()
  {
    var facts := ReadyCampaign().facts;
    var w1 := Step(w, Switch(true));
    var w2 := Step(w1, Edit(facts));
    w' := Step(w2, Bind(Some("h")));
    labels := [Switch(true), Edit(facts), Bind(Some("h"))];
    assert Run(w', [], w');
    assert labels[1..] == [Edit(facts), Bind(Some("h"))];
    assert labels[1..][1..] == [Bind(Some("h"))];
    assert labels[1..][1..][1..] == [];
    RunKeepsInv(w, labels, w');
  }

  lemma SubmitTwice(w: World, a: ArtifactId) returns (labels: seq<Label>, w': World)
    requires Inv(w) && w.calls == [Idle] && a in w.artifacts && w.enabled && w.used == {} && w.posts == []
    requires EveryAttemptResolved(w.campaign.doc.events, a) && Composable(w.campaign.doc, w.artifacts[a])
    requires forall e | e in w.campaign.doc.events :: !e.ReportApproved?
    ensures Run(w, labels, w') && w'.posts == [Post(a, 1, true), Post(a, 2, true)]
  {
    var first, w1 := ApproveThenSubmit(w, a, "alice", 1);
    RunKeepsInv(w, first, w1);
    var second;
    second, w' := ApproveThenSubmit(w1, a, "bob", 2);
    labels := first + second;
    RunThenRun(w, first, w1, second, w');
  }

  /**
   Two accepted reports for one artifact: another reviewer approves the report after it was
   submitted, and `submission_status` then counts no submission.
   */
  lemma ResubmissionExample(w: World, a: ArtifactId) returns (labels: seq<Label>, w': World)
    requires Initial(w) && w.calls == [Idle] && a in w.artifacts && w.artifacts[a].utf8
    ensures Run(w, labels, w') && w'.posts == [Post(a, 1, true), Post(a, 2, true)]
  {
    var first, w1 := Prepare(w);
    ReadyCampaignIsComposable(w.artifacts[a]);
    var second;
    second, w' := SubmitTwice(w1, a);
    labels := first + second;
    RunThenRun(w, first, w1, second, w');
  }
}
