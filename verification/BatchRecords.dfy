/**
 What a batch record says at any time, and what a single try or a cancellation leaves of a member
 (hackerone_batch.py).
 */
module BatchRecords {
  import opened Wrappers
  import opened VersionedLog
  import opened Batch

  // ---------------------------------------------------------------- the state of a record

  predicate AllFinished(ms: seq<Member>) {
    forall i | 0 <= i < |ms| ::
      ms[i].status == Done || ms[i].status == Review || ms[i].status == Blocked || ms[i].status == Cancelled
  }

  predicate SomeRuns(ms: seq<Member>) {
    exists i | 0 <= i < |ms| :: ms[i].status == Running
  }

  /** In every reachable world: completed means all have finished, running that some member runs, queued the rest. */
  lemma StateSaysWhatMembersDo(w: World, labels: seq<Label>, w': World, i: nat)
    requires Initial(w) && Run(w, labels, w') && i < |w'.batches|
    ensures var b := w'.batches[i].doc;
      && (b.state == Completed ==> AllFinished(b.members))
      && (AllFinished(b.members) ==> b.state == Completed || b.state == CancelledBatch)
      && (b.state == InProgress <==> SomeRuns(b.members))
      && (b.state == Queued <==> !AllFinished(b.members) && !SomeRuns(b.members))
      && (b.state == CancelledBatch ==> AllFinished(b.members))
  {
    RecordsInOrder(w, labels, w', i);
    var b := w'.batches[i].doc;
    if SomeRuns(b.members) { assert !AllFinished(b.members); }
  }

  /** How many members have a status. */
  function Having(ms: seq<Member>, s: Status): set<nat> {
    set i: nat | i < |ms| && ms[i].status == s
  }

  lemma HavingOneMore(ms: seq<Member>, m: Member, s: Status)
    ensures |Having(ms + [m], s)| == |Having(ms, s)| + if m.status == s then 1 else 0
  {
    if m.status == s {
      assert Having(ms + [m], s) == Having(ms, s) + {|ms|};
    } else {
      assert Having(ms + [m], s) == Having(ms, s);
    }
  }

  lemma {:induction false} CountIsHowMany(ms: seq<Member>, s: Status)
    ensures CountStatus(ms, s) == |Having(ms, s)|
  {
    if ms == [] {
      assert Having(ms, s) == {};
    } else {
      var n := |ms| - 1;
      CountIsHowMany(ms[..n], s);
      HavingOneMore(ms[..n], ms[n], s);
      assert ms == ms[..n] + [ms[n]];
    }
  }

  /** In every reachable world the summary counts the members by status. */
  lemma SummaryCounts(w: World, labels: seq<Label>, w': World, i: nat)
    requires Initial(w) && Run(w, labels, w') && i < |w'.batches|
    ensures var ms, s := w'.batches[i].doc.members, w'.batches[i].doc.summary;
      && s.ready == |Having(ms, Ready)| && s.running == |Having(ms, Running)| && s.done == |Having(ms, Done)|
      && s.review == |Having(ms, Review)| && s.blocked == |Having(ms, Blocked)|
      && s.cancelled == |Having(ms, Cancelled)|
  {
    RecordsInOrder(w, labels, w', i);
    var ms := w'.batches[i].doc.members;
    CountIsHowMany(ms, Ready);
    CountIsHowMany(ms, Running);
    CountIsHowMany(ms, Done);
    CountIsHowMany(ms, Review);
    CountIsHowMany(ms, Blocked);
    CountIsHowMany(ms, Cancelled);
  }

  // ---------------------------------------------------------------- retries

  lemma {:induction false} Pow2Positive(n: nat)
    ensures Pow2(n) >= 1 && Pow2(n + 1) == 2 * Pow2(n)
  {
    if n > 0 { Pow2Positive(n - 1); }
  }

  /** The first delay is 15 seconds, each further one twice the last, up to five minutes. */
  lemma DelayDoubles(n: nat)
    requires n >= 1
    ensures Delay(1) == 15
    ensures Delay(n + 1) == if 2 * Delay(n) <= 300 then 2 * Delay(n) else 300
  {
    Pow2Positive(n - 1);
    assert Pow2(0) == 1;
  }

  /** A deferred member is tried again from the time set for it on, and not before; without one, at once. */
  lemma DueFromItsTime(m: Member, now: int)
    ensures RetryDue(m, now) <==> (m.retryAt.Some? ==> m.retryAt.value <= now)
  {
  }

  /** The deferral sets a time that is as many seconds ahead as the ladder says. */
  lemma DeferredByTheLadder(m: Member, a: Answers, now: int)
    requires m.status.Ready? && m.attempts + 1 < MAX_ATTEMPTS && a.remote.RemoteUnavailable?
    ensures Advanced(m, a, now)
      == m.(attempts := m.attempts + 1, retryAt := Some(now + Delay(m.attempts + 1)),
            reason := Some("remote_revalidation_unavailable"))
  {
  }

  // ---------------------------------------------------------------- reasons

  /** The text behind the status a try gives; a lost start race and an exhausted ladder have names of their own. */
  function Explanation(m: Member, a: Answers): string {
    match a.remote
    case RemoteReview(why) => why
    case RemoteUnavailable =>
      if m.attempts >= 7 then "remote_revalidation_retry_exhausted" else "remote_revalidation_unavailable"
    case RemoteOk =>
      match a.start
      case Started => ""
      case OtherError(name) => name
      case HttpError(code, after, detail) =>
        if after.Some?
          && (after.value.CampaignRunning? || after.value.CampaignCompleted? || after.value.CampaignCancelled?)
        then ""
        else if code == 409 && after.Some? && (after.value.CampaignReady? || after.value.CampaignFailed?)
        then "start_conflict_retry"
        else detail
  }

  const LONGEST_REASON := 500

  /** The reason on record is the explanation, cut to 500 characters; no explanation leaves none. */
  lemma ReasonIsTheExplanation(m: Member, a: Answers, now: int)
    ensures var r, text := Advanced(m, a, now).reason, Explanation(m, a);
      && (r == None <==> text == "")
      && (r.Some? ==> r.value <= text && |r.value| == if |text| < LONGEST_REASON then |text| else LONGEST_REASON)
  {
    assert MAX_ATTEMPTS == 8;
  }

  /** A try or an ended deferral starts the count over and keeps the campaign. */
  lemma TryKeepsTheRest(m: Member, a: Answers, now: int)
    ensures var r := Advanced(m, a, now);
      r.campaign == m.campaign && (!r.status.Ready? || a.remote.RemoteOk? ==> r.attempts == 0 && r.retryAt == None)
  {
  }

  // ---------------------------------------------------------------- without lost start races

  /** No pass of the history finds a campaign changed when it starts it. */
  ghost predicate NoRaceLost(b: Document, entries: seq<Entry>)
    decreases |entries|
  {
    entries == [] ||
    ((forall k | 0 <= k < |b.members| :: !Loses(b, entries[0], k)) && NoRaceLost(Next(b, entries[0]), entries[1..]))
  }

  function Passes(entries: seq<Entry>): nat {
    if entries == [] then 0 else (if entries[0].ByPass? then 1 else 0) + Passes(entries[1..])
  }

  lemma {:induction false} NothingConflicts(b: Document, env: Environment, now: int, n: nat)
    requires n <= |b.members| && forall k | 0 <= k < |b.members| :: !Loses(b, ByPass(env, now), k)
    ensures Conflicts(b, env, now, n) == 0
  {
    if n > 0 {
      NothingConflicts(b, env, now, n - 1);
      assert !Loses(b, ByPass(env, now), n - 1);
    }
  }

  lemma {:induction false} NothingIsLost(b: Document, entries: seq<Entry>, k: nat)
    requires DocumentOk(b) && NoRaceLost(b, entries) && k < |b.members|
    ensures AllConflicts(b, entries) == 0 && SmoothPasses(b, entries) == Passes(entries) && Losses(b, entries, k) == 0
    decreases |entries|
  {
    if entries != [] {
      NextKeepsDocument(b, entries[0]);
      NothingIsLost(Next(b, entries[0]), entries[1..], k);
      if entries[0].ByPass? { NothingConflicts(b, entries[0].env, entries[0].now, |b.members|); }
    }
  }

  /** Where no start race is lost, a batch commits at most nine passes per member. */
  lemma NinePassesEach(mode: Mode, campaigns: seq<string>, entries: seq<Entry>, b': Document)
    requires campaigns != [] && History(NewBatch(mode, campaigns), entries, b')
    requires NoRaceLost(NewBatch(mode, campaigns), entries)
    ensures Passes(entries) <= 9 * |campaigns|
  {
    NewBatchOk(mode, campaigns);
    BoundedCommits(NewBatch(mode, campaigns), entries, b');
    NothingIsLost(NewBatch(mode, campaigns), entries, 0);
  }

  /** And a member that is still ready was deferred as often as its count says, at most seven times. */
  lemma SevenDeferralsAtMost(mode: Mode, campaigns: seq<string>, entries: seq<Entry>, b': Document, k: nat)
    requires campaigns != [] && History(NewBatch(mode, campaigns), entries, b')
    requires NoRaceLost(NewBatch(mode, campaigns), entries) && k < |campaigns| == |b'.members|
    ensures Deferrals(NewBatch(mode, campaigns), entries, k) <= 8
    ensures b'.members[k].status.Ready? ==>
      b'.members[k].attempts == Deferrals(NewBatch(mode, campaigns), entries, k) <= 7
  {
    NewBatchOk(mode, campaigns);
    SevenDeferrals(NewBatch(mode, campaigns), entries, b', k);
    NothingIsLost(NewBatch(mode, campaigns), entries, k);
  }

  // ---------------------------------------------------------------- cancelling

  /** Cancelling keeps what is done or cancelled; the rest is cancelled, explained by a failure to stop it if any. */
  lemma CancellingLeaves(b: Document, failures: nat -> Option<string>, k: nat)
    requires k < |b.members|
    ensures var m, r := b.members[k], Next(b, ByCancel(failures)).members[k];
      && r.status == (if m.status == Done then Done else Cancelled)
      && r.campaign == m.campaign && r.attempts == m.attempts && r.retryAt == m.retryAt
      && r.reason == (if m.status != Done && m.status != Cancelled && failures(k).Some? then failures(k) else m.reason)
    ensures Next(b, ByCancel(failures)).state == CancelledBatch && Next(b, ByCancel(failures)).mode == b.mode
  {
  }
}
