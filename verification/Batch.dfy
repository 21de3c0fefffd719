/**
 The HackerOne batch scheduler (hackerone_batch.py) and the launch and cancel endpoints around it
 (hackerone_api.py): several callers reconcile, cancel and launch concurrently, the learning sync
 (github_learning_sync.py) writes finished records too, every batch record is written under
 compare-and-set, and launches run under one lock.
 What the remote program, the campaign store and the job queue answer is arbitrary.
 */
module Batch {
  import opened Wrappers
  import opened VersionedLog

  datatype Status = Ready | Running | Done | Review | Blocked | Cancelled

  datatype Member = Member(
    campaign: string,
    status: Status,
    attempts: nat,         // remote_revalidation_attempts; 0 when absent
    retryAt: Option<int>,  // remote_revalidation_retry_at, in seconds
    reason: Option<string>)

  datatype Mode = Sequential | Parallel

  datatype State = Queued | InProgress | Completed | CancelledBatch

  datatype Summary = Summary(ready: nat, running: nat, done: nat, review: nat, blocked: nat, cancelled: nat)

  datatype Document = Document(mode: Mode, state: State, members: seq<Member>, summary: Summary)

  const MAX_ATTEMPTS := 8
  const BASE_SECONDS := 15
  const MAX_SECONDS := 300

  predicate Terminal(s: Status) {
    s.Done? || s.Review? || s.Blocked? || s.Cancelled?
  }

  predicate Final(s: State) {
    s.Completed? || s.CancelledBatch?
  }

  // ---------------------------------------------------------------- what the outside answers

  datatype CampaignState =
    | CampaignReady
    | CampaignRunning
    | CampaignCompleted
    | CampaignFailed
    | CampaignCancelled
    | OtherState

  datatype Counts = Counts(queued: nat, running: nat, completed: nat, failed: nat, cancelled: nat)

  /** Outcome of revalidating the remote program; unavailability is a timeout, 408, 429 or 5xx. */
  datatype Remote = RemoteOk | RemoteReview(why: string) | RemoteUnavailable

  /** `start_campaign`: success, an HTTP error with the campaign state seen afterwards, or another exception. */
  datatype Start =
    | Started
    | HttpError(code: int, after: Option<CampaignState>, detail: string)
    | OtherError(name: string)

  /** Everything one pass may learn about one member. */
  datatype Answers = Answers(state: Option<CampaignState>, counts: Counts, remote: Remote, start: Start)

  type Environment = nat -> Answers

  /** `_member_finished`: the final status of a running member, if it has finished. */
  function MemberFinished(a: Answers): (r: Option<Status>)
    ensures r.Some? ==> Terminal(r.value)
  {
    match a.state
    case None => Some(Blocked)
    case Some(CampaignCancelled) => Some(Cancelled)
    case Some(CampaignFailed) => Some(Blocked)
    case Some(CampaignCompleted) => Some(Done)
    case _ =>
      if a.counts.queued > 0 || a.counts.running > 0 then None
      else if a.counts.completed + a.counts.failed + a.counts.cancelled == 0 then None
      else if a.counts.failed > 0 then Some(Review)
      else Some(Done)
  }

  const UNAVAILABLE := "remote_revalidation_unavailable"
  const CONFLICT := "start_conflict_retry"
  const EXHAUSTED := "remote_revalidation_retry_exhausted"

  /** `_start_member`: the next status of a ready member and the reason given for it. */
  function StartMember(a: Answers): (Status, Option<string>) {
    match a.remote
    case RemoteReview(why) => (Review, Some(why))
    case RemoteUnavailable => (Ready, Some(UNAVAILABLE))
    case RemoteOk =>
      match a.start
      case Started => (Running, None)
      case OtherError(name) => (Blocked, Some(name))
      case HttpError(code, after, detail) =>
        if after == Some(CampaignRunning) then (Running, None)
        else if after == Some(CampaignCompleted) then (Done, None)
        else if after == Some(CampaignCancelled) then (Cancelled, None)
        else if code == 409 && (after == Some(CampaignReady) || after == Some(CampaignFailed)) then
          (Ready, Some(CONFLICT))
        else (Blocked, Some(detail))
  }

  predicate NowRunning(s: Start) {
    s.Started? || (s.HttpError? && s.after == Some(CampaignRunning))
  }

  predicate LostRace(s: Start) {
    s.HttpError? && s.code == 409 && (s.after == Some(CampaignReady) || s.after == Some(CampaignFailed))
  }

  /** A member runs only if its campaign really started; it stays ready only after an outage or a lost start race. */
  lemma StartMeans(a: Answers)
    ensures StartMember(a).0.Running? <==> a.remote.RemoteOk? && NowRunning(a.start)
    ensures StartMember(a).0.Ready? <==> a.remote.RemoteUnavailable? || (a.remote.RemoteOk? && LostRace(a.start))
    ensures StartMember(a).0.Ready? ==> (StartMember(a).1 == Some(UNAVAILABLE) <==> a.remote.RemoteUnavailable?)
    ensures StartMember(a).0.Review? ==> a.remote.RemoteReview?
  {
    assert UNAVAILABLE[0] != CONFLICT[0];
  }

  predicate Undecided(state: Option<CampaignState>) {
    state.Some? && (state.value.CampaignReady? || state.value.CampaignRunning? || state.value.OtherState?)
  }

  /** The campaign completed, or all its jobs are over and none failed. */
  predicate Succeeded(a: Answers) {
    || a.state == Some(CampaignCompleted)
    || (Undecided(a.state) && a.counts.queued == a.counts.running == a.counts.failed == 0
        && a.counts.completed + a.counts.cancelled > 0)
  }

  lemma DoneMeansSucceeded(a: Answers)
    ensures MemberFinished(a) == Some(Done) <==> Succeeded(a)
    ensures MemberFinished(a) == None ==>
      Undecided(a.state) && (a.counts.failed > 0 ==> a.counts.queued + a.counts.running > 0)
  {
  }

  function Pow2(n: nat): (r: nat)
    ensures r >= 1
  {
    if n == 0 then 1 else 2 * Pow2(n - 1)
  }

  function Min(a: int, b: int): int {
    if a <= b then a else b
  }

  /** Seconds until the next try after `attempts` unavailable answers. */
  function Delay(attempts: nat): int {
    Min(MAX_SECONDS, BASE_SECONDS * Pow2(if attempts == 0 then 0 else attempts - 1))
  }

  predicate RetryDue(m: Member, now: int) {
    m.retryAt == None || now >= m.retryAt.value
  }

  function Kept(reason: Option<string>): Option<string> {
    if reason == None || reason.value == "" then None
    else Some(if |reason.value| <= 500 then reason.value else reason.value[..500])
  }

  /** A ready member after one start was attempted. */
  function Advanced(m: Member, a: Answers, now: int): Member {
    var (next, why) := StartMember(a);
    if a.remote.RemoteUnavailable? then
      if m.attempts + 1 >= MAX_ATTEMPTS then Member(m.campaign, Review, 0, None, Kept(Some(EXHAUSTED)))
      else Member(m.campaign, Ready, m.attempts + 1, Some(now + Delay(m.attempts + 1)), Kept(Some(UNAVAILABLE)))
    else Member(m.campaign, next, 0, None, Kept(why))
  }

  predicate Finishes(m: Member, a: Answers) {
    m.status.Running? && MemberFinished(a).Some?
  }

  function Settled(m: Member, a: Answers): Member {
    if Finishes(m, a) then m.(status := MemberFinished(a).value) else m
  }

  function SettleAll(ms: seq<Member>, env: Environment): (r: seq<Member>)
    ensures |r| == |ms|
    ensures forall i | 0 <= i < |ms| :: r[i] == Settled(ms[i], env(i))
  {
    seq(|ms|, i requires 0 <= i < |ms| => Settled(ms[i], env(i)))
  }

  predicate AnyRunning(ms: seq<Member>) {
    exists i | 0 <= i < |ms| :: ms[i].status.Running?
  }

  /** A pass tries to start member `i`: in sequential mode only the first ready one, and only when none runs. */
  predicate Starts(mode: Mode, ms: seq<Member>, i: nat, now: int)
    requires i < |ms|
  {
    && ms[i].status.Ready?
    && RetryDue(ms[i], now)
    && (mode.Sequential? ==> !AnyRunning(ms) && forall j | 0 <= j < i :: !ms[j].status.Ready?)
  }

  function AdvanceAll(mode: Mode, ms: seq<Member>, env: Environment, now: int): (r: seq<Member>)
    ensures |r| == |ms|
    ensures forall i | 0 <= i < |ms| :: r[i] == if Starts(mode, ms, i, now) then Advanced(ms[i], env(i), now) else ms[i]
  {
    seq(|ms|, i requires 0 <= i < |ms| => if Starts(mode, ms, i, now) then Advanced(ms[i], env(i), now) else ms[i])
  }

  function CountStatus(ms: seq<Member>, s: Status): nat {
    if ms == [] then 0
    else CountStatus(ms[..|ms| - 1], s) + if ms[|ms| - 1].status == s then 1 else 0
  }

  function Summarize(ms: seq<Member>): Summary {
    Summary(CountStatus(ms, Ready), CountStatus(ms, Running), CountStatus(ms, Done),
            CountStatus(ms, Review), CountStatus(ms, Blocked), CountStatus(ms, Cancelled))
  }

  function StateOf(ms: seq<Member>): State {
    if ms != [] && forall i | 0 <= i < |ms| :: Terminal(ms[i].status) then Completed
    else if AnyRunning(ms) then InProgress
    else Queued
  }

  function PassMembers(b: Document, env: Environment, now: int): (r: seq<Member>)
    ensures |r| == |b.members|
  {
    AdvanceAll(b.mode, SettleAll(b.members, env), env, now)
  }

  /** The record one pass over an unfinished batch would save. */
  function Passed(b: Document, env: Environment, now: int): Document {
    var ms := PassMembers(b, env, now);
    Document(b.mode, StateOf(ms), ms, Summarize(ms))
  }

  /** The pass finished or tried a member, or corrects the stored state. */
  predicate Changes(b: Document, env: Environment, now: int) {
    var settled := SettleAll(b.members, env);
    || (exists i | 0 <= i < |b.members| :: Finishes(b.members[i], env(i)))
    || (exists i | 0 <= i < |settled| :: Starts(b.mode, settled, i, now))
    || Passed(b, env, now).state != b.state
  }

  // ---------------------------------------------------------------- one reconcile pass

  method SummarizeMembers(ms: seq<Member>) returns (s: Summary)
    ensures s == Summarize(ms)
  {
    s := Summary(0, 0, 0, 0, 0, 0);
    for i := 0 to |ms|
      invariant s == Summarize(ms[..i])
    {
      assert ms[..i + 1][..i] == ms[..i];
      match ms[i].status {
        case Ready => s := s.(ready := s.ready + 1);
        case Running => s := s.(running := s.running + 1);
        case Done => s := s.(done := s.done + 1);
        case Review => s := s.(review := s.review + 1);
        case Blocked => s := s.(blocked := s.blocked + 1);
        case Cancelled => s := s.(cancelled := s.cancelled + 1);
      }
    }
    assert ms[..|ms|] == ms;
  }

  /** First loop: running members that have finished get their final status. */
  method FinishMembers(ms: seq<Member>, env: Environment) returns (r: seq<Member>, changed: bool)
    ensures r == SettleAll(ms, env)
    ensures changed <==> exists i | 0 <= i < |ms| :: Finishes(ms[i], env(i))
  {
    r, changed := ms, false;
    for i := 0 to |ms|
      invariant |r| == |ms|
      invariant forall j | 0 <= j < |ms| :: r[j] == if j < i then Settled(ms[j], env(j)) else ms[j]
      invariant changed <==> exists j | 0 <= j < i :: Finishes(ms[j], env(j))
    {
      if !r[i].status.Running? { continue; }
      var final := MemberFinished(env(i));
      if final.Some? {
        r := r[i := r[i].(status := final.value)];
        changed := true;
      }
    }
  }

  /** The effect of a start attempt on the member, retry bookkeeping included. */
  method TryStart(m: Member, a: Answers, now: int) returns (r: Member)
    ensures r == Advanced(m, a, now)
  {
    var (next, why) := StartMember(a);
    r := m;
    if next == Ready && why == Some(UNAVAILABLE) {
      assert UNAVAILABLE[0] != CONFLICT[0];
      var attempts := m.attempts + 1;
      if attempts >= MAX_ATTEMPTS {
        r := r.(attempts := 0, retryAt := None);
        next, why := Review, Some(EXHAUSTED);
      } else {
        r := r.(attempts := attempts, retryAt := Some(now + Delay(attempts)));
        next, why := Ready, Some(UNAVAILABLE);
      }
    } else {
      r := r.(attempts := 0, retryAt := None);
    }
    r := r.(status := next, reason := Kept(why));
  }

  method StartNext(ms: seq<Member>, env: Environment, now: int) returns (r: seq<Member>, changed: bool)
    ensures r == AdvanceAll(Sequential, ms, env, now)
    ensures changed <==> exists i | 0 <= i < |ms| :: Starts(Sequential, ms, i, now)
  {
    r, changed := ms, false;
    if AnyRunning(ms) { return; }
    var i := 0;
    while i < |ms| && !ms[i].status.Ready?
      invariant 0 <= i <= |ms|
      invariant forall j | 0 <= j < i :: !ms[j].status.Ready?
    {
      i := i + 1;
    }
    if i < |ms| && RetryDue(ms[i], now) {
      var m := TryStart(ms[i], env(i), now);
      r, changed := ms[i := m], true;
      assert Starts(Sequential, ms, i, now);
    }
  }

  method StartEach(ms: seq<Member>, env: Environment, now: int) returns (r: seq<Member>, changed: bool)
    ensures r == AdvanceAll(Parallel, ms, env, now)
    ensures changed <==> exists i | 0 <= i < |ms| :: Starts(Parallel, ms, i, now)
  {
    r, changed := ms, false;
    for i := 0 to |ms|
      invariant |r| == |ms|
      invariant forall j | 0 <= j < |ms| ::
        r[j] == if j < i && Starts(Parallel, ms, j, now) then Advanced(ms[j], env(j), now) else ms[j]
      invariant changed <==> exists j | 0 <= j < i :: Starts(Parallel, ms, j, now)
    {
      if !r[i].status.Ready? || !RetryDue(r[i], now) { continue; }
      var m := TryStart(r[i], env(i), now);
      r, changed := r[i := m], true;
      assert Starts(Parallel, ms, i, now);
    }
  }

  /** One iteration of `reconcile_hackerone_batch`; nothing is saved when `changed` is false. */
  method ReconcilePass(current: Document, env: Environment, now: int) returns (next: Document, changed: bool)
    ensures changed <==> !Final(current.state) && Changes(current, env, now)
    ensures next == if changed then Passed(current, env, now) else current
  {
    if Final(current.state) { return current, false; }
    var ms, finished := FinishMembers(current.members, env);
    var tried: bool;
    if current.mode.Sequential? {
      ms, tried := StartNext(ms, env, now);
    } else {
      ms, tried := StartEach(ms, env, now);
    }
    var summary := SummarizeMembers(ms);
    var state := StateOf(ms);
    changed := finished || tried || state != current.state;
    next := if changed then Document(current.mode, state, ms, summary) else current;
  }

  // ---------------------------------------------------------------- what every committed record satisfies

  /** Members before a non-ready one are terminal: only the last of the non-ready prefix may run. */
  ghost predicate Shape(ms: seq<Member>) {
    forall i, j | 0 <= i < j < |ms| && !ms[j].status.Ready? :: Terminal(ms[i].status)
  }

  ghost predicate RetriesOk(ms: seq<Member>) {
    forall i | 0 <= i < |ms| :: ms[i].attempts < MAX_ATTEMPTS && (ms[i].attempts == 0 <==> ms[i].retryAt == None)
  }

  ghost predicate DocumentOk(b: Document) {
    && b.members != []
    && (b.mode.Sequential? ==> Shape(b.members))
    && RetriesOk(b.members)
    && (b.state == StateOf(b.members) || b.state == CancelledBatch)
    && (b.state == CancelledBatch ==> forall i | 0 <= i < |b.members| :: Terminal(b.members[i].status))
    && b.summary == Summarize(b.members)
  }

  lemma ShapeIsPrefix(ms: seq<Member>) returns (k: nat)
    requires Shape(ms)
    ensures k <= |ms|
    ensures forall i | 0 <= i < k :: !ms[i].status.Ready? && (i < k - 1 ==> Terminal(ms[i].status))
    ensures forall i | k <= i < |ms| :: ms[i].status.Ready?
  {
    k := 0;
    while k < |ms| && !ms[k].status.Ready?
      invariant k <= |ms|
      invariant forall i | 0 <= i < k :: !ms[i].status.Ready?
    {
      k := k + 1;
    }
    forall i | 0 <= i < k - 1 ensures Terminal(ms[i].status) {
      assert !ms[k - 1].status.Ready?;
    }
    forall i | k <= i < |ms| ensures ms[i].status.Ready? {
      assert i == k || !Terminal(ms[k].status);
    }
  }

  lemma {:induction false} SummarySums(ms: seq<Member>)
    ensures var s := Summarize(ms); s.ready + s.running + s.done + s.review + s.blocked + s.cancelled == |ms|
  {
    if ms != [] { SummarySums(ms[..|ms| - 1]); }
  }

  /** Reconciling keeps every record in order, whatever the outside answers. */
  lemma PassKeepsDocument(b: Document, env: Environment, now: int)
    requires DocumentOk(b)
    ensures DocumentOk(Passed(b, env, now))
  {
    var settled := SettleAll(b.members, env);
    if b.mode.Sequential? {
    }
  }

  /** Cancelling: finished and cancelled members stay, every other member becomes cancelled. */
  function Cancel(b: Document, failures: nat -> Option<string>): Document {
    var ms := CancelMembers(b.members, failures);
    Document(b.mode, CancelledBatch, ms, Summarize(ms))
  }

  function CancelMembers(ms: seq<Member>, failures: nat -> Option<string>): (r: seq<Member>)
    ensures |r| == |ms|
    ensures forall i | 0 <= i < |ms| ::
      if ms[i].status.Done? || ms[i].status.Cancelled? then r[i] == ms[i] else r[i].status.Cancelled?
  {
    seq(|ms|, i requires 0 <= i < |ms| =>
      if ms[i].status.Done? || ms[i].status.Cancelled? then ms[i]
      else ms[i].(status := Cancelled, reason := if failures(i).Some? then failures(i) else ms[i].reason))
  }

  // ---------------------------------------------------------------- retries

  lemma {:induction false} Pow2Grows(a: nat, b: nat)
    requires a <= b
    ensures Pow2(a) <= Pow2(b)
  {
    if a < b { Pow2Grows(a, b - 1); }
  }

  lemma DelaysNeverShrink(a: nat, b: nat)
    requires 1 <= a <= b
    ensures BASE_SECONDS <= Delay(a) <= Delay(b) <= MAX_SECONDS
  {
    Pow2Grows(0, a - 1);
    Pow2Grows(a - 1, b - 1);
  }

  /** While the remote side is unavailable a member is deferred seven times, later each time, and then reviewed. */
  lemma DeferralLadder(m: Member, a: Answers, now: int)
    requires m.status.Ready? && m.attempts < MAX_ATTEMPTS && a.remote.RemoteUnavailable?
    ensures var r := Advanced(m, a, now);
      if m.attempts == MAX_ATTEMPTS - 1 then r.status.Review? && r.reason == Some(EXHAUSTED)
      else
        && r.status.Ready? && r.attempts == m.attempts + 1
        && r.retryAt.Some? && now + BASE_SECONDS <= r.retryAt.value <= now + MAX_SECONDS
        && (m.attempts > 0 ==> r.retryAt.value - now >= Delay(m.attempts))
        && forall t | t < r.retryAt.value :: !RetryDue(r, t)
  {
    DelaysNeverShrink(m.attempts + 1, m.attempts + 1);
    if m.attempts > 0 { DelaysNeverShrink(m.attempts, m.attempts + 1); }
    assert EXHAUSTED != "";
  }

  // ---------------------------------------------------------------- progress

  /** How many more changes a member can go through. */
  function Rank(m: Member): nat {
    if m.status.Ready? then (if m.attempts < MAX_ATTEMPTS then MAX_ATTEMPTS + 1 - m.attempts else 2)
    else if m.status.Running? then 1
    else 0
  }

  function Measure(ms: seq<Member>): nat {
    if ms == [] then 0 else Measure(ms[..|ms| - 1]) + Rank(ms[|ms| - 1])
  }

  /** The start was refused because the campaign changed meanwhile; the retry count starts over. */
  predicate StartConflict(a: Answers) {
    a.remote.RemoteOk? && StartMember(a).0.Ready?
  }

  function Conflict(b: Document, env: Environment, now: int, i: nat): nat
    requires i < |b.members|
  {
    if Starts(b.mode, SettleAll(b.members, env), i, now) && StartConflict(env(i)) then 1 else 0
  }

  function Conflicts(b: Document, env: Environment, now: int, n: nat): nat
    requires n <= |b.members|
  {
    if n == 0 then 0 else Conflicts(b, env, now, n - 1) + Conflict(b, env, now, n - 1)
  }

  predicate Touches(b: Document, env: Environment, now: int, i: nat)
    requires i < |b.members|
  {
    Finishes(b.members[i], env(i)) || Starts(b.mode, SettleAll(b.members, env), i, now)
  }

  lemma MemberProgress(b: Document, env: Environment, now: int, i: nat)
    requires RetriesOk(b.members) && i < |b.members|
    ensures var m, r := b.members[i], PassMembers(b, env, now)[i];
      && Rank(r) <= Rank(m) + 7 * Conflict(b, env, now, i)
      && (Touches(b, env, now, i) && Conflict(b, env, now, i) == 0 ==> Rank(r) + 1 <= Rank(m))
      && (!Touches(b, env, now, i) ==> r == m)
  {
    var settled := SettleAll(b.members, env);
    assert settled[i] == Settled(b.members[i], env(i));
  }

  lemma MeasureLast(ms: seq<Member>, n: nat)
    requires 0 < n <= |ms|
    ensures Measure(ms[..n]) == Measure(ms[..n - 1]) + Rank(ms[n - 1])
  {
    assert ms[..n][..n - 1] == ms[..n - 1];
  }

  lemma NextMember(b: Document, env: Environment, now: int, n: nat)
    requires RetriesOk(b.members) && 0 < n <= |b.members|
    ensures var r, ms, c := PassMembers(b, env, now), b.members, Conflict(b, env, now, n - 1);
      && Measure(r[..n]) - Measure(ms[..n])
           <= Measure(r[..n - 1]) - Measure(ms[..n - 1]) + 7 * c
      && (Touches(b, env, now, n - 1) && c == 0 ==>
            Measure(r[..n]) - Measure(ms[..n]) + 1 <= Measure(r[..n - 1]) - Measure(ms[..n - 1]))
  {
    MemberProgress(b, env, now, n - 1);
    MeasureLast(PassMembers(b, env, now), n);
    MeasureLast(b.members, n);
  }

  /** Up to member `n` the measure grows by at most seven per conflict. */
  lemma {:induction false} ProgressUpTo(b: Document, env: Environment, now: int, n: nat)
    requires RetriesOk(b.members) && n <= |b.members|
    ensures Measure(PassMembers(b, env, now)[..n]) <= Measure(b.members[..n]) + 7 * Conflicts(b, env, now, n)
  {
    if n > 0 {
      ProgressUpTo(b, env, now, n - 1);
      NextMember(b, env, now, n);
    }
  }

  /** Without a conflict, a touched member makes it fall. */
  lemma {:induction false} StrictProgressUpTo(b: Document, env: Environment, now: int, n: nat, k: nat)
    requires RetriesOk(b.members) && k < n <= |b.members| && Touches(b, env, now, k) && Conflicts(b, env, now, n) == 0
    ensures Measure(PassMembers(b, env, now)[..n]) + 1 <= Measure(b.members[..n])
  {
    NextMember(b, env, now, n);
    if k < n - 1 {
      StrictProgressUpTo(b, env, now, n - 1, k);
    } else {
      ProgressUpTo(b, env, now, n - 1);
    }
  }

  lemma UntouchedPass(b: Document, env: Environment, now: int)
    requires DocumentOk(b) && forall i | 0 <= i < |b.members| :: !Touches(b, env, now, i)
    ensures PassMembers(b, env, now) == b.members
  {
    var r := PassMembers(b, env, now);
    forall i | 0 <= i < |b.members| ensures r[i] == b.members[i] { MemberProgress(b, env, now, i); }
  }

  lemma SomeMemberIsTouched(b: Document, env: Environment, now: int)
    requires DocumentOk(b) && !Final(b.state) && Changes(b, env, now)
    ensures exists i | 0 <= i < |b.members| :: Touches(b, env, now, i)
  {
    var settled := SettleAll(b.members, env);
    if i :| 0 <= i < |b.members| && Finishes(b.members[i], env(i)) {
      assert Touches(b, env, now, i);
    } else if i :| 0 <= i < |settled| && Starts(b.mode, settled, i, now) {
      assert Touches(b, env, now, i);
    } else {
      assert Passed(b, env, now).state != b.state;
      UntouchedPass(b, env, now);
    }
  }

  /** Every committed pass touches a member, so without a start conflict the measure strictly falls. */
  lemma PassProgress(b: Document, env: Environment, now: int)
    requires DocumentOk(b) && !Final(b.state) && Changes(b, env, now)
    ensures var c := Conflicts(b, env, now, |b.members|);
      && Measure(PassMembers(b, env, now)) <= Measure(b.members) + 7 * c
      && (c == 0 ==> Measure(PassMembers(b, env, now)) + 1 <= Measure(b.members))
  {
    var n, r := |b.members|, PassMembers(b, env, now);
    ProgressUpTo(b, env, now, n);
    SomeMemberIsTouched(b, env, now);
    var k :| 0 <= k < n && Touches(b, env, now, k);
    if Conflicts(b, env, now, n) == 0 { StrictProgressUpTo(b, env, now, n, k); }
    assert r[..n] == r && b.members[..n] == b.members;
  }

  // ---------------------------------------------------------------- the history of one batch

  /** What a version of the record comes from; `BySync` only notes the learning repository's answer. */
  datatype Entry = ByPass(env: Environment, now: int) | ByCancel(failures: nat -> Option<string>) | BySync

  predicate Commits(b: Document, e: Entry) {
    match e
    case ByPass(env, now) => !Final(b.state) && Changes(b, env, now)
    case ByCancel(_) => b.state != CancelledBatch
    case BySync => Final(b.state)
  }

  function Next(b: Document, e: Entry): Document {
    match e
    case ByPass(env, now) => Passed(b, env, now)
    case ByCancel(failures) => Cancel(b, failures)
    case BySync => b
  }

  ghost predicate History(b: Document, entries: seq<Entry>, b': Document)
    decreases |entries|
  {
    if entries == [] then b' == b
    else Commits(b, entries[0]) && History(Next(b, entries[0]), entries[1..], b')
  }

  function EntryConflicts(b: Document, e: Entry): nat {
    if e.ByPass? then Conflicts(b, e.env, e.now, |b.members|) else 0
  }

  function AllConflicts(b: Document, entries: seq<Entry>): nat
    decreases |entries|
  {
    if entries == [] then 0
    else EntryConflicts(b, entries[0]) + AllConflicts(Next(b, entries[0]), entries[1..])
  }

  /** Committed passes in which no start conflicted. */
  function SmoothPasses(b: Document, entries: seq<Entry>): nat
    decreases |entries|
  {
    if entries == [] then 0
    else (if entries[0].ByPass? && EntryConflicts(b, entries[0]) == 0 then 1 else 0)
         + SmoothPasses(Next(b, entries[0]), entries[1..])
  }

  lemma NextKeepsDocument(b: Document, e: Entry)
    requires DocumentOk(b)
    ensures DocumentOk(Next(b, e)) && |Next(b, e).members| == |b.members|
    ensures Final(b.state) && Commits(b, e) ==> Final(Next(b, e).state)
  {
    match e
    case ByPass(env, now) => PassKeepsDocument(b, env, now);
    case ByCancel(failures) =>
    case BySync =>
  }

  lemma {:induction false} AllTerminalMeasure(ms: seq<Member>)
    requires forall i | 0 <= i < |ms| :: Terminal(ms[i].status)
    ensures Measure(ms) == 0
  {
    if ms != [] { AllTerminalMeasure(ms[..|ms| - 1]); }
  }

  /** Over any history the passes without a start conflict are bounded by the measure plus seven per conflict. */
  lemma {:induction false} BoundedCommits(b: Document, entries: seq<Entry>, b': Document)
    requires DocumentOk(b) && History(b, entries, b')
    ensures DocumentOk(b')
    ensures SmoothPasses(b, entries) + Measure(b'.members) <= Measure(b.members) + 7 * AllConflicts(b, entries)
    decreases |entries|
  {
    if entries != [] {
      var e, next := entries[0], Next(b, entries[0]);
      NextKeepsDocument(b, e);
      BoundedCommits(next, entries[1..], b');
      if e.ByPass? {
        PassProgress(b, e.env, e.now);
      } else if e.ByCancel? {
        AllTerminalMeasure(next.members);
      }
    }
  }

  lemma {:induction false} CancelledStays(b: Document, entries: seq<Entry>, b': Document)
    requires History(b, entries, b') && b.state == CancelledBatch
    ensures b' == b
    decreases |entries|
  {
    if entries != [] { CancelledStays(Next(b, entries[0]), entries[1..], b'); }
  }

  /** A finished member never changes again, unless a cancellation turns a review or a block into a cancellation. */
  lemma {:induction false} TerminalMembersStay(b: Document, entries: seq<Entry>, b': Document, k: nat)
    requires DocumentOk(b) && History(b, entries, b') && k < |b.members| && Terminal(b.members[k].status)
    ensures |b'.members| == |b.members|
    ensures b'.members[k] == b.members[k]
      || ((b.members[k].status.Review? || b.members[k].status.Blocked?)
          && b'.members[k].status.Cancelled? && b'.state == CancelledBatch)
    decreases |entries|
  {
    if entries != [] {
      var e, next := entries[0], Next(b, entries[0]);
      NextKeepsDocument(b, e);
      TerminalMembersStay(next, entries[1..], b', k);
      if next.state == CancelledBatch { CancelledStays(next, entries[1..], b'); }
    }
  }

  /**
   The pass tried member `k` in its turn, the remote program confirmed its scope, and the campaign was seen
   to run or to be completed after the attempt.
   */
  ghost predicate StartedBy(b: Document, e: Entry, k: nat)
    requires k < |b.members|
  {
    && e.ByPass?
    && Starts(b.mode, SettleAll(b.members, e.env), k, e.now)
    && e.env(k).remote.RemoteOk?
    && (NowRunning(e.env(k).start) || CompletedMeanwhile(e.env(k).start))
  }

  predicate CompletedMeanwhile(s: Start) {
    s.HttpError? && s.after == Some(CampaignCompleted)
  }

  lemma ReadyMemberMoves(b: Document, e: Entry, k: nat)
    requires k < |b.members| && b.members[k].status.Ready?
    ensures var r := Next(b, e).members[k].status; r.Running? || r.Done? <==> StartedBy(b, e, k)
  {
    if e.ByPass? { StartMeans(e.env(k)); }
  }

  /** The entry splits the history. */
  ghost predicate Splits(b: Document, entries: seq<Entry>, b': Document, j: nat, mid: Document) {
    && j < |entries|
    && History(b, entries[..j], mid) && Commits(mid, entries[j])
    && History(Next(mid, entries[j]), entries[j + 1..], b')
  }

  lemma SplitLater(b: Document, entries: seq<Entry>, b': Document, j: nat, mid: Document)
    requires entries != [] && Commits(b, entries[0]) && Splits(Next(b, entries[0]), entries[1..], b', j, mid)
    ensures Splits(b, entries, b', j + 1, mid)
  {
    assert entries[..j + 1][1..] == entries[1..][..j];
    assert entries[1..][j + 1..] == entries[j + 2..];
  }

  /**
   Whatever callers and the outside did: when a member that was ready is seen running or done, one committed
   pass started it after the remote program confirmed the scope, and in sequential mode every member before
   it had finished by then.
   */
  lemma {:induction false} StartedInTurnAndConfirmed(b: Document, entries: seq<Entry>, b': Document, k: nat)
    returns (j: nat, mid: Document)
    requires DocumentOk(b) && History(b, entries, b') && k < |b.members| == |b'.members|
    requires b.members[k].status.Ready? && (b'.members[k].status.Running? || b'.members[k].status.Done?)
    ensures Splits(b, entries, b', j, mid) && |mid.members| == |b.members| && StartedBy(mid, entries[j], k)
    ensures mid.mode.Sequential? ==>
      forall i | 0 <= i < k :: Terminal(SettleAll(mid.members, entries[j].env)[i].status)
    decreases |entries|
  {
    var e, next := entries[0], Next(b, entries[0]);
    NextKeepsDocument(b, e);
    ReadyMemberMoves(b, e, k);
    if StartedBy(b, e, k) {
      j, mid := 0, b;
    } else {
      if Terminal(next.members[k].status) { TerminalMembersStay(next, entries[1..], b', k); }
      j, mid := StartedInTurnAndConfirmed(next, entries[1..], b', k);
      SplitLater(b, entries, b', j, mid);
      j := j + 1;
    }
  }

  /** The pass saw the running member succeed, or found its campaign completed when it tried to start it. */
  ghost predicate DoneBy(b: Document, e: Entry, k: nat)
    requires k < |b.members|
  {
    && e.ByPass?
    && (b.members[k].status.Running? ==> Succeeded(e.env(k)))
    && (b.members[k].status.Ready? ==> StartedBy(b, e, k) && CompletedMeanwhile(e.env(k).start))
    && !Terminal(b.members[k].status)
  }

  lemma MemberGetsDone(b: Document, e: Entry, k: nat)
    requires k < |b.members| && !b.members[k].status.Done?
    ensures Next(b, e).members[k].status.Done? <==> DoneBy(b, e, k)
  {
    if e.ByPass? {
      StartMeans(e.env(k));
      DoneMeansSucceeded(e.env(k));
      assert SettleAll(b.members, e.env)[k] == Settled(b.members[k], e.env(k));
    }
  }

  /** A member gets done only by a committed pass that saw its campaign completed, or its jobs over and none failed. */
  lemma {:induction false} DoneIsEarned(b: Document, entries: seq<Entry>, b': Document, k: nat)
    returns (j: nat, mid: Document)
    requires DocumentOk(b) && History(b, entries, b') && k < |b.members| == |b'.members|
    requires !b.members[k].status.Done? && b'.members[k].status.Done?
    ensures Splits(b, entries, b', j, mid) && |mid.members| == |b.members| && DoneBy(mid, entries[j], k)
    decreases |entries|
  {
    var e, next := entries[0], Next(b, entries[0]);
    NextKeepsDocument(b, e);
    MemberGetsDone(b, e, k);
    if next.members[k].status.Done? {
      j, mid := 0, b;
    } else {
      j, mid := DoneIsEarned(next, entries[1..], b', k);
      SplitLater(b, entries, b', j, mid);
      j := j + 1;
    }
  }

  /** The member was tried in its turn and the remote program confirmed its scope. */
  predicate TriedBy(b: Document, e: Entry, k: nat)
    requires k < |b.members|
  {
    e.ByPass? && Starts(b.mode, SettleAll(b.members, e.env), k, e.now) && e.env(k).remote.RemoteOk?
  }

  /** The campaign was not started, and what was seen of it afterwards explains nothing. */
  predicate StartFailed(s: Start) {
    || s.OtherError?
    || (s.HttpError?
        && (s.after == None || s.after == Some(OtherState)
            || ((s.after == Some(CampaignReady) || s.after == Some(CampaignFailed)) && s.code != 409)))
  }

  predicate CancelledMeanwhile(s: Start) {
    s.HttpError? && s.after == Some(CampaignCancelled)
  }

  /** All jobs are over, and some of them failed. */
  predicate JobsFailed(a: Answers) {
    Undecided(a.state) && a.counts.queued == a.counts.running == 0 && a.counts.failed > 0
  }

  /** What must have been seen, or done, for an entry to give member `k` the status `to`. */
  ghost predicate Causes(b: Document, e: Entry, k: nat, to: Status)
    requires k < |b.members|
  {
    var running := e.ByPass? && b.members[k].status.Running?;
    match to
    case Ready => false
    case Running => StartedBy(b, e, k) && NowRunning(e.env(k).start)
    case Done => DoneBy(b, e, k)
    case Cancelled =>
      || (e.ByCancel? && !b.members[k].status.Done?)
      || (running && e.env(k).state == Some(CampaignCancelled))
      || (TriedBy(b, e, k) && CancelledMeanwhile(e.env(k).start))
    case Blocked =>
      || (running && (e.env(k).state == None || e.env(k).state == Some(CampaignFailed)))
      || (TriedBy(b, e, k) && StartFailed(e.env(k).start))
    case Review =>
      || (running && JobsFailed(e.env(k)))
      || (e.ByPass? && Starts(b.mode, SettleAll(b.members, e.env), k, e.now) && e.env(k).remote.RemoteReview?)
      || (Defers(b, e, k) && b.members[k].attempts + 1 >= MAX_ATTEMPTS)
  }

  /** An entry gives a member a new status exactly for its cause. */
  lemma StatusMovesExactly(b: Document, e: Entry, k: nat, to: Status)
    requires k < |b.members| == |Next(b, e).members| && b.members[k].status != to
    ensures Next(b, e).members[k].status == to <==> Causes(b, e, k, to)
  {
    match e
    case ByPass(env, now) =>
      var settled := SettleAll(b.members, env);
      assert settled[k] == Settled(b.members[k], env(k));
      if b.members[k].status.Running? {
        RunningMoves(b, e, k, to);
      } else if b.members[k].status.Ready? {
        ReadyMoves(b, e, k, to);
      }
    case ByCancel(failures) =>
    case BySync =>
  }

  lemma RunningMoves(b: Document, e: Entry, k: nat, to: Status)
    requires k < |b.members| && e.ByPass? && b.members[k].status.Running? && !to.Running?
    ensures PassMembers(b, e.env, e.now)[k].status == to <==> Causes(b, e, k, to)
  {
    assert SettleAll(b.members, e.env)[k] == Settled(b.members[k], e.env(k));
    DoneMeansSucceeded(e.env(k));
  }

  lemma ReadyMoves(b: Document, e: Entry, k: nat, to: Status)
    requires k < |b.members| && e.ByPass? && b.members[k].status.Ready? && !to.Ready?
    ensures PassMembers(b, e.env, e.now)[k].status == to <==> Causes(b, e, k, to)
  {
    assert SettleAll(b.members, e.env)[k] == b.members[k];
    StartMeans(e.env(k));
    if e.env(k).remote.RemoteOk? { BlockedMeans(e.env(k)); }
  }

  lemma BlockedMeans(a: Answers)
    requires a.remote.RemoteOk?
    ensures StartMember(a).0 == Blocked <==> StartFailed(a.start)
  {
    if a.start.HttpError? && a.start.after.Some? {
      var s := a.start.after.value;
      assert s.CampaignReady? || s.CampaignRunning? || s.CampaignCompleted? || s.CampaignFailed? || s.CampaignCancelled?
        || s.OtherState?;
    }
  }

  /** Every status a member is seen with, other than the one it had, was given to it for its cause. */
  lemma {:induction false} StatusIsEarned(b: Document, entries: seq<Entry>, b': Document, k: nat)
    returns (j: nat, mid: Document)
    requires DocumentOk(b) && History(b, entries, b') && k < |b.members| == |b'.members|
    requires b'.members[k].status != b.members[k].status
    ensures Splits(b, entries, b', j, mid) && |mid.members| == |b.members|
    ensures mid.members[k].status != b'.members[k].status
    ensures Causes(mid, entries[j], k, b'.members[k].status)
    decreases |entries|
  {
    var e, next := entries[0], Next(b, entries[0]);
    NextKeepsDocument(b, e);
    if next.members[k].status == b'.members[k].status {
      StatusMovesExactly(b, e, k, b'.members[k].status);
      j, mid := 0, b;
    } else {
      j, mid := StatusIsEarned(next, entries[1..], b', k);
      SplitLater(b, entries, b', j, mid);
      j := j + 1;
    }
  }

  /**
   A sequential batch is handed on: only the member the pass started is newly running, all members before it
   have finished, and those after it are ready and as they were.
   */
  lemma HandedOn(b: Document, e: Entry, k: nat)
    requires DocumentOk(b) && b.mode.Sequential? && Commits(b, e) && k < |b.members| == |Next(b, e).members|
    requires !b.members[k].status.Running? && Next(b, e).members[k].status.Running?
    ensures StartedBy(b, e, k)
    ensures forall i | 0 <= i < k :: Terminal(Next(b, e).members[i].status)
    ensures forall i | k < i < |b.members| ::
      b.members[i].status.Ready? && Next(b, e).members[i] == b.members[i]
  {
    var after := Next(b, e).members;
    assert e.ByPass? && Shape(after) by { NextKeepsDocument(b, e); }
    NewlyRunning(b, e, k);
    forall i | k < i < |b.members| ensures b.members[i].status.Ready? && after[i] == b.members[i] {
      assert after[i].status.Ready?;
      LaterUntouched(b, e, k, i);
    }
  }

  lemma NewlyRunning(b: Document, e: Entry, k: nat)
    requires k < |b.members| && !b.members[k].status.Running? && Next(b, e).members[k].status.Running?
    ensures StartedBy(b, e, k)
  {
    if e.ByPass? { StartMeans(e.env(k)); }
  }

  lemma LaterUntouched(b: Document, e: Entry, k: nat, i: nat)
    requires k < i < |b.members| == |Next(b, e).members| && StartedBy(b, e, k)
    requires b.mode.Sequential? && Next(b, e).members[i].status.Ready?
    ensures Next(b, e).members[i] == b.members[i]
  {
    assert !Starts(b.mode, SettleAll(b.members, e.env), i, e.now);
    assert SettleAll(b.members, e.env)[i] == Settled(b.members[i], e.env(i));
  }

  // ---------------------------------------------------------------- deferrals over a history

  /** The pass tried member `k` and found the remote side unavailable. */
  predicate Defers(b: Document, e: Entry, k: nat)
    requires k < |b.members|
  {
    e.ByPass? && Starts(b.mode, SettleAll(b.members, e.env), k, e.now) && e.env(k).remote.RemoteUnavailable?
  }

  /** The pass tried member `k` and lost a start race: the member stays ready and its count starts over. */
  predicate Loses(b: Document, e: Entry, k: nat)
    requires k < |b.members|
  {
    e.ByPass? && Starts(b.mode, SettleAll(b.members, e.env), k, e.now) && StartConflict(e.env(k))
  }

  function Deferrals(b: Document, entries: seq<Entry>, k: nat): nat
    requires k < |b.members|
    decreases |entries|
  {
    if entries == [] then 0
    else
      (if Defers(b, entries[0], k) then 1 else 0)
      + Deferrals(Next(b, entries[0]), entries[1..], k)
  }

  function Losses(b: Document, entries: seq<Entry>, k: nat): nat
    requires k < |b.members|
    decreases |entries|
  {
    if entries == [] then 0
    else
      (if Loses(b, entries[0], k) then 1 else 0)
      + Losses(Next(b, entries[0]), entries[1..], k)
  }

  lemma {:induction false} NotReadyIsNotDeferred(b: Document, entries: seq<Entry>, k: nat)
    requires k < |b.members| && !b.members[k].status.Ready?
    ensures Deferrals(b, entries, k) == 0
    decreases |entries|
  {
    if entries != [] {
      StaysNotReady(b, entries[0], k);
      NotReadyIsNotDeferred(Next(b, entries[0]), entries[1..], k);
    }
  }

  lemma StaysNotReady(b: Document, e: Entry, k: nat)
    requires k < |b.members| && !b.members[k].status.Ready?
    ensures !Next(b, e).members[k].status.Ready? && !Defers(b, e, k)
  {
    if e.ByPass? { assert SettleAll(b.members, e.env)[k] == Settled(b.members[k], e.env(k)); }
  }

  /** What one entry does to the count of a ready member. */
  lemma CountMoves(b: Document, e: Entry, k: nat)
    requires RetriesOk(b.members) && k < |b.members| && b.members[k].status.Ready?
    ensures var m, r := b.members[k], Next(b, e).members[k];
      if Defers(b, e, k) then
        if m.attempts == MAX_ATTEMPTS - 1 then r.status.Review? && r.reason == Some(EXHAUSTED)
        else r.status.Ready? && r.attempts == m.attempts + 1
      else if Loses(b, e, k) then r.status.Ready? && r.attempts == 0
      else r.status.Ready? ==> r == m
  {
    if e.ByPass? {
      var settled := SettleAll(b.members, e.env);
      assert settled[k] == b.members[k];
      StartMeans(e.env(k));
      if Defers(b, e, k) { DeferralLadder(b.members[k], e.env(k), e.now); }
    }
  }

  /**
   Between two lost start races a member is deferred at most seven times; the eighth unavailable answer sends
   it to review for good, unless the batch is cancelled. Its stored count is the number of deferrals so far.
   */
  lemma {:induction false} SevenDeferrals(b: Document, entries: seq<Entry>, b': Document, k: nat)
    requires DocumentOk(b) && History(b, entries, b') && k < |b.members| == |b'.members|
    requires b.members[k].status.Ready?
    ensures var n, losses := b.members[k].attempts + Deferrals(b, entries, k), Losses(b, entries, k);
      && n <= MAX_ATTEMPTS + (MAX_ATTEMPTS - 1) * losses
      && (losses == 0 && b'.members[k].status.Ready? ==> b'.members[k].attempts == n <= MAX_ATTEMPTS - 1)
      && (losses == 0 && n == MAX_ATTEMPTS ==>
            (b'.members[k].status.Review? && b'.members[k].reason == Some(EXHAUSTED))
            || b'.members[k].status.Cancelled?)
    decreases |entries|
  {
    if entries != [] {
      var e, next := entries[0], Next(b, entries[0]);
      NextKeepsDocument(b, e);
      CountMoves(b, e, k);
      if next.members[k].status.Ready? {
        SevenDeferrals(next, entries[1..], b', k);
      } else {
        NotReadyIsNotDeferred(next, entries[1..], k);
        NotReadyAnyMore(next, entries[1..], b', k);
      }
    }
  }

  lemma {:induction false} NotReadyAnyMore(b: Document, entries: seq<Entry>, b': Document, k: nat)
    requires DocumentOk(b) && History(b, entries, b') && k < |b.members| == |b'.members|
    requires !b.members[k].status.Ready?
    ensures !b'.members[k].status.Ready?
    ensures Terminal(b.members[k].status) ==> b'.members[k] == b.members[k] || b'.members[k].status.Cancelled?
    decreases |entries|
  {
    if entries != [] {
      NextKeepsDocument(b, entries[0]);
      StaysNotReady(b, entries[0], k);
      NotReadyAnyMore(Next(b, entries[0]), entries[1..], b', k);
      if Terminal(b.members[k].status) { TerminalMembersStay(b, entries, b', k); }
    }
  }

  // ---------------------------------------------------------------- launches, reconcilers and cancellations together

  const NEWEST := 200

  datatype Call =
    | Idle
    | Locked
    | Checked
    | Holding
    | Reconciling(batch: nat, snapshot: Record<Document>)
    | Cancelling(batch: nat, snapshot: Record<Document>)
  {
    predicate HoldsLock() {
      Locked? || Checked? || Holding?
    }

    predicate HasSnapshot() {
      Reconciling? || Cancelling?
    }
  }

  /** All batches in order of creation; the lock serves the launch endpoints of one process. */
  datatype World = World(batches: seq<Record<Document>>, lock: Option<nat>, calls: seq<Call>)

  datatype Label =
    | Acquire(call: nat)
    | Check(call: nat)
    | SaveNew(call: nat, mode: Mode, campaigns: seq<string>)
    | Release(call: nat) // also a crash or an error of the holder
    | Read(call: nat, batch: nat)
    | CommitPass(call: nat, env: Environment, now: int)
    | ReadToCancel(call: nat, batch: nat)
    | CommitCancel(call: nat, failures: nat -> Option<string>)
    | Crash(call: nat)
    | SyncLearning(batch: nat) // read, posted and saved; a conflict is no step

  function NewBatch(mode: Mode, campaigns: seq<string>): Document {
    var ms := seq(|campaigns|, i requires 0 <= i < |campaigns| => Member(campaigns[i], Ready, 0, None, None));
    Document(mode, Queued, ms, Summarize(ms))
  }

  /** `_active_hackerone_batch` looks at the newest 200 batches. */
  predicate ActiveAmongNewest(batches: seq<Record<Document>>) {
    exists i | 0 <= i < |batches| && i >= |batches| - NEWEST :: !Final(batches[i].doc.state)
  }

  predicate Enabled(w: World, l: Label) {
    match l
    case Acquire(p) => p < |w.calls| && w.calls[p].Idle? && w.lock == None
    case Check(p) => p < |w.calls| && w.calls[p].Locked?
    case SaveNew(p, _, campaigns) => p < |w.calls| && w.calls[p].Checked? && campaigns != []
    case Release(p) => p < |w.calls| && w.calls[p].HoldsLock()
    case Read(p, i) => p < |w.calls| && w.calls[p].Idle? && i < |w.batches|
    case CommitPass(p, _, _) => p < |w.calls| && w.calls[p].Reconciling? && w.calls[p].batch < |w.batches|
    case ReadToCancel(p, i) => p < |w.calls| && w.calls[p].Idle? && i < |w.batches|
    case CommitCancel(p, _) => p < |w.calls| && w.calls[p].Cancelling? && w.calls[p].batch < |w.batches|
    case Crash(p) => p < |w.calls| && !w.calls[p].HoldsLock()
    case SyncLearning(i) => i < |w.batches| && Final(w.batches[i].doc.state)
  }

  /** Saves what `e` makes of the snapshot, if `e` changes it and nobody saved in between. */
  function TrySave(w: World, p: nat, e: Entry): World
    requires p < |w.calls| && w.calls[p].HasSnapshot() && w.calls[p].batch < |w.batches|
  {
    var i, snapshot := w.calls[p].batch, w.calls[p].snapshot;
    var idle := w.(calls := w.calls[p := Idle]);
    if !Commits(snapshot.doc, e) then idle
    else
      match Save(w.batches[i], snapshot.version, Next(snapshot.doc, e))
      case None => idle
      case Some(saved) => idle.(batches := w.batches[i := saved])
  }

  function Step(w: World, l: Label): World
    requires Enabled(w, l)
  {
    match l
    case Acquire(p) => w.(lock := Some(p), calls := w.calls[p := Locked])
    case Check(p) =>
      if ActiveAmongNewest(w.batches) then w.(lock := None, calls := w.calls[p := Idle])
      else w.(calls := w.calls[p := Checked])
    case SaveNew(p, mode, campaigns) =>
      w.(batches := w.batches + [Record(NewBatch(mode, campaigns), 1)], calls := w.calls[p := Holding])
    case Release(p) => w.(lock := None, calls := w.calls[p := Idle])
    case Read(p, i) => w.(calls := w.calls[p := Reconciling(i, w.batches[i])])
    case CommitPass(p, env, now) => TrySave(w, p, ByPass(env, now))
    case ReadToCancel(p, i) => w.(calls := w.calls[p := Cancelling(i, w.batches[i])])
    case CommitCancel(p, failures) => TrySave(w, p, ByCancel(failures))
    case Crash(p) => w.(calls := w.calls[p := Idle])
    case SyncLearning(i) => w.(batches := w.batches[i := Record(w.batches[i].doc, w.batches[i].version + 1)])
  }

  ghost predicate Run(w: World, labels: seq<Label>, w': World)
    decreases |labels|
  {
    if labels == [] then w' == w
    else Enabled(w, labels[0]) && Run(Step(w, labels[0]), labels[1..], w')
  }

  predicate Initial(w: World) {
    w.batches == [] && w.lock == None && forall p | 0 <= p < |w.calls| :: w.calls[p] == Idle
  }

  ghost predicate CallOk(w: World, p: nat, c: Call) {
    && (c.HoldsLock() <==> w.lock == Some(p))
    && (c.HasSnapshot() ==> c.batch < |w.batches| && Past(c.snapshot, w.batches[c.batch]))
    && (c.Checked? ==> forall i | 0 <= i < |w.batches| :: Final(w.batches[i].doc.state))
  }

  ghost predicate Inv(w: World) {
    && (forall i | 0 <= i < |w.batches| :: DocumentOk(w.batches[i].doc))
    && (forall i | 0 <= i < |w.batches| - 1 :: Final(w.batches[i].doc.state))
    && (forall p | 0 <= p < |w.calls| :: CallOk(w, p, w.calls[p]))
  }

  lemma {:induction false} NewBatchMeasure(ms: seq<Member>)
    requires forall i | 0 <= i < |ms| :: ms[i].status.Ready? && ms[i].attempts == 0
    ensures Measure(ms) == (MAX_ATTEMPTS + 1) * |ms|
  {
    if ms != [] { NewBatchMeasure(ms[..|ms| - 1]); }
  }

  lemma NewBatchOk(mode: Mode, campaigns: seq<string>)
    requires campaigns != []
    ensures DocumentOk(NewBatch(mode, campaigns))
    ensures Measure(NewBatch(mode, campaigns).members) == 9 * |campaigns|
  {
    var ms := NewBatch(mode, campaigns).members;
    assert forall i | 0 <= i < |ms| :: ms[i].status.Ready? && ms[i].attempts == 0 && ms[i].retryAt == None;
    assert ms[0].status.Ready?;
    NewBatchMeasure(ms);
  }

  lemma TrySaveKeepsInv(w: World, p: nat, e: Entry)
    requires Inv(w) && p < |w.calls| && w.calls[p].HasSnapshot() && w.calls[p].batch < |w.batches|
    ensures Inv(TrySave(w, p, e))
  {
    var w', i := TrySave(w, p, e), w.calls[p].batch;
    assert CallOk(w, p, w.calls[p]);
    if w'.batches != w.batches {
      assert w.calls[p].snapshot == w.batches[i];
      NextKeepsDocument(w.batches[i].doc, e);
    }
    forall q | 0 <= q < |w'.calls| ensures CallOk(w', q, w'.calls[q]) {
      assert CallOk(w, q, w.calls[q]);
    }
  }

  lemma SyncKeepsInv(w: World, i: nat)
    requires Inv(w) && i < |w.batches|
    ensures Inv(w.(batches := w.batches[i := Record(w.batches[i].doc, w.batches[i].version + 1)]))
  {
    var w' := w.(batches := w.batches[i := Record(w.batches[i].doc, w.batches[i].version + 1)]);
    forall q | 0 <= q < |w'.calls| ensures CallOk(w', q, w'.calls[q]) { assert CallOk(w, q, w.calls[q]); }
  }

  /** A call that reads a record, or is lost, without the lock. */
  lemma CallKeepsInv(w: World, l: Label)
    requires Inv(w) && Enabled(w, l) && (l.Read? || l.ReadToCancel? || l.Crash?)
    ensures Inv(Step(w, l))
  {
    var w' := Step(w, l);
    forall q | 0 <= q < |w'.calls| ensures CallOk(w', q, w'.calls[q]) {
      assert CallOk(w, q, w.calls[q]) && CallOk(w, l.call, w.calls[l.call]);
    }
  }

  lemma LockKeepsInv(w: World, l: Label)
    requires Inv(w) && Enabled(w, l) && (l.Acquire? || l.Check? || l.Release?)
    ensures Inv(Step(w, l))
  {
    var w' := Step(w, l);
    forall q | 0 <= q < |w'.calls| ensures CallOk(w', q, w'.calls[q]) {
      assert CallOk(w, q, w.calls[q]) && CallOk(w, l.call, w.calls[l.call]);
    }
  }

  lemma LaunchKeepsInv(w: World, p: nat, mode: Mode, campaigns: seq<string>)
    requires Inv(w) && Enabled(w, SaveNew(p, mode, campaigns))
    ensures Inv(Step(w, SaveNew(p, mode, campaigns)))
  {
    NewBatchOk(mode, campaigns);
    assert CallOk(w, p, w.calls[p]);
    var w' := Step(w, SaveNew(p, mode, campaigns));
    forall q | 0 <= q < |w'.calls| ensures CallOk(w', q, w'.calls[q]) { assert CallOk(w, q, w.calls[q]); }
  }

  lemma StepKeepsInv(w: World, l: Label)
    requires Inv(w) && Enabled(w, l)
    ensures Inv(Step(w, l))
  {
    match l
    case CommitPass(p, env, now) => TrySaveKeepsInv(w, p, ByPass(env, now));
    case CommitCancel(p, failures) => TrySaveKeepsInv(w, p, ByCancel(failures));
    case SaveNew(p, mode, campaigns) => LaunchKeepsInv(w, p, mode, campaigns);
    case SyncLearning(i) => SyncKeepsInv(w, i);
    case Acquire(_) => LockKeepsInv(w, l);
    case Check(_) => LockKeepsInv(w, l);
    case Release(_) => LockKeepsInv(w, l);
    case _ => CallKeepsInv(w, l);
  }

  lemma {:induction false} RunKeepsInv(w: World, labels: seq<Label>, w': World)
    requires Inv(w) && Run(w, labels, w')
    ensures Inv(w')
    decreases |labels|
  {
    if labels != [] {
      StepKeepsInv(w, labels[0]);
      RunKeepsInv(Step(w, labels[0]), labels[1..], w');
    }
  }

  /** At most one batch is active in any reachable world. */
  lemma OneActiveBatch(w: World, labels: seq<Label>, w': World, i: nat, j: nat)
    requires Initial(w) && Run(w, labels, w') && i < |w'.batches| && j < |w'.batches|
    requires !Final(w'.batches[i].doc.state) && !Final(w'.batches[j].doc.state)
    ensures i == j
  {
    RunKeepsInv(w, labels, w');
  }

  /** In any reachable world at most one member of a sequential batch runs. */
  lemma OneRunsAtATime(w: World, labels: seq<Label>, w': World, i: nat, j: nat, k: nat)
    requires Initial(w) && Run(w, labels, w') && i < |w'.batches| && w'.batches[i].doc.mode.Sequential?
    requires j < |w'.batches[i].doc.members| && w'.batches[i].doc.members[j].status.Running?
    requires k < |w'.batches[i].doc.members| && w'.batches[i].doc.members[k].status.Running?
    ensures j == k
  {
    RecordsInOrder(w, labels, w', i);
    assert Shape(w'.batches[i].doc.members);
  }

  /** Every record any caller ever commits is in order. */
  lemma RecordsInOrder(w: World, labels: seq<Label>, w': World, i: nat)
    requires Initial(w) && Run(w, labels, w') && i < |w'.batches|
    ensures DocumentOk(w'.batches[i].doc)
  {
    RunKeepsInv(w, labels, w');
  }

  lemma OneEntry(b: Document, e: Entry)
    requires Commits(b, e)
    ensures History(b, [e], Next(b, e))
  {
    assert History(Next(b, e), [], Next(b, e));
    assert [e][1..] == [];
  }

  lemma StepIsHistory(w: World, l: Label, i: nat) returns (entries: seq<Entry>)
    requires Inv(w) && Enabled(w, l) && i < |w.batches|
    ensures i < |Step(w, l).batches| && |entries| <= 1
    ensures History(w.batches[i].doc, entries, Step(w, l).batches[i].doc)
    ensures Step(w, l).batches[i].version == w.batches[i].version + |entries|
  {
    entries := [];
    if (l.CommitPass? || l.CommitCancel?) && w.calls[l.call].batch == i {
      var e := if l.CommitPass? then ByPass(l.env, l.now) else ByCancel(l.failures);
      assert CallOk(w, l.call, w.calls[l.call]);
      if Step(w, l).batches != w.batches {
        entries := [e];
        OneEntry(w.batches[i].doc, e);
      }
    } else if l == SyncLearning(i) {
      entries := [BySync];
      OneEntry(w.batches[i].doc, BySync);
    }
  }

  /** Whatever the callers do, each record moves by whole passes, cancellations and syncs, one per version. */
  lemma {:induction false} RunIsHistory(w: World, labels: seq<Label>, w': World, i: nat) returns (entries: seq<Entry>)
    requires Inv(w) && Run(w, labels, w') && i < |w.batches|
    ensures i < |w'.batches|
    ensures History(w.batches[i].doc, entries, w'.batches[i].doc)
    ensures w'.batches[i].version == w.batches[i].version + |entries|
    decreases |labels|
  {
    if labels == [] {
      entries := [];
    } else {
      var first := StepIsHistory(w, labels[0], i);
      StepKeepsInv(w, labels[0]);
      var rest := RunIsHistory(Step(w, labels[0]), labels[1..], w', i);
      entries := first + rest;
      if first != [] {
        assert entries[1..] == rest && entries[0] == first[0];
        assert first[1..] == [];
      } else {
        assert entries == rest;
      }
    }
  }

  /** From its launch on, a batch of n members commits at most 9n passes without a conflict, plus seven per conflict. */
  lemma CommitsAreBounded(w: World, labels: seq<Label>, w': World, i: nat, mode: Mode, campaigns: seq<string>)
    returns (entries: seq<Entry>)
    requires Inv(w) && Run(w, labels, w') && i < |w.batches| && campaigns != []
    requires w.batches[i].doc == NewBatch(mode, campaigns)
    ensures i < |w'.batches| && w'.batches[i].version == w.batches[i].version + |entries|
    ensures History(w.batches[i].doc, entries, w'.batches[i].doc)
    ensures SmoothPasses(w.batches[i].doc, entries) + Measure(w'.batches[i].doc.members)
         <= 9 * |campaigns| + 7 * AllConflicts(w.batches[i].doc, entries)
  {
    entries := RunIsHistory(w, labels, w', i);
    NewBatchOk(mode, campaigns);
    BoundedCommits(w.batches[i].doc, entries, w'.batches[i].doc);
  }
}
