/**
 Which completed-scan reports count (coverage.py): reports are grouped by worker job, doubtful jobs are
 dropped as a whole, and one representative is kept for each remaining job.
 */
module ScanAccounting {
  import opened Arithmetic
  import opened Wrappers
  import Lineage
  import TextOrder
  import Whitespace

  type Id = string

  /** `job_id` as stored: absent, not a canonical identifier, or a canonical one. */
  datatype JobField = NoJob | BadJob | Job(id: string)

  /** `findings` as stored; a boolean, a non-integer or a negative number is malformed. */
  datatype FindingsField = NoFindings | BadFindings | Findings(count: nat)

  /** Evidence observation; `plausible` and `trusted` are the timeline and lineage verdicts on it. */
  datatype Report = Report(id: Id, scan: bool, status: string, job: JobField, plausible: bool, trusted: bool,
                           source: Option<string>, findings: FindingsField, assets: set<Id>, endpoints: set<Id>)

  datatype Identity = ByJob(job: string) | ByObservation(id: Id)

  /** A finding's own lineage, and what each asset claims to be. */
  datatype Context = Context(findings: seq<(set<Id>, set<Id>)>, claims: map<Id, string>)

  predicate Completed(r: Report) {
    r.scan && r.status == "completed"
  }

  predicate Terminal(r: Report) {
    r.scan && r.status in {"completed", "failed", "cancelled"}
  }

  /** Jobs reported with two different terminal states. */
  function ConflictingJobs(reports: seq<Report>): set<string> {
    set r, q | r in reports && q in reports && Terminal(r) && Terminal(q)
      && r.job.Job? && q.job == r.job && r.status != q.status :: r.job.id
  }

  /** The grouping key; a report with a bad job id is rejected before it would need one. */
  function IdentityOf(r: Report): Identity {
    if r.job.Job? then ByJob(r.job.id) else ByObservation(r.id)
  }

  /** Not rejected on its own account. */
  predicate Sound(r: Report, conflicting: set<string>) {
    && !r.job.BadJob?
    && !(r.job.Job? && r.job.id in conflicting)
    && r.plausible && r.trusted
  }

  /** A report with an impossible timeline or a bad lineage spoils its whole job. */
  predicate Spoils(r: Report, conflicting: set<string>) {
    Completed(r) && r.job.Job? && r.job.id !in conflicting && !(r.plausible && r.trusted)
  }

  // ---------------------------------------------------------------- one job's reports

  /** The label a report is compared by; `None` stands for a source that is not a string. */
  function Label(source: Option<string>): string {
    if source == None then "" else Whitespace.Strip(source.value)
  }

  function Sources(group: set<Report>): set<string> {
    set r | r in group :: Label(r.source)
  }

  predicate OneSource(group: set<Report>) {
    |Sources(group)| == 1 && "" !in Sources(group)
  }

  function Union(sets: set<set<Id>>): set<Id> {
    set s, x | s in sets && x in s :: x
  }

  function ScanAssets(group: set<Report>): set<Id> {
    Union(set r | r in group :: r.assets)
  }

  function EndpointClaims(group: set<Report>): set<set<Id>> {
    set r | r in group :: r.endpoints
  }

  function AssetClaims(group: set<Report>, ctx: Context): set<Option<string>> {
    set a | a in ScanAssets(group) :: if a in ctx.claims then Some(ctx.claims[a]) else None
  }

  predicate Matches(finding: (set<Id>, set<Id>), assets: set<Id>, endpoints: set<Id>) {
    && finding.0 != {} && finding.0 <= assets
    && (endpoints == {} || (finding.1 != {} && finding.1 <= endpoints))
  }

  function MatchCount(findings: seq<(set<Id>, set<Id>)>, assets: set<Id>, endpoints: set<Id>): nat {
    if findings == [] then 0
    else (if Matches(findings[0], assets, endpoints) then 1 else 0) + MatchCount(findings[1..], assets, endpoints)
  }

  predicate AmbiguousAssets(group: set<Report>, ctx: Context) {
    |AssetClaims(group, ctx)| != 1 || None in AssetClaims(group, ctx)
  }

  predicate AmbiguousEndpoints(group: set<Report>) {
    |EndpointClaims(group)| > 1 && exists e | e in EndpointClaims(group) :: e != {}
  }

  /** The reported finding counts agree with each other and with the findings on record. */
  predicate Reconciled(group: set<Report>, ctx: Context) {
    var matched := MatchCount(ctx.findings, ScanAssets(group), Union(EndpointClaims(group)));
    && (forall r | r in group :: !r.findings.BadFindings?)
    && (forall r, q | r in group && q in group && r.findings.Findings? && q.findings.Findings? ::
          r.findings == q.findings)
    && (forall r | r in group && r.findings.Findings? :: r.findings.count <= matched)
    && !((AmbiguousEndpoints(group) || AmbiguousAssets(group, ctx))
         && exists r | r in group :: r.findings.Findings? && r.findings.count != 0)
  }

  // ---------------------------------------------------------------- what counts, report by report

  function CompletedReports(reports: seq<Report>): set<Report> {
    set r | r in reports && Completed(r)
  }

  function SoundReports(reports: seq<Report>, conflicting: set<string>): set<Report> {
    set r | r in reports && Completed(r) && Sound(r, conflicting)
  }

  function GroupOf(reports: seq<Report>, id: Identity): set<Report> {
    set r | r in reports && Completed(r) && Sound(r, ConflictingJobs(reports)) && IdentityOf(r) == id
  }

  ghost predicate SpoiledBy(reports: seq<Report>, conflicting: set<string>, id: Identity) {
    exists r | r in reports :: Spoils(r, conflicting) && id == ByJob(r.job.id)
  }

  ghost predicate Spoiled(reports: seq<Report>, id: Identity) {
    SpoiledBy(reports, ConflictingJobs(reports), id)
  }

  ghost predicate Considered(reports: seq<Report>, r: Report) {
    r in CompletedReports(reports) && Sound(r, ConflictingJobs(reports)) && !Spoiled(reports, IdentityOf(r))
  }

  ghost predicate Counted(reports: seq<Report>, ctx: Context, r: Report) {
    && Considered(reports, r)
    && OneSource(GroupOf(reports, IdentityOf(r))) && Reconciled(GroupOf(reports, IdentityOf(r)), ctx)
  }

  ghost function CountedReports(reports: seq<Report>, ctx: Context): set<Report> {
    set r | r in CompletedReports(reports) && Counted(reports, ctx, r)
  }

  ghost function UnreconciledReports(reports: seq<Report>, ctx: Context): set<Report> {
    set r | r in CompletedReports(reports) && Considered(reports, r)
      && OneSource(GroupOf(reports, IdentityOf(r))) && !Reconciled(GroupOf(reports, IdentityOf(r)), ctx)
  }

  /** Lowest id among the counted reports of the same job. */
  ghost predicate Represents(reports: seq<Report>, ctx: Context, r: Report) {
    && Counted(reports, ctx, r)
    && forall q | q in GroupOf(reports, IdentityOf(r)) :: TextOrder.Leq(r.id, q.id)
  }

  ghost predicate DistinctIds(reports: seq<Report>) {
    forall i, j | 0 <= i < j < |reports| :: reports[i].id != reports[j].id
  }

  // ---------------------------------------------------------------- the accounting

  type Jobs = map<Identity, seq<Report>>

  function Elements(group: seq<Report>): set<Report> {
    set r | r in group
  }

  function At(jobs: Jobs, id: Identity): seq<Report> {
    if id in jobs then jobs[id] else []
  }

  /** `jobs` sorts exactly the reports of `all` by their job, each once. */
  ghost predicate Sorted(jobs: Jobs, all: set<Report>) {
    && (forall id | id in jobs :: jobs[id] != [])
    && (forall id :: |Elements(At(jobs, id))| == |At(jobs, id)|)
    && (forall id, r :: r in At(jobs, id) <==> r in all && IdentityOf(r) == id)
  }

  lemma SortIn(jobs: Jobs, all: set<Report>, r: Report)
    requires Sorted(jobs, all) && r !in all
    ensures Sorted(jobs[IdentityOf(r) := At(jobs, IdentityOf(r)) + [r]], all + {r})
  {
    var id, jobs' := IdentityOf(r), jobs[IdentityOf(r) := At(jobs, IdentityOf(r)) + [r]];
    assert r !in At(jobs, id);
    forall x ensures |Elements(At(jobs', x))| == |At(jobs', x)| {
      if x == id {
        assert Elements(At(jobs', id)) == Elements(At(jobs, id)) + {r};
      } else {
        assert At(jobs', x) == At(jobs, x);
      }
    }
    forall x, q ensures q in At(jobs', x) <==> q in all + {r} && IdentityOf(q) == x {
      if x != id { assert At(jobs', x) == At(jobs, x); }
    }
  }

  lemma TakeOut(jobs: Jobs, all: set<Report>, id: Identity)
    requires Sorted(jobs, all) && id in jobs
    ensures Sorted(jobs - {id}, all - Elements(jobs[id]))
    ensures Elements(jobs[id]) <= all && |all - Elements(jobs[id])| == |all| - |jobs[id]|
    ensures forall r :: r in Elements(jobs[id]) <==> r in all && IdentityOf(r) == id
  {
    var group, jobs' := Elements(jobs[id]), jobs - {id};
    assert At(jobs, id) == jobs[id];
    forall r ensures r in group <==> r in all && IdentityOf(r) == id { assert r in group <==> r in At(jobs, id); }
    assert all == (all - group) + group;
    forall x ensures At(jobs', x) == if x == id then [] else At(jobs, x) {
    }
    assert Elements([]) == {};
  }

  lemma PrefixGrows(reports: seq<Report>, i: nat, conflicting: set<string>)
    requires DistinctIds(reports) && i < |reports|
    ensures var r, before, after := reports[i], reports[..i], reports[..i + 1];
      && r !in CompletedReports(before)
      && CompletedReports(after) == CompletedReports(before) + (if Completed(r) then {r} else {})
      && SoundReports(after, conflicting)
           == SoundReports(before, conflicting) + (if Completed(r) && Sound(r, conflicting) then {r} else {})
      && forall id :: SpoiledBy(after, conflicting, id) <==>
           SpoiledBy(before, conflicting, id) || (Spoils(r, conflicting) && id == ByJob(r.job.id))
  {
    var r, before, after := reports[i], reports[..i], reports[..i + 1];
    assert after == before + [r];
    assert forall q :: q in after <==> q in before || q == r;
  }

  ghost predicate Admitted(reports: seq<Report>, conflicting: set<string>, jobs: Jobs, spoiled: set<Identity>,
                           accepted: nat, untrusted: nat)
  {
    && Sorted(jobs, SoundReports(reports, conflicting))
    && (forall id :: id in spoiled <==> SpoiledBy(reports, conflicting, id))
    && accepted == |SoundReports(reports, conflicting)|
    && accepted + untrusted == |CompletedReports(reports)|
  }

  lemma AdmitSound(reports: seq<Report>, i: nat, conflicting: set<string>, jobs: Jobs, spoiled: set<Identity>,
                   accepted: nat, untrusted: nat)
    requires DistinctIds(reports) && i < |reports| && Completed(reports[i]) && Sound(reports[i], conflicting)
    requires Admitted(reports[..i], conflicting, jobs, spoiled, accepted, untrusted)
    ensures var r := reports[i];
      Admitted(reports[..i + 1], conflicting, jobs[IdentityOf(r) := At(jobs, IdentityOf(r)) + [r]], spoiled,
               accepted + 1, untrusted)
  {
    PrefixGrows(reports, i, conflicting);
    assert SoundReports(reports[..i], conflicting) <= CompletedReports(reports[..i]);
    SortIn(jobs, SoundReports(reports[..i], conflicting), reports[i]);
  }

  lemma AdmitUnsound(reports: seq<Report>, i: nat, conflicting: set<string>, jobs: Jobs, spoiled: set<Identity>,
                     accepted: nat, untrusted: nat, spoiled': set<Identity>)
    requires DistinctIds(reports) && i < |reports| && Completed(reports[i]) && !Sound(reports[i], conflicting)
    requires Admitted(reports[..i], conflicting, jobs, spoiled, accepted, untrusted)
    requires forall id ::
      id in spoiled' <==> id in spoiled || (Spoils(reports[i], conflicting) && id == ByJob(reports[i].job.id))
    ensures Admitted(reports[..i + 1], conflicting, jobs, spoiled', accepted, untrusted + 1)
  {
    var r, before, after := reports[i], reports[..i], reports[..i + 1];
    PrefixGrows(reports, i, conflicting);
    assert SoundReports(after, conflicting) == SoundReports(before, conflicting);
    assert |CompletedReports(after)| == |CompletedReports(before)| + 1;
    assert forall id :: id in spoiled' <==> SpoiledBy(after, conflicting, id);
  }

  lemma AdmitOther(reports: seq<Report>, i: nat, conflicting: set<string>, jobs: Jobs, spoiled: set<Identity>,
                   accepted: nat, untrusted: nat)
    requires DistinctIds(reports) && i < |reports| && !Completed(reports[i])
    requires Admitted(reports[..i], conflicting, jobs, spoiled, accepted, untrusted)
    ensures Admitted(reports[..i + 1], conflicting, jobs, spoiled, accepted, untrusted)
  {
    PrefixGrows(reports, i, conflicting);
    assert SoundReports(reports[..i + 1], conflicting) == SoundReports(reports[..i], conflicting);
    assert CompletedReports(reports[..i + 1]) == CompletedReports(reports[..i]);
  }

  /** First pass: reports that pass on their own, by job, and the jobs that are spoiled. */
  method Admit(reports: seq<Report>, conflicting: set<string>)
    returns (jobs: Jobs, spoiled: set<Identity>, accepted: nat, untrusted: nat)
    requires DistinctIds(reports)
    ensures Admitted(reports, conflicting, jobs, spoiled, accepted, untrusted)
  {
    jobs, spoiled, accepted, untrusted := map[], {}, 0, 0;
    assert CompletedReports([]) == SoundReports([], conflicting) == {};
    for i := 0 to |reports|
      invariant Admitted(reports[..i], conflicting, jobs, spoiled, accepted, untrusted)
    {
      var r := reports[i];
      if !Completed(r) {
        AdmitOther(reports, i, conflicting, jobs, spoiled, accepted, untrusted);
        continue;
      }
      if Sound(r, conflicting) {
        AdmitSound(reports, i, conflicting, jobs, spoiled, accepted, untrusted);
        jobs := jobs[IdentityOf(r) := At(jobs, IdentityOf(r)) + [r]];
        accepted := accepted + 1;
      } else {
        var spoiled' := spoiled;
        if r.job.Job? && r.job.id !in conflicting {
          spoiled' := spoiled + {ByJob(r.job.id)};
        }
        AdmitUnsound(reports, i, conflicting, jobs, spoiled, accepted, untrusted, spoiled');
        spoiled, untrusted := spoiled', untrusted + 1;
      }
    }
    assert reports[..|reports|] == reports;
  }

  function Unspoiled(all: set<Report>, spoiled: set<Identity>): set<Report> {
    set r | r in all && IdentityOf(r) !in spoiled
  }

  /** Second pass: spoiled jobs go as a whole. */
  method DropSpoiled(jobs: Jobs, spoiled: set<Identity>, accepted: nat, untrusted: nat, ghost all: set<Report>)
    returns (kept: Jobs, accepted': nat, untrusted': nat)
    requires Sorted(jobs, all) && accepted == |all|
    ensures Sorted(kept, Unspoiled(all, spoiled))
    ensures accepted' == |Unspoiled(all, spoiled)|
    ensures accepted' + untrusted' == accepted + untrusted
  {
    kept, accepted', untrusted' := jobs, accepted, untrusted;
    var todo := spoiled;
    ghost var left := all;
    while todo != {}
      invariant todo <= spoiled
      invariant left == Unspoiled(all, spoiled - todo)
      invariant Sorted(kept, left) && accepted' == |left| && accepted' + untrusted' == accepted + untrusted
      decreases |todo|
    {
      var id :| id in todo;
      ghost var next := Unspoiled(all, spoiled - (todo - {id}));
      if id in kept {
        TakeOut(kept, left, id);
        assert next == left - Elements(kept[id]);
        accepted', untrusted' := accepted' - |kept[id]|, untrusted' + |kept[id]|;
        kept := kept - {id};
      } else {
        assert At(kept, id) == [];
        assert forall r :: r in left ==> r in At(kept, IdentityOf(r));
        assert next == left;
      }
      left := next;
      todo := todo - {id};
    }
    assert spoiled - {} == spoiled;
  }

  method LowestId(group: seq<Report>) returns (r: Report)
    requires group != []
    ensures r in group && forall q | q in group :: TextOrder.Leq(r.id, q.id)
  {
    r := group[0];
    TextOrder.Total(r.id, r.id);
    for i := 1 to |group|
      invariant r in group && forall q | q in group[..i] :: TextOrder.Leq(r.id, q.id)
    {
      var q := group[i];
      if !TextOrder.Leq(r.id, q.id) {
        TextOrder.Total(r.id, q.id);
        TextOrder.Total(q.id, q.id);
        forall p | p in group[..i] ensures TextOrder.Leq(q.id, p.id) { TextOrder.Transitive(q.id, r.id, p.id); }
        r := q;
      }
    }
  }

  /** What becomes of a whole job in the third pass. */
  datatype Fate = Dropped | Unreconciled | Kept

  function FateOf(group: set<Report>, ctx: Context): Fate {
    if !OneSource(group) then Dropped else if !Reconciled(group, ctx) then Unreconciled else Kept
  }

  function Fates(jobs: Jobs, ctx: Context): map<Identity, Fate> {
    map id | id in jobs :: FateOf(Elements(jobs[id]), ctx)
  }

  function WithFate(fates: map<Identity, Fate>, all: set<Report>, fate: Fate): set<Report> {
    set r | r in all && IdentityOf(r) in fates && fates[IdentityOf(r)] == fate
  }

  lemma OneMoreJob(fates: map<Identity, Fate>, all: set<Report>, left: set<Report>, group: set<Report>, id: Identity,
                   fate: Fate)
    requires group <= left <= all && id in fates && forall r | r in group :: IdentityOf(r) == id
    ensures WithFate(fates, all - (left - group), fate)
         == WithFate(fates, all - left, fate) + (if fates[id] == fate then group else {})
    ensures |WithFate(fates, all - (left - group), fate)|
         == |WithFate(fates, all - left, fate)| + (if fates[id] == fate then |group| else 0)
  {
    assert group !! WithFate(fates, all - left, fate);
    assert WithFate(fates, all - (left - group), fate)
        == WithFate(fates, all - left, fate) + (if fates[id] == fate then group else {});
  }

  /** The third pass when the jobs of `left` are still to come. */
  ghost predicate Settled(jobs: Jobs, fates: map<Identity, Fate>, all: set<Report>, left: set<Report>,
                          representatives: set<Report>, accepted: nat, unreconciled: nat)
  {
    && accepted == |left| + |WithFate(fates, all - left, Kept)|
    && unreconciled == |WithFate(fates, all - left, Unreconciled)|
    && forall r :: r in representatives <==> IsLowest(jobs, WithFate(fates, all - left, Kept), r)
  }

  lemma SettleCounts(fates: map<Identity, Fate>, all: set<Report>, left: set<Report>, group: set<Report>, id: Identity)
    requires group <= left <= all && id in fates && forall r | r in group :: IdentityOf(r) == id
    ensures var left', fate, n := left - group, fates[id], |group|;
      && |left'| == |left| - n
      && |WithFate(fates, all - left', Kept)| == |WithFate(fates, all - left, Kept)| + (if fate == Kept then n else 0)
      && |WithFate(fates, all - left', Unreconciled)|
           == |WithFate(fates, all - left, Unreconciled)| + (if fate == Unreconciled then n else 0)
  {
    assert left == (left - group) + group;
    OneMoreJob(fates, all, left, group, id, Kept);
    OneMoreJob(fates, all, left, group, id, Unreconciled);
  }

  lemma SettleLowest(jobs: Jobs, fates: map<Identity, Fate>, all: set<Report>, left: set<Report>,
                     representatives: set<Report>, id: Identity, lowest: Report)
    requires Sorted(jobs, all) && left <= all && id in fates
    requires forall r, q | r in all && q in all && r.id == q.id :: r == q
    requires Elements(At(jobs, id)) <= left
    requires forall r :: r in representatives <==> IsLowest(jobs, WithFate(fates, all - left, Kept), r)
    requires lowest in At(jobs, id) && forall q | q in At(jobs, id) :: TextOrder.Leq(lowest.id, q.id)
    ensures forall r :: r in (if fates[id] == Kept then representatives + {lowest} else representatives) <==>
              IsLowest(jobs, WithFate(fates, all - (left - Elements(At(jobs, id))), Kept), r)
  {
    var kept, group := WithFate(fates, all - left, Kept), Elements(At(jobs, id));
    forall r | r in group ensures IdentityOf(r) == id { assert r in At(jobs, id); }
    OneMoreJob(fates, all, left, group, id, Kept);
    LowestOfJob(jobs, all, kept, id, lowest);
    assert fates[id] != Kept ==> kept + {} == kept;
  }

  lemma SettleOne(jobs: Jobs, fates: map<Identity, Fate>, all: set<Report>, left: set<Report>,
                  representatives: set<Report>, accepted: nat, unreconciled: nat, id: Identity, lowest: Report)
    requires Sorted(jobs, all) && left <= all && id in fates
    requires forall r, q | r in all && q in all && r.id == q.id :: r == q
    requires Elements(At(jobs, id)) <= left
    requires Settled(jobs, fates, all, left, representatives, accepted, unreconciled)
    requires lowest in At(jobs, id) && forall q | q in At(jobs, id) :: TextOrder.Leq(lowest.id, q.id)
    ensures var fate, n := fates[id], |At(jobs, id)|;
      && n <= accepted
      && Settled(jobs, fates, all, left - Elements(At(jobs, id)),
                 if fate == Kept then representatives + {lowest} else representatives,
                 if fate == Kept then accepted else accepted - n,
                 if fate == Unreconciled then unreconciled + n else unreconciled)
  {
    forall r | r in Elements(At(jobs, id)) ensures IdentityOf(r) == id { assert r in At(jobs, id); }
    SettleCounts(fates, all, left, Elements(At(jobs, id)), id);
    SettleLowest(jobs, fates, all, left, representatives, id, lowest);
  }

  /** The state of the second pass: the jobs in `todo`, whose reports are `left`, are still to be decided. */
  ghost predicate Midway(jobs: Jobs, fates: map<Identity, Fate>, all: set<Report>, todo: Jobs, left: set<Report>,
                         representatives: set<Report>, accepted: int, unreconciled: nat)
  {
    && (forall id | id in todo :: id in jobs && todo[id] == jobs[id])
    && left <= all && Sorted(todo, left) && accepted >= 0
    && Settled(jobs, fates, all, left, representatives, accepted, unreconciled)
  }

  lemma JobSettled(jobs: Jobs, fates: map<Identity, Fate>, all: set<Report>, todo: Jobs, left: set<Report>,
                   representatives: set<Report>, accepted: nat, unreconciled: nat, id: Identity, lowest: Report,
                   representatives': set<Report>, accepted': int, unreconciled': nat)
    requires Sorted(jobs, all) && forall r, q | r in all && q in all && r.id == q.id :: r == q
    requires Midway(jobs, fates, all, todo, left, representatives, accepted, unreconciled) && id in todo && id in fates
    requires lowest in todo[id] && forall q | q in todo[id] :: TextOrder.Leq(lowest.id, q.id)
    requires representatives' == (if fates[id] == Kept then representatives + {lowest} else representatives)
    requires accepted' == (if fates[id] == Kept then accepted else accepted - |todo[id]|)
    requires unreconciled' == (if fates[id] == Unreconciled then unreconciled + |todo[id]| else unreconciled)
    ensures Midway(jobs, fates, all, todo - {id}, left - Elements(todo[id]), representatives', accepted', unreconciled')
    ensures |(todo - {id}).Keys| < |todo.Keys|
  {
    assert (todo - {id}).Keys == todo.Keys - {id};
    TakeOut(todo, left, id);
    assert At(jobs, id) == todo[id];
    SettleOne(jobs, fates, all, left, representatives, accepted, unreconciled, id, lowest);
  }

  lemma AllToCome(jobs: Jobs, fates: map<Identity, Fate>, all: set<Report>)
    requires Sorted(jobs, all)
    ensures Midway(jobs, fates, all, jobs, all, {}, |all|, 0)
  {
    assert WithFate(fates, all - all, Kept) == WithFate(fates, all - all, Unreconciled) == {};
  }

  lemma NoneToCome(todo: Jobs, left: set<Report>)
    requires Sorted(todo, left) && todo.Keys == {}
    ensures left == {}
  {
    assert forall r :: r in At(todo, IdentityOf(r)) <==> r in left;
  }

  /** Third pass: jobs with one source whose counts reconcile; one representative each. */
  method Reconcile(jobs: Jobs, ctx: Context, ghost all: set<Report>, accepted: nat, untrusted: nat)
    returns (representatives: set<Report>, accepted': nat, untrusted': nat, unreconciled: nat)
    requires Sorted(jobs, all) && accepted == |all|
    requires forall r, q | r in all && q in all && r.id == q.id :: r == q
    ensures Settled(jobs, Fates(jobs, ctx), all, {}, representatives, accepted', unreconciled)
    ensures accepted' + untrusted' == accepted + untrusted && untrusted + unreconciled <= untrusted'
  {
    representatives, accepted', untrusted', unreconciled := {}, accepted, untrusted, 0;
    var todo := jobs;
    ghost var left, fates := all, Fates(jobs, ctx);
    AllToCome(jobs, fates, all);
    while todo.Keys != {}
      invariant Midway(jobs, fates, all, todo, left, representatives, accepted', unreconciled)
      invariant accepted' + untrusted' == accepted + untrusted && untrusted + unreconciled <= untrusted'
      decreases |todo.Keys|
    {
      var id :| id in todo.Keys;
      var records := todo[id];
      var lowest := LowestId(records);
      var fate := FateOf(Elements(records), ctx);
      var kept := if fate == Kept then representatives + {lowest} else representatives;
      var dropped := if fate == Kept then 0 else |records|;
      var loose := if fate == Unreconciled then unreconciled + |records| else unreconciled;
      assert fate == fates[id];
      JobSettled(jobs, fates, all, todo, left, representatives, accepted', unreconciled, id, lowest,
                 kept, accepted' - dropped, loose);
      representatives, unreconciled := kept, loose;
      untrusted', accepted' := untrusted' + dropped, accepted' - dropped;
      left := left - Elements(records);
      todo := todo - {id};
    }
    NoneToCome(todo, left);
  }

  ghost predicate IsLowest(jobs: Jobs, kept: set<Report>, r: Report) {
    r in kept && forall q | q in At(jobs, IdentityOf(r)) :: TextOrder.Leq(r.id, q.id)
  }

  lemma LowestOfJob(jobs: Jobs, all: set<Report>, kept: set<Report>, id: Identity, lowest: Report)
    requires Sorted(jobs, all) && kept <= all
    requires lowest in At(jobs, id) && forall q | q in At(jobs, id) :: TextOrder.Leq(lowest.id, q.id)
    requires forall r, q | r in all && q in all && r.id == q.id :: r == q
    ensures forall r :: IsLowest(jobs, kept + Elements(At(jobs, id)), r) <==> IsLowest(jobs, kept, r) || r == lowest
  {
    forall r ensures IsLowest(jobs, kept + Elements(At(jobs, id)), r) <==> IsLowest(jobs, kept, r) || r == lowest {
      if r in At(jobs, id) && IsLowest(jobs, kept + Elements(At(jobs, id)), r) {
        TextOrder.Antisymmetric(r.id, lowest.id);
      }
    }
  }

  lemma GroupsAgree(reports: seq<Report>, kept: Jobs, spoiled: set<Identity>, r: Report)
    requires Sorted(kept, Unspoiled(SoundReports(reports, ConflictingJobs(reports)), spoiled))
    requires forall id :: id in spoiled <==> Spoiled(reports, id)
    requires Considered(reports, r)
    ensures Elements(At(kept, IdentityOf(r))) == GroupOf(reports, IdentityOf(r))
    ensures IdentityOf(r) in kept
  {
    var id, all := IdentityOf(r), Unspoiled(SoundReports(reports, ConflictingJobs(reports)), spoiled);
    forall q ensures q in Elements(At(kept, id)) <==> q in GroupOf(reports, id) {
      assert q in At(kept, id) <==> q in all && IdentityOf(q) == id;
    }
    assert r in all && r in At(kept, id);
  }

  lemma FatesAgree(reports: seq<Report>, ctx: Context, kept: Jobs, spoiled: set<Identity>)
    requires Sorted(kept, Unspoiled(SoundReports(reports, ConflictingJobs(reports)), spoiled))
    requires forall id :: id in spoiled <==> Spoiled(reports, id)
    ensures var all := Unspoiled(SoundReports(reports, ConflictingJobs(reports)), spoiled);
      && WithFate(Fates(kept, ctx), all, Kept) == CountedReports(reports, ctx)
      && WithFate(Fates(kept, ctx), all, Unreconciled) == UnreconciledReports(reports, ctx)
      && forall r :: IsLowest(kept, CountedReports(reports, ctx), r) <==> Represents(reports, ctx, r)
  {
    var all := Unspoiled(SoundReports(reports, ConflictingJobs(reports)), spoiled);
    forall r
      ensures r in all <==> Considered(reports, r)
      ensures r in all ==> IdentityOf(r) in kept && Elements(At(kept, IdentityOf(r))) == GroupOf(reports, IdentityOf(r))
    {
      if Considered(reports, r) { GroupsAgree(reports, kept, spoiled, r); }
    }
    forall r ensures IsLowest(kept, CountedReports(reports, ctx), r) <==> Represents(reports, ctx, r) {
      if r in CountedReports(reports, ctx) {
        assert forall q :: q in At(kept, IdentityOf(r)) <==> q in Elements(At(kept, IdentityOf(r)));
      }
    }
  }

  /** Every completed report is a representative, a duplicate of one, or untrusted. */
  method CompletedScansWithProvenance(reports: seq<Report>, ctx: Context)
    returns (representatives: set<Report>, duplicates: int, untrusted: nat, unreconciled: nat)
    requires DistinctIds(reports)
    ensures forall r :: r in representatives <==> Represents(reports, ctx, r)
    ensures |representatives| + duplicates + untrusted == |CompletedReports(reports)|
    ensures duplicates == |CountedReports(reports, ctx)| - |representatives| >= 0
    ensures unreconciled == |UnreconciledReports(reports, ctx)| <= untrusted
  {
    var conflicting := ConflictingJobs(reports);
    var jobs, spoiled, accepted, untrusted0 := Admit(reports, conflicting);
    ghost var sound := SoundReports(reports, conflicting);
    var kept, accepted1, untrusted1 := DropSpoiled(jobs, spoiled, accepted, untrusted0, sound);
    ghost var all := Unspoiled(sound, spoiled);
    assert forall r, q | r in all && q in all && r.id == q.id :: r == q;
    var accepted2;
    representatives, accepted2, untrusted, unreconciled := Reconcile(kept, ctx, all, accepted1, untrusted1);
    FatesAgree(reports, ctx, kept, spoiled);
    assert all - {} == all;
    SubsetSize(representatives, CountedReports(reports, ctx));
    duplicates := accepted2 - |representatives|;
  }

  /**
   One bad timeline or lineage under a job id, and no report of that job is representative, whether or not
   the job is also reported with contradictory outcomes.
   */
  lemma SpoiledJobsHaveNoRepresentative(reports: seq<Report>, ctx: Context, bad: Report, r: Report)
    requires bad in reports && Completed(bad) && bad.job.Job? && !(bad.plausible && bad.trusted) && r.job == bad.job
    ensures !Represents(reports, ctx, r) && r !in CountedReports(reports, ctx)
  {
    if bad.job.id !in ConflictingJobs(reports) { assert Spoiled(reports, IdentityOf(r)); }
  }

  /** Each job that counts has exactly one representative. */
  lemma OneRepresentativePerJob(reports: seq<Report>, ctx: Context, r: Report, q: Report)
    requires DistinctIds(reports) && Represents(reports, ctx, r) && Represents(reports, ctx, q)
    requires IdentityOf(r) == IdentityOf(q)
    ensures r == q
  {
    TextOrder.Antisymmetric(r.id, q.id);
    var i :| 0 <= i < |reports| && reports[i] == r;
    var j :| 0 <= j < |reports| && reports[j] == q;
  }

  /** The outcome depends on which reports there are, not on their order. */
  lemma OrderIsIrrelevant(reports: seq<Report>, reordered: seq<Report>, ctx: Context)
    requires forall r :: r in reports <==> r in reordered
    ensures CompletedReports(reports) == CompletedReports(reordered)
    ensures CountedReports(reports, ctx) == CountedReports(reordered, ctx)
    ensures UnreconciledReports(reports, ctx) == UnreconciledReports(reordered, ctx)
    ensures forall r :: Represents(reports, ctx, r) <==> Represents(reordered, ctx, r)
  {
    assert ConflictingJobs(reports) == ConflictingJobs(reordered);
    assert forall id :: GroupOf(reports, id) == GroupOf(reordered, id);
    assert forall id :: Spoiled(reports, id) <==> Spoiled(reordered, id);
    assert CompletedReports(reports) == CompletedReports(reordered);
    assert forall r :: Considered(reports, r) <==> Considered(reordered, r);
    assert forall r :: Counted(reports, ctx, r) <==> Counted(reordered, ctx, r);
  }

  // ---------------------------------------------------------------- from stored observations

  /** An evidence observation as stored. */
  datatype Scan = Scan(id: Id, scan: bool, status: string, job: JobField, plausible: bool, source: Option<string>,
                       findings: FindingsField, parents: seq<Id>)

  /** The report of a scan carries the verdict on its lineage and what that lineage links to. */
  ghost predicate ReportOf(s: Scan, r: Report, items: Lineage.Items, scope: Lineage.Scope) {
    && r == Report(s.id, s.scan, s.status, s.job, s.plausible, r.trusted, s.source, s.findings, r.assets, r.endpoints)
    && (r.trusted <==> Lineage.Trusted(s.parents, items, scope))
    && Lineage.Linked(s.parents, items, r.assets, r.endpoints)
  }

  ghost predicate ReportsOf(scans: seq<Scan>, reports: seq<Report>, items: Lineage.Items, scope: Lineage.Scope) {
    |reports| == |scans| && forall i | 0 <= i < |scans| :: ReportOf(scans[i], reports[i], items, scope)
  }

  method ReadReports(scans: seq<Scan>, items: Lineage.Items, scope: Lineage.Scope) returns (reports: seq<Report>)
    ensures ReportsOf(scans, reports, items, scope)
  {
    reports := [];
    for i := 0 to |scans|
      invariant ReportsOf(scans[..i], reports, items, scope)
    {
      var s := scans[i];
      var trusted := Lineage.TrustworthyLineage(s.parents, items, scope);
      var assets, endpoints := Lineage.LinkedLineageIds(s.parents, items);
      reports := reports
        + [Report(s.id, s.scan, s.status, s.job, s.plausible, trusted, s.source, s.findings, assets, endpoints)];
    }
    assert scans[..|scans|] == scans;
  }

  /**
   A completed scan that reaches something missing or not approved, or no asset at all, earns nothing: neither
   it nor any other report of its job represents the job, however many good reports there are.
   */
  lemma NoCreditThroughBadLineage(scans: seq<Scan>, reports: seq<Report>, items: Lineage.Items, scope: Lineage.Scope,
                                  ctx: Context, i: nat, r: Report)
    requires ReportsOf(scans, reports, items, scope) && i < |scans| && scope.checked
    requires scans[i].scan && scans[i].status == "completed" && scans[i].job.Job? && scans[i].parents != []
    requires
      || (exists x :: Lineage.ReachedBy(items, scans[i].parents, x) && !Lineage.Approved(items, x, scope))
      || (forall x | Lineage.ReachedBy(items, scans[i].parents, x) :: x !in Lineage.AssetIds(items))
    requires r.job == scans[i].job
    ensures !Represents(reports, ctx, r) && r !in CountedReports(reports, ctx)
  {
    assert ReportOf(scans[i], reports[i], items, scope);
    SpoiledJobsHaveNoRepresentative(reports, ctx, reports[i], r);
  }

  /** The lineages of the findings on record, and what each asset claims to be. */
  ghost predicate ContextOf(found: seq<seq<Id>>, claims: map<Id, string>, items: Lineage.Items, ctx: Context) {
    && ctx.claims == claims && |ctx.findings| == |found|
    && forall i | 0 <= i < |found| :: LineageOf(found[i], items, ctx.findings[i])
  }

  ghost predicate LineageOf(parents: seq<Id>, items: Lineage.Items, finding: (set<Id>, set<Id>)) {
    Lineage.Linked(parents, items, finding.0, finding.1)
  }

  method ReadContext(found: seq<seq<Id>>, claims: map<Id, string>, items: Lineage.Items) returns (ctx: Context)
    ensures ContextOf(found, claims, items, ctx)
  {
    var lineages: seq<(set<Id>, set<Id>)> := [];
    for i := 0 to |found|
      invariant |lineages| == i && forall k | 0 <= k < i :: LineageOf(found[k], items, lineages[k])
    {
      var assets, endpoints := Lineage.LinkedLineageIds(found[i], items);
      assert LineageOf(found[i], items, (assets, endpoints));
      lineages := lineages + [(assets, endpoints)];
    }
    return Context(lineages, claims);
  }

  /**
   The accounting from the stored observations on: which forms are approved, which scans are trusted and what
   they link to, and which of their reports represent a job.
   */
  method CountScans(scans: seq<Scan>, found: seq<seq<Id>>, claims: map<Id, string>, items: Lineage.Items,
                    surface: Lineage.Surface)
    returns (scope: Lineage.Scope, reports: seq<Report>, ctx: Context,
             representatives: set<Report>, duplicates: int, untrusted: nat, unreconciled: nat)
    requires forall i, j | 0 <= i < j < |scans| :: scans[i].id != scans[j].id
    ensures Lineage.ScopeOf(surface, items, scope) && ReportsOf(scans, reports, items, scope)
    ensures ContextOf(found, claims, items, ctx)
    ensures forall r :: r in representatives <==> Represents(reports, ctx, r)
    ensures |representatives| + duplicates + untrusted == |CompletedReports(reports)|
    ensures duplicates == |CountedReports(reports, ctx)| - |representatives| >= 0
    ensures unreconciled == |UnreconciledReports(reports, ctx)| <= untrusted
  {
    scope := Lineage.ReadScope(surface, items);
    reports := ReadReports(scans, items, scope);
    ctx := ReadContext(found, claims, items);
    assert DistinctIds(reports) by {
      forall i | 0 <= i < |scans| ensures reports[i].id == scans[i].id {
        assert ReportOf(scans[i], reports[i], items, scope);
      }
    }
    representatives, duplicates, untrusted, unreconciled := CompletedScansWithProvenance(reports, ctx);
  }

  /** Credit does not pass through a form that an asset above it contradicts. */
  lemma CreditFollowsConsistentForms(scans: seq<Scan>, reports: seq<Report>, items: Lineage.Items,
                                     surface: Lineage.Surface, scope: Lineage.Scope, ctx: Context, i: nat, x: Id)
    returns (f: Lineage.SurfaceForm)
    requires Lineage.ScopeOf(surface, items, scope) && ReportsOf(scans, reports, items, scope)
    requires surface.checked && i < |scans| && scans[i].parents != [] && reports[i] in CountedReports(reports, ctx)
    requires Lineage.ReachedBy(items, scans[i].parents, x) && x in items && items[x].kind == Lineage.Form
    ensures f in surface.forms && f.id == x && Lineage.FormApproved(f, items, surface)
    ensures forall a | Lineage.ReachedBy(items, items[x].parents, a) && a in Lineage.AssetIds(items) ::
      a in surface.assets && Lineage.Supports(items[a].claim, f.action.value)
  {
    assert ReportOf(scans[i], reports[i], items, scope);
    f := Lineage.TrustedThroughForms(scans[i].parents, items, surface, scope, x);
  }
}
