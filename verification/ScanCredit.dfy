/**
 When a completed scan earns credit (coverage.py), said about the reports of its job as they are, without the
 passes of the accounting and without counting sets.
 */
module ScanCredit {
  import opened Arithmetic
  import opened Wrappers
  import opened ScanAccounting
  import Whitespace

  predicate Reported(r: Report, status: string) {
    r.scan && r.status == status
  }

  predicate Over(r: Report) {
    Reported(r, "completed") || Reported(r, "failed") || Reported(r, "cancelled")
  }

  /** The completed reports of one job; a report without a job stands alone. */
  function Mates(reports: seq<Report>, r: Report): set<Report> {
    set q | q in reports && Reported(q, "completed") && q.job == r.job && (r.job.NoJob? ==> q.id == r.id)
  }

  /** The job id is usable, its terminal reports agree on the outcome, and every completed one is believable. */
  predicate Believable(reports: seq<Report>, r: Report) {
    && !r.job.BadJob?
    && (forall q | q in Mates(reports, r) :: q.plausible && q.trusted)
    && (r.job.Job? ==>
          forall q, t | q in reports && t in reports && Over(q) && Over(t) && q.job == t.job == r.job ::
            q.status == t.status)
  }

  predicate Labelled(mates: set<Report>, name: string) {
    forall q | q in mates :: q.source.Some? && Whitespace.Strip(q.source.value) == name
  }

  ghost predicate OneLabel(mates: set<Report>) {
    exists name :: Labelled(mates, name) && name != ""
  }

  function AssetsOf(mates: set<Report>): set<Id> {
    set q, a | q in mates && a in q.assets :: a
  }

  function EndpointsOf(mates: set<Report>): set<Id> {
    set q, e | q in mates && e in q.endpoints :: e
  }

  /** A finding on record lies within the job: at its assets, and at its endpoints if it claims any. */
  predicate LiesWithin(finding: (set<Id>, set<Id>), mates: set<Report>) {
    && finding.0 != {} && (forall a | a in finding.0 :: a in AssetsOf(mates))
    && (EndpointsOf(mates) != {} ==> finding.1 != {} && forall e | e in finding.1 :: e in EndpointsOf(mates))
  }

  function OnRecord(ctx: Context, mates: set<Report>): set<nat> {
    set i: nat | i < |ctx.findings| && LiesWithin(ctx.findings[i], mates)
  }

  predicate AllClaim(ctx: Context, assets: set<Id>, claim: string) {
    forall a | a in assets :: a in ctx.claims && ctx.claims[a] == claim
  }

  /** All assets of the job claim to be one and the same, and its reports name the same endpoints. */
  ghost predicate OneTarget(ctx: Context, mates: set<Report>) {
    && AssetsOf(mates) != {}
    && (exists claim :: AllClaim(ctx, AssetsOf(mates), claim))
    && (forall q, t | q in mates && t in mates :: q.endpoints == t.endpoints)
  }

  predicate Reporting(mates: set<Report>, n: nat) {
    forall q | q in mates :: q.findings.NoFindings? || q.findings == Findings(n)
  }

  /** Some number of findings that no report of the job contradicts, and that the findings on record bear out. */
  ghost predicate NumbersHold(ctx: Context, mates: set<Report>) {
    exists n: nat ::
      && Reporting(mates, n)
      && n <= |OnRecord(ctx, mates)|
      && (n > 0 ==> OneTarget(ctx, mates))
  }

  ghost predicate EarnsCredit(reports: seq<Report>, ctx: Context, r: Report) {
    && r in reports && Reported(r, "completed") && Believable(reports, r)
    && OneLabel(Mates(reports, r)) && NumbersHold(ctx, Mates(reports, r))
  }

  // ---------------------------------------------------------------- job by job

  lemma SpoiledExactly(reports: seq<Report>, r: Report)
    requires DistinctIds(reports) && r in reports && Completed(r) && Sound(r, ConflictingJobs(reports))
    ensures Spoiled(reports, IdentityOf(r)) <==> exists q | q in Mates(reports, r) :: !(q.plausible && q.trusted)
  {
    var conflicting := ConflictingJobs(reports);
    if Spoiled(reports, IdentityOf(r)) {
      var q :| q in reports && Spoils(q, conflicting) && IdentityOf(r) == ByJob(q.job.id);
      assert q in Mates(reports, r);
    }
    if q :| q in Mates(reports, r) && !(q.plausible && q.trusted) {
      if r.job.Job? {
        assert Spoils(q, conflicting) && IdentityOf(r) == ByJob(q.job.id);
      } else {
        OneReportPerId(reports, q, r);
      }
    }
  }

  lemma NotSpoiledExactly(reports: seq<Report>, r: Report)
    requires DistinctIds(reports)
    ensures Considered(reports, r) <==> r in reports && Completed(r) && Believable(reports, r)
  {
    if r in reports && Completed(r) {
      assert r in CompletedReports(reports) && r in Mates(reports, r);
      if Sound(r, ConflictingJobs(reports)) { SpoiledExactly(reports, r); }
    }
  }

  lemma OneReportPerId(reports: seq<Report>, q: Report, r: Report)
    requires DistinctIds(reports) && q in reports && r in reports && q.id == r.id
    ensures q == r
  {
    var i :| 0 <= i < |reports| && reports[i] == q;
    var j :| 0 <= j < |reports| && reports[j] == r;
  }

  lemma MatesAreGroup(reports: seq<Report>, r: Report)
    requires DistinctIds(reports) && r in reports && Completed(r) && Believable(reports, r)
    ensures GroupOf(reports, IdentityOf(r)) == Mates(reports, r) && r in Mates(reports, r)
  {
    forall q ensures q in GroupOf(reports, IdentityOf(r)) <==> q in Mates(reports, r) {
      if q in GroupOf(reports, IdentityOf(r)) && r.job.NoJob? { OneReportPerId(reports, q, r); }
    }
  }

  lemma OneLabelExactly(group: set<Report>, r: Report)
    requires r in group
    ensures OneSource(group) <==> OneLabel(group)
  {
    var name := Label(r.source);
    assert name in Sources(group);
    if OneSource(group) {
      forall q | q in group ensures Label(q.source) == name {
        assert Label(q.source) in Sources(group);
        SingleMember(Sources(group), name, Label(q.source));
      }
      assert Labelled(group, name);
    }
    if other :| Labelled(group, other) && other != "" { assert Sources(group) == {other}; }
  }

  lemma SingleMember<T>(s: set<T>, x: T, y: T)
    requires |s| <= 1 && x in s && y in s
    ensures x == y
  {
    if x != y { TwoElements(s, x, y); }
  }

  function Matching(findings: seq<(set<Id>, set<Id>)>, assets: set<Id>, endpoints: set<Id>): set<nat> {
    set i: nat | i < |findings| && Matches(findings[i], assets, endpoints)
  }

  function Shifted(s: set<nat>): set<nat> {
    set i | i in s :: i + 1
  }

  lemma {:induction false} CountIsSize(findings: seq<(set<Id>, set<Id>)>, assets: set<Id>, endpoints: set<Id>)
    ensures MatchCount(findings, assets, endpoints) == |Matching(findings, assets, endpoints)|
  {
    var all := Matching(findings, assets, endpoints);
    if findings == [] {
      assert all == {};
    } else {
      var rest := findings[1..];
      CountIsSize(rest, assets, endpoints);
      var tail := Matching(rest, assets, endpoints);
      ShiftKeepsSize(tail);
      var first: set<nat> := if Matches(findings[0], assets, endpoints) then {0} else {};
      forall i: nat ensures i in all <==> i in Shifted(tail) + first {
        if i > 0 { assert i in Shifted(tail) <==> i - 1 in tail; }
      }
      assert all == Shifted(tail) + first && Shifted(tail) !! first;
    }
  }

  lemma {:induction false} ShiftKeepsSize(s: set<nat>)
    ensures |Shifted(s)| == |s| && forall i: nat :: i in Shifted(s) <==> i > 0 && i - 1 in s
    decreases |s|
  {
    forall i: nat | i > 0 && i - 1 in s ensures i in Shifted(s) { assert (i - 1) + 1 == i; }
    if s == {} {
      assert Shifted(s) == {};
    } else {
      var x :| x in s;
      ShiftKeepsSize(s - {x});
      forall i: nat ensures i in Shifted(s) <==> i in Shifted(s - {x}) + {x + 1} {}
      assert Shifted(s) == Shifted(s - {x}) + {x + 1};
    }
  }

  lemma OnRecordExactly(ctx: Context, group: set<Report>)
    ensures MatchCount(ctx.findings, ScanAssets(group), Union(EndpointClaims(group))) == |OnRecord(ctx, group)|
  {
    SameAssets(group);
    CountIsSize(ctx.findings, AssetsOf(group), EndpointsOf(group));
    assert OnRecord(ctx, group) == Matching(ctx.findings, AssetsOf(group), EndpointsOf(group));
  }

  lemma SameAssets(group: set<Report>)
    ensures ScanAssets(group) == AssetsOf(group) && Union(EndpointClaims(group)) == EndpointsOf(group)
  {
    forall a | a in AssetsOf(group) ensures a in ScanAssets(group) {
      var q :| q in group && a in q.assets;
      assert q.assets in (set r | r in group :: r.assets);
    }
    forall e | e in EndpointsOf(group) ensures e in Union(EndpointClaims(group)) {
      var q :| q in group && e in q.endpoints;
      assert q.endpoints in EndpointClaims(group);
    }
  }

  lemma OneTargetExactly(ctx: Context, group: set<Report>, r: Report)
    requires r in group
    ensures OneTarget(ctx, group) <==> !AmbiguousEndpoints(group) && !AmbiguousAssets(group, ctx)
  {
    SameAssets(group);
    EndpointsAgreeExactly(group, r);
    AssetsAgreeExactly(ctx, group);
  }

  lemma EndpointsAgreeExactly(group: set<Report>, r: Report)
    requires r in group
    ensures !AmbiguousEndpoints(group) <==> forall q, t | q in group && t in group :: q.endpoints == t.endpoints
  {
    assert r.endpoints in EndpointClaims(group);
    if forall q, t | q in group && t in group :: q.endpoints == t.endpoints {
      assert EndpointClaims(group) == {r.endpoints};
    } else {
      var q, t :| q in group && t in group && q.endpoints != t.endpoints;
      assert q.endpoints in EndpointClaims(group) && t.endpoints in EndpointClaims(group);
      if |EndpointClaims(group)| <= 1 { SingleMember(EndpointClaims(group), q.endpoints, t.endpoints); }
    }
  }

  lemma AssetsAgreeExactly(ctx: Context, group: set<Report>)
    ensures !AmbiguousAssets(group, ctx) <==>
      && ScanAssets(group) != {}
      && exists claim :: AllClaim(ctx, ScanAssets(group), claim)
  {
    var claims := AssetClaims(group, ctx);
    if !AmbiguousAssets(group, ctx) {
      var one :| one in claims;
      forall a | a in ScanAssets(group) ensures a in ctx.claims && ctx.claims[a] == one.value {
        var claim := if a in ctx.claims then Some(ctx.claims[a]) else None;
        assert claim in claims;
        SingleMember(claims, one, claim);
      }
      assert AllClaim(ctx, ScanAssets(group), one.value);
    }
    if c :| ScanAssets(group) != {} && AllClaim(ctx, ScanAssets(group), c) {
      var a :| a in ScanAssets(group);
      assert claims == {Some(c)};
    }
  }

  lemma NumbersHoldExactly(ctx: Context, group: set<Report>, r: Report)
    requires r in group
    ensures Reconciled(group, ctx) <==> NumbersHold(ctx, group)
  {
    OnRecordExactly(ctx, group);
    OneTargetExactly(ctx, group, r);
    if Reconciled(group, ctx) {
      if q :| q in group && q.findings.Findings? {
        assert Reporting(group, q.findings.count);
      } else {
        assert Reporting(group, 0);
      }
    }
    if n: nat :| Reporting(group, n) && n <= |OnRecord(ctx, group)| && (n > 0 ==> OneTarget(ctx, group)) {
      assert forall q | q in group && q.findings.Findings? :: q.findings.count == n;
    }
  }

  /**
   A report counts if and only if it is a completed one of the list; its job's reports are believable and carry
   one label; and the number of findings they give is one and the same, is borne out by as many findings on
   record within the job, and, unless it is zero, is given for one target.
   */
  lemma CountedExactly(reports: seq<Report>, ctx: Context, r: Report)
    requires DistinctIds(reports)
    ensures Counted(reports, ctx, r) <==> EarnsCredit(reports, ctx, r)
  {
    NotSpoiledExactly(reports, r);
    if r in reports && Completed(r) && Believable(reports, r) {
      MatesAreGroup(reports, r);
      OneLabelExactly(Mates(reports, r), r);
      NumbersHoldExactly(ctx, Mates(reports, r), r);
    }
  }

  /** Credit is given to all completed reports of a job or to none. */
  lemma JobsCountAsAWhole(reports: seq<Report>, ctx: Context, r: Report, q: Report)
    requires DistinctIds(reports) && r in reports && Completed(r) && q in Mates(reports, r)
    ensures r in CountedReports(reports, ctx) <==> q in CountedReports(reports, ctx)
  {
    CountedExactly(reports, ctx, r);
    CountedExactly(reports, ctx, q);
    assert Mates(reports, q) == Mates(reports, r);
  }
}
