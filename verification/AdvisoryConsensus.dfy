/**
 Agreement between advisory sources about one vulnerability (cve_advisory_consensus.py): the sources
 come as verified catalogs, and each source's verdict is that of its own version ranges.
 */
module AdvisoryConsensus {
  import opened Arithmetic
  import opened Wrappers
  import opened AdvisoryCatalog
  import VersionRange
  import Whitespace

  type Applicability = VersionRange.Applicability

  datatype Finding = Finding(cves: seq<string>, product: Product) // the distinct, normalized CVE ids

  /** The versions observed for the finding. */
  datatype Versions = Versions(fingerprints: seq<string>, package: Option<string>)

  datatype Evidence = Evidence(
    name: string,
    authority: string,
    identity: Identity,
    ranges: seq<string>,
    observed: seq<string>,
    state: Applicability)

  datatype State =
    | NotApplicable
    | NotAvailable
    | ParallelUnboundIdentities
    | SameAuthoritySnapshotConflict
    | SingleSource
    | Agreement
    | Conflict
    | Inconclusive

  datatype Instance = Instance(authority: string, name: string, digest: string)

  datatype Consensus = Consensus(
    state: State,
    sourceCount: nat,
    instanceCount: nat,
    matchedCount: nat,
    identityCount: nat,
    authorities: set<string>,
    agreement: bool,
    agreed: Option<Applicability>)

  // ---------------------------------------------------------------- evidence

  function IdentityKey(i: Identity): string {
    match i
    case Cpe(v, p) => "cpe:" + v + ":" + p
    case Package(e, n) => "package:" + e + ":" + n
  }

  /** Package advisories look at the package version, CPE advisories at the fingerprinted versions. */
  function ObservedFor(e: Entry, versions: Versions): seq<string> {
    if e.identity.Cpe? then VersionRange.Observed(versions.fingerprints)
    else if versions.package.Some? && Whitespace.Strip(versions.package.value) != "" then
      [Whitespace.Strip(versions.package.value)]
    else []
  }

  function EvidenceFrom(c: Catalog, e: Entry, versions: Versions): Evidence {
    var observed := ObservedFor(e, versions);
    Evidence(c.name, c.authority, e.identity, e.ranges, observed,
             VersionRange.Verdict(1, VersionRange.UsedRanges(e.ranges), VersionRange.Observed(observed)))
  }

  function FromEntries(c: Catalog, entries: seq<Entry>, versions: Versions): (r: seq<Evidence>)
    ensures |r| == |entries|
  {
    if entries == [] then []
    else FromEntries(c, entries[..|entries| - 1], versions) + [EvidenceFrom(c, entries[|entries| - 1], versions)]
  }

  /** Everything one catalog says about the vulnerability. */
  function CatalogEvidence(c: Catalog, cve: string, p: Product, versions: Versions): seq<Evidence> {
    FromEntries(c, Found(c, cve, p), versions)
  }

  predicate Speaks(c: Catalog, cve: string, p: Product) {
    Found(c, cve, p) != []
  }

  function AllEvidence(catalogs: seq<Catalog>, cve: string, p: Product, versions: Versions): seq<Evidence> {
    if catalogs == [] then []
    else AllEvidence(catalogs[..|catalogs| - 1], cve, p, versions)
         + CatalogEvidence(catalogs[|catalogs| - 1], cve, p, versions)
  }

  function Instances(catalogs: seq<Catalog>, cve: string, p: Product): set<Instance> {
    set c | c in catalogs && Speaks(c, cve, p) :: Instance(c.authority, c.name, c.digest)
  }

  function Authorities(catalogs: seq<Catalog>, cve: string, p: Product): set<string> {
    set c | c in catalogs && Speaks(c, cve, p) :: c.authority
  }

  function Identities(evidence: seq<Evidence>): set<string> {
    set x | x in evidence :: IdentityKey(x.identity)
  }

  function States(evidence: seq<Evidence>): set<Applicability> {
    set x | x in evidence :: x.state
  }

  // ---------------------------------------------------------------- the verdict

  /** The branches of the builder, once the evidence is collected. */
  function Decide(sources: nat, instances: nat, identities: nat, states: set<Applicability>)
    : (State, Option<Applicability>)
  {
    if identities > 1 then (ParallelUnboundIdentities, None)
    else if sources < 2 then
      (if instances > 1 && VersionRange.Affected in states && VersionRange.NotAffected in states
       then SameAuthoritySnapshotConflict else SingleSource, None)
    else if states == {VersionRange.Affected} then (Agreement, Some(VersionRange.Affected))
    else if states == {VersionRange.NotAffected} then (Agreement, Some(VersionRange.NotAffected))
    else if VersionRange.Affected in states && VersionRange.NotAffected in states then (Conflict, None)
    else (Inconclusive, None)
  }

  function Nothing(state: State): Consensus {
    Consensus(state, 0, 0, 0, 0, {}, false, None)
  }

  function Combined(evidence: seq<Evidence>, instances: set<Instance>, authorities: set<string>): Consensus {
    if evidence == [] then Nothing(NotAvailable)
    else
      var identities := Identities(evidence);
      var (state, agreed) := Decide(|authorities|, |instances|, |identities|, States(evidence));
      Consensus(state, |authorities|, |instances|, |evidence|, |identities|, authorities, agreed.Some?, agreed)
  }

  function ConsensusOf(finding: Finding, catalogs: seq<Catalog>, versions: Versions): Consensus {
    if |finding.cves| != 1 then Nothing(NotApplicable)
    else
      var cve, p := finding.cves[0], finding.product;
      Combined(AllEvidence(catalogs, cve, p, versions), Instances(catalogs, cve, p), Authorities(catalogs, cve, p))
  }

  method EvidenceOfMatches(c: Catalog, matches: seq<Entry>, versions: Versions) returns (evidence: seq<Evidence>)
    ensures evidence == FromEntries(c, matches, versions)
  {
    evidence := [];
    for k := 0 to |matches|
      invariant evidence == FromEntries(c, matches[..k], versions)
    {
      var e := matches[k];
      assert matches[..k + 1][..k] == matches[..k];
      var observed := ObservedFor(e, versions);
      var applicability := VersionRange.BuildEvidence(1, e.ranges, observed, true);
      evidence := evidence + [Evidence(c.name, c.authority, e.identity, e.ranges, observed, applicability.state)];
    }
    assert matches[..|matches|] == matches;
  }

  /** What the first `i` catalogs have contributed. */
  ghost predicate Collected(finding: Finding, catalogs: seq<Catalog>, versions: Versions, i: nat,
                            evidence: seq<Evidence>, instances: set<Instance>, authorities: set<string>)
  {
    && |finding.cves| == 1 && i <= |catalogs|
    && evidence == AllEvidence(catalogs[..i], finding.cves[0], finding.product, versions)
    && instances == Instances(catalogs[..i], finding.cves[0], finding.product)
    && authorities == Authorities(catalogs[..i], finding.cves[0], finding.product)
  }

  lemma CollectNext(finding: Finding, catalogs: seq<Catalog>, versions: Versions, i: nat,
                    evidence: seq<Evidence>, instances: set<Instance>, authorities: set<string>)
    requires i < |catalogs| && Collected(finding, catalogs, versions, i, evidence, instances, authorities)
    ensures var c := catalogs[i]; var matches := Found(c, finding.cves[0], finding.product);
      if matches == [] then Collected(finding, catalogs, versions, i + 1, evidence, instances, authorities)
      else Collected(finding, catalogs, versions, i + 1, evidence + FromEntries(c, matches, versions),
                     instances + {Instance(c.authority, c.name, c.digest)}, authorities + {c.authority})
  {
    OneMoreCatalog(catalogs, i, finding.cves[0], finding.product, versions);
  }

  method BuildConsensus(finding: Finding, catalogs: seq<Catalog>, versions: Versions) returns (r: Consensus)
    ensures r == ConsensusOf(finding, catalogs, versions)
  {
    if |finding.cves| != 1 { return Nothing(NotApplicable); }
    var evidence: seq<Evidence> := [];
    var instances: set<Instance> := {};
    var authorities: set<string> := {};
    for i := 0 to |catalogs|
      invariant Collected(finding, catalogs, versions, i, evidence, instances, authorities)
    {
      var c := catalogs[i];
      CollectNext(finding, catalogs, versions, i, evidence, instances, authorities);
      var matches := FindVerified(c, finding.cves[0], finding.product);
      if matches == [] { continue; }
      var found := EvidenceOfMatches(c, matches, versions);
      evidence := evidence + found;
      instances := instances + {Instance(c.authority, c.name, c.digest)};
      authorities := authorities + {c.authority};
    }
    assert catalogs[..|catalogs|] == catalogs;
    return Combined(evidence, instances, authorities);
  }

  lemma OneMoreCatalog(catalogs: seq<Catalog>, i: nat, cve: string, p: Product, versions: Versions)
    requires i < |catalogs|
    ensures AllEvidence(catalogs[..i + 1], cve, p, versions)
         == AllEvidence(catalogs[..i], cve, p, versions) + CatalogEvidence(catalogs[i], cve, p, versions)
    ensures var c := catalogs[i];
      && Instances(catalogs[..i + 1], cve, p)
         == Instances(catalogs[..i], cve, p)
           + (if Speaks(c, cve, p) then {Instance(c.authority, c.name, c.digest)} else {})
      && Authorities(catalogs[..i + 1], cve, p) == Authorities(catalogs[..i], cve, p)
           + (if Speaks(c, cve, p) then {c.authority} else {})
      && (!Speaks(c, cve, p) ==>
            && AllEvidence(catalogs[..i + 1], cve, p, versions) == AllEvidence(catalogs[..i], cve, p, versions)
            && Instances(catalogs[..i + 1], cve, p) == Instances(catalogs[..i], cve, p)
            && Authorities(catalogs[..i + 1], cve, p) == Authorities(catalogs[..i], cve, p))
  {
    assert catalogs[..i + 1][..i] == catalogs[..i];
    assert forall c :: c in catalogs[..i + 1] <==> c in catalogs[..i] || c == catalogs[i];
  }

  // ---------------------------------------------------------------- what the verdict rests on

  predicate Witnesses(c: Catalog, e: Entry, x: Evidence, cve: string, p: Product, versions: Versions) {
    e in Found(c, cve, p) && x == EvidenceFrom(c, e, versions)
  }

  lemma {:induction false} FromEntriesAt(c: Catalog, entries: seq<Entry>, versions: Versions, i: nat)
    requires i < |entries|
    ensures FromEntries(c, entries, versions)[i] == EvidenceFrom(c, entries[i], versions)
  {
    if i < |entries| - 1 { FromEntriesAt(c, entries[..|entries| - 1], versions, i); }
  }

  lemma CatalogEvidenceExactly(c: Catalog, cve: string, p: Product, versions: Versions)
    ensures forall x :: x in CatalogEvidence(c, cve, p, versions) <==> exists e :: Witnesses(c, e, x, cve, p, versions)
    ensures CatalogEvidence(c, cve, p, versions) == [] <==> !Speaks(c, cve, p)
  {
    var found, all := Found(c, cve, p), CatalogEvidence(c, cve, p, versions);
    forall x ensures x in all <==> exists e :: Witnesses(c, e, x, cve, p, versions) {
      if x in all {
        var i :| 0 <= i < |all| && all[i] == x;
        FromEntriesAt(c, found, versions, i);
        assert Witnesses(c, found[i], x, cve, p, versions);
      }
      if e :| Witnesses(c, e, x, cve, p, versions) {
        var i :| 0 <= i < |found| && found[i] == e;
        FromEntriesAt(c, found, versions, i);
        assert all[i] == x;
      }
    }
  }

  predicate Said(x: Evidence, catalogs: seq<Catalog>, cve: string, p: Product, versions: Versions) {
    exists c | c in catalogs :: x in CatalogEvidence(c, cve, p, versions)
  }

  /** The evidence is what the catalogs say, taken together. */
  lemma {:induction false} AllEvidenceExactly(catalogs: seq<Catalog>, cve: string, p: Product, versions: Versions)
    ensures forall x :: x in AllEvidence(catalogs, cve, p, versions) <==> Said(x, catalogs, cve, p, versions)
  {
    if catalogs != [] {
      var n := |catalogs| - 1;
      AllEvidenceExactly(catalogs[..n], cve, p, versions);
      assert catalogs == catalogs[..n] + [catalogs[n]];
    }
  }

  lemma SameMembersSameEvidence(a: seq<Catalog>, b: seq<Catalog>, cve: string, p: Product, versions: Versions)
    requires forall c :: c in a <==> c in b
    ensures forall x :: x in AllEvidence(a, cve, p, versions) <==> x in AllEvidence(b, cve, p, versions)
    ensures Instances(a, cve, p) == Instances(b, cve, p) && Authorities(a, cve, p) == Authorities(b, cve, p)
  {
    AllEvidenceExactly(a, cve, p, versions);
    AllEvidenceExactly(b, cve, p, versions);
  }

  lemma SameMembersSameSets(a: seq<Evidence>, b: seq<Evidence>)
    requires forall x :: x in a <==> x in b
    ensures Identities(a) == Identities(b) && States(a) == States(b) && (a == [] <==> b == [])
  {
    assert a != [] ==> a[0] in b;
    assert b != [] ==> b[0] in a;
  }

  /** Neither the order of the catalogs nor repeating one matters, except to the number of matched advisories. */
  lemma OrderAndRepetitionAreIrrelevant(finding: Finding, a: seq<Catalog>, b: seq<Catalog>, versions: Versions)
    requires forall c :: c in a <==> c in b
    ensures var x, y := ConsensusOf(finding, a, versions), ConsensusOf(finding, b, versions);
      y == x.(matchedCount := y.matchedCount)
  {
    if |finding.cves| == 1 {
      var cve, p := finding.cves[0], finding.product;
      SameMembersSameEvidence(a, b, cve, p, versions);
      SameMembersSameSets(AllEvidence(a, cve, p, versions), AllEvidence(b, cve, p, versions));
    }
  }

  lemma Regroup(a: seq<Evidence>, b: seq<Evidence>, c: seq<Evidence>)
    ensures (a + b) + c == a + (b + c)
  {
  }

  lemma RemoveOne(rest: seq<Catalog>, c: Catalog, before: seq<Catalog>, after: seq<Catalog>)
    requires multiset(rest + [c]) == multiset(before + [c] + after)
    ensures multiset(rest) == multiset(before + after)
  {
    assert multiset(rest + [c]) == multiset(rest) + multiset{c};
    assert multiset(before + [c] + after) == multiset(before) + multiset{c} + multiset(after);
    assert multiset(before + after) == multiset(before) + multiset(after);
    forall x ensures multiset(rest)[x] == multiset(before + after)[x] {
      assert multiset(rest + [c])[x] == multiset(rest)[x] + multiset{c}[x];
    }
  }

  lemma {:induction false} EvidenceOfSplit(a: seq<Catalog>, b: seq<Catalog>, cve: string, p: Product,
                                           versions: Versions)
    ensures AllEvidence(a + b, cve, p, versions) == AllEvidence(a, cve, p, versions) + AllEvidence(b, cve, p, versions)
    decreases |b|
  {
    if b == [] {
      assert a + b == a;
    } else {
      var n := |b| - 1;
      var last := CatalogEvidence(b[n], cve, p, versions);
      EvidenceOfSplit(a, b[..n], cve, p, versions);
      assert (a + b)[..|a + b| - 1] == a + b[..n] && (a + b)[|a + b| - 1] == b[n];
      assert AllEvidence(b, cve, p, versions) == AllEvidence(b[..n], cve, p, versions) + last;
      Regroup(AllEvidence(a, cve, p, versions), AllEvidence(b[..n], cve, p, versions), last);
    }
  }

  /** Reordering the catalogs keeps the number of matched advisories as well. */
  lemma {:induction false} ReorderingKeepsCount(a: seq<Catalog>, b: seq<Catalog>, cve: string, p: Product,
                                                versions: Versions)
    requires multiset(a) == multiset(b)
    ensures |AllEvidence(a, cve, p, versions)| == |AllEvidence(b, cve, p, versions)|
    decreases |a|
  {
    assert |a| == |multiset(a)| == |multiset(b)| == |b|;
    if a != [] {
      var c, rest := a[|a| - 1], a[..|a| - 1];
      assert a == rest + [c] && c in multiset(b);
      var i :| 0 <= i < |b| && b[i] == c;
      var before, after := b[..i], b[i + 1..];
      assert b == before + [c] + after;
      RemoveOne(rest, c, before, after);
      ReorderingKeepsCount(rest, before + after, cve, p, versions);
      MovingOneKeepsCount(rest, c, before, after, cve, p, versions);
    }
  }

  lemma MovingOneKeepsCount(rest: seq<Catalog>, c: Catalog, before: seq<Catalog>, after: seq<Catalog>,
                            cve: string, p: Product, versions: Versions)
    requires |AllEvidence(rest, cve, p, versions)| == |AllEvidence(before + after, cve, p, versions)|
    ensures |AllEvidence(rest + [c], cve, p, versions)| == |AllEvidence(before + [c] + after, cve, p, versions)|
  {
    EvidenceOfSplit(rest, [c], cve, p, versions);
    EvidenceOfSplit(before, after, cve, p, versions);
    EvidenceOfSplit(before + [c], after, cve, p, versions);
    EvidenceOfSplit(before, [c], cve, p, versions);
  }

  // ---------------------------------------------------------------- agreement

  /**
   Agreement means at least two authorities speaking of one and the same identity, and every source's
   ranges giving the same verdict, affected or not affected, for the versions observed.
   */
  lemma AgreementExactly(finding: Finding, catalogs: seq<Catalog>, versions: Versions)
    requires |finding.cves| == 1
    ensures var r := ConsensusOf(finding, catalogs, versions);
      var evidence := AllEvidence(catalogs, finding.cves[0], finding.product, versions);
      && (r.agreement <==> r.state == Agreement)
      && (r.agreement <==>
            && |Authorities(catalogs, finding.cves[0], finding.product)| >= 2
            && (forall x, y | x in evidence && y in evidence :: x.identity == y.identity)
            && ((forall x | x in evidence :: x.state == VersionRange.Affected)
                || (forall x | x in evidence :: x.state == VersionRange.NotAffected)))
      && (r.agreement ==> evidence != [] && r.agreed.Some? && forall x | x in evidence :: r.agreed == Some(x.state))
  {
    var cve, p := finding.cves[0], finding.product;
    var evidence := AllEvidence(catalogs, cve, p, versions);
    SpeakersGiveEvidence(catalogs, cve, p, versions);
    if evidence != [] {
      OneIdentity(catalogs, cve, p, versions);
      OneState(evidence, VersionRange.Affected);
      OneState(evidence, VersionRange.NotAffected);
    }
  }

  lemma OneState(evidence: seq<Evidence>, s: Applicability)
    requires evidence != []
    ensures States(evidence) == {s} <==> forall x | x in evidence :: x.state == s
  {
    assert evidence[0] in evidence;
    assert evidence[0].state in States(evidence);
    forall x | x in evidence ensures x.state in States(evidence) {}
    if forall x | x in evidence :: x.state == s {
      forall t ensures t in States(evidence) <==> t == s {}
    }
  }

  lemma SingletonMeansEqual(s: set<string>, x: string)
    requires x in s
    ensures |s| <= 1 <==> forall y | y in s :: y == x
  {
    if forall y | y in s :: y == x {
      assert s == {x};
    } else {
      var y :| y in s && y != x;
      TwoElements(s, x, y);
    }
  }

  /** One identity key stands for one identity: a product is matched by its CPE or its package only. */
  lemma OneIdentity(catalogs: seq<Catalog>, cve: string, p: Product, versions: Versions)
    requires AllEvidence(catalogs, cve, p, versions) != []
    ensures var evidence := AllEvidence(catalogs, cve, p, versions);
      |Identities(evidence)| <= 1 <==> forall x, y | x in evidence && y in evidence :: x.identity == y.identity
  {
    var evidence := AllEvidence(catalogs, cve, p, versions);
    var first := evidence[0];
    assert first in evidence && IdentityKey(first.identity) in Identities(evidence);
    SingletonMeansEqual(Identities(evidence), IdentityKey(first.identity));
    forall x | x in evidence
      ensures IdentityKey(x.identity) == IdentityKey(first.identity) <==> x.identity == first.identity
    {
      KeysTellIdentities(catalogs, cve, p, versions, x, first);
    }
    forall x | x in evidence ensures IdentityKey(x.identity) in Identities(evidence) {}
  }

  lemma KeysTellIdentities(catalogs: seq<Catalog>, cve: string, p: Product, versions: Versions, x: Evidence,
                           y: Evidence)
    requires x in AllEvidence(catalogs, cve, p, versions) && y in AllEvidence(catalogs, cve, p, versions)
    ensures IdentityKey(x.identity) == IdentityKey(y.identity) <==> x.identity == y.identity
  {
    IdentityOfProduct(catalogs, cve, p, versions, x);
    IdentityOfProduct(catalogs, cve, p, versions, y);
    assert IdentityKey(x.identity)[0] == if x.identity.Cpe? then 'c' else 'p';
    assert IdentityKey(y.identity)[0] == if y.identity.Cpe? then 'c' else 'p';
  }

  lemma IdentityOfProduct(catalogs: seq<Catalog>, cve: string, p: Product, versions: Versions, x: Evidence)
    requires x in AllEvidence(catalogs, cve, p, versions)
    ensures match x.identity
      case Cpe(v, n) => p.vendor == Text(v) && p.product == Text(n)
      case Package(s, n) => p.ecosystem == Text(s) && p.package == Text(n)
  {
    AllEvidenceExactly(catalogs, cve, p, versions);
    var c :| c in catalogs && x in CatalogEvidence(c, cve, p, versions);
    CatalogEvidenceExactly(c, cve, p, versions);
    var e :| Witnesses(c, e, x, cve, p, versions);
    FoundExactly(c, cve, p);
  }

  /** Less evidence from the same authorities agrees on whatever more of it agrees on. */
  lemma LessEvidenceAgrees(evidence: seq<Evidence>, more: seq<Evidence>, fewer: set<Instance>,
                           instances: set<Instance>, authorities: set<string>)
    requires evidence != [] && forall x | x in evidence :: x in more
    requires Combined(more, instances, authorities).agreement
    ensures Combined(evidence, fewer, authorities).agreement
    ensures Combined(evidence, fewer, authorities).agreed == Combined(more, instances, authorities).agreed
  {
    assert Identities(evidence) <= Identities(more);
    SubsetSize(Identities(evidence), Identities(more));
    assert States(evidence) <= States(more);
    assert evidence[0].state in States(evidence);
    assert |States(more)| == 1 && States(evidence) == States(more);
  }

  /** A conflict is reported exactly when, for one identity, some source says affected and another says not affected. */
  lemma ConflictExactly(finding: Finding, catalogs: seq<Catalog>, versions: Versions)
    requires |finding.cves| == 1
    ensures var r := ConsensusOf(finding, catalogs, versions);
      var evidence := AllEvidence(catalogs, finding.cves[0], finding.product, versions);
      (r.state == Conflict || r.state == SameAuthoritySnapshotConflict) <==>
        && (|Authorities(catalogs, finding.cves[0], finding.product)| >= 2
            || |Instances(catalogs, finding.cves[0], finding.product)| >= 2)
        && (forall x, y | x in evidence && y in evidence :: x.identity == y.identity)
        && (exists x | x in evidence :: x.state == VersionRange.Affected)
        && (exists y | y in evidence :: y.state == VersionRange.NotAffected)
  {
    var cve, p := finding.cves[0], finding.product;
    var evidence := AllEvidence(catalogs, cve, p, versions);
    if evidence != [] {
      OneIdentity(catalogs, cve, p, versions);
      ConflictInEvidence(evidence, Instances(catalogs, cve, p), Authorities(catalogs, cve, p));
    }
  }

  lemma ConflictInEvidence(evidence: seq<Evidence>, instances: set<Instance>, authorities: set<string>)
    requires evidence != []
    ensures var state := Combined(evidence, instances, authorities).state;
      (state == Conflict || state == SameAuthoritySnapshotConflict) <==>
        && (|authorities| >= 2 || |instances| >= 2)
        && |Identities(evidence)| <= 1
        && (exists x | x in evidence :: x.state == VersionRange.Affected)
        && (exists y | y in evidence :: y.state == VersionRange.NotAffected)
  {
    assert VersionRange.Affected in States(evidence) && VersionRange.NotAffected in States(evidence) ==>
      States(evidence) != {VersionRange.Affected} && States(evidence) != {VersionRange.NotAffected};
  }

  /** A further catalog of an authority that already speaks cannot create agreement or change what is agreed. */
  lemma AgreementIsNotManufactured(finding: Finding, catalogs: seq<Catalog>, extra: Catalog, versions: Versions)
    requires |finding.cves| == 1 && extra.authority in Authorities(catalogs, finding.cves[0], finding.product)
    requires ConsensusOf(finding, catalogs + [extra], versions).agreement
    ensures ConsensusOf(finding, catalogs, versions).agreement
    ensures ConsensusOf(finding, catalogs, versions).agreed == ConsensusOf(finding, catalogs + [extra], versions).agreed
  {
    var cve, p, more := finding.cves[0], finding.product, catalogs + [extra];
    ExtraCatalogOnlyAdds(catalogs, extra, cve, p, versions);
    LessEvidenceAgrees(AllEvidence(catalogs, cve, p, versions), AllEvidence(more, cve, p, versions),
                       Instances(catalogs, cve, p), Instances(more, cve, p), Authorities(catalogs, cve, p));
  }

  lemma ExtraCatalogOnlyAdds(catalogs: seq<Catalog>, extra: Catalog, cve: string, p: Product, versions: Versions)
    requires extra.authority in Authorities(catalogs, cve, p)
    ensures Authorities(catalogs + [extra], cve, p) == Authorities(catalogs, cve, p)
    ensures AllEvidence(catalogs, cve, p, versions) != []
    ensures forall x | x in AllEvidence(catalogs, cve, p, versions) ::
      x in AllEvidence(catalogs + [extra], cve, p, versions)
  {
    var more := catalogs + [extra];
    assert more[..|catalogs|] == catalogs && more[..|catalogs| + 1] == more;
    OneMoreCatalog(more, |catalogs|, cve, p, versions);
    assert Authorities(more, cve, p) == Authorities(catalogs, cve, p);
    SpeakersGiveEvidence(catalogs, cve, p, versions);
  }

  lemma SpeakersGiveEvidence(catalogs: seq<Catalog>, cve: string, p: Product, versions: Versions)
    ensures Authorities(catalogs, cve, p) != {} ==> AllEvidence(catalogs, cve, p, versions) != []
  {
    if a :| a in Authorities(catalogs, cve, p) {
      var c :| c in catalogs && Speaks(c, cve, p) && c.authority == a;
      CatalogEvidenceExactly(c, cve, p, versions);
      AllEvidenceExactly(catalogs, cve, p, versions);
      assert CatalogEvidence(c, cve, p, versions)[0] in AllEvidence(catalogs, cve, p, versions);
    }
  }
}
