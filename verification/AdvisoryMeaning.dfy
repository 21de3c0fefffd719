/**
 What an advisory document must look like, which advisories a product is given, and when each state of the
 consensus is reported (cve_advisory_catalog.py, cve_advisory_consensus.py).
 */
module AdvisoryMeaning {
  import opened Arithmetic
  import opened Wrappers
  import opened AdvisoryCatalog
  import opened AdvisoryConsensus
  import TextOrder
  import VersionRange
  import Whitespace

  // ---------------------------------------------------------------- documents

  /** Both parts of one identity are given and neither part of the other. */
  predicate OnlyGiven(first: Text, second: Text, other: Text, another: Text) {
    first.Text? && second.Text? && other == Missing && another == Missing
  }

  predicate WellWritten(raw: RawEntry) {
    && raw.cve.Text? && raw.ranges.Some?
    && (OnlyGiven(raw.vendor, raw.product, raw.ecosystem, raw.package)
        || OnlyGiven(raw.ecosystem, raw.package, raw.vendor, raw.product))
  }

  predicate ReadsAs(raw: RawEntry, verified: bool, e: Entry) {
    && raw.cve == Text(e.cve) && e.authoritative == verified
    && raw.ranges.Some? && e.ranges == VersionRange.Distinct(raw.ranges.value)
    && match e.identity
       case Cpe(v, p) =>
         && OnlyGiven(raw.vendor, raw.product, raw.ecosystem, raw.package)
         && raw.vendor == Text(v) && raw.product == Text(p)
       case Package(s, n) =>
         && OnlyGiven(raw.ecosystem, raw.package, raw.vendor, raw.product)
         && raw.ecosystem == Text(s) && raw.package == Text(n)
  }

  /** An entry is read exactly when it names one product in one way, and as just what it says. */
  lemma EntryExactly(raw: RawEntry, verified: bool)
    ensures ParseEntry(raw, verified).Some? <==> WellWritten(raw)
    ensures forall e :: ParseEntry(raw, verified) == Some(e) <==> ReadsAs(raw, verified, e)
  {
  }

  lemma {:induction false} AllAreRead(raw: seq<RawEntry>, verified: bool)
    ensures ParseAll(raw, verified).Some? <==> forall i | 0 <= i < |raw| :: WellWritten(raw[i])
    ensures ParseAll(raw, verified).Some? ==>
      && |ParseAll(raw, verified).value| == |raw|
      && forall i | 0 <= i < |raw| :: ReadsAs(raw[i], verified, ParseAll(raw, verified).value[i])
  {
    if raw != [] {
      var n := |raw| - 1;
      AllAreRead(raw[..n], verified);
      EntryExactly(raw[n], verified);
      assert forall i | 0 <= i < n :: raw[..n][i] == raw[i];
    }
  }

  predicate Contradict(a: RawEntry, b: RawEntry) {
    && a.cve == b.cve && a.vendor == b.vendor && a.product == b.product
    && a.ecosystem == b.ecosystem && a.package == b.package
    && a.ranges.Some? && b.ranges.Some?
    && VersionRange.Distinct(a.ranges.value) != VersionRange.Distinct(b.ranges.value)
  }

  lemma ContradictionShows(a: RawEntry, b: RawEntry, verified: bool, x: Entry, y: Entry)
    requires ReadsAs(a, verified, x) && ReadsAs(b, verified, y)
    ensures Contradict(a, b) <==> KeyOf(x) == KeyOf(y) && x != y
  {
  }

  /** A document is accepted when it is small enough, counted right, well written and without contradictions. */
  lemma AcceptableExactly(raw: seq<RawEntry>, declared: Option<int>, verified: bool)
    ensures Acceptable(raw, declared, verified) <==>
      && |raw| <= 20000 && declared in {None, Some(|raw|)}
      && (forall i | 0 <= i < |raw| :: WellWritten(raw[i]))
      && (forall i, j | 0 <= i < |raw| && 0 <= j < |raw| :: !Contradict(raw[i], raw[j]))
  {
    AllAreRead(raw, verified);
    if ParseAll(raw, verified).Some? {
      var entries := ParseAll(raw, verified).value;
      forall i, j | 0 <= i < |raw| && 0 <= j < |raw|
        ensures Contradict(raw[i], raw[j]) <==> KeyOf(entries[i]) == KeyOf(entries[j]) && entries[i] != entries[j]
      {
        ContradictionShows(raw[i], raw[j], verified, entries[i], entries[j]);
      }
      assert forall i | 0 <= i < |raw| :: entries[i] in entries;
    }
  }

  // ---------------------------------------------------------------- what a product is given

  /** The product is described consistently. */
  predicate WellDescribed(p: Product) {
    && ((p.vendor.Text? && p.product.Text?) || (p.vendor == Missing && p.product == Missing))
    && ((p.ecosystem.Text? && p.package.Text?) || (p.ecosystem == Missing && p.package == Missing))
  }

  predicate Names(i: Identity, p: Product) {
    || (i.Cpe? && p.vendor == Text(i.vendor) && p.product == Text(i.product))
    || (i.Package? && p.ecosystem == Text(i.ecosystem) && p.package == Text(i.name))
  }

  /** Only a verified catalog of the known schema is consulted, and only for authoritative entries that match. */
  lemma FoundMeans(c: Catalog, cve: string, p: Product, e: Entry)
    ensures e in Found(c, cve, p) <==>
      && c.schemaKnown && c.verified && WellDescribed(p)
      && e in c.entries && e.authoritative && e.cve == cve && Names(e.identity, p)
  {
    FoundExactly(c, cve, p);
  }

  /** A CPE advisory is compared with the fingerprinted versions, a package advisory with the package version alone. */
  lemma VersionsCompared(e: Entry, versions: Versions)
    ensures e.identity.Cpe? ==> ObservedFor(e, versions) == VersionRange.Observed(versions.fingerprints)
    ensures e.identity.Package? ==>
      && |ObservedFor(e, versions)| <= 1
      && (ObservedFor(e, versions) == [] <==> versions.package == None || Whitespace.Blank(versions.package.value))
      && (forall v | v in ObservedFor(e, versions) ::
            versions.package.Some? && v == Whitespace.Strip(versions.package.value))
  {
    if versions.package.Some? { Whitespace.BlankStrips(versions.package.value); }
  }

  // ---------------------------------------------------------------- the keys identities are counted by

  /** Who holds the product, and the product held. */
  function Holder(i: Identity): string {
    match i case Cpe(v, _) => v case Package(s, _) => s
  }

  function Held(i: Identity): string {
    match i case Cpe(_, p) => p case Package(_, n) => n
  }

  lemma KeyParts(i: Identity)
    ensures var head := if i.Cpe? then "cpe:" else "package:";
      IdentityKey(i)[..|head|] == head && IdentityKey(i)[|head|..] == Holder(i) + ":" + Held(i)
  {
    var head := if i.Cpe? then "cpe:" else "package:";
    assert IdentityKey(i) == head + (Holder(i) + ":" + Held(i));
  }

  /** Identities whose vendor or ecosystem has no colon are told apart by their keys. */
  lemma KeysOfIdentities(a: Identity, b: Identity)
    requires ':' !in Holder(a) && ':' !in Holder(b)
    ensures IdentityKey(a) == IdentityKey(b) <==> a == b
  {
    KeyParts(a);
    KeyParts(b);
    if IdentityKey(a) == IdentityKey(b) {
      assert IdentityKey(a)[0] == if a.Cpe? then 'c' else 'p';
      assert IdentityKey(b)[0] == if b.Cpe? then 'c' else 'p';
      TextOrder.ColonSplits(Holder(a), Held(a), Holder(b), Held(b));
    }
  }

  /** With a colon in a name two identities may share a key; advisories found for one product never do. */
  lemma KeysCollide()
    ensures IdentityKey(Cpe("a:b", "c")) == IdentityKey(Cpe("a", "b:c"))
    ensures IdentityKey(Cpe("a", "b:c")) == "cpe:a:b:c" && IdentityKey(Package("a", "b")) == "package:a:b"
  {
    assert IdentityKey(Cpe("a:b", "c")) == "cpe:a:b:c";
  }

  // ---------------------------------------------------------------- the states of the consensus

  predicate Opposed(evidence: seq<Evidence>) {
    && (exists x | x in evidence :: x.state == VersionRange.Affected)
    && (exists y | y in evidence :: y.state == VersionRange.NotAffected)
  }

  predicate Unanimous(evidence: seq<Evidence>) {
    || (forall x | x in evidence :: x.state == VersionRange.Affected)
    || (forall x | x in evidence :: x.state == VersionRange.NotAffected)
  }

  predicate OneProduct(evidence: seq<Evidence>) {
    forall x, y | x in evidence && y in evidence :: x.identity == y.identity
  }

  /** What the state says about the evidence, the number of authorities and the number of catalogs that speak. */
  predicate Means(state: State, evidence: seq<Evidence>, authorities: nat, instances: nat) {
    match state
    case NotApplicable => false
    case NotAvailable => evidence == []
    case ParallelUnboundIdentities => !OneProduct(evidence)
    case SameAuthoritySnapshotConflict =>
      OneProduct(evidence) && authorities == 1 && instances >= 2 && Opposed(evidence)
    case SingleSource =>
      evidence != [] && OneProduct(evidence) && authorities == 1 && (instances == 1 || !Opposed(evidence))
    case Agreement => OneProduct(evidence) && authorities >= 2 && Unanimous(evidence)
    case Conflict => OneProduct(evidence) && authorities >= 2 && Opposed(evidence)
    case Inconclusive => OneProduct(evidence) && authorities >= 2 && !Unanimous(evidence) && !Opposed(evidence)
  }

  lemma UniformStates(evidence: seq<Evidence>)
    requires evidence != []
    ensures Opposed(evidence) <==>
      VersionRange.Affected in States(evidence) && VersionRange.NotAffected in States(evidence)
    ensures Unanimous(evidence) <==>
      States(evidence) == {VersionRange.Affected} || States(evidence) == {VersionRange.NotAffected}
  {
    OneState(evidence, VersionRange.Affected);
    OneState(evidence, VersionRange.NotAffected);
  }

  lemma EvidenceHasASpeaker(catalogs: seq<Catalog>, cve: string, p: Product, versions: Versions)
    requires AllEvidence(catalogs, cve, p, versions) != []
    ensures exists c :: c in catalogs && Speaks(c, cve, p)
  {
    AllEvidenceExactly(catalogs, cve, p, versions);
    var x := AllEvidence(catalogs, cve, p, versions)[0];
    assert Said(x, catalogs, cve, p, versions);
    var c :| c in catalogs && x in CatalogEvidence(c, cve, p, versions);
    CatalogEvidenceExactly(c, cve, p, versions);
  }

  lemma SpeakersAreCounted(catalogs: seq<Catalog>, cve: string, p: Product)
    ensures |Authorities(catalogs, cve, p)| == 0 <==> !exists c :: c in catalogs && Speaks(c, cve, p)
    ensures |Instances(catalogs, cve, p)| == 0 <==> !exists c :: c in catalogs && Speaks(c, cve, p)
  {
    var authorities, instances := Authorities(catalogs, cve, p), Instances(catalogs, cve, p);
    if c :| c in catalogs && Speaks(c, cve, p) {
      assert c.authority in authorities && Instance(c.authority, c.name, c.digest) in instances;
    } else {
      assert authorities == {} && instances == {};
    }
  }

  lemma SomebodySpeaks(catalogs: seq<Catalog>, cve: string, p: Product, versions: Versions)
    ensures AllEvidence(catalogs, cve, p, versions) == [] <==> |Authorities(catalogs, cve, p)| == 0
    ensures |Authorities(catalogs, cve, p)| == 0 <==> |Instances(catalogs, cve, p)| == 0
  {
    SpeakersAreCounted(catalogs, cve, p);
    SpeakersGiveEvidence(catalogs, cve, p, versions);
    if AllEvidence(catalogs, cve, p, versions) != [] { EvidenceHasASpeaker(catalogs, cve, p, versions); }
  }

  lemma CombinedMeans(evidence: seq<Evidence>, instances: set<Instance>, authorities: set<string>, state: State)
    requires evidence != [] && |authorities| >= 1 && |instances| >= 1
    requires |Identities(evidence)| <= 1 <==> OneProduct(evidence)
    ensures Combined(evidence, instances, authorities).state == state <==>
      Means(state, evidence, |authorities|, |instances|)
    ensures Combined(evidence, instances, authorities).identityCount >= 1
  {
    UniformStates(evidence);
    assert evidence[0] in evidence && IdentityKey(evidence[0].identity) in Identities(evidence);
  }

  /** Each state is reported exactly for what it says, and the counts are those of what was found. */
  lemma StateExactly(finding: Finding, catalogs: seq<Catalog>, versions: Versions, state: State)
    requires |finding.cves| == 1
    ensures var r, cve, p := ConsensusOf(finding, catalogs, versions), finding.cves[0], finding.product;
      var evidence := AllEvidence(catalogs, cve, p, versions);
      && (r.state == state <==> Means(state, evidence, |Authorities(catalogs, cve, p)|, |Instances(catalogs, cve, p)|))
      && r.matchedCount == |evidence| && r.authorities == Authorities(catalogs, cve, p)
      && r.sourceCount == |r.authorities| && r.instanceCount == |Instances(catalogs, cve, p)|
      && (r.identityCount <= 1 <==> OneProduct(evidence)) && (r.identityCount == 0 <==> evidence == [])
  {
    var cve, p := finding.cves[0], finding.product;
    var evidence := AllEvidence(catalogs, cve, p, versions);
    SomebodySpeaks(catalogs, cve, p, versions);
    if evidence != [] {
      OneIdentity(catalogs, cve, p, versions);
      CombinedMeans(evidence, Instances(catalogs, cve, p), Authorities(catalogs, cve, p), state);
    }
  }

  /** Without exactly one CVE nothing is looked up or counted. */
  lemma NothingIsLookedUp(finding: Finding, catalogs: seq<Catalog>, versions: Versions)
    ensures ConsensusOf(finding, catalogs, versions).state == NotApplicable <==> |finding.cves| != 1
    ensures |finding.cves| != 1 ==>
      var r := ConsensusOf(finding, catalogs, versions);
      && r.sourceCount == r.instanceCount == r.matchedCount == r.identityCount == 0 && r.authorities == {}
      && !r.agreement && r.agreed == None
  {
    if |finding.cves| == 1 { StateExactly(finding, catalogs, versions, NotApplicable); }
  }
}
