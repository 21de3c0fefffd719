/**
 The hash chain over planner decisions stored as observations (decision_audit.py, orchestrator.py).
 The chain lives in the numbers and hashes of the decisions, not in the order of the graph.
 The digest is never empty, and has no collisions where a lemma asks for that; of the keyed digest nothing
 is assumed.
 */
module DecisionAudit {
  import opened Wrappers
  import opened StableSort

  /** Action, agent, reason, priority and graph fingerprint. */
  type Body = map<string, string>

  datatype Payload = Payload(id: string, body: Body, seqNo: Option<int>, previous: Option<string>)

  datatype Decision =
    Decision(payload: Payload, hash: Option<string>, signature: Option<string>, algorithm: Option<string>)
  {
    predicate Sealed() {
      payload.seqNo.Some? && hash.Some? && hash.value != ""
    }

    function SeqNo(): int {
      if payload.seqNo.Some? then payload.seqNo.value else 0
    }
  }

  datatype Digests = Digests(hash: Payload -> string, mac: (string, Payload) -> string)

  datatype Secret = Unset | Secret(key: string)

  ghost predicate Sound(d: Digests) {
    forall p :: d.hash(p) != ""
  }

  ghost predicate CollisionFree(d: Digests) {
    forall p, q :: d.hash(p) == d.hash(q) ==> p == q
  }

  /** The verifier accepts the signature of a payload sealed with `sealing`. */
  predicate Confirms(p: Payload, d: Digests, sealing: Secret, verifying: Secret) {
    sealing == Unset || (verifying.Secret? && d.mac(sealing.key, p) == d.mac(verifying.key, p))
  }

  const ALGORITHM := "hmac-sha256"

  function SealedOnly(ds: seq<Decision>): seq<Decision> {
    if ds == [] then []
    else if ds[0].Sealed() then [ds[0]] + SealedOnly(ds[1..])
    else SealedOnly(ds[1..])
  }

  function LegacyIds(ds: seq<Decision>): seq<string> {
    if ds == [] then []
    else if ds[0].Sealed() then LegacyIds(ds[1..])
    else [ds[0].payload.id] + LegacyIds(ds[1..])
  }

  predicate BySeqNo(a: Decision, b: Decision) {
    a.SeqNo() <= b.SeqNo()
  }

  function Chain(ds: seq<Decision>): seq<Decision> {
    Sort(SealedOnly(ds), BySeqNo)
  }

  // ---------------------------------------------------------------- sealing and verifying

  function Seal(id: string, body: Body, seqNo: int, previous: Option<string>, d: Digests, secret: Secret): Decision {
    var payload := Payload(id, body, Some(seqNo), previous);
    match secret
    case Unset => Decision(payload, Some(d.hash(payload)), None, None)
    case Secret(key) => Decision(payload, Some(d.hash(payload)), Some(d.mac(key, payload)), Some(ALGORITHM))
  }

  /** The first decision with the greatest number, as `max` returns it. */
  function Latest(ds: seq<Decision>): (r: Decision)
    requires ds != []
    ensures r in ds && forall x | x in ds :: x.SeqNo() <= r.SeqNo()
  {
    if |ds| == 1 then ds[0]
    else
      var rest := Latest(ds[1..]);
      if ds[0].SeqNo() >= rest.SeqNo() then ds[0] else rest
  }

  function NextLink(ds: seq<Decision>): (int, Option<string>) {
    var sealed := SealedOnly(ds);
    if sealed == [] then (1, None) else (Latest(sealed).SeqNo() + 1, Latest(sealed).hash)
  }

  datatype Reason =
    | SequenceGap
    | PreviousMismatch
    | HashMismatch
    | UnsupportedAlgorithm
    | KeyUnavailable
    | SignatureMismatch

  function PreviousHash(chain: seq<Decision>, i: nat): Option<string>
    requires i <= |chain|
  {
    if i == 0 then None else chain[i - 1].hash
  }

  /** The first check the `i`-th decision of the chain fails. */
  function Fault(chain: seq<Decision>, i: nat, d: Digests, secret: Secret): Option<Reason>
    requires i < |chain|
  {
    var e := chain[i];
    if e.SeqNo() != i + 1 then Some(SequenceGap)
    else if e.payload.previous != PreviousHash(chain, i) then Some(PreviousMismatch)
    else if e.hash != Some(d.hash(e.payload)) then Some(HashMismatch)
    else if e.signature == None then None
    else if e.algorithm != Some(ALGORITHM) then Some(UnsupportedAlgorithm)
    else if !secret.Secret? then Some(KeyUnavailable)
    else if e.signature != Some(d.mac(secret.key, e.payload)) then Some(SignatureMismatch)
    else None
  }

  ghost predicate ChainValid(chain: seq<Decision>, d: Digests, secret: Secret) {
    forall i | 0 <= i < |chain| :: Fault(chain, i, d, secret) == None
  }

  ghost predicate Valid(ds: seq<Decision>, d: Digests, secret: Secret) {
    ChainValid(Chain(ds), d, secret)
  }

  datatype Verdict = Verdict(valid: bool, checked: nat, sealed: nat, legacy: seq<string>, reason: Option<Reason>)

  /** `verify_decision_audit_chain` over the planner decisions of a graph, in graph order. */
  method Verify(ds: seq<Decision>, d: Digests, secret: Secret) returns (v: Verdict)
    ensures v.valid <==> Valid(ds, d, secret)
    ensures v.sealed == |SealedOnly(ds)| && v.legacy == LegacyIds(ds)
    ensures v.valid ==> v.checked == v.sealed && v.reason == None
    ensures !v.valid ==>
      && v.checked < |Chain(ds)|
      && v.reason.Some? && Fault(Chain(ds), v.checked, d, secret) == v.reason
      && forall i | 0 <= i < v.checked :: Fault(Chain(ds), i, d, secret) == None
  {
    var legacy := LegacyIds(ds);
    var sealed := SealedOnly(ds);
    SortKeepsMembers(sealed, BySeqNo);
    var chain := Sort(sealed, BySeqNo);
    var expected, previous: Option<string>, checked := 1, None, 0;
    while checked < |chain|
      invariant checked <= |chain| && expected == checked + 1
      invariant previous == PreviousHash(chain, checked)
      invariant forall i | 0 <= i < checked :: Fault(chain, i, d, secret) == None
    {
      var item := chain[checked];
      ghost var fault := Fault(chain, checked, d, secret);
      if item.SeqNo() != expected { return Verdict(false, checked, |sealed|, legacy, Some(SequenceGap)); }
      if item.payload.previous != previous { return Verdict(false, checked, |sealed|, legacy, Some(PreviousMismatch)); }
      if item.hash != Some(d.hash(item.payload)) {
        return Verdict(false, checked, |sealed|, legacy, Some(HashMismatch));
      }
      if item.signature.Some? {
        if item.algorithm != Some(ALGORITHM) {
          return Verdict(false, checked, |sealed|, legacy, Some(UnsupportedAlgorithm));
        }
        if !secret.Secret? { return Verdict(false, checked, |sealed|, legacy, Some(KeyUnavailable)); }
        if item.signature != Some(d.mac(secret.key, item.payload)) {
          return Verdict(false, checked, |sealed|, legacy, Some(SignatureMismatch));
        }
      }
      previous := item.hash;
      expected := expected + 1;
      checked := checked + 1;
    }
    return Verdict(true, checked, |sealed|, legacy, None);
  }

  // ---------------------------------------------------------------- order does not matter

  lemma {:induction false} SealedOnlyCounts(ds: seq<Decision>, x: Decision)
    ensures multiset(SealedOnly(ds))[x] == if x.Sealed() then multiset(ds)[x] else 0
  {
    if ds != [] {
      SealedOnlyCounts(ds[1..], x);
      assert ds == [ds[0]] + ds[1..];
    }
  }

  ghost predicate Increasing(chain: seq<Decision>) {
    forall i, j | 0 <= i < j < |chain| :: chain[i].SeqNo() < chain[j].SeqNo()
  }

  lemma HeadsAgree(a: seq<Decision>, b: seq<Decision>)
    requires a != [] && b != [] && multiset(a) == multiset(b) && Increasing(a) && Ordered(b, BySeqNo)
    ensures a[0] == b[0]
  {
    assert b[0] in multiset(a) && a[0] in multiset(b);
    var i :| 0 <= i < |a| && a[i] == b[0];
    var j :| 0 <= j < |b| && b[j] == a[0];
    assert j == 0 || BySeqNo(b[0], b[j]);
  }

  lemma TailsAgree(a: seq<Decision>, b: seq<Decision>)
    requires a != [] && b != [] && multiset(a) == multiset(b) && a[0] == b[0]
    ensures multiset(a[1..]) == multiset(b[1..])
  {
    assert a == [a[0]] + a[1..] && b == [b[0]] + b[1..];
    assert multiset(a[1..]) == multiset(a) - multiset{a[0]};
    assert multiset(b[1..]) == multiset(b) - multiset{b[0]};
  }

  /** Sorting leaves no choice where the numbers differ. */
  lemma {:induction false} OneIncreasingOrder(a: seq<Decision>, b: seq<Decision>)
    requires multiset(a) == multiset(b) && Increasing(a) && Ordered(b, BySeqNo)
    ensures a == b
    decreases |a|
  {
    assert |a| == |multiset(a)| == |multiset(b)| == |b|;
    if a != [] {
      HeadsAgree(a, b);
      TailsAgree(a, b);
      OneIncreasingOrder(a[1..], b[1..]);
      assert a == [a[0]] + a[1..] && b == [b[0]] + b[1..];
    }
  }

  lemma ChainIs(ds: seq<Decision>, a: seq<Decision>)
    requires Increasing(a) && multiset(a) == multiset(SealedOnly(ds))
    ensures Chain(ds) == a
  {
    SortOrders(SealedOnly(ds), BySeqNo);
    SortPermutes(SealedOnly(ds), BySeqNo);
    OneIncreasingOrder(a, Chain(ds));
  }

  lemma ValidIncreases(chain: seq<Decision>, d: Digests, secret: Secret)
    requires ChainValid(chain, d, secret)
    ensures Increasing(chain)
    ensures forall i | 0 <= i < |chain| :: chain[i].SeqNo() == i + 1
  {
    forall i | 0 <= i < |chain| ensures chain[i].SeqNo() == i + 1 {
      assert Fault(chain, i, d, secret) == None;
    }
  }

  /** The verdict is the same for every order of the observations. */
  lemma OrderIsIrrelevant(a: seq<Decision>, b: seq<Decision>, d: Digests, secret: Secret)
    requires multiset(a) == multiset(b)
    ensures Valid(a, d, secret) <==> Valid(b, d, secret)
    ensures Valid(a, d, secret) ==> Chain(a) == Chain(b)
  {
    if Valid(a, d, secret) { ValidCarriesOver(a, b, d, secret); }
    if Valid(b, d, secret) { ValidCarriesOver(b, a, d, secret); }
  }

  lemma ValidCarriesOver(a: seq<Decision>, b: seq<Decision>, d: Digests, secret: Secret)
    requires multiset(a) == multiset(b) && Valid(a, d, secret)
    ensures Chain(a) == Chain(b)
  {
    ValidIncreases(Chain(a), d, secret);
    SortPermutes(SealedOnly(a), BySeqNo);
    forall x ensures multiset(SealedOnly(a))[x] == multiset(SealedOnly(b))[x] {
      SealedOnlyCounts(a, x);
      SealedOnlyCounts(b, x);
    }
    assert multiset(SealedOnly(a)) == multiset(SealedOnly(b));
    ChainIs(b, Chain(a));
  }

  // ---------------------------------------------------------------- what a valid chain says

  lemma SealedInChain(ds: seq<Decision>, x: Decision, d: Digests, secret: Secret)
    requires Valid(ds, d, secret) && x in ds && x.Sealed()
    ensures 1 <= x.SeqNo() <= |Chain(ds)| == |SealedOnly(ds)| && x == Chain(ds)[x.SeqNo() - 1]
  {
    SealedMembers(ds);
    SortKeepsMembers(SealedOnly(ds), BySeqNo);
    var i :| 0 <= i < |Chain(ds)| && Chain(ds)[i] == x;
    assert Fault(Chain(ds), i, d, secret) == None;
  }

  lemma ChainInGraph(ds: seq<Decision>, i: nat, d: Digests, secret: Secret)
    requires Valid(ds, d, secret) && i < |SealedOnly(ds)|
    ensures |Chain(ds)| == |SealedOnly(ds)|
    ensures Chain(ds)[i] in ds && Chain(ds)[i].Sealed() && Chain(ds)[i].SeqNo() == i + 1
  {
    SealedMembers(ds);
    SortKeepsMembers(SealedOnly(ds), BySeqNo);
    assert Fault(Chain(ds), i, d, secret) == None;
    assert Chain(ds)[i] in Chain(ds);
  }

  /** The sealed numbers of a valid chain are exactly 1..n, each used by one decision. */
  lemma ValidNumbersAreOneToN(ds: seq<Decision>, d: Digests, secret: Secret, k: int)
    requires Valid(ds, d, secret)
    ensures (exists x | x in ds :: x.Sealed() && x.SeqNo() == k) <==> 1 <= k <= |SealedOnly(ds)|
    ensures forall x, y | x in ds && y in ds && x.Sealed() && y.Sealed() && x.SeqNo() == y.SeqNo() :: x == y
  {
    if 1 <= k <= |SealedOnly(ds)| { ChainInGraph(ds, k - 1, d, secret); }
    forall x | x in ds && x.Sealed()
      ensures 1 <= x.SeqNo() <= |SealedOnly(ds)| == |Chain(ds)| && x == Chain(ds)[x.SeqNo() - 1]
    {
      SealedInChain(ds, x, d, secret);
    }
  }

  lemma SealedMembers(ds: seq<Decision>)
    ensures forall x :: x in SealedOnly(ds) <==> x in ds && x.Sealed()
  {
    forall x ensures x in SealedOnly(ds) <==> x in ds && x.Sealed() {
      SealedOnlyCounts(ds, x);
      assert x in SealedOnly(ds) <==> x in multiset(SealedOnly(ds));
      assert x in ds <==> x in multiset(ds);
    }
  }

  /** In a valid chain the next link continues after the last decision. */
  lemma NextLinkOfValid(ds: seq<Decision>, d: Digests, secret: Secret)
    requires Valid(ds, d, secret)
    ensures var n := |Chain(ds)|; NextLink(ds) == (n + 1, PreviousHash(Chain(ds), n))
  {
    var sealed, chain := SealedOnly(ds), Chain(ds);
    ValidIncreases(chain, d, secret);
    SortKeepsMembers(sealed, BySeqNo);
    if sealed != [] {
      var last := chain[|chain| - 1];
      assert last in sealed && Latest(sealed) in chain;
      var i :| 0 <= i < |chain| && chain[i] == Latest(sealed);
      assert i == |chain| - 1;
    }
  }

  /**
   Sealing with the next link extends a valid chain wherever the graph puts the new decision, and
   however many legacy decisions lie around it, exactly when the verifier can confirm the signature.
   */
  lemma SealingExtends(ds: seq<Decision>, all: seq<Decision>, id: string, body: Body, d: Digests,
                       sealing: Secret, verifying: Secret)
    requires Sound(d) && Valid(ds, d, verifying)
    requires var (n, previous) := NextLink(ds);
      multiset(all) == multiset(ds) + multiset{Seal(id, body, n, previous, d, sealing)}
    ensures var (n, previous) := NextLink(ds);
      var e := Seal(id, body, n, previous, d, sealing);
      && Chain(all) == Chain(ds) + [e]
      && (Valid(all, d, verifying) <==> Confirms(e.payload, d, sealing, verifying))
  {
    var (n, previous) := NextLink(ds);
    var e := Seal(id, body, n, previous, d, sealing);
    NextLinkOfValid(ds, d, verifying);
    ExtendedChain(ds, all, e, d, verifying);
    ExtendedFaults(Chain(ds), e, d, verifying);
    assert Fault(Chain(ds) + [e], |Chain(ds)|, d, verifying) == None <==> Confirms(e.payload, d, sealing, verifying);
  }

  lemma ExtendedChain(ds: seq<Decision>, all: seq<Decision>, e: Decision, d: Digests, secret: Secret)
    requires Valid(ds, d, secret) && e.Sealed() && e.SeqNo() == |Chain(ds)| + 1
    requires multiset(all) == multiset(ds) + multiset{e}
    ensures Chain(all) == Chain(ds) + [e]
  {
    var chain := Chain(ds);
    ValidIncreases(chain, d, secret);
    SortPermutes(SealedOnly(ds), BySeqNo);
    forall x ensures multiset(chain + [e])[x] == multiset(SealedOnly(all))[x] {
      SealedOnlyCounts(all, x);
      SealedOnlyCounts(ds, x);
    }
    assert multiset(chain + [e]) == multiset(SealedOnly(all));
    ChainIs(all, chain + [e]);
  }

  lemma ExtendedFaults(chain: seq<Decision>, e: Decision, d: Digests, secret: Secret)
    requires ChainValid(chain, d, secret)
    ensures ChainValid(chain + [e], d, secret) <==> Fault(chain + [e], |chain|, d, secret) == None
  {
    forall i | 0 <= i < |chain| ensures Fault(chain + [e], i, d, secret) == None {
      assert Fault(chain, i, d, secret) == None;
    }
  }

  lemma SharedNumberInvalidates(ds: seq<Decision>, a: Decision, b: Decision, d: Digests, secret: Secret)
    requires a in ds && b in ds && a != b && a.Sealed() && b.Sealed() && a.SeqNo() == b.SeqNo()
    ensures !Valid(ds, d, secret)
  {
    if Valid(ds, d, secret) { ValidNumbersAreOneToN(ds, d, secret, a.SeqNo()); }
  }

  lemma OneMore(ds: seq<Decision>, all: seq<Decision>, e: Decision)
    requires multiset(all) == multiset(ds) + multiset{e}
    ensures forall x :: x in all <==> x in ds || x == e
  {
    forall x ensures x in all <==> x in ds || x == e {
      assert x in all <==> x in multiset(all);
      assert x in ds <==> x in multiset(ds);
    }
  }

  /** A decision numbered beyond the next link leaves a gap, one numbered below 1 has no place. */
  lemma WrongNumberInvalidates(ds: seq<Decision>, all: seq<Decision>, e: Decision, d: Digests, secret: Secret)
    requires Valid(ds, d, secret) && e.Sealed() && multiset(all) == multiset(ds) + multiset{e}
    requires e.SeqNo() < 1 || e.SeqNo() > |Chain(ds)| + 1
    ensures !Valid(all, d, secret)
  {
    OneMore(ds, all, e);
    if Valid(all, d, secret) {
      SealedInChain(all, e, d, secret);
      ValidNumbersAreOneToN(all, d, secret, |Chain(ds)| + 1);
      var x :| x in all && x.Sealed() && x.SeqNo() == |Chain(ds)| + 1;
      SealedInChain(ds, x, d, secret);
    }
  }

  /**
   Whatever link a planner used, adding its decision to a valid chain gives a valid chain exactly when
   that link is the current one and the verifier can confirm the signature. A link read before another
   planner stored its decision is no longer the current one.
   */
  lemma OnlyTheCurrentLinkExtends(ds: seq<Decision>, all: seq<Decision>, id: string, body: Body, n: int,
                                  previous: Option<string>, d: Digests, sealing: Secret, verifying: Secret)
    requires Sound(d) && Valid(ds, d, verifying) && forall x | x in ds :: x.payload.id != id
    requires multiset(all) == multiset(ds) + multiset{Seal(id, body, n, previous, d, sealing)}
    ensures Valid(all, d, verifying) <==>
      (n, previous) == NextLink(ds) && Confirms(Payload(id, body, Some(n), previous), d, sealing, verifying)
  {
    var e, size := Seal(id, body, n, previous, d, sealing), |Chain(ds)|;
    NextLinkOfValid(ds, d, verifying);
    if n == size + 1 {
      ExtendedChain(ds, all, e, d, verifying);
      ExtendedFaults(Chain(ds), e, d, verifying);
    } else if 1 <= n <= size {
      OneMore(ds, all, e);
      SortKeepsMembers(SealedOnly(ds), BySeqNo);
      ChainInGraph(ds, n - 1, d, verifying);
      SharedNumberInvalidates(all, Chain(ds)[n - 1], e, d, verifying);
    } else {
      WrongNumberInvalidates(ds, all, e, d, verifying);
    }
  }

  /** Two planners that both sealed from one link: the graph is invalid, and no later decision repairs it. */
  lemma RacingSealsBreakTheChain(ds: seq<Decision>, all: seq<Decision>, id: string, body: Body, id': string,
                                 body': Body, d: Digests, sealing: Secret, verifying: Secret)
    requires Sound(d) && id != id'
    requires var (n, previous) := NextLink(ds);
      multiset(ds) + multiset{Seal(id, body, n, previous, d, sealing), Seal(id', body', n, previous, d, sealing)}
        <= multiset(all)
    ensures !Valid(all, d, verifying)
  {
    var (n, previous) := NextLink(ds);
    var a, b := Seal(id, body, n, previous, d, sealing), Seal(id', body', n, previous, d, sealing);
    assert a in multiset(all) && b in multiset(all);
    SharedNumberInvalidates(all, a, b, d, verifying);
  }

  // ---------------------------------------------------------------- what the last hash fixes

  lemma ChainLink(chain: seq<Decision>, i: nat, d: Digests, secret: Secret)
    requires ChainValid(chain, d, secret) && i < |chain|
    ensures chain[i].payload.seqNo == Some(i + 1) && chain[i].hash == Some(d.hash(chain[i].payload))
    ensures chain[i].payload.previous == PreviousHash(chain, i)
  {
    assert Fault(chain, i, d, secret) == None;
  }

  lemma {:induction false} SameUpTo(a: seq<Decision>, b: seq<Decision>, i: nat, d: Digests, s: Secret, t: Secret)
    requires CollisionFree(d) && ChainValid(a, d, s) && ChainValid(b, d, t)
    requires i < |a| && i < |b| && a[i].hash == b[i].hash
    ensures forall j | 0 <= j <= i :: a[j].payload == b[j].payload && a[j].hash == b[j].hash
  {
    ChainLink(a, i, d, s);
    ChainLink(b, i, d, t);
    if i > 0 { SameUpTo(a, b, i - 1, d, s, t); }
  }

  /** Two valid graphs with the same last hash hold the same sealed decisions, payload by payload. */
  lemma LastHashPinsDecisions(a: seq<Decision>, b: seq<Decision>, d: Digests, s: Secret, t: Secret)
    requires CollisionFree(d) && Valid(a, d, s) && Valid(b, d, t)
    requires NextLink(a).1 == NextLink(b).1 && NextLink(a).1.Some?
    ensures |Chain(a)| == |Chain(b)|
    ensures forall i | 0 <= i < |Chain(a)| ::
      Chain(a)[i].payload == Chain(b)[i].payload && Chain(a)[i].hash == Chain(b)[i].hash
  {
    NextLinkOfValid(a, d, s);
    NextLinkOfValid(b, d, t);
    var m, n := |Chain(a)| - 1, |Chain(b)| - 1;
    ChainLink(Chain(a), m, d, s);
    ChainLink(Chain(b), n, d, t);
    assert Chain(a)[m].payload == Chain(b)[n].payload;
    SameUpTo(Chain(a), Chain(b), m, d, s, t);
  }
}
