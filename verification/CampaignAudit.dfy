/**
 The hash-chained campaign event log (campaign_audit.py). The digest and the keyed digest (HMAC, section 2
 of RFC 2104) are parameters: the digest is injective and never empty, of the keyed one nothing is assumed.
 */
module CampaignAudit {
  import opened Wrappers
  import opened VersionedLog

  /** The caller's fields of an event. */
  type Body = map<string, string>

  /** What `_canonical_event` serializes: everything but the hash and the signature fields. */
  datatype Payload = Payload(body: Body, seqNo: Option<int>, previous: Option<string>)

  datatype Event = Event(payload: Payload, hash: Option<string>, signature: Option<string>, algorithm: Option<string>)
  {
    predicate Sealed() {
      hash.Some? && hash.value != ""
    }
  }

  datatype Digests = Digests(hash: Payload -> string, mac: (string, Payload) -> string)

  /** The audit key: not configured, misconfigured, or a non-empty secret. */
  datatype Secret = Unset | Invalid | Secret(key: string)

  ghost predicate Sound(d: Digests) {
    && (forall p :: d.hash(p) != "")
    && forall p, q :: d.hash(p) == d.hash(q) ==> p == q
  }

  const ALGORITHM := "hmac-sha256"

  // ---------------------------------------------------------------- sealing

  function LastHash(events: seq<Event>): Option<string> {
    if events == [] then None else events[|events| - 1].hash
  }

  /** `None` is the `RuntimeError` for a misconfigured key. */
  function Seal(body: Body, events: seq<Event>, d: Digests, secret: Secret): Option<Event> {
    var payload := Payload(body, Some(|events| + 1), LastHash(events));
    match secret
    case Invalid => None
    case Unset => Some(Event(payload, Some(d.hash(payload)), None, None))
    case Secret(key) => Some(Event(payload, Some(d.hash(payload)), Some(d.mac(key, payload)), Some(ALGORITHM)))
  }

  class CampaignLog {
    var events: seq<Event>

    constructor (existing: seq<Event>)
      ensures events == existing
    {
      events := existing;
    }

    /** `append_campaign_event`; on an error the log stays as it is. */
    method Append(body: Body, d: Digests, secret: Secret) returns (ok: bool)
      requires Sound(d)
      modifies this
      ensures ok <==> secret != Invalid
      ensures !ok ==> events == old(events)
      ensures ok ==>
        && Seal(body, old(events), d, secret).Some?
        && events == old(events) + [Seal(body, old(events), d, secret).value]
      ensures Valid(old(events), d, secret) ==> Valid(events, d, secret)
      ensures ok && Valid(old(events), d, secret) ==> Checked(events) == Checked(old(events)) + 1
    {
      var e := Seal(body, events, d, secret);
      if e == None { return false; }
      if Valid(events, d, secret) { AppendKeepsValid(events, body, d, secret, secret); }
      events := events + [e.value];
      return true;
    }
  }

  // ---------------------------------------------------------------- verifying

  datatype Reason =
    | SequenceGap
    | PreviousMismatch
    | HashMismatch
    | UnsupportedAlgorithm
    | KeyUnavailable
    | SignatureMismatch

  datatype Verdict = Verdict(valid: bool, checked: nat, legacy: nat, reason: Option<Reason>)

  /** Number of events before the first sealed one. */
  function Legacy(events: seq<Event>): (n: nat)
    ensures n <= |events|
    ensures forall i | 0 <= i < n :: !events[i].Sealed()
    ensures n < |events| ==> events[n].Sealed()
  {
    if events == [] then 0
    else
      var n := Legacy(events[..|events| - 1]);
      if n < |events| - 1 || events[|events| - 1].Sealed() then n else |events|
  }

  /** The first check the event at `i` fails, given what precedes it. */
  function Fault(events: seq<Event>, i: nat, d: Digests, secret: Secret): Option<Reason>
    requires i < |events|
  {
    var e := events[i];
    if e.payload.seqNo != Some(i + 1) then Some(SequenceGap)
    else if e.payload.previous != LastHash(events[..i]) then Some(PreviousMismatch)
    else if e.hash != Some(d.hash(e.payload)) then Some(HashMismatch)
    else if e.signature == None then None
    else if e.algorithm != Some(ALGORITHM) then Some(UnsupportedAlgorithm)
    else if !secret.Secret? then Some(KeyUnavailable)
    else if e.signature != Some(d.mac(secret.key, e.payload)) then Some(SignatureMismatch)
    else None
  }

  ghost predicate Valid(events: seq<Event>, d: Digests, secret: Secret) {
    forall i | Legacy(events) <= i < |events| :: Fault(events, i, d, secret) == None
  }

  function Checked(events: seq<Event>): nat {
    |events| - Legacy(events)
  }

  /** `verify_campaign_event_chain`: stops at the first fault and reports it. */
  method Verify(events: seq<Event>, d: Digests, secret: Secret) returns (v: Verdict)
    ensures v.legacy == Legacy(events)
    ensures v.valid <==> Valid(events, d, secret)
    ensures v.valid ==> v.checked == Checked(events) && v.reason == None
    ensures !v.valid ==>
      && v.legacy + v.checked < |events|
      && v.reason.Some? && Fault(events, v.legacy + v.checked, d, secret) == v.reason
      && forall i | v.legacy <= i < v.legacy + v.checked :: Fault(events, i, d, secret) == None
  {
    var first := 0;
    while first < |events| && !events[first].Sealed()
      invariant 0 <= first <= |events|
      invariant forall i | 0 <= i < first :: !events[i].Sealed()
    {
      first := first + 1;
    }
    assert first == Legacy(events);
    var previous := LastHash(events[..first]);
    var checked, expected := 0, first + 1;
    while first + checked < |events|
      invariant first + checked <= |events| && expected == first + checked + 1
      invariant previous == LastHash(events[..first + checked])
      invariant forall i | first <= i < first + checked :: Fault(events, i, d, secret) == None
      decreases |events| - checked
    {
      var item := events[first + checked];
      ghost var fault := Fault(events, first + checked, d, secret);
      if item.payload.seqNo != Some(expected) { return Verdict(false, checked, first, Some(SequenceGap)); }
      if item.payload.previous != previous { return Verdict(false, checked, first, Some(PreviousMismatch)); }
      var digest := d.hash(item.payload);
      if item.hash != Some(digest) { return Verdict(false, checked, first, Some(HashMismatch)); }
      if item.signature.Some? {
        if item.algorithm != Some(ALGORITHM) { return Verdict(false, checked, first, Some(UnsupportedAlgorithm)); }
        if !secret.Secret? { return Verdict(false, checked, first, Some(KeyUnavailable)); }
        if item.signature != Some(d.mac(secret.key, item.payload)) {
          return Verdict(false, checked, first, Some(SignatureMismatch));
        }
      }
      previous := Some(digest);
      expected := expected + 1;
      checked := checked + 1;
    }
    return Verdict(true, checked, first, None);
  }

  // ---------------------------------------------------------------- what the chain guarantees

  lemma FaultLocal(events: seq<Event>, all: seq<Event>, i: nat, d: Digests, secret: Secret)
    requires i < |events| && events <= all
    ensures Fault(all, i, d, secret) == Fault(events, i, d, secret)
  {
    assert all[..i] == events[..i];
  }

  /**
   Appending to a valid log keeps it valid exactly when the verifier can confirm the new signature:
   the event is unsigned, or the verifier's key signs its payload alike. With one key it always does.
   */
  lemma AppendKeepsValid(events: seq<Event>, body: Body, d: Digests, sealing: Secret, verifying: Secret)
    requires Sound(d) && Valid(events, d, verifying) && sealing != Invalid
    ensures var e := Seal(body, events, d, sealing).value;
      && (Valid(events + [e], d, verifying) <==>
            sealing == Unset || (verifying.Secret? && d.mac(sealing.key, e.payload) == d.mac(verifying.key, e.payload)))
      && (sealing == verifying ==> Valid(events + [e], d, verifying))
      && Checked(events + [e]) == Checked(events) + 1
      && Legacy(events + [e]) == Legacy(events)
  {
    var e := Seal(body, events, d, sealing).value;
    var all, n := events + [e], |events|;
    assert all[..n] == events;
    forall i | Legacy(events) <= i < n ensures Fault(all, i, d, verifying) == None {
      FaultLocal(events, all, i, d, verifying);
    }
    assert Fault(all, n, d, verifying) == None <==>
      sealing == Unset || (verifying.Secret? && d.mac(sealing.key, e.payload) == d.mac(verifying.key, e.payload));
  }

  lemma {:induction false} LegacyOfPrefix(events: seq<Event>, n: nat)
    requires n <= |events|
    ensures Legacy(events[..n]) == if n <= Legacy(events) then n else Legacy(events)
  {
    var m := Legacy(events[..n]);
    assert m < n ==> events[m].Sealed();
    assert Legacy(events) < n ==> events[..n][Legacy(events)].Sealed();
  }

  /** Truncation at the end goes unnoticed: every prefix of a valid log is valid. */
  lemma PrefixesAreValid(events: seq<Event>, n: nat, d: Digests, secret: Secret)
    requires Valid(events, d, secret) && n <= |events|
    ensures Valid(events[..n], d, secret)
    ensures Checked(events[..n]) == if n <= Legacy(events) then 0 else n - Legacy(events)
  {
    LegacyOfPrefix(events, n);
    forall i | Legacy(events[..n]) <= i < n ensures Fault(events[..n], i, d, secret) == None {
      FaultLocal(events[..n], events, i, d, secret);
    }
  }

  lemma LastHashAt(events: seq<Event>, i: nat)
    requires i <= |events|
    ensures LastHash(events[..i]) == if i == 0 then None else events[i - 1].hash
  {
  }

  lemma SealedFromLegacyOn(events: seq<Event>, i: nat, d: Digests, secret: Secret)
    requires Sound(d) && Valid(events, d, secret) && Legacy(events) <= i < |events|
    ensures events[i].Sealed() && events[i].hash == Some(d.hash(events[i].payload))
    ensures events[i].payload.seqNo == Some(i + 1)
    ensures i > 0 ==> events[i].payload.previous == events[i - 1].hash
  {
    assert Fault(events, i, d, secret) == None;
    LastHashAt(events, i);
  }

  ghost predicate SameFrom(a: seq<Event>, b: seq<Event>, k: nat) {
    |a| == |b| && forall i | k <= i < |a| :: a[i].payload == b[i].payload && a[i].hash == b[i].hash
  }

  /** Going back one event from a common hash reaches a common hash again, or the start of the seal in both logs. */
  lemma {:induction false} AgreeBackTo(a: seq<Event>, b: seq<Event>, k: nat, d: Digests, s: Secret, t: Secret)
    requires Sound(d) && Valid(a, d, s) && Valid(b, d, t) && |a| == |b| && k < |a|
    requires Legacy(a) <= k && Legacy(b) <= k && a[|a| - 1].hash == b[|b| - 1].hash
    ensures SameFrom(a, b, k)
    ensures Legacy(a) == k <==> Legacy(b) == k
    decreases |a| - k
  {
    if k < |a| - 1 {
      AgreeBackTo(a, b, k + 1, d, s, t);
      SealedFromLegacyOn(a, k + 1, d, s);
      SealedFromLegacyOn(b, k + 1, d, t);
    }
    SealedFromLegacyOn(a, k, d, s);
    SealedFromLegacyOn(b, k, d, t);
    if k > 0 {
      if Legacy(a) < k { SealedFromLegacyOn(a, k - 1, d, s); }
      if Legacy(b) < k { SealedFromLegacyOn(b, k - 1, d, t); }
    }
  }

  /**
   The last hash pins the sealed history: two valid logs that end in the same sealed hash have the same
   length, the same number of legacy events, and identical payloads and hashes from there on.
   */
  lemma LastHashPinsHistory(a: seq<Event>, b: seq<Event>, d: Digests, s: Secret, t: Secret)
    requires Sound(d) && Valid(a, d, s) && Valid(b, d, t)
    requires a != [] && b != [] && LastHash(a) == LastHash(b) && a[|a| - 1].Sealed()
    ensures Legacy(a) == Legacy(b) && SameFrom(a, b, Legacy(a))
  {
    SealedFromLegacyOn(a, |a| - 1, d, s);
    SealedFromLegacyOn(b, |b| - 1, d, t);
    AgreeBackTo(a, b, if Legacy(a) <= Legacy(b) then Legacy(b) else Legacy(a), d, s, t);
  }

  /** The chain does not cover legacy events: replacing them by others of the same unsealed hashes changes no fault. */
  lemma LegacyIsNotCovered(events: seq<Event>, other: seq<Event>, i: nat, d: Digests, secret: Secret)
    requires |other| == |events| && Legacy(events) <= i < |events|
    requires forall j | 0 <= j < |events| :: other[j].hash == events[j].hash
    requires forall j | Legacy(events) <= j < |events| :: other[j] == events[j]
    ensures Legacy(other) == Legacy(events) && Fault(other, i, d, secret) == Fault(events, i, d, secret)
  {
    LastHashAt(events, i);
    LastHashAt(other, i);
    assert LastHash(other[..i]) == LastHash(events[..i]);
    assert other[i] == events[i];
  }

  // ---------------------------------------------------------------- several writers

  function SealAll(events: seq<Event>, bodies: seq<Body>, d: Digests, secret: Secret): seq<Event>
    requires secret != Invalid
    decreases |bodies|
  {
    if bodies == [] then events
    else SealAll(events + [Seal(bodies[0], events, d, secret).value], bodies[1..], d, secret)
  }

  lemma {:induction false} SealAllKeepsValid(events: seq<Event>, bodies: seq<Body>, d: Digests, secret: Secret)
    requires Sound(d) && Valid(events, d, secret) && secret != Invalid
    ensures Valid(SealAll(events, bodies, d, secret), d, secret) && events <= SealAll(events, bodies, d, secret)
    ensures |SealAll(events, bodies, d, secret)| == |events| + |bodies|
    ensures Legacy(SealAll(events, bodies, d, secret)) == Legacy(events)
    decreases |bodies|
  {
    if bodies != [] {
      AppendKeepsValid(events, bodies[0], d, secret, secret);
      SealAllKeepsValid(events + [Seal(bodies[0], events, d, secret).value], bodies[1..], d, secret);
    }
  }

  /** The stored log and the record each writer holds in memory. */
  datatype Store = Store(log: Record<seq<Event>>, held: seq<Option<Record<seq<Event>>>>)

  datatype Label = Load(writer: nat) | Write(writer: nat, bodies: seq<Body>)

  predicate Enabled(s: Store, l: Label) {
    l.writer < |s.held| && (l.Write? ==> s.held[l.writer].Some?)
  }

  /** A writer seals its events on top of what it read; after a conflict it has to read again. */
  function Step(s: Store, l: Label, d: Digests, secret: Secret): Store
    requires Enabled(s, l) && secret != Invalid
  {
    match l
    case Load(p) => s.(held := s.held[p := Some(s.log)])
    case Write(p, bodies) =>
      var snapshot := s.held[p].value;
      match Save(s.log, snapshot.version, SealAll(snapshot.doc, bodies, d, secret))
      case None => s.(held := s.held[p := None])
      case Some(saved) => Store(saved, s.held[p := Some(saved)])
  }

  ghost predicate Run(s: Store, labels: seq<Label>, s': Store, d: Digests, secret: Secret)
    requires secret != Invalid
    decreases |labels|
  {
    if labels == [] then s' == s
    else Enabled(s, labels[0]) && Run(Step(s, labels[0], d, secret), labels[1..], s', d, secret)
  }

  ghost predicate HoldsPast(s: Store) {
    forall p | 0 <= p < |s.held| :: s.held[p].Some? ==> Past(s.held[p].value, s.log)
  }

  lemma WriteKeepsChain(s: Store, l: Label, d: Digests, secret: Secret)
    requires Sound(d) && secret != Invalid && Enabled(s, l) && HoldsPast(s) && Valid(s.log.doc, d, secret)
    ensures var s' := Step(s, l, d, secret);
      && HoldsPast(s') && Valid(s'.log.doc, d, secret)
      && s.log.doc <= s'.log.doc && Legacy(s'.log.doc) == Legacy(s.log.doc)
  {
    if l.Write? { SealAllKeepsValid(s.log.doc, l.bodies, d, secret); }
  }

  /**
   However many writers seal from snapshots of any age, the stored chain stays valid and only grows: the
   compare-and-set turns away every seal that does not continue the chain.
   */
  lemma {:induction false} RacingWritersKeepTheChain(s: Store, labels: seq<Label>, s': Store, d: Digests,
                                                     secret: Secret)
    requires Sound(d) && secret != Invalid && HoldsPast(s) && Valid(s.log.doc, d, secret)
    requires Run(s, labels, s', d, secret)
    ensures HoldsPast(s') && Valid(s'.log.doc, d, secret)
    ensures s.log.doc <= s'.log.doc && Legacy(s'.log.doc) == Legacy(s.log.doc)
    decreases |labels|
  {
    if labels != [] {
      WriteKeepsChain(s, labels[0], d, secret);
      RacingWritersKeepTheChain(Step(s, labels[0], d, secret), labels[1..], s', d, secret);
    }
  }
}
