/** What the two audit chains write, skip and leave out (campaign_audit.py, decision_audit.py). */
module AuditRecords {
  import opened Wrappers
  import VersionedLog
  import CampaignAudit
  import DecisionAudit

  // ---------------------------------------------------------------- the campaign log

  /** Event `e` is `body` sealed at position `n`, signed exactly when there is a key. */
  predicate SealedAs(e: CampaignAudit.Event, body: CampaignAudit.Body, n: nat, d: CampaignAudit.Digests,
                     secret: CampaignAudit.Secret)
  {
    && e.payload.body == body && e.payload.seqNo == Some(n + 1) && e.hash == Some(d.hash(e.payload))
    && match secret
       case Secret(key) => e.signature == Some(d.mac(key, e.payload)) && e.algorithm == Some("hmac-sha256")
       case _ => e.signature == None && e.algorithm == None
  }

  /** Several events sealed together land behind the log in their order, each numbered by its place. */
  lemma {:induction false} SealedInOrder(events: seq<CampaignAudit.Event>, bodies: seq<CampaignAudit.Body>,
                                         d: CampaignAudit.Digests, secret: CampaignAudit.Secret)
    requires secret != CampaignAudit.Invalid
    ensures var all := CampaignAudit.SealAll(events, bodies, d, secret);
      && |all| == |events| + |bodies| && events <= all
      && forall k | 0 <= k < |bodies| :: SealedAs(all[|events| + k], bodies[k], |events| + k, d, secret)
    decreases |bodies|
  {
    if bodies != [] {
      var e := CampaignAudit.Seal(bodies[0], events, d, secret).value;
      var all := CampaignAudit.SealAll(events, bodies, d, secret);
      SealedInOrder(events + [e], bodies[1..], d, secret);
      assert all[|events|] == (events + [e])[|events|];
      forall k | 0 <= k < |bodies| ensures SealedAs(all[|events| + k], bodies[k], |events| + k, d, secret) {
        if k > 0 { assert bodies[1..][k - 1] == bodies[k]; }
      }
    }
  }

  /** A writer that reads and writes undisturbed appends its events and goes on from what it wrote. */
  lemma UndisturbedWriterAppends(s: CampaignAudit.Store, p: nat, bodies: seq<CampaignAudit.Body>,
                                 d: CampaignAudit.Digests, secret: CampaignAudit.Secret)
    returns (s': CampaignAudit.Store)
    requires secret != CampaignAudit.Invalid && p < |s.held|
    ensures CampaignAudit.Run(s, [CampaignAudit.Load(p), CampaignAudit.Write(p, bodies)], s', d, secret)
    ensures |s'.log.doc| == |s.log.doc| + |bodies| && s.log.doc <= s'.log.doc
    ensures forall k | 0 <= k < |bodies| ::
      SealedAs(s'.log.doc[|s.log.doc| + k], bodies[k], |s.log.doc| + k, d, secret)
    ensures s'.held == s.held[p := Some(s'.log)] && s'.log.version > s.log.version
  {
    var load, write := CampaignAudit.Load(p), CampaignAudit.Write(p, bodies);
    var s1 := CampaignAudit.Step(s, load, d, secret);
    s' := CampaignAudit.Step(s1, write, d, secret);
    SealedInOrder(s.log.doc, bodies, d, secret);
    assert CampaignAudit.Run(s', [], s', d, secret);
    assert [load, write][1..] == [write] && [write][1..] == [];
    assert CampaignAudit.Run(s1, [write], s', d, secret);
  }

  /** An overtaken writer leaves the log alone, and cannot write again before it has read again. */
  lemma OvertakenWriterReadsAgain(s: CampaignAudit.Store, p: nat, bodies: seq<CampaignAudit.Body>,
                                  more: seq<CampaignAudit.Body>, d: CampaignAudit.Digests,
                                  secret: CampaignAudit.Secret)
    requires secret != CampaignAudit.Invalid && CampaignAudit.Enabled(s, CampaignAudit.Write(p, bodies))
    requires s.held[p].value.version != s.log.version
    ensures var s' := CampaignAudit.Step(s, CampaignAudit.Write(p, bodies), d, secret);
      && s' == s.(held := s.held[p := None])
      && !CampaignAudit.Enabled(s', CampaignAudit.Write(p, more))
  {
  }

  predicate HasHash(e: CampaignAudit.Event) {
    e.hash != None && e.hash != Some("")
  }

  /** The chain starts at the first event with a non-empty hash; an empty one counts as none. */
  lemma LegacyEndsAtTheFirstHash(events: seq<CampaignAudit.Event>, n: nat)
    ensures CampaignAudit.Legacy(events) == n <==>
      n <= |events| && (forall i | 0 <= i < n :: !HasHash(events[i])) && (n < |events| ==> HasHash(events[n]))
  {
    var m := CampaignAudit.Legacy(events);
    forall i | 0 <= i < |events| ensures HasHash(events[i]) <==> events[i].Sealed() {}
    if n < m { assert !HasHash(events[n]); }
    if m < n <= |events| { assert HasHash(events[m]); }
  }

  // ---------------------------------------------------------------- the decisions

  predicate HasLink(e: DecisionAudit.Decision) {
    e.payload.seqNo != None && e.hash != None && e.hash != Some("")
  }

  /**
   A decision is either part of the chain or, without a number or a hash, reported by its id; both lists keep the
   order of the graph.
   */
  lemma ListsKeepOrder(x: DecisionAudit.Decision, rest: seq<DecisionAudit.Decision>)
    ensures DecisionAudit.LegacyIds([x] + rest)
      == (if HasLink(x) then [] else [x.payload.id]) + DecisionAudit.LegacyIds(rest)
    ensures DecisionAudit.SealedOnly([x] + rest)
      == (if HasLink(x) then [x] else []) + DecisionAudit.SealedOnly(rest)
  {
    assert ([x] + rest)[1..] == rest;
  }

  lemma {:induction false} NoDecisionIsLost(ds: seq<DecisionAudit.Decision>)
    ensures |DecisionAudit.SealedOnly(ds)| + |DecisionAudit.LegacyIds(ds)| == |ds|
    ensures forall id :: id in DecisionAudit.LegacyIds(ds) <==> exists e :: e in ds && !HasLink(e) && e.payload.id == id
  {
    if ds != [] {
      var rest := ds[1..];
      NoDecisionIsLost(rest);
      ListsKeepOrder(ds[0], rest);
      assert ds == [ds[0]] + rest;
    }
  }

  predicate FirstGreatest(ds: seq<DecisionAudit.Decision>, i: nat) {
    i < |ds| && forall j | 0 <= j < |ds| ::
      if j < i then ds[j].SeqNo() < ds[i].SeqNo() else ds[j].SeqNo() <= ds[i].SeqNo()
  }

  /** Where several decisions share the greatest number, the link continues the first of them in the graph. */
  lemma {:induction false} LatestIsFirst(ds: seq<DecisionAudit.Decision>) returns (i: nat)
    requires ds != []
    ensures FirstGreatest(ds, i) && ds[i] == DecisionAudit.Latest(ds)
  {
    if |ds| == 1 || ds[0] == DecisionAudit.Latest(ds) {
      i := 0;
    } else {
      var k := LatestIsFirst(ds[1..]);
      i := k + 1;
      forall j | 0 <= j < |ds|
        ensures if j < i then ds[j].SeqNo() < ds[i].SeqNo() else ds[j].SeqNo() <= ds[i].SeqNo()
      {
        if j > 0 { assert ds[j] == ds[1..][j - 1]; }
      }
    }
  }
}
