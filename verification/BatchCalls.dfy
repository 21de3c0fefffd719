/** What a launch, a reconciliation and a cancellation do when nobody interferes, and when somebody does. */
module BatchCalls {
  import opened Wrappers
  import opened VersionedLog
  import opened Batch

  lemma RunNext(w: World, l: Label, rest: seq<Label>, w': World)
    requires Enabled(w, l) && Run(Step(w, l), rest, w')
    ensures Run(w, [l] + rest, w')
  {
    assert ([l] + rest)[1..] == rest;
  }

  /** A batch as it is launched: every campaign ready, nothing tried yet. */
  ghost predicate Fresh(b: Document, mode: Mode, campaigns: seq<string>) {
    && b.mode == mode && b.state == Queued && |b.members| == |campaigns|
    && (forall k | 0 <= k < |campaigns| :: b.members[k] == Member(campaigns[k], Ready, 0, None, None))
    && b.summary == Summary(|campaigns|, 0, 0, 0, 0, 0)
  }

  lemma {:induction false} AllReadyCounts(ms: seq<Member>, s: Status)
    requires forall k | 0 <= k < |ms| :: ms[k].status == Ready
    ensures CountStatus(ms, s) == if s == Ready then |ms| else 0
  {
    if ms != [] { AllReadyCounts(ms[..|ms| - 1], s); }
  }

  lemma NewBatchIsFresh(mode: Mode, campaigns: seq<string>)
    ensures Fresh(NewBatch(mode, campaigns), mode, campaigns)
  {
    var ms := NewBatch(mode, campaigns).members;
    AllReadyCounts(ms, Ready);
    AllReadyCounts(ms, Running);
    AllReadyCounts(ms, Done);
    AllReadyCounts(ms, Review);
    AllReadyCounts(ms, Blocked);
    AllReadyCounts(ms, Cancelled);
  }

  /** With no batch active, a launch adds one fresh batch and gives the lock back. */
  lemma UndisturbedLaunch(w: World, p: nat, mode: Mode, campaigns: seq<string>) returns (w': World)
    requires p < |w.calls| && w.calls[p].Idle? && w.lock == None && campaigns != []
    requires forall i | 0 <= i < |w.batches| ::
      w.batches[i].doc.state == Completed || w.batches[i].doc.state == CancelledBatch
    ensures Run(w, [Acquire(p), Check(p), SaveNew(p, mode, campaigns), Release(p)], w')
    ensures w'.lock == None && w'.calls == w.calls && |w'.batches| == |w.batches| + 1 && w.batches <= w'.batches
    ensures w'.batches[|w.batches|].version == 1 && Fresh(w'.batches[|w.batches|].doc, mode, campaigns)
  {
    var w1 := Step(w, Acquire(p));
    var w2 := Step(w1, Check(p));
    var w3 := Step(w2, SaveNew(p, mode, campaigns));
    w' := Step(w3, Release(p));
    assert Run(w', [], w');
    RunNext(w3, Release(p), [], w');
    RunNext(w2, SaveNew(p, mode, campaigns), [Release(p)], w');
    RunNext(w1, Check(p), [SaveNew(p, mode, campaigns), Release(p)], w');
    RunNext(w, Acquire(p), [Check(p), SaveNew(p, mode, campaigns), Release(p)], w');
    NewBatchIsFresh(mode, campaigns);
  }

  /** With a batch active among the newest two hundred, a launch changes nothing. */
  lemma RefusedLaunch(w: World, p: nat, i: nat) returns (w': World)
    requires p < |w.calls| && w.calls[p].Idle? && w.lock == None
    requires i < |w.batches| && |w.batches| <= i + 200
    requires w.batches[i].doc.state == Queued || w.batches[i].doc.state == InProgress
    ensures Run(w, [Acquire(p), Check(p)], w') && w' == w
  {
    var w1 := Step(w, Acquire(p));
    w' := Step(w1, Check(p));
    assert !Final(w1.batches[i].doc.state) && ActiveAmongNewest(w1.batches);
    assert w'.calls == w.calls;
    assert Run(w', [], w');
    RunNext(w1, Check(p), [], w');
    RunNext(w, Acquire(p), [Check(p)], w');
  }

  /** Older batches are not looked at: with the newest two hundred finished, the launch goes on. */
  lemma OlderBatchesAreNotLookedAt(w: World, p: nat)
    requires p < |w.calls| && w.calls[p].Locked?
    requires forall i | 0 <= i < |w.batches| && |w.batches| <= i + 200 ::
      w.batches[i].doc.state == Completed || w.batches[i].doc.state == CancelledBatch
    ensures Step(w, Check(p)) == w.(calls := w.calls[p := Checked])
  {
  }

  /** Nobody else takes the lock while a launch holds it. */
  lemma LockIsExclusive(w: World, labels: seq<Label>, w': World, p: nat, q: nat)
    requires Initial(w) && Run(w, labels, w') && p < |w'.calls| && q < |w'.calls|
    requires w'.calls[p].Checked? || w'.calls[p].Locked? || w'.calls[p].Holding?
    requires w'.calls[q].Checked? || w'.calls[q].Locked? || w'.calls[q].Holding?
    ensures p == q && w'.lock == Some(p)
  {
    RunKeepsInv(w, labels, w');
    assert CallOk(w', p, w'.calls[p]) && CallOk(w', q, w'.calls[q]);
  }

  /** What a save by `e` makes of the world when the record has not moved. */
  ghost predicate Saved(w: World, i: nat, e: Entry, w': World)
    requires i < |w.batches|
  {
    if Commits(w.batches[i].doc, e) then
      w' == w.(batches := w.batches[i := Record(Next(w.batches[i].doc, e), w.batches[i].version + 1)])
    else w' == w
  }

  /** A reconciliation left alone saves its pass, one version on, if the pass changes anything. */
  lemma UndisturbedPass(w: World, p: nat, i: nat, env: Environment, now: int) returns (w': World)
    requires p < |w.calls| && w.calls[p].Idle? && i < |w.batches|
    ensures Run(w, [Read(p, i), CommitPass(p, env, now)], w') && Saved(w, i, ByPass(env, now), w')
  {
    var w1 := Step(w, Read(p, i));
    w' := Step(w1, CommitPass(p, env, now));
    assert w'.calls == w.calls;
    assert Run(w', [], w');
    RunNext(w1, CommitPass(p, env, now), [], w');
    RunNext(w, Read(p, i), [CommitPass(p, env, now)], w');
  }

  lemma UndisturbedCancel(w: World, p: nat, i: nat, failures: nat -> Option<string>) returns (w': World)
    requires p < |w.calls| && w.calls[p].Idle? && i < |w.batches|
    ensures Run(w, [ReadToCancel(p, i), CommitCancel(p, failures)], w') && Saved(w, i, ByCancel(failures), w')
  {
    var w1 := Step(w, ReadToCancel(p, i));
    w' := Step(w1, CommitCancel(p, failures));
    assert w'.calls == w.calls;
    assert Run(w', [], w');
    RunNext(w1, CommitCancel(p, failures), [], w');
    RunNext(w, ReadToCancel(p, i), [CommitCancel(p, failures)], w');
  }

  /** A save that was overtaken changes nothing but the call, which is over. */
  lemma OvertakenSaveIsDropped(w: World, l: Label)
    requires Enabled(w, l) && (l.CommitPass? || l.CommitCancel?)
    requires w.calls[l.call].snapshot.version != w.batches[w.calls[l.call].batch].version
    ensures Step(w, l) == w.(calls := w.calls[l.call := Idle])
  {
  }

  /** A holder that is done or lost frees the lock; a lost call without it leaves nothing behind. */
  lemma NothingIsLeftBehind(w: World, p: nat)
    requires p < |w.calls|
    ensures w.calls[p].HoldsLock() ==> Step(w, Release(p)) == w.(lock := None, calls := w.calls[p := Idle])
    ensures !w.calls[p].HoldsLock() ==> Step(w, Crash(p)) == w.(calls := w.calls[p := Idle])
  {
  }

  /** A caller begins something new only when it is done, and launches only when nobody does. */
  lemma OneThingAtATime(w: World, p: nat, i: nat)
    requires p < |w.calls| && i < |w.batches|
    ensures Enabled(w, Acquire(p)) <==> w.calls[p] == Idle && w.lock == None
    ensures Enabled(w, Read(p, i)) <==> w.calls[p] == Idle
    ensures Enabled(w, ReadToCancel(p, i)) <==> w.calls[p] == Idle
  {
  }
}
