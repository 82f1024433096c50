// Recovery terminates: what every run of sweeper passes does to a tenant's ledger while no worker
// answers (apps/worker/src/stalled-item-sweeper.ts:56-371, apps/worker/src/stalled-items.ts:70-179).
module Recovery {
  import opened Wrappers
  import opened Sequences
  import opened StalledItems
  import opened DedupKeys
  import opened Sweeper

  // ----- a measure over all unfinished work -----

  // How often a unit can still be handled: its remaining retries and the giving up.
  function Chances(used: nat): nat {
    if used >= MAX_RECOVERY_ATTEMPTS then 1 else MAX_RECOVERY_ATTEMPTS + 1 - used
  }

  function ItemWeight(item: Item): nat {
    if InFlight(item.state) then Chances(item.attempts) else 0
  }

  function CheckpointWeight(cp: Option<Checkpoint>, outbox: set<OutboxKey>): nat {
    if cp.Some? && cp.value.page then Chances(Prior(outbox, CheckpointWork(cp.value))) else 0
  }

  function ParentWeight(e: Evidence, id: nat, outbox: set<OutboxKey>): nat {
    if e.status.Pending? && e.kind.Email? then Chances(Prior(outbox, ParseWork(id, e.version))) else 0
  }

  // The rows of the three tables under one numbering.
  function Weight(l: Ledger, k: nat): nat {
    var i, j := k - |l.items|, k - |l.items| - |l.checkpoints|;
    if k < |l.items| then ItemWeight(l.items[k])
    else if i < |l.checkpoints| then CheckpointWeight(l.checkpoints[i], l.outbox)
    else if j < |l.evidence| then ParentWeight(l.evidence[j], j, l.outbox)
    else 0
  }

  function Sum(l: Ledger, n: nat): nat {
    if n == 0 then 0 else Sum(l, n - 1) + Weight(l, n - 1)
  }

  function Size(l: Ledger): nat {
    |l.items| + |l.checkpoints| + |l.evidence|
  }

  function Measure(l: Ledger): nat {
    Sum(l, Size(l))
  }

  lemma {:induction false} SumFalls(l: Ledger, m: Ledger, n: nat, at: nat)
    requires forall k: nat :: k < n ==> Weight(m, k) <= Weight(l, k)
    ensures Sum(m, n) <= Sum(l, n)
    ensures at < n && Weight(m, at) < Weight(l, at) ==> Sum(m, n) < Sum(l, n)
  {
    if n > 0 {
      hide Weight;
      SumFalls(l, m, n - 1, at);
      assert Weight(m, n - 1) <= Weight(l, n - 1);
    }
  }

  lemma {:induction false} SumZero(l: Ledger, n: nat, k: nat)
    requires Sum(l, n) == 0 && k < n
    ensures Weight(l, k) == 0
  {
    hide Weight;
    if k < n - 1 { SumZero(l, n - 1, k); }
  }

  // ----- counting recovery keys -----

  predicate Numbered(work: Work) {
    work.PageWork? || work.ParseWork?
  }

  // Checkpoints and parents have no attempts column: no key of theirs is numbered above the count.
  predicate KeysOk(outbox: set<OutboxKey>) {
    && HashesAreHex(PageJobs(outbox))
    && forall k | k in outbox && k.Recover? && Numbered(k.work) :: k.attempt <= Prior(outbox, k.work)
  }

  lemma PageJobAdded(outbox: set<OutboxKey>, scope: Scope, n: nat)
    ensures PageJobs(outbox + {Recover(PageWork(scope), n)}) == PageJobs(outbox) + {PageJob(scope, Resume(n))}
  {
    assert PageJobOf(Recover(PageWork(scope), n)) == Some(PageJob(scope, Resume(n)));
  }

  lemma JobsSame(outbox: set<OutboxKey>, more: set<OutboxKey>)
    requires forall k | k in more :: PageJobOf(k).None?
    ensures PageJobs(outbox + more) == PageJobs(outbox)
  {
  }

  lemma PriorGrows(outbox: set<OutboxKey>, more: set<OutboxKey>, work: Work)
    requires outbox <= more
    ensures Prior(outbox, work) <= Prior(more, work)
  {
    if work.PageWork? {
      hide Matches, KeyText, PageKey;
      SubsetCount(CountedTexts(PageJobs(outbox), work.scope), CountedTexts(PageJobs(more), work.scope));
    } else {
      SubsetCount(RecoverKeys(outbox, work), RecoverKeys(more, work));
    }
  }

  // Keys of other topics leave the counts alone.
  lemma PriorSame(outbox: set<OutboxKey>, more: set<OutboxKey>, work: Work)
    requires forall k | k in more :: PageJobOf(k).None? && (k.Recover? ==> k.work != work)
    ensures Prior(outbox + more, work) == Prior(outbox, work)
  {
    JobsSame(outbox, more);
    assert RecoverKeys(outbox + more, work) == RecoverKeys(outbox, work);
  }

  lemma NumbersAreFit(outbox: set<OutboxKey>, scope: Scope)
    requires KeysOk(outbox)
    ensures HashesAreHex(PageJobs(outbox)) && NumbersFit(PageJobs(outbox), scope)
  {
    hide CountedTexts;
    forall j | j in PageJobs(outbox) && j.scope == scope && j.mark.Resume?
      ensures j.mark.attempt <= |CountedTexts(PageJobs(outbox), scope)|
    {
      var k :| k in outbox && PageJobOf(k) == Some(j);
      assert k == Recover(PageWork(scope), j.mark.attempt);
    }
  }

  lemma NumberedKeyIsFresh(outbox: set<OutboxKey>, work: Work)
    requires KeysOk(outbox) && Numbered(work)
    ensures var key := Recover(work, Prior(outbox, work) + 1);
            key !in outbox && Prior(outbox + {key}, work) == Prior(outbox, work) + 1 && HashesAreHex(PageJobs(outbox + {key}))
  {
    var key := Recover(work, Prior(outbox, work) + 1);
    if work.PageWork? {
      NumbersAreFit(outbox, work.scope);
      hide CountedTexts, HashesAreHex, NumbersFit;
      NextKeyIsFresh(PageJobs(outbox), work.scope, work.scope);
      PageJobAdded(outbox, work.scope, Prior(outbox, work) + 1);
    } else {
      JobsSame(outbox, {key});
      assert RecoverKeys(outbox + {key}, work) == RecoverKeys(outbox, work) + {key};
    }
  }

  lemma NumberedKeyKeeps(outbox: set<OutboxKey>, work: Work)
    requires KeysOk(outbox) && Numbered(work)
    ensures KeysOk(outbox + {Recover(work, Prior(outbox, work) + 1)})
  {
    var key := Recover(work, Prior(outbox, work) + 1);
    NumberedKeyIsFresh(outbox, work);
    hide Prior, HashesAreHex;
    forall k | k in outbox + {key} && k.Recover? && Numbered(k.work)
      ensures k.attempt <= Prior(outbox + {key}, k.work)
    {
      PriorGrows(outbox, outbox + {key}, k.work);
    }
  }

  lemma OtherKeyKeeps(outbox: set<OutboxKey>, key: OutboxKey)
    requires KeysOk(outbox) && PageJobOf(key).None? && (key.Recover? ==> !Numbered(key.work))
    ensures KeysOk(outbox + {key})
  {
    JobsSame(outbox, {key});
    hide Prior, HashesAreHex;
    forall k | k in outbox + {key} && k.Recover? && Numbered(k.work)
      ensures k.attempt <= Prior(outbox + {key}, k.work)
    {
      PriorGrows(outbox, outbox + {key}, k.work);
    }
  }

  lemma NudgesKeep(outbox: set<OutboxKey>, nudges: set<OutboxKey>)
    requires forall k | k in nudges :: k.Finalize?
    ensures forall work :: Prior(outbox + nudges, work) == Prior(outbox, work)
    ensures forall work :: RecoverKeys(outbox + nudges, work) == RecoverKeys(outbox, work)
    ensures KeysOk(outbox) ==> KeysOk(outbox + nudges)
  {
    JobsSame(outbox, nudges);
    forall work
      ensures Prior(outbox + nudges, work) == Prior(outbox, work)
      ensures RecoverKeys(outbox + nudges, work) == RecoverKeys(outbox, work)
    {
      PriorSame(outbox, nudges, work);
    }
  }

  // ----- the count by text and the recoveries of a unit -----

  lemma {:induction false} AsManyKeys(mine: set<PageJob>, keys: set<OutboxKey>, scope: Scope)
    requires forall j | j in mine :: j.scope == scope && j.mark.Resume?
    requires forall k | k in keys :: k.Recover? && k.work == PageWork(scope)
    requires forall n: nat :: PageJob(scope, Resume(n)) in mine <==> Recover(PageWork(scope), n) in keys
    ensures |mine| == |keys|
  {
    assert forall k | k in keys :: k == Recover(PageWork(scope), k.attempt) && PageJob(scope, Resume(k.attempt)) in mine;
    if j :| j in mine {
      AsManyKeys(mine - {j}, keys - {Recover(PageWork(scope), j.mark.attempt)}, scope);
    }
  }

  // The count the sweeper makes for a page walk is never below the recoveries it has had, and is their
  // number exactly when no stray is in the outbox: strays make it give up early, never late.
  lemma PriorExactly(outbox: set<OutboxKey>, scope: Scope)
    requires HashesAreHex(PageJobs(outbox))
    ensures Prior(outbox, PageWork(scope)) >= |RecoverKeys(outbox, PageWork(scope))|
    ensures Prior(outbox, PageWork(scope)) == |RecoverKeys(outbox, PageWork(scope))| <==>
            forall j | j in PageJobs(outbox) :: !Stray(j, scope)
  {
    var jobs, keys := PageJobs(outbox), RecoverKeys(outbox, PageWork(scope));
    TextCountExactly(jobs, scope);
    hide CountedTexts, Stray;
    var mine := Recoveries(jobs, scope);
    forall n: nat
      ensures PageJob(scope, Resume(n)) in mine <==> Recover(PageWork(scope), n) in keys
    {
      if PageJob(scope, Resume(n)) in mine {
        var k :| k in outbox && PageJobOf(k) == Some(PageJob(scope, Resume(n)));
        assert k == Recover(PageWork(scope), n);
      }
      if Recover(PageWork(scope), n) in keys {
        assert PageJobOf(Recover(PageWork(scope), n)) == Some(PageJob(scope, Resume(n)));
      }
    }
    AsManyKeys(mine, keys, scope);
  }

  lemma RecoveriesCounted(outbox: set<OutboxKey>, work: Work)
    requires KeysOk(outbox)
    ensures |RecoverKeys(outbox, work)| <= Prior(outbox, work)
  {
    if work.PageWork? { PriorExactly(outbox, work.scope); }
  }

  // ----- what a step, and so a run, may do to the ledger -----

  // An exception row about the subject has been added.
  predicate Reported(l: Ledger, m: Ledger, collection: nat, subject: Subject) {
    exists k :: |l.exceptions| <= k < |m.exceptions|
      && m.exceptions[k].collectionId == collection && m.exceptions[k].subject == subject
  }

  predicate Closed(l: Ledger, m: Ledger, i: nat) {
    i < |l.items| == |m.items| && InFlight(l.items[i].state) && m.items[i].state.Failed?
  }

  // Settled items stay as they are. An item in flight keeps its state, or fails together with an
  // exception row; its attempts only rise, and never past the limit.
  predicate ItemProgress(l: Ledger, m: Ledger, i: nat)
    requires i < |l.items| == |m.items|
  {
    var a, b := l.items[i], m.items[i];
    && b.(state := a.state, attempts := a.attempts, updatedAt := a.updatedAt) == a
    && (!InFlight(a.state) ==> b == a)
    && (b.state == a.state || (b.state.Failed? && Reported(l, m, a.collectionId, ItemSubject(a))))
    && a.attempts <= b.attempts && (b.attempts == a.attempts || b.attempts <= MAX_RECOVERY_ATTEMPTS)
  }

  // A checkpoint stays as it is, or is a page checkpoint that goes together with an exception row.
  predicate CheckpointProgress(l: Ledger, m: Ledger, i: nat)
    requires i < |l.checkpoints| == |m.checkpoints|
  {
    var a, b := l.checkpoints[i], m.checkpoints[i];
    b == a ||
    (b.None? && a.Some? && a.value.page
     && Reported(l, m, a.value.collectionId, OfScope(a.value.custodianId, a.value.source, a.value.scopeKey)))
  }

  // Evidence keeps its status, or becomes an exception: an email still to be parsed, together with an
  // exception row, or a container whose item is given up.
  ghost predicate EvidenceProgress(l: Ledger, m: Ledger, e: nat)
    requires e < |l.evidence| == |m.evidence|
  {
    var a, b := l.evidence[e], m.evidence[e];
    && b.(status := a.status, updatedAt := a.updatedAt) == a
    && (b == a || b.status.Exception?)
    && (a.kind.OtherKind? ==> b == a)
    && (a.kind.Email? && b != a ==>
          a.status.Pending? && a.collectionId.Some? && Reported(l, m, a.collectionId.value, OfEvidence(e)))
    && (a.kind.Container? && b != a ==> exists i: nat :: Closed(l, m, i) && l.items[i].evidence == Some(e))
  }

  ghost predicate OutboxProgress(l: Ledger, m: Ledger) {
    && l.outbox <= m.outbox
    && forall w :: Numbered(w) ==>
         |RecoverKeys(m.outbox, w)| == |RecoverKeys(l.outbox, w)| || |RecoverKeys(m.outbox, w)| <= MAX_RECOVERY_ATTEMPTS
  }

  predicate SameShape(l: Ledger, m: Ledger) {
    && l.collections == m.collections && l.failures == m.failures && l.imports == m.imports && l.exceptions <= m.exceptions
    && |l.items| == |m.items| && |l.checkpoints| == |m.checkpoints| && |l.evidence| == |m.evidence|
  }

  ghost predicate Progress(l: Ledger, m: Ledger) {
    && SameShape(l, m)
    && (forall i: nat :: i < |l.items| ==> ItemProgress(l, m, i))
    && (forall i: nat :: i < |l.checkpoints| ==> CheckpointProgress(l, m, i))
    && (forall e: nat :: e < |l.evidence| ==> EvidenceProgress(l, m, e))
    && OutboxProgress(l, m)
  }

  lemma ReportedLater(l: Ledger, m: Ledger, n: Ledger, c: nat, s: Subject)
    requires l.exceptions <= m.exceptions && m.exceptions <= n.exceptions
    requires Reported(l, m, c, s) || Reported(m, n, c, s)
    ensures Reported(l, n, c, s)
  {
    if Reported(l, m, c, s) {
      var k :| |l.exceptions| <= k < |m.exceptions|
        && m.exceptions[k].collectionId == c && m.exceptions[k].subject == s;
      assert n.exceptions[k] == m.exceptions[k];
    }
  }

  lemma ItemsChain(l: Ledger, m: Ledger, n: Ledger, i: nat)
    requires SameShape(l, m) && SameShape(m, n) && i < |l.items| && ItemProgress(l, m, i) && ItemProgress(m, n, i)
    ensures ItemProgress(l, n, i)
  {
    var a, b, c := l.items[i], m.items[i], n.items[i];
    hide Reported;
    assert ItemSubject(a) == ItemSubject(b) && a.collectionId == b.collectionId by {
      assert b.(state := a.state, attempts := a.attempts, updatedAt := a.updatedAt).providerItemId == b.providerItemId;
    }
    if b.state != a.state || c.state != b.state { ReportedLater(l, m, n, a.collectionId, ItemSubject(a)); }
  }

  lemma CheckpointsChain(l: Ledger, m: Ledger, n: Ledger, i: nat)
    requires SameShape(l, m) && SameShape(m, n) && i < |l.checkpoints|
    requires CheckpointProgress(l, m, i) && CheckpointProgress(m, n, i)
    ensures CheckpointProgress(l, n, i)
  {
    var a := l.checkpoints[i];
    hide Reported;
    if n.checkpoints[i] != a {
      ReportedLater(l, m, n, a.value.collectionId, OfScope(a.value.custodianId, a.value.source, a.value.scopeKey));
    }
  }

  lemma ClosedLater(l: Ledger, m: Ledger, n: Ledger, i: nat)
    requires SameShape(l, m) && SameShape(m, n) && (Closed(l, m, i) || Closed(m, n, i))
    requires i < |l.items| && ItemProgress(l, m, i) && ItemProgress(m, n, i)
    ensures Closed(l, n, i) && l.items[i].evidence == m.items[i].evidence
  {
    hide Reported;
    var a, b := l.items[i], m.items[i];
    assert b.(state := a.state, attempts := a.attempts, updatedAt := a.updatedAt).evidence == b.evidence;
  }

  lemma EvidenceChain(l: Ledger, m: Ledger, n: Ledger, e: nat)
    requires Progress(l, m) && Progress(m, n) && e < |l.evidence|
    ensures EvidenceProgress(l, n, e)
  {
    var a, b, c := l.evidence[e], m.evidence[e], n.evidence[e];
    assert EvidenceProgress(l, m, e) && EvidenceProgress(m, n, e);
    hide Reported, OutboxProgress, CheckpointProgress, ItemProgress, Prior;
    assert b.kind == a.kind && b.collectionId == a.collectionId && c.kind == a.kind && c.version == a.version by {
      assert b.(status := a.status, updatedAt := a.updatedAt).kind == b.kind;
      assert b.(status := a.status, updatedAt := a.updatedAt).collectionId == b.collectionId;
      assert b.(status := a.status, updatedAt := a.updatedAt).version == b.version;
      assert c.(status := b.status, updatedAt := b.updatedAt).kind == c.kind;
      assert c.(status := b.status, updatedAt := b.updatedAt).version == c.version;
    }
    assert c.(status := a.status, updatedAt := a.updatedAt) == a by {
      assert c.(status := a.status, updatedAt := a.updatedAt)
          == c.(status := b.status, updatedAt := b.updatedAt).(status := a.status, updatedAt := a.updatedAt);
    }
    if a.kind.Email? && c != a {
      ReportedLater(l, m, n, a.collectionId.value, OfEvidence(e));
    }
    if a.kind.Container? && c != a {
      if b != a {
        var i: nat :| Closed(l, m, i) && l.items[i].evidence == Some(e);
        assert ItemProgress(l, m, i) && ItemProgress(m, n, i);
        ClosedLater(l, m, n, i);
      } else {
        var i: nat :| Closed(m, n, i) && m.items[i].evidence == Some(e);
        assert ItemProgress(l, m, i) && ItemProgress(m, n, i);
        ClosedLater(l, m, n, i);
      }
    }
  }

  lemma ProgressChain(l: Ledger, m: Ledger, n: Ledger)
    requires Progress(l, m) && Progress(m, n)
    ensures Progress(l, n)
  {
    forall i: nat | i < |l.items|
      ensures ItemProgress(l, n, i)
    {
      assert ItemProgress(l, m, i) && ItemProgress(m, n, i);
      ItemsChain(l, m, n, i);
    }
    forall i: nat | i < |l.checkpoints|
      ensures CheckpointProgress(l, n, i)
    {
      assert CheckpointProgress(l, m, i) && CheckpointProgress(m, n, i);
      CheckpointsChain(l, m, n, i);
    }
    forall e: nat | e < |l.evidence|
      ensures EvidenceProgress(l, n, e)
    {
      EvidenceChain(l, m, n, e);
    }
    hide ItemProgress, CheckpointProgress, EvidenceProgress, Prior;
    assert OutboxProgress(l, n);
  }

  lemma ProgressSame(l: Ledger)
    ensures Progress(l, l)
  {
  }

  // ----- each step handles its row: the measure falls, and the rest only makes progress -----

  ghost predicate Handles(l: Ledger, m: Ledger) {
    Measure(m) < Measure(l) && KeysOk(m.outbox) && Progress(l, m)
  }

  lemma WeightsFall(l: Ledger, m: Ledger, at: nat)
    requires SameShape(l, m) && at < Size(l) && Weight(m, at) < Weight(l, at)
    requires forall k: nat :: k < Size(l) ==> Weight(m, k) <= Weight(l, k)
    ensures Measure(m) < Measure(l)
  {
    SumFalls(l, m, Size(l), at);
  }

  // When only the outbox grows, no weight grows.
  lemma OutboxWeights(l: Ledger, m: Ledger, k: nat)
    requires l.outbox <= m.outbox && m.(outbox := l.outbox) == l
    ensures Weight(m, k) <= Weight(l, k)
  {
    var i, j := k - |l.items|, k - |l.items| - |l.checkpoints|;
    assert m.items == m.(outbox := l.outbox).items && m.checkpoints == m.(outbox := l.outbox).checkpoints
        && m.evidence == m.(outbox := l.outbox).evidence;
    if k < |l.items| {
    } else if i < |l.checkpoints| {
      if l.checkpoints[i].Some? { PriorGrows(l.outbox, m.outbox, CheckpointWork(l.checkpoints[i].value)); }
    } else if j < |l.evidence| {
      PriorGrows(l.outbox, m.outbox, ParseWork(j, l.evidence[j].version));
    }
  }

  lemma ItemGiveUpHandles(l: Ledger, i: nat, at: int, reason: Reason, evidence: seq<Evidence>)
    requires i < |l.items| && InFlight(l.items[i].state) && KeysOk(l.outbox)
    requires var item := l.items[i];
             evidence == if KindOf(l, item) == Some(Container)
               then l.evidence[item.evidence.value := l.evidence[item.evidence.value].(status := Exception, updatedAt := at)]
               else l.evidence
    ensures var item := l.items[i];
            Handles(l, l.(items := l.items[i := item.(state := Failed, updatedAt := at)], evidence := evidence,
                          exceptions := l.exceptions + [ExceptionRow(item.collectionId, ItemSubject(item), reason)]))
  {
    var item := l.items[i];
    var m := l.(items := l.items[i := item.(state := Failed, updatedAt := at)], evidence := evidence,
                exceptions := l.exceptions + [ExceptionRow(item.collectionId, ItemSubject(item), reason)]);
    assert m.exceptions[|l.exceptions|] == ExceptionRow(item.collectionId, ItemSubject(item), reason);
    assert Reported(l, m, item.collectionId, ItemSubject(item));
    assert Closed(l, m, i);
    hide Prior, Reported, Numbered;
    forall k: nat | k < Size(l)
      ensures Weight(m, k) <= Weight(l, k)
    {
    }
    WeightsFall(l, m, i);
  }

  lemma ItemRequeueHandles(l: Ledger, i: nat, at: int, work: Work)
    requires i < |l.items| && InFlight(l.items[i].state) && KeysOk(l.outbox)
    requires l.items[i].attempts < MAX_RECOVERY_ATTEMPTS && !Numbered(work)
    ensures var item := l.items[i];
            Handles(l, l.(items := l.items[i := item.(attempts := item.attempts + 1, updatedAt := at)],
                          outbox := l.outbox + {Recover(work, item.attempts + 1)}))
  {
    var item := l.items[i];
    var key := Recover(work, item.attempts + 1);
    var mid := l.(outbox := l.outbox + {key});
    var m := mid.(items := l.items[i := item.(attempts := item.attempts + 1, updatedAt := at)]);
    OtherKeyKeeps(l.outbox, key);
    forall w | Numbered(w)
      ensures RecoverKeys(m.outbox, w) == RecoverKeys(l.outbox, w)
    {
    }
    hide Prior, Reported, Numbered, KeysOk, RecoverKeys;
    assert OutboxProgress(l, m);
    forall k: nat | k < Size(l)
      ensures Weight(m, k) <= Weight(l, k)
    {
      OutboxWeights(l, mid, k);
    }
    WeightsFall(l, m, i);
  }

  lemma ItemStepHandles(p: Pass, now: int, at: int, i: nat)
    requires KeysOk(p.l.outbox) && StalledItem(p.l, now, i)
    ensures Handles(p.l, ItemStep(p, now, at, i).l)
  {
    var l, item := p.l, p.l.items[i];
    var plan := RecoveryPlan(item.state, item.attempts, now - item.updatedAt, item.evidence, KindOf(l, item));
    var m := ItemStep(p, now, at, i).l;
    hide Handles, KeysOk;
    match plan
    case GiveUp(reason) =>
      ItemGiveUpHandles(l, i, at, reason, m.evidence);
    case Requeue(stage) =>
      ItemRequeueHandles(l, i, at, ItemWork(item, stage));
  }

  lemma CheckpointStepHandles(p: Pass, now: int, i: nat)
    requires KeysOk(p.l.outbox) && StalledCheckpoint(p.l, now, i)
    ensures Handles(p.l, CheckpointStep(p, now, i).l)
  {
    var l, cp := p.l, p.l.checkpoints[i].value;
    var work := CheckpointWork(cp);
    var m := CheckpointStep(p, now, i).l;
    if Prior(l.outbox, work) >= MAX_RECOVERY_ATTEMPTS {
      CheckpointGiveUp(l, m, i);
    } else {
      NumberedHandles(l, m, work, |l.items| + i);
    }
  }

  lemma CheckpointGiveUp(l: Ledger, m: Ledger, i: nat)
    requires i < |l.checkpoints| && l.checkpoints[i].Some? && l.checkpoints[i].value.page && KeysOk(l.outbox)
    requires exists reason :: var cp := l.checkpoints[i].value;
             m == l.(checkpoints := l.checkpoints[i := None], exceptions := l.exceptions +
                       [ExceptionRow(cp.collectionId, OfScope(cp.custodianId, cp.source, cp.scopeKey), reason)])
    ensures Handles(l, m)
  {
    var cp := l.checkpoints[i].value;
    assert m.exceptions[|l.exceptions|].collectionId == cp.collectionId;
    assert Reported(l, m, cp.collectionId, OfScope(cp.custodianId, cp.source, cp.scopeKey));
    hide Prior, Reported, Numbered;
    forall k: nat | k < Size(l)
      ensures Weight(m, k) <= Weight(l, k)
    {
    }
    WeightsFall(l, m, |l.items| + i);
  }

  lemma OutboxOnly(l: Ledger, m: Ledger)
    requires m == l.(outbox := m.outbox) && OutboxProgress(l, m)
    ensures Progress(l, m)
  {
    hide OutboxProgress;
  }

  lemma NumberedProgress(l: Ledger, m: Ledger, work: Work)
    requires KeysOk(l.outbox) && Numbered(work) && Prior(l.outbox, work) < MAX_RECOVERY_ATTEMPTS
    requires m == l.(outbox := l.outbox + {Recover(work, Prior(l.outbox, work) + 1)})
    ensures Progress(l, m) && KeysOk(m.outbox) && Prior(m.outbox, work) == Prior(l.outbox, work) + 1
  {
    hide Prior, KeysOk, Numbered, Progress;
    var key := Recover(work, Prior(l.outbox, work) + 1);
    NumberedKeyIsFresh(l.outbox, work);
    NumberedKeyKeeps(l.outbox, work);
    RecoveriesCounted(l.outbox, work);
    assert RecoverKeys(m.outbox, work) == RecoverKeys(l.outbox, work) + {key};
    forall w | w != work
      ensures RecoverKeys(m.outbox, w) == RecoverKeys(l.outbox, w)
    {
    }
    OutboxOnly(l, m);
  }

  // One more numbered key for the row at `row`, which still had chances.
  lemma NumberedHandles(l: Ledger, m: Ledger, work: Work, row: nat)
    requires KeysOk(l.outbox) && Numbered(work) && Prior(l.outbox, work) < MAX_RECOVERY_ATTEMPTS
    requires m == l.(outbox := l.outbox + {Recover(work, Prior(l.outbox, work) + 1)})
    requires row < Size(l) && Weight(l, row) == Chances(Prior(l.outbox, work))
    requires Weight(m, row) == Chances(Prior(m.outbox, work))
    ensures Handles(l, m)
  {
    NumberedProgress(l, m, work);
    hide Prior, Numbered, KeysOk, Weight, RecoverKeys, Progress;
    forall k: nat | k < Size(l)
      ensures Weight(m, k) <= Weight(l, k)
    {
      OutboxWeights(l, m, k);
    }
    WeightsFall(l, m, row);
  }

  lemma ParentGiveUp(l: Ledger, m: Ledger, i: nat, at: int)
    requires i < |l.evidence| && KeysOk(l.outbox)
    requires l.evidence[i].status.Pending? && l.evidence[i].kind.Email? && l.evidence[i].collectionId.Some?
    requires exists reason :: var e := l.evidence[i];
             m == l.(evidence := l.evidence[i := e.(status := Exception, updatedAt := at)], exceptions := l.exceptions +
                       [ExceptionRow(e.collectionId.value, OfEvidence(i), reason)])
    ensures Handles(l, m)
  {
    var e := l.evidence[i];
    assert m.exceptions[|l.exceptions|].collectionId == e.collectionId.value;
    assert Reported(l, m, e.collectionId.value, OfEvidence(i));
    hide Prior, Reported, Numbered;
    forall k: nat | k < Size(l)
      ensures Weight(m, k) <= Weight(l, k)
    {
    }
    WeightsFall(l, m, |l.items| + |l.checkpoints| + i);
  }

  lemma ParentStepHandles(p: Pass, now: int, at: int, chosen: set<nat>, i: nat)
    requires KeysOk(p.l.outbox) && StalledParent(p.l, now, chosen, i)
    ensures Handles(p.l, ParentStep(p, now, at, i).l)
  {
    var l, e := p.l, p.l.evidence[i];
    var work := ParseWork(i, e.version);
    var m := ParentStep(p, now, at, i).l;
    if Prior(l.outbox, work) >= MAX_RECOVERY_ATTEMPTS {
      ParentGiveUp(l, m, i, at);
    } else {
      NumberedHandles(l, m, work, |l.items| + |l.checkpoints| + i);
    }
  }

  // Giving up on an item whose evidence is a container makes the evidence an exception, whatever it was.
  lemma ContainerBecomesException(p: Pass, now: int, at: int, i: nat)
    requires StalledItem(p.l, now, i) && KindOf(p.l, p.l.items[i]) == Some(Container)
    requires ItemStep(p, now, at, i).gaveUp > p.gaveUp
    ensures ItemStep(p, now, at, i).l.evidence[p.l.items[i].evidence.value].status.Exception?
  {
  }

  // ----- what a requeue waits for -----

  // A requeued item is left alone until fifteen minutes after the write. A page checkpoint and an
  // unparsed parent are not: their rows stay as they were, so every later pass may take them up again,
  // and four passes in a row may close them.
  lemma OnlyItemsRest(p: Pass, now: int, at: int, chosen: set<nat>, i: nat, later: int)
    requires later >= now
    ensures StalledItem(p.l, now, i) && ItemStep(p, now, at, i).requeued > p.requeued ==>
              (StalledItem(ItemStep(p, now, at, i).l, later, i) <==> at < later - STALL_AFTER_MS)
    ensures StalledCheckpoint(p.l, now, i) && CheckpointStep(p, now, i).requeued > p.requeued ==>
              StalledCheckpoint(CheckpointStep(p, now, i).l, later, i)
    ensures StalledParent(p.l, now, chosen, i) && ParentStep(p, now, at, i).requeued > p.requeued ==>
              StalledParent(ParentStep(p, now, at, i).l, later, chosen, i)
  {
    hide Prior;
  }

  // ----- one pass -----

  predicate Distinct(ids: seq<nat>) {
    forall j, k :: 0 <= j < k < |ids| ==> ids[j] != ids[k]
  }

  // After handling n rows: the measure is down by at least n, each was requeued or given up, and
  // there is one exception row for each one given up.
  ghost predicate Handled(p: Pass, q: Pass, n: nat) {
    && Measure(q.l) + n <= Measure(p.l) && KeysOk(q.l.outbox) && Progress(p.l, q.l)
    && q.requeued + q.gaveUp == p.requeued + p.gaveUp + n
    && |q.l.exceptions| - |p.l.exceptions| == q.gaveUp - p.gaveUp
  }

  lemma HandledKeys(p: Pass, q: Pass, n: nat)
    requires Handled(p, q, n)
    ensures KeysOk(q.l.outbox)
  {
  }

  lemma HandledChain(p: Pass, q: Pass, r: Pass, m: nat, n: nat)
    requires Handled(p, q, m) && Handled(q, r, n)
    ensures Handled(p, r, m + n)
  {
    hide Measure, Progress, KeysOk;
    ProgressChain(p.l, q.l, r.l);
  }

  predicate EmailsSame(l: Ledger, m: Ledger) {
    && |l.evidence| == |m.evidence|
    && forall e :: 0 <= e < |l.evidence| && l.evidence[e].kind.Email? ==> m.evidence[e] == l.evidence[e]
  }

  lemma ItemStepFrame(p: Pass, now: int, at: int, i: nat)
    requires i < |p.l.items| && StalledItem(p.l, now, i)
    ensures var q := ItemStep(p, now, at, i);
            && (forall j :: 0 <= j < |p.l.items| && j != i ==> q.l.items[j] == p.l.items[j])
            && q.l.collections == p.l.collections && EmailsSame(p.l, q.l)
            && q.requeued + q.gaveUp == p.requeued + p.gaveUp + 1
            && |q.l.exceptions| - |p.l.exceptions| == q.gaveUp - p.gaveUp
  {
  }

  lemma {:induction false} ItemsHandled(p: Pass, now: int, at: int, ids: seq<nat>)
    requires KeysOk(p.l.outbox) && ItemRows(p.l, ids) && Distinct(ids)
    requires forall k :: 0 <= k < |ids| ==> StalledItem(p.l, now, ids[k])
    ensures var q := SweepItems(p, now, at, ids);
            && Handled(p, q, |ids|) && q.l.collections == p.l.collections && EmailsSame(p.l, q.l)
            && forall j :: 0 <= j < |p.l.items| && j !in ids ==> q.l.items[j] == p.l.items[j]
  {
    if ids == [] {
      ProgressSame(p.l);
    } else {
      var n := |ids| - 1;
      var q := SweepItems(p, now, at, ids[..n]);
      ItemsHandled(p, now, at, ids[..n]);
      assert ids[n] !in ids[..n];
      assert StalledItem(q.l, now, ids[n]);
      ItemStepHandles(q, now, at, ids[n]);
      ItemStepFrame(q, now, at, ids[n]);
      var r := ItemStep(q, now, at, ids[n]);
      assert forall j: nat :: j !in ids ==> j !in ids[..n] && j != ids[n];
      hide Measure, KeysOk, Progress, ItemStep, StalledItem;
      assert Handled(q, r, 1);
      HandledChain(p, q, r, n, 1);
    }
  }

  lemma CheckpointStepFrame(p: Pass, now: int, i: nat)
    requires StalledCheckpoint(p.l, now, i)
    ensures var q := CheckpointStep(p, now, i);
            && (forall j :: 0 <= j < |p.l.checkpoints| && j != i ==> q.l.checkpoints[j] == p.l.checkpoints[j])
            && q.l.collections == p.l.collections && q.l.evidence == p.l.evidence
            && q.requeued + q.gaveUp == p.requeued + p.gaveUp + 1
            && |q.l.exceptions| - |p.l.exceptions| == q.gaveUp - p.gaveUp
  {
    hide Prior;
  }

  lemma CheckpointStepHandled(p: Pass, now: int, i: nat)
    requires KeysOk(p.l.outbox) && StalledCheckpoint(p.l, now, i)
    ensures Handled(p, CheckpointStep(p, now, i), 1)
  {
    CheckpointStepHandles(p, now, i);
    CheckpointStepFrame(p, now, i);
    hide Measure, KeysOk, Progress, CheckpointStep, StalledCheckpoint;
  }

  lemma {:induction false} CheckpointsHandled(p: Pass, now: int, ids: seq<nat>)
    requires KeysOk(p.l.outbox) && CheckpointRows(p.l, ids)
    requires forall k :: 0 <= k < |ids| ==> StalledCheckpoint(p.l, now, ids[k])
    ensures var q := SweepCheckpoints(p, now, ids);
            Handled(p, q, |ids|) && q.l.collections == p.l.collections && q.l.evidence == p.l.evidence
  {
    if ids == [] {
      ProgressSame(p.l);
    } else {
      hide KeysOk, Handled, CheckpointStep;
      var n := |ids| - 1;
      var q := SweepCheckpoints(p, now, ids[..n]);
      CheckpointsHandled(p, now, ids[..n]);
      HandledKeys(p, q, n);
      assert ids[n] !in ids[..n];
      assert StalledCheckpoint(q.l, now, ids[n]);
      CheckpointStepHandled(q, now, ids[n]);
      CheckpointStepFrame(q, now, ids[n]);
      HandledChain(p, q, CheckpointStep(q, now, ids[n]), n, 1);
    }
  }

  lemma {:induction false} ParentsHandled(p: Pass, now: int, at: int, chosen: set<nat>, ids: seq<nat>)
    requires KeysOk(p.l.outbox) && ParentRows(p.l, ids) && Distinct(ids)
    requires forall k :: 0 <= k < |ids| ==> StalledParent(p.l, now, chosen, ids[k])
    ensures var q := SweepParents(p, now, at, ids);
            Handled(p, q, |ids|) && forall j :: 0 <= j < |p.l.evidence| && j !in ids ==> q.l.evidence[j] == p.l.evidence[j]
  {
    if ids == [] {
      ProgressSame(p.l);
    } else {
      var n := |ids| - 1;
      var q := SweepParents(p, now, at, ids[..n]);
      ParentsHandled(p, now, at, chosen, ids[..n]);
      assert ids[n] !in ids[..n];
      assert StalledParent(q.l, now, chosen, ids[n]);
      ParentStepHandles(q, now, at, chosen, ids[n]);
      var r := ParentStep(q, now, at, ids[n]);
      assert r.requeued + r.gaveUp == q.requeued + q.gaveUp + 1
          && |r.l.exceptions| - |q.l.exceptions| == r.gaveUp - q.gaveUp;
      assert forall j :: 0 <= j < |q.l.evidence| && j != ids[n] ==> r.l.evidence[j] == q.l.evidence[j];
      assert forall j: nat :: j !in ids ==> j !in ids[..n] && j != ids[n];
      hide Measure, KeysOk, Progress, ParentStep, StalledParent;
      assert Handled(q, r, 1);
      HandledChain(p, q, r, n, 1);
    }
  }

  lemma NudgeHandled(p: Pass, at: int)
    requires KeysOk(p.l.outbox)
    ensures Handled(p, Nudge(p, at), 0)
  {
    var m := Nudge(p, at).l;
    var nudges := set c | c in p.touched :: Finalize(c, at);
    NudgesKeep(p.l.outbox, nudges);
    forall k: nat | k < Size(p.l)
      ensures Weight(m, k) <= Weight(p.l, k)
    {
      OutboxWeights(p.l, m, k);
    }
    hide Weight, Prior, KeysOk;
    SumFalls(p.l, m, Size(p.l), 0);
  }

  // ----- the rows a pass selects -----

  const COLLECTION_LIMIT: nat := 500

  // One pass: its clock, the time of its writes, the rows its queries returned, and the active
  // collections whose parents it looked at.
  datatype Round = Round(now: int, at: int, batch: Batch, chosen: set<nat>)

  // Each query returns distinct matching rows in any order: all of them, or as many as its limit.
  ghost predicate Selected(l: Ledger, batchSize: nat, r: Round) {
    var b := r.batch;
    && Rows(l, b) && Distinct(b.items) && Distinct(b.parents)
    && (forall k :: 0 <= k < |b.items| ==> StalledItem(l, r.now, b.items[k]))
    && (forall k :: 0 <= k < |b.checkpoints| ==> StalledCheckpoint(l, r.now, b.checkpoints[k]))
    && (forall k :: 0 <= k < |b.parents| ==> StalledParent(l, r.now, r.chosen, b.parents[k]))
    && |b.items| <= batchSize && |b.checkpoints| <= batchSize && |b.parents| <= batchSize
    && (|b.items| == batchSize || forall i: nat :: StalledItem(l, r.now, i) ==> i in b.items)
    && (|b.checkpoints| == batchSize || forall i: nat :: StalledCheckpoint(l, r.now, i) ==> i in b.checkpoints)
    && (|b.parents| == batchSize || forall i: nat :: StalledParent(l, r.now, r.chosen, i) ==> i in b.parents)
    && (forall c | c in r.chosen :: Active(l, c))
    && |r.chosen| <= COLLECTION_LIMIT
    && (|r.chosen| == COLLECTION_LIMIT || forall c: nat :: Active(l, c) ==> c in r.chosen)
  }

  function After(l: Ledger, r: Round): Ledger
    requires Rows(l, r.batch)
  {
    Sweep(l, r.now, r.at, r.batch).l
  }

  function Found(r: Round): nat {
    |r.batch.items| + |r.batch.checkpoints| + |r.batch.parents|
  }

  // A pass takes at least one off the measure for every stalled row it finds, whichever rows the
  // batch limits let through.
  lemma PassHandles(l: Ledger, batchSize: nat, r: Round)
    requires KeysOk(l.outbox) && Selected(l, batchSize, r)
    ensures Handled(Start(l), Sweep(l, r.now, r.at, r.batch), Found(r))
  {
    var b := r.batch;
    hide SweepItems, SweepCheckpoints, SweepParents, Handled, KeysOk, Nudge;
    var p := SweepItems(Start(l), r.now, r.at, b.items);
    ItemsHandled(Start(l), r.now, r.at, b.items);
    HandledKeys(Start(l), p, |b.items|);
    forall k | 0 <= k < |b.checkpoints|
      ensures StalledCheckpoint(p.l, r.now, b.checkpoints[k])
    {
      assert StalledCheckpoint(l, r.now, b.checkpoints[k]);
    }
    var q := SweepCheckpoints(p, r.now, b.checkpoints);
    CheckpointsHandled(p, r.now, b.checkpoints);
    HandledKeys(p, q, |b.checkpoints|);
    forall k | 0 <= k < |b.parents|
      ensures StalledParent(q.l, r.now, r.chosen, b.parents[k])
    {
      assert StalledParent(l, r.now, r.chosen, b.parents[k]);
    }
    var s := SweepParents(q, r.now, r.at, b.parents);
    ParentsHandled(q, r.now, r.at, r.chosen, b.parents);
    HandledKeys(q, s, |b.parents|);
    NudgeHandled(s, r.at);
    HandledChain(Start(l), p, q, |b.items|, |b.checkpoints|);
    HandledChain(Start(l), q, s, |b.items| + |b.checkpoints|, |b.parents|);
    HandledChain(Start(l), s, Nudge(s, r.at), Found(r), 0);
  }

  // ----- runs -----

  // An email of a collection whose parse has not run.
  predicate Awaited(e: Evidence) {
    e.status.Pending? && e.kind.Email? && e.collectionId.Some?
  }

  // Nothing left of what finalize waits for.
  predicate Settled(l: Ledger) {
    && (forall i :: 0 <= i < |l.items| && InFlight(l.items[i].state) ==> !Active(l, l.items[i].collectionId))
    && (forall i :: 0 <= i < |l.checkpoints| && l.checkpoints[i].Some? && l.checkpoints[i].value.page ==>
          !Active(l, l.checkpoints[i].value.collectionId))
    && (forall e :: 0 <= e < |l.evidence| && Awaited(l.evidence[e]) ==> !Active(l, l.evidence[e].collectionId.value))
  }

  // Fifteen minutes have passed since the last write, and no active collection was beyond the limit.
  predicate Rested(l: Ledger, r: Round) {
    && (forall i :: 0 <= i < |l.items| ==> l.items[i].updatedAt < r.now - STALL_AFTER_MS)
    && (forall i :: 0 <= i < |l.checkpoints| && l.checkpoints[i].Some? ==>
          l.checkpoints[i].value.updatedAt < r.now - STALL_AFTER_MS)
    && (forall e :: 0 <= e < |l.evidence| ==> l.evidence[e].updatedAt < r.now - STALL_AFTER_MS)
    && (forall c :: 0 <= c < |l.collections| && Active(l, c) ==> c in r.chosen)
  }

  ghost predicate Possible(l: Ledger, batchSize: nat, rounds: seq<Round>)
    decreases |rounds|
  {
    rounds == [] || (Selected(l, batchSize, rounds[0]) && Possible(After(l, rounds[0]), batchSize, rounds[1..]))
  }

  ghost function Run(l: Ledger, batchSize: nat, rounds: seq<Round>): Ledger
    requires Possible(l, batchSize, rounds)
    decreases |rounds|
  {
    if rounds == [] then l else Run(After(l, rounds[0]), batchSize, rounds[1..])
  }

  // The passes of a run that began rested.
  ghost function RestedRounds(l: Ledger, batchSize: nat, rounds: seq<Round>): nat
    requires Possible(l, batchSize, rounds)
    decreases |rounds|
  {
    if rounds == [] then 0
    else (if Rested(l, rounds[0]) then 1 else 0) + RestedRounds(After(l, rounds[0]), batchSize, rounds[1..])
  }

  // The stalled rows found over a run.
  ghost function FoundIn(rounds: seq<Round>): nat {
    if rounds == [] then 0 else Found(rounds[0]) + FoundIn(rounds[1..])
  }

  lemma FoundIsStalled(l: Ledger, batchSize: nat, r: Round)
    requires Selected(l, batchSize, r) && Found(r) > 0
    ensures || (exists i: nat :: StalledItem(l, r.now, i))
            || (exists i: nat :: StalledCheckpoint(l, r.now, i))
            || (exists e: nat :: StalledParent(l, r.now, r.chosen, e))
  {
    var b := r.batch;
    if |b.items| > 0 { assert StalledItem(l, r.now, b.items[0]); }
    else if |b.checkpoints| > 0 { assert StalledCheckpoint(l, r.now, b.checkpoints[0]); }
    else { assert StalledParent(l, r.now, r.chosen, b.parents[0]); }
  }

  lemma SettledIsQuiet(l: Ledger, batchSize: nat, r: Round)
    requires Settled(l) && Selected(l, batchSize, r)
    ensures Found(r) == 0 && After(l, r) == l
  {
    assert forall i: nat :: !StalledItem(l, r.now, i);
    assert forall i: nat :: !StalledCheckpoint(l, r.now, i);
    assert forall e: nat :: !StalledParent(l, r.now, r.chosen, e);
    if Found(r) > 0 { FoundIsStalled(l, batchSize, r); }
    assert l.outbox + (set c | c in Start(l).touched :: Finalize(c, r.at)) == l.outbox;
  }

  lemma RestedFinds(l: Ledger, batchSize: nat, r: Round)
    requires batchSize > 0 && Selected(l, batchSize, r) && Rested(l, r) && Found(r) == 0
    ensures Settled(l)
  {
    forall i | 0 <= i < |l.items| && InFlight(l.items[i].state)
      ensures !Active(l, l.items[i].collectionId)
    {
      assert !StalledItem(l, r.now, i);
    }
    forall i | 0 <= i < |l.checkpoints| && l.checkpoints[i].Some? && l.checkpoints[i].value.page
      ensures !Active(l, l.checkpoints[i].value.collectionId)
    {
      assert !StalledCheckpoint(l, r.now, i);
    }
    forall e | 0 <= e < |l.evidence| && Awaited(l.evidence[e])
      ensures !Active(l, l.evidence[e].collectionId.value)
    {
      assert !StalledParent(l, r.now, r.chosen, e);
    }
  }

  lemma {:induction false} SettledStays(l: Ledger, batchSize: nat, rounds: seq<Round>)
    requires Settled(l) && Possible(l, batchSize, rounds)
    ensures Run(l, batchSize, rounds) == l
    decreases |rounds|
  {
    if rounds != [] {
      SettledIsQuiet(l, batchSize, rounds[0]);
      SettledStays(l, batchSize, rounds[1..]);
    }
  }

  lemma MeasureZeroSettled(l: Ledger)
    requires Measure(l) == 0
    ensures Settled(l)
  {
    forall k: nat | k < Size(l)
      ensures Weight(l, k) == 0
    {
      SumZero(l, Size(l), k);
    }
    forall i | 0 <= i < |l.items|
      ensures !InFlight(l.items[i].state)
    {
      assert Weight(l, i) == 0;
    }
    forall i | 0 <= i < |l.checkpoints| && l.checkpoints[i].Some?
      ensures !l.checkpoints[i].value.page
    {
      assert Weight(l, |l.items| + i) == 0;
    }
    forall e | 0 <= e < |l.evidence|
      ensures !(l.evidence[e].status.Pending? && l.evidence[e].kind.Email?)
    {
      assert Weight(l, |l.items| + |l.checkpoints| + e) == 0;
    }
  }

  // Recovery terminates: once as many passes as the measure of the first ledger have begun rested,
  // nothing finalize waits for is left, in any order and with any batches.
  lemma {:induction false} RecoveryTerminates(l: Ledger, batchSize: nat, rounds: seq<Round>)
    requires batchSize > 0 && KeysOk(l.outbox) && Possible(l, batchSize, rounds)
    requires RestedRounds(l, batchSize, rounds) >= Measure(l)
    ensures Settled(Run(l, batchSize, rounds))
    decreases |rounds|
  {
    if rounds == [] {
      MeasureZeroSettled(l);
    } else {
      var r := rounds[0];
      PassHandles(l, batchSize, r);
      hide Measure, KeysOk, Settled, Rested, Sweep, Selected;
      if Rested(l, r) && Found(r) == 0 {
        RestedFinds(l, batchSize, r);
        SettledStays(l, batchSize, rounds);
      } else {
        RecoveryTerminates(After(l, r), batchSize, rounds[1..]);
      }
    }
  }

  // Over any run at most Measure(l) stalled rows are handled, and the ledger only makes progress:
  // settled items stay, no unit is requeued past the limit, and what closes is reported.
  lemma {:induction false} RunProgress(l: Ledger, batchSize: nat, rounds: seq<Round>)
    requires KeysOk(l.outbox) && Possible(l, batchSize, rounds)
    ensures var m := Run(l, batchSize, rounds);
            FoundIn(rounds) + Measure(m) <= Measure(l) && KeysOk(m.outbox) && Progress(l, m)
    decreases |rounds|
  {
    if rounds == [] {
      ProgressSame(l);
    } else {
      var m := After(l, rounds[0]);
      PassHandles(l, batchSize, rounds[0]);
      hide Measure, KeysOk, Progress, Sweep, Selected, Found;
      RunProgress(m, batchSize, rounds[1..]);
      ProgressChain(l, m, Run(m, batchSize, rounds[1..]));
    }
  }
}
