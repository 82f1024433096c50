// Outbox keys written by the sweeper: when every requeue is a new outbox row, and when one is dropped
// as a duplicate (apps/worker/src/stalled-item-sweeper.ts:143-200, 220-285, 296-350).
module RecoveryKeys {
  import opened Wrappers
  import opened Sequences
  import opened StalledItems
  import opened DedupKeys
  import opened Sweeper
  import opened Recovery

  function Jobs(outbox: set<OutboxKey>): set<OutboxKey> {
    set k | k in outbox && k.Recover?
  }

  lemma JobAdded(outbox: set<OutboxKey>, key: OutboxKey)
    requires key.Recover? && key !in outbox
    ensures |Jobs(outbox + {key})| == |Jobs(outbox)| + 1
  {
    assert Jobs(outbox + {key}) == Jobs(outbox) + {key};
  }

  // ----- the items of a pass -----

  // The key a stalled item is requeued under.
  function RequeueKey(l: Ledger, now: int, i: nat): Option<OutboxKey>
    requires i < |l.items|
  {
    var item := l.items[i];
    match RecoveryPlan(item.state, item.attempts, now - item.updatedAt, item.evidence, KindOf(l, item))
    case Requeue(stage) => Some(Recover(ItemWork(item, stage), item.attempts + 1))
    case _ => None
  }

  function Written(l: Ledger, now: int, ids: seq<nat>): set<OutboxKey>
    requires ItemRows(l, ids)
  {
    set k | 0 <= k < |ids| && RequeueKey(l, now, ids[k]).Some? :: RequeueKey(l, now, ids[k]).value
  }

  function Requeues(l: Ledger, now: int, ids: seq<nat>): nat
    requires ItemRows(l, ids)
  {
    if ids == [] then 0
    else Requeues(l, now, ids[..|ids| - 1]) + if RequeueKey(l, now, ids[|ids| - 1]).Some? then 1 else 0
  }

  // No two rows are requeued under one key, and none under a key already used.
  predicate NoneLost(l: Ledger, now: int, ids: seq<nat>)
    requires ItemRows(l, ids)
  {
    && (forall j, k | 0 <= j < k < |ids| && RequeueKey(l, now, ids[j]).Some? :: RequeueKey(l, now, ids[j]) != RequeueKey(l, now, ids[k]))
    && forall k | 0 <= k < |ids| && RequeueKey(l, now, ids[k]).Some? :: RequeueKey(l, now, ids[k]).value !in l.outbox
  }

  // Two requeues have one key exactly when they are of the same stage and attempt, and about the same
  // provider item or the same evidence row (and collection, for a container).
  lemma SameKeyExactly(l: Ledger, now: int, i: nat, j: nat)
    requires i < |l.items| && j < |l.items| && RequeueKey(l, now, i).Some? && RequeueKey(l, now, j).Some?
    ensures RequeueKey(l, now, i) == RequeueKey(l, now, j) <==>
            var a, b := l.items[i], l.items[j];
            && a.attempts == b.attempts && (a.state.Preserved? <==> b.state.Preserved?)
            && if a.state.Preserved? then a.evidence == b.evidence && (KindOf(l, a) == Some(Container) ==> a.collectionId == b.collectionId)
               else ItemWork(a, Fetch) == ItemWork(b, Fetch)
  {
  }

  lemma OneMore<T>(s: set<T>, t: set<T>, x: T)
    ensures |(s + {x}) - t| == |s - t| + if x in s || x in t then 0 else 1
  {
    if x in s || x in t {
      assert (s + {x}) - t == s - t;
    } else {
      assert (s + {x}) - t == (s - t) + {x};
    }
  }

  lemma {:induction false} WrittenCount(l: Ledger, now: int, ids: seq<nat>)
    requires ItemRows(l, ids)
    ensures |Written(l, now, ids) - l.outbox| <= Requeues(l, now, ids)
    ensures |Written(l, now, ids) - l.outbox| == Requeues(l, now, ids) <==> NoneLost(l, now, ids)
  {
    if ids == [] {
      assert Written(l, now, ids) - l.outbox == {};
    } else {
      hide Written, NoneLost, RequeueKey;
      var n := |ids| - 1;
      var key := RequeueKey(l, now, ids[n]);
      WrittenCount(l, now, ids[..n]);
      WrittenSnoc(l, now, ids);
      NoneLostSnoc(l, now, ids);
      if key.Some? {
        OneMore(Written(l, now, ids[..n]), l.outbox, key.value);
      } else {
        assert Written(l, now, ids) == Written(l, now, ids[..n]);
      }
    }
  }

  lemma WrittenSnoc(l: Ledger, now: int, ids: seq<nat>)
    requires ItemRows(l, ids) && ids != []
    ensures var n := |ids| - 1;
            var key := RequeueKey(l, now, ids[n]);
            Written(l, now, ids) == Written(l, now, ids[..n]) + if key.Some? then {key.value} else {}
  {
    hide RequeueKey;
    var n := |ids| - 1;
    forall k | 0 <= k < n
      ensures ids[..n][k] == ids[k]
    {
    }
  }

  lemma NoneLostSnoc(l: Ledger, now: int, ids: seq<nat>)
    requires ItemRows(l, ids) && ids != []
    ensures var n := |ids| - 1;
            var key := RequeueKey(l, now, ids[n]);
            NoneLost(l, now, ids) <==>
            NoneLost(l, now, ids[..n]) && (key.Some? ==> key.value !in l.outbox && key.value !in Written(l, now, ids[..n]))
  {
    hide RequeueKey;
    var n := |ids| - 1;
    assert forall k :: 0 <= k < n ==> ids[..n][k] == ids[k];
  }

  lemma RowStays(l: Ledger, m: Ledger, now: int, i: nat)
    requires i < |l.items| == |m.items| && m.items[i] == l.items[i] && Progress(l, m)
    ensures RequeueKey(m, now, i) == RequeueKey(l, now, i)
  {
    var item := l.items[i];
    if item.evidence.Some? && item.evidence.value < |l.evidence| {
      var e := item.evidence.value;
      hide RecoveryPlan, ItemWork, OutboxProgress, ItemProgress, CheckpointProgress, Reported, Closed;
      assert EvidenceProgress(l, m, e);
      assert m.evidence[e].(status := l.evidence[e].status, updatedAt := l.evidence[e].updatedAt).kind == m.evidence[e].kind;
      assert KindOf(m, item) == KindOf(l, item);
    }
  }

  lemma StepWrites(p: Pass, now: int, at: int, i: nat)
    requires i < |p.l.items|
    ensures var key := RequeueKey(p.l, now, i);
            var q := ItemStep(p, now, at, i);
            && q.l.outbox == p.l.outbox + (if key.Some? then {key.value} else {})
            && q.requeued == p.requeued + if key.Some? then 1 else 0
  {
  }

  lemma {:induction false} ItemsWrite(p: Pass, now: int, at: int, ids: seq<nat>)
    requires KeysOk(p.l.outbox) && ItemRows(p.l, ids) && Distinct(ids)
    requires forall k :: 0 <= k < |ids| ==> StalledItem(p.l, now, ids[k])
    ensures var q := SweepItems(p, now, at, ids);
            q.l.outbox == p.l.outbox + Written(p.l, now, ids) && q.requeued == p.requeued + Requeues(p.l, now, ids)
  {
    if ids != [] {
      var n := |ids| - 1;
      var q := SweepItems(p, now, at, ids[..n]);
      ItemsWrite(p, now, at, ids[..n]);
      ItemsHandled(p, now, at, ids[..n]);
      assert ids[n] !in ids[..n];
      RowStays(p.l, q.l, now, ids[n]);
      StepWrites(q, now, at, ids[n]);
      WrittenSnoc(p.l, now, ids);
      hide RequeueKey, Written, ItemStep, Handled, KeysOk, StalledItem;
    }
  }

  lemma JobsWritten(l: Ledger, now: int, ids: seq<nat>)
    requires ItemRows(l, ids)
    ensures |Jobs(l.outbox + Written(l, now, ids))| - |Jobs(l.outbox)| == |Written(l, now, ids) - l.outbox|
  {
    var added := Written(l, now, ids) - l.outbox;
    assert forall k :: k in Written(l, now, ids) ==> k.Recover?;
    hide Written;
    assert Jobs(l.outbox + Written(l, now, ids)) == Jobs(l.outbox) + added;
  }

  // ----- its checkpoints and parents -----

  // As many new jobs as requeues, all of them numbered, and the items as before.
  predicate Wrote(p: Pass, q: Pass) {
    && KeysOk(q.l.outbox) && q.l.items == p.l.items
    && |Jobs(q.l.outbox)| - |Jobs(p.l.outbox)| == q.requeued - p.requeued
    && forall k | k in q.l.outbox && k.Recover? :: k in p.l.outbox || Numbered(k.work)
  }

  lemma WroteChain(p: Pass, q: Pass, r: Pass)
    requires Wrote(p, q) && Wrote(q, r)
    ensures Wrote(p, r)
  {
    hide KeysOk, Jobs;
  }

  lemma NumberedWrites(p: Pass, q: Pass, work: Work)
    requires KeysOk(p.l.outbox) && Numbered(work) && q.requeued == p.requeued + 1
    requires q.l == p.l.(outbox := p.l.outbox + {Recover(work, Prior(p.l.outbox, work) + 1)})
    ensures Wrote(p, q)
  {
    hide KeysOk, Prior, Numbered, Jobs;
    NumberedKeyIsFresh(p.l.outbox, work);
    NumberedKeyKeeps(p.l.outbox, work);
    JobAdded(p.l.outbox, Recover(work, Prior(p.l.outbox, work) + 1));
  }

  lemma CheckpointStepWrites(p: Pass, now: int, i: nat)
    requires KeysOk(p.l.outbox) && StalledCheckpoint(p.l, now, i)
    ensures Wrote(p, CheckpointStep(p, now, i))
  {
    var q, work := CheckpointStep(p, now, i), CheckpointWork(p.l.checkpoints[i].value);
    hide Prior, KeysOk;
    if q.requeued != p.requeued { NumberedWrites(p, q, work); }
  }

  lemma ParentStepWrites(p: Pass, now: int, at: int, chosen: set<nat>, i: nat)
    requires KeysOk(p.l.outbox) && StalledParent(p.l, now, chosen, i)
    ensures Wrote(p, ParentStep(p, now, at, i))
  {
    var q, work := ParentStep(p, now, at, i), ParseWork(i, p.l.evidence[i].version);
    hide Prior, KeysOk;
    if q.requeued != p.requeued { NumberedWrites(p, q, work); }
  }

  lemma {:induction false} CheckpointsWrite(p: Pass, now: int, ids: seq<nat>)
    requires KeysOk(p.l.outbox) && CheckpointRows(p.l, ids)
    requires forall k :: 0 <= k < |ids| ==> StalledCheckpoint(p.l, now, ids[k])
    ensures Wrote(p, SweepCheckpoints(p, now, ids))
  {
    if ids != [] {
      hide KeysOk, Handled, CheckpointStep, Wrote;
      var n := |ids| - 1;
      var q := SweepCheckpoints(p, now, ids[..n]);
      CheckpointsWrite(p, now, ids[..n]);
      CheckpointsHandled(p, now, ids[..n]);
      HandledKeys(p, q, n);
      assert ids[n] !in ids[..n];
      assert StalledCheckpoint(q.l, now, ids[n]);
      hide StalledCheckpoint;
      CheckpointStepWrites(q, now, ids[n]);
      WroteChain(p, q, SweepCheckpoints(p, now, ids));
    }
  }

  lemma {:induction false} ParentsWrite(p: Pass, now: int, at: int, chosen: set<nat>, ids: seq<nat>)
    requires KeysOk(p.l.outbox) && ParentRows(p.l, ids) && Distinct(ids)
    requires forall k :: 0 <= k < |ids| ==> StalledParent(p.l, now, chosen, ids[k])
    ensures Wrote(p, SweepParents(p, now, at, ids))
  {
    if ids != [] {
      var n := |ids| - 1;
      var q := SweepParents(p, now, at, ids[..n]);
      ParentsWrite(p, now, at, chosen, ids[..n]);
      ParentsHandled(p, now, at, chosen, ids[..n]);
      assert ids[n] !in ids[..n];
      hide KeysOk, Handled;
      assert StalledParent(q.l, now, chosen, ids[n]);
      hide ParentStep, StalledParent;
      ParentStepWrites(q, now, at, chosen, ids[n]);
      WroteChain(p, q, SweepParents(p, now, at, ids));
    }
  }

  lemma NudgeWrites(p: Pass, at: int)
    requires KeysOk(p.l.outbox)
    ensures Wrote(p, Nudge(p, at))
  {
    var nudges := set c | c in p.touched :: Finalize(c, at);
    NudgesKeep(p.l.outbox, nudges);
    assert Jobs(p.l.outbox + nudges) == Jobs(p.l.outbox);
    hide KeysOk;
  }

  // ----- a pass -----

  // After the items, every requeue is a new outbox row.
  lemma RestWrites(l: Ledger, batchSize: nat, r: Round)
    requires KeysOk(l.outbox) && Selected(l, batchSize, r)
    ensures Wrote(SweepItems(Start(l), r.now, r.at, r.batch.items), Sweep(l, r.now, r.at, r.batch))
  {
    var b := r.batch;
    var p := SweepItems(Start(l), r.now, r.at, b.items);
    ItemsHandled(Start(l), r.now, r.at, b.items);
    hide SweepItems, KeysOk;
    forall k | 0 <= k < |b.checkpoints|
      ensures StalledCheckpoint(p.l, r.now, b.checkpoints[k])
    {
      assert StalledCheckpoint(l, r.now, b.checkpoints[k]);
    }
    var q := SweepCheckpoints(p, r.now, b.checkpoints);
    CheckpointsHandled(p, r.now, b.checkpoints);
    CheckpointsWrite(p, r.now, b.checkpoints);
    forall k | 0 <= k < |b.parents|
      ensures StalledParent(q.l, r.now, r.chosen, b.parents[k])
    {
      assert StalledParent(l, r.now, r.chosen, b.parents[k]);
    }
    var s := SweepParents(q, r.now, r.at, b.parents);
    ParentsWrite(q, r.now, r.at, r.chosen, b.parents);
    hide SweepCheckpoints, SweepParents, Handled, Nudge, StalledCheckpoint, StalledParent;
    NudgeWrites(s, r.at);
    WroteChain(p, q, s);
    WroteChain(p, s, Nudge(s, r.at));
  }

  // A pass never writes more new jobs than it counts requeues, and as many exactly when no two of the
  // items selected are requeued under one key and none under a key already in the outbox.
  lemma PassWritesExactly(l: Ledger, batchSize: nat, r: Round)
    requires KeysOk(l.outbox) && Selected(l, batchSize, r)
    ensures var q := Sweep(l, r.now, r.at, r.batch);
            && |Jobs(q.l.outbox)| - |Jobs(l.outbox)| <= q.requeued
            && (|Jobs(q.l.outbox)| - |Jobs(l.outbox)| == q.requeued <==> NoneLost(l, r.now, r.batch.items))
  {
    ItemsWrite(Start(l), r.now, r.at, r.batch.items);
    RestWrites(l, batchSize, r);
    hide KeysOk, Sweep, SweepItems, NoneLost, Written;
    JobsWritten(l, r.now, r.batch.items);
    WrittenCount(l, r.now, r.batch.items);
  }

  // ----- the ledgers the collectors write -----

  // The works an item's jobs can be about.
  predicate IsWorkOf(item: Item, w: Work) {
    || w == ItemWork(item, Fetch)
    || (item.evidence.Some? && (w == ItemWork(item, Extract) || w == ItemWork(item, Index)))
  }

  // No key of an item in flight is numbered above its attempts.
  predicate ItemKeysOk(l: Ledger) {
    forall i, k | 0 <= i < |l.items| && k in l.outbox && InFlight(l.items[i].state) && k.Recover? && IsWorkOf(l.items[i], k.work) ::
      k.attempt <= l.items[i].attempts
  }

  // Items in flight differ in their provider item, and share no evidence row: a collector creates the
  // evidence row together with the item's step to preserved (collection-fetch-item.ts:327-447,
  // pst-extract.ts:453-520, collection-audit-fetch-page.ts:221-279), or names the item after the
  // uploaded container it claims (collection-discover.ts:484-513).
  predicate OwnWork(l: Ledger) {
    forall i, j | 0 <= i < j < |l.items| && InFlight(l.items[i].state) && InFlight(l.items[j].state) ::
      && ItemWork(l.items[i], Fetch) != ItemWork(l.items[j], Fetch)
      && (l.items[i].evidence.Some? ==> l.items[i].evidence != l.items[j].evidence)
  }

  predicate KeysFit(l: Ledger) {
    KeysOk(l.outbox) && ItemKeysOk(l) && OwnWork(l)
  }

  lemma KeyIsOwn(l: Ledger, now: int, i: nat)
    requires i < |l.items| && RequeueKey(l, now, i).Some?
    ensures var key := RequeueKey(l, now, i).value;
            && key.Recover? && !Numbered(key.work) && IsWorkOf(l.items[i], key.work) && InFlight(l.items[i].state)
            && key.attempt == l.items[i].attempts + 1
  {
  }

  lemma OwnedByOne(l: Ledger, i: nat, j: nat, w: Work)
    requires OwnWork(l) && i < |l.items| && j < |l.items| && i != j
    requires InFlight(l.items[i].state) && InFlight(l.items[j].state) && IsWorkOf(l.items[i], w)
    ensures !IsWorkOf(l.items[j], w)
  {
  }

  // On them no requeue is lost.
  lemma FitLosesNone(l: Ledger, now: int, ids: seq<nat>)
    requires KeysFit(l) && ItemRows(l, ids) && Distinct(ids)
    ensures NoneLost(l, now, ids)
  {
    hide RequeueKey, KeysOk, OwnWork, IsWorkOf;
    forall k | 0 <= k < |ids| && RequeueKey(l, now, ids[k]).Some?
      ensures RequeueKey(l, now, ids[k]).value !in l.outbox
    {
      KeyIsOwn(l, now, ids[k]);
    }
    forall j, k | 0 <= j < k < |ids| && RequeueKey(l, now, ids[j]).Some?
      ensures RequeueKey(l, now, ids[j]) != RequeueKey(l, now, ids[k])
    {
      KeyIsOwn(l, now, ids[j]);
      if RequeueKey(l, now, ids[j]) == RequeueKey(l, now, ids[k]) {
        KeyIsOwn(l, now, ids[k]);
        OwnedByOne(l, ids[j], ids[k], RequeueKey(l, now, ids[j]).value.work);
      }
    }
  }

  lemma StepKeepsFit(p: Pass, now: int, at: int, i: nat)
    requires ItemKeysOk(p.l) && OwnWork(p.l) && StalledItem(p.l, now, i)
    ensures ItemKeysOk(ItemStep(p, now, at, i).l) && OwnWork(ItemStep(p, now, at, i).l)
  {
    var l, m := p.l, ItemStep(p, now, at, i).l;
    StepWrites(p, now, at, i);
    var key := RequeueKey(l, now, i);
    if key.Some? { KeyIsOwn(l, now, i); }
    ItemStepRow(p, now, at, i);
    hide RequeueKey, ItemStep;
    forall j, k | 0 <= j < |m.items| && k in m.outbox && InFlight(m.items[j].state) && k.Recover? && IsWorkOf(m.items[j], k.work)
      ensures k.attempt <= m.items[j].attempts
    {
      assert IsWorkOf(l.items[j], k.work) && InFlight(l.items[j].state);
      if j != i && key == Some(k) { OwnedByOne(l, i, j, k.work); }
    }
  }

  lemma ItemStepRow(p: Pass, now: int, at: int, i: nat)
    requires StalledItem(p.l, now, i)
    ensures var a, b := p.l.items, ItemStep(p, now, at, i).l.items;
            && |b| == |a| && (forall j :: 0 <= j < |a| && j != i ==> b[j] == a[j])
            && b[i].(state := a[i].state, attempts := a[i].attempts, updatedAt := a[i].updatedAt) == a[i]
            && (InFlight(b[i].state) ==> b[i].attempts == a[i].attempts + 1 && RequeueKey(p.l, now, i).Some?)
  {
  }

  lemma {:induction false} ItemsKeepFit(p: Pass, now: int, at: int, ids: seq<nat>)
    requires KeysFit(p.l) && ItemRows(p.l, ids) && Distinct(ids)
    requires forall k :: 0 <= k < |ids| ==> StalledItem(p.l, now, ids[k])
    ensures ItemKeysOk(SweepItems(p, now, at, ids).l) && OwnWork(SweepItems(p, now, at, ids).l)
  {
    if ids != [] {
      var n := |ids| - 1;
      var q := SweepItems(p, now, at, ids[..n]);
      ItemsKeepFit(p, now, at, ids[..n]);
      ItemsHandled(p, now, at, ids[..n]);
      assert ids[n] !in ids[..n];
      hide KeysOk, ItemKeysOk, OwnWork, Handled;
      assert StalledItem(q.l, now, ids[n]);
      hide ItemStep, StalledItem;
      StepKeepsFit(q, now, at, ids[n]);
    }
  }

  // And they stay such ledgers.
  lemma PassKeepsFit(l: Ledger, batchSize: nat, r: Round)
    requires KeysFit(l) && Selected(l, batchSize, r)
    ensures KeysFit(After(l, r))
  {
    var p, q := SweepItems(Start(l), r.now, r.at, r.batch.items), Sweep(l, r.now, r.at, r.batch);
    ItemsKeepFit(Start(l), r.now, r.at, r.batch.items);
    RestWrites(l, batchSize, r);
    hide SweepItems, Sweep, Selected;
    FitStays(p, q);
  }

  lemma FitStays(p: Pass, q: Pass)
    requires ItemKeysOk(p.l) && OwnWork(p.l) && Wrote(p, q)
    ensures KeysFit(q.l)
  {
    hide KeysOk, Jobs;
  }

  // ----- runs -----

  ghost function RequeuedIn(l: Ledger, batchSize: nat, rounds: seq<Round>): nat
    requires Recovery.Possible(l, batchSize, rounds)
    decreases |rounds|
  {
    if rounds == [] then 0
    else
      Sweep(l, rounds[0].now, rounds[0].at, rounds[0].batch).requeued
      + RequeuedIn(After(l, rounds[0]), batchSize, rounds[1..])
  }

  ghost predicate NoneLostIn(l: Ledger, batchSize: nat, rounds: seq<Round>)
    requires Recovery.Possible(l, batchSize, rounds)
    decreases |rounds|
  {
    rounds == [] ||
    (NoneLost(l, rounds[0].now, rounds[0].batch.items) && NoneLostIn(After(l, rounds[0]), batchSize, rounds[1..]))
  }

  // Over a whole run: as many new jobs as requeues exactly when no pass loses one.
  lemma {:induction false} RunWritesExactly(l: Ledger, batchSize: nat, rounds: seq<Round>)
    requires KeysOk(l.outbox) && Recovery.Possible(l, batchSize, rounds)
    ensures var added := |Jobs(Recovery.Run(l, batchSize, rounds).outbox)| - |Jobs(l.outbox)|;
            && added <= RequeuedIn(l, batchSize, rounds)
            && (added == RequeuedIn(l, batchSize, rounds) <==> NoneLostIn(l, batchSize, rounds))
    decreases |rounds|
  {
    if rounds != [] {
      PassWritesExactly(l, batchSize, rounds[0]);
      PassHandles(l, batchSize, rounds[0]);
      HandledKeys(Start(l), Sweep(l, rounds[0].now, rounds[0].at, rounds[0].batch), Found(rounds[0]));
      hide KeysOk, Sweep, Selected, Jobs, NoneLost, Handled;
      RunWritesExactly(After(l, rounds[0]), batchSize, rounds[1..]);
    }
  }

  // From a ledger as the collectors write it, no run loses a requeue.
  lemma {:induction false} RunLosesNone(l: Ledger, batchSize: nat, rounds: seq<Round>)
    requires KeysFit(l) && Recovery.Possible(l, batchSize, rounds)
    ensures NoneLostIn(l, batchSize, rounds)
    decreases |rounds|
  {
    if rounds != [] {
      FitLosesNone(l, rounds[0].now, rounds[0].batch.items);
      PassKeepsFit(l, batchSize, rounds[0]);
      hide KeysFit, Sweep, NoneLost;
      RunLosesNone(After(l, rounds[0]), batchSize, rounds[1..]);
    }
  }
}
