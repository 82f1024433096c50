// apps/worker/src/stalled-item-sweeper.ts: one tenant's pass over its stalled items, page
// checkpoints and unparsed parents. Rows are addressed by their position in their table.
module Sweeper {
  import opened Wrappers
  import opened StalledItems
  import opened DedupKeys

  datatype Status = Pending | Exception | OtherStatus

  // Forensic imports, which only the terminal-failure handler touches.
  datatype ImportStatus = Uploaded | Analyzing | Completed | ImportFailed

  datatype CollectionStatus = CFetching | CCancelling | CFinalizing | OtherCollection

  datatype Item = Item(
    collectionId: nat, custodianId: nat, source: Source, providerItemId: string,
    state: ItemState, attempts: nat, updatedAt: int, evidence: Option<nat>)

  datatype Evidence = Evidence(collectionId: Option<nat>, kind: Kind, status: Status, updatedAt: int, version: nat)

  datatype Checkpoint = Checkpoint(
    collectionId: nat, custodianId: nat, source: Source, scopeKey: string, page: bool, updatedAt: int)

  // What a job is about: the part of a dedup key before its attempt number (queues.ts:75-109).
  datatype Work =
    | FetchWork(collectionId: nat, custodianId: nat, source: Source, providerItemId: string)
    | ExtractWork(collectionId: nat, evidence: nat)
    | IndexWork(evidence: nat)
    | PageWork(scope: Scope)
    | ParseWork(evidence: nat, version: nat)

  // A page job that is not a recovery.
  type Visit = m: Mark | !m.Resume? witness Begin

  // Outbox rows are unique by topic and dedup key, and are kept forever.
  datatype OutboxKey =
    | Recover(work: Work, attempt: nat)
    | PageVisit(scope: Scope, mark: Visit)
    | Finalize(collectionId: nat, at: int)
    | OtherJob(topic: string, key: string)

  datatype Subject =
    | OfItem(custodianId: nat, source: Source, providerItemId: string)
    | OfScope(custodianId: nat, source: Source, scopeKey: string)
    | OfEvidence(evidence: nat)

  datatype ExceptionRow = ExceptionRow(collectionId: nat, subject: Subject, reason: Reason)

  datatype Ledger = Ledger(
    collections: seq<CollectionStatus>, items: seq<Item>, evidence: seq<Evidence>,
    checkpoints: seq<Option<Checkpoint>>, outbox: set<OutboxKey>, exceptions: seq<ExceptionRow>,
    failures: map<(nat, nat, Source), nat>, imports: seq<ImportStatus>)

  predicate Active(l: Ledger, c: nat) {
    c < |l.collections| && !l.collections[c].OtherCollection?
  }

  function KindOf(l: Ledger, item: Item): Option<Kind> {
    if item.evidence.Some? && item.evidence.value < |l.evidence| then Some(l.evidence[item.evidence.value].kind) else None
  }

  function ItemSubject(item: Item): Subject {
    OfItem(item.custodianId, item.source, item.providerItemId)
  }

  function ItemWork(item: Item, stage: Stage): Work {
    var evidence := if item.evidence.Some? then item.evidence.value else 0;
    match stage
    case Extract => ExtractWork(item.collectionId, evidence)
    case Index => IndexWork(evidence)
    case _ => FetchWork(item.collectionId, item.custodianId, item.source, item.providerItemId)
  }

  function CheckpointWork(cp: Checkpoint): Work {
    PageWork(Scope(cp.collectionId, cp.custodianId, cp.source, cp.scopeKey))
  }

  function RecoverKeys(outbox: set<OutboxKey>, work: Work): set<OutboxKey> {
    set k | k in outbox && k.Recover? && k.work == work
  }

  function PageJobOf(k: OutboxKey): Option<PageJob> {
    match k
    case Recover(PageWork(scope), attempt) => Some(PageJob(scope, Resume(attempt)))
    case PageVisit(scope, mark) => Some(PageJob(scope, mark))
    case _ => None
  }

  // The rows of the page topic.
  function PageJobs(outbox: set<OutboxKey>): set<PageJob> {
    set k | k in outbox && PageJobOf(k).Some? :: PageJobOf(k).value
  }

  // The attempts made so far are counted in the outbox; those of a page walk by key text.
  function Prior(outbox: set<OutboxKey>, work: Work): nat {
    if work.PageWork? then |CountedTexts(PageJobs(outbox), work.scope)| else |RecoverKeys(outbox, work)|
  }

  // ----- the queries of one pass -----

  predicate StalledItem(l: Ledger, now: int, i: nat) {
    && i < |l.items|
    && InFlight(l.items[i].state) && l.items[i].updatedAt < now - STALL_AFTER_MS && Active(l, l.items[i].collectionId)
  }

  predicate StalledCheckpoint(l: Ledger, now: int, i: nat) {
    && i < |l.checkpoints| && l.checkpoints[i].Some?
    && var cp := l.checkpoints[i].value;
       cp.page && cp.updatedAt < now - STALL_AFTER_MS && Active(l, cp.collectionId)
  }

  predicate StalledParent(l: Ledger, now: int, chosen: set<nat>, i: nat) {
    && i < |l.evidence|
    && var e := l.evidence[i];
       && e.collectionId.Some? && e.collectionId.value in chosen
       && e.status.Pending? && e.kind.Email? && e.updatedAt < now - STALL_AFTER_MS
  }

  // ----- the work of one pass, row by row -----

  datatype Pass = Pass(l: Ledger, touched: set<nat>, requeued: nat, gaveUp: nat)

  function ItemStep(p: Pass, now: int, at: int, i: nat): Pass
    requires i < |p.l.items|
  {
    var l, item := p.l, p.l.items[i];
    match RecoveryPlan(item.state, item.attempts, now - item.updatedAt, item.evidence, KindOf(l, item))
    case Wait => p
    case GiveUp(reason) =>
      var evidence :=
        if KindOf(l, item) == Some(Container) then
          var e := item.evidence.value;
          l.evidence[e := l.evidence[e].(status := Exception, updatedAt := at)]
        else l.evidence;
      Pass(
        l.(items := l.items[i := item.(state := Failed, updatedAt := at)], evidence := evidence,
           exceptions := l.exceptions + [ExceptionRow(item.collectionId, ItemSubject(item), reason)]),
        p.touched + {item.collectionId}, p.requeued, p.gaveUp + 1)
    case Requeue(stage) =>
      var attempt := item.attempts + 1;
      Pass(
        l.(items := l.items[i := item.(attempts := attempt, updatedAt := at)],
           outbox := l.outbox + {Recover(ItemWork(item, stage), attempt)}),
        p.touched + {item.collectionId}, p.requeued + 1, p.gaveUp)
  }

  function CheckpointStep(p: Pass, now: int, i: nat): Pass
    requires i < |p.l.checkpoints| && p.l.checkpoints[i].Some?
  {
    var l, cp := p.l, p.l.checkpoints[i].value;
    var prior := Prior(l.outbox, CheckpointWork(cp));
    match PageWalkPlan(now - cp.updatedAt, prior)
    case Wait => p
    case GiveUp(reason) =>
      var row := ExceptionRow(cp.collectionId, OfScope(cp.custodianId, cp.source, cp.scopeKey), reason);
      Pass(
        l.(checkpoints := l.checkpoints[i := None], exceptions := l.exceptions + [row]),
        p.touched + {cp.collectionId}, p.requeued, p.gaveUp + 1)
    case Requeue(_) =>
      Pass(
        l.(outbox := l.outbox + {Recover(CheckpointWork(cp), prior + 1)}),
        p.touched + {cp.collectionId}, p.requeued + 1, p.gaveUp)
  }

  function OptionSet(o: Option<nat>): set<nat> {
    if o.Some? then {o.value} else {}
  }

  function ParentStep(p: Pass, now: int, at: int, i: nat): Pass
    requires i < |p.l.evidence|
  {
    var l, e := p.l, p.l.evidence[i];
    var prior := Prior(l.outbox, ParseWork(i, e.version));
    match UnparsedParentPlan(now - e.updatedAt, prior)
    case Wait => p
    case GiveUp(reason) =>
      var rows := if e.collectionId.Some? then [ExceptionRow(e.collectionId.value, OfEvidence(i), reason)] else [];
      Pass(
        l.(evidence := l.evidence[i := e.(status := Exception, updatedAt := at)], exceptions := l.exceptions + rows),
        p.touched + OptionSet(e.collectionId), p.requeued, p.gaveUp + 1)
    case Requeue(_) =>
      Pass(
        l.(outbox := l.outbox + {Recover(ParseWork(i, e.version), prior + 1)}),
        p.touched + OptionSet(e.collectionId), p.requeued + 1, p.gaveUp)
  }

  predicate ItemRows(l: Ledger, ids: seq<nat>) {
    forall k | 0 <= k < |ids| :: ids[k] < |l.items|
  }

  predicate CheckpointRows(l: Ledger, ids: seq<nat>) {
    && (forall k | 0 <= k < |ids| :: ids[k] < |l.checkpoints| && l.checkpoints[ids[k]].Some?)
    && forall j, k | 0 <= j < k < |ids| :: ids[j] != ids[k]
  }

  predicate ParentRows(l: Ledger, ids: seq<nat>) {
    forall k | 0 <= k < |ids| :: ids[k] < |l.evidence|
  }

  function SweepItems(p: Pass, now: int, at: int, ids: seq<nat>): (q: Pass)
    requires ItemRows(p.l, ids)
    ensures |q.l.items| == |p.l.items| && q.l.checkpoints == p.l.checkpoints && |q.l.evidence| == |p.l.evidence|
  {
    if ids == [] then p
    else ItemStep(SweepItems(p, now, at, ids[..|ids| - 1]), now, at, ids[|ids| - 1])
  }

  function SweepCheckpoints(p: Pass, now: int, ids: seq<nat>): (q: Pass)
    requires CheckpointRows(p.l, ids)
    ensures |q.l.checkpoints| == |p.l.checkpoints| && |q.l.evidence| == |p.l.evidence|
    ensures forall i :: 0 <= i < |p.l.checkpoints| && i !in ids ==> q.l.checkpoints[i] == p.l.checkpoints[i]
  {
    if ids == [] then p
    else
      assert ids[|ids| - 1] !in ids[..|ids| - 1];
      CheckpointStep(SweepCheckpoints(p, now, ids[..|ids| - 1]), now, ids[|ids| - 1])
  }

  function SweepParents(p: Pass, now: int, at: int, ids: seq<nat>): (q: Pass)
    requires ParentRows(p.l, ids)
    ensures |q.l.evidence| == |p.l.evidence|
  {
    if ids == [] then p
    else ParentStep(SweepParents(p, now, at, ids[..|ids| - 1]), now, at, ids[|ids| - 1])
  }

  // A collection whose work was touched is asked again whether it is done.
  function Nudge(p: Pass, at: int): Pass {
    p.(l := p.l.(outbox := p.l.outbox + set c | c in p.touched :: Finalize(c, at)))
  }

  function Start(l: Ledger): Pass {
    Pass(l, {}, 0, 0)
  }

  // The rows the three queries returned, in the order they were returned.
  datatype Batch = Batch(items: seq<nat>, checkpoints: seq<nat>, parents: seq<nat>)

  predicate Rows(l: Ledger, b: Batch) {
    ItemRows(l, b.items) && CheckpointRows(l, b.checkpoints) && ParentRows(l, b.parents)
  }

  function Sweep(l: Ledger, now: int, at: int, b: Batch): Pass
    requires Rows(l, b)
  {
    var p := SweepItems(Start(l), now, at, b.items);
    var q := SweepCheckpoints(p, now, b.checkpoints);
    var r := SweepParents(q, now, at, b.parents);
    Nudge(r, at)
  }

  // ----- the pass as the program performs it -----

  // touchedCollections, localRequeued and localGaveUp
  datatype Tally = Tally(touched: set<nat>, requeued: nat, gaveUp: nat)

  function Counted(l: Ledger, t: Tally): Pass {
    Pass(l, t.touched, t.requeued, t.gaveUp)
  }

  class StalledItemSweeper {
    var collections: seq<CollectionStatus>
    var items: seq<Item>
    var evidence: seq<Evidence>
    var checkpoints: seq<Option<Checkpoint>>
    var outbox: set<OutboxKey>
    var exceptions: seq<ExceptionRow>
    var failures: map<(nat, nat, Source), nat>
    var imports: seq<ImportStatus>

    function State(): Ledger
      reads this
    {
      Ledger(collections, items, evidence, checkpoints, outbox, exceptions, failures, imports)
    }

    constructor (l: Ledger)
      ensures State() == l
    {
      collections, items, evidence, checkpoints := l.collections, l.items, l.evidence, l.checkpoints;
      outbox, exceptions, failures, imports := l.outbox, l.exceptions, l.failures, l.imports;
    }

    method RecoverItem(now: int, at: int, i: nat, p: Tally) returns (q: Tally)
      requires i < |items|
      modifies this
      ensures Counted(State(), q) == ItemStep(Counted(old(State()), p), now, at, i)
    {
      var item := items[i];
      var kind := KindOf(State(), item);
      var plan := RecoveryPlan(item.state, item.attempts, now - item.updatedAt, item.evidence, kind);
      if plan.Wait? { return p; }
      var touched := p.touched + {item.collectionId};
      if plan.GiveUp? {
        items := items[i := item.(state := Failed, updatedAt := at)];
        if kind == Some(Container) {
          var e := item.evidence.value;
          evidence := evidence[e := evidence[e].(status := Exception, updatedAt := at)];
        }
        exceptions := exceptions + [ExceptionRow(item.collectionId, ItemSubject(item), plan.reason)];
        return Tally(touched, p.requeued, p.gaveUp + 1);
      }
      var attempt := item.attempts + 1;
      items := items[i := item.(attempts := attempt, updatedAt := at)];
      outbox := outbox + {Recover(ItemWork(item, plan.stage), attempt)};
      return Tally(touched, p.requeued + 1, p.gaveUp);
    }

    method RecoverCheckpoint(now: int, i: nat, p: Tally) returns (q: Tally)
      requires i < |checkpoints| && checkpoints[i].Some?
      modifies this
      ensures Counted(State(), q) == CheckpointStep(Counted(old(State()), p), now, i)
    {
      var cp := checkpoints[i].value;
      var priorAttempts := Prior(outbox, CheckpointWork(cp));
      var plan := PageWalkPlan(now - cp.updatedAt, priorAttempts);
      if plan.Wait? { return p; }
      var touched := p.touched + {cp.collectionId};
      if plan.GiveUp? {
        exceptions := exceptions + [ExceptionRow(cp.collectionId, OfScope(cp.custodianId, cp.source, cp.scopeKey), plan.reason)];
        checkpoints := checkpoints[i := None];
        return Tally(touched, p.requeued, p.gaveUp + 1);
      }
      outbox := outbox + {Recover(CheckpointWork(cp), priorAttempts + 1)};
      return Tally(touched, p.requeued + 1, p.gaveUp);
    }

    method RecoverParent(now: int, at: int, i: nat, p: Tally) returns (q: Tally)
      requires i < |evidence|
      modifies this
      ensures Counted(State(), q) == ParentStep(Counted(old(State()), p), now, at, i)
    {
      var parent := evidence[i];
      var priorAttempts := Prior(outbox, ParseWork(i, parent.version));
      var plan := UnparsedParentPlan(now - parent.updatedAt, priorAttempts);
      if plan.Wait? { return p; }
      var touched := p.touched + OptionSet(parent.collectionId);
      if plan.GiveUp? {
        evidence := evidence[i := parent.(status := Exception, updatedAt := at)];
        if parent.collectionId.Some? {
          exceptions := exceptions + [ExceptionRow(parent.collectionId.value, OfEvidence(i), plan.reason)];
        } else {
          assert exceptions + [] == exceptions;
        }
        return Tally(touched, p.requeued, p.gaveUp + 1);
      }
      outbox := outbox + {Recover(ParseWork(i, parent.version), priorAttempts + 1)};
      return Tally(touched, p.requeued + 1, p.gaveUp);
    }

    method RecoverItems(now: int, at: int, ids: seq<nat>) returns (tally: Tally)
      requires ItemRows(State(), ids)
      modifies this
      ensures Counted(State(), tally) == SweepItems(Start(old(State())), now, at, ids)
    {
      hide ItemStep;
      tally := Tally({}, 0, 0);
      ghost var start := Start(State());
      assert ids[..0] == [];
      for k := 0 to |ids|
        invariant ItemRows(start.l, ids[..k])
        invariant Counted(State(), tally) == SweepItems(start, now, at, ids[..k])
      {
        assert ids[..k + 1][..k] == ids[..k];
        tally := RecoverItem(now, at, ids[k], tally);
      }
      assert ids[..|ids|] == ids;
    }

    method RecoverCheckpoints(now: int, ids: seq<nat>, before: Tally) returns (tally: Tally)
      requires CheckpointRows(State(), ids)
      modifies this
      ensures Counted(State(), tally) == SweepCheckpoints(Counted(old(State()), before), now, ids)
    {
      hide CheckpointStep;
      tally := before;
      ghost var start := Counted(State(), tally);
      assert ids[..0] == [];
      for k := 0 to |ids|
        invariant CheckpointRows(start.l, ids[..k])
        invariant Counted(State(), tally) == SweepCheckpoints(start, now, ids[..k])
      {
        assert ids[..k + 1][..k] == ids[..k];
        assert ids[k] !in ids[..k];
        tally := RecoverCheckpoint(now, ids[k], tally);
      }
      assert ids[..|ids|] == ids;
    }

    method RecoverParents(now: int, at: int, ids: seq<nat>, before: Tally) returns (tally: Tally)
      requires ParentRows(State(), ids)
      modifies this
      ensures Counted(State(), tally) == SweepParents(Counted(old(State()), before), now, at, ids)
    {
      hide ParentStep;
      tally := before;
      ghost var start := Counted(State(), tally);
      assert ids[..0] == [];
      for k := 0 to |ids|
        invariant ParentRows(start.l, ids[..k])
        invariant Counted(State(), tally) == SweepParents(start, now, at, ids[..k])
      {
        assert ids[..k + 1][..k] == ids[..k];
        tally := RecoverParent(now, at, ids[k], tally);
      }
      assert ids[..|ids|] == ids;
    }

    method SweepTenant(now: int, at: int, b: Batch) returns (requeued: nat, gaveUp: nat)
      requires Rows(State(), b)
      modifies this
      ensures var p := Sweep(old(State()), now, at, b);
              State() == p.l && requeued == p.requeued && gaveUp == p.gaveUp
    {
      hide SweepItems, SweepCheckpoints, SweepParents;
      var tally := RecoverItems(now, at, b.items);
      tally := RecoverCheckpoints(now, b.checkpoints, tally);
      tally := RecoverParents(now, at, b.parents, tally);
      outbox := outbox + set c | c in tally.touched :: Finalize(c, at);
      return tally.requeued, tally.gaveUp;
    }
  }
}
