// apps/worker/src/terminal-failure.ts: recording a job failure no processor saw, on the ledger the
// stalled-item sweeper works on.
module TerminalFailure {
  import opened Wrappers
  import opened Text
  import opened StalledItems
  import opened DedupKeys
  import opened Sweeper

  const STALLED_REASON := "job stalled more than allowable limit"

  predicate IsTerminalFailure(reason: string, attemptsMade: int, attempts: int) {
    Includes(reason, STALLED_REASON) || attemptsMade >= attempts
  }

  // A stalled job is terminal whatever its retry budget; any other once its attempts are spent.
  lemma StalledIsTerminal(before: string, after: string, reason: string, made: int, attempts: int)
    ensures IsTerminalFailure(before + STALLED_REASON + after, made, attempts)
    ensures !Includes(reason, STALLED_REASON) ==> (IsTerminalFailure(reason, made, attempts) <==> made >= attempts)
  {
    var s := before + STALLED_REASON + after;
    assert s[|before|..] == STALLED_REASON + after;
    assert (STALLED_REASON + after)[..|STALLED_REASON|] == STALLED_REASON;
    assert BeginsWith(s[|before|..], STALLED_REASON);
  }

  // ----- what a queue's payload lets the handler mark -----

  // A payload field: a row id, a text, or anything else.
  datatype Value = Id(id: nat) | Str(text: string) | OtherValue

  type Payload = map<string, Value>

  datatype Queue = FetchItemQueue | ParseQueue | ExtractQueue | ImportQueue | PstQueue | OtherQueue

  datatype Target =
    | CollectionItem(collectionId: nat, custodianId: nat, source: Source, providerItemId: string)
    | EvidenceItem(evidence: nat)
    | ForensicImport(importId: nat)
    | PstExtract(collectionId: nat, custodianId: nat, evidence: nat)

  function RowId(p: Payload, key: string): Option<nat> {
    if key in p && p[key].Id? then Some(p[key].id) else None
  }

  function NonEmpty(p: Payload, key: string): Option<string> {
    if key in p && p[key].Str? && p[key].text != "" then Some(p[key].text) else None
  }

  // The sources the handler accepts; 'chat' is not among them.
  function SourceOf(text: string): Option<Source> {
    if text == "email" then Some(Mail)
    else if text == "drive" then Some(Drive)
    else if text == "audit" then Some(Audit)
    else None
  }

  function FailureTargetFor(queue: Queue, p: Payload): Option<Target> {
    var tenant, collection, custodian, evidence := RowId(p, "tenantId"), RowId(p, "collectionId"), RowId(p, "custodianId"), RowId(p, "evidenceItemId");
    if tenant.None? then None
    else match queue
      case FetchItemQueue =>
        var source, provider := NonEmpty(p, "source"), NonEmpty(p, "providerItemId");
        if collection.None? || custodian.None? || provider.None? || source.None? || SourceOf(source.value).None? then None
        else Some(CollectionItem(collection.value, custodian.value, SourceOf(source.value).value, provider.value))
      case ParseQueue => if evidence.None? then None else Some(EvidenceItem(evidence.value))
      case ExtractQueue => if evidence.None? then None else Some(EvidenceItem(evidence.value))
      case ImportQueue =>
        var importId := RowId(p, "importId");
        if importId.None? then None else Some(ForensicImport(importId.value))
      case PstQueue =>
        if collection.None? || custodian.None? || evidence.None? then None
        else Some(PstExtract(collection.value, custodian.value, evidence.value))
      case OtherQueue => None
  }

  // The payload the sweeper and the fetch stage write for an item.
  function FetchPayload(tenant: nat, item: Item): Payload {
    map["tenantId" := Id(tenant), "collectionId" := Id(item.collectionId), "custodianId" := Id(item.custodianId),
        "source" := Str(SourceText(item.source)), "providerItemId" := Str(item.providerItemId)]
  }

  // The target of a dead fetch job is the item the job was written for, except that a chat item
  // (or an empty provider id) has none.
  lemma FetchTargetIsTheItem(tenant: nat, item: Item)
    ensures var t := FailureTargetFor(FetchItemQueue, FetchPayload(tenant, item));
            && (t.Some? <==> item.providerItemId != "" && !item.source.Chat?)
            && (t.Some? ==> t.value == CollectionItem(item.collectionId, item.custodianId, item.source, item.providerItemId))
  {
    var p := FetchPayload(tenant, item);
    assert p["tenantId"] == Id(tenant) && p["collectionId"] == Id(item.collectionId) && p["custodianId"] == Id(item.custodianId);
    assert p["source"] == Str(SourceText(item.source)) && p["providerItemId"] == Str(item.providerItemId);
    assert SourceText(Chat)[0] == 'c';
  }

  // ----- recording it -----

  // 'failed', 'skipped' and 'indexed'; 'processed' is not protected.
  predicate Terminal(state: ItemState) {
    state.Failed? || state.Skipped? || state.Indexed?
  }

  // The item an update of the target is about.
  predicate Names(t: Target, item: Item) {
    match t
    case CollectionItem(c, cu, source, provider) =>
      item.collectionId == c && item.custodianId == cu && item.source == source && item.providerItemId == provider
    case PstExtract(c, cu, e) =>
      item.collectionId == c && item.custodianId == cu && item.source.Mail? && item.providerItemId == "pst:" + ShowNat(e)
    case EvidenceItem(e) => item.evidence == Some(e)
    case ForensicImport(_) => false
  }

  predicate Hits(t: Target, item: Item) {
    Names(t, item) && !Terminal(item.state)
  }

  // findFirst
  function FirstHit(t: Target, items: seq<Item>): (i: nat)
    ensures i <= |items| && (i < |items| ==> Hits(t, items[i]))
    ensures forall j :: 0 <= j < i ==> !Hits(t, items[j])
  {
    if items == [] then 0
    else if Hits(t, items[0]) then 0
    else
      assert items == [items[0]] + items[1..];
      1 + FirstHit(t, items[1..])
  }

  function Bucket(item: Item): (nat, nat, Source) {
    (item.collectionId, item.custodianId, item.source)
  }

  // incrementProgress { failures: 1 }; no row, no effect.
  function Bump(failures: map<(nat, nat, Source), nat>, b: (nat, nat, Source)): map<(nat, nat, Source), nat> {
    if b in failures then failures[b := failures[b] + 1] else failures
  }

  function FailItem(l: Ledger, i: nat, at: int): Ledger
    requires i < |l.items|
  {
    var item := l.items[i];
    l.(items := l.items[i := item.(state := Failed, updatedAt := at)],
       exceptions := l.exceptions + [ExceptionRow(item.collectionId, ItemSubject(item), JobDidNotFinish)],
       failures := Bump(l.failures, Bucket(item)))
  }

  function FailHits(t: Target, items: seq<Item>, at: int): (r: seq<Item>)
    ensures |r| == |items|
    ensures forall i :: 0 <= i < |items| ==>
              r[i] == if Hits(t, items[i]) then items[i].(state := Failed, updatedAt := at) else items[i]
  {
    seq(|items|, i requires 0 <= i < |items| =>
      if Hits(t, items[i]) then items[i].(state := Failed, updatedAt := at) else items[i])
  }

  function MarkPending(evidence: seq<Evidence>, e: nat, at: int): (r: seq<Evidence>)
    ensures |r| == |evidence|
  {
    if e < |evidence| && evidence[e].status.Pending? then evidence[e := evidence[e].(status := Exception, updatedAt := at)]
    else evidence
  }

  // updateMany where { id, status: { not: 'completed' } }
  function FailImport(imports: seq<ImportStatus>, i: nat): seq<ImportStatus> {
    if i < |imports| && !imports[i].Completed? then imports[i := ImportFailed] else imports
  }

  function Record(l: Ledger, t: Target, at: int): Ledger {
    match t
    case ForensicImport(i) => l.(imports := FailImport(l.imports, i))
    case EvidenceItem(_) => l.(items := FailHits(t, l.items, at))
    case _ =>
      var i := FirstHit(t, l.items);
      var m := if i < |l.items| then FailItem(l, i, at) else l;
      if t.PstExtract? then m.(evidence := MarkPending(m.evidence, t.evidence, at)) else m
  }

  class Handler {
    var l: Ledger

    constructor (l: Ledger)
      ensures this.l == l
    {
      this.l := l;
    }

    method RecordTerminalFailure(t: Target, at: int)
      modifies this
      ensures l == Record(old(l), t, at)
    {
      if t.ForensicImport? {
        l := l.(imports := FailImport(l.imports, t.importId));
        return;
      }
      if t.EvidenceItem? {
        var items := l.items;
        for k := 0 to |items|
          invariant |items| == |l.items| && l == old(l)
          invariant forall j :: 0 <= j < k ==> items[j] == FailHits(t, l.items, at)[j]
          invariant forall j :: k <= j < |items| ==> items[j] == l.items[j]
        {
          if Hits(t, items[k]) { items := items[k := items[k].(state := Failed, updatedAt := at)]; }
        }
        assert items == FailHits(t, l.items, at);
        l := l.(items := items);
        return;
      }
      var i := FirstHit(t, l.items);
      if i < |l.items| {
        var item := l.items[i];
        l := l.(items := l.items[i := item.(state := Failed, updatedAt := at)]);
        l := l.(exceptions := l.exceptions + [ExceptionRow(item.collectionId, ItemSubject(item), JobDidNotFinish)]);
        l := l.(failures := Bump(l.failures, Bucket(item)));
      }
      if t.PstExtract? {
        l := l.(evidence := MarkPending(l.evidence, t.evidence, at));
      }
    }
  }

  // ----- the handler by itself -----

  // The database key: collection, custodian, source and provider item.
  predicate UniqueItems(l: Ledger) {
    forall i, j :: 0 <= i < j < |l.items| ==> ItemWork(l.items[i], Fetch) != ItemWork(l.items[j], Fetch)
  }

  // Items that are failed, skipped or indexed, or that the target does not name, are untouched; a
  // named one that is not becomes failed.
  lemma RecordTouches(l: Ledger, t: Target, at: int, i: nat)
    requires UniqueItems(l) && i < |l.items|
    ensures var m := Record(l, t, at);
            |m.items| == |l.items| &&
            m.items[i] == if Hits(t, l.items[i]) then l.items[i].(state := Failed, updatedAt := at) else l.items[i]
  {
    if !t.EvidenceItem? && Hits(t, l.items[i]) {
      var j := FirstHit(t, l.items);
      assert ItemWork(l.items[i], Fetch) == ItemWork(l.items[j], Fetch);
    }
  }

  // A processed item is not protected: its failure is recorded all the same.
  lemma ProcessedIsFailed(l: Ledger, t: Target, at: int, i: nat)
    requires UniqueItems(l) && i < |l.items| && Names(t, l.items[i]) && l.items[i].state.Processed?
    ensures Record(l, t, at).items[i].state.Failed?
  {
    RecordTouches(l, t, at, i);
  }

  // A completed import is protected, every other one fails; nothing else changes.
  lemma ImportTouches(l: Ledger, i: nat, at: int)
    ensures var m := Record(l, ForensicImport(i), at);
            && m.(imports := l.imports) == l && |m.imports| == |l.imports|
            && forall j :: 0 <= j < |l.imports| ==>
                 m.imports[j] == if j == i && !l.imports[i].Completed? then ImportFailed else l.imports[j]
  {
  }

  // A second delivery of the same failure changes nothing.
  lemma RecordIdempotent(l: Ledger, t: Target, at: int, later: int)
    requires UniqueItems(l)
    ensures Record(Record(l, t, at), t, later) == Record(l, t, at)
  {
    var m := Record(l, t, at);
    forall i: nat | i < |m.items|
      ensures !Hits(t, m.items[i])
    {
      RecordTouches(l, t, at, i);
    }
    if t.EvidenceItem? {
      assert FailHits(t, m.items, later) == m.items;
    }
  }

  function FailureCount(l: Ledger, b: (nat, nat, Source)): nat {
    if b in l.failures then l.failures[b] else 0
  }

  // For item and container targets the failure counter and the exception rows rise together, by one
  // exactly when a row was hit; an evidence target moves neither, whatever it fails.
  lemma CountersTogether(l: Ledger, t: Target, at: int)
    requires forall i :: 0 <= i < |l.items| ==> Bucket(l.items[i]) in l.failures
    ensures var m := Record(l, t, at);
            var i := FirstHit(t, l.items);
            && (t.EvidenceItem? ==> m.exceptions == l.exceptions && m.failures == l.failures)
            && (!t.EvidenceItem? && i == |l.items| ==> m.exceptions == l.exceptions && m.failures == l.failures)
            && (!t.EvidenceItem? && i < |l.items| ==>
                  var b := Bucket(l.items[i]);
                  && |m.exceptions| == |l.exceptions| + 1
                  && FailureCount(m, b) == FailureCount(l, b) + 1
                  && forall c :: c != b ==> FailureCount(m, c) == FailureCount(l, c))
  {
  }

  // An item whose parse died is failed with nothing a reviewer could see.
  lemma EvidenceFailureIsSilent(l: Ledger, i: nat, at: int)
    requires i < |l.items| && l.items[i].evidence.Some? && !Terminal(l.items[i].state)
    ensures var m := Record(l, EvidenceItem(l.items[i].evidence.value), at);
            m.items[i].state.Failed? && m.exceptions == l.exceptions && m.failures == l.failures
  {
  }

  // ----- the handler and the sweeper in any order -----

  function RowsAbout(rows: seq<ExceptionRow>, collection: nat, subject: Subject): nat {
    if rows == [] then 0
    else
      RowsAbout(rows[..|rows| - 1], collection, subject)
      + if rows[|rows| - 1].collectionId == collection && rows[|rows| - 1].subject == subject then 1 else 0
  }

  function RowsFor(l: Ledger, item: Item): nat {
    RowsAbout(l.exceptions, item.collectionId, ItemSubject(item))
  }

  lemma RowsAboutMore(rows: seq<ExceptionRow>, row: ExceptionRow, c: nat, s: Subject)
    ensures RowsAbout(rows + [row], c, s) == RowsAbout(rows, c, s) + if row.collectionId == c && row.subject == s then 1 else 0
  {
    assert (rows + [row])[..|rows|] == rows;
  }

  // An item that fails gains one exception row, in the step in which it fails; a terminal item stays
  // as it is and gains none.
  predicate Once(l: Ledger, m: Ledger, i: nat)
    requires i < |l.items| == |m.items|
  {
    var a, b := l.items[i], m.items[i];
    && b.(state := a.state, attempts := a.attempts, updatedAt := a.updatedAt) == a
    && (Terminal(a.state) ==> b == a)
    && (Terminal(b.state) && !Terminal(a.state) ==> b.state.Failed?)
    && RowsFor(m, a) == RowsFor(l, a) + if Terminal(b.state) && !Terminal(a.state) then 1 else 0
  }

  ghost predicate OnceEach(l: Ledger, m: Ledger) {
    |l.items| == |m.items| && forall i: nat :: i < |l.items| ==> Once(l, m, i)
  }

  lemma SameItem(a: Item, b: Item)
    requires b.(state := a.state, attempts := a.attempts, updatedAt := a.updatedAt) == a
    ensures ItemSubject(a) == ItemSubject(b) && ItemWork(a, Fetch) == ItemWork(b, Fetch) && Bucket(a) == Bucket(b)
    ensures a.evidence == b.evidence
  {
    var c := b.(state := a.state, attempts := a.attempts, updatedAt := a.updatedAt);
    assert c.collectionId == b.collectionId && c.custodianId == b.custodianId && c.source == b.source
        && c.providerItemId == b.providerItemId && c.evidence == b.evidence;
  }

  lemma UniqueStays(l: Ledger, m: Ledger)
    requires UniqueItems(l) && OnceEach(l, m)
    ensures UniqueItems(m)
  {
    hide RowsFor;
    forall i: nat, j: nat | i < j < |m.items|
      ensures ItemWork(m.items[i], Fetch) != ItemWork(m.items[j], Fetch)
    {
      assert Once(l, m, i) && Once(l, m, j);
      SameItem(l.items[i], m.items[i]);
      SameItem(l.items[j], m.items[j]);
    }
  }

  lemma OnceChain(l: Ledger, m: Ledger, n: Ledger)
    requires OnceEach(l, m) && OnceEach(m, n)
    ensures OnceEach(l, n)
  {
    forall i: nat | i < |l.items|
      ensures Once(l, n, i)
    {
      assert Once(l, m, i) && Once(m, n, i);
      SameItem(l.items[i], m.items[i]);
      SameItem(m.items[i], n.items[i]);
    }
  }

  // Failing row i with one exception row about it, when no other item has its key.
  lemma FailingOnce(l: Ledger, m: Ledger, i: nat, at: int, reason: Reason)
    requires UniqueItems(l) && i < |l.items| && !Terminal(l.items[i].state)
    requires m.items == l.items[i := l.items[i].(state := Failed, updatedAt := at)]
    requires m.exceptions == l.exceptions + [ExceptionRow(l.items[i].collectionId, ItemSubject(l.items[i]), reason)]
    ensures OnceEach(l, m)
  {
    var row := ExceptionRow(l.items[i].collectionId, ItemSubject(l.items[i]), reason);
    forall j: nat | j < |l.items|
      ensures Once(l, m, j)
    {
      var a := l.items[j];
      RowsAboutMore(l.exceptions, row, a.collectionId, ItemSubject(a));
      if j != i { assert ItemWork(a, Fetch) != ItemWork(l.items[i], Fetch); }
    }
  }

  lemma ItemStepOnce(p: Pass, now: int, at: int, i: nat)
    requires UniqueItems(p.l) && i < |p.l.items|
    ensures OnceEach(p.l, ItemStep(p, now, at, i).l)
  {
    var l, item := p.l, p.l.items[i];
    var plan := RecoveryPlan(item.state, item.attempts, now - item.updatedAt, item.evidence, KindOf(l, item));
    var m := ItemStep(p, now, at, i).l;
    if plan.GiveUp? { FailingOnce(l, m, i, at, plan.reason); }
  }

  lemma OtherRowOnce(l: Ledger, m: Ledger, rows: seq<ExceptionRow>)
    requires m.items == l.items && m.exceptions == l.exceptions + rows
    requires |rows| <= 1 && forall k :: 0 <= k < |rows| ==> !rows[k].subject.OfItem?
    ensures OnceEach(l, m)
  {
    forall i: nat | i < |l.items|
      ensures Once(l, m, i)
    {
      if rows == [] { assert m.exceptions == l.exceptions; }
      else {
        assert rows == [rows[0]];
        RowsAboutMore(l.exceptions, rows[0], l.items[i].collectionId, ItemSubject(l.items[i]));
      }
    }
  }

  lemma CheckpointStepOnce(p: Pass, now: int, i: nat)
    requires i < |p.l.checkpoints| && p.l.checkpoints[i].Some?
    ensures OnceEach(p.l, CheckpointStep(p, now, i).l)
  {
    var m := CheckpointStep(p, now, i).l;
    OtherRowOnce(p.l, m, m.exceptions[|p.l.exceptions|..]);
  }

  lemma ParentStepOnce(p: Pass, now: int, at: int, i: nat)
    requires i < |p.l.evidence|
    ensures OnceEach(p.l, ParentStep(p, now, at, i).l)
  {
    var m := ParentStep(p, now, at, i).l;
    OtherRowOnce(p.l, m, m.exceptions[|p.l.exceptions|..]);
  }

  lemma {:induction false} ItemsOnce(p: Pass, now: int, at: int, ids: seq<nat>)
    requires UniqueItems(p.l) && ItemRows(p.l, ids)
    ensures OnceEach(p.l, SweepItems(p, now, at, ids).l)
  {
    if ids != [] {
      var q := SweepItems(p, now, at, ids[..|ids| - 1]);
      ItemsOnce(p, now, at, ids[..|ids| - 1]);
      UniqueStays(p.l, q.l);
      ItemStepOnce(q, now, at, ids[|ids| - 1]);
      OnceChain(p.l, q.l, SweepItems(p, now, at, ids).l);
    }
  }

  lemma {:induction false} CheckpointsOnce(p: Pass, now: int, ids: seq<nat>)
    requires CheckpointRows(p.l, ids)
    ensures OnceEach(p.l, SweepCheckpoints(p, now, ids).l)
  {
    if ids != [] {
      var q := SweepCheckpoints(p, now, ids[..|ids| - 1]);
      CheckpointsOnce(p, now, ids[..|ids| - 1]);
      assert ids[|ids| - 1] !in ids[..|ids| - 1];
      CheckpointStepOnce(q, now, ids[|ids| - 1]);
      OnceChain(p.l, q.l, SweepCheckpoints(p, now, ids).l);
    }
  }

  lemma {:induction false} ParentsOnce(p: Pass, now: int, at: int, ids: seq<nat>)
    requires ParentRows(p.l, ids)
    ensures OnceEach(p.l, SweepParents(p, now, at, ids).l)
  {
    if ids != [] {
      var q := SweepParents(p, now, at, ids[..|ids| - 1]);
      ParentsOnce(p, now, at, ids[..|ids| - 1]);
      ParentStepOnce(q, now, at, ids[|ids| - 1]);
      OnceChain(p.l, q.l, SweepParents(p, now, at, ids).l);
    }
  }

  lemma SweepOnce(l: Ledger, now: int, at: int, b: Batch)
    requires UniqueItems(l) && Rows(l, b)
    ensures OnceEach(l, Sweep(l, now, at, b).l)
  {
    var p := SweepItems(Start(l), now, at, b.items);
    var q := SweepCheckpoints(p, now, b.checkpoints);
    var r := SweepParents(q, now, at, b.parents);
    ItemsOnce(Start(l), now, at, b.items);
    CheckpointsOnce(p, now, b.checkpoints);
    ParentsOnce(q, now, at, b.parents);
    OtherRowOnce(r.l, Nudge(r, at).l, []);
    OnceChain(l, p.l, q.l);
    OnceChain(l, q.l, r.l);
    OnceChain(l, r.l, Nudge(r, at).l);
  }

  lemma RecordOnce(l: Ledger, t: Target, at: int)
    requires UniqueItems(l) && !t.EvidenceItem?
    ensures OnceEach(l, Record(l, t, at))
  {
    var i := FirstHit(t, l.items);
    if i < |l.items| {
      FailingOnce(l, FailItem(l, i, at), i, at, JobDidNotFinish);
    } else {
      OtherRowOnce(l, Record(l, t, at), []);
    }
  }

  // A sweeper pass, or a failure delivered for an item or a container.
  datatype Event = Swept(now: int, at: int, batch: Batch) | Delivered(target: Target, at: int)

  predicate CanHappen(l: Ledger, e: Event) {
    match e
    case Swept(_, _, b) => Rows(l, b)
    case Delivered(t, _) => !t.EvidenceItem?
  }

  function Happen(l: Ledger, e: Event): Ledger
    requires CanHappen(l, e)
  {
    match e
    case Swept(now, at, b) => Sweep(l, now, at, b).l
    case Delivered(t, at) => Record(l, t, at)
  }

  predicate Possible(l: Ledger, events: seq<Event>)
    decreases |events|
  {
    events == [] || (CanHappen(l, events[0]) && Possible(Happen(l, events[0]), events[1..]))
  }

  function Run(l: Ledger, events: seq<Event>): Ledger
    requires Possible(l, events)
    decreases |events|
  {
    if events == [] then l else Run(Happen(l, events[0]), events[1..])
  }

  // However failure deliveries and sweeper passes interleave, an item is failed at most once: each one
  // that ends failed has exactly one exception row more than before, every other item none.
  lemma {:induction false} FailedOnce(l: Ledger, events: seq<Event>)
    requires UniqueItems(l) && Possible(l, events)
    ensures OnceEach(l, Run(l, events))
    decreases |events|
  {
    if events != [] {
      var m := Happen(l, events[0]);
      match events[0] {
        case Swept(now, at, b) => SweepOnce(l, now, at, b);
        case Delivered(t, at) => RecordOnce(l, t, at);
      }
      UniqueStays(l, m);
      hide OnceEach, UniqueItems, Happen;
      FailedOnce(m, events[1..]);
      OnceChain(l, m, Run(m, events[1..]));
    }
  }
}
