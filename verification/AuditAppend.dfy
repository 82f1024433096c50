// packages/database/src/audit.ts:80-128: appending to the chain inside transactions that take the
// per-tenant advisory lock, under every interleaving of the lock, the read of the head and the insert.
module AuditAppend {
  import opened Wrappers
  import opened Sorting
  import opened Canonical
  import opened Audit

  datatype Input = Input(
    tenantId: string, actorUserId: Option<string>, actorDisplay: Option<string>, effectiveRoles: Option<seq<string>>,
    action: string, targetType: Option<string>, targetId: Option<string>, requestId: Option<string>,
    ipAddress: Option<string>, userAgent: Option<string>, summary: Option<Json>)

  // How far an append has come: waiting for nothing, holding the tenant's lock, or with the head read.
  datatype Stage = Idle | Locked(tenantId: string) | HeadRead(tenantId: string, head: Option<Row>)

  // A transaction sees what it wrote itself and what is committed: now, or, where it runs serializable
  // (apps/api/src/productions/productions.service.ts:1260), when it began. Its advisory locks last
  // until it ends.
  datatype Tx = Tx(pending: seq<Row>, locks: set<string>, snapshot: Option<seq<Row>>, stage: Stage)

  datatype Db = Db(committed: seq<Row>, open: map<nat, Tx>)

  function EventOf(i: Input, sequence: int, occurredAt: string): Event {
    Event(
      i.tenantId, sequence, Or(i.actorUserId, ""), Or(i.actorDisplay, ""), Or(i.effectiveRoles, []), i.action,
      Or(i.targetType, ""), Or(i.targetId, ""), Or(i.requestId, ""), Or(i.ipAddress, ""), Or(i.userAgent, ""),
      Or(i.summary, Obj([])), occurredAt)
  }

  // findFirst where { tenantId } order by sequence desc
  function Head(visible: seq<Row>, tenantId: string): Option<Row> {
    var rows := TenantRows(visible, tenantId);
    if rows == [] then None else Some(rows[|rows| - 1])
  }

  function View(committed: seq<Row>, tx: Tx): seq<Row> {
    Or(tx.snapshot, committed) + tx.pending
  }

  // The row written after the head read, or None when hashing throws.
  function RowAfter(sha: Hash, head: Option<Row>, i: Input, id: string, now: string): Option<Row> {
    var sequence := if head.Some? then head.value.event.sequence + 1 else 1;
    var prev := if head.Some? then head.value.eventHash else GENESIS_HASH;
    var event := EventOf(i, sequence, now);
    match ComputeEventHash(sha, prev, event)
    case Some(h) => Some(Row(id, event, prev, h))
    case None => None
  }

  // @@unique([tenantId, sequence])
  predicate Taken(committed: seq<Row>, row: Row) {
    exists r | r in committed :: r.event.tenantId == row.event.tenantId && r.event.sequence == row.event.sequence
  }

  // ----- steps -----

  datatype Step =
    | Begin(t: nat, serializable: bool)
    | Lock(t: nat, tenantId: string)
    | ReadHead(t: nat)
    | Insert(t: nat, input: Input, id: string, now: string)
    | Commit(t: nat)
    | Rollback(t: nat)

  predicate LockFree(s: Db, t: nat, tenantId: string) {
    forall u | u in s.open && u != t :: tenantId !in s.open[u].locks
  }

  // Taking a lock that is held waits; it is enabled once the holder has ended.
  predicate Enabled(s: Db, step: Step) {
    match step
    case Begin(t, _) => t !in s.open
    case Lock(t, tenant) => t in s.open && s.open[t].stage.Idle? && LockFree(s, t, tenant)
    case ReadHead(t) => t in s.open && s.open[t].stage.Locked?
    case Insert(t, i, _, _) => t in s.open && s.open[t].stage.HeadRead? && s.open[t].stage.tenantId == i.tenantId
    case Commit(t) => t in s.open
    case Rollback(t) => t in s.open
  }

  // The unique index refuses the insert, which aborts the transaction.
  predicate Refused(sha: Hash, s: Db, step: Step)
    requires step.Insert? && Enabled(s, step)
  {
    var row := RowAfter(sha, s.open[step.t].stage.head, step.input, step.id, step.now);
    row.Some? && Taken(s.committed, row.value)
  }

  function Inserted(sha: Hash, tx: Tx, i: Input, id: string, now: string): Tx
    requires tx.stage.HeadRead?
  {
    var row := RowAfter(sha, tx.stage.head, i, id, now);
    tx.(pending := tx.pending + (if row.Some? then [row.value] else []), stage := Idle)
  }

  function Apply(sha: Hash, s: Db, step: Step): Db
    requires Enabled(s, step)
  {
    match step
    case Begin(t, serializable) => s.(open := s.open[t := Tx([], {}, if serializable then Some(s.committed) else None, Idle)])
    case Lock(t, tenant) => s.(open := s.open[t := s.open[t].(locks := s.open[t].locks + {tenant}, stage := Locked(tenant))])
    case ReadHead(t) =>
      var tx := s.open[t];
      s.(open := s.open[t := tx.(stage := HeadRead(tx.stage.tenantId, Head(View(s.committed, tx), tx.stage.tenantId)))])
    case Insert(t, i, id, now) =>
      if Refused(sha, s, step) then s.(open := s.open - {t})
      else s.(open := s.open[t := Inserted(sha, s.open[t], i, id, now)])
    case Commit(t) => Db(s.committed + s.open[t].pending, s.open - {t})
    case Rollback(t) => s.(open := s.open - {t})
  }

  // ----- the invariant -----

  ghost predicate ChainsOk(sha: Hash, rows: seq<Row>) {
    forall tenant :: Linked(sha, OfTenant(rows, tenant))
  }

  predicate LocksCover(tx: Tx) {
    && (forall r | r in tx.pending :: r.event.tenantId in tx.locks)
    && (!tx.stage.Idle? ==> tx.stage.tenantId in tx.locks)
  }

  // A snapshot holds the first committed rows, and all of a chain the transaction has added to.
  predicate SnapshotOk(committed: seq<Row>, tx: Tx) {
    tx.snapshot.Some? ==>
      && tx.snapshot.value <= committed
      && forall r | r in tx.pending :: OfTenant(tx.snapshot.value, r.event.tenantId) == OfTenant(committed, r.event.tenantId)
  }

  // What was read is still what the transaction sees.
  predicate HeadOk(committed: seq<Row>, tx: Tx) {
    tx.stage.HeadRead? ==> tx.stage.head == Head(View(committed, tx), tx.stage.tenantId)
  }

  ghost predicate TxOk(sha: Hash, committed: seq<Row>, tx: Tx) {
    && ChainsOk(sha, committed + tx.pending)
    && LocksCover(tx) && SnapshotOk(committed, tx) && HeadOk(committed, tx)
  }

  ghost predicate Inv(sha: Hash, s: Db) {
    && ChainsOk(sha, s.committed)
    && (forall t | t in s.open :: TxOk(sha, s.committed, s.open[t]))
    && (forall t, u | t in s.open && u in s.open && t != u :: s.open[t].locks !! s.open[u].locks)
  }

  lemma {:induction false} OfTenantConcat(a: seq<Row>, b: seq<Row>, tenant: string)
    ensures OfTenant(a + b, tenant) == OfTenant(a, tenant) + OfTenant(b, tenant)
  {
    if a == [] {
      assert a + b == b;
      assert OfTenant(a, tenant) == [];
    } else {
      var c := a + b;
      var first := if a[0].event.tenantId == tenant then [a[0]] else [];
      OfTenantConcat(a[1..], b, tenant);
      assert c[0] == a[0] && c[1..] == a[1..] + b;
      assert OfTenant(c, tenant) == first + OfTenant(c[1..], tenant);
      assert OfTenant(a, tenant) == first + OfTenant(a[1..], tenant);
    }
  }

  lemma {:induction false} NoneOfTenant(rows: seq<Row>, tenant: string)
    requires forall r | r in rows :: r.event.tenantId != tenant
    ensures OfTenant(rows, tenant) == []
  {
    if rows != [] {
      assert rows == [rows[0]] + rows[1..];
      NoneOfTenant(rows[1..], tenant);
    }
  }

  // A linked chain is already in the order the query asks for.
  lemma LinkedIsSorted(sha: Hash, rows: seq<Row>)
    requires Linked(sha, rows)
    ensures SortBy(rows, SequenceAtMost) == rows
  {
    forall i, j | 0 <= i < j < |rows|
      ensures SequenceAtMost(rows[i], rows[j])
    {
      assert RowOk(sha, rows, i) && RowOk(sha, rows, j);
    }
    SortByFixed(rows, SequenceAtMost);
  }

  lemma LinkedSnoc(sha: Hash, rows: seq<Row>, row: Row)
    requires Linked(sha, rows)
    requires row.event.sequence == |rows| + 1 && row.prevEventHash == HashBefore(rows, |rows|)
    requires ComputeEventHash(sha, row.prevEventHash, row.event) == Some(row.eventHash)
    ensures Linked(sha, rows + [row])
  {
    hide ComputeEventHash;
    forall i | 0 <= i <= |rows|
      ensures RowOk(sha, rows + [row], i)
    {
      assert HashBefore(rows + [row], i) == HashBefore(rows, i);
      if i < |rows| { assert RowOk(sha, rows, i); }
    }
  }

  // ----- the row an append writes -----

  lemma SequenceIsNext(sha: Hash, visible: seq<Row>, tenant: string)
    requires Linked(sha, OfTenant(visible, tenant))
    ensures var rows := OfTenant(visible, tenant);
            var head := Head(visible, tenant);
            && (if head.Some? then head.value.event.sequence + 1 else 1) == |rows| + 1
            && (if head.Some? then head.value.eventHash else GENESIS_HASH) == HashBefore(rows, |rows|)
  {
    var rows := OfTenant(visible, tenant);
    hide OfTenant, SortBy, ComputeEventHash;
    LinkedIsSorted(sha, rows);
    if rows != [] { assert RowOk(sha, rows, |rows| - 1); }
  }

  lemma RowLinks(sha: Hash, visible: seq<Row>, i: Input, id: string, now: string)
    requires Linked(sha, OfTenant(visible, i.tenantId)) && RowAfter(sha, Head(visible, i.tenantId), i, id, now).Some?
    ensures var row := RowAfter(sha, Head(visible, i.tenantId), i, id, now).value;
            var rows := OfTenant(visible, i.tenantId);
            row.event.tenantId == i.tenantId && row.event.sequence == |rows| + 1 && Linked(sha, rows + [row])
  {
    var row := RowAfter(sha, Head(visible, i.tenantId), i, id, now).value;
    var rows := OfTenant(visible, i.tenantId);
    SequenceIsNext(sha, visible, i.tenantId);
    hide Head, OfTenant, CanonicalJson, EventJson;
    LinkedSnoc(sha, rows, row);
  }

  // The row written after the head keeps linked chains linked.
  lemma AppendLinks(sha: Hash, visible: seq<Row>, i: Input, id: string, now: string)
    requires ChainsOk(sha, visible) && RowAfter(sha, Head(visible, i.tenantId), i, id, now).Some?
    ensures ChainsOk(sha, visible + [RowAfter(sha, Head(visible, i.tenantId), i, id, now).value])
  {
    var row := RowAfter(sha, Head(visible, i.tenantId), i, id, now).value;
    var rows := OfTenant(visible, i.tenantId);
    assert Linked(sha, rows);
    RowLinks(sha, visible, i, id, now);
    hide Linked, RowAfter, Head;
    forall tenant
      ensures Linked(sha, OfTenant(visible + [row], tenant))
    {
      OfTenantConcat(visible, [row], tenant);
      assert OfTenant([], tenant) == [];
      assert OfTenant([row], tenant) == if tenant == i.tenantId then [row] else [];
      assert rows + [] == rows && OfTenant(visible, tenant) + [] == OfTenant(visible, tenant);
    }
  }

  // ----- when an insert is refused -----

  // What the transaction sees of the tenant's committed chain is all of it.
  predicate SeesAll(committed: seq<Row>, tx: Tx, tenant: string) {
    OfTenant(Or(tx.snapshot, committed), tenant) == OfTenant(committed, tenant)
  }

  lemma HeadOfChain(a: seq<Row>, b: seq<Row>, tenant: string)
    requires OfTenant(a, tenant) == OfTenant(b, tenant)
    ensures Head(a, tenant) == Head(b, tenant)
  {
  }

  lemma ViewOfChain(committed: seq<Row>, tx: Tx, tenant: string)
    requires SeesAll(committed, tx, tenant)
    ensures Head(View(committed, tx), tenant) == Head(committed + tx.pending, tenant)
  {
    OfTenantConcat(Or(tx.snapshot, committed), tx.pending, tenant);
    OfTenantConcat(committed, tx.pending, tenant);
    HeadOfChain(View(committed, tx), committed + tx.pending, tenant);
  }

  lemma OfTenantPrefix(a: seq<Row>, b: seq<Row>, tenant: string)
    requires a <= b
    ensures OfTenant(a, tenant) <= OfTenant(b, tenant)
  {
    assert b == a + b[|a|..];
    OfTenantConcat(a, b[|a|..], tenant);
  }

  lemma {:induction false} OfTenantMembers(rows: seq<Row>, tenant: string, r: Row)
    ensures r in OfTenant(rows, tenant) <==> r in rows && r.event.tenantId == tenant
  {
    if rows != [] {
      assert rows == [rows[0]] + rows[1..];
      OfTenantMembers(rows[1..], tenant, r);
    }
  }

  // In a linked chain the sequence numbers taken are those up to its length.
  lemma TakenUpTo(sha: Hash, committed: seq<Row>, row: Row)
    requires ChainsOk(sha, committed)
    ensures Taken(committed, row) <==> 1 <= row.event.sequence <= |OfTenant(committed, row.event.tenantId)|
  {
    var tenant := row.event.tenantId;
    var rows := OfTenant(committed, tenant);
    assert Linked(sha, rows);
    hide OfTenant, ComputeEventHash;
    if Taken(committed, row) {
      var r :| r in committed && r.event.tenantId == tenant && r.event.sequence == row.event.sequence;
      OfTenantMembers(committed, tenant, r);
      var k :| 0 <= k < |rows| && rows[k] == r;
      assert RowOk(sha, rows, k);
    }
    if 1 <= row.event.sequence <= |rows| {
      var k := row.event.sequence - 1;
      assert RowOk(sha, rows, k);
      OfTenantMembers(committed, tenant, rows[k]);
    }
  }

  // A snapshot that misses part of the chain holds its first rows only, and the transaction has added none.
  lemma StaleView(sha: Hash, committed: seq<Row>, tx: Tx, tenant: string)
    requires ChainsOk(sha, committed) && SnapshotOk(committed, tx) && !SeesAll(committed, tx, tenant)
    ensures var rows := OfTenant(View(committed, tx), tenant);
            Linked(sha, rows) && |rows| < |OfTenant(committed, tenant)|
  {
    var sn, all := tx.snapshot.value, OfTenant(committed, tenant);
    OfTenantPrefix(sn, committed, tenant);
    OfTenantConcat(sn, tx.pending, tenant);
    NoneOfTenant(tx.pending, tenant);
    assert OfTenant(sn, tenant) + [] == OfTenant(sn, tenant) == all[..|OfTenant(sn, tenant)|];
    assert Linked(sha, all);
    LinkedPrefix(sha, all, |OfTenant(sn, tenant)|);
  }

  // An insert is refused exactly when the transaction does not see all of the tenant's chain.
  lemma RefusedExactly(sha: Hash, s: Db, step: Step)
    requires Inv(sha, s) && step.Insert? && Enabled(s, step)
    requires RowAfter(sha, s.open[step.t].stage.head, step.input, step.id, step.now).Some?
    ensures Refused(sha, s, step) <==> !SeesAll(s.committed, s.open[step.t], step.input.tenantId)
  {
    var tx, tenant := s.open[step.t], step.input.tenantId;
    var row := RowAfter(sha, tx.stage.head, step.input, step.id, step.now).value;
    assert TxOk(sha, s.committed, tx);
    TakenUpTo(sha, s.committed, row);
    if SeesAll(s.committed, tx, tenant) {
      ViewOfChain(s.committed, tx, tenant);
      assert Linked(sha, OfTenant(s.committed + tx.pending, tenant));
      hide RowAfter, Taken, View, SeesAll, Head, Linked;
      RowLinks(sha, s.committed + tx.pending, step.input, step.id, step.now);
      OfTenantConcat(s.committed, tx.pending, tenant);
    } else {
      StaleView(sha, s.committed, tx, tenant);
      hide RowAfter, Taken, View, SeesAll, Head, Linked;
      RowLinks(sha, View(s.committed, tx), step.input, step.id, step.now);
    }
  }

  lemma SnapshotMisses(sn: seq<Row>, committed: seq<Row>, tenant: string)
    requires sn <= committed
    ensures OfTenant(sn, tenant) != OfTenant(committed, tenant) <==>
            exists r :: r in committed[|sn|..] && r.event.tenantId == tenant
  {
    var since := committed[|sn|..];
    assert committed == sn + since;
    OfTenantConcat(sn, since, tenant);
    if r :| r in since && r.event.tenantId == tenant {
      OfTenantMembers(since, tenant, r);
      assert |OfTenant(since, tenant)| > 0;
    } else {
      NoneOfTenant(since, tenant);
      assert OfTenant(sn, tenant) + [] == OfTenant(sn, tenant);
    }
  }

  // So none is refused outside serializable transactions, and there exactly when an event of the tenant
  // has been committed since the transaction began.
  lemma OnlyStaleSnapshotsRefused(sha: Hash, s: Db, step: Step)
    requires Inv(sha, s) && step.Insert? && Enabled(s, step)
    requires RowAfter(sha, s.open[step.t].stage.head, step.input, step.id, step.now).Some?
    ensures var tx := s.open[step.t];
            && (tx.snapshot.None? ==> !Refused(sha, s, step))
            && (tx.snapshot.Some? ==>
                  tx.snapshot.value <= s.committed
                  && (Refused(sha, s, step) <==>
                      exists r :: r in s.committed[|tx.snapshot.value|..] && r.event.tenantId == step.input.tenantId))
  {
    var tx, tenant := s.open[step.t], step.input.tenantId;
    RefusedExactly(sha, s, step);
    assert TxOk(sha, s.committed, tx);
    hide RowAfter, Refused, Linked, OfTenant;
    if tx.snapshot.Some? { SnapshotMisses(tx.snapshot.value, s.committed, tenant); }
  }

  // ----- every step keeps the invariant -----

  lemma InsertedLinks(sha: Hash, committed: seq<Row>, pending: seq<Row>, head: Option<Row>, i: Input, id: string, now: string)
    requires ChainsOk(sha, committed + pending) && head == Head(committed + pending, i.tenantId)
    requires RowAfter(sha, head, i, id, now).Some?
    ensures ChainsOk(sha, committed + (pending + [RowAfter(sha, head, i, id, now).value]))
  {
    hide *;
    AppendLinks(sha, committed + pending, i, id, now);
    var row := RowAfter(sha, head, i, id, now).value;
    assert committed + (pending + [row]) == (committed + pending) + [row];
  }

  lemma InsertedRest(sha: Hash, committed: seq<Row>, tx: Tx, row: Row)
    requires TxOk(sha, committed, tx) && tx.stage.HeadRead? && tx.stage.tenantId == row.event.tenantId
    requires SeesAll(committed, tx, row.event.tenantId) && ChainsOk(sha, committed + (tx.pending + [row]))
    ensures TxOk(sha, committed, tx.(pending := tx.pending + [row], stage := Idle))
  {
    hide ChainsOk, OfTenant, View, Head;
  }

  lemma InsertedOk(sha: Hash, committed: seq<Row>, tx: Tx, i: Input, id: string, now: string)
    requires TxOk(sha, committed, tx) && tx.stage.HeadRead? && tx.stage.tenantId == i.tenantId
    requires RowAfter(sha, tx.stage.head, i, id, now).Some? ==> SeesAll(committed, tx, i.tenantId)
    ensures TxOk(sha, committed, Inserted(sha, tx, i, id, now))
  {
    var row := RowAfter(sha, tx.stage.head, i, id, now);
    if row.Some? {
      ViewOfChain(committed, tx, i.tenantId);
      InsertedLinks(sha, committed, tx.pending, tx.stage.head, i, id, now);
      hide ChainsOk, View, Head;
      RowTenant(sha, tx.stage.head, i, id, now);
      InsertedRest(sha, committed, tx, row.value);
      hide RowAfter, LocksCover, SnapshotOk, HeadOk, OfTenant, SeesAll;
    } else {
      assert Inserted(sha, tx, i, id, now).pending == tx.pending;
      hide ChainsOk, RowAfter, OfTenant, View;
    }
  }

  lemma InsertKeeps(sha: Hash, s: Db, step: Step)
    requires Inv(sha, s) && step.Insert? && Enabled(s, step) && !Refused(sha, s, step)
    ensures Inv(sha, Apply(sha, s, step))
  {
    var t, tx := step.t, s.open[step.t];
    var after := Inserted(sha, tx, step.input, step.id, step.now);
    hide TxOk, ChainsOk, RowAfter, SeesAll;
    assert TxOk(sha, s.committed, tx);
    if RowAfter(sha, tx.stage.head, step.input, step.id, step.now).Some? { RefusedExactly(sha, s, step); }
    hide Refused;
    InsertedOk(sha, s.committed, tx, step.input, step.id, step.now);
    assert Apply(sha, s, step) == s.(open := s.open[t := after]);
  }

  lemma RowTenant(sha: Hash, head: Option<Row>, i: Input, id: string, now: string)
    requires RowAfter(sha, head, i, id, now).Some?
    ensures RowAfter(sha, head, i, id, now).value.event.tenantId == i.tenantId
  {
  }

  // Another transaction's rows lie on chains whose locks it holds.
  lemma Unmoved(committed: seq<Row>, a: Tx, tenant: string)
    requires LocksCover(a) && tenant !in a.locks
    ensures OfTenant(committed + a.pending, tenant) == OfTenant(committed, tenant)
  {
    OfTenantConcat(committed, a.pending, tenant);
    NoneOfTenant(a.pending, tenant);
    assert OfTenant(committed, tenant) + [] == OfTenant(committed, tenant);
  }

  lemma CommitApart(sha: Hash, committed: seq<Row>, a: Tx, b: Tx)
    requires TxOk(sha, committed, a) && TxOk(sha, committed, b) && a.locks !! b.locks
    ensures ChainsOk(sha, committed + a.pending + b.pending)
  {
    hide Linked;
    forall tenant
      ensures Linked(sha, OfTenant(committed + a.pending + b.pending, tenant))
    {
      if tenant in a.locks {
        Unmoved(committed + a.pending, b, tenant);
      } else {
        Unmoved(committed, a, tenant);
        OfTenantConcat(committed + a.pending, b.pending, tenant);
        OfTenantConcat(committed, b.pending, tenant);
      }
    }
  }

  lemma CommitKeepsOther(sha: Hash, committed: seq<Row>, a: Tx, b: Tx)
    requires TxOk(sha, committed, a) && TxOk(sha, committed, b) && a.locks !! b.locks
    ensures TxOk(sha, committed + a.pending, b)
  {
    CommitApart(sha, committed, a, b);
    hide ChainsOk, OfTenant, Head;
    forall tenant | tenant in b.locks
      ensures OfTenant(committed + a.pending, tenant) == OfTenant(committed, tenant)
    {
      Unmoved(committed, a, tenant);
    }
    HeadStays(committed, a, b);
  }

  lemma HeadStays(committed: seq<Row>, a: Tx, b: Tx)
    requires LocksCover(a) && LocksCover(b) && a.locks !! b.locks && HeadOk(committed, b)
    ensures HeadOk(committed + a.pending, b)
  {
    hide OfTenant, Head;
    if !b.stage.Idle? { Unmoved(committed, a, b.stage.tenantId); }
    if b.stage.HeadRead? && b.snapshot.None? {
      var tenant := b.stage.tenantId;
      OfTenantConcat(committed + a.pending, b.pending, tenant);
      OfTenantConcat(committed, b.pending, tenant);
      HeadOfChain(committed + a.pending + b.pending, committed + b.pending, tenant);
    }
  }

  lemma CommitKeeps(sha: Hash, s: Db, t: nat)
    requires Inv(sha, s) && t in s.open
    ensures Inv(sha, Apply(sha, s, Commit(t)))
  {
    var next := Apply(sha, s, Commit(t));
    assert TxOk(sha, s.committed, s.open[t]);
    forall u | u in next.open
      ensures TxOk(sha, next.committed, next.open[u])
    {
      CommitKeepsOther(sha, s.committed, s.open[t], s.open[u]);
    }
    hide ChainsOk, LocksCover, SnapshotOk, HeadOk;
  }

  // Every step, of any transaction, keeps every chain in order, and only ever adds committed rows.
  lemma StepKeeps(sha: Hash, s: Db, step: Step)
    requires Inv(sha, s) && Enabled(s, step)
    ensures Inv(sha, Apply(sha, s, step)) && s.committed <= Apply(sha, s, step).committed
  {
    hide ChainsOk, OfTenant, Head;
    match step
    case Begin(t, _) =>
      assert s.committed + [] == s.committed;
    case Lock(t, _) =>
      assert TxOk(sha, s.committed, s.open[t]);
    case ReadHead(t) =>
      assert TxOk(sha, s.committed, s.open[t]);
    case Insert(_, _, _, _) =>
      if !Refused(sha, s, step) { InsertKeeps(sha, s, step); }
    case Commit(t) => CommitKeeps(sha, s, t);
    case Rollback(t) =>
  }

  predicate Possible(sha: Hash, s: Db, steps: seq<Step>)
    decreases |steps|
  {
    steps == [] || (Enabled(s, steps[0]) && Possible(sha, Apply(sha, s, steps[0]), steps[1..]))
  }

  function Run(sha: Hash, s: Db, steps: seq<Step>): Db
    requires Possible(sha, s, steps)
    decreases |steps|
  {
    if steps == [] then s else Run(sha, Apply(sha, s, steps[0]), steps[1..])
  }

  lemma {:induction false} RunKeeps(sha: Hash, s: Db, steps: seq<Step>)
    requires Inv(sha, s) && Possible(sha, s, steps)
    ensures Inv(sha, Run(sha, s, steps)) && s.committed <= Run(sha, s, steps).committed
    decreases |steps|
  {
    if steps != [] {
      StepKeeps(sha, s, steps[0]);
      hide Inv, Apply;
      RunKeeps(sha, Apply(sha, s, steps[0]), steps[1..]);
    }
  }

  // Whatever transactions ran, in whatever interleaving, each tenant's committed chain is the one the
  // verifier accepts.
  lemma EveryRunLeavesLinkedChains(sha: Hash, steps: seq<Step>, tenant: string)
    requires Possible(sha, Db([], map[]), steps)
    ensures Linked(sha, TenantRows(Run(sha, Db([], map[]), steps).committed, tenant))
  {
    var start := Db([], map[]);
    assert ChainsOk(sha, []);
    RunKeeps(sha, start, steps);
    var rows := OfTenant(Run(sha, start, steps).committed, tenant);
    assert Linked(sha, rows);
    LinkedIsSorted(sha, rows);
  }

  // An insert that is not refused writes the next number of the chain the transaction leaves.
  lemma InsertIsNext(sha: Hash, s: Db, step: Step)
    requires Inv(sha, s) && step.Insert? && Enabled(s, step) && !Refused(sha, s, step)
    requires RowAfter(sha, s.open[step.t].stage.head, step.input, step.id, step.now).Some?
    ensures var row := RowAfter(sha, s.open[step.t].stage.head, step.input, step.id, step.now).value;
            && row.event.sequence == |OfTenant(s.committed + s.open[step.t].pending, step.input.tenantId)| + 1
            && row.event == EventOf(step.input, row.event.sequence, step.now)
  {
    var tx, tenant := s.open[step.t], step.input.tenantId;
    RefusedExactly(sha, s, step);
    ViewOfChain(s.committed, tx, tenant);
    assert TxOk(sha, s.committed, tx);
    assert Linked(sha, OfTenant(s.committed + tx.pending, tenant));
    hide Linked, OfTenant, View, Head, Taken, ComputeEventHash;
    RowLinks(sha, s.committed + tx.pending, step.input, step.id, step.now);
  }

  // What the lock is for: two appends to a chain that saw the same head, in whatever transactions, take
  // the same sequence number, so that no table with both rows has the chain in order, and the unique
  // index refuses the second.
  lemma SameHeadClashes(sha: Hash, visible: seq<Row>, i: Input, j: Input, a: string, b: string, now: string, later: string)
    requires ChainsOk(sha, visible) && i.tenantId == j.tenantId
    requires RowAfter(sha, Head(visible, i.tenantId), i, a, now).Some? && RowAfter(sha, Head(visible, j.tenantId), j, b, later).Some?
    ensures var r := RowAfter(sha, Head(visible, i.tenantId), i, a, now).value;
            var q := RowAfter(sha, Head(visible, j.tenantId), j, b, later).value;
            !ChainsOk(sha, visible + [r] + [q]) && Taken(visible + [r], q)
  {
    var tenant := i.tenantId;
    var r := RowAfter(sha, Head(visible, tenant), i, a, now).value;
    var q := RowAfter(sha, Head(visible, tenant), j, b, later).value;
    assert Linked(sha, OfTenant(visible, tenant));
    RowLinks(sha, visible, i, a, now);
    RowLinks(sha, visible, j, b, later);
    AppendLinks(sha, visible, i, a, now);
    hide RowAfter, Head;
    var rows := OfTenant(visible, tenant);
    OfTenantConcat(visible, [r], tenant);
    OfTenantConcat(visible + [r], [q], tenant);
    assert OfTenant([], tenant) == [] && OfTenant([r], tenant) == [r] && OfTenant([q], tenant) == [q];
    var both := OfTenant(visible + [r] + [q], tenant);
    assert both == rows + [r] + [q] && both[|rows| + 1] == q;
    assert !RowOk(sha, both, |rows| + 1);
    assert r in visible + [r];
  }

  // ----- the same steps as calls on the database -----

  class Database {
    const sha: Hash
    var committed: seq<Row>
    var open: map<nat, Tx>

    function State(): Db
      reads this
    {
      Db(committed, open)
    }

    constructor (sha: Hash)
      ensures this.sha == sha && State() == Db([], map[]) && Inv(sha, State())
    {
      this.sha := sha;
      committed, open := [], map[];
      new;
      assert ChainsOk(sha, []);
    }

    method BeginTransaction(t: nat, serializable: bool)
      requires Inv(sha, State()) && Enabled(State(), Begin(t, serializable))
      modifies this
      ensures Inv(sha, State()) && State() == Apply(sha, old(State()), Begin(t, serializable))
    {
      StepKeeps(sha, State(), Begin(t, serializable));
      open := open[t := Tx([], {}, if serializable then Some(committed) else None, Idle)];
    }

    method LockChain(t: nat, tenantId: string)
      requires Inv(sha, State()) && Enabled(State(), Lock(t, tenantId))
      modifies this
      ensures Inv(sha, State()) && State() == Apply(sha, old(State()), Lock(t, tenantId))
    {
      StepKeeps(sha, State(), Lock(t, tenantId));
      open := open[t := open[t].(locks := open[t].locks + {tenantId}, stage := Locked(tenantId))];
    }

    method FindHead(t: nat)
      requires Inv(sha, State()) && Enabled(State(), ReadHead(t))
      modifies this
      ensures Inv(sha, State()) && State() == Apply(sha, old(State()), ReadHead(t))
    {
      StepKeeps(sha, State(), ReadHead(t));
      var tx := open[t];
      var head := Head(View(committed, tx), tx.stage.tenantId);
      open := open[t := tx.(stage := HeadRead(tx.stage.tenantId, head))];
    }

    // Returns the sequence number and hash of the new event; None when the payload throws or the unique
    // index refuses the row.
    method CreateEvent(t: nat, input: Input, id: string, now: string) returns (created: Option<(int, string)>)
      requires Inv(sha, State()) && Enabled(State(), Insert(t, input, id, now))
      modifies this
      ensures Inv(sha, State()) && State() == Apply(sha, old(State()), Insert(t, input, id, now))
      ensures created == match RowAfter(sha, old(open[t].stage.head), input, id, now)
                         case None => None
                         case Some(r) => if Taken(old(committed), r) then None else Some((r.event.sequence, r.eventHash))
    {
      StepKeeps(sha, State(), Insert(t, input, id, now));
      hide Inv, RowAfter, Taken, View, Head;
      var tx := open[t];
      var row := HashedRow(tx.stage.head, input, id, now);
      if row.None? {
        assert tx.pending + [] == tx.pending;
        open := open[t := tx.(stage := Idle)];
        return None;
      }
      if Taken(committed, row.value) {
        open := open - {t};
        return None;
      }
      open := open[t := tx.(pending := tx.pending + [row.value], stage := Idle)];
      return Some((row.value.event.sequence, row.value.eventHash));
    }

    method HashedRow(head: Option<Row>, input: Input, id: string, now: string) returns (row: Option<Row>)
      ensures row == RowAfter(sha, head, input, id, now)
    {
      hide ComputeEventHash;
      var sequence := 1;
      var prevEventHash := GENESIS_HASH;
      if head.Some? {
        sequence := head.value.event.sequence + 1;
        prevEventHash := head.value.eventHash;
      }
      var event := EventOf(input, sequence, now);
      var eventHash := ComputeEventHash(sha, prevEventHash, event);
      if eventHash.None? { return None; }
      return Some(Row(id, event, prevEventHash, eventHash.value));
    }

    // Run without another transaction's step in between: the next number on the chain the transaction
    // sees, unless the payload throws or the snapshot is stale.
    method AppendAuditEvent(t: nat, input: Input, id: string, now: string) returns (created: Option<(int, string)>)
      requires Inv(sha, State()) && Enabled(State(), Lock(t, input.tenantId))
      modifies this
      ensures Inv(sha, State()) && committed == old(committed)
      ensures created.Some? ==>
                && t in open && open[t].locks == old(open[t].locks) + {input.tenantId} && open[t].stage.Idle?
                && |open[t].pending| == |old(open[t].pending)| + 1 && old(open[t].pending) <= open[t].pending
                && var row := open[t].pending[|open[t].pending| - 1];
                   && created.value == (row.event.sequence, row.eventHash)
                   && row.event.sequence == |OfTenant(old(committed + open[t].pending), input.tenantId)| + 1
                   && row.event == EventOf(input, row.event.sequence, now)
      ensures created.None? && t in open ==> open[t].pending == old(open[t].pending)
    {
      hide Inv, RowAfter, Taken, View, Head, OfTenant;
      LockChain(t, input.tenantId);
      FindHead(t);
      ghost var s := State();
      created := CreateEvent(t, input, id, now);
      if created.Some? { InsertIsNext(sha, s, Insert(t, input, id, now)); }
    }

    method CommitTransaction(t: nat)
      requires Inv(sha, State()) && Enabled(State(), Commit(t))
      modifies this
      ensures Inv(sha, State()) && State() == Apply(sha, old(State()), Commit(t))
    {
      StepKeeps(sha, State(), Commit(t));
      committed, open := committed + open[t].pending, open - {t};
    }

    method RollbackTransaction(t: nat)
      requires Inv(sha, State()) && Enabled(State(), Rollback(t))
      modifies this
      ensures Inv(sha, State()) && State() == Apply(sha, old(State()), Rollback(t))
    {
      StepKeeps(sha, State(), Rollback(t));
      open := open - {t};
    }
  }
}
