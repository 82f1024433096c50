// packages/database/src/audit.ts: the hash chain of audit events and its verifier.
module Audit {
  import opened Wrappers
  import opened Text
  import opened Sorting
  import opened Canonical

  // SHA-256 in hexadecimal; uninterpreted.
  type Hash = string -> string

  const HASH_LENGTH: nat := 64
  const GENESIS_HASH: string := Zeros(HASH_LENGTH)

  datatype Event = Event(
    tenantId: string, sequence: int, actorUserId: string, actorDisplay: string, effectiveRoles: seq<string>,
    action: string, targetType: string, targetId: string, requestId: string, ipAddress: string, userAgent: string,
    summary: Json, occurredAt: string)

  datatype Row = Row(id: string, event: Event, prevEventHash: string, eventHash: string)

  // `summary ?? {}`
  function OrEmpty(summary: Json): Json {
    if summary.Null? || summary.Undefined? then Obj([]) else summary
  }

  function Strings(s: seq<string>): (r: seq<Json>)
    ensures |r| == |s| && forall i :: 0 <= i < |s| ==> r[i] == Str(s[i])
  {
    seq(|s|, i requires 0 <= i < |s| => Str(s[i]))
  }

  function EventEntries(e: Event): (r: seq<(string, Json)>) {
    [("tenantId", Str(e.tenantId)), ("sequence", Big(e.sequence)), ("actorUserId", Str(e.actorUserId)),
     ("actorDisplay", Str(e.actorDisplay)), ("effectiveRoles", Arr(Strings(e.effectiveRoles))),
     ("action", Str(e.action)), ("targetType", Str(e.targetType)), ("targetId", Str(e.targetId)),
     ("requestId", Str(e.requestId)), ("ipAddress", Str(e.ipAddress)), ("userAgent", Str(e.userAgent)),
     ("summary", OrEmpty(e.summary)), ("occurredAt", Date(e.occurredAt))]
  }

  function EventJson(e: Event): Json {
    Obj(EventEntries(e))
  }

  // None when the payload cannot be serialized and canonicalJson throws.
  function ComputeEventHash(sha: Hash, prev: string, e: Event): Option<string> {
    match CanonicalJson(EventJson(e))
    case Some(text) => Some(sha(prev + text))
    case None => None
  }

  // ----- what a chain is -----

  function HashBefore(rows: seq<Row>, i: nat): string
    requires i <= |rows|
  {
    if i == 0 then GENESIS_HASH else rows[i - 1].eventHash
  }

  predicate RowOk(sha: Hash, rows: seq<Row>, i: nat)
    requires i < |rows|
  {
    && rows[i].event.sequence == i + 1
    && rows[i].prevEventHash == HashBefore(rows, i)
    && ComputeEventHash(sha, HashBefore(rows, i), rows[i].event) == Some(rows[i].eventHash)
  }

  // Gapless from 1, each row holding its predecessor's hash and its own.
  predicate Linked(sha: Hash, rows: seq<Row>) {
    forall i :: 0 <= i < |rows| ==> RowOk(sha, rows, i)
  }

  // ----- the table as verifyAuditChain reads it -----

  predicate SequenceAtMost(a: Row, b: Row) {
    a.event.sequence <= b.event.sequence
  }

  function OfTenant(table: seq<Row>, tenantId: string): seq<Row> {
    if table == [] then []
    else
      (if table[0].event.tenantId == tenantId then [table[0]] else []) + OfTenant(table[1..], tenantId)
  }

  // where { tenantId } order by sequence
  function TenantRows(table: seq<Row>, tenantId: string): seq<Row> {
    SortBy(OfTenant(table, tenantId), SequenceAtMost)
  }

  predicate DistinctIds(rows: seq<Row>) {
    forall i, j :: 0 <= i < j < |rows| ==> rows[i].id != rows[j].id
  }

  function IndexOf(rows: seq<Row>, id: string): (i: nat)
    ensures i <= |rows| && (i < |rows| ==> rows[i].id == id)
    ensures forall j :: 0 <= j < i ==> rows[j].id != id
  {
    if rows == [] then 0
    else if rows[0].id == id then 0
    else
      assert rows == [rows[0]] + rows[1..];
      1 + IndexOf(rows[1..], id)
  }

  function Take(rows: seq<Row>, n: nat): seq<Row> {
    if |rows| <= n then rows else rows[..n]
  }

  // take: pageSize, and after the first page skip: 1, cursor: { id }. An empty cursor counts as none.
  function Page(rows: seq<Row>, cursor: string, pageSize: nat): seq<Row> {
    var from := if cursor == "" then 0 else IndexOf(rows, cursor) + 1;
    if from > |rows| then [] else Take(rows[from..], pageSize)
  }

  datatype Reason = SequenceGap(expected: nat, found: int) | PreviousHash | Content

  datatype Verification =
    | Valid(checkedCount: nat)
    | Invalid(checkedCount: nat, firstInvalidSequence: int, reason: Reason)
    | Threw

  // The first of the three checks that a row fails.
  function Fault(sha: Hash, rows: seq<Row>, i: nat): Option<Verification>
    requires i < |rows|
  {
    var row, prev := rows[i], HashBefore(rows, i);
    if row.event.sequence != i + 1 then Some(Invalid(i, row.event.sequence, SequenceGap(i + 1, row.event.sequence)))
    else if row.prevEventHash != prev then Some(Invalid(i, row.event.sequence, PreviousHash))
    else match ComputeEventHash(sha, prev, row.event)
      case None => Some(Threw)
      case Some(h) => if h != row.eventHash then Some(Invalid(i, row.event.sequence, Content)) else None
  }

  lemma NextPage(rows: seq<Row>, n: nat, pageSize: nat)
    requires n <= |rows| && DistinctIds(rows) && forall i :: 0 <= i < |rows| ==> rows[i].id != ""
    ensures var page := Page(rows, if n == 0 then "" else rows[n - 1].id, pageSize);
            && |page| == (if pageSize <= |rows| - n then pageSize else |rows| - n)
            && forall k :: 0 <= k < |page| ==> page[k] == rows[n + k]
  {
    hide IndexOf;
    if n > 0 {
      var i := IndexOf(rows, rows[n - 1].id);
      assert i <= n - 1;
      assert i == n - 1;
    }
  }

  lemma FaultExactly(sha: Hash, rows: seq<Row>, i: nat)
    requires i < |rows|
    ensures Fault(sha, rows, i).None? <==> RowOk(sha, rows, i)
    ensures Fault(sha, rows, i).Some? ==> !Fault(sha, rows, i).value.Valid?
  {
  }

  // For every page size from 1, the chain is accepted exactly when it is linked, and otherwise the
  // first row out of place is reported together with the number of rows checked before it.
  method VerifyAuditChain(sha: Hash, table: seq<Row>, tenantId: string, pageSize: nat) returns (v: Verification)
    requires var rows := TenantRows(table, tenantId);
             DistinctIds(rows) && forall i :: 0 <= i < |rows| ==> rows[i].id != ""
    ensures pageSize == 0 ==> v == Valid(0)
    ensures pageSize > 0 ==> (v.Valid? <==> Linked(sha, TenantRows(table, tenantId)))
    ensures pageSize > 0 && v.Valid? ==> v.checkedCount == |TenantRows(table, tenantId)|
    ensures pageSize > 0 && !v.Valid? ==>
              var rows := TenantRows(table, tenantId);
              exists k :: 0 <= k < |rows| && Fault(sha, rows, k) == Some(v)
                          && forall i :: 0 <= i < k ==> RowOk(sha, rows, i)
  {
    ghost var rows := TenantRows(table, tenantId);
    hide TenantRows, Page, RowOk, ComputeEventHash, DistinctIds;
    var prevHash, expectedSequence, checkedCount, cursor := GENESIS_HASH, 1, 0, "";
    var done := false;
    while !done
      invariant checkedCount <= |rows| && expectedSequence == checkedCount + 1
      invariant prevHash == HashBefore(rows, checkedCount)
      invariant cursor == if checkedCount == 0 then "" else rows[checkedCount - 1].id
      invariant forall i :: 0 <= i < checkedCount ==> RowOk(sha, rows, i)
      invariant pageSize == 0 ==> checkedCount == 0
      invariant done && pageSize > 0 ==> checkedCount == |rows|
      decreases !done, |rows| - checkedCount
    {
      var page := Page(TenantRows(table, tenantId), cursor, pageSize);
      NextPage(rows, checkedCount, pageSize);
      if |page| == 0 {
        done := true;
      } else {
        ghost var base := checkedCount;
        for k := 0 to |page|
          invariant checkedCount == base + k && expectedSequence == checkedCount + 1
          invariant prevHash == HashBefore(rows, checkedCount)
          invariant forall i :: 0 <= i < checkedCount ==> RowOk(sha, rows, i)
        {
          var event := page[k];
          assert event == rows[checkedCount];
          FaultExactly(sha, rows, checkedCount);
          if event.event.sequence != expectedSequence {
            return Invalid(checkedCount, event.event.sequence, SequenceGap(expectedSequence, event.event.sequence));
          }
          if event.prevEventHash != prevHash {
            return Invalid(checkedCount, event.event.sequence, PreviousHash);
          }
          var recomputed := ComputeEventHash(sha, prevHash, event.event);
          if recomputed.None? { return Threw; }
          if recomputed.value != event.eventHash {
            return Invalid(checkedCount, event.event.sequence, Content);
          }
          prevHash := event.eventHash;
          expectedSequence := expectedSequence + 1;
          checkedCount := checkedCount + 1;
        }
        cursor := page[|page| - 1].id;
        if |page| < pageSize { done := true; }
      }
    }
    return Valid(checkedCount);
  }

  // ----- an event and its text determine each other -----

  function KeyMark(k: string): (nat, char, char)
    requires |k| > 2
  {
    (|k|, k[0], k[2])
  }

  lemma EventKeysDistinct(e: Event)
    ensures DistinctKeys(EventEntries(e))
  {
    var es := EventEntries(e);
    assert forall i, j :: 0 <= i < j < |es| ==> |es[i].0| > 2 && |es[j].0| > 2 && KeyMark(es[i].0) != KeyMark(es[j].0);
  }

  lemma EntryKinds(e: Event, i: nat)
    requires i < 13
    ensures |EventEntries(e)| == 13
    ensures var v := EventEntries(e)[i].1;
            !v.Undefined? && (i != 4 && i != 11 ==> v.Str? || v.Big? || v.Date?)
    ensures EventEntries(e)[4].1 == Arr(Strings(e.effectiveRoles)) && EventEntries(e)[11].1 == OrEmpty(e.summary)
  {
  }

  lemma EventField(e: Event, i: nat)
    requires i < |EventEntries(e)|
    ensures Field(EventEntries(e), EventEntries(e)[i].0) == Some(EventEntries(e)[i].1)
  {
    EventKeysDistinct(e);
    EntryKinds(e, i);
    hide EventEntries, Field, DistinctKeys, Defined;
    FieldOf(EventEntries(e), EventEntries(e)[i]);
  }

  lemma DateSame(a: string, b: string)
    requires Normalize(Date(a)) == Normalize(Date(b))
    ensures a == b
  {
  }

  lemma BigSame(a: int, b: int)
    requires Normalize(Big(a)) == Normalize(Big(b))
    ensures a == b
  {
    ShowIntInjective(a, b);
  }

  lemma ShowIntInjective(a: int, b: int)
    requires ShowInt(a) == ShowInt(b)
    ensures a == b
  {
    ParseShow(if a < 0 then -a else a);
    ParseShow(if b < 0 then -b else b);
    if a < 0 && b < 0 {
      assert ShowInt(a)[1..] == ShowNat(-a) && ShowInt(b)[1..] == ShowNat(-b);
    }
    assert ShowInt(a)[0] == '-' <==> a < 0;
    assert ShowInt(b)[0] == '-' <==> b < 0;
  }

  // Equal in every field; the free-form summary up to the normal form its text shows.
  predicate SameEvent(a: Event, b: Event) {
    && a.(summary := Null) == b.(summary := Null)
    && SameValue(OrEmpty(a.summary), OrEmpty(b.summary))
  }

  predicate SameValue(v: Json, w: Json) {
    Serializable(v) && Serializable(w) && Normalize(v) == Normalize(w)
  }

  predicate EventIsValue(e: Event) {
    IsValue(OrEmpty(e.summary))
  }

  lemma EventSerializable(e: Event)
    ensures Serializable(EventJson(e)) <==> Serializable(OrEmpty(e.summary))
  {
    var es := EventEntries(e);
    EntryKinds(e, 0);
    hide EventEntries;
    assert es[11] in es;
    forall x | x in es && x != es[11]
      ensures Serializable(x.1)
    {
      var i :| 0 <= i < |es| && es[i] == x;
      EntryKinds(e, i);
    }
  }

  lemma EventJsonIsValue(e: Event)
    requires EventIsValue(e)
    ensures IsValue(EventJson(e))
  {
    EventKeysDistinct(e);
    var es := EventEntries(e);
    EntryKinds(e, 0);
    hide EventEntries, DistinctKeys;
    forall x | x in es
      ensures IsValue(x.1)
    {
      var i :| 0 <= i < |es| && es[i] == x;
      EntryKinds(e, i);
    }
  }

  lemma RolesSame(a: Event, b: Event)
    requires Normalize(Arr(Strings(a.effectiveRoles))) == Normalize(Arr(Strings(b.effectiveRoles)))
    ensures a.effectiveRoles == b.effectiveRoles
  {
    var p, q := Strings(a.effectiveRoles), Strings(b.effectiveRoles);
    ItemsOf(Arr(p), p);
    ItemsOf(Arr(q), q);
    var m, n := NormItems(Arr(p), p), NormItems(Arr(q), q);
    assert m == n;
    forall i | 0 <= i < |m|
      ensures a.effectiveRoles[i] == b.effectiveRoles[i]
    {
      assert m[i] == n[i];
    }
  }

  lemma {:induction false} ItemsOf(whole: Json, items: seq<Json>)
    requires forall x | x in items :: x < whole && x.Str?
    ensures forall i :: 0 <= i < |items| ==> items[i] in items && NormItems(whole, items)[i] == NStr(items[i].s)
  {
    if items != [] {
      var rest := items[1..];
      forall x | x in rest
        ensures x in items
      {
      }
      ItemsOf(whole, rest);
      assert NormItems(whole, items)[0] == NStr(items[0].s);
      forall i | 0 < i < |items|
        ensures NormItems(whole, items)[i] == NStr(items[i].s)
      {
        assert items[i] == rest[i - 1];
        assert NormItems(whole, items)[i] == NormItems(whole, rest)[i - 1];
      }
    }
  }

  // Two events have the same text exactly when they agree on all thirteen fields.
  lemma EventTextExactly(a: Event, b: Event)
    requires EventIsValue(a) && EventIsValue(b)
    requires Serializable(OrEmpty(a.summary)) && Serializable(OrEmpty(b.summary))
    ensures Serializable(EventJson(a)) && Serializable(EventJson(b))
    ensures Serialize(EventJson(a)) == Serialize(EventJson(b)) <==> SameEvent(a, b)
  {
    EventSerializable(a);
    EventSerializable(b);
    EventJsonIsValue(a);
    EventJsonIsValue(b);
    CanonicalExactly(EventJson(a), EventJson(b));
    EventKeysDistinct(a);
    EventKeysDistinct(b);
    hide EventEntries, SameFields, Normalize, Serialize, Serializable, DistinctKeys, IsValue;
    ObjectsAreFieldSets(EventEntries(a), EventEntries(b));
    if SameFields(EventEntries(a), EventEntries(b)) { FieldsAgree(a, b); }
    if SameEvent(a, b) { EventsAgree(a, b); }
  }

  lemma EntrySerializable(e: Event, i: nat)
    requires Serializable(EventJson(e)) && i < |EventEntries(e)| && !EventEntries(e)[i].1.Undefined?
    ensures Serializable(EventEntries(e)[i].1)
  {
    var es := EventEntries(e);
    assert EventJson(e) == Obj(es);
    hide EventEntries, EventJson;
    assert es[i] in es;
  }

  lemma SameFieldAt(a: Event, b: Event, i: nat)
    requires Serializable(EventJson(a)) && Serializable(EventJson(b))
    requires SameFields(EventEntries(a), EventEntries(b)) && i < 13
    ensures |EventEntries(a)| == |EventEntries(b)| == 13
    ensures var x, y := EventEntries(a)[i].1, EventEntries(b)[i].1;
            Serializable(x) && Serializable(y) && Normalize(x) == Normalize(y)
  {
    SameKeys(a, b);
    EntryKinds(a, i);
    EntryKinds(b, i);
    EventField(a, i);
    EventField(b, i);
    EntrySerializable(a, i);
    EntrySerializable(b, i);
    hide EventEntries, Field, Normalize, Serializable;
    var p, q := EventEntries(a), EventEntries(b);
    var key := p[i].0;
    assert key == q[i].0;
    var x, y := Field(p, key), Field(q, key);
    assert x.Some? && y.Some? ==> Normalize(x.value) == Normalize(y.value);
  }

  lemma SameKeys(a: Event, b: Event)
    ensures |EventEntries(a)| == |EventEntries(b)| == 13
    ensures forall i :: 0 <= i < 13 ==> EventEntries(a)[i].0 == EventEntries(b)[i].0
  {
  }

  lemma StrSame(a: string, b: string)
    requires Normalize(Str(a)) == Normalize(Str(b))
    ensures a == b
  {
  }

  lemma EntryValues(e: Event)
    ensures |EventEntries(e)| == 13
    ensures var v := EventEntries(e);
            && v[0].1 == Str(e.tenantId) && v[1].1 == Big(e.sequence) && v[2].1 == Str(e.actorUserId)
            && v[3].1 == Str(e.actorDisplay) && v[4].1 == Arr(Strings(e.effectiveRoles)) && v[5].1 == Str(e.action)
            && v[6].1 == Str(e.targetType) && v[7].1 == Str(e.targetId) && v[8].1 == Str(e.requestId)
            && v[9].1 == Str(e.ipAddress) && v[10].1 == Str(e.userAgent) && v[11].1 == OrEmpty(e.summary)
            && v[12].1 == Date(e.occurredAt)
  {
  }

  lemma StringFieldsAgree(a: Event, b: Event)
    requires Serializable(EventJson(a)) && Serializable(EventJson(b))
    requires SameFields(EventEntries(a), EventEntries(b))
    ensures a.tenantId == b.tenantId && a.actorUserId == b.actorUserId && a.actorDisplay == b.actorDisplay
    ensures a.action == b.action && a.targetType == b.targetType && a.targetId == b.targetId
    ensures a.requestId == b.requestId && a.ipAddress == b.ipAddress && a.userAgent == b.userAgent
  {
    EntryValues(a);
    EntryValues(b);
    hide *;
    SameFieldAt(a, b, 0);
    StrSame(a.tenantId, b.tenantId);
    SameFieldAt(a, b, 2);
    StrSame(a.actorUserId, b.actorUserId);
    SameFieldAt(a, b, 3);
    StrSame(a.actorDisplay, b.actorDisplay);
    SameFieldAt(a, b, 5);
    StrSame(a.action, b.action);
    SameFieldAt(a, b, 6);
    StrSame(a.targetType, b.targetType);
    SameFieldAt(a, b, 7);
    StrSame(a.targetId, b.targetId);
    SameFieldAt(a, b, 8);
    StrSame(a.requestId, b.requestId);
    SameFieldAt(a, b, 9);
    StrSame(a.ipAddress, b.ipAddress);
    SameFieldAt(a, b, 10);
    StrSame(a.userAgent, b.userAgent);
  }

  lemma FieldsAgree(a: Event, b: Event)
    requires Serializable(EventJson(a)) && Serializable(EventJson(b))
    requires Serializable(OrEmpty(a.summary)) && Serializable(OrEmpty(b.summary))
    requires SameFields(EventEntries(a), EventEntries(b))
    ensures SameEvent(a, b)
  {
    EntryValues(a);
    EntryValues(b);
    hide EventEntries, SameFields, Field, Normalize, Serializable, Strings;
    StringFieldsAgree(a, b);
    SameFieldAt(a, b, 1);
    BigSame(a.sequence, b.sequence);
    SameFieldAt(a, b, 4);
    RolesSame(a, b);
    SameFieldAt(a, b, 11);
    SameFieldAt(a, b, 12);
    DateSame(a.occurredAt, b.occurredAt);
  }

  lemma OtherFieldsSame(a: Event, b: Event, i: nat)
    requires a.(summary := Null) == b.(summary := Null) && i < 13 && i != 11
    ensures |EventEntries(a)| == |EventEntries(b)| == 13 && EventEntries(a)[i] == EventEntries(b)[i]
  {
    var c, d := a.(summary := Null), b.(summary := Null);
    assert a == c.(summary := a.summary) && b == d.(summary := b.summary);
  }

  lemma EntryAgrees(a: Event, b: Event, i: nat)
    requires Serializable(EventJson(a)) && Serializable(EventJson(b))
    requires SameEvent(a, b) && i < 13
    ensures |EventEntries(a)| == |EventEntries(b)| == 13
    ensures SameValue(EventEntries(a)[i].1, EventEntries(b)[i].1)
  {
    EntryKinds(a, i);
    EntryKinds(b, i);
    hide EventEntries, Normalize;
    if i != 11 { OtherFieldsSame(a, b, i); }
    var p := EventEntries(a);
    assert p[i] in p;
  }

  lemma FieldAgrees(a: Event, b: Event, key: string)
    requires Serializable(EventJson(a)) && Serializable(EventJson(b))
    requires SameEvent(a, b) && Field(EventEntries(a), key).Some?
    ensures Field(EventEntries(b), key).Some?
    ensures SameValue(Field(EventEntries(a), key).value, Field(EventEntries(b), key).value)
  {
    SameKeys(a, b);
    hide EventEntries, Field, SameEvent, SameValue, Serializable;
    var p := EventEntries(a);
    var i :| 0 <= i < |p| && p[i] == (key, Field(p, key).value);
    EventField(a, i);
    EventField(b, i);
    EntryAgrees(a, b, i);
  }

  lemma EventsAgree(a: Event, b: Event)
    requires Serializable(EventJson(a)) && Serializable(EventJson(b))
    requires SameEvent(a, b)
    ensures SameFields(EventEntries(a), EventEntries(b))
  {
    var p, q := EventEntries(a), EventEntries(b);
    hide EventEntries, Field, Normalize, Serializable, SameEvent;
    forall key
      ensures var x, y := Field(p, key), Field(q, key);
              (x.Some? <==> y.Some?) && (x.Some? && y.Some? ==> SameValue(x.value, y.value))
    {
      if Field(p, key).Some? { FieldAgrees(a, b, key); }
      if Field(q, key).Some? {
        SameEventSymmetric(a, b);
        FieldAgrees(b, a, key);
      }
    }
  }

  lemma SameEventSymmetric(a: Event, b: Event)
    requires SameEvent(a, b)
    ensures SameEvent(b, a)
  {
  }

  // ----- the last hash binds the whole chain -----

  ghost predicate Collision(sha: Hash, x: string, y: string) {
    x != y && sha(x) == sha(y)
  }

  predicate SameRow(a: Row, b: Row) {
    SameEvent(a.event, b.event) && a.prevEventHash == b.prevEventHash && a.eventHash == b.eventHash
  }

  // One step back: equal hashes come from equal events on equal previous hashes.
  lemma HashBinds(sha: Hash, p: string, a: Event, q: string, b: Event) returns (x: string, y: string)
    requires |p| == |q| && EventIsValue(a) && EventIsValue(b)
    requires ComputeEventHash(sha, p, a).Some? && ComputeEventHash(sha, p, a) == ComputeEventHash(sha, q, b)
    ensures Collision(sha, x, y) || (p == q && SameEvent(a, b))
  {
    EventSerializable(a);
    EventSerializable(b);
    EventTextExactly(a, b);
    x, y := p + Serialize(EventJson(a)), q + Serialize(EventJson(b));
    if x == y {
      assert p == x[..|p|] == q;
      assert Serialize(EventJson(a)) == x[|p|..] == Serialize(EventJson(b));
    }
  }

  lemma SameEventSequence(a: Event, b: Event)
    requires SameEvent(a, b)
    ensures a.sequence == b.sequence
  {
    assert a.sequence == a.(summary := Null).sequence;
  }

  lemma LinkedPrefix(sha: Hash, rows: seq<Row>, n: nat)
    requires Linked(sha, rows) && n <= |rows|
    ensures Linked(sha, rows[..n])
  {
    forall i | 0 <= i < n
      ensures RowOk(sha, rows[..n], i)
    {
      assert RowOk(sha, rows, i);
      assert HashBefore(rows[..n], i) == HashBefore(rows, i);
    }
  }

  predicate SameRows(sha: Hash, a: seq<Row>, b: seq<Row>) {
    && |a| == |b|
    && forall i :: 0 <= i < |a| ==> RowOk(sha, a, i) && RowOk(sha, b, i) && SameRow(a[i], b[i])
  }

  lemma SameRowsExtend(sha: Hash, a: seq<Row>, b: seq<Row>)
    requires Linked(sha, a) && Linked(sha, b) && |a| == |b| > 0
    requires var m := |a| - 1; RowOk(sha, a, m) && RowOk(sha, b, m) && SameRow(a[m], b[m])
    requires |a| > 1 ==> SameRows(sha, a[..|a| - 1], b[..|a| - 1])
    ensures SameRows(sha, a, b)
  {
    hide SameRow, RowOk;
    forall i | 0 <= i < |a|
      ensures RowOk(sha, a, i) && RowOk(sha, b, i) && SameRow(a[i], b[i])
    {
      assert RowOk(sha, a, i) && RowOk(sha, b, i);
      if i < |a| - 1 {
        assert a[i] == a[..|a| - 1][i] && b[i] == b[..|a| - 1][i];
      }
    }
  }

  // Two verified chains with the same last hash have the same length and the same events all the
  // way down, or two different texts with the same hash are at hand.
  lemma {:induction false} LastHashBinds(sha: Hash, a: seq<Row>, b: seq<Row>) returns (x: string, y: string)
    requires forall s :: |sha(s)| == HASH_LENGTH
    requires Linked(sha, a) && Linked(sha, b) && a != [] && b != []
    requires forall r | r in a :: EventIsValue(r.event)
    requires forall r | r in b :: EventIsValue(r.event)
    requires a[|a| - 1].eventHash == b[|b| - 1].eventHash
    ensures Collision(sha, x, y) || SameRows(sha, a, b)
    decreases |a|
  {
    var m, n := |a| - 1, |b| - 1;
    hide EventIsValue, CanonicalJson, EventJson, SameEvent, SameRows;
    assert RowOk(sha, a, m) && RowOk(sha, b, n);
    assert m > 0 ==> RowOk(sha, a, m - 1);
    assert n > 0 ==> RowOk(sha, b, n - 1);
    x, y := HashBinds(sha, a[m].prevEventHash, a[m].event, b[n].prevEventHash, b[n].event);
    if !Collision(sha, x, y) {
      SameEventSequence(a[m].event, b[n].event);
      assert m == n && SameRow(a[m], b[n]);
      if m > 0 {
        LinkedPrefix(sha, a, m);
        LinkedPrefix(sha, b, n);
        assert a[..m][m - 1] == a[m - 1] && b[..n][n - 1] == b[n - 1];
        x, y := LastHashBinds(sha, a[..m], b[..n]);
      }
      if !Collision(sha, x, y) { SameRowsExtend(sha, a, b); }
    }
  }
}
