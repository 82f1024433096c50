// packages/production/src/validate.ts: release-safety rules over a selection and its parent links.
module ProductionValidate {
  import opened Wrappers
  import opened Text
  import opened Sequences
  import opened Sorting

  datatype Malware = Clean | Unscanned | Suspicious | Infected

  datatype Item = Item(
    evidenceId: string, familyId: Option<string>, parentId: Option<string>, hasFinalRedactions: bool,
    hasPreviewRedactions: bool, isPrivileged: bool, hasPrivilegedDescendant: bool, isArchiveContainer: bool,
    isDuplicate: bool, malware: Malware, hasNative: bool, conversionSupported: bool, processed: bool,
    isEncrypted: bool, hasText: bool, sizeBytes: int, wouldProduceNative: bool, isCorrupt: bool,
    isFamilyChild: Option<bool>)

  datatype Output = PdfOnly | NativesOnly | LoadFile(images: bool, includeText: bool)

  datatype Params = Params(includeFamilies: bool, finalStage: bool, output: Output)

  datatype Code =
    | RedactedNativeLeak | RedactedAncestorNativeLeak | PrivilegedItem | PrivilegedDescendantContainer
    | ArchiveContainer | DuplicateItem | MalwareItem | MissingNative | UnsupportedConversion | UnprocessedItem
    | EncryptedFile | MissingText | ZeroByteItem | CorruptItem | PreviewRedactionsInRelease | FamilySplit

  function Name(c: Code): string {
    match c
    case RedactedNativeLeak => "redacted_native_leak"
    case RedactedAncestorNativeLeak => "redacted_ancestor_native_leak"
    case PrivilegedItem => "privileged_item"
    case PrivilegedDescendantContainer => "privileged_descendant_container"
    case ArchiveContainer => "archive_container"
    case DuplicateItem => "duplicate_item"
    case MalwareItem => "malware_item"
    case MissingNative => "missing_native"
    case UnsupportedConversion => "unsupported_conversion"
    case UnprocessedItem => "unprocessed_item"
    case EncryptedFile => "encrypted_file"
    case MissingText => "missing_text"
    case ZeroByteItem => "zero_byte_item"
    case CorruptItem => "corrupt_item"
    case PreviewRedactionsInRelease => "preview_redactions_in_release"
    case FamilySplit => "family_split"
  }

  datatype Flag = Flag(code: Code, evidenceItemIds: seq<string>)

  // ----- parent links within the selection -----

  predicate UniqueIds(items: seq<Item>) {
    forall i, j :: 0 <= i < j < |items| ==> items[i].evidenceId != items[j].evidenceId
  }

  function Find(items: seq<Item>, id: string): Option<Item> {
    if items == [] then None
    else if items[0].evidenceId == id then Some(items[0])
    else Find(items[1..], id)
  }

  lemma FindIs(items: seq<Item>, id: string)
    ensures var r := Find(items, id);
            if r.Some? then r.value in items && r.value.evidenceId == id
            else forall x :: x in items ==> x.evidenceId != id
  {
    if items != [] { assert items == [items[0]] + items[1..]; }
  }

  lemma FindUnique(items: seq<Item>, x: Item)
    requires UniqueIds(items) && x in items
    ensures Find(items, x.evidenceId) == Some(x)
  {
    FindIs(items, x.evidenceId);
    var y := Find(items, x.evidenceId).value;
    var i :| 0 <= i < |items| && items[i] == x;
    var j :| 0 <= j < |items| && items[j] == y;
  }

  function ParentOf(items: seq<Item>, id: string): Option<string> {
    match Find(items, id)
    case Some(x) => if x.parentId.Some? && Find(items, x.parentId.value).Some? then x.parentId else None
    case None => None
  }

  // The item n parent links above.
  function Up(items: seq<Item>, id: string, n: nat): Option<string>
    decreases n
  {
    if n == 0 then Some(id)
    else match ParentOf(items, id)
      case Some(p) => Up(items, p, n - 1)
      case None => None
  }

  lemma {:induction false} UpAdd(items: seq<Item>, id: string, a: nat, b: nat)
    requires Up(items, id, a).Some?
    ensures Up(items, id, a + b) == Up(items, Up(items, id, a).value, b)
    decreases a
  {
    if a > 0 { UpAdd(items, ParentOf(items, id).value, a - 1, b); }
  }

  ghost predicate Below(items: seq<Item>, d: string, a: string) {
    exists n: nat :: n >= 1 && Up(items, d, n) == Some(a)
  }

  ghost predicate OnCycle(items: seq<Item>, id: string) {
    Below(items, id, id)
  }

  // A cycle anywhere below an item goes through the item: every item has one parent.
  lemma CycleBelow(items: seq<Item>, id: string, root: string)
    requires OnCycle(items, id) && Below(items, id, root)
    ensures OnCycle(items, root)
  {
    var m: nat :| m >= 1 && Up(items, id, m) == Some(id);
    var n: nat :| n >= 1 && Up(items, id, n) == Some(root);
    UpAdd(items, id, m, n);
    UpAdd(items, id, n, m);
    hide Up;
    assert Up(items, root, m) == Some(root);
  }

  ghost predicate HasBelow(items: seq<Item>, item: Item, p: Item -> bool) {
    exists d :: d in items && Below(items, d.evidenceId, item.evidenceId) && p(d)
  }

  ghost predicate HasAbove(items: seq<Item>, item: Item, p: Item -> bool) {
    exists a :: a in items && a.evidenceId != item.evidenceId && Below(items, item.evidenceId, a.evidenceId) && p(a)
  }

  // ----- the walk down -----

  predicate HasParent(items: seq<Item>, c: Item) {
    c.parentId.Some? && Find(items, c.parentId.value).Some?
  }

  // The table of children of the first items of the selection.
  predicate ChildTable(items: seq<Item>, part: seq<Item>, childrenOf: map<string, seq<Item>>) {
    && (forall id, c :: id in childrenOf && c in childrenOf[id] ==> c in part && c.parentId == Some(id))
    && (forall id :: id in childrenOf ==> Find(items, id).Some? && UniqueIds(childrenOf[id]))
    && (forall c :: c in part && HasParent(items, c) ==>
          c.parentId.value in childrenOf && c in childrenOf[c.parentId.value])
  }

  predicate ChildrenOk(items: seq<Item>, childrenOf: map<string, seq<Item>>) {
    ChildTable(items, items, childrenOf)
  }

  function Children(childrenOf: map<string, seq<Item>>, id: string): seq<Item> {
    if id in childrenOf then childrenOf[id] else []
  }

  lemma ChildrenAre(items: seq<Item>, childrenOf: map<string, seq<Item>>, id: string, c: Item)
    requires UniqueIds(items) && ChildrenOk(items, childrenOf)
    ensures c in Children(childrenOf, id) <==> c in items && ParentOf(items, c.evidenceId) == Some(id)
    ensures UniqueIds(Children(childrenOf, id))
  {
    if c in items { FindUnique(items, c); }
  }

  lemma AddChild(items: seq<Item>, part: seq<Item>, item: Item, childrenOf: map<string, seq<Item>>)
    requires ChildTable(items, part, childrenOf) && forall x :: x in part ==> x.evidenceId != item.evidenceId
    ensures var p := item.parentId;
            if HasParent(items, item) then
              ChildTable(items, part + [item],
                         childrenOf[p.value := (if p.value in childrenOf then childrenOf[p.value] else []) + [item]])
            else ChildTable(items, part + [item], childrenOf)
  {
    hide Find;
    assert forall x :: x in part + [item] <==> x in part || x == item;
    if HasParent(items, item) {
      var p := item.parentId.value;
      var siblings := (if p in childrenOf then childrenOf[p] else []) + [item];
      forall i, j | 0 <= i < j < |siblings|
        ensures siblings[i].evidenceId != siblings[j].evidenceId
      {
        if j == |siblings| - 1 { assert siblings[i] in childrenOf[p]; }
      }
    }
  }

  lemma NewId(items: seq<Item>, k: nat)
    requires UniqueIds(items) && k < |items|
    ensures forall x :: x in items[..k] ==> x.evidenceId != items[k].evidenceId
  {
  }

  method BuildChildren(items: seq<Item>) returns (childrenOf: map<string, seq<Item>>)
    requires UniqueIds(items)
    ensures ChildrenOk(items, childrenOf)
  {
    childrenOf := map[];
    assert ChildTable(items, items[..0], childrenOf);
    hide ChildTable, Find, UniqueIds;
    for k := 0 to |items|
      invariant ChildTable(items, items[..k], childrenOf)
    {
      var item := items[k];
      NewId(items, k);
      AddChild(items, items[..k], item, childrenOf);
      assert items[..k + 1] == items[..k] + [item];
      if item.parentId.Some? && Find(items, item.parentId.value).Some? {
        var parentId := item.parentId.value;
        if parentId in childrenOf {
          childrenOf := childrenOf[parentId := childrenOf[parentId] + [item]];
        } else {
          assert [] + [item] == [item];
          childrenOf := childrenOf[parentId := [item]];
        }
      }
    }
    assert items[..|items|] == items;
  }

  // What the loop has still to look at covers every descendant it has not looked at yet.
  ghost predicate Covered(items: seq<Item>, visited: set<string>, stack: seq<Item>, d: string) {
    d in visited || exists k, n: nat :: 0 <= k < |stack| && Up(items, d, n) == Some(stack[k].evidenceId)
  }

  ghost predicate Waiting(items: seq<Item>, root: string, visited: set<string>, s: Item) {
    && s in items && s.evidenceId !in visited && Below(items, s.evidenceId, root)
    && ParentOf(items, s.evidenceId).Some? && ParentOf(items, s.evidenceId).value in visited
  }

  predicate ParentsVisited(items: seq<Item>, root: string, visited: set<string>) {
    root in visited && forall v :: v in visited && v != root ==> ParentOf(items, v).Some? && ParentOf(items, v).value in visited
  }

  ghost predicate Frontier(items: seq<Item>, root: string, visited: set<string>, stack: seq<Item>) {
    && ParentsVisited(items, root, visited)
    && (forall k :: 0 <= k < |stack| ==> Waiting(items, root, visited, stack[k]))
    && UniqueIds(stack)
    && (forall d :: Below(items, d, root) ==> Covered(items, visited, stack, d))
  }

  lemma FrontierStart(items: seq<Item>, childrenOf: map<string, seq<Item>>, root: string)
    requires UniqueIds(items) && !OnCycle(items, root) && ChildrenOk(items, childrenOf)
    ensures Frontier(items, root, {root}, Children(childrenOf, root))
  {
    var stack := Children(childrenOf, root);
    forall c | c in stack
      ensures ParentOf(items, c.evidenceId) == Some(root) && Below(items, c.evidenceId, root) && c in items
    {
      ChildrenAre(items, childrenOf, root, c);
      assert Up(items, c.evidenceId, 1) == Some(root) by { assert Up(items, root, 0) == Some(root); }
    }
    if stack != [] { ChildrenAre(items, childrenOf, root, stack[0]); }
    forall d | Below(items, d, root)
      ensures Covered(items, {root}, stack, d)
    {
      var n: nat :| n >= 1 && Up(items, d, n) == Some(root);
      ChildAbove(items, childrenOf, d, n, root);
    }
  }

  lemma {:induction false} UpBefore(items: seq<Item>, d: string, n: nat)
    requires n >= 1 && Up(items, d, n).Some?
    ensures Up(items, d, n - 1).Some? && ParentOf(items, Up(items, d, n - 1).value) == Up(items, d, n)
    decreases n
  {
    if n > 1 { UpBefore(items, ParentOf(items, d).value, n - 1); }
    else { assert Up(items, ParentOf(items, d).value, 0) == ParentOf(items, d); }
  }

  // One link short of `a` stands a child of `a`.
  lemma ChildAbove(items: seq<Item>, childrenOf: map<string, seq<Item>>, d: string, n: nat, a: string)
    requires UniqueIds(items) && ChildrenOk(items, childrenOf) && n >= 1 && Up(items, d, n) == Some(a)
    ensures exists k :: 0 <= k < |Children(childrenOf, a)| &&
              Up(items, d, n - 1) == Some(Children(childrenOf, a)[k].evidenceId)
  {
    UpBefore(items, d, n);
    var id := Up(items, d, n - 1).value;
    var c := Find(items, id).value;
    FindIs(items, id);
    ChildrenAre(items, childrenOf, a, c);
    var k :| 0 <= k < |Children(childrenOf, a)| && Children(childrenOf, a)[k] == c;
  }

  // A child of a node just taken off the stack is new: not seen, and not waiting.
  lemma KidIsNew(
      items: seq<Item>, childrenOf: map<string, seq<Item>>, root: string, visited: set<string>, stack: seq<Item>, c: Item)
    requires UniqueIds(items) && !OnCycle(items, root) && ChildrenOk(items, childrenOf)
    requires Frontier(items, root, visited, stack) && stack != [] && c in Children(childrenOf, stack[|stack| - 1].evidenceId)
    ensures Kid(items, root, visited, stack, stack[|stack| - 1].evidenceId, c)
  {
    var top := stack[|stack| - 1];
    ChildrenAre(items, childrenOf, top.evidenceId, c);
    assert Waiting(items, root, visited, top);
    var n: nat :| n >= 1 && Up(items, top.evidenceId, n) == Some(root);
    assert Up(items, c.evidenceId, n + 1) == Some(root);
    assert Up(items, c.evidenceId, 1) == Some(top.evidenceId) by {
      assert Up(items, top.evidenceId, 0) == Some(top.evidenceId);
    }
    hide Up, ChildrenOk;
    assert Below(items, c.evidenceId, root) && Below(items, c.evidenceId, top.evidenceId);
    if OnCycle(items, top.evidenceId) { CycleBelow(items, top.evidenceId, root); }
    assert !Below(items, root, root) && !Below(items, top.evidenceId, top.evidenceId);
    hide Below, ParentOf;
    assert top.evidenceId !in visited;
    forall k | 0 <= k < |stack|
      ensures stack[k].evidenceId != c.evidenceId
    {
      assert Waiting(items, root, visited, stack[k]);
    }
  }

  ghost predicate Kid(items: seq<Item>, root: string, visited: set<string>, stack: seq<Item>, top: string, c: Item) {
    && c in items && ParentOf(items, c.evidenceId) == Some(top)
    && Below(items, c.evidenceId, root) && c.evidenceId !in visited && c.evidenceId != top
    && forall k :: 0 <= k < |stack| ==> stack[k].evidenceId != c.evidenceId
  }

  lemma WaitingStep(items: seq<Item>, root: string, visited: set<string>, stack: seq<Item>, kids: seq<Item>)
    requires stack != [] && UniqueIds(stack) && UniqueIds(kids)
    requires forall k :: 0 <= k < |stack| ==> Waiting(items, root, visited, stack[k])
    requires forall k :: 0 <= k < |kids| ==> Kid(items, root, visited, stack, stack[|stack| - 1].evidenceId, kids[k])
    ensures var top, next := stack[|stack| - 1], stack[..|stack| - 1] + kids;
            UniqueIds(next) && forall k :: 0 <= k < |next| ==> Waiting(items, root, visited + {top.evidenceId}, next[k])
  {
    hide Below, ParentOf;
    var top, rest := stack[|stack| - 1], stack[..|stack| - 1];
    UniqueConcat(rest, kids);
    forall k | 0 <= k < |rest + kids|
      ensures Waiting(items, root, visited + {top.evidenceId}, (rest + kids)[k])
    {
      if k < |rest| {
        assert Waiting(items, root, visited, stack[k]);
        assert stack[k].evidenceId != top.evidenceId;
      } else {
        assert Kid(items, root, visited, stack, top.evidenceId, kids[k - |rest|]);
      }
    }
  }

  lemma FrontierStep(items: seq<Item>, childrenOf: map<string, seq<Item>>, root: string, visited: set<string>, stack: seq<Item>)
    requires UniqueIds(items) && !OnCycle(items, root) && ChildrenOk(items, childrenOf)
    requires Frontier(items, root, visited, stack) && stack != []
    ensures var top := stack[|stack| - 1];
            Frontier(items, root, visited + {top.evidenceId}, stack[..|stack| - 1] + Children(childrenOf, top.evidenceId))
  {
    var top := stack[|stack| - 1];
    var kids := Children(childrenOf, top.evidenceId);
    hide Up, ParentOf, Below, ChildrenOk, OnCycle, Children, Covered, Find, UniqueIds, ParentsVisited, Waiting, Kid;
    forall k | 0 <= k < |kids|
      ensures Kid(items, root, visited, stack, top.evidenceId, kids[k])
    {
      KidIsNew(items, childrenOf, root, visited, stack, kids[k]);
    }
    ChildrenAre(items, childrenOf, top.evidenceId, top);
    WaitingStep(items, root, visited, stack, kids);
    CoverStep(items, childrenOf, root, visited, stack);
    WaitingParent(items, root, visited, top);
    ParentsVisitedStep(items, root, visited, top.evidenceId);
  }

  lemma WaitingParent(items: seq<Item>, root: string, visited: set<string>, s: Item)
    requires Waiting(items, root, visited, s)
    ensures ParentOf(items, s.evidenceId).Some? && ParentOf(items, s.evidenceId).value in visited
  {
  }

  lemma ParentsVisitedStep(items: seq<Item>, root: string, visited: set<string>, id: string)
    requires ParentsVisited(items, root, visited) && ParentOf(items, id).Some? && ParentOf(items, id).value in visited
    ensures ParentsVisited(items, root, visited + {id})
  {
    hide ParentOf;
    forall v | v in visited + {id} && v != root
      ensures ParentOf(items, v).Some? && ParentOf(items, v).value in visited + {id}
    {
    }
  }

  lemma UniqueConcat(a: seq<Item>, b: seq<Item>)
    requires UniqueIds(a) && UniqueIds(b)
    requires forall i, j :: 0 <= i < |a| && 0 <= j < |b| ==> a[i].evidenceId != b[j].evidenceId
    ensures UniqueIds(a + b)
  {
  }

  lemma UpZero(items: seq<Item>, d: string)
    ensures Up(items, d, 0) == Some(d)
  {
  }

  lemma CoverStep(items: seq<Item>, childrenOf: map<string, seq<Item>>, root: string, visited: set<string>, stack: seq<Item>)
    requires UniqueIds(items) && ChildrenOk(items, childrenOf) && stack != []
    requires forall d :: Below(items, d, root) ==> Covered(items, visited, stack, d)
    ensures var top := stack[|stack| - 1];
            forall d :: Below(items, d, root) ==>
              Covered(items, visited + {top.evidenceId}, stack[..|stack| - 1] + Children(childrenOf, top.evidenceId), d)
  {
    var top := stack[|stack| - 1];
    var rest, kids := stack[..|stack| - 1], Children(childrenOf, top.evidenceId);
    hide Up, ParentOf, Below, ChildrenOk, Children, Find;
    forall d | Below(items, d, root)
      ensures Covered(items, visited + {top.evidenceId}, rest + kids, d)
    {
      if d !in visited {
        var k, n: nat :| 0 <= k < |stack| && Up(items, d, n) == Some(stack[k].evidenceId);
        if k < |rest| {
          assert (rest + kids)[k] == stack[k];
        } else if n == 0 {
          UpZero(items, d);
        } else {
          ChildAbove(items, childrenOf, d, n, top.evidenceId);
          var j :| 0 <= j < |kids| && Up(items, d, n - 1) == Some(kids[j].evidenceId);
          assert (rest + kids)[|rest| + j] == kids[j];
        }
      }
    }
  }

  function Ids(items: seq<Item>): (r: set<string>)
    ensures forall id :: id in r <==> Find(items, id).Some?
    ensures |r| <= |items|
  {
    if items == [] then {} else {items[0].evidenceId} + Ids(items[1..])
  }

  ghost predicate NoneSeen(items: seq<Item>, seen: set<string>, root: string, p: Item -> bool) {
    forall d :: d in items && d.evidenceId in seen && d.evidenceId != root ==> !p(d)
  }

  lemma NoneSeenAdd(items: seq<Item>, seen: set<string>, root: string, p: Item -> bool, x: Item)
    requires UniqueIds(items) && x in items && NoneSeen(items, seen, root, p) && !p(x)
    ensures NoneSeen(items, seen + {x.evidenceId}, root, p)
  {
    forall d | d in items && d.evidenceId == x.evidenceId
      ensures d == x
    {
      FindUnique(items, d);
      FindUnique(items, x);
    }
  }

  lemma TopIs(items: seq<Item>, root: string, visited: set<string>, stack: seq<Item>)
    requires Frontier(items, root, visited, stack) && stack != [] && visited <= Ids(items)
    ensures var top := stack[|stack| - 1];
            && top in items && top.evidenceId !in visited && Below(items, top.evidenceId, root)
            && visited + {top.evidenceId} <= Ids(items) && |visited| < |visited + {top.evidenceId}| <= |Ids(items)|
  {
    hide Below, Up, ParentOf, Covered;
    var top := stack[|stack| - 1];
    assert Waiting(items, root, visited, top);
    FindIs(items, top.evidenceId);
    SubsetCount(visited + {top.evidenceId}, Ids(items));
  }

  lemma NothingLeft(items: seq<Item>, root: string, visited: set<string>, p: Item -> bool)
    requires !OnCycle(items, root) && Frontier(items, root, visited, []) && NoneSeen(items, visited, root, p)
    ensures forall d :: d in items && Below(items, d.evidenceId, root) ==> !p(d)
  {
    hide Below;
    forall d | d in items && Below(items, d.evidenceId, root)
      ensures !p(d)
    {
      assert Covered(items, visited, [], d.evidenceId);
    }
  }

  // The depth-first walk finds what lies below, however deep. It keeps no visited set, so the item must
  // not be on a cycle of parent links: see WalkEndsExactly.
  method DescendantHas(items: seq<Item>, childrenOf: map<string, seq<Item>>, item: Item, p: Item -> bool) returns (found: bool)
    requires UniqueIds(items) && ChildrenOk(items, childrenOf) && item in items && !OnCycle(items, item.evidenceId)
    ensures found <==> HasBelow(items, item, p)
  {
    hide Below, Up, ParentOf, OnCycle, UniqueIds, ChildrenOk, Frontier, Children, Find;
    var root := item.evidenceId;
    var stack := Children(childrenOf, root);
    ghost var visited := {root};
    FrontierStart(items, childrenOf, root);
    FindUnique(items, item);
    while |stack| > 0
      invariant Frontier(items, root, visited, stack) && visited <= Ids(items)
      invariant NoneSeen(items, visited, root, p)
      decreases |Ids(items)| - |visited|
    {
      var current := stack[|stack| - 1];
      TopIs(items, root, visited, stack);
      FrontierStep(items, childrenOf, root, visited, stack);
      if p(current) { return true; }
      NoneSeenAdd(items, visited, root, p, current);
      stack := stack[..|stack| - 1] + Children(childrenOf, current.evidenceId);
      visited := visited + {current.evidenceId};
    }
    assert stack == [];
    NothingLeft(items, root, visited, p);
    return false;
  }

  // ----- when the walk down ends -----

  // One turn of the loop above on a stack whose top does not satisfy the predicate.
  function Turn(childrenOf: map<string, seq<Item>>, stack: seq<Item>): seq<Item>
    requires stack != []
  {
    stack[..|stack| - 1] + Children(childrenOf, stack[|stack| - 1].evidenceId)
  }

  // The loop runs out of stack within n turns, having found nothing.
  predicate RunsOut(childrenOf: map<string, seq<Item>>, stack: seq<Item>, p: Item -> bool, n: nat)
    decreases n
  {
    stack == [] || (n > 0 && !p(stack[|stack| - 1]) && RunsOut(childrenOf, Turn(childrenOf, stack), p, n - 1))
  }

  // Some item of the stack is the root, or above it.
  ghost predicate HoldsCycle(items: seq<Item>, root: string, stack: seq<Item>) {
    exists k, m: nat :: 0 <= k < |stack| && Up(items, root, m) == Some(stack[k].evidenceId)
  }

  // Of a root on a cycle, the children of any item at or above it hold another such item.
  lemma KidsHoldCycle(items: seq<Item>, childrenOf: map<string, seq<Item>>, root: string, m: nat, a: string)
    requires UniqueIds(items) && ChildrenOk(items, childrenOf) && OnCycle(items, root) && Up(items, root, m) == Some(a)
    ensures HoldsCycle(items, root, Children(childrenOf, a))
  {
    if m == 0 {
      assert a == root;
      var n: nat :| n >= 1 && Up(items, root, n) == Some(root);
      hide Up;
      ChildAbove(items, childrenOf, root, n, a);
    } else {
      hide Up;
      ChildAbove(items, childrenOf, root, m, a);
    }
  }

  lemma TurnHoldsCycle(items: seq<Item>, childrenOf: map<string, seq<Item>>, root: string, stack: seq<Item>)
    requires UniqueIds(items) && ChildrenOk(items, childrenOf) && OnCycle(items, root) && HoldsCycle(items, root, stack)
    ensures HoldsCycle(items, root, Turn(childrenOf, stack))
  {
    hide Up, OnCycle, UniqueIds, ChildrenOk, Children;
    var k, m: nat :| 0 <= k < |stack| && Up(items, root, m) == Some(stack[k].evidenceId);
    var top, next := stack[|stack| - 1], Turn(childrenOf, stack);
    if k < |stack| - 1 {
      assert next[k] == stack[k];
    } else {
      KidsHoldCycle(items, childrenOf, root, m, top.evidenceId);
      var kids := Children(childrenOf, top.evidenceId);
      var j, n: nat :| 0 <= j < |kids| && Up(items, root, n) == Some(kids[j].evidenceId);
      assert next[|stack| - 1 + j] == kids[j];
    }
  }

  lemma {:induction false} CycleNeverRunsOut(
      items: seq<Item>, childrenOf: map<string, seq<Item>>, root: string, stack: seq<Item>, p: Item -> bool, n: nat)
    requires UniqueIds(items) && ChildrenOk(items, childrenOf) && OnCycle(items, root) && HoldsCycle(items, root, stack)
    ensures !RunsOut(childrenOf, stack, p, n)
    decreases n
  {
    hide UniqueIds, ChildrenOk, OnCycle;
    if n > 0 {
      TurnHoldsCycle(items, childrenOf, root, stack);
      CycleNeverRunsOut(items, childrenOf, root, Turn(childrenOf, stack), p, n - 1);
    }
  }

  ghost predicate EndsEmpty(childrenOf: map<string, seq<Item>>, stack: seq<Item>, p: Item -> bool) {
    exists n: nat :: RunsOut(childrenOf, stack, p, n)
  }

  lemma OneTurnMore(childrenOf: map<string, seq<Item>>, stack: seq<Item>, p: Item -> bool)
    requires stack != []
    ensures EndsEmpty(childrenOf, stack, p) <==> !p(stack[|stack| - 1]) && EndsEmpty(childrenOf, Turn(childrenOf, stack), p)
  {
    var next := Turn(childrenOf, stack);
    if EndsEmpty(childrenOf, next, p) && !p(stack[|stack| - 1]) {
      var n: nat :| RunsOut(childrenOf, next, p, n);
      assert RunsOut(childrenOf, stack, p, n + 1);
    }
    if EndsEmpty(childrenOf, stack, p) {
      var n: nat :| RunsOut(childrenOf, stack, p, n);
      assert RunsOut(childrenOf, next, p, n - 1);
    }
  }

  // Off every cycle: it runs out exactly when nothing below has the property.
  lemma {:induction false} OffCycleRunsOut(
      items: seq<Item>, childrenOf: map<string, seq<Item>>, item: Item, visited: set<string>, stack: seq<Item>, p: Item -> bool)
    requires UniqueIds(items) && ChildrenOk(items, childrenOf) && !OnCycle(items, item.evidenceId)
    requires Frontier(items, item.evidenceId, visited, stack) && visited <= Ids(items) && NoneSeen(items, visited, item.evidenceId, p)
    ensures EndsEmpty(childrenOf, stack, p) <==> !HasBelow(items, item, p)
    decreases |Ids(items)| - |visited|
  {
    hide Below, OnCycle, UniqueIds, ChildrenOk, Frontier;
    if stack == [] {
      NothingLeft(items, item.evidenceId, visited, p);
      assert RunsOut(childrenOf, stack, p, 0);
    } else {
      var current := stack[|stack| - 1];
      TopIs(items, item.evidenceId, visited, stack);
      assert p(current) ==> HasBelow(items, item, p);
      OneTurnMore(childrenOf, stack, p);
      hide HasBelow, EndsEmpty;
      if !p(current) {
        FrontierStep(items, childrenOf, item.evidenceId, visited, stack);
        NoneSeenAdd(items, visited, item.evidenceId, p, current);
        hide NoneSeen, Children;
        OffCycleRunsOut(items, childrenOf, item, visited + {current.evidenceId}, Turn(childrenOf, stack), p);
      }
    }
  }

  // The walk down from an item ends without a finding exactly when nothing below has the property and the
  // item is not on a cycle of parent links, of whatever length and with whatever hangs from it. On a
  // cycle it ends only by finding.
  lemma WalkEndsExactly(items: seq<Item>, childrenOf: map<string, seq<Item>>, item: Item, p: Item -> bool)
    requires UniqueIds(items) && ChildrenOk(items, childrenOf) && item in items
    ensures EndsEmpty(childrenOf, Children(childrenOf, item.evidenceId), p) <==>
            !OnCycle(items, item.evidenceId) && !HasBelow(items, item, p)
  {
    var root := item.evidenceId;
    if OnCycle(items, root) {
      UpZero(items, root);
      KidsHoldCycle(items, childrenOf, root, 0, root);
      forall n: nat
        ensures !RunsOut(childrenOf, Children(childrenOf, root), p, n)
      {
        CycleNeverRunsOut(items, childrenOf, root, Children(childrenOf, root), p, n);
      }
    } else {
      FrontierStart(items, childrenOf, root);
      FindUnique(items, item);
      hide Frontier, Below, ChildrenOk, UniqueIds, OnCycle, EndsEmpty;
      OffCycleRunsOut(items, childrenOf, item, {root}, Children(childrenOf, root), p);
    }
  }

  // ----- the walk up -----

  ghost predicate PassedAt(items: seq<Item>, id: string, steps: nat, x: string) {
    exists m: nat :: m <= steps && Up(items, id, m) == Some(x)
  }

  // After `steps` links up from `id`: the seen ids are those passed.
  ghost predicate Climb(items: seq<Item>, id: string, at: string, steps: nat, seen: set<string>) {
    && Up(items, id, steps) == Some(at) && seen <= Ids(items)
    && (forall n: nat :: n <= steps ==> Up(items, id, n).Some? && Up(items, id, n).value in seen)
    && (forall x :: x in seen ==> PassedAt(items, id, steps, x))
  }

  lemma ParentExists(items: seq<Item>, id: string)
    requires ParentOf(items, id).Some?
    ensures ParentOf(items, id).value in Ids(items)
  {
  }

  lemma ClimbOn(items: seq<Item>, id: string, at: string, steps: nat, seen: set<string>, next: string)
    requires Climb(items, id, at, steps, seen) && ParentOf(items, at) == Some(next) && next !in seen
    ensures Climb(items, id, next, steps + 1, seen + {next}) && Below(items, id, next)
    ensures |seen| < |seen + {next}| <= |Ids(items)|
  {
    ParentAfter(items, id, steps, at);
    ParentExists(items, at);
    hide Up, ParentOf, Find;
    assert Up(items, id, steps + 1) == Some(next);
    SubsetCount(seen + {next}, Ids(items));
    forall n: nat | n <= steps + 1
      ensures Up(items, id, n).Some? && Up(items, id, n).value in seen + {next}
    {
    }
    forall x | x in seen + {next}
      ensures PassedAt(items, id, steps + 1, x)
    {
      if x in seen { assert PassedAt(items, id, steps, x); }
    }
  }

  // Above an item without a parent in the selection there is nothing; above one whose parent was seen,
  // only what was seen.
  lemma {:induction false} ClimbEnds(items: seq<Item>, id: string, at: string, steps: nat, seen: set<string>, n: nat)
    requires Climb(items, id, at, steps, seen) && Up(items, id, n).Some?
    requires ParentOf(items, at).Some? ==> ParentOf(items, at).value in seen
    ensures Up(items, id, n).value in seen
    decreases n
  {
    hide Up, ParentOf, Find;
    if n > steps {
      UpBefore(items, id, n);
      ClimbEnds(items, id, at, steps, seen, n - 1);
      var x := Up(items, id, n - 1).value;
      assert PassedAt(items, id, steps, x);
      var m: nat :| m <= steps && Up(items, id, m) == Some(x);
      ParentAfter(items, id, m, x);
      if m < steps { assert Up(items, id, m + 1).value in seen; }
    }
  }

  lemma ParentAfter(items: seq<Item>, id: string, m: nat, x: string)
    requires Up(items, id, m) == Some(x)
    ensures Up(items, id, m + 1) == ParentOf(items, x)
  {
    UpAdd(items, id, m, 1);
    if ParentOf(items, x).Some? { assert Up(items, ParentOf(items, x).value, 0) == ParentOf(items, x); }
  }

  lemma NothingAbove(items: seq<Item>, id: string, at: string, steps: nat, seen: set<string>, p: Item -> bool)
    requires Climb(items, id, at, steps, seen) && NoneSeen(items, seen, id, p)
    requires ParentOf(items, at).Some? ==> ParentOf(items, at).value in seen
    ensures forall a :: a in items && a.evidenceId != id && Below(items, id, a.evidenceId) ==> !p(a)
  {
    forall a | a in items && a.evidenceId != id && Below(items, id, a.evidenceId)
      ensures !p(a)
    {
      var n: nat :| n >= 1 && Up(items, id, n) == Some(a.evidenceId);
      ClimbEnds(items, id, at, steps, seen, n);
    }
  }

  lemma ClimbStart(items: seq<Item>, item: Item)
    requires UniqueIds(items) && item in items
    ensures Climb(items, item.evidenceId, item.evidenceId, 0, {item.evidenceId})
    ensures ParentOf(items, item.evidenceId) == if HasParent(items, item) then item.parentId else None
  {
    FindUnique(items, item);
  }

  lemma ParentIs(items: seq<Item>, x: Item)
    requires UniqueIds(items) && x in items
    ensures ParentOf(items, x.evidenceId) == if HasParent(items, x) then x.parentId else None
  {
    FindUnique(items, x);
  }

  // The ancestor walk ends on every selection, cycles included, and finds what lies above, save that
  // an item on a cycle does not count as its own ancestor.
  method AncestorHas(items: seq<Item>, item: Item, p: Item -> bool) returns (found: bool)
    requires UniqueIds(items) && item in items
    ensures found <==> HasAbove(items, item, p)
  {
    hide Below, Up, ParentOf, UniqueIds, Climb;
    var parentId := item.parentId;
    var seen := {item.evidenceId};
    ghost var at, steps := item, 0;
    ClimbStart(items, item);
    while parentId.Some? && parentId.value !in seen
      invariant Climb(items, item.evidenceId, at.evidenceId, steps, seen)
      invariant at in items && parentId == at.parentId && item.evidenceId in seen
      invariant NoneSeen(items, seen, item.evidenceId, p)
      decreases |Ids(items)| - |seen|
    {
      ParentIs(items, at);
      var id := parentId.value;
      var parent := Find(items, id);
      if parent.None? {
        NothingAbove(items, item.evidenceId, at.evidenceId, steps, seen, p);
        return false;
      }
      FindIs(items, id);
      ClimbOn(items, item.evidenceId, at.evidenceId, steps, seen, id);
      if p(parent.value) { return true; }
      NoneSeenAdd(items, seen, item.evidenceId, p, parent.value);
      seen := seen + {id};
      at, steps := parent.value, steps + 1;
      parentId := parent.value.parentId;
    }
    ParentIs(items, at);
    NothingAbove(items, item.evidenceId, at.evidenceId, steps, seen, p);
    return false;
  }

  // The two walks look along the same links: some item with one property has one with the other below it
  // exactly when some item with the other has one with the first above it. (An item on a cycle is below
  // itself, but not above itself.)
  lemma WalksAreDual(items: seq<Item>, p: Item -> bool, q: Item -> bool)
    requires forall x :: x in items && p(x) && q(x) ==> !OnCycle(items, x.evidenceId)
    requires UniqueIds(items)
    ensures (exists a :: a in items && p(a) && HasBelow(items, a, q)) <==> (exists d :: d in items && q(d) && HasAbove(items, d, p))
  {
    hide Below;
    if a :| a in items && p(a) && HasBelow(items, a, q) {
      var d :| d in items && Below(items, d.evidenceId, a.evidenceId) && q(d);
      if d.evidenceId == a.evidenceId {
        FindUnique(items, a);
        FindUnique(items, d);
      }
      assert HasAbove(items, d, p);
    }
    if d :| d in items && q(d) && HasAbove(items, d, p) {
      var a :| a in items && a.evidenceId != d.evidenceId && Below(items, d.evidenceId, a.evidenceId) && p(a);
      assert HasBelow(items, a, q);
    }
  }

  // ----- what each code flags -----

  function Redacted(): Item -> bool {
    (x: Item) => x.hasFinalRedactions
  }

  function Privileged(): Item -> bool {
    (x: Item) => x.isPrivileged
  }

  predicate IsChild(m: Item) {
    if m.isFamilyChild.Some? then m.isFamilyChild.value else m.parentId.Some?
  }

  // The whole of its family in the selection is of its kind: only children, or no child.
  predicate Splits(items: seq<Item>, item: Item) {
    item.familyId.Some? && forall x :: x in items && x.familyId == item.familyId ==> IsChild(x) == IsChild(item)
  }

  predicate RendersImages(o: Output) {
    o.PdfOnly? || (o.LoadFile? && o.images)
  }

  ghost predicate Offends(items: seq<Item>, params: Params, c: Code, x: Item) {
    match c
    case RedactedNativeLeak => x.wouldProduceNative && (x.hasFinalRedactions || HasBelow(items, x, Redacted()))
    case RedactedAncestorNativeLeak => x.wouldProduceNative && HasAbove(items, x, Redacted())
    case PrivilegedItem => x.isPrivileged
    case PrivilegedDescendantContainer => !x.isPrivileged && (x.hasPrivilegedDescendant || HasBelow(items, x, Privileged()))
    case ArchiveContainer => x.isArchiveContainer
    case DuplicateItem => x.isDuplicate
    case MalwareItem => x.malware.Infected? || x.malware.Suspicious?
    case MissingNative => (params.output.NativesOnly? || x.wouldProduceNative) && !x.hasNative
    case UnsupportedConversion => RendersImages(params.output) && !x.conversionSupported
    case UnprocessedItem => !x.processed
    case EncryptedFile => x.isEncrypted
    case MissingText => params.output.LoadFile? && params.output.includeText && !x.hasText
    case ZeroByteItem => x.sizeBytes == 0
    case CorruptItem => x.isCorrupt
    case PreviewRedactionsInRelease => params.finalStage && x.hasPreviewRedactions
    case FamilySplit => params.includeFamilies && Splits(items, x)
  }

  ghost predicate OffendsId(items: seq<Item>, params: Params, c: Code, id: string) {
    exists x :: x in items && x.evidenceId == id && Offends(items, params, c, x)
  }

  predicate Ascending(ids: seq<string>) {
    Sorted(ids, AtMost) && Unique(ids)
  }

  predicate FlagBefore(f: Flag, g: Flag) {
    AtMost(Name(f.code), Name(g.code))
  }

  // One flag for each code that some item offends against, in the order of their names, each with the
  // ids of exactly the offending items, ascending and without repetition.
  ghost predicate IsReport(items: seq<Item>, params: Params, flags: seq<Flag>) {
    && Sorted(flags, FlagBefore)
    && (forall i, j :: 0 <= i < j < |flags| ==> flags[i].code != flags[j].code)
    && (forall f :: f in flags ==> Reports(items, params, f))
    && (forall c, id :: OffendsId(items, params, c, id) ==> exists f :: f in flags && f.code == c)
  }

  // ----- the program -----

  function If(b: bool, c: Code): seq<Code> {
    if b then [c] else []
  }

  // Five checks in a row.
  function Ifs(a: bool, c: Code, b: bool, d: Code, e: bool, f: Code, g: bool, h: Code, k: bool, m: Code): (r: seq<Code>)
    ensures forall x :: x in r <==> (a && x == c) || (b && x == d) || (e && x == f) || (g && x == h) || (k && x == m)
  {
    If(a, c) + If(b, d) + If(e, f) + If(g, h) + If(k, m)
  }

  // The checks of the main loop, given what the three walks found.
  function Checks(params: Params, x: Item, redactedBelow: bool, redactedAbove: bool, privilegedBelow: bool): seq<Code> {
    Ifs(x.wouldProduceNative && (x.hasFinalRedactions || redactedBelow), RedactedNativeLeak,
        x.wouldProduceNative && redactedAbove, RedactedAncestorNativeLeak,
        x.isPrivileged, PrivilegedItem,
        !x.isPrivileged && (x.hasPrivilegedDescendant || privilegedBelow), PrivilegedDescendantContainer,
        x.isArchiveContainer, ArchiveContainer)
    + Ifs(x.isDuplicate, DuplicateItem,
          x.malware.Infected? || x.malware.Suspicious?, MalwareItem,
          (params.output.NativesOnly? || x.wouldProduceNative) && !x.hasNative, MissingNative,
          RendersImages(params.output) && !x.conversionSupported, UnsupportedConversion,
          !x.processed, UnprocessedItem)
    + Ifs(x.isEncrypted, EncryptedFile,
          params.output.LoadFile? && params.output.includeText && !x.hasText, MissingText,
          x.sizeBytes == 0, ZeroByteItem,
          x.isCorrupt, CorruptItem,
          params.finalStage && x.hasPreviewRedactions, PreviewRedactionsInRelease)
  }

  predicate AsksRedactedBelow(x: Item) {
    x.wouldProduceNative && !x.hasFinalRedactions
  }

  predicate AsksPrivilegedBelow(x: Item) {
    !x.isPrivileged && !x.hasPrivilegedDescendant
  }

  // No item from which the loop walks down is on a cycle.
  ghost predicate WalksEnd(items: seq<Item>) {
    forall x :: x in items && (AsksRedactedBelow(x) || AsksPrivilegedBelow(x)) ==> !OnCycle(items, x.evidenceId)
  }

  lemma ChecksAre(items: seq<Item>, params: Params, x: Item, redactedBelow: bool, redactedAbove: bool, privilegedBelow: bool, c: Code)
    requires AsksRedactedBelow(x) ==> redactedBelow == HasBelow(items, x, Redacted())
    requires x.wouldProduceNative ==> redactedAbove == HasAbove(items, x, Redacted())
    requires AsksPrivilegedBelow(x) ==> privilegedBelow == HasBelow(items, x, Privileged())
    ensures c in Checks(params, x, redactedBelow, redactedAbove, privilegedBelow) <==> !c.FamilySplit? && Offends(items, params, c, x)
  {
    hide HasBelow, HasAbove, Splits, RendersImages, Ifs;
  }

  // The codes an item adds itself to in the main loop; a walk is made only where its answer matters.
  method CodesOf(items: seq<Item>, childrenOf: map<string, seq<Item>>, params: Params, x: Item) returns (codes: seq<Code>)
    requires UniqueIds(items) && WalksEnd(items) && ChildrenOk(items, childrenOf) && x in items
    ensures forall c :: c in codes <==> !c.FamilySplit? && Offends(items, params, c, x)
  {
    hide UniqueIds, OnCycle, ChildrenOk, HasBelow, HasAbove, Checks, Offends;
    var redactedBelow, redactedAbove, privilegedBelow := false, false, false;
    if x.wouldProduceNative && !x.hasFinalRedactions {
      redactedBelow := DescendantHas(items, childrenOf, x, Redacted());
    }
    if x.wouldProduceNative {
      redactedAbove := AncestorHas(items, x, Redacted());
    }
    if !x.isPrivileged && !x.hasPrivilegedDescendant {
      privilegedBelow := DescendantHas(items, childrenOf, x, Privileged());
    }
    codes := Checks(params, x, redactedBelow, redactedAbove, privilegedBelow);
    forall c
      ensures c in codes <==> !c.FamilySplit? && Offends(items, params, c, x)
    {
      ChecksAre(items, params, x, redactedBelow, redactedAbove, privilegedBelow, c);
    }
  }

  function Members(items: seq<Item>, f: string): (r: seq<Item>)
    ensures forall x :: x in r <==> x in items && x.familyId == Some(f)
  {
    if items == [] then []
    else
      assert items == [items[0]] + items[1..];
      (if items[0].familyId == Some(f) then [items[0]] else []) + Members(items[1..], f)
  }

  function Where(items: seq<Item>, child: bool): (r: seq<Item>)
    ensures forall x :: x in r <==> x in items && IsChild(x) == child
  {
    if items == [] then []
    else
      assert items == [items[0]] + items[1..];
      (if IsChild(items[0]) == child then [items[0]] else []) + Where(items[1..], child)
  }

  function IdsOf(items: seq<Item>): (r: seq<string>)
    ensures |r| == |items| && forall i :: 0 <= i < |r| ==> r[i] == items[i].evidenceId
  {
    seq(|items|, i requires 0 <= i < |items| => items[i].evidenceId)
  }

  // The ids one family contributes to family_split.
  method SplitIds(items: seq<Item>, f: string) returns (ids: seq<string>)
    ensures forall id :: id in ids <==> exists x :: x in items && x.familyId == Some(f) && Splits(items, x) && x.evidenceId == id
  {
    var members := Members(items, f);
    var children, parents := Where(members, true), Where(members, false);
    if |parents| == 0 && |children| > 0 {
      ids := IdsOf(children);
      assert forall x :: x in members ==> IsChild(x) by { assert forall x :: x !in parents; }
      assert forall x :: x in members ==> Splits(items, x) && x in children;
      AllIds(children);
    } else if |parents| > 0 && |children| == 0 {
      ids := IdsOf(parents);
      assert forall x :: x in members ==> !IsChild(x) by { assert forall x :: x !in children; }
      assert forall x :: x in members ==> Splits(items, x) && x in parents;
      AllIds(parents);
    } else {
      ids := [];
      if |members| > 0 { MixedFamily(items, f, members, children, parents); }
      assert forall x :: x in items && x.familyId == Some(f) ==> x in members && !Splits(items, x);
    }
  }

  lemma AllIds(part: seq<Item>)
    ensures forall id :: id in IdsOf(part) <==> exists x :: x in part && x.evidenceId == id
  {
    forall x | x in part
      ensures x.evidenceId in IdsOf(part)
    {
      var i :| 0 <= i < |part| && part[i] == x;
      assert IdsOf(part)[i] == x.evidenceId;
    }
  }

  lemma MixedFamily(items: seq<Item>, f: string, members: seq<Item>, children: seq<Item>, parents: seq<Item>)
    requires members == Members(items, f) && children == Where(members, true) && parents == Where(members, false)
    requires members != [] && !(|parents| == 0 && |children| > 0) && !(|parents| > 0 && |children| == 0)
    ensures forall x :: x in items && x.familyId == Some(f) ==> !Splits(items, x)
  {
    assert members[0] in children || members[0] in parents;
    var c, p := children[0], parents[0];
    assert c in children && p in parents;
  }

  type Offenders = map<Code, seq<string>>

  function Add(offenders: Offenders, c: Code, id: string): Offenders {
    offenders[c := (if c in offenders then offenders[c] else []) + [id]]
  }

  predicate Has(offenders: Offenders, c: Code, id: string) {
    c in offenders && id in offenders[c]
  }

  predicate NoEmpty(offenders: Offenders) {
    forall c :: c in offenders ==> offenders[c] != []
  }

  lemma AddHas(offenders: Offenders, c: Code, id: string)
    requires NoEmpty(offenders)
    ensures NoEmpty(Add(offenders, c, id))
    ensures forall d, i :: Has(Add(offenders, c, id), d, i) <==> Has(offenders, d, i) || (d == c && i == id)
  {
  }

  method AddAll(offenders: Offenders, codes: seq<Code>, id: string) returns (r: Offenders)
    requires NoEmpty(offenders)
    ensures NoEmpty(r)
    ensures forall c, i :: Has(r, c, i) <==> Has(offenders, c, i) || (c in codes && i == id)
  {
    r := offenders;
    for k := 0 to |codes|
      invariant NoEmpty(r)
      invariant forall c, i :: Has(r, c, i) <==> Has(offenders, c, i) || (c in codes[..k] && i == id)
    {
      assert forall c :: c in codes[..k + 1] <==> c in codes[..k] || c == codes[k];
      AddHas(r, codes[k], id);
      hide Has, NoEmpty, Add;
      r := Add(r, codes[k], id);
    }
    assert codes[..|codes|] == codes;
  }

  method AddIds(offenders: Offenders, code: Code, ids: seq<string>) returns (r: Offenders)
    requires NoEmpty(offenders)
    ensures NoEmpty(r)
    ensures forall c, i :: Has(r, c, i) <==> Has(offenders, c, i) || (c == code && i in ids)
  {
    r := offenders;
    for k := 0 to |ids|
      invariant NoEmpty(r)
      invariant forall c, i :: Has(r, c, i) <==> Has(offenders, c, i) || (c == code && i in ids[..k])
    {
      assert forall i :: i in ids[..k + 1] <==> i in ids[..k] || i == ids[k];
      AddHas(r, code, ids[k]);
      hide Has, NoEmpty, Add;
      r := Add(r, code, ids[k]);
    }
    assert ids[..|ids|] == ids;
  }

  // Offences of the first items, family_split apart.
  ghost predicate Noted(items: seq<Item>, params: Params, n: nat, c: Code, id: string)
    requires n <= |items|
  {
    !c.FamilySplit? && exists j :: 0 <= j < n && items[j].evidenceId == id && Offends(items, params, c, items[j])
  }

  method MainLoop(items: seq<Item>, params: Params) returns (offenders: Offenders)
    requires UniqueIds(items) && WalksEnd(items)
    ensures NoEmpty(offenders)
    ensures forall c, id :: Has(offenders, c, id) <==> !c.FamilySplit? && OffendsId(items, params, c, id)
  {
    hide UniqueIds, WalksEnd, ChildrenOk, Offends, Has, NoEmpty;
    var childrenOf := BuildChildren(items);
    offenders := map[];
    NoneHas();
    for k := 0 to |items|
      invariant NoEmpty(offenders)
      invariant forall c, id :: Has(offenders, c, id) <==> Noted(items, params, k, c, id)
    {
      var codes := CodesOf(items, childrenOf, params, items[k]);
      offenders := AddAll(offenders, codes, items[k].evidenceId);
    }
    forall c, id
      ensures Noted(items, params, |items|, c, id) <==> !c.FamilySplit? && OffendsId(items, params, c, id)
    {
      if !c.FamilySplit? && OffendsId(items, params, c, id) {
        var x :| x in items && x.evidenceId == id && Offends(items, params, c, x);
        var j :| 0 <= j < |items| && items[j] == x;
      }
    }
  }

  lemma NoneHas()
    ensures NoEmpty(map[]) && forall c, id :: !Has(map[], c, id)
  {
  }

  method FamilyLoop(items: seq<Item>, params: Params, before: Offenders) returns (offenders: Offenders)
    requires NoEmpty(before)
    ensures NoEmpty(offenders)
    ensures forall c, id :: Has(offenders, c, id) <==>
              Has(before, c, id) || (c.FamilySplit? && OffendsId(items, params, c, id))
  {
    hide Has, NoEmpty, Splits;
    offenders := before;
    if params.includeFamilies {
      var families := set x | x in items && x.familyId.Some? :: x.familyId.value;
      ghost var all, done := families, {};
      while families != {}
        invariant NoEmpty(offenders) && families + done == all
        invariant forall c, id :: Has(offenders, c, id) <==> Has(before, c, id) || (c.FamilySplit? && SplitIn(items, done, id))
        decreases |families|
      {
        var f :| f in families;
        var ids := SplitIds(items, f);
        offenders := AddIds(offenders, FamilySplit, ids);
        SplitInMore(items, done, f, ids);
        families := families - {f};
        done := done + {f};
      }
      forall id
        ensures SplitIn(items, done, id) <==> OffendsId(items, params, FamilySplit, id)
      {
        SplitInAll(items, params, all, id);
      }
    }
  }

  ghost predicate SplitIn(items: seq<Item>, families: set<string>, id: string) {
    exists x :: x in items && x.familyId.Some? && x.familyId.value in families && Splits(items, x) && x.evidenceId == id
  }

  lemma SplitInMore(items: seq<Item>, done: set<string>, f: string, ids: seq<string>)
    requires forall id :: id in ids <==> exists x :: x in items && x.familyId == Some(f) && Splits(items, x) && x.evidenceId == id
    ensures forall id :: SplitIn(items, done + {f}, id) <==> SplitIn(items, done, id) || id in ids
  {
    hide Splits;
    forall id
      ensures SplitIn(items, done + {f}, id) <==> SplitIn(items, done, id) || id in ids
    {
      if SplitIn(items, done + {f}, id) {
        var x :| x in items && x.familyId.Some? && x.familyId.value in done + {f} && Splits(items, x) && x.evidenceId == id;
      }
      if id in ids {
        var x :| x in items && x.familyId == Some(f) && Splits(items, x) && x.evidenceId == id;
      }
    }
  }

  lemma SplitInAll(items: seq<Item>, params: Params, all: set<string>, id: string)
    requires params.includeFamilies
    requires all == set x | x in items && x.familyId.Some? :: x.familyId.value
    ensures SplitIn(items, all, id) <==> OffendsId(items, params, FamilySplit, id)
  {
    if OffendsId(items, params, FamilySplit, id) {
      var x :| x in items && x.evidenceId == id && Offends(items, params, FamilySplit, x);
      assert x.familyId.value in all;
    }
  }

  // [...new Set(ids)]
  function Dedupe(ids: seq<string>): (r: seq<string>)
    ensures Unique(r) && forall id :: id in r <==> id in ids
  {
    if ids == [] then []
    else
      var n := |ids| - 1;
      assert ids == ids[..n] + [ids[n]];
      var rest := Dedupe(ids[..n]);
      if ids[n] in rest then rest else rest + [ids[n]]
  }

  lemma NamesOrder()
    ensures TotalPreorder(AtMost) && TotalPreorder(FlagBefore)
    ensures forall s: seq<string> :: Separates(s, AtMost)
  {
    AtMostOrders();
    hide Name, AtMost;
  }

  lemma SortedIds(ids: seq<string>)
    ensures var r := SortBy(Dedupe(ids), AtMost);
            Ascending(r) && forall id :: id in r <==> id in ids
  {
    NamesOrder();
    SortBySorted(Dedupe(ids), AtMost);
    MultisetMembers(SortBy(Dedupe(ids), AtMost), Dedupe(ids));
    UniquePermuted(Dedupe(ids), SortBy(Dedupe(ids), AtMost));
  }

  ghost predicate FlagOf(offenders: Offenders, f: Flag) {
    && f.code in offenders && Ascending(f.evidenceItemIds)
    && forall id :: id in f.evidenceItemIds <==> id in offenders[f.code]
  }

  method MakeFlags(offenders: Offenders) returns (flags: seq<Flag>)
    ensures Made(offenders, flags)
  {
    hide Ascending, SortBy, Dedupe;
    flags := [];
    var codes := offenders.Keys;
    while codes != {}
      invariant codes <= offenders.Keys
      invariant forall i, j :: 0 <= i < j < |flags| ==> flags[i].code != flags[j].code
      invariant forall k :: 0 <= k < |flags| ==> FlagOf(offenders, flags[k]) && flags[k].code !in codes
      invariant forall c :: c in offenders ==> c in codes || exists k :: 0 <= k < |flags| && flags[k].code == c
      decreases |codes|
    {
      var c :| c in codes;
      SortedIds(offenders[c]);
      var flag := Flag(c, SortBy(Dedupe(offenders[c]), AtMost));
      ghost var before := flags;
      flags := flags + [flag];
      forall d | d in offenders && d !in codes - {c}
        ensures exists k :: 0 <= k < |flags| && flags[k].code == d
      {
        if d == c {
          assert flags[|before|].code == c;
        } else {
          var k :| 0 <= k < |before| && before[k].code == d;
          assert flags[k] == before[k];
        }
      }
      codes := codes - {c};
    }
  }

  // The flags made, and then sorted.
  ghost predicate Made(offenders: Offenders, flags: seq<Flag>) {
    && (forall i, j :: 0 <= i < j < |flags| ==> flags[i].code != flags[j].code)
    && (forall k :: 0 <= k < |flags| ==> FlagOf(offenders, flags[k]))
    && (forall c :: c in offenders ==> exists k :: 0 <= k < |flags| && flags[k].code == c)
  }

  lemma MadeSorted(offenders: Offenders, flags: seq<Flag>)
    requires Made(offenders, flags)
    ensures Made(offenders, SortBy(flags, FlagBefore)) && Sorted(SortBy(flags, FlagBefore), FlagBefore)
  {
    var sorted := SortBy(flags, FlagBefore);
    NamesOrder();
    SortBySorted(flags, FlagBefore);
    MultisetMembers(flags, sorted);
    assert Unique(flags);
    UniquePermuted(flags, sorted);
    hide FlagOf, FlagBefore, SortBy, TotalPreorder, Sorted;
    forall i, j | 0 <= i < j < |sorted|
      ensures sorted[i].code != sorted[j].code
    {
      assert sorted[i] in flags && sorted[j] in flags;
      var a :| 0 <= a < |flags| && flags[a] == sorted[i];
      var b :| 0 <= b < |flags| && flags[b] == sorted[j];
    }
    forall k | 0 <= k < |sorted|
      ensures FlagOf(offenders, sorted[k])
    {
      assert sorted[k] in flags;
    }
    forall c | c in offenders
      ensures exists k :: 0 <= k < |sorted| && sorted[k].code == c
    {
      var k :| 0 <= k < |flags| && flags[k].code == c;
      assert flags[k] in sorted;
      var m :| 0 <= m < |sorted| && sorted[m] == flags[k];
    }
  }

  ghost predicate Agrees(items: seq<Item>, params: Params, offenders: Offenders) {
    forall c, id :: Has(offenders, c, id) <==> OffendsId(items, params, c, id)
  }

  ghost predicate Reports(items: seq<Item>, params: Params, f: Flag) {
    && Ascending(f.evidenceItemIds) && f.evidenceItemIds != []
    && forall id :: id in f.evidenceItemIds <==> OffendsId(items, params, f.code, id)
  }

  lemma FlagReports(items: seq<Item>, params: Params, offenders: Offenders, f: Flag)
    requires NoEmpty(offenders) && FlagOf(offenders, f) && Agrees(items, params, offenders)
    ensures Reports(items, params, f)
  {
    hide OffendsId, Ascending;
    assert offenders[f.code][0] in offenders[f.code];
    forall id
      ensures id in f.evidenceItemIds <==> OffendsId(items, params, f.code, id)
    {
      assert Has(offenders, f.code, id) <==> OffendsId(items, params, f.code, id);
    }
  }

  lemma CodeReported(items: seq<Item>, params: Params, offenders: Offenders, flags: seq<Flag>, c: Code, id: string)
    requires Made(offenders, flags) && Agrees(items, params, offenders) && OffendsId(items, params, c, id)
    ensures exists f :: f in flags && f.code == c
  {
    hide OffendsId, FlagOf;
    assert Has(offenders, c, id);
    var k :| 0 <= k < |flags| && flags[k].code == c;
    assert flags[k] in flags;
  }

  lemma SortedReport(items: seq<Item>, params: Params, offenders: Offenders, flags: seq<Flag>)
    requires NoEmpty(offenders) && Made(offenders, flags) && Agrees(items, params, offenders)
    ensures IsReport(items, params, SortBy(flags, FlagBefore))
  {
    var sorted := SortBy(flags, FlagBefore);
    MadeSorted(offenders, flags);
    forall f | f in sorted
      ensures Reports(items, params, f)
    {
      hide *;
      FlagInMade(offenders, sorted, f);
      FlagReports(items, params, offenders, f);
    }
    forall c, id | OffendsId(items, params, c, id)
      ensures exists f :: f in sorted && f.code == c
    {
      hide *;
      CodeReported(items, params, offenders, sorted, c, id);
    }
    DistinctCodes(offenders, sorted);
    hide *;
    ReportParts(items, params, sorted);
  }

  lemma FlagInMade(offenders: Offenders, flags: seq<Flag>, f: Flag)
    requires Made(offenders, flags) && f in flags
    ensures FlagOf(offenders, f)
  {
  }

  lemma DistinctCodes(offenders: Offenders, flags: seq<Flag>)
    requires Made(offenders, flags)
    ensures forall i, j :: 0 <= i < j < |flags| ==> flags[i].code != flags[j].code
  {
  }

  lemma ReportParts(items: seq<Item>, params: Params, flags: seq<Flag>)
    requires Sorted(flags, FlagBefore)
    requires forall i, j :: 0 <= i < j < |flags| ==> flags[i].code != flags[j].code
    requires forall f :: f in flags ==> Reports(items, params, f)
    requires forall c, id :: OffendsId(items, params, c, id) ==> exists f :: f in flags && f.code == c
    ensures IsReport(items, params, flags)
  {
    hide OffendsId, Ascending, FlagBefore;
  }

  method ValidateProductionSet(items: seq<Item>, params: Params) returns (flags: seq<Flag>)
    requires UniqueIds(items) && WalksEnd(items)
    ensures IsReport(items, params, flags)
  {
    hide UniqueIds, WalksEnd, OffendsId, IsReport, Has, NoEmpty, FlagOf, Made;
    var offenders := MainLoop(items, params);
    offenders := FamilyLoop(items, params, offenders);
    flags := MakeFlags(offenders);
    assert Agrees(items, params, offenders) by {
      forall c, id
        ensures Has(offenders, c, id) <==> OffendsId(items, params, c, id)
      {
      }
    }
    SortedReport(items, params, offenders, flags);
    flags := SortBy(flags, FlagBefore);
  }

  // ----- the report is determined -----

  lemma NamesDiffer(c: Code, d: Code)
    requires Name(c) == Name(d)
    ensures c == d
  {
    assert |Name(c)| == |Name(d)|;
    assert Name(c)[0] == Name(d)[0];
  }

  lemma SameIds(a: seq<string>, b: seq<string>)
    requires Ascending(a) && Ascending(b) && forall id :: id in a <==> id in b
    ensures a == b
  {
    NamesOrder();
    UniqueSameElements(a, b);
    SortedUnique(a, b, AtMost);
  }

  lemma SameFlagIn(items: seq<Item>, params: Params, a: seq<Flag>, b: seq<Flag>, f: Flag)
    requires IsReport(items, params, a) && IsReport(items, params, b) && f in a
    ensures f in b
  {
    hide OffendsId, Ascending, FlagBefore, Name;
    assert Reports(items, params, f);
    var id := f.evidenceItemIds[0];
    assert id in f.evidenceItemIds;
    assert OffendsId(items, params, f.code, id);
    var g :| g in b && g.code == f.code;
    assert Reports(items, params, g);
    SameIds(f.evidenceItemIds, g.evidenceItemIds);
  }

  // There is one report for a selection, so the order in which offences were found plays no part.
  lemma ReportUnique(items: seq<Item>, params: Params, a: seq<Flag>, b: seq<Flag>)
    requires IsReport(items, params, a) && IsReport(items, params, b)
    ensures a == b
  {
    forall f
      ensures f in a <==> f in b
    {
      if f in a { SameFlagIn(items, params, a, b, f); }
      if f in b { SameFlagIn(items, params, b, a, f); }
    }
    UniqueSameElements(a, b);
    NamesOrder();
    forall f, g | f in a && g in a && FlagBefore(f, g) && FlagBefore(g, f)
      ensures f == g
    {
      AtMostAntisymmetric(Name(f.code), Name(g.code));
      NamesDiffer(f.code, g.code);
      var i :| 0 <= i < |a| && a[i] == f;
      var j :| 0 <= j < |a| && a[j] == g;
    }
    SortedUnique(a, b, FlagBefore);
  }
}
