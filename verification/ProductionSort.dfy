// packages/production/src/sort.ts: the order of a production, with families kept together.
module ProductionSort {
  import opened Wrappers
  import opened Text
  import opened Sequences
  import opened Sorting

  datatype Item = Item(
    evidenceId: string, fileName: string, folderPath: string, primaryDate: Option<string>, custodian: Option<string>,
    familyId: Option<string>, isFamilyChild: bool)

  datatype SortKey = FolderFilename | Filename | PrimaryDateAsc | PrimaryDateDesc | Custodian | EvidenceId

  // ----- comparators -----

  function CompareStrings(a: string, b: string): int {
    if a == b then 0 else if AtMost(a, b) then -1 else 1
  }

  function CompareNullableDate(a: Option<string>, b: Option<string>, direction: int): int {
    if a.None? && b.None? then 0
    else if a.None? then 1
    else if b.None? then -1
    else direction * CompareStrings(a.value, b.value)
  }

  function Either(first: int, second: int): int {
    if first != 0 then first else second
  }

  function OrBlank(o: Option<string>): string {
    if o.Some? then o.value else ""
  }

  function ByKey(key: SortKey, a: Item, b: Item): int {
    match key
    case FolderFilename => Either(CompareStrings(a.folderPath, b.folderPath), CompareStrings(a.fileName, b.fileName))
    case Filename => CompareStrings(a.fileName, b.fileName)
    case PrimaryDateAsc => CompareNullableDate(a.primaryDate, b.primaryDate, 1)
    case PrimaryDateDesc => CompareNullableDate(a.primaryDate, b.primaryDate, -1)
    case Custodian => CompareStrings(OrBlank(a.custodian), OrBlank(b.custodian))
    case EvidenceId => 0
  }

  function Compare(key: SortKey, a: Item, b: Item): int {
    Either(ByKey(key, a, b), CompareStrings(a.evidenceId, b.evidenceId))
  }

  // ----- the comparators are orders -----

  ghost predicate Order<T(!new)>(c: (T, T) -> int) {
    && (forall x, y :: c(x, y) <= 0 <==> c(y, x) >= 0)
    && (forall x, y, z :: c(x, y) <= 0 && c(y, z) <= 0 ==> c(x, z) <= 0)
  }

  lemma StringsOrder()
    ensures Order(CompareStrings)
    ensures forall a, b :: CompareStrings(a, b) == 0 <==> a == b
  {
    forall a, b
      ensures CompareStrings(a, b) <= 0 <==> CompareStrings(b, a) >= 0
    {
      AtMostTotal(a, b);
      if AtMost(a, b) && AtMost(b, a) { AtMostAntisymmetric(a, b); }
    }
    forall a, b, c | CompareStrings(a, b) <= 0 && CompareStrings(b, c) <= 0
      ensures CompareStrings(a, c) <= 0
    {
      if a != b && b != c { AtMostTransitive(a, b, c); }
    }
  }

  lemma OrderThen<T(!new)>(c: (T, T) -> int, d: (T, T) -> int, e: (T, T) -> int)
    requires Order(c) && Order(d) && forall x, y :: e(x, y) == Either(c(x, y), d(x, y))
    ensures Order(e)
  {
    forall x, y, z | e(x, y) <= 0 && e(y, z) <= 0
      ensures e(x, z) <= 0
    {
      assert c(x, y) <= 0 && c(y, z) <= 0;
      if c(x, z) == 0 {
        assert c(z, x) <= 0;
        assert c(z, y) <= 0 && c(y, x) <= 0;
        assert d(x, y) <= 0 && d(y, z) <= 0;
      }
    }
  }

  lemma OrderOf<S(!new), T(!new)>(c: (T, T) -> int, f: S -> T, e: (S, S) -> int)
    requires Order(c) && forall x, y :: e(x, y) == c(f(x), f(y))
    ensures Order(e)
  {
  }

  lemma DatesOrder(direction: int)
    requires direction == 1 || direction == -1
    ensures Order((a: Option<string>, b: Option<string>) => CompareNullableDate(a, b, direction))
  {
    StringsOrder();
    var c := (a: Option<string>, b: Option<string>) => CompareNullableDate(a, b, direction);
    forall a, b, d | c(a, b) <= 0 && c(b, d) <= 0
      ensures c(a, d) <= 0
    {
      if a.Some? && b.Some? && d.Some? {
        assert CompareStrings(a.value, b.value) <= 0 <==> CompareStrings(b.value, a.value) >= 0;
        assert CompareStrings(b.value, d.value) <= 0 <==> CompareStrings(d.value, b.value) >= 0;
        assert CompareStrings(a.value, d.value) <= 0 <==> CompareStrings(d.value, a.value) >= 0;
        if direction == 1 {
          assert CompareStrings(a.value, b.value) <= 0 && CompareStrings(b.value, d.value) <= 0;
        } else {
          assert CompareStrings(d.value, b.value) <= 0 && CompareStrings(b.value, a.value) <= 0;
        }
      }
    }
  }

  lemma KeyOrder(key: SortKey)
    ensures Order((a: Item, b: Item) => ByKey(key, a, b))
  {
    StringsOrder();
    var c := (a: Item, b: Item) => ByKey(key, a, b);
    match key
    case FolderFilename =>
      var d := (a: Item, b: Item) => CompareStrings(a.folderPath, b.folderPath);
      var e := (a: Item, b: Item) => CompareStrings(a.fileName, b.fileName);
      OrderOf(CompareStrings, (x: Item) => x.folderPath, d);
      OrderOf(CompareStrings, (x: Item) => x.fileName, e);
      OrderThen(d, e, c);
    case Filename => OrderOf(CompareStrings, (x: Item) => x.fileName, c);
    case PrimaryDateAsc =>
      DatesOrder(1);
      OrderOf((a: Option<string>, b: Option<string>) => CompareNullableDate(a, b, 1), (x: Item) => x.primaryDate, c);
    case PrimaryDateDesc =>
      DatesOrder(-1);
      OrderOf((a: Option<string>, b: Option<string>) => CompareNullableDate(a, b, -1), (x: Item) => x.primaryDate, c);
    case Custodian => OrderOf(CompareStrings, (x: Item) => OrBlank(x.custodian), c);
    case EvidenceId =>
  }

  // comparator(a, b) <= 0
  function ItemLe(key: SortKey): (Item, Item) -> bool {
    (a, b) => Compare(key, a, b) <= 0
  }

  function IdLe(): (Item, Item) -> bool {
    (a: Item, b: Item) => CompareStrings(a.evidenceId, b.evidenceId) <= 0
  }

  // groups.sort((a, b) => compare(a.head, b.head)); every group has a head.
  function HeadLe(key: SortKey): (seq<Item>, seq<Item>) -> bool {
    (g, h) => g == [] || (h != [] && Compare(key, g[0], h[0]) <= 0)
  }

  lemma PreorderOf<T(!new)>(c: (T, T) -> int, le: (T, T) -> bool)
    requires Order(c) && forall x, y :: le(x, y) == (c(x, y) <= 0)
    ensures TotalPreorder(le)
  {
    forall x, y, z | le(x, y) && le(y, z)
      ensures le(x, z)
    {
      assert c(x, y) <= 0 && c(y, z) <= 0;
    }
    forall x, y
      ensures le(x, y) || le(y, x)
    {
      assert c(x, y) <= 0 <==> c(y, x) >= 0;
    }
  }

  lemma CompareOrder(key: SortKey)
    ensures Order((a: Item, b: Item) => Compare(key, a, b))
    ensures Order((a: Item, b: Item) => CompareStrings(a.evidenceId, b.evidenceId))
  {
    StringsOrder();
    KeyOrder(key);
    var c := (a: Item, b: Item) => ByKey(key, a, b);
    var d := (a: Item, b: Item) => CompareStrings(a.evidenceId, b.evidenceId);
    var e := (a: Item, b: Item) => Compare(key, a, b);
    OrderOf(CompareStrings, (x: Item) => x.evidenceId, d);
    hide ByKey, CompareStrings;
    OrderThen(c, d, e);
  }

  lemma Preorders(key: SortKey)
    ensures TotalPreorder(ItemLe(key)) && TotalPreorder(IdLe()) && TotalPreorder(HeadLe(key))
  {
    CompareOrder(key);
    hide Compare, ByKey, CompareStrings;
    PreorderOf((a: Item, b: Item) => Compare(key, a, b), ItemLe(key));
    PreorderOf((a: Item, b: Item) => CompareStrings(a.evidenceId, b.evidenceId), IdLe());
    HeadsPreorder(key);
  }

  lemma HeadsPreorder(key: SortKey)
    requires TotalPreorder(ItemLe(key))
    ensures TotalPreorder(HeadLe(key))
  {
    hide Compare;
    var le, head := ItemLe(key), HeadLe(key);
    assert forall g, h :: head(g, h) <==> g == [] || (h != [] && le(g[0], h[0]));
    forall g, h
      ensures head(g, h) || head(h, g)
    {
      if g != [] && h != [] { assert le(g[0], h[0]) || le(h[0], g[0]); }
    }
    forall f, g, h | head(f, g) && head(g, h)
      ensures head(f, h)
    {
      if f != [] { assert le(f[0], g[0]) && le(g[0], h[0]); }
    }
  }

  // Equal in the order only with equal ids.
  lemma TiesShareId(key: SortKey, a: Item, b: Item)
    requires Compare(key, a, b) <= 0 && Compare(key, b, a) <= 0
    ensures a.evidenceId == b.evidenceId
  {
    StringsOrder();
    KeyOrder(key);
    var c := (x: Item, y: Item) => ByKey(key, x, y);
    assert c(a, b) <= 0 <==> c(b, a) >= 0;
    assert c(b, a) <= 0 <==> c(a, b) >= 0;
    assert CompareStrings(a.evidenceId, b.evidenceId) <= 0 <==> CompareStrings(b.evidenceId, a.evidenceId) >= 0;
  }

  // ----- groups -----

  function Members(items: seq<Item>, family: string): (r: seq<Item>)
    ensures forall x :: x in r <==> x in items && x.familyId == Some(family)
  {
    if items == [] then []
    else
      var n := |items| - 1;
      assert items == items[..n] + [items[n]];
      Members(items[..n], family) + if items[n].familyId == Some(family) then [items[n]] else []
  }

  // The families in the order they first occur.
  function FamilyIds(items: seq<Item>): seq<string> {
    if items == [] then []
    else
      var n := |items| - 1;
      var ids := FamilyIds(items[..n]);
      if items[n].familyId.Some? && items[n].familyId.value !in ids then ids + [items[n].familyId.value] else ids
  }

  lemma {:induction false} FamilyIdsAre(items: seq<Item>, f: string)
    ensures f in FamilyIds(items) <==> exists k :: 0 <= k < |items| && items[k].familyId == Some(f)
    ensures Unique(FamilyIds(items))
  {
    if items != [] {
      var n := |items| - 1;
      FamilyIdsAre(items[..n], f);
      if items[n].familyId.Some? {
        assert items[n].familyId.value !in FamilyIds(items[..n]) ==>
               forall k :: 0 <= k < |FamilyIds(items[..n])| ==> FamilyIds(items[..n])[k] != items[n].familyId.value;
      }
      if f in FamilyIds(items[..n]) {
        var k :| 0 <= k < n && items[..n][k].familyId == Some(f);
        assert items[k].familyId == Some(f);
      }
      if exists k :: 0 <= k < |items| && items[k].familyId == Some(f) {
        var k :| 0 <= k < |items| && items[k].familyId == Some(f);
        if k < n { assert items[..n][k].familyId == Some(f); }
      }
    }
  }

  function Standalone(items: seq<Item>): seq<seq<Item>> {
    if items == [] then []
    else
      var n := |items| - 1;
      Standalone(items[..n]) + if items[n].familyId.None? then [[items[n]]] else []
  }

  lemma {:induction false} StandaloneAre(items: seq<Item>, g: seq<Item>)
    ensures g in Standalone(items) <==> |g| == 1 && g[0] in items && g[0].familyId.None?
  {
    if items != [] {
      var n := |items| - 1;
      StandaloneAre(items[..n], g);
      assert items == items[..n] + [items[n]];
      if |g| == 1 && g[0] == items[n] { assert g == [items[n]]; }
    }
  }

  function Children(members: seq<Item>, child: bool): (r: seq<Item>)
    ensures forall x :: x in r <==> x in members && x.isFamilyChild == child
  {
    if members == [] then []
    else
      assert members == [members[0]] + members[1..];
      (if members[0].isFamilyChild == child then [members[0]] else []) + Children(members[1..], child)
  }

  // Non-children by the sort key, then children by id; the first of all is the head.
  function Arrange(members: seq<Item>, key: SortKey): seq<Item> {
    SortBy(Children(members, false), ItemLe(key)) + SortBy(Children(members, true), IdLe())
  }

  function ArrangeAll(items: seq<Item>, ids: seq<string>, key: SortKey): (r: seq<seq<Item>>)
    ensures |r| == |ids| && forall k :: 0 <= k < |ids| ==> r[k] == Arrange(Members(items, ids[k]), key)
  {
    hide *;
    seq(|ids|, k requires 0 <= k < |ids| => Arrange(Members(items, ids[k]), key))
  }

  function Groups(items: seq<Item>, key: SortKey): seq<seq<Item>> {
    Standalone(items) + ArrangeAll(items, FamilyIds(items), key)
  }

  function SortedGroups(items: seq<Item>, key: SortKey): seq<seq<Item>> {
    SortBy(Groups(items, key), HeadLe(key))
  }

  function Arranged(items: seq<Item>, key: SortKey, familyGrouping: bool): seq<Item> {
    if familyGrouping then Flat(SortedGroups(items, key)) else SortBy(items, ItemLe(key))
  }

  // ----- the program -----

  method SortProductionItems(items: seq<Item>, key: SortKey, familyGrouping: bool) returns (r: seq<Item>)
    ensures r == Arranged(items, key, familyGrouping)
  {
    if !familyGrouping { return SortBy(items, ItemLe(key)); }
    hide Members, FamilyIds, Standalone, Arrange, SortBy;
    var standalone, families, order := Collect(items);
    var groups := ArrangeFamilies(items, standalone, families, order, key);
    r := FlatMap(SortBy(groups, HeadLe(key)));
  }

  method ArrangeFamilies(
      ghost items: seq<Item>, standalone: seq<seq<Item>>, families: map<string, seq<Item>>, order: seq<string>, key: SortKey)
    returns (groups: seq<seq<Item>>)
    requires forall k :: 0 <= k < |order| ==> order[k] in families && families[order[k]] == Members(items, order[k])
    ensures groups == standalone + ArrangeAll(items, order, key)
  {
    hide Members, Arrange;
    ghost var all := ArrangeAll(items, order, key);
    groups := standalone;
    for k := 0 to |order|
      invariant groups == standalone + all[..k]
    {
      var group := Group(families[order[k]], key);
      assert all[..k + 1] == all[..k] + [group];
      groups := groups + [group];
    }
    assert all[..|order|] == all;
  }

  method FlatMap(groups: seq<seq<Item>>) returns (r: seq<Item>)
    ensures r == Flat(groups)
  {
    r := [];
    for k := 0 to |groups|
      invariant r == Flat(groups[..k])
    {
      assert groups[..k + 1] == groups[..k] + [groups[k]];
      FlatSnoc(groups[..k], groups[k]);
      r := r + groups[k];
    }
    assert groups[..|groups|] == groups;
  }

  // The local tables after reading `items`: a map of families with its keys in insertion order.
  ghost predicate Tables(items: seq<Item>, standalone: seq<seq<Item>>, families: map<string, seq<Item>>, order: seq<string>) {
    && standalone == Standalone(items) && order == FamilyIds(items)
    && (forall f :: f in order <==> f in families)
    && forall f :: f in families ==> families[f] == Members(items, f)
  }

  lemma TablesAlone(items: seq<Item>, x: Item, standalone: seq<seq<Item>>, families: map<string, seq<Item>>, order: seq<string>)
    requires Tables(items, standalone, families, order) && x.familyId.None?
    ensures Tables(items + [x], standalone + [[x]], families, order)
  {
    SnocTables(items, x);
    hide Members, FamilyIds, Standalone;
  }

  lemma TablesKnown(
      items: seq<Item>, x: Item, f: string, standalone: seq<seq<Item>>, families: map<string, seq<Item>>, order: seq<string>)
    requires Tables(items, standalone, families, order) && x.familyId == Some(f) && f in families
    ensures Tables(items + [x], standalone, families[f := families[f] + [x]], order)
  {
    SnocTables(items, x);
    hide Members, FamilyIds, Standalone;
  }

  lemma NewFamily(items: seq<Item>, x: Item, f: string)
    requires x.familyId == Some(f) && f !in FamilyIds(items)
    ensures Standalone(items + [x]) == Standalone(items) && FamilyIds(items + [x]) == FamilyIds(items) + [f]
    ensures forall g :: Members(items + [x], g) == if g == f then [x] else Members(items, g)
  {
    SnocTables(items, x);
    NoMembers(items, f);
    assert [] + [x] == [x];
    hide Members, FamilyIds, Standalone;
  }

  lemma TablesNew(
      items: seq<Item>, x: Item, f: string, standalone: seq<seq<Item>>, families: map<string, seq<Item>>, order: seq<string>)
    requires Tables(items, standalone, families, order) && x.familyId == Some(f) && f !in families
    ensures Tables(items + [x], standalone, families[f := [x]], order + [f])
  {
    NewFamily(items, x, f);
    hide Members, FamilyIds, Standalone;
    var more := families[f := [x]];
    forall g
      ensures g in order + [f] <==> g in more
    {
    }
    forall g | g in more
      ensures more[g] == Members(items + [x], g)
    {
    }
  }

  method Collect(items: seq<Item>)
    returns (standalone: seq<seq<Item>>, families: map<string, seq<Item>>, order: seq<string>)
    ensures Tables(items, standalone, families, order)
  {
    standalone, families, order := [], map[], [];
    assert Tables(items[..0], standalone, families, order);
    for k := 0 to |items|
      invariant Tables(items[..k], standalone, families, order)
    {
      hide Tables;
      var item := items[k];
      assert items[..k + 1] == items[..k] + [item];
      if item.familyId.None? {
        TablesAlone(items[..k], item, standalone, families, order);
        standalone := standalone + [[item]];
      } else {
        var f := item.familyId.value;
        if f in families {
          TablesKnown(items[..k], item, f, standalone, families, order);
          families := families[f := families[f] + [item]];
        } else {
          TablesNew(items[..k], item, f, standalone, families, order);
          families := families[f := [item]];
          order := order + [f];
        }
      }
    }
    assert items[..|items|] == items;
  }

  lemma SnocTables(a: seq<Item>, x: Item)
    ensures Standalone(a + [x]) == if x.familyId.None? then Standalone(a) + [[x]] else Standalone(a)
    ensures FamilyIds(a + [x]) ==
            if x.familyId.Some? && x.familyId.value !in FamilyIds(a) then FamilyIds(a) + [x.familyId.value] else FamilyIds(a)
    ensures forall f :: Members(a + [x], f) == if x.familyId == Some(f) then Members(a, f) + [x] else Members(a, f)
  {
    var b := a + [x];
    assert b[..|b| - 1] == a && b[|b| - 1] == x;
    assert Standalone(a) + [] == Standalone(a);
    forall f
      ensures Members(b, f) == if x.familyId == Some(f) then Members(a, f) + [x] else Members(a, f)
    {
      assert Members(a, f) + [] == Members(a, f);
    }
  }

  // One family's head, further non-children and children.
  method Group(members: seq<Item>, key: SortKey) returns (group: seq<Item>)
    ensures group == Arrange(members, key)
  {
    hide SortBy, Children, ItemLe, IdLe;
    var parents := SortBy(Children(members, false), ItemLe(key));
    var children := SortBy(Children(members, true), IdLe());
    if |parents| == 0 {
      if |children| == 0 { return []; }
      var head, rest := children[0], children[1..];
      group := [head] + rest;
    } else {
      var head, extraParents := parents[0], parents[1..];
      group := [head] + (extraParents + children);
      assert group == parents + children;
    }
  }

  lemma NoMembers(items: seq<Item>, f: string)
    requires f !in FamilyIds(items)
    ensures Members(items, f) == []
  {
    var m := Members(items, f);
    assert m == [] || m[0] in m;
    FamilyIdsAre(items, f);
    hide Members, FamilyIds;
    forall x | x in items
      ensures x.familyId != Some(f)
    {
      var k :| 0 <= k < |items| && items[k] == x;
    }
    assert forall x :: x !in m;
  }

  // ----- what a group is -----

  lemma {:induction false} ChildrenSplit(members: seq<Item>)
    ensures multiset(Children(members, false)) + multiset(Children(members, true)) == multiset(members)
  {
    if members != [] {
      ChildrenSplit(members[1..]);
      assert members == [members[0]] + members[1..];
    }
  }

  // A family's group is its members; a non-child leads whenever there is one, and then the least by
  // the sort key; the others lead in order of id.
  lemma MembersArranged(items: seq<Item>, f: string, key: SortKey)
    requires f in FamilyIds(items)
    ensures var g := Arrange(Members(items, f), key);
            && g != [] && multiset(g) == multiset(Members(items, f))
            && (forall x :: x in g <==> x in items && x.familyId == Some(f))
            && (forall x :: x in g && !x.isFamilyChild ==> !g[0].isFamilyChild && Compare(key, g[0], x) <= 0)
  {
    var members := Members(items, f);
    var g := Arrange(members, key);
    ArrangeElements(members, key);
    ArrangeLeader(members, key);
    FamilyIdsAre(items, f);
    var k :| 0 <= k < |items| && items[k].familyId == Some(f);
    var x := items[k];
    hide Arrange, Members, FamilyIds, Compare;
    assert x in members;
    assert x in g;
  }

  lemma ArrangeElements(members: seq<Item>, key: SortKey)
    ensures var g := Arrange(members, key);
            multiset(g) == multiset(members) && forall x :: x in g <==> x in members
  {
    ChildrenSplit(members);
    assert multiset(Arrange(members, key)) == multiset(members);
    MultisetMembers(Arrange(members, key), members);
  }

  lemma ArrangeLeader(members: seq<Item>, key: SortKey)
    ensures var g := Arrange(members, key);
            forall x :: x in g && !x.isFamilyChild ==> !g[0].isFamilyChild && Compare(key, g[0], x) <= 0
  {
    var parents, children := Children(members, false), Children(members, true);
    var p, c := SortBy(parents, ItemLe(key)), SortBy(children, IdLe());
    var g := Arrange(members, key);
    Preorders(key);
    SortBySorted(parents, ItemLe(key));
    MultisetMembers(p, parents);
    MultisetMembers(c, children);
    hide SortBy, Children, Compare;
    assert g == p + c;
    forall x | x in g && !x.isFamilyChild
      ensures !g[0].isFamilyChild && Compare(key, g[0], x) <= 0
    {
      assert x in p;
      var k :| 0 <= k < |p| && p[k] == x;
      assert g[0] == p[0] && p[0] in p;
      assert ItemLe(key)(p[0], p[0]);
    }
  }

  lemma ArrangedMembers(items: seq<Item>, f: string, key: SortKey, x: Item)
    requires f in FamilyIds(items)
    ensures x in Arrange(Members(items, f), key) <==> x in items && x.familyId == Some(f)
  {
    MembersArranged(items, f, key);
  }

  // The group an item belongs to.
  function GroupOf(items: seq<Item>, x: Item, key: SortKey): seq<Item> {
    if x.familyId.None? then [x] else Arrange(Members(items, x.familyId.value), key)
  }

  // The groups are exactly the groups of the items, and each holds the items whose group it is.
  lemma GroupsAre(items: seq<Item>, key: SortKey, g: seq<Item>)
    ensures g in Groups(items, key) <==> exists x :: x in items && g == GroupOf(items, x, key)
    ensures g in Groups(items, key) ==>
              && g != [] && g[0] in items && GroupOf(items, g[0], key) == g
              && forall x :: x in g <==> x in items && GroupOf(items, x, key) == g
  {
    var ids := FamilyIds(items);
    var all: seq<seq<Item>> := ArrangeAll(items, ids, key);
    StandaloneAre(items, g);
    hide Arrange, Members, FamilyIds, Standalone;
    if g in Standalone(items) { AloneGroup(items, key, g); }
    if g in all {
      var k :| 0 <= k < |ids| && all[k] == g;
      FamilyGroup(items, ids[k], key);
    }
    forall x | x in items
      ensures GroupOf(items, x, key) in Groups(items, key)
    {
      if x.familyId.Some? {
        FamilyKnown(items, x);
        var k :| 0 <= k < |ids| && ids[k] == x.familyId.value;
        assert all[k] == GroupOf(items, x, key);
      } else {
        StandaloneAre(items, [x]);
      }
    }
  }

  lemma AloneGroup(items: seq<Item>, key: SortKey, g: seq<Item>)
    requires |g| == 1 && g[0] in items && g[0].familyId.None?
    ensures GroupOf(items, g[0], key) == g && forall x :: x in g <==> x in items && GroupOf(items, x, key) == g
  {
    hide Arrange, Members, FamilyIds, Standalone;
    assert g == [g[0]];
    forall x | x in items && GroupOf(items, x, key) == g
      ensures x in g
    {
      if x.familyId.Some? {
        FamilyKnown(items, x);
        ArrangedMembers(items, x.familyId.value, key, g[0]);
      }
    }
  }

  lemma FamilyKnown(items: seq<Item>, x: Item)
    requires x in items && x.familyId.Some?
    ensures x.familyId.value in FamilyIds(items)
  {
    FamilyIdsAre(items, x.familyId.value);
    var k :| 0 <= k < |items| && items[k] == x;
    assert items[k].familyId == Some(x.familyId.value);
  }

  lemma FamilyGroup(items: seq<Item>, f: string, key: SortKey)
    requires f in FamilyIds(items)
    ensures var g := Arrange(Members(items, f), key);
            && g != [] && g[0] in items && GroupOf(items, g[0], key) == g
            && forall x :: x in g <==> x in items && GroupOf(items, x, key) == g
  {
    MembersArranged(items, f, key);
    var g := Arrange(Members(items, f), key);
    hide Arrange, Members, FamilyIds;
    assert g[0] in g;
    forall x | x in items && GroupOf(items, x, key) == g
      ensures x in g
    {
      if x.familyId.Some? {
        FamilyKnown(items, x);
        ArrangedMembers(items, x.familyId.value, key, g[0]);
      }
    }
  }

  // ----- the result is a permutation -----

  function MembersAll(items: seq<Item>, ids: seq<string>): (r: seq<seq<Item>>)
    ensures |r| == |ids| && forall k :: 0 <= k < |ids| ==> r[k] == Members(items, ids[k])
  {
    seq(|ids|, k requires 0 <= k < |ids| => Members(items, ids[k]))
  }

  function SumParts(parts: seq<seq<Item>>): multiset<Item> {
    if parts == [] then multiset{} else multiset(parts[0]) + SumParts(parts[1..])
  }

  lemma {:induction false} FlatSum(parts: seq<seq<Item>>)
    ensures multiset(Flat(parts)) == SumParts(parts)
  {
    if parts != [] { FlatSum(parts[1..]); }
  }

  lemma SumAssociative(x: multiset<Item>, y: multiset<Item>, z: multiset<Item>)
    ensures x + (y + z) == (x + y) + z
  {
  }

  lemma {:induction false} SumPartsConcat(a: seq<seq<Item>>, b: seq<seq<Item>>)
    ensures SumParts(a + b) == SumParts(a) + SumParts(b)
  {
    var c := a + b;
    if a == [] {
      assert c == b;
    } else {
      assert c[0] == a[0] && c[1..] == a[1..] + b;
      SumPartsConcat(a[1..], b);
      var first, x, y := multiset(a[0]), SumParts(a[1..]), SumParts(b);
      assert SumParts(c) == first + SumParts(c[1..]);
      assert SumParts(a) == first + x;
      hide SumParts;
      SumAssociative(first, x, y);
    }
  }

  lemma WithoutOne<T>(a: seq<T>, b: seq<T>, k: nat)
    requires multiset(a) == multiset(b) && a != [] && k < |b| && b[k] == a[0]
    ensures multiset(a[1..]) == multiset(b[..k] + b[k + 1..])
  {
    assert a == [a[0]] + a[1..] && b == b[..k] + ([b[k]] + b[k + 1..]);
    assert multiset(b) == multiset(b[..k]) + multiset{b[k]} + multiset(b[k + 1..]);
    assert multiset(a) == multiset{a[0]} + multiset(a[1..]);
    assert multiset(b[..k] + b[k + 1..]) == multiset(b) - multiset{b[k]};
    assert multiset(a[1..]) == multiset(a) - multiset{a[0]};
  }

  lemma SumSwap(x: multiset<Item>, y: multiset<Item>, z: multiset<Item>)
    ensures x + (y + z) == y + (x + z)
  {
  }

  lemma SumPartsAt(b: seq<seq<Item>>, k: nat)
    requires k < |b|
    ensures SumParts(b) == multiset(b[k]) + SumParts(b[..k] + b[k + 1..])
  {
    var after := [b[k]] + b[k + 1..];
    assert after[1..] == b[k + 1..] && SumParts(after) == multiset(b[k]) + SumParts(b[k + 1..]);
    hide SumParts;
    SumPartsConcat(b[..k], b[k + 1..]);
    SumPartsConcat(b[..k], after);
    assert b == b[..k] + after;
    SumSwap(SumParts(b[..k]), multiset(b[k]), SumParts(b[k + 1..]));
  }

  lemma {:induction false} SumPartsPermuted(a: seq<seq<Item>>, b: seq<seq<Item>>)
    requires multiset(a) == multiset(b)
    ensures SumParts(a) == SumParts(b)
  {
    MultisetMembers(a, b);
    if a != [] {
      assert a[0] in b;
      var k :| 0 <= k < |b| && b[k] == a[0];
      WithoutOne(a, b, k);
      SumPartsAt(b, k);
      SumPartsPermuted(a[1..], b[..k] + b[k + 1..]);
    }
  }

  lemma MembersRest(items: seq<Item>, ids: seq<string>)
    requires ids != []
    ensures MembersAll(items, ids)[1..] == MembersAll(items, ids[1..])
  {
    hide Members;
  }

  lemma {:induction false} SumMembersSnoc(items: seq<Item>, x: Item, ids: seq<string>)
    requires Unique(ids)
    ensures SumParts(MembersAll(items + [x], ids)) == SumParts(MembersAll(items, ids)) +
            if x.familyId.Some? && x.familyId.value in ids then multiset{x} else multiset{}
  {
    if ids != [] {
      assert (items + [x])[..|items|] == items;
      assert ids == [ids[0]] + ids[1..];
      assert forall k :: 0 <= k < |ids[1..]| ==> ids[1..][k] == ids[k + 1];
      assert ids[0] !in ids[1..];
      assert Members(items + [x], ids[0]) ==
             Members(items, ids[0]) + if x.familyId == Some(ids[0]) then [x] else [];
      MembersRest(items, ids);
      MembersRest(items + [x], ids);
      hide Members;
      SumMembersSnoc(items, x, ids[1..]);
    }
  }

  function Grouped(items: seq<Item>): multiset<Item> {
    SumParts(Standalone(items)) + SumParts(MembersAll(items, FamilyIds(items)))
  }

  lemma OneMoreAlone(init: seq<Item>, items: seq<Item>, x: Item)
    requires Standalone(items) == Standalone(init) + [[x]] && FamilyIds(items) == FamilyIds(init)
    requires forall f :: Members(items, f) == Members(init, f)
    ensures Grouped(items) == Grouped(init) + multiset{x}
  {
    OnePart(Standalone(init), x);
    hide Members, FamilyIds, Standalone, SumParts;
    assert MembersAll(items, FamilyIds(items)) == MembersAll(init, FamilyIds(init));
  }

  lemma OneMoreFamily(init: seq<Item>, items: seq<Item>, x: Item, f: string)
    requires x.familyId == Some(f) && f !in FamilyIds(init) && items == init + [x]
    requires Standalone(items) == Standalone(init) && FamilyIds(items) == FamilyIds(init) + [f]
    requires forall g :: Members(items, g) == if g == f then Members(init, g) + [x] else Members(init, g)
    ensures Grouped(items) == Grouped(init) + multiset{x}
  {
    NoMembers(init, f);
    assert Members(items, f) == [] + [x] == [x];
    AllAndOne(init, items, FamilyIds(init), f, x);
    OnePart(MembersAll(init, FamilyIds(init)), x);
    assert Grouped(items) == SumParts(Standalone(init)) + SumParts(MembersAll(items, FamilyIds(init) + [f]));
    hide *;
  }

  lemma AllAndOne(init: seq<Item>, items: seq<Item>, ids: seq<string>, f: string, x: Item)
    requires f !in ids && Members(items, f) == [x]
    requires forall g :: g != f ==> Members(items, g) == Members(init, g)
    ensures MembersAll(items, ids + [f]) == MembersAll(init, ids) + [[x]]
  {
    hide Members;
    forall k | 0 <= k < |ids|
      ensures Members(items, ids[k]) == Members(init, ids[k])
    {
      assert ids[k] in ids;
    }
  }

  lemma OneMoreMember(init: seq<Item>, items: seq<Item>, x: Item, f: string)
    requires x.familyId == Some(f) && f in FamilyIds(init) && items == init + [x]
    requires Standalone(items) == Standalone(init) && FamilyIds(items) == FamilyIds(init)
    ensures Grouped(items) == Grouped(init) + multiset{x}
  {
    FamilyIdsAre(init, f);
    SumMembersSnoc(init, x, FamilyIds(init));
    hide Members, FamilyIds, Standalone, SumParts;
  }

  lemma OneMoreGrouped(init: seq<Item>, x: Item)
    ensures Grouped(init + [x]) == Grouped(init) + multiset{x}
  {
    SnocTables(init, x);
    hide *;
    if x.familyId.None? { OneMoreAlone(init, init + [x], x); }
    else if x.familyId.value in FamilyIds(init) { OneMoreMember(init, init + [x], x, x.familyId.value); }
    else { OneMoreFamily(init, init + [x], x, x.familyId.value); }
  }

  lemma GroupedNone()
    ensures Grouped([]) == multiset{}
  {
  }

  lemma {:induction false} EveryItemGrouped(items: seq<Item>)
    ensures Grouped(items) == multiset(items)
  {
    hide *;
    if items == [] {
      GroupedNone();
    } else {
      var init, x := items[..|items| - 1], items[|items| - 1];
      assert items == init + [x];
      OneMoreGrouped(init, x);
      EveryItemGrouped(init);
    }
  }

  lemma OnePart(parts: seq<seq<Item>>, x: Item)
    ensures SumParts(parts + [[x]]) == SumParts(parts) + multiset{x}
  {
    SumPartsConcat(parts, [[x]]);
    assert SumParts([[x]]) == multiset([x]) + SumParts([[x]][1..]);
  }

  lemma {:induction false} ArrangeAllSum(items: seq<Item>, ids: seq<string>, key: SortKey)
    requires forall k :: 0 <= k < |ids| ==> ids[k] in FamilyIds(items)
    ensures SumParts(ArrangeAll(items, ids, key)) == SumParts(MembersAll(items, ids))
  {
    if ids != [] {
      MembersArranged(items, ids[0], key);
      ArrangeAllSum(items, ids[1..], key);
      MembersRest(items, ids);
      hide Arrange, Members, FamilyIds;
      assert ArrangeAll(items, ids, key)[1..] == ArrangeAll(items, ids[1..], key);
    }
  }

  // In either mode, nothing is lost or repeated.
  lemma SortIsPermutation(items: seq<Item>, key: SortKey, familyGrouping: bool)
    ensures multiset(Arranged(items, key, familyGrouping)) == multiset(items)
  {
    if familyGrouping {
      var ids := FamilyIds(items);
      EveryItemGrouped(items);
      ArrangeAllSum(items, ids, key);
      SumPartsConcat(Standalone(items), ArrangeAll(items, ids, key));
      SumPartsPermuted(SortedGroups(items, key), Groups(items, key));
      FlatSum(SortedGroups(items, key));
    }
  }

  // ----- families stay together, and heads are in order -----

  lemma {:induction false} FlatSplit(parts: seq<seq<Item>>, k: nat)
    requires k < |parts|
    ensures Flat(parts) == Flat(parts[..k]) + parts[k] + Flat(parts[k + 1..])
  {
    if k == 0 {
      assert parts[..0] == [];
    } else {
      FlatSplit(parts[1..], k - 1);
      assert parts[1..][..k - 1] == parts[..k][1..] && parts[1..][k..] == parts[k + 1..];
      assert Flat(parts[..k]) == parts[0] + Flat(parts[..k][1..]);
    }
  }

  lemma {:induction false} FlatMembers(parts: seq<seq<Item>>, x: Item)
    ensures x in Flat(parts) <==> exists k :: 0 <= k < |parts| && x in parts[k]
  {
    if parts != [] {
      FlatMembers(parts[1..], x);
      assert forall k :: 0 < k < |parts| ==> parts[k] == parts[1..][k - 1];
      if x in Flat(parts[1..]) {
        var k :| 0 <= k < |parts[1..]| && x in parts[1..][k];
        assert x in parts[k + 1];
      }
    }
  }

  lemma ElsewhereIn(gs: seq<seq<Item>>, k: nat, x: Item) returns (m: nat)
    requires k < |gs| && (x in Flat(gs[..k]) || x in Flat(gs[k + 1..]))
    ensures m < |gs| && m != k && x in gs[m]
  {
    FlatMembers(gs[..k], x);
    FlatMembers(gs[k + 1..], x);
    if x in Flat(gs[..k]) {
      var i :| 0 <= i < |gs[..k]| && x in gs[..k][i];
      m := i;
    } else {
      var i :| 0 <= i < |gs[k + 1..]| && x in gs[k + 1..][i];
      m := k + 1 + i;
    }
  }

  predicate DistinctItems(items: seq<Item>) {
    forall i, j :: 0 <= i < j < |items| ==> items[i].evidenceId != items[j].evidenceId
  }

  lemma DistinctUnique(items: seq<Item>)
    requires DistinctItems(items)
    ensures Unique(items)
  {
  }

  lemma {:induction false} StandaloneUnique(items: seq<Item>)
    requires Unique(items)
    ensures Unique(Standalone(items))
  {
    if items != [] {
      var n := |items| - 1;
      var rest := Standalone(items[..n]);
      StandaloneUnique(items[..n]);
      assert items[n] !in items[..n];
      StandaloneAre(items[..n], [items[n]]);
      assert [items[n]] !in rest;
      assert Standalone(items) == rest + if items[n].familyId.None? then [[items[n]]] else [];
    }
  }

  lemma GroupsUnique(items: seq<Item>, key: SortKey)
    requires Unique(items)
    ensures Unique(Groups(items, key))
  {
    var s, ids := Standalone(items), FamilyIds(items);
    var all: seq<seq<Item>> := ArrangeAll(items, ids, key);
    StandaloneUnique(items);
    FamilyIdsAre(items, "");
    FamilyHeads(items, ids, key);
    hide Arrange, Members, FamilyIds, Standalone;
    forall i, j | 0 <= i < j < |all|
      ensures all[i] != all[j]
    {
      assert ids[i] != ids[j];
    }
    forall i, j | 0 <= i < |s| && 0 <= j < |all|
      ensures s[i] != all[j]
    {
      assert s[i] in s;
      StandaloneAre(items, s[i]);
    }
  }

  // Each family group tells its family.
  lemma FamilyHeads(items: seq<Item>, ids: seq<string>, key: SortKey)
    requires ids == FamilyIds(items)
    ensures var all := ArrangeAll(items, ids, key);
            forall k :: 0 <= k < |all| ==> all[k] != [] && all[k][0].familyId == Some(ids[k])
  {
    var all: seq<seq<Item>> := ArrangeAll(items, ids, key);
    hide Arrange, Members, FamilyIds;
    forall k | 0 <= k < |all|
      ensures all[k] != [] && all[k][0].familyId == Some(ids[k])
    {
      MembersArranged(items, ids[k], key);
      assert all[k][0] in all[k];
    }
  }

  lemma CountedOnce<T>(s: seq<T>, k: nat)
    requires k < |s| && forall m :: 0 <= m < |s| && m != k ==> s[m] != s[k]
    ensures multiset(s)[s[k]] == 1
  {
    assert s == s[..k] + [s[k]] + s[k + 1..];
    assert s[k] !in s[..k] && s[k] !in s[k + 1..];
  }

  lemma OnceCounted<T>(s: seq<T>, k: nat, m: nat)
    requires k < |s| && m < |s| && k != m && multiset(s)[s[k]] == 1
    ensures s[m] != s[k]
  {
    var i, j := if k < m then k else m, if k < m then m else k;
    assert s == s[..j] + [s[j]] + s[j + 1..];
    assert s[..j][i] == s[i] && s[i] in s[..j];
  }

  // A family gives one group, whatever is repeated in the selection.
  lemma FamilyGroupOnce(items: seq<Item>, key: SortKey, f: string)
    requires f in FamilyIds(items)
    ensures multiset(Groups(items, key))[Arrange(Members(items, f), key)] == 1
  {
    var s: seq<seq<Item>>, ids := Standalone(items), FamilyIds(items);
    var all: seq<seq<Item>> := ArrangeAll(items, ids, key);
    var i :| 0 <= i < |ids| && ids[i] == f;
    FamilyIdsAre(items, "");
    FamilyHeads(items, ids, key);
    hide Arrange, Members, FamilyIds, ArrangeAll;
    forall j | 0 <= j < |s|
      ensures |s[j]| == 1 && s[j][0].familyId.None?
    {
      assert s[j] in s;
      StandaloneAre(items, s[j]);
    }
    hide Standalone;
    FamilyOnce(s, all, ids, i);
  }

  lemma FamilyOnce(s: seq<seq<Item>>, all: seq<seq<Item>>, ids: seq<string>, i: nat)
    requires i < |all| == |ids| && Unique(ids)
    requires forall j :: 0 <= j < |s| ==> |s[j]| == 1 && s[j][0].familyId.None?
    requires forall j :: 0 <= j < |all| ==> all[j] != [] && all[j][0].familyId == Some(ids[j])
    ensures multiset(s + all)[all[i]] == 1
  {
    var gs, k := s + all, |s| + i;
    forall m | 0 <= m < |gs| && m != k
      ensures gs[m] != gs[k]
    {
      if m >= |s| { assert ids[m - |s|] != ids[i]; }
    }
    CountedOnce(gs, k);
  }

  // With families grouped, on any selection: each family is one block of the result, led by a non-child
  // when it has one (the least by the sort key), and nothing of it lies before or after the block.
  lemma FamilyIsABlock(items: seq<Item>, key: SortKey, f: string)
    requires f in FamilyIds(items)
    ensures var r, g := Arranged(items, key, true), Arrange(Members(items, f), key);
            && g != []
            && (forall x :: x in g <==> x in items && x.familyId == Some(f))
            && (forall x :: x in g && !x.isFamilyChild ==> !g[0].isFamilyChild && Compare(key, g[0], x) <= 0)
            && exists before, after :: r == before + g + after
                 && (forall x :: x in before || x in after ==> x.familyId != Some(f))
  {
    var gs, g := SortedGroups(items, key), Arrange(Members(items, f), key);
    MembersArranged(items, f, key);
    FamilyGroupOnce(items, key, f);
    MultisetMembers(Groups(items, key), gs);
    FamilyGroup(items, f, key);
    SortByPermutes(items, key);
    hide Arrange, Members, FamilyIds, Groups, SortedGroups, Compare;
    GroupsAre(items, key, g);
    assert g in gs;
    var k :| 0 <= k < |gs| && gs[k] == g;
    FlatSplit(gs, k);
    var before, after := Flat(gs[..k]), Flat(gs[k + 1..]);
    forall x | x in before || x in after
      ensures x.familyId != Some(f)
    {
      var m := ElsewhereIn(gs, k, x);
      assert gs[m] in gs;
      GroupsAre(items, key, gs[m]);
      OnceCounted(gs, k, m);
      assert GroupOf(items, x, key) == gs[m] != g;
      assert x.familyId == Some(f) ==> GroupOf(items, x, key) == g;
    }
    assert Arranged(items, key, true) == before + g + after;
  }

  lemma SortByPermutes(items: seq<Item>, key: SortKey)
    ensures multiset(SortedGroups(items, key)) == multiset(Groups(items, key))
  {
  }

  // The groups follow one another in the order of their heads.
  lemma HeadsInOrder(items: seq<Item>, key: SortKey, i: nat, j: nat)
    requires i < j < |SortedGroups(items, key)|
    ensures var g, h := SortedGroups(items, key)[i], SortedGroups(items, key)[j];
            g != [] && h != [] && Compare(key, g[0], h[0]) <= 0
  {
    var gs := SortedGroups(items, key);
    Preorders(key);
    SortBySorted(Groups(items, key), HeadLe(key));
    MultisetMembers(gs, Groups(items, key));
    assert HeadLe(key)(gs[i], gs[j]);
    assert gs[i] in gs && gs[j] in gs;
    hide Groups, SortedGroups, Compare;
    GroupsAre(items, key, gs[i]);
    GroupsAre(items, key, gs[j]);
  }

  // Without grouping, the items do.
  lemma ItemsInOrder(items: seq<Item>, key: SortKey, i: nat, j: nat)
    requires i < j < |Arranged(items, key, false)|
    ensures Compare(key, Arranged(items, key, false)[i], Arranged(items, key, false)[j]) <= 0
  {
    Preorders(key);
    SortBySorted(items, ItemLe(key));
    assert ItemLe(key)(Arranged(items, key, false)[i], Arranged(items, key, false)[j]);
  }

  // ----- the input order plays no part -----

  lemma IdsFix(a: seq<Item>, b: seq<Item>, x: Item, y: Item)
    requires DistinctItems(a) && x in a && y in a && x.evidenceId == y.evidenceId
    ensures x == y
  {
    var i :| 0 <= i < |a| && a[i] == x;
    var j :| 0 <= j < |a| && a[j] == y;
  }

  lemma ItemsSeparate(items: seq<Item>, part: seq<Item>, key: SortKey)
    requires DistinctItems(items) && forall x :: x in part ==> x in items
    ensures Separates(part, ItemLe(key)) && Separates(part, IdLe())
  {
    StringsOrder();
    forall x, y | x in part && y in part && ItemLe(key)(x, y) && ItemLe(key)(y, x)
      ensures x == y
    {
      TiesShareId(key, x, y);
      IdsFix(items, part, x, y);
    }
    forall x, y | x in part && y in part && IdLe()(x, y) && IdLe()(y, x)
      ensures x == y
    {
      assert CompareStrings(x.evidenceId, y.evidenceId) <= 0 <==> CompareStrings(y.evidenceId, x.evidenceId) >= 0;
      IdsFix(items, part, x, y);
    }
  }

  lemma {:induction false} MembersUnique(items: seq<Item>, f: string)
    requires Unique(items)
    ensures Unique(Members(items, f))
  {
    if items != [] {
      var n := |items| - 1;
      MembersUnique(items[..n], f);
      assert items[n] !in items[..n];
    }
  }

  lemma {:induction false} ChildrenUnique(members: seq<Item>, child: bool)
    requires Unique(members)
    ensures Unique(Children(members, child))
  {
    if members != [] {
      assert forall k :: 0 <= k < |members[1..]| ==> members[1..][k] == members[k + 1];
      ChildrenUnique(members[1..], child);
      assert members[0] !in members[1..];
    }
  }

  lemma ArrangePermuted(a: seq<Item>, b: seq<Item>, f: string, key: SortKey)
    requires DistinctItems(a) && DistinctItems(b) && forall x :: x in a <==> x in b
    ensures Arrange(Members(a, f), key) == Arrange(Members(b, f), key)
  {
    var m, n := Members(a, f), Members(b, f);
    DistinctUnique(a);
    DistinctUnique(b);
    MembersUnique(a, f);
    MembersUnique(b, f);
    Preorders(key);
    forall child | child in {false, true}
      ensures multiset(Children(m, child)) == multiset(Children(n, child))
    {
      ChildrenUnique(m, child);
      ChildrenUnique(n, child);
      UniqueSameElements(Children(m, child), Children(n, child));
    }
    ItemsSeparate(a, Children(m, false), key);
    ItemsSeparate(a, Children(m, true), key);
    SortByOrderFree(Children(m, false), Children(n, false), ItemLe(key));
    SortByOrderFree(Children(m, true), Children(n, true), IdLe());
  }

  lemma GroupsSame(a: seq<Item>, b: seq<Item>, key: SortKey)
    requires DistinctItems(a) && DistinctItems(b) && forall x :: x in a <==> x in b
    ensures multiset(Groups(a, key)) == multiset(Groups(b, key))
  {
    DistinctUnique(a);
    DistinctUnique(b);
    GroupsUnique(a, key);
    GroupsUnique(b, key);
    forall x
      ensures GroupOf(a, x, key) == GroupOf(b, x, key)
    {
      if x.familyId.Some? { ArrangePermuted(a, b, x.familyId.value, key); }
    }
    hide Groups, GroupOf;
    forall g
      ensures g in Groups(a, key) <==> g in Groups(b, key)
    {
      GroupsAre(a, key, g);
      GroupsAre(b, key, g);
    }
    UniqueSameElements(Groups(a, key), Groups(b, key));
  }

  lemma GroupsSeparate(items: seq<Item>, key: SortKey)
    requires DistinctItems(items)
    ensures Separates(Groups(items, key), HeadLe(key))
  {
    hide Groups;
    forall g, h | g in Groups(items, key) && h in Groups(items, key) && HeadLe(key)(g, h) && HeadLe(key)(h, g)
      ensures g == h
    {
      GroupsAre(items, key, g);
      GroupsAre(items, key, h);
      TiesShareId(key, g[0], h[0]);
      IdsFix(items, items, g[0], h[0]);
    }
  }

  // In both modes and for every key: the same items in another order give the same result.
  lemma InputOrderFree(a: seq<Item>, b: seq<Item>, key: SortKey, familyGrouping: bool)
    requires DistinctItems(a) && multiset(a) == multiset(b)
    ensures Arranged(a, key, familyGrouping) == Arranged(b, key, familyGrouping)
  {
    MultisetMembers(a, b);
    Preorders(key);
    if familyGrouping {
      DistinctPermuted(a, b);
      GroupsSame(a, b, key);
      GroupsSeparate(a, key);
      SortByOrderFree(Groups(a, key), Groups(b, key), HeadLe(key));
    } else {
      ItemsSeparate(a, a, key);
      SortByOrderFree(a, b, ItemLe(key));
    }
  }

  lemma DistinctPermuted(a: seq<Item>, b: seq<Item>)
    requires DistinctItems(a) && multiset(a) == multiset(b)
    ensures DistinctItems(b)
  {
    DistinctUnique(a);
    UniquePermuted(a, b);
    MultisetMembers(a, b);
    forall i, j | 0 <= i < j < |b|
      ensures b[i].evidenceId != b[j].evidenceId
    {
      assert b[i] in a && b[j] in a;
      if b[i].evidenceId == b[j].evidenceId { IdsFix(a, b, b[i], b[j]); }
    }
  }
}
