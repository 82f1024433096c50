// services/crush-parser/app/engine.py: the bounded walk of nested archives.
module Engine {
  import opened Wrappers
  import opened Text
  import opened Sequences
  import opened Merkle

  type Digest = Bytes -> string

  datatype Limits = Limits(maxEntries: nat, maxTotalBytes: nat, maxExpansionRatio: nat, maxDepth: nat)

  // A file inside an archive: its declared path and size, the non-empty pieces its reader returns,
  // whether the preview parsers accept it, and what it holds when its name makes it an archive.
  datatype Member = Member(path: string, declared: nat, chunks: seq<Bytes>, parses: bool, inner: Inner)

  // `broken`: reading on after the last member raises.
  datatype Inner = NotArchive | Archive(members: seq<Member>, broken: bool)

  datatype Error = TooManyEntries | TotalLimit | RatioLimit | CopyLimit | BadArchive | ParseFailed

  datatype Artifact = Artifact(id: string, path: string, size: nat, sha256: string, payload: string)

  datatype Warning = UnsafePath(path: string) | DepthLimit(path: string)

  // ----- _safe_member_path -----

  function Slashes(raw: string): (s: string)
    ensures |s| == |raw| && forall i :: 0 <= i < |s| ==> s[i] == (if raw[i] == '\\' then '/' else raw[i])
  {
    seq(|raw|, i requires 0 <= i < |raw| => if raw[i] == '\\' then '/' else raw[i])
  }

  function StripSlashes(s: string): string {
    if s != "" && s[0] == '/' then StripSlashes(s[1..]) else s
  }

  // The components between slashes.
  function Split(s: string): (r: seq<string>)
    ensures r != [] && forall k :: 0 <= k < |r| ==> '/' !in r[k] && forall c :: c in r[k] ==> c in s
  {
    if s == "" then [""]
    else if s[0] == '/' then [""] + Split(s[1..])
    else
      var rest := Split(s[1..]);
      [[s[0]] + rest[0]] + rest[1..]
  }

  // PurePosixPath drops empty and '.' components.
  function Parts(components: seq<string>): (r: seq<string>)
    ensures forall k :: 0 <= k < |r| ==> r[k] in components && r[k] != "" && r[k] != "."
  {
    if components == [] then []
    else
      assert components == [components[0]] + components[1..];
      (if components[0] == "" || components[0] == "." then [] else [components[0]]) + Parts(components[1..])
  }

  function Join(parts: seq<string>): string {
    if parts == [] then "" else if |parts| == 1 then parts[0] else parts[0] + "/" + Join(parts[1..])
  }

  function PathText(parts: seq<string>): string {
    if parts == [] then "." else Join(parts)
  }

  function SafeMemberPath(raw: string): Option<string> {
    var normalized := StripSlashes(Slashes(raw));
    var parts := Parts(Split(normalized));
    if normalized == "" || ".." in parts then None else Some(PathText(parts))
  }

  predicate GoodPart(p: string) {
    p != "" && p != "." && p != ".." && '/' !in p && '\\' !in p
  }

  lemma {:induction false} SplitNoSlash(p: string)
    requires '/' !in p
    ensures Split(p) == [p]
  {
    if p != "" {
      assert p == [p[0]] + p[1..];
      assert '/' !in p[1..];
      SplitNoSlash(p[1..]);
    }
  }

  lemma {:induction false} SplitJoined(p: string, rest: string)
    requires '/' !in p
    ensures Split(p + "/" + rest) == [p] + Split(rest)
  {
    var s := p + "/" + rest;
    if p == "" {
      assert s == "/" + rest && s[1..] == rest;
    } else {
      assert p == [p[0]] + p[1..] && s[0] == p[0];
      assert '/' !in p[1..];
      assert s[1..] == p[1..] + "/" + rest;
      SplitJoined(p[1..], rest);
    }
  }

  lemma {:induction false} SplitJoin(parts: seq<string>)
    requires parts != [] && forall k :: 0 <= k < |parts| ==> GoodPart(parts[k])
    ensures Split(Join(parts)) == parts && Join(parts) != ""
    ensures Join(parts)[0] != '/' && forall c :: c in Join(parts) ==> c != '\\'
  {
    if |parts| == 1 {
      SplitNoSlash(parts[0]);
      assert Join(parts) == parts[0];
    } else {
      SplitJoin(parts[1..]);
      SplitJoined(parts[0], Join(parts[1..]));
      assert parts == [parts[0]] + parts[1..];
      assert Join(parts) == parts[0] + "/" + Join(parts[1..]);
    }
  }

  lemma {:induction false} PartsOfGood(parts: seq<string>)
    requires forall k :: 0 <= k < |parts| ==> GoodPart(parts[k])
    ensures Parts(parts) == parts
  {
    if parts != [] {
      PartsOfGood(parts[1..]);
      assert parts == [parts[0]] + parts[1..];
    }
  }

  lemma StripKeeps(s: string)
    ensures forall c :: c in StripSlashes(s) ==> c in s
  {
  }

  lemma AcceptedParts(raw: string)
    requires SafeMemberPath(raw).Some?
    ensures var parts := Parts(Split(StripSlashes(Slashes(raw))));
            SafeMemberPath(raw) == Some(PathText(parts)) && forall k :: 0 <= k < |parts| ==> GoodPart(parts[k])
  {
    var slashed := Slashes(raw);
    var components := Split(StripSlashes(slashed));
    var parts := Parts(components);
    StripKeeps(slashed);
    assert '\\' !in slashed;
    hide Split, Parts, StripSlashes;
    forall k | 0 <= k < |parts|
      ensures GoodPart(parts[k])
    {
      assert parts[k] in components;
    }
  }

  lemma DotPath()
    ensures SafeMemberPath(".") == Some(".")
  {
    assert Slashes(".") == "." && StripSlashes(".") == ".";
    SplitNoSlash(".");
    assert Parts(["."]) == [];
  }

  lemma JoinedPath(parts: seq<string>)
    requires parts != [] && forall k :: 0 <= k < |parts| ==> GoodPart(parts[k])
    ensures SafeMemberPath(Join(parts)) == Some(Join(parts))
  {
    SplitJoin(parts);
    PartsOfGood(parts);
    NoDotDot(parts);
    var r := Join(parts);
    Unslashed(r);
    hide Split, Parts, Join, GoodPart, Slashes, StripSlashes;
  }

  lemma NoDotDot(parts: seq<string>)
    requires forall k :: 0 <= k < |parts| ==> GoodPart(parts[k])
    ensures ".." !in parts
  {
  }

  lemma Unslashed(r: string)
    requires r != "" && r[0] != '/' && forall c :: c in r ==> c != '\\'
    ensures Slashes(r) == r && StripSlashes(r) == r
  {
    forall i | 0 <= i < |r|
      ensures Slashes(r)[i] == r[i]
    {
      assert r[i] in r;
    }
  }

  // An accepted path never climbs: it is relative, free of backslashes, empty, '.' and '..' components
  // ('.' alone stands for a path of nothing but dots), and it is accepted unchanged.
  lemma SafePathStaysInside(raw: string)
    requires SafeMemberPath(raw).Some?
    ensures var r := SafeMemberPath(raw).value;
            && (r == "." || (r != "" && r[0] != '/' && '\\' !in r && forall k :: 0 <= k < |Split(r)| ==> GoodPart(Split(r)[k])))
            && SafeMemberPath(r) == Some(r)
  {
    AcceptedParts(raw);
    var parts := Parts(Split(StripSlashes(Slashes(raw))));
    if parts == [] {
      DotPath();
    } else {
      SplitJoin(parts);
      JoinedPath(parts);
    }
  }

  // ----- _copy_and_hash -----

  // How many bytes reach the output when at most `max` may.
  function Copied(chunks: seq<Bytes>, max: nat): (n: nat)
    ensures n <= max && (|Flat(chunks)| <= max ==> n == |Flat(chunks)|)
  {
    if chunks == [] || |chunks[0]| > max then 0 else |chunks[0]| + Copied(chunks[1..], max - |chunks[0]|)
  }

  // The digest and size of everything read, unless there is more than `max`; what was written before
  // the limit was hit never exceeds it.
  method CopyAndHash(sha: Digest, chunks: seq<Bytes>, max: nat) returns (r: Result<(nat, string), Error>, output: Bytes)
    ensures r == if |Flat(chunks)| <= max then Ok((|Flat(chunks)|, sha(Flat(chunks)))) else Err(CopyLimit)
    ensures |output| == Copied(chunks, max) && output <= Flat(chunks)
    ensures r.Ok? ==> output == Flat(chunks)
  {
    output := [];
    var size := 0;
    for k := 0 to |chunks|
      invariant size == |output| <= max && output + Flat(chunks[k..]) == Flat(chunks)
      invariant Copied(chunks, max) == size + Copied(chunks[k..], max - size)
    {
      assert chunks[k..][1..] == chunks[k + 1..];
      size := size + |chunks[k]|;
      assert |Flat(chunks)| == |output| + |chunks[k]| + |Flat(chunks[k + 1..])|;
      if size > max { return Err(CopyLimit), output; }
      output := output + chunks[k];
    }
    assert output == Flat(chunks);
    r := Ok((size, sha(output)));
  }

  // ----- the walk -----

  // What is the same for a whole analysis; `sourceSize` is the size of the outermost archive.
  datatype Config = Config(limits: Limits, sourceSize: nat, sha: Digest)

  datatype Walk = Walk(
    entryCount: nat, totalBytes: nat, written: nat, artifacts: seq<Artifact>, payloads: seq<string>, warnings: seq<Warning>)

  function Number(n: nat): string {
    PadStart(ShowNat(n), 8)
  }

  function RatioBound(c: Config): nat {
    c.sourceSize * c.limits.maxExpansionRatio
  }

  // The bytes an analysis may expand to.
  function Bound(c: Config): nat {
    if c.sourceSize > 0 && RatioBound(c) < c.limits.maxTotalBytes then RatioBound(c) else c.limits.maxTotalBytes
  }

  function Under(prefix: string, path: string): string {
    if prefix != "" then prefix + "/" + path else path
  }

  // What the walk meets, one thing after another: the members of all archives it enters.
  datatype Item =
    | Unsafe(depth: nat, path: string)
    | Safe(depth: nat, path: string, declared: nat, chunks: seq<Bytes>, parses: bool, tooDeep: bool)
    | Broken

  function ItemOf(c: Config, m: Member, prefix: string, depth: nat): Item {
    match SafeMemberPath(m.path)
    case None => Unsafe(depth, m.path)
    case Some(path) =>
      Safe(depth, Under(prefix, path), m.declared, m.chunks, m.parses, m.inner.Archive? && depth >= c.limits.maxDepth)
  }

  predicate Enters(c: Config, m: Member, depth: nat) {
    SafeMemberPath(m.path).Some? && m.inner.Archive? && depth < c.limits.maxDepth
  }

  function Flatten(c: Config, members: seq<Member>, broken: bool, prefix: string, depth: nat): seq<Item>
    decreases members
  {
    if members == [] then (if broken then [Broken] else [])
    else
      var m := members[0];
      [ItemOf(c, m, prefix, depth)]
      + (if Enters(c, m, depth) then
           Flatten(c, m.inner.members, m.inner.broken, Under(prefix, SafeMemberPath(m.path).value), depth + 1)
         else [])
      + Flatten(c, members[1..], broken, prefix, depth)
  }

  // One thing met.
  function Meet(c: Config, w: Walk, item: Item): (Option<Error>, Walk) {
    var count := w.entryCount + 1;
    var u := w.(entryCount := count);
    if item.Broken? then (Some(BadArchive), w)
    else if count > c.limits.maxEntries then (Some(TooManyEntries), u)
    else if item.Unsafe? then (None, u.(warnings := u.warnings + [UnsafePath(item.path)]))
    else if w.totalBytes + item.declared > c.limits.maxTotalBytes then (Some(TotalLimit), u)
    else if c.sourceSize > 0 && w.totalBytes + item.declared > RatioBound(c) then (Some(RatioLimit), u)
    else
      var remaining := Bound(c) - w.totalBytes;
      var size := |Flat(item.chunks)|;
      var v := u.(written := u.written + Copied(item.chunks, remaining));
      if size > remaining then (Some(CopyLimit), v)
      else if !item.parses then (Some(ParseFailed), v.(totalBytes := v.totalBytes + size))
      else
        var payload := "payloads/" + Number(count);
        (None,
         v.(totalBytes := v.totalBytes + size,
            artifacts := v.artifacts + [Artifact(Number(count), item.path, size, c.sha(Flat(item.chunks)), payload)],
            payloads := v.payloads + [payload],
            warnings := if item.tooDeep then v.warnings + [DepthLimit(item.path)] else v.warnings))
  }

  function Process(c: Config, w: Walk, items: seq<Item>): (Option<Error>, Walk)
    decreases |items|
  {
    if items == [] then (None, w)
    else
      var (e, u) := Meet(c, w, items[0]);
      if e.Some? then (e, u) else Process(c, u, items[1..])
  }

  lemma {:induction false} ProcessConcat(c: Config, w: Walk, a: seq<Item>, b: seq<Item>)
    ensures var (e, u) := Process(c, w, a);
            Process(c, w, a + b) == if e.Some? then (e, u) else Process(c, u, b)
    decreases |a|
  {
    if a == [] {
      assert a + b == b;
    } else {
      assert (a + b)[0] == a[0] && (a + b)[1..] == a[1..] + b;
      var (e, u) := Meet(c, w, a[0]);
      hide Meet;
      if e.None? { ProcessConcat(c, u, a[1..], b); }
    }
  }

  // One analysis: the counters and lists that all levels of the recursion share.
  class Analysis {
    const c: Config
    var entryCount: nat
    var totalBytes: nat
    ghost var written: nat
    var artifacts: seq<Artifact>
    var payloads: seq<string>
    var warnings: seq<Warning>

    ghost function State(): Walk
      reads this
    {
      Walk(entryCount, totalBytes, written, artifacts, payloads, warnings)
    }

    constructor (c: Config)
      ensures this.c == c && State() == Walk(0, 0, 0, [], [], [])
    {
      this.c := c;
      entryCount, totalBytes, written := 0, 0, 0;
      artifacts, payloads, warnings := [], [], [];
    }

    method Extract(m: Member, safePath: string, depth: nat) returns (error: Option<Error>)
      modifies this
      requires totalBytes <= Bound(c) && 0 < entryCount <= c.limits.maxEntries
      ensures (error, State()) ==
              Meet(c, old(State()).(entryCount := old(entryCount) - 1),
                   Safe(depth, safePath, m.declared, m.chunks, m.parses, m.inner.Archive? && depth >= c.limits.maxDepth))
      ensures error.None? ==> totalBytes <= Bound(c)
    {
      if totalBytes + m.declared > c.limits.maxTotalBytes { return Some(TotalLimit); }
      var ratioLimit := RatioBound(c);
      if c.sourceSize > 0 && totalBytes + m.declared > ratioLimit { return Some(RatioLimit); }
      var remaining := c.limits.maxTotalBytes - totalBytes;
      if c.sourceSize > 0 && ratioLimit - totalBytes < remaining { remaining := ratioLimit - totalBytes; }
      var copy, output := CopyAndHash(c.sha, m.chunks, remaining);
      written := written + |output|;
      if copy.Err? { return Some(CopyLimit); }
      totalBytes := totalBytes + copy.value.0;
      var payloadName := "payloads/" + Number(entryCount);
      if !m.parses { return Some(ParseFailed); }
      artifacts := artifacts + [Artifact(Number(entryCount), safePath, copy.value.0, copy.value.1, payloadName)];
      payloads := payloads + [payloadName];
      if m.inner.Archive? && depth >= c.limits.maxDepth {
        warnings := warnings + [DepthLimit(safePath)];
      }
      return None;
    }

    // The recursive walk does to the shared state what meeting everything in `Flatten` does, in order.
    method WalkArchive(members: seq<Member>, broken: bool, prefix: string, depth: nat) returns (error: Option<Error>)
      modifies this
      requires totalBytes <= Bound(c)
      ensures (error, State()) == Process(c, old(State()), Flatten(c, members, broken, prefix, depth))
      ensures error.None? ==> totalBytes <= Bound(c)
      decreases members
    {
      hide Meet, Process, Flatten, SafeMemberPath;
      ghost var start := State();
      ghost var all := Flatten(c, members, broken, prefix, depth);
      ghost var met: seq<Item> := [];
      assert members[0..] == members && [] + all == all;
      NothingMet(c, start);
      for k := 0 to |members|
        invariant totalBytes <= Bound(c)
        invariant all == met + Flatten(c, members[k..], broken, prefix, depth)
        invariant Process(c, start, met) == (None, State())
      {
        var m := members[k];
        ghost var rest := Flatten(c, members[k + 1..], broken, prefix, depth);
        ghost var item := ItemOf(c, m, prefix, depth);
        ghost var nested := Nested(c, m, prefix, depth);
        ghost var w := State();
        FlattenNext(c, members, broken, prefix, depth, k);
        assert all == met + [item] + (nested + rest);
        MeetNext(c, start, met, w, item, nested + rest);
        MeetUnsafe(c, w, item);
        entryCount := entryCount + 1;
        if entryCount > c.limits.maxEntries { return Some(TooManyEntries); }
        var path := SafeMemberPath(m.path);
        if path.None? {
          warnings := warnings + [UnsafePath(m.path)];
          met := met + [item];
          assert all == met + rest;
          continue;
        }
        var safePath := Under(prefix, path.value);
        error := Extract(m, safePath, depth);
        met := met + [item];
        if error.Some? { return; }
        if m.inner.Archive? && depth < c.limits.maxDepth {
          error := WalkArchive(m.inner.members, m.inner.broken, safePath, depth + 1);
          ProcessConcat(c, start, met, nested);
          ProcessConcat(c, start, met + nested, rest);
          assert all == met + nested + rest;
          if error.Some? { return; }
          met := met + nested;
        } else {
          assert all == met + rest;
        }
      }
      FlattenEnd(c, members, broken, prefix, depth);
      if broken {
        MeetNext(c, start, met, State(), Broken, []);
        MeetUnsafe(c, State(), Broken);
        assert all == met + [Broken] + [];
        return Some(BadArchive);
      }
      assert all == met;
      return None;
    }
  }

  lemma NothingMet(c: Config, w: Walk)
    ensures Process(c, w, []) == (None, w)
  {
  }

  function Nested(c: Config, m: Member, prefix: string, depth: nat): seq<Item> {
    if Enters(c, m, depth) then
      Flatten(c, m.inner.members, m.inner.broken, Under(prefix, SafeMemberPath(m.path).value), depth + 1)
    else []
  }

  lemma FlattenNext(c: Config, members: seq<Member>, broken: bool, prefix: string, depth: nat, k: nat)
    requires k < |members|
    ensures Flatten(c, members[k..], broken, prefix, depth) ==
            [ItemOf(c, members[k], prefix, depth)]
            + (Nested(c, members[k], prefix, depth) + Flatten(c, members[k + 1..], broken, prefix, depth))
  {
    hide SafeMemberPath, ItemOf, Enters, Under;
    var rest := members[k..];
    assert rest != [] && rest[0] == members[k] && rest[1..] == members[k + 1..];
    assert Flatten(c, rest, broken, prefix, depth) ==
           [ItemOf(c, rest[0], prefix, depth)] + Nested(c, rest[0], prefix, depth) + Flatten(c, rest[1..], broken, prefix, depth);
  }

  lemma FlattenEnd(c: Config, members: seq<Member>, broken: bool, prefix: string, depth: nat)
    ensures Flatten(c, members[|members|..], broken, prefix, depth) == if broken then [Broken] else []
  {
  }

  // The cases of Meet that copy nothing.
  lemma MeetUnsafe(c: Config, w: Walk, item: Item)
    ensures item.Broken? ==> Meet(c, w, item) == (Some(BadArchive), w)
    ensures !item.Broken? && w.entryCount + 1 > c.limits.maxEntries ==>
              Meet(c, w, item) == (Some(TooManyEntries), w.(entryCount := w.entryCount + 1))
    ensures item.Unsafe? && w.entryCount + 1 <= c.limits.maxEntries ==>
              Meet(c, w, item) == (None, w.(entryCount := w.entryCount + 1, warnings := w.warnings + [UnsafePath(item.path)]))
  {
  }

  lemma MeetNext(c: Config, start: Walk, met: seq<Item>, w: Walk, item: Item, more: seq<Item>)
    requires Process(c, start, met) == (None, w)
    ensures Process(c, start, met + [item]) == Meet(c, w, item)
    ensures Meet(c, w, item).0.Some? ==> Process(c, start, met + [item] + more) == Meet(c, w, item)
  {
    ProcessConcat(c, start, met, [item]);
    var (e, u) := Meet(c, w, item);
    hide Meet;
    assert Process(c, u, [item][1..]) == (None, u);
    ProcessConcat(c, start, met + [item], more);
  }

  // ----- what every walk keeps, and what a completed one has done -----

  const START := Walk(0, 0, 0, [], [], [])

  function SafeSize(item: Item): nat {
    if item.Safe? then |Flat(item.chunks)| else 0
  }

  function TotalSize(items: seq<Item>): nat {
    if items == [] then 0 else TotalSize(items[..|items| - 1]) + SafeSize(items[|items| - 1])
  }

  // Thing k fits: the entry limit, and for a file both its declared and its real size.
  predicate Fits(c: Config, items: seq<Item>, k: nat)
    requires k < |items|
  {
    && !items[k].Broken? && k + 1 <= c.limits.maxEntries
    && (items[k].Safe? ==>
          && items[k].parses
          && TotalSize(items[..k]) + items[k].declared <= Bound(c)
          && TotalSize(items[..k]) + SafeSize(items[k]) <= Bound(c))
  }

  // The numbers, in order, of the files met.
  function SafeNumbers(items: seq<Item>): seq<nat> {
    if items == [] then []
    else SafeNumbers(items[..|items| - 1]) + if items[|items| - 1].Safe? then [|items|] else []
  }

  predicate Describes(c: Config, a: Artifact, payload: string, number: nat, item: Item) {
    && item.Safe? && a.id == Number(number) && a.path == item.path && a.size == |Flat(item.chunks)|
    && a.sha256 == c.sha(Flat(item.chunks)) && a.payload == payload == "payloads/" + Number(number)
  }

  // The state after `items` were met without an error.
  predicate Recorded(c: Config, w: Walk, items: seq<Item>) {
    var numbers := SafeNumbers(items);
    && w.entryCount == |items| && w.totalBytes == w.written == TotalSize(items) <= Bound(c)
    && |w.artifacts| == |w.payloads| == |numbers|
    && forall j :: 0 <= j < |numbers| ==>
         1 <= numbers[j] <= |items| && Describes(c, w.artifacts[j], w.payloads[j], numbers[j], items[numbers[j] - 1])
  }

  lemma MeetRecorded(c: Config, w: Walk, items: seq<Item>, item: Item)
    requires Recorded(c, w, items)
    ensures var (e, u) := Meet(c, w, item);
            && (e.None? <==> Fits(c, items + [item], |items|))
            && (e.None? ==> Recorded(c, u, items + [item]))
            && u.written <= Bound(c) && u.entryCount <= |items| + 1
  {
    var more := items + [item];
    assert more[..|items|] == items && more[|items|] == item;
    var (e, u) := Meet(c, w, item);
    if e.None? {
      var numbers := SafeNumbers(more);
      assert numbers == SafeNumbers(items) + if item.Safe? then [|more|] else [];
      forall j | 0 <= j < |numbers|
        ensures 1 <= numbers[j] <= |more| && Describes(c, u.artifacts[j], u.payloads[j], numbers[j], more[numbers[j] - 1])
      {
        if j < |SafeNumbers(items)| { assert more[numbers[j] - 1] == items[numbers[j] - 1]; }
      }
    }
  }

  lemma FitsPrefix(c: Config, items: seq<Item>, n: nat, k: nat)
    requires k < n <= |items|
    ensures Fits(c, items[..n], k) == Fits(c, items, k)
  {
    assert items[..n][..k] == items[..k];
  }

  // Whatever the sizes an archive declares: the walk completes exactly when everything it meets fits;
  // then there is one artifact and one payload for every accepted file, in order, with its own bytes.
  // Completed or not, it never writes more than the bound.
  lemma {:induction false} WalkOutcome(c: Config, items: seq<Item>)
    ensures var (e, w) := Process(c, START, items);
            && (e.None? <==> forall k: nat :: k < |items| ==> Fits(c, items, k))
            && (e.None? ==> Recorded(c, w, items))
            && w.written <= Bound(c) && w.entryCount <= |items|
  {
    if items == [] {
    } else {
      var n := |items| - 1;
      var init := items[..n];
      WalkOutcome(c, init);
      assert items == init + [items[n]];
      ProcessConcat(c, START, init, [items[n]]);
      var (e, w) := Process(c, START, init);
      forall k: nat | k < n
        ensures Fits(c, init, k) == Fits(c, items, k)
      {
        FitsPrefix(c, items, n, k);
      }
      if e.None? {
        MeetRecorded(c, w, init, items[n]);
        var (f, u) := Meet(c, w, items[n]);
        assert Process(c, u, [items[n]][1..]) == (None, u);
        assert Process(c, w, [items[n]]) == (f, u);
      }
    }
  }

  lemma {:induction false} SafeNumbersRise(items: seq<Item>)
    ensures var s := SafeNumbers(items);
            && (forall j :: 0 <= j < |s| ==> 1 <= s[j] <= |items|)
            && (forall i, j :: 0 <= i < j < |s| ==> s[i] < s[j])
            && (forall k :: 0 <= k < |items| && items[k].Safe? ==> k + 1 in s)
  {
    if items != [] {
      var init, s := items[..|items| - 1], SafeNumbers(items);
      SafeNumbersRise(init);
      assert s == SafeNumbers(init) + if items[|items| - 1].Safe? then [|items|] else [];
      forall k | 0 <= k < |items| && items[k].Safe?
        ensures k + 1 in s
      {
        if k < |init| { assert init[k] == items[k]; }
      }
    }
  }

  // No two payloads of a completed walk share a name.
  lemma PayloadsDistinct(c: Config, w: Walk, items: seq<Item>)
    requires Recorded(c, w, items)
    ensures forall i, j :: 0 <= i < j < |w.payloads| ==> w.payloads[i] != w.payloads[j] && w.artifacts[i].id != w.artifacts[j].id
  {
    var s := SafeNumbers(items);
    SafeNumbersRise(items);
    forall i, j | 0 <= i < j < |w.payloads|
      ensures w.payloads[i] != w.payloads[j] && w.artifacts[i].id != w.artifacts[j].id
    {
      assert Describes(c, w.artifacts[i], w.payloads[i], s[i], items[s[i] - 1]);
      assert Describes(c, w.artifacts[j], w.payloads[j], s[j], items[s[j] - 1]);
      ParsePad(s[i], 8);
      ParsePad(s[j], 8);
      var p := "payloads/";
      assert w.payloads[i][|p|..] == Number(s[i]) && w.payloads[j][|p|..] == Number(s[j]);
    }
  }

  // ----- nesting -----

  // Nothing is met below the depth limit, or below the outermost archive when the limit is 0.
  lemma {:induction false} DepthBound(c: Config, members: seq<Member>, broken: bool, prefix: string, depth: nat)
    ensures forall x :: x in Flatten(c, members, broken, prefix, depth) && !x.Broken? ==>
              depth <= x.depth <= if depth > c.limits.maxDepth then depth else c.limits.maxDepth
    decreases members
  {
    if members != [] {
      var m := members[0];
      hide SafeMemberPath;
      if Enters(c, m, depth) {
        DepthBound(c, m.inner.members, m.inner.broken, Under(prefix, SafeMemberPath(m.path).value), depth + 1);
      }
      DepthBound(c, members[1..], broken, prefix, depth);
    }
  }

  // ----- the whole analysis of an archive -----

  // walk_archive(source_path, "", 1)
  method AnalyzeArchive(c: Config, members: seq<Member>, broken: bool) returns (r: Result<Analysis, Error>)
    ensures var items := Flatten(c, members, broken, "", 1);
            && (r.Ok? <==> forall k: nat :: k < |items| ==> Fits(c, items, k))
            && (r.Ok? ==> fresh(r.value) && Recorded(c, r.value.State(), items))
  {
    var a := new Analysis(c);
    var error := a.WalkArchive(members, broken, "", 1);
    WalkOutcome(c, Flatten(c, members, broken, "", 1));
    if error.Some? { return Err(error.value); }
    return Ok(a);
  }
}
