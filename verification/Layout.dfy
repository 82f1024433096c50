// packages/production/src/layout.ts: collision-free names for native files.
module Layout {
  import opened Wrappers
  import opened Text
  import opened Sequences

  datatype Scheme = BatesScheme | OriginalScheme | BatesOriginalScheme

  const NATIVES: string := "NATIVES/"

  // ----- names -----

  function Replaced(s: string): (r: string)
    ensures |r| == |s|
    ensures forall i :: 0 <= i < |r| ==> r[i] == if s[i] == '/' || s[i] == '\\' || s[i] == '\0' then '_' else s[i]
  {
    seq(|s|, i requires 0 <= i < |s| => if s[i] == '/' || s[i] == '\\' || s[i] == '\0' then '_' else s[i])
  }

  predicate IsSpace(c: char) {
    c in {' ', '\t', '\n', '\r', '\U{b}', '\U{c}', '\U{a0}', '\U{feff}'}
  }

  function TrimStart(s: string): string {
    if s != "" && IsSpace(s[0]) then TrimStart(s[1..]) else s
  }

  function TrimEnd(s: string): string {
    if s != "" && IsSpace(s[|s| - 1]) then TrimEnd(s[..|s| - 1]) else s
  }

  function SanitizeFileName(name: string): string {
    var cleaned := TrimEnd(TrimStart(Replaced(name)));
    if cleaned == "" then "file" else cleaned
  }

  function LastDot(s: string): (i: int)
    ensures -1 <= i < |s|
    ensures i >= 0 ==> s[i] == '.'
    ensures forall k :: i < k < |s| ==> s[k] != '.'
  {
    if s == "" then -1 else if s[|s| - 1] == '.' then |s| - 1 else LastDot(s[..|s| - 1])
  }

  // (stem, ext)
  function SplitExtension(name: string): (string, string) {
    var dot := LastDot(name);
    if dot <= 0 then (name, "") else (name[..dot], name[dot..])
  }

  function BaseName(scheme: Scheme, begBates: string, originalFileName: string): string {
    var original := SanitizeFileName(originalFileName);
    var (stem, ext) := SplitExtension(original);
    match scheme
    case BatesScheme => begBates + ext
    case OriginalScheme => original
    case BatesOriginalScheme => begBates + "_" + stem + ext
  }

  // The i-th name to try: the base itself, then name_001.ext, name_002.ext, ...
  function Candidate(base: string, i: nat): string {
    var (stem, ext) := SplitExtension(base);
    if i == 0 then base else stem + "_" + PadStart(ShowNat(i), 3) + ext
  }

  lemma LowerDigits(s: string)
    requires AllDigits(s)
    ensures Lower(s) == s
  {
  }

  lemma MiddlesSame(a: string, p: string, q: string, b: string)
    requires Lower(a + p + b) == Lower(a + q + b)
    ensures Lower(p) == Lower(q)
  {
    var x, y := a + p + b, a + q + b;
    assert |x| == |Lower(x)| == |Lower(y)| == |y|;
    forall k | 0 <= k < |p|
      ensures Lower(p)[k] == Lower(q)[k]
    {
      assert Lower(x)[|a| + k] == Lower(p)[k] && Lower(y)[|a| + k] == Lower(q)[k];
    }
  }

  // Numbered candidates differ even when case is ignored.
  lemma CandidatesDiffer(base: string, i: nat, j: nat)
    requires 1 <= i && 1 <= j && Lower(Candidate(base, i)) == Lower(Candidate(base, j))
    ensures i == j
  {
    var (stem, ext) := SplitExtension(base);
    var p, q := PadStart(ShowNat(i), 3), PadStart(ShowNat(j), 3);
    assert Candidate(base, i) == (stem + "_") + p + ext && Candidate(base, j) == (stem + "_") + q + ext;
    hide SplitExtension, Candidate, Lower, PadStart, ShowNat;
    MiddlesSame(stem + "_", p, q, ext);
    ParsePad(i, 3);
    ParsePad(j, 3);
    LowerDigits(p);
    LowerDigits(q);
  }

  // The taken candidates among the first i numbered ones.
  function Tried(base: string, i: nat): set<string> {
    if i == 0 then {} else Tried(base, i - 1) + {Lower(Candidate(base, i))}
  }

  lemma {:induction false} TriedAre(base: string, i: nat, x: string)
    ensures x in Tried(base, i) <==> exists k: nat :: 1 <= k <= i && x == Lower(Candidate(base, k))
  {
    hide Candidate, Lower;
    if i > 0 { TriedAre(base, i - 1, x); }
  }

  lemma {:induction false} TriedCount(base: string, i: nat)
    ensures |Tried(base, i)| == i
  {
    hide Candidate, Lower;
    if i > 0 {
      var x := Lower(Candidate(base, i));
      TriedCount(base, i - 1);
      TriedAre(base, i - 1, x);
      forall k: nat | 1 <= k < i
        ensures Lower(Candidate(base, k)) != x
      {
        if Lower(Candidate(base, k)) == x { CandidatesDiffer(base, k, i); }
      }
    }
  }

  // ----- the allocator -----

  predicate DistinctIgnoringCase(names: seq<string>) {
    forall i, j :: 0 <= i < j < |names| ==> Lower(names[i]) != Lower(names[j])
  }

  // `used` holds the names given, in lower case, and these are pairwise different.
  predicate Records(used: set<string>, given: seq<string>) {
    && DistinctIgnoringCase(given)
    && (forall k :: 0 <= k < |given| ==> Lower(given[k]) in used)
    && (forall x :: x in used ==> exists k :: 0 <= k < |given| && Lower(given[k]) == x)
  }

  lemma RecordsNext(used: set<string>, given: seq<string>, name: string)
    requires Records(used, given) && Lower(name) !in used
    ensures Records(used + {Lower(name)}, given + [name])
  {
    hide Lower;
    var more := given + [name];
    forall x | x in used + {Lower(name)}
      ensures exists k :: 0 <= k < |more| && Lower(more[k]) == x
    {
      if x == Lower(name) {
        assert Lower(more[|given|]) == x;
      } else {
        var k :| 0 <= k < |given| && Lower(given[k]) == x;
        assert Lower(more[k]) == x;
      }
    }
  }

  class NativeFileNameAllocator {
    const scheme: Scheme
    var used: set<string>
    // The names given so far.
    ghost var given: seq<string>

    ghost predicate Valid()
      reads this
    {
      Records(used, given)
    }

    constructor (scheme: Scheme)
      ensures Valid() && this.scheme == scheme && given == []
    {
      this.scheme := scheme;
      used, given := {}, [];
    }

    // The name given is the first candidate no earlier name equals ignoring case; the names given
    // stay pairwise different.
    method PathFor(begBates: string, originalFileName: string) returns (path: string)
      requires Valid()
      modifies this
      ensures Valid()
      ensures exists name: string, i: nat ::
                && given == old(given) + [name] && path == NATIVES + name
                && IsFirstFree(old(used), BaseName(scheme, begBates, originalFileName), i, name)
    {
      hide BaseName, Records, IsFirstFree;
      var base := BaseName(scheme, begBates, originalFileName);
      var candidate, i := FirstFree(used, base);
      FreeName(used, base, i, candidate);
      RecordsNext(used, given, candidate);
      used := used + {Lower(candidate)};
      given := given + [candidate];
      path := NATIVES + candidate;
    }
  }

  predicate IsFirstFree(used: set<string>, base: string, i: nat, name: string) {
    && name == Candidate(base, i) && Lower(name) !in used
    && forall k: nat :: k < i ==> Lower(Candidate(base, k)) in used
  }

  lemma FreeName(used: set<string>, base: string, i: nat, name: string)
    requires IsFirstFree(used, base, i, name)
    ensures Lower(name) !in used
  {
  }

  // The search ends whatever names are taken: more candidates differ than there are names in use.
  method FirstFree(used: set<string>, base: string) returns (candidate: string, i: nat)
    ensures IsFirstFree(used, base, i, candidate)
  {
    candidate := base;
    i := 0;
    assert candidate == Candidate(base, 0);
    hide Candidate, Lower;
    if Lower(candidate) in used {
      i := 1;
      candidate := Candidate(base, 1);
      while Lower(candidate) in used
        invariant i >= 1 && candidate == Candidate(base, i)
        invariant forall k: nat :: k < i ==> Lower(Candidate(base, k)) in used
        decreases |used| - i
      {
        TriedCount(base, i);
        forall x | x in Tried(base, i)
          ensures x in used
        {
          TriedAre(base, i, x);
        }
        SubsetCount(Tried(base, i), used);
        i := i + 1;
        candidate := Candidate(base, i);
      }
    }
  }

  lemma MiddleHasNoDot(i: nat)
    ensures forall c :: c in "_" + PadStart(ShowNat(i), 3) ==> c != '.'
  {
    ParsePad(i, 3);
    var p := PadStart(ShowNat(i), 3);
    hide PadStart, ShowNat;
    assert forall k :: 0 <= k < |p| ==> IsDigit(p[k]);
  }

  // A numbered name keeps its extension.
  lemma CandidateKeepsExtension(base: string, i: nat)
    requires SplitExtension(base).0 != ""
    ensures SplitExtension(Candidate(base, i)).1 == SplitExtension(base).1
  {
    var (stem, ext) := SplitExtension(base);
    if i > 0 {
      var middle := "_" + PadStart(ShowNat(i), 3);
      MiddleHasNoDot(i);
      assert Candidate(base, i) == stem + middle + ext;
      hide SplitExtension, Candidate, PadStart, ShowNat;
      ExtensionOf(stem, middle, ext, base);
    }
  }

  lemma ExtensionOf(stem: string, middle: string, ext: string, base: string)
    requires (stem, ext) == SplitExtension(base) && stem != ""
    requires forall c :: c in middle ==> c != '.'
    ensures SplitExtension(stem + middle + ext).1 == ext
  {
    var c := stem + middle + ext;
    var dot := LastDot(c);
    assert forall k :: |stem| <= k < |stem| + |middle| ==> c[k] == middle[k - |stem|] && c[k] in middle;
    hide LastDot;
    if ext != "" {
      assert c[|stem| + |middle|] == ext[0];
      assert forall k :: |stem| + |middle| < k < |c| ==> c[k] == ext[k - |stem| - |middle|] == base[k - |middle|];
      assert dot == |stem| + |middle|;
    } else {
      assert base == stem;
      assert forall k :: 0 <= k < |stem| ==> c[k] == base[k];
    }
  }
}
