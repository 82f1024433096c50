// apps/worker/src/queues.ts:75-109 and the counting of recovery keys by text
// (apps/worker/src/stalled-item-sweeper.ts:216-231): when the count the sweeper makes by key text
// is the number of attempts its plan needs.
module DedupKeys {
  import opened Text
  import opened Sequences
  import opened StalledItems

  datatype Source = Mail | Drive | Chat | Audit

  // What makes one page job of a scope different from another: the first one, the hash of the next
  // cursor, a reconciliation, or a recovery.
  datatype Mark = Begin | Cursor(hash: string) | Rescan(version: nat) | Resume(attempt: nat)

  datatype Scope = Scope(collectionId: nat, custodianId: nat, source: Source, scopeKey: string)

  datatype PageJob = PageJob(scope: Scope, mark: Mark)

  function SourceText(source: Source): (s: string)
    ensures ':' !in s && |s| < |"recover"|
  {
    match source
    case Mail => "email"
    case Drive => "drive"
    case Chat => "chat"
    case Audit => "audit"
  }

  function MarkText(mark: Mark): string {
    match mark
    case Begin => "start"
    case Cursor(hash) => hash
    case Rescan(version) => "rescan:" + ShowNat(version)
    case Resume(attempt) => "recover" + ShowNat(attempt)
  }

  // dedupKeys.collectionFetchPage
  function PageKey(scope: Scope, mark: string): string {
    "page" + ":" + (ShowNat(scope.collectionId) + ":" + (ShowNat(scope.custodianId) + ":" + (SourceText(scope.source) + ":"
      + (scope.scopeKey + ":" + mark))))
  }

  function KeyText(job: PageJob): string {
    PageKey(job.scope, MarkText(job.mark))
  }

  // { startsWith: prefix, contains: 'recover' }
  predicate Matches(key: string, prefix: string) {
    BeginsWith(key, prefix) && Includes(key, "recover")
  }

  function CountedTexts(jobs: set<PageJob>, scope: Scope): set<string> {
    set j | j in jobs && Matches(KeyText(j), PageKey(scope, "")) :: KeyText(j)
  }

  predicate HexDigits(s: string) {
    forall c | c in s :: IsHexChar(c)
  }

  predicate HashesAreHex(jobs: set<PageJob>) {
    forall j | j in jobs && j.mark.Cursor? :: HexDigits(j.mark.hash)
  }

  // The scope key extends the other after a colon.
  predicate Extends(a: string, b: string) {
    BeginsWith(a, b + ":")
  }

  // A page job counted for a scope though it is not a recovery of it: one of this scope, or of a scope
  // its prefix runs into, that has the word in its key.
  predicate Stray(job: PageJob, scope: Scope) {
    && job.scope.(scopeKey := scope.scopeKey) == scope
    && (job.mark.Resume? || Includes(job.scope.scopeKey, "recover"))
    && if job.scope == scope then !job.mark.Resume?
       else Extends(job.scope.scopeKey, scope.scopeKey) || (job.mark.Rescan? && scope.scopeKey == job.scope.scopeKey + ":rescan")
  }

  // ----- texts in segments -----

  lemma SegmentPrefix(a: string, x: string, b: string, y: string)
    requires ':' !in a && ':' !in b
    ensures BeginsWith(a + ":" + x, b + ":" + y) <==> a == b && BeginsWith(x, y)
  {
    var s, t := a + ":" + x, b + ":" + y;
    if BeginsWith(s, t) {
      assert s[|b|] == t[|b|] == ':';
      assert forall i :: 0 <= i < |b| && i < |a| ==> a[i] == s[i] == t[i] == b[i];
      assert s[|a|] == ':' && forall i :: 0 <= i < |b| ==> s[i] == t[i] == b[i];
      assert a == b;
      assert x[..|y|] == s[|a| + 1..][..|y|] == t[|b| + 1..];
    }
    if a == b && BeginsWith(x, y) {
      assert s[..|t|] == a + ":" + x[..|y|];
    }
  }

  lemma IncludesSplit(a: string, b: string, part: string)
    requires ':' !in part && part != []
    ensures Includes(a + ":" + b, part) <==> Includes(a, part) || Includes(b, part)
  {
    var s := a + ":" + b;
    if k :| 0 <= k <= |s| && BeginsWith(s[k..], part) {
      assert forall i :: k <= i < k + |part| ==> s[i] == part[i - k];
      assert s[|a|] == ':';
      if k + |part| <= |a| {
        assert a[k..][..|part|] == part;
      } else {
        assert k > |a|;
        assert b[k - |a| - 1..] == s[k..];
      }
    }
    if k :| 0 <= k <= |a| && BeginsWith(a[k..], part) {
      assert s[k..][..|part|] == a[k..][..|part|];
    }
    if k :| 0 <= k <= |b| && BeginsWith(b[k..], part) {
      assert s[|a| + 1 + k..] == b[k..];
    }
  }

  lemma WordNeeds(s: string)
    requires Includes(s, "recover")
    ensures |s| >= |"recover"| && 'r' in s
  {
    var k :| 0 <= k <= |s| && BeginsWith(s[k..], "recover");
    assert s[k] == s[k..][..|"recover"|][0] == 'r';
  }

  lemma WordMissing(s: string)
    requires |s| < |"recover"| || 'r' !in s
    ensures !Includes(s, "recover")
  {
    if Includes(s, "recover") { WordNeeds(s); }
  }

  lemma PageKeyWord(scope: Scope, mark: string)
    ensures Includes(PageKey(scope, mark), "recover") <==> Includes(scope.scopeKey, "recover") || Includes(mark, "recover")
  {
    var word := "recover";
    var e := scope.scopeKey + ":" + mark;
    var d := SourceText(scope.source) + ":" + e;
    var c := ShowNat(scope.custodianId) + ":" + d;
    var b := ShowNat(scope.collectionId) + ":" + c;
    IncludesSplit(scope.scopeKey, mark, word);
    IncludesSplit(SourceText(scope.source), e, word);
    IncludesSplit(ShowNat(scope.custodianId), d, word);
    IncludesSplit(ShowNat(scope.collectionId), c, word);
    IncludesSplit("page", b, word);
    WordMissing("page");
    WordMissing(SourceText(scope.source));
    WordMissing(ShowNat(scope.custodianId));
    WordMissing(ShowNat(scope.collectionId));
  }

  lemma ShowNatInjective(m: nat, n: nat)
    requires ShowNat(m) == ShowNat(n)
    ensures m == n
  {
    ParseShow(m);
    ParseShow(n);
  }

  // Only keys of the same collection, custodian and source can have the prefix.
  lemma PageKeyPrefix(scope: Scope, mark: string, other: Scope, rest: string)
    ensures BeginsWith(PageKey(other, mark), PageKey(scope, rest))
            <==> other.(scopeKey := scope.scopeKey) == scope && BeginsWith(other.scopeKey + ":" + mark, scope.scopeKey + ":" + rest)
  {
    var x4, y4 := other.scopeKey + ":" + mark, scope.scopeKey + ":" + rest;
    var x3, y3 := SourceText(other.source) + ":" + x4, SourceText(scope.source) + ":" + y4;
    var x2, y2 := ShowNat(other.custodianId) + ":" + x3, ShowNat(scope.custodianId) + ":" + y3;
    var x1, y1 := ShowNat(other.collectionId) + ":" + x2, ShowNat(scope.collectionId) + ":" + y2;
    SegmentPrefix("page", x1, "page", y1);
    SegmentPrefix(ShowNat(other.collectionId), x2, ShowNat(scope.collectionId), y2);
    SegmentPrefix(ShowNat(other.custodianId), x3, ShowNat(scope.custodianId), y3);
    SegmentPrefix(SourceText(other.source), x4, SourceText(scope.source), y4);
    if ShowNat(other.collectionId) == ShowNat(scope.collectionId) { ShowNatInjective(other.collectionId, scope.collectionId); }
    if ShowNat(other.custodianId) == ShowNat(scope.custodianId) { ShowNatInjective(other.custodianId, scope.custodianId); }
  }

  // What follows the last colon is the mark's own.
  lemma ScopePrefix(other: string, mark: string, scope: string)
    requires ':' !in mark
    ensures BeginsWith(other + ":" + mark, scope + ":") <==> other == scope || Extends(other, scope)
  {
    var a, b := other + ":" + mark, scope + ":";
    assert forall j :: |other| < j < |a| ==> a[j] == mark[j - |other| - 1];
    if BeginsWith(a, b) {
      assert a[|scope|] == b[|scope|] == ':';
      if |scope| == |other| {
        assert other == a[..|scope|] == b[..|scope|] == scope;
      } else {
        assert other[..|b|] == a[..|b|];
      }
    }
    if other == scope {
      assert a[..|b|] == b;
    } else if Extends(other, scope) {
      assert a[..|b|] == other[..|b|];
    }
  }

  lemma RescanPrefix(other: string, version: string, scope: string)
    requires ':' !in version
    ensures BeginsWith(other + ":" + ("rescan:" + version), scope + ":")
            <==> other == scope || Extends(other, scope) || scope == other + ":rescan"
  {
    assert other + ":" + ("rescan:" + version) == (other + ":rescan") + ":" + version;
    ScopePrefix(other + ":rescan", version, scope);
    ScopePrefix(other, "rescan", scope);
  }

  lemma MarkWord(mark: Mark)
    requires mark.Cursor? ==> HexDigits(mark.hash)
    ensures Includes(MarkText(mark), "recover") <==> mark.Resume?
  {
    match mark
    case Begin => WordMissing("start");
    case Cursor(hash) => WordMissing(hash);
    case Rescan(version) =>
      assert "rescan:" + ShowNat(version) == "rescan" + ":" + ShowNat(version);
      IncludesSplit("rescan", ShowNat(version), "recover");
      WordMissing("rescan");
      WordMissing(ShowNat(version));
    case Resume(attempt) =>
      var s := MarkText(mark);
      assert s[0..][..|"recover"|] == "recover";
  }

  // A page job is counted for a scope exactly when it is one of its recoveries, or a stray.
  lemma MatchesExactly(job: PageJob, scope: Scope)
    requires job.mark.Cursor? ==> HexDigits(job.mark.hash)
    ensures Matches(KeyText(job), PageKey(scope, "")) <==> (job.scope == scope && job.mark.Resume?) || Stray(job, scope)
  {
    var mark, other := MarkText(job.mark), job.scope.scopeKey;
    PageKeyPrefix(scope, mark, job.scope, "");
    PageKeyWord(job.scope, mark);
    MarkWord(job.mark);
    assert scope.scopeKey + ":" + "" == scope.scopeKey + ":";
    if job.mark.Rescan? {
      RescanPrefix(other, ShowNat(job.mark.version), scope.scopeKey);
    } else {
      ScopePrefix(other, mark, scope.scopeKey);
    }
    hide PageKey, MarkText, Includes, BeginsWith;
    assert other == scope.scopeKey && job.scope.(scopeKey := scope.scopeKey) == scope ==> job.scope == scope;
  }

  lemma LastColon(a: string, x: string, b: string, y: string)
    requires ':' !in x && ':' !in y && a + ":" + x == b + ":" + y
    ensures a == b && x == y
  {
    var s, t := a + ":" + x, b + ":" + y;
    assert forall i :: |a| < i < |s| ==> s[i] == x[i - |a| - 1];
    assert forall i :: |b| < i < |t| ==> t[i] == y[i - |b| - 1];
    assert s[|a|] == ':' && t[|b|] == ':';
    assert |a| == |b|;
    assert a == s[..|a|] == t[..|b|] == b;
    assert x == s[|a| + 1..] == t[|b| + 1..] == y;
  }

  // A mark that, written after some scope, reads as a recovery's is that recovery.
  lemma MarkIsItsOwn(other: string, mark: Mark, scope: string, attempt: nat)
    requires mark.Cursor? ==> HexDigits(mark.hash)
    requires other + ":" + MarkText(mark) == scope + ":" + MarkText(Resume(attempt))
    ensures other == scope && mark == Resume(attempt)
  {
    var text, number := MarkText(mark), MarkText(Resume(attempt));
    assert number[|"recover"|..] == ShowNat(attempt) && number[0] == 'r' && number[1] == 'e' && number[0] in number;
    match mark
    case Begin =>
      LastColon(other, text, scope, number);
    case Cursor(_) =>
      LastColon(other, text, scope, number);
    case Rescan(version) =>
      assert other + ":" + text == (other + ":rescan") + ":" + ShowNat(version);
      LastColon(other + ":rescan", ShowNat(version), scope, number);
    case Resume(n) =>
      LastColon(other, text, scope, number);
      assert text[|"recover"|..] == ShowNat(n);
      ShowNatInjective(n, attempt);
  }

  // The text of a recovery says which one it is.
  lemma ResumeTextIsItsOwn(job: PageJob, scope: Scope, attempt: nat)
    requires job.mark.Cursor? ==> HexDigits(job.mark.hash)
    requires KeyText(job) == KeyText(PageJob(scope, Resume(attempt)))
    ensures job == PageJob(scope, Resume(attempt))
  {
    var text, mark, number := KeyText(job), MarkText(job.mark), MarkText(Resume(attempt));
    PageKeyPrefix(scope, mark, job.scope, number);
    PageKeyPrefix(job.scope, number, scope, mark);
    hide PageKey, MarkText;
    assert BeginsWith(text, text);
    var a, b := job.scope.scopeKey + ":" + mark, scope.scopeKey + ":" + number;
    assert BeginsWith(a, b) && BeginsWith(b, a);
    assert a == b;
    MarkIsItsOwn(job.scope.scopeKey, job.mark, scope.scopeKey, attempt);
    assert job.scope.(scopeKey := scope.scopeKey) == scope;
  }

  // ----- the count -----

  function Recoveries(jobs: set<PageJob>, scope: Scope): set<PageJob> {
    set j | j in jobs && j.scope == scope && j.mark.Resume?
  }

  function Texts(jobs: set<PageJob>): set<string> {
    set j | j in jobs :: KeyText(j)
  }

  lemma {:induction false} AsManyTexts(jobs: set<PageJob>, scope: Scope)
    requires forall j | j in jobs :: j.scope == scope && j.mark.Resume?
    ensures |Texts(jobs)| == |jobs|
  {
    if j :| j in jobs {
      AsManyTexts(jobs - {j}, scope);
      forall k | k in jobs - {j}
        ensures KeyText(k) != KeyText(j)
      {
        if KeyText(k) == KeyText(j) { ResumeTextIsItsOwn(k, scope, j.mark.attempt); }
      }
      hide KeyText;
      assert Texts(jobs) == Texts(jobs - {j}) + {KeyText(j)};
      assert KeyText(j) !in Texts(jobs - {j});
    } else {
      assert Texts(jobs) == {};
    }
  }

  lemma StrayIsNone(job: PageJob, scope: Scope)
    requires Stray(job, scope)
    ensures !(job.scope == scope && job.mark.Resume?)
  {
  }

  // The sweeper's count by text is the number of recoveries of the scope exactly when no stray is there.
  lemma TextCountExactly(jobs: set<PageJob>, scope: Scope)
    requires HashesAreHex(jobs)
    ensures |CountedTexts(jobs, scope)| >= |Recoveries(jobs, scope)|
    ensures |CountedTexts(jobs, scope)| == |Recoveries(jobs, scope)| <==> forall j | j in jobs :: !Stray(j, scope)
  {
    var mine := Recoveries(jobs, scope);
    AsManyTexts(mine, scope);
    forall j | j in jobs
      ensures Matches(KeyText(j), PageKey(scope, "")) <==> j in mine || Stray(j, scope)
    {
      MatchesExactly(j, scope);
    }
    forall j | j in jobs && KeyText(j) in Texts(mine)
      ensures j in mine
    {
      var k :| k in mine && KeyText(k) == KeyText(j);
      ResumeTextIsItsOwn(j, scope, k.mark.attempt);
    }
    hide KeyText, Matches, Stray, PageKey;
    var counted := CountedTexts(jobs, scope);
    assert Texts(mine) <= counted;
    SubsetCount(Texts(mine), counted);
    if j :| j in jobs && Stray(j, scope) {
      StrayIsNone(j, scope);
      assert KeyText(j) in counted && KeyText(j) !in Texts(mine);
    } else {
      assert counted == Texts(mine);
    }
  }

  // ----- strays or not, a recovery is never written under a used key -----

  // No recovery of the scope is numbered above the count by text.
  predicate NumbersFit(jobs: set<PageJob>, scope: Scope) {
    forall j | j in jobs && j.scope == scope && j.mark.Resume? :: j.mark.attempt <= |CountedTexts(jobs, scope)|
  }

  function NextRecovery(jobs: set<PageJob>, scope: Scope): PageJob {
    PageJob(scope, Resume(|CountedTexts(jobs, scope)| + 1))
  }

  lemma CountGrows(jobs: set<PageJob>, job: PageJob, scope: Scope)
    ensures |CountedTexts(jobs, scope)| <= |CountedTexts(jobs + {job}, scope)|
  {
    SubsetCount(CountedTexts(jobs, scope), CountedTexts(jobs + {job}, scope));
  }

  lemma NextCounts(jobs: set<PageJob>, scope: Scope)
    requires HashesAreHex(jobs) && NumbersFit(jobs, scope)
    ensures var next := NextRecovery(jobs, scope);
            KeyText(next) !in Texts(jobs) && CountedTexts(jobs + {next}, scope) == CountedTexts(jobs, scope) + {KeyText(next)}
  {
    var next := NextRecovery(jobs, scope);
    forall j | j in jobs
      ensures KeyText(j) != KeyText(next)
    {
      if KeyText(j) == KeyText(next) { ResumeTextIsItsOwn(j, scope, next.mark.attempt); }
    }
    MatchesExactly(next, scope);
    hide KeyText, Matches, PageKey, HashesAreHex;
  }

  lemma OtherNumbersFit(jobs: set<PageJob>, next: PageJob, other: Scope)
    requires NumbersFit(jobs, other)
    requires next.scope == other && next.mark.Resume? ==> next.mark.attempt <= |CountedTexts(jobs + {next}, other)|
    ensures NumbersFit(jobs + {next}, other)
  {
    CountGrows(jobs, next, other);
    hide CountedTexts;
  }

  // The next recovery's key is new, it counts for its scope, and the numbers of every scope still fit.
  lemma NextKeyIsFresh(jobs: set<PageJob>, scope: Scope, other: Scope)
    requires HashesAreHex(jobs) && NumbersFit(jobs, scope) && NumbersFit(jobs, other)
    ensures var next := NextRecovery(jobs, scope);
            && KeyText(next) !in Texts(jobs)
            && |CountedTexts(jobs + {next}, scope)| == |CountedTexts(jobs, scope)| + 1
            && HashesAreHex(jobs + {next}) && NumbersFit(jobs + {next}, other)
  {
    var next := NextRecovery(jobs, scope);
    NextCounts(jobs, scope);
    CountedAreTexts(jobs, scope);
    hide KeyText, CountedTexts, Texts;
    OtherNumbersFit(jobs, next, other);
  }

  lemma CountedAreTexts(jobs: set<PageJob>, scope: Scope)
    ensures CountedTexts(jobs, scope) <= Texts(jobs)
  {
    hide KeyText, Matches, PageKey;
  }

  function FirstJobs(scope: Scope, second: string, third: string): set<PageJob> {
    {PageJob(scope, Begin), PageJob(scope, Cursor(second)), PageJob(scope, Cursor(third))}
  }

  lemma MarksTellApart(scope: Scope, m: string, n: string)
    requires m != n
    ensures PageKey(scope, m) != PageKey(scope, n)
  {
    var p := PageKey(scope, "");
    assert PageKey(scope, m)[|p|..] == m && PageKey(scope, n)[|p|..] == n;
  }

  lemma WordCounts(jobs: set<PageJob>, scope: Scope, mark: Mark)
    requires Includes(scope.scopeKey, "recover") && !mark.Resume? && (mark.Cursor? ==> HexDigits(mark.hash))
    requires PageJob(scope, mark) in jobs
    ensures PageKey(scope, MarkText(mark)) in CountedTexts(jobs, scope)
  {
    MatchesExactly(PageJob(scope, mark), scope);
  }

  lemma ThreeCount(jobs: set<PageJob>, scope: Scope, m: Mark, n: Mark, o: Mark)
    requires MarkText(m) != MarkText(n) && MarkText(n) != MarkText(o) && MarkText(m) != MarkText(o)
    requires forall mark | mark in {m, n, o} :: PageKey(scope, MarkText(mark)) in CountedTexts(jobs, scope)
    ensures |CountedTexts(jobs, scope)| >= 3
  {
    hide *;
    var a, b, c := MarkText(m), MarkText(n), MarkText(o);
    MarksTellApart(scope, a, b);
    MarksTellApart(scope, a, c);
    MarksTellApart(scope, b, c);
    var texts := {PageKey(scope, a), PageKey(scope, b), PageKey(scope, c)};
    assert |texts| == 3;
    assert m in {m, n, o} && n in {m, n, o} && o in {m, n, o};
    SubsetCount(texts, CountedTexts(jobs, scope));
  }

  lemma HexIsNotStart(hash: string)
    requires HexDigits(hash)
    ensures MarkText(Begin) != hash
  {
    var first := MarkText(Begin);
    assert first[0] == 's' && first[0] in first;
  }

  // The first three page jobs of a scope with the word in its key, a folder called "recovery" say, are
  // strays of it: when it stalls it is given up without one recovery.
  lemma FolderNameCounts(scope: Scope, second: string, third: string)
    requires Includes(scope.scopeKey, "recover") && HexDigits(second) && HexDigits(third) && second != third
    ensures Recoveries(FirstJobs(scope, second, third), scope) == {}
    ensures PageWalkPlan(STALL_AFTER_MS, |CountedTexts(FirstJobs(scope, second, third), scope)|) == GiveUp(AttemptsSpent)
  {
    hide PageKey, Includes, CountedTexts, HexDigits;
    var jobs := FirstJobs(scope, second, third);
    WordCounts(jobs, scope, Begin);
    WordCounts(jobs, scope, Cursor(second));
    WordCounts(jobs, scope, Cursor(third));
    HexIsNotStart(second);
    HexIsNotStart(third);
    ThreeCount(jobs, scope, Begin, Cursor(second), Cursor(third));
  }
}
