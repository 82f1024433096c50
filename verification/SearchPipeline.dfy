// From a parsed query to the documents it finds: what validation accepts, that it
// keeps the written meaning, and the pipeline parse -> validate -> compile.
module SearchPipeline {
  import opened Wrappers
  import opened Text
  import opened SearchFields
  import opened SearchAst
  import opened SearchDocument
  import opened SearchCompile
  import opened SearchMeaning
  import opened SearchValidate
  import opened SearchCorrectness
  import SearchParser
  import SearchRoundTrip

  // ----- what is accepted -----

  function Height(n: QueryNode): (h: nat)
    ensures h >= 1
    decreases n, 1
  {
    match n
    case Group(_, children) => 1 + TallestOf(children)
    case Not(child) => 1 + Height(child)
    case _ => 1
  }

  function TallestOf(children: seq<QueryNode>): nat
    decreases children, 0
  {
    if children == [] then 0
    else
      var init, last := TallestOf(children[..|children| - 1]), Height(children[|children| - 1]);
      if init < last then last else init
  }

  function LeafCount(n: QueryNode): nat
    decreases n, 1
  {
    match n
    case Group(_, children) => LeafCountOf(children)
    case Not(child) => LeafCount(child)
    case MatchAll => 0
    case _ => 1
  }

  function LeafCountOf(children: seq<QueryNode>): nat
    decreases children, 0
  {
    if children == [] then 0 else LeafCountOf(children[..|children| - 1]) + LeafCount(children[|children| - 1])
  }

  predicate EveryLeaf(r: Rules, n: QueryNode)
    decreases n, 1
  {
    match n
    case Group(_, children) => forall c | c in children :: EveryLeaf(r, c)
    case Not(child) => EveryLeaf(r, child)
    case MatchAll => true
    case _ => LeafOk(r, n)
  }

  predicate FuzzyOk(r: Rules, f: ResolvedField, fuzzy: Option<nat>) {
    fuzzy.Some? ==> !IsDateLike(f) && fuzzy.value <= r.limits.maxFuzzyEdits
  }

  predicate ValueOk(r: Rules, f: ResolvedField, raw: string) {
    && (f.fieldType.DateType? ==> r.literals.parseDate(raw).Some?)
    && (f.fieldType.SizeType? ==> r.literals.parseSize(raw).Some?)
    && (f.fieldType.BooleanType? ==> Lower(raw) in {"true", "false"})
    && (IsHashField(f.name) && !IsDateLike(f) ==> IsHashText(Lower(raw)))
  }

  predicate BoundOk(r: Rules, f: ResolvedField, raw: Option<string>) {
    raw.Some? ==> if f.fieldType.DateType? then r.literals.parseDate(raw.value).Some? else r.literals.parseSize(raw.value).Some?
  }

  // The rules on one leaf, as the guide to the query language states them.
  predicate LeafOk(r: Rules, n: QueryNode)
    requires IsQueryLeaf(n)
  {
    var field := if n.Range? then Resolve(r.defs, n.rangeField) else if n.Exists? then Resolve(r.defs, n.existsField)
                 else ResolveOptional(r, n.field);
    field.Some? &&
    match n
    case Term(_, raw, fuzzy) => raw != "" && FuzzyOk(r, field.value, fuzzy) && ValueOk(r, field.value, raw)
    case Phrase(_, v, proximity) =>
      && !Blank(v) && !IsDateLike(field.value) && WordCount(v) <= r.limits.maxPhraseTerms
      && (proximity.Some? ==> proximity.value <= r.limits.maxProximity)
    case Wildcard(_, v) =>
      && !IsDateLike(field.value)
      && forall i :: 0 <= i < |v| && v[i] in {'*', '?'} ==> i > 0 && i >= r.limits.minWildcardPrefix
    case Range(_, b) =>
      && field.value.fieldType in {DateType, SizeType} && b != Unbounded()
      && BoundOk(r, field.value, b.gte) && BoundOk(r, field.value, b.lte)
      && BoundOk(r, field.value, b.gt) && BoundOk(r, field.value, b.lt)
    case Exists(_) => !(field.value.esPath == AllText && field.value.fieldType.TextType?)
  }

  lemma WildcardPrefix(v: string, min: nat)
    ensures (FirstWildcard(v).None? || (FirstWildcard(v).value > 0 && FirstWildcard(v).value >= min))
            <==> forall i :: 0 <= i < |v| && v[i] in {'*', '?'} ==> i > 0 && i >= min
  {
    if FirstWildcard(v).Some? {
      assert v[FirstWildcard(v).value] in {'*', '?'};
    }
  }

  lemma RangeRule(r: Rules, name: string, b: Bounds<string>)
    ensures RangeVerdict(r, name, b).faults == [] <==> LeafOk(r, Range(name, b))
  {
    var field := Resolve(r.defs, name);
    if field.Some? && field.value.fieldType in {DateType, SizeType} {
      var f := field.value;
      BoundRule(r, f, b.gte);
      BoundRule(r, f, b.lte);
      BoundRule(r, f, b.gt);
      BoundRule(r, f, b.lt);
    }
  }

  lemma BoundRule(r: Rules, f: ResolvedField, raw: Option<string>)
    ensures BoundFaults(r, f, raw) == [] <==> BoundOk(r, f, raw)
    ensures BoundOk(r, f, raw) ==> (BoundResult(r, f, raw).None? <==> raw.None?)
  {
  }

  lemma LeafRule(r: Rules, n: QueryNode)
    requires IsQueryLeaf(n)
    ensures LeafVerdict(r, n).faults == [] <==> LeafOk(r, n)
  {
    match n
    case Wildcard(_, v) => WildcardPrefix(v, r.limits.minWildcardPrefix);
    case Range(f, b) => RangeRule(r, f, b);
    case _ =>
  }

  lemma {:induction false} WalkRule(r: Rules, n: QueryNode, depth: nat)
    requires depth >= 1
    ensures WalkVerdict(r, n, depth).faults == [] <==> Height(n) + depth <= r.limits.maxDepth + 1 && EveryLeaf(r, n)
    ensures Height(n) + depth <= r.limits.maxDepth + 1 ==> Clauses(r, n, depth) == LeafCount(n)
    decreases n, 1
  {
    match n
    case Group(_, children) => WalkAllRule(r, children, depth + 1);
    case Not(child) => WalkRule(r, child, depth + 1);
    case MatchAll =>
    case _ => LeafRule(r, n);
  }

  lemma {:induction false} WalkAllRule(r: Rules, children: seq<QueryNode>, depth: nat)
    requires depth >= 1
    ensures WalkAll(r, children, depth).1 == [] <==>
            (children == [] || TallestOf(children) + depth <= r.limits.maxDepth + 1) && forall c | c in children :: EveryLeaf(r, c)
    ensures (children == [] || TallestOf(children) + depth <= r.limits.maxDepth + 1) ==>
              ClausesOfAll(r, children, depth) == LeafCountOf(children)
    decreases children, 0
  {
    if children != [] {
      var init, last := children[..|children| - 1], children[|children| - 1];
      WalkAllRule(r, init, depth);
      WalkRule(r, last, depth);
      assert children == init + [last];
    }
  }

  // The validator accepts exactly the queries within the depth and clause limits whose leaves obey the rules.
  lemma AcceptsExactly(r: Rules, root: QueryNode)
    ensures Validated(r, root).Ok? <==>
            Height(root) <= r.limits.maxDepth && LeafCount(root) <= r.limits.maxClauses && EveryLeaf(r, root)
  {
    WalkRule(r, root, 1);
  }

  // ----- what a query says as written -----

  ghost predicate WrittenTerm(e: Engine, r: Rules, f: ResolvedField, raw: string, fuzzy: Option<nat>, d: EvidenceDoc) {
    match f.fieldType
    case DateType =>
      var day := r.literals.parseDate(raw);
      day.Some? && f.esPath in d.dates
      && e.dateBound(AtLeastOp, d.dates[f.esPath], day.value) && e.dateBound(AtMostOp, d.dates[f.esPath], day.value)
    case SizeType => d.size.Some? && r.literals.parseSize(raw) == Some(d.size.value)
    case BooleanType => FlagOf(d, f.esPath) == (Lower(raw) == "true")
    case _ => TermMeans(e, f, Str(raw), fuzzy, d)
  }

  predicate WrittenBound(e: Engine, r: Rules, f: ResolvedField, op: BoundOp, raw: Option<string>, d: EvidenceDoc) {
    raw.Some? ==>
      match f.fieldType
      case DateType =>
        var day := r.literals.parseDate(raw.value);
        day.Some? && f.esPath in d.dates && e.dateBound(op, d.dates[f.esPath], day.value)
      case SizeType =>
        var bytes := r.literals.parseSize(raw.value);
        bytes.Some? && d.size.Some? &&
        (match op case AtLeastOp => d.size.value >= bytes.value case AtMostOp => d.size.value <= bytes.value
         case AboveOp => d.size.value > bytes.value case BelowOp => d.size.value < bytes.value)
      case _ => false
  }

  ghost predicate WrittenLeaf(e: Engine, r: Rules, n: QueryNode, d: EvidenceDoc)
    requires IsQueryLeaf(n)
  {
    var field := if n.Range? then Resolve(r.defs, n.rangeField) else if n.Exists? then Resolve(r.defs, n.existsField)
                 else ResolveOptional(r, n.field);
    field.Some? &&
    match n
    case Term(_, raw, fuzzy) => WrittenTerm(e, r, field.value, raw, fuzzy, d)
    case Phrase(_, v, proximity) => PhraseMeans(e, field.value, v, proximity, d)
    case Wildcard(_, v) => WildcardMeans(e, field.value, v, d)
    case Range(_, b) =>
      && WrittenBound(e, r, field.value, AtLeastOp, b.gte, d) && WrittenBound(e, r, field.value, AtMostOp, b.lte, d)
      && WrittenBound(e, r, field.value, AboveOp, b.gt, d) && WrittenBound(e, r, field.value, BelowOp, b.lt, d)
    case Exists(_) => ExistsMeans(field.value, d)
  }

  ghost predicate Written(e: Engine, r: Rules, n: QueryNode, d: EvidenceDoc)
    decreases n
  {
    match n
    case MatchAll => true
    case Group(AndOp, children) => forall c | c in children :: Written(e, r, c, d)
    case Group(OrOp, children) => exists c | c in children :: Written(e, r, c, d)
    case Not(child) => !Written(e, r, child, d)
    case _ => WrittenLeaf(e, r, n, d)
  }

  // ----- validation keeps it -----

  lemma ResolveOk(r: Rules, name: Option<string>)
    requires RegistryOk(r.defs)
    ensures ResolveOptional(r, name).Some? ==> FieldOk(ResolveOptional(r, name).value)
  {
    if name.Some? { ResolvedFieldOk(r.defs, name.value); }
  }

  lemma TermKeepsMeaning(e: Engine, r: Rules, n: QueryNode, d: EvidenceDoc)
    requires RegistryOk(r.defs) && n.Term? && LeafOk(r, n)
    ensures var v := TermVerdict(r, n.field, n.value, n.fuzzy);
            v.node.Some? && WellTyped(v.node.value) && (Means(e, v.node.value, d) <==> WrittenLeaf(e, r, n, d))
  {
    ResolveOk(r, n.field);
    var f := ResolveOptional(r, n.field).value;
    if IsHashField(f.name) && !IsDateLike(f) {
      LowerIdempotent(n.value);
      HashTermFolds(e, f, n.value, n.fuzzy, d);
    }
  }

  // A digest is looked up in lower case whichever way it is written.
  lemma HashTermFolds(e: Engine, f: ResolvedField, raw: string, fuzzy: Option<nat>, d: EvidenceDoc)
    requires FieldOk(f) && IsHashField(f.name)
    ensures TermMeans(e, f, Str(Lower(raw)), fuzzy, d) <==> TermMeans(e, f, Str(raw), fuzzy, d)
  {
    LowerIdempotent(raw);
    forall s
      ensures Like(e, s, Lower(raw), fuzzy) <==> Like(e, s, raw, fuzzy)
    {
    }
  }

  lemma RangeKeepsMeaning(e: Engine, r: Rules, n: QueryNode, d: EvidenceDoc)
    requires RegistryOk(r.defs) && n.Range? && LeafOk(r, n)
    ensures var v := RangeVerdict(r, n.rangeField, n.bounds);
            v.node.Some? && WellTyped(v.node.value) && (Means(e, v.node.value, d) <==> WrittenLeaf(e, r, n, d))
  {
    RangeRule(r, n.rangeField, n.bounds);
    ResolveOk(r, Some(n.rangeField));
    var f := Resolve(r.defs, n.rangeField).value;
    BoundKept(e, r, f, AtLeastOp, n.bounds.gte, d);
    BoundKept(e, r, f, AtMostOp, n.bounds.lte, d);
    BoundKept(e, r, f, AboveOp, n.bounds.gt, d);
    BoundKept(e, r, f, BelowOp, n.bounds.lt, d);
  }

  lemma BoundKept(e: Engine, r: Rules, f: ResolvedField, op: BoundOp, raw: Option<string>, d: EvidenceDoc)
    requires f.fieldType in {DateType, SizeType} && BoundOk(r, f, raw)
    ensures WrittenBound(e, r, f, op, raw, d) <==>
            (raw.Some? ==> if f.fieldType.DateType? then f.esPath in d.dates && BoundHit(e, op, Str(d.dates[f.esPath]), BoundResult(r, f, raw))
                           else d.size.Some? && BoundHit(e, op, Num(d.size.value), BoundResult(r, f, raw)))
  {
  }

  lemma LeafKeepsMeaning(e: Engine, r: Rules, n: QueryNode, d: EvidenceDoc)
    requires RegistryOk(r.defs) && IsQueryLeaf(n) && LeafOk(r, n)
    ensures var v := LeafVerdict(r, n);
            v.node.Some? && WellTyped(v.node.value) && (Means(e, v.node.value, d) <==> WrittenLeaf(e, r, n, d))
  {
    match n
    case Term(_, _, _) => TermKeepsMeaning(e, r, n, d);
    case Range(_, _) => RangeKeepsMeaning(e, r, n, d);
    case Exists(f) => ResolveOk(r, Some(f));
    case Phrase(f, _, _) => ResolveOk(r, f);
    case Wildcard(f, v) => ResolveOk(r, f); WildcardPrefix(v, r.limits.minWildcardPrefix);
  }

  lemma {:induction false} WalkKeepsMeaning(e: Engine, r: Rules, n: QueryNode, depth: nat, d: EvidenceDoc)
    requires RegistryOk(r.defs) && WideGroups(n) && depth >= 1
    requires WalkVerdict(r, n, depth).faults == []
    ensures var v := WalkVerdict(r, n, depth).node;
            v.Some? && WellTyped(v.value) && (Means(e, v.value, d) <==> Written(e, r, n, d))
    decreases n, 1
  {
    match n
    case Group(op, children) =>
      NullHasReason(r, n, depth);
      WalkAllKeepsMeaning(e, r, children, depth + 1, d);
      var kept := WalkAll(r, children, depth + 1).0;
      GroupKeepsMeaning(e, r, op, children, kept, d);
    case Not(child) => WalkKeepsMeaning(e, r, child, depth + 1, d);
    case MatchAll =>
    case _ =>
      LeafRule(r, n);
      LeafKeepsMeaning(e, r, n, d);
  }

  lemma {:induction false} WalkAllKeepsMeaning(e: Engine, r: Rules, children: seq<QueryNode>, depth: nat, d: EvidenceDoc)
    requires RegistryOk(r.defs) && depth >= 1 && forall c | c in children :: WideGroups(c)
    requires WalkAll(r, children, depth).1 == []
    ensures var kept := WalkAll(r, children, depth).0;
            && |kept| == |children|
            && forall i :: 0 <= i < |kept| ==> WellTyped(kept[i]) && (Means(e, kept[i], d) <==> Written(e, r, children[i], d))
    decreases children, 0
  {
    if children != [] {
      hide WalkVerdict, Means, Written, WellTyped, WideGroups, RegistryOk;
      var init, last := children[..|children| - 1], children[|children| - 1];
      assert WalkAll(r, init, depth).1 == [] && WalkVerdict(r, last, depth).faults == [];
      WalkAllKeepsMeaning(e, r, init, depth, d);
      WalkKeepsMeaning(e, r, last, depth, d);
      var kept, v := WalkAll(r, init, depth).0, WalkVerdict(r, last, depth).node.value;
      assert WalkAll(r, children, depth).0 == kept + [v];
    }
  }

  lemma GroupKeepsMeaning(e: Engine, r: Rules, op: BoolOp, children: seq<QueryNode>, kept: seq<ValidatedNode>, d: EvidenceDoc)
    requires |kept| == |children| > 0
    requires forall i :: 0 <= i < |kept| ==> WellTyped(kept[i]) && (Means(e, kept[i], d) <==> Written(e, r, children[i], d))
    ensures WellTyped(VGroup(op, kept)) && (Means(e, VGroup(op, kept), d) <==> Written(e, r, Group(op, children), d))
  {
    forall c | c in kept
      ensures exists i :: 0 <= i < |kept| && kept[i] == c && children[i] in children
    {
      var i :| 0 <= i < |kept| && kept[i] == c;
      assert children[i] in children;
    }
    forall c | c in children
      ensures exists i :: 0 <= i < |kept| && children[i] == c && kept[i] in kept
    {
      var i :| 0 <= i < |children| && children[i] == c;
      assert kept[i] in kept;
    }
  }

  // ----- the pipeline -----

  // Parse, validate, compile: what a search request sends, or why it is refused.
  datatype PipelineError = BadSyntax(position: nat) | BadQuery(violations: seq<Violation>) | BadTenant

  function SearchFor(r: Rules, ast: QueryNode, auth: AuthContext): Result<Dsl, PipelineError> {
    match Validated(r, ast)
    case Err(v) => Err(BadQuery(v))
    case Ok(root) =>
      match Compile(root, auth)
      case Err(_) => Err(BadTenant)
      case Ok(dsl) => Ok(dsl)
  }

  function Search(r: Rules, input: string, auth: AuthContext): Result<Dsl, PipelineError> {
    match SearchParser.ParseText(input)
    case Err(err) => Err(BadSyntax(err.position))
    case Ok(ast) => SearchFor(r, ast, auth)
  }

  // A request built from any tree of either front end finds exactly the visible
  // documents that satisfy the query as written, when every leaf is one the compiler
  // translates faithfully.
  lemma SearchFindsWhatIsWritten(e: Engine, r: Rules, ast: QueryNode, auth: AuthContext, d: EvidenceDoc)
    requires RegistryOk(r.defs) && WideGroups(ast)
    requires SearchFor(r, ast, auth).Ok? && AllFaithful(Validated(r, ast).value)
    ensures Matches(e, SearchFor(r, ast, auth).value, RootHit(d)) <==> Visible(d, auth) && Written(e, r, ast, d)
  {
    WalkKeepsMeaning(e, r, ast, 1, d);
    CompileKeepsMeaning(e, Validated(r, ast).value, auth, d);
  }

  // The text front end, end to end.
  lemma TextSearchFindsWhatIsWritten(e: Engine, r: Rules, input: string, auth: AuthContext, d: EvidenceDoc)
    requires RegistryOk(r.defs) && Search(r, input, auth).Ok?
    requires AllFaithful(Validated(r, SearchParser.ParseText(input).value).value)
    ensures Matches(e, Search(r, input, auth).value, RootHit(d)) <==>
            Visible(d, auth) && Written(e, r, SearchParser.ParseText(input).value, d)
  {
    SearchRoundTrip.ParseTextWide(input);
    SearchFindsWhatIsWritten(e, r, SearchParser.ParseText(input).value, auth, d);
  }

  // Faithful or not, valid or not, no text reaches a document its caller may not see.
  lemma NoTextEscapesAuthorization(e: Engine, r: Rules, input: string, auth: AuthContext, d: EvidenceDoc)
    requires Search(r, input, auth).Ok? && Matches(e, Search(r, input, auth).value, RootHit(d))
    ensures Visible(d, auth) && auth.caseIds != Some([]) && auth.tenantId != ""
  {
    var ast := SearchParser.ParseText(input).value;
    NoQueryEscapesAuthorization(e, Validated(r, ast).value, auth, d);
  }
}
