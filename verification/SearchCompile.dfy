// packages/search/src/compile.ts: validated queries to OpenSearch DSL, and what the DSL matches.
module SearchCompile {
  import opened Wrappers
  import opened Text
  import opened SearchFields
  import opened SearchAst
  import opened SearchDocument

  datatype Dsl =
    | MatchAllQuery
    | TermQuery(path: Path, term: TermValue)
    | TermsQuery(path: Path, terms: seq<string>)
    | MatchQuery(path: Path, query: string, fuzziness: Option<nat>)
    | MatchPhraseQuery(path: Path, query: string, slop: nat)
    | MultiMatch(query: string, paths: seq<FieldId>, fuzziness: Option<nat>)
    | MultiMatchPhrase(query: string, slop: nat, paths: seq<FieldId>)
    | WildcardQuery(path: Path, pattern: string)
    | FuzzyQuery(path: Path, query: string, edits: nat)
    | ExistsQuery(path: Path)
    | RangeQuery(path: Path, bounds: Bounds<TermValue>)
    | Nested(nestedPath: FieldId, inner: Dsl)
    | Bool(must: seq<Dsl>, should: seq<Dsl>, mustNot: seq<Dsl>, filter: seq<Dsl>, oneShould: bool)  // oneShould: minimum_should_match is 1

  function MustAll(qs: seq<Dsl>): Dsl { Bool(qs, [], [], [], false) }

  function ShouldOne(qs: seq<Dsl>): Dsl { Bool([], qs, [], [], true) }

  function MustNot(q: Dsl): Dsl { Bool([], [], [q], [], false) }

  // ----- the compiler -----

  const ALL_TEXT_FIELDS: seq<FieldId> :=
    [TextBody, TextBodyHtml, TextAttachment, TextFile, TextOcr, ItemName, EmailSubject]

  function WildcardPath(p: FieldId): Path {
    if p in {ItemName, EmailSubject} then Dot(Field(p), KeywordSub) else Field(p)
  }

  predicate IsEmailAddress(value: string) {
    '@' in value
  }

  function AddressPath(f: ResolvedField, value: string): Path {
    if f.esPath == Addresses then Dot(Field(Addresses), if IsEmailAddress(value) then AllSub else DomainsSub)
    else Dot(Field(f.esPath), if IsEmailAddress(value) then AddressSub else DomainSub)
  }

  function HeaderQuery(f: ResolvedField, valueQuery: Dsl): Dsl {
    var name := if f.headerName.Some? then f.headerName.value else "";
    Nested(Headers, MustAll([TermQuery(Dot(Field(Headers), NameSub), Str(name)), valueQuery]))
  }

  const HEADER_VALUE := Dot(Field(Headers), ValueSub)

  const OCR_PAGE_TEXT := Dot(Field(OcrPages), TextSub)

  function BatesQuery(value: string): Dsl {
    Nested(BatesRanges, ShouldOne([TermQuery(Dot(Field(BatesRanges), BegBatesSub), Str(Lower(value))),
                                   TermQuery(Dot(Field(BatesRanges), EndBatesSub), Str(Lower(value)))]))
  }

  function CompileTerm(f: ResolvedField, v: TermValue, fuzzy: Option<nat>): Dsl {
    var text := WholeText(v);
    match f.fieldType
    case HeaderType => HeaderQuery(f, MatchQuery(HEADER_VALUE, text, fuzzy))
    case OcrType => ShouldOne([MatchQuery(Field(TextOcr), text, fuzzy),
                               Nested(OcrPages, MatchQuery(OCR_PAGE_TEXT, text, fuzzy))])
    case AddressType => TermQuery(AddressPath(f, text), Str(Lower(text)))
    case BooleanType => TermQuery(Field(f.esPath), Flag(v == Flag(true)))
    case SizeType => TermQuery(Field(f.esPath), v)
    case KeywordType =>
      if f.name == "bates" then BatesQuery(text)
      else if fuzzy.Some? then FuzzyQuery(Field(f.esPath), text, fuzzy.value)
      else TermQuery(Field(f.esPath), Str(Lower(text)))
    case TextType =>
      if f.esPath == AllText then MultiMatch(text, ALL_TEXT_FIELDS, fuzzy)
      else MatchQuery(Field(f.esPath), text, fuzzy)
    case DateType => TermQuery(Field(f.esPath), Str(text))
  }

  function CompilePhrase(f: ResolvedField, value: string, proximity: Option<nat>): Dsl {
    var slop := if proximity.Some? then proximity.value else 0;
    match f.fieldType
    case HeaderType => HeaderQuery(f, MatchPhraseQuery(HEADER_VALUE, value, slop))
    case OcrType => ShouldOne([MatchPhraseQuery(Field(TextOcr), value, slop),
                               Nested(OcrPages, MatchPhraseQuery(OCR_PAGE_TEXT, value, slop))])
    case AddressType => TermQuery(AddressPath(f, value), Str(Lower(value)))
    case KeywordType =>
      if f.name == "bates" then BatesQuery(value) else TermQuery(Field(f.esPath), Str(Lower(value)))
    case TextType =>
      if f.esPath == AllText then MultiMatchPhrase(value, slop, ALL_TEXT_FIELDS)
      else MatchPhraseQuery(Field(f.esPath), value, slop)
    case _ => MatchPhraseQuery(Field(f.esPath), value, slop)
  }

  function CompileWildcard(f: ResolvedField, value: string): Dsl {
    var pattern := Lower(value);
    match f.fieldType
    case HeaderType => HeaderQuery(f, WildcardQuery(Dot(HEADER_VALUE, KeywordSub), pattern))
    case OcrType => WildcardQuery(Field(TextOcr), pattern)
    case AddressType => WildcardQuery(AddressPath(f, value), pattern)
    case KeywordType =>
      if f.name == "bates" then
        Nested(BatesRanges, ShouldOne([WildcardQuery(Dot(Field(BatesRanges), BegBatesSub), pattern),
                                       WildcardQuery(Dot(Field(BatesRanges), EndBatesSub), pattern)]))
      else WildcardQuery(Field(f.esPath), pattern)
    case TextType =>
      if f.esPath == AllText then
        ShouldOne(seq(|ALL_TEXT_FIELDS|, i requires 0 <= i < |ALL_TEXT_FIELDS| =>
                    WildcardQuery(WildcardPath(ALL_TEXT_FIELDS[i]), pattern)))
      else WildcardQuery(WildcardPath(f.esPath), pattern)
    case _ => WildcardQuery(WildcardPath(f.esPath), pattern)
  }

  function CompileExists(f: ResolvedField): Dsl {
    if f.fieldType.HeaderType? then
      Nested(Headers, TermQuery(Dot(Field(Headers), NameSub), Str(if f.headerName.Some? then f.headerName.value else "")))
    else if f.fieldType.AddressType? then
      ExistsQuery(Dot(Field(f.esPath), if f.esPath == Addresses then AllSub else AddressSub))
    else
      ExistsQuery(Field(f.esPath))
  }

  function CompileNode(n: ValidatedNode): Dsl {
    match n
    case VMatchAll => MatchAllQuery
    case VGroup(op, children) =>
      var compiled := seq(|children|, i requires 0 <= i < |children| => CompileNode(children[i]));
      if op.AndOp? then MustAll(compiled) else ShouldOne(compiled)
    case VNot(child) => MustNot(CompileNode(child))
    case VTerm(f, v, fuzzy) => CompileTerm(f, v, fuzzy)
    case VPhrase(f, v, proximity) => CompilePhrase(f, v, proximity)
    case VWildcard(f, v) => CompileWildcard(f, v)
    case VExists(f) => CompileExists(f)
    case VRange(f, bounds) => RangeQuery(Field(f.esPath), bounds)
  }

  datatype ImportAccess = ImportAccess(ownerUserId: string, caseIds: seq<string>)

  datatype AuthContext = AuthContext(
    tenantId: string, caseIds: Option<seq<string>>, includePrivileged: bool, importAccess: Option<ImportAccess>)

  datatype CompileError = EmptyTenant

  function ImportQuery(access: ImportAccess): Dsl {
    ShouldOne([MustNot(ExistsQuery(Field(ImportId))),
               TermQuery(Field(ImportOwnerId), Str(access.ownerUserId)),
               TermsQuery(Field(CaseIds), access.caseIds)])
  }

  // The filter clauses pushed in turn: each is there or not, depending on the caller.
  function TenantClause(auth: AuthContext): seq<Dsl> {
    [TermQuery(Field(TenantId), Str(auth.tenantId))]
  }

  function CaseClause(auth: AuthContext): seq<Dsl> {
    if auth.caseIds.Some? then [TermsQuery(Field(CaseIds), auth.caseIds.value)] else []
  }

  function ImportClause(auth: AuthContext): seq<Dsl> {
    if auth.importAccess.Some? then [ImportQuery(auth.importAccess.value)] else []
  }

  function PrivilegeClause(auth: AuthContext): seq<Dsl> {
    if auth.includePrivileged then [] else [TermQuery(Field(Privileged), Flag(false))]
  }

  function WrapWithAuthorization(query: Dsl, auth: AuthContext): Result<Dsl, CompileError> {
    if auth.tenantId == "" then
      Err(EmptyTenant)
    else
      Ok(Bool([query], [], [],
              TenantClause(auth) + CaseClause(auth) + ImportClause(auth) + PrivilegeClause(auth), false))
  }

  function Compile(root: ValidatedNode, auth: AuthContext): Result<Dsl, CompileError> {
    WrapWithAuthorization(CompileNode(root), auth)
  }

  // ----- what the DSL matches -----

  // A Lucene document: the evidence document itself, or one entry of a nested
  // object, which is indexed as a document of its own and is invisible at the root.
  datatype Hit = RootHit(doc: EvidenceDoc) | HeaderHit(header: RawHeader) | PageHit(text: string) | BatesHit(bates: BatesRecord)

  function Strings(s: seq<string>): seq<TermValue> {
    seq(|s|, i requires 0 <= i < |s| => Str(s[i]))
  }

  function Optional(o: Option<string>): seq<TermValue> {
    match o case None => [] case Some(s) => [Str(s)]
  }

  function AddressValues(s: seq<EmailAddress>, sub: SubField): seq<TermValue> {
    seq(|s|, i requires 0 <= i < |s| => Str(if sub == DomainSub then s[i].domain else s[i].address))
  }

  function RootValues(d: EvidenceDoc, p: FieldId): seq<TermValue> {
    if p == TenantId then [Str(d.tenantId)]
    else if p == ImportId then Optional(d.importId)
    else if p == ImportOwnerId then Optional(d.importOwnerId)
    else if p == Size then (if d.size.Some? then [Num(d.size.value)] else [])
    else if IsFlag(p) then [Flag(FlagOf(d, p))]
    else if IsDate(p) then (if p in d.dates then [Str(d.dates[p])] else [])
    else if IsTextLeaf(p) then (if p in d.texts then [Str(d.texts[p])] else [])
    else if IsFoldedKeyword(p) || IsRawKeyword(p) then Strings(KeywordsOf(d, p))
    else []
  }

  // The values a query on path p sees in a Lucene document.
  function Stored(h: Hit, p: Path): seq<TermValue> {
    match h
    case RootHit(d) =>
      (match p
       case Field(id) => RootValues(d, id)
       case Dot(Field(id), KeywordSub) => if id == ItemName || id == EmailSubject then RootValues(d, id) else []
       case Dot(Field(id), sub) =>
         if id == Addresses then
           (if sub == AllSub then Strings(d.allAddresses) else if sub == DomainsSub then Strings(d.allDomains) else [])
         else if IsAddressObject(id) && (sub == AddressSub || sub == DomainSub) then AddressValues(EmailsOf(d, id), sub)
         else []
       case _ => [])
    case HeaderHit(e) =>
      if p == Dot(Field(Headers), NameSub) then [Str(e.name)]
      else if p == HEADER_VALUE || p == Dot(HEADER_VALUE, KeywordSub) then [Str(e.value)]
      else []
    case PageHit(t) => if p == OCR_PAGE_TEXT then [Str(t)] else []
    case BatesHit(b) =>
      if p == Dot(Field(BatesRanges), BegBatesSub) then [Str(b.begBates)]
      else if p == Dot(Field(BatesRanges), EndBatesSub) then [Str(b.endBates)]
      else []
  }

  function NestedHits(h: Hit, p: FieldId): seq<Hit> {
    if !h.RootHit? then []
    else if p == Headers then seq(|h.doc.headers|, i requires 0 <= i < |h.doc.headers| => HeaderHit(h.doc.headers[i]))
    else if p == OcrPages then seq(|h.doc.ocrPages|, i requires 0 <= i < |h.doc.ocrPages| => PageHit(h.doc.ocrPages[i]))
    else if p == BatesRanges then seq(|h.doc.bates|, i requires 0 <= i < |h.doc.bates| => BatesHit(h.doc.bates[i]))
    else []
  }

  // Paths mapped with the lowercase normalizer, which folds stored and queried values alike.
  predicate Folded(p: Path) {
    match p
    case Field(id) => IsFoldedKeyword(id)
    case Dot(_, sub) => sub !in {ValueSub, TextSub}
  }

  predicate SameTerm(p: Path, stored: TermValue, query: TermValue) {
    if Folded(p) && stored.Str? && query.Str? then Lower(stored.text) == Lower(query.text) else stored == query
  }

  // The field whose analyzer a path uses.
  function Root(p: Path): FieldId {
    match p case Field(id) => id case Dot(base, _) => Root(base)
  }

  // Only text paths are analyzed; a wildcard on a keyword path compares whole values.
  predicate Analyzed(p: Path) {
    match p
    case Field(id) => IsTextLeaf(id)
    case Dot(_, sub) => sub in {ValueSub, TextSub}
  }

  predicate TextHit(e: Engine, id: FieldId, v: TermValue, query: string, fuzziness: Option<nat>) {
    v.Str? && e.analyzed(id, v.text, query, fuzziness)
  }

  predicate PhraseHit(e: Engine, id: FieldId, v: TermValue, query: string, slop: nat) {
    v.Str? && e.phrased(id, v.text, query, slop)
  }

  predicate GlobHit(e: Engine, p: Path, v: TermValue, pattern: string) {
    v.Str? && if Analyzed(p) then e.tokenGlob(Root(p), v.text, Lower(pattern)) else e.glob(Lower(v.text), Lower(pattern))
  }

  predicate FuzzyHit(e: Engine, p: Path, v: TermValue, query: string, edits: nat) {
    v.Str? && e.fuzzyKeyword(if Folded(p) then Lower(v.text) else v.text, if Folded(p) then Lower(query) else query, edits)
  }

  predicate BoundHit(e: Engine, op: BoundOp, v: TermValue, bound: Option<TermValue>) {
    match bound
    case None => true
    case Some(Num(b)) =>
      v.Num? && (match op case AtLeastOp => v.number >= b case AtMostOp => v.number <= b
                 case AboveOp => v.number > b case BelowOp => v.number < b)
    case Some(Str(b)) => v.Str? && e.dateBound(op, v.text, b)
    case Some(Flag(_)) => false
  }

  predicate RangeHit(e: Engine, v: TermValue, b: Bounds<TermValue>) {
    && BoundHit(e, AtLeastOp, v, b.gte) && BoundHit(e, AtMostOp, v, b.lte)
    && BoundHit(e, AboveOp, v, b.gt) && BoundHit(e, BelowOp, v, b.lt)
  }

  ghost predicate Matches(e: Engine, q: Dsl, h: Hit)
    decreases q
  {
    match q
    case MatchAllQuery => true
    case TermQuery(p, t) => exists v :: v in Stored(h, p) && SameTerm(p, v, t)
    case TermsQuery(p, ts) => exists v, t :: v in Stored(h, p) && t in ts && SameTerm(p, v, Str(t))
    case MatchQuery(p, text, fuzz) => exists v :: v in Stored(h, p) && TextHit(e, Root(p), v, text, fuzz)
    case MatchPhraseQuery(p, text, slop) => exists v :: v in Stored(h, p) && PhraseHit(e, Root(p), v, text, slop)
    case MultiMatch(text, ps, fuzz) => exists p, v :: p in ps && v in Stored(h, Field(p)) && TextHit(e, p, v, text, fuzz)
    case MultiMatchPhrase(text, slop, ps) => exists p, v :: p in ps && v in Stored(h, Field(p)) && PhraseHit(e, p, v, text, slop)
    case WildcardQuery(p, pattern) => exists v :: v in Stored(h, p) && GlobHit(e, p, v, pattern)
    case FuzzyQuery(p, text, edits) => exists v :: v in Stored(h, p) && FuzzyHit(e, p, v, text, edits)
    case ExistsQuery(p) => Stored(h, p) != []
    case RangeQuery(p, b) => exists v :: v in Stored(h, p) && RangeHit(e, v, b)
    case Nested(p, inner) => exists n :: n in NestedHits(h, p) && Matches(e, inner, n)
    case Bool(must, should, mustNot, filter, oneShould) =>
      // A bool query with no clause at all is rewritten to match_all.
      || (must == [] && should == [] && mustNot == [] && filter == [])
      || (&& (forall c | c in must :: Matches(e, c, h))
          && (forall c | c in filter :: Matches(e, c, h))
          && (forall c | c in mustNot :: !Matches(e, c, h))
          && (oneShould ==> exists c | c in should :: Matches(e, c, h)))
  }
}
