// What a validated query means on an evidence document, written without the DSL.
module SearchMeaning {
  import opened Wrappers
  import opened Text
  import opened SearchFields
  import opened SearchAst
  import opened SearchDocument
  import opened SearchCompile

  // ----- meaning -----

  predicate TextOf(e: Engine, d: EvidenceDoc, p: FieldId, query: string, fuzzy: Option<nat>) {
    p in d.texts && e.analyzed(p, d.texts[p], query, fuzzy)
  }

  predicate PhraseOf(e: Engine, d: EvidenceDoc, p: FieldId, phrase: string, slop: nat) {
    p in d.texts && e.phrased(p, d.texts[p], phrase, slop)
  }

  // Names, addresses, tags, Bates numbers: equal ignoring case, or within an edit distance ignoring case.
  predicate Like(e: Engine, s: string, query: string, fuzzy: Option<nat>) {
    match fuzzy
    case None => Lower(s) == Lower(query)
    case Some(n) => e.fuzzyKeyword(Lower(s), Lower(query), n)
  }

  predicate LikePattern(e: Engine, s: string, pattern: string) {
    e.glob(Lower(s), Lower(pattern))
  }

  // A query holding an "@" is about whole addresses, otherwise about domains.
  function AddressStrings(d: EvidenceDoc, p: FieldId, query: string): (c: seq<string>)
  {
    if p == Addresses then (if IsEmailAddress(query) then d.allAddresses else d.allDomains)
    else
      var es := EmailsOf(d, p);
      seq(|es|, i requires 0 <= i < |es| => if IsEmailAddress(query) then es[i].address else es[i].domain)
  }

  predicate IsHeader(f: ResolvedField, h: RawHeader) {
    f.headerName.Some? && Lower(h.name) == Lower(f.headerName.value)
  }

  ghost predicate TermMeans(e: Engine, f: ResolvedField, v: TermValue, fuzzy: Option<nat>, d: EvidenceDoc) {
    var text := WholeText(v);
    match f.fieldType
    case HeaderType => exists h | h in d.headers :: IsHeader(f, h) && e.analyzed(Headers, h.value, text, fuzzy)
    case OcrType => TextOf(e, d, TextOcr, text, fuzzy) || exists t | t in d.ocrPages :: e.analyzed(OcrPages, t, text, fuzzy)
    case AddressType => exists s | s in AddressStrings(d, f.esPath, text) :: Like(e, s, text, fuzzy)
    case BooleanType => Flag(FlagOf(d, f.esPath)) == v
    case SizeType => d.size.Some? && Num(d.size.value) == v
    case KeywordType =>
      if f.esPath == BatesRanges then
        exists b | b in d.bates :: Like(e, b.begBates, text, fuzzy) || Like(e, b.endBates, text, fuzzy)
      else exists s | s in KeywordsOf(d, f.esPath) :: Like(e, s, text, fuzzy)
    case TextType =>
      if f.esPath == AllText then AnyTextOf(e, d, text, fuzzy) else TextOf(e, d, f.esPath, text, fuzzy)
    case DateType => false
  }

  predicate AnyTextOf(e: Engine, d: EvidenceDoc, query: string, fuzzy: Option<nat>) {
    || TextOf(e, d, TextBody, query, fuzzy) || TextOf(e, d, TextBodyHtml, query, fuzzy)
    || TextOf(e, d, TextAttachment, query, fuzzy) || TextOf(e, d, TextFile, query, fuzzy)
    || TextOf(e, d, TextOcr, query, fuzzy) || TextOf(e, d, ItemName, query, fuzzy)
    || TextOf(e, d, EmailSubject, query, fuzzy)
  }

  predicate AnyPhraseOf(e: Engine, d: EvidenceDoc, phrase: string, slop: nat) {
    || PhraseOf(e, d, TextBody, phrase, slop) || PhraseOf(e, d, TextBodyHtml, phrase, slop)
    || PhraseOf(e, d, TextAttachment, phrase, slop) || PhraseOf(e, d, TextFile, phrase, slop)
    || PhraseOf(e, d, TextOcr, phrase, slop) || PhraseOf(e, d, ItemName, phrase, slop)
    || PhraseOf(e, d, EmailSubject, phrase, slop)
  }

  ghost predicate PhraseMeans(e: Engine, f: ResolvedField, v: string, proximity: Option<nat>, d: EvidenceDoc) {
    var slop := if proximity.Some? then proximity.value else 0;
    match f.fieldType
    case HeaderType => exists h | h in d.headers :: IsHeader(f, h) && e.phrased(Headers, h.value, v, slop)
    case OcrType => PhraseOf(e, d, TextOcr, v, slop) || exists t | t in d.ocrPages :: e.phrased(OcrPages, t, v, slop)
    case TextType => if f.esPath == AllText then AnyPhraseOf(e, d, v, slop) else PhraseOf(e, d, f.esPath, v, slop)
    // on identifiers a phrase is the whole value
    case AddressType => TermMeans(e, f, Str(v), None, d)
    case KeywordType => TermMeans(e, f, Str(v), None, d)
    case _ => false
  }

  // name and email.subject are matched as whole values, other text token by token.
  predicate TextPattern(e: Engine, d: EvidenceDoc, p: FieldId, pattern: string) {
    p in d.texts &&
    if p == ItemName || p == EmailSubject then LikePattern(e, d.texts[p], pattern)
    else e.tokenGlob(p, d.texts[p], Lower(pattern))
  }

  ghost predicate WildcardMeans(e: Engine, f: ResolvedField, v: string, d: EvidenceDoc) {
    match f.fieldType
    case HeaderType => exists h | h in d.headers :: IsHeader(f, h) && LikePattern(e, h.value, v)
    case OcrType => TextPattern(e, d, TextOcr, v) || exists t | t in d.ocrPages :: e.tokenGlob(OcrPages, t, Lower(v))
    case AddressType => exists s | s in AddressStrings(d, f.esPath, v) :: LikePattern(e, s, v)
    case KeywordType =>
      if f.esPath == BatesRanges then exists b | b in d.bates :: LikePattern(e, b.begBates, v) || LikePattern(e, b.endBates, v)
      else exists s | s in KeywordsOf(d, f.esPath) :: LikePattern(e, s, v)
    case TextType =>
      if f.esPath == AllText then
        || TextPattern(e, d, TextBody, v) || TextPattern(e, d, TextBodyHtml, v) || TextPattern(e, d, TextAttachment, v)
        || TextPattern(e, d, TextFile, v) || TextPattern(e, d, TextOcr, v) || TextPattern(e, d, ItemName, v)
        || TextPattern(e, d, EmailSubject, v)
      else TextPattern(e, d, f.esPath, v)
    case _ => false
  }

  ghost predicate ExistsMeans(f: ResolvedField, d: EvidenceDoc) {
    match f.fieldType
    case HeaderType => exists h | h in d.headers :: IsHeader(f, h)
    case OcrType => TextOcr in d.texts || d.ocrPages != []
    case AddressType => (if f.esPath == Addresses then |d.allAddresses| else |EmailsOf(d, f.esPath)|) > 0
    case KeywordType => (if f.esPath == BatesRanges then |d.bates| else |KeywordsOf(d, f.esPath)|) > 0
    case TextType => f.esPath in d.texts
    case DateType => f.esPath in d.dates
    case SizeType => d.size.Some?
    case BooleanType => true
  }

  predicate RangeMeans(e: Engine, f: ResolvedField, b: Bounds<TermValue>, d: EvidenceDoc) {
    match f.fieldType
    case DateType => f.esPath in d.dates && RangeHit(e, Str(d.dates[f.esPath]), b)
    case SizeType => d.size.Some? && RangeHit(e, Num(d.size.value), b)
    case _ => false
  }

  ghost predicate Means(e: Engine, n: ValidatedNode, d: EvidenceDoc)
    decreases n
  {
    match n
    case VMatchAll => true
    case VGroup(AndOp, children) => forall c | c in children :: Means(e, c, d)
    case VGroup(OrOp, children) => exists c | c in children :: Means(e, c, d)
    case VNot(child) => !Means(e, child, d)
    case VTerm(f, v, fuzzy) => TermMeans(e, f, v, fuzzy, d)
    case VPhrase(f, v, proximity) => PhraseMeans(e, f, v, proximity, d)
    case VWildcard(f, v) => WildcardMeans(e, f, v, d)
    case VExists(f) => ExistsMeans(f, d)
    case VRange(f, b) => RangeMeans(e, f, b, d)
  }

  // ----- what validation guarantees of its output -----

  predicate IsDateLike(f: ResolvedField) {
    f.fieldType in {DateType, SizeType, BooleanType}
  }

  predicate WellTyped(n: ValidatedNode) {
    match n
    case VMatchAll => true
    case VGroup(op, children) => children != [] && forall c | c in children :: WellTyped(c)
    case VNot(child) => WellTyped(child)
    case VTerm(f, v, fuzzy) =>
      FieldOk(f) && !f.fieldType.DateType?
      && (f.fieldType.SizeType? <==> v.Num?) && (f.fieldType.BooleanType? <==> v.Flag?)
    case VPhrase(f, _, _) => FieldOk(f) && !IsDateLike(f)
    case VWildcard(f, _) => FieldOk(f) && !IsDateLike(f)
    case VExists(f) => FieldOk(f) && f.esPath != AllText
    case VRange(f, b) => FieldOk(f) && (f.fieldType.DateType? || f.fieldType.SizeType?)
  }

  // ----- which leaves the compiler translates faithfully -----

  predicate IsLetter(c: char) {
    'a' <= LowerChar(c) <= 'z'
  }

  predicate NoLetters(s: string) {
    forall i :: 0 <= i < |s| ==> !IsLetter(s[i])
  }

  predicate IsLeaf(n: ValidatedNode) {
    !n.VGroup? && !n.VNot?
  }

  // The query text is lowercased before it meets a keyword stored as written; the
  // edit distance is dropped on addresses and Bates numbers; wildcards and `exists`
  // on OCR look only at the whole-document text; `exists` on the nested Bates object
  // is asked at the root, where nested entries are invisible.
  predicate Faithful(n: ValidatedNode) {
    match n
    case VTerm(f, v, fuzzy) =>
      if f.fieldType.AddressType? || f.esPath == BatesRanges then fuzzy.None?
      else f.fieldType.KeywordType? ==> IsFoldedKeyword(f.esPath) || (fuzzy.None? && NoLetters(WholeText(v)))
    case VPhrase(f, v, _) => f.fieldType.KeywordType? && IsRawKeyword(f.esPath) ==> NoLetters(v)
    case VWildcard(f, _) => !f.fieldType.OcrType?
    case VExists(f) => !f.fieldType.OcrType? && f.esPath != BatesRanges
    case _ => true
  }

  predicate AllFaithful(n: ValidatedNode) {
    match n
    case VGroup(_, children) => forall c | c in children :: AllFaithful(c)
    case VNot(child) => AllFaithful(child)
    case _ => Faithful(n)
  }
}
