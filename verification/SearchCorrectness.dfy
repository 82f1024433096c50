// The compiler keeps the meaning: compiled DSL against the reference meaning.
module SearchCorrectness {
  import opened Wrappers
  import opened Text
  import opened SearchFields
  import opened SearchAst
  import opened SearchDocument
  import opened SearchCompile
  import opened SearchMeaning

  // ----- reading one bool or nested clause -----

  lemma MustAllMatches(e: Engine, qs: seq<Dsl>, h: Hit)
    ensures Matches(e, MustAll(qs), h) <==> forall c | c in qs :: Matches(e, c, h)
  {
  }

  lemma ShouldOneMatches(e: Engine, qs: seq<Dsl>, h: Hit)
    requires qs != []
    ensures Matches(e, ShouldOne(qs), h) <==> exists c | c in qs :: Matches(e, c, h)
  {
  }

  lemma EitherMatches(e: Engine, p: Dsl, q: Dsl, h: Hit)
    ensures Matches(e, ShouldOne([p, q]), h) <==> Matches(e, p, h) || Matches(e, q, h)
  {
    ShouldOneMatches(e, [p, q], h);
    assert p in [p, q] && q in [p, q];
  }

  lemma NestedOn(e: Engine, p: FieldId, inner: Dsl, h: Hit)
    ensures Matches(e, Nested(p, inner), h) <==> exists n :: n in NestedHits(h, p) && Matches(e, inner, n)
  {
    hide NestedHits, Stored;
  }

  lemma HeaderHits(d: EvidenceDoc)
    ensures forall n :: n in NestedHits(RootHit(d), Headers) <==> n.HeaderHit? && n.header in d.headers
  {
    var hits := NestedHits(RootHit(d), Headers);
    forall h | h in d.headers
      ensures HeaderHit(h) in hits
    {
      var i :| 0 <= i < |d.headers| && d.headers[i] == h;
      assert hits[i] == HeaderHit(h);
    }
  }

  function NamedBoth(f: ResolvedField, q: Dsl): Dsl
    requires f.headerName.Some?
  {
    MustAll([TermQuery(Dot(Field(Headers), NameSub), Str(f.headerName.value)), q])
  }

  lemma NamedHeader(e: Engine, f: ResolvedField, q: Dsl, h: RawHeader)
    requires f.headerName.Some?
    ensures Matches(e, NamedBoth(f, q), HeaderHit(h)) <==> IsHeader(f, h) && Matches(e, q, HeaderHit(h))
  {
    var name := TermQuery(Dot(Field(Headers), NameSub), Str(f.headerName.value));
    assert Stored(HeaderHit(h), name.path) == [Str(h.name)];
    assert SameTerm(name.path, Str(h.name), name.term) <==> IsHeader(f, h);
    hide Matches, Stored, SameTerm, IsHeader;
    MustAllMatches(e, [name, q], HeaderHit(h));
    assert name in [name, q] && q in [name, q];
    TermOn(e, name.path, name.term, HeaderHit(h), h.name);
  }

  lemma HeaderQueryShape(f: ResolvedField, q: Dsl)
    requires f.headerName.Some?
    ensures HeaderQuery(f, q) == Nested(Headers, NamedBoth(f, q))
  {
  }

  lemma HeaderQueryMatches(e: Engine, f: ResolvedField, q: Dsl, d: EvidenceDoc)
    requires f.headerName.Some?
    ensures Matches(e, HeaderQuery(f, q), RootHit(d)) <==>
            exists h | h in d.headers :: IsHeader(f, h) && Matches(e, q, HeaderHit(h))
  {
    hide *;
    var both, hits := NamedBoth(f, q), NestedHits(RootHit(d), Headers);
    HeaderQueryShape(f, q);
    NestedOn(e, Headers, both, RootHit(d));
    HeaderHits(d);
    if n :| n in hits && Matches(e, both, n) {
      NamedHeader(e, f, q, n.header);
      assert n == HeaderHit(n.header);
    }
    if h :| h in d.headers && IsHeader(f, h) && Matches(e, q, HeaderHit(h)) {
      NamedHeader(e, f, q, h);
      assert HeaderHit(h) in hits;
    }
  }

  lemma PageQueryMatches(e: Engine, q: Dsl, d: EvidenceDoc)
    ensures Matches(e, Nested(OcrPages, q), RootHit(d)) <==> exists t | t in d.ocrPages :: Matches(e, q, PageHit(t))
  {
    var hits := NestedHits(RootHit(d), OcrPages);
    forall t | t in d.ocrPages
      ensures PageHit(t) in hits
    {
      var i :| 0 <= i < |d.ocrPages| && d.ocrPages[i] == t;
      assert hits[i] == PageHit(t);
    }
  }

  lemma BatesQueryMatches(e: Engine, p: Dsl, q: Dsl, d: EvidenceDoc)
    ensures Matches(e, Nested(BatesRanges, ShouldOne([p, q])), RootHit(d)) <==>
            exists b | b in d.bates :: Matches(e, p, BatesHit(b)) || Matches(e, q, BatesHit(b))
  {
    var hits := NestedHits(RootHit(d), BatesRanges);
    forall b: BatesRecord
      ensures Matches(e, ShouldOne([p, q]), BatesHit(b)) <==> Matches(e, p, BatesHit(b)) || Matches(e, q, BatesHit(b))
    {
      EitherMatches(e, p, q, BatesHit(b));
    }
    forall b | b in d.bates
      ensures BatesHit(b) in hits
    {
      var i :| 0 <= i < |d.bates| && d.bates[i] == b;
      assert hits[i] == BatesHit(b);
    }
  }

  lemma StringsMember(ss: seq<string>)
    ensures forall v :: v in Strings(ss) <==> v.Str? && v.text in ss
  {
    forall v: TermValue | v.Str? && v.text in ss
      ensures v in Strings(ss)
    {
      var i :| 0 <= i < |ss| && ss[i] == v.text;
      assert Strings(ss)[i] == v;
    }
  }

  lemma AddressMember(d: EvidenceDoc, f: ResolvedField, query: string)
    requires FieldOk(f) && f.fieldType.AddressType?
    ensures forall v :: v in Stored(RootHit(d), AddressPath(f, query)) <==>
                        v.Str? && v.text in AddressStrings(d, f.esPath, query)
  {
    var stored := Stored(RootHit(d), AddressPath(f, query));
    var strings := AddressStrings(d, f.esPath, query);
    assert |stored| == |strings| && forall i :: 0 <= i < |stored| ==> stored[i] == Str(strings[i]);
    assert stored == Strings(strings);
    StringsMember(strings);
  }

  // ----- leaves -----

  lemma WildcardOn(e: Engine, p: Path, pattern: string, h: Hit, s: string)
    requires Stored(h, p) == [Str(s)]
    ensures Matches(e, WildcardQuery(p, pattern), h) <==> GlobHit(e, p, Str(s), pattern)
  {
    hide Stored, GlobHit;
    assert Str(s) in Stored(h, p);
  }

  lemma TermOn(e: Engine, p: Path, t: TermValue, h: Hit, s: string)
    requires Stored(h, p) == [Str(s)]
    ensures Matches(e, TermQuery(p, t), h) <==> SameTerm(p, Str(s), t)
  {
    hide Stored, SameTerm;
    assert Str(s) in Stored(h, p);
  }

  lemma WildcardAmong(e: Engine, p: Path, pattern: string, h: Hit, ss: seq<string>)
    requires Stored(h, p) == Strings(ss)
    ensures Matches(e, WildcardQuery(p, pattern), h) <==> exists s | s in ss :: GlobHit(e, p, Str(s), pattern)
  {
    StringsMember(ss);
    hide Stored, GlobHit, Strings;
    forall s | s in ss
      ensures Str(s) in Stored(h, p)
    {
    }
  }

  lemma MatchOn(e: Engine, p: FieldId, text: string, fuzzy: Option<nat>, slop: nat, h: Hit)
    ensures Matches(e, MatchQuery(Field(p), text, fuzzy), h) <==> exists v :: v in Stored(h, Field(p)) && TextHit(e, p, v, text, fuzzy)
    ensures Matches(e, MatchPhraseQuery(Field(p), text, slop), h) <==>
            exists v :: v in Stored(h, Field(p)) && PhraseHit(e, p, v, text, slop)
  {
    hide Stored, TextHit, PhraseHit;
  }

  lemma ExistsOn(e: Engine, p: Path, h: Hit)
    ensures Matches(e, ExistsQuery(p), h) <==> Stored(h, p) != []
  {
    hide Stored;
  }

  lemma TextValue(d: EvidenceDoc, p: FieldId)
    requires IsTextLeaf(p)
    ensures forall v :: v in Stored(RootHit(d), Field(p)) <==> p in d.texts && v == Str(d.texts[p])
  {
    if p in d.texts {
      assert Stored(RootHit(d), Field(p)) == [Str(d.texts[p])];
      assert Str(d.texts[p]) in Stored(RootHit(d), Field(p));
    }
  }

  lemma TextHitKept(e: Engine, d: EvidenceDoc, p: FieldId, query: string, fuzzy: Option<nat>)
    requires IsTextLeaf(p)
    ensures (exists v :: v in Stored(RootHit(d), Field(p)) && TextHit(e, p, v, query, fuzzy)) <==> TextOf(e, d, p, query, fuzzy)
  {
    TextValue(d, p);
    if p in d.texts {
      assert Str(d.texts[p]) in Stored(RootHit(d), Field(p));
    }
  }

  lemma PhraseHitKept(e: Engine, d: EvidenceDoc, p: FieldId, query: string, slop: nat)
    requires IsTextLeaf(p)
    ensures (exists v :: v in Stored(RootHit(d), Field(p)) && PhraseHit(e, p, v, query, slop)) <==> PhraseOf(e, d, p, query, slop)
  {
    TextValue(d, p);
    if p in d.texts {
      assert Str(d.texts[p]) in Stored(RootHit(d), Field(p));
    }
  }

  lemma MultiOn(e: Engine, query: string, fuzzy: Option<nat>, slop: nat, ps: seq<FieldId>, h: Hit)
    ensures Matches(e, MultiMatch(query, ps, fuzzy), h) <==>
            exists p :: p in ps && exists v :: v in Stored(h, Field(p)) && TextHit(e, p, v, query, fuzzy)
    ensures Matches(e, MultiMatchPhrase(query, slop, ps), h) <==>
            exists p :: p in ps && exists v :: v in Stored(h, Field(p)) && PhraseHit(e, p, v, query, slop)
  {
    hide Stored, TextHit, PhraseHit;
  }

  lemma AnyOfSeven(e: Engine, d: EvidenceDoc, query: string, fuzzy: Option<nat>, slop: nat)
    ensures AnyTextOf(e, d, query, fuzzy) <==> exists p :: p in ALL_TEXT_FIELDS && TextOf(e, d, p, query, fuzzy)
    ensures AnyPhraseOf(e, d, query, slop) <==> exists p :: p in ALL_TEXT_FIELDS && PhraseOf(e, d, p, query, slop)
  {
    hide TextOf, PhraseOf;
    SevenFields();
  }

  lemma AllTextKept(e: Engine, d: EvidenceDoc, query: string, fuzzy: Option<nat>, slop: nat)
    ensures Matches(e, MultiMatch(query, ALL_TEXT_FIELDS, fuzzy), RootHit(d)) <==> AnyTextOf(e, d, query, fuzzy)
    ensures Matches(e, MultiMatchPhrase(query, slop, ALL_TEXT_FIELDS), RootHit(d)) <==> AnyPhraseOf(e, d, query, slop)
  {
    SevenFields();
    hide *;
    MultiOn(e, query, fuzzy, slop, ALL_TEXT_FIELDS, RootHit(d));
    AnyOfSeven(e, d, query, fuzzy, slop);
    forall p | p in ALL_TEXT_FIELDS
      ensures (exists v :: v in Stored(RootHit(d), Field(p)) && TextHit(e, p, v, query, fuzzy)) <==> TextOf(e, d, p, query, fuzzy)
      ensures (exists v :: v in Stored(RootHit(d), Field(p)) && PhraseHit(e, p, v, query, slop)) <==> PhraseOf(e, d, p, query, slop)
    {
      TextHitKept(e, d, p, query, fuzzy);
      PhraseHitKept(e, d, p, query, slop);
    }
  }

  lemma SevenFields()
    ensures forall p :: p in ALL_TEXT_FIELDS <==> IsTextLeaf(p)
    ensures forall p :: IsTextLeaf(p) <==> p in [TextBody, TextBodyHtml, TextAttachment, TextFile, TextOcr, ItemName, EmailSubject]
  {
  }

  lemma HeaderTermKept(e: Engine, f: ResolvedField, text: string, fuzzy: Option<nat>, d: EvidenceDoc)
    requires FieldOk(f) && f.fieldType.HeaderType?
    ensures Matches(e, HeaderQuery(f, MatchQuery(HEADER_VALUE, text, fuzzy)), RootHit(d)) <==>
            exists h | h in d.headers :: IsHeader(f, h) && e.analyzed(Headers, h.value, text, fuzzy)
  {
    var q := MatchQuery(HEADER_VALUE, text, fuzzy);
    HeaderQueryMatches(e, f, q, d);
    forall h: RawHeader
      ensures Matches(e, q, HeaderHit(h)) <==> e.analyzed(Headers, h.value, text, fuzzy)
    {
      assert Stored(HeaderHit(h), HEADER_VALUE) == [Str(h.value)];
      assert Str(h.value) in Stored(HeaderHit(h), HEADER_VALUE);
    }
  }

  lemma HeaderPhraseKept(e: Engine, f: ResolvedField, text: string, slop: nat, d: EvidenceDoc)
    requires FieldOk(f) && f.fieldType.HeaderType?
    ensures Matches(e, HeaderQuery(f, MatchPhraseQuery(HEADER_VALUE, text, slop)), RootHit(d)) <==>
            exists h | h in d.headers :: IsHeader(f, h) && e.phrased(Headers, h.value, text, slop)
  {
    var q := MatchPhraseQuery(HEADER_VALUE, text, slop);
    HeaderQueryMatches(e, f, q, d);
    forall h: RawHeader
      ensures Matches(e, q, HeaderHit(h)) <==> e.phrased(Headers, h.value, text, slop)
    {
      assert Stored(HeaderHit(h), HEADER_VALUE) == [Str(h.value)];
      assert Str(h.value) in Stored(HeaderHit(h), HEADER_VALUE);
    }
  }

  lemma HeaderWildcardAt(e: Engine, text: string, h: RawHeader)
    ensures Matches(e, WildcardQuery(Dot(HEADER_VALUE, KeywordSub), Lower(text)), HeaderHit(h)) <==> LikePattern(e, h.value, text)
  {
    var path := Dot(HEADER_VALUE, KeywordSub);
    LowerIdempotent(text);
    assert Stored(HeaderHit(h), path) == [Str(h.value)];
    assert GlobHit(e, path, Str(h.value), Lower(text)) <==> LikePattern(e, h.value, text);
    hide *;
    WildcardOn(e, path, Lower(text), HeaderHit(h), h.value);
  }

  lemma HeaderWildcardKept(e: Engine, f: ResolvedField, text: string, d: EvidenceDoc)
    requires FieldOk(f) && f.fieldType.HeaderType?
    ensures Matches(e, HeaderQuery(f, WildcardQuery(Dot(HEADER_VALUE, KeywordSub), Lower(text))), RootHit(d)) <==>
            exists h | h in d.headers :: IsHeader(f, h) && LikePattern(e, h.value, text)
  {
    assert f.headerName.Some?;
    hide *;
    HeaderQueryMatches(e, f, WildcardQuery(Dot(HEADER_VALUE, KeywordSub), Lower(text)), d);
    forall h: RawHeader
      ensures Matches(e, WildcardQuery(Dot(HEADER_VALUE, KeywordSub), Lower(text)), HeaderHit(h)) <==> LikePattern(e, h.value, text)
    {
      HeaderWildcardAt(e, text, h);
    }
  }

  lemma PageTextKept(e: Engine, text: string, fuzzy: Option<nat>, slop: nat, d: EvidenceDoc)
    ensures Matches(e, Nested(OcrPages, MatchQuery(OCR_PAGE_TEXT, text, fuzzy)), RootHit(d)) <==>
            exists t | t in d.ocrPages :: e.analyzed(OcrPages, t, text, fuzzy)
    ensures Matches(e, Nested(OcrPages, MatchPhraseQuery(OCR_PAGE_TEXT, text, slop)), RootHit(d)) <==>
            exists t | t in d.ocrPages :: e.phrased(OcrPages, t, text, slop)
  {
    var q, r := MatchQuery(OCR_PAGE_TEXT, text, fuzzy), MatchPhraseQuery(OCR_PAGE_TEXT, text, slop);
    PageQueryMatches(e, q, d);
    PageQueryMatches(e, r, d);
    forall t: string
      ensures Matches(e, q, PageHit(t)) <==> e.analyzed(OcrPages, t, text, fuzzy)
      ensures Matches(e, r, PageHit(t)) <==> e.phrased(OcrPages, t, text, slop)
    {
      assert Stored(PageHit(t), OCR_PAGE_TEXT) == [Str(t)];
      assert Str(t) in Stored(PageHit(t), OCR_PAGE_TEXT);
    }
  }

  function BatesTerm(text: string, sub: SubField): Dsl {
    TermQuery(Dot(Field(BatesRanges), sub), Str(Lower(text)))
  }

  lemma BatesTermAt(e: Engine, text: string, b: BatesRecord)
    ensures Matches(e, BatesTerm(text, BegBatesSub), BatesHit(b)) <==> Like(e, b.begBates, text, None)
    ensures Matches(e, BatesTerm(text, EndBatesSub), BatesHit(b)) <==> Like(e, b.endBates, text, None)
  {
    var beg, end := BatesTerm(text, BegBatesSub), BatesTerm(text, EndBatesSub);
    LowerIdempotent(text);
    assert Stored(BatesHit(b), beg.path) == [Str(b.begBates)] && Stored(BatesHit(b), end.path) == [Str(b.endBates)];
    hide Matches, Stored;
    TermOn(e, beg.path, beg.term, BatesHit(b), b.begBates);
    TermOn(e, end.path, end.term, BatesHit(b), b.endBates);
  }

  lemma BatesKept(e: Engine, text: string, d: EvidenceDoc)
    ensures Matches(e, BatesQuery(text), RootHit(d)) <==>
            exists b | b in d.bates :: Like(e, b.begBates, text, None) || Like(e, b.endBates, text, None)
  {
    var beg, end := BatesTerm(text, BegBatesSub), BatesTerm(text, EndBatesSub);
    assert BatesQuery(text) == Nested(BatesRanges, ShouldOne([beg, end]));
    hide *;
    BatesQueryMatches(e, beg, end, d);
    forall b: BatesRecord
      ensures Matches(e, beg, BatesHit(b)) <==> Like(e, b.begBates, text, None)
      ensures Matches(e, end, BatesHit(b)) <==> Like(e, b.endBates, text, None)
    {
      BatesTermAt(e, text, b);
    }
  }

  lemma BatesWildcardEntry(e: Engine, text: string, b: BatesRecord, beg: bool)
    ensures Matches(e, WildcardQuery(Dot(Field(BatesRanges), if beg then BegBatesSub else EndBatesSub), Lower(text)), BatesHit(b))
            <==> LikePattern(e, if beg then b.begBates else b.endBates, text)
  {
    var p, s := Dot(Field(BatesRanges), if beg then BegBatesSub else EndBatesSub), if beg then b.begBates else b.endBates;
    LowerIdempotent(text);
    assert Stored(BatesHit(b), p) == [Str(s)];
    assert Str(s) in Stored(BatesHit(b), p);
  }

  lemma BatesWildcardKept(e: Engine, text: string, d: EvidenceDoc)
    ensures Matches(e, Nested(BatesRanges, ShouldOne([WildcardQuery(Dot(Field(BatesRanges), BegBatesSub), Lower(text)),
                                                      WildcardQuery(Dot(Field(BatesRanges), EndBatesSub), Lower(text))])),
                    RootHit(d)) <==>
            exists b | b in d.bates :: LikePattern(e, b.begBates, text) || LikePattern(e, b.endBates, text)
  {
    var beg := WildcardQuery(Dot(Field(BatesRanges), BegBatesSub), Lower(text));
    var end := WildcardQuery(Dot(Field(BatesRanges), EndBatesSub), Lower(text));
    BatesQueryMatches(e, beg, end, d);
    forall b: BatesRecord
      ensures Matches(e, beg, BatesHit(b)) <==> LikePattern(e, b.begBates, text)
      ensures Matches(e, end, BatesHit(b)) <==> LikePattern(e, b.endBates, text)
    {
      BatesWildcardEntry(e, text, b, true);
      BatesWildcardEntry(e, text, b, false);
    }
  }

  lemma AddressKept(e: Engine, f: ResolvedField, text: string, d: EvidenceDoc)
    requires FieldOk(f) && f.fieldType.AddressType?
    ensures Matches(e, TermQuery(AddressPath(f, text), Str(Lower(text))), RootHit(d)) <==>
            exists s | s in AddressStrings(d, f.esPath, text) :: Like(e, s, text, None)
    ensures Matches(e, WildcardQuery(AddressPath(f, text), Lower(text)), RootHit(d)) <==>
            exists s | s in AddressStrings(d, f.esPath, text) :: LikePattern(e, s, text)
  {
    var p := AddressPath(f, text);
    AddressMember(d, f, text);
    LowerIdempotent(text);
    forall s | s in AddressStrings(d, f.esPath, text)
      ensures Str(s) in Stored(RootHit(d), p)
    {
    }
  }

  // A keyword path with the lowercase normalizer.
  lemma KeywordKept(e: Engine, p: FieldId, text: string, edits: nat, d: EvidenceDoc)
    requires IsFoldedKeyword(p)
    ensures Matches(e, TermQuery(Field(p), Str(Lower(text))), RootHit(d)) <==>
            exists s | s in KeywordsOf(d, p) :: Like(e, s, text, None)
    ensures Matches(e, FuzzyQuery(Field(p), text, edits), RootHit(d)) <==>
            exists s | s in KeywordsOf(d, p) :: Like(e, s, text, Some(edits))
  {
    StringsMember(KeywordsOf(d, p));
    LowerIdempotent(text);
    assert Stored(RootHit(d), Field(p)) == Strings(KeywordsOf(d, p));
    forall s | s in KeywordsOf(d, p)
      ensures Str(s) in Stored(RootHit(d), Field(p))
    {
    }
  }

  // A keyword path stored as written: the compiled term finds exactly the values
  // equal to the lowercased query.
  lemma RawKeywordTerm(e: Engine, p: FieldId, text: string, d: EvidenceDoc)
    requires IsRawKeyword(p)
    ensures Matches(e, TermQuery(Field(p), Str(Lower(text))), RootHit(d)) <==> Lower(text) in KeywordsOf(d, p)
  {
    StringsMember(KeywordsOf(d, p));
    assert Stored(RootHit(d), Field(p)) == Strings(KeywordsOf(d, p));
    if Lower(text) in KeywordsOf(d, p) {
      assert Str(Lower(text)) in Stored(RootHit(d), Field(p));
    }
  }

  lemma NoLettersFixed(text: string, s: string)
    requires NoLetters(text) && Lower(s) == Lower(text)
    ensures s == Lower(text)
  {
    forall i | 0 <= i < |s|
      ensures s[i] == Lower(text)[i]
    {
      assert LowerChar(s[i]) == Lower(s)[i] == Lower(text)[i] == LowerChar(text[i]);
    }
  }

  lemma RawKeywordKept(e: Engine, p: FieldId, text: string, d: EvidenceDoc)
    requires IsRawKeyword(p) && NoLetters(text)
    ensures Matches(e, TermQuery(Field(p), Str(Lower(text))), RootHit(d)) <==>
            exists s | s in KeywordsOf(d, p) :: Like(e, s, text, None)
  {
    RawKeywordTerm(e, p, text, d);
    LowerIdempotent(text);
    forall s | s in KeywordsOf(d, p) && Like(e, s, text, None)
      ensures Lower(text) in KeywordsOf(d, p)
    {
      NoLettersFixed(text, s);
    }
  }

  lemma KeywordWildcardKept(e: Engine, p: FieldId, text: string, d: EvidenceDoc)
    requires IsFoldedKeyword(p) || IsRawKeyword(p)
    ensures Matches(e, WildcardQuery(Field(p), Lower(text)), RootHit(d)) <==>
            exists s | s in KeywordsOf(d, p) :: LikePattern(e, s, text)
  {
    LowerIdempotent(text);
    assert Stored(RootHit(d), Field(p)) == Strings(KeywordsOf(d, p));
    assert !Analyzed(Field(p));
    hide Stored, Matches, Strings, KeywordsOf, IsFoldedKeyword, IsRawKeyword, Analyzed;
    WildcardAmong(e, Field(p), Lower(text), RootHit(d), KeywordsOf(d, p));
    forall s
      ensures GlobHit(e, Field(p), Str(s), Lower(text)) <==> LikePattern(e, s, text)
    {
    }
  }

  lemma TextWildcardKept(e: Engine, p: FieldId, text: string, d: EvidenceDoc)
    requires IsTextLeaf(p)
    ensures Matches(e, WildcardQuery(WildcardPath(p), Lower(text)), RootHit(d)) <==> TextPattern(e, d, p, text)
  {
    var path := WildcardPath(p);
    LowerIdempotent(text);
    if p in d.texts {
      assert Stored(RootHit(d), path) == [Str(d.texts[p])];
      assert Str(d.texts[p]) in Stored(RootHit(d), path);
    }
  }

  // ----- leaves of the query tree -----

  lemma OcrTermShape(f: ResolvedField, v: TermValue, fuzzy: Option<nat>)
    requires f.fieldType.OcrType?
    ensures CompileTerm(f, v, fuzzy) ==
            ShouldOne([MatchQuery(Field(TextOcr), WholeText(v), fuzzy), Nested(OcrPages, MatchQuery(OCR_PAGE_TEXT, WholeText(v), fuzzy))])
  {
  }

  lemma OcrTermMeaning(e: Engine, f: ResolvedField, v: TermValue, fuzzy: Option<nat>, d: EvidenceDoc)
    requires f.fieldType.OcrType?
    ensures TermMeans(e, f, v, fuzzy, d) <==>
            TextOf(e, d, TextOcr, WholeText(v), fuzzy) || exists t | t in d.ocrPages :: e.analyzed(OcrPages, t, WholeText(v), fuzzy)
  {
    hide TextOf;
  }

  lemma OcrTermKept(e: Engine, f: ResolvedField, v: TermValue, fuzzy: Option<nat>, d: EvidenceDoc)
    requires f.fieldType.OcrType?
    ensures Matches(e, CompileTerm(f, v, fuzzy), RootHit(d)) <==> TermMeans(e, f, v, fuzzy, d)
  {
    hide *;
    var text := WholeText(v);
    OcrTermShape(f, v, fuzzy);
    OcrTermMeaning(e, f, v, fuzzy, d);
    EitherMatches(e, MatchQuery(Field(TextOcr), text, fuzzy), Nested(OcrPages, MatchQuery(OCR_PAGE_TEXT, text, fuzzy)), RootHit(d));
    OcrIsText();
    TextHitKept(e, d, TextOcr, text, fuzzy);
    MatchOn(e, TextOcr, text, fuzzy, 0, RootHit(d));
    PageTextKept(e, text, fuzzy, 0, d);
  }

  lemma OcrIsText()
    ensures IsTextLeaf(TextOcr)
  {
  }

  lemma PlainTextTermKept(e: Engine, f: ResolvedField, v: TermValue, fuzzy: Option<nat>, d: EvidenceDoc)
    requires FieldOk(f) && f.fieldType.TextType?
    ensures Matches(e, CompileTerm(f, v, fuzzy), RootHit(d)) <==> TermMeans(e, f, v, fuzzy, d)
  {
    hide Stored;
    var text := WholeText(v);
    if f.esPath == AllText { AllTextKept(e, d, text, fuzzy, 0); } else { TextHitKept(e, d, f.esPath, text, fuzzy); }
  }

  lemma TextualTermKept(e: Engine, f: ResolvedField, v: TermValue, fuzzy: Option<nat>, d: EvidenceDoc)
    requires FieldOk(f) && f.fieldType in {HeaderType, OcrType, TextType}
    ensures Matches(e, CompileTerm(f, v, fuzzy), RootHit(d)) <==> TermMeans(e, f, v, fuzzy, d)
  {
    hide Matches, Stored;
    match f.fieldType
    case HeaderType => HeaderTermKept(e, f, WholeText(v), fuzzy, d);
    case OcrType => OcrTermKept(e, f, v, fuzzy, d);
    case TextType => PlainTextTermKept(e, f, v, fuzzy, d);
  }

  lemma IdentifierTermKept(e: Engine, f: ResolvedField, text: string, fuzzy: Option<nat>, d: EvidenceDoc)
    requires FieldOk(f) && f.fieldType in {AddressType, KeywordType}
    requires Faithful(VTerm(f, Str(text), fuzzy))
    ensures Matches(e, CompileTerm(f, Str(text), fuzzy), RootHit(d)) <==> TermMeans(e, f, Str(text), fuzzy, d)
  {
    if f.fieldType.AddressType? {
      AddressKept(e, f, text, d);
    } else if f.esPath == BatesRanges {
      BatesKept(e, text, d);
    } else if IsFoldedKeyword(f.esPath) {
      KeywordKept(e, f.esPath, text, if fuzzy.Some? then fuzzy.value else 0, d);
    } else {
      RawKeywordKept(e, f.esPath, text, d);
    }
  }

  lemma ScalarTermKept(e: Engine, f: ResolvedField, v: TermValue, fuzzy: Option<nat>, d: EvidenceDoc)
    requires FieldOk(f) && WellTyped(VTerm(f, v, fuzzy)) && f.fieldType in {BooleanType, SizeType}
    ensures Matches(e, CompileTerm(f, v, fuzzy), RootHit(d)) <==> TermMeans(e, f, v, fuzzy, d)
  {
    var stored := Stored(RootHit(d), Field(f.esPath));
    assert stored == RootValues(d, f.esPath);
    assert stored == [] || stored[0] in stored;
  }

  lemma TermKept(e: Engine, n: ValidatedNode, d: EvidenceDoc)
    requires n.VTerm? && WellTyped(n) && Faithful(n)
    ensures Matches(e, CompileNode(n), RootHit(d)) <==> Means(e, n, d)
  {
    var t := n.field.fieldType;
    if t in {AddressType, KeywordType} {
      IdentifierTermKept(e, n.field, n.term.text, n.fuzzy, d);
    } else if t in {BooleanType, SizeType} {
      ScalarTermKept(e, n.field, n.term, n.fuzzy, d);
    } else {
      TextualTermKept(e, n.field, n.term, n.fuzzy, d);
    }
  }

  lemma OcrPhraseKept(e: Engine, n: ValidatedNode, d: EvidenceDoc)
    requires n.VPhrase? && n.field.fieldType.OcrType?
    ensures Matches(e, CompileNode(n), RootHit(d)) <==> Means(e, n, d)
  {
    var text := n.phrase;
    var slop := if n.proximity.Some? then n.proximity.value else 0;
    var whole, page := MatchPhraseQuery(Field(TextOcr), text, slop), Nested(OcrPages, MatchPhraseQuery(OCR_PAGE_TEXT, text, slop));
    assert CompileNode(n) == ShouldOne([whole, page]);
    hide Stored, Matches, TextHit, PhraseOf, PhraseHit, CompileNode;
    EitherMatches(e, whole, page, RootHit(d));
    PhraseHitKept(e, d, TextOcr, text, slop);
    MatchOn(e, TextOcr, text, None, slop, RootHit(d));
    PageTextKept(e, text, None, slop, d);
  }

  lemma PlainPhraseKept(e: Engine, n: ValidatedNode, d: EvidenceDoc)
    requires n.VPhrase? && WellTyped(n) && n.field.fieldType.TextType?
    ensures Matches(e, CompileNode(n), RootHit(d)) <==> Means(e, n, d)
  {
    hide Stored;
    var f, text := n.field, n.phrase;
    var slop := if n.proximity.Some? then n.proximity.value else 0;
    if f.esPath == AllText { AllTextKept(e, d, text, None, slop); } else { PhraseHitKept(e, d, f.esPath, text, slop); }
  }

  lemma HeaderPhraseNodeKept(e: Engine, n: ValidatedNode, d: EvidenceDoc)
    requires n.VPhrase? && WellTyped(n) && n.field.fieldType.HeaderType?
    ensures Matches(e, CompileNode(n), RootHit(d)) <==> Means(e, n, d)
  {
    hide Stored, Matches;
    HeaderPhraseKept(e, n.field, n.phrase, if n.proximity.Some? then n.proximity.value else 0, d);
  }

  lemma PhraseKept(e: Engine, n: ValidatedNode, d: EvidenceDoc)
    requires n.VPhrase? && WellTyped(n) && Faithful(n)
    ensures Matches(e, CompileNode(n), RootHit(d)) <==> Means(e, n, d)
  {
    hide Stored, Matches, Means, CompileNode;
    match n.field.fieldType
    case HeaderType => HeaderPhraseNodeKept(e, n, d);
    case OcrType => OcrPhraseKept(e, n, d);
    case AddressType => PhraseIsTerm(e, n, d);
    case KeywordType => PhraseIsTerm(e, n, d);
    case TextType => PlainPhraseKept(e, n, d);
    case _ =>
  }

  // On identifiers a phrase compiles to the term with the same text.
  lemma PhraseIsTerm(e: Engine, n: ValidatedNode, d: EvidenceDoc)
    requires n.VPhrase? && WellTyped(n) && Faithful(n) && n.field.fieldType in {AddressType, KeywordType}
    ensures Matches(e, CompileNode(n), RootHit(d)) <==> Means(e, n, d)
  {
    assert CompileNode(n) == CompileTerm(n.field, Str(n.phrase), None);
    IdentifierTermKept(e, n.field, n.phrase, None, d);
  }

  lemma WildcardKept(e: Engine, n: ValidatedNode, d: EvidenceDoc)
    requires n.VWildcard? && WellTyped(n) && Faithful(n)
    ensures Matches(e, CompileNode(n), RootHit(d)) <==> Means(e, n, d)
  {
    var f, text := n.field, n.pattern;
    match f.fieldType
    case HeaderType => HeaderWildcardKept(e, f, text, d);
    case AddressType => AddressKept(e, f, text, d);
    case KeywordType =>
      if f.esPath == BatesRanges { BatesWildcardKept(e, text, d); } else { KeywordWildcardKept(e, f.esPath, text, d); }
    case TextType =>
      if f.esPath == AllText { AllTextWildcardKept(e, f, text, d); } else { TextWildcardKept(e, f.esPath, text, d); }
    case _ =>
  }

  function AllTextWildcards(text: string): (qs: seq<Dsl>)
    ensures |qs| == |ALL_TEXT_FIELDS|
  {
    seq(|ALL_TEXT_FIELDS|, i requires 0 <= i < |ALL_TEXT_FIELDS| => WildcardQuery(WildcardPath(ALL_TEXT_FIELDS[i]), Lower(text)))
  }

  lemma AllTextWildcardAt(e: Engine, text: string, d: EvidenceDoc, i: nat)
    requires i < |ALL_TEXT_FIELDS|
    ensures Matches(e, AllTextWildcards(text)[i], RootHit(d)) <==> TextPattern(e, d, ALL_TEXT_FIELDS[i], text)
  {
    hide Matches, Stored, TextPattern;
    SevenFields();
    assert ALL_TEXT_FIELDS[i] in ALL_TEXT_FIELDS;
    TextWildcardKept(e, ALL_TEXT_FIELDS[i], text, d);
  }

  lemma AllTextWildcardShape(f: ResolvedField, text: string)
    requires f.fieldType.TextType? && f.esPath == AllText
    ensures CompileWildcard(f, text) == ShouldOne(AllTextWildcards(text)) && AllTextWildcards(text) != []
  {
    assert CompileWildcard(f, text).should == AllTextWildcards(text);
  }

  lemma AllTextWildcardKept(e: Engine, f: ResolvedField, text: string, d: EvidenceDoc)
    requires f.fieldType.TextType? && f.esPath == AllText
    ensures Matches(e, CompileWildcard(f, text), RootHit(d)) <==> WildcardMeans(e, f, text, d)
  {
    hide *;
    var qs, hit := AllTextWildcards(text), RootHit(d);
    AllTextWildcardShape(f, text);
    ShouldOneMatches(e, qs, hit);
    SomeIndex(e, qs, hit);
    AnyTextPattern(e, f, text, d);
    forall i | 0 <= i < |qs|
      ensures Matches(e, qs[i], hit) <==> TextPattern(e, d, ALL_TEXT_FIELDS[i], text)
      ensures ALL_TEXT_FIELDS[i] in ALL_TEXT_FIELDS
    {
      AllTextWildcardAt(e, text, d, i);
    }
    if p :| p in ALL_TEXT_FIELDS && TextPattern(e, d, p, text) {
      var i :| 0 <= i < |ALL_TEXT_FIELDS| && ALL_TEXT_FIELDS[i] == p;
      assert Matches(e, qs[i], hit);
    }
  }

  lemma AnyTextPattern(e: Engine, f: ResolvedField, text: string, d: EvidenceDoc)
    requires f.fieldType.TextType? && f.esPath == AllText
    ensures WildcardMeans(e, f, text, d) <==> exists p | p in ALL_TEXT_FIELDS :: TextPattern(e, d, p, text)
  {
    SevenFields();
  }

  lemma SomeIndex(e: Engine, qs: seq<Dsl>, h: Hit)
    ensures (exists c | c in qs :: Matches(e, c, h)) <==> exists i :: 0 <= i < |qs| && Matches(e, qs[i], h)
  {
    if c :| c in qs && Matches(e, c, h) {
      var i :| 0 <= i < |qs| && qs[i] == c;
    }
    if i :| 0 <= i < |qs| && Matches(e, qs[i], h) {
      assert qs[i] in qs;
    }
  }

  lemma HeaderExistsKept(e: Engine, f: ResolvedField, d: EvidenceDoc)
    requires FieldOk(f) && f.fieldType.HeaderType?
    ensures Matches(e, CompileExists(f), RootHit(d)) <==> ExistsMeans(f, d)
  {
    var q := TermQuery(Dot(Field(Headers), NameSub), Str(f.headerName.value));
    var hits := NestedHits(RootHit(d), Headers);
    forall h: RawHeader
      ensures Matches(e, q, HeaderHit(h)) <==> IsHeader(f, h)
    {
      assert Stored(HeaderHit(h), q.path) == [Str(h.name)];
      assert Str(h.name) in Stored(HeaderHit(h), q.path);
    }
    forall h | h in d.headers
      ensures HeaderHit(h) in hits
    {
      var i :| 0 <= i < |d.headers| && d.headers[i] == h;
      assert hits[i] == HeaderHit(h);
    }
  }

  lemma AddressExistsKept(e: Engine, f: ResolvedField, d: EvidenceDoc)
    requires FieldOk(f) && f.fieldType.AddressType?
    ensures Matches(e, CompileExists(f), RootHit(d)) <==> ExistsMeans(f, d)
  {
    var p := Dot(Field(f.esPath), if f.esPath == Addresses then AllSub else AddressSub);
    assert CompileExists(f) == ExistsQuery(p);
    assert |Stored(RootHit(d), p)| == if f.esPath == Addresses then |d.allAddresses| else |EmailsOf(d, f.esPath)|;
  }

  lemma PlainExistsValues(f: ResolvedField, d: EvidenceDoc)
    requires FieldOk(f) && f.fieldType !in {HeaderType, AddressType, OcrType} && f.esPath !in {AllText, BatesRanges}
    ensures Stored(RootHit(d), Field(f.esPath)) == RootValues(d, f.esPath)
    ensures RootValues(d, f.esPath) != [] <==> ExistsMeans(f, d)
  {
    hide KeywordsOf, FlagOf;
    match f.fieldType
    case KeywordType => assert |Strings(KeywordsOf(d, f.esPath))| == |KeywordsOf(d, f.esPath)|;
    case _ =>
  }

  lemma PlainExistsKept(e: Engine, n: ValidatedNode, d: EvidenceDoc)
    requires n.VExists? && WellTyped(n) && Faithful(n)
    requires !n.field.fieldType.HeaderType? && !n.field.fieldType.AddressType?
    ensures Matches(e, CompileNode(n), RootHit(d)) <==> Means(e, n, d)
  {
    var f := n.field;
    assert CompileNode(n) == ExistsQuery(Field(f.esPath));
    hide Matches, Stored, RootValues, ExistsMeans, CompileNode;
    PlainExistsValues(f, d);
    ExistsOn(e, Field(f.esPath), RootHit(d));
  }

  lemma ExistsKept(e: Engine, n: ValidatedNode, d: EvidenceDoc)
    requires n.VExists? && WellTyped(n) && Faithful(n)
    ensures Matches(e, CompileNode(n), RootHit(d)) <==> Means(e, n, d)
  {
    var f := n.field;
    if f.fieldType.HeaderType? {
      hide Matches, CompileExists, ExistsMeans;
      HeaderExistsKept(e, f, d);
    } else if f.fieldType.AddressType? {
      hide Matches, CompileExists, ExistsMeans;
      AddressExistsKept(e, f, d);
    } else {
      hide Matches, CompileExists, ExistsMeans;
      PlainExistsKept(e, n, d);
    }
  }

  lemma RangeKept(e: Engine, n: ValidatedNode, d: EvidenceDoc)
    requires n.VRange? && WellTyped(n)
    ensures Matches(e, CompileNode(n), RootHit(d)) <==> Means(e, n, d)
  {
    var p := Field(n.field.esPath);
    var stored := Stored(RootHit(d), p);
    assert stored == RootValues(d, n.field.esPath);
    assert stored == [] || stored[0] in stored;
  }

  lemma LeafKept(e: Engine, n: ValidatedNode, d: EvidenceDoc)
    requires IsLeaf(n) && WellTyped(n) && Faithful(n)
    ensures Matches(e, CompileNode(n), RootHit(d)) <==> Means(e, n, d)
  {
    match n
    case VMatchAll =>
    case VTerm(_, _, _) => TermKept(e, n, d);
    case VPhrase(_, _, _) => PhraseKept(e, n, d);
    case VWildcard(_, _) => WildcardKept(e, n, d);
    case VRange(_, _) => RangeKept(e, n, d);
    case VExists(_) => ExistsKept(e, n, d);
  }

  // ----- the whole tree -----

  lemma {:induction false} CompileNodeKeepsMeaning(e: Engine, n: ValidatedNode, d: EvidenceDoc)
    requires WellTyped(n) && AllFaithful(n)
    ensures Matches(e, CompileNode(n), RootHit(d)) <==> Means(e, n, d)
    decreases n
  {
    match n
    case VGroup(op, children) =>
      var qs := seq(|children|, i requires 0 <= i < |children| => CompileNode(children[i]));
      forall i | 0 <= i < |children|
        ensures Matches(e, qs[i], RootHit(d)) <==> Means(e, children[i], d)
        ensures qs[i] in qs && children[i] in children
      {
        assert children[i] in children;
        CompileNodeKeepsMeaning(e, children[i], d);
      }
      GroupKept(e, n, qs, d);
    case VNot(child) =>
      CompileNodeKeepsMeaning(e, child, d);
      assert CompileNode(child) in [CompileNode(child)];
    case _ => LeafKept(e, n, d);
  }

  lemma GroupKept(e: Engine, n: ValidatedNode, qs: seq<Dsl>, d: EvidenceDoc)
    requires n.VGroup? && n.children != [] && |qs| == |n.children|
    requires CompileNode(n) == if n.op.AndOp? then MustAll(qs) else ShouldOne(qs)
    requires forall i :: 0 <= i < |qs| ==> (Matches(e, qs[i], RootHit(d)) <==> Means(e, n.children[i], d))
    ensures Matches(e, CompileNode(n), RootHit(d)) <==> Means(e, n, d)
  {
    if n.op.AndOp? {
      MustAllMatches(e, qs, RootHit(d));
      AllTransfer(e, n.children, qs, d);
    } else {
      ShouldOneMatches(e, qs, RootHit(d));
      SomeTransfer(e, n.children, qs, d);
    }
  }

  lemma AllTransfer(e: Engine, ns: seq<ValidatedNode>, qs: seq<Dsl>, d: EvidenceDoc)
    requires |qs| == |ns|
    requires forall i :: 0 <= i < |qs| ==> (Matches(e, qs[i], RootHit(d)) <==> Means(e, ns[i], d))
    ensures (forall c | c in qs :: Matches(e, c, RootHit(d))) <==> forall c | c in ns :: Means(e, c, d)
  {
    if forall c | c in qs :: Matches(e, c, RootHit(d)) {
      forall c | c in ns
        ensures Means(e, c, d)
      {
        var i :| 0 <= i < |ns| && ns[i] == c;
        assert qs[i] in qs;
      }
    }
    if forall c | c in ns :: Means(e, c, d) {
      forall c | c in qs
        ensures Matches(e, c, RootHit(d))
      {
        var i :| 0 <= i < |qs| && qs[i] == c;
        assert ns[i] in ns;
      }
    }
  }

  lemma SomeTransfer(e: Engine, ns: seq<ValidatedNode>, qs: seq<Dsl>, d: EvidenceDoc)
    requires |qs| == |ns|
    requires forall i :: 0 <= i < |qs| ==> (Matches(e, qs[i], RootHit(d)) <==> Means(e, ns[i], d))
    ensures (exists c | c in qs :: Matches(e, c, RootHit(d))) <==> exists c | c in ns :: Means(e, c, d)
  {
    if q :| q in qs && Matches(e, q, RootHit(d)) {
      var i :| 0 <= i < |qs| && qs[i] == q;
      assert ns[i] in ns;
    }
    if c :| c in ns && Means(e, c, d) {
      var i :| 0 <= i < |ns| && ns[i] == c;
      assert qs[i] in qs;
    }
  }

  // ----- authorization -----

  // What a caller may see, stated on the document.
  predicate Visible(d: EvidenceDoc, auth: AuthContext) {
    && d.tenantId == auth.tenantId
    && CaseVisible(d, auth.caseIds)
    && (auth.importAccess.Some? ==> ImportVisible(d, auth.importAccess.value))
    && (auth.includePrivileged || !FlagOf(d, Privileged))
  }

  lemma CaseFilter(e: Engine, cases: seq<string>, d: EvidenceDoc)
    ensures Matches(e, TermsQuery(Field(CaseIds), cases), RootHit(d)) <==> exists c | c in cases :: c in d.caseIds
  {
    StringsMember(d.caseIds);
    assert Stored(RootHit(d), Field(CaseIds)) == Strings(d.caseIds);
    if c :| c in cases && c in d.caseIds {
      assert Str(c) in Stored(RootHit(d), Field(CaseIds));
    }
  }

  lemma ColumnFilter(e: Engine, p: FieldId, v: TermValue, t: TermValue, d: EvidenceDoc)
    requires !IsFoldedKeyword(p) && Stored(RootHit(d), Field(p)) == [v]
    ensures Matches(e, TermQuery(Field(p), t), RootHit(d)) <==> v == t
  {
    assert v in Stored(RootHit(d), Field(p));
  }

  lemma EitherOfThree(e: Engine, p: Dsl, q: Dsl, r: Dsl, h: Hit)
    ensures Matches(e, ShouldOne([p, q, r]), h) <==> Matches(e, p, h) || Matches(e, q, h) || Matches(e, r, h)
  {
    ShouldOneMatches(e, [p, q, r], h);
    assert p in [p, q, r] && q in [p, q, r] && r in [p, q, r];
  }

  lemma NotImported(e: Engine, d: EvidenceDoc)
    ensures Matches(e, MustNot(ExistsQuery(Field(ImportId))), RootHit(d)) <==> d.importId.None?
  {
    assert ExistsQuery(Field(ImportId)) in [ExistsQuery(Field(ImportId))];
    assert Stored(RootHit(d), Field(ImportId)) == Optional(d.importId);
  }

  lemma OwnedBy(e: Engine, user: string, d: EvidenceDoc)
    ensures Matches(e, TermQuery(Field(ImportOwnerId), Str(user)), RootHit(d)) <==> d.importOwnerId == Some(user)
  {
    assert Stored(RootHit(d), Field(ImportOwnerId)) == Optional(d.importOwnerId);
    if d.importOwnerId.Some? {
      ColumnFilter(e, ImportOwnerId, Str(d.importOwnerId.value), Str(user), d);
    }
  }

  predicate ImportVisible(d: EvidenceDoc, access: ImportAccess) {
    || d.importId.None?
    || d.importOwnerId == Some(access.ownerUserId)
    || exists c | c in access.caseIds :: c in d.caseIds
  }

  lemma ImportFilter(e: Engine, access: ImportAccess, d: EvidenceDoc)
    ensures Matches(e, ImportQuery(access), RootHit(d)) <==> ImportVisible(d, access)
  {
    EitherOfThree(e, MustNot(ExistsQuery(Field(ImportId))), TermQuery(Field(ImportOwnerId), Str(access.ownerUserId)),
                  TermsQuery(Field(CaseIds), access.caseIds), RootHit(d));
    NotImported(e, d);
    OwnedBy(e, access.ownerUserId, d);
    CaseFilter(e, access.caseIds, d);
  }

  lemma BoolWithFilter(e: Engine, q: Dsl, filter: seq<Dsl>, h: Hit)
    ensures Matches(e, Bool([q], [], [], filter, false), h) <==>
            Matches(e, q, h) && forall c | c in filter :: Matches(e, c, h)
  {
    assert q in [q];
  }

  predicate CaseVisible(d: EvidenceDoc, cases: Option<seq<string>>) {
    cases.Some? ==> exists c | c in cases.value :: c in d.caseIds
  }

  lemma Single(e: Engine, q: Dsl, h: Hit)
    ensures (forall c | c in [q] :: Matches(e, c, h)) <==> Matches(e, q, h)
  {
    assert q in [q];
  }

  lemma TenantFilter(e: Engine, auth: AuthContext, d: EvidenceDoc)
    ensures (forall c | c in TenantClause(auth) :: Matches(e, c, RootHit(d))) <==> d.tenantId == auth.tenantId
  {
    Single(e, TermQuery(Field(TenantId), Str(auth.tenantId)), RootHit(d));
    ColumnFilter(e, TenantId, Str(d.tenantId), Str(auth.tenantId), d);
  }

  lemma PrivilegeFilter(e: Engine, auth: AuthContext, d: EvidenceDoc)
    ensures (forall c | c in PrivilegeClause(auth) :: Matches(e, c, RootHit(d))) <==> auth.includePrivileged || !FlagOf(d, Privileged)
  {
    if !auth.includePrivileged {
      Single(e, TermQuery(Field(Privileged), Flag(false)), RootHit(d));
      ColumnFilter(e, Privileged, Flag(FlagOf(d, Privileged)), Flag(false), d);
    }
  }

  lemma CasesAndImports(e: Engine, auth: AuthContext, d: EvidenceDoc)
    ensures (forall c | c in CaseClause(auth) :: Matches(e, c, RootHit(d))) <==> CaseVisible(d, auth.caseIds)
    ensures (forall c | c in ImportClause(auth) :: Matches(e, c, RootHit(d))) <==>
            (auth.importAccess.Some? ==> ImportVisible(d, auth.importAccess.value))
  {
    if auth.caseIds.Some? {
      Single(e, TermsQuery(Field(CaseIds), auth.caseIds.value), RootHit(d));
      CaseFilter(e, auth.caseIds.value, d);
    }
    if auth.importAccess.Some? {
      Single(e, ImportQuery(auth.importAccess.value), RootHit(d));
      ImportFilter(e, auth.importAccess.value, d);
    }
  }

  lemma AllIn(e: Engine, a: seq<Dsl>, b: seq<Dsl>, c: seq<Dsl>, f: seq<Dsl>, h: Hit)
    ensures (forall q | q in a + b + c + f :: Matches(e, q, h)) <==>
            && (forall q | q in a :: Matches(e, q, h)) && (forall q | q in b :: Matches(e, q, h))
            && (forall q | q in c :: Matches(e, q, h)) && (forall q | q in f :: Matches(e, q, h))
  {
    forall q
      ensures q in a + b + c + f <==> q in a || q in b || q in c || q in f
    {
    }
  }

  // The wrapped query matches a document exactly when the caller may see it and it matches the query.
  lemma WrapperFilters(e: Engine, q: Dsl, auth: AuthContext, d: EvidenceDoc)
    ensures WrapWithAuthorization(q, auth).Ok? <==> auth.tenantId != ""
    ensures auth.tenantId != "" ==>
              (Matches(e, WrapWithAuthorization(q, auth).value, RootHit(d)) <==> Visible(d, auth) && Matches(e, q, RootHit(d)))
  {
    var filter := TenantClause(auth) + CaseClause(auth) + ImportClause(auth) + PrivilegeClause(auth);
    BoolWithFilter(e, q, filter, RootHit(d));
    AllIn(e, TenantClause(auth), CaseClause(auth), ImportClause(auth), PrivilegeClause(auth), RootHit(d));
    TenantFilter(e, auth, d);
    PrivilegeFilter(e, auth, d);
    CasesAndImports(e, auth, d);
  }

  lemma CompileKeepsMeaning(e: Engine, root: ValidatedNode, auth: AuthContext, d: EvidenceDoc)
    requires WellTyped(root) && AllFaithful(root)
    ensures Compile(root, auth).Ok? <==> auth.tenantId != ""
    ensures auth.tenantId != "" ==>
              (Matches(e, Compile(root, auth).value, RootHit(d)) <==> Visible(d, auth) && Means(e, root, d))
  {
    WrapperFilters(e, CompileNode(root), auth, d);
    CompileNodeKeepsMeaning(e, root, d);
  }

  // Whatever was typed and however it was built: no match from another tenant, none
  // outside the cases, and none at all for an empty case list.
  lemma NoQueryEscapesAuthorization(e: Engine, root: ValidatedNode, auth: AuthContext, d: EvidenceDoc)
    requires Compile(root, auth).Ok? && Matches(e, Compile(root, auth).value, RootHit(d))
    ensures Visible(d, auth) && auth.caseIds != Some([])
  {
    WrapperFilters(e, CompileNode(root), auth, d);
  }

  // ----- where the compiler does not keep the meaning -----

  const NO_ENGINE := Engine((p, s, q, n) => false, (p, s, q, n) => false, (p, s, q) => false, (s, q) => false,
                            (s, q, n) => false, (op, s, b) => false)

  const NO_DOC := EvidenceDoc("", None, None, [], None, map[], map[], map[], map[], map[], [], [], [], [], [])

  function UpperAt(s: string, i: nat): string
    requires i < |s| && 'a' <= s[i] <= 'z'
  {
    s[i := 'A' + (s[i] - 'a')]
  }

  // A capital letter in a value stored as written hides it from the lowercased query.
  lemma CapitalHides(p: FieldId, text: string) returns (d: EvidenceDoc)
    requires IsRawKeyword(p) && !NoLetters(text)
    ensures exists s | s in KeywordsOf(d, p) :: Lower(s) == Lower(text)
    ensures Lower(text) !in KeywordsOf(d, p)
  {
    var i :| 0 <= i < |text| && IsLetter(text[i]);
    var s := UpperAt(Lower(text), i);
    assert s[i] != Lower(text)[i];
    assert Lower(s) == Lower(text);
    d := if p == CaseIds then NO_DOC.(caseIds := [s]) else NO_DOC.(keywords := map[p := [s]]);
    assert KeywordsOf(d, p) == [s];
    assert s in KeywordsOf(d, p);
  }

  lemma RawTermLost(f: ResolvedField, text: string) returns (d: EvidenceDoc)
    requires FieldOk(f) && f.fieldType.KeywordType? && IsRawKeyword(f.esPath) && !NoLetters(text)
    ensures !Matches(NO_ENGINE, CompileTerm(f, Str(text), None), RootHit(d))
    ensures TermMeans(NO_ENGINE, f, Str(text), None, d)
  {
    d := CapitalHides(f.esPath, text);
    RawKeywordTerm(NO_ENGINE, f.esPath, text, d);
    assert CompileTerm(f, Str(text), None) == TermQuery(Field(f.esPath), Str(Lower(text)));
  }

  lemma RawFuzzyLost(f: ResolvedField, text: string, edits: nat) returns (e: Engine, d: EvidenceDoc)
    requires FieldOk(f) && f.fieldType.KeywordType? && IsRawKeyword(f.esPath)
    ensures Matches(e, CompileTerm(f, Str(text), Some(edits)), RootHit(d)) && !TermMeans(e, f, Str(text), Some(edits), d)
  {
    var p := f.esPath;
    e := NO_ENGINE.(fuzzyKeyword := (s, q, n) => s == "A");
    d := if p == CaseIds then NO_DOC.(caseIds := ["A"]) else NO_DOC.(keywords := map[p := ["A"]]);
    assert KeywordsOf(d, p) == ["A"] && Stored(RootHit(d), Field(p)) == [Str("A")];
    assert Str("A") in Stored(RootHit(d), Field(p));
    assert FuzzyHit(e, Field(p), Str("A"), text, edits);
    assert Lower("A")[0] == 'a';
  }

  lemma FuzzyDropped(f: ResolvedField, text: string, edits: nat) returns (e: Engine, d: EvidenceDoc)
    requires FieldOk(f) && (f.fieldType.AddressType? || f.esPath == BatesRanges)
    ensures !Matches(e, CompileTerm(f, Str(text), Some(edits)), RootHit(d)) && TermMeans(e, f, Str(text), Some(edits), d)
  {
    var s := text + "x";
    e := NO_ENGINE.(fuzzyKeyword := (s, q, n) => true);
    assert |Lower(s)| != |Lower(text)|;
    if f.esPath == BatesRanges {
      d := NO_DOC.(bates := [BatesRecord(s, s)]);
      BatesFuzzyDropped(e, f, text, edits, d);
    } else {
      d := NO_DOC.(allAddresses := [s], allDomains := [s], emails := map[f.esPath := [EmailAddress(s, s)]]);
      assert AddressStrings(d, f.esPath, text) == [s];
      AddressFuzzyDropped(e, f, text, edits, d, s);
    }
  }

  lemma BatesFuzzyDropped(e: Engine, f: ResolvedField, text: string, edits: nat, d: EvidenceDoc)
    requires FieldOk(f) && f.esPath == BatesRanges && |d.bates| == 1 && (forall s, q, n :: e.fuzzyKeyword(s, q, n))
    requires Lower(d.bates[0].begBates) != Lower(text) && Lower(d.bates[0].endBates) != Lower(text)
    ensures !Matches(e, CompileTerm(f, Str(text), Some(edits)), RootHit(d)) && TermMeans(e, f, Str(text), Some(edits), d)
  {
    hide Matches, Stored;
    BatesKept(e, text, d);
    assert CompileTerm(f, Str(text), Some(edits)) == BatesQuery(text);
    assert d.bates[0] in d.bates && Like(e, d.bates[0].begBates, text, Some(edits));
  }

  lemma AddressFuzzyDropped(e: Engine, f: ResolvedField, text: string, edits: nat, d: EvidenceDoc, s: string)
    requires FieldOk(f) && f.fieldType.AddressType? && (forall s, q, n :: e.fuzzyKeyword(s, q, n))
    requires AddressStrings(d, f.esPath, text) == [s] && Lower(s) != Lower(text)
    ensures !Matches(e, CompileTerm(f, Str(text), Some(edits)), RootHit(d)) && TermMeans(e, f, Str(text), Some(edits), d)
  {
    hide Matches, Stored;
    AddressKept(e, f, text, d);
    assert CompileTerm(f, Str(text), Some(edits)) == TermQuery(AddressPath(f, text), Str(Lower(text)));
    assert s in AddressStrings(d, f.esPath, text) && Like(e, s, text, Some(edits));
  }

  lemma OcrPagesMissed(f: ResolvedField, text: string) returns (e: Engine, d: EvidenceDoc)
    requires FieldOk(f) && f.fieldType.OcrType?
    ensures !Matches(e, CompileWildcard(f, text), RootHit(d)) && WildcardMeans(e, f, text, d)
    ensures !Matches(e, CompileExists(f), RootHit(d)) && ExistsMeans(f, d)
  {
    e := NO_ENGINE.(tokenGlob := (p, s, q) => true);
    d := NO_DOC.(ocrPages := [""]);
    assert "" in d.ocrPages;
    assert Stored(RootHit(d), Field(TextOcr)) == [];
  }

  // bates:* is asked of the root document, which never holds the nested records.
  lemma BatesExistsNeverMatches(e: Engine, f: ResolvedField, d: EvidenceDoc)
    requires FieldOk(f) && f.esPath == BatesRanges
    ensures !Matches(e, CompileExists(f), RootHit(d))
  {
    assert Stored(RootHit(d), Field(BatesRanges)) == [];
  }

  // Outside the faithful leaves some document and engine tell the two sides apart.
  lemma UnfaithfulLeafDiffers(n: ValidatedNode) returns (e: Engine, d: EvidenceDoc)
    requires IsLeaf(n) && WellTyped(n) && !Faithful(n)
    ensures Matches(e, CompileNode(n), RootHit(d)) != Means(e, n, d)
  {
    e, d := NO_ENGINE, NO_DOC;
    match n
    case VTerm(f, v, fuzzy) =>
      if f.fieldType.AddressType? || f.esPath == BatesRanges {
        e, d := FuzzyDropped(f, v.text, fuzzy.value);
      } else if fuzzy.Some? {
        e, d := RawFuzzyLost(f, v.text, fuzzy.value);
      } else {
        d := RawTermLost(f, v.text);
      }
    case VPhrase(f, v, _) =>
      d := RawTermLost(f, v);
      assert CompileNode(n) == CompileTerm(f, Str(v), None);
    case VWildcard(f, v) => e, d := OcrPagesMissed(f, v);
    case VExists(f) =>
      if f.fieldType.OcrType? {
        e, d := OcrPagesMissed(f, "");
      } else {
        d := NO_DOC.(bates := [BatesRecord("", "")]);
        BatesExistsNeverMatches(e, f, d);
      }
  }

  // The exact condition: a leaf means the same compiled, on every document and
  // under every engine, if and only if it is faithful.
  lemma FaithfulExactly(n: ValidatedNode)
    requires IsLeaf(n) && WellTyped(n)
    ensures Faithful(n) <==> forall e: Engine, d: EvidenceDoc :: Matches(e, CompileNode(n), RootHit(d)) <==> Means(e, n, d)
  {
    if Faithful(n) {
      forall e: Engine, d: EvidenceDoc
        ensures Matches(e, CompileNode(n), RootHit(d)) <==> Means(e, n, d)
      {
        LeafKept(e, n, d);
      }
    } else {
      var e, d := UnfaithfulLeafDiffers(n);
    }
  }

  // An empty OR would be an empty bool query, which OpenSearch rewrites to match_all.
  lemma EmptyOrMatchesEverything(e: Engine, d: EvidenceDoc)
    ensures Matches(e, CompileNode(VGroup(OrOp, [])), RootHit(d)) && !Means(e, VGroup(OrOp, []), d)
  {
  }
}
