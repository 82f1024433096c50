// Writing a query tree in the query language, and reading it back: the lexer and
// parser of packages/search/src/lexer.ts and parser.ts invert this printer.
module SearchPrinter {
  import opened Wrappers
  import opened Text
  import opened SearchAst
  import opened SearchLexer
  import opened SearchParser

  // ----- the trees the language can write -----

  // One bare word: a colon only where it continues an ISO time, no tilde.
  predicate WordChars(w: string) {
    && w != ""
    && forall k :: 0 <= k < |w| ==>
         && w[k] != '~' && !IsSpace(w[k])
         && (IsBreak(w[k]) ==> w[k] == ':' && EndsInTime(w[..k]))
  }

  predicate PlainWord(w: string) {
    WordChars(w) && w != "AND" && w != "OR" && w != "NOT"
  }

  predicate FieldName(f: string) {
    PlainWord(f) && ':' !in f && Lower(f) == f
  }

  predicate OptionalField(f: Option<string>) {
    f.Some? ==> FieldName(f.value)
  }

  predicate WritableBounds(b: Bounds<string>) {
    match b
    case Bounds(Some(v), None, None, None) => PlainWord(v)
    case Bounds(None, Some(v), None, None) => PlainWord(v)
    case Bounds(None, None, Some(v), None) => PlainWord(v)
    case Bounds(None, None, None, Some(v)) => PlainWord(v)
    case Bounds(Some(v), Some(w), None, None) => PlainWord(v) && PlainWord(w) && v != "*" && w != "*"
    case _ => false
  }

  predicate Expressible(n: QueryNode) {
    match n
    case Group(_, children) => |children| >= 2 && forall c | c in children :: Expressible(c)
    case Not(child) => Expressible(child)
    case Term(f, v, None) => OptionalField(f) && PlainWord(v) && !HasWildcard(v)
    case Term(f, v, Some(_)) => OptionalField(f) && WordChars(v)
    case Phrase(f, _, _) => OptionalField(f)
    case Wildcard(f, v) => OptionalField(f) && PlainWord(v) && HasWildcard(v) && (f.Some? ==> v != "*")
    case Range(f, b) => FieldName(f) && WritableBounds(b)
    case Exists(f) => FieldName(f)
    case MatchAll => false
  }

  // ----- the printer -----

  function Escape(s: string): string {
    if s == "" then ""
    else (if s[0] == '\"' || s[0] == '\\' then ['\\', s[0]] else [s[0]]) + Escape(s[1..])
  }

  function Quoted(v: string): string {
    "\"" + Escape(v) + "\""
  }

  function FieldPrefix(f: Option<string>): string {
    if f.Some? then f.value + ":" else ""
  }

  function Suffix(n: Option<nat>): string {
    if n.Some? then "~" + ShowNat(n.value) else ""
  }

  function PrintRange(f: string, b: Bounds<string>): string
    requires WritableBounds(b)
  {
    match b
    case Bounds(Some(v), None, _, _) => f + ">=" + v
    case Bounds(None, Some(v), _, _) => f + "<=" + v
    case Bounds(None, None, Some(v), _) => f + ">" + v
    case Bounds(None, None, None, Some(v)) => f + "<" + v
    case Bounds(Some(v), Some(w), _, _) => f + ":" + "[" + v + " " + "TO" + " " + w + "]"
  }

  function PrintLeaf(n: QueryNode): string
    requires Expressible(n) && !n.Group? && !n.Not?
  {
    match n
    case Term(f, v, fuzzy) => FieldPrefix(f) + (v + Suffix(fuzzy))
    case Phrase(f, v, proximity) => FieldPrefix(f) + (Quoted(v) + Suffix(proximity))
    case Wildcard(f, v) => FieldPrefix(f) + v
    case Exists(f) => FieldPrefix(Some(f)) + "*"
    case Range(f, b) => PrintRange(f, b)
  }

  // Where a node stands: 0 under OR or alone, 1 under AND, 2 under NOT.
  type Level = l: nat | l <= 2

  function OpLevel(op: BoolOp): (l: Level)
    ensures l <= 1
  {
    if op.OrOp? then 0 else 1
  }

  // AND may be left out: `a b` is `a AND b`.
  function Separator(op: BoolOp, adjacent: bool): string {
    if op.OrOp? then " OR " else if adjacent then " " else " AND "
  }

  function Print(n: QueryNode, level: Level, adjacent: bool): string
    requires Expressible(n)
    decreases n, 1
  {
    match n
    case Group(op, children) =>
      var body := Print(children[0], OpLevel(op) + 1, adjacent) + PrintTail(children[1..], op, adjacent);
      if level > OpLevel(op) then "(" + body + ")" else body
    case Not(child) => "NOT" + " " + Print(child, 2, adjacent)
    case _ => PrintLeaf(n)
  }

  function PrintTail(cs: seq<QueryNode>, op: BoolOp, adjacent: bool): string
    requires forall c | c in cs :: Expressible(c)
    decreases cs, 0
  {
    if cs == [] then ""
    else Separator(op, adjacent) + Print(cs[0], OpLevel(op) + 1, adjacent) + PrintTail(cs[1..], op, adjacent)
  }

  // ----- the tokens of a printed tree -----

  function FieldLexemes(f: Option<string>): seq<Lexeme> {
    if f.Some? then [Word(f.value, None), Colon] else []
  }

  function LeafLexemes(n: QueryNode): seq<Lexeme>
    requires Expressible(n) && !n.Group? && !n.Not?
  {
    match n
    case Term(f, v, fuzzy) => FieldLexemes(f) + [Word(v, fuzzy)]
    case Phrase(f, v, proximity) => FieldLexemes(f) + [PhraseText(v, proximity)]
    case Wildcard(f, v) => FieldLexemes(f) + [Word(v, None)]
    case Exists(f) => FieldLexemes(Some(f)) + [Word("*", None)]
    case Range(f, Bounds(Some(v), None, _, _)) => [Word(f, None), Op(GreaterEq), Word(v, None)]
    case Range(f, Bounds(None, Some(v), _, _)) => [Word(f, None), Op(LessEq), Word(v, None)]
    case Range(f, Bounds(None, None, Some(v), _)) => [Word(f, None), Op(Greater), Word(v, None)]
    case Range(f, Bounds(None, None, None, Some(v))) => [Word(f, None), Op(Less), Word(v, None)]
    case Range(f, Bounds(Some(v), Some(w), _, _)) =>
      [Word(f, None), Colon, LBracket, Word(v, None), Word("TO", None), Word(w, None), RBracket]
  }

  function SeparatorLexemes(op: BoolOp, adjacent: bool): seq<Lexeme> {
    if op.OrOp? then [OrWord] else if adjacent then [] else [AndWord]
  }

  function LexemesOf(n: QueryNode, level: Level, adjacent: bool): seq<Lexeme>
    requires Expressible(n)
    decreases n, 1
  {
    match n
    case Group(op, children) =>
      var body := LexemesOf(children[0], OpLevel(op) + 1, adjacent) + TailLexemes(children[1..], op, adjacent);
      if level > OpLevel(op) then [LParen] + body + [RParen] else body
    case Not(child) => [NotWord] + LexemesOf(child, 2, adjacent)
    case _ => LeafLexemes(n)
  }

  function TailLexemes(cs: seq<QueryNode>, op: BoolOp, adjacent: bool): seq<Lexeme>
    requires forall c | c in cs :: Expressible(c)
    decreases cs, 0
  {
    if cs == [] then []
    else SeparatorLexemes(op, adjacent) + LexemesOf(cs[0], OpLevel(op) + 1, adjacent) + TailLexemes(cs[1..], op, adjacent)
  }

  function Lexemes(ts: seq<Token>): (ls: seq<Lexeme>)
    ensures |ls| == |ts| && forall i :: 0 <= i < |ts| ==> ls[i] == ts[i].lex
  {
    seq(|ts|, i requires 0 <= i < |ts| => ts[i].lex)
  }

  // ----- lexing what was printed -----

  // In front of rest, the text s is read as the tokens ls and nothing else changes.
  ghost predicate Yields(s: string, ls: seq<Lexeme>, rest: string, at: nat) {
    var after, whole := Tokens(rest, at + |s|), Tokens(s + rest, at);
    after.Ok? ==> whole.Ok? && Lexemes(whole.value) == ls + Lexemes(after.value)
  }

  lemma YieldsNothing(rest: string, at: nat)
    ensures Yields("", [], rest, at)
  {
    assert "" + rest == rest;
  }

  lemma YieldsThen(s: string, ls: seq<Lexeme>, t: string, ks: seq<Lexeme>, rest: string, at: nat)
    requires Yields(s, ls, t + rest, at) && Yields(t, ks, rest, at + |s|)
    ensures Yields(s + t, ls + ks, rest, at)
  {
    assert s + t + rest == s + (t + rest);
    var after := Tokens(rest, at + |s| + |t|);
    if after.Ok? {
      assert (ls + ks) + Lexemes(after.value) == ls + (ks + Lexemes(after.value));
    }
  }

  lemma YieldsOne(s: string, lex: Lexeme, rest: string, at: nat)
    requires s != "" && !IsSpace(s[0]) && ScanOne(s + rest) == Lexed(lex, |s|)
    ensures Yields(s, [lex], rest, at)
  {
    assert (s + rest)[|s|..] == rest;
    var after := Tokens(rest, at + |s|);
    if after.Ok? {
      assert Tokens(s + rest, at) == Ok([Token(lex, at)] + after.value);
    }
  }

  lemma YieldsPunctuation(c: char, lex: Lexeme, rest: string, at: nat)
    requires (c, lex) in {('(', LParen), (')', RParen), ('[', LBracket), (']', RBracket), (':', Colon)}
    ensures Yields([c], [lex], rest, at)
  {
    assert ScanOne([c] + rest) == Lexed(lex, 1);
    YieldsOne([c], lex, rest, at);
  }

  lemma YieldsSpace(rest: string, at: nat)
    ensures Yields(" ", [], rest, at)
  {
    assert (" " + rest)[1..] == rest;
  }

  // Printed pieces end at the end of the text, at a space or at a closing parenthesis.
  predicate Boundary(rest: string) {
    rest != "" ==> rest[0] == ' ' || rest[0] == ')'
  }

  // The characters after a word that end it.
  predicate Stops(w: string, rest: string) {
    rest != "" ==> IsSpace(rest[0]) || (IsBreak(rest[0]) && (rest[0] == ':' ==> !EndsInTime(w)))
  }

  lemma {:induction false} WordEndAt(w: string, rest: string, k: nat)
    requires k <= |w| && Stops(w, rest)
    requires forall j :: 0 <= j < |w| ==> !IsSpace(w[j]) && (IsBreak(w[j]) ==> w[j] == ':' && EndsInTime(w[..j]))
    ensures WordEnd(w + rest, k) == |w|
    decreases |w| - k
  {
    var s := w + rest;
    assert s[..k] == w[..k];
    if k < |w| {
      WordEndAt(w, rest, k + 1);
    } else {
      assert s[..k] == w;
    }
  }

  lemma YieldsWord(w: string, lex: Lexeme, rest: string, at: nat)
    requires w != "" && Stops(w, rest) && ClassifyWord(w) == Some(lex)
    requires forall j :: 0 <= j < |w| ==> !IsSpace(w[j]) && (IsBreak(w[j]) ==> w[j] == ':' && EndsInTime(w[..j]))
    ensures Yields(w, [lex], rest, at)
  {
    WordEndAt(w, rest, 0);
    assert (w + rest)[..|w|] == w;
    assert !IsBreak(w[0]);
    YieldsOne(w, lex, rest, at);
  }

  lemma {:induction false} NoTilde(w: string)
    requires forall j :: 0 <= j < |w| ==> w[j] != '~'
    ensures LastTilde(w) == -1
  {
    if w != "" {
      NoTilde(w[..|w| - 1]);
    }
  }

  lemma YieldsPlain(w: string, rest: string, at: nat)
    requires PlainWord(w) && Stops(w, rest)
    ensures Yields(w, [Word(w, None)], rest, at)
  {
    NoTilde(w);
    YieldsWord(w, Word(w, None), rest, at);
  }

  lemma {:induction false} TildeBeforeDigits(w: string, digits: string)
    requires AllDigits(digits)
    ensures LastTilde(w + "~" + digits) == |w|
  {
    var s := w + "~" + digits;
    if digits != "" {
      var init := digits[..|digits| - 1];
      TildeBeforeDigits(w, init);
      assert s[..|s| - 1] == w + "~" + init;
    }
  }

  lemma FuzzyWord(w: string, n: nat)
    requires WordChars(w)
    ensures ClassifyWord(w + Suffix(Some(n))) == Some(Word(w, Some(n)))
  {
    var digits := ShowNat(n);
    var s := w + "~" + digits;
    assert s == w + Suffix(Some(n));
    TildeBeforeDigits(w, digits);
    ParseShow(n);
    assert s[|w| + 1..] == digits && s[..|w|] == w;
    assert s[|w|] == '~';
  }

  lemma YieldsFuzzy(w: string, n: nat, rest: string, at: nat)
    requires WordChars(w) && Boundary(rest)
    ensures Yields(w + Suffix(Some(n)), [Word(w, Some(n))], rest, at)
  {
    hide Yields;
    var s := w + Suffix(Some(n));
    FuzzyWord(w, n);
    forall j | 0 <= j < |s|
      ensures !IsSpace(s[j]) && (IsBreak(s[j]) ==> s[j] == ':' && EndsInTime(s[..j]))
    {
      if j < |w| {
        assert s[j] == w[j] && s[..j] == w[..j];
      } else if j > |w| {
        assert s[j] == ShowNat(n)[j - |w| - 1];
      }
    }
    YieldsWord(s, Word(w, Some(n)), rest, at);
  }

  lemma EscapedBody(c: char, tail: string)
    requires c == '\"' || c == '\\'
    ensures PhraseBody(['\\', c] + tail) == Grow([c], 2, PhraseBody(tail))
  {
    assert (['\\', c] + tail)[2..] == tail;
  }

  lemma PlainBody(c: char, tail: string)
    requires c != '\"' && c != '\\'
    ensures PhraseBody([c] + tail) == Grow([c], 1, PhraseBody(tail))
  {
    assert ([c] + tail)[1..] == tail;
  }

  lemma {:induction false} UnescapeEscape(v: string, rest: string)
    ensures PhraseBody(Escape(v) + "\"" + rest) == Some((v, |Escape(v)| + 1))
  {
    var s := Escape(v) + "\"" + rest;
    if v == "" {
      assert s == "\"" + rest;
    } else {
      UnescapeEscape(v[1..], rest);
      var tail := Escape(v[1..]) + "\"" + rest;
      assert v == [v[0]] + v[1..];
      hide PhraseBody;
      if v[0] == '\"' || v[0] == '\\' {
        assert s == ['\\', v[0]] + tail;
        EscapedBody(v[0], tail);
      } else {
        assert s == [v[0]] + tail;
        PlainBody(v[0], tail);
      }
    }
  }

  lemma {:induction false} DigitRunAt(digits: string, rest: string)
    requires AllDigits(digits) && (rest != "" ==> !IsDigit(rest[0]))
    ensures DigitRun(digits + rest) == |digits|
  {
    if digits != "" {
      DigitRunAt(digits[1..], rest);
      assert (digits + rest)[1..] == digits[1..] + rest;
    } else {
      assert digits + rest == rest;
    }
  }

  lemma QuotedBody(v: string, tail: string)
    ensures PhraseBody((Quoted(v) + tail)[1..]) == Some((v, |Quoted(v)| - 1))
    ensures (Quoted(v) + tail)[0] == '\"' && (Quoted(v) + tail)[|Quoted(v)|..] == tail
  {
    UnescapeEscape(v, tail);
    assert (Quoted(v) + tail)[1..] == Escape(v) + "\"" + tail;
  }

  lemma PlainPhraseScanned(v: string, rest: string)
    requires Boundary(rest)
    ensures ScanPhrase(Quoted(v) + rest) == Lexed(PhraseText(v, None), |Quoted(v)|)
  {
    hide Quoted;
    QuotedBody(v, rest);
    assert rest != "" ==> (Quoted(v) + rest)[|Quoted(v)|] == rest[0];
  }

  lemma NearPhraseScanned(v: string, n: nat, rest: string)
    requires Boundary(rest)
    ensures ScanPhrase(Quoted(v) + ("~" + ShowNat(n) + rest)) == Lexed(PhraseText(v, Some(n)), |Quoted(v)| + 1 + |ShowNat(n)|)
  {
    hide Quoted, PhraseBody, DigitRun, ParseNat, ShowNat;
    var q, digits := Quoted(v), ShowNat(n);
    var tail := "~" + digits + rest;
    var whole := q + tail;
    QuotedBody(v, tail);
    DigitRunAt(digits, rest);
    ParseShow(n);
    assert whole[|q|] == tail[0] == '~';
    assert whole[|q| + 1..] == digits + rest;
    assert (digits + rest)[..|digits|] == digits;
  }

  lemma PhraseScanned(v: string, proximity: Option<nat>, rest: string)
    requires Boundary(rest)
    ensures var s := Quoted(v) + Suffix(proximity);
            s + rest != "" && (s + rest)[0] == '\"' && ScanPhrase(s + rest) == Lexed(PhraseText(v, proximity), |s|)
  {
    var s := Quoted(v) + Suffix(proximity);
    if proximity.Some? {
      assert s + rest == Quoted(v) + ("~" + ShowNat(proximity.value) + rest);
      NearPhraseScanned(v, proximity.value, rest);
    } else {
      assert s == Quoted(v);
      PlainPhraseScanned(v, rest);
    }
  }

  lemma YieldsPhrase(v: string, proximity: Option<nat>, rest: string, at: nat)
    requires Boundary(rest)
    ensures Yields(Quoted(v) + Suffix(proximity), [PhraseText(v, proximity)], rest, at)
  {
    hide Yields;
    PhraseScanned(v, proximity, rest);
    YieldsOne(Quoted(v) + Suffix(proximity), PhraseText(v, proximity), rest, at);
  }

  lemma FieldIsNoTime(f: string)
    requires FieldName(f)
    ensures !EndsInTime(f)
  {
    var k := |f| - 3;
    if k >= 0 {
      assert Lower(f)[k] == LowerChar(f[k]) && f[k] in f;
    }
  }

  lemma YieldsField(f: string, rest: string, at: nat)
    requires FieldName(f)
    ensures Yields(f + ":", [Word(f, None), Colon], rest, at)
  {
    hide Yields;
    FieldIsNoTime(f);
    YieldsPlain(f, ":" + rest, at);
    YieldsPunctuation(':', Colon, rest, at + |f|);
    YieldsThen(f, [Word(f, None)], ":", [Colon], rest, at);
    assert [Word(f, None)] + [Colon] == [Word(f, None), Colon];
  }

  lemma YieldsFieldPrefix(f: Option<string>, s: string, ls: seq<Lexeme>, rest: string, at: nat)
    requires OptionalField(f) && Yields(s, ls, rest, at + |FieldPrefix(f)|)
    ensures Yields(FieldPrefix(f) + s, FieldLexemes(f) + ls, rest, at)
  {
    hide Yields;
    if f.Some? {
      YieldsField(f.value, s + rest, at);
      YieldsThen(FieldPrefix(f), FieldLexemes(f), s, ls, rest, at);
    } else {
      assert FieldPrefix(f) + s == s && FieldLexemes(f) + ls == ls;
    }
  }

  lemma YieldsSign(sign: string, op: ComparisonOp, rest: string, at: nat)
    requires (sign, op) in {(">=", GreaterEq), ("<=", LessEq), (">", Greater), ("<", Less)}
    requires rest != "" && rest[0] != '='
    ensures Yields(sign, [Op(op)], rest, at)
  {
    assert (sign + rest)[|sign|] == rest[0];
    assert ScanOne(sign + rest) == Lexed(Op(op), |sign|);
    YieldsOne(sign, Op(op), rest, at);
  }

  lemma YieldsComparison(f: string, sign: string, op: ComparisonOp, v: string, rest: string, at: nat)
    requires FieldName(f) && PlainWord(v) && Boundary(rest)
    requires (sign, op) in {(">=", GreaterEq), ("<=", LessEq), (">", Greater), ("<", Less)}
    ensures Yields(f + sign + v, [Word(f, None), Op(op), Word(v, None)], rest, at)
  {
    hide Yields;
    var tail := v + rest;
    assert tail[0] == v[0] && !IsBreak(v[0]);
    YieldsPlain(f, sign + tail, at);
    YieldsSign(sign, op, tail, at + |f|);
    YieldsThen(f, [Word(f, None)], sign, [Op(op)], tail, at);
    YieldsPlain(v, rest, at + |f| + |sign|);
    assert [Word(f, None)] + [Op(op)] == [Word(f, None), Op(op)];
    YieldsThen(f + sign, [Word(f, None), Op(op)], v, [Word(v, None)], rest, at);
    assert [Word(f, None), Op(op)] + [Word(v, None)] == [Word(f, None), Op(op), Word(v, None)];
  }

  lemma YieldsBracket(f: string, v: string, w: string, rest: string, at: nat)
    requires FieldName(f) && PlainWord(v) && PlainWord(w)
    ensures Yields(f + ":" + "[" + v + " " + "TO" + " " + w + "]",
                   [Word(f, None), Colon, LBracket, Word(v, None), Word("TO", None), Word(w, None), RBracket], rest, at)
  {
    hide Yields;
    var r6 := "]" + rest;
    var r5 := w + r6;
    var r4 := " " + r5;
    var r3 := "TO" + r4;
    var r2 := " " + r3;
    var r1 := v + r2;
    var a0 := f + ":";
    YieldsField(f, "[" + r1, at);
    YieldsPunctuation('[', LBracket, r1, at + |a0|);
    YieldsThen(a0, [Word(f, None), Colon], "[", [LBracket], r1, at);
    var a1, l1 := a0 + "[", [Word(f, None), Colon] + [LBracket];
    YieldsPlain(v, r2, at + |a1|);
    YieldsThen(a1, l1, v, [Word(v, None)], r2, at);
    var a2, l2 := a1 + v, l1 + [Word(v, None)];
    YieldsSpace(r3, at + |a2|);
    YieldsThen(a2, l2, " ", [], r3, at);
    assert l2 + [] == l2;
    YieldsPlain("TO", r4, at + |a2| + 1);
    YieldsThen(a2 + " ", l2, "TO", [Word("TO", None)], r4, at);
    var a3, l3 := a2 + " " + "TO", l2 + [Word("TO", None)];
    YieldsSpace(r5, at + |a3|);
    YieldsThen(a3, l3, " ", [], r5, at);
    assert l3 + [] == l3;
    YieldsPlain(w, r6, at + |a3| + 1);
    YieldsThen(a3 + " ", l3, w, [Word(w, None)], r6, at);
    var a4, l4 := a3 + " " + w, l3 + [Word(w, None)];
    YieldsPunctuation(']', RBracket, rest, at + |a4|);
    YieldsThen(a4, l4, "]", [RBracket], rest, at);
    assert l4 + [RBracket] == [Word(f, None), Colon, LBracket, Word(v, None), Word("TO", None), Word(w, None), RBracket];
  }

  lemma YieldsLeaf(n: QueryNode, rest: string, at: nat)
    requires Expressible(n) && !n.Group? && !n.Not? && Boundary(rest)
    ensures Yields(PrintLeaf(n), LeafLexemes(n), rest, at)
  {
    hide Yields;
    match n
    case Term(f, v, fuzzy) =>
      if fuzzy.Some? { YieldsFuzzy(v, fuzzy.value, rest, at + |FieldPrefix(f)|); }
      else { YieldsPlain(v, rest, at + |FieldPrefix(f)|); assert v + "" == v; }
      YieldsFieldPrefix(f, v + Suffix(fuzzy), [Word(v, fuzzy)], rest, at);
    case Phrase(f, v, proximity) =>
      YieldsPhrase(v, proximity, rest, at + |FieldPrefix(f)|);
      YieldsFieldPrefix(f, Quoted(v) + Suffix(proximity), [PhraseText(v, proximity)], rest, at);
    case Wildcard(f, v) =>
      YieldsPlain(v, rest, at + |FieldPrefix(f)|);
      YieldsFieldPrefix(f, v, [Word(v, None)], rest, at);
    case Exists(f) =>
      YieldsPlain("*", rest, at + |FieldPrefix(Some(f))|);
      YieldsFieldPrefix(Some(f), "*", [Word("*", None)], rest, at);
    case Range(f, b) =>
      if b.gte.Some? && b.lte.Some? { YieldsBracket(f, b.gte.value, b.lte.value, rest, at); }
      else if b.gte.Some? { YieldsComparison(f, ">=", GreaterEq, b.gte.value, rest, at); }
      else if b.lte.Some? { YieldsComparison(f, "<=", LessEq, b.lte.value, rest, at); }
      else if b.gt.Some? { YieldsComparison(f, ">", Greater, b.gt.value, rest, at); }
      else { YieldsComparison(f, "<", Less, b.lt.value, rest, at); }
  }

  lemma YieldsKeyword(w: string, lex: Lexeme, rest: string, at: nat)
    requires (w, lex) in {("AND", AndWord), ("OR", OrWord), ("NOT", NotWord)}
    ensures Yields(w + " ", [lex], rest, at)
  {
    hide Yields;
    YieldsWord(w, lex, " " + rest, at);
    YieldsSpace(rest, at + |w|);
    YieldsThen(w, [lex], " ", [], rest, at);
    assert [lex] + [] == [lex];
  }

  lemma YieldsSeparator(op: BoolOp, adjacent: bool, rest: string, at: nat)
    ensures Yields(Separator(op, adjacent), SeparatorLexemes(op, adjacent), rest, at)
  {
    if op.OrOp? || !adjacent {
      var w, lex := if op.OrOp? then "OR" else "AND", if op.OrOp? then OrWord else AndWord;
      YieldsKeyword(w, lex, rest, at + 1);
      YieldsSpace(w + " " + rest, at);
      YieldsThen(" ", [], w + " ", [lex], rest, at);
      assert [] + [lex] == [lex];
      assert " " + (w + " ") == Separator(op, adjacent);
    } else {
      YieldsSpace(rest, at);
    }
  }

  lemma {:induction false} PrintLexes(n: QueryNode, level: Level, adjacent: bool, rest: string, at: nat)
    requires Expressible(n) && Boundary(rest)
    ensures Yields(Print(n, level, adjacent), LexemesOf(n, level, adjacent), rest, at)
    decreases n, 1
  {
    hide Yields;
    match n
    case Group(op, children) =>
      var parens := level > OpLevel(op);
      var after, start := if parens then ")" + rest else rest, if parens then at + 1 else at;
      var head := Print(children[0], OpLevel(op) + 1, adjacent);
      var tail := PrintTail(children[1..], op, adjacent);
      var headLexemes := LexemesOf(children[0], OpLevel(op) + 1, adjacent);
      var tailLexemes := TailLexemes(children[1..], op, adjacent);
      assert children[0] in children;
      assert Print(n, level, adjacent) == if parens then "(" + (head + tail) + ")" else head + tail;
      assert LexemesOf(n, level, adjacent) ==
             if parens then [LParen] + (headLexemes + tailLexemes) + [RParen] else headLexemes + tailLexemes;
      hide Print, LexemesOf, PrintTail, TailLexemes, Expressible;
      TailBoundary(children[1..], op, adjacent, after);
      PrintLexes(children[0], OpLevel(op) + 1, adjacent, tail + after, start);
      TailLexes(children[1..], op, adjacent, after, start + |head|);
      YieldsThen(head, headLexemes, tail, tailLexemes, after, start);
      if parens {
        YieldsParens(head + tail, headLexemes + tailLexemes, rest, at);
      }
    case Not(child) =>
      PrintLexes(child, 2, adjacent, rest, at + 4);
      YieldsKeyword("NOT", NotWord, Print(child, 2, adjacent) + rest, at);
      YieldsThen("NOT" + " ", [NotWord], Print(child, 2, adjacent), LexemesOf(child, 2, adjacent), rest, at);
    case _ => YieldsLeaf(n, rest, at);
  }

  lemma YieldsParens(body: string, ls: seq<Lexeme>, rest: string, at: nat)
    requires Yields(body, ls, ")" + rest, at + 1)
    ensures Yields("(" + body + ")", [LParen] + ls + [RParen], rest, at)
  {
    hide Yields;
    YieldsPunctuation('(', LParen, body + (")" + rest), at);
    YieldsThen("(", [LParen], body, ls, ")" + rest, at);
    YieldsPunctuation(')', RParen, rest, at + 1 + |body|);
    YieldsThen("(" + body, [LParen] + ls, ")", [RParen], rest, at);
  }

  lemma TailBoundary(cs: seq<QueryNode>, op: BoolOp, adjacent: bool, rest: string)
    requires Boundary(rest) && forall c | c in cs :: Expressible(c)
    ensures Boundary(PrintTail(cs, op, adjacent) + rest)
  {
  }

  lemma {:induction false} TailLexes(cs: seq<QueryNode>, op: BoolOp, adjacent: bool, rest: string, at: nat)
    requires Boundary(rest) && forall c | c in cs :: Expressible(c)
    ensures Yields(PrintTail(cs, op, adjacent), TailLexemes(cs, op, adjacent), rest, at)
    decreases cs, 0
  {
    hide Yields, Print, LexemesOf, Separator, SeparatorLexemes;
    if cs == [] {
      YieldsNothing(rest, at);
    } else {
      var next := OpLevel(op) + 1;
      var sep, head, tail := Separator(op, adjacent), Print(cs[0], next, adjacent), PrintTail(cs[1..], op, adjacent);
      TailBoundary(cs[1..], op, adjacent, rest);
      YieldsSeparator(op, adjacent, head + (tail + rest), at);
      PrintLexes(cs[0], next, adjacent, tail + rest, at + |sep|);
      TailLexes(cs[1..], op, adjacent, rest, at + |sep| + |head|);
      YieldsThree(sep, SeparatorLexemes(op, adjacent), head, LexemesOf(cs[0], next, adjacent),
                  tail, TailLexemes(cs[1..], op, adjacent), rest, at);
    }
  }

  lemma YieldsThree(a: string, la: seq<Lexeme>, b: string, lb: seq<Lexeme>, c: string, lc: seq<Lexeme>, rest: string, at: nat)
    requires Yields(a, la, b + (c + rest), at) && Yields(b, lb, c + rest, at + |a|) && Yields(c, lc, rest, at + |a| + |b|)
    ensures Yields(a + b + c, la + lb + lc, rest, at)
  {
    hide Yields;
    YieldsThen(a, la, b, lb, c + rest, at);
    YieldsThen(a + b, la + lb, c, lc, rest, at);
  }
}
