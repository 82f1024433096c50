// Parsing what was printed gives the tree back, with AND written or left out.
module SearchRoundTrip {
  import opened Wrappers
  import opened Text
  import opened SearchAst
  import opened SearchLexer
  import opened SearchParser
  import opened SearchPrinter

  ghost predicate Reads(ls: seq<Lexeme>, ts: seq<Token>) {
    |ls| <= |ts| && forall i :: 0 <= i < |ls| ==> ts[i].lex == ls[i]
  }

  // What may come after a node printed at a level without being taken for part of it.
  predicate CanFollow(level: Level, rest: seq<Token>) {
    rest != [] ==>
      var lex := rest[0].lex;
      || lex.RParen?
      || (level >= 1 && lex.OrWord?)
      || (level >= 2 && (lex.AndWord? || StartsOperand(lex)))
  }

  function ParseAt(level: Level, ts: seq<Token>, end: nat): Parse {
    if level == 0 then ParseOr(ts, end) else if level == 1 then ParseAnd(ts, end) else ParseNot(ts, end)
  }

  function More(op: BoolOp, children: seq<QueryNode>, ts: seq<Token>, end: nat): Parse
    requires children != []
  {
    if op.OrOp? then MoreOr(children, ts, end) else MoreAnd(children, ts, end)
  }

  // A node read at one level is read at every looser level it may end at.
  lemma Loosen(n: QueryNode, from: Level, to: Level, ts: seq<Token>, rest: seq<Token>, end: nat)
    requires to <= from && ParseAt(from, ts, end) == Parsed(n, rest) && CanFollow(to, rest)
    ensures ParseAt(to, ts, end) == Parsed(n, rest)
  {
    if from == 2 && to <= 1 {
      assert MoreAnd([n], rest, end) == Parsed(n, rest);
      assert ParseAnd(ts, end) == Parsed(n, rest);
    }
    if to == 0 && from >= 1 {
      assert MoreOr([n], rest, end) == Parsed(n, rest);
    }
  }

  lemma ParseComparisonLeaf(n: QueryNode, ts: seq<Token>, end: nat)
    requires Expressible(n) && n.Range? && !(n.bounds.gte.Some? && n.bounds.lte.Some?)
    requires Reads(LeafLexemes(n), ts)
    ensures ParsePrimary(ts, end) == Parsed(n, ts[3..])
  {
    var ls := LeafLexemes(n);
    assert |ls| == 3 && ts[0].lex == ls[0] && ts[1].lex == ls[1] && ts[2].lex == ls[2];
    assert ts[2..][1..] == ts[3..];
    assert ParsePrimary(ts, end) == ParseComparison(n.rangeField, ls[1].op, ts[2..], end);
  }

  lemma ParseBracketLeaf(n: QueryNode, ts: seq<Token>, end: nat)
    requires Expressible(n) && n.Range? && n.bounds.gte.Some? && n.bounds.lte.Some?
    requires Reads(LeafLexemes(n), ts)
    ensures ParsePrimary(ts, end) == Parsed(n, ts[7..])
  {
    var ls := LeafLexemes(n);
    var inner := ts[3..];
    assert |ls| == 7 && ts[0].lex == ls[0] && ts[1].lex == ls[1] && ts[2].lex == ls[2];
    assert inner[0].lex == ls[3] && inner[1].lex == ls[4] && inner[2].lex == ls[5] && inner[3].lex == ls[6];
    assert ts[2..][1..] == inner && inner[4..] == ts[7..];
    assert ParsePrimary(ts, end) == ParseFieldValue(n.rangeField, ts[2..], end);
    assert ParsePrimary(ts, end) == ParseBracketRange(n.rangeField, ts[2].pos, inner, end);
  }

  // field:value
  lemma ParseFieldedLeaf(f: string, value: Lexeme, ts: seq<Token>, end: nat)
    requires FieldName(f) && Reads([Word(f, None), Colon, value], ts)
    requires value.Word? || value.PhraseText?
    ensures ParsePrimary(ts, end) ==
            Parsed(if value.PhraseText? then Phrase(Some(f), value.phrase, value.proximity)
                   else if value == Word("*", None) then Exists(f)
                   else WordNode(value.word, value.fuzzy, Some(f)), ts[3..])
  {
    var ls := [Word(f, None), Colon, value];
    assert ts[0].lex == ls[0] && ts[1].lex == ls[1] && ts[2].lex == ls[2];
    assert ts[2..][1..] == ts[3..];
    assert ParsePrimary(ts, end) == ParseFieldValue(f, ts[2..], end);
  }

  lemma ParseBareLeaf(value: Lexeme, ts: seq<Token>, end: nat)
    requires Reads([value], ts) && CanFollow(2, ts[1..])
    requires value.Word? || value.PhraseText?
    ensures ParsePrimary(ts, end) ==
            Parsed(if value.PhraseText? then Phrase(None, value.phrase, value.proximity)
                   else WordNode(value.word, value.fuzzy, None), ts[1..])
  {
    assert ts[0].lex == [value][0];
    assert |ts| > 1 ==> ts[1] == ts[1..][0];
  }

  lemma ParseWordLeaf(n: QueryNode, ts: seq<Token>, end: nat)
    requires Expressible(n) && (n.Term? || n.Phrase? || n.Wildcard? || n.Exists?)
    requires Reads(LeafLexemes(n), ts) && CanFollow(2, ts[|LeafLexemes(n)|..])
    ensures ParsePrimary(ts, end) == Parsed(n, ts[|LeafLexemes(n)|..])
  {
    hide ParsePrimary;
    var value := if n.Exists? then Word("*", None) else if n.Phrase? then PhraseText(n.value, n.proximity)
                 else Word(n.value, if n.Term? then n.fuzzy else None);
    var field := if n.Exists? then Some(n.existsField) else n.field;
    assert LeafLexemes(n) == FieldLexemes(field) + [value];
    if field.Some? {
      assert FieldLexemes(field) + [value] == [Word(field.value, None), Colon, value];
      ParseFieldedLeaf(field.value, value, ts, end);
      assert n.Term? && n.fuzzy.None? ==> n.value != "*" by {
        if n.Term? && n.value == "*" { assert '*' in n.value; }
      }
    } else {
      assert FieldLexemes(field) + [value] == [value];
      ParseBareLeaf(value, ts, end);
    }
  }

  lemma ParseLeaf(n: QueryNode, ts: seq<Token>, end: nat)
    requires Expressible(n) && !n.Group? && !n.Not?
    requires Reads(LeafLexemes(n), ts) && CanFollow(2, ts[|LeafLexemes(n)|..])
    ensures ParseNot(ts, end) == Parsed(n, ts[|LeafLexemes(n)|..])
  {
    hide ParsePrimary;
    var ls := LeafLexemes(n);
    assert ts[0].lex == ls[0] && !ls[0].NotWord?;
    if n.Range? {
      if n.bounds.gte.Some? && n.bounds.lte.Some? { ParseBracketLeaf(n, ts, end); } else { ParseComparisonLeaf(n, ts, end); }
    } else {
      ParseWordLeaf(n, ts, end);
    }
  }

  lemma FirstLexeme(n: QueryNode, adjacent: bool)
    requires Expressible(n)
    ensures LexemesOf(n, 2, adjacent) != [] && StartsOperand(LexemesOf(n, 2, adjacent)[0])
  {
  }

  // After one operand of a group comes its separator, the next operand, or what follows the group.
  lemma TailFollows(cs: seq<QueryNode>, op: BoolOp, adjacent: bool, ts: seq<Token>)
    requires forall c | c in cs :: Expressible(c)
    requires Reads(TailLexemes(cs, op, adjacent), ts)
    requires CanFollow(OpLevel(op), ts[|TailLexemes(cs, op, adjacent)|..])
    ensures CanFollow(OpLevel(op) + 1, ts)
  {
    var ls := TailLexemes(cs, op, adjacent);
    if cs == [] {
      assert ts[0..] == ts;
    } else {
      if op.AndOp? {
        FirstLexeme(cs[0], adjacent);
      }
      assert ts[0].lex == ls[0];
    }
  }

  // The tokens are those of the further operands, and after them nothing that would continue the group.
  ghost predicate AtTail(op: BoolOp, cs: seq<QueryNode>, adjacent: bool, ts: seq<Token>) {
    && (forall c | c in cs :: Expressible(c))
    && Reads(TailLexemes(cs, op, adjacent), ts) && CanFollow(OpLevel(op), ts[|TailLexemes(cs, op, adjacent)|..])
  }

  ghost function AfterTail(op: BoolOp, cs: seq<QueryNode>, adjacent: bool, ts: seq<Token>): seq<Token>
    requires AtTail(op, cs, adjacent, ts)
  {
    ts[|TailLexemes(cs, op, adjacent)|..]
  }

  // One separator and the operand after it.
  lemma {:induction false} PartReads(op: BoolOp, done: seq<QueryNode>, cs: seq<QueryNode>, adjacent: bool, ts: seq<Token>, end: nat)
      returns (next: seq<Token>)
    requires done != [] && cs != [] && AtTail(op, cs, adjacent, ts)
    ensures AtTail(op, cs[1..], adjacent, next) && AfterTail(op, cs[1..], adjacent, next) == AfterTail(op, cs, adjacent, ts)
    ensures More(op, done, ts, end) == More(op, done + [cs[0]], next, end)
    decreases cs, 0
  {
    assert cs[0] in cs && forall c :: c in cs[1..] ==> c in cs;
    hide ParseAt, More, LexemesOf, SeparatorLexemes, Expressible, Reads, CanFollow;
    var level := OpLevel(op) + 1;
    var sep, head, tail := SeparatorLexemes(op, adjacent), LexemesOf(cs[0], level, adjacent), TailLexemes(cs[1..], op, adjacent);
    assert TailLexemes(cs, op, adjacent) == sep + head + tail;
    hide TailLexemes;
    ReadsLength(sep + head + tail, ts);
    next := ts[|sep| + |head|..];
    ReadsParts(sep, head, tail, ts);
    assert next[|tail|..] == ts[|sep + head + tail|..];
    TailFollows(cs[1..], op, adjacent, next);
    ParseNode(cs[0], level, adjacent, ts[|sep|..], end);
    StepMore(op, done, cs[0], adjacent, ts, next, end);
  }

  lemma {:induction false} MoreReads(op: BoolOp, done: seq<QueryNode>, cs: seq<QueryNode>, adjacent: bool, ts: seq<Token>, end: nat)
    requires done != [] && AtTail(op, cs, adjacent, ts)
    ensures More(op, done, ts, end) == More(op, done + cs, AfterTail(op, cs, adjacent, ts), end)
    decreases cs, 1
  {
    hide *;
    if cs == [] {
      NoTail(op, cs, adjacent, ts);
      assert done + cs == done;
    } else {
      var next := PartReads(op, done, cs, adjacent, ts, end);
      MoreReads(op, done + [cs[0]], cs[1..], adjacent, next, end);
      assert done + [cs[0]] + cs[1..] == done + cs;
    }
  }

  lemma NoTail(op: BoolOp, cs: seq<QueryNode>, adjacent: bool, ts: seq<Token>)
    requires cs == [] && AtTail(op, cs, adjacent, ts)
    ensures AfterTail(op, cs, adjacent, ts) == ts
  {
    assert TailLexemes(cs, op, adjacent) == [] && ts[0..] == ts;
  }

  lemma ReadsLength(ls: seq<Lexeme>, ts: seq<Token>)
    requires Reads(ls, ts)
    ensures |ls| <= |ts|
  {
  }

  lemma ReadsParts(a: seq<Lexeme>, b: seq<Lexeme>, c: seq<Lexeme>, ts: seq<Token>)
    requires Reads(a + b + c, ts)
    ensures Reads(a, ts) && Reads(a + b, ts) && Reads(b, ts[|a|..]) && Reads(c, ts[|a| + |b|..])
    ensures ts[|a|..][|b|..] == ts[|a| + |b|..]
  {
    var all := a + b + c;
    assert forall i :: 0 <= i < |b| ==> ts[|a|..][i].lex == all[|a| + i];
    var tail := ts[|a| + |b|..];
    assert forall i :: 0 <= i < |c| ==> tail[i].lex == all[|a| + |b| + i];
    assert forall i :: 0 <= i < |a + b| ==> (a + b)[i] == all[i];
  }

  lemma StepMore(op: BoolOp, done: seq<QueryNode>, c: QueryNode, adjacent: bool, ts: seq<Token>, after: seq<Token>, end: nat)
    requires done != [] && Expressible(c)
    requires Reads(SeparatorLexemes(op, adjacent) + LexemesOf(c, OpLevel(op) + 1, adjacent), ts)
    requires ParseAt(OpLevel(op) + 1, ts[|SeparatorLexemes(op, adjacent)|..], end) == Parsed(c, after)
    ensures More(op, done, ts, end) == More(op, done + [c], after, end)
  {
    var sep := SeparatorLexemes(op, adjacent);
    var ls := sep + LexemesOf(c, OpLevel(op) + 1, adjacent);
    if sep == [] {
      FirstLexeme(c, adjacent);
      assert ts[0].lex == ls[0] && ts[0..] == ts;
    } else {
      assert ts[0].lex == ls[0] == sep[0];
    }
  }

  lemma GroupEnds(op: BoolOp, children: seq<QueryNode>, rest: seq<Token>, end: nat)
    requires |children| >= 2 && CanFollow(OpLevel(op), rest)
    ensures More(op, children, rest, end) == Parsed(Group(op, children), rest)
  {
  }

  lemma FirstOperand(op: BoolOp, c: QueryNode, ts: seq<Token>, after: seq<Token>, end: nat)
    requires ParseAt(OpLevel(op) + 1, ts, end) == Parsed(c, after)
    ensures ParseAt(OpLevel(op), ts, end) == More(op, [c], after, end)
  {
  }

  function BodyLexemes(n: QueryNode, adjacent: bool): seq<Lexeme>
    requires Expressible(n) && n.Group?
  {
    LexemesOf(n.children[0], OpLevel(n.op) + 1, adjacent) + TailLexemes(n.children[1..], n.op, adjacent)
  }

  // The first operand's tokens, and then those of the others.
  lemma BodySplits(n: QueryNode, adjacent: bool, ts: seq<Token>)
    requires Expressible(n) && n.Group?
    requires Reads(BodyLexemes(n, adjacent), ts) && CanFollow(OpLevel(n.op), ts[|BodyLexemes(n, adjacent)|..])
    ensures |n.children| >= 2 && Expressible(n.children[0])
    ensures var head := LexemesOf(n.children[0], OpLevel(n.op) + 1, adjacent);
            && Reads(head, ts) && CanFollow(OpLevel(n.op) + 1, ts[|head|..]) && AtTail(n.op, n.children[1..], adjacent, ts[|head|..])
            && AfterTail(n.op, n.children[1..], adjacent, ts[|head|..]) == ts[|BodyLexemes(n, adjacent)|..]
  {
    var op, children := n.op, n.children;
    assert children[0] in children && forall c :: c in children[1..] ==> c in children;
    hide CanFollow, Expressible, LexemesOf, TailLexemes;
    var head, tail := LexemesOf(children[0], OpLevel(op) + 1, adjacent), TailLexemes(children[1..], op, adjacent);
    assert [] + head + tail == head + tail && [] + head == head;
    ReadsParts([], head, tail, ts);
    assert ts[|head|..][|tail|..] == ts[|head + tail|..];
    TailFollows(children[1..], op, adjacent, ts[|head|..]);
  }

  lemma {:induction false} ParseBody(n: QueryNode, adjacent: bool, ts: seq<Token>, end: nat)
    requires Expressible(n) && n.Group?
    requires Reads(BodyLexemes(n, adjacent), ts) && CanFollow(OpLevel(n.op), ts[|BodyLexemes(n, adjacent)|..])
    ensures ParseAt(OpLevel(n.op), ts, end) == Parsed(n, ts[|BodyLexemes(n, adjacent)|..])
    decreases n, 0, 0
  {
    BodySplits(n, adjacent, ts);
    hide *;
    var op, children := n.op, n.children;
    var after := ts[|LexemesOf(children[0], OpLevel(op) + 1, adjacent)|..];
    ParseNode(children[0], OpLevel(op) + 1, adjacent, ts, end);
    FirstOperand(op, children[0], ts, after, end);
    MoreReads(op, [children[0]], children[1..], adjacent, after, end);
    assert [children[0]] + children[1..] == children;
    GroupEnds(op, children, ts[|BodyLexemes(n, adjacent)|..], end);
  }

  lemma ParseParens(n: QueryNode, body: seq<Lexeme>, ts: seq<Token>, end: nat)
    requires Reads([LParen] + body + [RParen], ts)
    requires ParseOr(ts[1..], end) == Parsed(n, ts[1 + |body|..])
    ensures ParseNot(ts, end) == Parsed(n, ts[|body| + 2..])
  {
    var ls := [LParen] + body + [RParen];
    var close := ts[1 + |body|..];
    assert ts[0].lex == ls[0] && close[0].lex == ls[1 + |body|];
    assert close[1..] == ts[|body| + 2..];
  }

  lemma {:induction false} ParseGroup(n: QueryNode, adjacent: bool, ts: seq<Token>, end: nat)
    requires Expressible(n) && n.Group?
    requires Reads([LParen] + BodyLexemes(n, adjacent) + [RParen], ts)
    ensures ParseNot(ts, end) == Parsed(n, ts[|BodyLexemes(n, adjacent)| + 2..])
    decreases n, 0, 1
  {
    hide ParseOr, ParseAnd, ParseNot, LexemesOf;
    var body := BodyLexemes(n, adjacent);
    var ls := [LParen] + body + [RParen];
    var inner := ts[1..];
    var close := inner[|body|..];
    assert forall i :: 0 <= i < |body| ==> inner[i].lex == ls[1 + i];
    assert close == ts[1 + |body|..] && close[0].lex == ls[1 + |body|] == RParen;
    ParseBody(n, adjacent, inner, end);
    Loosen(n, OpLevel(n.op), 0, inner, close, end);
    ParseParens(n, body, ts, end);
  }

  lemma {:induction false} ParseNode(n: QueryNode, level: Level, adjacent: bool, ts: seq<Token>, end: nat)
    requires Expressible(n)
    requires Reads(LexemesOf(n, level, adjacent), ts) && CanFollow(level, ts[|LexemesOf(n, level, adjacent)|..])
    ensures ParseAt(level, ts, end) == Parsed(n, ts[|LexemesOf(n, level, adjacent)|..])
    decreases n, 2
  {
    hide ParseAt;
    var ls := LexemesOf(n, level, adjacent);
    var rest := ts[|ls|..];
    if n.Group? && level <= OpLevel(n.op) {
      ParseBody(n, adjacent, ts, end);
      Loosen(n, OpLevel(n.op), level, ts, rest, end);
    } else {
      FollowsNot(level, rest);
      ParseOperand(n, level, adjacent, ts, end);
      Loosen(n, 2, level, ts, rest, end);
    }
  }

  lemma AfterNot(inner: seq<Lexeme>, ts: seq<Token>)
    requires Reads([NotWord] + inner, ts)
    ensures ts[0].lex.NotWord? && Reads(inner, ts[1..]) && ts[1..][|inner|..] == ts[|[NotWord] + inner|..]
  {
    var ls := [NotWord] + inner;
    assert ts[0].lex == ls[0];
    assert forall i :: 0 <= i < |inner| ==> ts[1..][i].lex == ls[1 + i];
  }

  lemma NotReads(child: QueryNode, inner: seq<Lexeme>, ts: seq<Token>, end: nat)
    requires ts != [] && ts[0].lex.NotWord? && |inner| < |ts|
    requires ParseAt(2, ts[1..], end) == Parsed(child, ts[1..][|inner|..])
    ensures ParseAt(2, ts, end) == Parsed(Not(child), ts[1..][|inner|..])
  {
    hide ParsePrimary, ParseOr, ParseAnd;
  }

  // A node printed as one operand: in parentheses, negated or a leaf.
  lemma {:induction false} ParseOperand(n: QueryNode, level: Level, adjacent: bool, ts: seq<Token>, end: nat)
    requires Expressible(n) && (n.Group? ==> level > OpLevel(n.op))
    requires Reads(LexemesOf(n, level, adjacent), ts) && CanFollow(2, ts[|LexemesOf(n, level, adjacent)|..])
    ensures ParseAt(2, ts, end) == Parsed(n, ts[|LexemesOf(n, level, adjacent)|..])
    decreases n, 1
  {
    hide ParsePrimary, ParseOr, ParseAnd;
    if n.Group? {
      hide ParseNot, CanFollow;
      ParseGroup(n, adjacent, ts, end);
    } else if n.Not? {
      var inner := LexemesOf(n.child, 2, adjacent);
      assert LexemesOf(n, level, adjacent) == [NotWord] + inner;
      hide LexemesOf, CanFollow, Expressible, ParseAt;
      AfterNot(inner, ts);
      ParseNode(n.child, 2, adjacent, ts[1..], end);
      NotReads(n.child, inner, ts, end);
    } else {
      hide ParseNot, CanFollow;
      ParseLeaf(n, ts, end);
    }
  }

  lemma FollowsNot(level: Level, rest: seq<Token>)
    requires CanFollow(level, rest)
    ensures CanFollow(2, rest)
  {
  }

  // ----- the round trip, character by character -----

  lemma ParsePrinted(n: QueryNode, adjacent: bool)
    requires Expressible(n)
    ensures ParseText(Print(n, 0, adjacent)) == Ok(n)
  {
    var text := Print(n, 0, adjacent);
    PrintLexes(n, 0, adjacent, "", 0);
    assert text + "" == text;
    var ts := Tokens(text, 0).value;
    assert LexemesOf(n, 0, adjacent) + Lexemes([]) == LexemesOf(n, 0, adjacent);
    assert ts[|ts|..] == [];
    ParseNode(n, 0, adjacent, ts, |text|);
  }

  // Leaving AND out changes nothing.
  lemma AdjacencyIsAnd(n: QueryNode)
    requires Expressible(n)
    ensures ParseText(Print(n, 0, true)) == ParseText(Print(n, 0, false)) == Ok(n)
  {
    ParsePrinted(n, true);
    ParsePrinted(n, false);
  }

  // A blank query is the one that matches everything.
  lemma {:induction false} BlankMatchesAll(spaces: string)
    requires forall i :: 0 <= i < |spaces| ==> IsSpace(spaces[i])
    ensures ParseText(spaces) == Ok(MatchAll)
  {
    BlankTokens(spaces, 0);
  }

  lemma {:induction false} BlankTokens(spaces: string, at: nat)
    requires forall i :: 0 <= i < |spaces| ==> IsSpace(spaces[i])
    ensures Tokens(spaces, at) == Ok([])
  {
    if spaces != "" {
      BlankTokens(spaces[1..], at + 1);
    }
  }

  // ----- what texts parse to -----

  predicate LexOk(lex: Lexeme) {
    lex.Word? ==> if lex.fuzzy.Some? then WordChars(lex.word) else PlainWord(lex.word)
  }

  predicate LexesOk(ts: seq<Token>) {
    forall t | t in ts :: LexOk(t.lex)
  }

  lemma {:induction false} WordEndRead(s: string, k: nat)
    requires k <= |s|
    ensures forall j :: k <= j < WordEnd(s, k) ==> !IsSpace(s[j]) && (IsBreak(s[j]) ==> s[j] == ':' && EndsInTime(s[..j]))
    decreases |s| - k
  {
    if k < |s| && ((s[k] == ':' && EndsInTime(s[..k])) || !(IsSpace(s[k]) || IsBreak(s[k]))) { WordEndRead(s, k + 1); }
  }

  lemma ClassifiedOk(w: string)
    requires w != "" && forall k :: 0 <= k < |w| ==> !IsSpace(w[k]) && (IsBreak(w[k]) ==> w[k] == ':' && EndsInTime(w[..k]))
    ensures ClassifyWord(w).Some? ==> LexOk(ClassifyWord(w).value)
  {
    var t := LastTilde(w);
    if t > 0 && '~' !in w[..t] {
      assert forall k :: 0 <= k < t ==> w[..t][k] == w[k] && w[..t][..k] == w[..k];
      assert forall k :: 0 <= k < t ==> w[..t][k] in w[..t];
    }
  }

  lemma ScannedOk(s: string)
    requires s != [] && !IsSpace(s[0])
    ensures ScanOne(s).Lexed? ==> LexOk(ScanOne(s).lex)
  {
    var w := s[..WordEnd(s, 0)];
    if !IsBreak(s[0]) {
      WordEndRead(s, 0);
      assert s[..0] == [];
      assert w != "";
      forall k | 0 <= k < |w|
        ensures w[k] == s[k] && w[..k] == s[..k]
      {
      }
      ClassifiedOk(w);
    }
  }

  lemma {:induction false} TokensOk(s: string, at: nat)
    ensures Tokens(s, at).Ok? ==> LexesOk(Tokens(s, at).value)
    decreases |s|
  {
    if s != [] {
      if IsSpace(s[0]) {
        TokensOk(s[1..], at + 1);
      } else {
        ScannedOk(s);
        hide LexOk;
        var one := ScanOne(s);
        if one.Lexed? { TokensOk(s[one.length..], at + one.length); }
      }
    }
  }

  // A field name is a word in lower case; one with a time in it has lost the capital T.
  ghost predicate ReadField(f: string) {
    exists w :: WordChars(w) && Lower(w) == f
  }

  ghost predicate ReadOptional(f: Option<string>) {
    f.Some? ==> ReadField(f.value)
  }

  predicate ReadBounds(b: Bounds<string>) {
    match b
    case Bounds(Some(v), None, None, None) => WordChars(v)
    case Bounds(None, Some(v), None, None) => WordChars(v)
    case Bounds(None, None, Some(v), None) => WordChars(v)
    case Bounds(None, None, None, Some(v)) => WordChars(v)
    case Bounds(Some(v), Some(w), None, None) => WordChars(v) && WordChars(w) && v != "*" && w != "*"
    case _ => false
  }

  // The trees of accepted texts.
  ghost predicate Readable(n: QueryNode) {
    match n
    case Group(_, children) => |children| >= 2 && forall c | c in children :: Readable(c)
    case Not(child) => Readable(child)
    case Term(f, v, None) => ReadOptional(f) && PlainWord(v) && !HasWildcard(v)
    case Term(f, v, Some(_)) => ReadOptional(f) && WordChars(v)
    case Phrase(f, _, _) => ReadOptional(f)
    case Wildcard(f, v) => ReadOptional(f) && PlainWord(v) && HasWildcard(v)
    case Range(f, b) => ReadField(f) && ReadBounds(b)
    case Exists(f) => ReadField(f)
    case MatchAll => false
  }

  // Of those the printer leaves out, by leaf: a field name with a time in it, a keyword as range value,
  // and `field=*`.
  predicate Prints(n: QueryNode) {
    match n
    case Group(_, children) => forall c | c in children :: Prints(c)
    case Not(child) => Prints(child)
    case Term(f, _, _) => OptionalField(f)
    case Phrase(f, _, _) => OptionalField(f)
    case Wildcard(f, v) => OptionalField(f) && (f.Some? ==> v != "*")
    case Range(f, b) => FieldName(f) && WritableBounds(b)
    case Exists(f) => FieldName(f)
    case MatchAll => true
  }

  lemma FieldRead(f: string)
    requires FieldName(f)
    ensures ReadField(f)
  {
  }

  lemma {:induction false} ExpressibleExactly(n: QueryNode)
    ensures Expressible(n) <==> Readable(n) && Prints(n)
    decreases n
  {
    forall f | FieldName(f)
      ensures ReadField(f)
    {
      FieldRead(f);
    }
    match n
    case Group(_, children) =>
      forall c | c in children
        ensures Expressible(c) <==> Readable(c) && Prints(c)
      {
        ExpressibleExactly(c);
      }
    case Not(child) => ExpressibleExactly(child);
    case _ => hide FieldName, ReadField;
  }

  ghost predicate GivesReadable(p: Parse) {
    p.Parsed? ==> Readable(p.node) && LexesOk(p.rest)
  }

  ghost predicate AllReadable(ns: seq<QueryNode>) {
    forall n | n in ns :: Readable(n)
  }

  lemma WordReadable(value: string, fuzzy: Option<nat>, field: Option<string>)
    requires LexOk(Word(value, fuzzy)) && ReadOptional(field)
    ensures Readable(WordNode(value, fuzzy, field))
  {
  }

  lemma BracketReadable(field: string, open: nat, ts: seq<Token>, end: nat)
    requires LexesOk(ts) && ReadField(field)
    ensures GivesReadable(ParseBracketRange(field, open, ts, end))
  {
    if |ts| >= 4 {
      assert ts[0] in ts && ts[2] in ts;
      hide ReadField, WordChars;
    }
  }

  lemma ComparisonReadable(field: string, op: ComparisonOp, ts: seq<Token>, end: nat)
    requires LexesOk(ts) && ReadField(field)
    ensures GivesReadable(ParseComparison(field, op, ts, end))
  {
    if ts != [] && ts[0].lex.Word? {
      assert ts[0] in ts;
      WordReadable(ts[0].lex.word, ts[0].lex.fuzzy, Some(field));
      hide ReadField, WordChars;
    }
  }

  lemma FieldValueReadable(field: string, ts: seq<Token>, end: nat)
    requires LexesOk(ts) && ReadField(field)
    ensures GivesReadable(ParseFieldValue(field, ts, end))
  {
    if ts != [] {
      BracketReadable(field, ts[0].pos, ts[1..], end);
      assert ts[0] in ts;
      if ts[0].lex.Word? { WordReadable(ts[0].lex.word, ts[0].lex.fuzzy, Some(field)); }
      hide ReadField, ParseBracketRange, WordNode, LexOk;
    }
  }

  lemma WordStartReadable(ts: seq<Token>, end: nat)
    requires LexesOk(ts) && ts != [] && ts[0].lex.Word?
    ensures GivesReadable(ParsePrimary(ts, end))
  {
    var value := ts[0].lex.word;
    assert ts[0] in ts;
    assert ReadField(Lower(value)) by { assert WordChars(value); }
    WordReadable(value, ts[0].lex.fuzzy, None);
    hide ReadField, ParseFieldValue, ParseComparison, WordNode, LexOk;
    if |ts| > 1 {
      FieldValueReadable(Lower(value), ts[2..], end);
      if ts[1].lex.Op? { ComparisonReadable(Lower(value), ts[1].lex.op, ts[2..], end); }
    }
  }

  lemma CollapseReadable(op: BoolOp, ns: seq<QueryNode>)
    requires ns != [] && AllReadable(ns)
    ensures Readable(Collapse(op, ns))
  {
    assert ns[0] in ns;
  }

  lemma {:induction false} OrReadable(ts: seq<Token>, end: nat)
    requires LexesOk(ts)
    ensures GivesReadable(ParseOr(ts, end))
    decreases |ts|, 5
  {
    AndReadable(ts, end);
    hide Readable, LexesOk;
    var first := ParseAnd(ts, end);
    if first.Parsed? { MoreOrReadable([first.node], first.rest, end); }
  }

  lemma {:induction false} MoreOrReadable(ns: seq<QueryNode>, ts: seq<Token>, end: nat)
    requires ns != [] && AllReadable(ns) && LexesOk(ts)
    ensures GivesReadable(MoreOr(ns, ts, end))
    decreases |ts|, 4
  {
    CollapseReadable(OrOp, ns);
    if ts != [] && ts[0].lex.OrWord? {
      AndReadable(ts[1..], end);
      hide Readable, LexOk;
      var next := ParseAnd(ts[1..], end);
      if next.Parsed? { MoreOrReadable(ns + [next.node], next.rest, end); }
    }
  }

  lemma {:induction false} AndReadable(ts: seq<Token>, end: nat)
    requires LexesOk(ts)
    ensures GivesReadable(ParseAnd(ts, end))
    decreases |ts|, 3
  {
    NotReadable(ts, end);
    hide Readable, LexesOk;
    var first := ParseNot(ts, end);
    if first.Parsed? { MoreAndReadable([first.node], first.rest, end); }
  }

  lemma {:induction false} MoreAndReadable(ns: seq<QueryNode>, ts: seq<Token>, end: nat)
    requires ns != [] && AllReadable(ns) && LexesOk(ts)
    ensures GivesReadable(MoreAnd(ns, ts, end))
    decreases |ts|, 2
  {
    CollapseReadable(AndOp, ns);
    if ts != [] && (ts[0].lex.AndWord? || StartsOperand(ts[0].lex)) {
      var operand := if ts[0].lex.AndWord? then ts[1..] else ts;
      NotReadable(operand, end);
      hide Readable, LexOk;
      var next := ParseNot(operand, end);
      if next.Parsed? { MoreAndReadable(ns + [next.node], next.rest, end); }
    }
  }

  lemma {:induction false} NotReadable(ts: seq<Token>, end: nat)
    requires LexesOk(ts)
    ensures GivesReadable(ParseNot(ts, end))
    decreases |ts|, 1
  {
    if ts != [] {
      if ts[0].lex.NotWord? { NotReadable(ts[1..], end); }
      if ts[0].lex.LParen? { OrReadable(ts[1..], end); }
      if ts[0].lex.Word? { WordStartReadable(ts, end); }
    }
  }

  // Every accepted text is blank or gives a readable tree; so whatever it was, unless it is one of the
  // forms the printer leaves out, printing its tree and parsing again gives the tree back.
  lemma AcceptedTextIsReadable(input: string)
    requires ParseText(input).Ok?
    ensures var n := ParseText(input).value;
            && (n == MatchAll || Readable(n))
            && (n != MatchAll && Prints(n) ==> Expressible(n) && ParseText(Print(n, 0, false)) == Ok(n))
  {
    var n := ParseText(input).value;
    TokensOk(input, 0);
    OrReadable(Tokens(input, 0).value, |input|);
    ExpressibleExactly(n);
    if Expressible(n) { ParsePrinted(n, false); }
  }

  lemma {:induction false} ReadableWide(n: QueryNode)
    requires Readable(n)
    ensures WideGroups(n)
    decreases n
  {
    match n
    case Group(_, children) =>
      forall c | c in children
        ensures WideGroups(c)
      {
        ReadableWide(c);
      }
    case Not(child) => ReadableWide(child);
    case _ =>
  }

  lemma ParseTextWide(input: string)
    ensures ParseText(input).Ok? ==> WideGroups(ParseText(input).value)
  {
    if ParseText(input).Ok? {
      AcceptedTextIsReadable(input);
      if ParseText(input).value != MatchAll { ReadableWide(ParseText(input).value); }
    }
  }
}
