// The sentences of the advanced language, what each one says, and that
// packages/search/src/advanced.ts reads every one of them that way.
module SearchSentences {
  import opened Wrappers
  import opened Text
  import opened SearchFields
  import opened SearchAst
  import opened SearchLexer
  import opened SearchAdvanced
  import opened SearchDocument
  import opened SearchValidate
  import opened SearchPipeline
  import opened SearchCompile
  import opened SearchMeaning
  import SearchCorrectness
  import SearchPrinter

  // ----- sentences -----

  datatype Value = Bare(word: string) | Quoted(text: string, proximity: Option<nat>)

  datatype Quantifier = AnyOf | AllOf | NoneOf | NotAllOf | NotAnyOf

  datatype Test =
    | Has(value: Value)
    | HasNot(value: Value)
    | HasList(quantifier: Quantifier, values: seq<Value>)
    | Compare(op: ComparisonOp, value: Value)
    | Present
    | Absent

  datatype Sentence =
    | Condition(param: string, test: Test)
    | Joined(op: BoolOp, parts: seq<Sentence>)
    | Negation(part: Sentence)

  predicate BareWord(w: string) {
    w != "" && forall k :: 0 <= k < |w| ==> !IsSpace(w[k]) && !IsABreak(w[k])
  }

  predicate ValueOk(v: Value) {
    v.Bare? ==> BareWord(v.word)
  }

  // The operators each family of fields takes.
  predicate TestFits(family: Family, t: Test) {
    match t
    case Has(v) => ValueOk(v) && family != CompareFamily && (family == IsFamily && v.Bare? ==> Lower(v.word) != "not")
    case HasNot(v) => ValueOk(v) && family != CompareFamily
    case HasList(q, vs) =>
      && vs != [] && (forall v | v in vs :: ValueOk(v)) && family != CompareFamily
      && (q.NotAllOf? ==> family == IsFamily) && (q.NotAnyOf? ==> family == ContainsFamily)
    case Compare(_, v) => ValueOk(v) && family == CompareFamily
    case _ => true
  }

  predicate WellFormed(defs: Registry, s: Sentence) {
    match s
    case Condition(param, t) =>
      && BareWord(param) && !IsKeywordWord(param) && ResolveParameter(defs, param).Some?
      && TestFits(OperatorFamily(ResolveParameter(defs, param).value.fieldType), t)
    case Joined(_, parts) => |parts| >= 2 && forall p | p in parts :: WellFormed(defs, p)
    case Negation(part) => WellFormed(defs, part)
  }

  // ----- what a sentence says of a document -----

  function ValueLexeme(v: Value): (lex: ALexeme)
    ensures lex.AWord? || lex.APhrase?
  {
    match v case Bare(w) => AWord(w) case Quoted(t, p) => APhrase(t, p)
  }

  ghost predicate SaysValue(e: Engine, r: Rules, field: string, v: Value, d: EvidenceDoc) {
    Written(e, r, ValueNode(field, ValueLexeme(v)), d)
  }

  ghost predicate SaysTest(e: Engine, r: Rules, field: string, t: Test, d: EvidenceDoc) {
    match t
    case Has(v) => SaysValue(e, r, field, v, d)
    case HasNot(v) => !SaysValue(e, r, field, v, d)
    case HasList(AnyOf, vs) => exists v | v in vs :: SaysValue(e, r, field, v, d)
    case HasList(AllOf, vs) => forall v | v in vs :: SaysValue(e, r, field, v, d)
    case HasList(NoneOf, vs) => forall v | v in vs :: !SaysValue(e, r, field, v, d)
    case HasList(NotAllOf, vs) => exists v | v in vs :: !SaysValue(e, r, field, v, d)
    case HasList(NotAnyOf, vs) => forall v | v in vs :: !SaysValue(e, r, field, v, d)
    case Compare(op, v) => Written(e, r, AComparisonNode(field, op, ValueLexeme(v)), d)
    case Present => Written(e, r, Exists(field), d)
    case Absent => !Written(e, r, Exists(field), d)
  }

  ghost predicate Says(e: Engine, r: Rules, s: Sentence, d: EvidenceDoc)
    requires WellFormed(r.defs, s)
    decreases s
  {
    match s
    case Condition(param, t) => SaysTest(e, r, ResolveParameter(r.defs, param).value.name, t, d)
    case Joined(AndOp, parts) => forall p | p in parts :: Says(e, r, p, d)
    case Joined(OrOp, parts) => exists p | p in parts :: Says(e, r, p, d)
    case Negation(part) => !Says(e, r, part, d)
  }

  // ----- the tree a sentence stands for -----

  function ValueNodes(field: string, vs: seq<Value>): (ns: seq<QueryNode>)
    ensures |ns| == |vs|
  {
    seq(|vs|, i requires 0 <= i < |vs| => ValueNode(field, ValueLexeme(vs[i])))
  }

  function TestNode(field: string, t: Test): QueryNode {
    match t
    case Has(v) => ValueNode(field, ValueLexeme(v))
    case HasNot(v) => QueryNode.Not(ValueNode(field, ValueLexeme(v)))
    case HasList(AnyOf, vs) => Combine(OrOp, ValueNodes(field, vs))
    case HasList(AllOf, vs) => Combine(AndOp, ValueNodes(field, vs))
    case HasList(NotAllOf, vs) => QueryNode.Not(Combine(AndOp, ValueNodes(field, vs)))
    case HasList(_, vs) => QueryNode.Not(Combine(OrOp, ValueNodes(field, vs)))
    case Compare(op, v) => AComparisonNode(field, op, ValueLexeme(v))
    case Present => Exists(field)
    case Absent => QueryNode.Not(Exists(field))
  }

  function Tree(defs: Registry, s: Sentence): QueryNode
    requires WellFormed(defs, s)
  {
    match s
    case Condition(param, t) => TestNode(ResolveParameter(defs, param).value.name, t)
    case Joined(op, parts) => Group(op, seq(|parts|, i requires 0 <= i < |parts| => Tree(defs, parts[i])))
    case Negation(part) => QueryNode.Not(Tree(defs, part))
  }

  lemma GroupByIndex(e: Engine, r: Rules, op: BoolOp, ns: seq<QueryNode>, d: EvidenceDoc)
    ensures Written(e, r, Group(op, ns), d) <==>
            if op.AndOp? then forall i :: 0 <= i < |ns| ==> Written(e, r, ns[i], d)
            else exists i :: 0 <= i < |ns| && Written(e, r, ns[i], d)
  {
    if op.AndOp? {
      if forall i :: 0 <= i < |ns| ==> Written(e, r, ns[i], d) {
        forall n | n in ns
          ensures Written(e, r, n, d)
        {
          var i :| 0 <= i < |ns| && ns[i] == n;
        }
      } else {
        var i :| 0 <= i < |ns| && !Written(e, r, ns[i], d);
        assert ns[i] in ns;
      }
    } else {
      if n :| n in ns && Written(e, r, n, d) {
        var i :| 0 <= i < |ns| && ns[i] == n;
      }
      if i :| 0 <= i < |ns| && Written(e, r, ns[i], d) {
        assert ns[i] in ns;
      }
    }
  }

  lemma ValuesByIndex(e: Engine, r: Rules, field: string, vs: seq<Value>, d: EvidenceDoc)
    ensures (forall v | v in vs :: SaysValue(e, r, field, v, d)) <==> forall i :: 0 <= i < |vs| ==> SaysValue(e, r, field, vs[i], d)
    ensures (exists v | v in vs :: SaysValue(e, r, field, v, d)) <==> exists i :: 0 <= i < |vs| && SaysValue(e, r, field, vs[i], d)
  {
    hide SaysValue;
    if forall i :: 0 <= i < |vs| ==> SaysValue(e, r, field, vs[i], d) {
      forall v | v in vs
        ensures SaysValue(e, r, field, v, d)
      {
        var i :| 0 <= i < |vs| && vs[i] == v;
      }
    }
    if v :| v in vs && SaysValue(e, r, field, v, d) {
      var i :| 0 <= i < |vs| && vs[i] == v;
    }
  }

  lemma CombineSays(e: Engine, r: Rules, op: BoolOp, field: string, vs: seq<Value>, d: EvidenceDoc)
    requires vs != []
    ensures Written(e, r, Combine(op, ValueNodes(field, vs)), d) <==>
            if op.AndOp? then forall v | v in vs :: SaysValue(e, r, field, v, d) else exists v | v in vs :: SaysValue(e, r, field, v, d)
  {
    hide Written;
    var ns := ValueNodes(field, vs);
    assert forall i :: 0 <= i < |vs| ==> Written(e, r, ns[i], d) == SaysValue(e, r, field, vs[i], d);
    ValuesByIndex(e, r, field, vs, d);
    GroupByIndex(e, r, op, ns, d);
    if |vs| == 1 {
      assert Written(e, r, ns[0], d) == SaysValue(e, r, field, vs[0], d);
    }
  }

  lemma TestNodeSays(e: Engine, r: Rules, family: Family, field: string, t: Test, d: EvidenceDoc)
    requires TestFits(family, t)
    ensures Written(e, r, TestNode(field, t), d) <==> SaysTest(e, r, field, t, d)
  {
    if t.HasList? {
      CombineSays(e, r, AndOp, field, t.values, d);
      CombineSays(e, r, OrOp, field, t.values, d);
    }
  }

  lemma {:induction false} TreeSays(e: Engine, r: Rules, s: Sentence, d: EvidenceDoc)
    requires WellFormed(r.defs, s)
    ensures Written(e, r, Tree(r.defs, s), d) <==> Says(e, r, s, d)
    decreases s
  {
    match s
    case Condition(param, t) =>
      var f := ResolveParameter(r.defs, param).value;
      TestNodeSays(e, r, OperatorFamily(f.fieldType), f.name, t, d);
    case Joined(op, parts) =>
      var ns := Tree(r.defs, s).children;
      forall i | 0 <= i < |parts|
        ensures ns[i] in ns && parts[i] in parts && (Written(e, r, ns[i], d) <==> Says(e, r, parts[i], d))
      {
        assert parts[i] in parts;
        TreeSays(e, r, parts[i], d);
      }
      JoinedSays(e, r, op, parts, ns, d);
    case Negation(part) => TreeSays(e, r, part, d);
  }

  lemma JoinedSays(e: Engine, r: Rules, op: BoolOp, parts: seq<Sentence>, ns: seq<QueryNode>, d: EvidenceDoc)
    requires WellFormed(r.defs, Joined(op, parts)) && |ns| == |parts|
    requires forall i :: 0 <= i < |parts| ==> parts[i] in parts && (Written(e, r, ns[i], d) <==> Says(e, r, parts[i], d))
    ensures Written(e, r, Group(op, ns), d) <==> Says(e, r, Joined(op, parts), d)
  {
    GroupByIndex(e, r, op, ns, d);
    PartsByIndex(e, r, op, parts, d);
  }

  lemma PartsByIndex(e: Engine, r: Rules, op: BoolOp, parts: seq<Sentence>, d: EvidenceDoc)
    requires WellFormed(r.defs, Joined(op, parts)) && forall i :: 0 <= i < |parts| ==> parts[i] in parts
    ensures Says(e, r, Joined(op, parts), d) <==>
            if op.AndOp? then forall i :: 0 <= i < |parts| ==> Says(e, r, parts[i], d)
            else exists i :: 0 <= i < |parts| && Says(e, r, parts[i], d)
  {
    forall p | p in parts
      ensures exists i :: 0 <= i < |parts| && parts[i] == p
    {
    }
  }

  // A list of one value is just that value.
  lemma SingletonListIsTheValue(field: string, v: Value)
    ensures TestNode(field, HasList(AnyOf, [v])) == TestNode(field, HasList(AllOf, [v])) == TestNode(field, Has(v))
    ensures TestNode(field, HasList(NoneOf, [v])) == TestNode(field, HasList(NotAllOf, [v])) == TestNode(field, HasNot(v))
    ensures TestNode(field, HasList(NotAnyOf, [v])) == TestNode(field, HasNot(v))
  {
    assert ValueNodes(field, [v]) == [ValueNode(field, ValueLexeme(v))];
  }

  // ----- writing a sentence -----

  function Words(ws: seq<string>): (ls: seq<ALexeme>)
    ensures |ls| == |ws| && forall i :: 0 <= i < |ws| ==> ls[i] == AWord(ws[i])
  {
    seq(|ws|, i requires 0 <= i < |ws| => AWord(ws[i]))
  }

  function ListTail(vs: seq<Value>): seq<ALexeme> {
    if vs == [] then [ARParen] else [AComma, ValueLexeme(vs[0])] + ListTail(vs[1..])
  }

  function ListLexemes(vs: seq<Value>): seq<ALexeme>
    requires vs != []
  {
    [ALParen, ValueLexeme(vs[0])] + ListTail(vs[1..])
  }

  // The operator keywords before a single value or a list.
  function Opening(family: Family, t: Test): seq<string>
    requires TestFits(family, t) && !t.Compare?
  {
    var verb := if family == IsFamily then "IS" else "CONTAINS";
    match t
    case Has(_) => [verb]
    case HasNot(_) => if family == IsFamily then ["IS", "NOT"] else ["DOES", "NOT", "CONTAIN"]
    case HasList(AnyOf, _) => [verb, "ANY", "OF"]
    case HasList(AllOf, _) => [verb, "ALL", "OF"]
    case HasList(NoneOf, _) => [verb, "NONE", "OF"]
    case HasList(NotAllOf, _) => ["IS", "NOT", "ALL", "OF"]
    case HasList(NotAnyOf, _) => ["DOES", "NOT", "CONTAIN", "ANY", "OF"]
    case Present => ["EXISTS"]
    case Absent => ["DOES", "NOT", "EXIST"]
  }

  function TestLexemes(family: Family, t: Test): seq<ALexeme>
    requires TestFits(family, t)
  {
    match t
    case Compare(op, v) => [AOp(op), ValueLexeme(v)]
    case HasList(_, vs) => Words(Opening(family, t)) + ListLexemes(vs)
    case Has(v) => Words(Opening(family, t)) + [ValueLexeme(v)]
    case HasNot(v) => Words(Opening(family, t)) + [ValueLexeme(v)]
    case _ => Words(Opening(family, t))
  }

  function JoinWord(op: BoolOp): string {
    if op.OrOp? then "OR" else "AND"
  }

  // level: 0 alone or under OR, 1 under AND, 2 under NOT; groups get parentheses where needed.
  function Lexemes(defs: Registry, s: Sentence, level: nat): seq<ALexeme>
    requires WellFormed(defs, s)
    decreases s, 1
  {
    match s
    case Condition(param, t) => [AWord(param)] + TestLexemes(OperatorFamily(ResolveParameter(defs, param).value.fieldType), t)
    case Joined(op, parts) =>
      var body := Lexemes(defs, parts[0], SearchPrinter.OpLevel(op) + 1) + TailOf(defs, op, parts[1..]);
      if level > SearchPrinter.OpLevel(op) then [ALParen] + body + [ARParen] else body
    case Negation(part) => [AWord("NOT")] + Lexemes(defs, part, 2)
  }

  function TailOf(defs: Registry, op: BoolOp, parts: seq<Sentence>): seq<ALexeme>
    requires forall p | p in parts :: WellFormed(defs, p)
    decreases parts, 0
  {
    if parts == [] then []
    else [AWord(JoinWord(op))] + Lexemes(defs, parts[0], SearchPrinter.OpLevel(op) + 1) + TailOf(defs, op, parts[1..])
  }

  // ----- reading it back, token by token -----

  ghost predicate Reads(ls: seq<ALexeme>, ts: seq<AToken>) {
    |ls| <= |ts| && forall i :: 0 <= i < |ls| ==> ts[i].lex == ls[i]
  }

  lemma ReadsLength(ls: seq<ALexeme>, ts: seq<AToken>)
    requires Reads(ls, ts)
    ensures |ls| <= |ts|
  {
  }

  lemma ReadsParts(a: seq<ALexeme>, b: seq<ALexeme>, ts: seq<AToken>)
    requires Reads(a + b, ts)
    ensures Reads(a, ts) && Reads(b, ts[|a|..]) && ts[|a|..][|b|..] == ts[|a + b|..]
  {
    assert forall i :: 0 <= i < |a| ==> (a + b)[i] == a[i];
    var tail := ts[|a|..];
    assert forall i :: 0 <= i < |b| ==> tail[i].lex == (a + b)[|a| + i];
  }

  // Keywords written in capitals are recognized, and a different word is not.
  lemma ReadsWords(ws: seq<string>, ts: seq<AToken>)
    requires Reads(Words(ws), ts)
    ensures forall i :: 0 <= i < |ws| ==> ts[i].lex == AWord(ws[i])
  {
    assert forall i :: 0 <= i < |ws| ==> ts[i].lex == Words(ws)[i];
  }

  lemma LowerKeywords()
    ensures Lower("AND") == "and" && Lower("OR") == "or" && Lower("NOT") == "not" && Lower("CONTAINS") == "contains"
    ensures Lower("IS") == "is" && Lower("EXISTS") == "exists" && Lower("EXIST") == "exist" && Lower("DOES") == "does"
    ensures Lower("ANY") == "any" && Lower("ALL") == "all" && Lower("NONE") == "none" && Lower("OF") == "of"
    ensures Lower("CONTAIN") == "contain"
  {
  }

  predicate CanFollow(level: nat, ts: seq<AToken>) {
    ts != [] ==> ts[0].lex.ARParen? || (level >= 1 && IsAWord(ts, "or")) || (level >= 2 && IsAWord(ts, "and"))
  }

  lemma {:induction false} ReadsListTail(field: string, open: nat, nodes: seq<QueryNode>, vs: seq<Value>, ts: seq<AToken>, end: nat)
    requires nodes != [] && Reads(ListTail(vs), ts)
    ensures var rest := ts[|ListTail(vs)|..];
            AValues(nodes + ValueNodes(field, vs), rest) ==
            (if ts[0].lex.ARParen? then ClosedList(nodes, open, ts[1..])
             else if ts[0].lex.AComma? then MoreValues(field, open, nodes, ts[1..], end)
             else AValuesFail(0))
    decreases vs
  {
    var ls := ListTail(vs);
    assert ts[0].lex == ls[0];
    if vs == [] {
      assert nodes + ValueNodes(field, vs) == nodes;
    } else {
      var t2 := ts[2..];
      ReadsParts([AComma, ValueLexeme(vs[0])], ListTail(vs[1..]), ts);
      assert ts[1].lex == ls[1] && ts[1..][1..] == t2;
      var more := nodes + [ValueNode(field, ValueLexeme(vs[0]))];
      assert t2[0].lex == ListTail(vs[1..])[0];
      ReadsListTail(field, open, more, vs[1..], t2, end);
      assert more + ValueNodes(field, vs[1..]) == nodes + ValueNodes(field, vs);
    }
  }

  lemma ReadsList(field: string, vs: seq<Value>, ts: seq<AToken>, end: nat)
    requires vs != [] && Reads(ListLexemes(vs), ts)
    ensures ListValues(field, ts, end) == AValues(ValueNodes(field, vs), ts[|ListLexemes(vs)|..])
  {
    var ls := ListLexemes(vs);
    ReadsParts([ALParen, ValueLexeme(vs[0])], ListTail(vs[1..]), ts);
    assert ts[0].lex == ls[0] && ts[1].lex == ls[1];
    var t2 := ts[2..];
    assert ts[1..][1..] == t2;
    var first := [ValueNode(field, ValueLexeme(vs[0]))];
    assert t2[0].lex == ListTail(vs[1..])[0];
    ReadsListTail(field, ts[0].pos, first, vs[1..], t2, end);
    assert [] + [ValueNode(field, ValueLexeme(vs[0]))] == first;
    assert first + ValueNodes(field, vs[1..]) == ValueNodes(field, vs);
  }

  lemma ReadsListOf(op: BoolOp, negated: bool, field: string, vs: seq<Value>, ts: seq<AToken>, end: nat)
    requires vs != [] && Reads(ListLexemes(vs), ts)
    ensures ListOf(op, negated, field, ts, end) ==
            AParsed(if negated then QueryNode.Not(Combine(op, ValueNodes(field, vs))) else Combine(op, ValueNodes(field, vs)),
                    ts[|ListLexemes(vs)|..])
  {
    ReadsList(field, vs, ts, end);
  }

  // After a complete operand no keyword continues the condition.
  lemma NotOf(ts: seq<AToken>)
    requires CanFollow(2, ts)
    ensures !IsAWord(ts, "of") && !IsAWord(ts, "all")
  {
  }

  lemma ReadsValue(field: string, v: Value, ts: seq<AToken>, end: nat)
    requires Reads([ValueLexeme(v)], ts) && CanFollow(2, ts[1..])
    ensures SingleValue(field, ts, end) == AParsed(ValueNode(field, ValueLexeme(v)), ts[1..])
    ensures AfterContains(field, ts, end) == SingleValue(field, ts, end)
    ensures !IsAWord(ts, "not") ==> AfterIs(field, ts, end) == SingleValue(field, ts, end)
    ensures !StartsWith(ts, ["any", "of"]) && !StartsWith(ts, ["all", "of"])
  {
    assert ts[0].lex == [ValueLexeme(v)][0];
    NotOf(ts[1..]);
    assert |ts| > 1 ==> ts[1] == ts[1..][0];
    TwoWords(ts, "any", "of");
    TwoWords(ts, "all", "of");
    TwoWords(ts, "none", "of");
    if StartsWith(ts, ["not", "all", "of"]) { assert ts[0].lex.AWord? && Lower(ts[0].lex.word) == ["not", "all", "of"][0]; }
    if StartsWith(ts, ["not"]) { assert ts[0].lex.AWord? && Lower(ts[0].lex.word) == ["not"][0]; }
  }

  lemma TwoWords(ts: seq<AToken>, a: string, b: string)
    ensures StartsWith(ts, [a, b]) <==> |ts| >= 2 && IsAWord(ts, a) && IsAWord(ts[1..], b)
  {
    if StartsWith(ts, [a, b]) {
      assert [a, b][0] == a && [a, b][1] == b;
    }
  }

  lemma ThreeWords(ts: seq<AToken>, a: string, b: string, c: string)
    ensures StartsWith(ts, [a, b, c]) <==> |ts| >= 3 && IsAWord(ts, a) && IsAWord(ts[1..], b) && IsAWord(ts[2..], c)
  {
    if StartsWith(ts, [a, b, c]) {
      assert [a, b, c][0] == a && [a, b, c][1] == b && [a, b, c][2] == c;
    }
  }

  lemma OneWord(ts: seq<AToken>, a: string)
    ensures StartsWith(ts, [a]) <==> IsAWord(ts, a)
  {
    if StartsWith(ts, [a]) {
      assert [a][0] == a;
    }
  }

  // The first keyword decides which branch reads the condition.
  lemma FirstKeyword(f: ResolvedField, name: nat, ts: seq<AToken>, end: nat)
    requires ts != [] && !IsAWord(ts, "exists") && !IsAWord(ts, "does")
    ensures AfterParameter(f, name, ts, end) == AtOperator(OperatorFamily(f.fieldType), f.name, name, ts, end)
  {
    OneWord(ts, "exists");
    ThreeWords(ts, "does", "not", "exist");
    ThreeWords(ts, "does", "not", "contain");
  }

  lemma ReadsPresence(f: ResolvedField, t: Test, name: nat, ts: seq<AToken>, end: nat)
    requires TestFits(OperatorFamily(f.fieldType), t) && (t.Present? || t.Absent?)
    requires Reads(TestLexemes(OperatorFamily(f.fieldType), t), ts)
    ensures AfterParameter(f, name, ts, end) == AParsed(TestNode(f.name, t), ts[|TestLexemes(OperatorFamily(f.fieldType), t)|..])
  {
    LowerKeywords();
    ReadsWords(Opening(OperatorFamily(f.fieldType), t), ts);
    OneWord(ts, "exists");
    ThreeWords(ts, "does", "not", "exist");
  }

  lemma ReadsCompare(f: ResolvedField, t: Test, name: nat, ts: seq<AToken>, end: nat)
    requires TestFits(OperatorFamily(f.fieldType), t) && t.Compare?
    requires Reads(TestLexemes(OperatorFamily(f.fieldType), t), ts)
    ensures AfterParameter(f, name, ts, end) == AParsed(TestNode(f.name, t), ts[2..])
  {
    var ls := TestLexemes(OperatorFamily(f.fieldType), t);
    assert ts[0].lex == ls[0] && ts[1].lex == ls[1];
    FirstKeyword(f, name, ts, end);
  }

  lemma ReadsHas(f: ResolvedField, v: Value, name: nat, ts: seq<AToken>, end: nat)
    requires TestFits(OperatorFamily(f.fieldType), Has(v))
    requires Reads(TestLexemes(OperatorFamily(f.fieldType), Has(v)), ts) && CanFollow(2, ts[2..])
    ensures AfterParameter(f, name, ts, end) == AParsed(TestNode(f.name, Has(v)), ts[2..])
  {
    LowerKeywords();
    var opening := Opening(OperatorFamily(f.fieldType), Has(v));
    ReadsParts(Words(opening), [ValueLexeme(v)], ts);
    ReadsWords(opening, ts);
    FirstKeyword(f, name, ts, end);
    assert ts[1..][1..] == ts[2..];
    assert ts[1] == ts[1..][0] && ts[1..][0].lex == [ValueLexeme(v)][0];
    ReadsValue(f.name, v, ts[1..], end);
  }

  lemma DoesNotContain(f: ResolvedField, name: nat, ts: seq<AToken>, end: nat)
    requires Reads(Words(["DOES", "NOT", "CONTAIN"]), ts) && OperatorFamily(f.fieldType) == ContainsFamily
    ensures AfterParameter(f, name, ts, end) ==
            if StartsWith(ts[3..], ["any", "of"]) then ListOf(OrOp, true, f.name, ts[5..], end)
            else Negated(SingleValue(f.name, ts[3..], end))
  {
    LowerKeywords();
    ReadsWords(["DOES", "NOT", "CONTAIN"], ts);
    OneWord(ts, "exists");
    ThreeWords(ts, "does", "not", "exist");
    ThreeWords(ts, "does", "not", "contain");
  }

  lemma ReadsHasNot(f: ResolvedField, v: Value, name: nat, ts: seq<AToken>, end: nat)
    requires TestFits(OperatorFamily(f.fieldType), HasNot(v))
    requires var n := |TestLexemes(OperatorFamily(f.fieldType), HasNot(v))|;
             Reads(TestLexemes(OperatorFamily(f.fieldType), HasNot(v)), ts) && CanFollow(2, ts[n..])
    ensures AfterParameter(f, name, ts, end) ==
            AParsed(TestNode(f.name, HasNot(v)), ts[|TestLexemes(OperatorFamily(f.fieldType), HasNot(v))|..])
  {
    LowerKeywords();
    var opening := Opening(OperatorFamily(f.fieldType), HasNot(v));
    ReadsParts(Words(opening), [ValueLexeme(v)], ts);
    ReadsWords(opening, ts);
    if OperatorFamily(f.fieldType) == ContainsFamily {
      DoesNotContain(f, name, ts, end);
      assert ts[3..][1..] == ts[4..];
      ReadsValue(f.name, v, ts[3..], end);
    } else {
      FirstKeyword(f, name, ts, end);
      var t1, t2 := ts[1..], ts[2..];
      assert t1[1..] == t2 && t2[1..] == ts[3..] && t2[0].lex == [ValueLexeme(v)][0];
      ReadsValue(f.name, v, t2, end);
      NotOf(ts[3..]);
      TwoWords(t1, "any", "of");
      TwoWords(t1, "all", "of");
      TwoWords(t1, "none", "of");
      ThreeWords(t1, "not", "all", "of");
      OneWord(t1, "not");
      assert t1[2..] == ts[3..];
    }
  }

  lemma ThreeParts(word: seq<ALexeme>, head: seq<ALexeme>, tail: seq<ALexeme>, ts: seq<AToken>)
    requires Reads(word + head + tail, ts) && |word| == 1
    ensures Reads(word + head, ts) && Reads(word, ts) && Reads(head, ts[1..]) && Reads(tail, ts[|word + head|..])
    ensures ts[1..][|head|..] == ts[|word + head|..] && ts[|word + head|..][|tail|..] == ts[|word + head + tail|..]
  {
    ReadsParts(word + head, tail, ts);
    ReadsParts(word, head, ts);
  }

  // What an ANY, ALL or NONE list, or its negation, is read as.
  function ListReading(f: ResolvedField, q: Quantifier, vs: seq<Value>, ts: seq<AToken>, end: nat): AParse {
    ListOf(if q.AllOf? || q.NotAllOf? then AndOp else OrOp, !q.AnyOf? && !q.AllOf?, f.name, ts, end)
  }

  lemma ListReadingIs(f: ResolvedField, q: Quantifier, vs: seq<Value>, ts: seq<AToken>, end: nat)
    requires vs != [] && Reads(ListLexemes(vs), ts)
    ensures ListReading(f, q, vs, ts, end) == AParsed(TestNode(f.name, HasList(q, vs)), ts[|ListLexemes(vs)|..])
  {
    hide ListOf;
    ReadsListOf(if q.AllOf? || q.NotAllOf? then AndOp else OrOp, !q.AnyOf? && !q.AllOf?, f.name, vs, ts, end);
  }

  lemma ReadsNotAnyOf(f: ResolvedField, vs: seq<Value>, name: nat, ts: seq<AToken>, end: nat)
    requires TestFits(OperatorFamily(f.fieldType), HasList(NotAnyOf, vs))
    requires Reads(TestLexemes(OperatorFamily(f.fieldType), HasList(NotAnyOf, vs)), ts)
    ensures AfterParameter(f, name, ts, end) == ListReading(f, NotAnyOf, vs, ts[5..], end)
  {
    LowerKeywords();
    var opening := ["DOES", "NOT", "CONTAIN", "ANY", "OF"];
    ReadsParts(Words(opening), ListLexemes(vs), ts);
    ReadsWords(opening, ts);
    assert Words(opening) == Words(["DOES", "NOT", "CONTAIN"]) + Words(["ANY", "OF"]);
    ReadsParts(Words(["DOES", "NOT", "CONTAIN"]), Words(["ANY", "OF"]), ts);
    hide AfterParameter, ListOf, SingleValue, StartsWith, Reads;
    DoesNotContain(f, name, ts, end);
    TwoWords(ts[3..], "any", "of");
    assert ts[3..][1..][0] == ts[4];
  }

  lemma ReadsOperatorList(f: ResolvedField, q: Quantifier, vs: seq<Value>, name: nat, ts: seq<AToken>, end: nat)
    requires TestFits(OperatorFamily(f.fieldType), HasList(q, vs)) && !q.NotAnyOf?
    requires Reads(TestLexemes(OperatorFamily(f.fieldType), HasList(q, vs)), ts)
    ensures AfterParameter(f, name, ts, end) ==
            ListReading(f, q, vs, ts[|Opening(OperatorFamily(f.fieldType), HasList(q, vs))|..], end)
  {
    LowerKeywords();
    var opening := Opening(OperatorFamily(f.fieldType), HasList(q, vs));
    ReadsParts(Words(opening), ListLexemes(vs), ts);
    ReadsWords(opening, ts);
    hide AfterParameter, ListOf, SingleValue, StartsWith, Reads;
    FirstKeyword(f, name, ts, end);
    var t1 := ts[1..];
    assert t1[1..] == ts[2..] && t1[2..] == ts[3..];
    TwoWords(t1, "any", "of");
    TwoWords(t1, "all", "of");
    TwoWords(t1, "none", "of");
    ThreeWords(t1, "not", "all", "of");
    if q.NotAllOf? {
      assert t1[3..] == ts[4..];
    }
    OperatorListAt(f, q, vs, name, ts, end);
  }

  lemma OperatorListAt(f: ResolvedField, q: Quantifier, vs: seq<Value>, name: nat, ts: seq<AToken>, end: nat)
    requires TestFits(OperatorFamily(f.fieldType), HasList(q, vs)) && !q.NotAnyOf?
    requires |ts| >= if q.NotAllOf? then 4 else 3
    requires IsAWord(ts, if OperatorFamily(f.fieldType) == IsFamily then "is" else "contains")
    requires StartsWith(ts[1..], ["any", "of"]) == q.AnyOf? && StartsWith(ts[1..], ["all", "of"]) == q.AllOf?
    requires StartsWith(ts[1..], ["none", "of"]) == q.NoneOf? && StartsWith(ts[1..], ["not", "all", "of"]) == q.NotAllOf?
    ensures AtOperator(OperatorFamily(f.fieldType), f.name, name, ts, end) ==
            ListReading(f, q, vs, ts[if q.NotAllOf? then 4 else 3..], end)
  {
    hide ListOf, SingleValue, StartsWith;
    assert ts[1..][2..] == ts[3..] && (q.NotAllOf? ==> ts[1..][3..] == ts[4..]);
  }

  lemma ReadsQuantified(f: ResolvedField, q: Quantifier, vs: seq<Value>, name: nat, ts: seq<AToken>, end: nat)
    requires TestFits(OperatorFamily(f.fieldType), HasList(q, vs))
    requires Reads(TestLexemes(OperatorFamily(f.fieldType), HasList(q, vs)), ts)
    ensures AfterParameter(f, name, ts, end) ==
            AParsed(TestNode(f.name, HasList(q, vs)), ts[|TestLexemes(OperatorFamily(f.fieldType), HasList(q, vs))|..])
  {
    hide AfterParameter, ListReading, TestNode, Reads;
    var opening := Opening(OperatorFamily(f.fieldType), HasList(q, vs));
    ReadsParts(Words(opening), ListLexemes(vs), ts);
    if q.NotAnyOf? { ReadsNotAnyOf(f, vs, name, ts, end); } else { ReadsOperatorList(f, q, vs, name, ts, end); }
    ListReadingIs(f, q, vs, ts[|opening|..], end);
  }

  lemma ReadsTest(f: ResolvedField, t: Test, name: nat, ts: seq<AToken>, end: nat)
    requires TestFits(OperatorFamily(f.fieldType), t)
    requires var n := |TestLexemes(OperatorFamily(f.fieldType), t)|;
             Reads(TestLexemes(OperatorFamily(f.fieldType), t), ts) && CanFollow(2, ts[n..])
    ensures AfterParameter(f, name, ts, end) == AParsed(TestNode(f.name, t), ts[|TestLexemes(OperatorFamily(f.fieldType), t)|..])
  {
    match t
    case Has(v) => ReadsHas(f, v, name, ts, end);
    case HasNot(v) => ReadsHasNot(f, v, name, ts, end);
    case HasList(q, vs) => ReadsQuantified(f, q, vs, name, ts, end);
    case Compare(_, _) => ReadsCompare(f, t, name, ts, end);
    case _ => ReadsPresence(f, t, name, ts, end);
  }

  // ----- whole sentences -----

  function ParseAt(defs: Registry, level: nat, ts: seq<AToken>, end: nat): AParse {
    if level == 0 then AParseOr(defs, ts, end) else if level == 1 then AParseAnd(defs, ts, end) else AParseUnary(defs, ts, end)
  }

  function More(defs: Registry, op: BoolOp, children: seq<QueryNode>, ts: seq<AToken>, end: nat): AParse
    requires children != []
  {
    if op.OrOp? then AMoreOr(defs, children, ts, end) else AMoreAnd(defs, children, ts, end)
  }

  lemma Loosen(defs: Registry, n: QueryNode, from: nat, to: nat, ts: seq<AToken>, rest: seq<AToken>, end: nat)
    requires to <= from <= 2 && ParseAt(defs, from, ts, end) == AParsed(n, rest) && CanFollow(to, rest)
    ensures ParseAt(defs, to, ts, end) == AParsed(n, rest)
  {
    if from == 2 && to <= 1 {
      assert AMoreAnd(defs, [n], rest, end) == AParsed(n, rest);
      assert AParseAnd(defs, ts, end) == AParsed(n, rest);
    }
    if to == 0 && from >= 1 {
      assert AMoreOr(defs, [n], rest, end) == AParsed(n, rest);
    }
  }

  lemma FirstOperand(defs: Registry, op: BoolOp, c: QueryNode, ts: seq<AToken>, after: seq<AToken>, end: nat)
    requires ParseAt(defs, SearchPrinter.OpLevel(op) + 1, ts, end) == AParsed(c, after)
    ensures ParseAt(defs, SearchPrinter.OpLevel(op), ts, end) == More(defs, op, [c], after, end)
  {
  }

  lemma NextOperand(defs: Registry, op: BoolOp, done: seq<QueryNode>, c: QueryNode, ts: seq<AToken>, after: seq<AToken>, end: nat)
    requires done != [] && Reads([AWord(JoinWord(op))], ts)
    requires ParseAt(defs, SearchPrinter.OpLevel(op) + 1, ts[1..], end) == AParsed(c, after)
    ensures More(defs, op, done, ts, end) == More(defs, op, done + [c], after, end)
  {
    LowerKeywords();
    assert ts[0].lex == [AWord(JoinWord(op))][0];
  }

  lemma GroupEnds(defs: Registry, op: BoolOp, children: seq<QueryNode>, rest: seq<AToken>, end: nat)
    requires |children| >= 2 && CanFollow(SearchPrinter.OpLevel(op), rest)
    ensures More(defs, op, children, rest, end) == AParsed(Group(op, children), rest)
  {
  }

  lemma TailFollows(defs: Registry, op: BoolOp, parts: seq<Sentence>, ts: seq<AToken>)
    requires forall p | p in parts :: WellFormed(defs, p)
    requires Reads(TailOf(defs, op, parts), ts) && CanFollow(SearchPrinter.OpLevel(op), ts[|TailOf(defs, op, parts)|..])
    ensures CanFollow(SearchPrinter.OpLevel(op) + 1, ts)
  {
    LowerKeywords();
    if parts == [] {
      assert ts[0..] == ts;
    } else {
      assert ts[0].lex == TailOf(defs, op, parts)[0];
    }
  }

  function Trees(defs: Registry, parts: seq<Sentence>): (ns: seq<QueryNode>)
    requires forall p | p in parts :: WellFormed(defs, p)
    ensures |ns| == |parts| && forall i :: 0 <= i < |parts| ==> parts[i] in parts && ns[i] == Tree(defs, parts[i])
  {
    seq(|parts|, i requires 0 <= i < |parts| => assert parts[i] in parts; Tree(defs, parts[i]))
  }

  // The tokens are those of the further operands, and after them nothing that would continue the list.
  ghost predicate AtTail(defs: Registry, op: BoolOp, parts: seq<Sentence>, ts: seq<AToken>) {
    && (forall p | p in parts :: WellFormed(defs, p))
    && Reads(TailOf(defs, op, parts), ts) && CanFollow(SearchPrinter.OpLevel(op), ts[|TailOf(defs, op, parts)|..])
  }

  ghost function AfterTail(defs: Registry, op: BoolOp, parts: seq<Sentence>, ts: seq<AToken>): seq<AToken>
    requires AtTail(defs, op, parts, ts)
  {
    ts[|TailOf(defs, op, parts)|..]
  }

  ghost function AfterPart(defs: Registry, op: BoolOp, part: Sentence, ts: seq<AToken>): seq<AToken>
    requires WellFormed(defs, part)
  {
    var n := |Lexemes(defs, part, SearchPrinter.OpLevel(op) + 1)| + 1;
    if n <= |ts| then ts[n..] else []
  }

  // One joining word and the operand after it.
  lemma {:induction false} ReadsPart(defs: Registry, op: BoolOp, done: seq<QueryNode>, parts: seq<Sentence>, ts: seq<AToken>, end: nat)
    requires done != [] && parts != [] && AtTail(defs, op, parts, ts)
    ensures WellFormed(defs, parts[0])
    ensures var next := AfterPart(defs, op, parts[0], ts);
            && AtTail(defs, op, parts[1..], next) && AfterTail(defs, op, parts[1..], next) == AfterTail(defs, op, parts, ts)
            && More(defs, op, done, ts, end) == More(defs, op, done + [Tree(defs, parts[0])], next, end)
    decreases parts, 0
  {
    hide ParseAt, More, Lexemes, WellFormed, Tree, Reads, CanFollow, TailOf, AtTail, AfterTail;
    PartSplits(defs, op, parts, ts);
    ReadsSentence(defs, parts[0], SearchPrinter.OpLevel(op) + 1, ts[1..], end);
    NextOperand(defs, op, done, Tree(defs, parts[0]), ts, AfterPart(defs, op, parts[0], ts), end);
  }

  lemma PartSplits(defs: Registry, op: BoolOp, parts: seq<Sentence>, ts: seq<AToken>)
    requires parts != [] && AtTail(defs, op, parts, ts)
    ensures WellFormed(defs, parts[0]) && ts != []
    ensures var next, head := AfterPart(defs, op, parts[0], ts), Lexemes(defs, parts[0], SearchPrinter.OpLevel(op) + 1);
            && AtTail(defs, op, parts[1..], next) && AfterTail(defs, op, parts[1..], next) == AfterTail(defs, op, parts, ts)
            && Reads([AWord(JoinWord(op))] + head, ts) && Reads([AWord(JoinWord(op))], ts) && Reads(head, ts[1..])
            && ts[1..][|head|..] == next && CanFollow(SearchPrinter.OpLevel(op) + 1, next)
  {
    assert parts[0] in parts;
    RestWellFormed(defs, parts);
    hide Lexemes, WellFormed, Reads, CanFollow;
    var head, tail := Lexemes(defs, parts[0], SearchPrinter.OpLevel(op) + 1), TailOf(defs, op, parts[1..]);
    var word := [AWord(JoinWord(op))];
    assert TailOf(defs, op, parts) == word + head + tail;
    ReadsLength(word + head + tail, ts);
    ThreeParts(word, head, tail, ts);
    assert AfterPart(defs, op, parts[0], ts) == ts[|word + head|..];
    hide TailOf, AfterPart, JoinWord, SearchPrinter.OpLevel;
    TailFollows(defs, op, parts[1..], ts[|word + head|..]);
  }

  lemma {:induction false} ReadsTail(defs: Registry, op: BoolOp, done: seq<QueryNode>, parts: seq<Sentence>, ts: seq<AToken>, end: nat)
    requires done != [] && AtTail(defs, op, parts, ts)
    ensures forall p | p in parts :: WellFormed(defs, p)
    ensures More(defs, op, done, ts, end) == More(defs, op, done + Trees(defs, parts), AfterTail(defs, op, parts, ts), end)
    decreases parts, 1
  {
    hide *;
    TailWellFormed(defs, op, parts, ts);
    if parts == [] {
      NoTail(defs, op, done, parts, ts);
    } else {
      ReadsPart(defs, op, done, parts, ts, end);
      var next := AfterPart(defs, op, parts[0], ts);
      ReadsTail(defs, op, done + [Tree(defs, parts[0])], parts[1..], next, end);
      TreesFirst(defs, parts);
      Regroup(done, Tree(defs, parts[0]), Trees(defs, parts[1..]));
    }
  }

  lemma Regroup(done: seq<QueryNode>, next: QueryNode, rest: seq<QueryNode>)
    ensures done + [next] + rest == done + ([next] + rest)
  {
  }

  lemma TailWellFormed(defs: Registry, op: BoolOp, parts: seq<Sentence>, ts: seq<AToken>)
    requires AtTail(defs, op, parts, ts)
    ensures forall p | p in parts :: WellFormed(defs, p)
  {
  }

  lemma NoTail(defs: Registry, op: BoolOp, done: seq<QueryNode>, parts: seq<Sentence>, ts: seq<AToken>)
    requires parts == [] && AtTail(defs, op, parts, ts)
    ensures AfterTail(defs, op, parts, ts) == ts && done + Trees(defs, parts) == done
  {
    assert TailOf(defs, op, parts) == [] && ts[0..] == ts;
  }

  lemma RestWellFormed(defs: Registry, parts: seq<Sentence>)
    requires parts != [] && forall p | p in parts :: WellFormed(defs, p)
    ensures forall p | p in parts[1..] :: WellFormed(defs, p)
  {
    hide WellFormed;
  }

  lemma TreesFirst(defs: Registry, parts: seq<Sentence>)
    requires parts != [] && forall p | p in parts :: WellFormed(defs, p)
    ensures Trees(defs, parts) == [Tree(defs, parts[0])] + Trees(defs, parts[1..])
  {
    hide WellFormed, Tree;
  }

  function Body(defs: Registry, s: Sentence): seq<ALexeme>
    requires WellFormed(defs, s) && s.Joined?
  {
    Lexemes(defs, s.parts[0], SearchPrinter.OpLevel(s.op) + 1) + TailOf(defs, s.op, s.parts[1..])
  }

  lemma {:induction false} ReadsBody(defs: Registry, s: Sentence, ts: seq<AToken>, end: nat)
    requires WellFormed(defs, s) && s.Joined?
    requires Reads(Body(defs, s), ts) && CanFollow(SearchPrinter.OpLevel(s.op), ts[|Body(defs, s)|..])
    ensures ParseAt(defs, SearchPrinter.OpLevel(s.op), ts, end) == AParsed(Tree(defs, s), ts[|Body(defs, s)|..])
    decreases s, 0, 0
  {
    hide ParseAt, More, Lexemes, CanFollow, Reads;
    var op, parts := s.op, s.parts;
    assert parts[0] in parts;
    var head, tail := Lexemes(defs, parts[0], SearchPrinter.OpLevel(op) + 1), TailOf(defs, op, parts[1..]);
    ReadsLength(head + tail, ts);
    var t1, rest := ts[|head|..], ts[|head + tail|..];
    ReadsParts(head, tail, ts);
    TailFollows(defs, op, parts[1..], t1);
    ReadsSentence(defs, parts[0], SearchPrinter.OpLevel(op) + 1, ts, end);
    FirstOperand(defs, op, Tree(defs, parts[0]), ts, t1, end);
    ReadsTail(defs, op, [Tree(defs, parts[0])], parts[1..], t1, end);
    TreesFirst(defs, parts);
    assert Tree(defs, s).children == Trees(defs, parts);
    GroupEnds(defs, op, Trees(defs, parts), rest, end);
  }

  lemma ReadsParens(defs: Registry, n: QueryNode, body: seq<ALexeme>, ts: seq<AToken>, end: nat)
    requires Reads([ALParen] + body + [ARParen], ts)
    requires AParseOr(defs, ts[1..], end) == AParsed(n, ts[1 + |body|..])
    ensures AParseUnary(defs, ts, end) == AParsed(n, ts[|body| + 2..])
  {
    var ls := [ALParen] + body + [ARParen];
    var close := ts[1 + |body|..];
    assert ts[0].lex == ls[0] && close[0].lex == ls[1 + |body|];
    assert close[1..] == ts[|body| + 2..];
  }

  lemma {:induction false} ReadsGroup(defs: Registry, s: Sentence, ts: seq<AToken>, end: nat)
    requires WellFormed(defs, s) && s.Joined?
    requires Reads([ALParen] + Body(defs, s) + [ARParen], ts)
    ensures AParseUnary(defs, ts, end) == AParsed(Tree(defs, s), ts[|Body(defs, s)| + 2..])
    decreases s, 0, 1
  {
    hide AParseOr, AParseAnd, AParseUnary, Lexemes, Tree;
    var body := Body(defs, s);
    ReadsParts([ALParen] + body, [ARParen], ts);
    ReadsParts([ALParen], body, ts);
    var inner, close := ts[1..], ts[1 + |body|..];
    assert inner[|body|..] == close && close[0].lex == [ARParen][0];
    ReadsBody(defs, s, inner, end);
    Loosen(defs, Tree(defs, s), SearchPrinter.OpLevel(s.op), 0, inner, close, end);
    ReadsParens(defs, Tree(defs, s), body, ts, end);
  }

  lemma ReadsCondition(defs: Registry, s: Sentence, ts: seq<AToken>, end: nat)
    requires WellFormed(defs, s) && s.Condition?
    requires Reads(Lexemes(defs, s, 2), ts) && CanFollow(2, ts[|Lexemes(defs, s, 2)|..])
    ensures AParseUnary(defs, ts, end) == AParsed(Tree(defs, s), ts[|Lexemes(defs, s, 2)|..])
  {
    hide AfterParameter;
    var f := ResolveParameter(defs, s.param).value;
    var test := TestLexemes(OperatorFamily(f.fieldType), s.test);
    ReadsParts([AWord(s.param)], test, ts);
    assert ts[0].lex == [AWord(s.param)][0];
    ReadsTest(f, s.test, ts[0].pos, ts[1..], end);
  }

  lemma {:induction false} ReadsOperand(defs: Registry, s: Sentence, level: nat, ts: seq<AToken>, end: nat)
    requires level <= 2 && WellFormed(defs, s) && (s.Joined? ==> level > SearchPrinter.OpLevel(s.op))
    requires Reads(Lexemes(defs, s, level), ts) && CanFollow(2, ts[|Lexemes(defs, s, level)|..])
    ensures ParseAt(defs, 2, ts, end) == AParsed(Tree(defs, s), ts[|Lexemes(defs, s, level)|..])
    decreases s, 1
  {
    if s.Joined? {
      ReadsGroup(defs, s, ts, end);
    } else if s.Negation? {
      LowerKeywords();
      ReadsParts([AWord("NOT")], Lexemes(defs, s.part, 2), ts);
      assert ts[0].lex == [AWord("NOT")][0];
      ReadsSentence(defs, s.part, 2, ts[1..], end);
    } else {
      ReadsCondition(defs, s, ts, end);
    }
  }

  lemma {:induction false} ReadsSentence(defs: Registry, s: Sentence, level: nat, ts: seq<AToken>, end: nat)
    requires level <= 2 && WellFormed(defs, s)
    requires Reads(Lexemes(defs, s, level), ts) && CanFollow(level, ts[|Lexemes(defs, s, level)|..])
    ensures ParseAt(defs, level, ts, end) == AParsed(Tree(defs, s), ts[|Lexemes(defs, s, level)|..])
    decreases s, 2
  {
    hide ParseAt;
    var rest := ts[|Lexemes(defs, s, level)|..];
    if s.Joined? && level <= SearchPrinter.OpLevel(s.op) {
      ReadsBody(defs, s, ts, end);
      Loosen(defs, Tree(defs, s), SearchPrinter.OpLevel(s.op), level, ts, rest, end);
    } else {
      ReadsOperand(defs, s, level, ts, end);
      Loosen(defs, Tree(defs, s), 2, level, ts, rest, end);
    }
  }

  // ----- characters -----

  function OpText(op: ComparisonOp): string {
    match op case GreaterEq => ">=" case LessEq => "<=" case Greater => ">" case Less => "<" case Equal => "="
  }

  function TokenText(lex: ALexeme): string {
    match lex
    case ALParen => "(" case ARParen => ")" case AComma => ","
    case AOp(op) => OpText(op)
    case APhrase(t, proximity) => SearchPrinter.Quoted(t) + SearchPrinter.Suffix(proximity)
    case AWord(w) => w
  }

  // Any token sequence written with a space after each token.
  function Spaced(ls: seq<ALexeme>): string {
    if ls == [] then "" else TokenText(ls[0]) + " " + Spaced(ls[1..])
  }

  predicate Writable(ls: seq<ALexeme>) {
    forall lex | lex in ls :: lex.AWord? ==> BareWord(lex.word)
  }

  lemma {:induction false} WordScanned(w: string, rest: string)
    requires (forall k :: 0 <= k < |w| ==> !IsSpace(w[k]) && !IsABreak(w[k])) && rest != "" && rest[0] == ' '
    ensures AWordEnd(w + rest) == |w|
  {
    if w != "" {
      WordScanned(w[1..], rest);
      assert (w + rest)[1..] == w[1..] + rest;
    } else {
      assert w + rest == rest;
    }
  }

  lemma {:induction false} PhraseUnescaped(v: string, rest: string)
    ensures APhraseBody(SearchPrinter.Escape(v) + "\"" + rest) == Some((v, |SearchPrinter.Escape(v)| + 1))
  {
    var s := SearchPrinter.Escape(v) + "\"" + rest;
    if v == "" {
      assert s == "\"" + rest;
    } else {
      PhraseUnescaped(v[1..], rest);
      var tail := SearchPrinter.Escape(v[1..]) + "\"" + rest;
      assert v == [v[0]] + v[1..];
      if v[0] == '\"' || v[0] == '\\' {
        assert s == ['\\', v[0]] + tail;
        assert s[2..] == tail;
      } else {
        assert s == [v[0]] + tail;
        assert s[1..] == tail;
      }
    }
  }

  lemma QuotedScanned(v: string, tail: string)
    ensures var whole := SearchPrinter.Quoted(v) + tail;
            whole[0] == '\"' && APhraseBody(whole[1..]) == Some((v, |SearchPrinter.Quoted(v)| - 1))
  {
    PhraseUnescaped(v, tail);
    assert (SearchPrinter.Quoted(v) + tail)[1..] == SearchPrinter.Escape(v) + "\"" + tail;
  }

  lemma NearPhraseScanned(v: string, n: nat, rest: string)
    requires rest != "" && rest[0] == ' '
    ensures AScanPhrase(SearchPrinter.Quoted(v) + ("~" + ShowNat(n) + rest)) ==
            ALexed(APhrase(v, Some(n)), |SearchPrinter.Quoted(v)| + 1 + |ShowNat(n)|)
  {
    hide SearchPrinter.Quoted;
    var q, digits := SearchPrinter.Quoted(v), ShowNat(n);
    var tail := "~" + digits + rest;
    var whole := q + tail;
    QuotedScanned(v, tail);
    SearchPrinter.DigitRunAt(digits, rest);
    ParseShow(n);
    assert whole[|q|] == tail[0] == '~';
    assert whole[|q| + 1..] == digits + rest;
    assert (digits + rest)[..|digits|] == digits;
  }

  lemma PlainPhraseScanned(v: string, rest: string)
    requires rest != "" && rest[0] == ' '
    ensures AScanPhrase(SearchPrinter.Quoted(v) + rest) == ALexed(APhrase(v, None), |SearchPrinter.Quoted(v)|)
  {
    hide SearchPrinter.Quoted;
    QuotedScanned(v, rest);
    assert (SearchPrinter.Quoted(v) + rest)[|SearchPrinter.Quoted(v)|] == rest[0];
  }

  lemma PhraseScanned(v: string, proximity: Option<nat>, rest: string)
    requires rest != "" && rest[0] == ' '
    ensures var s := TokenText(APhrase(v, proximity));
            (s + rest)[0] == '\"' && AScanPhrase(s + rest) == ALexed(APhrase(v, proximity), |s|)
  {
    var s := TokenText(APhrase(v, proximity));
    if proximity.Some? {
      assert s + rest == SearchPrinter.Quoted(v) + ("~" + ShowNat(proximity.value) + rest);
      NearPhraseScanned(v, proximity.value, rest);
    } else {
      assert s == SearchPrinter.Quoted(v);
      PlainPhraseScanned(v, rest);
    }
  }

  lemma OpScanned(op: ComparisonOp, rest: string)
    requires rest != "" && rest[0] == ' '
    ensures !IsSpace((OpText(op) + rest)[0]) && AScanOne(OpText(op) + rest) == ALexed(AOp(op), |OpText(op)|)
  {
    assert (OpText(op) + rest)[|OpText(op)|] == ' ';
  }

  lemma TokenScanned(lex: ALexeme, rest: string)
    requires (lex.AWord? ==> BareWord(lex.word)) && rest != "" && rest[0] == ' '
    ensures var s := TokenText(lex);
            s != "" && !IsSpace((s + rest)[0]) && AScanOne(s + rest) == ALexed(lex, |s|)
  {
    hide AScanOne, BareWord;
    match lex
    case AWord(w) => WordTokenScanned(w, rest);
    case APhrase(v, proximity) => PhraseTokenScanned(v, proximity, rest);
    case AOp(op) => OpScanned(op, rest); assert TokenText(lex) == OpText(op);
    case _ => MarkScanned(lex, rest);
  }

  lemma WordTokenScanned(w: string, rest: string)
    requires BareWord(w) && rest != "" && rest[0] == ' '
    ensures w != "" && !IsSpace((w + rest)[0]) && AScanOne(w + rest) == ALexed(AWord(w), |w|)
  {
    WordScanned(w, rest);
    assert (w + rest)[..|w|] == w && (w + rest)[0] == w[0];
  }

  lemma PhraseTokenScanned(v: string, proximity: Option<nat>, rest: string)
    requires rest != "" && rest[0] == ' '
    ensures var s := TokenText(APhrase(v, proximity));
            s != "" && !IsSpace((s + rest)[0]) && AScanOne(s + rest) == ALexed(APhrase(v, proximity), |s|)
  {
    var s := TokenText(APhrase(v, proximity));
    PhraseScanned(v, proximity, rest);
    assert s != "";
    hide AScanPhrase, TokenText;
  }

  lemma MarkScanned(lex: ALexeme, rest: string)
    requires lex.ALParen? || lex.ARParen? || lex.AComma?
    ensures var s := TokenText(lex);
            s != "" && !IsSpace((s + rest)[0]) && AScanOne(s + rest) == ALexed(lex, |s|)
  {
  }

  function LexemesOf(ts: seq<AToken>): (ls: seq<ALexeme>)
    ensures |ls| == |ts| && forall i :: 0 <= i < |ts| ==> ls[i] == ts[i].lex
  {
    seq(|ts|, i requires 0 <= i < |ts| => ts[i].lex)
  }

  // Tokenizing the spaced writing of any token sequence gives the sequence back.
  lemma {:induction false} SpacedTokens(ls: seq<ALexeme>, at: nat)
    requires Writable(ls)
    ensures ATokens(Spaced(ls), at).Ok? && LexemesOf(ATokens(Spaced(ls), at).value) == ls
  {
    hide TokenText, ATokens, BareWord;
    if ls == [] {
      NoTokens(at);
    } else {
      var tail, next := Spaced(ls[1..]), at + |TokenText(ls[0])| + 1;
      assert ls[0] in ls;
      SpacedStep(ls[0], tail, at);
      SpacedTokens(ls[1..], next);
      PrependedLexemes(AToken(ls[0], at), ATokens(tail, next).value);
      assert [ls[0]] + ls[1..] == ls;
    }
  }

  lemma NoTokens(at: nat)
    ensures ATokens("", at) == Ok([])
  {
  }

  lemma PrependedLexemes(t: AToken, ts: seq<AToken>)
    ensures LexemesOf([t] + ts) == [t.lex] + LexemesOf(ts)
  {
  }

  lemma SpacedStep(lex: ALexeme, tail: string, at: nat)
    requires lex.AWord? ==> BareWord(lex.word)
    ensures ATokens(TokenText(lex) + " " + tail, at) == APrepend([AToken(lex, at)], ATokens(tail, at + |TokenText(lex)| + 1))
  {
    hide AScanOne, TokenText;
    var s, rest := TokenText(lex), " " + tail;
    TokenScanned(lex, rest);
    assert s + " " + tail == s + rest;
    assert (s + rest)[|s|..] == rest && rest[1..] == tail;
    assert ATokens(rest, at + |s|) == ATokens(tail, at + |s| + 1);
  }

  lemma {:induction false} SentenceWritable(defs: Registry, s: Sentence, level: nat)
    requires WellFormed(defs, s)
    ensures Writable(Lexemes(defs, s, level))
    decreases s, 1
  {
    match s
    case Condition(param, t) => TestWritable(OperatorFamily(ResolveParameter(defs, param).value.fieldType), t);
    case Joined(op, parts) =>
      assert parts[0] in parts;
      SentenceWritable(defs, parts[0], SearchPrinter.OpLevel(op) + 1);
      TailWritable(defs, op, parts[1..]);
    case Negation(part) => SentenceWritable(defs, part, 2);
  }

  lemma {:induction false} TailWritable(defs: Registry, op: BoolOp, parts: seq<Sentence>)
    requires forall p | p in parts :: WellFormed(defs, p)
    ensures Writable(TailOf(defs, op, parts))
    decreases parts, 0
  {
    if parts != [] {
      SentenceWritable(defs, parts[0], SearchPrinter.OpLevel(op) + 1);
      TailWritable(defs, op, parts[1..]);
    }
  }

  lemma TestWritable(family: Family, t: Test)
    requires TestFits(family, t)
    ensures Writable(TestLexemes(family, t))
  {
    if t.HasList? { ListWritable(t.values); }
    if !t.Compare? { OpeningWritable(family, t); }
  }

  lemma KeywordsBare()
    ensures forall w | w in {"IS", "CONTAINS", "NOT", "DOES", "CONTAIN", "ANY", "ALL", "NONE", "OF", "EXISTS", "EXIST", "AND", "OR"} :: BareWord(w)
  {
  }

  lemma OpeningWritable(family: Family, t: Test)
    requires TestFits(family, t) && !t.Compare?
    ensures Writable(Words(Opening(family, t)))
  {
    KeywordsBare();
    var ws := Opening(family, t);
    forall i | 0 <= i < |ws|
      ensures ws[i] in {"IS", "CONTAINS", "NOT", "DOES", "CONTAIN", "ANY", "ALL", "NONE", "OF", "EXISTS", "EXIST", "AND", "OR"}
    {
    }
  }

  lemma ListWritable(vs: seq<Value>)
    requires vs != [] && forall v | v in vs :: ValueOk(v)
    ensures Writable(ListLexemes(vs))
  {
    assert vs[0] in vs;
    ListTailWritable(vs[1..]);
  }

  lemma {:induction false} ListTailWritable(vs: seq<Value>)
    requires forall v | v in vs :: ValueOk(v)
    ensures Writable(ListTail(vs))
  {
    if vs != [] {
      assert vs[0] in vs;
      ListTailWritable(vs[1..]);
    }
  }

  // ----- the theorem -----

  // Every sentence, written out, parses to its tree, and the tree says what the sentence says.
  lemma SentenceParses(e: Engine, r: Rules, s: Sentence, d: EvidenceDoc)
    requires WellFormed(r.defs, s)
    ensures AParseText(r.defs, Spaced(Lexemes(r.defs, s, 0))) == Ok(Tree(r.defs, s))
    ensures Written(e, r, Tree(r.defs, s), d) <==> Says(e, r, s, d)
  {
    var ls := Lexemes(r.defs, s, 0);
    SentenceWritable(r.defs, s, 0);
    SpacedTokens(ls, 0);
    var ts := ATokens(Spaced(ls), 0).value;
    assert forall i :: 0 <= i < |ls| ==> ts[i].lex == LexemesOf(ts)[i];
    assert ts[|ls|..] == [];
    ReadsSentence(r.defs, s, 0, ts, |Spaced(ls)|);
    TreeSays(e, r, s, d);
  }

  // An operator of another family is refused, at the parameter's position or at the comparison's.
  lemma WrongFamilyRefused(defs: Registry, ts: seq<AToken>, end: nat)
    requires |ts| >= 2 && ts[0].lex.AWord? && !IsKeywordWord(ts[0].lex.word)
    requires ResolveParameter(defs, ts[0].lex.word).Some?
    ensures var family := OperatorFamily(ResolveParameter(defs, ts[0].lex.word).value.fieldType);
            var result := AParseCondition(defs, ts, end);
            && (family != ContainsFamily && IsAWord(ts[1..], "contains") ==> result == AFail(ts[0].pos))
            && (family != ContainsFamily && StartsWith(ts[1..], ["does", "not", "contain"]) ==> result == AFail(ts[0].pos))
            && (family != IsFamily && IsAWord(ts[1..], "is") ==> result == AFail(ts[0].pos))
            && (family != CompareFamily && ts[1].lex.AOp? ==> result == AFail(ts[1].pos))
  {
    var after := ts[1..];
    OneWord(after, "exists");
    ThreeWords(after, "does", "not", "exist");
    ThreeWords(after, "does", "not", "contain");
  }

  // ----- every accepted text says what some sentence says -----

  ghost predicate IsTree(defs: Registry, n: QueryNode) {
    exists s :: WellFormed(defs, s) && Tree(defs, s) == n
  }

  predicate WordsOk(ts: seq<AToken>) {
    forall t | t in ts && t.lex.AWord? :: BareWord(t.lex.word)
  }

  lemma {:induction false} WordIsBare(s: string)
    ensures forall k :: 0 <= k < AWordEnd(s) ==> !IsSpace(s[k]) && !IsABreak(s[k])
  {
    if s != [] && !IsSpace(s[0]) && !IsABreak(s[0]) {
      WordIsBare(s[1..]);
      assert forall k :: 0 < k < |s| ==> s[k] == s[1..][k - 1];
    }
  }

  lemma {:induction false} TokensAreBare(s: string, at: nat)
    ensures ATokens(s, at).Ok? ==> WordsOk(ATokens(s, at).value)
    decreases |s|
  {
    if s != [] {
      if IsSpace(s[0]) {
        TokensAreBare(s[1..], at + 1);
      } else if AScanOne(s).ALexed? {
        var n := AScanOne(s).length;
        WordIsBare(s);
        TokensAreBare(s[n..], at + n);
      }
    }
  }

  lemma RestIsBare(ts: seq<AToken>, k: nat)
    requires WordsOk(ts) && k <= |ts|
    ensures WordsOk(ts[k..])
  {
  }

  // A parse that is the tree of a sentence, or of a test of the field.
  ghost predicate Sentential(defs: Registry, p: AParse) {
    p.AParsed? ==> IsTree(defs, p.node) && WordsOk(p.rest)
  }

  ghost predicate IsTest(family: Family, field: string, p: AParse) {
    p.AParsed? ==> WordsOk(p.rest) && exists t :: TestFits(family, t) && TestNode(field, t) == p.node
  }

  predicate ValuesOk(vs: seq<Value>) {
    forall v | v in vs :: ValueOk(v)
  }

  function ValueOf(lex: ALexeme): (v: Value)
    requires lex.AWord? || lex.APhrase?
    ensures ValueLexeme(v) == lex
  {
    match lex case AWord(w) => Bare(w) case APhrase(t, p) => Quoted(t, p)
  }

  lemma FirstValueOk(ts: seq<AToken>)
    requires WordsOk(ts) && IsValue(ts)
    ensures ValueOk(ValueOf(ts[0].lex))
  {
    assert ts[0] in ts;
  }

  lemma {:induction false} MoreValuesAre(field: string, open: nat, before: seq<Value>, ts: seq<AToken>, end: nat) returns (vs: seq<Value>)
    requires WordsOk(ts) && ValuesOk(before)
    ensures var v := MoreValues(field, open, ValueNodes(field, before), ts, end);
            v.AValues? ==> v.nodes == ValueNodes(field, vs) && vs != [] && ValuesOk(vs) && WordsOk(v.rest)
    decreases |ts|
  {
    vs := before;
    if ts != [] && !ts[0].lex.ARParen? && IsValue(ts) {
      var rest := ts[1..];
      FirstValueOk(ts);
      vs := before + [ValueOf(ts[0].lex)];
      assert ValueNodes(field, vs) == ValueNodes(field, before) + [ValueNode(field, ts[0].lex)];
      if rest != [] && rest[0].lex.AComma? {
        vs := MoreValuesAre(field, open, vs, rest[1..], end);
      }
    }
  }

  // The combination each quantifier stands for.
  predicate Stands(q: Quantifier, op: BoolOp, negated: bool) {
    match q
    case AnyOf => op.OrOp? && !negated
    case AllOf => op.AndOp? && !negated
    case NotAllOf => op.AndOp? && negated
    case _ => op.OrOp? && negated
  }

  lemma ListIsTest(q: Quantifier, op: BoolOp, negated: bool, family: Family, field: string, ts: seq<AToken>, end: nat)
    requires WordsOk(ts) && Stands(q, op, negated) && family != CompareFamily
    requires (q.NotAllOf? ==> family == IsFamily) && (q.NotAnyOf? ==> family == ContainsFamily)
    ensures IsTest(family, field, ListOf(op, negated, field, ts, end))
  {
    if ts != [] && ts[0].lex.ALParen? {
      assert ValueNodes(field, []) == [];
      var vs := MoreValuesAre(field, ts[0].pos, [], ts[1..], end);
      var r := ListOf(op, negated, field, ts, end);
      if r.AParsed? {
        assert TestFits(family, HasList(q, vs)) && TestNode(field, HasList(q, vs)) == r.node;
      }
    }
  }

  lemma SingleIsTest(family: Family, field: string, ts: seq<AToken>, end: nat)
    requires WordsOk(ts) && family != CompareFamily
    ensures IsTest(family, field, Negated(SingleValue(field, ts, end)))
    ensures !(family == IsFamily && IsAWord(ts, "not")) ==> IsTest(family, field, SingleValue(field, ts, end))
  {
    if IsValue(ts) {
      FirstValueOk(ts);
      var v := ValueOf(ts[0].lex);
      assert TestFits(family, HasNot(v)) && TestNode(field, HasNot(v)) == QueryNode.Not(ValueNode(field, ts[0].lex));
      if !(family == IsFamily && IsAWord(ts, "not")) {
        assert TestFits(family, Has(v)) && TestNode(field, Has(v)) == ValueNode(field, ts[0].lex);
      }
    }
  }

  lemma AfterContainsIsTest(field: string, ts: seq<AToken>, end: nat)
    requires WordsOk(ts)
    ensures IsTest(ContainsFamily, field, AfterContains(field, ts, end))
  {
    hide ListOf, IsTest, SingleValue;
    if |ts| >= 2 {
      ListIsTest(AnyOf, OrOp, false, ContainsFamily, field, ts[2..], end);
      ListIsTest(AllOf, AndOp, false, ContainsFamily, field, ts[2..], end);
      ListIsTest(NoneOf, OrOp, true, ContainsFamily, field, ts[2..], end);
    }
    SingleIsTest(ContainsFamily, field, ts, end);
  }

  lemma AfterIsIsTest(field: string, ts: seq<AToken>, end: nat)
    requires WordsOk(ts)
    ensures IsTest(IsFamily, field, AfterIs(field, ts, end))
  {
    OneWord(ts, "not");
    hide ListOf, IsTest, SingleValue, Negated;
    if |ts| >= 2 {
      ListIsTest(AnyOf, OrOp, false, IsFamily, field, ts[2..], end);
      ListIsTest(AllOf, AndOp, false, IsFamily, field, ts[2..], end);
      ListIsTest(NoneOf, OrOp, true, IsFamily, field, ts[2..], end);
    }
    if |ts| >= 3 { ListIsTest(NotAllOf, AndOp, true, IsFamily, field, ts[3..], end); }
    if ts != [] { SingleIsTest(IsFamily, field, ts[1..], end); }
    SingleIsTest(IsFamily, field, ts, end);
  }

  lemma ComparisonIsTest(field: string, ts: seq<AToken>)
    requires WordsOk(ts) && ts != [] && ts[0].lex.AOp? && IsValue(ts[1..])
    ensures IsTest(CompareFamily, field, AParsed(AComparisonNode(field, ts[0].lex.op, ts[1].lex), ts[2..]))
  {
    FirstValueOk(ts[1..]);
    var t := Compare(ts[0].lex.op, ValueOf(ts[1].lex));
    assert TestFits(CompareFamily, t) && TestNode(field, t) == AComparisonNode(field, ts[0].lex.op, ts[1].lex);
  }

  lemma AtOperatorIsTest(family: Family, field: string, name: nat, ts: seq<AToken>, end: nat)
    requires WordsOk(ts)
    ensures IsTest(family, field, AtOperator(family, field, name, ts, end))
  {
    assert IsTest(family, field, AFail(name));
    hide AfterContains, AfterIs, IsTest, AComparisonNode;
    if ts != [] {
      AfterContainsIsTest(field, ts[1..], end);
      AfterIsIsTest(field, ts[1..], end);
      assert IsTest(family, field, AFail(ts[0].pos)) && IsTest(family, field, AFailAt(ts[1..], end)) by { FailIsTest(family, field); }
      if ts[0].lex.AOp? && IsValue(ts[1..]) { ComparisonIsTest(field, ts); }
    }
    assert IsTest(family, field, AFailAt(ts, end)) by { FailIsTest(family, field); }
  }

  lemma FailIsTest(family: Family, field: string)
    ensures forall p: AParse :: p.AFail? ==> IsTest(family, field, p)
  {
  }

  lemma AfterParameterIsTest(f: ResolvedField, name: nat, ts: seq<AToken>, end: nat)
    requires WordsOk(ts)
    ensures IsTest(OperatorFamily(f.fieldType), f.name, AfterParameter(f, name, ts, end))
  {
    var family, field := OperatorFamily(f.fieldType), f.name;
    assert TestFits(family, Present) && TestNode(field, Present) == Exists(field);
    assert TestFits(family, Absent) && TestNode(field, Absent) == QueryNode.Not(Exists(field));
    if StartsWith(ts, ["exists"]) || StartsWith(ts, ["does", "not", "exist"]) {
    } else if StartsWith(ts, ["does", "not", "contain"]) {
      hide ListOf, SingleValue, IsTest;
      FailIsTest(family, field);
      if family == ContainsFamily {
        SingleIsTest(family, field, ts[3..], end);
        if |ts| >= 5 { ListIsTest(NotAnyOf, OrOp, true, family, field, ts[5..], end); }
      }
    } else {
      AtOperatorIsTest(family, field, name, ts, end);
    }
  }

  lemma ConditionIsTree(defs: Registry, ts: seq<AToken>, end: nat)
    requires WordsOk(ts)
    ensures Sentential(defs, AParseCondition(defs, ts, end))
  {
    hide AfterParameter, TestFits, TestNode;
    if ts != [] && ts[0].lex.AWord? && ResolveParameter(defs, ts[0].lex.word).Some? {
      var param := ts[0].lex.word;
      var f := ResolveParameter(defs, param).value;
      AfterParameterIsTest(f, ts[0].pos, ts[1..], end);
      var r := AParseCondition(defs, ts, end);
      if r.AParsed? {
        var t :| TestFits(OperatorFamily(f.fieldType), t) && TestNode(f.name, t) == r.node;
        assert ts[0] in ts;
        assert WellFormed(defs, Condition(param, t)) && Tree(defs, Condition(param, t)) == r.node;
      }
    }
  }

  ghost predicate AllTrees(defs: Registry, ns: seq<QueryNode>) {
    forall i :: 0 <= i < |ns| ==> IsTree(defs, ns[i])
  }

  lemma PartsOf(defs: Registry, ns: seq<QueryNode>) returns (parts: seq<Sentence>)
    requires AllTrees(defs, ns)
    ensures |parts| == |ns| && forall i :: 0 <= i < |ns| ==> WellFormed(defs, parts[i]) && Tree(defs, parts[i]) == ns[i]
  {
    hide WellFormed, Tree;
    parts := [];
    while |parts| < |ns|
      invariant |parts| <= |ns|
      invariant forall i :: 0 <= i < |parts| ==> WellFormed(defs, parts[i]) && Tree(defs, parts[i]) == ns[i]
    {
      assert IsTree(defs, ns[|parts|]);
      var next :| WellFormed(defs, next) && Tree(defs, next) == ns[|parts|];
      parts := parts + [next];
    }
  }

  lemma CombineIsTree(defs: Registry, op: BoolOp, ns: seq<QueryNode>)
    requires ns != [] && AllTrees(defs, ns)
    ensures IsTree(defs, Combine(op, ns))
  {
    if |ns| > 1 {
      var parts := PartsOf(defs, ns);
      var s := Joined(op, parts);
      forall p | p in parts
        ensures WellFormed(defs, p)
      {
      }
      assert WellFormed(defs, s);
      assert seq(|parts|, i requires 0 <= i < |parts| => Tree(defs, parts[i])) == ns;
      assert Tree(defs, s) == Group(op, ns);
    }
  }

  lemma NegationIsTree(defs: Registry, p: AParse)
    requires Sentential(defs, p)
    ensures Sentential(defs, Negated(p))
  {
    if p.AParsed? {
      var s :| WellFormed(defs, s) && Tree(defs, s) == p.node;
      assert WellFormed(defs, Negation(s)) && Tree(defs, Negation(s)) == QueryNode.Not(p.node);
    }
  }

  lemma {:induction false} OrIsTree(defs: Registry, ts: seq<AToken>, end: nat)
    requires WordsOk(ts)
    ensures Sentential(defs, AParseOr(defs, ts, end))
    decreases |ts|, 4
  {
    AndIsTree(defs, ts, end);
    hide IsTree, WordsOk;
    var first := AParseAnd(defs, ts, end);
    if first.AParsed? { MoreOrIsTree(defs, [first.node], first.rest, end); }
  }

  lemma {:induction false} MoreOrIsTree(defs: Registry, ns: seq<QueryNode>, ts: seq<AToken>, end: nat)
    requires ns != [] && AllTrees(defs, ns) && WordsOk(ts)
    ensures Sentential(defs, AMoreOr(defs, ns, ts, end))
    decreases |ts|, 3
  {
    CombineIsTree(defs, OrOp, ns);
    if IsAWord(ts, "or") {
      RestIsBare(ts, 1);
      hide IsTree, WordsOk;
      AndIsTree(defs, ts[1..], end);
      var next := AParseAnd(defs, ts[1..], end);
      if next.AParsed? { MoreOrIsTree(defs, ns + [next.node], next.rest, end); }
    }
  }

  lemma {:induction false} AndIsTree(defs: Registry, ts: seq<AToken>, end: nat)
    requires WordsOk(ts)
    ensures Sentential(defs, AParseAnd(defs, ts, end))
    decreases |ts|, 2
  {
    UnaryIsTree(defs, ts, end);
    hide IsTree, WordsOk;
    var first := AParseUnary(defs, ts, end);
    if first.AParsed? { MoreAndIsTree(defs, [first.node], first.rest, end); }
  }

  lemma {:induction false} MoreAndIsTree(defs: Registry, ns: seq<QueryNode>, ts: seq<AToken>, end: nat)
    requires ns != [] && AllTrees(defs, ns) && WordsOk(ts)
    ensures Sentential(defs, AMoreAnd(defs, ns, ts, end))
    decreases |ts|, 1
  {
    CombineIsTree(defs, AndOp, ns);
    if IsAWord(ts, "and") {
      RestIsBare(ts, 1);
      hide IsTree, WordsOk;
      UnaryIsTree(defs, ts[1..], end);
      var next := AParseUnary(defs, ts[1..], end);
      if next.AParsed? { MoreAndIsTree(defs, ns + [next.node], next.rest, end); }
    }
  }

  lemma {:induction false} UnaryIsTree(defs: Registry, ts: seq<AToken>, end: nat)
    requires WordsOk(ts)
    ensures Sentential(defs, AParseUnary(defs, ts, end))
    decreases |ts|, 0
  {
    hide IsTree;
    if IsAWord(ts, "not") {
      UnaryIsTree(defs, ts[1..], end);
      NegationIsTree(defs, AParseUnary(defs, ts[1..], end));
    } else if ts != [] && ts[0].lex.ALParen? {
      OrIsTree(defs, ts[1..], end);
    } else {
      ConditionIsTree(defs, ts, end);
    }
  }

  // Every accepted text is blank, or reads as a sentence in which each operator is of its field's family
  // and no list is empty. With SentenceParses: the trees of accepted texts are those of the sentences.
  lemma AcceptedTextIsASentence(defs: Registry, input: string) returns (s: Option<Sentence>)
    requires AParseText(defs, input).Ok?
    ensures s.None? ==> AParseText(defs, input).value == MatchAll
    ensures s.Some? ==> WellFormed(defs, s.value) && AParseText(defs, input).value == Tree(defs, s.value)
  {
    var ts := ATokens(input, 0).value;
    s := None;
    if ts != [] {
      TokensAreBare(input, 0);
      OrIsTree(defs, ts, |input|);
      var w :| WellFormed(defs, w) && Tree(defs, w) == AParseOr(defs, ts, |input|).node;
      s := Some(w);
    }
  }

  lemma ValueNodesWide(field: string, op: BoolOp, vs: seq<Value>)
    requires vs != []
    ensures WideGroups(Combine(op, ValueNodes(field, vs)))
  {
    var ns := ValueNodes(field, vs);
    assert forall i :: 0 <= i < |ns| ==> WideGroups(ns[i]);
  }

  lemma {:induction false} TreeWide(defs: Registry, s: Sentence)
    requires WellFormed(defs, s)
    ensures WideGroups(Tree(defs, s))
    decreases s
  {
    match s
    case Condition(param, t) =>
      if t.HasList? {
        ValueNodesWide(ResolveParameter(defs, param).value.name, OrOp, t.values);
        ValueNodesWide(ResolveParameter(defs, param).value.name, AndOp, t.values);
      }
    case Joined(op, parts) =>
      var ns := Tree(defs, s).children;
      forall n | n in ns
        ensures WideGroups(n)
      {
        var i :| 0 <= i < |parts| && ns[i] == n;
        assert parts[i] in parts;
        TreeWide(defs, parts[i]);
      }
    case Negation(part) => TreeWide(defs, part);
  }

  function AdvancedSearch(r: Rules, input: string, auth: AuthContext): Result<Dsl, PipelineError> {
    match AParseText(r.defs, input)
    case Err(err) => Err(BadSyntax(err.position))
    case Ok(ast) => SearchFor(r, ast, auth)
  }

  // The advanced front end, end to end.
  lemma AdvancedSearchFindsWhatIsWritten(e: Engine, r: Rules, input: string, auth: AuthContext, d: EvidenceDoc)
    requires RegistryOk(r.defs) && AdvancedSearch(r, input, auth).Ok?
    requires AllFaithful(Validated(r, AParseText(r.defs, input).value).value)
    ensures Matches(e, AdvancedSearch(r, input, auth).value, RootHit(d)) <==>
            SearchCorrectness.Visible(d, auth) && Written(e, r, AParseText(r.defs, input).value, d)
  {
    var s := AcceptedTextIsASentence(r.defs, input);
    if s.Some? { TreeWide(r.defs, s.value); }
    SearchFindsWhatIsWritten(e, r, AParseText(r.defs, input).value, auth, d);
  }

  // It reaches no more than the first front end does.
  lemma NoAdvancedTextEscapesAuthorization(e: Engine, r: Rules, input: string, auth: AuthContext, d: EvidenceDoc)
    requires AdvancedSearch(r, input, auth).Ok? && Matches(e, AdvancedSearch(r, input, auth).value, RootHit(d))
    ensures SearchCorrectness.Visible(d, auth) && auth.caseIds != Some([]) && auth.tenantId != ""
  {
    var ast := AParseText(r.defs, input).value;
    SearchCorrectness.NoQueryEscapesAuthorization(e, Validated(r, ast).value, auth, d);
  }
}
