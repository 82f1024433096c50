// packages/search/src/advanced.ts: the second front end, `parameter OPERATOR value`.
module SearchAdvanced {
  import opened Wrappers
  import opened Text
  import opened SearchFields
  import opened SearchAst
  import opened SearchLexer

  // ----- tokens -----

  datatype AToken = AToken(lex: ALexeme, pos: nat)

  datatype ALexeme =
    | ALParen | ARParen | AComma
    | AOp(op: ComparisonOp)
    | APhrase(text: string, proximity: Option<nat>)
    | AWord(word: string)

  predicate IsABreak(c: char) {
    c in {'(', ')', ',', '\"', '<', '>', '='}
  }

  // Here a backslash keeps whatever character follows it.
  function APhraseBody(s: string): (r: Option<(string, nat)>)
    ensures r.Some? ==> 0 < r.value.1 <= |s|
  {
    if s == [] then None
    else if s[0] == '\\' && |s| > 1 then Grow([s[1]], 2, APhraseBody(s[2..]))
    else if s[0] == '\"' then Some(("", 1))
    else Grow([s[0]], 1, APhraseBody(s[1..]))
  }

  function AWordEnd(s: string): (n: nat)
    ensures n <= |s|
  {
    if s == [] || IsSpace(s[0]) || IsABreak(s[0]) then 0 else 1 + AWordEnd(s[1..])
  }

  datatype AScan = ALexed(lex: ALexeme, length: nat) | ABad(offset: nat)

  function AScanPhrase(s: string): (r: AScan)
    requires s != [] && s[0] == '\"'
    ensures r.ALexed? ==> 0 < r.length <= |s|
  {
    match APhraseBody(s[1..])
    case None => ABad(0)
    case Some((value, n)) =>
      if 1 + n < |s| && s[1 + n] == '~' then
        var d := DigitRun(s[2 + n..]);
        if d == 0 then ABad(1 + n)
        else ALexed(APhrase(value, Some(ParseNat(s[2 + n..][..d]))), 2 + n + d)
      else ALexed(APhrase(value, None), 1 + n)
  }

  function AScanOne(s: string): (r: AScan)
    requires s != [] && !IsSpace(s[0])
    ensures r.ALexed? ==> 0 < r.length <= |s|
  {
    var equal := |s| > 1 && s[1] == '=';
    match s[0]
    case '(' => ALexed(ALParen, 1)
    case ')' => ALexed(ARParen, 1)
    case ',' => ALexed(AComma, 1)
    case '>' => if equal then ALexed(AOp(GreaterEq), 2) else ALexed(AOp(Greater), 1)
    case '<' => if equal then ALexed(AOp(LessEq), 2) else ALexed(AOp(Less), 1)
    case '=' => ALexed(AOp(Equal), 1)
    case '\"' => AScanPhrase(s)
    case _ => ALexed(AWord(s[..AWordEnd(s)]), AWordEnd(s))
  }

  function ATokens(s: string, at: nat): Result<seq<AToken>, SyntaxError> {
    if s == [] then Ok([])
    else if IsSpace(s[0]) then ATokens(s[1..], at + 1)
    else
      match AScanOne(s)
      case ABad(offset) => Err(SyntaxError(at + offset))
      case ALexed(lex, n) => APrepend([AToken(lex, at)], ATokens(s[n..], at + n))
  }

  function APrepend(front: seq<AToken>, r: Result<seq<AToken>, SyntaxError>): Result<seq<AToken>, SyntaxError> {
    match r
    case Ok(ts) => Ok(front + ts)
    case Err(e) => Err(e)
  }

  method AReadPhraseText(input: string, from: nat) returns (closed: bool, value: string, i: nat)
    requires from <= |input|
    ensures from <= i <= |input|
    ensures APhraseBody(input[from..]) == if closed then Some((value, i - from)) else None
  {
    i, value, closed := from, "", false;
    ghost var whole := APhraseBody(input[from..]);
    GrowNothing(whole);
    while i < |input|
      invariant from <= i <= |input|
      invariant whole == Grow(value, i - from, APhraseBody(input[i..]))
    {
      var c, rest, at := input[i], input[i..], i - from;
      if c == '\\' && i + 1 < |input| {
        assert rest[2..] == input[i + 2..];
        GrowTwice(value, at, [input[i + 1]], 2, APhraseBody(input[i + 2..]));
        value := value + [input[i + 1]];
        i := i + 2;
        continue;
      }
      if c == '\"' {
        assert value + "" == value;
        return true, value, i + 1;
      }
      assert rest[1..] == input[i + 1..];
      GrowTwice(value, at, [c], 1, APhraseBody(input[i + 1..]));
      value := value + [c];
      i := i + 1;
    }
  }

  method AReadPhrase(input: string, start: nat) returns (r: Result<(ALexeme, nat), SyntaxError>)
    requires start < |input| && input[start] == '\"'
    ensures match AScanPhrase(input[start..])
            case ABad(offset) => r == Err(SyntaxError(start + offset))
            case ALexed(lex, n) => r == Ok((lex, start + n))
  {
    hide PhraseBody, DigitRun, ParseNat;
    assert input[start..][1..] == input[start + 1..];
    var closed, value, i := AReadPhraseText(input, start + 1);
    if !closed {
      return Err(SyntaxError(start));
    }
    if i < |input| && input[i] == '~' {
      assert input[start..][i + 1 - start..] == input[i + 1..];
      var num := ReadNumber(input, i + 1);
      if num.None? {
        return Err(SyntaxError(i));
      }
      return Ok((APhrase(value, Some(num.value.0)), num.value.1));
    }
    return Ok((APhrase(value, None), i));
  }

  method AReadWord(input: string, start: nat) returns (word: string, i: nat)
    requires start <= |input|
    ensures i == start + AWordEnd(input[start..]) && word == input[start..i]
  {
    i, word := start, "";
    while i < |input| && !IsSpace(input[i]) && !IsABreak(input[i])
      invariant start <= i <= |input| && word == input[start..i]
      invariant AWordEnd(input[start..]) == i - start + AWordEnd(input[i..])
    {
      assert input[i..][1..] == input[i + 1..];
      word := word + [input[i]];
      i := i + 1;
    }
  }

  method AReadToken(input: string, i: nat) returns (r: Result<(ALexeme, nat), SyntaxError>)
    requires i < |input| && !IsSpace(input[i])
    ensures match AScanOne(input[i..])
            case ABad(offset) => r == Err(SyntaxError(i + offset))
            case ALexed(lex, n) => r == Ok((lex, i + n))
  {
    var two := i + 1 < |input| && input[i + 1] == '=';
    match input[i] {
      case '(' => return Ok((ALParen, i + 1));
      case ')' => return Ok((ARParen, i + 1));
      case ',' => return Ok((AComma, i + 1));
      case '>' => return Ok(if two then (AOp(GreaterEq), i + 2) else (AOp(Greater), i + 1));
      case '<' => return Ok(if two then (AOp(LessEq), i + 2) else (AOp(Less), i + 1));
      case '=' => return Ok((AOp(Equal), i + 1));
      case '\"' => r := AReadPhrase(input, i);
      case _ =>
        var word, end := AReadWord(input, i);
        assert word == input[i..][..end - i];
        return Ok((AWord(word), end));
    }
  }

  method ATokenize(input: string) returns (r: Result<seq<AToken>, SyntaxError>)
    ensures r == ATokens(input, 0)
  {
    var out: seq<AToken> := [];
    var i := 0;
    assert input[0..] == input;
    APrependAll([], [], ATokens(input, 0));
    while i < |input|
      invariant 0 <= i <= |input|
      invariant ATokens(input, 0) == APrepend(out, ATokens(input[i..], i))
    {
      if IsSpace(input[i]) {
        assert input[i..][1..] == input[i + 1..];
        i := i + 1;
        continue;
      }
      var one := AReadToken(input, i);
      if one.Err? {
        return Err(one.error);
      }
      var end := one.value.1;
      assert input[i..][end - i..] == input[end..];
      APrependAll(out, [AToken(one.value.0, i)], ATokens(input[end..], end));
      out := out + [AToken(one.value.0, i)];
      i := end;
    }
    assert out + [] == out;
    return Ok(out);
  }

  lemma APrependAll(a: seq<AToken>, b: seq<AToken>, r: Result<seq<AToken>, SyntaxError>)
    ensures APrepend(a, APrepend(b, r)) == APrepend(a + b, r)
    ensures APrepend([], r) == r
  {
    if r.Ok? {
      assert a + (b + r.value) == (a + b) + r.value && [] + r.value == r.value;
    }
  }

  // ----- parameters and operator families -----

  function Alias(name: string): string {
    match name
    case "content" => "text"
    case "type" => "extension"
    case "name.ext" => "extension"
    case "name.dirs" => "folder"
    case "directory" => "folder"
    case "name.term" => "name"
    case "ingestion-date" => "acquired"
    case "sent-date" => "sent"
    case "received-date" => "received"
    case "to.address" => "to"
    case "from.address" => "from"
    case "cc.address" => "cc"
    case "bcc.address" => "bcc"
    case "participant.address" => "participants"
    case "sender.address" => "sender"
    case "replyto.address" => "replyto"
    case "system-tags" => "labels"
    case "document-notes" => "text"
    case _ => name
  }

  function ResolveParameter(defs: Registry, raw: string): Option<ResolvedField> {
    Resolve(defs, Alias(Lower(raw)))
  }

  datatype Family = ContainsFamily | IsFamily | CompareFamily

  function OperatorFamily(t: FieldType): Family {
    match t
    case TextType => ContainsFamily
    case OcrType => ContainsFamily
    case HeaderType => ContainsFamily
    case DateType => CompareFamily
    case SizeType => CompareFamily
    case _ => IsFamily
  }

  predicate IsKeywordWord(w: string) {
    Lower(w) in {"and", "or", "not", "contains", "is", "exists", "exist", "does", "any", "all", "none", "of"}
  }

  // ----- what the parser computes -----

  datatype AParse = AParsed(node: QueryNode, rest: seq<AToken>) | AFail(position: nat)

  datatype AValues = AValues(nodes: seq<QueryNode>, rest: seq<AToken>) | AValuesFail(position: nat)

  function AFailAt(ts: seq<AToken>, end: nat): AParse {
    AFail(if ts == [] then end else ts[0].pos)
  }

  predicate IsAWord(ts: seq<AToken>, word: string) {
    ts != [] && ts[0].lex.AWord? && Lower(ts[0].lex.word) == word
  }

  // tryKeywords: the tokens begin with these words.
  predicate StartsWith(ts: seq<AToken>, words: seq<string>) {
    |words| <= |ts| && forall k :: 0 <= k < |words| ==> ts[k].lex.AWord? && Lower(ts[k].lex.word) == words[k]
  }

  predicate IsValue(ts: seq<AToken>) {
    ts != [] && (ts[0].lex.AWord? || ts[0].lex.APhrase?)
  }

  function ValueText(lex: ALexeme): string
    requires lex.AWord? || lex.APhrase?
  {
    if lex.AWord? then lex.word else lex.text
  }

  function ValueNode(field: string, lex: ALexeme): QueryNode
    requires lex.AWord? || lex.APhrase?
  {
    match lex
    case APhrase(text, proximity) => Phrase(Some(field), text, proximity)
    case AWord(word) => if '*' in word || '?' in word then Wildcard(Some(field), word) else Term(Some(field), word, None)
  }

  function Combine(op: BoolOp, nodes: seq<QueryNode>): QueryNode {
    if |nodes| == 1 then nodes[0] else Group(op, nodes)
  }

  function SingleValue(field: string, ts: seq<AToken>, end: nat): (r: AParse)
    ensures r.AParsed? ==> |r.rest| < |ts|
  {
    if IsValue(ts) then AParsed(ValueNode(field, ts[0].lex), ts[1..]) else AFailAt(ts, end)
  }

  function ListValues(field: string, ts: seq<AToken>, end: nat): (r: AValues)
    ensures r.AValues? ==> |r.rest| < |ts|
  {
    if ts == [] || !ts[0].lex.ALParen? then AValuesFail(AFailAt(ts, end).position)
    else MoreValues(field, ts[0].pos, [], ts[1..], end)
  }

  // The loop of valueList, having read `nodes`.
  function MoreValues(field: string, open: nat, nodes: seq<QueryNode>, ts: seq<AToken>, end: nat): (r: AValues)
    ensures r.AValues? ==> |r.rest| <= |ts|
    decreases |ts|
  {
    if ts != [] && ts[0].lex.ARParen? then ClosedList(nodes, open, ts[1..])
    else if !IsValue(ts) then AValuesFail(AFailAt(ts, end).position)
    else
      var more, rest := nodes + [ValueNode(field, ts[0].lex)], ts[1..];
      if rest != [] && rest[0].lex.AComma? then MoreValues(field, open, more, rest[1..], end)
      else if rest != [] && rest[0].lex.ARParen? then ClosedList(more, open, rest[1..])
      else AValuesFail(AFailAt(rest, end).position)
  }

  function ClosedList(nodes: seq<QueryNode>, open: nat, rest: seq<AToken>): AValues {
    if nodes == [] then AValuesFail(open) else AValues(nodes, rest)
  }

  function ListOf(op: BoolOp, negated: bool, field: string, ts: seq<AToken>, end: nat): (r: AParse)
    ensures r.AParsed? ==> |r.rest| < |ts|
  {
    match ListValues(field, ts, end)
    case AValuesFail(p) => AFail(p)
    case AValues(nodes, rest) =>
      AParsed(if negated then QueryNode.Not(Combine(op, nodes)) else Combine(op, nodes), rest)
  }

  function Negated(p: AParse): AParse {
    match p
    case AFail(q) => AFail(q)
    case AParsed(n, rest) => AParsed(QueryNode.Not(n), rest)
  }

  function AComparisonNode(field: string, op: ComparisonOp, lex: ALexeme): QueryNode
    requires lex.AWord? || lex.APhrase?
  {
    var v := Some(ValueText(lex));
    match op
    case GreaterEq => Range(field, Unbounded<string>().(gte := v))
    case LessEq => Range(field, Unbounded<string>().(lte := v))
    case Greater => Range(field, Unbounded<string>().(gt := v))
    case Less => Range(field, Unbounded<string>().(lt := v))
    case Equal => ValueNode(field, lex)
  }

  function AfterContains(field: string, ts: seq<AToken>, end: nat): (r: AParse)
    ensures r.AParsed? ==> |r.rest| < |ts|
  {
    if StartsWith(ts, ["any", "of"]) then ListOf(OrOp, false, field, ts[2..], end)
    else if StartsWith(ts, ["all", "of"]) then ListOf(AndOp, false, field, ts[2..], end)
    else if StartsWith(ts, ["none", "of"]) then ListOf(OrOp, true, field, ts[2..], end)
    else SingleValue(field, ts, end)
  }

  function AfterIs(field: string, ts: seq<AToken>, end: nat): (r: AParse)
    ensures r.AParsed? ==> |r.rest| < |ts|
  {
    if StartsWith(ts, ["any", "of"]) then ListOf(OrOp, false, field, ts[2..], end)
    else if StartsWith(ts, ["all", "of"]) then ListOf(AndOp, false, field, ts[2..], end)
    else if StartsWith(ts, ["none", "of"]) then ListOf(OrOp, true, field, ts[2..], end)
    else if StartsWith(ts, ["not", "all", "of"]) then ListOf(AndOp, true, field, ts[3..], end)
    else if StartsWith(ts, ["not"]) then Negated(SingleValue(field, ts[1..], end))
    else SingleValue(field, ts, end)
  }

  // Everything after the parameter name; `name` is its position.
  function AfterParameter(f: ResolvedField, name: nat, ts: seq<AToken>, end: nat): (r: AParse)
    ensures r.AParsed? ==> |r.rest| < |ts|
  {
    var family, field := OperatorFamily(f.fieldType), f.name;
    if StartsWith(ts, ["exists"]) then AParsed(Exists(field), ts[1..])
    else if StartsWith(ts, ["does", "not", "exist"]) then AParsed(QueryNode.Not(Exists(field)), ts[3..])
    else if StartsWith(ts, ["does", "not", "contain"]) then
      if family != ContainsFamily then AFail(name)
      else if StartsWith(ts[3..], ["any", "of"]) then ListOf(OrOp, true, field, ts[5..], end)
      else Negated(SingleValue(field, ts[3..], end))
    else AtOperator(family, field, name, ts, end)
  }

  function AtOperator(family: Family, field: string, name: nat, ts: seq<AToken>, end: nat): (r: AParse)
    ensures r.AParsed? ==> |r.rest| < |ts|
  {
    if IsAWord(ts, "contains") then
      if family != ContainsFamily then AFail(name) else AfterContains(field, ts[1..], end)
    else if IsAWord(ts, "is") then
      if family != IsFamily then AFail(name) else AfterIs(field, ts[1..], end)
    else if ts != [] && ts[0].lex.AOp? then
      if family != CompareFamily then AFail(ts[0].pos)
      else if !IsValue(ts[1..]) then AFailAt(ts[1..], end)
      else AParsed(AComparisonNode(field, ts[0].lex.op, ts[1].lex), ts[2..])
    else AFailAt(ts, end)
  }

  function AParseCondition(defs: Registry, ts: seq<AToken>, end: nat): (r: AParse)
    ensures r.AParsed? ==> |r.rest| < |ts|
  {
    if ts == [] || !ts[0].lex.AWord? then AFailAt(ts, end)
    else if IsKeywordWord(ts[0].lex.word) then AFail(ts[0].pos)
    else
      match ResolveParameter(defs, ts[0].lex.word)
      case None => AFail(ts[0].pos)
      case Some(f) => AfterParameter(f, ts[0].pos, ts[1..], end)
  }

  function AParseOr(defs: Registry, ts: seq<AToken>, end: nat): (r: AParse)
    ensures r.AParsed? ==> |r.rest| < |ts|
    decreases |ts|, 4
  {
    match AParseAnd(defs, ts, end)
    case AFail(p) => AFail(p)
    case AParsed(first, rest) => AMoreOr(defs, [first], rest, end)
  }

  function AMoreOr(defs: Registry, children: seq<QueryNode>, ts: seq<AToken>, end: nat): (r: AParse)
    requires children != []
    ensures r.AParsed? ==> |r.rest| <= |ts|
    decreases |ts|, 3
  {
    if IsAWord(ts, "or") then
      match AParseAnd(defs, ts[1..], end)
      case AFail(p) => AFail(p)
      case AParsed(next, rest) => AMoreOr(defs, children + [next], rest, end)
    else AParsed(Combine(OrOp, children), ts)
  }

  function AParseAnd(defs: Registry, ts: seq<AToken>, end: nat): (r: AParse)
    ensures r.AParsed? ==> |r.rest| < |ts|
    decreases |ts|, 2
  {
    match AParseUnary(defs, ts, end)
    case AFail(p) => AFail(p)
    case AParsed(first, rest) => AMoreAnd(defs, [first], rest, end)
  }

  function AMoreAnd(defs: Registry, children: seq<QueryNode>, ts: seq<AToken>, end: nat): (r: AParse)
    requires children != []
    ensures r.AParsed? ==> |r.rest| <= |ts|
    decreases |ts|, 1
  {
    if IsAWord(ts, "and") then
      match AParseUnary(defs, ts[1..], end)
      case AFail(p) => AFail(p)
      case AParsed(next, rest) => AMoreAnd(defs, children + [next], rest, end)
    else AParsed(Combine(AndOp, children), ts)
  }

  function AParseUnary(defs: Registry, ts: seq<AToken>, end: nat): (r: AParse)
    ensures r.AParsed? ==> |r.rest| < |ts|
    decreases |ts|, 0
  {
    if IsAWord(ts, "not") then Negated(AParseUnary(defs, ts[1..], end))
    else if ts != [] && ts[0].lex.ALParen? then
      match AParseOr(defs, ts[1..], end)
      case AFail(p) => AFail(p)
      case AParsed(inner, rest) =>
        if rest != [] && rest[0].lex.ARParen? then AParsed(inner, rest[1..]) else AFailAt(rest, end)
    else AParseCondition(defs, ts, end)
  }

  function AParseTokens(defs: Registry, ts: seq<AToken>, end: nat): Result<QueryNode, SyntaxError> {
    if ts == [] then Ok(MatchAll)
    else
      match AParseOr(defs, ts, end)
      case AFail(p) => Err(SyntaxError(p))
      case AParsed(node, rest) => if rest == [] then Ok(node) else Err(SyntaxError(rest[0].pos))
  }

  function AParseText(defs: Registry, input: string): Result<QueryNode, SyntaxError> {
    match ATokens(input, 0)
    case Err(e) => Err(e)
    case Ok(ts) => AParseTokens(defs, ts, |input|)
  }

  // ----- the parser -----

  class AdvancedParser {
    const toks: seq<AToken>
    const end: nat
    const registry: Registry
    var i: nat

    constructor (toks: seq<AToken>, end: nat, registry: Registry)
      ensures this.toks == toks && this.end == end && this.registry == registry && i == 0
    {
      this.toks, this.end, this.registry, i := toks, end, registry, 0;
    }

    ghost predicate Valid()
      reads this
    {
      i <= |toks|
    }

    function Ahead(): seq<AToken>
      requires Valid()
      reads this
    {
      toks[i..]
    }

    ghost predicate Agrees(r: Result<QueryNode, SyntaxError>, p: AParse)
      reads this
    {
      match p
      case AFail(position) => r == Err(SyntaxError(position))
      case AParsed(node, rest) => r == Ok(node) && Valid() && Ahead() == rest
    }

    function PosOf(t: Option<AToken>): nat {
      if t.Some? then t.value.pos else end
    }

    function Peek(): (t: Option<AToken>)
      requires Valid()
      reads this
      ensures t == if Ahead() == [] then None else Some(Ahead()[0])
    {
      if i < |toks| then Some(toks[i]) else None
    }

    method Next() returns (t: Option<AToken>)
      requires Valid()
      modifies this
      ensures t == if old(Ahead()) == [] then None else Some(old(Ahead())[0])
      ensures t.Some? ==> Valid() && Ahead() == old(Ahead())[1..] && i == old(i) + 1
    {
      t := if i < |toks| then Some(toks[i]) else None;
      i := i + 1;
    }

    // Consume the given keyword sequence if present; otherwise leave the cursor.
    method TryKeywords(words: seq<string>) returns (found: bool)
      requires Valid()
      modifies this
      ensures found == StartsWith(old(Ahead()), words)
      ensures Valid() && i == if found then old(i) + |words| else old(i)
      ensures Ahead() == if found then old(Ahead())[|words|..] else old(Ahead())
    {
      for k := 0 to |words|
        invariant i == old(i) && i + k <= |toks|
        invariant StartsWith(Ahead(), words[..k])
      {
        if i + k >= |toks| || !toks[i + k].lex.AWord? || Lower(toks[i + k].lex.word) != words[k] {
          assert i + k < |toks| ==> Ahead()[k] == toks[i + k];
          return false;
        }
        assert Ahead()[k] == toks[i + k];
      }
      assert words[..|words|] == words;
      i := i + |words|;
      return true;
    }

    method ReadSingleValue(field: string) returns (r: Result<QueryNode, SyntaxError>)
      requires Valid()
      modifies this
      ensures Agrees(r, SingleValue(field, old(Ahead()), end))
    {
      var value := Next();
      if value.None? || !(value.value.lex.AWord? || value.value.lex.APhrase?) {
        return Err(SyntaxError(PosOf(value)));
      }
      return Ok(ValueNode(field, value.value.lex));
    }

    ghost predicate AgreesOnValues(r: Result<seq<QueryNode>, SyntaxError>, v: AValues)
      reads this
    {
      match v
      case AValuesFail(position) => r == Err(SyntaxError(position))
      case AValues(nodes, rest) => r == Ok(nodes) && Valid() && Ahead() == rest
    }

    method ReadValueList(field: string) returns (r: Result<seq<QueryNode>, SyntaxError>)
      requires Valid()
      modifies this
      ensures AgreesOnValues(r, ListValues(field, old(Ahead()), end))
    {
      var open := Next();
      if open.None? || !open.value.lex.ALParen? {
        return Err(SyntaxError(PosOf(open)));
      }
      ghost var whole := MoreValues(field, open.value.pos, [], Ahead(), end);
      var nodes: seq<QueryNode> := [];
      while true
        invariant Valid()
        invariant whole == MoreValues(field, open.value.pos, nodes, Ahead(), end)
        decreases |toks| - i
      {
        if i < |toks| && toks[i].lex.ARParen? {
          i := i + 1;
          break;
        }
        var value := Next();
        if value.None? || !(value.value.lex.AWord? || value.value.lex.APhrase?) {
          return Err(SyntaxError(PosOf(value)));
        }
        nodes := nodes + [ValueNode(field, value.value.lex)];
        var sep := Peek();
        if sep.Some? && sep.value.lex.AComma? {
          i := i + 1;
          continue;
        }
        if sep.Some? && sep.value.lex.ARParen? {
          i := i + 1;
          break;
        }
        return Err(SyntaxError(PosOf(sep)));
      }
      if |nodes| == 0 {
        return Err(SyntaxError(open.value.pos));
      }
      return Ok(nodes);
    }

    method ReadListOf(op: BoolOp, negated: bool, field: string) returns (r: Result<QueryNode, SyntaxError>)
      requires Valid()
      modifies this
      ensures Agrees(r, ListOf(op, negated, field, old(Ahead()), end))
    {
      var nodes := ReadValueList(field);
      if nodes.Err? {
        return Err(nodes.error);
      }
      return Ok(if negated then QueryNode.Not(Combine(op, nodes.value)) else Combine(op, nodes.value));
    }

    method ReadNegatedValue(field: string) returns (r: Result<QueryNode, SyntaxError>)
      requires Valid()
      modifies this
      ensures Agrees(r, Negated(SingleValue(field, old(Ahead()), end)))
    {
      var value := ReadSingleValue(field);
      return if value.Err? then value else Ok(QueryNode.Not(value.value));
    }

    method ReadAfterContains(field: string) returns (r: Result<QueryNode, SyntaxError>)
      requires Valid()
      modifies this
      ensures Agrees(r, AfterContains(field, old(Ahead()), end))
    {
      var any := TryKeywords(["any", "of"]);
      if any { r := ReadListOf(OrOp, false, field); return; }
      var all := TryKeywords(["all", "of"]);
      if all { r := ReadListOf(AndOp, false, field); return; }
      var none := TryKeywords(["none", "of"]);
      if none { r := ReadListOf(OrOp, true, field); return; }
      r := ReadSingleValue(field);
    }

    method ReadAfterIs(field: string) returns (r: Result<QueryNode, SyntaxError>)
      requires Valid()
      modifies this
      ensures Agrees(r, AfterIs(field, old(Ahead()), end))
    {
      var any := TryKeywords(["any", "of"]);
      if any { r := ReadListOf(OrOp, false, field); return; }
      var all := TryKeywords(["all", "of"]);
      if all { r := ReadListOf(AndOp, false, field); return; }
      var none := TryKeywords(["none", "of"]);
      if none { r := ReadListOf(OrOp, true, field); return; }
      var notAll := TryKeywords(["not", "all", "of"]);
      if notAll { r := ReadListOf(AndOp, true, field); return; }
      var not := TryKeywords(["not"]);
      if not { r := ReadNegatedValue(field); return; }
      r := ReadSingleValue(field);
    }

    method ReadAfterParameter(f: ResolvedField, name: nat) returns (r: Result<QueryNode, SyntaxError>)
      requires Valid()
      modifies this
      ensures Agrees(r, AfterParameter(f, name, old(Ahead()), end))
    {
      var family, field := OperatorFamily(f.fieldType), f.name;
      ghost var ts := Ahead();
      var exist := TryKeywords(["exists"]);
      if exist { return Ok(Exists(field)); }
      var absent := TryKeywords(["does", "not", "exist"]);
      if absent { return Ok(QueryNode.Not(Exists(field))); }
      var lacks := TryKeywords(["does", "not", "contain"]);
      if lacks {
        if family != ContainsFamily { return Err(SyntaxError(name)); }
        var any := TryKeywords(["any", "of"]);
        if any {
          assert ts[3..][2..] == ts[5..];
          r := ReadListOf(OrOp, true, field);
          return;
        }
        r := ReadNegatedValue(field);
        return;
      }
      r := ReadAtOperator(family, field, name);
    }

    method ReadAtOperator(family: Family, field: string, name: nat) returns (r: Result<QueryNode, SyntaxError>)
      requires Valid()
      modifies this
      ensures Agrees(r, AtOperator(family, field, name, old(Ahead()), end))
    {
      var opTok := Peek();
      if opTok.Some? && opTok.value.lex.AWord? && Lower(opTok.value.lex.word) == "contains" {
        i := i + 1;
        if family != ContainsFamily { return Err(SyntaxError(name)); }
        r := ReadAfterContains(field);
        return;
      }
      if opTok.Some? && opTok.value.lex.AWord? && Lower(opTok.value.lex.word) == "is" {
        i := i + 1;
        if family != IsFamily { return Err(SyntaxError(name)); }
        r := ReadAfterIs(field);
        return;
      }
      if opTok.Some? && opTok.value.lex.AOp? {
        i := i + 1;
        if family != CompareFamily { return Err(SyntaxError(opTok.value.pos)); }
        var value := Next();
        if value.None? || !(value.value.lex.AWord? || value.value.lex.APhrase?) {
          return Err(SyntaxError(PosOf(value)));
        }
        return Ok(AComparisonNode(field, opTok.value.lex.op, value.value.lex));
      }
      return Err(SyntaxError(PosOf(opTok)));
    }

    method ReadCondition() returns (r: Result<QueryNode, SyntaxError>)
      requires Valid()
      modifies this
      ensures Agrees(r, AParseCondition(registry, old(Ahead()), end))
    {
      var nameTok := Next();
      if nameTok.None? || !nameTok.value.lex.AWord? {
        return Err(SyntaxError(PosOf(nameTok)));
      }
      if IsKeywordWord(nameTok.value.lex.word) {
        return Err(SyntaxError(nameTok.value.pos));
      }
      var param := ResolveParameter(registry, nameTok.value.lex.word);
      if param.None? {
        return Err(SyntaxError(nameTok.value.pos));
      }
      r := ReadAfterParameter(param.value, nameTok.value.pos);
    }

    method ReadOr() returns (r: Result<QueryNode, SyntaxError>)
      requires Valid()
      modifies this
      ensures Agrees(r, AParseOr(registry, old(Ahead()), end))
      decreases |toks| - i, 2
    {
      ghost var start := i;
      ghost var whole := AParseOr(registry, Ahead(), end);
      var first := ReadAnd();
      if first.Err? { return first; }
      var children := [first.value];
      while i < |toks| && toks[i].lex.AWord? && Lower(toks[i].lex.word) == "or"
        invariant Valid() && start < i && children != []
        invariant whole == AMoreOr(registry, children, Ahead(), end)
        decreases |toks| - i
      {
        i := i + 1;
        var child := ReadAnd();
        if child.Err? { return child; }
        children := children + [child.value];
      }
      return Ok(Combine(OrOp, children));
    }

    method ReadAnd() returns (r: Result<QueryNode, SyntaxError>)
      requires Valid()
      modifies this
      ensures Agrees(r, AParseAnd(registry, old(Ahead()), end))
      decreases |toks| - i, 1
    {
      ghost var start := i;
      ghost var whole := AParseAnd(registry, Ahead(), end);
      var first := ReadUnary();
      if first.Err? { return first; }
      var children := [first.value];
      while i < |toks| && toks[i].lex.AWord? && Lower(toks[i].lex.word) == "and"
        invariant Valid() && start < i && children != []
        invariant whole == AMoreAnd(registry, children, Ahead(), end)
        decreases |toks| - i
      {
        i := i + 1;
        var child := ReadUnary();
        if child.Err? { return child; }
        children := children + [child.value];
      }
      return Ok(Combine(AndOp, children));
    }

    method ReadUnary() returns (r: Result<QueryNode, SyntaxError>)
      requires Valid()
      modifies this
      ensures Agrees(r, AParseUnary(registry, old(Ahead()), end))
      decreases |toks| - i, 0
    {
      var t := Peek();
      if t.Some? && t.value.lex.AWord? && Lower(t.value.lex.word) == "not" {
        i := i + 1;
        var child := ReadUnary();
        return if child.Err? then child else Ok(QueryNode.Not(child.value));
      }
      if t.Some? && t.value.lex.ALParen? {
        i := i + 1;
        var inner := ReadOr();
        if inner.Err? { return inner; }
        var close := Next();
        if close.None? || !close.value.lex.ARParen? { return Err(SyntaxError(PosOf(close))); }
        return inner;
      }
      r := ReadCondition();
    }

    method Parse() returns (r: Result<QueryNode, SyntaxError>)
      requires Valid() && i == 0
      modifies this
      ensures r == AParseTokens(registry, toks, end)
    {
      assert Ahead() == toks;
      if |toks| == 0 { return Ok(MatchAll); }
      var node := ReadOr();
      if node.Err? { return node; }
      var trailing := Peek();
      if trailing.Some? { return Err(SyntaxError(trailing.value.pos)); }
      return node;
    }
  }

  method ParseAdvancedQuery(input: string, registry: Registry) returns (r: Result<QueryNode, SyntaxError>)
    ensures r == AParseText(registry, input)
  {
    var toks := ATokenize(input);
    if toks.Err? { return Err(toks.error); }
    var parser := new AdvancedParser(toks.value, |input|, registry);
    r := parser.Parse();
  }
}
