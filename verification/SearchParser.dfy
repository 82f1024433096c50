// packages/search/src/parser.ts: the recursive-descent parser over tokens.
// Precedence: NOT > AND (written or by adjacency) > OR.
module SearchParser {
  import opened Wrappers
  import opened Text
  import opened SearchAst
  import opened SearchLexer

  // ----- leaves -----

  predicate HasWildcard(value: string) {
    '*' in value || '?' in value
  }

  function WordNode(value: string, fuzzy: Option<nat>, field: Option<string>): QueryNode {
    if fuzzy.Some? then Term(field, value, fuzzy)
    else if HasWildcard(value) then Wildcard(field, value)
    else Term(field, value, None)
  }

  // ----- what the parser computes, on the tokens still ahead -----

  datatype Parse = Parsed(node: QueryNode, rest: seq<Token>) | Fail(position: nat)

  function FailAt(ts: seq<Token>, end: nat): Parse {
    Fail(if ts == [] then end else ts[0].pos)
  }

  function Collapse(op: BoolOp, children: seq<QueryNode>): QueryNode {
    if |children| == 1 then children[0] else Group(op, children)
  }

  // Tokens that start another operand by adjacency.
  predicate StartsOperand(lex: Lexeme) {
    lex.Word? || lex.PhraseText? || lex.LParen? || lex.NotWord?
  }

  function ParseOr(ts: seq<Token>, end: nat): (r: Parse)
    ensures r.Parsed? ==> |r.rest| < |ts|
    decreases |ts|, 5
  {
    match ParseAnd(ts, end)
    case Fail(p) => Fail(p)
    case Parsed(first, rest) => MoreOr([first], rest, end)
  }

  function MoreOr(children: seq<QueryNode>, ts: seq<Token>, end: nat): (r: Parse)
    requires children != []
    ensures r.Parsed? ==> |r.rest| <= |ts|
    decreases |ts|, 4
  {
    if ts != [] && ts[0].lex.OrWord? then
      match ParseAnd(ts[1..], end)
      case Fail(p) => Fail(p)
      case Parsed(next, rest) => MoreOr(children + [next], rest, end)
    else
      Parsed(Collapse(OrOp, children), ts)
  }

  function ParseAnd(ts: seq<Token>, end: nat): (r: Parse)
    ensures r.Parsed? ==> |r.rest| < |ts|
    decreases |ts|, 3
  {
    match ParseNot(ts, end)
    case Fail(p) => Fail(p)
    case Parsed(first, rest) => MoreAnd([first], rest, end)
  }

  function MoreAnd(children: seq<QueryNode>, ts: seq<Token>, end: nat): (r: Parse)
    requires children != []
    ensures r.Parsed? ==> |r.rest| <= |ts|
    decreases |ts|, 2
  {
    if ts != [] && (ts[0].lex.AndWord? || StartsOperand(ts[0].lex)) then
      match ParseNot(if ts[0].lex.AndWord? then ts[1..] else ts, end)
      case Fail(p) => Fail(p)
      case Parsed(next, rest) => MoreAnd(children + [next], rest, end)
    else
      Parsed(Collapse(AndOp, children), ts)
  }

  function ParseNot(ts: seq<Token>, end: nat): (r: Parse)
    ensures r.Parsed? ==> |r.rest| < |ts|
    decreases |ts|, 1
  {
    if ts != [] && ts[0].lex.NotWord? then
      match ParseNot(ts[1..], end)
      case Fail(p) => Fail(p)
      case Parsed(child, rest) => Parsed(Not(child), rest)
    else
      ParsePrimary(ts, end)
  }

  function ParsePrimary(ts: seq<Token>, end: nat): (r: Parse)
    ensures r.Parsed? ==> |r.rest| < |ts|
    decreases |ts|, 0
  {
    if ts == [] then Fail(end)
    else
      match ts[0].lex
      case LParen =>
        (match ParseOr(ts[1..], end)
         case Fail(p) => Fail(p)
         case Parsed(inner, rest) =>
           if rest != [] && rest[0].lex.RParen? then Parsed(inner, rest[1..]) else FailAt(rest, end))
      case PhraseText(value, proximity) => Parsed(Phrase(None, value, proximity), ts[1..])
      case Word(value, fuzzy) =>
        if |ts| > 1 && ts[1].lex.Colon? then ParseFieldValue(Lower(value), ts[2..], end)
        else if |ts| > 1 && ts[1].lex.Op? then ParseComparison(Lower(value), ts[1].lex.op, ts[2..], end)
        else Parsed(WordNode(value, fuzzy, None), ts[1..])
      case _ => Fail(ts[0].pos)
  }

  function ParseFieldValue(field: string, ts: seq<Token>, end: nat): (r: Parse)
    ensures r.Parsed? ==> |r.rest| < |ts|
  {
    if ts == [] then Fail(end)
    else
      match ts[0].lex
      case PhraseText(value, proximity) => Parsed(Phrase(Some(field), value, proximity), ts[1..])
      case LBracket => ParseBracketRange(field, ts[0].pos, ts[1..], end)
      case Word(value, fuzzy) =>
        if value == "*" && fuzzy.None? then Parsed(Exists(field), ts[1..])
        else Parsed(WordNode(value, fuzzy, Some(field)), ts[1..])
      case _ => Fail(ts[0].pos)
  }

  function BracketBound(value: string): Option<string> {
    if value == "*" then None else Some(value)
  }

  function ParseBracketRange(field: string, open: nat, ts: seq<Token>, end: nat): (r: Parse)
    ensures r.Parsed? ==> |r.rest| < |ts|
  {
    if ts == [] || !ts[0].lex.Word? then FailAt(ts, end)
    else if |ts| < 2 || !ts[1].lex.Word? then FailAt(ts[1..], end)
    else if ts[1].lex.word != "TO" then FailAt(ts[1..], end)
    else if |ts| < 3 || !ts[2].lex.Word? then FailAt(ts[2..], end)
    else if |ts| < 4 || !ts[3].lex.RBracket? then FailAt(ts[3..], end)
    else
      var gte, lte := BracketBound(ts[0].lex.word), BracketBound(ts[2].lex.word);
      if gte.None? && lte.None? then Fail(open)
      else Parsed(Range(field, Bounds(gte, lte, None, None)), ts[4..])
  }

  function ComparisonNode(field: string, op: ComparisonOp, value: string, fuzzy: Option<nat>): QueryNode {
    match op
    case GreaterEq => Range(field, Unbounded<string>().(gte := Some(value)))
    case LessEq => Range(field, Unbounded<string>().(lte := Some(value)))
    case Greater => Range(field, Unbounded<string>().(gt := Some(value)))
    case Less => Range(field, Unbounded<string>().(lt := Some(value)))
    case Equal => WordNode(value, fuzzy, Some(field))
  }

  function ParseComparison(field: string, op: ComparisonOp, ts: seq<Token>, end: nat): (r: Parse)
    ensures r.Parsed? ==> |r.rest| < |ts|
  {
    if ts == [] || !ts[0].lex.Word? then FailAt(ts, end)
    else Parsed(ComparisonNode(field, op, ts[0].lex.word, ts[0].lex.fuzzy), ts[1..])
  }

  function ParseTokens(ts: seq<Token>, end: nat): Result<QueryNode, SyntaxError> {
    if ts == [] then Ok(MatchAll)
    else
      match ParseOr(ts, end)
      case Fail(p) => Err(SyntaxError(p))
      case Parsed(node, rest) => if rest == [] then Ok(node) else Err(SyntaxError(rest[0].pos))
  }

  function ParseText(input: string): Result<QueryNode, SyntaxError> {
    match Tokens(input, 0)
    case Err(e) => Err(e)
    case Ok(ts) => ParseTokens(ts, |input|)
  }

  // ----- the parser -----

  class Parser {
    const tokens: seq<Token>
    const inputLength: nat
    var i: nat

    constructor (tokens: seq<Token>, inputLength: nat)
      ensures this.tokens == tokens && this.inputLength == inputLength && i == 0
    {
      this.tokens, this.inputLength, i := tokens, inputLength, 0;
    }

    ghost predicate Valid()
      reads this
    {
      i <= |tokens|
    }

    function Ahead(): seq<Token>
      requires Valid()
      reads this
    {
      tokens[i..]
    }

    // The cursor stands where the specification says, or the error is the one it names.
    ghost predicate Agrees(r: Result<QueryNode, SyntaxError>, p: Parse)
      reads this
    {
      match p
      case Fail(position) => r == Err(SyntaxError(position))
      case Parsed(node, rest) => r == Ok(node) && Valid() && Ahead() == rest
    }

    function Peek(): (t: Option<Token>)
      requires Valid()
      reads this
      ensures t == if Ahead() == [] then None else Some(Ahead()[0])
    {
      if i < |tokens| then Some(tokens[i]) else None
    }

    method Next() returns (t: Option<Token>)
      requires Valid()
      modifies this
      ensures t == if old(Ahead()) == [] then None else Some(old(Ahead())[0])
      ensures t.Some? ==> Valid() && Ahead() == old(Ahead())[1..] && i == old(i) + 1
    {
      t := if i < |tokens| then Some(tokens[i]) else None;
      i := i + 1;
    }

    function ErrorAt(t: Option<Token>): SyntaxError {
      SyntaxError(if t.Some? then t.value.pos else inputLength)
    }

    method Parse() returns (r: Result<QueryNode, SyntaxError>)
      requires Valid() && i == 0
      modifies this
      ensures r == ParseTokens(tokens, inputLength)
    {
      assert Ahead() == tokens;
      if |tokens| == 0 {
        return Ok(MatchAll);
      }
      var node := ReadOr();
      if node.Err? {
        return node;
      }
      var trailing := Peek();
      if trailing.Some? {
        return Err(ErrorAt(trailing));
      }
      return node;
    }

    method ReadOr() returns (r: Result<QueryNode, SyntaxError>)
      requires Valid()
      modifies this
      ensures Agrees(r, ParseOr(old(Ahead()), inputLength))
      decreases |tokens| - i, 3
    {
      ghost var start := i;
      ghost var whole := ParseOr(Ahead(), inputLength);
      var first := ReadAnd();
      if first.Err? {
        return first;
      }
      var children := [first.value];
      while i < |tokens| && tokens[i].lex.OrWord?
        invariant Valid() && start < i && children != []
        invariant whole == MoreOr(children, Ahead(), inputLength)
        decreases |tokens| - i
      {
        i := i + 1;
        var child := ReadAnd();
        if child.Err? {
          return child;
        }
        children := children + [child.value];
      }
      return Ok(Collapse(OrOp, children));
    }

    method ReadAnd() returns (r: Result<QueryNode, SyntaxError>)
      requires Valid()
      modifies this
      ensures Agrees(r, ParseAnd(old(Ahead()), inputLength))
      decreases |tokens| - i, 2
    {
      ghost var start := i;
      ghost var whole := ParseAnd(Ahead(), inputLength);
      var first := ReadNot();
      if first.Err? {
        return first;
      }
      var children := [first.value];
      while i < |tokens| && (tokens[i].lex.AndWord? || StartsOperand(tokens[i].lex))
        invariant Valid() && start < i && children != []
        invariant whole == MoreAnd(children, Ahead(), inputLength)
        decreases |tokens| - i
      {
        if tokens[i].lex.AndWord? {
          i := i + 1;
        }
        var child := ReadNot();
        if child.Err? {
          return child;
        }
        children := children + [child.value];
      }
      return Ok(Collapse(AndOp, children));
    }

    method ReadNot() returns (r: Result<QueryNode, SyntaxError>)
      requires Valid()
      modifies this
      ensures Agrees(r, ParseNot(old(Ahead()), inputLength))
      decreases |tokens| - i, 1
    {
      var token := Peek();
      if token.Some? && token.value.lex.NotWord? {
        i := i + 1;
        var child := ReadNot();
        return if child.Err? then child else Ok(Not(child.value));
      }
      r := ReadPrimary();
    }

    method ReadPrimary() returns (r: Result<QueryNode, SyntaxError>)
      requires Valid()
      modifies this
      ensures Agrees(r, ParsePrimary(old(Ahead()), inputLength))
      decreases |tokens| - i, 0
    {
      var token := Next();
      if token.None? {
        return Err(ErrorAt(None));
      }
      match token.value.lex {
        case LParen =>
          var inner := ReadOr();
          if inner.Err? {
            return inner;
          }
          var close := Next();
          if close.None? || !close.value.lex.RParen? {
            return Err(ErrorAt(close));
          }
          return inner;
        case PhraseText(value, proximity) =>
          return Ok(Phrase(None, value, proximity));
        case Word(value, fuzzy) =>
          var following := Peek();
          if following.Some? && following.value.lex.Colon? {
            i := i + 1;
            r := ReadFieldValue(Lower(value));
          } else if following.Some? && following.value.lex.Op? {
            i := i + 1;
            r := ReadComparison(Lower(value), following.value.lex.op);
          } else {
            r := Ok(WordNode(value, fuzzy, None));
          }
        case _ =>
          return Err(ErrorAt(token));
      }
    }

    method ReadFieldValue(field: string) returns (r: Result<QueryNode, SyntaxError>)
      requires Valid()
      modifies this
      ensures Agrees(r, ParseFieldValue(field, old(Ahead()), inputLength))
    {
      var token := Next();
      if token.None? {
        return Err(ErrorAt(None));
      }
      match token.value.lex {
        case PhraseText(value, proximity) => return Ok(Phrase(Some(field), value, proximity));
        case LBracket => r := ReadBracketRange(field, token.value);
        case Word(value, fuzzy) =>
          if value == "*" && fuzzy.None? {
            return Ok(Exists(field));
          }
          return Ok(WordNode(value, fuzzy, Some(field)));
        case _ => return Err(ErrorAt(token));
      }
    }

    method ExpectWord() returns (r: Result<(string, Option<nat>, nat), SyntaxError>)
      requires Valid()
      modifies this
      ensures var ts := old(Ahead());
              if ts != [] && ts[0].lex.Word? then
                r == Ok((ts[0].lex.word, ts[0].lex.fuzzy, ts[0].pos)) && Valid() && Ahead() == ts[1..]
              else r == Err(SyntaxError(if ts == [] then inputLength else ts[0].pos))
    {
      var token := Next();
      if token.None? || !token.value.lex.Word? {
        return Err(ErrorAt(token));
      }
      return Ok((token.value.lex.word, token.value.lex.fuzzy, token.value.pos));
    }

    method ReadBracketRange(field: string, open: Token) returns (r: Result<QueryNode, SyntaxError>)
      requires Valid()
      modifies this
      ensures Agrees(r, ParseBracketRange(field, open.pos, old(Ahead()), inputLength))
    {
      var lower := ExpectWord();
      if lower.Err? { return Err(lower.error); }
      var to := ExpectWord();
      if to.Err? { return Err(to.error); }
      if to.value.0 != "TO" { return Err(SyntaxError(to.value.2)); }
      var upper := ExpectWord();
      if upper.Err? { return Err(upper.error); }
      var close := Next();
      if close.None? || !close.value.lex.RBracket? { return Err(ErrorAt(close)); }
      var bounds := Unbounded();
      if lower.value.0 != "*" { bounds := bounds.(gte := Some(lower.value.0)); }
      if upper.value.0 != "*" { bounds := bounds.(lte := Some(upper.value.0)); }
      if bounds.gte.None? && bounds.lte.None? { return Err(SyntaxError(open.pos)); }
      return Ok(Range(field, bounds));
    }

    method ReadComparison(field: string, op: ComparisonOp) returns (r: Result<QueryNode, SyntaxError>)
      requires Valid()
      modifies this
      ensures Agrees(r, ParseComparison(field, op, old(Ahead()), inputLength))
    {
      var value := ExpectWord();
      if value.Err? { return Err(value.error); }
      return Ok(ComparisonNode(field, op, value.value.0, value.value.1));
    }
  }

  method ParseQuery(input: string) returns (r: Result<QueryNode, SyntaxError>)
    ensures r == ParseText(input)
  {
    var tokens := Tokenize(input);
    if tokens.Err? {
      return Err(tokens.error);
    }
    var parser := new Parser(tokens.value, |input|);
    r := parser.Parse();
  }
}
