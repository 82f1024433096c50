// packages/search/src/lexer.ts: the tokenizer of the query language.
module SearchLexer {
  import opened Wrappers
  import opened Text

  datatype ComparisonOp = GreaterEq | LessEq | Greater | Less | Equal

  datatype Lexeme =
    | LParen | RParen | LBracket | RBracket | Colon | AndWord | OrWord | NotWord
    | Op(op: ComparisonOp)
    | PhraseText(phrase: string, proximity: Option<nat>)
    | Word(word: string, fuzzy: Option<nat>)

  datatype Token = Token(lex: Lexeme, pos: nat)

  // The position a QuerySyntaxError carries.
  datatype SyntaxError = SyntaxError(position: nat)

  const DEFAULT_FUZZY_EDITS: nat := 2

  // JavaScript's \s on the characters of the Basic Multilingual Plane.
  predicate IsSpace(c: char) {
    || c in {' ', '\t', '\n', '\r', '\U{b}', '\U{c}', '\U{a0}', '\U{1680}', '\U{2028}', '\U{2029}', '\U{202f}', '\U{205f}',
             '\U{3000}', '\U{feff}'}
    || '\U{2000}' <= c <= '\U{200a}'
  }

  predicate IsBreak(c: char) {
    c in {'(', ')', '[', ']', ':', '\"', '<', '>', '=', '&', '|'}
  }

  // /(T\d{2}|:\d{2})$/: the word so far ends inside an ISO time.
  predicate EndsInTime(w: string) {
    |w| >= 3 && w[|w| - 3] in {'T', ':'} && IsDigit(w[|w| - 2]) && IsDigit(w[|w| - 1])
  }

  // ----- what the tokenizer computes, on the rest of the input -----

  // Digits at the front of s: readNumber.
  function DigitRun(s: string): (n: nat)
    ensures n <= |s| && AllDigits(s[..n])
    ensures n < |s| ==> !IsDigit(s[n])
  {
    if s == [] || !IsDigit(s[0]) then 0 else
      assert s[..1 + DigitRun(s[1..])] == [s[0]] + s[1..][..DigitRun(s[1..])];
      1 + DigitRun(s[1..])
  }

  // The text of a phrase and the characters it takes, closing quote included.
  function PhraseBody(s: string): (r: Option<(string, nat)>)
    ensures r.Some? ==> 0 < r.value.1 <= |s|
  {
    if s == [] then None
    else if s[0] == '\\' then
      if |s| > 1 && (s[1] == '\"' || s[1] == '\\') then Grow([s[1]], 2, PhraseBody(s[2..]))
      else Grow(['\\'], 1, PhraseBody(s[1..]))
    else if s[0] == '\"' then Some(("", 1))
    else Grow([s[0]], 1, PhraseBody(s[1..]))
  }

  function Grow(front: string, taken: nat, r: Option<(string, nat)>): Option<(string, nat)> {
    match r
    case None => None
    case Some((value, n)) => Some((front + value, taken + n))
  }

  // Where a bare word whose first k characters are read ends.
  function WordEnd(s: string, k: nat): (n: nat)
    requires k <= |s|
    ensures k <= n <= |s|
    decreases |s| - k
  {
    if k == |s| then k
    else if s[k] == ':' && EndsInTime(s[..k]) then WordEnd(s, k + 1)
    else if IsSpace(s[k]) || IsBreak(s[k]) then k
    else WordEnd(s, k + 1)
  }

  function LastTilde(w: string): (i: int)
    ensures -1 <= i < |w|
    ensures i >= 0 ==> w[i] == '~'
    ensures forall j :: i < j < |w| ==> w[j] != '~'
  {
    if w == [] then -1 else if w[|w| - 1] == '~' then |w| - 1 else LastTilde(w[..|w| - 1])
  }

  // What one token at the front of s is, and its length; Bad carries the offset reported.
  datatype Scan = Lexed(lex: Lexeme, length: nat) | Bad(offset: nat)

  function ClassifyWord(w: string): Option<Lexeme> {
    if w == "AND" then Some(AndWord)
    else if w == "OR" then Some(OrWord)
    else if w == "NOT" then Some(NotWord)
    else
      var t := LastTilde(w);
      if t < 0 then Some(Word(w, None))
      else if !AllDigits(w[t + 1..]) then None                  // a tilde inside the word
      else if t == 0 || '~' in w[..t] then None                 // nothing before it, or two of them
      else Some(Word(w[..t], Some(if t + 1 == |w| then DEFAULT_FUZZY_EDITS else ParseNat(w[t + 1..]))))
  }

  function ScanPhrase(s: string): (r: Scan)
    requires s != [] && s[0] == '\"'
    ensures r.Lexed? ==> 0 < r.length <= |s|
  {
    match PhraseBody(s[1..])
    case None => Bad(0)
    case Some((value, n)) =>
      if 1 + n < |s| && s[1 + n] == '~' then
        var d := DigitRun(s[2 + n..]);
        if d == 0 then Bad(1 + n)
        else Lexed(PhraseText(value, Some(ParseNat(s[2 + n..][..d]))), 2 + n + d)
      else Lexed(PhraseText(value, None), 1 + n)
  }

  function ScanOne(s: string): (r: Scan)
    requires s != [] && !IsSpace(s[0])
    ensures r.Lexed? ==> 0 < r.length <= |s|
  {
    var second := |s| > 1;
    match s[0]
    case '(' => Lexed(LParen, 1)
    case ')' => Lexed(RParen, 1)
    case '[' => Lexed(LBracket, 1)
    case ']' => Lexed(RBracket, 1)
    case ':' => Lexed(Colon, 1)
    case '&' => if second && s[1] == '&' then Lexed(AndWord, 2) else Bad(0)
    case '|' => if second && s[1] == '|' then Lexed(OrWord, 2) else Bad(0)
    case '>' => if second && s[1] == '=' then Lexed(Op(GreaterEq), 2) else Lexed(Op(Greater), 1)
    case '<' => if second && s[1] == '=' then Lexed(Op(LessEq), 2) else Lexed(Op(Less), 1)
    case '=' => Lexed(Op(Equal), 1)
    case '\"' => ScanPhrase(s)
    case _ =>
      assert WordEnd(s, 0) == WordEnd(s, 1) by { assert s[..0] == []; }
      match ClassifyWord(s[..WordEnd(s, 0)])
      case None => Bad(0)
      case Some(lex) => Lexed(lex, WordEnd(s, 0))
  }

  // All tokens of s, whose first character is at position `at` of the input.
  function Tokens(s: string, at: nat): Result<seq<Token>, SyntaxError> {
    if s == [] then Ok([])
    else if IsSpace(s[0]) then Tokens(s[1..], at + 1)
    else
      match ScanOne(s)
      case Bad(offset) => Err(SyntaxError(at + offset))
      case Lexed(lex, n) => Prepend([Token(lex, at)], Tokens(s[n..], at + n))
  }

  function Prepend(front: seq<Token>, r: Result<seq<Token>, SyntaxError>): Result<seq<Token>, SyntaxError> {
    match r
    case Ok(ts) => Ok(front + ts)
    case Err(e) => Err(e)
  }

  // ----- the tokenizer -----

  method ReadNumber(input: string, start: nat) returns (r: Option<(nat, nat)>)
    requires start <= |input|
    ensures var d := DigitRun(input[start..]);
            r == if d == 0 then None else Some((ParseNat(input[start..][..d]), start + d))
  {
    var end := start;
    while end < |input| && IsDigit(input[end])
      invariant start <= end <= |input|
      invariant DigitRun(input[start..]) == end - start + DigitRun(input[end..])
    {
      assert input[end..][1..] == input[end + 1..];
      end := end + 1;
    }
    var d := DigitRun(input[start..]);
    assert input[start..end] == input[start..][..d];
    r := if end == start then None else Some((ParseNat(input[start..end]), end));
  }

  // The loop over a phrase whose text starts at `from`, up to and including the closing quote.
  method ReadPhraseText(input: string, from: nat) returns (closed: bool, value: string, i: nat)
    requires from <= |input|
    ensures from <= i <= |input|
    ensures PhraseBody(input[from..]) == if closed then Some((value, i - from)) else None
  {
    i, value, closed := from, "", false;
    ghost var whole := PhraseBody(input[from..]);
    GrowNothing(whole);
    while i < |input|
      invariant from <= i <= |input|
      invariant whole == Grow(value, i - from, PhraseBody(input[i..]))
    {
      var c, rest, at := input[i], input[i..], i - from;
      if c == '\\' {
        if i + 1 < |input| && (input[i + 1] == '\"' || input[i + 1] == '\\') {
          assert rest[2..] == input[i + 2..];
          GrowTwice(value, at, [input[i + 1]], 2, PhraseBody(input[i + 2..]));
          value := value + [input[i + 1]];
          i := i + 2;
          continue;
        }
        assert rest[1..] == input[i + 1..];
        GrowTwice(value, at, [c], 1, PhraseBody(input[i + 1..]));
        value := value + [c];
        i := i + 1;
        continue;
      }
      if c == '\"' {
        assert value + "" == value;
        return true, value, i + 1;
      }
      assert rest[1..] == input[i + 1..];
      GrowTwice(value, at, [c], 1, PhraseBody(input[i + 1..]));
      value := value + [c];
      i := i + 1;
    }
  }

  method ReadPhrase(input: string, start: nat) returns (r: Result<(Lexeme, nat), SyntaxError>)
    requires start < |input| && input[start] == '\"'
    ensures match ScanPhrase(input[start..])
            case Bad(offset) => r == Err(SyntaxError(start + offset))
            case Lexed(lex, n) => r == Ok((lex, start + n))
  {
    hide PhraseBody, DigitRun, ParseNat;
    assert input[start..][1..] == input[start + 1..];
    var closed, value, i := ReadPhraseText(input, start + 1);
    if !closed {
      return Err(SyntaxError(start));
    }
    if i < |input| && input[i] == '~' {
      assert input[start..][i + 1 - start..] == input[i + 1..];
      var num := ReadNumber(input, i + 1);
      if num.None? {
        return Err(SyntaxError(i));
      }
      return Ok((PhraseText(value, Some(num.value.0)), num.value.1));
    }
    return Ok((PhraseText(value, None), i));
  }

  lemma GrowTwice(a: string, m: nat, b: string, n: nat, r: Option<(string, nat)>)
    ensures Grow(a, m, Grow(b, n, r)) == Grow(a + b, m + n, r)
  {
    if r.Some? {
      assert a + (b + r.value.0) == (a + b) + r.value.0;
    }
  }

  lemma GrowNothing(r: Option<(string, nat)>)
    ensures Grow("", 0, r) == r
  {
    if r.Some? {
      assert "" + r.value.0 == r.value.0;
    }
  }

  method ReadWord(input: string, start: nat) returns (word: string, i: nat)
    requires start <= |input|
    ensures i == start + WordEnd(input[start..], 0) && word == input[start..i]
  {
    i, word := start, "";
    var s := input[start..];
    while i < |input|
      invariant start <= i <= |input|
      invariant word == input[start..i] == s[..i - start]
      invariant WordEnd(s, 0) == WordEnd(s, i - start)
    {
      var c := input[i];
      if c == ':' && EndsInTime(word) {
      } else if IsSpace(c) || IsBreak(c) {
        break;
      }
      word := word + [c];
      i := i + 1;
    }
  }

  // One pass of the tokenizer's loop at a character that is not white space.
  method ReadToken(input: string, i: nat) returns (r: Result<(Lexeme, nat), SyntaxError>)
    requires i < |input| && !IsSpace(input[i])
    ensures match ScanOne(input[i..])
            case Bad(offset) => r == Err(SyntaxError(i + offset))
            case Lexed(lex, n) => r == Ok((lex, i + n))
  {
    var rest := input[i..];
    var second := i + 1 < |input|;
    assert second ==> rest[1] == input[i + 1];
    match input[i] {
      case '(' => return Ok((LParen, i + 1));
      case ')' => return Ok((RParen, i + 1));
      case '[' => return Ok((LBracket, i + 1));
      case ']' => return Ok((RBracket, i + 1));
      case ':' => return Ok((Colon, i + 1));
      case '&' =>
        if !(second && input[i + 1] == '&') { return Err(SyntaxError(i)); }
        return Ok((AndWord, i + 2));
      case '|' =>
        if !(second && input[i + 1] == '|') { return Err(SyntaxError(i)); }
        return Ok((OrWord, i + 2));
      case '>' =>
        if second && input[i + 1] == '=' { return Ok((Op(GreaterEq), i + 2)); }
        return Ok((Op(Greater), i + 1));
      case '<' =>
        if second && input[i + 1] == '=' { return Ok((Op(LessEq), i + 2)); }
        return Ok((Op(Less), i + 1));
      case '=' => return Ok((Op(Equal), i + 1));
      case '\"' => r := ReadPhrase(input, i);
      case _ =>
        var word, end := ReadWord(input, i);
        assert word == rest[..end - i];
        var kind := ClassifyWord(word);
        return if kind.None? then Err(SyntaxError(i)) else Ok((kind.value, end));
    }
  }

  method Tokenize(input: string) returns (r: Result<seq<Token>, SyntaxError>)
    ensures r == Tokens(input, 0)
  {
    var tokens: seq<Token> := [];
    var i := 0;
    assert input[0..] == input;
    PrependNothing(Tokens(input, 0));
    while i < |input|
      invariant 0 <= i <= |input|
      invariant Tokens(input, 0) == Prepend(tokens, Tokens(input[i..], i))
    {
      if IsSpace(input[i]) {
        assert input[i..][1..] == input[i + 1..];
        i := i + 1;
        continue;
      }
      var one := ReadToken(input, i);
      if one.Err? {
        return Err(one.error);
      }
      var end := one.value.1;
      assert input[i..][end - i..] == input[end..];
      PrependTwice(tokens, [Token(one.value.0, i)], Tokens(input[end..], end));
      tokens := tokens + [Token(one.value.0, i)];
      i := end;
    }
    assert tokens + [] == tokens;
    return Ok(tokens);
  }

  lemma PrependTwice(a: seq<Token>, b: seq<Token>, r: Result<seq<Token>, SyntaxError>)
    ensures Prepend(a, Prepend(b, r)) == Prepend(a + b, r)
  {
    if r.Ok? {
      assert a + (b + r.value) == (a + b) + r.value;
    }
  }

  lemma PrependNothing(r: Result<seq<Token>, SyntaxError>)
    ensures Prepend([], r) == r
  {
    if r.Ok? {
      assert [] + r.value == r.value;
    }
  }
}
