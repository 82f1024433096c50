// The typed query trees: packages/search/src/parser.ts:12-55 (parsed) and
// packages/search/src/validate.ts:39-59 (validated).
module SearchAst {
  import opened Wrappers
  import opened SearchFields

  datatype BoolOp = AndOp | OrOp

  datatype Bounds<T> = Bounds(gte: Option<T>, lte: Option<T>, gt: Option<T>, lt: Option<T>)

  datatype QueryNode =
    | Group(op: BoolOp, children: seq<QueryNode>)
    | Not(child: QueryNode)
    | Term(field: Option<string>, value: string, fuzzy: Option<nat>)
    | Phrase(field: Option<string>, value: string, proximity: Option<nat>)
    | Wildcard(field: Option<string>, value: string)
    | Range(rangeField: string, bounds: Bounds<string>)
    | Exists(existsField: string)
    | MatchAll

  datatype TermValue = Str(text: string) | Num(number: int) | Flag(flag: bool)

  datatype ValidatedNode =
    | VGroup(op: BoolOp, children: seq<ValidatedNode>)
    | VNot(child: ValidatedNode)
    | VTerm(field: ResolvedField, term: TermValue, fuzzy: Option<nat>)
    | VPhrase(field: ResolvedField, phrase: string, proximity: Option<nat>)
    | VWildcard(field: ResolvedField, pattern: string)
    | VRange(field: ResolvedField, limits: Bounds<TermValue>)
    | VExists(field: ResolvedField)
    | VMatchAll

  function Unbounded<T>(): Bounds<T> {
    Bounds(None, None, None, None)
  }

  function WholeText(v: TermValue): string {
    match v
    case Str(s) => s
    case Num(_) => ""
    case Flag(b) => if b then "true" else "false"
  }

  // Groups as both front ends build them: never fewer than two operands.
  predicate WideGroups(q: QueryNode) {
    match q
    case Group(_, children) => |children| >= 2 && forall c | c in children :: WideGroups(c)
    case Not(child) => WideGroups(child)
    case _ => true
  }
}
