// packages/search/src/validate.ts: field resolution, cost limits and typed values.
module SearchValidate {
  import opened Wrappers
  import opened Text
  import opened SearchFields
  import opened SearchAst
  import opened SearchDocument
  import opened SearchMeaning
  import SearchLexer

  datatype CostLimits = CostLimits(
    maxClauses: nat, maxDepth: nat, minWildcardPrefix: nat, maxFuzzyEdits: nat, maxProximity: nat, maxPhraseTerms: nat)

  const DEFAULT_COST_LIMITS := CostLimits(64, 8, 3, 2, 50, 32)

  // parseDateValue and parseSizeValue: which literals are dates and sizes, and their normal form.
  datatype Literals = Literals(parseDate: string -> Option<string>, parseSize: string -> Option<int>)

  datatype Rules = Rules(defs: Registry, limits: CostLimits, literals: Literals)

  datatype Violation =
    | TooDeep | TooManyClauses(count: nat) | UnknownField(field: string)
    | EmptyValue | FuzzyUnsupported | FuzzyTooFar(edits: nat) | BadDate(raw: string) | BadSize(raw: string)
    | BadBoolean(raw: string) | BadHash(raw: string)
    | EmptyPhrase | PhraseUnsupported | PhraseTooLong(terms: nat) | ProximityTooFar(distance: nat)
    | WildcardUnsupported | LeadingWildcard | ShortPrefix
    | ExistsNeedsField | RangeUnsupported | NoBound

  // What a walk returns and the violations it adds on the way.
  datatype Verdict = Verdict(node: Option<ValidatedNode>, faults: seq<Violation>)

  function Valid(n: ValidatedNode): Verdict { Verdict(Some(n), []) }

  function Invalid(v: Violation): Verdict { Verdict(None, [v]) }

  // ----- leaf rules -----

  function ResolveOptional(r: Rules, name: Option<string>): Option<ResolvedField> {
    if name.Some? then Resolve(r.defs, name.value) else Some(DEFAULT_TEXT_FIELD)
  }

  function Unresolved(name: Option<string>): Verdict {
    Invalid(UnknownField(if name.Some? then name.value else ""))
  }

  predicate IsHashText(s: string) {
    6 <= |s| <= 64 && forall i :: 0 <= i < |s| ==> IsDigit(s[i]) || 'a' <= s[i] <= 'f'
  }

  // value.trim().split(/\s+/).length on a text that is not blank.
  function WordCount(s: string): nat {
    if s == "" then 0
    else (if !SearchLexer.IsSpace(s[|s| - 1]) && (|s| == 1 || SearchLexer.IsSpace(s[|s| - 2])) then 1 else 0)
         + WordCount(s[..|s| - 1])
  }

  predicate Blank(s: string) {
    forall i :: 0 <= i < |s| ==> SearchLexer.IsSpace(s[i])
  }

  function FirstWildcard(s: string): (r: Option<nat>)
    ensures r.None? <==> '*' !in s && '?' !in s
    ensures r.Some? ==> r.value < |s| && s[r.value] in {'*', '?'}
    ensures r.Some? ==> forall i :: 0 <= i < r.value ==> s[i] !in {'*', '?'}
  {
    if s == "" then None
    else if s[0] == '*' || s[0] == '?' then Some(0)
    else
      match FirstWildcard(s[1..])
      case None => None
      case Some(i) => Some(i + 1)
  }

  function TermVerdict(r: Rules, name: Option<string>, raw: string, fuzzy: Option<nat>): Verdict {
    match ResolveOptional(r, name)
    case None => Unresolved(name)
    case Some(f) =>
      if raw == "" then Invalid(EmptyValue)
      else if fuzzy.Some? && IsDateLike(f) then Invalid(FuzzyUnsupported)
      else if fuzzy.Some? && fuzzy.value > r.limits.maxFuzzyEdits then Invalid(FuzzyTooFar(fuzzy.value))
      else
        match f.fieldType
        case DateType =>
          (match r.literals.parseDate(raw)
           case None => Invalid(BadDate(raw))
           case Some(d) => Valid(VRange(f, Bounds(Some(Str(d)), Some(Str(d)), None, None))))
        case SizeType =>
          (match r.literals.parseSize(raw)
           case None => Invalid(BadSize(raw))
           case Some(bytes) => Valid(VTerm(f, Num(bytes), None)))
        case BooleanType =>
          if Lower(raw) != "true" && Lower(raw) != "false" then Invalid(BadBoolean(raw))
          else Valid(VTerm(f, Flag(Lower(raw) == "true"), None))
        case _ =>
          if !IsHashField(f.name) then Valid(VTerm(f, Str(raw), fuzzy))
          else if !IsHashText(Lower(raw)) then Invalid(BadHash(raw))
          else Valid(VTerm(f, Str(Lower(raw)), fuzzy))
  }

  function PhraseVerdict(r: Rules, name: Option<string>, value: string, proximity: Option<nat>): Verdict {
    match ResolveOptional(r, name)
    case None => Unresolved(name)
    case Some(f) =>
      if Blank(value) then Invalid(EmptyPhrase)
      else if IsDateLike(f) then Invalid(PhraseUnsupported)
      else if WordCount(value) > r.limits.maxPhraseTerms then Invalid(PhraseTooLong(WordCount(value)))
      else if proximity.Some? && proximity.value > r.limits.maxProximity then Invalid(ProximityTooFar(proximity.value))
      else Valid(VPhrase(f, value, proximity))
  }

  function WildcardVerdict(r: Rules, name: Option<string>, value: string): Verdict {
    match ResolveOptional(r, name)
    case None => Unresolved(name)
    case Some(f) =>
      var first := FirstWildcard(value);
      if IsDateLike(f) then Invalid(WildcardUnsupported)
      else if first == Some(0) then Invalid(LeadingWildcard)
      else if first.Some? && first.value < r.limits.minWildcardPrefix then Invalid(ShortPrefix)
      else Valid(VWildcard(f, value))
  }

  function ExistsVerdict(r: Rules, name: string): Verdict {
    match Resolve(r.defs, name)
    case None => Unresolved(Some(name))
    case Some(f) => if f.esPath == AllText && f.fieldType.TextType? then Invalid(ExistsNeedsField) else Valid(VExists(f))
  }

  // One bound of a range: absent, normalized, or a violation.
  function BoundValue(r: Rules, f: ResolvedField, raw: string): Option<TermValue> {
    if f.fieldType.DateType? then
      match r.literals.parseDate(raw) case None => None case Some(d) => Some(Str(d))
    else
      match r.literals.parseSize(raw) case None => None case Some(n) => Some(Num(n))
  }

  function BoundResult(r: Rules, f: ResolvedField, raw: Option<string>): Option<TermValue> {
    if raw.Some? then BoundValue(r, f, raw.value) else None
  }

  function BoundFaults(r: Rules, f: ResolvedField, raw: Option<string>): seq<Violation> {
    if raw.None? || BoundValue(r, f, raw.value).Some? then []
    else [if f.fieldType.DateType? then BadDate(raw.value) else BadSize(raw.value)]
  }

  function RangeVerdict(r: Rules, name: string, b: Bounds<string>): Verdict {
    match Resolve(r.defs, name)
    case None => Unresolved(Some(name))
    case Some(f) =>
      if !f.fieldType.DateType? && !f.fieldType.SizeType? then Invalid(RangeUnsupported)
      else
        var result := Bounds(BoundResult(r, f, b.gte), BoundResult(r, f, b.lte), BoundResult(r, f, b.gt), BoundResult(r, f, b.lt));
        var faults := BoundFaults(r, f, b.gte) + BoundFaults(r, f, b.lte) + BoundFaults(r, f, b.gt) + BoundFaults(r, f, b.lt);
        if faults != [] then Verdict(None, faults)
        else if result == Unbounded() then Invalid(NoBound)
        else Valid(VRange(f, result))
  }

  predicate IsQueryLeaf(n: QueryNode) {
    !n.Group? && !n.Not? && !n.MatchAll?
  }

  function LeafVerdict(r: Rules, n: QueryNode): Verdict
    requires IsQueryLeaf(n)
  {
    match n
    case Term(f, v, fuzzy) => TermVerdict(r, f, v, fuzzy)
    case Phrase(f, v, proximity) => PhraseVerdict(r, f, v, proximity)
    case Wildcard(f, v) => WildcardVerdict(r, f, v)
    case Range(f, b) => RangeVerdict(r, f, b)
    case Exists(f) => ExistsVerdict(r, f)
  }

  // ----- the walk -----

  function WalkVerdict(r: Rules, n: QueryNode, depth: nat): Verdict
    decreases n, 1
  {
    if depth > r.limits.maxDepth then Invalid(TooDeep)
    else
      match n
      case MatchAll => Valid(VMatchAll)
      case Group(op, children) =>
        var (kept, faults) := WalkAll(r, children, depth + 1);
        Verdict(if |kept| == |children| then Some(VGroup(op, kept)) else None, faults)
      case Not(child) =>
        var v := WalkVerdict(r, child, depth + 1);
        Verdict(if v.node.Some? then Some(VNot(v.node.value)) else None, v.faults)
      case _ => LeafVerdict(r, n)
  }

  function WalkAll(r: Rules, children: seq<QueryNode>, depth: nat): (res: (seq<ValidatedNode>, seq<Violation>))
    ensures |res.0| <= |children|
    decreases children, 0
  {
    if children == [] then ([], [])
    else
      var (kept, faults) := WalkAll(r, children[..|children| - 1], depth);
      var v := WalkVerdict(r, children[|children| - 1], depth);
      (kept + (if v.node.Some? then [v.node.value] else []), faults + v.faults)
  }

  // Leaves reached before the depth limit cuts the walk off.
  function Clauses(r: Rules, n: QueryNode, depth: nat): nat
    decreases n, 1
  {
    if depth > r.limits.maxDepth then 0
    else
      match n
      case MatchAll => 0
      case Group(_, children) => ClausesOfAll(r, children, depth + 1)
      case Not(child) => Clauses(r, child, depth + 1)
      case _ => 1
  }

  function ClausesOfAll(r: Rules, children: seq<QueryNode>, depth: nat): nat
    decreases children, 0
  {
    if children == [] then 0
    else ClausesOfAll(r, children[..|children| - 1], depth) + Clauses(r, children[|children| - 1], depth)
  }

  function ValidationFaults(r: Rules, root: QueryNode): seq<Violation> {
    var n := Clauses(r, root, 1);
    WalkVerdict(r, root, 1).faults + if n > r.limits.maxClauses then [TooManyClauses(n)] else []
  }

  class Validator {
    const rules: Rules
    var violations: seq<Violation>
    var clauseCount: nat

    constructor (rules: Rules)
      ensures this.rules == rules && violations == [] && clauseCount == 0
    {
      this.rules, violations, clauseCount := rules, [], 0;
    }

    ghost predicate Recorded(v: Verdict, before: seq<Violation>, node: Option<ValidatedNode>)
      reads this
    {
      node == v.node && violations == before + v.faults
    }

    method Fail(v: Violation) returns (node: Option<ValidatedNode>)
      modifies this`violations
      ensures Recorded(Invalid(v), old(violations), node)
    {
      violations := violations + [v];
      node := None;
    }

    method ResolveField(name: Option<string>) returns (f: Option<ResolvedField>)
      modifies this`violations
      ensures f == ResolveOptional(rules, name)
      ensures violations == old(violations) + if f.None? then Unresolved(name).faults else []
    {
      f := ResolveOptional(rules, name);
      if f.None? {
        violations := violations + [UnknownField(if name.Some? then name.value else "")];
      }
    }

    method ValidateTerm(name: Option<string>, raw: string, fuzzy: Option<nat>) returns (node: Option<ValidatedNode>)
      modifies this`violations
      ensures Recorded(TermVerdict(rules, name, raw, fuzzy), old(violations), node)
    {
      var field := ResolveField(name);
      if field.None? { return None; }
      var f := field.value;
      if raw == "" { node := Fail(EmptyValue); return; }
      if fuzzy.Some? {
        if IsDateLike(f) { node := Fail(FuzzyUnsupported); return; }
        if fuzzy.value > rules.limits.maxFuzzyEdits { node := Fail(FuzzyTooFar(fuzzy.value)); return; }
      }
      match f.fieldType {
        case DateType =>
          var normalized := rules.literals.parseDate(raw);
          if normalized.None? { node := Fail(BadDate(raw)); return; }
          node := Some(VRange(f, Bounds(Some(Str(normalized.value)), Some(Str(normalized.value)), None, None)));
        case SizeType =>
          var bytes := rules.literals.parseSize(raw);
          if bytes.None? { node := Fail(BadSize(raw)); return; }
          node := Some(VTerm(f, Num(bytes.value), None));
        case BooleanType =>
          var lowered := Lower(raw);
          if lowered != "true" && lowered != "false" { node := Fail(BadBoolean(raw)); return; }
          node := Some(VTerm(f, Flag(lowered == "true"), None));
        case _ =>
          var value := raw;
          if IsHashField(f.name) {
            value := Lower(value);
            if !IsHashText(value) { node := Fail(BadHash(raw)); return; }
          }
          node := Some(VTerm(f, Str(value), fuzzy));
      }
    }

    method ValidatePhrase(name: Option<string>, value: string, proximity: Option<nat>) returns (node: Option<ValidatedNode>)
      modifies this`violations
      ensures Recorded(PhraseVerdict(rules, name, value, proximity), old(violations), node)
    {
      var field := ResolveField(name);
      if field.None? { return None; }
      if Blank(value) { node := Fail(EmptyPhrase); return; }
      if IsDateLike(field.value) { node := Fail(PhraseUnsupported); return; }
      var terms := WordCount(value);
      if terms > rules.limits.maxPhraseTerms { node := Fail(PhraseTooLong(terms)); return; }
      if proximity.Some? && proximity.value > rules.limits.maxProximity { node := Fail(ProximityTooFar(proximity.value)); return; }
      node := Some(VPhrase(field.value, value, proximity));
    }

    method ValidateWildcard(name: Option<string>, value: string) returns (node: Option<ValidatedNode>)
      modifies this`violations
      ensures Recorded(WildcardVerdict(rules, name, value), old(violations), node)
    {
      var field := ResolveField(name);
      if field.None? { return None; }
      if IsDateLike(field.value) { node := Fail(WildcardUnsupported); return; }
      var first := FirstWildcard(value);
      if first == Some(0) { node := Fail(LeadingWildcard); return; }
      if first.Some? && first.value < rules.limits.minWildcardPrefix { node := Fail(ShortPrefix); return; }
      node := Some(VWildcard(field.value, value));
    }

    // One pass of the loop over gte, lte, gt, lt.
    method ValidateBound(f: ResolvedField, raw: Option<string>) returns (bound: Option<TermValue>, ok: bool)
      modifies this`violations
      ensures bound == BoundResult(rules, f, raw)
      ensures violations == old(violations) + BoundFaults(rules, f, raw)
      ensures ok <==> BoundFaults(rules, f, raw) == []
    {
      if raw.None? { return None, true; }
      bound := BoundValue(rules, f, raw.value);
      ok := bound.Some?;
      if !ok {
        var _ := Fail(if f.fieldType.DateType? then BadDate(raw.value) else BadSize(raw.value));
      }
    }

    method ValidateRange(name: string, b: Bounds<string>) returns (node: Option<ValidatedNode>)
      modifies this`violations
      ensures Recorded(RangeVerdict(rules, name, b), old(violations), node)
    {
      var field := ResolveField(Some(name));
      if field.None? { return None; }
      var f := field.value;
      if !f.fieldType.DateType? && !f.fieldType.SizeType? { node := Fail(RangeUnsupported); return; }
      var gte, ok1 := ValidateBound(f, b.gte);
      var lte, ok2 := ValidateBound(f, b.lte);
      var gt, ok3 := ValidateBound(f, b.gt);
      var lt, ok4 := ValidateBound(f, b.lt);
      var ok := ok1 && ok2 && ok3 && ok4;
      if gte.None? && lte.None? && gt.None? && lt.None? {
        if ok { var _ := Fail(NoBound); }
        ok := false;
      }
      node := if ok then Some(VRange(f, Bounds(gte, lte, gt, lt))) else None;
    }

    method ValidateExists(name: string) returns (node: Option<ValidatedNode>)
      modifies this`violations
      ensures Recorded(ExistsVerdict(rules, name), old(violations), node)
    {
      var field := ResolveField(Some(name));
      if field.None? { return None; }
      if field.value.esPath == AllText && field.value.fieldType.TextType? { node := Fail(ExistsNeedsField); return; }
      node := Some(VExists(field.value));
    }

    method Walk(n: QueryNode, depth: nat) returns (node: Option<ValidatedNode>)
      modifies this
      ensures Recorded(WalkVerdict(rules, n, depth), old(violations), node)
      ensures clauseCount == old(clauseCount) + Clauses(rules, n, depth)
      decreases n
    {
      if depth > rules.limits.maxDepth { node := Fail(TooDeep); return; }
      match n {
        case MatchAll => node := Some(VMatchAll);
        case Group(op, children) =>
          var kept: seq<ValidatedNode> := [];
          for k := 0 to |children|
            invariant kept == WalkAll(rules, children[..k], depth + 1).0
            invariant violations == old(violations) + WalkAll(rules, children[..k], depth + 1).1
            invariant clauseCount == old(clauseCount) + ClausesOfAll(rules, children[..k], depth + 1)
          {
            var child := Walk(children[k], depth + 1);
            assert children[..k + 1][..k] == children[..k];
            if child.Some? { kept := kept + [child.value]; }
          }
          assert children[..|children|] == children;
          node := if |kept| != |children| then None else Some(VGroup(op, kept));
        case Not(child) =>
          var inner := Walk(child, depth + 1);
          node := if inner.Some? then Some(VNot(inner.value)) else None;
        case Term(f, v, fuzzy) => clauseCount := clauseCount + 1; node := ValidateTerm(f, v, fuzzy);
        case Phrase(f, v, proximity) => clauseCount := clauseCount + 1; node := ValidatePhrase(f, v, proximity);
        case Wildcard(f, v) => clauseCount := clauseCount + 1; node := ValidateWildcard(f, v);
        case Range(f, b) => clauseCount := clauseCount + 1; node := ValidateRange(f, b);
        case Exists(f) => clauseCount := clauseCount + 1; node := ValidateExists(f);
      }
    }

    method Validate(root: QueryNode) returns (r: Result<ValidatedNode, seq<Violation>>)
      requires violations == [] && clauseCount == 0
      modifies this
      ensures r == Validated(rules, root)
      ensures clauseCount == Clauses(rules, root, 1)
    {
      var validated := Walk(root, 1);
      if clauseCount > rules.limits.maxClauses {
        violations := violations + [TooManyClauses(clauseCount)];
      }
      assert violations == ValidationFaults(rules, root);
      if |violations| > 0 {
        return Err(violations);
      }
      NullHasReason(rules, root, 1);
      return Ok(validated.value);
    }
  }

  function Validated(r: Rules, root: QueryNode): Result<ValidatedNode, seq<Violation>> {
    var v, faults := WalkVerdict(r, root, 1), ValidationFaults(r, root);
    if faults == [] then
      NullHasReason(r, root, 1);
      Ok(v.node.value)
    else Err(faults)
  }

  // A walk gives no node exactly when it recorded a violation, so the final "could
  // not be validated" error of the source is never reached.
  lemma {:induction false} NullHasReason(r: Rules, n: QueryNode, depth: nat)
    ensures WalkVerdict(r, n, depth).node.None? <==> WalkVerdict(r, n, depth).faults != []
    decreases n, 1
  {
    match n
    case Group(_, children) => AllHaveReason(r, children, depth + 1);
    case Not(child) => NullHasReason(r, child, depth + 1);
    case _ =>
  }

  lemma {:induction false} AllHaveReason(r: Rules, children: seq<QueryNode>, depth: nat)
    ensures |WalkAll(r, children, depth).0| == |children| <==> WalkAll(r, children, depth).1 == []
    decreases children, 0
  {
    if children != [] {
      AllHaveReason(r, children[..|children| - 1], depth);
      NullHasReason(r, children[|children| - 1], depth);
    }
  }
}
