// packages/search/src/parser.ts:306-455: the visual builder's queries, read as the same trees.
module SearchBuilder {
  import opened Wrappers
  import opened Text
  import opened SearchFields
  import opened SearchAst
  import opened SearchDocument
  import opened SearchCompile
  import opened SearchMeaning
  import opened SearchCorrectness
  import opened SearchValidate
  import opened SearchPipeline
  import SearchLexer
  import SearchSentences

  datatype Operator = Contains | Equals | PhraseOf | StartsWith | RangeOf | ExistsOf | Fuzzy | Proximity

  // Numbers are already written as strings.
  datatype Condition = Condition(
    field: Option<string>, operator: Operator, value: Option<string>, range: Option<Bounds<string>>,
    distance: Option<nat>, edits: Option<nat>)

  datatype Builder = Leaf(condition: Condition) | Branch(op: BoolOp, negated: bool, children: seq<Builder>)

  // What the schema asks of a group.
  predicate WellFormed(b: Builder) {
    b.Branch? ==> b.children != [] && forall c | c in b.children :: WellFormed(c)
  }

  predicate HasBound(b: Bounds<string>) {
    b.gte.Some? || b.lte.Some? || b.gt.Some? || b.lt.Some?
  }

  function LowerField(field: Option<string>): Option<string> {
    match field
    case Some(f) => Some(Lower(f))
    case None => None
  }

  // None when the condition lacks what its operator needs and conversion throws.
  function ConditionToNode(c: Condition): Option<QueryNode> {
    var field := LowerField(c.field);
    match c.operator
    case ExistsOf => if field.None? then None else Some(Exists(field.value))
    case RangeOf =>
      if field.None? || c.range.None? || !HasBound(c.range.value) then None else Some(Range(field.value, c.range.value))
    case _ => if c.value.None? then None else Some(ValueNode(field, c, c.value.value))
  }

  // The operators that need a value.
  function ValueNode(field: Option<string>, c: Condition, v: string): QueryNode {
    if c.operator.PhraseOf? then Phrase(field, v, None)
    else if c.operator.Proximity? then Phrase(field, v, Some(Or(c.distance, 1)))
    else if c.operator.StartsWith? then Wildcard(field, v + "*")
    else if c.operator.Fuzzy? then Term(field, v, Some(Or(c.edits, SearchLexer.DEFAULT_FUZZY_EDITS)))
    else Term(field, v, None)
  }

  // Every condition below has what its operator needs.
  predicate Complete(b: Builder) {
    match b
    case Leaf(c) =>
      if c.operator.ExistsOf? then c.field.Some?
      else if c.operator.RangeOf? then c.field.Some? && c.range.Some? && HasBound(c.range.value)
      else c.value.Some?
    case Branch(_, _, children) => forall c | c in children :: Complete(c)
  }

  function ToNode(b: Builder): Option<QueryNode> {
    match b
    case Leaf(c) => ConditionToNode(c)
    case Branch(op, negated, children) =>
      match ToNodes(b, children)
      case None => None
      case Some(ns) =>
        var inner := if |ns| == 1 then ns[0] else Group(op, ns);
        Some(if negated then QueryNode.Not(inner) else inner)
  }

  function ToNodes(whole: Builder, children: seq<Builder>): (r: Option<seq<QueryNode>>)
    requires forall c | c in children :: c < whole
    ensures r.Some? ==> |r.value| == |children|
    decreases whole, 0, |children|
  {
    if children == [] then Some([])
    else
      assert children[0] in children && forall c :: c in children[1..] ==> c in children;
      match ToNode(children[0])
      case None => None
      case Some(n) =>
        match ToNodes(whole, children[1..])
        case None => None
        case Some(ns) => Some([n] + ns)
  }

  // ----- what a builder query says -----

  ghost predicate SaysCondition(e: Engine, r: Rules, c: Condition, d: EvidenceDoc)
    requires Complete(Leaf(c))
  {
    var field := ResolveOptional(r, c.field);
    field.Some? &&
    var f := field.value;
    match c.operator
    case ExistsOf => ExistsMeans(f, d)
    case RangeOf =>
      var b := c.range.value;
      && WrittenBound(e, r, f, AtLeastOp, b.gte, d) && WrittenBound(e, r, f, AtMostOp, b.lte, d)
      && WrittenBound(e, r, f, AboveOp, b.gt, d) && WrittenBound(e, r, f, BelowOp, b.lt, d)
    case PhraseOf => PhraseMeans(e, f, c.value.value, None, d)
    case Proximity => PhraseMeans(e, f, c.value.value, Some(Or(c.distance, 1)), d)
    case StartsWith => WildcardMeans(e, f, c.value.value + "*", d)
    case Fuzzy => WrittenTerm(e, r, f, c.value.value, Some(Or(c.edits, 2)), d)
    case _ => WrittenTerm(e, r, f, c.value.value, None, d)
  }

  ghost predicate Says(e: Engine, r: Rules, b: Builder, d: EvidenceDoc)
    requires Complete(b)
  {
    match b
    case Leaf(c) => SaysCondition(e, r, c, d)
    case Branch(AndOp, negated, children) => (forall c | c in children :: Says(e, r, c, d)) != negated
    case Branch(OrOp, negated, children) => (exists c | c in children :: Says(e, r, c, d)) != negated
  }

  lemma FieldCaseFree(r: Rules, field: Option<string>)
    ensures ResolveOptional(r, LowerField(field)) == ResolveOptional(r, field)
  {
    if field.Some? { LowerIdempotent(field.value); }
  }

  lemma ConditionSays(e: Engine, r: Rules, c: Condition, d: EvidenceDoc)
    requires Complete(Leaf(c))
    ensures ConditionToNode(c).Some? && IsQueryLeaf(ConditionToNode(c).value)
    ensures Written(e, r, ConditionToNode(c).value, d) <==> SaysCondition(e, r, c, d)
  {
    FieldCaseFree(r, c.field);
    hide ExistsMeans, WrittenBound, PhraseMeans, WildcardMeans, WrittenTerm;
  }

  lemma {:induction false} NodesSay(e: Engine, r: Rules, whole: Builder, children: seq<Builder>, d: EvidenceDoc)
    requires forall c | c in children :: c < whole && Complete(c) && WellFormed(c)
    ensures var ns := ToNodes(whole, children);
            ns.Some? && forall i :: 0 <= i < |children| ==>
              WideGroups(ns.value[i]) && (Written(e, r, ns.value[i], d) <==> Says(e, r, children[i], d))
    decreases whole, 0, |children|
  {
    if children != [] {
      assert children[0] in children;
      BuilderSays(e, r, children[0], d);
      forall c | c in children[1..]
        ensures c in children
      {
      }
      NodesSay(e, r, whole, children[1..], d);
      hide Written, Says, WideGroups, ToNode;
      var ns := ToNodes(whole, children).value;
      forall i | 0 < i < |children|
        ensures WideGroups(ns[i]) && (Written(e, r, ns[i], d) <==> Says(e, r, children[i], d))
      {
        assert ns[i] == ToNodes(whole, children[1..]).value[i - 1] && children[i] == children[1..][i - 1];
      }
    }
  }

  lemma ChildrenByIndex(e: Engine, r: Rules, b: Builder, d: EvidenceDoc)
    requires Complete(b) && b.Branch?
    ensures forall i :: 0 <= i < |b.children| ==> b.children[i] in b.children
    ensures Says(e, r, b, d) <==>
            ((if b.op.AndOp? then forall i :: 0 <= i < |b.children| ==> Says(e, r, b.children[i], d)
              else exists i :: 0 <= i < |b.children| && Says(e, r, b.children[i], d)) != b.negated)
  {
    var cs := b.children;
    forall c | c in cs
      ensures exists i :: 0 <= i < |cs| && cs[i] == c
    {
    }
  }

  // A complete builder query becomes a tree that means what the builder says: groups of any size, a
  // group of one its only child, negation of the whole group.
  lemma {:induction false} BuilderSays(e: Engine, r: Rules, b: Builder, d: EvidenceDoc)
    requires Complete(b) && WellFormed(b)
    ensures ToNode(b).Some? && WideGroups(ToNode(b).value)
    ensures Written(e, r, ToNode(b).value, d) <==> Says(e, r, b, d)
    decreases b, 1
  {
    match b
    case Leaf(c) => ConditionSays(e, r, c, d);
    case Branch(op, negated, children) =>
      NodesSay(e, r, b, children, d);
      ChildrenByIndex(e, r, b, d);
      var ns := ToNodes(b, children).value;
      SearchSentences.GroupByIndex(e, r, op, ns, d);
      var inner := if |ns| == 1 then ns[0] else Group(op, ns);
      InnerSays(e, r, op, ns, d);
      assert WideGroups(inner) by {
        forall n | n in ns
          ensures WideGroups(n)
        {
        }
      }
  }

  lemma InnerSays(e: Engine, r: Rules, op: BoolOp, ns: seq<QueryNode>, d: EvidenceDoc)
    requires ns != []
    ensures Written(e, r, if |ns| == 1 then ns[0] else Group(op, ns), d) <==>
            if op.AndOp? then forall i :: 0 <= i < |ns| ==> Written(e, r, ns[i], d)
            else exists i :: 0 <= i < |ns| && Written(e, r, ns[i], d)
  {
    SearchSentences.GroupByIndex(e, r, op, ns, d);
    hide Written;
  }

  // Conversion throws exactly when some condition lacks what its operator needs.
  lemma {:induction false} ConvertsExactly(b: Builder)
    ensures ToNode(b).Some? <==> Complete(b)
    decreases b, 1
  {
    if b.Branch? { AllConvertExactly(b, b.children); }
  }

  lemma {:induction false} AllConvertExactly(whole: Builder, children: seq<Builder>)
    requires forall c | c in children :: c < whole
    ensures ToNodes(whole, children).Some? <==> forall c | c in children :: Complete(c)
    decreases whole, 0, |children|
  {
    if children != [] {
      assert children == [children[0]] + children[1..];
      assert children[0] in children && forall c :: c in children[1..] ==> c in children;
      ConvertsExactly(children[0]);
      AllConvertExactly(whole, children[1..]);
      hide Complete, ToNode;
    }
  }

  // The third way in, end to end: what a builder query finds is what it says, among the visible documents.
  lemma BuilderSearchFindsWhatItSays(e: Engine, r: Rules, b: Builder, auth: AuthContext, d: EvidenceDoc)
    requires RegistryOk(r.defs) && WellFormed(b) && Complete(b) && ToNode(b).Some?
    requires SearchFor(r, ToNode(b).value, auth).Ok? && AllFaithful(Validated(r, ToNode(b).value).value)
    ensures Matches(e, SearchFor(r, ToNode(b).value, auth).value, RootHit(d)) <==> Visible(d, auth) && Says(e, r, b, d)
  {
    BuilderSays(e, r, b, d);
    SearchFindsWhatIsWritten(e, r, ToNode(b).value, auth, d);
  }
}
