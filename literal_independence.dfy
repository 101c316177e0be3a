/**
 * The text the builder writes does not depend on the values a filter
 * compares against: two filters that differ only in those values compile to
 * the same query text and the same CTE definitions, binding the same number
 * of values. Together with the placeholder invariant of the Evolution
 * module this is the guarantee that a search value reaches the database
 * only as a query parameter.
 */
module LiteralIndependence {
  import opened Wrappers
  import opened Expressions
  import opened SqlText
  import opened SchemaMapping
  import opened CompilerSpec

  /** Two filters that differ at most in the values their comparisons bind. */
  predicate SameShape(a: Expr, b: Expr)
  {
    match a
    case SearchParameterExpr(p, inner) =>
      b.SearchParameterExpr? && b.parameter == p && SameShape(inner, b.inner)
    case CompositeComponentExpr(p, k, inner) =>
      b.CompositeComponentExpr? && b.parameter == p && b.componentIndex == k && SameShape(inner, b.inner)
    case BinaryExpr(op, field, _) =>
      b.BinaryExpr? && b.binaryOperator == op && b.field == field
    case StringExpr(op, field, _, _) =>
      b.StringExpr? && b.stringOperator == op && b.field == field
    case MissingFieldExpr(_) => b == a
    case MissingSearchParameterExpr(_, _) => b == a
    case MultiaryExpr(op, operands) =>
      && b.MultiaryExpr? && b.multiaryOperator == op && |b.operands| == |operands|
      && forall k :: 0 <= k < |operands| ==> SameShape(operands[k], b.operands[k])
    case ChainedExpr(p, t, inner) =>
      b.ChainedExpr? && b.parameter == p && b.targetResourceType == t && SameShape(inner, b.inner)
  }

  /** Same text, same definitions, as many bound values. */
  predicate Similar(s: State, t: State)
  {
    s.query == t.query && s.definitions == t.definitions && |s.bindings| == |t.bindings|
  }

  lemma {:induction false} AcceptSameText(cat: Catalogs, s: State, t: State, ctx: Context, a: Expr, b: Expr)
    requires Similar(s, t) && SameShape(a, b) && SinkOk(s, ctx.sink)
    requires CompositeParentsOk(a, ctx.Parameter()) && CompositeParentsOk(b, ctx.Parameter())
    requires Accept(cat, s, ctx, a).Ok? && Accept(cat, t, ctx, b).Ok?
    ensures Similar(Accept(cat, s, ctx, a).value, Accept(cat, t, ctx, b).value)
    decreases Size(a), 2, 0
  {
    match a
    case SearchParameterExpr(_, _) => SearchParameterSameText(cat, s, t, ctx, a, b);
    case CompositeComponentExpr(_, _, _) => CompositeComponentSameText(cat, s, t, ctx, a, b);
    case BinaryExpr(_, _, _) => BinarySameText(cat, s, t, ctx, a, b);
    case StringExpr(_, _, _, _) => StringSameText(cat, s, t, ctx, a, b);
    case MissingFieldExpr(_) =>
    case MissingSearchParameterExpr(_, _) => MissingSearchParameterSameText(cat, s, t, ctx, a);
    case MultiaryExpr(_, _) => MultiarySameText(cat, s, t, ctx, a, b);
    case ChainedExpr(_, _, _) => ChainedSameText(cat, s, t, ctx, a, b);
  }

  lemma {:induction false} SearchParameterSameText(cat: Catalogs, s: State, t: State, ctx: Context, a: Expr, b: Expr)
    requires a.SearchParameterExpr? && Similar(s, t) && SameShape(a, b) && SinkOk(s, ctx.sink)
    requires CompositeParentsOk(a, ctx.Parameter()) && CompositeParentsOk(b, ctx.Parameter())
    requires VisitSearchParameter(cat, s, ctx, a).Ok? && VisitSearchParameter(cat, t, ctx, b).Ok?
    ensures Similar(VisitSearchParameter(cat, s, ctx, a).value, VisitSearchParameter(cat, t, ctx, b).value)
    decreases Size(a), 1, 0
  {
    var local := ctx.Enter(a.parameter, "i");
    if a.parameter.name == ResourceTypeParameterName || a.parameter.paramType == Composite {
      AcceptSameText(cat, s, t, local, a.inner, b.inner);
    } else {
      var id := Find(cat.searchParamUrlToId, (a.parameter.url, None)).value;
      GenerateSubquerySameText(cat, s, t, local, true, id, Some(a.inner), Some(b.inner));
    }
  }

  lemma {:induction false} CompositeComponentSameText(cat: Catalogs, s: State, t: State, ctx: Context, a: Expr, b: Expr)
    requires a.CompositeComponentExpr? && Similar(s, t) && SameShape(a, b) && SinkOk(s, ctx.sink)
    requires CompositeParentsOk(a, ctx.Parameter()) && CompositeParentsOk(b, ctx.Parameter())
    requires VisitCompositeComponent(cat, s, ctx, a).Ok? && VisitCompositeComponent(cat, t, ctx, b).Ok?
    ensures Similar(VisitCompositeComponent(cat, s, ctx, a).value, VisitCompositeComponent(cat, t, ctx, b).value)
    decreases Size(a), 1, 0
  {
    var parent := ctx.scope.value.parameter;
    var local := ctx.Enter(a.parameter, CorrelationAlias(a.componentIndex));
    var id := Find(cat.searchParamUrlToId, (parent.url, Some(ComponentKey(a.componentIndex)))).value;
    GenerateSubquerySameText(cat, s, t, local, false, id, Some(a.inner), Some(b.inner));
  }

  lemma {:induction false} GenerateSubquerySameText(
    cat: Catalogs, s: State, t: State, ctx: Context, closeParenthesis: bool, searchParamId: int,
    a: Option<Expr>, b: Option<Expr>)
    requires ctx.scope.Some? && Similar(s, t) && SinkOk(s, ctx.sink)
    requires a.Some? <==> b.Some?
    requires a.Some? ==> SameShape(a.value, b.value)
    requires a.Some? ==> CompositeParentsOk(a.value, ctx.Parameter()) && CompositeParentsOk(b.value, ctx.Parameter())
    requires GenerateSubquery(cat, s, ctx, closeParenthesis, searchParamId, a).Ok?
    requires GenerateSubquery(cat, t, ctx, closeParenthesis, searchParamId, b).Ok?
    ensures Similar(GenerateSubquery(cat, s, ctx, closeParenthesis, searchParamId, a).value,
                    GenerateSubquery(cat, t, ctx, closeParenthesis, searchParamId, b).value)
    decreases OptionSize(a), 3, 0
  {
    if a.Some? {
      var table := TableName(ctx.scope.value.parameter.paramType).value;
      var (s1, ph) := Bind(s, IntLiteral(searchParamId), None);
      var (t1, _) := Bind(t, IntLiteral(searchParamId), None);
      var head := SubqueryHead(table, ctx.scope.value.alias, ph);
      var s2 := Emit(Emit(s1, ctx.sink, head), ctx.sink, [Sql("AND ")]);
      var t2 := Emit(Emit(t1, ctx.sink, head), ctx.sink, [Sql("AND ")]);
      AcceptSameText(cat, s2, t2, ctx, a.value, b.value);
    }
  }

  lemma BinarySameText(cat: Catalogs, s: State, t: State, ctx: Context, a: Expr, b: Expr)
    requires a.BinaryExpr? && Similar(s, t) && SameShape(a, b) && SinkOk(s, ctx.sink)
    requires VisitBinary(cat, s, ctx, a).Ok? && VisitBinary(cat, t, ctx, b).Ok?
    ensures Similar(VisitBinary(cat, s, ctx, a).value, VisitBinary(cat, t, ctx, b).value)
  {
  }

  lemma StringSameText(cat: Catalogs, s: State, t: State, ctx: Context, a: Expr, b: Expr)
    requires a.StringExpr? && Similar(s, t) && SameShape(a, b) && SinkOk(s, ctx.sink)
    requires VisitString(cat, s, ctx, a).Ok? && VisitString(cat, t, ctx, b).Ok?
    ensures Similar(VisitString(cat, s, ctx, a).value, VisitString(cat, t, ctx, b).value)
  {
    if a.field == TokenText || a.field == ReferenceBaseUri {
      StringLookupSameText(cat, s, t, ctx, a, b);
    } else if a.stringOperator == Equals {
      StringEqualsSameText(cat, s, t, ctx, a, b);
    } else {
      StringLikeSameText(cat, s, t, ctx, a, b);
    }
  }

  lemma StringLookupSameText(cat: Catalogs, s: State, t: State, ctx: Context, a: Expr, b: Expr)
    requires a.StringExpr? && Similar(s, t) && SameShape(a, b) && SinkOk(s, ctx.sink)
    requires a.field == TokenText || a.field == ReferenceBaseUri
    requires VisitString(cat, s, ctx, a).Ok? && VisitString(cat, t, ctx, b).Ok?
    ensures Similar(VisitString(cat, s, ctx, a).value, VisitString(cat, t, ctx, b).value)
  {
  }

  lemma StringEqualsSameText(cat: Catalogs, s: State, t: State, ctx: Context, a: Expr, b: Expr)
    requires a.StringExpr? && Similar(s, t) && SameShape(a, b) && SinkOk(s, ctx.sink)
    requires a.field != TokenText && a.field != ReferenceBaseUri && a.stringOperator == Equals
    requires VisitString(cat, s, ctx, a).Ok? && VisitString(cat, t, ctx, b).Ok?
    ensures Similar(VisitString(cat, s, ctx, a).value, VisitString(cat, t, ctx, b).value)
  {
  }

  lemma StringLikeSameText(cat: Catalogs, s: State, t: State, ctx: Context, a: Expr, b: Expr)
    requires a.StringExpr? && Similar(s, t) && SameShape(a, b) && SinkOk(s, ctx.sink)
    requires a.field != TokenText && a.field != ReferenceBaseUri && a.stringOperator != Equals
    requires VisitString(cat, s, ctx, a).Ok? && VisitString(cat, t, ctx, b).Ok?
    ensures Similar(VisitString(cat, s, ctx, a).value, VisitString(cat, t, ctx, b).value)
  {
    assert LikePattern(a.stringOperator, a.text).Some? == LikePattern(b.stringOperator, b.text).Some?;
  }

  lemma MissingSearchParameterSameText(cat: Catalogs, s: State, t: State, ctx: Context, a: Expr)
    requires a.MissingSearchParameterExpr? && Similar(s, t) && SinkOk(s, ctx.sink)
    requires VisitMissingSearchParameter(cat, s, ctx, a).Ok? && VisitMissingSearchParameter(cat, t, ctx, a).Ok?
    ensures Similar(VisitMissingSearchParameter(cat, s, ctx, a).value, VisitMissingSearchParameter(cat, t, ctx, a).value)
  {
  }

  lemma {:induction false} MultiarySameText(cat: Catalogs, s: State, t: State, ctx: Context, a: Expr, b: Expr)
    requires a.MultiaryExpr? && Similar(s, t) && SameShape(a, b) && SinkOk(s, ctx.sink)
    requires CompositeParentsOk(a, ctx.Parameter()) && CompositeParentsOk(b, ctx.Parameter())
    requires VisitMultiary(cat, s, ctx, a).Ok? && VisitMultiary(cat, t, ctx, b).Ok?
    ensures Similar(VisitMultiary(cat, s, ctx, a).value, VisitMultiary(cat, t, ctx, b).value)
    decreases Size(a), 1, 0
  {
    var op := MultiaryOperatorText(a.multiaryOperator).value;
    var isOr := a.multiaryOperator == Or;
    var s1 := if isOr then Emit(s, ctx.sink, [Sql("(")]) else s;
    var t1 := if isOr then Emit(t, ctx.sink, [Sql("(")]) else t;
    OperandsSameText(cat, s1, t1, ctx, a, b, op, 0);
  }

  lemma {:induction false} OperandsSameText(
    cat: Catalogs, s: State, t: State, ctx: Context, a: Expr, b: Expr, op: string, i: nat)
    requires a.MultiaryExpr? && i <= |a.operands| && Similar(s, t) && SameShape(a, b) && SinkOk(s, ctx.sink)
    requires CompositeParentsOk(a, ctx.Parameter()) && CompositeParentsOk(b, ctx.Parameter())
    requires VisitOperands(cat, s, ctx, a, op, i).Ok? && VisitOperands(cat, t, ctx, b, op, i).Ok?
    ensures Similar(VisitOperands(cat, s, ctx, a, op, i).value, VisitOperands(cat, t, ctx, b, op, i).value)
    decreases Size(a), 0, 2 * (|a.operands| - i)
  {
    if i < |a.operands| {
      OperandSameText(cat, s, t, ctx, a, b, op, i);
      OperandsSameText(cat, VisitOperand(cat, s, ctx, a, op, i).value, VisitOperand(cat, t, ctx, b, op, i).value,
        ctx, a, b, op, i + 1);
    }
  }

  lemma {:induction false} OperandSameText(
    cat: Catalogs, s: State, t: State, ctx: Context, a: Expr, b: Expr, op: string, i: nat)
    requires a.MultiaryExpr? && i < |a.operands| && Similar(s, t) && SameShape(a, b) && SinkOk(s, ctx.sink)
    requires CompositeParentsOk(a, ctx.Parameter()) && CompositeParentsOk(b, ctx.Parameter())
    requires VisitOperand(cat, s, ctx, a, op, i).Ok? && VisitOperand(cat, t, ctx, b, op, i).Ok?
    ensures Similar(VisitOperand(cat, s, ctx, a, op, i).value, VisitOperand(cat, t, ctx, b, op, i).value)
    decreases Size(a), 0, 2 * (|a.operands| - i) - 1
  {
    OperandSmaller(a.operands, i);
    AcceptSameText(cat, s, t, ctx, a.operands[i], b.operands[i]);
  }

  lemma {:induction false} ChainedSameText(cat: Catalogs, s: State, t: State, ctx: Context, a: Expr, b: Expr)
    requires a.ChainedExpr? && Similar(s, t) && SameShape(a, b) && SinkOk(s, ctx.sink)
    requires CompositeParentsOk(a, ctx.Parameter()) && CompositeParentsOk(b, ctx.Parameter())
    requires VisitChained(cat, s, ctx, a).Ok? && VisitChained(cat, t, ctx, b).Ok?
    ensures Similar(VisitChained(cat, s, ctx, a).value, VisitChained(cat, t, ctx, b).value)
    decreases Size(a), 1, 0
  {
    ChainCteSameText(cat, s, t, a, b);
    var cteName := CteName(a.parameter.name, a.targetResourceType, |s.definitions|);
    ChainJoinSameText(cat, ChainCte(cat, s, a).value, ChainCte(cat, t, b).value, ctx, a, b, cteName);
  }

  lemma {:induction false} ChainJoinSameText(
    cat: Catalogs, s: State, t: State, ctx: Context, a: Expr, b: Expr, cteName: string)
    requires a.ChainedExpr? && Similar(s, t) && SameShape(a, b) && SinkOk(s, ctx.sink)
    requires ChainJoin(cat, s, ctx, a, cteName).Ok? && ChainJoin(cat, t, ctx, b, cteName).Ok?
    ensures Similar(ChainJoin(cat, s, ctx, a, cteName).value, ChainJoin(cat, t, ctx, b, cteName).value)
    decreases Size(a), 0, 0
  {
    var local := ctx.Enter(a.parameter, "i");
    var id := Find(cat.searchParamUrlToId, (a.parameter.url, None)).value;
    var criteria := ChainCriteria(a.targetResourceType);
    ChainCriteriaSize(a.targetResourceType);
    CriteriaSameShape(a.targetResourceType);
    GenerateSubquerySameText(cat, s, t, local, false, id, Some(criteria), Some(criteria));
  }

  lemma {:induction false} ChainCteSameText(cat: Catalogs, s: State, t: State, a: Expr, b: Expr)
    requires a.ChainedExpr? && Similar(s, t) && SameShape(a, b)
    requires CompositeParentsOk(a.inner, None) && CompositeParentsOk(b.inner, None)
    requires ChainCte(cat, s, a).Ok? && ChainCte(cat, t, b).Ok?
    ensures Similar(ChainCte(cat, s, a).value, ChainCte(cat, t, b).value)
    decreases Size(a), 0, 1
  {
    var n := |s.definitions|;
    var typeId := Find(cat.resourceTypeToId, a.targetResourceType).value;
    var (s1, ph) := Bind(s, IntLiteral(typeId), None);
    var (t1, _) := Bind(t, IntLiteral(typeId), None);
    var head := CteHead(CteName(a.parameter.name, a.targetResourceType, n), ph);
    var s2 := s1.(definitions := s1.definitions + [head]);
    var t2 := t1.(definitions := t1.definitions + [head]);
    AcceptSameText(cat, s2, t2, Context(CteBody(n), None), a.inner, b.inner);
  }

  lemma CriteriaSameShape(t: string)
    ensures SameShape(ChainCriteria(t), ChainCriteria(t))
  {
    var c := ChainCriteria(t);
    assert SameShape(c.operands[0], c.operands[0]);
    assert SameShape(c.operands[1], c.operands[1]);
  }

  /** Every filter has the shape of itself. */
  lemma {:induction false} SameShapeReflexive(e: Expr)
    ensures SameShape(e, e)
  {
    match e
    case SearchParameterExpr(_, inner) => SameShapeReflexive(inner);
    case CompositeComponentExpr(_, _, inner) => SameShapeReflexive(inner);
    case ChainedExpr(_, _, inner) => SameShapeReflexive(inner);
    case MultiaryExpr(_, operands) =>
      forall k | 0 <= k < |operands|
        ensures SameShape(operands[k], operands[k])
      {
        SameShapeReflexive(operands[k]);
      }
    case _ =>
  }

  /**
   * The query text of two searches whose filters differ only in the values
   * they compare against is the same, whatever those values are and
   * whatever page each asks for; both collections grow by the same count.
   */
  lemma BuildQuerySameText(
    cat: Catalogs, a: Expr, b: Expr, bindings: seq<Binding>, others: seq<Binding>,
    pageSize: int, pageNum: int, otherPageSize: int, otherPageNum: int)
    requires SameShape(a, b) && |bindings| == |others|
    requires CompositeParentsOk(a, None) && CompositeParentsOk(b, None)
    requires BuildQuery(cat, Some(a), bindings, pageSize, pageNum).Ok?
    requires BuildQuery(cat, Some(b), others, otherPageSize, otherPageNum).Ok?
    ensures BuildQuery(cat, Some(a), bindings, pageSize, pageNum).value.0
         == BuildQuery(cat, Some(b), others, otherPageSize, otherPageNum).value.0
    ensures |BuildQuery(cat, Some(a), bindings, pageSize, pageNum).value.1|
         == |BuildQuery(cat, Some(b), others, otherPageSize, otherPageNum).value.1|
  {
    AcceptSameText(cat, Initial(bindings), Initial(others), Context(Outer, None), a, b);
  }
}
