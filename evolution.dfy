/**
 * How one visit changes the shared state: everything is append-only, only
 * the builder's own buffer grows, each chained predicate registers exactly
 * one CTE definition (before the ones nested in it), every registered
 * definition is named after its index and closed with the latest-version
 * filter, and every placeholder in the text stands for a value bound by the
 * parameter manager.
 */
module Evolution {
  import opened Wrappers
  import opened Expressions
  import opened Exceptions
  import opened SqlText
  import opened SchemaMapping
  import opened CompilerSpec

  /** The number of chained predicates in a tree. */
  ghost function ChainCount(e: Expr): nat
    decreases Size(e), 1, 0
  {
    match e
    case SearchParameterExpr(_, inner) => ChainCount(inner)
    case CompositeComponentExpr(_, _, inner) => ChainCount(inner)
    case MultiaryExpr(_, _) => ChainCountFrom(e, 0)
    case ChainedExpr(_, _, inner) => 1 + ChainCount(inner)
    case BinaryExpr(_, _, _) => 0
    case StringExpr(_, _, _, _) => 0
    case MissingFieldExpr(_) => 0
    case MissingSearchParameterExpr(_, _) => 0
  }

  ghost function ChainCountFrom(e: Expr, i: nat): nat
    requires e.MultiaryExpr? && i <= |e.operands|
    decreases Size(e), 0, |e.operands| - i
  {
    if i == |e.operands| then 0
    else
      OperandSmaller(e.operands, i);
      ChainCount(e.operands[i]) + ChainCountFrom(e, i + 1)
  }

  /** A CTE definition is closed once it ends with the latest-version filter and the closing parenthesis. */
  ghost predicate Closed(d: seq<Piece>)
  {
    |CteTail| <= |d| && d[|d| - |CteTail|..] == CteTail
  }

  /** A CTE name ends with an underscore and the decimal text of the definition's index. */
  ghost predicate EndsWithIndex(name: string, j: nat)
  {
    var suffix := "_" + NatToString(j);
    |suffix| <= |name| && name[|name| - |suffix|..] == suffix
  }

  /** The definition registered as the j-th: named after j, and closed. */
  ghost predicate Registered(d: seq<Piece>, j: nat)
  {
    |d| > 0 && d[0].Sql? && EndsWithIndex(d[0].text, j) && Closed(d)
  }

  /** Every placeholder among `ps` stands for a value the parameter manager bound. */
  ghost predicate Bound(st: State, ps: seq<Piece>)
  {
    forall p :: p in ps && p.Param? ==> p.index < |st.bindings| && st.bindings[p.index].Generated?
  }

  ghost predicate AllBound(st: State)
  {
    Bound(st, st.query) && forall j :: 0 <= j < |st.definitions| ==> Bound(st, st.definitions[j])
  }

  /**
   * `b` is `a` after a visit writing to `sink`: the collection and the CTE
   * list only grow, every value added to the collection is one the parameter
   * manager generated, the sink's buffer only grows, every other existing
   * buffer is untouched, the new definitions are registered and closed, and
   * bound placeholders stay bound.
   */
  ghost predicate Evolves(a: State, b: State, sink: Sink)
  {
    && a.bindings <= b.bindings
    && (forall k :: |a.bindings| <= k < |b.bindings| ==> b.bindings[k].Generated?)
    && |a.definitions| <= |b.definitions|
    && (if sink == Outer then a.query <= b.query else b.query == a.query)
    && (forall j :: 0 <= j < |a.definitions| ==>
          if sink == CteBody(j) then a.definitions[j] <= b.definitions[j] else b.definitions[j] == a.definitions[j])
    && (forall j :: |a.definitions| <= j < |b.definitions| ==> Registered(b.definitions[j], j))
    && (AllBound(a) ==> AllBound(b))
  }

  lemma EvolvesTrans(a: State, b: State, c: State, sink: Sink)
    requires SinkOk(a, sink) && Evolves(a, b, sink) && Evolves(b, c, sink)
    ensures Evolves(a, c, sink)
  {
    forall j | 0 <= j < |a.definitions|
      ensures if sink == CteBody(j) then a.definitions[j] <= c.definitions[j] else c.definitions[j] == a.definitions[j]
    {
      assert j < |b.definitions|;
    }
    forall j | |a.definitions| <= j < |c.definitions|
      ensures Registered(c.definitions[j], j)
    {
      if j < |b.definitions| {
        assert sink != CteBody(j);
        assert c.definitions[j] == b.definitions[j];
      }
    }
  }

  lemma EmitEvolves(a: State, sink: Sink, ps: seq<Piece>)
    requires SinkOk(a, sink) && Bound(a, ps)
    ensures Evolves(a, Emit(a, sink, ps), sink)
  {
    var b := Emit(a, sink, ps);
    if AllBound(a) {
      forall j | 0 <= j < |b.definitions|
        ensures Bound(b, b.definitions[j])
      {
        if sink == CteBody(j) {
          assert b.definitions[j] == a.definitions[j] + ps;
        }
      }
    }
  }

  lemma BindEvolves(a: State, value: Literal, dbType: Option<SqlDbType>, sink: Sink)
    ensures var (b, placeholder) := Bind(a, value, dbType);
      Evolves(a, b, sink) && placeholder.Param? && Bound(b, [placeholder])
  {
    var (b, placeholder) := Bind(a, value, dbType);
    assert a.bindings <= b.bindings;
    if AllBound(a) {
      forall j | 0 <= j < |b.definitions|
        ensures Bound(b, b.definitions[j])
      {
        assert Bound(a, a.definitions[j]);
      }
    }
  }

  lemma {:induction false} AcceptEvolves(cat: Catalogs, st: State, ctx: Context, e: Expr)
    requires SinkOk(st, ctx.sink) && CompositeParentsOk(e, ctx.Parameter())
    requires Accept(cat, st, ctx, e).Ok?
    ensures Evolves(st, Accept(cat, st, ctx, e).value, ctx.sink)
    ensures |Accept(cat, st, ctx, e).value.definitions| == |st.definitions| + ChainCount(e)
    decreases Size(e), 2, 0
  {
    match e
    case SearchParameterExpr(_, _) => SearchParameterEvolves(cat, st, ctx, e);
    case CompositeComponentExpr(_, _, _) => CompositeComponentEvolves(cat, st, ctx, e);
    case BinaryExpr(_, _, _) => BinaryEvolves(cat, st, ctx, e);
    case StringExpr(_, _, _, _) => StringEvolves(cat, st, ctx, e);
    case MissingFieldExpr(_) => MissingFieldEvolves(st, ctx, e);
    case MissingSearchParameterExpr(_, _) => MissingSearchParameterEvolves(cat, st, ctx, e);
    case MultiaryExpr(_, _) => MultiaryEvolves(cat, st, ctx, e);
    case ChainedExpr(_, _, _) => ChainedEvolves(cat, st, ctx, e);
  }

  lemma {:induction false} SearchParameterEvolves(cat: Catalogs, st: State, ctx: Context, e: Expr)
    requires e.SearchParameterExpr?
    requires SinkOk(st, ctx.sink) && CompositeParentsOk(e, ctx.Parameter())
    requires VisitSearchParameter(cat, st, ctx, e).Ok?
    ensures Evolves(st, VisitSearchParameter(cat, st, ctx, e).value, ctx.sink)
    ensures |VisitSearchParameter(cat, st, ctx, e).value.definitions| == |st.definitions| + ChainCount(e)
    decreases Size(e), 1, 0
  {
    var local := ctx.Enter(e.parameter, "i");
    var st1;
    if e.parameter.name == ResourceTypeParameterName || e.parameter.paramType == Composite {
      AcceptEvolves(cat, st, local, e.inner);
      st1 := Accept(cat, st, local, e.inner).value;
    } else {
      var id := Find(cat.searchParamUrlToId, (e.parameter.url, None)).value;
      GenerateSubqueryEvolves(cat, st, local, true, id, Some(e.inner));
      st1 := GenerateSubquery(cat, st, local, true, id, Some(e.inner)).value;
    }
    EmitEvolves(st1, ctx.sink, [NewLine]);
    EvolvesTrans(st, st1, Emit(st1, ctx.sink, [NewLine]), ctx.sink);
  }

  lemma {:induction false} CompositeComponentEvolves(cat: Catalogs, st: State, ctx: Context, e: Expr)
    requires e.CompositeComponentExpr?
    requires SinkOk(st, ctx.sink) && CompositeParentsOk(e, ctx.Parameter())
    requires VisitCompositeComponent(cat, st, ctx, e).Ok?
    ensures Evolves(st, VisitCompositeComponent(cat, st, ctx, e).value, ctx.sink)
    ensures |VisitCompositeComponent(cat, st, ctx, e).value.definitions| == |st.definitions| + ChainCount(e)
    decreases Size(e), 1, 0
  {
    var parent := ctx.scope.value.parameter;
    var alias := CorrelationAlias(e.componentIndex);
    var local := ctx.Enter(e.parameter, alias);
    var id := Find(cat.searchParamUrlToId, (parent.url, Some(ComponentKey(e.componentIndex)))).value;
    GenerateSubqueryEvolves(cat, st, local, false, id, Some(e.inner));
    var st1 := GenerateSubquery(cat, st, local, false, id, Some(e.inner)).value;
    var st2 := if e.componentIndex > 0 then Emit(st1, ctx.sink, CorrelationJoin(alias)) else st1;
    if e.componentIndex > 0 {
      EmitEvolves(st1, ctx.sink, CorrelationJoin(alias));
      EvolvesTrans(st, st1, st2, ctx.sink);
    }
    if parent.componentCount == e.componentIndex + 1 {
      EmitEvolves(st2, ctx.sink, CompositeClose);
      EvolvesTrans(st, st2, Emit(st2, ctx.sink, CompositeClose), ctx.sink);
    }
  }

  /** The opening of a subquery: the search parameter's id bound, and the EXISTS header written. */
  lemma SubqueryHeadEvolves(st: State, sink: Sink, searchParamId: int, table: string, alias: string)
    requires SinkOk(st, sink)
    ensures var (st1, placeholder) := Bind(st, IntLiteral(searchParamId), None);
      Evolves(st, Emit(st1, sink, SubqueryHead(table, alias, placeholder)), sink)
  {
    var (st1, placeholder) := Bind(st, IntLiteral(searchParamId), None);
    BindEvolves(st, IntLiteral(searchParamId), None, sink);
    EmitEvolves(st1, sink, SubqueryHead(table, alias, placeholder));
    EvolvesTrans(st, st1, Emit(st1, sink, SubqueryHead(table, alias, placeholder)), sink);
  }

  lemma {:induction false} GenerateSubqueryEvolves(
    cat: Catalogs, st: State, ctx: Context, closeParenthesis: bool, searchParamId: int, inner: Option<Expr>)
    requires ctx.scope.Some? && SinkOk(st, ctx.sink)
    requires inner.Some? ==> CompositeParentsOk(inner.value, ctx.Parameter())
    requires GenerateSubquery(cat, st, ctx, closeParenthesis, searchParamId, inner).Ok?
    ensures Evolves(st, GenerateSubquery(cat, st, ctx, closeParenthesis, searchParamId, inner).value, ctx.sink)
    ensures |GenerateSubquery(cat, st, ctx, closeParenthesis, searchParamId, inner).value.definitions|
         == |st.definitions| + (if inner.Some? then ChainCount(inner.value) else 0)
    decreases OptionSize(inner), 3, 0
  {
    var alias := ctx.scope.value.alias;
    var table := TableName(ctx.scope.value.parameter.paramType).value;
    var (st1, placeholder) := Bind(st, IntLiteral(searchParamId), None);
    var st2 := Emit(st1, ctx.sink, SubqueryHead(table, alias, placeholder));
    SubqueryHeadEvolves(st, ctx.sink, searchParamId, table, alias);
    var st3;
    if inner.Some? {
      var st2a := Emit(st2, ctx.sink, [Sql("AND ")]);
      EmitEvolves(st2, ctx.sink, [Sql("AND ")]);
      EvolvesTrans(st, st2, st2a, ctx.sink);
      AcceptEvolves(cat, st2a, ctx, inner.value);
      st3 := Accept(cat, st2a, ctx, inner.value).value;
      EvolvesTrans(st, st2a, st3, ctx.sink);
    } else {
      st3 := st2;
    }
    if closeParenthesis {
      EmitEvolves(st3, ctx.sink, [Sql(")")]);
      EvolvesTrans(st, st3, Emit(st3, ctx.sink, [Sql(")")]), ctx.sink);
    }
  }

  lemma BinaryEvolves(cat: Catalogs, st: State, ctx: Context, e: Expr)
    requires e.BinaryExpr? && SinkOk(st, ctx.sink)
    requires VisitBinary(cat, st, ctx, e).Ok?
    ensures Evolves(st, VisitBinary(cat, st, ctx, e).value, ctx.sink)
    ensures |VisitBinary(cat, st, ctx, e).value.definitions| == |st.definitions| + ChainCount(e)
  {
    var scope := ctx.scope.value;
    var value := if scope.parameter.name == ResourceTypeParameterName
      then IntLiteral(Find(cat.resourceTypeToId, e.value.text).value) else e.value;
    var (st1, placeholder) := Bind(st, value, None);
    BindEvolves(st, value, None, ctx.sink);
    var ps := if scope.parameter.name == ResourceTypeParameterName
      then [Sql("r.ResourceTypePK = "), placeholder, NewLine]
      else [Sql(scope.alias), Sql("."), Sql(ColumnName(scope.parameter.paramType, e.field).value),
            Sql(BinaryOperatorText(e.binaryOperator).value), placeholder];
    EmitEvolves(st1, ctx.sink, ps);
    EvolvesTrans(st, st1, Emit(st1, ctx.sink, ps), ctx.sink);
  }

  lemma StringEvolves(cat: Catalogs, st: State, ctx: Context, e: Expr)
    requires e.StringExpr? && SinkOk(st, ctx.sink)
    requires VisitString(cat, st, ctx, e).Ok?
    ensures Evolves(st, VisitString(cat, st, ctx, e).value, ctx.sink)
    ensures |VisitString(cat, st, ctx, e).value.definitions| == |st.definitions| + ChainCount(e)
  {
    if e.field == TokenText {
      StringTokenTextEvolves(cat, st, ctx, e);
    } else if e.field == ReferenceBaseUri {
      StringUriEvolves(cat, st, ctx, e);
    } else if e.stringOperator == Equals {
      StringEqualsEvolves(cat, st, ctx, e);
    } else {
      StringLikeEvolves(cat, st, ctx, e);
    }
  }

  lemma StringTokenTextEvolves(cat: Catalogs, st: State, ctx: Context, e: Expr)
    requires e.StringExpr? && SinkOk(st, ctx.sink) && ctx.scope.Some? && e.field == TokenText
    requires VisitString(cat, st, ctx, e).Ok?
    ensures Evolves(st, VisitString(cat, st, ctx, e).value, ctx.sink)
  {
    var alias := ctx.scope.value.alias;
    var column := ColumnName(ctx.scope.value.parameter.paramType, e.field).value;
    var textAlias := alias + "t";
    var (st1, placeholder) := Bind(st, TextLiteral("%" + e.text + "%"), None);
    BindEvolves(st, TextLiteral("%" + e.text + "%"), None, ctx.sink);
    var ps := LookupExists("EXISTS (\nSELECT * \nFROM dbo.TokenText ", textAlias, alias, column, ".Hash\nAND ", ".Text LIKE ", placeholder);
    EmitEvolves(st1, ctx.sink, ps);
    EvolvesTrans(st, st1, Emit(st1, ctx.sink, ps), ctx.sink);
  }

  lemma StringUriEvolves(cat: Catalogs, st: State, ctx: Context, e: Expr)
    requires e.StringExpr? && SinkOk(st, ctx.sink) && ctx.scope.Some? && e.field == ReferenceBaseUri
    requires VisitString(cat, st, ctx, e).Ok?
    ensures Evolves(st, VisitString(cat, st, ctx, e).value, ctx.sink)
  {
    var alias := ctx.scope.value.alias;
    var column := ColumnName(ctx.scope.value.parameter.paramType, e.field).value;
    var uriAlias := alias + "u";
    var (st1, placeholder) := Bind(st, TextLiteral(e.text), None);
    BindEvolves(st, TextLiteral(e.text), None, ctx.sink);
    var ps := LookupExists("EXISTS (\nSELECT * \nFROM dbo.Uri ", uriAlias, alias, column, ".UriPK\nAND ", ".Uri = ", placeholder);
    EmitEvolves(st1, ctx.sink, ps);
    EvolvesTrans(st, st1, Emit(st1, ctx.sink, ps), ctx.sink);
  }

  lemma StringEqualsEvolves(cat: Catalogs, st: State, ctx: Context, e: Expr)
    requires e.StringExpr? && SinkOk(st, ctx.sink) && ctx.scope.Some? && e.field != TokenText && e.field != ReferenceBaseUri && e.stringOperator == Equals
    requires VisitString(cat, st, ctx, e).Ok?
    ensures Evolves(st, VisitString(cat, st, ctx, e).value, ctx.sink)
  {
    var column := ColumnName(ctx.scope.value.parameter.paramType, e.field).value;
    var head := [Sql(ctx.scope.value.alias), Sql("."), Sql(column)];
    var value := if e.field == ReferenceResourceType
      then IntLiteral(Find(cat.resourceTypeToId, e.text).value) else TextLiteral(e.text);
    var dbType := if e.field == ReferenceResourceId then Some(VarChar) else None;
    var (st1, placeholder) := Bind(st, value, dbType);
    BindEvolves(st, value, dbType, ctx.sink);
    EmitEvolves(st1, ctx.sink, head + [Sql(" = "), placeholder, NewLine]);
    EvolvesTrans(st, st1, Emit(st1, ctx.sink, head + [Sql(" = "), placeholder, NewLine]), ctx.sink);
  }

  lemma StringLikeEvolves(cat: Catalogs, st: State, ctx: Context, e: Expr)
    requires e.StringExpr? && SinkOk(st, ctx.sink) && ctx.scope.Some? && e.field != TokenText && e.field != ReferenceBaseUri && e.stringOperator != Equals
    requires VisitString(cat, st, ctx, e).Ok?
    ensures Evolves(st, VisitString(cat, st, ctx, e).value, ctx.sink)
  {
    var column := ColumnName(ctx.scope.value.parameter.paramType, e.field).value;
    var head := [Sql(ctx.scope.value.alias), Sql("."), Sql(column)];
    var like := Sql(if IsNegatedMatch(e.stringOperator) then " NOT LIKE" else " LIKE ");
    match LikePattern(e.stringOperator, e.text)
    case None =>
      EmitEvolves(st, ctx.sink, head + [like]);
    case Some(pattern) =>
      var (st1, placeholder) := Bind(st, TextLiteral(pattern), None);
      BindEvolves(st, TextLiteral(pattern), None, ctx.sink);
      EmitEvolves(st1, ctx.sink, head + [like, placeholder]);
      EvolvesTrans(st, st1, Emit(st1, ctx.sink, head + [like, placeholder]), ctx.sink);
  }

  lemma MissingFieldEvolves(st: State, ctx: Context, e: Expr)
    requires e.MissingFieldExpr? && SinkOk(st, ctx.sink)
    requires VisitMissingField(st, ctx, e).Ok?
    ensures Evolves(st, VisitMissingField(st, ctx, e).value, ctx.sink)
    ensures |VisitMissingField(st, ctx, e).value.definitions| == |st.definitions| + ChainCount(e)
  {
    var column := ColumnName(ctx.scope.value.parameter.paramType, e.field).value;
    EmitEvolves(st, ctx.sink, [Sql(ctx.scope.value.alias), Sql("."), Sql(column), Sql(" IS NULL")]);
  }

  lemma MissingSearchParameterEvolves(cat: Catalogs, st: State, ctx: Context, e: Expr)
    requires e.MissingSearchParameterExpr? && SinkOk(st, ctx.sink)
    requires VisitMissingSearchParameter(cat, st, ctx, e).Ok?
    ensures Evolves(st, VisitMissingSearchParameter(cat, st, ctx, e).value, ctx.sink)
    ensures |VisitMissingSearchParameter(cat, st, ctx, e).value.definitions| == |st.definitions| + ChainCount(e)
    decreases Size(e), 1, 0
  {
    var local := ctx.Enter(e.parameter, "i");
    var st1 := if e.isMissing then Emit(st, ctx.sink, [Sql(" NOT ")]) else st;
    if e.isMissing {
      EmitEvolves(st, ctx.sink, [Sql(" NOT ")]);
    }
    var id := Find(cat.searchParamUrlToId, (e.parameter.url, None)).value;
    GenerateSubqueryEvolves(cat, st1, local, true, id, None);
    if e.isMissing {
      EvolvesTrans(st, st1, GenerateSubquery(cat, st1, local, true, id, None).value, ctx.sink);
    }
  }

  lemma {:induction false} MultiaryEvolves(cat: Catalogs, st: State, ctx: Context, e: Expr)
    requires e.MultiaryExpr?
    requires SinkOk(st, ctx.sink) && CompositeParentsOk(e, ctx.Parameter())
    requires VisitMultiary(cat, st, ctx, e).Ok?
    ensures Evolves(st, VisitMultiary(cat, st, ctx, e).value, ctx.sink)
    ensures |VisitMultiary(cat, st, ctx, e).value.definitions| == |st.definitions| + ChainCount(e)
    decreases Size(e), 1, 0
  {
    var op := MultiaryOperatorText(e.multiaryOperator).value;
    var isOr := e.multiaryOperator == Or;
    var st1 := if isOr then Emit(st, ctx.sink, [Sql("(")]) else st;
    if isOr {
      EmitEvolves(st, ctx.sink, [Sql("(")]);
    }
    OperandsEvolve(cat, st1, ctx, e, op, 0);
    var st2 := VisitOperands(cat, st1, ctx, e, op, 0).value;
    if isOr {
      EvolvesTrans(st, st1, st2, ctx.sink);
      EmitEvolves(st2, ctx.sink, [Sql(")")]);
      EvolvesTrans(st, st2, Emit(st2, ctx.sink, [Sql(")")]), ctx.sink);
    }
  }

  lemma {:induction false} OperandsEvolve(cat: Catalogs, st: State, ctx: Context, e: Expr, op: string, i: nat)
    requires e.MultiaryExpr? && i <= |e.operands|
    requires SinkOk(st, ctx.sink) && CompositeParentsOk(e, ctx.Parameter())
    requires VisitOperands(cat, st, ctx, e, op, i).Ok?
    ensures Evolves(st, VisitOperands(cat, st, ctx, e, op, i).value, ctx.sink)
    ensures |VisitOperands(cat, st, ctx, e, op, i).value.definitions| == |st.definitions| + ChainCountFrom(e, i)
    decreases Size(e), 0, 2 * (|e.operands| - i)
  {
    if i == |e.operands| {
      assert Evolves(st, st, ctx.sink);
    } else {
      OperandEvolves(cat, st, ctx, e, op, i);
      var st1 := VisitOperand(cat, st, ctx, e, op, i).value;
      OperandsEvolve(cat, st1, ctx, e, op, i + 1);
      EvolvesTrans(st, st1, VisitOperands(cat, st1, ctx, e, op, i + 1).value, ctx.sink);
    }
  }

  lemma {:induction false} OperandEvolves(cat: Catalogs, st: State, ctx: Context, e: Expr, op: string, i: nat)
    requires e.MultiaryExpr? && i < |e.operands|
    requires SinkOk(st, ctx.sink) && CompositeParentsOk(e, ctx.Parameter())
    requires VisitOperand(cat, st, ctx, e, op, i).Ok?
    ensures Evolves(st, VisitOperand(cat, st, ctx, e, op, i).value, ctx.sink)
    ensures |VisitOperand(cat, st, ctx, e, op, i).value.definitions| == |st.definitions| + ChainCount(e.operands[i])
    decreases Size(e), 0, 2 * (|e.operands| - i) - 1
  {
    OperandSmaller(e.operands, i);
    AcceptEvolves(cat, st, ctx, e.operands[i]);
    var st1 := Accept(cat, st, ctx, e.operands[i]).value;
    if i != |e.operands| - 1 {
      SeparateEvolves(st1, ctx.sink, op);
      EvolvesTrans(st, st1, Separate(st1, ctx.sink, op).value, ctx.sink);
    }
  }

  lemma SeparateEvolves(st: State, sink: Sink, op: string)
    requires SinkOk(st, sink) && Separate(st, sink, op).Ok?
    ensures Evolves(st, Separate(st, sink, op).value, sink)
  {
    var space := LastIsWhiteSpace(SinkText(st, sink)).value;
    var st1 := if space then st else Emit(st, sink, [Sql(" ")]);
    if !space {
      EmitEvolves(st, sink, [Sql(" ")]);
    }
    EmitEvolves(st1, sink, [Sql(op), Sql(" ")]);
    if !space {
      EvolvesTrans(st, st1, Emit(st1, sink, [Sql(op), Sql(" ")]), sink);
    }
  }

  lemma CteNameEndsWithIndex(parameterName: string, targetResourceType: string, n: nat)
    ensures EndsWithIndex(CteName(parameterName, targetResourceType, n), n)
  {
    var name := CteName(parameterName, targetResourceType, n);
    var prefix := "cte_" + parameterName + "_" + targetResourceType;
    assert name == prefix + ("_" + NatToString(n));
  }

  /**
   * The step of a chained predicate that writes its CTE: registering the
   * head, compiling the nested predicate into it and closing it leaves every
   * other buffer of the enclosing builder as it was.
   */
  lemma RegisterEvolves(st: State, st2: State, st3: State, sink: Sink, head: seq<Piece>)
    requires SinkOk(st, sink) && Bound(st, head)
    requires |head| > 0 && head[0].Sql? && EndsWithIndex(head[0].text, |st.definitions|)
    requires st2 == st.(definitions := st.definitions + [head])
    requires Evolves(st2, st3, CteBody(|st.definitions|))
    ensures Evolves(st, Emit(st3, CteBody(|st.definitions|), CteTail), sink)
  {
    var n := |st.definitions|;
    var st4 := Emit(st3, CteBody(n), CteTail);
    assert st2.definitions[n] <= st3.definitions[n];
    assert st4.definitions[n] == st3.definitions[n] + CteTail;
    assert Closed(st4.definitions[n]) by {
      var d := st4.definitions[n];
      assert d[|d| - |CteTail|..] == CteTail;
    }
    assert st4.definitions[n][0] == head[0];
    forall j | 0 <= j < |st.definitions|
      ensures if sink == CteBody(j) then st.definitions[j] <= st4.definitions[j] else st4.definitions[j] == st.definitions[j]
    {
      assert st2.definitions[j] == st.definitions[j];
    }
    forall j | n < j < |st4.definitions|
      ensures Registered(st4.definitions[j], j)
    {
      assert st4.definitions[j] == st3.definitions[j];
    }
    if AllBound(st) {
      assert AllBound(st2) by {
        forall j | 0 <= j < |st2.definitions|
          ensures Bound(st2, st2.definitions[j])
        {
          if j < n {
            assert Bound(st, st.definitions[j]);
          }
        }
      }
      assert AllBound(st3);
      assert Bound(st3, CteTail);
      EmitEvolves(st3, CteBody(n), CteTail);
    }
  }

  lemma {:induction false} ChainedEvolves(cat: Catalogs, st: State, ctx: Context, e: Expr)
    requires e.ChainedExpr?
    requires SinkOk(st, ctx.sink) && CompositeParentsOk(e, ctx.Parameter())
    requires VisitChained(cat, st, ctx, e).Ok?
    ensures Evolves(st, VisitChained(cat, st, ctx, e).value, ctx.sink)
    ensures |VisitChained(cat, st, ctx, e).value.definitions| == |st.definitions| + ChainCount(e)
    decreases Size(e), 1, 0
  {
    ChainCteEvolves(cat, st, ctx.sink, e);
    var st4 := ChainCte(cat, st, e).value;
    var cteName := CteName(e.parameter.name, e.targetResourceType, |st.definitions|);
    ChainJoinEvolves(cat, st4, ctx, e, cteName);
    EvolvesTrans(st, st4, ChainJoin(cat, st4, ctx, e, cteName).value, ctx.sink);
  }

  /** A chained predicate's CTE: registered under the next index, closed, and nothing else touched. */
  lemma {:induction false} ChainCteEvolves(cat: Catalogs, st: State, sink: Sink, e: Expr)
    requires e.ChainedExpr? && SinkOk(st, sink) && CompositeParentsOk(e.inner, None)
    requires ChainCte(cat, st, e).Ok?
    ensures Evolves(st, ChainCte(cat, st, e).value, sink)
    ensures |ChainCte(cat, st, e).value.definitions| == |st.definitions| + ChainCount(e)
    decreases Size(e), 0, 1
  {
    var n := |st.definitions|;
    var cteName := CteName(e.parameter.name, e.targetResourceType, n);
    var typeId := Find(cat.resourceTypeToId, e.targetResourceType).value;
    var (st1, placeholder) := Bind(st, IntLiteral(typeId), None);
    BindEvolves(st, IntLiteral(typeId), None, sink);
    var head := CteHead(cteName, placeholder);
    var st2 := st1.(definitions := st1.definitions + [head]);
    var nested := Context(CteBody(n), None);
    AcceptEvolves(cat, st2, nested, e.inner);
    var st3 := Accept(cat, st2, nested, e.inner).value;
    CteNameEndsWithIndex(e.parameter.name, e.targetResourceType, n);
    RegisterEvolves(st1, st2, st3, sink, head);
    EvolvesTrans(st, st1, Emit(st3, CteBody(n), CteTail), sink);
  }

  /** The second half of a chained predicate: the reference subquery and the join on the CTE. */
  lemma {:induction false} ChainJoinEvolves(cat: Catalogs, st: State, ctx: Context, e: Expr, cteName: string)
    requires e.ChainedExpr? && SinkOk(st, ctx.sink)
    requires ChainJoin(cat, st, ctx, e, cteName).Ok?
    ensures Evolves(st, ChainJoin(cat, st, ctx, e, cteName).value, ctx.sink)
    ensures |ChainJoin(cat, st, ctx, e, cteName).value.definitions| == |st.definitions|
    decreases Size(e), 0, 0
  {
    var local := ctx.Enter(e.parameter, "i");
    var id := Find(cat.searchParamUrlToId, (e.parameter.url, None)).value;
    var column := ColumnName(e.parameter.paramType, ReferenceResourceId).value;
    ChainCriteriaSize(e.targetResourceType);
    GenerateSubqueryEvolves(cat, st, local, false, id, Some(ChainCriteria(e.targetResourceType)));
    CriteriaHaveNoChain(e.targetResourceType);
    var st5 := GenerateSubquery(cat, st, local, false, id, Some(ChainCriteria(e.targetResourceType))).value;
    EmitEvolves(st5, ctx.sink, CteJoin(cteName, column));
    EvolvesTrans(st, st5, Emit(st5, ctx.sink, CteJoin(cteName, column)), ctx.sink);
  }

  lemma CriteriaHaveNoChain(t: string)
    ensures ChainCount(ChainCriteria(t)) == 0
  {
    var c := ChainCriteria(t);
    assert ChainCount(c.operands[0]) == 0;
    assert ChainCount(c.operands[1]) == 0;
    assert ChainCountFrom(c, 2) == 0;
    assert ChainCountFrom(c, 1) == 0;
    assert ChainCountFrom(c, 0) == 0;
  }
}
