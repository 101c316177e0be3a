/**
 * The SQL builder as state-passing functions: one function per visitor
 * method, each taking the builder's context (which buffer `_query` is, the
 * current search parameter and table alias) by value and returning the new
 * state of the shared buffers and parameter collection, or the exception
 * the visit throws.  The imperative builder is proved to compute exactly
 * these functions.
 */
module CompilerSpec {
  import opened Wrappers
  import opened Expressions
  import opened Exceptions
  import opened SqlText
  import opened SchemaMapping

  /** The two read-only catalogs: resource-type name and (search-parameter URL, component index) to compact id. */
  datatype Catalogs = Catalogs(
    resourceTypeToId: map<string, int>,
    searchParamUrlToId: map<(string, Option<int>), int>)

  /** Dictionary indexing: the value at `key`, or KeyNotFound. */
  function Find<K, V>(m: map<K, V>, key: K): Result<V, Exception>
  {
    if key in m then Ok(m[key]) else Err(KeyNotFound)
  }

  /** `(byte?)componentIndex`: an unchecked conversion keeps the low eight bits. */
  function ComponentKey(componentIndex: int): int
  {
    componentIndex % 256
  }

  /** The StringBuilder a builder appends to: the outer query or the body of the j-th CTE definition. */
  datatype Sink = Outer | CteBody(index: nat)

  /** The current search parameter together with the current table alias. */
  datatype Scope = Scope(parameter: SearchParameter, alias: string)

  /** The builder's context; `scope` is None while both fields are null. */
  datatype Context = Context(sink: Sink, scope: Option<Scope>) {
    function Parameter(): Option<SearchParameter>
    {
      if scope.Some? then Some(scope.value.parameter) else None
    }

    function Enter(p: SearchParameter, alias: string): Context
    {
      this.(scope := Some(Scope(p, alias)))
    }
  }

  /** The outer query, `CteManager.Definitions` and the parameter collection. */
  datatype State = State(query: seq<Piece>, definitions: seq<seq<Piece>>, bindings: seq<Binding>)

  type Compiled = Result<State, Exception>

  predicate SinkOk(st: State, sink: Sink)
  {
    sink.CteBody? ==> sink.index < |st.definitions|
  }

  function SinkText(st: State, sink: Sink): seq<Piece>
    requires SinkOk(st, sink)
  {
    match sink
    case Outer => st.query
    case CteBody(j) => st.definitions[j]
  }

  /** Appends `ps` to the buffer `sink` names. */
  function Emit(st: State, sink: Sink, ps: seq<Piece>): (r: State)
    requires SinkOk(st, sink)
    ensures |r.definitions| == |st.definitions| && r.bindings == st.bindings
    ensures SinkText(r, sink) == SinkText(st, sink) + ps
  {
    match sink
    case Outer => st.(query := st.query + ps)
    case CteBody(j) => st.(definitions := st.definitions[j := st.definitions[j] + ps])
  }

  /** `CreateParameter`: records the value in the collection and yields its placeholder. */
  function Bind(st: State, value: Literal, dbType: Option<SqlDbType>): (State, Piece)
  {
    (st.(bindings := st.bindings + [Generated(value, dbType)]), Param(|st.bindings|))
  }

  /** `AcceptVisitor`: dispatch on the node kind. */
  function Accept(cat: Catalogs, st: State, ctx: Context, e: Expr): (r: Compiled)
    requires SinkOk(st, ctx.sink) && CompositeParentsOk(e, ctx.Parameter())
    ensures r.Ok? ==> |st.definitions| <= |r.value.definitions|
    decreases Size(e), 2, 0
  {
    match e
    case SearchParameterExpr(_, _) => VisitSearchParameter(cat, st, ctx, e)
    case CompositeComponentExpr(_, _, _) => VisitCompositeComponent(cat, st, ctx, e)
    case BinaryExpr(_, _, _) => VisitBinary(cat, st, ctx, e)
    case StringExpr(_, _, _, _) => VisitString(cat, st, ctx, e)
    case MissingFieldExpr(_) => VisitMissingField(st, ctx, e)
    case MissingSearchParameterExpr(_, _) => VisitMissingSearchParameter(cat, st, ctx, e)
    case MultiaryExpr(_, _) => VisitMultiary(cat, st, ctx, e)
    case ChainedExpr(_, _, _) => VisitChained(cat, st, ctx, e)
  }

  function VisitSearchParameter(cat: Catalogs, st: State, ctx: Context, e: Expr): (r: Compiled)
    requires e.SearchParameterExpr?
    requires SinkOk(st, ctx.sink) && CompositeParentsOk(e, ctx.Parameter())
    ensures r.Ok? ==> |st.definitions| <= |r.value.definitions|
    decreases Size(e), 1, 0
  {
    var local := ctx.Enter(e.parameter, "i");
    var st1 :-
      if e.parameter.name == ResourceTypeParameterName then
        Accept(cat, st, local, e.inner)
      else if e.parameter.paramType == Composite then
        Accept(cat, st, local, e.inner)
      else
        var id :- Find(cat.searchParamUrlToId, (e.parameter.url, None));
        GenerateSubquery(cat, st, local, true, id, Some(e.inner));
    Ok(Emit(st1, ctx.sink, [NewLine]))
  }

  function CorrelationAlias(componentIndex: int): string
  {
    "c" + IntToString(componentIndex)
  }

  /** The correlation join written after a component with a positive index. */
  function CorrelationJoin(alias: string): seq<Piece>
  {
    [Sql(" AND c1.CompositeCorrelationId = "), Sql(alias), Sql(".CompositeCorrelationId"), NewLine,
     Sql(")"), NewLine]
  }

  /** The parenthesis that closes a composite parameter after its last component. */
  const CompositeClose: seq<Piece> := [Sql(")"), NewLine]

  function VisitCompositeComponent(cat: Catalogs, st: State, ctx: Context, e: Expr): (r: Compiled)
    requires e.CompositeComponentExpr?
    requires SinkOk(st, ctx.sink) && CompositeParentsOk(e, ctx.Parameter())
    ensures r.Ok? ==> |st.definitions| <= |r.value.definitions|
    decreases Size(e), 1, 0
  {
    var parent := ctx.scope.value.parameter;
    var alias := CorrelationAlias(e.componentIndex);
    var local := ctx.Enter(e.parameter, alias);
    var id :- Find(cat.searchParamUrlToId, (parent.url, Some(ComponentKey(e.componentIndex))));
    var st1 :- GenerateSubquery(cat, st, local, false, id, Some(e.inner));
    var st2 := if e.componentIndex > 0 then Emit(st1, ctx.sink, CorrelationJoin(alias)) else st1;
    Ok(if parent.componentCount == e.componentIndex + 1 then Emit(st2, ctx.sink, CompositeClose) else st2)
  }

  const ExistsText: string := " EXISTS(\nSELECT *\nFROM "

  /** The opening of a subquery over `table` under `alias`, filtered by the bound search-parameter id. */
  function SubqueryHead(table: string, alias: string, placeholder: Piece): seq<Piece>
  {
    [Sql(ExistsText), Sql(table), Sql(" "), Sql(alias), NewLine,
     Sql("WHERE "), Sql(alias), Sql(".ResourcePK = r.ResourcePK\nAND "),
     Sql(alias), Sql(".SearchParamPK = "), placeholder, NewLine]
  }

  /**
   * `GenerateSubquery`: an EXISTS over the current parameter's index table
   * under the current alias, filtered by resource and by the bound
   * search-parameter id, then `AND` and the inner predicate if any, and a
   * closing parenthesis only when asked for.
   */
  function GenerateSubquery(
    cat: Catalogs, st: State, ctx: Context, closeParenthesis: bool, searchParamId: int, inner: Option<Expr>)
    : (r: Compiled)
    requires ctx.scope.Some? && SinkOk(st, ctx.sink)
    requires inner.Some? ==> CompositeParentsOk(inner.value, ctx.Parameter())
    ensures r.Ok? ==> |st.definitions| <= |r.value.definitions|
    decreases OptionSize(inner), 3, 0
  {
    var alias := ctx.scope.value.alias;
    var table :- TableName(ctx.scope.value.parameter.paramType);
    var (st1, placeholder) := Bind(st, IntLiteral(searchParamId), None);
    var st2 := Emit(st1, ctx.sink, SubqueryHead(table, alias, placeholder));
    var st3 :-
      if inner.Some? then Accept(cat, Emit(st2, ctx.sink, [Sql("AND ")]), ctx, inner.value)
      else Ok(st2);
    Ok(if closeParenthesis then Emit(st3, ctx.sink, [Sql(")")]) else st3)
  }

  function VisitBinary(cat: Catalogs, st: State, ctx: Context, e: Expr): (r: Compiled)
    requires e.BinaryExpr? && SinkOk(st, ctx.sink)
    ensures r.Ok? ==> |st.definitions| <= |r.value.definitions|
  {
    if ctx.scope.None? then Err(NullReference)
    else
      var scope := ctx.scope.value;
      if scope.parameter.name == ResourceTypeParameterName then
        if !e.value.TextLiteral? then Err(InvalidCast)
        else
          var id :- Find(cat.resourceTypeToId, e.value.text);
          var (st1, placeholder) := Bind(st, IntLiteral(id), None);
          Ok(Emit(st1, ctx.sink, [Sql("r.ResourceTypePK = "), placeholder, NewLine]))
      else
        var column :- ColumnName(scope.parameter.paramType, e.field);
        var op :- BinaryOperatorText(e.binaryOperator);
        var (st1, placeholder) := Bind(st, e.value, None);
        Ok(Emit(st1, ctx.sink, [Sql(scope.alias), Sql("."), Sql(column), Sql(op), placeholder]))
  }

  /**
   * An EXISTS over a lookup table under the alias `lookup`, joined on
   * `alias.column`, whose row is tested against `placeholder`.
   */
  function LookupExists(
    opening: string, lookup: string, alias: string, column: string, join: string, test: string, placeholder: Piece)
    : seq<Piece>
  {
    [Sql(opening), Sql(lookup), NewLine,
     Sql("WHERE "), Sql(alias), Sql("."), Sql(column), Sql(" = "), Sql(lookup),
     Sql(join), Sql(lookup), Sql(test), placeholder, NewLine,
     Sql(")"), NewLine]
  }

  function VisitString(cat: Catalogs, st: State, ctx: Context, e: Expr): (r: Compiled)
    requires e.StringExpr? && SinkOk(st, ctx.sink)
    ensures r.Ok? ==> |st.definitions| <= |r.value.definitions|
  {
    if ctx.scope.None? then Err(NullReference)
    else
      var alias := ctx.scope.value.alias;
      var column :- ColumnName(ctx.scope.value.parameter.paramType, e.field);
      if e.field == TokenText then
        var textAlias := alias + "t";
        var (st1, placeholder) := Bind(st, TextLiteral("%" + e.text + "%"), None);
        Ok(Emit(st1, ctx.sink,
          LookupExists("EXISTS (\nSELECT * \nFROM dbo.TokenText ", textAlias, alias, column, ".Hash\nAND ", ".Text LIKE ", placeholder)))
      else if e.field == ReferenceBaseUri then
        var uriAlias := alias + "u";
        var (st1, placeholder) := Bind(st, TextLiteral(e.text), None);
        Ok(Emit(st1, ctx.sink,
          LookupExists("EXISTS (\nSELECT * \nFROM dbo.Uri ", uriAlias, alias, column, ".UriPK\nAND ", ".Uri = ", placeholder)))
      else
        var head := [Sql(alias), Sql("."), Sql(column)];
        if e.stringOperator == Equals then
          var value :-
            if e.field == ReferenceResourceType then
              var id :- Find(cat.resourceTypeToId, e.text);
              Ok(IntLiteral(id))
            else Ok(TextLiteral(e.text));
          var dbType := if e.field == ReferenceResourceId then Some(VarChar) else None;
          var (st1, placeholder) := Bind(st, value, dbType);
          Ok(Emit(st1, ctx.sink, head + [Sql(" = "), placeholder, NewLine]))
        else
          var like := Sql(if IsNegatedMatch(e.stringOperator) then " NOT LIKE" else " LIKE ");
          match LikePattern(e.stringOperator, e.text)
          case None => Ok(Emit(st, ctx.sink, head + [like]))
          case Some(pattern) =>
            var (st1, placeholder) := Bind(st, TextLiteral(pattern), None);
            Ok(Emit(st1, ctx.sink, head + [like, placeholder]))
  }

  function VisitMissingField(st: State, ctx: Context, e: Expr): (r: Compiled)
    requires e.MissingFieldExpr? && SinkOk(st, ctx.sink)
    ensures r.Ok? ==> |st.definitions| <= |r.value.definitions|
  {
    if ctx.scope.None? then Err(NullReference)
    else
      var column :- ColumnName(ctx.scope.value.parameter.paramType, e.field);
      Ok(Emit(st, ctx.sink, [Sql(ctx.scope.value.alias), Sql("."), Sql(column), Sql(" IS NULL")]))
  }

  function VisitMissingSearchParameter(cat: Catalogs, st: State, ctx: Context, e: Expr): (r: Compiled)
    requires e.MissingSearchParameterExpr? && SinkOk(st, ctx.sink)
    ensures r.Ok? ==> |st.definitions| <= |r.value.definitions|
    decreases Size(e), 1, 0
  {
    var local := ctx.Enter(e.parameter, "i");
    var st1 := if e.isMissing then Emit(st, ctx.sink, [Sql(" NOT ")]) else st;
    var id :- Find(cat.searchParamUrlToId, (e.parameter.url, None));
    GenerateSubquery(cat, st1, local, true, id, None)
  }

  function VisitMultiary(cat: Catalogs, st: State, ctx: Context, e: Expr): (r: Compiled)
    requires e.MultiaryExpr?
    requires SinkOk(st, ctx.sink) && CompositeParentsOk(e, ctx.Parameter())
    ensures r.Ok? ==> |st.definitions| <= |r.value.definitions|
    decreases Size(e), 1, 0
  {
    var op :- MultiaryOperatorText(e.multiaryOperator);
    var isOr := e.multiaryOperator == Or;
    var st1 := if isOr then Emit(st, ctx.sink, [Sql("(")]) else st;
    var st2 :- VisitOperands(cat, st1, ctx, e, op, 0);
    Ok(if isOr then Emit(st2, ctx.sink, [Sql(")")]) else st2)
  }

  /** The operands from the i-th on, each but the last followed by a separator. */
  function VisitOperands(cat: Catalogs, st: State, ctx: Context, e: Expr, op: string, i: nat): (r: Compiled)
    requires e.MultiaryExpr? && i <= |e.operands|
    requires SinkOk(st, ctx.sink) && CompositeParentsOk(e, ctx.Parameter())
    ensures r.Ok? ==> |st.definitions| <= |r.value.definitions|
    decreases Size(e), 0, 2 * (|e.operands| - i)
  {
    if i == |e.operands| then Ok(st)
    else
      var st1 :- VisitOperand(cat, st, ctx, e, op, i);
      VisitOperands(cat, st1, ctx, e, op, i + 1)
  }

  /** The i-th operand, then the separator unless it is the last one. */
  function VisitOperand(cat: Catalogs, st: State, ctx: Context, e: Expr, op: string, i: nat): (r: Compiled)
    requires e.MultiaryExpr? && i < |e.operands|
    requires SinkOk(st, ctx.sink) && CompositeParentsOk(e, ctx.Parameter())
    ensures r.Ok? ==> |st.definitions| <= |r.value.definitions|
    decreases Size(e), 0, 2 * (|e.operands| - i) - 1
  {
    OperandSmaller(e.operands, i);
    var st1 :- Accept(cat, st, ctx, e.operands[i]);
    if i != |e.operands| - 1 then Separate(st1, ctx.sink, op) else Ok(st1)
  }

  /** A space unless the buffer already ends in whitespace, then the operator and a space. */
  function Separate(st: State, sink: Sink, op: string): (r: Compiled)
    requires SinkOk(st, sink)
    ensures r.Ok? ==> |r.value.definitions| == |st.definitions|
  {
    match LastIsWhiteSpace(SinkText(st, sink))
    case None => Err(IndexOutOfRange)
    case Some(space) =>
      var st1 := if space then st else Emit(st, sink, [Sql(" ")]);
      Ok(Emit(st1, sink, [Sql(op), Sql(" ")]))
  }

  function CteName(parameterName: string, targetResourceType: string, count: nat): string
  {
    "cte_" + parameterName + "_" + targetResourceType + "_" + NatToString(count)
  }

  const CteHeadText: string := "(Id)\nAS (\nSELECT Id from dbo.Resource r \nWHERE r.ResourceTypePK = "

  /** The opening of a CTE definition: its name, the resource selection filtered by the bound target type, and `AND `. */
  function CteHead(cteName: string, placeholder: Piece): seq<Piece>
  {
    [Sql(cteName), Sql(CteHeadText), placeholder, NewLine, Sql("AND ")]
  }

  /** What a CTE body is given once its nested predicate is compiled. */
  const CteTail: seq<Piece> := [NewLine, Sql("AND ")] + LatestVersionPredicate + [NewLine, Sql(")"), NewLine]

  /** The existence check against a chained predicate's CTE, after the reference subquery. */
  function CteJoin(cteName: string, column: string): seq<Piece>
  {
    [NewLine, Sql("AND EXISTS(SELECT * FROM "), NewLine, Sql(cteName), Sql(" WHERE "), Sql(cteName),
     Sql(".Id = "), Sql("i"), Sql("."), Sql(column), Sql(")"), NewLine, Sql(")"), NewLine]
  }

  /**
   * The CTE of a chained predicate: registered in the manager under the
   * next index with the target resource type's id bound, filled by
   * compiling the nested predicate with a builder of its own that writes
   * into that definition, and closed with the latest-version filter.
   */
  function ChainCte(cat: Catalogs, st: State, e: Expr): (r: Compiled)
    requires e.ChainedExpr? && CompositeParentsOk(e.inner, None)
    ensures r.Ok? ==> |st.definitions| < |r.value.definitions|
    decreases Size(e), 0, 0
  {
    var n := |st.definitions|;
    var typeId :- Find(cat.resourceTypeToId, e.targetResourceType);
    var (st1, placeholder) := Bind(st, IntLiteral(typeId), None);
    var st2 := st1.(definitions := st1.definitions + [CteHead(CteName(e.parameter.name, e.targetResourceType, n), placeholder)]);
    var st3 :- Accept(cat, st2, Context(CteBody(n), None), e.inner);
    Ok(Emit(st3, CteBody(n), CteTail))
  }

/**
   * A chained predicate: register a new CTE named after the current number
   * of definitions, compile the nested predicate into it with a fresh
   * builder, close it with the latest-version filter, then require in the
   * current query a reference row without base URI to the target type whose
   * target id is in the CTE.
   */
  function VisitChained(cat: Catalogs, st: State, ctx: Context, e: Expr): (r: Compiled)
    requires e.ChainedExpr?
    requires SinkOk(st, ctx.sink) && CompositeParentsOk(e, ctx.Parameter())
    ensures r.Ok? ==> |st.definitions| < |r.value.definitions|
    decreases Size(e), 1, 0
  {
    var cteName := CteName(e.parameter.name, e.targetResourceType, |st.definitions|);
    var st4 :- ChainCte(cat, st, e);
    ChainJoin(cat, st4, ctx, e, cteName)
  }

  /**
   * The subquery that ties the outer search to a chain's table expression: the
   * reference column of the chained parameter must name a resource the
   * expression selected.
   */
  function ChainJoin(cat: Catalogs, st: State, ctx: Context, e: Expr, cteName: string): (r: Compiled)
    requires e.ChainedExpr? && SinkOk(st, ctx.sink)
    ensures r.Ok? ==> |st.definitions| <= |r.value.definitions|
    decreases Size(e), 0, 0
  {
    var local := ctx.Enter(e.parameter, "i");
    var id :- Find(cat.searchParamUrlToId, (e.parameter.url, None));
    ChainCriteriaSize(e.targetResourceType);
    assert CompositeParentsOk(ChainCriteria(e.targetResourceType), local.Parameter());
    var st5 :- GenerateSubquery(cat, st, local, false, id, Some(ChainCriteria(e.targetResourceType)));
    var column :- ColumnName(e.parameter.paramType, ReferenceResourceId);
    Ok(Emit(st5, ctx.sink, CteJoin(cteName, column)))
  }

  /** The WITH preamble: the definitions from the last registered to the first. */
  function Preamble(definitions: seq<seq<Piece>>): seq<Piece>
  {
    [Sql("WITH ")] + DefinitionsFrom(definitions, 0)
  }

  /** The definitions with index j or more, last first, each but index 0 followed by a comma line. */
  function DefinitionsFrom(definitions: seq<seq<Piece>>, j: nat): seq<Piece>
    decreases |definitions| - j
  {
    if j >= |definitions| then []
    else DefinitionsFrom(definitions, j + 1) + definitions[j] + (if j != 0 then [Sql(","), NewLine] else [])
  }

  const PagingClause: seq<Piece> := [Sql(PagingText), NewLine]

  /**
   * `BuildQuery`: the query text and the final parameter collection, given
   * the collection the caller passes in.
   */
  function BuildQuery(cat: Catalogs, root: Option<Expr>, bindings: seq<Binding>, pageSize: int, pageNum: int)
    : Result<(seq<Piece>, seq<Binding>), Exception>
    requires root.Some? ==> CompositeParentsOk(root.value, None)
  {
    var st :- CompileRoot(cat, root, bindings);
    Ok(Assemble(st, pageSize, pageNum))
  }

  /** The state a query starts from: `SELECT` text, no definitions, the caller's parameters. */
  function Initial(bindings: seq<Binding>): State
  {
    State([Sql(SelectText)], [], bindings)
  }

  /** The outer query with the root expression, if any, compiled into it and followed by `AND `. */
  function CompileRoot(cat: Catalogs, root: Option<Expr>, bindings: seq<Binding>): (r: Compiled)
    requires root.Some? ==> CompositeParentsOk(root.value, None)
    ensures root.None? ==> r == Ok(Initial(bindings))
  {
    if root.Some? then
      var st :- Accept(cat, Initial(bindings), Context(Outer, None), root.value);
      Ok(Emit(st, Outer, [Sql("AND ")]))
    else Ok(Initial(bindings))
  }

  /** The final text and parameters: the preamble, if any definition exists, the outer query, the latest-version filter and the paging window. */
  function Assemble(st: State, pageSize: int, pageNum: int): (seq<Piece>, seq<Binding>)
  {
    var query := if |st.definitions| > 0 then Preamble(st.definitions) + st.query else st.query;
    (query + LatestVersionPredicate + PagingClause,
     st.bindings + [Named("@pageNum", IntLiteral(pageNum)), Named("@pageSize", IntLiteral(pageSize))])
  }
}
