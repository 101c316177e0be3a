/**
 * The SQL builder as the source has it: an object whose visit methods append
 * to a shared buffer, register CTE definitions in a shared manager, bind
 * literals in a shared parameter collection, and save and restore the
 * current search parameter and table alias around every descent.  Every
 * method is proved to compute its function in CompilerSpec and to leave the
 * two context fields as it found them, on the throwing paths too.
 */
module QueryBuilder {
  import opened Wrappers
  import opened Expressions
  import opened Exceptions
  import opened SqlText
  import opened SchemaMapping
  import opened CompilerSpec

  /** The outer query's StringBuilder. */
  class QueryBuffer {
    var pieces: seq<Piece>

    constructor (initial: seq<Piece>)
      ensures pieces == initial
    {
      pieces := initial;
    }
  }

  /** The CTE definitions of one top-level compile, shared by every nested builder. */
  class CteManager {
    var definitions: seq<seq<Piece>>

    constructor ()
      ensures definitions == []
    {
      definitions := [];
    }
  }

  /**
   * The parameter collection, with the parameter manager's `CreateParameter`
   * on it: each binding is appended, and a placeholder for it returned.
   */
  class SqlParameterCollection {
    var bindings: seq<Binding>

    constructor (initial: seq<Binding>)
      ensures bindings == initial
    {
      bindings := initial;
    }

    method CreateParameter(value: Literal, dbType: Option<SqlDbType>) returns (placeholder: Piece)
      modifies this
      ensures bindings == old(bindings) + [Generated(value, dbType)]
      ensures placeholder == Param(|old(bindings)|)
    {
      placeholder := Param(|bindings|);
      bindings := bindings + [Generated(value, dbType)];
    }

    method AddWithValue(name: string, value: Literal)
      modifies this
      ensures bindings == old(bindings) + [Named(name, value)]
    {
      bindings := bindings + [Named(name, value)];
    }
  }

  /** How a visit's completion and the state it leaves reflect the specification's result. */
  predicate Reflects(outcome: Outcome<Exception>, now: State, spec: Compiled)
  {
    match spec
    case Ok(st) => outcome == Pass && now == st
    case Err(x) => outcome == Fail(x)
  }

  class SqlQueryBuilder {
    const catalogs: Catalogs
    const outer: QueryBuffer
    const parameters: SqlParameterCollection
    const cteManager: CteManager
    const sink: Sink
    var currentSearchParameter: Option<SearchParameter>
    var currentTableAlias: Option<string>

    constructor (catalogs: Catalogs, outer: QueryBuffer, parameters: SqlParameterCollection,
                 cteManager: CteManager, sink: Sink)
      ensures this.catalogs == catalogs && this.outer == outer && this.parameters == parameters
      ensures this.cteManager == cteManager && this.sink == sink
      ensures currentSearchParameter == None && currentTableAlias == None
    {
      this.catalogs := catalogs;
      this.outer := outer;
      this.parameters := parameters;
      this.cteManager := cteManager;
      this.sink := sink;
      currentSearchParameter := None;
      currentTableAlias := None;
    }

    /** The shared state the builder writes to. */
    function Snapshot(): State
      reads outer, cteManager, parameters
    {
      State(outer.pieces, cteManager.definitions, parameters.bindings)
    }

    /** The two context fields are set and cleared together, and the builder's buffer exists. */
    ghost predicate Valid()
      reads this, outer, cteManager, parameters
    {
      (currentSearchParameter.Some? <==> currentTableAlias.Some?) && SinkOk(Snapshot(), sink)
    }

    function CurrentContext(): Context
      reads this
      requires currentSearchParameter.Some? <==> currentTableAlias.Some?
    {
      Context(sink,
        if currentSearchParameter.Some? then Some(Scope(currentSearchParameter.value, currentTableAlias.value))
        else None)
    }

    method Append(ps: seq<Piece>)
      requires SinkOk(Snapshot(), sink)
      modifies outer, cteManager
      ensures Snapshot() == CompilerSpec.Emit(old(Snapshot()), sink, ps)
    {
      match sink
      case Outer => outer.pieces := outer.pieces + ps;
      case CteBody(j) => cteManager.definitions := cteManager.definitions[j := cteManager.definitions[j] + ps];
    }

    method Accept(e: Expr) returns (outcome: Outcome<Exception>)
      requires Valid() && CompositeParentsOk(e, CurrentContext().Parameter())
      modifies this, outer, cteManager, parameters
      ensures Valid() && |old(cteManager.definitions)| <= |cteManager.definitions|
      ensures currentSearchParameter == old(currentSearchParameter) && currentTableAlias == old(currentTableAlias)
      ensures Reflects(outcome, Snapshot(), CompilerSpec.Accept(catalogs, old(Snapshot()), old(CurrentContext()), e))
      decreases Size(e), 2, 0
    {
      match e
      case SearchParameterExpr(_, _) => outcome := VisitSearchParameter(e);
      case CompositeComponentExpr(_, _, _) => outcome := VisitCompositeComponent(e);
      case BinaryExpr(_, _, _) => outcome := VisitBinary(e);
      case StringExpr(_, _, _, _) => outcome := VisitString(e);
      case MissingFieldExpr(_) => outcome := VisitMissingField(e);
      case MissingSearchParameterExpr(_, _) => outcome := VisitMissingSearchParameter(e);
      case MultiaryExpr(_, _) => outcome := VisitMultiary(e);
      case ChainedExpr(_, _, _) => outcome := VisitChained(e);
    }

    method VisitSearchParameter(e: Expr) returns (outcome: Outcome<Exception>)
      requires e.SearchParameterExpr?
      requires Valid() && CompositeParentsOk(e, CurrentContext().Parameter())
      modifies this, outer, cteManager, parameters
      ensures Valid() && |old(cteManager.definitions)| <= |cteManager.definitions|
      ensures currentSearchParameter == old(currentSearchParameter) && currentTableAlias == old(currentTableAlias)
      ensures Reflects(outcome, Snapshot(),
        CompilerSpec.VisitSearchParameter(catalogs, old(Snapshot()), old(CurrentContext()), e))
      decreases Size(e), 1, 0
    {
      var parameterSnapshot := currentSearchParameter;
      var aliasSnapshot := currentTableAlias;
      currentTableAlias := Some("i");
      currentSearchParameter := Some(e.parameter);
      if e.parameter.name == ResourceTypeParameterName {
        outcome := Accept(e.inner);
      } else if e.parameter.paramType == Composite {
        outcome := Accept(e.inner);
      } else {
        var id := Find(catalogs.searchParamUrlToId, (e.parameter.url, None));
        if id.Err? {
          outcome := Fail(id.error);
        } else {
          outcome := GenerateSubquery(true, id.value, Some(e.inner));
        }
      }
      if outcome.Pass? {
        Append([NewLine]);
      }
      currentSearchParameter := parameterSnapshot;
      currentTableAlias := aliasSnapshot;
    }

    method VisitCompositeComponent(e: Expr) returns (outcome: Outcome<Exception>)
      requires e.CompositeComponentExpr?
      requires Valid() && CompositeParentsOk(e, CurrentContext().Parameter())
      modifies this, outer, cteManager, parameters
      ensures Valid() && |old(cteManager.definitions)| <= |cteManager.definitions|
      ensures currentSearchParameter == old(currentSearchParameter) && currentTableAlias == old(currentTableAlias)
      ensures Reflects(outcome, Snapshot(),
        CompilerSpec.VisitCompositeComponent(catalogs, old(Snapshot()), old(CurrentContext()), e))
      decreases Size(e), 1, 0
    {
      var parameterSnapshot := currentSearchParameter;
      var aliasSnapshot := currentTableAlias;
      var alias := CorrelationAlias(e.componentIndex);
      currentTableAlias := Some(alias);
      currentSearchParameter := Some(e.parameter);
      var parent := parameterSnapshot.value;
      var id := Find(catalogs.searchParamUrlToId, (parent.url, Some(ComponentKey(e.componentIndex))));
      if id.Err? {
        outcome := Fail(id.error);
      } else {
        outcome := GenerateSubquery(false, id.value, Some(e.inner));
        if outcome.Pass? {
          if e.componentIndex > 0 {
            Append(CorrelationJoin(alias));
          }
          if parent.componentCount == e.componentIndex + 1 {
            Append(CompositeClose);
          }
        }
      }
      currentSearchParameter := parameterSnapshot;
      currentTableAlias := aliasSnapshot;
    }

    method GenerateSubquery(closeParenthesis: bool, searchParamId: int, inner: Option<Expr>)
      returns (outcome: Outcome<Exception>)
      requires Valid() && currentSearchParameter.Some?
      requires inner.Some? ==> CompositeParentsOk(inner.value, CurrentContext().Parameter())
      modifies this, outer, cteManager, parameters
      ensures Valid() && |old(cteManager.definitions)| <= |cteManager.definitions|
      ensures currentSearchParameter == old(currentSearchParameter) && currentTableAlias == old(currentTableAlias)
      ensures Reflects(outcome, Snapshot(),
        CompilerSpec.GenerateSubquery(catalogs, old(Snapshot()), old(CurrentContext()), closeParenthesis, searchParamId, inner))
      decreases OptionSize(inner), 3, 0
    {
      var alias := currentTableAlias.value;
      var table := TableName(currentSearchParameter.value.paramType);
      if table.Err? {
        outcome := Fail(table.error);
        return;
      }
      var placeholder := parameters.CreateParameter(IntLiteral(searchParamId), None);
      Append(SubqueryHead(table.value, alias, placeholder));
      if inner.Some? {
        Append([Sql("AND ")]);
        outcome := Accept(inner.value);
        if outcome.Fail? {
          return;
        }
      }
      if closeParenthesis {
        Append([Sql(")")]);
      }
      outcome := Pass;
    }

    method VisitBinary(e: Expr) returns (outcome: Outcome<Exception>)
      requires e.BinaryExpr? && Valid()
      modifies outer, cteManager, parameters
      ensures Valid() && |old(cteManager.definitions)| <= |cteManager.definitions|
      ensures Reflects(outcome, Snapshot(), CompilerSpec.VisitBinary(catalogs, old(Snapshot()), CurrentContext(), e))
    {
      if currentSearchParameter.None? {
        outcome := Fail(NullReference);
      } else if currentSearchParameter.value.name == ResourceTypeParameterName {
        if !e.value.TextLiteral? {
          outcome := Fail(InvalidCast);
        } else {
          var id := Find(catalogs.resourceTypeToId, e.value.text);
          if id.Err? {
            outcome := Fail(id.error);
          } else {
            var placeholder := parameters.CreateParameter(IntLiteral(id.value), None);
            Append([Sql("r.ResourceTypePK = "), placeholder, NewLine]);
            outcome := Pass;
          }
        }
      } else {
        var column := ColumnName(currentSearchParameter.value.paramType, e.field);
        if column.Err? {
          outcome := Fail(column.error);
          return;
        }
        var op := BinaryOperatorText(e.binaryOperator);
        if op.Err? {
          outcome := Fail(op.error);
          return;
        }
        var placeholder := parameters.CreateParameter(e.value, None);
        Append([Sql(currentTableAlias.value), Sql("."), Sql(column.value), Sql(op.value), placeholder]);
        outcome := Pass;
      }
    }

    method VisitString(e: Expr) returns (outcome: Outcome<Exception>)
      requires e.StringExpr? && Valid()
      modifies outer, cteManager, parameters
      ensures Valid() && |old(cteManager.definitions)| <= |cteManager.definitions|
      ensures Reflects(outcome, Snapshot(), CompilerSpec.VisitString(catalogs, old(Snapshot()), CurrentContext(), e))
    {
      if currentSearchParameter.None? {
        outcome := Fail(NullReference);
        return;
      }
      var alias := currentTableAlias.value;
      var column := ColumnName(currentSearchParameter.value.paramType, e.field);
      if column.Err? {
        outcome := Fail(column.error);
        return;
      }
      outcome := Pass;
      if e.field == TokenText {
        var textAlias := alias + "t";
        var placeholder := parameters.CreateParameter(TextLiteral("%" + e.text + "%"), None);
        Append(LookupExists("EXISTS (\nSELECT * \nFROM dbo.TokenText ", textAlias, alias, column.value,
                            ".Hash\nAND ", ".Text LIKE ", placeholder));
        return;
      }
      if e.field == ReferenceBaseUri {
        var uriAlias := alias + "u";
        var placeholder := parameters.CreateParameter(TextLiteral(e.text), None);
        Append(LookupExists("EXISTS (\nSELECT * \nFROM dbo.Uri ", uriAlias, alias, column.value,
                            ".UriPK\nAND ", ".Uri = ", placeholder));
        return;
      }
      var head := [Sql(alias), Sql("."), Sql(column.value)];
      if e.stringOperator == Equals {
        var value := TextLiteral(e.text);
        var dbType := None;
        if e.field == ReferenceResourceType {
          var id := Find(catalogs.resourceTypeToId, e.text);
          if id.Err? {
            outcome := Fail(id.error);
            return;
          }
          value := IntLiteral(id.value);
        } else if e.field == ReferenceResourceId {
          dbType := Some(VarChar);
        }
        var placeholder := parameters.CreateParameter(value, dbType);
        Append(head + [Sql(" = "), placeholder, NewLine]);
        return;
      }
      var like := Sql(if IsNegatedMatch(e.stringOperator) then " NOT LIKE" else " LIKE ");
      var pattern := LikePattern(e.stringOperator, e.text);
      if pattern.None? {
        Append(head + [like]);
      } else {
        var placeholder := parameters.CreateParameter(TextLiteral(pattern.value), None);
        Append(head + [like, placeholder]);
      }
    }

    method VisitMissingField(e: Expr) returns (outcome: Outcome<Exception>)
      requires e.MissingFieldExpr? && Valid()
      modifies outer, cteManager
      ensures Valid() && |old(cteManager.definitions)| <= |cteManager.definitions|
      ensures Reflects(outcome, Snapshot(), CompilerSpec.VisitMissingField(old(Snapshot()), CurrentContext(), e))
    {
      if currentSearchParameter.None? {
        outcome := Fail(NullReference);
        return;
      }
      var column := ColumnName(currentSearchParameter.value.paramType, e.field);
      if column.Err? {
        outcome := Fail(column.error);
        return;
      }
      Append([Sql(currentTableAlias.value), Sql("."), Sql(column.value), Sql(" IS NULL")]);
      outcome := Pass;
    }

    method VisitMissingSearchParameter(e: Expr) returns (outcome: Outcome<Exception>)
      requires e.MissingSearchParameterExpr? && Valid()
      modifies this, outer, cteManager, parameters
      ensures Valid() && |old(cteManager.definitions)| <= |cteManager.definitions|
      ensures currentSearchParameter == old(currentSearchParameter) && currentTableAlias == old(currentTableAlias)
      ensures Reflects(outcome, Snapshot(),
        CompilerSpec.VisitMissingSearchParameter(catalogs, old(Snapshot()), old(CurrentContext()), e))
      decreases Size(e), 1, 0
    {
      var parameterSnapshot := currentSearchParameter;
      currentSearchParameter := Some(e.parameter);
      var aliasSnapshot := currentTableAlias;
      currentTableAlias := Some("i");
      if e.isMissing {
        Append([Sql(" NOT ")]);
      }
      var id := Find(catalogs.searchParamUrlToId, (e.parameter.url, None));
      if id.Err? {
        outcome := Fail(id.error);
      } else {
        outcome := GenerateSubquery(true, id.value, None);
      }
      currentSearchParameter := parameterSnapshot;
      currentTableAlias := aliasSnapshot;
    }

    method VisitMultiary(e: Expr) returns (outcome: Outcome<Exception>)
      requires e.MultiaryExpr?
      requires Valid() && CompositeParentsOk(e, CurrentContext().Parameter())
      modifies this, outer, cteManager, parameters
      ensures Valid() && |old(cteManager.definitions)| <= |cteManager.definitions|
      ensures currentSearchParameter == old(currentSearchParameter) && currentTableAlias == old(currentTableAlias)
      ensures Reflects(outcome, Snapshot(),
        CompilerSpec.VisitMultiary(catalogs, old(Snapshot()), old(CurrentContext()), e))
      decreases Size(e), 1, 0
    {
      var operation := MultiaryOperatorText(e.multiaryOperator);
      if operation.Err? {
        outcome := Fail(operation.error);
        return;
      }
      ghost var entry := Snapshot();
      if e.multiaryOperator == Or {
        Append([Sql("(")]);
      }
      assert Snapshot() == if e.multiaryOperator == Or then CompilerSpec.Emit(entry, sink, [Sql("(")]) else entry;
      outcome := VisitOperands(e, operation.value, CurrentContext());
      if outcome.Fail? {
        return;
      }
      if e.multiaryOperator == Or {
        Append([Sql(")")]);
      }
    }

    /** The loop over a group's operands, each but the last followed by the separator. */
    method VisitOperands(e: Expr, op: string, ghost ctx: Context) returns (outcome: Outcome<Exception>)
      requires e.MultiaryExpr?
      requires Valid() && CurrentContext() == ctx && CompositeParentsOk(e, ctx.Parameter())
      modifies this, outer, cteManager, parameters
      ensures Valid() && |old(cteManager.definitions)| <= |cteManager.definitions|
      ensures currentSearchParameter == old(currentSearchParameter) && currentTableAlias == old(currentTableAlias)
      ensures CurrentContext() == ctx
      ensures Reflects(outcome, Snapshot(), CompilerSpec.VisitOperands(catalogs, old(Snapshot()), ctx, e, op, 0))
      decreases Size(e), 0, 2 * |e.operands|
    {
      ghost var spec := CompilerSpec.VisitOperands(catalogs, Snapshot(), ctx, e, op, 0);
      var i := 0;
      while i < |e.operands|
        invariant 0 <= i <= |e.operands|
        invariant Valid() && |old(cteManager.definitions)| <= |cteManager.definitions|
        invariant currentSearchParameter == old(currentSearchParameter) && currentTableAlias == old(currentTableAlias)
        invariant CurrentContext() == ctx
        invariant CompilerSpec.VisitOperands(catalogs, Snapshot(), ctx, e, op, i) == spec
      {
        ghost var before := Snapshot();
        outcome := VisitOperand(e, op, i, ctx);
        if outcome.Fail? {
          assert CompilerSpec.VisitOperands(catalogs, before, ctx, e, op, i) == Err(outcome.error);
          return;
        }
        assert CompilerSpec.VisitOperands(catalogs, before, ctx, e, op, i)
          == CompilerSpec.VisitOperands(catalogs, Snapshot(), ctx, e, op, i + 1);
        i := i + 1;
      }
      outcome := Pass;
    }

    /**
     * One pass of the loop over a group's operands: the operand, then the
     * separator unless it is the last one.
     */
    method VisitOperand(e: Expr, op: string, i: nat, ghost ctx: Context) returns (outcome: Outcome<Exception>)
      requires e.MultiaryExpr? && i < |e.operands|
      requires Valid() && CurrentContext() == ctx && CompositeParentsOk(e, ctx.Parameter())
      modifies this, outer, cteManager, parameters
      ensures Valid() && |old(cteManager.definitions)| <= |cteManager.definitions|
      ensures currentSearchParameter == old(currentSearchParameter) && currentTableAlias == old(currentTableAlias)
      ensures CurrentContext() == ctx
      ensures Reflects(outcome, Snapshot(), CompilerSpec.VisitOperand(catalogs, old(Snapshot()), ctx, e, op, i))
      decreases Size(e), 0, 2 * (|e.operands| - i) - 1
    {
      OperandSmaller(e.operands, i);
      outcome := Accept(e.operands[i]);
      if outcome.Fail? {
        return;
      }
      if i != |e.operands| - 1 {
        outcome := Separate(op);
      }
    }

    /** The separator written between two operands of an AND/OR group. */
    method Separate(op: string) returns (outcome: Outcome<Exception>)
      requires SinkOk(Snapshot(), sink)
      modifies outer, cteManager
      ensures SinkOk(Snapshot(), sink) && |old(cteManager.definitions)| <= |cteManager.definitions|
      ensures Reflects(outcome, Snapshot(), CompilerSpec.Separate(old(Snapshot()), sink, op))
    {
      var space := LastIsWhiteSpace(SinkText(Snapshot(), sink));
      if space.None? {
        outcome := Fail(IndexOutOfRange);
        return;
      }
      if !space.value {
        Append([Sql(" ")]);
      }
      Append([Sql(op), Sql(" ")]);
      outcome := Pass;
    }

    /**
     * The CTE of a chained predicate, written by a builder of its own that
     * shares the outer query, the CTE manager and the parameter collection
     * and appends to the new definition.
     */
    method ChainCte(e: Expr) returns (outcome: Outcome<Exception>)
      requires e.ChainedExpr? && CompositeParentsOk(e.inner, None)
      modifies outer, cteManager, parameters
      ensures |old(cteManager.definitions)| <= |cteManager.definitions|
      ensures Reflects(outcome, Snapshot(), CompilerSpec.ChainCte(catalogs, old(Snapshot()), e))
      decreases Size(e), 0, 0
    {
      var n := |cteManager.definitions|;
      var typeId := Find(catalogs.resourceTypeToId, e.targetResourceType);
      if typeId.Err? {
        outcome := Fail(typeId.error);
        return;
      }
      var placeholder := parameters.CreateParameter(IntLiteral(typeId.value), None);
      cteManager.definitions := cteManager.definitions
        + [CteHead(CteName(e.parameter.name, e.targetResourceType, n), placeholder)];
      var cteQueryBuilder := new SqlQueryBuilder(catalogs, outer, parameters, cteManager, CteBody(n));
      outcome := cteQueryBuilder.Accept(e.inner);
      if outcome.Fail? {
        return;
      }
      cteManager.definitions := cteManager.definitions[n := cteManager.definitions[n] + CteTail];
    }

    method VisitChained(e: Expr) returns (outcome: Outcome<Exception>)
      requires e.ChainedExpr?
      requires Valid() && CompositeParentsOk(e, CurrentContext().Parameter())
      modifies this, outer, cteManager, parameters
      ensures Valid() && |old(cteManager.definitions)| <= |cteManager.definitions|
      ensures currentSearchParameter == old(currentSearchParameter) && currentTableAlias == old(currentTableAlias)
      ensures Reflects(outcome, Snapshot(),
        CompilerSpec.VisitChained(catalogs, old(Snapshot()), old(CurrentContext()), e))
      decreases Size(e), 1, 0
    {
      var cteName := CteName(e.parameter.name, e.targetResourceType, |cteManager.definitions|);
      outcome := ChainCte(e);
      if outcome.Fail? {
        return;
      }
      outcome := ChainJoin(e, cteName);
    }

    /** The subquery joining the current search to the chain's table expression named cteName. */
    method ChainJoin(e: Expr, cteName: string) returns (outcome: Outcome<Exception>)
      requires e.ChainedExpr? && Valid()
      modifies this, outer, cteManager, parameters
      ensures Valid() && |old(cteManager.definitions)| <= |cteManager.definitions|
      ensures currentSearchParameter == old(currentSearchParameter) && currentTableAlias == old(currentTableAlias)
      ensures Reflects(outcome, Snapshot(),
        CompilerSpec.ChainJoin(catalogs, old(Snapshot()), old(CurrentContext()), e, cteName))
      decreases Size(e), 0, 0
    {
      var parameterSnapshot := currentSearchParameter;
      var aliasSnapshot := currentTableAlias;
      currentTableAlias := Some("i");
      currentSearchParameter := Some(e.parameter);
      var id := Find(catalogs.searchParamUrlToId, (e.parameter.url, None));
      if id.Err? {
        outcome := Fail(id.error);
      } else {
        ChainCriteriaSize(e.targetResourceType);
        outcome := GenerateSubquery(false, id.value, Some(ChainCriteria(e.targetResourceType)));
        if outcome.Pass? {
          var column := ColumnName(e.parameter.paramType, ReferenceResourceId);
          if column.Err? {
            outcome := Fail(column.error);
          } else {
            Append(CteJoin(cteName, column.value));
          }
        }
      }
      currentTableAlias := aliasSnapshot;
      currentSearchParameter := parameterSnapshot;
    }

    /**
     * `BuildQuery`: compile the root expression, if any, into the outer
     * query; put the registered CTE definitions in front of it, last
     * registered first; then the latest-version filter and the paging
     * window, whose page number and size are added to the collection.
     */
    static method BuildQuery(catalogs: Catalogs, root: Option<Expr>, parameterCollection: SqlParameterCollection,
                             pageSize: int, pageNum: int)
      returns (result: Result<seq<Piece>, Exception>)
      requires root.Some? ==> CompositeParentsOk(root.value, None)
      modifies parameterCollection
      ensures match CompilerSpec.BuildQuery(catalogs, root, old(parameterCollection.bindings), pageSize, pageNum)
              case Ok(built) => result == Ok(built.0) && parameterCollection.bindings == built.1
              case Err(x) => result == Err(x)
    {
      var cteManager := new CteManager();
      var query := new QueryBuffer([Sql(SelectText)]);
      if root.Some? {
        var builder := new SqlQueryBuilder(catalogs, query, parameterCollection, cteManager, Outer);
        var outcome := builder.Accept(root.value);
        if outcome.Fail? {
          result := Err(outcome.error);
          return;
        }
        query.pieces := query.pieces + [Sql("AND ")];
      }

      var text := query.pieces;
      if |cteManager.definitions| > 0 {
        var definitions := cteManager.definitions;
        var newQuery := [Sql("WITH ")];
        var i := |definitions| - 1;
        while i >= 0
          invariant -1 <= i < |definitions|
          invariant newQuery == [Sql("WITH ")] + DefinitionsFrom(definitions, i + 1)
        {
          newQuery := newQuery + definitions[i];
          if i != 0 {
            newQuery := newQuery + [Sql(","), NewLine];
          }
          i := i - 1;
        }
        text := newQuery + text;
      }

      text := text + LatestVersionPredicate + PagingClause;
      parameterCollection.AddWithValue("@pageNum", IntLiteral(pageNum));
      parameterCollection.AddWithValue("@pageSize", IntLiteral(pageSize));
      result := Ok(text);
    }
  }
}
