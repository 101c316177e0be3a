/**
 * What a chained predicate writes: the table expression it registers, with
 * the nested predicate compiled in place, and the join that ties the
 * current query to that expression by its name.
 */
module ChainText {
  import opened Wrappers
  import opened Expressions
  import opened Exceptions
  import opened SqlText
  import opened SchemaMapping
  import opened CompilerSpec
  import opened Evolution
  import opened QueryShape
  import opened PredicateText

  /**
   * A chain's CTE: a target type missing from the catalog raises
   * KeyNotFound; otherwise its id is bound as the next parameter, the next
   * definition opens with the CTE's name and that placeholder, holds the
   * nested predicate compiled into it by a builder without a scope, and ends
   * with the latest-version filter, while the outer query and the earlier
   * definitions stay as they were.
   */
  lemma ChainCteText(cat: Catalogs, st: State, e: Expr)
    requires e.ChainedExpr? && CompositeParentsOk(e.inner, None)
    ensures e.targetResourceType !in cat.resourceTypeToId ==> ChainCte(cat, st, e) == Err(KeyNotFound)
    ensures ChainCte(cat, st, e).Ok? ==>
      && e.targetResourceType in cat.resourceTypeToId
      && var n := |st.definitions|;
         var bound := Generated(IntLiteral(cat.resourceTypeToId[e.targetResourceType]), None);
         var head := CteHead(CteName(e.parameter.name, e.targetResourceType, n), Param(|st.bindings|));
         var registered := State(st.query, st.definitions + [head], st.bindings + [bound]);
         var nested := Accept(cat, registered, Context(CteBody(n), None), e.inner);
         var r := ChainCte(cat, st, e).value;
         && nested.Ok?
         && n < |nested.value.definitions| && n < |r.definitions|
         && r.query == st.query
         && r.definitions[..n] == st.definitions
         && |st.bindings| < |r.bindings| && r.bindings[|st.bindings|] == bound
         && head <= r.definitions[n]
         && r.definitions[n] == nested.value.definitions[n] + CteTail
         && |CteTail| <= |r.definitions[n]|
         && r.definitions[n][|r.definitions[n]| - |CteTail|..] == CteTail
  {
    if ChainCte(cat, st, e).Ok? {
      var n := |st.definitions|;
      var bound := Generated(IntLiteral(cat.resourceTypeToId[e.targetResourceType]), None);
      var head := CteHead(CteName(e.parameter.name, e.targetResourceType, n), Param(|st.bindings|));
      var registered := State(st.query, st.definitions + [head], st.bindings + [bound]);
      var body := Context(CteBody(n), None);
      AcceptEvolves(cat, registered, body, e.inner);
      var st3 := Accept(cat, registered, body, e.inner).value;
      assert registered.definitions[n] == head;
      forall j | 0 <= j < n
        ensures ChainCte(cat, st, e).value.definitions[j] == st.definitions[j]
      {
        assert st3.definitions[j] == registered.definitions[j];
      }
    }
  }

  /**
   * A chained predicate's join names the CTE the same predicate registered:
   * the next definition opens with that name, and the current buffer ends
   * with the EXISTS over that name on the chained parameter's reference id
   * column.
   */
  lemma ChainedJoinsOwnCte(cat: Catalogs, st: State, ctx: Context, e: Expr)
    requires e.ChainedExpr? && SinkOk(st, ctx.sink) && CompositeParentsOk(e, ctx.Parameter())
    requires VisitChained(cat, st, ctx, e).Ok?
    ensures ColumnName(e.parameter.paramType, ReferenceResourceId).Ok?
    ensures
      var n := |st.definitions|;
      var name := CteName(e.parameter.name, e.targetResourceType, n);
      var join := CteJoin(name, ColumnName(e.parameter.paramType, ReferenceResourceId).value);
      var r := VisitChained(cat, st, ctx, e).value;
      && n < |r.definitions|
      && CteHead(name, Param(|st.bindings|)) <= r.definitions[n]
      && SinkOk(r, ctx.sink)
      && var t := SinkText(r, ctx.sink);
         && SinkText(st, ctx.sink) <= t
         && |join| <= |t| && t[|t| - |join|..] == join
  {
    var n := |st.definitions|;
    var name := CteName(e.parameter.name, e.targetResourceType, n);
    ChainCteText(cat, st, e);
    ChainCteEvolves(cat, st, ctx.sink, e);
    var st4 := ChainCte(cat, st, e).value;
    ChainJoinEvolves(cat, st4, ctx, e, name);
    var r := ChainJoin(cat, st4, ctx, e, name).value;
    assert r.definitions[n] == st4.definitions[n];
    EvolvesTrans(st, st4, r, ctx.sink);
    EvolvesSinkGrows(st, r, ctx.sink);
    var local := ctx.Enter(e.parameter, "i");
    var id := Find(cat.searchParamUrlToId, (e.parameter.url, None)).value;
    var st5 := GenerateSubquery(cat, st4, local, false, id, Some(ChainCriteria(e.targetResourceType))).value;
    var join := CteJoin(name, ColumnName(e.parameter.paramType, ReferenceResourceId).value);
    assert SinkText(r, ctx.sink) == SinkText(st5, ctx.sink) + join;
  }

  /**
   * Between the chain's CTE and the join, a chained predicate writes the
   * reference criteria (no base URI, and the target resource type) compiled
   * inside an EXISTS over the chained parameter's index table under alias
   * `i`: the current buffer ends with exactly that compiled text followed by
   * the join.
   */
  lemma ChainCriteriaBeforeJoin(cat: Catalogs, st: State, ctx: Context, e: Expr)
    requires e.ChainedExpr? && SinkOk(st, ctx.sink) && CompositeParentsOk(e, ctx.Parameter())
    requires VisitChained(cat, st, ctx, e).Ok?
    ensures ColumnName(e.parameter.paramType, ReferenceResourceId).Ok?
    ensures
      && ChainCte(cat, st, e).Ok? && SinkOk(ChainCte(cat, st, e).value, ctx.sink)
      && (e.parameter.url, None) in cat.searchParamUrlToId
      && e.parameter.paramType in IndexTables
      && var registered := ChainCte(cat, st, e).value;
         var id := cat.searchParamUrlToId[(e.parameter.url, None)];
         var head := SubqueryHead(IndexTables[e.parameter.paramType], "i", Param(|registered.bindings|));
         var bodyStart := Emit(Emit(registered.(bindings := registered.bindings + [Generated(IntLiteral(id), None)]), ctx.sink, head), ctx.sink, [Sql("AND ")]);
         var criteria := Accept(cat, bodyStart, ctx.Enter(e.parameter, "i"), ChainCriteria(e.targetResourceType));
         var name := CteName(e.parameter.name, e.targetResourceType, |st.definitions|);
         && SinkOk(bodyStart, ctx.sink)
         && criteria.Ok? && SinkOk(criteria.value, ctx.sink)
         && SinkText(VisitChained(cat, st, ctx, e).value, ctx.sink)
            == SinkText(criteria.value, ctx.sink) + CteJoin(name, ColumnName(e.parameter.paramType, ReferenceResourceId).value)
  {
    ChainCteEvolves(cat, st, ctx.sink, e);
    var st4 := ChainCte(cat, st, e).value;
    var local := ctx.Enter(e.parameter, "i");
    var id := Find(cat.searchParamUrlToId, (e.parameter.url, None)).value;
    ChainCriteriaSize(e.targetResourceType);
    SubqueryOpens(cat, st4, local, false, id, Some(ChainCriteria(e.targetResourceType)));
  }
}
