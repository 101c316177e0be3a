/**
 * What a single predicate writes and binds: the comparison it renders, the
 * value it hands to the parameter manager, and the exception it raises
 * otherwise.
 */
module PredicateText {
  import opened Wrappers
  import opened Expressions
  import opened Exceptions
  import opened SqlText
  import opened SchemaMapping
  import opened CompilerSpec
  import opened Evolution
  import opened QueryShape

  /**
   * A comparison on a field writes the field's column, the operator's token
   * (from which the operator can be read back) and one placeholder bound to
   * the compared value; on `_type` the value must be a resource type name,
   * which is bound as its catalog id.
   */
  lemma BinaryComparison(cat: Catalogs, st: State, ctx: Context, e: Expr)
    requires e.BinaryExpr? && SinkOk(st, ctx.sink)
    ensures ctx.scope.None? ==> VisitBinary(cat, st, ctx, e) == Err(NullReference)
    ensures ctx.scope.Some? && ctx.scope.value.parameter.name == ResourceTypeParameterName ==>
      var r := VisitBinary(cat, st, ctx, e);
      && (!e.value.TextLiteral? ==> r == Err(InvalidCast))
      && (e.value.TextLiteral? && e.value.text !in cat.resourceTypeToId ==> r == Err(KeyNotFound))
      && (e.value.TextLiteral? && e.value.text in cat.resourceTypeToId ==>
            && r.Ok?
            && r.value.bindings == st.bindings + [Generated(IntLiteral(cat.resourceTypeToId[e.value.text]), None)]
            && SinkText(r.value, ctx.sink) == SinkText(st, ctx.sink) + [Sql("r.ResourceTypePK = "), Param(|st.bindings|), NewLine])
    ensures
      && ctx.scope.Some? && ctx.scope.value.parameter.name != ResourceTypeParameterName
      && (ctx.scope.value.parameter.paramType, e.field) in ColumnTable
      ==>
      var r := VisitBinary(cat, st, ctx, e);
      && (r.Ok? <==> !e.binaryOperator.UndefinedBinaryOperator?)
      && (r.Err? ==> r.error == InvalidOperation)
      && (r.Ok? ==>
            var t := SinkText(r.value, ctx.sink);
            var old_ := SinkText(st, ctx.sink);
            && r.value.bindings == st.bindings + [Generated(e.value, None)]
            && |t| == |old_| + 5 && t[..|old_|] == old_
            && t[|old_|..|old_| + 3] == [Sql(ctx.scope.value.alias), Sql("."), Sql(ColumnTable[(ctx.scope.value.parameter.paramType, e.field)])]
            && t[|old_| + 3].Sql? && ParseComparison(t[|old_| + 3].text) == Some(e.binaryOperator)
            && t[|old_| + 4] == Param(|st.bindings|))
    ensures
      && ctx.scope.Some? && ctx.scope.value.parameter.name != ResourceTypeParameterName
      && (ctx.scope.value.parameter.paramType, e.field) !in ColumnTable
      ==> VisitBinary(cat, st, ctx, e) == Err(InvalidOperation)
  {
  }

  /**
   * A pattern match writes `LIKE` (or `NOT LIKE` for the negated operators)
   * and binds the value wrapped in the wildcards the operator calls for, so
   * that stripping them gives back the searched text; an operator outside
   * the six leaves `LIKE` without an operand and binds nothing.
   */
  lemma StringPatternMatch(cat: Catalogs, st: State, ctx: Context, e: Expr)
    requires e.StringExpr? && SinkOk(st, ctx.sink) && ctx.scope.Some?
    requires e.field != TokenText && e.field != ReferenceBaseUri && e.stringOperator != Equals
    requires (ctx.scope.value.parameter.paramType, e.field) in ColumnTable
    ensures VisitString(cat, st, ctx, e).Ok?
    ensures
      var r := VisitString(cat, st, ctx, e).value;
      var t := SinkText(r, ctx.sink);
      var old_ := SinkText(st, ctx.sink);
      var head := [Sql(ctx.scope.value.alias), Sql("."), Sql(ColumnTable[(ctx.scope.value.parameter.paramType, e.field)])];
      var like := Sql(if IsNegatedMatch(e.stringOperator) then " NOT LIKE" else " LIKE ");
      if e.stringOperator.UndefinedStringOperator? then
        r.bindings == st.bindings && t == old_ + head + [like]
      else
        && |r.bindings| == |st.bindings| + 1 && r.bindings[..|st.bindings|] == st.bindings
        && r.bindings[|st.bindings|].Generated? && r.bindings[|st.bindings|].dbType.None?
        && r.bindings[|st.bindings|].value.TextLiteral?
        && StripWildcards(e.stringOperator, r.bindings[|st.bindings|].value.text) == Some(e.text)
        && t == old_ + head + [like, Param(|st.bindings|)]
  {
    var r := VisitString(cat, st, ctx, e).value;
    if !e.stringOperator.UndefinedStringOperator? {
      var pattern := LikePattern(e.stringOperator, e.text).value;
      assert r.bindings == st.bindings + [Generated(TextLiteral(pattern), None)];
    }
  }

  /**
   * An exact string match writes `= ` and one placeholder: a referenced
   * resource type is bound as its catalog id, a referenced resource id is
   * bound with a VarChar type hint, any other field as the text itself.
   */
  lemma StringExactMatch(cat: Catalogs, st: State, ctx: Context, e: Expr)
    requires e.StringExpr? && SinkOk(st, ctx.sink) && ctx.scope.Some?
    requires e.field != TokenText && e.field != ReferenceBaseUri && e.stringOperator == Equals
    requires (ctx.scope.value.parameter.paramType, e.field) in ColumnTable
    ensures var r := VisitString(cat, st, ctx, e);
      && (r.Err? <==> e.field == ReferenceResourceType && e.text !in cat.resourceTypeToId)
      && (r.Err? ==> r.error == KeyNotFound)
      && (r.Ok? ==>
            var bound :=
              if e.field == ReferenceResourceType then Generated(IntLiteral(cat.resourceTypeToId[e.text]), None)
              else if e.field == ReferenceResourceId then Generated(TextLiteral(e.text), Some(VarChar))
              else Generated(TextLiteral(e.text), None);
            && r.value.bindings == st.bindings + [bound]
            && SinkText(r.value, ctx.sink) == SinkText(st, ctx.sink)
                 + [Sql(ctx.scope.value.alias), Sql("."), Sql(ColumnTable[(ctx.scope.value.parameter.paramType, e.field)]),
                    Sql(" = "), Param(|st.bindings|), NewLine])
  {
  }

  /**
   * A subquery binds the search-parameter id as the next parameter and opens
   * with the EXISTS header over the parameter's table, under the current
   * alias, filtered by that placeholder; an inner predicate follows after
   * `AND `, and the text ends with `)` exactly when the caller asks for it
   * (without an inner predicate, the header and that parenthesis are all).
   */
  lemma SubqueryOpens(
    cat: Catalogs, st: State, ctx: Context, closeParenthesis: bool, searchParamId: int, inner: Option<Expr>)
    requires ctx.scope.Some? && SinkOk(st, ctx.sink)
    requires inner.Some? ==> CompositeParentsOk(inner.value, ctx.Parameter())
    requires GenerateSubquery(cat, st, ctx, closeParenthesis, searchParamId, inner).Ok?
    ensures ctx.scope.value.parameter.paramType in IndexTables
    ensures
      var r := GenerateSubquery(cat, st, ctx, closeParenthesis, searchParamId, inner).value;
      && |st.bindings| < |r.bindings|
      && r.bindings[|st.bindings|] == Generated(IntLiteral(searchParamId), None)
    ensures
      var head := SubqueryHead(IndexTables[ctx.scope.value.parameter.paramType], ctx.scope.value.alias, Param(|st.bindings|));
      var old_ := SinkText(st, ctx.sink);
      var t := SinkText(GenerateSubquery(cat, st, ctx, closeParenthesis, searchParamId, inner).value, ctx.sink);
      && old_ + head <= t
      && (inner.Some? ==> old_ + head + [Sql("AND ")] <= t)
      && (inner.None? ==> t == old_ + head + (if closeParenthesis then [Sql(")")] else []))
      && (closeParenthesis ==> |t| > 0 && t[|t| - 1] == Sql(")"))
    ensures inner.Some? ==>
      var head := SubqueryHead(IndexTables[ctx.scope.value.parameter.paramType], ctx.scope.value.alias, Param(|st.bindings|));
      var bodyStart := Emit(Emit(st.(bindings := st.bindings + [Generated(IntLiteral(searchParamId), None)]), ctx.sink, head), ctx.sink, [Sql("AND ")]);
      && SinkOk(bodyStart, ctx.sink)
      && SinkText(bodyStart, ctx.sink) == SinkText(st, ctx.sink) + head + [Sql("AND ")]
      && Accept(cat, bodyStart, ctx, inner.value).Ok?
      && SinkOk(Accept(cat, bodyStart, ctx, inner.value).value, ctx.sink)
      && SinkText(GenerateSubquery(cat, st, ctx, closeParenthesis, searchParamId, inner).value, ctx.sink)
         == SinkText(Accept(cat, bodyStart, ctx, inner.value).value, ctx.sink) + (if closeParenthesis then [Sql(")")] else [])
  {
    var alias := ctx.scope.value.alias;
    var table := TableName(ctx.scope.value.parameter.paramType).value;
    var (st1, placeholder) := Bind(st, IntLiteral(searchParamId), None);
    var st2 := Emit(st1, ctx.sink, SubqueryHead(table, alias, placeholder));
    if inner.Some? {
      var st2a := Emit(st2, ctx.sink, [Sql("AND ")]);
      AcceptEvolves(cat, st2a, ctx, inner.value);
      var st3 := Accept(cat, st2a, ctx, inner.value).value;
      EvolvesSinkGrows(st2a, st3, ctx.sink);
      assert st2a.bindings == st.bindings + [Generated(IntLiteral(searchParamId), None)];
      assert st2a.bindings <= st3.bindings;
    }
  }

  /**
   * A test for a missing search parameter is `NOT EXISTS` over the
   * parameter's index, a test for a present one plain `EXISTS`: a parameter
   * the catalog lacks raises KeyNotFound; otherwise its id is bound as the
   * next parameter and the closed subquery header under alias `i` is all
   * that is written.
   */
  lemma MissingSearchParameterExists(cat: Catalogs, st: State, ctx: Context, e: Expr)
    requires e.MissingSearchParameterExpr? && SinkOk(st, ctx.sink)
    ensures (e.parameter.url, None) !in cat.searchParamUrlToId ==>
      VisitMissingSearchParameter(cat, st, ctx, e) == Err(KeyNotFound)
    ensures VisitMissingSearchParameter(cat, st, ctx, e).Ok? ==>
      var old_ := SinkText(st, ctx.sink);
      var t := SinkText(VisitMissingSearchParameter(cat, st, ctx, e).value, ctx.sink);
      var opening := if e.isMissing then [Sql(" NOT "), Sql(ExistsText)] else [Sql(ExistsText)];
      old_ + opening <= t
    ensures VisitMissingSearchParameter(cat, st, ctx, e).Ok? ==>
      && (e.parameter.url, None) in cat.searchParamUrlToId
      && e.parameter.paramType in IndexTables
      && var r := VisitMissingSearchParameter(cat, st, ctx, e).value;
         var head := SubqueryHead(IndexTables[e.parameter.paramType], "i", Param(|st.bindings|));
         && r.bindings == st.bindings + [Generated(IntLiteral(cat.searchParamUrlToId[(e.parameter.url, None)]), None)]
         && SinkText(r, ctx.sink)
            == SinkText(st, ctx.sink) + (if e.isMissing then [Sql(" NOT ")] else []) + head + [Sql(")")]
  {
    if VisitMissingSearchParameter(cat, st, ctx, e).Err? {
      return;
    }
    var local := ctx.Enter(e.parameter, "i");
    var st1 := if e.isMissing then Emit(st, ctx.sink, [Sql(" NOT ")]) else st;
    var id := Find(cat.searchParamUrlToId, (e.parameter.url, None)).value;
    var head := SubqueryHead(TableName(e.parameter.paramType).value, "i", Param(|st.bindings|));
    var st2 := Emit(st1.(bindings := st1.bindings + [Generated(IntLiteral(id), None)]), ctx.sink, head);
    assert VisitMissingSearchParameter(cat, st, ctx, e) == Ok(Emit(st2, ctx.sink, [Sql(")")]));
    assert SinkText(st1, ctx.sink) == SinkText(st, ctx.sink) + (if e.isMissing then [Sql(" NOT ")] else []);
  }

  /**
   * `_type` and composite parameters compile the inner predicate straight
   * into the current buffer under alias `i` (a composite's components open
   * their own subqueries), then a line break.
   */
  lemma SearchParameterInPlace(cat: Catalogs, st: State, ctx: Context, e: Expr)
    requires e.SearchParameterExpr? && SinkOk(st, ctx.sink) && CompositeParentsOk(e, ctx.Parameter())
    requires e.parameter.name == ResourceTypeParameterName || e.parameter.paramType == Composite
    ensures
      var r := VisitSearchParameter(cat, st, ctx, e);
      var inner := Accept(cat, st, ctx.Enter(e.parameter, "i"), e.inner);
      && (r.Ok? <==> inner.Ok?)
      && (r.Err? ==> r.error == inner.error)
      && (r.Ok? ==>
            && r.value.bindings == inner.value.bindings
            && |r.value.definitions| == |inner.value.definitions|
            && SinkText(r.value, ctx.sink) == SinkText(inner.value, ctx.sink) + [NewLine])
  {
  }

  /**
   * Any other parameter is looked up by its URL (KeyNotFound when the
   * catalog lacks it) and wraps the inner predicate in a subquery under
   * alias `i` over its index table, filtered by the parameter's id bound as
   * the next parameter; the subquery is closed and a line break follows.
   */
  lemma SearchParameterSubquery(cat: Catalogs, st: State, ctx: Context, e: Expr)
    requires e.SearchParameterExpr? && SinkOk(st, ctx.sink) && CompositeParentsOk(e, ctx.Parameter())
    requires e.parameter.name != ResourceTypeParameterName && e.parameter.paramType != Composite
    ensures (e.parameter.url, None) !in cat.searchParamUrlToId ==> VisitSearchParameter(cat, st, ctx, e) == Err(KeyNotFound)
    ensures VisitSearchParameter(cat, st, ctx, e).Ok? ==>
      && (e.parameter.url, None) in cat.searchParamUrlToId
      && e.parameter.paramType in IndexTables
      && var r := VisitSearchParameter(cat, st, ctx, e).value;
         var head := SubqueryHead(IndexTables[e.parameter.paramType], "i", Param(|st.bindings|));
         var old_ := SinkText(st, ctx.sink);
         var t := SinkText(r, ctx.sink);
         && |st.bindings| < |r.bindings|
         && r.bindings[|st.bindings|] == Generated(IntLiteral(cat.searchParamUrlToId[(e.parameter.url, None)]), None)
         && old_ + head + [Sql("AND ")] <= t
         && 2 <= |t| && t[|t| - 2] == Sql(")") && t[|t| - 1] == NewLine
    ensures VisitSearchParameter(cat, st, ctx, e).Ok? ==>
      var local := ctx.Enter(e.parameter, "i");
      var id := cat.searchParamUrlToId[(e.parameter.url, None)];
      var head := SubqueryHead(IndexTables[e.parameter.paramType], "i", Param(|st.bindings|));
      var bodyStart := Emit(Emit(st.(bindings := st.bindings + [Generated(IntLiteral(id), None)]), ctx.sink, head), ctx.sink, [Sql("AND ")]);
      && SinkOk(bodyStart, ctx.sink)
      && Accept(cat, bodyStart, local, e.inner).Ok?
      && SinkOk(Accept(cat, bodyStart, local, e.inner).value, ctx.sink)
      && SinkText(VisitSearchParameter(cat, st, ctx, e).value, ctx.sink)
         == SinkText(Accept(cat, bodyStart, local, e.inner).value, ctx.sink) + [Sql(")"), NewLine]
  {
    if VisitSearchParameter(cat, st, ctx, e).Ok? {
      var local := ctx.Enter(e.parameter, "i");
      var id := Find(cat.searchParamUrlToId, (e.parameter.url, None)).value;
      SubqueryOpens(cat, st, local, true, id, Some(e.inner));
    }
  }

  /**
   * A composite component is looked up under its parent's URL and its index
   * reduced to a byte (KeyNotFound when the catalog lacks that pair) and
   * opens a subquery over its own index table under the correlation alias
   * `c<index>`, filtered by the component's id bound as the next parameter,
   * followed by `AND ` and its inner predicate.
   */
  lemma CompositeComponentOpens(cat: Catalogs, st: State, ctx: Context, e: Expr)
    requires e.CompositeComponentExpr? && SinkOk(st, ctx.sink) && CompositeParentsOk(e, ctx.Parameter())
    ensures
      var key := (ctx.scope.value.parameter.url, Some(ComponentKey(e.componentIndex)));
      key !in cat.searchParamUrlToId ==> VisitCompositeComponent(cat, st, ctx, e) == Err(KeyNotFound)
    ensures VisitCompositeComponent(cat, st, ctx, e).Ok? ==>
      var key := (ctx.scope.value.parameter.url, Some(ComponentKey(e.componentIndex)));
      && key in cat.searchParamUrlToId
      && e.parameter.paramType in IndexTables
      && var r := VisitCompositeComponent(cat, st, ctx, e).value;
         var head := SubqueryHead(IndexTables[e.parameter.paramType], CorrelationAlias(e.componentIndex), Param(|st.bindings|));
         && |st.bindings| < |r.bindings|
         && r.bindings[|st.bindings|] == Generated(IntLiteral(cat.searchParamUrlToId[key]), None)
         && SinkText(st, ctx.sink) + head + [Sql("AND ")] <= SinkText(r, ctx.sink)
    ensures VisitCompositeComponent(cat, st, ctx, e).Ok? ==>
      var parent := ctx.scope.value.parameter;
      var alias := CorrelationAlias(e.componentIndex);
      var id := cat.searchParamUrlToId[(parent.url, Some(ComponentKey(e.componentIndex)))];
      var head := SubqueryHead(IndexTables[e.parameter.paramType], alias, Param(|st.bindings|));
      var bodyStart := Emit(Emit(st.(bindings := st.bindings + [Generated(IntLiteral(id), None)]), ctx.sink, head), ctx.sink, [Sql("AND ")]);
      && SinkOk(bodyStart, ctx.sink)
      && Accept(cat, bodyStart, ctx.Enter(e.parameter, alias), e.inner).Ok?
      && SinkOk(Accept(cat, bodyStart, ctx.Enter(e.parameter, alias), e.inner).value, ctx.sink)
      && SinkText(VisitCompositeComponent(cat, st, ctx, e).value, ctx.sink)
         == SinkText(Accept(cat, bodyStart, ctx.Enter(e.parameter, alias), e.inner).value, ctx.sink)
            + ComponentTail(e.componentIndex, parent.componentCount)
  {
    if VisitCompositeComponent(cat, st, ctx, e).Ok? {
      var parent := ctx.scope.value.parameter;
      var local := ctx.Enter(e.parameter, CorrelationAlias(e.componentIndex));
      var id := Find(cat.searchParamUrlToId, (parent.url, Some(ComponentKey(e.componentIndex)))).value;
      SubqueryOpens(cat, st, local, false, id, Some(e.inner));
      var st1 := GenerateSubquery(cat, st, local, false, id, Some(e.inner)).value;
      ComponentTailAppended(st1, ctx.sink, e.componentIndex, parent.componentCount);
    }
  }

  /**
   * A test for a missing field is `IS NULL` on the field's column under the
   * current alias; it binds nothing. Without a scope it raises
   * NullReference, on a field the parameter's type lacks InvalidOperation.
   */
  lemma MissingFieldText(st: State, ctx: Context, e: Expr)
    requires e.MissingFieldExpr? && SinkOk(st, ctx.sink)
    ensures ctx.scope.None? ==> VisitMissingField(st, ctx, e) == Err(NullReference)
    ensures ctx.scope.Some? ==>
      var r := VisitMissingField(st, ctx, e);
      var key := (ctx.scope.value.parameter.paramType, e.field);
      && (r.Ok? <==> key in ColumnTable)
      && (r.Err? ==> r.error == InvalidOperation)
      && (r.Ok? ==>
            && r.value.bindings == st.bindings
            && |r.value.definitions| == |st.definitions|
            && SinkText(r.value, ctx.sink)
               == SinkText(st, ctx.sink) + [Sql(ctx.scope.value.alias), Sql("."), Sql(ColumnTable[key]), Sql(" IS NULL")])
  {
  }

  /**
   * A search on a token's text is an EXISTS over the token-text table under
   * the alias `<alias>t`, joined on the field's column by hash, and binds
   * the text between `%` wildcards for its LIKE test.
   */
  lemma TokenTextLookup(cat: Catalogs, st: State, ctx: Context, e: Expr)
    requires e.StringExpr? && SinkOk(st, ctx.sink) && ctx.scope.Some? && e.field == TokenText
    ensures
      var r := VisitString(cat, st, ctx, e);
      var key := (ctx.scope.value.parameter.paramType, e.field);
      && (r.Ok? <==> key in ColumnTable)
      && (r.Err? ==> r.error == InvalidOperation)
      && (r.Ok? ==>
            var alias := ctx.scope.value.alias;
            var old_ := SinkText(st, ctx.sink);
            var t := SinkText(r.value, ctx.sink);
            && r.value.bindings == st.bindings + [Generated(TextLiteral("%" + e.text + "%"), None)]
            && |t| == |old_| + 16 && t[..|old_|] == old_
            && t[|old_|] == Sql("EXISTS (\nSELECT * \nFROM dbo.TokenText ") && t[|old_| + 1] == Sql(alias + "t")
            && t[|old_| + 4] == Sql(alias) && t[|old_| + 6] == Sql(ColumnTable[key])
            && t[|old_| + 7] == Sql(" = ") && t[|old_| + 8] == Sql(alias + "t")
            && t[|old_| + 11] == Sql(".Text LIKE ") && t[|old_| + 12] == Param(|st.bindings|))
  {
    var key := (ctx.scope.value.parameter.paramType, e.field);
    if key in ColumnTable {
      var alias := ctx.scope.value.alias;
      LookupAppended(SinkText(st, ctx.sink), SinkText(VisitString(cat, st, ctx, e).value, ctx.sink),
        "EXISTS (\nSELECT * \nFROM dbo.TokenText ", alias + "t", alias, ColumnTable[key], ".Hash\nAND ", ".Text LIKE ", Param(|st.bindings|));
    }
  }

  /**
   * A search on a reference's base URI is an EXISTS over the URI table under
   * the alias `<alias>u`, joined on the field's column by URI key, and binds
   * the text as given for an equality test.
   */
  lemma BaseUriLookup(cat: Catalogs, st: State, ctx: Context, e: Expr)
    requires e.StringExpr? && SinkOk(st, ctx.sink) && ctx.scope.Some? && e.field == ReferenceBaseUri
    ensures
      var r := VisitString(cat, st, ctx, e);
      var key := (ctx.scope.value.parameter.paramType, e.field);
      && (r.Ok? <==> key in ColumnTable)
      && (r.Err? ==> r.error == InvalidOperation)
      && (r.Ok? ==>
            var alias := ctx.scope.value.alias;
            var old_ := SinkText(st, ctx.sink);
            var t := SinkText(r.value, ctx.sink);
            && r.value.bindings == st.bindings + [Generated(TextLiteral(e.text), None)]
            && |t| == |old_| + 16 && t[..|old_|] == old_
            && t[|old_|] == Sql("EXISTS (\nSELECT * \nFROM dbo.Uri ") && t[|old_| + 1] == Sql(alias + "u")
            && t[|old_| + 4] == Sql(alias) && t[|old_| + 6] == Sql(ColumnTable[key])
            && t[|old_| + 7] == Sql(" = ") && t[|old_| + 8] == Sql(alias + "u")
            && t[|old_| + 11] == Sql(".Uri = ") && t[|old_| + 12] == Param(|st.bindings|))
  {
    var key := (ctx.scope.value.parameter.paramType, e.field);
    if key in ColumnTable {
      var alias := ctx.scope.value.alias;
      LookupAppended(SinkText(st, ctx.sink), SinkText(VisitString(cat, st, ctx, e).value, ctx.sink),
        "EXISTS (\nSELECT * \nFROM dbo.Uri ", alias + "u", alias, ColumnTable[key], ".UriPK\nAND ", ".Uri = ", Param(|st.bindings|));
    }
  }

  /** Where the pieces of a lookup EXISTS land once appended to a buffer. */
  lemma LookupAppended(
    old_: seq<Piece>, t: seq<Piece>,
    opening: string, lookup: string, alias: string, column: string, join: string, test: string, placeholder: Piece)
    requires t == old_ + LookupExists(opening, lookup, alias, column, join, test, placeholder)
    ensures |t| == |old_| + 16 && t[..|old_|] == old_
    ensures t[|old_|] == Sql(opening) && t[|old_| + 1] == Sql(lookup)
    ensures t[|old_| + 4] == Sql(alias) && t[|old_| + 6] == Sql(column)
    ensures t[|old_| + 7] == Sql(" = ") && t[|old_| + 8] == Sql(lookup)
    ensures t[|old_| + 11] == Sql(test) && t[|old_| + 12] == placeholder
  {
  }

  /** A string match outside any search parameter raises NullReference. */
  lemma StringNeedsScope(cat: Catalogs, st: State, ctx: Context, e: Expr)
    requires e.StringExpr? && SinkOk(st, ctx.sink) && ctx.scope.None?
    ensures VisitString(cat, st, ctx, e) == Err(NullReference)
  {
  }

  /**
   * A string match on a field the current parameter's table has no column
   * for raises InvalidOperation, whatever the field and the operator.
   */
  lemma StringNeedsColumn(cat: Catalogs, st: State, ctx: Context, e: Expr)
    requires e.StringExpr? && SinkOk(st, ctx.sink) && ctx.scope.Some?
    requires (ctx.scope.value.parameter.paramType, e.field) !in ColumnTable
    ensures VisitString(cat, st, ctx, e) == Err(InvalidOperation)
  {
  }

  /** On a token's text or a reference's base URI the string operator plays no part. */
  lemma StringLookupIgnoresOperator(cat: Catalogs, st: State, ctx: Context, e: Expr, other: StringOperator)
    requires e.StringExpr? && SinkOk(st, ctx.sink)
    requires e.field == TokenText || e.field == ReferenceBaseUri
    ensures VisitString(cat, st, ctx, e.(stringOperator := other)) == VisitString(cat, st, ctx, e)
  {
  }
}
