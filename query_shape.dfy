/**
 * The shape of what the builder writes: the final query and its parameter
 * collection, the separator between the operands of a group, and the tail a
 * composite component leaves.
 */
module QueryShape {
  import opened Wrappers
  import opened Expressions
  import opened Exceptions
  import opened SqlText
  import opened CompilerSpec
  import opened Evolution
  import opened CteOrdering

  lemma EvolvesSinkGrows(a: State, b: State, sink: Sink)
    requires SinkOk(a, sink) && Evolves(a, b, sink)
    ensures SinkOk(b, sink) && SinkText(a, sink) <= SinkText(b, sink)
  {
  }

  lemma {:induction false} DefinitionsFromBound(st: State, definitions: seq<seq<Piece>>, j: nat)
    requires forall k :: 0 <= k < |definitions| ==> Bound(st, definitions[k])
    ensures Bound(st, DefinitionsFrom(definitions, j))
    decreases |definitions| - j
  {
    if j < |definitions| {
      DefinitionsFromBound(st, definitions, j + 1);
      assert Bound(st, definitions[j]);
    }
  }

  /**
   * The parameter collection of a built query keeps the caller's parameters,
   * adds only values bound by the parameter manager, and ends with the page
   * number and the page size.
   */
  lemma BuildQueryParameters(cat: Catalogs, root: Option<Expr>, bindings: seq<Binding>, pageSize: int, pageNum: int)
    requires root.Some? ==> CompositeParentsOk(root.value, None)
    requires BuildQuery(cat, root, bindings, pageSize, pageNum).Ok?
    ensures var out := BuildQuery(cat, root, bindings, pageSize, pageNum).value.1;
      && bindings <= out && |bindings| + 2 <= |out|
      && (forall k :: |bindings| <= k < |out| - 2 ==> out[k].Generated?)
      && out[|out| - 2] == Named("@pageNum", IntLiteral(pageNum))
      && out[|out| - 1] == Named("@pageSize", IntLiteral(pageSize))
  {
    RootEvolves(cat, root, bindings);
    AssembledBindings(Initial(bindings), CompileRoot(cat, root, bindings).value, pageSize, pageNum);
  }

  /**
   * The text of a built query: a `WITH` preamble exactly when the filter holds
   * a chained predicate, listing one registered and closed CTE per chained
   * predicate; then the outer query, ending with the latest-version filter and
   * the paging clause. Every placeholder in it is one of the bound values,
   * never a page parameter.
   */
  lemma BuildQueryText(cat: Catalogs, root: Option<Expr>, bindings: seq<Binding>, pageSize: int, pageNum: int)
    requires root.Some? ==> CompositeParentsOk(root.value, None)
    requires BuildQuery(cat, root, bindings, pageSize, pageNum).Ok?
    ensures var (text, out) := BuildQuery(cat, root, bindings, pageSize, pageNum).value;
      var chains := if root.Some? then ChainCount(root.value) else 0;
      && (forall p :: p in text && p.Param? ==> p.index < |out| - 2 && out[p.index].Generated?)
      && 4 <= |text| && text[|text| - 4..] == LatestVersionPredicate + PagingClause
      && (chains == 0 ==> text[0] == Sql(SelectText))
      && (chains > 0 ==>
            exists definitions ::
              && Preamble(definitions) <= text
              && |definitions| == chains
              && forall j :: 0 <= j < |definitions| ==> Registered(definitions[j], j))
  {
    RootEvolves(cat, root, bindings);
    var st := CompileRoot(cat, root, bindings).value;
    AssembledText(Initial(bindings), st, pageSize, pageNum);
    var text := Assemble(st, pageSize, pageNum).0;
    if |st.definitions| > 0 {
      assert Preamble(st.definitions) <= text;
    }
  }

  /** Compiling the root evolves the initial state, registering one definition per chained predicate. */
  lemma RootEvolves(cat: Catalogs, root: Option<Expr>, bindings: seq<Binding>)
    requires root.Some? ==> CompositeParentsOk(root.value, None)
    requires CompileRoot(cat, root, bindings).Ok?
    ensures Evolves(Initial(bindings), CompileRoot(cat, root, bindings).value, Outer)
    ensures |CompileRoot(cat, root, bindings).value.definitions| == if root.Some? then ChainCount(root.value) else 0
  {
    var st0 := Initial(bindings);
    if root.Some? {
      AcceptEvolves(cat, st0, Context(Outer, None), root.value);
      var st := Accept(cat, st0, Context(Outer, None), root.value).value;
      EmitEvolves(st, Outer, [Sql("AND ")]);
      EvolvesTrans(st0, st, Emit(st, Outer, [Sql("AND ")]), Outer);
    } else {
      assert Evolves(st0, st0, Outer);
    }
  }

  /** The parameters of an assembled query: the caller's, then generated ones, then the page number and size. */
  lemma AssembledBindings(st0: State, st: State, pageSize: int, pageNum: int)
    requires Evolves(st0, st, Outer)
    ensures var out := Assemble(st, pageSize, pageNum).1;
      && st0.bindings <= out && |st0.bindings| + 2 <= |out|
      && (forall k :: |st0.bindings| <= k < |out| - 2 ==> out[k].Generated?)
      && out[|out| - 2] == Named("@pageNum", IntLiteral(pageNum))
      && out[|out| - 1] == Named("@pageSize", IntLiteral(pageSize))
  {
  }

  /** The text of an assembled query: its placeholders, its tail and its head. */
  lemma AssembledText(st0: State, st: State, pageSize: int, pageNum: int)
    requires st0 == Initial(st0.bindings) && Evolves(st0, st, Outer)
    ensures var (text, out) := Assemble(st, pageSize, pageNum);
      && (forall p :: p in text && p.Param? ==> p.index < |out| - 2 && out[p.index].Generated?)
      && 4 <= |text| && text[|text| - 4..] == LatestVersionPredicate + PagingClause
      && (|st.definitions| == 0 ==> text[0] == Sql(SelectText))
      && (|st.definitions| > 0 ==>
            && Preamble(st.definitions) <= text
            && forall j :: 0 <= j < |st.definitions| ==> Registered(st.definitions[j], j))
  {
    assert AllBound(st0);
    var (text, out) := Assemble(st, pageSize, pageNum);
    var tail := LatestVersionPredicate + PagingClause;
    if |st.definitions| > 0 {
      DefinitionsFromBound(st, st.definitions, 0);
      assert text == Preamble(st.definitions) + st.query + tail;
      assert Preamble(st.definitions) <= text;
    } else {
      assert text == st.query + tail;
    }
    assert text[|text| - 4..] == tail;
  }

  /**
   * Between two operands: when the buffer has no character yet the lookup of
   * its last character fails; otherwise the operator is written with
   * whitespace on both sides, a space added before it only when the buffer
   * does not already end in whitespace.
   */
  lemma SeparateSpacing(st: State, sink: Sink, op: string)
    requires SinkOk(st, sink)
    ensures Separate(st, sink, op).Err? <==> LastIsWhiteSpace(SinkText(st, sink)).None?
    ensures Separate(st, sink, op).Err? ==> Separate(st, sink, op).error == IndexOutOfRange
    ensures Separate(st, sink, op).Ok? ==>
      var old_ := SinkText(st, sink);
      var t := SinkText(Separate(st, sink, op).value, sink);
      && |old_| + 2 <= |t| <= |old_| + 3
      && t[|t| - 2..] == [Sql(op), Sql(" ")]
      && old_ <= t[..|t| - 2]
      && LastIsWhiteSpace(t[..|t| - 2]) == Some(true)
      && (LastIsWhiteSpace(old_) == Some(true) <==> |t| == |old_| + 2)
  {
    var old_ := SinkText(st, sink);
    match LastIsWhiteSpace(old_)
    case None =>
    case Some(space) =>
      var st1 := if space then st else Emit(st, sink, [Sql(" ")]);
      var before := SinkText(st1, sink);
      var t := SinkText(Emit(st1, sink, [Sql(op), Sql(" ")]), sink);
      assert t == before + [Sql(op), Sql(" ")];
      assert t[..|t| - 2] == before;
      if !space {
        assert before == old_ + [Sql(" ")];
        assert IsWhiteSpace(' ');
      }
  }

  /** What stands between two operands: the operator and a space, with a space before it unless the text already ended in whitespace. */
  ghost predicate IsSeparator(sep: seq<Piece>, op: string)
  {
    sep == [Sql(op), Sql(" ")] || sep == [Sql(" "), Sql(op), Sql(" ")]
  }

  /** The texts in order with the k-th separator between the k-th text and the next. */
  ghost function Interleave(texts: seq<seq<Piece>>, seps: seq<seq<Piece>>): seq<Piece>
    requires |texts| == |seps| + 1 || (|texts| == 0 && |seps| == 0)
    decreases |texts|
  {
    if |texts| == 0 then []
    else if |texts| == 1 then texts[0]
    else texts[0] + seps[0] + Interleave(texts[1..], seps[1..])
  }

  /**
   * One operand of a group writes its own text, as compiled from the state
   * before it, followed by a separator unless it is the last operand.
   */
  lemma OperandText(cat: Catalogs, st: State, ctx: Context, e: Expr, op: string, i: nat)
    requires e.MultiaryExpr? && i < |e.operands|
    requires SinkOk(st, ctx.sink) && CompositeParentsOk(e, ctx.Parameter())
    requires VisitOperand(cat, st, ctx, e, op, i).Ok?
    ensures Accept(cat, st, ctx, e.operands[i]).Ok?
    ensures
      var a := Accept(cat, st, ctx, e.operands[i]).value;
      var t := SinkText(VisitOperand(cat, st, ctx, e, op, i).value, ctx.sink);
      && SinkOk(a, ctx.sink)
      && SinkText(st, ctx.sink) <= SinkText(a, ctx.sink) <= t
      && (i == |e.operands| - 1 ==> t == SinkText(a, ctx.sink))
      && (i < |e.operands| - 1 ==> IsSeparator(t[|SinkText(a, ctx.sink)|..], op))
  {
    AcceptEvolves(cat, st, ctx, e.operands[i]);
    var a := Accept(cat, st, ctx, e.operands[i]).value;
    EvolvesSinkGrows(st, a, ctx.sink);
    if i < |e.operands| - 1 {
      var ta := SinkText(a, ctx.sink);
      var space := LastIsWhiteSpace(ta).value;
      var a1 := if space then a else Emit(a, ctx.sink, [Sql(" ")]);
      var t := SinkText(Emit(a1, ctx.sink, [Sql(op), Sql(" ")]), ctx.sink);
      assert t == ta + (if space then [] else [Sql(" ")]) + [Sql(op), Sql(" ")];
      assert t[|ta|..] == (if space then [] else [Sql(" ")]) + [Sql(op), Sql(" ")];
    }
  }

  /**
   * `t` is `old_` followed by `count` texts with a separator between each two
   * consecutive ones and none after the last; `old_` followed by the first
   * text is `firstDone`.
   */
  ghost predicate Separated(old_: seq<Piece>, t: seq<Piece>, firstDone: seq<Piece>, count: nat, op: string)
  {
    exists texts: seq<seq<Piece>>, seps: seq<seq<Piece>> ::
      && |texts| == count
      && |seps| == (if count == 0 then 0 else count - 1)
      && (count > 0 ==> old_ + texts[0] == firstDone)
      && (forall k :: 0 <= k < |seps| ==> IsSeparator(seps[k], op))
      && t == old_ + Interleave(texts, seps)
  }

  lemma SeparatedNone(old_: seq<Piece>, op: string)
    ensures Separated(old_, old_, old_, 0, op)
  {
    var texts: seq<seq<Piece>>, seps: seq<seq<Piece>> := [], [];
    assert old_ == old_ + Interleave(texts, seps);
  }

  lemma SeparatedLast(old_: seq<Piece>, done: seq<Piece>, t: seq<Piece>, op: string)
    requires old_ <= done && Separated(done, t, done, 0, op)
    ensures Separated(old_, t, done, 1, op)
  {
    var rest: seq<seq<Piece>>, restSeps: seq<seq<Piece>> :|
      && |rest| == 0 && |restSeps| == 0 && t == done + Interleave(rest, restSeps);
    var first := done[|old_|..];
    var texts: seq<seq<Piece>>, seps: seq<seq<Piece>> := [first], [];
    assert done == old_ + first;
    assert t == old_ + Interleave(texts, seps);
  }

  lemma SeparatedCons(
    old_: seq<Piece>, done: seq<Piece>, sep: seq<Piece>, t: seq<Piece>, nextDone: seq<Piece>, count: nat, op: string)
    requires old_ <= done && IsSeparator(sep, op) && count > 0
    requires Separated(done + sep, t, nextDone, count, op)
    ensures Separated(old_, t, done, count + 1, op)
  {
    var rest: seq<seq<Piece>>, restSeps: seq<seq<Piece>> :|
      && |rest| == count && |restSeps| == count - 1
      && (forall k :: 0 <= k < |restSeps| ==> IsSeparator(restSeps[k], op))
      && t == done + sep + Interleave(rest, restSeps);
    var first := done[|old_|..];
    var texts, seps := [first] + rest, [sep] + restSeps;
    var tail := Interleave(rest, restSeps);
    assert done == old_ + first;
    assert texts[1..] == rest && seps[1..] == restSeps;
    assert Interleave(texts, seps) == first + sep + tail;
    assert done + sep + tail == old_ + (first + sep + tail);
    forall k | 0 <= k < |seps|
      ensures IsSeparator(seps[k], op)
    {
      if k > 0 {
        assert seps[k] == restSeps[k - 1];
      }
    }
  }

  /**
   * The operands from the i-th on add one text per operand, the first being
   * what the i-th operand writes from the state before it, with exactly one
   * separator between each two consecutive texts and none after the last
   * (OperandsInOrder ties each later text to its own operand).
   */
  lemma {:induction false} OperandsSeparated(cat: Catalogs, st: State, ctx: Context, e: Expr, op: string, i: nat)
    requires e.MultiaryExpr? && i <= |e.operands|
    requires SinkOk(st, ctx.sink) && CompositeParentsOk(e, ctx.Parameter())
    requires VisitOperands(cat, st, ctx, e, op, i).Ok?
    ensures i < |e.operands| ==> Accept(cat, st, ctx, e.operands[i]).Ok?
    ensures
      var firstDone :=
        if i < |e.operands| && Accept(cat, st, ctx, e.operands[i]).Ok? then SinkText(Accept(cat, st, ctx, e.operands[i]).value, ctx.sink)
        else SinkText(st, ctx.sink);
      && SinkOk(VisitOperands(cat, st, ctx, e, op, i).value, ctx.sink)
      && Separated(SinkText(st, ctx.sink), SinkText(VisitOperands(cat, st, ctx, e, op, i).value, ctx.sink), firstDone, |e.operands| - i, op)
    decreases |e.operands| - i
  {
    OperandsEvolve(cat, st, ctx, e, op, i);
    var old_ := SinkText(st, ctx.sink);
    if i == |e.operands| {
      SeparatedNone(old_, op);
    } else {
      OperandText(cat, st, ctx, e, op, i);
      OperandEvolves(cat, st, ctx, e, op, i);
      var st1 := VisitOperand(cat, st, ctx, e, op, i).value;
      var done := SinkText(Accept(cat, st, ctx, e.operands[i]).value, ctx.sink);
      var t1 := SinkText(st1, ctx.sink);
      var t := SinkText(VisitOperands(cat, st, ctx, e, op, i).value, ctx.sink);
      OperandsSeparated(cat, st1, ctx, e, op, i + 1);
      if i == |e.operands| - 1 {
        SeparatedLast(old_, done, t, op);
      } else {
        var nextDone := SinkText(Accept(cat, st1, ctx, e.operands[i + 1]).value, ctx.sink);
        var sep := t1[|done|..];
        assert t1 == done + sep;
        SeparatedCons(old_, done, sep, t, nextDone, |e.operands| - (i + 1), op);
      }
    }
  }

  /**
   * The states a group's compilation passes through from the i-th operand
   * on: the state before each operand (and its separator), and last the
   * state after the group.
   */
  ghost function OperandStates(cat: Catalogs, st: State, ctx: Context, e: Expr, op: string, i: nat): (sts: seq<State>)
    requires e.MultiaryExpr? && i <= |e.operands|
    requires SinkOk(st, ctx.sink) && CompositeParentsOk(e, ctx.Parameter())
    requires VisitOperands(cat, st, ctx, e, op, i).Ok?
    ensures |sts| == |e.operands| - i + 1 && sts[0] == st
    ensures sts[|sts| - 1] == VisitOperands(cat, st, ctx, e, op, i).value
    decreases |e.operands| - i
  {
    if i == |e.operands| then [st]
    else [st] + OperandStates(cat, VisitOperand(cat, st, ctx, e, op, i).value, ctx, e, op, i + 1)
  }

  /**
   * From `a`, the j-th operand writes its own compiled text, and `b` is that
   * text followed by a separator, or by nothing after the last operand.
   */
  ghost predicate OperandStep(cat: Catalogs, ctx: Context, e: Expr, op: string, j: nat, a: State, b: State)
    requires e.MultiaryExpr? && j < |e.operands| && CompositeParentsOk(e, ctx.Parameter())
  {
    && SinkOk(a, ctx.sink) && SinkOk(b, ctx.sink)
    && Accept(cat, a, ctx, e.operands[j]).Ok?
    && SinkOk(Accept(cat, a, ctx, e.operands[j]).value, ctx.sink)
    && var done := SinkText(Accept(cat, a, ctx, e.operands[j]).value, ctx.sink);
       && SinkText(a, ctx.sink) <= done <= SinkText(b, ctx.sink)
       && (j == |e.operands| - 1 ==> SinkText(b, ctx.sink) == done)
       && (j < |e.operands| - 1 ==> IsSeparator(SinkText(b, ctx.sink)[|done|..], op))
  }

  lemma OperandVisitStep(cat: Catalogs, st: State, ctx: Context, e: Expr, op: string, i: nat)
    requires e.MultiaryExpr? && i < |e.operands|
    requires SinkOk(st, ctx.sink) && CompositeParentsOk(e, ctx.Parameter())
    requires VisitOperand(cat, st, ctx, e, op, i).Ok?
    ensures OperandStep(cat, ctx, e, op, i, st, VisitOperand(cat, st, ctx, e, op, i).value)
  {
    OperandText(cat, st, ctx, e, op, i);
  }

  /**
   * Each two consecutive states of `sts` are one operand's step, starting
   * with the j-th operand: `sts[0]` to `sts[1]` is the j-th, `sts[1]` to
   * `sts[2]` the next, up to the last operand.
   */
  ghost predicate OperandSteps(cat: Catalogs, ctx: Context, e: Expr, op: string, j: nat, sts: seq<State>)
    requires e.MultiaryExpr? && CompositeParentsOk(e, ctx.Parameter()) && j + |sts| == |e.operands| + 1
    decreases |sts|
  {
    2 <= |sts| ==> OperandStep(cat, ctx, e, op, j, sts[0], sts[1]) && OperandSteps(cat, ctx, e, op, j + 1, sts[1..])
  }

  /** The k-th step of a run of steps is the (j + k)-th operand's. */
  lemma {:induction false} OperandStepAt(cat: Catalogs, ctx: Context, e: Expr, op: string, j: nat, sts: seq<State>, k: nat)
    requires e.MultiaryExpr? && CompositeParentsOk(e, ctx.Parameter()) && j + |sts| == |e.operands| + 1
    requires OperandSteps(cat, ctx, e, op, j, sts) && k + 1 < |sts|
    ensures OperandStep(cat, ctx, e, op, j + k, sts[k], sts[k + 1])
    decreases k
  {
    if k > 0 {
      OperandStepAt(cat, ctx, e, op, j + 1, sts[1..], k - 1);
    }
  }

  /**
   * A group compiles its operands in order, each from the state the one
   * before it left: every step writes exactly that operand's compiled text
   * and then one separator, none after the last, and the last state is the
   * group's result.
   */
  lemma {:induction false} OperandsInOrder(cat: Catalogs, st: State, ctx: Context, e: Expr, op: string, i: nat)
    requires e.MultiaryExpr? && i <= |e.operands|
    requires SinkOk(st, ctx.sink) && CompositeParentsOk(e, ctx.Parameter())
    requires VisitOperands(cat, st, ctx, e, op, i).Ok?
    ensures OperandSteps(cat, ctx, e, op, i, OperandStates(cat, st, ctx, e, op, i))
    decreases |e.operands| - i
  {
    if i < |e.operands| {
      var st1 := VisitOperand(cat, st, ctx, e, op, i).value;
      OperandVisitStep(cat, st, ctx, e, op, i);
      OperandsInOrder(cat, st1, ctx, e, op, i + 1);
      var sts := OperandStates(cat, st, ctx, e, op, i);
      var rest := OperandStates(cat, st1, ctx, e, op, i + 1);
      assert sts == [st] + rest;
      assert sts[1..] == rest && sts[1] == st1;
    }
  }

  /**
   * An OR group writes its operands between parentheses; an AND group writes
   * them bare; any other operator is out of range.
   */
  lemma GroupParentheses(cat: Catalogs, st: State, ctx: Context, e: Expr)
    requires e.MultiaryExpr? && SinkOk(st, ctx.sink) && CompositeParentsOk(e, ctx.Parameter())
    ensures e.multiaryOperator.UndefinedMultiaryOperator? ==> VisitMultiary(cat, st, ctx, e) == Err(ArgumentOutOfRange)
    ensures e.multiaryOperator == And ==> VisitMultiary(cat, st, ctx, e) == VisitOperands(cat, st, ctx, e, "AND", 0)
    ensures e.multiaryOperator == Or && VisitMultiary(cat, st, ctx, e).Ok? ==>
      var old_ := SinkText(st, ctx.sink);
      var t := SinkText(VisitMultiary(cat, st, ctx, e).value, ctx.sink);
      && |old_| + 2 <= |t|
      && t[..|old_| + 1] == old_ + [Sql("(")]
      && t[|t| - 1] == Sql(")")
    ensures e.multiaryOperator == Or ==>
      var st1 := Emit(st, ctx.sink, [Sql("(")]);
      && (VisitMultiary(cat, st, ctx, e).Ok? <==> VisitOperands(cat, st1, ctx, e, "OR", 0).Ok?)
      && (VisitMultiary(cat, st, ctx, e).Ok? ==>
            && SinkOk(VisitOperands(cat, st1, ctx, e, "OR", 0).value, ctx.sink)
            && SinkText(VisitMultiary(cat, st, ctx, e).value, ctx.sink)
               == SinkText(VisitOperands(cat, st1, ctx, e, "OR", 0).value, ctx.sink) + [Sql(")")])
  {
    if e.multiaryOperator == Or && VisitMultiary(cat, st, ctx, e).Ok? {
      var st1 := Emit(st, ctx.sink, [Sql("(")]);
      OperandsEvolve(cat, st1, ctx, e, "OR", 0);
      var st2 := VisitOperands(cat, st1, ctx, e, "OR", 0).value;
      EvolvesSinkGrows(st1, st2, ctx.sink);
      assert SinkText(st1, ctx.sink) == SinkText(st, ctx.sink) + [Sql("(")];
    }
  }

  /** The join and closing a composite component appends after its subquery. */
  function ComponentTail(i: int, componentCount: nat): seq<Piece>
  {
    (if i > 0 then CorrelationJoin(CorrelationAlias(i)) else [])
    + (if componentCount == i + 1 then CompositeClose else [])
  }

  lemma ComponentTailAppended(st1: State, sink: Sink, i: int, componentCount: nat)
    requires SinkOk(st1, sink)
    ensures
      var st2 := if i > 0 then Emit(st1, sink, CorrelationJoin(CorrelationAlias(i))) else st1;
      var st3 := if componentCount == i + 1 then Emit(st2, sink, CompositeClose) else st2;
      SinkText(st3, sink) == SinkText(st1, sink) + ComponentTail(i, componentCount)
  {
  }

  /**
   * The correlation join of the second component (index 1) names `c1` on
   * both sides of the comparison, so it compares the first component's
   * correlation id with itself, whatever the parameter's component count.
   */
  lemma SecondComponentJoinsItself(componentCount: nat)
    ensures ComponentTail(1, componentCount)[..2] == [Sql(" AND c1.CompositeCorrelationId = "), Sql("c1")]
  {
    assert NatToString(1) == [DigitChar(1)];
    assert CorrelationAlias(1) == "c1";
  }

  /**
   * After a composite component: every component but the first is joined
   * to the first on the correlation id, and the last component closes the
   * parameter's subquery.
   */
  lemma CompositeComponentTail(cat: Catalogs, st: State, ctx: Context, e: Expr)
    requires e.CompositeComponentExpr?
    requires SinkOk(st, ctx.sink) && CompositeParentsOk(e, ctx.Parameter())
    requires VisitCompositeComponent(cat, st, ctx, e).Ok?
    ensures
      var tail := ComponentTail(e.componentIndex, ctx.scope.value.parameter.componentCount);
      var t := SinkText(VisitCompositeComponent(cat, st, ctx, e).value, ctx.sink);
      && |SinkText(st, ctx.sink)| + |tail| <= |t|
      && SinkText(st, ctx.sink) <= t
      && t[|t| - |tail|..] == tail
    ensures
      var parent := ctx.scope.value.parameter;
      var key := (parent.url, Some(ComponentKey(e.componentIndex)));
      && key in cat.searchParamUrlToId
      && var sub := GenerateSubquery(cat, st, ctx.Enter(e.parameter, CorrelationAlias(e.componentIndex)), false, cat.searchParamUrlToId[key], Some(e.inner));
         && sub.Ok? && SinkOk(sub.value, ctx.sink)
         && SinkText(VisitCompositeComponent(cat, st, ctx, e).value, ctx.sink)
            == SinkText(sub.value, ctx.sink) + ComponentTail(e.componentIndex, parent.componentCount)
  {
    var parent := ctx.scope.value.parameter;
    var local := ctx.Enter(e.parameter, CorrelationAlias(e.componentIndex));
    var id := Find(cat.searchParamUrlToId, (parent.url, Some(ComponentKey(e.componentIndex)))).value;
    GenerateSubqueryEvolves(cat, st, local, false, id, Some(e.inner));
    var st1 := GenerateSubquery(cat, st, local, false, id, Some(e.inner)).value;
    EvolvesSinkGrows(st, st1, ctx.sink);
    ComponentTailAppended(st1, ctx.sink, e.componentIndex, parent.componentCount);
    var tail := ComponentTail(e.componentIndex, parent.componentCount);
    var t := SinkText(st1, ctx.sink) + tail;
    assert t[|t| - |tail|..] == tail;
  }
}
