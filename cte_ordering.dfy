/**
 * The CTE list as it reaches the query text: the names the chained
 * predicates register are pairwise distinct, and the `WITH` preamble lists
 * the definitions last-registered first, so a CTE nested in a chain (which
 * is registered after it) is defined before the CTE that refers to it.
 */
module CteOrdering {
  import opened Wrappers
  import opened Expressions
  import opened SqlText
  import opened CompilerSpec
  import opened Evolution

  lemma DigitCharInjective(a: nat, b: nat)
    requires a < 10 && b < 10 && DigitChar(a) == DigitChar(b)
    ensures a == b
  {
  }

  lemma {:induction false} NatToStringLength(n: nat)
    ensures n < 10 <==> |NatToString(n)| == 1
  {
    if n >= 10 {
      assert |NatToString(n)| == |NatToString(n / 10)| + 1;
    }
  }

  /** Distinct numbers have distinct decimal texts. */
  lemma {:induction false} NatToStringInjective(a: nat, b: nat)
    requires NatToString(a) == NatToString(b)
    ensures a == b
    decreases a
  {
    NatToStringLength(a);
    NatToStringLength(b);
    if a < 10 {
      DigitCharInjective(a, b);
    } else {
      var sa, sb := NatToString(a), NatToString(b);
      assert sa == NatToString(a / 10) + [DigitChar(a % 10)];
      assert sb == NatToString(b / 10) + [DigitChar(b % 10)];
      assert sa[..|sa| - 1] == NatToString(a / 10);
      assert sb[..|sb| - 1] == NatToString(b / 10);
      DigitCharInjective(a % 10, b % 10);
      NatToStringInjective(a / 10, b / 10);
    }
  }

  /** In an underscore followed by a number's digits, the underscore is the first character only. */
  lemma UnderscoreOnlyFirst(k: nat, i: nat)
    requires i < |"_" + NatToString(k)| && ("_" + NatToString(k))[i] == '_'
    ensures i == 0
  {
  }

  lemma IndexSuffixUniqueOrdered(name: string, j: nat, k: nat)
    requires EndsWithIndex(name, j) && EndsWithIndex(name, k)
    requires |NatToString(j)| <= |NatToString(k)|
    ensures j == k
  {
    var sj, sk := "_" + NatToString(j), "_" + NatToString(k);
    assert sk[|sk| - |sj|] == name[|name| - |sj|] == sj[0];
    UnderscoreOnlyFirst(k, |sk| - |sj|);
    assert sj == sk;
    assert NatToString(j) == sj[1..] == sk[1..] == NatToString(k);
    NatToStringInjective(j, k);
  }

  /** A name ends with the index of at most one definition. */
  lemma IndexSuffixUnique(name: string, j: nat, k: nat)
    requires EndsWithIndex(name, j) && EndsWithIndex(name, k)
    ensures j == k
  {
    if |NatToString(j)| <= |NatToString(k)| {
      IndexSuffixUniqueOrdered(name, j, k);
    } else {
      IndexSuffixUniqueOrdered(name, k, j);
    }
  }

  /** Registered definitions carry pairwise distinct names. */
  lemma CteNamesDistinct(definitions: seq<seq<Piece>>, i: nat, j: nat)
    requires i < |definitions| && j < |definitions| && i != j
    requires Registered(definitions[i], i) && Registered(definitions[j], j)
    ensures definitions[i][0] != definitions[j][0]
  {
    if definitions[i][0] == definitions[j][0] {
      IndexSuffixUnique(definitions[i][0].text, i, j);
    }
  }

  /** Where the j-th definition starts inside the list written after `WITH `. */
  function Offset(definitions: seq<seq<Piece>>, j: nat): nat
  {
    |DefinitionsFrom(definitions, j + 1)|
  }

  lemma {:induction false} DefinitionsFromPrefix(definitions: seq<seq<Piece>>, i: nat, k: nat)
    requires i <= k
    ensures DefinitionsFrom(definitions, k) <= DefinitionsFrom(definitions, i)
    decreases k - i
  {
    if i < k && i < |definitions| {
      DefinitionsFromPrefix(definitions, i + 1, k);
    }
  }

  /**
   * The written list holds every definition whole at its offset, and one
   * registered later lies entirely before one registered earlier; every
   * definition but the first registered is followed by a comma line, right
   * before the definition registered just before it.
   */
  lemma DefinitionsLaidOutInReverse(definitions: seq<seq<Piece>>, i: nat, j: nat)
    requires i <= j < |definitions|
    ensures var all := DefinitionsFrom(definitions, 0);
      Offset(definitions, j) + |definitions[j]| <= |all|
      && all[Offset(definitions, j)..Offset(definitions, j) + |definitions[j]|] == definitions[j]
    ensures i < j ==> Offset(definitions, j) + |definitions[j]| <= Offset(definitions, i)
    ensures 0 < j ==>
      var all := DefinitionsFrom(definitions, 0);
      var o := Offset(definitions, j) + |definitions[j]|;
      && o + 2 <= |all| && all[o..o + 2] == [Sql(","), NewLine]
      && Offset(definitions, j - 1) == o + 2
  {
    if 0 < j {
      CommaAfter(definitions, j);
    }
    var all := DefinitionsFrom(definitions, 0);
    var from := DefinitionsFrom(definitions, j);
    DefinitionsFromPrefix(definitions, 0, j);
    assert from == DefinitionsFrom(definitions, j + 1) + definitions[j]
      + (if j != 0 then [Sql(","), NewLine] else []);
    var o := Offset(definitions, j);
    assert from[o..o + |definitions[j]|] == definitions[j];
    assert all[o..o + |definitions[j]|] == from[o..o + |definitions[j]|];
    if i < j {
      DefinitionsFromPrefix(definitions, i + 1, j);
    }
  }

  lemma CommaAfter(definitions: seq<seq<Piece>>, j: nat)
    requires 0 < j < |definitions|
    ensures var all := DefinitionsFrom(definitions, 0);
      var o := Offset(definitions, j) + |definitions[j]|;
      && o + 2 <= |all| && all[o..o + 2] == [Sql(","), NewLine]
      && Offset(definitions, j - 1) == o + 2
  {
    var from := DefinitionsFrom(definitions, j);
    DefinitionsFromPrefix(definitions, 0, j);
    assert from == DefinitionsFrom(definitions, j + 1) + definitions[j] + [Sql(","), NewLine];
    var o := Offset(definitions, j) + |definitions[j]|;
    assert from[o..o + 2] == [Sql(","), NewLine];
  }

  /** The last definition in the text is the first registered, with no comma after it. */
  lemma PreambleEndsWithFirst(definitions: seq<seq<Piece>>)
    requires |definitions| > 0
    ensures var p := Preamble(definitions);
      |definitions[0]| <= |p| && p[|p| - |definitions[0]|..] == definitions[0]
  {
    var p := Preamble(definitions);
    assert p == [Sql("WITH ")] + DefinitionsFrom(definitions, 1) + definitions[0];
  }

  /** A CTE nested in a chained predicate is defined before the chain's own CTE. */
  lemma NestedDefinedBeforeOuter(cat: Catalogs, st: State, ctx: Context, e: Expr, nested: nat)
    requires e.ChainedExpr?
    requires SinkOk(st, ctx.sink) && CompositeParentsOk(e, ctx.Parameter())
    requires VisitChained(cat, st, ctx, e).Ok?
    requires |st.definitions| < nested < |st.definitions| + ChainCount(e)
    ensures var defs := VisitChained(cat, st, ctx, e).value.definitions;
      nested < |defs|
      && Offset(defs, nested) + |defs[nested]| <= Offset(defs, |st.definitions|)
  {
    ChainedEvolves(cat, st, ctx, e);
    DefinitionsLaidOutInReverse(VisitChained(cat, st, ctx, e).value.definitions, |st.definitions|, nested);
  }
}
