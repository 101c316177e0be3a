/**
 * The search-expression tree that the SQL builder walks, and the few
 * search-parameter facts it consults.  C# enums admit values outside their
 * named members, so each enum the builder switches over carries one extra
 * constructor for such a value; the builder's `default:` branches handle it.
 */
module Expressions {
  import opened Wrappers

  datatype SearchParamType =
    | Number | Date | String | Token | Reference | Composite | Quantity | Uri
    | UndefinedSearchParamType(code: int)

  datatype FieldName =
    | DateTimeStart | DateTimeEnd
    | NumberField
    | QuantityField | QuantityCode | QuantitySystem
    | ReferenceBaseUri | ReferenceResourceType | ReferenceResourceId
    | StringField
    | TokenCode | TokenSystem | TokenText
    | UriField

  datatype BinaryOperator =
    | Equal | GreaterThan | GreaterThanOrEqual | LessThan | LessThanOrEqual | NotEqual
    | UndefinedBinaryOperator(code: int)

  datatype StringOperator =
    | Contains | EndsWith | Equals | NotContains | NotEndsWith | NotStartsWith | StartsWith
    | UndefinedStringOperator(code: int)

  datatype MultiaryOperator = And | Or | UndefinedMultiaryOperator(code: int)

  /** The parts of a search-parameter definition the builder reads. */
  datatype SearchParameter = SearchParameter(
    name: string,
    url: string,
    paramType: SearchParamType,
    componentCount: nat)

  /** The name of the synthetic resource-type search parameter. */
  const ResourceTypeParameterName: string := "_type"

  /** A literal value carried by a comparison (the C# `object` value). */
  datatype Literal =
    | TextLiteral(text: string)
    | IntLiteral(n: int)
    | DecimalLiteral(x: real)
    | DateTimeLiteral(ticks: int)

  /** The eight node kinds the builder visits. */
  datatype Expr =
    | SearchParameterExpr(parameter: SearchParameter, inner: Expr)
    | CompositeComponentExpr(parameter: SearchParameter, componentIndex: int, inner: Expr)
    | BinaryExpr(binaryOperator: BinaryOperator, field: FieldName, value: Literal)
    | StringExpr(stringOperator: StringOperator, field: FieldName, text: string, ignoreCase: bool)
    | MissingFieldExpr(field: FieldName)
    | MissingSearchParameterExpr(parameter: SearchParameter, isMissing: bool)
    | MultiaryExpr(multiaryOperator: MultiaryOperator, operands: seq<Expr>)
    | ChainedExpr(parameter: SearchParameter, targetResourceType: string, inner: Expr)

  /**
   * The criteria a chained predicate adds to its reference-parameter
   * subquery: no explicit base URI, and the referenced resource type.
   */
  function ChainCriteria(targetResourceType: string): Expr {
    MultiaryExpr(And, [
      MissingFieldExpr(ReferenceBaseUri),
      StringExpr(Equals, ReferenceResourceType, targetResourceType, false)])
  }

  /**
   * A termination measure.  A chained node weighs more than the criteria it
   * synthesises, since the builder visits those criteria in its place.
   */
  ghost function Size(e: Expr): nat
  {
    match e
    case SearchParameterExpr(_, inner) => 1 + Size(inner)
    case CompositeComponentExpr(_, _, inner) => 1 + Size(inner)
    case MultiaryExpr(_, operands) => 1 + SizeSum(operands)
    case ChainedExpr(_, _, inner) => 4 + Size(inner)
    case _ => 1
  }

  ghost function SizeSum(es: seq<Expr>): nat
  {
    if es == [] then 0 else Size(es[0]) + SizeSum(es[1..])
  }

  ghost function OptionSize(e: Option<Expr>): nat
  {
    if e.Some? then Size(e.value) else 0
  }

  lemma {:induction false} OperandSmaller(es: seq<Expr>, i: nat)
    requires i < |es|
    ensures Size(es[i]) <= SizeSum(es)
  {
    if i > 0 {
      OperandSmaller(es[1..], i - 1);
    }
  }

  lemma ChainCriteriaSize(t: string)
    ensures Size(ChainCriteria(t)) == 3
  {
    var es := ChainCriteria(t).operands;
    assert es[1..][1..] == [];
    assert SizeSum(es[1..]) == 1;
    assert SizeSum(es) == 2;
  }

  /**
   * The `Debug.Assert` of the composite-component visit: every composite
   * component is visited while its parent, the current search parameter, is
   * a composite parameter.  `parent` is the current search parameter on
   * entry; a chained predicate's nested builder starts without one.
   */
  ghost predicate CompositeParentsOk(e: Expr, parent: Option<SearchParameter>)
  {
    match e
    case SearchParameterExpr(p, inner) => CompositeParentsOk(inner, Some(p))
    case CompositeComponentExpr(p, _, inner) =>
      parent.Some? && parent.value.paramType == Composite && CompositeParentsOk(inner, Some(p))
    case MultiaryExpr(_, operands) =>
      forall i :: 0 <= i < |operands| ==> CompositeParentsOk(operands[i], parent)
    case ChainedExpr(_, _, inner) => CompositeParentsOk(inner, None)
    case MissingSearchParameterExpr(_, _) => true
    case BinaryExpr(_, _, _) => true
    case StringExpr(_, _, _, _) => true
    case MissingFieldExpr(_) => true
  }
}
