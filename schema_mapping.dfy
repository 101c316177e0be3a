/**
 * The fixed lookup tables of the SQL builder: index table per search-parameter
 * type, column per (type, field), SQL text per comparison operator and the
 * LIKE pattern per string operator.
 */
module SchemaMapping {
  import opened Wrappers
  import opened Expressions
  import opened Exceptions

  /** The index table of every search-parameter type that has one. */
  const IndexTables: map<SearchParamType, string> := map[
    Number := "dbo.NumberSearchParam",
    Date := "dbo.DateSearchParam",
    SearchParamType.String := "dbo.StringSearchParam",
    Token := "dbo.TokenSearchParam",
    Reference := "dbo.ReferenceSearchParam",
    Quantity := "dbo.QuantitySearchParam",
    Uri := "dbo.UriSearchParam"]

  /**
   * `TableName`: the index table of a search-parameter type.  A composite
   * parameter has none of its own (its components do), and an undefined
   * type is out of range.
   */
  function TableName(t: SearchParamType): (r: Result<string, Exception>)
    ensures r.Ok? <==> t in IndexTables
    ensures r.Ok? ==> r.value == IndexTables[t]
    ensures t == Composite ==> r == Err(NotSupported)
    ensures t.UndefinedSearchParamType? ==> r == Err(ArgumentOutOfRange)
  {
    match t
    case Number => Ok("dbo.NumberSearchParam")
    case Date => Ok("dbo.DateSearchParam")
    case String => Ok("dbo.StringSearchParam")
    case Token => Ok("dbo.TokenSearchParam")
    case Reference => Ok("dbo.ReferenceSearchParam")
    case Composite => Err(NotSupported)
    case Quantity => Ok("dbo.QuantitySearchParam")
    case Uri => Ok("dbo.UriSearchParam")
    case UndefinedSearchParamType(_) => Err(ArgumentOutOfRange)
  }

  /** The column of every supported (search-parameter type, field) pair. */
  const ColumnTable: map<(SearchParamType, FieldName), string> := map[
    (Number, NumberField) := "Number",
    (Date, DateTimeStart) := "StartTime",
    (Date, DateTimeEnd) := "EndTime",
    (SearchParamType.String, StringField) := "Value",
    (Token, TokenSystem) := "System",
    (Token, TokenCode) := "Code",
    (Token, TokenText) := "TextHash",
    (Reference, ReferenceBaseUri) := "BaseUriPK",
    (Reference, ReferenceResourceType) := "ReferenceResourceTypePK",
    (Reference, ReferenceResourceId) := "ReferenceResourceId",
    (Quantity, QuantityField) := "Quantity",
    (Quantity, QuantityCode) := "Code",
    (Quantity, QuantitySystem) := "System",
    (Uri, UriField) := "Uri"]

  /**
   * `ColumnName`: the column holding `field` in the index table of a
   * parameter of type `t`; every other pair, any composite pair among them,
   * is an invalid operation.
   */
  function ColumnName(t: SearchParamType, field: FieldName): (r: Result<string, Exception>)
    ensures r.Ok? <==> (t, field) in ColumnTable
    ensures r.Ok? ==> r.value == ColumnTable[(t, field)]
    ensures r.Err? ==> r.error == InvalidOperation
  {
    match (t, field)
    case (Number, NumberField) => Ok("Number")
    case (Date, DateTimeStart) => Ok("StartTime")
    case (Date, DateTimeEnd) => Ok("EndTime")
    case (String, StringField) => Ok("Value")
    case (Token, TokenSystem) => Ok("System")
    case (Token, TokenCode) => Ok("Code")
    case (Token, TokenText) => Ok("TextHash")
    case (Reference, ReferenceBaseUri) => Ok("BaseUriPK")
    case (Reference, ReferenceResourceType) => Ok("ReferenceResourceTypePK")
    case (Reference, ReferenceResourceId) => Ok("ReferenceResourceId")
    case (Quantity, QuantityField) => Ok("Quantity")
    case (Quantity, QuantityCode) => Ok("Code")
    case (Quantity, QuantitySystem) => Ok("System")
    case (Uri, UriField) => Ok("Uri")
    case _ => Err(InvalidOperation)
  }

  /** The comparison operator written by a binary comparison, padded with spaces. */
  function BinaryOperatorText(op: BinaryOperator): (r: Result<string, Exception>)
    ensures r.Ok? <==> !op.UndefinedBinaryOperator?
    ensures r.Err? ==> r.error == InvalidOperation
    ensures r.Ok? ==> ParseComparison(r.value) == Some(op)
  {
    match op
    case Equal => Ok(" = ")
    case GreaterThan => Ok(" > ")
    case GreaterThanOrEqual => Ok(" >= ")
    case LessThan => Ok(" < ")
    case LessThanOrEqual => Ok(" <= ")
    case NotEqual => Ok(" <> ")
    case UndefinedBinaryOperator(_) => Err(InvalidOperation)
  }

  /** Reads an emitted comparison token back as the operator it denotes. */
  function ParseComparison(token: string): Option<BinaryOperator>
  {
    if token == " = " then Some(Equal)
    else if token == " > " then Some(GreaterThan)
    else if token == " >= " then Some(GreaterThanOrEqual)
    else if token == " < " then Some(LessThan)
    else if token == " <= " then Some(LessThanOrEqual)
    else if token == " <> " then Some(NotEqual)
    else None
  }

  /** The keyword joining the operands of an AND/OR group. */
  function MultiaryOperatorText(op: MultiaryOperator): (r: Result<string, Exception>)
    ensures op == And ==> r == Ok("AND")
    ensures op == Or ==> r == Ok("OR")
    ensures r.Ok? <==> op == And || op == Or
    ensures r.Err? ==> r.error == ArgumentOutOfRange
  {
    match op
    case And => Ok("AND")
    case Or => Ok("OR")
    case UndefinedMultiaryOperator(_) => Err(ArgumentOutOfRange)
  }

  /** The string operators that are matched with NOT LIKE. */
  predicate IsNegatedMatch(op: StringOperator)
  {
    op == NotContains || op == NotEndsWith || op == NotStartsWith
  }

  /**
   * The LIKE pattern bound for a non-equality string operator, or None for
   * an operator that binds nothing.  Contains puts a wildcard on both sides,
   * EndsWith before the value and StartsWith after it; a negated operator
   * uses the pattern of its positive form.
   */
  function LikePattern(op: StringOperator, value: string): (r: Option<string>)
    ensures r.Some? <==> op in {Contains, NotContains, EndsWith, NotEndsWith, StartsWith, NotStartsWith}
    ensures r.Some? ==> StripWildcards(op, r.value) == Some(value)
  {
    match op
    case Contains => Some("%" + value + "%")
    case NotContains => Some("%" + value + "%")
    case EndsWith => assert ("%" + value)[1..|"%" + value|] == value; Some("%" + value)
    case NotEndsWith => assert ("%" + value)[1..|"%" + value|] == value; Some("%" + value)
    case StartsWith => assert (value + "%")[0..|value|] == value; Some(value + "%")
    case NotStartsWith => assert (value + "%")[0..|value|] == value; Some(value + "%")
    case _ => None
  }

  /**
   * Recovers the searched value from a LIKE pattern by removing the
   * wildcards an operator adds: the leading one for Contains and EndsWith
   * forms, the trailing one for Contains and StartsWith forms.
   */
  function StripWildcards(op: StringOperator, pattern: string): Option<string>
  {
    var leading := op == Contains || op == NotContains || op == EndsWith || op == NotEndsWith;
    var trailing := op == Contains || op == NotContains || op == StartsWith || op == NotStartsWith;
    var front := if leading then 1 else 0;
    var back := if trailing then 1 else 0;
    if |pattern| < front + back then None
    else if leading && pattern[0] != '%' then None
    else if trailing && pattern[|pattern| - 1] != '%' then None
    else Some(pattern[front..|pattern| - back])
  }
}
