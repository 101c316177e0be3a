# SQL search-query builder, modelled in Dafny

This project models the expression-to-SQL translator of the FHIR server's SQL
Server data layer (`SqlQueryBuilder`). It walks a search-expression tree and
writes the text of one SQL query. The tree has eight node kinds:

- search parameter and composite component;
- binary comparison and string match;
- missing field and missing search parameter;
- AND/OR group and chained reference.

Every literal the translator compares against goes into a parameter collection
and reaches the text as a placeholder. The one literal that also reaches the
text verbatim is a chained reference's target resource type: it is part of the
name of that reference's CTE (`SqlQueryBuilder.cs:246`). Each chained reference is hoisted
into a common table expression (CTE) registered in a shared list. `BuildQuery`
then writes a `WITH` preamble from that list, last registered first. After the
outer query it adds the latest-version filter and the paging window.

The model has two layers:

- **The specification** (`CompilerSpec`). These are state-passing functions over
  `State(query, definitions, bindings)`: the outer query text, the CTE
  definitions and the parameter collection. Text is a sequence of `Piece`s: a
  fragment the builder appends (`Sql`) or the placeholder of the k-th binding
  (`Param(k)`). A visit writes to a `Sink`: the outer query, or the body of the
  j-th CTE.
- **The builder** (`QueryBuilder`). These are the source's own objects:
  - a `SqlQueryBuilder` class with the mutable current search parameter and
    current table alias;
  - a shared query buffer, CTE manager and parameter collection, all updated
    in place.

  Each visit method is proved to leave exactly the state its specification
  function computes, or to fail with the same exception. Each one also leaves
  the two context fields as it found them, on the failing paths too.

The properties are lemmas about the specification:

- `Evolution`: every visit only extends text, definitions and parameters. It
  registers exactly one closed CTE per chained reference, named with its own
  index.
- `CteOrdering`: CTE names are distinct. The preamble lists definitions in
  reverse, so a nested chain's CTE precedes the CTE that refers to it.
- `QueryShape`: the final query and parameters, the group separator, the OR
  parentheses, and a composite component's tail.
- `PredicateText`: what each predicate writes and binds.
- `LiteralIndependence`: two expressions that differ only in compared values
  compile to the same text. Their chained references must name the same
  target resource types, since those are written into CTE names.
- `ChainText`: what a chained reference writes into its CTE and into the
  current query.

Exceptions the source throws are `Err` values of the `Exception` datatype:

| source exception | `Exception` value |
|---|---|
| catalog miss | `KeyNotFound` |
| unsupported column, undefined binary operator | `InvalidOperation` |
| composite table | `NotSupported` |
| null current parameter | `NullReference` |
| failed `(string)` cast | `InvalidCast` |
| empty buffer read by the separator | `IndexOutOfRange` |
| undefined search parameter type, undefined group operator | `ArgumentOutOfRange` |

The source's `Debug.Assert` that a composite component's parent is composite
is kept as the precondition `CompositeParentsOk`.

Two details of the source shape the model:

- A chained reference adds its CTE to the shared list and only then compiles
  the nested predicate into that CTE's body (`SqlQueryBuilder.cs:253-256`). So
  the CTEs of chains nested in it get higher indices.
- The page number and page size are added with `AddWithValue` under the fixed
  names `@pageNum` and `@pageSize` (`SqlQueryBuilder.cs:85-86`). They do not go
  through the parameter manager.

Three quirks of the source are reproduced as written:

- `" NOT LIKE"` has no trailing space.
- The second composite component's correlation join compares `c1` with itself.
- The paging clause spells `@pagesize` in OFFSET and `@pageSize` in FETCH.

## Model

| member | source | states |
|---|---|---|
| SchemaMapping.TableName | src/Microsoft.Health.Fhir.SqlServer/SqlQueryBuilder.cs:182-205 | a table exactly for the seven types in the index-table map, with that table; Composite throws NotSupported, an undefined type ArgumentOutOfRange |
| SchemaMapping.ColumnName | src/Microsoft.Health.Fhir.SqlServer/SqlQueryBuilder.cs:430-509 | a column exactly for the fourteen (type, field) pairs of the column map, with that column; every other pair, Composite included, throws InvalidOperation |
| SchemaMapping.BinaryOperatorText | src/Microsoft.Health.Fhir.SqlServer/SqlQueryBuilder.cs:216-238 | a token exactly for the six defined operators, and the operator can be read back from its token; any other operator throws InvalidOperation |
| SchemaMapping.MultiaryOperatorText | src/Microsoft.Health.Fhir.SqlServer/SqlQueryBuilder.cs:315-329 | AND gives the keyword `AND` and OR gives `OR`; anything else throws ArgumentOutOfRange |
| SchemaMapping.LikePattern | src/Microsoft.Health.Fhir.SqlServer/SqlQueryBuilder.cs:413-427 | a pattern exactly for the six Contains/EndsWith/StartsWith forms; removing the operator's wildcards from it gives back the searched value |
| CompilerSpec.Emit | src/Microsoft.Health.Fhir.SqlServer/SqlQueryBuilder.cs:253-259 | appending to a builder extends exactly its own buffer (outer query or one CTE body) and nothing else |
| CompilerSpec.Accept | src/Microsoft.Health.Fhir.SqlServer/SqlQueryBuilder.cs:100-428 | dispatch on the node kind; CTE definitions are never removed (the full effect is stated by Evolution.AcceptEvolves) |
| CompilerSpec.VisitSearchParameter | src/Microsoft.Health.Fhir.SqlServer/SqlQueryBuilder.cs:100-131 | definitions only grow; its text is stated by PredicateText.SearchParameterInPlace and SearchParameterSubquery |
| CompilerSpec.VisitCompositeComponent | src/Microsoft.Health.Fhir.SqlServer/SqlQueryBuilder.cs:133-160 | definitions only grow; its text is stated by PredicateText.CompositeComponentOpens and QueryShape.CompositeComponentTail |
| CompilerSpec.GenerateSubquery | src/Microsoft.Health.Fhir.SqlServer/SqlQueryBuilder.cs:162-180 | definitions only grow; its text, with the inner predicate compiled in place, is stated by PredicateText.SubqueryOpens |
| CompilerSpec.VisitBinary | src/Microsoft.Health.Fhir.SqlServer/SqlQueryBuilder.cs:207-242 | definitions only grow; its text, binding and exceptions are stated by PredicateText.BinaryComparison |
| CompilerSpec.VisitString | src/Microsoft.Health.Fhir.SqlServer/SqlQueryBuilder.cs:358-428 | definitions only grow; its text, binding and exceptions are stated by PredicateText.StringNeedsScope, StringNeedsColumn, StringPatternMatch, StringExactMatch, TokenTextLookup, BaseUriLookup and StringLookupIgnoresOperator |
| CompilerSpec.VisitMissingField | src/Microsoft.Health.Fhir.SqlServer/SqlQueryBuilder.cs:285-289 | definitions only grow; its text is stated by PredicateText.MissingFieldText |
| CompilerSpec.VisitMissingSearchParameter | src/Microsoft.Health.Fhir.SqlServer/SqlQueryBuilder.cs:291-311 | definitions only grow; its text, binding and KeyNotFound are stated by PredicateText.MissingSearchParameterExists |
| CompilerSpec.VisitMultiary | src/Microsoft.Health.Fhir.SqlServer/SqlQueryBuilder.cs:313-356 | definitions only grow; its text is stated by QueryShape.GroupParentheses, OperandsInOrder and OperandsSeparated |
| CompilerSpec.VisitOperands | src/Microsoft.Health.Fhir.SqlServer/SqlQueryBuilder.cs:336-350 | definitions only grow; its text is stated by QueryShape.OperandsInOrder and OperandsSeparated |
| CompilerSpec.VisitOperand | src/Microsoft.Health.Fhir.SqlServer/SqlQueryBuilder.cs:339-349 | definitions only grow; its text is stated by QueryShape.OperandText |
| CompilerSpec.Separate | src/Microsoft.Health.Fhir.SqlServer/SqlQueryBuilder.cs:341-349 | adds no definition; the spacing is stated by QueryShape.SeparateSpacing |
| CompilerSpec.ChainCte | src/Microsoft.Health.Fhir.SqlServer/SqlQueryBuilder.cs:246-262 | a successful chain registers at least one new definition; its text is stated by ChainText.ChainCteText |
| CompilerSpec.VisitChained | src/Microsoft.Health.Fhir.SqlServer/SqlQueryBuilder.cs:244-283 | a successful chain registers at least one new definition; its text is stated by ChainText.ChainCteText, ChainedJoinsOwnCte and ChainCriteriaBeforeJoin |
| CompilerSpec.ChainJoin | src/Microsoft.Health.Fhir.SqlServer/SqlQueryBuilder.cs:264-283 | definitions only grow; the join leaves the definition count unchanged (Evolution.ChainJoinEvolves) and names the chain's own CTE (ChainText.ChainedJoinsOwnCte), after the reference criteria compiled in their subquery (ChainText.ChainCriteriaBeforeJoin) |
| CompilerSpec.CompileRoot | src/Microsoft.Health.Fhir.SqlServer/SqlQueryBuilder.cs:44-60 | with no root expression the query is the bare SELECT head with no definitions and the caller's parameters |
| Evolution.AcceptEvolves | src/Microsoft.Health.Fhir.SqlServer/SqlQueryBuilder.cs:100-428 | a successful visit only extends: its own buffer (outer query or its CTE body) gains a suffix, other buffers are untouched, parameters are appended and are all generated, every placeholder names a bound value, every new definition is registered under its own index and closed by the latest-version filter, and exactly one definition is added per chained reference in the tree |
| Evolution.SearchParameterEvolves | src/Microsoft.Health.Fhir.SqlServer/SqlQueryBuilder.cs:100-131 | the same for a search-parameter node |
| Evolution.CompositeComponentEvolves | src/Microsoft.Health.Fhir.SqlServer/SqlQueryBuilder.cs:133-160 | the same for a composite component |
| Evolution.GenerateSubqueryEvolves | src/Microsoft.Health.Fhir.SqlServer/SqlQueryBuilder.cs:162-180 | the same for a subquery, counting the chained references of its inner expression |
| Evolution.BinaryEvolves | src/Microsoft.Health.Fhir.SqlServer/SqlQueryBuilder.cs:207-242 | the same for a comparison, which adds no definition |
| Evolution.StringEvolves | src/Microsoft.Health.Fhir.SqlServer/SqlQueryBuilder.cs:358-428 | the same for a string match, which adds no definition |
| Evolution.MissingFieldEvolves | src/Microsoft.Health.Fhir.SqlServer/SqlQueryBuilder.cs:285-289 | the same for a missing-field test |
| Evolution.MissingSearchParameterEvolves | src/Microsoft.Health.Fhir.SqlServer/SqlQueryBuilder.cs:291-311 | the same for a missing-parameter test |
| Evolution.MultiaryEvolves | src/Microsoft.Health.Fhir.SqlServer/SqlQueryBuilder.cs:313-356 | the same for an AND/OR group, summing its operands' chains |
| Evolution.OperandsEvolve | src/Microsoft.Health.Fhir.SqlServer/SqlQueryBuilder.cs:336-350 | the same for the operands from the i-th on |
| Evolution.OperandEvolves | src/Microsoft.Health.Fhir.SqlServer/SqlQueryBuilder.cs:339-349 | the same for one operand and the separator after it |
| Evolution.SeparateEvolves | src/Microsoft.Health.Fhir.SqlServer/SqlQueryBuilder.cs:341-349 | the separator only extends the current buffer |
| Evolution.ChainedEvolves | src/Microsoft.Health.Fhir.SqlServer/SqlQueryBuilder.cs:244-283 | a chained reference registers its own CTE plus those of its nested predicate, all closed and named by index |
| Evolution.ChainCteEvolves | src/Microsoft.Health.Fhir.SqlServer/SqlQueryBuilder.cs:246-262 | the chain's CTE and the CTEs nested in it are registered under the next indices, each named by its index and closed with the latest-version filter; the outer query and every other buffer are untouched; one definition is added per chained reference in the chain |
| Evolution.ChainJoinEvolves | src/Microsoft.Health.Fhir.SqlServer/SqlQueryBuilder.cs:264-283 | the join back to the CTE only extends the current buffer and registers nothing |
| Evolution.CteNameEndsWithIndex | src/Microsoft.Health.Fhir.SqlServer/SqlQueryBuilder.cs:246 | a CTE name ends with `_` and the definition count at registration |
| CteOrdering.NatToStringInjective | src/Microsoft.Health.Fhir.SqlServer/SqlQueryBuilder.cs:246 | distinct counts give distinct decimal texts |
| CteOrdering.IndexSuffixUnique | src/Microsoft.Health.Fhir.SqlServer/SqlQueryBuilder.cs:246 | a name ends with the index of at most one definition |
| CteOrdering.CteNamesDistinct | src/Microsoft.Health.Fhir.SqlServer/SqlQueryBuilder.cs:246-253 | any two registered definitions have different names |
| CteOrdering.DefinitionsLaidOutInReverse | src/Microsoft.Health.Fhir.SqlServer/SqlQueryBuilder.cs:62-76 | the written list holds each definition whole at its offset, and a later-registered one lies wholly before an earlier one; every definition but the first registered is followed by a `,` line, directly before the one registered just before it |
| CteOrdering.PreambleEndsWithFirst | src/Microsoft.Health.Fhir.SqlServer/SqlQueryBuilder.cs:64-72 | the preamble ends with the first-registered definition, with no comma after it |
| CteOrdering.NestedDefinedBeforeOuter | src/Microsoft.Health.Fhir.SqlServer/SqlQueryBuilder.cs:246-256 | every CTE registered while compiling a chain's nested predicate is written before the chain's own CTE |
| QueryShape.BuildQueryParameters | src/Microsoft.Health.Fhir.SqlServer/SqlQueryBuilder.cs:42-89 | the collection keeps the caller's parameters, then only values bound by the builder, then `@pageNum` and `@pageSize` with their values |
| QueryShape.BuildQueryText | src/Microsoft.Health.Fhir.SqlServer/SqlQueryBuilder.cs:42-98 | every placeholder names a bound value, never a page parameter; the text ends with the latest-version filter and the paging clause; with no chain it starts with SELECT, otherwise with a `WITH` preamble of exactly one registered, closed CTE per chained reference |
| QueryShape.RootEvolves | src/Microsoft.Health.Fhir.SqlServer/SqlQueryBuilder.cs:44-60 | compiling the root only extends the initial state, with one definition per chained reference |
| QueryShape.SeparateSpacing | src/Microsoft.Health.Fhir.SqlServer/SqlQueryBuilder.cs:341-349 | reading the last character of an empty buffer fails with IndexOutOfRange; otherwise the operator is written with whitespace before and a space after, and a space is added exactly when the buffer did not end in whitespace |
| QueryShape.GroupParentheses | src/Microsoft.Health.Fhir.SqlServer/SqlQueryBuilder.cs:313-356 | an OR group succeeds exactly when its operands do, after `(` is written, and its text is that operands' text followed by `)`; an AND group is its operands alone; any other operator throws ArgumentOutOfRange |
| QueryShape.SecondComponentJoinsItself | src/Microsoft.Health.Fhir.SqlServer/SqlQueryBuilder.cs:137-147 | whatever the component count, the second component's correlation join compares `c1` with `c1` |
| QueryShape.ComponentTailAppended | src/Microsoft.Health.Fhir.SqlServer/SqlQueryBuilder.cs:145-153 | the correlation join, when the index is positive, and the closing `)`, when the component is the last, are appended in that order |
| QueryShape.CompositeComponentTail | src/Microsoft.Health.Fhir.SqlServer/SqlQueryBuilder.cs:133-160 | a composite component's text is exactly its subquery's text followed by the join, when the index is positive, and the closing parenthesis, when it is the last component |
| PredicateText.BinaryComparison | src/Microsoft.Health.Fhir.SqlServer/SqlQueryBuilder.cs:207-242 | with no current parameter, NullReference; on `_type`, a non-string value is InvalidCast, an unknown type KeyNotFound, otherwise the type id is bound and written as `r.ResourceTypePK = @p`; elsewhere an unmapped column throws InvalidOperation, and a mapped one succeeds exactly for the six operators, writing alias, column, the operator's token and one placeholder bound to the value |
| PredicateText.StringPatternMatch | src/Microsoft.Health.Fhir.SqlServer/SqlQueryBuilder.cs:383-427 | only the negated forms write `NOT LIKE`; the bound pattern's wildcards strip back to the value; an undefined operator writes ` LIKE ` and binds nothing |
| PredicateText.StringExactMatch | src/Microsoft.Health.Fhir.SqlServer/SqlQueryBuilder.cs:383-398 | writes ` = ` and one placeholder; a referenced resource type is bound as its catalog id (KeyNotFound exactly when it is unknown), a referenced resource id with a VarChar hint, any other field as the text |
| PredicateText.SubqueryOpens | src/Microsoft.Health.Fhir.SqlServer/SqlQueryBuilder.cs:162-168 | the parameter's id is bound as the next parameter; the subquery starts with `EXISTS` over the parameter's index table under the current alias, tied to the outer row and filtered by that placeholder; `AND ` follows before an inner predicate; without one the header (and the parenthesis) is all; with one, the text is exactly the inner predicate compiled from the state after `AND `, followed by `)` when the caller asks for it |
| PredicateText.MissingSearchParameterExists | src/Microsoft.Health.Fhir.SqlServer/SqlQueryBuilder.cs:291-311 | an unknown parameter throws KeyNotFound; otherwise its id is bound as the next parameter and the text is exactly ` NOT ` (for a missing-parameter test only), the subquery header under alias `i` over the parameter's table, and `)` |
| PredicateText.SearchParameterInPlace | src/Microsoft.Health.Fhir.SqlServer/SqlQueryBuilder.cs:100-125 | on `_type` and on a composite parameter, the inner predicate is compiled straight into the current buffer under alias `i`, succeeding or failing as it does, and a line break follows |
| PredicateText.SearchParameterSubquery | src/Microsoft.Health.Fhir.SqlServer/SqlQueryBuilder.cs:100-125 | any other parameter throws KeyNotFound when its URL is not in the catalog; otherwise its id is bound as the next parameter, the text opens the subquery under alias `i` over the parameter's table with `AND ` before the inner predicate, and the whole text is the inner predicate compiled under alias `i` from the state after `AND `, followed by `)` and a line break |
| PredicateText.CompositeComponentOpens | src/Microsoft.Health.Fhir.SqlServer/SqlQueryBuilder.cs:133-144 | a component is looked up under its parent's URL and its index cut to a byte, throwing KeyNotFound when absent; its id is bound as the next parameter and the text opens the subquery over the component's table under `c<index>`, then `AND `; the whole text is the inner predicate compiled under `c<index>` from the state after `AND `, followed by the component's tail |
| PredicateText.MissingFieldText | src/Microsoft.Health.Fhir.SqlServer/SqlQueryBuilder.cs:285-289 | with no current parameter NullReference; an unmapped column InvalidOperation; otherwise exactly `alias.column IS NULL` is written and nothing is bound |
| PredicateText.TokenTextLookup | src/Microsoft.Health.Fhir.SqlServer/SqlQueryBuilder.cs:360-371 | an unmapped column throws InvalidOperation; otherwise an EXISTS over `dbo.TokenText` under the alias with `t` appended, joined on the field's column, testing `LIKE` against the text bound between `%` wildcards |
| PredicateText.BaseUriLookup | src/Microsoft.Health.Fhir.SqlServer/SqlQueryBuilder.cs:360-381 | an unmapped column throws InvalidOperation; otherwise an EXISTS over `dbo.Uri` under the alias with `u` appended, joined on the field's column, testing `=` against the text bound as given |
| PredicateText.StringLookupIgnoresOperator | src/Microsoft.Health.Fhir.SqlServer/SqlQueryBuilder.cs:362-381 | on token text and base URI the string operator does not change the outcome |
| PredicateText.StringNeedsScope | src/Microsoft.Health.Fhir.SqlServer/SqlQueryBuilder.cs:358-360 | a string match with no current parameter throws NullReference |
| PredicateText.StringNeedsColumn | src/Microsoft.Health.Fhir.SqlServer/SqlQueryBuilder.cs:358-362 | a string match on a field the current parameter has no column for throws InvalidOperation, on every field and operator |
| QueryShape.OperandText | src/Microsoft.Health.Fhir.SqlServer/SqlQueryBuilder.cs:336-349 | one pass writes the operand's own text, compiled from the state before it, then a separator (the operator and a space, after a space unless the text ended in whitespace) unless it is the last operand |
| QueryShape.OperandsSeparated | src/Microsoft.Health.Fhir.SqlServer/SqlQueryBuilder.cs:336-350 | the operands from the i-th on add to the text some texts and separators in alternation, as many texts as operands and one separator fewer, the first text being the i-th operand's own; which text each later operand writes is stated by OperandsInOrder |
| QueryShape.OperandStates | src/Microsoft.Health.Fhir.SqlServer/SqlQueryBuilder.cs:336-350 | the states a group passes through, one before each operand, the last being the group's result |
| QueryShape.OperandsInOrder | src/Microsoft.Health.Fhir.SqlServer/SqlQueryBuilder.cs:336-350 | the operands are compiled in order, each from the state the previous one left: each step writes exactly that operand's compiled text, then one separator, none after the last |
| QueryShape.OperandStepAt | src/Microsoft.Health.Fhir.SqlServer/SqlQueryBuilder.cs:336-350 | the k-th of those steps is the one for operand i + k |
| ChainText.ChainCteText | src/Microsoft.Health.Fhir.SqlServer/SqlQueryBuilder.cs:246-262 | an unknown target type throws KeyNotFound; otherwise its id is bound as the next parameter, the next definition opens with the CTE's name and that placeholder, holds the nested predicate compiled in place by a builder with no current parameter, and ends with the latest-version filter, exactly what the nested predicate wrote followed by it; the outer query and earlier definitions are unchanged |
| ChainText.ChainedJoinsOwnCte | src/Microsoft.Health.Fhir.SqlServer/SqlQueryBuilder.cs:244-276 | the definition registered by the chain opens with the name the join uses, and the current buffer ends with the EXISTS over that name on the reference's resource-id column |
| ChainText.ChainCriteriaBeforeJoin | src/Microsoft.Health.Fhir.SqlServer/SqlQueryBuilder.cs:264-276 | the current buffer ends with exactly the reference criteria (no base URI, the target type) compiled under alias `i` in the subquery over the chained parameter's table, followed by the join |
| LiteralIndependence.AcceptSameText | src/Microsoft.Health.Fhir.SqlServer/SqlQueryBuilder.cs:100-428 | two trees that differ only in compared values write the same text and definitions and bind the same number of values |
| LiteralIndependence.StringSameText | src/Microsoft.Health.Fhir.SqlServer/SqlQueryBuilder.cs:358-428 | the same for a string match |
| LiteralIndependence.ChainedSameText | src/Microsoft.Health.Fhir.SqlServer/SqlQueryBuilder.cs:244-283 | the same for a chained reference, through its CTE |
| LiteralIndependence.MultiarySameText | src/Microsoft.Health.Fhir.SqlServer/SqlQueryBuilder.cs:313-356 | the same for an AND/OR group |
| LiteralIndependence.BuildQuerySameText | src/Microsoft.Health.Fhir.SqlServer/SqlQueryBuilder.cs:42-89 | two filters that differ only in compared values give the same query text and the same number of parameters, whatever page number and size each asks for |
| QueryBuilder.SqlParameterCollection.CreateParameter | src/Microsoft.Health.Fhir.SqlServer/SqlQueryBuilder.cs:168 | appends the value (with its type hint) and returns the placeholder that names it |
| QueryBuilder.SqlParameterCollection.AddWithValue | src/Microsoft.Health.Fhir.SqlServer/SqlQueryBuilder.cs:85-86 | appends a named parameter |
| QueryBuilder.SqlQueryBuilder.Append | src/Microsoft.Health.Fhir.SqlServer/SqlQueryBuilder.cs:253-259 | appends to this builder's buffer: the outer query or its CTE body |
| QueryBuilder.SqlQueryBuilder.Accept | src/Microsoft.Health.Fhir.SqlServer/SqlQueryBuilder.cs:100-428 | computes CompilerSpec.Accept in place and restores the current parameter and alias |
| QueryBuilder.SqlQueryBuilder.VisitSearchParameter | src/Microsoft.Health.Fhir.SqlServer/SqlQueryBuilder.cs:100-131 | computes CompilerSpec.VisitSearchParameter and restores the current parameter and alias, also when it throws |
| QueryBuilder.SqlQueryBuilder.VisitCompositeComponent | src/Microsoft.Health.Fhir.SqlServer/SqlQueryBuilder.cs:133-160 | computes CompilerSpec.VisitCompositeComponent and restores the current parameter and alias, also when it throws |
| QueryBuilder.SqlQueryBuilder.GenerateSubquery | src/Microsoft.Health.Fhir.SqlServer/SqlQueryBuilder.cs:162-180 | computes CompilerSpec.GenerateSubquery |
| QueryBuilder.SqlQueryBuilder.VisitBinary | src/Microsoft.Health.Fhir.SqlServer/SqlQueryBuilder.cs:207-242 | computes CompilerSpec.VisitBinary |
| QueryBuilder.SqlQueryBuilder.VisitString | src/Microsoft.Health.Fhir.SqlServer/SqlQueryBuilder.cs:358-428 | computes CompilerSpec.VisitString |
| QueryBuilder.SqlQueryBuilder.VisitMissingField | src/Microsoft.Health.Fhir.SqlServer/SqlQueryBuilder.cs:285-289 | computes CompilerSpec.VisitMissingField |
| QueryBuilder.SqlQueryBuilder.VisitMissingSearchParameter | src/Microsoft.Health.Fhir.SqlServer/SqlQueryBuilder.cs:291-311 | computes CompilerSpec.VisitMissingSearchParameter and restores the current parameter and alias, also when it throws |
| QueryBuilder.SqlQueryBuilder.VisitMultiary | src/Microsoft.Health.Fhir.SqlServer/SqlQueryBuilder.cs:313-356 | computes CompilerSpec.VisitMultiary |
| QueryBuilder.SqlQueryBuilder.VisitOperands | src/Microsoft.Health.Fhir.SqlServer/SqlQueryBuilder.cs:336-350 | the loop over the operands computes CompilerSpec.VisitOperands from the first operand |
| QueryBuilder.SqlQueryBuilder.VisitOperand | src/Microsoft.Health.Fhir.SqlServer/SqlQueryBuilder.cs:339-349 | one pass of that loop computes CompilerSpec.VisitOperand |
| QueryBuilder.SqlQueryBuilder.Separate | src/Microsoft.Health.Fhir.SqlServer/SqlQueryBuilder.cs:341-349 | computes CompilerSpec.Separate, reading the buffer's last character |
| QueryBuilder.SqlQueryBuilder.ChainCte | src/Microsoft.Health.Fhir.SqlServer/SqlQueryBuilder.cs:246-262 | registers the CTE, compiles the nested predicate with a fresh builder on the CTE body sharing the manager and collection, closes it: CompilerSpec.ChainCte |
| QueryBuilder.SqlQueryBuilder.VisitChained | src/Microsoft.Health.Fhir.SqlServer/SqlQueryBuilder.cs:244-283 | computes CompilerSpec.VisitChained and restores the current parameter and alias, also when it throws |
| QueryBuilder.SqlQueryBuilder.ChainJoin | src/Microsoft.Health.Fhir.SqlServer/SqlQueryBuilder.cs:264-283 | computes CompilerSpec.ChainJoin under alias `i`, restoring the parameter and alias in every case |
| QueryBuilder.SqlQueryBuilder.BuildQuery | src/Microsoft.Health.Fhir.SqlServer/SqlQueryBuilder.cs:42-89 | returns the text of CompilerSpec.BuildQuery and leaves the collection holding its parameters, or throws its exception; the preamble loop writes the definitions last first |

## Left out

- Newlines are one `NewLine` piece each, and fixed SQL fragments are opaque strings. The exact whitespace of the verbatim string literals is not modelled.
- Placeholder names are opaque: the parameter manager is not shown. A placeholder is `Param(k)`, naming the k-th entry of the collection, and is treated as ending in a non-whitespace character.
- The parameter manager and the parameter collection are merged into one append-only collection, since the manager's body is not shown.
- When a visit throws, the model says only which exception it throws. It does not state what text was partly written before, which the caller discards.
- A `StringBuilder` is identified by where it writes: the outer query, or the body of the j-th definition in the CTE manager.
- The string expression's ignore-case flag is carried but never read, as in the source.
- What the SQL means when run (the latest-version filter, paging) is outside the model: only the text and parameters are modelled.
- CompilerSpec.Accept: its own ensures states only how the definition count changes, which the termination proofs need. Evolution.AcceptEvolves states its effect on every buffer; the lemmas named below state each node's text.
- CompilerSpec.VisitSearchParameter: its own ensures states only how the definition count changes. PredicateText.SearchParameterInPlace states the whole text for `_type` and composite parameters. For other parameters SearchParameterSubquery states the whole text: the inner predicate compiled after the opening, then the closing.
- CompilerSpec.VisitCompositeComponent: its own ensures states only how the definition count changes. PredicateText.CompositeComponentOpens states the lookup, the binding and the whole text: the inner predicate compiled after the opening, then the tail. QueryShape.CompositeComponentTail states the same text relative to the subquery.
- CompilerSpec.GenerateSubquery: its own ensures states only how the definition count changes. PredicateText.SubqueryOpens states the binding and the whole text: the header, then `AND ` and the inner predicate compiled in place, then the closing parenthesis.
- CompilerSpec.VisitBinary: its own ensures states only how the definition count changes; PredicateText.BinaryComparison states its whole text, binding and exceptions.
- CompilerSpec.VisitString: its own ensures states only how the definition count changes. PredicateText.StringNeedsScope, StringNeedsColumn, StringPatternMatch, StringExactMatch, TokenTextLookup, BaseUriLookup and StringLookupIgnoresOperator state its text, binding and exceptions, an unmapped column included. For token text and base URI they name ten of the sixteen pieces; the fixed `WHERE`, `.`, join keyword and line-break pieces are not listed one by one.
- CompilerSpec.VisitMissingField: its own ensures states only how the definition count changes; PredicateText.MissingFieldText states its whole text and exceptions.
- CompilerSpec.VisitMissingSearchParameter: its own ensures states only how the definition count changes. PredicateText.MissingSearchParameterExists states its whole text, its binding and the KeyNotFound on an unknown URL.
- CompilerSpec.VisitMultiary: its own ensures states only how the definition count changes; QueryShape.GroupParentheses, OperandsInOrder and OperandsSeparated state its text.
- CompilerSpec.Separate: its own ensures states only how the definition count changes; QueryShape.SeparateSpacing states its text and its exception.
- CompilerSpec.ChainCte: its own ensures states only how the definition count changes; ChainText.ChainCteText states its text, binding and exception.
- CompilerSpec.VisitChained: its own ensures states only how the definition count changes. ChainText.ChainCteText and ChainedJoinsOwnCte, Evolution.ChainedEvolves and CteOrdering.NestedDefinedBeforeOuter state its effect. ChainText.ChainCriteriaBeforeJoin states the reference subquery between the CTE and the join.
- CompilerSpec.ChainJoin: its own ensures states only how the definition count changes; ChainText.ChainedJoinsOwnCte states the join, and ChainCriteriaBeforeJoin the reference subquery before it.
- CompilerSpec.VisitOperands: its own ensures states only how the definition count changes; QueryShape.OperandsInOrder and OperandsSeparated state its text.
- CompilerSpec.VisitOperand: its own ensures states only how the definition count changes; QueryShape.OperandText states its text.
- LiteralIndependence.AcceptSameText: two chained references must name the same target resource type, because that type is written verbatim into the CTE name.
- Balanced parentheses over the whole query are not proved: counting characters in the long fixed fragments is beyond what the prover evaluates quickly. The OR-group and composite parentheses are stated locally by QueryShape.GroupParentheses and CompositeComponentTail.
- The `AcceptVisitor` double dispatch and the FHIR library's `SearchParameter` type are replaced by a datatype and a `match`.
- `searchOptions` beyond its expression is not modelled, and the end-to-end composite search tests are not part of this model.
