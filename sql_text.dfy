/**
 * SQL text at the granularity of `StringBuilder.Append` calls, and the
 * parameter collection that literal values go to instead of the text.
 */
module SqlText {
  import opened Wrappers
  import opened Expressions

  /**
   * One appended fragment: SQL text, or the placeholder returned for the
   * k-th parameter of the collection.  Placeholder names are opaque; the
   * model only relies on them not ending in whitespace.
   */
  datatype Piece = Sql(text: string) | Param(index: nat)

  /** `AppendLine()`: the line terminator, taken to be a line feed. */
  const NewLine: Piece := Sql("\n")

  datatype SqlDbType = VarChar

  /**
   * An entry of the parameter collection: a value bound through the
   * parameter manager (with its optional storage-type hint), or a value
   * added under an explicit name.
   */
  datatype Binding =
    | Generated(value: Literal, dbType: Option<SqlDbType>)
    | Named(name: string, value: Literal)

  /** `char.IsWhiteSpace`: the Unicode space, line and paragraph separators and the control whitespace. */
  predicate IsWhiteSpace(c: char)
  {
    c == ' ' || ('\t' <= c <= '\r') || c == '\U{0085}' || c == '\U{00A0}' || c == '\U{1680}'
    || ('\U{2000}' <= c <= '\U{200A}') || c == '\U{2028}' || c == '\U{2029}' || c == '\U{202F}'
    || c == '\U{205F}' || c == '\U{3000}'
  }

  /**
   * `char.IsWhiteSpace(_query[_query.Length - 1])`: whether the last
   * character of the buffer is whitespace, or None when the buffer holds no
   * character (where the indexer throws).
   */
  function LastIsWhiteSpace(buffer: seq<Piece>): Option<bool>
  {
    if buffer == [] then None
    else match buffer[|buffer| - 1]
      case Param(_) => Some(false)
      case Sql(s) =>
        if s == [] then LastIsWhiteSpace(buffer[..|buffer| - 1]) else Some(IsWhiteSpace(s[|s| - 1]))
  }

  function DigitChar(d: nat): char
    requires d < 10
  {
    "0123456789"[d]
  }

  /** The decimal text of a natural number, as `int.ToString()` gives it. */
  function NatToString(n: nat): (s: string)
    ensures |s| > 0
    ensures forall i :: 0 <= i < |s| ==> '0' <= s[i] <= '9'
  {
    if n < 10 then [DigitChar(n)] else NatToString(n / 10) + [DigitChar(n % 10)]
  }

  function IntToString(i: int): (s: string)
    ensures |s| > 0
  {
    if i < 0 then "-" + NatToString(-i) else NatToString(i)
  }

  const SelectText: string :=
    "\nSELECT ResourceTypePK, Id, Version, LastUpdated, RawResource FROM RESOURCE r \nWHERE "

  /** The latest-version filter: no other row of the resource has a greater version. */
  const LatestVersionText: string :=
    "NOT EXISTS (\n SELECT * FROM Resource r2\n WHERE r.ResourcePK = r2.ResourcePK\n AND r2.Version > r.Version\n)"

  /** The paging window; note `@pagesize` in OFFSET and `@pageSize` in FETCH. */
  const PagingText: string :=
    "ORDER BY ResourcePK\nOFFSET ((@pageNum) * @pagesize) ROWS\nFETCH NEXT @pageSize ROWS ONLY;\n"

  /** `AppendLatestVersionPredicate`. */
  const LatestVersionPredicate: seq<Piece> := [Sql(LatestVersionText), NewLine]
}
