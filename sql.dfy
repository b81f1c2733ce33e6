/** The SQLite values the enums are written as and read back from. */
module Sql {

  /** A column value as rusqlite's `ValueRef` sees it. Floating-point and blob
      payloads are not modelled: reading an enum only asks whether the value is text. */
  datatype Value = Null | Integer(i: int) | Real | Text(s: string) | Blob

  /** The error `FromStr` gives for an unknown enum name ("UnknownEnum <s>"). */
  datatype ParseError = UnknownEnum(name: string)

  /** The error `column_result` gives: `as_str` fails on a non-text value,
      otherwise the parse error is wrapped. */
  datatype ColumnError = InvalidType | OtherError(cause: ParseError)
}
