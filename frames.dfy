/** Data frames as the importer sees them: a raw frame as the CSV reader
    returns it, and the normalised rows (date, title, amount, kind) the two
    formatters produce. A polars null is `None`. */
module Frames {
  import opened Wrappers
  import opened Records
  import Kinds

  /** One CSV cell after the reader's type inference (dates parsed, numbers
      as amounts in cents). */
  datatype Cell = Null | DateCell(d: Date) | Number(n: int) | Text(s: string)

  /** A frame read from one CSV file: its column count and its rows. */
  datatype RawFrame = RawFrame(width: nat, rows: seq<seq<Cell>>)

  /** A normalised row: columns date, title, amount, kind, each nullable. */
  datatype Row = Row(date: Option<Date>, title: Option<string>, amount: Option<int>, kind: Option<string>)

  function AsDate(c: Cell): Option<Date>
  {
    if c.DateCell? then Some(c.d) else None
  }

  function AsNumber(c: Cell): Option<int>
  {
    if c.Number? then Some(c.n) else None
  }

  function AsText(c: Cell): Option<string>
  {
    if c.Text? then Some(c.s) else None
  }

  predicate DateOrNull(c: Cell) { c.Null? || c.DateCell? }
  predicate NumberOrNull(c: Cell) { c.Null? || c.Number? }
  predicate TextOrNull(c: Cell) { c.Null? || c.Text? }

  /** Every row has the frame's width, and the column types are the ones the
      layout of that width needs (credit: date, title, amount; debit: date,
      amount, identifier, description). polars refuses the column expressions
      on any other typing. */
  ghost predicate WellTyped(f: RawFrame)
  {
    && (forall i :: 0 <= i < |f.rows| ==> |f.rows[i]| == f.width)
    && (f.width == 3 ==> forall i :: 0 <= i < |f.rows| ==>
          DateOrNull(f.rows[i][0]) && TextOrNull(f.rows[i][1]) && NumberOrNull(f.rows[i][2]))
    && (f.width == 4 ==> forall i :: 0 <= i < |f.rows| ==>
          DateOrNull(f.rows[i][0]) && NumberOrNull(f.rows[i][1]) && TextOrNull(f.rows[i][3]))
  }

  /** A row with no null in any column (what `drop_nulls` keeps). */
  predicate Complete(r: Row)
  {
    r.date.Some? && r.title.Some? && r.amount.Some? && r.kind.Some?
  }

  /** Every row carries a kind text `Kind::from_str` accepts. */
  ghost predicate KindsValid(rows: seq<Row>)
  {
    forall i :: 0 <= i < |rows| ==> rows[i].kind.Some? && rows[i].kind.value in Kinds.Names
  }
}
