/** The checking-account export (four columns, renamed positionally to date,
    amount, index, description). */
module DebitFormat {
  import opened Wrappers
  import opened Records
  import opened Frames
  import opened StrOps
  import Kinds

  datatype DebitRow = DebitRow(date: Option<Date>, amount: Option<int>, index: Cell, description: Option<string>)

  /** `rename_columns`: the four cells of a row are, in order, date, amount,
      index and description, whatever the file's header says. */
  function ReadRow(cells: seq<Cell>): DebitRow
    requires |cells| == 4
  {
    DebitRow(AsDate(cells[0]), AsNumber(cells[1]), cells[2], AsText(cells[3]))
  }

  /** `list().get(i, true)`: an index past the end yields null. */
  function ListGet(parts: seq<string>, i: nat): (r: Option<string>)
    ensures r.Some? <==> i < |parts|
    ensures r.Some? ==> r.value == parts[i]
  {
    if i < |parts| then Some(parts[i]) else None
  }

  /** `add_short_description`, as intended: split the description on '-';
      with two or more parts take part 1, otherwise take part 2, which is
      past the end of a one-part list and so null. A null description gives
      null. */
  function ShortDescription(description: Option<string>): (t: Option<string>)
    ensures description.None? ==> t.None?
    ensures description.Some? ==> (t.Some? <==> Separator in description.value)
    ensures t.Some? ==> description.Some? && |Split(description.value)| >= 2
    ensures t.Some? ==> t.value == Split(description.value)[1] && Separator !in t.value
  {
    match description
    case None => None
    case Some(d) =>
      var parts := Split(d);
      SplitCount(d);
      PartsHaveNoSeparator(d);
      if |parts| >= 2 then ListGet(parts, 1) else ListGet(parts, 2)
  }

  /** `add_short_description` as written: the `length` column is
      `split(..).len()`, the expression length, which is the number of rows
      of the frame (`height`) broadcast to every row, not the number of
      parts. Frames of two or more rows take part 1; a one-row frame takes
      part 2. */
  function ShortDescriptionAsWritten(description: Option<string>, height: nat): (t: Option<string>)
    ensures description.None? ==> t.None?
    ensures height >= 2 ==> t == ShortDescription(description)
    ensures height < 2 && description.Some? ==>
      (t.Some? <==> |Split(description.value)| >= 3)
      && (t.Some? ==> t.value == Split(description.value)[2])
  {
    match description
    case None => None
    case Some(d) =>
      var parts := Split(d);
      SplitCount(d);
      if height >= 2 then ListGet(parts, 1) else ListGet(parts, 2)
  }

  /** `add_kind`: "Income" when amount > 0, otherwise (zero and null included)
      "DebitPurchase". */
  function Kind(amount: Option<int>): string
  {
    if amount.Some? && amount.value > 0 then "Income" else "DebitPurchase"
  }

  /** The whole builder chain on one row: the output columns are date, title
      (the short description), amount (unchanged) and kind; index is dropped. */
  function FormatRow(r: DebitRow): (o: Row)
    ensures o.date == r.date && o.amount == r.amount
    ensures o.title == ShortDescription(r.description)
    ensures o.kind == Some("Income") <==> r.amount.Some? && r.amount.value > 0
    ensures o.kind.Some? && Kinds.FromStr(o.kind.value).Ok?
  {
    Row(r.date, ShortDescription(r.description), r.amount, Some(Kind(r.amount)))
  }

  /** `DebitFormatter::format`, as intended: the row rule applied to every
      row, keeping row count and order. */
  function Format(rows: seq<DebitRow>): (out: seq<Row>)
    ensures |out| == |rows|
    ensures forall i :: 0 <= i < |rows| ==> out[i] == FormatRow(rows[i])
    ensures KindsValid(out)
  {
    seq(|rows|, i requires 0 <= i < |rows| => FormatRow(rows[i]))
  }

  /** `DebitFormatter::format` as written: the title of every row depends on
      the height of the whole frame. */
  function FormatAsWritten(rows: seq<DebitRow>): (out: seq<Row>)
    ensures |out| == |rows|
    ensures forall i :: 0 <= i < |rows| ==>
      out[i] == FormatRow(rows[i]).(title := ShortDescriptionAsWritten(rows[i].description, |rows|))
  {
    seq(|rows|, i requires 0 <= i < |rows| =>
      FormatRow(rows[i]).(title := ShortDescriptionAsWritten(rows[i].description, |rows|)))
  }

  /** On frames of two or more rows the code as written and the intended
      rule give the same frame. */
  lemma AsWrittenAgreesOnTallFrames(rows: seq<DebitRow>)
    requires |rows| >= 2
    ensures FormatAsWritten(rows) == Format(rows)
  {
    var a, b := FormatAsWritten(rows), Format(rows);
    forall i | 0 <= i < |rows|
      ensures a[i] == b[i]
    {
      assert a[i].title == ShortDescription(rows[i].description);
    }
  }

  /** A deposit of 1500.00 is income, and its amount is kept. */
  lemma IncomeScenario(d: Date, desc: string)
    ensures FormatRow(DebitRow(Some(d), Some(1500_00), Null, Some(desc))).kind == Some("Income")
    ensures FormatRow(DebitRow(Some(d), Some(1500_00), Null, Some(desc))).amount == Some(1500_00)
  {
  }

  /** "a-b" splits into ["a", "b"]. */
  lemma SplitTwo()
    ensures Split("a-b") == ["a", "b"]
  {
    SplitAroundSeparator("a", "b");
    SplitPlain("a");
    SplitPlain("b");
    assert "a" + [Separator] + "b" == "a-b";
  }

  /** A description "a-b" is shortened to "b", as intended and by the code as
      written in a frame of two or more rows; in a one-row frame the code as
      written takes part 2, which does not exist, and the title is null. */
  lemma ShortDescriptionScenario(height: nat)
    ensures ShortDescription(Some("a-b")) == Some("b")
    ensures height >= 2 ==> ShortDescriptionAsWritten(Some("a-b"), height) == Some("b")
    ensures height < 2 ==> ShortDescriptionAsWritten(Some("a-b"), height) == None
  {
    SplitTwo();
  }

  /** A one-row debit file whose description is "a-b": the code as written
      gives a null title (so `build` later drops the row), while the intended
      rule gives "b". */
  lemma OneRowFrameAsWritten(d: Date, amount: int)
    ensures var rows := [DebitRow(Some(d), Some(amount), Null, Some("a-b"))];
      FormatAsWritten(rows)[0].title == None && Format(rows)[0].title == Some("b")
  {
    SplitTwo();
  }
}
