/** The `Formatter` that collects the formatted frames of every export file
    and builds the final frame. */
module Formatting {
  import opened Wrappers
  import opened Frames
  import opened StrOps
  import CreditFormat
  import DebitFormat

  /** The two export layouts. */
  datatype CsvType = Credit | Debit

  /** polars' error when `build` runs on the column-less placeholder frame. */
  datatype FrameError = ColumnNotFound(name: string)

  /** `check_kind`: the layout is told apart by the column count alone. */
  function CheckKind(width: nat): (k: Option<CsvType>)
    ensures k == Some(Credit) <==> width == 3
    ensures k == Some(Debit) <==> width == 4
    ensures k.None? <==> width != 3 && width != 4
  {
    if width == 3 then Some(Credit)
    else if width == 4 then Some(Debit)
    else None
  }

  /** The formatter of the recognised layout applied to a raw frame. */
  function FormatFrame(f: RawFrame, t: CsvType): (rows: seq<Row>)
    requires WellTyped(f) && CheckKind(f.width) == Some(t)
    ensures |rows| == |f.rows|
    ensures KindsValid(rows)
    ensures t == Credit ==> forall i :: 0 <= i < |rows| ==>
      rows[i] == CreditFormat.FormatRow(CreditFormat.ReadRow(f.rows[i]))
    ensures t == Debit ==> forall i :: 0 <= i < |rows| ==>
      rows[i] == DebitFormat.FormatRow(DebitFormat.ReadRow(f.rows[i]))
  {
    match t
    case Credit =>
      CreditFormat.Format(seq(|f.rows|, i requires 0 <= i < |f.rows| => CreditFormat.ReadRow(f.rows[i])))
    case Debit =>
      DebitFormat.Format(seq(|f.rows|, i requires 0 <= i < |f.rows| => DebitFormat.ReadRow(f.rows[i])))
  }

  /** `strip_chars(lit(" "))` on the title column of one row. */
  function StripTitle(r: Row): Row
  {
    r.(title := if r.title.Some? then Some(Strip(r.title.value)) else None)
  }

  /** The title column stripped; every other column and the row order kept. */
  function StripTitles(rows: seq<Row>): (out: seq<Row>)
    ensures |out| == |rows|
    ensures forall i :: 0 <= i < |rows| ==>
      && out[i].date == rows[i].date && out[i].amount == rows[i].amount && out[i].kind == rows[i].kind
      && (out[i].title.Some? <==> rows[i].title.Some?)
      && (out[i].title.Some? ==> out[i].title.value == Strip(rows[i].title.value))
  {
    seq(|rows|, i requires 0 <= i < |rows| => StripTitle(rows[i]))
  }

  /** `drop_nulls(None)`: the rows with no null in any column, in order. */
  function DropNulls(rows: seq<Row>): (out: seq<Row>)
    ensures |out| <= |rows|
    ensures forall r :: r in out <==> r in rows && Complete(r)
  {
    if rows == [] then []
    else
      var init := rows[..|rows| - 1];
      var last := rows[|rows| - 1];
      assert rows == init + [last];
      DropNulls(init) + (if Complete(last) then [last] else [])
  }

  /** Dropping nulls keeps the relative order: it works piece by piece. */
  lemma {:induction false} DropNullsAppend(a: seq<Row>, b: seq<Row>)
    ensures DropNulls(a + b) == DropNulls(a) + DropNulls(b)
    decreases |b|
  {
    if b == [] {
      assert a + b == a;
    } else {
      var b' := b[..|b| - 1];
      assert (a + b)[..|a + b| - 1] == a + b';
      DropNullsAppend(a, b');
    }
  }

  /** A frame with no nulls loses no row. */
  lemma {:induction false} DropNullsKeepsComplete(rows: seq<Row>)
    requires forall i :: 0 <= i < |rows| ==> Complete(rows[i])
    ensures DropNulls(rows) == rows
  {
    if rows != [] {
      DropNullsKeepsComplete(rows[..|rows| - 1]);
    }
  }

  /** What `build` makes of a frame: titles stripped, then the rows holding a
      null dropped. Exactly the complete stripped rows remain. */
  function Clean(rows: seq<Row>): (out: seq<Row>)
    ensures |out| <= |rows|
    ensures forall x :: x in out <==> x in StripTitles(rows) && Complete(x)
  {
    DropNulls(StripTitles(rows))
  }

  /** Cleaning works frame by frame, keeping the order of the pieces. */
  lemma CleanAppend(a: seq<Row>, b: seq<Row>)
    ensures Clean(a + b) == Clean(a) + Clean(b)
  {
    assert StripTitles(a + b) == StripTitles(a) + StripTitles(b);
    DropNullsAppend(StripTitles(a), StripTitles(b));
  }

  /** A debit row whose description has no '-' has a null title, so `build`
      drops it. */
  lemma DebitRowWithoutSeparatorDropped(r: DebitFormat.DebitRow)
    requires r.description.Some? && Separator !in r.description.value
    ensures DropNulls(StripTitles([DebitFormat.FormatRow(r)])) == []
  {
    var rows := [DebitFormat.FormatRow(r)];
    assert rows[..0] == [];
  }

  class Formatter {
    /** The accumulated frame; while `empty`, the column-less placeholder. */
    var df: seq<Row>
    var empty: bool

    ghost predicate Valid()
      reads this
    {
      KindsValid(df) && (empty ==> df == [])
    }

    /** `Formatter::new(DataFrame::default())`: starts on the placeholder. */
    constructor ()
      ensures Valid() && empty && df == []
    {
      df := [];
      empty := true;
    }

    /** `concat`: the first frame replaces the placeholder; each later frame
        goes in front of the rows gathered so far. */
    method Concat(rows: seq<Row>)
      requires Valid() && KindsValid(rows)
      modifies this
      ensures Valid() && !empty
      ensures df == if old(empty) then rows else rows + old(df)
    {
      if empty {
        df := rows;
        empty := false;
      } else {
        df := rows + df;
      }
    }

    /** `add`: a frame of a recognised layout is formatted and concatenated;
        any other frame leaves the formatter as it was. */
    method Add(f: RawFrame)
      requires Valid() && WellTyped(f)
      modifies this
      ensures Valid()
      ensures CheckKind(f.width).None? ==> df == old(df) && empty == old(empty)
      ensures CheckKind(f.width).Some? ==>
        && !empty
        && df == (if old(empty) then FormatFrame(f, CheckKind(f.width).value)
                  else FormatFrame(f, CheckKind(f.width).value) + old(df))
      ensures old(!empty) ==> !empty
      ensures CheckKind(f.width).Some? && old(!empty) ==>
        Build().value == Clean(FormatFrame(f, CheckKind(f.width).value)) + old(Build().value)
    {
      var kind := CheckKind(f.width);
      match kind {
        case Some(t) =>
          CleanAppend(FormatFrame(f, t), df);
          Concat(FormatFrame(f, t));
        case None =>
      }
    }

    /** `build`: strip the titles, then drop every row holding a null. On the
        placeholder the title column does not exist and polars fails. */
    function Build(): (r: Result<seq<Row>, FrameError>)
      requires Valid()
      reads this
      ensures r.Err? <==> empty
      ensures r.Err? ==> r.error == ColumnNotFound("title")
      ensures r.Ok? ==> r.value == Clean(df)
      ensures r.Ok? ==> forall x :: x in r.value <==> x in StripTitles(df) && Complete(x)
      ensures r.Ok? ==> KindsValid(r.value)
      ensures r.Ok? ==> forall i :: 0 <= i < |r.value| ==>
        Complete(r.value[i]) && r.value[i].title.value == Strip(r.value[i].title.value)
    {
      if empty then Err(ColumnNotFound("title"))
      else
        var out := Clean(df);
        assert forall i :: 0 <= i < |out| ==> out[i] in StripTitles(df);
        Ok(out)
    }
  }
}
