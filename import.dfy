/** The importer's glue: turning the built frame into `NewTransaction`s
    (`convert_df`) and totalling stored transactions per month
    (`get_transactions_by_month`). */
module Import {
  import opened Wrappers
  import opened Records
  import opened Frames
  import Kinds
  import Formatting

  /** Why a row cannot become a transaction. Each is a panic in the source
      (`unwrap`/`expect`), which aborts the whole import. */
  datatype Reason = NullDate | NullTitle | NullAmount | NullKind | UnknownKind(text: string)

  datatype ConvertError = ConvertError(row: nat, reason: Reason)

  /** One row: the fields are read in the order date, title, amount, kind. */
  function ConvertRow(r: Row): (t: Result<NewTransaction, Reason>)
    ensures t.Ok? <==> Complete(r) && r.kind.value in Kinds.Names
    ensures t.Ok? ==> && t.value.date == r.date.value && t.value.title == r.title.value
                      && t.value.amount == r.amount.value
                      && Kinds.ToString(t.value.kind) == r.kind.value
  {
    if r.date.None? then Err(NullDate)
    else if r.title.None? then Err(NullTitle)
    else if r.amount.None? then Err(NullAmount)
    else if r.kind.None? then Err(NullKind)
    else match Kinds.FromStr(r.kind.value)
      case Ok(k) => Ok(NewTransaction(r.date.value, r.title.value, r.amount.value, k))
      case Err(_) => Err(UnknownKind(r.kind.value))
  }

  /** `convert_df`: one transaction per row, in row order; the first row that
      cannot be converted aborts the conversion and is reported. */
  function ConvertRows(rows: seq<Row>): (r: Result<seq<NewTransaction>, ConvertError>)
    ensures r.Ok? <==> forall i :: 0 <= i < |rows| ==> ConvertRow(rows[i]).Ok?
    ensures r.Ok? ==> |r.value| == |rows|
    ensures r.Ok? ==> forall i :: 0 <= i < |rows| ==> Ok(r.value[i]) == ConvertRow(rows[i])
    ensures r.Err? ==>
      && r.error.row < |rows|
      && ConvertRow(rows[r.error.row]) == Err(r.error.reason)
      && forall j :: 0 <= j < r.error.row ==> ConvertRow(rows[j]).Ok?
  {
    if rows == [] then Ok([])
    else
      match ConvertRow(rows[0])
      case Err(reason) => Err(ConvertError(0, reason))
      case Ok(t) =>
        match ConvertRows(rows[1..])
        case Ok(ts) => Ok([t] + ts)
        case Err(e) => Err(ConvertError(e.row + 1, e.reason))
  }

  /** Rows the formatter built always convert: `build` dropped every row with
      a null and both formatters write only kind names `Kind::from_str`
      accepts. */
  lemma {:induction false} BuiltFrameConverts(f: Formatting.Formatter)
    requires f.Valid() && !f.empty
    ensures ConvertRows(f.Build().value).Ok?
  {
    var rows := f.Build().value;
    forall i | 0 <= i < |rows|
      ensures ConvertRow(rows[i]).Ok?
    {
      assert Complete(rows[i]) && rows[i].kind.value in Kinds.Names;
    }
  }

  /** The (year, month) keys of the transactions. */
  function Months(ts: seq<Transaction>): (ks: set<(int, int)>)
    ensures forall k :: k in ks <==> exists i :: 0 <= i < |ts| && YearMonth(ts[i].date) == k
  {
    if ts == [] then {}
    else
      var init := ts[..|ts| - 1];
      assert forall i :: 0 <= i < |init| ==> init[i] == ts[i];
      Months(init) + {YearMonth(ts[|ts| - 1].date)}
  }

  /** The sum of the amounts of the transactions in month k. */
  function MonthTotal(ts: seq<Transaction>, k: (int, int)): int
  {
    if ts == [] then 0
    else
      var last := ts[|ts| - 1];
      MonthTotal(ts[..|ts| - 1], k) + (if YearMonth(last.date) == k then last.amount else 0)
  }

  /** A month with no transaction totals zero. */
  lemma {:induction false} MonthTotalOfOtherMonth(ts: seq<Transaction>, k: (int, int))
    requires k !in Months(ts)
    ensures MonthTotal(ts, k) == 0
  {
    if ts != [] {
      MonthTotalOfOtherMonth(ts[..|ts| - 1], k);
    }
  }

  /** `get_transactions_by_month`: fold every transaction into a map from
      (year, month) to the running sum, creating a key at 0 on first use. */
  method TransactionsByMonth(ts: seq<Transaction>) returns (totals: map<(int, int), int>)
    ensures totals.Keys == Months(ts)
    ensures forall k :: k in totals ==> totals[k] == MonthTotal(ts, k)
  {
    totals := map[];
    var i := 0;
    while i < |ts|
      invariant 0 <= i <= |ts|
      invariant totals.Keys == Months(ts[..i])
      invariant forall k :: k in totals ==> totals[k] == MonthTotal(ts[..i], k)
    {
      var t := ts[i];
      var key := YearMonth(t.date);
      var current := if key in totals then totals[key] else 0;
      if key !in totals {
        MonthTotalOfOtherMonth(ts[..i], key);
      }
      totals := totals[key := current + t.amount];
      assert ts[..i + 1][..i] == ts[..i];
      i := i + 1;
    }
    assert ts[..i] == ts;
  }
}
