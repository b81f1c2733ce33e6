/** The credit-card export (three columns: date, title, amount). */
module CreditFormat {
  import opened Wrappers
  import opened Records
  import opened Frames
  import Kinds

  datatype CreditRow = CreditRow(date: Option<Date>, title: Option<string>, amount: Option<int>)

  /** The cells of one row of a three-column frame. */
  function ReadRow(cells: seq<Cell>): CreditRow
    requires |cells| == 3
  {
    CreditRow(AsDate(cells[0]), AsText(cells[1]), AsNumber(cells[2]))
  }

  /** `when(amount > 0).then("CreditBillPayment").otherwise("CreditPurchase")`,
      on the amount as exported. A null amount makes the condition null, which
      selects the otherwise branch. */
  function Kind(amount: Option<int>): string
  {
    if amount.Some? && amount.value > 0 then "CreditBillPayment" else "CreditPurchase"
  }

  /** `amount * lit(-1)`; null stays null. */
  function Negate(amount: Option<int>): (r: Option<int>)
    ensures r.Some? <==> amount.Some?
    ensures r.Some? ==> r.value + amount.value == 0
  {
    match amount
    case Some(a) => Some(-a)
    case None => None
  }

  /** `select_columns` on one row: kind decided by the exported sign, then the
      amount negated; date and title pass through. */
  function FormatRow(r: CreditRow): (o: Row)
    ensures o.date == r.date && o.title == r.title
    ensures o.amount.Some? <==> r.amount.Some?
    ensures o.amount.Some? ==> o.amount.value == -r.amount.value
    ensures o.kind == Some("CreditBillPayment") <==> r.amount.Some? && r.amount.value > 0
    ensures o.kind.Some? && Kinds.FromStr(o.kind.value).Ok?
    ensures o.kind == Some("CreditBillPayment") ==> o.amount.Some? && o.amount.value < 0
    ensures o.kind == Some("CreditPurchase") && o.amount.Some? ==> o.amount.value >= 0
  {
    Row(r.date, r.title, Negate(r.amount), Some(Kind(r.amount)))
  }

  /** `CreditFormatter::format`: the row rule applied to every row, keeping
      row count and order. */
  function Format(rows: seq<CreditRow>): (out: seq<Row>)
    ensures |out| == |rows|
    ensures forall i :: 0 <= i < |rows| ==> out[i] == FormatRow(rows[i])
    ensures KindsValid(out)
  {
    seq(|rows|, i requires 0 <= i < |rows| => FormatRow(rows[i]))
  }

  /** An exported purchase of -42.00 is stored as a positive 42.00 purchase. */
  lemma PurchaseScenario(d: Date, title: string)
    ensures FormatRow(CreditRow(Some(d), Some(title), Some(-4200)))
         == Row(Some(d), Some(title), Some(4200), Some("CreditPurchase"))
  {
  }
}
