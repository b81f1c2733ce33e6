/** How money moved in a transaction, its text form (Display / FromStr) and its
    SQLite column form (ToSql / FromSql). */
module Kinds {
  import opened Wrappers
  import opened Sql

  datatype Kind = CreditPurchase | DebitPurchase | Income | CreditBillPayment

  /** Every text `FromStr` accepts. */
  const Names: set<string> := {"CreditPurchase", "DebitPurchase", "Income", "CreditBillPayment"}

  /** `Display::fmt`: the variant's own name. */
  function ToString(k: Kind): (s: string)
    ensures s in Names
  {
    match k
    case CreditPurchase => "CreditPurchase"
    case DebitPurchase => "DebitPurchase"
    case Income => "Income"
    case CreditBillPayment => "CreditBillPayment"
  }

  /** `FromStr::from_str`: exact, case-sensitive match on a variant name. */
  function FromStr(s: string): (r: Result<Kind, ParseError>)
    ensures r.Ok? <==> s in Names
    ensures r.Ok? ==> ToString(r.value) == s
    ensures r.Err? ==> r.error == UnknownEnum(s)
  {
    if s == "CreditPurchase" then Ok(CreditPurchase)
    else if s == "DebitPurchase" then Ok(DebitPurchase)
    else if s == "Income" then Ok(Income)
    else if s == "CreditBillPayment" then Ok(CreditBillPayment)
    else Err(UnknownEnum(s))
  }

  /** `ToSql::to_sql`: the kind is stored as its display text. */
  function ToSql(k: Kind): (v: Value)
    ensures v.Text? && v.s in Names
    ensures v.Text? && FromStr(v.s) == Ok(k)
  {
    Text(ToString(k))
  }

  /** `FromSql::column_result`: text is parsed, anything else is a type error. */
  function ColumnResult(v: Value): (r: Result<Kind, ColumnError>)
    ensures !v.Text? ==> r == Err(InvalidType)
    ensures v.Text? ==> (r.Ok? <==> v.s in Names)
    ensures r.Ok? ==> v == ToSql(r.value)
  {
    match v
    case Text(s) =>
      (match FromStr(s)
       case Ok(k) => Ok(k)
       case Err(e) => Err(OtherError(e)))
    case _ => Err(InvalidType)
  }

  /** Distinct kinds render to distinct texts. */
  lemma ToStringInjective(a: Kind, b: Kind)
    ensures ToString(a) == ToString(b) ==> a == b
  {
  }

  /** Parsing the display text gives back the kind. */
  lemma {:induction false} RoundTrip(k: Kind)
    ensures FromStr(ToString(k)) == Ok(k)
  {
    var r := FromStr(ToString(k));
    ToStringInjective(r.value, k);
  }

  /** Reading back what `to_sql` wrote gives the same kind. */
  lemma {:induction false} SqlRoundTrip(k: Kind)
    ensures ColumnResult(ToSql(k)) == Ok(k)
  {
    RoundTrip(k);
  }

  /** Matching is case-sensitive: a differently-cased name is rejected. */
  lemma LowerCaseRejected()
    ensures FromStr("income") == Err(UnknownEnum("income"))
  {
  }
}
