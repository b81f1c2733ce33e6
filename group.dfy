/** The budget group enum, its text form (Display / FromStr) and its SQLite
    column form (ToSql / FromSql). */
module Groups {
  import opened Wrappers
  import opened Sql

  datatype Group = Fixed | Savings | Variable

  /** Every text `FromStr` accepts. */
  const Names: set<string> := {"Fixed", "Savings", "Variable"}

  /** `Display::fmt`: the variant's own name. */
  function ToString(g: Group): (s: string)
    ensures s in Names
  {
    match g
    case Fixed => "Fixed"
    case Savings => "Savings"
    case Variable => "Variable"
  }

  /** `FromStr::from_str`: exact, case-sensitive match on a variant name. */
  function FromStr(s: string): (r: Result<Group, ParseError>)
    ensures r.Ok? <==> s in Names
    ensures r.Ok? ==> ToString(r.value) == s
    ensures r.Err? ==> r.error == UnknownEnum(s)
  {
    if s == "Fixed" then Ok(Fixed)
    else if s == "Savings" then Ok(Savings)
    else if s == "Variable" then Ok(Variable)
    else Err(UnknownEnum(s))
  }

  /** `ToSql::to_sql`: the group is stored as its display text. */
  function ToSql(g: Group): (v: Value)
    ensures v.Text? && v.s in Names
    ensures v.Text? && FromStr(v.s) == Ok(g)
  {
    Text(ToString(g))
  }

  /** `FromSql::column_result`: text is parsed, anything else is a type error. */
  function ColumnResult(v: Value): (r: Result<Group, ColumnError>)
    ensures !v.Text? ==> r == Err(InvalidType)
    ensures v.Text? ==> (r.Ok? <==> v.s in Names)
    ensures r.Ok? ==> v == ToSql(r.value)
  {
    match v
    case Text(s) =>
      (match FromStr(s)
       case Ok(g) => Ok(g)
       case Err(e) => Err(OtherError(e)))
    case _ => Err(InvalidType)
  }

  /** Distinct groups render to distinct texts. */
  lemma ToStringInjective(a: Group, b: Group)
    ensures ToString(a) == ToString(b) ==> a == b
  {
  }

  /** Parsing the display text gives back the group. */
  lemma {:induction false} RoundTrip(g: Group)
    ensures FromStr(ToString(g)) == Ok(g)
  {
    var r := FromStr(ToString(g));
    ToStringInjective(r.value, g);
  }

  /** Reading back what `to_sql` wrote gives the same group. */
  lemma {:induction false} SqlRoundTrip(g: Group)
    ensures ColumnResult(ToSql(g)) == Ok(g)
  {
    RoundTrip(g);
  }
}
