/** The spending category of a transaction, its text form (Display / FromStr)
    and its SQLite column form (ToSql / FromSql). */
module Categories {
  import opened Wrappers
  import opened Sql

  /** The nine categories, in declaration order (the order `Category::iter`
      yields and the order the category selector steps through). */
  datatype Category =
    | Housing
    | Transportation
    | Food
    | Supermarket
    | Savings
    | Health
    | Personal
    | Trips
    | Other

  const All: seq<Category> :=
    [Housing, Transportation, Food, Supermarket, Savings, Health, Personal, Trips, Other]

  /** Every text `FromStr` accepts. */
  const Names: set<string> :=
    {"Housing", "Transportation", "Food", "Supermarket", "Savings", "Health",
     "Personal", "Trips", "Other"}

  /** `Display::fmt`: the variant's own name. */
  function ToString(c: Category): (s: string)
    ensures s in Names
  {
    match c
    case Housing => "Housing"
    case Transportation => "Transportation"
    case Food => "Food"
    case Supermarket => "Supermarket"
    case Savings => "Savings"
    case Health => "Health"
    case Personal => "Personal"
    case Trips => "Trips"
    case Other => "Other"
  }

  /** `FromStr::from_str`: exact, case-sensitive match on a variant name. */
  function FromStr(s: string): (r: Result<Category, ParseError>)
    ensures r.Ok? <==> s in Names
    ensures r.Ok? ==> ToString(r.value) == s
    ensures r.Err? ==> r.error == UnknownEnum(s)
  {
    if s == "Housing" then Ok(Housing)
    else if s == "Transportation" then Ok(Transportation)
    else if s == "Food" then Ok(Food)
    else if s == "Supermarket" then Ok(Supermarket)
    else if s == "Savings" then Ok(Savings)
    else if s == "Health" then Ok(Health)
    else if s == "Personal" then Ok(Personal)
    else if s == "Trips" then Ok(Trips)
    else if s == "Other" then Ok(Other)
    else Err(UnknownEnum(s))
  }

  /** `ToSql::to_sql`: the category is stored as its display text. */
  function ToSql(c: Category): (v: Value)
    ensures v.Text? && v.s in Names
    ensures v.Text? && FromStr(v.s) == Ok(c)
  {
    Text(ToString(c))
  }

  /** `FromSql::column_result`: text is parsed, anything else is a type error. */
  function ColumnResult(v: Value): (r: Result<Category, ColumnError>)
    ensures !v.Text? ==> r == Err(InvalidType)
    ensures v.Text? ==> (r.Ok? <==> v.s in Names)
    ensures r.Ok? ==> v == ToSql(r.value)
  {
    match v
    case Text(s) =>
      (match FromStr(s)
       case Ok(c) => Ok(c)
       case Err(e) => Err(OtherError(e)))
    case _ => Err(InvalidType)
  }

  /** Distinct categories render to distinct texts. */
  lemma ToStringInjective(a: Category, b: Category)
    ensures ToString(a) == ToString(b) ==> a == b
  {
  }

  /** Parsing the display text gives back the category. */
  lemma {:induction false} RoundTrip(c: Category)
    ensures FromStr(ToString(c)) == Ok(c)
  {
    var r := FromStr(ToString(c));
    ToStringInjective(r.value, c);
  }

  /** Reading back what `to_sql` wrote gives the same category. */
  lemma {:induction false} SqlRoundTrip(c: Category)
    ensures ColumnResult(ToSql(c)) == Ok(c)
  {
    RoundTrip(c);
  }

  /** Matching is case-sensitive: the lower-case name is rejected. */
  lemma LowerCaseRejected()
    ensures FromStr("food") == Err(UnknownEnum("food"))
  {
  }

  /** The step `Category::next` the selector uses: the following variant in
      declaration order, wrapping from the last to the first. */
  function Next(c: Category): (n: Category)
    ensures n != c
  {
    match c
    case Housing => Transportation
    case Transportation => Food
    case Food => Supermarket
    case Supermarket => Savings
    case Savings => Health
    case Health => Personal
    case Personal => Trips
    case Trips => Other
    case Other => Housing
  }

  /** The step `Category::previous`: the preceding variant, wrapping from the
      first to the last. */
  function Previous(c: Category): (p: Category)
    ensures p != c
  {
    match c
    case Housing => Other
    case Transportation => Housing
    case Food => Transportation
    case Supermarket => Food
    case Savings => Supermarket
    case Health => Savings
    case Personal => Health
    case Trips => Personal
    case Other => Trips
  }

  /** The two steps undo each other. */
  lemma StepsInverse(c: Category)
    ensures Previous(Next(c)) == c && Next(Previous(c)) == c
  {
  }
}
