/** The transaction records the importer produces and the UI shows
    (`Transaction`, `NewTransaction`), with the sums the views take over them. */
module Records {
  import opened Wrappers
  import Categories
  import Kinds

  /** A calendar month number, 1 to 12, as chrono's `month()` returns it. */
  type Month = m: int | 1 <= m <= 12 witness 1

  /** A calendar date (chrono's `NaiveDate`); only year and month are ever inspected. */
  datatype Date = Date(year: int, month: Month, day: int)

  /** A stored transaction. Amounts are in cents. */
  datatype Transaction = Transaction(
    id: nat,
    date: Date,
    title: string,
    amount: int,
    kind: Kinds.Kind,
    group: Option<Categories.Category>)

  /** A transaction read from the bank exports, before it is stored. */
  datatype NewTransaction = NewTransaction(date: Date, title: string, amount: int, kind: Kinds.Kind)

  /** The (year, month) key the monthly views group by. */
  function YearMonth(d: Date): (int, int)
  {
    (d.year, d.month)
  }

  /** `iter().map(|row| row.amount).sum()`. */
  function Sum(ts: seq<Transaction>): int
  {
    if ts == [] then 0 else Sum(ts[..|ts| - 1]) + ts[|ts| - 1].amount
  }

  /** `iter().filter(p)`: the transactions satisfying p, in their order. */
  function Where(ts: seq<Transaction>, p: Transaction -> bool): (r: seq<Transaction>)
    ensures |r| <= |ts|
    ensures forall t :: t in r <==> t in ts && p(t)
  {
    if ts == [] then []
    else
      var init := ts[..|ts| - 1];
      assert ts == init + [ts[|ts| - 1]];
      Where(init, p) + (if p(ts[|ts| - 1]) then [ts[|ts| - 1]] else [])
  }

  lemma {:induction false} SumAppend(a: seq<Transaction>, b: seq<Transaction>)
    ensures Sum(a + b) == Sum(a) + Sum(b)
    decreases |b|
  {
    if b == [] {
      assert a + b == a;
    } else {
      var b' := b[..|b| - 1];
      assert (a + b)[..|a + b| - 1] == a + b';
      SumAppend(a, b');
    }
  }

  lemma {:induction false} WhereAppend(a: seq<Transaction>, b: seq<Transaction>, p: Transaction -> bool)
    ensures Where(a + b, p) == Where(a, p) + Where(b, p)
    decreases |b|
  {
    if b == [] {
      assert a + b == a;
    } else {
      var b' := b[..|b| - 1];
      assert (a + b)[..|a + b| - 1] == a + b';
      WhereAppend(a, b', p);
    }
  }
}
