/** The monthly dashboard: per-category expense totals, the 50/30/20 rule
    buckets, one summary per month, and the cursor over the month list. */
module Chart {
  import opened Wrappers
  import opened Records
  import opened Categories
  import Kinds
  import opened Cursor
  import Keys

  /** The key under which ungrouped transactions are totalled. */
  const NullKey := "[N/A]"

  /** The categories counted as needs, wants and savings by the 50/30/20 rule. */
  const NeedsList: seq<Category> := [Food, Housing, Transportation, Supermarket, Health]
  const SavingsList: seq<Category> := [Savings]
  const WantsList: seq<Category> := [Trips, Personal, Other]

  /** The keys of the category totals: every category name, then NullKey. */
  const TotalKeys: seq<string> :=
    ["Housing", "Transportation", "Food", "Supermarket", "Savings", "Health",
     "Personal", "Trips", "Other", NullKey]

  predicate Distinct<T(==)>(xs: seq<T>)
  {
    forall i, j :: 0 <= i < j < |xs| ==> xs[i] != xs[j]
  }

  /** The total a transaction is added to: its category's name, or NullKey
      when it has no group. */
  function KeyOf(t: Transaction): (k: string)
    ensures k in TotalKeys
    ensures k == NullKey <==> t.group.None?
  {
    match t.group
    case Some(c) => ToString(c)
    case None => NullKey
  }

  /** The sum of the amounts of the transactions totalled under key. */
  function CategoryTotal(ts: seq<Transaction>, key: string): int
  {
    if ts == [] then 0
    else
      var last := ts[|ts| - 1];
      CategoryTotal(ts[..|ts| - 1], key) + (if KeyOf(last) == key then last.amount else 0)
  }

  /** The category totals of the transactions, one entry per key. */
  function CategoryTotals(ts: seq<Transaction>): map<string, int>
  {
    map k | k in TotalKeys :: CategoryTotal(ts, k)
  }

  /** `get_transactions_by_category`: every key starts at zero, then each
      transaction's amount is added to its key. */
  method TransactionsByCategory(ts: seq<Transaction>) returns (totals: map<string, int>)
    ensures totals == CategoryTotals(ts)
    ensures totals.Keys == Names + {NullKey}
  {
    totals := map k | k in TotalKeys :: 0;
    for i := 0 to |ts|
      invariant forall k :: k in totals <==> k in TotalKeys
      invariant forall k :: k in totals ==> totals[k] == CategoryTotal(ts[..i], k)
    {
      var key := KeyOf(ts[i]);
      var current := if key in totals then totals[key] else 0;
      CategoryTotalStep(ts, i);
      totals := totals[key := current + ts[i].amount];
    }
    assert ts[..|ts|] == ts;
    TotalsComplete(ts, totals);
    TotalsKeys(totals);
  }

  /** A map over exactly the total keys whose entries are the totals of ts
      is the category totals of ts. */
  lemma TotalsComplete(ts: seq<Transaction>, totals: map<string, int>)
    requires forall k :: k in totals <==> k in TotalKeys
    requires forall k :: k in totals ==> totals[k] == CategoryTotal(ts, k)
    ensures totals == CategoryTotals(ts)
  {
    assert totals.Keys == CategoryTotals(ts).Keys;
  }

  /** The total keys are every category name and NullKey. */
  lemma TotalsKeys(totals: map<string, int>)
    requires forall k :: k in totals <==> k in TotalKeys
    ensures totals.Keys == Names + {NullKey}
  {
    assert totals.Keys == set k | k in TotalKeys;
    TotalKeysAreNames();
  }

  lemma TotalKeysAreNames()
    ensures (set k | k in TotalKeys) == Names + {NullKey}
  {
  }

  lemma CategoryTotalStep(ts: seq<Transaction>, i: nat)
    requires i < |ts|
    ensures forall k :: CategoryTotal(ts[..i + 1], k)
                        == CategoryTotal(ts[..i], k) + (if KeyOf(ts[i]) == k then ts[i].amount else 0)
  {
    assert ts[..i + 1][..i] == ts[..i];
  }

  /** The sum of the totals under the given keys. */
  function SumOver(keys: seq<string>, ts: seq<Transaction>): int
  {
    if keys == [] then 0 else CategoryTotal(ts, keys[0]) + SumOver(keys[1..], ts)
  }

  lemma {:induction false} SumOverNothing(keys: seq<string>)
    ensures SumOver(keys, []) == 0
  {
    if keys != [] {
      SumOverNothing(keys[1..]);
    }
  }

  /** One more transaction adds its amount to the sum over distinct keys
      once when its key is among them, and not at all otherwise. */
  lemma {:induction false} SumOverStep(keys: seq<string>, ts: seq<Transaction>, t: Transaction)
    requires Distinct(keys)
    ensures SumOver(keys, ts + [t]) == SumOver(keys, ts) + (if KeyOf(t) in keys then t.amount else 0)
  {
    if keys != [] {
      assert (ts + [t])[..|ts|] == ts;
      SumOverStep(keys[1..], ts, t);
      assert forall j :: 0 <= j < |keys[1..]| ==> keys[1..][j] != keys[0];
      assert KeyOf(t) in keys <==> KeyOf(t) == keys[0] || KeyOf(t) in keys[1..];
    }
  }

  /** Every transaction lands under exactly one key, so the totals add up
      to the sum of all amounts. */
  lemma {:induction false} TotalsCoverEveryAmount(ts: seq<Transaction>)
    ensures SumOver(TotalKeys, ts) == Sum(ts)
  {
    if ts == [] {
      SumOverNothing(TotalKeys);
    } else {
      var init := ts[..|ts| - 1];
      assert ts == init + [ts[|ts| - 1]];
      TotalsCoverEveryAmount(init);
      SumOverStep(TotalKeys, init, ts[|ts| - 1]);
    }
  }

  /** The 50/30/20 lists split the categories: each category is in exactly one. */
  lemma RuleListsPartition(c: Category)
    ensures c in NeedsList || c in WantsList || c in SavingsList
    ensures !(c in NeedsList && c in WantsList)
    ensures !(c in NeedsList && c in SavingsList)
    ensures !(c in WantsList && c in SavingsList)
  {
  }

  /** `FiftyThirtyTwenty::reduce_by`: the sum of the amounts of the
      transactions whose group is in the list; ungrouped ones count nowhere. */
  function ReduceBy(ts: seq<Transaction>, list: seq<Category>): int
  {
    if ts == [] then 0
    else
      var last := ts[|ts| - 1];
      ReduceBy(ts[..|ts| - 1], list) + (if last.group.Some? && last.group.value in list then last.amount else 0)
  }

  /** The three 50/30/20 sums and the ungrouped total add up to the total. */
  lemma {:induction false} RuleBucketsPartition(ts: seq<Transaction>)
    ensures ReduceBy(ts, NeedsList) + ReduceBy(ts, WantsList) + ReduceBy(ts, SavingsList)
            + CategoryTotal(ts, NullKey) == Sum(ts)
  {
    if ts != [] {
      RuleBucketsPartition(ts[..|ts| - 1]);
      var t := ts[|ts| - 1];
      if t.group.Some? {
        RuleListsPartition(t.group.value);
      }
    }
  }

  datatype FiftyThirtyTwenty = FiftyThirtyTwenty(needs: int, wants: int, savings: int)

  /** `FiftyThirtyTwenty::new`. */
  function Rule(ts: seq<Transaction>): FiftyThirtyTwenty
  {
    FiftyThirtyTwenty(ReduceBy(ts, NeedsList), ReduceBy(ts, WantsList), ReduceBy(ts, SavingsList))
  }

  datatype MonthSummary = MonthSummary(
    year: int,
    month: int,
    totalIncome: int,
    totalExpenses: int,
    rule: FiftyThirtyTwenty,
    categorizedExpenses: map<string, int>)

  /** The test selecting the transactions of one month. */
  function InMonth(year: int, month: int): Transaction -> bool
  {
    (t: Transaction) => t.date.year == year && t.date.month == month
  }

  predicate IsExpense(t: Transaction)
  {
    t.kind == Kinds.DebitPurchase || t.kind == Kinds.CreditPurchase
  }

  predicate IsIncome(t: Transaction)
  {
    t.kind == Kinds.Income
  }

  /** The summary of a month whose expenses and incomes are given. */
  function Summarize(year: int, month: int, expenses: seq<Transaction>, incomes: seq<Transaction>): MonthSummary
  {
    MonthSummary(year, month, Sum(incomes), Sum(expenses), Rule(expenses), CategoryTotals(expenses))
  }

  /** The transactions of one month, in order. */
  function MonthRows(ts: seq<Transaction>, year: int, month: int): seq<Transaction>
  {
    Where(ts, InMonth(year, month))
  }

  /** `MonthSummary::new`: the month's income, its expenses, and the rule
      buckets and category totals of those expenses. The rule buckets and
      the ungrouped expenses always add up to the expense total. */
  function NewMonthSummary(ts: seq<Transaction>, year: int, month: int): (s: MonthSummary)
    ensures s.year == year && s.month == month
    ensures NullKey in s.categorizedExpenses
    ensures s.rule.needs + s.rule.wants + s.rule.savings + s.categorizedExpenses[NullKey]
            == s.totalExpenses
  {
    var rows := MonthRows(ts, year, month);
    RuleBucketsPartition(Where(rows, IsExpense));
    Summarize(year, month, Where(rows, IsExpense), Where(rows, IsIncome))
  }

  lemma {:induction false} WhereStep(ts: seq<Transaction>, t: Transaction, p: Transaction -> bool)
    ensures Where(ts + [t], p) == Where(ts, p) + (if p(t) then [t] else [])
  {
    assert (ts + [t])[..|ts|] == ts;
  }

  lemma {:induction false} MonthRowsStep(ts: seq<Transaction>, t: Transaction, year: int, month: int)
    ensures MonthRows(ts + [t], year, month)
            == MonthRows(ts, year, month) + (if InMonth(year, month)(t) then [t] else [])
  {
    WhereStep(ts, t, InMonth(year, month));
  }

  /** A transaction of another month, or a credit bill payment, leaves a
      month's summary as it was. */
  lemma {:induction false} SummaryIgnores(ts: seq<Transaction>, t: Transaction, year: int, month: int)
    requires !InMonth(year, month)(t) || t.kind == Kinds.CreditBillPayment
    ensures NewMonthSummary(ts + [t], year, month) == NewMonthSummary(ts, year, month)
  {
    var rows := MonthRows(ts, year, month);
    MonthRowsStep(ts, t, year, month);
    if InMonth(year, month)(t) {
      WhereStep(rows, t, IsExpense);
      WhereStep(rows, t, IsIncome);
      assert Where(rows + [t], IsExpense) == Where(rows, IsExpense);
      assert Where(rows + [t], IsIncome) == Where(rows, IsIncome);
    } else {
      assert MonthRows(ts + [t], year, month) == rows;
    }
  }

  /** One more transaction adds its amount to the total of its own key and
      leaves every other key's total as it was. */
  lemma CategoryTotalsSnoc(ts: seq<Transaction>, t: Transaction)
    ensures KeyOf(t) in CategoryTotals(ts)
    ensures CategoryTotals(ts + [t])
            == CategoryTotals(ts)[KeyOf(t) := CategoryTotals(ts)[KeyOf(t)] + t.amount]
  {
    assert (ts + [t])[..|ts|] == ts;
    var a, b := CategoryTotals(ts + [t]), CategoryTotals(ts)[KeyOf(t) := CategoryTotals(ts)[KeyOf(t)] + t.amount];
    assert a.Keys == b.Keys;
    forall k | k in a
      ensures a[k] == b[k]
    {
      assert a[k] == CategoryTotal(ts, k) + (if KeyOf(t) == k then t.amount else 0);
    }
  }

  /** One more transaction adds its amount to a 50/30/20 bucket exactly when
      its group is in that bucket's list. */
  lemma ReduceBySnoc(ts: seq<Transaction>, t: Transaction, list: seq<Category>)
    ensures ReduceBy(ts + [t], list)
            == ReduceBy(ts, list) + (if t.group.Some? && t.group.value in list then t.amount else 0)
  {
    assert (ts + [t])[..|ts|] == ts;
  }

  /** A month's summary is the summary of its purchases and its incomes. */
  lemma SummaryParts(ts: seq<Transaction>, year: int, month: int)
    ensures NewMonthSummary(ts, year, month)
            == Summarize(year, month, Where(MonthRows(ts, year, month), IsExpense),
                         Where(MonthRows(ts, year, month), IsIncome))
  {
  }

  /** How the month's purchases and incomes grow by one transaction of it. */
  lemma MonthPartsStep(ts: seq<Transaction>, t: Transaction, year: int, month: int)
    requires InMonth(year, month)(t)
    ensures var rows, rows' := MonthRows(ts, year, month), MonthRows(ts + [t], year, month);
      && Where(rows', IsExpense) == Where(rows, IsExpense) + (if IsExpense(t) then [t] else [])
      && Where(rows', IsIncome) == Where(rows, IsIncome) + (if IsIncome(t) then [t] else [])
  {
    var rows := MonthRows(ts, year, month);
    MonthRowsStep(ts, t, year, month);
    WhereStep(rows, t, IsExpense);
    WhereStep(rows, t, IsIncome);
  }

  /** An income of the month adds to the month's income, and nothing else
      of the summary changes: the rule buckets and category totals count
      purchases only. */
  lemma {:induction false} SummaryCountsIncome(ts: seq<Transaction>, t: Transaction, year: int, month: int)
    requires InMonth(year, month)(t) && IsIncome(t)
    ensures var s := NewMonthSummary(ts, year, month);
      NewMonthSummary(ts + [t], year, month) == s.(totalIncome := s.totalIncome + t.amount)
  {
    var rows, rows' := MonthRows(ts, year, month), MonthRows(ts + [t], year, month);
    var e, i := Where(rows, IsExpense), Where(rows, IsIncome);
    MonthPartsStep(ts, t, year, month);
    assert !IsExpense(t);
    assert Where(rows', IsExpense) == e;
    assert Where(rows', IsIncome) == i + [t];
    SummaryParts(ts, year, month);
    SummaryParts(ts + [t], year, month);
    SummarizeIncome(year, month, e, i, t);
  }

  /** An income adds to the income total and to nothing else. */
  lemma SummarizeIncome(year: int, month: int, e: seq<Transaction>, i: seq<Transaction>, t: Transaction)
    ensures var s := Summarize(year, month, e, i);
      Summarize(year, month, e, i + [t]) == s.(totalIncome := s.totalIncome + t.amount)
  {
    SumAppend(i, [t]);
    assert Sum([t]) == t.amount;
  }

  /** A purchase adds its amount to the expense total, to the total of its
      category (or of "[N/A]") and to the 50/30/20 bucket of its group. */
  lemma SummarizeExpense(year: int, month: int, e: seq<Transaction>, i: seq<Transaction>, t: Transaction)
    ensures var s, s' := Summarize(year, month, e, i), Summarize(year, month, e + [t], i);
      && s'.year == s.year && s'.month == s.month
      && s'.totalExpenses == s.totalExpenses + t.amount
      && s'.totalIncome == s.totalIncome
      && KeyOf(t) in s.categorizedExpenses
      && s'.categorizedExpenses.Keys == s.categorizedExpenses.Keys
      && (forall k :: k in s.categorizedExpenses ==>
            s'.categorizedExpenses[k] == s.categorizedExpenses[k] + (if k == KeyOf(t) then t.amount else 0))
      && s'.rule.needs == s.rule.needs + (if t.group.Some? && t.group.value in NeedsList then t.amount else 0)
      && s'.rule.wants == s.rule.wants + (if t.group.Some? && t.group.value in WantsList then t.amount else 0)
      && s'.rule.savings == s.rule.savings + (if t.group.Some? && t.group.value in SavingsList then t.amount else 0)
  {
    SumAppend(e, [t]);
    assert Sum([t]) == t.amount;
    CategoryTotalsSnoc(e, t);
    ReduceBySnoc(e, t, NeedsList);
    ReduceBySnoc(e, t, WantsList);
    ReduceBySnoc(e, t, SavingsList);
  }

  /** A purchase of the month adds its amount to the month's expenses, to
      the total of its category (or of "[N/A]") and to the 50/30/20 bucket
      of its group; the income and every other total are unchanged. */
  lemma {:induction false} SummaryCountsExpense(ts: seq<Transaction>, t: Transaction, year: int, month: int)
    requires InMonth(year, month)(t) && IsExpense(t)
    ensures var s, s' := NewMonthSummary(ts, year, month), NewMonthSummary(ts + [t], year, month);
      && s'.year == s.year && s'.month == s.month
      && s'.totalExpenses == s.totalExpenses + t.amount
      && s'.totalIncome == s.totalIncome
      && KeyOf(t) in s.categorizedExpenses
      && s'.categorizedExpenses.Keys == s.categorizedExpenses.Keys
      && (forall k :: k in s.categorizedExpenses ==>
            s'.categorizedExpenses[k] == s.categorizedExpenses[k] + (if k == KeyOf(t) then t.amount else 0))
      && s'.rule.needs == s.rule.needs + (if t.group.Some? && t.group.value in NeedsList then t.amount else 0)
      && s'.rule.wants == s.rule.wants + (if t.group.Some? && t.group.value in WantsList then t.amount else 0)
      && s'.rule.savings == s.rule.savings + (if t.group.Some? && t.group.value in SavingsList then t.amount else 0)
  {
    var rows, rows' := MonthRows(ts, year, month), MonthRows(ts + [t], year, month);
    var e, i := Where(rows, IsExpense), Where(rows, IsIncome);
    MonthPartsStep(ts, t, year, month);
    assert !IsIncome(t);
    assert Where(rows', IsExpense) == e + [t];
    assert Where(rows', IsIncome) == i;
    SummaryParts(ts, year, month);
    SummaryParts(ts + [t], year, month);
    SummarizeExpense(year, month, e, i, t);
  }

  /** The distinct (year, month) pairs of the transactions, in order of
      first appearance. */
  function DistinctMonths(ts: seq<Transaction>): (ks: seq<(int, int)>)
    ensures Distinct(ks)
    ensures forall k :: k in ks ==> 1 <= k.1 <= 12
    ensures forall k :: k in ks <==> exists i :: 0 <= i < |ts| && YearMonth(ts[i].date) == k
  {
    if ts == [] then []
    else
      var init := ts[..|ts| - 1];
      assert forall i :: 0 <= i < |init| ==> init[i] == ts[i];
      var ks := DistinctMonths(init);
      var k := YearMonth(ts[|ts| - 1].date);
      if k in ks then ks else ks + [k]
  }

  function Summary(ts: seq<Transaction>, k: (int, int)): MonthSummary
  {
    NewMonthSummary(ts, k.0, k.1)
  }

  predicate SortedDesc<T>(xs: seq<T>, key: T -> int)
  {
    forall i, j :: 0 <= i < j < |xs| ==> key(xs[i]) >= key(xs[j])
  }

  function Insert<T>(x: T, xs: seq<T>, key: T -> int): (r: seq<T>)
    requires SortedDesc(xs, key)
    ensures SortedDesc(r, key)
    ensures multiset(r) == multiset(xs) + multiset{x}
    ensures r[0] == x || (xs != [] && r[0] == xs[0])
  {
    if xs == [] then [x]
    else if key(x) >= key(xs[0]) then
      ConsSorted(x, xs, key);
      [x] + xs
    else
      var rest := Insert(x, xs[1..], key);
      assert xs == [xs[0]] + xs[1..];
      assert key(xs[0]) >= key(rest[0]);
      ConsSorted(xs[0], rest, key);
      [xs[0]] + rest
  }

  /** An element no smaller than the head keeps a sorted list sorted. */
  lemma ConsSorted<T>(h: T, xs: seq<T>, key: T -> int)
    requires SortedDesc(xs, key) && (xs != [] ==> key(h) >= key(xs[0]))
    ensures SortedDesc([h] + xs, key)
  {
    var r := [h] + xs;
    forall i, j | 0 <= i < j < |r|
      ensures key(r[i]) >= key(r[j])
    {
      if i == 0 {
        assert r[j] == xs[j - 1];
      } else {
        assert r[i] == xs[i - 1] && r[j] == xs[j - 1];
      }
    }
  }

  /** The sort of `sorted_by(..).rev()`: a permutation in non-increasing
      order of key. */
  function SortDesc<T>(xs: seq<T>, key: T -> int): (r: seq<T>)
    ensures SortedDesc(r, key)
    ensures multiset(r) == multiset(xs)
  {
    if xs == [] then []
    else
      assert xs == [xs[0]] + xs[1..];
      Insert(xs[0], SortDesc(xs[1..], key), key)
  }

  /** A sequence without repeats holds each value at most once ... */
  lemma {:induction false} DistinctCounts<T>(xs: seq<T>)
    requires Distinct(xs)
    ensures forall x :: multiset(xs)[x] <= 1
  {
    if xs != [] {
      var init := xs[..|xs| - 1];
      assert xs == init + [xs[|xs| - 1]];
      DistinctCounts(init);
      assert xs[|xs| - 1] !in init;
    }
  }

  /** ... and a sequence holding each value at most once has no repeats. */
  lemma CountsDistinct<T>(ys: seq<T>)
    requires forall x :: multiset(ys)[x] <= 1
    ensures Distinct(ys)
  {
    forall i, j | 0 <= i < j < |ys|
      ensures ys[i] != ys[j]
    {
      assert ys == ys[..j] + ys[j..];
      assert multiset(ys) == multiset(ys[..j]) + multiset(ys[j..]);
      assert multiset(ys)[ys[j]] == multiset(ys[..j])[ys[j]] + multiset(ys[j..])[ys[j]];
      assert multiset(ys[..j])[ys[i]] >= 1;
      assert multiset(ys[j..])[ys[j]] >= 1;
    }
  }

  /** A permutation of a sequence without repeats has none either. */
  lemma {:induction false} PermutationKeepsDistinct<T>(xs: seq<T>, r: seq<T>)
    requires Distinct(xs) && multiset(r) == multiset(xs)
    ensures Distinct(r) && |r| == |xs|
    ensures forall y :: y in r <==> y in xs
  {
    assert |r| == |multiset(r)| == |multiset(xs)| == |xs|;
    DistinctCounts(xs);
    CountsDistinct(r);
    forall y
      ensures y in r <==> y in xs
    {
      assert y in r <==> y in multiset(r);
      assert y in xs <==> y in multiset(xs);
    }
  }

  /** One summary per distinct month, before sorting. */
  function Unsorted(ts: seq<Transaction>): (xs: seq<MonthSummary>)
    ensures |xs| == |DistinctMonths(ts)|
    ensures Distinct(xs)
    ensures forall k :: k in DistinctMonths(ts) <==> Summary(ts, k) in xs
    ensures forall s :: s in xs ==> 1 <= s.month <= 12 && s == Summary(ts, (s.year, s.month))
  {
    var ks := DistinctMonths(ts);
    var xs := seq(|ks|, i requires 0 <= i < |ks| => Summary(ts, ks[i]));
    SummariesOfMonths(ts, ks, xs);
    xs
  }

  /** The summaries of distinct months are distinct, and each is found from
      its own month. */
  lemma SummariesOfMonths(ts: seq<Transaction>, ks: seq<(int, int)>, xs: seq<MonthSummary>)
    requires ks == DistinctMonths(ts)
    requires |xs| == |ks| && forall i :: 0 <= i < |ks| ==> xs[i] == Summary(ts, ks[i])
    ensures Distinct(xs)
    ensures forall k :: k in ks <==> Summary(ts, k) in xs
    ensures forall s :: s in xs ==> 1 <= s.month <= 12 && s == Summary(ts, (s.year, s.month))
  {
    SummaryMonths(ts, ks, xs);
    SummariesDistinct(ks, xs);
    forall k | k in ks
      ensures Summary(ts, k) in xs
    {
      var i :| 0 <= i < |ks| && ks[i] == k;
      assert xs[i] == Summary(ts, k);
    }
    forall s | s in xs
      ensures 1 <= s.month <= 12 && s == Summary(ts, (s.year, s.month))
    {
      var i :| 0 <= i < |xs| && xs[i] == s;
      assert ks[i] in ks;
    }
  }

  /** Each summary carries the month it was made for. */
  lemma SummaryMonths(ts: seq<Transaction>, ks: seq<(int, int)>, xs: seq<MonthSummary>)
    requires |xs| == |ks| && forall i :: 0 <= i < |ks| ==> xs[i] == Summary(ts, ks[i])
    ensures forall i :: 0 <= i < |ks| ==> (xs[i].year, xs[i].month) == ks[i]
  {
    forall i | 0 <= i < |ks|
      ensures (xs[i].year, xs[i].month) == ks[i]
    {
      var s := NewMonthSummary(ts, ks[i].0, ks[i].1);
      assert xs[i] == s;
    }
  }

  /** Summaries of distinct months are distinct. */
  lemma SummariesDistinct(ks: seq<(int, int)>, xs: seq<MonthSummary>)
    requires Distinct(ks)
    requires |xs| == |ks| && forall i :: 0 <= i < |ks| ==> (xs[i].year, xs[i].month) == ks[i]
    ensures Distinct(xs)
  {
    forall i, j | 0 <= i < j < |xs|
      ensures xs[i] != xs[j]
    {
      assert ks[i] != ks[j];
    }
  }

  /** The sort key of the source: month plus year. */
  function SourceMonthKey(s: MonthSummary): int
  {
    s.month + s.year
  }

  /** A sort key that grows with time: months since the start of year 0. */
  function MonthKey(s: MonthSummary): int
  {
    s.year * 12 + s.month - 1
  }

  /** `get_transactions_by_month` as written: the summaries ordered by
      non-increasing month plus year. */
  function SummariesAsWritten(ts: seq<Transaction>): (r: seq<MonthSummary>)
    ensures SortedDesc(r, SourceMonthKey)
    ensures multiset(r) == multiset(Unsorted(ts))
  {
    SortDesc(Unsorted(ts), SourceMonthKey)
  }

  /** Two transactions of different months give those two months, in order. */
  lemma TwoMonths(a: Transaction, b: Transaction)
    requires YearMonth(a.date) != YearMonth(b.date)
    ensures DistinctMonths([a, b]) == [YearMonth(a.date), YearMonth(b.date)]
  {
    assert [a, b][..1] == [a];
    assert [a][..0] == [];
    assert DistinctMonths([a]) == [YearMonth(a.date)];
  }

  /** Month plus year puts December 2024 ahead of January 2025. */
  lemma AsWrittenNotChronological(a: Transaction, b: Transaction)
    requires a.date.year == 2025 && a.date.month == 1
    requires b.date.year == 2024 && b.date.month == 12
    ensures SummariesAsWritten([a, b]) == [Summary([a, b], (2024, 12)), Summary([a, b], (2025, 1))]
  {
    var ts := [a, b];
    TwoMonths(a, b);
    var jan := Summary(ts, (2025, 1));
    var dec := Summary(ts, (2024, 12));
    assert Unsorted(ts) == [jan, dec];
    assert [jan, dec][1..] == [dec];
    assert [dec][1..] == [];
    assert SortDesc([dec], SourceMonthKey) == [dec];
    assert SourceMonthKey(jan) < SourceMonthKey(dec);
  }

  /** A permutation of one summary per month, sorted by MonthKey, is in
      strictly decreasing time order. */
  lemma {:induction false} ChronologicalOrder(ts: seq<Transaction>, r: seq<MonthSummary>)
    requires SortedDesc(r, MonthKey) && Distinct(r)
    requires forall s :: s in r ==> 1 <= s.month <= 12 && s == Summary(ts, (s.year, s.month))
    ensures forall i, j :: 0 <= i < j < |r| ==>
              r[i].year > r[j].year || (r[i].year == r[j].year && r[i].month > r[j].month)
  {
    forall i, j | 0 <= i < j < |r|
      ensures r[i].year > r[j].year || (r[i].year == r[j].year && r[i].month > r[j].month)
    {
      assert r[i] in r && r[j] in r;
      assert (r[i].year, r[i].month) != (r[j].year, r[j].month);
      assert MonthKey(r[i]) >= MonthKey(r[j]);
    }
  }

  /** `get_transactions_by_month` ordered by time: one summary per month of
      the transactions, each month once, newest first. */
  function MonthSummaries(ts: seq<Transaction>): (r: seq<MonthSummary>)
    ensures |r| == |DistinctMonths(ts)|
    ensures |ts| > 0 ==> |r| > 0
    ensures forall k :: k in DistinctMonths(ts) <==> Summary(ts, k) in r
    ensures forall s :: s in r ==> s == Summary(ts, (s.year, s.month))
    ensures forall i, j :: 0 <= i < j < |r| ==>
              r[i].year > r[j].year || (r[i].year == r[j].year && r[i].month > r[j].month)
  {
    var xs := Unsorted(ts);
    var r := SortDesc(xs, MonthKey);
    SortedSummariesFacts(ts, xs, r);
    NonEmptyMonths(ts);
    r
  }

  lemma {:induction false} NonEmptyMonths(ts: seq<Transaction>)
    ensures |ts| > 0 ==> |DistinctMonths(ts)| > 0
  {
    if |ts| > 0 {
      assert YearMonth(ts[0].date) in DistinctMonths(ts);
    }
  }

  lemma {:induction false} SortedSummariesFacts(ts: seq<Transaction>, xs: seq<MonthSummary>, r: seq<MonthSummary>)
    requires xs == Unsorted(ts) && SortedDesc(r, MonthKey) && multiset(r) == multiset(xs)
    ensures |r| == |DistinctMonths(ts)|
    ensures forall k :: k in DistinctMonths(ts) <==> Summary(ts, k) in r
    ensures forall s :: s in r ==> s == Summary(ts, (s.year, s.month))
    ensures forall i, j :: 0 <= i < j < |r| ==>
              r[i].year > r[j].year || (r[i].year == r[j].year && r[i].month > r[j].month)
  {
    PermutationKeepsDistinct(xs, r);
    ChronologicalOrder(ts, r);
  }

  /** With the time-ordered key, the same two months come out January 2025
      first. */
  lemma CorrectedOrderIsChronological(a: Transaction, b: Transaction)
    requires a.date.year == 2025 && a.date.month == 1
    requires b.date.year == 2024 && b.date.month == 12
    ensures MonthSummaries([a, b]) == [Summary([a, b], (2025, 1)), Summary([a, b], (2024, 12))]
  {
    var ts := [a, b];
    TwoMonths(a, b);
    var r := MonthSummaries(ts);
    var jan, dec := Summary(ts, (2025, 1)), Summary(ts, (2024, 12));
    assert jan in r && dec in r;
    NewestOfTwo(r, jan, dec);
  }

  /** A newest-first list of two summaries starts with the newer one. */
  lemma NewestOfTwo(r: seq<MonthSummary>, x: MonthSummary, y: MonthSummary)
    requires |r| == 2 && x in r && y in r && x.year > y.year
    requires r[0].year > r[1].year || (r[0].year == r[1].year && r[0].month > r[1].month)
    ensures r == [x, y]
  {
  }

  /** `get_max_bar_height`: the largest monthly expense total, or None when
      there are no months. */
  function MaxBarHeight(items: seq<MonthSummary>): (h: Option<int>)
    ensures h.None? <==> items == []
    ensures h.Some? ==> forall i :: 0 <= i < |items| ==> items[i].totalExpenses <= h.value
    ensures h.Some? ==> exists i :: 0 <= i < |items| && items[i].totalExpenses == h.value
  {
    if items == [] then None
    else
      var init := items[..|items| - 1];
      var last := items[|items| - 1].totalExpenses;
      assert forall i :: 0 <= i < |init| ==> init[i] == items[i];
      match MaxBarHeight(init)
      case None => Some(last)
      case Some(m) => Some(if m >= last then m else last)
  }

  class ChartComponent {
    var items: seq<MonthSummary>
    var selected: Option<nat>
    var maxHeight: int

    ghost predicate Valid()
      reads this
    {
      |items| > 0 && selected.Some? && selected.value < |items|
    }

    /** `new`: the first month selected and the chart built from the
        transactions; building unwraps the maximum, so there must be some. */
    constructor (ts: seq<Transaction>)
      requires |ts| > 0
      ensures Valid() && selected == Some(0)
      ensures items == MonthSummaries(ts) && maxHeight == MaxBarHeight(items).value
    {
      items := [];
      selected := Some(0);
      maxHeight := 0;
      new;
      UpdateChart(ts);
    }

    /** `update_chart`: the month summaries of the transactions and their
        largest expense total; the selection is kept. */
    method UpdateChart(ts: seq<Transaction>)
      requires |ts| > 0
      modifies this
      ensures items == MonthSummaries(ts) && |items| > 0
      ensures maxHeight == MaxBarHeight(items).value
      ensures selected == old(selected)
    {
      items := MonthSummaries(ts);
      maxHeight := MaxBarHeight(items).value;
    }

    /** `next_row`. */
    method NextRow()
      requires Valid()
      modifies this
      ensures Valid() && selected == Some(NextIndex(old(selected), |items|))
      ensures items == old(items) && maxHeight == old(maxHeight)
    {
      var i := match selected
        case Some(s) => if s >= |items| - 1 then 0 else s + 1
        case None => 0;
      selected := Some(i);
    }

    /** `previous_row`. */
    method PreviousRow()
      requires Valid()
      modifies this
      ensures Valid() && selected == Some(PrevIndex(old(selected), |items|))
      ensures items == old(items) && maxHeight == old(maxHeight)
    {
      var i := match selected
        case Some(s) => if s == 0 then |items| - 1 else s - 1
        case None => 0;
      selected := Some(i);
    }

    /** `handle_key_events`: 'k' moves down, 'l' moves up; the arrow keys
        and every other key do nothing. */
    method HandleKeyEvents(key: Keys.KeyEvent)
      requires Valid()
      modifies this
      ensures Valid() && items == old(items) && maxHeight == old(maxHeight)
      ensures key.code == Keys.Char('k') ==> selected == Some(NextIndex(old(selected), |items|))
      ensures key.code == Keys.Char('l') ==> selected == Some(PrevIndex(old(selected), |items|))
      ensures key.code != Keys.Char('k') && key.code != Keys.Char('l') ==> selected == old(selected)
    {
      if key.code == Keys.Char('k') {
        NextRow();
      } else if key.code == Keys.Char('l') {
        PreviousRow();
      }
    }
  }
}
