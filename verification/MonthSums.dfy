/** What the month texts of the reports, the budgets and the list filter mean in
    terms of dates: a month's sums run over exactly the transactions dated in
    it. */
module MonthSums {
  import opened Common
  import opened Calendar
  import opened DateText
  import opened Tables
  import opened Shapes
  import opened Reports
  import opened Budgets
  import opened BudgetSpending

  /** The month text is the date text without its day. */
  lemma MonthTextIsPrefix(d: Date)
    requires Valid(d)
    ensures |FormatDate(d)| >= 3 && MonthText(d) == FormatDate(d)[..|FormatDate(d)| - 3]
  {
    Widths();
  }

  /** Read back, it is the date's year and month. */
  lemma MonthTextParses(d: Date)
    requires Valid(d) && d.year <= 9999
    ensures ParseMonth(MonthText(d)) == Some(Month(d.year, d.month))
  {
    FormatMonthParses(d.year, d.month);
  }

  predicate DatedIn(d: Date, m: Month) {
    Valid(d) && d.year == m.year && d.month == m.month
  }

  lemma FormatParsed(s: string)
    requires ParseMonth(s).Some?
    ensures ParseMonth(s).value.year <= 9999 && FormatMonth(ParseMonth(s).value.year, ParseMonth(s).value.month) == s
  {
    Widths();
    PaddedOfValue(s[..4]);
    PaddedOfValue(s[5..]);
    assert s == s[..4] + "-" + s[5..];
  }

  /** A date shows a given month exactly when it lies in it. */
  lemma MonthTextMeaning(d: Date, s: string)
    requires ParseMonth(s).Some?
    ensures MonthText(d) == s <==> DatedIn(d, ParseMonth(s).value)
  {
    FormatParsed(s);
    if MonthText(d) == s && Valid(d) {
      FormatMonthInjective(d.year, d.month, ParseMonth(s).value.year, ParseMonth(s).value.month);
    }
  }

  predicate InMonth(db: DB, id: int, m: Month) {
    id in db.txns && DatedIn(db.txns[id].date, m)
  }

  lemma MonthOfMeaning(db: DB, id: int, s: string)
    requires ParseMonth(s).Some?
    ensures MonthOf(db, id) == s <==> InMonth(db, id, ParseMonth(s).value)
  {
    if id in db.txns {
      MonthTextMeaning(db.txns[id].date, s);
    }
  }

  /** The entry is a positive one of an income of the user dated in the month. */
  predicate IsIncomeIn(db: DB, user: int, m: Month, e: Entry) {
    InMonth(db, e.txn, m) && db.txns[e.txn].user == user && db.txns[e.txn].kind == Income && e.line.amount > 0
  }

  predicate IsExpenseIn(db: DB, user: int, m: Month, e: Entry) {
    InMonth(db, e.txn, m) && db.txns[e.txn].user == user && db.txns[e.txn].kind == Expense && e.line.amount < 0
  }

  /** A month's income is the sum of the user's income entries dated in it. */
  lemma MonthIncomeMeaning(db: DB, user: int, s: string, earned: Entry -> int)
    requires ParseMonth(s).Some?
    requires forall e :: earned(e) == if IsIncomeIn(db, user, ParseMonth(s).value, e) then e.line.amount else 0
    ensures MonthIncome(db, user, s) == Sum(db.entries, earned)
  {
    var shown := (e: Entry) => if MonthOf(db, e.txn) == s then Earned(db, user, e) as int else 0;
    forall e | e in db.entries ensures shown(e) == earned(e) {
      MonthOfMeaning(db, e.txn, s);
    }
    SumCongruent(db.entries, shown, earned);
    SumCongruent(db.entries, (e: Entry) => if MonthOf(db, e.txn) == s then Earned(db, user, e) else 0, shown);
  }

  lemma MonthExpenseMeaning(db: DB, user: int, s: string, paid: Entry -> int)
    requires ParseMonth(s).Some?
    requires forall e :: paid(e) == if IsExpenseIn(db, user, ParseMonth(s).value, e) then -e.line.amount else 0
    ensures MonthExpense(db, user, s) == Sum(db.entries, paid)
  {
    var shown := (e: Entry) => if MonthOf(db, e.txn) == s then Paid(db, user, e) as int else 0;
    forall e | e in db.entries ensures shown(e) == paid(e) {
      MonthOfMeaning(db, e.txn, s);
    }
    SumCongruent(db.entries, shown, paid);
    SumCongruent(db.entries, (e: Entry) => if MonthOf(db, e.txn) == s then Paid(db, user, e) else 0, shown);
  }

  /** What a budget shows as spent is the sum of its user's expense entries dated
      in its month, of the transactions in its category. */
  lemma SpentMeaning(db: DB, b: Budget, spent: Entry -> int)
    requires OneLink(db.links) && ParseMonth(b.month).Some?
    requires forall e ::
               spent(e) == if IsExpenseIn(db, b.user, ParseMonth(b.month).value, e)
                              && HasLink(db.links, e.txn, b.category) then -e.line.amount else 0
    ensures Spent(db, b) == Sum(db.entries, spent)
  {
    var charged := (e: Entry) => if HasLink(db.links, e.txn, b.category) then PaidIn(db, b.user, b.month, e) as int
                                 else 0;
    SpentByEntry(db, b, charged);
    forall e | e in db.entries ensures charged(e) == spent(e) {
      MonthOfMeaning(db, e.txn, b.month);
    }
    SumCongruent(db.entries, charged, spent);
  }

  // ---- the order of the series ----

  function First(d: Date): (first: Date)
    requires Valid(d)
    ensures Valid(first) && MonthText(first) == MonthText(d)
  {
    d.(day := 1)
  }

  lemma NarrowMonth(a: Date, b: Date)
    requires Valid(a) && Valid(b) && |YearText(a.year)| < |YearText(b.year)|
    ensures LexLess(MonthText(a), MonthText(b)) <==> TextBefore(First(a), First(b))
  {
    Widths();
    var m := Padded(a.month, 2);
    assert YearText(a.year) + "-" + m == YearText(a.year) + ("-" + m);
    NarrowAgainstWide(a.year, m, b.year, Padded(b.month, 2), |YearText(b.year)| - |YearText(a.year)|);
  }

  lemma DifferentMonths(a: Date, b: Date)
    requires Valid(a) && Valid(b) && a.year != b.year
    ensures MonthText(a) != MonthText(b)
  {
    if MonthText(a) == MonthText(b) {
      FormatMonthInjective(a.year, a.month, b.year, b.month);
    }
  }

  /** Months as text compare as their first days do. */
  lemma MonthTextOrderExact(a: Date, b: Date)
    requires Valid(a) && Valid(b)
    ensures LexLess(MonthText(a), MonthText(b)) <==> TextBefore(First(a), First(b))
  {
    if |YearText(a.year)| == |YearText(b.year)| {
      MonthTextOrder(a.year, a.month, b.year, b.month);
    } else if |YearText(a.year)| < |YearText(b.year)| {
      NarrowMonth(a, b);
    } else {
      NarrowMonth(b, a);
      DifferentMonths(a, b);
      LexTotal(MonthText(a), MonthText(b));
    }
  }

  lemma NotYetShown(points: seq<string>, months: set<string>, limit: nat, i: nat, s: string)
    requires Series(points, months, limit) && i < |points| && s in months && s !in points[..i + 1]
    ensures LexLess(s, points[i])
  {
    assert forall j :: 0 <= j <= i ==> points[..i + 1][j] == points[j];
    if s in points {
      var j :| 0 <= j < |points| && points[j] == s;
    }
  }

  /** The series shows the newest months, newest first: an active month that is
      not shown by place i is earlier than the one there, if and only if their
      years compare alike as text. */
  lemma SeriesIsNewest(db: DB, user: int, points: seq<string>, limit: nat, i: nat, shown: Date, other: Date)
    requires Series(points, ActiveMonths(db, user), limit) && i < |points|
    requires Valid(shown) && MonthText(shown) == points[i]
    requires Valid(other) && MonthText(other) in ActiveMonths(db, user) && MonthText(other) !in points[..i + 1]
    ensures Before(First(other), First(shown)) <==> YearsCompare(other.year, shown.year)
  {
    NotYetShown(points, ActiveMonths(db, user), limit, i, MonthText(other));
    MonthTextOrderExact(other, shown);
    NumbersAgree(First(other), First(shown));
  }
}
