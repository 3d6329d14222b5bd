/** Spending against budgets: the join of budgets, category links and entries,
    and its relation to the month's expense. */
module BudgetSpending {
  import opened Common
  import opened Tables
  import opened Engine
  import opened Shapes
  import opened Reports
  import opened Budgets

  // ---- the query ----

  /** One joined row: a category link, an entry of its transaction, and the
      budget whose category, user and month they match. */
  function Charge(db: DB, b: Budget, k: Link, e: Entry): nat {
    if k.category == b.category && k.txn == e.txn && MonthOf(db, e.txn) == b.month then Paid(db, b.user, e) else 0
  }

  ghost function Spent(db: DB, b: Budget): int {
    Sum(db.links, k => Sum(db.entries, e => Charge(db, b, k, e)))
  }

  predicate Mine(b: Budget, user: int, month: string) {
    b.user == user && b.month == month
  }

  /** All of a user's budgets of one month together. */
  ghost function AllSpent(db: DB, rows: seq<Budget>, user: int, month: string): int {
    Sum(rows, (b: Budget) => if Mine(b, user, month) then Spent(db, b) else 0)
  }

  /** Some budget of that user and month is for a category of the transaction. */
  predicate Covered(db: DB, rows: seq<Budget>, user: int, month: string, id: int) {
    exists i :: 0 <= i < |rows| && Mine(rows[i], user, month) && HasLink(db.links, id, rows[i].category)
  }

  function PaidIn(db: DB, user: int, month: string, e: Entry): nat {
    if MonthOf(db, e.txn) == month then Paid(db, user, e) else 0
  }

  // ---- one budget ----

  lemma OneCharge(db: DB, b: Budget, e: Entry, charge: Link -> int)
    requires OneLink(db.links) && forall k :: charge(k) == Charge(db, b, k, e)
    ensures Sum(db.links, charge) == if HasLink(db.links, e.txn, b.category) then PaidIn(db, b.user, b.month, e) else 0
  {
    var p := (k: Link) => k.category == b.category && k.txn == e.txn;
    SumAtMostOne(db.links, p, PaidIn(db, b.user, b.month, e), charge);
    assert HasLink(db.links, e.txn, b.category) <==> exists j :: 0 <= j < |db.links| && p(db.links[j]);
  }

  /** With one category per transaction each matching entry is charged once. */
  lemma SpentByEntry(db: DB, b: Budget, charged: Entry -> int)
    requires OneLink(db.links)
    requires forall e :: charged(e) == if HasLink(db.links, e.txn, b.category) then PaidIn(db, b.user, b.month, e)
                                      else 0
    ensures Spent(db, b) == Sum(db.entries, charged)
  {
    var row := (k: Link) => (e: Entry) => Charge(db, b, k, e) as int;
    var col := (e: Entry) => (k: Link) => Charge(db, b, k, e) as int;
    var spent := (k: Link) => Sum(db.entries, row(k));
    forall e | e in db.entries ensures charged(e) == Sum(db.links, col(e)) {
      OneCharge(db, b, e, col(e));
    }
    SumSwap(db.links, db.entries, row, col, spent, charged);
    forall k | k in db.links ensures Sum(db.entries, e => Charge(db, b, k, e)) == spent(k) {
      SumCongruent(db.entries, e => Charge(db, b, k, e), row(k));
    }
    SumCongruent(db.links, k => Sum(db.entries, e => Charge(db, b, k, e)), spent);
  }

  // ---- all budgets of a month ----

  function Cell(db: DB, user: int, month: string, b: Budget, e: Entry): nat {
    if Mine(b, user, month) && HasLink(db.links, e.txn, b.category) then PaidIn(db, user, month, e) else 0
  }

  function CoveredPart(db: DB, rows: seq<Budget>, user: int, month: string, e: Entry): nat {
    if Covered(db, rows, user, month, e.txn) then PaidIn(db, user, month, e) else 0
  }

  /** One budget per user, category and month: an entry counts at most once. */
  lemma OneBudget(db: DB, rows: seq<Budget>, user: int, month: string, e: Entry, cell: Budget -> int)
    requires OneLink(db.links) && UniqueSlots(rows) && forall b :: cell(b) == Cell(db, user, month, b, e)
    ensures Sum(rows, cell) == CoveredPart(db, rows, user, month, e)
  {
    var p := (b: Budget) => Mine(b, user, month) && HasLink(db.links, e.txn, b.category);
    forall i, j | 0 <= i < j < |rows| && p(rows[i]) ensures !p(rows[j]) {
      assert !SameSlot(rows[i], rows[j]);
      if HasLink(db.links, e.txn, rows[j].category) {
        SameCategory(db.links, e.txn, rows[i].category, rows[j].category);
      }
    }
    SumAtMostOne(rows, p, PaidIn(db, user, month, e), cell);
    assert Covered(db, rows, user, month, e.txn) <==> exists i :: 0 <= i < |rows| && p(rows[i]);
  }

  lemma BudgetRow(db: DB, user: int, month: string, b: Budget, cell: Entry -> int)
    requires OneLink(db.links) && forall e :: cell(e) == Cell(db, user, month, b, e)
    ensures Sum(db.entries, cell) == if Mine(b, user, month) then Spent(db, b) else 0
  {
    if Mine(b, user, month) {
      SpentByEntry(db, b, cell);
    } else {
      SumAllZero(db.entries, cell);
    }
  }

  lemma AllSpentByEntry(db: DB, rows: seq<Budget>, user: int, month: string)
    requires OneLink(db.links) && UniqueSlots(rows)
    ensures AllSpent(db, rows, user, month) == Sum(db.entries, (e: Entry) => CoveredPart(db, rows, user, month, e))
  {
    var row := (b: Budget) => (e: Entry) => Cell(db, user, month, b, e) as int;
    var col := (e: Entry) => (b: Budget) => Cell(db, user, month, b, e) as int;
    var spent := (b: Budget) => if Mine(b, user, month) then Spent(db, b) else 0;
    var covered := (e: Entry) => CoveredPart(db, rows, user, month, e) as int;
    forall b | b in rows ensures spent(b) == Sum(db.entries, row(b)) {
      BudgetRow(db, user, month, b, row(b));
    }
    forall e | e in db.entries ensures covered(e) == Sum(rows, col(e)) {
      OneBudget(db, rows, user, month, e, col(e));
    }
    SumSwap(rows, db.entries, row, col, spent, covered);
    SumCongruent(rows, spent, (b: Budget) => if Mine(b, user, month) then Spent(db, b) else 0);
    SumCongruent(db.entries, covered, (e: Entry) => CoveredPart(db, rows, user, month, e));
  }

  /** In every reachable state a user's budgets of a month together never show
      more than the month's expense, and exactly that when every expense entry
      of the month is in a budgeted category. */
  lemma BudgetsWithinExpense(ops: seq<Op>, db: DB, rows: seq<Budget>, user: int, month: string)
    requires Leads(ops, db) && UniqueSlots(rows)
    ensures AllSpent(db, rows, user, month) <= MonthExpense(db, user, month)
    ensures AllSpent(db, rows, user, month) == MonthExpense(db, user, month) <==>
              forall e :: e in db.entries && PaidIn(db, user, month, e) > 0 ==> Covered(db, rows, user, month, e.txn)
  {
    ReachableIsCategorised(ops, db);
    AllSpentByEntry(db, rows, user, month);
    var covered := (e: Entry) => CoveredPart(db, rows, user, month, e) as int;
    var paid := (e: Entry) => PaidIn(db, user, month, e) as int;
    SumCongruent(db.entries, covered, (e: Entry) => CoveredPart(db, rows, user, month, e));
    SumCongruent(db.entries, paid, (e: Entry) => if MonthOf(db, e.txn) == month then Paid(db, user, e) else 0);
    SumMonotone(db.entries, covered, paid);
    if Sum(db.entries, covered) == Sum(db.entries, paid) {
      SumTight(db.entries, covered, paid);
    } else if forall e :: e in db.entries && PaidIn(db, user, month, e) > 0 ==> Covered(db, rows, user, month, e.txn) {
      SumCongruent(db.entries, covered, paid);
    }
  }
}
