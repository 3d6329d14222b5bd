/** The dashboard's aggregates, as sums over the join of transactions and their
    entries, and what ties them to the balances and to each other. */
module Reports {
  import opened Common
  import opened Calendar
  import opened DateText
  import opened Tables
  import opened Engine
  import opened Invariants
  import opened Shapes

  // ---- the queries ----

  function IncomePart(kind: Kind, amount: int): nat {
    if kind == Income && amount > 0 then amount else 0
  }

  function ExpensePart(kind: Kind, amount: int): nat {
    if kind == Expense && amount < 0 then -amount else 0
  }

  predicate OfUser(db: DB, user: int, id: int) {
    id in db.txns && db.txns[id].user == user
  }

  function Earned(db: DB, user: int, e: Entry): nat {
    if OfUser(db, user, e.txn) then IncomePart(db.txns[e.txn].kind, e.line.amount) else 0
  }

  function Paid(db: DB, user: int, e: Entry): nat {
    if OfUser(db, user, e.txn) then ExpensePart(db.txns[e.txn].kind, e.line.amount) else 0
  }

  /** Totals. */
  ghost function TotalIncome(db: DB, user: int): int {
    Sum(db.entries, e => Earned(db, user, e))
  }

  ghost function TotalExpense(db: DB, user: int): int {
    Sum(db.entries, e => Paid(db, user, e))
  }

  /** to_char(date, 'YYYY-MM'); the column holds calendar dates only. */
  function MonthText(d: Date): string {
    if Valid(d) then FormatMonth(d.year, d.month) else ""
  }

  function MonthOf(db: DB, id: int): string {
    if id in db.txns then MonthText(db.txns[id].date) else ""
  }

  /** One point of MonthlyData. */
  ghost function MonthIncome(db: DB, user: int, month: string): int {
    Sum(db.entries, (e: Entry) => if MonthOf(db, e.txn) == month then Earned(db, user, e) else 0)
  }

  ghost function MonthExpense(db: DB, user: int, month: string): int {
    Sum(db.entries, (e: Entry) => if MonthOf(db, e.txn) == month then Paid(db, user, e) else 0)
  }

  /** The months the series query groups by. */
  function ActiveMonths(db: DB, user: int): set<string> {
    set e | e in db.entries && Earned(db, user, e) + Paid(db, user, e) > 0 :: MonthOf(db, e.txn)
  }

  /** What GROUP BY month ORDER BY month DESC LIMIT n may return. */
  ghost predicate Series(points: seq<string>, months: set<string>, limit: nat) {
    && |points| == (if |months| <= limit then |months| else limit)
    && (forall i :: 0 <= i < |points| ==> points[i] in months)
    && (forall i, j :: 0 <= i < j < |points| ==> LexLess(points[j], points[i]))
    && (forall m, i :: m in months && m !in points && 0 <= i < |points| ==> LexLess(m, points[i]))
  }

  // ---- months partition the totals ----

  lemma MonthsCover(db: DB, user: int, part: Entry -> int, grouped: string -> int)
    requires forall e :: part(e) == Earned(db, user, e) || part(e) == Paid(db, user, e)
    requires forall m :: grouped(m) == Sum(db.entries, (e: Entry) => if MonthOf(db, e.txn) == m then part(e) else 0)
    ensures SetSum(ActiveMonths(db, user), grouped) == Sum(db.entries, part)
  {
    var months := ActiveMonths(db, user);
    var key := (e: Entry) => MonthOf(db, e.txn);
    var selected := (e: Entry) => if MonthOf(db, e.txn) in months then part(e) else 0;
    var group := (m: string) => (e: Entry) => if key(e) == m then part(e) else 0;
    forall m | m in months ensures grouped(m) == Sum(db.entries, group(m)) {
      SumCongruent(db.entries, (e: Entry) => if MonthOf(db, e.txn) == m then part(e) else 0, group(m));
    }
    Partition(db.entries, months, key, part, group, grouped, selected);
    SumCongruent(db.entries, selected, part);
  }

  /** Summed over every active month, the series is Totals. */
  lemma MonthsSumToTotals(db: DB, user: int)
    ensures SetSum(ActiveMonths(db, user), m => MonthIncome(db, user, m)) == TotalIncome(db, user)
    ensures SetSum(ActiveMonths(db, user), m => MonthExpense(db, user, m)) == TotalExpense(db, user)
  {
    var earned, paid := (e: Entry) => Earned(db, user, e) as int, (e: Entry) => Paid(db, user, e) as int;
    var ins, outs := m => MonthIncome(db, user, m), m => MonthExpense(db, user, m);
    forall m ensures ins(m) == Sum(db.entries, (e: Entry) => if MonthOf(db, e.txn) == m then earned(e) else 0) {
      SumCongruent(db.entries, (e: Entry) => if MonthOf(db, e.txn) == m then Earned(db, user, e) else 0,
                   (e: Entry) => if MonthOf(db, e.txn) == m then earned(e) else 0);
    }
    forall m ensures outs(m) == Sum(db.entries, (e: Entry) => if MonthOf(db, e.txn) == m then paid(e) else 0) {
      SumCongruent(db.entries, (e: Entry) => if MonthOf(db, e.txn) == m then Paid(db, user, e) else 0,
                   (e: Entry) => if MonthOf(db, e.txn) == m then paid(e) else 0);
    }
    MonthsCover(db, user, earned, ins);
    MonthsCover(db, user, paid, outs);
    SumCongruent(db.entries, earned, e => Earned(db, user, e));
    SumCongruent(db.entries, paid, e => Paid(db, user, e));
  }

  ghost function Turnover(db: DB, user: int, month: string): int {
    MonthIncome(db, user, month) + MonthExpense(db, user, month)
  }

  lemma TurnoverTotal(db: DB, user: int)
    ensures SetSum(ActiveMonths(db, user), m => Turnover(db, user, m)) == TotalIncome(db, user) + TotalExpense(db, user)
  {
    MonthsSumToTotals(db, user);
    SetSumAdd(ActiveMonths(db, user), m => MonthIncome(db, user, m), m => MonthExpense(db, user, m),
              m => Turnover(db, user, m));
  }

  lemma {:induction false} SumPositive<T>(s: seq<T>, f: T -> int, x: T)
    requires x in s && f(x) > 0 && forall y :: y in s ==> f(y) >= 0
    ensures Sum(s, f) > 0
  {
    var zero := (y: T) => 0;
    SumAllZero(s, zero);
    SumMonotone(s, zero, f);
    if Sum(s, f) == Sum(s, zero) {
      SumTight(s, zero, f);
    }
  }

  lemma ActiveMonthIsPositive(db: DB, user: int, month: string)
    requires month in ActiveMonths(db, user)
    ensures Turnover(db, user, month) > 0
  {
    var e :| e in db.entries && Earned(db, user, e) + Paid(db, user, e) > 0 && MonthOf(db, e.txn) == month;
    var ins := (e: Entry) => if MonthOf(db, e.txn) == month then Earned(db, user, e) as int else 0;
    var outs := (e: Entry) => if MonthOf(db, e.txn) == month then Paid(db, user, e) as int else 0;
    var both := (e: Entry) => ins(e) + outs(e);
    SumCongruent(db.entries, ins, (e: Entry) => if MonthOf(db, e.txn) == month then Earned(db, user, e) else 0);
    SumCongruent(db.entries, outs, (e: Entry) => if MonthOf(db, e.txn) == month then Paid(db, user, e) else 0);
    SumAdd(db.entries, ins, outs, both);
    SumPositive(db.entries, both, e);
  }

  lemma {:induction false} PositiveSum(months: set<string>, f: string -> int)
    requires months != {} && forall m :: m in months ==> f(m) > 0
    ensures SetSum(months, f) > 0
    decreases |months|
  {
    var m :| m in months;
    SetSumRemove(months, m, f);
    if months - {m} == {} {
      assert SetSum<string>({}, f) == 0;
    } else {
      PositiveSum(months - {m}, f);
    }
  }

  lemma {:induction false} LexIrreflexive(s: string)
    ensures !LexLess(s, s)
  {
    if s != "" {
      LexIrreflexive(s[1..]);
    }
  }

  /** The dashboard's limited series accounts for all income and expense exactly
      when no more months were active than the limit. */
  lemma SeriesIsCompleteWithinLimit(db: DB, user: int, points: seq<string>, limit: nat)
    requires Series(points, ActiveMonths(db, user), limit)
    ensures Sum(points, m => Turnover(db, user, m)) == TotalIncome(db, user) + TotalExpense(db, user)
            <==> |ActiveMonths(db, user)| <= limit
  {
    var months, f := ActiveMonths(db, user), m => Turnover(db, user, m);
    assert NoRepeats(points) by {
      forall i, j | 0 <= i < j < |points| ensures points[i] != points[j] {
        LexIrreflexive(points[i]);
      }
    }
    SumOfMembers(points, f);
    var shown := Members(points);
    assert shown <= months;
    SetSumSplit(months, shown, f);
    TurnoverTotal(db, user);
    assert |months - shown| == |months| - |shown|;
    if months - shown == {} {
      assert |months - shown| == 0;
    } else {
      forall m | m in months - shown ensures f(m) > 0 {
        ActiveMonthIsPositive(db, user, m);
      }
      PositiveSum(months - shown, f);
    }
  }

  // ---- conservation ----

  function AccountsOf(db: DB, user: int): set<int> {
    set a | a in db.accounts && db.accounts[a] == user
  }

  function Balance(db: DB, a: int): int {
    if a in db.balances then db.balances[a].balance else 0
  }

  function Opening(opening: map<int, int>, a: int): int {
    if a in opening then opening[a] else 0
  }

  function Fee(db: DB, id: int): int {
    if id in db.txns && db.txns[id].kind == Transfer then db.txns[id].cost else 0
  }

  function TxnsOf(db: DB, user: int): set<int> {
    set t | t in db.txns && db.txns[t].user == user
  }

  ghost function TransferCosts(db: DB, user: int): int {
    SetSum(TxnsOf(db, user), t => Fee(db, t))
  }

  lemma {:induction false} LedgerSumIsSum(entries: seq<Entry>, a: int)
    ensures LedgerSum(entries, a) == Sum(entries, (e: Entry) => if e.line.account == a then e.line.amount else 0)
  {
    if entries != [] {
      LedgerSumIsSum(entries[..|entries| - 1], a);
    }
  }

  lemma {:induction false} SumOverLines(entries: seq<Entry>, id: int, h: Line -> int)
    ensures Sum(entries, (e: Entry) => if e.txn == id then h(e.line) else 0) == Sum(LinesOf(entries, id), h)
  {
    if entries != [] {
      var init, e := entries[..|entries| - 1], entries[|entries| - 1];
      SumOverLines(init, id, h);
      if e.txn == id {
        var ls := LinesOf(entries, id);
        assert ls[..|ls| - 1] == LinesOf(init, id);
      }
    }
  }

  /** Each transaction's net movement is its income, less its expense, less its
      fee when it is a transfer. */
  lemma RequestNet(req: Request)
    requires ValidRequest(req)
    ensures Sum(LinesFor(req), (l: Line) => l.amount)
         == Sum(LinesFor(req), (l: Line) => IncomePart(KindOf(req), l.amount))
          - Sum(LinesFor(req), (l: Line) => ExpensePart(KindOf(req), l.amount))
          - (if KindOf(req) == Transfer then req.cost else 0)
  {
    var lines := LinesFor(req);
    TwoLines(lines, (l: Line) => l.amount);
    TwoLines(lines, (l: Line) => IncomePart(KindOf(req), l.amount));
    TwoLines(lines, (l: Line) => ExpensePart(KindOf(req), l.amount));
  }

  lemma TwoLines(lines: seq<Line>, h: Line -> int)
    requires 1 <= |lines| <= 2
    ensures Sum(lines, h) == h(lines[0]) + (if |lines| == 2 then h(lines[1]) else 0)
  {
    assert lines[..1] == [lines[0]];
  }

  lemma TxnNet(db: DB, user: int, id: int, req: Request, moved: Entry -> int, earned: Entry -> int, paid: Entry -> int)
    requires Recorded(db, id, req) && OfUser(db, user, id)
    requires forall e :: moved(e) == e.line.amount && earned(e) == Earned(db, user, e) && paid(e) == Paid(db, user, e)
    ensures Sum(db.entries, (e: Entry) => if e.txn == id then moved(e) else 0)
         == Sum(db.entries, (e: Entry) => if e.txn == id then earned(e) else 0)
          - Sum(db.entries, (e: Entry) => if e.txn == id then paid(e) else 0) - Fee(db, id)
  {
    var kind := KindOf(req);
    var m := (l: Line) => l.amount;
    var i, x := (l: Line) => IncomePart(kind, l.amount) as int, (l: Line) => ExpensePart(kind, l.amount) as int;
    SumOverLines(db.entries, id, m);
    SumOverLines(db.entries, id, i);
    SumOverLines(db.entries, id, x);
    SumCongruent(db.entries, (e: Entry) => if e.txn == id then moved(e) else 0,
                 (e: Entry) => if e.txn == id then m(e.line) else 0);
    SumCongruent(db.entries, (e: Entry) => if e.txn == id then earned(e) else 0,
                 (e: Entry) => if e.txn == id then i(e.line) else 0);
    SumCongruent(db.entries, (e: Entry) => if e.txn == id then paid(e) else 0,
                 (e: Entry) => if e.txn == id then x(e.line) else 0);
    RequestNet(req);
    SumCongruent(LinesFor(req), i, (l: Line) => IncomePart(KindOf(req), l.amount));
    SumCongruent(LinesFor(req), x, (l: Line) => ExpensePart(KindOf(req), l.amount));
    SumCongruent(LinesFor(req), m, (l: Line) => l.amount);
  }

  /** The user's entries, grouped by transaction. */
  lemma ByTransaction(db: DB, user: int, val: Entry -> int, grouped: int -> int)
    requires forall t :: grouped(t) == Sum(db.entries, (e: Entry) => if e.txn == t then val(e) else 0)
    ensures SetSum(TxnsOf(db, user), grouped)
        == Sum(db.entries, (e: Entry) => if OfUser(db, user, e.txn) then val(e) else 0)
  {
    var ts := TxnsOf(db, user);
    var key := (e: Entry) => e.txn;
    var selected := (e: Entry) => if OfUser(db, user, e.txn) then val(e) else 0;
    var group := (t: int) => (e: Entry) => if key(e) == t then val(e) else 0;
    forall t | t in ts ensures grouped(t) == Sum(db.entries, group(t)) {
      SumCongruent(db.entries, (e: Entry) => if e.txn == t then val(e) else 0, group(t));
    }
    Partition(db.entries, ts, key, val, group, grouped, selected);
  }

  /** Everything that moved in a user's transactions. */
  lemma MovedByTransactions(db: DB, user: int)
    requires Shaped(db)
    ensures Sum(db.entries, (e: Entry) => if OfUser(db, user, e.txn) then e.line.amount else 0)
         == TotalIncome(db, user) - TotalExpense(db, user) - TransferCosts(db, user)
  {
    var es, ts := db.entries, TxnsOf(db, user);
    var moved := (e: Entry) => e.line.amount;
    var earned, paid := (e: Entry) => Earned(db, user, e) as int, (e: Entry) => Paid(db, user, e) as int;
    var net := t => Sum(es, (e: Entry) => if e.txn == t then moved(e) else 0);
    var ins := t => Sum(es, (e: Entry) => if e.txn == t then earned(e) else 0);
    var outs := t => Sum(es, (e: Entry) => if e.txn == t then paid(e) else 0);
    ByTransaction(db, user, moved, net);
    ByTransaction(db, user, earned, ins);
    ByTransaction(db, user, paid, outs);
    SumCongruent(es, (e: Entry) => if OfUser(db, user, e.txn) then moved(e) else 0,
                 (e: Entry) => if OfUser(db, user, e.txn) then e.line.amount else 0);
    SumCongruent(es, (e: Entry) => if OfUser(db, user, e.txn) then earned(e) else 0, e => Earned(db, user, e));
    SumCongruent(es, (e: Entry) => if OfUser(db, user, e.txn) then paid(e) else 0, e => Paid(db, user, e));
    forall t | t in ts ensures net(t) == ins(t) - outs(t) - Fee(db, t) {
      var req :| Recorded(db, t, req);
      TxnNet(db, user, t, req, moved, earned, paid);
    }
    NetOfSets(ts, net, ins, outs, t => Fee(db, t));
  }

  lemma {:induction false} NetOfSets(ts: set<int>, net: int -> int, ins: int -> int, outs: int -> int, fees: int -> int)
    requires forall t :: t in ts ==> net(t) == ins(t) - outs(t) - fees(t)
    ensures SetSum(ts, net) == SetSum(ts, ins) - SetSum(ts, outs) - SetSum(ts, fees)
  {
    var spent := t => outs(t) + fees(t);
    SetSumAdd(ts, outs, fees, spent);
    forall t | t in ts ensures ins(t) == net(t) + spent(t) {}
    SetSumAdd(ts, net, spent, ins);
  }

  /** A user's accounts and a user's transactions hold the same entries. */
  lemma MovedOnAccounts(db: DB, user: int)
    requires Referential(db)
    ensures SetSum(AccountsOf(db, user), a => LedgerSum(db.entries, a))
         == Sum(db.entries, (e: Entry) => if OfUser(db, user, e.txn) then e.line.amount else 0)
  {
    var accounts := AccountsOf(db, user);
    var key, val := (e: Entry) => e.line.account, (e: Entry) => e.line.amount;
    var grouped := a => LedgerSum(db.entries, a);
    var selected := (e: Entry) => if e.line.account in accounts then e.line.amount else 0;
    var group := (a: int) => (e: Entry) => if key(e) == a then val(e) else 0;
    forall a | a in accounts ensures grouped(a) == Sum(db.entries, group(a)) {
      LedgerSumIsSum(db.entries, a);
      SumCongruent(db.entries, (e: Entry) => if e.line.account == a then e.line.amount else 0, group(a));
    }
    Partition(db.entries, accounts, key, val, group, grouped, selected);
    SumCongruent(db.entries, selected, (e: Entry) => if OfUser(db, user, e.txn) then e.line.amount else 0);
  }

  /** Conservation: over any history without account removals, what a user's
      accounts hold is what they opened with (after reconciliation fixes, what
      they were re-based to), plus reported income, less reported expense, less
      the fees of the transfers still on record. */
  lemma Conservation(ops: seq<Op>, db: DB, user: int)
    requires Leads(ops, db) && NoRemovals(ops)
    ensures SetSum(AccountsOf(db, user), a => Balance(db, a))
         == SetSum(AccountsOf(db, user), a => Opening(Openings(ops), a))
          + TotalIncome(db, user) - TotalExpense(db, user) - TransferCosts(db, user)
  {
    ReachableIsSound(ops, db);
    ReachableIsShaped(ops, db);
    MovedOnAccounts(db, user);
    MovedByTransactions(db, user);
    SetSumAdd(AccountsOf(db, user), a => Opening(Openings(ops), a), a => LedgerSum(db.entries, a), a => Balance(db, a));
  }
}
