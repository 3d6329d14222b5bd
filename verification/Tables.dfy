/** The ledger's tables as values, the requests that change them, and the row
    arithmetic of single statements. Money is whole cents. */
module Tables {
  import opened Common
  import opened Calendar

  datatype Kind = Income | Expense | Transfer
  datatype Side = Debit | Credit

  /** One account movement inside a transaction. */
  datatype Line = Line(account: int, amount: int, side: Side)

  /** A row of ledger_entries. */
  datatype Entry = Entry(txn: int, line: Line)

  /** A row of transactions_v2; the empty key stands for a NULL key. */
  datatype TxnRow = TxnRow(user: int, kind: Kind, date: Date, cost: int, key: string)

  /** A row of account_balances: the cached balance, the transaction that last
      moved it, and the optimistic-lock version. */
  datatype BalanceRow = BalanceRow(balance: int, lastTxn: Option<int>, version: int)

  /** A row of transaction_categories. */
  datatype Link = Link(txn: int, category: int)

  type Balances = map<int, BalanceRow>

  datatype DB = DB(
    accounts: map<int, int>,   // account id -> owning user
    balances: Balances,
    txns: map<int, TxnRow>,
    entries: seq<Entry>,
    links: seq<Link>)

  const EMPTY_DB := DB(map[], map[], map[], [], [])

  datatype Error =
    | Invalid | NotFound | InsufficientFunds | MissingBalance
    | KeyTaken | VersionConflict | WinnerGone | Refused

  // ---- requests ----

  datatype Request =
    | IncomeOf(account: int, amount: int, cost: int, category: int, date: Date)
    | ExpenseOf(account: int, amount: int, cost: int, category: int, date: Date)
    | TransferOf(from: int, to: int, amount: int, cost: int, date: Date)

  function KindOf(r: Request): Kind {
    match r
    case IncomeOf(_, _, _, _, _) => Income
    case ExpenseOf(_, _, _, _, _) => Expense
    case TransferOf(_, _, _, _, _) => Transfer
  }

  predicate ValidRequest(r: Request) {
    match r
    case IncomeOf(account, amount, cost, _, _) => account > 0 && amount > 0 && cost == 0
    case ExpenseOf(account, amount, cost, _, _) => account > 0 && amount > 0 && cost >= 0
    case TransferOf(from, to, amount, cost, _) => from > 0 && to > 0 && from != to && amount > 0 && cost >= 0
  }

  /** The movements a request stands for: money in is a debit, money out and
      its fee one credit. */
  function LinesFor(r: Request): seq<Line> {
    match r
    case IncomeOf(account, amount, _, _, _) => [Line(account, amount, Debit)]
    case ExpenseOf(account, amount, cost, _, _) => [Line(account, -(amount + cost), Credit)]
    case TransferOf(from, to, amount, cost, _) => [Line(from, -(amount + cost), Credit), Line(to, amount, Debit)]
  }

  function CategoriesFor(r: Request): seq<int> {
    match r
    case IncomeOf(_, _, _, category, _) => [category]
    case ExpenseOf(_, _, _, category, _) => [category]
    case TransferOf(_, _, _, _, _) => []
  }

  function RowFor(user: int, r: Request, key: string): TxnRow {
    TxnRow(user, KindOf(r), r.date, r.cost, key)
  }

  // ---- lines and entries ----

  predicate Distinct(lines: seq<Line>) {
    forall i, j :: 0 <= i < j < |lines| ==> lines[i].account != lines[j].account
  }

  function Touched(lines: seq<Line>): set<int> {
    set l | l in lines :: l.account
  }

  /** Net movement of one account over some lines. */
  function Delta(lines: seq<Line>, account: int): int {
    if lines == [] then 0 else
      var l := lines[|lines| - 1];
      Delta(lines[..|lines| - 1], account) + (if l.account == account then l.amount else 0)
  }

  /** SELECT SUM(amount) FROM ledger_entries WHERE account_id = account. */
  function LedgerSum(entries: seq<Entry>, account: int): int {
    if entries == [] then 0 else
      var l := entries[|entries| - 1].line;
      LedgerSum(entries[..|entries| - 1], account) + (if l.account == account then l.amount else 0)
  }

  function EntriesFor(id: int, lines: seq<Line>): (es: seq<Entry>)
    ensures |es| == |lines| && forall i :: 0 <= i < |lines| ==> es[i] == Entry(id, lines[i])
  {
    seq(|lines|, i requires 0 <= i < |lines| => Entry(id, lines[i]))
  }

  /** The movements of one transaction, in table order. */
  function LinesOf(entries: seq<Entry>, id: int): seq<Line> {
    if entries == [] then [] else
      var e := entries[|entries| - 1];
      var rest := LinesOf(entries[..|entries| - 1], id);
      if e.txn == id then rest + [e.line] else rest
  }

  /** DELETE FROM ledger_entries WHERE transaction_id = id. */
  function Without(entries: seq<Entry>, id: int): seq<Entry> {
    if entries == [] then [] else
      var e := entries[|entries| - 1];
      var rest := Without(entries[..|entries| - 1], id);
      if e.txn == id then rest else rest + [e]
  }

  /** The rows left when an account is removed and its entries cascade. */
  function WithoutAccount(entries: seq<Entry>, account: int): seq<Entry> {
    if entries == [] then [] else
      var e := entries[|entries| - 1];
      var rest := WithoutAccount(entries[..|entries| - 1], account);
      if e.line.account == account then rest else rest + [e]
  }

  function LinksWithout(links: seq<Link>, id: int): seq<Link> {
    if links == [] then [] else
      var k := links[|links| - 1];
      var rest := LinksWithout(links[..|links| - 1], id);
      if k.txn == id then rest else rest + [k]
  }

  function LinksFor(id: int, categories: seq<int>): (ls: seq<Link>)
    ensures |ls| == |categories| && forall i :: 0 <= i < |categories| ==> ls[i] == Link(id, categories[i])
  {
    seq(|categories|, i requires 0 <= i < |categories| => Link(id, categories[i]))
  }

  // ---- one balance row ----

  datatype Direction = Post | Reverse

  function NewBalance(dir: Direction, r: BalanceRow, amount: int): int {
    match dir
    case Post => r.balance + amount
    case Reverse => r.balance - amount
  }

  /** The row after one posting (naming its transaction) or one reversal
      (forgetting its transaction if it was the last one named). */
  function Moved(dir: Direction, r: BalanceRow, id: int, amount: int): BalanceRow {
    match dir
    case Post => BalanceRow(r.balance + amount, Some(id), r.version + 1)
    case Reverse => BalanceRow(r.balance - amount, if r.lastTxn == Some(id) then None else r.lastTxn, r.version + 1)
  }

  /** ON DELETE SET NULL on last_updated_txn. */
  function Forget(balances: Balances, id: int): Balances {
    map a | a in balances :: if balances[a].lastTxn == Some(id) then balances[a].(lastTxn := None) else balances[a]
  }

  // ---- facts about lines and entries ----

  lemma {:induction false} DeltaOfDistinct(lines: seq<Line>, account: int)
    requires Distinct(lines)
    ensures account !in Touched(lines) ==> Delta(lines, account) == 0
    ensures forall l :: l in lines && l.account == account ==> Delta(lines, account) == l.amount
  {
    if lines != [] {
      var init, last := lines[..|lines| - 1], lines[|lines| - 1];
      assert lines == init + [last];
      assert Touched(lines) == Touched(init) + {last.account};
      DeltaOfDistinct(init, account);
    }
  }

  lemma NotTouchedYet(lines: seq<Line>, k: nat)
    requires Distinct(lines) && k < |lines|
    ensures lines[k].account !in Touched(lines[..k])
  {
    forall l | l in lines[..k] ensures l.account != lines[k].account {
      var j :| 0 <= j < k && lines[..k][j] == l;
    }
  }

  lemma {:induction false} LedgerSumAppend(entries: seq<Entry>, id: int, lines: seq<Line>, account: int)
    ensures LedgerSum(entries + EntriesFor(id, lines), account) == LedgerSum(entries, account) + Delta(lines, account)
    decreases |lines|
  {
    var all := entries + EntriesFor(id, lines);
    if lines == [] {
      assert all == entries;
    } else {
      var init := lines[..|lines| - 1];
      LedgerSumAppend(entries, id, init, account);
      assert all[..|all| - 1] == entries + EntriesFor(id, init);
    }
  }

  lemma {:induction false} LinesOfConcat(xs: seq<Entry>, ys: seq<Entry>, id: int)
    ensures LinesOf(xs + ys, id) == LinesOf(xs, id) + LinesOf(ys, id)
    decreases |ys|
  {
    if ys == [] {
      assert xs + ys == xs;
    } else {
      LinesOfConcat(xs, ys[..|ys| - 1], id);
      assert (xs + ys)[..|xs + ys| - 1] == xs + ys[..|ys| - 1];
    }
  }

  lemma {:induction false} LinesOfNew(id: int, lines: seq<Line>, other: int)
    ensures LinesOf(EntriesFor(id, lines), other) == if other == id then lines else []
    decreases |lines|
  {
    if lines != [] {
      var init, es := lines[..|lines| - 1], EntriesFor(id, lines);
      LinesOfNew(id, init, other);
      assert es[..|es| - 1] == EntriesFor(id, init);
      assert lines == init + [lines[|lines| - 1]];
    }
  }

  lemma LinesOfAppend(entries: seq<Entry>, id: int, lines: seq<Line>, other: int)
    ensures LinesOf(entries + EntriesFor(id, lines), other)
         == LinesOf(entries, other) + (if other == id then lines else [])
  {
    LinesOfConcat(entries, EntriesFor(id, lines), other);
    LinesOfNew(id, lines, other);
  }

  lemma {:induction false} LedgerSumWithout(entries: seq<Entry>, id: int, account: int)
    ensures LedgerSum(Without(entries, id), account)
        == LedgerSum(entries, account) - Delta(LinesOf(entries, id), account)
  {
    if entries != [] {
      var init, e := entries[..|entries| - 1], entries[|entries| - 1];
      LedgerSumWithout(init, id, account);
      if e.txn == id {
        var ls := LinesOf(entries, id);
        assert ls[..|ls| - 1] == LinesOf(init, id);
      } else {
        var es := Without(entries, id);
        assert es[..|es| - 1] == Without(init, id);
      }
    }
  }

  lemma {:induction false} LinesOfWithout(entries: seq<Entry>, id: int, other: int)
    ensures LinesOf(Without(entries, id), other) == if other == id then [] else LinesOf(entries, other)
  {
    if entries != [] {
      var init, e := entries[..|entries| - 1], entries[|entries| - 1];
      LinesOfWithout(init, id, other);
      if e.txn != id {
        var es := Without(entries, id);
        assert es[..|es| - 1] == Without(init, id);
      }
    }
  }

  lemma {:induction false} WithoutKeeps(entries: seq<Entry>, id: int)
    ensures forall e :: e in Without(entries, id) <==> e in entries && e.txn != id
  {
    if entries != [] {
      var init, e := entries[..|entries| - 1], entries[|entries| - 1];
      WithoutKeeps(init, id);
      assert entries == init + [e];
    }
  }

  lemma {:induction false} LinesOfMembers(entries: seq<Entry>, id: int)
    ensures forall l :: l in LinesOf(entries, id) <==> Entry(id, l) in entries
  {
    if entries != [] {
      var init, e := entries[..|entries| - 1], entries[|entries| - 1];
      LinesOfMembers(init, id);
      assert entries == init + [e];
    }
  }

  lemma {:induction false} NoEntriesNoLines(entries: seq<Entry>, id: int)
    requires forall e :: e in entries ==> e.txn != id
    ensures LinesOf(entries, id) == []
  {
    if entries != [] {
      assert entries[|entries| - 1] in entries;
      NoEntriesNoLines(entries[..|entries| - 1], id);
    }
  }

  lemma {:induction false} WithoutAccountFacts(entries: seq<Entry>, account: int, other: int)
    ensures forall e :: e in WithoutAccount(entries, account) <==> e in entries && e.line.account != account
    ensures other != account ==> LedgerSum(WithoutAccount(entries, account), other) == LedgerSum(entries, other)
  {
    if entries != [] {
      var init, e := entries[..|entries| - 1], entries[|entries| - 1];
      WithoutAccountFacts(init, account, other);
      assert entries == init + [e];
      if e.line.account != account {
        var es := WithoutAccount(entries, account);
        assert es[..|es| - 1] == WithoutAccount(init, account);
      }
    }
  }

  lemma {:induction false} WithoutAccountLines(entries: seq<Entry>, account: int, id: int)
    requires Distinct(LinesOf(entries, id))
    ensures Distinct(LinesOf(WithoutAccount(entries, account), id))
    ensures forall l :: l in LinesOf(WithoutAccount(entries, account), id) <==>
        l in LinesOf(entries, id) && l.account != account
  {
    if entries != [] {
      var init, e := entries[..|entries| - 1], entries[|entries| - 1];
      var before := LinesOf(init, id);
      assert e.txn == id ==> LinesOf(entries, id) == before + [e.line];
      assert Distinct(before) by {
        assert forall i :: 0 <= i < |before| ==> LinesOf(entries, id)[i] == before[i];
      }
      WithoutAccountLines(init, account, id);
      var kept := LinesOf(WithoutAccount(init, account), id);
      if e.line.account == account {
      } else {
        var es := WithoutAccount(entries, account);
        assert es[..|es| - 1] == WithoutAccount(init, account);
        if e.txn == id {
          assert LinesOf(es, id) == kept + [e.line];
          forall i | 0 <= i < |kept| ensures kept[i].account != e.line.account {
            assert kept[i] in kept;
            var k :| 0 <= k < |before| && before[k] == kept[i];
            var full := LinesOf(entries, id);
            assert full[k] == kept[i] && full[|before|] == e.line;
          }
        }
      }
    }
  }
}
