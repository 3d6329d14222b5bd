/** The ledger service as code: an open database transaction with the
    repository's statements as methods, and the service calls that run them,
    proved against the sequential engine. */
module LedgerStore {
  import opened Common
  import opened Calendar
  import opened Tables
  import opened Engine
  import opened Invariants

  /** An open transaction: working copies of the tables, dropped on rollback. */
  class LedgerTx {
    var balances: Balances
    var txns: map<int, TxnRow>
    var entries: seq<Entry>
    var links: seq<Link>

    constructor (db: DB)
      ensures balances == db.balances && txns == db.txns && entries == db.entries && links == db.links
    {
      balances, txns, entries, links := db.balances, db.txns, db.entries, db.links;
    }

    method GetIDByIdempotencyKey(user: int, key: string) returns (found: Option<int>)
      requires key != ""
      ensures found.Some? <==> Replays(txns, user, key)
      ensures found.Some? ==> Holds(txns, user, key, found.value)
    {
      if id :| id in txns && Holds(txns, user, key, id) {
        return Some(id);
      }
      return None;
    }

    /** INSERT ... ON CONFLICT (user_id, idempotency_key) DO NOTHING; no row
        comes back when the caller's own key is taken, and another user's use
        of the key is an error. */
    method CreateTxn(id: int, row: TxnRow) returns (inserted: bool, taken: bool)
      requires id !in txns
      modifies this`txns
      ensures taken <==> !Replays(old(txns), row.user, row.key) && KeyUsed(old(txns), row.key)
      ensures inserted <==> !Replays(old(txns), row.user, row.key) && !KeyUsed(old(txns), row.key)
      ensures txns == if inserted then old(txns)[id := row] else old(txns)
    {
      inserted, taken := false, false;
      if Replays(txns, row.user, row.key) {
        return;
      }
      if KeyUsed(txns, row.key) {
        taken := true;
        return;
      }
      txns := txns[id := row];
      inserted := true;
    }

    method CreateLedgerEntry(id: int, line: Line)
      modifies this`entries
      ensures entries == old(entries) + [Entry(id, line)]
    {
      entries := entries + [Entry(id, line)];
    }

    method GetBalanceForUpdate(account: int) returns (row: Option<BalanceRow>)
      ensures row == if account in balances then Some(balances[account]) else None
    {
      row := if account in balances then Some(balances[account]) else None;
    }

    method UpdateBalance(account: int, newBalance: int, id: int, version: int) returns (updated: bool)
      modifies this`balances
      ensures updated <==> account in old(balances) && old(balances)[account].version == version
      ensures balances == if updated then old(balances)[account := BalanceRow(newBalance, Some(id), version + 1)]
                          else old(balances)
    {
      updated := account in balances && balances[account].version == version;
      if updated {
        balances := balances[account := BalanceRow(newBalance, Some(id), version + 1)];
      }
    }

    method ReverseBalance(account: int, newBalance: int, id: int, version: int) returns (updated: bool)
      modifies this`balances
      ensures updated <==> account in old(balances) && old(balances)[account].version == version
      ensures updated ==> balances == old(balances)[account := BalanceRow(newBalance,
                if old(balances)[account].lastTxn == Some(id) then None else old(balances)[account].lastTxn,
                version + 1)]
      ensures !updated ==> balances == old(balances)
    {
      updated := account in balances && balances[account].version == version;
      if updated {
        var last := balances[account].lastTxn;
        balances := balances[account := BalanceRow(newBalance, if last == Some(id) then None else last, version + 1)];
      }
    }

    method AddCategory(id: int, category: int)
      modifies this`links
      ensures links == if Link(id, category) in old(links) then old(links) else old(links) + [Link(id, category)]
    {
      if Link(id, category) !in links {
        links := links + [Link(id, category)];
      }
    }

    method DeleteByTransaction(id: int)
      modifies this`entries
      ensures entries == Without(old(entries), id)
    {
      entries := Without(entries, id);
    }

    /** DELETE FROM transactions_v2, with its cascades. */
    method DeleteTxn(id: int, user: int) returns (deleted: bool)
      modifies this
      ensures deleted <==> id in old(txns) && old(txns)[id].user == user
      ensures !deleted ==>
          txns == old(txns) && balances == old(balances) && entries == old(entries) && links == old(links)
      ensures deleted ==> txns == old(txns) - {id} && balances == Forget(old(balances), id)
                          && entries == Without(old(entries), id) && links == LinksWithout(old(links), id)
    {
      deleted := id in txns && txns[id].user == user;
      if deleted {
        txns := txns - {id};
        balances := Forget(balances, id);
        entries := Without(entries, id);
        links := LinksWithout(links, id);
      }
    }
  }

  datatype Answer = Created(id: int) | Existing(id: int) | Done | Failed(error: Error)

  datatype Reconciliation = Reconciliation(
    ledgerBalance: int, storedBalance: int, consistent: bool, discrepancy: int,
    lastTxn: Option<int>, fixed: bool, error: bool)

  /** What a reconciliation says of the tables it found. */
  predicate Truthful(r: Reconciliation, balances: Balances, entries: seq<Entry>, account: int, fix: bool) {
    var sum := LedgerSum(entries, account);
    r.ledgerBalance == sum && r.lastTxn == MaxTxn(entries, account)
    && if account !in balances then r.error && !r.consistent && !r.fixed
       else r.storedBalance == balances[account].balance && r.discrepancy == sum - r.storedBalance
            && (r.consistent <==> sum == r.storedBalance)
            && (r.fixed <==> fix && !r.consistent && sum >= 0) && (r.error <==> fix && !r.consistent && sum < 0)
  }

  /** The balances once the accounts in `done` were reconciled. */
  predicate Rebased(before: Balances, after: Balances, entries: seq<Entry>, done: seq<int>, fix: bool) {
    after.Keys == before.Keys
    && forall a :: a in before ==>
         after[a].balance == if fix && a in done && LedgerSum(entries, a) >= 0 then LedgerSum(entries, a)
                             else before[a].balance
  }

  /** Each account's first result says what was there before. */
  predicate Reported(results: seq<Reconciliation>, before: Balances, entries: seq<Entry>, done: seq<int>, fix: bool) {
    |results| == |done|
    && forall i :: 0 <= i < |done| && done[i] !in done[..i] ==> Truthful(results[i], before, entries, done[i], fix)
  }

  lemma RebasedNext(before: Balances, now: Balances, after: Balances, entries: seq<Entry>, done: seq<int>, a: int,
                   fix: bool)
    requires Rebased(before, now, entries, done, fix) && after.Keys == now.Keys
    requires forall b :: b in now && b != a ==> after[b].balance == now[b].balance
    requires a in now ==>
        after[a].balance == if fix && LedgerSum(entries, a) >= 0 then LedgerSum(entries, a) else now[a].balance
    ensures Rebased(before, after, entries, done + [a], fix)
  {}

  lemma ReportedNext(results: seq<Reconciliation>, before: Balances, now: Balances, entries: seq<Entry>, done: seq<int>,
                     a: int, fix: bool, r: Reconciliation)
    requires Reported(results, before, entries, done, fix) && Rebased(before, now, entries, done, fix)
    requires Truthful(r, now, entries, a, fix)
    ensures Reported(results + [r], before, entries, done + [a], fix)
  {
    var more := done + [a];
    assert more[..|done|] == done;
    forall i | 0 <= i < |done| ensures more[..i] == done[..i] {}
  }

  lemma {:induction false} WithoutTwice(entries: seq<Entry>, id: int)
    ensures Without(Without(entries, id), id) == Without(entries, id)
  {
    if entries != [] {
      var init, e := entries[..|entries| - 1], entries[|entries| - 1];
      WithoutTwice(init, id);
      if e.txn != id {
        var es := Without(entries, id);
        assert es[..|es| - 1] == Without(init, id);
      }
    }
  }

  lemma InsertOutcome(db: DB, id: int, user: int, req: Request, key: string)
    requires ValidRequest(req) && Owns(db, user, req) && !Replays(db.txns, user, key) && id !in db.txns
    ensures var walked := Walk(Post, db.balances, id, LinesFor(req));
            CreateTxn(db, id, user, req, key) ==
              if KeyUsed(db.txns, key) then CreateFailed(KeyTaken)
              else if walked.Err? then CreateFailed(walked.error)
              else Inserted(Insert(db, id, user, req, key, walked.balances))
    ensures CreateTxn(db, id, user, req, key).Inserted? ==>
              Apply(db, Create(id, user, req, key)) == Some(CreateTxn(db, id, user, req, key).db)
  {}

  lemma WalkOneMore(dir: Direction, b: Balances, id: int, lines: seq<Line>, i: nat)
    requires i < |lines| && Walk(dir, b, id, lines[..i]).Ok?
    ensures Walk(dir, b, id, lines[..i + 1]) == WalkLine(dir, Walk(dir, b, id, lines[..i]).balances, id, lines[i])
  {
    assert lines[..i + 1][..i] == lines[..i];
  }

  /** One turn of the loop: SELECT ... FOR UPDATE, the funds check, and the
      versioned UPDATE, whose conflict branch is never taken. */
  method MoveBalance(tx: LedgerTx, dir: Direction, id: int, l: Line) returns (failure: Option<Error>)
    modifies tx`balances
    ensures match WalkLine(dir, old(tx.balances), id, l)
            case Ok(b) => failure == None && tx.balances == b
            case Err(e) => failure == Some(e)
  {
    var row := tx.GetBalanceForUpdate(l.account);
    if row.None? {
      return Some(MissingBalance);
    }
    var newBalance := NewBalance(dir, row.value, l.amount);
    if newBalance < 0 {
      return Some(InsufficientFunds);
    }
    var updated;
    if dir == Post {
      updated := tx.UpdateBalance(l.account, newBalance, id, row.value.version);
    } else {
      updated := tx.ReverseBalance(l.account, newBalance, id, row.value.version);
    }
    failure := if updated then None else Some(VersionConflict);
  }

  /** The loop over lines: on create insert the entry and move the balance, on
      delete move it back. The first failure abandons the loop. */
  method WalkLines(tx: LedgerTx, dir: Direction, id: int, lines: seq<Line>) returns (failure: Option<Error>)
    modifies tx
    ensures tx.txns == old(tx.txns) && tx.links == old(tx.links)
    ensures match Walk(dir, old(tx.balances), id, lines)
            case Ok(b) =>
              failure == None && tx.balances == b
              && tx.entries == if dir == Post then old(tx.entries) + EntriesFor(id, lines) else old(tx.entries)
            case Err(e) => failure == Some(e)
  {
    ghost var before := tx.balances;
    var i := 0;
    while i < |lines|
      invariant 0 <= i <= |lines|
      invariant Walk(dir, before, id, lines[..i]) == Ok(tx.balances)
      invariant tx.entries == if dir == Post then old(tx.entries) + EntriesFor(id, lines[..i]) else old(tx.entries)
      invariant tx.txns == old(tx.txns) && tx.links == old(tx.links)
    {
      WalkOneMore(dir, before, id, lines, i);
      if dir == Post {
        tx.CreateLedgerEntry(id, lines[i]);
        assert EntriesFor(id, lines[..i + 1]) == EntriesFor(id, lines[..i]) + [Entry(id, lines[i])];
      }
      failure := MoveBalance(tx, dir, id, lines[i]);
      if failure.Some? {
        WalkStops(dir, before, id, lines, i + 1);
        return;
      }
      i := i + 1;
    }
    assert lines[..i] == lines;
    failure := None;
  }

  method LinkAll(tx: LedgerTx, id: int, categories: seq<int>)
    requires |categories| <= 1 && forall k :: k in tx.links ==> k.txn != id
    modifies tx
    ensures tx.links == old(tx.links) + LinksFor(id, categories)
    ensures tx.balances == old(tx.balances) && tx.txns == old(tx.txns) && tx.entries == old(tx.entries)
  {
    for i := 0 to |categories|
      invariant tx.links == old(tx.links) + LinksFor(id, categories[..i])
      invariant tx.balances == old(tx.balances) && tx.txns == old(tx.txns) && tx.entries == old(tx.entries)
    {
      tx.AddCategory(id, categories[i]);
    }
    assert categories[..|categories|] == categories;
  }

  class Ledger {
    var accounts: map<int, int>
    var balances: Balances
    var txns: map<int, TxnRow>
    var entries: seq<Entry>
    var links: seq<Link>
    var nextTxn: int
    var nextAccount: int
    ghost var history: seq<Op>

    ghost function Tables(): DB
      reads this
    {
      DB(accounts, balances, txns, entries, links)
    }

    ghost predicate Valid()
      reads this
    {
      Leads(history, Tables())
      && (forall t :: t in txns ==> t < nextTxn) && (forall a :: a in accounts ==> a < nextAccount)
    }

    constructor ()
      ensures Valid() && Tables() == EMPTY_DB && history == []
    {
      accounts, balances, txns, entries, links := map[], map[], map[], [], [];
      nextTxn, nextAccount, history := 1, 1, [];
    }

    /** The committed tables followed the history; so are they one step on. */
    lemma Extends(op: Op, after: DB)
      requires Valid() && Apply(Tables(), op) == Some(after)
      ensures Leads(history + [op], after)
    {
      assert (history + [op])[..|history|] == history;
    }

    method OpenAccount(user: int, initial: int) returns (r: Answer)
      requires Valid()
      modifies this
      ensures Valid()
      ensures initial < 0 ==> r == Failed(Invalid) && Tables() == old(Tables()) && history == old(history)
      ensures initial >= 0 ==>
                r == Created(old(nextAccount))
                && Tables() == Open(old(Tables()), old(nextAccount), user, initial)
                && history == old(history) + [Op.OpenAccount(old(nextAccount), user, initial)]
    {
      if initial < 0 {
        return Failed(Invalid);
      }
      var a := nextAccount;
      Extends(Op.OpenAccount(a, user, initial), Open(Tables(), a, user, initial));
      accounts := accounts[a := user];
      balances := balances[a := BalanceRow(initial, None, 1)];
      nextAccount := a + 1;
      history := history + [Op.OpenAccount(a, user, initial)];
      r := Created(a);
    }

    /** Removing an account that is not the caller's is silently nothing. */
    method CloseAccount(account: int, user: int)
      requires Valid()
      modifies this
      ensures Valid()
      ensures var mine := account in old(accounts) && old(accounts)[account] == user;
              Tables() == (if mine then Close(old(Tables()), account) else old(Tables()))
              && history == if mine then old(history) + [Op.CloseAccount(account, user)] else old(history)
    {
      if account in accounts && accounts[account] == user {
        Extends(Op.CloseAccount(account, user), Close(Tables(), account));
        accounts := accounts - {account};
        balances := balances - {account};
        entries := WithoutAccount(entries, account);
        history := history + [Op.CloseAccount(account, user)];
      }
    }

    method RequireAccounts(user: int, req: Request) returns (ok: bool)
      ensures ok <==> Owns(Tables(), user, req)
    {
      var lines := LinesFor(req);
      var k := 0;
      while k < |lines|
        invariant 0 <= k <= |lines|
        invariant forall j :: 0 <= j < k ==> lines[j].account in accounts && accounts[lines[j].account] == user
      {
        if lines[k].account !in accounts || accounts[lines[k].account] != user {
          assert lines[k] in lines;
          return false;
        }
        k := k + 1;
      }
      return true;
    }

    /** COMMIT: the working copies become the tables. */
    method Commit(tx: LedgerTx, ghost op: Op)
      requires Valid() && Apply(Tables(), op) == Some(DB(accounts, tx.balances, tx.txns, tx.entries, tx.links))
      requires forall t :: t in tx.txns ==> t < nextTxn
      modifies this
      ensures Valid() && nextTxn == old(nextTxn) && nextAccount == old(nextAccount) && history == old(history) + [op]
      ensures Tables() == DB(old(accounts), tx.balances, tx.txns, tx.entries, tx.links)
    {
      Extends(op, DB(accounts, tx.balances, tx.txns, tx.entries, tx.links));
      balances, txns, entries, links := tx.balances, tx.txns, tx.entries, tx.links;
      history := history + [op];
    }

    method LookupKey(user: int, key: string) returns (found: Option<int>)
      requires Valid()
      ensures found == if Replays(txns, user, key) then Some(Holder(txns, user, key)) else None
    {
      if key == "" {
        return None;
      }
      assert KeysUnique(txns) by {
        ReachableIsSound(history, Tables());
      }
      var tx := new LedgerTx(DB(accounts, balances, txns, entries, links));
      found := tx.GetIDByIdempotencyKey(user, key);
    }

    /** From the insert of the transaction row to the commit. */
    method InsertAndPost(user: int, req: Request, key: string) returns (r: Answer)
      requires Valid() && ValidRequest(req) && Owns(Tables(), user, req) && !Replays(txns, user, key)
      modifies this
      ensures Valid() && nextTxn == old(nextTxn) + 1
      ensures match CreateTxn(old(Tables()), old(nextTxn), user, req, key)
              case Inserted(after) =>
                r == Created(old(nextTxn)) && Tables() == after
                && history == old(history) + [Create(old(nextTxn), user, req, key)]
              case Replayed(_) => false
              case CreateFailed(e) => r == Failed(e) && Tables() == old(Tables()) && history == old(history)
    {
      assert forall k :: k in links ==> k.txn in txns by {
        ReachableIsSound(history, Tables());
      }
      var id := nextTxn;
      InsertOutcome(Tables(), id, user, req, key);
      nextTxn := nextTxn + 1;
      var tx := new LedgerTx(DB(accounts, balances, txns, entries, links));
      var inserted, taken := tx.CreateTxn(id, RowFor(user, req, key));
      if taken {
        return Failed(KeyTaken);
      }
      var failure := WalkLines(tx, Post, id, LinesFor(req));
      if failure.Some? {
        return Failed(failure.value);
      }
      LinkAll(tx, id, CategoriesFor(req));
      assert DB(accounts, tx.balances, tx.txns, tx.entries, tx.links)
          == Insert(Tables(), id, user, req, key, tx.balances);
      Commit(tx, Create(id, user, req, key));
      r := Created(id);
    }

    /** CreateIncome, CreateExpense and CreateTransfer share this body. */
    method CreateTransaction(user: int, req: Request, key: string) returns (r: Answer)
      requires Valid()
      modifies this
      ensures Valid() && nextTxn >= old(nextTxn)
      ensures match CreateTxn(old(Tables()), old(nextTxn), user, req, key)
              case Inserted(after) =>
                r == Created(old(nextTxn)) && Tables() == after
                && history == old(history) + [Create(old(nextTxn), user, req, key)]
              case Replayed(id) => r == Existing(id) && Tables() == old(Tables()) && history == old(history)
              case CreateFailed(e) => r == Failed(e) && Tables() == old(Tables()) && history == old(history)
    {
      if !ValidRequest(req) {
        return Failed(Invalid);
      }
      var owned := RequireAccounts(user, req);
      if !owned {
        return Failed(NotFound);
      }
      var found := LookupKey(user, key);
      if found.Some? {
        return Existing(found.value);
      }
      r := InsertAndPost(user, req, key);
    }

    /** Delete: reverse every listed movement, then remove the rows. */
    method DeleteTransaction(id: int, user: int) returns (r: Answer)
      requires Valid()
      modifies this
      ensures Valid() && nextTxn == old(nextTxn)
      ensures match DeleteTxn(old(Tables()), id, user)
              case Deleted(after) => r == Done && Tables() == after && history == old(history) + [Delete(id, user)]
              case DeleteFailed(e) => r == Failed(e) && Tables() == old(Tables()) && history == old(history)
    {
      if id !in txns || txns[id].user != user {
        return Failed(NotFound);
      }
      var tx := new LedgerTx(DB(accounts, balances, txns, entries, links));
      var failure := WalkLines(tx, Reverse, id, LinesOf(tx.entries, id));
      if failure.Some? {
        return Failed(failure.value);
      }
      tx.DeleteByTransaction(id);
      var deleted := tx.DeleteTxn(id, user);
      WithoutTwice(entries, id);
      Commit(tx, Delete(id, user));
      r := Done;
    }

    /** Update of date and category; a transfer keeps no category. */
    method EditTransaction(id: int, user: int, date: Date, category: Option<int>) returns (r: Answer)
      requires Valid()
      modifies this
      ensures Valid()
      ensures id !in old(txns) || old(txns)[id].user != user ==>
                r == Failed(NotFound) && Tables() == old(Tables()) && history == old(history)
      ensures id in old(txns) && old(txns)[id].user == user ==>
                r == Done && Tables() == Edited(old(Tables()), id, date, category)
                && history == old(history) + [Edit(id, user, date, category)]
    {
      if id !in txns || txns[id].user != user {
        return Failed(NotFound);
      }
      Extends(Edit(id, user, date, category), Edited(Tables(), id, date, category));
      txns := txns[id := txns[id].(date := date)];
      if category.Some? && txns[id].kind != Transfer {
        links := LinksWithout(links, id);
        links := links + [Link(id, category.value)];
      }
      history := history + [Edit(id, user, date, category)];
      r := Done;
    }

    /** ReconcileAccount: compare the ledger sum with the cached balance and, if
        asked, overwrite the cache; the balance check refuses a negative sum.
        Against opening balances this means: the discrepancy is the negated
        opening, and a successful fix re-bases the opening to zero. */
    method ReconcileAccount(account: int, fix: bool) returns (r: Reconciliation)
      requires Valid()
      modifies this
      ensures Valid() && accounts == old(accounts) && entries == old(entries)
      ensures Truthful(r, old(balances), entries, account, fix)
      ensures account in old(balances) ==>
                account in Openings(old(history)) && r.discrepancy == -Openings(old(history))[account]
                && (r.consistent <==> Openings(old(history))[account] == 0)
      ensures r.fixed ==>
                account in old(balances) && account in balances && Tables() == Fixed(old(Tables()), account)
                && history == old(history) + [Fix(account)] && Openings(history) == Openings(old(history))[account := 0]
      ensures account !in old(balances) || !r.fixed ==> Tables() == old(Tables()) && history == old(history)
    {
      ReachableIsSound(history, Tables());
      var sum, last := LedgerSum(entries, account), MaxTxn(entries, account);
      if account !in balances {
        return Reconciliation(sum, 0, false, 0, last, false, true);
      }
      var stored, version := balances[account].balance, balances[account].version;
      var discrepancy := sum - stored;
      if discrepancy == 0 {
        return Reconciliation(sum, stored, true, 0, last, false, false);
      }
      if fix {
        if sum < 0 {
          return Reconciliation(sum, stored, false, discrepancy, last, false, true);
        }
        Extends(Fix(account), Fixed(Tables(), account));
        balances := balances[account := BalanceRow(sum, last, version + 1)];
        history := history + [Fix(account)];
        assert history[..|history| - 1] == old(history);
        return Reconciliation(sum, stored, false, discrepancy, last, true, false);
      }
      return Reconciliation(sum, stored, false, discrepancy, last, false, false);
    }

    /** ReconcileAllAccounts over a user's accounts in whatever order the query
        returns them. */
    method ReconcileAll(order: seq<int>, fix: bool) returns (results: seq<Reconciliation>)
      requires Valid()
      modifies this
      ensures Valid() && entries == old(entries)
      ensures Rebased(old(balances), balances, entries, order, fix)
      ensures Reported(results, old(balances), entries, order, fix)
    {
      results := [];
      for i := 0 to |order|
        invariant Valid() && entries == old(entries)
        invariant Rebased(old(balances), balances, entries, order[..i], fix)
        invariant Reported(results, old(balances), entries, order[..i], fix)
      {
        ghost var now := balances;
        var r := ReconcileAccount(order[i], fix);
        assert order[..i + 1] == order[..i] + [order[i]];
        RebasedNext(old(balances), now, balances, entries, order[..i], order[i], fix);
        ReportedNext(results, old(balances), now, entries, order[..i], order[i], fix, r);
        results := results + [r];
      }
      assert order[..|order|] == order;
    }
  }
}
