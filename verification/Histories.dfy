/** What can be said about whole histories: the version column as a change
    witness, idempotency keys, and what a delete undoes. */
module Histories {
  import opened Common
  import opened Calendar
  import opened Tables
  import opened Engine
  import opened Invariants

  // ---- the version column ----

  /** The ledger rows of one account. */
  function EntriesOn(entries: seq<Entry>, account: int): seq<Entry> {
    if entries == [] then [] else
      var e, rest := entries[|entries| - 1], EntriesOn(entries[..|entries| - 1], account);
      if e.line.account == account then rest + [e] else rest
  }

  /** From `before` to `after` the version of a live account did not fall, and
      an unchanged version means an unchanged balance row and ledger. */
  predicate Witnessed(before: DB, after: DB, account: int) {
    account in before.balances && account in after.balances ==>
      var r, s := before.balances[account], after.balances[account];
      r.version <= s.version
      && (r.version == s.version ==> r == s && EntriesOn(before.entries, account) == EntriesOn(after.entries, account))
  }

  lemma {:induction false} EntriesOnAppend(entries: seq<Entry>, id: int, lines: seq<Line>, account: int)
    requires account !in Touched(lines)
    ensures EntriesOn(entries + EntriesFor(id, lines), account) == EntriesOn(entries, account)
    decreases |lines|
  {
    var all := entries + EntriesFor(id, lines);
    if lines == [] {
      assert all == entries;
    } else {
      var init, l := lines[..|lines| - 1], lines[|lines| - 1];
      assert l in lines;
      EntriesOnAppend(entries, id, init, account);
      assert all[..|all| - 1] == entries + EntriesFor(id, init);
    }
  }

  lemma {:induction false} EntriesOnWithout(entries: seq<Entry>, id: int, account: int)
    requires account !in Touched(LinesOf(entries, id))
    ensures EntriesOn(Without(entries, id), account) == EntriesOn(entries, account)
  {
    if entries != [] {
      var init, e := entries[..|entries| - 1], entries[|entries| - 1];
      assert LinesOf(entries, id) == if e.txn == id then LinesOf(init, id) + [e.line] else LinesOf(init, id);
      assert Touched(LinesOf(init, id)) <= Touched(LinesOf(entries, id));
      EntriesOnWithout(init, id, account);
      if e.txn == id {
        assert e.line in LinesOf(entries, id);
      } else {
        var es := Without(entries, id);
        assert es[..|es| - 1] == Without(init, id);
      }
    }
  }

  lemma {:induction false} EntriesOnWithoutAccount(entries: seq<Entry>, closed: int, account: int)
    requires closed != account
    ensures EntriesOn(WithoutAccount(entries, closed), account) == EntriesOn(entries, account)
  {
    if entries != [] {
      var init, e := entries[..|entries| - 1], entries[|entries| - 1];
      EntriesOnWithoutAccount(init, closed, account);
      if e.line.account != closed {
        var es := WithoutAccount(entries, closed);
        assert es[..|es| - 1] == WithoutAccount(init, closed);
      }
    }
  }

  lemma CreateWitnessed(db: DB, id: int, user: int, req: Request, key: string, account: int)
    requires CreateTxn(db, id, user, req, key).Inserted?
    ensures Witnessed(db, CreateTxn(db, id, user, req, key).db, account)
  {
    DistinctRequest(req);
    WalkMeaning(Post, db.balances, id, LinesFor(req));
    if account !in Touched(LinesFor(req)) {
      EntriesOnAppend(db.entries, id, LinesFor(req), account);
    }
  }

  lemma DeleteWitnessed(db: DB, id: int, user: int, account: int)
    requires DistinctLines(db.entries) && LastNamed(db) && DeleteTxn(db, id, user).Deleted?
    ensures Witnessed(db, DeleteTxn(db, id, user).db, account)
  {
    var lines := LinesOf(db.entries, id);
    assert Distinct(lines);
    WalkMeaning(Reverse, db.balances, id, lines);
    if account !in Touched(lines) {
      EntriesOnWithout(db.entries, id, account);
    }
  }

  lemma ApplyWitnessed(db: DB, opening: map<int, int>, op: Op, account: int)
    requires Sound(db, opening) && Apply(db, op).Some? && account in db.balances
    requires !(op.CloseAccount? && op.account == account)
    ensures account in Apply(db, op).value.balances && Witnessed(db, Apply(db, op).value, account)
  {
    match op {
      case OpenAccount(_, _, _) =>
      case CloseAccount(a, _) => EntriesOnWithoutAccount(db.entries, a, account);
      case Create(id, user, req, key) =>
        DistinctRequest(req);
        WalkMeaning(Post, db.balances, id, LinesFor(req));
        CreateWitnessed(db, id, user, req, key, account);
      case Delete(id, user) =>
        assert Distinct(LinesOf(db.entries, id));
        WalkMeaning(Reverse, db.balances, id, LinesOf(db.entries, id));
        DeleteWitnessed(db, id, user, account);
      case Edit(_, _, _, _) =>
      case Fix(_) =>
    }
  }

  lemma {:induction false} PrefixLeads(ops: seq<Op>, k: nat, db: DB)
    requires Leads(ops, db) && k <= |ops|
    ensures Replay(EMPTY_DB, ops[..k]).Some? && Leads(ops[..k], Replay(EMPTY_DB, ops[..k]).value)
    decreases |ops|
  {
    if k == |ops| {
      assert ops[..k] == ops;
    } else {
      var init := ops[..|ops| - 1];
      PrefixLeads(init, k, Replay(EMPTY_DB, init).value);
      assert init[..k] == ops[..k];
    }
  }

  predicate KeepsOpen(ops: seq<Op>, from: nat, account: int)
    requires from <= |ops|
  {
    forall k :: from <= k < |ops| ==> !(ops[k].CloseAccount? && ops[k].account == account)
  }

  /** Over any stretch of history in which an account stays open its version
      never falls, and if it ends where it began nothing about the account's
      balance or ledger has changed. */
  lemma {:induction false} VersionWitnessesChange(ops: seq<Op>, k: nat, before: DB, after: DB, account: int)
    requires k <= |ops| && Leads(ops[..k], before) && Leads(ops, after)
    requires account in before.balances && KeepsOpen(ops, k, account)
    ensures account in after.balances && Witnessed(before, after, account)
    decreases |ops|
  {
    if k == |ops| {
      assert ops[..k] == ops;
    } else {
      var init := ops[..|ops| - 1];
      var mid := Replay(EMPTY_DB, init).value;
      assert init[..k] == ops[..k];
      VersionWitnessesChange(init, k, before, mid, account);
      ReachableIsSound(init, mid);
      ApplyWitnessed(mid, Openings(init), ops[|ops| - 1], account);
    }
  }

  // ---- what a create answers ----

  /** What validation asks of a request, field by field. */
  predicate Proper(req: Request) {
    && req.amount > 0 && req.cost >= 0 && (req.IncomeOf? ==> req.cost == 0)
    && (forall a :: a in Parties(req) ==> a > 0) && (req.TransferOf? ==> req.from != req.to)
  }

  function Parties(req: Request): set<int> {
    if req.TransferOf? then {req.from, req.to} else {req.account}
  }

  predicate AllMine(accounts: map<int, int>, user: int, req: Request) {
    forall a :: a in Parties(req) ==> a in accounts && accounts[a] == user
  }

  /** Money leaves an expense's account and a transfer's source, fee included. */
  function Outlay(req: Request, account: int): int {
    match req
    case IncomeOf(_, _, _, _, _) => 0
    case ExpenseOf(payer, amount, cost, _, _) => if account == payer then amount + cost else 0
    case TransferOf(from, _, amount, cost, _) => if account == from then amount + cost else 0
  }

  function Receipt(req: Request, account: int): int {
    match req
    case IncomeOf(payee, amount, _, _, _) => if account == payee then amount else 0
    case ExpenseOf(_, _, _, _, _) => 0
    case TransferOf(_, to, amount, _, _) => if account == to then amount else 0
  }

  /** Every account can pay what the request takes from it. */
  predicate CanPay(balances: Balances, req: Request) {
    forall a :: a in Parties(req) ==> a in balances && balances[a].balance >= Outlay(req, a)
  }

  predicate KeyOf(txns: map<int, TxnRow>, user: int, key: string, mine: bool) {
    key != "" && exists t :: t in txns && txns[t].key == key && (txns[t].user == user <==> mine)
  }

  lemma RequestFacts(db: DB, opening: map<int, int>, user: int, req: Request)
    requires Referential(db) && Cached(db, opening)
    ensures ValidRequest(req) <==> Proper(req)
    ensures Owns(db, user, req) <==> AllMine(db.accounts, user, req)
    ensures Proper(req) && Owns(db, user, req) ==>
              (Walkable(Post, db.balances, LinesFor(req)) <==> CanPay(db.balances, req))
  {
    ProperIsValid(req);
    var lines := LinesFor(req);
    assert lines[0] in lines && lines[|lines| - 1] in lines;
    assert forall l :: l in lines ==> l == lines[0] || l == lines[|lines| - 1];
    assert Parties(req) == {lines[0].account, lines[|lines| - 1].account};
  }

  lemma ProperIsValid(req: Request)
    ensures ValidRequest(req) <==> Proper(req)
  {
    if req.TransferOf? {
      assert req.from in Parties(req) && req.to in Parties(req);
    } else {
      assert req.account in Parties(req);
    }
  }

  lemma WalkOutcome(db: DB, opening: map<int, int>, id: int, user: int, req: Request)
    requires Referential(db) && Cached(db, opening) && Proper(req) && AllMine(db.accounts, user, req)
    ensures var walked := Walk(Post, db.balances, id, LinesFor(req));
            if CanPay(db.balances, req) then walked.Ok? else walked == Err(InsufficientFunds)
  {
    RequestFacts(db, opening, user, req);
    DistinctRequest(req);
    WalkMeaning(Post, db.balances, id, LinesFor(req));
    NoneMissing(Post, db.balances, id, LinesFor(req));
  }

  lemma {:induction false} NoneMissing(dir: Direction, b: Balances, id: int, lines: seq<Line>)
    requires forall l :: l in lines ==> l.account in b
    ensures match Walk(dir, b, id, lines)
            case Ok(done) => done.Keys == b.Keys
            case Err(e) => e == InsufficientFunds
  {
    if lines != [] {
      var init, last := lines[..|lines| - 1], lines[|lines| - 1];
      assert lines == init + [last];
      NoneMissing(dir, b, id, init);
    }
  }

  /** Exactly when a create gives which answer, in terms of the request's fields
      and the rows. */
  lemma CreateMeaning(db: DB, opening: map<int, int>, id: int, user: int, req: Request, key: string)
    requires Sound(db, opening)
    ensures var r := CreateTxn(db, id, user, req, key);
            if !Proper(req) then r == CreateFailed(Invalid)
            else if !AllMine(db.accounts, user, req) then r == CreateFailed(NotFound)
            else if KeyOf(db.txns, user, key, true) then r.Replayed? && Holds(db.txns, user, key, r.id)
            else if KeyOf(db.txns, user, key, false) then r == CreateFailed(KeyTaken)
            else if !CanPay(db.balances, req) then r == CreateFailed(InsufficientFunds)
            else r.Inserted?
  {
    RequestFacts(db, opening, user, req);
    if Proper(req) && AllMine(db.accounts, user, req) {
      WalkOutcome(db, opening, id, user, req);
      KeyFacts(db.txns, user, key);
    }
  }

  lemma KeyFacts(txns: map<int, TxnRow>, user: int, key: string)
    ensures Replays(txns, user, key) <==> KeyOf(txns, user, key, true)
    ensures KeyUsed(txns, key) <==> KeyOf(txns, user, key, true) || KeyOf(txns, user, key, false)
  {
    if t :| t in txns && txns[t].key == key && txns[t].user == user {
      assert Holds(txns, user, key, t);
    }
  }

  /** What an inserting create moves. */
  lemma CreateMoves(db: DB, id: int, user: int, req: Request, key: string, a: int)
    requires CreateTxn(db, id, user, req, key).Inserted? && a in db.balances
    ensures var after := CreateTxn(db, id, user, req, key).db;
            a in after.balances
            && after.balances[a].balance == db.balances[a].balance + Receipt(req, a) - Outlay(req, a)
            && (a !in Parties(req) ==> after.balances[a] == db.balances[a])
  {
    var lines := LinesFor(req);
    DistinctRequest(req);
    WalkMeaning(Post, db.balances, id, lines);
    assert lines[0] in lines && lines[|lines| - 1] in lines;
    assert forall l :: l in lines ==> l == lines[0] || l == lines[|lines| - 1];
    DeltaOfDistinct(lines, a);
  }

  // ---- idempotency keys ----

  /** Exactly when a keyed create moves money, replays, or is refused. */
  lemma KeyedOutcome(db: DB, opening: map<int, int>, id: int, user: int, req: Request, key: string)
    requires Sound(db, opening) && key != "" && ValidRequest(req) && Owns(db, user, req)
    ensures var r := CreateTxn(db, id, user, req, key);
            && (r.Replayed? <==> exists t :: t in db.txns && db.txns[t].key == key && db.txns[t].user == user)
            && (r.Replayed? ==> Holds(db.txns, user, key, r.id))
            && (r == CreateFailed(KeyTaken) <==>
                exists t :: t in db.txns && db.txns[t].key == key && db.txns[t].user != user)
            && (r.Inserted? <==> (forall t :: t in db.txns ==> db.txns[t].key != key)
                                 && Walkable(Post, db.balances, LinesFor(req)))
  {
    DistinctRequest(req);
    WalkMeaning(Post, db.balances, id, LinesFor(req));
    WalkErrors(Post, db.balances, id, LinesFor(req));
    if t :| t in db.txns && db.txns[t].key == key && db.txns[t].user == user {
      assert Holds(db.txns, user, key, t);
    }
  }

  lemma {:induction false} WalkErrors(dir: Direction, b: Balances, id: int, lines: seq<Line>)
    ensures Walk(dir, b, id, lines).Err? ==> Walk(dir, b, id, lines).error in {MissingBalance, InsufficientFunds}
  {
    if lines != [] {
      WalkErrors(dir, b, id, lines[..|lines| - 1]);
    }
  }

  const TWO_ACCOUNTS := Open(Open(EMPTY_DB, 1, 1, 0), 2, 2, 0)

  lemma OpenTwo()
    ensures Leads([OpenAccount(1, 1, 0), OpenAccount(2, 2, 0)], TWO_ACCOUNTS)
  {
    var o1, o2 := OpenAccount(1, 1, 0), OpenAccount(2, 2, 0);
    assert Leads([o1], Open(EMPTY_DB, 1, 1, 0)) by { assert [o1][..0] == []; }
    assert [o1, o2][..1] == [o1];
  }

  lemma PayIn(ops: seq<Op>, db: DB, id: int, user: int, account: int, key: string)
    requires Leads(ops, db) && id !in db.txns && account > 0 && account in db.accounts && db.accounts[account] == user
    requires !KeyUsed(db.txns, key)
    ensures var income := IncomeOf(account, 500, 0, 7, Date(2024, 1, 1));
            CreateTxn(db, id, user, income, key).Inserted?
            && Leads(ops + [Create(id, user, income, key)], CreateTxn(db, id, user, income, key).db)
  {
    var income := IncomeOf(account, 500, 0, 7, Date(2024, 1, 1));
    ReachableIsSound(ops, db);
    WalkMeaning(Post, db.balances, id, LinesFor(income));
    assert !Replays(db.txns, user, key);
    var op := Create(id, user, income, key);
    assert (ops + [op])[..|ops|] == ops;
  }

  /** The same key under another user is not independent: with one account
      each, user 2 is refused because user 1 used the key. */
  lemma KeysCollideAcrossUsers()
    ensures var income := IncomeOf(1, 500, 0, 7, Date(2024, 1, 1));
            var other := IncomeOf(2, 500, 0, 7, Date(2024, 1, 1));
            var ops := [OpenAccount(1, 1, 0), OpenAccount(2, 2, 0)] + [Create(10, 1, income, "k")];
            exists db :: Leads(ops, db) && CreateTxn(db, 11, 2, other, "").Inserted?
                      && CreateTxn(db, 11, 2, other, "k") == CreateFailed(KeyTaken)
  {
    var income := IncomeOf(1, 500, 0, 7, Date(2024, 1, 1));
    var other := IncomeOf(2, 500, 0, 7, Date(2024, 1, 1));
    var start := [OpenAccount(1, 1, 0), OpenAccount(2, 2, 0)];
    OpenTwo();
    PayIn(start, TWO_ACCOUNTS, 10, 1, 1, "k");
    var ops, db := start + [Create(10, 1, income, "k")], CreateTxn(TWO_ACCOUNTS, 10, 1, income, "k").db;
    RowCreated(TWO_ACCOUNTS, Create(10, 1, income, "k"));
    PayIn(ops, db, 11, 2, 2, "");
    ReachableIsSound(ops, db);
    KeyedOutcome(db, Openings(ops), 11, 2, other, "k");
  }

  predicate DeletedWithin(ops: seq<Op>, from: nat, to: nat, id: int)
    requires to <= |ops|
  {
    exists k :: from <= k < to && ops[k].Delete? && ops[k].id == id
  }

  lemma RowStays(db: DB, op: Op, id: int, d: Date)
    requires id in db.txns && Apply(db, op).Some? && !(op.Delete? && op.id == id)
    ensures id in Apply(db, op).value.txns && Apply(db, op).value.txns[id].(date := d) == db.txns[id].(date := d)
  {}

  lemma RowCreated(db: DB, op: Op)
    requires op.Create? && Apply(db, op).Some?
    ensures op.id in Apply(db, op).value.txns && Apply(db, op).value.txns[op.id] == RowFor(op.user, op.req, op.key)
  {}

  lemma DeletedLater(ops: seq<Op>, from: nat, to: nat, id: int)
    requires to < |ops|
    ensures DeletedWithin(ops[..|ops| - 1], from, to, id) ==>
        DeletedWithin(ops, from, to, id) && DeletedWithin(ops, from, |ops|, id)
  {
    var init := ops[..|ops| - 1];
    if DeletedWithin(init, from, to, id) {
      var k :| from <= k < to && init[k].Delete? && init[k].id == id;
      assert ops[k] == init[k];
    }
  }

  /** A created row stays, with its owner, kind, cost and key, until its delete. */
  lemma {:induction false} CreatedRowPersists(ops: seq<Op>, p: nat, db: DB)
    requires Leads(ops, db) && p < |ops| && ops[p].Create?
    ensures DeletedWithin(ops, p, |ops|, ops[p].id)
         || (ops[p].id in db.txns
             && db.txns[ops[p].id].(date := ops[p].req.date) == RowFor(ops[p].user, ops[p].req, ops[p].key))
    decreases |ops|
  {
    var init, last := ops[..|ops| - 1], ops[|ops| - 1];
    var before := Replay(EMPTY_DB, init).value;
    if p < |init| {
      assert init[p] == ops[p];
      CreatedRowPersists(init, p, before);
      DeletedLater(ops, p, |init|, ops[p].id);
      if last.Delete? && last.id == ops[p].id {
        assert ops[|ops| - 1].Delete?;
      } else if !DeletedWithin(init, p, |init|, ops[p].id) {
        RowStays(before, last, ops[p].id, ops[p].req.date);
      }
    } else {
      RowCreated(before, last);
    }
  }

  /** One key, one transaction: two committed creates under one key, by
      whatever users, have a delete of the first between them. */
  lemma KeyReuseNeedsDelete(ops: seq<Op>, db: DB, p: nat, q: nat)
    requires Leads(ops, db) && p < q < |ops| && ops[p].Create? && ops[q].Create?
    requires ops[p].key == ops[q].key != ""
    ensures DeletedWithin(ops, p, q, ops[p].id)
  {
    PrefixLeads(ops, q + 1, db);
    PrefixLeads(ops, q, db);
    var prefix, next := ops[..q], ops[..q + 1];
    var before := Replay(EMPTY_DB, prefix).value;
    assert next[..|next| - 1] == prefix && next[|next| - 1] == ops[q];
    CreateNeedsFreeKey(before, ops[q]);
    assert prefix[p] == ops[p];
    CreatedRowPersists(prefix, p, before);
    var k :| p <= k < q && prefix[k].Delete? && prefix[k].id == ops[p].id;
    assert ops[k] == prefix[k];
  }

  lemma CreateNeedsFreeKey(db: DB, op: Op)
    requires op.Create? && op.key != "" && Apply(db, op).Some?
    ensures forall t :: t in db.txns ==> db.txns[t].key != op.key
  {}

  // ---- delete ----

  /** Exactly when a delete goes through, and what it leaves: every balance is
      again its opening plus the surviving entries. */
  lemma DeleteMeaning(db: DB, opening: map<int, int>, id: int, user: int)
    requires Sound(db, opening)
    ensures DeleteTxn(db, id, user).Deleted? <==>
              id in db.txns && db.txns[id].user == user
              && forall l :: l in LinesOf(db.entries, id) ==>
                   l.account in db.balances && db.balances[l.account].balance - l.amount >= 0
    ensures DeleteTxn(db, id, user).Deleted? ==>
              var after := DeleteTxn(db, id, user).db;
              after.txns.Keys == db.txns.Keys - {id}
              && forall a :: a in db.balances ==>
                   a in after.balances
                       && after.balances[a].balance == opening[a] + LedgerSum(Without(db.entries, id), a)
  {
    var lines := LinesOf(db.entries, id);
    assert Distinct(lines);
    WalkMeaning(Reverse, db.balances, id, lines);
    forall l | l in lines ensures l.account in db.balances {
      LiveLines(db, id, l);
    }
    if DeleteTxn(db, id, user).Deleted? {
      DeleteCached(db, opening, id, user);
    }
  }

  lemma {:induction false} WithoutFresh(entries: seq<Entry>, id: int, lines: seq<Line>)
    requires forall e :: e in entries ==> e.txn != id
    ensures Without(entries + EntriesFor(id, lines), id) == entries
    decreases |entries| + |lines|
  {
    var all := entries + EntriesFor(id, lines);
    if lines != [] {
      WithoutFresh(entries, id, lines[..|lines| - 1]);
      assert all[..|all| - 1] == entries + EntriesFor(id, lines[..|lines| - 1]);
    } else if entries != [] {
      var init := entries[..|entries| - 1];
      assert all == entries && entries[|entries| - 1] in entries;
      WithoutFresh(init, id, []);
      assert init + EntriesFor(id, []) == init;
    }
  }

  lemma {:induction false} LinksWithoutFresh(links: seq<Link>, id: int, categories: seq<int>)
    requires forall k :: k in links ==> k.txn != id
    ensures LinksWithout(links + LinksFor(id, categories), id) == links
    decreases |links| + |categories|
  {
    var all := links + LinksFor(id, categories);
    if categories != [] {
      LinksWithoutFresh(links, id, categories[..|categories| - 1]);
      assert all[..|all| - 1] == links + LinksFor(id, categories[..|categories| - 1]);
    } else if links != [] {
      var init := links[..|links| - 1];
      assert all == links && links[|links| - 1] in links;
      LinksWithoutFresh(init, id, []);
      assert init + LinksFor(id, []) == init;
    }
  }

  lemma UnnamedFresh(db: DB, id: int)
    requires Referential(db) && LastNamed(db) && id !in db.txns
    ensures forall a :: a in db.balances ==> db.balances[a].lastTxn != Some(id)
  {
    NoEntriesNoLines(db.entries, id);
  }

  /** What a delete right after a create leaves of the balances. */
  function TwoVersionsOn(b: Balances, touched: set<int>): Balances {
    map a | a in b :: if a in touched then BalanceRow(b[a].balance, None, b[a].version + 2) else b[a]
  }

  lemma ForgetAfterReverse(b: Balances, posted: Balances, id: int, lines: seq<Line>, undone: Balances)
    requires Distinct(lines) && posted == WalkResult(Post, b, id, lines)
    requires undone == WalkResult(Reverse, posted, id, lines)
    requires forall a :: a in b ==> b[a].lastTxn != Some(id)
    ensures Forget(undone, id) == TwoVersionsOn(b, Touched(lines))
  {
    var f := Forget(undone, id);
    assert f.Keys == b.Keys;
    forall a | a in b
      ensures f[a] == if a in Touched(lines) then BalanceRow(b[a].balance, None, b[a].version + 2) else b[a]
    {
      assert undone[a] == if a in Touched(lines) then Moved(Reverse, posted[a], id, Delta(lines, a)) else b[a];
    }
  }

  lemma PostThenReverseWalk(db: DB, opening: map<int, int>, id: int, lines: seq<Line>, posted: Balances)
    requires Sound(db, opening) && id !in db.txns && Distinct(lines) && Walk(Post, db.balances, id, lines) == Ok(posted)
    ensures Walk(Reverse, posted, id, lines).Ok?
    ensures Forget(Walk(Reverse, posted, id, lines).balances, id) == TwoVersionsOn(db.balances, Touched(lines))
  {
    PostThenReverse(db.balances, id, lines);
    WalkMeaning(Post, db.balances, id, lines);
    WalkMeaning(Reverse, posted, id, lines);
    UnnamedFresh(db, id);
    ForgetAfterReverse(db.balances, posted, id, lines, Walk(Reverse, posted, id, lines).balances);
  }

  lemma RowRemoved(txns: map<int, TxnRow>, id: int, row: TxnRow)
    requires id !in txns
    ensures txns[id := row] - {id} == txns
  {}

  lemma FreshInTables(db: DB, id: int)
    requires Referential(db) && id !in db.txns
    ensures (forall e :: e in db.entries ==> e.txn != id) && (forall k :: k in db.links ==> k.txn != id)
  {}

  lemma RemoveInserted(db: DB, id: int, user: int, req: Request, key: string, posted: Balances, undone: Balances)
    requires Referential(db) && id !in db.txns
    ensures Remove(Insert(db, id, user, req, key, posted), id, undone) == db.(balances := Forget(undone, id))
  {
    var lines, categories, row := LinesFor(req), CategoriesFor(req), RowFor(user, req, key);
    FreshInTables(db, id);
    WithoutFresh(db.entries, id, lines);
    LinksWithoutFresh(db.links, id, categories);
    RowRemoved(db.txns, id, row);
    RemoveParts(DB(db.accounts, posted, db.txns[id := row], db.entries + EntriesFor(id, lines),
                   db.links + LinksFor(id, categories)),
                id, undone, db);
  }

  lemma RemoveParts(made: DB, id: int, undone: Balances, db: DB)
    requires made.accounts == db.accounts && made.txns - {id} == db.txns
    requires Without(made.entries, id) == db.entries && LinksWithout(made.links, id) == db.links
    ensures Remove(made, id, undone) == db.(balances := Forget(undone, id))
  {}

  /** Deleting a transaction right after creating it always succeeds and puts
      back every table, except that touched rows are two versions on and no
      longer name a last transaction. */
  lemma DeleteUndoesCreate(db: DB, opening: map<int, int>, id: int, user: int, req: Request, key: string)
    requires Sound(db, opening) && id !in db.txns && CreateTxn(db, id, user, req, key).Inserted?
    ensures DeleteTxn(CreateTxn(db, id, user, req, key).db, id, user)
         == Deleted(db.(balances := TwoVersionsOn(db.balances, Touched(LinesFor(req)))))
  {
    InsertedWalk(db, id, user, req, key);
    var lines, posted := LinesFor(req), Walk(Post, db.balances, id, LinesFor(req)).balances;
    InsertEntries(db, id, req);
    DistinctRequest(req);
    PostThenReverseWalk(db, opening, id, lines, posted);
    var undone := Walk(Reverse, posted, id, lines).balances;
    RemoveInserted(db, id, user, req, key, posted, undone);
    DeleteInserted(Insert(db, id, user, req, key, posted), id, user, lines, undone);
  }

  lemma InsertedWalk(db: DB, id: int, user: int, req: Request, key: string)
    requires CreateTxn(db, id, user, req, key).Inserted?
    ensures ValidRequest(req) && Walk(Post, db.balances, id, LinesFor(req)).Ok?
    ensures CreateTxn(db, id, user, req, key).db
         == Insert(db, id, user, req, key, Walk(Post, db.balances, id, LinesFor(req)).balances)
  {}

  lemma DeleteInserted(made: DB, id: int, user: int, lines: seq<Line>, undone: Balances)
    requires id in made.txns && made.txns[id].user == user && LinesOf(made.entries, id) == lines
    requires Walk(Reverse, made.balances, id, lines) == Ok(undone)
    ensures DeleteTxn(made, id, user) == Deleted(Remove(made, id, undone))
  {}

  // ---- reconciliation ----

  /** The discrepancy a reconciliation reports is the negated opening balance; a
      fix is made exactly when that is not zero and the ledger sum is not
      negative; and after it there is nothing left to fix. */
  lemma ReconcileMeaning(ops: seq<Op>, db: DB, account: int)
    requires Leads(ops, db) && account in db.balances
    ensures account in Openings(ops)
    ensures LedgerSum(db.entries, account) - db.balances[account].balance == -Openings(ops)[account]
    ensures Apply(db, Fix(account)).Some? <==> Openings(ops)[account] != 0 && LedgerSum(db.entries, account) >= 0
    ensures Apply(db, Fix(account)).Some? ==>
              var after := Apply(db, Fix(account)).value;
              Leads(ops + [Fix(account)], after) && account in Openings(ops + [Fix(account)])
              && Openings(ops + [Fix(account)])[account] == 0 && Apply(after, Fix(account)) == None
  {
    ReachableIsSound(ops, db);
    assert (ops + [Fix(account)])[..|ops|] == ops;
  }
}
