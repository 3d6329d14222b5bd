/** What every history of the sequential engine keeps: referential integrity,
    one line per account and transaction, unique keys, the last-transaction
    pointer, and the balance cache. */
module Invariants {
  import opened Common
  import opened Calendar
  import opened Tables
  import opened Engine

  ghost predicate Referential(db: DB) {
    && db.accounts.Keys == db.balances.Keys
    && (forall e :: e in db.entries ==>
          e.txn in db.txns && e.line.account in db.accounts && db.accounts[e.line.account] == db.txns[e.txn].user)
    && (forall k :: k in db.links ==> k.txn in db.txns)
  }

  ghost predicate DistinctLines(entries: seq<Entry>) {
    forall id :: Distinct(LinesOf(entries, id))
  }

  ghost predicate KeysUnique(txns: map<int, TxnRow>) {
    forall s, t :: s in txns && t in txns && txns[s].key == txns[t].key && txns[s].key != "" ==> s == t
  }

  /** A named last transaction has a movement on that very account. */
  ghost predicate LastNamed(db: DB) {
    forall a :: a in db.balances && db.balances[a].lastTxn.Some? ==>
      a in Touched(LinesOf(db.entries, db.balances[a].lastTxn.value))
  }

  /** The cached balance is never negative and is the opening balance plus the
      ledger. */
  ghost predicate Cached(db: DB, opening: map<int, int>) {
    forall a :: a in db.balances ==>
      a in opening && db.balances[a].balance >= 0
      && db.balances[a].balance == opening[a] + LedgerSum(db.entries, a)
  }

  ghost predicate Sound(db: DB, opening: map<int, int>) {
    Referential(db) && DistinctLines(db.entries) && KeysUnique(db.txns) && LastNamed(db) && Cached(db, opening)
  }

  lemma DistinctRequest(req: Request)
    requires ValidRequest(req)
    ensures Distinct(LinesFor(req))
  {}

  lemma LiveLines(db: DB, id: int, l: Line)
    requires Referential(db) && l in LinesOf(db.entries, id)
    ensures id in db.txns && l.account in db.balances && db.accounts[l.account] == db.txns[id].user
  {
    LinesOfMembers(db.entries, id);
  }

  // ---- create ----

  lemma AppendKeepsDistinct(entries: seq<Entry>, id: int, lines: seq<Line>)
    requires Distinct(lines) && DistinctLines(entries) && LinesOf(entries, id) == []
    ensures LinesOf(entries + EntriesFor(id, lines), id) == lines
    ensures DistinctLines(entries + EntriesFor(id, lines))
  {
    forall t ensures Distinct(LinesOf(entries + EntriesFor(id, lines), t)) {
      LinesOfAppend(entries, id, lines, t);
      assert Distinct(LinesOf(entries, t));
    }
    LinesOfAppend(entries, id, lines, id);
  }

  lemma InsertEntries(db: DB, id: int, req: Request)
    requires ValidRequest(req) && Referential(db) && DistinctLines(db.entries) && id !in db.txns
    ensures LinesOf(db.entries, id) == []
    ensures LinesOf(db.entries + EntriesFor(id, LinesFor(req)), id) == LinesFor(req)
    ensures DistinctLines(db.entries + EntriesFor(id, LinesFor(req)))
  {
    NoEntriesNoLines(db.entries, id);
    DistinctRequest(req);
    AppendKeepsDistinct(db.entries, id, LinesFor(req));
  }

  lemma CreateReferential(db: DB, id: int, user: int, req: Request, key: string)
    requires Referential(db) && id !in db.txns && CreateTxn(db, id, user, req, key).Inserted?
    ensures Referential(CreateTxn(db, id, user, req, key).db)
  {
    DistinctRequest(req);
    WalkMeaning(Post, db.balances, id, LinesFor(req));
    var after := CreateTxn(db, id, user, req, key).db;
    forall e | e in after.entries
      ensures e.txn in after.txns && e.line.account in after.accounts
      ensures after.accounts[e.line.account] == after.txns[e.txn].user
    {
      if e !in db.entries {
        assert e in EntriesFor(id, LinesFor(req));
      }
    }
    forall k | k in after.links ensures k.txn in after.txns {
      if k !in db.links {
        assert k in LinksFor(id, CategoriesFor(req));
      }
    }
  }

  lemma CreateKeysUnique(db: DB, id: int, user: int, req: Request, key: string)
    requires KeysUnique(db.txns) && id !in db.txns && CreateTxn(db, id, user, req, key).Inserted?
    ensures KeysUnique(CreateTxn(db, id, user, req, key).db.txns)
  {
    assert key != "" ==> forall t :: t in db.txns ==> db.txns[t].key != key;
  }

  lemma PointerStays(entries: seq<Entry>, id: int, lines: seq<Line>, named: int, a: int)
    requires a in Touched(LinesOf(entries, named))
    ensures a in Touched(LinesOf(entries + EntriesFor(id, lines), named))
  {
    LinesOfAppend(entries, id, lines, named);
    var l :| l in LinesOf(entries, named) && l.account == a;
    assert l in LinesOf(entries + EntriesFor(id, lines), named);
  }

  lemma CreateLastNamed(db: DB, id: int, user: int, req: Request, key: string)
    requires Referential(db) && DistinctLines(db.entries) && LastNamed(db) && id !in db.txns
    requires CreateTxn(db, id, user, req, key).Inserted?
    ensures LastNamed(CreateTxn(db, id, user, req, key).db)
  {
    var lines, after := LinesFor(req), CreateTxn(db, id, user, req, key).db;
    InsertedEntries(db, id, user, req, key);
    DistinctRequest(req);
    WalkMeaning(Post, db.balances, id, lines);
    InsertEntries(db, id, req);
    assert after.balances == WalkResult(Post, db.balances, id, lines);
    forall a | a in after.balances && after.balances[a].lastTxn.Some?
      ensures a in Touched(LinesOf(after.entries, after.balances[a].lastTxn.value))
    {
      if a !in Touched(lines) {
        PointerStays(db.entries, id, lines, db.balances[a].lastTxn.value, a);
      }
    }
  }

  lemma CreateCached(db: DB, opening: map<int, int>, id: int, user: int, req: Request, key: string)
    requires Cached(db, opening) && CreateTxn(db, id, user, req, key).Inserted?
    ensures Cached(CreateTxn(db, id, user, req, key).db, opening)
  {
    var lines, after := LinesFor(req), CreateTxn(db, id, user, req, key).db;
    DistinctRequest(req);
    WalkMeaning(Post, db.balances, id, lines);
    forall a | a in after.balances
      ensures after.balances[a].balance >= 0 && after.balances[a].balance == opening[a] + LedgerSum(after.entries, a)
    {
      DeltaOfDistinct(lines, a);
      LedgerSumAppend(db.entries, id, lines, a);
    }
  }

  lemma InsertedEntries(db: DB, id: int, user: int, req: Request, key: string)
    requires CreateTxn(db, id, user, req, key).Inserted?
    ensures ValidRequest(req)
    ensures CreateTxn(db, id, user, req, key).db.entries == db.entries + EntriesFor(id, LinesFor(req))
  {}

  lemma CreateDistinct(db: DB, id: int, user: int, req: Request, key: string)
    requires Referential(db) && DistinctLines(db.entries) && id !in db.txns
    requires CreateTxn(db, id, user, req, key).Inserted?
    ensures DistinctLines(CreateTxn(db, id, user, req, key).db.entries)
  {
    var after := CreateTxn(db, id, user, req, key).db.entries;
    assert ValidRequest(req) && after == db.entries + EntriesFor(id, LinesFor(req)) by {
      InsertedEntries(db, id, user, req, key);
    }
    InsertEntries(db, id, req);
    assert DistinctLines(after);
  }

  lemma CreateKeepsSound(db: DB, opening: map<int, int>, id: int, user: int, req: Request, key: string)
    requires Sound(db, opening) && id !in db.txns && CreateTxn(db, id, user, req, key).Inserted?
    ensures Sound(CreateTxn(db, id, user, req, key).db, opening)
  {
    CreateReferential(db, id, user, req, key);
    CreateDistinct(db, id, user, req, key);
    CreateKeysUnique(db, id, user, req, key);
    CreateLastNamed(db, id, user, req, key);
    CreateCached(db, opening, id, user, req, key);
  }

  // ---- delete ----

  lemma RemoveEntries(entries: seq<Entry>, id: int)
    requires DistinctLines(entries)
    ensures DistinctLines(Without(entries, id))
  {
    forall t ensures Distinct(LinesOf(Without(entries, id), t)) {
      LinesOfWithout(entries, id, t);
      assert Distinct(LinesOf(entries, t));
    }
  }

  lemma {:induction false} LinksWithoutKeeps(links: seq<Link>, id: int)
    ensures forall k :: k in LinksWithout(links, id) <==> k in links && k.txn != id
  {
    if links != [] {
      var init, k := links[..|links| - 1], links[|links| - 1];
      LinksWithoutKeeps(init, id);
      assert links == init + [k];
    }
  }

  lemma DeleteReferential(db: DB, id: int, user: int)
    requires Referential(db) && DistinctLines(db.entries) && DeleteTxn(db, id, user).Deleted?
    ensures Referential(DeleteTxn(db, id, user).db)
  {
    assert Distinct(LinesOf(db.entries, id));
    WalkMeaning(Reverse, db.balances, id, LinesOf(db.entries, id));
    WithoutKeeps(db.entries, id);
    LinksWithoutKeeps(db.links, id);
  }

  lemma DeleteLastNamed(db: DB, id: int, user: int)
    requires DistinctLines(db.entries) && LastNamed(db) && DeleteTxn(db, id, user).Deleted?
    ensures LastNamed(DeleteTxn(db, id, user).db)
  {
    var lines, after := LinesOf(db.entries, id), DeleteTxn(db, id, user).db;
    assert Distinct(lines);
    WalkMeaning(Reverse, db.balances, id, lines);
    forall a | a in after.balances && after.balances[a].lastTxn.Some?
      ensures a in Touched(LinesOf(after.entries, after.balances[a].lastTxn.value))
    {
      assert after.balances[a].lastTxn == db.balances[a].lastTxn;
      LinesOfWithout(db.entries, id, after.balances[a].lastTxn.value);
    }
  }

  lemma DeleteCached(db: DB, opening: map<int, int>, id: int, user: int)
    requires DistinctLines(db.entries) && Cached(db, opening) && DeleteTxn(db, id, user).Deleted?
    ensures Cached(DeleteTxn(db, id, user).db, opening)
  {
    var lines, after := LinesOf(db.entries, id), DeleteTxn(db, id, user).db;
    assert Distinct(lines);
    WalkMeaning(Reverse, db.balances, id, lines);
    forall a | a in after.balances
      ensures after.balances[a].balance >= 0 && after.balances[a].balance == opening[a] + LedgerSum(after.entries, a)
    {
      DeltaOfDistinct(lines, a);
      LedgerSumWithout(db.entries, id, a);
    }
  }

  lemma DeleteKeepsSound(db: DB, opening: map<int, int>, id: int, user: int)
    requires Sound(db, opening) && DeleteTxn(db, id, user).Deleted?
    ensures Sound(DeleteTxn(db, id, user).db, opening)
  {
    DeleteReferential(db, id, user);
    RemoveEntries(db.entries, id);
    DeleteLastNamed(db, id, user);
    DeleteCached(db, opening, id, user);
  }

  // ---- accounts, metadata, reconciliation ----

  lemma {:induction false} NoMovementNoSum(entries: seq<Entry>, account: int)
    requires forall e :: e in entries ==> e.line.account != account
    ensures LedgerSum(entries, account) == 0
  {
    if entries != [] {
      assert entries[|entries| - 1] in entries;
      NoMovementNoSum(entries[..|entries| - 1], account);
    }
  }

  lemma OpenKeepsSound(db: DB, opening: map<int, int>, a: int, user: int, initial: int)
    requires Sound(db, opening) && a !in db.accounts && initial >= 0
    ensures Sound(Open(db, a, user, initial), opening[a := initial])
  {
    NoMovementNoSum(db.entries, a);
  }

  lemma CloseKeepsSound(db: DB, opening: map<int, int>, a: int)
    requires Sound(db, opening)
    ensures Sound(Close(db, a), opening)
  {
    var after := Close(db, a);
    WithoutAccountFacts(db.entries, a, a);
    forall t ensures Distinct(LinesOf(after.entries, t)) {
      assert Distinct(LinesOf(db.entries, t));
      WithoutAccountLines(db.entries, a, t);
    }
    forall b | b in after.balances && after.balances[b].lastTxn.Some?
      ensures b in Touched(LinesOf(after.entries, after.balances[b].lastTxn.value))
    {
      var t := after.balances[b].lastTxn.value;
      assert b in Touched(LinesOf(db.entries, t));
      assert Distinct(LinesOf(db.entries, t));
      WithoutAccountLines(db.entries, a, t);
    }
    forall b | b in after.balances
      ensures after.balances[b].balance == opening[b] + LedgerSum(after.entries, b)
    {
      WithoutAccountFacts(db.entries, a, b);
    }
  }

  lemma {:induction false} MaxTxnMoves(entries: seq<Entry>, account: int)
    ensures MaxTxn(entries, account).Some? ==> account in Touched(LinesOf(entries, MaxTxn(entries, account).value))
    ensures forall e :: e in entries && e.line.account == account ==>
              MaxTxn(entries, account).Some? && e.txn <= MaxTxn(entries, account).value
  {
    if entries != [] {
      var init, e := entries[..|entries| - 1], entries[|entries| - 1];
      assert entries == init + [e];
      MaxTxnMoves(init, account);
      if MaxTxn(entries, account).Some? {
        LinesOfMembers(init, MaxTxn(entries, account).value);
        LinesOfMembers(entries, MaxTxn(entries, account).value);
      }
    }
  }

  lemma FixKeepsSound(db: DB, opening: map<int, int>, a: int)
    requires Sound(db, opening) && a in db.balances && LedgerSum(db.entries, a) >= 0
    ensures Sound(Fixed(db, a), opening[a := 0])
  {
    MaxTxnMoves(db.entries, a);
  }

  lemma EditKeepsSound(db: DB, opening: map<int, int>, id: int, date: Date, category: Option<int>)
    requires Sound(db, opening) && id in db.txns
    ensures Sound(Edited(db, id, date, category), opening)
  {
    LinksWithoutKeeps(db.links, id);
  }

  lemma ApplyKeepsSound(db: DB, opening: map<int, int>, op: Op)
    requires Sound(db, opening) && Apply(db, op).Some?
    ensures op.OpenAccount? ==> Sound(Apply(db, op).value, opening[op.account := op.initial])
    ensures op.Fix? ==> Sound(Apply(db, op).value, opening[op.account := 0])
    ensures !op.OpenAccount? && !op.Fix? ==> Sound(Apply(db, op).value, opening)
  {
    match op {
      case OpenAccount(a, user, initial) => OpenKeepsSound(db, opening, a, user, initial);
      case CloseAccount(a, _) => CloseKeepsSound(db, opening, a);
      case Create(id, user, req, key) => CreateKeepsSound(db, opening, id, user, req, key);
      case Delete(id, user) => DeleteKeepsSound(db, opening, id, user);
      case Edit(id, _, date, category) => EditKeepsSound(db, opening, id, date, category);
      case Fix(a) => FixKeepsSound(db, opening, a);
    }
  }

  /** Every reachable database is sound; in particular each live account's
      cached balance is non-negative and is its opening plus its ledger sum. */
  lemma {:induction false} ReachableIsSound(ops: seq<Op>, db: DB)
    requires Leads(ops, db)
    ensures Sound(db, Openings(ops))
  {
    if ops != [] {
      var init := ops[..|ops| - 1];
      var before := Replay(EMPTY_DB, init).value;
      ReachableIsSound(init, before);
      ApplyKeepsSound(before, Openings(init), ops[|ops| - 1]);
    }
  }
}
