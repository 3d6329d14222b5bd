/** The sequential ledger engine as functions on the tables: what one committed
    operation does, and what a whole history of them amounts to. */
module Engine {
  import opened Common
  import opened Calendar
  import opened Tables

  // ---- the balance loop of create and delete ----

  datatype Walked = Ok(balances: Balances) | Err(error: Error)

  /** Lock, check and write one balance row. */
  function WalkLine(dir: Direction, b: Balances, id: int, l: Line): Walked {
    if l.account !in b then Err(MissingBalance)
    else if NewBalance(dir, b[l.account], l.amount) < 0 then Err(InsufficientFunds)
    else Ok(b[l.account := Moved(dir, b[l.account], id, l.amount)])
  }

  /** Lock, check and write each line's balance row in turn; the first missing
      row or negative balance abandons the walk. */
  function Walk(dir: Direction, b: Balances, id: int, lines: seq<Line>): Walked {
    if lines == [] then Ok(b) else
      match Walk(dir, b, id, lines[..|lines| - 1])
      case Err(e) => Err(e)
      case Ok(done) => WalkLine(dir, done, id, lines[|lines| - 1])
  }

  lemma {:induction false} WalkStops(dir: Direction, b: Balances, id: int, lines: seq<Line>, k: nat)
    requires k <= |lines| && Walk(dir, b, id, lines[..k]).Err?
    ensures Walk(dir, b, id, lines) == Walk(dir, b, id, lines[..k])
    decreases |lines|
  {
    if k == |lines| {
      assert lines[..k] == lines;
    } else {
      assert lines[..|lines| - 1][..k] == lines[..k];
      WalkStops(dir, b, id, lines[..|lines| - 1], k);
    }
  }

  predicate Walkable(dir: Direction, b: Balances, lines: seq<Line>) {
    forall l :: l in lines ==> l.account in b && NewBalance(dir, b[l.account], l.amount) >= 0
  }

  function WalkResult(dir: Direction, b: Balances, id: int, lines: seq<Line>): Balances {
    map a | a in b :: if a in Touched(lines) then Moved(dir, b[a], id, Delta(lines, a)) else b[a]
  }

  lemma OtherAccounts(lines: seq<Line>)
    requires Distinct(lines) && lines != []
    ensures lines[|lines| - 1].account !in Touched(lines[..|lines| - 1])
    ensures Touched(lines) == Touched(lines[..|lines| - 1]) + {lines[|lines| - 1].account}
    ensures Distinct(lines[..|lines| - 1])
  {
    var init, l := lines[..|lines| - 1], lines[|lines| - 1];
    assert lines == init + [l];
    assert forall x :: x in init ==> x.account != l.account;
  }

  lemma WalkResultLast(dir: Direction, b: Balances, id: int, lines: seq<Line>)
    requires Distinct(lines) && lines != [] && lines[|lines| - 1].account in b
    ensures var init, l := lines[..|lines| - 1], lines[|lines| - 1];
            WalkResult(dir, b, id, init)[l.account] == b[l.account]
            && WalkResult(dir, b, id, lines)
            == WalkResult(dir, b, id, init)[l.account := Moved(dir, b[l.account], id, l.amount)]
  {
    var init, l := lines[..|lines| - 1], lines[|lines| - 1];
    OtherAccounts(lines);
    DeltaOfDistinct(init, l.account);
    assert forall a :: a != l.account ==> Delta(lines, a) == Delta(init, a);
  }

  /** With one line per account, the walk succeeds exactly when every line alone
      is affordable, and moves every touched row once. */
  lemma {:induction false} WalkMeaning(dir: Direction, b: Balances, id: int, lines: seq<Line>)
    requires Distinct(lines)
    ensures Walk(dir, b, id, lines).Ok? <==> Walkable(dir, b, lines)
    ensures Walk(dir, b, id, lines).Ok? ==> Walk(dir, b, id, lines).balances == WalkResult(dir, b, id, lines)
  {
    if lines != [] {
      var init, l := lines[..|lines| - 1], lines[|lines| - 1];
      assert lines == init + [l];
      OtherAccounts(lines);
      WalkMeaning(dir, b, id, init);
      assert Walkable(dir, b, lines) <==>
             Walkable(dir, b, init) && l.account in b && NewBalance(dir, b[l.account], l.amount) >= 0;
      if l.account in b {
        WalkResultLast(dir, b, id, lines);
      }
    }
  }

  lemma SameLines(xs: seq<Line>, ys: seq<Line>)
    requires multiset(xs) == multiset(ys)
    ensures forall l :: l in xs <==> l in ys
    ensures |xs| == |ys|
  {
    forall l ensures l in xs <==> l in ys {
      assert l in xs <==> l in multiset(xs);
      assert l in ys <==> l in multiset(ys);
    }
    assert |xs| == |multiset(xs)| && |ys| == |multiset(ys)|;
  }

  /** The rows of one transaction share a creation time, so their listing order
      is arbitrary. It does not matter: every order succeeds or fails alike and
      leaves the same balances. */
  lemma WalkOrderIndependent(dir: Direction, b: Balances, id: int, xs: seq<Line>, ys: seq<Line>)
    requires Distinct(xs) && Distinct(ys) && multiset(xs) == multiset(ys)
    ensures Walk(dir, b, id, xs).Ok? <==> Walk(dir, b, id, ys).Ok?
    ensures Walk(dir, b, id, xs).Ok? ==> Walk(dir, b, id, xs) == Walk(dir, b, id, ys)
  {
    WalkMeaning(dir, b, id, xs);
    WalkMeaning(dir, b, id, ys);
    SameLines(xs, ys);
    assert Touched(xs) == Touched(ys);
    forall a ensures Delta(xs, a) == Delta(ys, a) {
      DeltaOfDistinct(xs, a);
      DeltaOfDistinct(ys, a);
    }
  }

  /** Reversing what was just posted restores every balance, two versions on. */
  lemma PostThenReverse(b: Balances, id: int, lines: seq<Line>)
    requires Distinct(lines) && Walk(Post, b, id, lines).Ok?
    requires forall a :: a in b ==> b[a].balance >= 0
    ensures var posted := Walk(Post, b, id, lines).balances;
            var undone := Walk(Reverse, posted, id, lines);
            undone.Ok? && undone.balances.Keys == b.Keys
            && forall a :: a in b ==>
                 undone.balances[a].balance == b[a].balance
                 && undone.balances[a].version == b[a].version + (if a in Touched(lines) then 2 else 0)
  {
    var posted := Walk(Post, b, id, lines).balances;
    WalkMeaning(Post, b, id, lines);
    WalkMeaning(Reverse, posted, id, lines);
    forall l | l in lines
      ensures l.account in posted && NewBalance(Reverse, posted[l.account], l.amount) >= 0
    {
      DeltaOfDistinct(lines, l.account);
    }
  }

  // ---- create and delete as one transaction ----

  predicate Owns(db: DB, user: int, req: Request) {
    forall l :: l in LinesFor(req) ==> l.account in db.accounts && db.accounts[l.account] == user
  }

  predicate Holds(txns: map<int, TxnRow>, user: int, key: string, id: int) {
    id in txns && txns[id].user == user && txns[id].key == key
  }

  /** The partial unique index on (user_id, idempotency_key) finds a row. */
  predicate Replays(txns: map<int, TxnRow>, user: int, key: string) {
    key != "" && exists id :: id in txns && Holds(txns, user, key, id)
  }

  ghost function Holder(txns: map<int, TxnRow>, user: int, key: string): (id: int)
    requires Replays(txns, user, key)
    ensures Holds(txns, user, key, id)
  {
    var id :| Holds(txns, user, key, id); id
  }

  /** The column's own UNIQUE constraint, which spans all users: it was created
      with the table and only the separate index was ever dropped. */
  predicate KeyUsed(txns: map<int, TxnRow>, key: string) {
    key != "" && exists id :: id in txns && txns[id].key == key
  }

  function Insert(db: DB, id: int, user: int, req: Request, key: string, balances: Balances): DB {
    DB(db.accounts, balances, db.txns[id := RowFor(user, req, key)],
       db.entries + EntriesFor(id, LinesFor(req)), db.links + LinksFor(id, CategoriesFor(req)))
  }

  datatype CreateOutcome = Inserted(db: DB) | Replayed(id: int) | CreateFailed(error: Error)

  ghost function CreateTxn(db: DB, id: int, user: int, req: Request, key: string): CreateOutcome {
    if !ValidRequest(req) then CreateFailed(Invalid)
    else if !Owns(db, user, req) then CreateFailed(NotFound)
    else if Replays(db.txns, user, key) then Replayed(Holder(db.txns, user, key))
    else if KeyUsed(db.txns, key) then CreateFailed(KeyTaken)
    else match Walk(Post, db.balances, id, LinesFor(req))
      case Err(e) => CreateFailed(e)
      case Ok(b) => Inserted(Insert(db, id, user, req, key, b))
  }

  function Remove(db: DB, id: int, balances: Balances): DB {
    DB(db.accounts, Forget(balances, id), db.txns - {id}, Without(db.entries, id), LinksWithout(db.links, id))
  }

  datatype DeleteOutcome = Deleted(db: DB) | DeleteFailed(error: Error)

  function DeleteTxn(db: DB, id: int, user: int): DeleteOutcome {
    if id !in db.txns || db.txns[id].user != user then DeleteFailed(NotFound)
    else match Walk(Reverse, db.balances, id, LinesOf(db.entries, id))
      case Err(e) => DeleteFailed(e)
      case Ok(b) => Deleted(Remove(db, id, b))
  }

  // ---- accounts, metadata, reconciliation ----

  function MaxTxn(entries: seq<Entry>, account: int): Option<int> {
    if entries == [] then None else
      var e, rest := entries[|entries| - 1], MaxTxn(entries[..|entries| - 1], account);
      if e.line.account != account then rest
      else if rest.None? || rest.value < e.txn then Some(e.txn) else rest
  }

  function Open(db: DB, account: int, user: int, initial: int): DB {
    db.(accounts := db.accounts[account := user], balances := db.balances[account := BalanceRow(initial, None, 1)])
  }

  /** DELETE FROM accounts, with the schema's cascades. */
  function Close(db: DB, account: int): DB {
    db.(accounts := db.accounts - {account}, balances := db.balances - {account},
        entries := WithoutAccount(db.entries, account))
  }

  /** The reconciliation fix: the cached balance becomes the ledger sum. */
  function Fixed(db: DB, account: int): DB
    requires account in db.balances
  {
    db.(balances := db.balances[account := BalanceRow(LedgerSum(db.entries, account), MaxTxn(db.entries, account),
                                                      db.balances[account].version + 1)])
  }

  /** Metadata update: a new date, and for income or expense a new category in
      place of all previous ones. */
  function Edited(db: DB, id: int, date: Date, category: Option<int>): DB
    requires id in db.txns
  {
    var row := db.txns[id];
    db.(txns := db.txns[id := row.(date := date)],
        links := if category.Some? && row.kind != Transfer
                 then LinksWithout(db.links, id) + [Link(id, category.value)] else db.links)
  }

  // ---- histories ----

  datatype Op =
    | OpenAccount(account: int, user: int, initial: int)
    | CloseAccount(account: int, user: int)
    | Create(id: int, user: int, req: Request, key: string)
    | Delete(id: int, user: int)
    | Edit(id: int, user: int, date: Date, category: Option<int>)
    | Fix(account: int)

  /** The tables after one committed operation, or None where the engine refuses
      it (nothing is committed then). */
  ghost function Apply(db: DB, op: Op): Option<DB> {
    match op
    case OpenAccount(a, user, initial) =>
      if a in db.accounts || initial < 0 then None else Some(Open(db, a, user, initial))
    case CloseAccount(a, user) =>
      if a !in db.accounts || db.accounts[a] != user then None else Some(Close(db, a))
    case Create(id, user, req, key) =>
      if id in db.txns then None else
        (match CreateTxn(db, id, user, req, key)
         case Inserted(after) => Some(after)
         case Replayed(_) => None
         case CreateFailed(_) => None)
    case Delete(id, user) =>
      (match DeleteTxn(db, id, user)
       case Deleted(after) => Some(after)
       case DeleteFailed(_) => None)
    case Edit(id, user, date, category) =>
      if id !in db.txns || db.txns[id].user != user then None else Some(Edited(db, id, date, category))
    case Fix(a) =>
      if a !in db.balances || LedgerSum(db.entries, a) < 0 || LedgerSum(db.entries, a) == db.balances[a].balance
      then None else Some(Fixed(db, a))
  }

  ghost function Replay(db: DB, ops: seq<Op>): Option<DB> {
    if ops == [] then Some(db) else
      match Replay(db, ops[..|ops| - 1])
      case None => None
      case Some(before) => Apply(before, ops[|ops| - 1])
  }

  /** The tables a history leads to from the empty database. */
  ghost predicate Leads(ops: seq<Op>, db: DB) {
    Replay(EMPTY_DB, ops) == Some(db)
  }

  /** What each account opened with; a reconciliation fix re-bases it to zero. */
  function Openings(ops: seq<Op>): map<int, int> {
    if ops == [] then map[] else
      var before := Openings(ops[..|ops| - 1]);
      match ops[|ops| - 1]
      case OpenAccount(a, _, initial) => before[a := initial]
      case Fix(a) => before[a := 0]
      case _ => before
  }
}
