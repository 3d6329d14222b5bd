/** Concurrent creates and deletes, statement by statement. Each session runs
    one service call; every SQL statement is one step and sees the latest
    committed tables plus its own uncommitted writes; balance rows stay locked
    from FOR UPDATE to the end of the transaction; an inserted key is reserved
    until then. A session may be rolled back before any statement. */
module Sessions {
  import opened Common
  import opened Tables
  import opened Engine

  datatype Job =
    | CreateJob(user: int, req: Request, key: string)
    | DeleteJob(user: int, target: int)

  datatype Outcome = Created(id: int) | Existing(id: int) | Removed(id: int) | Failed(error: Error)

  /** The next statement of a session. */
  datatype Pc =
    | Checking | FindingKey | InsertingTxn | FindingWinner | InsertingEntry
    | LockingRow | WritingRow | LinkingCategory | CommittingCreate
    | Loading | Listing | DeletingEntries | DeletingRow | CommittingDelete
    | Ended(outcome: Outcome)

  datatype Session = Session(
    job: Job, pc: Pc,
    id: int,                               // the transaction being created or deleted
    work: seq<Line>, done: nat,            // the loop over lines, and how far it got
    seenBalance: int, seenVersion: int,    // what FOR UPDATE returned
    buf: Balances,                         // uncommitted balance rows
    rows: seq<Entry>, linked: seq<Link>,   // uncommitted ledger rows and category links
    locked: set<int>)                      // balance rows this session holds

  datatype World = World(
    db: DB,                                // committed tables
    nextTxn: int,                          // the id sequence, never rolled back
    sessions: map<int, Session>,
    log: seq<Op>)                          // the commits so far, in commit order

  datatype Action =
    | AccountOpened(account: int, user: int, initial: int)
    | Begin(sid: int, job: Job)
    | Statement(sid: int)
    | ListAs(sid: int, order: seq<Line>)
    | Rollback(sid: int)

  const INITIAL := World(EMPTY_DB, 1, map[], [])

  function Fresh(job: Job): Session {
    match job
    case CreateJob(_, req, _) => Session(job, Checking, 0, LinesFor(req), 0, 0, 0, map[], [], [], {})
    case DeleteJob(_, target) => Session(job, Loading, target, [], 0, 0, 0, map[], [], [], {})
  }

  /** Commit or rollback: buffers and locks are gone. */
  function End(s: Session, outcome: Outcome): Session {
    Session(s.job, Ended(outcome), s.id, [], 0, 0, 0, map[], [], [], {})
  }

  function Dir(job: Job): Direction {
    if job.CreateJob? then Post else Reverse
  }

  /** The session's transaction row is inserted but not yet committed. */
  predicate HasInserted(s: Session) {
    s.job.CreateJob? && s.pc in {InsertingEntry, LockingRow, WritingRow, LinkingCategory, CommittingCreate}
  }

  predicate Reserves(s: Session, key: string) {
    HasInserted(s) && s.job.key == key && key != ""
  }

  predicate LockedElsewhere(w: World, sid: int, account: int) {
    exists other :: other in w.sessions && other != sid && account in w.sessions[other].locked
  }

  predicate DeletedElsewhere(w: World, sid: int, target: int, pcs: set<Pc>) {
    exists other :: other in w.sessions && other != sid && w.sessions[other].job.DeleteJob?
                    && w.sessions[other].job.target == target && w.sessions[other].pc in pcs
  }

  function Visible(db: DB, s: Session): Balances {
    db.balances + s.buf
  }

  function SetNull(rows: Balances, accounts: set<int>): Balances {
    map a | a in rows && a in accounts :: rows[a].(lastTxn := None)
  }

  /** Rows that ON DELETE SET NULL has to touch when the target row goes. */
  function Referencing(db: DB, s: Session): set<int> {
    set a | a in Visible(db, s) && Visible(db, s)[a].lastTxn == Some(s.id)
  }

  /** Waiting on a row lock or on another session's uncommitted key. */
  predicate Blocked(w: World, sid: int)
    requires sid in w.sessions
  {
    var s := w.sessions[sid];
    match s.pc
    case InsertingTxn =>
      s.job.CreateJob? && exists other :: other in w.sessions && other != sid && Reserves(w.sessions[other], s.job.key)
    case LockingRow => s.done < |s.work| && LockedElsewhere(w, sid, s.work[s.done].account)
    case DeletingEntries => DeletedElsewhere(w, sid, s.id, {DeletingRow, CommittingDelete})
    case DeletingRow =>
      DeletedElsewhere(w, sid, s.id, {CommittingDelete})
      || exists a :: a in Referencing(w.db, s) && a !in s.locked && LockedElsewhere(w, sid, a)
    case _ => false
  }

  // ---- the statements ----

  function Check(db: DB, s: Session): Session
    requires s.job.CreateJob?
  {
    if !ValidRequest(s.job.req) then End(s, Failed(Invalid))
    else if s.done < |s.work| then
      var a := s.work[s.done].account;
      if a in db.accounts && db.accounts[a] == s.job.user then s.(done := s.done + 1) else End(s, Failed(NotFound))
    else s.(done := 0, pc := if s.job.key != "" then FindingKey else InsertingTxn)
  }

  ghost function FindKey(db: DB, s: Session): Session
    requires s.job.CreateJob?
  {
    if Replays(db.txns, s.job.user, s.job.key) then End(s, Existing(Holder(db.txns, s.job.user, s.job.key)))
    else s.(pc := InsertingTxn)
  }

  /** INSERT ... ON CONFLICT (user_id, idempotency_key) DO NOTHING: a conflict
      with the caller's own key yields no row, one with another user's key
      violates the column constraint. */
  function InsertTxn(db: DB, s: Session, id: int): Session
    requires s.job.CreateJob?
  {
    if Replays(db.txns, s.job.user, s.job.key) then s.(pc := FindingWinner)
    else if KeyUsed(db.txns, s.job.key) then End(s, Failed(KeyTaken))
    else s.(id := id, pc := if s.work == [] then LinkingCategory else InsertingEntry)
  }

  ghost function FindWinner(db: DB, s: Session): Session
    requires s.job.CreateJob?
  {
    if Replays(db.txns, s.job.user, s.job.key) then End(s, Existing(Holder(db.txns, s.job.user, s.job.key)))
    else End(s, Failed(WinnerGone))
  }

  function InsertEntry(s: Session): Session
    requires s.done < |s.work|
  {
    s.(rows := s.rows + [Entry(s.id, s.work[s.done])], pc := LockingRow)
  }

  function LockRow(db: DB, s: Session): Session
    requires s.done < |s.work|
  {
    var a := s.work[s.done].account;
    if a !in Visible(db, s) then End(s, Failed(MissingBalance))
    else s.(locked := s.locked + {a}, seenBalance := Visible(db, s)[a].balance,
            seenVersion := Visible(db, s)[a].version, pc := WritingRow)
  }

  function AfterLoop(job: Job): Pc {
    if job.CreateJob? then LinkingCategory else DeletingEntries
  }

  function LoopHead(job: Job): Pc {
    if job.CreateJob? then InsertingEntry else LockingRow
  }

  /** The funds check and UPDATE ... WHERE version = seen. */
  function WriteRow(db: DB, s: Session): Session
    requires s.done < |s.work|
  {
    var l, dir := s.work[s.done], Dir(s.job);
    var visible := Visible(db, s);
    if l.account !in visible || visible[l.account].version != s.seenVersion then End(s, Failed(VersionConflict))
    else
      var seen := visible[l.account].(balance := s.seenBalance);
      if NewBalance(dir, seen, l.amount) < 0 then End(s, Failed(InsufficientFunds))
      else s.(buf := s.buf[l.account := Moved(dir, seen, s.id, l.amount)], done := s.done + 1,
              pc := if s.done + 1 < |s.work| then LoopHead(s.job) else AfterLoop(s.job))
  }

  function LinkCategory(s: Session): Session
    requires s.job.CreateJob?
  {
    s.(linked := s.linked + LinksFor(s.id, CategoriesFor(s.job.req)), pc := CommittingCreate)
  }

  function Load(db: DB, s: Session): Session
    requires s.job.DeleteJob?
  {
    if s.id in db.txns && db.txns[s.id].user == s.job.user then s.(pc := Listing) else End(s, Failed(NotFound))
  }

  function ListEntries(s: Session, order: seq<Line>): Session {
    s.(work := order, pc := if order == [] then DeletingEntries else LockingRow)
  }

  function DeleteRow(db: DB, s: Session): Session
    requires s.job.DeleteJob?
  {
    if s.id !in db.txns || db.txns[s.id].user != s.job.user then End(s, Failed(NotFound))
    else
      var refs := Referencing(db, s);
      s.(buf := s.buf + SetNull(Visible(db, s), refs),
         locked := s.locked + refs, pc := CommittingDelete)
  }

  function CommitCreate(w: World, sid: int): World
    requires sid in w.sessions && w.sessions[sid].job.CreateJob?
  {
    var s := w.sessions[sid];
    var db := DB(w.db.accounts, Visible(w.db, s), w.db.txns[s.id := RowFor(s.job.user, s.job.req, s.job.key)],
                 w.db.entries + s.rows, w.db.links + s.linked);
    World(db, w.nextTxn, w.sessions[sid := End(s, Created(s.id))],
          w.log + [Create(s.id, s.job.user, s.job.req, s.job.key)])
  }

  function CommitDelete(w: World, sid: int): World
    requires sid in w.sessions && w.sessions[sid].job.DeleteJob?
  {
    var s := w.sessions[sid];
    var db := DB(w.db.accounts, Visible(w.db, s), w.db.txns - {s.id},
                 Without(w.db.entries, s.id), LinksWithout(w.db.links, s.id));
    World(db, w.nextTxn, w.sessions[sid := End(s, Removed(s.id))], w.log + [Delete(s.id, s.job.user)])
  }

  // ---- the transition system ----

  /** The statement belongs to the session's kind of call. */
  predicate Runnable(s: Session) {
    match s.pc
    case Ended(_) => false
    case Listing => false
    case LockingRow => s.done < |s.work|
    case WritingRow => s.done < |s.work|
    case InsertingEntry => s.job.CreateJob? && s.done < |s.work|
    case Loading => s.job.DeleteJob?
    case DeletingEntries => s.job.DeleteJob?
    case DeletingRow => s.job.DeleteJob?
    case CommittingDelete => s.job.DeleteJob?
    case _ => s.job.CreateJob?
  }

  predicate Enabled(w: World, action: Action) {
    match action
    case AccountOpened(a, _, initial) => a !in w.db.accounts && initial >= 0
    case Begin(sid, _) => sid !in w.sessions
    case Statement(sid) => sid in w.sessions && Runnable(w.sessions[sid]) && !Blocked(w, sid)
    case ListAs(sid, order) =>
      sid in w.sessions && w.sessions[sid].pc == Listing && w.sessions[sid].job.DeleteJob?
      && multiset(order) == multiset(LinesOf(w.db.entries, w.sessions[sid].id))
    case Rollback(sid) => sid in w.sessions && !w.sessions[sid].pc.Ended?
  }

  /** A statement that commits nothing: what it makes of its own session. */
  ghost function Execute(db: DB, nextTxn: int, s: Session): Session
    requires Runnable(s) && s.pc != CommittingCreate && s.pc != CommittingDelete
  {
    match s.pc
    case Checking => Check(db, s)
    case FindingKey => FindKey(db, s)
    case InsertingTxn => InsertTxn(db, s, nextTxn)
    case FindingWinner => FindWinner(db, s)
    case InsertingEntry => InsertEntry(s)
    case LockingRow => LockRow(db, s)
    case WritingRow => WriteRow(db, s)
    case LinkingCategory => LinkCategory(s)
    case Loading => Load(db, s)
    case DeletingEntries => s.(pc := DeletingRow)
    case DeletingRow => DeleteRow(db, s)
  }

  ghost function Take(w: World, action: Action): World
    requires Enabled(w, action)
  {
    match action
    case AccountOpened(a, user, initial) =>
      w.(db := Open(w.db, a, user, initial), log := w.log + [OpenAccount(a, user, initial)])
    case Begin(sid, job) => w.(sessions := w.sessions[sid := Fresh(job)])
    case ListAs(sid, order) => w.(sessions := w.sessions[sid := ListEntries(w.sessions[sid], order)])
    case Rollback(sid) => w.(sessions := w.sessions[sid := End(w.sessions[sid], Failed(Refused))])
    case Statement(sid) =>
      var s := w.sessions[sid];
      if s.pc == CommittingCreate then CommitCreate(w, sid)
      else if s.pc == CommittingDelete then CommitDelete(w, sid)
      else w.(sessions := w.sessions[sid := Execute(w.db, w.nextTxn, s)],
              nextTxn := if s.pc == InsertingTxn then w.nextTxn + 1 else w.nextTxn)
  }

  /** The world after a schedule, or None if some action was not possible. */
  ghost function Run(actions: seq<Action>): Option<World> {
    if actions == [] then Some(INITIAL) else
      match Run(actions[..|actions| - 1])
      case None => None
      case Some(w) =>
        var last := actions[|actions| - 1];
        if Enabled(w, last) then Some(Take(w, last)) else None
  }

  ghost predicate Reaches(actions: seq<Action>, w: World) {
    Run(actions) == Some(w)
  }
}
