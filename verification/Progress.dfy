/** What the concurrent machine can always do: a call with nobody else at work
    runs to its end and answers as the sequential engine does, so every
    sequential history is one of its runs; and a call only ever waits for
    another one that wants the same rows. */
module Progress {
  import opened Common
  import opened Tables
  import opened Engine
  import opened Invariants
  import opened Histories
  import opened Sessions
  import opened SessionsInvariant
  import opened Refinement
  import opened Races
  import opened Answers

  /** Every other call has ended. */
  predicate Alone(w: World, sid: int) {
    forall other :: other in w.sessions && other != sid ==> w.sessions[other].pc.Ended?
  }

  lemma AloneIsFree(w: World, sid: int)
    requires Inv(w) && Alone(w, sid) && sid in w.sessions
    ensures !Blocked(w, sid)
  {
    forall other | other in w.sessions && other != sid ensures w.sessions[other].locked == {} {
      assert SessionOk(w.db, w.nextTxn, w.sessions[other]);
    }
  }

  /** An unfinished call always has a statement of its own to make. */
  lemma AlwaysRunnable(w: World, sid: int)
    requires Inv(w) && sid in w.sessions && !w.sessions[sid].pc.Ended? && w.sessions[sid].pc != Listing
    ensures Runnable(w.sessions[sid])
  {
    assert SessionOk(w.db, w.nextTxn, w.sessions[sid]);
  }

  // ---- how far a call still has to go ----

  function Stage(s: Session): nat {
    if s.pc == Loading then 2 else if s.pc == Listing then 1 else 0
  }

  function ToGo(s: Session): int {
    var lines := |s.work| - s.done;
    match s.pc
    case Checking => 3 * |s.work| + 12 + lines
    case FindingKey => 3 * |s.work| + 11
    case InsertingTxn => 3 * |s.work| + 10
    case FindingWinner => 3
    case InsertingEntry => 3 * lines + 3
    case LockingRow => 3 * lines + 2
    case WritingRow => 3 * lines + 1
    case LinkingCategory => 2
    case CommittingCreate => 1
    case Loading => 0
    case Listing => 0
    case DeletingEntries => 3
    case DeletingRow => 2
    case CommittingDelete => 1
    case Ended(_) => 0
  }

  predicate Closer(s: Session, after: Session) {
    Stage(after) < Stage(s) || (Stage(after) == Stage(s) && 0 <= ToGo(after) < ToGo(s))
  }

  lemma ExecuteIsCloser(db: DB, n: int, s: Session)
    requires SessionOk(db, n, s) && Runnable(s) && s.pc != CommittingCreate && s.pc != CommittingDelete
    ensures var after := Execute(db, n, s); after.pc.Ended? || Closer(s, after)
  {
    match s.pc {
      case WritingRow => WriteRowIsCloser(db, s);
      case Checking => CheckIsCloser(db, s);
      case LockingRow => LockRowIsCloser(db, s);
      case DeletingRow => DeleteRowIsCloser(db, s);
      case _ => PlainIsCloser(db, n, s);
    }
  }

  lemma WriteRowIsCloser(db: DB, s: Session)
    requires s.pc == WritingRow && s.done < |s.work|
    ensures var after := WriteRow(db, s); after.pc.Ended? || Closer(s, after)
  {}

  lemma CheckIsCloser(db: DB, s: Session)
    requires s.pc == Checking && s.job.CreateJob? && s.done <= |s.work|
    ensures var after := Check(db, s); after.pc.Ended? || Closer(s, after)
  {}

  lemma LockRowIsCloser(db: DB, s: Session)
    requires s.pc == LockingRow && s.done < |s.work|
    ensures var after := LockRow(db, s); after.pc.Ended? || Closer(s, after)
  {}

  lemma DeleteRowIsCloser(db: DB, s: Session)
    requires s.pc == DeletingRow && s.job.DeleteJob?
    ensures var after := DeleteRow(db, s); after.pc.Ended? || Closer(s, after)
  {}

  lemma PlainIsCloser(db: DB, n: int, s: Session)
    requires SessionOk(db, n, s) && Runnable(s) && s.pc != CommittingCreate && s.pc != CommittingDelete
    requires s.pc !in {WritingRow, Checking, LockingRow, DeletingRow}
    ensures var after := Execute(db, n, s); after.pc.Ended? || Closer(s, after)
  {}

  /** Nothing the call has learnt so far is out of date, and the id it will use
      or uses is n. */
  ghost predicate UpToDate(w: World, s: Session, n: int) {
    match s.job
    case CreateJob(user, _, key) =>
      (s.pc == FindingWinner ==> Replays(w.db.txns, user, key)) && (HasInserted(s) ==> s.id == n)
      && w.nextTxn == if s.pc in {Checking, FindingKey, InsertingTxn} then n else n + 1
    case DeleteJob(_, target) => s.pc != Loading ==> target in w.db.txns
  }

  lemma ExecuteStaysUpToDate(w: World, sid: int, n: int)
    requires Inv(w) && Enabled(w, Statement(sid)) && UpToDate(w, w.sessions[sid], n)
    requires w.sessions[sid].pc !in {CommittingCreate, CommittingDelete}
    ensures var after := Take(w, Statement(sid));
            after.sessions[sid].pc.Ended? || UpToDate(after, after.sessions[sid], n)
  {
    assert SessionOk(w.db, w.nextTxn, w.sessions[sid]);
    ExecuteKeepsJob(w, sid);
  }

  lemma OneMore(actions: seq<Action>, w: World, a: Action)
    requires Reaches(actions, w) && Enabled(w, a)
    ensures Reaches(actions + [a], Take(w, a))
  {
    assert (actions + [a])[..|actions|] == actions;
  }

  /** One step of a call that is alone: it ends, agreeing with the engine, or it
      goes on, closer to its end. */
  ghost predicate Went(w: World, after: World, sid: int, n: int) {
    && sid in w.sessions && sid in after.sessions && after.sessions[sid].job == w.sessions[sid].job
    && after.sessions == w.sessions[sid := after.sessions[sid]]
    && if after.sessions[sid].pc.Ended? then Exact(w, after, w.sessions[sid].job, after.sessions[sid].pc.outcome, n)
       else after.db == w.db && after.log == w.log && Closer(w.sessions[sid], after.sessions[sid])
            && UpToDate(after, after.sessions[sid], n)
            && (w.sessions[sid].job.DeleteJob? ==> after.nextTxn == w.nextTxn)
  }

  /** The answer and the tables are the sequential engine's, without exception. */
  ghost predicate Exact(w: World, after: World, job: Job, answer: Outcome, n: int) {
    match job
    case CreateJob(user, req, key) =>
      (match CreateTxn(w.db, n, user, req, key)
       case Inserted(db) => answer == Created(n) && after.db == db && after.log == w.log + [Create(n, user, req, key)]
                            && after.nextTxn == n + 1
       case Replayed(id) => answer == Existing(id) && after.db == w.db && after.log == w.log
       case CreateFailed(e) => answer == Failed(e) && after.db == w.db && after.log == w.log)
    case DeleteJob(user, target) =>
      (match DeleteTxn(w.db, target, user)
       case Deleted(db) => answer == Removed(target) && after.db == db && after.log == w.log + [Delete(target, user)]
                           && after.nextTxn == w.nextTxn
       case DeleteFailed(e) => answer == Failed(e) && after.db == w.db && after.log == w.log)
  }

  lemma WinnerStillThere(w: World, sid: int, n: int)
    requires Inv(w) && Enabled(w, Statement(sid)) && UpToDate(w, w.sessions[sid], n) && w.sessions[sid].job.CreateJob?
    requires w.sessions[sid].pc !in {CommittingCreate, CommittingDelete}
    ensures Execute(w.db, w.nextTxn, w.sessions[sid]).pc != Ended(Failed(WinnerGone))
  {}

  lemma CreateEndsExactly(w: World, sid: int, n: int)
    requires History(w) && Listed(w) && Enabled(w, Statement(sid)) && w.sessions[sid].job.CreateJob?
    requires UpToDate(w, w.sessions[sid], n) && Take(w, Statement(sid)).sessions[sid].pc.Ended?
    ensures var after := Take(w, Statement(sid));
            Exact(w, after, w.sessions[sid].job, after.sessions[sid].pc.outcome, n)
  {
    CreateAnswers(w, sid);
    if w.sessions[sid].pc == CommittingCreate {
      assert SessionOk(w.db, w.nextTxn, w.sessions[sid]);
    } else {
      WinnerStillThere(w, sid, n);
      ExecuteNoCredit(w.db, w.nextTxn, w.sessions[sid]);
    }
  }

  lemma DeleteEndsExactly(w: World, sid: int, n: int)
    requires History(w) && Listed(w) && Enabled(w, Statement(sid)) && w.sessions[sid].job.DeleteJob?
    requires UpToDate(w, w.sessions[sid], n) && Take(w, Statement(sid)).sessions[sid].pc.Ended?
    ensures var after := Take(w, Statement(sid));
            Exact(w, after, w.sessions[sid].job, after.sessions[sid].pc.outcome, n)
  {
    DeleteAnswers(w, sid);
    assert SessionOk(w.db, w.nextTxn, w.sessions[sid]);
    if w.sessions[sid].pc != CommittingDelete {
      ExecuteNoCredit(w.db, w.nextTxn, w.sessions[sid]);
    }
  }

  lemma StatementGoes(w: World, sid: int, n: int)
    requires History(w) && Listed(w) && sid in w.sessions && !w.sessions[sid].pc.Ended?
    requires w.sessions[sid].pc != Listing && Alone(w, sid) && UpToDate(w, w.sessions[sid], n)
    ensures Enabled(w, Statement(sid)) && Went(w, Take(w, Statement(sid)), sid, n)
  {
    var s := w.sessions[sid];
    AloneIsFree(w, sid);
    AlwaysRunnable(w, sid);
    ExecuteKeepsJob(w, sid);
    assert SessionOk(w.db, w.nextTxn, s);
    if Take(w, Statement(sid)).sessions[sid].pc.Ended? {
      if s.job.CreateJob? {
        CreateEndsExactly(w, sid, n);
      } else {
        DeleteEndsExactly(w, sid, n);
      }
    } else {
      ExecuteIsCloser(w.db, w.nextTxn, s);
      ExecuteStaysUpToDate(w, sid, n);
    }
  }

  lemma ListingGoes(w: World, sid: int, n: int)
    requires History(w) && sid in w.sessions && w.sessions[sid].pc == Listing && UpToDate(w, w.sessions[sid], n)
    ensures var a := ListAs(sid, LinesOf(w.db.entries, w.sessions[sid].id));
            Enabled(w, a) && Went(w, Take(w, a), sid, n)
  {
    assert SessionOk(w.db, w.nextTxn, w.sessions[sid]);
  }

  /** A delete may find its entries listed in any order. */
  lemma AnyListing(w: World, sid: int, order: seq<Line>)
    requires Inv(w) && sid in w.sessions && w.sessions[sid].pc == Listing
    requires multiset(order) == multiset(LinesOf(w.db.entries, w.sessions[sid].id))
    ensures Enabled(w, ListAs(sid, order)) && Take(w, ListAs(sid, order)).sessions[sid].work == order
  {
    assert SessionOk(w.db, w.nextTxn, w.sessions[sid]);
  }

  lemma WentOn(w: World, mid: World, after: World, sid: int, n: int)
    requires Went(w, mid, sid, n) && !mid.sessions[sid].pc.Ended?
    requires sid in after.sessions && after.sessions[sid].pc.Ended?
    requires after.sessions == mid.sessions[sid := after.sessions[sid]]
    requires Exact(mid, after, mid.sessions[sid].job, after.sessions[sid].pc.outcome, n)
    ensures after.sessions == w.sessions[sid := after.sessions[sid]]
    ensures Exact(w, after, w.sessions[sid].job, after.sessions[sid].pc.outcome, n)
  {}

  lemma StepGoes(w: World, sid: int, n: int) returns (a: Action)
    requires History(w) && Listed(w) && sid in w.sessions && !w.sessions[sid].pc.Ended?
    requires Alone(w, sid) && UpToDate(w, w.sessions[sid], n)
    ensures Enabled(w, a) && Went(w, Take(w, a), sid, n) && (a.Statement? || a.ListAs?)
  {
    if w.sessions[sid].pc == Listing {
      a := ListAs(sid, LinesOf(w.db.entries, w.sessions[sid].id));
      ListingGoes(w, sid, n);
    } else {
      a := Statement(sid);
      StatementGoes(w, sid, n);
    }
  }

  lemma GoesFrom(actions: seq<Action>, w: World, sid: int, n: int) returns (a: Action, mid: World)
    requires Reaches(actions, w) && sid in w.sessions && !w.sessions[sid].pc.Ended?
    requires Alone(w, sid) && UpToDate(w, w.sessions[sid], n)
    ensures Reaches(actions + [a], mid) && Went(w, mid, sid, n) && Alone(mid, sid) && (a.Statement? || a.ListAs?)
    ensures mid.sessions[sid].pc.Ended? || Closer(w.sessions[sid], mid.sessions[sid])
  {
    ReachableHistory(actions, w);
    ReachableListed(actions, w);
    a := StepGoes(w, sid, n);
    mid := Take(w, a);
    OneMore(actions, w, a);
  }

  /** Nothing but statements of calls already begun. */
  predicate OwnSteps(actions: seq<Action>) {
    forall a :: a in actions ==> a.Statement? || a.ListAs?
  }

  /** A call that is alone ends, with the sequential engine's answer. */
  lemma {:induction false} Finishes(actions: seq<Action>, w: World, sid: int, n: int, stage: nat, toGo: int)
    returns (more: seq<Action>, after: World)
    requires Reaches(actions, w) && sid in w.sessions && !w.sessions[sid].pc.Ended?
    requires Alone(w, sid) && UpToDate(w, w.sessions[sid], n)
    requires stage == Stage(w.sessions[sid]) && toGo == ToGo(w.sessions[sid])
    ensures Reaches(actions + more, after) && sid in after.sessions && after.sessions[sid].pc.Ended?
    ensures after.sessions == w.sessions[sid := after.sessions[sid]] && OwnSteps(more)
    ensures Exact(w, after, w.sessions[sid].job, after.sessions[sid].pc.outcome, n)
    decreases stage, toGo
  {
    var a, mid := GoesFrom(actions, w, sid, n);
    if mid.sessions[sid].pc.Ended? {
      more, after := [a], mid;
    } else {
      var rest;
      rest, after := Finishes(actions + [a], mid, sid, n, Stage(mid.sessions[sid]), ToGo(mid.sessions[sid]));
      more := [a] + rest;
      Together(actions, [a], rest);
      WentOn(w, mid, after, sid, n);
    }
  }

  predicate AllEnded(w: World) {
    forall sid :: sid in w.sessions ==> w.sessions[sid].pc.Ended?
  }

  /** Whatever has happened before, a call made when no other is under way can
      run to its end, and then answers and leaves the tables as the sequential
      engine does: in particular it refuses nothing the engine accepts. */
  lemma CallAlone(actions: seq<Action>, w: World, sid: int, job: Job) returns (more: seq<Action>, after: World)
    requires Reaches(actions, w) && AllEnded(w) && sid !in w.sessions
    ensures Reaches(actions + more, after) && AllEnded(after) && after.sessions.Keys == w.sessions.Keys + {sid}
    ensures Exact(w, after, job, after.sessions[sid].pc.outcome, w.nextTxn)
  {
    var mid := Take(w, Begin(sid, job));
    OneMore(actions, w, Begin(sid, job));
    var rest;
    rest, after := Finishes(actions + [Begin(sid, job)], mid, sid, w.nextTxn,
                            Stage(mid.sessions[sid]), ToGo(mid.sessions[sid]));
    more := [Begin(sid, job)] + rest;
    Together(actions, [Begin(sid, job)], rest);
  }

  // ---- every sequential history is a run ----

  /** The next id of the sequence after these operations, none rolled back. */
  function Drawn(ops: seq<Op>): int {
    if ops == [] then 1 else Drawn(ops[..|ops| - 1]) + (if ops[|ops| - 1].Create? then 1 else 0)
  }

  /** Openings, creates and deletes, with ids as the sequence gives them. */
  predicate Serial(ops: seq<Op>) {
    ops != [] ==>
      var init, last := ops[..|ops| - 1], ops[|ops| - 1];
      Serial(init) && (last.OpenAccount? || last.Delete? || (last.Create? && last.id == Drawn(init)))
  }

  /** The machine's state after a serial run of these operations. */
  ghost predicate SerialState(w: World, ops: seq<Op>, db: DB) {
    w.db == db && w.log == ops && AllEnded(w) && w.nextTxn == Drawn(ops)
    && forall sid :: sid in w.sessions ==> sid < |ops|
  }

  lemma SerialStep(before: seq<Action>, mid: World, init: seq<Op>, last: Op, db: DB, after: DB)
    returns (actions: seq<Action>, w: World)
    requires Reaches(before, mid) && SerialState(mid, init, db) && Apply(db, last) == Some(after)
    requires last.OpenAccount? || last.Delete? || (last.Create? && last.id == Drawn(init))
    ensures Reaches(actions, w) && w.db == after && w.log == init + [last] && AllEnded(w)
    ensures w.nextTxn == Drawn(init) + (if last.Create? then 1 else 0)
    ensures forall sid :: sid in w.sessions ==> sid <= |init|
  {
    if last.OpenAccount? {
      var open := AccountOpened(last.account, last.user, last.initial);
      OneMore(before, mid, open);
      actions, w := before + [open], Take(mid, open);
    } else {
      var job := if last.Create? then CreateJob(last.user, last.req, last.key) else DeleteJob(last.user, last.id);
      var more;
      more, w := CallAlone(before, mid, |init|, job);
      actions := before + more;
    }
  }

  /** Conversely to the refinement, nothing the sequential engine can do is lost:
      each of its histories is the log of a run. */
  lemma {:induction false} EverySequentialHistory(ops: seq<Op>, db: DB) returns (actions: seq<Action>, w: World)
    requires Leads(ops, db) && Serial(ops)
    ensures Reaches(actions, w) && SerialState(w, ops, db)
  {
    if ops == [] {
      actions, w := [], INITIAL;
    } else {
      var init, last := ops[..|ops| - 1], ops[|ops| - 1];
      var before, mid := EverySequentialHistory(init, Replay(EMPTY_DB, init).value);
      actions, w := SerialStep(before, mid, init, last, mid.db, db);
      assert ops == init + [last];
    }
  }

  // ---- waiting ----

  predicate ShareAccount(s: Session, t: Session) {
    exists l, m :: l in s.work && m in t.work && l.account == m.account
  }

  /** Two calls that want the same row: one key, one transaction to delete, or
      one account to move. */
  predicate Rivals(s: Session, t: Session) {
    || (s.job.CreateJob? && t.job.CreateJob? && s.job.key == t.job.key && s.job.key != "")
    || (s.job.DeleteJob? && t.job.DeleteJob? && s.job.target == t.job.target)
    || ShareAccount(s, t)
  }

  /** A call holds no rows but of accounts it moves. */
  lemma LockedIsWorked(w: World, sid: int, a: int)
    requires Inv(w) && sid in w.sessions && a in w.sessions[sid].locked
    ensures !w.sessions[sid].pc.Ended? && exists l :: l in w.sessions[sid].work && l.account == a
  {
    var s := w.sessions[sid];
    assert SessionOk(w.db, w.nextTxn, s);
    if a in s.buf {
      var l :| l in s.work[..s.done] && l.account == a;
      assert l in s.work;
    } else {
      assert s.work[s.done] in s.work;
    }
  }

  lemma NothingElseNamed(w: World, sid: int)
    requires Inv(w) && sid in w.sessions && w.sessions[sid].pc == DeletingRow
    ensures Referencing(w.db, w.sessions[sid]) == {}
  {
    var s := w.sessions[sid];
    assert SessionOk(w.db, w.nextTxn, s);
    ReachableIsSound(w.log, w.db);
    if s.id in w.db.txns {
      NothingToForget(w.db, s);
    } else {
      UnnamedFresh(w.db, s.id);
      ReversedForgets(w.db, s);
      VisibleNames(w.db, s);
    }
  }

  /** Calls that share no key, target or account never wait for each other: a
      call that cannot make its statement waits for an unfinished rival. */
  lemma WaitsForARival(actions: seq<Action>, w: World, sid: int)
    requires Reaches(actions, w) && sid in w.sessions && Blocked(w, sid)
    ensures exists other ::
              other in w.sessions && other != sid && !w.sessions[other].pc.Ended?
              && Rivals(w.sessions[sid], w.sessions[other])
  {
    ReachableInv(actions, w);
    var s := w.sessions[sid];
    assert SessionOk(w.db, w.nextTxn, s);
    match s.pc {
      case InsertingTxn =>
        var other :| other in w.sessions && other != sid && Reserves(w.sessions[other], s.job.key);
        assert Rivals(s, w.sessions[other]);
      case LockingRow =>
        var a := s.work[s.done].account;
        var other :| other in w.sessions && other != sid && a in w.sessions[other].locked;
        LockedIsWorked(w, other, a);
        assert s.work[s.done] in s.work && ShareAccount(s, w.sessions[other]);
        assert Rivals(s, w.sessions[other]);
      case DeletingEntries => DeleteRival(w, sid, {DeletingRow, CommittingDelete});
      case DeletingRow =>
        NothingElseNamed(w, sid);
        DeleteRival(w, sid, {CommittingDelete});
    }
  }

  lemma DeleteRival(w: World, sid: int, pcs: set<Pc>)
    requires sid in w.sessions && w.sessions[sid].job.DeleteJob? && w.sessions[sid].id == w.sessions[sid].job.target
    requires DeletedElsewhere(w, sid, w.sessions[sid].id, pcs) && forall pc :: pc in pcs ==> !pc.Ended?
    ensures exists other ::
              other in w.sessions && other != sid && !w.sessions[other].pc.Ended?
              && Rivals(w.sessions[sid], w.sessions[other])
  {
    var other :| other in w.sessions && other != sid && w.sessions[other].job.DeleteJob?
                 && w.sessions[other].job.target == w.sessions[sid].id && w.sessions[other].pc in pcs;
    assert Rivals(w.sessions[sid], w.sessions[other]);
  }

  /** The call has deleted entries it has not committed. */
  predicate HasDeleted(s: Session) {
    s.job.DeleteJob? && s.pc in {DeletingRow, CommittingDelete}
  }

  predicate OneDeleter(w: World) {
    forall i, j :: i in w.sessions && j in w.sessions && i != j ==>
      !(HasDeleted(w.sessions[i]) && HasDeleted(w.sessions[j])
        && w.sessions[i].job.target == w.sessions[j].job.target)
  }

  lemma OneMovesDeleter(w: World, after: World, sid: int)
    requires OneDeleter(w) && sid in after.sessions && after.sessions == w.sessions[sid := after.sessions[sid]]
    requires HasDeleted(after.sessions[sid]) ==>
               sid in w.sessions && w.sessions[sid].job == after.sessions[sid].job
               && (HasDeleted(w.sessions[sid])
                   || !DeletedElsewhere(w, sid, w.sessions[sid].job.target, {DeletingRow, CommittingDelete}))
    ensures OneDeleter(after)
  {}

  lemma StatementKeepsOneDeleter(w: World, sid: int)
    requires Inv(w) && OneDeleter(w) && Enabled(w, Statement(sid))
    ensures OneDeleter(Take(w, Statement(sid)))
  {
    var s, after := w.sessions[sid], Take(w, Statement(sid));
    assert SessionOk(w.db, w.nextTxn, s);
    ExecuteKeepsJob(w, sid);
    if HasDeleted(after.sessions[sid]) && !HasDeleted(s) {
      EntersByDeleting(w.db, w.nextTxn, s);
    }
    OneMovesDeleter(w, after, sid);
  }

  lemma EntersByDeleting(db: DB, n: int, s: Session)
    requires SessionOk(db, n, s) && Runnable(s) && s.pc !in {CommittingCreate, CommittingDelete}
    requires HasDeleted(Execute(db, n, s)) && !HasDeleted(s)
    ensures s.pc == DeletingEntries && s.id == s.job.target
  {}

  /** No two calls have uncommitted deletes of the same transaction's entries. */
  lemma {:induction false} EntriesDeletedByOne(actions: seq<Action>, w: World)
    requires Reaches(actions, w)
    ensures OneDeleter(w)
  {
    if actions != [] {
      var init, last := actions[..|actions| - 1], actions[|actions| - 1];
      var before := Run(init).value;
      EntriesDeletedByOne(init, before);
      ReachableInv(init, before);
      match last {
        case Statement(sid) => StatementKeepsOneDeleter(before, sid);
        case Begin(sid, job) => OneMovesDeleter(before, w, sid);
        case ListAs(sid, order) => OneMovesDeleter(before, w, sid);
        case Rollback(sid) => OneMovesDeleter(before, w, sid);
        case AccountOpened(_, _, _) =>
      }
    }
  }
}
