/** The concurrent ledger refines the sequential engine: every schedule of
    statements leaves the tables that its commits, replayed one at a time in
    commit order, would have left. */
module Refinement {
  import opened Common
  import opened Tables
  import opened Engine
  import opened Invariants
  import opened Sessions
  import opened SessionsInvariant

  // ---- a committing create is a sequential create ----

  /** A finished buffer is the sequential walk over the committed rows. */
  lemma BufferIsWalk(db: DB, s: Session, lines: seq<Line>)
    requires Buffered(db, s, |s.work|) && Distinct(s.work) && multiset(s.work) == multiset(lines) && Distinct(lines)
    ensures Walk(Dir(s.job), db.balances, s.id, lines) == Ok(Visible(db, s))
  {
    var dir := Dir(s.job);
    assert s.work[..|s.work|] == s.work;
    WalkOrderIndependent(dir, db.balances, s.id, s.work, lines);
    WalkMeaning(dir, db.balances, s.id, s.work);
    assert Walkable(dir, db.balances, s.work) by {
      forall l | l in s.work ensures l.account in db.balances
          && NewBalance(dir, db.balances[l.account], l.amount) >= 0 {
        var j :| 0 <= j < |s.work| && s.work[j] == l;
      }
    }
    BufferIsResult(db, s);
  }

  lemma BufferIsResult(db: DB, s: Session)
    requires Buffered(db, s, |s.work|) && Distinct(s.work)
    ensures WalkResult(Dir(s.job), db.balances, s.id, s.work) == Visible(db, s)
  {
    var dir := Dir(s.job);
    assert s.work[..|s.work|] == s.work;
    forall a | a in s.buf
      ensures a in db.balances && s.buf[a] == Moved(dir, db.balances[a], s.id, Delta(s.work, a))
    {
      var l :| l in s.work && l.account == a;
      var j :| 0 <= j < |s.work| && s.work[j] == l;
      DeltaOfDistinct(s.work, a);
    }
  }

  lemma UnusedMeansNew(db: DB, user: int, id: int, key: string)
    requires Unused(db, id, key)
    ensures !Replays(db.txns, user, key) && !KeyUsed(db.txns, key)
  {}

  lemma UncontestedCreate(db: DB, id: int, user: int, req: Request, key: string, b: Balances)
    requires ValidRequest(req) && Owns(db, user, req) && Unused(db, id, key)
    requires Walk(Post, db.balances, id, LinesFor(req)) == Ok(b)
    ensures Apply(db, Create(id, user, req, key)) == Some(Insert(db, id, user, req, key, b))
  {
    UnusedMeansNew(db, user, id, key);
  }

  lemma CommittedCreate(w: World, sid: int)
    requires Inv(w) && sid in w.sessions && w.sessions[sid].pc == CommittingCreate && w.sessions[sid].job.CreateJob?
    ensures var s := w.sessions[sid];
            Apply(w.db, Create(s.id, s.job.user, s.job.req, s.job.key)) == Some(CommitCreate(w, sid).db)
  {
    var s := w.sessions[sid];
    assert SessionOk(w.db, w.nextTxn, s);
    BufferIsWalk(w.db, s, LinesFor(s.job.req));
    UncontestedCreate(w.db, s.id, s.job.user, s.job.req, s.job.key, Visible(w.db, s));
  }

  // ---- a committing delete is a sequential delete ----

  lemma NothingForgotten(db: DB, s: Session)
    requires Referencing(db, s) == {}
    ensures Forget(Visible(db, s), s.id) == Visible(db, s)
  {
    forall a | a in Visible(db, s) ensures Visible(db, s)[a].lastTxn != Some(s.id) {
      assert a !in Referencing(db, s);
    }
  }

  lemma CommittedDelete(w: World, sid: int)
    requires Inv(w) && sid in w.sessions && w.sessions[sid].pc == CommittingDelete && w.sessions[sid].job.DeleteJob?
    ensures var s := w.sessions[sid];
            Apply(w.db, Delete(s.id, s.job.user)) == Some(CommitDelete(w, sid).db)
  {
    var s := w.sessions[sid];
    ReachableIsSound(w.log, w.db);
    assert Distinct(LinesOf(w.db.entries, s.id));
    BufferIsWalk(w.db, s, LinesOf(w.db.entries, s.id));
    NothingToForget(w.db, s);
    NothingForgotten(w.db, s);
  }

  // ---- commits leave the other sessions undisturbed ----

  lemma CreateKeepsTarget(w: World, sid: int, other: int, id: int)
    requires Inv(w) && sid in w.sessions && w.sessions[sid].pc == CommittingCreate && w.sessions[sid].job.CreateJob?
    requires other in w.sessions && other != sid && AimsAt(w.sessions[other], id)
    ensures var after := CommitCreate(w, sid).db;
            id in after.txns ==> id in w.db.txns && after.txns[id].user == w.db.txns[id].user
                                 && LinesOf(after.entries, id) == LinesOf(w.db.entries, id)
  {
    var s := w.sessions[sid];
    assert Apart(s, w.sessions[other]) && SessionOk(w.db, w.nextTxn, s);
    LinesOfAppend(w.db.entries, s.id, s.work, id);
  }

  lemma CreateUndisturbed(w: World, sid: int, other: int)
    requires Inv(w) && sid in w.sessions && w.sessions[sid].pc == CommittingCreate && w.sessions[sid].job.CreateJob?
    requires other in w.sessions && other != sid
    ensures Undisturbed(w.db, CommitCreate(w, sid).db, w.sessions[sid].locked, w.sessions[other])
  {
    var s, t, after := w.sessions[sid], w.sessions[other], CommitCreate(w, sid).db;
    assert Apart(s, t) && SessionOk(w.db, w.nextTxn, t);
    assert s.locked == s.buf.Keys;
    forall id | AimsAt(t, id) && id in after.txns
      ensures id in w.db.txns && after.txns[id].user == w.db.txns[id].user
      ensures LinesOf(after.entries, id) == LinesOf(w.db.entries, id)
    {
      CreateKeepsTarget(w, sid, other, id);
    }
  }

  lemma DeleteUndisturbed(w: World, sid: int, other: int)
    requires Inv(w) && sid in w.sessions && w.sessions[sid].pc == CommittingDelete && w.sessions[sid].job.DeleteJob?
    requires other in w.sessions && other != sid
    ensures Undisturbed(w.db, CommitDelete(w, sid).db, w.sessions[sid].locked, w.sessions[other])
  {
    var s, t, after := w.sessions[sid], w.sessions[other], CommitDelete(w, sid).db;
    assert Apart(s, t);
    assert s.locked == s.buf.Keys;
    forall id | AimsAt(t, id) && id in after.txns
      ensures LinesOf(after.entries, id) == LinesOf(w.db.entries, id)
    {
      LinesOfWithout(w.db.entries, s.id, id);
    }
  }

  lemma OpenUndisturbed(w: World, a: int, user: int, initial: int, other: int)
    requires Inv(w) && a !in w.db.accounts && other in w.sessions
    ensures Undisturbed(w.db, Open(w.db, a, user, initial), {}, w.sessions[other])
  {
    ReachableIsSound(w.log, w.db);
    var t := w.sessions[other];
    assert SessionOk(w.db, w.nextTxn, t);
  }

  // ---- every action keeps the invariant ----

  lemma LeadsOn(ops: seq<Op>, db: DB, op: Op, after: DB)
    requires Leads(ops, db) && Apply(db, op) == Some(after)
    ensures Leads(ops + [op], after)
  {
    assert (ops + [op])[..|ops|] == ops;
  }

  lemma CommitCreateKeepsInv(w: World, sid: int)
    requires Inv(w) && sid in w.sessions && w.sessions[sid].pc == CommittingCreate && w.sessions[sid].job.CreateJob?
    ensures Inv(CommitCreate(w, sid))
  {
    var s, after := w.sessions[sid], CommitCreate(w, sid);
    CommittedCreate(w, sid);
    LeadsOn(w.log, w.db, Create(s.id, s.job.user, s.job.req, s.job.key), after.db);
    forall other | other in after.sessions ensures SessionOk(after.db, after.nextTxn, after.sessions[other]) {
      if other != sid {
        assert Apart(s, w.sessions[other]);
        CreateUndisturbed(w, sid, other);
        SessionStable(w.db, after.db, w.nextTxn, after.nextTxn, s.locked, w.sessions[other]);
      }
    }
    EndingKeepsApart(w, sid, Created(s.id));
  }

  lemma CommitDeleteKeepsInv(w: World, sid: int)
    requires Inv(w) && sid in w.sessions && w.sessions[sid].pc == CommittingDelete && w.sessions[sid].job.DeleteJob?
    ensures Inv(CommitDelete(w, sid))
  {
    var s, after := w.sessions[sid], CommitDelete(w, sid);
    CommittedDelete(w, sid);
    LeadsOn(w.log, w.db, Delete(s.id, s.job.user), after.db);
    forall other | other in after.sessions ensures SessionOk(after.db, after.nextTxn, after.sessions[other]) {
      if other != sid {
        assert Apart(s, w.sessions[other]);
        DeleteUndisturbed(w, sid, other);
        SessionStable(w.db, after.db, w.nextTxn, after.nextTxn, s.locked, w.sessions[other]);
      }
    }
    EndingKeepsApart(w, sid, Removed(s.id));
  }

  lemma EndingKeepsApart(w: World, sid: int, outcome: Outcome)
    requires Inv(w) && sid in w.sessions
    ensures var sessions := w.sessions[sid := End(w.sessions[sid], outcome)];
            forall i, j :: i in sessions && j in sessions && i != j ==> Apart(sessions[i], sessions[j])
  {}

  lemma OpenKeepsInv(w: World, a: int, user: int, initial: int)
    requires Inv(w) && Enabled(w, AccountOpened(a, user, initial))
    ensures Inv(Take(w, AccountOpened(a, user, initial)))
  {
    var after := Take(w, AccountOpened(a, user, initial));
    LeadsOn(w.log, w.db, OpenAccount(a, user, initial), after.db);
    forall other | other in after.sessions ensures SessionOk(after.db, after.nextTxn, after.sessions[other]) {
      OpenUndisturbed(w, a, user, initial, other);
      SessionStable(w.db, after.db, w.nextTxn, after.nextTxn, {}, w.sessions[other]);
    }
  }

  /** A session that takes no lock and claims no id or target it did not have
      stays apart from all others. */
  ghost predicate NoNewClaim(s: Session, after: Session) {
    && after.locked <= s.locked
    && after.job == s.job
    && (HasInserted(after) ==> HasInserted(s) && after.id == s.id)
    && (after.pc == CommittingDelete ==> s.pc == CommittingDelete && after.id == s.id)
    && (forall id :: AimsAt(after, id) ==> AimsAt(s, id))
  }

  lemma NoNewClaimApart(s: Session, after: Session, t: Session)
    requires Apart(s, t) && Apart(t, s) && NoNewClaim(s, after)
    ensures Apart(after, t) && Apart(t, after)
  {}

  lemma ExecuteClaims(w: World, sid: int)
    requires Inv(w) && Enabled(w, Statement(sid))
    requires w.sessions[sid].pc !in {CommittingCreate, CommittingDelete, InsertingTxn, LockingRow, Loading, DeletingRow}
    ensures NoNewClaim(w.sessions[sid], Execute(w.db, w.nextTxn, w.sessions[sid]))
  {
    var s := w.sessions[sid];
    if s.pc == WritingRow {
      WriteClaims(w.db, s);
    }
  }

  lemma WriteClaims(db: DB, s: Session)
    requires s.pc == WritingRow && s.done < |s.work|
    ensures NoNewClaim(s, WriteRow(db, s))
  {}

  lemma InsertApart(w: World, sid: int, other: int)
    requires Inv(w) && Enabled(w, Statement(sid)) && w.sessions[sid].pc == InsertingTxn
    requires other in w.sessions && other != sid
    ensures var after := InsertTxn(w.db, w.sessions[sid], w.nextTxn);
            Apart(after, w.sessions[other]) && Apart(w.sessions[other], after)
  {
    var s, t := w.sessions[sid], w.sessions[other];
    assert SessionOk(w.db, w.nextTxn, s) && SessionOk(w.db, w.nextTxn, t);
    assert !Reserves(t, s.job.key);
  }

  lemma LockApart(w: World, sid: int, other: int)
    requires Inv(w) && Enabled(w, Statement(sid)) && w.sessions[sid].pc == LockingRow
    requires other in w.sessions && other != sid
    ensures var after := LockRow(w.db, w.sessions[sid]);
            Apart(after, w.sessions[other]) && Apart(w.sessions[other], after)
  {
    var s, t := w.sessions[sid], w.sessions[other];
    assert Apart(s, t) && Apart(t, s);
    assert s.work[s.done].account !in t.locked;
  }

  lemma LoadApart(w: World, sid: int, other: int)
    requires Inv(w) && Enabled(w, Statement(sid)) && w.sessions[sid].pc == Loading
    requires other in w.sessions && other != sid
    ensures var after := Load(w.db, w.sessions[sid]);
            Apart(after, w.sessions[other]) && Apart(w.sessions[other], after)
  {
    var s, t := w.sessions[sid], w.sessions[other];
    assert SessionOk(w.db, w.nextTxn, s) && SessionOk(w.db, w.nextTxn, t);
    assert HasInserted(t) ==> Unused(w.db, t.id, t.job.key);
  }

  /** The last statement before a delete's commit: it ends the call, or it only
      moves on, and then no other delete of the same row has come as far. */
  lemma DeleteRowMoves(w: World, sid: int, other: int)
    requires Inv(w) && Enabled(w, Statement(sid)) && w.sessions[sid].pc == DeletingRow
    requires other in w.sessions && other != sid
    ensures var s, t, after := w.sessions[sid], w.sessions[other], DeleteRow(w.db, w.sessions[sid]);
            (after.pc.Ended? && after == End(s, after.pc.outcome))
            || (after == s.(pc := CommittingDelete) && !(t.pc == CommittingDelete && t.id == s.id))
  {
    var s, t := w.sessions[sid], w.sessions[other];
    ReachableIsSound(w.log, w.db);
    assert SessionOk(w.db, w.nextTxn, s) && SessionOk(w.db, w.nextTxn, t);
    DeleteRowOk(w.db, w.nextTxn, s);
    assert t.job.DeleteJob? && t.pc == CommittingDelete ==> t.job.target != s.id;
  }

  lemma MovedOnApart(s: Session, t: Session, after: Session)
    requires Apart(s, t) && Apart(t, s) && s.job.DeleteJob? && s.pc == DeletingRow
    requires (after.pc.Ended? && after == End(s, after.pc.outcome))
             || (after == s.(pc := CommittingDelete) && !(t.pc == CommittingDelete && t.id == s.id))
    ensures Apart(after, t) && Apart(t, after)
  {}

  lemma DeleteRowApart(w: World, sid: int, other: int)
    requires Inv(w) && Enabled(w, Statement(sid)) && w.sessions[sid].pc == DeletingRow
    requires other in w.sessions && other != sid
    ensures var after := DeleteRow(w.db, w.sessions[sid]);
            Apart(after, w.sessions[other]) && Apart(w.sessions[other], after)
  {
    DeleteRowMoves(w, sid, other);
    assert Apart(w.sessions[sid], w.sessions[other]) && Apart(w.sessions[other], w.sessions[sid]);
    MovedOnApart(w.sessions[sid], w.sessions[other], DeleteRow(w.db, w.sessions[sid]));
  }

  lemma ExecuteApart(w: World, sid: int, other: int)
    requires Inv(w) && Enabled(w, Statement(sid)) && w.sessions[sid].pc !in {CommittingCreate, CommittingDelete}
    requires other in w.sessions && other != sid
    ensures var after := Execute(w.db, w.nextTxn, w.sessions[sid]);
            Apart(after, w.sessions[other]) && Apart(w.sessions[other], after)
  {
    var s, t := w.sessions[sid], w.sessions[other];
    if s.pc == InsertingTxn {
      InsertApart(w, sid, other);
    } else if s.pc == LockingRow {
      LockApart(w, sid, other);
    } else if s.pc == Loading {
      LoadApart(w, sid, other);
    } else if s.pc == DeletingRow {
      DeleteRowApart(w, sid, other);
    } else {
      ExecuteClaims(w, sid);
      NoNewClaimApart(s, Execute(w.db, w.nextTxn, s), t);
    }
  }

  lemma ExecuteKeepsInv(w: World, sid: int)
    requires Inv(w) && Enabled(w, Statement(sid)) && w.sessions[sid].pc !in {CommittingCreate, CommittingDelete}
    ensures Inv(Take(w, Statement(sid)))
  {
    var s, after := w.sessions[sid], Take(w, Statement(sid));
    ReachableIsSound(w.log, w.db);
    ExecuteOk(w.db, w.nextTxn, after.nextTxn, s);
    forall other | other in after.sessions ensures SessionOk(after.db, after.nextTxn, after.sessions[other]) {
      if other != sid {
        IdBoundStable(w.db, w.nextTxn, after.nextTxn, w.sessions[other]);
      }
    }
    forall i, j | i in after.sessions && j in after.sessions && i != j
      ensures Apart(after.sessions[i], after.sessions[j])
    {
      if i == sid {
        ExecuteApart(w, sid, j);
      } else if j == sid {
        ExecuteApart(w, sid, i);
      }
    }
  }

  lemma IdBoundStable(db: DB, n: int, n': int, s: Session)
    requires SessionOk(db, n, s) && n <= n'
    ensures SessionOk(db, n', s)
  {}

  lemma BeginKeepsInv(w: World, sid: int, job: Job)
    requires Inv(w) && sid !in w.sessions
    ensures Inv(Take(w, Begin(sid, job)))
  {
    var after := Take(w, Begin(sid, job));
    assert SessionOk(w.db, w.nextTxn, Fresh(job));
    forall i, j | i in after.sessions && j in after.sessions && i != j
      ensures Apart(after.sessions[i], after.sessions[j])
    {}
  }

  lemma ListKeepsInv(w: World, sid: int, order: seq<Line>)
    requires Inv(w) && Enabled(w, ListAs(sid, order))
    ensures Inv(Take(w, ListAs(sid, order)))
  {
    var s, after := w.sessions[sid], Take(w, ListAs(sid, order));
    ReachableIsSound(w.log, w.db);
    assert Distinct(LinesOf(w.db.entries, s.id));
    PermutedDistinct(LinesOf(w.db.entries, s.id), order);
    ListedAccountsLive(w.db, s.id, order);
    var t := ListEntries(s, order);
    assert t.work[..0] == [];
    assert SessionOk(w.db, w.nextTxn, s);
    assert SessionOk(w.db, w.nextTxn, t);
    forall i, j | i in after.sessions && j in after.sessions && i != j
      ensures Apart(after.sessions[i], after.sessions[j])
    {
      if i == sid {
        NoNewClaimApart(s, t, w.sessions[j]);
      } else if j == sid {
        NoNewClaimApart(s, t, w.sessions[i]);
      }
    }
  }

  lemma ListedAccountsLive(db: DB, id: int, order: seq<Line>)
    requires Referential(db) && multiset(order) == multiset(LinesOf(db.entries, id))
    ensures forall l :: l in order ==> l.account in db.balances
  {
    SameLines(order, LinesOf(db.entries, id));
    LinesOfMembers(db.entries, id);
  }

  lemma {:induction false} DistinctOnce(xs: seq<Line>, l: Line)
    requires Distinct(xs)
    ensures multiset(xs)[l] <= 1
  {
    if xs != [] {
      var init, last := xs[..|xs| - 1], xs[|xs| - 1];
      assert xs == init + [last];
      DistinctOnce(init, l);
      assert last !in init;
    }
  }

  lemma TwiceCountsTwice(ys: seq<Line>, i: nat, j: nat)
    requires i < j < |ys| && ys[i] == ys[j]
    ensures multiset(ys)[ys[i]] >= 2
  {
    assert ys == ys[..j] + ys[j..];
    assert ys[i] in ys[..j] && ys[j] in ys[j..];
  }

  lemma PermutedDistinct(xs: seq<Line>, ys: seq<Line>)
    requires Distinct(xs) && multiset(xs) == multiset(ys)
    ensures Distinct(ys)
  {
    SameLines(xs, ys);
    forall i, j | 0 <= i < j < |ys| ensures ys[i].account != ys[j].account {
      assert ys[i] in xs && ys[j] in xs;
      DistinctOnce(xs, ys[i]);
      if ys[i] == ys[j] {
        TwiceCountsTwice(ys, i, j);
      }
    }
  }

  lemma TakeKeepsInv(w: World, action: Action)
    requires Inv(w) && Enabled(w, action)
    ensures Inv(Take(w, action))
  {
    match action {
      case AccountOpened(a, user, initial) => OpenKeepsInv(w, a, user, initial);
      case Begin(sid, job) => BeginKeepsInv(w, sid, job);
      case ListAs(sid, order) => ListKeepsInv(w, sid, order);
      case Rollback(sid) => EndingKeepsApart(w, sid, Failed(Refused));
      case Statement(sid) =>
        if w.sessions[sid].pc == CommittingCreate {
          CommitCreateKeepsInv(w, sid);
        } else if w.sessions[sid].pc == CommittingDelete {
          CommitDeleteKeepsInv(w, sid);
        } else {
          ExecuteKeepsInv(w, sid);
        }
    }
  }

  lemma {:induction false} ReachableInv(actions: seq<Action>, w: World)
    requires Reaches(actions, w)
    ensures Inv(w)
  {
    if actions != [] {
      var before := Run(actions[..|actions| - 1]).value;
      ReachableInv(actions[..|actions| - 1], before);
      TakeKeepsInv(before, actions[|actions| - 1]);
    }
  }

  /** Refinement. After any schedule the committed tables are those of the
      sequential engine run on the commits in commit order, and they satisfy
      everything the sequential engine guarantees. */
  lemma ConcurrentRefinesSequential(actions: seq<Action>, w: World)
    requires Reaches(actions, w)
    ensures Leads(w.log, w.db) && Sound(w.db, Openings(w.log))
  {
    ReachableInv(actions, w);
    ReachableIsSound(w.log, w.db);
  }
}
