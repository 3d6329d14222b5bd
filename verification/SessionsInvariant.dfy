/** The invariant of the concurrent ledger and its proof: what each session has
    buffered is exactly what the sequential engine would do to the rows it has
    locked, and nothing another session commits can disturb that. */
module SessionsInvariant {
  import opened Common
  import opened Tables
  import opened Engine
  import opened Invariants
  import opened Sessions

  // ---- one session against the committed tables ----

  /** The first k lines are buffered, each as one move of the committed row. */
  ghost predicate Buffered(db: DB, s: Session, k: nat) {
    && k <= |s.work|
    && s.buf.Keys == Touched(s.work[..k])
    && forall j :: 0 <= j < k ==>
         var l := s.work[j];
         l.account in db.balances && l.account in s.buf
         && NewBalance(Dir(s.job), db.balances[l.account], l.amount) >= 0
         && s.buf[l.account] == Moved(Dir(s.job), db.balances[l.account], s.id, l.amount)
  }

  predicate Clear(s: Session) {
    s.buf == map[] && s.rows == [] && s.linked == [] && s.locked == {} && s.done == 0
  }

  /** The row about to be written is locked and was read as it is committed. */
  predicate Seen(db: DB, s: Session) {
    s.done < |s.work|
    && var a := s.work[s.done].account;
       a in db.balances && s.seenBalance == db.balances[a].balance && s.seenVersion == db.balances[a].version
       && s.locked == s.buf.Keys + {a}
  }

  ghost predicate CreateProgress(db: DB, s: Session)
    requires s.job.CreateJob?
  {
    Buffered(db, s, s.done) && Distinct(s.work)
    && match s.pc
       case InsertingEntry =>
         s.done < |s.work| && s.rows == EntriesFor(s.id, s.work[..s.done]) && s.linked == [] && s.locked == s.buf.Keys
       case LockingRow =>
         s.done < |s.work| && s.rows == EntriesFor(s.id, s.work[..s.done + 1]) && s.linked == []
             && s.locked == s.buf.Keys
       case WritingRow =>
         Seen(db, s) && s.rows == EntriesFor(s.id, s.work[..s.done + 1]) && s.linked == []
       case LinkingCategory =>
         s.done == |s.work| && s.rows == EntriesFor(s.id, s.work) && s.linked == [] && s.locked == s.buf.Keys
       case CommittingCreate =>
         s.done == |s.work| && s.rows == EntriesFor(s.id, s.work) && s.locked == s.buf.Keys
         && s.linked == LinksFor(s.id, CategoriesFor(s.job.req))
       case _ => false
  }

  predicate OwnedUpTo(db: DB, s: Session)
    requires s.job.CreateJob?
  {
    s.done <= |s.work| && (s.done > 0 ==> ValidRequest(s.job.req))
    && forall j :: 0 <= j < s.done ==>
         s.work[j].account in db.accounts && db.accounts[s.work[j].account] == s.job.user
  }

  predicate Unused(db: DB, id: int, key: string) {
    id !in db.txns && (key != "" ==> forall t :: t in db.txns ==> db.txns[t].key != key)
  }

  ghost predicate CreateOk(db: DB, nextTxn: int, s: Session)
    requires s.job.CreateJob?
  {
    s.pc.Ended? || (
      && s.work == LinesFor(s.job.req)
      && (s.pc == Checking ==> s.buf == map[] && s.rows == [] && s.linked == [] && s.locked == {} && OwnedUpTo(db, s))
      && (s.pc != Checking ==> ValidRequest(s.job.req) && Owns(db, s.job.user, s.job.req))
      && (s.pc in {FindingKey, InsertingTxn, FindingWinner} ==> Clear(s))
      && (s.pc in {FindingKey, FindingWinner} ==> s.job.key != "")
      && (s.pc !in {Checking, FindingKey, InsertingTxn, FindingWinner} ==>
            s.id < nextTxn && Unused(db, s.id, s.job.key) && CreateProgress(db, s)))
  }

  ghost predicate DeleteProgress(db: DB, s: Session)
    requires s.job.DeleteJob?
  {
    Buffered(db, s, s.done) && Distinct(s.work)
    && (s.id in db.txns ==> multiset(s.work) == multiset(LinesOf(db.entries, s.id)))
    && (forall l :: l in s.work ==> l.account in db.balances)
    && match s.pc
       case LockingRow => s.done < |s.work| && s.locked == s.buf.Keys
       case WritingRow => Seen(db, s)
       case DeletingEntries => s.done == |s.work| && s.locked == s.buf.Keys
       case DeletingRow => s.done == |s.work| && s.locked == s.buf.Keys
       case CommittingDelete => s.done == |s.work| && s.locked == s.buf.Keys && s.id in db.txns
       case _ => false
  }

  ghost predicate DeleteOk(db: DB, nextTxn: int, s: Session)
    requires s.job.DeleteJob?
  {
    s.pc.Ended? || (
      && s.id == s.job.target
      && (s.pc in {Loading, Listing} ==> Clear(s) && s.work == [])
      && (s.pc != Loading ==> s.id < nextTxn && (s.id in db.txns ==> db.txns[s.id].user == s.job.user))
      && (s.pc !in {Loading, Listing} ==> DeleteProgress(db, s)))
  }

  ghost predicate SessionOk(db: DB, nextTxn: int, s: Session) {
    && (s.pc.Ended? ==> s.locked == {})
    && (match s.job
        case CreateJob(_, _, _) => CreateOk(db, nextTxn, s)
        case DeleteJob(_, _) => DeleteOk(db, nextTxn, s))
  }

  // ---- two sessions ----

  predicate AimsAt(s: Session, id: int) {
    s.job.DeleteJob? && !s.pc.Ended? && s.pc != Loading && s.id == id
  }

  predicate Apart(s: Session, t: Session) {
    && s.locked !! t.locked
    && (HasInserted(s) && HasInserted(t) ==> s.id != t.id && (s.job.key == t.job.key ==> s.job.key == ""))
    && (HasInserted(s) ==> !AimsAt(t, s.id))
    && (s.pc == CommittingDelete && t.pc == CommittingDelete ==> s.id != t.id)
  }

  ghost predicate Inv(w: World) {
    && Leads(w.log, w.db)
    && (forall t :: t in w.db.txns ==> t < w.nextTxn)
    && (forall sid :: sid in w.sessions ==> SessionOk(w.db, w.nextTxn, w.sessions[sid]))
    && (forall i, j :: i in w.sessions && j in w.sessions && i != j ==> Apart(w.sessions[i], w.sessions[j]))
  }

  // ---- what commits by others leave alone ----

  /** From db to after, seen by a session s that is not the committer: accounts
      stay, rows outside `touched` stay, and the transactions s cares about
      stay as they are. */
  ghost predicate Undisturbed(db: DB, after: DB, touched: set<int>, s: Session) {
    && (forall a :: a in db.accounts ==> a in after.accounts && after.accounts[a] == db.accounts[a])
    && db.balances.Keys <= after.balances.Keys
    && (forall a :: a in db.balances && a !in touched ==> after.balances[a] == db.balances[a])
    && (HasInserted(s) ==> Unused(after, s.id, s.job.key))
    && (forall id :: AimsAt(s, id) && id in after.txns ==>
          id in db.txns && after.txns[id].user == db.txns[id].user
              && LinesOf(after.entries, id) == LinesOf(db.entries, id))
    && (s.pc == CommittingDelete && s.id in db.txns ==> s.id in after.txns)
  }

  lemma BufferedStable(db: DB, after: DB, touched: set<int>, s: Session)
    requires Buffered(db, s, s.done) && s.buf.Keys !! touched
    requires forall a :: a in db.balances && a !in touched ==>
        a in after.balances && after.balances[a] == db.balances[a]
    ensures Buffered(after, s, s.done)
  {
    forall j | 0 <= j < s.done
      ensures s.work[j].account in after.balances && after.balances[s.work[j].account] == db.balances[s.work[j].account]
    {
      assert s.work[j].account in s.buf;
    }
  }

  lemma CreateStable(db: DB, after: DB, n: int, n': int, touched: set<int>, s: Session)
    requires s.job.CreateJob? && SessionOk(db, n, s) && n <= n'
    requires Undisturbed(db, after, touched, s) && s.locked !! touched
    ensures SessionOk(after, n', s)
  {
    if HasInserted(s) {
      assert s.buf.Keys <= s.locked;
      BufferedStable(db, after, touched, s);
    }
  }

  lemma DeleteStable(db: DB, after: DB, n: int, n': int, touched: set<int>, s: Session)
    requires s.job.DeleteJob? && SessionOk(db, n, s) && n <= n'
    requires Undisturbed(db, after, touched, s) && s.locked !! touched
    ensures SessionOk(after, n', s)
  {
    if !s.pc.Ended? && s.pc != Loading {
      assert AimsAt(s, s.id);
      if s.pc != Listing {
        assert s.buf.Keys <= s.locked;
        BufferedStable(db, after, touched, s);
      }
    }
  }

  lemma SessionStable(db: DB, after: DB, n: int, n': int, touched: set<int>, s: Session)
    requires SessionOk(db, n, s) && n <= n' && Undisturbed(db, after, touched, s) && s.locked !! touched
    ensures SessionOk(after, n', s)
  {
    match s.job {
      case CreateJob(_, _, _) => CreateStable(db, after, n, n', touched, s);
      case DeleteJob(_, _) => DeleteStable(db, after, n, n', touched, s);
    }
  }

  // ---- steps that commit nothing ----

  lemma LockRowOk(db: DB, n: int, s: Session)
    requires SessionOk(db, n, s) && s.pc == LockingRow
    ensures SessionOk(db, n, LockRow(db, s))
  {
    NotTouchedYet(s.work, s.done);
  }

  lemma BufferOneMore(db: DB, s: Session, after: Session)
    requires Buffered(db, s, s.done) && s.done < |s.work|
    requires after.work == s.work && after.job == s.job && after.id == s.id
    requires var l := s.work[s.done];
             l.account in db.balances && l.account !in s.buf
             && NewBalance(Dir(s.job), db.balances[l.account], l.amount) >= 0
             && after.buf == s.buf[l.account := Moved(Dir(s.job), db.balances[l.account], s.id, l.amount)]
    ensures Buffered(db, after, s.done + 1)
  {
    var l := s.work[s.done];
    assert s.work[..s.done + 1] == s.work[..s.done] + [l];
    assert Touched(s.work[..s.done + 1]) == Touched(s.work[..s.done]) + {l.account};
    forall j | 0 <= j < s.done ensures s.work[j].account != l.account {
      assert s.work[j].account in s.buf;
    }
  }

  lemma WriteRowBuffers(db: DB, n: int, s: Session)
    requires SessionOk(db, n, s) && s.pc == WritingRow && Runnable(s)
    requires !WriteRow(db, s).pc.Ended?
    ensures Buffered(db, WriteRow(db, s), s.done + 1)
  {
    NotBufferedYet(db, n, s);
    BufferOneMore(db, s, WriteRow(db, s));
  }

  lemma NotBufferedYet(db: DB, n: int, s: Session)
    requires SessionOk(db, n, s) && s.pc == WritingRow
    ensures s.work[s.done].account !in s.buf
    ensures Visible(db, s)[s.work[s.done].account] == db.balances[s.work[s.done].account]
  {
    NotTouchedYet(s.work, s.done);
  }

  lemma WriteRowOk(db: DB, n: int, s: Session)
    requires SessionOk(db, n, s) && s.pc == WritingRow && Runnable(s)
    ensures SessionOk(db, n, WriteRow(db, s))
    ensures WriteRow(db, s).pc != Ended(Failed(VersionConflict))
  {
    NotBufferedYet(db, n, s);
    if !WriteRow(db, s).pc.Ended? {
      WriteRowBuffers(db, n, s);
      WriteRowProgress(db, n, s);
    }
  }

  lemma WriteRowProgress(db: DB, n: int, s: Session)
    requires SessionOk(db, n, s) && s.pc == WritingRow && Runnable(s) && !WriteRow(db, s).pc.Ended?
    requires Buffered(db, WriteRow(db, s), s.done + 1)
    ensures SessionOk(db, n, WriteRow(db, s))
  {
    var after := WriteRow(db, s);
    assert after.locked == after.buf.Keys;
    if s.done + 1 == |s.work| {
      assert s.work[..s.done + 1] == s.work;
    }
  }

  lemma DeleteRowIsQuiet(db: DB, s: Session)
    requires s.job.DeleteJob? && DeleteProgress(db, s) && s.done == |s.work| && LastNamed(db)
    ensures !DeleteRow(db, s).pc.Ended? ==> s.id in db.txns && DeleteRow(db, s) == s.(pc := CommittingDelete)
  {
    if s.id in db.txns {
      NothingToForget(db, s);
      assert SetNull(Visible(db, s), {}) == map[];
      assert s.buf + map[] == s.buf;
    }
  }

  lemma DeleteRowOk(db: DB, n: int, s: Session)
    requires SessionOk(db, n, s) && s.pc == DeletingRow && s.job.DeleteJob? && LastNamed(db)
    ensures SessionOk(db, n, DeleteRow(db, s))
    ensures !DeleteRow(db, s).pc.Ended? ==> DeleteRow(db, s) == s.(pc := CommittingDelete)
  {
    DeleteRowIsQuiet(db, s);
  }

  lemma ReversedForgets(db: DB, s: Session)
    requires s.job.DeleteJob? && Buffered(db, s, |s.work|)
    ensures forall a :: a in s.buf ==> s.buf[a].lastTxn != Some(s.id)
  {
    assert s.work[..|s.work|] == s.work;
    forall a | a in s.buf ensures s.buf[a].lastTxn != Some(s.id) {
      var l :| l in s.work && l.account == a;
      var j :| 0 <= j < |s.work| && s.work[j] == l;
      assert s.buf[a] == Moved(Reverse, db.balances[a], s.id, l.amount);
    }
  }

  lemma VisibleNames(db: DB, s: Session)
    requires (forall a :: a in s.buf ==> s.buf[a].lastTxn != Some(s.id))
    requires forall a :: a in db.balances && a !in s.buf ==> db.balances[a].lastTxn != Some(s.id)
    ensures Referencing(db, s) == {}
  {
    forall a | a in Visible(db, s) ensures Visible(db, s)[a].lastTxn != Some(s.id) {
      assert Visible(db, s)[a] == if a in s.buf then s.buf[a] else db.balances[a];
    }
  }

  /** Once every listed row is reversed, no visible row still names the target:
      SET NULL finds nothing left to do. */
  lemma NothingToForget(db: DB, s: Session)
    requires s.job.DeleteJob? && DeleteProgress(db, s) && s.done == |s.work| && s.id in db.txns && LastNamed(db)
    ensures Referencing(db, s) == {}
  {
    SameLines(s.work, LinesOf(db.entries, s.id));
    assert s.work[..s.done] == s.work;
    assert s.buf.Keys == Touched(LinesOf(db.entries, s.id));
    ReversedForgets(db, s);
    VisibleNames(db, s);
  }

  lemma ExecuteOk(db: DB, n: int, n': int, s: Session)
    requires SessionOk(db, n, s) && Runnable(s) && LastNamed(db)
    requires s.pc != CommittingCreate && s.pc != CommittingDelete
    requires forall t :: t in db.txns ==> t < n
    requires s.pc == InsertingTxn ==> n' == n + 1
    requires s.pc != InsertingTxn ==> n' == n
    ensures SessionOk(db, n', Execute(db, n, s))
  {
    match s.pc {
      case Checking =>
        CheckOk(db, n, s);
      case FindingKey =>
      case InsertingTxn =>
        InsertTxnOk(db, n, s);
      case FindingWinner =>
      case InsertingEntry =>
        InsertEntryOk(db, n, s);
      case LockingRow =>
        LockRowOk(db, n, s);
      case WritingRow =>
        WriteRowOk(db, n, s);
      case LinkingCategory =>
      case Loading =>
      case DeletingEntries =>
      case DeletingRow =>
        DeleteRowOk(db, n, s);
    }
  }

  lemma CheckOk(db: DB, n: int, s: Session)
    requires SessionOk(db, n, s) && s.pc == Checking && s.job.CreateJob?
    ensures SessionOk(db, n, Check(db, s))
  {}

  lemma InsertTxnOk(db: DB, n: int, s: Session)
    requires SessionOk(db, n, s) && s.pc == InsertingTxn && s.job.CreateJob? && n !in db.txns
    ensures SessionOk(db, n + 1, InsertTxn(db, s, n))
  {
    DistinctRequest(s.job.req);
  }

  lemma InsertEntryOk(db: DB, n: int, s: Session)
    requires SessionOk(db, n, s) && s.pc == InsertingEntry && s.job.CreateJob?
    ensures SessionOk(db, n, InsertEntry(s))
  {
    assert EntriesFor(s.id, s.work[..s.done + 1]) == EntriesFor(s.id, s.work[..s.done]) + [Entry(s.id, s.work[s.done])];
  }
}
