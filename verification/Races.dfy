/** What racing calls may rely on: idempotent creates, deletes that reverse
    once, versions that witness change, and conflict branches that never run. */
module Races {
  import opened Common
  import opened Tables
  import opened Engine
  import opened Invariants
  import opened Histories
  import opened Sessions
  import opened SessionsInvariant
  import opened Refinement

  // ---- one step of the machine is at most one step of the engine ----

  /** An action either commits nothing, or appends one operation that the
      sequential engine accepts with the same result. */
  ghost predicate Simulated(w: World, after: World) {
    (after.db == w.db && after.log == w.log)
    || exists op :: after.log == w.log + [op] && Apply(w.db, op) == Some(after.db)
  }

  lemma StepSimulates(w: World, action: Action)
    requires Inv(w) && Enabled(w, action)
    ensures Simulated(w, Take(w, action))
  {
    match action {
      case AccountOpened(a, user, initial) =>
        assert Apply(w.db, OpenAccount(a, user, initial)) == Some(Take(w, action).db);
      case Statement(sid) =>
        if w.sessions[sid].pc == CommittingCreate {
          CommittedCreate(w, sid);
        } else if w.sessions[sid].pc == CommittingDelete {
          CommittedDelete(w, sid);
        }
      case _ =>
    }
  }

  // ---- what the log says about ids ----

  predicate Mentions(op: Op, id: int) {
    (op.Create? && op.id == id) || (op.Delete? && op.id == id)
  }

  predicate Unmentioned(log: seq<Op>, id: int) {
    forall p :: 0 <= p < |log| ==> !Mentions(log[p], id)
  }

  predicate OpsKnown(log: seq<Op>) {
    forall p :: 0 <= p < |log| ==> log[p].OpenAccount? || log[p].Create? || log[p].Delete?
  }

  /** Ids in the log came from the sequence. */
  predicate IdsDrawn(log: seq<Op>, nextTxn: int) {
    forall p :: 0 <= p < |log| && (log[p].Create? || log[p].Delete?) ==> log[p].id < nextTxn
  }

  predicate CreatedOnce(log: seq<Op>) {
    forall p, q :: 0 <= p < q < |log| && log[p].Create? && log[q].Create? ==> log[p].id != log[q].id
  }

  predicate DeletedOnce(log: seq<Op>) {
    forall p, q :: 0 <= p < q < |log| && log[p].Delete? && log[q].Delete? ==> log[p].id != log[q].id
  }

  predicate DeletedGone(log: seq<Op>, txns: map<int, TxnRow>) {
    forall p :: 0 <= p < |log| && log[p].Delete? ==> log[p].id !in txns
  }

  predicate PendingNew(log: seq<Op>, sessions: map<int, Session>) {
    forall sid :: sid in sessions && HasInserted(sessions[sid]) ==> Unmentioned(log, sessions[sid].id)
  }

  predicate LogOk(w: World) {
    OpsKnown(w.log) && IdsDrawn(w.log, w.nextTxn) && CreatedOnce(w.log) && DeletedOnce(w.log)
    && DeletedGone(w.log, w.db.txns) && PendingNew(w.log, w.sessions)
  }

  /** What a finished call's answer says about the log. */
  ghost predicate OutcomeOk(log: seq<Op>, s: Session) {
    s.pc.Ended? ==>
      match s.pc.outcome
      case Created(id) =>
        s.job.CreateJob? && exists p :: 0 <= p < |log| && log[p] == Create(id, s.job.user, s.job.req, s.job.key)
      case Existing(id) =>
        s.job.CreateJob? && s.job.key != ""
        && exists p :: 0 <= p < |log| && log[p].Create? && log[p].id == id && log[p].user == s.job.user
            && log[p].key == s.job.key
      case Removed(id) =>
        s.job.DeleteJob? && id == s.job.target && exists p :: 0 <= p < |log| && log[p] == Delete(id, s.job.user)
      case Failed(e) => e != VersionConflict && e != MissingBalance
  }

  ghost predicate Outcomes(w: World) {
    forall sid :: sid in w.sessions ==> OutcomeOk(w.log, w.sessions[sid])
  }

  /** No two calls report having created, or having removed, one transaction. */
  ghost predicate NoDoubleCredit(w: World) {
    forall i, j :: i in w.sessions && j in w.sessions && i != j && w.sessions[i].pc.Ended?
                   && (w.sessions[i].pc.outcome.Created? || w.sessions[i].pc.outcome.Removed?) ==>
      w.sessions[i].pc != w.sessions[j].pc
  }

  ghost predicate History(w: World) {
    Inv(w) && LogOk(w) && Outcomes(w) && NoDoubleCredit(w)
  }

  /** Every live row was put there by a create in the history. */
  lemma {:induction false} LiveRowWasCreated(ops: seq<Op>, db: DB, id: int)
    requires Leads(ops, db) && id in db.txns
    ensures exists p :: 0 <= p < |ops| && ops[p].Create? && ops[p].id == id
                     && ops[p].user == db.txns[id].user && ops[p].key == db.txns[id].key
  {
    var init, last := ops[..|ops| - 1], ops[|ops| - 1];
    var before := Replay(EMPTY_DB, init).value;
    if last.Create? && last.id == id {
      assert Apply(before, last).value.txns[id] == RowFor(last.user, last.req, last.key);
    } else {
      assert id in before.txns && before.txns[id].user == db.txns[id].user && before.txns[id].key == db.txns[id].key;
      LiveRowWasCreated(init, before, id);
      var p :| 0 <= p < |init| && init[p].Create? && init[p].id == id
               && init[p].user == before.txns[id].user && init[p].key == before.txns[id].key;
      assert ops[p] == init[p];
    }
  }

  lemma OutcomeGrows(log: seq<Op>, op: Op, s: Session)
    requires OutcomeOk(log, s)
    ensures OutcomeOk(log + [op], s)
  {
    var more := log + [op];
    assert forall p :: 0 <= p < |log| ==> more[p] == log[p];
    if s.pc.Ended? {
      match s.pc.outcome {
        case Created(id) =>
          var p :| 0 <= p < |log| && log[p] == Create(id, s.job.user, s.job.req, s.job.key);
          assert more[p] == log[p];
        case Existing(id) =>
          var p :| 0 <= p < |log| && log[p].Create? && log[p].id == id && log[p].user == s.job.user
              && log[p].key == s.job.key;
          assert more[p] == log[p];
        case Removed(id) =>
          var p :| 0 <= p < |log| && log[p] == Delete(id, s.job.user);
          assert more[p] == log[p];
        case Failed(_) =>
      }
    }
  }

  lemma ExistingOutcome(w: World, s: Session)
    requires Inv(w) && s.job.CreateJob? && Replays(w.db.txns, s.job.user, s.job.key)
    ensures OutcomeOk(w.log, End(s, Existing(Holder(w.db.txns, s.job.user, s.job.key))))
  {
    LiveRowWasCreated(w.log, w.db, Holder(w.db.txns, s.job.user, s.job.key));
  }

  lemma ExecuteOutcome(w: World, sid: int)
    requires History(w) && Enabled(w, Statement(sid)) && w.sessions[sid].pc !in {CommittingCreate, CommittingDelete}
    ensures OutcomeOk(w.log, Execute(w.db, w.nextTxn, w.sessions[sid]))
  {
    var s := w.sessions[sid];
    assert SessionOk(w.db, w.nextTxn, s);
    if s.pc in {FindingKey, FindingWinner} && Replays(w.db.txns, s.job.user, s.job.key) {
      ExistingOutcome(w, s);
    } else if s.pc == WritingRow {
      WriteRowOk(w.db, w.nextTxn, s);
    } else if s.pc == LockingRow {
      LockFindsRow(w, s);
    }
  }

  /** Nothing removes accounts here, so FOR UPDATE always finds its row. */
  lemma LockFindsRow(w: World, s: Session)
    requires Inv(w) && SessionOk(w.db, w.nextTxn, s) && s.pc == LockingRow && Runnable(s)
    ensures !LockRow(w.db, s).pc.Ended?
  {
    ReachableIsSound(w.log, w.db);
    var l := s.work[s.done];
    if s.job.CreateJob? {
      assert l in LinesFor(s.job.req);
    } else {
      assert l in s.work;
    }
  }

  // ---- every action keeps the history facts ----

  lemma PendingStaysNew(w: World, sid: int, op: Op, outcome: Outcome)
    requires PendingNew(w.log, w.sessions) && sid in w.sessions
    requires forall other :: other in w.sessions && other != sid && HasInserted(w.sessions[other]) ==>
               !Mentions(op, w.sessions[other].id)
    ensures PendingNew(w.log + [op], w.sessions[sid := End(w.sessions[sid], outcome)])
  {}

  lemma CommitCreateLogOk(w: World, sid: int)
    requires Inv(w) && LogOk(w) && Enabled(w, Statement(sid)) && w.sessions[sid].pc == CommittingCreate
    ensures LogOk(CommitCreate(w, sid))
  {
    var s, log := w.sessions[sid], w.log;
    var op := Create(s.id, s.job.user, s.job.req, s.job.key);
    assert SessionOk(w.db, w.nextTxn, s);
    assert Unmentioned(log, s.id);
    assert CreatedOnce(log + [op]) by {
      assert forall p :: 0 <= p < |log| && log[p].Create? ==> Mentions(log[p], log[p].id);
    }
    assert DeletedGone(log + [op], CommitCreate(w, sid).db.txns) by {
      assert forall p :: 0 <= p < |log| && log[p].Delete? ==> Mentions(log[p], log[p].id);
    }
    forall other | other in w.sessions && other != sid && HasInserted(w.sessions[other])
      ensures !Mentions(op, w.sessions[other].id)
    {
      assert Apart(s, w.sessions[other]);
    }
    PendingStaysNew(w, sid, op, Created(s.id));
  }

  lemma CommitDeleteLogOk(w: World, sid: int)
    requires Inv(w) && LogOk(w) && Enabled(w, Statement(sid)) && w.sessions[sid].pc == CommittingDelete
    ensures LogOk(CommitDelete(w, sid))
  {
    var s, log := w.sessions[sid], w.log;
    var op := Delete(s.id, s.job.user);
    assert SessionOk(w.db, w.nextTxn, s);
    assert DeletedOnce(log + [op]);
    forall other | other in w.sessions && other != sid && HasInserted(w.sessions[other])
      ensures !Mentions(op, w.sessions[other].id)
    {
      assert Apart(w.sessions[other], s);
    }
    PendingStaysNew(w, sid, op, Removed(s.id));
  }

  /** The committer's answer is new, so it doubles nobody's. */
  lemma CommitAnswers(w: World, sid: int, op: Op, answer: Outcome)
    requires Outcomes(w) && NoDoubleCredit(w) && sid in w.sessions
    requires forall other :: other in w.sessions ==> w.sessions[other].pc != Ended(answer)
    requires OutcomeOk(w.log + [op], End(w.sessions[sid], answer))
    ensures var sessions := w.sessions[sid := End(w.sessions[sid], answer)];
            (forall i :: i in sessions ==> OutcomeOk(w.log + [op], sessions[i]))
            && forall db, n :: NoDoubleCredit(World(db, n, sessions, w.log + [op]))
  {
    var sessions := w.sessions[sid := End(w.sessions[sid], answer)];
    forall i | i in sessions ensures OutcomeOk(w.log + [op], sessions[i]) {
      if i != sid {
        OutcomeGrows(w.log, op, w.sessions[i]);
      }
    }
  }

  lemma NotYetCreated(w: World, id: int)
    requires Outcomes(w) && Unmentioned(w.log, id)
    ensures forall other :: other in w.sessions ==> w.sessions[other].pc != Ended(Created(id))
  {
    forall other | other in w.sessions ensures w.sessions[other].pc != Ended(Created(id)) {
      assert OutcomeOk(w.log, w.sessions[other]);
    }
  }

  lemma NotYetRemoved(w: World, id: int)
    requires Outcomes(w) && DeletedGone(w.log, w.db.txns) && id in w.db.txns
    ensures forall other :: other in w.sessions ==> w.sessions[other].pc != Ended(Removed(id))
  {
    forall other | other in w.sessions ensures w.sessions[other].pc != Ended(Removed(id)) {
      assert OutcomeOk(w.log, w.sessions[other]);
    }
  }

  lemma CommitCreateHistory(w: World, sid: int)
    requires History(w) && Enabled(w, Statement(sid)) && w.sessions[sid].pc == CommittingCreate
    ensures History(CommitCreate(w, sid))
  {
    var s := w.sessions[sid];
    var op := Create(s.id, s.job.user, s.job.req, s.job.key);
    CommitCreateKeepsInv(w, sid);
    CommitCreateLogOk(w, sid);
    NotYetCreated(w, s.id);
    assert (w.log + [op])[|w.log|] == op;
    CommitAnswers(w, sid, op, Created(s.id));
  }

  lemma CommitDeleteHistory(w: World, sid: int)
    requires History(w) && Enabled(w, Statement(sid)) && w.sessions[sid].pc == CommittingDelete
    ensures History(CommitDelete(w, sid))
  {
    var s := w.sessions[sid];
    var op := Delete(s.id, s.job.user);
    CommitDeleteKeepsInv(w, sid);
    CommitDeleteLogOk(w, sid);
    assert s.id in w.db.txns && s.id == s.job.target by {
      assert SessionOk(w.db, w.nextTxn, s);
    }
    NotYetRemoved(w, s.id);
    assert (w.log + [op])[|w.log|] == op;
    CommitAnswers(w, sid, op, Removed(s.id));
  }

  lemma OpenLogOk(w: World, op: Op)
    requires LogOk(w) && op.OpenAccount?
    ensures OpsKnown(w.log + [op]) && IdsDrawn(w.log + [op], w.nextTxn) && CreatedOnce(w.log + [op])
    ensures DeletedOnce(w.log + [op]) && DeletedGone(w.log + [op], w.db.txns) && PendingNew(w.log + [op], w.sessions)
  {}

  lemma OpenHistory(w: World, a: int, user: int, initial: int)
    requires History(w) && Enabled(w, AccountOpened(a, user, initial))
    ensures History(Take(w, AccountOpened(a, user, initial)))
  {
    var after := Take(w, AccountOpened(a, user, initial));
    OpenKeepsInv(w, a, user, initial);
    OpenLogOk(w, OpenAccount(a, user, initial));
    assert Outcomes(after) by {
      forall sid | sid in after.sessions ensures OutcomeOk(after.log, after.sessions[sid]) {
        OutcomeGrows(w.log, OpenAccount(a, user, initial), w.sessions[sid]);
      }
    }
  }

  /** A step that commits nothing replaces one session, which either goes on or
      ends without credit for a create or a delete. */
  lemma QuietHistory(w: World, after: World, sid: int)
    requires History(w) && Inv(after) && after.db == w.db && after.log == w.log && after.nextTxn >= w.nextTxn
    requires sid in after.sessions && after.sessions == w.sessions[sid := after.sessions[sid]]
    requires OutcomeOk(w.log, after.sessions[sid])
    requires after.sessions[sid].pc.Ended? ==>
        after.sessions[sid].pc.outcome.Existing? || after.sessions[sid].pc.outcome.Failed?
    requires HasInserted(after.sessions[sid]) ==>
               (sid in w.sessions && HasInserted(w.sessions[sid]) && after.sessions[sid].id == w.sessions[sid].id)
               || after.sessions[sid].id == w.nextTxn
    ensures History(after)
  {}

  lemma ExecuteHistory(w: World, sid: int)
    requires History(w) && Enabled(w, Statement(sid)) && w.sessions[sid].pc !in {CommittingCreate, CommittingDelete}
    ensures History(Take(w, Statement(sid)))
  {
    ExecuteKeepsInv(w, sid);
    ExecuteOutcome(w, sid);
    var s := w.sessions[sid];
    assert SessionOk(w.db, w.nextTxn, s);
    ExecuteNoCredit(w.db, w.nextTxn, s);
    QuietHistory(w, Take(w, Statement(sid)), sid);
  }

  lemma ExecuteNoCredit(db: DB, n: int, s: Session)
    requires SessionOk(db, n, s) && Runnable(s) && s.pc !in {CommittingCreate, CommittingDelete}
    ensures var after := Execute(db, n, s);
            (after.pc.Ended? ==> after.pc.outcome.Existing? || after.pc.outcome.Failed?)
            && (HasInserted(after) ==> (HasInserted(s) && after.id == s.id) || after.id == n)
  {}

  lemma ExecuteKeepsJob(w: World, sid: int)
    requires Enabled(w, Statement(sid))
    ensures sid in Take(w, Statement(sid)).sessions
    ensures Take(w, Statement(sid)).sessions[sid].job == w.sessions[sid].job
  {}

  /** A create enters the log as its session was opened. */
  lemma CreatesComeFromJobs(w: World, a: Action, p: nat)
    requires Enabled(w, a) && p < |Take(w, a).log| && Take(w, a).log[p].Create?
    ensures (p < |w.log| && Take(w, a).log[p] == w.log[p])
         || (a.Statement? && var op, job := Take(w, a).log[p], w.sessions[a.sid].job;
                             job.CreateJob? && op.user == job.user && op.req == job.req && op.key == job.key)
  {}

  lemma TakeKeepsHistory(w: World, action: Action)
    requires History(w) && Enabled(w, action)
    ensures History(Take(w, action))
  {
    match action {
      case AccountOpened(a, user, initial) => OpenHistory(w, a, user, initial);
      case Begin(sid, job) =>
        TakeKeepsInv(w, action);
        QuietHistory(w, Take(w, action), sid);
      case ListAs(sid, order) =>
        TakeKeepsInv(w, action);
        QuietHistory(w, Take(w, action), sid);
      case Rollback(sid) =>
        TakeKeepsInv(w, action);
        QuietHistory(w, Take(w, action), sid);
      case Statement(sid) =>
        if w.sessions[sid].pc == CommittingCreate {
          CommitCreateHistory(w, sid);
        } else if w.sessions[sid].pc == CommittingDelete {
          CommitDeleteHistory(w, sid);
        } else {
          ExecuteHistory(w, sid);
        }
    }
  }

  lemma {:induction false} ReachableHistory(actions: seq<Action>, w: World)
    requires Reaches(actions, w)
    ensures History(w)
  {
    if actions != [] {
      var before := Run(actions[..|actions| - 1]).value;
      ReachableHistory(actions[..|actions| - 1], before);
      TakeKeepsHistory(before, actions[|actions| - 1]);
    }
  }

  // ---- the results ----

  predicate CreatesUnder(op: Op, key: string) {
    op.Create? && op.key == key
  }

  predicate DeletesOf(op: Op, id: int) {
    op.Delete? && op.id == id
  }

  /** The call succeeded under this key and answered this transaction. */
  predicate Answered(s: Session, key: string, id: int) {
    s.job.CreateJob? && s.job.key == key && (s.pc == Ended(Created(id)) || s.pc == Ended(Existing(id)))
  }

  /** No delete in the log removed a transaction created under this key. */
  ghost predicate KeyNeverDeleted(log: seq<Op>, key: string) {
    forall p, q :: 0 <= p < |log| && 0 <= q < |log| && CreatesUnder(log[p], key) ==> !DeletesOf(log[q], log[p].id)
  }

  /** Idempotent create. However many calls race under one key, of whatever
      users: money moved for the key at most once, every call that succeeded
      answers the same id, and that transaction is live and the caller's. */
  lemma IdempotentCreate(actions: seq<Action>, w: World, key: string)
    requires Reaches(actions, w) && key != "" && KeyNeverDeleted(w.log, key)
    ensures forall p, q ::
              0 <= p < |w.log| && 0 <= q < |w.log| && CreatesUnder(w.log[p], key) && CreatesUnder(w.log[q], key) ==>
              p == q
    ensures forall i, id ::
              i in w.sessions && Answered(w.sessions[i], key, id) ==> Holds(w.db.txns, w.sessions[i].job.user, key, id)
    ensures forall i, j, x, y ::
              i in w.sessions && j in w.sessions
              && Answered(w.sessions[i], key, x) && Answered(w.sessions[j], key, y) ==>
              x == y && w.sessions[i].job.user == w.sessions[j].job.user
  {
    ReachableHistory(actions, w);
    ReachableIsSound(w.log, w.db);
    forall p, q | 0 <= p < q < |w.log| && CreatesUnder(w.log[p], key)
      ensures !CreatesUnder(w.log[q], key)
    {
      if CreatesUnder(w.log[q], key) {
        KeyReuseNeedsDelete(w.log, w.db, p, q);
        var k :| p <= k < q && w.log[k].Delete? && w.log[k].id == w.log[p].id;
        assert DeletesOf(w.log[k], w.log[p].id);
      }
    }
    forall i, id | i in w.sessions && Answered(w.sessions[i], key, id)
      ensures Holds(w.db.txns, w.sessions[i].job.user, key, id)
    {
      CreditIsLive(w, i, id);
    }
  }

  lemma CreditIsLive(w: World, i: int, id: int)
    requires History(w) && i in w.sessions && w.sessions[i].job.CreateJob? && w.sessions[i].job.key != ""
    requires KeyNeverDeleted(w.log, w.sessions[i].job.key) && Answered(w.sessions[i], w.sessions[i].job.key, id)
    ensures Holds(w.db.txns, w.sessions[i].job.user, w.sessions[i].job.key, id)
  {
    var s := w.sessions[i];
    assert OutcomeOk(w.log, s);
    var p :| 0 <= p < |w.log| && w.log[p].Create? && w.log[p].id == id && w.log[p].user == s.job.user
        && w.log[p].key == s.job.key;
    assert CreatesUnder(w.log[p], s.job.key);
    CreatedRowPersists(w.log, p, w.db);
    assert forall k :: 0 <= k < |w.log| ==> !DeletesOf(w.log[k], id);
  }

  /** Racing deletes reverse once: at most one delete of a transaction commits,
      at most one call reports it, and from then on the transaction is gone. */
  lemma DeletesReverseOnce(actions: seq<Action>, w: World, id: int)
    requires Reaches(actions, w)
    ensures forall p, q ::
              0 <= p < |w.log| && 0 <= q < |w.log| && DeletesOf(w.log[p], id) && DeletesOf(w.log[q], id) ==> p == q
    ensures forall i, j ::
              i in w.sessions && j in w.sessions && w.sessions[i].pc == Ended(Removed(id)) == w.sessions[j].pc ==>
              i == j
    ensures forall i :: i in w.sessions && w.sessions[i].pc == Ended(Removed(id)) ==>
              id !in w.db.txns && LinesOf(w.db.entries, id) == []
              && exists p :: 0 <= p < |w.log| && DeletesOf(w.log[p], id)
  {
    ReachableHistory(actions, w);
    ReachableIsSound(w.log, w.db);
    forall i | i in w.sessions && w.sessions[i].pc == Ended(Removed(id))
      ensures id !in w.db.txns && LinesOf(w.db.entries, id) == []
      ensures exists p :: 0 <= p < |w.log| && DeletesOf(w.log[p], id)
    {
      assert OutcomeOk(w.log, w.sessions[i]);
      var p :| 0 <= p < |w.log| && w.log[p] == Delete(id, w.sessions[i].job.user);
      assert DeletesOf(w.log[p], id);
      NoEntriesNoLines(w.db.entries, id);
    }
  }

  /** The optimistic-lock conflict and the missing-balance branch are never
      taken: the row lock already excludes the first, and nothing removes rows. */
  lemma ConflictsUnreachable(actions: seq<Action>, w: World, sid: int)
    requires Reaches(actions, w) && sid in w.sessions
    ensures w.sessions[sid].pc != Ended(Failed(VersionConflict)) && w.sessions[sid].pc != Ended(Failed(MissingBalance))
  {
    ReachableHistory(actions, w);
    assert OutcomeOk(w.log, w.sessions[sid]);
  }

  lemma {:induction false} LogExtends(actions: seq<Action>, k: nat, before: World, w: World)
    requires k <= |actions| && Reaches(actions[..k], before) && Reaches(actions, w)
    ensures |before.log| <= |w.log| && w.log[..|before.log|] == before.log
    decreases |actions|
  {
    if k == |actions| {
      assert actions[..k] == actions;
    } else {
      var init := actions[..|actions| - 1];
      assert init[..k] == actions[..k];
      LogExtends(init, k, before, Run(init).value);
      ReachableInv(init, Run(init).value);
      StepSimulates(Run(init).value, actions[|actions| - 1]);
    }
  }

  /** Under any interleaving an account's version never falls, and an unchanged
      version means an unchanged balance row and unchanged ledger rows. */
  lemma VersionIsWitness(actions: seq<Action>, k: nat, before: World, w: World, account: int)
    requires k <= |actions| && Reaches(actions[..k], before) && Reaches(actions, w)
    requires account in before.db.balances
    ensures account in w.db.balances && Witnessed(before.db, w.db, account)
  {
    LogExtends(actions, k, before, w);
    ReachableHistory(actions, w);
    ReachableInv(actions[..k], before);
    VersionWitnessesChange(w.log, |before.log|, before.db, w.db, account);
  }
}
