/** What the concurrent calls may answer. Whatever else is going on, a call's
    answer is the one the sequential engine gives to its request on the tables as
    they are committed at its last statement. */
module Answers {
  import opened Tables
  import opened Engine
  import opened Invariants
  import opened Histories
  import opened Shapes
  import opened ReadBack
  import opened Sessions
  import opened SessionsInvariant
  import opened Refinement
  import opened Races

  // ---- the reasons for a refusal, in terms of fields and rows ----

  predicate KeyFree(txns: map<int, TxnRow>, user: int, key: string) {
    !KeyOf(txns, user, key, true) && !KeyOf(txns, user, key, false)
  }

  predicate CreatedUnder(log: seq<Op>, p: nat, user: int, key: string) {
    p < |log| && log[p].Create? && log[p].user == user && log[p].key == key
  }

  /** The user had a transaction under the key, and it was deleted. */
  predicate KeyReleased(log: seq<Op>, user: int, key: string) {
    exists p: nat, q: nat :: p < q < |log| && CreatedUnder(log, p, user, key) && DeletesOf(log[q], log[p].id)
  }

  /** Why a create may be refused, given the committed tables. */
  predicate CreateRefused(log: seq<Op>, db: DB, user: int, req: Request, key: string, e: Error) {
    match e
    case Invalid => !Proper(req)
    case NotFound => Proper(req) && !AllMine(db.accounts, user, req)
    case KeyTaken =>
      Proper(req) && AllMine(db.accounts, user, req)
      && KeyOf(db.txns, user, key, false) && !KeyOf(db.txns, user, key, true)
    case InsufficientFunds =>
      Proper(req) && AllMine(db.accounts, user, req) && KeyFree(db.txns, user, key) && !CanPay(db.balances, req)
    case WinnerGone => key != "" && !KeyOf(db.txns, user, key, true) && KeyReleased(log, user, key)
    case _ => false
  }

  /** An account of the request holds less than undoing the request takes. */
  predicate CannotGiveBack(balances: Balances, req: Request) {
    exists a :: a in Parties(req) && a in balances && balances[a].balance < Receipt(req, a) - Outlay(req, a)
  }

  predicate CreatedAs(log: seq<Op>, id: int, user: int, req: Request) {
    exists p :: 0 <= p < |log| && log[p].Create? && log[p].id == id && log[p].user == user && log[p].req == req
  }

  /** Why a delete may be refused; the transaction may have gone since its lines
      were listed. */
  ghost predicate DeleteRefused(log: seq<Op>, db: DB, user: int, target: int, e: Error) {
    match e
    case NotFound => target !in db.txns || db.txns[target].user != user
    case InsufficientFunds => exists req :: CreatedAs(log, target, user, req) && CannotGiveBack(db.balances, req)
    case _ => false
  }

  ghost predicate JobRefused(w: World, job: Job, e: Error) {
    match job
    case CreateJob(user, req, key) => CreateRefused(w.log, w.db, user, req, key, e)
    case DeleteJob(user, target) => DeleteRefused(w.log, w.db, user, target, e)
  }

  // ---- what a delete listed ----

  /** The lines a delete works through are those of the transaction's create. */
  ghost predicate ListedOk(log: seq<Op>, s: Session) {
    s.job.DeleteJob? && !s.pc.Ended? && s.pc != Loading && s.pc != Listing && s.work != [] ==>
      exists req :: CreatedAs(log, s.id, s.job.user, req) && Distinct(LinesFor(req))
                    && multiset(s.work) == multiset(LinesFor(req))
  }

  /** A create that met its own key had made a transaction under it. */
  ghost predicate WinnerOk(log: seq<Op>, s: Session) {
    s.job.CreateJob? && s.pc == FindingWinner ==> exists p: nat :: CreatedUnder(log, p, s.job.user, s.job.key)
  }

  ghost predicate Listed(w: World) {
    forall sid :: sid in w.sessions ==> ListedOk(w.log, w.sessions[sid]) && WinnerOk(w.log, w.sessions[sid])
  }

  lemma CreatedAsGrows(log: seq<Op>, more: seq<Op>, id: int, user: int, req: Request)
    requires CreatedAs(log, id, user, req) && log <= more
    ensures CreatedAs(more, id, user, req)
  {
    var p :| 0 <= p < |log| && log[p].Create? && log[p].id == id && log[p].user == user && log[p].req == req;
    assert more[p] == log[p];
  }

  lemma ListedOkGrows(log: seq<Op>, more: seq<Op>, s: Session)
    requires ListedOk(log, s) && WinnerOk(log, s) && log <= more
    ensures ListedOk(more, s) && WinnerOk(more, s)
  {
    if s.job.CreateJob? && s.pc == FindingWinner {
      var p: nat :| CreatedUnder(log, p, s.job.user, s.job.key);
      assert CreatedUnder(more, p, s.job.user, s.job.key);
    }
    if s.job.DeleteJob? && !s.pc.Ended? && s.pc != Loading && s.pc != Listing && s.work != [] {
      var req :| CreatedAs(log, s.id, s.job.user, req) && Distinct(LinesFor(req))
                 && multiset(s.work) == multiset(LinesFor(req));
      CreatedAsGrows(log, more, s.id, s.job.user, req);
    }
  }

  lemma OnlyKnown(log: seq<Op>)
    requires OpsKnown(log)
    ensures NoRemovals(log)
  {}

  /** A live transaction's lines are those it was created with. */
  lemma LiveLinesAsCreated(w: World, id: int) returns (req: Request)
    requires History(w) && id in w.db.txns
    ensures CreatedAs(w.log, id, w.db.txns[id].user, req) && LinesOf(w.db.entries, id) == LinesFor(req)
    ensures ValidRequest(req)
  {
    LiveRowWasCreated(w.log, w.db, id);
    var p :| 0 <= p < |w.log| && w.log[p].Create? && w.log[p].id == id && w.log[p].user == w.db.txns[id].user;
    req := w.log[p].req;
    OnlyKnown(w.log);
    assert !DeletedWithin(w.log, p, |w.log|, id);
    CreatedStands(w.log, p, w.db);
    assert Recorded(w.db, id, req);
  }

  lemma ListIsListed(w: World, sid: int, order: seq<Line>)
    requires History(w) && Enabled(w, ListAs(sid, order))
    ensures ListedOk(w.log, ListEntries(w.sessions[sid], order))
  {
    var s := w.sessions[sid];
    assert SessionOk(w.db, w.nextTxn, s);
    ReachableIsSound(w.log, w.db);
    if s.id in w.db.txns {
      var req := LiveLinesAsCreated(w, s.id);
      DistinctRequest(req);
    } else {
      NoEntriesNoLines(w.db.entries, s.id);
      assert order == [] by { assert |order| == |multiset(order)|; }
    }
  }

  /** No statement changes what a delete has listed. */
  lemma ExecuteKeepsList(db: DB, n: int, s: Session, log: seq<Op>)
    requires Runnable(s) && s.pc !in {CommittingCreate, CommittingDelete} && ListedOk(log, s)
    requires SessionOk(db, n, s)
    ensures ListedOk(log, Execute(db, n, s))
  {
    if s.job.DeleteJob? {
      DeleteKeepsWork(db, n, s);
    }
  }

  lemma DeleteKeepsWork(db: DB, n: int, s: Session)
    requires Runnable(s) && s.pc != CommittingDelete && s.job.DeleteJob? && SessionOk(db, n, s)
    ensures var after := Execute(db, n, s);
            after.job == s.job && after.id == s.id && (!after.pc.Ended? ==> after.work == s.work)
            && (after.pc.Ended? || after.pc == Listing || s.pc != Loading)
  {}

  lemma ExecuteMeetsWinner(w: World, s: Session)
    requires Inv(w) && SessionOk(w.db, w.nextTxn, s) && Runnable(s) && s.pc !in {CommittingCreate, CommittingDelete}
    ensures WinnerOk(w.log, Execute(w.db, w.nextTxn, s))
  {
    if s.pc == InsertingTxn && Replays(w.db.txns, s.job.user, s.job.key) {
      var id := Holder(w.db.txns, s.job.user, s.job.key);
      LiveRowWasCreated(w.log, w.db, id);
      var p: nat :| p < |w.log| && w.log[p].Create? && w.log[p].id == id && w.log[p].user == s.job.user
                    && w.log[p].key == s.job.key;
      assert CreatedUnder(w.log, p, s.job.user, s.job.key);
    }
  }

  lemma OneMoves(w: World, after: World, sid: int)
    requires Listed(w) && w.log <= after.log && sid in after.sessions
    requires after.sessions == w.sessions[sid := after.sessions[sid]]
    requires ListedOk(after.log, after.sessions[sid]) && WinnerOk(after.log, after.sessions[sid])
    ensures Listed(after)
  {
    forall other | other in after.sessions
      ensures ListedOk(after.log, after.sessions[other]) && WinnerOk(after.log, after.sessions[other])
    {
      if other != sid {
        ListedOkGrows(w.log, after.log, w.sessions[other]);
      }
    }
  }

  lemma StatementKeepsListed(w: World, sid: int)
    requires History(w) && Listed(w) && Enabled(w, Statement(sid))
    ensures Listed(Take(w, Statement(sid)))
  {
    var s, after := w.sessions[sid], Take(w, Statement(sid));
    if s.pc !in {CommittingCreate, CommittingDelete} {
      assert SessionOk(w.db, w.nextTxn, s);
      ExecuteKeepsList(w.db, w.nextTxn, s, w.log);
      ExecuteMeetsWinner(w, s);
    }
    OneMoves(w, after, sid);
  }

  lemma OpenKeepsListed(w: World, op: Op)
    requires Listed(w)
    ensures forall sid :: sid in w.sessions ==>
              ListedOk(w.log + [op], w.sessions[sid]) && WinnerOk(w.log + [op], w.sessions[sid])
  {
    forall sid | sid in w.sessions
      ensures ListedOk(w.log + [op], w.sessions[sid]) && WinnerOk(w.log + [op], w.sessions[sid])
    {
      ListedOkGrows(w.log, w.log + [op], w.sessions[sid]);
    }
  }

  lemma TakeKeepsListed(w: World, a: Action)
    requires History(w) && Listed(w) && Enabled(w, a)
    ensures Listed(Take(w, a))
  {
    match a {
      case AccountOpened(account, user, initial) =>
        OpenKeepsListed(w, OpenAccount(account, user, initial));
      case Begin(sid, job) => OneMoves(w, Take(w, a), sid);
      case ListAs(sid, order) =>
        ListIsListed(w, sid, order);
        OneMoves(w, Take(w, a), sid);
      case Rollback(sid) => OneMoves(w, Take(w, a), sid);
      case Statement(sid) => StatementKeepsListed(w, sid);
    }
  }

  lemma {:induction false} ReachableListed(actions: seq<Action>, w: World)
    requires Reaches(actions, w)
    ensures Listed(w)
  {
    if actions != [] {
      var before := Run(actions[..|actions| - 1]).value;
      ReachableListed(actions[..|actions| - 1], before);
      ReachableHistory(actions[..|actions| - 1], before);
      TakeKeepsListed(before, actions[|actions| - 1]);
    }
  }

  // ---- every answer is the engine's ----

  /** The answer agrees with the sequential engine on these tables; `id` is the
      next in the sequence, which a create's answer need not have drawn. */
  ghost predicate Agrees(w: World, after: DB, job: Job, answer: Outcome)
  {
    match job
    case CreateJob(user, req, key) =>
      (match answer
       case Created(id) => CreateTxn(w.db, id, user, req, key) == Inserted(after)
       case Existing(id) => after == w.db && forall i :: CreateTxn(w.db, i, user, req, key) == Replayed(id)
       case Removed(_) => false
       case Failed(e) => after == w.db && CreateRefused(w.log, w.db, user, req, key, e)
                         && (e != WinnerGone ==> forall i :: CreateTxn(w.db, i, user, req, key) == CreateFailed(e)))
    case DeleteJob(user, target) =>
      (match answer
       case Removed(id) => id == target && DeleteTxn(w.db, target, user) == Deleted(after)
       case Failed(e) => after == w.db && DeleteRefused(w.log, w.db, user, target, e)
                         && (target in w.db.txns ==> DeleteTxn(w.db, target, user) == DeleteFailed(e))
       case _ => false)
  }

  lemma RefusedCreate(w: World, user: int, req: Request, key: string, e: Error)
    requires Inv(w) && CreateRefused(w.log, w.db, user, req, key, e) && e != WinnerGone
    ensures forall i :: CreateTxn(w.db, i, user, req, key) == CreateFailed(e)
  {
    ReachableIsSound(w.log, w.db);
    forall i ensures CreateTxn(w.db, i, user, req, key) == CreateFailed(e) {
      CreateMeaning(w.db, Openings(w.log), i, user, req, key);
    }
  }

  lemma CheckRefuses(w: World, sid: int)
    requires Inv(w) && sid in w.sessions && w.sessions[sid].job.CreateJob? && w.sessions[sid].pc == Checking
    requires Check(w.db, w.sessions[sid]).pc.Ended?
    ensures var s, answer := w.sessions[sid], Check(w.db, w.sessions[sid]).pc.outcome;
            answer.Failed? && CreateRefused(w.log, w.db, s.job.user, s.job.req, s.job.key, answer.error)
            && answer.error != WinnerGone
  {
    var s := w.sessions[sid];
    assert SessionOk(w.db, w.nextTxn, s);
    ProperIsValid(s.job.req);
    if ValidRequest(s.job.req) {
      var a := s.work[s.done].account;
      PartyOf(s.job.req, s.work[s.done]);
      assert a in Parties(s.job.req);
    }
  }

  lemma PartyOf(req: Request, l: Line)
    requires l in LinesFor(req)
    ensures l.account in Parties(req)
    ensures ValidRequest(req) ==> l.amount == Receipt(req, l.account) - Outlay(req, l.account)
  {}

  lemma KeyStatements(w: World, sid: int)
    requires Inv(w) && sid in w.sessions && w.sessions[sid].job.CreateJob? && WinnerOk(w.log, w.sessions[sid])
    requires w.sessions[sid].pc in {FindingKey, InsertingTxn, FindingWinner}
    ensures var s := w.sessions[sid];
            var after := Execute(w.db, w.nextTxn, s);
            after.pc.Ended? ==>
              match after.pc.outcome
              case Existing(id) => forall i :: CreateTxn(w.db, i, s.job.user, s.job.req, s.job.key) == Replayed(id)
              case Failed(e) => CreateRefused(w.log, w.db, s.job.user, s.job.req, s.job.key, e)
              case _ => false
  {
    var s := w.sessions[sid];
    assert SessionOk(w.db, w.nextTxn, s);
    ReachableIsSound(w.log, w.db);
    RequestFacts(w.db, Openings(w.log), s.job.user, s.job.req);
    KeyFacts(w.db.txns, s.job.user, s.job.key);
    if s.pc == FindingWinner && !Replays(w.db.txns, s.job.user, s.job.key) {
      WinnerReleased(w, s);
    }
  }

  /** A row once met and no longer there was deleted. */
  lemma WinnerReleased(w: World, s: Session)
    requires Inv(w) && s.job.CreateJob? && s.job.key != "" && s.pc == FindingWinner && WinnerOk(w.log, s)
    requires !KeyOf(w.db.txns, s.job.user, s.job.key, true)
    ensures KeyReleased(w.log, s.job.user, s.job.key)
  {
    var p: nat :| CreatedUnder(w.log, p, s.job.user, s.job.key);
    CreatedRowPersists(w.log, p, w.db);
    var q :| p <= q < |w.log| && w.log[q].Delete? && w.log[q].id == w.log[p].id;
    assert DeletesOf(w.log[q], w.log[p].id);
  }

  lemma CreateCannotPay(w: World, sid: int)
    requires Inv(w) && sid in w.sessions && w.sessions[sid].job.CreateJob? && w.sessions[sid].pc == WritingRow
    requires WriteRow(w.db, w.sessions[sid]).pc == Ended(Failed(InsufficientFunds))
    ensures var s := w.sessions[sid];
            CreateRefused(w.log, w.db, s.job.user, s.job.req, s.job.key, InsufficientFunds)
  {
    var s := w.sessions[sid];
    assert SessionOk(w.db, w.nextTxn, s);
    NotBufferedYet(w.db, w.nextTxn, s);
    ReachableIsSound(w.log, w.db);
    RequestFacts(w.db, Openings(w.log), s.job.user, s.job.req);
    PartyOf(s.job.req, s.work[s.done]);
    PartiesPay(s.job.req, s.work[s.done].account);
  }

  /** Who pays receives nothing from the same request. */
  lemma PartiesPay(req: Request, a: int)
    requires ValidRequest(req)
    ensures Receipt(req, a) == 0 || Outlay(req, a) == 0
  {}

  lemma DeleteCannotGiveBack(w: World, sid: int)
    requires History(w) && Listed(w) && sid in w.sessions && w.sessions[sid].job.DeleteJob?
    requires w.sessions[sid].pc == WritingRow
    requires WriteRow(w.db, w.sessions[sid]).pc == Ended(Failed(InsufficientFunds))
    ensures var s := w.sessions[sid];
            DeleteRefused(w.log, w.db, s.job.user, s.job.target, InsufficientFunds)
            && (s.job.target in w.db.txns ==>
                  DeleteTxn(w.db, s.job.target, s.job.user) == DeleteFailed(InsufficientFunds))
  {
    var s := w.sessions[sid];
    assert SessionOk(w.db, w.nextTxn, s) && ListedOk(w.log, s);
    NotBufferedYet(w.db, w.nextTxn, s);
    var l := s.work[s.done];
    var req :| CreatedAs(w.log, s.id, s.job.user, req) && Distinct(LinesFor(req))
               && multiset(s.work) == multiset(LinesFor(req));
    SameLines(s.work, LinesFor(req));
    assert l in LinesFor(req) by { assert l in s.work; }
    PartyMoves(req, l);
    assert CannotGiveBack(w.db.balances, req);
    if s.id in w.db.txns {
      StuckDelete(w, s, l);
    }
  }

  /** Distinct lines suffice: each is what the request moves on its account. */
  lemma PartyMoves(req: Request, l: Line)
    requires l in LinesFor(req) && Distinct(LinesFor(req))
    ensures l.account in Parties(req) && l.amount == Receipt(req, l.account) - Outlay(req, l.account)
  {
    assert req.TransferOf? ==> LinesFor(req)[0].account != LinesFor(req)[1].account;
  }

  lemma StuckDelete(w: World, s: Session, l: Line)
    requires Inv(w) && s.job.DeleteJob? && DeleteProgress(w.db, s) && s.id in w.db.txns && l in s.work
    requires w.db.txns[s.id].user == s.job.user && s.id == s.job.target
    requires l.account in w.db.balances && w.db.balances[l.account].balance - l.amount < 0
    ensures DeleteTxn(w.db, s.id, s.job.user) == DeleteFailed(InsufficientFunds)
  {
    ReachableIsSound(w.log, w.db);
    var lines := LinesOf(w.db.entries, s.id);
    assert Distinct(lines);
    SameLines(s.work, lines);
    WalkMeaning(Reverse, w.db.balances, s.id, lines);
    NoneMissing(Reverse, w.db.balances, s.id, lines);
    assert l in lines && NewBalance(Reverse, w.db.balances[l.account], l.amount) < 0;
  }

  lemma CreateWriteAnswers(w: World, sid: int)
    requires Inv(w) && sid in w.sessions && w.sessions[sid].job.CreateJob? && w.sessions[sid].pc == WritingRow
    requires Runnable(w.sessions[sid]) && WriteRow(w.db, w.sessions[sid]).pc.Ended?
    ensures Agrees(w, w.db, w.sessions[sid].job, WriteRow(w.db, w.sessions[sid]).pc.outcome)
  {
    var s := w.sessions[sid];
    assert SessionOk(w.db, w.nextTxn, s);
    WriteRowOk(w.db, w.nextTxn, s);
    CreateCannotPay(w, sid);
    RefusedCreate(w, s.job.user, s.job.req, s.job.key, InsufficientFunds);
  }

  lemma CreateStepAnswers(w: World, sid: int)
    requires History(w) && Listed(w) && sid in w.sessions && w.sessions[sid].job.CreateJob?
    requires Runnable(w.sessions[sid]) && w.sessions[sid].pc != CommittingCreate
    requires Execute(w.db, w.nextTxn, w.sessions[sid]).pc.Ended?
    ensures Agrees(w, w.db, w.sessions[sid].job, Execute(w.db, w.nextTxn, w.sessions[sid]).pc.outcome)
  {
    var s := w.sessions[sid];
    assert SessionOk(w.db, w.nextTxn, s);
    match s.pc {
      case Checking =>
        CheckRefuses(w, sid);
        RefusedCreate(w, s.job.user, s.job.req, s.job.key, Check(w.db, s).pc.outcome.error);
      case LockingRow => LockFindsRow(w, s);
      case WritingRow => CreateWriteAnswers(w, sid);
      case InsertingEntry =>
      case LinkingCategory =>
      case _ => KeyAnswers(w, sid);
    }
  }

  lemma CreateAnswers(w: World, sid: int)
    requires History(w) && Listed(w) && Enabled(w, Statement(sid)) && w.sessions[sid].job.CreateJob?
    requires Take(w, Statement(sid)).sessions[sid].pc.Ended?
    ensures var after := Take(w, Statement(sid));
            Agrees(w, after.db, w.sessions[sid].job, after.sessions[sid].pc.outcome)
  {
    if w.sessions[sid].pc == CommittingCreate {
      CommittedCreate(w, sid);
    } else {
      CreateStepAnswers(w, sid);
    }
  }

  lemma KeyAnswers(w: World, sid: int)
    requires Inv(w) && sid in w.sessions && w.sessions[sid].job.CreateJob? && WinnerOk(w.log, w.sessions[sid])
    requires w.sessions[sid].pc in {FindingKey, InsertingTxn, FindingWinner}
    requires Execute(w.db, w.nextTxn, w.sessions[sid]).pc.Ended?
    ensures Agrees(w, w.db, w.sessions[sid].job, Execute(w.db, w.nextTxn, w.sessions[sid]).pc.outcome)
  {
    var s := w.sessions[sid];
    KeyStatements(w, sid);
    match Execute(w.db, w.nextTxn, s).pc.outcome {
      case Existing(_) =>
      case Failed(e) =>
        if e != WinnerGone {
          RefusedCreate(w, s.job.user, s.job.req, s.job.key, e);
        }
    }
  }

  lemma DeleteWriteAnswers(w: World, sid: int)
    requires History(w) && Listed(w) && sid in w.sessions && w.sessions[sid].job.DeleteJob?
    requires w.sessions[sid].pc == WritingRow && Runnable(w.sessions[sid])
    requires WriteRow(w.db, w.sessions[sid]).pc.Ended?
    ensures Agrees(w, w.db, w.sessions[sid].job, WriteRow(w.db, w.sessions[sid]).pc.outcome)
  {
    var s := w.sessions[sid];
    assert SessionOk(w.db, w.nextTxn, s);
    WriteRowOk(w.db, w.nextTxn, s);
    DeleteCannotGiveBack(w, sid);
  }

  lemma DeleteStepAnswers(w: World, sid: int)
    requires History(w) && Listed(w) && sid in w.sessions && w.sessions[sid].job.DeleteJob?
    requires Runnable(w.sessions[sid]) && w.sessions[sid].pc != CommittingDelete
    requires Execute(w.db, w.nextTxn, w.sessions[sid]).pc.Ended?
    ensures Agrees(w, w.db, w.sessions[sid].job, Execute(w.db, w.nextTxn, w.sessions[sid]).pc.outcome)
  {
    var s := w.sessions[sid];
    assert SessionOk(w.db, w.nextTxn, s);
    match s.pc {
      case LockingRow => LockFindsRow(w, s);
      case WritingRow => DeleteWriteAnswers(w, sid);
      case _ =>
    }
  }

  lemma DeleteAnswers(w: World, sid: int)
    requires History(w) && Listed(w) && Enabled(w, Statement(sid)) && w.sessions[sid].job.DeleteJob?
    requires Take(w, Statement(sid)).sessions[sid].pc.Ended?
    ensures var after := Take(w, Statement(sid));
            Agrees(w, after.db, w.sessions[sid].job, after.sessions[sid].pc.outcome)
  {
    if w.sessions[sid].pc == CommittingDelete {
      assert SessionOk(w.db, w.nextTxn, w.sessions[sid]);
      CommittedDelete(w, sid);
    } else {
      DeleteStepAnswers(w, sid);
    }
  }

  /** The answer of every call, at the statement that gives it, is the sequential
      engine's on the tables committed then. There are two exceptions, both of
      races lost: a create that found its key taken by itself and then gone, and
      a delete whose transaction went after its lines were listed. */
  lemma AnswersAreSequential(actions: seq<Action>, w: World, sid: int)
    requires Reaches(actions, w) && Enabled(w, Statement(sid)) && Take(w, Statement(sid)).sessions[sid].pc.Ended?
    ensures var after := Take(w, Statement(sid));
            Agrees(w, after.db, w.sessions[sid].job, after.sessions[sid].pc.outcome)
  {
    ReachableHistory(actions, w);
    ReachableListed(actions, w);
    match w.sessions[sid].job {
      case CreateJob(_, _, _) => CreateAnswers(w, sid);
      case DeleteJob(_, _) => DeleteAnswers(w, sid);
    }
  }

  /** A retry is recognised before anything is inserted: the key lookup ends the
      call exactly when the caller holds the key, and draws no id. */
  lemma RetryEndsAtLookup(w: World, sid: int)
    requires Inv(w) && Enabled(w, Statement(sid)) && w.sessions[sid].pc == FindingKey
    ensures var job, after := w.sessions[sid].job, Take(w, Statement(sid));
            (after.sessions[sid].pc.Ended? <==> KeyOf(w.db.txns, job.user, job.key, true))
            && after.nextTxn == w.nextTxn
  {
    KeyFacts(w.db.txns, w.sessions[sid].job.user, w.sessions[sid].job.key);
  }

  lemma JobStays(w: World, a: Action, sid: int)
    requires Enabled(w, a) && sid in w.sessions
    ensures sid in Take(w, a).sessions && Take(w, a).sessions[sid].job == w.sessions[sid].job
    ensures w.sessions[sid].pc.Ended? ==> Take(w, a).sessions[sid] == w.sessions[sid]
    ensures !w.sessions[sid].pc.Ended? && Take(w, a).sessions[sid].pc.Ended? ==>
              a == Statement(sid) || (a == Rollback(sid) && Take(w, a).sessions[sid].pc == Ended(Failed(Refused)))
  {
    if a == Statement(sid) {
      ExecuteKeepsJob(w, sid);
    }
  }

  /** Every refusal had its reason: if a call ended in an error, other than by a
      rollback, then at some moment before the committed tables gave it. */
  lemma {:induction false} RefusedForReason(actions: seq<Action>, w: World, sid: int)
    requires Reaches(actions, w) && sid in w.sessions && w.sessions[sid].pc.Ended?
    requires w.sessions[sid].pc.outcome.Failed? && w.sessions[sid].pc.outcome.error != Refused
    ensures exists k ::
              0 <= k < |actions| && Run(actions[..k]).Some? && sid in Run(actions[..k]).value.sessions
              && !Run(actions[..k]).value.sessions[sid].pc.Ended?
              && JobRefused(Run(actions[..k]).value, w.sessions[sid].job, w.sessions[sid].pc.outcome.error)
  {
    var init, last := actions[..|actions| - 1], actions[|actions| - 1];
    var before := Run(init).value;
    assert sid in before.sessions;
    JobStays(before, last, sid);
    if before.sessions[sid].pc.Ended? {
      RefusedForReason(init, before, sid);
      var k :| 0 <= k < |init| && Run(init[..k]).Some? && sid in Run(init[..k]).value.sessions
              && !Run(init[..k]).value.sessions[sid].pc.Ended?
              && JobRefused(Run(init[..k]).value, w.sessions[sid].job, w.sessions[sid].pc.outcome.error);
      assert actions[..k] == init[..k];
    } else {
      AnswersAreSequential(init, before, sid);
      assert actions[..|init|] == init;
    }
  }
}
