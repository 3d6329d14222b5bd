/** Exactly-once effect of the scheduler: whatever the interleaving of runners,
    users, stale snapshots and crashes, money moves at most once per rule and
    date, and exactly once for every date a rule was advanced past. */
module ExactlyOnce {
  import opened Calendar
  import opened DateText
  import opened Tables
  import opened Engine
  import opened Invariants
  import opened Histories
  import opened Sessions
  import opened SessionsInvariant
  import opened Races
  import opened Scheduler

  /** The log holds this user's create of this transaction under this key. */
  ghost predicate Booked(log: seq<Op>, key: string, user: int, txn: int) {
    exists p :: 0 <= p < |log| && log[p].Create? && log[p].id == txn && log[p].key == key && log[p].user == user
  }

  ghost predicate RunnerBooked(w: World, r: Runner) {
    (r.phase.Waiting? || r.phase.Advancing? || r.phase == Recording ==> r.queue != [] && Valid(r.queue[0].rule.next))
    && (r.phase.Waiting? ==> r.phase.sid in w.sessions && w.sessions[r.phase.sid].job == JobFor(r.queue[0]))
    && (r.phase.Advancing? ==>
          Booked(w.log, KeyFor(r.queue[0].id, r.queue[0].rule.next), r.queue[0].rule.user, r.phase.txn))
  }

  ghost predicate AdvanceBooked(log: seq<Op>, a: Advanced) {
    Valid(a.date) && exists user :: Booked(log, KeyFor(a.rule, a.date), user, a.txn)
  }

  /** A request carried under a run key is dated as the key says. */
  ghost predicate DatedAs(key: string, req: Request) {
    Valid(req.date)
    && forall id: nat, date :: Valid(date) && key == KeyFor(id, date) ==> req.date == date
  }

  ghost predicate AllDated(w: World) {
    (forall sid :: sid in w.sessions && w.sessions[sid].job.CreateJob? && !ForeignKey(w.sessions[sid].job.key) ==>
       DatedAs(w.sessions[sid].job.key, w.sessions[sid].job.req))
    && (forall p :: 0 <= p < |w.log| && w.log[p].Create? && !ForeignKey(w.log[p].key) ==>
       DatedAs(w.log[p].key, w.log[p].req))
  }

  ghost predicate Books(o: Office) {
    History(o.ledger) && AllDated(o.ledger)
    && (forall r :: r in o.runners ==> RunnerBooked(o.ledger, o.runners[r]))
    && (forall i :: 0 <= i < |o.advances| ==> AdvanceBooked(o.ledger.log, o.advances[i]))
  }

  // ---- a ledger step disturbs none of this ----

  lemma JobsPersist(w: World, a: Action)
    requires Enabled(w, a)
    ensures forall sid :: sid in w.sessions ==>
              sid in Take(w, a).sessions && Take(w, a).sessions[sid].job == w.sessions[sid].job
  {
    match a {
      case Statement(sid) => ExecuteKeepsJob(w, sid);
      case _ =>
    }
  }

  lemma BookedGrows(log: seq<Op>, more: seq<Op>, key: string, user: int, txn: int)
    requires Booked(log, key, user, txn) && log <= more
    ensures Booked(more, key, user, txn)
  {
    var p :| 0 <= p < |log| && log[p].Create? && log[p].id == txn && log[p].key == key && log[p].user == user;
    assert more[p] == log[p];
  }

  lemma LedgerGrows(w: World, a: Action)
    requires History(w) && Enabled(w, a)
    ensures w.log <= Take(w, a).log && History(Take(w, a))
  {
    StepSimulates(w, a);
    TakeKeepsHistory(w, a);
  }

  lemma CommitKeepsDated(w: World, a: Action)
    requires AllDated(w) && Enabled(w, a) && !a.Begin?
    ensures AllDated(Take(w, a))
  {
    var after := Take(w, a);
    match a {
      case Statement(sid) =>
        ExecuteKeepsJob(w, sid);
        forall p | 0 <= p < |after.log| && after.log[p].Create? && !ForeignKey(after.log[p].key)
          ensures DatedAs(after.log[p].key, after.log[p].req)
        {
          if p < |w.log| {
            assert after.log[p] == w.log[p];
          }
        }
      case _ =>
    }
  }

  lemma BeginKeepsDated(w: World, sid: int, job: Job)
    requires AllDated(w) && sid !in w.sessions
    requires job.CreateJob? && !ForeignKey(job.key) ==> DatedAs(job.key, job.req)
    ensures AllDated(Take(w, Begin(sid, job)))
  {}

  lemma RunnersStayBooked(w: World, after: World, r: Runner)
    requires RunnerBooked(w, r) && w.log <= after.log
    requires forall sid :: sid in w.sessions ==> sid in after.sessions && after.sessions[sid].job == w.sessions[sid].job
    ensures RunnerBooked(after, r)
  {
    if r.phase.Advancing? {
      BookedGrows(w.log, after.log, KeyFor(r.queue[0].id, r.queue[0].rule.next), r.queue[0].rule.user, r.phase.txn);
    }
  }

  lemma AdvancesStayBooked(log: seq<Op>, more: seq<Op>, a: Advanced)
    requires AdvanceBooked(log, a) && log <= more
    ensures AdvanceBooked(more, a)
  {
    var user :| Booked(log, KeyFor(a.rule, a.date), user, a.txn);
    BookedGrows(log, more, KeyFor(a.rule, a.date), user, a.txn);
  }

  lemma LedgerStepKeepsBooks(o: Office, a: Action)
    requires Books(o) && Enabled(o.ledger, a) && AllDated(Take(o.ledger, a))
    ensures Books(o.(ledger := Take(o.ledger, a)))
  {
    var after := Take(o.ledger, a);
    LedgerGrows(o.ledger, a);
    JobsPersist(o.ledger, a);
    forall r | r in o.runners ensures RunnerBooked(after, o.runners[r]) {
      RunnersStayBooked(o.ledger, after, o.runners[r]);
    }
    forall i | 0 <= i < |o.advances| ensures AdvanceBooked(after.log, o.advances[i]) {
      AdvancesStayBooked(o.ledger.log, after.log, o.advances[i]);
    }
  }

  lemma UserMoveKeepsBooks(o: Office, a: Action)
    requires Books(o) && UserAction(a) && Enabled(o.ledger, a)
    ensures Books(o.(ledger := Take(o.ledger, a)))
  {
    match a {
      case Begin(sid, job) => BeginKeepsDated(o.ledger, sid, job);
      case _ => CommitKeepsDated(o.ledger, a);
    }
    LedgerStepKeepsBooks(o, a);
  }

  // ---- the runners' own moves ----

  lemma KeyForInjective(id: nat, date: Date, id': nat, date': Date)
    requires Valid(date) && Valid(date') && KeyFor(id, date) == KeyFor(id', date')
    ensures id == id' && date == date'
  {
    RunKeyInjective(id, FormatDate(date), id', FormatDate(date'));
    FormatDateInjective(date, date');
  }

  lemma RunKeyIsDated(d: Due)
    requires Valid(d.rule.next)
    ensures DatedAs(KeyFor(d.id, d.rule.next), RequestFor(d.rule))
  {
    forall id: nat, date | Valid(date) && KeyFor(d.id, d.rule.next) == KeyFor(id, date)
      ensures RequestFor(d.rule).date == date
    {
      KeyForInjective(d.id, d.rule.next, id, date);
    }
  }

  /** A move that gives one runner a new state and leaves the ledger alone. */
  lemma RunnerMoveKeepsBooks(o: Office, after: Office, runner: int)
    requires Books(o) && after.ledger == o.ledger && o.advances <= after.advances
    requires runner in after.runners && after.runners == o.runners[runner := after.runners[runner]]
    requires RunnerBooked(o.ledger, after.runners[runner])
    requires forall i :: |o.advances| <= i < |after.advances| ==> AdvanceBooked(o.ledger.log, after.advances[i])
    ensures Books(after)
  {
    forall i | 0 <= i < |after.advances| ensures AdvanceBooked(o.ledger.log, after.advances[i]) {
      assert i < |o.advances| ==> after.advances[i] == o.advances[i];
    }
  }

  lemma StartKeepsBooks(o: Office, runner: int, sid: int, localToday: Date)
    requires Books(o) && Possible(o, Start(runner, sid, localToday))
    ensures Books(Act(o, Start(runner, sid, localToday)))
  {
    var r, after := o.runners[runner], Act(o, Start(runner, sid, localToday));
    if LexLess(FormatDate(localToday), FormatDate(r.queue[0].rule.next)) {
      RunnerMoveKeepsBooks(o, after, runner);
    } else {
      var job := JobFor(r.queue[0]);
      var mid := o.(ledger := Take(o.ledger, Begin(sid, job)));
      RunKeyIsDated(r.queue[0]);
      BeginKeepsDated(o.ledger, sid, job);
      LedgerStepKeepsBooks(o, Begin(sid, job));
      RunnerMoveKeepsBooks(mid, after, runner);
    }
  }

  lemma CollectKeepsBooks(o: Office, runner: int)
    requires Books(o) && Possible(o, Collect(runner))
    ensures Books(Act(o, Collect(runner)))
  {
    var r, after := o.runners[runner], Act(o, Collect(runner));
    assert RunnerBooked(o.ledger, r);
    var outcome := o.ledger.sessions[r.phase.sid].pc.outcome;
    if outcome.Created? || outcome.Existing? {
      AnswerIsBooked(o.ledger, r.phase.sid);
    }
    RunnerMoveKeepsBooks(o, after, runner);
  }

  lemma AnswerIsBooked(w: World, sid: int)
    requires Outcomes(w) && sid in w.sessions && w.sessions[sid].pc.Ended? && w.sessions[sid].job.CreateJob?
    requires w.sessions[sid].pc.outcome.Created? || w.sessions[sid].pc.outcome.Existing?
    ensures Booked(w.log, w.sessions[sid].job.key, w.sessions[sid].job.user, w.sessions[sid].pc.outcome.id)
  {
    assert OutcomeOk(w.log, w.sessions[sid]);
  }

  lemma AdvanceShape(o: Office, runner: int)
    requires Possible(o, AdvanceRun(runner))
    ensures var r, after := o.runners[runner], Advance(o, runner);
            after.ledger == o.ledger && runner in after.runners && after.runners[runner].phase == Ready
            && after.runners == o.runners[runner := after.runners[runner]]
            && (after.advances == o.advances
                || after.advances == o.advances + [Advanced(r.queue[0].id, r.queue[0].rule.next, r.phase.txn)])
  {}

  lemma AdvanceKeepsBooks(o: Office, runner: int)
    requires Books(o) && Possible(o, AdvanceRun(runner))
    ensures Books(Advance(o, runner))
  {
    var r := o.runners[runner];
    var a := Advanced(r.queue[0].id, r.queue[0].rule.next, r.phase.txn);
    assert AdvanceBooked(o.ledger.log, a) by {
      assert RunnerBooked(o.ledger, r);
    }
    AdvanceShape(o, runner);
    RunnerMoveKeepsBooks(o, Advance(o, runner), runner);
  }

  lemma ActKeepsBooks(o: Office, m: Move)
    requires Books(o) && Possible(o, m)
    ensures Books(Act(o, m))
  {
    match m {
      case LedgerMove(a) => UserMoveKeepsBooks(o, a);
      case Start(runner, sid, localToday) => StartKeepsBooks(o, runner, sid, localToday);
      case Collect(runner) => CollectKeepsBooks(o, runner);
      case AdvanceRun(runner) => AdvanceKeepsBooks(o, runner);
      case _ =>
    }
  }

  lemma {:induction false} ReachableBooks(moves: seq<Move>, o: Office)
    requires Arrives(moves, o)
    ensures Books(o)
  {
    if moves != [] {
      var before := Operate(moves[..|moves| - 1]).value;
      ReachableBooks(moves[..|moves| - 1], before);
      ActKeepsBooks(before, moves[|moves| - 1]);
    }
  }

  // ---- the results ----

  predicate AdvancedPast(o: Office, i: nat, id: nat, date: Date)
    requires i < |o.advances|
  {
    o.advances[i].rule == id && o.advances[i].date == date
  }

  /** For every rule and date, if no transaction generated for it was deleted:
      the ledger moved at most once for it; and if some runner advanced the rule
      past that date then it moved exactly once, in a transaction of that date
      that is live and that every such advance names. */
  lemma ExactlyOncePerDate(moves: seq<Move>, o: Office, id: nat, date: Date)
    requires Arrives(moves, o) && Valid(date) && KeyNeverDeleted(o.ledger.log, KeyFor(id, date))
    ensures var log, key := o.ledger.log, KeyFor(id, date);
            forall p, q ::
              0 <= p < |log| && 0 <= q < |log| && CreatesUnder(log[p], key) && CreatesUnder(log[q], key) ==> p == q
    ensures forall i :: 0 <= i < |o.advances| && AdvancedPast(o, i, id, date) ==>
              o.advances[i].txn in o.ledger.db.txns && o.ledger.db.txns[o.advances[i].txn].key == KeyFor(id, date)
    ensures forall i, j ::
              0 <= i < |o.advances| && 0 <= j < |o.advances|
              && AdvancedPast(o, i, id, date) && AdvancedPast(o, j, id, date) ==>
              o.advances[i].txn == o.advances[j].txn
  {
    ReachableBooks(moves, o);
    var log, key := o.ledger.log, KeyFor(id, date);
    ReachableIsSound(log, o.ledger.db);
    OneCreate(o.ledger, key);
    forall i | 0 <= i < |o.advances| && o.advances[i].rule == id && o.advances[i].date == date
      ensures o.advances[i].txn in o.ledger.db.txns && o.ledger.db.txns[o.advances[i].txn].key == key
    {
      assert AdvanceBooked(log, o.advances[i]);
      var user :| Booked(log, key, user, o.advances[i].txn);
      BookedIsLive(o.ledger, key, user, o.advances[i].txn);
    }
  }

  lemma OneCreate(w: World, key: string)
    requires Inv(w) && key != "" && KeyNeverDeleted(w.log, key)
    ensures forall p, q ::
              0 <= p < |w.log| && 0 <= q < |w.log| && CreatesUnder(w.log[p], key) && CreatesUnder(w.log[q], key) ==>
              p == q
  {
    forall p, q | 0 <= p < q < |w.log| && CreatesUnder(w.log[p], key)
      ensures !CreatesUnder(w.log[q], key)
    {
      if CreatesUnder(w.log[q], key) {
        KeyReuseNeedsDelete(w.log, w.db, p, q);
        var k :| p <= k < q && w.log[k].Delete? && w.log[k].id == w.log[p].id;
        assert DeletesOf(w.log[k], w.log[p].id);
      }
    }
  }

  lemma BookedIsLive(w: World, key: string, user: int, txn: int)
    requires Inv(w) && Booked(w.log, key, user, txn) && KeyNeverDeleted(w.log, key)
    ensures Holds(w.db.txns, user, key, txn)
  {
    var p :| 0 <= p < |w.log| && w.log[p].Create? && w.log[p].id == txn && w.log[p].key == key && w.log[p].user == user;
    assert CreatesUnder(w.log[p], key);
    CreatedRowPersists(w.log, p, w.db);
    assert forall k :: 0 <= k < |w.log| ==> !DeletesOf(w.log[k], txn);
  }

  /** Different rules or dates never share a transaction, and every generated
      movement is dated by the run it belongs to. */
  lemma RunsAreSeparate(moves: seq<Move>, o: Office, id: nat, date: Date, id': nat, date': Date, p: nat, q: nat)
    requires Arrives(moves, o) && Valid(date) && Valid(date') && (id, date) != (id', date')
    requires p < |o.ledger.log| && q < |o.ledger.log|
    requires CreatesUnder(o.ledger.log[p], KeyFor(id, date)) && CreatesUnder(o.ledger.log[q], KeyFor(id', date'))
    ensures o.ledger.log[p].id != o.ledger.log[q].id
    ensures o.ledger.log[p].req.date == date
  {
    ReachableBooks(moves, o);
    assert KeyFor(id, date) != KeyFor(id', date') by {
      if KeyFor(id, date) == KeyFor(id', date') {
        KeyForInjective(id, date, id', date');
      }
    }
    assert !ForeignKey(KeyFor(id, date));
    assert p != q;
  }
}
