/** What a run row says for as long as its rule exists: the first status recorded
    for the date, and the transaction of that run until the transaction is
    deleted. */
module RunRows {
  import opened Common
  import opened Calendar
  import opened Tables
  import opened Engine
  import opened Histories
  import opened Sessions
  import opened Races
  import opened Scheduler
  import opened ExactlyOnce

  /** The foreign key on a run's transaction. */
  predicate RowsNameLive(o: Office) {
    forall k :: k in o.runs && o.runs[k].txn.Some? ==> o.runs[k].txn.value in o.ledger.db.txns
  }

  lemma MoveKeepsRowsLive(o: Office, m: Move)
    requires RowsNameLive(o) && Possible(o, m)
    ensures RowsNameLive(Act(o, m))
  {}

  lemma {:induction false} ReachableRowsLive(moves: seq<Move>, o: Office)
    requires Arrives(moves, o)
    ensures RowsNameLive(o)
  {
    if moves != [] {
      var before := Operate(moves[..|moves| - 1]).value;
      ReachableRowsLive(moves[..|moves| - 1], before);
      MoveKeepsRowsLive(before, moves[|moves| - 1]);
    }
  }

  // ---- what a row says was so ----

  ghost predicate AdvancedWith(advances: seq<Advanced>, id: nat, date: Date, txn: int) {
    exists i :: 0 <= i < |advances| && advances[i] == Advanced(id, date, txn)
  }

  /** A success is of an advance past the date, in the transaction named; a
      failure names none. */
  ghost predicate RowSays(advances: seq<Advanced>, id: nat, date: Date, row: RunRow) {
    match row.status
    case Success => (exists txn :: AdvancedWith(advances, id, date, txn))
                    && (row.txn.Some? ==> AdvancedWith(advances, id, date, row.txn.value))
    case Failure => row.txn == None
  }

  ghost predicate RowsSay(o: Office) {
    forall k :: k in o.runs ==> RowSays(o.advances, k.0, k.1, o.runs[k])
  }

  lemma RowSaysGrows(advances: seq<Advanced>, a: Advanced, id: nat, date: Date, row: RunRow)
    requires RowSays(advances, id, date, row)
    ensures RowSays(advances + [a], id, date, row)
  {
    var more := advances + [a];
    forall txn | AdvancedWith(advances, id, date, txn) ensures AdvancedWith(more, id, date, txn) {
      var i :| 0 <= i < |advances| && advances[i] == Advanced(id, date, txn);
      assert more[i] == advances[i];
    }
  }

  lemma NewSuccessSays(advances: seq<Advanced>, id: nat, date: Date, txn: int)
    ensures RowSays(advances + [Advanced(id, date, txn)], id, date, RunRow(Success, Some(txn)))
  {
    assert (advances + [Advanced(id, date, txn)])[|advances|] == Advanced(id, date, txn);
  }

  lemma AdvanceKeepsRows(o: Office, runner: int)
    requires RowsSay(o) && Possible(o, AdvanceRun(runner))
    ensures RowsSay(Advance(o, runner))
  {
    var after, d, txn := Advance(o, runner), o.runners[runner].queue[0], o.runners[runner].phase.txn;
    if after.advances != o.advances {
      var a := Advanced(d.id, d.rule.next, txn);
      NewSuccessSays(o.advances, d.id, d.rule.next, txn);
      forall k | k in o.runs ensures RowSays(o.advances + [a], k.0, k.1, o.runs[k]) {
        RowSaysGrows(o.advances, a, k.0, k.1, o.runs[k]);
      }
    }
  }

  lemma OtherMovesKeepRows(o: Office, m: Move)
    requires RowsSay(o) && Possible(o, m) && !m.AdvanceRun?
    ensures RowsSay(Act(o, m))
  {}

  /** Every run row is true of what the scheduler did. */
  lemma {:induction false} ReachableRowsSay(moves: seq<Move>, o: Office)
    requires Arrives(moves, o)
    ensures RowsSay(o)
  {
    if moves != [] {
      var before, m := Operate(moves[..|moves| - 1]).value, moves[|moves| - 1];
      ReachableRowsSay(moves[..|moves| - 1], before);
      if m.AdvanceRun? {
        AdvanceKeepsRows(before, m.runner);
      } else {
        OtherMovesKeepRows(before, m);
      }
    }
  }

  // ---- a deleted transaction never comes back ----

  predicate CreatedIn(log: seq<Op>, id: int) {
    exists p :: 0 <= p < |log| && log[p].Create? && log[p].id == id
  }

  lemma CreatedInGrows(log: seq<Op>, more: seq<Op>, id: int)
    requires CreatedIn(log, id) && log <= more
    ensures CreatedIn(more, id)
  {
    var p :| 0 <= p < |log| && log[p].Create? && log[p].id == id;
    assert more[p] == log[p];
  }

  lemma GoneStaysGone(w: World, a: Action, id: int)
    requires History(w) && Enabled(w, a) && CreatedIn(w.log, id) && id !in w.db.txns
    ensures id !in Take(w, a).db.txns
  {
    LedgerGrows(w, a);
    var p :| 0 <= p < |w.log| && w.log[p].Create? && w.log[p].id == id;
    CreatedRowPersists(w.log, p, w.db);
    var k :| p <= k < |w.log| && w.log[k].Delete? && w.log[k].id == id;
    assert Take(w, a).log[k] == w.log[k];
  }

  /** Every move leaves the ledger alone or makes one enabled step of it. */
  lemma LedgerSide(o: Office, m: Move, id: int)
    requires Books(o) && Possible(o, m) && CreatedIn(o.ledger.log, id)
    ensures CreatedIn(Act(o, m).ledger.log, id)
    ensures id !in o.ledger.db.txns ==> id !in Act(o, m).ledger.db.txns
  {
    if m.LedgerMove? {
      StepSide(o.ledger, m.action, id);
    } else if m.Start? && Act(o, m).ledger != o.ledger {
      StepSide(o.ledger, Begin(m.sid, JobFor(o.runners[m.runner].queue[0])), id);
    }
  }

  lemma StepSide(w: World, a: Action, id: int)
    requires History(w) && Enabled(w, a) && CreatedIn(w.log, id)
    ensures CreatedIn(Take(w, a).log, id)
    ensures id !in w.db.txns ==> id !in Take(w, a).db.txns
  {
    LedgerGrows(w, a);
    CreatedInGrows(w.log, Take(w, a).log, id);
    if id !in w.db.txns {
      GoneStaysGone(w, a, id);
    }
  }

  // ---- the row ----

  /** The transaction a row still names, given the one it was written with. */
  function StillNamed(txn: Option<int>, txns: map<int, TxnRow>): Option<int> {
    if txn.Some? && txn.value in txns then txn else None
  }

  lemma LedgerMoveKeepsRow(o: Office, a: Action, id: nat, date: Date)
    requires Possible(o, LedgerMove(a)) && (id, date) in o.runs
    ensures var after := Act(o, LedgerMove(a));
            (id, date) in after.runs
            && after.runs[(id, date)]
                == o.runs[(id, date)].(txn := StillNamed(o.runs[(id, date)].txn, after.ledger.db.txns))
  {}

  lemma OtherMoveKeepsRow(o: Office, m: Move, id: nat, date: Date)
    requires Possible(o, m) && !m.LedgerMove? && (id, date) in o.runs && m != RemoveRule(id)
    ensures (id, date) in Act(o, m).runs && Act(o, m).runs[(id, date)] == o.runs[(id, date)]
  {}

  lemma BeginKeepsTables(w: World, sid: int, job: Job)
    requires Enabled(w, Begin(sid, job))
    ensures Take(w, Begin(sid, job)).db == w.db
  {}

  lemma OtherMoveKeepsTables(o: Office, m: Move)
    requires Possible(o, m) && !m.LedgerMove?
    ensures Act(o, m).ledger.db == o.ledger.db
  {
    match m {
      case Start(runner, sid, _) =>
        if Act(o, m).ledger != o.ledger {
          BeginKeepsTables(o.ledger, sid, JobFor(o.runners[runner].queue[0]));
        }
      case AdvanceRun(runner) => assert Advance(o, runner).ledger == o.ledger;
      case _ =>
    }
  }

  lemma MoveKeepsRow(o: Office, m: Move, id: nat, date: Date)
    requires Possible(o, m) && RowsNameLive(o) && (id, date) in o.runs && m != RemoveRule(id)
    ensures (id, date) in Act(o, m).runs
    ensures Act(o, m).runs[(id, date)].status == o.runs[(id, date)].status
    ensures Act(o, m).runs[(id, date)].txn == StillNamed(o.runs[(id, date)].txn, Act(o, m).ledger.db.txns)
  {
    if m.LedgerMove? {
      LedgerMoveKeepsRow(o, m.action, id, date);
    } else {
      OtherMoveKeepsRow(o, m, id, date);
      OtherMoveKeepsTables(o, m);
    }
  }

  lemma {:induction false} NamedWasCreated(moves: seq<Move>, o: Office, id: int)
    requires Arrives(moves, o) && id in o.ledger.db.txns
    ensures CreatedIn(o.ledger.log, id)
  {
    ReachableBooks(moves, o);
    LiveRowWasCreated(o.ledger.log, o.ledger.db, id);
  }

  /** Over any stretch of any run, unless the rule is removed, the row of a rule
      and date keeps the status first recorded, whatever runners record for it
      later; and it names its transaction exactly as long as that is not
      deleted. */
  lemma {:induction false} FirstRunStays(moves: seq<Move>, k: nat, before: Office, o: Office, id: nat, date: Date)
    requires k <= |moves| && Arrives(moves[..k], before) && Arrives(moves, o)
    requires (id, date) in before.runs && forall i :: k <= i < |moves| ==> moves[i] != RemoveRule(id)
    ensures (id, date) in o.runs && o.runs[(id, date)].status == before.runs[(id, date)].status
    ensures o.runs[(id, date)].txn == StillNamed(before.runs[(id, date)].txn, o.ledger.db.txns)
    ensures forall t :: before.runs[(id, date)].txn == Some(t) ==> CreatedIn(o.ledger.log, t)
    decreases |moves|
  {
    if k == |moves| {
      assert moves[..k] == moves;
      ReachableRowsLive(moves, o);
      if before.runs[(id, date)].txn.Some? {
        NamedWasCreated(moves, o, before.runs[(id, date)].txn.value);
      }
    } else {
      var init, last := moves[..|moves| - 1], moves[|moves| - 1];
      var mid := Operate(init).value;
      assert init[..k] == moves[..k];
      FirstRunStays(init, k, before, mid, id, date);
      ReachableRowsLive(init, mid);
      ReachableBooks(init, mid);
      MoveKeepsRow(mid, last, id, date);
      if before.runs[(id, date)].txn.Some? {
        LedgerSide(mid, last, before.runs[(id, date)].txn.value);
      }
    }
  }
}
