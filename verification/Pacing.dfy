/** Money and schedule together: the scheduler never generates a date's
    transaction while an earlier date of the rule is still without one. */
module Pacing {
  import opened Calendar
  import opened DateText
  import opened Engine
  import opened Sessions
  import opened Races
  import opened Scheduler
  import opened ExactlyOnce
  import opened Schedule

  /** If this is a run's key, the rule exists or existed, and unless it was
      disturbed the date is scheduled with every earlier one advanced past. */
  ghost predicate PacedKey(o: Office, key: string)
    requires SpecsOk(o)
  {
    forall id: nat, date :: Valid(date) && key == KeyFor(id, date) ==>
      id in o.specs && (id !in o.disturbed ==> OnSchedule(o.advances, id, o.specs[id], date))
  }

  ghost predicate Paced(o: Office) {
    SpecsOk(o)
    && (forall sid :: sid in o.ledger.sessions && o.ledger.sessions[sid].job.CreateJob? ==>
          PacedKey(o, o.ledger.sessions[sid].job.key))
    && (forall p :: 0 <= p < |o.ledger.log| && o.ledger.log[p].Create? ==> PacedKey(o, o.ledger.log[p].key))
  }

  // ---- what no move takes back ----

  predicate SpecsGrow(o: Office, after: Office) {
    o.disturbed <= after.disturbed && o.advances <= after.advances
    && forall id :: id in o.specs ==> id in after.specs && after.specs[id] == o.specs[id]
  }

  lemma PacedKeyGrows(o: Office, after: Office, key: string)
    requires SpecsOk(o) && SpecsOk(after) && SpecsGrow(o, after) && PacedKey(o, key)
    ensures PacedKey(after, key)
  {
    forall id: nat, date | Valid(date) && key == KeyFor(id, date)
      ensures id in after.specs && (id !in after.disturbed ==> OnSchedule(after.advances, id, after.specs[id], date))
    {
      if id !in after.disturbed {
        OnScheduleGrows(o.advances, after.advances, id, o.specs[id], date);
      }
    }
  }

  lemma SameLedgerPaced(o: Office, after: Office)
    requires Paced(o) && SpecsOk(after) && SpecsGrow(o, after) && after.ledger == o.ledger
    ensures Paced(after)
  {
    forall sid | sid in o.ledger.sessions && o.ledger.sessions[sid].job.CreateJob?
      ensures PacedKey(after, o.ledger.sessions[sid].job.key)
    {
      PacedKeyGrows(o, after, o.ledger.sessions[sid].job.key);
    }
    forall p | 0 <= p < |o.ledger.log| && o.ledger.log[p].Create? ensures PacedKey(after, o.ledger.log[p].key) {
      PacedKeyGrows(o, after, o.ledger.log[p].key);
    }
  }

  // ---- ledger steps ----

  lemma JobsStay(w: World, a: Action, sid: int)
    requires Enabled(w, a) && !a.Begin? && sid in Take(w, a).sessions
    ensures sid in w.sessions && Take(w, a).sessions[sid].job == w.sessions[sid].job
  {
    if a.Statement? && a.sid == sid {
      ExecuteKeepsJob(w, sid);
    }
  }

  lemma StepPaced(o: Office, after: Office, a: Action)
    requires Paced(o) && Enabled(o.ledger, a) && !a.Begin? && after == o.(ledger := Take(o.ledger, a))
    ensures Paced(after)
  {
    forall sid | sid in after.ledger.sessions && after.ledger.sessions[sid].job.CreateJob?
      ensures PacedKey(after, after.ledger.sessions[sid].job.key)
    {
      JobsStay(o.ledger, a, sid);
      PacedKeyGrows(o, after, o.ledger.sessions[sid].job.key);
    }
    forall p | 0 <= p < |after.ledger.log| && after.ledger.log[p].Create?
      ensures PacedKey(after, after.ledger.log[p].key)
    {
      CreatesComeFromJobs(o.ledger, a, p);
      PacedKeyGrows(o, after, after.ledger.log[p].key);
    }
  }

  lemma BeginPaced(o: Office, after: Office, sid: int, job: Job)
    requires Paced(o) && sid !in o.ledger.sessions && after == o.(ledger := Take(o.ledger, Begin(sid, job)))
    requires job.CreateJob? ==> PacedKey(o, job.key)
    ensures Paced(after)
  {
    forall s | s in after.ledger.sessions && after.ledger.sessions[s].job.CreateJob?
      ensures PacedKey(after, after.ledger.sessions[s].job.key)
    {
      PacedKeyGrows(o, after, after.ledger.sessions[s].job.key);
    }
    forall p | 0 <= p < |after.ledger.log| && after.ledger.log[p].Create?
      ensures PacedKey(after, after.ledger.log[p].key)
    {
      PacedKeyGrows(o, after, after.ledger.log[p].key);
    }
  }

  lemma ForeignIsPaced(o: Office, key: string)
    requires SpecsOk(o) && ForeignKey(key)
    ensures PacedKey(o, key)
  {
    forall id: nat, date | Valid(date) ensures key != KeyFor(id, date) {
      assert key != RunKey(id, FormatDate(date));
    }
  }

  // ---- the scheduler's moves ----

  lemma SnapshotIsPaced(o: Office, d: Due)
    requires SpecsOk(o) && SnapshotOk(o, d)
    ensures PacedKey(o, KeyFor(d.id, d.rule.next))
  {
    forall id: nat, date | Valid(date) && KeyFor(d.id, d.rule.next) == KeyFor(id, date)
      ensures id == d.id && date == d.rule.next
    {
      KeyForInjective(d.id, d.rule.next, id, date);
    }
  }

  lemma StartPaced(o: Office, runner: int, sid: int, localToday: Date)
    requires Kept(o) && Paced(o) && Possible(o, Start(runner, sid, localToday))
    ensures Paced(Act(o, Start(runner, sid, localToday)))
  {
    var after, d := Act(o, Start(runner, sid, localToday)), o.runners[runner].queue[0];
    assert SnapshotOk(o, d);
    if after.ledger == o.ledger {
      SameLedgerPaced(o, after);
    } else {
      var mid := o.(ledger := Take(o.ledger, Begin(sid, JobFor(d))));
      SnapshotIsPaced(o, d);
      BeginPaced(o, mid, sid, JobFor(d));
      SameLedgerPaced(mid, after);
    }
  }

  lemma UserPaced(o: Office, a: Action)
    requires Paced(o) && UserAction(a) && Enabled(o.ledger, a)
    ensures Paced(o.(ledger := Take(o.ledger, a)))
  {
    var after := o.(ledger := Take(o.ledger, a));
    if a.Begin? {
      if a.job.CreateJob? {
        ForeignIsPaced(o, a.job.key);
      }
      BeginPaced(o, after, a.sid, a.job);
    } else {
      StepPaced(o, after, a);
    }
  }

  lemma OtherMovesGrow(o: Office, m: Move)
    requires Kept(o) && Possible(o, m) && !m.LedgerMove? && !m.Start?
    ensures SpecsGrow(o, Act(o, m)) && Act(o, m).ledger == o.ledger
  {
    assert o.nextRule !in o.specs;
  }

  lemma ActPaced(o: Office, m: Move)
    requires Kept(o) && Paced(o) && Possible(o, m)
    ensures Paced(Act(o, m))
  {
    if m.LedgerMove? {
      UserPaced(o, m.action);
    } else if m.Start? {
      StartPaced(o, m.runner, m.sid, m.localToday);
    } else {
      ActKeeps(o, m);
      OtherMovesGrow(o, m);
      SameLedgerPaced(o, Act(o, m));
    }
  }

  lemma {:induction false} ReachablePaced(moves: seq<Move>, o: Office)
    requires Arrives(moves, o)
    ensures Paced(o)
  {
    if moves != [] {
      var before := Operate(moves[..|moves| - 1]).value;
      ReachablePaced(moves[..|moves| - 1], before);
      ReachableKept(moves[..|moves| - 1], before);
      ActPaced(before, moves[|moves| - 1]);
    }
  }

  // ---- the result ----

  ghost predicate Generated(log: seq<Op>, id: nat, date: Date)
    requires Valid(date)
  {
    exists p :: 0 <= p < |log| && CreatesUnder(log[p], KeyFor(id, date))
  }

  lemma AdvancedIsGenerated(moves: seq<Move>, o: Office, id: nat, date: Date)
    requires Arrives(moves, o) && Valid(date) && HasAdvanced(o.advances, id, date)
    ensures Generated(o.ledger.log, id, date)
  {
    ReachableBooks(moves, o);
    var i :| 0 <= i < |o.advances| && o.advances[i].rule == id && o.advances[i].date == date;
    assert AdvanceBooked(o.ledger.log, o.advances[i]);
    var user :| Booked(o.ledger.log, KeyFor(id, date), user, o.advances[i].txn);
    var p :| 0 <= p < |o.ledger.log| && o.ledger.log[p].Create? && o.ledger.log[p].key == KeyFor(id, date);
    assert CreatesUnder(o.ledger.log[p], KeyFor(id, date));
  }

  /** Whatever the interleaving, a transaction was generated for a date of an
      undisturbed rule only if the date is the k-th of its schedule for some k
      and one was generated, and the rule advanced, for every earlier date. So
      what was generated is at most one date ahead of what was advanced. */
  lemma MoneyFollowsSchedule(moves: seq<Move>, o: Office, id: nat, date: Date)
    requires Arrives(moves, o) && Valid(date) && Generated(o.ledger.log, id, date) && id !in o.disturbed
    ensures id in o.specs && ValidRule(o.specs[id])
    ensures exists k: nat :: date == Scheduled(o.specs[id], k)
              && forall j: nat :: j < k ==> HasAdvanced(o.advances, id, Scheduled(o.specs[id], j))
                                            && Generated(o.ledger.log, id, Scheduled(o.specs[id], j))
  {
    ReachablePaced(moves, o);
    var p :| 0 <= p < |o.ledger.log| && CreatesUnder(o.ledger.log[p], KeyFor(id, date));
    assert PacedKey(o, o.ledger.log[p].key);
    var spec := o.specs[id];
    var k: nat :| date == Scheduled(spec, k) && AllBefore(o.advances, id, spec, k);
    forall j: nat | j < k
      ensures HasAdvanced(o.advances, id, Scheduled(spec, j)) && Generated(o.ledger.log, id, Scheduled(spec, j))
    {
      AdvancedIsGenerated(moves, o, id, Scheduled(spec, j));
    }
  }
}
