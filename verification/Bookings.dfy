/** What the scheduler books: every generated transaction carries the user,
    amount, accounts and category that its rule had in the table when it was
    fetched, whatever else went on. */
module Bookings {
  import opened Calendar
  import opened DateText
  import opened Tables
  import opened Sessions
  import opened Races
  import opened Scheduler
  import opened ExactlyOnce
  import opened Schedule
  import opened Pacing

  /** The rules table held this row at some moment of the run. */
  ghost predicate Stood(moves: seq<Move>, id: nat, rule: Rule) {
    exists j :: 0 <= j <= |moves| && Operate(moves[..j]).Some?
                && id in Operate(moves[..j]).value.rules && Operate(moves[..j]).value.rules[id] == rule
  }

  /** A request under a run's key is a rule's as it stood, dated by its next run. */
  ghost predicate FromRule(moves: seq<Move>, user: int, req: Request, key: string) {
    exists id: nat, rule: Rule :: Valid(rule.next) && Stood(moves, id, rule) && key == KeyFor(id, rule.next)
                       && user == rule.user && req == rule.req.(date := rule.next)
  }

  ghost predicate QueuesStood(moves: seq<Move>, o: Office) {
    forall r, i :: r in o.runners && 0 <= i < |o.runners[r].queue| ==>
      Stood(moves, o.runners[r].queue[i].id, o.runners[r].queue[i].rule)
  }

  ghost predicate CallsFromRules(moves: seq<Move>, w: World) {
    && (forall sid :: sid in w.sessions && w.sessions[sid].job.CreateJob? && !ForeignKey(w.sessions[sid].job.key) ==>
          FromRule(moves, w.sessions[sid].job.user, w.sessions[sid].job.req, w.sessions[sid].job.key))
    && (forall p :: 0 <= p < |w.log| && w.log[p].Create? && !ForeignKey(w.log[p].key) ==>
          FromRule(moves, w.log[p].user, w.log[p].req, w.log[p].key))
  }

  // ---- what stood keeps having stood ----

  lemma StoodGrows(moves: seq<Move>, m: Move, id: nat, rule: Rule)
    requires Stood(moves, id, rule)
    ensures Stood(moves + [m], id, rule)
  {
    var j :| 0 <= j <= |moves| && Operate(moves[..j]).Some?
             && id in Operate(moves[..j]).value.rules && Operate(moves[..j]).value.rules[id] == rule;
    assert (moves + [m])[..j] == moves[..j];
  }

  lemma FromRuleGrows(moves: seq<Move>, m: Move, user: int, req: Request, key: string)
    requires FromRule(moves, user, req, key)
    ensures FromRule(moves + [m], user, req, key)
  {
    var id: nat, rule: Rule :| Valid(rule.next) && Stood(moves, id, rule) && key == KeyFor(id, rule.next)
                    && user == rule.user && req == rule.req.(date := rule.next);
    StoodGrows(moves, m, id, rule);
  }

  lemma NowStood(moves: seq<Move>, o: Office, id: nat)
    requires Arrives(moves, o) && id in o.rules
    ensures Stood(moves, id, o.rules[id])
  {
    assert moves[..|moves|] == moves;
  }

  // ---- queues ----

  lemma QueuesShrink(o: Office, m: Move, r: int)
    requires Possible(o, m) && !m.Fetch? && r in Act(o, m).runners
    ensures r in o.runners && QueueShrank(o.runners[r].queue, Act(o, m).runners[r].queue)
  {
    match m {
      case Start(_, _, _) => StartShrinks(o, m, r);
      case AdvanceRun(runner) =>
        AdvanceShape(o, runner);
        Shrinks(o.runners[r].queue);
      case _ => Shrinks(o.runners[r].queue);
    }
  }

  lemma StartShrinks(o: Office, m: Move, r: int)
    requires Possible(o, m) && m.Start? && r in Act(o, m).runners
    ensures r in o.runners && QueueShrank(o.runners[r].queue, Act(o, m).runners[r].queue)
  {
    var r0, after := o.runners[m.runner], Act(o, m);
    if LexLess(FormatDate(m.localToday), FormatDate(r0.queue[0].rule.next)) {
      assert after.runners == o.runners[m.runner := Drop(r0)];
    } else {
      assert after.runners == o.runners[m.runner := r0.(phase := Waiting(m.sid))];
    }
    Shrinks(o.runners[r].queue);
  }

  lemma FetchStands(moves: seq<Move>, o: Office, runner: int, order: seq<nat>, i: nat)
    requires Arrives(moves, o) && Possible(o, Fetch(runner, order)) && i < |order|
    ensures var queue := Act(o, Fetch(runner, order)).runners[runner].queue;
            i < |queue| && Stood(moves, queue[i].id, queue[i].rule)
  {
    assert order[i] in order;
    NowStood(moves, o, order[i]);
  }

  lemma ActKeepsQueues(moves: seq<Move>, o: Office, m: Move)
    requires Arrives(moves, o) && QueuesStood(moves, o) && Possible(o, m)
    ensures QueuesStood(moves + [m], Act(o, m))
  {
    var after := Act(o, m);
    forall r, i | r in after.runners && 0 <= i < |after.runners[r].queue|
      ensures Stood(moves + [m], after.runners[r].queue[i].id, after.runners[r].queue[i].rule)
    {
      var d := after.runners[r].queue[i];
      if m.Fetch? && r == m.runner {
        FetchStands(moves, o, m.runner, m.order, i);
      } else if m.Fetch? {
        assert Stood(moves, d.id, d.rule);
      } else {
        QueuesShrink(o, m, r);
        assert d in o.runners[r].queue;
      }
      StoodGrows(moves, m, d.id, d.rule);
    }
  }

  // ---- calls ----

  lemma StepKeepsCalls(moves: seq<Move>, m: Move, w: World, a: Action)
    requires CallsFromRules(moves, w) && Enabled(w, a) && !a.Begin?
    ensures CallsFromRules(moves + [m], Take(w, a))
  {
    var after := Take(w, a);
    forall sid | sid in after.sessions && after.sessions[sid].job.CreateJob? && !ForeignKey(after.sessions[sid].job.key)
      ensures FromRule(moves + [m], after.sessions[sid].job.user, after.sessions[sid].job.req,
                       after.sessions[sid].job.key)
    {
      JobsStay(w, a, sid);
      FromRuleGrows(moves, m, w.sessions[sid].job.user, w.sessions[sid].job.req, w.sessions[sid].job.key);
    }
    forall p | 0 <= p < |after.log| && after.log[p].Create? && !ForeignKey(after.log[p].key)
      ensures FromRule(moves + [m], after.log[p].user, after.log[p].req, after.log[p].key)
    {
      CreatesComeFromJobs(w, a, p);
      FromRuleGrows(moves, m, after.log[p].user, after.log[p].req, after.log[p].key);
    }
  }

  lemma BeginKeepsCalls(moves: seq<Move>, m: Move, w: World, sid: int, job: Job)
    requires CallsFromRules(moves, w) && sid !in w.sessions
    requires job.CreateJob? && !ForeignKey(job.key) ==> FromRule(moves, job.user, job.req, job.key)
    ensures CallsFromRules(moves + [m], Take(w, Begin(sid, job)))
  {
    var after := Take(w, Begin(sid, job));
    forall i | i in after.sessions && after.sessions[i].job.CreateJob? && !ForeignKey(after.sessions[i].job.key)
      ensures FromRule(moves + [m], after.sessions[i].job.user, after.sessions[i].job.req, after.sessions[i].job.key)
    {
      FromRuleGrows(moves, m, after.sessions[i].job.user, after.sessions[i].job.req, after.sessions[i].job.key);
    }
    forall p | 0 <= p < |after.log| && after.log[p].Create? && !ForeignKey(after.log[p].key)
      ensures FromRule(moves + [m], after.log[p].user, after.log[p].req, after.log[p].key)
    {
      FromRuleGrows(moves, m, after.log[p].user, after.log[p].req, after.log[p].key);
    }
  }

  lemma SameCalls(moves: seq<Move>, m: Move, w: World)
    requires CallsFromRules(moves, w)
    ensures CallsFromRules(moves + [m], w)
  {
    forall i | i in w.sessions && w.sessions[i].job.CreateJob? && !ForeignKey(w.sessions[i].job.key)
      ensures FromRule(moves + [m], w.sessions[i].job.user, w.sessions[i].job.req, w.sessions[i].job.key)
    {
      FromRuleGrows(moves, m, w.sessions[i].job.user, w.sessions[i].job.req, w.sessions[i].job.key);
    }
    forall p | 0 <= p < |w.log| && w.log[p].Create? && !ForeignKey(w.log[p].key)
      ensures FromRule(moves + [m], w.log[p].user, w.log[p].req, w.log[p].key)
    {
      FromRuleGrows(moves, m, w.log[p].user, w.log[p].req, w.log[p].key);
    }
  }

  lemma StartKeepsCalls(moves: seq<Move>, o: Office, runner: int, sid: int, localToday: Date)
    requires QueuesStood(moves, o) && CallsFromRules(moves, o.ledger) && Possible(o, Start(runner, sid, localToday))
    ensures CallsFromRules(moves + [Start(runner, sid, localToday)], Act(o, Start(runner, sid, localToday)).ledger)
  {
    var m, d := Start(runner, sid, localToday), o.runners[runner].queue[0];
    assert Stood(moves, d.id, d.rule);
    var job := JobFor(d);
    if Act(o, m).ledger == o.ledger {
      SameCalls(moves, m, o.ledger);
    } else {
      BeginKeepsCalls(moves, m, o.ledger, sid, job);
    }
  }

  lemma ActKeepsCalls(moves: seq<Move>, o: Office, m: Move)
    requires QueuesStood(moves, o) && CallsFromRules(moves, o.ledger) && Possible(o, m)
    ensures CallsFromRules(moves + [m], Act(o, m).ledger)
  {
    if m.LedgerMove? {
      match m.action {
        case Begin(sid, job) => BeginKeepsCalls(moves, m, o.ledger, sid, job);
        case _ => StepKeepsCalls(moves, m, o.ledger, m.action);
      }
    } else if m.Start? {
      StartKeepsCalls(moves, o, m.runner, m.sid, m.localToday);
    } else {
      SameCalls(moves, m, o.ledger);
      LedgerUntouched(o, m);
    }
  }

  lemma LedgerUntouched(o: Office, m: Move)
    requires Possible(o, m) && !m.LedgerMove? && !m.Start?
    ensures Act(o, m).ledger == o.ledger
  {}

  lemma {:induction false} ReachableTraced(moves: seq<Move>, o: Office)
    requires Arrives(moves, o)
    ensures QueuesStood(moves, o) && CallsFromRules(moves, o.ledger)
  {
    if moves != [] {
      var init, last := moves[..|moves| - 1], moves[|moves| - 1];
      var before := Operate(init).value;
      ReachableTraced(init, before);
      ActKeepsQueues(init, before, last);
      ActKeepsCalls(init, before, last);
      assert init + [last] == moves;
    }
  }

  // ---- the rule as first entered ----

  lemma SpecsNeverChange(o: Office, m: Move)
    requires Kept(o) && Possible(o, m)
    ensures SpecsGrow(o, Act(o, m))
  {
    if !m.LedgerMove? && !m.Start? {
      OtherMovesGrow(o, m);
    }
  }

  lemma {:induction false} SpecsSince(moves: seq<Move>, j: nat, before: Office, o: Office)
    requires j <= |moves| && Arrives(moves[..j], before) && Arrives(moves, o)
    ensures SpecsGrow(before, o)
    decreases |moves|
  {
    if j == |moves| {
      assert moves[..j] == moves;
    } else {
      var init := moves[..|moves| - 1];
      var mid := Operate(init).value;
      assert init[..j] == moves[..j];
      SpecsSince(init, j, before, mid);
      ReachableKept(init, mid);
      SpecsNeverChange(mid, moves[|moves| - 1]);
    }
  }

  lemma StoodAsEntered(moves: seq<Move>, o: Office, id: nat, rule: Rule)
    requires Arrives(moves, o) && Stood(moves, id, rule) && id !in o.disturbed
    ensures id in o.specs && SameTerms(rule, o.specs[id])
  {
    var j :| 0 <= j <= |moves| && Operate(moves[..j]).Some?
             && id in Operate(moves[..j]).value.rules && Operate(moves[..j]).value.rules[id] == rule;
    var before := Operate(moves[..j]).value;
    ReachableKept(moves[..j], before);
    assert RuleOk(before, id, rule);
    SpecsSince(moves, j, before, o);
  }

  /** Every transaction generated for a rule and date carries what the rule said
      at some moment when that date was its next: the user, and the request in
      every field but the date, which is the run's. For a rule never updated that
      is what it was entered with. */
  lemma BookedAsTheRuleStood(moves: seq<Move>, o: Office, p: nat, id: nat, date: Date)
    requires Arrives(moves, o) && Valid(date) && p < |o.ledger.log|
    requires CreatesUnder(o.ledger.log[p], KeyFor(id, date))
    ensures exists rule :: Stood(moves, id, rule) && rule.next == date && o.ledger.log[p].user == rule.user
                           && o.ledger.log[p].req == rule.req.(date := date)
    ensures id !in o.disturbed ==>
              id in o.specs && o.ledger.log[p].user == o.specs[id].user
              && o.ledger.log[p].req == o.specs[id].req.(date := date)
  {
    ReachableTraced(moves, o);
    var op := o.ledger.log[p];
    assert !ForeignKey(op.key);
    var i: nat, rule: Rule :| Valid(rule.next) && Stood(moves, i, rule) && op.key == KeyFor(i, rule.next)
                   && op.user == rule.user && op.req == rule.req.(date := rule.next);
    KeyForInjective(id, date, i, rule.next);
    if id !in o.disturbed {
      StoodAsEntered(moves, o, id, rule);
    }
  }
}
