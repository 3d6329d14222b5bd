/** What each move of a runner does, said in dates and fields, and that a due rule
    can always be served. */
module Serving {
  import opened Common
  import opened Calendar
  import opened DateText
  import opened Engine
  import opened Histories
  import opened Sessions
  import opened Refinement
  import opened Progress
  import opened Scheduler
  import opened ExactlyOnce
  import opened Schedule
  import opened Bookings
  import opened CatchUp
  import opened RecurringService

  // ---- the moves ----

  predicate InQueue(queue: seq<Due>, id: nat) {
    exists i :: 0 <= i < |queue| && queue[i].id == id
  }

  predicate DueByCount(o: Office, id: nat) {
    id in o.rules && o.rules[id].active && Valid(o.rules[id].next) && Valid(o.today)
    && DayNumber(o.rules[id].next) <= DayNumber(o.today)
  }

  lemma DueMeansDue(o: Office, id: nat)
    requires Kept(o)
    ensures IsDue(o, id) <==> DueByCount(o, id)
  {
    if id in o.rules {
      assert RuleOk(o, id, o.rules[id]);
      NotAfterByCount(o.rules[id].next, o.today);
    }
  }

  /** A fetch takes exactly the active rules whose next day has come, as they
      are. */
  lemma FetchTakesTheDue(moves: seq<Move>, o: Office, runner: int, order: seq<nat>, id: nat)
    requires Arrives(moves, o) && Possible(o, Fetch(runner, order))
    ensures var queue := Act(o, Fetch(runner, order)).runners[runner].queue;
            (InQueue(queue, id) <==> DueByCount(o, id))
            && forall i :: 0 <= i < |queue| ==> queue[i].id in o.rules && queue[i].rule == o.rules[queue[i].id]
  {
    var queue := Act(o, Fetch(runner, order)).runners[runner].queue;
    ReachableKept(moves, o);
    DueMeansDue(o, id);
    assert forall i :: 0 <= i < |order| ==> order[i] in order;
    if id in order {
      var i :| 0 <= i < |order| && order[i] == id;
      assert queue[i].id == id;
    }
  }

  /** A start opens the rule's call, unless the service's own day is before the
      rule's. */
  lemma StartMeaning(o: Office, runner: int, sid: int, localToday: Date)
    requires Possible(o, Start(runner, sid, localToday)) && localToday.year <= 9999
    requires o.runners[runner].queue[0].rule.next.year <= 9999
    ensures var after, d := Act(o, Start(runner, sid, localToday)), o.runners[runner].queue[0];
            if DayNumber(localToday) < DayNumber(d.rule.next)
            then after == o.(runners := o.runners[runner := Runner(o.runners[runner].queue[1..], Ready)])
            else after.ledger == Take(o.ledger, Begin(sid, CreateJob(d.rule.user, d.rule.req.(date := d.rule.next),
                                                                     KeyFor(d.id, d.rule.next))))
                 && after == o.(ledger := after.ledger,
                                runners := o.runners[runner := Runner(o.runners[runner].queue, Waiting(sid))])
  {
    TextOrder(localToday, o.runners[runner].queue[0].rule.next);
    DayNumberOrder(localToday, o.runners[runner].queue[0].rule.next);
  }

  /** A runner goes on to advance the rule exactly when its call answered a
      transaction, made now or before, and otherwise records a failure. */
  lemma CollectMeaning(o: Office, runner: int)
    requires Possible(o, Collect(runner))
    ensures var after, pc := Act(o, Collect(runner)), o.ledger.sessions[o.runners[runner].phase.sid].pc;
            after == o.(runners := after.runners) && runner in after.runners
            && after.runners == o.runners[runner := Runner(o.runners[runner].queue, after.runners[runner].phase)]
            && (forall id :: after.runners[runner].phase == Advancing(id) <==>
                               pc == Ended(Outcome.Created(id)) || pc == Ended(Outcome.Existing(id)))
            && (after.runners[runner].phase == Recording <==> !pc.outcome.Created? && !pc.outcome.Existing?)
  {}

  /** An advance commits exactly when the rule exists, its new date can be stored
      and its run is noted or its transaction live; then it is as far as the
      fetched copy's step, a new run row names the transaction, and the advance is
      on record. */
  lemma AdvanceMeaning(o: Office, runner: int)
    requires Possible(o, AdvanceRun(runner))
    ensures var after, d, txn := Act(o, AdvanceRun(runner)), o.runners[runner].queue[0], o.runners[runner].phase.txn;
            var k := (d.id, d.rule.next);
            after.runners == o.runners[runner := Runner(o.runners[runner].queue[1..], Ready)]
            && if d.id in o.rules && Following(d.rule).year <= 5874897 && (k in o.runs || txn in o.ledger.db.txns)
               then after.rules == o.rules[d.id := AdvancedRow(o.rules[d.id], d.rule)]
                    && after.runs == (if k in o.runs then o.runs else o.runs[k := RunRow(Success, Some(txn))])
                    && after.advances == o.advances + [Advanced(d.id, d.rule.next, txn)]
               else after.rules == o.rules && after.runs == o.runs && after.advances == o.advances
  {}

  lemma RecordMeaning(o: Office, runner: int)
    requires Possible(o, RecordFailure(runner))
    ensures var after, d := Act(o, RecordFailure(runner)), o.runners[runner].queue[0];
            var k := (d.id, d.rule.next);
            after == o.(runs := after.runs,
                        runners := o.runners[runner := Runner(o.runners[runner].queue[1..], Ready)])
            && after.runs == if d.id in o.rules && k !in o.runs then o.runs[k := RunRow(Failure, None)] else o.runs
  {}

  /** What users do to rules: an update keeps where the rule stands and whether it
      is active, a switch sets just that, and a removal takes the rule's runs with
      it and no other. */
  lemma EditMeaning(o: Office, m: Move, id: nat)
    requires Possible(o, m) && (m == RemoveRule(id) || (m.UpdateRule? && m.id == id) || (m.SetActive? && m.id == id))
    ensures var after := Act(o, m);
            && after == o.(rules := after.rules, runs := after.runs, disturbed := after.disturbed)
            && (forall i :: i != id ==> (i in after.rules <==> i in o.rules)
                                        && (i in o.rules ==> after.rules[i] == o.rules[i]))
            && (forall k :: k in o.runs && (m.RemoveRule? ==> k.0 != id) <==> k in after.runs)
            && (forall k :: k in after.runs ==> after.runs[k] == o.runs[k])
            && (id in after.rules <==> !m.RemoveRule?)
            && (m.SetActive? ==> after.rules[id] == o.rules[id].(active := m.active))
            && (m.UpdateRule? ==>
                  after.rules[id] == m.rule && m.rule.user == o.rules[id].user && m.rule.next == o.rules[id].next
                  && m.rule.last == o.rules[id].last && m.rule.active == o.rules[id].active)
  {}

  /** A new rule stands under a fresh id, a new day changes the day, a crash loses
      the runner and nothing else, and a step of the ledger is one. */
  lemma EventMeaning(o: Office, m: Move)
    requires Kept(o) && Possible(o, m) && (m.AddRule? || m.NewDay? || m.Crash? || m.LedgerMove?)
    ensures var after := Act(o, m);
            match m
            case AddRule(rule) =>
              o.nextRule !in o.rules && after.rules == o.rules[o.nextRule := rule] && after.runs == o.runs
              && after.nextRule == o.nextRule + 1 && after.ledger == o.ledger && after.runners == o.runners
            case NewDay(day) => after == o.(today := day)
            case Crash(runner) => after == o.(runners := o.runners - {runner})
            case LedgerMove(a) =>
              after == o.(ledger := Take(o.ledger, a), runs := after.runs) && after.runs.Keys == o.runs.Keys
            case _ => true
  {
    assert forall id :: id in o.rules ==> RuleOk(o, id, o.rules[id]);
  }

  /** A key that does not begin as run keys do is no run's. */
  lemma OrdinaryKey(key: string)
    requires key == "" || key[0] != 'r'
    ensures ForeignKey(key)
  {
    forall id: nat, text: string ensures key != RunKey(id, text) {
      assert RunKey(id, text)[0] == 'r';
    }
  }

  /** Users are free: any well-formed rule may be entered, any rule changed,
      switched or removed, and any ledger call made but under a run's key, at any
      moment. */
  lemma UsersMay(o: Office, m: Move)
    requires match m
             case AddRule(r) => Valid(r.start) && r.interval >= 1 && (r.end.Some? ==> Valid(r.end.value))
                                && r.next == r.start && r.last == None && r.active
             case UpdateRule(id, r) => id in o.rules && ValidRule(r) && r.user == o.rules[id].user
                                       && r.next == o.rules[id].next && r.last == o.rules[id].last
                                       && r.active == o.rules[id].active
             case SetActive(id, _) => id in o.rules
             case RemoveRule(id) => id in o.rules
             case LedgerMove(Begin(sid, CreateJob(_, _, key))) =>
               sid !in o.ledger.sessions && (key == "" || key[0] != 'r')
             case LedgerMove(Begin(sid, DeleteJob(_, _))) => sid !in o.ledger.sessions
             case LedgerMove(a) => Enabled(o.ledger, a)
             case _ => false
    ensures Possible(o, m)
  {
    if m.LedgerMove? && m.action.Begin? && m.action.job.CreateJob? {
      OrdinaryKey(m.action.job.key);
    }
  }

  // ---- the ledger under the office ----

  /** A move makes at most one step of the ledger. */
  lemma LedgerActs(o: Office, m: Move) returns (a: Option<Action>)
    requires Possible(o, m)
    ensures match a
            case None => Act(o, m).ledger == o.ledger
            case Some(action) => Enabled(o.ledger, action) && Act(o, m).ledger == Take(o.ledger, action)
  {
    if m.LedgerMove? {
      a := Some(m.action);
    } else if m.Start? && Act(o, m).ledger != o.ledger {
      a := Some(Begin(m.sid, JobFor(o.runners[m.runner].queue[0])));
    } else {
      a := None;
      if !m.Start? {
        LedgerUntouched(o, m);
      }
    }
  }

  lemma {:induction false} LedgerReaches(moves: seq<Move>, o: Office) returns (actions: seq<Action>)
    requires Arrives(moves, o)
    ensures Reaches(actions, o.ledger)
  {
    if moves == [] {
      actions := [];
    } else {
      var init, last := moves[..|moves| - 1], moves[|moves| - 1];
      var before := Operate(init).value;
      actions := LedgerReaches(init, before);
      var a := LedgerActs(before, last);
      if a.Some? {
        OneMore(actions, before.ledger, a.value);
        actions := actions + [a.value];
      }
    }
  }

  function LedgerMoves(actions: seq<Action>): seq<Move> {
    if actions == [] then [] else LedgerMoves(actions[..|actions| - 1]) + [LedgerMove(actions[|actions| - 1])]
  }

  /** The office after steps of the ledger alone. */
  ghost predicate OnlyLedger(o: Office, after: Office, w: World) {
    after == o.(ledger := w, runs := after.runs)
  }

  lemma OneMoreMove(moves: seq<Move>, o: Office, m: Move)
    requires Arrives(moves, o) && Possible(o, m)
    ensures Arrives(moves + [m], Act(o, m))
  {
    assert (moves + [m])[..|moves|] == moves;
  }

  lemma {:induction false} RunsInOffice(moves: seq<Move>, o: Office, actions: seq<Action>, more: seq<Action>, w: World)
    returns (after: Office)
    requires Arrives(moves, o) && Reaches(actions, o.ledger) && Reaches(actions + more, w) && OwnSteps(more)
    ensures Arrives(moves + LedgerMoves(more), after) && OnlyLedger(o, after, w)
    decreases |more|
  {
    if more == [] {
      NothingMore(actions);
      NothingMore(moves);
      after := o;
    } else {
      var init, last := more[..|more| - 1], more[|more| - 1];
      LastApart(actions, more);
      var mid := Run(actions + init).value;
      var before := RunsInOffice(moves, o, actions, init, mid);
      OneMoreMove(moves + LedgerMoves(init), before, LedgerMove(last));
      after := Act(before, LedgerMove(last));
      Together(moves, LedgerMoves(init), [LedgerMove(last)]);
    }
  }

  // ---- a due rule can be served ----

  lemma {:induction false} InSomeOrder(ids: set<nat>) returns (order: seq<nat>)
    ensures forall id :: id in order <==> id in ids
    decreases |ids|
  {
    if ids == {} {
      order := [];
    } else {
      var id :| id in ids;
      var rest := InSomeOrder(ids - {id});
      order := [id] + rest;
    }
  }

  /** Fetched with this rule first. */
  lemma FetchFirst(o: Office, runner: int, id: nat) returns (m: Move)
    requires runner !in o.runners && IsDue(o, id)
    ensures Possible(o, m) && runner in Act(o, m).runners
    ensures var r := Act(o, m).runners[runner];
            r.queue != [] && r.queue[0] == Due(id, o.rules[id]) && r.phase == Ready
            && Act(o, m) == o.(runners := o.runners[runner := r])
  {
    var rest := InSomeOrder(set i | i in o.rules && IsDue(o, i));
    m := Fetch(runner, [id] + rest);
  }

  lemma StartOpens(o: Office, runner: int, sid: int, d: Due)
    requires AtHead(o, runner) && o.runners[runner].phase == Ready && o.runners[runner].queue[0] == d
    requires ValidRule(d.rule) && Valid(o.today) && o.today.year <= 9999 && NotAfter(d.rule.next, o.today)
    requires sid !in o.ledger.sessions
    ensures var m := Start(runner, sid, o.today);
            Possible(o, m) && Act(o, m).ledger == Take(o.ledger, Begin(sid, JobFor(d)))
            && Act(o, m) == o.(ledger := Act(o, m).ledger,
                               runners := o.runners[runner := Runner(o.runners[runner].queue, Waiting(sid))])
  {
    DueYear(d.rule.next, o.today);
    StartMeaning(o, runner, sid, o.today);
    NotAfterByCount(d.rule.next, o.today);
  }

  /** The runner has fetched the rule first and started its call. */
  lemma Started(moves: seq<Move>, o: Office, runner: int, sid: int, id: nat)
    returns (more: seq<Move>, after: Office)
    requires Arrives(moves, o) && runner !in o.runners && sid !in o.ledger.sessions && IsDue(o, id)
    requires ValidRule(o.rules[id]) && Valid(o.today) && o.today.year <= 9999
    ensures Arrives(moves + more, after) && runner in after.runners
    ensures after.runners[runner].queue != [] && after.runners[runner].queue[0] == Due(id, o.rules[id])
    ensures after.runners[runner].phase == Waiting(sid)
    ensures after.ledger == Take(o.ledger, Begin(sid, JobFor(Due(id, o.rules[id]))))
    ensures after.rules == o.rules && after.advances == o.advances
  {
    var fetch := FetchFirst(o, runner, id);
    OneMoreMove(moves, o, fetch);
    var mid, start := Act(o, fetch), Start(runner, sid, o.today);
    StartOpens(mid, runner, sid, Due(id, o.rules[id]));
    OneMoreMove(moves + [fetch], mid, start);
    more, after := [fetch] + [start], Act(mid, start);
    Together(moves, [fetch], [start]);
  }

  lemma BegunAlone(w: World, sid: int, job: Job)
    requires AllEnded(w) && sid !in w.sessions
    ensures var after := Take(w, Begin(sid, job));
            after.db == w.db && sid in after.sessions && after.sessions[sid] == Fresh(job) && Alone(after, sid)
            && !after.sessions[sid].pc.Ended? && UpToDate(after, after.sessions[sid], w.nextTxn)
            && after.nextTxn == w.nextTxn && after.sessions[sid].job == job
  {}

  /** The call has run alone to its end. */
  lemma Called(moves: seq<Move>, o: Office, before: World, sid: int, d: Due) returns (more: seq<Move>, after: Office)
    requires Arrives(moves, o) && ValidRule(d.rule) && AllEnded(before) && sid !in before.sessions
    requires o.ledger == Take(before, Begin(sid, JobFor(d))) && Serviceable(before.db, d)
    ensures Arrives(moves + more, after) && after == o.(ledger := after.ledger, runs := after.runs)
    ensures sid in after.ledger.sessions && after.ledger.sessions[sid].pc.Ended?
    ensures var answer := after.ledger.sessions[sid].pc.outcome;
            (answer.Created? || answer.Existing?) && answer.id in after.ledger.db.txns
            && KeyOf(after.ledger.db.txns, d.rule.user, KeyFor(d.id, d.rule.next), true)
  {
    BegunAlone(before, sid, JobFor(d));
    var actions := LedgerReaches(moves, o);
    var w := o.ledger;
    var steps, ended := Finishes(actions, w, sid, w.nextTxn, Stage(w.sessions[sid]), ToGo(w.sessions[sid]));
    after := RunsInOffice(moves, o, actions, steps, ended);
    more := LedgerMoves(steps);
    ReachableInv(actions, w);
    var p := Point(w.db, w.nextTxn);
    assert Live(p);
    CallSucceeds(p, d);
    KeyedFacts(w.db, w.nextTxn, d.rule.user, RequestFor(d.rule), KeyFor(d.id, d.rule.next));
    assert Holds(ended.db.txns, d.rule.user, KeyFor(d.id, d.rule.next), ended.sessions[sid].pc.outcome.id);
  }

  /** The answer is collected and the rule advanced. */
  lemma AnswerAdvances(moves: seq<Move>, o: Office, runner: int, d: Due, txn: int)
    returns (more: seq<Move>, after: Office)
    requires Arrives(moves, o) && AtHead(o, runner) && o.runners[runner].queue[0] == d
    requires o.runners[runner].phase.Waiting? && o.runners[runner].phase.sid in o.ledger.sessions
    requires var pc := o.ledger.sessions[o.runners[runner].phase.sid].pc;
             pc == Ended(Outcome.Created(txn)) || pc == Ended(Outcome.Existing(txn))
    requires ValidRule(d.rule) && d.id in o.rules && txn in o.ledger.db.txns && Following(d.rule).year <= 5874897
    ensures Arrives(moves + more, after) && after.ledger == o.ledger
    ensures after.rules == o.rules[d.id := AdvancedRow(o.rules[d.id], d.rule)]
    ensures after.advances == o.advances + [Advanced(d.id, d.rule.next, txn)]
  {
    CollectMeaning(o, runner);
    OneMoreMove(moves, o, Collect(runner));
    var mid := Act(o, Collect(runner));
    assert mid.runners[runner].phase == Advancing(txn);
    AdvanceMeaning(mid, runner);
    OneMoreMove(moves + [Collect(runner)], mid, AdvanceRun(runner));
    AdvanceShape(mid, runner);
    more, after := [Collect(runner)] + [AdvanceRun(runner)], Act(mid, AdvanceRun(runner));
    Together(moves, [Collect(runner)], [AdvanceRun(runner)]);
  }

  /** From an open call to the rule's advance. */
  lemma Completed(moves: seq<Move>, o: Office, before: World, runner: int, sid: int, d: Due)
    returns (more: seq<Move>, after: Office, txn: int)
    requires Arrives(moves, o) && AllEnded(before) && sid !in before.sessions && ValidRule(d.rule)
    requires o.ledger == Take(before, Begin(sid, JobFor(d))) && Serviceable(before.db, d)
    requires AtHead(o, runner) && o.runners[runner].queue[0] == d && o.runners[runner].phase == Waiting(sid)
    requires d.id in o.rules
    ensures Arrives(moves + more, after)
    ensures after.rules == o.rules[d.id := AdvancedRow(o.rules[d.id], d.rule)]
    ensures after.advances == o.advances + [Advanced(d.id, d.rule.next, txn)]
    ensures KeyOf(after.ledger.db.txns, d.rule.user, KeyFor(d.id, d.rule.next), true)
  {
    var first, called := Called(moves, o, before, sid, d);
    txn := called.ledger.sessions[sid].pc.outcome.id;
    var second;
    second, after := AnswerAdvances(moves + first, called, runner, d, txn);
    more := first + second;
    Together(moves, first, second);
  }

  lemma TodayIsValid(moves: seq<Move>, o: Office)
    requires Arrives(moves, o)
    ensures Valid(o.today) && o.today.year <= 9999
  {
    ReachableKept(moves, o);
  }

  lemma OneAdvance(advances: seq<Advanced>, a: Advanced)
    ensures HasAdvanced(advances + [a], a.rule, a.date)
  {
    assert (advances + [a])[|advances|] == a;
  }

  /** Whatever has happened before, if no call is under way, a due rule that can
      be served can be run at once: fetched, booked and advanced. */
  lemma DueRuleIsServed(moves: seq<Move>, o: Office, runner: int, sid: int, id: nat)
    returns (more: seq<Move>, after: Office)
    requires Arrives(moves, o) && runner !in o.runners && sid !in o.ledger.sessions && AllEnded(o.ledger)
    requires IsDue(o, id) && ValidRule(o.rules[id]) && Serviceable(o.ledger.db, Due(id, o.rules[id]))
    ensures Arrives(moves + more, after) && id in after.rules && after.rules[id] == Stepped(o.rules[id])
    ensures HasAdvanced(after.advances, id, o.rules[id].next)
    ensures KeyOf(after.ledger.db.txns, o.rules[id].user, KeyFor(id, o.rules[id].next), true)
  {
    var d := Due(id, o.rules[id]);
    TodayIsValid(moves, o);
    var first, started := Started(moves, o, runner, sid, id);
    var second, txn;
    second, after, txn := Completed(moves + first, started, o.ledger, runner, sid, d);
    more := first + second;
    Together(moves, first, second);
    OneAdvance(o.advances, Advanced(id, o.rules[id].next, txn));
  }
}
