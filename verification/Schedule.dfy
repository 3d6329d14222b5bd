/** Schedule fidelity under concurrency: for a rule that is not edited, the
    dates advanced past are always a gap-free beginning of its schedule, none
    past the end date, however many runners there are and however stale their
    snapshots. */
module Schedule {
  import opened Common
  import opened Calendar
  import opened DateText
  import opened Scheduler

  predicate SameTerms(r: Rule, s: Rule) {
    r.user == s.user && r.req == s.req && r.freq == s.freq && r.interval == s.interval
    && r.start == s.start && r.end == s.end
  }

  ghost predicate HasAdvanced(advances: seq<Advanced>, id: nat, date: Date) {
    exists i :: 0 <= i < |advances| && advances[i].rule == id && advances[i].date == date
  }

  /** Every earlier date of the schedule has been advanced past. */
  ghost predicate AllBefore(advances: seq<Advanced>, id: nat, spec: Rule, k: nat)
    requires ValidRule(spec)
  {
    forall j: nat :: j < k ==> HasAdvanced(advances, id, Scheduled(spec, j))
  }

  /** The date is on the schedule and nothing before it was skipped. */
  ghost predicate OnSchedule(advances: seq<Advanced>, id: nat, spec: Rule, date: Date)
    requires ValidRule(spec)
  {
    exists k: nat :: date == Scheduled(spec, k) && AllBefore(advances, id, spec, k)
  }

  ghost predicate SpecsOk(o: Office) {
    && (forall id :: id in o.specs ==> id < o.nextRule && ValidRule(o.specs[id]))
    && (forall id :: id in o.disturbed ==> id in o.specs)
    && Valid(o.today) && o.today.year <= 9999
  }

  ghost predicate RuleOk(o: Office, id: nat, r: Rule)
    requires SpecsOk(o)
  {
    && ValidRule(r) && id in o.specs
    && (id !in o.disturbed ==>
          SameTerms(r, o.specs[id]) && OnSchedule(o.advances, id, o.specs[id], r.next)
          && (r.active ==> r.next.year > 9999 || WithinEnd(r, r.next)))
  }

  ghost predicate SnapshotOk(o: Office, d: Due)
    requires SpecsOk(o)
  {
    && ValidRule(d.rule) && d.rule.next.year <= 9999 && d.id in o.specs
    && (d.id !in o.disturbed ==>
          SameTerms(d.rule, o.specs[d.id]) && OnSchedule(o.advances, d.id, o.specs[d.id], d.rule.next)
          && WithinEnd(d.rule, d.rule.next))
  }

  ghost predicate AdvanceOk(o: Office, a: Advanced)
    requires SpecsOk(o)
  {
    a.rule in o.specs
    && (a.rule !in o.disturbed ==>
          OnSchedule(o.advances, a.rule, o.specs[a.rule], a.date) && WithinEnd(o.specs[a.rule], a.date))
    && (a.rule in o.rules ==> (a.rule, a.date) in o.runs)
  }

  ghost predicate Kept(o: Office) {
    && SpecsOk(o)
    && (forall id :: id in o.rules ==> RuleOk(o, id, o.rules[id]))
    && (forall r, i :: r in o.runners && 0 <= i < |o.runners[r].queue| ==> SnapshotOk(o, o.runners[r].queue[i]))
    && (forall i :: 0 <= i < |o.advances| ==> AdvanceOk(o, o.advances[i]))
  }

  // ---- growth ----

  lemma HasAdvancedGrows(advances: seq<Advanced>, more: seq<Advanced>, id: nat, date: Date)
    requires HasAdvanced(advances, id, date) && advances <= more
    ensures HasAdvanced(more, id, date)
  {
    var i :| 0 <= i < |advances| && advances[i].rule == id && advances[i].date == date;
    assert more[i] == advances[i];
  }

  lemma OnScheduleGrows(advances: seq<Advanced>, more: seq<Advanced>, id: nat, spec: Rule, date: Date)
    requires ValidRule(spec) && OnSchedule(advances, id, spec, date) && advances <= more
    ensures OnSchedule(more, id, spec, date)
  {
    var k: nat :| date == Scheduled(spec, k) && AllBefore(advances, id, spec, k);
    forall j: nat | j < k ensures HasAdvanced(more, id, Scheduled(spec, j)) {
      HasAdvancedGrows(advances, more, id, Scheduled(spec, j));
    }
    assert AllBefore(more, id, spec, k);
  }

  lemma StartIsOnSchedule(advances: seq<Advanced>, id: nat, spec: Rule)
    requires ValidRule(spec)
    ensures OnSchedule(advances, id, spec, spec.start)
  {
    assert AllBefore(advances, id, spec, 0) && Scheduled(spec, 0) == spec.start;
  }

  /** Advancing past a scheduled date leaves the rule on the next one. */
  lemma StepStaysOnSchedule(advances: seq<Advanced>, id: nat, spec: Rule, snap: Rule, txn: int)
    requires ValidRule(spec) && ValidRule(snap) && SameTerms(snap, spec) && OnSchedule(advances, id, spec, snap.next)
    requires snap.next.year <= 9999
    ensures OnSchedule(advances + [Advanced(id, snap.next, txn)], id, spec, Following(snap))
  {
    var more := advances + [Advanced(id, snap.next, txn)];
    var k: nat :| snap.next == Scheduled(spec, k) && AllBefore(advances, id, spec, k);
    forall j: nat | j < k + 1 ensures HasAdvanced(more, id, Scheduled(spec, j)) {
      if j == k {
        assert more[|advances|].date == Scheduled(spec, j);
      } else {
        assert HasAdvanced(advances, id, Scheduled(spec, j));
        HasAdvancedGrows(advances, more, id, Scheduled(spec, j));
      }
    }
    assert Following(snap) == Scheduled(spec, k + 1) && AllBefore(more, id, spec, k + 1);
  }

  /** The string test for completion is right about a next date exactly when its
      year and the end's compare alike. */
  lemma FinishedMeansPast(r: Rule, next: Date)
    requires ValidRule(r) && Valid(next) && r.end.Some?
    ensures (EndPassedAsText(r, next) <==> !WithinEnd(r, next)) <==> YearsCompare(r.end.value.year, next.year)
  {
    TextAgreesExactly(r.end.value, next);
  }

  /** What the caller can know before the step: the year it will land in, and
      whether that year and the end's compare alike. A rule whose date does not
      parse is always deactivated. */
  predicate EndIsSeen(r: Rule)
    requires ValidRule(r)
  {
    if r.next.year > 9999 then !WithinEnd(r, r.next)
    else r.end.Some? ==> YearsCompare(r.end.value.year, StepYear(r.next, r.freq, r.interval))
  }

  /** advanceDate calls a rule done exactly when its next date is past its end,
      if and only if the end is seen. */
  lemma DoneMeansPastEnd(r: Rule)
    requires ValidRule(r)
    ensures (Finished(r, Following(r)) <==> !WithinEnd(r, Following(r))) <==> EndIsSeen(r)
  {
    if r.next.year <= 9999 {
      StepLandsInYear(r.next, r.freq, r.interval);
      if r.end.Some? {
        FinishedMeansPast(r, Following(r));
      }
    }
  }

  /** Missed: a rule for every 120000 months from 1 January to 31 December of one
      year, of any from 1112 on, steps ten thousand years past its end and is not
      seen to be done. In 2025 it steps to 12025. */
  lemma EndIsMissed(r: Rule, year: nat)
    requires ValidRule(r) && r.freq == Monthly && r.interval == 120000 && 1112 <= year <= 9999
    requires r.next == Date(year, 1, 1) && r.end == Some(Date(year, 12, 31))
    ensures WithinEnd(r, r.next) && !WithinEnd(r, Following(r)) && !Finished(r, Following(r))
  {
    StepsTo(r, year + 10000);
    FiveDigits(year, year + 10000);
    FinishedMeansPast(r, Following(r));
  }

  /** Imagined: a monthly rule that is to end in a five-digit year is taken for
      done at a step within a four-digit year above the end's leading digits, as
      in 2025 for an end in 12000. */
  lemma EndIsImagined(r: Rule, end: Date)
    requires ValidRule(r) && r.freq == Monthly && r.interval == 1 && r.next.month < 12
    requires r.end == Some(end) && 10000 <= end.year <= 99999 && end.year / 10 < r.next.year <= 9999
    ensures WithinEnd(r, Following(r)) && Finished(r, Following(r))
  {
    StepsTo(r, r.next.year);
    FiveDigits(r.next.year, end.year);
    FinishedMeansPast(r, Following(r));
  }

  lemma StepsTo(r: Rule, year: int)
    requires ValidRule(r) && r.freq == Monthly && r.next.year <= 9999
    requires year == r.next.year + (r.next.month - 1 + r.interval) / 12
    ensures Following(r).year == year
  {
    StepLandsInYear(r.next, r.freq, r.interval);
  }

  lemma FiveDigits(a: nat, b: nat)
    requires a <= 9999 && 10000 <= b <= 99999
    ensures YearsCompare(a, b) <==> a <= b / 10
    ensures YearsCompare(b, a) <==> a <= b / 10
  {
    YearIsPadded(a);
    FiveWide(b);
    assert Leading(b, 1) == Leading(b / 10, 0);
  }

  lemma UnfinishedStaysWithin(r: Rule, next: Date)
    requires ValidRule(r) && Valid(next) && !EndPassedAsText(r, next)
    ensures next.year > 9999 || WithinEnd(r, next)
  {
    if r.end.Some? && next.year <= 9999 && r.end.value.year <= 9999 {
      TextOrder(r.end.value, next);
    }
  }

  // ---- the moves ----

  /** No date was advanced past, queues only shrank, and no run of a remaining
      rule was lost. */
  ghost predicate NoAdvance(o: Office, after: Office) {
    && after.advances == o.advances && after.specs == o.specs && o.disturbed <= after.disturbed
    && after.rules.Keys <= o.rules.Keys
    && (forall k :: k in o.runs && k.0 in after.rules ==> k in after.runs)
    && (forall r :: r in after.runners ==> r in o.runners && QueueShrank(o.runners[r].queue, after.runners[r].queue))
  }

  predicate QueueShrank(queue: seq<Due>, rest: seq<Due>) {
    forall i :: 0 <= i < |rest| ==> rest[i] in queue
  }

  lemma SnapshotsStay(o: Office, after: Office, r: int, i: nat)
    requires Kept(o) && SpecsOk(after) && NoAdvance(o, after) && r in after.runners && i < |after.runners[r].queue|
    ensures SnapshotOk(after, after.runners[r].queue[i])
  {
    var queue, d := o.runners[r].queue, after.runners[r].queue[i];
    assert d in queue;
    var j :| 0 <= j < |queue| && queue[j] == d;
    assert SnapshotOk(o, queue[j]);
  }

  lemma NoAdvanceKeeps(o: Office, after: Office)
    requires Kept(o) && SpecsOk(after) && NoAdvance(o, after)
    requires forall id :: id in after.rules ==> RuleOk(after, id, after.rules[id])
    ensures Kept(after)
  {
    forall r, i | r in after.runners && 0 <= i < |after.runners[r].queue|
      ensures SnapshotOk(after, after.runners[r].queue[i])
    {
      SnapshotsStay(o, after, r, i);
    }
    forall i | 0 <= i < |after.advances| ensures AdvanceOk(after, after.advances[i]) {
      assert AdvanceOk(o, o.advances[i]);
    }
  }

  /** A move of one runner, of the ledger, or of nothing here. */
  lemma IdleKeeps(o: Office, after: Office)
    requires Kept(o) && NoAdvance(o, after) && after.rules == o.rules && after.disturbed == o.disturbed
    requires after.nextRule == o.nextRule && after.today == o.today
    ensures Kept(after)
  {
    forall id | id in after.rules ensures RuleOk(after, id, after.rules[id]) {
      assert RuleOk(o, id, o.rules[id]);
    }
    NoAdvanceKeeps(o, after);
  }

  lemma Shrinks(queue: seq<Due>)
    ensures QueueShrank(queue, queue) && (queue != [] ==> QueueShrank(queue, queue[1..]))
  {}

  /** One runner's move: its queue stays or loses its head. */
  lemma RunnerMoveKeeps(o: Office, after: Office, runner: int)
    requires Kept(o) && runner in o.runners && o.runners[runner].queue != [] && runner in after.runners
    requires after.runners == o.runners[runner := after.runners[runner]]
    requires after.runners[runner].queue == o.runners[runner].queue
        || after.runners[runner].queue == o.runners[runner].queue[1..]
    requires after.rules == o.rules && after.specs == o.specs
    requires after.disturbed == o.disturbed && after.nextRule == o.nextRule
    requires after.advances == o.advances && after.today == o.today && o.runs.Keys <= after.runs.Keys
    ensures Kept(after)
  {
    forall r | r in after.runners ensures r in o.runners && QueueShrank(o.runners[r].queue, after.runners[r].queue) {
      Shrinks(o.runners[r].queue);
    }
    IdleKeeps(o, after);
  }

  lemma StartKeeps(o: Office, runner: int, sid: int, localToday: Date)
    requires Kept(o) && Possible(o, Start(runner, sid, localToday))
    ensures Kept(Act(o, Start(runner, sid, localToday)))
  {
    var r, after := o.runners[runner], Act(o, Start(runner, sid, localToday));
    if LexLess(FormatDate(localToday), FormatDate(r.queue[0].rule.next)) {
      assert after == o.(runners := o.runners[runner := Drop(r)]);
    } else {
      assert after == o.(ledger := after.ledger, runners := o.runners[runner := r.(phase := Waiting(sid))]);
    }
    RunnerMoveKeeps(o, after, runner);
  }

  lemma CollectKeeps(o: Office, runner: int)
    requires Kept(o) && Possible(o, Collect(runner))
    ensures Kept(Act(o, Collect(runner)))
  {
    RunnerMoveKeeps(o, Act(o, Collect(runner)), runner);
  }

  lemma RecordFailureKeeps(o: Office, runner: int)
    requires Kept(o) && Possible(o, RecordFailure(runner))
    ensures Kept(Act(o, RecordFailure(runner)))
  {
    RunnerMoveKeeps(o, Act(o, RecordFailure(runner)), runner);
  }

  lemma LedgerKeeps(o: Office, after: Office)
    requires Kept(o) && after == o.(ledger := after.ledger, runs := after.runs) && after.runs.Keys == o.runs.Keys
    ensures Kept(after)
  {
    forall r | r in after.runners ensures QueueShrank(o.runners[r].queue, after.runners[r].queue) {
      Shrinks(o.runners[r].queue);
    }
    IdleKeeps(o, after);
  }

  lemma CrashKeeps(o: Office, runner: int)
    requires Kept(o)
    ensures Kept(o.(runners := o.runners - {runner}))
  {
    var after := o.(runners := o.runners - {runner});
    forall r | r in after.runners ensures r in o.runners && QueueShrank(o.runners[r].queue, after.runners[r].queue) {
      Shrinks(o.runners[r].queue);
    }
    IdleKeeps(o, after);
  }

  lemma FetchKeeps(o: Office, runner: int, order: seq<nat>)
    requires Kept(o) && Possible(o, Fetch(runner, order))
    ensures Kept(Act(o, Fetch(runner, order)))
  {
    var after := Act(o, Fetch(runner, order));
    forall r, i | r in after.runners && 0 <= i < |after.runners[r].queue|
      ensures SnapshotOk(after, after.runners[r].queue[i])
    {
      if r == runner {
        assert order[i] in order;
        assert IsDue(o, order[i]) && RuleOk(o, order[i], o.rules[order[i]]);
        DueYear(o.rules[order[i]].next, o.today);
      } else {
        assert SnapshotOk(o, o.runners[r].queue[i]);
      }
    }
    forall i | 0 <= i < |after.advances| ensures AdvanceOk(after, after.advances[i]) {
      assert AdvanceOk(o, o.advances[i]);
    }
    forall id | id in after.rules ensures RuleOk(after, id, after.rules[id]) {
      assert RuleOk(o, id, o.rules[id]);
    }
  }

  lemma DueYear(next: Date, today: Date)
    requires NotAfter(next, today) && today.year <= 9999
    ensures next.year <= 9999
  {}

  /** What an effective AdvanceRun leaves behind. */
  ghost predicate AdvancedTo(o: Office, after: Office, runner: int, d: Due, next: Date, txn: int) {
    && runner in o.runners && o.runners[runner].queue != [] && o.runners[runner].queue[0] == d
    && ValidRule(d.rule) && next == Following(d.rule) && d.id in o.rules
    && after.rules == o.rules[d.id := AdvancedRow(o.rules[d.id], d.rule)]
    && after.advances == o.advances + [Advanced(d.id, d.rule.next, txn)]
    && runner in after.runners && after.runners == o.runners[runner := after.runners[runner]]
    && after.runners[runner].queue == o.runners[runner].queue[1..]
    && o.runs.Keys <= after.runs.Keys && (d.id, d.rule.next) in after.runs
    && after.specs == o.specs && after.disturbed == o.disturbed && after.today == o.today
        && after.nextRule == o.nextRule
  }

  lemma AdvanceCases(o: Office, runner: int, after: Office)
    requires Possible(o, AdvanceRun(runner)) && after == Advance(o, runner)
    ensures (NoAdvance(o, after) && after.rules == o.rules && after.disturbed == o.disturbed
             && after.nextRule == o.nextRule && after.today == o.today)
         || AdvancedTo(o, after, runner, o.runners[runner].queue[0], Following(o.runners[runner].queue[0].rule),
                       o.runners[runner].phase.txn)
  {
    if after.advances == o.advances {
      forall r | r in after.runners ensures r in o.runners && QueueShrank(o.runners[r].queue, after.runners[r].queue) {
        Shrinks(o.runners[r].queue);
      }
    }
  }

  lemma AdvanceKeeps(o: Office, runner: int)
    requires Kept(o) && Possible(o, AdvanceRun(runner))
    ensures Kept(Advance(o, runner))
  {
    var after := Advance(o, runner);
    AdvanceCases(o, runner, after);
    if after.advances == o.advances {
      IdleKeeps(o, after);
    } else {
      var d := o.runners[runner].queue[0];
      assert SnapshotOk(o, d);
      AdvancedKeeps(o, after, runner, d, Following(d.rule), o.runners[runner].phase.txn);
    }
  }

  lemma AdvancedKeeps(o: Office, after: Office, runner: int, d: Due, next: Date, txn: int)
    requires Kept(o) && AdvancedTo(o, after, runner, d, next, txn) && SnapshotOk(o, d)
    ensures Kept(after)
  {
    forall i | i in after.rules ensures RuleOk(after, i, after.rules[i]) {
      AdvancedRule(o, after, runner, d, next, txn, i);
    }
    forall r, i | r in after.runners && 0 <= i < |after.runners[r].queue|
      ensures SnapshotOk(after, after.runners[r].queue[i])
    {
      AdvancedQueue(o, after, runner, d, next, txn, r, i);
    }
    forall i | 0 <= i < |after.advances| ensures AdvanceOk(after, after.advances[i]) {
      AdvancedRecord(o, after, runner, d, next, txn, i);
    }
  }

  lemma AdvancedRule(o: Office, after: Office, runner: int, d: Due, next: Date, txn: int, i: nat)
    requires Kept(o) && AdvancedTo(o, after, runner, d, next, txn) && SnapshotOk(o, d) && i in after.rules
    ensures RuleOk(after, i, after.rules[i])
  {
    assert RuleOk(o, i, o.rules[i]);
    if i !in o.disturbed {
      if i == d.id {
        StepStaysOnSchedule(o.advances, i, o.specs[i], d.rule, txn);
        if !Finished(d.rule, next) {
          UnfinishedStaysWithin(d.rule, next);
        }
      } else {
        OnScheduleGrows(o.advances, after.advances, i, o.specs[i], o.rules[i].next);
      }
    }
  }

  lemma AdvancedQueue(o: Office, after: Office, runner: int, d: Due, next: Date, txn: int, r: int, i: nat)
    requires Kept(o) && AdvancedTo(o, after, runner, d, next, txn) && r in after.runners && i < |after.runners[r].queue|
    ensures SnapshotOk(after, after.runners[r].queue[i])
  {
    var e := after.runners[r].queue[i];
    assert e == if r == runner then o.runners[r].queue[i + 1] else o.runners[r].queue[i];
    assert SnapshotOk(o, e);
    if e.id !in o.disturbed {
      OnScheduleGrows(o.advances, after.advances, e.id, o.specs[e.id], e.rule.next);
    }
  }

  lemma AdvancedRecord(o: Office, after: Office, runner: int, d: Due, next: Date, txn: int, i: nat)
    requires Kept(o) && AdvancedTo(o, after, runner, d, next, txn) && SnapshotOk(o, d) && i < |after.advances|
    ensures AdvanceOk(after, after.advances[i])
  {
    var a := after.advances[i];
    if i < |o.advances| {
      assert a == o.advances[i] && AdvanceOk(o, a);
    }
    if a.rule !in o.disturbed {
      OnScheduleGrows(o.advances, after.advances, a.rule, o.specs[a.rule], a.date);
    }
  }

  lemma AddRuleKeeps(o: Office, rule: Rule)
    requires Kept(o) && Possible(o, AddRule(rule))
    ensures Kept(Act(o, AddRule(rule)))
  {
    var after := Act(o, AddRule(rule));
    assert o.nextRule !in o.specs && o.nextRule !in o.disturbed;
    StartIsOnSchedule(o.advances, o.nextRule, rule);
    forall id | id in after.rules ensures RuleOk(after, id, after.rules[id]) {
      if id != o.nextRule {
        assert RuleOk(o, id, o.rules[id]);
      }
    }
    forall r, i | r in after.runners && 0 <= i < |after.runners[r].queue|
      ensures SnapshotOk(after, after.runners[r].queue[i])
    {
      assert SnapshotOk(o, o.runners[r].queue[i]);
    }
    forall i | 0 <= i < |after.advances| ensures AdvanceOk(after, after.advances[i]) {
      assert AdvanceOk(o, o.advances[i]);
      assert o.nextRule !in o.rules ==> o.advances[i].rule != o.nextRule;
    }
  }

  /** Moves that only relax what is asked: more rules disturbed, rules removed
      with their runs, a rule's terms or activity edited, a new day. */
  lemma EditKeeps(o: Office, m: Move)
    requires Kept(o) && Possible(o, m) && (m.UpdateRule? || m.SetActive? || m.RemoveRule? || m.NewDay?)
    ensures Kept(Act(o, m))
  {
    match m {
      case UpdateRule(id, rule) => RuleEdited(o, Act(o, m), id);
      case SetActive(id, active) => SetActiveKeeps(o, id, active);
      case RemoveRule(id) => RuleRemoved(o, Act(o, m), id);
      case NewDay(_) => Unedited(o, Act(o, m));
    }
  }

  lemma SetActiveKeeps(o: Office, id: nat, active: bool)
    requires Kept(o) && id in o.rules
    ensures Kept(Act(o, SetActive(id, active)))
  {
    var after := Act(o, SetActive(id, active));
    assert RuleOk(o, id, o.rules[id]);
    RuleEdited(o, after, id);
  }

  lemma RuleEdited(o: Office, after: Office, id: nat)
    requires Kept(o) && id in o.rules && id in after.rules && SpecsOk(after) && RuleOk(after, id, after.rules[id])
    requires after == o.(rules := o.rules[id := after.rules[id]], disturbed := after.disturbed)
    requires o.disturbed <= after.disturbed
    ensures Kept(after)
  {
    forall i | i in after.rules ensures RuleOk(after, i, after.rules[i]) {
      assert RuleOk(o, i, o.rules[i]);
    }
    SameQueues(o, after);
    NoAdvanceKeeps(o, after);
  }

  lemma RuleRemoved(o: Office, after: Office, id: nat)
    requires Kept(o) && after == o.(rules := o.rules - {id}, runs := after.runs)
    requires forall k :: k in o.runs && k.0 != id ==> k in after.runs
    ensures Kept(after)
  {
    forall i | i in after.rules ensures RuleOk(after, i, after.rules[i]) {
      assert RuleOk(o, i, o.rules[i]);
    }
    SameQueues(o, after);
    NoAdvanceKeeps(o, after);
  }

  lemma Unedited(o: Office, after: Office)
    requires Kept(o) && after == o.(today := after.today) && Valid(after.today) && after.today.year <= 9999
    ensures Kept(after)
  {
    forall i | i in after.rules ensures RuleOk(after, i, after.rules[i]) {
      assert RuleOk(o, i, o.rules[i]);
    }
    SameQueues(o, after);
    NoAdvanceKeeps(o, after);
  }

  lemma SameQueues(o: Office, after: Office)
    requires after.runners == o.runners
    ensures forall r :: r in after.runners ==> r in o.runners && QueueShrank(o.runners[r].queue, after.runners[r].queue)
  {
    forall r | r in after.runners ensures QueueShrank(o.runners[r].queue, after.runners[r].queue) {
      Shrinks(o.runners[r].queue);
    }
  }

  lemma ActKeeps(o: Office, m: Move)
    requires Kept(o) && Possible(o, m)
    ensures Kept(Act(o, m))
  {
    match m {
      case AddRule(rule) => AddRuleKeeps(o, rule);
      case Fetch(runner, order) => FetchKeeps(o, runner, order);
      case AdvanceRun(runner) => AdvanceKeeps(o, runner);
      case LedgerMove(a) => LedgerKeeps(o, Act(o, m));
      case Crash(runner) => CrashKeeps(o, runner);
      case Start(runner, sid, localToday) => StartKeeps(o, runner, sid, localToday);
      case Collect(runner) => CollectKeeps(o, runner);
      case RecordFailure(runner) => RecordFailureKeeps(o, runner);
      case _ => EditKeeps(o, m);
    }
  }

  lemma {:induction false} ReachableKept(moves: seq<Move>, o: Office)
    requires Arrives(moves, o)
    ensures Kept(o)
  {
    if moves != [] {
      var before := Operate(moves[..|moves| - 1]).value;
      ReachableKept(moves[..|moves| - 1], before);
      ActKeeps(before, moves[|moves| - 1]);
    }
  }

  // ---- the results ----

  lemma ScheduledStep(r: Rule, k: nat)
    requires ValidRule(r)
    ensures Before(Scheduled(r, k), Scheduled(r, k + 1))
  {
    var date := Scheduled(r, k);
    assert Scheduled(r, k + 1) == Step(date, r.freq, r.interval);
    StepMovesForward(date, r.freq, r.interval);
  }

  lemma {:induction false} StepwiseIncreasing(f: nat -> Date, j: nat, k: nat)
    requires j < k && forall i: nat, n: nat :: n == i + 1 ==> Before(f(i), f(n))
    ensures Before(f(j), f(k))
    decreases k
  {
    assert Before(f(k - 1), f(k));
    if j < k - 1 {
      StepwiseIncreasing(f, j, k - 1);
    }
  }

  /** The schedule never returns to a date. */
  lemma ScheduledIncreases(r: Rule, j: nat, k: nat)
    requires ValidRule(r) && j < k
    ensures Before(Scheduled(r, j), Scheduled(r, k))
  {
    var f := (i: nat) => Scheduled(r, i);
    assert forall i: nat, n: nat :: n == i + 1 ==> Before(f(i), f(n)) by {
      forall i: nat, n: nat | n == i + 1 ensures Before(f(i), f(n)) {
        ScheduledStep(r, i);
      }
    }
    StepwiseIncreasing(f, j, k);
  }

  lemma DayStep(r: Rule, k: nat, days: int)
    requires ValidRule(r) && ((r.freq == Daily && days == r.interval) || (r.freq == Weekly && days == 7 * r.interval))
    ensures DayNumber(Scheduled(r, k + 1)) == DayNumber(Scheduled(r, k)) + days
  {
    var date := Scheduled(r, k);
    assert Scheduled(r, k + 1) == Step(date, r.freq, r.interval);
    StepLands(date, r.freq, r.interval);
  }

  lemma {:induction false} StepwiseLinear(f: nat -> int, days: int, k: nat)
    requires forall i: nat, n: nat :: n == i + 1 ==> f(n) == f(i) + days
    ensures f(k) == f(0) + days * k
  {
    if k > 0 {
      StepwiseLinear(f, days, k - 1);
      assert f(k) == f(k - 1) + days;
    }
  }

  /** Daily and weekly schedules never drift: the k-th date is k steps of the
      same number of days after the start. */
  lemma {:induction false} EvenlySpaced(r: Rule, k: nat)
    requires ValidRule(r)
    ensures r.freq == Daily ==> DayNumber(Scheduled(r, k)) == DayNumber(r.start) + r.interval * k
    ensures r.freq == Weekly ==> DayNumber(Scheduled(r, k)) == DayNumber(r.start) + 7 * r.interval * k
  {
    if r.freq != Monthly {
      var f := (i: nat) => DayNumber(Scheduled(r, i)) as int;
      var days := if r.freq == Daily then r.interval else 7 * r.interval;
      forall i: nat, n: nat | n == i + 1 ensures f(n) == f(i) + days {
        DayStep(r, i, days);
      }
      StepwiseLinear(f, days, k);
      assert f(0) == DayNumber(r.start);
    }
  }

  lemma MonthlyStep(r: Rule, k: nat)
    requires ValidRule(r) && r.freq == Monthly
    ensures Scheduled(r, k + 1) == AddMonths(Scheduled(r, k), r.interval)
  {
    var date := Scheduled(r, k);
    assert Scheduled(r, k + 1) == Step(date, r.freq, r.interval);
  }

  predicate MonthsApart(d: Date, e: Date, n: nat) {
    Valid(d) && e == AddMonths(d, n)
  }

  lemma OneMoreTime(n: nat, k: nat)
    requires k > 0
    ensures n * (k - 1) >= 0 && n * k == n * (k - 1) + n
  {}

  lemma NoMonths(start: Date)
    requires Valid(start)
    ensures MonthAfter(start, 0).(day := start.day) == start
  {}

  lemma {:induction false} StepwiseMonths(f: nat -> Date, start: Date, n: nat, k: nat, total: nat)
    requires Valid(start) && start.day <= 28 && f(0) == start && total == n * k
    requires forall i: nat, j: nat :: j == i + 1 ==> MonthsApart(f(i), f(j), n)
    ensures f(k) == MonthAfter(start, total).(day := start.day)
  {
    if k == 0 {
      NoMonths(start);
    } else {
      assert total - n == n * (k - 1) >= 0 by {
        OneMoreTime(n, k);
      }
      StepwiseMonths(f, start, n, k - 1, total - n);
      assert MonthsApart(f(k - 1), f(k), n);
      MonthStep(start, total - n, n, f(k - 1), f(k));
    }
  }

  /** A monthly schedule from a day up to the 28th keeps the day: its k-th date is
      k times the interval of months after the start. */
  lemma EvenMonths(r: Rule, k: nat, months: nat)
    requires ValidRule(r) && r.freq == Monthly && r.start.day <= 28 && months == r.interval * k
    ensures Scheduled(r, k) == MonthAfter(r.start, months).(day := r.start.day)
  {
    var f := ScheduleFrom(r);
    StepwiseMonths(f, r.start, r.interval, k, months);
  }

  ghost function ScheduleFrom(r: Rule): (f: nat -> Date)
    requires ValidRule(r) && r.freq == Monthly
    ensures forall k: nat :: f(k) == Scheduled(r, k)
    ensures forall i: nat, j: nat :: j == i + 1 ==> MonthsApart(f(i), f(j), r.interval)
  {
    var f := (i: nat) => Scheduled(r, i);
    assert forall i: nat, j: nat :: j == i + 1 ==> MonthsApart(f(i), f(j), r.interval) by {
      forall i: nat, j: nat | j == i + 1 ensures MonthsApart(f(i), f(j), r.interval) {
        MonthlyStep(r, i);
      }
    }
    f
  }

  lemma MonthStep(start: Date, m: nat, n: nat, before: Date, date: Date)
    requires Valid(start) && start.day <= 28 && before == MonthAfter(start, m).(day := start.day)
    requires Valid(before) && date == AddMonths(before, n)
    ensures date == MonthAfter(start, m + n).(day := start.day)
  {
    EarlyDaysAreKept(before, n);
    MonthsAddUp(start, m, n);
  }

  /** For a rule never updated and never made active past its end, each date some
      runner advanced past is the k-th scheduled date for exactly one k, not past
      the end date, all earlier scheduled dates were advanced past as well, and
      while the rule exists the date has a run row. */
  lemma ScheduleIsGapFree(moves: seq<Move>, o: Office, i: nat)
    requires Arrives(moves, o) && i < |o.advances| && o.advances[i].rule !in o.disturbed
    ensures var a := o.advances[i];
            a.rule in o.specs && ValidRule(o.specs[a.rule]) && WithinEnd(o.specs[a.rule], a.date)
            && (a.rule in o.rules ==> (a.rule, a.date) in o.runs)
            && exists k: nat :: a.date == Scheduled(o.specs[a.rule], k)
                 && (forall j: nat :: j < k ==> HasAdvanced(o.advances, a.rule, Scheduled(o.specs[a.rule], j)))
                 && (forall j: nat :: j != k ==> Scheduled(o.specs[a.rule], j) != a.date)
  {
    ReachableKept(moves, o);
    var a := o.advances[i];
    assert AdvanceOk(o, a);
    var spec := o.specs[a.rule];
    var k: nat :| a.date == Scheduled(spec, k) && AllBefore(o.advances, a.rule, spec, k);
    forall j: nat | j != k ensures Scheduled(spec, j) != a.date {
      if j < k {
        ScheduledIncreases(spec, j, k);
      } else {
        ScheduledIncreases(spec, k, j);
      }
    }
    forall j: nat | j < k ensures HasAdvanced(o.advances, a.rule, Scheduled(spec, j)) {}
  }
}
