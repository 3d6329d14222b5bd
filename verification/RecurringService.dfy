/** The recurring service as code, run by one scheduler with nobody else at
    work: rules and runs as tables, transactions made by the ledger service. */
module RecurringService {
  import opened Common
  import opened Calendar
  import opened DateText
  import opened Trimming
  import opened Tables
  import opened Engine
  import opened Invariants
  import opened Histories
  import opened Shapes
  import opened LedgerStore
  import opened Scheduler
  import opened Schedule
  import opened CatchUp

  type Runs = map<(nat, Date), RunRow>

  function ScheduleOf(spec: Rule): nat -> Date
    requires ValidRule(spec)
  {
    (k: nat) => Scheduled(spec, k)
  }

  predicate PrefixOf(dates: seq<Date>, f: nat -> Date) {
    forall k: nat :: k < |dates| ==> dates[k] == f(k)
  }

  /** The dates a rule was run for are the beginning of its schedule. */
  predicate Beginning(spec: Rule, dates: seq<Date>)
    requires ValidRule(spec)
  {
    PrefixOf(dates, ScheduleOf(spec))
  }

  predicate AllWithin(spec: Rule, dates: seq<Date>) {
    forall k :: 0 <= k < |dates| ==> WithinEnd(spec, dates[k])
  }

  function LastOf(dates: seq<Date>): Option<Date> {
    if dates == [] then None else Some(dates[|dates| - 1])
  }

  /** What is known of a rule: its terms, the dates it was run for, whether it
      ever was made active past its end, and whether SetActive was ever used. */
  datatype Diary = Diary(spec: Rule, ran: seq<Date>, loose: bool, steered: bool)

  /** A rule stands at the first scheduled date it was not run for. */
  predicate Standing(r: Rule, d: Diary) {
    ValidRule(r) && ValidRule(d.spec) && SameTerms(r, d.spec) && ValidRequest(r.req)
    && r.next == ScheduleOf(d.spec)(|d.ran|) && Beginning(d.spec, d.ran) && r.last == LastOf(d.ran)
  }

  /** One never made active past its end has run for no date past it, and is
      active past it only unseen. */
  predicate Bounded(r: Rule, d: Diary)
    requires ValidRule(r)
  {
    !d.loose ==> AllWithin(d.spec, d.ran) && (r.active ==> WithinEnd(r, r.next) || !EndPassedAsText(r, r.next))
  }

  /** One left alone is active exactly until a step is seen to pass the end. */
  predicate SelfStopping(r: Rule, d: Diary)
    requires ValidRule(r)
  {
    !d.steered ==> (r.active <==> d.ran == [] || !EndPassedAsText(r, r.next))
  }

  predicate OnTrack(r: Rule, d: Diary) {
    Standing(r, d) && Bounded(r, d) && SelfStopping(r, d)
  }

  ghost predicate RunsNoted(runs: Runs, id: nat, dates: seq<Date>) {
    forall k :: 0 <= k < |dates| ==> (id, dates[k]) in runs
  }

  lemma NextOnSchedule(r: Rule, spec: Rule, n: nat, next: Date)
    requires ValidRule(r) && ValidRule(spec) && SameTerms(r, spec) && r.next.year <= 9999
    requires r.next == Scheduled(spec, n) && next == Scheduled(spec, n + 1)
    ensures Following(r) == next
  {}

  lemma PrefixGrows(dates: seq<Date>, date: Date, f: nat -> Date)
    requires PrefixOf(dates, f) && date == f(|dates|)
    ensures PrefixOf(dates + [date], f)
  {}

  lemma AllWithinGrows(spec: Rule, dates: seq<Date>, date: Date)
    requires AllWithin(spec, dates) && WithinEnd(spec, date)
    ensures AllWithin(spec, dates + [date])
  {}

  /** The diary after a rule was advanced past its next date. */
  function Logged(d: Diary, date: Date): Diary {
    d.(ran := d.ran + [date])
  }

  lemma StepStanding(r: Rule, d: Diary, s: Rule, after: Diary)
    requires Standing(r, d) && r.next.year <= 9999 && s == Stepped(r) && after == Logged(d, r.next)
    ensures Standing(s, after)
  {
    NextOnSchedule(r, d.spec, |d.ran|, ScheduleOf(d.spec)(|after.ran|));
    PrefixGrows(d.ran, r.next, ScheduleOf(d.spec));
  }

  /** A step leaves a rule active exactly if it was and the step is not seen to
      pass the end. */
  lemma StepActivity(r: Rule, s: Rule)
    requires ValidRule(r) && r.next.year <= 9999 && s == Stepped(r)
    ensures ValidRule(s) && (s.active <==> r.active && !EndPassedAsText(s, s.next))
  {}

  lemma DueWithin(r: Rule, d: Diary)
    requires ValidRule(r) && Bounded(r, d) && r.active && r.next.year <= 9999 && !d.loose
    ensures WithinEnd(r, r.next)
  {
    if !EndPassedAsText(r, r.next) {
      UnfinishedStaysWithin(r, r.next);
    }
  }

  /** A rule that an input can make: active, within its end, and after one step
      still active though past it. */
  lemma RuleOutlivesItsEnd(r: Rule)
    requires ValidRule(r) && r.freq == Monthly && r.interval == 120000 && r.active
    requires r.next == Date(2025, 1, 1) && r.end == Some(Date(2025, 12, 31))
    ensures WithinEnd(r, r.next) && Stepped(r).active && !WithinEnd(r, Stepped(r).next)
  {
    EndIsMissed(r, 2025);
  }

  function Noted(diary: map<nat, Diary>, d: Due): map<nat, Diary> {
    if d.id in diary then diary[d.id := Logged(diary[d.id], d.rule.next)] else diary
  }

  lemma StepOnTrack(r: Rule, d: Diary, today: Date, s: Rule, after: Diary)
    requires OnTrack(r, d) && DueOn(r, today) && today.year <= 9999 && s == Stepped(r) && after == Logged(d, r.next)
    ensures OnTrack(s, after)
  {
    DueYear(r.next, today);
    StepStanding(r, d, s, after);
    StepActivity(r, s);
    if !d.loose {
      DueWithin(r, d);
      AllWithinGrows(d.spec, d.ran, r.next);
    }
  }

  // ---- the tables ----

  ghost predicate Filed(id: nat, rules: Rules, runs: Runs, nextRule: nat, diary: map<nat, Diary>)
    requires id in rules
  {
    id < nextRule && id in diary && OnTrack(rules[id], diary[id]) && RunsNoted(runs, id, diary[id].ran)
  }

  ghost predicate Consistent(rules: Rules, runs: Runs, nextRule: nat, diary: map<nat, Diary>) {
    forall id :: id in rules ==> Filed(id, rules, runs, nextRule, diary)
  }

  lemma ConsistentIsValid(rules: Rules, runs: Runs, nextRule: nat, diary: map<nat, Diary>)
    requires Consistent(rules, runs, nextRule, diary)
    ensures AllValid(rules)
  {
    forall id | id in rules ensures ValidRule(rules[id]) {
      assert Filed(id, rules, runs, nextRule, diary);
    }
  }

  lemma Known(rules: Rules, runs: Runs, nextRule: nat, diary: map<nat, Diary>, id: nat)
    requires Consistent(rules, runs, nextRule, diary) && id in rules
    ensures Filed(id, rules, runs, nextRule, diary)
    ensures id < nextRule && id in diary && ValidRule(rules[id])
  {}

  /** One rule's row, runs and diary change, consistently; the others stay. */
  lemma OneRuleKeeps(rules: Rules, runs: Runs, nextRule: nat, diary: map<nat, Diary>,
                     rules': Rules, runs': Runs, nextRule': nat, diary': map<nat, Diary>, id: nat)
    requires Consistent(rules, runs, nextRule, diary) && nextRule <= nextRule' && runs.Keys <= runs'.Keys
    requires id in rules' && rules' == rules[id := rules'[id]] && id in diary' && diary' == diary[id := diary'[id]]
    requires id < nextRule' && OnTrack(rules'[id], diary'[id]) && RunsNoted(runs', id, diary'[id].ran)
    ensures Consistent(rules', runs', nextRule', diary')
  {
    forall i | i in rules' ensures Filed(i, rules', runs', nextRule', diary') {
      if i != id {
        Known(rules, runs, nextRule, diary, i);
      }
    }
  }

  lemma NewOnTrack(rule: Rule, d: Diary)
    requires ValidRule(rule) && rule.next == rule.start && rule.last == None && rule.active && ValidRequest(rule.req)
    requires d == Diary(rule, [], !WithinEnd(rule, rule.next), false)
    ensures OnTrack(rule, d)
  {}

  /** The diary after SetActive. */
  function Steered(d: Diary, r: Rule, active: bool): Diary {
    d.(steered := true, loose := d.loose || (active && !WithinEnd(r, r.next)))
  }

  lemma SteerKeeps(rules: Rules, runs: Runs, nextRule: nat, diary: map<nat, Diary>, id: nat, active: bool,
                   rules': Rules, diary': map<nat, Diary>)
    requires Consistent(rules, runs, nextRule, diary) && id in rules && id in diary
    requires rules' == rules[id := rules[id].(active := active)]
    requires diary' == diary[id := Steered(diary[id], rules[id], active)]
    ensures Consistent(rules', runs, nextRule, diary')
  {
    Known(rules, runs, nextRule, diary, id);
    OneRuleKeeps(rules, runs, nextRule, diary, rules', runs, nextRule, diary', id);
  }

  lemma NotedGrows(runs: Runs, runs': Runs, id: nat, dates: seq<Date>, date: Date)
    requires RunsNoted(runs, id, dates) && runs.Keys <= runs'.Keys && (id, date) in runs'
    ensures RunsNoted(runs', id, dates + [date])
  {}

  lemma StepKeeps(rules: Rules, runs: Runs, nextRule: nat, diary: map<nat, Diary>, id: nat, today: Date,
                  rules': Rules, runs': Runs, diary': map<nat, Diary>)
    requires Consistent(rules, runs, nextRule, diary) && id in rules && id in diary
    requires ValidRule(rules[id]) && DueOn(rules[id], today) && today.year <= 9999
    requires rules' == rules[id := Stepped(rules[id])] && diary' == diary[id := Logged(diary[id], rules[id].next)]
    requires runs.Keys <= runs'.Keys && (id, rules[id].next) in runs'
    ensures Consistent(rules', runs', nextRule, diary')
  {
    Known(rules, runs, nextRule, diary, id);
    StepOnTrack(rules[id], diary[id], today, rules'[id], diary'[id]);
    NotedGrows(runs, runs', id, diary[id].ran, rules[id].next);
    OneRuleKeeps(rules, runs, nextRule, diary, rules', runs', nextRule, diary', id);
  }

  /** The rule is still as it was fetched, and due. */
  predicate Current(rules: Rules, d: Due, today: Date) {
    ValidRule(d.rule) && d.id in rules && rules[d.id] == d.rule && DueOn(d.rule, today) && today.year <= 9999
  }

  lemma CurrentKeeps(rules: Rules, runs: Runs, nextRule: nat, diary: map<nat, Diary>, d: Due, today: Date,
                     rules': Rules, runs': Runs)
    requires ValidRule(d.rule) && d.id in rules && rules' == rules[d.id := AdvancedRow(rules[d.id], d.rule)]
    requires runs.Keys <= runs'.Keys && (d.id, d.rule.next) in runs'
    ensures Consistent(rules, runs, nextRule, diary) && Current(rules, d, today) ==>
              Consistent(rules', runs', nextRule, Noted(diary, d))
  {
    if Consistent(rules, runs, nextRule, diary) && Current(rules, d, today) {
      Known(rules, runs, nextRule, diary, d.id);
      StepKeeps(rules, runs, nextRule, diary, d.id, today, rules', runs', Noted(diary, d));
    }
  }

  lemma MoreRunsKeep(rules: Rules, runs: Runs, nextRule: nat, diary: map<nat, Diary>, runs': Runs)
    requires Consistent(rules, runs, nextRule, diary) && runs.Keys <= runs'.Keys
    ensures Consistent(rules, runs', nextRule, diary)
  {
    forall i | i in rules ensures Filed(i, rules, runs', nextRule, diary) {
      assert Filed(i, rules, runs, nextRule, diary);
    }
  }

  lemma DueIsNotLater(r: Rule, today: Date)
    requires ValidRule(r) && Valid(today) && today.year <= 9999 && DueOn(r, today)
    ensures !LexLess(FormatDate(today), FormatDate(r.next))
  {
    DueYear(r.next, today);
    TextOrder(today, r.next);
    DayNumberOrder(r.next, today);
    DayNumberOrder(today, r.next);
  }

  function DueSet(rules: Rules, today: Date): set<nat> {
    set id | id in rules && DueOn(rules[id], today)
  }

  /** The service's own day, which need not be the database's, can still hold a
      fetched rule back. */
  predicate HeldBack(r: Rule, localToday: Date)
    requires ValidRule(r) && Valid(localToday)
  {
    LexLess(FormatDate(localToday), FormatDate(r.next))
  }

  // ---- one call to the ledger ----

  /** The ledger's tables and id sequence at a moment. */
  datatype Point = Point(db: DB, nextTxn: int)

  /** The tables come from a history, and the next id is new. */
  ghost predicate Live(p: Point) {
    (exists ops :: Leads(ops, p.db)) && forall t :: t in p.db.txns ==> t < p.nextTxn
  }

  ghost function At(ledger: Ledger): Point
    reads ledger
  {
    Point(ledger.Tables(), ledger.nextTxn)
  }

  /** The answer to materialize's create for a rule's next date. */
  ghost function CallFor(p: Point, d: Due): CreateOutcome
    requires ValidRule(d.rule)
  {
    CreateTxn(p.db, p.nextTxn, d.rule.user, RequestFor(d.rule), KeyFor(d.id, d.rule.next))
  }

  /** A transaction's row, entries and category are the rule's, dated by its next
      run. */
  ghost predicate BookedFor(db: DB, id: int, r: Rule, key: string) {
    id in db.txns && db.txns[id] == TxnRow(r.user, KindOf(r.req), r.next, r.req.cost, key)
    && LinesOf(db.entries, id) == LinesFor(r.req)
    && forall c :: HasLink(db.links, id, c) <==> c in CategoriesFor(r.req)
  }

  /** Only the date of the template is replaced. */
  lemma RequestKeepsTerms(r: Rule)
    ensures RequestFor(r).date == r.next && RequestFor(r).(date := r.req.date) == r.req
    ensures LinesFor(RequestFor(r)) == LinesFor(r.req) && CategoriesFor(RequestFor(r)) == CategoriesFor(r.req)
    ensures RowFor(r.user, RequestFor(r), "") == TxnRow(r.user, KindOf(r.req), r.next, r.req.cost, "")
    ensures Parties(RequestFor(r)) == Parties(r.req) && (Proper(RequestFor(r)) <==> Proper(r.req))
    ensures forall a :: Receipt(RequestFor(r), a) == Receipt(r.req, a) && Outlay(RequestFor(r), a) == Outlay(r.req, a)
  {}

  lemma LinksOf(links: seq<Link>, id: int, categories: seq<int>, c: int)
    requires forall k :: k in links ==> k.txn != id
    ensures HasLink(links + LinksFor(id, categories), id, c) <==> c in categories
  {
    var all := links + LinksFor(id, categories);
    if HasLink(all, id, c) {
      var j :| 0 <= j < |all| && all[j].category == c && all[j].txn == id;
      assert all[j] in all && j >= |links|;
      assert all[j] == Link(id, categories[j - |links|]);
    }
    if k :| 0 <= k < |categories| && categories[k] == c {
      assert all[|links| + k] == Link(id, c);
    }
  }

  /** What an inserting call books. */
  lemma CallBooks(p: Point, d: Due)
    requires Live(p) && ValidRule(d.rule) && CallFor(p, d).Inserted?
    ensures BookedFor(CallFor(p, d).db, p.nextTxn, d.rule, KeyFor(d.id, d.rule.next))
  {
    var ops :| Leads(ops, p.db);
    var req, key, id := RequestFor(d.rule), KeyFor(d.id, d.rule.next), p.nextTxn;
    ReachableIsSound(ops, p.db);
    RequestKeepsTerms(d.rule);
    InsertedWalk(p.db, id, d.rule.user, req, key);
    InsertEntries(p.db, id, req);
    forall c ensures HasLink(CallFor(p, d).db.links, id, c) <==> c in CategoriesFor(d.rule.req) {
      LinksOf(p.db.links, id, CategoriesFor(req), c);
    }
  }

  // ---- one pass over the queue ----

  /** What became of a fetched rule in a pass. */
  datatype Turn = HeldOver | MovedOn | Missed

  function Count(turns: seq<Turn>, x: Turn): nat {
    if turns == [] then 0 else Count(turns[..|turns| - 1], x) + (if turns[|turns| - 1] == x then 1 else 0)
  }

  lemma CountNext(turns: seq<Turn>, y: Turn, x: Turn)
    ensures Count(turns + [y], x) == Count(turns, x) + (if y == x then 1 else 0)
  {
    assert (turns + [y])[..|turns|] == turns;
  }

  lemma {:induction false} CountNone(turns: seq<Turn>, x: Turn, k: nat)
    requires Count(turns, x) == 0 && k < |turns|
    ensures turns[k] != x
  {
    if k < |turns| - 1 {
      CountNone(turns[..|turns| - 1], x, k);
    }
  }

  /** The rules once the turns of the queue's first rules are taken: those that
      moved on are as in `target`. */
  function Swept(before: Rules, target: Rules, order: seq<nat>, turns: seq<Turn>): Rules
    requires |turns| <= |order|
  {
    if turns == [] then before else
      var i := |turns| - 1;
      var rules := Swept(before, target, order, turns[..i]);
      if turns[i].MovedOn? && order[i] in target then rules[order[i] := target[order[i]]] else rules
  }

  lemma SweptNext(before: Rules, target: Rules, order: seq<nat>, turns: seq<Turn>, x: Turn)
    requires |turns| < |order| && order[|turns|] in target
    ensures var rules, id := Swept(before, target, order, turns), order[|turns|];
            Swept(before, target, order, turns + [x]) == if x.MovedOn? then rules[id := target[id]] else rules
  {
    assert (turns + [x])[..|turns|] == turns;
  }

  lemma {:induction false} SweptElsewhere(before: Rules, target: Rules, order: seq<nat>, turns: seq<Turn>, id: nat)
    requires |turns| <= |order| && id in before && forall k :: 0 <= k < |turns| ==> order[k] != id
    ensures id in Swept(before, target, order, turns) && Swept(before, target, order, turns)[id] == before[id]
  {
    if turns != [] {
      SweptElsewhere(before, target, order, turns[..|turns| - 1], id);
    }
  }

  lemma {:induction false} SweptThere(before: Rules, target: Rules, order: seq<nat>, turns: seq<Turn>, k: nat)
    requires |turns| <= |order| && NoRepeats(order) && k < |turns| && turns[k].MovedOn? && order[k] in target
    ensures order[k] in Swept(before, target, order, turns)
    ensures Swept(before, target, order, turns)[order[k]] == target[order[k]]
  {
    if k < |turns| - 1 {
      SweptThere(before, target, order, turns[..|turns| - 1], k);
    }
  }

  lemma {:induction false} SweptKeys(before: Rules, target: Rules, order: seq<nat>, turns: seq<Turn>)
    requires |turns| <= |order| && before.Keys == target.Keys
    ensures Swept(before, target, order, turns).Keys == before.Keys
  {
    if turns != [] {
      SweptKeys(before, target, order, turns[..|turns| - 1]);
    }
  }

  /** A queue lists due rules once each. */
  ghost predicate Queued(rules: Rules, target: Rules, order: seq<nat>, today: Date) {
    NoRepeats(order) && forall i :: 0 <= i < |order| ==>
      order[i] in rules && ValidRule(rules[order[i]]) && DueOn(rules[order[i]], today)
      && order[i] in target && target[order[i]] == Stepped(rules[order[i]])
  }

  lemma DueIsQueued(rules: Rules, order: seq<nat>, today: Date)
    requires AllValid(rules) && NoRepeats(order) && Members(order) == DueSet(rules, today)
    ensures Queued(rules, Pass(rules, today), order, today)
  {
    assert forall i :: 0 <= i < |order| ==> order[i] in Members(order);
  }

  /** A pass in which every due rule moved on is the pure Pass. */
  lemma AllMovedIsPass(rules: Rules, order: seq<nat>, today: Date, turns: seq<Turn>)
    requires AllValid(rules) && NoRepeats(order) && Members(order) == DueSet(rules, today)
    requires |turns| == |order| && Count(turns, HeldOver) == 0 && Count(turns, Missed) == 0
    ensures Swept(rules, Pass(rules, today), order, turns) == Pass(rules, today)
  {
    var target := Pass(rules, today);
    var after := Swept(rules, target, order, turns);
    SweptKeys(rules, target, order, turns);
    forall id | id in rules ensures after[id] == target[id] {
      if id in Members(order) {
        var k :| 0 <= k < |order| && order[k] == id;
        CountNone(turns, HeldOver, k);
        CountNone(turns, Missed, k);
        SweptThere(rules, target, order, turns, k);
      } else {
        assert forall k :: 0 <= k < |order| ==> order[k] in Members(order);
        SweptElsewhere(rules, target, order, turns, id);
      }
    }
  }

  /** One that moved on has its run row and its transaction, one that did not has
      a run row unless its next date could not be stored, and only one held back
      was left alone. */
  ghost predicate TurnOk(before: Rules, id: nat, turn: Turn, localToday: Date, runs: Runs, txns: map<int, TxnRow>)
    requires Valid(localToday)
  {
    match turn
    case HeldOver => id in before && ValidRule(before[id]) && HeldBack(before[id], localToday)
    case MovedOn =>
      id in before && ValidRule(before[id]) && !HeldBack(before[id], localToday)
      && (id, before[id].next) in runs && Replays(txns, before[id].user, KeyFor(id, before[id].next))
    case Missed =>
      id in before && ValidRule(before[id]) && !HeldBack(before[id], localToday)
      && ((id, before[id].next) in runs || !Storable(Following(before[id])))
  }

  /** What a turn may be: held back by the service's day; missed exactly when the
      ledger refuses the create or the next date cannot be stored; and what it
      leaves of the ledger. */
  ghost predicate TurnTaken(d: Due, localToday: Date, turn: Turn, at: Point, after: Point)
    requires ValidRule(d.rule) && Valid(localToday)
  {
    if HeldBack(d.rule, localToday) then turn == HeldOver && after == at
    else Answered(d, turn, at, after)
  }

  ghost predicate Answered(d: Due, turn: Turn, at: Point, after: Point)
    requires ValidRule(d.rule)
  {
    turn == (if CallFor(at, d).CreateFailed? || !Storable(Following(d.rule)) then Missed else MovedOn)
    && after.db == match CallFor(at, d)
                   case Inserted(db) => db
                   case _ => at.db
  }

  /** The turns of a pass with the ledger before each and after the last. */
  ghost predicate Taken(before: Rules, order: seq<nat>, turns: seq<Turn>, localToday: Date, points: seq<Point>)
    requires Valid(localToday)
  {
    |turns| <= |order| && |points| == |turns| + 1 && AllLive(points)
    && forall k :: 0 <= k < |turns| ==> TurnAt(before, order[k], turns[k], localToday, points[k], points[k + 1])
  }

  ghost predicate AllLive(points: seq<Point>) {
    forall k :: 0 <= k < |points| ==> Live(points[k])
  }

  lemma AllLiveGrows(points: seq<Point>, after: Point)
    requires AllLive(points) && Live(after)
    ensures AllLive(points + [after])
  {}

  ghost predicate TurnAt(before: Rules, id: nat, turn: Turn, localToday: Date, at: Point, after: Point)
    requires Valid(localToday)
  {
    id in before && ValidRule(before[id]) && TurnTaken(Due(id, before[id]), localToday, turn, at, after)
  }

  lemma StepsAppended<T, P>(ts: seq<T>, ps: seq<P>, t: T, q: P, rel: (int, T, P, P) -> bool)
    requires |ps| == |ts| + 1 && (forall k :: 0 <= k < |ts| ==> rel(k, ts[k], ps[k], ps[k + 1]))
    requires rel(|ts|, t, ps[|ts|], q)
    ensures forall k :: 0 <= k < |ts + [t]| ==> rel(k, (ts + [t])[k], (ps + [q])[k], (ps + [q])[k + 1])
  {
    forall k | 0 <= k < |ts + [t]| ensures rel(k, (ts + [t])[k], (ps + [q])[k], (ps + [q])[k + 1]) {
      if k < |ts| {
        assert (ts + [t])[k] == ts[k] && (ps + [q])[k + 1] == ps[k + 1];
      }
    }
  }

  lemma TakenGrows(before: Rules, order: seq<nat>, turns: seq<Turn>, localToday: Date, points: seq<Point>,
                   turn: Turn, after: Point)
    requires Valid(localToday) && Taken(before, order, turns, localToday, points) && |turns| < |order| && Live(after)
    requires TurnAt(before, order[|turns|], turn, localToday, points[|turns|], after)
    ensures Taken(before, order, turns + [turn], localToday, points + [after])
  {
    AllLiveGrows(points, after);
    StepsAppended(turns, points, turn, after, (k: int, t: Turn, p: Point, q: Point) =>
      0 <= k < |order| && TurnAt(before, order[k], t, localToday, p, q));
  }

  /** The service's day against the rule's date, on four-digit years. */
  lemma HeldBackMeaning(r: Rule, localToday: Date)
    requires ValidRule(r) && Valid(localToday) && r.next.year <= 9999 && localToday.year <= 9999
    ensures HeldBack(r, localToday) <==> DayNumber(localToday) < DayNumber(r.next)
  {
    TextOrder(localToday, r.next);
    DayNumberOrder(localToday, r.next);
  }

  /** Exactly which rules move on: those whose template is proper and on the
      user's accounts, whose key is already the user's or nobody's with every
      account able to pay, and whose next date can be stored. */
  predicate Serviceable(db: DB, d: Due)
    requires ValidRule(d.rule)
  {
    var key := KeyFor(d.id, d.rule.next);
    && Proper(d.rule.req) && AllMine(db.accounts, d.rule.user, d.rule.req)
    && (KeyOf(db.txns, d.rule.user, key, true)
        || (!KeyOf(db.txns, d.rule.user, key, false) && CanPay(db.balances, d.rule.req)))
    && Following(d.rule).year <= 5874897
  }

  lemma SameTermsSameCall(db: DB, r: Rule)
    ensures Proper(RequestFor(r)) <==> Proper(r.req)
    ensures AllMine(db.accounts, r.user, RequestFor(r)) <==> AllMine(db.accounts, r.user, r.req)
    ensures CanPay(db.balances, RequestFor(r)) <==> CanPay(db.balances, r.req)
  {
    RequestKeepsTerms(r);
  }

  lemma CallSucceeds(p: Point, d: Due)
    requires ValidRule(d.rule) && Live(p)
    ensures !CallFor(p, d).CreateFailed? && Storable(Following(d.rule)) <==> Serviceable(p.db, d)
    ensures CallFor(p, d).Replayed? ==> KeyOf(p.db.txns, d.rule.user, KeyFor(d.id, d.rule.next), true)
    ensures CallFor(p, d).Inserted? ==> !KeyOf(p.db.txns, d.rule.user, KeyFor(d.id, d.rule.next), true)
  {
    var ops :| Leads(ops, p.db);
    ReachableIsSound(ops, p.db);
    CreateMeaning(p.db, Openings(ops), p.nextTxn, d.rule.user, RequestFor(d.rule), KeyFor(d.id, d.rule.next));
    SameTermsSameCall(p.db, d.rule);
  }

  lemma CallMoves(p: Point, d: Due, a: int)
    requires ValidRule(d.rule) && CallFor(p, d).Inserted? && a in p.db.balances
    ensures var after := CallFor(p, d).db;
            a in after.balances
            && after.balances[a].balance
                == p.db.balances[a].balance + Receipt(d.rule.req, a) - Outlay(d.rule.req, a)
  {
    CreateMoves(p.db, p.nextTxn, d.rule.user, RequestFor(d.rule), KeyFor(d.id, d.rule.next), a);
    RequestKeepsTerms(d.rule);
  }

  /** A due rule that is not held back moves on exactly when it can be served; and
      then, unless its date was booked before, its transaction is booked as the
      rule says and its accounts move by the rule's amount, and nothing else. */
  lemma ServedMovesOn(d: Due, localToday: Date, turn: Turn, at: Point, after: Point)
    requires ValidRule(d.rule) && Valid(localToday) && d.rule.next.year <= 9999 && localToday.year <= 9999
    requires Live(at) && TurnTaken(d, localToday, turn, at, after)
    ensures turn == HeldOver <==> DayNumber(localToday) < DayNumber(d.rule.next)
    ensures turn != HeldOver ==> (turn == MovedOn <==> Serviceable(at.db, d))
    ensures turn == HeldOver || KeyOf(at.db.txns, d.rule.user, KeyFor(d.id, d.rule.next), true) ==> after.db == at.db
    ensures turn == MovedOn && !KeyOf(at.db.txns, d.rule.user, KeyFor(d.id, d.rule.next), true) ==>
              BookedFor(after.db, at.nextTxn, d.rule, KeyFor(d.id, d.rule.next)) && at.nextTxn !in at.db.txns
              && forall a :: a in at.db.balances ==>
                   a in after.db.balances
                   && after.db.balances[a].balance
                       == at.db.balances[a].balance + Receipt(d.rule.req, a) - Outlay(d.rule.req, a)
  {
    HeldBackMeaning(d.rule, localToday);
    CallSucceeds(at, d);
    if turn == MovedOn && !KeyOf(at.db.txns, d.rule.user, KeyFor(d.id, d.rule.next), true) {
      CallBooks(at, d);
      forall a | a in at.db.balances
        ensures a in after.db.balances
        ensures after.db.balances[a].balance
                  == at.db.balances[a].balance + Receipt(d.rule.req, a) - Outlay(d.rule.req, a)
      {
        CallMoves(at, d, a);
      }
    }
  }

  ghost predicate OnRecord(before: Rules, order: seq<nat>, turns: seq<Turn>, localToday: Date, runs: Runs,
                           txns: map<int, TxnRow>)
    requires Valid(localToday)
  {
    |turns| <= |order|
    && forall k :: 0 <= k < |turns| ==> TurnOk(before, order[k], turns[k], localToday, runs, txns)
  }

  predicate Extends(txns: map<int, TxnRow>, more: map<int, TxnRow>) {
    forall t :: t in txns ==> t in more && more[t] == txns[t]
  }

  lemma KeyedFacts(db: DB, id: int, user: int, req: Request, key: string)
    requires id !in db.txns
    ensures var r := CreateTxn(db, id, user, req, key);
            && (r.Inserted? ==> Holds(r.db.txns, user, key, id) && Extends(db.txns, r.db.txns))
            && (r.Replayed? ==> Holds(db.txns, user, key, r.id))
  {}

  lemma CallFacts(p: Point, d: Due)
    requires Live(p) && ValidRule(d.rule)
    ensures match CallFor(p, d)
            case Inserted(after) =>
              p.nextTxn in after.txns && Extends(p.db.txns, after.txns)
              && Replays(after.txns, d.rule.user, KeyFor(d.id, d.rule.next))
            case Replayed(id) => id in p.db.txns && Replays(p.db.txns, d.rule.user, KeyFor(d.id, d.rule.next))
            case CreateFailed(_) => true
  {
    KeyedFacts(p.db, p.nextTxn, d.rule.user, RequestFor(d.rule), KeyFor(d.id, d.rule.next));
  }

  lemma ReplaysGrows(txns: map<int, TxnRow>, more: map<int, TxnRow>, user: int, key: string)
    requires Replays(txns, user, key) && Extends(txns, more)
    ensures Replays(more, user, key)
  {
    var t :| t in txns && Holds(txns, user, key, t);
    assert Holds(more, user, key, t);
  }

  /** What handling one rule does to the tables. */
  ghost predicate Handled(d: Due, turn: Turn, rules: Rules, rules': Rules, runs: Runs, runs': Runs,
                          txns: map<int, TxnRow>, txns': map<int, TxnRow>)
    requires ValidRule(d.rule)
  {
    match turn
    case HeldOver => false
    case MovedOn =>
      rules' == rules[d.id := Stepped(d.rule)] && Replays(txns', d.rule.user, KeyFor(d.id, d.rule.next))
      && (d.id, d.rule.next) in runs' && runs.Keys <= runs'.Keys && Extends(txns, txns')
    case Missed =>
      rules' == rules && ((d.id, d.rule.next) in runs' || !Storable(Following(d.rule)))
      && runs.Keys <= runs'.Keys && Extends(txns, txns')
  }

  lemma TurnStays(before: Rules, id: nat, turn: Turn, localToday: Date, runs: Runs, txns: map<int, TxnRow>,
                  runs': Runs, txns': map<int, TxnRow>)
    requires Valid(localToday) && TurnOk(before, id, turn, localToday, runs, txns)
    requires runs.Keys <= runs'.Keys && Extends(txns, txns')
    ensures TurnOk(before, id, turn, localToday, runs', txns')
  {
    if turn.MovedOn? {
      ReplaysGrows(txns, txns', before[id].user, KeyFor(id, before[id].next));
    }
  }

  lemma RecordPersists(before: Rules, order: seq<nat>, turns: seq<Turn>, localToday: Date, runs: Runs,
                       txns: map<int, TxnRow>, runs': Runs, txns': map<int, TxnRow>)
    requires Valid(localToday) && OnRecord(before, order, turns, localToday, runs, txns)
    requires runs.Keys <= runs'.Keys && Extends(txns, txns')
    ensures OnRecord(before, order, turns, localToday, runs', txns')
  {
    forall k | 0 <= k < |turns| ensures TurnOk(before, order[k], turns[k], localToday, runs', txns') {
      TurnStays(before, order[k], turns[k], localToday, runs, txns, runs', txns');
    }
  }

  lemma AllAppended<T>(s: seq<T>, x: T, p: (int, T) -> bool)
    requires (forall k :: 0 <= k < |s| ==> p(k, s[k])) && p(|s|, x)
    ensures forall k :: 0 <= k < |s + [x]| ==> p(k, (s + [x])[k])
  {}

  lemma RecordGrows(before: Rules, order: seq<nat>, turns: seq<Turn>, localToday: Date, runs: Runs,
                    txns: map<int, TxnRow>, turn: Turn)
    requires Valid(localToday) && OnRecord(before, order, turns, localToday, runs, txns) && |turns| < |order|
    requires TurnOk(before, order[|turns|], turn, localToday, runs, txns)
    ensures OnRecord(before, order, turns + [turn], localToday, runs, txns)
  {
    AllAppended(turns, turn, (k: int, t: Turn) => 0 <= k < |order|
        && TurnOk(before, order[k], t, localToday, runs, txns));
  }

  /** When the service and the database agree on the day, none is held back. */
  lemma {:induction false} NoneHeldOver(before: Rules, target: Rules, order: seq<nat>, turns: seq<Turn>, today: Date,
                                        runs: Runs, txns: map<int, TxnRow>)
    requires Valid(today) && today.year <= 9999 && Queued(before, target, order, today)
    requires OnRecord(before, order, turns, today, runs, txns)
    ensures Count(turns, HeldOver) == 0
  {
    if turns != [] {
      var k := |turns| - 1;
      assert TurnOk(before, order[k], turns[k], today, runs, txns);
      NoneHeldOver(before, target, order, turns[..k], today, runs, txns);
      DueIsNotLater(before[order[k]], today);
    }
  }

  predicate NoneEarlier(rules: Rules, id: nat, ids: set<nat>) {
    id in rules && forall other :: other in ids ==> other in rules && NotAfter(rules[id].next, rules[other].next)
  }

  predicate ByNextRun(rules: Rules, order: seq<nat>) {
    forall i, j :: 0 <= i < j < |order| ==>
      order[i] in rules && order[j] in rules && NotAfter(rules[order[i]].next, rules[order[j]].next)
  }

  /** A selection sort on its way: `order` is done, `rest` is still to place. */
  ghost predicate Sorting(rules: Rules, all: set<nat>, order: seq<nat>, rest: set<nat>) {
    && rest <= all && Members(order) == all - rest && NoRepeats(order) && ByNextRun(rules, order)
    && forall i :: i in order ==> NoneEarlier(rules, i, rest)
  }

  lemma SortingStep(rules: Rules, all: set<nat>, order: seq<nat>, rest: set<nat>, id: nat)
    requires Sorting(rules, all, order, rest) && id in rest && NoneEarlier(rules, id, rest)
    ensures Sorting(rules, all, order + [id], rest - {id})
  {
    var more := order + [id];
    assert Members(more) == Members(order) + {id};
    assert id !in Members(order);
    forall i, j | 0 <= i < j < |more|
      ensures more[i] != more[j] && more[i] in rules && more[j] in rules
      ensures NotAfter(rules[more[i]].next, rules[more[j]].next)
    {
      assert more[i] == order[i] && order[i] in order && NoneEarlier(rules, order[i], rest);
      assert order[i] in Members(order);
    }
  }

  lemma {:induction false} Earliest(rules: Rules, ids: set<nat>) returns (first: nat)
    requires ids != {} && forall id :: id in ids ==> id in rules
    ensures first in ids && NoneEarlier(rules, first, ids)
    decreases |ids|
  {
    first :| first in ids;
    if ids != {first} {
      var rest := Earliest(rules, ids - {first});
      if !NotAfter(rules[first].next, rules[rest].next) {
        first := rest;
      }
    }
  }

  class RecurringStore {
    var rules: Rules
    var runs: Runs
    var nextRule: nat
    const ledger: Ledger
    ghost var diary: map<nat, Diary>

    ghost predicate Valid()
      reads this, ledger
    {
      ledger.Valid() && RulesOk()
    }

    ghost predicate RulesOk()
      reads this
    {
      Consistent(rules, runs, nextRule, diary)
    }

    constructor ()
      ensures Valid() && fresh(ledger) && rules == map[] && runs == map[]
    {
      rules, runs, nextRule, diary := map[], map[], 0, map[];
      ledger := new Ledger();
    }

    /** Create: an interval that is not positive becomes one, a missing start is
        today; nothing compares the start with the end, nor the accounts' owner
        with the user. */
    method Create(user: int, title: string, req: Request, freq: Frequency, interval: int,
                  start: Option<Date>, end: Option<Date>, today: Date)
      returns (r: Option<nat>)
      requires Valid() && Calendar.Valid(today)
      requires (start.Some? ==> Calendar.Valid(start.value)) && (end.Some? ==> Calendar.Valid(end.value))
      modifies this
      ensures Valid()
      ensures r.Some? <==>
                (exists k :: 0 <= k < |title| && title[k] !in SPACES) && Proper(req) && req.cost == 0
                && forall a :: a in Parties(req) ==> a in ledger.accounts
      ensures r.None? ==> rules == old(rules) && runs == old(runs)
      ensures r.Some? ==>
                var first := if start.Some? then start.value else today;
                r.value !in old(rules) && runs == old(runs)
                && rules == old(rules)[r.value := Rule(user, req, freq, if interval <= 0 then 1 else interval,
                                                       first, end, first, None, true)]
    {
      BlankMeaning(title);
      ProperIsValid(req);
      if TrimSpace(title) == "" || !ValidRequest(req) || req.cost != 0 || !(Parties(req) <= ledger.accounts.Keys) {
        return None;
      }
      var first, every := today, interval;
      if start.Some? {
        first := start.value;
      }
      if every <= 0 {
        every := 1;
      }
      r := Add(Rule(user, req, freq, every, first, end, first, None, true));
    }

    /** INSERT ... RETURNING id. */
    method Add(rule: Rule) returns (r: Option<nat>)
      requires Valid() && ValidRule(rule) && rule.next == rule.start && rule.last == None && rule.active
      requires ValidRequest(rule.req)
      modifies this
      ensures Valid() && r.Some? && r.value !in old(rules) && rules == old(rules)[r.value := rule] && runs == old(runs)
    {
      var id := nextRule;
      assert id !in rules by {
        if id in rules {
          Known(rules, runs, id, diary, id);
        }
      }
      var added := rules[id := rule];
      ghost var d := Diary(rule, [], !WithinEnd(rule, rule.next), false);
      NewOnTrack(rule, d);
      OneRuleKeeps(rules, runs, id, diary, added, runs, id + 1, diary[id := d], id);
      rules, nextRule, diary := added, id + 1, diary[id := d];
      r := Some(id);
    }

    method SetActive(id: nat, user: int, active: bool) returns (found: bool)
      requires Valid()
      modifies this
      ensures Valid() && (found <==> id in old(rules) && old(rules)[id].user == user) && runs == old(runs)
      ensures rules == if found then old(rules)[id := old(rules)[id].(active := active)] else old(rules)
    {
      found := id in rules && rules[id].user == user;
      if found {
        Known(rules, runs, nextRule, diary, id);
        var changed := rules[id := rules[id].(active := active)];
        ghost var diary' := diary[id := Steered(diary[id], rules[id], active)];
        SteerKeeps(rules, runs, nextRule, diary, id, active, changed, diary');
        rules, diary := changed, diary';
      }
    }

    /** A delete in the ledger, with its cascade to the run rows. */
    method DeleteTransaction(id: int, user: int) returns (r: Answer)
      requires Valid()
      modifies this`runs, ledger
      ensures Valid() && runs == Severed(old(runs), ledger.txns)
      ensures match DeleteTxn(old(ledger.Tables()), id, user)
              case Deleted(after) => r == Done && ledger.Tables() == after
              case DeleteFailed(e) => r == Failed(e) && ledger.Tables() == old(ledger.Tables())
    {
      r := ledger.DeleteTransaction(id, user);
      var severed := Severed(runs, ledger.txns);
      MoreRunsKeep(rules, runs, nextRule, diary, severed);
      runs := severed;
    }

    /** The due rules, earliest next run first. */
    method DueRules(today: Date) returns (order: seq<nat>)
      ensures NoRepeats(order) && Members(order) == DueSet(rules, today) && ByNextRun(rules, order)
    {
      order := [];
      var rest := DueSet(rules, today);
      while rest != {}
        invariant Sorting(rules, DueSet(rules, today), order, rest)
        decreases |rest|
      {
        ghost var first := Earliest(rules, rest);
        var id :| id in rest && NoneEarlier(rules, id, rest);
        SortingStep(rules, DueSet(rules, today), order, rest, id);
        order := order + [id];
        rest := rest - {id};
      }
    }

    /** materialize: create the rule's transaction for its next date. */
    method Materialize(d: Due) returns (r: Answer)
      requires ledger.Valid() && ValidRule(d.rule)
      modifies ledger
      ensures ledger.Valid()
      ensures match CallFor(old(At(ledger)), d)
              case Inserted(after) =>
                r == Created(old(ledger.nextTxn)) && ledger.Tables() == after
                && BookedFor(after, r.id, d.rule, KeyFor(d.id, d.rule.next))
              case Replayed(id) => r == Existing(id) && ledger.Tables() == old(ledger.Tables())
              case CreateFailed(e) => r == Failed(e) && ledger.Tables() == old(ledger.Tables())
    {
      ghost var p := At(ledger);
      assert Live(p);
      if CallFor(p, d).Inserted? {
        CallBooks(p, d);
      }
      r := ledger.CreateTransaction(d.rule.user, RequestFor(d.rule), KeyFor(d.id, d.rule.next));
    }

    method RecordRunFailure(id: nat, date: Date)
      requires RulesOk()
      modifies this`runs
      ensures RulesOk()
          && runs == if id in rules then InsertRun(old(runs), id, date, RunRow(Failure, None)) else old(runs)
      ensures old(runs).Keys <= runs.Keys && (id in rules ==> (id, date) in runs)
    {
      if id in rules {
        var noted := InsertRun(runs, id, date, RunRow(Failure, None));
        MoreRunsKeep(rules, runs, nextRule, diary, noted);
        runs := noted;
      }
    }

    /** advanceDate: parse the date, step, format, and compare with the end. */
    method AdvanceDate(r: Rule) returns (next: Date, done: bool)
      requires ValidRule(r)
      ensures next == Following(r) && done == Finished(r, next)
    {
      ParsesWithFourDigits(r.next);
      var parsed := ParseDate(FormatDate(r.next));
      if parsed.None? {
        return r.next, true;
      }
      next := NextDate(parsed.value, r.freq, r.interval);
      done := EndPassedAsText(r, next);
    }

    method NextDate(t: Date, freq: Frequency, n: int) returns (next: Date)
      requires Calendar.Valid(t) && n >= 1
      ensures next == Step(t, freq, n)
    {
      match freq {
        case Daily => next := AddDays(t, n);
        case Weekly => next := AddDays(t, 7 * n);
        case Monthly => next := AddMonths(t, n);
      }
    }

    method Store(rules': Rules, runs': Runs, ghost diary': map<nat, Diary>)
      modifies this`rules, this`runs, this`diary
      ensures rules == rules' && runs == runs' && diary == diary'
      ensures Consistent(rules', runs', nextRule, diary') ==> RulesOk()
    {
      rules, runs, diary := rules', runs', diary';
    }

    /** AdvanceRun, from a copy of the rule however stale: note the run unless one
        is noted, and move the row on from the copy's date. A current copy keeps
        the rule on its schedule. */
    method AdvanceRun(d: Due, txn: int, ghost today: Date) returns (ok: bool)
      requires ValidRule(d.rule)
      modifies this`rules, this`runs, this`diary
      ensures ok <==> d.id in old(rules) && Following(d.rule).year <= 5874897
                      && ((d.id, d.rule.next) in old(runs) || txn in ledger.txns)
      ensures !ok ==> rules == old(rules) && runs == old(runs)
      ensures ok ==> rules == old(rules)[d.id := AdvancedRow(old(rules)[d.id], d.rule)]
                     && runs == InsertRun(old(runs), d.id, d.rule.next, RunRow(Success, Some(txn)))
      ensures old(runs).Keys <= runs.Keys && (ok ==> (d.id, d.rule.next) in runs)
      ensures old(RulesOk()) && Current(old(rules), d, today) ==> RulesOk()
    {
      var next, done := AdvanceDate(d.rule);
      ok := d.id in rules && Storable(next) && ((d.id, d.rule.next) in runs || txn in ledger.txns);
      if !ok {
        return;
      }
      var row :=
        rules[d.id].(last := Some(d.rule.next), next := next, active := if done then false else rules[d.id].active);
      var noted := InsertRun(runs, d.id, d.rule.next, RunRow(Success, Some(txn)));
      var advanced := rules[d.id := row];
      CurrentKeeps(rules, runs, nextRule, diary, d, today, advanced, noted);
      Store(advanced, noted, Noted(diary, d));
    }

    /** Materialize and, according to its answer, advance or note the failure. */
    method RunRule(d: Due, ghost today: Date) returns (turn: Turn)
      requires Valid() && Current(rules, d, today)
      modifies this`rules, this`runs, this`diary, ledger
      ensures Valid() && Answered(d, turn, old(At(ledger)), At(ledger))
      ensures Handled(d, turn, old(rules), rules, old(runs), runs, old(ledger.txns), ledger.txns)
    {
      ghost var book, at := rules, At(ledger);
      CallFacts(at, d);
      var r := Materialize(d);
      assert rules == book && RulesOk();
      if r.Failed? {
        RecordRunFailure(d.id, d.rule.next);
        assert ledger.Valid();
        turn := Missed;
      } else {
        var advanced := AdvanceRun(d, r.id, today);
        assert ledger.Valid();
        turn := if advanced then MovedOn else Missed;
      }
    }

    /** One turn of the loop. */
    method TakeTurn(order: seq<nat>, i: nat, fetched: Rules, localToday: Date, ghost today: Date, ghost target: Rules,
                    ghost turns: seq<Turn>, ghost points: seq<Point>)
      returns (turn: Turn)
      requires Valid() && i == |turns| < |order| && Calendar.Valid(localToday) && today.year <= 9999
      requires Queued(fetched, target, order, today) && OnRecord(fetched, order, turns, localToday, runs, ledger.txns)
      requires rules == Swept(fetched, target, order, turns)
      requires Taken(fetched, order, turns, localToday, points) && points[i] == At(ledger)
      modifies this`rules, this`runs, this`diary, ledger
      ensures Valid() && rules == Swept(fetched, target, order, turns + [turn])
      ensures OnRecord(fetched, order, turns + [turn], localToday, runs, ledger.txns)
      ensures Taken(fetched, order, turns + [turn], localToday, points + [At(ledger)])
    {
      var d := Due(order[i], fetched[order[i]]);
      ghost var runsBefore, txnsBefore := runs, ledger.txns;
      SweptElsewhere(fetched, target, order, turns, d.id);
      if HeldBack(d.rule, localToday) {
        turn := HeldOver;
      } else {
        turn := RunRule(d, today);
      }
      SweptNext(fetched, target, order, turns, turn);
      RecordPersists(fetched, order, turns, localToday, runsBefore, txnsBefore, runs, ledger.txns);
      RecordGrows(fetched, order, turns, localToday, runs, ledger.txns, turn);
      TakenGrows(fetched, order, turns, localToday, points, turn, At(ledger));
    }

    /** The loop of RunDue. */
    method RunAll(queue: seq<nat>, fetched: Rules, localToday: Date, ghost today: Date, ghost target: Rules)
      returns (success: nat, failed: nat, ghost turns: seq<Turn>, ghost points: seq<Point>)
      requires Valid() && Calendar.Valid(localToday) && today.year <= 9999
      requires Queued(fetched, target, queue, today) && rules == fetched
      modifies this`rules, this`runs, this`diary, ledger
      ensures Valid() && |turns| == |queue| && OnRecord(fetched, queue, turns, localToday, runs, ledger.txns)
      ensures rules == Swept(fetched, target, queue, turns)
      ensures success == Count(turns, MovedOn) && failed == Count(turns, Missed)
      ensures Taken(fetched, queue, turns, localToday, points)
      ensures points[0] == old(At(ledger)) && points[|turns|] == At(ledger)
    {
      turns, points := [], [At(ledger)];
      success, failed := 0, 0;
      for i := 0 to |queue|
        invariant Valid() && i == |turns|
        invariant OnRecord(fetched, queue, turns, localToday, runs, ledger.txns)
        invariant rules == Swept(fetched, target, queue, turns)
        invariant success == Count(turns, MovedOn) && failed == Count(turns, Missed)
        invariant Taken(fetched, queue, turns, localToday, points)
        invariant points[0] == old(At(ledger)) && points[i] == At(ledger)
      {
        var turn := TakeTurn(queue, i, fetched, localToday, today, target, turns, points);
        CountNext(turns, turn, MovedOn);
        CountNext(turns, turn, Missed);
        turns, points := turns + [turn], points + [At(ledger)];
        if turn == MovedOn {
          success := success + 1;
        } else if turn == Missed {
          failed := failed + 1;
        }
      }
    }

    /** RunDue: the due rules are taken in order of their next run; one that is
        not held back either moves on, its transaction on record, or is counted
        as failed and left for later, exactly as the ledger answers at its turn.
        If none failed, and the service agrees with the database on the day, the
        pass is the pure Pass. */
    method RunDue(today: Date, localToday: Date)
      returns (success: nat, failed: nat, ghost order: seq<nat>, ghost turns: seq<Turn>, ghost points: seq<Point>)
      requires Valid() && Calendar.Valid(today) && Calendar.Valid(localToday) && today.year <= 9999
      modifies this`rules, this`runs, this`diary, ledger
      ensures Valid() && AllValid(old(rules))
      ensures NoRepeats(order) && Members(order) == DueSet(old(rules), today) && ByNextRun(old(rules), order)
      ensures |turns| == |order| && OnRecord(old(rules), order, turns, localToday, runs, ledger.txns)
      ensures Taken(old(rules), order, turns, localToday, points)
      ensures points[0] == old(At(ledger)) && points[|turns|] == At(ledger)
      ensures rules == Swept(old(rules), Pass(old(rules), today), order, turns)
      ensures success == Count(turns, MovedOn) && failed == Count(turns, Missed)
      ensures failed == 0 && (localToday == today || Count(turns, HeldOver) == 0) ==> rules == Pass(old(rules), today)
    {
      ConsistentIsValid(rules, runs, nextRule, diary);
      ghost var fetched, target := rules, Pass(rules, today);
      var queue := DueRules(today);
      DueIsQueued(rules, queue, today);
      success, failed, turns, points := RunAll(queue, rules, localToday, today, target);
      order := queue;
      if localToday == today {
        NoneHeldOver(fetched, target, order, turns, today, runs, ledger.txns);
      }
      if failed == 0 && Count(turns, HeldOver) == 0 {
        AllMovedIsPass(fetched, order, today, turns);
      }
    }

    /** Schedule fidelity: the dates a rule was run for are exactly the first
        ones of its schedule, each later than the one before and each with a run
        row; the last run is the last of them and the next run the one after. */
    lemma RunsFollowTheSchedule(id: nat)
      requires Valid() && id in rules
      ensures id in diary && ValidRule(diary[id].spec) && SameTerms(rules[id], diary[id].spec)
      ensures var spec, ran := diary[id].spec, diary[id].ran;
              && (forall k :: 0 <= k < |ran| ==> ran[k] == Scheduled(spec, k) && (id, ran[k]) in runs)
              && (forall j, k :: 0 <= j < k < |ran| ==> Before(ran[j], ran[k]))
              && rules[id].next == Scheduled(spec, |ran|) && rules[id].last == LastOf(ran)
    {
      Known(rules, runs, nextRule, diary, id);
      var spec, ran := diary[id].spec, diary[id].ran;
      forall k | 0 <= k < |ran| ensures ran[k] == Scheduled(spec, k) && (id, ran[k]) in runs {
        assert ran[k] == ScheduleOf(spec)(k);
      }
      forall j, k | 0 <= j < k < |ran| ensures Before(ran[j], ran[k]) {
        ScheduledIncreases(spec, j, k);
      }
    }

    /** Deactivation. A rule never made active past its end was run for no date
        past it, and if it is active past it the years of the end and the next
        date do not compare alike. And a rule whose activity was never set by
        hand, once run, is active exactly when its next date is within its end if
        those years compare alike, and exactly when it is past it if not. */
    lemma EndStopsTheRule(id: nat)
      requires Valid() && id in rules
      ensures id in diary && ValidRule(rules[id])
      ensures var r, d := rules[id], diary[id];
              && (!d.loose ==>
                    AllWithin(d.spec, d.ran)
                    && (r.active && !WithinEnd(r, r.next) ==> !YearsCompare(r.end.value.year, r.next.year)))
              && (!d.steered && d.ran != [] && r.end.Some? ==>
                    (r.active <==> (WithinEnd(r, r.next) <==> YearsCompare(r.end.value.year, r.next.year))))
              && (!d.steered && (d.ran == [] || r.end.None?) ==> r.active)
    {
      Known(rules, runs, nextRule, diary, id);
      if rules[id].end.Some? {
        FinishedMeansPast(rules[id], rules[id].next);
      }
    }
  }
}
