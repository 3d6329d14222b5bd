/** The recurring scheduler as a protocol: several runners fetch due rules,
    have each one's transaction created by a ledger session, and only then, in a
    second transaction, advance the rule. Runners interleave with each other and
    with users statement by statement, may work from stale snapshots, and may
    crash anywhere. */
module Scheduler {
  import opened Common
  import opened Calendar
  import opened DateText
  import opened Tables
  import opened Sessions

  /** A row of recurring_rules; `req` is the transaction it generates, the date
      left to each run. */
  datatype Rule = Rule(
    user: int, req: Request, freq: Frequency, interval: int,
    start: Date, end: Option<Date>, next: Date, last: Option<Date>, active: bool)

  datatype Status = Success | Failure

  /** A row of recurring_rule_runs, keyed by rule and date. */
  datatype RunRow = RunRow(status: Status, txn: Option<int>)

  datatype Due = Due(id: nat, rule: Rule)

  datatype Phase = Ready | Waiting(sid: int) | Recording | Advancing(txn: int)

  /** One RunDue call: the snapshot still to process and where it stands with
      the first of it. */
  datatype Runner = Runner(queue: seq<Due>, phase: Phase)

  datatype Advanced = Advanced(rule: nat, date: Date, txn: int)

  datatype Office = Office(
    ledger: World,
    rules: map<nat, Rule>, nextRule: nat,
    runs: map<(nat, Date), RunRow>,
    runners: map<int, Runner>,
    today: Date,
    specs: map<nat, Rule>,        // each rule as first created
    disturbed: set<nat>,          // rules updated, or made active past their end
    advances: seq<Advanced>)      // every committed AdvanceRun, in order

  datatype Move =
    | LedgerMove(action: Action)
    | AddRule(rule: Rule)
    | UpdateRule(id: nat, rule: Rule)
    | SetActive(id: nat, active: bool)
    | RemoveRule(id: nat)
    | NewDay(day: Date)
    | Fetch(runner: int, order: seq<nat>)
    | Start(runner: int, sid: int, localToday: Date)
    | Collect(runner: int)
    | RecordFailure(runner: int)
    | AdvanceRun(runner: int)
    | Crash(runner: int)

  predicate ValidRule(r: Rule) {
    Valid(r.start) && Valid(r.next) && r.interval >= 1 && (r.end.Some? ==> Valid(r.end.value))
  }

  function KeyFor(id: nat, date: Date): string
    requires Valid(date)
  {
    RunKey(id, FormatDate(date))
  }

  function RequestFor(r: Rule): Request {
    r.req.(date := r.next)
  }

  function JobFor(d: Due): Job
    requires Valid(d.rule.next)
  {
    CreateJob(d.rule.user, RequestFor(d.rule), KeyFor(d.id, d.rule.next))
  }

  /** advanceDate: the next date. A date past year 9999 has no parse as the text
      it is passed as, and is left where it is. */
  function Following(r: Rule): (next: Date)
    requires ValidRule(r)
    ensures Valid(next)
  {
    if r.next.year > 9999 then r.next else Step(r.next, r.freq, r.interval)
  }

  /** advanceDate: whether the rule is done, because its date did not parse or
      because the next date, as a string, is past the end date. */
  predicate Finished(r: Rule, next: Date)
    requires ValidRule(r) && Valid(next)
  {
    r.next.year > 9999 || EndPassedAsText(r, next)
  }

  predicate EndPassedAsText(r: Rule, date: Date)
    requires ValidRule(r) && Valid(date)
  {
    r.end.Some? && LexLess(FormatDate(r.end.value), FormatDate(date))
  }

  /** The last year of the database's date type. */
  const LAST_YEAR := 5874897

  predicate Storable(date: Date) {
    date.year <= LAST_YEAR
  }

  predicate WithinEnd(r: Rule, date: Date) {
    r.end.Some? ==> NotAfter(date, r.end.value)
  }

  predicate IsDue(o: Office, id: nat) {
    id in o.rules && o.rules[id].active && NotAfter(o.rules[id].next, o.today)
  }

  /** A key no run could have. */
  ghost predicate ForeignKey(key: string) {
    forall id: nat, text: string :: key != RunKey(id, text)
  }

  /** Users may do anything in the ledger except open a call under a run key. */
  ghost predicate UserAction(a: Action) {
    a.Begin? && a.job.CreateJob? ==> ForeignKey(a.job.key)
  }

  function Snapshot(o: Office, order: seq<nat>): (queue: seq<Due>)
    requires forall id :: id in order ==> id in o.rules
    ensures |queue| == |order| && forall i :: 0 <= i < |order| ==> queue[i] == Due(order[i], o.rules[order[i]])
  {
    seq(|order|, i requires 0 <= i < |order| => Due(order[i], o.rules[order[i]]))
  }

  function Drop(r: Runner): Runner
    requires r.queue != []
  {
    r.(queue := r.queue[1..], phase := Ready)
  }

  predicate AtHead(o: Office, runner: int) {
    runner in o.runners && o.runners[runner].queue != []
  }

  ghost predicate Possible(o: Office, m: Move) {
    match m
    case LedgerMove(a) => UserAction(a) && Enabled(o.ledger, a)
    case AddRule(rule) => ValidRule(rule) && rule.next == rule.start && rule.active && rule.last == None
    case UpdateRule(id, rule) => id in o.rules && ValidRule(rule) && rule.user == o.rules[id].user
                                 && rule.next == o.rules[id].next && rule.last == o.rules[id].last
                                 && rule.active == o.rules[id].active
    case SetActive(id, _) => id in o.rules
    case RemoveRule(id) => id in o.rules
    case NewDay(day) => Valid(day) && day.year <= 9999
    case Fetch(runner, order) => runner !in o.runners && forall id :: id in order <==> IsDue(o, id)
    case Start(runner, sid, localToday) =>
      AtHead(o, runner) && o.runners[runner].phase == Ready && sid !in o.ledger.sessions && Valid(localToday)
      && Valid(o.runners[runner].queue[0].rule.next)
    case Collect(runner) =>
      AtHead(o, runner) && o.runners[runner].phase.Waiting?
      && o.runners[runner].phase.sid in o.ledger.sessions && o.ledger.sessions[o.runners[runner].phase.sid].pc.Ended?
    case RecordFailure(runner) => AtHead(o, runner) && o.runners[runner].phase == Recording
    case AdvanceRun(runner) =>
      AtHead(o, runner) && o.runners[runner].phase.Advancing? && ValidRule(o.runners[runner].queue[0].rule)
    case Crash(runner) => runner in o.runners
  }

  /** INSERT ... ON CONFLICT (rule_id, ran_for_date) DO NOTHING. */
  function InsertRun(runs: map<(nat, Date), RunRow>, id: nat, date: Date, row: RunRow): map<(nat, Date), RunRow> {
    if (id, date) in runs then runs else runs[(id, date) := row]
  }

  /** A rule's row moved on from a fetched copy of it, whatever the row's own next
      date has become. */
  function AdvancedRow(row: Rule, fetched: Rule): Rule
    requires ValidRule(fetched)
  {
    var next := Following(fetched);
    row.(last := Some(fetched.next), next := next, active := if Finished(fetched, next) then false else row.active)
  }

  /** ON DELETE SET NULL on a run's transaction. */
  function Severed(runs: map<(nat, Date), RunRow>, txns: map<int, TxnRow>): map<(nat, Date), RunRow> {
    map k | k in runs :: if runs[k].txn.Some? && runs[k].txn.value !in txns then runs[k].(txn := None) else runs[k]
  }

  /** AdvanceRun commits if the rule exists, its new next date can be stored, and
      the run is noted already or its transaction exists. */
  predicate Advances(rules: map<nat, Rule>, runs: map<(nat, Date), RunRow>, txns: map<int, TxnRow>, d: Due, txn: int)
    requires ValidRule(d.rule)
  {
    d.id in rules && Storable(Following(d.rule)) && ((d.id, d.rule.next) in runs || txn in txns)
  }

  /** The second transaction: note the run, move the rule on from the snapshot's
      date whatever the rule's own next date has become, and deactivate it when
      the step passed the end. */
  function Advance(o: Office, runner: int): Office
    requires AtHead(o, runner) && o.runners[runner].phase.Advancing? && ValidRule(o.runners[runner].queue[0].rule)
  {
    var r := o.runners[runner];
    var id, snap, txn := r.queue[0].id, r.queue[0].rule, r.phase.txn;
    if !Advances(o.rules, o.runs, o.ledger.db.txns, r.queue[0], txn) then
      o.(runners := o.runners[runner := Drop(r)])
    else
      o.(runs := InsertRun(o.runs, id, snap.next, RunRow(Success, Some(txn))),
         rules := o.rules[id := AdvancedRow(o.rules[id], snap)],
         runners := o.runners[runner := Drop(r)],
         advances := o.advances + [Advanced(id, snap.next, txn)])
  }

  ghost function Act(o: Office, m: Move): Office
    requires Possible(o, m)
  {
    match m
    case LedgerMove(a) =>
      var after := Take(o.ledger, a);
      o.(ledger := after, runs := Severed(o.runs, after.db.txns))
    case AddRule(rule) =>
      o.(rules := o.rules[o.nextRule := rule], specs := o.specs[o.nextRule := rule], nextRule := o.nextRule + 1,
         disturbed := if WithinEnd(rule, rule.next) then o.disturbed else o.disturbed + {o.nextRule})
    case UpdateRule(id, rule) => o.(rules := o.rules[id := rule], disturbed := o.disturbed + {id})
    case SetActive(id, active) =>
      o.(rules := o.rules[id := o.rules[id].(active := active)],
         disturbed := if active && !WithinEnd(o.rules[id], o.rules[id].next) then o.disturbed + {id} else o.disturbed)
    case RemoveRule(id) =>
      o.(rules := o.rules - {id}, runs := map k | k in o.runs && k.0 != id :: o.runs[k])
    case NewDay(day) => o.(today := day)
    case Fetch(runner, order) => o.(runners := o.runners[runner := Runner(Snapshot(o, order), Ready)])
    case Start(runner, sid, localToday) =>
      var r := o.runners[runner];
      if LexLess(FormatDate(localToday), FormatDate(r.queue[0].rule.next)) then
        o.(runners := o.runners[runner := Drop(r)])
      else
        o.(ledger := Take(o.ledger, Begin(sid, JobFor(r.queue[0]))),
           runners := o.runners[runner := r.(phase := Waiting(sid))])
    case Collect(runner) =>
      var r := o.runners[runner];
      var phase :=
        match o.ledger.sessions[r.phase.sid].pc.outcome
        case Created(id) => Advancing(id)
        case Existing(id) => Advancing(id)
        case _ => Recording;
      o.(runners := o.runners[runner := r.(phase := phase)])
    case RecordFailure(runner) =>
      var r := o.runners[runner];
      var id, date := r.queue[0].id, r.queue[0].rule.next;
      o.(runs := if id in o.rules then InsertRun(o.runs, id, date, RunRow(Failure, None)) else o.runs,
         runners := o.runners[runner := Drop(r)])
    case AdvanceRun(runner) => Advance(o, runner)
    case Crash(runner) => o.(runners := o.runners - {runner})
  }

  const OPENING_DAY := Date(2024, 1, 1)
  const OPENING := Office(INITIAL, map[], 0, map[], map[], OPENING_DAY, map[], {}, [])

  /** The office after a schedule of moves, or None if one was not possible. */
  ghost function Operate(moves: seq<Move>): Option<Office> {
    if moves == [] then Some(OPENING) else
      match Operate(moves[..|moves| - 1])
      case None => None
      case Some(o) => if Possible(o, moves[|moves| - 1]) then Some(Act(o, moves[|moves| - 1])) else None
  }

  ghost predicate Arrives(moves: seq<Move>, o: Office) {
    Operate(moves) == Some(o)
  }

  /** The k-th date of a rule's schedule. */
  function Scheduled(r: Rule, k: nat): (d: Date)
    requires ValidRule(r)
    ensures Valid(d)
  {
    if k == 0 then r.start else Step(Scheduled(r, k - 1), r.freq, r.interval)
  }
}
