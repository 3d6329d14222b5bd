/** Catching up: for a fixed day, scheduler passes in which every due rule
    succeeds come to rest. */
module CatchUp {
  import opened Common
  import opened Calendar
  import opened Scheduler

  type Rules = map<nat, Rule>

  predicate AllValid(rules: Rules) {
    forall id :: id in rules ==> ValidRule(rules[id])
  }

  predicate DueOn(r: Rule, today: Date) {
    r.active && NotAfter(r.next, today)
  }

  /** A rule after its run was recorded. */
  function Stepped(r: Rule): (s: Rule)
    requires ValidRule(r)
    ensures ValidRule(s)
  {
    AdvancedRow(r, r)
  }

  /** The rules after a pass in which every due rule succeeded. */
  function Pass(rules: Rules, today: Date): (after: Rules)
    requires AllValid(rules)
    ensures AllValid(after) && after.Keys == rules.Keys
  {
    map id | id in rules :: if DueOn(rules[id], today) then Stepped(rules[id]) else rules[id]
  }

  function Passes(rules: Rules, today: Date, n: nat): (after: Rules)
    requires AllValid(rules)
    ensures AllValid(after)
  {
    if n == 0 then rules else Pass(Passes(rules, today, n - 1), today)
  }

  predicate NoneDue(rules: Rules, today: Date) {
    forall id :: id in rules ==> !DueOn(rules[id], today)
  }

  /** Days from a rule's next run up to and including today. */
  function Overdue(r: Rule, today: Date): nat
    requires ValidRule(r) && Valid(today)
  {
    if r.active && DayNumber(r.next) <= DayNumber(today) then DayNumber(today) - DayNumber(r.next) + 1 else 0
  }

  function OverdueAt(rules: Rules, today: Date, id: nat): nat
    requires AllValid(rules) && Valid(today)
  {
    if id in rules then Overdue(rules[id], today) else 0
  }

  ghost function Backlog(rules: Rules, today: Date): int
    requires AllValid(rules) && Valid(today)
  {
    SetSum(rules.Keys, (id: nat) => OverdueAt(rules, today, id))
  }

  lemma DueMeansOverdue(r: Rule, today: Date)
    requires ValidRule(r) && Valid(today)
    ensures DueOn(r, today) <==> Overdue(r, today) > 0
  {
    DayNumberOrder(r.next, today);
  }

  /** Every step, month overflow and leap days included, shortens the wait. */
  lemma MoveShortens(r: Rule, today: Date)
    requires ValidRule(r) && Valid(today) && DueOn(r, today)
    ensures Overdue(Stepped(r), today) < Overdue(r, today)
  {
    DueMeansOverdue(r, today);
    StepMovesForward(r.next, r.freq, r.interval);
  }

  lemma {:induction false} SetSumLess(ks: set<nat>, f: nat -> int, g: nat -> int, k: nat)
    requires k in ks && f(k) < g(k) && forall i :: i in ks ==> f(i) <= g(i)
    ensures SetSum(ks, f) < SetSum(ks, g)
  {
    SetSumRemove(ks, k, f);
    SetSumRemove(ks, k, g);
    SetSumMonotone(ks - {k}, f, g);
  }

  lemma {:induction false} BacklogNatural(rules: Rules, today: Date)
    requires AllValid(rules) && Valid(today)
    ensures Backlog(rules, today) >= 0
  {
    var zero := (id: nat) => 0;
    SetSumAllZero(rules.Keys, zero);
    SetSumMonotone(rules.Keys, zero, (id: nat) => OverdueAt(rules, today, id));
  }

  lemma RuleShortens(rules: Rules, today: Date, id: nat)
    requires AllValid(rules) && Valid(today) && id in rules
    ensures OverdueAt(Pass(rules, today), today, id) <= OverdueAt(rules, today, id)
    ensures DueOn(rules[id], today) ==> OverdueAt(Pass(rules, today), today, id) < OverdueAt(rules, today, id)
  {
    if DueOn(rules[id], today) {
      MoveShortens(rules[id], today);
    }
  }

  lemma PassShortens(rules: Rules, today: Date)
    requires AllValid(rules) && Valid(today) && !NoneDue(rules, today)
    ensures Backlog(Pass(rules, today), today) < Backlog(rules, today)
  {
    var k :| k in rules && DueOn(rules[k], today);
    var after := Pass(rules, today);
    var f, g := (id: nat) => OverdueAt(after, today, id) as int, (id: nat) => OverdueAt(rules, today, id) as int;
    forall id | id in rules.Keys ensures f(id) <= g(id) {
      RuleShortens(rules, today, id);
    }
    RuleShortens(rules, today, k);
    SetSumLess(rules.Keys, f, g, k);
    BacklogIs(after, today, f);
    BacklogIs(rules, today, g);
  }

  lemma BacklogIs(rules: Rules, today: Date, f: nat -> int)
    requires AllValid(rules) && Valid(today) && forall id :: id in rules ==> f(id) == OverdueAt(rules, today, id)
    ensures Backlog(rules, today) == SetSum(rules.Keys, f)
  {
    SetSumCongruent(rules.Keys, f, (id: nat) => OverdueAt(rules, today, id));
  }

  lemma PassAtRest(rules: Rules, today: Date)
    requires AllValid(rules) && NoneDue(rules, today)
    ensures Pass(rules, today) == rules
  {}

  /** At rest, or closer to it than `bound` by n passes. */
  ghost predicate Closer(rules: Rules, today: Date, n: nat, bound: int)
    requires AllValid(rules) && Valid(today)
  {
    NoneDue(rules, today) || Backlog(rules, today) + n <= bound
  }

  lemma PassCloser(rules: Rules, today: Date, n: nat, bound: int)
    requires AllValid(rules) && Valid(today) && Closer(rules, today, n, bound)
    ensures Closer(Pass(rules, today), today, n + 1, bound)
  {
    if NoneDue(rules, today) {
      PassAtRest(rules, today);
    } else {
      PassShortens(rules, today);
    }
  }

  lemma {:induction false} CatchUpProgress(rules: Rules, today: Date, n: nat, reached: Rules, bound: int)
    requires AllValid(rules) && Valid(today) && Closer(rules, today, 0, bound) && reached == Passes(rules, today, n)
    ensures Closer(reached, today, n, bound)
  {
    if n > 0 {
      var before := Passes(rules, today, n - 1);
      CatchUpProgress(rules, today, n - 1, before, bound);
      PassCloser(before, today, n - 1, bound);
    }
  }

  lemma BacklogPositive(rules: Rules, today: Date)
    requires AllValid(rules) && Valid(today) && !NoneDue(rules, today)
    ensures Backlog(rules, today) > 0
  {
    PassShortens(rules, today);
    BacklogNatural(Pass(rules, today), today);
  }

  /** With the day fixed, as many successful passes as there are overdue days
      in all leave no rule due, and further passes change nothing. */
  lemma CatchUpEnds(rules: Rules, today: Date, n: nat)
    requires AllValid(rules) && Valid(today) && n >= Backlog(rules, today)
    ensures NoneDue(Passes(rules, today, n), today) && Passes(rules, today, n + 1) == Passes(rules, today, n)
  {
    var reached := Passes(rules, today, n);
    CatchUpProgress(rules, today, n, reached, Backlog(rules, today));
    if !NoneDue(reached, today) {
      BacklogPositive(reached, today);
    }
    PassAtRest(reached, today);
  }
}
