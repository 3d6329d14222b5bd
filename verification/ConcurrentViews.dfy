/** The derived views at any moment of any interleaving of creates and deletes. */
module ConcurrentViews {
  import opened Common
  import opened Engine
  import opened Histories
  import opened Sessions
  import opened Refinement
  import opened Shapes
  import opened Reports
  import opened Budgets
  import opened BudgetSpending
  import opened ReadBack

  predicate Plain(op: Op) {
    op.OpenAccount? || op.Create? || op.Delete?
  }

  lemma PlainStep(w: World, a: Action)
    requires Enabled(w, a) && forall k :: 0 <= k < |w.log| ==> Plain(w.log[k])
    ensures forall k :: 0 <= k < |Take(w, a).log| ==> Plain(Take(w, a).log[k])
  {}

  lemma {:induction false} PlainLog(actions: seq<Action>, w: World)
    requires Reaches(actions, w)
    ensures forall k :: 0 <= k < |w.log| ==> Plain(w.log[k])
    ensures NoRemovals(w.log) && forall p: nat, id :: !EditedWithin(w.log, p, id)
  {
    if actions != [] {
      var init := actions[..|actions| - 1];
      PlainLog(init, Run(init).value);
      PlainStep(Run(init).value, actions[|actions| - 1]);
    }
  }

  /** However calls interleave, at every moment the committed balances of a user
      are the openings plus Totals income, less Totals expense and the fees of
      the surviving transfers, and budgets never show more than was spent. */
  lemma TotalsBalanceUnderConcurrency(actions: seq<Action>, w: World, user: int, rows: seq<Budget>, month: string)
    requires Reaches(actions, w) && UniqueSlots(rows)
    ensures SetSum(AccountsOf(w.db, user), a => Balance(w.db, a))
         == SetSum(AccountsOf(w.db, user), a => Opening(Openings(w.log), a))
          + TotalIncome(w.db, user) - TotalExpense(w.db, user) - TransferCosts(w.db, user)
    ensures AllSpent(w.db, rows, user, month) <= MonthExpense(w.db, user, month)
  {
    ConcurrentRefinesSequential(actions, w);
    PlainLog(actions, w);
    Conservation(w.log, w.db, user);
    BudgetsWithinExpense(w.log, w.db, rows, user, month);
  }

  /** However calls interleave, a committed create that was not deleted reads
      back exactly as it was entered. */
  lemma ReadsBackUnderConcurrency(actions: seq<Action>, w: World, p: nat, joined: seq<JoinRow>)
    requires Reaches(actions, w) && p < |w.log| && w.log[p].Create? && !DeletedWithin(w.log, p, |w.log|, w.log[p].id)
    requires Joins(w.db, w.log[p].id, joined)
    ensures w.log[p].id in w.db.txns
    ensures var req := w.log[p].req;
            Enriched(w.db.txns[w.log[p].id], joined)
            == Entered(req, req.date, if req.TransferOf? then None else Some(req.category))
  {
    ConcurrentRefinesSequential(actions, w);
    PlainLog(actions, w);
    ReadsBackForLife(w.log, p, w.db, joined);
  }
}
