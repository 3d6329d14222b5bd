/** Amounts finer than a cent. The service adds the unrounded amount to the
    cached balance and both the balance and the entry are then stored rounded to
    cents, half away from zero, so the cache can drift from the ledger. */
module Rounding {
  import opened Common
  import opened Tables
  import opened Engine

  /** Storing a value, counted in cents, in a NUMERIC(19,2) column. */
  function RoundCents(x: real): int {
    if x >= 0.0 then (x + 0.5).Floor else -((-x + 0.5).Floor)
  }

  /** The nearest cent, and of two equally near ones the one further from zero. */
  lemma RoundsToNearest(x: real, n: int)
    ensures RoundCents(x) == n <==>
              (if x >= 0.0 then n as real - 0.5 <= x < n as real + 0.5 else n as real - 0.5 < x <= n as real + 0.5)
  {
    if x >= 0.0 && n as real - 0.5 <= x < n as real + 0.5 {
      FloorOf(x + 0.5, n);
    } else if x < 0.0 && n as real - 0.5 < x <= n as real + 0.5 {
      FloorOf(-x + 0.5, -n);
    }
  }

  /** A negative amount ending in exactly half a cent. */
  predicate NegativeHalf(x: real) {
    x < 0.0 && -x + 0.5 == (-x + 0.5).Floor as real
  }

  lemma FloorOf(x: real, n: int)
    requires n as real <= x < n as real + 1.0
    ensures x.Floor == n
  {}

  /** Rounding the sum instead of the summand differs, by one cent, exactly for
      a negative half cent: the sum rounds up, the entry rounds down. */
  lemma RoundSum(b: int, x: real)
    requires b as real + x >= 0.0
    ensures RoundCents(b as real + x) == b + RoundCents(x) + (if NegativeHalf(x) then 1 else 0)
  {
    if x >= 0.0 {
      FloorOf(b as real + x + 0.5, b + (x + 0.5).Floor);
    } else {
      var n := (-x + 0.5).Floor;
      FloorOf(b as real + x + 0.5, b - n + (if NegativeHalf(x) then 1 else 0));
    }
  }

  datatype FineLine = FineLine(account: int, amount: real, side: Side)

  function Stored(l: FineLine): Line {
    Line(l.account, RoundCents(l.amount), l.side)
  }

  function StoredLines(lines: seq<FineLine>): (stored: seq<Line>)
    ensures |stored| == |lines|
  {
    if lines == [] then [] else StoredLines(lines[..|lines| - 1]) + [Stored(lines[|lines| - 1])]
  }

  // ---- create and delete ----

  function BookLine(b: Balances, id: int, l: FineLine): Walked {
    if l.account !in b then Err(MissingBalance)
    else
      var sum := b[l.account].balance as real + l.amount;
      if sum < 0.0 then Err(InsufficientFunds)
      else Ok(b[l.account := BalanceRow(RoundCents(sum), Some(id), b[l.account].version + 1)])
  }

  function Book(b: Balances, id: int, lines: seq<FineLine>): Walked {
    if lines == [] then Ok(b) else
      match Book(b, id, lines[..|lines| - 1])
      case Err(e) => Err(e)
      case Ok(done) => BookLine(done, id, lines[|lines| - 1])
  }

  predicate OnePerAccount(lines: seq<FineLine>) {
    forall i, j :: 0 <= i < j < |lines| ==> lines[i].account != lines[j].account
  }

  predicate Affordable(b: Balances, lines: seq<FineLine>) {
    forall l :: l in lines ==> l.account in b && b[l.account].balance as real + l.amount >= 0.0
  }

  /** The row after the unrounded amount was added and the sum stored. */
  function Rounded(r: BalanceRow, id: int, amount: real): BalanceRow {
    BalanceRow(RoundCents(r.balance as real + amount), Some(id), r.version + 1)
  }

  predicate BookedRows(b: Balances, after: Balances, id: int, lines: seq<FineLine>) {
    after.Keys == b.Keys
    && (forall l :: l in lines ==> l.account in b && after[l.account] == Rounded(b[l.account], id, l.amount))
    && forall a :: a in b && (forall l :: l in lines ==> l.account != a) ==> after[a] == b[a]
  }

  lemma BookOneMore(b: Balances, mid: Balances, id: int, init: seq<FineLine>, last: FineLine)
    requires BookedRows(b, mid, id, init) && forall l :: l in init ==> l.account != last.account
    ensures BookLine(mid, id, last).Ok? <==>
              last.account in b && b[last.account].balance as real + last.amount >= 0.0
    ensures BookLine(mid, id, last).Ok? ==> BookedRows(b, BookLine(mid, id, last).balances, id, init + [last])
  {
    if BookLine(mid, id, last).Ok? {
      var after, lines := BookLine(mid, id, last).balances, init + [last];
      assert after == mid[last.account := Rounded(mid[last.account], id, last.amount)];
      forall l | l in lines ensures l.account in b && after[l.account] == Rounded(b[l.account], id, l.amount) {
        assert l in init || l == last;
      }
      forall a | a in b && (forall l :: l in lines ==> l.account != a) ensures after[a] == b[a] {
        assert last in lines && forall l :: l in init ==> l in lines;
      }
    }
  }

  lemma AffordableLast(b: Balances, init: seq<FineLine>, last: FineLine)
    ensures Affordable(b, init + [last]) <==>
              Affordable(b, init) && last.account in b && b[last.account].balance as real + last.amount >= 0.0
  {
    assert forall l :: l in init + [last] <==> l in init || l == last;
  }

  lemma DistinctLast(lines: seq<FineLine>)
    requires OnePerAccount(lines) && lines != []
    ensures OnePerAccount(lines[..|lines| - 1])
    ensures forall l :: l in lines[..|lines| - 1] ==> l.account != lines[|lines| - 1].account
  {}

  /** The funds check is on the exact sum: with one line per account booking
      succeeds exactly when every exact sum is not negative, and then stores each
      rounded. */
  lemma {:induction false} BookMeaning(b: Balances, id: int, lines: seq<FineLine>)
    requires OnePerAccount(lines)
    ensures Book(b, id, lines).Ok? <==> Affordable(b, lines)
    ensures Book(b, id, lines).Ok? ==> BookedRows(b, Book(b, id, lines).balances, id, lines)
  {
    if lines != [] {
      var init, last := lines[..|lines| - 1], lines[|lines| - 1];
      assert lines == init + [last];
      DistinctLast(lines);
      BookMeaning(b, id, init);
      AffordableLast(b, init, last);
      if Book(b, id, init).Ok? {
        BookOneMore(b, Book(b, id, init).balances, id, init, last);
      }
    }
  }

  function Fine(lines: seq<Line>): (fine: seq<FineLine>)
    ensures |fine| == |lines|
  {
    if lines == [] then [] else
      var l := lines[|lines| - 1];
      Fine(lines[..|lines| - 1]) + [FineLine(l.account, l.amount as real, l.side)]
  }

  lemma WholeStaysWhole(n: int)
    ensures RoundCents(n as real) == n
  {
    FloorOf(n as real + 0.5, n);
    FloorOf(-(n as real) + 0.5, -n);
  }

  lemma WholeLine(b: Balances, id: int, l: Line)
    ensures BookLine(b, id, FineLine(l.account, l.amount as real, l.side)) == WalkLine(Post, b, id, l)
  {
    if l.account in b {
      var balance := b[l.account].balance;
      assert balance as real + l.amount as real == (balance + l.amount) as real;
      WholeStaysWhole(balance + l.amount);
    }
  }

  /** On whole cents booking is the ledger's own walk. */
  lemma {:induction false} WholeCents(b: Balances, id: int, lines: seq<Line>)
    ensures Book(b, id, Fine(lines)) == Walk(Post, b, id, lines) && StoredLines(Fine(lines)) == lines
  {
    if lines != [] {
      var init, l := lines[..|lines| - 1], lines[|lines| - 1];
      WholeCents(b, id, init);
      assert Fine(lines)[..|lines| - 1] == Fine(init);
      WholeStaysWhole(l.amount);
      if Walk(Post, b, id, init).Ok? {
        WholeLine(Walk(Post, b, id, init).balances, id, l);
      }
    }
  }

  datatype Money = Money(balances: Balances, entries: seq<Entry>)

  datatype Change = Make(id: int, lines: seq<FineLine>) | Undo(id: int)

  /** One database transaction; a failed one changes nothing. */
  function Took(m: Money, s: Change): Option<Money> {
    match s
    case Make(id, lines) =>
      (match Book(m.balances, id, lines)
       case Ok(b) => Some(Money(b, m.entries + EntriesFor(id, StoredLines(lines))))
       case Err(_) => None)
    case Undo(id) =>
      (match Walk(Reverse, m.balances, id, LinesOf(m.entries, id))
       case Ok(b) => Some(Money(Forget(b, id), Without(m.entries, id)))
       case Err(_) => None)
  }

  function After(start: Money, steps: seq<Change>): Money {
    if steps == [] then start else
      var before := After(start, steps[..|steps| - 1]);
      match Took(before, steps[|steps| - 1])
      case Some(after) => after
      case None => before
  }

  // ---- counting ----

  function Halves(lines: seq<FineLine>, account: int): nat {
    if lines == [] then 0 else
      var l := lines[|lines| - 1];
      Halves(lines[..|lines| - 1], account) + (if l.account == account && NegativeHalf(l.amount) then 1 else 0)
  }

  function Negatives(lines: seq<FineLine>, account: int): nat {
    if lines == [] then 0 else
      var l := lines[|lines| - 1];
      Negatives(lines[..|lines| - 1], account) + (if l.account == account && l.amount < 0.0 then 1 else 0)
  }

  /** Lines of the successful creates that `count` counts. */
  function Made(start: Money, steps: seq<Change>, account: int, count: (seq<FineLine>, int) -> nat): nat {
    if steps == [] then 0 else
      var init, s := steps[..|steps| - 1], steps[|steps| - 1];
      Made(start, init, account, count)
      + (if s.Make? && Took(After(start, init), s).Some? then count(s.lines, account) else 0)
  }

  // ---- drift ----

  /** How far the cache is above opening plus ledger. */
  function Drift(m: Money, account: int, opening: int): int
    requires account in m.balances
  {
    m.balances[account].balance - opening - LedgerSum(m.entries, account)
  }

  lemma {:induction false} BookDrift(b: Balances, id: int, lines: seq<FineLine>, account: int)
    requires Book(b, id, lines).Ok? && account in b
    ensures var after := Book(b, id, lines).balances;
            account in after
            && after[account].balance
                == b[account].balance + Delta(StoredLines(lines), account) + Halves(lines, account)
  {
    if lines != [] {
      var init, l := lines[..|lines| - 1], lines[|lines| - 1];
      var mid := Book(b, id, init).balances;
      BookDrift(b, id, init, account);
      assert StoredLines(lines)[..|lines| - 1] == StoredLines(init);
      if l.account == account {
        RoundSum(mid[account].balance, l.amount);
      }
    }
  }

  lemma {:induction false} ReverseExactly(b: Balances, id: int, lines: seq<Line>, account: int)
    requires Walk(Reverse, b, id, lines).Ok? && account in b
    ensures var after := Walk(Reverse, b, id, lines).balances;
            account in after && after[account].balance == b[account].balance - Delta(lines, account)
  {
    if lines != [] {
      ReverseExactly(b, id, lines[..|lines| - 1], account);
    }
  }

  lemma StepDrift(m: Money, s: Change, account: int, opening: int)
    requires account in m.balances && Took(m, s).Some?
    ensures var after := Took(m, s).value;
            account in after.balances
            && Drift(after, account, opening)
                == Drift(m, account, opening) + (if s.Make? then Halves(s.lines, account) else 0)
  {
    match s {
      case Make(id, lines) =>
        BookDrift(m.balances, id, lines, account);
        LedgerSumAppend(m.entries, id, StoredLines(lines), account);
      case Undo(id) =>
        ReverseExactly(m.balances, id, LinesOf(m.entries, id), account);
        LedgerSumWithout(m.entries, id, account);
    }
  }

  /** The drift of an account is exactly the number of its lines ever created
      with a negative half cent. Deletes, even of those very lines, add none and
      remove none. */
  lemma {:induction false} DriftCountsHalves(start: Money, steps: seq<Change>, account: int)
    requires account in start.balances && start.entries == []
    ensures var m := After(start, steps);
            account in m.balances
            && Drift(m, account, start.balances[account].balance) == Made(start, steps, account, Halves)
  {
    if steps != [] {
      var init := steps[..|steps| - 1];
      DriftCountsHalves(start, init, account);
      if Took(After(start, init), steps[|steps| - 1]).Some? {
        StepDrift(After(start, init), steps[|steps| - 1], account, start.balances[account].balance);
      }
    }
  }

  lemma {:induction false} HalvesAreNegative(lines: seq<FineLine>, account: int)
    ensures Halves(lines, account) <= Negatives(lines, account)
  {
    if lines != [] {
      HalvesAreNegative(lines[..|lines| - 1], account);
    }
  }

  lemma {:induction false} MadeHalves(start: Money, steps: seq<Change>, account: int)
    ensures Made(start, steps, account, Halves) <= Made(start, steps, account, Negatives)
  {
    if steps != [] {
      MadeHalves(start, steps[..|steps| - 1], account);
      if steps[|steps| - 1].Make? {
        HalvesAreNegative(steps[|steps| - 1].lines, account);
      }
    }
  }

  /** Hence the bound: between nothing and a cent for each negative line ever
      created on the account. */
  lemma DriftBound(start: Money, steps: seq<Change>, account: int)
    requires account in start.balances && start.entries == []
    ensures var m := After(start, steps);
            account in m.balances
            && 0 <= Drift(m, account, start.balances[account].balance) <= Made(start, steps, account, Negatives)
  {
    DriftCountsHalves(start, steps, account);
    MadeHalves(start, steps, account);
  }

  lemma HalfRounds()
    ensures NegativeHalf(-0.5) && RoundCents(-0.5) == -1 && RoundCents(99.5) == 100
  {
    FloorOf(0.5 + 0.5, 1);
    FloorOf(99.5 + 0.5, 100);
  }

  lemma OneStep(start: Money, steps: seq<Change>, before: Money, last: Change, after: Money)
    requires After(start, steps) == before && Took(before, last) == Some(after)
    ensures After(start, steps + [last]) == after
  {
    assert (steps + [last])[..|steps|] == steps;
  }

  lemma MakeOne(m: Money, id: int, l: FineLine, b: Balances)
    requires BookLine(m.balances, id, l) == Ok(b)
    ensures Took(m, Make(id, [l])) == Some(Money(b, m.entries + [Entry(id, Stored(l))]))
  {
    assert [l][..0] == [] && Book(m.balances, id, []) == Ok(m.balances) && StoredLines([]) == [];
    assert EntriesFor(id, StoredLines([l])) == [Entry(id, Stored(l))];
  }

  lemma UndoOne(b: Balances, id: int, l: Line, undone: Balances)
    requires WalkLine(Reverse, b, id, l) == Ok(undone)
    ensures Took(Money(b, [Entry(id, l)]), Undo(id)) == Some(Money(Forget(undone, id), []))
  {
    assert [Entry(id, l)][..0] == [] && LinesOf([], id) == [] && Without([], id) == [];
    assert [l][..0] == [] && Walk(Reverse, b, id, []) == Ok(b);
  }

  /** The drift is real: booking half a cent out of 1.00 and deleting it again
      leaves 1.01 and an empty ledger. */
  lemma CentFromNothing()
    ensures var start := Money(map[7 := BalanceRow(100, None, 1)], []);
            var m := After(start, [Make(1, [FineLine(7, -0.5, Credit)]), Undo(1)]);
            m.entries == [] && 7 in m.balances && m.balances[7].balance == 101
  {
    var half, stored := FineLine(7, -0.5, Credit), Line(7, -1, Credit);
    var start := Money(map[7 := BalanceRow(100, None, 1)], []);
    var made, undone := map[7 := BalanceRow(100, Some(1), 2)], map[7 := BalanceRow(101, None, 3)];
    HalfRounds();
    MakeOne(start, 1, half, made);
    assert start.entries + [Entry(1, stored)] == [Entry(1, stored)];
    OneStep(start, [], start, Make(1, [half]), Money(made, [Entry(1, stored)]));
    UndoOne(made, 1, stored, undone);
    OneStep(start, [Make(1, [half])], Money(made, [Entry(1, stored)]), Undo(1), Money(Forget(undone, 1), []));
    assert [] + [Make(1, [half])] == [Make(1, [half])];
    assert [Make(1, [half])] + [Undo(1)] == [Make(1, [half]), Undo(1)];
  }
}
