/** The budgets table and copying a month's budgets into the next one. */
module Budgets {
  import opened Common
  import opened DateText
  import opened Trimming

  datatype Budget = Budget(id: int, user: int, category: int, name: string, amount: int, color: string, month: string)

  predicate SameSlot(b: Budget, c: Budget) {
    b.user == c.user && b.category == c.category && b.month == c.month
  }

  /** UNIQUE (user_id, category_id, month). */
  predicate UniqueSlots(rows: seq<Budget>) {
    forall i, j :: 0 <= i < j < |rows| ==> !SameSlot(rows[i], rows[j])
  }

  predicate Taken(rows: seq<Budget>, user: int, category: int, month: string) {
    exists i :: 0 <= i < |rows| && rows[i].user == user && rows[i].category == category && rows[i].month == month
  }

  /** The categories a user has budgeted in a month. */
  function CategoriesIn(rows: seq<Budget>, user: int, month: string): set<int> {
    if rows == [] then {} else
      var b, rest := rows[|rows| - 1], CategoriesIn(rows[..|rows| - 1], user, month);
      if b.user == user && b.month == month then rest + {b.category} else rest
  }

  lemma {:induction false} TakenIsCategory(rows: seq<Budget>, user: int, category: int, month: string)
    ensures Taken(rows, user, category, month) <==> category in CategoriesIn(rows, user, month)
  {
    if rows != [] {
      var init := rows[..|rows| - 1];
      TakenIsCategory(init, user, category, month);
      assert Taken(init, user, category, month) ==> Taken(rows, user, category, month) by {
        assert forall i :: 0 <= i < |init| ==> init[i] == rows[i];
      }
    }
  }

  // ---- months as text ----

  datatype Month = Month(year: nat, month: nat)

  /** The month column's check, and the shape time.Parse("2006-01", s) wants. */
  predicate MonthShaped(s: string) {
    |s| == 7 && AllDigits(s[..4]) && s[4] == '-' && AllDigits(s[5..])
  }

  /** Seven characters: a year of four digits, a dash, two digits. */
  lemma MonthShapedMeaning(s: string)
    ensures Pow10(2) == 100 && Pow10(4) == 10000
    ensures MonthShaped(s) <==> exists y: nat, n: nat :: y < 10000 && n < 100 && s == Padded(y, 4) + "-" + Padded(n, 2)
  {
    Widths();
    if MonthShaped(s) {
      PaddedOfValue(s[..4]);
      PaddedOfValue(s[5..]);
      assert s == Padded(Value(s[..4]), 4) + "-" + Padded(Value(s[5..]), 2);
    }
    if y: nat, n: nat :| y < 10000 && n < 100 && s == Padded(y, 4) + "-" + Padded(n, 2) {
      assert s[..4] == Padded(y, 4) && s[5..] == Padded(n, 2);
    }
  }

  function ParseMonth(s: string): (r: Option<Month>)
    ensures r.Some? ==> 1 <= r.value.month <= 12
  {
    if MonthShaped(s) && 1 <= Value(s[5..]) <= 12 then Some(Month(Value(s[..4]), Value(s[5..]))) else None
  }

  /** AddDate(0, -1, 0) from the first of the month, as text; the year before
      year 0 prints with a sign. */
  function PreviousMonth(m: Month): string
    requires 1 <= m.month <= 12
  {
    if m.month > 1 then FormatMonth(m.year, m.month - 1)
    else if m.year > 0 then FormatMonth(m.year - 1, 12)
    else "-0001-12"
  }

  lemma FormatMonthParses(y: nat, m: nat)
    requires y <= 9999 && 1 <= m <= 12
    ensures ParseMonth(FormatMonth(y, m)) == Some(Month(y, m))
  {
    Widths();
    var s := FormatMonth(y, m);
    assert s[..4] == Padded(y, 4) && s[5..] == Padded(m, 2);
    PaddedValue(y, 4);
    PaddedValue(m, 2);
  }

  /** The previous month is exactly one month earlier, years included; only
      January of year 0 has none, and there the copy finds nothing. */
  lemma PreviousMonthIsOneEarlier(s: string)
    requires ParseMonth(s).Some?
    ensures var m := ParseMonth(s).value;
            var p := ParseMonth(PreviousMonth(m));
            (p.Some? <==> m != Month(0, 1))
            && (p.Some? ==> 12 * p.value.year + p.value.month + 1 == 12 * m.year + m.month)
            && !(p.None? && MonthShaped(PreviousMonth(m)))
  {
    var m := ParseMonth(s).value;
    Widths();
    PaddedOfValue(s[..4]);
    if m.month > 1 {
      FormatMonthParses(m.year, m.month - 1);
    } else if m.year > 0 {
      FormatMonthParses(m.year - 1, 12);
    }
  }

  // ---- copying ----

  /** What one copy of a user's budgets `from` one month `to` another does. */
  ghost predicate Copied(before: seq<Budget>, after: seq<Budget>, user: int, from: string, to: string, n: nat) {
    && before <= after && |after| == |before| + n
    && UniqueSlots(after)
    && CategoriesIn(after, user, to) == CategoriesIn(before, user, to) + CategoriesIn(before, user, from)
    && n == |CategoriesIn(before, user, from) - CategoriesIn(before, user, to)|
    && forall i :: |before| <= i < |after| ==> CopyOf(before, after[i], user, from, to)
  }

  ghost predicate CopyOf(before: seq<Budget>, b: Budget, user: int, from: string, to: string) {
    b.user == user && b.month == to
    && exists j :: 0 <= j < |before| && before[j].user == user && before[j].month == from
         && b == before[j].(id := b.id, month := to)
  }

  /** Copying again copies nothing. */
  lemma CopyTwice(before: seq<Budget>, after: seq<Budget>, again: seq<Budget>, user: int, from: string, to: string,
                  n: nat, m: nat)
    requires Copied(before, after, user, from, to, n) && Copied(after, again, user, from, to, m)
    ensures m == 0 && again == after
  {
    assert CategoriesIn(after, user, from) <= CategoriesIn(after, user, to) by {
      forall i | |before| <= i < |after| ensures after[i].month == to {
        assert CopyOf(before, after[i], user, from, to);
      }
      forall c | from != to && c in CategoriesIn(after, user, from) ensures c in CategoriesIn(before, user, from) {
        TakenIsCategory(after, user, c, from);
        TakenIsCategory(before, user, c, from);
        var i :| 0 <= i < |after| && after[i].user == user && after[i].month == from && after[i].category == c;
        assert from != to ==> i < |before| && before[i] == after[i];
      }
    }
    assert CategoriesIn(after, user, from) - CategoriesIn(after, user, to) == {};
  }

  lemma CategoriesAppend(rows: seq<Budget>, b: Budget, user: int, month: string)
    ensures CategoriesIn(rows + [b], user, month)
         == CategoriesIn(rows, user, month) + (if b.user == user && b.month == month then {b.category} else {})
  {
    assert (rows + [b])[..|rows|] == rows;
  }

  lemma AppendKeepsUnique(rows: seq<Budget>, b: Budget)
    requires UniqueSlots(rows) && !Taken(rows, b.user, b.category, b.month)
    ensures UniqueSlots(rows + [b])
  {}

  /** The copy's progress: the rows after handling the first i source rows. */
  ghost predicate Progress(source: seq<Budget>, i: nat, rows: seq<Budget>, user: int, from: string, to: string, n: nat)
    requires i <= |source|
  {
    && source <= rows && |rows| == |source| + n && UniqueSlots(rows)
    && CategoriesIn(rows, user, to) == CategoriesIn(source, user, to) + CategoriesIn(source[..i], user, from)
    && n == |CategoriesIn(source[..i], user, from) - CategoriesIn(source, user, to)|
    && forall k :: |source| <= k < |rows| ==> CopyOf(source, rows[k], user, from, to)
  }

  lemma CountStep(done: set<int>, had: set<int>, c: int)
    ensures c in had + done ==> had + (done + {c}) == had + done && done + {c} - had == done - had
    ensures c !in had + done ==> |done + {c} - had| == |done - had| + 1
  {
    if c !in had + done {
      assert done + {c} - had == (done - had) + {c};
    }
  }

  lemma ProgressSkips(source: seq<Budget>, i: nat, rows: seq<Budget>, user: int, from: string, to: string, n: nat)
    requires i < |source| && Progress(source, i, rows, user, from, to, n)
    requires source[i].user == user && source[i].month == from ==> Taken(rows, user, source[i].category, to)
    ensures Progress(source, i + 1, rows, user, from, to, n)
  {
    assert source[..i + 1] == source[..i] + [source[i]];
    CategoriesAppend(source[..i], source[i], user, from);
    TakenIsCategory(rows, user, source[i].category, to);
    CountStep(CategoriesIn(source[..i], user, from), CategoriesIn(source, user, to), source[i].category);
  }

  lemma ProgressCopies(source: seq<Budget>, i: nat, rows: seq<Budget>, b: Budget, user: int, from: string, to: string,
                       n: nat)
    requires i < |source| && Progress(source, i, rows, user, from, to, n)
    requires source[i].user == user && source[i].month == from && b == source[i].(id := b.id, month := to)
    requires !Taken(rows, user, b.category, to)
    ensures Progress(source, i + 1, rows + [b], user, from, to, n + 1)
  {
    assert source[..i + 1] == source[..i] + [source[i]];
    CategoriesAppend(source[..i], source[i], user, from);
    CategoriesAppend(rows, b, user, to);
    AppendKeepsUnique(rows, b);
    TakenIsCategory(rows, user, b.category, to);
    CountStep(CategoriesIn(source[..i], user, from), CategoriesIn(source, user, to), b.category);
    assert CopyOf(source, b, user, from, to);
  }

  /** Ids come from the sequence, months pass the check. */
  predicate Listed(rows: seq<Budget>, nextId: int) {
    forall i :: 0 <= i < |rows| ==> rows[i].id < nextId && MonthShaped(rows[i].month)
  }

  lemma ListedAppend(rows: seq<Budget>, b: Budget)
    requires Listed(rows, b.id) && MonthShaped(b.month)
    ensures Listed(rows + [b], b.id + 1)
  {}

  class BudgetTable {
    var rows: seq<Budget>
    var nextId: int

    ghost predicate Valid()
      reads this
    {
      UniqueSlots(rows) && Listed(rows, nextId)
    }

    constructor ()
      ensures Valid() && rows == []
    {
      rows, nextId := [], 1;
    }

    /** Create: an absent month is the current one, an absent color the default;
        refused by validation, by the month check, or by uniqueness. */
    method Create(user: int, category: int, name: string, amount: int, color: string, month: string, thisMonth: string)
      returns (ok: bool)
      requires Valid()
      modifies this
      ensures Valid()
      ensures var m := if month == "" then thisMonth else month;
              && (ok <==> (exists k :: 0 <= k < |name| && name[k] !in SPACES) && amount > 0
                          && MonthShaped(m) && !Taken(old(rows), user, category, m))
              && (!ok ==> rows == old(rows))
              && (ok ==> rows == old(rows) + [Budget(old(nextId), user, category, TrimSpace(name), amount,
                                                     if color == "" then "#6366f1" else color, m)])
    {
      BlankMeaning(name);
      var m, shade := month, color;
      if m == "" {
        m := thisMonth;
      }
      if TrimSpace(name) == "" || amount <= 0 || !MonthShaped(m) || Taken(rows, user, category, m) {
        return false;
      }
      if shade == "" {
        shade := "#6366f1";
      }
      var b := Budget(nextId, user, category, TrimSpace(name), amount, shade, m);
      AppendKeepsUnique(rows, b);
      rows := rows + [b];
      nextId := nextId + 1;
      ok := true;
    }

    /** INSERT ... SELECT ... ON CONFLICT DO NOTHING, row by row. */
    method CopyBudgetsFromMonth(user: int, from: string, to: string) returns (copied: nat)
      requires Valid() && MonthShaped(to)
      modifies this
      ensures Valid() && Copied(old(rows), rows, user, from, to, copied)
    {
      var source := rows;
      copied := 0;
      assert source[..0] == [];
      for i := 0 to |source|
        invariant source == old(rows) && Listed(rows, nextId) && Progress(source, i, rows, user, from, to, copied)
      {
        if source[i].user == user && source[i].month == from && !Taken(rows, user, source[i].category, to) {
          var b := source[i].(id := nextId, month := to);
          ProgressCopies(source, i, rows, b, user, from, to, copied);
          ListedAppend(rows, b);
          rows := rows + [b];
          nextId := nextId + 1;
          copied := copied + 1;
        } else {
          ProgressSkips(source, i, rows, user, from, to, copied);
        }
      }
      assert source[..|source|] == source;
    }

    method CopyFromPreviousMonth(user: int, target: string) returns (r: Option<nat>)
      requires Valid()
      modifies this
      ensures Valid() && (r.Some? <==> ParseMonth(target).Some?)
      ensures r.None? ==> rows == old(rows)
      ensures r.Some? ==> Copied(old(rows), rows, user, PreviousMonth(ParseMonth(target).value), target, r.value)
    {
      var m := ParseMonth(target);
      if m.None? {
        return None;
      }
      var n := CopyBudgetsFromMonth(user, PreviousMonth(m.value), target);
      r := Some(n);
    }
  }
}
