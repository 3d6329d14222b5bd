/** Reading transactions back: the aggregate query over the join of one
    transaction with its entries, their accounts and its categories. */
module ReadBack {
  import opened Common
  import opened Calendar
  import opened Tables
  import opened Engine
  import opened Invariants
  import opened Histories
  import opened Shapes
  import opened Reports

  /** One row of the left joins; None stands for the NULLs of a missing side. */
  datatype JoinRow = JoinRow(entry: Option<Line>, account: Option<int>, category: Option<int>)

  predicate Matches(db: DB, id: int, r: JoinRow) {
    && (if LinesOf(db.entries, id) == [] then r.entry == None && r.account == None
        else r.entry.Some? && r.entry.value in LinesOf(db.entries, id)
             && r.account == if r.entry.value.account in db.accounts then Some(r.entry.value.account) else None)
    && (if Linked(db.links, id) then r.category.Some? && HasLink(db.links, id, r.category.value)
        else r.category == None)
  }

  /** Any result of the join: some listing of the matching rows, in any order
      and with any repetition. */
  ghost predicate Joins(db: DB, id: int, rows: seq<JoinRow>) {
    forall r :: r in rows <==> Matches(db, id, r)
  }

  /** MAX over a column, which ignores NULLs. */
  function Max(rows: seq<JoinRow>, f: JoinRow -> Option<int>): Option<int> {
    if rows == [] then None else
      var best, v := Max(rows[..|rows| - 1], f), f(rows[|rows| - 1]);
      if v.None? then best else if best.Some? && best.value >= v.value then best else v
  }

  datatype View = View(kind: Kind, date: Date, cost: int, amount: int,
                       category: Option<int>, account: Option<int>, from: Option<int>, to: Option<int>)

  function AmountCell(kind: Kind, r: JoinRow): Option<int> {
    if r.entry.None? then None
    else if kind == Transfer then (if r.entry.value.amount > 0 then Some(r.entry.value.amount) else None)
    else Some(if r.entry.value.amount < 0 then -r.entry.value.amount else r.entry.value.amount)
  }

  function AccountCell(kind: Kind, r: JoinRow): Option<int> {
    if kind != Transfer then r.account else None
  }

  function FromCell(kind: Kind, r: JoinRow): Option<int> {
    if kind == Transfer && r.entry.Some? && r.entry.value.amount < 0 then r.account else None
  }

  function ToCell(kind: Kind, r: JoinRow): Option<int> {
    if kind == Transfer && r.entry.Some? && r.entry.value.amount > 0 then r.account else None
  }

  function OrZero(v: Option<int>): int {
    if v.Some? then v.value else 0
  }

  /** SELECT ... GROUP BY t.id. */
  function Enriched(t: TxnRow, rows: seq<JoinRow>): View {
    var k := t.kind;
    View(k, t.date, t.cost,
         OrZero(Max(rows, r => AmountCell(k, r))) - (if k == Expense then t.cost else 0),
         Max(rows, (r: JoinRow) => r.category), Max(rows, r => AccountCell(k, r)),
         Max(rows, r => FromCell(k, r)), Max(rows, r => ToCell(k, r)))
  }

  /** What the user entered, as the view should show it. */
  function Entered(req: Request, date: Date, category: Option<int>): View {
    match req
    case IncomeOf(account, amount, cost, _, _) => View(Income, date, cost, amount, category, Some(account), None, None)
    case ExpenseOf(account, amount, cost, _, _) =>
      View(Expense, date, cost, amount, category, Some(account), None, None)
    case TransferOf(from, to, amount, cost, _) =>
      View(Transfer, date, cost, amount, category, None, Some(from), Some(to))
  }

  // ---- MAX over a join ----

  /** MAX depends only on which rows are there, not how often. */
  lemma {:induction false} MaxMeaning(rows: seq<JoinRow>, f: JoinRow -> Option<int>)
    ensures Max(rows, f).None? <==> forall r :: r in rows ==> f(r).None?
    ensures Max(rows, f).Some? ==>
              (exists r :: r in rows && f(r) == Max(rows, f))
              && forall r :: r in rows && f(r).Some? ==> f(r).value <= Max(rows, f).value
  {
    if rows != [] {
      var init, last := rows[..|rows| - 1], rows[|rows| - 1];
      assert rows == init + [last];
      MaxMeaning(init, f);
    }
  }

  lemma MaxIs(rows: seq<JoinRow>, f: JoinRow -> Option<int>, r: JoinRow)
    requires r in rows && forall x :: x in rows ==> f(x).None? || f(x) == f(r)
    ensures Max(rows, f) == f(r)
  {
    MaxMeaning(rows, f);
  }

  lemma MaxNone(rows: seq<JoinRow>, f: JoinRow -> Option<int>)
    requires forall x :: x in rows ==> f(x).None?
    ensures Max(rows, f) == None
  {
    MaxMeaning(rows, f);
  }

  // ---- round trip ----

  /** The one row a line and the transaction's category make. */
  function RowOf(l: Line, category: Option<int>): JoinRow {
    JoinRow(Some(l), Some(l.account), category)
  }

  /** The transaction's category, if it has one. */
  predicate CategoryIs(db: DB, id: int, category: Option<int>) {
    match category
    case Some(c) => OneLink(db.links) && HasLink(db.links, id, c)
    case None => !Linked(db.links, id)
  }

  lemma JoinRowsOf(db: DB, id: int, req: Request, category: Option<int>, rows: seq<JoinRow>)
    requires Recorded(db, id, req) && CategoryIs(db, id, category) && Joins(db, id, rows)
    requires forall l :: l in LinesFor(req) ==> l.account in db.accounts
    ensures forall r :: r in rows <==> exists l :: l in LinesFor(req) && r == RowOf(l, category)
  {
    assert category.Some? ==> Linked(db.links, id) by {
      if category.Some? {
        var j :| 0 <= j < |db.links| && db.links[j].category == category.value && db.links[j].txn == id;
      }
    }
    forall r ensures Matches(db, id, r) <==> exists l :: l in LinesFor(req) && r == RowOf(l, category) {
      if Matches(db, id, r) {
        if category.Some? {
          SameCategory(db.links, id, category.value, r.category.value);
        }
        assert r == RowOf(r.entry.value, category);
      }
    }
  }

  lemma OneLineView(t: TxnRow, req: Request, category: Option<int>, rows: seq<JoinRow>)
    requires ValidRequest(req) && t.kind == KindOf(req) && t.cost == req.cost && !req.TransferOf?
    requires forall r :: r in rows <==> r == RowOf(LinesFor(req)[0], category)
    ensures Enriched(t, rows) == Entered(req, t.date, category)
  {
    var k, r := t.kind, RowOf(LinesFor(req)[0], category);
    MaxIs(rows, x => AmountCell(k, x), r);
    MaxIs(rows, (x: JoinRow) => x.category, r);
    MaxIs(rows, x => AccountCell(k, x), r);
    MaxNone(rows, x => FromCell(k, x));
    MaxNone(rows, x => ToCell(k, x));
  }

  lemma TransferView(t: TxnRow, req: Request, category: Option<int>, rows: seq<JoinRow>)
    requires ValidRequest(req) && t.kind == KindOf(req) && t.cost == req.cost && req.TransferOf?
    requires forall r :: r in rows <==> r == RowOf(LinesFor(req)[0], category) || r == RowOf(LinesFor(req)[1], category)
    ensures Enriched(t, rows) == Entered(req, t.date, category)
  {
    var k, source, target := t.kind, RowOf(LinesFor(req)[0], category), RowOf(LinesFor(req)[1], category);
    assert source in rows && target in rows;
    MaxIs(rows, x => AmountCell(k, x), target);
    MaxIs(rows, (x: JoinRow) => x.category, source);
    MaxNone(rows, x => AccountCell(k, x));
    MaxIs(rows, x => FromCell(k, x), source);
    MaxIs(rows, x => ToCell(k, x), target);
  }

  /** While the accounts exist, reading a transaction back recovers what was
      entered, whatever rows the join repeats and in whatever order. */
  lemma RoundTrip(db: DB, id: int, req: Request, category: Option<int>, rows: seq<JoinRow>)
    requires Recorded(db, id, req) && CategoryIs(db, id, category) && Joins(db, id, rows)
    requires forall l :: l in LinesFor(req) ==> l.account in db.accounts
    ensures Enriched(db.txns[id], rows) == Entered(req, db.txns[id].date, category)
  {
    JoinRowsOf(db, id, req, category, rows);
    var lines := LinesFor(req);
    assert lines[0] in lines;
    if req.TransferOf? {
      assert lines[1] in lines;
      assert forall l :: l in lines <==> l == lines[0] || l == lines[1];
      TransferView(db.txns[id], req, category, rows);
    } else {
      assert forall l :: l in lines <==> l == lines[0];
      OneLineView(db.txns[id], req, category, rows);
    }
  }

  // ---- over whole histories ----

  predicate EditedWithin(ops: seq<Op>, from: nat, id: int) {
    exists k :: from <= k < |ops| && ops[k].Edit? && ops[k].id == id
  }

  /** The state of a created transaction later on, while it is not deleted. */
  predicate StillStands(db: DB, op: Op, edited: bool)
    requires op.Create?
  {
    Recorded(db, op.id, op.req)
    && (!edited ==> db.txns[op.id].date == op.req.date
                    && forall c :: c in CategoriesFor(op.req) ==> HasLink(db.links, op.id, c))
  }

  lemma {:induction false} LinkKept(links: seq<Link>, gone: int, id: int, c: int)
    requires gone != id && HasLink(links, id, c)
    ensures HasLink(LinksWithout(links, gone), id, c)
  {
    var j :| 0 <= j < |links| && links[j].category == c && links[j].txn == id;
    var init, kept := links[..|links| - 1], LinksWithout(links, gone);
    if j < |init| {
      assert init[j] == links[j];
      LinkKept(init, gone, id, c);
      var i :| 0 <= i < |LinksWithout(init, gone)| && LinksWithout(init, gone)[i] == Link(id, c);
      assert kept[i] == Link(id, c);
    } else {
      assert kept[|kept| - 1] == links[j];
    }
  }

  lemma StandingStays(db: DB, op: Op, next: Op, edited: bool)
    requires op.Create? && StillStands(db, op, edited) && Apply(db, next).Some? && !next.CloseAccount?
    requires !(next.Delete? && next.id == op.id)
    ensures StillStands(Apply(db, next).value, op, edited || (next.Edit? && next.id == op.id))
  {
    RecordStays(db, next, op.id, op.req);
    if !edited && !(next.Edit? && next.id == op.id) {
      var after := Apply(db, next).value;
      forall c | c in CategoriesFor(op.req) ensures HasLink(after.links, op.id, c) {
        LinkStays(db, next, op.id, c);
      }
    }
  }

  lemma LinkStays(db: DB, next: Op, id: int, c: int)
    requires HasLink(db.links, id, c) && Apply(db, next).Some?
    requires !(next.Delete? && next.id == id) && !(next.Edit? && next.id == id)
    ensures HasLink(Apply(db, next).value.links, id, c)
  {
    var after := Apply(db, next).value;
    if next.Delete? || (next.Edit? && after.links != db.links) {
      LinkKept(db.links, next.id, id, c);
      var kept := LinksWithout(db.links, next.id);
      var j :| 0 <= j < |kept| && kept[j].category == c && kept[j].txn == id;
      assert after.links[j] == kept[j];
    } else {
      var j :| 0 <= j < |db.links| && db.links[j].category == c && db.links[j].txn == id;
      assert after.links[j] == db.links[j];
    }
  }

  lemma EditedLater(ops: seq<Op>, from: nat, id: int)
    requires ops != []
    ensures EditedWithin(ops, from, id) <==>
              EditedWithin(ops[..|ops| - 1], from, id)
              || (from < |ops| && ops[|ops| - 1].Edit? && ops[|ops| - 1].id == id)
  {
    var init := ops[..|ops| - 1];
    assert forall k :: 0 <= k < |init| ==> init[k] == ops[k];
  }

  lemma {:induction false} CreatedStands(ops: seq<Op>, p: nat, db: DB)
    requires Leads(ops, db) && NoRemovals(ops) && p < |ops|
    requires ops[p].Create? && !DeletedWithin(ops, p, |ops|, ops[p].id)
    ensures StillStands(db, ops[p], EditedWithin(ops, p, ops[p].id))
    decreases |ops|
  {
    var init, last := ops[..|ops| - 1], ops[|ops| - 1];
    var before := Replay(EMPTY_DB, init).value;
    EditedLater(ops, p, ops[p].id);
    if p == |init| {
      ReachableIsSound(init, before);
      FreshStands(before, Openings(init), last);
    } else {
      assert init[p] == ops[p] && NoRemovals(init);
      DeletedLater(ops, p, |init|, ops[p].id);
      CreatedStands(init, p, before);
      StandingStays(before, ops[p], last, EditedWithin(init, p, ops[p].id));
    }
  }

  lemma InsertedRow(db: DB, id: int, user: int, req: Request, key: string)
    requires CreateTxn(db, id, user, req, key).Inserted?
    ensures var after := CreateTxn(db, id, user, req, key).db;
            after.txns == db.txns[id := RowFor(user, req, key)]
                && after.links == db.links + LinksFor(id, CategoriesFor(req))
  {}

  lemma NewLinks(links: seq<Link>, id: int, categories: seq<int>, c: int)
    requires c in categories
    ensures HasLink(links + LinksFor(id, categories), id, c)
  {
    var j :| 0 <= j < |categories| && categories[j] == c;
    assert (links + LinksFor(id, categories))[|links| + j] == Link(id, c);
  }

  lemma FreshStands(db: DB, opening: map<int, int>, op: Op)
    requires Sound(db, opening) && op.Create? && Apply(db, op).Some?
    ensures StillStands(Apply(db, op).value, op, false)
  {
    InsertedEntries(db, op.id, op.user, op.req, op.key);
    InsertedRow(db, op.id, op.user, op.req, op.key);
    InsertEntries(db, op.id, op.req);
    forall c | c in CategoriesFor(op.req) ensures HasLink(Apply(db, op).value.links, op.id, c) {
      NewLinks(db.links, op.id, CategoriesFor(op.req), c);
    }
  }

  /** From its creation on, as long as it is not deleted and no account is
      removed, reading a transaction returns the entered amount, cost and
      accounts; and the entered date and category until it is edited. */
  lemma ReadsBackForLife(ops: seq<Op>, p: nat, db: DB, rows: seq<JoinRow>)
    requires Leads(ops, db) && NoRemovals(ops) && p < |ops|
    requires ops[p].Create? && !DeletedWithin(ops, p, |ops|, ops[p].id)
    requires Joins(db, ops[p].id, rows)
    ensures ops[p].id in db.txns
    ensures var req, view := ops[p].req, Enriched(db.txns[ops[p].id], rows);
            view == Entered(req, view.date, view.category)
            && (!EditedWithin(ops, p, ops[p].id) ==>
                  view.date == req.date && view.category == if req.TransferOf? then None else Some(req.category))
  {
    var op := ops[p];
    CreatedStands(ops, p, db);
    ReachableIsSound(ops, db);
    ReachableIsCategorised(ops, db);
    assert Recorded(db, op.id, op.req);
    var category := CategoryOf(db, op.id);
    forall l | l in LinesFor(op.req) ensures l.account in db.accounts {
      LiveLines(db, op.id, l);
    }
    RoundTrip(db, op.id, op.req, category, rows);
    if !op.req.TransferOf? && !EditedWithin(ops, p, op.id) {
      assert op.req.category in CategoriesFor(op.req);
      assert Linked(db.links, op.id);
      SameCategory(db.links, op.id, op.req.category, category.value);
    }
  }

  ghost function CategoryOf(db: DB, id: int): (c: Option<int>)
    requires OneLink(db.links)
    ensures CategoryIs(db, id, c)
  {
    if Linked(db.links, id) then
      var j :| 0 <= j < |db.links| && db.links[j].txn == id; Some(db.links[j].category)
    else None
  }

  /** An edit shows at once: the new date and, unless it is a transfer, the new
      category if one was given; amount, cost and accounts read as before. */
  lemma EditShows(db: DB, opening: map<int, int>, id: int, user: int, date: Date, category: Option<int>, req: Request,
                  rows: seq<JoinRow>)
    requires Sound(db, opening) && Categorised(db) && Recorded(db, id, req) && db.txns[id].user == user
    requires Apply(db, Edit(id, user, date, category)).Some?
    requires Joins(Apply(db, Edit(id, user, date, category)).value, id, rows)
    ensures var after := Apply(db, Edit(id, user, date, category)).value;
            Enriched(after.txns[id], rows)
            == Entered(req, date, if req.TransferOf? then None
                                  else if category.Some? then category else CategoryOf(db, id))
  {
    var edit := Edit(id, user, date, category);
    var after := Apply(db, edit).value;
    RecordStays(db, edit, id, req);
    ApplyKeepsCategories(db, edit);
    var shown := CategoryOf(after, id);
    forall l | l in LinesFor(req) ensures l.account in after.accounts {
      LiveLines(db, id, l);
    }
    RoundTrip(after, id, req, shown, rows);
    if req.TransferOf? {
      assert !Linked(after.links, id);
    } else if category.Some? {
      NewLinks(LinksWithout(db.links, id), id, [category.value], category.value);
      assert LinksFor(id, [category.value]) == [Link(id, category.value)];
      assert HasLink(after.links, id, category.value) && Linked(after.links, id);
      SameCategory(after.links, id, category.value, shown.value);
    } else {
      assert Linked(db.links, id);
      SameCategory(db.links, id, CategoryOf(db, id).value, shown.value);
    }
  }

  // ---- lists ----

  /** The list's filters; a zero id or None stands for an absent filter. */
  datatype Filter = Filter(kind: Option<Kind>, month: Option<string>, first: Option<Date>, last: Option<Date>,
                           category: int, account: int)

  predicate Selects(user: int, f: Filter, t: TxnRow) {
    && t.user == user
    && (f.kind.Some? ==> t.kind == f.kind.value)
    && (f.month.Some? ==> MonthText(t.date) == f.month.value)
    && (f.first.Some? ==> NotAfter(f.first.value, t.date))
    && (f.last.Some? ==> NotAfter(t.date, f.last.value))
  }

  /** The category and account conditions fall on the joined rows. */
  predicate Keeps(f: Filter, r: JoinRow) {
    (f.category > 0 ==> r.category == Some(f.category))
    && (f.account > 0 ==> r.entry.Some? && r.entry.value.account == f.account)
  }

  function Filtered(f: Filter, rows: seq<JoinRow>): (kept: seq<JoinRow>)
    ensures forall r :: r in kept <==> r in rows && Keeps(f, r)
  {
    if rows == [] then [] else
      var init, last := rows[..|rows| - 1], rows[|rows| - 1];
      assert rows == init + [last];
      if Keeps(f, last) then Filtered(f, init) + [last] else Filtered(f, init)
  }

  /** The transaction's row in the list, None when it is not listed. */
  function ListRow(user: int, f: Filter, t: TxnRow, rows: seq<JoinRow>): Option<View> {
    if Selects(user, f, t) && Filtered(f, rows) != [] then Some(Enriched(t, Filtered(f, rows))) else None
  }

  lemma MaxSameRows(xs: seq<JoinRow>, ys: seq<JoinRow>, f: JoinRow -> Option<int>)
    requires forall r :: r in xs <==> r in ys
    ensures Max(xs, f) == Max(ys, f)
  {
    MaxMeaning(xs, f);
    MaxMeaning(ys, f);
  }

  lemma SameRowsSameView(t: TxnRow, xs: seq<JoinRow>, ys: seq<JoinRow>)
    requires forall r :: r in xs <==> r in ys
    ensures Enriched(t, xs) == Enriched(t, ys)
  {
    var k := t.kind;
    MaxSameRows(xs, ys, r => AmountCell(k, r));
    MaxSameRows(xs, ys, (r: JoinRow) => r.category);
    MaxSameRows(xs, ys, r => AccountCell(k, r));
    MaxSameRows(xs, ys, r => FromCell(k, r));
    MaxSameRows(xs, ys, r => ToCell(k, r));
  }

  /** What an account filter makes of a transaction: income and expense read as
      ever, but a transfer shows only the side of that account, so listed from
      its source it reads as an amount of zero to nowhere. */
  function OneSided(req: Request, account: int, date: Date, category: Option<int>): View {
    if !req.TransferOf? then Entered(req, date, category)
    else if account == req.from then View(Transfer, date, req.cost, 0, category, None, Some(req.from), None)
    else View(Transfer, date, req.cost, req.amount, category, None, None, Some(req.to))
  }

  /** Which transactions a list shows, and how, for every filter. */
  lemma ListMeaning(db: DB, id: int, req: Request, category: Option<int>, rows: seq<JoinRow>, user: int, f: Filter)
    requires Recorded(db, id, req) && CategoryIs(db, id, category) && Joins(db, id, rows)
    requires forall l :: l in LinesFor(req) ==> l.account in db.accounts
    ensures var t := db.txns[id];
            var shown := ListRow(user, f, t, rows);
            (shown.Some? <==> t.user == user
                              && (f.kind == None || f.kind == Some(KindOf(req)))
                              && (f.month == None || f.month == Some(MonthText(t.date)))
                              && (f.first.Some? ==> !Before(t.date, f.first.value))
                              && (f.last.Some? ==> !Before(f.last.value, t.date))
                              && (f.category > 0 ==> category == Some(f.category))
                              && (f.account > 0 ==> f.account in Touched(LinesFor(req))))
            && (shown.Some? ==> shown.value == if f.account > 0 then OneSided(req, f.account, t.date, category)
                                               else Entered(req, t.date, category))
  {
    var t, kept, lines := db.txns[id], Filtered(f, rows), LinesFor(req);
    JoinRowsOf(db, id, req, category, rows);
    KeptRows(req, category, rows, f);
    if f.account <= 0 {
      if f.category > 0 ==> category == Some(f.category) {
        assert RowOf(lines[0], category) in kept by { assert lines[0] in lines; }
        SameRowsSameView(t, kept, rows);
        RoundTrip(db, id, req, category, rows);
      }
    } else if (f.category > 0 ==> category == Some(f.category)) && f.account in Touched(lines) {
      var l :| l in lines && l.account == f.account;
      assert RowOf(l, category) in kept;
      OneRowView(t, req, category, l, kept);
    }
  }

  lemma KeptRows(req: Request, category: Option<int>, rows: seq<JoinRow>, f: Filter)
    requires forall r :: r in rows <==> exists l :: l in LinesFor(req) && r == RowOf(l, category)
    ensures forall r :: r in Filtered(f, rows) <==>
              exists l :: l in LinesFor(req) && r == RowOf(l, category)
                && (f.category > 0 ==> category == Some(f.category)) && (f.account > 0 ==> l.account == f.account)
    ensures Filtered(f, rows) != [] ==> Filtered(f, rows)[0] in Filtered(f, rows)
  {}

  lemma OneRowView(t: TxnRow, req: Request, category: Option<int>, l: Line, kept: seq<JoinRow>)
    requires ValidRequest(req) && t.kind == KindOf(req) && t.cost == req.cost && l in LinesFor(req)
    requires forall r :: r in kept <==> r == RowOf(l, category)
    ensures Enriched(t, kept) == OneSided(req, l.account, t.date, category)
  {
    var k, r := t.kind, RowOf(l, category);
    MaxIs(kept, x => AmountCell(k, x), r);
    MaxIs(kept, (x: JoinRow) => x.category, r);
    MaxIs(kept, x => AccountCell(k, x), r);
    MaxIs(kept, x => FromCell(k, x), r);
    MaxIs(kept, x => ToCell(k, x), r);
  }

  /** So a list row agrees with the single read exactly when no account filter
      is set or the transaction is not a transfer. */
  lemma ListAgreesWithRead(db: DB, id: int, req: Request, category: Option<int>, rows: seq<JoinRow>, user: int,
                           f: Filter)
    requires Recorded(db, id, req) && CategoryIs(db, id, category) && Joins(db, id, rows)
    requires forall l :: l in LinesFor(req) ==> l.account in db.accounts
    requires ListRow(user, f, db.txns[id], rows).Some?
    ensures ListRow(user, f, db.txns[id], rows).value == Enriched(db.txns[id], rows) <==>
              f.account <= 0 || !req.TransferOf?
  {
    ListMeaning(db, id, req, category, rows, user, f);
    RoundTrip(db, id, req, category, rows);
  }
}
