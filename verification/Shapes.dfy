/** What the rows of a transaction look like: as long as no account is removed,
    the entries of every live transaction are the movements of one valid
    request of its kind and cost, and it carries one category, or none if it is
    a transfer. */
module Shapes {
  import opened Tables
  import opened Engine
  import opened Invariants

  predicate Recorded(db: DB, id: int, req: Request) {
    id in db.txns && ValidRequest(req) && LinesOf(db.entries, id) == LinesFor(req)
    && db.txns[id].kind == KindOf(req) && db.txns[id].cost == req.cost
  }

  ghost predicate Shaped(db: DB) {
    forall id :: id in db.txns ==> exists req :: Recorded(db, id, req)
  }

  predicate NoRemovals(ops: seq<Op>) {
    forall k :: 0 <= k < |ops| ==> !ops[k].CloseAccount?
  }

  // ---- entries ----

  lemma CreateKeepsShape(db: DB, id: int, user: int, req: Request, key: string)
    requires Referential(db) && DistinctLines(db.entries) && Shaped(db) && id !in db.txns
    requires CreateTxn(db, id, user, req, key).Inserted?
    ensures Shaped(CreateTxn(db, id, user, req, key).db)
    ensures Recorded(CreateTxn(db, id, user, req, key).db, id, req)
  {
    var after := CreateTxn(db, id, user, req, key).db;
    InsertedEntries(db, id, user, req, key);
    InsertEntries(db, id, req);
    assert after.txns == db.txns[id := RowFor(user, req, key)];
    assert Recorded(after, id, req);
    forall t | t in after.txns ensures exists r :: Recorded(after, t, r) {
      if t != id {
        LinesOfAppend(db.entries, id, LinesFor(req), t);
        var r :| Recorded(db, t, r);
        assert Recorded(after, t, r);
      }
    }
  }

  lemma SameRecord(db: DB, after: DB, id: int, req: Request)
    requires Recorded(db, id, req) && id in after.txns && LinesOf(after.entries, id) == LinesOf(db.entries, id)
    requires after.txns[id].kind == db.txns[id].kind && after.txns[id].cost == db.txns[id].cost
    ensures Recorded(after, id, req)
  {}

  /** Any step but an account removal leaves the record of another transaction
      alone, and so does an edit of its own date or category. */
  lemma RecordStays(db: DB, op: Op, id: int, req: Request)
    requires Apply(db, op).Some? && !op.CloseAccount? && !(op.Delete? && op.id == id) && Recorded(db, id, req)
    ensures Recorded(Apply(db, op).value, id, req)
  {
    var after := Apply(db, op).value;
    match op {
      case Create(made, user, r, key) => LinesOfAppend(db.entries, made, LinesFor(r), id);
      case Delete(gone, user) => LinesOfWithout(db.entries, gone, id);
      case _ =>
    }
    SameRecord(db, after, id, req);
  }

  lemma ApplyKeepsShape(db: DB, opening: map<int, int>, op: Op)
    requires Sound(db, opening) && Shaped(db) && Apply(db, op).Some? && !op.CloseAccount?
    ensures Shaped(Apply(db, op).value)
  {
    if op.Create? {
      CreateKeepsShape(db, op.id, op.user, op.req, op.key);
    } else {
      var after := Apply(db, op).value;
      forall t | t in after.txns ensures exists r :: Recorded(after, t, r) {
        var r :| Recorded(db, t, r);
        RecordStays(db, op, t, r);
      }
    }
  }

  lemma {:induction false} ReachableIsShaped(ops: seq<Op>, db: DB)
    requires Leads(ops, db) && NoRemovals(ops)
    ensures Shaped(db)
  {
    if ops != [] {
      var init := ops[..|ops| - 1];
      var before := Replay(EMPTY_DB, init).value;
      ReachableIsShaped(init, before);
      ReachableIsSound(init, before);
      ApplyKeepsShape(before, Openings(init), ops[|ops| - 1]);
    }
  }

  // ---- sides ----

  /** A debit is money in and a credit money out, and nothing moves nothing. */
  predicate Sided(entries: seq<Entry>) {
    forall e :: e in entries ==> if e.line.side == Debit then e.line.amount > 0 else e.line.amount < 0
  }

  lemma ApplyKeepsSides(db: DB, op: Op)
    requires Sided(db.entries) && Apply(db, op).Some?
    ensures Sided(Apply(db, op).value.entries)
  {
    match op {
      case Create(id, user, req, key) =>
        InsertedEntries(db, id, user, req, key);
        forall e | e in EntriesFor(id, LinesFor(req))
          ensures if e.line.side == Debit then e.line.amount > 0 else e.line.amount < 0
        {
          assert e.line in LinesFor(req);
        }
      case Delete(id, _) => WithoutKeeps(db.entries, id);
      case CloseAccount(a, _) => WithoutAccountFacts(db.entries, a, a);
      case _ =>
    }
  }

  lemma {:induction false} ReachableIsSided(ops: seq<Op>, db: DB)
    requires Leads(ops, db)
    ensures Sided(db.entries)
  {
    if ops != [] {
      var before := Replay(EMPTY_DB, ops[..|ops| - 1]).value;
      ReachableIsSided(ops[..|ops| - 1], before);
      ApplyKeepsSides(before, ops[|ops| - 1]);
    }
  }

  // ---- categories ----

  predicate Linked(links: seq<Link>, id: int) {
    exists i :: 0 <= i < |links| && links[i].txn == id
  }

  predicate OneLink(links: seq<Link>) {
    forall i, j :: 0 <= i < j < |links| ==> links[i].txn != links[j].txn
  }

  predicate HasLink(links: seq<Link>, id: int, category: int) {
    exists j :: 0 <= j < |links| && links[j].category == category && links[j].txn == id
  }

  lemma SameCategory(links: seq<Link>, id: int, c: int, d: int)
    requires OneLink(links) && HasLink(links, id, c) && HasLink(links, id, d)
    ensures c == d
  {
    var i :| 0 <= i < |links| && links[i].category == c && links[i].txn == id;
    var j :| 0 <= j < |links| && links[j].category == d && links[j].txn == id;
    assert i == j;
  }

  /** Exactly one category per income or expense, none per transfer. */
  ghost predicate Categorised(db: DB) {
    OneLink(db.links) && forall id :: Linked(db.links, id) <==> id in db.txns && db.txns[id].kind != Transfer
  }

  lemma {:induction false} LinksWithoutSorted(links: seq<Link>, id: int)
    requires OneLink(links)
    ensures OneLink(LinksWithout(links, id))
    ensures forall t :: Linked(LinksWithout(links, id), t) <==> Linked(links, t) && t != id
  {
    if links != [] {
      var init, k := links[..|links| - 1], links[|links| - 1];
      assert forall i :: 0 <= i < |init| ==> init[i] == links[i];
      LinksWithoutSorted(init, id);
      var kept := LinksWithout(init, id);
      assert forall t :: Linked(links, t) <==> Linked(init, t) || t == k.txn by {
        assert links == init + [k];
        LinkedAppend(init, k);
      }
      if k.txn != id {
        LinkedAppend(kept, k);
        forall i | 0 <= i < |kept| ensures kept[i].txn != k.txn {
          assert Linked(kept, kept[i].txn);
          assert !Linked(init, k.txn);
        }
      }
    }
  }

  lemma LinkedAppend(links: seq<Link>, k: Link)
    ensures forall t :: Linked(links + [k], t) <==> Linked(links, t) || t == k.txn
  {
    forall t ensures Linked(links + [k], t) <==> Linked(links, t) || t == k.txn {
      var more := links + [k];
      if i :| 0 <= i < |links| && links[i].txn == t {
        assert more[i].txn == t;
      }
      assert more[|links|] == k;
    }
  }

  lemma AppendKeepsOneLink(links: seq<Link>, k: Link)
    requires OneLink(links) && !Linked(links, k.txn)
    ensures OneLink(links + [k])
  {}

  lemma ApplyKeepsCategories(db: DB, op: Op)
    requires Categorised(db) && Apply(db, op).Some?
    ensures Categorised(Apply(db, op).value)
  {
    match op {
      case Create(id, user, req, key) =>
        var after := Apply(db, op).value;
        assert after.links == db.links + LinksFor(id, CategoriesFor(req))
            && after.txns == db.txns[id := RowFor(user, req, key)];
        if KindOf(req) != Transfer {
          var k := Link(id, CategoriesFor(req)[0]);
          assert after.links == db.links + [k];
          LinkedAppend(db.links, k);
          AppendKeepsOneLink(db.links, k);
        } else {
          assert after.links == db.links;
        }
      case Delete(id, user) => LinksWithoutSorted(db.links, id);
      case Edit(id, user, date, category) =>
        if category.Some? && db.txns[id].kind != Transfer {
          var k := Link(id, category.value);
          LinksWithoutSorted(db.links, id);
          LinkedAppend(LinksWithout(db.links, id), k);
          AppendKeepsOneLink(LinksWithout(db.links, id), k);
        }
      case _ =>
    }
  }

  lemma {:induction false} ReachableIsCategorised(ops: seq<Op>, db: DB)
    requires Leads(ops, db)
    ensures Categorised(db)
  {
    if ops != [] {
      var before := Replay(EMPTY_DB, ops[..|ops| - 1]).value;
      ReachableIsCategorised(ops[..|ops| - 1], before);
      ApplyKeepsCategories(before, ops[|ops| - 1]);
    }
  }
}
