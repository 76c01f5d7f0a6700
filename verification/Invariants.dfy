/**
 What every credit transaction keeps: the balance is the ledger sum, every reservation's
 rows add up to what its status says, and the uniqueness constraints hold.
 */
module Invariants {
  import opened Basics
  import opened Ledger

  /** The cached balance of every user is the sum of the user's ledger rows. */
  ghost predicate BalancedFor(db: Db, u: string) {
    Balance(db, u) == Total(db.ledger, ByUser(u))
  }

  ghost predicate Balanced(db: Db) {
    forall u :: BalancedFor(db, u)
  }

  /** The balance is grants less refunds less what reservations hold or have captured. */
  ghost predicate ExplainedFor(db: Db, u: string) {
    Balance(db, u) == Total(db.ledger, GrantsOf(u)) + Total(db.ledger, RefundsOf(u)) - HeldBy(db.reservations, u)
  }

  ghost predicate Explained(db: Db) {
    forall u :: ExplainedFor(db, u)
  }

  /** Every user that a ledger row or a reservation names has an account row. */
  ghost predicate Anchored(db: Db) {
    && (forall i :: 0 <= i < |db.ledger| ==> db.ledger[i].user in db.accounts)
    && (forall r :: r in db.reservations ==> db.reservations[r].user in db.accounts)
  }

  ghost predicate UniqueIds(ledger: seq<Entry>) {
    forall i, j :: 0 <= i < j < |ledger| ==> ledger[i].id != ledger[j].id
  }

  ghost predicate UniqueKeys(ledger: seq<Entry>) {
    forall i, j :: 0 <= i < j < |ledger| && ledger[i].key.Some? ==> ledger[i].key != ledger[j].key
  }

  ghost predicate UniqueRequests(rows: map<string, Reservation>) {
    forall r, q :: r in rows && q in rows && rows[r].requestId == rows[q].requestId ==> r == q
  }

  /** The UNIQUE constraints of the schema. */
  ghost predicate Constrained(db: Db) {
    UniqueIds(db.ledger) && UniqueKeys(db.ledger) && UniqueRequests(db.reservations)
  }

  /** The amounts recorded on a reservation agree with its status. */
  predicate CoherentRow(row: Reservation) {
    && row.amount >= 1
    && match row.status
       case Reserved => row.captured == 0 && row.released == 0
       case Captured => row.captured >= 0 && row.released == Max(row.amount - row.captured, 0)
       case Released => row.captured == 0 && row.released == row.amount
       case Expired => row.captured == 0 && row.released == 0
  }

  /** The rows that reference a reservation exist for it and sum to minus what it holds. */
  ghost predicate Conserved(db: Db) {
    && (forall r :: r in db.reservations ==> CoherentRow(db.reservations[r]))
    && (forall r :: r in db.reservations ==> Total(db.ledger, ByReference(r)) == -Held(db.reservations[r]))
    && (forall i :: 0 <= i < |db.ledger| && db.ledger[i].reference.Some? ==>
          var r := db.ledger[i].reference.value;
          r in db.reservations && db.reservations[r].user == db.ledger[i].user)
  }

  ghost predicate Inv(db: Db) {
    Balanced(db) && Explained(db) && Anchored(db) && Constrained(db) && Conserved(db)
  }

  /** A remembered stale row still carries the reservation's own user and amount. */
  ghost predicate Faithful(db: Db, st: Stale) {
    st.rid in db.reservations &&
    st.user == db.reservations[st.rid].user && st.amount == db.reservations[st.rid].amount
  }

  /** Nothing that happened to `r` since `db` changed its identity, or reopened or altered it once closed. */
  ghost predicate Preserves(db: Db, db': Db) {
    forall r :: r in db.reservations ==>
      && r in db'.reservations
      && var a, b := db.reservations[r], db'.reservations[r];
         && a.user == b.user && a.requestId == b.requestId && a.amount == b.amount && a.createdAt == b.createdAt
         && (a.status != Reserved ==> a == b)
  }

  /** Appending a row to the ledger, moving its amount into the account, and writing the reservations. */
  function Post(db: Db, e: Entry, rows: map<string, Reservation>): Db {
    Db(Upsert(db.accounts, e.user, e.amount), db.ledger + [e], rows)
  }

  lemma PostBalanced(db: Db, e: Entry, rows: map<string, Reservation>)
    requires Balanced(db)
    ensures Balanced(Post(db, e, rows))
  {
    var db' := Post(db, e, rows);
    forall u ensures BalancedFor(db', u) {
      assert BalancedFor(db, u);
      TotalAppend(db.ledger, e, ByUser(u));
    }
  }

  lemma PostConstrained(db: Db, e: Entry, rows: map<string, Reservation>)
    requires Constrained(db) && Insertable(db.ledger, e) && UniqueRequests(rows)
    ensures Constrained(Post(db, e, rows))
  {
    assert forall i :: 0 <= i < |db.ledger| ==> db.ledger[i].id != e.id;
    assert e.key.Some? ==> forall i :: 0 <= i < |db.ledger| ==> db.ledger[i].key != e.key;
  }

  /** A grant or refund row explains its own amount; nothing else does. */
  lemma PostExplainedAdjustment(db: Db, e: Entry)
    requires Explained(db) && e.kind in {KGrant, KRefund}
    ensures Explained(Post(db, e, db.reservations))
  {
    var db' := Post(db, e, db.reservations);
    forall u ensures ExplainedFor(db', u) {
      assert ExplainedFor(db, u);
      TotalAppend(db.ledger, e, GrantsOf(u));
      TotalAppend(db.ledger, e, RefundsOf(u));
    }
  }

  /** A reservation row explains its amount by an opposite change of what is held. */
  lemma PostExplainedReservation(db: Db, e: Entry, r: string, row: Reservation)
    requires Explained(db) && e.kind !in {KGrant, KRefund} && row.user == e.user
    requires r in db.reservations ==> db.reservations[r].user == e.user
    requires e.amount == (if r in db.reservations then Held(db.reservations[r]) else 0) - Held(row)
    ensures Explained(Post(db, e, db.reservations[r := row]))
  {
    var db' := Post(db, e, db.reservations[r := row]);
    forall u ensures ExplainedFor(db', u) {
      assert ExplainedFor(db, u);
      PostExplainedFor(db, e, r, row, u);
    }
  }

  lemma PostExplainedFor(db: Db, e: Entry, r: string, row: Reservation, u: string)
    requires ExplainedFor(db, u) && e.kind !in {KGrant, KRefund} && row.user == e.user
    requires r in db.reservations ==> db.reservations[r].user == e.user
    requires e.amount == (if r in db.reservations then Held(db.reservations[r]) else 0) - Held(row)
    ensures ExplainedFor(Post(db, e, db.reservations[r := row]), u)
  {
    TotalAppend(db.ledger, e, GrantsOf(u));
    TotalAppend(db.ledger, e, RefundsOf(u));
    HeldByWrite(db.reservations, r, row, u);
  }

  /** Rows without a reference leave every reservation's sum alone. */
  lemma PostConservedAdjustment(db: Db, e: Entry)
    requires Conserved(db) && e.reference.None?
    ensures Conserved(Post(db, e, db.reservations))
  {
    forall r | r in db.reservations ensures Total(db.ledger + [e], ByReference(r)) == -Held(db.reservations[r]) {
      TotalAppend(db.ledger, e, ByReference(r));
    }
  }

  lemma PostConservedReservation(db: Db, e: Entry, r: string, row: Reservation)
    requires Conserved(db) && e.reference == Some(r) && row.user == e.user && CoherentRow(row)
    requires r in db.reservations ==> db.reservations[r].user == e.user
    requires e.amount == (if r in db.reservations then Held(db.reservations[r]) else 0) - Held(row)
    ensures Conserved(Post(db, e, db.reservations[r := row]))
  {
    var rows := db.reservations[r := row];
    if r !in db.reservations {
      TotalOfNone(db.ledger, ByReference(r));
    }
    forall q | q in rows ensures Total(db.ledger + [e], ByReference(q)) == -Held(rows[q]) {
      TotalAppend(db.ledger, e, ByReference(q));
    }
  }

  // ---- Each transaction keeps the invariant ---------------------------------------------

  /** A key is on at most one row. */
  lemma {:induction false} CountUnique(ledger: seq<Entry>, key: string)
    requires UniqueKeys(ledger)
    ensures CountKey(ledger, key) <= 1
  {
    if ledger != [] {
      var n := |ledger| - 1;
      if ledger[n].key == Some(key) {
        CountUnused(ledger[..n], key);
      } else {
        CountUnique(ledger[..n], key);
      }
    }
  }

  lemma AdjustKeeps(db: Db, e: Entry)
    requires Inv(db) && e.kind in {KGrant, KRefund} && e.reference.None?
    ensures Inv(Adjust(db, e).db) && Preserves(db, Adjust(db, e).db)
  {
    if Adjust(db, e).result.Ok? {
      PostBalanced(db, e, db.reservations);
      PostConstrained(db, e, db.reservations);
      PostExplainedAdjustment(db, e);
      PostConservedAdjustment(db, e);
    }
  }

  lemma ReserveKeeps(db: Db, rid: string, user: string, requestId: string, amount: int, now: int)
    requires Inv(db)
    ensures Inv(Reserve(db, rid, user, requestId, amount, now).db)
    ensures Preserves(db, Reserve(db, rid, user, requestId, amount, now).db)
  {
    var eff := Reserve(db, rid, user, requestId, amount, now);
    if eff.db != db {
      var e := ReserveEntry(rid, user, requestId, amount);
      var row := Reservation(user, requestId, amount, 0, 0, Reserved, now);
      assert eff.db == Post(db, e, db.reservations[rid := row]);
      PostBalanced(db, e, eff.db.reservations);
      PostConstrained(db, e, eff.db.reservations);
      PostExplainedReservation(db, e, rid, row);
      PostConservedReservation(db, e, rid, row);
    }
  }

  /** Rewriting a reservation that holds as much as before changes no user's total. */
  lemma RewriteExplained(db: Db, r: string, row: Reservation)
    requires Explained(db) && r in db.reservations
    requires row.user == db.reservations[r].user && Held(row) == Held(db.reservations[r])
    ensures Explained(db.(reservations := db.reservations[r := row]))
  {
    var db' := db.(reservations := db.reservations[r := row]);
    forall u ensures ExplainedFor(db', u) {
      assert ExplainedFor(db, u);
      HeldByWrite(db.reservations, r, row, u);
    }
  }

  /** Closing at exactly the reserved amount writes the reservation and nothing else. */
  lemma RewriteKeeps(db: Db, r: string, row: Reservation)
    requires Inv(db) && r in db.reservations && CoherentRow(row)
    requires row.user == db.reservations[r].user && row.requestId == db.reservations[r].requestId
    requires Held(row) == Held(db.reservations[r])
    ensures Inv(db.(reservations := db.reservations[r := row]))
  {
    var db' := db.(reservations := db.reservations[r := row]);
    RewriteExplained(db, r, row);
    forall u ensures BalancedFor(db', u) {
      assert BalancedFor(db, u);
    }
  }

  /** Closing a reservation and returning or drawing the difference in the same transaction. */
  lemma CloseKeeps(db: Db, e: Entry, r: string, row: Reservation)
    requires Inv(db) && r in db.reservations && CoherentRow(row) && Insertable(db.ledger, e)
    requires row.user == db.reservations[r].user && row.requestId == db.reservations[r].requestId
    requires e.user == row.user && e.reference == Some(r) && e.kind !in {KGrant, KRefund}
    requires e.amount == Held(db.reservations[r]) - Held(row)
    ensures Inv(Post(db, e, db.reservations[r := row]))
  {
    var rows := db.reservations[r := row];
    PostBalanced(db, e, rows);
    PostConstrained(db, e, rows);
    PostExplainedReservation(db, e, r, row);
    PostConservedReservation(db, e, r, row);
  }

  /** A reservation that closes is coherent, and what it stops holding is what the ledger gets. */
  lemma DecideCoherent(row: Reservation, captured: int, releaseAll: bool)
    requires CoherentRow(row) && row.status == Reserved && (releaseAll ==> captured == 0) && captured >= 0
    ensures var out := Decide(row, captured, releaseAll);
            var row' := row.(captured := captured, released := out.returned, status := out.status);
            out.adjust == Held(row) - Held(row') && CoherentRow(row') && out.kind !in {KGrant, KRefund}
  {
  }

  /** Closing a reservation of a user with an account, with or without a ledger row. */
  lemma FinalizeShape(db: Db, lid: string, rid: string, captured: int, releaseAll: bool)
    requires Anchored(db) && Finalize(db, lid, rid, captured, releaseAll).result.Ok?
    ensures var out := Decide(db.reservations[rid], captured, releaseAll);
            var row := db.reservations[rid];
            var row' := row.(captured := captured, released := out.returned, status := out.status);
            var rows, e := db.reservations[rid := row'],
              ReturnEntry(lid, rid, row.user, out.adjust, out.kind, out.source);
            && row.status == Reserved && (!releaseAll ==> captured >= 0)
            && (out.adjust != 0 ==> Insertable(db.ledger, e))
            && Finalize(db, lid, rid, captured, releaseAll).db == if out.adjust == 0 then db.(reservations := rows)
               else Post(db, e, rows)
  {
  }

  lemma FinalizeKeeps(db: Db, lid: string, rid: string, captured: int, releaseAll: bool)
    requires Inv(db) && (releaseAll ==> captured == 0)
    ensures Inv(Finalize(db, lid, rid, captured, releaseAll).db)
    ensures Preserves(db, Finalize(db, lid, rid, captured, releaseAll).db)
  {
    if Finalize(db, lid, rid, captured, releaseAll).result.Ok? {
      FinalizeShape(db, lid, rid, captured, releaseAll);
      var row := db.reservations[rid];
      var out := Decide(row, captured, releaseAll);
      var row' := row.(captured := captured, released := out.returned, status := out.status);
      assert CoherentRow(row);
      DecideCoherent(row, captured, releaseAll);
      if out.adjust == 0 {
        RewriteKeeps(db, rid, row');
      } else {
        CloseKeeps(db, ReturnEntry(lid, rid, row.user, out.adjust, out.kind, out.source), rid, row');
      }
    }
  }

  lemma ExpireOneKeeps(db: Db, lid: string, st: Stale)
    requires Inv(db) && Faithful(db, st)
    ensures Inv(ExpireOne(db, lid, st).db)
    ensures Preserves(db, ExpireOne(db, lid, st).db)
  {
    var eff := ExpireOne(db, lid, st);
    if eff.db != db {
      var e := ReturnEntry(lid, st.rid, st.user, st.amount, KRelease, "reconcile");
      var row' := eff.db.reservations[st.rid];
      assert eff.db == Post(db, e, db.reservations[st.rid := row']);
      CloseKeeps(db, e, st.rid, row');
    }
  }

  /** The empty tables satisfy the invariant. */
  lemma EmptyInv()
    ensures Inv(EMPTY)
  {
  }
}
