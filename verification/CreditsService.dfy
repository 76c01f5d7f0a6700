/**
 The credits service as the program runs it: statement by statement over mutable tables,
 rolling back when a statement fails. Each method is proved against the transaction it
 is meant to be.
 */
module CreditsService {
  import opened Basics
  import opened Ledger
  import opened Invariants
  import opened Reconciliation

  /** The caller's copy of a reservation. Only its id is trusted. */
  class Handle {
    var id: string
    var user: string
    var amount: int
    var captured: int
    var released: int
    var status: Status

    constructor (id: string, row: Reservation)
      ensures this.id == id && Mirrors(row)
    {
      this.id, user, amount := id, row.user, row.amount;
      captured, released, status := row.captured, row.released, row.status;
    }

    ghost predicate Mirrors(row: Reservation)
      reads this
    {
      user == row.user && amount == row.amount && captured == row.captured &&
      released == row.released && status == row.status
    }
  }

  /** The UNIQUE constraints survive every transaction, on tables in any condition. */
  lemma ReserveConstrained(db: Db, rid: string, user: string, requestId: string, amount: int, now: int)
    requires Constrained(db)
    ensures Constrained(Ledger.Reserve(db, rid, user, requestId, amount, now).db)
  {
    var eff := Ledger.Reserve(db, rid, user, requestId, amount, now);
    if eff.db != db {
      PostConstrained(db, ReserveEntry(rid, user, requestId, amount), eff.db.reservations);
    }
  }

  lemma AppendConstrained(db: Db, e: Entry, rows: map<string, Reservation>, accounts: map<string, int>)
    requires Constrained(db) && Insertable(db.ledger, e) && UniqueRequests(rows)
    ensures Constrained(Db(accounts, db.ledger + [e], rows))
  {
    PostConstrained(db, e, rows);
  }

  class Service {
    var accounts: map<string, int>
    var ledger: seq<Entry>
    var reservations: map<string, Reservation>

    ghost function View(): Db
      reads this
    {
      Db(accounts, ledger, reservations)
    }

    ghost predicate Valid()
      reads this
    {
      Constrained(View())
    }

    constructor ()
      ensures View() == EMPTY && Valid()
    {
      accounts, ledger, reservations := map[], [], map[];
    }

    /** INSERT INTO credit_transactions: refused by a UNIQUE constraint or appended. */
    method InsertEntry(e: Entry) returns (ok: bool)
      modifies this`ledger
      ensures ok <==> Insertable(old(ledger), e)
      ensures ledger == if ok then old(ledger) + [e] else old(ledger)
    {
      ok := Insertable(ledger, e);
      if ok {
        ledger := ledger + [e];
      }
    }

    // ---- ledger.go ----------------------------------------------------------------------

    method GetBalance(user: string) returns (b: int)
      ensures b == Balance(View(), user)
    {
      b := 0;
      if user in accounts {
        b := accounts[user];
      }
    }

    method Adjust(e: Entry) returns (r: Result<()>)
      requires Valid()
      modifies this
      ensures Effect(r, View()) == Ledger.Adjust(old(View()), e)
      ensures Valid()
    {
      if !(ValidIdentifier(e.user) && ValidIdentifier(e.source) && ValidIdentifier(e.reason)) {
        return Err(InvalidArgument);
      }
      if e.key.None? || !ValidIdentifier(e.key.value) {
        return Err(InvalidArgument);
      }
      if KeyUsed(ledger, e.key.value) {
        return Err(DuplicateGrant);
      }
      AppendConstrainedIf(e);
      var ok := InsertEntry(e);
      if !ok {
        return Err(ConstraintViolation);
      }
      if e.user in accounts {
        accounts := accounts[e.user := accounts[e.user] + e.amount];
      } else {
        accounts := accounts[e.user := e.amount];
      }
      return Ok(());
    }

    lemma AppendConstrainedIf(e: Entry)
      requires Valid()
      ensures Insertable(ledger, e) ==> forall a :: Constrained(Db(a, ledger + [e], reservations))
    {
      if Insertable(ledger, e) {
        AppendConstrained(View(), e, reservations, accounts);
      }
    }

    method Grant(id: string, user: string, amount: int, source: string, reason: string, key: string)
      returns (r: Result<()>)
      requires Valid()
      modifies this
      ensures Effect(r, View()) == Ledger.Grant(old(View()), id, user, amount, source, reason, key)
      ensures Valid()
    {
      if amount <= 0 {
        return Err(InvalidArgument);
      }
      r := Adjust(GrantEntry(id, user, amount, source, reason, key));
    }

    method Refund(id: string, user: string, amount: int, source: string, reason: string, key: string)
      returns (r: Result<()>)
      requires Valid()
      modifies this
      ensures Effect(r, View()) == Ledger.Refund(old(View()), id, user, amount, source, reason, key)
      ensures Valid()
    {
      if amount <= 0 {
        return Err(InvalidArgument);
      }
      r := Adjust(RefundEntry(id, user, amount, source, reason, key));
    }

    // ---- reservation.go -----------------------------------------------------------------

    method LookupReservation(requestId: string) returns (r: Option<string>)
      requires Valid()
      ensures r.None? <==> !RequestUsed(reservations, requestId)
      ensures r.Some? ==> r.value == ByRequest(reservations, requestId)
    {
      if k :| k in reservations && reservations[k].requestId == requestId {
        r := Some(k);
        assert RequestUsed(reservations, requestId);
      } else {
        r := None;
      }
    }

    method Reserve(rid: string, user: string, requestId: string, amount: int, now: int) returns (r: Result<Handle>)
      requires Valid()
      modifies this
      ensures var eff := Ledger.Reserve(old(View()), rid, user, requestId, amount, now);
              && View() == eff.db
              && (r.Ok? <==> eff.result.Ok?)
              && (r.Err? ==> r.error == eff.result.error)
              && (r.Ok? ==> fresh(r.value) && r.value.id == eff.result.value && r.value.id in reservations &&
                            r.value.Mirrors(reservations[r.value.id]))
      ensures r.Ok? ==> r.value.user == user && reservations[r.value.id].requestId == requestId
      ensures Valid()
    {
      if !ValidIdentifier(user) || !ValidIdentifier(requestId) || amount < 1 {
        return Err(InvalidArgument);
      }
      var existing := LookupReservation(requestId);
      if existing.Some? {
        if reservations[existing.value].user != user {
          return Err(RequestOwnedByOther);
        }
        var h := new Handle(existing.value, reservations[existing.value]);
        return Ok(h);
      }
      ReserveConstrained(View(), rid, user, requestId, amount, now);
      r := DebitReservation(rid, user, requestId, amount, now);
    }

    /** Debits the balance, then inserts the reservation, then its ledger row; any failure undoes all three. */
    method DebitReservation(rid: string, user: string, requestId: string, amount: int, now: int)
      returns (r: Result<Handle>)
      requires ValidIdentifier(user) && ValidIdentifier(requestId) && amount >= 1
      requires !RequestUsed(reservations, requestId)
      modifies this
      ensures var eff := Ledger.Reserve(old(View()), rid, user, requestId, amount, now);
              && View() == eff.db
              && (r.Ok? <==> eff.result.Ok?)
              && (r.Err? ==> r.error == eff.result.error)
              && (r.Ok? ==> fresh(r.value) && r.value.id == rid && rid in reservations && eff.result.value == rid &&
                            r.value.Mirrors(reservations[rid]))
    {
      var savedAccounts, savedReservations := accounts, reservations;
      var updated := user in accounts && accounts[user] - amount >= 0;
      if updated {
        accounts := accounts[user := accounts[user] - amount];
      } else {
        return Err(InsufficientCredits);
      }
      if rid in reservations {
        accounts := savedAccounts;
        return Err(ConstraintViolation);
      }
      var row := Reservation(user, requestId, amount, 0, 0, Reserved, now);
      reservations := reservations[rid := row];
      var ok := InsertEntry(ReserveEntry(rid, user, requestId, amount));
      if !ok {
        accounts, reservations := savedAccounts, savedReservations;
        return Err(ConstraintViolation);
      }
      var h := new Handle(rid, row);
      return Ok(h);
    }

    /** The caller's struct decides nothing but which row is closed; on success it mirrors that row. */
    method Settle(h: Handle?, lid: string, captured: int) returns (r: Result<()>)
      requires Valid()
      modifies this, h
      ensures h == null ==> r == Err(ReservationNotFound) && View() == old(View())
      ensures h != null ==> Effect(r, View()) == Ledger.Settle(old(View()), lid, old(h.id), captured)
      ensures h != null ==> h.id == old(h.id)
      ensures h != null && r.Ok? ==> h.id in reservations && h.Mirrors(reservations[h.id])
      ensures Valid()
    {
      if h == null {
        return Err(ReservationNotFound);
      }
      r := FinalizeHandle(h, lid, captured, false);
    }

    method Release(h: Handle?, lid: string) returns (r: Result<()>)
      requires Valid()
      modifies this, h
      ensures h == null ==> r == Err(ReservationNotFound) && View() == old(View())
      ensures h != null ==> Effect(r, View()) == Ledger.Release(old(View()), lid, old(h.id))
      ensures h != null ==> h.id == old(h.id)
      ensures h != null && r.Ok? ==> h.id in reservations && h.Mirrors(reservations[h.id])
      ensures Valid()
    {
      if h == null {
        return Err(ReservationNotFound);
      }
      r := FinalizeHandle(h, lid, 0, true);
    }

    /** One ledger row and the matching bare UPDATE of the balance. */
    method WriteReturn(e: Entry) returns (ok: bool)
      requires Valid()
      modifies this`ledger, this`accounts
      ensures ok <==> Insertable(old(ledger), e)
      ensures ledger == if ok then old(ledger) + [e] else old(ledger)
      ensures accounts == if ok then Bump(old(accounts), e.user, e.amount) else old(accounts)
      ensures Valid()
    {
      AppendConstrainedIf(e);
      ok := InsertEntry(e);
      if ok && e.user in accounts {
        accounts := accounts[e.user := accounts[e.user] + e.amount];
      }
    }

    method FinalizeHandle(h: Handle, lid: string, captured: int, releaseAll: bool) returns (r: Result<()>)
      requires Valid()
      modifies this, h
      ensures Effect(r, View()) == Ledger.Finalize(old(View()), lid, old(h.id), captured, releaseAll)
      ensures h.id == old(h.id)
      ensures r.Ok? ==> h.id in reservations && h.Mirrors(reservations[h.id])
      ensures r.Err? ==> h.captured == old(h.captured) && h.released == old(h.released)
      ensures r.Err? && r.error != ConstraintViolation ==> unchanged(h)
      ensures Valid()
    {
      if !releaseAll && captured < 0 {
        return Err(InvalidArgument);
      }
      if h.id !in reservations {
        return Err(ReservationNotFound);
      }
      var row := reservations[h.id];
      if row.status != Reserved {
        return Err(ReservationClosed);
      }
      h.amount, h.user, h.status := row.amount, row.user, row.status;
      var out := Decide(row, captured, releaseAll);
      if out.adjust != 0 {
        var ok := WriteReturn(ReturnEntry(lid, h.id, h.user, out.adjust, out.kind, out.source));
        if !ok {
          return Err(ConstraintViolation);
        }
      }
      reservations := reservations[h.id := row.(captured := captured, released := out.returned, status := out.status)];
      h.captured, h.released, h.status := captured, out.returned, out.status;
      return Ok(());
    }

    // ---- reconcile.go -------------------------------------------------------------------

    method Expire(st: Stale, lid: string) returns (r: Result<()>)
      requires Valid()
      modifies this
      ensures Effect(r, View()) == Ledger.ExpireOne(old(View()), lid, st)
      ensures Valid()
    {
      if st.rid !in reservations || reservations[st.rid].status != Reserved {
        return Ok(());
      }
      var saved := reservations;
      reservations := reservations[st.rid := reservations[st.rid].(status := Expired)];
      var e := ReturnEntry(lid, st.rid, st.user, st.amount, KRelease, "reconcile");
      assert UniqueRequests(reservations);
      var ok := WriteReturn(e);
      if !ok {
        reservations := saved;
        return Err(ConstraintViolation);
      }
      return Ok(());
    }

    /** The stale rows, collected one by one in whatever order the query yields them. */
    method CollectStale(cutoff: int) returns (stales: seq<Stale>)
      ensures IsSnapshot(View(), cutoff, stales)
      ensures forall i :: 0 <= i < |stales| ==>
                && stales[i].rid in reservations
                && reservations[stales[i].rid].status == Reserved && reservations[stales[i].rid].createdAt < cutoff
      ensures forall q ::
                (q in reservations && reservations[q].status == Reserved && reservations[q].createdAt < cutoff) ==>
                exists i :: 0 <= i < |stales| && stales[i].rid == q
    {
      stales := [];
      var pending := set r | r in reservations && IsStale(reservations[r], cutoff);
      ghost var all := pending;
      while pending != {}
        invariant pending <= all
        invariant forall i :: 0 <= i < |stales| ==>
                    && stales[i].rid in all - pending
                    && stales[i].user == reservations[stales[i].rid].user
                    && stales[i].amount == reservations[stales[i].rid].amount
        invariant forall i, j :: 0 <= i < j < |stales| ==> stales[i].rid != stales[j].rid
        invariant forall r :: r in all - pending ==> exists i :: 0 <= i < |stales| && stales[i].rid == r
      {
        var r :| r in pending;
        ghost var seen, rest := stales, pending;
        stales := stales + [Stale(r, reservations[r].user, reservations[r].amount)];
        pending := pending - {r};
        forall q | q in all - pending ensures exists i :: 0 <= i < |stales| && stales[i].rid == q {
          if q == r {
            assert stales[|seen|].rid == q;
          } else {
            assert q in all - rest;
            var i :| 0 <= i < |seen| && seen[i].rid == q;
            assert stales[i].rid == q;
          }
        }
      }
      forall r | r in reservations && IsStale(reservations[r], cutoff)
        ensures exists i :: 0 <= i < |stales| && stales[i].rid == r
      {
        assert r in all - pending;
      }
    }

    method ExpireStale(cutoff: int, ids: nat -> string) returns (r: Result<()>, ghost stales: seq<Stale>)
      requires Valid()
      modifies this
      ensures IsSnapshot(old(View()), cutoff, stales)
      ensures Effect(r, View()) == Sweep(old(View()), stales, ids, 0)
      ensures Valid()
    {
      var list := CollectStale(cutoff);
      stales := list;
      var i := 0;
      while i < |list|
        invariant 0 <= i <= |list| && Valid()
        invariant Sweep(View(), list, ids, i) == Sweep(old(View()), list, ids, 0)
      {
        r := Expire(list[i], ids(i));
        if r.Err? {
          return;
        }
        i := i + 1;
      }
      r := Ok(());
    }

    /** Compares every known user's balance with the ledger and repairs nothing. */
    method DetectDrift() returns (out: seq<Mismatch>)
      ensures ReportsExactly(View(), out)
    {
      out := [];
      var users := accounts.Keys + set i | 0 <= i < |ledger| :: ledger[i].user;
      ghost var all := users;
      while users != {}
        invariant users <= all && ReportsSeen(View(), all - users, out)
      {
        var u :| u in users;
        ReportsNext(View(), all - users, out, u);
        var balance := GetBalance(u);
        var sum := Total(ledger, ByUser(u));
        if balance != sum {
          out := out + [Mismatch(u, sum, balance)];
        }
        assert all - users + {u} == all - (users - {u});
        users := users - {u};
      }
      assert all - users == all;
      ReportsAll(View(), all, out);
    }

    /**
     Expires stale reservations and then reports drift. When every open reservation's user
     has an account row, nobody's drift changes; the report is exact in any case.
     */
    method Reconcile(now: int, timeout: int, ids: nat -> string) returns (r: Result<seq<Mismatch>>)
      requires Valid()
      modifies this
      ensures r.Ok? ==> ReportsExactly(View(), r.value)
      ensures OpenAnchored(old(View())) ==> forall u :: Drift(View(), u) == Drift(old(View()), u)
      ensures ExpiresExactly(old(reservations), reservations, now - timeout, FreshSupply(old(ledger), ids, 0))
      ensures FreshSupply(old(ledger), ids, 0) ==> r.Ok?
      ensures Valid()
    {
      ghost var before := View();
      var done, stales := ExpireStale(now - timeout, ids);
      SweepColumns(before, now - timeout, stales, ids);
      if OpenAnchored(before) {
        SweepDrift(before, now - timeout, stales, ids);
      }
      if done.Err? {
        return Err(done.error);
      }
      var out := DetectDrift();
      return Ok(out);
    }
  }
}
