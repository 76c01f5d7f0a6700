/**
 Maintenance over the credit tables: the expiry sweep run on its own, and balance drift.
 Nothing here assumes that the tables are healthy.
 */
module Reconciliation {
  import opened Basics
  import opened Ledger
  import opened Invariants
  import Runs

  /** Difference between the cached balance and the ledger. */
  function Drift(db: Db, u: string): int { Balance(db, u) - Total(db.ledger, ByUser(u)) }

  datatype Mismatch = Mismatch(user: string, ledgerSum: int, balance: int)

  /** The report names exactly the users whose balance drifted, each once, with both figures. */
  ghost predicate ReportsExactly(db: Db, out: seq<Mismatch>) {
    && (forall i :: 0 <= i < |out| ==>
          && out[i].balance == Balance(db, out[i].user)
          && out[i].ledgerSum == Total(db.ledger, ByUser(out[i].user))
          && Drift(db, out[i].user) != 0)
    && (forall i, j :: 0 <= i < j < |out| ==> out[i].user != out[j].user)
    && (forall u :: Drift(db, u) != 0 ==> exists i :: 0 <= i < |out| && out[i].user == u)
  }

  predicate Reported(out: seq<Mismatch>, u: string) { exists i :: 0 <= i < |out| && out[i].user == u }

  /** The report names exactly the drifting users among those seen so far, each once. */
  ghost predicate ReportsSeen(db: Db, seen: set<string>, out: seq<Mismatch>) {
    && (forall i :: 0 <= i < |out| ==>
          && out[i].user in seen
          && out[i].balance == Balance(db, out[i].user)
          && out[i].ledgerSum == Total(db.ledger, ByUser(out[i].user))
          && Drift(db, out[i].user) != 0)
    && (forall i, j :: 0 <= i < j < |out| ==> out[i].user != out[j].user)
    && (forall u :: u in seen && Drift(db, u) != 0 ==> Reported(out, u))
  }

  lemma ReportsNext(db: Db, seen: set<string>, out: seq<Mismatch>, u: string)
    requires ReportsSeen(db, seen, out) && u !in seen
    ensures var sum, balance := Total(db.ledger, ByUser(u)), Balance(db, u);
            ReportsSeen(db, seen + {u}, if balance != sum then out + [Mismatch(u, sum, balance)] else out)
  {
    var sum, balance := Total(db.ledger, ByUser(u)), Balance(db, u);
    if balance != sum {
      var out' := out + [Mismatch(u, sum, balance)];
      assert out'[|out|].user == u;
      forall v | v in seen + {u} && Drift(db, v) != 0 ensures Reported(out', v) {
        if v != u {
          var i :| 0 <= i < |out| && out[i].user == v;
          assert out'[i].user == v;
        }
      }
    }
  }

  /** Users without account row and without ledger rows have not drifted, so a report on the others is complete. */
  lemma ReportsAll(db: Db, seen: set<string>, out: seq<Mismatch>)
    requires ReportsSeen(db, seen, out)
    requires db.accounts.Keys <= seen && forall i :: 0 <= i < |db.ledger| ==> db.ledger[i].user in seen
    ensures ReportsExactly(db, out)
  {
    forall u | u !in seen ensures Drift(db, u) == 0 {
      TotalOfNone(db.ledger, ByUser(u));
    }
    forall u | Drift(db, u) != 0 ensures exists i :: 0 <= i < |out| && out[i].user == u {
      assert Reported(out, u);
    }
  }

  /** The expiry loop from entry `k` on; entry `i` draws the ledger id `ids(i)`. */
  function Sweep(db: Db, stales: seq<Stale>, ids: nat -> string, k: nat): Effect<()>
    requires k <= |stales|
    decreases |stales| - k
  {
    if k == |stales| then Effect(Ok(()), db)
    else
      var eff := ExpireOne(db, ids(k), stales[k]);
      if eff.result.Err? then eff else Sweep(eff.db, stales, ids, k + 1)
  }

  /**
   What the query of a sweep returns, on the columns: every open reservation made before the
   cutoff, each once, with its user and amount, and no other.
   */
  lemma SnapshotMeans(db: Db, cutoff: int, stales: seq<Stale>)
    ensures IsSnapshot(db, cutoff, stales) <==>
            && (forall i :: 0 <= i < |stales| ==>
                  && stales[i].rid in db.reservations
                  && db.reservations[stales[i].rid].status == Reserved
                  && db.reservations[stales[i].rid].createdAt < cutoff
                  && db.reservations[stales[i].rid].user == stales[i].user
                  && db.reservations[stales[i].rid].amount == stales[i].amount)
            && (forall i, j :: 0 <= i < j < |stales| ==> stales[i].rid != stales[j].rid)
            && (forall r ::
                  (r in db.reservations && db.reservations[r].status == Reserved &&
                   db.reservations[r].createdAt < cutoff) ==>
                  exists i :: 0 <= i < |stales| && stales[i].rid == r)
  {
  }

  /** A failed expiry ends the sweep: its error is reported and nothing more is done; otherwise the sweep goes on. */
  lemma SweepStops(db: Db, stales: seq<Stale>, ids: nat -> string, k: nat)
    requires k < |stales|
    ensures IdUsed(db.ledger, ids(k)) && stales[k].rid in db.reservations &&
            db.reservations[stales[k].rid].status == Reserved ==>
              Sweep(db, stales, ids, k) == Effect(Err(ConstraintViolation), db)
    ensures !IdUsed(db.ledger, ids(k)) || stales[k].rid !in db.reservations ||
            db.reservations[stales[k].rid].status != Reserved ==>
              Sweep(db, stales, ids, k) == Sweep(ExpireOne(db, ids(k), stales[k]).db, stales, ids, k + 1)
  {
  }

  lemma {:induction false} SweepKeys(db: Db, stales: seq<Stale>, ids: nat -> string, k: nat)
    requires k <= |stales|
    ensures Sweep(db, stales, ids, k).db.reservations.Keys == db.reservations.Keys
    decreases |stales| - k
  {
    if k < |stales| {
      SweepKeys(ExpireOne(db, ids(k), stales[k]).db, stales, ids, k + 1);
    }
  }

  /** A sweep, complete or not, changes no reservation that is not on its list. */
  lemma {:induction false} SweepLeavesOthers(db: Db, stales: seq<Stale>, ids: nat -> string, k: nat, r: string)
    requires k <= |stales| && r in db.reservations && forall i :: k <= i < |stales| ==> stales[i].rid != r
    ensures var rows := Sweep(db, stales, ids, k).db.reservations;
            rows.Keys == db.reservations.Keys && rows[r] == db.reservations[r]
    decreases |stales| - k
  {
    if k < |stales| {
      SweepLeavesOthers(ExpireOne(db, ids(k), stales[k]).db, stales, ids, k + 1, r);
    }
  }

  /** Ledger ids drawn from `k` on are unused and never repeat. */
  ghost predicate FreshSupply(ledger: seq<Entry>, ids: nat -> string, k: nat) {
    && (forall i: nat :: k <= i ==> !IdUsed(ledger, ids(i)))
    && (forall i: nat, j: nat :: k <= i && k <= j && ids(i) == ids(j) ==> i == j)
  }

  function Close(row: Reservation, cutoff: int): Reservation {
    if IsStale(row, cutoff) then row.(status := Expired) else row
  }

  /** The reservations listed from `k` on are still open in `db`; all other stale ones are already expired. */
  ghost predicate Halfway(orig: Db, cutoff: int, stales: seq<Stale>, k: nat, db: Db)
    requires k <= |stales|
  {
    && db.reservations.Keys == orig.reservations.Keys
    && (forall i :: k <= i < |stales| ==>
          stales[i].rid in orig.reservations && db.reservations[stales[i].rid] == orig.reservations[stales[i].rid])
    && (forall r :: r in orig.reservations && (forall i :: k <= i < |stales| ==> stales[i].rid != r) ==>
          db.reservations[r] == Close(orig.reservations[r], cutoff))
  }

  lemma {:induction false} SweepFrom(orig: Db, cutoff: int, stales: seq<Stale>, ids: nat -> string, k: nat, db: Db)
    requires k <= |stales| && IsSnapshot(orig, cutoff, stales) && Halfway(orig, cutoff, stales, k, db)
    requires FreshSupply(db.ledger, ids, k)
    ensures Sweep(db, stales, ids, k).result.Ok?
    ensures Halfway(orig, cutoff, stales, |stales|, Sweep(db, stales, ids, k).db)
    decreases |stales| - k
  {
    if k < |stales| {
      var eff := ExpireOne(db, ids(k), stales[k]);
      assert db.reservations[stales[k].rid].status == Reserved;
      assert eff.result.Ok? && FreshSupply(eff.db.ledger, ids, k + 1) by {
        assert eff.db.ledger == db.ledger +
               [ReturnEntry(ids(k), stales[k].rid, stales[k].user, stales[k].amount, KRelease, "reconcile")];
      }
      SweepFrom(orig, cutoff, stales, ids, k + 1, eff.db);
    }
  }

  /**
   Run on its own, the sweep closes exactly the reservations that were reserved and older
   than the cutoff, and touches no other, on any tables at all.
   */
  lemma SweepClosesExactlyStale(db: Db, cutoff: int, stales: seq<Stale>, ids: nat -> string)
    requires IsSnapshot(db, cutoff, stales) && FreshSupply(db.ledger, ids, 0)
    ensures Sweep(db, stales, ids, 0).result.Ok?
    ensures Sweep(db, stales, ids, 0).db.reservations
         == map r | r in db.reservations :: Close(db.reservations[r], cutoff)
  {
    SweepFrom(db, cutoff, stales, ids, 0, db);
    assert Halfway(db, cutoff, stales, |stales|, Sweep(db, stales, ids, 0).db);
  }

  /** Expiring moves balance and ledger together exactly when the user has an account row to credit. */
  lemma ExpiryDrift(db: Db, lid: string, st: Stale)
    requires ExpireOne(db, lid, st).db != db
    ensures var db' := ExpireOne(db, lid, st).db;
            (forall u :: Drift(db', u) == Drift(db, u)) <==> st.user in db.accounts || st.amount == 0
  {
    var db' := ExpireOne(db, lid, st).db;
    var e := ReturnEntry(lid, st.rid, st.user, st.amount, KRelease, "reconcile");
    forall u ensures Drift(db', u) == Drift(db, u) - if u == st.user && u !in db.accounts then st.amount else 0 {
      TotalAppend(db.ledger, e, ByUser(u));
    }
    assert Drift(db', st.user) == Drift(db, st.user) - if st.user !in db.accounts then st.amount else 0;
  }

  ghost predicate CanRepay(db: Db, stales: seq<Stale>, k: nat) {
    forall i :: k <= i < |stales| ==> stales[i].user in db.accounts
  }

  /** A sweep whose users all have account rows changes nobody's drift, whether or not it completes. */
  lemma {:induction false} SweepKeepsDrift(db: Db, stales: seq<Stale>, ids: nat -> string, k: nat, u: string)
    requires k <= |stales| && CanRepay(db, stales, k)
    ensures Drift(Sweep(db, stales, ids, k).db, u) == Drift(db, u)
    decreases |stales| - k
  {
    if k < |stales| {
      var eff := ExpireOne(db, ids(k), stales[k]);
      if eff.db != db {
        ExpiryDrift(db, ids(k), stales[k]);
      }
      assert stales[k].user in db.accounts;
      assert eff.db.accounts.Keys == db.accounts.Keys;
      if eff.result.Ok? {
        SweepKeepsDrift(eff.db, stales, ids, k + 1, u);
      }
    }
  }

  /** Every open reservation belongs to a user with an account row. */
  ghost predicate OpenAnchored(db: Db) {
    forall q :: q in db.reservations && db.reservations[q].status == Reserved ==> db.reservations[q].user in db.accounts
  }

  /** What a sweep does to the reservations, on the columns: it expires those made before the cutoff, and only those. */
  ghost predicate ExpiresExactly(rows: map<string, Reservation>, rows': map<string, Reservation>, cutoff: int,
                                 complete: bool) {
    && rows'.Keys == rows.Keys
    && forall q :: q in rows ==>
         && (rows[q].status != Reserved || rows[q].createdAt >= cutoff ==> rows'[q] == rows[q])
         && (rows[q].status == Reserved && rows[q].createdAt < cutoff && complete ==>
             rows'[q] == rows[q].(status := Expired))
  }

  lemma SweepColumns(db: Db, cutoff: int, stales: seq<Stale>, ids: nat -> string)
    requires IsSnapshot(db, cutoff, stales)
    ensures ExpiresExactly(db.reservations, Sweep(db, stales, ids, 0).db.reservations, cutoff,
                           FreshSupply(db.ledger, ids, 0))
    ensures FreshSupply(db.ledger, ids, 0) ==> Sweep(db, stales, ids, 0).result.Ok?
  {
    SweepKeys(db, stales, ids, 0);
    forall q | q in db.reservations && !IsStale(db.reservations[q], cutoff)
      ensures Sweep(db, stales, ids, 0).db.reservations[q] == db.reservations[q]
    {
      SweepLeavesOthers(db, stales, ids, 0, q);
    }
    if FreshSupply(db.ledger, ids, 0) {
      SweepClosesExactlyStale(db, cutoff, stales, ids);
    }
  }

  lemma SweepDrift(db: Db, cutoff: int, stales: seq<Stale>, ids: nat -> string)
    requires IsSnapshot(db, cutoff, stales) && OpenAnchored(db)
    ensures forall u :: Drift(Sweep(db, stales, ids, 0).db, u) == Drift(db, u)
  {
    forall u ensures Drift(Sweep(db, stales, ids, 0).db, u) == Drift(db, u) {
      SweepKeepsDrift(db, stales, ids, 0, u);
    }
  }

  /** A reachable state never drifts, so a report on it is empty. */
  lemma ReachableReportEmpty(steps: seq<Runs.Step>, out: seq<Mismatch>)
    requires ReportsExactly(Runs.Run(Runs.INIT, steps).db, out)
    ensures out == []
  {
    if out != [] {
      Runs.ReachableBalances(steps, out[0].user);
    }
  }
}
