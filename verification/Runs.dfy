/**
 Runs of the credit engine: any interleaving of transactions by any number of clients,
 with maintenance sweeps that remember rows between their query and their updates, and
 that may be abandoned at any point.
 */
module Runs {
  import opened Basics
  import opened Ledger
  import opened Invariants
  import Int64

  /** The tables, and for each maintenance sweep in progress the stale rows it still has to expire. */
  datatype Sys = Sys(db: Db, sweeps: map<nat, seq<Stale>>)

  const INIT := Sys(EMPTY, map[])

  datatype Step =
    | Grant(id: string, user: string, amount: int, source: string, reason: string, key: string)
    | Refund(id: string, user: string, amount: int, source: string, reason: string, key: string)
    | Reserve(rid: string, user: string, requestId: string, amount: int, now: int)
    | Settle(lid: string, rid: string, captured: int)
    | Release(lid: string, rid: string)
    | Snapshot(sweep: nat, cutoff: int, stales: seq<Stale>)
    | ExpireNext(sweep: nat, lid: string)
    | Abandon(sweep: nat)

  ghost function Apply(s: Sys, step: Step): Sys {
    match step
    case Grant(id, user, amount, source, reason, key) =>
      s.(db := Ledger.Grant(s.db, id, user, amount, source, reason, key).db)
    case Refund(id, user, amount, source, reason, key) =>
      s.(db := Ledger.Refund(s.db, id, user, amount, source, reason, key).db)
    case Reserve(rid, user, requestId, amount, now) =>
      s.(db := Ledger.Reserve(s.db, rid, user, requestId, amount, now).db)
    case Settle(lid, rid, captured) =>
      s.(db := Ledger.Settle(s.db, lid, rid, captured).db)
    case Release(lid, rid) =>
      s.(db := Ledger.Release(s.db, lid, rid).db)
    case Snapshot(w, cutoff, stales) =>
      if IsSnapshot(s.db, cutoff, stales) then s.(sweeps := s.sweeps[w := stales]) else s
    case ExpireNext(w, lid) =>
      if w !in s.sweeps || s.sweeps[w] == [] then s
      else
        var eff := ExpireOne(s.db, lid, s.sweeps[w][0]);
        // A failed transaction ends the sweep.
        Sys(eff.db, if eff.result.Ok? then s.sweeps[w := s.sweeps[w][1..]] else s.sweeps - {w})
    case Abandon(w) =>
      s.(sweeps := s.sweeps - {w})
  }

  ghost function Run(s: Sys, steps: seq<Step>): Sys
    decreases |steps|
  {
    if steps == [] then s else Run(Apply(s, steps[0]), steps[1..])
  }

  ghost predicate Remembered(s: Sys) {
    forall w, i :: w in s.sweeps && 0 <= i < |s.sweeps[w]| ==> Faithful(s.db, s.sweeps[w][i])
  }

  ghost predicate SysInv(s: Sys) { Inv(s.db) && Remembered(s) }

  lemma PreservesTransitive(a: Db, b: Db, c: Db)
    requires Preserves(a, b) && Preserves(b, c)
    ensures Preserves(a, c)
  {
    forall r | r in a.reservations
      ensures r in c.reservations
      ensures a.reservations[r].status != Reserved ==> a.reservations[r] == c.reservations[r]
    {
      assert r in b.reservations;
    }
  }

  /** Every transaction keeps the money invariant and never reopens or edits a closed reservation. */
  lemma StepKeepsDb(s: Sys, step: Step)
    requires SysInv(s)
    ensures Inv(Apply(s, step).db) && Preserves(s.db, Apply(s, step).db)
  {
    match step
    case Grant(id, user, amount, source, reason, key) =>
      AdjustKeeps(s.db, GrantEntry(id, user, amount, source, reason, key));
    case Refund(id, user, amount, source, reason, key) =>
      AdjustKeeps(s.db, RefundEntry(id, user, amount, source, reason, key));
    case Reserve(rid, user, requestId, amount, now) =>
      ReserveKeeps(s.db, rid, user, requestId, amount, now);
    case Settle(lid, rid, captured) =>
      FinalizeKeeps(s.db, lid, rid, captured, false);
    case Release(lid, rid) =>
      FinalizeKeeps(s.db, lid, rid, 0, true);
    case ExpireNext(w, lid) =>
      if w in s.sweeps && s.sweeps[w] != [] {
        ExpireOneKeeps(s.db, lid, s.sweeps[w][0]);
      }
    case _ =>
  }

  lemma StepKeeps(s: Sys, step: Step)
    requires SysInv(s)
    ensures SysInv(Apply(s, step)) && Preserves(s.db, Apply(s, step).db)
  {
    StepKeepsDb(s, step);
    var s' := Apply(s, step);
    forall w, i | w in s'.sweeps && 0 <= i < |s'.sweeps[w]| ensures Faithful(s'.db, s'.sweeps[w][i]) {
      if step.Snapshot? && w == step.sweep && IsSnapshot(s.db, step.cutoff, step.stales) {
      } else if step.ExpireNext? && w == step.sweep && s.sweeps[w] != [] {
        assert s'.sweeps[w][i] == s.sweeps[w][i + 1];
      } else {
        assert s'.sweeps[w] == s.sweeps[w];
      }
    }
  }

  lemma {:induction false} RunKeeps(s: Sys, steps: seq<Step>)
    requires SysInv(s)
    ensures SysInv(Run(s, steps)) && Preserves(s.db, Run(s, steps).db)
    decreases |steps|
  {
    if steps != [] {
      StepKeeps(s, steps[0]);
      RunKeeps(Apply(s, steps[0]), steps[1..]);
      PreservesTransitive(s.db, Apply(s, steps[0]).db, Run(s, steps).db);
    }
  }

  lemma {:induction false} RunConcat(s: Sys, a: seq<Step>, b: seq<Step>)
    ensures Run(s, a + b) == Run(Run(s, a), b)
    decreases |a|
  {
    if a == [] {
      assert a + b == b;
    } else {
      assert (a + b)[1..] == a[1..] + b;
      RunConcat(Apply(s, a[0]), a[1..], b);
    }
  }

  /** The idempotency key of the ledger row that a step may write. */
  function KeyOf(step: Step): Option<string> {
    match step
    case Grant(_, _, _, _, _, key) => Some(key)
    case Refund(_, _, _, _, _, key) => Some(key)
    case Reserve(_, _, requestId, _, _) => Some(ReserveKey(requestId))
    case _ => None
  }

  /** The ledger is append-only: a step writes at most one row, at the end, under its own key. */
  lemma StepAppends(s: Sys, step: Step)
    ensures var l, l' := s.db.ledger, Apply(s, step).db.ledger;
            l' == l || (l' == l + [l'[|l'| - 1]] && l'[|l'| - 1].key == KeyOf(step))
  {
  }

  // ---- Main results over every run ------------------------------------------------------

  /**
   In every reachable state each balance equals the user's ledger sum, and equals grants
   less refunds less what is reserved less what was captured; and every user named by a
   ledger row or a reservation has an account row.
   */
  lemma ReachableBalances(steps: seq<Step>, u: string)
    ensures var db := Run(INIT, steps).db;
            && Balance(db, u) == Total(db.ledger, ByUser(u))
            && Balance(db, u) ==
               Total(db.ledger, GrantsOf(u)) + Total(db.ledger, RefundsOf(u)) - HeldBy(db.reservations, u)
            && Anchored(db)
  {
    EmptyInv();
    RunKeeps(INIT, steps);
    var db := Run(INIT, steps).db;
    assert BalancedFor(db, u) && ExplainedFor(db, u);
  }

  /**
   Per-reservation conservation: in every reachable state the ledger rows that reference
   a reservation belong to its user and sum to minus the amount while reserved, minus the
   captured amount (overage included) once captured, and zero once released or expired.
   */
  lemma ReachableConservation(steps: seq<Step>, r: string)
    requires r in Run(INIT, steps).db.reservations
    ensures var db := Run(INIT, steps).db;
            var row := db.reservations[r];
            && Total(db.ledger, ByReference(r)) ==
                 (match row.status case Reserved => -row.amount case Captured => -row.captured case _ => 0)
            && (forall i :: 0 <= i < |db.ledger| && db.ledger[i].reference == Some(r) ==> db.ledger[i].user == row.user)
            && CoherentRow(row)
  {
    EmptyInv();
    RunKeeps(INIT, steps);
  }

  /** Across any run a reservation keeps its user, request and amount, and once closed never changes again. */
  lemma ClosedForever(before: seq<Step>, after: seq<Step>, r: string)
    requires r in Run(INIT, before).db.reservations
    ensures var a := Run(INIT, before).db.reservations[r];
            && r in Run(INIT, before + after).db.reservations
            && var b := Run(INIT, before + after).db.reservations[r];
               && a.user == b.user && a.requestId == b.requestId && a.amount == b.amount
               && (a.status != Reserved ==> a == b)
  {
    EmptyInv();
    RunKeeps(INIT, before);
    RunKeeps(Run(INIT, before), after);
    RunConcat(INIT, before, after);
  }

  /** No idempotency key and no ledger id ever occurs on two rows. */
  lemma ReachableKeysUnique(steps: seq<Step>, i: nat, j: nat)
    requires i < |Run(INIT, steps).db.ledger| && j < |Run(INIT, steps).db.ledger|
    ensures var l := Run(INIT, steps).db.ledger;
            && (l[i].key.Some? && l[i].key == l[j].key ==> i == j)
            && (l[i].id == l[j].id ==> i == j)
  {
    EmptyInv();
    RunKeeps(INIT, steps);
  }

  /**
   The snapshot that a sweep takes is safe to act on however much later: whatever
   transactions ran since, expiring an entry either changes nothing, or closes that very
   reservation, paying back exactly its own amount to its own user and to nobody else.
   It changes nothing exactly when the reservation was closed meanwhile (or the id drawn
   for the ledger row is taken).
   */
  lemma SnapshotSafe(before: seq<Step>, cutoff: int, stales: seq<Stale>, since: seq<Step>, i: nat, lid: string)
    requires IsSnapshot(Run(INIT, before).db, cutoff, stales) && i < |stales|
    ensures var db := Run(INIT, before + since).db;
            var db' := ExpireOne(db, lid, stales[i]).db;
            var r := stales[i].rid;
            && r in db.reservations
            && var row := db.reservations[r];
               && (db' == db <==> row.status != Reserved || IdUsed(db.ledger, lid))
               && (db' != db ==>
                     && db'.reservations == db.reservations[r := row.(status := Expired)]
                     && (forall u :: Balance(db', u) == Balance(db, u) + if u == row.user then row.amount else 0)
                     && Total(db'.ledger, ByReference(r)) == 0
                     && Inv(db'))
  {
    EmptyInv();
    RunKeeps(INIT, before);
    RunKeeps(Run(INIT, before), since);
    RunConcat(INIT, before, since);
    var db := Run(INIT, before + since).db;
    assert Faithful(Run(INIT, before).db, stales[i]);
    ExpireOneKeeps(db, lid, stales[i]);
  }

  // ---- Reserve --------------------------------------------------------------------------

  /** Every reservation names a proper user and request. */
  ghost predicate Named(rows: map<string, Reservation>) {
    forall r :: r in rows ==> ValidIdentifier(rows[r].user) && ValidIdentifier(rows[r].requestId)
  }

  lemma ReserveNamed(db: Db, rid: string, user: string, requestId: string, amount: int, now: int)
    requires Named(db.reservations)
    ensures Named(Ledger.Reserve(db, rid, user, requestId, amount, now).db.reservations)
  {
  }

  /** Only a reserve adds a reservation, and nothing renames one. */
  lemma SameNames(s: Sys, step: Step)
    requires !step.Reserve?
    ensures var rows, rows' := s.db.reservations, Apply(s, step).db.reservations;
            && rows'.Keys == rows.Keys
            && forall r :: r in rows ==> rows'[r].user == rows[r].user && rows'[r].requestId == rows[r].requestId
  {
  }

  /** A step changes users and requests of no reservation, and adds only reservations with proper ones. */
  lemma StepNamed(s: Sys, step: Step)
    requires Named(s.db.reservations)
    ensures Named(Apply(s, step).db.reservations)
  {
    if step.Reserve? {
      ReserveNamed(s.db, step.rid, step.user, step.requestId, step.amount, step.now);
    } else {
      SameNames(s, step);
    }
  }

  lemma {:induction false} RunNamed(s: Sys, steps: seq<Step>)
    requires Named(s.db.reservations)
    ensures Named(Run(s, steps).db.reservations)
    decreases |steps|
  {
    if steps != [] {
      StepNamed(s, steps[0]);
      RunNamed(Apply(s, steps[0]), steps[1..]);
    }
  }

  /**
   Once a request has a reservation, repeating the request for the same user returns that
   reservation and changes nothing, after any further transactions and for any amount; an
   amount below 1 is refused and changes nothing either.
   */
  lemma RepeatNeverDebits(before: seq<Step>, after: seq<Step>, r: string, rid: string, amount: int, now: int)
    requires r in Run(INIT, before).db.reservations
    ensures var row := Run(INIT, before).db.reservations[r];
            var db := Run(INIT, before + after).db;
            Ledger.Reserve(db, rid, row.user, row.requestId, amount, now) ==
            Effect(if amount >= 1 then Ok(r) else Err(InvalidArgument), db)
  {
    ClosedForever(before, after, r);
    EmptyInv();
    RunKeeps(INIT, before + after);
    RunNamed(INIT, before);
    var row := Run(INIT, before).db.reservations[r];
    var db := Run(INIT, before + after).db;
    assert RequestUsed(db.reservations, row.requestId);
  }

  /** A reserve attempt by one client: the id it drew and the request it serves. */
  datatype Attempt = Attempt(rid: string, requestId: string)

  /** The attempts use identifiers nobody has used, each its own. */
  ghost predicate FreshAttempts(db: Db, attempts: seq<Attempt>) {
    && (forall i :: 0 <= i < |attempts| ==>
          && ValidIdentifier(attempts[i].requestId)
          && !RequestUsed(db.reservations, attempts[i].requestId)
          && attempts[i].rid !in db.reservations
          && !IdUsed(db.ledger, attempts[i].rid + "-x")
          && !KeyUsed(db.ledger, ReserveKey(attempts[i].requestId)))
    && (forall i, j :: 0 <= i < j < |attempts| ==>
          attempts[i].rid != attempts[j].rid && attempts[i].requestId != attempts[j].requestId)
  }

  /** Number of successful attempts, and the tables after serving them in the given order. */
  ghost function Serve(db: Db, user: string, amount: int, now: int, attempts: seq<Attempt>): (nat, Db)
    decreases |attempts|
  {
    if attempts == [] then (0, db)
    else
      var eff := Ledger.Reserve(db, attempts[0].rid, user, attempts[0].requestId, amount, now);
      var rest := Serve(eff.db, user, amount, now, attempts[1..]);
      (rest.0 + if eff.result.Ok? then 1 else 0, rest.1)
  }

  /** Ledger ids and keys of distinct reservations are distinct. */
  lemma DistinctDerived(rid: string, rid': string, requestId: string, requestId': string)
    ensures rid + "-x" == rid' + "-x" ==> rid == rid'
    ensures ReserveKey(requestId) == ReserveKey(requestId') ==> requestId == requestId'
  {
    if rid + "-x" == rid' + "-x" {
      assert rid == (rid + "-x")[..|rid|] && rid' == (rid' + "-x")[..|rid'|];
    }
    if ReserveKey(requestId) == ReserveKey(requestId') {
      CancelPrefix("resv:", requestId, requestId');
    }
  }

  lemma FreshAfterReserve(db: Db, user: string, amount: int, now: int, attempts: seq<Attempt>)
    requires attempts != [] && FreshAttempts(db, attempts)
    ensures FreshAttempts(Ledger.Reserve(db, attempts[0].rid, user, attempts[0].requestId, amount, now).db,
                          attempts[1..])
  {
    var a := attempts[0];
    var db' := Ledger.Reserve(db, a.rid, user, a.requestId, amount, now).db;
    var rest := attempts[1..];
    if db' != db {
      var e := ReserveEntry(a.rid, user, a.requestId, amount);
      assert db'.ledger == db.ledger + [e];
      forall i | 0 <= i < |rest|
        ensures !IdUsed(db'.ledger, rest[i].rid + "-x") && !KeyUsed(db'.ledger, ReserveKey(rest[i].requestId))
        ensures !RequestUsed(db'.reservations, rest[i].requestId) && rest[i].rid !in db'.reservations
      {
        assert rest[i] == attempts[i + 1];
        DistinctDerived(rest[i].rid, a.rid, rest[i].requestId, a.requestId);
      }
    }
  }

  /** A fresh attempt succeeds exactly when the balance covers it, and then costs exactly the amount. */
  lemma FreshReserve(db: Db, user: string, amount: int, now: int, attempts: seq<Attempt>)
    requires ValidIdentifier(user) && amount >= 1 && Balance(db, user) >= 0
    requires attempts != [] && FreshAttempts(db, attempts)
    ensures var eff := Ledger.Reserve(db, attempts[0].rid, user, attempts[0].requestId, amount, now);
            && (eff.result.Ok? <==> Balance(db, user) >= amount)
            && Balance(eff.db, user) == Balance(db, user) - if eff.result.Ok? then amount else 0
  {
  }

  /** Spending the amount once lowers by one the number of times the balance covers it. */
  lemma SpendOne(balance: int, amount: int)
    requires amount >= 1 && balance >= 0
    ensures balance < amount ==> balance / amount == 0
    ensures balance >= amount ==> (balance - amount) / amount == balance / amount - 1
  {
    if balance < amount {
      Int64.DivUnique(balance, amount, 0);
    } else {
      var q := balance / amount;
      assert balance == q * amount + balance % amount;
      assert (q - 1) * amount == q * amount - amount;
      Int64.DivUnique(balance - amount, amount, q - 1);
    }
  }

  /** Of `attempts` purchases at `amount` from `balance`, exactly the affordable ones went through. */
  ghost predicate Affordable(n: int, attempts: nat, balance: int, amount: int, last: int)
    requires amount >= 1
  {
    n == Min(attempts, balance / amount) && last == balance - n * amount
  }

  /** Counting the first attempt and the rest together. */
  lemma CountOne(attempts: nat, balance: int, left: int, amount: int, first: int, rest: int, last: int)
    requires amount >= 1 && balance >= 0 && attempts >= 1
    requires first == (if balance >= amount then 1 else 0) && left == balance - if balance >= amount then amount else 0
    requires Affordable(rest, attempts - 1, left, amount, last)
    ensures Affordable(rest + first, attempts, balance, amount, last)
  {
    SpendOne(balance, amount);
    assert (rest + 1) * amount == rest * amount + amount;
  }

  lemma ServeUnfold(db: Db, user: string, amount: int, now: int, attempts: seq<Attempt>)
    requires attempts != []
    ensures var eff := Ledger.Reserve(db, attempts[0].rid, user, attempts[0].requestId, amount, now);
            var rest := Serve(eff.db, user, amount, now, attempts[1..]);
            Serve(db, user, amount, now, attempts) == (rest.0 + if eff.result.Ok? then 1 else 0, rest.1)
  {
  }

  /**
   No overdraft, no lost sale: of any number of reserves of the same amount against one
   balance, in whatever order they are served, exactly as many succeed as the balance
   covers, and each costs exactly the amount.
   */
  lemma {:induction false} ExactlyAffordable(db: Db, user: string, amount: int, now: int, attempts: seq<Attempt>)
    requires ValidIdentifier(user) && amount >= 1 && Balance(db, user) >= 0
    requires FreshAttempts(db, attempts)
    ensures var served := Serve(db, user, amount, now, attempts);
            Affordable(served.0, |attempts|, Balance(db, user), amount, Balance(served.1, user))
    decreases |attempts|
  {
    if attempts == [] {
      Int64.DivBounds(Balance(db, user), amount);
      Int64.MulReflectsLess(-1, Balance(db, user) / amount, amount);
    } else {
      var eff := Ledger.Reserve(db, attempts[0].rid, user, attempts[0].requestId, amount, now);
      var rest := Serve(eff.db, user, amount, now, attempts[1..]);
      FreshReserve(db, user, amount, now, attempts);
      FreshAfterReserve(db, user, amount, now, attempts);
      ExactlyAffordable(eff.db, user, amount, now, attempts[1..]);
      ServeUnfold(db, user, amount, now, attempts);
      CountOne(|attempts|, Balance(db, user), Balance(eff.db, user), amount,
               if eff.result.Ok? then 1 else 0, rest.0, Balance(rest.1, user));
    }
  }
}
