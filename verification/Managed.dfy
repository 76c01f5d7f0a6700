/**
 The managed billing flow end to end: reserves sized by the estimate, settles charged by
 the pricing engine, over any interleaving with grants, releases and expiry.
 */
module Managed {
  import opened Basics
  import opened Ledger
  import opened Invariants
  import Runs
  import opened Pricing

  /** The token counts a reservation was estimated for. */
  datatype Quote = Quote(model: string, input: int64, maxOutput: int64)

  datatype Billing = Billing(sys: Runs.Sys, quotes: map<string, Quote>)

  const START := Billing(Runs.INIT, map[])

  datatype Step =
    | Reserve(rid: string, user: string, requestId: string, quote: Quote, now: int)
    | Settle(lid: string, rid: string, usage: Usage)
    | Other(step: Runs.Step)

  ghost function Apply(p: Pricer, s: Billing, step: Step): Billing {
    match step
    case Reserve(rid, user, requestId, q, now) =>
      var estimate := EstimateMax(p, q.model, q.input, q.maxOutput);
      if estimate.Err? then s
      else
        var sys := Runs.Apply(s.sys, Runs.Reserve(rid, user, requestId, estimate.value, now));
        var reserved := rid in sys.db.reservations && rid !in s.sys.db.reservations;
        Billing(sys, if reserved then s.quotes[rid := q] else s.quotes)
    case Settle(lid, rid, u) =>
      var charge := Credits(p, u);
      if charge.Err? then s else s.(sys := Runs.Apply(s.sys, Runs.Settle(lid, rid, charge.value)))
    case Other(st) =>
      s.(sys := Runs.Apply(s.sys, st))
  }

  /** Reserves and settles go through the pricing engine, settles meet the margin, and nothing is refunded. */
  ghost predicate Admissible(p: Pricer, s: Billing, step: Step) {
    match step
    case Reserve(_, _, _, _, _) => true
    case Settle(lid, rid, u) =>
      rid in s.quotes && Credits(p, u).Ok? ==>
        var q := s.quotes[rid];
        && u.model == q.model && WithinMargin(p.models[u.model], u, q.input, q.maxOutput)
        && Coverable(p, u, q.input, q.maxOutput)
    case Other(st) => !st.Refund? && !st.Reserve? && !st.Settle?
  }

  ghost function Run(p: Pricer, s: Billing, steps: seq<Step>): Billing
    decreases |steps|
  {
    if steps == [] then s else Run(p, Apply(p, s, steps[0]), steps[1..])
  }

  ghost predicate AdmissibleRun(p: Pricer, s: Billing, steps: seq<Step>)
    decreases |steps|
  {
    steps == [] || (Admissible(p, s, steps[0]) && AdmissibleRun(p, Apply(p, s, steps[0]), steps[1..]))
  }

  /** Every reservation was quoted, and holds exactly the estimate of its quote. */
  ghost predicate Quoted(p: Pricer, s: Billing) {
    forall r :: r in s.sys.db.reservations ==>
      && r in s.quotes
      && EstimateMax(p, s.quotes[r].model, s.quotes[r].input, s.quotes[r].maxOutput) ==
         Ok(s.sys.db.reservations[r].amount)
  }

  /** No overage row, no capture above the reserve, no negative balance. */
  ghost predicate Solvent(db: Db) {
    && (forall i :: 0 <= i < |db.ledger| ==> db.ledger[i].kind != KOverage)
    && (forall u :: u in db.accounts ==> db.accounts[u] >= 0)
    && (forall r :: r in db.reservations ==> db.reservations[r].captured <= db.reservations[r].amount)
  }

  ghost predicate BillingInv(p: Pricer, s: Billing) {
    Runs.SysInv(s.sys) && Quoted(p, s) && Solvent(s.sys.db)
  }

  lemma SettleSolvent(db: Db, lid: string, rid: string, captured: int)
    requires Solvent(db) && Inv(db) && (rid in db.reservations ==> captured <= db.reservations[rid].amount)
    ensures Solvent(Ledger.Settle(db, lid, rid, captured).db)
    ensures Ledger.Settle(db, lid, rid, captured).db.reservations.Keys == db.reservations.Keys
  {
  }

  lemma ReserveSolvent(db: Db, rid: string, user: string, requestId: string, amount: int, now: int)
    requires Solvent(db)
    ensures Solvent(Ledger.Reserve(db, rid, user, requestId, amount, now).db)
  {
  }

  lemma GrantSolvent(db: Db, e: Entry)
    requires Solvent(db) && e.amount >= 0 && e.kind == KGrant
    ensures Solvent(Adjust(db, e).db) && Adjust(db, e).db.reservations == db.reservations
  {
  }

  lemma ReleaseSolvent(db: Db, lid: string, rid: string)
    requires Solvent(db) && Inv(db)
    ensures Solvent(Ledger.Release(db, lid, rid).db) &&
            Ledger.Release(db, lid, rid).db.reservations.Keys == db.reservations.Keys
  {
  }

  lemma ExpireSolvent(db: Db, lid: string, st: Stale)
    requires Solvent(db) && Inv(db) && Faithful(db, st)
    ensures Solvent(ExpireOne(db, lid, st).db) && ExpireOne(db, lid, st).db.reservations.Keys == db.reservations.Keys
  {
  }

  lemma OtherSolvent(s: Runs.Sys, st: Runs.Step)
    requires Runs.SysInv(s) && Solvent(s.db) && !st.Refund? && !st.Reserve? && !st.Settle?
    ensures Solvent(Runs.Apply(s, st).db)
    ensures Runs.Apply(s, st).db.reservations.Keys == s.db.reservations.Keys
  {
    match st
    case Grant(id, user, amount, source, reason, key) =>
      if amount > 0 {
        GrantSolvent(s.db, GrantEntry(id, user, amount, source, reason, key));
      }
    case Release(lid, rid) =>
      ReleaseSolvent(s.db, lid, rid);
    case ExpireNext(w, lid) =>
      if w in s.sweeps && s.sweeps[w] != [] {
        ExpireSolvent(s.db, lid, s.sweeps[w][0]);
      }
    case _ =>
  }

  /** Rows never change their amount, so quotes stay valid while the reservations are the same ones. */
  lemma QuotedCarries(p: Pricer, s: Billing, sys: Runs.Sys)
    requires Quoted(p, s) && Preserves(s.sys.db, sys.db) && sys.db.reservations.Keys == s.sys.db.reservations.Keys
    ensures Quoted(p, Billing(sys, s.quotes))
  {
  }

  /** A reserve adds at most its own row, holding the amount asked for. */
  lemma ReserveAdds(db: Db, rid: string, user: string, requestId: string, amount: int, now: int)
    ensures var rows := Ledger.Reserve(db, rid, user, requestId, amount, now).db.reservations;
            rows == db.reservations ||
            (rid !in db.reservations &&
             rows == db.reservations[rid := Reservation(user, requestId, amount, 0, 0, Reserved, now)])
  {
  }

  lemma ReserveQuoted(p: Pricer, s: Billing, sys: Runs.Sys, rid: string, row: Reservation, q: Quote)
    requires Quoted(p, s) && rid !in s.sys.db.reservations && sys.db.reservations == s.sys.db.reservations[rid := row]
    requires EstimateMax(p, q.model, q.input, q.maxOutput) == Ok(row.amount)
    ensures Quoted(p, Billing(sys, s.quotes[rid := q]))
  {
  }

  lemma ReserveStepKeeps(p: Pricer, s: Billing, rid: string, user: string, requestId: string, q: Quote, now: int)
    requires BillingInv(p, s)
    ensures BillingInv(p, Apply(p, s, Reserve(rid, user, requestId, q, now)))
  {
    var estimate := EstimateMax(p, q.model, q.input, q.maxOutput);
    if estimate.Ok? {
      var sys := Runs.Apply(s.sys, Runs.Reserve(rid, user, requestId, estimate.value, now));
      Runs.StepKeeps(s.sys, Runs.Reserve(rid, user, requestId, estimate.value, now));
      ReserveSolvent(s.sys.db, rid, user, requestId, estimate.value, now);
      ReserveAdds(s.sys.db, rid, user, requestId, estimate.value, now);
      if sys.db.reservations == s.sys.db.reservations {
        QuotedCarries(p, s, sys);
      } else {
        ReserveQuoted(p, s, sys, rid, sys.db.reservations[rid], q);
      }
    }
  }

  /** The charge of an admissible settle is within the reserve. */
  lemma ChargeCovered(p: Pricer, s: Billing, lid: string, rid: string, u: Usage)
    requires Quoted(p, s) && Admissible(p, s, Settle(lid, rid, u)) && rid in s.sys.db.reservations && Credits(p, u).Ok?
    ensures Credits(p, u).value <= s.sys.db.reservations[rid].amount
  {
    EstimateCoversCharge(p, u, s.quotes[rid].input, s.quotes[rid].maxOutput);
  }

  lemma ChargeKeeps(p: Pricer, s: Billing, sys: Runs.Sys, lid: string, rid: string, charge: int)
    requires BillingInv(p, s) && sys == Runs.Apply(s.sys, Runs.Settle(lid, rid, charge))
    requires rid in s.sys.db.reservations ==> charge <= s.sys.db.reservations[rid].amount
    ensures BillingInv(p, Billing(sys, s.quotes))
  {
    Runs.StepKeeps(s.sys, Runs.Settle(lid, rid, charge));
    SettleSolvent(s.sys.db, lid, rid, charge);
    QuotedCarries(p, s, sys);
  }

  lemma SettleStepKeeps(p: Pricer, s: Billing, lid: string, rid: string, u: Usage)
    requires BillingInv(p, s) && Admissible(p, s, Settle(lid, rid, u))
    ensures BillingInv(p, Apply(p, s, Settle(lid, rid, u)))
  {
    var charge := Credits(p, u);
    if charge.Ok? {
      if rid in s.sys.db.reservations {
        ChargeCovered(p, s, lid, rid, u);
      }
      ChargeKeeps(p, s, Runs.Apply(s.sys, Runs.Settle(lid, rid, charge.value)), lid, rid, charge.value);
    }
  }

  lemma StepKeeps(p: Pricer, s: Billing, step: Step)
    requires BillingInv(p, s) && Admissible(p, s, step)
    ensures BillingInv(p, Apply(p, s, step))
  {
    match step
    case Reserve(rid, user, requestId, q, now) =>
      ReserveStepKeeps(p, s, rid, user, requestId, q, now);
    case Settle(lid, rid, u) =>
      SettleStepKeeps(p, s, lid, rid, u);
    case Other(st) =>
      Runs.StepKeeps(s.sys, st);
      OtherSolvent(s.sys, st);
      QuotedCarries(p, s, Runs.Apply(s.sys, st));
  }

  lemma {:induction false} RunKeeps(p: Pricer, s: Billing, steps: seq<Step>)
    requires BillingInv(p, s) && AdmissibleRun(p, s, steps)
    ensures BillingInv(p, Run(p, s, steps))
    decreases |steps|
  {
    if steps != [] {
      StepKeeps(p, s, steps[0]);
      RunKeeps(p, Apply(p, s, steps[0]), steps[1..]);
    }
  }

  /**
   End to end: in any run whose reserves are sized by the estimate, whose settles charge a
   usage within the margin of its quote, and which refunds nothing, no overage row is ever
   written, no capture exceeds its reserve, and no balance is ever negative.
   */
  lemma ManagedRunsStaySolvent(p: Pricer, steps: seq<Step>)
    requires AdmissibleRun(p, START, steps)
    ensures Solvent(Run(p, START, steps).sys.db)
    ensures Inv(Run(p, START, steps).sys.db)
  {
    EmptyInv();
    RunKeeps(p, START, steps);
  }

  // ---- Overage rows ---------------------------------------------------------------------

  /** Some overage row of the ledger draws on the reservation. */
  predicate HasOverage(ledger: seq<Entry>, r: string) {
    exists i :: 0 <= i < |ledger| && ledger[i].kind == KOverage && ledger[i].reference == Some(r)
  }

  predicate Exceeded(rows: map<string, Reservation>, r: string) {
    r in rows && rows[r].captured > rows[r].amount
  }

  ghost predicate OverageMatches(db: Db) {
    forall r :: HasOverage(db.ledger, r) <==> Exceeded(db.reservations, r)
  }

  lemma OverageAppend(ledger: seq<Entry>, e: Entry, r: string)
    ensures HasOverage(ledger + [e], r) <==> HasOverage(ledger, r) || (e.kind == KOverage && e.reference == Some(r))
  {
    var l' := ledger + [e];
    assert l'[|ledger|] == e && forall i :: 0 <= i < |ledger| ==> l'[i] == ledger[i];
  }

  /** Appending a row keeps the match when it is an overage row of `r` exactly if `r` is now exceeded and was not. */
  lemma OveragePost(db: Db, db': Db, e: Entry, r: string, row: Reservation)
    requires OverageMatches(db) && db'.ledger == db.ledger + [e]
    requires db'.reservations == db.reservations || db'.reservations == db.reservations[r := row]
    requires db'.reservations != db.reservations ==> !Exceeded(db.reservations, r)
    requires e.kind == KOverage <==> db'.reservations != db.reservations && row.captured > row.amount
    requires e.kind == KOverage ==> e.reference == Some(r)
    ensures OverageMatches(db')
  {
    forall q ensures HasOverage(db'.ledger, q) <==> Exceeded(db'.reservations, q) {
      OverageAppend(db.ledger, e, q);
    }
  }

  lemma FinalizeOverage(db: Db, lid: string, rid: string, captured: int, releaseAll: bool)
    requires Inv(db) && OverageMatches(db) && (releaseAll ==> captured == 0)
    ensures OverageMatches(Finalize(db, lid, rid, captured, releaseAll).db)
  {
    var db' := Finalize(db, lid, rid, captured, releaseAll).db;
    if db'.reservations != db.reservations {
      var row, row' := db.reservations[rid], db'.reservations[rid];
      assert CoherentRow(row);
      var out := Decide(row, captured, releaseAll);
      if out.adjust != 0 {
        OveragePost(db, db', ReturnEntry(lid, rid, row.user, out.adjust, out.kind, out.source), rid, row');
      } else {
        assert forall r :: Exceeded(db'.reservations, r) == Exceeded(db.reservations, r);
      }
    }
  }

  lemma ExpireOverage(db: Db, lid: string, st: Stale)
    requires Inv(db) && OverageMatches(db)
    ensures OverageMatches(ExpireOne(db, lid, st).db)
  {
    var db' := ExpireOne(db, lid, st).db;
    if db' != db {
      assert CoherentRow(db.reservations[st.rid]);
      OveragePost(db, db', db'.ledger[|db.ledger|], st.rid, db'.reservations[st.rid]);
    }
  }

  lemma ReserveOverage(db: Db, rid: string, user: string, requestId: string, amount: int, now: int)
    requires OverageMatches(db)
    ensures OverageMatches(Ledger.Reserve(db, rid, user, requestId, amount, now).db)
  {
    var db' := Ledger.Reserve(db, rid, user, requestId, amount, now).db;
    if db' != db {
      OveragePost(db, db', ReserveEntry(rid, user, requestId, amount), rid, db'.reservations[rid]);
    }
  }

  lemma AdjustOverage(db: Db, e: Entry)
    requires OverageMatches(db) && e.kind != KOverage
    ensures OverageMatches(Adjust(db, e).db)
  {
    if Adjust(db, e).db != db {
      OveragePost(db, Adjust(db, e).db, e, "", Reservation("", "", 0, 0, 0, Reserved, 0));
    }
  }

  lemma StepOverage(s: Runs.Sys, step: Runs.Step)
    requires Runs.SysInv(s) && OverageMatches(s.db)
    ensures OverageMatches(Runs.Apply(s, step).db)
  {
    match step
    case Grant(id, user, amount, source, reason, key) =>
      AdjustOverage(s.db, GrantEntry(id, user, amount, source, reason, key));
    case Refund(id, user, amount, source, reason, key) =>
      AdjustOverage(s.db, RefundEntry(id, user, amount, source, reason, key));
    case Reserve(rid, user, requestId, amount, now) =>
      ReserveOverage(s.db, rid, user, requestId, amount, now);
    case Settle(lid, rid, captured) =>
      FinalizeOverage(s.db, lid, rid, captured, false);
    case Release(lid, rid) =>
      FinalizeOverage(s.db, lid, rid, 0, true);
    case ExpireNext(w, lid) =>
      if w in s.sweeps && s.sweeps[w] != [] {
        ExpireOverage(s.db, lid, s.sweeps[w][0]);
      }
    case _ =>
  }

  lemma {:induction false} RunOverage(s: Runs.Sys, steps: seq<Runs.Step>)
    requires Runs.SysInv(s) && OverageMatches(s.db)
    ensures OverageMatches(Runs.Run(s, steps).db)
    decreases |steps|
  {
    if steps != [] {
      Runs.StepKeeps(s, steps[0]);
      StepOverage(s, steps[0]);
      RunOverage(Runs.Apply(s, steps[0]), steps[1..]);
    }
  }

  /** In every reachable state a reservation has an overage row if and only if more was captured than it reserved. */
  lemma OverageExactlyWhenExceeded(steps: seq<Runs.Step>, r: string)
    ensures var db := Runs.Run(Runs.INIT, steps).db;
            HasOverage(db.ledger, r) <==>
              r in db.reservations && db.reservations[r].captured > db.reservations[r].amount
  {
    EmptyInv();
    RunOverage(Runs.INIT, steps);
  }

  // ---- What the steps are ---------------------------------------------------------------

  /**
   A managed reserve reserves exactly the estimate of its quote, which is remembered for a
   new reservation; a managed settle charges exactly the price of its usage; without estimate
   or price nothing happens.
   */
  lemma ManagedSteps(p: Pricer, s: Billing, rid: string, user: string, requestId: string, q: Quote, now: int,
                     lid: string, u: Usage, other: Runs.Step)
    ensures var s', estimate := Apply(p, s, Reserve(rid, user, requestId, q, now)),
            EstimateMax(p, q.model, q.input, q.maxOutput);
            && (estimate.Err? ==> s' == s)
            && (estimate.Ok? ==>
                  && s'.sys.db == Ledger.Reserve(s.sys.db, rid, user, requestId, estimate.value, now).db
                  && (rid in s'.sys.db.reservations && rid !in s.sys.db.reservations ==>
                      s'.quotes == s.quotes[rid := q])
                  && (rid !in s'.sys.db.reservations || rid in s.sys.db.reservations ==> s'.quotes == s.quotes))
    ensures var s', charge := Apply(p, s, Settle(lid, rid, u)), Credits(p, u);
            && s'.quotes == s.quotes
            && (charge.Err? ==> s' == s)
            && (charge.Ok? ==> s'.sys.db == Ledger.Settle(s.sys.db, lid, rid, charge.value).db)
    ensures Apply(p, s, Other(other)) == s.(sys := Runs.Apply(s.sys, other))
  {
  }

  /** Settling a plain usage inside a quote whose cost does not wrap is admissible. */
  lemma PlainSettleAdmissible(p: Pricer, s: Billing, lid: string, rid: string, u: Usage)
    requires rid in s.quotes && u.model == s.quotes[rid].model && Credits(p, u).Ok? && u.cached == 0 && u.reasoning == 0
    requires u.input <= s.quotes[rid].input && u.output <= s.quotes[rid].maxOutput
    requires Numerator(p.models[u.model],
                       Nominal(u.model, s.quotes[rid].input, s.quotes[rid].maxOutput)) <= MAX_NUMERATOR
    ensures Admissible(p, s, Settle(lid, rid, u))
  {
    PlainUsageWithinMargin(p.models[u.model], u, s.quotes[rid].input, s.quotes[rid].maxOutput);
  }
}
