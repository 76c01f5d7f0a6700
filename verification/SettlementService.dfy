/**
 The outbox procedures as one caller runs them, statement by statement, proved to be
 exactly the steps of the outbox protocol taken one after another.
 */
module SettlementService {
  import opened Basics
  import opened Ledger
  import opened Outbox
  import Runs
  import opened Query
  import opened Pricing
  import opened Int64
  import opened CreditsService
  import opened LedgerEffects

  lemma RunThree(s: State, a: Step, b: Step, c: Step)
    ensures Run(s, [a, b, c]) == Apply(Apply(Apply(s, a), b), c)
  {
    var s1 := Apply(s, a);
    var s2 := Apply(s1, b);
    assert [a, b, c][1..] == [b, c] && [b, c][1..] == [c] && [c][1..] == [];
    assert Run(s2, [c]) == Run(Apply(s2, c), []);
    assert Run(s1, [b, c]) == Run(s2, [c]);
  }

  /** The steps of one SettleViaOutbox call. */
  function SettleProgram(requestId: string, lid: string, charge: Option<int>): seq<Step> {
    [Begin(0, requestId), Charge(0, lid, charge), Mark(0)]
  }

  /** The steps that ProcessSettlementOutbox takes for one pending row. */
  function LapseProgram(requestId: string, now: int, lid: string): seq<Step> {
    [BeginLapse(0, requestId, now), LapseRelease(0, lid), Mark(0)]
  }

  /** The accepted usage is charged a negative number of credits. */
  predicate ChargedNegative(p: Pricer, u: Usage)
    requires u.model in p.models
  {
    var m, size := p.models[u.model], CreditSize(p);
    Numerator(m, u) <= MAX_NUMERATOR && RoundedCost(m, u) + size - 1 > MAX &&
      RoundedCost(m, u) + 2 * size - 1 <= MODULUS
  }

  /** The three steps on a pending request with an open reservation, for an already computed charge. */
  lemma SettleOutcome(s: State, requestId: string, lid: string, charge: int)
    requires requestId in s.rows && s.rows[requestId].rid in s.sys.db.reservations
    requires s.sys.db.reservations[s.rows[requestId].rid].status == Reserved && !IdUsed(s.sys.db.ledger, lid)
    ensures var s' := Run(s, SettleProgram(requestId, lid, Some(charge)));
            && requestId in s'.rows && s'.rows[requestId].rid == s.rows[requestId].rid
            && s'.rows[requestId].status == (if charge < 0 then Failed else Settled)
            && (Closed(s'.sys.db, s.rows[requestId].rid) <==> charge >= 0)
  {
    RunThree(s, Begin(0, requestId), Charge(0, lid, Some(charge)), Mark(0));
    CloseCloses(s.sys.db, lid, s.rows[requestId].rid, Some(charge));
  }

  /**
   Exactly which usages leave a failed row over an open reservation, in terms of the usage,
   its prices and the credit size.
   */
  lemma UsageContradictsIff(s: State, p: Pricer, u: Usage, requestId: string, lid: string)
    requires requestId in s.rows && s.rows[requestId].rid in s.sys.db.reservations
    requires s.sys.db.reservations[s.rows[requestId].rid].status == Reserved && !IdUsed(s.sys.db.ledger, lid)
    requires u.model in p.models && Priceable(p.models[u.model], u)
    ensures var s' := Run(s, SettleProgram(requestId, lid, Priced(Credits(p, u))));
            && requestId in s'.rows
            && (s'.rows[requestId].status == Failed && !Closed(s'.sys.db, s'.rows[requestId].rid) <==>
                ChargedNegative(p, u))
  {
    NegativeChargeIff(p, u);
    SettleOutcome(s, requestId, lid, Credits(p, u).value);
  }

  // ---- What the procedures do, column by column -----------------------------------------

  /** One outbox row changed, in its status and number of attempts only. */
  ghost predicate Remarks(rows: map<string, Row>, rows': map<string, Row>, requestId: string, status: RowStatus,
                          attempts: nat)
    requires requestId in rows
  {
    && rows'.Keys == rows.Keys && (forall q :: q in rows && q != requestId ==> rows'[q] == rows[q])
    && var row, row' := rows[requestId], rows'[requestId];
       && row'.user == row.user && row'.rid == row.rid && row'.createdAt == row.createdAt
       && row'.status == status && row'.attempts == attempts
  }

  /** The open reservation was released and its amount returned, unless the id drawn for the ledger row is taken. */
  ghost predicate GivesBack(db: Db, db': Db, lid: string, rid: string)
    requires rid in db.reservations
  {
    var row := db.reservations[rid];
    if row.amount != 0 && IdUsed(db.ledger, lid) then db' == db
    else
      && Closes(db, db', rid, 0, row.amount, Released)
      && (row.amount == 0 ==> db'.ledger == db.ledger && db'.accounts == db.accounts)
      && (row.amount != 0 ==> Returns(db, db', lid, rid, row.user, row.amount, KRelease, "llm_cancel"))
  }

  /** The request has waited for more than an hour over a reservation that is still open. */
  predicate Overdue(rows: map<string, Row>, db: Db, requestId: string, now: int) {
    && requestId in rows && now - rows[requestId].createdAt > 3600
    && rows[requestId].rid in db.reservations && db.reservations[rows[requestId].rid].status == Reserved
  }

  /** The last step of either procedure writes the status that its client carries. */
  lemma MarkEffect(s: State, sys: Runs.Sys, requestId: string, status: RowStatus, bump: bool)
    requires 0 !in s.clients && requestId in s.rows
    ensures var s' := Apply(s.(sys := sys, clients := s.clients[0 := Marking(requestId, status, bump)]), Mark(0));
            && s'.sys == sys && s'.clients == s.clients
            && Remarks(s.rows, s'.rows, requestId, status, s.rows[requestId].attempts + if bump then 1 else 0)
  {
  }

  /**
   A lapse: a request that has waited for more than 3600 seconds over an open reservation is
   marked expired, with its attempts as they were, and the reservation is released. In every
   other case nothing changes.
   */
  lemma LapseEffect(s: State, requestId: string, now: int, lid: string)
    requires 0 !in s.clients
    ensures var s' := Run(s, LapseProgram(requestId, now, lid));
            && (!Overdue(s.rows, s.sys.db, requestId, now) ==> s' == s)
            && (Overdue(s.rows, s.sys.db, requestId, now) ==>
                  && Remarks(s.rows, s'.rows, requestId, Lapsed, s.rows[requestId].attempts)
                  && GivesBack(s.sys.db, s'.sys.db, lid, s.rows[requestId].rid)
                  && s'.sys.sweeps == s.sys.sweeps && s'.clients == s.clients)
  {
    RunThree(s, BeginLapse(0, requestId, now), LapseRelease(0, lid), Mark(0));
    if Overdue(s.rows, s.sys.db, requestId, now) {
      var rid := s.rows[requestId].rid;
      ReleaseEffect(s.sys.db, lid, rid);
      LapseReleased(s, requestId, now, lid);
      MarkEffect(s, s.sys.(db := Release(s.sys.db, lid, rid).db), requestId, Lapsed, false);
    }
  }

  lemma LapseReleased(s: State, requestId: string, now: int, lid: string)
    requires Overdue(s.rows, s.sys.db, requestId, now)
    ensures var rid := s.rows[requestId].rid;
            Apply(Apply(s, BeginLapse(0, requestId, now)), LapseRelease(0, lid)) ==
            s.(sys := s.sys.(db := Release(s.sys.db, lid, rid).db),
               clients := s.clients[0 := Marking(requestId, Lapsed, false)])
  {
  }

  lemma SettlementCharged(s: State, requestId: string, lid: string, charge: Option<int>)
    requires requestId in s.rows && s.rows[requestId].rid in s.sys.db.reservations
    ensures var rid := s.rows[requestId].rid;
            var eff := if charge.None? then Release(s.sys.db, lid, rid) else Settle(s.sys.db, lid, rid, charge.value);
            var settled := charge.Some? && eff.result.Ok?;
            Apply(Apply(s, Begin(0, requestId)), Charge(0, lid, charge)) ==
            s.(sys := s.sys.(db := eff.db),
               clients := s.clients[0 := Marking(requestId, if settled then Settled else Failed, charge.Some? &&
                                                 !settled)])
  {
  }

  /**
   A settlement: nothing without the row or its reservation. A usage without price releases
   the reservation and fails the request; a priced one settles it, and the request is settled
   if that succeeds and failed, with one more attempt, if it does not.
   */
  lemma SettlementEffect(s: State, requestId: string, lid: string, charge: Option<int>)
    requires 0 !in s.clients
    ensures var s' := Run(s, SettleProgram(requestId, lid, charge));
            var found := requestId in s.rows && s.rows[requestId].rid in s.sys.db.reservations;
            && (!found ==> s' == s)
            && (found && charge.None? ==>
                  && Remarks(s.rows, s'.rows, requestId, Failed, s.rows[requestId].attempts)
                  && s'.sys.db == Release(s.sys.db, lid, s.rows[requestId].rid).db)
            && (found && charge.Some? ==>
                  var eff := Settle(s.sys.db, lid, s.rows[requestId].rid, charge.value);
                  && s'.sys.db == eff.db
                  && (eff.result.Ok? ==> Remarks(s.rows, s'.rows, requestId, Settled, s.rows[requestId].attempts))
                  && (eff.result.Err? ==> Remarks(s.rows, s'.rows, requestId, Failed, s.rows[requestId].attempts + 1)))
            && s'.clients == s.clients
  {
    RunThree(s, Begin(0, requestId), Charge(0, lid, charge), Mark(0));
    if requestId in s.rows && s.rows[requestId].rid in s.sys.db.reservations {
      var rid := s.rows[requestId].rid;
      var eff := if charge.None? then Release(s.sys.db, lid, rid) else Settle(s.sys.db, lid, rid, charge.value);
      var settled := charge.Some? && eff.result.Ok?;
      SettlementCharged(s, requestId, lid, charge);
      MarkEffect(s, s.sys.(db := eff.db), requestId, if settled then Settled else Failed, charge.Some? && !settled);
    }
  }

  /** The batch of a run over the outbox, on the columns: pending requests, oldest first, none older left out. */
  lemma PendingBatch(rows: map<string, Row>, limit: nat, batch: seq<string>)
    requires IsOldest(PendingSince(rows), limit, batch)
    ensures |batch| <= limit && forall i :: 0 <= i < |batch| ==> batch[i] in rows && rows[batch[i]].status == Pending
    ensures forall i, j :: 0 <= i < j < |batch| ==>
            batch[i] != batch[j] && rows[batch[i]].createdAt <= rows[batch[j]].createdAt
    ensures forall q, i :: q in rows && rows[q].status == Pending && q !in batch && 0 <= i < |batch| ==>
              rows[batch[i]].createdAt <= rows[q].createdAt
    ensures |batch| < limit ==> forall q :: q in rows && rows[q].status == Pending ==> q in batch
  {
    var times := PendingSince(rows);
    assert forall q :: q in rows && rows[q].status == Pending ==> q in times && times[q] == rows[q].createdAt;
    assert forall q :: q in times ==> q in rows && rows[q].status == Pending && times[q] == rows[q].createdAt;
  }

  /** The lapse loop from entry `k` on. */
  ghost function Drain(s: State, batch: seq<string>, now: int, lids: nat -> string, k: nat): State
    requires k <= |batch|
    decreases |batch| - k
  {
    if k == |batch| then s else Drain(Run(s, LapseProgram(batch[k], now, lids(k))), batch, now, lids, k + 1)
  }

  /** The loop lapses one request after another, to the end of the batch. */
  lemma {:induction false} DrainGrows(s: State, batch: seq<string>, requestId: string, now: int, lids: nat -> string,
                                      k: nat)
    requires k <= |batch|
    ensures Drain(s, batch + [requestId], now, lids, k)
         == Run(Drain(s, batch, now, lids, k), LapseProgram(requestId, now, lids(|batch|)))
    decreases |batch| - k
  {
    if k < |batch| {
      DrainGrows(Run(s, LapseProgram(batch[k], now, lids(k))), batch, requestId, now, lids, k + 1);
    } else {
      var s' := Run(s, LapseProgram(requestId, now, lids(k)));
      assert (batch + [requestId])[k] == requestId;
      assert Drain(s', batch + [requestId], now, lids, k + 1) == s';
    }
  }

  function Priced(charge: Result<int>): Option<int> {
    if charge.Ok? then Some(charge.value) else None
  }

  function PendingSince(rows: map<string, Row>): map<string, int> {
    map q | q in rows && rows[q].status == Pending :: rows[q].createdAt
  }

  class Settlements {
    const svc: Service
    const pricer: Pricer
    var rows: map<string, Row>

    constructor (svc: Service, pricer: Pricer)
      ensures this.svc == svc && this.pricer == pricer && rows == map[]
    {
      this.svc, this.pricer := svc, pricer;
      rows := map[];
    }

    /** The tables with no other client in flight. */
    ghost function View(): State
      reads this, svc
    {
      State(Runs.Sys(svc.View(), map[]), rows, map[])
    }

    method EnqueueSettlement(requestId: string, user: string, rid: string, now: int)
      modifies this
      ensures View() == Apply(old(View()), Enqueue(requestId, user, rid, now))
      ensures requestId in old(rows) ==> rows == old(rows)
      ensures requestId !in old(rows) ==>
                && rows.Keys == old(rows).Keys + {requestId} && (forall q :: q in old(rows) ==> rows[q] == old(rows)[q])
                && var row := rows[requestId];
                   row.user == user && row.rid == rid && row.status == Pending && row.attempts == 0 &&
                     row.createdAt == now
    {
      if requestId !in rows {
        rows := rows[requestId := Row(user, rid, Pending, 0, now)];
      }
    }

    /** Settles the request at the price of its usage, or releases it when the usage cannot be priced. */
    method SettleViaOutbox(requestId: string, usage: Usage, lid: string) returns (r: Result<()>)
      requires svc.Valid()
      modifies this, svc
      ensures View() == Run(old(View()), SettleProgram(requestId, lid, Priced(Credits(pricer, usage))))
      ensures r.Ok? <==> requestId in old(rows) && Credits(pricer, usage).Ok? &&
                         Ledger.Settle(old(svc.View()), lid, old(rows)[requestId].rid,
                                       Credits(pricer, usage).value).result.Ok?
      ensures svc.Valid()
    {
      r := SettleCharge(requestId, Credits(pricer, usage), lid);
    }

    method SettleCharge(requestId: string, charge: Result<int>, lid: string) returns (r: Result<()>)
      requires svc.Valid()
      modifies this, svc
      ensures View() == Run(old(View()), SettleProgram(requestId, lid, Priced(charge)))
      ensures r.Ok? <==> requestId in old(rows) && charge.Ok? &&
                         Ledger.Settle(old(svc.View()), lid, old(rows)[requestId].rid, charge.value).result.Ok?
      ensures charge.Err? && requestId in old(rows) && old(rows)[requestId].rid in old(svc.reservations) ==>
                r == Err(charge.error)
      ensures svc.Valid()
    {
      RunThree(View(), Begin(0, requestId), Charge(0, lid, Priced(charge)), Mark(0));
      if requestId !in rows || rows[requestId].rid !in svc.reservations {
        return Err(NotFound);
      }
      var rid := rows[requestId].rid;
      var h := new Handle(rid, svc.reservations[rid]);
      if charge.Err? {
        var _ := svc.Release(h, lid);
        rows := rows[requestId := rows[requestId].(status := Failed)];
        return Err(charge.error);
      }
      r := svc.Settle(h, lid, charge.value);
      if r.Err? {
        rows := rows[requestId := rows[requestId].(status := Failed, attempts := rows[requestId].attempts + 1)];
        return;
      }
      rows := rows[requestId := rows[requestId].(status := Settled)];
    }

    /** Lapses the oldest pending requests, up to `limit` of them (100 when the limit is not positive). */
    method ProcessSettlementOutbox(limit: int, now: int, lids: nat -> string) returns (ghost batch: seq<string>)
      requires svc.Valid()
      modifies this, svc
      ensures IsOldest(PendingSince(old(rows)), if limit <= 0 then 100 else limit, batch)
      ensures forall i :: 0 <= i < |batch| ==> batch[i] in old(rows) && old(rows)[batch[i]].status == Pending
      ensures View() == Drain(old(View()), batch, now, lids, 0)
      ensures svc.Valid()
    {
      var ids := Oldest(PendingSince(rows), if limit <= 0 then 100 else limit);
      batch := ids;
      PendingBatch(rows, if limit <= 0 then 100 else limit, ids);
      var i := 0;
      while i < |ids|
        invariant 0 <= i <= |ids| && svc.Valid()
        invariant Drain(View(), ids, now, lids, i) == Drain(old(View()), ids, now, lids, 0)
      {
        LapseOne(ids[i], now, lids(i));
        i := i + 1;
      }
    }

    method LapseOne(requestId: string, now: int, lid: string)
      requires svc.Valid()
      modifies this, svc
      ensures View() == Run(old(View()), LapseProgram(requestId, now, lid))
      ensures !Overdue(old(rows), old(svc.View()), requestId, now) ==>
              rows == old(rows) && svc.View() == old(svc.View())
      ensures Overdue(old(rows), old(svc.View()), requestId, now) ==>
                && Remarks(old(rows), rows, requestId, Lapsed, old(rows)[requestId].attempts)
                && GivesBack(old(svc.View()), svc.View(), lid, old(rows)[requestId].rid)
      ensures svc.Valid()
    {
      ghost var s := View();
      LapseRow(requestId, now, lid);
      LapseEffect(s, requestId, now, lid);
    }

    /** Re-reads the row, and releases the reservation if the request is overdue; whether that succeeds is ignored. */
    method LapseRow(requestId: string, now: int, lid: string)
      requires svc.Valid()
      modifies this, svc
      ensures View() == Run(old(View()), LapseProgram(requestId, now, lid))
      ensures svc.Valid()
    {
      RunThree(View(), BeginLapse(0, requestId, now), LapseRelease(0, lid), Mark(0));
      if requestId !in rows {
        return;
      }
      var row := rows[requestId];
      if now - row.createdAt > STALE_SECONDS {
        if row.rid in svc.reservations && svc.reservations[row.rid].status == Reserved {
          var h := new Handle(row.rid, svc.reservations[row.rid]);
          var _ := svc.Release(h, lid);
          rows := rows[requestId := row.(status := Lapsed)];
        }
      }
    }
  }
}
