/**
 What each credit transaction does, column by column: when it succeeds, which error it
 reports otherwise, whose balance moves and by how much, and every column it writes.
 */
module LedgerEffects {
  import opened Basics
  import opened Ledger
  import opened Invariants
  import Runs

  // ---- Vocabulary -----------------------------------------------------------------------

  /** The ledger gained exactly one row, at its end, with these columns. */
  predicate Wrote(l: seq<Entry>, l': seq<Entry>, id: string, user: string, amount: int, kind: Kind, source: string,
                  reference: Option<string>, key: Option<string>, reason: string)
  {
    && |l'| == |l| + 1 && l'[..|l|] == l
    && var e := l'[|l|];
       && e.id == id && e.user == user && e.amount == amount && e.kind == kind && e.source == source
       && e.reference == reference && e.key == key && e.reason == reason
  }

  /** One user's balance moved by the amount, and nobody else's. */
  ghost predicate Moved(db: Db, db': Db, user: string, amount: int) {
    forall u :: Balance(db', u) == Balance(db, u) + if u == user then amount else 0
  }

  /** One reservation was written, and no other changed. */
  ghost predicate OnlyRow(rows: map<string, Reservation>, rows': map<string, Reservation>, r: string) {
    rows'.Keys == rows.Keys + {r} && forall q :: q in rows && q != r ==> rows'[q] == rows[q]
  }

  predicate AllValid(user: string, source: string, reason: string, key: string) {
    ValidIdentifier(user) && ValidIdentifier(source) && ValidIdentifier(reason) && ValidIdentifier(key)
  }

  // ---- Identifiers ----------------------------------------------------------------------

  lemma {:induction false} AsciiLength(s: string)
    requires forall i :: 0 <= i < |s| ==> s[i] < '\U{80}'
    ensures Utf8Length(s) == |s|
  {
    if s != [] {
      AsciiLength(s[1..]);
    }
  }

  /** A plain identifier is valid if and only if it is not all blanks and has at most 512 characters. */
  lemma IdentifierLimits(s: string)
    requires forall i :: 0 <= i < |s| ==> s[i] < '\U{80}'
    ensures ValidIdentifier(s) <==>
            |s| <= 512 && exists i :: 0 <= i < |s| && s[i] !in ['\t', '\n', '\U{0B}', '\U{0C}', '\r', ' ']
  {
    AsciiLength(s);
    forall i | 0 <= i < |s| ensures IsSpace(s[i]) <==> s[i] in ['\t', '\n', '\U{0B}', '\U{0C}', '\r', ' '] {
    }
  }

  // ---- Grant and Refund -----------------------------------------------------------------

  /** A grant or refund with the given signed amount: when it is refused and why, and what it writes. */
  ghost predicate Adjusts(db: Db, eff: Effect<()>, valid: bool, id: string, user: string, amount: int, kind: Kind,
                          source: string, reason: string, key: string)
  {
    && (eff.result.Ok? <==> valid && !KeyUsed(db.ledger, key) && !IdUsed(db.ledger, id))
    && (!valid ==> eff.result == Err(InvalidArgument))
    && (valid && KeyUsed(db.ledger, key) ==> eff.result == Err(DuplicateGrant))
    && (valid && !KeyUsed(db.ledger, key) && IdUsed(db.ledger, id) ==> eff.result == Err(ConstraintViolation))
    && (eff.result.Err? ==> eff.db == db)
    && (eff.result.Ok? ==>
          && Moved(db, eff.db, user, amount) && user in eff.db.accounts && eff.db.reservations == db.reservations
          && Wrote(db.ledger, eff.db.ledger, id, user, amount, kind, source, None, Some(key), reason))
  }

  /** A grant credits the user, and nobody else, with exactly the amount. */
  lemma GrantEffect(db: Db, id: string, user: string, amount: int, source: string, reason: string, key: string)
    ensures Adjusts(db, Grant(db, id, user, amount, source, reason, key), amount > 0 &&
                    AllValid(user, source, reason, key),
                    id, user, amount, KGrant, source, reason, key)
  {
  }

  /** A refund debits the user, and nobody else, by exactly the amount, whatever the balance. */
  lemma RefundEffect(db: Db, id: string, user: string, amount: int, source: string, reason: string, key: string)
    ensures Adjusts(db, Refund(db, id, user, amount, source, reason, key), amount > 0 &&
                    AllValid(user, source, reason, key),
                    id, user, -amount, KRefund, source, reason, key)
  {
  }

  // ---- Reserve --------------------------------------------------------------------------

  /** The key under which a request's reservation is entered. */
  predicate IsReserveKey(key: string, requestId: string) {
    |key| == 5 + |requestId| && key[..5] == "resv:" && key[5..] == requestId
  }

  /**
   A reserve: invalid arguments first; then a request that is already reserved, for its own
   user or for another; then the balance; then the database's constraints; and otherwise a
   new open reservation and its debit.
   */
  lemma ReserveEffect(db: Db, rid: string, user: string, requestId: string, amount: int, now: int, key: string)
    requires UniqueRequests(db.reservations) && IsReserveKey(key, requestId)
    ensures var eff := Reserve(db, rid, user, requestId, amount, now);
            var valid := ValidIdentifier(user) && ValidIdentifier(requestId) && amount >= 1;
            var free := forall q :: q in db.reservations ==> db.reservations[q].requestId != requestId;
            var taken := rid in db.reservations || IdUsed(db.ledger, rid + "-x") || KeyUsed(db.ledger, key);
            && (!valid ==> eff.result == Err(InvalidArgument))
            && (valid ==> forall q :: q in db.reservations && db.reservations[q].requestId == requestId ==>
                  eff.result == if db.reservations[q].user == user then Ok(q) else Err(RequestOwnedByOther))
            && (valid && free && Balance(db, user) < amount ==> eff.result == Err(InsufficientCredits))
            && (valid && free && Balance(db, user) >= amount && taken ==> eff.result == Err(ConstraintViolation))
            && (valid && free && Balance(db, user) >= amount && !taken ==> eff.result == Ok(rid))
            && (!valid || !free || Balance(db, user) < amount || taken ==> eff.db == db)
            && (valid && free && Balance(db, user) >= amount && !taken ==>
                Reserves(db, eff.db, rid, user, requestId, amount, now, key))
  {
    assert key == ReserveKey(requestId);
    var valid := ValidIdentifier(user) && ValidIdentifier(requestId) && amount >= 1;
    if valid && RequestUsed(db.reservations, requestId) {
      var r := ByRequest(db.reservations, requestId);
      assert r in db.reservations && db.reservations[r].requestId == requestId;
    }
  }

  /** What a new reservation leaves in the tables. */
  ghost predicate Reserves(db: Db, db': Db, rid: string, user: string, requestId: string, amount: int, now: int,
                           key: string) {
    && Moved(db, db', user, -amount)
    && Wrote(db.ledger, db'.ledger, rid + "-x", user, -amount, KReservation, "llm_reserve", Some(rid), Some(key), "")
    && rid in db'.reservations && OnlyRow(db.reservations, db'.reservations, rid)
    && var row := db'.reservations[rid];
       && row.user == user && row.requestId == requestId && row.amount == amount && row.captured == 0 &&
          row.released == 0
       && row.status == Reserved && row.createdAt == now
  }

  /** A successful reserve always returns a reservation of the caller's own, for the request asked for. */
  lemma ReserveReturnsOwn(db: Db, rid: string, user: string, requestId: string, amount: int, now: int)
    requires Reserve(db, rid, user, requestId, amount, now).result.Ok?
    ensures var eff := Reserve(db, rid, user, requestId, amount, now);
            && eff.result.value in eff.db.reservations
            && eff.db.reservations[eff.result.value].user == user
            && eff.db.reservations[eff.result.value].requestId == requestId
  {
  }

  /** In every reachable state a request that belongs to another user is refused, and nothing changes. */
  lemma OthersRequestRefused(steps: seq<Runs.Step>, r: string, rid: string, user: string, amount: int, now: int)
    requires r in Runs.Run(Runs.INIT, steps).db.reservations && ValidIdentifier(user) && amount >= 1
    requires Runs.Run(Runs.INIT, steps).db.reservations[r].user != user
    ensures var db := Runs.Run(Runs.INIT, steps).db;
            Reserve(db, rid, user, db.reservations[r].requestId, amount, now) == Effect(Err(RequestOwnedByOther), db)
  {
    var db := Runs.Run(Runs.INIT, steps).db;
    EmptyInv();
    Runs.RunKeeps(Runs.INIT, steps);
    Runs.RunNamed(Runs.INIT, steps);
    assert RequestUsed(db.reservations, db.reservations[r].requestId);
  }

  // ---- Settle and Release ---------------------------------------------------------------

  /** The reservation was closed with these columns, and its identity kept. */
  ghost predicate Closes(db: Db, db': Db, rid: string, captured: int, released: int, status: Status)
    requires rid in db.reservations
  {
    && rid in db'.reservations && OnlyRow(db.reservations, db'.reservations, rid)
    && var row, row' := db.reservations[rid], db'.reservations[rid];
       && row'.user == row.user && row'.requestId == row.requestId && row'.amount == row.amount
       && row'.createdAt == row.createdAt
       && row'.captured == captured && row'.released == released && row'.status == status
  }

  /** The difference went to the user, with a ledger row that refers to the reservation. */
  ghost predicate Returns(db: Db, db': Db, lid: string, rid: string, user: string, amount: int, kind: Kind,
                          source: string) {
    && Wrote(db.ledger, db'.ledger, lid, user, amount, kind, source, Some(rid), None, "")
    && (user in db.accounts ==> Moved(db, db', user, amount))
    && (user !in db.accounts ==> db'.accounts == db.accounts)
  }

  /**
   Settling: refused for a negative cost, an absent reservation and a closed one, in that
   order. Otherwise the reservation is captured at the cost; what it did not need is
   returned, what it lacked is drawn, and nothing is written when it was just enough.
   */
  lemma SettleEffect(db: Db, lid: string, rid: string, captured: int)
    ensures var eff := Settle(db, lid, rid, captured);
            && (captured < 0 ==> eff == Effect(Err(InvalidArgument), db))
            && (captured >= 0 && rid !in db.reservations ==> eff == Effect(Err(ReservationNotFound), db))
            && (captured >= 0 && rid in db.reservations && db.reservations[rid].status != Reserved ==>
                  eff == Effect(Err(ReservationClosed), db))
            && (captured >= 0 && rid in db.reservations && db.reservations[rid].status == Reserved ==>
                  var row := db.reservations[rid];
                  var left := row.amount - captured;
                  && (left != 0 && IdUsed(db.ledger, lid) ==> eff == Effect(Err(ConstraintViolation), db))
                  && (left == 0 || !IdUsed(db.ledger, lid) ==>
                        && eff.result == Ok(()) &&
                           Closes(db, eff.db, rid, captured, if left > 0 then left else 0, Captured)
                        && (left == 0 ==> eff.db.ledger == db.ledger && eff.db.accounts == db.accounts)
                        && (left > 0 ==> Returns(db, eff.db, lid, rid, row.user, left, KRelease, "llm_settle"))
                        && (left < 0 ==> Returns(db, eff.db, lid, rid, row.user, left, KOverage, "llm_settle"))))
  {
  }

  /** Releasing: the whole amount goes back, and the reservation is released with nothing captured. */
  lemma ReleaseEffect(db: Db, lid: string, rid: string)
    ensures var eff := Release(db, lid, rid);
            && (rid !in db.reservations ==> eff == Effect(Err(ReservationNotFound), db))
            && (rid in db.reservations && db.reservations[rid].status != Reserved ==>
                eff == Effect(Err(ReservationClosed), db))
            && (rid in db.reservations && db.reservations[rid].status == Reserved ==>
                  var row := db.reservations[rid];
                  && (row.amount != 0 && IdUsed(db.ledger, lid) ==> eff == Effect(Err(ConstraintViolation), db))
                  && (row.amount == 0 || !IdUsed(db.ledger, lid) ==>
                        && eff.result == Ok(()) && Closes(db, eff.db, rid, 0, row.amount, Released)
                        && (row.amount == 0 ==> eff.db.ledger == db.ledger && eff.db.accounts == db.accounts)
                        && (row.amount != 0 ==>
                            Returns(db, eff.db, lid, rid, row.user, row.amount, KRelease, "llm_cancel"))))
  {
  }

  // ---- Expiry ---------------------------------------------------------------------------

  /** Expiring a remembered row: nothing for a row that is absent or closed; otherwise only its status changes. */
  lemma ExpireEffect(db: Db, lid: string, st: Stale)
    ensures var eff := ExpireOne(db, lid, st);
            && (st.rid !in db.reservations || db.reservations[st.rid].status != Reserved ==> eff == Effect(Ok(()), db))
            && (st.rid in db.reservations && db.reservations[st.rid].status == Reserved ==>
                  var row := db.reservations[st.rid];
                  && (IdUsed(db.ledger, lid) ==> eff == Effect(Err(ConstraintViolation), db))
                  && (!IdUsed(db.ledger, lid) ==>
                        && eff.result == Ok(()) && Closes(db, eff.db, st.rid, row.captured, row.released, Expired)
                        && Returns(db, eff.db, lid, st.rid, st.user, st.amount, KRelease, "reconcile")))
  {
  }

  // ---- Steps ----------------------------------------------------------------------------

  /** Each step of a run is the transaction it is named after. */
  lemma StepsAreTransactions(s: Runs.Sys, id: string, user: string, amount: int, source: string, reason: string,
                             key: string, requestId: string, now: int)
    ensures Runs.Apply(s, Runs.Grant(id, user, amount, source, reason, key)).db
         == Grant(s.db, id, user, amount, source, reason, key).db
    ensures Runs.Apply(s, Runs.Refund(id, user, amount, source, reason, key)).db
         == Refund(s.db, id, user, amount, source, reason, key).db
    ensures Runs.Apply(s, Runs.Reserve(id, user, requestId, amount, now)).db
         == Reserve(s.db, id, user, requestId, amount, now).db
    ensures Runs.Apply(s, Runs.Settle(id, key, amount)).db == Settle(s.db, id, key, amount).db
    ensures Runs.Apply(s, Runs.Release(id, key)).db == Release(s.db, id, key).db
  {
  }

  /** A sweep expires the rows of its snapshot one after the other, from the front. */
  lemma SweepSteps(s: Runs.Sys, w: nat, cutoff: int, stales: seq<Stale>, lid: string)
    requires IsSnapshot(s.db, cutoff, stales) && stales != []
    ensures var s1 := Runs.Apply(s, Runs.Snapshot(w, cutoff, stales));
            var s2 := Runs.Apply(s1, Runs.ExpireNext(w, lid));
            && s1.db == s.db && s2.db == ExpireOne(s.db, lid, stales[0]).db
            && (ExpireOne(s.db, lid, stales[0]).result.Ok? ==> w in s2.sweeps && s2.sweeps[w] == stales[1..])
  {
  }
}
