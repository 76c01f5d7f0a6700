/**
 The credit tables (accounts, append-only ledger, reservations) and the effect of each
 committed or rolled-back transaction on them, as one step from state to state.
 */
module Ledger {
  import opened Basics

  datatype Kind = KGrant | KRefund | KReservation | KRelease | KOverage

  /** A row of credit_transactions. Rows are only ever appended. */
  datatype Entry = Entry(
    id: string, user: string, amount: int, kind: Kind, source: string,
    reference: Option<string>, key: Option<string>, reason: string)

  datatype Status = Reserved | Captured | Released | Expired

  /** A row of credit_reservations, without its id, which is the table's key. */
  datatype Reservation = Reservation(
    user: string, requestId: string, amount: int, captured: int, released: int,
    status: Status, createdAt: int)

  datatype Db = Db(
    accounts: map<string, int>, ledger: seq<Entry>, reservations: map<string, Reservation>)

  const EMPTY := Db(map[], [], map[])

  /** What a transaction reports, and the tables it leaves. */
  datatype Effect<+T> = Effect(result: Result<T>, db: Db)

  /** Materialized balance; a user without an account row reads as 0. */
  function Balance(db: Db, user: string): int {
    if user in db.accounts then db.accounts[user] else 0
  }

  predicate IdUsed(ledger: seq<Entry>, id: string) {
    exists i :: 0 <= i < |ledger| && ledger[i].id == id
  }

  predicate KeyUsed(ledger: seq<Entry>, key: string) {
    exists i :: 0 <= i < |ledger| && ledger[i].key == Some(key)
  }

  /** The UNIQUE constraints a new ledger row must respect. */
  predicate Insertable(ledger: seq<Entry>, e: Entry) {
    !IdUsed(ledger, e.id) && (e.key.Some? ==> !KeyUsed(ledger, e.key.value))
  }

  /** INSERT ... ON CONFLICT DO UPDATE: creates the account row when it is missing. */
  function Upsert(accounts: map<string, int>, user: string, amount: int): map<string, int> {
    accounts[user := (if user in accounts then accounts[user] else 0) + amount]
  }

  /** Bare UPDATE: touches nothing when the account row is missing. */
  function Bump(accounts: map<string, int>, user: string, amount: int): map<string, int> {
    if user in accounts then accounts[user := accounts[user] + amount] else accounts
  }

  // ---- Grant and Refund -----------------------------------------------------------------

  predicate ValidAdjustment(e: Entry) {
    ValidIdentifier(e.user) && ValidIdentifier(e.source) && ValidIdentifier(e.reason) &&
    e.key.Some? && ValidIdentifier(e.key.value)
  }

  /** The shared debit/credit transaction behind Grant, Refund, GrantTx and RefundTx. */
  function Adjust(db: Db, e: Entry): Effect<()> {
    if !ValidAdjustment(e) then Effect(Err(InvalidArgument), db)
    else if KeyUsed(db.ledger, e.key.value) then Effect(Err(DuplicateGrant), db)
    else if IdUsed(db.ledger, e.id) then Effect(Err(ConstraintViolation), db)
    else Effect(Ok(()), db.(ledger := db.ledger + [e], accounts := Upsert(db.accounts, e.user, e.amount)))
  }

  function GrantEntry(id: string, user: string, amount: int, source: string, reason: string, key: string): Entry {
    Entry(id, user, amount, KGrant, source, None, Some(key), reason)
  }

  function RefundEntry(id: string, user: string, amount: int, source: string, reason: string, key: string): Entry {
    Entry(id, user, -amount, KRefund, source, None, Some(key), reason)
  }

  function Grant(db: Db, id: string, user: string, amount: int, source: string, reason: string,
                 key: string): Effect<()>
  {
    if amount <= 0 then Effect(Err(InvalidArgument), db)
    else Adjust(db, GrantEntry(id, user, amount, source, reason, key))
  }

  function Refund(db: Db, id: string, user: string, amount: int, source: string, reason: string,
                  key: string): Effect<()>
  {
    if amount <= 0 then Effect(Err(InvalidArgument), db)
    else Adjust(db, RefundEntry(id, user, amount, source, reason, key))
  }

  // ---- Reserve --------------------------------------------------------------------------

  predicate RequestUsed(reservations: map<string, Reservation>, requestId: string) {
    exists r :: r in reservations && reservations[r].requestId == requestId
  }

  /** The reservation made for a request; request_id is UNIQUE, so there is at most one. */
  ghost function ByRequest(reservations: map<string, Reservation>, requestId: string): (r: string)
    requires RequestUsed(reservations, requestId)
    ensures r in reservations && reservations[r].requestId == requestId
  {
    var r :| r in reservations && reservations[r].requestId == requestId;
    r
  }

  function ReserveKey(requestId: string): string { "resv:" + requestId }

  function ReserveEntry(rid: string, user: string, requestId: string, amount: int): Entry {
    Entry(rid + "-x", user, -amount, KReservation, "llm_reserve", Some(rid), Some(ReserveKey(requestId)), "")
  }

  /**
   Withdraws `amount` for a pending call, or returns the id of the reservation that the
   request already has, whatever its status.
   */
  ghost function Reserve(db: Db, rid: string, user: string, requestId: string, amount: int, now: int): Effect<string> {
    if !ValidIdentifier(user) || !ValidIdentifier(requestId) || amount < 1 then
      Effect(Err(InvalidArgument), db)
    else if RequestUsed(db.reservations, requestId) then
      var r := ByRequest(db.reservations, requestId);
      if db.reservations[r].user != user then Effect(Err(RequestOwnedByOther), db)
      else Effect(Ok(r), db)
    else if user !in db.accounts || db.accounts[user] < amount then
      Effect(Err(InsufficientCredits), db)
    else if rid in db.reservations || !Insertable(db.ledger, ReserveEntry(rid, user, requestId, amount)) then
      Effect(Err(ConstraintViolation), db)
    else
      Effect(Ok(rid), Db(db.accounts[user := db.accounts[user] - amount],
                         db.ledger + [ReserveEntry(rid, user, requestId, amount)],
                         db.reservations[rid := Reservation(user, requestId, amount, 0, 0, Reserved, now)]))
  }

  // ---- Settle and Release ---------------------------------------------------------------

  /** What closing a reservation does: new row, and one signed ledger adjustment. */
  datatype Outcome = Outcome(returned: int, adjust: int, status: Status, kind: Kind, source: string)

  function Decide(row: Reservation, captured: int, releaseAll: bool): Outcome {
    if releaseAll then Outcome(row.amount, row.amount, Released, KRelease, "llm_cancel")
    else if captured > row.amount then Outcome(0, -(captured - row.amount), Captured, KOverage, "llm_settle")
    else Outcome(row.amount - captured, row.amount - captured, Captured, KRelease, "llm_settle")
  }

  function ReturnEntry(lid: string, rid: string, user: string, amount: int, kind: Kind, source: string): Entry {
    Entry(lid, user, amount, kind, source, Some(rid), None, "")
  }

  function Finalize(db: Db, lid: string, rid: string, captured: int, releaseAll: bool): Effect<()> {
    if !releaseAll && captured < 0 then Effect(Err(InvalidArgument), db)
    else if rid !in db.reservations then Effect(Err(ReservationNotFound), db)
    else if db.reservations[rid].status != Reserved then Effect(Err(ReservationClosed), db)
    else
      var row := db.reservations[rid];
      var out := Decide(row, captured, releaseAll);
      var rows := db.reservations[rid := row.(captured := captured, released := out.returned, status := out.status)];
      if out.adjust == 0 then Effect(Ok(()), db.(reservations := rows))
      else if IdUsed(db.ledger, lid) then Effect(Err(ConstraintViolation), db)
      else Effect(Ok(()), Db(Bump(db.accounts, row.user, out.adjust),
                             db.ledger + [ReturnEntry(lid, rid, row.user, out.adjust, out.kind, out.source)],
                             rows))
  }

  function Settle(db: Db, lid: string, rid: string, captured: int): Effect<()> {
    Finalize(db, lid, rid, captured, false)
  }

  function Release(db: Db, lid: string, rid: string): Effect<()> {
    Finalize(db, lid, rid, 0, true)
  }

  // ---- Expiry ---------------------------------------------------------------------------

  /** What expireStale remembers about a stale reservation between its SELECT and its UPDATE. */
  datatype Stale = Stale(rid: string, user: string, amount: int)

  /** expireOne: closes the row only if it is still reserved, and pays back the remembered amount. */
  function ExpireOne(db: Db, lid: string, st: Stale): Effect<()> {
    if st.rid !in db.reservations || db.reservations[st.rid].status != Reserved then Effect(Ok(()), db)
    else if IdUsed(db.ledger, lid) then Effect(Err(ConstraintViolation), db)
    else Effect(Ok(()), Db(Bump(db.accounts, st.user, st.amount),
                           db.ledger + [ReturnEntry(lid, st.rid, st.user, st.amount, KRelease, "reconcile")],
                           db.reservations[st.rid := db.reservations[st.rid].(status := Expired)]))
  }

  predicate IsStale(row: Reservation, cutoff: int) {
    row.status == Reserved && row.createdAt < cutoff
  }

  /** The rows a stale-reservation query may return: every match once, in some order. */
  ghost predicate IsSnapshot(db: Db, cutoff: int, stales: seq<Stale>) {
    && (forall i :: 0 <= i < |stales| ==>
          && stales[i].rid in db.reservations
          && var row := db.reservations[stales[i].rid];
             IsStale(row, cutoff) && stales[i].user == row.user && stales[i].amount == row.amount)
    && (forall i, j :: 0 <= i < j < |stales| ==> stales[i].rid != stales[j].rid)
    && (forall r :: r in db.reservations && IsStale(db.reservations[r], cutoff) ==>
          exists i :: 0 <= i < |stales| && stales[i].rid == r)
  }

  // ---- Sums over the ledger and the reservations ----------------------------------------

  /** Sum of the amounts of the rows that satisfy `p`. */
  function Total(ledger: seq<Entry>, p: Entry -> bool): int {
    if ledger == [] then 0
    else
      var e := ledger[|ledger| - 1];
      Total(ledger[..|ledger| - 1], p) + if p(e) then e.amount else 0
  }

  function ByUser(user: string): Entry -> bool { (e: Entry) => e.user == user }

  function ByReference(rid: string): Entry -> bool { (e: Entry) => e.reference == Some(rid) }

  function GrantsOf(user: string): Entry -> bool { (e: Entry) => e.user == user && e.kind == KGrant }

  function RefundsOf(user: string): Entry -> bool { (e: Entry) => e.user == user && e.kind == KRefund }

  /** Number of rows under an idempotency key. */
  function CountKey(ledger: seq<Entry>, key: string): nat {
    if ledger == [] then 0
    else CountKey(ledger[..|ledger| - 1], key) + if ledger[|ledger| - 1].key == Some(key) then 1 else 0
  }

  lemma CountAppend(ledger: seq<Entry>, e: Entry, key: string)
    ensures CountKey(ledger + [e], key) == CountKey(ledger, key) + if e.key == Some(key) then 1 else 0
  {
    assert (ledger + [e])[..|ledger|] == ledger;
  }

  lemma {:induction false} CountUnused(ledger: seq<Entry>, key: string)
    requires !KeyUsed(ledger, key)
    ensures CountKey(ledger, key) == 0
  {
    if ledger != [] {
      CountUnused(ledger[..|ledger| - 1], key);
    }
  }

  lemma {:induction false} CountUsed(ledger: seq<Entry>, key: string)
    requires KeyUsed(ledger, key)
    ensures CountKey(ledger, key) >= 1
  {
    var n := |ledger| - 1;
    if ledger[n].key != Some(key) {
      var i :| 0 <= i < |ledger| && ledger[i].key == Some(key);
      assert ledger[..n][i].key == Some(key);
      CountUsed(ledger[..n], key);
    }
  }

  lemma TotalAppend(ledger: seq<Entry>, e: Entry, p: Entry -> bool)
    ensures Total(ledger + [e], p) == Total(ledger, p) + if p(e) then e.amount else 0
  {
    assert (ledger + [e])[..|ledger|] == ledger;
  }

  lemma {:induction false} TotalOfNone(ledger: seq<Entry>, p: Entry -> bool)
    requires forall i :: 0 <= i < |ledger| ==> !p(ledger[i])
    ensures Total(ledger, p) == 0
  {
    if ledger != [] {
      TotalOfNone(ledger[..|ledger| - 1], p);
    }
  }

  /** Credits a reservation keeps away from its user's balance. */
  function Held(row: Reservation): int {
    match row.status
    case Reserved => row.amount
    case Captured => row.captured
    case Released => 0
    case Expired => 0
  }

  function HeldFrom(row: Reservation, user: string): int {
    if row.user == user then Held(row) else 0
  }

  /** Sum of what all reservations of a user keep away from the balance. */
  ghost function HeldBy(rows: map<string, Reservation>, user: string): int
    decreases |rows|
  {
    if rows == map[] then 0
    else
      var r :| r in rows;
      HeldFrom(rows[r], user) + HeldBy(rows - {r}, user)
  }

  /** Any row may be taken out first. */
  lemma {:induction false} HeldByRemove(rows: map<string, Reservation>, r: string, user: string)
    requires r in rows
    ensures HeldBy(rows, user) == HeldFrom(rows[r], user) + HeldBy(rows - {r}, user)
    decreases |rows|
  {
    var q :| q in rows && HeldBy(rows, user) == HeldFrom(rows[q], user) + HeldBy(rows - {q}, user);
    if q != r {
      HeldByRemove(rows - {q}, r, user);
      HeldByRemove(rows - {r}, q, user);
      assert rows - {q} - {r} == rows - {r} - {q};
    }
  }

  /** Writing a row changes the sum by the difference of the two rows. */
  lemma HeldByWrite(rows: map<string, Reservation>, r: string, row: Reservation, user: string)
    ensures HeldBy(rows[r := row], user)
         == HeldBy(rows, user) + HeldFrom(row, user) - if r in rows then HeldFrom(rows[r], user) else 0
  {
    HeldByRemove(rows[r := row], r, user);
    assert rows[r := row] - {r} == rows - {r};
    if r in rows {
      HeldByRemove(rows, r, user);
    } else {
      assert rows - {r} == rows;
    }
  }
}
