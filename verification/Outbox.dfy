/**
 The settlement outbox: a procedure of several separate transactions over an outbox row
 and its reservation, run by any number of clients that may crash between any two of them.
 */
module Outbox {
  import opened Basics
  import opened Ledger
  import opened Invariants
  import Runs

  datatype RowStatus = Pending | Settled | Failed | Lapsed

  datatype Row = Row(user: string, rid: string, status: RowStatus, attempts: nat, createdAt: int)

  /** Where a client is: it has read row and reservation, or it still has to write the row's status. */
  datatype Phase =
    | Settling(requestId: string, rid: string)
    | Lapsing(requestId: string, rid: string)
    | Marking(requestId: string, status: RowStatus, bump: bool)

  datatype State = State(sys: Runs.Sys, rows: map<string, Row>, clients: map<nat, Phase>)

  const START := State(Runs.INIT, map[], map[])

  const STALE_SECONDS := 3600

  datatype Step =
    | Enqueue(requestId: string, user: string, rid: string, now: int)
    | Begin(client: nat, requestId: string)
    | Charge(client: nat, lid: string, charge: Option<int>)
    | BeginLapse(client: nat, requestId: string, now: int)
    | LapseRelease(client: nat, lid: string)
    | Mark(client: nat)
    | Crash(client: nat)
    | Core(step: Runs.Step)

  /** SettleViaOutbox after its reads: an unpriceable usage releases, a priced one settles. */
  function Close(db: Db, lid: string, rid: string, charge: Option<int>): Effect<()> {
    match charge
    case None => Release(db, lid, rid)
    case Some(credits) => Settle(db, lid, rid, credits)
  }

  /** What the client then writes on the row: only a successful settle counts as settled. */
  function Verdict(requestId: string, charge: Option<int>, closed: Result<()>): Phase {
    if charge.None? then Marking(requestId, Failed, false)
    else if closed.Ok? then Marking(requestId, Settled, false)
    else Marking(requestId, Failed, true)
  }

  function Marked(row: Row, m: Phase): Row
    requires m.Marking?
  {
    row.(status := m.status, attempts := row.attempts + if m.bump then 1 else 0)
  }

  ghost function Apply(s: State, step: Step): State {
    match step
    case Enqueue(req, user, rid, now) =>
      if req in s.rows then s else s.(rows := s.rows[req := Row(user, rid, Pending, 0, now)])
    case Begin(c, req) =>
      if req in s.rows && s.rows[req].rid in s.sys.db.reservations then
        s.(clients := s.clients[c := Settling(req, s.rows[req].rid)])
      else s
    case Charge(c, lid, charge) =>
      if c !in s.clients || !s.clients[c].Settling? then s
      else
        var eff := Close(s.sys.db, lid, s.clients[c].rid, charge);
        s.(sys := s.sys.(db := eff.db), clients := s.clients[c := Verdict(s.clients[c].requestId, charge, eff.result)])
    case BeginLapse(c, req, now) =>
      if && req in s.rows && now - s.rows[req].createdAt > STALE_SECONDS
         && s.rows[req].rid in s.sys.db.reservations && s.sys.db.reservations[s.rows[req].rid].status == Reserved
      then s.(clients := s.clients[c := Lapsing(req, s.rows[req].rid)])
      else s
    case LapseRelease(c, lid) =>
      if c !in s.clients || !s.clients[c].Lapsing? then s
      else
        // The outcome of the release is ignored.
        s.(sys := s.sys.(db := Release(s.sys.db, lid, s.clients[c].rid).db),
           clients := s.clients[c := Marking(s.clients[c].requestId, Lapsed, false)])
    case Mark(c) =>
      if c !in s.clients || !s.clients[c].Marking? then s
      else
        var m := s.clients[c];
        s.(clients := s.clients - {c},
           rows := if m.requestId in s.rows then s.rows[m.requestId := Marked(s.rows[m.requestId], m)] else s.rows)
    case Crash(c) =>
      s.(clients := s.clients - {c})
    case Core(st) =>
      s.(sys := Runs.Apply(s.sys, st))
  }

  ghost function Run(s: State, steps: seq<Step>): State
    decreases |steps|
  {
    if steps == [] then s else Run(Apply(s, steps[0]), steps[1..])
  }

  predicate Closed(db: Db, rid: string) {
    rid in db.reservations && db.reservations[rid].status != Reserved
  }

  predicate WasCaptured(db: Db, rid: string) {
    rid in db.reservations && db.reservations[rid].status == Captured
  }

  /** Settle and Release fail here only because the reservation is closed: ids are fresh and charges not negative. */
  ghost predicate DomainFailuresOnly(s: State, step: Step) {
    match step
    case Charge(_, lid, charge) => !IdUsed(s.sys.db.ledger, lid) && (charge.Some? ==> charge.value >= 0)
    case LapseRelease(_, lid) => !IdUsed(s.sys.db.ledger, lid)
    case _ => true
  }

  ghost predicate DomainRun(s: State, steps: seq<Step>)
    decreases |steps|
  {
    steps == [] || (DomainFailuresOnly(s, steps[0]) && DomainRun(Apply(s, steps[0]), steps[1..]))
  }

  /** A row's status never contradicts its reservation. */
  ghost predicate Consistent(s: State) {
    forall req :: req in s.rows ==>
      && (s.rows[req].status != Pending ==> Closed(s.sys.db, s.rows[req].rid))
      && (s.rows[req].status == Settled ==> WasCaptured(s.sys.db, s.rows[req].rid))
  }

  /** What a client remembers is still true of the tables. */
  ghost predicate ClientOk(s: State, m: Phase) {
    && m.requestId in s.rows
    && var rid := s.rows[m.requestId].rid;
       match m
       case Settling(_, r) => r == rid && rid in s.sys.db.reservations
       case Lapsing(_, r) => r == rid && rid in s.sys.db.reservations
       case Marking(_, status, _) =>
         status != Pending && Closed(s.sys.db, rid) && (status == Settled ==> WasCaptured(s.sys.db, rid))
  }

  ghost predicate OutboxInv(s: State) {
    && Runs.SysInv(s.sys) && Consistent(s)
    && forall c :: c in s.clients ==> ClientOk(s, s.clients[c])
  }

  /**
   Closing an open reservation succeeds exactly when the charge is not negative and the
   ledger row, if one is needed, gets an unused id; it is captured exactly when a priced
   charge succeeded.
   */
  lemma CloseCloses(db: Db, lid: string, rid: string, charge: Option<int>)
    requires rid in db.reservations && db.reservations[rid].status == Reserved
    ensures var eff := Close(db, lid, rid, charge);
            var row := db.reservations[rid];
            var amount := Decide(row, if charge.Some? then charge.value else 0, charge.None?).adjust;
            && (Closed(eff.db, rid) <==>
                  (charge.Some? ==> charge.value >= 0) && (amount == 0 || !IdUsed(db.ledger, lid)))
            && (eff.result.Ok? <==> Closed(eff.db, rid))
            && (WasCaptured(eff.db, rid) <==> eff.result.Ok? && charge.Some?)
  {
  }

  /** A closed reservation is immune to the whole procedure. */
  lemma CloseOnClosed(db: Db, lid: string, rid: string, charge: Option<int>)
    requires Closed(db, rid)
    ensures Close(db, lid, rid, charge).db == db && Close(db, lid, rid, charge).result.Err?
  {
  }

  /** Facts about closed reservations survive whatever else happens. */
  lemma ClosedCarries(db: Db, db': Db, rid: string)
    requires Preserves(db, db')
    ensures rid in db.reservations ==> rid in db'.reservations
    ensures Closed(db, rid) ==> Closed(db', rid)
    ensures WasCaptured(db, rid) ==> WasCaptured(db', rid)
  {
  }

  lemma Carries(s: State, s': State)
    requires OutboxInv(s) && Runs.SysInv(s'.sys) && Preserves(s.sys.db, s'.sys.db)
    requires s'.rows == s.rows && s'.clients == s.clients
    ensures OutboxInv(s')
  {
    forall req | req in s.rows ensures true {
      ClosedCarries(s.sys.db, s'.sys.db, s.rows[req].rid);
    }
  }

  /** Every step is, for the credit tables, some credit transaction or nothing. */
  lemma StepKeepsTables(s: State, step: Step)
    requires Runs.SysInv(s.sys)
    ensures Runs.SysInv(Apply(s, step).sys) && Preserves(s.sys.db, Apply(s, step).sys.db)
  {
    match step
    case Charge(c, lid, charge) =>
      if c in s.clients && s.clients[c].Settling? {
        var st := if charge.None? then Runs.Release(lid, s.clients[c].rid)
                  else Runs.Settle(lid, s.clients[c].rid, charge.value);
        assert Apply(s, step).sys == Runs.Apply(s.sys, st);
        Runs.StepKeeps(s.sys, st);
      }
    case LapseRelease(c, lid) =>
      if c in s.clients && s.clients[c].Lapsing? {
        var st := Runs.Release(lid, s.clients[c].rid);
        assert Apply(s, step).sys == Runs.Apply(s.sys, st);
        Runs.StepKeeps(s.sys, st);
      }
    case Core(st) =>
      Runs.StepKeeps(s.sys, st);
    case _ =>
  }

  /** A client that closed the reservation, or found it closed, may write its verdict. */
  lemma FinishKeeps(s: State, c: nat, sys: Runs.Sys, m: Phase)
    requires OutboxInv(s) && c in s.clients && Runs.SysInv(sys) && Preserves(s.sys.db, sys.db)
    requires m.Marking? && ClientOk(s.(sys := sys), m)
    ensures OutboxInv(s.(sys := sys, clients := s.clients[c := m]))
  {
    Carries(s, s.(sys := sys));
  }

  lemma ChargeKeeps(s: State, c: nat, lid: string, charge: Option<int>)
    requires OutboxInv(s) && DomainFailuresOnly(s, Charge(c, lid, charge))
    ensures OutboxInv(Apply(s, Charge(c, lid, charge)))
  {
    if c in s.clients && s.clients[c].Settling? {
      var rid := s.clients[c].rid;
      var eff := Close(s.sys.db, lid, rid, charge);
      StepKeepsTables(s, Charge(c, lid, charge));
      assert ClientOk(s, s.clients[c]);
      if Closed(s.sys.db, rid) {
        CloseOnClosed(s.sys.db, lid, rid, charge);
      } else {
        CloseCloses(s.sys.db, lid, rid, charge);
      }
      FinishKeeps(s, c, s.sys.(db := eff.db), Verdict(s.clients[c].requestId, charge, eff.result));
    }
  }

  lemma LapseKeeps(s: State, c: nat, lid: string)
    requires OutboxInv(s) && DomainFailuresOnly(s, LapseRelease(c, lid))
    ensures OutboxInv(Apply(s, LapseRelease(c, lid)))
  {
    if c in s.clients && s.clients[c].Lapsing? {
      var rid := s.clients[c].rid;
      var eff := Close(s.sys.db, lid, rid, None);
      StepKeepsTables(s, LapseRelease(c, lid));
      assert ClientOk(s, s.clients[c]);
      if Closed(s.sys.db, rid) {
        CloseOnClosed(s.sys.db, lid, rid, None);
      } else {
        CloseCloses(s.sys.db, lid, rid, None);
      }
      FinishKeeps(s, c, s.sys.(db := eff.db), Marking(s.clients[c].requestId, Lapsed, false));
    }
  }

  lemma MarkKeeps(s: State, c: nat)
    requires OutboxInv(s)
    ensures OutboxInv(Apply(s, Mark(c)))
  {
  }

  /** Queueing, starting and crashing only move rows and clients into phases that hold of the tables. */
  lemma BeginKeeps(s: State, step: Step)
    requires OutboxInv(s) && (step.Enqueue? || step.Begin? || step.BeginLapse? || step.Crash?)
    ensures OutboxInv(Apply(s, step))
  {
  }

  lemma StepKeeps(s: State, step: Step)
    requires OutboxInv(s) && DomainFailuresOnly(s, step)
    ensures OutboxInv(Apply(s, step))
  {
    match step
    case Charge(c, lid, charge) => ChargeKeeps(s, c, lid, charge);
    case LapseRelease(c, lid) => LapseKeeps(s, c, lid);
    case Mark(c) => MarkKeeps(s, c);
    case Core(st) =>
      StepKeepsTables(s, step);
      Carries(s, Apply(s, step));
    case _ => BeginKeeps(s, step);
  }

  lemma {:induction false} RunKeeps(s: State, steps: seq<Step>)
    requires OutboxInv(s) && DomainRun(s, steps)
    ensures OutboxInv(Run(s, steps))
    decreases |steps|
  {
    if steps != [] {
      StepKeeps(s, steps[0]);
      RunKeeps(Apply(s, steps[0]), steps[1..]);
    }
  }

  lemma {:induction false} RunKeepsTables(s: State, steps: seq<Step>)
    requires Runs.SysInv(s.sys)
    ensures Runs.SysInv(Run(s, steps).sys) && Preserves(s.sys.db, Run(s, steps).sys.db)
    decreases |steps|
  {
    if steps != [] {
      StepKeepsTables(s, steps[0]);
      RunKeepsTables(Apply(s, steps[0]), steps[1..]);
      Runs.PreservesTransitive(s.sys.db, Apply(s, steps[0]).sys.db, Run(s, steps).sys.db);
    }
  }

  // ---- Main results ---------------------------------------------------------------------

  /**
   At every step boundary of every run with crashes anywhere, in which settling and
   releasing fail only for domain reasons: a row that is no longer pending points to a
   closed reservation, and a settled row to a captured one.
   */
  lemma OutboxNeverContradicts(steps: seq<Step>)
    requires DomainRun(START, steps)
    ensures Consistent(Run(START, steps))
  {
    EmptyInv();
    RunKeeps(START, steps);
  }

  /** With a negative charge the guarantee is lost: the row ends up failed while the reservation stays open. */
  lemma NegativeChargeContradicts(s: State, c: nat, lid: string, charge: int)
    requires c in s.clients && s.clients[c].Settling? && charge < 0
    requires s.clients[c].requestId in s.rows && s.rows[s.clients[c].requestId].rid == s.clients[c].rid
    requires s.clients[c].rid in s.sys.db.reservations && s.sys.db.reservations[s.clients[c].rid].status == Reserved
    ensures !Consistent(Run(s, [Charge(c, lid, Some(charge)), Mark(c)]))
  {
    var s1 := Apply(s, Charge(c, lid, Some(charge)));
    var s2 := Apply(s1, Mark(c));
    assert Run(s, [Charge(c, lid, Some(charge)), Mark(c)]) == s2 by {
      assert [Charge(c, lid, Some(charge)), Mark(c)][1..] == [Mark(c)];
      assert Run(s1, [Mark(c)]) == Run(s2, [Mark(c)][1..]);
    }
    var req := s.clients[c].requestId;
    assert req in s2.rows && s2.rows[req].status == Failed && !Closed(s2.sys.db, s2.rows[req].rid);
  }

  /**
   Calling again is harmless: once a call has closed its reservation, whatever any clients
   do next and however often the call is repeated, no later attempt changes a balance, a
   ledger row or a reservation.
   */
  lemma RetryChangesNothing(s: State, c: nat, lid: string, charge: Option<int>, between: seq<Step>,
                            d: nat, lid': string, charge': Option<int>)
    requires Runs.SysInv(s.sys) && c in s.clients && ClientOk(s, s.clients[c]) && s.clients[c].Settling?
    requires DomainFailuresOnly(s, Charge(c, lid, charge))
    requires var t := Run(Apply(s, Charge(c, lid, charge)), between);
             d in t.clients && t.clients[d].Settling? && t.clients[d].rid == s.clients[c].rid
    ensures var t := Run(Apply(s, Charge(c, lid, charge)), between);
            Apply(t, Charge(d, lid', charge')).sys == t.sys
  {
    var rid := s.clients[c].rid;
    var s1 := Apply(s, Charge(c, lid, charge));
    if Closed(s.sys.db, rid) {
      CloseOnClosed(s.sys.db, lid, rid, charge);
    } else {
      CloseCloses(s.sys.db, lid, rid, charge);
    }
    StepKeepsTables(s, Charge(c, lid, charge));
    RunKeepsTables(s1, between);
    ClosedCarries(s1.sys.db, Run(s1, between).sys.db, rid);
    CloseOnClosed(Run(s1, between).sys.db, lid', rid, charge');
  }

  /** A call on a closed reservation changes no credit table and marks the row failed. */
  lemma LateCall(s: State, c: nat, req: string, lid: string, charge: int)
    requires req in s.rows && Closed(s.sys.db, s.rows[req].rid)
    ensures var s' := Apply(Apply(Apply(s, Begin(c, req)), Charge(c, lid, Some(charge))), Mark(c));
            && req in s'.rows && s'.rows[req].status == Failed && s'.rows[req].rid == s.rows[req].rid && s'.sys == s.sys
  {
    CloseOnClosed(s.sys.db, lid, s.rows[req].rid, Some(charge));
  }

  /** The state in which a client crashes right after its settle. */
  lemma SettledAndCrashed(s: State, c: nat, lid: string, charge: int)
    requires OutboxInv(s) && c in s.clients && s.clients[c].Settling?
    requires s.clients[c].rid in s.sys.db.reservations && s.sys.db.reservations[s.clients[c].rid].status == Reserved
    requires charge >= 0 && !IdUsed(s.sys.db.ledger, lid)
    ensures var s1 := Apply(s, Charge(c, lid, Some(charge)));
            && Apply(s1, Crash(c)).sys == s1.sys && Apply(s1, Crash(c)).rows == s.rows &&
               s.clients[c].requestId in s.rows
            && WasCaptured(s1.sys.db, s.rows[s.clients[c].requestId].rid)
  {
    assert ClientOk(s, s.clients[c]);
    CloseCloses(s.sys.db, lid, s.clients[c].rid, Some(charge));
  }

  /**
   A crash between the settle and the status write is not repaired by the retry: the
   retry finds the reservation closed and marks the row failed although the credits were
   captured.
   */
  lemma RetryAfterCrashReportsFailure(s: State, c: nat, lid: string, charge: int, lid': string, charge': int)
    requires OutboxInv(s) && c in s.clients && s.clients[c].Settling?
    requires s.clients[c].rid in s.sys.db.reservations && s.sys.db.reservations[s.clients[c].rid].status == Reserved
    requires charge >= 0 && !IdUsed(s.sys.db.ledger, lid)
    ensures var req := s.clients[c].requestId;
            var s1 := Apply(s, Charge(c, lid, Some(charge)));
            var s2 := Apply(Apply(s1, Crash(c)), Begin(c, req));
            var s3 := Apply(Apply(s2, Charge(c, lid', Some(charge'))), Mark(c));
            && req in s3.rows && s3.rows[req].status == Failed && WasCaptured(s3.sys.db, s3.rows[req].rid)
            && s3.sys == s1.sys
  {
    SettledAndCrashed(s, c, lid, charge);
    LateCall(Apply(Apply(s, Charge(c, lid, Some(charge))), Crash(c)), c, s.clients[c].requestId, lid', charge');
  }

  // ---- Failed although captured ---------------------------------------------------------

  /**
   Exactly when a call reports failure for a captured request: when the reservation was
   captured already before the call tried to charge it, which the client can read first.
   */
  lemma FailsCapturedIff(s: State, c: nat, lid: string, charge: Option<int>)
    requires c in s.clients && s.clients[c].Settling? && s.clients[c].rid in s.sys.db.reservations
    ensures var s', rid := Apply(s, Charge(c, lid, charge)), s.clients[c].rid;
            && c in s'.clients && s'.clients[c].Marking?
            && (s'.clients[c].status == Failed && WasCaptured(s'.sys.db, rid) <==> WasCaptured(s.sys.db, rid))
  {
  }

  /** The same for the lapse of a pending row, which ignores whether its release went through. */
  lemma LapsesCapturedIff(s: State, c: nat, lid: string)
    requires c in s.clients && s.clients[c].Lapsing? && s.clients[c].rid in s.sys.db.reservations
    ensures var s', rid := Apply(s, LapseRelease(c, lid)), s.clients[c].rid;
            && c in s'.clients && s'.clients[c].Marking? && s'.clients[c].status == Lapsed
            && (WasCaptured(s'.sys.db, rid) <==> WasCaptured(s.sys.db, rid))
  {
  }

  /** A status that tells a captured request as something else. */
  predicate Misreports(status: RowStatus) { status == Failed || status == Lapsed }

  /** Which clients carry a verdict reached on a captured reservation, and which rows last received one. */
  datatype History = History(clients: set<nat>, rows: set<string>)

  const NO_HISTORY := History({}, {})

  ghost function Note(s: State, h: History, step: Step): History {
    match step
    case Charge(c, _, _) =>
      if c !in s.clients || !s.clients[c].Settling? then h
      else if WasCaptured(s.sys.db, s.clients[c].rid) then h.(clients := h.clients + {c})
      else h.(clients := h.clients - {c})
    case LapseRelease(c, _) =>
      if c !in s.clients || !s.clients[c].Lapsing? then h
      else if WasCaptured(s.sys.db, s.clients[c].rid) then h.(clients := h.clients + {c})
      else h.(clients := h.clients - {c})
    case Mark(c) =>
      if c !in s.clients || !s.clients[c].Marking? then h
      else
        var req := s.clients[c].requestId;
        History(h.clients - {c}, if c in h.clients then h.rows + {req} else h.rows - {req})
    case Begin(c, _) => if Apply(s, step) != s then h.(clients := h.clients - {c}) else h
    case BeginLapse(c, _, _) => if Apply(s, step) != s then h.(clients := h.clients - {c}) else h
    case Crash(c) => h.(clients := h.clients - {c})
    case _ => h
  }

  ghost function Noted(s: State, h: History, steps: seq<Step>): History
    decreases |steps|
  {
    if steps == [] then h else Noted(Apply(s, steps[0]), Note(s, h, steps[0]), steps[1..])
  }

  /** A client is late exactly when it is about to write a failure or a lapse over a captured reservation. */
  ghost predicate LateClient(s: State, h: History, c: nat)
    requires c in s.clients
  {
    var m := s.clients[c];
    && m.requestId in s.rows
    && (c in h.clients <==> m.Marking? && Misreports(m.status) && WasCaptured(s.sys.db, s.rows[m.requestId].rid))
  }

  ghost predicate LateRow(s: State, h: History, req: string)
    requires req in s.rows
  {
    req in h.rows <==> Misreports(s.rows[req].status) && WasCaptured(s.sys.db, s.rows[req].rid)
  }

  ghost predicate HistoryInv(s: State, h: History) {
    && h.clients <= s.clients.Keys && h.rows <= s.rows.Keys
    && (forall c :: c in s.clients ==> LateClient(s, h, c))
    && (forall req :: req in s.rows ==> LateRow(s, h, req))
  }

  lemma SameCapture(db: Db, db': Db, rid: string)
    requires Preserves(db, db') && Closed(db, rid)
    ensures WasCaptured(db', rid) <==> WasCaptured(db, rid)
  {
  }

  lemma HistoryCarries(s: State, h: History, sys: Runs.Sys)
    requires OutboxInv(s) && HistoryInv(s, h) && Preserves(s.sys.db, sys.db)
    ensures HistoryInv(s.(sys := sys), h)
  {
    forall c | c in s.clients ensures LateClient(s.(sys := sys), h, c) {
      assert LateClient(s, h, c) && ClientOk(s, s.clients[c]);
      if s.clients[c].Marking? {
        SameCapture(s.sys.db, sys.db, s.rows[s.clients[c].requestId].rid);
      }
    }
    forall req | req in s.rows ensures LateRow(s.(sys := sys), h, req) {
      assert LateRow(s, h, req);
      if Misreports(s.rows[req].status) {
        SameCapture(s.sys.db, sys.db, s.rows[req].rid);
      }
    }
  }

  lemma HistorySet(s: State, h: History, c: nat, m: Phase, late: bool)
    requires HistoryInv(s, h) && m.requestId in s.rows
    requires late <==> m.Marking? && Misreports(m.status) && WasCaptured(s.sys.db, s.rows[m.requestId].rid)
    ensures HistoryInv(s.(clients := s.clients[c := m]),
                       h.(clients := if late then h.clients + {c} else h.clients - {c}))
  {
    var s', h' := s.(clients := s.clients[c := m]), h.(clients := if late then h.clients + {c} else h.clients - {c});
    forall d | d in s'.clients ensures LateClient(s', h', d) {
      assert d != c ==> LateClient(s, h, d);
    }
    forall req | req in s'.rows ensures LateRow(s', h', req) {
      assert LateRow(s, h, req);
    }
  }

  lemma HistoryDrop(s: State, h: History, c: nat)
    requires HistoryInv(s, h)
    ensures HistoryInv(s.(clients := s.clients - {c}), h.(clients := h.clients - {c}))
  {
    var s', h' := s.(clients := s.clients - {c}), h.(clients := h.clients - {c});
    forall d | d in s'.clients ensures LateClient(s', h', d) {
      assert LateClient(s, h, d);
    }
    forall req | req in s'.rows ensures LateRow(s', h', req) {
      assert LateRow(s, h, req);
    }
  }

  /** Writing a verdict on its row passes the client's history on to the row. */
  lemma HistoryMark(s: State, h: History, c: nat)
    requires HistoryInv(s, h) && c in s.clients && s.clients[c].Marking?
    ensures HistoryInv(Apply(s, Mark(c)), Note(s, h, Mark(c)))
  {
    var s', h' := Apply(s, Mark(c)), Note(s, h, Mark(c));
    assert LateClient(s, h, c);
    forall d | d in s'.clients ensures LateClient(s', h', d) {
      assert LateClient(s, h, d);
    }
    forall req | req in s'.rows ensures LateRow(s', h', req) {
      assert LateRow(s, h, req);
    }
  }

  lemma HistoryEnqueue(s: State, h: History, req: string, row: Row)
    requires HistoryInv(s, h) && req !in s.rows && row.status == Pending
    ensures HistoryInv(s.(rows := s.rows[req := row]), h)
  {
    var s' := s.(rows := s.rows[req := row]);
    forall d | d in s'.clients ensures LateClient(s', h, d) {
      assert LateClient(s, h, d);
    }
    forall q | q in s'.rows ensures LateRow(s', h, q) {
      assert q != req ==> LateRow(s, h, q);
    }
  }

  lemma ChargeHistory(s: State, h: History, c: nat, lid: string, charge: Option<int>)
    requires OutboxInv(s) && HistoryInv(s, h) && c in s.clients && s.clients[c].Settling?
    ensures HistoryInv(Apply(s, Charge(c, lid, charge)), Note(s, h, Charge(c, lid, charge)))
  {
    var rid := s.clients[c].rid;
    var eff := Close(s.sys.db, lid, rid, charge);
    assert ClientOk(s, s.clients[c]);
    StepKeepsTables(s, Charge(c, lid, charge));
    FailsCapturedIff(s, c, lid, charge);
    var s1 := s.(sys := s.sys.(db := eff.db));
    HistoryCarries(s, h, s1.sys);
    HistorySet(s1, h, c, Verdict(s.clients[c].requestId, charge, eff.result), WasCaptured(s.sys.db, rid));
  }

  lemma LapseHistory(s: State, h: History, c: nat, lid: string)
    requires OutboxInv(s) && HistoryInv(s, h) && c in s.clients && s.clients[c].Lapsing?
    ensures HistoryInv(Apply(s, LapseRelease(c, lid)), Note(s, h, LapseRelease(c, lid)))
  {
    assert ClientOk(s, s.clients[c]);
    StepKeepsTables(s, LapseRelease(c, lid));
    LapsesCapturedIff(s, c, lid);
    LapseMove(s, h, c, Apply(s, LapseRelease(c, lid)).sys, WasCaptured(s.sys.db, s.clients[c].rid));
  }

  lemma LapseMove(s: State, h: History, c: nat, sys: Runs.Sys, late: bool)
    requires OutboxInv(s) && HistoryInv(s, h) && c in s.clients && s.clients[c].Lapsing? && Preserves(s.sys.db, sys.db)
    requires late <==> WasCaptured(sys.db, s.clients[c].rid)
    ensures HistoryInv(s.(sys := sys, clients := s.clients[c := Marking(s.clients[c].requestId, Lapsed, false)]),
                       h.(clients := if late then h.clients + {c} else h.clients - {c}))
  {
    assert ClientOk(s, s.clients[c]);
    HistoryCarries(s, h, sys);
    HistorySet(s.(sys := sys), h, c, Marking(s.clients[c].requestId, Lapsed, false), late);
  }

  lemma StepHistory(s: State, h: History, step: Step)
    requires OutboxInv(s) && HistoryInv(s, h)
    ensures HistoryInv(Apply(s, step), Note(s, h, step))
  {
    match step
    case Enqueue(req, user, rid, now) =>
      if req !in s.rows {
        HistoryEnqueue(s, h, req, Row(user, rid, Pending, 0, now));
      }
    case Charge(c, lid, charge) =>
      if c in s.clients && s.clients[c].Settling? {
        ChargeHistory(s, h, c, lid, charge);
      }
    case LapseRelease(c, lid) =>
      if c in s.clients && s.clients[c].Lapsing? {
        LapseHistory(s, h, c, lid);
      }
    case Mark(c) =>
      if c in s.clients && s.clients[c].Marking? {
        HistoryMark(s, h, c);
      }
    case Begin(c, req) =>
      if Apply(s, step) != s {
        HistorySet(s, h, c, Settling(req, s.rows[req].rid), false);
      }
    case BeginLapse(c, req, now) =>
      if Apply(s, step) != s {
        HistorySet(s, h, c, Lapsing(req, s.rows[req].rid), false);
      }
    case Crash(c) =>
      HistoryDrop(s, h, c);
    case Core(st) =>
      StepKeepsTables(s, step);
      HistoryCarries(s, h, Runs.Apply(s.sys, st));
  }

  lemma {:induction false} RunHistory(s: State, h: History, steps: seq<Step>)
    requires OutboxInv(s) && HistoryInv(s, h) && DomainRun(s, steps)
    ensures HistoryInv(Run(s, steps), Noted(s, h, steps))
    decreases |steps|
  {
    if steps != [] {
      StepKeeps(s, steps[0]);
      StepHistory(s, h, steps[0]);
      RunHistory(Apply(s, steps[0]), Note(s, h, steps[0]), steps[1..]);
    }
  }

  /**
   Over every run in which settling and releasing fail only for domain reasons: a row is
   marked failed or expired over a captured reservation if and only if the last verdict
   written on it was reached by a call that found the reservation captured already.
   */
  lemma MisreportedIff(steps: seq<Step>, req: string)
    requires DomainRun(START, steps) && req in Run(START, steps).rows
    ensures var s := Run(START, steps);
            (s.rows[req].status == Failed || s.rows[req].status == Lapsed) && WasCaptured(s.sys.db, s.rows[req].rid)
            <==> req in Noted(START, NO_HISTORY, steps).rows
  {
    EmptyInv();
    RunHistory(START, NO_HISTORY, steps);
    assert LateRow(Run(START, steps), Noted(START, NO_HISTORY, steps), req);
  }

  /** The settle that overtakes a lapse: the row is marked settled over a captured reservation. */
  lemma SettleOvertakes(s: State, d: nat, lid: string, charge: int)
    requires OutboxInv(s) && d in s.clients && s.clients[d].Settling? && charge >= 0 && !IdUsed(s.sys.db.ledger, lid)
    requires s.sys.db.reservations[s.clients[d].rid].status == Reserved
    ensures var req, s2 := s.clients[d].requestId, Apply(Apply(s, Charge(d, lid, Some(charge))), Mark(d));
            && req in s2.rows && s2.rows[req].status == Settled && s2.rows[req].rid == s.clients[d].rid
            && WasCaptured(s2.sys.db, s.clients[d].rid) && s2.clients == s.clients - {d}
  {
    assert ClientOk(s, s.clients[d]);
    CloseCloses(s.sys.db, lid, s.clients[d].rid, Some(charge));
  }

  /** A lapse on a closed reservation changes no credit table and marks the row all the same. */
  lemma LateLapse(s: State, c: nat, lid: string)
    requires c in s.clients && s.clients[c].Lapsing? && Closed(s.sys.db, s.clients[c].rid) &&
             s.clients[c].requestId in s.rows
    ensures var req, s2 := s.clients[c].requestId, Apply(Apply(s, LapseRelease(c, lid)), Mark(c));
            && s2.sys == s.sys && req in s2.rows && s2.rows[req].status == Lapsed && s2.rows[req].rid == s.rows[req].rid
  {
    CloseOnClosed(s.sys.db, lid, s.clients[c].rid, None);
  }

  /**
   A settled row can be overwritten as expired: a lapse that saw the reservation open before
   the settle ignores that its release fails.
   */
  lemma LapseOverwritesSettled(s: State, c: nat, d: nat, lid: string, charge: int, lid': string)
    requires OutboxInv(s) && c in s.clients && d in s.clients && c != d && charge >= 0 && !IdUsed(s.sys.db.ledger, lid)
    requires s.clients[c].Lapsing? && s.clients[d].Settling? && s.clients[c].requestId == s.clients[d].requestId
    requires s.sys.db.reservations[s.clients[d].rid].status == Reserved
    ensures var req := s.clients[d].requestId;
            var settled := Apply(Apply(s, Charge(d, lid, Some(charge))), Mark(d));
            var lapsed := Apply(Apply(settled, LapseRelease(c, lid')), Mark(c));
            && req in settled.rows && settled.rows[req].status == Settled
            && req in lapsed.rows && lapsed.rows[req].status == Lapsed && lapsed.sys == settled.sys
            && WasCaptured(lapsed.sys.db, lapsed.rows[req].rid)
  {
    assert ClientOk(s, s.clients[c]) && ClientOk(s, s.clients[d]);
    SettleOvertakes(s, d, lid, charge);
    LateLapse(Apply(Apply(s, Charge(d, lid, Some(charge))), Mark(d)), c, lid');
  }

  // ---- The surroundings -----------------------------------------------------------------

  /** A crash forgets what the client knew and nothing else; other traffic touches the credit tables alone. */
  lemma SurroundingSteps(s: State, c: nat, st: Runs.Step)
    ensures var s' := Apply(s, Crash(c));
            c !in s'.clients &&
              (forall d :: d in s.clients && d != c ==> d in s'.clients && s'.clients[d] == s.clients[d]) &&
            s'.sys == s.sys && s'.rows == s.rows
    ensures Apply(s, Core(st)) == State(Runs.Apply(s.sys, st), s.rows, s.clients)
  {
  }
}
