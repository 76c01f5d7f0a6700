/**
 Payment events: claimed by workers under a lease, applied in one transaction over ledger,
 purchase and event, failed, retried and re-delivered, by any number of workers of which
 any may stall or crash between any two statements.
 */
module Payments {
  import opened Basics
  import opened Ledger
  import opened Invariants
  import opened Int64
  import opened Reversals
  import Runs

  datatype EventKind = Paid | Refunded | Disputed

  datatype Progress = Received | Processing | Applied | Failed

  datatype PurchaseStatus = Open | Fulfilled | Reversed(kind: EventKind)

  datatype Purchase = Purchase(
    provider: string, user: string, credits: int, amount: int, paymentId: string, status: PurchaseStatus, reversed: int)

  /** Provider and event id. */
  type EventKey = (string, string)

  datatype Event = Event(
    purchaseId: string, paymentId: string, kind: EventKind, hash: string, minor: int,
    progress: Progress, lease: int, attempts: nat, receivedAt: int)

  datatype Tables = Tables(db: Db, purchases: map<string, Purchase>, events: map<EventKey, Event>)

  const LEASE_SECONDS := 30

  function PaymentKey(provider: string, paymentId: string): string { "payment:" + provider + ":" + paymentId }

  function ReversalKey(k: EventKey): string { "reversal:" + k.0 + ":" + k.1 }

  function PurchaseReason(pid: string): string { "purchase " + pid }

  function ReversalReason(pid: string): string { "reversal " + pid }

  // ---- Transactions ---------------------------------------------------------------------

  function CreatePurchase(purchases: map<string, Purchase>, id: string, provider: string, user: string,
                          credits: int, amount: int): map<string, Purchase>
  {
    if IsBlank(provider) || IsBlank(user) || credits <= 0 || amount <= 0 || id in purchases then purchases
    else purchases[id := Purchase(provider, user, credits, amount, "", Open, 0)]
  }

  predicate Complete(k: EventKey, e: Event) {
    k.0 != "" && k.1 != "" && e.paymentId != "" && e.purchaseId != ""
  }

  /** Receipt: a new event id is stored once, a known one is left alone. */
  function Receive(events: map<EventKey, Event>, k: EventKey, e: Event): map<EventKey, Event> {
    if !Complete(k, e) || k in events then events
    else events[k := e.(progress := Received, lease := 0, attempts := 0)]
  }

  function Lapse(e: Event, now: int): Event {
    if e.progress == Processing && e.lease < now then e.(progress := Failed) else e
  }

  /** Events whose worker did not finish within its lease return to the queue. */
  function ExpireLeases(events: map<EventKey, Event>, now: int): map<EventKey, Event> {
    map k | k in events :: Lapse(events[k], now)
  }

  predicate Claimable(events: map<EventKey, Event>, k: EventKey) {
    k in events && (events[k].progress == Received || events[k].progress == Failed)
  }

  function Claim(events: map<EventKey, Event>, k: EventKey, now: int): map<EventKey, Event>
    requires k in events
  {
    events[k := events[k].(progress := Processing, attempts := events[k].attempts + 1, lease := now + LEASE_SECONDS)]
  }

  /** The purchase as read belongs to the event's provider and is not bound to another payment. */
  predicate Identified(p: Purchase, k: EventKey, e: Event) {
    p.provider == k.0 && (p.paymentId == "" || p.paymentId == e.paymentId)
  }

  /** UNIQUE(provider, payment_id) allows binding this purchase to the payment. */
  predicate Bindable(purchases: map<string, Purchase>, pid: string, paymentId: string) {
    pid in purchases &&
    forall q :: q in purchases && q != pid && purchases[q].provider == purchases[pid].provider ==>
      purchases[q].paymentId != paymentId
  }

  /** Credits that a reversal event still has to take back, by the purchase row as it was read. */
  function Missing(p: Purchase, e: Event): int
    requires p.amount > 0
  {
    Wrap(ComputedTarget(p.credits, p.amount, e.minor) - p.reversed)
  }

  /** The ledger write of the transaction; a used key counts as done. */
  function LedgerWrite(db: Db, lid: string, k: EventKey, e: Event, p: Purchase): Option<Db>
    requires p.amount > 0
  {
    var eff :=
      if e.kind == Paid then
        Grant(db, lid, p.user, p.credits, k.0, PurchaseReason(e.purchaseId), PaymentKey(k.0, e.paymentId))
      else if Missing(p, e) > 0 then
        Refund(db, lid, p.user, Missing(p, e), k.0, ReversalReason(e.purchaseId), ReversalKey(k))
      else Effect(Ok(()), db);
    if eff.result == Ok(()) || eff.result == Err(DuplicateGrant) then Some(eff.db) else None
  }

  /** The reversed credits that the transaction stores, again by the row as it was read. */
  function NewReversed(p: Purchase, e: Event): int
    requires p.amount > 0
  {
    Wrap(p.reversed + Max(Missing(p, e), 0))
  }

  /** The purchase row after the transaction; `p` is the row as read before it began. */
  function Settled(row: Purchase, e: Event, p: Purchase): Purchase
    requires p.amount > 0
  {
    if e.kind == Paid then row.(paymentId := e.paymentId, status := Fulfilled)
    else row.(paymentId := e.paymentId, status := Reversed(e.kind), reversed := NewReversed(p, e))
  }

  /** The whole transaction over ledger, purchase and event: all of it, or nothing. */
  function Commit(t: Tables, lid: string, k: EventKey, p: Purchase): Option<Tables>
    requires k in t.events && p.amount > 0
  {
    var e := t.events[k];
    var db := LedgerWrite(t.db, lid, k, e, p);
    if db.None? || !Bindable(t.purchases, e.purchaseId, e.paymentId) then None
    else
      Some(Tables(db.value,
                  t.purchases[e.purchaseId := Settled(t.purchases[e.purchaseId], e, p)],
                  t.events[k := e.(progress := Applied, lease := 0)]))
  }

  /** The failure write: unconditional, even on an event that someone else has applied. */
  function Fail(events: map<EventKey, Event>, k: EventKey): map<EventKey, Event> {
    if k in events then events[k := events[k].(progress := Failed)] else events
  }

  /** The events after a failure that may or may not be written. */
  function Missed(events: map<EventKey, Event>, k: EventKey, written: bool): map<EventKey, Event> {
    if written then Fail(events, k) else events
  }

  // ---- The protocol ---------------------------------------------------------------------

  /** A worker holding an event, and the purchase row once it has read it. */
  datatype Worker = Worker(key: EventKey, deadline: int, loaded: Option<Purchase>)

  /** Tables, workers and clock, with a record of which events and which purchases' payments were applied. */
  datatype State = State(
    sys: Runs.Sys, purchases: map<string, Purchase>, events: map<EventKey, Event>,
    workers: map<nat, Worker>, clock: int, applied: set<EventKey>, paid: set<string>)

  const START := State(Runs.INIT, map[], map[], map[], 0, {}, {})

  datatype Step =
    | Order(id: string, provider: string, user: string, credits: int, amount: int)
    | Receipt(key: EventKey, event: Event)
    | Tick(seconds: nat)
    | LeaseSweep(now: int)
    | Take(worker: nat, key: EventKey, now: int)
    | Load(worker: nat)
    | Apply(worker: nat, lid: string)
    | Fault(worker: nat, written: bool)
    | Crash(worker: nat)
    | Core(step: Runs.Step)

  ghost function TablesOf(s: State): Tables { Tables(s.sys.db, s.purchases, s.events) }

  /** The worker has an event and a purchase row, and its transaction would go through. */
  ghost predicate Ready(s: State, w: nat, lid: string) {
    && w in s.workers && s.workers[w].key in s.events && s.workers[w].loaded.Some?
    && s.workers[w].loaded.value.amount > 0
    && Commit(TablesOf(s), lid, s.workers[w].key, s.workers[w].loaded.value).Some?
  }

  /** The step's effect; a step that is not possible changes nothing. */
  ghost function Next(s: State, step: Step): State {
    match step
    case Order(id, provider, user, credits, amount) =>
      s.(purchases := CreatePurchase(s.purchases, id, provider, user, credits, amount))
    case Receipt(k, e) =>
      s.(events := Receive(s.events, k, e))
    case Tick(d) =>
      s.(clock := s.clock + d)
    case LeaseSweep(now) =>
      if now <= s.clock then s.(events := ExpireLeases(s.events, now)) else s
    case Take(w, k, now) =>
      if w in s.workers || now > s.clock || !Claimable(s.events, k) then s
      else s.(events := Claim(s.events, k, now), workers := s.workers[w := Worker(k, now + LEASE_SECONDS, None)])
    case Load(w) =>
      if w !in s.workers || s.workers[w].key !in s.events || s.workers[w].loaded.Some? then s
      else
        var k := s.workers[w].key;
        var e := s.events[k];
        if e.purchaseId !in s.purchases || !Identified(s.purchases[e.purchaseId], k, e) then s
        else s.(workers := s.workers[w := s.workers[w].(loaded := Some(s.purchases[e.purchaseId]))])
    case Apply(w, lid) =>
      if !Ready(s, w, lid) then s
      else
        var k := s.workers[w].key;
        var e := s.events[k];
        var t := Commit(TablesOf(s), lid, k, s.workers[w].loaded.value).value;
        State(s.sys.(db := t.db), t.purchases, t.events, s.workers - {w}, s.clock,
              s.applied + {k}, if e.kind == Paid then s.paid + {e.purchaseId} else s.paid)
    case Fault(w, written) =>
      if w !in s.workers then s
      else s.(workers := s.workers - {w}, events := Missed(s.events, s.workers[w].key, written))
    case Crash(w) =>
      s.(workers := s.workers - {w})
    case Core(st) =>
      s.(sys := Runs.Apply(s.sys, st))
  }

  ghost function Run(s: State, steps: seq<Step>): State
    decreases |steps|
  {
    if steps == [] then s else Run(Next(s, steps[0]), steps[1..])
  }

  // ---- Every interleaving ---------------------------------------------------------------

  /** For the credit tables an applied event is an ordinary grant or refund, or nothing. */
  ghost function LedgerStep(w: Worker, lid: string, e: Event, p: Purchase): Runs.Step
    requires p.amount > 0
  {
    if e.kind == Paid then
      Runs.Grant(lid, p.user, p.credits, w.key.0, PurchaseReason(e.purchaseId), PaymentKey(w.key.0, e.paymentId))
    else
      Runs.Refund(lid, p.user, Missing(p, e), w.key.0, ReversalReason(e.purchaseId), ReversalKey(w.key))
  }

  lemma ApplyIsLedgerStep(s: State, w: nat, lid: string)
    requires Ready(s, w, lid)
    ensures var e := s.events[s.workers[w].key];
            Next(s, Apply(w, lid)).sys == Runs.Apply(s.sys, LedgerStep(s.workers[w], lid, e, s.workers[w].loaded.value))
  {
  }

  /** Everything an applied event writes besides the ledger row. */
  lemma ApplyWrites(s: State, w: nat, lid: string)
    requires Ready(s, w, lid)
    ensures var s', k := Next(s, Apply(w, lid)), s.workers[w].key;
            var e := s.events[k];
            && e.purchaseId in s.purchases && Bindable(s.purchases, e.purchaseId, e.paymentId)
            && s'.purchases ==
               s.purchases[e.purchaseId := Settled(s.purchases[e.purchaseId], e, s.workers[w].loaded.value)]
            && s'.events == s.events[k := e.(progress := Applied, lease := 0)]
            && s'.workers == s.workers - {w}
            && s'.applied == s.applied + {k} && s'.paid == if e.kind == Paid then s.paid + {e.purchaseId} else s.paid
  {
  }

  /** The ledger row of an applied event: at most one, and none when its key is used or nothing is missing. */
  lemma ApplyLedgerRow(s: State, w: nat, lid: string)
    requires Ready(s, w, lid)
    ensures var k, p, l := s.workers[w].key, s.workers[w].loaded.value, s.sys.db.ledger;
            var e, l' := s.events[k], Next(s, Apply(w, lid)).sys.db.ledger;
            if e.kind == Paid then
              if KeyUsed(l, PaymentKey(k.0, e.paymentId)) then l' == l
              else l' == l + [
                GrantEntry(lid, p.user, p.credits, k.0, PurchaseReason(e.purchaseId), PaymentKey(k.0, e.paymentId))]
            else if Missing(p, e) <= 0 || KeyUsed(l, ReversalKey(k)) then l' == l
            else l' == l + [RefundEntry(lid, p.user, Missing(p, e), k.0, ReversalReason(e.purchaseId), ReversalKey(k))]
  {
  }

  lemma StepKeepsCredits(s: State, step: Step)
    requires Runs.SysInv(s.sys)
    ensures Runs.SysInv(Next(s, step).sys)
  {
    match step
    case Apply(w, lid) =>
      if Ready(s, w, lid) {
        ApplyIsLedgerStep(s, w, lid);
        var e := s.events[s.workers[w].key];
        Runs.StepKeeps(s.sys, LedgerStep(s.workers[w], lid, e, s.workers[w].loaded.value));
      }
    case Core(st) =>
      Runs.StepKeeps(s.sys, st);
    case _ =>
  }

  lemma {:induction false} RunKeepsCredits(s: State, steps: seq<Step>)
    requires Runs.SysInv(s.sys)
    ensures Runs.SysInv(Run(s, steps).sys)
    decreases |steps|
  {
    if steps != [] {
      StepKeepsCredits(s, steps[0]);
      RunKeepsCredits(Next(s, steps[0]), steps[1..]);
    }
  }

  /** A payment key names its provider and payment when the provider contains no separator. */
  lemma PaymentKeyInjective(p: string, a: string, q: string, b: string)
    requires ':' !in p && ':' !in q && PaymentKey(p, a) == PaymentKey(q, b)
    ensures p == q && a == b
  {
    KeyShape("payment:", p, a);
    KeyShape("payment:", q, b);
    CancelPrefix("payment:", p + [':'] + a, q + [':'] + b);
    SplitAtFirst(':', p, a, q, b);
  }

  lemma ReversalKeyInjective(k: EventKey, l: EventKey)
    requires ':' !in k.0 && ':' !in l.0 && ReversalKey(k) == ReversalKey(l)
    ensures k == l
  {
    KeyShape("reversal:", k.0, k.1);
    KeyShape("reversal:", l.0, l.1);
    CancelPrefix("reversal:", k.0 + [':'] + k.1, l.0 + [':'] + l.1);
    SplitAtFirst(':', k.0, k.1, l.0, l.1);
  }

  /**
   For every interleaving of any number of workers, stale ones included, with any other
   credit traffic: each payment is granted at most once and each event reverses at most
   once, because each key is on at most one row; and balances equal ledger sums.
   */
  lemma GrantedAtMostOnce(steps: seq<Step>, i: nat, j: nat, u: string)
    requires i < |Run(START, steps).sys.db.ledger| && j < |Run(START, steps).sys.db.ledger|
    ensures var db := Run(START, steps).sys.db;
            && (forall p, a :: db.ledger[i].key == db.ledger[j].key == Some(PaymentKey(p, a)) ==> i == j)
            && (forall k :: db.ledger[i].key == db.ledger[j].key == Some(ReversalKey(k)) ==> i == j)
            && Balance(db, u) == Total(db.ledger, ByUser(u))
  {
    EmptyInv();
    RunKeepsCredits(START, steps);
    assert BalancedFor(Run(START, steps).sys.db, u);
  }

  // ---- Leases ---------------------------------------------------------------------------

  /** The worker is still within its lease. */
  ghost predicate Live(s: State, w: nat) { w in s.workers && s.clock <= s.workers[w].deadline }

  /** Workers act only within their lease. */
  ghost predicate Disciplined(s: State, step: Step) {
    match step
    case Load(w) => Live(s, w)
    case Apply(w, _) => Live(s, w)
    case Fault(w, _) => Live(s, w)
    case _ => true
  }

  ghost predicate DisciplinedRun(s: State, steps: seq<Step>)
    decreases |steps|
  {
    steps == [] || (Disciplined(s, steps[0]) && DisciplinedRun(Next(s, steps[0]), steps[1..]))
  }

  /** A live worker's event is marked as being processed, under that worker's lease. */
  ghost predicate Leased(s: State) {
    && (forall w :: w in s.workers ==> s.workers[w].key in s.events)
    && (forall w :: Live(s, w) ==>
          s.events[s.workers[w].key].progress == Processing &&
          s.events[s.workers[w].key].lease == s.workers[w].deadline)
    && (forall v, w :: Live(s, v) && Live(s, w) && s.workers[v].key == s.workers[w].key ==> v == w)
  }

  /** Applied events stay applied. */
  ghost predicate KeepsApplied(s: State, s': State) {
    forall k :: k in s.events && s.events[k].progress == Applied ==> k in s'.events && s'.events[k].progress == Applied
  }

  /** Time passing, workers leaving or reading, and new events arriving break no lease. */
  lemma LeaseIdle(s: State, s': State)
    requires Leased(s) && s.clock <= s'.clock
    requires forall w :: w in s'.workers ==>
               w in s.workers && s'.workers[w].key == s.workers[w].key &&
               s'.workers[w].deadline == s.workers[w].deadline
    requires forall k :: k in s.events ==> k in s'.events && s'.events[k] == s.events[k]
    ensures Leased(s') && KeepsApplied(s, s')
  {
    assert forall w :: Live(s', w) ==> Live(s, w);
  }

  /** Only the holder of an event finishes it. */
  lemma LeaseFinish(s: State, s': State, w: nat, e: Event)
    requires Leased(s) && Live(s, w) && s'.clock == s.clock && s'.workers == s.workers - {w}
    requires s'.events == s.events[s.workers[w].key := e]
    ensures Leased(s') && KeepsApplied(s, s')
  {
    assert forall v :: Live(s', v) ==> Live(s, v) && s.workers[v].key != s.workers[w].key;
  }

  lemma LeaseTaken(s: State, w: nat, k: EventKey, now: int)
    requires Leased(s) && w !in s.workers && now <= s.clock && Claimable(s.events, k)
    ensures Leased(Next(s, Take(w, k, now))) && KeepsApplied(s, Next(s, Take(w, k, now)))
  {
    var s' := Next(s, Take(w, k, now));
    assert forall v :: Live(s', v) && v != w ==> Live(s, v) && s.workers[v].key != k;
  }

  lemma LeaseSwept(s: State, now: int)
    requires Leased(s) && now <= s.clock
    ensures Leased(Next(s, LeaseSweep(now))) && KeepsApplied(s, Next(s, LeaseSweep(now)))
  {
    var s' := Next(s, LeaseSweep(now));
    assert forall v :: Live(s', v) ==> Live(s, v);
  }

  lemma LeaseStep(s: State, step: Step)
    requires Leased(s) && Disciplined(s, step)
    ensures Leased(Next(s, step)) && KeepsApplied(s, Next(s, step))
  {
    match step
    case Take(w, k, now) =>
      if w !in s.workers && now <= s.clock && Claimable(s.events, k) {
        LeaseTaken(s, w, k, now);
      }
    case LeaseSweep(now) =>
      if now <= s.clock {
        LeaseSwept(s, now);
      }
    case Apply(w, lid) =>
      if Ready(s, w, lid) {
        LeaseFinish(s, Next(s, step), w, s.events[s.workers[w].key].(progress := Applied, lease := 0));
      }
    case Fault(w, written) =>
      var e := s.events[s.workers[w].key];
      LeaseFinish(s, Next(s, step), w, if written then e.(progress := Failed) else e);
    case _ =>
      LeaseIdle(s, Next(s, step));
  }

  lemma {:induction false} LeaseRun(s: State, steps: seq<Step>)
    requires Leased(s) && DisciplinedRun(s, steps)
    ensures Leased(Run(s, steps)) && KeepsApplied(s, Run(s, steps))
    decreases |steps|
  {
    if steps != [] {
      LeaseStep(s, steps[0]);
      LeaseRun(Next(s, steps[0]), steps[1..]);
    }
  }

  lemma {:induction false} RunConcat(s: State, a: seq<Step>, b: seq<Step>)
    ensures Run(s, a + b) == Run(Run(s, a), b)
    ensures DisciplinedRun(s, a + b) <==> DisciplinedRun(s, a) && DisciplinedRun(Run(s, a), b)
    decreases |a|
  {
    if a == [] {
      assert a + b == b;
    } else {
      assert (a + b)[1..] == a[1..] + b;
      RunConcat(Next(s, a[0]), a[1..], b);
    }
  }

  /**
   Lease exclusion: with a clock that never runs backwards and workers that stop by their
   deadline, no event is ever held by two workers within their leases, and an applied
   event stays applied for the rest of the run.
   */
  lemma LeaseExclusion(before: seq<Step>, after: seq<Step>, v: nat, w: nat, k: EventKey)
    requires DisciplinedRun(START, before + after)
    ensures var s := Run(START, before);
            && (Live(s, v) && Live(s, w) && s.workers[v].key == s.workers[w].key ==> v == w)
            && (k in s.events && s.events[k].progress == Applied ==>
                  k in Run(START, before + after).events && Run(START, before + after).events[k].progress == Applied)
  {
    RunConcat(START, before, after);
    LeaseRun(START, before);
    LeaseRun(Run(START, before), after);
  }

  /**
   The one way to lose an applied mark: a failure write by a worker whose event is applied
   already. Where leases are kept, that worker is past its deadline.
   */
  lemma AppliedLostExactlyByStaleFailure(s: State, step: Step)
    ensures !KeepsApplied(s, Next(s, step)) <==>
              && step.Fault? && step.written && step.worker in s.workers
              && s.workers[step.worker].key in s.events && s.events[s.workers[step.worker].key].progress == Applied
    ensures Leased(s) && !KeepsApplied(s, Next(s, step)) ==> s.clock > s.workers[step.worker].deadline
  {
    if step.Fault? && step.written && step.worker in s.workers {
      var k := s.workers[step.worker].key;
      assert k in s.events ==> Next(s, step).events[k].progress == Failed;
      assert Leased(s) && Live(s, step.worker) ==> s.events[k].progress == Processing;
    }
  }

  /** A worker takes the event, stalls past its lease, and the event returns to the queue. */
  lemma StalledWorkerLapses(s: State, k: EventKey)
    requires s.workers == map[] && k in s.events && s.events[k].progress == Received
    ensures var s1 := Next(Next(Next(s, Take(0, k, s.clock)), Tick(31)), LeaseSweep(s.clock + 31));
            && s1.clock == s.clock + 31 && s1.workers == map[0 := Worker(k, s.clock + LEASE_SECONDS, None)]
            && Claimable(s1.events, k) && s1.sys == s.sys && s1.purchases == s.purchases
            && s1.events[k] ==
               s.events[k].(progress := Failed, lease := s1.events[k].lease, attempts := s1.events[k].attempts)
  {
    var s0 := Next(s, Take(0, k, s.clock));
    assert s0.events[k].progress == Processing && s0.events[k].lease == s.clock + LEASE_SECONDS;
  }

  /**
   Without the discipline an applied event can be reopened: once a second worker has
   applied the event, the stalled one still writes its failure over it.
   */
  lemma StalledWorkerReopens(s: State, k: EventKey, v: nat, w: nat, lid: string)
    requires v != w && v in s.workers && s.workers[v].key == k
    requires Ready(s, w, lid) && s.workers[w].key == k
    ensures var s2 := Next(s, Apply(w, lid));
            var s3 := Next(s2, Fault(v, true));
            && k in s2.events && s2.events[k].progress == Applied && k in s2.applied
            && k in s3.events && s3.events[k].progress == Failed && s3.applied == s2.applied
  {
    var s2 := Next(s, Apply(w, lid));
    assert s2.workers == s.workers - {w} && v in s2.workers;
  }

  // ---- The failing run, from the start --------------------------------------------------

  lemma RunFour(s: State, a: Step, b: Step, c: Step, d: Step)
    ensures Run(s, [a, b, c, d]) == Next(Next(Next(Next(s, a), b), c), d)
  {
    var s1 := Next(s, a);
    var s2 := Next(s1, b);
    var s3 := Next(s2, c);
    assert [a, b, c, d][1..] == [b, c, d] && [b, c, d][1..] == [c, d] && [c, d][1..] == [d] && [d][1..] == [];
    assert Run(s3, [d]) == Run(Next(s3, d), []);
    assert Run(s2, [c, d]) == Run(s3, [d]);
    assert Run(s1, [b, c, d]) == Run(s2, [c, d]);
  }

  lemma RunThree(s: State, a: Step, b: Step, c: Step)
    ensures Run(s, [a, b, c]) == Next(Next(Next(s, a), b), c)
    ensures DisciplinedRun(s, [a, b, c]) <==>
            Disciplined(s, a) && Disciplined(Next(s, a), b) && Disciplined(Next(Next(s, a), b), c)
  {
    assert [a, b, c][1..] == [b, c];
    RunTwo(Next(s, a), b, c);
  }

  lemma RunTwo(s: State, a: Step, b: Step)
    ensures Run(s, [a, b]) == Next(Next(s, a), b)
    ensures DisciplinedRun(s, [a, b]) <==> Disciplined(s, a) && Disciplined(Next(s, a), b)
  {
    var s1 := Next(s, a);
    assert [a, b][1..] == [b] && [b][1..] == [];
    assert Run(s1, [b]) == Run(Next(s1, b), []);
    assert DisciplinedRun(s1, [b]) <==> Disciplined(s1, b) && DisciplinedRun(Next(s1, b), []);
  }

  /** Whether the transaction goes through does not depend on the progress of the event. */
  lemma CommitIgnoresProgress(t: Tables, t': Tables, lid: string, k: EventKey, p: Purchase)
    requires k in t.events && k in t'.events && p.amount > 0 && t'.db == t.db && t'.purchases == t.purchases
    requires t'.events[k] == t.events[k].(progress := t'.events[k].progress, lease := t'.events[k].lease,
                                          attempts := t'.events[k].attempts)
    ensures Commit(t', lid, k, p).Some? <==> Commit(t, lid, k, p).Some?
  {
  }

  /** The purchase of the event as it stands lets the event's transaction go through. */
  ghost predicate Applicable(s: State, lid: string, k: EventKey) {
    && k in s.events && s.events[k].purchaseId in s.purchases
    && var p := s.purchases[s.events[k].purchaseId];
       p.amount > 0 && Identified(p, k, s.events[k]) && Commit(TablesOf(s), lid, k, p).Some?
  }

  /** A second worker that takes and reads a free event is ready to apply it. */
  lemma TakenIsReady(s: State, w: nat, lid: string, k: EventKey)
    requires w !in s.workers && Claimable(s.events, k) && Applicable(s, lid, k)
    ensures var s' := Next(Next(s, Take(w, k, s.clock)), Load(w));
            && Ready(s', w, lid) && s'.workers[w].key == k
            && forall v :: v in s.workers ==> v in s'.workers && s'.workers[v] == s.workers[v]
  {
    var s' := Next(Next(s, Take(w, k, s.clock)), Load(w));
    CommitIgnoresProgress(TablesOf(s), TablesOf(s'), lid, k, s.purchases[s.events[k].purchaseId]);
  }

  lemma LapsedIsApplicable(s: State, s1: State, lid: string, k: EventKey)
    requires Applicable(s, lid, k) && k in s1.events && s1.sys == s.sys && s1.purchases == s.purchases
    requires s1.events[k] == s.events[k].(progress := s1.events[k].progress, lease := s1.events[k].lease,
                                          attempts := s1.events[k].attempts)
    ensures Applicable(s1, lid, k)
  {
    CommitIgnoresProgress(TablesOf(s), TablesOf(s1), lid, k, s.purchases[s.events[k].purchaseId]);
  }

  function StallSteps(k: EventKey, now: int): seq<Step> { [Take(0, k, now), Tick(31), LeaseSweep(now + 31)] }

  function ReopenSteps(k: EventKey, now: int, lid: string): seq<Step> {
    [Take(1, k, now), Load(1), Apply(1, lid), Fault(0, true)]
  }

  lemma StallKeepsApplicable(s: State, k: EventKey, lid: string)
    requires s.workers == map[] && Applicable(s, lid, k) && s.events[k].progress == Received
    ensures var s1 := Run(s, StallSteps(k, s.clock));
            && s1.clock == s.clock + 31 && s1.workers.Keys == {0} && s1.workers[0].key == k
            && Claimable(s1.events, k) && Applicable(s1, lid, k)
  {
    RunThree(s, Take(0, k, s.clock), Tick(31), LeaseSweep(s.clock + 31));
    StalledWorkerLapses(s, k);
    LapsedIsApplicable(s, Run(s, StallSteps(k, s.clock)), lid, k);
  }

  lemma SecondWorkerReopens(s: State, k: EventKey, lid: string)
    requires s.workers.Keys == {0} && s.workers[0].key == k && Claimable(s.events, k) && Applicable(s, lid, k)
    ensures var s' := Run(s, ReopenSteps(k, s.clock, lid));
            k in s'.applied && k in s'.events && s'.events[k].progress == Failed
  {
    RunFour(s, Take(1, k, s.clock), Load(1), Apply(1, lid), Fault(0, true));
    TakenIsReady(s, 1, lid, k);
    StalledWorkerReopens(Next(Next(s, Take(1, k, s.clock)), Load(1)), k, 0, 1, lid);
  }

  /** From any state with no worker and an applicable event, the stall reopens the event after it was applied. */
  lemma StallReopens(s: State, k: EventKey, lid: string)
    requires s.workers == map[] && Applicable(s, lid, k) && s.events[k].progress == Received
    ensures var s' := Run(s, StallSteps(k, s.clock) + ReopenSteps(k, s.clock + 31, lid));
            k in s'.applied && k in s'.events && s'.events[k].progress == Failed
  {
    RunConcat(s, StallSteps(k, s.clock), ReopenSteps(k, s.clock + 31, lid));
    StallKeepsApplicable(s, k, lid);
    SecondWorkerReopens(Run(s, StallSteps(k, s.clock)), k, lid);
  }

  /** An order and the receipt of its payment, on empty tables, make the event applicable. */
  lemma OrderedIsApplicable(provider: string, user: string, credits: int, amount: int, pid: string, k: EventKey,
                            e: Event, lid: string)
    requires k.0 == provider && Complete(k, e) && e.kind == Paid && e.purchaseId == pid && credits > 0 && amount > 0
    requires !IsBlank(provider)
    requires ValidAdjustment(GrantEntry(lid, user, credits, provider, PurchaseReason(pid),
                                        PaymentKey(provider, e.paymentId)))
    ensures var s := Run(START, [Order(pid, provider, user, credits, amount), Receipt(k, e)]);
            s.workers == map[] && s.clock == 0 && Applicable(s, lid, k) && s.events[k].progress == Received
  {
    RunTwo(START, Order(pid, provider, user, credits, amount), Receipt(k, e));
  }

  /**
   Runs from the empty tables, for every well-formed paid event, that end with an applied
   event marked failed: order, receipt, and a worker that stalls past its lease.
   */
  lemma ReopenedRun(provider: string, user: string, credits: int, amount: int, pid: string, k: EventKey, e: Event,
                    lid: string)
    requires k.0 == provider && Complete(k, e) && e.kind == Paid && e.purchaseId == pid && credits > 0 && amount > 0
    requires !IsBlank(provider)
    requires ValidAdjustment(GrantEntry(lid, user, credits, provider, PurchaseReason(pid),
                                        PaymentKey(provider, e.paymentId)))
    ensures var s := Run(START, [Order(pid, provider, user, credits, amount), Receipt(k, e)] +
                         (StallSteps(k, 0) + ReopenSteps(k, 31, lid)));
            k in s.applied && k in s.events && s.events[k].progress == Failed
  {
    RunConcat(START, [Order(pid, provider, user, credits, amount), Receipt(k, e)],
              StallSteps(k, 0) + ReopenSteps(k, 31, lid));
    OrderedIsApplicable(provider, user, credits, amount, pid, k, e, lid);
    StallReopens(Run(START, [Order(pid, provider, user, credits, amount), Receipt(k, e)]), k, lid);
  }
}
