/**
 The payments service as one caller runs it: claim, read, and one transaction that is
 rolled back on any failure, proved to be the steps of the payment protocol in sequence.
 */
module PaymentService {
  import opened Basics
  import opened Ledger
  import opened Payments
  import Runs
  import opened Query
  import opened Int64
  import opened CreditsService

  datatype CatalogItem = CatalogItem(credits: int, amount: int)

  /** The tables as a protocol state with no worker in flight. */
  ghost function StateOf(t: Tables, now: int): State {
    State(Runs.Sys(t.db, map[]), t.purchases, t.events, map[], now, {}, {})
  }

  /** What one call gets from outside: the id it draws, and whether a failure write would reach the database. */
  datatype Outside = Outside(lid: string, written: bool)

  /** The steps of one processOne call; the failure is written only if the transaction did not go through. */
  function ProcessProgram(k: EventKey, x: Outside, now: int): seq<Step> {
    [Take(0, k, now), Load(0), Apply(0, x.lid), Fault(0, x.written)]
  }

  ghost function Processed(t: Tables, k: EventKey, x: Outside, now: int): Tables {
    TablesOf(Run(StateOf(t, now), ProcessProgram(k, x, now)))
  }

  ghost predicate SoundAmounts(purchases: map<string, Purchase>) {
    forall q :: q in purchases ==> purchases[q].amount > 0
  }

  /** The event's purchase exists and agrees with it. */
  ghost predicate Loadable(t: Tables, k: EventKey) {
    && k in t.events && t.events[k].purchaseId in t.purchases
    && Identified(t.purchases[t.events[k].purchaseId], k, t.events[k])
    && t.purchases[t.events[k].purchaseId].amount > 0
  }

  /** Processing the event gets as far as its transaction. */
  ghost predicate Attempts(t: Tables, k: EventKey) {
    Claimable(t.events, k) && Loadable(t, k)
  }

  /** That transaction. */
  ghost function Attempt(t: Tables, k: EventKey, lid: string, now: int): Option<Tables>
    requires Attempts(t, k)
  {
    Commit(t.(events := Claim(t.events, k, now)), lid, k, t.purchases[t.events[k].purchaseId])
  }

  /** After claiming and reading, the worker's transaction is the attempt. */
  lemma ClaimedAndRead(t: Tables, k: EventKey, now: int)
    requires Claimable(t.events, k)
    ensures var s2 := Next(Next(StateOf(t, now), Take(0, k, now)), Load(0));
            && TablesOf(s2) == t.(events := Claim(t.events, k, now))
            && s2.workers.Keys == {0} && s2.workers[0].key == k
            && s2.workers[0].loaded ==
                 if t.events[k].purchaseId in t.purchases &&
                    Identified(t.purchases[t.events[k].purchaseId], k, t.events[k])
                 then Some(t.purchases[t.events[k].purchaseId]) else None
  {
  }

  /** Processing an event in three cases: nothing to do, applied, or at most marked failed. */
  ghost function ProcessOutcome(t: Tables, k: EventKey, x: Outside, now: int): Tables {
    if !Claimable(t.events, k) then t
    else if Attempts(t, k) && Attempt(t, k, x.lid, now).Some? then Attempt(t, k, x.lid, now).value
    else t.(events := Missed(Claim(t.events, k, now), k, x.written))
  }

  /** The protocol's steps in sequence have exactly that outcome. */
  lemma ProcessedCases(t: Tables, k: EventKey, x: Outside, now: int)
    requires SoundAmounts(t.purchases)
    ensures Processed(t, k, x, now) == ProcessOutcome(t, k, x, now)
  {
    var s := StateOf(t, now);
    RunFour(s, Take(0, k, now), Load(0), Apply(0, x.lid), Fault(0, x.written));
    if Claimable(t.events, k) {
      var s2 := Next(Next(s, Take(0, k, now)), Load(0));
      ClaimedAndRead(t, k, now);
      assert Ready(s2, 0, x.lid) <==> Attempts(t, k) && Attempt(t, k, x.lid, now).Some?;
    }
  }

  class Processor {
    const svc: Service
    const catalog: map<string, CatalogItem>
    var purchases: map<string, Purchase>
    var events: map<EventKey, Event>

    ghost function View(): Tables
      reads this, svc
    {
      Tables(svc.View(), purchases, events)
    }

    ghost predicate Valid()
      reads this, svc
    {
      svc.Valid() && SoundAmounts(purchases)
    }

    constructor (svc: Service, catalog: map<string, CatalogItem>)
      requires svc.Valid()
      ensures this.svc == svc && this.catalog == catalog && purchases == map[] && events == map[] && Valid()
    {
      this.svc, this.catalog, purchases, events := svc, catalog, map[], map[];
    }

    method CreatePurchase(id: string, provider: string, user: string, sku: string) returns (r: Result<()>)
      requires Valid()
      modifies this`purchases
      ensures sku !in catalog ==> r.Err? && purchases == old(purchases)
      ensures sku in catalog ==>
                purchases ==
                Payments.CreatePurchase(old(purchases), id, provider, user, catalog[sku].credits, catalog[sku].amount)
      ensures r.Ok? <==> purchases != old(purchases)
      ensures r.Ok? <==>
              && sku in catalog && catalog[sku].credits > 0 && catalog[sku].amount > 0
              && !IsBlank(provider) && !IsBlank(user) && id !in old(purchases)
      ensures r.Ok? ==>
                && purchases.Keys == old(purchases).Keys + {id} &&
                   (forall q :: q in old(purchases) ==> purchases[q] == old(purchases)[q])
                && var p := purchases[id];
                   && p.provider == provider && p.user == user && p.credits == catalog[sku].credits
                   && p.amount == catalog[sku].amount && p.paymentId == "" && p.status == Open && p.reversed == 0
      ensures Valid()
    {
      if sku !in catalog {
        return Err(NotFound);
      }
      var item := catalog[sku];
      if IsBlank(provider) || IsBlank(user) {
        return Err(InvalidArgument);
      }
      if item.credits <= 0 || item.amount <= 0 || id in purchases {
        return Err(ConstraintViolation);
      }
      purchases := purchases[id := Purchase(provider, user, item.credits, item.amount, "", Open, 0)];
      assert id in purchases;
      return Ok(());
    }

    /** Stores the event once; a known id with another payload is refused. */
    method Record(k: EventKey, e: Event) returns (r: Result<()>)
      requires Valid()
      modifies this`events
      ensures events == Receive(old(events), k, e)
      ensures r.Ok? <==> Complete(k, e) && (k in old(events) ==> old(events)[k].hash == e.hash)
      ensures r.Err? || k in old(events) ==> events == old(events)
      ensures r.Ok? && k !in old(events) ==>
                && events.Keys == old(events).Keys + {k} &&
                   (forall l :: l in old(events) ==> events[l] == old(events)[l])
                && var f := events[k];
                   && f.purchaseId == e.purchaseId && f.paymentId == e.paymentId && f.kind == e.kind && f.hash == e.hash
                   && f.minor == e.minor && f.receivedAt == e.receivedAt
                   && f.progress == Received && f.lease == 0 && f.attempts == 0
      ensures !(k.0 != "" && k.1 != "" && e.paymentId != "" && e.purchaseId != "") ==> r == Err(InvalidArgument)
      ensures Valid()
    {
      if k.0 == "" || k.1 == "" || e.paymentId == "" || e.purchaseId == "" {
        return Err(InvalidArgument);
      }
      if k !in events {
        events := events[k := e.(progress := Received, lease := 0, attempts := 0)];
      } else if events[k].hash != e.hash {
        return Err(PayloadMismatch);
      }
      return Ok(());
    }

    /** The ledger part of the transaction; on failure the ledger is as before. */
    method WriteLedger(k: EventKey, e: Event, p: Purchase, lid: string) returns (ok: bool)
      requires svc.Valid() && p.amount > 0
      modifies svc
      ensures ok <==> LedgerWrite(old(svc.View()), lid, k, e, p).Some?
      ensures svc.View() == if ok then LedgerWrite(old(svc.View()), lid, k, e, p).value else old(svc.View())
      ensures svc.Valid()
    {
      var r: Result<()> := Ok(());
      if e.kind == Paid {
        r := svc.Grant(lid, p.user, p.credits, k.0, PurchaseReason(e.purchaseId), PaymentKey(k.0, e.paymentId));
      } else {
        var amount := Missing(p, e);
        if amount > 0 {
          r := svc.Refund(lid, p.user, amount, k.0, ReversalReason(e.purchaseId), ReversalKey(k));
        }
      }
      ok := r.Ok? || r.error == DuplicateGrant;
    }

    /** The failure write; its error, if it has one, is ignored. */
    method FailEvent(k: EventKey, written: bool)
      modifies this`events
      ensures events == Missed(old(events), k, written)
    {
      if written && k in events {
        events := events[k := events[k].(progress := Failed)];
      }
    }

    /** Ledger, purchase and event together, or none of them. */
    method Transact(k: EventKey, p: Purchase, lid: string) returns (ok: bool)
      requires Valid() && k in events && p.amount > 0
      modifies this`purchases, this`events, svc
      ensures ok <==> Commit(old(View()), lid, k, p).Some?
      ensures View() == if ok then Commit(old(View()), lid, k, p).value else old(View())
      ensures Valid()
    {
      var e := events[k];
      var accounts, ledger, reservations := svc.accounts, svc.ledger, svc.reservations;
      ok := WriteLedger(k, e, p, lid);
      if !ok {
        return;
      }
      if !Bindable(purchases, e.purchaseId, e.paymentId) {
        svc.accounts, svc.ledger, svc.reservations := accounts, ledger, reservations;
        ok := false;
        return;
      }
      var row := purchases[e.purchaseId];
      if e.kind == Paid {
        purchases := purchases[e.purchaseId := row.(paymentId := e.paymentId, status := Fulfilled)];
      } else {
        var reversed := Wrap(p.reversed + Max(Missing(p, e), 0));
        purchases := purchases[e.purchaseId := row.(paymentId := e.paymentId, status := Reversed(e.kind),
                                                    reversed := reversed)];
      }
      events := events[k := e.(progress := Applied, lease := 0)];
    }

    /** What follows a successful claim: read the purchase, then the transaction, or else the failure write. */
    method ProcessClaimed(k: EventKey, x: Outside) returns (r: Result<()>)
      requires Valid() && k in events
      modifies this`purchases, this`events, svc
      ensures r.Ok? <==>
              Loadable(old(View()), k) &&
              Commit(old(View()), x.lid, k, old(purchases)[old(events)[k].purchaseId]).Some?
      ensures View() == if r.Ok? then Commit(old(View()), x.lid, k, old(purchases)[old(events)[k].purchaseId]).value
                        else old(View()).(events := Missed(old(events), k, x.written))
      ensures Valid()
    {
      var e := events[k];
      if e.purchaseId !in purchases {
        FailEvent(k, x.written);
        return Err(NotFound);
      }
      var p := purchases[e.purchaseId];
      if p.provider != k.0 || (p.paymentId != "" && p.paymentId != e.paymentId) {
        FailEvent(k, x.written);
        return Err(IdentityConflict);
      }
      var ok := Transact(k, p, x.lid);
      if !ok {
        FailEvent(k, x.written);
        return Err(ConstraintViolation);
      }
      return Ok(());
    }

    method ProcessOne(k: EventKey, x: Outside, now: int) returns (r: Result<()>)
      requires Valid()
      modifies this`purchases, this`events, svc
      ensures View() == Processed(old(View()), k, x, now)
      ensures r.Ok? <==>
              !Claimable(old(events), k) || (Attempts(old(View()), k) && Attempt(old(View()), k, x.lid, now).Some?)
      ensures Valid()
    {
      ghost var t := View();
      r := ClaimAndProcess(k, x, now);
      ProcessedCases(t, k, x, now);
    }

    /** Claims the event if it is free, and processes it. */
    method ClaimAndProcess(k: EventKey, x: Outside, now: int) returns (r: Result<()>)
      requires Valid()
      modifies this`purchases, this`events, svc
      ensures View() == ProcessOutcome(old(View()), k, x, now)
      ensures r.Ok? <==>
              !Claimable(old(events), k) || (Attempts(old(View()), k) && Attempt(old(View()), k, x.lid, now).Some?)
      ensures Valid()
    {
      if !Claimable(events, k) {
        return Ok(());
      }
      events := events[k := events[k].(progress := Processing, attempts := events[k].attempts + 1,
                                       lease := now + LEASE_SECONDS)];
      r := ProcessClaimed(k, x);
    }

    /**
     Returns lapsed events to the queue, then processes the oldest waiting ones, up to
     `limit` (100 when it is not positive), stopping at the first failure.
     */
    method ProcessPending(limit: int, xs: nat -> Outside, now: int) returns (r: Result<()>, ghost batch: seq<EventKey>)
      requires Valid()
      modifies this`purchases, this`events, svc
      ensures IsOldest(WaitingSince(ExpireLeases(old(events), now)), if limit <= 0 then 100 else limit, batch)
      ensures (View(), r.Ok?) == Queue(old(View()).(events := ExpireLeases(old(events), now)), batch, xs, now, 0)
      ensures Valid()
    {
      events := map k | k in events :: Lapse(events[k], now);
      var due := Oldest(WaitingSince(events), if limit <= 0 then 100 else limit);
      batch := due;
      r := ProcessBatch(due, xs, now);
    }

    method ProcessBatch(due: seq<EventKey>, xs: nat -> Outside, now: int) returns (r: Result<()>)
      requires Valid()
      modifies this`purchases, this`events, svc
      ensures (View(), r.Ok?) == Queue(old(View()), due, xs, now, 0)
      ensures Valid()
    {
      var i := 0;
      while i < |due|
        invariant 0 <= i <= |due| && Valid()
        invariant Queue(View(), due, xs, now, i) == Queue(old(View()), due, xs, now, 0)
      {
        r := ProcessOne(due[i], xs(i), now);
        if r.Err? {
          return;
        }
        i := i + 1;
      }
      r := Ok(());
    }

    /** A delivered event is stored and the queue processed; a refused one changes nothing. */
    method ReceiveEvent(k: EventKey, status: string, e: Event, xs: nat -> Outside, now: int)
      returns (r: Result<()>, ghost batch: seq<EventKey>)
      requires Valid()
      modifies this`purchases, this`events, svc
      ensures !Complete(k, e) || KindOf(status).None? || (k in old(events) && old(events)[k].hash != e.hash) ==>
                r.Err? && View() == old(View())
      ensures Complete(k, e) && KindOf(status).Some? && (k in old(events) ==> old(events)[k].hash == e.hash) ==>
                var stored := Receive(old(events), k, e.(kind := KindOf(status).value, receivedAt := now));
                var queued := ExpireLeases(stored, now);
                && IsOldest(WaitingSince(queued), 100, batch)
                && (View(), r.Ok?) == Queue(old(View()).(events := queued), batch, xs, now, 0)
      ensures Valid()
    {
      batch := [];
      var kind := KindOf(status);
      if kind.None? {
        return Err(InvalidArgument), [];
      }
      r := Record(k, e.(kind := kind.value, receivedAt := now));
      if r.Ok? {
        r, batch := ProcessPending(100, xs, now);
      }
    }
  }

  function KindOf(status: string): Option<EventKind> {
    if status == "paid" then Some(Paid)
    else if status == "refunded" then Some(Refunded)
    else if status == "disputed" then Some(Disputed)
    else None
  }

  /** The events that a worker may claim, with their time of receipt. */
  function WaitingSince(events: map<EventKey, Event>): map<EventKey, int> {
    map k | k in events && Claimable(events, k) :: events[k].receivedAt
  }

  /** The batch loop from entry `i` on: each event in turn until one fails, and whether none did. */
  ghost function Queue(t: Tables, batch: seq<EventKey>, xs: nat -> Outside, now: int, i: nat): (Tables, bool)
    requires i <= |batch|
    decreases |batch| - i
  {
    if i == |batch| then (t, true)
    else
      var k, x := batch[i], xs(i);
      var t' := Processed(t, k, x, now);
      if !Claimable(t.events, k) || (Attempts(t, k) && Attempt(t, k, x.lid, now).Some?) then
        Queue(t', batch, xs, now, i + 1)
      else (t', false)
  }
}
