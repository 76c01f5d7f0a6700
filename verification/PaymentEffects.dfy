/**
 What the payments service does to its tables, column by column.
 */
module PaymentEffects {
  import opened Basics
  import opened Ledger
  import opened Int64
  import opened Reversals
  import opened Payments
  import opened PaymentService
  import opened Query
  import Runs

  // ---- Vocabulary -----------------------------------------------------------------------

  /** The keys and reasons under which payments enter the ledger. */
  lemma KeyFormats()
    ensures PaymentKey("stripe", "pi_1") == "payment:stripe:pi_1"
    ensures ReversalKey(("stripe", "evt_1")) == "reversal:stripe:evt_1"
    ensures PurchaseReason("p1") == "purchase p1" && ReversalReason("p1") == "reversal p1"
  {
  }

  /** The three statuses that an event may have, and what they mean. */
  lemma KindMeans(status: string)
    ensures KindOf("paid") == Some(Paid) && KindOf("refunded") == Some(Refunded) && KindOf("disputed") == Some(Disputed)
    ensures status != "paid" && status != "refunded" && status != "disputed" ==> KindOf(status) == None
  {
    assert "paid" != "refunded" && "paid" != "disputed" && "refunded" != "disputed" by {
      assert "paid"[0] != "refunded"[0] && "paid"[0] != "disputed"[0] && "refunded"[0] != "disputed"[0];
    }
  }

  /** Only the progress of the event changed, and its lease and attempts. */
  predicate Progressed(e: Event, e': Event, progress: Progress, lease: int, attempts: nat) {
    && e'.purchaseId == e.purchaseId && e'.paymentId == e.paymentId && e'.kind == e.kind && e'.hash == e.hash
    && e'.minor == e.minor && e'.receivedAt == e.receivedAt
    && e'.progress == progress && e'.lease == lease && e'.attempts == attempts
  }

  ghost predicate OnlyEvent(events: map<EventKey, Event>, events': map<EventKey, Event>, k: EventKey) {
    events'.Keys == events.Keys && forall l :: l in events && l != k ==> events'[l] == events[l]
  }

  ghost predicate OnlyPurchase(purchases: map<string, Purchase>, purchases': map<string, Purchase>, pid: string) {
    purchases'.Keys == purchases.Keys && forall q :: q in purchases && q != pid ==> purchases'[q] == purchases[q]
  }

  /** Only binding, status and reversals of the purchase changed. */
  predicate Rebooked(p: Purchase, p': Purchase, paymentId: string, status: PurchaseStatus, reversed: int) {
    && p'.provider == p.provider && p'.user == p.user && p'.credits == p.credits && p'.amount == p.amount
    && p'.paymentId == paymentId && p'.status == status && p'.reversed == reversed
  }

  // ---- The transaction ------------------------------------------------------------------

  /** The purchase row after a payment, a refund and a dispute, from a copy read before. */
  lemma SettledColumns(row: Purchase, e: Event, p: Purchase)
    requires p.amount > 0
    ensures var missing := Wrap(ComputedTarget(p.credits, p.amount, e.minor) - p.reversed);
            var reversed := Wrap(p.reversed + if missing > 0 then missing else 0);
            && (e.kind == Paid ==> Rebooked(row, Settled(row, e, p), e.paymentId, Fulfilled, row.reversed))
            && (e.kind == Refunded ==> Rebooked(row, Settled(row, e, p), e.paymentId, Reversed(Refunded), reversed))
            && (e.kind == Disputed ==> Rebooked(row, Settled(row, e, p), e.paymentId, Reversed(Disputed), reversed))
  {
  }

  /** The ledger call that an event makes for a purchase, with every argument written out. */
  function LedgerCall(db: Db, lid: string, k: EventKey, e: Event, p: Purchase): Effect<()>
    requires p.amount > 0
  {
    var missing := Wrap(ComputedTarget(p.credits, p.amount, e.minor) - p.reversed);
    if e.kind == Paid then
      Grant(db, lid, p.user, p.credits, k.0, "purchase " + e.purchaseId, "payment:" + k.0 + ":" + e.paymentId)
    else if missing > 0 then
      Refund(db, lid, p.user, missing, k.0, "reversal " + e.purchaseId, "reversal:" + k.0 + ":" + k.1)
    else Effect(Ok(()), db)
  }

  /** Purchase and event belong together, and no other purchase of the provider holds the payment. */
  ghost predicate Matches(purchases: map<string, Purchase>, k: EventKey, e: Event) {
    && e.purchaseId in purchases && purchases[e.purchaseId].provider == k.0
    && (purchases[e.purchaseId].paymentId == "" || purchases[e.purchaseId].paymentId == e.paymentId)
    && forall q :: q in purchases && q != e.purchaseId && purchases[q].provider == k.0 ==>
         purchases[q].paymentId != e.paymentId
  }

  /** The event's purchase matches, and its ledger call is accepted or was made before. */
  ghost predicate GoesThrough(t: Tables, k: EventKey, e: Event, lid: string) {
    && Matches(t.purchases, k, e) && t.purchases[e.purchaseId].amount > 0
    && var result := LedgerCall(t.db, lid, k, e, t.purchases[e.purchaseId]).result;
       result == Ok(()) || result == Err(DuplicateGrant)
  }

  lemma AttemptIff(t: Tables, k: EventKey, lid: string, now: int)
    requires SoundAmounts(t.purchases) && Claimable(t.events, k)
    ensures GoesThrough(t, k, t.events[k], lid) <==> Attempts(t, k) && Attempt(t, k, lid, now).Some?
  {
  }

  lemma AppliedEffect(t: Tables, k: EventKey, x: Outside, now: int)
    requires SoundAmounts(t.purchases) && Claimable(t.events, k) && GoesThrough(t, k, t.events[k], x.lid)
    ensures var t', e := ProcessOutcome(t, k, x, now), t.events[k];
            var p := t.purchases[e.purchaseId];
            && OnlyEvent(t.events, t'.events, k) && Progressed(e, t'.events[k], Applied, 0, e.attempts + 1)
            && OnlyPurchase(t.purchases, t'.purchases, e.purchaseId) && t'.purchases[e.purchaseId] == Settled(p, e, p)
            && t'.db == LedgerCall(t.db, x.lid, k, e, p).db
  {
    AttemptIff(t, k, x.lid, now);
  }

  lemma MissedEffect(t: Tables, k: EventKey, x: Outside, now: int)
    requires SoundAmounts(t.purchases) && Claimable(t.events, k) && !GoesThrough(t, k, t.events[k], x.lid)
    ensures var t', e := ProcessOutcome(t, k, x, now), t.events[k];
            && t'.db == t.db && t'.purchases == t.purchases && OnlyEvent(t.events, t'.events, k)
            && Progressed(e, t'.events[k], if x.written then Failed else Processing, now + 30, e.attempts + 1)
  {
    AttemptIff(t, k, x.lid, now);
  }

  /**
   Processing an event. An event that is neither received nor failed is left alone. One whose
   purchase does not match, or whose ledger call is refused, is taken for 30 seconds and, if
   the failure write goes through, marked failed, and nothing else changes. Otherwise the
   ledger call is made and event and purchase are updated with it.
   */
  lemma ProcessEffect(t: Tables, k: EventKey, x: Outside, now: int)
    requires SoundAmounts(t.purchases)
    ensures var t' := ProcessOutcome(t, k, x, now);
            var free := k in t.events && t.events[k].progress in {Received, Failed};
            && (!free ==> t' == t)
            && (free ==>
                  var e := t.events[k];
                  && OnlyEvent(t.events, t'.events, k)
                  && (!GoesThrough(t, k, e, x.lid) ==>
                        && t'.db == t.db && t'.purchases == t.purchases
                        && Progressed(e, t'.events[k], if x.written then Failed
                                      else Processing, now + 30, e.attempts + 1))
                  && (GoesThrough(t, k, e, x.lid) ==>
                        var p := t.purchases[e.purchaseId];
                        && t'.db == LedgerCall(t.db, x.lid, k, e, p).db &&
                           OnlyPurchase(t.purchases, t'.purchases, e.purchaseId)
                        && t'.purchases[e.purchaseId] == Settled(p, e, p)
                        && Progressed(e, t'.events[k], Applied, 0, e.attempts + 1)))
  {
    if Claimable(t.events, k) {
      if GoesThrough(t, k, t.events[k], x.lid) {
        AppliedEffect(t, k, x, now);
      } else {
        MissedEffect(t, k, x, now);
      }
    }
  }

  // ---- The queue ------------------------------------------------------------------------

  /**
   An event that is being processed returns to the queue as failed once its lease lies
   before now; no other changes.
   */
  lemma LeaseEffect(events: map<EventKey, Event>, now: int)
    ensures ExpireLeases(events, now).Keys == events.Keys
    ensures forall k :: k in events ==>
              if events[k].progress == Processing && events[k].lease < now
              then Progressed(events[k], ExpireLeases(events, now)[k], Failed, events[k].lease, events[k].attempts)
              else ExpireLeases(events, now)[k] == events[k]
  {
  }

  /** The batch of a run over the queue: received and failed events, oldest first, none older left out. */
  lemma WaitingBatch(events: map<EventKey, Event>, limit: nat, batch: seq<EventKey>)
    requires IsOldest(WaitingSince(events), limit, batch)
    ensures |batch| <= limit
    ensures forall i :: 0 <= i < |batch| ==> batch[i] in events && events[batch[i]].progress in {Received, Failed}
    ensures forall i, j :: 0 <= i < j < |batch| ==>
              batch[i] != batch[j] && events[batch[i]].receivedAt <= events[batch[j]].receivedAt
    ensures forall k, i ::
              (k in events && events[k].progress in {Received, Failed} && k !in batch && 0 <= i < |batch|) ==>
              events[batch[i]].receivedAt <= events[k].receivedAt
    ensures |batch| < limit ==> forall k :: k in events && events[k].progress in {Received, Failed} ==> k in batch
  {
    var times := WaitingSince(events);
    assert forall k :: k in events && events[k].progress in {Received, Failed} ==>
           k in times && times[k] == events[k].receivedAt;
    assert forall k :: k in times ==>
           k in events && events[k].progress in {Received, Failed} && times[k] == events[k].receivedAt;
  }

  /** Processing a batch: nothing for an empty one, and one event after another as long as each succeeds. */
  lemma {:induction false} QueueGrows(t: Tables, batch: seq<EventKey>, k: EventKey, xs: nat -> Outside, now: int,
                                      i: nat)
    requires i <= |batch|
    ensures var before, after := Queue(t, batch, xs, now, i), Queue(t, batch + [k], xs, now, i);
            && (!before.1 ==> after == before)
            && (before.1 ==>
                  && after.0 == Processed(before.0, k, xs(|batch|), now)
                  && (after.1 <==> !Claimable(before.0.events, k) ||
                                   (Attempts(before.0, k) && Attempt(before.0, k, xs(|batch|).lid, now).Some?)))
    decreases |batch| - i
  {
    if i < |batch| {
      QueueGrows(Processed(t, batch[i], xs(i), now), batch, k, xs, now, i + 1);
    } else {
      assert (batch + [k])[i] == k;
    }
  }

  /**
   What surrounds the processing: a crash forgets the worker, time passes, other traffic
   touches the credit tables alone.
   */
  lemma SurroundingSteps(s: State, w: nat, d: nat, st: Runs.Step)
    ensures Next(s, Crash(w)) == s.(workers := map v | v in s.workers && v != w :: s.workers[v])
    ensures Next(s, Tick(d)) == s.(clock := s.clock + d)
    ensures Next(s, Core(st)) == s.(sys := Runs.Apply(s.sys, st))
  {
  }
}
