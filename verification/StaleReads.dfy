/**
 What happens when the events of a purchase are not processed one at a time: workers that
 act on a copy of the purchase read before another worker's transaction.
 */
module StaleReads {
  import opened Basics
  import opened Ledger
  import opened Invariants
  import opened Int64
  import opened Reversals
  import opened Payments
  import opened PurchaseLedger

  // ---- Copies ---------------------------------------------------------------------------

  /** The copy is of the event's purchase, and right about all but its binding, status and reversals. */
  ghost predicate Copied(s: State, w: nat)
    requires w in s.workers
  {
    && s.workers[w].key in s.events
    && (s.workers[w].loaded.Some? ==>
          var k, p := s.workers[w].key, s.workers[w].loaded.value;
          && s.events[k].purchaseId in s.purchases && p.provider == k.0
          && var row := s.purchases[s.events[k].purchaseId];
             p.provider == row.provider && p.user == row.user && p.credits == row.credits && p.amount == row.amount)
  }

  ghost predicate Copies(s: State) { forall w :: w in s.workers ==> Copied(s, w) }

  lemma ApplyCopies(s: State, w: nat, lid: string)
    requires Copies(s) && Ready(s, w, lid)
    ensures Copies(Next(s, Apply(w, lid)))
  {
    ApplyWrites(s, w, lid);
    var s' := Next(s, Apply(w, lid));
    forall v | v in s'.workers ensures Copied(s', v) {
      assert Copied(s, v);
    }
  }

  lemma LoadCopies(s: State, w: nat)
    requires Copies(s)
    ensures Copies(Next(s, Load(w)))
  {
    var s' := Next(s, Load(w));
    forall v | v in s'.workers ensures Copied(s', v) {
      assert Copied(s, v);
    }
  }

  lemma QuietCopies(s: State, s': State)
    requires Copies(s) && Quiet(s, s')
    ensures Copies(s')
  {
    forall v | v in s'.workers ensures Copied(s', v) {
      if s'.workers[v].loaded.Some? {
        assert Copied(s, v);
      }
    }
  }

  lemma {:induction false} RunCopies(s: State, steps: seq<Step>)
    requires Copies(s)
    ensures Copies(Run(s, steps))
    decreases |steps|
  {
    if steps != [] {
      var step := steps[0];
      if step.Apply? {
        if Ready(s, step.worker, step.lid) {
          ApplyCopies(s, step.worker, step.lid);
        }
      } else if step.Load? {
        LoadCopies(s, step.worker);
      } else {
        assert forall w :: w in s.workers ==> Copied(s, w);
        StepQuiet(s, step);
        QuietCopies(s, Next(s, step));
      }
      RunCopies(Next(s, step), steps[1..]);
    }
  }

  /** In every run whatsoever, what a worker has read is right about everything that cannot change. */
  lemma ReachableCopies(steps: seq<Step>, w: nat)
    requires w in Run(START, steps).workers
    ensures Copied(Run(START, steps), w)
  {
    RunCopies(START, steps);
  }

  // ---- Exactly when a stale read does harm ----------------------------------------------

  /** What was granted for the purchase is what its applied payments call for. */
  ghost predicate GrantsAgree(s: State, pid: string)
    requires pid in s.purchases
  {
    Total(s.sys.db.ledger, GrantsFor(pid)) == (if pid in s.paid then s.purchases[pid].credits else 0)
  }

  /** What was taken back for the purchase is what its row says. */
  ghost predicate ReversalsAgree(s: State, pid: string)
    requires pid in s.purchases
  {
    Total(s.sys.db.ledger, ReversalsFor(pid)) == -s.purchases[pid].reversed
  }

  /** A payment whose ledger row exists is the one its purchase is bound to. */
  lemma PaidKeyIsBound(s: State, k: EventKey, pid: string)
    requires Books(s) && k in s.events && pid == s.events[k].purchaseId && pid in s.purchases
    requires s.purchases[pid].provider == k.0 && Bindable(s.purchases, pid, s.events[k].paymentId)
    ensures KeyUsed(s.sys.db.ledger, PaymentKey(k.0, s.events[k].paymentId)) <==>
            pid in s.paid && s.purchases[pid].paymentId == s.events[k].paymentId
  {
    var l, key := s.sys.db.ledger, PaymentKey(k.0, s.events[k].paymentId);
    assert Reckoned(s, pid);
    if KeyUsed(l, key) {
      var i :| 0 <= i < |l| && l[i].key == Some(key);
      KeySpaces(k.0, s.events[k].paymentId, k);
      assert Attributed(s, l[i]);
      var q :| GrantOf(s, l[i], q);
      assert Reckoned(s, q);
      PaymentKeyInjective(k.0, s.events[k].paymentId, s.purchases[q].provider, s.purchases[q].paymentId);
    }
  }

  /** The totals of the purchase after its payment was applied. */
  lemma PaidTotals(l: seq<Entry>, l': seq<Entry>, used: bool, lid: string, user: string, credits: int, k: EventKey,
                   paymentId: string, pid: string)
    requires l' == if used then l
                   else l + [GrantEntry(lid, user, credits, k.0, PurchaseReason(pid), PaymentKey(k.0, paymentId))]
    ensures Total(l', GrantsFor(pid)) == Total(l, GrantsFor(pid)) + if used then 0 else credits
    ensures Total(l', ReversalsFor(pid)) == Total(l, ReversalsFor(pid))
  {
    if !used {
      KeySpaces(k.0, paymentId, k);
      TotalsWithRow(l, GrantEntry(lid, user, credits, k.0, PurchaseReason(pid), PaymentKey(k.0, paymentId)), pid, pid);
    }
  }

  /**
   Applying a payment from an earlier read leaves the grants in agreement with the purchase
   if and only if it has not been paid since, or by this very payment. Otherwise its credits
   are granted a second time. The reversals are as before.
   */
  lemma StalePaymentAgreesIff(s: State, w: nat, lid: string)
    requires Books(s) && Ready(s, w, lid) && Copied(s, w) && s.events[s.workers[w].key].kind == Paid
    ensures var e, s' := s.events[s.workers[w].key], Next(s, Apply(w, lid));
            var pid := e.purchaseId;
            && pid in s.purchases && pid in s'.purchases
            && (GrantsAgree(s', pid) <==> pid !in s.paid || s.purchases[pid].paymentId == e.paymentId)
            && (!GrantsAgree(s', pid) ==> Total(s'.sys.db.ledger, GrantsFor(pid)) == 2 * s.purchases[pid].credits)
            && (ReversalsAgree(s', pid) <==> ReversalsAgree(s, pid))
  {
    var k, p, s' := s.workers[w].key, s.workers[w].loaded.value, Next(s, Apply(w, lid));
    var e := s.events[k];
    var l := s.sys.db.ledger;
    ApplyWrites(s, w, lid);
    ApplyLedgerRow(s, w, lid);
    assert Reckoned(s, e.purchaseId);
    PaidKeyIsBound(s, k, e.purchaseId);
    PaidTotals(l, s'.sys.db.ledger, KeyUsed(l, PaymentKey(k.0, e.paymentId)), lid, p.user, p.credits, k, e.paymentId,
               e.purchaseId);
  }

  /** A reversal adds nothing to the grants. */
  lemma ReversalLeavesGrants(l: seq<Entry>, l': seq<Entry>, lid: string, user: string, k: EventKey, missing: int,
                             pid: string)
    requires l' == l || l' == l + [RefundEntry(lid, user, missing, k.0, ReversalReason(pid), ReversalKey(k))]
    ensures Total(l', GrantsFor(pid)) == Total(l, GrantsFor(pid))
  {
    if l' != l {
      KeySpaces("", "", k);
      TotalsWithRow(l, RefundEntry(lid, user, missing, k.0, ReversalReason(pid), ReversalKey(k)), pid, pid);
    }
  }

  /**
   The same for a reversal: the reversals stay in agreement if and only if the total that is
   stored is the current one plus what the ledger now loses, which is nothing if the event's
   ledger row exists already. The grants are as before.
   */
  lemma StaleReversalAgreesIff(s: State, w: nat, lid: string)
    requires Ready(s, w, lid) && s.events[s.workers[w].key].kind != Paid && Copied(s, w)
    requires ReversalsAgree(s, s.events[s.workers[w].key].purchaseId)
    ensures var k, p := s.workers[w].key, s.workers[w].loaded.value;
            var pid, s' := s.events[k].purchaseId, Next(s, Apply(w, lid));
            var taken := if KeyUsed(s.sys.db.ledger, ReversalKey(k)) then 0 else Max(Missing(p, s.events[k]), 0);
            && pid in s'.purchases
            && (ReversalsAgree(s', pid) <==> NewReversed(p, s.events[k]) == s.purchases[pid].reversed + taken)
            && (GrantsAgree(s', pid) <==> GrantsAgree(s, pid))
  {
    var k, p, s' := s.workers[w].key, s.workers[w].loaded.value, Next(s, Apply(w, lid));
    var e := s.events[k];
    StaleReadBreaksReckoning(s, w, lid);
    ApplyWrites(s, w, lid);
    ApplyLedgerRow(s, w, lid);
    ReversalLeavesGrants(s.sys.db.ledger, s'.sys.db.ledger, lid, p.user, k, Missing(p, e), e.purchaseId);
  }

  /**
   Applying any event from an earlier read keeps the payment that a purchase is bound to if
   and only if the event names it: the test made at the read is not repeated.
   */
  lemma StaleApplyRebindsIff(s: State, w: nat, lid: string)
    requires Ready(s, w, lid)
    ensures var e, s' := s.events[s.workers[w].key], Next(s, Apply(w, lid));
            var pid := e.purchaseId;
            && pid in s.purchases && pid in s'.purchases
            && (s.purchases[pid].paymentId != "" && s'.purchases[pid].paymentId != s.purchases[pid].paymentId <==>
                s.purchases[pid].paymentId !in {"", e.paymentId})
  {
    ApplyWrites(s, w, lid);
  }

  // ---- Failing runs, from the start -----------------------------------------------------

  /** An order and two events on it, of two deliveries of one provider. */
  datatype Case = Case(provider: string, user: string, credits: int, amount: int, pid: string,
                       k: EventKey, e: Event, l: EventKey, f: Event)

  function Fresh(c: Case): Purchase { Purchase(c.provider, c.user, c.credits, c.amount, "", Open, 0) }

  function Taken(e: Event): Event { e.(progress := Processing, attempts := 1, lease := LEASE_SECONDS) }

  predicate Shaped(c: Case) {
    && c.k != c.l && c.k.0 == c.provider && c.l.0 == c.provider && c.e.purchaseId == c.pid && c.f.purchaseId == c.pid
    && 0 < c.credits <= MAX && c.amount > 0
  }

  /** Everything that goes into a ledger row is a proper identifier. */
  predicate Named(c: Case) {
    && ValidIdentifier(c.provider) && ':' !in c.provider && ValidIdentifier(c.user)
    && ValidIdentifier(PurchaseReason(c.pid)) && ValidIdentifier(ReversalReason(c.pid))
    && ValidIdentifier(PaymentKey(c.provider, c.e.paymentId)) && ValidIdentifier(PaymentKey(c.provider, c.f.paymentId))
    && ValidIdentifier(ReversalKey(c.k)) && ValidIdentifier(ReversalKey(c.l))
  }

  predicate Proper(c: Case) { Shaped(c) && Named(c) && Complete(c.k, c.e) && Complete(c.l, c.f) }

  lemma ShortNames(provider: string, user: string, a: string, k: EventKey, pid: string)
    requires 0 < |provider| <= 50 && !IsSpace(provider[0]) && 0 < |user| <= 50 && !IsSpace(user[0])
    requires k.0 == provider && |pid| <= 50 && |a| <= 50 && |k.1| <= 50
    ensures ValidIdentifier(provider) && ValidIdentifier(user)
    ensures ValidIdentifier(PurchaseReason(pid)) && ValidIdentifier(ReversalReason(pid))
    ensures ValidIdentifier(PaymentKey(provider, a)) && ValidIdentifier(ReversalKey(k))
  {
    ShortIdentifier(provider);
    ShortIdentifier(user);
    assert PurchaseReason(pid)[0] == 'p' && ReversalReason(pid)[0] == 'r';
    ShortIdentifier(PurchaseReason(pid));
    ShortIdentifier(ReversalReason(pid));
    assert PaymentKey(provider, a)[0] == 'p' && ReversalKey(k)[0] == 'r';
    ShortIdentifier(PaymentKey(provider, a));
    ShortIdentifier(ReversalKey(k));
  }

  /** Names of ordinary length make a proper case. */
  lemma ShortIsProper(c: Case)
    requires Shaped(c) && Complete(c.k, c.e) && Complete(c.l, c.f) && ':' !in c.provider
    requires 0 < |c.provider| <= 50 && !IsSpace(c.provider[0]) && 0 < |c.user| <= 50 && !IsSpace(c.user[0])
    requires |c.pid| <= 50 && |c.e.paymentId| <= 50 && |c.f.paymentId| <= 50 && |c.k.1| <= 50 && |c.l.1| <= 50
    ensures Proper(c)
  {
    ShortNames(c.provider, c.user, c.e.paymentId, c.k, c.pid);
    ShortNames(c.provider, c.user, c.f.paymentId, c.l, c.pid);
  }

  function OrderSteps(c: Case): seq<Step> {
    [Order(c.pid, c.provider, c.user, c.credits, c.amount), Receipt(c.k, c.e), Receipt(c.l, c.f)]
  }

  function ReadSteps(c: Case): seq<Step> { [Take(0, c.k, 0), Take(1, c.l, 0)] + [Load(0), Load(1)] }

  function ApplySteps(g: string, h: string): seq<Step> { [Apply(0, g), Apply(1, h)] }

  ghost function Ordered(c: Case): State {
    START.(purchases := map[c.pid := Fresh(c)],
           events := map[c.k := c.e.(progress := Received, lease := 0, attempts := 0),
                         c.l := c.f.(progress := Received, lease := 0, attempts := 0)])
  }

  ghost function BothTaken(c: Case, loaded: Option<Purchase>): State {
    START.(purchases := map[c.pid := Fresh(c)],
           events := map[c.k := Taken(c.e), c.l := Taken(c.f)],
           workers := map[0 := Worker(c.k, LEASE_SECONDS, loaded), 1 := Worker(c.l, LEASE_SECONDS, loaded)])
  }

  /** Both workers have read the purchase, and nobody has applied anything. */
  ghost function BothRead(c: Case): State { BothTaken(c, Some(Fresh(c))) }

  lemma ReachOrdered(c: Case)
    requires Proper(c)
    ensures Run(START, OrderSteps(c)) == Ordered(c) && DisciplinedRun(START, OrderSteps(c))
  {
    RunThree(START, Order(c.pid, c.provider, c.user, c.credits, c.amount), Receipt(c.k, c.e), Receipt(c.l, c.f));
  }

  /** The events and workers after the first take. */
  ghost function OneTaken(c: Case): State {
    Ordered(c).(events := map[c.k := Taken(c.e), c.l := c.f.(progress := Received, lease := 0, attempts := 0)],
                workers := map[0 := Worker(c.k, LEASE_SECONDS, None)])
  }

  lemma TakeFirst(c: Case)
    requires Shaped(c)
    ensures Next(Ordered(c), Take(0, c.k, 0)) == OneTaken(c)
  {
    assert Next(Ordered(c), Take(0, c.k, 0)).events == OneTaken(c).events;
  }

  lemma TakeSecond(c: Case)
    requires Shaped(c)
    ensures Next(OneTaken(c), Take(1, c.l, 0)) == BothTaken(c, None)
  {
    assert Next(OneTaken(c), Take(1, c.l, 0)).events == BothTaken(c, None).events;
    assert Next(OneTaken(c), Take(1, c.l, 0)).workers == BothTaken(c, None).workers;
  }

  lemma ReachTaken(c: Case)
    requires Shaped(c)
    ensures var steps := [Take(0, c.k, 0), Take(1, c.l, 0)];
            Run(Ordered(c), steps) == BothTaken(c, None) && DisciplinedRun(Ordered(c), steps)
  {
    RunTwo(Ordered(c), Take(0, c.k, 0), Take(1, c.l, 0));
    TakeFirst(c);
    TakeSecond(c);
  }

  ghost function OneLoaded(c: Case): State {
    var s := BothTaken(c, None);
    s.(workers := s.workers[0 := Worker(c.k, LEASE_SECONDS, Some(Fresh(c)))])
  }

  lemma LoadFirst(c: Case)
    requires Shaped(c)
    ensures Next(BothTaken(c, None), Load(0)) == OneLoaded(c) && Live(BothTaken(c, None), 0)
  {
  }

  lemma LoadSecond(c: Case)
    requires Shaped(c)
    ensures Next(OneLoaded(c), Load(1)) == BothRead(c) && Live(OneLoaded(c), 1)
  {
    assert Next(OneLoaded(c), Load(1)).workers == BothRead(c).workers;
  }

  lemma ReachLoaded(c: Case)
    requires Shaped(c)
    ensures var s, steps := BothTaken(c, None), [Load(0), Load(1)];
            Run(s, steps) == BothRead(c) && DisciplinedRun(s, steps)
  {
    RunTwo(BothTaken(c, None), Load(0), Load(1));
    LoadFirst(c);
    LoadSecond(c);
  }

  lemma ReachBothRead(c: Case)
    requires Proper(c)
    ensures Run(START, OrderSteps(c) + ReadSteps(c)) == BothRead(c)
    ensures DisciplinedRun(START, OrderSteps(c) + ReadSteps(c))
  {
    ReachOrdered(c);
    ReachTaken(c);
    ReachLoaded(c);
    RunConcat(Ordered(c), [Take(0, c.k, 0), Take(1, c.l, 0)], [Load(0), Load(1)]);
    RunConcat(START, OrderSteps(c), ReadSteps(c));
  }

  /** A worker whose ledger row can be written and whose purchase can be bound is ready. */
  lemma ReadyIf(s: State, w: nat, lid: string)
    requires w in s.workers && s.workers[w].key in s.events && s.workers[w].loaded.Some?
    requires s.workers[w].loaded.value.amount > 0 && !IdUsed(s.sys.db.ledger, lid)
    requires var k, p := s.workers[w].key, s.workers[w].loaded.value;
             var e := s.events[k];
             && Bindable(s.purchases, e.purchaseId, e.paymentId) && p.credits > 0
             && ValidIdentifier(p.user) && ValidIdentifier(k.0)
             && (e.kind == Paid ==>
                   ValidIdentifier(PurchaseReason(e.purchaseId)) && ValidIdentifier(PaymentKey(k.0, e.paymentId)))
             && (e.kind != Paid ==> ValidIdentifier(ReversalReason(e.purchaseId)) && ValidIdentifier(ReversalKey(k)))
    ensures Ready(s, w, lid)
  {
  }

  /** The state after worker 0 has applied its event. */
  lemma FirstApply(c: Case, g: string)
    requires Proper(c)
    ensures var s := Next(BothRead(c), Apply(0, g));
            && Ready(BothRead(c), 0, g)
            && s.purchases == map[c.pid := Settled(Fresh(c), c.e, Fresh(c))]
            && s.workers.Keys == {1} && s.workers[1] == BothRead(c).workers[1] && s.clock == 0
            && s.events.Keys == {c.k, c.l} && s.events[c.l] == Taken(c.f)
  {
    ReadyIf(BothRead(c), 0, g);
    ApplyWrites(BothRead(c), 0, g);
  }

  lemma SecondReady(c: Case, g: string, h: string)
    requires Proper(c) && !IdUsed(Next(BothRead(c), Apply(0, g)).sys.db.ledger, h)
    ensures Ready(Next(BothRead(c), Apply(0, g)), 1, h)
  {
    FirstApply(c, g);
    ReadyIf(Next(BothRead(c), Apply(0, g)), 1, h);
  }

  lemma FirstRow(c: Case, g: string)
    requires Proper(c) && (c.e.kind != Paid ==> c.e.minor <= 0)
    ensures var l := Next(BothRead(c), Apply(0, g)).sys.db.ledger;
            && |l| == 1 && l[0].id == g
            && l[0] == if c.e.kind == Paid
                       then GrantEntry(g, c.user, c.credits, c.provider, PurchaseReason(c.pid),
                                       PaymentKey(c.provider, c.e.paymentId))
                       else RefundEntry(g, c.user, c.credits, c.provider, ReversalReason(c.pid), ReversalKey(c.k))
  {
    FirstApply(c, g);
    ApplyLedgerRow(BothRead(c), 0, g);
  }

  /** The run in which two workers read the purchase before either applies its event. */
  function OverlapSteps(c: Case, g: string, h: string): seq<Step> { (OrderSteps(c) + ReadSteps(c)) + ApplySteps(g, h) }

  lemma OverlapRun(c: Case, g: string, h: string)
    requires Proper(c)
    ensures Run(START, OverlapSteps(c, g, h)) == Next(Next(BothRead(c), Apply(0, g)), Apply(1, h))
    ensures DisciplinedRun(START, OverlapSteps(c, g, h))
  {
    ReachBothRead(c);
    FirstApply(c, g);
    RunConcat(START, OrderSteps(c) + ReadSteps(c), ApplySteps(g, h));
    RunTwo(BothRead(c), Apply(0, g), Apply(1, h));
  }

  /**
   Runs from the empty tables, with every worker within its lease, that grant a purchase
   twice and bind it to the second payment: both workers read it while it was unbound.
   */
  lemma DoubleGrantRun(c: Case, g: string, h: string)
    requires Proper(c) && c.e.kind == Paid && c.f.kind == Paid && c.e.paymentId != c.f.paymentId && g != h
    ensures var s := Run(START, OverlapSteps(c, g, h));
            && DisciplinedRun(START, OverlapSteps(c, g, h))
            && c.pid in s.purchases && s.purchases[c.pid].credits == c.credits
            && s.purchases[c.pid].paymentId == c.f.paymentId && c.k in s.applied && c.l in s.applied
            && Total(s.sys.db.ledger, GrantsFor(c.pid)) == 2 * c.credits
  {
    var s1 := Next(BothRead(c), Apply(0, g));
    OverlapRun(c, g, h);
    FirstApply(c, g);
    FirstRow(c, g);
    SecondReady(c, g, h);
    ApplyWrites(BothRead(c), 0, g);
    ApplyWrites(s1, 1, h);
    GrantedAgain(c, g, h);
  }

  lemma GrantedAgain(c: Case, g: string, h: string)
    requires Proper(c) && c.e.kind == Paid && c.f.kind == Paid && c.e.paymentId != c.f.paymentId && g != h
    ensures Total(Next(Next(BothRead(c), Apply(0, g)), Apply(1, h)).sys.db.ledger, GrantsFor(c.pid)) == 2 * c.credits
  {
    var s1 := Next(BothRead(c), Apply(0, g));
    var l1, l2 := s1.sys.db.ledger, Next(s1, Apply(1, h)).sys.db.ledger;
    FirstApply(c, g);
    FirstRow(c, g);
    SecondReady(c, g, h);
    ApplyLedgerRow(s1, 1, h);
    if PaymentKey(c.provider, c.e.paymentId) == PaymentKey(c.provider, c.f.paymentId) {
      PaymentKeyInjective(c.provider, c.e.paymentId, c.provider, c.f.paymentId);
      assert false;
    }
    assert !KeyUsed(l1, PaymentKey(c.provider, c.f.paymentId));
    PaidTotals([], l1, false, g, c.user, c.credits, c.k, c.e.paymentId, c.pid);
    PaidTotals(l1, l2, false, h, c.user, c.credits, c.l, c.f.paymentId, c.pid);
  }

  lemma ReversedAgain(c: Case, g: string, h: string)
    requires Proper(c) && c.e.kind != Paid && c.f.kind != Paid && c.e.minor <= 0 && c.f.minor <= 0 && g != h
    ensures Total(Next(Next(BothRead(c), Apply(0, g)), Apply(1, h)).sys.db.ledger, ReversalsFor(c.pid)) ==
            -2 * c.credits
  {
    var s1 := Next(BothRead(c), Apply(0, g));
    var l1, l2 := s1.sys.db.ledger, Next(s1, Apply(1, h)).sys.db.ledger;
    FirstApply(c, g);
    FirstRow(c, g);
    SecondReady(c, g, h);
    ApplyLedgerRow(s1, 1, h);
    if ReversalKey(c.k) == ReversalKey(c.l) {
      ReversalKeyInjective(c.k, c.l);
      assert false;
    }
    assert !KeyUsed(l1, ReversalKey(c.l));
    ReversalTotal([], l1, g, c.user, c.k, c.credits, c.pid);
    ReversalTotal(l1, l2, h, c.user, c.l, c.credits, c.pid);
  }

  /**
   Runs from the empty tables, with every worker within its lease, in which two full
   refunds of one purchase take back twice its credits while the purchase records them once.
   */
  lemma DoubleRefundRun(c: Case, g: string, h: string)
    requires Proper(c) && c.e.kind != Paid && c.f.kind != Paid && c.e.minor <= 0 && c.f.minor <= 0 && g != h
    ensures var s := Run(START, OverlapSteps(c, g, h));
            && DisciplinedRun(START, OverlapSteps(c, g, h))
            && c.pid in s.purchases && s.purchases[c.pid].reversed == c.credits
            && Total(s.sys.db.ledger, ReversalsFor(c.pid)) == -2 * c.credits
  {
    var s1 := Next(BothRead(c), Apply(0, g));
    OverlapRun(c, g, h);
    FirstApply(c, g);
    FirstRow(c, g);
    SecondReady(c, g, h);
    ApplyWrites(s1, 1, h);
    ReversedAgain(c, g, h);
  }
}
