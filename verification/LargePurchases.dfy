/**
 Purchases so large that the 64-bit arithmetic of reversals loses track of them: exactly
 which they are, and what happens to them.
 */
module LargePurchases {
  import opened Basics
  import opened Ledger
  import opened Invariants
  import opened Int64
  import opened Reversals
  import opened Payments
  import opened PurchaseLedger
  import opened StaleReads

  // ---- One reversal ---------------------------------------------------------------------

  /**
   Applying a reversal to the current row keeps the reversed credits within the purchase if
   and only if the difference between what it asks for and what is reversed fits 64 bits.
   Otherwise the row ends up with the negative total itself, while the ledger loses a whole
   period more.
   */
  lemma SettledInRangeIff(p: Purchase, e: Event)
    requires 0 <= p.reversed <= p.credits <= MAX && 0 < p.credits && 0 < p.amount <= MAX && e.kind != Paid
    ensures var asked := ComputedTarget(p.credits, p.amount, e.minor);
            && (0 <= Settled(p, e, p).reversed <= p.credits <==> asked - p.reversed >= MIN)
            && (asked - p.reversed < MIN ==>
                  Settled(p, e, p).reversed == asked < 0 && Missing(p, e) == asked - p.reversed + MODULUS > 0)
  {
    var asked := ComputedTarget(p.credits, p.amount, e.minor);
    ComputedAtMost(p.credits, p.amount, e.minor);
    ComputedAtLeast(p.credits, p.amount, e.minor);
    if asked - p.reversed < MIN {
      DivUnique(asked - p.reversed - MIN, MODULUS, -1);
      assert Missing(p, e) == asked - p.reversed + MODULUS;
      WrapOnce(asked + MODULUS);
    }
  }

  // ---- One event at a time --------------------------------------------------------------

  function AloneSteps(k: EventKey, now: int, lid: string): seq<Step> { [Take(0, k, now), Load(0), Apply(0, lid)] }

  /** `s2` is `s` after a worker, with nobody else around, has taken the event and read its purchase. */
  ghost predicate ReadAlone(s: State, s2: State, k: EventKey) {
    && k in s.events && k in s2.events && s.events[k].purchaseId in s.purchases
    && s2.workers.Keys == {0} && s2.workers[0].key == k
    && s2.workers[0].loaded == Some(s.purchases[s.events[k].purchaseId])
    && s2.sys == s.sys && s2.purchases == s.purchases && s2.clock == s.clock
    && s2.events == s.events[k := s2.events[k]] && SameContent(s.events[k], s2.events[k])
  }

  lemma TakenAlone(s: State, lid: string, k: EventKey)
    requires s.workers == map[] && Claimable(s.events, k) && Applicable(s, lid, k)
    ensures var s2 := Next(Next(s, Take(0, k, s.clock)), Load(0));
            Alone(Next(s, Take(0, k, s.clock)), 0) && Ready(s2, 0, lid) && ReadAlone(s, s2, k)
  {
    TakenIsReady(s, 0, lid, k);
    TakeAndRead(s, k);
  }

  lemma TakeAndRead(s: State, k: EventKey)
    requires s.workers == map[] && Claimable(s.events, k) && s.events[k].purchaseId in s.purchases
    requires Identified(s.purchases[s.events[k].purchaseId], k, s.events[k])
    ensures var s1 := Next(s, Take(0, k, s.clock));
            Alone(s1, 0) && ReadAlone(s, Next(s1, Load(0)), k)
  {
    var s1 := Next(s, Take(0, k, s.clock));
    assert s1 == s.(events := Claim(s.events, k, s.clock),
                    workers := map[0 := Worker(k, s.clock + LEASE_SECONDS, None)]);
  }

  lemma AdmissibleThree(s: State, a: Step, b: Step, c: Step)
    ensures AdmissibleRun(s, [a, b, c]) <==>
            Admissible(s, a) && Admissible(Next(s, a), b) && Admissible(Next(Next(s, a), b), c)
  {
    var s2 := Next(Next(s, a), b);
    assert [a, b, c][1..] == [b, c] && [b, c][1..] == [c] && [c][1..] == [];
    assert AdmissibleRun(s2, [c]) <==> Admissible(s2, c) && AdmissibleRun(Next(s2, c), []);
    assert AdmissibleRun(Next(s, a), [b, c]) <==> Admissible(Next(s, a), b) && AdmissibleRun(s2, [c]);
  }

  lemma {:induction false} AdmissibleConcat(s: State, a: seq<Step>, b: seq<Step>)
    ensures AdmissibleRun(s, a + b) <==> AdmissibleRun(s, a) && AdmissibleRun(Run(s, a), b)
    decreases |a|
  {
    if a == [] {
      assert a + b == b;
    } else {
      assert (a + b)[1..] == a[1..] + b;
      AdmissibleConcat(Next(s, a[0]), a[1..], b);
    }
  }

  /** `s'` is `s` after a reversal was processed on its own. */
  ghost predicate AfterReversal(s: State, s': State, lid: string, k: EventKey)
    requires k in s.events && s.events[k].purchaseId in s.purchases && s.purchases[s.events[k].purchaseId].amount > 0
  {
    var e, p := s.events[k], s.purchases[s.events[k].purchaseId];
    && s'.workers == map[] && s'.clock == s.clock && s'.purchases == s.purchases[e.purchaseId := Settled(p, e, p)]
    && k in s'.events && s'.events == s.events[k := s'.events[k]]
    && s'.sys.db.ledger == s.sys.db.ledger +
         if Missing(p, e) <= 0 then []
         else [RefundEntry(lid, p.user, Missing(p, e), k.0, ReversalReason(e.purchaseId), ReversalKey(k))]
  }

  lemma ApplyAlone(s: State, s2: State, lid: string, k: EventKey)
    requires ReadAlone(s, s2, k) && Ready(s2, 0, lid) && s.events[k].kind != Paid
    requires !KeyUsed(s.sys.db.ledger, ReversalKey(k))
    ensures s.purchases[s.events[k].purchaseId].amount > 0 && AfterReversal(s, Next(s2, Apply(0, lid)), lid, k)
  {
    ApplyWrites(s2, 0, lid);
    ApplyLedgerRow(s2, 0, lid);
  }

  /** What processing a reversal on its own does to the tables. */
  lemma ReversedAlone(s: State, lid: string, k: EventKey)
    requires s.workers == map[] && Claimable(s.events, k) && Applicable(s, lid, k) && s.events[k].kind != Paid
    requires !KeyUsed(s.sys.db.ledger, ReversalKey(k))
    ensures AdmissibleRun(s, AloneSteps(k, s.clock, lid))
    ensures AfterReversal(s, Run(s, AloneSteps(k, s.clock, lid)), lid, k)
  {
    RunThree(s, Take(0, k, s.clock), Load(0), Apply(0, lid));
    AdmissibleThree(s, Take(0, k, s.clock), Load(0), Apply(0, lid));
    TakenAlone(s, lid, k);
    ApplyAlone(s, Next(Next(s, Take(0, k, s.clock)), Load(0)), lid, k);
  }

  // ---- Unsteady purchases ---------------------------------------------------------------

  /** A reversal whose ledger row is well formed and whose purchase may be bound to it can be applied. */
  lemma ApplicableIf(s: State, lid: string, k: EventKey)
    requires k in s.events && s.events[k].purchaseId in s.purchases && s.events[k].kind != Paid
    requires var e, p := s.events[k], s.purchases[s.events[k].purchaseId];
             && p.amount > 0 && Identified(p, k, e) && Bindable(s.purchases, e.purchaseId, e.paymentId)
             && ValidIdentifier(p.user) && ValidIdentifier(k.0)
             && ValidIdentifier(ReversalReason(e.purchaseId)) && ValidIdentifier(ReversalKey(k))
    requires !IdUsed(s.sys.db.ledger, lid)
    ensures Applicable(s, lid, k)
  {
  }

  /** A full refund, and another reversal that the program takes to ask for less than the 64-bit difference allows. */
  predicate Overtaxes(c: Case) {
    && Proper(c) && c.amount <= MAX && c.e.kind != Paid && c.f.kind != Paid && c.e.paymentId == c.f.paymentId
    && c.e.minor <= 0 && ComputedTarget(c.credits, c.amount, c.f.minor) < c.credits + MIN
  }

  ghost function AfterFirst(c: Case, g: string): State { Run(Ordered(c), AloneSteps(c.k, 0, g)) }

  lemma FirstRefund(c: Case, g: string)
    requires Overtaxes(c)
    ensures var s := AfterFirst(c, g);
            && AdmissibleRun(Ordered(c), AloneSteps(c.k, 0, g))
            && s.workers == map[] && s.clock == 0 && c.l in s.events && s.events[c.l] == Ordered(c).events[c.l]
            && s.purchases == map[c.pid := Settled(Fresh(c), c.e, Fresh(c))] &&
               Settled(Fresh(c), c.e, Fresh(c)).reversed == c.credits
            && s.sys.db.ledger ==
               [RefundEntry(g, c.user, c.credits, c.provider, ReversalReason(c.pid), ReversalKey(c.k))]
  {
    ApplicableIf(Ordered(c), g, c.k);
    ReversedAlone(Ordered(c), g, c.k);
  }

  lemma SecondApplicable(c: Case, g: string, h: string)
    requires Overtaxes(c) && g != h
    ensures var s := AfterFirst(c, g);
            && s.workers == map[] && s.clock == 0 && Claimable(s.events, c.l) && Applicable(s, h, c.l)
            && s.events[c.l].kind != Paid && !KeyUsed(s.sys.db.ledger, ReversalKey(c.l))
  {
    FirstRefund(c, g);
    var s := AfterFirst(c, g);
    if ReversalKey(c.k) == ReversalKey(c.l) {
      ReversalKeyInjective(c.k, c.l);
      assert false;
    }
    ApplicableIf(s, h, c.l);
  }

  /** Both reversals, one after the other. */
  lemma SecondRefund(c: Case, g: string, h: string)
    requires Overtaxes(c) && g != h
    ensures var s := Run(AfterFirst(c, g), AloneSteps(c.l, 0, h));
            var asked := ComputedTarget(c.credits, c.amount, c.f.minor);
            && AdmissibleRun(AfterFirst(c, g), AloneSteps(c.l, 0, h))
            && c.pid in s.purchases && s.purchases[c.pid].reversed == asked < 0
            && s.purchases[c.pid].credits == c.credits && s.purchases[c.pid].amount == c.amount
            && Total(s.sys.db.ledger, ReversalsFor(c.pid)) == -asked - MODULUS
  {
    FirstRefund(c, g);
    SecondApplicable(c, g, h);
    ReversedAlone(AfterFirst(c, g), h, c.l);
    RefundAgain(c, AfterFirst(c, g), Run(AfterFirst(c, g), AloneSteps(c.l, 0, h)), g, h);
  }

  lemma RefundAgain(c: Case, s: State, s': State, g: string, h: string)
    requires Shaped(c) && c.amount <= MAX && c.f.kind != Paid && c.pid in s.purchases && c.l in s.events
    requires ComputedTarget(c.credits, c.amount, c.f.minor) < c.credits + MIN
    requires var p := s.purchases[c.pid];
             && p.credits == c.credits && p.amount == c.amount && p.user == c.user && p.reversed == c.credits
             && SameContent(c.f, s.events[c.l]) && AfterReversal(s, s', h, c.l)
    requires s.sys.db.ledger == [RefundEntry(g, c.user, c.credits, c.k.0, ReversalReason(c.pid), ReversalKey(c.k))]
    ensures var asked := ComputedTarget(c.credits, c.amount, c.f.minor);
            && c.pid in s'.purchases && s'.purchases[c.pid].reversed == asked < 0
            && s'.purchases[c.pid].credits == c.credits && s'.purchases[c.pid].amount == c.amount
            && Total(s'.sys.db.ledger, ReversalsFor(c.pid)) == -asked - MODULUS
  {
    SettledInRangeIff(s.purchases[c.pid], s.events[c.l]);
    RefundTotals(c, s.sys.db.ledger, s'.sys.db.ledger, g, h, Missing(s.purchases[c.pid], s.events[c.l]));
  }

  lemma RefundTotals(c: Case, l: seq<Entry>, l': seq<Entry>, g: string, h: string, more: int)
    requires c.credits > 0 && more > 0
    requires l == [RefundEntry(g, c.user, c.credits, c.k.0, ReversalReason(c.pid), ReversalKey(c.k))]
    requires l' == l + [RefundEntry(h, c.user, more, c.l.0, ReversalReason(c.pid), ReversalKey(c.l))]
    ensures Total(l', ReversalsFor(c.pid)) == -c.credits - more
  {
    ReversalTotal([], l, g, c.user, c.k, c.credits, c.pid);
    ReversalTotal(l, l', h, c.user, c.l, more, c.pid);
  }

  function RefundSteps(c: Case, g: string, h: string): seq<Step> {
    OrderSteps(c) + (AloneSteps(c.k, 0, g) + AloneSteps(c.l, 0, h))
  }

  /**
   Runs from the empty tables, with events processed one at a time, in which a second
   refund of an unsteady purchase takes back a further fortune, and leaves the purchase with
   negative reversed credits that do not agree with the ledger.
   */
  lemma UnsteadyRun(c: Case, g: string, h: string)
    requires Overtaxes(c) && g != h
    ensures var s := Run(START, RefundSteps(c, g, h));
            && AdmissibleRun(START, RefundSteps(c, g, h))
            && c.pid in s.purchases && s.purchases[c.pid].credits == c.credits && s.purchases[c.pid].amount == c.amount
            && s.purchases[c.pid].reversed < 0 && !ReversalsAgree(s, c.pid)
  {
    var s0 := Ordered(c);
    ReachOrdered(c);
    AdmissibleThree(START, Order(c.pid, c.provider, c.user, c.credits, c.amount), Receipt(c.k, c.e), Receipt(c.l, c.f));
    FirstRefund(c, g);
    SecondRefund(c, g, h);
    RunConcat(s0, AloneSteps(c.k, 0, g), AloneSteps(c.l, 0, h));
    AdmissibleConcat(s0, AloneSteps(c.k, 0, g), AloneSteps(c.l, 0, h));
    RunConcat(START, OrderSteps(c), AloneSteps(c.k, 0, g) + AloneSteps(c.l, 0, h));
    AdmissibleConcat(START, OrderSteps(c), AloneSteps(c.k, 0, g) + AloneSteps(c.l, 0, h));
  }

  /** Purchases of these terms always end with ledger and row in agreement, and within bounds. */
  ghost predicate Dependable(credits: int, amount: int) {
    forall steps, pid :: AdmissibleRun(START, steps) && pid in Run(START, steps).purchases ==>
      var s := Run(START, steps);
      s.purchases[pid].credits == credits && s.purchases[pid].amount == amount ==>
        ReversalsAgree(s, pid) && 0 <= s.purchases[pid].reversed <= credits
  }

  lemma NotDependable(c: Case, g: string, h: string)
    requires Overtaxes(c) && g != h
    ensures !Dependable(c.credits, c.amount)
  {
    UnsteadyRun(c, g, h);
    assert c.pid in Run(START, RefundSteps(c, g, h)).purchases;
  }

  /** An ordinary order with two refunds. */
  function Example(credits: int, amount: int, minor: int): Case {
    Case("s", "u", credits, amount, "p",
         ("s", "1"), Event("p", "a", Refunded, "", 0, Received, 0, 0, 0),
         ("s", "2"), Event("p", "a", Refunded, "", minor, Received, 0, 0, 0))
  }

  /**
   Exactly which purchases can be relied on: whatever happens, as long as events are
   processed one at a time, the ledger agrees with the reversed credits of a purchase and
   these stay between 0 and its credits, if and only if the purchase is steady.
   */
  lemma DependableIffSteady(credits: int, amount: int)
    requires 0 < credits <= MAX && 0 < amount <= MAX
    ensures Dependable(credits, amount) <==> Steady(credits, amount)
  {
    if Steady(credits, amount) {
      forall steps, pid | AdmissibleRun(START, steps) && pid in Run(START, steps).purchases
        ensures var s := Run(START, steps);
                s.purchases[pid].credits == credits && s.purchases[pid].amount == amount ==>
                  ReversalsAgree(s, pid) && 0 <= s.purchases[pid].reversed <= credits
      {
        NetEffect(steps, pid);
      }
    } else {
      var minor :| ComputedTarget(credits, amount, minor) < credits + MIN;
      var c := Example(credits, amount, minor);
      ShortIsProper(c);
      NotDependable(c, "g", "h");
    }
  }
}
