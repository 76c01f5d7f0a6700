/**
 What payments do to one purchase when its events are processed one at a time: over any
 run with crashes, retries, stale workers and redelivery, its ledger effect is its credits
 if a payment was applied, less what was reversed, and the reversed total is the largest
 that any applied event asked for.
 */
module PurchaseLedger {
  import opened Basics
  import opened Ledger
  import opened Invariants
  import opened Int64
  import opened Reversals
  import opened Payments
  import Runs

  predicate IsPaymentKey(key: Option<string>) { key.Some? && "payment:" <= key.value }

  predicate IsReversalKey(key: Option<string>) { key.Some? && "reversal:" <= key.value }

  /** Ledger rows that grant, and that reverse, a purchase: their key space and reason identify them. */
  function GrantsFor(pid: string): Entry -> bool {
    (e: Entry) => IsPaymentKey(e.key) && e.reason == PurchaseReason(pid)
  }

  function ReversalsFor(pid: string): Entry -> bool {
    (e: Entry) => IsReversalKey(e.key) && e.reason == ReversalReason(pid)
  }

  // ---- Runs in which the events of a purchase are processed one at a time ----------------

  /** No other worker has read the purchase that this one is about to read. */
  ghost predicate Alone(s: State, w: nat) {
    forall v :: v in s.workers && v != w && s.workers[v].loaded.Some? && s.workers[v].key in s.events &&
                w in s.workers && s.workers[w].key in s.events ==>
      s.events[s.workers[v].key].purchaseId != s.events[s.workers[w].key].purchaseId
  }

  ghost predicate Admissible(s: State, step: Step) {
    match step
    case Order(_, provider, _, credits, amount) => ':' !in provider && credits <= MAX && amount <= MAX
    case Load(w) => Alone(s, w)
    case Core(st) => !IsPaymentKey(Runs.KeyOf(st)) && !IsReversalKey(Runs.KeyOf(st))
    case _ => true
  }

  ghost predicate AdmissibleRun(s: State, steps: seq<Step>)
    decreases |steps|
  {
    steps == [] || (Admissible(s, steps[0]) && AdmissibleRun(Next(s, steps[0]), steps[1..]))
  }

  // ---- The invariant --------------------------------------------------------------------

  predicate SoundPurchase(p: Purchase) {
    0 < p.credits <= MAX && 0 < p.amount <= MAX && ':' !in p.provider
  }

  /** The reversals of this purchase add up. */
  ghost predicate IsSteady(p: Purchase) { p.amount > 0 && Steady(p.credits, p.amount) }

  /** What the program takes this event to ask for in total. */
  function Asks(p: Purchase, e: Event): int
    requires p.amount > 0
  {
    ComputedTarget(p.credits, p.amount, e.minor)
  }

  /** An applied event is bound to its purchase and, if a reversal, satisfied. */
  ghost predicate Honoured(s: State, k: EventKey) {
    && k in s.events && s.events[k].purchaseId in s.purchases && s.events[k].paymentId != ""
    && var p := s.purchases[s.events[k].purchaseId];
       && p.provider == k.0 && p.paymentId == s.events[k].paymentId
       && p.amount > 0
       && (s.events[k].kind != Paid && IsSteady(p) ==> Asks(p, s.events[k]) <= p.reversed)
  }

  /** This row is the grant of purchase `pid`. */
  ghost predicate GrantOf(s: State, e: Entry, pid: string) {
    && pid in s.purchases && pid in s.paid && s.purchases[pid].paymentId != ""
    && e.key == Some(PaymentKey(s.purchases[pid].provider, s.purchases[pid].paymentId))
    && e.reason == PurchaseReason(pid)
    && e.user == s.purchases[pid].user && e.amount == s.purchases[pid].credits && e.kind == KGrant
  }

  /** This row is the reversal written by event `k`. */
  ghost predicate ReversalBy(s: State, e: Entry, k: EventKey) {
    && k in s.applied && k in s.events && e.key == Some(ReversalKey(k))
    && e.reason == ReversalReason(s.events[k].purchaseId)
    && s.events[k].purchaseId in s.purchases && e.user == s.purchases[s.events[k].purchaseId].user
    && e.amount < 0 && e.kind == KRefund
  }

  /** Rows in the payment key spaces come from payments. */
  ghost predicate Attributed(s: State, e: Entry) {
    && (IsPaymentKey(e.key) ==> exists pid :: GrantOf(s, e, pid))
    && (IsReversalKey(e.key) ==> exists k :: ReversalBy(s, e, k))
  }

  /** Some applied reversal of the purchase asked for exactly what is reversed. */
  ghost predicate Attained(s: State, pid: string)
    requires pid in s.purchases && s.purchases[pid].amount > 0
  {
    exists k :: k in s.applied && k in s.events && s.events[k].purchaseId == pid && s.events[k].kind != Paid &&
                Asks(s.purchases[pid], s.events[k]) == s.purchases[pid].reversed
  }

  /** The ledger agrees with the purchase row. */
  ghost predicate Reckoned(s: State, pid: string)
    requires pid in s.purchases
  {
    var p, l := s.purchases[pid], s.sys.db.ledger;
    && SoundPurchase(p)
    && Total(l, GrantsFor(pid)) == (if pid in s.paid then p.credits else 0)
    && (pid in s.paid ==> KeyUsed(l, PaymentKey(p.provider, p.paymentId)) && p.paymentId != "")
    && (IsSteady(p) ==>
          && 0 <= p.reversed <= p.credits && Total(l, ReversalsFor(pid)) == -p.reversed
          && (p.reversed != 0 ==> Attained(s, pid)))
  }

  ghost predicate UniquePayments(purchases: map<string, Purchase>) {
    forall p, q ::
      (p in purchases && q in purchases && purchases[p].provider == purchases[q].provider &&
       purchases[p].paymentId == purchases[q].paymentId != "") ==> p == q
  }

  ghost predicate Books(s: State) {
    && UniquePayments(s.purchases)
    && s.paid <= s.purchases.Keys
    && (forall k :: k in s.events ==> s.events[k].paymentId != "")
    && (forall pid :: pid in s.purchases ==> Reckoned(s, pid))
    && (forall k :: k in s.applied ==> Honoured(s, k))
    && (forall i :: 0 <= i < |s.sys.db.ledger| ==> Attributed(s, s.sys.db.ledger[i]))
  }

  /** A worker's copy of the purchase is current, and no other worker has one. */
  ghost predicate Current(s: State) {
    && (forall w :: w in s.workers ==> s.workers[w].key in s.events)
    && (forall w :: w in s.workers && s.workers[w].loaded.Some? ==>
          var k := s.workers[w].key;
          var e := s.events[k];
          e.purchaseId in s.purchases && s.workers[w].loaded.value == s.purchases[e.purchaseId] &&
          Identified(s.purchases[e.purchaseId], k, e))
    && (forall v, w ::
          (v in s.workers && w in s.workers && s.workers[v].loaded.Some? && s.workers[w].loaded.Some? &&
           s.events[s.workers[v].key].purchaseId == s.events[s.workers[w].key].purchaseId) ==> v == w)
  }

  ghost predicate PayInv(s: State) { Runs.SysInv(s.sys) && Books(s) && Current(s) }

  // ---- Key spaces -----------------------------------------------------------------------

  lemma KeySpaces(provider: string, paymentId: string, k: EventKey)
    ensures IsPaymentKey(Some(PaymentKey(provider, paymentId))) && !IsReversalKey(Some(PaymentKey(provider, paymentId)))
    ensures IsReversalKey(Some(ReversalKey(k))) && !IsPaymentKey(Some(ReversalKey(k)))
  {
    KeyShape("payment:", provider, paymentId);
    KeyShape("reversal:", k.0, k.1);
    PrefixesDiffer("payment:", "reversal:", provider, k.0 + [':'] + k.1, 0);
    PrefixesDiffer("reversal:", "payment:", k.0, provider + [':'] + paymentId, 0);
  }

  lemma ReasonsIdentify(pid: string, q: string)
    ensures PurchaseReason(pid) == PurchaseReason(q) ==> pid == q
    ensures ReversalReason(pid) == ReversalReason(q) ==> pid == q
  {
    if PurchaseReason(pid) == PurchaseReason(q) {
      CancelPrefix("purchase ", pid, q);
    }
    if ReversalReason(pid) == ReversalReason(q) {
      CancelPrefix("reversal ", pid, q);
    }
  }

  // ---- Steps that write no payment row --------------------------------------------------

  /** Event columns that processing never changes. */
  ghost predicate SameContent(e: Event, e': Event) {
    e.purchaseId == e'.purchaseId && e.paymentId == e'.paymentId && e.kind == e'.kind && e.minor == e'.minor
  }

  /** `s'` has the purchases, the payment rows and the history of `s`, and at least its events. */
  ghost predicate Extends(s: State, s': State) {
    && s'.purchases == s.purchases && s'.applied == s.applied && s'.paid == s.paid
    && (forall k :: k in s.events ==> k in s'.events && SameContent(s.events[k], s'.events[k]))
    && (forall k :: k in s'.events ==> s'.events[k].paymentId != "")
  }

  lemma AttributedExtends(s: State, s': State, e: Entry)
    requires Extends(s, s') && Attributed(s, e)
    ensures Attributed(s', e)
  {
    if IsPaymentKey(e.key) {
      var pid :| GrantOf(s, e, pid);
      assert GrantOf(s', e, pid);
    }
    if IsReversalKey(e.key) {
      var k :| ReversalBy(s, e, k);
      assert ReversalBy(s', e, k);
    }
  }

  lemma ReckonedExtends(s: State, s': State, pid: string)
    requires Extends(s, s') && pid in s.purchases && Reckoned(s, pid)
    requires s'.sys.db.ledger == s.sys.db.ledger
    ensures Reckoned(s', pid)
  {
    if IsSteady(s.purchases[pid]) && s.purchases[pid].reversed != 0 {
      var k :| k in s.applied && k in s.events && s.events[k].purchaseId == pid && s.events[k].kind != Paid &&
               Asks(s.purchases[pid], s.events[k]) == s.purchases[pid].reversed;
      assert Attained(s', pid);
    }
  }

  lemma BooksExtend(s: State, s': State)
    requires Books(s) && Extends(s, s') && s'.sys.db.ledger == s.sys.db.ledger
    ensures Books(s')
  {
    forall pid | pid in s.purchases ensures Reckoned(s', pid) {
      ReckonedExtends(s, s', pid);
    }
    forall i | 0 <= i < |s.sys.db.ledger| ensures Attributed(s', s'.sys.db.ledger[i]) {
      AttributedExtends(s, s', s.sys.db.ledger[i]);
    }
    forall k | k in s'.applied ensures Honoured(s', k) {
      assert Honoured(s, k);
    }
  }

  /** A row outside the payment key spaces changes no purchase. */
  lemma BooksForeignRow(s: State, s': State, e: Entry)
    requires Books(s) && s' == s.(sys := s'.sys) && s'.sys.db.ledger == s.sys.db.ledger + [e]
    requires !IsPaymentKey(e.key) && !IsReversalKey(e.key)
    ensures Books(s')
  {
    var l := s.sys.db.ledger;
    forall pid | pid in s.purchases ensures Reckoned(s', pid) {
      assert Reckoned(s, pid);
      TotalAppend(l, e, GrantsFor(pid));
      TotalAppend(l, e, ReversalsFor(pid));
      KeyStays(l, e, PaymentKey(s.purchases[pid].provider, s.purchases[pid].paymentId));
    }
    forall i | 0 <= i < |l + [e]| ensures Attributed(s', (l + [e])[i]) {
      if i < |l| {
        AttributedExtends(s, s', l[i]);
      }
    }
    forall k | k in s'.applied ensures Honoured(s', k) {
      assert Honoured(s, k);
    }
  }

  lemma KeyStays(l: seq<Entry>, e: Entry, key: string)
    ensures KeyUsed(l, key) ==> KeyUsed(l + [e], key)
  {
    if KeyUsed(l, key) {
      var i :| 0 <= i < |l| && l[i].key == Some(key);
      assert (l + [e])[i].key == Some(key);
    }
  }

  // ---- A new purchase -------------------------------------------------------------------

  lemma OrderAttributed(s: State, s': State, pid: string, p: Purchase, e: Entry)
    requires pid !in s.purchases && s' == s.(purchases := s.purchases[pid := p])
    requires Attributed(s, e) && forall k :: k in s.applied ==> Honoured(s, k)
    ensures Attributed(s', e) && !GrantsFor(pid)(e) && !ReversalsFor(pid)(e)
  {
    if IsPaymentKey(e.key) {
      var q :| GrantOf(s, e, q);
      assert GrantOf(s', e, q);
      ReasonsIdentify(pid, q);
    }
    if IsReversalKey(e.key) {
      var k :| ReversalBy(s, e, k);
      assert ReversalBy(s', e, k) && Honoured(s, k);
      ReasonsIdentify(pid, s.events[k].purchaseId);
    }
  }

  lemma BooksOrder(s: State, s': State, pid: string, p: Purchase)
    requires Books(s) && pid !in s.purchases && s' == s.(purchases := s.purchases[pid := p])
    requires SoundPurchase(p) && p.paymentId == "" && p.reversed == 0
    ensures Books(s')
  {
    var l := s.sys.db.ledger;
    forall i | 0 <= i < |l| ensures Attributed(s', l[i]) && !GrantsFor(pid)(l[i]) && !ReversalsFor(pid)(l[i]) {
      OrderAttributed(s, s', pid, p, l[i]);
    }
    TotalOfNone(l, GrantsFor(pid));
    TotalOfNone(l, ReversalsFor(pid));
    forall q | q in s'.purchases ensures Reckoned(s', q) {
      if q != pid {
        assert Reckoned(s, q);
        assert IsSteady(s.purchases[q]) && s.purchases[q].reversed != 0 ==> Attained(s, q) && Attained(s', q);
      }
    }
    forall k | k in s'.applied ensures Honoured(s', k) {
      assert Honoured(s, k);
    }
  }

  // ---- Applying an event ----------------------------------------------------------------

  /** How a transaction on purchase `pid` by event `k` leaves the books. */
  ghost predicate Transacts(s: State, s': State, k: EventKey, p': Purchase) {
    && k in s.events && s.events[k].purchaseId in s.purchases
    && var pid := s.events[k].purchaseId;
       var e, p := s.events[k], s.purchases[pid];
       && s'.purchases == s.purchases[pid := p']
       && (forall l :: l in s.events ==> l in s'.events && SameContent(s.events[l], s'.events[l]))
       && (forall l :: l in s'.events ==> s'.events[l].paymentId != "")
       && s'.applied == s.applied + {k}
       && s'.paid == (if e.kind == Paid then s.paid + {pid} else s.paid)
       && p' == p.(paymentId := e.paymentId, status := p'.status, reversed := p'.reversed)
       && SoundPurchase(p') && Identified(p, k, e) && Bindable(s.purchases, pid, e.paymentId)
       && (e.kind == Paid ==> p'.reversed == p.reversed)
       && (IsSteady(p) ==>
             && p.reversed <= p'.reversed <= p.credits
             && (e.kind != Paid ==> p'.reversed == Max(p.reversed, Asks(p, e))))
  }

  lemma TransactsUnique(s: State, s': State, k: EventKey, p': Purchase)
    requires Books(s) && Transacts(s, s', k, p')
    ensures UniquePayments(s'.purchases)
  {
    var pid := s.events[k].purchaseId;
    assert forall q :: q in s.purchases && q != pid && s.purchases[q].provider == p'.provider ==>
             s.purchases[q].paymentId != p'.paymentId;
  }

  lemma TransactsHonours(s: State, s': State, k: EventKey, p': Purchase)
    requires Books(s) && Transacts(s, s', k, p')
    ensures forall l :: l in s'.applied ==> Honoured(s', l)
  {
    forall l | l in s'.applied ensures Honoured(s', l) {
      if l != k {
        assert Honoured(s, l);
      }
    }
  }

  lemma TransactsGrant(s: State, s': State, k: EventKey, p': Purchase, e: Entry, q: string)
    requires Books(s) && Transacts(s, s', k, p') && GrantOf(s, e, q)
    ensures GrantOf(s', e, q)
  {
  }

  lemma TransactsReversal(s: State, s': State, k: EventKey, p': Purchase, e: Entry, l: EventKey)
    requires Transacts(s, s', k, p') && ReversalBy(s, e, l)
    ensures ReversalBy(s', e, l)
  {
  }

  lemma TransactsAttributed(s: State, s': State, k: EventKey, p': Purchase, e: Entry)
    requires Books(s) && Transacts(s, s', k, p') && Attributed(s, e)
    ensures Attributed(s', e)
  {
    if IsPaymentKey(e.key) {
      var q :| GrantOf(s, e, q);
      TransactsGrant(s, s', k, p', e, q);
    }
    if IsReversalKey(e.key) {
      var l :| ReversalBy(s, e, l);
      TransactsReversal(s, s', k, p', e, l);
    }
  }

  /** The purchase still has, or now gets, an event that asked for what is reversed. */
  lemma TransactsAttains(s: State, s': State, k: EventKey, p': Purchase, q: string)
    requires Books(s) && Transacts(s, s', k, p') && q in s.purchases
    requires IsSteady(s.purchases[q]) && s'.purchases[q].reversed != 0
    ensures s'.purchases[q].amount > 0 && Attained(s', q)
  {
    assert Reckoned(s, q);
    var pid := s.events[k].purchaseId;
    if q == pid && p'.reversed != s.purchases[pid].reversed {
      assert s'.events[k].purchaseId == q && Asks(p', s'.events[k]) == p'.reversed;
    } else {
      var l :| l in s.applied && l in s.events && s.events[l].purchaseId == q && s.events[l].kind != Paid &&
               Asks(s.purchases[q], s.events[l]) == s.purchases[q].reversed;
      assert l in s'.applied && s'.events[l].purchaseId == q;
    }
  }

  lemma WithoutRowReckoned(s: State, s': State, k: EventKey, p': Purchase, q: string)
    requires Books(s) && Transacts(s, s', k, p') && s'.sys.db.ledger == s.sys.db.ledger && q in s.purchases
    requires var p := s.purchases[s.events[k].purchaseId];
             IsSteady(p) ==> p'.reversed == p.reversed
    requires s.events[k].kind == Paid ==> s.events[k].purchaseId in s.paid
    ensures Reckoned(s', q)
  {
    assert Reckoned(s, q);
    if IsSteady(s.purchases[q]) && s'.purchases[q].reversed != 0 {
      TransactsAttains(s, s', k, p', q);
    }
  }

  /** A transaction whose row is already in the ledger, or that needs none. */
  lemma BooksWithoutRow(s: State, s': State, k: EventKey, p': Purchase)
    requires Books(s) && Transacts(s, s', k, p') && s'.sys.db.ledger == s.sys.db.ledger
    requires var p := s.purchases[s.events[k].purchaseId];
             IsSteady(p) ==> p'.reversed == p.reversed
    requires s.events[k].kind == Paid ==> s.events[k].purchaseId in s.paid
    ensures Books(s')
  {
    TransactsUnique(s, s', k, p');
    TransactsHonours(s, s', k, p');
    forall i | 0 <= i < |s.sys.db.ledger| ensures Attributed(s', s'.sys.db.ledger[i]) {
      TransactsAttributed(s, s', k, p', s.sys.db.ledger[i]);
    }
    forall q | q in s'.purchases ensures Reckoned(s', q) {
      WithoutRowReckoned(s, s', k, p', q);
    }
  }

  /** The totals of every purchase after a row for `pid` is appended. */
  lemma TotalsWithRow(l: seq<Entry>, e: Entry, pid: string, q: string)
    requires (IsPaymentKey(e.key) && !IsReversalKey(e.key) && e.reason == PurchaseReason(pid)) ||
             (IsReversalKey(e.key) && !IsPaymentKey(e.key) && e.reason == ReversalReason(pid))
    ensures Total(l + [e], GrantsFor(q))
         == Total(l, GrantsFor(q)) + if q == pid && IsPaymentKey(e.key) then e.amount else 0
    ensures Total(l + [e], ReversalsFor(q))
         == Total(l, ReversalsFor(q)) + if q == pid && IsReversalKey(e.key) then e.amount else 0
  {
    TotalAppend(l, e, GrantsFor(q));
    TotalAppend(l, e, ReversalsFor(q));
    ReasonsIdentify(pid, q);
  }

  /** The row a transaction writes: the first grant, or a reversal of what is missing. */
  ghost predicate Writes(s: State, k: EventKey, p': Purchase, e: Entry)
    requires k in s.events && s.events[k].purchaseId in s.purchases
  {
    var ev, pid := s.events[k], s.events[k].purchaseId;
    if ev.kind == Paid then
      && pid !in s.paid && e.key == Some(PaymentKey(k.0, ev.paymentId)) && e.reason == PurchaseReason(pid)
      && e.amount == s.purchases[pid].credits && e.user == s.purchases[pid].user && e.kind == KGrant
    else
      && e.key == Some(ReversalKey(k)) && e.reason == ReversalReason(pid)
      && e.amount < 0 && e.user == s.purchases[pid].user && e.kind == KRefund
      && (IsSteady(s.purchases[pid]) ==> e.amount == s.purchases[pid].reversed - p'.reversed)
  }

  lemma RowAttributed(s: State, s': State, k: EventKey, p': Purchase, e: Entry)
    requires Books(s) && Transacts(s, s', k, p') && Writes(s, k, p', e)
    ensures Attributed(s', e)
  {
    KeySpaces(k.0, s.events[k].paymentId, k);
    if s.events[k].kind == Paid {
      assert GrantOf(s', e, s.events[k].purchaseId);
    } else {
      assert ReversalBy(s', e, k);
    }
  }

  lemma RowTotals(s: State, s': State, k: EventKey, p': Purchase, e: Entry, q: string)
    requires Books(s) && Transacts(s, s', k, p') && Writes(s, k, p', e) && q in s.purchases
    ensures Total(s.sys.db.ledger + [e], GrantsFor(q)) == (if q in s'.paid then s'.purchases[q].credits else 0)
    ensures IsSteady(s.purchases[q]) ==> Total(s.sys.db.ledger + [e], ReversalsFor(q)) == -s'.purchases[q].reversed
  {
    assert Reckoned(s, q);
    KeySpaces(k.0, s.events[k].paymentId, k);
    TotalsWithRow(s.sys.db.ledger, e, s.events[k].purchaseId, q);
  }

  lemma RowKeyUsed(s: State, s': State, k: EventKey, p': Purchase, e: Entry, q: string)
    requires Books(s) && Transacts(s, s', k, p') && Writes(s, k, p', e) && q in s.purchases && q in s'.paid
    ensures KeyUsed(s.sys.db.ledger + [e], PaymentKey(s'.purchases[q].provider, s'.purchases[q].paymentId))
  {
    var l := s.sys.db.ledger;
    assert Reckoned(s, q);
    assert (l + [e])[|l|] == e;
    if q in s.paid {
      KeyStays(l, e, PaymentKey(s.purchases[q].provider, s.purchases[q].paymentId));
    }
  }

  lemma RowReckoned(s: State, s': State, k: EventKey, p': Purchase, e: Entry, q: string)
    requires Books(s) && Transacts(s, s', k, p') && Writes(s, k, p', e) && q in s.purchases
    requires s'.sys.db.ledger == s.sys.db.ledger + [e]
    ensures Reckoned(s', q)
  {
    assert Reckoned(s, q);
    RowTotals(s, s', k, p', e, q);
    if q in s'.paid {
      RowKeyUsed(s, s', k, p', e, q);
    }
    if IsSteady(s.purchases[q]) && s'.purchases[q].reversed != 0 {
      TransactsAttains(s, s', k, p', q);
    }
  }

  lemma BooksWithRow(s: State, s': State, k: EventKey, p': Purchase, e: Entry)
    requires Books(s) && Transacts(s, s', k, p') && Writes(s, k, p', e)
    requires s'.sys.db.ledger == s.sys.db.ledger + [e]
    ensures Books(s')
  {
    var l := s.sys.db.ledger;
    TransactsUnique(s, s', k, p');
    TransactsHonours(s, s', k, p');
    RowAttributed(s, s', k, p', e);
    forall i | 0 <= i < |l + [e]| ensures Attributed(s', (l + [e])[i]) {
      if i < |l| {
        TransactsAttributed(s, s', k, p', l[i]);
      }
    }
    forall q | q in s'.purchases ensures Reckoned(s', q) {
      RowReckoned(s, s', k, p', e, q);
    }
  }

  /** A used payment key, for a purchase that may be bound to the payment, is that purchase's own grant. */
  lemma UsedPaymentKeyIsOwn(s: State, k: EventKey, pid: string)
    requires Books(s) && k in s.events && pid == s.events[k].purchaseId && pid in s.purchases
    requires Identified(s.purchases[pid], k, s.events[k]) && Bindable(s.purchases, pid, s.events[k].paymentId)
    requires KeyUsed(s.sys.db.ledger, PaymentKey(k.0, s.events[k].paymentId))
    ensures pid in s.paid
  {
    var i :| 0 <= i < |s.sys.db.ledger| && s.sys.db.ledger[i].key == Some(PaymentKey(k.0, s.events[k].paymentId));
    var e := s.sys.db.ledger[i];
    KeySpaces(k.0, s.events[k].paymentId, k);
    assert Attributed(s, e);
    var q :| GrantOf(s, e, q);
    assert Reckoned(s, q) && Reckoned(s, pid);
    PaymentKeyInjective(k.0, s.events[k].paymentId, s.purchases[q].provider, s.purchases[q].paymentId);
  }

  /** A used reversal key means the event was applied before, so nothing is missing. */
  lemma UsedReversalKeyIsDone(s: State, k: EventKey, pid: string)
    requires Books(s) && k in s.events && pid == s.events[k].purchaseId && pid in s.purchases
    requires s.purchases[pid].provider == k.0 && s.purchases[pid].amount > 0 && s.events[k].kind != Paid
    requires KeyUsed(s.sys.db.ledger, ReversalKey(k))
    ensures IsSteady(s.purchases[pid]) ==> Asks(s.purchases[pid], s.events[k]) <= s.purchases[pid].reversed
  {
    var i :| 0 <= i < |s.sys.db.ledger| && s.sys.db.ledger[i].key == Some(ReversalKey(k));
    var e := s.sys.db.ledger[i];
    KeySpaces(k.0, s.events[k].paymentId, k);
    assert Attributed(s, e);
    var l :| ReversalBy(s, e, l);
    assert Honoured(s, l) && Reckoned(s, pid) && Reckoned(s, s.events[l].purchaseId);
    ReversalKeyInjective(k, l);
    assert Honoured(s, k);
  }

  /** For a steady purchase neither subtraction nor addition wraps. */
  lemma MissingIsExact(p: Purchase, e: Event)
    requires SoundPurchase(p) && IsSteady(p) && 0 <= p.reversed <= p.credits
    ensures Missing(p, e) == Asks(p, e) - p.reversed
    ensures Asks(p, e) <= p.credits && NewReversed(p, e) == Max(p.reversed, Asks(p, e))
  {
    ComputedAtMost(p.credits, p.amount, e.minor);
    assert ComputedTarget(p.credits, p.amount, e.minor) >= p.credits + MIN;
  }

  /** What applying event `k` to the current row of its purchase amounts to. */
  lemma WritesTransact(s: State, s': State, k: EventKey, p: Purchase)
    requires Books(s) && k in s.events && s.events[k].purchaseId in s.purchases &&
             p == s.purchases[s.events[k].purchaseId]
    requires p.amount > 0 && Identified(p, k, s.events[k]) &&
             Bindable(s.purchases, s.events[k].purchaseId, s.events[k].paymentId)
    requires s'.purchases == s.purchases[s.events[k].purchaseId := Settled(p, s.events[k], p)]
    requires s'.events == s.events[k := s.events[k].(progress := Applied, lease := 0)]
    requires s'.applied == s.applied + {k}
    requires s'.paid == if s.events[k].kind == Paid then s.paid + {s.events[k].purchaseId} else s.paid
    ensures Transacts(s, s', k, Settled(p, s.events[k], p))
  {
    assert Reckoned(s, s.events[k].purchaseId);
    if IsSteady(p) {
      MissingIsExact(p, s.events[k]);
    }
  }

  lemma ApplyTransacts(s: State, w: nat, lid: string)
    requires PayInv(s) && Ready(s, w, lid)
    ensures var k, p := s.workers[w].key, s.workers[w].loaded.value;
            && s.events[k].purchaseId in s.purchases && p == s.purchases[s.events[k].purchaseId]
            && Transacts(s, Next(s, Apply(w, lid)), k, Settled(p, s.events[k], p))
  {
    ApplyWrites(s, w, lid);
    WritesTransact(s, Next(s, Apply(w, lid)), s.workers[w].key, s.workers[w].loaded.value);
  }

  lemma PaidBooks(s: State, s': State, k: EventKey, p: Purchase, lid: string)
    requires Books(s) && k in s.events && s.events[k].kind == Paid && s.events[k].purchaseId in s.purchases
    requires p.amount > 0 && p == s.purchases[s.events[k].purchaseId] && Transacts(s, s', k, Settled(p, s.events[k], p))
    requires var l, e, key := s.sys.db.ledger, s.events[k], PaymentKey(k.0, s.events[k].paymentId);
             s'.sys.db.ledger == if KeyUsed(l, key) then l
                                 else l + [GrantEntry(lid, p.user, p.credits, k.0, PurchaseReason(e.purchaseId), key)]
    ensures Books(s')
  {
    var e := s.events[k];
    var key := PaymentKey(k.0, e.paymentId);
    assert Reckoned(s, e.purchaseId);
    if KeyUsed(s.sys.db.ledger, key) {
      UsedPaymentKeyIsOwn(s, k, e.purchaseId);
      BooksWithoutRow(s, s', k, Settled(p, e, p));
    } else {
      BooksWithRow(s, s', k, Settled(p, e, p),
                   GrantEntry(lid, p.user, p.credits, k.0, PurchaseReason(e.purchaseId), key));
    }
  }

  lemma ReversalBooks(s: State, s': State, k: EventKey, p: Purchase, lid: string)
    requires Books(s) && k in s.events && s.events[k].kind != Paid && s.events[k].purchaseId in s.purchases
    requires p.amount > 0 && p == s.purchases[s.events[k].purchaseId] && Transacts(s, s', k, Settled(p, s.events[k], p))
    requires var l, e, key := s.sys.db.ledger, s.events[k], ReversalKey(k);
             s'.sys.db.ledger == if Missing(p, e) <= 0 || KeyUsed(l, key) then l
                                 else l + [RefundEntry(lid, p.user, Missing(p, e), k.0, ReversalReason(e.purchaseId),
                                                       key)]
    ensures Books(s')
  {
    var e := s.events[k];
    assert Reckoned(s, e.purchaseId);
    if IsSteady(p) {
      MissingIsExact(p, e);
    }
    if KeyUsed(s.sys.db.ledger, ReversalKey(k)) {
      UsedReversalKeyIsDone(s, k, e.purchaseId);
    }
    if Missing(p, e) > 0 && !KeyUsed(s.sys.db.ledger, ReversalKey(k)) {
      BooksWithRow(s, s', k, Settled(p, e, p),
                   RefundEntry(lid, p.user, Missing(p, e), k.0, ReversalReason(e.purchaseId), ReversalKey(k)));
    } else {
      BooksWithoutRow(s, s', k, Settled(p, e, p));
    }
  }

  lemma ApplyBooks(s: State, w: nat, lid: string)
    requires PayInv(s) && Ready(s, w, lid)
    ensures Books(Next(s, Apply(w, lid)))
  {
    ApplyTransacts(s, w, lid);
    ApplyLedgerRow(s, w, lid);
    var s', k, p := Next(s, Apply(w, lid)), s.workers[w].key, s.workers[w].loaded.value;
    if s.events[k].kind == Paid {
      PaidBooks(s, s', k, p, lid);
    } else {
      ReversalBooks(s, s', k, p, lid);
    }
  }

  /** Finishing leaves no other worker with a copy of the purchase that changed. */
  lemma CurrentFinish(s: State, s': State, w: nat)
    requires Current(s) && w in s.workers && s.workers[w].loaded.Some? && s'.workers == s.workers - {w}
    requires forall k :: k in s.events ==> k in s'.events && SameContent(s.events[k], s'.events[k])
    requires forall q :: q in s.purchases && q != s.events[s.workers[w].key].purchaseId ==>
               q in s'.purchases && s'.purchases[q] == s.purchases[q]
    ensures Current(s')
  {
    forall v | v in s'.workers && s'.workers[v].loaded.Some?
      ensures s.events[s.workers[v].key].purchaseId != s.events[s.workers[w].key].purchaseId
    {
      assert v in s.workers && v != w;
    }
  }

  /** A step that applies nothing and reads no purchase. */
  ghost predicate Quiet(s: State, s': State) {
    && s'.paid == s.paid
    && (forall w :: w in s'.workers ==> s'.workers[w].key in s'.events)
    && (forall w :: w in s'.workers && s'.workers[w].loaded.Some? ==>
          w in s.workers && s'.workers[w].key == s.workers[w].key && s'.workers[w].loaded == s.workers[w].loaded)
    && (forall k :: k in s.events ==> k in s'.events && SameContent(s.events[k], s'.events[k]))
    && (forall q :: q in s.purchases ==> q in s'.purchases && s'.purchases[q] == s.purchases[q])
  }

  /** Receipt, claim, lease expiry and failure change the progress of events. */
  lemma QueueStepQuiet(s: State, step: Step)
    requires step.Receipt? || step.Take? || step.LeaseSweep? || step.Fault?
    requires forall w :: w in s.workers ==> s.workers[w].key in s.events
    ensures Quiet(s, Next(s, step))
  {
  }

  lemma OutsideStepQuiet(s: State, step: Step)
    requires step.Order? || step.Tick? || step.Crash? || step.Core?
    requires forall w :: w in s.workers ==> s.workers[w].key in s.events
    ensures Quiet(s, Next(s, step))
  {
  }

  lemma StepQuiet(s: State, step: Step)
    requires !step.Apply? && !step.Load? && forall w :: w in s.workers ==> s.workers[w].key in s.events
    ensures Quiet(s, Next(s, step))
  {
    if step.Order? || step.Tick? || step.Crash? || step.Core? {
      OutsideStepQuiet(s, step);
    } else {
      QueueStepQuiet(s, step);
    }
  }

  /** Workers that have not read a purchase, or whose purchase is untouched, stay current. */
  lemma CurrentQuiet(s: State, s': State)
    requires Current(s) && Quiet(s, s')
    ensures Current(s')
  {
  }

  lemma CurrentLoad(s: State, w: nat)
    requires Current(s) && Alone(s, w)
    ensures Current(Next(s, Load(w)))
  {
  }

  // ---- Every step -----------------------------------------------------------------------

  /** Receipts, claims, leases and failures touch only the progress of events. */
  lemma StepExtends(s: State, step: Step)
    requires !step.Order? && !step.Apply? && !step.Core?
    requires forall k :: k in s.events ==> s.events[k].paymentId != ""
    ensures Extends(s, Next(s, step)) && Next(s, step).sys == s.sys
  {
  }

  lemma StepBooks(s: State, step: Step)
    requires PayInv(s) && Admissible(s, step)
    ensures Books(Next(s, step))
  {
    var s' := Next(s, step);
    match step
    case Order(id, provider, user, credits, amount) =>
      if s'.purchases != s.purchases {
        BooksOrder(s, s', id, s'.purchases[id]);
      }
    case Apply(w, lid) =>
      if Ready(s, w, lid) {
        ApplyBooks(s, w, lid);
      }
    case Core(st) =>
      Runs.StepAppends(s.sys, st);
      if s'.sys.db.ledger == s.sys.db.ledger {
        BooksExtend(s, s');
      } else {
        BooksForeignRow(s, s', s'.sys.db.ledger[|s'.sys.db.ledger| - 1]);
      }
    case _ =>
      StepExtends(s, step);
      BooksExtend(s, s');
  }

  lemma ApplyCurrent(s: State, w: nat, lid: string)
    requires Current(s)
    ensures Current(Next(s, Apply(w, lid)))
  {
    if Ready(s, w, lid) {
      ApplyWrites(s, w, lid);
      CurrentFinish(s, Next(s, Apply(w, lid)), w);
    }
  }

  lemma StepCurrent(s: State, step: Step)
    requires PayInv(s) && Admissible(s, step)
    ensures Current(Next(s, step))
  {
    if step.Apply? {
      ApplyCurrent(s, step.worker, step.lid);
    } else if step.Load? {
      CurrentLoad(s, step.worker);
    } else {
      StepQuiet(s, step);
      CurrentQuiet(s, Next(s, step));
    }
  }

  lemma {:induction false} RunKeeps(s: State, steps: seq<Step>)
    requires PayInv(s) && AdmissibleRun(s, steps)
    ensures PayInv(Run(s, steps))
    decreases |steps|
  {
    if steps != [] {
      StepKeepsCredits(s, steps[0]);
      StepBooks(s, steps[0]);
      StepCurrent(s, steps[0]);
      RunKeeps(Next(s, steps[0]), steps[1..]);
    }
  }

  // ---- Main results ---------------------------------------------------------------------

  /**
   With the events of a purchase processed one at a time, under any crashes, retries,
   stale workers and redelivery, and with any number of purchases naming the same payment:
   what was granted for a purchase is its credits if one of its payments was applied, else
   0, for every purchase; and what was taken back is its reversed credits, between 0 and its
   credits, for every steady one.
   */
  lemma NetEffect(steps: seq<Step>, pid: string)
    requires AdmissibleRun(START, steps) && pid in Run(START, steps).purchases
    ensures var s := Run(START, steps);
            var p := s.purchases[pid];
            && Total(s.sys.db.ledger, GrantsFor(pid)) == (if pid in s.paid then p.credits else 0)
            && (IsSteady(p) ==>
                  Total(s.sys.db.ledger, ReversalsFor(pid)) == -p.reversed && 0 <= p.reversed <= p.credits)
  {
    EmptyInv();
    RunKeeps(START, steps);
    assert Reckoned(Run(START, steps), pid);
  }

  /**
   Every row that grants or reverses a purchase belongs to the user who bought it: a grant is
   of exactly its credits, a reversal takes something back.
   */
  lemma RowsBelongToBuyer(steps: seq<Step>, i: nat, pid: string)
    requires AdmissibleRun(START, steps) && i < |Run(START, steps).sys.db.ledger|
    ensures var s := Run(START, steps);
            var e := s.sys.db.ledger[i];
            && (GrantsFor(pid)(e) ==>
                  pid in s.purchases && e.user == s.purchases[pid].user && e.amount == s.purchases[pid].credits &&
                    e.kind == KGrant)
            && (ReversalsFor(pid)(e) ==>
                  pid in s.purchases && e.user == s.purchases[pid].user && e.amount < 0 && e.kind == KRefund)
  {
    EmptyInv();
    RunKeeps(START, steps);
    var s := Run(START, steps);
    var e := s.sys.db.ledger[i];
    assert Attributed(s, e);
    if GrantsFor(pid)(e) {
      var q :| GrantOf(s, e, q);
      ReasonsIdentify(pid, q);
    }
    if ReversalsFor(pid)(e) {
      var k :| ReversalBy(s, e, k);
      ReasonsIdentify(pid, s.events[k].purchaseId);
    }
  }

  /** The event is an applied reversal of the purchase. */
  ghost predicate Reverses(s: State, k: EventKey, pid: string) {
    k in s.applied && k in s.events && s.events[k].purchaseId == pid && s.events[k].kind != Paid
  }

  /**
   The reversed credits of a steady purchase are the largest total that an applied reversal
   of it asks for by the program's reckoning, whatever the order and however often each was
   applied, and 0 if none was.
   */
  lemma ReversedIsComputedMaximum(steps: seq<Step>, pid: string)
    requires AdmissibleRun(START, steps) && pid in Run(START, steps).purchases &&
             IsSteady(Run(START, steps).purchases[pid])
    ensures var s := Run(START, steps);
            var p := s.purchases[pid];
            && SoundPurchase(p)
            && (forall k :: Reverses(s, k, pid) ==>
                ComputedTarget(p.credits, p.amount, s.events[k].minor) <= p.reversed)
            && (p.reversed != 0 ==>
                  exists k :: Reverses(s, k, pid) &&
                    ComputedTarget(p.credits, p.amount, s.events[k].minor) == p.reversed)
  {
    EmptyInv();
    RunKeeps(START, steps);
    var s := Run(START, steps);
    var p := s.purchases[pid];
    assert Reckoned(s, pid);
    forall k | Reverses(s, k, pid) ensures ComputedTarget(p.credits, p.amount, s.events[k].minor) <= p.reversed {
      assert Honoured(s, k);
    }
    if p.reversed != 0 {
      var k :| k in s.applied && k in s.events && s.events[k].purchaseId == pid && s.events[k].kind != Paid &&
               Asks(p, s.events[k]) == p.reversed;
      assert Reverses(s, k, pid);
    }
  }

  /**
   For a purchase whose reversals cannot wrap, that is the largest exact share: the credits
   in proportion to what was returned, rounded up.
   */
  lemma ReversedIsMaximum(steps: seq<Step>, pid: string)
    requires AdmissibleRun(START, steps) && pid in Run(START, steps).purchases
    requires var p := Run(START, steps).purchases[pid]; Fits(p.credits, p.amount)
    ensures var s := Run(START, steps);
            var p := s.purchases[pid];
            && p.amount > 0
            && (forall k :: Reverses(s, k, pid) ==> Target(p.credits, p.amount, s.events[k].minor) <= p.reversed)
            && (p.reversed != 0 ==>
                  exists k :: Reverses(s, k, pid) && Target(p.credits, p.amount, s.events[k].minor) == p.reversed)
  {
    EmptyInv();
    RunKeeps(START, steps);
    var s := Run(START, steps);
    var p := s.purchases[pid];
    assert Reckoned(s, pid);
    SteadyIfFits(p.credits, p.amount);
    ReversedIsComputedMaximum(steps, pid);
    forall k | Reverses(s, k, pid)
      ensures ComputedTarget(p.credits, p.amount, s.events[k].minor) == Target(p.credits, p.amount, s.events[k].minor)
    {
      FitsIsEnough(p.credits, p.amount, s.events[k].minor);
    }
    if p.reversed != 0 {
      var k :| Reverses(s, k, pid) && ComputedTarget(p.credits, p.amount, s.events[k].minor) == p.reversed;
      assert Target(p.credits, p.amount, s.events[k].minor) == p.reversed;
    }
  }

  /** Some applied reversal of the purchase reports that much as returned. */
  ghost predicate AskedFor(s: State, pid: string, minor: int) {
    exists k :: Reverses(s, k, pid) && s.events[k].minor == minor
  }

  /** Two runs end with equal steady purchases. */
  ghost predicate Comparable(steps: seq<Step>, pid: string, steps': seq<Step>, pid': string) {
    && AdmissibleRun(START, steps) && AdmissibleRun(START, steps')
    && pid in Run(START, steps).purchases && pid' in Run(START, steps').purchases
    && var p, p' := Run(START, steps).purchases[pid], Run(START, steps').purchases[pid'];
       p.credits == p'.credits && p.amount == p'.amount && IsSteady(p)
  }

  lemma ReversesAtMost(steps: seq<Step>, pid: string, steps': seq<Step>, pid': string)
    requires Comparable(steps, pid, steps', pid')
    requires forall minor :: AskedFor(Run(START, steps), pid, minor) ==> AskedFor(Run(START, steps'), pid', minor)
    ensures Run(START, steps).purchases[pid].reversed <= Run(START, steps').purchases[pid'].reversed
  {
    var s, s' := Run(START, steps), Run(START, steps');
    var p := s.purchases[pid];
    ReversedIsComputedMaximum(steps, pid);
    ReversedIsComputedMaximum(steps', pid');
    NetEffect(steps', pid');
    if p.reversed != 0 {
      var k :| Reverses(s, k, pid) && ComputedTarget(p.credits, p.amount, s.events[k].minor) == p.reversed;
      assert AskedFor(s, pid, s.events[k].minor);
      assert AskedFor(s', pid', s.events[k].minor);
    }
  }

  /**
   Order and redelivery do not matter: two runs whose applied reversals of equal steady
   purchases report the same amounts, in any order, any number of times, through any retries
   and crashes, end with the same credits reversed, on the purchase and in the ledger.
   */
  lemma ReversalsConverge(steps: seq<Step>, pid: string, steps': seq<Step>, pid': string)
    requires Comparable(steps, pid, steps', pid')
    requires forall minor :: AskedFor(Run(START, steps), pid, minor) <==> AskedFor(Run(START, steps'), pid', minor)
    ensures var s, s' := Run(START, steps), Run(START, steps');
            && s.purchases[pid].reversed == s'.purchases[pid'].reversed
            && Total(s.sys.db.ledger, ReversalsFor(pid)) == Total(s'.sys.db.ledger, ReversalsFor(pid'))
  {
    ReversesAtMost(steps, pid, steps', pid');
    ReversesAtMost(steps', pid', steps, pid);
    NetEffect(steps, pid);
    NetEffect(steps', pid');
  }

  /** A purchase binds to one payment: every event ever applied to it names the payment it is bound to. */
  lemma BoundToOnePayment(steps: seq<Step>, k: EventKey, l: EventKey)
    requires AdmissibleRun(START, steps)
    requires var s := Run(START, steps);
             k in s.applied && l in s.applied && k in s.events && l in s.events &&
             s.events[k].purchaseId == s.events[l].purchaseId
    ensures var s := Run(START, steps);
            && s.events[k].paymentId == s.events[l].paymentId && k.0 == l.0
            && s.events[k].purchaseId in s.purchases
            && s.purchases[s.events[k].purchaseId].paymentId == s.events[k].paymentId
  {
    EmptyInv();
    RunKeeps(START, steps);
    assert Honoured(Run(START, steps), k) && Honoured(Run(START, steps), l);
  }

  /** Two purchases never both hold a payment: one payment pays for one purchase. */
  lemma OnePurchasePerPayment(steps: seq<Step>, p: string, q: string)
    requires AdmissibleRun(START, steps)
    requires var s := Run(START, steps);
             p in s.purchases && q in s.purchases && s.purchases[p].provider == s.purchases[q].provider &&
             s.purchases[p].paymentId == s.purchases[q].paymentId != ""
    ensures p == q
  {
    EmptyInv();
    RunKeeps(START, steps);
  }

  /** Over a run a purchase keeps its terms and, once bound, its payment; a steady one's reversals never shrink. */
  ghost predicate Grows(s: State, s': State, pid: string) {
    && pid in s.purchases && pid in s'.purchases
    && var p, p' := s.purchases[pid], s'.purchases[pid];
       && p.credits == p'.credits && p.amount == p'.amount && p.provider == p'.provider && p.user == p'.user
       && (p.paymentId != "" ==> p'.paymentId == p.paymentId)
       && (IsSteady(p) ==> p.reversed <= p'.reversed)
       && (pid in s.paid ==> pid in s'.paid)
  }

  lemma ApplyGrows(s: State, w: nat, lid: string, pid: string)
    requires PayInv(s) && Ready(s, w, lid) && pid in s.purchases
    ensures Grows(s, Next(s, Apply(w, lid)), pid)
  {
    ApplyTransacts(s, w, lid);
  }

  lemma QuietGrows(s: State, s': State, pid: string)
    requires Quiet(s, s') && pid in s.purchases
    ensures Grows(s, s', pid)
  {
  }

  lemma StepGrows(s: State, step: Step, pid: string)
    requires PayInv(s) && Admissible(s, step) && pid in s.purchases
    ensures Grows(s, Next(s, step), pid)
  {
    if step.Apply? && Ready(s, step.worker, step.lid) {
      ApplyGrows(s, step.worker, step.lid, pid);
    } else if step.Apply? || step.Load? {
      assert Next(s, step).purchases == s.purchases && Next(s, step).paid == s.paid;
    } else {
      StepQuiet(s, step);
      QuietGrows(s, Next(s, step), pid);
    }
  }

  lemma {:induction false} RunGrows(s: State, steps: seq<Step>, pid: string)
    requires PayInv(s) && AdmissibleRun(s, steps) && pid in s.purchases
    ensures Grows(s, Run(s, steps), pid)
    decreases |steps|
  {
    if steps != [] {
      StepKeepsCredits(s, steps[0]);
      StepBooks(s, steps[0]);
      StepCurrent(s, steps[0]);
      StepGrows(s, steps[0], pid);
      RunGrows(Next(s, steps[0]), steps[1..], pid);
    }
  }

  /** Reversals only accumulate and bindings only get fixed, from any point of a run to any later one. */
  lemma ReversedNeverDecreases(before: seq<Step>, after: seq<Step>, pid: string)
    requires AdmissibleRun(START, before) && AdmissibleRun(Run(START, before), after)
    requires pid in Run(START, before).purchases
    ensures Grows(Run(START, before), Run(START, before + after), pid)
  {
    EmptyInv();
    RunKeeps(START, before);
    RunGrows(Run(START, before), after, pid);
    RunConcat(START, before, after);
  }

  lemma ReversalTotal(l: seq<Entry>, l': seq<Entry>, lid: string, user: string, k: EventKey, missing: int, pid: string)
    requires l' == if missing <= 0 then l
                   else l + [RefundEntry(lid, user, missing, k.0, ReversalReason(pid), ReversalKey(k))]
    ensures Total(l', ReversalsFor(pid)) == Total(l, ReversalsFor(pid)) - Max(missing, 0)
  {
    if missing > 0 {
      KeySpaces("", "", k);
      TotalsWithRow(l, RefundEntry(lid, user, missing, k.0, ReversalReason(pid), ReversalKey(k)), pid, pid);
    }
  }

  /**
   Why one at a time: applying a reversal computed from a row that was read earlier leaves
   ledger and purchase in agreement exactly when the total it stores is what the purchase
   has now, plus what the ledger now loses, which is nothing if the event's ledger row
   exists already. As long as the stored total does not wrap and a row is written, that is:
   exactly when the reversed credits have not changed since the read.
   */
  lemma StaleReadBreaksReckoning(s: State, w: nat, lid: string)
    requires Ready(s, w, lid) && s.events[s.workers[w].key].kind != Paid
    requires var pid := s.events[s.workers[w].key].purchaseId;
             pid in s.purchases && Total(s.sys.db.ledger, ReversalsFor(pid)) == -s.purchases[pid].reversed
    ensures var k, p := s.workers[w].key, s.workers[w].loaded.value;
            var pid, s' := s.events[k].purchaseId, Next(s, Apply(w, lid));
            var taken := if KeyUsed(s.sys.db.ledger, ReversalKey(k)) then 0 else Max(Missing(p, s.events[k]), 0);
            && pid in s'.purchases
            && (Total(s'.sys.db.ledger, ReversalsFor(pid)) == -s'.purchases[pid].reversed
                <==> NewReversed(p, s.events[k]) == s.purchases[pid].reversed + taken)
            && (NewReversed(p, s.events[k]) == p.reversed + Max(Missing(p, s.events[k]), 0) && taken > 0 ==>
                  (NewReversed(p, s.events[k]) == s.purchases[pid].reversed + taken
                   <==> p.reversed == s.purchases[pid].reversed))
  {
    var k, p := s.workers[w].key, s.workers[w].loaded.value;
    var e := s.events[k];
    ApplyWrites(s, w, lid);
    ApplyLedgerRow(s, w, lid);
    if !KeyUsed(s.sys.db.ledger, ReversalKey(k)) {
      ReversalTotal(s.sys.db.ledger, Next(s, Apply(w, lid)).sys.db.ledger, lid, p.user, k, Missing(p, e), e.purchaseId);
    }
  }
}
