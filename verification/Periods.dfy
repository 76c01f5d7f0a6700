/**
 Credits for paid subscription periods: which periods share an idempotency key, and what
 that means for the grants.
 */
module Periods {
  import opened Basics
  import opened Ledger
  import opened Invariants
  import Runs
  import opened CreditsService

  // ---- Keys -----------------------------------------------------------------------------

  /** A paid period of a subscription. */
  datatype Period = Period(provider: string, subscription: string, start: int, invoice: string)

  function PeriodKey(p: Period): string {
    "subscription:" + p.provider + ":" + p.subscription + ":" + ShowInt(p.start) + ":" + p.invoice
  }

  /** Start and invoice, as they end the key. */
  function Tail(p: Period): string { ShowInt(p.start) + [':'] + p.invoice }

  lemma PeriodKeyShape(p: Period)
    ensures PeriodKey(p) == "subscription:" + (p.provider + [':'] + (p.subscription + [':'] + Tail(p)))
  {
    var t := ShowInt(p.start);
    assert p.provider + [':'] + (p.subscription + [':'] + (t + [':'] + p.invoice))
        == p.provider + ":" + p.subscription + ":" + t + ":" + p.invoice;
  }

  /**
   The subscription id of `q` continues that of `p` with the start of `p`, and the invoice
   of `p` holds the rest of it followed by start and invoice of `q`.
   */
  predicate Nested(p: Period, q: Period) {
    var head := p.subscription + [':'] + ShowInt(p.start);
    || (q.subscription == head && p.invoice == Tail(q))
    || (head + [':'] <= q.subscription && p.invoice == q.subscription[|head| + 1..] + [':'] + Tail(q))
  }

  /** Cutting one string at two separators: the longer left part contains the shorter one and its separator. */
  lemma CutTwice(sep: char, a: string, x: string, b: string, y: string) returns (w: string)
    requires a + [sep] + x == b + [sep] + y && |a| < |b|
    ensures b == a + [sep] + w && x == w + [sep] + y
  {
    var s := a + [sep] + x;
    w := b[|a| + 1..];
    assert b == s[..|b|] && a == s[..|a|] && s[|a|] == sep && s[|b|] == sep;
    assert x == s[|a| + 1..] && y == s[|b| + 1..];
    assert w == s[|a| + 1..|b|];
  }

  lemma SameCut(sep: char, a: string, x: string, b: string, y: string)
    requires a + [sep] + x == b + [sep] + y && |a| == |b|
    ensures a == b && x == y
  {
    var s := a + [sep] + x;
    assert a == s[..|a|] && b == s[..|b|];
    assert x == s[|a| + 1..] && y == s[|b| + 1..];
  }

  lemma TailInjective(p: Period, q: Period)
    requires Tail(p) == Tail(q)
    ensures p.start == q.start && p.invoice == q.invoice
  {
    ShowIntPlain(p.start);
    ShowIntPlain(q.start);
    SplitAtFirst(':', ShowInt(p.start), p.invoice, ShowInt(q.start), q.invoice);
    ShowIntInjective(p.start, q.start);
  }

  lemma LongerIsNested(p: Period, q: Period)
    requires p.subscription + [':'] + Tail(p) == q.subscription + [':'] + Tail(q)
    requires |p.subscription| < |q.subscription|
    ensures Nested(p, q)
  {
    var w := CutTwice(':', p.subscription, Tail(p), q.subscription, Tail(q));
    var t := ShowInt(p.start);
    ShowIntPlain(p.start);
    if |t| == |w| {
      SameCut(':', t, p.invoice, w, Tail(q));
    } else if |t| < |w| {
      var v := CutTwice(':', t, p.invoice, w, Tail(q));
      assert q.subscription == p.subscription + [':'] + t + [':'] + v;
    } else {
      var v := CutTwice(':', w, Tail(q), t, p.invoice);
      assert false;
    }
  }

  /** Either way of nesting leaves the same text behind the provider. */
  lemma NestedTail(p: Period, q: Period, head: string)
    requires Nested(p, q) && head == p.subscription + [':'] + ShowInt(p.start)
    ensures head + [':'] + p.invoice == q.subscription + [':'] + Tail(q)
  {
    if q.subscription != head {
      var w := q.subscription[|head| + 1..];
      assert q.subscription == head + [':'] + w;
      assert head + [':'] + (w + [':'] + Tail(q)) == head + [':'] + w + [':'] + Tail(q);
    }
  }

  lemma NestedShareKey(p: Period, q: Period)
    requires p.provider == q.provider && Nested(p, q)
    ensures PeriodKey(p) == PeriodKey(q)
  {
    var head := p.subscription + [':'] + ShowInt(p.start);
    PeriodKeyShape(p);
    PeriodKeyShape(q);
    assert p.subscription + [':'] + Tail(p) == head + [':'] + p.invoice;
    NestedTail(p, q, head);
  }

  /**
   Exactly which periods share a key: for providers without separator, a period and
   itself, and two periods of which one is nested in the other.
   */
  lemma SharedKeyIff(p: Period, q: Period)
    requires ':' !in p.provider && ':' !in q.provider
    ensures PeriodKey(p) == PeriodKey(q) <==> p == q || (p.provider == q.provider && (Nested(p, q) || Nested(q, p)))
  {
    if PeriodKey(p) == PeriodKey(q) {
      PeriodKeyShape(p);
      PeriodKeyShape(q);
      var a, b := p.subscription + [':'] + Tail(p), q.subscription + [':'] + Tail(q);
      CancelPrefix("subscription:", p.provider + [':'] + a, q.provider + [':'] + b);
      SplitAtFirst(':', p.provider, a, q.provider, b);
      if |p.subscription| < |q.subscription| {
        LongerIsNested(p, q);
      } else if |q.subscription| < |p.subscription| {
        LongerIsNested(q, p);
      } else {
        SameCut(':', p.subscription, Tail(p), q.subscription, Tail(q));
        TailInjective(p, q);
      }
    }
    if p.provider == q.provider && Nested(p, q) {
      NestedShareKey(p, q);
    }
    if p.provider == q.provider && Nested(q, p) {
      NestedShareKey(q, p);
    }
  }

  lemma NestedHasSeparators(p: Period, q: Period)
    requires Nested(p, q)
    ensures ':' in q.subscription && ':' in p.invoice
  {
    var head := p.subscription + [':'] + ShowInt(p.start);
    assert head[|p.subscription|] == ':' && q.subscription[|p.subscription|] == head[|p.subscription|];
    assert Tail(q)[|ShowInt(q.start)|] == ':';
    assert ':' in Tail(q);
  }

  /** Keys identify periods as soon as subscription ids, or else invoice ids, contain no separator. */
  lemma PeriodKeyInjective(p: Period, q: Period)
    requires ':' !in p.provider && ':' !in q.provider
    requires (':' !in p.subscription && ':' !in q.subscription) || (':' !in p.invoice && ':' !in q.invoice)
    requires PeriodKey(p) == PeriodKey(q)
    ensures p == q
  {
    SharedKeyIff(p, q);
    if Nested(p, q) {
      NestedHasSeparators(p, q);
      assert false;
    }
    if Nested(q, p) {
      NestedHasSeparators(q, p);
      assert false;
    }
  }

  // ---- Grants ---------------------------------------------------------------------------

  predicate Acceptable(p: Period, user: string, amount: int) {
    amount > 0 && p.provider != "" && p.subscription != "" && p.invoice != "" && user != "" && p.start > 0
  }

  /** Grants the period; a key that is already used counts as done. */
  function GrantUnder(db: Db, id: string, ok: bool, user: string, amount: int, source: string, reason: string,
                      key: string): Effect<()>
  {
    if !ok then Effect(Err(InvalidArgument), db)
    else
      var eff := Grant(db, id, user, amount, source, reason, key);
      Effect(if eff.result == Err(DuplicateGrant) then Ok(()) else eff.result, eff.db)
  }

  function PeriodReason(p: Period): string { "subscription period " + p.subscription }

  function GrantPeriod(db: Db, id: string, p: Period, user: string, amount: int): Effect<()> {
    GrantUnder(db, id, Acceptable(p, user, amount), user, amount, p.provider, PeriodReason(p), PeriodKey(p))
  }

  /** The payments service's entry point for a paid invoice. */
  method GrantSubscriptionPeriod(svc: Service, id: string, p: Period, user: string, amount: int) returns (r: Result<()>)
    requires svc.Valid()
    modifies svc
    ensures Effect(r, svc.View()) == GrantPeriod(old(svc.View()), id, p, user, amount)
    ensures svc.Valid()
  {
    if amount <= 0 || p.provider == "" || p.subscription == "" || p.invoice == "" || user == "" || p.start <= 0 {
      return Err(InvalidArgument);
    }
    r := svc.Grant(id, user, amount, p.provider, PeriodReason(p), PeriodKey(p));
    if r == Err(DuplicateGrant) {
      r := Ok(());
    }
  }

  /** The key of a period, as in subscription:stripe:sub_1:17:in_1. */
  lemma PeriodKeyFormat()
    ensures PeriodKey(Period("stripe", "sub_1", 17, "in_1")) == "subscription:stripe:sub_1:17:in_1"
  {
    assert ShowInt(17) == Show(1) + [Digit(7)] == "17";
  }

  /**
   A paid period on the columns: refused if anything is missing, else a grant to the user, a
   used key being success.
   */
  lemma PeriodEffect(db: Db, id: string, p: Period, user: string, amount: int, key: string)
    requires key == PeriodKey(p)
    ensures var eff := GrantPeriod(db, id, p, user, amount);
            if amount <= 0 || p.provider == "" || p.subscription == "" || p.invoice == "" || user == "" ||
              p.start <= 0 then
              eff == Effect(Err(InvalidArgument), db)
            else
              var grant := Grant(db, id, user, amount, p.provider, "subscription period " + p.subscription, key);
              eff.db == grant.db && eff.result == if grant.result == Err(DuplicateGrant) then Ok(()) else grant.result
  {
  }

  lemma {:induction false} KeyStays(s: Runs.Sys, steps: seq<Runs.Step>, key: string)
    requires KeyUsed(s.db.ledger, key)
    ensures KeyUsed(Runs.Run(s, steps).db.ledger, key)
    decreases |steps|
  {
    if steps != [] {
      var i :| 0 <= i < |s.db.ledger| && s.db.ledger[i].key == Some(key);
      Runs.StepAppends(s, steps[0]);
      assert Runs.Apply(s, steps[0]).db.ledger[i].key == Some(key);
      KeyStays(Runs.Apply(s, steps[0]), steps[1..], key);
    }
  }

  /** The steps that a period grant amounts to. */
  function GrantSteps(ok: bool, id: string, user: string, amount: int, source: string, reason: string,
                      key: string): seq<Runs.Step>
  {
    if ok then [Runs.Grant(id, user, amount, source, reason, key)] else []
  }

  lemma GrantIsRun(s: Runs.Sys, id: string, ok: bool, user: string, amount: int, source: string, reason: string,
                   key: string)
    ensures Runs.Run(s, GrantSteps(ok, id, user, amount, source, reason, key))
         == s.(db := GrantUnder(s.db, id, ok, user, amount, source, reason, key).db)
    ensures GrantUnder(s.db, id, ok, user, amount, source, reason, key).result.Ok? ==>
              KeyUsed(GrantUnder(s.db, id, ok, user, amount, source, reason, key).db.ledger, key)
  {
    var steps := GrantSteps(ok, id, user, amount, source, reason, key);
    if ok {
      assert steps[1..] == [];
      assert Runs.Run(s, steps) == Runs.Apply(s, steps[0]);
    }
    var after := GrantUnder(s.db, id, ok, user, amount, source, reason, key).db.ledger;
    if after != s.db.ledger {
      assert after[|after| - 1].key == Some(key);
    }
  }

  /** The key is used in the state, so a later call for it leaves the tables alone. */
  lemma UsedKeyGrantsNothing(db: Db, id: string, ok: bool, user: string, amount: int, source: string, reason: string,
                             key: string)
    requires KeyUsed(db.ledger, key)
    ensures GrantUnder(db, id, ok, user, amount, source, reason, key).db == db
  {
  }

  /**
   A paid period is granted once: after a call that reported success in any reachable
   state, and any further transactions, the ledger holds exactly one row under the
   period's key, and calling again, whatever user, amount and id are passed, writes nothing.
   */
  lemma PeriodGrantedOnce(before: seq<Runs.Step>, p: Period, id: string, user: string, amount: int,
                          after: seq<Runs.Step>, id': string, user': string, amount': int)
    requires GrantPeriod(Runs.Run(Runs.INIT, before).db, id, p, user, amount).result.Ok?
    ensures var s := Runs.Run(Runs.INIT, before);
            var s' := Runs.Run(s.(db := GrantPeriod(s.db, id, p, user, amount).db), after);
            && CountKey(s'.db.ledger, PeriodKey(p)) == 1
            && GrantPeriod(s'.db, id', p, user', amount').db == s'.db
  {
    var s := Runs.Run(Runs.INIT, before);
    var ok, reason, key := Acceptable(p, user, amount), PeriodReason(p), PeriodKey(p);
    GrantIsRun(s, id, ok, user, amount, p.provider, reason, key);
    var mid := s.(db := GrantPeriod(s.db, id, p, user, amount).db);
    EmptyInv();
    Runs.RunKeeps(Runs.INIT, before);
    Runs.RunKeeps(s, GrantSteps(ok, id, user, amount, p.provider, reason, key));
    Runs.RunKeeps(mid, after);
    KeyStays(mid, after, key);
    var s' := Runs.Run(mid, after);
    CountUsed(s'.db.ledger, key);
    CountUnique(s'.db.ledger, key);
    UsedKeyGrantsNothing(s'.db, id', Acceptable(p, user', amount'), user', amount', p.provider, reason, key);
  }

  /** The grant has what it needs: well-formed arguments, an unused key and an unused id. */
  predicate Grantable(db: Db, id: string, p: Period, user: string, amount: int) {
    && Acceptable(p, user, amount)
    && ValidAdjustment(GrantEntry(id, user, amount, p.provider, PeriodReason(p), PeriodKey(p)))
    && !KeyUsed(db.ledger, PeriodKey(p)) && !IdUsed(db.ledger, id)
  }

  /** Two grants in sequence, on already computed columns: the second writes exactly when its key is another one. */
  lemma TwoGrants(db: Db, e: Entry, f: Entry)
    requires ValidAdjustment(e) && ValidAdjustment(f) && e.id != f.id
    requires !KeyUsed(db.ledger, e.key.value) && !KeyUsed(db.ledger, f.key.value)
    requires !IdUsed(db.ledger, e.id) && !IdUsed(db.ledger, f.id)
    ensures var mid := Adjust(db, e).db;
            && Adjust(db, e) == Effect(Ok(()), Post(db, e, db.reservations))
            && Adjust(mid, f) == if e.key == f.key then Effect(Err(DuplicateGrant), mid)
                                 else Effect(Ok(()), Post(mid, f, mid.reservations))
  {
    var mid := Adjust(db, e).db;
    assert mid.ledger[|db.ledger|] == e;
  }

  /**
   Two different paid periods, both grantable: the second call always reports success, and
   it writes its row if and only if neither period is nested in the other. Otherwise the
   second period's credits are silently lost.
   */
  lemma SecondPeriodGrantedIff(db: Db, p: Period, id: string, user: string, amount: int,
                               q: Period, id': string, user': string, amount': int)
    requires p != q && id != id' && ':' !in p.provider && ':' !in q.provider
    requires Grantable(db, id, p, user, amount) && Grantable(db, id', q, user', amount')
    ensures var mid := GrantPeriod(db, id, p, user, amount).db;
            var eff := GrantPeriod(mid, id', q, user', amount');
            && eff.result.Ok?
            && (eff.db != mid <==> !(p.provider == q.provider && (Nested(p, q) || Nested(q, p))))
            && (eff.db != mid ==> Balance(eff.db, user') == Balance(mid, user') + amount')
  {
    SharedKeyIff(p, q);
    TwoGrants(db, GrantEntry(id, user, amount, p.provider, PeriodReason(p), PeriodKey(p)),
              GrantEntry(id', user', amount', q.provider, PeriodReason(q), PeriodKey(q)));
  }

  /** Such periods exist once ids contain separators. */
  lemma PeriodKeysCollide()
    ensures PeriodKey(Period("p", "s:1", 2, "x")) == PeriodKey(Period("p", "s", 1, "2:x"))
  {
    assert ShowInt(1) == "1" && ShowInt(2) == "2";
    NestedShareKey(Period("p", "s", 1, "2:x"), Period("p", "s:1", 2, "x"));
  }
}
