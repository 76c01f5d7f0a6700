/**
 The lazy monthly grant: at most one per user and calendar month, however often and by
 whomever it is requested, and none while a recorded subscription is not active.
 */
module Monthly {
  import opened Basics
  import opened Ledger
  import opened Invariants
  import Runs
  import opened CreditsService

  // ---- Keys -----------------------------------------------------------------------------

  /** A year and a month of it. */
  type Month = m: (nat, nat) | 1 <= m.1 <= 12 witness (1, 1)

  /** At least four digits. */
  function Year(y: nat): string {
    if y <= 9999 then [Digit(y / 1000), Digit(y / 100 % 10), Digit(y / 10 % 10), Digit(y % 10)] else Show(y)
  }

  /** YYYY-MM. */
  function Period(m: Month): string { Year(m.0) + ['-', Digit(m.1 / 10), Digit(m.1 % 10)] }

  function MonthlyKey(user: string, period: string): string { "monthly:" + user + ":" + period }

  lemma Decimal(n: nat)
    ensures n == n / 1000 * 1000 + n / 100 % 10 * 100 + n / 10 % 10 * 10 + n % 10
  {
    var a, b := n / 10, n / 100;
    assert n / 100 == a / 10 && n / 1000 == b / 10;
  }

  lemma LongYear(y: nat)
    requires y > 9999
    ensures |Year(y)| >= 5
  {
    ShowPlain(y / 10 / 10 / 10 / 10);
    assert y / 10 > 999 && y / 10 / 10 > 99 && y / 10 / 10 / 10 > 9;
    assert |Show(y / 10 / 10 / 10)| >= 2;
    assert |Show(y / 10 / 10)| >= 3;
    assert |Show(y / 10)| >= 4;
  }

  lemma ShortYearInjective(y: nat, z: nat)
    requires y <= 9999 && z <= 9999 && Year(y) == Year(z)
    ensures y == z
  {
    var p, q := Year(y), Year(z);
    Decimal(y);
    Decimal(z);
    DigitInjective(y / 1000, z / 1000);
    DigitInjective(y / 100 % 10, z / 100 % 10);
    DigitInjective(y / 10 % 10, z / 10 % 10);
    DigitInjective(y % 10, z % 10);
    assert p[0] == q[0] && p[1] == q[1] && p[2] == q[2] && p[3] == q[3];
  }

  lemma YearInjective(y: nat, z: nat)
    requires Year(y) == Year(z)
    ensures y == z
  {
    if y > 9999 {
      LongYear(y);
    }
    if z > 9999 {
      LongYear(z);
    }
    if y <= 9999 && z <= 9999 {
      ShortYearInjective(y, z);
    } else if y > 9999 && z > 9999 {
      ShowInjective(y, z);
    }
  }

  lemma YearPlain(y: nat)
    ensures ':' !in Year(y)
  {
    if y > 9999 {
      ShowPlain(y);
    } else {
      DigitInjective(y / 1000, 0);
      DigitInjective(y / 100 % 10, 0);
      DigitInjective(y / 10 % 10, 0);
      DigitInjective(y % 10, 0);
    }
  }

  /** Different months have different periods, and no period contains the key's separator. */
  lemma PeriodInjective(m: Month, n: Month)
    ensures Period(m) == Period(n) ==> m == n
    ensures ':' !in Period(m)
  {
    var p, q := Period(m), Period(n);
    YearPlain(m.0);
    DigitInjective(m.1 / 10, n.1 / 10);
    DigitInjective(m.1 % 10, n.1 % 10);
    if p == q {
      var k := |p| - 3;
      assert p[..k] == Year(m.0) && q[..k] == Year(n.0);
      YearInjective(m.0, n.0);
      assert p[k + 1] == q[k + 1] && p[k + 2] == q[k + 2];
    }
  }

  /** The key determines user and month, even when the user id contains the separator. */
  lemma MonthlyKeyInjective(u: string, m: Month, v: string, n: Month)
    requires MonthlyKey(u, Period(m)) == MonthlyKey(v, Period(n))
    ensures u == v && m == n
  {
    PeriodInjective(m, n);
    PeriodInjective(n, m);
    var a, b := "monthly:" + u, "monthly:" + v;
    assert a + [':'] + Period(m) == b + [':'] + Period(n);
    SplitAtLast(':', a, Period(m), b, Period(n));
    CancelPrefix("monthly:", u, v);
  }

  // ---- The grant ------------------------------------------------------------------------

  datatype SubscriptionStatus = Active | Paused | Cancelled

  datatype Config = Config(monthlyCredits: int, planCredits: map<string, int>)

  /** A call in progress that found its user entitled. */
  datatype Call = Call(user: string, plan: string)

  datatype State = State(sys: Runs.Sys, subscriptions: map<string, SubscriptionStatus>, calls: map<nat, Call>)

  const START := State(Runs.INIT, map[], map[])

  function PlanCredit(cfg: Config, plan: string): int {
    if plan != "" && plan in cfg.planCredits then cfg.planCredits[plan] else cfg.monthlyCredits
  }

  predicate Entitled(subscriptions: map<string, SubscriptionStatus>, user: string) {
    user in subscriptions ==> subscriptions[user] == Active
  }

  const SOURCE: string := "monthly"
  const REASON: string := "monthly_grant"

  /** The call for already computed columns of the ledger row. */
  function EnsureRow(cfg: Config, db: Db, subscriptions: map<string, SubscriptionStatus>,
                     user: string, plan: string, source: string, reason: string, key: string, id: string): Effect<bool>
  {
    var amount := PlanCredit(cfg, plan);
    if !Entitled(subscriptions, user) || amount <= 0 then Effect(Ok(false), db)
    else
      var eff := Grant(db, id, user, amount, source, reason, key);
      match eff.result
      case Ok(_) => Effect(Ok(true), eff.db)
      case Err(e) => Effect(if e == DuplicateGrant then Ok(false) else Err(e), eff.db)
  }

  function Ensure(cfg: Config, db: Db, subscriptions: map<string, SubscriptionStatus>,
                  user: string, plan: string, m: Month, id: string): Effect<bool>
  {
    EnsureRow(cfg, db, subscriptions, user, plan, SOURCE, REASON, MonthlyKey(user, Period(m)), id)
  }

  /**
   One call: it reports a grant exactly when it wrote one row, which carries the plan's
   credits under the key; that needs an entitled user, a positive plan and an unused key.
   Otherwise nothing changes.
   */
  lemma EnsureReportsTruth(cfg: Config, db: Db, subs: map<string, SubscriptionStatus>, user: string, plan: string,
                           source: string, reason: string, key: string, id: string)
    ensures var eff := EnsureRow(cfg, db, subs, user, plan, source, reason, key, id);
            && (eff.result == Ok(true) <==> eff.db != db)
            && (eff.db != db ==>
                  && eff.db ==
                     Post(db, GrantEntry(id, user, PlanCredit(cfg, plan), source, reason, key), db.reservations)
                  && Entitled(subs, user) && PlanCredit(cfg, plan) > 0 && !KeyUsed(db.ledger, key))
  {
    var eff := EnsureRow(cfg, db, subs, user, plan, source, reason, key, id);
    if eff.result == Ok(true) {
      assert |eff.db.ledger| == |db.ledger| + 1;
    }
  }

  /** The credits of a plan: its own if it is listed, else the default. */
  lemma PlanMeans(cfg: Config, plan: string)
    ensures plan != "" && plan in cfg.planCredits ==> PlanCredit(cfg, plan) == cfg.planCredits[plan]
    ensures plan == "" || plan !in cfg.planCredits ==> PlanCredit(cfg, plan) == cfg.monthlyCredits
  {
  }

  /** The key is the word, the user and the month, as in monthly:u:2024-03. */
  lemma MonthlyKeyFormat()
    ensures Period((2024, 3)) == "2024-03" && Period((987, 12)) == "0987-12"
    ensures MonthlyKey("u", "2024-03") == "monthly:u:2024-03"
  {
    assert Year(2024) == "2024" && Year(987) == "0987";
  }

  /**
   A call on the columns: it grants when no subscription is recorded or an active one, the
   plan grants anything, and the month's row can be written; the row credits the user, and
   nobody else, with the plan's credits. Otherwise nothing changes.
   */
  lemma MonthlyEffect(cfg: Config, db: Db, subs: map<string, SubscriptionStatus>, user: string, plan: string, m: Month,
                      id: string, key: string, amount: int)
    requires key == MonthlyKey(user, Period(m)) && amount == PlanCredit(cfg, plan)
    ensures var eff := Ensure(cfg, db, subs, user, plan, m, id);
            var entitled := user !in subs || subs[user] == Active;
            && (!entitled || amount <= 0 ==> eff == Effect(Ok(false), db))
            && (entitled && amount > 0 ==>
                  var grant := Grant(db, id, user, amount, "monthly", "monthly_grant", key);
                  && eff.db == grant.db
                  && eff.result == match grant.result
                                   case Ok(_) => Ok(true)
                                   case Err(e) => if e == DuplicateGrant then Ok(false) else Err(e))
  {
  }

  // ---- Runs -----------------------------------------------------------------------------

  /** A call is two steps: it looks at the subscription, then computes the month and grants. */
  datatype Step =
    | Begin(client: nat, user: string, plan: string)
    | Complete(client: nat, month: Month, id: string)
    | Crash(client: nat)
    | SetSubscription(user: string, status: SubscriptionStatus)
    | Core(step: Runs.Step)

  /** What is left of a call whose user was found entitled. */
  function Finish(cfg: Config, db: Db, call: Call, m: Month, id: string): Effect<bool> {
    Ensure(cfg, db, map[], call.user, call.plan, m, id)
  }

  ghost function Apply(cfg: Config, s: State, step: Step): State {
    match step
    case Begin(c, user, plan) =>
      if Entitled(s.subscriptions, user) then s.(calls := s.calls[c := Call(user, plan)])
      else s.(calls := s.calls - {c})
    case Complete(c, m, id) =>
      if c !in s.calls then s
      else s.(sys := s.sys.(db := Finish(cfg, s.sys.db, s.calls[c], m, id).db), calls := s.calls - {c})
    case Crash(c) =>
      s.(calls := s.calls - {c})
    case SetSubscription(user, status) =>
      s.(subscriptions := s.subscriptions[user := status])
    case Core(st) =>
      s.(sys := Runs.Apply(s.sys, st))
  }

  /** An undisturbed call is its two steps in sequence. */
  lemma CallIsTwoSteps(cfg: Config, s: State, c: nat, user: string, plan: string, m: Month, id: string)
    ensures Apply(cfg, Apply(cfg, s, Begin(c, user, plan)), Complete(c, m, id)).sys.db
         == Ensure(cfg, s.sys.db, s.subscriptions, user, plan, m, id).db
  {
    if Entitled(s.subscriptions, user) {
      EntitledAlike(cfg, s.sys.db, s.subscriptions, user, plan, SOURCE, REASON, MonthlyKey(user, Period(m)), id);
    }
  }

  ghost function Run(cfg: Config, s: State, steps: seq<Step>): State
    decreases |steps|
  {
    if steps == [] then s else Run(cfg, Apply(cfg, s, steps[0]), steps[1..])
  }

  /** Other writers stay out of the monthly key space. */
  predicate Foreign(step: Step) {
    step.Core? ==> (Runs.KeyOf(step.step).Some? ==> !("monthly:" <= Runs.KeyOf(step.step).value))
  }

  /** Number of calls for this user and month that reported a grant. */
  ghost function Reported(cfg: Config, s: State, steps: seq<Step>, user: string, m: Month): nat
    decreases |steps|
  {
    if steps == [] then 0
    else
      Reported(cfg, Apply(cfg, s, steps[0]), steps[1..], user, m) +
      if GrantedFor(cfg, s, steps[0], user, m) then 1 else 0
  }

  ghost predicate GrantedFor(cfg: Config, s: State, step: Step, user: string, m: Month) {
    step.Complete? && step.client in s.calls && s.calls[step.client].user == user && step.month == m &&
    Finish(cfg, s.sys.db, s.calls[step.client], m, step.id).result == Ok(true)
  }

  /**
   A call that reports granting the month to the user adds a row under its key, and unless
   other writers use the monthly keys nothing else does.
   */
  lemma StepCounts(cfg: Config, s: State, step: Step, user: string, m: Month)
    ensures var key, written := MonthlyKey(user, Period(m)), if GrantedFor(cfg, s, step, user, m) then 1 else 0;
            var before, after := CountKey(s.sys.db.ledger, key), CountKey(Apply(cfg, s, step).sys.db.ledger, key);
            after >= before + written && (Foreign(step) ==> after == before + written)
  {
    var key := MonthlyKey(user, Period(m));
    var l, l' := s.sys.db.ledger, Apply(cfg, s, step).sys.db.ledger;
    match step
    case Complete(c, n, id) =>
      if c in s.calls {
        var v, plan := s.calls[c].user, s.calls[c].plan;
        var key' := MonthlyKey(v, Period(n));
        EnsureReportsTruth(cfg, s.sys.db, map[], v, plan, SOURCE, REASON, key', id);
        CountAppend(l, GrantEntry(id, v, PlanCredit(cfg, plan), SOURCE, REASON, key'), key);
        if key == key' {
          MonthlyKeyInjective(user, m, v, n);
        }
      }
    case Core(st) =>
      Runs.StepAppends(s.sys, st);
      assert "monthly:" <= key;
      if l' != l {
        CountAppend(l, l'[|l'| - 1], key);
      }
    case _ =>
  }

  lemma EnsureKeeps(cfg: Config, sys: Runs.Sys, subs: map<string, SubscriptionStatus>, user: string, plan: string,
                    source: string, reason: string, key: string, id: string)
    requires Runs.SysInv(sys)
    ensures Runs.SysInv(sys.(db := EnsureRow(cfg, sys.db, subs, user, plan, source, reason, key, id).db))
  {
    Runs.StepKeeps(sys, Runs.Grant(id, user, PlanCredit(cfg, plan), source, reason, key));
  }

  lemma StepKeeps(cfg: Config, s: State, step: Step)
    requires Runs.SysInv(s.sys)
    ensures Runs.SysInv(Apply(cfg, s, step).sys)
  {
    match step
    case Complete(c, m, id) =>
      if c in s.calls {
        var user, plan := s.calls[c].user, s.calls[c].plan;
        EnsureKeeps(cfg, s.sys, map[], user, plan, SOURCE, REASON, MonthlyKey(user, Period(m)), id);
      }
    case Core(st) =>
      Runs.StepKeeps(s.sys, st);
    case _ =>
  }

  lemma {:induction false} RunCounts(cfg: Config, s: State, steps: seq<Step>, user: string, m: Month)
    requires Runs.SysInv(s.sys)
    ensures Runs.SysInv(Run(cfg, s, steps).sys)
    ensures var key, reported := MonthlyKey(user, Period(m)), Reported(cfg, s, steps, user, m);
            var before, after := CountKey(s.sys.db.ledger, key), CountKey(Run(cfg, s, steps).sys.db.ledger, key);
            && after >= before + reported
            && ((forall i :: 0 <= i < |steps| ==> Foreign(steps[i])) ==> after == before + reported)
    decreases |steps|
  {
    if steps != [] {
      StepKeeps(cfg, s, steps[0]);
      StepCounts(cfg, s, steps[0], user, m);
      RunCounts(cfg, Apply(cfg, s, steps[0]), steps[1..], user, m);
    }
  }

  /**
   Over any interleaving of calls, plans, clock values, crashes, subscription changes and
   other traffic: the ledger holds at most one row under the key of a user and month, and
   at most one call reports having granted it. If other writers stay out of the monthly
   keys, the row is there exactly when a call reported it.
   */
  lemma MonthlyOnce(cfg: Config, steps: seq<Step>, user: string, m: Month)
    ensures var rows := CountKey(Run(cfg, START, steps).sys.db.ledger, MonthlyKey(user, Period(m)));
            && Reported(cfg, START, steps, user, m) <= rows <= 1
            && ((forall i :: 0 <= i < |steps| ==> Foreign(steps[i])) ==> rows == Reported(cfg, START, steps, user, m))
  {
    EmptyInv();
    RunCounts(cfg, START, steps, user, m);
    CountUnique(Run(cfg, START, steps).sys.db.ledger, MonthlyKey(user, Period(m)));
  }

  /** The last status that the steps record for the user. */
  function LastSet(steps: seq<Step>, user: string): Option<SubscriptionStatus> {
    if steps == [] then None
    else
      var later := LastSet(steps[1..], user);
      if later.Some? then later
      else if steps[0].SetSubscription? && steps[0].user == user then Some(steps[0].status)
      else None
  }

  lemma {:induction false} EntitledAfter(cfg: Config, s: State, between: seq<Step>, user: string)
    ensures Entitled(Run(cfg, s, between).subscriptions, user) <==>
              match LastSet(between, user)
              case None => Entitled(s.subscriptions, user)
              case Some(status) => status == Active
    decreases |between|
  {
    if between != [] {
      EntitledAfter(cfg, Apply(cfg, s, between[0]), between[1..], user);
    }
  }

  /** The step is not one of this client's own. */
  predicate LeavesCall(step: Step, c: nat) {
    (step.Begin? || step.Complete? || step.Crash?) ==> step.client != c
  }

  lemma {:induction false} CallSurvives(cfg: Config, s: State, between: seq<Step>, c: nat)
    requires c in s.calls && forall i :: 0 <= i < |between| ==> LeavesCall(between[i], c)
    ensures var s' := Run(cfg, s, between);
            c in s'.calls && s'.calls[c] == s.calls[c]
    decreases |between|
  {
    if between != [] {
      assert LeavesCall(between[0], c);
      CallSurvives(cfg, Apply(cfg, s, between[0]), between[1..], c);
    }
  }

  lemma FinishWrites(cfg: Config, s: State, c: nat, m: Month, id: string)
    requires c in s.calls
    ensures Apply(cfg, s, Complete(c, m, id)).sys.db != s.sys.db <==>
            GrantedFor(cfg, s, Complete(c, m, id), s.calls[c].user, m)
  {
    var user, plan := s.calls[c].user, s.calls[c].plan;
    EnsureReportsTruth(cfg, s.sys.db, map[], user, plan, SOURCE, REASON, MonthlyKey(user, Period(m)), id);
  }

  /**
   Exactly when a grant is written while the recorded subscription is not active: for a
   call that began with its user entitled, whatever others did before it completes, the
   completion that writes its row does so for a user who is no longer entitled if and only
   if the last subscription change since the call began is to another status than active.
   */
  lemma GrantedInactiveIff(cfg: Config, s: State, c: nat, user: string, plan: string, between: seq<Step>, m: Month,
                           id: string)
    requires Entitled(s.subscriptions, user) && forall i :: 0 <= i < |between| ==> LeavesCall(between[i], c)
    ensures var s1 := Run(cfg, Apply(cfg, s, Begin(c, user, plan)), between);
            var step := Complete(c, m, id);
            && c in s1.calls && s1.calls[c] == Call(user, plan)
            && (Apply(cfg, s1, step).sys.db != s1.sys.db <==> GrantedFor(cfg, s1, step, user, m))
            && (GrantedFor(cfg, s1, step, user, m) ==>
                  (!Entitled(s1.subscriptions, user) <==>
                   LastSet(between, user).Some? && LastSet(between, user) != Some(Active)))
  {
    var s0 := Apply(cfg, s, Begin(c, user, plan));
    CallSurvives(cfg, s0, between, c);
    EntitledAfter(cfg, s0, between, user);
    FinishWrites(cfg, Run(cfg, s0, between), c, m, id);
  }

  /** For an entitled user the subscription plays no further part. */
  lemma EntitledAlike(cfg: Config, db: Db, subs: map<string, SubscriptionStatus>, user: string, plan: string,
                      source: string, reason: string, key: string, id: string)
    requires Entitled(subs, user)
    ensures EnsureRow(cfg, db, subs, user, plan, source, reason, key, id)
         == EnsureRow(cfg, db, map[], user, plan, source, reason, key, id)
  {
  }

  lemma PausedMeanwhile(cfg: Config, s: State, c: nat, user: string, plan: string)
    requires Entitled(s.subscriptions, user)
    ensures Apply(cfg, Apply(cfg, s, Begin(c, user, plan)), SetSubscription(user, Paused))
         == State(s.sys, s.subscriptions[user := Paused], s.calls[c := Call(user, plan)])
  {
  }

  /** A call that saw an active subscription grants even though it was paused before the grant. */
  lemma GrantAfterPause(cfg: Config, s: State, c: nat, user: string, plan: string, m: Month, id: string)
    requires Entitled(s.subscriptions, user)
    requires Finish(cfg, s.sys.db, Call(user, plan), m, id).result == Ok(true)
    ensures var s1 := Apply(cfg, Apply(cfg, s, Begin(c, user, plan)), SetSubscription(user, Paused));
            !Entitled(s1.subscriptions, user) && GrantedFor(cfg, s1, Complete(c, m, id), user, m)
  {
    PausedMeanwhile(cfg, s, c, user, plan);
  }

  lemma RunFour(cfg: Config, s: State, a: Step, b: Step, c: Step, d: Step)
    ensures Run(cfg, s, [a, b, c, d]) == Apply(cfg, Apply(cfg, Apply(cfg, Apply(cfg, s, a), b), c), d)
  {
    var s1 := Apply(cfg, s, a);
    var s2 := Apply(cfg, s1, b);
    var s3 := Apply(cfg, s2, c);
    assert [a, b, c, d][1..] == [b, c, d] && [b, c, d][1..] == [c, d] && [c, d][1..] == [d] && [d][1..] == [];
    assert Run(cfg, s3, [d]) == Run(cfg, Apply(cfg, s3, d), []);
    assert Run(cfg, s2, [c, d]) == Run(cfg, s3, [d]);
    assert Run(cfg, s1, [b, c, d]) == Run(cfg, s2, [c, d]);
  }

  /** On empty tables a call with proper names grants. */
  lemma FirstGrant(cfg: Config, user: string, plan: string, source: string, reason: string, key: string, id: string)
    requires PlanCredit(cfg, plan) > 0
    requires ValidIdentifier(user) && ValidIdentifier(source) && ValidIdentifier(reason) && ValidIdentifier(key)
    ensures var eff := EnsureRow(cfg, EMPTY, map[], user, plan, source, reason, key, id);
            eff.result == Ok(true) && Balance(eff.db, user) == PlanCredit(cfg, plan)
  {
  }

  lemma ShortKey(user: string, period: string)
    requires |user| + |period| <= 100
    ensures ValidIdentifier(MonthlyKey(user, period))
  {
    var key := MonthlyKey(user, period);
    assert key[0] == 'm';
    ShortIdentifier(key);
  }

  lemma FirstMonth(cfg: Config, call: Call, m: Month, id: string)
    requires PlanCredit(cfg, call.plan) > 0 && ValidIdentifier(call.user) && |call.user| <= 90 && m.0 <= 9999
    ensures var eff := Finish(cfg, EMPTY, call, m, id);
            eff.result == Ok(true) && Balance(eff.db, call.user) == PlanCredit(cfg, call.plan)
  {
    ShortIdentifier(SOURCE);
    ShortIdentifier(REASON);
    ShortKey(call.user, Period(m));
    FirstGrant(cfg, call.user, call.plan, SOURCE, REASON, MonthlyKey(call.user, Period(m)), id);
  }

  /** Whole runs, for any plan that grants, in which a paused user is granted credits. */
  lemma PausedRunGrants(cfg: Config, user: string, plan: string, m: Month, id: string)
    requires PlanCredit(cfg, plan) > 0 && ValidIdentifier(user) && |user| <= 90 && m.0 <= 9999
    ensures var s := Run(cfg, START, [SetSubscription(user, Active), Begin(0, user, plan),
                                      SetSubscription(user, Paused), Complete(0, m, id)]);
            user in s.subscriptions && s.subscriptions[user] == Paused &&
            Balance(s.sys.db, user) == PlanCredit(cfg, plan)
  {
    RunFour(cfg, START, SetSubscription(user, Active), Begin(0, user, plan), SetSubscription(user, Paused),
            Complete(0, m, id));
    PausedMeanwhile(cfg, Apply(cfg, START, SetSubscription(user, Active)), 0, user, plan);
    FirstMonth(cfg, Call(user, plan), m, id);
  }

  /** A crash forgets the call; other traffic touches the credit tables alone. */
  lemma SurroundingSteps(cfg: Config, s: State, c: nat, st: Runs.Step)
    ensures Apply(cfg, s, Crash(c)) == State(s.sys, s.subscriptions, map d | d in s.calls && d != c :: s.calls[d])
    ensures Apply(cfg, s, Core(st)) == State(Runs.Apply(s.sys, st), s.subscriptions, s.calls)
  {
  }

  // ---- The service ----------------------------------------------------------------------

  class MonthlyService {
    const svc: Service
    const cfg: Config
    var subscriptions: map<string, SubscriptionStatus>

    constructor (svc: Service, cfg: Config)
      ensures this.svc == svc && this.cfg == cfg && subscriptions == map[]
    {
      this.svc, this.cfg, subscriptions := svc, cfg, map[];
    }

    method EnsureMonthlyGrant(user: string, plan: string, m: Month, id: string) returns (r: Result<bool>)
      requires svc.Valid()
      modifies svc
      ensures Effect(r, svc.View()) == Ensure(cfg, old(svc.View()), subscriptions, user, plan, m, id)
      ensures svc.Valid()
    {
      if user in subscriptions && subscriptions[user] != Active {
        return Ok(false);
      }
      r := GrantOnce(user, plan, SOURCE, REASON, MonthlyKey(user, Period(m)), id);
    }

    method GrantOnce(user: string, plan: string, source: string, reason: string, key: string, id: string)
      returns (r: Result<bool>)
      requires svc.Valid() && Entitled(subscriptions, user)
      modifies svc
      ensures Effect(r, svc.View()) ==
              EnsureRow(cfg, old(svc.View()), subscriptions, user, plan, source, reason, key, id)
      ensures svc.Valid()
    {
      var amount := cfg.monthlyCredits;
      if plan != "" && plan in cfg.planCredits {
        amount := cfg.planCredits[plan];
      }
      if amount <= 0 {
        return Ok(false);
      }
      var granted := svc.Grant(id, user, amount, source, reason, key);
      if granted.Ok? {
        return Ok(true);
      }
      if granted.error == DuplicateGrant {
        return Ok(false);
      }
      return Err(granted.error);
    }
  }
}
