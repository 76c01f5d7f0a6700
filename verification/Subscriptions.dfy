/**
 Provider subscription state: a last-writer-wins register per subscription.
 */
module Subscriptions {
  import opened Basics

  datatype Event = Event(
    provider: string, eventId: string, subscriptionId: string, user: string, plan: string, status: string,
    created: int, periodStart: int, periodEnd: int, trialStart: int, trialEnd: int,
    cancelAt: int, cancelAtPeriodEnd: bool)

  /** A row of payment_subscriptions, without its wall-clock columns. */
  datatype Row = Row(
    user: string, plan: string, status: string, created: int, periodStart: int, periodEnd: int,
    trialStart: int, trialEnd: int, cancelAt: int, cancelAtPeriodEnd: bool)

  type Key = (string, string)

  type Table = map<Key, Row>

  const STATUSES: set<string> := {
    "active", "trialing", "paused", "past_due", "unpaid", "cancelled", "canceled", "incomplete", "incomplete_expired" }

  predicate Acceptable(e: Event) {
    && e.provider != "" && e.eventId != "" && e.subscriptionId != "" && e.user != "" && e.plan != "" && e.created > 0
    && e.status in STATUSES
  }

  function Normalize(status: string): string {
    if status == "canceled" then "cancelled"
    else if status == "incomplete" || status == "incomplete_expired" then "past_due"
    else status
  }

  function KeyOf(e: Event): Key { (e.provider, e.subscriptionId) }

  function RowOf(e: Event): Row {
    Row(e.user, e.plan, Normalize(e.status), e.created, e.periodStart, e.periodEnd,
        e.trialStart, e.trialEnd, e.cancelAt, e.cancelAtPeriodEnd)
  }

  /** The upsert: a stored row yields only to a strictly later event. */
  function Upsert(t: Table, e: Event): Table {
    if !Acceptable(e) then t
    else if KeyOf(e) in t && e.created <= t[KeyOf(e)].created then t
    else t[KeyOf(e) := RowOf(e)]
  }

  class Store {
    var table: Table

    constructor ()
      ensures table == map[]
    {
      table := map[];
    }

    method ApplySubscription(e: Event) returns (r: Result<()>)
      modifies this
      ensures r == if Acceptable(e) then Ok(()) else Err(InvalidArgument)
      ensures table == Upsert(old(table), e)
    {
      if e.provider == "" || e.eventId == "" || e.subscriptionId == "" || e.user == "" || e.plan == "" ||
         e.created <= 0
      {
        return Err(InvalidArgument);
      }
      var status := e.status;
      if status !in STATUSES {
        return Err(InvalidArgument);
      }
      if status == "canceled" {
        status := "cancelled";
      }
      if status == "incomplete" || status == "incomplete_expired" {
        status := "past_due";
      }
      var row := Row(e.user, e.plan, status, e.created, e.periodStart, e.periodEnd,
                     e.trialStart, e.trialEnd, e.cancelAt, e.cancelAtPeriodEnd);
      if KeyOf(e) !in table || row.created > table[KeyOf(e)].created {
        table := table[KeyOf(e) := row];
      }
      return Ok(());
    }
  }

  // ---- Columns --------------------------------------------------------------------------

  /** The nine statuses a provider may report, and the status each is stored as. */
  lemma StatusMeans(status: string)
    ensures status in STATUSES <==>
            status in ["active", "trialing", "paused", "past_due", "unpaid", "cancelled", "canceled", "incomplete",
                       "incomplete_expired"]
    ensures status in ["active", "trialing", "paused", "past_due", "unpaid", "cancelled"] ==>
            Normalize(status) == status
    ensures Normalize("canceled") == "cancelled"
    ensures Normalize("incomplete") == "past_due" && Normalize("incomplete_expired") == "past_due"
  {
  }

  /**
   An accepted event that is later than the stored row, or the first one, writes every column
   of its subscription's row from its own; any other event changes nothing.
   */
  lemma UpsertEffect(t: Table, e: Event)
    ensures var t', k := Upsert(t, e), (e.provider, e.subscriptionId);
            var complete := e.provider != "" && e.eventId != "" && e.subscriptionId != "" && e.user != "" &&
              e.plan != "" && e.created > 0;
            if complete && e.status in STATUSES && (k in t ==> e.created > t[k].created) then
              && t'.Keys == t.Keys + {k} && (forall l :: l in t && l != k ==> t'[l] == t[l])
              && t'[k].user == e.user && t'[k].plan == e.plan && t'[k].status == Normalize(e.status) &&
                 t'[k].created == e.created
              && t'[k].periodStart == e.periodStart && t'[k].periodEnd == e.periodEnd
              && t'[k].trialStart == e.trialStart && t'[k].trialEnd == e.trialEnd
              && t'[k].cancelAt == e.cancelAt && t'[k].cancelAtPeriodEnd == e.cancelAtPeriodEnd
            else t' == t
  {
  }

  // ---- Convergence ----------------------------------------------------------------------

  function Deliver(t: Table, events: seq<Event>): Table {
    if events == [] then t else Upsert(Deliver(t, events[..|events| - 1]), events[|events| - 1])
  }

  /** The event concerns this subscription and is not rejected. */
  predicate Concerns(e: Event, k: Key) { Acceptable(e) && KeyOf(e) == k }

  /** Event `e` is among `events` and none of them that concerns the subscription is later. */
  ghost predicate IsLatest(e: Event, events: seq<Event>, k: Key) {
    e in events && Concerns(e, k) && forall f :: f in events && Concerns(f, k) ==> f.created <= e.created
  }

  /** The two deliveries contain the same events, in any order and with any repetition. */
  ghost predicate SameEvents(a: seq<Event>, b: seq<Event>) { forall e :: e in a <==> e in b }

  /** The latest events on the subscription, if there are several, all say the same. */
  ghost predicate Unambiguous(events: seq<Event>, k: Key) {
    forall e, f :: IsLatest(e, events, k) && IsLatest(f, events, k) ==> RowOf(e) == RowOf(f)
  }

  lemma InInit(events: seq<Event>, e: Event)
    requires events != []
    ensures e in events <==> e in events[..|events| - 1] || e == events[|events| - 1]
  {
    assert events == events[..|events| - 1] + [events[|events| - 1]];
  }

  /**
   Whatever the order and repetition, a subscription ends up in the row of a latest event
   that concerns it, and has a row exactly when some event concerns it.
   */
  lemma {:induction false} LatestWins(events: seq<Event>, k: Key)
    ensures k in Deliver(map[], events) <==> exists e :: e in events && Concerns(e, k)
    ensures k in Deliver(map[], events) ==>
              exists e :: IsLatest(e, events, k) && Deliver(map[], events)[k] == RowOf(e)
  {
    if events != [] {
      var init, last := events[..|events| - 1], events[|events| - 1];
      LatestWins(init, k);
      forall e ensures e in events <==> e in init || e == last { InInit(events, e); }
      var t := Deliver(map[], init);
      if k in t {
        var w :| IsLatest(w, init, k) && t[k] == RowOf(w);
        var next := if Concerns(last, k) && last.created > w.created then last else w;
        assert IsLatest(next, events, k) && Deliver(map[], events)[k] == RowOf(next);
      } else if Concerns(last, k) {
        assert IsLatest(last, events, k);
      }
    }
  }

  /** A latest event delivered first keeps the register whatever follows. */
  lemma {:induction false} FirstLatestStays(a: Event, events: seq<Event>, k: Key)
    requires Concerns(a, k) && forall f :: f in events && Concerns(f, k) ==> f.created <= a.created
    ensures k in Deliver(map[], [a] + events) && Deliver(map[], [a] + events)[k] == RowOf(a)
  {
    var all := [a] + events;
    if events == [] {
      assert all[..0] == [];
      assert Deliver(map[], []) == map[];
      assert Deliver(map[], all) == Upsert(map[], a);
    } else {
      var init := events[..|events| - 1];
      assert all[..|all| - 1] == [a] + init;
      forall f | f in init ensures f in events { InInit(events, f); }
      FirstLatestStays(a, init, k);
      assert events[|events| - 1] in events;
    }
  }

  /** Two tables say the same about a subscription. */
  ghost predicate Agree(a: Table, b: Table, k: Key) {
    (k in a <==> k in b) && (k in a ==> a[k] == b[k])
  }

  lemma LatestOfSame(e: Event, events: seq<Event>, other: seq<Event>, k: Key)
    requires SameEvents(events, other) && IsLatest(e, other, k)
    ensures IsLatest(e, events, k)
  {
  }

  lemma UnambiguousConverges(events: seq<Event>, other: seq<Event>, k: Key)
    requires Unambiguous(events, k) && SameEvents(events, other)
    ensures Agree(Deliver(map[], events), Deliver(map[], other), k)
  {
    LatestWins(events, k);
    LatestWins(other, k);
    if k in Deliver(map[], events) {
      var e :| IsLatest(e, events, k) && Deliver(map[], events)[k] == RowOf(e);
      var f :| IsLatest(f, other, k) && Deliver(map[], other)[k] == RowOf(f);
      LatestOfSame(f, events, other, k);
    }
  }

  /** Redelivering a latest event ahead of the rest makes its row the final one. */
  lemma LatestFirst(e: Event, events: seq<Event>, k: Key)
    requires IsLatest(e, events, k)
    ensures SameEvents(events, [e] + events)
    ensures k in Deliver(map[], [e] + events) && Deliver(map[], [e] + events)[k] == RowOf(e)
  {
    FirstLatestStays(e, events, k);
  }

  /** Every delivery of the same events ends in the same row. */
  ghost predicate Converges(events: seq<Event>, k: Key) {
    forall other :: SameEvents(events, other) ==> Agree(Deliver(map[], events), Deliver(map[], other), k)
  }

  lemma AmbiguousDiverges(events: seq<Event>, a: seq<Event>, b: seq<Event>, e: Event, f: Event, k: Key)
    requires IsLatest(e, events, k) && IsLatest(f, events, k) && RowOf(e) != RowOf(f)
    requires a == [e] + events && b == [f] + events
    ensures !Converges(events, k)
  {
    LatestFirst(e, events, k);
    LatestFirst(f, events, k);
    assert SameEvents(events, a) && SameEvents(events, b);
    assert !Agree(Deliver(map[], events), Deliver(map[], a), k) || !Agree(Deliver(map[], events), Deliver(map[], b), k);
  }

  /**
   Convergence, exactly: every delivery of the same events, in any order and with any
   repetition, leaves the same row for a subscription if and only if its latest events do
   not disagree. With distinct creation times they never do.
   */
  lemma ConvergesIffUnambiguous(events: seq<Event>, k: Key)
    ensures Converges(events, k) <==> Unambiguous(events, k)
  {
    if Unambiguous(events, k) {
      forall other | SameEvents(events, other) ensures Agree(Deliver(map[], events), Deliver(map[], other), k) {
        UnambiguousConverges(events, other, k);
      }
    } else {
      var e, f :| IsLatest(e, events, k) && IsLatest(f, events, k) && RowOf(e) != RowOf(f);
      AmbiguousDiverges(events, [e] + events, [f] + events, e, f, k);
    }
  }

  /** No two different events on the subscription have the same creation time. */
  ghost predicate DistinctTimes(events: seq<Event>, k: Key) {
    forall e, f :: e in events && f in events && Concerns(e, k) && Concerns(f, k) && e.created == f.created ==> e == f
  }

  lemma DistinctTimesAreUnambiguous(events: seq<Event>, k: Key)
    requires DistinctTimes(events, k)
    ensures Unambiguous(events, k)
  {
  }

  /** Convergence for events with distinct creation times: order and redelivery do not matter. */
  lemma SubscriptionsConverge(events: seq<Event>, other: seq<Event>, k: Key)
    requires SameEvents(events, other)
    requires DistinctTimes(events, k)
    ensures Agree(Deliver(map[], events), Deliver(map[], other), k)
  {
    DistinctTimesAreUnambiguous(events, k);
    UnambiguousConverges(events, other, k);
  }
}
