/** The calendar service the tool talks to, as an in-memory store of one
    calendar's events: listing them, inserting an event (the service picks
    a fresh id) and deleting an event by id. The tool only ever uses the
    `summary`, `start`, `end` and `id` fields of an event. */
module CalendarStore {
  import opened Util

  /** An event time: `{'date': ...}` of an all-day event,
      `{'dateTime': ...}` of a timed one, or a time with neither field. */
  datatype When = AllDay(date: string) | Timed(dateTime: string) | Unset

  /** What the tool sends to `events().insert`. */
  datatype Body = Body(summary: string, start: When, end: When)

  /** An event as `events().list` returns it. */
  datatype Event = Event(summary: string, start: When, end: When, id: string)

  function BodyOf(e: Event): Body {
    Body(e.summary, e.start, e.end)
  }

  predicate HasId(events: seq<Event>, id: string) {
    exists e :: e in events && e.id == id
  }

  /** The service never holds two events with the same id. */
  predicate DistinctIds(events: seq<Event>)
    decreases |events|
  {
    events == [] || (!HasId(events[1..], events[0].id) && DistinctIds(events[1..]))
  }

  /** Adding an event with an id not yet held keeps the ids distinct. */
  lemma {:induction false} DistinctAppend(events: seq<Event>, e: Event)
    requires DistinctIds(events) && !HasId(events, e.id)
    ensures DistinctIds(events + [e])
    decreases |events|
  {
    if events != [] {
      assert (events + [e])[1..] == events[1..] + [e];
      DistinctAppend(events[1..], e);
      assert events[0] in events;
    }
  }

  /** Two events of a calendar with the same id are the same event. */
  lemma {:induction false} DistinctIdsUnique(events: seq<Event>, a: Event, b: Event)
    requires DistinctIds(events) && a in events && b in events && a.id == b.id
    ensures a == b
    decreases |events|
  {
    var rest := events[1..];
    assert events == [events[0]] + rest;
    if a != events[0] && b != events[0] {
      DistinctIdsUnique(rest, a, b);
    }
  }

  /** A calendar holds each event at most once. */
  lemma {:induction false} DistinctIdsOnce(events: seq<Event>, e: Event)
    requires DistinctIds(events)
    ensures multiset(events)[e] <= 1
    decreases |events|
  {
    if events != [] {
      var rest := events[1..];
      assert events == [events[0]] + rest;
      DistinctIdsOnce(rest, e);
      if events[0] == e {
        assert e !in rest;
      }
    }
  }

  /** The events without the one whose id is `id`, in their order. */
  function RemoveId(events: seq<Event>, id: string): (r: seq<Event>)
    ensures |r| <= |events|
    ensures forall e :: e in r <==> e in events && e.id != id
    decreases |events|
  {
    if events == [] then []
    else if events[0].id == id then RemoveId(events[1..], id)
    else [events[0]] + RemoveId(events[1..], id)
  }

  /** Removing an id nobody holds changes nothing. */
  lemma {:induction false} RemoveAbsentId(events: seq<Event>, id: string)
    requires !HasId(events, id)
    ensures RemoveId(events, id) == events
    decreases |events|
  {
    if events != [] {
      assert events[0] in events;
      RemoveAbsentId(events[1..], id);
    }
  }

  /** Removing an id keeps the ids distinct, and removes exactly one event
      when the id is held. */
  lemma {:induction false} RemoveIdOnce(events: seq<Event>, id: string)
    requires DistinctIds(events)
    ensures DistinctIds(RemoveId(events, id))
    ensures |RemoveId(events, id)| == if HasId(events, id) then |events| - 1 else |events|
    decreases |events|
  {
    if events != [] {
      var rest := events[1..];
      RemoveIdOnce(rest, id);
      assert events == [events[0]] + rest;
      assert HasId(events, id) <==> events[0].id == id || HasId(rest, id);
      if events[0].id == id {
        RemoveAbsentId(rest, id);
      } else {
        var r := RemoveId(rest, id);
        assert ([events[0]] + r)[1..] == r;
      }
    }
  }

  /** The id the service gives its k-th insertion. */
  function IdFor(k: nat): string {
    "event" + Decimal(k)
  }

  lemma IdForInjective(a: nat, b: nat)
    requires IdFor(a) == IdFor(b)
    ensures a == b
  {
    assert IdFor(a)[5..] == Decimal(a);
    assert IdFor(b)[5..] == Decimal(b);
    DecimalInjective(a, b);
  }

  /** 10^n, the least number whose decimal text has n + 1 digits. */
  function Pow10(n: nat): (p: nat)
    ensures p >= 1 && |Decimal(p)| == n + 1
  {
    if n == 0 then 1
    else
      var q := Pow10(n - 1);
      assert (10 * q) / 10 == q && (10 * q) % 10 == 0;
      10 * q
  }

  /** Numbers of at least 10^n take more than n digits. */
  lemma {:induction false} DecimalLong(k: nat, n: nat)
    requires k >= Pow10(n)
    ensures |Decimal(k)| > n
    decreases n
  {
    if n > 0 {
      DecimalLong(k / 10, n - 1);
    }
  }

  function MaxIdLength(events: seq<Event>): (n: nat)
    ensures forall e :: e in events ==> |e.id| <= n
  {
    if events == [] then 0
    else
      var m := MaxIdLength(events[1..]);
      assert events == [events[0]] + events[1..];
      if |events[0].id| > m then |events[0].id| else m
  }

  /** No id the service may still hand out is held already. */
  ghost predicate Unissued(events: seq<Event>, next: nat) {
    forall e, k :: e in events && next <= k ==> e.id != IdFor(k)
  }

  class Calendar {
    /** The calendar's events, in the order `events().list` returns them. */
    var events: seq<Event>
    /** Number of the next id the service hands out. */
    var nextId: nat

    ghost predicate Valid()
      reads this
    {
      DistinctIds(events) && Unissued(events, nextId)
    }

    /** A calendar holding the given events (with distinct ids). */
    constructor (initial: seq<Event>)
      requires DistinctIds(initial)
      ensures Valid() && events == initial
    {
      events := initial;
      var n := MaxIdLength(initial);
      nextId := Pow10(n);
      new;
      forall e, k | e in initial && Pow10(n) <= k
        ensures e.id != IdFor(k)
      {
        DecimalLong(k, n);
      }
    }

    /** Listing the calendar's events (triage.py:213-215). */
    method List() returns (items: seq<Event>)
      requires Valid()
      ensures items == events && DistinctIds(items)
    {
      items := events;
    }

    /** Inserting an event (triage.py:161-162): the new event, with an
        id no other event of the calendar has, is added after the others. */
    method Insert(body: Body) returns (event: Event)
      requires Valid()
      modifies this
      ensures Valid()
      ensures BodyOf(event) == body && !HasId(old(events), event.id)
      ensures events == old(events) + [event]
    {
      event := Event(body.summary, body.start, body.end, IdFor(nextId));
      forall k | nextId + 1 <= k
        ensures event.id != IdFor(k)
      {
        if event.id == IdFor(k) { IdForInjective(nextId, k); }
      }
      DistinctAppend(events, event);
      events := events + [event];
      nextId := nextId + 1;
    }

    /** Deleting an event by id (triage.py:197-198): the event with
        that id is removed; the service refuses an id it does not hold. */
    method Delete(id: string) returns (status: Result<()>)
      requires Valid()
      modifies this
      ensures Valid()
      ensures status.Ok? <==> HasId(old(events), id)
      ensures status.Err? ==> status.error == NotFound(id) && events == old(events)
      ensures status.Ok? ==> events == RemoveId(old(events), id) && |events| == |old(events)| - 1
    {
      if !HasId(events, id) {
        return Err(NotFound(id));
      }
      RemoveIdOnce(events, id);
      events := RemoveId(events, id);
      status := Ok(());
    }
  }
}
