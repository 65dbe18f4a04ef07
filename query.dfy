/** `get_triage_assignments` (triage.py:212-256): the calendar's events are
    listed, kept when every filter accepts them (the summary starts with
    `Triage:`, and the start lies within the bounds that are given), sorted
    by their start text and turned into small records. */
module Retrieval {
  import opened Util
  import opened DateText
  import opened CalendarStore
  import opened Assignments

  /** The sort and filter key of an event's start (triage.py:231-232): its
      date, or else its date-time. An all-day event with an empty date has
      no key, since the empty text is false and it has no `dateTime`; nor
      has a start with neither field. */
  function StartKey(e: Event): (k: Option<string>)
    ensures e.start.Timed? ==> k == Some(e.start.dateTime)
    ensures e.start.AllDay? ==> (k.None? <==> e.start.date == "")
    ensures k.Some? && e.start.AllDay? ==> k.value == e.start.date
    ensures e.start.Unset? ==> k.None?
  {
    match e.start
    case AllDay(d) => if d == "" then None else Some(d)
    case Timed(t) => Some(t)
    case Unset => None
  }

  /** Python 2's `a <= b` on a key that may be None: None is below every
      string. */
  predicate KeyLe(a: Option<string>, b: Option<string>) {
    match a
    case None => true
    case Some(x) => b.Some? && StrLe(x, b.value)
  }

  lemma KeyLeTotal(a: Option<string>, b: Option<string>)
    ensures KeyLe(a, b) || KeyLe(b, a)
  {
    if a.Some? && b.Some? { StrLeTotal(a.value, b.value); }
  }

  lemma KeyLeTransitive(a: Option<string>, b: Option<string>, c: Option<string>)
    requires KeyLe(a, b) && KeyLe(b, c)
    ensures KeyLe(a, c)
  {
    if a.Some? { StrLeTransitive(a.value, b.value, c.value); }
  }

  /** The three kinds of filter: `istriage`, `start_ge(date)` and
      `start_le(date)`. */
  datatype Filter = IsTriage | StartAtLeast(bound: string) | StartAtMost(bound: string)

  predicate Accepts(f: Filter, e: Event) {
    match f
    case IsTriage => StartsWith(e.summary, "Triage:")
    case StartAtLeast(b) => KeyLe(Some(b), StartKey(e))
    case StartAtMost(b) => KeyLe(StartKey(e), Some(b))
  }

  predicate PassesAll(filters: seq<Filter>, e: Event) {
    forall i :: 0 <= i < |filters| ==> Accepts(filters[i], e)
  }

  /** The events every filter accepts, in their order. */
  function Keep(filters: seq<Filter>, items: seq<Event>): (r: seq<Event>)
    ensures |r| <= |items|
    decreases |items|
  {
    if items == [] then []
    else
      var last := items[|items| - 1];
      Keep(filters, items[..|items| - 1]) + if PassesAll(filters, last) then [last] else []
  }

  /** Keep holds exactly the events every filter accepts, each as many
      times as the listing has it. */
  lemma {:induction false} KeepMultiset(filters: seq<Filter>, items: seq<Event>)
    ensures forall e :: multiset(Keep(filters, items))[e] == if PassesAll(filters, e) then multiset(items)[e] else 0
    decreases |items|
  {
    if items != [] {
      var init := items[..|items| - 1];
      KeepMultiset(filters, init);
      assert items == init + [items[|items| - 1]];
    }
  }

  lemma KeepMembers(filters: seq<Filter>, items: seq<Event>)
    ensures forall e :: e in Keep(filters, items) <==> e in items && PassesAll(filters, e)
  {
    KeepMultiset(filters, items);
    forall e ensures e in Keep(filters, items) <==> e in items && PassesAll(filters, e) {
      assert e in Keep(filters, items) <==> multiset(Keep(filters, items))[e] > 0;
      assert e in items <==> multiset(items)[e] > 0;
    }
  }

  /** `xfilters(filters, seq)`: for each item, the filters are tried in
      order until one refuses it; the item is yielded when none does. */
  method XFilters(filters: seq<Filter>, items: seq<Event>) returns (kept: seq<Event>)
    ensures kept == Keep(filters, items)
  {
    kept := [];
    for i := 0 to |items|
      invariant kept == Keep(filters, items[..i])
    {
      var x := items[i];
      var j := 0;
      while j < |filters| && Accepts(filters[j], x)
        invariant 0 <= j <= |filters|
        invariant forall k :: 0 <= k < j ==> Accepts(filters[k], x)
      {
        j := j + 1;
      }
      assert items[..i + 1][..i] == items[..i];
      if j == |filters| {
        kept := kept + [x];
      }
    }
    assert items[..|items|] == items;
  }

  /** Sorted by start key, as the sort of triage.py:250 leaves them. */
  predicate SortedByStart(s: seq<Event>) {
    forall i, j :: 0 <= i < j < |s| ==> KeyLe(StartKey(s[i]), StartKey(s[j]))
  }

  /** Puts e in front of the first event whose key is not below e's. */
  function InsertByStart(e: Event, s: seq<Event>): (r: seq<Event>)
    ensures multiset(r) == multiset(s) + multiset{e}
    decreases |s|
  {
    if s == [] then [e]
    else if KeyLe(StartKey(e), StartKey(s[0])) then [e] + s
    else
      assert s == [s[0]] + s[1..];
      [s[0]] + InsertByStart(e, s[1..])
  }

  lemma {:induction false} InsertByStartSorted(e: Event, s: seq<Event>)
    requires SortedByStart(s)
    ensures SortedByStart(InsertByStart(e, s))
    decreases |s|
  {
    if s == [] {
    } else if KeyLe(StartKey(e), StartKey(s[0])) {
      InsertFrontSorted(e, s);
    } else {
      InsertByStartSorted(e, s[1..]);
      InsertLaterSorted(e, s);
    }
  }

  /** An event not above the first of a sorted sequence may go in front. */
  lemma InsertFrontSorted(e: Event, s: seq<Event>)
    requires SortedByStart(s) && s != [] && KeyLe(StartKey(e), StartKey(s[0]))
    ensures SortedByStart([e] + s)
  {
    var r := [e] + s;
    forall i, j | 0 <= i < j < |r| ensures KeyLe(StartKey(r[i]), StartKey(r[j])) {
      if i == 0 && j > 1 { KeyLeTransitive(StartKey(e), StartKey(s[0]), StartKey(s[j - 1])); }
    }
  }

  /** An event above the first of a sorted sequence is inserted after it,
      and every event of the rest is not below the first. */
  lemma InsertLaterSorted(e: Event, s: seq<Event>)
    requires SortedByStart(s) && s != [] && !KeyLe(StartKey(e), StartKey(s[0]))
    requires SortedByStart(InsertByStart(e, s[1..]))
    ensures SortedByStart(InsertByStart(e, s))
  {
    KeyLeTotal(StartKey(e), StartKey(s[0]));
    var rest := InsertByStart(e, s[1..]);
    assert InsertByStart(e, s) == [s[0]] + rest;
    var r := [s[0]] + rest;
    forall i, j | 0 <= i < j < |r| ensures KeyLe(StartKey(r[i]), StartKey(r[j])) {
      if i == 0 {
        var x := rest[j - 1];
        assert x in multiset(rest);
        assert x == e || x in s[1..];
      }
    }
  }

  /** Python's `sorted` is stable: this insertion sort puts each event
      before the later ones of the same key. */
  function SortByStart(s: seq<Event>): (r: seq<Event>)
    ensures multiset(r) == multiset(s)
    decreases |s|
  {
    if s == [] then []
    else
      assert s == [s[0]] + s[1..];
      InsertByStart(s[0], SortByStart(s[1..]))
  }

  lemma {:induction false} SortByStartSorted(s: seq<Event>)
    ensures SortedByStart(SortByStart(s))
    decreases |s|
  {
    if s != [] {
      SortByStartSorted(s[1..]);
      InsertByStartSorted(s[0], SortByStart(s[1..]));
    }
  }

  /** The events of s whose start key is k, in their order. */
  function WithKey(s: seq<Event>, k: Option<string>): seq<Event>
    decreases |s|
  {
    if s == [] then [] else (if StartKey(s[0]) == k then [s[0]] else []) + WithKey(s[1..], k)
  }

  lemma {:induction false} InsertByStartStable(e: Event, s: seq<Event>, k: Option<string>)
    ensures StartKey(e) == k ==> WithKey(InsertByStart(e, s), k) == [e] + WithKey(s, k)
    ensures StartKey(e) != k ==> WithKey(InsertByStart(e, s), k) == WithKey(s, k)
    decreases |s|
  {
    if s == [] {
    } else if KeyLe(StartKey(e), StartKey(s[0])) {
      WithKeyCons(e, s, k);
    } else {
      InsertByStartStable(e, s[1..], k);
      var rest := InsertByStart(e, s[1..]);
      assert InsertByStart(e, s) == [s[0]] + rest;
      assert s == [s[0]] + s[1..];
      if StartKey(e) == k {
        InsertLaterSame(e, s[0], rest, s[1..], k);
      } else {
        InsertLaterOther(s[0], rest, s[1..], k);
      }
    }
  }

  /** If e, with key k, was put after x, then x has another key. */
  lemma InsertLaterSame(e: Event, x: Event, rest: seq<Event>, tail: seq<Event>, k: Option<string>)
    requires StartKey(e) == k && !KeyLe(StartKey(e), StartKey(x))
    requires WithKey(rest, k) == [e] + WithKey(tail, k)
    ensures WithKey([x] + rest, k) == [e] + WithKey([x] + tail, k)
  {
    if StartKey(e).Some? { StrLeReflexive(StartKey(e).value); }
    WithKeyCons(x, rest, k);
    WithKeyCons(x, tail, k);
  }

  /** Changes after the first event, outside key k, leave key k as it was. */
  lemma InsertLaterOther(x: Event, rest: seq<Event>, tail: seq<Event>, k: Option<string>)
    requires WithKey(rest, k) == WithKey(tail, k)
    ensures WithKey([x] + rest, k) == WithKey([x] + tail, k)
  {
    WithKeyCons(x, rest, k);
    WithKeyCons(x, tail, k);
  }

  lemma WithKeyCons(x: Event, s: seq<Event>, k: Option<string>)
    ensures WithKey([x] + s, k) == (if StartKey(x) == k then [x] else []) + WithKey(s, k)
  {
    assert ([x] + s)[1..] == s;
  }

  /** The sort is stable: the events of any one start key keep the order
      they have in the input. */
  lemma {:induction false} SortByStartStable(s: seq<Event>, k: Option<string>)
    ensures WithKey(SortByStart(s), k) == WithKey(s, k)
    decreases |s|
  {
    if s != [] {
      SortByStartStable(s[1..], k);
      InsertByStartStable(s[0], SortByStart(s[1..]), k);
    }
  }

  /** What the tool reports about a triage event. */
  datatype Assignment = Assignment(start: Option<string>, summary: string, id: string)

  /** The prefix removal of triage.py:253, after `Triage:`: every space
      that follows is dropped too. */
  function DropSpaces(s: string): (r: string)
    ensures |r| <= |s| && s[|s| - |r|..] == r && (r != [] ==> r[0] != ' ')
    ensures forall i :: 0 <= i < |s| - |r| ==> s[i] == ' '
    decreases |s|
  {
    if s != [] && s[0] == ' ' then
      var r := DropSpaces(s[1..]);
      assert forall i :: 1 <= i < |s| - |r| ==> s[i] == s[1..][i - 1];
      r
    else s
  }

  function StripTriage(summary: string): string {
    if StartsWith(summary, "Triage:") then DropSpaces(summary[7..]) else summary
  }

  /** The record of one event: the start's `date` field (None for a timed
      event or a start without one), the summary without its prefix, and the id. */
  function Record(e: Event): Assignment {
    Assignment(if e.start.AllDay? then Some(e.start.date) else None, StripTriage(e.summary), e.id)
  }

  function Records(s: seq<Event>): (r: seq<Assignment>)
    ensures |r| == |s| && forall i :: 0 <= i < |s| ==> r[i] == Record(s[i])
  {
    seq(|s|, i requires 0 <= i < |s| => Record(s[i]))
  }

  /** `[istriage]`, then `start_ge` and `start_le` of the bounds that are given. */
  function Filters(lo: Option<string>, hi: Option<string>): seq<Filter> {
    [IsTriage] + (if lo.Some? then [StartAtLeast(lo.value)] else []) + (if hi.Some? then [StartAtMost(hi.value)] else [])
  }

  /** A triage event whose start lies within the bounds that are given. */
  predicate Selected(e: Event, lo: Option<string>, hi: Option<string>) {
    && StartsWith(e.summary, "Triage:")
    && (lo.Some? ==> KeyLe(Some(lo.value), StartKey(e)))
    && (hi.Some? ==> KeyLe(StartKey(e), Some(hi.value)))
  }

  /** A start with neither `date` nor `dateTime` has the key None: in
      Python 2, `None >= lo` is false and `None <= hi` is true, so such an
      event passes exactly when there is no lower bound, and its record
      carries no date. */
  lemma UnsetStartSelected(e: Event, lo: Option<string>, hi: Option<string>)
    requires e.start.Unset?
    ensures Selected(e, lo, hi) <==> StartsWith(e.summary, "Triage:") && lo.None?
    ensures Record(e).start.None?
  {
  }

  lemma FiltersSelect(lo: Option<string>, hi: Option<string>, e: Event)
    ensures PassesAll(Filters(lo, hi), e) <==> Selected(e, lo, hi)
  {
    var f := Filters(lo, hi);
    assert f[0] == IsTriage;
    if lo.Some? { assert f[1] == StartAtLeast(lo.value); }
    if hi.Some? { assert f[|f| - 1] == StartAtMost(hi.value); }
  }

  /** The matched events, sorted, for bounds already checked. */
  function Matches(events: seq<Event>, lo: Option<string>, hi: Option<string>): seq<Event> {
    SortByStart(Keep(Filters(lo, hi), events))
  }

  /** The matches are sorted by start key, events of the same key stay in
      listing order, and they are exactly the selected events of the
      listing, each as often as it is listed. */
  lemma MatchesMeaning(events: seq<Event>, lo: Option<string>, hi: Option<string>)
    ensures SortedByStart(Matches(events, lo, hi))
    ensures forall k :: WithKey(Matches(events, lo, hi), k) == WithKey(Keep(Filters(lo, hi), events), k)
    ensures forall e :: multiset(Matches(events, lo, hi))[e] == if Selected(e, lo, hi) then multiset(events)[e] else 0
    ensures forall e :: e in Matches(events, lo, hi) <==> e in events && Selected(e, lo, hi)
  {
    SortByStartSorted(Keep(Filters(lo, hi), events));
    forall k ensures WithKey(Matches(events, lo, hi), k) == WithKey(Keep(Filters(lo, hi), events), k) {
      SortByStartStable(Keep(Filters(lo, hi), events), k);
    }
    KeepMultiset(Filters(lo, hi), events);
    forall e ensures multiset(Matches(events, lo, hi))[e] == if Selected(e, lo, hi) then multiset(events)[e] else 0 {
      FiltersSelect(lo, hi, e);
    }
    forall e ensures e in Matches(events, lo, hi) <==> e in events && Selected(e, lo, hi) {
      assert e in Matches(events, lo, hi) <==> multiset(Matches(events, lo, hi))[e] > 0;
      assert e in events <==> multiset(events)[e] > 0;
    }
  }

  /** `get_triage_assignments(service, calId, minStart, maxStart)` on the
      listed events: both bounds are put through check_date, whose failure
      stops the tool, the lower one first. */
  function Query(events: seq<Event>, minStart: Option<string>, maxStart: Option<string>): Result<seq<Assignment>> {
    match CheckDate(minStart)
    case Err(e) => Err(e)
    case Ok(lo) =>
      match CheckDate(maxStart)
      case Err(e) => Err(e)
      case Ok(hi) => Ok(Records(Matches(events, lo, hi)))
  }

  /** The query fails exactly when a given bound is malformed, naming the
      first such bound; otherwise it has one record per match. */
  lemma QueryErrors(events: seq<Event>, minStart: Option<string>, maxStart: Option<string>)
    ensures Query(events, minStart, maxStart).Err? <==> CheckDate(minStart).Err? || CheckDate(maxStart).Err?
    ensures CheckDate(minStart).Err? ==> Query(events, minStart, maxStart) == Err(MalformedDate(minStart.value))
    ensures CheckDate(minStart).Ok? && CheckDate(maxStart).Err? ==> Query(events, minStart, maxStart) == Err(MalformedDate(maxStart.value))
    ensures Query(events, minStart, maxStart).Ok? ==>
      |Query(events, minStart, maxStart).value| == |Matches(events, CheckDate(minStart).value, CheckDate(maxStart).value)|
  {
  }

  /** The event `add_triage_assignment` creates reads back with its start
      date and the name it was given (when the name does not start with a
      space, which the prefix removal would also take away). */
  lemma ReadBack(name: string, start: string, end: string, id: string)
    requires name == [] || name[0] != ' '
    ensures var b := AssignmentBody(name, start, end);
      var e := Event(b.summary, b.start, b.end, id);
      StartsWith(e.summary, "Triage:") && Record(e) == Assignment(Some(start), name, id)
  {
    var s := TriagePrefix + name;
    assert s[..7] == "Triage:";
    assert StartsWith(s, "Triage:");
    var tail := s[7..];
    assert tail == " " + name;
    assert tail[1..] == name;
    assert DropSpaces(name) == name;
    assert DropSpaces(tail) == DropSpaces(name);
    assert StripTriage(s) == name;
  }

  /** `get_triage_assignments` against the calendar. */
  method GetAssignments(cal: Calendar, minStart: Option<string>, maxStart: Option<string>)
      returns (r: Result<seq<Assignment>>)
    requires cal.Valid()
    ensures r == Query(cal.events, minStart, maxStart)
  {
    var items := cal.List();
    var filters := [IsTriage];
    var lo := CheckDate(minStart);
    if lo.Err? {
      return Err(lo.error);
    }
    if lo.value.Some? {
      filters := filters + [StartAtLeast(lo.value.value)];
    }
    var hi := CheckDate(maxStart);
    if hi.Err? {
      return Err(hi.error);
    }
    if hi.value.Some? {
      filters := filters + [StartAtMost(hi.value.value)];
    }
    assert filters == Filters(lo.value, hi.value);
    var triage := XFilters(filters, items);
    var sorted := SortByStart(triage);
    r := Ok(Records(sorted));
  }
}
