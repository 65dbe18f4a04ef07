/** `delete_triage_assignments` (triage.py:203-210) reports how many
    assignments lie in the window and deletes each of them by id;
    `delete_triage_assignment` (triage.py:200-201) is the window of one day. */
module Deletion {
  import opened Util
  import opened DateText
  import opened CalendarStore
  import opened Retrieval

  /** The count line printed before deleting (triage.py:206). */
  function FoundLine(n: nat): string {
    "Found " + Decimal(n) + " event" + Plural(n) + " to delete in time window."
  }

  /** The plural ending: "s" unless the count is one. */
  function Plural(n: nat): (s: string)
    ensures s == "s" <==> n != 1
    ensures s == "" <==> n == 1
  {
    if n != 1 then "s" else ""
  }

  /** `%s` of the record's start: Python prints a missing date as None. */
  function ShowStart(start: Option<string>): string {
    match start
    case None => "None"
    case Some(t) => t
  }

  function DeletingLine(a: Assignment): string {
    "Deleting assignment: " + ShowStart(a.start) + ": " + a.summary
  }

  function DeletingLines(items: seq<Assignment>): (r: seq<string>)
    ensures |r| == |items| && forall i :: 0 <= i < |items| ==> r[i] == DeletingLine(items[i])
  {
    seq(|items|, i requires 0 <= i < |items| => DeletingLine(items[i]))
  }

  /** An event whose start has neither field is reported with `None` for
      its date, as `%s` prints it. */
  lemma DeletingUnsetStart(e: Event)
    requires e.start.Unset?
    ensures DeletingLine(Record(e)) == "Deleting assignment: None: " + StripTriage(e.summary)
  {
  }

  /** What the tool prints for the records it deletes. */
  function Report(items: seq<Assignment>): (r: seq<string>)
    ensures |r| == |items| + 1 && r[0] == FoundLine(|items|)
    ensures forall i :: 0 <= i < |items| ==> r[i + 1] == DeletingLine(items[i])
  {
    [FoundLine(|items|)] + DeletingLines(items)
  }

  function Ids(items: seq<Assignment>): (r: seq<string>)
    ensures |r| == |items| && forall i :: 0 <= i < |items| ==> r[i] == items[i].id
  {
    seq(|items|, i requires 0 <= i < |items| => items[i].id)
  }

  /** The events once each of the ids has been deleted in turn. */
  function RemoveAll(events: seq<Event>, ids: seq<string>): (r: seq<Event>)
    ensures forall e :: e in r <==> e in events && e.id !in ids
    decreases |ids|
  {
    if ids == [] then events
    else RemoveId(RemoveAll(events, ids[..|ids| - 1]), ids[|ids| - 1])
  }

  /** An event occurring at two places of a sequence counts twice. */
  lemma CountedTwice(s: seq<Event>, i: nat, j: nat)
    requires i < j < |s| && s[i] == s[j]
    ensures multiset(s)[s[i]] >= 2
  {
    assert s == s[..j] + [s[j]] + s[j + 1..];
    assert s[i] in s[..j];
  }

  /** No two matched events share an id. */
  lemma MatchIdsDistinct(events: seq<Event>, lo: Option<string>, hi: Option<string>)
    requires DistinctIds(events)
    ensures var m := Matches(events, lo, hi);
      forall i, j :: 0 <= i < j < |m| ==> m[i].id != m[j].id
  {
    var m := Matches(events, lo, hi);
    MatchesMeaning(events, lo, hi);
    forall i, j | 0 <= i < j < |m|
      ensures m[i].id != m[j].id
    {
      if m[i].id == m[j].id {
        assert m[i] in m && m[j] in m;
        DistinctIdsUnique(events, m[i], m[j]);
        CountedTwice(m, i, j);
        DistinctIdsOnce(events, m[i]);
        assert false;
      }
    }
  }

  /** A listed event's id is among the ids of the matches exactly when
      the event is selected. */
  lemma MatchedId(events: seq<Event>, lo: Option<string>, hi: Option<string>, e: Event)
    requires DistinctIds(events) && e in events
    ensures e.id in Ids(Records(Matches(events, lo, hi))) <==> Selected(e, lo, hi)
  {
    var m := Matches(events, lo, hi);
    var ids := Ids(Records(m));
    MatchesMeaning(events, lo, hi);
    if e.id in ids {
      var j :| 0 <= j < |ids| && ids[j] == e.id;
      assert m[j] in m;
      DistinctIdsUnique(events, e, m[j]);
    }
    if Selected(e, lo, hi) {
      var j :| 0 <= j < |m| && m[j] == e;
      assert ids[j] == e.id;
    }
  }

  /** Deleting the ids of the matches removes exactly the selected events. */
  lemma DeletesSelected(events: seq<Event>, lo: Option<string>, hi: Option<string>)
    requires DistinctIds(events)
    ensures forall e :: e in RemoveAll(events, Ids(Records(Matches(events, lo, hi)))) <==> e in events && !Selected(e, lo, hi)
  {
    forall e | e in events {
      MatchedId(events, lo, hi, e);
    }
  }

  lemma DeletingLinesGrow(items: seq<Assignment>, i: nat)
    requires i < |items|
    ensures DeletingLines(items[..i + 1]) == DeletingLines(items[..i]) + [DeletingLine(items[i])]
  {
  }

  /** While deleting the matches in order, the next one is still held. */
  ghost predicate Deleting(events: seq<Event>, m: seq<Event>, items: seq<Assignment>, i: nat, now: seq<Event>) {
    && i <= |m| == |items|
    && (forall j :: 0 <= j < |m| ==> items[j] == Record(m[j]) && m[j] in events)
    && (forall j, k :: 0 <= j < k < |m| ==> m[j].id != m[k].id)
    && now == RemoveAll(events, Ids(items[..i]))
  }

  lemma DeletingNext(events: seq<Event>, m: seq<Event>, items: seq<Assignment>, i: nat, now: seq<Event>)
    requires Deleting(events, m, items, i, now) && i < |m|
    ensures HasId(now, items[i].id)
    ensures RemoveId(now, items[i].id) == RemoveAll(events, Ids(items[..i + 1]))
  {
    assert m[i].id !in Ids(items[..i]);
    assert m[i] in now;
    assert Ids(items[..i + 1])[..i] == Ids(items[..i]);
  }

  /** The matches of a calendar are ready to be deleted in order. */
  lemma DeletingStart(events: seq<Event>, lo: Option<string>, hi: Option<string>)
    requires DistinctIds(events)
    ensures Deleting(events, Matches(events, lo, hi), Records(Matches(events, lo, hi)), 0, events)
  {
    var m := Matches(events, lo, hi);
    var items := Records(m);
    assert forall j, k :: 0 <= j < k < |m| ==> m[j].id != m[k].id by {
      MatchIdsDistinct(events, lo, hi);
    }
    assert forall j :: 0 <= j < |m| ==> items[j] == Record(m[j]) && m[j] in events by {
      MatchesMeaning(events, lo, hi);
    }
    assert events == RemoveAll(events, Ids(items[..0])) by {
      assert Ids(items[..0]) == [];
    }
  }

  /** The loop of `delete_triage_assignments`: each record is printed and
      its event deleted by id, which the calendar never refuses. */
  method DeleteEach(cal: Calendar, items: seq<Assignment>, ghost m: seq<Event>) returns (lines: seq<string>)
    requires cal.Valid() && Deleting(cal.events, m, items, 0, cal.events)
    modifies cal
    ensures cal.Valid()
    ensures lines == DeletingLines(items)
    ensures cal.events == RemoveAll(old(cal.events), Ids(items))
    ensures |cal.events| == |old(cal.events)| - |items|
  {
    ghost var before := cal.events;
    lines := [];
    var i := 0;
    while i < |items|
      invariant 0 <= i <= |items|
      invariant cal.Valid()
      invariant Deleting(before, m, items, i, cal.events)
      invariant |cal.events| == |before| - i
      invariant lines == DeletingLines(items[..i])
    {
      lines := lines + [DeletingLine(items[i])];
      DeletingNext(before, m, items, i, cal.events);
      var s := cal.Delete(items[i].id);
      DeletingLinesGrow(items, i);
      i := i + 1;
    }
    assert items[..i] == items;
  }

  /** `delete_triage_assignments(service, calId, minStart, maxStart)`: what
      it prints, and the calendar after it. A malformed bound stops it
      before anything is deleted; otherwise every delete succeeds. */
  method DeleteAssignments(cal: Calendar, minStart: Option<string>, maxStart: Option<string>)
      returns (output: seq<string>, status: Result<()>)
    requires cal.Valid()
    modifies cal
    ensures cal.Valid()
    ensures var q := Query(old(cal.events), minStart, maxStart);
      && (q.Err? ==> output == [] && status == Err(q.error) && cal.events == old(cal.events))
      && (q.Ok? ==> output == Report(q.value) && status == Ok(())
                    && cal.events == RemoveAll(old(cal.events), Ids(q.value))
                    && |cal.events| == |old(cal.events)| - |q.value|)
  {
    var r := GetAssignments(cal, minStart, maxStart);
    if r.Err? {
      return [], Err(r.error);
    }
    var triage := r.value;
    ghost var m := Matches(cal.events, CheckDate(minStart).value, CheckDate(maxStart).value);
    DeletingStart(cal.events, CheckDate(minStart).value, CheckDate(maxStart).value);
    var lines := DeleteEach(cal, triage, m);
    output := [FoundLine(|triage|)] + lines;
    status := Ok(());
  }

  /** `delete_triage_assignment(service, calId, date)`. */
  method DeleteAssignment(cal: Calendar, date: string) returns (output: seq<string>, status: Result<()>)
    requires cal.Valid()
    modifies cal
    ensures cal.Valid()
    ensures var q := Query(old(cal.events), Some(date), Some(date));
      && (q.Err? ==> output == [] && status == Err(q.error) && cal.events == old(cal.events))
      && (q.Ok? ==> output == Report(q.value) && status == Ok(())
                    && cal.events == RemoveAll(old(cal.events), Ids(q.value)))
  {
    output, status := DeleteAssignments(cal, Some(date), Some(date));
  }
}
