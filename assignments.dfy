/** Creating one week's triage assignment: `add_triage_assignment_1w`
    (triage.py:167-175) checks that the start is a Monday and computes the
    Friday, and `add_triage_assignment` (triage.py:153-165) builds the
    all-day event and inserts it. */
module Assignments {
  import opened Util
  import opened Dates
  import opened DateText
  import opened CalendarStore

  const TriagePrefix: string := "Triage: "

  /** The event `add_triage_assignment` inserts. */
  function AssignmentBody(name: string, start: string, end: string): Body {
    Body(TriagePrefix + name, AllDay(start), AllDay(end))
  }

  /** What handling one request does to the calendar and the warnings. */
  datatype Plan =
    | Nothing
    | Warn(message: string)
    | Add(body: Body)
    | Stop(error: Error)

  function NotMonday(start: string): string {
    start + " is not a Monday, skipping..."
  }

  /** `add_triage_assignment_1w(name, start)`: a start that does not parse
      is strptime's ValueError; the rest depends on the date. */
  function WeekPlan(name: string, start: string): Plan {
    match S2D(start)
    case None => Stop(ValueError)
    case Some(d) => WeekPlanOn(name, start, d)
  }

  /** The decision for a start text that parsed to d: a date that is not a
      Monday is a warning; otherwise the event runs from the start to the
      Friday after it, whose computation may overflow past 9999-12-31 and
      whose formatting fails before 1900. */
  function WeekPlanOn(name: string, start: string, d: Date): Plan
    requires Valid(d)
  {
    if IsoWeekday(d) != 1 then Warn(NotMonday(start))
    else
      match AddDays(d, 5)
      case None => Stop(OverflowError)
      case Some(friday) =>
        match D2S(friday)
        case Err(e) => Stop(e)
        case Ok(end) => Add(AssignmentBody(name, start, end))
  }

  /** A start date gives a warning exactly when it is not a Monday, and an
      event only when it is one. */
  lemma WeekPlanMonday(name: string, start: string, d: Date)
    requires Valid(d)
    ensures WeekPlanOn(name, start, d).Warn? <==> IsoWeekday(d) != 1
    ensures WeekPlanOn(name, start, d).Warn? ==> WeekPlanOn(name, start, d).message == start + " is not a Monday, skipping..."
    ensures WeekPlanOn(name, start, d).Add? ==> IsoWeekday(d) == 1
  {
  }

  /** An event is added exactly for a Monday whose Friday exists and can be
      formatted; it is called "Triage: " + name and runs, all day, from the
      start text as given to the canonical text of the date five days later
      (which FormatParses reads back as that date). */
  lemma WeekPlanAdds(name: string, start: string, d: Date)
    requires Valid(d)
    ensures WeekPlanOn(name, start, d).Add? <==>
              IsoWeekday(d) == 1 && ToOrdinal(d) + 5 <= MaxOrdinal && FromOrdinal(ToOrdinal(d) + 5).year >= 1900
    ensures WeekPlanOn(name, start, d).Add? ==>
              var b := WeekPlanOn(name, start, d).body;
              && b.summary == "Triage: " + name
              && b.start == AllDay(start)
              && b.end == AllDay(Format(FromOrdinal(ToOrdinal(d) + 5)))
  {
    var p := WeekPlanOn(name, start, d);
    if IsoWeekday(d) != 1 {
      assert p == Warn(NotMonday(start));
    } else if ToOrdinal(d) + 5 > MaxOrdinal {
      assert p == Stop(OverflowError);
    } else {
      var f := FromOrdinal(ToOrdinal(d) + 5);
      assert AddDays(d, 5) == Some(f) by { AddDaysInRange(d, 5); }
      if f.year < 1900 {
        assert p == Stop(ValueError);
      } else {
        assert p == Add(AssignmentBody(name, start, Format(f)));
      }
    }
  }

  /** The last Monday Python can represent is 9999-12-27; its Friday would
      be 10000-01-01, so assigning it overflows. */
  lemma WeekPlanLastMonday()
    ensures WeekPlan("x", "9999-12-27") == Stop(OverflowError)
  {
    var d := Date(9999, 12, 27);
    assert S2D("9999-12-27") == Some(d) by {
      assert "9999-12-27"[..4] == "9999";
      assert "9999-12-27"[5..] == "12-27";
      assert MonthField("12-27") == Some((12, "27"));
      NumberOfFour("9999");
    }
    MaxOrdinalValue();
    NextMonth(9999, 12);
    assert ToOrdinal(d) == MaxOrdinal - 4;
  }

  /** The calendar and warnings before and after carrying out a plan
      whose only possible error is `status`. */
  ghost predicate Performed(p: Plan, before: seq<Event>, after: seq<Event>, warnings: seq<string>, status: Result<()>) {
    match p
    case Nothing => after == before && warnings == [] && status == Ok(())
    case Warn(w) => after == before && warnings == [w] && status == Ok(())
    case Stop(e) => after == before && warnings == [] && status == Err(e)
    case Add(b) =>
      && |after| == |before| + 1 && after[..|before|] == before
      && BodyOf(after[|before|]) == b && !HasId(before, after[|before|].id)
      && warnings == [] && status == Ok(())
  }

  /** Carries out a plan on the calendar. */
  method Perform(cal: Calendar, p: Plan) returns (warnings: seq<string>, status: Result<()>)
    requires cal.Valid()
    modifies cal
    ensures cal.Valid()
    ensures Performed(p, old(cal.events), cal.events, warnings, status)
  {
    match p {
      case Nothing =>
        return [], Ok(());
      case Warn(w) =>
        return [w], Ok(());
      case Stop(e) =>
        return [], Err(e);
      case Add(b) =>
        var event := cal.Insert(b);
        assert cal.events[..|old(cal.events)|] == old(cal.events);
        return [], Ok(());
    }
  }

  /** `add_triage_assignment_1w(service, calId, name, start)`. */
  method AddWeek(cal: Calendar, name: string, start: string) returns (warnings: seq<string>, status: Result<()>)
    requires cal.Valid()
    modifies cal
    ensures cal.Valid()
    ensures Performed(WeekPlan(name, start), old(cal.events), cal.events, warnings, status)
  {
    var start_dt := S2D(start);
    if start_dt.None? {
      return [], Err(ValueError);
    }
    assert WeekPlan(name, start) == WeekPlanOn(name, start, start_dt.value);
    if IsoWeekday(start_dt.value) != 1 {
      return [NotMonday(start)], Ok(());
    }
    var friday := AddDays(start_dt.value, 5);
    if friday.None? {
      return [], Err(OverflowError);
    }
    var end := D2S(friday.value);
    if end.Err? {
      return [], Err(end.error);
    }
    warnings, status := Perform(cal, Add(AssignmentBody(name, start, end.value)));
  }
}
