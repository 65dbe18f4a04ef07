/** `generate_triage_assignments` (triage.py:121-138): one "DATE: NAME" line
    per Monday from the first Monday on or after minDate up to maxDate,
    cycling through the names. */
module Schedule {
  import opened Util
  import opened Dates
  import opened DateText

  /** The names cycled over: no names stands for a single unnamed slot. */
  function Rotation(names: seq<string>): (r: seq<string>)
    ensures |r| >= 1
    ensures |names| > 0 ==> r == names
  {
    if |names| == 0 then [""] else names
  }

  /** The earliest Monday on or after day number n. */
  function FirstMonday(n: int): int {
    n + (8 - OrdinalWeekday(n)) % 7
  }

  lemma FirstMondayIsEarliest(n: int)
    ensures n <= FirstMonday(n) < n + 7
    ensures OrdinalWeekday(FirstMonday(n)) == 1
    ensures forall k :: n <= k < FirstMonday(n) ==> OrdinalWeekday(k) != 1
  {
  }

  /** How many of the days first, first + 7, first + 14, ... do not pass hi. */
  function Weeks(first: int, hi: int): (count: nat)
    ensures count > 0 ==> first + 7 * (count - 1) <= hi
    ensures first + 7 * count > hi
  {
    if first > hi then 0 else (hi - first) / 7 + 1
  }

  /** One output line: the formatted date, a colon and a space, and the name. */
  function Line(d: Date, name: string): string
    requires Valid(d)
  {
    Format(d) + ": " + name
  }

  /** The line of week j from day number first: the Monday first + 7j and
      the name at position j of the cycle. */
  function WeekLine(rot: seq<string>, first: int, j: nat): string
    requires |rot| >= 1 && 1 <= first && first + 7 * j <= MaxOrdinal
  {
    Line(FromOrdinal(first + 7 * j), rot[j % |rot|])
  }

  /** Weeks counts exactly the steps that stay within hi. */
  lemma WeeksIs(first: int, hi: int, n: nat)
    requires n > 0 ==> first + 7 * (n - 1) <= hi
    requires first + 7 * n > hi
    ensures Weeks(first, hi) == n
  {
  }

  /** The lines of the first `count` weeks from day number first. */
  function Lines(rot: seq<string>, first: int, count: nat): (lines: seq<string>)
    requires |rot| >= 1 && 1 <= first
    requires count > 0 ==> first + 7 * (count - 1) <= MaxOrdinal
    ensures |lines| == count
  {
    seq(count, j requires 0 <= j < count => WeekLine(rot, first, j))
  }

  /** Line k is the line of week k. */
  lemma LinesAt(rot: seq<string>, first: int, count: nat, k: nat)
    requires |rot| >= 1 && 1 <= first
    requires count > 0 ==> first + 7 * (count - 1) <= MaxOrdinal
    requires k < count
    ensures first + 7 * k <= MaxOrdinal
    ensures Lines(rot, first, count)[k] == WeekLine(rot, first, k)
  {
    assert 7 * k <= 7 * (count - 1);
  }

  /** The lines of one more week begin with the lines of the weeks before. */
  lemma LinesPrefix(rot: seq<string>, first: int, i: nat)
    requires |rot| >= 1 && 1 <= first && first + 7 * i <= MaxOrdinal
    ensures Lines(rot, first, i + 1)[..i] == Lines(rot, first, i)
  {
    var grown := Lines(rot, first, i + 1);
    forall j | 0 <= j < i
      ensures grown[j] == Lines(rot, first, i)[j]
    {
      assert 7 * j <= 7 * i;
    }
  }

  /** Printing the line of Monday d, week i, extends the lines of weeks
      0 .. i-1 to those of weeks 0 .. i. */
  lemma LinesGrow(rot: seq<string>, first: int, i: nat, d: Date)
    requires |rot| >= 1 && 1 <= first && Valid(d) && ToOrdinal(d) == first + 7 * i
    ensures first + 7 * i <= MaxOrdinal
    ensures Lines(rot, first, i) + [Format(d) + ": " + rot[i % |rot|]] == Lines(rot, first, i + 1)
  {
    LinesLast(rot, first, i, d);
    LinesPrefix(rot, first, i);
    Snoc(Lines(rot, first, i), Lines(rot, first, i + 1), Format(d) + ": " + rot[i % |rot|]);
  }

  /** The line of week i is that of its Monday d. */
  lemma LinesLast(rot: seq<string>, first: int, i: nat, d: Date)
    requires |rot| >= 1 && 1 <= first && Valid(d) && ToOrdinal(d) == first + 7 * i
    ensures first + 7 * i <= MaxOrdinal
    ensures Lines(rot, first, i + 1)[i] == Format(d) + ": " + rot[i % |rot|]
  {
    ValidIffInRange(d);
    FromOrdinalToOrdinal(d);
    assert FromOrdinal(first + 7 * i) == d;
  }

  /** What a run prints, and how it stops if it does not finish. */
  datatype Output = Output(lines: seq<string>, error: Option<Error>)

  /** The printed lines for the Mondays from day number first (a Monday
      Python can represent) up to day number hi. strftime fails on the
      first line when its year is before 1900, and the step past the last
      printed Monday overflows when it would pass 9999-12-31, after all
      lines are out. */
  function Weekly(rot: seq<string>, first: int, hi: int): Output
    requires |rot| >= 1 && 1 <= first <= MaxOrdinal && hi <= MaxOrdinal
  {
    var count := Weeks(first, hi);
    if count > 0 && FromOrdinal(first).year < 1900 then Output([], Some(ValueError))
    else
      Output(Lines(rot, first, count),
             if count > 0 && first + 7 * count > MaxOrdinal then Some(OverflowError) else None)
  }

  /** Weekly when every Monday up to hi is printed. */
  lemma WeeklyFinishes(rot: seq<string>, first: int, hi: int, n: nat)
    requires |rot| >= 1 && 1 <= first <= MaxOrdinal && hi <= MaxOrdinal
    requires n > 0 ==> first + 7 * (n - 1) <= hi && FromOrdinal(first).year >= 1900
    requires hi < first + 7 * n <= MaxOrdinal
    ensures Weekly(rot, first, hi) == Output(Lines(rot, first, n), None)
  {
    WeeksIs(first, hi, n);
  }

  /** Weekly when the first Monday is before 1900. */
  lemma WeeklyEarlyYear(rot: seq<string>, first: int, hi: int)
    requires |rot| >= 1 && 1 <= first <= MaxOrdinal && hi <= MaxOrdinal
    requires first <= hi && FromOrdinal(first).year < 1900
    ensures Weekly(rot, first, hi) == Output([], Some(ValueError))
  {
  }

  /** Weekly when the step past the n-th Monday overflows. */
  lemma WeeklyOverflows(rot: seq<string>, first: int, hi: int, n: nat)
    requires |rot| >= 1 && 1 <= first <= MaxOrdinal && hi <= MaxOrdinal
    requires n > 0 && first + 7 * (n - 1) <= hi && FromOrdinal(first).year >= 1900
    requires first + 7 * n > MaxOrdinal
    ensures Weekly(rot, first, hi) == Output(Lines(rot, first, n), Some(OverflowError))
  {
    WeeksIs(first, hi, n);
  }

  /** The printed lines for day numbers lo and hi of minDate and maxDate:
      stepping a day at a time to the first Monday overflows when that
      Monday is past 9999-12-31. */
  function Emit(rot: seq<string>, lo: int, hi: int): Output
    requires |rot| >= 1 && 1 <= lo && hi <= MaxOrdinal
  {
    var first := FirstMonday(lo);
    if first > MaxOrdinal then Output([], Some(OverflowError)) else Weekly(rot, first, hi)
  }

  /** The specification of generation on the two date texts: a text that
      strptime refuses is a ValueError before anything is printed. */
  function Generated(names: seq<string>, minDate: string, maxDate: string): (out: Output)
    ensures S2D(minDate).None? || S2D(maxDate).None? ==> out == Output([], Some(ValueError))
  {
    match S2D(minDate)
    case None => Output([], Some(ValueError))
    case Some(lo) =>
      match S2D(maxDate)
      case None => Output([], Some(ValueError))
      case Some(hi) => GeneratedOn(names, lo, hi)
  }

  /** Generation from the dates minDate and maxDate parse to. */
  function GeneratedOn(names: seq<string>, lo: Date, hi: Date): Output
    requires Valid(lo) && Valid(hi)
  {
    ValidIffInRange(hi);
    FromOrdinalToOrdinal(lo);
    Emit(Rotation(names), ToOrdinal(lo), ToOrdinal(hi))
  }

  /** No names behaves exactly as the single name "". */
  lemma GeneratedNoNames(minDate: string, maxDate: string)
    ensures Generated([], minDate, maxDate) == Generated([""], minDate, maxDate)
  {
  }

  /** Every printed line is that of a Monday between lo and hi, the k-th
      one k weeks after the first Monday on or after lo, naming entry k of
      the cycle. */
  lemma EmitLines(rot: seq<string>, lo: int, hi: int, k: nat)
    requires |rot| >= 1 && 1 <= lo && hi <= MaxOrdinal
    requires k < |Emit(rot, lo, hi).lines|
    ensures lo <= FirstMonday(lo) + 7 * k <= hi
    ensures OrdinalWeekday(FirstMonday(lo) + 7 * k) == 1
    ensures Emit(rot, lo, hi).lines[k] == WeekLine(rot, FirstMonday(lo), k)
  {
    var first := FirstMonday(lo);
    EmitPrints(rot, lo, hi);
    var count := Weeks(first, hi);
    assert first + 7 * k <= first + 7 * (count - 1);
    LinesAt(rot, first, count, k);
    FirstMondayIsEarliest(lo);
    MondaysRecur(first, k);
  }

  /** Output that has lines comes from weekly printing from the first Monday. */
  lemma EmitPrints(rot: seq<string>, lo: int, hi: int)
    requires |rot| >= 1 && 1 <= lo && hi <= MaxOrdinal
    requires |Emit(rot, lo, hi).lines| > 0
    ensures FirstMonday(lo) <= MaxOrdinal
    ensures Emit(rot, lo, hi).lines == Lines(rot, FirstMonday(lo), Weeks(FirstMonday(lo), hi))
  {
  }

  /** Stepping whole weeks from a Monday lands on Mondays. */
  lemma {:induction false} MondaysRecur(first: int, k: nat)
    requires OrdinalWeekday(first) == 1
    ensures OrdinalWeekday(first + 7 * k) == 1
  {
    if k > 0 {
      MondaysRecur(first, k - 1);
      WeekLaterSameWeekday(first + 7 * (k - 1));
    }
  }

  /** Unless strftime failed, every Monday between lo and hi is printed, at
      its position in the sequence of weeks. */
  lemma EmitComplete(rot: seq<string>, lo: int, hi: int, n: int)
    requires |rot| >= 1 && 1 <= lo && hi <= MaxOrdinal
    requires Emit(rot, lo, hi).error != Some(ValueError)
    requires lo <= n <= hi && OrdinalWeekday(n) == 1
    ensures FirstMonday(lo) <= n && n == FirstMonday(lo) + 7 * ((n - FirstMonday(lo)) / 7)
    ensures (n - FirstMonday(lo)) / 7 < |Emit(rot, lo, hi).lines|
  {
    var first := FirstMonday(lo);
    FirstMondayIsEarliest(lo);
    assert first <= n;
    assert n % 7 == first % 7;
    var q := n / 7 - first / 7;
    assert n == first + 7 * q;
    assert q == (n - first) / 7;
    assert first <= MaxOrdinal;
    var count := Weeks(first, hi);
    assert q < count;
    assert Emit(rot, lo, hi).lines == Lines(rot, first, count);
  }

  /** How Emit stops: strftime fails exactly when there is a Monday to
      print and the first one is before 1900, and then nothing is printed;
      otherwise the run overflows exactly when the Monday after the last
      printed one is past 9999-12-31. */
  lemma EmitErrors(rot: seq<string>, lo: int, hi: int)
    requires |rot| >= 1 && 1 <= lo && hi <= MaxOrdinal
    ensures var out, first := Emit(rot, lo, hi), FirstMonday(lo);
      && (out.error == Some(ValueError) <==> first <= hi && FromOrdinal(first).year < 1900)
      && (out.error == Some(ValueError) ==> out.lines == [])
      && (out.error == Some(OverflowError) <==>
            !(first <= hi && FromOrdinal(first).year < 1900) && first + 7 * |out.lines| > MaxOrdinal)
      && (out.error == None <==>
            !(first <= hi && FromOrdinal(first).year < 1900) && first + 7 * |out.lines| <= MaxOrdinal)
  {
    FirstMondayIsEarliest(lo);
  }

  /** Monday number k of a run from lo: k weeks after the first Monday on
      or after lo. */
  function NthMonday(lo: Date, k: nat): (d: Date)
    requires WellFormed(lo)
    ensures WellFormed(d) && ToOrdinal(d) == FirstMonday(ToOrdinal(lo)) + 7 * k
  {
    FromOrdinalToOrdinal(lo);
    FirstMondayIsEarliest(ToOrdinal(lo));
    FromOrdinal(FirstMonday(ToOrdinal(lo)) + 7 * k)
  }

  /** The date k weeks after the first Monday on or after lo is Monday
      number k. */
  lemma NthMondayAt(lo: Date, k: nat, d: Date)
    requires WellFormed(lo) && WellFormed(d) && ToOrdinal(d) == FirstMonday(ToOrdinal(lo)) + 7 * k
    ensures NthMonday(lo, k) == d
  {
    FromOrdinalToOrdinal(lo);
    FromOrdinalToOrdinal(d);
  }

  /** Monday number 0 is the first Monday on or after lo. */
  lemma NthMondayZero(lo: Date)
    requires WellFormed(lo)
    ensures FromOrdinal(FirstMonday(ToOrdinal(lo))) == NthMonday(lo, 0)
  {
    FromOrdinalToOrdinal(lo);
  }

  /** The line of week k from lo's first Monday is that of Monday number k. */
  lemma WeekLineOfNthMonday(rot: seq<string>, lo: Date, k: nat)
    requires |rot| >= 1 && WellFormed(lo) && FirstMonday(ToOrdinal(lo)) + 7 * k <= MaxOrdinal
    ensures Valid(NthMonday(lo, k))
    ensures WeekLine(rot, FirstMonday(ToOrdinal(lo)), k) == Line(NthMonday(lo, k), rot[k % |rot|])
  {
    FromOrdinalToOrdinal(lo);
  }

  /** Monday number k is a Monday on or after lo. */
  lemma NthMondayIsMonday(lo: Date, k: nat)
    requires WellFormed(lo)
    ensures IsoWeekday(NthMonday(lo, k)) == 1 && !Before(NthMonday(lo, k), lo)
  {
    var n := ToOrdinal(lo);
    FirstMondayIsEarliest(n);
    MondaysRecur(FirstMonday(n), k);
    BeforeIsOrdinalOrder(NthMonday(lo, k), lo);
  }

  /** Monday number 0 is the earliest Monday on or after lo. */
  lemma NthMondayFirst(lo: Date)
    requires WellFormed(lo)
    ensures forall e :: WellFormed(e) && !Before(e, lo) && Before(e, NthMonday(lo, 0)) ==> IsoWeekday(e) != 1
  {
    var n := ToOrdinal(lo);
    FirstMondayIsEarliest(n);
    forall e | WellFormed(e) && !Before(e, lo) && Before(e, NthMonday(lo, 0))
      ensures IsoWeekday(e) != 1
    {
      BeforeIsOrdinalOrder(e, lo);
      BeforeIsOrdinalOrder(e, NthMonday(lo, 0));
    }
  }

  /** Each further Monday is the one a week after the one before. */
  lemma NthMondayNext(lo: Date, k: nat)
    requires WellFormed(lo)
    ensures Valid(NthMonday(lo, k + 1)) ==>
              Valid(NthMonday(lo, k)) && AddDays(NthMonday(lo, k), 7) == Some(NthMonday(lo, k + 1))
  {
    var d, d' := NthMonday(lo, k), NthMonday(lo, k + 1);
    if Valid(d') {
      ValidIffInRange(d');
      ValidIffInRange(d);
      AddDays7(d, d');
    }
  }

  lemma AddDays7(d: Date, d': Date)
    requires Valid(d) && Valid(d') && ToOrdinal(d') == ToOrdinal(d) + 7
    ensures AddDays(d, 7) == Some(d')
  {
    ValidIffInRange(d');
    var r := AddDays(d, 7);
    BeforeIsOrdinalOrder(r.value, d');
  }

  /** The k-th printed line names Monday number k from minDate, which lies
      between minDate and maxDate, and entry k (cyclically) of the names. */
  lemma GeneratedLine(names: seq<string>, lo: Date, hi: Date, k: nat)
    requires Valid(lo) && Valid(hi)
    requires k < |GeneratedOn(names, lo, hi).lines|
    ensures var rot := Rotation(names);
      && Valid(NthMonday(lo, k)) && IsoWeekday(NthMonday(lo, k)) == 1
      && !Before(NthMonday(lo, k), lo) && !Before(hi, NthMonday(lo, k))
      && GeneratedOn(names, lo, hi).lines[k] == Line(NthMonday(lo, k), rot[k % |rot|])
  {
    var rot := Rotation(names);
    ValidIffInRange(hi);
    FromOrdinalToOrdinal(lo);
    var out := Emit(rot, ToOrdinal(lo), ToOrdinal(hi));
    assert GeneratedOn(names, lo, hi) == out;
    EmitLines(rot, ToOrdinal(lo), ToOrdinal(hi), k);
    WeekLineOfNthMonday(rot, lo, k);
    var d := NthMonday(lo, k);
    NthMondayIsMonday(lo, k);
    BeforeIsOrdinalOrder(hi, d);
    ValidIffInRange(d);
  }

  /** Unless strftime failed, every Monday between minDate and maxDate is
      printed. */
  lemma GeneratedComplete(names: seq<string>, lo: Date, hi: Date, d: Date)
    requires Valid(lo) && Valid(hi)
    requires GeneratedOn(names, lo, hi).error != Some(ValueError)
    requires Valid(d) && IsoWeekday(d) == 1 && !Before(d, lo) && !Before(hi, d)
    ensures exists k: nat :: k < |GeneratedOn(names, lo, hi).lines| && NthMonday(lo, k) == d
  {
    var rot := Rotation(names);
    ValidIffInRange(hi);
    FromOrdinalToOrdinal(lo);
    BeforeIsOrdinalOrder(d, lo);
    BeforeIsOrdinalOrder(hi, d);
    var out := Emit(rot, ToOrdinal(lo), ToOrdinal(hi));
    assert GeneratedOn(names, lo, hi) == out;
    EmitComplete(rot, ToOrdinal(lo), ToOrdinal(hi), ToOrdinal(d));
    var k := (ToOrdinal(d) - FirstMonday(ToOrdinal(lo))) / 7;
    NthMondayAt(lo, k, d);
  }

  /** How a run on two dates stops: strftime's ValueError comes exactly
      when the first Monday is within maxDate and before 1900, and then
      nothing is printed; otherwise the run overflows exactly when the
      Monday after the last printed one is past 9999-12-31, and finishes
      cleanly when it is not. */
  lemma GeneratedStops(names: seq<string>, lo: Date, hi: Date)
    requires Valid(lo) && Valid(hi)
    ensures var out := GeneratedOn(names, lo, hi);
      var early := !Before(hi, NthMonday(lo, 0)) && NthMonday(lo, 0).year < 1900;
      && (out.error == Some(ValueError) <==> early)
      && (early ==> out.lines == [])
      && (out.error == Some(OverflowError) <==> !early && !Valid(NthMonday(lo, |out.lines|)))
      && (out.error == None <==> !early && Valid(NthMonday(lo, |out.lines|)))
  {
    ValidIffInRange(hi);
    FromOrdinalToOrdinal(lo);
    var out := Emit(Rotation(names), ToOrdinal(lo), ToOrdinal(hi));
    assert GeneratedOn(names, lo, hi) == out;
    EmitErrors(Rotation(names), ToOrdinal(lo), ToOrdinal(hi));
    BeforeIsOrdinalOrder(hi, NthMonday(lo, 0));
    NthMondayZero(lo);
    ValidIffInRange(NthMonday(lo, |out.lines|));
  }

  /** `generate_triage_assignments`, with the printed lines returned. */
  method Generate(names: seq<string>, minDate: string, maxDate: string) returns (out: Output)
    ensures out == Generated(names, minDate, maxDate)
  {
    var rot := names;
    if |rot| == 0 {
      rot := [""];
    }
    var start := S2D(minDate);
    if start.None? {
      return Output([], Some(ValueError));
    }
    var stop := S2D(maxDate);
    if stop.None? {
      return Output([], Some(ValueError));
    }
    ValidIffInRange(stop.value);
    FromOrdinalToOrdinal(start.value);
    var monday := ToMonday(start.value);
    if monday.None? {
      return Output([], Some(OverflowError));
    }
    out := EmitWeeks(rot, monday.value, stop.value);
  }

  /** The day-by-day search for a Monday (triage.py:131-132); None is the
      OverflowError of stepping past 9999-12-31. */
  method ToMonday(start: Date) returns (monday: Option<Date>)
    requires Valid(start)
    ensures monday.None? <==> FirstMonday(ToOrdinal(start)) > MaxOrdinal
    ensures monday.Some? ==> Valid(monday.value) && ToOrdinal(monday.value) == FirstMonday(ToOrdinal(start))
  {
    ghost var n := ToOrdinal(start);
    NotYetMonday(n, n);
    var date := start;
    while IsoWeekday(date) != 1
      invariant Valid(date) && n <= ToOrdinal(date) <= FirstMonday(n)
      decreases FirstMonday(n) - ToOrdinal(date)
    {
      NotYetMonday(n, ToOrdinal(date));
      var next := AddDays(date, 1);
      if next.None? {
        return None;
      }
      date := next.value;
    }
    MondayReached(n, ToOrdinal(date));
    ValidIffInRange(date);
    return Some(date);
  }

  /** A day from n on that is not a Monday comes before the first Monday. */
  lemma NotYetMonday(n: int, x: int)
    requires n <= x && (x <= FirstMonday(n) || x == n)
    ensures x == n ==> x <= FirstMonday(n)
    ensures OrdinalWeekday(x) != 1 ==> x < FirstMonday(n)
  {
    FirstMondayIsEarliest(n);
  }

  /** The first Monday from n on is the one the day-by-day search stops at. */
  lemma MondayReached(n: int, x: int)
    requires n <= x <= FirstMonday(n) && OrdinalWeekday(x) == 1
    ensures x == FirstMonday(n)
  {
    FirstMondayIsEarliest(n);
  }

  /** The state of the printing loop after i lines: date is Monday number i,
      the lines are those of weeks 0 .. i-1, all within hi and printable. */
  ghost predicate Printed(rot: seq<string>, first: int, hi: int, monday: Date, date: Date, lines: seq<string>, i: nat)
    requires |rot| >= 1 && 1 <= first
  {
    Valid(date) && ToOrdinal(date) == first + 7 * i && first + 7 * i <= MaxOrdinal
    && hi <= MaxOrdinal && (i > 0 ==> first + 7 * (i - 1) <= hi)
    && lines == Lines(rot, first, i)
    && (i == 0 ==> date == monday)
    && (i > 0 ==> monday.year >= 1900 && date.year >= 1900)
  }

  /** Printing Monday date (on or before hi) and stepping to next, a week
      later, keeps the loop state. */
  lemma PrintedStep(rot: seq<string>, first: int, hi: int, monday: Date, date: Date, lines: seq<string>, i: nat, next: Date)
    requires |rot| >= 1 && 1 <= first
    requires Printed(rot, first, hi, monday, date, lines, i)
    requires first + 7 * i <= hi && date.year >= 1900
    requires Valid(next) && ToOrdinal(next) == ToOrdinal(date) + 7
    ensures Printed(rot, first, hi, monday, next, lines + [Format(date) + ": " + rot[i % |rot|]], i + 1)
  {
    LinesGrow(rot, first, i, date);
    BeforeIsOrdinalOrder(date, next);
    ValidIffInRange(next);
  }

  /** The weekly printing loop over the cycled names (triage.py:134-138). */
  method EmitWeeks(rot: seq<string>, monday: Date, end: Date) returns (out: Output)
    requires |rot| >= 1 && Valid(monday) && Valid(end)
    ensures (ValidIffInRange(monday); ValidIffInRange(end); FromOrdinalToOrdinal(monday);
             out == Weekly(rot, ToOrdinal(monday), ToOrdinal(end)))
  {
    ValidIffInRange(monday);
    ValidIffInRange(end);
    FromOrdinalToOrdinal(monday);
    ghost var first, hi := ToOrdinal(monday), ToOrdinal(end);
    var date := monday;
    var lines: seq<string> := [];
    var i := 0;
    assert Printed(rot, first, hi, monday, date, lines, i);
    while true
      invariant Printed(rot, first, hi, monday, date, lines, i)
      decreases hi - ToOrdinal(date)
    {
      var done;
      done, out, date, lines := PrintWeek(rot, end, first, hi, monday, date, lines, i);
      if done {
        return;
      }
      i := i + 1;
    }
  }

  /** One turn of the loop: stop once the date passes end, otherwise print
      the date's line and step a week, either of which may fail. */
  method PrintWeek(rot: seq<string>, end: Date, ghost first: int, ghost hi: int, ghost monday: Date,
                   date: Date, lines: seq<string>, i: nat)
      returns (done: bool, out: Output, date': Date, lines': seq<string>)
    requires |rot| >= 1 && 1 <= first && Valid(end) && ToOrdinal(end) == hi
    requires Valid(monday) && ToOrdinal(monday) == first
    requires Printed(rot, first, hi, monday, date, lines, i)
    ensures done ==> out == Weekly(rot, first, hi)
    ensures !done ==> Printed(rot, first, hi, monday, date', lines', i + 1)
    ensures !done ==> ToOrdinal(date) <= hi && ToOrdinal(date') == ToOrdinal(date) + 7
  {
    date', lines' := date, lines;
    BeforeIsOrdinalOrder(end, date);
    if Before(end, date) {
      PrintedPast(rot, first, hi, monday, date, lines, i);
      return true, Output(lines, None), date', lines';
    }
    var text := D2S(date);
    if text.Err? {
      PrintedEarly(rot, first, hi, monday, date, lines, i);
      return true, Output(lines, Some(ValueError)), date', lines';
    }
    var next := AddDays(date, 7);
    if next.None? {
      PrintedLast(rot, first, hi, monday, date, lines, i);
      return true, Output(lines + [text.value + ": " + rot[i % |rot|]], Some(OverflowError)), date', lines';
    }
    PrintedStep(rot, first, hi, monday, date, lines, i, next.value);
    return false, Output([], None), next.value, lines + [text.value + ": " + rot[i % |rot|]];
  }

  /** A date past end finishes the output with the lines printed so far. */
  lemma PrintedPast(rot: seq<string>, first: int, hi: int, monday: Date, date: Date, lines: seq<string>, i: nat)
    requires |rot| >= 1 && 1 <= first && Valid(monday) && ToOrdinal(monday) == first
    requires Printed(rot, first, hi, monday, date, lines, i) && hi < ToOrdinal(date)
    ensures Weekly(rot, first, hi) == Output(lines, None)
  {
    FromOrdinalToOrdinal(monday);
    WeeklyFinishes(rot, first, hi, i);
  }

  /** A date due to be printed before 1900 can only be the first one. */
  lemma PrintedEarly(rot: seq<string>, first: int, hi: int, monday: Date, date: Date, lines: seq<string>, i: nat)
    requires |rot| >= 1 && 1 <= first && Valid(monday) && ToOrdinal(monday) == first
    requires Printed(rot, first, hi, monday, date, lines, i) && ToOrdinal(date) <= hi && date.year < 1900
    ensures Weekly(rot, first, hi) == Output(lines, Some(ValueError))
  {
    FromOrdinalToOrdinal(monday);
    WeeklyEarlyYear(rot, first, hi);
  }

  /** A date printed with no date a week later ends the output in overflow. */
  lemma PrintedLast(rot: seq<string>, first: int, hi: int, monday: Date, date: Date, lines: seq<string>, i: nat)
    requires |rot| >= 1 && 1 <= first && Valid(monday) && ToOrdinal(monday) == first
    requires Printed(rot, first, hi, monday, date, lines, i) && ToOrdinal(date) <= hi && date.year >= 1900
    requires ToOrdinal(date) + 7 > MaxOrdinal
    ensures Weekly(rot, first, hi) == Output(lines + [Format(date) + ": " + rot[i % |rot|]], Some(OverflowError))
  {
    FromOrdinalToOrdinal(monday);
    LinesGrow(rot, first, i, date);
    WeeklyOverflows(rot, first, hi, i + 1);
  }
}
