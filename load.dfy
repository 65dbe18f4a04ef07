/** `load_triage_assignments` (triage.py:141-151): every line of the input
    that is not blank must read `DATE: NAME`, with the date shaped like
    `20YY-M-D` (one or two digit month and day); other lines are skipped
    with a warning, and each good line becomes a week's assignment. */
module Loading {
  import opened Util
  import opened Dates
  import opened DateText
  import opened CalendarStore
  import opened Assignments

  /** The text without its leading whitespace. */
  function LStrip(s: string): (r: string)
    ensures |r| <= |s| && s[|s| - |r|..] == r
    ensures r != [] ==> !IsSpace(r[0])
    decreases |s|
  {
    if s != [] && IsSpace(s[0]) then LStrip(s[1..]) else s
  }

  /** The text without its trailing whitespace. */
  function RStrip(s: string): (r: string)
    ensures |r| <= |s| && s[..|r|] == r
    ensures r != [] ==> !IsSpace(r[|r| - 1])
    decreases |s|
  {
    if s != [] && IsSpace(s[|s| - 1]) then RStrip(s[..|s| - 1]) else s
  }

  /** What LStrip removes is whitespace. */
  lemma {:induction false} LStripRemovesSpaces(s: string)
    ensures AllSpace(s[..|s| - |LStrip(s)|])
    decreases |s|
  {
    if s != [] && IsSpace(s[0]) {
      LStripRemovesSpaces(s[1..]);
      var k := |s| - |LStrip(s)|;
      assert forall i :: 1 <= i < k ==> s[i] == s[1..][..k - 1][i - 1];
    }
  }

  /** What RStrip removes is whitespace. */
  lemma {:induction false} RStripRemovesSpaces(s: string)
    ensures AllSpace(s[|RStrip(s)|..])
    decreases |s|
  {
    if s != [] && IsSpace(s[|s| - 1]) {
      RStripRemovesSpaces(s[..|s| - 1]);
      var k := |RStrip(s)|;
      assert forall i :: k <= i < |s| - 1 ==> s[i] == s[..|s| - 1][k..][i - k];
    }
  }

  /** The line without its trailing newlines, as the warning shows it. */
  function RStripNewlines(s: string): (r: string)
    ensures |r| <= |s| && s[..|r|] == r
    ensures forall i :: |r| <= i < |s| ==> s[i] == '\n'
    ensures r != [] ==> r[|r| - 1] != '\n'
    decreases |s|
  {
    if s != [] && s[|s| - 1] == '\n' then RStripNewlines(s[..|s| - 1]) else s
  }

  /** Length of a `\d{1,2}` field of t followed by the character sep. */
  function DigitsBefore(t: string, sep: char): (n: nat)
    ensures n <= 2
    ensures n > 0 ==> n < |t| && AllDigits(t[..n]) && t[n] == sep
  {
    if 3 <= |t| && IsDigit(t[0]) && IsDigit(t[1]) && t[2] == sep then 2
    else if 2 <= |t| && IsDigit(t[0]) && t[1] == sep then 1
    else 0
  }

  /** `20\d{2}-\d{m}-\d{d}`. */
  predicate LoadDateSplit(t: string, m: nat, d: nat) {
    |t| == 6 + m + d && t[..2] == "20" && AllDigits(t[2..4]) && t[4] == '-'
    && AllDigits(t[5..5 + m]) && t[5 + m] == '-' && AllDigits(t[6 + m..])
  }

  /** The date shape of the pattern: `20\d{2}-\d{1,2}-\d{1,2}`. */
  predicate IsLoadDate(t: string) {
    LoadDateSplit(t, 1, 1) || LoadDateSplit(t, 1, 2) || LoadDateSplit(t, 2, 1) || LoadDateSplit(t, 2, 2)
  }

  /** Length of the date field at the start of r, followed by ':'. */
  function DateField(r: string): (n: nat)
    ensures n > 0 ==> n < |r| && r[n] == ':'
  {
    if 5 <= |r| && r[0] == '2' && r[1] == '0' && IsDigit(r[2]) && IsDigit(r[3]) && r[4] == '-' then
      var m := DigitsBefore(r[5..], '-');
      if m == 0 then 0
      else
        var d := DigitsBefore(r[6 + m..], ':');
        if d == 0 then 0 else 6 + m + d
    else 0
  }

  /** The date field found at the start of a text has the pattern's shape. */
  lemma DateFieldShape(r: string)
    requires DateField(r) > 0
    ensures IsLoadDate(r[..DateField(r)])
  {
    var n := DateField(r);
    var t := r[..n];
    var m := DigitsBefore(r[5..], '-');
    var d := DigitsBefore(r[6 + m..], ':');
    assert t[..2] == r[..2] == "20";
    assert t[2..4] == r[2..4];
    assert t[5..5 + m] == r[5..][..m];
    assert t[6 + m..] == r[6 + m..][..d];
    assert LoadDateSplit(t, m, d);
  }

  /** A date of the pattern's shape followed by a colon is found whole. */
  lemma DateFieldAccepts(date: string, m: nat, d: nat, tail: string)
    requires 1 <= m <= 2 && 1 <= d <= 2 && LoadDateSplit(date, m, d)
    ensures DateField(date + (":" + tail)) == |date|
  {
    var r := date + (":" + tail);
    assert r[..|date|] == date;
    assert r[..5] == date[..5];
    assert DigitsBefore(r[5..], '-') == m by {
      assert r[5..][..m] == date[5..5 + m];
      assert r[5..][m] == '-';
    }
    assert DigitsBefore(r[6 + m..], ':') == d by {
      assert r[6 + m..][..d] == date[6 + m..];
      assert r[6 + m..][d] == ':';
    }
  }

  /** The loader's line pattern (triage.py:145) and its two groups. The
      leading whitespace can only stop where the date starts, the digit fields are followed by fixed characters, and the name is what
      is left once the whitespace on both sides is stripped: it must not be
      empty and, as `.` does not match a newline, must not hold one. */
  function MatchLine(line: string): (m: Option<(string, string)>)
    ensures m.Some? ==> IsLoadDate(m.value.0)
    ensures m.Some? ==> var name := m.value.1;
      name != [] && !IsSpace(name[0]) && !IsSpace(name[|name| - 1]) && '\n' !in name
  {
    var r := LStrip(line);
    var n := DateField(r);
    if n == 0 then None
    else
      var after := LStrip(r[n + 1..]);
      var name := RStrip(after);
      if name == [] || '\n' in name then None
      else
        DateFieldShape(r);
        assert name[0] == after[0];
        Some((r[..n], name))
  }

  /** Every line made of whitespace, a date of the pattern's shape, a colon,
      whitespace, a name that starts and ends with a non-space and holds no
      newline, and whitespace, matches with exactly that date and name. */
  lemma MatchLineAccepts(lead: string, date: string, gap: string, name: string, trail: string)
    requires AllSpace(lead) && AllSpace(gap) && AllSpace(trail)
    requires IsLoadDate(date)
    requires name != [] && !IsSpace(name[0]) && !IsSpace(name[|name| - 1]) && '\n' !in name
    ensures MatchLine(lead + date + ":" + gap + name + trail) == Some((date, name))
  {
    var tail := gap + (name + trail);
    var colonTail := ":" + tail;
    var rest := date + colonTail;
    assert lead + date + ":" + gap + name + trail == lead + rest;
    LStripSpaces(lead, rest);
    if LoadDateSplit(date, 1, 1) {
      DateFieldAccepts(date, 1, 1, tail);
    } else if LoadDateSplit(date, 1, 2) {
      DateFieldAccepts(date, 1, 2, tail);
    } else if LoadDateSplit(date, 2, 1) {
      DateFieldAccepts(date, 2, 1, tail);
    } else {
      DateFieldAccepts(date, 2, 2, tail);
    }
    assert rest[..|date|] == date;
    assert rest[|date|..] == colonTail;
    assert rest[|date| + 1..] == colonTail[1..] == tail;
    LStripSpaces(gap, name + trail);
    RStripSpaces(name, trail);
  }

  /** A text is the whitespace LStrip removes followed by what it keeps. */
  lemma SplitLead(s: string)
    ensures AllSpace(s[..|s| - |LStrip(s)|]) && s == s[..|s| - |LStrip(s)|] + LStrip(s)
  {
    LStripRemovesSpaces(s);
  }

  /** A text is what RStrip keeps followed by the whitespace it removes. */
  lemma SplitTrail(s: string)
    ensures AllSpace(s[|RStrip(s)|..]) && s == RStrip(s) + s[|RStrip(s)|..]
  {
    RStripRemovesSpaces(s);
  }

  /** The line is whitespace, the date, a colon, whitespace, the name and
      whitespace, with nothing else around them. */
  ghost predicate LineOfForm(line: string, date: string, name: string) {
    exists lead, gap, trail :: AllSpace(lead) && AllSpace(gap) && AllSpace(trail)
                               && line == lead + date + ":" + gap + name + trail
  }

  lemma LineOfFormBy(line: string, lead: string, date: string, gap: string, name: string, trail: string)
    requires AllSpace(lead) && AllSpace(gap) && AllSpace(trail)
    requires line == lead + date + ":" + gap + name + trail
    ensures LineOfForm(line, date, name)
  {
  }

  /** Only lines of the pattern's form match. */
  lemma MatchLineForm(line: string)
    requires MatchLine(line).Some?
    ensures LineOfForm(line, MatchLine(line).value.0, MatchLine(line).value.1)
  {
    var r := LStrip(line);
    var n := DateField(r);
    assert n > 0;
    assert MatchLine(line).value.0 == r[..n];
    assert MatchLine(line).value.1 == RStrip(LStrip(r[n + 1..]));
    LineForm(line, n);
  }

  /** The line split at the colon found after the date field. */
  lemma LineForm(line: string, n: nat)
    requires n < |LStrip(line)| && LStrip(line)[n] == ':'
    ensures LineOfForm(line, LStrip(line)[..n], RStrip(LStrip(LStrip(line)[n + 1..])))
  {
    var r := LStrip(line);
    var rest := r[n + 1..];
    var after := LStrip(rest);
    var name := RStrip(after);
    SplitLead(line);
    SplitLead(rest);
    SplitTrail(after);
    ColonSplit(r, n);
    var lead, gap, trail := line[..|line| - |r|], rest[..|rest| - |after|], after[|name|..];
    Pieces(line, lead, r, r[..n], rest, gap, after, name, trail);
    LineOfFormBy(line, lead, r[..n], gap, name, trail);
  }

  /** A text is what comes before a colon in it, the colon and the rest. */
  lemma ColonSplit(r: string, n: nat)
    requires n < |r| && r[n] == ':'
    ensures r == r[..n] + ":" + r[n + 1..]
  {
    assert r == r[..n] + [r[n]] + r[n + 1..];
  }

  lemma Pieces(line: string, lead: string, r: string, date: string, rest: string,
               gap: string, after: string, name: string, trail: string)
    requires line == lead + r && r == date + ":" + rest && rest == gap + after && after == name + trail
    ensures line == lead + date + ":" + gap + name + trail
  {
  }

  /** Stripping a whitespace prefix in front of a non-space. */
  lemma {:induction false} LStripSpaces(ws: string, s: string)
    requires AllSpace(ws) && (s != [] ==> !IsSpace(s[0]))
    ensures LStrip(ws + s) == s
    decreases |ws|
  {
    if ws != [] {
      assert (ws + s)[1..] == ws[1..] + s;
      LStripSpaces(ws[1..], s);
    } else {
      assert ws + s == s;
    }
  }

  /** Stripping a whitespace suffix behind a non-space. */
  lemma {:induction false} RStripSpaces(s: string, ws: string)
    requires AllSpace(ws) && (s != [] ==> !IsSpace(s[|s| - 1]))
    ensures RStrip(s + ws) == s
    decreases |ws|
  {
    if ws != [] {
      assert (s + ws)[..|s + ws| - 1] == s + ws[..|ws| - 1];
      RStripSpaces(s, ws[..|ws| - 1]);
    } else {
      assert s + ws == s;
    }
  }

  function SkippingLine(line: string): string {
    "skipping line: '" + RStripNewlines(line) + "'"
  }

  /** One turn of the loop over the lines: a blank line does nothing, a line
      that does not match is a warning, a matched date that check_date
      refuses is fatal, and a good line assigns the week of the canonical
      date to the name. */
  function LineStep(line: string): Plan {
    if AllSpace(line) then Nothing
    else
      match MatchLine(line)
      case None => Warn(SkippingLine(line))
      case Some((date, name)) =>
        match CheckDate(Some(date))
        case Err(e) => Stop(e)
        case Ok(t) => WeekPlan(name, t.value)
  }

  /** What loading has done so far: the warnings, the events added and the
      error that stopped it, if any. */
  datatype Run = Run(warnings: seq<string>, added: seq<Body>, error: Option<Error>)

  /** The effect of one plan on a run that has not stopped. */
  function Then(r: Run, p: Plan): Run {
    match p
    case Nothing => r
    case Warn(w) => Run(r.warnings + [w], r.added, None)
    case Add(b) => Run(r.warnings, r.added + [b], None)
    case Stop(e) => Run(r.warnings, r.added, Some(e))
  }

  /** Loading the lines in order, up to and including the first fatal one. */
  function Replay(lines: seq<string>): Run
    decreases |lines|
  {
    if lines == [] then Run([], [], None)
    else
      var r := Replay(lines[..|lines| - 1]);
      if r.error.Some? then r else Then(r, LineStep(lines[|lines| - 1]))
  }

  /** Lines after a fatal one are never read. */
  lemma {:induction false} ReplayStops(lines: seq<string>, i: nat)
    requires i <= |lines| && Replay(lines[..i]).error.Some?
    ensures Replay(lines) == Replay(lines[..i])
    decreases |lines| - i
  {
    if i < |lines| {
      var longer := lines[..i + 1];
      assert longer[..i] == lines[..i];
      assert Replay(longer) == Replay(lines[..i]);
      ReplayStops(lines, i + 1);
    } else {
      assert lines[..i] == lines;
    }
  }

  /** Blank lines are skipped silently. */
  lemma ReplayBlank(lines: seq<string>, blank: string)
    requires AllSpace(blank)
    ensures Replay(lines + [blank]) == Replay(lines)
  {
    assert (lines + [blank])[..|lines|] == lines;
  }

  /** A line that does not match adds a warning and no event. */
  lemma ReplaySkips(lines: seq<string>, line: string)
    requires Replay(lines).error.None? && !AllSpace(line) && MatchLine(line).None?
    ensures Replay(lines + [line]) ==
      Run(Replay(lines).warnings + ["skipping line: '" + RStripNewlines(line) + "'"], Replay(lines).added, None)
  {
    assert (lines + [line])[..|lines|] == lines;
  }

  /** A matched line is not blank. */
  lemma MatchedNotBlank(line: string)
    requires MatchLine(line).Some?
    ensures !AllSpace(line)
  {
    var r := LStrip(line);
    assert r[0] == '2';
    assert line[|line| - |r|] == r[0];
  }

  /** A matched line assigns the week of the canonical form of its date to
      its stripped name, exactly as if that date had been given directly, or
      stops with check_date's error. */
  lemma LineStepMatched(line: string)
    requires MatchLine(line).Some?
    ensures var date := MatchLine(line).value.0;
      CheckDate(Some(date)).Err? ==> LineStep(line) == Stop(MalformedDate(date))
    ensures var date := MatchLine(line).value.0;
      CheckDate(Some(date)).Ok? ==>
        && CheckDate(Some(date)).value == Some(Format(S2D(date).value))
        && LineStep(line) == WeekPlanOn(MatchLine(line).value.1, Format(S2D(date).value), S2D(date).value)
  {
    MatchedNotBlank(line);
    var date := MatchLine(line).value.0;
    CheckDateMeaning(date);
    if CheckDate(Some(date)).Ok? {
      var d := S2D(date).value;
      FormatParses(d);
      assert WeekPlan(MatchLine(line).value.1, Format(d)) == WeekPlanOn(MatchLine(line).value.1, Format(d), d);
    }
  }

  /** One more line read by a run that has not stopped. */
  lemma ReplayNext(lines: seq<string>, i: nat)
    requires i < |lines|
    ensures Replay(lines[..i + 1]) ==
      if Replay(lines[..i]).error.Some? then Replay(lines[..i]) else Then(Replay(lines[..i]), LineStep(lines[i]))
  {
    assert lines[..i + 1][..i] == lines[..i];
  }

  /** The events added to a calendar, as bodies. */
  function Bodies(events: seq<Event>): (r: seq<Body>)
    ensures |r| == |events|
    ensures forall i :: 0 <= i < |events| ==> r[i] == BodyOf(events[i])
  {
    if events == [] then [] else Bodies(events[..|events| - 1]) + [BodyOf(events[|events| - 1])]
  }

  /** `load_triage_assignments(service, calId, lines)`: the warnings it
      writes, and the error that stopped it, if any. */
  method Load(cal: Calendar, lines: seq<string>) returns (warnings: seq<string>, status: Result<()>)
    requires cal.Valid()
    modifies cal
    ensures cal.Valid()
    ensures var r := Replay(lines);
      && warnings == r.warnings
      && (status.Ok? <==> r.error.None?) && (status.Err? ==> r.error == Some(status.error))
      && |cal.events| == |old(cal.events)| + |r.added|
      && cal.events[..|old(cal.events)|] == old(cal.events)
      && Bodies(cal.events[|old(cal.events)|..]) == r.added
  {
    ghost var before := cal.events;
    warnings := [];
    var i := 0;
    while i < |lines|
      invariant 0 <= i <= |lines|
      invariant cal.Valid()
      invariant Replay(lines[..i]).error.None?
      invariant warnings == Replay(lines[..i]).warnings
      invariant |cal.events| >= |before| && cal.events[..|before|] == before
      invariant Bodies(cal.events[|before|..]) == Replay(lines[..i]).added
    {
      ghost var was := cal.events;
      var more, s := Perform(cal, LineStep(lines[i]));
      LoadStep(lines, i, before, was, cal.events, warnings, more, s);
      warnings := warnings + more;
      if s.Err? {
        ReplayStops(lines, i + 1);
        return warnings, s;
      }
      i := i + 1;
    }
    assert lines[..i] == lines;
    status := Ok(());
  }

  /** One turn of the loader's loop: carrying out the plan for line i
      extends the warnings and the added bodies as `Replay` does. */
  lemma LoadStep(lines: seq<string>, i: nat, before: seq<Event>, was: seq<Event>, now: seq<Event>,
                 warnings: seq<string>, more: seq<string>, s: Result<()>)
    requires i < |lines| && Replay(lines[..i]).error.None?
    requires warnings == Replay(lines[..i]).warnings
    requires |was| >= |before| && was[..|before|] == before
    requires Bodies(was[|before|..]) == Replay(lines[..i]).added
    requires Performed(LineStep(lines[i]), was, now, more, s)
    ensures |now| >= |before| && now[..|before|] == before
    ensures Bodies(now[|before|..]) == Replay(lines[..i + 1]).added
    ensures warnings + more == Replay(lines[..i + 1]).warnings
    ensures s.Ok? <==> Replay(lines[..i + 1]).error.None?
    ensures s.Err? ==> Replay(lines[..i + 1]).error == Some(s.error)
  {
    ReplayNext(lines, i);
    BodiesGrow(before, was, now, LineStep(lines[i]));
  }

  /** Carrying out a plan adds its event, if any, to the added bodies. */
  lemma BodiesGrow(before: seq<Event>, was: seq<Event>, now: seq<Event>, p: Plan)
    requires |was| >= |before| && was[..|before|] == before
    requires p.Add? ==> |now| == |was| + 1 && now[..|was|] == was && BodyOf(now[|was|]) == p.body
    requires !p.Add? ==> now == was
    ensures |now| >= |before| && now[..|before|] == before
    ensures Bodies(now[|before|..]) == if p.Add? then Bodies(was[|before|..]) + [p.body] else Bodies(was[|before|..])
  {
    if p.Add? {
      assert now[|before|..][..|now[|before|..]| - 1] == was[|before|..];
    }
  }
}
