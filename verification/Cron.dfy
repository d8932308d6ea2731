/** The five-field cron evaluator (src/hubspot_agent/cron.py), minute by minute over the calendar. */
module Cron {
  import opened Wrappers
  import opened Calendar

  // ----- Expressions: fields of parts, their integers already read -----

  datatype Base = Star | Single(n: int) | Range(a: int, b: int)

  /** One comma component: `base` or `base/step`; `Blank` is the empty component. */
  datatype Part = Blank | Part(base: Base, step: Option<int>)

  /** `field.split(",")`: never empty. */
  type Field = ps: seq<Part> | |ps| > 0 witness [Part(Star, None)]

  const STAR: Field := [Part(Star, None)]

  datatype Compiled = Compiled(minutes: set<int>, hours: set<int>, doms: set<int>, months: set<int>, dows: set<int>,
                               domRestricted: bool, dowRestricted: bool)

  /** Python's `range(start, end + 1, step)`, as a set. */
  function StepRange(start: int, end: int, step: int): set<int>
    requires step > 0
    decreases end - start
  {
    if start > end then {} else {start} + StepRange(start + step, end, step)
  }

  lemma {:induction false} StepRangeBounds(start: int, end: int, step: int)
    requires step > 0
    ensures forall v <- StepRange(start, end, step) :: start <= v <= end
    ensures start <= end ==> start in StepRange(start, end, step)
    ensures step == 1 ==> forall v | start <= v <= end :: v in StepRange(start, end, step)
    decreases end - start
  {
    if start <= end { StepRangeBounds(start + step, end, step); }
  }

  function SundayIsZero(values: set<int>): set<int> {
    values - {7} + if 7 in values then {0} else {}
  }

  /** The values of one component; day-of-week reads 7 as Sunday (0). */
  function ParsePart(part: Part, lo: int, hi: int, dow: bool): Result<set<int>, string>
    requires lo <= hi && (dow ==> lo == 0 && hi == 6)
  {
    if part.Blank? then Err("empty field component")
    else if part.step.Some? && part.step.value <= 0 then Err("step must be positive")
    else
      var step := if part.step.Some? then part.step.value else 1;
      var hiIn := if dow then 7 else hi;
      var (start, end) := match part.base
        case Star => (lo, hiIn)
        case Range(a, b) => (a, b)
        case Single(n) => (n, if part.step.Some? then hiIn else n);
      if start < lo || end > hiIn || start > end then Err("value out of range")
      else
        var values := StepRange(start, end, step);
        Ok(if dow then SundayIsZero(values) else values)
  }

  /** A component is never empty and stays in its field's range; `*` is the whole range. */
  lemma PartInRange(part: Part, lo: int, hi: int, dow: bool)
    requires lo <= hi && (dow ==> lo == 0 && hi == 6)
    ensures var r := ParsePart(part, lo, hi, dow);
            && (r.Ok? ==> SoundField(r.value, lo, hi))
            && (part == Part(Star, None) ==> r.Ok? && forall v | lo <= v <= hi :: v in r.value)
  {
    var r := ParsePart(part, lo, hi, dow);
    if r.Ok? {
      var step := if part.step.Some? then part.step.value else 1;
      var hiIn := if dow then 7 else hi;
      var (start, end) := match part.base
        case Star => (lo, hiIn)
        case Range(a, b) => (a, b)
        case Single(n) => (n, if part.step.Some? then hiIn else n);
      StepRangeBounds(start, end, step);
      assert start in StepRange(start, end, step);
      assert (if dow && start == 7 then 0 else start) in r.value;
    }
  }

  ghost predicate Reached(v: int, start: int, end: int, step: int) {
    exists i: nat :: v == start + i * step && v <= end
  }

  /** The component's base and step name the value, in a field that goes up to `top`. */
  ghost predicate Names(base: Base, step: Option<int>, lo: int, top: int, v: int) {
    var s := if step.Some? then step.value else 1;
    match base
    case Star => Reached(v, lo, top, s)
    case Range(a, b) => Reached(v, a, b, s)
    case Single(n) => Reached(v, n, if step.Some? then top else n, s)
  }

  /** A component holds exactly the values it names; in the day-of-week field 7 is a name of 0. */
  lemma PartValues(base: Base, step: Option<int>, lo: int, hi: int, dow: bool, v: int)
    requires lo <= hi && (dow ==> lo == 0 && hi == 6) && ParsePart(Part(base, step), lo, hi, dow).Ok?
    ensures v in ParsePart(Part(base, step), lo, hi, dow).value <==>
              if dow then (v != 7 && Names(base, step, lo, 7, v)) || (v == 0 && Names(base, step, lo, 7, 7))
              else Names(base, step, lo, hi, v)
  {
    var s := if step.Some? then step.value else 1;
    var top := if dow then 7 else hi;
    var (start, end) := match base
      case Star => (lo, top)
      case Range(a, b) => (a, b)
      case Single(n) => (n, if step.Some? then top else n);
    StepsReach(v, start, end, s);
    StepsReach(7, start, end, s);
  }

  lemma ReachedOnward(v: int, start: int, end: int, step: int)
    requires step > 0
    ensures Reached(v, start, end, step) <==> v == start <= end || Reached(v, start + step, end, step)
  {
    if Reached(v, start, end, step) {
      var i: nat :| v == start + i * step && v <= end;
      if i > 0 {
        assert i * step == step + (i - 1) * step;
        assert v == start + step + (i - 1) * step;
      }
    }
    if v == start <= end { assert v == start + 0 * step; }
    if Reached(v, start + step, end, step) {
      var i: nat :| v == start + step + i * step && v <= end;
      assert (i + 1) * step == step + i * step;
      assert v == start + (i + 1) * step;
    }
  }

  lemma {:induction false} StepsReach(v: int, start: int, end: int, step: int)
    requires step > 0
    ensures v in StepRange(start, end, step) <==> Reached(v, start, end, step)
    decreases end - start
  {
    if start <= end {
      StepsReach(v, start + step, end, step);
      ReachedOnward(v, start, end, step);
    } else {
      forall i: nat
        ensures start + i * step > end
      {
        assert i * step >= 0;
      }
    }
  }

  /** The union of the components; the first bad component raises. */
  function FieldValues(field: seq<Part>, lo: int, hi: int, dow: bool): Result<set<int>, string>
    requires lo <= hi && (dow ==> lo == 0 && hi == 6)
  {
    if field == [] then Ok({})
    else
      var init := FieldValues(field[..|field| - 1], lo, hi, dow);
      if init.Err? then init
      else
        var last := ParsePart(field[|field| - 1], lo, hi, dow);
        if last.Err? then last else Ok(init.value + last.value)
  }

  method ParseField(field: Field, lo: int, hi: int, dow: bool) returns (r: Result<set<int>, string>)
    requires lo <= hi && (dow ==> lo == 0 && hi == 6)
    ensures r == FieldValues(field, lo, hi, dow)
  {
    var values: set<int> := {};
    for i := 0 to |field|
      invariant FieldValues(field[..i], lo, hi, dow) == Ok(values)
    {
      assert field[..i + 1][..i] == field[..i];
      var part := ParsePart(field[i], lo, hi, dow);
      if part.Err? {
        FirstErrorStays(field, i + 1, lo, hi, dow);
        return part;
      }
      values := values + part.value;
    }
    assert field[..|field|] == field;
    r := Ok(values);
  }

  lemma {:induction false} FirstErrorStays(field: seq<Part>, i: nat, lo: int, hi: int, dow: bool)
    requires lo <= hi && (dow ==> lo == 0 && hi == 6) && i <= |field|
    requires FieldValues(field[..i], lo, hi, dow).Err?
    ensures FieldValues(field, lo, hi, dow) == FieldValues(field[..i], lo, hi, dow)
    decreases |field|
  {
    if i == |field| {
      assert field[..i] == field;
    } else {
      assert field[..|field| - 1][..i] == field[..i];
      FirstErrorStays(field[..|field| - 1], i, lo, hi, dow);
    }
  }

  function Compile(expr: seq<Field>): Result<Compiled, string> {
    if |expr| != 5 then Err("expected 5 cron fields")
    else
      var minutes := FieldValues(expr[0], 0, 59, false);
      var hours := FieldValues(expr[1], 0, 23, false);
      var doms := FieldValues(expr[2], 1, 31, false);
      var months := FieldValues(expr[3], 1, 12, false);
      var dows := FieldValues(expr[4], 0, 6, true);
      if minutes.Err? then Err(minutes.error)
      else if hours.Err? then Err(hours.error)
      else if doms.Err? then Err(doms.error)
      else if months.Err? then Err(months.error)
      else if dows.Err? then Err(dows.error)
      else Ok(Compiled(minutes.value, hours.value, doms.value, months.value, dows.value,
                       expr[2] != STAR, expr[4] != STAR))
  }

  /** What compiling guarantees: full fields where `*` stands, and never an empty field. */
  ghost predicate Sound(c: Compiled) {
    && SoundField(c.minutes, 0, 59)
    && SoundField(c.hours, 0, 23)
    && SoundField(c.doms, 1, 31)
    && SoundField(c.months, 1, 12)
    && SoundField(c.dows, 0, 6)
    && (!c.domRestricted ==> forall v | 1 <= v <= 31 :: v in c.doms)
    && (!c.dowRestricted ==> forall v | 0 <= v <= 6 :: v in c.dows)
  }

  ghost predicate SoundField(values: set<int>, lo: int, hi: int) {
    (exists v :: v in values) && forall v <- values :: lo <= v <= hi
  }

  lemma {:induction false} FieldIsSound(field: seq<Part>, lo: int, hi: int, dow: bool)
    requires lo <= hi && (dow ==> lo == 0 && hi == 6)
    requires field != [] && FieldValues(field, lo, hi, dow).Ok?
    ensures SoundField(FieldValues(field, lo, hi, dow).value, lo, hi)
    ensures field == STAR ==> forall v | lo <= v <= hi :: v in FieldValues(field, lo, hi, dow).value
    decreases |field|
  {
    var n := |field| - 1;
    PartInRange(field[n], lo, hi, dow);
    var last := ParsePart(field[n], lo, hi, dow).value;
    var v :| v in last;
    assert v in FieldValues(field, lo, hi, dow).value;
    if n > 0 { FieldIsSound(field[..n], lo, hi, dow); }
  }

  lemma CompileIsSound(expr: seq<Field>)
    requires Compile(expr).Ok?
    ensures Sound(Compile(expr).value)
  {
    FieldIsSound(expr[0], 0, 59, false);
    FieldIsSound(expr[1], 0, 23, false);
    FieldIsSound(expr[2], 1, 31, false);
    FieldIsSound(expr[3], 1, 12, false);
    FieldIsSound(expr[4], 0, 6, true);
  }

  // ----- Matching a minute -----

  const MINUTE: int := 60_000_000
  const DAY: int := 1440
  const SCAN_CAP: int := 366 * DAY

  /** Whole minutes since 00:00 on day 1, and microseconds into the minute. */
  datatype Moment = Moment(minute: nat, micros: nat)

  /** A UTC `datetime`. */
  type Instant = t: Moment | t.micros < MINUTE witness Moment(0, 0)

  function Micros(t: Instant): int { t.minute * MINUTE + t.micros }

  function DayOf(minute: nat): (n: nat)
    ensures n >= 1
  {
    minute / DAY + 1
  }

  /** Whether the day of the week or month fits; Sunday is 0. */
  predicate DayMatches(c: Compiled, n: nat)
    requires n >= 1
  {
    var domMatch := DateOf(n).day in c.doms;
    var dowMatch := n % 7 in c.dows;
    if c.domRestricted && c.dowRestricted then domMatch || dowMatch else domMatch && dowMatch
  }

  predicate Matches(c: Compiled, minute: nat) {
    && minute % 60 in c.minutes
    && minute / 60 % 24 in c.hours
    && DateOf(DayOf(minute)).month in c.months
    && DayMatches(c, DayOf(minute))
  }

  /** Some matching minute in the half-open interval (from, to]. */
  ghost predicate Fires(c: Compiled, from: int, to: int) {
    exists k: nat :: from < k <= to && Matches(c, k)
  }

  /** What `is_due` decides; a last run beyond the scan cap counts as due. */
  ghost predicate Due(c: Compiled, last: Option<Instant>, now: Instant) {
    match last
    case None => Matches(c, now.minute)
    case Some(t) => t.minute < now.minute - SCAN_CAP || Fires(c, t.minute, now.minute)
  }

  method IsDue(expr: seq<Field>, last: Option<Instant>, now: Instant) returns (r: Result<bool, string>)
    ensures match Compile(expr)
            case Err(e) => r == Err(e)
            case Ok(c) => r == Ok(Due(c, last, now))
  {
    var compiled := Compile(expr);
    if compiled.Err? {
      return Err(compiled.error);
    }
    var due := ScanDue(compiled.value, last, now);
    r := Ok(due);
  }

  method ScanDue(c: Compiled, last: Option<Instant>, now: Instant) returns (due: bool)
    ensures due == Due(c, last, now)
  {
    if last.None? {
      return Matches(c, now.minute);
    }
    if Micros(last.value) < (now.minute - SCAN_CAP) * MINUTE {
      return true;
    }
    var candidate := last.value.minute + 1;
    while candidate <= now.minute
      invariant last.value.minute < candidate
      invariant !Fires(c, last.value.minute, candidate - 1)
      decreases now.minute - candidate
    {
      if Matches(c, candidate) {
        return true;
      }
      candidate := candidate + 1;
    }
    due := false;
  }

  /** What `next_due` answers: the least matching minute after `from`, within the scan cap. */
  ghost predicate IsNextDue(c: Compiled, from: nat, r: Option<nat>) {
    match r
    case Some(k) => from < k <= from + SCAN_CAP && Matches(c, k) && !Fires(c, from, k - 1)
    case None => !Fires(c, from, from + SCAN_CAP)
  }

  method NextDue(expr: seq<Field>, after: Instant) returns (r: Result<Option<nat>, string>)
    ensures match Compile(expr)
            case Err(e) => r == Err(e)
            case Ok(c) => r.Ok? && IsNextDue(c, after.minute, r.value)
  {
    var compiled := Compile(expr);
    if compiled.Err? {
      return Err(compiled.error);
    }
    var next := ScanNext(compiled.value, after);
    r := Ok(next);
  }

  method ScanNext(c: Compiled, after: Instant) returns (next: Option<nat>)
    ensures IsNextDue(c, after.minute, next)
  {
    var limit := Micros(after) + SCAN_CAP * MINUTE;
    var candidate := after.minute + 1;
    while candidate * MINUTE <= limit
      invariant after.minute < candidate <= after.minute + SCAN_CAP + 1
      invariant !Fires(c, after.minute, candidate - 1)
      decreases after.minute + SCAN_CAP + 1 - candidate
    {
      if Matches(c, candidate) {
        return Some(candidate);
      }
      candidate := candidate + 1;
    }
    next := None;
  }

  // ----- Windows -----

  /** Polling in pieces finds what polling at once would: (a,d] is (a,b] and then (b,d]. */
  lemma WindowsCompose(c: Compiled, a: int, b: int, d: int)
    requires a <= b <= d
    ensures Fires(c, a, d) <==> Fires(c, a, b) || Fires(c, b, d)
  {
  }

  /** Within the cap, a schedule is due exactly when its next firing has come. */
  lemma DueIffNextDue(c: Compiled, last: Instant, now: Instant, next: Option<nat>)
    requires now.minute - SCAN_CAP <= last.minute && IsNextDue(c, last.minute, next)
    ensures Due(c, Some(last), now) <==> next.Some? && next.value <= now.minute
  {
    if Fires(c, last.minute, now.minute) {
      var k: nat :| last.minute < k <= now.minute && Matches(c, k);
      assert Fires(c, last.minute, last.minute + SCAN_CAP);
    }
  }

  // ----- Liveness: when the scan cap hides nothing -----

  /** Some day that every year has, or any day at all as far as the day of the month goes. */
  ghost predicate AlwaysComesRound(c: Compiled) {
    || c.dowRestricted
    || !c.domRestricted
    || exists month, day :: month in c.months && day in c.doms && 1 <= month <= 12 && day <= SureDays(month)
  }

  function At(n: nat, h: nat, m: nat): nat
    requires n >= 1
  {
    (n - 1) * DAY + h * 60 + m
  }

  lemma AtFields(n: nat, h: nat, m: nat)
    requires n >= 1 && h < 24 && m < 60
    ensures DayOf(At(n, h, m)) == n && At(n, h, m) / 60 % 24 == h && At(n, h, m) % 60 == m
  {
    assert At(n, h, m) == ((n - 1) * 24 + h) * 60 + m;
    assert At(n, h, m) / 60 == (n - 1) * 24 + h;
  }

  lemma MatchOnDay(c: Compiled, n: nat, h: nat, m: nat)
    requires n >= 1 && h < 24 && m < 60 && h in c.hours && m in c.minutes
    requires DateOf(n).month in c.months && DayMatches(c, n)
    ensures Matches(c, At(n, h, m))
  {
    AtFields(n, h, m);
  }

  /** A firing within the cap of every start, when some day always comes round. */
  lemma LiveWithinCap(c: Compiled, from: nat)
    requires Sound(c) && AlwaysComesRound(c)
    ensures Fires(c, from, from + SCAN_CAP)
  {
    var m: int :| m in c.minutes;
    var h: int :| h in c.hours;
    var today := DayOf(from);
    assert At(today, 0, 0) <= from < At(today, 0, 0) + DAY;
    if c.dowRestricted || !c.domRestricted {
      var month: int :| month in c.months;
      var weekday: int :| weekday in c.dows;
      var n := EveryWeekdayOfEveryMonth(today + 1, month, weekday);
      assert DayMatches(c, n);
      MatchOnDay(c, n, h, m);
      assert from < At(n, h, m) <= from + SCAN_CAP;
    } else {
      var month, day :| month in c.months && day in c.doms && 1 <= month <= 12 && day <= SureDays(month);
      var n := DateComesRound(today, month, day);
      var k := if At(n, h, m) <= from + SCAN_CAP then n else today;
      assert k % 7 in c.dows;
      assert DayMatches(c, k);
      MatchOnDay(c, k, h, m);
      assert from < At(k, h, m) <= from + SCAN_CAP;
    }
  }

  /** 1 March 2001: no 29 February for the next 366 days. */
  const BLIND_DAY: nat := 730545

  lemma NewYears()
    ensures DaysBeforeYear(2001) == 730485 && DaysBeforeYear(2003) == 731215
  {
  }

  lemma NoLeapDayAhead(n: nat)
    requires BLIND_DAY <= n <= BLIND_DAY + 366
    ensures !(DateOf(n).month == 2 && DateOf(n).day == 29)
  {
    var year := DateOf(n).year;
    OrdinalOfDateOf(n);
    OrdinalWithinYear(DateOf(n));
    NewYears();
    if year < 2001 { YearsGrow(year, 2001); }
    if year > 2003 { YearsGrow(2003, year); }
    assert year == 2001 || year == 2002;
  }

  /** Every other expression has a start from which the cap hides every firing. */
  lemma BlindBeyondCap(c: Compiled)
    requires Sound(c) && !AlwaysComesRound(c)
    ensures !Fires(c, (BLIND_DAY - 1) * DAY, (BLIND_DAY - 1) * DAY + SCAN_CAP)
  {
    forall k: nat | (BLIND_DAY - 1) * DAY < k <= (BLIND_DAY - 1) * DAY + SCAN_CAP
      ensures !Matches(c, k)
    {
      var d := DateOf(DayOf(k));
      NoLeapDayAhead(DayOf(k));
      if d.month in c.months && d.day in c.doms {
        assert false;
      }
    }
  }

  /** `next_due` never gives up, from any start, exactly for the expressions whose day always comes
      round: those that restrict the weekday, leave the day of the month `*`, or name a date that
      every year has. */
  lemma NextDueLiveness(expr: seq<Field>)
    requires Compile(expr).Ok?
    ensures (forall from: nat, r: Option<nat> :: IsNextDue(Compile(expr).value, from, r) ==> r.Some?)
       <==> AlwaysComesRound(Compile(expr).value)
  {
    var c := Compile(expr).value;
    CompileIsSound(expr);
    if AlwaysComesRound(c) {
      forall from: nat, r: Option<nat> | IsNextDue(c, from, r)
        ensures r.Some?
      {
        LiveWithinCap(c, from);
      }
    } else {
      BlindBeyondCap(c);
      assert IsNextDue(c, (BLIND_DAY - 1) * DAY, None);
    }
  }

  // ----- The evaluator in calendar terms -----

  /** A component is accepted exactly if it is not blank, its step is positive and its values lie in the
      field, in order. */
  lemma PartOkIff(part: Part, lo: int, hi: int, dow: bool)
    requires lo <= hi && (dow ==> lo == 0 && hi == 6)
    ensures ParsePart(part, lo, hi, dow).Ok? <==>
              part.Part? && (part.step.Some? ==> part.step.value >= 1)
              && match part.base
                 case Star => true
                 case Single(n) => lo <= n <= if dow then 7 else hi
                 case Range(a, b) => lo <= a <= b <= if dow then 7 else hi
  {
  }

  /** A field is accepted exactly if each component is, and holds exactly what they hold. */
  lemma {:induction false} FieldExactly(field: seq<Part>, lo: int, hi: int, dow: bool, v: int)
    requires lo <= hi && (dow ==> lo == 0 && hi == 6)
    ensures FieldValues(field, lo, hi, dow).Ok? <==> forall i :: 0 <= i < |field| ==> ParsePart(field[i], lo, hi, dow).Ok?
    ensures FieldValues(field, lo, hi, dow).Ok? ==>
              (v in FieldValues(field, lo, hi, dow).value <==>
                 exists i :: 0 <= i < |field| && ParsePart(field[i], lo, hi, dow).Ok? && v in ParsePart(field[i], lo, hi, dow).value)
    decreases |field|
  {
    if field != [] {
      var n := |field| - 1;
      FieldExactly(field[..n], lo, hi, dow, v);
      assert forall i :: 0 <= i < n ==> field[..n][i] == field[i];
    }
  }

  /** An expression is accepted exactly if it has five accepted fields, in the order minute, hour, day of
      the month, month, weekday; a day field restricts unless it is a bare `*`. */
  lemma CompileExactly(expr: seq<Field>)
    ensures Compile(expr).Ok? <==>
              |expr| == 5 && FieldValues(expr[0], 0, 59, false).Ok? && FieldValues(expr[1], 0, 23, false).Ok?
              && FieldValues(expr[2], 1, 31, false).Ok? && FieldValues(expr[3], 1, 12, false).Ok?
              && FieldValues(expr[4], 0, 6, true).Ok?
    ensures Compile(expr).Ok? ==>
              var c := Compile(expr).value;
              && Ok(c.minutes) == FieldValues(expr[0], 0, 59, false) && Ok(c.hours) == FieldValues(expr[1], 0, 23, false)
              && Ok(c.doms) == FieldValues(expr[2], 1, 31, false) && Ok(c.months) == FieldValues(expr[3], 1, 12, false)
              && Ok(c.dows) == FieldValues(expr[4], 0, 6, true)
              && (c.domRestricted <==> expr[2] != [Part(Star, None)]) && (c.dowRestricted <==> expr[4] != [Part(Star, None)])
  {
  }

  /** A minute of a date matches exactly if minute, hour and month do, and the day of the month or the
      weekday when both are restricted, and both of them otherwise. */
  lemma MatchesExactly(c: Compiled, d: Date, h: nat, m: nat)
    requires Valid(d) && h < 24 && m < 60
    ensures Ordinal(d) >= 1
    ensures Matches(c, (Ordinal(d) - 1) * 1440 + h * 60 + m) <==>
              && m in c.minutes && h in c.hours && d.month in c.months
              && (if c.domRestricted && c.dowRestricted then d.day in c.doms || Ordinal(d) % 7 in c.dows
                  else d.day in c.doms && Ordinal(d) % 7 in c.dows)
  {
    DateOfOrdinal(d);
    AtFields(Ordinal(d), h, m);
  }

  /** Both scans in minutes: 366 days are 527040 of them. */
  lemma ScansExactly(c: Compiled, last: Instant, now: Instant, from: nat, r: Option<nat>)
    ensures Due(c, Some(last), now) <==>
              last.minute < now.minute - 527_040 || exists k: nat :: last.minute < k <= now.minute && Matches(c, k)
    ensures Due(c, None, now) <==> Matches(c, now.minute)
    ensures IsNextDue(c, from, r) <==>
              match r
              case Some(k) => from < k <= from + 527_040 && Matches(c, k) && forall j: nat :: from < j < k ==> !Matches(c, j)
              case None => forall j: nat :: from < j <= from + 527_040 ==> !Matches(c, j)
  {
  }

  /** `0 0 29 2 *` */
  const LEAP_DAY: seq<Field> :=
    [[Part(Single(0), None)], [Part(Single(0), None)], [Part(Single(29), None)], [Part(Single(2), None)], STAR]

  lemma OneValue(n: int, lo: int, hi: int)
    requires lo <= n <= hi
    ensures FieldValues([Part(Single(n), None)], lo, hi, false) == Ok({n})
  {
    var field := [Part(Single(n), None)];
    assert StepRange(n, n, 1) == {n} + StepRange(n + 1, n, 1) == {n};
    assert ParsePart(field[0], lo, hi, false) == Ok({n});
    assert field[..0] == [] && FieldValues(field[..0], lo, hi, false) == Ok({});
    var none: set<int> := {};
    assert none + {n} == {n};
  }

  lemma LeapDayCompiles()
    ensures Compile(LEAP_DAY).Ok?
    ensures var c := Compile(LEAP_DAY).value;
            && c.minutes == {0} && c.hours == {0} && c.doms == {29} && c.months == {2}
            && c.domRestricted && !c.dowRestricted
  {
    OneValue(0, 0, 59);
    OneValue(0, 0, 23);
    OneValue(29, 1, 31);
    OneValue(2, 1, 12);
    PartInRange(Part(Star, None), 0, 6, true);
    assert STAR[..0] == [] && FieldValues([], 0, 6, true) == Ok({});
    assert FieldValues(STAR, 0, 6, true).Ok?;
  }

  /** The failing input: from 1 March 2001, `next_due` answers None for 29 February, which comes in 2004. */
  lemma LeapDayIsHidden()
    ensures Compile(LEAP_DAY).Ok?
    ensures var c := Compile(LEAP_DAY).value;
            && IsNextDue(c, (BLIND_DAY - 1) * DAY, None)
            && exists k: nat :: k > (BLIND_DAY - 1) * DAY && Matches(c, k)
  {
    LeapDayCompiles();
    CompileIsSound(LEAP_DAY);
    var c := Compile(LEAP_DAY).value;
    BlindBeyondCap(c);
    var d := Date(2004, 2, 29);
    DateOfOrdinal(d);
    LeapDay2004();
    MatchOnDay(c, Ordinal(d), 0, 0);
  }

  lemma LeapDay2004()
    ensures Valid(Date(2004, 2, 29)) && Ordinal(Date(2004, 2, 29)) > BLIND_DAY
  {
    assert DaysBeforeYear(2004) == 731580;
  }
}
