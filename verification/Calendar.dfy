/** Working days and holidays of an organisation, and their changes while months are locked for payroll. */
module Calendar {
  import opened Options
  import opened Decimals
  import opened Gregorian
  import opened DateKeys
  import opened Months
  import opened WeekPatterns
  import TextOrder

  const CACHE_MS := 30_000
  const SETTINGS_MS := 15_000

  /** The keys of the settings row that the calendar reads, and a read of them as the settings cache keeps it. */
  datatype Raw = Raw(history: StoredHistory, legacy: StoredDays)
  datatype CachedRaw = CachedRaw(raw: Raw, at: int)

  /** What an organisation says of one date, with its label. */
  datatype Override = Override(isWorking: bool, text: Option<string>)

  /** `weekPattern` is only for a calendar without a history. */
  datatype OrgCalendar = OrgCalendar(weekPattern: seq<int>, patterns: seq<Entry>, overrides: map<string, Override>)

  // ---- what a day is ----

  function Pattern(cal: OrgCalendar, date: string): seq<int> {
    if cal.patterns == [] then cal.weekPattern else PatternOn(cal.patterns, date)
  }

  predicate IsWorkingDay(cal: OrgCalendar, date: string)
    requires IsShaped(date)
  {
    if date in cal.overrides then cal.overrides[date].isWorking else IsoWeekdayOfKey(date) in Pattern(cal, date)
  }

  function DayText(cal: OrgCalendar, date: string): Option<string> {
    if date in cal.overrides then cal.overrides[date].text else None
  }

  /** A day off by override, on a day of the pattern or with a label. */
  predicate IsHoliday(cal: OrgCalendar, date: string)
    requires IsShaped(date)
  {
    && date in cal.overrides && !cal.overrides[date].isWorking
    && (cal.overrides[date].text !in {None, Some("")} || IsoWeekdayOfKey(date) in Pattern(cal, date))
  }

  // ---- a month's summary ----

  datatype Holiday = Holiday(date: string, text: Option<string>)
  datatype MonthSummary = MonthSummary(month: string, workingDays: nat, holidays: seq<Holiday>)

  predicate AllShaped(dates: seq<string>) { forall i | 0 <= i < |dates| :: IsShaped(dates[i]) }

  function WorkingDays(cal: OrgCalendar, dates: seq<string>): nat
    requires AllShaped(dates)
  {
    if dates == [] then 0
    else WorkingDays(cal, dates[..|dates| - 1]) + (if IsWorkingDay(cal, dates[|dates| - 1]) then 1 else 0)
  }

  function Holidays(cal: OrgCalendar, dates: seq<string>): seq<Holiday>
    requires AllShaped(dates)
  {
    if dates == [] then []
    else
      var date := dates[|dates| - 1];
      Holidays(cal, dates[..|dates| - 1]) +
        (if IsHoliday(cal, date) then [Holiday(date, cal.overrides[date].text)] else [])
  }

  function SummaryOver(cal: OrgCalendar, month: string, dates: seq<string>): MonthSummary
    requires AllShaped(dates)
  {
    MonthSummary(month, WorkingDays(cal, dates), Holidays(cal, dates))
  }

  lemma NothingListed(cal: OrgCalendar)
    ensures WorkingDays(cal, []) == 0 && Holidays(cal, []) == []
  {
  }

  method Summarize(cal: OrgCalendar, month: string) returns (summary: MonthSummary)
    requires IsMonth(month)
    ensures AllShaped(DatesIn(month))
    ensures summary == SummaryOver(cal, month, DatesIn(month))
  {
    hide IsMonth;
    hide IsShaped;
    hide IsWorkingDay;
    hide Pattern;
    DatesInShaped(month);
    var dates := DatesOfMonth(month);
    assert dates == DatesIn(month);
    hide DatesIn;
    hide WorkingDays;
    hide Holidays;
    assert dates[..0] == [];
    NothingListed(cal);
    var workingDays: nat := 0;
    var holidays := [];
    for i := 0 to |dates|
      invariant workingDays == WorkingDays(cal, dates[..i])
      invariant holidays == Holidays(cal, dates[..i])
    {
      var date := dates[i];
      OneMoreDate(cal, dates, i);
      if IsWorkingDay(cal, date) {
        workingDays := workingDays + 1;
      }
      if IsHoliday(cal, date) {
        holidays := holidays + [Holiday(date, cal.overrides[date].text)];
      }
    }
    assert dates[..|dates|] == dates;
    summary := MonthSummary(month, workingDays, holidays);
  }

  /** The dates a summary is over: all of the month's, from the year 1000 on. */
  function DatesIn(month: string): seq<string>
    requires IsMonth(month)
  {
    if YearOf(month) >= 1000 then MonthDates(month) else [month + "-01"]
  }

  lemma DatesInShaped(month: string)
    requires IsMonth(month)
    ensures AllShaped(DatesIn(month))
    ensures forall i | 0 <= i < |DatesIn(month)| :: month <= DatesIn(month)[i]
  {
    hide IsMonth;
    hide IsShaped;
    hide CivilOf;
    hide IsLeap;
    FirstOf(month);
    if YearOf(month) >= 1000 {
      MonthDatesAre(month);
    }
    forall i | 0 <= i < |DatesIn(month)|
      ensures IsShaped(DatesIn(month)[i]) && month <= DatesIn(month)[i]
    {
      assert DatesIn(month)[i] == DateOf(month, i + 1);
      DateOfReads(month, i + 1);
    }
  }

  function PatternDays(cal: OrgCalendar, dates: seq<string>): nat
    requires AllShaped(dates)
  {
    if dates == [] then 0
    else
      var n := |dates| - 1;
      PatternDays(cal, dates[..n]) + (if IsoWeekdayOfKey(dates[n]) in Pattern(cal, dates[n]) then 1 else 0)
  }

  /** Days worked by override though they are not in the pattern. */
  function ExtraDays(cal: OrgCalendar, dates: seq<string>): nat
    requires AllShaped(dates)
  {
    if dates == [] then 0
    else
      var n := |dates| - 1;
      var date := dates[n];
      var extra := date in cal.overrides && cal.overrides[date].isWorking
        && IsoWeekdayOfKey(date) !in Pattern(cal, date);
      ExtraDays(cal, dates[..n]) + (if extra then 1 else 0)
  }

  /** The listed holidays that fall on days of the pattern. */
  function OnPatternDays(cal: OrgCalendar, holidays: seq<Holiday>): nat {
    if holidays == [] then 0
    else
      var n := |holidays| - 1;
      var date := holidays[n].date;
      OnPatternDays(cal, holidays[..n]) + (if IsShaped(date)
        && IsoWeekdayOfKey(date) in Pattern(cal, date) then 1 else 0)
  }

  lemma OneMoreHoliday(cal: OrgCalendar, holidays: seq<Holiday>, h: Holiday)
    ensures OnPatternDays(cal, holidays + [h]) ==
            OnPatternDays(cal, holidays) + (if IsShaped(h.date)
              && IsoWeekdayOfKey(h.date) in Pattern(cal, h.date) then 1 else 0)
  {
    assert (holidays + [h])[..|holidays|] == holidays;
  }

  /** A summary adds up: the working days are the days of the pattern, less the listed holidays that fall on them,
      and the extra days worked. So no day of the pattern is off without being listed. */
  lemma {:induction false} WorkingDaysAddUp(cal: OrgCalendar, dates: seq<string>)
    requires AllShaped(dates)
    ensures WorkingDays(cal, dates) + OnPatternDays(cal, Holidays(cal, dates)) ==
            PatternDays(cal, dates) + ExtraDays(cal, dates)
    decreases |dates|
  {
    hide Pattern;
    hide IsShaped;
    hide IsoWeekdayOfKey;
    hide OnPatternDays;
    if dates != [] {
      var n := |dates| - 1;
      WorkingDaysAddUp(cal, dates[..n]);
      if IsHoliday(cal, dates[n]) {
        OneMoreHoliday(cal, Holidays(cal, dates[..n]), Holiday(dates[n], cal.overrides[dates[n]].text));
      } else {
        assert Holidays(cal, dates) == Holidays(cal, dates[..n]);
      }
    } else {
      NoHolidays(cal);
    }
  }

  lemma NoHolidays(cal: OrgCalendar)
    ensures OnPatternDays(cal, []) == 0
  {
  }

  /** The holidays listed are exactly the dates that are off by what is set for them, with their labels: those with a
      label, and those of the pattern without. */
  lemma {:induction false} HolidaysAre(cal: OrgCalendar, dates: seq<string>, h: Holiday)
    requires AllShaped(dates)
    ensures h in Holidays(cal, dates) <==>
            && h.date in dates && h.date in cal.overrides
            && !cal.overrides[h.date].isWorking && h.text == cal.overrides[h.date].text
            && ((h.text.Some? && h.text.value != "") || IsoWeekdayOfKey(h.date) in Pattern(cal, h.date))
    decreases |dates|
  {
    hide Pattern;
    hide IsShaped;
    hide IsoWeekdayOfKey;
    if dates != [] {
      HolidaysAre(cal, dates[..|dates| - 1], h);
    }
  }

  /** And they come in the order of the dates. */
  lemma {:induction false} HolidaysInOrder(cal: OrgCalendar, dates: seq<string>, later: seq<string>)
    requires AllShaped(dates) && AllShaped(later)
    ensures AllShaped(dates + later)
    ensures Holidays(cal, dates + later) == Holidays(cal, dates) + Holidays(cal, later)
    decreases |later|
  {
    hide IsHoliday;
    hide IsShaped;
    if later == [] {
      assert dates + later == dates;
    } else {
      var n := |later| - 1;
      HolidaysInOrder(cal, dates, later[..n]);
      assert (dates + later)[..|dates + later| - 1] == dates + later[..n];
    }
  }

  lemma OneMoreDate(cal: OrgCalendar, dates: seq<string>, i: nat)
    requires AllShaped(dates) && i < |dates|
    ensures WorkingDays(cal, dates[..i + 1]) ==
            WorkingDays(cal, dates[..i]) + (if IsWorkingDay(cal, dates[i]) then 1 else 0)
    ensures Holidays(cal, dates[..i + 1]) ==
            Holidays(cal, dates[..i]) +
              (if IsHoliday(cal, dates[i]) then [Holiday(dates[i], cal.overrides[dates[i]].text)] else [])
  {
    hide Pattern;
    hide IsShaped;
    hide IsoWeekdayOfKey;
    assert dates[..i + 1][..i] == dates[..i];
  }

  /** Two calendars that say the same of a day. */
  predicate SameDay(a: OrgCalendar, b: OrgCalendar, date: string) {
    && Pattern(a, date) == Pattern(b, date)
    && (date in a.overrides <==> date in b.overrides)
    && (date in a.overrides ==> a.overrides[date] == b.overrides[date])
  }

  lemma {:induction false} SameSummary(a: OrgCalendar, b: OrgCalendar, dates: seq<string>)
    requires AllShaped(dates) && forall i | 0 <= i < |dates| :: SameDay(a, b, dates[i])
    ensures WorkingDays(a, dates) == WorkingDays(b, dates) && Holidays(a, dates) == Holidays(b, dates)
    decreases |dates|
  {
    if dates != [] {
      SameSummary(a, b, dates[..|dates| - 1]);
      assert SameDay(a, b, dates[|dates| - 1]);
    }
  }

  // ---- changes, while months are locked ----

  /** The rows of one organisation: its settings, its calendar days and its locked months. */
  datatype Org = Org(history: StoredHistory, legacy: StoredDays, days: map<string, Override>, locked: set<string>)

  datatype Change =
    | SetWeekPattern(days: StoredDays, from: Option<string>, today: string)
    | SetDay(date: string, day: Override)
    | ClearDay(date: string)
    | Lock(month: string)
    | Unlock(month: string)

  datatype Outcome = Done | BadDays | NotADate | OutOfRange | MonthLocked

  function CalendarOf(org: Org, today: string): OrgCalendar {
    var patterns := PatternHistoryFromStored(org.history, org.legacy);
    OrgCalendar(PatternOn(patterns, today), patterns, org.days)
  }

  function CheckDate(date: string): (r: Outcome)
    ensures r == Done ==> IsValidDateKey(date)
  {
    if !IsValidDateKey(date) then NotADate
    else if Parsed(date).y < 2000 || Parsed(date).y > 2100 then OutOfRange
    else Done
  }

  /** Locked, and not before `month`. */
  predicate LockedSince(locked: set<string>, month: string) {
    exists m | m in locked :: !TextOrder.Before(m, month)
  }

  /** The date a new pattern applies from. */
  function Effective(change: Change): string
    requires change.SetWeekPattern?
  {
    if change.from.Some? then change.from.value else change.today
  }

  /** `today` is read from the clock. */
  predicate WellTimed(change: Change) { change.SetWeekPattern? ==> IsValidDateKey(change.today) }

  function Judge(org: Org, change: Change): (r: Outcome)
    requires WellTimed(change)
    ensures change.SetWeekPattern? && r == Done ==>
              CheckWeekPattern(change.days).Some? && IsValidDateKey(Effective(change))
  {
    match change
    case SetWeekPattern(days, from, today) =>
      if CheckWeekPattern(days).None? then BadDays
      else if from.Some? && CheckDate(from.value) != Done then CheckDate(from.value)
      else if LockedSince(org.locked, Effective(change)[..7]) then MonthLocked
      else Done
    case SetDay(date, _) =>
      if CheckDate(date) != Done then CheckDate(date) else if date[..7] in org.locked then MonthLocked else Done
    case ClearDay(date) =>
      if CheckDate(date) != Done then CheckDate(date) else if date[..7] in org.locked then MonthLocked else Done
    case Lock(_) => Done
    case Unlock(_) => Done
  }

  function Do(org: Org, change: Change): Org
    requires WellTimed(change)
  {
    if Judge(org, change) != Done then org
    else
      match change
      case SetWeekPattern(days, from, today) =>
        var entries := PatternHistoryFromStored(org.history, org.legacy);
        org.(history := AsStored(WithPatternFrom(entries, Effective(change), CheckWeekPattern(days).value)))
      case SetDay(date, day) => org.(days := org.days[date := day])
      case ClearDay(date) => org.(days := org.days - {date})
      case Lock(month) => org.(locked := org.locked + {month})
      case Unlock(month) => org.(locked := org.locked - {month})
  }

  function DoAll(org: Org, changes: seq<Change>): Org
    requires forall i | 0 <= i < |changes| :: WellTimed(changes[i])
    decreases |changes|
  {
    if changes == [] then org else DoAll(Do(org, changes[0]), changes[1..])
  }

  /** An accepted pattern is in force from its date on, and the days before it keep the pattern they had. */
  lemma PatternChange(org: Org, change: Change, date: string)
    requires change.SetWeekPattern? && WellTimed(change) && Judge(org, change) == Done
    ensures PatternOn(PatternHistoryFromStored(Do(org, change).history, org.legacy), date) ==
            if TextOrder.Before(date, Effective(change))
            then PatternOn(PatternHistoryFromStored(org.history, org.legacy), date)
            else CheckWeekPattern(change.days).value
  {
    hide PatternOn;
    hide PatternHistoryFromStored;
    hide IsValidDateKey;
    hide LockedSince;
    hide WithPatternFrom;
    hide AsStored;
    var entries := PatternHistoryFromStored(org.history, org.legacy);
    var days := CheckWeekPattern(change.days).value;
    HistoryIsNormal(org.history, org.legacy);
    WeekFromIs(change.days.items, 1);
    ChangeKeepsNormal(entries, Effective(change), days);
    ReadBack(WithPatternFrom(entries, Effective(change), days), org.legacy);
    AfterAlways(Effective(change));
    ChangedFrom(entries, Effective(change), days, date);
  }

  /** What a change is answered, by the lock rows. A day is refused when its date is no real one, lies outside the years
      2000 to 2100, or is in a locked month; a pattern for bad days, for such a `from`, and when any locked month is not
      before the one it begins in. */
  lemma Judged(org: Org, date: string, day: Override, days: StoredDays, from: Option<string>, today: string)
    requires IsValidDateKey(today)
    ensures var dated := IsValidDateKey(date) && 2000 <= Parsed(date).y <= 2100;
            && (Judge(org, SetDay(date, day)) == Done <==> dated && date[..7] !in org.locked)
            && (Judge(org, SetDay(date, day)) == MonthLocked <==> dated && date[..7] in org.locked)
            && (Judge(org, SetDay(date, day)) == NotADate <==> !IsValidDateKey(date))
            && Judge(org, ClearDay(date)) == Judge(org, SetDay(date, day))
    ensures var start, answer := if from.Some? then from.value else today,
                                 Judge(org, SetWeekPattern(days, from, today));
            var dated := from.Some? ==> IsValidDateKey(start) && 2000 <= Parsed(start).y <= 2100;
            && (answer == BadDays <==> CheckWeekPattern(days).None?)
            && (answer == NotADate <==> CheckWeekPattern(days).Some? && from.Some? && !IsValidDateKey(start))
            && (answer in {Done, MonthLocked} <==> CheckWeekPattern(days).Some? && dated)
            && (answer == MonthLocked ==> exists m | m in org.locked :: !TextOrder.Before(m, start[..7]))
            && (answer == Done ==> forall m | m in org.locked :: TextOrder.Before(m, start[..7]))
  {
    hide IsValidDateKey;
    hide CheckWeekPattern;
    if IsValidDateKey(date) {
      ValidLength(date);
    }
    if from.Some? && IsValidDateKey(from.value) {
      ValidLength(from.value);
    }
    ValidLength(today);
  }

  /** An accepted change of a day: that day is worked, and labelled, as it was set, and is a day of the pattern again
      once it is cleared. Every other day, the patterns and the locked months are as they were. */
  lemma DayChange(org: Org, date: string, day: Override, other: string, t: string)
    requires Judge(org, SetDay(date, day)) == Done
    ensures IsShaped(date)
    ensures var cal := CalendarOf(Do(org, SetDay(date, day)), t);
            && IsWorkingDay(cal, date) == day.isWorking && DayText(cal, date) == day.text
            && (other != date ==> SameDay(CalendarOf(org, t), cal, other))
            && Pattern(cal, date) == Pattern(CalendarOf(org, t), date)
    ensures var cal := CalendarOf(Do(org, ClearDay(date)), t);
            && IsWorkingDay(cal, date) == (IsoWeekdayOfKey(date) in Pattern(CalendarOf(org, t), date))
            && DayText(cal, date) == None && (other != date ==> SameDay(CalendarOf(org, t), cal, other))
    ensures Do(org, SetDay(date, day)) == org.(days := Do(org, SetDay(date, day)).days)
    ensures Do(org, ClearDay(date)) == org.(days := Do(org, ClearDay(date)).days)
  {
    hide PatternOn;
    hide PatternHistoryFromStored;
    hide CivilOf;
    hide IsoWeekdayOfKey;
  }

  /** A refused change writes nothing; locking and unlocking add and remove that one lock row. */
  lemma OtherChanges(org: Org, change: Change, month: string)
    requires WellTimed(change)
    ensures Judge(org, change) != Done ==> Do(org, change) == org
    ensures Do(org, Lock(month)) == org.(locked := org.locked + {month})
    ensures Do(org, Unlock(month)) == org.(locked := org.locked - {month})
  {
  }

  /** The date lies in the month. */
  predicate InMonth(date: string, month: string) { |date| == 10 && date[..7] == month }

  lemma BeforeByMonth(date: string, from: string)
    requires |date| == 10 && |from| == 10 && TextOrder.Before(date[..7], from[..7])
    ensures TextOrder.Before(date, from)
  {
    TextOrder.HeadFirst(date[..7], date[7..], from[..7], from[7..]);
    assert date == date[..7] + date[7..] && from == from[..7] + from[7..];
  }

  /** No change but unlocking it touches a day of a locked month. */
  lemma LockedDayStands(org: Org, change: Change, month: string, date: string, t: string, u: string)
    requires WellTimed(change) && month in org.locked && change != Unlock(month) && InMonth(date, month)
    ensures SameDay(CalendarOf(org, t), CalendarOf(Do(org, change), u), date)
    ensures month in Do(org, change).locked
  {
    hide PatternOn;
    hide PatternHistoryFromStored;
    hide IsValidDateKey;
    hide AsStored;
    hide WithPatternFrom;
    if change.SetWeekPattern? && Judge(org, change) == Done {
      var from := Effective(change);
      ValidLength(from);
      assert TextOrder.Before(month, from[..7]);
      BeforeByMonth(date, from);
      PatternChange(org, change, date);
    }
  }

  lemma ValidLength(date: string)
    requires IsValidDateKey(date)
    ensures |date| == 10
  {
  }

  /** Over any sequence of changes that does not unlock it, every day of a locked month keeps its pattern and
      its override. */
  lemma {:induction false} LockedDaysStand(org: Org, changes: seq<Change>, month: string, date: string, t: string,
                                           u: string)
    requires forall i | 0 <= i < |changes| :: WellTimed(changes[i]) && changes[i] != Unlock(month)
    requires month in org.locked && InMonth(date, month)
    ensures SameDay(CalendarOf(org, t), CalendarOf(DoAll(org, changes), u), date)
    decreases |changes|
  {
    hide Do;
    hide PatternOn;
    hide PatternHistoryFromStored;
    if changes != [] {
      LockedDayStands(org, changes[0], month, date, t, t);
      LockedDaysStand(Do(org, changes[0]), changes[1..], month, date, t, u);
    }
  }

  /** And so whether it is worked, its label and the month's summary stay what they were when it was locked. */
  lemma LockedMonthStands(org: Org, changes: seq<Change>, month: string, t: string, u: string)
    requires forall i | 0 <= i < |changes| :: WellTimed(changes[i]) && changes[i] != Unlock(month)
    requires month in org.locked && IsMonth(month)
    ensures AllShaped(DatesIn(month))
    ensures var before, since := CalendarOf(org, t), CalendarOf(DoAll(org, changes), u);
            && SummaryOver(before, month, DatesIn(month)) == SummaryOver(since, month, DatesIn(month))
            && forall date | IsShaped(date) && InMonth(date, month) ::
                 && IsWorkingDay(before, date) == IsWorkingDay(since, date)
                 && DayText(before, date) == DayText(since, date)
  {
    hide DoAll;
    hide CalendarOf;
    hide Pattern;
    hide IsMonth;
    var before, since := CalendarOf(org, t), CalendarOf(DoAll(org, changes), u);
    forall date | InMonth(date, month) ensures SameDay(before, since, date) {
      LockedDaysStand(org, changes, month, date, t, u);
    }
    DatesInShaped(month);
    DatesInMonth(month);
    SameSummary(before, since, DatesIn(month));
  }

  lemma DatesInMonth(month: string)
    requires IsMonth(month)
    ensures forall i | 0 <= i < |DatesIn(month)| :: InMonth(DatesIn(month)[i], month)
  {
    hide DatesIn;
    DatesInShaped(month);
    forall i | 0 <= i < |DatesIn(month)| ensures InMonth(DatesIn(month)[i], month) {
      assert IsShaped(DatesIn(month)[i]) && month <= DatesIn(month)[i];
    }
  }

  // ---- the service ----

  datatype Cached = Cached(cal: OrgCalendar, at: int)

  /** One organisation's calendar rows, read through a cache that writes clear, and its settings row behind a cache
      of its own. */
  class CalendarService {
    var history: StoredHistory
    var legacy: StoredDays
    var settings: Option<CachedRaw>
    var days: map<string, Override>
    var locked: set<string>
    var cache: Option<Cached>

    ghost function View(): Org
      reads this
    {
      Org(history, legacy, days, locked)
    }

    /** Cached settings are the stored ones, and a cached calendar says what the rows say. */
    ghost predicate Valid()
      reads this
    {
      && (settings.Some? ==> settings.value.raw == Raw(history, legacy))
      && (cache.Some? ==>
            && cache.value.cal.patterns == PatternHistoryFromStored(history, legacy)
            && cache.value.cal.overrides == days)
    }

    constructor (org: Org)
      ensures Valid() && View() == org
    {
      history, legacy, days, locked := org.history, org.legacy, org.days, org.locked;
      settings, cache := None, None;
    }

    method ReadRaw(now: int) returns (raw: Raw)
      requires Valid()
      modifies this`settings
      ensures Valid() && raw == Raw(history, legacy)
    {
      if settings.Some? && now - settings.value.at < SETTINGS_MS {
        return settings.value.raw;
      }
      raw := Raw(history, legacy);
      settings := Some(CachedRaw(raw, now));
    }

    /** Puts a history into the row, keeping its other keys. */
    method WriteRaw(written: StoredHistory, now: int)
      modifies this`history, this`settings
      ensures history == written && settings == Some(CachedRaw(Raw(written, legacy), now))
    {
      history := written;
      settings := Some(CachedRaw(Raw(history, legacy), now));
    }

    method ForOrg(now: int, today: string) returns (cal: OrgCalendar)
      requires Valid()
      modifies this`settings, this`cache
      ensures Valid()
      ensures forall date :: SameDay(cal, CalendarOf(View(), today), date)
    {
      if cache.Some? && now - cache.value.at < CACHE_MS {
        return cache.value.cal;
      }
      var raw := ReadRaw(now);
      var patterns := ReadHistory(raw.history, raw.legacy);
      var current := FindPattern(patterns, today);
      cal := OrgCalendar(current, patterns, days);
      cache := Some(Cached(cal, now));
    }

    method WorkingDay(date: string, now: int, today: string) returns (working: bool)
      requires Valid() && IsShaped(date)
      modifies this`settings, this`cache
      ensures Valid()
      ensures working == IsWorkingDay(CalendarOf(View(), today), date)
    {
      var cal := ForOrg(now, today);
      assert SameDay(cal, CalendarOf(View(), today), date);
      working := IsWorkingDay(cal, date);
    }

    /** The latest locked month not before `month`. */
    method LatestLocked(month: string) returns (latest: Option<string>)
      ensures latest.Some? <==> LockedSince(locked, month)
      ensures latest.Some? ==> latest.value in locked && !TextOrder.Before(latest.value, month)
      ensures latest.Some? ==> forall m | m in locked :: !TextOrder.Before(latest.value, m)
    {
      hide TextOrder.Before;
      latest := None;
      var left := locked;
      while left != {}
        invariant left <= locked
        invariant latest.Some? ==> latest.value in locked && !TextOrder.Before(latest.value, month)
        invariant forall m | m in locked && m !in left ::
                    if latest.Some? then !TextOrder.Before(latest.value, m) else TextOrder.Before(m, month)
        decreases |left|
      {
        var m :| m in left;
        left := left - {m};
        if !TextOrder.Before(m, month) {
          if latest.None? || TextOrder.Before(latest.value, m) {
            LaterIsLater(latest, m, month, locked - left - {m});
            latest := Some(m);
          }
        } else if latest.Some? {
          NotBeforeMeansAfter(m, month, latest.value);
        }
      }
    }

    method SetWeekPattern(days: StoredDays, from: Option<string>, now: int, today: string)
      returns (outcome: Outcome, latest: Option<string>)
      requires Valid() && IsValidDateKey(today)
      modifies this
      ensures Valid()
      ensures outcome == Judge(old(View()), Change.SetWeekPattern(days, from, today))
      ensures View() == Do(old(View()), Change.SetWeekPattern(days, from, today))
      ensures latest.Some? <==> outcome == MonthLocked
      ensures latest.Some? ==> latest.value in locked && forall m | m in locked :: !TextOrder.Before(latest.value, m)
    {
      hide IsValidDateKey;
      hide LockedSince;
      latest := None;
      var checked := CheckWeekPattern(days);
      if checked.None? {
        return BadDays, None;
      }
      var effective := if from.Some? then from.value else today;
      if from.Some? && CheckDate(from.value) != Done {
        return CheckDate(from.value), None;
      }
      ValidLength(effective);
      latest := LatestLocked(effective[..7]);
      if latest.Some? {
        return MonthLocked, latest;
      }
      var raw := ReadRaw(now);
      var entries := ReadHistory(raw.history, raw.legacy);
      WriteRaw(AsStored(WithPatternFrom(entries, effective, checked.value)), now);
      cache := None;
      outcome := Done;
    }

    method SetDay(date: string, day: Override) returns (outcome: Outcome)
      requires Valid()
      modifies this
      ensures Valid()
      ensures outcome == Judge(old(View()), Change.SetDay(date, day))
      ensures View() == Do(old(View()), Change.SetDay(date, day))
    {
      hide IsValidDateKey;
      if CheckDate(date) != Done {
        return CheckDate(date);
      }
      ValidLength(date);
      if date[..7] in locked {
        return MonthLocked;
      }
      days := days[date := day];
      cache := None;
      outcome := Done;
    }

    method ClearDay(date: string, now: int, today: string) returns (outcome: Outcome, working: bool)
      requires Valid()
      modifies this
      ensures Valid()
      ensures outcome == Judge(old(View()), Change.ClearDay(date))
      ensures View() == Do(old(View()), Change.ClearDay(date))
      ensures outcome == Done ==> IsShaped(date) && working == IsWorkingDay(CalendarOf(View(), today), date)
    {
      working := false;
      if CheckDate(date) != Done {
        return CheckDate(date), false;
      }
      if date[..7] in locked {
        return MonthLocked, false;
      }
      days := days - {date};
      cache := None;
      outcome := Done;
      working := WorkingDay(date, now, today);
    }
  }

  lemma {:induction false} NotBeforeMeansAfter(m: string, month: string, latest: string)
    requires TextOrder.Before(m, month) && !TextOrder.Before(latest, month)
    ensures !TextOrder.Before(latest, m)
  {
    if TextOrder.Before(latest, m) {
      TextOrder.Transitive(latest, m, month);
    }
  }

  lemma LaterIsLater(latest: Option<string>, m: string, month: string, seen: set<string>)
    requires latest.Some? ==> TextOrder.Before(latest.value, m)
    requires !TextOrder.Before(m, month)
    requires forall k | k in seen :: if latest.Some? then !TextOrder.Before(latest.value, k)
               else TextOrder.Before(k, month)
    ensures forall k | k in seen + {m} :: !TextOrder.Before(m, k)
  {
    hide TextOrder.Before;
    forall k | k in seen + {m} ensures !TextOrder.Before(m, k) {
      if k == m {
        TextOrder.Total(m, m);
      } else if TextOrder.Before(m, k) {
        if latest.Some? {
          TextOrder.Transitive(latest.value, m, k);
        } else {
          TextOrder.Transitive(m, k, month);
        }
      }
    }
  }
}
