/** Calendar changes and month locks at once. A change checks the lock rows and then writes. A new week pattern is
    built in between on the settings as their cache gives them, and written by reading the row again and putting its
    own key into it. Each await is a step, and none of it takes the month's advisory lock. */
module CalendarRaces {
  import opened Options
  import opened DateKeys
  import opened Decimals
  import opened Gregorian
  import opened WeekPatterns
  import opened Calendar
  import TextOrder

  type CallId = nat

  /** A change of the calendar that a person asks for. */
  type Edit = c: Change | c.SetWeekPattern? || c.SetDay? || c.ClearDay? witness Change.ClearDay("")

  /** What reads or writes the settings row: anything that looks at the settings, a save of its other keys, and
      the calendar's own changes. */
  datatype Request = Look | Save | Make(change: Edit)

  datatype Stage =
    | Asked(req: Request)
    | Checked(req: Request)
    | Reading(req: Request, at: int)
    | Filling(req: Request, at: int, raw: Raw)
    | Held(req: Request, raw: Raw)
    | Merging(req: Request, next: Raw)
    | Caching(req: Request, next: Raw)
    | Ended(outcome: Outcome)

  datatype State = State(clock: int, org: Org, cache: Option<CachedRaw>, calls: map<CallId, Stage>)

  datatype Event =
    | Arrive(id: CallId, req: Request)
    | Go(id: CallId)
    | Tick(ms: nat)
    | LockMonth(month: string)
    | UnlockMonth(month: string)

  function RawOf(org: Org): Raw { Raw(org.history, org.legacy) }

  function Entries(raw: Raw): (entries: seq<Entry>)
    ensures entries != []
  {
    PatternHistoryFromStored(raw.history, raw.legacy)
  }

  predicate IsPattern(req: Request) { req.Make? && req.change.SetWeekPattern? }

  function NewDays(change: Edit): seq<int>
    requires change.SetWeekPattern?
  {
    if CheckWeekPattern(change.days).Some? then CheckWeekPattern(change.days).value else []
  }

  /** What a writer puts into the row: its own keys, and the others as it has just read them. */
  function Merge(req: Request, raw: Raw, stored: Raw): Raw {
    if IsPattern(req)
    then Raw(AsStored(WithPatternFrom(Entries(raw), Effective(req.change), NewDays(req.change))), stored.legacy)
    else stored
  }

  function WriteDay(org: Org, req: Request): Org {
    if req.Make? && req.change.SetDay? then org.(days := org.days[req.change.date := req.change.day])
    else if req.Make? && req.change.ClearDay? then org.(days := org.days - {req.change.date})
    else org
  }

  predicate Fresh(s: State, at: int) { s.clock - at < SETTINGS_MS }

  function Onward(req: Request, raw: Raw): Stage { if req.Look? then Ended(Done) else Held(req, raw) }

  datatype Turn = Turn(stage: Stage, org: Org, cache: Option<CachedRaw>)

  /** A call runs to its next await. */
  function Act(s: State, stage: Stage): Turn {
    match stage
    case Asked(req) =>
      var outcome :=
        if !req.Make? then Done else if !WellTimed(req.change) then NotADate else Judge(s.org, req.change);
      Turn(if outcome == Done then Checked(req) else Ended(outcome), s.org, s.cache)
    case Checked(req) =>
      if req.Make? && !IsPattern(req) then Turn(Ended(Done), WriteDay(s.org, req), s.cache)
      else if s.cache.Some? && Fresh(s, s.cache.value.at) then Turn(Onward(req, s.cache.value.raw), s.org, s.cache)
      else Turn(Reading(req, s.clock), s.org, s.cache)
    case Reading(req, at) => Turn(Filling(req, at, RawOf(s.org)), s.org, s.cache)
    case Filling(req, at, raw) => Turn(Onward(req, raw), s.org, Some(CachedRaw(raw, at)))
    case Held(req, raw) => Turn(Merging(req, Merge(req, raw, RawOf(s.org))), s.org, s.cache)
    case Merging(req, next) =>
      Turn(Caching(req, next), s.org.(history := next.history, legacy := next.legacy), s.cache)
    case Caching(req, next) => Turn(Ended(Done), s.org, Some(CachedRaw(next, s.clock)))
    case Ended(_) => Turn(stage, s.org, s.cache)
  }

  function Rank(stage: Stage): nat {
    match stage
    case Asked(_) => 7
    case Checked(_) => 6
    case Reading(_, _) => 5
    case Filling(_, _, _) => 4
    case Held(_, _) => 3
    case Merging(_, _) => 2
    case Caching(_, _) => 1
    case Ended(_) => 0
  }

  /** A call's own steps to its end, with nothing in between. */
  function Alone(s: State, stage: Stage): Turn
    decreases Rank(stage)
  {
    if stage.Ended? then Turn(stage, s.org, s.cache)
    else
      var turn := Act(s, stage);
      Alone(s.(org := turn.org, cache := turn.cache), turn.stage)
  }

  lemma AloneFrom(s: State, stage: Stage)
    requires !stage.Ended?
    ensures Alone(s, stage) == Alone(s.(org := Act(s, stage).org, cache := Act(s, stage).cache), Act(s, stage).stage)
  {
  }

  lemma AloneFromHeld(s: State, req: Request, raw: Raw)
    ensures var next := Merge(req, raw, RawOf(s.org));
            Alone(s, Held(req, raw)) ==
            Turn(Ended(Done), s.org.(history := next.history, legacy := next.legacy), Some(CachedRaw(next, s.clock)))
  {
    hide Merge;
    var next := Merge(req, raw, RawOf(s.org));
    AloneFrom(s, Held(req, raw));
    AloneFrom(s, Merging(req, next));
    AloneFrom(s.(org := s.org.(history := next.history, legacy := next.legacy)), Caching(req, next));
  }

  /** With settings that are not cached, or as they are stored, and nothing in between, the steps of a change are the
      one operation: its answer, and what it writes. */
  lemma StepsAreDo(s: State, change: Edit)
    requires WellTimed(change) && (s.cache.Some? ==> s.cache.value.raw == RawOf(s.org))
    ensures var end := Alone(s, Asked(Make(change)));
            end.stage == Ended(Judge(s.org, change)) && end.org == Do(s.org, change)
  {
    hide Merge;
    hide IsValidDateKey;
    hide CheckWeekPattern;
    hide LockedSince;
    var req := Make(change);
    AloneFrom(s, Asked(req));
    if Judge(s.org, change) == Done {
      AloneFrom(s, Checked(req));
      if IsPattern(req) {
        if !(s.cache.Some? && Fresh(s, s.cache.value.at)) {
          AloneFrom(s, Reading(req, s.clock));
          AloneFrom(s, Filling(req, s.clock, RawOf(s.org)));
        }
        PatternMerged(s, change);
        var t := if s.cache.Some? && Fresh(s, s.cache.value.at) then s
                 else s.(cache := Some(CachedRaw(RawOf(s.org), s.clock)));
        AloneFromHeld(t, req, RawOf(s.org));
      }
    }
  }

  lemma PatternMerged(s: State, change: Edit)
    requires change.SetWeekPattern? && WellTimed(change) && Judge(s.org, change) == Done
    ensures var next := Merge(Make(change), RawOf(s.org), RawOf(s.org));
            Do(s.org, change) == s.org.(history := next.history, legacy := next.legacy)
  {
    hide IsValidDateKey;
    hide CheckWeekPattern;
    hide LockedSince;
    hide PatternHistoryFromStored;
    hide WithPatternFrom;
    hide AsStored;
  }

  function Step(s: State, ev: Event): State {
    match ev
    case Arrive(id, req) => if id in s.calls then s else s.(calls := s.calls[id := Asked(req)])
    case Go(id) =>
      if id !in s.calls then s
      else
        var turn := Act(s, s.calls[id]);
        s.(org := turn.org, cache := turn.cache, calls := s.calls[id := turn.stage])
    case Tick(ms) => s.(clock := s.clock + ms)
    case LockMonth(m) => s.(org := s.org.(locked := s.org.locked + {m}))
    case UnlockMonth(m) => s.(org := s.org.(locked := s.org.locked - {m}))
  }

  /** Cached settings are answered for just under 15 s from when the call that read them had begun; otherwise the row is
      read, and what it holds then is cached under the time the call began. */
  lemma LooksAre(s: State, at: int, raw: Raw)
    ensures Act(s, Checked(Look)) ==
            Turn(if s.cache.Some? && s.clock < s.cache.value.at + 15_000 then Ended(Done) else Reading(Look, s.clock),
                 s.org, s.cache)
    ensures s.cache.Some? && s.cache.value.at <= s.clock ==>
              Act(Step(s, Tick(15_000)), Checked(Look)).stage == Reading(Look, s.clock + 15_000)
    ensures Act(s, Reading(Look, at)) == Turn(Filling(Look, at, Raw(s.org.history, s.org.legacy)), s.org, s.cache)
    ensures Act(s, Filling(Look, at, raw)) == Turn(Ended(Done), s.org, Some(CachedRaw(raw, at)))
  {
  }

  function Run(s: State, events: seq<Event>): State
    decreases events
  {
    if events == [] then s else Run(Step(s, events[0]), events[1..])
  }

  // ---- what is in flight ----

  /** A pattern past its check has weekdays and a date. */
  predicate Ready(req: Request) {
    IsPattern(req) ==> CheckWeekPattern(req.change.days).Some? && IsValidDateKey(Effective(req.change))
  }

  predicate FormedStage(stage: Stage) { stage.Asked? || stage.Ended? || Ready(stage.req) }

  predicate Formed(s: State) { forall id | id in s.calls :: FormedStage(s.calls[id]) }

  lemma FormedAtFirst(s: State)
    requires forall id | id in s.calls :: s.calls[id].Asked?
    ensures Formed(s)
  {
  }

  lemma FormedStep(s: State, ev: Event)
    requires Formed(s)
    ensures Formed(Step(s, ev))
  {
    hide IsValidDateKey;
    hide CheckWeekPattern;
    hide LockedSince;
    hide Merge;
    hide WriteDay;
    hide RawOf;
    if ev.Go? && ev.id in s.calls {
      assert FormedStage(s.calls[ev.id]);
    }
  }

  lemma {:induction false} FormedRun(s: State, events: seq<Event>)
    requires Formed(s)
    ensures Formed(Run(s, events))
    decreases events
  {
    hide Step;
    hide Formed;
    if events != [] {
      FormedStep(s, events[0]);
      FormedRun(Step(s, events[0]), events[1..]);
    }
  }

  // ---- one day ----

  function On(raw: Raw, date: string): seq<int> { PatternOn(Entries(raw), date) }

  function OverrideOn(org: Org, date: string): Option<Override> {
    if date in org.days then Some(org.days[date]) else None
  }

  /** What the stored rows say of a day. */
  datatype Day = Day(pattern: seq<int>, special: Option<Override>)

  function Shows(org: Org, date: string): Day { Day(On(RawOf(org), date), OverrideOn(org, date)) }

  /** The pattern of a date after a change that builds on `raw`. */
  lemma MergedOn(req: Request, raw: Raw, stored: Raw, date: string)
    requires IsPattern(req) && Ready(req)
    ensures On(Merge(req, raw, stored), date) ==
            if TextOrder.Before(date, Effective(req.change)) then On(raw, date) else NewDays(req.change)
  {
    hide PatternOn;
    hide PatternHistoryFromStored;
    hide IsValidDateKey;
    hide WithPatternFrom;
    hide AsStored;
    hide IsWeek;
    var from, days := Effective(req.change), NewDays(req.change);
    HistoryIsNormal(raw.history, raw.legacy);
    CheckedWeek(req.change.days.items);
    ChangeKeepsNormal(Entries(raw), from, days);
    ReadBack(WithPatternFrom(Entries(raw), from, days), stored.legacy);
    AfterAlways(from);
    ChangedFrom(Entries(raw), from, days, date);
  }

  /** A pattern that builds on settings which say `base` of the day leaves it as it is stored. */
  predicate Builds(change: Edit, base: seq<int>, org: Org, date: string)
    requires change.SetWeekPattern?
  {
    (if TextOrder.Before(date, Effective(change)) then base else NewDays(change)) == On(RawOf(org), date)
  }

  /** A change past its check that leaves the day as it is. */
  predicate Spares(change: Edit, org: Org, date: string) {
    match change
    case SetWeekPattern(_, _, _) => Builds(change, On(RawOf(org), date), org, date)
    case SetDay(d, day) => d == date ==> OverrideOn(org, date) == Some(day)
    case ClearDay(d) => d == date ==> OverrideOn(org, date) == None
  }

  /** A call that leaves the day as it is, and settings in flight that say of it what is stored. */
  predicate Harmless(s: State, stage: Stage, date: string) {
    match stage
    case Asked(_) => true
    case Checked(req) => req.Make? ==> Spares(req.change, s.org, date)
    case Reading(req, _) => IsPattern(req) ==> Spares(req.change, s.org, date)
    case Filling(req, at, raw) =>
      && (Fresh(s, at) ==> On(raw, date) == On(RawOf(s.org), date))
      && (IsPattern(req) ==> Builds(req.change, On(raw, date), s.org, date))
    case Held(req, raw) => IsPattern(req) ==> Builds(req.change, On(raw, date), s.org, date)
    case Merging(_, next) => On(next, date) == On(RawOf(s.org), date)
    case Caching(_, next) => On(next, date) == On(RawOf(s.org), date)
    case Ended(_) => true
  }

  /** The cached settings, as long as they can be answered, say of the day what is stored. */
  predicate CacheAgrees(s: State, date: string) {
    s.cache.Some? && Fresh(s, s.cache.value.at) ==> On(s.cache.value.raw, date) == On(RawOf(s.org), date)
  }

  predicate Safe(s: State, date: string) {
    CacheAgrees(s, date) && forall id | id in s.calls :: Harmless(s, s.calls[id], date)
  }

  /** The day lies in a month locked for payroll. */
  predicate InLocked(s: State, date: string) { |date| == 10 && date[..7] in s.org.locked }

  // ---- a safe day stands ----

  lemma CheckedSpares(org: Org, change: Edit, date: string)
    requires WellTimed(change) && Judge(org, change) == Done && |date| == 10 && date[..7] in org.locked
    ensures Spares(change, org, date)
  {
    hide IsValidDateKey;
    hide CheckWeekPattern;
    hide On;
    if change.SetWeekPattern? {
      var from := Effective(change);
      ValidLength(from);
      assert TextOrder.Before(date[..7], from[..7]);
      BeforeByMonth(date, from);
    }
  }

  lemma SaveKeeps(req: Request, raw: Raw, stored: Raw)
    requires !IsPattern(req)
    ensures Merge(req, raw, stored) == stored
  {
  }

  lemma AskedIsHarmless(s: State, stage: Stage, date: string)
    requires stage.Asked?
    ensures Harmless(s, stage, date)
  {
  }

  /** The call that goes on keeps the day, and what it leaves behind is harmless. */
  lemma HarmlessGo(s: State, id: CallId, date: string)
    requires Formed(s) && Safe(s, date) && InLocked(s, date) && id in s.calls
    ensures var t := Step(s, Go(id));
            Shows(t.org, date) == Shows(s.org, date) && CacheAgrees(t, date) && Harmless(t, t.calls[id], date)
    ensures Step(s, Go(id)).org.locked == s.org.locked
  {
    hide IsValidDateKey;
    hide CheckWeekPattern;
    hide LockedSince;
    hide On;
    hide Merge;
    hide NewDays;
    var stage := s.calls[id];
    assert Harmless(s, stage, date) && FormedStage(stage);
    match stage {
      case Asked(req) =>
        if req.Make? && WellTimed(req.change) && Judge(s.org, req.change) == Done {
          CheckedSpares(s.org, req.change, date);
        }
      case Held(req, raw) =>
        if IsPattern(req) {
          MergedOn(req, raw, RawOf(s.org), date);
        } else {
          SaveKeeps(req, raw, RawOf(s.org));
        }
      case Merging(req, next) => assert RawOf(Step(s, Go(id)).org) == next;
      case _ =>
    }
  }

  lemma HarmlessStays(s: State, t: State, stage: Stage, date: string)
    requires Harmless(s, stage, date) && Shows(t.org, date) == Shows(s.org, date) && s.clock <= t.clock
    ensures Harmless(t, stage, date)
  {
    hide On;
    hide NewDays;
  }

  lemma SafeStep(s: State, ev: Event, date: string)
    requires Formed(s) && Safe(s, date) && InLocked(s, date) && ev != UnlockMonth(date[..7])
    ensures Safe(Step(s, ev), date) && InLocked(Step(s, ev), date)
    ensures Shows(Step(s, ev).org, date) == Shows(s.org, date)
  {
    hide Harmless;
    hide On;
    hide Act;
    var t := Step(s, ev);
    assert ev.Go? || RawOf(t.org) == RawOf(s.org);
    if ev.Go? && ev.id in s.calls {
      HarmlessGo(s, ev.id, date);
    }
    forall id | id in t.calls
      ensures Harmless(t, t.calls[id], date)
    {
      if id !in s.calls {
        AskedIsHarmless(t, t.calls[id], date);
      } else if ev != Go(id) {
        HarmlessStays(s, t, s.calls[id], date);
      }
    }
  }

  lemma {:induction false} SafeRun(s: State, events: seq<Event>, date: string)
    requires Formed(s) && Safe(s, date) && InLocked(s, date) && UnlockMonth(date[..7]) !in events
    ensures Safe(Run(s, events), date) && InLocked(Run(s, events), date)
    ensures Shows(Run(s, events).org, date) == Shows(s.org, date)
    decreases events
  {
    hide Safe;
    hide Formed;
    hide Step;
    hide Shows;
    if events != [] {
      SafeStep(s, events[0], date);
      FormedStep(s, events[0]);
      SafeRun(Step(s, events[0]), events[1..], date);
    }
  }

  lemma SameShows(a: Org, b: Org, date: string, t: string, u: string)
    ensures Shows(a, date) == Shows(b, date) <==> SameDay(CalendarOf(a, t), CalendarOf(b, u), date)
  {
    hide PatternOn;
    hide PatternHistoryFromStored;
  }

  /** In every interleaving: a month that is locked while no change past its check, and no settings cached or in
      flight, would now change a day of it keeps every day as it is until it is unlocked, whatever changes and saves
      then come and whenever they check. */
  lemma LockedMonthStandsThroughRaces(s: State, events: seq<Event>, month: string, date: string, t: string, u: string)
    requires Formed(s) && month in s.org.locked && InMonth(date, month) && Safe(s, date)
    requires UnlockMonth(month) !in events
    ensures SameDay(CalendarOf(s.org, t), CalendarOf(Run(s, events).org, u), date)
  {
    hide Safe;
    hide Formed;
    hide Shows;
    SafeRun(s, events, date);
    SameShows(s.org, Run(s, events).org, date, t, u);
  }

  /** That is so when nothing is past its check and the settings are not cached, or cached as they are stored, or
      cached too long ago to be answered. */
  lemma NothingPastItsCheck(s: State, date: string)
    requires forall id | id in s.calls :: s.calls[id].Asked? || s.calls[id].Ended?
    requires s.cache.None? || s.cache.value.raw == RawOf(s.org) || !Fresh(s, s.cache.value.at)
    ensures Safe(s, date)
  {
  }

  // ---- and no other day does ----

  /** Some run that does not unlock the month changes the day. */
  ghost predicate CanChange(s: State, date: string)
    requires |date| == 10
  {
    exists events | UnlockMonth(date[..7]) !in events :: Shows(Run(s, events).org, date) != Shows(s.org, date)
  }

  lemma ChangesNow(s: State, ev: Event, date: string)
    requires |date| == 10 && ev != UnlockMonth(date[..7]) && Shows(Step(s, ev).org, date) != Shows(s.org, date)
    ensures CanChange(s, date)
  {
    hide Shows;
    hide Step;
    assert [ev][1..] == [];
    assert Run(s, [ev]) == Run(Step(s, ev), []);
  }

  lemma ChangesLater(s: State, ev: Event, date: string)
    requires |date| == 10 && ev != UnlockMonth(date[..7])
    requires Shows(Step(s, ev).org, date) == Shows(s.org, date) && CanChange(Step(s, ev), date)
    ensures CanChange(s, date)
  {
    hide Shows;
    hide Step;
    var t := Step(s, ev);
    var rest :| UnlockMonth(date[..7]) !in rest && Shows(Run(t, rest).org, date) != Shows(t.org, date);
    assert ([ev] + rest)[1..] == rest;
    assert Run(s, [ev] + rest) == Run(t, rest);
  }

  lemma MergingChanges(s: State, id: CallId, date: string)
    requires |date| == 10 && id in s.calls && s.calls[id].Merging?
    requires On(s.calls[id].next, date) != On(RawOf(s.org), date)
    ensures CanChange(s, date)
  {
    hide On;
    assert RawOf(Step(s, Go(id)).org) == s.calls[id].next;
    ChangesNow(s, Go(id), date);
  }

  lemma HeldChanges(s: State, id: CallId, date: string)
    requires |date| == 10 && id in s.calls && s.calls[id].Held?
    requires var req := s.calls[id].req;
             IsPattern(req) && Ready(req) && !Builds(req.change, On(s.calls[id].raw, date), s.org, date)
    ensures CanChange(s, date)
  {
    hide On;
    hide Merge;
    hide CheckWeekPattern;
    hide IsValidDateKey;
    var stage, t := s.calls[id], Step(s, Go(id));
    MergedOn(stage.req, stage.raw, RawOf(s.org), date);
    MergingChanges(t, id, date);
    ChangesLater(s, Go(id), date);
  }

  lemma FillingChanges(s: State, id: CallId, date: string)
    requires |date| == 10 && id in s.calls && s.calls[id].Filling?
    requires var req := s.calls[id].req;
             IsPattern(req) && Ready(req) && !Builds(req.change, On(s.calls[id].raw, date), s.org, date)
    ensures CanChange(s, date)
  {
    hide On;
    hide NewDays;
    hide CheckWeekPattern;
    hide IsValidDateKey;
    HeldChanges(Step(s, Go(id)), id, date);
    ChangesLater(s, Go(id), date);
  }

  lemma ReadingChanges(s: State, id: CallId, date: string)
    requires |date| == 10 && id in s.calls && s.calls[id].Reading?
    requires var req := s.calls[id].req; IsPattern(req) && Ready(req) && !Spares(req.change, s.org, date)
    ensures CanChange(s, date)
  {
    hide On;
    hide NewDays;
    hide CheckWeekPattern;
    hide IsValidDateKey;
    FillingChanges(Step(s, Go(id)), id, date);
    ChangesLater(s, Go(id), date);
  }

  lemma CheckedChanges(s: State, id: CallId, date: string)
    requires |date| == 10 && id in s.calls && s.calls[id].Checked?
    requires var req := s.calls[id].req; req.Make? && Ready(req) && !Spares(req.change, s.org, date)
    ensures CanChange(s, date)
  {
    hide On;
    hide NewDays;
    hide CheckWeekPattern;
    hide IsValidDateKey;
    var req, t := s.calls[id].req, Step(s, Go(id));
    if !IsPattern(req) {
      ChangesNow(s, Go(id), date);
    } else {
      if t.calls[id].Held? {
        HeldChanges(t, id, date);
      } else {
        ReadingChanges(t, id, date);
      }
      ChangesLater(s, Go(id), date);
    }
  }

  const LAST_MONTH := "2100-12"
  const LAST_START := "2100-12-01"
  const LATE := Make(Change.SetWeekPattern(List([]), Some(LAST_START), LAST_START))

  lemma LastStartIsWritten()
    ensures LAST_START == KeyText(2100, 12, 1)
  {
    assert Pad(2, 1) == Pad(0, 0) + ['2'] && Pad(21, 2) == Pad(2, 1) + ['1'] && Pad(210, 3) == Pad(21, 2) + ['0'];
    assert Pad(2100, 4) == Pad(210, 3) + ['0'];
    assert Pad(1, 1) == Pad(0, 0) + ['1'] && Pad(12, 2) == Pad(1, 1) + ['2'];
    assert Pad(0, 1) == Pad(0, 0) + ['0'] && Pad(1, 2) == Pad(0, 1) + ['1'];
  }

  lemma LastStart()
    ensures IsValidDateKey(LAST_START) && CheckDate(LAST_START) == Done && LAST_START[..7] == LAST_MONTH
  {
    hide KeyText;
    hide IsDateText;
    hide Parsed;
    hide IsValidDateKey;
    LastStartIsWritten();
    TextReads(2100, 12, 1);
    RealDateIsValid(LAST_START);
  }

  lemma LateIsReady(locked: set<string>, org: Org)
    requires org.locked == locked && forall m | m in locked :: TextOrder.Before(m, LAST_MONTH)
    ensures IsPattern(LATE) && Ready(LATE) && WellTimed(LATE.change) && Judge(org, LATE.change) == Done
  {
    hide IsValidDateKey;
    hide TextOrder.Before;
    hide CheckDate;
    LastStart();
    CheckedWeek([]);
  }

  lemma {:induction false} SomeUnused(ids: set<CallId>) returns (unused: CallId)
    ensures unused !in ids && forall id | id in ids :: id < unused
    decreases ids
  {
    if ids == {} {
      unused := 0;
    } else {
      var id :| id in ids;
      var below := SomeUnused(ids - {id});
      unused := if below <= id then id + 1 else below;
      forall other | other in ids
        ensures other < unused
      {
        assert other == id || other in ids - {id};
      }
    }
  }

  /** Cached settings that say otherwise of the day: the next pattern, from a month still open, builds on them. */
  lemma {:induction false} CacheChanges(s: State, date: string)
    requires |date| == 10 && TextOrder.Before(date[..7], LAST_MONTH) && !CacheAgrees(s, date)
    ensures CanChange(s, date)
    decreases s.org.locked - {date[..7]}
  {
    hide On;
    hide TextOrder.Before;
    hide Judge;
    hide IsValidDateKey;
    hide CheckWeekPattern;
    var month := date[..7];
    if m :| m in s.org.locked && m != month {
      var t := Step(s, UnlockMonth(m));
      assert RawOf(t.org) == RawOf(s.org) && m in s.org.locked - {month} && m !in t.org.locked - {month};
      CacheChanges(t, date);
      ChangesLater(s, UnlockMonth(m), date);
    } else {
      NextPatternChanges(s, date);
    }
  }

  lemma NextPatternChanges(s: State, date: string)
    requires |date| == 10 && TextOrder.Before(date[..7], LAST_MONTH) && !CacheAgrees(s, date)
    requires forall m | m in s.org.locked :: m == date[..7]
    ensures CanChange(s, date)
  {
    hide On;
    hide TextOrder.Before;
    hide Judge;
    hide IsValidDateKey;
    hide CheckWeekPattern;
    hide NewDays;
    LateIsReady(s.org.locked, s.org);
    var id := SomeUnused(s.calls.Keys);
    var asked := Step(s, Arrive(id, LATE));
    var checked := Step(asked, Go(id));
    var held := Step(checked, Go(id));
    assert checked.calls[id] == Checked(LATE) && checked.org == s.org && checked.cache == s.cache;
    assert held.calls[id] == Held(LATE, s.cache.value.raw);
    assert LAST_START[..7] == LAST_MONTH;
    BeforeByMonth(date, LAST_START);
    HeldChanges(held, id, date);
    ChangesLater(checked, Go(id), date);
    ChangesLater(asked, Go(id), date);
    ChangesLater(s, Arrive(id, LATE), date);
  }

  lemma HarmfulChanges(s: State, id: CallId, date: string)
    requires Formed(s) && |date| == 10 && TextOrder.Before(date[..7], LAST_MONTH)
    requires id in s.calls && !Harmless(s, s.calls[id], date)
    ensures CanChange(s, date)
  {
    hide On;
    hide TextOrder.Before;
    hide CheckWeekPattern;
    hide IsValidDateKey;
    hide NewDays;
    hide Spares;
    hide Builds;
    assert FormedStage(s.calls[id]);
    match s.calls[id]
    case Checked(_) => CheckedChanges(s, id, date);
    case Reading(_, _) => ReadingChanges(s, id, date);
    case Filling(req, _, raw) =>
      if IsPattern(req) && !Builds(req.change, On(raw, date), s.org, date) {
        FillingChanges(s, id, date);
      } else {
        CacheChanges(Step(s, Go(id)), date);
        ChangesLater(s, Go(id), date);
      }
    case Held(_, _) => HeldChanges(s, id, date);
    case Merging(_, _) => MergingChanges(s, id, date);
    case Caching(_, _) =>
      CacheChanges(Step(s, Go(id)), date);
      ChangesLater(s, Go(id), date);
  }

  /** Exactly when a day of a locked month stands: through every run that does not unlock the month it stays what it
      is, if and only if no call past its check, and no settings cached or in flight, would now change it. */
  lemma LockedDayStandsExactly(s: State, date: string)
    requires Formed(s) && InLocked(s, date) && TextOrder.Before(date[..7], LAST_MONTH)
    ensures Safe(s, date) <==>
            forall events | UnlockMonth(date[..7]) !in events :: Shows(Run(s, events).org, date) == Shows(s.org, date)
  {
    hide Harmless;
    hide On;
    hide Shows;
    hide Run;
    hide TextOrder.Before;
    if Safe(s, date) {
      forall events | UnlockMonth(date[..7]) !in events
        ensures Shows(Run(s, events).org, date) == Shows(s.org, date)
      {
        SafeRun(s, events, date);
      }
    } else if !CacheAgrees(s, date) {
      CacheChanges(s, date);
    } else {
      var id :| id in s.calls && !Harmless(s, s.calls[id], date);
      HarmfulChanges(s, id, date);
    }
  }

  // ---- the ways a locked month changes ----

  lemma RunOn(s: State, ev: Event, rest: seq<Event>)
    ensures Run(s, [ev] + rest) == Run(Step(s, ev), rest)
  {
    assert ([ev] + rest)[1..] == rest;
  }

  /** What the check alone does not keep: a day set that was checked before its month was locked is written after,
      and the locked month has changed. */
  lemma CheckedDayReachesLockedMonth(s: State, id: CallId, date: string, day: Override)
    requires id in s.calls && s.calls[id] == Checked(Make(Change.SetDay(date, day))) && |date| == 10
    requires OverrideOn(s.org, date) != Some(day)
    ensures var t := Run(s, [LockMonth(date[..7]), Go(id)]);
            && date[..7] in t.org.locked && OverrideOn(t.org, date) == Some(day)
            && id in t.calls && t.calls[id] == Ended(Done)
  {
    var lock, go := LockMonth(date[..7]), Go(id);
    RunOn(s, lock, [go]);
    RunOn(Step(s, lock), go, []);
    assert [lock] + [go] == [lock, go] && [go] + [] == [go];
  }

  /** Nor does it keep out a pattern that begins after the month, when it builds on settings that were read before
      the last change of the month's own pattern: written after the lock, it puts the older pattern back. */
  lemma StaleHistoryReachesLockedMonth(s: State, id: CallId, month: string, date: string)
    requires id in s.calls && s.calls[id].Held? && IsPattern(s.calls[id].req) && Ready(s.calls[id].req)
    requires InMonth(date, month) && TextOrder.Before(date, Effective(s.calls[id].req.change))
    requires On(s.calls[id].raw, date) != On(RawOf(s.org), date)
    ensures var t := Run(s, [LockMonth(month), Go(id), Go(id)]);
            month in t.org.locked && On(RawOf(t.org), date) == On(s.calls[id].raw, date)
  {
    hide On;
    hide Merge;
    hide TextOrder.Before;
    hide CheckWeekPattern;
    hide IsValidDateKey;
    var lock, go, stage := LockMonth(month), Go(id), s.calls[id];
    var a := Step(s, lock);
    var b := Step(a, go);
    var c := Step(b, go);
    RunOn(s, lock, [go, go]);
    RunOn(a, go, [go]);
    RunOn(b, go, []);
    assert [lock] + [go, go] == [lock, go, go] && [go] + [go] == [go, go] && [go] + [] == [go];
    MergedOn(stage.req, stage.raw, RawOf(a.org), date);
    assert RawOf(c.org) == b.calls[id].next;
  }

  /** Nor does an empty house: a look at the settings that read them before the month's last pattern was written puts
      them back into the cache after it, the month is locked with no call in flight at all, and the next pattern,
      asked for after the lock and from a month still open, writes the month's older pattern. */
  lemma StaleCacheReachesLockedMonth(s: State, look: CallId, id: CallId, month: string, date: string, raw: Raw)
    requires look in s.calls && s.calls[look] == Filling(Look, s.clock, raw) && id !in s.calls
    requires forall k | k in s.calls && k != look :: s.calls[k].Ended?
    requires InMonth(date, month) && TextOrder.Before(month, LAST_MONTH) && On(raw, date) != On(RawOf(s.org), date)
    requires forall m | m in s.org.locked :: TextOrder.Before(m, LAST_MONTH)
    ensures var t := Run(s, [Go(look), LockMonth(month)]);
            && month in t.org.locked && (forall k | k in t.calls :: t.calls[k].Ended?)
            && var u := Run(t, [Arrive(id, LATE), Go(id), Go(id), Go(id), Go(id)]);
            month in u.org.locked && On(RawOf(u.org), date) == On(raw, date) != On(RawOf(t.org), date)
  {
    hide On;
    hide TextOrder.Before;
    hide Judge;
    hide Merge;
    hide CheckWeekPattern;
    hide IsValidDateKey;
    var filled := Step(s, Go(look));
    var t := Step(filled, LockMonth(month));
    RunOn(s, Go(look), [LockMonth(month)]);
    RunOn(filled, LockMonth(month), []);
    assert [Go(look)] + [LockMonth(month)] == [Go(look), LockMonth(month)];
    assert [LockMonth(month)] + [] == [LockMonth(month)];
    assert Run(s, [Go(look), LockMonth(month)]) == t && RawOf(t.org) == RawOf(s.org);
    assert t.cache == Some(CachedRaw(raw, s.clock)) && t.clock == s.clock;
    NextPatternWrites(t, id, date);
  }

  lemma NextPatternWrites(t: State, id: CallId, date: string)
    requires |date| == 10 && TextOrder.Before(date[..7], LAST_MONTH) && id !in t.calls
    requires forall m | m in t.org.locked :: TextOrder.Before(m, LAST_MONTH)
    requires t.cache.Some? && Fresh(t, t.cache.value.at)
    ensures var u := Run(t, [Arrive(id, LATE), Go(id), Go(id), Go(id), Go(id)]);
            u.org.locked == t.org.locked && On(RawOf(u.org), date) == On(t.cache.value.raw, date)
  {
    hide On;
    hide TextOrder.Before;
    hide Judge;
    hide Merge;
    hide CheckWeekPattern;
    hide IsValidDateKey;
    LateIsReady(t.org.locked, t.org);
    var go := Go(id);
    var a := Step(t, Arrive(id, LATE));
    var b := Step(a, go);
    var c := Step(b, go);
    var d := Step(c, go);
    var e := Step(d, go);
    assert c.calls[id] == Held(LATE, t.cache.value.raw);
    assert RawOf(e.org) == d.calls[id].next;
    assert LAST_START[..7] == LAST_MONTH;
    BeforeByMonth(date, LAST_START);
    MergedOn(LATE, t.cache.value.raw, RawOf(c.org), date);
    RunOn(t, Arrive(id, LATE), [go, go, go, go]);
    RunOn(a, go, [go, go, go]);
    RunOn(b, go, [go, go]);
    RunOn(c, go, [go]);
    RunOn(d, go, []);
    assert [Arrive(id, LATE)] + [go, go, go, go] == [Arrive(id, LATE), go, go, go, go];
    assert [go] + [go, go, go] == [go, go, go, go] && [go] + [go, go] == [go, go, go];
    assert [go] + [go] == [go, go] && [go] + [] == [go];
  }

  /** Nor does a save of other settings: it had read the row before the month's last pattern, and writes the whole
      row back after the lock. */
  lemma OtherSaveReachesLockedMonth(s: State, id: CallId, month: string, date: string)
    requires id in s.calls && s.calls[id].Merging? && s.calls[id].req == Save && InMonth(date, month)
    requires On(s.calls[id].next, date) != On(RawOf(s.org), date)
    ensures var t := Run(s, [LockMonth(month), Go(id)]);
            month in t.org.locked && On(RawOf(t.org), date) == On(s.calls[id].next, date)
  {
    hide On;
    var lock, go := LockMonth(month), Go(id);
    RunOn(s, lock, [go]);
    RunOn(Step(s, lock), go, []);
    assert [lock] + [go] == [lock, go] && [go] + [] == [go];
    assert RawOf(Step(Step(s, lock), go).org) == s.calls[id].next;
  }
}
