/** An organisation's calendar read through two caches, with reads in flight while writes clear one and refill the
    other. The settings row and the calendar days are read apart, so an answer can be old, and a mixture; but only
    so old. */
module CalendarCache {
  import opened Options
  import opened Calendar

  type CallId = nat

  /** What a row holds after a write, and when that was committed. The last version is the current one. */
  datatype Version<T> = Version(value: T, since: int)
  type Versions<T> = seq<Version<T>>

  /** A version of the settings row in the settings cache, stamped `at`; `seen` is when it is known to have been the
      stored one. */
  datatype Settings = Settings(version: nat, at: int, seen: int)

  /** The versions a cached calendar was made of, and when the call that filled it had begun. */
  datatype Entry = Entry(raw: nat, days: nat, at: int)

  /** One read of the settings: in flight, read and about to fill, or done. */
  datatype Half = Asking | Filling(version: nat) | Got(version: nat)

  datatype Request =
    | Calendar
    | Look
    | SaveSettings(raw: Raw, pattern: bool)
    | SaveDay(days: map<string, Override>)

  datatype Stage =
    | Waiting(req: Request)
    | Looking(began: int, half: Half)
    | Fetching(began: int, half: Half, rows: Option<nat>)
    | Answered(began: int, raw: nat, days: nat)
    | Caching(version: nat, wrote: int, pattern: bool)
    | Clearing
    | Over

  /** `slowest` is the longest that a settings write has taken so far from its commit to its cache entry. */
  datatype State = State(clock: int, raws: Versions<Raw>, days: Versions<map<string, Override>>,
                         settings: Option<Settings>, cache: Option<Entry>, calls: map<CallId, Stage>, slowest: nat)

  datatype Event = Go(id: CallId) | ReadDays(id: CallId) | Tick(ms: nat)

  predicate Formed(s: State) { s.raws != [] && s.days != [] }

  function Slower(a: nat, b: int): nat { if b > a then b else a }

  /** `readRaw` up to its await: answered from the cache, or in flight. */
  function Asks(s: State): Half {
    if s.settings.Some? && s.clock - s.settings.value.at < SETTINGS_MS then Got(s.settings.value.version) else Asking
  }

  /** One read of the settings goes on; it was begun at `began`. */
  function ActHalf(s: State, began: int, half: Half): (Half, Option<Settings>)
    requires Formed(s)
  {
    match half
    case Asking => (Filling(|s.raws| - 1), s.settings)
    case Filling(version) => (Got(version), Some(Settings(version, began, began)))
    case Got(_) => (half, s.settings)
  }

  /** A call goes on to its next await, a calendar read by its settings half. */
  function Act(s: State, id: CallId, stage: Stage): State
    requires Formed(s)
  {
    match stage
    case Waiting(Calendar) =>
      if s.cache.Some? && s.clock - s.cache.value.at < CACHE_MS
      then s.(calls := s.calls[id := Answered(s.clock, s.cache.value.raw, s.cache.value.days)])
      else s.(calls := s.calls[id := Fetching(s.clock, Asks(s), None)])
    case Waiting(Look) => s.(calls := s.calls[id := Looking(s.clock, Asks(s))])
    case Waiting(SaveSettings(raw, pattern)) =>
      s.(raws := s.raws + [Version(raw, s.clock)], calls := s.calls[id := Caching(|s.raws|, s.clock, pattern)])
    case Waiting(SaveDay(days)) =>
      s.(days := s.days + [Version(days, s.clock)], calls := s.calls[id := Clearing])
    case Looking(began, half) =>
      var (next, settings) := ActHalf(s, began, half);
      s.(settings := settings, calls := s.calls[id := Looking(began, next)])
    case Fetching(began, half, rows) =>
      if half.Got? && rows.Some?
      then s.(cache := Some(Entry(half.version, rows.value, began)),
              calls := s.calls[id := Answered(began, half.version, rows.value)])
      else
        var (next, settings) := ActHalf(s, began, half);
        s.(settings := settings, calls := s.calls[id := Fetching(began, next, rows)])
    case Caching(version, wrote, pattern) =>
      s.(settings := Some(Settings(version, s.clock, wrote)), slowest := Slower(s.slowest, s.clock - wrote),
         calls := s.calls[id := if pattern then Clearing else Over])
    case Clearing => s.(cache := None, calls := s.calls[id := Over])
    case Answered(_, _, _) => s
    case Over => s
  }

  function Step(s: State, ev: Event): State
    requires Formed(s)
  {
    match ev
    case Go(id) => if id in s.calls then Act(s, id, s.calls[id]) else s
    case ReadDays(id) =>
      if id in s.calls && s.calls[id].Fetching? && s.calls[id].rows == None
      then s.(calls := s.calls[id := s.calls[id].(rows := Some(|s.days| - 1))])
      else s
    case Tick(ms) => s.(clock := s.clock + ms)
  }

  lemma FormedStep(s: State, ev: Event)
    requires Formed(s)
    ensures Formed(Step(s, ev))
  {
  }

  function Run(s: State, events: seq<Event>): (t: State)
    requires Formed(s)
    ensures Formed(t)
    decreases events
  {
    if events == [] then s
    else
      FormedStep(s, events[0]);
      Run(Step(s, events[0]), events[1..])
  }

  predicate Initial(s: State) {
    && Formed(s) && s.settings.None? && s.cache.None? && forall id | id in s.calls :: s.calls[id].Waiting?
  }

  // ---- how old an answer is ----

  /** The version was still the current one at some instant from `at` on. */
  predicate CurrentFrom<T>(versions: Versions<T>, version: nat, at: int) {
    version < |versions| && (version + 1 == |versions| || at <= versions[version + 1].since)
  }

  predicate HalfFits(s: State, began: int, half: Half) {
    match half
    case Asking => true
    case Filling(version) => CurrentFrom(s.raws, version, began)
    case Got(version) => CurrentFrom(s.raws, version, began - SETTINGS_MS - s.slowest)
  }

  predicate Fits(s: State, stage: Stage) {
    match stage
    case Looking(began, half) => began <= s.clock && HalfFits(s, began, half)
    case Fetching(began, half, rows) =>
      && began <= s.clock && HalfFits(s, began, half)
      && (rows.Some? ==> CurrentFrom(s.days, rows.value, began))
    case Answered(began, raw, days) =>
      && began <= s.clock && CurrentFrom(s.raws, raw, began - CACHE_MS - SETTINGS_MS - s.slowest)
      && CurrentFrom(s.days, days, began - CACHE_MS)
    case Caching(version, wrote, _) => wrote <= s.clock && CurrentFrom(s.raws, version, wrote)
    case _ => true
  }

  predicate SettingsFit(s: State) {
    s.settings.Some? ==>
      var e := s.settings.value;
      e.seen <= e.at <= s.clock && e.at - s.slowest <= e.seen && CurrentFrom(s.raws, e.version, e.seen)
  }

  predicate CacheFits(s: State) {
    s.cache.Some? ==>
      var e := s.cache.value;
      && e.at <= s.clock && CurrentFrom(s.raws, e.raw, e.at - SETTINGS_MS - s.slowest)
      && CurrentFrom(s.days, e.days, e.at)
  }

  predicate Traced(s: State) {
    Formed(s) && SettingsFit(s) && CacheFits(s) && forall id | id in s.calls :: Fits(s, s.calls[id])
  }

  /** Versions are only added, as of now, and the clock goes on. */
  predicate Added<T(==)>(a: Versions<T>, b: Versions<T>, now: int) {
    |a| <= |b| && forall i | 0 <= i < |b| :: if i < |a| then b[i] == a[i] else b[i].since == now
  }

  predicate Later(s: State, t: State) {
    && Added(s.raws, t.raws, s.clock) && Added(s.days, t.days, s.clock)
    && s.clock <= t.clock && s.slowest <= t.slowest
  }

  lemma StepIsLater(s: State, ev: Event)
    requires Formed(s)
    ensures Later(s, Step(s, ev)) && Formed(Step(s, ev))
    ensures Step(s, ev).calls.Keys == s.calls.Keys
    ensures forall id | id in s.calls && (ev.Tick? || ev.id != id) :: Step(s, ev).calls[id] == s.calls[id]
  {
  }

  lemma StaysCurrent<T>(a: Versions<T>, b: Versions<T>, now: int, version: nat, at: int, from: int)
    requires Added(a, b, now) && CurrentFrom(a, version, at) && from <= at <= now
    ensures CurrentFrom(b, version, from)
  {
  }

  lemma StaysFit(s: State, t: State, stage: Stage)
    requires Later(s, t) && Fits(s, stage)
    ensures Fits(t, stage)
  {
    hide Added;
    hide CurrentFrom;
    match stage
    case Looking(began, half) => HalfStaysFit(s, t, began, half);
    case Fetching(began, half, rows) =>
      HalfStaysFit(s, t, began, half);
      if rows.Some? {
        StaysCurrent(s.days, t.days, s.clock, rows.value, began, began);
      }
    case Answered(began, raw, days) =>
      StaysCurrent(s.raws, t.raws, s.clock, raw, began - CACHE_MS - SETTINGS_MS - s.slowest,
                   began - CACHE_MS - SETTINGS_MS - t.slowest);
      StaysCurrent(s.days, t.days, s.clock, days, began - CACHE_MS, began - CACHE_MS);
    case Caching(version, wrote, _) => StaysCurrent(s.raws, t.raws, s.clock, version, wrote, wrote);
    case _ =>
  }

  lemma HalfStaysFit(s: State, t: State, began: int, half: Half)
    requires Later(s, t) && HalfFits(s, began, half) && began <= s.clock
    ensures HalfFits(t, began, half)
  {
    hide Added;
    hide CurrentFrom;
    match half
    case Asking =>
    case Filling(version) => StaysCurrent(s.raws, t.raws, s.clock, version, began, began);
    case Got(version) =>
      StaysCurrent(s.raws, t.raws, s.clock, version, began - SETTINGS_MS - s.slowest,
                   began - SETTINGS_MS - t.slowest);
  }

  lemma CachesStayFit(s: State, t: State)
    requires Later(s, t) && SettingsFit(s) && CacheFits(s)
    ensures SettingsFit(t.(settings := s.settings)) && CacheFits(t.(cache := s.cache))
  {
    hide Added;
    hide CurrentFrom;
    if s.settings.Some? {
      var e := s.settings.value;
      StaysCurrent(s.raws, t.raws, s.clock, e.version, e.seen, e.seen);
    }
    if s.cache.Some? {
      var e := s.cache.value;
      StaysCurrent(s.raws, t.raws, s.clock, e.raw, e.at - SETTINGS_MS - s.slowest, e.at - SETTINGS_MS - t.slowest);
      StaysCurrent(s.days, t.days, s.clock, e.days, e.at, e.at);
    }
  }

  lemma AsksFits(s: State)
    requires SettingsFit(s)
    ensures HalfFits(s, s.clock, Asks(s))
  {
  }

  lemma TracedHalf(s: State, began: int, half: Half)
    requires Formed(s) && SettingsFit(s) && began <= s.clock && HalfFits(s, began, half)
    ensures var (next, settings) := ActHalf(s, began, half);
            HalfFits(s, began, next) && SettingsFit(s.(settings := settings))
  {
  }

  lemma TracedReader(s: State, id: CallId)
    requires Formed(s) && SettingsFit(s) && CacheFits(s) && id in s.calls && Fits(s, s.calls[id])
    requires s.calls[id].Looking? || s.calls[id].Fetching?
    ensures var t := Step(s, Go(id)); SettingsFit(t) && CacheFits(t) && id in t.calls && Fits(t, t.calls[id])
  {
    hide Later;
    hide HalfFits;
    hide ActHalf;
    var t, stage := Step(s, Go(id)), s.calls[id];
    StepIsLater(s, Go(id));
    CachesStayFit(s, t);
    if stage.Fetching? && stage.half.Got? && stage.rows.Some? {
      GotFits(s, stage.began, stage.half);
    } else {
      TracedHalf(s, stage.began, stage.half);
      HalfStaysFit(s, t, stage.began, ActHalf(s, stage.began, stage.half).0);
    }
  }

  /** What the call itself leaves in the caches and holds. */
  lemma TracedGo(s: State, id: CallId)
    requires Formed(s) && SettingsFit(s) && CacheFits(s) && id in s.calls && Fits(s, s.calls[id])
    ensures var t := Step(s, Go(id)); SettingsFit(t) && CacheFits(t) && id in t.calls && Fits(t, t.calls[id])
  {
    hide Later;
    hide HalfFits;
    hide Asks;
    var t := Step(s, Go(id));
    StepIsLater(s, Go(id));
    CachesStayFit(s, t);
    match s.calls[id]
    case Waiting(_) =>
      AsksFits(s);
      HalfStaysFit(s, t, s.clock, Asks(s));
    case Caching(_, _, _) =>
    case Clearing =>
    case Looking(_, _) => TracedReader(s, id);
    case Fetching(_, _, _) => TracedReader(s, id);
    case _ =>
  }

  lemma GotFits(s: State, began: int, half: Half)
    requires half.Got? && HalfFits(s, began, half)
    ensures CurrentFrom(s.raws, half.version, began - SETTINGS_MS - s.slowest)
  {
  }

  lemma TracedDays(s: State, id: CallId)
    requires Formed(s) && id in s.calls && Fits(s, s.calls[id])
    ensures var t := Step(s, ReadDays(id)); id in t.calls && Fits(t, t.calls[id])
  {
  }

  lemma TracedStep(s: State, ev: Event)
    requires Traced(s)
    ensures Traced(Step(s, ev))
  {
    hide Act;
    hide Fits;
    hide CacheFits;
    hide SettingsFit;
    hide Later;
    var t := Step(s, ev);
    StepIsLater(s, ev);
    CachesStayFit(s, t);
    if ev.Tick? {
      assert t.(settings := s.settings) == t && t.(cache := s.cache) == t;
    } else if ev.id in s.calls {
      assert Fits(s, s.calls[ev.id]);
      if ev.Go? {
        TracedGo(s, ev.id);
      } else {
        TracedDays(s, ev.id);
      }
    }
    forall id | id in t.calls
      ensures Fits(t, t.calls[id])
    {
      assert Fits(s, s.calls[id]);
      if t.calls[id] == s.calls[id] {
        StaysFit(s, t, s.calls[id]);
      }
    }
  }

  lemma {:induction false} TracedRun(s: State, events: seq<Event>)
    requires Traced(s)
    ensures Traced(Run(s, events))
    decreases events
  {
    hide Step;
    hide SettingsFit;
    hide CacheFits;
    hide Fits;
    if events != [] {
      TracedStep(s, events[0]);
      TracedRun(Step(s, events[0]), events[1..]);
    }
  }

  /** In every interleaving of reads with writes: the days of an answer were the stored ones at some instant no more
      than half a minute before the call began, or while it ran; its patterns at some instant no more than three
      quarters of a minute before, and the longest a settings write has taken to refill the settings cache. */
  lemma NoAnswerIsOlder(s: State, events: seq<Event>, id: CallId)
    requires Initial(s)
    requires id in Run(s, events).calls && Run(s, events).calls[id].Answered?
    ensures var t, answer := Run(s, events), Run(s, events).calls[id];
            && answer.days < |t.days| && answer.raw < |t.raws|
            && (answer.days + 1 < |t.days| ==> answer.began - 30_000 <= t.days[answer.days + 1].since)
            && (answer.raw + 1 < |t.raws| ==> answer.began - 45_000 - t.slowest <= t.raws[answer.raw + 1].since)
  {
    assert forall k | k in s.calls :: Fits(s, s.calls[k]);
    TracedRun(s, events);
    assert Fits(Run(s, events), Run(s, events).calls[id]);
  }

  /** A cached calendar is answered for just under 30 s, and cached settings for just under 15 s, from when their call
      had begun; and what is not cached is read. */
  lemma AnsweredWhileCached(s: State, id: CallId)
    requires Formed(s) && id in s.calls && s.calls[id] == Waiting(Calendar)
    ensures var next := Step(s, Go(id)).calls[id];
            var settings := s.settings.Some? && s.clock < s.settings.value.at + 15_000;
            if s.cache.Some? && s.clock < s.cache.value.at + 30_000
            then next == Answered(s.clock, s.cache.value.raw, s.cache.value.days)
            else next == Fetching(s.clock, if settings then Got(s.settings.value.version) else Asking, None)
  {
  }

  // ---- and that it is ----

  lemma RunOne(s: State, ev: Event)
    requires Formed(s)
    ensures Run(s, [ev]) == Step(s, ev)
  {
    assert [ev][1..] == [];
    FormedStep(s, ev);
  }

  lemma {:induction false} RunOn(s: State, first: seq<Event>, rest: seq<Event>)
    requires Formed(s)
    ensures Run(s, first + rest) == Run(Run(s, first), rest)
    decreases first
  {
    hide Step;
    if first == [] {
      assert first + rest == rest;
    } else {
      FormedStep(s, first[0]);
      RunOn(Step(s, first[0]), first[1..], rest);
      assert (first + rest)[1..] == first[1..] + rest;
    }
  }

  lemma RunTwo(s: State, a: Event, b: Event)
    requires Formed(s)
    ensures Formed(Step(s, a)) && Run(s, [a, b]) == Step(Step(s, a), b)
  {
    hide Step;
    FormedStep(s, a);
    RunOn(s, [a], [b]);
    RunOne(s, a);
    RunOne(Step(s, a), b);
    assert [a] + [b] == [a, b];
  }

  lemma RunThree(s: State, a: Event, b: Event, c: Event)
    requires Formed(s)
    ensures Formed(Step(s, a)) && Formed(Step(Step(s, a), b))
    ensures Run(s, [a, b, c]) == Step(Step(Step(s, a), b), c)
  {
    hide Step;
    RunTwo(s, a, b);
    FormedStep(Step(s, a), b);
    RunOn(s, [a, b], [c]);
    RunOne(Step(Step(s, a), b), c);
    assert [a, b] + [c] == [a, b, c];
  }

  /** A save of the settings: committed, put into the settings cache and, for a pattern, the calendar dropped. */
  function Saves(id: CallId): seq<Event> { [Go(id), Go(id), Go(id)] }

  /** A calendar day set: committed, and the calendar dropped. */
  function Sets(id: CallId): seq<Event> { [Go(id), Go(id)] }

  lemma SavesRun(s: State, id: CallId)
    requires Formed(s) && id in s.calls && s.calls[id].Waiting?
    requires s.calls[id].req.SaveSettings? && s.calls[id].req.pattern
    ensures Run(s, Saves(id)) ==
            s.(raws := s.raws + [Version(s.calls[id].req.raw, s.clock)], calls := s.calls[id := Over], cache := None,
               settings := Some(Settings(|s.raws|, s.clock, s.clock)))
  {
    RunThree(s, Go(id), Go(id), Go(id));
  }

  lemma SetsRun(s: State, id: CallId)
    requires Formed(s) && id in s.calls && s.calls[id].Waiting? && s.calls[id].req.SaveDay?
    ensures Run(s, Sets(id)) ==
            s.(days := s.days + [Version(s.calls[id].req.days, s.clock)], calls := s.calls[id := Over], cache := None)
  {
    RunTwo(s, Go(id), Go(id));
  }

  /** A call that had read before a write and fills after it puts the older calendar back, and the next call is
      given it. */
  lemma FillAfterWriteIsOld(s: State, reader: CallId, next: CallId, writer: CallId)
    requires Formed(s) && reader in s.calls && next in s.calls && writer in s.calls && reader != next
    requires s.calls[reader] == Fetching(s.clock, Got(|s.raws| - 1), Some(|s.days| - 1))
    requires s.calls[next] == Waiting(Calendar) && s.calls[writer].Waiting? && s.calls[writer].req.SaveDay?
    ensures var t := Run(s, Sets(writer) + [Go(reader), Go(next)]);
            && next in t.calls && t.calls[next] == Answered(s.clock, |s.raws| - 1, |s.days| - 1)
            && |t.days| == |s.days| + 1 && writer in t.calls && t.calls[writer].Over?
  {
    RunOn(s, Sets(writer), [Go(reader), Go(next)]);
    SetsRun(s, writer);
    RunTwo(Run(s, Sets(writer)), Go(reader), Go(next));
  }

  /** No moment had both: one of the two was replaced before the other was written. */
  predicate NeverTogether(s: State, raw: nat, days: nat) {
    raw < |s.raws| && days < |s.days| &&
    ((raw + 1 < |s.raws| && s.raws[raw + 1].since < s.days[days].since)
     || (days + 1 < |s.days| && s.days[days + 1].since < s.raws[raw].since))
  }

  /** A read whose settings are read and whose days are not, with nothing in between. */
  lemma FetchRun(s: State, id: CallId, began: int, raw: nat)
    requires Formed(s) && id in s.calls && s.calls[id] == Fetching(began, Filling(raw), None)
    ensures Run(s, [ReadDays(id), Go(id), Go(id)]) ==
            s.(settings := Some(Settings(raw, began, began)), cache := Some(Entry(raw, |s.days| - 1, began)),
               calls := s.calls[id := Answered(began, raw, |s.days| - 1)])
  {
    RunThree(s, ReadDays(id), Go(id), Go(id));
    var a := Step(s, ReadDays(id));
    assert a.calls[id] == Fetching(began, Filling(raw), Some(|s.days| - 1));
    var b := Step(a, Go(id));
    assert b.calls[id] == Fetching(began, Got(raw), Some(|s.days| - 1));
  }

  lemma WaitRun(s: State, ms: nat)
    requires Formed(s)
    ensures Run(s, [Tick(ms)]) == s.(clock := s.clock + ms)
  {
    RunOne(s, Tick(ms));
  }

  /** The halves of a read can straddle two writes: the pattern of before the first with the days of after the
      second, which was the calendar at no time, is answered and stays in the cache. */
  lemma AnswerNobodyHad(s: State, reader: CallId, first: CallId, second: CallId)
    requires Formed(s) && reader in s.calls && first in s.calls && second in s.calls && first != second
    requires s.calls[reader] == Fetching(s.clock, Filling(|s.raws| - 1), None)
    requires s.calls[first].Waiting? && s.calls[first].req.SaveSettings? && s.calls[first].req.pattern
    requires s.calls[second].Waiting? && s.calls[second].req.SaveDay?
    ensures var t := Run(Run(s, Saves(first) + [Tick(1)] + Sets(second)), [ReadDays(reader), Go(reader), Go(reader)]);
            && reader in t.calls && t.calls[reader] == Answered(s.clock, |s.raws| - 1, |s.days|)
            && t.cache == Some(Entry(|s.raws| - 1, |s.days|, s.clock))
            && NeverTogether(t, |s.raws| - 1, |s.days|)
  {
    hide Run;
    hide Saves;
    hide Sets;
    SavesRun(s, first);
    var saved := Run(s, Saves(first));
    WaitRun(saved, 1);
    var later := Run(saved, [Tick(1)]);
    SetsRun(later, second);
    var written := Run(later, Sets(second));
    RunOn(s, Saves(first), [Tick(1)]);
    RunOn(s, Saves(first) + [Tick(1)], Sets(second));
    assert written.calls[reader] == s.calls[reader];
    FetchRun(written, reader, s.clock, |s.raws| - 1);
  }

  lemma LookRun(s: State, id: CallId, began: int, raw: nat)
    requires Formed(s) && id in s.calls && s.calls[id] == Looking(began, Filling(raw))
    ensures Run(s, [Go(id)]) ==
            s.(settings := Some(Settings(raw, began, began)), calls := s.calls[id := Looking(began, Got(raw))])
  {
    RunOne(s, Go(id));
  }

  lemma AskRun(s: State, id: CallId, ms: nat)
    requires Formed(s) && id in s.calls && s.calls[id] == Waiting(Calendar)
    ensures Run(s, [Tick(ms), Go(id)]) == Act(s.(clock := s.clock + ms), id, Waiting(Calendar))
  {
    RunTwo(s, Tick(ms), Go(id));
  }

  lemma MadeRun(s: State, id: CallId)
    requires Formed(s) && id in s.calls && s.calls[id].Fetching? && s.calls[id].half.Got? && s.calls[id].rows == None
    ensures var read := s.calls[id];
            Run(s, [ReadDays(id), Go(id)]) ==
            s.(cache := Some(Entry(read.half.version, |s.days| - 1, read.began)),
               calls := s.calls[id := Answered(read.began, read.half.version, |s.days| - 1)])
  {
    RunTwo(s, ReadDays(id), Go(id));
  }

  lemma LookReads(s: State, id: CallId)
    requires Formed(s) && id in s.calls && s.calls[id] == Waiting(Look) && s.settings == None
    ensures Run(s, [Go(id), Go(id)]) == s.(calls := s.calls[id := Looking(s.clock, Filling(|s.raws| - 1))])
  {
    hide Run;
    var asked := s.(calls := s.calls[id := Looking(s.clock, Asking)]);
    assert Step(s, Go(id)) == asked;
    assert Step(asked, Go(id)).calls == s.calls[id := Looking(s.clock, Filling(|s.raws| - 1))];
    RunTwo(s, Go(id), Go(id));
  }

  lemma FillsAfterPattern(s: State, look: CallId, writer: CallId, first: CallId, second: CallId)
    requires Formed(s) && look in s.calls && writer in s.calls && first in s.calls && second in s.calls
    requires first != second && s.calls[look] == Looking(s.clock, Filling(|s.raws| - 1))
    requires s.calls[writer].Waiting? && s.calls[writer].req.SaveSettings? && s.calls[writer].req.pattern
    requires s.calls[first] == s.calls[second] == Waiting(Calendar)
    ensures var t := Run(Run(Run(s, Saves(writer) + [Go(look)]), [Tick(14_999), Go(first)]),
                         [ReadDays(first), Go(first)] + [Tick(29_999), Go(second)]);
            && second in t.calls && t.calls[second].Answered? && t.calls[second].raw == |s.raws| - 1
            && t.calls[second].began == s.clock + 44_998 && |t.raws| == |s.raws| + 1
            && t.raws[|s.raws|].since == s.clock
  {
    hide Run;
    hide Saves;
    SavesRun(s, writer);
    var saved := Run(s, Saves(writer));
    LookRun(saved, look, s.clock, |s.raws| - 1);
    RunOn(s, Saves(writer), [Go(look)]);
    var filled := Run(saved, [Go(look)]);
    AskRun(filled, first, 14_999);
    var asked := Run(filled, [Tick(14_999), Go(first)]);
    MadeRun(asked, first);
    var made := Run(asked, [ReadDays(first), Go(first)]);
    RunOn(asked, [ReadDays(first), Go(first)], [Tick(29_999), Go(second)]);
    AskRun(made, second, 29_999);
  }

  /** A look at the settings that read before a pattern was written fills after it; a calendar made of that just
      before it lapses is still answered just before that lapses, nearly 45 s after the pattern changed. */
  lemma PatternNearly45SecondsOld(s: State, look: CallId, writer: CallId, first: CallId, second: CallId)
    requires Formed(s) && look in s.calls && writer in s.calls && first in s.calls && second in s.calls
    requires first != second && s.settings == None && s.calls[look] == Waiting(Look)
    requires s.calls[writer].Waiting? && s.calls[writer].req.SaveSettings? && s.calls[writer].req.pattern
    requires s.calls[first] == s.calls[second] == Waiting(Calendar)
    ensures var read := Run(s, [Go(look), Go(look)]);
            var t := Run(Run(Run(read, Saves(writer) + [Go(look)]), [Tick(14_999), Go(first)]),
                         [ReadDays(first), Go(first)] + [Tick(29_999), Go(second)]);
            && second in t.calls && t.calls[second].Answered? && t.calls[second].raw == |s.raws| - 1
            && t.calls[second].began == s.clock + 44_998 && |t.raws| == |s.raws| + 1
            && t.raws[|s.raws|].since == s.clock
  {
    hide Run;
    hide Saves;
    LookReads(s, look);
    FillsAfterPattern(Run(s, [Go(look), Go(look)]), look, writer, first, second);
  }

  /** And however long a settings write takes to refill the cache, so much older can the patterns be: when another
      has been committed meanwhile, the slow one puts its own settings back, as if they had just been read. */
  lemma SlowWriteCachesOldSettings(s: State, slow: CallId, quick: CallId, ms: nat)
    requires Formed(s) && slow in s.calls && quick in s.calls && slow != quick
    requires s.calls[slow].Waiting? && s.calls[slow].req.SaveSettings?
    requires s.calls[quick].Waiting? && s.calls[quick].req.SaveSettings?
    ensures var t := Run(Run(s, [Go(slow), Go(quick), Go(quick)]), [Tick(ms), Go(slow)]);
            && t.settings == Some(Settings(|s.raws|, t.clock, s.clock))
            && t.clock == s.clock + ms <= s.clock + t.slowest
            && |t.raws| == |s.raws| + 2 && t.raws[|s.raws| + 1].since == s.clock
  {
    RunThree(s, Go(slow), Go(quick), Go(quick));
    RunTwo(Run(s, [Go(slow), Go(quick), Go(quick)]), Tick(ms), Go(slow));
  }
}
