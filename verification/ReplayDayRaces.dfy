/** Several replayed actions of one person at once, each reopening and restoring the same day.

    Every `await` of `reopenAutoClosed` ends a step, and so do the action itself and `restore`, and either of the two
    writes may fail. Actions that fail write nothing to the day, and what those that succeed write is not modelled. */
module ReplayDayRaces {
  import opened Options
  import opened ReplayDay

  type CallId = nat

  datatype Stage =
    | Arriving(eventAt: int)
    | Counting(eventAt: int, k: nat, last: Session)
    | Bounding(eventAt: int, k: nat, last: Session)
    | Marking(k: nat, last: Session)
    | Opening(before: Reopened)
    | Acting(reopened: Option<Reopened>)
    | Restoring(before: Reopened)
    | Done(keeps: bool)   // `keeps`: it had reopened the day, and succeeded in it or could not put it back
  {
    /** Has reopened the day and not put it back. */
    predicate Holds() { (Acting? && reopened.Some?) || Restoring? }

    function Held(): Reopened
      requires Holds()
    {
      if Acting? then reopened.value else before
    }
  }

  datatype State = State(day: Day, calls: map<CallId, Stage>)
  datatype Event = Go(id: CallId, fails: bool) | Break(id: CallId)

  /** Closed by itself, before the action and on the same working day. */
  predicate ClosedBefore(last: Session, eventAt: int) {
    && last.endedAt.Some? && last.endReason == Some(AutoClosed)
    && last.endedAt.value < eventAt <= last.startedAt + SAME_DAY_MS
  }

  function Opened(last: Session): Session { last.(endedAt := None, source := "REPLAY") }

  /** The transaction that reopens. */
  function Open(day: Day, r: Reopened): Day
    requires r.session < |day.sessions|
  {
    Day(day.sessions[r.session := Opened(day.sessions[r.session])],
        if r.dayEndedAt.Some? then day.dayEnds[r.date := None] else day.dayEnds)
  }

  function Act(day: Day, limits: Limits, stage: Stage, fails: bool): (Stage, Day) {
    match stage
    case Arriving(at) =>
      if day.sessions == [] then (Acting(None), day)
      else
        var k := LatestSession(day.sessions);
        (if ClosedBefore(day.sessions[k], at) then Counting(at, k, day.sessions[k]) else Acting(None), day)
    case Counting(at, k, last) =>
      (if OpenCount(day.sessions) == 0 && limits.Some? then Bounding(at, k, last) else Acting(None), day)
    case Bounding(at, k, last) =>
      (if limits.Some? && at <= limits.value(last.date, last.startedAt) then Marking(k, last) else Acting(None), day)
    case Marking(k, last) =>
      (if last.endedAt.None? then Acting(None)
       else
         var mark := DayMark(day, last.date);
         Opening(Reopened(k, last.date, last.endedAt.value, last.endReason, last.source, mark)), day)
    case Opening(r) => if r.session < |day.sessions| then (Acting(Some(r)), Open(day, r)) else (Acting(None), day)
    case Acting(reopened) =>
      (if fails && reopened.Some? then Restoring(reopened.value) else Done(!fails && reopened.Some?), day)
    case Restoring(r) => (Done(false), if r.session < |day.sessions| then Restore(day, r) else day)
    case Done(_) => (stage, day)
  }

  /** A write that fails: a reopening is answered with an error, a putting back is only logged. */
  function Broken(stage: Stage): Stage {
    if stage.Opening? then Done(false) else if stage.Restoring? then Done(true) else stage
  }

  function Rank(stage: Stage): nat {
    match stage
    case Arriving(_) => 5
    case Counting(_, _, _) => 4
    case Bounding(_, _, _) => 3
    case Marking(_, _) => 2
    case Opening(_) => 1
    case _ => 0
  }

  /** A call's own steps until its action, with nothing in between. */
  function UntilActing(day: Day, limits: Limits, stage: Stage): (Stage, Day)
    decreases Rank(stage)
  {
    if Rank(stage) == 0 then (stage, day)
    else
      var (next, after) := Act(day, limits, stage, false);
      UntilActing(after, limits, next)
  }

  lemma UntilActingFrom(day: Day, limits: Limits, stage: Stage)
    requires Rank(stage) > 0
    ensures UntilActing(day, limits, stage) ==
            UntilActing(Act(day, limits, stage, false).1, limits, Act(day, limits, stage, false).0)
  {
  }

  /** Taken together, with nothing in between, the steps are one reopening, or none. */
  lemma StepsAreReopen(day: Day, limits: Limits, eventAt: int)
    ensures var (before, after) := Reopen(day, eventAt, limits);
            UntilActing(day, limits, Arriving(eventAt)) == (Acting(before), after)
  {
    hide OpenCount;
    UntilActingFrom(day, limits, Arriving(eventAt));
    if day.sessions != [] {
      var k := LatestSession(day.sessions);
      var last := day.sessions[k];
      if ClosedBefore(last, eventAt) {
        UntilActingFrom(day, limits, Counting(eventAt, k, last));
        if OpenCount(day.sessions) == 0 && limits.Some? {
          UntilActingFrom(day, limits, Bounding(eventAt, k, last));
          if eventAt <= limits.value(last.date, last.startedAt) {
            UntilActingFrom(day, limits, Marking(k, last));
            var mark := DayMark(day, last.date);
            UntilActingFrom(day, limits, Opening(Reopened(k, last.date, last.endedAt.value, last.endReason, last.source,
                                                          mark)));
          }
        }
      }
    }
  }

  /** And an action that fails puts back what it reopened; one that succeeds writes nothing more here. */
  lemma ActionEnds(day: Day, limits: Limits, reopened: Option<Reopened>)
    requires reopened.Some? ==> reopened.value.session < |day.sessions|
    ensures Act(day, limits, Acting(reopened), false) == (Done(reopened.Some?), day)
    ensures var (failed, after) := Act(day, limits, Acting(reopened), true);
            && after == day
            && (if reopened.None? then failed == Done(false)
                else Act(day, limits, failed, true) == (Done(false), Restore(day, reopened.value)))
  {
  }

  function Step(s: State, limits: Limits, ev: Event): State {
    if ev.id !in s.calls then s
    else if ev.Break? then s.(calls := s.calls[ev.id := Broken(s.calls[ev.id])])
    else
      var (stage, day) := Act(s.day, limits, s.calls[ev.id], ev.fails);
      State(day, s.calls[ev.id := stage])
  }

  /** A write that fails leaves the day as it is: a call that could not reopen keeps nothing open, and one that could
      not put back what it reopened does. */
  lemma BreakIs(s: State, limits: Limits, id: CallId)
    requires id in s.calls
    ensures Step(s, limits, Break(id)) ==
            s.(calls := s.calls[id := if s.calls[id].Opening? then Done(false)
                                      else if s.calls[id].Restoring? then Done(true)
                                      else s.calls[id]])
  {
  }

  function Run(s: State, limits: Limits, events: seq<Event>): State
    decreases events
  {
    if events == [] then s else Run(Step(s, limits, events[0]), limits, events[1..])
  }

  predicate Initial(s: State) { forall id | id in s.calls :: s.calls[id].Arriving? }

  // ---- the only session that changes ----

  lemma {:induction false} SameLatest(sessions: seq<Session>, k: nat, s: Session)
    requires k < |sessions| && s.startedAt == sessions[k].startedAt
    ensures LatestSession(sessions[k := s]) == LatestSession(sessions)
    decreases |sessions|
  {
    var n := |sessions| - 1;
    if n > 0 {
      var changed := sessions[k := s];
      LatestOfMore(sessions);
      LatestOfMore(changed);
      if k < n {
        SameLatest(sessions[..n], k, s);
        assert changed[..n] == sessions[..n][k := s];
      } else {
        assert changed[..n] == sessions[..n];
      }
    }
  }

  lemma LatestOfMore(sessions: seq<Session>)
    requires |sessions| > 1
    ensures var n := |sessions| - 1;
            var k := LatestSession(sessions[..n]);
            LatestSession(sessions) == if sessions[n].startedAt > sessions[k].startedAt then n else k
  {
  }

  /** The day is the original one, but for its latest session open and that session's mark taken off. */
  predicate Near(day: Day, was: Day) {
    if was.sessions == [] then day == was
    else
      var k := LatestSession(was.sessions);
      var last := was.sessions[k];
      && (day.sessions == was.sessions || (OpenCount(was.sessions) == 0
        && day.sessions == was.sessions[k := Opened(last)]))
      && (day.dayEnds == was.dayEnds || (DayMark(was, last.date).Some?
        && day.dayEnds == was.dayEnds[last.date := None]))
  }

  /** What a call has read is the original session, and its mark unless another call had taken it off. */
  predicate Read(r: Reopened, was: Day) {
    was.sessions != [] &&
    var k := LatestSession(was.sessions);
    var last := was.sessions[k];
    && last.endedAt.Some?
    && r.session == k && r.date == last.date && r.endedAt == last.endedAt.value
    && r.endReason == last.endReason && r.source == last.source
    && (r.dayEndedAt.None? || r.dayEndedAt == DayMark(was, last.date))
  }

  predicate Fits(stage: Stage, was: Day) {
    && (stage.Counting? || stage.Bounding? || stage.Marking? ==>
          was.sessions != [] && stage.k == LatestSession(was.sessions) && stage.last == was.sessions[stage.k]
          && stage.last.endedAt.Some?)
    && (stage.Bounding? || stage.Marking? || stage.Opening? || stage.Holds() ==> OpenCount(was.sessions) == 0)
    && (stage.Opening? ==> Read(stage.before, was))
    && (stage.Holds() ==> Read(stage.Held(), was))
  }

  /** Somebody who will put the session back, and somebody who will put the mark back. */
  ghost predicate Answered(s: State, was: Day) {
    && (s.day.sessions != was.sessions ==>
      exists id | id in s.calls :: s.calls[id].Holds() || s.calls[id] == Done(true))
    && (s.day.dayEnds != was.dayEnds ==>
          exists id | id in s.calls :: (s.calls[id].Holds()
            && s.calls[id].Held().dayEndedAt.Some?) || s.calls[id] == Done(true))
  }

  ghost predicate Kept(s: State, was: Day) {
    Near(s.day, was) && (forall id | id in s.calls :: Fits(s.calls[id], was)) && Answered(s, was)
  }

  lemma ActFits(day: Day, was: Day, limits: Limits, stage: Stage, fails: bool)
    requires Near(day, was) && Fits(stage, was)
    ensures Fits(Act(day, limits, stage, fails).0, was)
  {
    hide LatestSession;
    if stage.Arriving? && was.sessions != [] {
      var k := LatestSession(was.sessions);
      SameLatest(was.sessions, k, Opened(was.sessions[k]));
    }
  }

  /** Restoring gives back the session whatever happened to it, and the mark to whoever read it. */
  lemma ActNear(day: Day, was: Day, limits: Limits, stage: Stage, fails: bool)
    requires Near(day, was) && Fits(stage, was)
    ensures var (next, after) := Act(day, limits, stage, fails);
            && Near(after, was)
            && (after.sessions != was.sessions ==> next.Holds() || (after == day && !stage.Restoring?))
            && (after.dayEnds != day.dayEnds && after.dayEnds != was.dayEnds ==>
              next.Holds() && next.Held().dayEndedAt.Some?)
            && (stage.Restoring? && stage.before.dayEndedAt.Some? ==> after.dayEnds == was.dayEnds)
  {
    hide OpenCount;
    hide LatestSession;
    if stage.Opening? || stage.Restoring? {
      var k := LatestSession(was.sessions);
      var last := was.sessions[k];
      assert was.sessions[k := last] == was.sessions;
      assert was.sessions[k := Opened(last)][k := last] == was.sessions;
      assert was.sessions[k := Opened(last)][k := Opened(last)] == was.sessions[k := Opened(last)];
      var after := Act(day, limits, stage, fails).1;
      if DayMark(was, last.date).Some? {
        assert was.dayEnds[last.date := None][last.date := DayMark(was, last.date)] == was.dayEnds;
        assert was.dayEnds[last.date := DayMark(was, last.date)] == was.dayEnds;
        assert was.dayEnds[last.date := None][last.date := None] == was.dayEnds[last.date := None];
      }
    }
  }

  /** A step keeps holding what it holds until it puts it back or succeeds. */
  lemma StillHolds(day: Day, limits: Limits, stage: Stage, fails: bool)
    requires stage.Holds() && !stage.Restoring?
    ensures var next := Act(day, limits, stage, fails).0;
            next == Done(true) || (next.Holds() && next.Held() == stage.Held())
  {
  }

  lemma AnsweredStep(s: State, was: Day, limits: Limits, ev: Event)
    requires Kept(s, was) && ev.id in s.calls && ev.Go?
    ensures Answered(Step(s, limits, ev), was)
  {
    hide Act;
    hide Near;
    hide Fits;
    var t, stage := Step(s, limits, ev), s.calls[ev.id];
    assert Fits(stage, was);
    ActNear(s.day, was, limits, stage, ev.fails);
    if stage.Holds() && !stage.Restoring? {
      StillHolds(s.day, limits, stage, ev.fails);
    }
    DoneStays(s.day, limits, stage, ev.fails);
    if t.day.sessions != was.sessions && !t.calls[ev.id].Holds() {
      var id :| id in s.calls && (s.calls[id].Holds() || s.calls[id] == Done(true));
      assert t.calls[id].Holds() || t.calls[id] == Done(true);
    }
    if t.day.dayEnds != was.dayEnds {
      if t.day.dayEnds == s.day.dayEnds {
        var id :| id in s.calls && ((s.calls[id].Holds()
          && s.calls[id].Held().dayEndedAt.Some?) || s.calls[id] == Done(true));
        assert (t.calls[id].Holds() && t.calls[id].Held().dayEndedAt.Some?) || t.calls[id] == Done(true);
      } else {
        assert t.calls[ev.id].Holds() && t.calls[ev.id].Held().dayEndedAt.Some?;
      }
    }
  }

  lemma DoneStays(day: Day, limits: Limits, stage: Stage, fails: bool)
    ensures stage == Done(true) ==> Act(day, limits, stage, fails) == (stage, day)
  {
  }

  lemma BrokenStep(s: State, was: Day, limits: Limits, id: CallId)
    requires Kept(s, was) && id in s.calls
    ensures Kept(Step(s, limits, Break(id)), was)
  {
    hide Near;
    var t := Step(s, limits, Break(id));
    if t.day.sessions != was.sessions {
      var k :| k in s.calls && (s.calls[k].Holds() || s.calls[k] == Done(true));
      assert t.calls[k].Holds() || t.calls[k] == Done(true);
    }
    if t.day.dayEnds != was.dayEnds {
      var k :| k in s.calls && ((s.calls[k].Holds() && s.calls[k].Held().dayEndedAt.Some?) || s.calls[k] == Done(true));
      assert (t.calls[k].Holds() && t.calls[k].Held().dayEndedAt.Some?) || t.calls[k] == Done(true);
    }
  }

  lemma KeptStep(s: State, was: Day, limits: Limits, ev: Event)
    requires Kept(s, was)
    ensures Kept(Step(s, limits, ev), was)
  {
    hide Act;
    hide Near;
    hide Answered;
    if ev.id in s.calls && ev.Break? {
      BrokenStep(s, was, limits, ev.id);
    } else if ev.id in s.calls {
      hide Fits;
      AnsweredStep(s, was, limits, ev);
      ActNear(s.day, was, limits, s.calls[ev.id], ev.fails);
      ActFits(s.day, was, limits, s.calls[ev.id], ev.fails);
    }
  }

  lemma {:induction false} KeptRun(s: State, was: Day, limits: Limits, events: seq<Event>)
    requires Kept(s, was)
    ensures Kept(Run(s, limits, events), was)
    decreases events
  {
    if events != [] {
      KeptStep(s, was, limits, events[0]);
      KeptRun(Step(s, limits, events[0]), was, limits, events[1..]);
    }
  }

  lemma InitialKept(s: State)
    requires Initial(s)
    ensures Kept(s, s.day)
  {
  }

  /** In every interleaving of replayed actions: once all of them have ended, none that succeeded had reopened the day
      itself and none could not put it back, the day is exactly what it was, each session field and mark of it, however
      often it was reopened and put back meanwhile. */
  lemma RefusedActionsLeaveTheDay(s: State, limits: Limits, events: seq<Event>)
    requires Initial(s)
    requires forall id | id in Run(s, limits, events).calls :: Run(s, limits, events).calls[id] == Done(false)
    ensures Run(s, limits, events).day == s.day
  {
    InitialKept(s);
    KeptRun(s, s.day, limits, events);
  }

  /** And at no moment of any interleaving do they give the person a second open session. */
  lemma OneOpenThroughout(s: State, limits: Limits, events: seq<Event>)
    requires Initial(s) && OpenCount(s.day.sessions) <= 1
    ensures OpenCount(Run(s, limits, events).day.sessions) <= 1
  {
    InitialKept(s);
    KeptRun(s, s.day, limits, events);
    hide Fits;
    hide Answered;
    hide Run;
    var t := Run(s, limits, events);
    if t.day.sessions != s.day.sessions {
      var k := LatestSession(s.day.sessions);
      OpenCountUpdate(s.day.sessions, k, Opened(s.day.sessions[k]));
    }
  }

  // ---- which write counts ----

  predicate Reopens(s: State, ev: Event) {
    ev.Go? && ev.id in s.calls && s.calls[ev.id].Opening? && s.calls[ev.id].before.session < |s.day.sessions|
  }

  predicate PutsBack(s: State, ev: Event) {
    ev.Go? && ev.id in s.calls && s.calls[ev.id].Restoring? && s.calls[ev.id].before.session < |s.day.sessions|
  }

  /** The last reopening (true) or putting back (false) of the run. */
  function LastWrite(s: State, limits: Limits, events: seq<Event>): Option<bool>
    decreases events
  {
    if events == [] then None
    else
      var later := LastWrite(Step(s, limits, events[0]), limits, events[1..]);
      if later.Some? then later
      else if Reopens(s, events[0]) then Some(true)
      else if PutsBack(s, events[0]) then Some(false)
      else None
  }

  /** The last of them that wrote the day-end mark: taken off (true) or put back (false). */
  function LastMark(s: State, limits: Limits, events: seq<Event>): Option<bool>
    decreases events
  {
    if events == [] then None
    else
      var later := LastMark(Step(s, limits, events[0]), limits, events[1..]);
      if later.Some? then later
      else if Reopens(s, events[0]) && s.calls[events[0].id].before.dayEndedAt.Some? then Some(true)
      else if PutsBack(s, events[0]) && s.calls[events[0].id].before.dayEndedAt.Some? then Some(false)
      else None
  }

  function LastIn(was: Day): Session
    requires was.sessions != []
  {
    was.sessions[LatestSession(was.sessions)]
  }

  function WithSession(was: Day, open: bool): seq<Session>
    requires was.sessions != []
  {
    if open then was.sessions[LatestSession(was.sessions) := Opened(LastIn(was))] else was.sessions
  }

  function WithMark(was: Day, off: bool): map<string, Option<int>>
    requires was.sessions != []
  {
    if off then was.dayEnds[LastIn(was).date := None] else was.dayEnds
  }

  lemma WriteStep(s: State, was: Day, limits: Limits, ev: Event, open: bool, off: bool)
    requires Kept(s, was) && was.sessions != []
    requires s.day == Day(WithSession(was, open), WithMark(was, off))
    ensures var nowOpen := if Reopens(s, ev) then true else if PutsBack(s, ev) then false else open;
            var marked := ev.id in s.calls && (s.calls[ev.id].Opening? || s.calls[ev.id].Restoring?)
              && s.calls[ev.id].before.dayEndedAt.Some?;
            var nowOff := if marked && Reopens(s, ev) then true else if marked && PutsBack(s, ev) then false else off;
            Step(s, limits, ev).day == Day(WithSession(was, nowOpen), WithMark(was, nowOff))
  {
    hide OpenCount;
    hide LatestSession;
    hide Near;
    if Reopens(s, ev) || PutsBack(s, ev) {
      var k, last, r := LatestSession(was.sessions), LastIn(was), s.calls[ev.id].before;
      assert Fits(s.calls[ev.id], was);
      assert was.sessions[k := last] == was.sessions;
      assert was.sessions[k := Opened(last)][k := last] == was.sessions;
      assert was.sessions[k := Opened(last)][k := Opened(last)] == was.sessions[k := Opened(last)];
      if r.dayEndedAt.Some? {
        assert was.dayEnds[last.date := None][last.date := r.dayEndedAt] == was.dayEnds;
        assert was.dayEnds[last.date := r.dayEndedAt] == was.dayEnds;
        assert was.dayEnds[last.date := None][last.date := None] == was.dayEnds[last.date := None];
      }
    }
  }

  lemma {:induction false} WriteRun(s: State, was: Day, limits: Limits, events: seq<Event>, open: bool, off: bool)
    requires Kept(s, was) && was.sessions != []
    requires s.day == Day(WithSession(was, open), WithMark(was, off))
    ensures var wrote, mark := LastWrite(s, limits, events), LastMark(s, limits, events);
            Run(s, limits, events).day ==
            Day(WithSession(was, if wrote.Some? then wrote.value else open),
                WithMark(was, if mark.Some? then mark.value else off))
    decreases events
  {
    hide Kept;
    hide Step;
    hide WithSession;
    hide WithMark;
    if events != [] {
      var ev := events[0];
      var nowOpen := if Reopens(s, ev) then true else if PutsBack(s, ev) then false else open;
      var marked := ev.id in s.calls && (s.calls[ev.id].Opening? || s.calls[ev.id].Restoring?)
        && s.calls[ev.id].before.dayEndedAt.Some?;
      var nowOff := if marked && Reopens(s, ev) then true else if marked && PutsBack(s, ev) then false else off;
      WriteStep(s, was, limits, ev, open, off);
      KeptStep(s, was, limits, ev);
      WriteRun(Step(s, limits, ev), was, limits, events[1..], nowOpen, nowOff);
    }
  }

  /** Exactly when a day that closed by itself is open, at every moment of every interleaving: if and only if the
      last step that reopened it or put it back was a reopening, whichever action made it and whatever has become of
      that action or any other. Its mark is off if and only if the last that wrote it took it off; and all else is
      as it was. So an action that succeeded keeps the day it acted in open exactly when no refused one puts it
      back afterwards. */
  lemma OpenIffLastReopened(s: State, limits: Limits, events: seq<Event>)
    requires Initial(s) && s.day.sessions != [] && LastIn(s.day).endedAt.Some?
    ensures var k, t := LatestSession(s.day.sessions), Run(s, limits, events).day;
            var open, off := LastWrite(s, limits, events) == Some(true), LastMark(s, limits, events) == Some(true);
            && t == Day(WithSession(s.day, open), WithMark(s.day, off))
            && |t.sessions| == |s.day.sessions| && (t.sessions[k].endedAt.None? <==> open)
  {
    InitialKept(s);
    WriteRun(s, s.day, limits, events, false, false);
  }

  // ---- a success whose day is closed again ----

  function Times(ev: Event, n: nat): seq<Event> { seq(n, _ => ev) }

  lemma RunOn(s: State, limits: Limits, ev: Event, n: nat)
    requires n > 0
    ensures Run(s, limits, Times(ev, n)) == Run(Step(s, limits, ev), limits, Times(ev, n - 1))
  {
    assert Times(ev, n)[1..] == Times(ev, n - 1);
  }

  lemma RunNone(s: State, limits: Limits, ev: Event)
    ensures Run(s, limits, Times(ev, 0)) == s
  {
  }

  /** An action that belongs to a day closed by itself comes, with four steps, to reopening it. */
  lemma ComesToReopen(s: State, limits: Limits, id: CallId, at: int)
    requires id in s.calls && s.calls[id] == Arriving(at) && BelongsToClosedDay(s.day, at, limits)
    ensures Run(s, limits, Times(Go(id, false), 4)) ==
            s.(calls := s.calls[id := Opening(Reopen(s.day, at, limits).0.value)])
  {
    hide OpenCount;
    hide LatestSession;
    var ev := Go(id, false);
    var k := LatestSession(s.day.sessions);
    var last := s.day.sessions[k];
    var a := Step(s, limits, ev);
    assert a == s.(calls := s.calls[id := Counting(at, k, last)]);
    var b := Step(a, limits, ev);
    assert b == s.(calls := s.calls[id := Bounding(at, k, last)]);
    var c := Step(b, limits, ev);
    assert c == s.(calls := s.calls[id := Marking(k, last)]);
    var d := Step(c, limits, ev);
    assert d == s.(calls := s.calls[id := Opening(Reopen(s.day, at, limits).0.value)]);
    RunOn(s, limits, ev, 4);
    RunOn(a, limits, ev, 3);
    RunOn(b, limits, ev, 2);
    RunOn(c, limits, ev, 1);
    RunNone(d, limits, ev);
  }

  lemma RunFive(s: State, limits: Limits, a: Event, b: Event, c: Event, d: Event, e: Event)
    ensures Run(s, limits, [a, b, c, d, e]) ==
            Step(Step(Step(Step(Step(s, limits, a), limits, b), limits, c), limits, d), limits, e)
  {
    hide Step;
    var s1 := Step(s, limits, a);
    var s2 := Step(s1, limits, b);
    var s3 := Step(s2, limits, c);
    var s4 := Step(s3, limits, d);
    assert [a, b, c, d, e][1..] == [b, c, d, e] && [b, c, d, e][1..] == [c, d, e] && [c, d, e][1..] == [d, e];
    assert [d, e][1..] == [e] && [e][1..] == [];
    assert Run(s, limits, [a, b, c, d, e]) == Run(s1, limits, [b, c, d, e]) == Run(s2, limits, [c, d, e]);
    assert Run(s2, limits, [c, d, e]) == Run(s3, limits, [d, e]) == Run(s4, limits, [e]);
    assert Run(s4, limits, [e]) == Run(Step(s4, limits, e), limits, []);
  }

  /** What they can do to each other, from the start: an action reopens its day; another arrives in it, finds it open
      and succeeds; then the first is refused, and the day the second was applied in is closed again, as if neither
      had come. */
  lemma RefusalClosesTheDayUnderAnother(s: State, limits: Limits, first: CallId, second: CallId, at: int)
    requires Initial(s) && first in s.calls && second in s.calls && first != second
    requires s.calls[first] == Arriving(at) && BelongsToClosedDay(s.day, at, limits)
    ensures var ready := Run(s, limits, Times(Go(first, false), 4));
            var t := Run(ready, limits, [Go(first, false), Go(second, false), Go(second, false), Go(first, true),
                                         Go(first, true)]);
            && first in t.calls && second in t.calls && t.calls[first] == t.calls[second] == Done(false)
            && t.day == s.day && LastIn(t.day).endedAt.Some?
  {
    hide OpenCount;
    ComesToReopen(s, limits, first, at);
    var ready := Run(s, limits, Times(Go(first, false), 4));
    var r := Reopen(s.day, at, limits).0.value;
    var k := LatestSession(s.day.sessions);
    SameLatest(s.day.sessions, k, Opened(s.day.sessions[k]));
    var a := Step(ready, limits, Go(first, false));
    assert a == State(Reopen(s.day, at, limits).1, s.calls[first := Acting(Some(r))]);
    var b := Step(a, limits, Go(second, false));
    assert b == a.(calls := a.calls[second := Acting(None)]);
    RunFive(ready, limits, Go(first, false), Go(second, false), Go(second, false), Go(first, true), Go(first, true));
    RefusedActionLeavesTheDay(s.day, at, limits);
  }

  /** And two actions that both look before either writes both reopen the day: the one succeeds, as one that has
      reopened the day itself, and the other's refusal closes it all the same. */
  lemma SuccessThatReopenedIsClosedToo(s: State, limits: Limits, first: CallId, second: CallId, at: int, later: int)
    requires Initial(s) && first in s.calls && second in s.calls && first != second
    requires s.calls[first] == Arriving(at) && BelongsToClosedDay(s.day, at, limits)
    requires s.calls[second] == Arriving(later) && BelongsToClosedDay(s.day, later, limits)
    ensures var ready := Run(Run(s, limits, Times(Go(first, false), 4)), limits, Times(Go(second, false), 4));
            var t := Run(ready, limits, [Go(first, false), Go(second, false), Go(second, false), Go(first, true),
                                         Go(first, true)]);
            && first in t.calls && second in t.calls && t.calls[first] == Done(false) && t.calls[second] == Done(true)
            && t.day == s.day && LastIn(t.day).endedAt.Some?
  {
    hide OpenCount;
    hide LatestSession;
    ComesToReopen(s, limits, first, at);
    var r := Reopen(s.day, at, limits).0.value;
    var one := Run(s, limits, Times(Go(first, false), 4));
    ComesToReopen(one, limits, second, later);
    var ready := Run(one, limits, Times(Go(second, false), 4));
    assert ready == s.(calls := s.calls[first := Opening(r)][second := Opening(r)]);
    var openDay := Reopen(s.day, at, limits).1;
    var a := Step(ready, limits, Go(first, false));
    assert a == State(openDay, ready.calls[first := Acting(Some(r))]);
    assert Open(openDay, r) == openDay;
    RunFive(ready, limits, Go(first, false), Go(second, false), Go(second, false), Go(first, true), Go(first, true));
    RefusedActionLeavesTheDay(s.day, at, limits);
  }
}
