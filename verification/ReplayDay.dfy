/** Reopening an automatically closed working day for a replayed action, and putting it back when
    the action fails, for one person's sessions and day-end marks. */
module ReplayDay {
  import opened Options

  const SAME_DAY_MS := 72_000_000

  datatype Reason = ByUser | AutoClosed
  datatype Session = Session(date: string, startedAt: int, endedAt: Option<int>, endReason: Option<Reason>,
                             source: string)

  /** A person's sessions, in any order; a day-end row may exist for its login alone. */
  datatype Day = Day(sessions: seq<Session>, dayEnds: map<string, Option<int>>)

  datatype Reopened = Reopened(session: nat, date: string, endedAt: int, endReason: Option<Reason>, source: string,
                               dayEndedAt: Option<int>)

  /** The latest end of a session's working day, from its date and start; missing when the work-time
      module is not loaded. */
  type Limits = Option<(string, int) -> int>

  function OpenCount(sessions: seq<Session>): (n: nat)
    ensures n == 0 <==> forall i | 0 <= i < |sessions| :: sessions[i].endedAt.Some?
  {
    if sessions == [] then 0
    else
      var rest := sessions[..|sessions| - 1];
      assert forall i | 0 <= i < |rest| :: sessions[i] == rest[i];
      OpenCount(rest) + (if sessions[|sessions| - 1].endedAt.None? then 1 else 0)
  }

  /** The session that started last. */
  function LatestSession(sessions: seq<Session>): (k: nat)
    requires sessions != []
    ensures k < |sessions| && forall i | 0 <= i < |sessions| :: sessions[i].startedAt <= sessions[k].startedAt
  {
    var n := |sessions| - 1;
    if n == 0 then 0
    else
      var k := LatestSession(sessions[..n]);
      assert forall i | 0 <= i < n :: sessions[i] == sessions[..n][i];
      if sessions[n].startedAt > sessions[k].startedAt then n else k
  }

  /** The replayed action happened after the latest session closed by itself, on the same working day. */
  predicate BelongsToClosedDay(day: Day, eventAt: int, limits: Limits) {
    && day.sessions != []
    && var last := day.sessions[LatestSession(day.sessions)];
    && last.endedAt.Some? && last.endReason == Some(AutoClosed)
    && last.endedAt.value < eventAt <= last.startedAt + SAME_DAY_MS
    && OpenCount(day.sessions) == 0
    && limits.Some? && eventAt <= limits.value(last.date, last.startedAt)
  }

  function DayMark(day: Day, date: string): Option<int> { if date in day.dayEnds then day.dayEnds[date] else None }

  function Reopen(day: Day, eventAt: int, limits: Limits): (Option<Reopened>, Day) {
    if !BelongsToClosedDay(day, eventAt, limits) then (None, day)
    else
      var k := LatestSession(day.sessions);
      var last := day.sessions[k];
      var mark := DayMark(day, last.date);
      (Some(Reopened(k, last.date, last.endedAt.value, last.endReason, last.source, mark)),
       Day(day.sessions[k := last.(endedAt := None, source := "REPLAY")],
           if mark.Some? then day.dayEnds[last.date := None] else day.dayEnds))
  }

  /** Puts the reopened session and the day-end mark back; nothing else is written. */
  function Restore(day: Day, r: Reopened): Day
    requires r.session < |day.sessions|
  {
    var s := day.sessions[r.session];
    Day(day.sessions[r.session := s.(endedAt := Some(r.endedAt), endReason := r.endReason, source := r.source)],
        if r.dayEndedAt.Some? then day.dayEnds[r.date := r.dayEndedAt] else day.dayEnds)
  }

  lemma {:induction false} OpenCountUpdate(sessions: seq<Session>, k: nat, s: Session)
    requires k < |sessions|
    ensures OpenCount(sessions[k := s]) + (if sessions[k].endedAt.None? then 1 else 0) ==
            OpenCount(sessions) + (if s.endedAt.None? then 1 else 0)
  {
    var n := |sessions| - 1;
    if k < n {
      OpenCountUpdate(sessions[..n], k, s);
      assert sessions[k := s][..n] == sessions[..n][k := s];
    } else {
      assert sessions[k := s][..n] == sessions[..n];
    }
  }

  /** A reopened day has exactly one open session, and an untouched one keeps what it had: reopening
      never gives a person a second open session. */
  lemma ReopenKeepsOneOpen(day: Day, eventAt: int, limits: Limits)
    ensures OpenCount(day.sessions) <= 1 ==> OpenCount(Reopen(day, eventAt, limits).1.sessions) <= 1
    ensures Reopen(day, eventAt, limits).0.Some? ==> OpenCount(Reopen(day, eventAt, limits).1.sessions) == 1
  {
    if BelongsToClosedDay(day, eventAt, limits) {
      var k := LatestSession(day.sessions);
      OpenCountUpdate(day.sessions, k, day.sessions[k].(endedAt := None, source := "REPLAY"));
    }
  }

  /** After a failed action, whatever sessions and marks of other days it wrote meanwhile, the reopened
      session's end, reason and source and the mark of its day are exactly the old ones, and everything else
      is as the action left it. */
  lemma RestoreUndoesReopen(day: Day, eventAt: int, limits: Limits, later: Day)
    requires Reopen(day, eventAt, limits).0.Some?
    requires |later.sessions| >= |day.sessions|
    requires var k := LatestSession(day.sessions);
             && later.sessions[k].date == day.sessions[k].date
               && later.sessions[k].startedAt == day.sessions[k].startedAt
             && DayMark(later, day.sessions[k].date) == DayMark(Reopen(day, eventAt, limits).1, day.sessions[k].date)
    ensures var k, back := LatestSession(day.sessions), Restore(later, Reopen(day, eventAt, limits).0.value);
            && back.sessions == later.sessions[k := day.sessions[k]]
            && DayMark(back, day.sessions[k].date) == DayMark(day, day.sessions[k].date)
            && forall d | d != day.sessions[k].date :: DayMark(back, d) == DayMark(later, d)
  {
  }

  /** When the failed action wrote nothing, the day is exactly as it was. */
  lemma RefusedActionLeavesTheDay(day: Day, eventAt: int, limits: Limits)
    requires Reopen(day, eventAt, limits).0.Some?
    ensures Restore(Reopen(day, eventAt, limits).1, Reopen(day, eventAt, limits).0.value) == day
  {
    var (r, reopened) := Reopen(day, eventAt, limits);
    var back := Restore(reopened, r.value);
    assert back.sessions == day.sessions;
    assert back.dayEnds == day.dayEnds;
  }

  class WorkDays {
    var sessions: seq<Session>
    var dayEnds: map<string, Option<int>>

    constructor ()
      ensures sessions == [] && dayEnds == map[]
    {
      sessions, dayEnds := [], map[];
    }

    ghost function View(): Day
      reads this
    {
      Day(sessions, dayEnds)
    }

    method FindLatest() returns (k: nat)
      requires sessions != []
      ensures k == LatestSession(sessions)
    {
      k := 0;
      assert sessions[..1] == [sessions[0]];
      for i := 1 to |sessions|
        invariant k == LatestSession(sessions[..i])
      {
        assert sessions[..i + 1][..i] == sessions[..i];
        if sessions[i].startedAt > sessions[k].startedAt {
          k := i;
        }
      }
      assert sessions[..|sessions|] == sessions;
    }

    method CountOpen() returns (open: nat)
      ensures open == OpenCount(sessions)
    {
      open := 0;
      for i := 0 to |sessions|
        invariant open == OpenCount(sessions[..i])
      {
        assert sessions[..i + 1][..i] == sessions[..i];
        if sessions[i].endedAt.None? {
          open := open + 1;
        }
      }
      assert sessions[..|sessions|] == sessions;
    }

    method ReopenAutoClosed(eventAt: int, limits: Limits) returns (before: Option<Reopened>)
      modifies this
      ensures (before, View()) == Reopen(old(View()), eventAt, limits)
      ensures old(OpenCount(sessions)) <= 1 ==> OpenCount(sessions) <= 1
      ensures before.Some? <==>
              && old(sessions) != [] && limits.Some?
              && (forall i | 0 <= i < |old(sessions)| :: old(sessions)[i].endedAt.Some?)
              && var last := old(sessions)[LatestSession(old(sessions))];
              && last.endReason == Some(AutoClosed) && last.endedAt.value < eventAt
              && eventAt <= last.startedAt + 72_000_000 && eventAt <= limits.value(last.date, last.startedAt)
      ensures before.None? ==> sessions == old(sessions) && dayEnds == old(dayEnds)
      ensures before.Some? ==>
                var k := LatestSession(old(sessions));
                var last := old(sessions)[k];
                var marked := last.date in old(dayEnds) && old(dayEnds)[last.date].Some?;
                && sessions == old(sessions)[k := Session(last.date, last.startedAt, None, last.endReason, "REPLAY")]
                && dayEnds == (if marked then old(dayEnds)[last.date := None] else old(dayEnds))
                && before.value == Reopened(k, last.date, last.endedAt.value, last.endReason, last.source,
                                            if marked then old(dayEnds)[last.date] else None)
    {
      ReopenKeepsOneOpen(View(), eventAt, limits);
      if sessions == [] {
        return None;
      }
      var k := FindLatest();
      var last := sessions[k];
      if last.endedAt.None? || last.endReason != Some(AutoClosed) {
        return None;
      }
      if eventAt <= last.endedAt.value || eventAt - last.startedAt > SAME_DAY_MS {
        return None;
      }
      var open := CountOpen();
      if open != 0 || limits.None? {
        return None;
      }
      if eventAt > limits.value(last.date, last.startedAt) {
        return None;
      }
      var mark := DayMark(Day(sessions, dayEnds), last.date);
      before := Some(Reopened(k, last.date, last.endedAt.value, last.endReason, last.source, mark));
      sessions := sessions[k := last.(endedAt := None, source := "REPLAY")];
      if mark.Some? {
        dayEnds := dayEnds[last.date := None];
      }
    }

    method PutBack(r: Reopened)
      requires r.session < |sessions|
      modifies this
      ensures View() == Restore(old(View()), r)
      ensures var s := old(sessions)[r.session];
              sessions == old(sessions)[r.session :=
                            Session(s.date, s.startedAt, Some(r.endedAt), r.endReason, r.source)]
      ensures dayEnds == if r.dayEndedAt.Some? then old(dayEnds)[r.date := r.dayEndedAt] else old(dayEnds)
    {
      var s := sessions[r.session];
      sessions := sessions[r.session := s.(endedAt := Some(r.endedAt), endReason := r.endReason, source := r.source)];
      if r.dayEndedAt.Some? {
        dayEnds := dayEnds[r.date := r.dayEndedAt];
      }
    }

    /** A replayed action that is refused after its day was reopened: nothing has changed. */
    method RefusedAction(eventAt: int, limits: Limits)
      modifies this
      ensures View() == old(View())
    {
      var before := ReopenAutoClosed(eventAt, limits);
      if before.Some? {
        RefusedActionLeavesTheDay(old(View()), eventAt, limits);
        PutBack(before.value);
      }
    }
  }
}
