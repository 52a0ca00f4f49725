/** Focus sessions: the uninterrupted stretches of a day's samples that last long enough. */
module Focus {
  import opened Options
  import opened LockedTime
  import opened Backfill
  import opened DailyActivity

  const FOCUS_SESSION_MIN_SEC := 1500

  datatype FocusSession = FocusSession(start: int, end: int, durationSec: int)

  predicate Works(s: Sample) { !s.idle && s.Recorded() > 0 }

  function End(s: Sample): int { s.at + s.Recorded() * 1000 }

  /** Sample `i` carries on where the one before it ended, within one sample window. */
  predicate Linked(samples: seq<Sample>, i: nat) {
    0 < i < |samples| && Works(samples[i - 1]) && Works(samples[i])
      && samples[i].at - End(samples[i - 1]) <= MAX_GAP_SEC * 1000
  }

  /** The samples `lo` up to but not including `hi`. */
  datatype Run = Run(lo: nat, hi: nat)

  /** Work that begins at most 150 s after other work ended. */
  predicate FollowsOn(before: Sample, after: Sample) {
    && !before.idle && before.durationSec > 0 && !after.idle && after.durationSec > 0
    && after.at - before.at <= 1000 * Min(before.durationSec, 150) + 150_000
  }

  /** A stretch of samples not flagged idle and closed, each following on from the one before, that cannot be made
      longer at either end. */
  predicate MaximalRun(samples: seq<Sample>, r: Run) {
    && r.lo < r.hi <= |samples|
    && (forall i | r.lo <= i < r.hi :: !samples[i].idle && samples[i].durationSec > 0)
    && (forall i | r.lo < i < r.hi :: FollowsOn(samples[i - 1], samples[i]))
    && (r.lo > 0 ==> !FollowsOn(samples[r.lo - 1], samples[r.lo]))
    && (r.hi < |samples| ==> !FollowsOn(samples[r.hi - 1], samples[r.hi]))
  }

  /** Where the run of a working sample begins. */
  function Lo(samples: seq<Sample>, i: nat): (lo: nat)
    ensures lo <= i && !Linked(samples, lo) && forall j | lo < j <= i :: Linked(samples, j)
  {
    if Linked(samples, i) then Lo(samples, i - 1) else i
  }

  /** The runs that end within the first `n` samples. */
  function Runs(samples: seq<Sample>, n: nat): (runs: seq<Run>)
    requires n <= |samples|
    ensures InRange(runs, n)
  {
    if n == 0 then []
    else Runs(samples, n - 1) + (if Works(samples[n - 1])
      && !Linked(samples, n) then [Run(Lo(samples, n - 1), n)] else [])
  }

  predicate InRange(runs: seq<Run>, n: nat) { forall k | 0 <= k < |runs| :: runs[k].lo < runs[k].hi <= n }

  predicate Apart(runs: seq<Run>) { forall j, k | 0 <= j < k < |runs| :: runs[j].hi <= runs[k].lo }

  /** A maximal run in terms of links. */
  lemma MaximalIs(samples: seq<Sample>, r: Run)
    ensures MaximalRun(samples, r) <==>
            && r.lo < r.hi <= |samples|
            && (forall i | r.lo <= i < r.hi :: Works(samples[i]))
            && (forall i | r.lo < i < r.hi :: Linked(samples, i))
            && !Linked(samples, r.lo) && !Linked(samples, r.hi)
  {
    forall i | 0 < i < |samples|
      ensures Linked(samples, i) <==> FollowsOn(samples[i - 1], samples[i])
    {
    }
  }

  /** The run that ends at `n`, if any, is the one that starts where its last sample's run does. */
  lemma MaximalAt(samples: seq<Sample>, n: nat, r: Run)
    requires 0 < n <= |samples| && r.hi == n
    ensures MaximalRun(samples, r) <==> Works(samples[n - 1]) && !Linked(samples, n) && r.lo == Lo(samples, n - 1)
  {
    var lo := Lo(samples, n - 1);
    MaximalIs(samples, r);
    hide MaximalRun;
    if MaximalRun(samples, r) {
      assert lo <= r.lo <= lo;
    } else if Works(samples[n - 1]) {
      forall i | lo <= i < n
        ensures Works(samples[i])
      {
        assert i + 1 < n ==> Linked(samples, i + 1);
      }
    }
  }

  /** The runs are exactly the maximal ones. */
  lemma {:induction false} RunsAreMaximal(samples: seq<Sample>, n: nat)
    requires n <= |samples|
    ensures forall r :: r in Runs(samples, n) <==> MaximalRun(samples, r) && r.hi <= n
  {
    if n > 0 {
      RunsAreMaximal(samples, n - 1);
      forall r
        ensures r in Runs(samples, n) <==> MaximalRun(samples, r) && r.hi <= n
      {
        if r.hi == n {
          MaximalAt(samples, n, r);
          assert r in Runs(samples, n - 1) ==> r.hi <= n - 1;
        }
        var last := if Works(samples[n - 1]) && !Linked(samples, n) then [Run(Lo(samples, n - 1), n)] else [];
        assert r in Runs(samples, n) <==> r in Runs(samples, n - 1) || r in last;
      }
    }
  }

  lemma StartsAfter(samples: seq<Sample>, i: nat, r: Run)
    requires MaximalRun(samples, r) && r.hi <= i
    ensures r.hi <= Lo(samples, i)
  {
    MaximalIs(samples, r);
    assert !Linked(samples, r.hi);
  }

  /** And they come in order, without common samples. */
  lemma {:induction false} RunsApart(samples: seq<Sample>, n: nat)
    requires n <= |samples|
    ensures Apart(Runs(samples, n))
  {
    if n > 0 {
      RunsApart(samples, n - 1);
      var before, now := Runs(samples, n - 1), Runs(samples, n);
      hide MaximalRun;
      forall j, k | 0 <= j < k < |now|
        ensures now[j].hi <= now[k].lo
      {
        if k == |before| {
          RunsAreMaximal(samples, n - 1);
          assert before[j] in before;
          StartsAfter(samples, n - 1, before[j]);
        } else {
          assert now[j] == before[j] && now[k] == before[k];
        }
      }
    }
  }

  function WorkSum(samples: seq<Sample>, lo: nat, hi: nat): nat
    requires lo <= hi <= |samples|
  {
    if lo == hi then 0 else WorkSum(samples, lo, hi - 1) + samples[hi - 1].Recorded()
  }

  function SessionOf(samples: seq<Sample>, r: Run): FocusSession
    requires r.lo < r.hi <= |samples|
  {
    FocusSession(samples[r.lo].at, End(samples[r.hi - 1]), WorkSum(samples, r.lo, r.hi))
  }

  /** The runs long enough, as sessions. */
  function Kept(samples: seq<Sample>, runs: seq<Run>, minSec: int): seq<FocusSession>
    requires InRange(runs, |samples|)
  {
    if runs == [] then []
    else
      var m := |runs| - 1;
      Kept(samples, runs[..m], minSec) +
      (if WorkSum(samples, runs[m].lo, runs[m].hi) >= minSec then [SessionOf(samples, runs[m])] else [])
  }

  /** A session is there for every run of at least the minimum, from its first sample's instant to the end of its last,
      with the seconds its samples account for; and none for any other. */
  lemma {:induction false} KeptAre(samples: seq<Sample>, runs: seq<Run>, minSec: int, session: FocusSession)
    requires InRange(runs, |samples|)
    ensures session in Kept(samples, runs, minSec) <==>
            exists k | 0 <= k < |runs| ::
              var r := runs[k];
              && WorkSum(samples, r.lo, r.hi) >= minSec && session.start == samples[r.lo].at
              && session.end == samples[r.hi - 1].at + 1000 * samples[r.hi - 1].Recorded()
              && session.durationSec == WorkSum(samples, r.lo, r.hi)
    decreases |runs|
  {
    hide WorkSum;
    if runs != [] {
      KeptAre(samples, runs[..|runs| - 1], minSec, session);
      assert forall k | 0 <= k < |runs| - 1 :: runs[..|runs| - 1][k] == runs[k];
    }
  }

  /** The source's `flush`: the stretch so far becomes a session when it is long enough. */
  function Flush(sessions: seq<FocusSession>, open: FocusSession, minSec: int): seq<FocusSession> {
    if open.durationSec >= minSec then sessions + [open] else sessions
  }

  /** Between samples: no stretch is open and all runs are in, or one is open and the runs before it are. */
  ghost predicate UpTo(samples: seq<Sample>, n: nat, minSec: int, sessions: seq<FocusSession>,
                       open: Option<FocusSession>)
    requires n <= |samples|
  {
    if n > 0 && Works(samples[n - 1]) then
      open == Some(SessionOf(samples, Run(Lo(samples, n - 1), n)))
        && sessions == Kept(samples, Runs(samples, n - 1), minSec)
    else open == None && sessions == Kept(samples, Runs(samples, n), minSec)
  }

  lemma IdleEnds(samples: seq<Sample>, i: nat, minSec: int, sessions: seq<FocusSession>, open: Option<FocusSession>)
    requires i < |samples| && !Works(samples[i]) && UpTo(samples, i, minSec, sessions, open)
    ensures UpTo(samples, i + 1, minSec, if open.Some? then Flush(sessions, open.value, minSec) else sessions, None)
  {
    assert Runs(samples, i + 1) == Runs(samples, i);
    if open.Some? {
      Flushed(samples, i, minSec, sessions, open.value);
    }
  }

  lemma WorkStarts(samples: seq<Sample>, i: nat, minSec: int, sessions: seq<FocusSession>, open: Option<FocusSession>)
    requires i < |samples| && Works(samples[i]) && !Linked(samples, i) && UpTo(samples, i, minSec, sessions, open)
    ensures UpTo(samples, i + 1, minSec, if open.Some? then Flush(sessions, open.value, minSec) else sessions,
                 Some(FocusSession(samples[i].at, End(samples[i]), samples[i].Recorded())))
  {
    SessionStarts(samples, i);
    if open.Some? {
      Flushed(samples, i, minSec, sessions, open.value);
    }
  }

  lemma WorkCarriesOn(samples: seq<Sample>, i: nat, minSec: int, sessions: seq<FocusSession>, open: FocusSession)
    requires i < |samples| && Linked(samples, i) && UpTo(samples, i, minSec, sessions, Some(open))
    ensures UpTo(samples, i + 1, minSec, sessions,
                 Some(FocusSession(open.start, End(samples[i]), open.durationSec + samples[i].Recorded())))
  {
    SessionStarts(samples, i);
    assert Runs(samples, i) == Runs(samples, i - 1);
  }

  /** The sessions are the maximal runs that last at least the minimum, in order. */
  method DetectFocusSessions(samples: seq<Sample>, minSec: int) returns (sessions: seq<FocusSession>)
    ensures sessions == Kept(samples, Runs(samples, |samples|), minSec)
  {
    sessions := [];
    var open: Option<FocusSession> := None;
    for i := 0 to |samples|
      invariant UpTo(samples, i, minSec, sessions, open)
    {
      var s := samples[i];
      var dur := s.Recorded();
      if s.idle || dur <= 0 {
        IdleEnds(samples, i, minSec, sessions, open);
        if open.Some? {
          sessions := Flush(sessions, open.value, minSec);
        }
        open := None;
      } else if open.None? || s.at - open.value.end > MAX_GAP_SEC * 1000 {
        WorkStarts(samples, i, minSec, sessions, open);
        if open.Some? {
          sessions := Flush(sessions, open.value, minSec);
        }
        open := Some(FocusSession(s.at, s.at + dur * 1000, dur));
      } else {
        WorkCarriesOn(samples, i, minSec, sessions, open.value);
        open := Some(FocusSession(open.value.start, s.at + dur * 1000, open.value.durationSec + dur));
      }
    }
    if open.Some? {
      Flushed(samples, |samples|, minSec, sessions, open.value);
      sessions := Flush(sessions, open.value, minSec);
    }
  }

  lemma Flushed(samples: seq<Sample>, n: nat, minSec: int, sessions: seq<FocusSession>, open: FocusSession)
    requires 0 < n <= |samples| && Works(samples[n - 1]) && !Linked(samples, n)
    requires UpTo(samples, n, minSec, sessions, Some(open))
    ensures Flush(sessions, open, minSec) == Kept(samples, Runs(samples, n), minSec)
  {
    KeptGrows(samples, n, minSec);
  }

  /** A run that ends is flushed. */
  lemma KeptGrows(samples: seq<Sample>, n: nat, minSec: int)
    requires 0 < n <= |samples| && Works(samples[n - 1]) && !Linked(samples, n)
    ensures var r := Run(Lo(samples, n - 1), n);
            Kept(samples, Runs(samples, n), minSec) == Kept(samples, Runs(samples, n - 1), minSec) +
              (if WorkSum(samples, r.lo, n) >= minSec then [SessionOf(samples, r)] else [])
  {
    var runs := Runs(samples, n);
    assert runs[..|runs| - 1] == Runs(samples, n - 1);
  }

  /** What a working sample does to the session it is in. */
  lemma SessionStarts(samples: seq<Sample>, i: nat)
    requires i < |samples| && Works(samples[i])
    ensures !Linked(samples, i) ==>
              SessionOf(samples, Run(Lo(samples, i), i + 1)) ==
                FocusSession(samples[i].at, End(samples[i]), samples[i].Recorded())
    ensures Linked(samples, i) ==>
              WorkSum(samples, Lo(samples, i), i + 1) == WorkSum(samples, Lo(samples, i - 1), i) + samples[i].Recorded()
  {
    assert WorkSum(samples, i, i + 1) == WorkSum(samples, i, i) + samples[i].Recorded();
  }

  // ---- what sessions add up to ----

  function FocusSum(sessions: seq<FocusSession>): int
  {
    if sessions == [] then 0 else FocusSum(sessions[..|sessions| - 1]) + sessions[|sessions| - 1].durationSec
  }

  /** The clamped durations of the samples that are not flagged idle. */
  function NonIdleSum(samples: seq<Sample>, n: nat): nat
    requires n <= |samples|
  {
    if n == 0 then 0 else NonIdleSum(samples, n - 1) + (if samples[n - 1].idle then 0 else samples[n - 1].Recorded())
  }

  lemma {:induction false} NonIdleSumMonotone(samples: seq<Sample>, m: nat, n: nat)
    requires m <= n <= |samples|
    ensures NonIdleSum(samples, m) <= NonIdleSum(samples, n)
  {
    if m < n {
      NonIdleSumMonotone(samples, m, n - 1);
    }
  }

  lemma {:induction false} RunIsNonIdle(samples: seq<Sample>, lo: nat, hi: nat)
    requires lo <= hi <= |samples| && forall i | lo <= i < hi :: Works(samples[i])
    ensures WorkSum(samples, lo, hi) == NonIdleSum(samples, hi) - NonIdleSum(samples, lo)
  {
    if lo < hi {
      RunIsNonIdle(samples, lo, hi - 1);
    }
  }

  lemma {:induction false} KeptWithin(samples: seq<Sample>, runs: seq<Run>, minSec: int, n: nat)
    requires n <= |samples| && InRange(runs, n)
    requires Apart(runs) && forall k | 0 <= k < |runs| :: MaximalRun(samples, runs[k])
    ensures FocusSum(Kept(samples, runs, minSec)) <= NonIdleSum(samples, n)
    decreases |runs|
  {
    if runs != [] {
      var m := |runs| - 1;
      var last := runs[m];
      KeptWithin(samples, runs[..m], minSec, last.lo);
      RunIsNonIdle(samples, last.lo, last.hi);
      NonIdleSumMonotone(samples, last.hi, n);
      if WorkSum(samples, last.lo, last.hi) >= minSec {
        var all := Kept(samples, runs, minSec);
        assert all[..|all| - 1] == Kept(samples, runs[..m], minSec);
      } else {
        assert Kept(samples, runs, minSec) == Kept(samples, runs[..m], minSec);
        NonIdleSumMonotone(samples, last.lo, last.hi);
      }
    }
  }

  /** A day's focus never exceeds the clamped time of its samples that are not idle. */
  lemma FocusWithinNonIdle(samples: seq<Sample>, minSec: int)
    ensures FocusSum(Kept(samples, Runs(samples, |samples|), minSec)) <= NonIdleSum(samples, |samples|)
  {
    var runs := Runs(samples, |samples|);
    RunsAreMaximal(samples, |samples|);
    RunsApart(samples, |samples|);
    assert forall k | 0 <= k < |runs| :: runs[k] in runs;
    KeptWithin(samples, runs, minSec, |samples|);
  }

  predicate NoOverlap(samples: seq<Sample>) {
    forall i | 0 <= i < |samples| - 1 :: End(samples[i]) <= samples[i + 1].at
  }

  lemma {:induction false} Before(samples: seq<Sample>, i: nat, j: nat)
    requires NoOverlap(samples) && i < j < |samples|
    ensures End(samples[i]) <= samples[j].at
  {
    if i + 1 < j {
      Before(samples, i, j - 1);
    }
  }

  lemma {:induction false} RunFits(samples: seq<Sample>, lo: nat, hi: nat)
    requires NoOverlap(samples) && lo < hi <= |samples|
    ensures WorkSum(samples, lo, hi) * 1000 <= End(samples[hi - 1]) - samples[lo].at
  {
    if lo + 1 < hi {
      RunFits(samples, lo, hi - 1);
      assert End(samples[hi - 2]) <= samples[hi - 2 + 1].at;
    } else {
      assert WorkSum(samples, lo, hi) == WorkSum(samples, lo, lo) + samples[lo].Recorded();
    }
  }

  /** When samples do not overlap, sessions are disjoint and in order, and none claims more seconds than
      its own start and end leave room for. */
  lemma {:induction false} SessionsApart(samples: seq<Sample>, runs: seq<Run>, minSec: int)
    requires NoOverlap(samples) && InRange(runs, |samples|)
    requires Apart(runs)
    ensures var kept := Kept(samples, runs, minSec);
            && (forall k | 0 <= k < |kept| :: kept[k].durationSec * 1000 <= kept[k].end - kept[k].start)
            && (forall k | 0 <= k < |kept| - 1 :: kept[k].end <= kept[k + 1].start)
            && (kept != [] ==> runs != [] && kept[|kept| - 1].end <= End(samples[runs[|runs| - 1].hi - 1]))
    decreases |runs|
  {
    if runs != [] {
      var m := |runs| - 1;
      SessionsApart(samples, runs[..m], minSec);
      RunFits(samples, runs[m].lo, runs[m].hi);
      hide WorkSum;
      hide NoOverlap;
      hide End;
      if m > 0 {
        LaterRun(samples, runs[m - 1], runs[m]);
      }
    }
  }

  lemma LaterRun(samples: seq<Sample>, p: Run, q: Run)
    requires NoOverlap(samples) && p.lo < p.hi <= q.lo < q.hi <= |samples|
    ensures End(samples[p.hi - 1]) <= samples[q.lo].at && End(samples[p.hi - 1]) <= End(samples[q.hi - 1])
  {
    Before(samples, p.hi - 1, q.lo);
    Before(samples, p.hi - 1, q.hi - 1);
  }

  // ---- focus against active time ----

  /** Time on a locked machine that was not flagged idle and was not in a meeting: focus counts it, the
      day's active time does not. */
  function LockedWork(samples: seq<Sample>, n: nat, f: Frame): nat
    requires n <= |samples|
  {
    if n == 0 then 0
    else LockedWork(samples, n - 1, f) +
         (var s := samples[n - 1]; if !s.idle && s.Locked() && !InMeeting(s.at, f) then s.Recorded() else 0)
  }

  lemma {:induction false} NonIdleIsActiveOrLocked(samples: seq<Sample>, n: nat, f: Frame)
    requires n <= |samples|
    ensures var s := Slices(samples, n, f); NonIdleSum(samples, n) <= ActiveSum(s, 0, |s|) + LockedWork(samples, n, f)
  {
    if n > 0 {
      NonIdleIsActiveOrLocked(samples, n - 1, f);
      var a, b := Slices(samples, n - 1, f), SliceOf(samples[n - 1], n == |samples|, f);
      SumsAppend(a, b);
      if b != [] {
        assert ActiveSum(b, 0, 1) == ActiveSum(b, 0, 0) + b[0].activeSec;
      }
    }
  }

  /** How far focus can exceed active time: by what backfilling moved out of active, and by locked time
      that was not flagged idle. With neither, focus never exceeds active. */
  lemma FocusAgainstActive(samples: seq<Sample>, minSec: int, f: Frame)
    ensures var s := Slices(samples, |samples|, f);
            var b := Backfilled(s);
            FocusSum(Kept(samples, Runs(samples, |samples|), minSec)) <=
            ActiveSum(b, 0, |b|) + MovedSum(s, 0, |s|) + LockedWork(samples, |samples|, f)
  {
    var s := Slices(samples, |samples|, f);
    FocusWithinNonIdle(samples, minSec);
    NonIdleIsActiveOrLocked(samples, |samples|, f);
    BackfillConserves(s, |s|);
  }

  /** The work of the run that is still going on after `n` samples. */
  function OpenWork(samples: seq<Sample>, n: nat): nat
    requires n <= |samples|
  {
    if Linked(samples, n) then WorkSum(samples, Lo(samples, n - 1), n) else 0
  }

  lemma WorkGoesOn(samples: seq<Sample>, i: nat)
    requires i < |samples| && Works(samples[i])
    ensures WorkSum(samples, Lo(samples, i), i + 1) == OpenWork(samples, i) + samples[i].Recorded()
  {
    hide Works;
  }

  lemma KeptOneMore(samples: seq<Sample>, runs: seq<Run>, r: Run, minSec: int)
    requires InRange(runs + [r], |samples|) && minSec <= 0
    ensures InRange(runs, |samples|)
    ensures FocusSum(Kept(samples, runs + [r], minSec)) ==
            FocusSum(Kept(samples, runs, minSec)) + WorkSum(samples, r.lo, r.hi)
  {
    var more := runs + [r];
    assert more[..|more| - 1] == runs && more[|more| - 1] == r;
    assert forall k | 0 <= k < |runs| :: more[k] == runs[k];
    var all := Kept(samples, more, minSec);
    assert all == Kept(samples, runs, minSec) + [SessionOf(samples, r)];
    assert all[..|all| - 1] == Kept(samples, runs, minSec);
  }

  lemma OpenWorkIs(samples: seq<Sample>, n: nat)
    requires 0 < n <= |samples|
    ensures OpenWork(samples, n) == if Linked(samples, n) then WorkSum(samples, Lo(samples, n - 1), n) else 0
  {
  }

  lemma BreakLinks(samples: seq<Sample>, i: nat)
    requires i < |samples| && !Works(samples[i])
    ensures !Linked(samples, i) && !Linked(samples, i + 1)
  {
  }

  lemma NothingYet(samples: seq<Sample>, minSec: int)
    ensures FocusSum(Kept(samples, Runs(samples, 0), minSec)) == 0 && OpenWork(samples, 0) == 0
  {
  }

  /** With no minimum, every second that is not flagged idle is focus. */
  lemma {:induction false} AllWorkIsFocus(samples: seq<Sample>, n: nat, minSec: int)
    requires n <= |samples| && minSec <= 0
    ensures FocusSum(Kept(samples, Runs(samples, n), minSec)) + OpenWork(samples, n) == NonIdleSum(samples, n)
  {
    hide WorkSum;
    hide Kept;
    hide FocusSum;
    hide Linked;
    hide Lo;
    if n > 0 {
      AllWorkIsFocus(samples, n - 1, minSec);
      if Works(samples[n - 1]) {
        hide OpenWork;
        WorkGoesOn(samples, n - 1);
        OpenWorkIs(samples, n);
        if !Linked(samples, n) {
          KeptOneMore(samples, Runs(samples, n - 1), Run(Lo(samples, n - 1), n), minSec);
        } else {
          assert Runs(samples, n) == Runs(samples, n - 1);
        }
      } else {
        BreakLinks(samples, n - 1);
        assert Runs(samples, n) == Runs(samples, n - 1);
      }
    } else {
      NothingYet(samples, minSec);
    }
  }

  /** Time flagged idle that a meeting makes active. */
  function MeetingIdle(samples: seq<Sample>, n: nat, f: Frame): nat
    requires n <= |samples|
  {
    if n == 0 then 0
    else
      var s := samples[n - 1];
      MeetingIdle(samples, n - 1, f) + (if s.idle && InMeeting(s.at, f) then DurationOf(s, n == |samples|, f) else 0)
  }

  /** The live tail of a working last sample: active already, focus only once it is closed. */
  function LiveWork(samples: seq<Sample>, f: Frame): nat {
    if samples == [] then 0
    else
      var s := samples[|samples| - 1];
      if !s.idle && (!s.Locked() || InMeeting(s.at, f)) then LiveTail(samples, f) else 0
  }

  lemma PieceOfActive(s: Sample, latest: bool, f: Frame)
    ensures |SliceOf(s, latest, f)| <= 1
    ensures var cut := SliceOf(s, latest, f);
            ActiveSum(cut, 0, |cut|) + (if !s.idle && s.Locked() && !InMeeting(s.at, f) then s.Recorded() else 0) ==
            (if s.idle then 0 else s.Recorded())
            + (if s.idle && InMeeting(s.at, f) then DurationOf(s, latest, f) else 0)
            + (if !s.idle && (!s.Locked() || InMeeting(s.at, f)) then DurationOf(s, latest, f) - s.Recorded() else 0)
  {
    hide InMeeting;
    var cut := SliceOf(s, latest, f);
    if cut != [] {
      assert ActiveSum(cut, 0, 1) == ActiveSum(cut, 0, 0) + cut[0].activeSec;
    }
  }

  /** Before backfilling, active time is what is not flagged idle, less the locked part of it, with the idle part
      of meetings and a working live tail. */
  lemma {:induction false} ActiveIs(samples: seq<Sample>, n: nat, f: Frame)
    requires n <= |samples|
    ensures var s := Slices(samples, n, f);
            ActiveSum(s, 0, |s|) + LockedWork(samples, n, f) ==
            NonIdleSum(samples, n) + MeetingIdle(samples, n, f) + (if n == |samples| then LiveWork(samples, f) else 0)
  {
    hide SliceOf;
    hide InMeeting;
    if n > 0 {
      ActiveIs(samples, n - 1, f);
      var s, latest := samples[n - 1], n == |samples|;
      PieceOfActive(s, latest, f);
      SumsAppend(Slices(samples, n - 1, f), SliceOf(s, latest, f));
    }
  }

  /** What focus comes to with no minimum, exactly: the day's active time, with what backfilling moved out of it
      and locked work, less the idle time of meetings and a working live tail. */
  lemma FocusIs(samples: seq<Sample>, f: Frame)
    ensures var n, s := |samples|, Slices(samples, |samples|, f);
            var b := Backfilled(s);
            FocusSum(Kept(samples, Runs(samples, n), 0)) ==
            ActiveSum(b, 0, |b|) + MovedSum(s, 0, |s|) + LockedWork(samples, n, f)
            - MeetingIdle(samples, n, f) - LiveWork(samples, f)
  {
    var s := Slices(samples, |samples|, f);
    AllWorkIsFocus(samples, |samples|, 0);
    ActiveIs(samples, |samples|, f);
    BackfillConserves(s, |s|);
  }

  /** The work of the runs that are too short. */
  function ShortWork(samples: seq<Sample>, runs: seq<Run>, minSec: int): nat
    requires InRange(runs, |samples|)
  {
    if runs == [] then 0
    else
      var m := |runs| - 1;
      var work := WorkSum(samples, runs[m].lo, runs[m].hi);
      ShortWork(samples, runs[..m], minSec) + (if work < minSec then work else 0)
  }

  lemma KeptSum(samples: seq<Sample>, runs: seq<Run>, minSec: int)
    requires InRange(runs, |samples|) && runs != []
    ensures var m := |runs| - 1;
            var work := WorkSum(samples, runs[m].lo, runs[m].hi);
            FocusSum(Kept(samples, runs, minSec)) ==
            FocusSum(Kept(samples, runs[..m], minSec)) + (if work >= minSec then work else 0)
  {
    hide WorkSum;
    hide FocusSum;
    var m := |runs| - 1;
    var before := Kept(samples, runs[..m], minSec);
    OneMoreSession(before, SessionOf(samples, runs[m]));
    assert before + [] == before;
  }

  lemma OneMoreSession(sessions: seq<FocusSession>, session: FocusSession)
    ensures FocusSum(sessions + [session]) == FocusSum(sessions) + session.durationSec
  {
    assert (sessions + [session])[..|sessions|] == sessions;
  }

  lemma {:induction false} KeptAndShort(samples: seq<Sample>, runs: seq<Run>, minSec: int)
    requires InRange(runs, |samples|)
    ensures FocusSum(Kept(samples, runs, minSec)) + ShortWork(samples, runs, minSec) ==
            FocusSum(Kept(samples, runs, 0))
    decreases |runs|
  {
    hide WorkSum;
    if runs == [] {
      assert Kept(samples, runs, minSec) == Kept(samples, runs, 0);
    } else {
      hide Kept;
      hide FocusSum;
      KeptSum(samples, runs, minSec);
      KeptSum(samples, runs, 0);
      KeptAndShort(samples, runs[..|runs| - 1], minSec);
    }
  }

  /** So at any minimum, the source's own of 1500 s included, a day's focus is within its active time if and only if
      backfilling and locked work take no more than the runs too short, the meetings and the live tail give. */
  lemma FocusWithinActive(samples: seq<Sample>, minSec: int, f: Frame)
    ensures var n, s := |samples|, Slices(samples, |samples|, f);
            var b := Backfilled(s);
            FocusSum(Kept(samples, Runs(samples, n), minSec)) <= ActiveSum(b, 0, |b|) <==>
            MovedSum(s, 0, |s|) + LockedWork(samples, n, f) <=
            ShortWork(samples, Runs(samples, n), minSec) + MeetingIdle(samples, n, f) + LiveWork(samples, f)
  {
    hide Slices;
    hide Runs;
    hide LiveWork;
    FocusIs(samples, f);
    KeptAndShort(samples, Runs(samples, |samples|), minSec);
  }

  /** And whatever the minimum, if and only if it holds without the runs too short. */
  lemma FocusWithinActiveAlways(samples: seq<Sample>, f: Frame)
    ensures var n, s := |samples|, Slices(samples, |samples|, f);
            var b := Backfilled(s);
            (forall minSec: int :: FocusSum(Kept(samples, Runs(samples, n), minSec)) <= ActiveSum(b, 0, |b|)) <==>
            MovedSum(s, 0, |s|) + LockedWork(samples, n, f) <= MeetingIdle(samples, n, f) + LiveWork(samples, f)
  {
    hide Slices;
    hide Runs;
    hide LiveWork;
    var n := |samples|;
    FocusIs(samples, f);
    AllWorkIsFocus(samples, n, 0);
    forall minSec: int
      ensures FocusSum(Kept(samples, Runs(samples, n), minSec)) <= FocusSum(Kept(samples, Runs(samples, n), 0))
    {
      FocusWithinNonIdle(samples, minSec);
    }
  }

  /** A day of `n` full working samples in a row, then one idle sample. */
  function WorkThenIdle(n: nat): (samples: seq<Sample>)
    ensures |samples| == n + 1
  {
    seq(n + 1, i => Sample(150_000 * i, 150, i == n, false, None))
  }

  lemma {:induction false} OneRun(n: nat, k: nat)
    requires k < n
    ensures Lo(WorkThenIdle(n), k) == 0 && WorkSum(WorkThenIdle(n), 0, k + 1) == 150 * (k + 1)
              && Runs(WorkThenIdle(n), k) == []
  {
    var samples := WorkThenIdle(n);
    if k > 0 {
      OneRun(n, k - 1);
      assert Linked(samples, k);
    } else {
      assert WorkSum(samples, 0, 1) == WorkSum(samples, 0, 0) + samples[0].Recorded();
    }
  }

  lemma {:induction false} WorkSlices(n: nat, k: nat, f: Frame)
    requires k <= n && f.meetings == []
    ensures var s := Slices(WorkThenIdle(n), k, f);
            |s| == k && ActiveSum(s, 0, k) == 150 * k && forall j | 0 <= j < k :: s[j].Eligible()
  {
    if k > 0 {
      WorkSlices(n, k - 1, f);
      var a, b := Slices(WorkThenIdle(n), k - 1, f), SliceOf(WorkThenIdle(n)[k - 1], false, f);
      SumsAppend(a, b);
      assert ActiveSum(b, 0, 1) == ActiveSum(b, 0, 0) + 150;
    }
  }

  /** The focus of such a day is all of its work, when that is long enough. */
  lemma WorkIsFocus(n: nat)
    requires n >= 10
    ensures FocusSum(Kept(WorkThenIdle(n), Runs(WorkThenIdle(n), n + 1), FOCUS_SESSION_MIN_SEC)) == 150 * n
  {
    var samples := WorkThenIdle(n);
    OneRun(n, n - 1);
    KeptGrows(samples, n, FOCUS_SESSION_MIN_SEC);
    assert Runs(samples, n + 1) == Runs(samples, n);
    var kept := Kept(samples, Runs(samples, n), FOCUS_SESSION_MIN_SEC);
    assert Kept(samples, [], FOCUS_SESSION_MIN_SEC) == [];
    assert kept == [SessionOf(samples, Run(0, n))];
    assert kept[..0] == [];
  }

  /** And the idle flag that ends it takes the threshold back out of its active time. */
  lemma WorkIsActiveButTheLeadIn(n: nat, f: Frame)
    requires n >= 2 && f.meetings == []
    ensures var b := Backfilled(Slices(WorkThenIdle(n), n + 1, f)); ActiveSum(b, 0, |b|) == 150 * n - IDLE_THRESHOLD_SEC
  {
    var samples := WorkThenIdle(n);
    WorkSlices(n, n, f);
    var a, last := Slices(samples, n, f), SliceOf(samples[n], true, f);
    var s := Slices(samples, n + 1, f);
    assert s == a + last && |s| == n + 1 && StretchStart(s, n);
    SumsPrefix(a, last, n);
    StretchTakesTheThreshold(s, 0, n);
    BackfillConserves(s, n + 1);
    assert Moved(s, n) == 0;
  }

  /** The source's comment says focus can never exceed active time. It can, by the whole threshold:
      thirty minutes of work and then one idle flag give 1800 s of focus and 1500 s of active time. */
  lemma FocusCanExceedActive(f: Frame)
    requires f.meetings == []
    ensures var samples := WorkThenIdle(12);
            var b := Backfilled(Slices(samples, 13, f));
            FocusSum(Kept(samples, Runs(samples, 13), FOCUS_SESSION_MIN_SEC)) == 1800 && ActiveSum(b, 0, |b|) == 1500
  {
    WorkIsFocus(12);
    WorkIsActiveButTheLeadIn(12, f);
  }
}
