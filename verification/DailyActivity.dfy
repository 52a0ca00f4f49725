/** Rolling a day's samples up into active and idle seconds and 24 hourly bars. */
module DailyActivity {
  import opened Options
  import opened Clock
  import opened LockedTime
  import opened Backfill

  const DAY_MS := 86_400_000

  /** `end` is missing while the meeting runs. */
  datatype Meeting = Meeting(start: int, end: Option<int>)

  datatype HourBucket = HourBucket(activeSec: int, idleSec: int)

  datatype Daily = Daily(activeSec: int, idleSec: int, extraSec: int, remainingSec: int, clockedOut: bool,
                         hourly: seq<HourBucket>)

  /** What a day is measured against: whether it is today, and the instant live figures stop at. */
  datatype Frame = Frame(today: bool, asOf: int, meetings: seq<Meeting>, offset: int)

  function AsOf(now: int, endedAt: Option<int>): int {
    if endedAt.Some? && endedAt.value < now then endedAt.value else now
  }

  function LocalDay(t: int, offset: int): int { (t + offset) / DAY_MS }

  function FrameOf(date: int, now: int, endedAt: Option<int>, meetings: seq<Meeting>, offset: int): Frame {
    Frame(date == LocalDay(now, offset), AsOf(now, endedAt), meetings, offset)
  }

  /** A closed sample has its own duration; the newest open one counts live, on today only. */
  function DurationOf(s: Sample, latest: bool, f: Frame): (sec: nat)
    ensures sec <= MAX_GAP_SEC
  {
    if s.durationSec > 0 then s.Recorded()
    else if latest && f.today then Min(MAX_GAP_SEC, ElapsedSeconds(s.at, f.asOf))
    else 0
  }

  predicate InMeeting(t: int, f: Frame) {
    exists m | m in f.meetings :: m.start <= t && (if m.end.Some? then t < m.end.value else f.today && t <= f.asOf)
  }

  function SliceOf(s: Sample, latest: bool, f: Frame): seq<Slice> {
    var dur := DurationOf(s, latest, f);
    if dur == 0 then []
    else
      var inMeeting := InMeeting(s.at, f);
      var countIdle := (s.idle || s.Locked()) && !inMeeting;
      [Slice(HourOf(s.at, f.offset), if countIdle then 0 else dur, if countIdle then dur else 0, countIdle, s.Locked(),
             inMeeting, s.app)]
  }

  /** What one sample comes to, by its fields. It lasts as long as it was stamped, 150 s at most; one not yet closed
      lasts only as the newest of today, up to the instant live figures stop at. It is idle when it is flagged or on a
      locked machine, unless it began in a meeting: from its start up to but not at its end, or while an unended one
      of today may still run. */
  lemma SampleIs(s: Sample, latest: bool, f: Frame)
    ensures var live := if latest && f.today then ElapsedSeconds(s.at, f.asOf) else 0;
            var sec := Min(150, if s.durationSec > 0 then s.durationSec else live);
            var meeting := exists m | m in f.meetings ::
              s.at >= m.start && (s.at < (if m.end.Some? then m.end.value else f.asOf + 1)) && (m.end.Some? || f.today);
            var locked := s.locked || s.app == Some("LockApp.exe");
            var idle := !meeting && (s.idle || locked);
            var cut := SliceOf(s, latest, f);
            && (cut == [] <==> sec == 0) && |cut| <= 1
            && (sec > 0 ==>
                  && cut[0].activeSec == (if idle then 0 else sec) && cut[0].idleSec == (if idle then sec else 0)
                  && cut[0].flaggedIdle == idle && cut[0].locked == locked && cut[0].inMeeting == meeting
                  && cut[0].hour == HourOf(s.at, f.offset) && cut[0].app == s.app)
  {
    MeetingIs(s.at, f);
    hide InMeeting;
  }

  lemma MeetingIs(t: int, f: Frame)
    ensures InMeeting(t, f) <==> exists m | m in f.meetings ::
              t >= m.start && (t < (if m.end.Some? then m.end.value else f.asOf + 1)) && (m.end.Some? || f.today)
  {
  }

  /** A day is today when the clock is in its 24 hours, and live figures stop at the end of the day or now. */
  lemma FrameIs(date: int, now: int, endedAt: Option<int>, meetings: seq<Meeting>, offset: int)
    ensures var f := FrameOf(date, now, endedAt, meetings, offset);
            && (f.today <==> 86_400_000 * date <= now + offset < 86_400_000 * (date + 1))
            && f.asOf <= now && (endedAt.None? ==> f.asOf == now)
            && (endedAt.Some? ==> f.asOf <= endedAt.value && f.asOf in {now, endedAt.value})
            && f.meetings == meetings && f.offset == offset
  {
  }

  /** The slices of the first `n` samples of the day. */
  function Slices(samples: seq<Sample>, n: nat, f: Frame): seq<Slice>
    requires n <= |samples|
  {
    if n == 0 then [] else Slices(samples, n - 1, f) + SliceOf(samples[n - 1], n == |samples|, f)
  }

  function DurationSum(samples: seq<Sample>, n: nat, f: Frame): nat
    requires n <= |samples|
  {
    if n == 0 then 0 else DurationSum(samples, n - 1, f) + DurationOf(samples[n - 1], n == |samples|, f)
  }

  function IdleSum(s: seq<Slice>, n: nat): int
    requires n <= |s|
  {
    if n == 0 then 0 else IdleSum(s, n - 1) + s[n - 1].idleSec
  }

  // ---- one bar ----

  function ActiveIn(s: seq<Slice>, n: nat, h: int): int
    requires n <= |s|
  {
    if n == 0 then 0 else ActiveIn(s, n - 1, h) + (if s[n - 1].hour == h then s[n - 1].activeSec else 0)
  }

  function IdleIn(s: seq<Slice>, n: nat, h: int): int
    requires n <= |s|
  {
    if n == 0 then 0 else IdleIn(s, n - 1, h) + (if s[n - 1].hour == h then s[n - 1].idleSec else 0)
  }

  function FilledIn(out: seq<FilledIdle>, n: nat, h: int): int
    requires n <= |out|
  {
    if n == 0 then 0 else FilledIn(out, n - 1, h) + (if out[n - 1].hour == h then out[n - 1].idleSec else 0)
  }

  function FilledSum(out: seq<FilledIdle>, n: nat): int
    requires n <= |out|
  {
    if n == 0 then 0 else FilledSum(out, n - 1) + out[n - 1].idleSec
  }

  /** Every slice is counted in its own hour's bar and in no other. */
  lemma {:induction false} SliceInItsBar(s: seq<Slice>, n: nat, k: nat, h: int, active: int, idle: int)
    requires k < n <= |s|
    ensures var more := s[k := s[k].(activeSec := s[k].activeSec + active, idleSec := s[k].idleSec + idle)];
            && ActiveIn(more, n, h) == ActiveIn(s, n, h) + (if s[k].hour == h then active else 0)
            && IdleIn(more, n, h) == IdleIn(s, n, h) + (if s[k].hour == h then idle else 0)
    decreases n
  {
    if k < n - 1 {
      SliceInItsBar(s, n - 1, k, h, active, idle);
    } else {
      SameBefore(s, s[k := s[k].(activeSec := s[k].activeSec + active, idleSec := s[k].idleSec + idle)], k, h);
    }
  }

  lemma {:induction false} SameBefore(s: seq<Slice>, t: seq<Slice>, n: nat, h: int)
    requires n <= |s| == |t| && forall j | 0 <= j < n :: s[j] == t[j]
    ensures ActiveIn(s, n, h) == ActiveIn(t, n, h) && IdleIn(s, n, h) == IdleIn(t, n, h)
  {
    if n > 0 {
      SameBefore(s, t, n - 1, h);
    }
  }

  /** And so is every recovered stretch. */
  lemma {:induction false} FillInItsBar(out: seq<FilledIdle>, n: nat, k: nat, h: int, idle: nat)
    requires k < n <= |out|
    ensures FilledIn(out[k := FilledIdle(out[k].hour, out[k].idleSec + idle)], n, h) ==
            FilledIn(out, n, h) + (if out[k].hour == h then idle else 0)
    decreases n
  {
    var more := out[k := FilledIdle(out[k].hour, out[k].idleSec + idle)];
    if k < n - 1 {
      FillInItsBar(out, n - 1, k, h, idle);
    } else {
      SameFilledBefore(out, more, k, h);
    }
  }

  lemma {:induction false} SameFilledBefore(a: seq<FilledIdle>, b: seq<FilledIdle>, n: nat, h: int)
    requires n <= |a| == |b| && forall j | 0 <= j < n :: a[j] == b[j]
    ensures FilledIn(a, n, h) == FilledIn(b, n, h)
  {
    if n > 0 {
      SameFilledBefore(a, b, n - 1, h);
    }
  }

  function ActiveBars(bars: seq<HourBucket>): int {
    if bars == [] then 0 else bars[0].activeSec + ActiveBars(bars[1..])
  }
  function IdleBars(bars: seq<HourBucket>): int { if bars == [] then 0 else bars[0].idleSec + IdleBars(bars[1..]) }

  /** Adding to one bar adds that much to the sum of all bars. */
  lemma {:induction false} BarAdded(bars: seq<HourBucket>, h: nat, active: int, idle: int)
    requires h < |bars|
    ensures var more := bars[h := HourBucket(bars[h].activeSec + active, bars[h].idleSec + idle)];
            ActiveBars(more) == ActiveBars(bars) + active && IdleBars(more) == IdleBars(bars) + idle
    decreases |bars|
  {
    var more := bars[h := HourBucket(bars[h].activeSec + active, bars[h].idleSec + idle)];
    if h == 0 {
      assert more[1..] == bars[1..];
    } else {
      BarAdded(bars[1..], h - 1, active, idle);
      assert more[1..] == bars[1..][h - 1 := HourBucket(bars[h].activeSec + active, bars[h].idleSec + idle)];
    }
  }

  lemma {:induction false} NoBars(n: nat)
    ensures ActiveBars(seq(n, _ => HourBucket(0, 0))) == 0 && IdleBars(seq(n, _ => HourBucket(0, 0))) == 0
  {
    if n > 0 {
      NoBars(n - 1);
      assert seq(n, _ => HourBucket(0, 0))[1..] == seq(n - 1, _ => HourBucket(0, 0));
    }
  }

  /** Every bar is what the slices and the recovered idle of that hour add up to. */
  ghost predicate BarsHold(bars: seq<HourBucket>, b: seq<Slice>, n: nat, fills: seq<FilledIdle>, m: nat)
    requires n <= |b| && m <= |fills|
  {
    && |bars| == 24
    && (forall h | 0 <= h < 24 :: bars[h] == HourBucket(ActiveIn(b, n, h), IdleIn(b, n, h) + FilledIn(fills, m, h)))
    && ActiveBars(bars) == ActiveSum(b, 0, n) && IdleBars(bars) == IdleSum(b, n) + FilledSum(fills, m)
  }

  /** Totals and bars, once the first `n` slices and the first `m` recovered seconds are in. */
  ghost predicate AddedUp(activeSec: int, idleSec: int, bars: seq<HourBucket>, b: seq<Slice>, n: nat,
                          fills: seq<FilledIdle>, m: nat)
    requires n <= |b| && m <= |fills|
  {
    && activeSec == ActiveSum(b, 0, n)
    && idleSec == IdleSum(b, n) + FilledSum(fills, m)
    && BarsHold(bars, b, n, fills, m)
  }

  predicate InDay(b: seq<Slice>) {
    forall j | 0 <= j < |b| :: b[j].hour < 24 && b[j].activeSec >= 0 && b[j].idleSec >= 0
  }

  predicate FillsAreHours(fills: seq<FilledIdle>) { forall k | 0 <= k < |fills| :: fills[k].hour < 24 }

  lemma {:induction false} SlicesInDay(samples: seq<Sample>, n: nat, f: Frame)
    requires n <= |samples|
    ensures InDay(Slices(samples, n, f))
  {
    if n > 0 {
      SlicesInDay(samples, n - 1, f);
    }
  }

  lemma BackfilledInDay(s: seq<Slice>)
    requires InDay(s)
    ensures InDay(Backfilled(s))
  {
  }

  function BarsOf(b: seq<Slice>, fills: seq<FilledIdle>): seq<HourBucket> {
    seq(24, h requires 0 <= h < 24 =>
      HourBucket(ActiveIn(b, |b|, h), IdleIn(b, |b|, h) + FilledIn(fills, |fills|, h)))
  }

  /** The figures of a day, as a function of its samples and its frame. */
  function DailyOf(samples: seq<Sample>, basis: int, f: Frame): Daily {
    var b, fills := Backfilled(Slices(samples, |samples|, f)), Fills(samples, |samples|, f.offset);
    var active := ActiveSum(b, 0, |b|);
    Daily(active, IdleSum(b, |b|) + FilledSum(fills, |fills|), Max(0, active - basis), Max(0, basis - active),
          active >= basis, BarsOf(b, fills))
  }

  lemma BarsAre(active: int, idle: int, bars: seq<HourBucket>, b: seq<Slice>, fills: seq<FilledIdle>)
    requires AddedUp(active, idle, bars, b, |b|, fills, |fills|)
    ensures bars == BarsOf(b, fills) && ActiveBars(bars) == active && IdleBars(bars) == idle
  {
  }

  function Max(a: int, b: int): int { if a >= b then a else b }

  /** The day's totals and bars: active and idle are the backfilled slices' and the recovered idle's, each
      bar is its own hour's share, and the 24 bars add up to the totals. */
  method ComputeDaily(samples: seq<Sample>, date: int, basis: int, now: int, endedAt: Option<int>,
                      meetings: seq<Meeting>, offset: int)
    returns (view: Daily)
    ensures var f := FrameOf(date, now, endedAt, meetings, offset);
            var b := Backfilled(Slices(samples, |samples|, f));
            var fills := Fills(samples, |samples|, offset);
            && view.activeSec == ActiveSum(b, 0, |b|)
            && view.idleSec == IdleSum(b, |b|) + FilledSum(fills, |fills|)
            && BarsHold(view.hourly, b, |b|, fills, |fills|)
    ensures view == DailyOf(samples, basis, FrameOf(date, now, endedAt, meetings, offset))
    ensures ActiveBars(view.hourly) == view.activeSec && IdleBars(view.hourly) == view.idleSec
    ensures view.extraSec - view.remainingSec == view.activeSec - basis
    ensures view.extraSec >= 0 && view.remainingSec >= 0 && (view.extraSec == 0 || view.remainingSec == 0)
    ensures view.clockedOut <==> view.remainingSec == 0
  {
    hide BarsHold;
    hide BarsOf;
    hide ActiveBars;
    hide IdleBars;
    hide Slices;
    hide ActiveSum;
    hide IdleSum;
    hide FilledSum;
    var f := FrameOf(date, now, endedAt, meetings, offset);
    var slices := CutSlices(samples, f);
    SlicesInDay(samples, |samples|, f);
    BackfilledInDay(slices[..]);
    BackfillIdleGrace(slices);
    var fills := FillLockedGaps(samples, offset);
    FillsInDay(samples, |samples|, offset);
    var activeSec, idleSec, hourly := AddUp(slices[..], fills);
    var extraSec := if activeSec - basis > 0 then activeSec - basis else 0;
    var remainingSec := if basis - activeSec > 0 then basis - activeSec else 0;
    BarsAre(activeSec, idleSec, hourly, slices[..], fills);
    view := Daily(activeSec, idleSec, extraSec, remainingSec, activeSec >= basis, hourly);
  }

  lemma {:induction false} IdleHours(pieces: seq<Piece>, offset: int)
    ensures FillsAreHours(Idle(pieces, offset))
  {
    if pieces != [] {
      IdleHours(pieces[1..], offset);
    }
  }

  lemma {:induction false} FillsInDay(samples: seq<Sample>, n: nat, offset: int)
    requires n <= |samples|
    ensures FillsAreHours(Fills(samples, n, offset))
  {
    if n > 1 {
      FillsInDay(samples, n - 1, offset);
      IdleHours(Pieces(samples[n - 2].at + samples[n - 2].Recorded() * 1000, samples[n - 1].at, offset), offset);
    }
  }

  method CutSlices(samples: seq<Sample>, f: Frame) returns (slices: array<Slice>)
    ensures fresh(slices) && slices[..] == Slices(samples, |samples|, f)
  {
    var cut: seq<Slice> := [];
    for i := 0 to |samples|
      invariant cut == Slices(samples, i, f)
    {
      var s := samples[i];
      var dur := DurationOf(s, i == |samples| - 1, f);
      if dur <= 0 {
        continue;
      }
      var inMeeting := InMeeting(s.at, f);
      var locked := s.Locked();
      var countIdle := (s.idle || locked) && !inMeeting;
      cut := cut + [Slice(HourOf(s.at, f.offset), if countIdle then 0 else dur, if countIdle then dur else 0, countIdle,
                          locked, inMeeting, s.app)];
    }
    slices := new Slice[|cut|](k requires 0 <= k < |cut| => cut[k]);
    assert slices[..] == cut;
  }

  /** The bars once the recovered idle is in: its own hours' share, and nothing active yet. */
  method AddFills(fills: seq<FilledIdle>, slices: seq<Slice>) returns (idleSec: int, hourly: seq<HourBucket>)
    requires FillsAreHours(fills)
    ensures |hourly| == 24 && AddedUp(0, idleSec, hourly, slices, 0, fills, |fills|)
  {
    idleSec := 0;
    hourly := seq(24, _ => HourBucket(0, 0));
    NoBars(24);
    for k := 0 to |fills|
      invariant AddedUp(0, idleSec, hourly, slices, 0, fills, k)
    {
      var filled := fills[k];
      idleSec := idleSec + filled.idleSec;
      BarAdded(hourly, filled.hour, 0, filled.idleSec);
      var bar := hourly[filled.hour];
      hourly := hourly[filled.hour := bar.(idleSec := bar.idleSec + filled.idleSec)];
    }
  }

  /** One slice more: its hour's bar grows by it, and so do the totals. */
  lemma SliceAdded(active: int, idle: int, bars: seq<HourBucket>, b: seq<Slice>, n: nat, fills: seq<FilledIdle>)
    requires n < |b| && InDay(b) && AddedUp(active, idle, bars, b, n, fills, |fills|)
    ensures var s := b[n];
            var bar := HourBucket(bars[s.hour].activeSec + s.activeSec, bars[s.hour].idleSec + s.idleSec);
            AddedUp(active + s.activeSec, idle + s.idleSec, bars[s.hour := bar], b, n + 1, fills, |fills|)
  {
    hide FilledIn;
    hide FilledSum;
    hide ActiveBars;
    hide IdleBars;
    BarAdded(bars, b[n].hour, b[n].activeSec, b[n].idleSec);
  }

  method AddUp(slices: seq<Slice>, fills: seq<FilledIdle>)
    returns (activeSec: int, idleSec: int, hourly: seq<HourBucket>)
    requires InDay(slices) && FillsAreHours(fills)
    ensures |hourly| == 24 && AddedUp(activeSec, idleSec, hourly, slices, |slices|, fills, |fills|)
  {
    hide BarsHold;
    activeSec := 0;
    idleSec, hourly := AddFills(fills, slices);
    for i := 0 to |slices|
      invariant |hourly| == 24 && AddedUp(activeSec, idleSec, hourly, slices, i, fills, |fills|)
    {
      var slice := slices[i];
      SliceAdded(activeSec, idleSec, hourly, slices, i, fills);
      var bar := hourly[slice.hour];
      if slice.idleSec > 0 {
        idleSec := idleSec + slice.idleSec;
        bar := bar.(idleSec := bar.idleSec + slice.idleSec);
      }
      if slice.activeSec > 0 {
        activeSec := activeSec + slice.activeSec;
        bar := bar.(activeSec := bar.activeSec + slice.activeSec);
      }
      hourly := hourly[slice.hour := bar];
    }
  }

  // ---- what the totals mean ----

  lemma {:induction false} SumsAppend(a: seq<Slice>, b: seq<Slice>)
    requires |b| <= 1
    ensures ActiveSum(a + b, 0, |a + b|) == ActiveSum(a, 0, |a|) + ActiveSum(b, 0, |b|)
    ensures IdleSum(a + b, |a + b|) == IdleSum(a, |a|) + IdleSum(b, |b|)
  {
    if b == [] {
      assert a + b == a;
    } else {
      SumsPrefix(a, b, |a|);
    }
  }

  lemma {:induction false} SumsPrefix(a: seq<Slice>, b: seq<Slice>, n: nat)
    requires n <= |a|
    ensures ActiveSum(a + b, 0, n) == ActiveSum(a, 0, n) && IdleSum(a + b, n) == IdleSum(a, n)
  {
    if n > 0 {
      SumsPrefix(a, b, n - 1);
    }
  }

  /** Before backfilling, a day's active and idle seconds are its samples' durations. */
  lemma {:induction false} SlicesSum(samples: seq<Sample>, n: nat, f: Frame)
    requires n <= |samples|
    ensures var s := Slices(samples, n, f); ActiveSum(s, 0, |s|) + IdleSum(s, |s|) == DurationSum(samples, n, f)
  {
    if n > 0 {
      SlicesSum(samples, n - 1, f);
      SumsAppend(Slices(samples, n - 1, f), SliceOf(samples[n - 1], n == |samples|, f));
    }
  }

  /** Backfilling moves seconds from active to idle and makes none. */
  lemma {:induction false} BackfillConserves(s: seq<Slice>, n: nat)
    requires n <= |s|
    ensures ActiveSum(Backfilled(s), 0, n) == ActiveSum(s, 0, n) - MovedSum(s, 0, n)
    ensures IdleSum(Backfilled(s), n) == IdleSum(s, n) + MovedSum(s, 0, n)
  {
    if n > 0 {
      BackfillConserves(s, n - 1);
    }
  }

  lemma {:induction false} DurationsRecorded(samples: seq<Sample>, n: nat, f: Frame)
    requires n < |samples|
    ensures DurationSum(samples, n, f) == RecordedSum(samples, n + 1)
  {
    if n > 0 {
      DurationsRecorded(samples, n - 1, f);
    }
  }

  lemma {:induction false} FilledIsTotal(out: seq<FilledIdle>, n: nat)
    requires n <= |out|
    ensures FilledSum(out, n) == Total(out[..n])
  {
    if n > 0 {
      FilledIsTotal(out, n - 1);
      assert out[..n] == out[..n - 1] + [out[n - 1]];
      TotalAppend(out[..n - 1], [out[n - 1]]);
    }
  }

  /** The day's active and idle seconds together. */
  function DaySum(samples: seq<Sample>, f: Frame): int {
    var b, fills := Backfilled(Slices(samples, |samples|, f)), Fills(samples, |samples|, f.offset);
    ActiveSum(b, 0, |b|) + IdleSum(b, |b|) + FilledSum(fills, |fills|)
  }

  lemma AllDurations(samples: seq<Sample>, f: Frame)
    requires samples != []
    ensures DurationSum(samples, |samples|, f) ==
              RecordedSum(samples, |samples|) + DurationOf(samples[|samples| - 1], true, f)
  {
    DurationsRecorded(samples, |samples| - 1, f);
  }

  lemma BackfilledSum(s: seq<Slice>)
    ensures var b := Backfilled(s); ActiveSum(b, 0, |b|) + IdleSum(b, |b|) == ActiveSum(s, 0, |s|) + IdleSum(s, |s|)
  {
    BackfillConserves(s, |s|);
  }

  lemma DaySumIs(samples: seq<Sample>, f: Frame)
    requires samples != []
    ensures DaySum(samples, f) == RecordedSum(samples, |samples|) + DurationOf(samples[|samples| - 1], true, f) +
                                  Total(Fills(samples, |samples|, f.offset))
  {
    var n, s, fills := |samples|, Slices(samples, |samples|, f), Fills(samples, |samples|, f.offset);
    SlicesSum(samples, n, f);
    BackfilledSum(s);
    AllDurations(samples, f);
    FilledIsTotal(fills, |fills|);
    assert fills[..|fills|] == fills;
  }

  /** A day is never counted for longer than it lasted: active and idle together are at most the time from
      the first sample to the last plus one sample's tail, exactly so when stamps are whole seconds, and
      otherwise with at most one second of rounding for each gap. */
  lemma DayCountedOnce(samples: seq<Sample>, f: Frame)
    requires samples != [] && Ascending(samples)
    ensures 1000 * DaySum(samples, f) <= samples[|samples| - 1].at - samples[0].at + 1000 * MAX_GAP_SEC +
              1000 * (|samples| - 1)
    ensures (forall i | 0 <= i < |samples| :: WholeSecond(samples[i].at, f.offset)) ==>
            1000 * DaySum(samples, f) <= samples[|samples| - 1].at - samples[0].at + 1000 * MAX_GAP_SEC
  {
    DaySumIs(samples, f);
    SpanCountedOnce(samples, |samples|, f.offset);
    if forall i | 0 <= i < |samples| :: WholeSecond(samples[i].at, f.offset) {
      SpanCountedExactly(samples, |samples|, f.offset);
    }
  }

  // ---- across midnight ----

  /** The same day once it is no longer today. */
  function Past(f: Frame): Frame { f.(today := false) }

  /** The live tail of a last sample that was never closed. */
  function LiveTail(samples: seq<Sample>, f: Frame): nat {
    if samples == [] || samples[|samples| - 1].durationSec > 0 || !f.today then 0
    else Min(MAX_GAP_SEC, ElapsedSeconds(samples[|samples| - 1].at, f.asOf))
  }

  /** In a meeting nobody has ended, which counts on today only, and in no other. */
  predicate OnlyInOpenMeeting(t: int, f: Frame) { InMeeting(t, f) && !InMeeting(t, Past(f)) }

  /** No sample that lasts lies only in a meeting nobody has ended. */
  predicate MeetingsEnded(samples: seq<Sample>, n: nat, f: Frame)
    requires n <= |samples|
  {
    forall i | 0 <= i < n && DurationOf(samples[i], i == |samples| - 1, f) > 0 :: !OnlyInOpenMeeting(samples[i].at, f)
  }

  /** Inactive seconds that only such a meeting makes active. */
  function OpenMeetingIdle(samples: seq<Sample>, n: nat, f: Frame): nat
    requires n <= |samples|
  {
    if n == 0 then 0
    else
      var s := samples[n - 1];
      OpenMeetingIdle(samples, n - 1, f) +
      (if (s.idle || s.Locked()) && OnlyInOpenMeeting(s.at, f) then DurationOf(s, n == |samples|, Past(f)) else 0)
  }

  lemma OneMoreEnded(samples: seq<Sample>, n: nat, f: Frame)
    requires n < |samples|
    ensures MeetingsEnded(samples, n + 1, f) <==>
            && MeetingsEnded(samples, n, f)
            && (DurationOf(samples[n], n == |samples| - 1, f) > 0 ==> !OnlyInOpenMeeting(samples[n].at, f))
  {
  }

  lemma InMeetingStays(t: int, f: Frame)
    requires InMeeting(t, Past(f))
    ensures InMeeting(t, f)
  {
    var m :| m in f.meetings && m.start <= t && m.end.Some? && t < m.end.value;
  }

  lemma SliceAcross(s: Sample, latest: bool, f: Frame)
    requires f.today
    ensures SliceOf(s, latest, f) == SliceOf(s, latest, Past(f)) <==>
            && DurationOf(s, latest, f) == DurationOf(s, latest, Past(f))
            && (DurationOf(s, latest, f) > 0 ==> !OnlyInOpenMeeting(s.at, f))
    ensures !latest ==> |SliceOf(s, latest, f)| == |SliceOf(s, latest, Past(f))|
  {
    hide InMeeting;
    if InMeeting(s.at, Past(f)) {
      InMeetingStays(s.at, f);
    }
    var now, later := SliceOf(s, latest, f), SliceOf(s, latest, Past(f));
    if now == later && now != [] {
      assert now[0].inMeeting == later[0].inMeeting;
    }
  }

  lemma SamePieces<T>(a: seq<T>, b: seq<T>, c: seq<T>, d: seq<T>)
    requires |a| == |c|
    ensures a + b == c + d <==> a == c && b == d
  {
    if a + b == c + d {
      assert a == (a + b)[..|a|] && b == (a + b)[|a|..];
      assert c == (c + d)[..|c|] && d == (c + d)[|c|..];
    }
  }

  /** Before the last sample nothing but an unended meeting tells today from a past day. */
  lemma {:induction false} SlicesAcross(samples: seq<Sample>, n: nat, f: Frame)
    requires f.today && n < |samples|
    ensures |Slices(samples, n, f)| == |Slices(samples, n, Past(f))|
    ensures Slices(samples, n, f) == Slices(samples, n, Past(f)) <==> MeetingsEnded(samples, n, f)
  {
    if n > 0 {
      hide SliceOf;
      hide OnlyInOpenMeeting;
      hide MeetingsEnded;
      OneMoreEnded(samples, n - 1, f);
      SlicesAcross(samples, n - 1, f);
      var s := samples[n - 1];
      SliceAcross(s, false, f);
      SamePieces(Slices(samples, n - 1, f), SliceOf(s, false, f),
                 Slices(samples, n - 1, Past(f)), SliceOf(s, false, Past(f)));
    }
  }

  lemma TailTells(samples: seq<Sample>, f: Frame)
    requires samples != [] && f.today
    ensures var s := samples[|samples| - 1];
            LiveTail(samples, f) == 0 <==> DurationOf(s, true, f) == DurationOf(s, true, Past(f))
  {
  }

  /** The day is cut into the same slices on both sides of midnight if and only if it has no live tail and no
      sample that lasts lies only in a meeting nobody has ended. */
  lemma SameSlicesAcross(samples: seq<Sample>, f: Frame)
    requires f.today
    ensures Slices(samples, |samples|, f) == Slices(samples, |samples|, Past(f)) <==>
            LiveTail(samples, f) == 0 && MeetingsEnded(samples, |samples|, f)
  {
    if samples != [] {
      hide SliceOf;
      hide OnlyInOpenMeeting;
      hide DurationOf;
      hide LiveTail;
      hide MeetingsEnded;
      OneMoreEnded(samples, |samples| - 1, f);
      var n := |samples|;
      var s := samples[n - 1];
      TailTells(samples, f);
      SlicesAcross(samples, n - 1, f);
      SliceAcross(s, true, f);
      SamePieces(Slices(samples, n - 1, f), SliceOf(s, true, f),
                 Slices(samples, n - 1, Past(f)), SliceOf(s, true, Past(f)));
    }
  }

  /** So every figure of the day, each bar included, is the same on both sides. */
  lemma FrozenAcrossMidnight(samples: seq<Sample>, basis: int, f: Frame)
    requires f.today && LiveTail(samples, f) == 0 && MeetingsEnded(samples, |samples|, f)
    ensures DailyOf(samples, basis, f) == DailyOf(samples, basis, Past(f))
  {
    SameSlicesAcross(samples, f);
  }

  lemma ActivePiece(s: Sample, latest: bool, f: Frame)
    requires f.today && DurationOf(s, latest, f) == DurationOf(s, latest, Past(f))
    ensures var now, later := SliceOf(s, latest, f), SliceOf(s, latest, Past(f));
            ActiveSum(now, 0, |now|) == ActiveSum(later, 0, |later|) +
              (if (s.idle || s.Locked()) && OnlyInOpenMeeting(s.at, f) then DurationOf(s, latest, Past(f)) else 0)
  {
    hide InMeeting;
    if InMeeting(s.at, Past(f)) {
      InMeetingStays(s.at, f);
    }
  }

  /** Before backfilling, midnight takes from the active seconds just those of unended meetings. */
  lemma {:induction false} ActiveAcross(samples: seq<Sample>, n: nat, f: Frame)
    requires n <= |samples| && f.today && (n == |samples| ==> LiveTail(samples, f) == 0)
    ensures var now, later := Slices(samples, n, f), Slices(samples, n, Past(f));
            ActiveSum(now, 0, |now|) == ActiveSum(later, 0, |later|) + OpenMeetingIdle(samples, n, f)
  {
    if n > 0 {
      hide SliceOf;
      hide OnlyInOpenMeeting;
      ActiveAcross(samples, n - 1, f);
      ActivePiece(samples[n - 1], n == |samples|, f);
      SumsAppend(Slices(samples, n - 1, f), SliceOf(samples[n - 1], n == |samples|, f));
      SumsAppend(Slices(samples, n - 1, Past(f)), SliceOf(samples[n - 1], n == |samples|, Past(f)));
    }
  }

  /** What backfilling moves out of active on a day seen in a frame. */
  function MovedIn(samples: seq<Sample>, f: Frame): int {
    var s := Slices(samples, |samples|, f);
    MovedSum(s, 0, |s|)
  }

  /** Active and idle together lose exactly the live tail at midnight. */
  lemma MidnightDropsTheOpenTail(samples: seq<Sample>, f: Frame)
    requires samples != [] && f.today
    ensures DaySum(samples, f) - DaySum(samples, Past(f)) == LiveTail(samples, f)
  {
    DaySumIs(samples, f);
    DaySumIs(samples, Past(f));
  }

  /** Without a live tail, active seconds lose the inactive time of unended meetings, less what backfilling
      takes back on today only; and idle seconds gain as much. */
  lemma MidnightShifts(samples: seq<Sample>, basis: int, f: Frame)
    requires samples != [] && f.today && LiveTail(samples, f) == 0
    ensures var shift := OpenMeetingIdle(samples, |samples|, f) - (MovedIn(samples, f) - MovedIn(samples, Past(f)));
            && DailyOf(samples, basis, f).activeSec == DailyOf(samples, basis, Past(f)).activeSec + shift
            && DailyOf(samples, basis, f).idleSec == DailyOf(samples, basis, Past(f)).idleSec - shift
  {
    MidnightDropsTheOpenTail(samples, f);
    ActiveAcross(samples, |samples|, f);
    var now, later := Slices(samples, |samples|, f), Slices(samples, |samples|, Past(f));
    BackfillConserves(now, |now|);
    BackfillConserves(later, |later|);
  }

  /** The totals of a day are the same on both sides of midnight if and only if it has no live tail and the
      inactive time of its unended meetings is just what backfilling moves more on today. */
  lemma TotalsAcrossMidnight(samples: seq<Sample>, basis: int, f: Frame)
    requires samples != [] && f.today
    ensures (&& DailyOf(samples, basis, f).activeSec == DailyOf(samples, basis, Past(f)).activeSec
             && DailyOf(samples, basis, f).idleSec == DailyOf(samples, basis, Past(f)).idleSec) <==>
            && LiveTail(samples, f) == 0
            && OpenMeetingIdle(samples, |samples|, f) == MovedIn(samples, f) - MovedIn(samples, Past(f))
  {
    hide Slices;
    hide MovedIn;
    if LiveTail(samples, f) == 0 {
      MidnightShifts(samples, basis, f);
    } else {
      MidnightDropsTheOpenTail(samples, f);
    }
  }

  /** The figures of an ended day. They do not move with the clock while it stays on the same side of midnight;
      and when the day is over they stay what they were if it has no live tail and no sample that lasts only
      in a meeting nobody has ended. */
  lemma EndedDayIsFrozen(samples: seq<Sample>, basis: int, date: int, now: int, later: int, endedAt: int,
                         meetings: seq<Meeting>, offset: int)
    requires endedAt <= now <= later
    ensures var f := FrameOf(date, now, Some(endedAt), meetings, offset);
            var g := FrameOf(date, later, Some(endedAt), meetings, offset);
            f.today == g.today || (f.today && LiveTail(samples, f) == 0 && MeetingsEnded(samples, |samples|, f)) ==>
              DailyOf(samples, basis, f) == DailyOf(samples, basis, g)
  {
    var f := FrameOf(date, now, Some(endedAt), meetings, offset);
    var g := FrameOf(date, later, Some(endedAt), meetings, offset);
    if f.today && !g.today && LiveTail(samples, f) == 0 && MeetingsEnded(samples, |samples|, f) {
      assert g == Past(f);
      FrozenAcrossMidnight(samples, basis, f);
    }
  }

  lemma OneSlice(samples: seq<Sample>, f: Frame)
    requires |samples| == 1
    ensures Slices(samples, 1, f) == SliceOf(samples[0], true, f)
  {
    assert Slices(samples, 0, f) == [];
    assert [] + SliceOf(samples[0], true, f) == SliceOf(samples[0], true, f);
  }

  lemma OneSampleDay(sample: Sample, basis: int, f: Frame)
    ensures var cut := SliceOf(sample, true, f);
            && DailyOf([sample], basis, f).activeSec == (if cut == [] then 0 else cut[0].activeSec)
            && DailyOf([sample], basis, f).idleSec == (if cut == [] then 0 else cut[0].idleSec)
  {
    OneSlice([sample], f);
    var cut := SliceOf(sample, true, f);
    assert Fills([sample], 1, f.offset) == [];
    BackfillConserves(cut, |cut|);
    if cut != [] {
      assert Budget(cut, 0) == 0;
      assert ActiveSum(cut, 0, 1) == ActiveSum(cut, 0, 0) + cut[0].activeSec;
      assert IdleSum(cut, 1) == IdleSum(cut, 0) + cut[0].idleSec;
      assert MovedSum(cut, 0, 1) == MovedSum(cut, 0, 0) + Moved(cut, 0);
    }
  }

  /** A day ended 100 s after a working sample that was never closed: its 100 active seconds are gone the next
      day. */
  lemma OpenTailIsDropped(basis: int, offset: int)
    ensures var samples, f := [Sample(0, 0, false, false, None)], Frame(true, 100_000, [], offset);
            && DailyOf(samples, basis, f).activeSec == 100
            && DailyOf(samples, basis, Past(f)).activeSec == 0
  {
    var sample, f := Sample(0, 0, false, false, None), Frame(true, 100_000, [], offset);
    OneSampleDay(sample, basis, f);
    OneSampleDay(sample, basis, Past(f));
  }

  /** A day whose one closed sample, without input, lies in a meeting nobody ended: its 100 active seconds are
      idle the next day, though nothing was left open but the meeting. */
  lemma OpenMeetingIsDropped(basis: int, offset: int)
    ensures var samples, f := [Sample(0, 100, true, false, None)], Frame(true, 200_000, [Meeting(0, None)], offset);
            && LiveTail(samples, f) == 0
            && DailyOf(samples, basis, f).activeSec == 100 && DailyOf(samples, basis, f).idleSec == 0
            && DailyOf(samples, basis, Past(f)).activeSec == 0 && DailyOf(samples, basis, Past(f)).idleSec == 100
  {
    var sample, f := Sample(0, 100, true, false, None), Frame(true, 200_000, [Meeting(0, None)], offset);
    OneSampleDay(sample, basis, f);
    OneSampleDay(sample, basis, Past(f));
    assert Meeting(0, None) in f.meetings;
    assert InMeeting(0, f) && !InMeeting(0, Past(f));
  }
}
