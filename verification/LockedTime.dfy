/** Idle time recovered for stretches a locked, sleeping machine never reported, split over local hours.
    `offset` is the fixed offset of the business zone the process runs in. */
module LockedTime {
  import opened Options
  import opened Clock

  const HOUR_MS := 3_600_000
  const MAX_GAP_SEC := 150
  const LOCK_GAP_FILL_CAP_SEC := 14_400
  const LOCK_SCREEN_APP := "LockApp.exe"

  /** A stored foreground sample; `durationSec` is 0 while it is open. */
  datatype Sample = Sample(at: int, durationSec: int, idle: bool, locked: bool, app: Option<string>)
  {
    predicate Locked() { locked || app == Some(LOCK_SCREEN_APP) }

    /** What the sample itself accounts for once it is closed. */
    function Recorded(): nat {
      if durationSec <= 0 then 0 else if durationSec <= MAX_GAP_SEC then durationSec else MAX_GAP_SEC
    }
  }

  predicate WholeSecond(t: int, offset: int) { (t + offset) % 1000 == 0 }

  datatype FilledIdle = FilledIdle(hour: nat, idleSec: nat)

  /** A window inside one local hour. */
  datatype Piece = Piece(start: int, end: int)

  function HourOf(t: int, offset: int): (h: nat)
    ensures h < 24
  {
    ((t + offset) / HOUR_MS) % 24
  }

  /** The hour of an instant is the one whose sixty minutes of its local day it lies in. */
  lemma HourIs(t: int, offset: int, day: int, h: int)
    requires 0 <= h < 24 && 86_400_000 * day + 3_600_000 * h <= t + offset < 86_400_000 * day + 3_600_000 * (h + 1)
    ensures HourOf(t, offset) == h
  {
    assert (t + offset) / HOUR_MS == 24 * day + h;
  }

  /** The start of the next local hour. */
  function NextHour(t: int, offset: int): (n: int)
    ensures t < n <= t + HOUR_MS && (n + offset) % HOUR_MS == 0
  {
    ((t + offset) / HOUR_MS + 1) * HOUR_MS - offset
  }

  function Pieces(start: int, end: int, offset: int): seq<Piece>
    decreases end - start
  {
    if start >= end then []
    else
      var slice := if NextHour(start, offset) < end then NextHour(start, offset) else end;
      [Piece(start, slice)] + Pieces(slice, end, offset)
  }

  function Idle(pieces: seq<Piece>, offset: int): seq<FilledIdle> {
    if pieces == [] then []
    else
      var sec := ElapsedSeconds(pieces[0].start, pieces[0].end);
      (if sec > 0 then [FilledIdle(HourOf(pieces[0].start, offset), sec)] else []) + Idle(pieces[1..], offset)
  }

  function Total(out: seq<FilledIdle>): nat { if out == [] then 0 else out[0].idleSec + Total(out[1..]) }

  method ByHour(start: int, end: int, offset: int) returns (out: seq<FilledIdle>)
    ensures out == Idle(Pieces(start, end, offset), offset)
  {
    out := [];
    var cursor := start;
    while cursor < end
      invariant out + Idle(Pieces(cursor, end, offset), offset) == Idle(Pieces(start, end, offset), offset)
    {
      var nextHour := NextHour(cursor, offset);
      var slice := if nextHour < end then nextHour else end;
      var idleSec := ElapsedSeconds(cursor, slice);
      assert Pieces(cursor, end, offset)[1..] == Pieces(slice, end, offset);
      if idleSec > 0 {
        out := out + [FilledIdle(HourOf(cursor, offset), idleSec)];
      }
      cursor := slice;
    }
  }

  /** The pieces tile the window: they start where it starts, follow on from each other, end where it
      ends, and each lies inside one local hour. */
  lemma {:induction false} PiecesTile(start: int, end: int, offset: int)
    requires start < end
    ensures var p := Pieces(start, end, offset);
            && |p| > 0 && p[0].start == start && p[|p| - 1].end == end
            && (forall k | 0 <= k < |p| - 1 :: p[k].end == p[k + 1].start)
            && (forall k | 0 <= k < |p| ::
                  start <= p[k].start < p[k].end <= NextHour(p[k].start, offset) && p[k].end <= end)
    decreases end - start
  {
    var p := Pieces(start, end, offset);
    var slice := p[0].end;
    if slice < end {
      PiecesTile(slice, end, offset);
      var rest := Pieces(slice, end, offset);
      forall k | 0 <= k < |p|
        ensures start <= p[k].start < p[k].end <= NextHour(p[k].start, offset) && p[k].end <= end
        ensures k < |p| - 1 ==> p[k].end == p[k + 1].start
      {
        assert k > 0 ==> p[k] == rest[k - 1];
        assert k < |p| - 1 ==> p[k + 1] == rest[k];
      }
      assert p[|p| - 1] == rest[|rest| - 1];
    }
  }

  /** Every instant of the window lies in a piece, whose bar is the instant's own local hour. */
  lemma {:induction false} InstantInItsHour(start: int, end: int, offset: int, t: int)
    requires start <= t < end
    ensures exists k | 0 <= k < |Pieces(start, end, offset)| ::
              Pieces(start, end, offset)[k].start <= t < Pieces(start, end, offset)[k].end &&
              HourOf(Pieces(start, end, offset)[k].start, offset) == HourOf(t, offset)
    decreases end - start
  {
    var p := Pieces(start, end, offset);
    var slice := p[0].end;
    if t < slice {
      SameHour(start, t, offset);
      assert p[0].start <= t < p[0].end;
    } else {
      InstantInItsHour(slice, end, offset, t);
      var k :| 0 <= k < |Pieces(slice, end, offset)|
        && Pieces(slice, end, offset)[k].start <= t < Pieces(slice, end, offset)[k].end &&
        HourOf(Pieces(slice, end, offset)[k].start, offset) == HourOf(t, offset);
      assert p[k + 1] == Pieces(slice, end, offset)[k];
    }
  }

  /** A window inside one local hour goes whole into that hour's bar. */
  lemma WithinOneHour(start: int, end: int, offset: int, day: int, h: int)
    requires 0 <= h < 24 && start < end
    requires 86_400_000 * day + 3_600_000 * h <= start + offset
    requires end + offset <= 86_400_000 * day + 3_600_000 * (h + 1)
    ensures var sec := ElapsedSeconds(start, end);
            Idle(Pieces(start, end, offset), offset) == if sec > 0 then [FilledIdle(h, sec)] else []
  {
    HourIs(start, offset, day, h);
    assert (start + offset) / HOUR_MS == 24 * day + h;
    assert Pieces(end, end, offset) == [];
    assert Pieces(start, end, offset) == [Piece(start, end)];
    assert [Piece(start, end)][1..] == [];
    assert Idle([], offset) == [];
  }

  /** And one that goes past the start of a local hour is what lies before it and what lies after. */
  lemma {:induction false} SplitAtTheHour(start: int, hour: int, end: int, offset: int)
    requires start <= hour <= end && (hour + offset) % HOUR_MS == 0
    ensures Idle(Pieces(start, end, offset), offset) ==
            Idle(Pieces(start, hour, offset), offset) + Idle(Pieces(hour, end, offset), offset)
    decreases hour - start
  {
    PiecesSplit(start, hour, end, offset);
    IdleAppend(Pieces(start, hour, offset), Pieces(hour, end, offset), offset);
  }

  lemma {:induction false} PiecesSplit(start: int, hour: int, end: int, offset: int)
    requires start <= hour <= end && (hour + offset) % HOUR_MS == 0
    ensures Pieces(start, end, offset) == Pieces(start, hour, offset) + Pieces(hour, end, offset)
    decreases hour - start
  {
    hide NextHour;
    if start < hour {
      var next := NextHour(start, offset);
      NoHourBetween(start, hour, offset);
      FirstPiece(start, hour, offset);
      FirstPiece(start, end, offset);
      hide Pieces;
      PiecesSplit(next, hour, end, offset);
    } else {
      assert Pieces(start, hour, offset) == [];
    }
  }

  lemma FirstPiece(start: int, end: int, offset: int)
    requires start < end && NextHour(start, offset) <= end
    ensures Pieces(start, end, offset) ==
            [Piece(start, NextHour(start, offset))] + Pieces(NextHour(start, offset), end, offset)
  {
    hide NextHour;
  }

  lemma NoHourBetween(start: int, hour: int, offset: int)
    requires start < hour && (hour + offset) % HOUR_MS == 0
    ensures NextHour(start, offset) <= hour
  {
    assert (start + offset) / HOUR_MS < (hour + offset) / HOUR_MS;
  }

  lemma {:induction false} IdleAppend(a: seq<Piece>, b: seq<Piece>, offset: int)
    ensures Idle(a + b, offset) == Idle(a, offset) + Idle(b, offset)
    decreases |a|
  {
    if a == [] {
      assert a + b == b;
    } else {
      assert (a + b)[0] == a[0] && (a + b)[1..] == a[1..] + b;
      IdleAppend(a[1..], b, offset);
    }
  }

  lemma SameHour(start: int, t: int, offset: int)
    requires start <= t < NextHour(start, offset)
    ensures HourOf(t, offset) == HourOf(start, offset)
  {
    assert (t + offset) / HOUR_MS == (start + offset) / HOUR_MS;
  }

  lemma IdleStep(start: int, end: int, offset: int)
    requires start < end
    ensures var slice := Pieces(start, end, offset)[0].end;
            Total(Idle(Pieces(start, end, offset), offset)) ==
            ElapsedSeconds(start, slice) + Total(Idle(Pieces(slice, end, offset), offset))
  {
    var p := Pieces(start, end, offset);
    assert p[1..] == Pieces(p[0].end, end, offset);
    var rest := Idle(p[1..], offset);
    assert Idle(p, offset) ==
      (if ElapsedSeconds(start, p[0].end) > 0 then [FilledIdle(HourOf(start, offset), ElapsedSeconds(start, p[0].end))]
       else []) + rest;
    if ElapsedSeconds(start, p[0].end) > 0 {
      assert Idle(p, offset)[1..] == rest;
    } else {
      assert Idle(p, offset) == rest;
    }
  }

  /** From the start of a local hour on, only the last piece rounds. */
  lemma {:induction false} TotalFromHour(start: int, end: int, offset: int)
    requires start <= end && (start + offset) % HOUR_MS == 0
    ensures end - start - 500 < 1000 * Total(Idle(Pieces(start, end, offset), offset)) <= end - start + 500
    decreases end - start
  {
    if start < end {
      IdleStep(start, end, offset);
      var slice := Pieces(start, end, offset)[0].end;
      if slice < end {
        assert slice == start + HOUR_MS;
        assert ElapsedSeconds(start, slice) == 3600;
        TotalFromHour(slice, end, offset);
      }
    }
  }

  /** The recovered seconds are the window's length, give or take one rounding at each end. */
  lemma TotalNearLength(start: int, end: int, offset: int)
    requires start <= end
    ensures end - start - 1000 < 1000 * Total(Idle(Pieces(start, end, offset), offset)) <= end - start + 1000
  {
    if start < end {
      IdleStep(start, end, offset);
      var slice := Pieces(start, end, offset)[0].end;
      if slice < end {
        TotalFromHour(slice, end, offset);
      }
    }
  }

  lemma ElapsedExact(start: int, end: int, k: int)
    requires start <= end && end - start == 1000 * k
    ensures ElapsedSeconds(start, end) == k
  {
  }

  /** The whole seconds from a whole local second to the next hour. */
  lemma SecondsToHour(start: int, offset: int) returns (k: int)
    requires WholeSecond(start, offset)
    ensures NextHour(start, offset) - start == 1000 * k
  {
    k := ((start + offset) / HOUR_MS + 1) * 3600 - (start + offset) / 1000;
  }

  /** At whole-second bounds nothing is lost or gained. */
  lemma TotalExact(start: int, end: int, offset: int, k: int)
    requires start <= end && end - start == 1000 * k && WholeSecond(start, offset)
    ensures Total(Idle(Pieces(start, end, offset), offset)) == k
  {
    if start < end {
      IdleStep(start, end, offset);
      var slice := Pieces(start, end, offset)[0].end;
      if slice < end {
        var h := SecondsToHour(start, offset);
        ElapsedExact(start, slice, h);
        TotalFromHour(slice, end, offset);
      } else {
        ElapsedExact(start, end, k);
      }
    }
  }

  // ---- locked gaps ----

  /** The idle seconds owed between two consecutive samples. */
  function GapFill(prev: Sample, next: Sample, offset: int): seq<FilledIdle> {
    var gapSec := ElapsedSeconds(prev.at, next.at);
    if gapSec <= MAX_GAP_SEC || !prev.Locked() then []
    else if gapSec > LOCK_GAP_FILL_CAP_SEC || gapSec - prev.Recorded() <= 0 then []
    else Idle(Pieces(prev.at + prev.Recorded() * 1000, next.at, offset), offset)
  }

  /** What the gaps between the first `n` samples are owed. */
  function Fills(samples: seq<Sample>, n: nat, offset: int): seq<FilledIdle>
    requires n <= |samples|
  {
    if n <= 1 then [] else Fills(samples, n - 1, offset) + GapFill(samples[n - 2], samples[n - 1], offset)
  }

  function Flattened(parts: seq<seq<FilledIdle>>): seq<FilledIdle> {
    if parts == [] then [] else Flattened(parts[..|parts| - 1]) + parts[|parts| - 1]
  }

  /** Every gap of the day is owed its own, from the first to the last, and nothing else is. */
  lemma {:induction false} FillsAreAllGaps(samples: seq<Sample>, n: nat, offset: int)
    requires 0 < n <= |samples|
    ensures Fills(samples, n, offset) ==
            Flattened(seq(n - 1, i requires 0 <= i < n - 1 => GapFill(samples[i], samples[i + 1], offset)))
  {
    hide GapFill;
    if n > 1 {
      FillsAreAllGaps(samples, n - 1, offset);
      var gaps := seq(n - 1, i requires 0 <= i < n - 1 => GapFill(samples[i], samples[i + 1], offset));
      assert gaps[..n - 2] == seq(n - 2, i requires 0 <= i < n - 2 => GapFill(samples[i], samples[i + 1], offset));
    }
  }

  /** The loop body: one gap. */
  method FillGap(prev: Sample, next: Sample, offset: int) returns (out: seq<FilledIdle>)
    ensures out == GapFill(prev, next, offset)
  {
    out := [];
    var gapSec := ElapsedSeconds(prev.at, next.at);
    if gapSec <= MAX_GAP_SEC {
      return;
    }
    if !prev.Locked() {
      return;
    }
    if gapSec > LOCK_GAP_FILL_CAP_SEC {
      return;
    }
    var credited := prev.Recorded();
    if gapSec - credited <= 0 {
      return;
    }
    out := ByHour(prev.at + credited * 1000, next.at, offset);
  }

  method FillLockedGaps(samples: seq<Sample>, offset: int) returns (out: seq<FilledIdle>)
    ensures out == Fills(samples, |samples|, offset)
  {
    hide GapFill;
    out := [];
    var i := 1;
    while i < |samples|
      invariant samples != [] ==> 1 <= i <= |samples| && out == Fills(samples, i, offset)
      invariant samples == [] ==> out == []
    {
      var filled := FillGap(samples[i - 1], samples[i], offset);
      out := out + filled;
      i := i + 1;
    }
  }

  /** The stamped duration never exceeds the time to the next sample. */
  predicate StampedWithin(prev: Sample, next: Sample) {
    prev.at <= next.at && (prev.durationSec > 0 ==> prev.durationSec * 1000 <= next.at - prev.at)
  }

  /** A gap is never counted for more than its length, to within the rounding at its two ends; and a gap
      whose opening sample is locked, over 150 s and at most 4 h, is counted in full. */
  lemma GapCountedOnce(prev: Sample, next: Sample, offset: int)
    requires StampedWithin(prev, next)
    ensures 1000 * (prev.Recorded() + Total(GapFill(prev, next, offset))) <= next.at - prev.at + 1000
    ensures prev.Locked() && MAX_GAP_SEC < ElapsedSeconds(prev.at, next.at) <= LOCK_GAP_FILL_CAP_SEC ==>
            next.at - prev.at - 1000 < 1000 * (prev.Recorded() + Total(GapFill(prev, next, offset)))
  {
    if GapFill(prev, next, offset) != [] || (prev.Locked()
      && MAX_GAP_SEC < ElapsedSeconds(prev.at, next.at) <= LOCK_GAP_FILL_CAP_SEC) {
      TotalNearLength(prev.at + prev.Recorded() * 1000, next.at, offset);
    }
  }

  /** At whole seconds, exactly: at most the gap, and the whole gap when the lock proves it. */
  lemma GapCountedExactly(prev: Sample, next: Sample, offset: int)
    requires StampedWithin(prev, next) && WholeSecond(prev.at, offset) && WholeSecond(next.at, offset)
    ensures 1000 * (prev.Recorded() + Total(GapFill(prev, next, offset))) <= next.at - prev.at
    ensures prev.Locked() && MAX_GAP_SEC * 1000 < next.at - prev.at <= LOCK_GAP_FILL_CAP_SEC * 1000 ==>
            1000 * (prev.Recorded() + Total(GapFill(prev, next, offset))) == next.at - prev.at
  {
    var gap := (next.at + offset) / 1000 - (prev.at + offset) / 1000;
    ElapsedExact(prev.at, next.at, gap);
    var credited := prev.Recorded();
    assert WholeSecond(prev.at + credited * 1000, offset) by {
      assert prev.at + credited * 1000 + offset == 1000 * ((prev.at + offset) / 1000 + credited);
    }
    TotalExact(prev.at + credited * 1000, next.at, offset, gap - credited);
  }

  /** A gap is owed something only when its opening sample is locked, by its flag or by the lock screen, and it is over
      150 s and at most 4 h; and what it is owed then lies between what that sample accounts for, 150 s at most, and
      the next sample. */
  lemma GapOwedOnlyWhenLocked(prev: Sample, next: Sample, offset: int)
    ensures var sec := ElapsedSeconds(prev.at, next.at);
            var credited := if prev.durationSec > 150 then 150
                            else if prev.durationSec < 0 then 0 else prev.durationSec;
            if (prev.locked || prev.app == Some("LockApp.exe")) && 150 < sec <= 14_400
            then GapFill(prev, next, offset) == Idle(Pieces(prev.at + 1000 * credited, next.at, offset), offset)
            else GapFill(prev, next, offset) == []
  {
  }

  predicate Ascending(samples: seq<Sample>) {
    forall i | 0 <= i < |samples| - 1 :: StampedWithin(samples[i], samples[i + 1])
  }

  /** What the first `n` samples but the last of them account for. */
  function RecordedSum(samples: seq<Sample>, n: nat): nat
    requires n <= |samples|
  {
    if n <= 1 then 0 else RecordedSum(samples, n - 1) + samples[n - 2].Recorded()
  }

  lemma {:induction false} TotalAppend(a: seq<FilledIdle>, b: seq<FilledIdle>)
    ensures Total(a + b) == Total(a) + Total(b)
    decreases |a|
  {
    if a == [] {
      assert a + b == b;
    } else {
      assert (a + b)[1..] == a[1..] + b;
      TotalAppend(a[1..], b);
    }
  }

  /** Over a whole day: recorded and recovered seconds never exceed the time from the first sample to
      the last, plus at most one second of rounding for each gap. */
  lemma {:induction false} SpanCountedOnce(samples: seq<Sample>, n: nat, offset: int)
    requires 0 < n <= |samples| && Ascending(samples)
    ensures 1000 * (RecordedSum(samples, n) +
              Total(Fills(samples, n, offset))) <= samples[n - 1].at - samples[0].at + 1000 * (n - 1)
  {
    if n > 1 {
      SpanCountedOnce(samples, n - 1, offset);
      assert StampedWithin(samples[n - 2], samples[n - 2 + 1]);
      GapCountedOnce(samples[n - 2], samples[n - 1], offset);
      TotalAppend(Fills(samples, n - 1, offset), GapFill(samples[n - 2], samples[n - 1], offset));
    }
  }

  /** And with whole-second stamps, never exceed it at all. */
  lemma {:induction false} SpanCountedExactly(samples: seq<Sample>, n: nat, offset: int)
    requires 0 < n <= |samples| && Ascending(samples)
    requires forall i | 0 <= i < |samples| :: WholeSecond(samples[i].at, offset)
    ensures 1000 * (RecordedSum(samples, n) + Total(Fills(samples, n, offset))) <= samples[n - 1].at - samples[0].at
  {
    if n > 1 {
      SpanCountedExactly(samples, n - 1, offset);
      assert StampedWithin(samples[n - 2], samples[n - 2 + 1]);
      GapCountedExactly(samples[n - 2], samples[n - 1], offset);
      TotalAppend(Fills(samples, n - 1, offset), GapFill(samples[n - 2], samples[n - 1], offset));
    }
  }
}
