/** From a wall-clock time in a zone to the instant, with the answers kept in a bounded cache. */
module Timezone {
  import opened Decimals
  import opened Gregorian
  import opened DateKeys

  const DAY_MS := 86_400_000
  const MINUTE_MS := 60_000
  const ZONED_CACHE_MAX := 50_000

  /** What a zone adds to UTC, in milliseconds, at each instant. */
  type Zone = int -> int

  /** The wall clock at an instant, as a number of milliseconds in the manner of `Date.UTC`. */
  function Wall(zone: Zone, instant: int): int { instant + zone(instant) }

  /** The wall-clock time asked for. */
  function Asked(k: string, minutes: int): int
    requires IsReadable(k)
  {
    DayOf(k) * DAY_MS + minutes * MINUTE_MS
  }

  /** The offset at the time itself, corrected once by the offset at the instant that gives. */
  function Resolve(zone: Zone, asked: int): int {
    var first := zone(asked);
    var second := zone(asked - first);
    if second != first then asked - second else asked - first
  }

  // ---- when the answer is right ----

  /** Within `reach` of `asked`, which no offset exceeds, the zone uses two offsets at most. */
  ghost predicate TwoOffsets(zone: Zone, asked: int, reach: int, one: int, other: int) {
    && (forall u :: -reach <= zone(u) <= reach)
    && (forall u | asked - reach <= u <= asked + reach :: zone(u) == one || zone(u) == other)
  }

  /** Whenever the wall clock reads the asked time at some instant, it reads it at the answer: on a day the
      clocks go forward, on a day they go back, east and west of Greenwich. */
  lemma ReadsTheAskedTime(zone: Zone, asked: int, reach: int, one: int, other: int, u: int)
    requires TwoOffsets(zone, asked, reach, one, other)
    requires Wall(zone, u) == asked
    ensures Wall(zone, Resolve(zone, asked)) == asked
  {
    assert -reach <= zone(u) <= reach;
    assert -reach <= zone(asked) <= reach;
    var first := asked - zone(asked);
    assert asked - reach <= first <= asked + reach;
    assert -reach <= zone(first) <= reach;
    assert asked - reach <= asked - zone(first) <= asked + reach;
  }

  /** Three offsets: an hour, then two hours, then minus one. */
  function ThreeOffsets(u: int): int {
    if u < -90 * MINUTE_MS then 60 * MINUTE_MS else if u < 30 * MINUTE_MS then 120 * MINUTE_MS else -60 * MINUTE_MS
  }

  /** One correction is not always enough for three: here an instant reads 00:00, and the answer does not. */
  lemma ThreeOffsetsCanMiss()
    ensures Wall(ThreeOffsets, 60 * MINUTE_MS) == 0
    ensures Wall(ThreeOffsets, Resolve(ThreeOffsets, 0)) == 60 * MINUTE_MS
  {
    assert ThreeOffsets(0) == 120 * MINUTE_MS;
    assert ThreeOffsets(-120 * MINUTE_MS) == 60 * MINUTE_MS;
    assert Resolve(ThreeOffsets, 0) == -60 * MINUTE_MS;
  }

  // ---- one transition ----

  /** Within `reach` of `asked`, which no offset exceeds, the zone changes its offset at most once: at
      `change`, from `before` to `since`. */
  ghost predicate OneChange(zone: Zone, asked: int, reach: int, change: int, before: int, since: int) {
    && -reach <= before <= reach && -reach <= since <= reach
    && (forall u :: -reach <= zone(u) <= reach)
    && (forall u | asked - reach <= u <= asked + reach :: zone(u) == if u < change then before else since)
  }

  /** An instant whose wall clock reads `asked` can only be one of two. */
  lemma Candidates(zone: Zone, asked: int, reach: int, change: int, before: int, since: int, u: int)
    requires OneChange(zone, asked, reach, change, before, since)
    ensures Wall(zone, u) == asked <==> (u == asked - before && u < change) || (u == asked - since && u >= change)
  {
    assert -reach <= zone(u) <= reach;
  }

  /** The answer, branch by branch: which offset the second question finds. */
  lemma Resolved(zone: Zone, asked: int, reach: int, change: int, before: int, since: int)
    requires OneChange(zone, asked, reach, change, before, since)
    ensures asked < change ==> Resolve(zone, asked) == asked - (if asked - before < change then before else since)
    ensures asked >= change ==> Resolve(zone, asked) == asked - (if asked - since < change then before else since)
  {
    assert asked - reach <= asked - zone(asked) <= asked + reach;
  }

  /** So the answer reads the asked time exactly when that time is not one the clocks jump over. */
  lemma RightUnlessSkipped(zone: Zone, asked: int, reach: int, change: int, before: int, since: int)
    requires OneChange(zone, asked, reach, change, before, since)
    ensures Wall(zone, Resolve(zone, asked)) == asked <==> !(asked - since < change <= asked - before)
  {
    Resolved(zone, asked, reach, change, before, since);
    Candidates(zone, asked, reach, change, before, since, Resolve(zone, asked));
  }

  /** A time the clocks jump over has no instant. The answer then misses it by exactly the jump: early when
      the asked time, read as UTC, comes before the change, late otherwise. */
  lemma SkippedTime(zone: Zone, asked: int, reach: int, change: int, before: int, since: int)
    requires OneChange(zone, asked, reach, change, before, since)
    requires asked - since < change <= asked - before
    ensures forall u :: Wall(zone, u) != asked
    ensures Wall(zone, Resolve(zone, asked)) == asked + (if asked < change then before - since else since - before)
  {
    Resolved(zone, asked, reach, change, before, since);
    forall u ensures Wall(zone, u) != asked {
      Candidates(zone, asked, reach, change, before, since, u);
    }
  }

  /** A time the clocks pass twice: the answer is the first pass when the asked time, read as UTC, comes
      before the change, and the second otherwise. */
  lemma RepeatedTime(zone: Zone, asked: int, reach: int, change: int, before: int, since: int)
    requires OneChange(zone, asked, reach, change, before, since)
    requires asked - before < change <= asked - since
    ensures Wall(zone, asked - before) == asked == Wall(zone, asked - since)
    ensures Resolve(zone, asked) == asked - (if asked < change then before else since)
  {
    Resolved(zone, asked, reach, change, before, since);
    Candidates(zone, asked, reach, change, before, since, asked - before);
    Candidates(zone, asked, reach, change, before, since, asked - since);
  }

  /** An instant that reads what was asked for shows the date of the key and the minutes of that day, or, past
      midnight, the later date and the minutes left. */
  lemma ReadsTheKey(zone: Zone, k: string, minutes: int, u: int)
    requires IsReadable(k) && Wall(zone, u) == Asked(k, minutes)
    ensures Text(CivilOf(Wall(zone, u) / DAY_MS)) == AddDaysToKey(k, minutes / 1440)
    ensures Wall(zone, u) % DAY_MS / MINUTE_MS == minutes % 1440
  {
    hide CivilOf;
    hide AddDaysToKey;
    hide DayOf;
    hide Text;
    hide IsReadable;
    hide Wall;
    WholeDays(DayOf(k), minutes);
    AddDaysIs(k, minutes / 1440);
  }

  /** Whenever some instant reads the asked minutes of the asked day, the answer shows that day and those
      minutes. */
  lemma ShowsTheAskedTime(zone: Zone, k: string, minutes: int, reach: int, one: int, other: int, u: int)
    requires IsReadable(k) && TwoOffsets(zone, Asked(k, minutes), reach, one, other)
    requires Wall(zone, u) == Asked(k, minutes)
    ensures var at := Wall(zone, Resolve(zone, Asked(k, minutes)));
            Text(CivilOf(at / DAY_MS)) == AddDaysToKey(k, minutes / 1440) && at % DAY_MS / MINUTE_MS == minutes % 1440
  {
    hide IsReadable;
    hide CivilOf;
    hide AddDaysToKey;
    hide Asked;
    hide Text;
    hide Resolve;
    hide Wall;
    ReadsTheAskedTime(zone, Asked(k, minutes), reach, one, other, u);
    ReadsTheKey(zone, k, minutes, Resolve(zone, Asked(k, minutes)));
  }

  lemma WholeDays(day: int, minutes: int)
    ensures var at := day * DAY_MS + minutes * MINUTE_MS;
            at / DAY_MS == day + minutes / 1440 && at % DAY_MS / MINUTE_MS == minutes % 1440
  {
    assert day * DAY_MS + minutes * MINUTE_MS == (day + minutes / 1440) * DAY_MS + (minutes % 1440) * MINUTE_MS;
  }

  // ---- the cache ----

  function CacheKey(tz: string, k: string, minutes: int): string { tz + "|" + k + "|" + Signed(minutes) }

  lemma SignedHasNoBar(n: int)
    ensures '|' !in Signed(n)
  {
    var digits := Decimal(if n < 0 then -n else n);
    assert forall i | 0 <= i < |digits| :: IsDigit(digits[i]);
    assert Signed(n) == digits || Signed(n) == "-" + digits;
  }

  lemma LaterBar(p: string, q: string, r: string, s: string)
    requires p + "|" + q == r + "|" + s && |p| < |r|
    ensures '|' in q
  {
    assert (p + "|" + q)[|r|] == (r + "|" + s)[|r|] == '|';
    assert (p + "|" + q)[|r|] == q[|r| - |p| - 1];
  }

  /** Text after the last bar determines both sides of it. */
  lemma LastBar(p: string, q: string, r: string, s: string)
    requires p + "|" + q == r + "|" + s && '|' !in q && '|' !in s
    ensures p == r && q == s
  {
    if |p| < |r| {
      LaterBar(p, q, r, s);
    } else if |r| < |p| {
      LaterBar(r, s, p, q);
    }
    assert (p + "|" + q)[..|p|] == p && (r + "|" + s)[..|r|] == r;
    assert (p + "|" + q)[|p| + 1..] == q && (r + "|" + s)[|r| + 1..] == s;
  }

  /** No two questions share a cache entry. */
  lemma CacheKeyDistinct(tz: string, k: string, minutes: int, tz2: string, k2: string, minutes2: int)
    requires IsReadable(k) && IsReadable(k2) && CacheKey(tz, k, minutes) == CacheKey(tz2, k2, minutes2)
    ensures tz == tz2 && k == k2 && minutes == minutes2
  {
    SignedHasNoBar(minutes);
    SignedHasNoBar(minutes2);
    LastBar(tz + "|" + k, Signed(minutes), tz2 + "|" + k2, Signed(minutes2));
    SignedDistinct(minutes, minutes2);
    ReadableHasNoBar(k);
    ReadableHasNoBar(k2);
    LastBar(tz, k, tz2, k2);
  }

  lemma ReadableHasNoBar(k: string)
    requires IsReadable(k)
    ensures '|' !in k
  {
    if IsDateText(k) {
      DateTextHasNoBar(k);
    } else {
      DateTextHasNoBar(k[1..]);
      assert k == [k[0]] + k[1..];
    }
  }

  lemma DateTextHasNoBar(k: string)
    requires IsDateText(k)
    ensures '|' !in k
  {
    var n := |k|;
    forall i | 0 <= i < n
      ensures k[i] != '|'
    {
      if i < n - 6 {
        assert k[i] == k[..n - 6][i];
      } else if n - 5 <= i < n - 3 {
        assert k[i] == k[n - 5..n - 3][i - (n - 5)];
      } else if i >= n - 2 {
        assert k[i] == k[n - 2..][i - (n - 2)];
      }
    }
  }

  /** Where the zones come from: `Intl`'s data, by name. */
  class ZonedTimes {
    const zones: string -> Zone
    var cache: map<string, int>

    /** Every cached answer is the one that would be computed afresh. */
    ghost predicate Valid()
      reads this
    {
      && |cache| <= ZONED_CACHE_MAX
      && forall tz, k, minutes | IsReadable(k) && CacheKey(tz, k, minutes) in cache ::
           cache[CacheKey(tz, k, minutes)] == Resolve(zones(tz), Asked(k, minutes))
    }

    constructor (zones: string -> Zone)
      ensures Valid() && this.zones == zones && cache == map[]
    {
      this.zones := zones;
      cache := map[];
    }

    method ZonedMinutesToUtc(k: string, minutes: int, tz: string) returns (utc: int)
      requires Valid() && IsReadable(k)
      modifies this
      ensures Valid()
      ensures utc == Resolve(zones(tz), Asked(k, minutes)) && |cache| <= 50_000
      ensures cache == var key := CacheKey(tz, k, minutes);
                       if key in old(cache) then old(cache)
                       else (if |old(cache)| >= ZONED_CACHE_MAX then map[] else old(cache))[key := utc]
    {
      var key := CacheKey(tz, k, minutes);
      if key in cache {
        return cache[key];
      }
      var guess := Asked(k, minutes);
      var first := zones(tz)(guess);
      utc := guess - first;
      var second := zones(tz)(utc);
      if second != first {
        utc := guess - second;
      }
      if |cache| >= ZONED_CACHE_MAX {
        cache := map[];
      }
      cache := cache[key := utc];
      forall tz2, k2, minutes2 | IsReadable(k2) && CacheKey(tz2, k2, minutes2) in cache
        ensures cache[CacheKey(tz2, k2, minutes2)] == Resolve(zones(tz2), Asked(k2, minutes2))
      {
        if CacheKey(tz2, k2, minutes2) == key {
          CacheKeyDistinct(tz2, k2, minutes2, tz, k, minutes);
        }
      }
    }
  }
}
