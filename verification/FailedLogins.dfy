/** Wrong passwords per client address: a bounded list that answers for the whole history. */
module FailedLogins {
  import opened Options

  const MINUTE_MS := 60_000
  const MAX_TRACKED := 50_000

  /** How many of these failures lie within the window that ends now. */
  function InWindow(all: seq<int>, window: int, now: int): nat {
    if all == [] then 0
    else InWindow(all[..|all| - 1], window, now) + (if now - all[|all| - 1] < window then 1 else 0)
  }

  /** The times come in order and none is after `clock`. */
  predicate InOrder(all: seq<int>, clock: int) {
    all == [] || (all[|all| - 1] <= clock && InOrder(all[..|all| - 1], all[|all| - 1]))
  }

  /** With times in order, at least `k` are in the window exactly when the k-th latest is. */
  lemma {:induction false} AtLeast(all: seq<int>, clock: int, k: nat, window: int, now: int)
    requires InOrder(all, clock) && k > 0
    ensures InWindow(all, window, now) >= k <==> |all| >= k && now - all[|all| - k] < window
    decreases |all|
  {
    if all != [] {
      var n := |all| - 1;
      if k > 1 {
        AtLeast(all[..n], all[n], k - 1, window, now);
      }
      if now - all[n] >= window {
        NoneInWindow(all[..n], all[n], window, now);
        NotAfter(all, clock, |all| - k);
      }
    }
  }

  lemma {:induction false} NoneInWindow(all: seq<int>, clock: int, window: int, now: int)
    requires InOrder(all, clock) && now - clock >= window
    ensures InWindow(all, window, now) == 0 && Recent(all, window, now) == []
    decreases |all|
  {
    if all != [] {
      NoneInWindow(all[..|all| - 1], all[|all| - 1], window, now);
    }
  }

  lemma {:induction false} NotAfter(all: seq<int>, clock: int, i: int)
    requires InOrder(all, clock)
    ensures 0 <= i < |all| ==> all[i] <= all[|all| - 1]
    decreases |all|
  {
    if 0 <= i < |all| - 1 {
      NotAfter(all[..|all| - 1], all[|all| - 1], i);
    }
  }

  lemma {:induction false} Earlier(all: seq<int>, clock: int, i: nat, j: nat)
    requires InOrder(all, clock) && i <= j < |all|
    ensures all[i] <= all[j]
    decreases |all|
  {
    if j < |all| - 1 {
      Earlier(all[..|all| - 1], all[|all| - 1], i, j);
    } else {
      NotAfter(all, clock, i);
    }
  }

  lemma {:induction false} SuffixInOrder(all: seq<int>, clock: int, d: nat)
    requires InOrder(all, clock) && d <= |all|
    ensures InOrder(all[d..], clock)
    decreases |all|
  {
    if d < |all| {
      var n := |all| - 1;
      SuffixInOrder(all[..n], all[n], d);
      assert all[d..][..n - d] == all[..n][d..];
    }
  }

  lemma AppendedInOrder(all: seq<int>, clock: int, now: int)
    requires InOrder(all, clock) && clock <= now
    ensures InOrder(all, now) && InOrder(all + [now], now)
  {
    assert (all + [now])[..|all|] == all;
  }

  /** `list` is the latest failures: as many as are kept at all, or every one that can still count. */
  predicate Kept(list: seq<int>, all: seq<int>, max: nat, window: int, clock: int) {
    && InOrder(all, clock)
    && |list| <= max && |list| <= |all| && list == all[|all| - |list|..]
    && (|list| < max && |list| < |all| ==> clock - all[|all| - |list| - 1] >= window)
  }

  /** Whole minutes until the address is under the limit again. */
  function BlockedMinutes(list: seq<int>, max: nat, window: int, now: int): nat
    requires max > 0
  {
    if |list| < max then 0
    else
      var clearsAt := list[0] + window;
      if clearsAt > now then (clearsAt - now + MINUTE_MS - 1) / MINUTE_MS else 0
  }

  /** The bounded list gives the answer of the unbounded history: blocked exactly when at least the limit
      of all failures ever recorded lie in the window; the minutes answered are enough, with no new
      failure, and not one too many. */
  lemma AnswersForAll(list: seq<int>, all: seq<int>, max: nat, window: int, clock: int, now: int)
    requires max > 0 && Kept(list, all, max, window, clock) && clock <= now
    ensures BlockedMinutes(list, max, window, now) > 0 <==> InWindow(all, window, now) >= max
    ensures InWindow(all, window, now + BlockedMinutes(list, max, window, now) * 60_000) < max
    ensures forall m: nat | m < BlockedMinutes(list, max, window, now) ::
              InWindow(all, window, now + m * 60_000) >= max
  {
    AtLeast(all, clock, max, window, now);
    if |list| < max <= |all| {
      Earlier(all, clock, |all| - max, |all| - |list| - 1);
    }
    var minutes := BlockedMinutes(list, max, window, now);
    AtLeast(all, clock, max, window, now + minutes * MINUTE_MS);
    forall m: nat | m < minutes
      ensures InWindow(all, window, now + m * MINUTE_MS) >= max
    {
      AtLeast(all, clock, max, window, now + m * MINUTE_MS);
    }
  }

  /** The entries still inside the window. */
  function Recent(list: seq<int>, window: int, now: int): seq<int> {
    if list == [] then []
    else Recent(list[..|list| - 1], window, now) + (if now - list[|list| - 1] < window then [list[|list| - 1]] else [])
  }

  lemma {:induction false} RecentIsSuffix(list: seq<int>, clock: int, window: int, now: int) returns (k: nat)
    requires InOrder(list, clock)
    ensures k <= |list| && Recent(list, window, now) == list[k..] && (k > 0 ==> now - list[k - 1] >= window)
    decreases |list|
  {
    k := |list|;
    if list != [] {
      var n := |list| - 1;
      if now - list[n] < window {
        k := RecentIsSuffix(list[..n], list[n], window, now);
        assert list[k..] == list[..n][k..] + [list[n]];
      } else {
        NoneInWindow(list[..n], list[n], window, now);
      }
    }
  }

  /** The list after one more failure. */
  function Recorded(list: seq<int>, max: nat, window: int, now: int): seq<int> {
    var longer := Recent(list, window, now) + [now];
    if |longer| > max then longer[|longer| - max..] else longer
  }

  /** It ends with that failure, and keeps no more than the limit. */
  lemma RecordedEnds(list: seq<int>, max: nat, window: int, now: int)
    requires max > 0
    ensures var r := Recorded(list, max, window, now);
            0 < |r| <= max && r[|r| - 1] == now
  {
  }

  lemma LongerIsSuffix(list: seq<int>, all: seq<int>, k: nat, now: int) returns (drop: nat)
    requires |list| <= |all| && list == all[|all| - |list|..] && k <= |list|
    ensures drop == |all| - (|list| - k) && list[k..] + [now] == (all + [now])[drop..]
    ensures k > 0 ==> all[drop - 1] == list[k - 1]
  {
    drop := |all| - (|list| - k);
    assert list[k..] == all[drop..];
  }

  lemma LastOfSuffix(longer: seq<int>, more: seq<int>, drop: nat, max: nat)
    requires drop <= |more| && longer == more[drop..]
    ensures var r := if |longer| > max then longer[|longer| - max..] else longer;
            r == more[|more| - |r|..]
  {
  }

  /** The last `max` of the longer list, with what lies before them in the history. */
  lemma TrimmedKeeps(longer: seq<int>, more: seq<int>, drop: nat, max: nat, window: int, now: int)
    requires max > 0 && InOrder(more, now) && drop <= |more| && longer == more[drop..]
    requires drop > 0 && |longer| < max ==> now - more[drop - 1] >= window
    ensures Kept(if |longer| > max then longer[|longer| - max..] else longer, more, max, window, now)
  {
    LastOfSuffix(longer, more, drop, max);
  }

  /** Recording keeps the list a sufficient one, though it drops everything past the limit. */
  lemma RecordedKeeps(list: seq<int>, all: seq<int>, max: nat, window: int, clock: int, now: int)
    requires max > 0 && window > 0 && Kept(list, all, max, window, clock) && clock <= now
    ensures Kept(Recorded(list, max, window, now), all + [now], max, window, now)
  {
    SuffixInOrder(all, clock, |all| - |list|);
    var k := RecentIsSuffix(list, clock, window, now);
    var drop := LongerIsSuffix(list, all, k, now);
    AppendedInOrder(all, clock, now);
    TrimmedKeeps(list[k..] + [now], all + [now], drop, max, window, now);
  }

  /** An address whose latest failure is out of the window may be forgotten altogether. */
  lemma PrunedKeeps(list: seq<int>, all: seq<int>, max: nat, window: int, clock: int, now: int)
    requires Kept(list, all, max, window, clock) && clock <= now
    requires list == [] || now - list[|list| - 1] >= window
    ensures Kept([], all, max, window, now)
  {
  }

  lemma KeptLater(list: seq<int>, all: seq<int>, max: nat, window: int, clock: int, now: int)
    requires Kept(list, all, max, window, clock) && clock <= now
    ensures Kept(list, all, max, window, now)
  {
  }

  function ListOf(m: map<string, seq<int>>, ip: string): seq<int> { if ip in m then m[ip] else [] }

  /** Every address's list answers for its whole history. */
  ghost predicate Tracks(failures: map<string, seq<int>>, recorded: map<string, seq<int>>, max: nat, window: int,
                         clock: int) {
    forall ip {:trigger ListOf(failures, ip)} :: Kept(ListOf(failures, ip), ListOf(recorded, ip), max, window, clock)
  }

  lemma RecordTracks(failures: map<string, seq<int>>, recorded: map<string, seq<int>>, max: nat, window: int,
                     clock: int, ip: string, now: int)
    requires max > 0 && window > 0 && Tracks(failures, recorded, max, window, clock) && clock <= now
    ensures Tracks(failures[ip := Recorded(ListOf(failures, ip), max, window, now)],
                   recorded[ip := ListOf(recorded, ip) + [now]], max, window, now)
  {
    hide Kept;
    hide Recorded;
    var f := failures[ip := Recorded(ListOf(failures, ip), max, window, now)];
    var r := recorded[ip := ListOf(recorded, ip) + [now]];
    forall a
      ensures Kept(ListOf(f, a), ListOf(r, a), max, window, now)
    {
      assert Kept(ListOf(failures, a), ListOf(recorded, a), max, window, clock);
      if a == ip {
        RecordedKeeps(ListOf(failures, ip), ListOf(recorded, ip), max, window, clock, now);
      } else {
        KeptLater(ListOf(failures, a), ListOf(recorded, a), max, window, clock, now);
      }
    }
  }

  /** Forgetting an address whose latest failure is out of the window changes no answer. */
  lemma PruneTracks(failures: map<string, seq<int>>, recorded: map<string, seq<int>>, max: nat, window: int,
                    clock: int, ip: string)
    requires Tracks(failures, recorded, max, window, clock)
    requires ListOf(failures, ip) == [] || clock - ListOf(failures, ip)[|ListOf(failures, ip)| - 1] >= window
    ensures Tracks(failures - {ip}, recorded, max, window, clock)
  {
    forall a
      ensures Kept(ListOf(failures - {ip}, a), ListOf(recorded, a), max, window, clock)
    {
      assert Kept(ListOf(failures, a), ListOf(recorded, a), max, window, clock);
      if a == ip {
        PrunedKeeps(ListOf(failures, ip), ListOf(recorded, ip), max, window, clock, clock);
      }
    }
  }

  class FailedLoginsByAddress {
    const maxFailures: nat
    const windowMs: int
    var failures: map<string, seq<int>>

    /** Every failure ever recorded, and the latest time one was. */
    ghost var recorded: map<string, seq<int>>
    ghost var clock: int

    constructor (maxFailures: nat, windowMs: int)
      requires maxFailures > 0 && windowMs > 0
      ensures Valid() && recorded == map[] && this.maxFailures == maxFailures && this.windowMs == windowMs
    {
      this.maxFailures, this.windowMs := maxFailures, windowMs;
      failures, recorded := map[], map[];
      clock := 0;
    }

    ghost predicate Valid()
      reads this
    {
      maxFailures > 0 && windowMs > 0 && Tracks(failures, recorded, maxFailures, windowMs, clock)
    }

    /** Answered from the bounded list, about the whole history: an address is blocked exactly while at least the limit
        of all its failures ever lie in the window, and the minutes are the fewest after which they no longer do. */
    method BlockedForMin(ip: Option<string>, now: int) returns (minutes: nat)
      requires Valid() && clock <= now
      ensures ip.None? || ip.value == "" ==> minutes == 0
      ensures ip.Some? && ip.value != "" ==>
                && (minutes > 0 <==> InWindow(ListOf(recorded, ip.value), windowMs, now) >= maxFailures)
                && InWindow(ListOf(recorded, ip.value), windowMs, now + minutes * 60_000) < maxFailures
                && (forall m: nat | m < minutes ::
                      InWindow(ListOf(recorded, ip.value), windowMs, now + m * 60_000) >= maxFailures)
    {
      if ip.None? || ip.value == "" {
        return 0;
      }
      AnswersForAll(ListOf(failures, ip.value), ListOf(recorded, ip.value), maxFailures, windowMs, clock, now);
      if ip.value !in failures || |failures[ip.value]| < maxFailures {
        return 0;
      }
      var clearsAt := failures[ip.value][0] + windowMs;
      minutes := if clearsAt > now then (clearsAt - now + MINUTE_MS - 1) / MINUTE_MS else 0;
    }

    method RecordFailure(ip: Option<string>, now: int)
      requires Valid() && clock <= now
      modifies this
      ensures Valid()
      ensures if ip.None? || ip.value == "" then recorded == old(recorded) && clock == old(clock)
              else recorded == old(recorded)[ip.value := ListOf(old(recorded), ip.value) + [now]] && clock == now
      ensures ip.None? || ip.value == "" ==> failures == old(failures)
      ensures ip.Some? && ip.value != "" ==>
                && ip.value in failures && ListOf(failures, ip.value) != []
                && failures[ip.value][|failures[ip.value]| - 1] == now && |failures[ip.value]| <= maxFailures
                && (forall o | o in failures && o != ip.value :: o in old(failures) && failures[o] == old(failures)[o])
                && (|old(failures).Keys + {ip.value}| <= 50_000 ==> old(failures).Keys <= failures.Keys)
                && (|old(failures).Keys + {ip.value}| > 50_000 ==> forall o | o in failures :: !Stale(failures[o], now))
    {
      if ip.None? || ip.value == "" {
        return;
      }
      hide Tracks;
      hide Recorded;
      RecordTracks(failures, recorded, maxFailures, windowMs, clock, ip.value, now);
      RecordedEnds(ListOf(failures, ip.value), maxFailures, windowMs, now);
      assert failures[ip.value := []].Keys == failures.Keys + {ip.value};
      var list := Longer(ListOf(failures, ip.value), now);
      failures := failures[ip.value := list];
      assert |failures| == |failures.Keys|;
      recorded := recorded[ip.value := ListOf(recorded, ip.value) + [now]];
      clock := now;
      if |failures| > MAX_TRACKED {
        Prune(now);
      }
    }

    /** The filter, the push and the shifts. */
    method Longer(known: seq<int>, now: int) returns (list: seq<int>)
      requires maxFailures > 0
      ensures list == Recorded(known, maxFailures, windowMs, now)
    {
      ghost var longer := Recent(known, windowMs, now) + [now];
      list := Recent(known, windowMs, now) + [now];
      while |list| > maxFailures
        invariant |list| <= |longer| && list == longer[|longer| - |list|..]
        invariant |list| >= maxFailures || list == longer
      {
        list := list[1..];
      }
    }

    /** The address has no failure left in the window. */
    ghost predicate Stale(list: seq<int>, now: int) { list == [] || now - list[|list| - 1] >= windowMs }

    /** Exactly the addresses without a failure in the window are forgotten, and that changes no answer: what each one's
        history says stays said. */
    method Prune(now: int)
      requires Valid() && clock == now
      modifies `failures
      ensures Valid()
      ensures forall ip :: ip in failures <==> ip in old(failures) && !Stale(old(failures)[ip], now)
      ensures forall ip | ip in failures :: failures[ip] == old(failures)[ip]
    {
      var left := failures.Keys;
      while left != {}
        invariant Valid() && left <= failures.Keys
        invariant forall ip | ip in failures :: ip in old(failures) && failures[ip] == old(failures)[ip]
        invariant forall ip | ip in failures :: ip in left || !Stale(old(failures)[ip], now)
        invariant forall ip | ip in old(failures) && ip !in failures :: Stale(old(failures)[ip], now)
        decreases |left|
      {
        var ip :| ip in left;
        left := left - {ip};
        var list := failures[ip];
        if list == [] || now - list[|list| - 1] >= windowMs {
          PruneTracks(failures, recorded, maxFailures, windowMs, clock, ip);
          failures := failures - {ip};
        }
      }
    }
  }
}
