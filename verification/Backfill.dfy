/** Reclassifying the lead-in of idle stretches: the agent flags idleness only after a threshold without
    input, so up to that much active time right before an idle stretch is moved to idle. */
module Backfill {
  import opened Options

  const IDLE_THRESHOLD_SEC := 300

  /** One sample's contribution to a day. */
  datatype Slice = Slice(hour: nat, activeSec: int, idleSec: int, flaggedIdle: bool, locked: bool, inMeeting: bool,
                         app: Option<string>)
  {
    /** Time the walk back may reclassify; anything else ends the walk. */
    predicate Eligible() { !flaggedIdle && !inMeeting && activeSec > 0 }

    function Reclassified(sec: int): Slice { this.(activeSec := activeSec - sec, idleSec := idleSec + sec) }
  }

  function Min(a: int, b: int): int { if a <= b then a else b }

  /** What the idle stretch after slice `j` may still take when its walk reaches `j`. */
  function Budget(s: seq<Slice>, j: nat): nat
    requires j < |s|
    decreases |s| - j
  {
    if j + 1 == |s| then 0
    else
      var next := s[j + 1];
      if next.flaggedIdle then (if next.locked then 0 else IDLE_THRESHOLD_SEC)
      else if next.Eligible() && Budget(s, j + 1) > next.activeSec then Budget(s, j + 1) - next.activeSec
      else 0
  }

  function Moved(s: seq<Slice>, j: nat): (sec: int)
    requires j < |s|
    ensures 0 <= sec <= IDLE_THRESHOLD_SEC
    ensures sec > 0 ==> sec <= s[j].activeSec
  {
    BudgetBounded(s, j);
    if s[j].Eligible() then Min(s[j].activeSec, Budget(s, j)) else 0
  }

  lemma {:induction false} BudgetBounded(s: seq<Slice>, j: nat)
    requires j < |s|
    ensures Budget(s, j) <= IDLE_THRESHOLD_SEC
    decreases |s| - j
  {
    if j + 1 < |s| {
      BudgetBounded(s, j + 1);
    }
  }

  /** The whole day after backfilling. */
  function Backfilled(s: seq<Slice>): (r: seq<Slice>)
    ensures |r| == |s| && forall j {:trigger r[j]} | 0 <= j < |s| :: r[j] == s[j].Reclassified(Moved(s, j))
  {
    seq(|s|, j requires 0 <= j < |s| => s[j].Reclassified(Moved(s, j)))
  }

  function ActiveSum(s: seq<Slice>, lo: nat, hi: nat): int
    requires lo <= hi <= |s|
    decreases hi - lo
  {
    if lo == hi then 0 else ActiveSum(s, lo, hi - 1) + s[hi - 1].activeSec
  }

  function MovedSum(s: seq<Slice>, lo: nat, hi: nat): int
    requires lo <= hi <= |s|
    decreases hi - lo
  {
    if lo == hi then 0 else MovedSum(s, lo, hi - 1) + Moved(s, hi - 1)
  }

  predicate AllEligible(s: seq<Slice>, lo: nat, hi: nat)
    requires hi <= |s|
  {
    forall j | lo <= j < hi :: s[j].Eligible()
  }

  /** An idle stretch begins at `i`, and nobody had locked the machine. */
  predicate StretchStart(s: seq<Slice>, i: nat) {
    i < |s| && s[i].flaggedIdle && !s[i].locked && (i > 0 ==> !s[i - 1].flaggedIdle)
  }

  lemma ActiveSumFirst(s: seq<Slice>, lo: nat, hi: nat)
    requires lo < hi <= |s|
    ensures ActiveSum(s, lo, hi) == s[lo].activeSec + ActiveSum(s, lo + 1, hi)
    decreases hi - lo
  {
    if lo + 1 < hi {
      ActiveSumFirst(s, lo, hi - 1);
    }
  }

  lemma {:induction false} BudgetIsWhatIsLeft(s: seq<Slice>, j: nat, i: nat)
    requires j < i && StretchStart(s, i) && AllEligible(s, j + 1, i)
    ensures Budget(s, j) == if ActiveSum(s, j + 1, i) >= IDLE_THRESHOLD_SEC then 0
              else IDLE_THRESHOLD_SEC - ActiveSum(s, j + 1, i)
    decreases i - j
  {
    if j + 1 < i {
      assert s[j + 1].Eligible();
      BudgetIsWhatIsLeft(s, j + 1, i);
      ActiveSumFirst(s, j + 1, i);
    }
  }

  /** Flagged idle at `i` with the machine not locked, and up to it, from `lo`, active time that was not flagged and
      not in a meeting. */
  predicate WorkBefore(s: seq<Slice>, lo: nat, i: nat) {
    && lo <= i < |s| && s[i].flaggedIdle && !s[i].locked
    && forall k | lo <= k < i :: !s[k].flaggedIdle && !s[k].inMeeting && s[k].activeSec > 0
  }

  lemma WorkIsEligible(s: seq<Slice>, lo: nat, i: nat)
    requires lo < i
    ensures WorkBefore(s, lo, i) <==> StretchStart(s, i) && AllEligible(s, lo, i)
  {
    if WorkBefore(s, lo, i) {
      assert !s[i - 1].flaggedIdle;
    }
  }

  /** Latest first: a slice gives up what the threshold leaves after everything between it and the
      stretch, never more than it has. */
  lemma LatestFirst(s: seq<Slice>, j: nat, i: nat)
    requires j < i && WorkBefore(s, j, i)
    ensures Backfilled(s)[j].activeSec == s[j].activeSec - Moved(s, j)
    ensures Moved(s, j) == if ActiveSum(s, j + 1, i) >= IDLE_THRESHOLD_SEC then 0
                           else Min(s[j].activeSec, IDLE_THRESHOLD_SEC - ActiveSum(s, j + 1, i))
  {
    WorkIsEligible(s, j, i);
    BudgetIsWhatIsLeft(s, j, i);
  }

  /** What backfilling leaves of a stretch of slices. */
  lemma {:induction false} LeftIs(s: seq<Slice>, lo: nat, hi: nat)
    requires lo <= hi <= |s|
    ensures ActiveSum(Backfilled(s), lo, hi) == ActiveSum(s, lo, hi) - MovedSum(s, lo, hi)
    decreases hi - lo
  {
    if lo < hi {
      LeftIs(s, lo, hi - 1);
      assert Backfilled(s)[hi - 1] == s[hi - 1].Reclassified(Moved(s, hi - 1));
    }
  }

  /** Each idle stretch takes exactly 300 s, or all the active time of the work before it when that is less; and
      nothing else of that work is touched. */
  lemma StretchTakesTheThreshold(s: seq<Slice>, r: nat, i: nat)
    requires WorkBefore(s, r, i)
    ensures MovedSum(s, r, i) == Min(300, ActiveSum(s, r, i))
    ensures ActiveSum(Backfilled(s), r, i) == ActiveSum(s, r, i) - Min(300, ActiveSum(s, r, i))
  {
    StretchTakes(s, r, i);
    LeftIs(s, r, i);
  }

  lemma {:induction false} StretchTakes(s: seq<Slice>, r: nat, i: nat)
    requires WorkBefore(s, r, i)
    ensures MovedSum(s, r, i) == Min(IDLE_THRESHOLD_SEC, ActiveSum(s, r, i))
    decreases i - r
  {
    if r < i {
      StretchTakes(s, r + 1, i);
      LatestFirst(s, r, i);
      ActiveSumFirst(s, r, i);
      MovedSumFirst(s, r, i);
    }
  }

  lemma MovedSumFirst(s: seq<Slice>, lo: nat, hi: nat)
    requires lo < hi <= |s|
    ensures MovedSum(s, lo, hi) == Moved(s, lo) + MovedSum(s, lo + 1, hi)
    decreases hi - lo
  {
    if lo + 1 < hi {
      MovedSumFirst(s, lo, hi - 1);
    }
  }

  /** The first slice after `j` that ends the run `j` is in. */
  function RunEnd(s: seq<Slice>, j: nat): (i: nat)
    requires j < |s|
    ensures j < i <= |s| && AllEligible(s, j + 1, i) && (i < |s| ==> !s[i].Eligible())
    decreases |s| - j
  {
    if j + 1 == |s| || !s[j + 1].Eligible() then j + 1 else RunEnd(s, j + 1)
  }

  /** Time of a meeting, time flagged idle and slices without active time are never touched. What is touched has an
      unlocked idle stretch after it with nothing in between but work outside meetings, and no other such stretch;
      and it only moves from active to idle. */
  lemma OnlyWorkBeforeIsTouched(s: seq<Slice>, j: nat)
    requires j < |s|
    ensures s[j].inMeeting || s[j].flaggedIdle || s[j].activeSec <= 0 ==> Backfilled(s)[j] == s[j]
    ensures Backfilled(s)[j] != s[j] ==>
              && WorkBefore(s, j, RunEnd(s, j))
              && forall i | j < i && WorkBefore(s, j, i) :: i == RunEnd(s, j)
    ensures var x, y := s[j], Backfilled(s)[j];
            && y == Slice(x.hour, y.activeSec, y.idleSec, x.flaggedIdle, x.locked, x.inMeeting, x.app)
            && y.activeSec + y.idleSec == x.activeSec + x.idleSec
            && (if x.activeSec > 0 then 0 <= y.activeSec <= x.activeSec else y.activeSec == x.activeSec)
  {
    assert Backfilled(s)[j] == s[j].Reclassified(Moved(s, j));
    if Moved(s, j) > 0 {
      ClaimedByOneStretch(s, j);
      WorkIsEligible(s, j, RunEnd(s, j));
      forall i | j < i && WorkBefore(s, j, i)
        ensures i == RunEnd(s, j)
      {
        WorkIsEligible(s, j, i);
      }
    }
  }

  lemma {:induction false} ClaimedByOneStretch(s: seq<Slice>, j: nat)
    requires j < |s| && Moved(s, j) > 0
    ensures StretchStart(s, RunEnd(s, j)) && AllEligible(s, j, RunEnd(s, j))
    ensures forall i | StretchStart(s, i) && j < i && AllEligible(s, j, i) :: i == RunEnd(s, j)
    decreases |s| - j
  {
    if j + 1 < |s| && s[j + 1].Eligible() {
      ClaimedByOneStretch(s, j + 1);
    }
  }

  // ---- the loop, in place ----

  /** The start of the eligible run that ends before `i`. */
  function RunStart(s: seq<Slice>, i: nat): (p: nat)
    requires i <= |s|
    ensures p <= i && AllEligible(s, p, i) && (p > 0 ==> !s[p - 1].Eligible())
  {
    if i == 0 || !s[i - 1].Eligible() then i else RunStart(s, i - 1)
  }

  lemma {:induction false} NothingOwed(s: seq<Slice>, j: nat, i: nat)
    requires j < i <= |s| && AllEligible(s, j + 1, i)
    requires i < |s| ==> !s[i].Eligible() && !(s[i].flaggedIdle && !s[i].locked)
    ensures Budget(s, j) == 0
    decreases i - j
  {
    if j + 1 < i {
      NothingOwed(s, j + 1, i);
    }
  }

  /** The budgets along an eligible run before an unlocked stretch, as a chain. */
  predicate Chain(s: seq<Slice>, left: seq<nat>, p: nat, i: nat) {
    && p <= i < |s| == |left|
    && AllEligible(s, p, i)
    && (p < i ==> left[i - 1] == IDLE_THRESHOLD_SEC)
    && (forall j | p <= j < i - 1 ::
          left[j] == if left[j + 1] > s[j + 1].activeSec then left[j + 1] - s[j + 1].activeSec else 0)
  }

  lemma {:induction false} NothingLeft(s: seq<Slice>, left: seq<nat>, p: nat, i: nat, k: nat, j: nat)
    requires Chain(s, left, p, i) && p <= k <= j < i && left[j] == 0
    ensures left[k] == 0
    decreases j - k
  {
    if k < j {
      assert s[k + 1].Eligible();
      NothingLeft(s, left, p, i, k + 1, j);
    }
  }

  /** The run before `i` is as it was, and the slice before it ends a walk. */
  ghost predicate RunUntouched(now: seq<Slice>, s: seq<Slice>, p: nat, i: nat) {
    p <= i <= |s| == |now| && (forall j | p <= j < i :: now[j] == s[j]) && (p > 0 ==> !now[p - 1].Eligible())
  }

  ghost predicate Walked(before: seq<Slice>, after: seq<Slice>, s: seq<Slice>, left: seq<nat>, p: nat, i: nat) {
    && p <= i <= |s| == |left| == |before| == |after|
    && (forall j | p <= j < i :: after[j] == s[j].Reclassified(Min(s[j].activeSec, left[j])))
    && (forall j | 0 <= j < |s| && !(p <= j < i) :: after[j] == before[j])
  }

  /** The walk back from the start of one idle stretch at `i`, over the run that starts at `p`. */
  method ReclaimLeadIn(a: array<Slice>, i: nat, ghost s: seq<Slice>, ghost p: nat, ghost left: seq<nat>)
    requires a.Length == |s| && Chain(s, left, p, i) && RunUntouched(a[..], s, p, i)
    modifies a
    ensures Walked(old(a[..]), a[..], s, left, p, i)
  {
    var budget := IDLE_THRESHOLD_SEC;
    var j: int := i - 1;
    while j >= 0 && budget > 0
      invariant p - 1 <= j < i
      invariant forall k | j < k < i :: a[k] == s[k].Reclassified(Min(s[k].activeSec, left[k]))
      invariant forall k | 0 <= k < a.Length && !(j < k < i) :: a[k] == old(a[k])
      invariant j >= p ==> budget == left[j]
    {
      var prev := a[j];
      if prev.flaggedIdle || prev.inMeeting || prev.activeSec <= 0 {
        break;
      }
      var moved := Min(prev.activeSec, budget);
      a[j] := prev.Reclassified(moved);
      budget := budget - moved;
      j := j - 1;
    }
    forall k | p <= k <= j
      ensures left[k] == 0
    {
      NothingLeft(s, left, p, i, k, j);
    }
  }

  function Budgets(s: seq<Slice>): (left: seq<nat>)
    ensures |left| == |s| && forall j | 0 <= j < |s| :: left[j] == Budget(s, j)
  {
    seq(|s|, j requires 0 <= j < |s| => Budget(s, j))
  }

  lemma BudgetsChain(s: seq<Slice>, i: nat)
    requires StretchStart(s, i)
    ensures Chain(s, Budgets(s), RunStart(s, i), i)
  {
  }

  /** Slices before `p` are done, the others as they were. */
  ghost predicate DoneUpTo(now: seq<Slice>, s: seq<Slice>, b: seq<Slice>, p: nat) {
    |now| == |s| == |b| && forall j {:trigger now[j]} | 0 <= j < |s| :: now[j] == if j < p then b[j] else s[j]
  }

  /** A slice that starts no unlocked idle stretch takes nothing from the run before it. */
  lemma RunKept(s: seq<Slice>, i: nat)
    requires i < |s| && !StretchStart(s, i) && !s[i].Eligible()
    ensures forall j | RunStart(s, i) <= j <= i :: Backfilled(s)[j] == s[j]
  {
    forall j | RunStart(s, i) <= j <= i
      ensures Backfilled(s)[j] == s[j]
    {
      if j == i {
        Kept(s, i);
      } else {
        KeptInRun(s, j, i);
      }
    }
  }

  lemma Extend(now: seq<Slice>, s: seq<Slice>, b: seq<Slice>, i: nat)
    requires i < |s| == |b| && DoneUpTo(now, s, b, RunStart(s, i))
    requires !s[i].Eligible() ==> forall j | RunStart(s, i) <= j <= i :: b[j] == s[j]
    ensures DoneUpTo(now, s, b, RunStart(s, i + 1))
  {
  }

  lemma SkipUnless(now: seq<Slice>, s: seq<Slice>, i: nat)
    requires i < |s| && !StretchStart(s, i) && DoneUpTo(now, s, Backfilled(s), RunStart(s, i))
    ensures DoneUpTo(now, s, Backfilled(s), RunStart(s, i + 1))
  {
    if !s[i].Eligible() {
      RunKept(s, i);
    }
    Extend(now, s, Backfilled(s), i);
  }

  method BackfillIdleGrace(a: array<Slice>)
    modifies a
    ensures a[..] == Backfilled(old(a[..]))
  {
    ghost var s := a[..];
    for i := 0 to a.Length
      invariant DoneUpTo(a[..], s, Backfilled(s), RunStart(s, i))
    {
      assert a[i] == s[i] && (i > 0 ==> a[i - 1].flaggedIdle == s[i - 1].flaggedIdle);
      if !a[i].flaggedIdle {
        SkipUnless(a[..], s, i);
        continue;
      }
      if i > 0 && a[i - 1].flaggedIdle {
        SkipUnless(a[..], s, i);
        continue;
      }
      if a[i].locked {
        SkipUnless(a[..], s, i);
        continue;
      }
      BudgetsChain(s, i);
      WalkEnds(a[..], s, i);
      ghost var before := a[..];
      ReclaimLeadIn(a, i, s, RunStart(s, i), Budgets(s));
      StretchDone(before, a[..], s, i);
    }
    LastRunKeeps(a[..], s, Backfilled(s));
  }

  lemma Kept(s: seq<Slice>, j: nat)
    requires j < |s| && !s[j].Eligible()
    ensures Backfilled(s)[j] == s[j]
  {
  }

  lemma Given(s: seq<Slice>, j: nat)
    requires j < |s| && s[j].Eligible()
    ensures Backfilled(s)[j] == s[j].Reclassified(Min(s[j].activeSec, Budget(s, j)))
  {
  }

  lemma KeptInRun(s: seq<Slice>, j: nat, i: nat)
    requires j < i <= |s| && s[j].Eligible() && AllEligible(s, j + 1, i)
    requires i < |s| ==> !s[i].Eligible() && !(s[i].flaggedIdle && !s[i].locked)
    ensures Backfilled(s)[j] == s[j]
  {
    NothingOwed(s, j, i);
    Given(s, j);
  }

  /** The walk cannot leave the run: the slice before it stops it. */
  lemma WalkEnds(now: seq<Slice>, s: seq<Slice>, i: nat)
    requires i < |s| && DoneUpTo(now, s, Backfilled(s), RunStart(s, i))
    ensures RunUntouched(now, s, RunStart(s, i), i)
  {
    var p := RunStart(s, i);
    if p > 0 {
      Kept(s, p - 1);
    }
  }

  lemma StretchGiven(s: seq<Slice>, i: nat)
    requires StretchStart(s, i)
    ensures Backfilled(s)[i] == s[i]
    ensures forall j {:trigger Backfilled(s)[j]} | RunStart(s, i) <= j < i ::
              Backfilled(s)[j] == s[j].Reclassified(Min(s[j].activeSec, Budgets(s)[j]))
  {
    Kept(s, i);
    forall j | RunStart(s, i) <= j < i
      ensures Backfilled(s)[j] == s[j].Reclassified(Min(s[j].activeSec, Budgets(s)[j]))
    {
      Given(s, j);
    }
  }

  lemma ExtendWalked(before: seq<Slice>, after: seq<Slice>, s: seq<Slice>, b: seq<Slice>, left: seq<nat>, p: nat,
                     i: nat)
    requires i < |s| == |b| && DoneUpTo(before, s, b, p) && Walked(before, after, s, left, p, i)
    requires b[i] == s[i] && forall j {:trigger b[j]} | p <= j < i ::
               b[j] == s[j].Reclassified(Min(s[j].activeSec, left[j]))
    ensures DoneUpTo(after, s, b, i + 1)
  {
    forall j | 0 <= j < |s|
      ensures after[j] == if j < i + 1 then b[j] else s[j]
    {
      assert before[j] == if j < p then b[j] else s[j];
    }
  }

  lemma StretchDone(before: seq<Slice>, after: seq<Slice>, s: seq<Slice>, i: nat)
    requires StretchStart(s, i) && DoneUpTo(before, s, Backfilled(s), RunStart(s, i))
    requires Walked(before, after, s, Budgets(s), RunStart(s, i), i)
    ensures DoneUpTo(after, s, Backfilled(s), RunStart(s, i + 1))
  {
    StretchGiven(s, i);
    ExtendWalked(before, after, s, Backfilled(s), Budgets(s), RunStart(s, i), i);
  }

  lemma LastRunKept(s: seq<Slice>, j: nat)
    requires RunStart(s, |s|) <= j < |s|
    ensures Backfilled(s)[j] == s[j]
  {
    KeptInRun(s, j, |s|);
  }

  lemma LastRunKeeps(now: seq<Slice>, s: seq<Slice>, b: seq<Slice>)
    requires b == Backfilled(s) && DoneUpTo(now, s, b, RunStart(s, |s|))
    ensures now == b
  {
    forall j | 0 <= j < |s|
      ensures now[j] == b[j]
    {
      if j >= RunStart(s, |s|) {
        LastRunKept(s, j);
      }
    }
  }
}
