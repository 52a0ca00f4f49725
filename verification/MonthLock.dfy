/** Month locks: decisions, and whatever makes an item pending, take a shared advisory lock on their
    organisation-month and check the lock row; locking takes the exclusive lock, counts what is pending,
    snapshots the month and writes the row. Items that are not pending are also written without any lock, and the
    items of a person in no organisation, who has no month to lock, come into a month when the person is assigned.

    Every statement of a transaction is a step; writes become visible and locks are released together
    at the commit. The holders of an advisory lock are exactly the transactions whose stage says so. */
module MonthLock {
  import opened Options

  datatype OrgMonth = OrgMonth(company: string, month: string)

  /** A break, meeting or away item dated in a month. */
  datatype Item = Item(pending: bool, detail: string)
  type ItemId = nat
  type Items = map<ItemId, Item>
  type TxId = nat

  /** What a decision writes to one item: a new value, or its removal. */
  type Writes = map<ItemId, Option<Item>>

  datatype Result = Locked(created: bool) | OpenSessions(count: nat) | PendingApprovals(count: nat) | Opened(was: bool)

  datatype Stage =
    | AwaitsShared(writes: Writes)
    | HoldsShared(writes: Writes)
    | Permitted(writes: Writes)
    | AwaitsLock
    | HoldsLock
    | NotLockedYet
    | NoneOpen
    | NonePending
    | Built(snapshot: Items)
    | AwaitsUnlock
    | HoldsUnlock
    | Refused      // 409 MONTH_LOCKED
    | Decided
    | Finished(result: Result)
    | Aborted
  {
    predicate Shares() { HoldsShared? || Permitted? }
    predicate Excludes() { HoldsLock? || NotLockedYet? || NoneOpen? || NonePending? || Built? || HoldsUnlock? }
    predicate Begins() { AwaitsShared? || AwaitsLock? || AwaitsUnlock? }
    predicate Ended() { Refused? || Decided? || Finished? || Aborted? }

    function Rank(): nat {
      match this
      case AwaitsLock => 6
      case HoldsLock => 5
      case NotLockedYet => 4
      case NoneOpen => 3
      case AwaitsShared(_) => 3
      case NonePending => 2
      case HoldsShared(_) => 2
      case AwaitsUnlock => 2
      case _ => if Ended() then 0 else 1
    }
  }

  datatype Tx = Tx(month: OrgMonth, stage: Stage)

  /** The committed rows of one organisation-month: its items, its lock row with the snapshot, and its open
      work sessions, which start and end without any lock. Two fields are not in the source: `late`, what was
      written without the lock since the latest snapshot was built, and `brought`, the items that assignments
      have written since nothing was last found pending. */
  datatype Month = Month(items: Items, lock: Option<Items>, open: nat, late: seq<Writes>, brought: set<ItemId>)

  datatype State = State(months: map<OrgMonth, Month>, txs: map<TxId, Tx>)

  /** `Unlocked`: a past meeting, a skip or an away event that needs no approval, or the healing of a meeting
      left open, committed without the month's lock. `Assigned`: what comes into the month, or leaves it, with a
      person who is assigned to an organisation, or is written in it afterwards by a transaction that had still
      found the person in none and so took no lock. */
  datatype Event =
    | Go(id: TxId)
    | Abort(victim: TxId)
    | Sessions(month: OrgMonth, count: nat)
    | Unlocked(month: OrgMonth, writes: Writes)
    | Assigned(month: OrgMonth, writes: Writes)

  function At(s: State, m: OrgMonth): Month { if m in s.months then s.months[m] else Month(map[], None, 0, [], {}) }

  predicate Settled(items: Items) { forall i | i in items :: !items[i].pending }

  function PendingCount(items: Items): (n: nat)
    ensures n == 0 <==> Settled(items)
  {
    var pending := set i | i in items && items[i].pending;
    assert forall i | i in items :: items[i].pending <==> i in pending;
    |pending|
  }

  function Apply(items: Items, writes: Writes): Items {
    map i | i in items.Keys + writes.Keys && (i in writes ==> writes[i].Some?) ::
      if i in writes then writes[i].value else items[i]
  }

  /** Writes that make nothing pending: what was pending may stay so, be decided or go. */
  predicate Quiet(items: Items, writes: Writes) {
    forall i | i in writes && writes[i].Some? && writes[i].value.pending :: i in items && items[i].pending
  }

  function ApplyAll(items: Items, writes: seq<Writes>): Items {
    if writes == [] then items else Apply(ApplyAll(items, writes[..|writes| - 1]), writes[|writes| - 1])
  }

  /** One statement of a transaction that is not waiting for a lock. */
  function Act(month: Month, stage: Stage): (Stage, Month) {
    match stage
    case AwaitsShared(w) => (HoldsShared(w), month)
    case HoldsShared(w) => (if month.lock.Some? then Refused else Permitted(w), month)
    case Permitted(w) => (Decided, month.(items := Apply(month.items, w)))
    case AwaitsLock => (HoldsLock, month)
    case HoldsLock => (if month.lock.Some? then Finished(Locked(false)) else NotLockedYet, month)
    case NotLockedYet => (if month.open > 0 then Finished(OpenSessions(month.open)) else NoneOpen, month)
    case NoneOpen =>
      var n := PendingCount(month.items);
      if n > 0 then (Finished(PendingApprovals(n)), month) else (NonePending, month.(brought := {}))
    case NonePending => (Built(month.items), month.(late := []))
    case Built(snapshot) => (Finished(Locked(true)), month.(lock := Some(snapshot)))
    case AwaitsUnlock => (HoldsUnlock, month)
    case HoldsUnlock => (Finished(Opened(month.lock.Some?)), month.(lock := None))
    case _ => (stage, month)
  }

  /** The two stages hold one month's advisory lock in incompatible modes. */
  predicate Clash(x: Stage, y: Stage) { (x.Excludes() && (y.Excludes() || y.Shares())) || (y.Excludes() && x.Shares()) }

  /** A lock request waits while another transaction of the month holds it in an incompatible mode. */
  predicate Blocked(s: State, id: TxId)
    requires id in s.txs
  {
    var tx := s.txs[id];
    tx.stage.Begins() && exists k | k in s.txs ::
      k != id && s.txs[k].month == tx.month && Clash(s.txs[k].stage, Act(At(s, tx.month), tx.stage).0)
  }

  function Written(month: Month, w: Writes): Month {
    month.(items := Apply(month.items, w), late := month.late + [w])
  }

  function Step(s: State, ev: Event): State {
    match ev
    case Go(id) =>
      if id !in s.txs || Blocked(s, id) then s
      else
        var tx := s.txs[id];
        var (stage, month) := Act(At(s, tx.month), tx.stage);
        State(s.months[tx.month := month], s.txs[id := tx.(stage := stage)])
    case Abort(id) =>
      if id in s.txs && !s.txs[id].stage.Ended() then s.(txs := s.txs[id := s.txs[id].(stage := Aborted)]) else s
    case Sessions(m, n) => s.(months := s.months[m := At(s, m).(open := n)])
    case Unlocked(m, w) => if Quiet(At(s, m).items, w) then s.(months := s.months[m := Written(At(s, m), w)]) else s
    case Assigned(m, w) =>
      var month := Written(At(s, m), w);
      s.(months := s.months[m := month.(brought := month.brought + w.Keys)])
  }

  function Run(s: State, events: seq<Event>): State
    decreases events
  {
    if events == [] then s else Run(Step(s, events[0]), events[1..])
  }

  /** Any committed items, no month locked, and transactions that have not begun. */
  predicate Initial(s: State) {
    && (forall m | m in s.months :: s.months[m].lock.None? && s.months[m].brought == {})
    && (forall k | k in s.txs :: s.txs[k].stage.Begins())
  }

  // ---- the invariant ----

  /** What is pending came with an assignment. */
  predicate OnlyBrought(month: Month) { forall i | i in month.items && month.items[i].pending :: i in month.brought }

  /** What a transaction has found out still holds. */
  predicate StillTrue(month: Month, stage: Stage) {
    && (stage.Permitted? || stage.NotLockedYet? || stage.NoneOpen? || stage.NonePending? || stage.Built? ==>
      month.lock.None?)
    && (stage.NonePending? || stage.Built? ==> OnlyBrought(month))
    && (stage.Built? ==> ApplyAll(stage.snapshot, month.late) == month.items)
  }

  predicate Frozen(month: Month) {
    month.lock.Some? ==> ApplyAll(month.lock.value, month.late) == month.items && OnlyBrought(month)
  }

  /** Both live in one month and hold its lock in incompatible modes. */
  predicate Conflict(s: State, a: TxId, b: TxId)
    requires a in s.txs && b in s.txs
  {
    a != b && s.txs[a].month == s.txs[b].month && Clash(s.txs[a].stage, s.txs[b].stage)
  }

  ghost predicate Guarded(s: State) {
    && (forall a, b | a in s.txs && b in s.txs :: !Conflict(s, a, b))
    && (forall k | k in s.txs :: StillTrue(At(s, s.txs[k].month), s.txs[k].stage))
    && (forall m | m in s.months :: Frozen(s.months[m]))
  }

  /** What one statement keeps, needs and may change. */
  lemma ActKeeps(month: Month, stage: Stage)
    requires StillTrue(month, stage) && Frozen(month)
    ensures var (next, after) := Act(month, stage);
            && StillTrue(after, next) && Frozen(after)
            && (after.items != month.items ==> stage.Permitted?)
            && (after.lock != month.lock ==> stage.Built? || stage.HoldsUnlock?)
            && (next.Excludes() ==> stage.Excludes() || stage.AwaitsLock? || stage.AwaitsUnlock?)
            && (next.Shares() ==> stage.Shares() || stage.AwaitsShared?)
  {
  }

  /** What a transaction knows survives what an unconflicting one does. */
  lemma OthersKeep(month: Month, stage: Stage, other: Stage)
    requires StillTrue(month, stage) && Frozen(month) && StillTrue(month, other) && !Clash(stage, other)
    ensures StillTrue(Act(month, stage).1, other)
  {
  }

  lemma NoConflictAfterGo(s: State, id: TxId, a: TxId, b: TxId)
    requires Guarded(s) && id in s.txs && !Blocked(s, id)
    requires a in s.txs && b in s.txs
    ensures !Conflict(Step(s, Go(id)), a, b)
  {
    ActKeeps(At(s, s.txs[id].month), s.txs[id].stage);
    assert !Conflict(s, a, b);
  }

  lemma GuardedGo(s: State, id: TxId)
    requires Guarded(s) && id in s.txs && !Blocked(s, id)
    ensures Guarded(Step(s, Go(id)))
  {
    var t, m, stage := Step(s, Go(id)), s.txs[id].month, s.txs[id].stage;
    ActKeeps(At(s, m), stage);
    forall k | k in t.txs
      ensures StillTrue(At(t, t.txs[k].month), t.txs[k].stage)
    {
      if k != id && s.txs[k].month == m {
        assert !Conflict(s, id, k);
        OthersKeep(At(s, m), stage, s.txs[k].stage);
      }
    }
    forall a, b | a in t.txs && b in t.txs
      ensures !Conflict(t, a, b)
    {
      NoConflictAfterGo(s, id, a, b);
    }
  }

  /** A month after an unlocked write, or after an assignment has written to it. */
  function After(month: Month, ev: Event): Month
    requires ev.Unlocked? || ev.Assigned?
  {
    var written := Written(month, ev.writes);
    if ev.Assigned? then written.(brought := written.brought + ev.writes.Keys) else written
  }

  /** An unlocked write makes nothing pending; an assignment may. */
  predicate Admits(month: Month, ev: Event) { ev.Assigned? || (ev.Unlocked? && Quiet(month.items, ev.writes)) }

  lemma OnlyBroughtAfter(month: Month, ev: Event)
    requires OnlyBrought(month) && Admits(month, ev)
    ensures OnlyBrought(After(month, ev))
  {
  }

  lemma WrittenKeeps(month: Month, ev: Event, stage: Stage)
    requires StillTrue(month, stage) && Frozen(month) && Admits(month, ev)
    ensures StillTrue(After(month, ev), stage) && Frozen(After(month, ev))
  {
    hide Apply;
    hide Quiet;
    hide OnlyBrought;
    assert (month.late + [ev.writes])[..|month.late|] == month.late;
    if OnlyBrought(month) {
      OnlyBroughtAfter(month, ev);
    }
  }

  lemma GuardedWritten(s: State, ev: Event)
    requires Guarded(s) && (ev.Unlocked? || ev.Assigned?) && Admits(At(s, ev.month), ev)
    ensures Guarded(Step(s, ev))
  {
    hide Quiet;
    hide Written;
    hide StillTrue;
    hide Frozen;
    var m, t := ev.month, Step(s, ev);
    assert t == s.(months := s.months[m := After(At(s, m), ev)]);
    AnyFrozen(s, m);
    WrittenKeeps(At(s, m), ev, Refused);
    forall k | k in t.txs
      ensures StillTrue(At(t, t.txs[k].month), t.txs[k].stage)
    {
      if s.txs[k].month == m {
        WrittenKeeps(At(s, m), ev, s.txs[k].stage);
      }
    }
    forall a, b | a in t.txs && b in t.txs
      ensures !Conflict(t, a, b)
    {
      assert !Conflict(s, a, b);
    }
  }

  lemma AnyFrozen(s: State, m: OrgMonth)
    requires Guarded(s)
    ensures Frozen(At(s, m)) && StillTrue(At(s, m), Refused)
  {
  }

  lemma GuardedStep(s: State, ev: Event)
    requires Guarded(s)
    ensures Guarded(Step(s, ev))
  {
    var t := Step(s, ev);
    if ev.Go? {
      if ev.id in s.txs && !Blocked(s, ev.id) {
        GuardedGo(s, ev.id);
      }
    } else if ev.Unlocked? || ev.Assigned? {
      if Admits(At(s, ev.month), ev) {
        GuardedWritten(s, ev);
      }
    } else {
      forall k | k in t.txs
        ensures StillTrue(At(t, t.txs[k].month), t.txs[k].stage)
      {
        assert StillTrue(At(s, s.txs[k].month), s.txs[k].stage);
      }
      forall a, b | a in t.txs && b in t.txs
        ensures !Conflict(t, a, b)
      {
        assert !Conflict(s, a, b);
      }
    }
  }

  lemma {:induction false} GuardedRun(s: State, events: seq<Event>)
    requires Guarded(s)
    ensures Guarded(Run(s, events))
    decreases events
  {
    if events != [] {
      GuardedStep(s, events[0]);
      GuardedRun(Step(s, events[0]), events[1..]);
    }
  }

  /** In every interleaving of decisions, locks, unlocks, unlocked writes and assignments: while a month's lock row is
      committed its items are exactly its snapshot and what was written without the lock since that was built, the
      snapshot itself when nothing was; what is pending in it has come with an assignment since the month was
      counted; and no decision on it is past the check. */
  lemma LockedMonthIsItsSnapshot(s: State, events: seq<Event>, m: OrgMonth)
    requires Initial(s) && At(Run(s, events), m).lock.Some?
    ensures var month := At(Run(s, events), m);
            && month.items == ApplyAll(month.lock.value, month.late)
            && (month.late == [] ==> month.items == month.lock.value)
            && (forall i | i in month.items && month.items[i].pending :: i in month.brought)
    ensures forall k | k in Run(s, events).txs && Run(s, events).txs[k].month == m ::
              !Run(s, events).txs[k].stage.Permitted?
  {
    GuardedRun(s, events);
    AnyFrozen(Run(s, events), m);
    assert forall k | k in Run(s, events).txs ::
        StillTrue(At(Run(s, events), Run(s, events).txs[k].month), Run(s, events).txs[k].stage);
  }

  /** Nobody whose items lie in the month is assigned. */
  predicate NoneAssigned(events: seq<Event>, m: OrgMonth) {
    forall i | 0 <= i < |events| :: events[i].Assigned? ==> events[i].month != m
  }

  lemma {:induction false} NoneBrought(s: State, events: seq<Event>, m: OrgMonth)
    requires At(s, m).brought == {} && NoneAssigned(events, m)
    ensures At(Run(s, events), m).brought == {}
    decreases events
  {
    hide PendingCount;
    hide Apply;
    hide Quiet;
    if events != [] {
      assert !(events[0].Assigned? && events[0].month == m);
      NoneBrought(Step(s, events[0]), events[1..], m);
    }
  }

  /** So in every run without such an assignment nothing in a locked month is pending. */
  lemma NothingPendingInLockedMonth(s: State, events: seq<Event>, m: OrgMonth)
    requires Initial(s) && At(Run(s, events), m).lock.Some? && NoneAssigned(events, m)
    ensures Settled(At(Run(s, events), m).items)
  {
    LockedMonthIsItsSnapshot(s, events, m);
    NoneBrought(s, events, m);
  }

  /** And an assignment does bring pending items into a locked month: whatever the run, the month then has one, is not
      its snapshot, and stays locked. */
  lemma AssignmentReachesLockedMonth(s: State, events: seq<Event>, m: OrgMonth, i: ItemId, detail: string)
    requires Initial(s) && At(Run(s, events), m).lock.Some? && At(Run(s, events), m).late == []
    requires i !in At(Run(s, events), m).items
    ensures var month := At(Step(Run(s, events), Assigned(m, map[i := Some(Item(true, detail))])), m);
            && month.lock == At(Run(s, events), m).lock && month.lock != Some(month.items)
            && i in month.items && month.items[i].pending && !Settled(month.items)
  {
    LockedMonthIsItsSnapshot(s, events, m);
  }

  /** An unlocked write does reach a locked month: in any run, one new item that needs no approval, and the
      month is not its snapshot any longer. */
  lemma UnlockedWriteReachesLockedMonth(s: State, events: seq<Event>, m: OrgMonth, i: ItemId, detail: string)
    requires Initial(s) && At(Run(s, events), m).lock.Some? && At(Run(s, events), m).late == []
    requires i !in At(Run(s, events), m).items
    ensures var month := At(Step(Run(s, events), Unlocked(m, map[i := Some(Item(false, detail))])), m);
            && month.lock == At(Run(s, events), m).lock && i in month.items && month.lock != Some(month.items)
  {
    LockedMonthIsItsSnapshot(s, events, m);
  }

  /** Nor are open sessions kept out once they have been looked for: those that start then are open in the month that
      the transaction locks. */
  lemma SessionOpensInLockedMonth(s: State, id: TxId, m: OrgMonth, count: nat)
    requires id in s.txs && s.txs[id] == Tx(m, NoneOpen) && Settled(At(s, m).items)
    ensures var t := Run(s, [Sessions(m, count), Go(id), Go(id), Go(id)]);
            && id in t.txs && t.txs[id] == Tx(m, Finished(Locked(true)))
            && At(t, m).lock == Some(At(s, m).items) && At(t, m).open == count
  {
    hide Apply;
    hide Quiet;
    var started := Step(s, Sessions(m, count));
    var go := Go(id);
    var checked := Step(started, go);
    var built := Step(checked, go);
    assert [Sessions(m, count), go, go, go][1..] == [go, go, go] && [go, go, go][1..] == [go, go];
    assert [go, go][1..] == [go] && [go][1..] == [];
    assert Run(s, [Sessions(m, count), go, go, go]) == Run(started, [go, go, go]) == Run(checked, [go, go]);
    assert Run(checked, [go, go]) == Run(built, [go]) == Run(Step(built, go), []);
  }

  /** The unlock of the month commits somewhere in the run. */
  predicate Unlocks(s: State, events: seq<Event>, m: OrgMonth)
    decreases events
  {
    events != [] &&
    ((events[0].Go? && events[0].id in s.txs
      && s.txs[events[0].id] == Tx(m, HoldsUnlock)) || Unlocks(Step(s, events[0]), events[1..], m))
  }

  lemma {:induction false} LockRowStays(s: State, events: seq<Event>, m: OrgMonth)
    requires Guarded(s) && At(s, m).lock.Some? && !Unlocks(s, events, m)
    ensures At(Run(s, events), m).lock == At(s, m).lock
    decreases events
  {
    if events != [] {
      var ev := events[0];
      hide Quiet;
      hide Apply;
      if ev.Go? && ev.id in s.txs && s.txs[ev.id].month == m {
        assert s.txs[ev.id] == Tx(m, s.txs[ev.id].stage);
        ActKeeps(At(s, m), s.txs[ev.id].stage);
      }
      GuardedStep(s, ev);
      LockRowStays(Step(s, ev), events[1..], m);
    }
  }

  lemma {:induction false} RunSplits(s: State, before: seq<Event>, after: seq<Event>)
    ensures Run(s, before + after) == Run(Run(s, before), after)
    decreases before
  {
    if before == [] {
      assert before + after == after;
    } else {
      assert (before + after)[0] == before[0] && (before + after)[1..] == before[1..] + after;
      RunSplits(Step(s, before[0]), before[1..], after);
    }
  }

  predicate WritesTo(s: State, ev: Event, m: OrgMonth) {
    (ev.Unlocked? || ev.Assigned?) && ev.month == m && Admits(At(s, m), ev)
  }

  /** The unlocked writes and assignments to the month in a run, in order. */
  function LateWrites(s: State, events: seq<Event>, m: OrgMonth): seq<Writes>
    decreases events
  {
    if events == [] then []
    else
      (if WritesTo(s, events[0], m) then [events[0].writes] else []) + LateWrites(Step(s, events[0]), events[1..], m)
  }

  lemma {:induction false} ApplyFirst(items: Items, w: Writes, rest: seq<Writes>)
    ensures ApplyAll(items, [w] + rest) == ApplyAll(Apply(items, w), rest)
    decreases |rest|
  {
    hide Apply;
    var n := |rest|;
    if n == 0 {
      assert [w] + rest == [w] && [w][..0] == [];
    } else {
      ApplyFirst(items, w, rest[..n - 1]);
      assert ([w] + rest)[..n] == [w] + rest[..n - 1];
    }
  }

  /** One event of a locked month: only an unlocked write or an assignment changes an item. */
  lemma LockedStep(s: State, ev: Event, m: OrgMonth)
    requires Guarded(s) && At(s, m).lock.Some?
    ensures At(Step(s, ev), m).items ==
            if WritesTo(s, ev, m) then Apply(At(s, m).items, ev.writes) else At(s, m).items
  {
    hide Apply;
    hide Quiet;
    if ev.Go? && ev.id in s.txs && s.txs[ev.id].month == m {
      assert StillTrue(At(s, m), s.txs[ev.id].stage);
      AnyFrozen(s, m);
      ActKeeps(At(s, m), s.txs[ev.id].stage);
    }
  }

  lemma {:induction false} LockedItems(s: State, events: seq<Event>, m: OrgMonth)
    requires Guarded(s) && At(s, m).lock.Some? && !Unlocks(s, events, m)
    ensures At(Run(s, events), m).items == ApplyAll(At(s, m).items, LateWrites(s, events, m))
    decreases events
  {
    if events != [] {
      var ev, next := events[0], Step(s, events[0]);
      LockedStep(s, ev, m);
      LockRowStays(s, [ev], m);
      assert [ev][1..] == [];
      GuardedStep(s, ev);
      LockedItems(next, events[1..], m);
      var rest := LateWrites(next, events[1..], m);
      if WritesTo(s, ev, m) {
        ApplyFirst(At(s, m).items, ev.writes, rest);
      } else {
        assert [] + rest == rest;
      }
    }
  }

  /** From its lock to its unlock a month changes by the unlocked writes and assignments to it and by nothing else:
      not one item is added, decided or removed by decisions in flight when it was locked or by later ones, and
      with no such write it does not change at all. */
  lemma LockedMonthNeverChanges(s: State, before: seq<Event>, after: seq<Event>, m: OrgMonth)
    requires Initial(s) && At(Run(s, before), m).lock.Some?
    requires !Unlocks(Run(s, before), after, m)
    ensures var late := LateWrites(Run(s, before), after, m);
            && At(Run(s, before + after), m).items == ApplyAll(At(Run(s, before), m).items, late)
            && (late == [] ==> At(Run(s, before + after), m).items == At(Run(s, before), m).items)
  {
    RunSplits(s, before, after);
    GuardedRun(s, before);
    LockedItems(Run(s, before), after, m);
  }

  /** In every run, while one transaction is between taking a month to lock or unlock it and its commit, no other is
      between taking it, to decide, lock or unlock, and its own. */
  lemma NobodyBesideALocker(s: State, events: seq<Event>, a: TxId, b: TxId)
    requires Initial(s) && a in Run(s, events).txs && b in Run(s, events).txs && a != b
    requires Run(s, events).txs[a].month == Run(s, events).txs[b].month
    ensures var x, y := Run(s, events).txs[a].stage, Run(s, events).txs[b].stage;
            x.HoldsLock? || x.NotLockedYet? || x.NoneOpen? || x.NonePending? || x.Built? || x.HoldsUnlock? ==>
              y.Begins() || y.Ended()
  {
    GuardedRun(s, events);
    assert !Conflict(Run(s, events), a, b);
  }

  /** A transaction waits for its lock only while another of the same month holds it: a decision for one that locks or
      unlocks the month, locking and unlocking for any; and nothing else ever waits. */
  lemma WaitsOnlyForItsMonth(s: State, id: TxId)
    requires id in s.txs
    ensures var tx := s.txs[id];
            Blocked(s, id) <==>
            && tx.stage.Begins()
            && exists k | k in s.txs && k != id && s.txs[k].month == tx.month ::
                 var y := s.txs[k].stage;
                 || y.HoldsLock? || y.NotLockedYet? || y.NoneOpen? || y.NonePending? || y.Built? || y.HoldsUnlock?
                 || (!tx.stage.AwaitsShared? && (y.HoldsShared? || y.Permitted?))
  {
  }

  /** What has ended stays as it ended, and a transaction that is given up writes nothing. */
  lemma EndedStays(s: State, ev: Event, id: TxId)
    requires id in s.txs
    ensures s.txs[id].stage.Ended() ==> id in Step(s, ev).txs && Step(s, ev).txs[id] == s.txs[id]
    ensures Step(s, Abort(id)).months == s.months
    ensures !s.txs[id].stage.Ended() ==> Step(s, Abort(id)).txs == s.txs[id := Tx(s.txs[id].month, Aborted)]
  {
  }

  // ---- lockMonth and unlockMonth, as whole transactions ----

  /** The transaction's own statements to its end, when no other holds the lock. */
  function Alone(month: Month, stage: Stage): (Stage, Month)
    decreases stage.Rank()
  {
    if stage.Ended() then (stage, month) else
      var (next, after) := Act(month, stage);
      Alone(after, next)
  }

  lemma AloneFrom(month: Month, stage: Stage)
    requires !stage.Ended()
    ensures Alone(month, stage) == Alone(Act(month, stage).1, Act(month, stage).0)
  {
  }

  /** A decision, whole: refused with nothing written when the month is locked, and otherwise every item it names is
      written or removed as it says, and no other. */
  lemma DecisionAnswers(month: Month, writes: Writes)
    ensures var (result, after) := Alone(month, AwaitsShared(writes));
            && result == (if month.lock.Some? then Refused else Decided)
            && after == month.(items := after.items)
            && (month.lock.Some? ==> after.items == month.items)
            && (month.lock.None? ==> forall i ::
                  && (i in after.items <==> if i in writes then writes[i].Some? else i in month.items)
                  && (i in after.items ==> after.items[i] == if i in writes then writes[i].value else month.items[i]))
  {
    AloneFrom(month, AwaitsShared(writes));
    AloneFrom(month, HoldsShared(writes));
    if month.lock.None? {
      AloneFrom(month, Permitted(writes));
    }
  }

  /** Without the lock, likewise, whether the month is locked or not: an assignment writes whatever it brings, and an
      unlocked write is made unless it would make an item pending. */
  lemma LateWriteIs(s: State, m: OrgMonth, writes: Writes, i: ItemId)
    ensures var was, brought := At(s, m).items, At(Step(s, Assigned(m, writes)), m).items;
            && (i in brought <==> if i in writes then writes[i].Some? else i in was)
            && (i in brought ==> brought[i] == if i in writes then writes[i].value else was[i])
    ensures Step(s, Unlocked(m, writes)).txs == s.txs
    ensures At(Step(s, Unlocked(m, writes)), m).items ==
            if exists k | k in writes && writes[k].Some? ::
              writes[k].value.pending && (k in At(s, m).items ==> !At(s, m).items[k].pending)
            then At(s, m).items else At(Step(s, Assigned(m, writes)), m).items
  {
  }

  class ReportStore {
    var months: map<OrgMonth, Month>

    constructor ()
      ensures months == map[] && forall m :: MonthRow(m) == Month(map[], None, 0, [], {})
    {
      months := map[];
    }

    function MonthRow(m: OrgMonth): Month
      reads this
    {
      if m in months then months[m] else Month(map[], None, 0, [], {})
    }

    /** `lockMonth` is its six statements: a locked month stays as it is, one with open sessions or pending
        items is refused with their count, and otherwise the row written holds the month as it stands. */
    method LockMonth(m: OrgMonth) returns (result: Result)
      modifies this
      ensures (Finished(result), MonthRow(m)) == Alone(old(MonthRow(m)), AwaitsLock)
      ensures forall k | k != m :: MonthRow(k) == old(MonthRow(k))
      ensures var was := old(MonthRow(m));
              var pending := set i | i in was.items && was.items[i].pending;
              && result == (if was.lock.Some? then Locked(false)
                            else if was.open > 0 then OpenSessions(was.open)
                            else if pending != {} then PendingApprovals(|pending|)
                            else Locked(true))
              && (result != Locked(true) ==> MonthRow(m) == was)
              && MonthRow(m).items == was.items && MonthRow(m).open == was.open
              && (result == Locked(true) ==> MonthRow(m).lock == Some(was.items))
    {
      var month := MonthRow(m);
      AloneFrom(month, AwaitsLock);
      AloneFrom(month, HoldsLock);
      AloneFrom(month, NotLockedYet);
      AloneFrom(month, NoneOpen);
      AloneFrom(month.(brought := {}), NonePending);
      AloneFrom(month.(brought := {}, late := []), Built(month.items));
      if month.lock.Some? {
        return Locked(false);
      }
      if month.open > 0 {
        return OpenSessions(month.open);
      }
      var pending := CountPending(month.items);
      if pending > 0 {
        return PendingApprovals(pending);
      }
      months := months[m := month.(lock := Some(month.items), late := [], brought := {})];
      result := Locked(true);
    }

    /** The counts of the source's query, over the month's items. */
    method CountPending(items: Items) returns (pending: nat)
      ensures pending == PendingCount(items) == |set i | i in items && items[i].pending|
    {
      pending := 0;
      ghost var counted: set<ItemId> := {};
      var left := items.Keys;
      while left != {}
        invariant left <= items.Keys
        invariant counted == set i | i in items && i !in left && items[i].pending
        invariant pending == |counted|
        decreases |left|
      {
        var i :| i in left;
        left := left - {i};
        if items[i].pending {
          counted := counted + {i};
          pending := pending + 1;
        }
      }
      assert counted == set i | i in items && items[i].pending;
    }

    method UnlockMonth(m: OrgMonth) returns (was: bool)
      modifies this
      ensures (Finished(Opened(was)), MonthRow(m)) == Alone(old(MonthRow(m)), AwaitsUnlock)
      ensures forall k | k != m :: MonthRow(k) == old(MonthRow(k))
      ensures was == old(MonthRow(m)).lock.Some? && MonthRow(m).lock.None?
      ensures MonthRow(m).items == old(MonthRow(m)).items && MonthRow(m).open == old(MonthRow(m)).open
    {
      AloneFrom(MonthRow(m), AwaitsUnlock);
      AloneFrom(MonthRow(m), HoldsUnlock);
      was := MonthRow(m).lock.Some?;
      if was {
        months := months[m := months[m].(lock := None)];
      }
    }
  }
}
