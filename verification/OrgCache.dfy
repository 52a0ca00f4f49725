/** Which organisations exist, read through a short cache whose fills race with announced changes.

    The table's committed versions are kept as a history, with the instant of each commit, and for each organisation
    the version its last announced change was part of. None of it is in the source: it says which state an answer
    comes from. The source's own state is the cache and the generation. */
module OrgCache {
  import opened Options

  type Id = string
  type CallId = nat

  const ORG_TTL_MS := 30_000
  const MAX_CACHED := 1000

  datatype Entry = Entry(ok: bool, at: int)

  /** `sources[id]` is the version the cached answer for `id` was read from. */
  datatype Cache = Cache(orgs: map<Id, Entry>, sources: map<Id, nat>, generation: nat)

  /** The live organisations after each commit; the last version is the current one. */
  type History = h: seq<set<Id>> | h != [] witness [{}]

  /** `since`: the announced version of the organisation when the call began. */
  datatype Stage =
    | Waiting
    | Reading(now: int, generation: nat, since: nat)
    | Filling(now: int, generation: nat, since: nat, found: bool, version: nat)
    | Answered(now: int, ok: bool, version: nat, since: nat)

  datatype Call = Call(org: Id, stage: Stage)
  datatype State = State(clock: int, history: History, committed: seq<int>, announced: map<Id, nat>, cache: Cache,
                         calls: map<CallId, Call>)

  datatype Event = Go(id: CallId) | Commit(live: set<Id>) | Announce(org: Id) | Tick(ms: nat)

  function Announced(s: State, org: Id): nat { if org in s.announced then s.announced[org] else 0 }

  predicate Hit(c: Cache, org: Id, now: int) { org in c.orgs && org in c.sources && now - c.orgs[org].at < ORG_TTL_MS }

  /** A read is kept only when nothing was announced since its call began. */
  function Fill(c: Cache, org: Id, stage: Stage): Cache
    requires stage.Filling?
  {
    var room := if |c.orgs| > MAX_CACHED then c.(orgs := map[], sources := map[]) else c;
    if stage.generation != c.generation then room
    else room.(orgs := room.orgs[org := Entry(stage.found, stage.now)], sources := room.sources[org := stage.version])
  }

  function Forget(c: Cache, org: Id): Cache { Cache(c.orgs - {org}, c.sources - {org}, c.generation + 1) }

  /** One `orgExists` call runs to its next await. */
  function Act(s: State, org: Id, stage: Stage): (Stage, Cache) {
    var c := s.cache;
    match stage
    case Waiting =>
      if Hit(c, org, s.clock) then (Answered(s.clock, c.orgs[org].ok, c.sources[org], Announced(s, org)), c)
      else (Reading(s.clock, c.generation, Announced(s, org)), c)
    case Reading(now, generation, since) =>
      var version := |s.history| - 1;
      (Filling(now, generation, since, org in s.history[version], version), c)
    case Filling(now, _, since, found, version) => (Answered(now, found, version, since), Fill(c, org, stage))
    case Answered(_, _, _, _) => (stage, c)
  }

  function Step(s: State, ev: Event): State {
    match ev
    case Go(id) =>
      if id !in s.calls then s
      else
        var (stage, cache) := Act(s, s.calls[id].org, s.calls[id].stage);
        s.(cache := cache, calls := s.calls[id := s.calls[id].(stage := stage)])
    case Commit(live) => s.(history := s.history + [live], committed := s.committed + [s.clock])
    case Announce(org) => s.(cache := Forget(s.cache, org), announced := s.announced[org := |s.history| - 1])
    case Tick(ms) => s.(clock := s.clock + ms)
  }

  function Run(s: State, events: seq<Event>): State
    decreases events
  {
    if events == [] then s else Run(Step(s, events[0]), events[1..])
  }

  predicate Initial(s: State) {
    && s.cache.orgs == map[] && s.announced == map[] && |s.committed| == |s.history|
    && forall id | id in s.calls :: s.calls[id].stage.Waiting?
  }

  // ---- no answer is older than what was announced ----

  /** What a call holds was read from that version, and it may be kept only if no announcement of its
      organisation is newer. */
  predicate Traced(s: State, org: Id, stage: Stage) {
    match stage
    case Waiting => true
    case Reading(_, generation, since) => generation <= s.cache.generation && since < |s.history|
    case Filling(_, generation, since, found, version) =>
      && generation <= s.cache.generation && since <= version < |s.history| && found == (org in s.history[version])
      && (generation == s.cache.generation ==> Announced(s, org) <= version)
    case Answered(_, ok, version, since) => since <= version < |s.history| && ok == (org in s.history[version])
  }

  /** The cached answer was read from a version no older than the last announced change. */
  predicate Current(s: State, org: Id)
    requires org in s.cache.orgs
  {
    && org in s.cache.sources && Announced(s, org) <= s.cache.sources[org] < |s.history|
    && s.cache.orgs[org].ok == (org in s.history[s.cache.sources[org]])
  }

  ghost predicate Fresh(s: State) {
    && (forall org | org in s.announced :: s.announced[org] < |s.history|)
    && (forall org | org in s.cache.orgs :: Current(s, org))
    && (forall id | id in s.calls :: Traced(s, s.calls[id].org, s.calls[id].stage))
  }

  /** Whatever happens, what another call holds stays traced. */
  lemma TracedStays(s: State, ev: Event, org: Id, stage: Stage)
    requires Fresh(s) && Traced(s, org, stage)
    ensures Traced(Step(s, ev), org, stage)
  {
    match ev
    case Go(id) => assert Announced(Step(s, ev), org) == Announced(s, org);
    case _ =>
  }

  lemma ActTraced(s: State, id: CallId)
    requires Fresh(s) && id in s.calls
    ensures Traced(s, s.calls[id].org, Act(s, s.calls[id].org, s.calls[id].stage).0)
  {
    assert Traced(s, s.calls[id].org, s.calls[id].stage);
    assert s.calls[id].org in s.cache.orgs ==> Current(s, s.calls[id].org);
  }

  lemma CurrentStays(s: State, ev: Event, org: Id)
    requires Fresh(s) && org in Step(s, ev).cache.orgs
    ensures Current(Step(s, ev), org)
  {
    assert org in s.cache.orgs ==> Current(s, org);
    if ev.Go? && ev.id in s.calls {
      assert Traced(s, s.calls[ev.id].org, s.calls[ev.id].stage);
    }
  }

  lemma FreshStep(s: State, ev: Event)
    requires Fresh(s)
    ensures Fresh(Step(s, ev))
  {
    var t := Step(s, ev);
    forall org | org in t.cache.orgs
      ensures Current(t, org)
    {
      CurrentStays(s, ev, org);
    }
    forall id | id in t.calls
      ensures Traced(t, t.calls[id].org, t.calls[id].stage)
    {
      if ev == Go(id) {
        ActTraced(s, id);
      }
      TracedStays(s, ev, t.calls[id].org, t.calls[id].stage);
    }
  }

  lemma {:induction false} FreshRun(s: State, events: seq<Event>)
    requires Fresh(s)
    ensures Fresh(Run(s, events))
    decreases events
  {
    if events != [] {
      FreshStep(s, events[0]);
      FreshRun(Step(s, events[0]), events[1..]);
    }
  }

  /** In every interleaving of reads with commits and their later announcements: every answer, cached or
      not, is the organisation's state in a version at least as new as the one announced when the call
      began, and every cached answer is from a version at least as new as the last announcement. */
  lemma AnswersFollowAnnouncements(s: State, events: seq<Event>, id: CallId)
    requires Initial(s)
    requires id in Run(s, events).calls && Run(s, events).calls[id].stage.Answered?
    ensures var t := Run(s, events);
            var a := t.calls[id].stage;
            && a.since <= a.version < |t.history| && a.ok == (t.calls[id].org in t.history[a.version])
            && forall org | org in t.cache.orgs :: Current(t, org)
  {
    FreshRun(s, events);
    assert Traced(Run(s, events), Run(s, events).calls[id].org, Run(s, events).calls[id].stage);
  }

  // ---- nor than the time to live ----

  /** The version was still the current one at some instant from `at` on. */
  predicate CurrentFrom(s: State, version: nat, at: int) {
    && |s.committed| == |s.history| && version < |s.history|
    && (version + 1 == |s.history| || at <= s.committed[version + 1])
  }

  predicate Timed(s: State, stage: Stage) {
    match stage
    case Waiting => true
    case Reading(now, _, _) => now <= s.clock
    case Filling(now, _, _, _, version) => now <= s.clock && CurrentFrom(s, version, now)
    case Answered(now, _, version, _) => now <= s.clock && CurrentFrom(s, version, now - ORG_TTL_MS)
  }

  ghost predicate Timely(s: State) {
    && |s.committed| == |s.history|
    && (forall org | org in s.cache.orgs && org in s.cache.sources ::
          s.cache.orgs[org].at <= s.clock && CurrentFrom(s, s.cache.sources[org], s.cache.orgs[org].at))
    && (forall id | id in s.calls :: Timed(s, s.calls[id].stage))
  }

  lemma CurrentFromStays(s: State, ev: Event, version: nat, at: int)
    requires CurrentFrom(s, version, at) && at <= s.clock
    ensures CurrentFrom(Step(s, ev), version, at) && at <= Step(s, ev).clock
  {
  }

  /** Time passes and versions come, but what a call or the cache holds stays timed. */
  lemma TimedStays(s: State, ev: Event, stage: Stage)
    requires |s.committed| == |s.history| && Timed(s, stage)
    ensures Timed(Step(s, ev), stage)
  {
    match stage
    case Filling(now, _, _, _, version) => CurrentFromStays(s, ev, version, now);
    case Answered(now, _, version, _) => CurrentFromStays(s, ev, version, now - ORG_TTL_MS);
    case _ =>
  }

  lemma ActTimed(s: State, id: CallId)
    requires Timely(s) && id in s.calls
    ensures Timed(s, Act(s, s.calls[id].org, s.calls[id].stage).0)
  {
    assert Timed(s, s.calls[id].stage);
  }

  lemma CacheTimed(s: State, ev: Event, org: Id)
    requires Timely(s) && org in Step(s, ev).cache.orgs && org in Step(s, ev).cache.sources
    ensures var c := Step(s, ev).cache;
            c.orgs[org].at <= s.clock && CurrentFrom(s, c.sources[org], c.orgs[org].at)
  {
    if ev.Go? && ev.id in s.calls {
      assert Timed(s, s.calls[ev.id].stage);
    }
  }

  lemma TimelyStep(s: State, ev: Event)
    requires Timely(s)
    ensures Timely(Step(s, ev))
  {
    var t := Step(s, ev);
    forall org | org in t.cache.orgs && org in t.cache.sources
      ensures t.cache.orgs[org].at <= t.clock && CurrentFrom(t, t.cache.sources[org], t.cache.orgs[org].at)
    {
      CacheTimed(s, ev, org);
      CurrentFromStays(s, ev, t.cache.sources[org], t.cache.orgs[org].at);
    }
    forall id | id in t.calls
      ensures Timed(t, t.calls[id].stage)
    {
      if ev == Go(id) {
        ActTimed(s, id);
      }
      TimedStays(s, ev, t.calls[id].stage);
    }
  }

  lemma {:induction false} TimelyRun(s: State, events: seq<Event>)
    requires Timely(s)
    ensures Timely(Run(s, events))
    decreases events
  {
    hide Step;
    hide Timely;
    if events != [] {
      TimelyStep(s, events[0]);
      TimelyRun(Step(s, events[0]), events[1..]);
    }
  }

  /** A change that nobody announces is seen all the same: in every interleaving an answer is the organisation's state
      at some instant at most 30 s before the call began, or while it ran. */
  lemma AnswersAreRecent(s: State, events: seq<Event>, id: CallId)
    requires Initial(s)
    requires id in Run(s, events).calls && Run(s, events).calls[id].stage.Answered?
    ensures var t := Run(s, events);
            var a := t.calls[id].stage;
            && |t.committed| == |t.history| && a.version < |t.history|
            && a.ok == (t.calls[id].org in t.history[a.version])
            && (a.version + 1 == |t.history| || a.now - 30_000 <= t.committed[a.version + 1])
  {
    TimelyRun(s, events);
    FreshRun(s, events);
    var t := Run(s, events);
    assert Timed(t, t.calls[id].stage) && Traced(t, t.calls[id].org, t.calls[id].stage);
  }

  /** And what is read is used again: after a call that no announcement has overtaken, one that comes within the time to
      live is given the same answer without a read. */
  lemma ReadIsReused(s: State, reader: CallId, next: CallId, ms: nat)
    requires reader in s.calls && next in s.calls && reader != next && s.calls[reader].org == s.calls[next].org
    requires s.calls[reader].stage.Filling? && s.calls[next].stage.Waiting?
    requires s.calls[reader].stage.generation == s.cache.generation
    requires s.clock + ms < s.calls[reader].stage.now + 30_000
    ensures var read, t := s.calls[reader].stage, Run(s, [Go(reader), Tick(ms), Go(next)]);
            && next in t.calls
            && t.calls[next].stage == Answered(s.clock + ms, read.found, read.version, Announced(s, s.calls[next].org))
  {
    var a := Step(s, Go(reader));
    var b := Step(a, Tick(ms));
    assert [Go(reader), Tick(ms), Go(next)][1..] == [Tick(ms), Go(next)] && [Tick(ms), Go(next)][1..] == [Go(next)];
    assert [Go(next)][1..] == [];
    assert Run(s, [Go(reader), Tick(ms), Go(next)]) == Run(a, [Tick(ms), Go(next)]) == Run(b, [Go(next)]);
    assert Run(b, [Go(next)]) == Run(Step(b, Go(next)), []);
  }

  // ---- what the generation is for ----

  /** A call that has begun did so no earlier than version `d` was announced. */
  predicate BeganAfter(stage: Stage, d: nat) { !stage.Waiting? ==> stage.since >= d }

  lemma {:induction false} BeganAfterRun(s: State, events: seq<Event>, id: CallId, d: nat)
    requires Fresh(s) && id in s.calls && BeganAfter(s.calls[id].stage, d) && Announced(s, s.calls[id].org) >= d
    ensures id in Run(s, events).calls && Run(s, events).calls[id].org == s.calls[id].org
    ensures BeganAfter(Run(s, events).calls[id].stage, d)
    decreases events
  {
    if events != [] {
      FreshStep(s, events[0]);
      assert Announced(Step(s, events[0]), s.calls[id].org) >= d by {
        assert s.calls[id].org in s.announced ==> s.announced[s.calls[id].org] < |s.history|;
      }
      BeganAfterRun(Step(s, events[0]), events[1..], id, d);
    }
  }

  /** What the generation is for: once the deletion of an organisation has been announced, no call that
      begins afterwards is told it exists, whatever reads were in flight. The same for a creation:
      nobody is told it does not. */
  lemma AnnouncedChangeIsSeen(s: State, before: seq<Event>, after: seq<Event>, id: CallId, existing: bool)
    requires Initial(s)
    requires id in Run(s, before).calls && Run(s, before).calls[id].stage.Waiting?
    requires var m, t := Run(s, before), Run(Run(s, before), after);
             forall i | Announced(m, m.calls[id].org) <= i < |t.history| ::
               (m.calls[id].org in t.history[i]) == existing
    ensures var t := Run(Run(s, before), after);
            id in t.calls && (t.calls[id].stage.Answered? ==> t.calls[id].stage.ok == existing)
  {
    FreshRun(s, before);
    SeenFrom(Run(s, before), after, id, existing);
  }

  lemma SeenFrom(s: State, after: seq<Event>, id: CallId, existing: bool)
    requires Fresh(s) && id in s.calls && s.calls[id].stage.Waiting?
    requires forall i | Announced(s, s.calls[id].org) <= i < |Run(s, after).history| ::
               (s.calls[id].org in Run(s, after).history[i]) == existing
    ensures var t := Run(s, after);
            id in t.calls && (t.calls[id].stage.Answered? ==> t.calls[id].stage.ok == existing)
  {
    BeganAfterRun(s, after, id, Announced(s, s.calls[id].org));
    FreshRun(s, after);
    var t := Run(s, after);
    assert Traced(t, t.calls[id].org, t.calls[id].stage);
  }

  /** Whatever is committed, the organisation is there, or is not. */
  predicate Leave(events: seq<Event>, org: Id, existing: bool) {
    forall e | e in events && e.Commit? :: (org in e.live) == existing
  }

  lemma {:induction false} LeftSo(s: State, events: seq<Event>, org: Id, existing: bool, from: nat)
    requires Leave(events, org, existing)
    requires forall i | from <= i < |s.history| :: (org in s.history[i]) == existing
    ensures var t := Run(s, events);
            |s.history| <= |t.history| && forall i | from <= i < |t.history| :: (org in t.history[i]) == existing
    decreases events
  {
    if events != [] {
      LeftSo(Step(s, events[0]), events[1..], org, existing, from);
    }
  }

  /** As it happens in the code: a change commits, the organisation is announced later, and a call that begins after
      that, whatever else runs in between and since, answers what the change left. */
  lemma ChangeIsSeen(s: State, before: seq<Event>, live: set<Id>, between: seq<Event>, org: Id, after: seq<Event>,
                     id: CallId)
    requires Initial(s) && Leave(between + after, org, org in live)
    requires var m := Run(Step(Run(s, before), Commit(live)), between);
             id in m.calls && m.calls[id] == Call(org, Waiting)
    ensures var m := Step(Run(Step(Run(s, before), Commit(live)), between), Announce(org));
            var t := Run(m, after);
            id in t.calls && (t.calls[id].stage.Answered? ==> t.calls[id].stage.ok == (org in live))
  {
    var first := Run(s, before);
    var second := Step(first, Commit(live));
    var third := Run(second, between);
    FreshRun(s, before);
    FreshStep(first, Commit(live));
    FreshRun(second, between);
    FreshStep(third, Announce(org));
    assert forall e | e in between :: e in between + after;
    assert forall e | e in after :: e in between + after;
    LeftSo(second, between, org, org in live, |first.history|);
    LeftSo(Step(third, Announce(org)), after, org, org in live, |first.history|);
    SeenFrom(Step(third, Announce(org)), after, id, org in live);
  }

  /** The reader's own fields, and, to say what its answers mean, the versions of the table and the last
      announced one of each organisation. */
  class AuthUserReader {
    var orgs: map<Id, Entry>
    var generation: nat
    ghost var sources: map<Id, nat>
    ghost var history: History
    ghost var announced: map<Id, nat>

    constructor ()
      ensures Valid() && orgs == map[] && generation == 0 && announced == map[]
    {
      orgs, generation, sources := map[], 0, map[];
      history, announced := [{}], map[];
    }

    ghost function View(): Cache
      reads this
    {
      Cache(orgs, sources, generation)
    }

    ghost function World(): State
      reads this
    {
      State(0, history, [], announced, View(), map[])
    }

    /** Every cached answer was read from a version no older than the last one announced. */
    ghost predicate Valid()
      reads this
    {
      Fresh(World()) && orgs.Keys == sources.Keys
    }

    /** A change of the table is committed; it is announced later. */
    ghost method Commit(live: set<Id>)
      requires Valid()
      modifies `history
      ensures Valid() && history == old(history) + [live]
    {
      FreshStep(World(), Event.Commit(live));
      history := history + [live];
    }

    /** A hit is the organisation's state in some version from the last announced one on, read at most the time
        to live ago. */
    method Cached(id: Id, now: int) returns (hit: Option<bool>)
      requires Valid()
      ensures hit.Some? ==>
                && id in sources && Announced(World(), id) <= sources[id] < |history|
                && hit.value == (id in history[sources[id]])
                && id in orgs && now < orgs[id].at + ORG_TTL_MS
      ensures id in orgs && now < orgs[id].at + ORG_TTL_MS ==> hit.Some?
    {
      if id in orgs && now - orgs[id].at < ORG_TTL_MS {
        assert Current(World(), id);
        return Some(orgs[id].ok);
      }
      hit := None;
    }

    /** The end of `orgExists`, after its read came back. The answer is cached exactly when nothing was announced
        since the call began, so that the cache stays one that answers nothing older than the last
        announcement; the other entries stay, or all go when there were too many. */
    method Keep(id: Id, found: bool, now: int, began: nat, ghost since: nat, ghost version: nat) returns (answer: bool)
      requires Valid() && Traced(World(), id, Filling(now, began, since, found, version))
      modifies `orgs, `sources
      ensures Valid() && View() == Fill(old(View()), id, Filling(now, began, since, found, version))
      ensures answer == found
      ensures began == generation ==> id in orgs && orgs[id] == Entry(found, now)
      ensures began != generation && id in orgs ==> id in old(orgs) && orgs[id] == old(orgs)[id]
      ensures forall o | o in orgs && o != id :: o in old(orgs) && orgs[o] == old(orgs)[o]
      ensures |old(orgs)| <= 1000 ==> forall o | o in old(orgs) :: o in orgs
      ensures |old(orgs)| > 1000 ==> forall o | o in orgs :: o == id
    {
      if |orgs| > MAX_CACHED {
        orgs, sources := map[], map[];
      }
      if began == generation {
        orgs := orgs[id := Entry(found, now)];
        sources := sources[id := version];
      }
      KeptFresh(old(World()), World(), id, Filling(now, began, since, found, version));
      answer := found;
    }

    /** A change is announced: the entry is gone, no read of a call that began before can be kept any more, and
        what is cached of other organisations stays. */
    method ForgetOrg(id: Id)
      requires Valid()
      modifies `orgs, `sources, `generation, `announced
      ensures Valid() && id !in orgs && Announced(World(), id) == |history| - 1
      ensures orgs == old(orgs) - {id} && announced == old(announced)[id := |history| - 1]
      ensures forall o, began, now, since, found, version |
                Traced(old(World()), o, Filling(now, began, since, found, version)) :: began != generation
    {
      FreshStep(World(), Announce(id));
      generation := generation + 1;
      orgs, sources := orgs - {id}, sources - {id};
      announced := announced[id := |history| - 1];
    }
  }

  /** Filling the cache from a traced read keeps it fresh. */
  lemma KeptFresh(s: State, t: State, id: Id, stage: Stage)
    requires Fresh(s) && stage.Filling? && Traced(s, id, stage) && t == s.(cache := Fill(s.cache, id, stage))
    requires s.calls == map[]
    ensures Fresh(t)
  {
    forall org | org in t.cache.orgs
      ensures Current(t, org)
    {
      assert org in s.cache.orgs ==> Current(s, org);
    }
  }
}
