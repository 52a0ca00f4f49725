/** Refresh-token rotation: a compare-and-set claim, then mint, link and cache, with the losers of
    the race served from the cache and the claim handed back on failure.

    A token is an abstract fresh value and stands for its own hash and row id. Each `await` ends a
    step; a run is any interleaving of rotate calls with sign-ins, revocations, purges, crashes
    and the clock. */
module Rotation {
  import opened Options

  type Token = nat
  type User = string
  type CallId = nat

  const REFRESH_REUSE_GRACE_MS := 30_000
  const TTL_MS := 604_800_000

  datatype Row = Row(user: User, expiresAt: int, revokedAt: Option<int>, replacedBy: Option<Token>)

  /** A cache entry; expired from `until` on. */
  datatype Held = Held(token: Token, expiresAt: int, until: int)

  /** `next` is the next token never used before. */
  datatype World = World(clock: int, next: Token, rows: map<Token, Row>, cache: map<Token, Held>)

  datatype Via = ByClaim | ByReplay | ByFallback

  datatype Stage =
    | Waiting
    | Claiming(now: int)
    | Finding(now: int, claimed: Option<User>)
    | Minting(now: int, user: User)
    | Linking(now: int, user: User, token: Token)
    | Caching(now: int, token: Token)
    | Returning(token: Token)
    | HandingBack(user: User, minted: bool)
    | Reading(user: User)
    | Issuing(user: User)
    | Returned(token: Token, via: Via)
    | Rejected
    | Failed
    | Lost(kept: Option<Token>)   // threw or died with the claim still taken; `kept` went into the cache
  {
    /** The old token was claimed by this call and has not been handed back. */
    predicate Claims() {
      || (Finding? && claimed.Some?) || Minting? || Linking? || Caching? || Returning? || HandingBack? || Lost?
      || (Returned? && via.ByClaim?)
    }

    /** Is past its cache write, with `token` as the successor of the old token it claimed. */
    predicate Kept(token: Token) {
      this == Returning(token) || this == Returned(token, ByClaim) || this == Lost(Some(token))
    }

    /** Claimed, and no successor exists yet. */
    predicate InFlight(u: User) {
      (Finding? && claimed == Some(u)) || (Minting? && user == u) || (HandingBack? && user == u && !minted)
    }

    predicate Ended() { Returned? || Rejected? || Failed? || Lost? }

    function Rank(): nat {
      match this
      case Waiting => 7
      case Claiming(_) => 6
      case Finding(_, _) => 5
      case Minting(_, _) => 4
      case Linking(_, _, _) => 3
      case Reading(_) => 2
      case Caching(_, _) => 2
      case Returning(_) => 1
      case HandingBack(_, _) => 1
      case Issuing(_) => 1
      case _ => 0
    }
  }

  /** The operations that can fail. */
  datatype Op = Claim | Find | Create | Link | CacheSet | CacheGet | HandBack

  function Revoked(r: Row, at: int): Row { r.(revokedAt := Some(at)) }

  predicate Claimable(w: World, raw: Token, now: int) {
    raw in w.rows && w.rows[raw].revokedAt.None? && w.rows[raw].expiresAt > now
  }

  predicate RotatedJustNow(r: Row, now: int) {
    r.revokedAt.Some? && r.replacedBy.Some? && now - r.revokedAt.value <= REFRESH_REUSE_GRACE_MS
  }

  /** A new live token for a user. */
  function Mint(w: World, u: User, now: int): World {
    w.(next := w.next + 1, rows := w.rows[w.next := Row(u, now + TTL_MS, None, None)])
  }

  /** One call of `rotate(raw)` runs to its next await; `faults` are the operations that fail. */
  function Act(w: World, raw: Token, stage: Stage, faults: set<Op>): (Stage, World) {
    match stage
    case Waiting => (Claiming(w.clock), w)
    case Claiming(now) =>
      if Claim in faults then (Failed, w)
      else if Claimable(w, raw, now) then
        (Finding(now, Some(w.rows[raw].user)), w.(rows := w.rows[raw := Revoked(w.rows[raw], now)]))
      else (Finding(now, None), w)
    case Finding(now, claimed) =>
      if Find in faults then (if claimed.Some? then Lost(None) else Failed, w)
      else if raw !in w.rows then (Rejected, w)
      else if claimed.Some? then (Minting(now, w.rows[raw].user), w)
      else (if RotatedJustNow(w.rows[raw], now) then Reading(w.rows[raw].user) else Rejected, w)
    case Minting(now, user) =>
      if Create in faults then (HandingBack(user, false), w) else (Linking(now, user, w.next), Mint(w, user, now))
    case Linking(now, user, token) =>
      if Link in faults || raw !in w.rows then (HandingBack(user, true), w)
      else (Caching(now, token), w.(rows := w.rows[raw := w.rows[raw].(replacedBy := Some(token))]))
    case Caching(now, token) =>
      (Returning(token),
       if CacheSet in faults then w
       else w.(cache := w.cache[raw := Held(token, now + TTL_MS, w.clock + REFRESH_REUSE_GRACE_MS)]))
    case Returning(token) => (Returned(token, ByClaim), w)
    case HandingBack(_, _) =>
      if HandBack in faults || raw !in w.rows then (Lost(None), w)
      else (Failed, w.(rows := w.rows[raw := w.rows[raw].(revokedAt := None)]))
    case Reading(user) =>
      if CacheGet in faults then (Failed, w)
      else if raw in w.cache && w.cache[raw].until > w.clock then (Returned(w.cache[raw].token, ByReplay), w)
      else (Issuing(user), w)
    case Issuing(user) =>
      if Create in faults then (Failed, w) else (Returned(w.next, ByFallback), Mint(w, user, w.clock))
    case _ => (stage, w)
  }

  /** The process dies in the middle of a call: the claim and what is in the cache stay. */
  function Die(stage: Stage): Stage {
    if stage.Returning? then Lost(Some(stage.token)) else if stage.Claims() then Lost(None) else Failed
  }

  datatype Call = Call(raw: Token, stage: Stage)
  datatype State = State(world: World, calls: map<CallId, Call>)

  datatype Event =
    | Go(id: CallId, faults: set<Op>)
    | Crash(victim: CallId)
    | SignIn(user: User)
    | SignOut(token: Token)
    | SignOutAll(user: User)
    | PurgeDead(cutoff: int)
    | Tick(ms: nat)

  function Step(s: State, ev: Event): State {
    var w := s.world;
    match ev
    case Go(id, faults) =>
      if id !in s.calls then s
      else
        var (stage, after) := Act(w, s.calls[id].raw, s.calls[id].stage, faults);
        State(after, s.calls[id := s.calls[id].(stage := stage)])
    case Crash(id) =>
      if id !in s.calls || s.calls[id].stage.Ended() then s
      else s.(calls := s.calls[id := s.calls[id].(stage := Die(s.calls[id].stage))])
    case SignIn(u) => s.(world := Mint(w, u, w.clock))
    case SignOut(t) =>
      if t !in w.rows || w.rows[t].revokedAt.Some? then s
      else s.(world := w.(rows := w.rows[t := Revoked(w.rows[t], w.clock)]))
    case SignOutAll(u) =>
      s.(world := w.(rows := map t | t in w.rows ::
        if w.rows[t].user == u && w.rows[t].revokedAt.None? then Revoked(w.rows[t], w.clock) else w.rows[t]))
    case PurgeDead(cutoff) =>
      s.(world := w.(rows := map t | t in w.rows && !(w.rows[t].expiresAt < cutoff
        || (w.rows[t].revokedAt.Some? && w.rows[t].revokedAt.value < cutoff)) :: w.rows[t]))
    case Tick(ms) => s.(world := w.(clock := w.clock + ms))
  }

  function Run(s: State, events: seq<Event>): State
    decreases events
  {
    if events == [] then s else Run(Step(s, events[0]), events[1..])
  }

  predicate Initial(s: State) {
    && s.world.cache == map[]
    && (forall t | t in s.world.rows :: t < s.world.next)
    && (forall id | id in s.calls :: s.calls[id].stage.Waiting?)
  }

  // ---- one claimant, one successor ----

  /** The user a claiming stage carries is the old token's. */
  predicate ForUser(stage: Stage, u: User) {
    && (stage.Finding? && stage.claimed.Some? ==> stage.claimed == Some(u))
    && (stage.Minting? || stage.Linking? || stage.HandingBack? ==> stage.user == u)
  }

  /** What the table says of a call's old token while the call has it claimed. */
  predicate Fits(w: World, raw: Token, stage: Stage) {
    && (stage.Claims() ==> raw < w.next && (raw in w.rows ==> w.rows[raw].revokedAt.Some?))
    && (stage.Linking? || stage.Caching? ==> stage.token < w.next)
    && (raw in w.rows ==> ForUser(stage, w.rows[raw].user))
    && ((stage.Finding? && stage.claimed.Some?) || stage.Minting? || stage.Linking? || stage.Caching? ==>
        raw in w.rows ==> w.rows[raw].revokedAt == Some(stage.now))
    && (stage.Caching? || stage.Returning? || (stage.Returned? && stage.via.ByClaim?) ==>
        raw in w.rows ==> w.rows[raw].replacedBy == Some(stage.token))
  }

  predicate Claimant(s: State, id: CallId, raw: Token) {
    id in s.calls && s.calls[id].raw == raw && s.calls[id].stage.Claims()
  }

  /** Some call claimed `raw` and is past the cache write of its successor `token`. */
  ghost predicate Won(s: State, raw: Token, token: Token) {
    exists id | id in s.calls :: s.calls[id].raw == raw && s.calls[id].stage.Kept(token)
  }

  ghost predicate OneClaimant(s: State) {
    && (forall t | t in s.world.rows :: t < s.world.next)
    && (forall id | id in s.calls :: Fits(s.world, s.calls[id].raw, s.calls[id].stage))
    && (forall raw, a, b | Claimant(s, a, raw) && Claimant(s, b, raw) :: a == b)
    && (forall raw | raw in s.world.cache :: Won(s, raw, s.world.cache[raw].token))
    && (forall id | id in s.calls && s.calls[id].stage.Returned? && s.calls[id].stage.via.ByReplay? ::
          Won(s, s.calls[id].raw, s.calls[id].stage.token))
  }

  /** What one step may do to the old token's row and to every other row. */
  lemma ActClaims(w: World, raw: Token, stage: Stage, faults: set<Op>)
    requires Fits(w, raw, stage) && forall t | t in w.rows :: t < w.next
    ensures var (next, after) := Act(w, raw, stage, faults);
            && Fits(after, raw, next)
            && (forall t | t in after.rows :: t < after.next)
            && w.next <= after.next
            && (next.Claims() && !stage.Claims() ==> raw in w.rows && w.rows[raw].revokedAt.None?)
            && (forall t | t < w.next && t != raw :: t in after.rows <==> t in w.rows)
            && (forall t | t < w.next && t != raw && t in w.rows :: after.rows[t] == w.rows[t])
            && (!stage.Claims() && !next.Claims() && raw < w.next ==>
                (raw in after.rows <==> raw in w.rows) && (raw in w.rows ==> after.rows[raw] == w.rows[raw]))
  {
  }

  lemma WonStays(s: State, ev: Event, raw: Token, token: Token)
    requires Won(s, raw, token)
    ensures Won(Step(s, ev), raw, token)
  {
    var id :| id in s.calls && s.calls[id].raw == raw && s.calls[id].stage.Kept(token);
    assert Step(s, ev).calls[id].raw == raw && Step(s, ev).calls[id].stage.Kept(token);
  }

  lemma OneClaimantGo(s: State, id: CallId, faults: set<Op>)
    requires OneClaimant(s) && id in s.calls
    ensures var t := Step(s, Go(id, faults));
            && (forall k | k in t.calls :: Fits(t.world, t.calls[k].raw, t.calls[k].stage))
            && (forall raw, a, b | Claimant(t, a, raw) && Claimant(t, b, raw) :: a == b)
  {
    var t, c := Step(s, Go(id, faults)), s.calls[id];
    ActClaims(s.world, c.raw, c.stage, faults);
    forall k | k in t.calls
      ensures Fits(t.world, t.calls[k].raw, t.calls[k].stage)
    {
      if k != id {
        assert !(Claimant(s, k, c.raw) && Claimant(s, id, c.raw));
      }
    }
    forall raw, a, b | Claimant(t, a, raw) && Claimant(t, b, raw)
      ensures a == b
    {
      forall k | k in {a, b} && k != id
        ensures Claimant(s, k, raw) && Fits(s.world, raw, s.calls[k].stage)
      {
      }
      assert Claimant(s, a, raw) && Claimant(s, b, raw) ==> a == b;
    }
  }

  /** The other events leave every claim where it is. */
  lemma OneClaimantElse(s: State, ev: Event)
    requires OneClaimant(s) && !ev.Go?
    ensures var t := Step(s, ev);
            && (forall k | k in t.calls :: Fits(t.world, t.calls[k].raw, t.calls[k].stage))
            && (forall raw, a, b | Claimant(t, a, raw) && Claimant(t, b, raw) :: a == b)
  {
    var t := Step(s, ev);
    forall k | k in t.calls
      ensures Fits(t.world, t.calls[k].raw, t.calls[k].stage)
    {
      assert Fits(s.world, s.calls[k].raw, s.calls[k].stage);
    }
    forall raw, a, b | Claimant(t, a, raw) && Claimant(t, b, raw)
      ensures a == b
    {
      assert Claimant(s, a, raw) && Claimant(s, b, raw);
    }
  }

  lemma CacheAfterAct(w: World, raw: Token, stage: Stage, faults: set<Op>)
    ensures var (next, after) := Act(w, raw, stage, faults);
            && (after.cache == w.cache || (stage.Caching? && next == Returning(stage.token) && raw in after.cache
                  && after.cache[raw].token == stage.token && after.cache - {raw} == w.cache - {raw}))
            && (next.Returned? && next.via.ByReplay? ==>
                  stage == next || (raw in w.cache && next.token == w.cache[raw].token))
  {
    if stage.Caching? && CacheSet !in faults {
      var after := Act(w, raw, stage, faults).1;
      assert after.cache - {raw} == w.cache - {raw};
    }
  }

  /** What the cache holds and what it answered goes back to the winner. */
  lemma WonByCache(s: State, ev: Event)
    requires OneClaimant(s)
    ensures var t := Step(s, ev);
            && (forall raw | raw in t.world.cache :: Won(t, raw, t.world.cache[raw].token))
            && (forall id | id in t.calls && t.calls[id].stage.Returned? && t.calls[id].stage.via.ByReplay? ::
                  Won(t, t.calls[id].raw, t.calls[id].stage.token))
  {
    hide Fits;
    var t := Step(s, ev);
    if ev.Go? && ev.id in s.calls {
      hide Act;
      var c := s.calls[ev.id];
      CacheAfterAct(s.world, c.raw, c.stage, ev.faults);
      forall raw | raw in t.world.cache
        ensures Won(t, raw, t.world.cache[raw].token)
      {
        if raw in s.world.cache && t.world.cache[raw] == s.world.cache[raw] {
          WonStays(s, ev, raw, t.world.cache[raw].token);
        } else {
          assert raw == c.raw by {
            assert raw in t.world.cache - {c.raw} <==> raw in s.world.cache - {c.raw};
          }
          assert t.calls[ev.id].raw == c.raw && t.calls[ev.id].stage.Kept(c.stage.token);
        }
      }
      forall id | id in t.calls && t.calls[id].stage.Returned? && t.calls[id].stage.via.ByReplay?
        ensures Won(t, t.calls[id].raw, t.calls[id].stage.token)
      {
        WonStays(s, ev, t.calls[id].raw, t.calls[id].stage.token);
      }
    } else {
      forall raw, token | Won(s, raw, token)
        ensures Won(t, raw, token)
      {
        WonStays(s, ev, raw, token);
      }
    }
  }

  lemma OneClaimantStep(s: State, ev: Event)
    requires OneClaimant(s)
    ensures OneClaimant(Step(s, ev))
  {
    WonByCache(s, ev);
    if ev.Go? && ev.id in s.calls {
      OneClaimantGo(s, ev.id, ev.faults);
      ActClaims(s.world, s.calls[ev.id].raw, s.calls[ev.id].stage, ev.faults);
    } else if !ev.Go? {
      OneClaimantElse(s, ev);
    }
  }

  lemma {:induction false} OneClaimantRun(s: State, events: seq<Event>)
    requires OneClaimant(s)
    ensures OneClaimant(Run(s, events))
    decreases events
  {
    if events != [] {
      OneClaimantStep(s, events[0]);
      OneClaimantRun(Step(s, events[0]), events[1..]);
    }
  }

  lemma InitialOneClaimant(s: State)
    requires Initial(s)
    ensures OneClaimant(s)
  {
  }

  /** In every interleaving, failures that hand the claim back included, at most one call of one old
      token ever returns a token through the claim; and what it returns is the recorded successor. */
  lemma OneWinner(s: State, events: seq<Event>, a: CallId, b: CallId)
    requires Initial(s)
    requires a in Run(s, events).calls && b in Run(s, events).calls
    requires Run(s, events).calls[a].raw == Run(s, events).calls[b].raw
    requires Run(s, events).calls[a].stage.Returned? && Run(s, events).calls[a].stage.via == ByClaim
    requires Run(s, events).calls[b].stage.Returned? && Run(s, events).calls[b].stage.via == ByClaim
    ensures a == b
    ensures Run(s, events).calls[a].raw in Run(s, events).world.rows ==>
            Run(s, events).world.rows[Run(s, events).calls[a].raw].replacedBy ==
              Some(Run(s, events).calls[a].stage.token)
  {
    InitialOneClaimant(s);
    OneClaimantRun(s, events);
    var t := Run(s, events);
    assert Claimant(t, a, t.calls[a].raw) && Claimant(t, b, t.calls[a].raw);
    assert Fits(t.world, t.calls[a].raw, t.calls[a].stage);
  }

  /** Every call answered from the cache is given the token that the one call which claimed the old token had
      put there, whether that call has returned, is about to, or died before it could; and if it has returned
      it returned this token: one session stays one session. */
  lemma LosersGetTheWinnersToken(s: State, events: seq<Event>, loser: CallId)
    requires Initial(s)
    requires loser in Run(s, events).calls && Run(s, events).calls[loser].stage.Returned?
    requires Run(s, events).calls[loser].stage.via == ByReplay
    ensures var t := Run(s, events);
            var raw, token := t.calls[loser].raw, t.calls[loser].stage.token;
            && Won(t, raw, token)
            && forall k | Claimant(t, k, raw) :: t.calls[k].stage.Kept(token)
  {
    InitialOneClaimant(s);
    OneClaimantRun(s, events);
    var t := Run(s, events);
    var raw, token := t.calls[loser].raw, t.calls[loser].stage.token;
    assert Won(t, raw, token);
    var winner :| winner in t.calls && t.calls[winner].raw == raw && t.calls[winner].stage.Kept(token);
    assert Claimant(t, winner, raw);
  }

  // ---- how many sessions a person has ----

  ghost function LiveTokens(w: World, u: User): set<Token> {
    set t | t in w.rows && w.rows[t].user == u && w.rows[t].revokedAt.None?
  }

  ghost function ClaimsInFlight(s: State, u: User): set<CallId> {
    set id | id in s.calls && s.calls[id].stage.InFlight(u)
  }

  ghost function Sessions(s: State, u: User): nat { |LiveTokens(s.world, u)| + |ClaimsInFlight(s, u)| }

  /** The only steps that may add a session: a sign-in, the cache-miss fallback, and handing the claim
      back after the successor was minted but not linked. */
  function Adds(s: State, ev: Event, u: User): nat {
    if ev == SignIn(u) then 1
    else if ev.Go? && ev.id in s.calls
            && ((s.calls[ev.id].stage == Issuing(u)
              && Create !in ev.faults) || s.calls[ev.id].stage == HandingBack(u, true))
    then 1
    else 0
  }

  function TotalAdds(s: State, events: seq<Event>, u: User): nat
    decreases events
  {
    if events == [] then 0 else Adds(s, events[0], u) + TotalAdds(Step(s, events[0]), events[1..], u)
  }

  /** Two sets that differ at most in `x`. */
  lemma DifferInOne<T>(a: set<T>, b: set<T>, x: T)
    requires a - {x} == b - {x}
    ensures |a| + (if x in b then 1 else 0) == |b| + (if x in a then 1 else 0)
  {
    assert a == if x in a then (a - {x}) + {x} else a - {x};
    assert b == if x in b then (b - {x}) + {x} else b - {x};
  }

  lemma SmallerSet<T>(a: set<T>, b: set<T>)
    requires a <= b
    ensures |a| <= |b|
  {
    assert b == a + (b - a);
  }

  /** Only the call's old token and the fresh one can change in one step. */
  lemma LiveAfterAct(w: World, raw: Token, stage: Stage, faults: set<Op>, u: User)
    requires Fits(w, raw, stage) && forall t | t in w.rows :: t < w.next
    ensures var (next, after) := Act(w, raw, stage, faults);
            |LiveTokens(after, u)| + (if next.InFlight(u) then 1 else 0) <=
            |LiveTokens(w, u)| + (if stage.InFlight(u) then 1 else 0) +
            (if (stage == Issuing(u) && Create !in faults) || stage == HandingBack(u, true) then 1 else 0)
  {
    var (next, after) := Act(w, raw, stage, faults);
    var was, now := LiveTokens(w, u), LiveTokens(after, u);
    if stage.Minting? || stage.Issuing? {
      LiveAfterMint(w, stage.user, if stage.Minting? then stage.now else w.clock, u);
    } else if after.rows != w.rows {
      DifferInOne(was, now, raw);
    }
  }

  lemma LiveAfterMint(w: World, v: User, now: int, u: User)
    requires forall t | t in w.rows :: t < w.next
    ensures |LiveTokens(Mint(w, v, now), u)| == |LiveTokens(w, u)| + (if u == v then 1 else 0)
  {
    var was, minted := LiveTokens(w, u), LiveTokens(Mint(w, v, now), u);
    assert w.next !in was;
    if u == v {
      assert minted == was + {w.next};
    } else {
      assert minted == was;
    }
  }

  lemma SessionsGo(s: State, id: CallId, faults: set<Op>, u: User)
    requires OneClaimant(s) && id in s.calls
    ensures Sessions(Step(s, Go(id, faults)), u) <= Sessions(s, u) + Adds(s, Go(id, faults), u)
  {
    hide Act;
    hide LiveTokens;
    LiveAfterAct(s.world, s.calls[id].raw, s.calls[id].stage, faults, u);
    DifferInOne(ClaimsInFlight(s, u), ClaimsInFlight(Step(s, Go(id, faults)), u), id);
  }

  lemma SessionsStep(s: State, ev: Event, u: User)
    requires OneClaimant(s)
    ensures Sessions(Step(s, ev), u) <= Sessions(s, u) + Adds(s, ev, u)
  {
    var t := Step(s, ev);
    var was, now := LiveTokens(s.world, u), LiveTokens(t.world, u);
    match ev
    case Go(id, faults) =>
      if id in s.calls {
        SessionsGo(s, id, faults, u);
      }
    case Crash(id) => SmallerSet(ClaimsInFlight(t, u), ClaimsInFlight(s, u));
    case SignIn(v) => DifferInOne(was, now, s.world.next);
    case _ => SmallerSet(now, was);
  }

  lemma {:induction false} SessionsRun(s: State, events: seq<Event>, u: User)
    requires OneClaimant(s)
    ensures Sessions(Run(s, events), u) <= Sessions(s, u) + TotalAdds(s, events, u)
    decreases events
  {
    if events != [] {
      SessionsStep(s, events[0], u);
      OneClaimantStep(s, events[0]);
      SessionsRun(Step(s, events[0]), events[1..], u);
    }
  }

  /** Racing refreshes multiply nobody's sessions: over any run, a person's live tokens plus the claims
      still owed a successor grow by at most one for each sign-in, each cache-miss fallback and each
      claim handed back after an unlinked successor. */
  lemma SessionsGrowOnlyByAdds(s: State, events: seq<Event>, u: User)
    requires Initial(s)
    ensures |LiveTokens(Run(s, events).world, u)| <= |LiveTokens(s.world, u)| + TotalAdds(s, events, u)
  {
    InitialOneClaimant(s);
    assert ClaimsInFlight(s, u) == {};
    SessionsRun(s, events, u);
  }

  /** Signing out everywhere: each row of the user that was not revoked is revoked now, and every other row, anybody
      else's included, is the row it was. So it ends the user's live tokens and nobody else's. */
  lemma SignsOutOneUser(s: State, u: User)
    ensures var w, t := s.world, Step(s, SignOutAll(u));
            && t == s.(world := w.(rows := t.world.rows)) && t.world.rows.Keys == w.rows.Keys
            && (forall k | k in w.rows ::
                  t.world.rows[k] ==
                  if w.rows[k].user == u && w.rows[k].revokedAt == None then w.rows[k].(revokedAt := Some(w.clock))
                  else w.rows[k])
            && LiveTokens(t.world, u) == {}
            && (forall v: User | v != u :: LiveTokens(t.world, v) == LiveTokens(w, v))
  {
    var t := Step(s, SignOutAll(u));
    forall v: User | v != u
      ensures LiveTokens(t.world, v) == LiveTokens(s.world, v)
    {
    }
  }

  /** Signing out ends exactly the token that is sent, if it is live, and no other. */
  lemma SignsOutOneToken(s: State, token: Token, u: User)
    ensures var w, t := s.world, Step(s, SignOut(token));
            && t == s.(world := w.(rows := t.world.rows)) && t.world.rows.Keys == w.rows.Keys
            && (forall k | k in w.rows ::
                  t.world.rows[k] ==
                  if k == token && w.rows[k].revokedAt == None
                  then w.rows[k].(revokedAt := Some(w.clock)) else w.rows[k])
            && LiveTokens(t.world, u) == LiveTokens(w, u) - {token}
  {
    assert LiveTokens(Step(s, SignOut(token)).world, u) == LiveTokens(s.world, u) - {token};
  }

  /** The purge deletes exactly the rows that had expired or been revoked before the cutoff. */
  lemma PurgesTheDead(s: State, cutoff: int)
    ensures var w, t := s.world, Step(s, PurgeDead(cutoff));
            && t == s.(world := w.(rows := t.world.rows))
            && (forall k :: k in t.world.rows <==>
                  && k in w.rows && w.rows[k].expiresAt >= cutoff
                  && (w.rows[k].revokedAt.Some? ==> w.rows[k].revokedAt.value >= cutoff))
            && forall k | k in t.world.rows :: t.world.rows[k] == w.rows[k]
  {
  }

  /** Signing in gives the user one live token nobody has had, and changes no other. */
  lemma SignsIn(s: State, u: User)
    requires forall k | k in s.world.rows :: k < s.world.next
    ensures var w, t := s.world, Step(s, SignIn(u));
            && t.calls == s.calls && t.world.cache == w.cache
            && w.next !in w.rows && t.world.rows == w.rows[w.next := Row(u, w.clock + TTL_MS, None, None)]
            && forall v: User :: LiveTokens(t.world, v) == LiveTokens(w, v) + (if v == u then {w.next} else {})
  {
    var w, t := s.world, Step(s, SignIn(u));
    forall v: User
      ensures LiveTokens(t.world, v) == LiveTokens(w, v) + (if v == u then {w.next} else {})
    {
      assert forall k :: k in LiveTokens(t.world, v) <==> k in LiveTokens(w, v) || (v == u && k == w.next);
    }
  }

  /** Signing out everywhere ends every live token, and afterwards a person has at most one for each rotation
      that had its claim in flight at that moment and each later addition. */
  lemma AfterSigningOutEverywhere(s: State, events: seq<Event>, u: User)
    requires OneClaimant(s)
    ensures LiveTokens(Step(s, SignOutAll(u)).world, u) == {}
    ensures var t := Step(s, SignOutAll(u));
            |LiveTokens(Run(t, events).world, u)| <= |ClaimsInFlight(s, u)| + TotalAdds(t, events, u)
  {
    var t := Step(s, SignOutAll(u));
    OneClaimantStep(s, SignOutAll(u));
    assert LiveTokens(t.world, u) == {};
    assert ClaimsInFlight(t, u) == ClaimsInFlight(s, u);
    SessionsRun(t, events, u);
  }

  function GoesOn(stage: Stage, id: CallId): seq<Event> {
    if stage.Finding? then [Go(id, {}), Go(id, {})] else [Go(id, {})]
  }

  /** And each such rotation does give a live token to a person who has just signed out everywhere: the successor,
      or the old token itself when the claim is being handed back. */
  lemma RotationOutlivesSigningOut(s: State, id: CallId, u: User)
    requires OneClaimant(s) && id in s.calls && s.calls[id].stage.InFlight(u)
    requires s.calls[id].raw in s.world.rows
    ensures LiveTokens(Run(Step(s, SignOutAll(u)), GoesOn(s.calls[id].stage, id)).world, u) ==
            {if s.calls[id].stage.HandingBack? then s.calls[id].raw else s.world.next}
  {
    var t, go, stage := Step(s, SignOutAll(u)), Go(id, {}), s.calls[id].stage;
    assert Fits(s.world, s.calls[id].raw, stage);
    assert LiveTokens(t.world, u) == {};
    assert [go, go][1..] == [go] && [go][1..] == [];
    var next := Step(t, go);
    assert Run(t, [go]) == Run(next, []) && Run(t, [go, go]) == Run(next, [go]) == Run(Step(next, go), []);
    if stage.Finding? {
      assert next.world == t.world && next.calls[id].stage == Minting(stage.now, u);
    }
  }

  // ---- rotate, as one uninterrupted call ----

  function Alone(w: World, raw: Token, stage: Stage, faults: set<Op>): (Stage, World)
    decreases stage.Rank()
  {
    if stage.Ended() then (stage, w)
    else
      var (next, after) := Act(w, raw, stage, faults);
      Alone(after, raw, next, faults)
  }

  lemma AloneFrom(w: World, raw: Token, stage: Stage, faults: set<Op>)
    requires !stage.Ended()
    ensures Alone(w, raw, stage, faults) ==
              Alone(Act(w, raw, stage, faults).1, raw, Act(w, raw, stage, faults).0, faults)
  {
  }

  /** The table and cache after an undisturbed rotation of `raw`. */
  function Rotated(w: World, raw: Token): World
    requires raw in w.rows
  {
    World(w.clock, w.next + 1,
          w.rows[w.next := Row(w.rows[raw].user, w.clock + TTL_MS, None, None)]
                [raw := w.rows[raw].(revokedAt := Some(w.clock), replacedBy := Some(w.next))],
          w.cache[raw := Held(w.next, w.clock + TTL_MS, w.clock + REFRESH_REUSE_GRACE_MS)])
  }

  /** Undisturbed, a rotation revokes the old token, links and caches its one live successor, and answers it. */
  lemma RotatesOnce(w: World, raw: Token)
    requires raw < w.next && Claimable(w, raw, w.clock)
    ensures Alone(w, raw, Waiting, {}) == (Returned(w.next, ByClaim), Rotated(w, raw))
  {
    var u, now := w.rows[raw].user, w.clock;
    AloneFrom(w, raw, Waiting, {});
    AloneFrom(w, raw, Claiming(now), {});
    var w1 := w.(rows := w.rows[raw := Revoked(w.rows[raw], now)]);
    AloneFrom(w1, raw, Finding(now, Some(u)), {});
    AloneFrom(w1, raw, Minting(now, u), {});
    var w2 := Mint(w1, u, now);
    AloneFrom(w2, raw, Linking(now, u, w.next), {});
    var w3 := w2.(rows := w2.rows[raw := w2.rows[raw].(replacedBy := Some(w.next))]);
    AloneFrom(w3, raw, Caching(now, w.next), {});
    AloneFrom(Rotated(w, raw), raw, Returning(w.next), {});
    assert w3.rows == Rotated(w, raw).rows;
  }

  // ---- an old token sent again ----

  /** How far the claimant of `raw` has come, and what the row and the cache say of it. */
  predicate Progress(w: World, raw: Token, stage: Stage, rotatedAt: int)
    requires raw in w.rows
  {
    var link := w.rows[raw].replacedBy;
    match stage
    case Finding(now, claimed) => claimed.Some? && now == rotatedAt && link.None? && raw !in w.cache
    case Minting(now, _) => now == rotatedAt && link.None? && raw !in w.cache
    case Linking(now, _, _) => now == rotatedAt && link.None? && raw !in w.cache
    case Caching(now, token) => now == rotatedAt && link == Some(token) && raw !in w.cache
    case Returning(token) => link == Some(token) && (raw in w.cache ==> w.cache[raw].token == token)
    case Returned(token, via) =>
      via.ByClaim? && link == Some(token) && (raw in w.cache ==> w.cache[raw].token == token)
    case Lost(kept) => raw in w.cache ==> link == Some(w.cache[raw].token)
    case _ => false
  }

  /** `raw` is claimed by `winner` at `rotatedAt`, and by no other call. */
  predicate Rotating(s: State, raw: Token, winner: CallId, rotatedAt: int) {
    && raw in s.world.rows && raw < s.world.next && s.world.rows[raw].revokedAt == Some(rotatedAt)
    && winner in s.calls && s.calls[winner].raw == raw && Progress(s.world, raw, s.calls[winner].stage, rotatedAt)
    && forall k | k in s.calls && s.calls[k].raw == raw && k != winner :: !s.calls[k].stage.Claims()
  }

  /** A claim of an old token that has no successor begins this. */
  lemma ClaimRotates(s: State, winner: CallId)
    requires OneClaimant(s) && winner in s.calls && s.calls[winner].stage.Claiming?
    requires var raw, now := s.calls[winner].raw, s.calls[winner].stage.now;
             Claimable(s.world, raw, now) && s.world.rows[raw].replacedBy.None?
    ensures Rotating(Step(s, Go(winner, {})), s.calls[winner].raw, winner, s.calls[winner].stage.now)
  {
    var raw := s.calls[winner].raw;
    forall k | k in s.calls && s.calls[k].raw == raw
      ensures !s.calls[k].stage.Claims()
    {
      assert Fits(s.world, raw, s.calls[k].stage);
    }
  }

  /** Its cache write leaves the successor there until the grace after the instant of that write, which is later
      than the claim by however long minting and linking took. */
  lemma CacheWritten(s: State, id: CallId)
    requires OneClaimant(s) && id in s.calls && s.calls[id].stage.Caching? && s.calls[id].raw in s.world.rows
    ensures var t, raw := Step(s, Go(id, {})), s.calls[id].raw;
            && Rotating(t, raw, id, s.calls[id].stage.now) && raw in t.world.cache
            && t.world.cache[raw].token == s.calls[id].stage.token
            && t.world.cache[raw].until == s.world.clock + REFRESH_REUSE_GRACE_MS
  {
    var raw, t := s.calls[id].raw, Step(s, Go(id, {}));
    assert Fits(s.world, raw, s.calls[id].stage);
    forall k | k in t.calls && t.calls[k].raw == raw && k != id
      ensures !t.calls[k].stage.Claims()
    {
      assert !(Claimant(s, k, raw) && Claimant(s, id, raw));
    }
  }

  /** The purge does not delete the row on the way. */
  predicate RowStays(s: State, events: seq<Event>, raw: Token)
    decreases events
  {
    events != [] ==> raw in Step(s, events[0]).world.rows && RowStays(Step(s, events[0]), events[1..], raw)
  }

  /** Nothing fails in the call and it does not die. */
  predicate Sound(ev: Event, id: CallId) { ev != Crash(id) && (ev.Go? && ev.id == id ==> ev.faults == {}) }

  /** The winner may die, or fail to read or to cache; it does not hand the claim back. */
  predicate KeepsClaim(ev: Event, winner: CallId) {
    ev.Go? && ev.id == winner ==> Create !in ev.faults && Link !in ev.faults
  }

  lemma RotatingStep(s: State, ev: Event, raw: Token, winner: CallId, rotatedAt: int)
    requires Rotating(s, raw, winner, rotatedAt) && raw in Step(s, ev).world.rows && KeepsClaim(ev, winner)
    ensures Rotating(Step(s, ev), raw, winner, rotatedAt)
    ensures var w, after := s.world, Step(s, ev).world;
            && (w.rows[raw].replacedBy.Some? ==> after.rows[raw].replacedBy == w.rows[raw].replacedBy)
            && (raw in w.cache ==> raw in after.cache && after.cache[raw] == w.cache[raw])
            && (raw !in w.cache && raw in after.cache ==>
                  Writes(s, ev, winner) && after.cache[raw].until == w.clock + REFRESH_REUSE_GRACE_MS)
            && (Writes(s, ev, winner) ==> raw in after.cache)
  {
    if ev.Go? && ev.id in s.calls && s.calls[ev.id].raw == raw {
      assert ev.id != winner ==> !s.calls[ev.id].stage.Claims();
    }
  }

  /** The step with which the winner puts the successor into the cache. */
  predicate Writes(s: State, ev: Event, winner: CallId) {
    ev.Go? && ev.id == winner && winner in s.calls && s.calls[winner].stage.Caching? && CacheSet !in ev.faults
  }

  /** The steps with which the call reads the row, and the cache. */
  predicate Finds(s: State, ev: Event, id: CallId) {
    ev.Go? && ev.id == id && id in s.calls && s.calls[id].stage.Finding?
  }

  predicate Reads(s: State, ev: Event, id: CallId) {
    ev.Go? && ev.id == id && id in s.calls && s.calls[id].stage.Reading?
  }

  /** When the call arrives. */
  function ArrivesAt(s: State, events: seq<Event>, id: CallId): int
    decreases events
  {
    if id in s.calls && (s.calls[id].stage.Claiming? || s.calls[id].stage.Finding?) then s.calls[id].stage.now
    else if events == [] then s.world.clock
    else ArrivesAt(Step(s, events[0]), events[1..], id)
  }

  /** Whether the old token is linked to its successor before the call reads the row. */
  predicate LinkedFirst(s: State, events: seq<Event>, id: CallId, raw: Token)
    decreases events
  {
    || (raw in s.world.rows && s.world.rows[raw].replacedBy.Some?)
    || (events != [] && !Finds(s, events[0], id) && LinkedFirst(Step(s, events[0]), events[1..], id, raw))
  }

  /** When the winner writes the cache, if it does so before the call reads it. */
  function WrittenFirst(s: State, events: seq<Event>, id: CallId, winner: CallId, raw: Token): Option<int>
    decreases events
  {
    if raw in s.world.cache then Some(s.world.cache[raw].until - REFRESH_REUSE_GRACE_MS)
    else if events == [] || Reads(s, events[0], id) then None
    else if Writes(s, events[0], winner) then Some(s.world.clock)
    else WrittenFirst(Step(s, events[0]), events[1..], id, winner, raw)
  }

  /** When the call reads the cache. */
  function ReadsAt(s: State, events: seq<Event>, id: CallId): int
    decreases events
  {
    if events == [] || Reads(s, events[0], id) then s.world.clock else ReadsAt(Step(s, events[0]), events[1..], id)
  }

  /** The entry is there when it is read: written, and not yet at its end. */
  predicate StillHeld(wrote: Option<int>, read: int) {
    wrote.Some? && read < wrote.value + 30_000
  }

  /** What a call past the cache has, and the successor the row has then. */
  predicate HasRead(stage: Stage, held: bool, link: Option<Token>) {
    if held then stage.Returned? && stage.via.ByReplay? && link == Some(stage.token)
    else stage.Issuing? || (stage.Returned? && stage.via.ByFallback?)
  }

  lemma {:induction false} AfterReading(s: State, events: seq<Event>, id: CallId, winner: CallId, raw: Token,
                                        rotatedAt: int, held: bool)
    requires Rotating(s, raw, winner, rotatedAt) && RowStays(s, events, raw) && id in s.calls && id != winner
    requires forall i | 0 <= i < |events| :: Sound(events[i], id) && KeepsClaim(events[i], winner)
    requires HasRead(s.calls[id].stage, held, s.world.rows[raw].replacedBy)
    ensures var t := Run(s, events);
            id in t.calls && raw in t.world.rows && HasRead(t.calls[id].stage, held, t.world.rows[raw].replacedBy)
    decreases events
  {
    hide Rotating;
    if events != [] {
      assert raw in s.world.rows by {
        RotatingHasRow(s, raw, winner, rotatedAt);
      }
      RotatingStep(s, events[0], raw, winner, rotatedAt);
      AfterReading(Step(s, events[0]), events[1..], id, winner, raw, rotatedAt, held);
    } else {
      RotatingHasRow(s, raw, winner, rotatedAt);
    }
  }

  lemma RotatingHasRow(s: State, raw: Token, winner: CallId, rotatedAt: int)
    requires Rotating(s, raw, winner, rotatedAt)
    ensures raw in s.world.rows
  {
  }

  /** From the cache read on: the winner's token exactly when the entry is still held. */
  lemma {:induction false} FromReading(s: State, events: seq<Event>, id: CallId, winner: CallId, raw: Token,
                                       rotatedAt: int)
    requires Rotating(s, raw, winner, rotatedAt) && RowStays(s, events, raw) && id in s.calls && id != winner
    requires forall i | 0 <= i < |events| :: Sound(events[i], id) && KeepsClaim(events[i], winner)
    requires s.calls[id].raw == raw && s.calls[id].stage.Reading? && s.world.rows[raw].replacedBy.Some?
    ensures var t := Run(s, events);
            var held := StillHeld(WrittenFirst(s, events, id, winner, raw), ReadsAt(s, events, id));
            && id in t.calls && raw in t.world.rows
            && (t.calls[id].stage.Reading? || HasRead(t.calls[id].stage, held, t.world.rows[raw].replacedBy))
    decreases events
  {
    if events != [] {
      var ev, next := events[0], Step(s, events[0]);
      RotatingStep(s, ev, raw, winner, rotatedAt);
      if Reads(s, ev, id) {
        var held := StillHeld(WrittenFirst(s, events, id, winner, raw), ReadsAt(s, events, id));
        AfterReading(next, events[1..], id, winner, raw, rotatedAt, held);
      } else {
        FromReading(next, events[1..], id, winner, raw, rotatedAt);
      }
    }
  }

  /** A call that has not got the claim, and has not yet read the row. */
  predicate Late(stage: Stage) { stage.Waiting? || stage.Claiming? || (stage.Finding? && stage.claimed.None?) }

  lemma {:induction false} StaysRejected(s: State, events: seq<Event>, id: CallId)
    requires id in s.calls && s.calls[id].stage == Rejected
    ensures id in Run(s, events).calls && Run(s, events).calls[id].stage == Rejected
    decreases events
  {
    if events != [] {
      StaysRejected(Step(s, events[0]), events[1..], id);
    }
  }

  /** What the call has come to: on its way, or its answer. */
  predicate Comes(stage: Stage, refused: bool, held: bool, link: Option<Token>) {
    || Late(stage) || (refused && stage == Rejected)
    || (!refused && (stage.Reading? || HasRead(stage, held, link)))
  }

  lemma {:induction false} FromArriving(s: State, events: seq<Event>, id: CallId, winner: CallId, raw: Token,
                                        rotatedAt: int)
    requires Rotating(s, raw, winner, rotatedAt) && RowStays(s, events, raw) && id in s.calls && id != winner
    requires forall i | 0 <= i < |events| :: Sound(events[i], id) && KeepsClaim(events[i], winner)
    requires s.calls[id].raw == raw && Late(s.calls[id].stage)
    ensures var t := Run(s, events);
            var refused := !LinkedFirst(s, events, id, raw)
              || ArrivesAt(s, events, id) - rotatedAt > 30_000;
            var held := StillHeld(WrittenFirst(s, events, id, winner, raw), ReadsAt(s, events, id));
            && id in t.calls && raw in t.world.rows
            && Comes(t.calls[id].stage, refused, held, t.world.rows[raw].replacedBy)
    decreases events
  {
    if events != [] {
      var ev, next := events[0], Step(s, events[0]);
      RotatingStep(s, ev, raw, winner, rotatedAt);
      if Finds(s, ev, id) {
        if next.calls[id].stage.Reading? {
          FromReading(next, events[1..], id, winner, raw, rotatedAt);
        } else {
          StaysRejected(next, events[1..], id);
          RowAtEnd(next, events[1..], raw);
        }
      } else {
        FromArriving(next, events[1..], id, winner, raw, rotatedAt);
      }
    }
  }

  lemma {:induction false} RowAtEnd(s: State, events: seq<Event>, raw: Token)
    requires raw in s.world.rows && RowStays(s, events, raw)
    ensures raw in Run(s, events).world.rows
    decreases events
  {
    if events != [] {
      RowAtEnd(Step(s, events[0]), events[1..], raw);
    }
  }

  /** What every call that does not get the claim is answered, in every interleaving and however long each step
      takes, from the claim on and as long as it is not handed back: refused exactly when it reads the row before
      the winner has linked it or arrives more than the grace after the claim; otherwise given the winner's token
      exactly when it reads the cache after the winner wrote it and less than the grace after that; and otherwise
      a session of its own. */
  lemma SendingTheOldTokenAgain(s: State, events: seq<Event>, id: CallId, winner: CallId, rotatedAt: int)
    requires id in s.calls && id != winner && Late(s.calls[id].stage)
    requires Rotating(s, s.calls[id].raw, winner, rotatedAt) && RowStays(s, events, s.calls[id].raw)
    requires forall i | 0 <= i < |events| :: Sound(events[i], id) && KeepsClaim(events[i], winner)
    ensures id in Run(s, events).calls && s.calls[id].raw in Run(s, events).world.rows
    ensures var raw, t := s.calls[id].raw, Run(s, events);
            var stage, successor := t.calls[id].stage, t.world.rows[raw].replacedBy;
            var refused := !LinkedFirst(s, events, id, raw)
              || ArrivesAt(s, events, id) - rotatedAt > 30_000;
            var held := StillHeld(WrittenFirst(s, events, id, winner, raw), ReadsAt(s, events, id));
            stage.Ended() ==>
              && (stage == Rejected <==> refused)
              && (stage.Returned? && stage.via.ByReplay? && successor == Some(stage.token) <==> !refused && held)
              && (stage.Returned? && stage.via.ByFallback? <==> !refused && !held)
  {
    FromArriving(s, events, id, winner, s.calls[id].raw, rotatedAt);
  }

  /** When the claim is handed back instead, with whatever else happens: a call that did not get it is refused, unless
      the token has been claimed anew and linked before it reads the row, which is the case above again. */
  lemma {:induction false} UnlinkedIsRefused(s: State, events: seq<Event>, id: CallId)
    requires id in s.calls && s.calls[id].stage.Finding? && s.calls[id].stage.claimed.None?
    requires forall i | 0 <= i < |events| :: Sound(events[i], id)
    requires !LinkedFirst(s, events, id, s.calls[id].raw)
    ensures id in Run(s, events).calls
    ensures Run(s, events).calls[id].stage in {s.calls[id].stage, Rejected}
    decreases events
  {
    if events != [] {
      var next := Step(s, events[0]);
      if Finds(s, events[0], id) {
        StaysRejected(next, events[1..], id);
      } else {
        UnlinkedIsRefused(next, events[1..], id);
      }
    }
  }

  /** Inside the grace and refused all the same: a call that arrives and reads the row while the winner is still
      minting or linking. */
  lemma EarlyCallIsRefused(s: State, id: CallId, winner: CallId, ms: nat)
    requires id in s.calls && id != winner && s.calls[id].stage.Waiting?
    requires Rotating(s, s.calls[id].raw, winner, s.world.clock)
    requires s.calls[winner].stage.Finding? || s.calls[winner].stage.Minting? || s.calls[winner].stage.Linking?
    ensures var t := Run(s, [Tick(ms), Go(id, {}), Go(id, {}), Go(id, {})]);
            id in t.calls && t.calls[id].stage == Rejected
  {
    var go := Go(id, {});
    var a := Step(s, Tick(ms));
    var b := Step(a, go);
    var c := Step(b, go);
    Four(s, Tick(ms), go, go, go);
    assert c.calls[id].stage == Finding(a.world.clock, None) && c.world == a.world;
  }

  /** Inside the grace, linked, and not given the winner's token all the same: it reads the cache before the winner
      has written it, and mints a session of its own. */
  lemma EarlyCallHasItsOwn(s: State, id: CallId, winner: CallId)
    requires id in s.calls && id != winner && s.calls[id].stage.Waiting?
    requires Rotating(s, s.calls[id].raw, winner, s.world.clock) && s.calls[winner].stage.Caching?
    ensures var t := Run(Run(s, [Go(id, {}), Go(id, {}), Go(id, {}), Go(id, {})]), [Go(id, {})]);
            id in t.calls && t.calls[id].stage == Returned(s.world.next, ByFallback)
  {
    var go, user := Go(id, {}), s.world.rows[s.calls[id].raw].user;
    var a := Step(s, go);
    var b := Step(a, go);
    var c := Step(b, go);
    var d := Step(c, go);
    Four(s, go, go, go, go);
    assert b.calls[id].stage == Finding(s.world.clock, None) && b.world == s.world;
    assert c.calls[id].stage == Reading(user) && c.world == s.world;
    assert d.calls[id].stage == Issuing(user) && d.world == s.world;
    assert [go][1..] == [];
    assert Run(d, [go]) == Run(Step(d, go), []);
  }

  lemma Four(s: State, a: Event, b: Event, c: Event, d: Event)
    ensures Run(s, [a, b, c, d]) == Step(Step(Step(Step(s, a), b), c), d)
  {
    hide Step;
    assert [a, b, c, d][1..] == [b, c, d] && [b, c, d][1..] == [c, d] && [c, d][1..] == [d] && [d][1..] == [];
    assert Run(s, [a, b, c, d]) == Run(Step(s, a), [b, c, d]) == Run(Step(Step(s, a), b), [c, d]);
    var t := Step(Step(s, a), b);
    assert Run(t, [c, d]) == Run(Step(t, c), [d]) == Run(Step(Step(t, c), d), []);
  }

  /** With no time between its steps, and what it leaves: only the last of the three writes a row. */
  lemma AfterRotation(w: World, raw: Token, rotatedAt: int, successor: Token)
    requires raw in w.rows && w.rows[raw].revokedAt == Some(rotatedAt) && w.rows[raw].replacedBy == Some(successor)
    requires raw in w.cache && w.cache[raw].token == successor
    ensures Alone(w, raw, Waiting, {}) ==
              if w.clock - rotatedAt > 30_000 then (Rejected, w)
              else if w.clock < w.cache[raw].until then (Returned(successor, ByReplay), w)
              else (Returned(w.next, ByFallback), Mint(w, w.rows[raw].user, w.clock))
  {
    var u := w.rows[raw].user;
    AloneFrom(w, raw, Waiting, {});
    AloneFrom(w, raw, Claiming(w.clock), {});
    AloneFrom(w, raw, Finding(w.clock, None), {});
    AloneFrom(w, raw, Reading(u), {});
    AloneFrom(w, raw, Issuing(u), {});
  }

  /** When a token is rotated at one instant and sent again at a later one: within the grace its successor is answered,
      at its very end a session of its own, and afterwards it is refused. */
  lemma SentAgainLater(s: State, id: CallId, successor: Token, ms: nat)
    requires id in s.calls && s.calls[id].stage.Waiting? && s.calls[id].raw in s.world.rows
    requires s.world.rows[s.calls[id].raw].revokedAt == Some(s.world.clock)
    requires s.world.rows[s.calls[id].raw].replacedBy == Some(successor)
    requires s.calls[id].raw in s.world.cache
    requires var held := s.world.cache[s.calls[id].raw];
             held.token == successor && held.until == s.world.clock + 30_000
    ensures var t := Run(Run(s, [Tick(ms), Go(id, {}), Go(id, {}), Go(id, {})]), [Go(id, {}), Go(id, {})]);
            && id in t.calls
            && t.calls[id].stage == if ms > 30_000 then Rejected
                                    else if ms < 30_000 then Returned(successor, ByReplay)
                                    else Returned(s.world.next, ByFallback)
  {
    var go, u := Go(id, {}), s.world.rows[s.calls[id].raw].user;
    var a := Step(s, Tick(ms));
    var b := Step(a, go);
    var c := Step(b, go);
    var d := Step(c, go);
    Four(s, Tick(ms), go, go, go);
    assert c.calls[id].stage == Finding(s.world.clock + ms, None) && c.world == a.world;
    assert d.calls[id].stage == (if ms > 30_000 then Rejected else Reading(u)) && d.world == a.world;
    var e := Step(d, go);
    assert e.calls[id].stage == if ms > 30_000 then Rejected
                                else if ms < 30_000 then Returned(successor, ByReplay) else Issuing(u);
    assert [go, go][1..] == [go] && [go][1..] == [];
    assert Run(d, [go, go]) == Run(e, [go]) == Run(Step(e, go), []);
  }

  /** A rotation by its fields, with nothing failing and nothing in between. A token nobody has is refused, and so is
      one that has expired, or was revoked without a successor or more than the grace ago. One that is live is
      revoked, and linked to the one new live token of its user, which is cached for the grace and answered. One that
      was rotated within the grace is answered with what the cache still holds for it, or else a new live token. */
  ghost function Answer(w: World, raw: Token): (Stage, World) {
    if raw !in w.rows then (Rejected, w)
    else
      var row := w.rows[raw];
      var minted := w.(next := w.next + 1, rows := w.rows[w.next := Row(row.user, w.clock + 604_800_000, None, None)]);
      if row.revokedAt.None? then
        if row.expiresAt <= w.clock then (Rejected, w)
        else
          (Returned(w.next, ByClaim),
           minted.(rows := minted.rows[raw := Row(row.user, row.expiresAt, Some(w.clock), Some(w.next))],
                   cache := w.cache[raw := Held(w.next, w.clock + 604_800_000, w.clock + 30_000)]))
      else if row.replacedBy.None? || w.clock - row.revokedAt.value > 30_000 then (Rejected, w)
      else if raw in w.cache && w.clock < w.cache[raw].until then (Returned(w.cache[raw].token, ByReplay), w)
      else (Returned(w.next, ByFallback), minted)
  }

  lemma RotateAnswers(w: World, raw: Token)
    requires forall t | t in w.rows :: t < w.next
    ensures Alone(w, raw, Waiting, {}) == Answer(w, raw)
  {
    if raw in w.rows && w.rows[raw].revokedAt.None? && w.rows[raw].expiresAt > w.clock {
      RotatesOnce(w, raw);
      assert Rotated(w, raw).rows == Answer(w, raw).1.rows;
    } else {
      var now := w.clock;
      AloneFrom(w, raw, Waiting, {});
      AloneFrom(w, raw, Claiming(now), {});
      AloneFrom(w, raw, Finding(now, None), {});
      if raw in w.rows && RotatedJustNow(w.rows[raw], now) {
        AloneFrom(w, raw, Reading(w.rows[raw].user), {});
        AloneFrom(w, raw, Issuing(w.rows[raw].user), {});
      }
    }
  }

  /** A rotation whose successor cannot be minted or linked gives the old token back as it was, with nothing cached;
      what was minted and not linked stays as a second live token. */
  lemma FailedRotationGivesTheTokenBack(w: World, raw: Token, faults: set<Op>)
    requires raw in w.rows && (forall t | t in w.rows :: t < w.next)
    requires w.rows[raw].revokedAt.None? && w.rows[raw].expiresAt > w.clock
    requires Claim !in faults && Find !in faults && HandBack !in faults && (Create in faults || Link in faults)
    ensures Alone(w, raw, Waiting, faults) ==
            (Failed, if Create in faults then w
                     else w.(next := w.next + 1,
                             rows := w.rows[w.next := Row(w.rows[raw].user, w.clock + TTL_MS, None, None)]))
  {
    var u, now := w.rows[raw].user, w.clock;
    AloneFrom(w, raw, Waiting, faults);
    AloneFrom(w, raw, Claiming(now), faults);
    var w1 := w.(rows := w.rows[raw := Revoked(w.rows[raw], now)]);
    AloneFrom(w1, raw, Finding(now, Some(u)), faults);
    AloneFrom(w1, raw, Minting(now, u), faults);
    if Create in faults {
      AloneFrom(w1, raw, HandingBack(u, false), faults);
      assert w1.rows[raw := w1.rows[raw].(revokedAt := None)] == w.rows;
    } else {
      var w2 := Mint(w1, u, now);
      AloneFrom(w2, raw, Linking(now, u, w.next), faults);
      AloneFrom(w2, raw, HandingBack(u, true), faults);
      assert w2.rows[raw := w2.rows[raw].(revokedAt := None)] ==
             w.rows[w.next := Row(w.rows[raw].user, w.clock + TTL_MS, None, None)];
    }
  }

  class RefreshTokens {
    var clock: int
    var next: Token
    var rows: map<Token, Row>
    var cache: map<Token, Held>

    constructor ()
      ensures Valid() && rows == map[] && cache == map[]
    {
      clock, next, rows, cache := 0, 0, map[], map[];
    }

    ghost function View(): World
      reads this
    {
      World(clock, next, rows, cache)
    }

    /** No row was ever written under a token not yet given out. */
    ghost predicate Valid()
      reads this
    {
      forall t | t in rows :: t < next
    }

    /** A token nobody has had: it is the user's one new live token, claimable until its time to live has
        passed, and every other token, with whose it is and whether it lives, and the cache are as before. */
    method Issue(u: User, now: int) returns (token: Token)
      modifies `next, `rows
      ensures token == old(next) && View() == Mint(old(View()), u, now)
      ensures old(Valid()) ==>
                && Valid() && token !in old(rows)
                && LiveTokens(View(), u) == LiveTokens(old(View()), u) + {token}
                && (forall v | v != u :: LiveTokens(View(), v) == LiveTokens(old(View()), v))
                && (forall t | t in old(rows) :: t in rows && rows[t] == old(rows)[t])
                && (forall at :: Claimable(View(), token, at) <==> at < now + TTL_MS)
    {
      token := next;
      rows := rows[token := Row(u, now + TTL_MS, None, None)];
      next := next + 1;
    }

    /** Straight through, `rotate` does what its steps do when nothing interleaves, and answers by the fields of the
        row and the cache when nothing fails. */
    method Rotate(raw: Token, faults: set<Op>) returns (result: Stage)
      modifies `next, `rows, `cache
      ensures (result, View()) == Alone(old(View()), raw, Waiting, faults)
      ensures old(Valid()) && faults == {} ==> (result, View()) == Answer(old(View()), raw)
    {
      var now := clock;
      if Valid() {
        RotateAnswers(View(), raw);
      }
      AloneFrom(View(), raw, Waiting, faults);
      AloneFrom(View(), raw, Claiming(now), faults);
      if Claim in faults {
        return Failed;
      }
      var claimed := raw in rows && rows[raw].revokedAt.None? && rows[raw].expiresAt > now;
      ghost var stage := Finding(now, if claimed then Some(rows[raw].user) else None);
      if claimed {
        rows := rows[raw := Revoked(rows[raw], now)];
      }
      AloneFrom(View(), raw, stage, faults);
      if Find in faults {
        return if claimed then Lost(None) else Failed;
      }
      if raw !in rows {
        return Rejected;
      }
      var user := rows[raw].user;
      if !claimed {
        result := TolerateRace(raw, now, faults);
        return;
      }
      result := Replace(raw, now, user, faults);
    }

    /** The claimed token's successor: minted, linked and cached. */
    method Replace(raw: Token, now: int, user: User, faults: set<Op>) returns (result: Stage)
      requires raw in rows
      modifies `next, `rows, `cache
      ensures (result, View()) == Alone(old(View()), raw, Minting(now, user), faults)
    {
      AloneFrom(View(), raw, Minting(now, user), faults);
      if Create in faults {
        result := HandClaimBack(raw, user, false, faults);
        return;
      }
      var token := Issue(user, now);
      AloneFrom(View(), raw, Linking(now, user, token), faults);
      if Link in faults {
        result := HandClaimBack(raw, user, true, faults);
        return;
      }
      rows := rows[raw := rows[raw].(replacedBy := Some(token))];
      AloneFrom(View(), raw, Caching(now, token), faults);
      if CacheSet !in faults {
        cache := cache[raw := Held(token, now + TTL_MS, clock + REFRESH_REUSE_GRACE_MS)];
      }
      AloneFrom(View(), raw, Returning(token), faults);
      result := Returned(token, ByClaim);
    }

    method HandClaimBack(raw: Token, ghost user: User, ghost minted: bool, faults: set<Op>) returns (result: Stage)
      modifies `rows
      ensures (result, View()) == Alone(old(View()), raw, HandingBack(user, minted), faults)
    {
      AloneFrom(View(), raw, HandingBack(user, minted), faults);
      if HandBack in faults || raw !in rows {
        return Lost(None);
      }
      rows := rows[raw := rows[raw].(revokedAt := None)];
      result := Failed;
    }

    /** A token that could not be claimed: refused, or the loser of a race moments ago. */
    method TolerateRace(raw: Token, now: int, faults: set<Op>) returns (result: Stage)
      requires raw in rows
      modifies `next, `rows
      ensures (result, View()) ==
              if RotatedJustNow(old(rows)[raw], now) then Alone(old(View()), raw, Reading(old(rows)[raw].user), faults)
              else (Rejected, old(View()))
    {
      var current := rows[raw];
      if !(current.revokedAt.Some? && current.replacedBy.Some?
        && now - current.revokedAt.value <= REFRESH_REUSE_GRACE_MS) {
        return Rejected;
      }
      AloneFrom(View(), raw, Reading(current.user), faults);
      if CacheGet in faults {
        return Failed;
      }
      if raw in cache && cache[raw].until > clock {
        return Returned(cache[raw].token, ByReplay);
      }
      AloneFrom(View(), raw, Issuing(current.user), faults);
      if Create in faults {
        return Failed;
      }
      var token := Issue(current.user, clock);
      result := Returned(token, ByFallback);
    }
  }
}
