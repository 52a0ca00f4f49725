/** The idempotency protocol of the offline replay interceptor (agent_events), for one person.

    Every `await` of the source ends a step. A call is a small program counter (`Stage`),
    one `Go` event runs one call to its next `await`, and a run is any sequence of events:
    every interleaving of any number of requests, with crashes, failed writes and the clock. */
module Replay {
  import opened Options
  import opened ReplayDay

  type EventId = string
  type CallId = nat
  type Body = string
  type Status = n: int | 100 <= n < 600 witness 200

  const LIVE_WINDOW_MS := 30_000
  const MAX_AHEAD_MS := 600_000
  const MAX_AGE_MS := 604_800_000
  const ORDER_TOLERANCE_MS := 60_000
  const STALE_PLACEHOLDER_MS := 120_000
  const KEEP_MS := 2_592_000_000
  const IN_PROGRESS_BODY: Body := "EVENT_IN_PROGRESS"

  /** X-Event-At: missing (or empty), not a date, or an instant. */
  datatype Header = NoTime | Unreadable | At(ms: int)

  /** `timed`: the route is replayed and the sender is an offline agent, so X-Event-At is read.
      `kind`: the method and route as they are stored; `compared`: the kinds of the replayed actions under the
      prefix of this request's own route, which its order check looks at.
      `inOrg`: the person belongs to an organisation, so months can be locked. */
  datatype Request = Request(event: EventId, timed: bool, header: Header, kind: string, compared: set<string>,
                             inOrg: bool)

  datatype Reply = InProgress | Settled(status: Status, body: Body)
  datatype Row = Row(kind: string, eventAt: int, receivedAt: int, reply: Reply)
  type Table = map<EventId, Row>

  datatype Outcome = Succeeds(body: Body) | Fails(status: Status, body: Body)

  /** Everything a step takes from outside. `reopens`: an automatically closed day was reopened for the action. */
  datatype Env = Env(monthLocked: bool, reopenFails: bool, reopens: bool, outcome: Outcome, restoreFails: bool,
                     writeFails: bool)

  datatype Stage =
    | Waiting
    | Looking(now: int, at: int)
    | Clearing(now: int, at: int)
    | Ordering(at: int)
    | CheckingMonth(at: int)
    | Placing(at: int, replay: bool)
    | Reopening(at: int)
    | Handling(at: int, reopened: bool)
    | Restoring(at: int, status: Status, body: Body)
    | Finishing(at: int, status: Status, body: Body)
    | Forgetting(at: int)
    | Answered(status: Status, body: Body)
    | Refused(reason: Status)
    | Stored(at: int, status: Status, body: Body)
    | Dropped(at: int)
    | Stuck(at: int)
    | Gone
  {
    /** Still inside `begin`. */
    predicate Beginning() {
      Waiting? || Looking? || Clearing? || Ordering? || CheckingMonth? || Placing? || Reopening?
    }

    /** The placeholder is this call's and it has not been settled or forgotten. */
    predicate Holds() { Reopening? || Handling? || Restoring? || Finishing? || Forgetting? }

    /** Holds the placeholder, or died leaving it behind. */
    predicate Keeps() { Holds() || Stuck? }

    /** Or has stored its answer in it. */
    predicate Owns() { Keeps() || Stored? }

    /** The call has fixed its event time and passed the order check. */
    predicate Timed() {
      || CheckingMonth? || Placing? || Reopening? || Handling? || Restoring? || Finishing? || Forgetting?
      || Stored? || Dropped? || Stuck?
    }

    function EventAt(): int
      requires Timed()
    {
      at
    }

    function Rank(): nat {
      match this
      case Waiting => 10
      case Looking(_, _) => 9
      case Clearing(_, _) => 8
      case Ordering(_) => 7
      case CheckingMonth(_) => 6
      case Placing(_, _) => 5
      case Reopening(_) => 4
      case Handling(_, _) => 3
      case Restoring(_, _, _) => 2
      case Finishing(_, _, _) => 1
      case Forgetting(_) => 1
      case _ => 0
    }
  }

  datatype Call = Call(req: Request, stage: Stage)
  datatype State = State(clock: int, rows: Table, calls: map<CallId, Call>)
  datatype Event = Go(id: CallId, env: Env) | Crash(victim: CallId) | Tick(ms: nat) | CleanUp

  // ---- the source's steps ----

  predicate IsHex(c: char) { '0' <= c <= '9' || 'a' <= c <= 'f' || 'A' <= c <= 'F' }

  predicate IsUuid(s: EventId) {
    |s| == 36 && forall i | 0 <= i < 36 :: if i in {8, 13, 18, 23} then s[i] == '-' else IsHex(s[i])
  }

  const HEX_DIGITS := "0123456789abcdefABCDEF"

  predicate AllHex(s: string) { forall i | 0 <= i < |s| :: s[i] in HEX_DIGITS }

  lemma HexDigits(c: char)
    ensures IsHex(c) <==> c in HEX_DIGITS
  {
    assert HEX_DIGITS[0..10] == "0123456789" && HEX_DIGITS[10..16] == "abcdef" && HEX_DIGITS[16..] == "ABCDEF";
    assert forall k | 0 <= k < 22 ::
        HEX_DIGITS[k] as int == (if k < 10 then '0' as int + k else if k < 16 then 'a' as int + k - 10
                                 else 'A' as int + k - 16);
    if '0' <= c <= '9' {
      assert HEX_DIGITS[c as int - '0' as int] == c;
    } else if 'a' <= c <= 'f' {
      assert HEX_DIGITS[10 + (c as int - 'a' as int)] == c;
    } else if 'A' <= c <= 'F' {
      assert HEX_DIGITS[16 + (c as int - 'A' as int)] == c;
    }
  }

  /** Eight hexadecimal digits, three times four and twelve, with dashes between them, in either case. */
  lemma UuidIs(s: EventId)
    ensures IsUuid(s) <==>
            && |s| == 36 && s == s[..8] + "-" + s[9..13] + "-" + s[14..18] + "-" + s[19..23] + "-" + s[24..]
            && AllHex(s[..8]) && AllHex(s[9..13]) && AllHex(s[14..18]) && AllHex(s[19..23]) && AllHex(s[24..])
  {
    hide IsHex;
    forall c: char
      ensures IsHex(c) <==> c in HEX_DIGITS
    {
      HexDigits(c);
    }
    if |s| == 36 {
      var t := s[..8] + "-" + s[9..13] + "-" + s[14..18] + "-" + s[19..23] + "-" + s[24..];
      assert |t| == 36 && t[8] == '-' && t[13] == '-' && t[18] == '-' && t[23] == '-';
      assert forall i | 0 <= i < 36 && i !in {8, 13, 18, 23} :: t[i] == s[i];
      if IsUuid(s) {
        assert s == t;
      } else if s == t && AllHex(s[..8]) && AllHex(s[9..13]) && AllHex(s[14..18]) && AllHex(s[19..23])
        && AllHex(s[24..]) {
        forall i | 0 <= i < 36
          ensures if i in {8, 13, 18, 23} then s[i] == '-' else IsHex(s[i])
        {
          if i < 8 {
            assert s[i] == s[..8][i];
          } else if 8 < i < 13 {
            assert s[i] == s[9..13][i - 9];
          } else if 13 < i < 18 {
            assert s[i] == s[14..18][i - 14];
          } else if 18 < i < 23 {
            assert s[i] == s[19..23][i - 19];
          } else if i > 23 {
            assert s[i] == s[24..][i - 24];
          }
        }
      }
    }
  }

  /** A failed action's answer is kept below 500, and its placeholder dropped from 500 on. */
  function Settle(at: int, status: Status, body: Body): Stage {
    if status < 500 then Finishing(at, status, body) else Forgetting(at)
  }

  predicate HeldBack(rows: Table, e: EventId) { e in rows && rows[e].reply.InProgress? }

  /** deleteMany where status is in progress: never removes a settled row. */
  function Forget(rows: Table, e: EventId): Table {
    if HeldBack(rows, e) then rows - {e} else rows
  }

  /** The age and future limits, and whether the request replays. */
  function Judge(now: int, at: int): Stage {
    var ahead := at - now;
    if ahead > MAX_AHEAD_MS || -ahead > MAX_AGE_MS then Refused(422)
    else
      var eventAt := if ahead > 0 then now else at;
      if now - eventAt > LIVE_WINDOW_MS then Ordering(eventAt) else Placing(eventAt, false)
  }

  /** Some settled action of the compared kinds lies more than the tolerance after `at`. */
  predicate OutOfOrder(rows: Table, compared: set<string>, at: int) {
    exists e | e in rows ::
      rows[e].reply.Settled? && rows[e].kind in compared && at < rows[e].eventAt - ORDER_TOLERANCE_MS
  }

  predicate InOrder(rows: Table, q: Request, at: int) { !OutOfOrder(rows, q.compared, at) }

  /** The nightly cleanup: rows received more than 30 days ago are deleted, whatever their state. */
  predicate Expired(row: Row, now: int) { row.receivedAt < now - KEEP_MS }

  function Cleaned(rows: Table, now: int): Table { map e | e in rows && !Expired(rows[e], now) :: rows[e] }

  /** The time the request says it happened at: the header's when it is read, else the server's. */
  function SentAt(clock: int, q: Request): int { if q.timed && q.header.At? then q.header.ms else clock }

  function Arrive(clock: int, q: Request): Stage {
    if !IsUuid(q.event) then Refused(400)
    else if q.timed && q.header.Unreadable? then Refused(422)
    else Looking(clock, SentAt(clock, q))
  }

  function LookUp(rows: Table, e: EventId, now: int, at: int): Stage {
    if e !in rows then Judge(now, at)
    else match rows[e].reply
      case Settled(status, body) => Answered(status, body)
      case InProgress =>
        if now - rows[e].receivedAt < STALE_PLACEHOLDER_MS then Answered(409, IN_PROGRESS_BODY) else Clearing(now, at)
  }

  /** One call runs to its next await; a call that has ended stays as it is. What changes is the
      call's stage and the table. */
  function Act(clock: int, rows: Table, q: Request, stage: Stage, env: Env): (Stage, Table) {
    match stage
    case Waiting => (Arrive(clock, q), rows)
    case Looking(now, at) => (LookUp(rows, q.event, now, at), rows)
    case Clearing(now, at) => (Judge(now, at), Forget(rows, q.event))
    case Ordering(at) => (if OutOfOrder(rows, q.compared, at) then Refused(422) else CheckingMonth(at), rows)
    case CheckingMonth(at) => (if q.inOrg && env.monthLocked then Refused(409) else Placing(at, true), rows)
    case Placing(at, replay) =>
      if q.event in rows then (Answered(409, IN_PROGRESS_BODY), rows)
      else (if replay then Reopening(at) else Handling(at, false),
            rows[q.event := Row(q.kind, at, clock, InProgress)])
    case Reopening(at) => (if env.reopenFails then Forgetting(at) else Handling(at, env.reopens), rows)
    case Handling(at, reopened) =>
      (match env.outcome
       case Succeeds(body) => (Finishing(at, 200, body), rows)
       case Fails(status, body) => (if reopened then Restoring(at, status, body) else Settle(at, status, body), rows))
    case Restoring(at, status, body) => (Settle(at, status, body), rows)
    case Finishing(at, status, body) =>
      if env.writeFails || q.event !in rows then (Stuck(at), rows)
      else (Stored(at, status, body), rows[q.event := rows[q.event].(reply := Settled(status, body))])
    case Forgetting(at) => if env.writeFails then (Stuck(at), rows) else (Dropped(at), Forget(rows, q.event))
    case _ => (stage, rows)
  }

  function Move(s: State, id: CallId, next: (Stage, Table)): State
    requires id in s.calls
  {
    s.(rows := next.1, calls := s.calls[id := s.calls[id].(stage := next.0)])
  }

  /** The process dies in the middle of a call: whatever it held stays. */
  function Die(stage: Stage): Stage {
    if stage.Holds() then Stuck(stage.EventAt())
    else if stage.Beginning() then Gone
    else stage
  }

  function Step(s: State, ev: Event): State {
    match ev
    case Go(id, env) =>
      if id in s.calls then Move(s, id, Act(s.clock, s.rows, s.calls[id].req, s.calls[id].stage, env)) else s
    case Crash(id) => if id in s.calls then Move(s, id, (Die(s.calls[id].stage), s.rows)) else s
    case Tick(ms) => s.(clock := s.clock + ms)
    case CleanUp => s.(rows := Cleaned(s.rows, s.clock))
  }

  function Run(s: State, events: seq<Event>): State
    decreases events
  {
    if events == [] then s else Run(Step(s, events[0]), events[1..])
  }

  /** The person's table is empty and no request has begun. */
  predicate Initial(s: State) {
    s.rows == map[] && forall id | id in s.calls :: s.calls[id].stage.Waiting?
  }

  /** The step finds a placeholder of the event old enough to be taken over. */
  predicate FindsStale(s: State, ev: Event, e: EventId) {
    ev.Go? && ev.id in s.calls &&
    var c := s.calls[ev.id];
    c.req.event == e && c.stage.Looking? && HeldBack(s.rows, e) &&
    c.stage.now - s.rows[e].receivedAt >= STALE_PLACEHOLDER_MS
  }

  /** The step is a cleanup that deletes the event's row. */
  predicate CleansAway(s: State, ev: Event, e: EventId) {
    ev.CleanUp? && e in s.rows && Expired(s.rows[e], s.clock)
  }

  /** The step takes no placeholder of the event away; with `kept`, nor its stored answer. */
  predicate Leaves(s: State, ev: Event, e: EventId, kept: bool) {
    !FindsStale(s, ev, e) && !(CleansAway(s, ev, e) && (kept || HeldBack(s.rows, e)))
  }

  /** No step of the run finds a stale placeholder of the event or deletes one; with `kept`, nor its stored answer.
      Those of other events may be taken over and deleted. */
  predicate Calm(s: State, events: seq<Event>, e: EventId, kept: bool)
    decreases events
  {
    events == [] || (Leaves(s, events[0], e, kept) && Calm(Step(s, events[0]), events[1..], e, kept))
  }

  // ---- one owner per event ----

  predicate Owner(s: State, id: CallId, e: EventId, kept: bool) {
    && id in s.calls && s.calls[id].req.event == e
    && (if kept then s.calls[id].stage.Owns() else s.calls[id].stage.Keeps())
  }

  /** What the table says of a call's event, given the call's stage. */
  predicate Fits(rows: Table, e: EventId, stage: Stage, kept: bool) {
    && !stage.Clearing?
    && (kept && stage.Stored? ==> e in rows && rows[e].reply == Settled(stage.status, stage.body))
    && (stage.Keeps() ==> HeldBack(rows, e))
  }

  ghost predicate OneOwner(s: State, e: EventId, kept: bool) {
    && (forall id | id in s.calls && s.calls[id].req.event == e :: Fits(s.rows, e, s.calls[id].stage, kept))
    && (forall a, b | Owner(s, a, e, kept) && Owner(s, b, e, kept) :: a == b)
  }

  /** A step writes only its own event's row. */
  lemma ActFrame(clock: int, rows: Table, q: Request, stage: Stage, env: Env)
    ensures Act(clock, rows, q, stage, env).1 - {q.event} == rows - {q.event}
  {
  }

  /** And that row only as its holder or into an empty place. */
  lemma ActOwns(clock: int, rows: Table, q: Request, stage: Stage, env: Env, kept: bool)
    requires Fits(rows, q.event, stage, kept)
    requires !(stage.Looking? && HeldBack(rows, q.event)
               && stage.now - rows[q.event].receivedAt >= STALE_PLACEHOLDER_MS)
    ensures var (next, after) := Act(clock, rows, q, stage, env);
            && Fits(after, q.event, next, kept)
            && (next.Keeps() ==> stage.Keeps() || q.event !in rows)
            && (next.Owns() ==> stage.Owns() || q.event !in rows)
            && (after != rows ==> stage.Holds() || q.event !in rows)
  {
  }

  /** Another event's step leaves the event's row as it is. */
  lemma OtherEvent(s: State, ev: Event, e: EventId)
    requires ev.Go? && ev.id in s.calls && s.calls[ev.id].req.event != e
    ensures e in Step(s, ev).rows <==> e in s.rows
    ensures e in s.rows ==> Step(s, ev).rows[e] == s.rows[e]
  {
    var q := s.calls[ev.id].req;
    ActFrame(s.clock, s.rows, q, s.calls[ev.id].stage, ev.env);
    SameElsewhere(s.rows, Step(s, ev).rows, q.event, e);
  }

  lemma SameElsewhere(rows: Table, after: Table, e: EventId, other: EventId)
    requires after - {e} == rows - {e} && other != e
    ensures other in after <==> other in rows
    ensures other in rows ==> after[other] == rows[other]
  {
    assert other in after - {e} <==> other in rows - {e};
    assert other in rows ==> after[other] == (after - {e})[other] == (rows - {e})[other];
  }

  lemma OneOwnerGo(s: State, ev: Event, e: EventId, kept: bool)
    requires OneOwner(s, e, kept) && !FindsStale(s, ev, e)
    requires ev.Go? && ev.id in s.calls
    ensures OneOwner(Step(s, ev), e, kept)
  {
    hide Act;
    var q, t := s.calls[ev.id].req, Step(s, ev);
    if q.event == e {
      ActOwns(s.clock, s.rows, q, s.calls[ev.id].stage, ev.env, kept);
    } else {
      OtherEvent(s, ev, e);
    }
    forall id | id in t.calls && t.calls[id].req.event == e
      ensures Fits(t.rows, e, t.calls[id].stage, kept)
    {
      if id != ev.id {
        assert Fits(s.rows, e, s.calls[id].stage, kept);
        assert !(Owner(s, id, e, kept) && Owner(s, ev.id, e, kept));
      }
    }
    forall a, b | Owner(t, a, e, kept) && Owner(t, b, e, kept)
      ensures a == b
    {
      assert Owner(s, a, e, kept) && Owner(s, b, e, kept) ==> a == b;
    }
  }

  lemma OneOwnerStep(s: State, ev: Event, e: EventId, kept: bool)
    requires OneOwner(s, e, kept) && Leaves(s, ev, e, kept)
    ensures OneOwner(Step(s, ev), e, kept)
  {
    if ev.Go? && ev.id in s.calls {
      OneOwnerGo(s, ev, e, kept);
    } else {
      var t := Step(s, ev);
      forall id | id in t.calls && t.calls[id].req.event == e
        ensures Fits(t.rows, e, t.calls[id].stage, kept)
      {
        assert Fits(s.rows, e, s.calls[id].stage, kept);
      }
      forall a, b | Owner(t, a, e, kept) && Owner(t, b, e, kept)
        ensures a == b
      {
        assert Owner(s, a, e, kept) && Owner(s, b, e, kept);
      }
    }
  }

  /** The event has one owner through every run that takes no placeholder of it away. */
  lemma {:induction false} OneOwnerRun(s: State, events: seq<Event>, e: EventId, kept: bool)
    requires OneOwner(s, e, kept) && Calm(s, events, e, kept)
    ensures OneOwner(Run(s, events), e, kept)
    decreases events
  {
    if events != [] {
      OneOwnerStep(s, events[0], e, kept);
      OneOwnerRun(Step(s, events[0]), events[1..], e, kept);
    }
  }

  lemma InitialOneOwner(s: State, e: EventId, kept: bool)
    requires Initial(s)
    ensures OneOwner(s, e, kept)
  {
  }

  /** In every interleaving in which no placeholder of this event goes stale or is cleaned up, whatever becomes of
      other events, at most one copy of it ever holds the placeholder, runs its handler or dies with it: handlers
      of one event never overlap. And as long as the cleanup does not delete the stored answer either, at most one
      copy ever settles. */
  lemma MutualExclusion(s: State, events: seq<Event>, e: EventId, kept: bool, a: CallId, b: CallId)
    requires Initial(s) && Calm(s, events, e, kept)
    requires a in Run(s, events).calls && b in Run(s, events).calls && a != b
    requires Run(s, events).calls[a].req.event == e == Run(s, events).calls[b].req.event
    ensures var x, y := Run(s, events).calls[a].stage, Run(s, events).calls[b].stage;
            && (x.Reopening? || x.Handling? || x.Restoring? || x.Finishing? || x.Forgetting? || x.Stuck? ==>
                  !(y.Reopening? || y.Handling? || y.Restoring? || y.Finishing? || y.Forgetting? || y.Stuck?)
                  && !(kept && y.Stored?))
            && (kept && x.Stored? ==> !y.Stored?)
  {
    InitialOneOwner(s, e, kept);
    OneOwnerRun(s, events, e, kept);
    assert !(Owner(Run(s, events), a, e, kept) && Owner(Run(s, events), b, e, kept));
  }

  // ---- a stored answer is the answer ----

  /** What a copy is refused with before the table is looked at, if it is. */
  function RefusedUnread(q: Request): Option<Status> {
    if !IsUuid(q.event) then Some(400)
    else if q.timed && q.header.Unreadable? then Some(422)
    else None
  }

  /** How far a copy that began after the answer was stored can get. */
  predicate AnswersOnly(q: Request, stage: Stage, status: Status, body: Body) {
    || stage.Waiting? || stage.Gone?
    || (if RefusedUnread(q).Some? then stage == Refused(RefusedUnread(q).value)
        else stage.Looking? || stage == Answered(status, body))
  }

  /** While the answer is stored no placeholder of the event can go stale: there is none. */
  lemma SettledStep(s: State, ev: Event, e: EventId)
    requires OneOwner(s, e, false) && e in s.rows && s.rows[e].reply.Settled? && !CleansAway(s, ev, e)
    ensures e in Step(s, ev).rows && Step(s, ev).rows[e] == s.rows[e]
    ensures OneOwner(Step(s, ev), e, false)
  {
    hide OneOwner;
    OneOwnerStep(s, ev, e, false);
    if ev.Go? && ev.id in s.calls {
      SettledGo(s, ev, e);
    }
  }

  lemma SettledGo(s: State, ev: Event, e: EventId)
    requires OneOwner(s, e, false) && e in s.rows && s.rows[e].reply.Settled?
    requires ev.Go? && ev.id in s.calls
    ensures e in Step(s, ev).rows && Step(s, ev).rows[e] == s.rows[e]
  {
    hide Act;
    var c := s.calls[ev.id];
    if c.req.event != e {
      OtherEvent(s, ev, e);
    } else {
      ActOwns(s.clock, s.rows, c.req, c.stage, ev.env, false);
    }
  }

  /** Until some instant the stored answer is not old enough to be deleted. */
  predicate KeptUntil(s: State, events: seq<Event>, e: EventId)
    requires e in s.rows
  {
    Run(s, events).clock <= s.rows[e].receivedAt + 2_592_000_000
  }

  lemma {:induction false} ClockGoesOn(s: State, events: seq<Event>)
    ensures s.clock <= Run(s, events).clock
    decreases events
  {
    if events != [] {
      ClockGoesOn(Step(s, events[0]), events[1..]);
    }
  }

  /** Once an event has a stored answer, nothing that happens to any event changes it for 30 days from when the
      placeholder was received, and every copy that begins later and within them answers exactly that status and
      body and never reaches the handler; but one whose event id is no UUID, or whose time cannot be read, is
      refused before the table is looked at. */
  lemma {:induction false} StoredAnswerStands(s: State, events: seq<Event>, id: CallId, e: EventId)
    requires OneOwner(s, e, false) && e in s.rows && s.rows[e].reply.Settled? && KeptUntil(s, events, e)
    requires id in s.calls && s.calls[id].req.event == e
    requires AnswersOnly(s.calls[id].req, s.calls[id].stage, s.rows[e].reply.status, s.rows[e].reply.body)
    ensures id in Run(s, events).calls && Run(s, events).calls[id].req == s.calls[id].req
    ensures AnswersOnly(s.calls[id].req, Run(s, events).calls[id].stage, s.rows[e].reply.status, s.rows[e].reply.body)
    ensures e in Run(s, events).rows && Run(s, events).rows[e] == s.rows[e]
    decreases events
  {
    if events != [] {
      ClockGoesOn(s, events);
      SettledStep(s, events[0], e);
      StillAnswersOnly(s, events[0], id, e);
      StoredAnswerStands(Step(s, events[0]), events[1..], id, e);
    }
  }

  lemma StillAnswersOnly(s: State, ev: Event, id: CallId, e: EventId)
    requires e in s.rows && s.rows[e].reply.Settled?
    requires id in s.calls && s.calls[id].req.event == e
    requires AnswersOnly(s.calls[id].req, s.calls[id].stage, s.rows[e].reply.status, s.rows[e].reply.body)
    ensures id in Step(s, ev).calls && Step(s, ev).calls[id].req == s.calls[id].req
    ensures AnswersOnly(s.calls[id].req, Step(s, ev).calls[id].stage, s.rows[e].reply.status, s.rows[e].reply.body)
  {
    hide IsUuid;
  }

  lemma {:induction false} RunSplits(s: State, before: seq<Event>, after: seq<Event>)
    ensures Run(s, before + after) == Run(Run(s, before), after)
    decreases before
  {
    if before == [] {
      assert before + after == after;
    } else {
      assert (before + after)[0] == before[0] && (before + after)[1..] == before[1..] + after;
      RunSplits(Step(s, before[0]), before[1..], after);
    }
  }

  /** The promise of the header comment over whole runs: the first copy's stored answer is what every later
      copy of the event answers, whatever else happens in between, for 30 days. */
  lemma RepeatsAnswerTheFirst(s: State, before: seq<Event>, after: seq<Event>, id: CallId, e: EventId)
    requires Initial(s) && Calm(s, before, e, false)
    requires e in Run(s, before).rows && Run(s, before).rows[e].reply.Settled?
    requires id in Run(s, before).calls && Run(s, before).calls[id].req.event == e
    requires Run(s, before).calls[id].stage.Waiting? && KeptUntil(Run(s, before), after, e)
    ensures id in Run(s, before + after).calls
    ensures AnswersOnly(Run(s, before).calls[id].req, Run(s, before + after).calls[id].stage,
                        Run(s, before).rows[e].reply.status, Run(s, before).rows[e].reply.body)
  {
    RunSplits(s, before, after);
    InitialOneOwner(s, e, false);
    OneOwnerRun(s, before, e, false);
    StoredAnswerStands(Run(s, before), after, id, e);
  }

  lemma RunTwo(s: State, a: Event, b: Event)
    ensures Run(s, [a, b]) == Step(Step(s, a), b)
  {
    assert [a, b][1..] == [b] && [b][1..] == [];
    assert Run(s, [a, b]) == Run(Step(s, a), [b]);
    assert Run(Step(s, a), [b]) == Run(Step(Step(s, a), b), []);
  }

  /** Where the promise ends: of the repeats of a settled event, the one that answers something else than the
      stored answer is exactly the one whose time has to be read and cannot be. It gets 422. */
  lemma UnreadableRepeat(s: State, id: CallId, env: Env)
    requires id in s.calls && s.calls[id].stage.Waiting? && IsUuid(s.calls[id].req.event)
    requires s.calls[id].req.event in s.rows && s.rows[s.calls[id].req.event].reply.Settled?
    ensures var q, t, reply := s.calls[id].req, Run(s, [Go(id, env), Go(id, env)]), s.rows[s.calls[id].req.event].reply;
            && id in t.calls
            && (t.calls[id].stage == Refused(422) <==> q.timed && q.header.Unreadable?)
            && (t.calls[id].stage == Answered(reply.status, reply.body) <==> !(q.timed && q.header.Unreadable?))
  {
    hide IsUuid;
    RunTwo(s, Go(id, env), Go(id, env));
  }

  // ---- where exclusion ends ----

  /** Everything but the placeholder lets the request through to its handler: it can be read, its time is
      neither ahead nor too old, and, when that time makes it a replay, it is in order, its month is open
      and the day it belongs to could be looked at. */
  predicate Admitted(clock: int, rows: Table, q: Request, env: Env) {
    && RefusedUnread(q).None?
    && var at := SentAt(clock, q);
    && clock - MAX_AGE_MS <= at <= clock + MAX_AHEAD_MS
    && (at < clock - LIVE_WINDOW_MS ==> InOrder(rows, q, at) && !(q.inOrg && env.monthLocked) && !env.reopenFails)
  }

  /** A call's own steps until its `begin` has ended. */
  function BeginSteps(s: State, id: CallId, env: Env): seq<Event>
    requires id in s.calls
    decreases s.calls[id].stage.Rank()
  {
    if s.calls[id].stage.Beginning() then [Go(id, env)] + BeginSteps(Step(s, Go(id, env)), id, env) else []
  }

  /** Running them is running `begin` alone. */
  lemma {:induction false} BeginStepsRun(s: State, id: CallId, env: Env)
    requires id in s.calls
    ensures var t := Run(s, BeginSteps(s, id, env));
            && t.calls.Keys == s.calls.Keys && t.clock == s.clock
            && (t.calls[id].stage, t.rows) == UntilBegun(s.clock, s.rows, s.calls[id].req, s.calls[id].stage, env)
            && forall k | k in s.calls && k != id :: t.calls[k] == s.calls[k]
    decreases s.calls[id].stage.Rank()
  {
    hide Act;
    if s.calls[id].stage.Beginning() {
      ActRanks(s.clock, s.rows, s.calls[id].req, s.calls[id].stage, env);
      var next := Step(s, Go(id, env));
      BeginStepsRun(next, id, env);
      assert ([Go(id, env)] + BeginSteps(next, id, env))[1..] == BeginSteps(next, id, env);
    }
  }

  lemma ActRanks(clock: int, rows: Table, q: Request, stage: Stage, env: Env)
    requires stage.Beginning()
    ensures Act(clock, rows, q, stage, env).0.Rank() < stage.Rank()
  {
  }

  /** A call's own steps until its `begin` has ended, as one function of the table. */
  function UntilBegun(clock: int, rows: Table, q: Request, stage: Stage, env: Env): (Stage, Table)
    decreases stage.Rank()
  {
    if stage.Beginning() then
      var (next, after) := Act(clock, rows, q, stage, env);
      UntilBegun(clock, after, q, next, env)
    else (stage, rows)
  }

  lemma UntilBegunFrom(clock: int, rows: Table, q: Request, stage: Stage, env: Env)
    requires stage.Beginning()
    ensures UntilBegun(clock, rows, q, stage, env) ==
            UntilBegun(clock, Act(clock, rows, q, stage, env).1, q, Act(clock, rows, q, stage, env).0, env)
  {
  }

  lemma ForgottenKeepsOrder(rows: Table, e: EventId, compared: set<string>, at: int)
    ensures OutOfOrder(Forget(rows, e), compared, at) <==> OutOfOrder(rows, compared, at)
  {
    if OutOfOrder(rows, compared, at) {
      var k :| k in rows && rows[k].reply.Settled? && rows[k].kind in compared
        && at < rows[k].eventAt - ORDER_TOLERANCE_MS;
      assert k in Forget(rows, e);
    }
  }

  /** From a judged request with no placeholder in its way: the handler exactly when it is admitted. */
  lemma JudgedBegins(clock: int, rows: Table, q: Request, judged: Stage, env: Env)
    requires judged.Refused? || judged.Ordering? || judged.Placing?
    requires q.event !in rows && (judged.Placing? ==> !judged.replay)
    ensures UntilBegun(clock, rows, q, judged, env).0.Handling? <==>
            && !judged.Refused?
            && (judged.Ordering? ==> InOrder(rows, q, judged.at) && !(q.inOrg && env.monthLocked) && !env.reopenFails)
  {
    if judged.Ordering? {
      UntilBegunFrom(clock, rows, q, judged, env);
      if !OutOfOrder(rows, q.compared, judged.at) {
        UntilBegunFrom(clock, rows, q, CheckingMonth(judged.at), env);
        if !(q.inOrg && env.monthLocked) {
          UntilBegunFrom(clock, rows, q, Placing(judged.at, true), env);
          var placed := rows[q.event := Row(q.kind, judged.at, clock, InProgress)];
          UntilBegunFrom(clock, placed, q, Reopening(judged.at), env);
        }
      }
    } else if judged.Placing? {
      UntilBegunFrom(clock, rows, q, judged, env);
    }
  }

  /** Exactly when exclusion breaks: while one copy's handler runs, a second copy, live or replayed at its own
      time, reaches its own handler if and only if it is admitted and the placeholder is at least two
      minutes old when it arrives. Before that a copy that can be read answers 409. */
  lemma StalePlaceholderIsTheGuard(s: State, first: CallId, second: CallId, env: Env)
    requires first in s.calls && second in s.calls
    requires s.calls[first].stage.Handling? && s.calls[second].stage.Waiting?
    requires s.calls[first].req.event == s.calls[second].req.event
    requires HeldBack(s.rows, s.calls[second].req.event)
    ensures var q, t := s.calls[second].req, Run(s, BeginSteps(s, second, env));
            var stale := s.clock - s.rows[q.event].receivedAt >= 120_000;
            && first in t.calls && second in t.calls && t.calls[first].stage.Handling?
            && (t.calls[second].stage.Handling? <==> stale && Admitted(s.clock, s.rows, q, env))
            && (!stale && RefusedUnread(q).None? ==> t.calls[second].stage == Answered(409, IN_PROGRESS_BODY))
  {
    hide IsUuid;
    hide Admitted;
    BeginStepsRun(s, second, env);
    SecondCopy(s.clock, s.rows, s.calls[second].req, env);
  }

  /** So of a placeholder just received the guard ends after two minutes, and not a millisecond before. */
  lemma TwoMinutesLater(s: State, first: CallId, second: CallId, ms: nat, env: Env)
    requires first in s.calls && second in s.calls
    requires s.calls[first].stage.Handling? && s.calls[second].stage.Waiting?
    requires s.calls[first].req.event == s.calls[second].req.event
    requires HeldBack(s.rows, s.calls[second].req.event)
    requires s.rows[s.calls[second].req.event].receivedAt == s.clock
    ensures var q, later := s.calls[second].req, Step(s, Tick(ms));
            var t := Run(later, BeginSteps(later, second, env));
            && first in t.calls && second in t.calls && t.calls[first].stage.Handling?
            && (t.calls[second].stage.Handling? <==> ms >= 120_000 && Admitted(s.clock + ms, s.rows, q, env))
            && (ms < 120_000 && RefusedUnread(q).None? ==>
                  t.calls[second].stage == Answered(409, "EVENT_IN_PROGRESS"))
  {
    hide Admitted;
    hide IsUuid;
    hide Run;
    hide BeginSteps;
    StalePlaceholderIsTheGuard(Step(s, Tick(ms)), first, second, env);
  }

  /** What a repeat meets once the cleanup has deleted the answer: one that sends the time of its action again is
      refused as too old, and any other that can be read runs its handler again. */
  lemma RepeatAfterCleanUp(s: State, id: CallId, env: Env)
    requires id in s.calls && s.calls[id].stage.Waiting? && RefusedUnread(s.calls[id].req).None?
    requires var q := s.calls[id].req;
             && CleansAway(s, CleanUp, q.event)
             && (q.timed && q.header.At? ==> q.header.ms <= s.rows[q.event].receivedAt + 600_000)
    ensures var q, cleaned := s.calls[id].req, Step(s, CleanUp);
            var t := Run(cleaned, BeginSteps(cleaned, id, env));
            && id in t.calls
            && (t.calls[id].stage == Refused(422) <==> q.timed && q.header.At?)
            && (t.calls[id].stage == Handling(s.clock, false) <==> !(q.timed && q.header.At?))
  {
    hide IsUuid;
    var q, cleaned := s.calls[id].req, Step(s, CleanUp);
    var at := SentAt(s.clock, q);
    BeginStepsRun(cleaned, id, env);
    UntilBegunFrom(s.clock, cleaned.rows, q, Waiting, env);
    UntilBegunFrom(s.clock, cleaned.rows, q, Looking(s.clock, at), env);
    if !(q.timed && q.header.At?) {
      UntilBegunFrom(s.clock, cleaned.rows, q, Placing(s.clock, false), env);
    }
  }

  lemma SecondCopy(clock: int, rows: Table, q: Request, env: Env)
    requires HeldBack(rows, q.event)
    ensures var begun := UntilBegun(clock, rows, q, Waiting, env).0;
            var stale := clock - rows[q.event].receivedAt >= STALE_PLACEHOLDER_MS;
            && (begun.Handling? <==> stale && Admitted(clock, rows, q, env))
            && (!stale && RefusedUnread(q).None? ==> begun == Answered(409, IN_PROGRESS_BODY))
  {
    hide IsUuid;
    UntilBegunFrom(clock, rows, q, Waiting, env);
    if RefusedUnread(q).None? {
      var at := SentAt(clock, q);
      UntilBegunFrom(clock, rows, q, Looking(clock, at), env);
      if clock - rows[q.event].receivedAt >= STALE_PLACEHOLDER_MS {
        UntilBegunFrom(clock, rows, q, Clearing(clock, at), env);
        var judged := Judge(clock, at);
        JudgedBegins(clock, Forget(rows, q.event), q, judged, env);
        if judged.Ordering? {
          ForgottenKeepsOrder(rows, q.event, q.compared, judged.at);
        }
      }
    }
  }

  // ---- whole-journal order ----

  predicate Past(stage: Stage, clock: int) {
    && (stage.Looking? || stage.Clearing? ==> stage.now <= clock)
    && (stage.Ordering? ==> stage.at <= clock)
    && (stage.Timed() ==> stage.EventAt() <= clock)
  }

  /** Nothing stored or fixed lies after the server's clock. */
  ghost predicate NotAhead(s: State) {
    && (forall e | e in s.rows :: s.rows[e].eventAt <= s.rows[e].receivedAt <= s.clock)
    && (forall id | id in s.calls :: Past(s.calls[id].stage, s.clock))
  }

  lemma ActNotAhead(clock: int, rows: Table, q: Request, stage: Stage, env: Env)
    requires Past(stage, clock) && forall e | e in rows :: rows[e].eventAt <= rows[e].receivedAt <= clock
    ensures var (next, after) := Act(clock, rows, q, stage, env);
            Past(next, clock) && forall e | e in after :: after[e].eventAt <= after[e].receivedAt <= clock
  {
  }

  lemma NotAheadStep(s: State, ev: Event)
    requires NotAhead(s)
    ensures NotAhead(Step(s, ev))
  {
    if ev.Go? && ev.id in s.calls {
      ActNotAhead(s.clock, s.rows, s.calls[ev.id].req, s.calls[ev.id].stage, ev.env);
    }
  }

  lemma {:induction false} NotAheadRun(s: State, events: seq<Event>)
    requires NotAhead(s)
    ensures NotAhead(Run(s, events))
    decreases events
  {
    if events != [] {
      NotAheadStep(s, events[0]);
      NotAheadRun(Step(s, events[0]), events[1..]);
    }
  }

  /** A settled action of event time `at0`, or one deleted since, which is then long past. */
  predicate SettledAt(s: State, e: EventId, kind: string, at0: int) {
    || (e in s.rows && s.rows[e].reply.Settled? && s.rows[e].kind == kind && s.rows[e].eventAt == at0
        && at0 <= s.rows[e].receivedAt)
    || at0 < s.clock - KEEP_MS
  }

  /** A call that began no earlier than `since` keeps within the tolerance of `at0`. */
  predicate KeepsOrder(stage: Stage, since: int, at0: int) {
    && (stage.Looking? || stage.Clearing? ==> stage.now >= since)
    && (stage.Timed() ==> stage.EventAt() >= at0 - ORDER_TOLERANCE_MS)
  }

  /** The call's order check is not made when what it replays is more than 30 days old. As it was at most 7 days old
      when the call began, that is to say: when the call has not been held up for 23 days. */
  predicate CheckedInTime(s: State, events: seq<Event>, id: CallId)
    decreases events
  {
    events != [] ==>
      && (events[0].Go? && events[0].id == id && id in s.calls && s.calls[id].stage.Ordering? ==>
            s.clock - s.calls[id].stage.at <= KEEP_MS + ORDER_TOLERANCE_MS)
      && CheckedInTime(Step(s, events[0]), events[1..], id)
  }

  lemma SettledAtStep(s: State, ev: Event, e: EventId, kind: string, at0: int)
    requires SettledAt(s, e, kind, at0)
    ensures SettledAt(Step(s, ev), e, kind, at0)
  {
  }

  lemma {:induction false} OrderRun(s: State, events: seq<Event>, first: EventId, kind: string, second: CallId,
                                    since: int, at0: int)
    requires SettledAt(s, first, kind, at0) && at0 <= since <= s.clock && CheckedInTime(s, events, second)
    requires second in s.calls && KeepsOrder(s.calls[second].stage, since, at0) && kind in s.calls[second].req.compared
    ensures second in Run(s, events).calls && KeepsOrder(Run(s, events).calls[second].stage, since, at0)
    decreases events
  {
    if events != [] {
      SettledAtStep(s, events[0], first, kind, at0);
      OrderRun(Step(s, events[0]), events[1..], first, kind, second, since, at0);
    }
  }

  /** Over any run, takeovers, crashes and cleanups included: when an action had settled before another request of the
      person began that compares itself with its kind, the time that request acts at, replayed or live, is never
      more than the tolerance before the first one's. */
  lemma JournalOrder(s: State, before: seq<Event>, after: seq<Event>, first: EventId, second: CallId)
    requires Initial(s)
    requires first in Run(s, before).rows && Run(s, before).rows[first].reply.Settled?
    requires second in Run(s, before).calls && Run(s, before).calls[second].stage.Waiting?
    requires Run(s, before).rows[first].kind in Run(s, before).calls[second].req.compared
    requires CheckedInTime(Run(s, before), after, second)
    ensures second in Run(s, before + after).calls
    ensures Run(s, before + after).calls[second].stage.Timed() ==>
            Run(s, before + after).calls[second].stage.EventAt() >=
              Run(s, before).rows[first].eventAt - 60_000
  {
    RunSplits(s, before, after);
    NotAheadRun(s, before);
    var m := Run(s, before);
    OrderRun(m, after, first, m.rows[first].kind, second, m.clock, m.rows[first].eventAt);
  }

  /** And that is where it ends: the cleanup passes while the request waits for its check, and the check no longer
      finds the action it is out of order with. */
  lemma HeldUpCheckForgetsTheOrder(s: State, second: CallId, env: Env)
    requires second in s.calls && s.calls[second].stage.Ordering?
    requires forall e | e in s.rows && s.rows[e].reply.Settled? :: Expired(s.rows[e], s.clock)
    ensures var t := Run(s, [CleanUp, Go(second, env)]);
            second in t.calls && t.calls[second].stage == CheckingMonth(s.calls[second].stage.at)
  {
    RunTwo(s, CleanUp, Go(second, env));
  }

  /** What a call has ended with stays; and a crash leaves the table as it is, with the placeholder of a call that
      held it. */
  lemma EndedStays(s: State, ev: Event, id: CallId)
    requires id in s.calls
    ensures id in Step(s, ev).calls && Step(s, ev).calls[id].req == s.calls[id].req
    ensures var stage := s.calls[id].stage;
            && (stage.Answered? || stage.Refused? || stage.Stored? || stage.Dropped? || stage.Stuck? || stage.Gone? ==>
                  Step(s, ev).calls[id].stage == stage)
            && Step(s, Crash(id)).rows == s.rows
            && (stage.Reopening? || stage.Handling? || stage.Restoring? || stage.Finishing? || stage.Forgetting? ==>
                  Step(s, Crash(id)).calls[id].stage == Stuck(stage.at))
            && ((stage.Waiting? || stage.Looking? || stage.Clearing? || stage.Ordering? || stage.CheckingMonth?
                 || stage.Placing?) ==> Step(s, Crash(id)).calls[id].stage == Gone)
  {
  }

  // ---- what is kept ----

  datatype Kept = Kept(event: EventId, status: Status, body: Body)

  /** What the handlers of a run have answered, but for failures of 500 and more. */
  function Answers(s: State, events: seq<Event>): set<Kept>
    decreases events
  {
    if events == [] then {}
    else
      var ev := events[0];
      (if ev.Go? && ev.id in s.calls && s.calls[ev.id].stage.Handling?
       then match ev.env.outcome
            case Succeeds(body) => {Kept(s.calls[ev.id].req.event, 200, body)}
            case Fails(status, body) => if status < 500 then {Kept(s.calls[ev.id].req.event, status, body)} else {}
       else {}) + Answers(Step(s, ev), events[1..])
  }

  /** Every stored answer, and every one about to be, is among these. */
  ghost predicate FromHandlers(s: State, answers: set<Kept>) {
    && (forall e | e in s.rows && s.rows[e].reply.Settled? ::
          Kept(e, s.rows[e].reply.status, s.rows[e].reply.body) in answers)
    && (forall id | id in s.calls ::
          var stage := s.calls[id].stage;
          && (stage.Finishing? ==> Kept(s.calls[id].req.event, stage.status, stage.body) in answers)
          && (stage.Restoring? && stage.status < 500 ==>
                Kept(s.calls[id].req.event, stage.status, stage.body) in answers))
  }

  lemma FromHandlersStep(s: State, ev: Event, answers: set<Kept>)
    requires FromHandlers(s, answers)
    ensures FromHandlers(Step(s, ev), answers + Answers(s, [ev]))
  {
    assert [ev][1..] == [];
    var added := Answers(s, [ev]);
    assert Answers(Step(s, ev), []) == {};
  }

  lemma AnswersFirst(s: State, ev: Event, rest: seq<Event>)
    ensures Answers(s, [ev] + rest) == Answers(s, [ev]) + Answers(Step(s, ev), rest)
  {
    hide Step;
    assert ([ev] + rest)[1..] == rest && [ev][1..] == [];
    assert Answers(Step(s, ev), []) == {};
  }

  lemma {:induction false} FromHandlersRun(s: State, events: seq<Event>, answers: set<Kept>)
    requires FromHandlers(s, answers)
    ensures FromHandlers(Run(s, events), answers + Answers(s, events))
    decreases events
  {
    hide Step;
    hide FromHandlers;
    if events == [] {
      assert answers + Answers(s, events) == answers;
    } else {
      var ev, rest := events[0], events[1..];
      FromHandlersStep(s, ev, answers);
      FromHandlersRun(Step(s, ev), rest, answers + Answers(s, [ev]));
      AnswersFirst(s, ev, rest);
      assert [ev] + rest == events;
      assert answers + Answers(s, [ev]) + Answers(Step(s, ev), rest) == answers + Answers(s, events);
    }
  }

  lemma {:induction false} AnswersBelow500(s: State, events: seq<Event>)
    ensures forall k | k in Answers(s, events) :: k.status < 500
    decreases events
  {
    if events != [] {
      AnswersBelow500(Step(s, events[0]), events[1..]);
    }
  }

  /** Over every run: whatever is stored for an event is what a handler of that event has answered in it, and never a
      failure of 500 or more, which the sender is to try again. */
  lemma StoredIsAnAnswerBelow500(s: State, events: seq<Event>, e: EventId)
    requires Initial(s) && e in Run(s, events).rows && Run(s, events).rows[e].reply.Settled?
    ensures var reply := Run(s, events).rows[e].reply;
            reply.status < 500 && Kept(e, reply.status, reply.body) in Answers(s, events)
  {
    FromHandlersRun(s, events, {});
    AnswersBelow500(s, events);
  }

  // ---- the interceptor, as one uninterrupted call ----

  /** `begin` to its answer, refusal or handing over to the handler, the failed reopening included. */
  function BeginAlone(clock: int, rows: Table, q: Request, stage: Stage, env: Env): (Stage, Table) {
    var (begun, after) := UntilBegun(clock, rows, q, stage, env);
    if begun.Forgetting? then Act(clock, after, q, begun, env) else (begun, after)
  }

  /** Then the handler, the restored day, and `finish` or `forget`. */
  function HandleAlone(clock: int, begun: (Stage, Table), q: Request, env: Env): (Stage, Table)
    decreases begun.0.Rank()
  {
    if begun.0.Handling? || begun.0.Restoring? || begun.0.Finishing? || begun.0.Forgetting? then
      HandleAlone(clock, Act(clock, begun.1, q, begun.0, env), q, env)
    else begun
  }

  lemma HandleAloneFrom(clock: int, begun: (Stage, Table), q: Request, env: Env)
    requires begun.0.Handling? || begun.0.Restoring? || begun.0.Finishing? || begun.0.Forgetting?
    ensures HandleAlone(clock, begun, q, env) == HandleAlone(clock, Act(clock, begun.1, q, begun.0, env), q, env)
  {
  }

  /** Whether the day is reopened is read from the person's sessions. */
  function Looked(env: Env, day: Day, at: int, limits: Limits): Env { env.(reopens := Reopen(day, at, limits).0.Some?) }

  /** The order and month checks of a replay. */
  lemma ReplayChecked(clock: int, rows: Table, q: Request, at: int, e: Env)
    ensures BeginAlone(clock, rows, q, Ordering(at), e) ==
            if OutOfOrder(rows, q.compared, at) then (Refused(422), rows)
            else if q.inOrg && e.monthLocked then (Refused(409), rows)
            else BeginAlone(clock, rows, q, Placing(at, true), e)
  {
    hide OutOfOrder;
    UntilBegunFrom(clock, rows, q, Ordering(at), e);
    UntilBegunFrom(clock, rows, q, CheckingMonth(at), e);
  }

  lemma TooFarOff(clock: int, rows: Table, q: Request, e: Env)
    ensures BeginAlone(clock, rows, q, Refused(422), e) == (Refused(422), rows)
  {
  }

  /** Live requests never ask whether a day is reopened. */
  lemma UnaskedDay(clock: int, rows: Table, q: Request, at: int, e: Env, f: Env)
    requires f == e.(reopens := f.reopens)
    ensures BeginAlone(clock, rows, q, Placing(at, false), e) == BeginAlone(clock, rows, q, Placing(at, false), f)
  {
    UntilBegunFrom(clock, rows, q, Placing(at, false), e);
    UntilBegunFrom(clock, rows, q, Placing(at, false), f);
  }

  /** What the request is answered without its handler being run, by its fields and the table; nothing when it is. */
  ghost function Verdict(clock: int, rows: Table, q: Request, env: Env): (answer: Option<Stage>)
    ensures answer.Some? ==>
              answer.value.Refused? || answer.value.Answered? || answer.value.Dropped? || answer.value.Stuck?
  {
    var at := SentAt(clock, q);
    if RefusedUnread(q).Some? then Some(Refused(RefusedUnread(q).value))
    else if q.event in rows && rows[q.event].reply.Settled? then
      Some(Answered(rows[q.event].reply.status, rows[q.event].reply.body))
    else if q.event in rows && clock < rows[q.event].receivedAt + 120_000 then
      Some(Answered(409, "EVENT_IN_PROGRESS"))
    else if at > clock + 600_000 || at < clock - 604_800_000 then Some(Refused(422))
    else if !Replayed(clock, q) then None
    else if exists e | e in rows ::
      rows[e].reply.Settled? && rows[e].kind in q.compared && rows[e].eventAt > at + 60_000
    then Some(Refused(422))
    else if q.inOrg && env.monthLocked then Some(Refused(409))
    else if env.reopenFails then Some(if env.writeFails then Stuck(at) else Dropped(at))
    else None
  }

  /** The time an action is taken to have happened at. */
  function EventTime(clock: int, q: Request): int {
    if SentAt(clock, q) > clock then clock else SentAt(clock, q)
  }

  /** The action lies further back than what counts as live. */
  predicate Replayed(clock: int, q: Request) { SentAt(clock, q) < clock - 30_000 }

  function Placed(clock: int, q: Request): Row { Row(q.kind, EventTime(clock, q), clock, InProgress) }

  /** `begin` is that verdict, or the placeholder. */
  lemma BeginIs(clock: int, rows: Table, q: Request, env: Env)
    ensures var (begun, after) := BeginAlone(clock, rows, q, Waiting, env);
            match Verdict(clock, rows, q, env)
            case Some(stage) =>
              && begun == stage
              && (after == rows || stage.Stuck? || (HeldBack(rows, q.event) && after == rows - {q.event}))
            case None =>
              && begun.Handling? && begun.at == EventTime(clock, q)
              && begun.reopened == (Replayed(clock, q) && env.reopens)
              && after == rows[q.event := Placed(clock, q)]
  {
    hide IsUuid;
    hide BeginAlone;
    hide Verdict;
    BeginFrom(clock, rows, q, Waiting, env);
    if RefusedUnread(q).Some? {
      assert Arrive(clock, q) == Refused(RefusedUnread(q).value);
      BegunIs(clock, rows, q, Arrive(clock, q), env);
      VerdictUnread(clock, rows, q, env);
    } else {
      var at := SentAt(clock, q);
      BeginFrom(clock, rows, q, Looking(clock, at), env);
      if q.event in rows {
        var next := LookUp(rows, q.event, clock, at);
        if next.Clearing? {
          BeginFrom(clock, rows, q, next, env);
          JudgedIs(clock, rows, rows - {q.event}, q, env);
        } else {
          BegunIs(clock, rows, q, next, env);
          VerdictFound(clock, rows, q, env);
        }
      } else {
        JudgedIs(clock, rows, rows, q, env);
      }
    }
  }

  lemma BeginFrom(clock: int, rows: Table, q: Request, stage: Stage, env: Env)
    requires stage.Beginning()
    ensures BeginAlone(clock, rows, q, stage, env) ==
            BeginAlone(clock, Act(clock, rows, q, stage, env).1, q, Act(clock, rows, q, stage, env).0, env)
  {
    UntilBegunFrom(clock, rows, q, stage, env);
  }

  lemma BegunIs(clock: int, rows: Table, q: Request, stage: Stage, env: Env)
    requires !stage.Beginning() && !stage.Forgetting?
    ensures BeginAlone(clock, rows, q, stage, env) == (stage, rows)
  {
  }

  lemma VerdictUnread(clock: int, rows: Table, q: Request, env: Env)
    requires RefusedUnread(q).Some?
    ensures Verdict(clock, rows, q, env) == Some(Refused(RefusedUnread(q).value))
  {
  }

  lemma VerdictFound(clock: int, rows: Table, q: Request, env: Env)
    requires RefusedUnread(q).None? && q.event in rows
    requires !LookUp(rows, q.event, clock, SentAt(clock, q)).Clearing?
    ensures Verdict(clock, rows, q, env) == Some(LookUp(rows, q.event, clock, SentAt(clock, q)))
  {
    hide IsUuid;
  }

  /** The rest of `begin`, with no answer and no placeholder in the way any more. */
  lemma JudgedIs(clock: int, was: Table, rows: Table, q: Request, env: Env)
    requires RefusedUnread(q).None? && rows == was - {q.event}
    requires q.event in was ==>
               was[q.event].reply.InProgress? && clock >= was[q.event].receivedAt + STALE_PLACEHOLDER_MS
    ensures var (begun, after) := BeginAlone(clock, rows, q, Judge(clock, SentAt(clock, q)), env);
            match Verdict(clock, was, q, env)
            case Some(stage) => begun == stage && (after == rows || stage.Stuck?)
            case None =>
              && begun.Handling? && begun.at == EventTime(clock, q)
              && begun.reopened == (Replayed(clock, q) && env.reopens)
              && after == was[q.event := Placed(clock, q)]
  {
    hide IsUuid;
    hide BeginAlone;
    hide OutOfOrder;
    var at, judged := SentAt(clock, q), Judge(clock, SentAt(clock, q));
    SameOrder(was, rows, q, at);
    if judged.Refused? {
      BegunIs(clock, rows, q, judged, env);
    } else if judged.Ordering? {
      BeginFrom(clock, rows, q, judged, env);
      if OutOfOrder(rows, q.compared, at) {
        BegunIs(clock, rows, q, Refused(422), env);
      } else {
        BeginFrom(clock, rows, q, CheckingMonth(at), env);
        if q.inOrg && env.monthLocked {
          BegunIs(clock, rows, q, Refused(409), env);
        } else {
          ReplayPlaced(clock, was, rows, q, env);
        }
      }
    } else {
      BeginFrom(clock, rows, q, judged, env);
      var placed := rows[q.event := Row(q.kind, judged.at, clock, InProgress)];
      BegunIs(clock, placed, q, Handling(judged.at, false), env);
      assert placed == was[q.event := Placed(clock, q)];
    }
  }

  lemma ReplayPlaced(clock: int, was: Table, rows: Table, q: Request, env: Env)
    requires rows == was - {q.event} && SentAt(clock, q) <= clock
    ensures var at := SentAt(clock, q);
            var (begun, after) := BeginAlone(clock, rows, q, Placing(at, true), env);
            if env.reopenFails
            then if env.writeFails then begun == Stuck(at) else begun == Dropped(at) && after == rows
            else begun == Handling(at, env.reopens) && after == was[q.event := Placed(clock, q)]
  {
    hide IsUuid;
    var at := SentAt(clock, q);
    UntilBegunFrom(clock, rows, q, Placing(at, true), env);
    var placed := rows[q.event := Row(q.kind, at, clock, InProgress)];
    UntilBegunFrom(clock, placed, q, Reopening(at), env);
    assert placed == was[q.event := Placed(clock, q)];
    assert placed - {q.event} == rows;
  }

  lemma SameOrder(was: Table, rows: Table, q: Request, at: int)
    requires rows == was - {q.event} && (q.event in was ==> was[q.event].reply.InProgress?)
    ensures OutOfOrder(rows, q.compared, at) <==>
            exists e | e in was ::
              was[e].reply.Settled? && was[e].kind in q.compared && was[e].eventAt > at + ORDER_TOLERANCE_MS
  {
    forall e | e in was && was[e].reply.Settled?
      ensures e in rows && rows[e] == was[e]
    {
    }
  }

  /** And the handler's answer is kept below 500, and the placeholder dropped from 500 on. */
  lemma HandledIs(clock: int, rows: Table, q: Request, at: int, reopened: bool, env: Env)
    requires HeldBack(rows, q.event) && !env.writeFails
    ensures HandleAlone(clock, (Handling(at, reopened), rows), q, env) ==
            match env.outcome
            case Succeeds(body) =>
              (Stored(at, 200, body), rows[q.event := rows[q.event].(reply := Settled(200, body))])
            case Fails(status, body) =>
              if status < 500
              then (Stored(at, status, body), rows[q.event := rows[q.event].(reply := Settled(status, body))])
              else (Dropped(at), rows - {q.event})
  {
    var handling := (Handling(at, reopened), rows);
    HandleAloneFrom(clock, handling, q, env);
    match env.outcome
    case Succeeds(body) => HandleAloneFrom(clock, (Finishing(at, 200, body), rows), q, env);
    case Fails(status, body) =>
      if reopened {
        HandleAloneFrom(clock, (Restoring(at, status, body), rows), q, env);
      }
      HandleAloneFrom(clock, (Settle(at, status, body), rows), q, env);
  }

  lemma HandledFromPlaced(clock: int, was: Table, q: Request, at: int, reopened: bool, env: Env)
    requires !env.writeFails
    ensures var kept := Placed(clock, q);
            HandleAlone(clock, (Handling(at, reopened), was[q.event := kept]), q, env).1 ==
            match env.outcome
            case Succeeds(body) => was[q.event := kept.(reply := Settled(200, body))]
            case Fails(status, body) =>
              if status < 500 then was[q.event := kept.(reply := Settled(status, body))] else was - {q.event}
    ensures HandleAlone(clock, (Handling(at, reopened), was[q.event := Placed(clock, q)]), q, env).0 ==
            match env.outcome
            case Succeeds(body) => Stored(at, 200, body)
            case Fails(status, body) => if status < 500 then Stored(at, status, body) else Dropped(at)
  {
    hide HandleAlone;
    var placed := was[q.event := Placed(clock, q)];
    HandledIs(clock, placed, q, at, reopened, env);
    assert placed - {q.event} == was - {q.event};
    match env.outcome
    case Succeeds(body) => Overwritten(was, q.event, Placed(clock, q), Settled(200, body));
    case Fails(status, body) => Overwritten(was, q.event, Placed(clock, q), Settled(status, body));
  }

  lemma HandledAlready(clock: int, begun: (Stage, Table), q: Request, env: Env)
    requires begun.0.Refused? || begun.0.Answered? || begun.0.Dropped? || begun.0.Stuck?
    ensures HandleAlone(clock, begun, q, env) == begun
  {
  }

  /** After the handler, whether or not a day is put back on the way. */
  lemma FromHandling(clock: int, handling: Stage, rows: Table, q: Request, env: Env)
    requires handling.Handling?
    ensures var outcome, at := env.outcome, handling.at;
            var next :=
              if outcome.Succeeds? then Finishing(at, 200, outcome.body) else Settle(at, outcome.status, outcome.body);
            HandleAlone(clock, (handling, rows), q, env) == HandleAlone(clock, (next, rows), q, env)
  {
    HandleAloneFrom(clock, (handling, rows), q, env);
    if env.outcome.Fails? && handling.reopened {
      HandleAloneFrom(clock, (Restoring(handling.at, env.outcome.status, env.outcome.body), rows), q, env);
    }
  }

  lemma Overwritten(rows: Table, e: EventId, row: Row, reply: Reply)
    ensures rows[e := row][e := row.(reply := reply)] == rows[e := row.(reply := reply)]
  {
  }

  lemma SameVerdict(clock: int, rows: Table, q: Request, env: Env, other: Env)
    requires other == env.(reopens := other.reopens)
    ensures Verdict(clock, rows, q, env) == Verdict(clock, rows, q, other)
  {
    hide IsUuid;
  }

  class ReplayInterceptor {
    const days: WorkDays
    var clock: int
    var rows: Table

    constructor (days: WorkDays)
      ensures rows == map[] && this.days == days
    {
      this.days := days;
      clock, rows := 0, map[];
    }

    /** `begin`, straight through: what it returns and leaves in the table is what the call's steps give when
        nothing interleaves, and the person's day is touched only by a reopening that `before` tells of. */
    method Begin(q: Request, env: Env, limits: Limits) returns (begun: Stage, before: Option<Reopened>)
      modifies `rows, days
      ensures (begun, rows) ==
              BeginAlone(clock, old(rows), q, Waiting, Looked(env, old(days.View()), SentAt(clock, q), limits))
      ensures begun.Holds() ==> begun.Handling? && begun.reopened == before.Some?
      ensures before.Some? ==> begun.Handling? && (before, days.View()) == Reopen(old(days.View()), begun.at, limits)
      ensures before.None? ==> days.View() == old(days.View())
    {
      hide IsUuid;
      hide Reopen;
      hide Judge;
      ghost var e := Looked(env, days.View(), SentAt(clock, q), limits);
      UntilBegunFrom(clock, rows, q, Waiting, e);
      if !IsUuid(q.event) {
        return Refused(400), None;
      }
      if q.timed && q.header.Unreadable? {
        return Refused(422), None;
      }
      var now := clock;
      var eventAt := SentAt(clock, q);
      UntilBegunFrom(clock, rows, q, Looking(now, eventAt), e);
      if q.event in rows {
        var existing := rows[q.event];
        if existing.reply.Settled? {
          return Answered(existing.reply.status, existing.reply.body), None;
        }
        if now - existing.receivedAt < STALE_PLACEHOLDER_MS {
          return Answered(409, IN_PROGRESS_BODY), None;
        }
        UntilBegunFrom(clock, rows, q, Clearing(now, eventAt), e);
        rows := Forget(rows, q.event);
      }
      begun, before := Time(q, now, eventAt, env, limits);
    }

    /** The middle of `begin`: the limits on the time, and the order and month checks of a replay. */
    method Time(q: Request, now: int, at: int, env: Env, limits: Limits)
      returns (begun: Stage, before: Option<Reopened>)
      modifies `rows, days
      ensures (begun, rows) ==
              BeginAlone(clock, old(rows), q, Judge(now, at), Looked(env, old(days.View()), at, limits))
      ensures begun.Holds() ==> begun.Handling? && begun.reopened == before.Some?
      ensures before.Some? ==> begun.Handling? && (before, days.View()) == Reopen(old(days.View()), begun.at, limits)
      ensures before.None? ==> days.View() == old(days.View())
    {
      hide Reopen;
      hide OutOfOrder;
      hide BeginAlone;
      ghost var e := Looked(env, days.View(), at, limits);
      TooFarOff(clock, rows, q, e);
      var ahead := at - now;
      if ahead > MAX_AHEAD_MS || -ahead > MAX_AGE_MS {
        return Refused(422), None;
      }
      var eventAt := if ahead > 0 then now else at;
      var replay := now - eventAt > LIVE_WINDOW_MS;
      if replay {
        ReplayChecked(clock, rows, q, eventAt, e);
        if OutOfOrder(rows, q.compared, eventAt) {
          return Refused(422), None;
        }
        if q.inOrg && env.monthLocked {
          return Refused(409), None;
        }
      }
      begun, before := Place(q, eventAt, replay, env, limits);
      UnaskedDay(clock, old(rows), q, eventAt, e, Looked(env, old(days.View()), eventAt, limits));
    }

    /** The end of `begin`: the placeholder, which only one copy gets, and the reopened day. */
    method Place(q: Request, eventAt: int, replay: bool, env: Env, limits: Limits)
      returns (begun: Stage, before: Option<Reopened>)
      modifies `rows, days
      ensures (begun, rows) ==
              BeginAlone(clock, old(rows), q, Placing(eventAt, replay), Looked(env, old(days.View()), eventAt, limits))
      ensures begun.Holds() ==> begun.Handling? && begun.reopened == before.Some? && begun.at == eventAt
      ensures q.event in old(rows) ==> begun == Answered(409, "EVENT_IN_PROGRESS") && rows == old(rows)
      ensures before.Some? ==> begun.Handling? && (before, days.View()) == Reopen(old(days.View()), eventAt, limits)
      ensures before.None? ==> days.View() == old(days.View())
    {
      before := None;
      ghost var e := Looked(env, days.View(), eventAt, limits);
      UntilBegunFrom(clock, rows, q, Placing(eventAt, replay), e);
      if q.event in rows {
        return Answered(409, IN_PROGRESS_BODY), None;
      }
      rows := rows[q.event := Row(q.kind, eventAt, clock, InProgress)];
      if !replay {
        return Handling(eventAt, false), None;
      }
      UntilBegunFrom(clock, rows, q, Reopening(eventAt), e);
      if env.reopenFails {
        if env.writeFails {
          return Stuck(eventAt), None;
        }
        rows := Forget(rows, q.event);
        return Dropped(eventAt), None;
      }
      before := days.ReopenAutoClosed(eventAt, limits);
      begun := Handling(eventAt, before.Some?);
    }

    /** `intercept` for one request: the whole pipeline with nothing in between. A 5xx leaves the table as if
        the request had never come; anything else leaves the answer that repeats will get. A failed action,
        whatever its status, leaves the person's day exactly as it was, reopened or not, unless the write that
        puts it back fails as well; the day-changing writes of an action that succeeds are its own and not
        modelled. */
    method Intercept(q: Request, env: Env, limits: Limits) returns (ended: Stage, handled: bool)
      modifies `rows, days
      ensures handled <==> Verdict(clock, old(rows), q, env).None?
      ensures !handled ==> ended == Verdict(clock, old(rows), q, env).value && days.View() == old(days.View())
      ensures !handled && !ended.Stuck? ==>
                rows == old(rows) || (HeldBack(old(rows), q.event) && rows == old(rows) - {q.event})
      ensures handled && !env.writeFails ==>
                var kept := Placed(clock, q);
                rows == match env.outcome
                        case Succeeds(body) => old(rows)[q.event := kept.(reply := Settled(200, body))]
                        case Fails(status, body) =>
                          if status < 500 then old(rows)[q.event := kept.(reply := Settled(status, body))]
                          else old(rows) - {q.event}
      ensures handled && !env.writeFails ==>
                var at := EventTime(clock, q);
                ended == match env.outcome
                         case Succeeds(body) => Stored(at, 200, body)
                         case Fails(status, body) => if status < 500 then Stored(at, status, body) else Dropped(at)
      ensures var e := Looked(env, old(days.View()), SentAt(clock, q), limits);
              (ended, rows) == HandleAlone(clock, BeginAlone(clock, old(rows), q, Waiting, e), q, e)
      ensures env.outcome.Fails? && !env.restoreFails ==> days.View() == old(days.View())
      ensures handled && env.outcome.Succeeds? ==>
                days.View() == if Replayed(clock, q) then Reopen(old(days.View()), SentAt(clock, q), limits).1
                               else old(days.View())
    {
      hide BeginAlone;
      hide HandleAlone;
      hide Verdict;
      hide Placed;
      hide Act;
      hide Settle;
      hide RefusedUnread;
      var begun, before := Begin(q, env, limits);
      ended, handled := begun, begun.Handling?;
      ghost var e := Looked(env, old(days.View()), SentAt(clock, q), limits);
      BeginIs(clock, old(rows), q, e);
      SameVerdict(clock, old(rows), q, env, e);
      if !handled {
        HandledAlready(clock, (begun, rows), q, e);
        return;
      }
      if !env.writeFails {
        HandledFromPlaced(clock, old(rows), q, begun.at, begun.reopened, e);
      }
      FromHandling(clock, begun, rows, q, e);
      match env.outcome {
        case Succeeds(body) => ended := Finish(q, begun.at, 200, body, env, e);
        case Fails(status, body) =>
          if before.Some? {
            if !env.restoreFails {
              RefusedActionLeavesTheDay(old(days.View()), begun.at, limits);
              days.PutBack(before.value);
            }
          }
          ended := Settling(q, begun.at, status, body, env, e);
      }
    }

    /** The end of `catchError`: the answer kept, or the placeholder dropped. */
    method Settling(q: Request, at: int, status: Status, body: Body, env: Env, ghost e: Env) returns (ended: Stage)
      requires e.writeFails == env.writeFails
      modifies `rows
      ensures (ended, rows) == HandleAlone(clock, (Settle(at, status, body), old(rows)), q, e)
      ensures ended.Timed() && ended.EventAt() == at
    {
      if status < 500 {
        ended := Finish(q, at, status, body, env, e);
        return;
      }
      HandleAloneFrom(clock, (Forgetting(at), rows), q, e);
      if env.writeFails {
        return Stuck(at);
      }
      rows := Forget(rows, q.event);
      ended := Dropped(at);
    }

    method Finish(q: Request, at: int, status: Status, body: Body, env: Env, ghost e: Env) returns (ended: Stage)
      requires e.writeFails == env.writeFails
      modifies `rows
      ensures (ended, rows) == HandleAlone(clock, (Finishing(at, status, body), old(rows)), q, e)
      ensures ended.Timed() && ended.EventAt() == at
    {
      HandleAloneFrom(clock, (Finishing(at, status, body), rows), q, e);
      if env.writeFails || q.event !in rows {
        return Stuck(at);
      }
      rows := rows[q.event := rows[q.event].(reply := Settled(status, body))];
      ended := Stored(at, status, body);
    }
  }
}
