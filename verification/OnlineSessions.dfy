/** A person's online time: heartbeats extend one open session, and never count a gap past the grace. */
module OnlineSessions {
  import opened Options
  import opened Clock

  /** A session row; `durationSec` is recorded when it is closed. */
  datatype Session = Session(date: string, startedAt: int, lastSeenAt: int, endedAt: Option<int>,
                             durationSec: Option<nat>)

  /** What has happened to one person, oldest first. */
  datatype Event = Beat(date: string, now: int, graceSec: int) | CloseOpen

  /** The latest session that is not ended. */
  function FindOpen(sessions: seq<Session>): (k: Option<nat>)
    ensures k.Some? ==> k.value < |sessions| && sessions[k.value].endedAt.None?
  {
    if sessions == [] then None
    else if sessions[|sessions| - 1].endedAt.None? then Some(|sessions| - 1)
    else FindOpen(sessions[..|sessions| - 1])
  }

  /** Ends a session at its last-seen time. */
  function Closed(s: Session): Session {
    s.(endedAt := Some(s.lastSeenAt), durationSec := Some(ElapsedSeconds(s.startedAt, s.lastSeenAt)))
  }

  predicate WithinGrace(s: Session, date: string, now: int, graceSec: int) {
    s.date == date && ElapsedSeconds(s.lastSeenAt, now) <= graceSec
  }

  function Apply(sessions: seq<Session>, ev: Event): seq<Session> {
    var open := FindOpen(sessions);
    match ev
    case CloseOpen => if open.None? then sessions else sessions[open.value := Closed(sessions[open.value])]
    case Beat(date, now, grace) =>
      if open.Some? && WithinGrace(sessions[open.value], date, now, grace) then
        sessions[open.value := sessions[open.value].(lastSeenAt := now)]
      else
        (if open.None? then sessions else sessions[open.value := Closed(sessions[open.value])])
        + [Session(date, now, now, None, None)]
  }

  function Replay(log: seq<Event>): seq<Session> {
    if log == [] then [] else Apply(Replay(log[..|log| - 1]), log[|log| - 1])
  }

  // ---- what should count ----

  /** The last heartbeat, unless a close came after it. */
  function LastBeat(log: seq<Event>): Option<(string, int)> {
    if log == [] || log[|log| - 1].CloseOpen? then None else Some((log[|log| - 1].date, log[|log| - 1].now))
  }

  /** The milliseconds of a date between consecutive heartbeats of that date that are within grace and not
      cut by a close. */
  function CountedMs(log: seq<Event>, date: string): int {
    if log == [] then 0
    else
      var before, ev := log[..|log| - 1], log[|log| - 1];
      CountedMs(before, date) +
      (if ev.Beat? && ev.date == date && LastBeat(before).Some? && LastBeat(before).value.0 == date
          && ElapsedSeconds(LastBeat(before).value.1, ev.now) <= ev.graceSec
       then ev.now - LastBeat(before).value.1 else 0)
  }

  predicate InOrder(log: seq<Event>, clock: int) {
    log == [] ||
    (var ev := log[|log| - 1];
     if ev.Beat? then ev.now <= clock && InOrder(log[..|log| - 1], ev.now) else InOrder(log[..|log| - 1], clock))
  }

  function SessionsMs(sessions: seq<Session>, date: string): int {
    if sessions == [] then 0
    else
      var last := sessions[|sessions| - 1];
      SessionsMs(sessions[..|sessions| - 1], date) + (if last.date == date then last.lastSeenAt - last.startedAt else 0)
  }

  predicate OnlyLastOpen(sessions: seq<Session>) { forall k | 0 <= k < |sessions| - 1 :: sessions[k].endedAt.Some? }

  /** All sessions but perhaps the last are ended, at their last-seen time and with their length recorded. */
  predicate Sound(sessions: seq<Session>) {
    && OnlyLastOpen(sessions)
    && (forall k | 0 <= k < |sessions| && sessions[k].endedAt.Some? :: sessions[k] == Closed(sessions[k]))
  }

  /** The open session is the last one and was last seen at the last heartbeat. */
  predicate OpenIs(sessions: seq<Session>, beat: Option<(string, int)>) {
    if beat.None? then sessions == [] || sessions[|sessions| - 1].endedAt.Some?
    else sessions != [] && var s := sessions[|sessions| - 1];
         s.endedAt.None? && s.date == beat.value.0 && s.lastSeenAt == beat.value.1
  }

  lemma {:induction false} AllClosed(sessions: seq<Session>)
    requires forall k | 0 <= k < |sessions| :: sessions[k].endedAt.Some?
    ensures FindOpen(sessions) == None
  {
    if sessions != [] {
      AllClosed(sessions[..|sessions| - 1]);
    }
  }

  lemma MsLast(sessions: seq<Session>, s: Session, date: string)
    requires sessions != []
    ensures var n := |sessions| - 1;
            SessionsMs(sessions[n := s], date) == SessionsMs(sessions[..n], date) +
              (if s.date == date then s.lastSeenAt - s.startedAt else 0)
  {
    assert sessions[|sessions| - 1 := s][..|sessions| - 1] == sessions[..|sessions| - 1];
  }

  lemma MsAppend(sessions: seq<Session>, s: Session, date: string)
    ensures SessionsMs(sessions + [s], date) == SessionsMs(sessions, date) + (if s.date ==
              date then s.lastSeenAt - s.startedAt else 0)
  {
    assert (sessions + [s])[..|sessions|] == sessions;
  }

  lemma FindsLast(sessions: seq<Session>, beat: Option<(string, int)>)
    requires OnlyLastOpen(sessions) && OpenIs(sessions, beat)
    ensures FindOpen(sessions) == if beat.None? then None else Some(|sessions| - 1)
  {
    if beat.None? {
      AllClosed(sessions);
    }
  }

  /** One event keeps at most one session open, the last. */
  lemma ApplySound(sessions: seq<Session>, beat: Option<(string, int)>, ev: Event)
    requires Sound(sessions) && OpenIs(sessions, beat)
    ensures Sound(Apply(sessions, ev))
              && OpenIs(Apply(sessions, ev), if ev.Beat? then Some((ev.date, ev.now)) else None)
  {
    FindsLast(sessions, beat);
  }

  /** And adds exactly the gap that should count. */
  lemma ApplyCounts(sessions: seq<Session>, beat: Option<(string, int)>, ev: Event, date: string)
    requires OnlyLastOpen(sessions) && OpenIs(sessions, beat)
    ensures SessionsMs(Apply(sessions, ev), date) == SessionsMs(sessions, date) +
              (if ev.Beat? && ev.date == date && beat.Some? && beat.value.0 == date
                && ElapsedSeconds(beat.value.1, ev.now) <= ev.graceSec
               then ev.now - beat.value.1 else 0)
  {
    FindsLast(sessions, beat);
    if beat.Some? {
      var n := |sessions| - 1;
      var s := sessions[n];
      MsLast(sessions, Closed(s), date);
      if ev.Beat? {
        MsLast(sessions, s.(lastSeenAt := ev.now), date);
        MsAppend(sessions[n := Closed(s)], Session(ev.date, ev.now, ev.now, None, None), date);
      }
    } else if ev.Beat? {
      MsAppend(sessions, Session(ev.date, ev.now, ev.now, None, None), date);
    }
  }

  /** Over any run of heartbeats and closes: at most one session is open, it is the last, and the sessions
      of a date add up to exactly the gaps that should count. */
  lemma {:induction false} SessionsCountTheGaps(log: seq<Event>, date: string)
    ensures Sound(Replay(log)) && OpenIs(Replay(log), LastBeat(log))
    ensures SessionsMs(Replay(log), date) == CountedMs(log, date)
    decreases |log|
  {
    if log != [] {
      var n := |log| - 1;
      SessionsCountTheGaps(log[..n], date);
      ApplySound(Replay(log[..n]), LastBeat(log[..n]), log[n]);
      ApplyCounts(Replay(log[..n]), LastBeat(log[..n]), log[n], date);
    }
  }

  /** Sessions run forward, one after the other. */
  predicate Disjoint(sessions: seq<Session>) {
    && (forall k | 0 <= k < |sessions| :: sessions[k].startedAt <= sessions[k].lastSeenAt)
    && (forall k | 0 <= k < |sessions| - 1 :: sessions[k].lastSeenAt <= sessions[k + 1].startedAt)
  }

  lemma DisjointSeen(sessions: seq<Session>, s: Session)
    requires Disjoint(sessions) && sessions != []
    requires s.startedAt == sessions[|sessions| - 1].startedAt <= s.lastSeenAt
    ensures Disjoint(sessions[|sessions| - 1 := s])
  {
  }

  lemma DisjointMore(sessions: seq<Session>, s: Session)
    requires Disjoint(sessions) && s.startedAt <= s.lastSeenAt
    requires sessions != [] ==> sessions[|sessions| - 1].lastSeenAt <= s.startedAt
    ensures Disjoint(sessions + [s])
  {
    var more := sessions + [s];
    forall k | 0 <= k < |more| - 1
      ensures more[k].lastSeenAt <= more[k + 1].startedAt
    {
      assert more[k] == sessions[k];
    }
  }

  lemma ApplyDisjoint(sessions: seq<Session>, beat: Option<(string, int)>, ev: Event, clock: int, later: int)
    requires Sound(sessions) && OpenIs(sessions, beat) && Disjoint(sessions)
    requires sessions != [] ==> sessions[|sessions| - 1].lastSeenAt <= clock
    requires clock <= later && (ev.Beat? ==> clock <= ev.now <= later)
    ensures var next := Apply(sessions, ev);
            Disjoint(next) && (next != [] ==> next[|next| - 1].lastSeenAt <= later)
  {
    FindsLast(sessions, beat);
    var kept := sessions;
    if beat.Some? {
      var n := |sessions| - 1;
      SpansForward(sessions, n);
      DisjointSeen(sessions, Closed(sessions[n]));
      if ev.Beat? {
        DisjointSeen(sessions, sessions[n].(lastSeenAt := ev.now));
      }
      kept := sessions[n := Closed(sessions[n])];
    }
    hide Disjoint;
    if ev.Beat? {
      DisjointMore(kept, Session(ev.date, ev.now, ev.now, None, None));
    }
  }

  lemma SpansForward(sessions: seq<Session>, k: nat)
    requires Disjoint(sessions) && k < |sessions|
    ensures sessions[k].startedAt <= sessions[k].lastSeenAt
  {
  }

  /** With times in order, no two sessions overlap. */
  lemma {:induction false} SessionsDisjoint(log: seq<Event>, clock: int)
    requires InOrder(log, clock)
    ensures Disjoint(Replay(log)) && (Replay(log) != [] ==> Replay(log)[|Replay(log)| - 1].lastSeenAt <= clock)
    decreases |log|
  {
    hide Apply;
    hide Disjoint;
    hide Sound;
    hide OpenIs;
    if log != [] {
      var n := |log| - 1;
      var before := if log[n].Beat? then log[n].now else clock;
      SessionsDisjoint(log[..n], before);
      SessionsCountTheGaps(log[..n], "");
      ApplyDisjoint(Replay(log[..n]), LastBeat(log[..n]), log[n], before, clock);
    } else {
      NoneDisjoint();
    }
  }

  lemma NoneDisjoint()
    ensures Disjoint([])
  {
  }

  // ---- seconds ----

  /** A closed session has its recorded length, an open one counts up to its last-seen time. */
  function Seconds(s: Session): nat {
    if s.endedAt.Some? then (if s.durationSec.Some? then s.durationSec.value
      else ElapsedSeconds(s.startedAt, s.endedAt.value))
    else ElapsedSeconds(s.startedAt, s.lastSeenAt)
  }

  /** With or without a recorded length, the second nearest to the time from its start to its end or last-seen time. */
  lemma SecondsAre(s: Session)
    requires var end := if s.endedAt.Some? then s.endedAt.value else s.lastSeenAt;
             s.startedAt <= end && (s.endedAt.Some? && s.durationSec.Some? ==>
                                      s.durationSec == Some(ElapsedSeconds(s.startedAt, end)))
    ensures var end := if s.endedAt.Some? then s.endedAt.value else s.lastSeenAt;
            end - s.startedAt - 500 < 1000 * Seconds(s) <= end - s.startedAt + 500
  {
  }

  function SumSeconds(sessions: seq<Session>, date: string): nat {
    if sessions == [] then 0
    else
      var last := sessions[|sessions| - 1];
      SumSeconds(sessions[..|sessions| - 1], date) + (if last.date == date then Seconds(last) else 0)
  }

  function SessionsOn(sessions: seq<Session>, date: string): nat {
    if sessions == [] then 0 else SessionsOn(sessions[..|sessions| - 1], date) + (if sessions[|sessions| - 1].date ==
      date then 1 else 0)
  }

  /** Each session rounds once, by at most half a second. */
  lemma {:induction false} SecondsNearMs(sessions: seq<Session>, date: string)
    requires Sound(sessions) && Disjoint(sessions)
    ensures SessionsMs(sessions, date) - 500 * SessionsOn(sessions, date) <= 1000 * SumSeconds(sessions, date)
                                       <= SessionsMs(sessions, date) + 500 * SessionsOn(sessions, date)
  {
    if sessions != [] {
      SecondsNearMs(sessions[..|sessions| - 1], date);
    }
  }

  predicate WholeSeconds(sessions: seq<Session>) {
    forall k | 0 <= k < |sessions| :: sessions[k].startedAt % 1000 == 0 && sessions[k].lastSeenAt % 1000 == 0
  }

  lemma {:induction false} SecondsAreMs(sessions: seq<Session>, date: string)
    requires Sound(sessions) && Disjoint(sessions) && WholeSeconds(sessions)
    ensures 1000 * SumSeconds(sessions, date) == SessionsMs(sessions, date)
  {
    if sessions != [] {
      var last := sessions[|sessions| - 1];
      SecondsAreMs(sessions[..|sessions| - 1], date);
      assert last.lastSeenAt - last.startedAt == 1000 * (last.lastSeenAt / 1000 - last.startedAt / 1000);
    }
  }

  predicate WholeBeats(log: seq<Event>) { forall k | 0 <= k < |log| && log[k].Beat? :: log[k].now % 1000 == 0 }

  lemma {:induction false} WholeBeatsWholeSessions(log: seq<Event>)
    requires WholeBeats(log)
    ensures WholeSeconds(Replay(log))
    decreases |log|
  {
    if log != [] {
      WholeBeatsWholeSessions(log[..|log| - 1]);
    }
  }

  // ---- each call in its two statements ----

  type CloseId = nat

  /** A session a call has found and not yet written: its place, and its row as it was found. */
  datatype Found = Found(k: nat, row: Session)

  /** A heartbeat between its find and its write. */
  datatype Beating = Beating(date: string, now: int, graceSec: int, found: Option<Found>)

  /** Heartbeats take a lock and come one at a time; `closeOpenForUser` takes none, so closes fall between a
      heartbeat's find and write, and heartbeats and other closes between a close's. */
  datatype Rows = Rows(sessions: seq<Session>, beating: Option<Beating>, closing: map<CloseId, Found>)

  datatype Move = Seek(date: string, now: int, graceSec: int) | Land | Fail | Find(id: CloseId) | Write(id: CloseId)

  function FoundOpen(sessions: seq<Session>): Option<Found> {
    var open := FindOpen(sessions);
    if open.None? then None else Some(Found(open.value, sessions[open.value]))
  }

  /** The row ends as it was found; what has changed in it since stays. */
  function EndAs(s: Session, found: Session): Session {
    s.(endedAt := Some(found.lastSeenAt), durationSec := Closed(found).durationSec)
  }

  predicate Extends(b: Beating) { b.found.Some? && WithinGrace(b.found.value.row, b.date, b.now, b.graceSec) }

  function Go(r: Rows, move: Move): Rows {
    match move
    case Seek(date, now, grace) =>
      if r.beating.Some? then r else r.(beating := Some(Beating(date, now, grace, FoundOpen(r.sessions))))
    case Land =>
      if r.beating.None? || (r.beating.value.found.Some? && r.beating.value.found.value.k >= |r.sessions|) then r
      else
        var b := r.beating.value;
        var kept :=
          if b.found.None? then r.sessions
          else
            var k, row := b.found.value.k, r.sessions[b.found.value.k];
            r.sessions[k := if Extends(b) then row.(lastSeenAt := b.now) else EndAs(row, b.found.value.row)];
        r.(sessions := if Extends(b) then kept else kept + [Session(b.date, b.now, b.now, None, None)],
           beating := None)
    case Fail => r.(beating := None)
    case Find(id) =>
      var found := FoundOpen(r.sessions);
      if found.None? || id in r.closing then r else r.(closing := r.closing[id := found.value])
    case Write(id) =>
      if id !in r.closing || r.closing[id].k >= |r.sessions| then r
      else
        var found := r.closing[id];
        r.(sessions := r.sessions[found.k := EndAs(r.sessions[found.k], found.row)], closing := r.closing - {id})
  }

  /** A heartbeat that fails writes nothing and lets the next one begin; and a close is over when it has written. */
  lemma CallsEnd(r: Rows, date: string, now: int, graceSec: int, id: CloseId)
    requires id in r.closing && r.closing[id].k < |r.sessions|
    ensures Go(r, Fail).sessions == r.sessions && Go(r, Fail).closing == r.closing
    ensures Go(Go(r, Fail), Seek(date, now, graceSec)).beating.Some?
    ensures Go(Go(r, Write(id)), Write(id)) == Go(r, Write(id)) && id !in Go(r, Write(id)).closing
  {
  }

  function GoAll(r: Rows, moves: seq<Move>): Rows
    decreases |moves|
  {
    if moves == [] then r else Go(GoAll(r, moves[..|moves| - 1]), moves[|moves| - 1])
  }

  function AfterMoves(moves: seq<Move>): Rows { GoAll(Rows([], None, map[]), moves) }

  lemma FindsTheLast(sessions: seq<Session>)
    requires OnlyLastOpen(sessions)
    ensures FindOpen(sessions) ==
            if sessions != [] && sessions[|sessions| - 1].endedAt.None? then Some(|sessions| - 1) else None
  {
    if sessions == [] || sessions[|sessions| - 1].endedAt.Some? {
      AllClosed(sessions);
    }
  }

  // ---- what should count, and what is lost ----

  /** The last heartbeat in a session still open, after one more move. */
  function NextOpen(r: Rows, move: Move, open: Option<(string, int)>): Option<(string, int)> {
    match move
    case Land =>
      if r.beating.None? then open
      else if Extends(r.beating.value) && open.None? then None
      else Some((r.beating.value.date, r.beating.value.now))
    case Write(id) => if id in r.closing && r.closing[id].k + 1 == |r.sessions| then None else open
    case _ => open
  }

  /** The last heartbeat, unless the session it was counted in has ended since. */
  function OpenBeat(moves: seq<Move>): Option<(string, int)> {
    if moves == [] then None
    else NextOpen(AfterMoves(moves[..|moves| - 1]), moves[|moves| - 1], OpenBeat(moves[..|moves| - 1]))
  }

  /** The last heartbeat when the one in flight looked. */
  function BeatFound(moves: seq<Move>): Option<(string, int)> {
    if moves == [] then None
    else
      var before, move := moves[..|moves| - 1], moves[|moves| - 1];
      if move.Seek? && AfterMoves(before).beating.None? then OpenBeat(before) else BeatFound(before)
  }

  /** The milliseconds of a date between consecutive heartbeats of that date that are within grace and not cut by a
      close before the second one looked. */
  function GapsMs(moves: seq<Move>, date: string): int {
    if moves == [] then 0
    else
      var before, move := moves[..|moves| - 1], moves[|moves| - 1];
      var beating, last := AfterMoves(before).beating, BeatFound(before);
      GapsMs(before, date) +
      (if move.Land? && beating.Some? && beating.value.date == date && last.Some? && last.value.0 == date
          && ElapsedSeconds(last.value.1, beating.value.now) <= beating.value.graceSec
       then beating.value.now - last.value.1 else 0)
  }

  /** By how much a move extends a session. */
  function Gain(r: Rows, move: Move, k: nat): int {
    if move.Land? && r.beating.Some? && Extends(r.beating.value) && r.beating.value.found.value.k == k
    then r.beating.value.now - r.beating.value.found.value.row.lastSeenAt else 0
  }

  predicate Finds(r: Rows, move: Move, id: CloseId) {
    move == Find(id) && id !in r.closing && FindOpen(r.sessions).Some?
  }

  /** The move is a heartbeat that ends the session it found, and begins another. */
  predicate EndsStale(r: Rows, move: Move, k: nat) {
    && move.Land? && r.beating.Some? && !Extends(r.beating.value)
    && r.beating.value.found.Some? && r.beating.value.found.value.k == k
  }

  /** By how much a session has been extended since a close found it. */
  function ExtendedSince(moves: seq<Move>, id: CloseId, k: nat): int {
    if moves == [] then 0
    else
      var before, move := moves[..|moves| - 1], moves[|moves| - 1];
      var r := AfterMoves(before);
      if Finds(r, move, id) then 0 else ExtendedSince(before, id, k) + Gain(r, move, k)
  }

  predicate Ended(r: Rows, k: nat) { k < |r.sessions| && r.sessions[k].endedAt.Some? }

  /** By how much a session was extended after it had been found by the close that wrote it last. */
  function LostOf(moves: seq<Move>, k: nat): int {
    if moves == [] then 0
    else
      var before, move := moves[..|moves| - 1], moves[|moves| - 1];
      var r := AfterMoves(before);
      if move.Write? && move.id in r.closing && r.closing[move.id].k == k then ExtendedSince(before, move.id, k)
      else if EndsStale(r, move, k) then 0
      else LostOf(before, k) + (if Ended(r, k) then Gain(r, move, k) else 0)
  }

  /** Of the first `n` sessions, those of the date. */
  function LostMs(moves: seq<Move>, sessions: seq<Session>, date: string, n: nat): int
    requires n <= |sessions|
  {
    if n == 0 then 0
    else LostMs(moves, sessions, date, n - 1) + (if sessions[n - 1].date == date then LostOf(moves, n - 1) else 0)
  }

  /** What a session counts for. */
  function Span(s: Session): int { (if s.endedAt.Some? then s.endedAt.value else s.lastSeenAt) - s.startedAt }

  function SpansMs(sessions: seq<Session>, date: string): int {
    if sessions == [] then 0
    else
      var last := sessions[|sessions| - 1];
      SpansMs(sessions[..|sessions| - 1], date) + (if last.date == date then Span(last) else 0)
  }

  // ---- the invariant ----

  /** A row found by a close is an earlier state of its session, extended since by what says so. */
  predicate FoundFits(moves: seq<Move>, r: Rows, id: CloseId)
    requires id in r.closing
  {
    var found := r.closing[id];
    && found.k < |r.sessions| && found.row.startedAt == r.sessions[found.k].startedAt
    && r.sessions[found.k].lastSeenAt - found.row.lastSeenAt == ExtendedSince(moves, id, found.k)
  }

  /** The row found by the heartbeat in flight is the last session's, but that this may have ended since; if it found
      none, none is open. */
  predicate BeatFits(r: Rows, beat: Option<(string, int)>) {
    r.beating.Some? ==>
      var found := r.beating.value.found;
      if found.None? then beat.None? && (r.sessions == [] || r.sessions[|r.sessions| - 1].endedAt.Some?)
      else
        && found.value.k + 1 == |r.sessions| && beat == Some((found.value.row.date, found.value.row.lastSeenAt))
        && var s := r.sessions[found.value.k];
           found.value.row == s.(endedAt := found.value.row.endedAt, durationSec := found.value.row.durationSec)
  }

  predicate SessionFits(moves: seq<Move>, s: Session, k: nat) {
    if s.endedAt.None? then LostOf(moves, k) == 0
    else
      && s.lastSeenAt - s.endedAt.value == LostOf(moves, k)
      && s.durationSec == Some(ElapsedSeconds(s.startedAt, s.endedAt.value))
  }

  ghost predicate Split(moves: seq<Move>) {
    var r := AfterMoves(moves);
    && OnlyLastOpen(r.sessions) && OpenIs(r.sessions, OpenBeat(moves)) && BeatFits(r, BeatFound(moves))
    && (forall id | id in r.closing :: FoundFits(moves, r, id))
    && (forall k: nat | k < |r.sessions| :: SessionFits(moves, r.sessions[k], k))
    && (forall k: nat | k >= |r.sessions| :: LostOf(moves, k) == 0)
  }

  /** What one move does to the sessions. */
  lemma GoIs(r: Rows, move: Move, beat: Option<(string, int)>)
    requires OnlyLastOpen(r.sessions) && BeatFits(r, beat)
    ensures var t := Go(r, move);
            && |r.sessions| <= |t.sessions| && OnlyLastOpen(t.sessions)
            && (forall k | 0 <= k < |r.sessions| ::
                  && t.sessions[k].date == r.sessions[k].date && t.sessions[k].startedAt == r.sessions[k].startedAt
                  && t.sessions[k].lastSeenAt == r.sessions[k].lastSeenAt + Gain(r, move, k))
            && (!move.Write? ==> forall k | 0 <= k < |r.sessions| && !EndsStale(r, move, k) ::
                  t.sessions[k] == r.sessions[k].(lastSeenAt := t.sessions[k].lastSeenAt))
            && (forall k | 0 <= k < |r.sessions| && EndsStale(r, move, k) :: t.sessions[k] == Closed(r.sessions[k]))
            && (forall k | |r.sessions| <= k < |t.sessions| :: t.sessions[k].endedAt.None?)
    ensures move.Write? ==> forall k | 0 <= k < |r.sessions| ::
              Go(r, move).sessions[k] ==
              if move.id in r.closing && r.closing[move.id].k == k
              then EndAs(r.sessions[k], r.closing[move.id].row) else r.sessions[k]
    ensures forall id | id in Go(r, move).closing ::
              var found := Go(r, move).closing[id];
              if Finds(r, move, id) then found.k < |r.sessions| && found.row == r.sessions[found.k]
              else id in r.closing && found == r.closing[id]
  {
    FindsTheLast(r.sessions);
  }

  lemma FoundStep(moves: seq<Move>, id: CloseId)
    requires moves != [] && Split(moves[..|moves| - 1]) && id in AfterMoves(moves).closing
    ensures FoundFits(moves, AfterMoves(moves), id)
  {
    hide OpenBeat;
    hide BeatFound;
    hide LostOf;
    hide Go;
    var before, move := moves[..|moves| - 1], moves[|moves| - 1];
    var r := AfterMoves(before);
    GoIs(r, move, BeatFound(before));
    if !Finds(r, move, id) {
      assert FoundFits(before, r, id);
    }
  }

  lemma SessionStep(moves: seq<Move>, k: nat)
    requires moves != [] && Split(moves[..|moves| - 1]) && k < |AfterMoves(moves).sessions|
    ensures SessionFits(moves, AfterMoves(moves).sessions[k], k)
  {
    hide OpenBeat;
    hide BeatFound;
    hide Go;
    var before, move := moves[..|moves| - 1], moves[|moves| - 1];
    var r := AfterMoves(before);
    GoIs(r, move, BeatFound(before));
    if move.Write? && move.id in r.closing {
      assert FoundFits(before, r, move.id);
    }
    if k < |r.sessions| {
      assert SessionFits(before, r.sessions[k], k);
    } else {
      NothingLostYet(moves, k);
    }
  }

  lemma NothingLostYet(moves: seq<Move>, k: nat)
    requires moves != [] && Split(moves[..|moves| - 1]) && k >= |AfterMoves(moves[..|moves| - 1]).sessions|
    ensures LostOf(moves, k) == 0
  {
    hide OpenBeat;
    hide BeatFound;
    var before, move := moves[..|moves| - 1], moves[|moves| - 1];
    var r := AfterMoves(before);
    if move.Write? && move.id in r.closing {
      assert FoundFits(before, r, move.id);
    }
  }

  lemma OpenGo(r: Rows, move: Move, open: Option<(string, int)>, found: Option<(string, int)>)
    requires OnlyLastOpen(r.sessions) && OpenIs(r.sessions, open) && BeatFits(r, found)
    requires forall id | id in r.closing :: r.closing[id].k < |r.sessions|
    ensures OpenIs(Go(r, move).sessions, NextOpen(r, move, open))
  {
    FindsTheLast(r.sessions);
  }

  lemma BeatGo(r: Rows, move: Move, open: Option<(string, int)>, found: Option<(string, int)>)
    requires OnlyLastOpen(r.sessions) && OpenIs(r.sessions, open) && BeatFits(r, found)
    ensures BeatFits(Go(r, move), if move.Seek? && r.beating.None? then open else found)
  {
    FindsTheLast(r.sessions);
  }

  /** The open session and the heartbeat in flight after one more move. */
  lemma BeatStep(moves: seq<Move>)
    requires moves != [] && Split(moves[..|moves| - 1])
    ensures OpenIs(AfterMoves(moves).sessions, OpenBeat(moves)) && BeatFits(AfterMoves(moves), BeatFound(moves))
  {
    hide Go;
    hide OpenIs;
    hide BeatFits;
    hide NextOpen;
    hide LostOf;
    hide ExtendedSince;
    var before, move := moves[..|moves| - 1], moves[|moves| - 1];
    var r := AfterMoves(before);
    assert forall id | id in r.closing :: FoundFits(before, r, id);
    OpenGo(r, move, OpenBeat(before), BeatFound(before));
    BeatGo(r, move, OpenBeat(before), BeatFound(before));
  }

  lemma {:induction false} SplitRun(moves: seq<Move>)
    ensures Split(moves)
    decreases |moves|
  {
    hide FoundFits;
    hide SessionFits;
    hide BeatFits;
    hide OpenIs;
    if moves == [] {
      NoMoves();
    } else {
      var before, move := moves[..|moves| - 1], moves[|moves| - 1];
      SplitRun(before);
      GoIs(AfterMoves(before), move, BeatFound(before));
      BeatStep(moves);
      forall id | id in AfterMoves(moves).closing
        ensures FoundFits(moves, AfterMoves(moves), id)
      {
        FoundStep(moves, id);
      }
      forall k: nat | k < |AfterMoves(moves).sessions|
        ensures SessionFits(moves, AfterMoves(moves).sessions[k], k)
      {
        SessionStep(moves, k);
      }
      forall k: nat | k >= |AfterMoves(moves).sessions|
        ensures LostOf(moves, k) == 0
      {
        NothingLostYet(moves, k);
      }
    }
  }

  lemma NoMoves()
    ensures Split([])
  {
  }

  /** In every interleaving of heartbeats and closes, each in its two statements, at most one session is open, the
      last. */
  lemma OneOpenThroughout(moves: seq<Move>)
    ensures OnlyLastOpen(AfterMoves(moves).sessions)
  {
    SplitRun(moves);
  }

  /** With nothing in between, two statements are one close, and one heartbeat. */
  lemma SplitCloseIsClose(r: Rows, id: CloseId)
    requires id !in r.closing
    ensures Go(Go(r, Find(id)), Write(id)).sessions == Apply(r.sessions, CloseOpen)
  {
  }

  lemma SplitBeatIsBeat(r: Rows, date: string, now: int, graceSec: int)
    requires r.beating.None?
    ensures Go(Go(r, Seek(date, now, graceSec)), Land) ==
            r.(sessions := Apply(r.sessions, Beat(date, now, graceSec)))
  {
  }

  // ---- the sum ----

  lemma {:induction false} MsUpdate(sessions: seq<Session>, k: nat, s: Session, date: string)
    requires k < |sessions| && s.date == sessions[k].date
    ensures SessionsMs(sessions[k := s], date) == SessionsMs(sessions, date) +
              (if s.date == date
               then s.lastSeenAt - s.startedAt - (sessions[k].lastSeenAt - sessions[k].startedAt) else 0)
    decreases |sessions|
  {
    var n := |sessions| - 1;
    if k < n {
      MsUpdate(sessions[..n], k, s, date);
      assert sessions[k := s][..n] == sessions[..n][k := s];
    } else {
      assert sessions[k := s][..n] == sessions[..n];
    }
  }

  lemma LandCounts(r: Rows, beat: Option<(string, int)>, date: string)
    requires BeatFits(r, beat) && r.beating.Some?
    ensures var b := r.beating.value;
            SessionsMs(Go(r, Land).sessions, date) == SessionsMs(r.sessions, date) +
              (if b.date == date && beat.Some? && beat.value.0 == date
                  && ElapsedSeconds(beat.value.1, b.now) <= b.graceSec
               then b.now - beat.value.1 else 0)
  {
    hide SessionsMs;
    var b := r.beating.value;
    var kept := r.sessions;
    if b.found.Some? {
      var k, row := b.found.value.k, r.sessions[b.found.value.k];
      var after := if Extends(b) then row.(lastSeenAt := b.now) else EndAs(row, b.found.value.row);
      MsUpdate(r.sessions, k, after, date);
      kept := r.sessions[k := after];
    }
    MsAppend(kept, Session(b.date, b.now, b.now, None, None), date);
  }

  /** What was seen is what should count: seen time does not depend on what closes write. */
  lemma {:induction false} SeenIsGaps(moves: seq<Move>, date: string)
    ensures SessionsMs(AfterMoves(moves).sessions, date) == GapsMs(moves, date)
    decreases |moves|
  {
    if moves != [] {
      var before, move := moves[..|moves| - 1], moves[|moves| - 1];
      SeenIsGaps(before, date);
      SplitRun(before);
      SeenStep(AfterMoves(before), move, BeatFound(before), date);
      assert move.Write? && move.id in AfterMoves(before).closing ==> FoundFits(before, AfterMoves(before), move.id);
    }
  }

  lemma SeenStep(r: Rows, move: Move, beat: Option<(string, int)>, date: string)
    requires BeatFits(r, beat)
    ensures SessionsMs(Go(r, move).sessions, date) == SessionsMs(r.sessions, date) +
              (if move.Land? && r.beating.Some? && r.beating.value.date == date && beat.Some? && beat.value.0 == date
                  && ElapsedSeconds(beat.value.1, r.beating.value.now) <= r.beating.value.graceSec
               then r.beating.value.now - beat.value.1 else 0)
  {
    hide SessionsMs;
    if move.Land? && r.beating.Some? {
      LandCounts(r, beat, date);
    } else if move.Write? && move.id in r.closing && r.closing[move.id].k < |r.sessions| {
      var found := r.closing[move.id];
      MsUpdate(r.sessions, found.k, EndAs(r.sessions[found.k], found.row), date);
    }
  }

  lemma {:induction false} SpansAreSeenLessLost(moves: seq<Move>, sessions: seq<Session>, date: string, n: nat)
    requires n <= |sessions| && forall k: nat | k < n :: SessionFits(moves, sessions[k], k)
    ensures SpansMs(sessions[..n], date) == SessionsMs(sessions[..n], date) - LostMs(moves, sessions, date, n)
    decreases n
  {
    hide LostOf;
    if n > 0 {
      SpansAreSeenLessLost(moves, sessions, date, n - 1);
      assert sessions[..n][..n - 1] == sessions[..n - 1];
      assert SessionFits(moves, sessions[n - 1], n - 1);
    }
  }

  /** What a date's sessions count for, over every interleaving of heartbeats and closes, each in its two statements:
      the gaps that should count, less what sessions were extended by after the close that wrote them last had found
      them. */
  lemma SplitClosesLose(moves: seq<Move>, date: string)
    ensures var sessions := AfterMoves(moves).sessions;
            SpansMs(sessions, date) == GapsMs(moves, date) - LostMs(moves, sessions, date, |sessions|)
  {
    hide LostOf;
    hide GapsMs;
    var sessions := AfterMoves(moves).sessions;
    SplitRun(moves);
    SeenIsGaps(moves, date);
    SpansAreSeenLessLost(moves, sessions, date, |sessions|);
    assert sessions[..|sessions|] == sessions;
  }

  // ---- with heartbeats in order ----

  predicate MovesInOrder(moves: seq<Move>, clock: int) {
    moves == [] ||
    var before, move := moves[..|moves| - 1], moves[|moves| - 1];
    if move.Seek? then move.now <= clock && MovesInOrder(before, move.now) else MovesInOrder(before, clock)
  }

  lemma OrderBefore(moves: seq<Move>, clock: int) returns (earlier: int)
    requires moves != [] && MovesInOrder(moves, clock)
    ensures MovesInOrder(moves[..|moves| - 1], earlier) && earlier <= clock
    ensures var move := moves[|moves| - 1]; earlier == if move.Seek? then move.now else clock
  {
    var move := moves[|moves| - 1];
    earlier := if move.Seek? then move.now else clock;
  }

  lemma {:induction false} SeenBefore(moves: seq<Move>, clock: int)
    requires MovesInOrder(moves, clock)
    ensures OpenBeat(moves).Some? ==> OpenBeat(moves).value.1 <= clock
    ensures var beating := AfterMoves(moves).beating;
            beating.Some? ==>
              beating.value.now <= clock && (BeatFound(moves).Some? ==> BeatFound(moves).value.1 <= beating.value.now)
    decreases |moves|
  {
    if moves != [] {
      var earlier := OrderBefore(moves, clock);
      SeenBefore(moves[..|moves| - 1], earlier);
    }
  }

  lemma GainsForward(moves: seq<Move>, k: nat, clock: int)
    requires moves != [] && MovesInOrder(moves, clock)
    ensures Gain(AfterMoves(moves[..|moves| - 1]), moves[|moves| - 1], k) >= 0
  {
    hide OpenBeat;
    hide BeatFound;
    hide LostOf;
    var earlier := OrderBefore(moves, clock);
    SplitRun(moves[..|moves| - 1]);
    SeenBefore(moves[..|moves| - 1], earlier);
  }

  lemma {:induction false} ExtendsForward(moves: seq<Move>, id: CloseId, k: nat, clock: int)
    requires MovesInOrder(moves, clock)
    ensures ExtendedSince(moves, id, k) >= 0
    decreases |moves|
  {
    hide Gain;
    if moves != [] {
      var earlier := OrderBefore(moves, clock);
      ExtendsForward(moves[..|moves| - 1], id, k, earlier);
      GainsForward(moves, k, clock);
    }
  }

  lemma {:induction false} LosesForward(moves: seq<Move>, k: nat, clock: int)
    requires MovesInOrder(moves, clock)
    ensures LostOf(moves, k) >= 0
    decreases |moves|
  {
    hide Gain;
    if moves != [] {
      var before, move := moves[..|moves| - 1], moves[|moves| - 1];
      var earlier := OrderBefore(moves, clock);
      LosesForward(before, k, earlier);
      GainsForward(moves, k, clock);
      if move.Write? {
        ExtendsForward(before, move.id, k, earlier);
      }
    }
  }

  lemma {:induction false} NothingLost(moves: seq<Move>, sessions: seq<Session>, date: string, n: nat, clock: int)
    requires n <= |sessions| && MovesInOrder(moves, clock)
    ensures LostMs(moves, sessions, date, n) >= 0
    ensures LostMs(moves, sessions, date, n) == 0 <==>
            forall k: nat | k < n && sessions[k].date == date :: LostOf(moves, k) == 0
    decreases n
  {
    hide LostOf;
    hide MovesInOrder;
    if n > 0 {
      NothingLost(moves, sessions, date, n - 1, clock);
      LosesForward(moves, n - 1, clock);
    }
  }

  /** So with heartbeats in order a date's sessions add up to its counted gaps, every call taken apart, if and only if
      no session of the date was extended after the close that wrote it last had found it; and they never add up to
      more. */
  lemma GapsCountedUnlessExtended(moves: seq<Move>, date: string, clock: int)
    requires MovesInOrder(moves, clock)
    ensures var sessions := AfterMoves(moves).sessions;
            && SpansMs(sessions, date) <= GapsMs(moves, date)
            && (SpansMs(sessions, date) == GapsMs(moves, date) <==>
                forall k: nat | k < |sessions| && sessions[k].date == date :: LostOf(moves, k) == 0)
  {
    hide LostOf;
    hide AfterMoves;
    var sessions := AfterMoves(moves).sessions;
    SplitClosesLose(moves, date);
    NothingLost(moves, sessions, date, |sessions|, clock);
  }

  predicate Forward(s: Session) {
    s.startedAt <= s.lastSeenAt && (s.endedAt.Some? ==> s.startedAt <= s.endedAt.value)
  }

  predicate AllForward(r: Rows) {
    && (forall k | 0 <= k < |r.sessions| :: Forward(r.sessions[k]))
    && (forall id | id in r.closing :: Forward(r.closing[id].row))
  }

  lemma GoForward(r: Rows, move: Move, beat: Option<(string, int)>)
    requires AllForward(r) && OnlyLastOpen(r.sessions) && BeatFits(r, beat)
    requires forall k: nat :: Gain(r, move, k) >= 0
    requires forall id | id in r.closing ::
               var found := r.closing[id];
               found.k < |r.sessions| && found.row.startedAt == r.sessions[found.k].startedAt
    ensures AllForward(Go(r, move))
  {
    GoIs(r, move, beat);
    var t := Go(r, move);
    FindsTheLast(r.sessions);
    forall k: nat | k < |t.sessions|
      ensures Forward(t.sessions[k])
    {
      if k < |r.sessions| {
        assert Forward(r.sessions[k]);
        assert Gain(r, move, k) >= 0;
      }
      if move.Write? && move.id in r.closing {
        assert Forward(r.closing[move.id].row);
      }
    }
  }

  lemma {:induction false} ForwardRun(moves: seq<Move>, clock: int)
    requires MovesInOrder(moves, clock)
    ensures AllForward(AfterMoves(moves))
    decreases |moves|
  {
    hide Forward;
    hide OpenBeat;
    hide BeatFound;
    hide LostOf;
    hide Gain;
    if moves != [] {
      var before, move := moves[..|moves| - 1], moves[|moves| - 1];
      var earlier := OrderBefore(moves, clock);
      ForwardRun(before, earlier);
      SplitRun(before);
      var r := AfterMoves(before);
      assert forall id | id in r.closing :: FoundFits(before, r, id);
      forall k: nat ensures Gain(r, move, k) >= 0 {
        GainsForward(moves, k, clock);
      }
      GoForward(r, move, BeatFound(before));
    }
  }

  lemma {:induction false} SecondsNearSpans(moves: seq<Move>, sessions: seq<Session>, date: string, n: nat)
    requires n <= |sessions| && forall k: nat | k < n :: SessionFits(moves, sessions[k], k) && Forward(sessions[k])
    ensures SpansMs(sessions[..n], date) - 500 * SessionsOn(sessions[..n], date) <=
            1000 * SumSeconds(sessions[..n], date) <=
            SpansMs(sessions[..n], date) + 500 * SessionsOn(sessions[..n], date)
    decreases n
  {
    hide LostOf;
    if n > 0 {
      SecondsNearSpans(moves, sessions, date, n - 1);
      assert sessions[..n][..n - 1] == sessions[..n - 1];
      assert SessionFits(moves, sessions[n - 1], n - 1) && Forward(sessions[n - 1]);
    }
  }

  /** The seconds that are shown are those milliseconds to within half a second a session. */
  lemma SplitSecondsNearMs(moves: seq<Move>, date: string, clock: int)
    requires MovesInOrder(moves, clock)
    ensures var sessions := AfterMoves(moves).sessions;
            var counted := GapsMs(moves, date) - LostMs(moves, sessions, date, |sessions|);
            counted - 500 * SessionsOn(sessions, date) <= 1000 * SumSeconds(sessions, date) <=
            counted + 500 * SessionsOn(sessions, date)
  {
    hide LostOf;
    hide GoAll;
    hide GapsMs;
    var sessions := AfterMoves(moves).sessions;
    SplitClosesLose(moves, date);
    SplitRun(moves);
    ForwardRun(moves, clock);
    SecondsNearSpans(moves, sessions, date, |sessions|);
    assert sessions[..|sessions|] == sessions;
  }

  /** A heartbeat between the find and the write of a close is lost: the session's row says it was seen then, but it
      ends, and counts, as it was found. */
  lemma HeartbeatBetweenIsLost(r: Rows, id: CloseId, date: string, now: int, graceSec: int)
    requires OnlyLastOpen(r.sessions) && r.sessions != [] && r.sessions[|r.sessions| - 1].endedAt.None?
    requires WithinGrace(r.sessions[|r.sessions| - 1], date, now, graceSec)
    requires id !in r.closing && r.beating.None?
    ensures var n := |r.sessions| - 1;
            var beaten := Go(Go(Go(r, Find(id)), Seek(date, now, graceSec)), Land);
            var after := Go(beaten, Write(id)).sessions;
            && |after| == n + 1 && after[n].lastSeenAt == now
            && after[n].endedAt == Some(r.sessions[n].lastSeenAt) && Seconds(after[n]) == Seconds(r.sessions[n])
  {
    FindsTheLast(r.sessions);
  }

  /** And so is one that a whole close comes between: it extends a session that has ended. */
  lemma CloseBetweenLosesTheHeartbeat(r: Rows, id: CloseId, date: string, now: int, graceSec: int)
    requires OnlyLastOpen(r.sessions) && r.sessions != [] && r.sessions[|r.sessions| - 1].endedAt.None?
    requires WithinGrace(r.sessions[|r.sessions| - 1], date, now, graceSec)
    requires id !in r.closing && r.beating.None?
    ensures var n := |r.sessions| - 1;
            var closed := Go(Go(Go(r, Seek(date, now, graceSec)), Find(id)), Write(id));
            var after := Go(closed, Land).sessions;
            && |after| == n + 1 && after[n].lastSeenAt == now
            && after[n].endedAt == Some(r.sessions[n].lastSeenAt) && Seconds(after[n]) == Seconds(r.sessions[n])
  {
    FindsTheLast(r.sessions);
  }

  class OnlineSessionRepository {
    var sessions: seq<Session>
    ghost var log: seq<Event>

    constructor ()
      ensures Valid() && log == []
    {
      sessions, log := [], [];
    }

    ghost predicate Valid()
      reads this
    {
      sessions == Replay(log)
    }

    /** One heartbeat, alone under the person's lock. */
    method Heartbeat(date: string, now: int, graceSec: int)
      requires Valid()
      modifies this
      ensures Valid() && log == old(log) + [Beat(date, now, graceSec)]
    {
      assert (log + [Beat(date, now, graceSec)])[..|log|] == log;
      var open := FindOpen(sessions);
      log := log + [Beat(date, now, graceSec)];
      if open.Some? && WithinGrace(sessions[open.value], date, now, graceSec) {
        sessions := sessions[open.value := sessions[open.value].(lastSeenAt := now)];
        return;
      }
      if open.Some? {
        sessions := sessions[open.value := Closed(sessions[open.value])];
      }
      sessions := sessions + [Session(date, now, now, None, None)];
    }

    method CloseOpenForUser()
      requires Valid()
      modifies this
      ensures Valid() && log == old(log) + [CloseOpen]
    {
      assert (log + [CloseOpen])[..|log|] == log;
      log := log + [CloseOpen];
      var open := FindOpen(sessions);
      if open.Some? {
        sessions := sessions[open.value := Closed(sessions[open.value])];
      }
    }

    /** The day's online seconds: the gaps between its heartbeats that count, each session rounded once, and
        exactly those gaps when heartbeats fall on whole seconds. */
    method SumSecondsForUserByDate(date: string, ghost clock: int) returns (sum: nat)
      requires Valid()
      ensures InOrder(log, clock) ==>
                CountedMs(log, date) - 500 * SessionsOn(sessions, date) <= 1000 * sum <=
                CountedMs(log, date) + 500 * SessionsOn(sessions, date)
      ensures InOrder(log, clock) && WholeBeats(log) ==> 1000 * sum == CountedMs(log, date)
    {
      sum := 0;
      for i := 0 to |sessions|
        invariant sum == SumSeconds(sessions[..i], date)
      {
        assert sessions[..i + 1][..i] == sessions[..i];
        if sessions[i].date == date {
          sum := sum + Seconds(sessions[i]);
        }
      }
      assert sessions[..|sessions|] == sessions;
      if InOrder(log, clock) {
        SessionsCountTheGaps(log, date);
        SessionsDisjoint(log, clock);
        SecondsNearMs(sessions, date);
        if WholeBeats(log) {
          WholeBeatsWholeSessions(log);
          SecondsAreMs(sessions, date);
        }
      }
    }
  }
}
