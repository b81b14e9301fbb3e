/** The session store of pkg/auth/sessions/session.go and the authentication of pkg/auth/auth.go. */
module Sessions {
  import opened Clock
  import opened Queue
  import opened Sets

  const SESSION_EXPIRY: int := 24 * HOUR
  const LAST_SEEN_EXPIRY: int := HOUR
  const TIME_BUFFER: int := HOUR

  datatype Session = Session(userId: nat, startTime: int, lastSeen: int)

  /** Not expired on either clock; each has its own reading. */
  predicate Accepts(s: Session, startRead: int, seenRead: int) {
    !(Since(startRead, s.startTime) > SESSION_EXPIRY || Since(seenRead, s.lastSeen) > LAST_SEEN_EXPIRY)
  }

  /** What a clean leaves alone. */
  predicate Survives(s: Session, startRead: int, seenRead: int) {
    !(s.startTime < startRead - SESSION_EXPIRY - TIME_BUFFER || s.lastSeen < seenRead - LAST_SEEN_EXPIRY - TIME_BUFFER)
  }

  /** The sessions table. A session's key is the hash of its cookie; keys are fresh UUIDs. */
  class SessionStore {
    var sessions: map<string, Session>

    constructor ()
      ensures sessions == map[]
    {
      sessions := map[];
    }

    method GetSessionByID(id: string, startRead: int, seenRead: int) returns (r: Option<Session>)
      ensures r.Some? <==> id in sessions && startRead - sessions[id].startTime <= 24 * HOUR
                           && seenRead - sessions[id].lastSeen <= HOUR
      ensures r.Some? ==> r.value == sessions[id]
    {
      if id !in sessions {
        return None;
      }
      var session := sessions[id];
      if Since(startRead, session.startTime) > SESSION_EXPIRY || Since(seenRead, session.lastSeen) > LAST_SEEN_EXPIRY {
        return None;
      }
      return Some(session);
    }

    method CreateSession(id: string, userId: nat, now: int, commits: bool) returns (ok: bool)
      requires id !in sessions
      modifies this
      ensures ok <==> commits && userId >= 1 && 1 <= |id| <= 1000
      ensures sessions == if ok then old(sessions)[id := Session(userId, now, now)] else old(sessions)
    {
      if !commits || userId < 1 || |id| < 1 || |id| > 1000 {
        return false;
      }
      sessions := sessions[id := Session(userId, now, now)];
      return true;
    }

    /** Updates no row when the session is gone by now, which is not an error. */
    method UpdateSessionLastSeen(id: string, now: int, commits: bool) returns (ok: bool)
      modifies this
      ensures ok <==> commits
      ensures sessions == if ok && id in old(sessions) then old(sessions)[id := old(sessions)[id].(lastSeen := now)]
                          else old(sessions)
    {
      if commits && id in sessions {
        sessions := sessions[id := sessions[id].(lastSeen := now)];
      }
      return commits;
    }

    method DeleteSession(id: string, commits: bool) returns (ok: bool)
      modifies this
      ensures ok <==> commits && id != ""
      ensures sessions == if ok then old(sessions) - {id} else old(sessions)
    {
      if id == "" || !commits {
        return false;
      }
      sessions := sessions - {id};
      return true;
    }

    method DeleteExpiredSessions(startRead: int, seenRead: int, commits: bool) returns (deleted: Option<nat>)
      modifies this
      ensures deleted.Some? <==> commits
      ensures deleted.None? ==> sessions == old(sessions)
      ensures deleted.Some? ==> deleted.value == |old(sessions)| - |sessions|
      ensures deleted.Some? ==> forall id ::
                (id in sessions <==>
                   && id in old(sessions)
                   && startRead - old(sessions)[id].startTime <= 25 * HOUR
                   && seenRead - old(sessions)[id].lastSeen <= 2 * HOUR)
                && (id in sessions ==> sessions[id] == old(sessions)[id])
    {
      if !commits {
        return None;
      }
      var kept := map id | id in sessions && Survives(sessions[id], startRead, seenRead) :: sessions[id];
      var size := |sessions|;
      SubsetSize(kept.Keys, sessions.Keys);
      sessions := kept;
      return Some(size - |kept|);
    }

    /** The middleware for a request with a session cookie: accepted, then touched; a touch that
        fails does not reject the request. */
    method Authenticate(id: string, startRead: int, seenRead: int, touchedAt: int, touchCommits: bool)
      returns (user: Option<nat>)
      modifies this
      ensures user == if id in old(sessions) && Accepts(old(sessions)[id], startRead, seenRead)
                      then Some(old(sessions)[id].userId) else None
      ensures sessions == if user.Some? && touchCommits
                          then old(sessions)[id := old(sessions)[id].(lastSeen := touchedAt)] else old(sessions)
    {
      var s := GetSessionByID(id, startRead, seenRead);
      if s.None? {
        return None;
      }
      var _ := UpdateSessionLastSeen(id, touchedAt, touchCommits);
      return Some(s.value.userId);
    }
  }

  // ---- runs ----

  /** An access that was accepted, at the first of its two readings. */
  datatype Access = Access(id: string, at: int)

  /** The touch that followed an accepted access. */
  datatype Touching = Touching(access: Access, at: int)

  datatype State = State(
    sessions: map<string, Session>,
    clock: int,
    started: map<string, int>,  // history: every session ever created, with its start
    accepted: set<Access>,      // history: every accepted access
    touched: set<Touching>)     // history: every touch that reached its row

  /** An access is a lookup and, if that accepts and the write commits, a touch at some later moment. */
  datatype Event =
    | Create(id: string, userId: nat, now: int)
    | Lookup(id: string, startRead: int, seenRead: int)
    | Touch(access: Access, now: int)
    | Logout(id: string)
    | Clean(startRead: int, seenRead: int)

  ghost function EmptyAt(clock: int): State {
    State(map[], clock, map[], {}, {})
  }

  ghost predicate Enabled(s: State, e: Event) {
    match e
    case Create(id, _, now) => id !in s.started && s.clock <= now
    case Lookup(_, startRead, seenRead) => s.clock <= startRead <= seenRead
    case Touch(access, now) => access in s.accepted && s.clock <= now
    case Logout(_) => true
    case Clean(startRead, seenRead) => s.clock <= startRead <= seenRead
  }

  ghost predicate Answer(s: State, id: string, startRead: int, seenRead: int) {
    id in s.sessions && Accepts(s.sessions[id], startRead, seenRead)
  }

  ghost function Apply(s: State, e: Event): State
    requires Enabled(s, e)
  {
    match e
    case Create(id, userId, now) =>
      s.(sessions := s.sessions[id := Session(userId, now, now)], started := s.started[id := now], clock := now)
    case Lookup(id, startRead, seenRead) =>
      s.(clock := seenRead,
         accepted := if Answer(s, id, startRead, seenRead) then s.accepted + {Access(id, startRead)} else s.accepted)
    case Touch(access, now) =>
      var id := access.id;
      s.(clock := now,
         sessions := if id in s.sessions then s.sessions[id := s.sessions[id].(lastSeen := now)] else s.sessions,
         touched := if id in s.sessions then s.touched + {Touching(access, now)} else s.touched)
    case Logout(id) => s.(sessions := s.sessions - {id})
    case Clean(startRead, seenRead) =>
      s.(clock := seenRead,
         sessions := map id | id in s.sessions && Survives(s.sessions[id], startRead, seenRead) :: s.sessions[id])
  }

  ghost predicate CanRun(s: State, es: seq<Event>)
    decreases |es|
  {
    es == [] || (Enabled(s, es[0]) && CanRun(Apply(s, es[0]), es[1..]))
  }

  ghost function Run(s: State, es: seq<Event>): State
    requires CanRun(s, es)
    decreases |es|
  {
    if es == [] then s else Run(Apply(s, es[0]), es[1..])
  }

  /** The answers that the lookups of a run get, in order. */
  ghost function Answers(s: State, es: seq<Event>): seq<bool>
    requires CanRun(s, es)
    decreases |es|
  {
    if es == [] then [] else
    (if es[0].Lookup? then [Answer(s, es[0].id, es[0].startRead, es[0].seenRead)] else [])
    + Answers(Apply(s, es[0]), es[1..])
  }

  /** The run with every clean step removed. */
  ghost function WithoutCleans(es: seq<Event>): seq<Event> {
    if es == [] then [] else (if es[0].Clean? then [] else [es[0]]) + WithoutCleans(es[1..])
  }

  /** Every touch comes at most `delay` after the access it belongs to. */
  ghost predicate Prompt(es: seq<Event>, delay: int) {
    forall k :: 0 <= k < |es| && es[k].Touch? ==> es[k].now - es[k].access.at <= delay
  }

  // ---- logout ----

  /** After a logout the session is gone for good: no access of it is accepted in any run from then on. */
  lemma {:induction false} GoneIsGone(s: State, es: seq<Event>, id: string)
    requires CanRun(s, es) && id in s.started && id !in s.sessions
    ensures id !in Run(s, es).sessions
    ensures forall a :: a in Run(s, es).accepted && a.id == id ==> a in s.accepted
    decreases |es|
  {
    if es != [] {
      GoneIsGone(Apply(s, es[0]), es[1..], id);
    }
  }

  lemma {:induction false} LogoutEnds(s: State, es: seq<Event>, id: string)
    requires id in s.started && Enabled(s, Logout(id)) && CanRun(Apply(s, Logout(id)), es)
    ensures var s' := Run(Apply(s, Logout(id)), es);
            id !in s'.sessions && forall a :: a in s'.accepted && a.id == id ==> a in s.accepted
  {
    GoneIsGone(Apply(s, Logout(id)), es, id);
  }

  // ---- housekeeping is invisible ----

  ghost predicate Inv(s: State) {
    && (forall id :: id in s.sessions ==>
          && id in s.started && s.sessions[id].startTime == s.started[id]
          && s.sessions[id].startTime <= s.sessions[id].lastSeen <= s.clock)
    && (forall a :: a in s.accepted ==> a.id in s.started && a.at <= s.clock && a.at - s.started[a.id] <= SESSION_EXPIRY)
    && (forall a :: a in s.accepted && a.id in s.sessions ==> a.at - s.sessions[a.id].lastSeen <= LAST_SEEN_EXPIRY)
  }

  lemma StepKeepsInv(s: State, e: Event)
    requires Inv(s) && Enabled(s, e)
    ensures Inv(Apply(s, e))
  {
  }

  /** Beyond every lookup and every prompt touch from this moment on. */
  ghost predicate Dead(f: State, id: string, clock: int)
    requires id in f.sessions
  {
    && (clock - f.sessions[id].startTime > SESSION_EXPIRY || clock - f.sessions[id].lastSeen > LAST_SEEN_EXPIRY)
    && (forall a :: a in f.accepted && a.id == id ==> clock - a.at > TIME_BUFFER)
  }

  /** The cleaned state against the uncleaned one: all that is missing is dead. */
  ghost predicate Matches(c: State, f: State) {
    && f.clock <= c.clock && c.started == f.started && c.accepted == f.accepted
    && (forall id :: id in c.sessions ==> id in f.sessions && f.sessions[id] == c.sessions[id])
    && (forall id :: id in f.sessions && id !in c.sessions ==> Dead(f, id, c.clock))
  }

  /** In any run, what a clean leaves is within the limits of both clocks and their buffers, as it was;
      and everything within them is left. */
  lemma {:induction false} CleanIsThorough(clock: int, es: seq<Event>, startRead: int, seenRead: int, id: string)
    requires CanRun(EmptyAt(clock), es) && Enabled(Run(EmptyAt(clock), es), Clean(startRead, seenRead))
    ensures var s := Run(EmptyAt(clock), es);
            var s' := Apply(s, Clean(startRead, seenRead));
            && (id in s'.sessions <==>
                  id in s.sessions && startRead - s.sessions[id].startTime <= 25 * HOUR
                  && seenRead - s.sessions[id].lastSeen <= 2 * HOUR)
            && (id in s'.sessions ==> s'.sessions[id] == s.sessions[id])
            && (s'.started, s'.accepted, s'.touched) == (s.started, s.accepted, s.touched)
  {
  }

  /** A clean deletes only what is dead. */
  lemma CleanedIsDead(f: State, id: string, startRead: int, seenRead: int)
    requires Inv(f) && id in f.sessions && f.clock <= startRead <= seenRead
    requires !Survives(f.sessions[id], startRead, seenRead)
    ensures Dead(f, id, seenRead)
  {
  }

  lemma SameAnswer(c: State, f: State, id: string, startRead: int, seenRead: int)
    requires Matches(c, f) && c.clock <= startRead <= seenRead
    ensures Answer(c, id, startRead, seenRead) <==> Answer(f, id, startRead, seenRead)
  {
  }

  lemma StepMatches(c: State, f: State, e: Event)
    requires Inv(f) && Matches(c, f) && Enabled(c, e) && !e.Clean?
    requires e.Touch? ==> e.now - e.access.at <= TIME_BUFFER
    ensures Enabled(f, e) && Matches(Apply(c, e), Apply(f, e))
  {
    if e.Lookup? {
      SameAnswer(c, f, e.id, e.startRead, e.seenRead);
    }
  }

  lemma CleanMatches(c: State, f: State, startRead: int, seenRead: int)
    requires Inv(f) && Matches(c, f) && Enabled(c, Clean(startRead, seenRead))
    ensures Matches(Apply(c, Clean(startRead, seenRead)), f)
  {
    var c' := Apply(c, Clean(startRead, seenRead));
    forall id | id in f.sessions && id !in c'.sessions
      ensures Dead(f, id, c'.clock)
    {
      if id in c.sessions {
        CleanedIsDead(f, id, startRead, seenRead);
      }
    }
  }

  lemma {:induction false} RunsMatch(c: State, f: State, es: seq<Event>)
    requires Inv(f) && Matches(c, f) && CanRun(c, es) && Prompt(es, TIME_BUFFER)
    ensures CanRun(f, WithoutCleans(es)) && Answers(f, WithoutCleans(es)) == Answers(c, es)
    decreases |es|
  {
    if es != [] {
      var e, rest := es[0], es[1..];
      assert Prompt(rest, TIME_BUFFER) by {
        assert forall k :: 0 <= k < |rest| ==> rest[k] == es[k + 1];
      }
      if e.Clean? {
        CleanMatches(c, f, e.startRead, e.seenRead);
        RunsMatch(Apply(c, e), f, rest);
        assert WithoutCleans(es) == WithoutCleans(rest);
      } else {
        StepMatches(c, f, e);
        StepKeepsInv(f, e);
        RunsMatch(Apply(c, e), Apply(f, e), rest);
        if e.Lookup? {
          SameAnswer(c, f, e.id, e.startRead, e.seenRead);
        }
        assert WithoutCleans(es) == [e] + WithoutCleans(rest);
        assert ([e] + WithoutCleans(rest))[1..] == WithoutCleans(rest);
      }
    }
  }

  /** In every run whose touches are at most this late, the lookups are answered as if there had been
      no cleaning. */
  ghost predicate CleaningIsInvisible(delay: int) {
    forall clock, es :: CanRun(EmptyAt(clock), es) && Prompt(es, delay) ==>
      CanRun(EmptyAt(clock), WithoutCleans(es)) &&
      Answers(EmptyAt(clock), WithoutCleans(es)) == Answers(EmptyAt(clock), es)
  }

  /** Housekeeping is invisible, for every run of creations, accesses, logouts and cleans, exactly as
      long as an accepted access is touched within the hour that the cleaner's buffer allows. */
  lemma HousekeepingInvisible(delay: int)
    ensures CleaningIsInvisible(delay) <==> delay <= TIME_BUFFER
  {
    if delay <= TIME_BUFFER {
      forall clock, es | CanRun(EmptyAt(clock), es) && Prompt(es, delay)
        ensures CanRun(EmptyAt(clock), WithoutCleans(es))
        ensures Answers(EmptyAt(clock), WithoutCleans(es)) == Answers(EmptyAt(clock), es)
      {
        RunsMatch(EmptyAt(clock), EmptyAt(clock), es);
      }
    } else {
      LateTouchShows();
    }
  }

  lemma {:induction false} RunCons(s: State, e: Event, es: seq<Event>)
    requires Enabled(s, e) && CanRun(Apply(s, e), es)
    ensures CanRun(s, [e] + es)
    ensures Answers(s, [e] + es) ==
              (if e.Lookup? then [Answer(s, e.id, e.startRead, e.seenRead)] else []) + Answers(Apply(s, e), es)
    ensures WithoutCleans([e] + es) == (if e.Clean? then [] else [e]) + WithoutCleans(es)
  {
  }

  /** The last steps of the example: a touch that is just over an hour late, and one more access. */
  lemma LateTouchEnding(s: State) returns (es: seq<Event>)
    requires Access("a", HOUR) in s.accepted && s.clock <= 2 * HOUR + 1
    requires "a" in s.sessions ==> s.sessions["a"].startTime == 0
    ensures es == [Touch(Access("a", HOUR), 2 * HOUR + 1)] + ([Lookup("a", 2 * HOUR + 1, 2 * HOUR + 1)] + [])
    ensures CanRun(s, es) && WithoutCleans(es) == es
    ensures Answers(s, es) == ["a" in s.sessions]
  {
    var touch, last := Touch(Access("a", HOUR), 2 * HOUR + 1), Lookup("a", 2 * HOUR + 1, 2 * HOUR + 1);
    var s1 := Apply(s, touch);
    var s2 := Apply(s1, last);
    assert CanRun(s2, []) && Answers(s2, []) == [];
    RunCons(s1, last, []);
    RunCons(s, touch, [last] + []);
    assert WithoutCleans([last] + []) == [last] + [];
    es := [touch] + ([last] + []);
  }

  /** Created at 0, accepted one hour later, cleaned (or not) just after two hours, then touched. */
  ghost function LateTouchRun(cleans: bool): seq<Event> {
    [Create("a", 1, 0)] + ([Lookup("a", HOUR, HOUR)] +
    ((if cleans then [Clean(2 * HOUR + 1, 2 * HOUR + 1)] else []) +
    ([Touch(Access("a", HOUR), 2 * HOUR + 1)] + ([Lookup("a", 2 * HOUR + 1, 2 * HOUR + 1)] + []))))
  }

  lemma LateTouchAnswers(cleans: bool)
    ensures CanRun(EmptyAt(0), LateTouchRun(cleans)) && Answers(EmptyAt(0), LateTouchRun(cleans)) == [true, !cleans]
    ensures WithoutCleans(LateTouchRun(cleans)) == LateTouchRun(false)
  {
    var create, first := Create("a", 1, 0), Lookup("a", HOUR, HOUR);
    var clean := Clean(2 * HOUR + 1, 2 * HOUR + 1);
    var s1 := Apply(EmptyAt(0), create);
    var s2 := Apply(s1, first);
    var rest;
    if cleans {
      var s3 := Apply(s2, clean);
      assert "a" !in s3.sessions;
      rest := LateTouchEnding(s3);
      RunCons(s2, clean, rest);
      rest := [clean] + rest;
    } else {
      rest := LateTouchEnding(s2);
      assert [] + rest == rest;
    }
    assert Answers(s2, rest) == [!cleans];
    RunCons(s1, first, rest);
    RunCons(EmptyAt(0), create, [first] + rest);
  }

  /** A touch later than the buffer can be seen: without the clean it revives the session. */
  lemma LateTouchShows()
    ensures exists es :: CanRun(EmptyAt(0), es) && Prompt(es, TIME_BUFFER + 1)
                         && CanRun(EmptyAt(0), WithoutCleans(es))
                         && Answers(EmptyAt(0), WithoutCleans(es)) != Answers(EmptyAt(0), es)
  {
    LateTouchAnswers(true);
    LateTouchAnswers(false);
    var es := LateTouchRun(true);
    assert Prompt(es, TIME_BUFFER + 1);
    assert Answers(EmptyAt(0), es)[1] != Answers(EmptyAt(0), WithoutCleans(es))[1];
  }

  // ---- session chain ----

  /** Touches of a session: each belongs to an access that was accepted within an hour of the touch
      before it, the first within an hour of the start. */
  ghost predicate IsChain(chain: seq<Touching>, start: int, id: string, touched: set<Touching>) {
    forall k :: 0 <= k < |chain| ==>
      && chain[k] in touched && chain[k].access.id == id
      && 0 <= chain[k].access.at - ChainEnd(chain[..k], start) <= LAST_SEEN_EXPIRY
      && chain[k].access.at <= chain[k].at
  }

  ghost function ChainEnd(chain: seq<Touching>, start: int): int {
    if chain == [] then start else chain[|chain| - 1].at
  }

  /** The access was accepted within an hour of the last touch of a chain. */
  ghost predicate ChainTo(chain: seq<Touching>, s: State, a: Access) {
    && a.id in s.started
    && IsChain(chain, s.started[a.id], a.id, s.touched)
    && 0 <= a.at - ChainEnd(chain, s.started[a.id]) <= LAST_SEEN_EXPIRY
  }

  ghost predicate HasChain(s: State, a: Access) {
    exists chain :: ChainTo(chain, s, a)
  }

  /** Last seen is the start, or a touch. */
  ghost predicate SeenFits(s: State, id: string)
    requires id in s.sessions
  {
    || s.sessions[id].lastSeen == s.sessions[id].startTime
    || exists t :: t in s.touched && t.access.id == id && t.at == s.sessions[id].lastSeen
  }

  ghost predicate ChainInv(s: State) {
    && (forall a :: a in s.accepted ==> HasChain(s, a))
    && (forall t :: t in s.touched ==> t.access in s.accepted && t.access.at <= t.at)
    && (forall id :: id in s.sessions ==> SeenFits(s, id))
  }

  lemma ChainStays(s: State, e: Event, a: Access)
    requires Inv(s) && Enabled(s, e) && HasChain(s, a)
    ensures HasChain(Apply(s, e), a)
  {
    var chain :| ChainTo(chain, s, a);
    assert ChainTo(chain, Apply(s, e), a);
  }

  lemma ChainGrows(chain: seq<Touching>, s: State, t: Touching)
    requires ChainTo(chain, s, t.access) && t in s.touched && t.access.at <= t.at
    ensures IsChain(chain + [t], s.started[t.access.id], t.access.id, s.touched)
    ensures ChainEnd(chain + [t], s.started[t.access.id]) == t.at
  {
    var longer := chain + [t];
    forall k | 0 <= k < |longer|
      ensures longer[..k] == chain[..k]
    {
    }
  }

  /** An accepted lookup extends the chain of the touch that keeps it alive, or starts one. */
  lemma LookupExtends(s: State, id: string, startRead: int, seenRead: int)
    requires Inv(s) && ChainInv(s) && Enabled(s, Lookup(id, startRead, seenRead))
    requires Answer(s, id, startRead, seenRead)
    ensures HasChain(s, Access(id, startRead))
  {
    var seen := s.sessions[id].lastSeen;
    assert SeenFits(s, id);
    if seen == s.sessions[id].startTime {
      assert ChainTo([], s, Access(id, startRead));
    } else {
      var t :| t in s.touched && t.access.id == id && t.at == seen;
      assert HasChain(s, t.access);
      var chain :| ChainTo(chain, s, t.access);
      ChainGrows(chain, s, t);
      assert ChainTo(chain + [t], s, Access(id, startRead));
    }
  }

  lemma StepKeepsChains(s: State, e: Event)
    requires Inv(s) && ChainInv(s) && Enabled(s, e)
    ensures forall a :: a in Apply(s, e).accepted ==> HasChain(Apply(s, e), a)
  {
    var s' := Apply(s, e);
    forall a | a in s'.accepted
      ensures HasChain(s', a)
    {
      if a !in s.accepted {
        LookupExtends(s, e.id, e.startRead, e.seenRead);
      }
      ChainStays(s, e, a);
    }
  }

  lemma StepKeepsChain(s: State, e: Event)
    requires Inv(s) && ChainInv(s) && Enabled(s, e)
    ensures ChainInv(Apply(s, e))
  {
    var s' := Apply(s, e);
    StepKeepsChains(s, e);
    forall id | id in s'.sessions
      ensures SeenFits(s', id)
    {
      if e.Touch? && e.access.id == id {
        assert Touching(e.access, e.now) in s'.touched;
      } else if id in s.sessions {
        assert SeenFits(s, id);
      }
    }
  }

  lemma {:induction false} RunKeepsChain(s: State, es: seq<Event>)
    requires Inv(s) && ChainInv(s) && CanRun(s, es)
    ensures Inv(Run(s, es)) && ChainInv(Run(s, es))
    ensures forall id :: id in s.started ==> id in Run(s, es).started && Run(s, es).started[id] == s.started[id]
    decreases |es|
  {
    if es != [] {
      StepKeepsInv(s, es[0]);
      StepKeepsChain(s, es[0]);
      RunKeepsChain(Apply(s, es[0]), es[1..]);
    }
  }

  /** Session chain: an access accepted at some time belongs to a session that was started at most
      24 hours before and whose start has not changed since; and from the start to that time there is
      a chain of accepted accesses and the touches that followed them, in which no touch is more than
      an hour before the access that comes next. */
  lemma {:induction false} SessionChain(clock: int, es: seq<Event>, a: Access)
    requires CanRun(EmptyAt(clock), es) && a in Run(EmptyAt(clock), es).accepted
    ensures var s := Run(EmptyAt(clock), es);
            && a.id in s.started && a.at - s.started[a.id] <= 24 * HOUR
            && (a.id in s.sessions ==> s.sessions[a.id].startTime == s.started[a.id])
            && (forall t :: t in s.touched ==> t.access in s.accepted)
            && exists chain :: ChainTo(chain, s, a)
  {
    RunKeepsChain(EmptyAt(clock), es);
    assert HasChain(Run(EmptyAt(clock), es), a);
  }

  lemma {:induction false} TouchesArePrompt(s: State, es: seq<Event>, delay: int)
    requires CanRun(s, es) && Prompt(es, delay) && forall t :: t in s.touched ==> t.at - t.access.at <= delay
    ensures forall t :: t in Run(s, es).touched ==> t.at - t.access.at <= delay
    decreases |es|
  {
    if es != [] {
      assert Prompt(es[1..], delay) by {
        assert forall k :: 0 <= k < |es[1..]| ==> es[1..][k] == es[k + 1];
      }
      TouchesArePrompt(Apply(s, es[0]), es[1..], delay);
    }
  }

  /** So if touches are prompt, consecutive accesses of that chain are an hour and that delay apart at
      most. */
  lemma {:induction false} PromptChain(clock: int, es: seq<Event>, delay: int, chain: seq<Touching>, a: Access, k: nat)
    requires CanRun(EmptyAt(clock), es) && Prompt(es, delay) && ChainTo(chain, Run(EmptyAt(clock), es), a)
    requires 1 <= k <= |chain|
    ensures (if k < |chain| then chain[k].access.at else a.at) - chain[k - 1].access.at <= LAST_SEEN_EXPIRY + delay
  {
    TouchesArePrompt(EmptyAt(clock), es, delay);
    assert chain[k - 1] in Run(EmptyAt(clock), es).touched;
    if k < |chain| {
      assert ChainEnd(chain[..k], Run(EmptyAt(clock), es).started[a.id]) == chain[k - 1].at;
    }
  }
}
