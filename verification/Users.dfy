/** Users, access levels and the web requests that manage them: pkg/auth/users/user.go,
    pkg/auth/access_control.go and the user handlers of pkg/webserver/handlers.go. */
module Users {
  import opened Queue

  const LEVEL_NONE: int := -1
  const LEVEL_READ_ONLY: int := 1
  const LEVEL_ADMIN: int := 3

  /** A row; deleted rows stay in the table, and their usernames stay taken. */
  datatype User = User(username: string, level: int, deleted: bool)

  predicate ValidUser(username: string, level: int) {
    1 <= |username| <= 50 && 1 <= level <= 3
  }

  predicate Live(users: map<nat, User>, id: nat) {
    id in users && !users[id].deleted
  }

  predicate Taken(users: map<nat, User>, username: string, except: Option<nat>) {
    exists id :: id in users && users[id].username == username && Some(id) != except
  }

  // ---- access control ----

  /** The user in a request's context. */
  datatype ContextUser = ContextUser(id: nat, level: int)

  /** What a session puts there: its user's row, or an empty one when the user has been deleted. */
  function SessionUser(users: map<nat, User>, userId: nat): ContextUser {
    if Live(users, userId) then ContextUser(userId, users[userId].level) else ContextUser(0, 0)
  }

  function CheckAccessLevel(user: ContextUser, required: int): bool {
    user.level >= required
  }

  /** The middleware's decision: a route must name a level, and -1 asks for none. */
  function Allows(required: Option<int>, user: Option<ContextUser>): (ok: bool)
    ensures required == Some(LEVEL_NONE) ==> ok
    ensures required.None? || required.value == 0 ==> !ok
    ensures user.None? && ok ==> required == Some(LEVEL_NONE)
    ensures required.Some? && required.value >= LEVEL_READ_ONLY && user.Some? ==>
              (ok <==> user.value.level >= required.value)
  {
    if required.None? || required.value == 0 then false
    else if required.value == LEVEL_NONE then true
    else user.Some? && CheckAccessLevel(user.value, required.value)
  }

  /** On a route that needs a level, exactly the sessions of live users of that level pass; those of
      deleted users pass none. */
  lemma LevelRoutes(users: map<nat, User>, userId: nat, required: int)
    requires required >= LEVEL_READ_ONLY
    ensures Allows(Some(required), Some(SessionUser(users, userId))) <==>
              Live(users, userId) && users[userId].level >= required
  {
  }

  /** A user with a higher level passes every route that one with a lower level passes. */
  lemma LevelsAreNested(required: Option<int>, low: ContextUser, high: ContextUser)
    requires low.level <= high.level && Allows(required, Some(low))
    ensures Allows(required, Some(high))
  {
  }

  // ---- the table and its handlers ----

  datatype Answer = Done | Refused | NotFound | Failed

  class UserStore {
    var users: map<nat, User>
    var nextId: nat

    ghost predicate Valid()
      reads this
    {
      WellFormed(users) && nextId >= 1 && forall id :: id in users ==> id < nextId
    }

    constructor ()
      ensures Valid() && users == map[]
    {
      users := map[];
      nextId := 1;
    }

    method CreateUser(username: string, passwordAccepted: bool, level: int, commits: bool) returns (ok: bool)
      requires Valid()
      modifies this
      ensures Valid()
      ensures ok <==>
                && passwordAccepted && commits
                && 1 <= |username| <= 50 && 1 <= level <= 3
                && forall id :: id in old(users) ==> old(users)[id].username != username
      ensures !ok ==> users == old(users)
      ensures ok ==> old(nextId) !in old(users) && users == old(users)[old(nextId) := User(username, level, false)]
    {
      if !passwordAccepted {
        return false;
      }
      if !commits || !ValidUser(username, level) || Taken(users, username, None) {
        return false;
      }
      users := users[nextId := User(username, level, false)];
      nextId := nextId + 1;
      return true;
    }

    method UpdateUser(id: nat, newUsername: string, newLevel: int, commits: bool) returns (ok: bool)
      requires Valid()
      modifies this
      ensures Valid()
      ensures ok <==>
                && Live(old(users), id) && commits
                && 1 <= |newUsername| <= 50 && 1 <= newLevel <= 3
                && forall other :: other in old(users) && other != id ==> old(users)[other].username != newUsername
      ensures users == if ok then old(users)[id := User(newUsername, newLevel, false)] else old(users)
    {
      if !Live(users, id) {
        return false;
      }
      if !commits || !ValidUser(newUsername, newLevel) || Taken(users, newUsername, Some(id)) {
        return false;
      }
      users := users[id := users[id].(username := newUsername, level := newLevel)];
      return true;
    }

    method DeleteUser(id: nat, commits: bool) returns (a: Answer)
      requires Valid()
      modifies this
      ensures Valid()
      ensures a.NotFound? <==> !Live(old(users), id)
      ensures a.Done? <==> Live(old(users), id) && commits
      ensures a.Done? || a.NotFound? || a.Failed?
      ensures users == if a.Done? then old(users)[id := old(users)[id].(deleted := true)] else old(users)
    {
      if !Live(users, id) {
        return NotFound;
      }
      if !commits {
        return Failed;
      }
      users := users[id := users[id].(deleted := true)];
      return Done;
    }

    /** The delete handler: the current user cannot be deleted. */
    method HandleDelete(current: ContextUser, target: Option<nat>, commits: bool) returns (a: Answer)
      requires Valid()
      modifies this
      ensures Valid()
      ensures users == Serve(old(users), old(nextId), current, Delete(target, commits))
      ensures a.Refused? <==> target in {None, Some(0), Some(current.id)}
      ensures a.NotFound? <==> target !in {None, Some(0), Some(current.id)} && !Live(old(users), target.value)
      ensures a.Done? ==> users != old(users)
    {
      if target.None? || target.value == 0 {
        return Refused;
      }
      if target.value == current.id {
        return Refused;
      }
      a := DeleteUser(target.value, commits);
    }

    /** The update handler: the current user cannot go below admin. */
    method HandleUpdate(current: ContextUser, target: Option<nat>, username: string, level: int, formValid: bool,
                        commits: bool)
      returns (a: Answer)
      requires Valid()
      modifies this
      ensures Valid()
      ensures users == Serve(old(users), old(nextId), current, Update(target, username, level, formValid, commits))
      ensures a.Refused? <==> target.None? || !formValid || (target.value == current.id && level < LEVEL_ADMIN)
      ensures a.Done? ==> Live(users, target.value) && users[target.value] == User(username, level, false)
      ensures a.Failed? ==> users == old(users)
    {
      if target.None? || !formValid {
        return Refused;
      }
      if target.value == current.id && level < LEVEL_ADMIN {
        return Refused;
      }
      var ok := UpdateUser(target.value, username, level, commits);
      return if ok then Done else Failed;
    }

    method HandleCreate(current: ContextUser, username: string, level: int, formValid: bool, passwordAccepted: bool,
                        commits: bool)
      returns (a: Answer)
      requires Valid()
      modifies this
      ensures Valid()
      ensures users ==
                Serve(old(users), old(nextId), current, Create(username, level, formValid, passwordAccepted, commits))
      ensures a.Refused? <==> !formValid
      ensures a.Done? <==> users != old(users)
    {
      if !formValid {
        return Refused;
      }
      var ok := CreateUser(username, passwordAccepted, level, commits);
      return if ok then Done else Failed;
    }
  }

  // ---- runs of requests, handled one at a time ----

  /** A request to a user management route; a target that is no unsigned number does not parse. */
  datatype Request =
    | Delete(target: Option<nat>, commits: bool)
    | Update(target: Option<nat>, username: string, level: int, formValid: bool, commits: bool)
    | Create(username: string, level: int, formValid: bool, passwordAccepted: bool, commits: bool)

  /** The rows after a request that passed access control; a new row gets the id newId. */
  ghost function Serve(users: map<nat, User>, newId: nat, current: ContextUser, r: Request): map<nat, User> {
    match r
    case Delete(target, commits) =>
      if target.Some? && target.value != 0 && target.value != current.id && Live(users, target.value) && commits
      then users[target.value := users[target.value].(deleted := true)]
      else users
    case Update(target, username, level, formValid, commits) =>
      if target.Some? && formValid && (target.value == current.id ==> level >= LEVEL_ADMIN)
         && Live(users, target.value) && commits && ValidUser(username, level) && !Taken(users, username, target)
      then users[target.value := User(username, level, false)]
      else users
    case Create(username, level, formValid, passwordAccepted, commits) =>
      if formValid && passwordAccepted && commits && ValidUser(username, level) && !Taken(users, username, None)
      then users[newId := User(username, level, false)]
      else users
  }

  /** A request comes with the session of some user, and needs the admin level. */
  datatype Visit = Visit(userId: nat, newId: nat, request: Request)

  ghost predicate Passes(users: map<nat, User>, userId: nat) {
    Allows(Some(LEVEL_ADMIN), Some(SessionUser(users, userId)))
  }

  ghost function AfterVisit(users: map<nat, User>, v: Visit): map<nat, User> {
    if Passes(users, v.userId) then Serve(users, v.newId, SessionUser(users, v.userId), v.request) else users
  }

  ghost function AfterVisits(users: map<nat, User>, vs: seq<Visit>): map<nat, User>
    decreases |vs|
  {
    if vs == [] then users else AfterVisits(AfterVisit(users, vs[0]), vs[1..])
  }

  /** New ids are unused. */
  ghost predicate FreshIds(users: map<nat, User>, vs: seq<Visit>)
    decreases |vs|
  {
    vs != [] ==> vs[0].newId !in users && FreshIds(AfterVisit(users, vs[0]), vs[1..])
  }

  ghost predicate IsAdmin(users: map<nat, User>, id: nat) {
    Live(users, id) && users[id].level == LEVEL_ADMIN
  }

  /** Validation and the unique index: levels are 1 to 3 and no two rows share a username. */
  ghost predicate WellFormed(users: map<nat, User>) {
    && (forall id :: id in users ==> ValidUser(users[id].username, users[id].level))
    && (forall i, j :: i in users && j in users && users[i].username == users[j].username ==> i == j)
  }

  /** Whoever passes as an admin is still an admin after the own request. */
  lemma VisitKeepsActor(users: map<nat, User>, v: Visit)
    requires WellFormed(users) && v.newId !in users
    ensures WellFormed(AfterVisit(users, v))
    ensures Passes(users, v.userId) <==> IsAdmin(users, v.userId)
    ensures Passes(users, v.userId) ==> IsAdmin(AfterVisit(users, v), v.userId)
    ensures !Passes(users, v.userId) ==> AfterVisit(users, v) == users
  {
  }

  /** No admin lockout: from a state with an admin, every run of user management requests, by
      whichever sessions, leaves an admin, the one who acted last if anyone was let through. */
  lemma {:induction false} NoLockout(users: map<nat, User>, vs: seq<Visit>)
    requires WellFormed(users) && FreshIds(users, vs) && exists id :: IsAdmin(users, id)
    ensures WellFormed(AfterVisits(users, vs))
    ensures exists id :: IsAdmin(AfterVisits(users, vs), id)
    decreases |vs|
  {
    if vs != [] {
      VisitKeepsActor(users, vs[0]);
      NoLockout(AfterVisit(users, vs[0]), vs[1..]);
    }
  }

  /** A user keeps its own name: an update that only changes the level of a live user goes through,
      unless it would take the admin level from the user who asks. */
  lemma LevelChangeGoesThrough(users: map<nat, User>, newId: nat, current: ContextUser, id: nat, level: int)
    requires WellFormed(users) && Live(users, id) && 1 <= level <= 3
    ensures var r := Update(Some(id), users[id].username, level, true, true);
            Serve(users, newId, current, r) ==
              if id == current.id && level < 3 then users else users[id := users[id].(level := level)]
  {
  }

  /** What the guards leave open: a request of an admin ends somebody's admin level exactly when it
      deletes another user, or updates another user to a lower level. */
  lemma LosesAdminExactly(users: map<nat, User>, v: Visit, other: nat)
    requires WellFormed(users) && v.newId !in users && IsAdmin(users, v.userId) && IsAdmin(users, other)
    ensures !IsAdmin(AfterVisit(users, v), other) <==>
              && other != v.userId
              && match v.request
                 case Delete(target, commits) => target == Some(other) && other != 0 && commits
                 case Update(target, username, level, formValid, commits) =>
                   && target == Some(other) && level < LEVEL_ADMIN
                   && formValid && commits && ValidUser(username, level) && !Taken(users, username, target)
                 case Create(_, _, _, _, _) => false
  {
  }
}
