/** Ordered migrations: pkg/database/migrations.go and pkg/database/migrations/. */
module Migrations {
  import opened Users

  /** A named migration of a database state. */
  datatype Migration<!S> = Migration(name: string, migrate: S -> S)

  /** The names recorded as applied, and everything else in the database. */
  datatype Db<S> = Db(applied: set<string>, state: S)

  datatype Outcome<S> = Outcome(db: Db<S>, ok: bool)

  ghost predicate DistinctNames<S>(all: seq<Migration<S>>) {
    forall i, j :: 0 <= i < j < |all| ==> all[i].name != all[j].name
  }

  ghost function Names<S>(all: seq<Migration<S>>): set<string> {
    set i | 0 <= i < |all| :: all[i].name
  }

  /** Every migration applied once, in order. */
  ghost function ApplyAll<S>(all: seq<Migration<S>>, state: S): S {
    if all == [] then state else all[|all| - 1].migrate(ApplyAll(all[..|all| - 1], state))
  }

  /** A run over the migrations from position k on. `fates[i]` says whether the transaction of the i-th
      migration, which migrates and records its name together, commits; the run ends at the first that
      does not, which is also where an interrupted run ends. */
  ghost function Upgrade<S>(db: Db<S>, all: seq<Migration<S>>, fates: seq<bool>, k: nat): Outcome<S>
    requires k <= |all| == |fates|
    decreases |all| - k
  {
    if k == |all| then Outcome(db, true)
    else if all[k].name in db.applied then Upgrade(db, all, fates, k + 1)
    else if !fates[k] then Outcome(db, false)
    else Upgrade(Db(db.applied + {all[k].name}, all[k].migrate(db.state)), all, fates, k + 1)
  }

  class Database<S> {
    var applied: set<string>
    var state: S

    constructor (applied: set<string>, state: S)
      ensures this.applied == applied && this.state == state
    {
      this.applied := applied;
      this.state := state;
    }

    /** The loop over all migrations, against the names listed when it starts. */
    method Migrate(all: seq<Migration<S>>, lists: bool, fates: seq<bool>) returns (ok: bool)
      requires DistinctNames(all) && |fates| == |all|
      modifies this
      ensures !lists ==> !ok && applied == old(applied) && state == old(state)
      ensures lists ==> Outcome(Db(applied, state), ok) == Upgrade(Db(old(applied), old(state)), all, fates, 0)
    {
      if !lists {
        return false;
      }
      var appliedMigrations := applied;
      for k := 0 to |all|
        invariant Upgrade(Db(old(applied), old(state)), all, fates, 0) == Upgrade(Db(applied, state), all, fates, k)
        invariant forall i :: k <= i < |all| ==> (all[i].name in applied <==> all[i].name in appliedMigrations)
      {
        if all[k].name in appliedMigrations {
          continue;
        }
        if !fates[k] {
          return false;
        }
        state := all[k].migrate(state);
        applied := applied + {all[k].name};
      }
      return true;
    }
  }

  // ---- crash-resumable runs ----

  /** The database after the first n migrations, each applied once and in order. */
  ghost function AfterFirst<S>(all: seq<Migration<S>>, state: S, n: nat): Db<S>
    requires n <= |all|
  {
    Db(Names(all[..n]), ApplyAll(all[..n], state))
  }

  lemma NextName<S>(all: seq<Migration<S>>, n: nat)
    requires DistinctNames(all) && n < |all|
    ensures all[n].name !in Names(all[..n])
    ensures Names(all[..n + 1]) == Names(all[..n]) + {all[n].name}
  {
  }

  lemma NextState<S>(all: seq<Migration<S>>, state: S, n: nat)
    requires n < |all|
    ensures ApplyAll(all[..n + 1], state) == all[n].migrate(ApplyAll(all[..n], state))
  {
    assert all[..n + 1][..n] == all[..n];
  }

  /** From a prefix, a run that has come to position k goes on to a longer prefix, to the full list
      exactly when it succeeds. */
  lemma {:induction false} UpgradeExtends<S>(all: seq<Migration<S>>, state: S, n: nat, k: nat, fates: seq<bool>)
    returns (m: nat)
    requires DistinctNames(all) && k <= n <= |all| == |fates|
    ensures n <= m <= |all|
    ensures Upgrade(AfterFirst(all, state, n), all, fates, k) == Outcome(AfterFirst(all, state, m), m == |all|)
    decreases |all| - k
  {
    m := n;
    if k < n {
      assert all[..n][k].name in Names(all[..n]);
      m := UpgradeExtends(all, state, n, k + 1, fates);
    } else if n < |all| {
      NextName(all, n);
      NextState(all, state, n);
      if fates[n] {
        m := UpgradeExtends(all, state, n + 1, n + 1, fates);
      }
    }
  }

  /** Any number of runs, failing or interrupted wherever they are. */
  ghost function Upgrades<S>(db: Db<S>, all: seq<Migration<S>>, runs: seq<seq<bool>>): Db<S>
    requires forall r :: r in runs ==> |r| == |all|
    decreases |runs|
  {
    if runs == [] then db else Upgrades(Upgrade(db, all, runs[0], 0).db, all, runs[1..])
  }

  lemma {:induction false} UpgradesExtend<S>(all: seq<Migration<S>>, state: S, n: nat, runs: seq<seq<bool>>)
    returns (m: nat)
    requires DistinctNames(all) && n <= |all| && forall r :: r in runs ==> |r| == |all|
    ensures n <= m <= |all| && Upgrades(AfterFirst(all, state, n), all, runs) == AfterFirst(all, state, m)
    decreases |runs|
  {
    m := n;
    if runs != [] {
      m := UpgradeExtends(all, state, n, 0, runs[0]);
      m := UpgradesExtend(all, state, m, runs[1..]);
    }
  }

  /** Crash-resumable migrations: from an applied prefix, any runs keep it a prefix; a final run that
      succeeds gives the state of applying every migration once in order, one whose transactions all
      commit does succeed, and further runs change nothing. */
  lemma {:induction false} CrashResumable<S>(all: seq<Migration<S>>, state: S, n: nat, runs: seq<seq<bool>>,
                                             last: seq<bool>, more: seq<bool>)
    requires DistinctNames(all) && n <= |all| && (forall r :: r in runs ==> |r| == |all|) && |last| == |more| == |all|
    ensures var db := Upgrades(AfterFirst(all, state, n), all, runs);
            var done := Upgrade(db, all, last, 0);
            && (exists m :: n <= m <= |all| && db == AfterFirst(all, state, m))
            && (done.ok ==> done.db == Db(Names(all), ApplyAll(all, state)) && Upgrade(done.db, all, more, 0) == done)
            && (false !in last ==> done.ok)
  {
    var m := UpgradesExtend(all, state, n, runs);
    var db := AfterFirst(all, state, m);
    var m' := UpgradeExtends(all, state, m, 0, last);
    assert all[..|all|] == all;
    if m' == |all| {
      var m'' := UpgradeExtends(all, state, m', 0, more);
    }
    if false !in last {
      CommitsReachEnd(db, all, last, 0);
    }
  }

  lemma {:induction false} CommitsReachEnd<S>(db: Db<S>, all: seq<Migration<S>>, fates: seq<bool>, k: nat)
    requires k <= |all| == |fates| && false !in fates
    ensures Upgrade(db, all, fates, k).ok
    decreases |all| - k
  {
    if k < |all| {
      assert fates[k] in fates;
      if all[k].name in db.applied {
        CommitsReachEnd(db, all, fates, k + 1);
      } else {
        CommitsReachEnd(Db(db.applied + {all[k].name}, all[k].migrate(db.state)), all, fates, k + 1);
      }
    }
  }

  // ---- the two migrations ----

  /** The users' rows, and the podcast table's columns that the second migration is about. */
  datatype Schema = Schema(users: map<nat, User>, podcastColumns: set<string>)

  const CREDENTIAL_COLUMNS: set<string> := {"encrypted_data", "key_version", "salt"}

  function Promoted(u: User): User {
    if u.deleted then u else u.(level := LEVEL_ADMIN)
  }

  /** Creates or completes the tables, and makes every user there is an admin. Soft-deleted users are
      not found, and so not promoted. */
  function Init(s: Schema): Schema {
    Schema(map id | id in s.users :: Promoted(s.users[id]), s.podcastColumns + CREDENTIAL_COLUMNS)
  }

  /** Adds the columns, unless the first of them is there. */
  function AddPodcastCredentials(s: Schema): Schema {
    if "encrypted_data" in s.podcastColumns then s
    else s.(podcastColumns := s.podcastColumns + CREDENTIAL_COLUMNS)
  }

  const ALL_MIGRATIONS: seq<Migration<Schema>> :=
    [Migration("001-init", Init), Migration("002-add-podcast-credentials", AddPodcastCredentials)]

  lemma {:induction false} SecondKeepsLevels(db: Db<Schema>, fates: seq<bool>)
    requires |fates| == 2
    ensures var after := Upgrade(db, ALL_MIGRATIONS, fates, 1).db;
            db.applied <= after.applied && after.state.users == db.state.users
  {
  }

  /** Users are promoted by the run that applies the first migration and by no other: whatever levels
      users have been given since, no later run touches them. */
  lemma {:induction false} PromotionHappensOnce(db: Db<Schema>, fates: seq<bool>)
    requires |fates| == 2
    ensures var after := Upgrade(db, ALL_MIGRATIONS, fates, 0).db;
            && db.applied <= after.applied
            && after.state.users.Keys == db.state.users.Keys
            && if "001-init" in db.applied || !fates[0] then after.state.users == db.state.users else
               && "001-init" in after.applied
               && forall id :: id in db.state.users ==>
                    var before, now := db.state.users[id], after.state.users[id];
                    && now.username == before.username && now.deleted == before.deleted
                    && now.level == (if before.deleted then before.level else LEVEL_ADMIN)
  {
    if "001-init" in db.applied {
      SecondKeepsLevels(db, fates);
    } else {
      SecondKeepsLevels(Db(db.applied + {"001-init"}, Init(db.state)), fates);
    }
  }

  /** After a run that succeeds the columns are there, unless some are missing that neither migration
      adds: the first has been applied before, and so has the second or it finds its first column. */
  lemma {:induction false} ColumnsAreThere(db: Db<Schema>, fates: seq<bool>)
    requires |fates| == 2 && Upgrade(db, ALL_MIGRATIONS, fates, 0).ok
    ensures var columns := {"encrypted_data", "key_version", "salt"};
            columns <= Upgrade(db, ALL_MIGRATIONS, fates, 0).db.state.podcastColumns <==>
              || columns <= db.state.podcastColumns
              || "001-init" !in db.applied
              || ("002-add-podcast-credentials" !in db.applied && "encrypted_data" !in db.state.podcastColumns)
  {
    assert "001-init" != "002-add-podcast-credentials" by {
      assert "001-init"[2] != "002-add-podcast-credentials"[2];
    }
    var all := ALL_MIGRATIONS;
    var db1 := if "001-init" in db.applied then db else Db(db.applied + {"001-init"}, Init(db.state));
    assert Upgrade(db, all, fates, 0) == Upgrade(db1, all, fates, 1);
    var db2 := if all[1].name in db1.applied then db1
               else Db(db1.applied + {all[1].name}, AddPodcastCredentials(db1.state));
    assert Upgrade(db1, all, fates, 1) == Upgrade(db2, all, fates, 2);
  }
}
