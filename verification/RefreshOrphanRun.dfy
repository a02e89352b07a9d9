/**
 * Why the index claims name the orphans: one run, with the default TTL of thirty days, on which a
 * session outlives the index key that lists it, because Rotate extends the session's TTL only.
 */
module RefreshOrphanRun {
  import opened Basics
  import opened Redis
  import opened RefreshSessions
  import opened RefreshProtocol
  import opened RefreshInvariant
  import opened RefreshSolo
  import RedisRefreshStore

  const TTL := 2592000
  const DEFAULTS := Config(5, TTL)
  const FIRST := Session("user", 1, "hash0", TTL, 0, 0, None)

  const EMPTY_DB := Db(0, map[], map[], map[])

  lemma NothingToEvict(max: nat)
    requires max >= 1
    ensures RedisRefreshStore.Created(max, EMPTY_DB, "id", FIRST) == Ok(CommitCreate(EMPTY_DB, "id", FIRST, TTL))
  {
    assert ZBelow(EMPTY_DB, "user", -1) == {};
    assert RedisRefreshStore.Evicted(max, EMPTY_DB, "user") == EMPTY_DB;
  }

  lemma CommittedDb(db: Db)
    requires db == CommitCreate(EMPTY_DB, "id", FIRST, TTL)
    ensures db.now == 0
    ensures db.hashes == map["id" := HashKey(CreatedFields(FIRST), Some(TTL))]
    ensures db.index == map["user" := SetKey(map["id" := TTL], Some(TTL + DAY))]
  {
    HashStored(EMPTY_DB, "id", CreatedFields(FIRST), TTL);
  }

  /** Process 0 creates session "id" for "user". */
  lemma CreateRun(cfg: Config) returns (s: System)
    requires cfg.maxSessionsPerUser >= 1
    ensures Reachable(cfg, s)
    ensures s.db.now == 0 && s.orphans == {} && s.procs.Keys == {0} && s.tokens == map["hash0" := Stored("id")]
    ensures s.ids == map["id" := Born("user", "hash0")]
    ensures s.db.hashes == map["id" := HashKey(CreatedFields(FIRST), Some(TTL))]
    ensures s.db.index == map["user" := SetKey(map["id" := TTL], Some(TTL + DAY))]
  {
    var s0 := FirstCall(cfg);
    NothingToEvict(cfg.maxSessionsPerUser);
    s := CreateFinished(cfg, s0, 0, "id", FIRST, CommitCreate(EMPTY_DB, "id", FIRST, TTL));
    CommittedDb(s.db);
  }

  lemma FirstCall(cfg: Config) returns (s: System)
    ensures Reachable(cfg, s)
    ensures s == System(EMPTY_DB, map[0 := CreateStart("id", FIRST)], map["id" := Reserved(0)],
                        map["hash0" := Held(0)], [], {}, {}, map[])
  {
    NoAction(cfg, START);
    var begin := BeginCreate(0, "id", FIRST);
    StepReachable(cfg, START, begin);
    s := Apply(cfg, START, begin);
  }

  lemma CreateFinished(cfg: Config, s0: System, p: Pid, id: SessionId, n: Session, db: Db) returns (s: System)
    requires Reachable(cfg, s0) && p in s0.procs && s0.procs[p] == CreateStart(id, n)
    requires RedisRefreshStore.Created(cfg.maxSessionsPerUser, s0.db, id, n) == Ok(db)
    ensures Reachable(cfg, s)
    ensures s.db == db && s.orphans == s0.orphans && s.procs.Keys == s0.procs.Keys &&
            s.tokens == s0.tokens[n.token := Stored(id)] && s.ids == s0.ids[id := Born(n.user, n.token)]
  {
    var k := SoloCreate(cfg, s0, p, id, n);
    s := RefreshSolo.Stored(s0, p, id, n, db);
    ReachesReachable(cfg, s0, Runs(p, k), s);
  }

  lemma Quiet(db: Db, d: nat)
    requires forall id :: id in db.hashes ==> !Gone(db.hashes[id].deadline, db.now + d)
    requires forall u :: u in db.index ==> !Gone(db.index[u].deadline, db.now + d)
    ensures Elapse(db, d).hashes == db.hashes && Elapse(db, d).index == db.index && Elapse(db, d).now == db.now + d
  {
  }

  /** Process 1 refreshes the session in the last second before it would have run out. */
  lemma RotateRun(s: System) returns (t: System)
    requires Reachable(DEFAULTS, s)
    requires s.db.now == 0 && s.orphans == {} && s.procs.Keys == {0} && s.tokens == map["hash0" := Stored("id")]
    requires s.db.hashes == map["id" := HashKey(CreatedFields(FIRST), Some(TTL))]
    requires s.db.index == map["user" := SetKey(map["id" := TTL], Some(TTL + DAY))]
    ensures Reachable(DEFAULTS, t) && t.db.now == TTL - 1 && t.orphans == {} && t.procs.Keys == {0, 1}
    ensures "id" in t.db.hashes && t.db.hashes["id"].deadline == Some(2 * TTL - 1) && Alive(t.db, "id")
    ensures t.db.index == map["user" := SetKey(map["id" := 2 * TTL - 1], Some(TTL + DAY))]
  {
    var m := LateRefresh(s);
    t := RefreshRun(m, TTL - 1);
    RotatedDb(m.db, t.db);
  }

  lemma LateRefresh(s: System) returns (t: System)
    requires Reachable(DEFAULTS, s) && s.db.now == 0 && s.orphans == {} && 1 !in s.procs
    requires s.db.hashes == map["id" := HashKey(CreatedFields(FIRST), Some(TTL))]
    requires s.db.index == map["user" := SetKey(map["id" := TTL], Some(TTL + DAY))]
    ensures Reachable(DEFAULTS, t) && t.db.now == TTL - 1 && t.orphans == {} && t.tokens == s.tokens
    ensures t.procs == s.procs[1 := RefreshGet("id", "hash0", TTL - 1)]
    ensures t.db.hashes == s.db.hashes && t.db.index == s.db.index &&
            Refreshable(t.db, "id", "hash0", TTL - 1)
  {
    var m := Waited(s);
    t := Begun(m, TTL - 1);
    FirstIsFresh(t.db, TTL - 1);
  }

  lemma Begun(s: System, at: int) returns (t: System)
    requires Reachable(DEFAULTS, s) && 1 !in s.procs
    ensures Reachable(DEFAULTS, t) && t == Goto(s, 1, RefreshGet("id", "hash0", at))
  {
    t := Goto(s, 1, RefreshGet("id", "hash0", at));
    ReachableStep(DEFAULTS, s, BeginRefresh(1, "id", "hash0", at), t);
  }

  lemma FirstIsFresh(db: Db, at: int)
    requires db.hashes == map["id" := HashKey(CreatedFields(FIRST), Some(TTL))] && at < TTL
    ensures Refreshable(db, "id", "hash0", at)
  {
  }

  lemma Waited(s: System) returns (t: System)
    requires Reachable(DEFAULTS, s) && s.db.now == 0 && s.orphans == {}
    requires s.db.hashes == map["id" := HashKey(CreatedFields(FIRST), Some(TTL))]
    requires s.db.index == map["user" := SetKey(map["id" := TTL], Some(TTL + DAY))]
    ensures Reachable(DEFAULTS, t) && t.db.now == TTL - 1 && t.orphans == {} && t.procs == s.procs &&
            t.tokens == s.tokens
    ensures t.db.hashes == s.db.hashes && t.db.index == s.db.index
  {
    t := Pass(s, TTL - 1);
    ReachableStep(DEFAULTS, s, Tick(TTL - 1), t);
    Quiet(s.db, TTL - 1);
  }

  lemma RefreshRun(s: System, at: int) returns (t: System)
    requires Reachable(DEFAULTS, s) && 1 in s.procs && s.procs[1] == RefreshGet("id", "hash0", at) &&
             "hash1" !in s.tokens
    requires Refreshable(s.db, "id", "hash0", at)
    ensures Reachable(DEFAULTS, t) && t.procs.Keys == s.procs.Keys && t.orphans <= s.orphans
    ensures AtomicRotate(s.db, "id", "hash0", "hash1", at + TTL, at, at + TTL - s.db.now) == Ok(t.db)
  {
    t := SoloRefresh(DEFAULTS, s, 1, "id", "hash0", "hash1", at);
    ReachesReachable(DEFAULTS, s, Runs(1, 1) + [Draw(1, "hash1")] + Runs(1, 3), t);
  }

  lemma RotatedDb(db: Db, after: Db)
    requires db.now == TTL - 1
    requires db.hashes == map["id" := HashKey(CreatedFields(FIRST), Some(TTL))]
    requires db.index == map["user" := SetKey(map["id" := TTL], Some(TTL + DAY))]
    requires AtomicRotate(db, "id", "hash0", "hash1", 2 * TTL - 1, TTL - 1, TTL) == Ok(after)
    ensures after.now == TTL - 1
    ensures "id" in after.hashes && after.hashes["id"].deadline == Some(2 * TTL - 1) && Alive(after, "id")
    ensures after.index == map["user" := SetKey(map["id" := 2 * TTL - 1], Some(TTL + DAY))]
  {
    HashStored(db, "id", RotatedFields("hash1", 2 * TTL - 1, TTL - 1), TTL);
    assert map["id" := TTL]["id" := 2 * TTL - 1] == map["id" := 2 * TTL - 1];
    assert after.index == db.index["user" := SetKey(map["id" := 2 * TTL - 1], Some(TTL + DAY))];
  }

  /**
   * A reachable state in which a live session is in nobody's index, so that LogoutAll, which reads the index,
   * returns without killing it.
   */
  lemma IndexCanLoseALiveSession() returns (s: System, t: System)
    ensures Reachable(DEFAULTS, s) && Alive(s.db, "id") && OwnedBy(s, "id", "user") && "id" !in Scores(s.db, "user")
    ensures Reachable(DEFAULTS, t) && 2 in t.procs && t.procs[2] == Done(LoggedOut) && Alive(t.db, "id")
  {
    var s0 := CreateRun(DEFAULTS);
    var s1 := RotateRun(s0);
    s := LostIndex(s1);
    t := LogoutAllRun(s);
  }

  lemma LogoutAllRun(s: System) returns (t: System)
    requires Reachable(DEFAULTS, s) && 2 !in s.procs && Scores(s.db, "user") == map[]
    ensures Reachable(DEFAULTS, t) && 2 in t.procs && t.procs[2] == Done(LoggedOut) && t.db == s.db
  {
    var m := Goto(s, 2, RevokeAllRange("user", 0));
    ReachableStep(DEFAULTS, s, BeginLogoutAll(2, "user", 0), m);
    t := At(m, 2, Done(LoggedOut), m.db);
    assert m == At(m, 2, RevokeAllRange("user", 0), m.db);
    Walk(DEFAULTS, m, 2, RevokeAllRange("user", 0), m.db, Done(LoggedOut), m.db);
    ReachesReachable(DEFAULTS, m, Runs(2, 1), t);
  }

  lemma LostIndex(s: System) returns (t: System)
    requires Reachable(DEFAULTS, s) && s.db.now == TTL - 1 && s.procs.Keys == {0, 1}
    requires "id" in s.db.hashes && s.db.hashes["id"].deadline == Some(2 * TTL - 1) && Alive(s.db, "id")
    requires s.db.index == map["user" := SetKey(map["id" := 2 * TTL - 1], Some(TTL + DAY))]
    ensures Reachable(DEFAULTS, t) && t.procs.Keys == {0, 1}
    ensures Alive(t.db, "id") && OwnedBy(t, "id", "user") && Scores(t.db, "user") == map[]
  {
    t := Pass(s, DAY + 2);
    ReachableStep(DEFAULTS, s, Tick(DAY + 2), t);
    ReachableInv(DEFAULTS, s);
    assert "id" in Scores(s.db, "user");
    assert OwnedBy(s, "id", "user");
    assert "user" !in t.db.index;
  }
}
