/**
 * The races that RefreshStaleReads admits, each on a run from the empty store: a Logout, an eviction and a cleanup
 * that end a session refreshed since they read it.
 */
module RefreshStaleRuns {
  import opened Basics
  import opened Redis
  import opened RefreshSessions
  import opened RefreshProtocol
  import opened RefreshInvariant
  import opened RefreshOrphanRun
  import opened RefreshStaleReads
  import RedisRefreshStore
  import RefreshSolo

  /** One session, one Logout and one Refresh: the Logout is right about the token, and wrong when it revokes. */
  lemma LogoutTakesARotatedSession() returns (s: System, m: System)
    ensures Reachable(DEFAULTS, s) && 1 in s.procs && s.procs[1] == LogoutGet("id", "hash0", 0) &&
            AliveWith(s.db, "id", "hash0")
    ensures Reachable(DEFAULTS, m) && 1 in m.procs && m.procs[1].RevokeExec? && AliveWith(m.db, "id", "hash1")
    ensures AtomicLogout(m.db, "id", "hash0", 0) == Err(TokenMismatch) && !Alive(Apply(DEFAULTS, m, Run(1)).db, "id")
  {
    var checked;
    s, checked := LogoutHasChecked();
    m := RefreshCanOvertakeLogout(DEFAULTS, checked, 1, 2, "id", "hash0", "hash1", 0);
  }

  lemma LogoutHasChecked() returns (s: System, t: System)
    ensures Reachable(DEFAULTS, s) && 1 in s.procs && s.procs[1] == LogoutGet("id", "hash0", 0) &&
            AliveWith(s.db, "id", "hash0")
    ensures Reachable(DEFAULTS, t) && 1 in t.procs && t.procs[1] == RevokeGet("id", 0) &&
            CanRefresh(DEFAULTS, t, 2, "id", "hash0", "hash1", 0)
  {
    var created := CreateRun(DEFAULTS);
    s := Goto(created, 1, LogoutGet("id", "hash0", 0));
    ReachableStep(DEFAULTS, created, BeginLogout(1, "id", "hash0", 0), s);
    t := Goto(s, 1, RevokeGet("id", 0));
    FirstRead(s, t);
    FirstIsFresh(t.db, 0);
  }

  lemma FirstRead(s: System, t: System)
    requires Reachable(DEFAULTS, s) && 1 in s.procs && s.procs[1] == LogoutGet("id", "hash0", 0)
    requires "id" in s.db.hashes && s.db.hashes["id"].fields == CreatedFields(FIRST)
    requires t == Goto(s, 1, RevokeGet("id", 0))
    ensures Reachable(DEFAULTS, t)
  {
    ReachableStep(DEFAULTS, s, Run(1), t);
  }

  // ---------- An eviction ----------

  const TWO := Config(2, TTL)
  const SECOND := FIRST.(token := "hash1", expiresAt := TTL + 1)
  const THIRD := FIRST.(token := "hash2")

  predicate Valid(db: Db, id: SessionId, n: Session) {
    id != "" && n.user != "" && n.token != "" && n.expiresAt > db.now && ZBelow(db, n.user, db.now - 1) == {}
  }

  predicate HasRoom(cfg: Config, db: Db, id: SessionId, n: Session) {
    Valid(db, id, n) && ZCard(db, n.user) < cfg.maxSessionsPerUser
  }

  lemma RoomMeansCommit(cfg: Config, db: Db, id: SessionId, n: Session)
    requires HasRoom(cfg, db, id, n)
    ensures RedisRefreshStore.Created(cfg.maxSessionsPerUser, db, id, n) ==
            Ok(CommitCreate(db, id, n, n.expiresAt - db.now))
  {
  }

  lemma Begun(cfg: Config, s: System, p: Pid, id: SessionId, n: Session) returns (t: System)
    requires Reachable(cfg, s) && p !in s.procs && id !in s.ids && n.token !in s.tokens
    ensures Reachable(cfg, t) && t.db == s.db && t.procs == s.procs[p := CreateStart(id, n)]
    ensures t.ids == s.ids[id := Reserved(p)] && t.tokens == s.tokens[n.token := Held(p)]
  {
    StepReachable(cfg, s, BeginCreate(p, id, n));
    t := Apply(cfg, s, BeginCreate(p, id, n));
  }

  lemma WalkReachable(cfg: Config, s: System, p: Pid, pc: Pc, db: Db, to: Pc, after: Db)
    requires Reachable(cfg, RefreshSolo.At(s, p, pc, db)) && RefreshSolo.Plain(pc)
    requires to == NextPc(cfg, db, pc) && after == NextDb(db, pc)
    ensures Reachable(cfg, RefreshSolo.At(s, p, to, after))
  {
    RefreshSolo.Walk(cfg, s, p, pc, db, to, after);
    ReachesReachable(cfg, RefreshSolo.At(s, p, pc, db), RefreshSolo.Runs(p, 1), RefreshSolo.At(s, p, to, after));
  }

  /** A Create that finds nothing expired and no room goes on to evict the lowest ranked. */
  lemma PicksOldest(cfg: Config, s: System, p: Pid, id: SessionId, n: Session, oldest: SessionId) returns (t: System)
    requires Reachable(cfg, s) && p in s.procs && s.procs[p] == CreateStart(id, n) && Valid(s.db, id, n)
    requires ZCard(s.db, n.user) >= cfg.maxSessionsPerUser && ZFirst(s.db, n.user) == Some(oldest)
    ensures Reachable(cfg, t) && t.db == s.db && t.tokens == s.tokens
    ensures t.procs == s.procs[p := CreateEvict(id, n, n.expiresAt - s.db.now, oldest)]
  {
    var ttl, db := n.expiresAt - s.db.now, s.db;
    Counts(cfg, s, p, id, n, ttl, db);
    WalkReachable(cfg, s, p, CreateCount(id, n, ttl), db, CreatePick(id, n, ttl), db);
    WalkReachable(cfg, s, p, CreatePick(id, n, ttl), db, CreateEvict(id, n, ttl, oldest), db);
    t := RefreshSolo.At(s, p, CreateEvict(id, n, ttl, oldest), db);
  }

  lemma Counts(cfg: Config, s: System, p: Pid, id: SessionId, n: Session, ttl: int, db: Db)
    requires Reachable(cfg, s) && p in s.procs && s.procs[p] == CreateStart(id, n) && Valid(s.db, id, n)
    requires ttl == n.expiresAt - s.db.now && db == s.db
    ensures Reachable(cfg, RefreshSolo.At(s, p, CreateCount(id, n, ttl), db))
  {
    assert s == RefreshSolo.At(s, p, CreateStart(id, n), db);
    WalkReachable(cfg, s, p, CreateStart(id, n), db, CreateClock(id, n, ttl), db);
    WalkReachable(cfg, s, p, CreateClock(id, n, ttl), db, CreateScan(id, n, ttl, db.now - 1), db);
    WalkReachable(cfg, s, p, CreateScan(id, n, ttl, db.now - 1), db, CreateCount(id, n, ttl), db);
  }

  /** Two sessions of one user, the first of which expires first. */
  predicate HasBoth(db: Db) {
    db.now == 0 && Scores(db, "user") == map["id" := TTL, "b" := TTL + 1] &&
    Get(db, "id") == Ok(FIRST)
  }

  lemma BothCreated() returns (s: System)
    ensures Reachable(TWO, s) && HasBoth(s.db) && s.procs.Keys == {0, 1} && s.ids.Keys == {"id", "b"} &&
            s.tokens.Keys == {"hash0", "hash1"}
  {
    var one := CreateRun(TWO);
    NoneBelow(one.db, TTL);
    s := SecondCreated(one, CommitCreate(one.db, "b", SECOND, TTL + 1));
    SecondCommitted(one.db, s.db);
  }

  lemma SecondCreated(s: System, after: Db) returns (t: System)
    requires Reachable(TWO, s) && s.procs.Keys == {0} && s.ids.Keys == {"id"} && s.tokens.Keys == {"hash0"}
    requires HasRoom(TWO, s.db, "b", SECOND) && s.db.now == 0 && after == CommitCreate(s.db, "b", SECOND, TTL + 1)
    ensures Reachable(TWO, t) && t.db == after && t.procs.Keys == {0, 1} && t.ids.Keys == {"id", "b"} &&
            t.tokens.Keys == {"hash0", "hash1"}
  {
    var m := Begun(TWO, s, 1, "b", SECOND);
    RoomMeansCommit(TWO, m.db, "b", SECOND);
    t := CreateFinished(TWO, m, 1, "b", SECOND, after);
  }

  lemma NoneBelow(db: Db, score: int)
    requires db.now == 0 && score >= 0 && forall id :: id in Scores(db, "user") ==> Scores(db, "user")[id] >= score
    ensures ZBelow(db, "user", -1) == {}
  {
  }

  lemma SecondCommitted(db: Db, after: Db)
    requires db.now == 0 && db.hashes == map["id" := HashKey(CreatedFields(FIRST), Some(TTL))]
    requires db.index == map["user" := SetKey(map["id" := TTL], Some(TTL + DAY))]
    requires after == CommitCreate(db, "b", SECOND, TTL + 1)
    ensures HasBoth(after)
  {
    HashStored(db, "b", CreatedFields(SECOND), TTL + 1);
    CommitCreateLists(db, "b", SECOND, TTL + 1);
    assert map["id" := TTL]["b" := TTL + 1] == map["id" := TTL, "b" := TTL + 1];
  }

  /** The first session is picked, refreshed, and then deleted as the newest of its user. */
  lemma EvictionTakesTheNewest() returns (m: System)
    ensures Reachable(TWO, m) && 2 in m.procs && m.procs[2].CreateEvict? && AliveWith(m.db, "id", "hash3")
    ensures var scores := Scores(m.db, "user"); "id" in scores && "b" in scores && RankLess(scores, "b", "id")
    ensures !Alive(Apply(TWO, m, Run(2)).db, "id")
  {
    var picked := FirstIsPicked();
    m := RefreshCanOvertakeEviction(TWO, picked, 2, 3, "id", "hash0", "hash3", 2);
  }

  lemma FirstIsPicked() returns (s: System)
    ensures Reachable(TWO, s) && HasBoth(s.db) && 3 !in s.procs && "hash3" !in s.tokens
    ensures 2 in s.procs && s.procs[2].CreateEvict? && s.procs[2].oldest == "id" && s.procs[2].s == THIRD
  {
    var both := BothCreated();
    var begun := Begun(TWO, both, 2, "c", THIRD);
    NoneBelow(begun.db, TTL);
    assert IsLowest(Scores(begun.db, "user"), "id");
    LowestExists(Scores(begun.db, "user"));
    s := PicksOldest(TWO, begun, 2, "c", THIRD, "id");
  }

  // ---------- A cleanup ----------

  const LATER := FIRST.(token := "hash2", expiresAt := 2 * TTL)

  /** The store when the Create of "id" is two seconds under way. */
  const TWO_LATER := Db(2, map[], map[], map[])

  lemma SlowCreate() returns (s: System)
    ensures Reachable(DEFAULTS, s) && s.db == CommitCreate(TWO_LATER, "id", FIRST, TTL)
    ensures s.procs.Keys == {0} && s.ids.Keys == {"id"} && s.tokens.Keys == {"hash0"}
  {
    var m := SlowStart();
    assert ZBelow(TWO_LATER, "user", 1) == {};
    assert RedisRefreshStore.Evicted(5, TWO_LATER, "user") == TWO_LATER;
    var after := CommitCreate(TWO_LATER, "id", FIRST, TTL);
    var k := RefreshSolo.SoloAccepted(DEFAULTS, m, 0, "id", FIRST, TTL, TWO_LATER, TWO_LATER, after);
    assert m == RefreshSolo.At(m, 0, CreateClock("id", FIRST, TTL), m.db);
    s := RefreshSolo.Stored(m, 0, "id", FIRST, after);
    ReachesReachable(DEFAULTS, m, RefreshSolo.Runs(0, k), s);
  }

  lemma SlowStart() returns (s: System)
    ensures Reachable(DEFAULTS, s) && s.db == TWO_LATER && s.procs == map[0 := CreateClock("id", FIRST, TTL)]
    ensures s.ids == map["id" := Reserved(0)] && s.tokens == map["hash0" := Held(0)]
  {
    var begun := FirstCall(DEFAULTS);
    assert begun == RefreshSolo.At(begun, 0, CreateStart("id", FIRST), EMPTY_DB);
    WalkReachable(DEFAULTS, begun, 0, CreateStart("id", FIRST), EMPTY_DB, CreateClock("id", FIRST, TTL), EMPTY_DB);
    s := WaitsEmpty(RefreshSolo.At(begun, 0, CreateClock("id", FIRST, TTL), EMPTY_DB));
  }

  lemma WaitsEmpty(s: System) returns (t: System)
    requires Reachable(DEFAULTS, s) && s.db == EMPTY_DB
    ensures Reachable(DEFAULTS, t) && t.db == TWO_LATER
    ensures t.procs == s.procs && t.ids == s.ids && t.tokens == s.tokens
  {
    t := Pass(s, 2);
    ReachableStep(DEFAULTS, s, Tick(2), t);
  }

  /** The session has expired by its own expiry, and its hash has a second to go. */
  predicate Expiring(db: Db) {
    db.now == TTL + 1 && Get(db, "id") == Ok(FIRST) && Scores(db, "user") == map["id" := TTL]
  }

  lemma SlowDb(db: Db)
    requires db == CommitCreate(TWO_LATER, "id", FIRST, TTL)
    ensures db.now == 2 && db.hashes == map["id" := HashKey(CreatedFields(FIRST), Some(TTL + 2))]
    ensures db.index == map["user" := SetKey(map["id" := TTL], Some(TTL + DAY + 2))]
  {
    HashStored(TWO_LATER, "id", CreatedFields(FIRST), TTL);
  }

  lemma Waits(s: System) returns (t: System)
    requires Reachable(DEFAULTS, s) && s.db == CommitCreate(TWO_LATER, "id", FIRST, TTL)
    ensures Reachable(DEFAULTS, t) && Expiring(t.db)
    ensures t.procs == s.procs && t.ids == s.ids && t.tokens == s.tokens
  {
    t := Pass(s, TTL - 1);
    ReachableStep(DEFAULTS, s, Tick(TTL - 1), t);
    SlowDb(s.db);
    Quiet(s.db, TTL - 1);
  }

  lemma Scans(s: System) returns (t: System)
    requires Reachable(DEFAULTS, s) && Expiring(s.db) && 1 in s.procs && s.procs[1] == CreateStart("c", LATER)
    ensures Reachable(DEFAULTS, t) && t.db == s.db && t.tokens == s.tokens
    ensures t.procs == s.procs[1 := CreatePurge("c", LATER, TTL - 1, {"id"})]
  {
    var db := s.db;
    assert s == RefreshSolo.At(s, 1, CreateStart("c", LATER), db);
    assert ZBelow(db, "user", TTL) == {"id"};
    WalkReachable(DEFAULTS, s, 1, CreateStart("c", LATER), db, CreateClock("c", LATER, TTL - 1), db);
    WalkReachable(DEFAULTS, s, 1, CreateClock("c", LATER, TTL - 1), db, CreateScan("c", LATER, TTL - 1, TTL), db);
    WalkReachable(DEFAULTS, s, 1, CreateScan("c", LATER, TTL - 1, TTL), db,
                  CreatePurge("c", LATER, TTL - 1, {"id"}), db);
    t := RefreshSolo.At(s, 1, CreatePurge("c", LATER, TTL - 1, {"id"}), db);
  }

  /** A Refresh that was called in the session's last second lands between the scan and the DEL. */
  lemma CleanupTakesALiveSession() returns (m: System)
    ensures Reachable(DEFAULTS, m) && 1 in m.procs && m.procs[1].CreatePurge? && AliveWith(m.db, "id", "hash3")
    ensures m.db.hashes["id"].fields.expiresAt.value > m.db.now && !Alive(Apply(DEFAULTS, m, Run(1)).db, "id")
  {
    var created := SlowCreate();
    var waited := Waits(created);
    var begun := Begun(DEFAULTS, waited, 1, "c", LATER);
    var scanned := Scans(begun);
    m := RefreshCanOvertakeCleanup(DEFAULTS, scanned, 1, 2, "id", "hash0", "hash3", TTL);
  }
}
