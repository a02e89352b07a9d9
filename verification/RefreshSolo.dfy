/** A call that nobody interrupts: the steps of the protocol add up to the sequential operation. */
module RefreshSolo {
  import opened Basics
  import opened Redis
  import opened RefreshSessions
  import opened RefreshProtocol
  import opened RefreshInvariant
  import RedisRefreshStore

  /** The process p at pc in front of the given store, everything else as in s. */
  function At(s: System, p: Pid, pc: Pc, db: Db): System {
    Moved(s, p, pc, db)
  }

  function Runs(p: Pid, k: nat): seq<Action> {
    seq(k, _ => Run(p))
  }

  /** k steps of process p, with nothing in between, lead from s to t. */
  ghost predicate Alone(cfg: Config, s: System, p: Pid, k: nat, t: System) {
    Reaches(cfg, s, Runs(p, k), t)
  }

  lemma AloneThen(cfg: Config, s: System, p: Pid, j: nat, m: System, k: nat, t: System)
    requires Alone(cfg, s, p, j, m) && Alone(cfg, m, p, k, t)
    ensures Alone(cfg, s, p, j + k, t)
  {
    ReachesThen(cfg, s, Runs(p, j), m, Runs(p, k), t);
    assert Runs(p, j) + Runs(p, k) == Runs(p, j + k);
  }

  lemma AloneOnce(cfg: Config, s: System, p: Pid, t: System)
    requires StepTo(cfg, s, Run(p), t)
    ensures Alone(cfg, s, p, 1, t)
  {
    OneAction(cfg, s, Run(p), t);
    assert Runs(p, 1) == [Run(p)];
  }

  predicate Plain(pc: Pc) {
    !pc.Done? && !pc.RefreshDraw? && !pc.CreateCommit? && !pc.RotateExec?
  }

  lemma Walk(cfg: Config, s: System, p: Pid, pc: Pc, db: Db, to: Pc, after: Db)
    requires Plain(pc) && to == NextPc(cfg, db, pc) && after == NextDb(db, pc)
    ensures Alone(cfg, At(s, p, pc, db), p, 1, At(s, p, to, after))
  {
    AloneOnce(cfg, At(s, p, pc, db), p, At(s, p, to, after));
  }

  /** The eviction loop, run without interruption, evicts what the sequential loop evicts. */
  lemma {:induction false} SoloEvict(cfg: Config, s: System, p: Pid, id: SessionId, n: Session, ttl: int, db: Db,
                                     done: Db) returns (k: nat)
    requires done == RedisRefreshStore.Evicted(cfg.maxSessionsPerUser, db, n.user)
    ensures Alone(cfg, At(s, p, CreateCount(id, n, ttl), db), p, k, At(s, p, CreateCommit(id, n, ttl), done))
    decreases ZCard(db, n.user)
  {
    var first := ZFirst(db, n.user);
    if ZCard(db, n.user) < cfg.maxSessionsPerUser || first.None? {
      k := SoloNoMore(cfg, s, p, id, n, ttl, db);
    } else {
      var next := ZRem(Del(db, first.value), n.user, {first.value});
      RedisRefreshStore.EvictionProgress(db, n.user, first.value);
      var j := SoloEvict(cfg, s, p, id, n, ttl, next, done);
      k := SoloRoundThen(cfg, s, p, id, n, ttl, db, first.value, next, j, done);
    }
  }

  lemma SoloNoMore(cfg: Config, s: System, p: Pid, id: SessionId, n: Session, ttl: int, db: Db) returns (k: nat)
    requires ZCard(db, n.user) < cfg.maxSessionsPerUser || ZFirst(db, n.user).None?
    ensures Alone(cfg, At(s, p, CreateCount(id, n, ttl), db), p, k, At(s, p, CreateCommit(id, n, ttl), db))
  {
    if ZCard(db, n.user) < cfg.maxSessionsPerUser {
      Walk(cfg, s, p, CreateCount(id, n, ttl), db, CreateCommit(id, n, ttl), db);
      k := 1;
    } else {
      var s1 := At(s, p, CreatePick(id, n, ttl), db);
      Walk(cfg, s, p, CreateCount(id, n, ttl), db, CreatePick(id, n, ttl), db);
      Walk(cfg, s, p, CreatePick(id, n, ttl), db, CreateCommit(id, n, ttl), db);
      AloneThen(cfg, At(s, p, CreateCount(id, n, ttl), db), p, 1, s1, 1, At(s, p, CreateCommit(id, n, ttl), db));
      k := 2;
    }
  }

  lemma SoloRoundThen(cfg: Config, s: System, p: Pid, id: SessionId, n: Session, ttl: int, db: Db, oldest: SessionId,
                      next: Db, j: nat, done: Db) returns (k: nat)
    requires ZCard(db, n.user) >= cfg.maxSessionsPerUser && ZFirst(db, n.user) == Some(oldest)
    requires next == ZRem(Del(db, oldest), n.user, {oldest})
    requires Alone(cfg, At(s, p, CreateCount(id, n, ttl), next), p, j, At(s, p, CreateCommit(id, n, ttl), done))
    ensures Alone(cfg, At(s, p, CreateCount(id, n, ttl), db), p, k, At(s, p, CreateCommit(id, n, ttl), done))
  {
    SoloRound(cfg, s, p, id, n, ttl, db, oldest, next);
    AloneThen(cfg, At(s, p, CreateCount(id, n, ttl), db), p, 4, At(s, p, CreateCount(id, n, ttl), next), j,
              At(s, p, CreateCommit(id, n, ttl), done));
    k := 4 + j;
  }

  /** Once round the loop: count, pick, delete, unlist. */
  lemma SoloRound(cfg: Config, s: System, p: Pid, id: SessionId, n: Session, ttl: int, db: Db, oldest: SessionId,
                  next: Db)
    requires ZCard(db, n.user) >= cfg.maxSessionsPerUser && ZFirst(db, n.user) == Some(oldest)
    requires next == ZRem(Del(db, oldest), n.user, {oldest})
    ensures Alone(cfg, At(s, p, CreateCount(id, n, ttl), db), p, 4, At(s, p, CreateCount(id, n, ttl), next))
  {
    var s0 := At(s, p, CreateCount(id, n, ttl), db);
    var s2 := At(s, p, CreateEvict(id, n, ttl, oldest), db);
    Walk(cfg, s, p, CreateCount(id, n, ttl), db, CreatePick(id, n, ttl), db);
    Walk(cfg, s, p, CreatePick(id, n, ttl), db, CreateEvict(id, n, ttl, oldest), db);
    AloneThen(cfg, s0, p, 1, At(s, p, CreatePick(id, n, ttl), db), 1, s2);
    SoloEvictOne(cfg, s, p, id, n, ttl, db, oldest, next);
    AloneThen(cfg, s0, p, 2, s2, 2, At(s, p, CreateCount(id, n, ttl), next));
  }

  lemma SoloEvictOne(cfg: Config, s: System, p: Pid, id: SessionId, n: Session, ttl: int, db: Db, oldest: SessionId,
                     next: Db)
    requires next == ZRem(Del(db, oldest), n.user, {oldest})
    ensures Alone(cfg, At(s, p, CreateEvict(id, n, ttl, oldest), db), p, 2, At(s, p, CreateCount(id, n, ttl), next))
  {
    var mid := At(s, p, CreateUnindex(id, n, ttl, oldest), Del(db, oldest));
    Walk(cfg, s, p, CreateEvict(id, n, ttl, oldest), db, CreateUnindex(id, n, ttl, oldest), Del(db, oldest));
    Walk(cfg, s, p, CreateUnindex(id, n, ttl, oldest), Del(db, oldest), CreateCount(id, n, ttl), next);
    AloneThen(cfg, At(s, p, CreateEvict(id, n, ttl, oldest), db), p, 1, mid, 1,
              At(s, p, CreateCount(id, n, ttl), next));
  }

  lemma SoloClean(cfg: Config, s: System, p: Pid, id: SessionId, n: Session, ttl: int, db: Db, clean: Db)
    returns (k: nat)
    requires clean == RedisRefreshStore.Cleaned(db, n.user)
    ensures Alone(cfg, At(s, p, CreateClock(id, n, ttl), db), p, k, At(s, p, CreateCount(id, n, ttl), clean))
  {
    var expired := ZBelow(db, n.user, db.now - 1);
    Walk(cfg, s, p, CreateClock(id, n, ttl), db, CreateScan(id, n, ttl, db.now - 1), db);
    k := SoloScan(cfg, s, p, id, n, ttl, db, expired, clean);
    AloneThen(cfg, At(s, p, CreateClock(id, n, ttl), db), p, 1, At(s, p, CreateScan(id, n, ttl, db.now - 1), db), k,
              At(s, p, CreateCount(id, n, ttl), clean));
    k := 1 + k;
  }

  lemma SoloScan(cfg: Config, s: System, p: Pid, id: SessionId, n: Session, ttl: int, db: Db, expired: set<SessionId>,
                 clean: Db) returns (k: nat)
    requires expired == ZBelow(db, n.user, db.now - 1) && clean == if expired == {} then db
             else Purge(db, n.user, expired)
    ensures Alone(cfg, At(s, p, CreateScan(id, n, ttl, db.now - 1), db), p, k, At(s, p, CreateCount(id, n, ttl), clean))
  {
    if expired == {} {
      Walk(cfg, s, p, CreateScan(id, n, ttl, db.now - 1), db, CreateCount(id, n, ttl), db);
      k := 1;
    } else {
      var purge := CreatePurge(id, n, ttl, expired);
      Walk(cfg, s, p, CreateScan(id, n, ttl, db.now - 1), db, purge, db);
      Walk(cfg, s, p, purge, db, CreateCount(id, n, ttl), clean);
      AloneThen(cfg, At(s, p, CreateScan(id, n, ttl, db.now - 1), db), p, 1, At(s, p, purge, db), 1,
                At(s, p, CreateCount(id, n, ttl), clean));
      k := 2;
    }
  }

  function Stored(s: System, p: Pid, id: SessionId, n: Session, db: Db): System {
    At(s, p, Done(Created), db).(ids := s.ids[id := Born(n.user, n.token)],
                                 tokens := s.tokens[n.token := TokenState.Stored(id)],
                                 readmitted := s.readmitted[n.user := 0])
  }

  lemma SoloCommit(cfg: Config, s: System, p: Pid, id: SessionId, n: Session, ttl: int, db: Db, after: Db)
    requires after == CommitCreate(db, id, n, ttl)
    ensures Alone(cfg, At(s, p, CreateCommit(id, n, ttl), db), p, 1, Stored(s, p, id, n, after))
  {
    var from := At(s, p, CreateCommit(id, n, ttl), db);
    assert Stored(s, p, id, n, after) == CommitSession(from, p, from.procs[p]);
    AloneOnce(cfg, from, p, Stored(s, p, id, n, after));
  }

  /** From the accepted request to the final transaction. */
  lemma SoloMakeRoom(cfg: Config, s: System, p: Pid, id: SessionId, n: Session, ttl: int, clean: Db, ready: Db)
    returns (k: nat)
    requires clean == RedisRefreshStore.Cleaned(s.db, n.user)
    requires ready == RedisRefreshStore.Evicted(cfg.maxSessionsPerUser, clean, n.user)
    ensures Alone(cfg, At(s, p, CreateClock(id, n, ttl), s.db), p, k, At(s, p, CreateCommit(id, n, ttl), ready))
  {
    var i := SoloClean(cfg, s, p, id, n, ttl, s.db, clean);
    var j := SoloEvict(cfg, s, p, id, n, ttl, clean, ready);
    AloneThen(cfg, At(s, p, CreateClock(id, n, ttl), s.db), p, i, At(s, p, CreateCount(id, n, ttl), clean), j,
              At(s, p, CreateCommit(id, n, ttl), ready));
    k := i + j;
  }

  lemma SoloAccepted(cfg: Config, s: System, p: Pid, id: SessionId, n: Session, ttl: int, clean: Db, ready: Db,
                     after: Db)
    returns (k: nat)
    requires clean == RedisRefreshStore.Cleaned(s.db, n.user)
    requires ready == RedisRefreshStore.Evicted(cfg.maxSessionsPerUser, clean, n.user)
    requires after == CommitCreate(ready, id, n, ttl)
    ensures Alone(cfg, At(s, p, CreateClock(id, n, ttl), s.db), p, k, Stored(s, p, id, n, after))
  {
    k := SoloMakeRoom(cfg, s, p, id, n, ttl, clean, ready);
    k := SoloStore(cfg, s, p, id, n, ttl, k, ready, after);
  }

  lemma InParts(max: nat, db: Db, id: SessionId, n: Session, after: Db) returns (clean: Db, ready: Db)
    requires RedisRefreshStore.Created(max, db, id, n) == Ok(after)
    ensures clean == RedisRefreshStore.Cleaned(db, n.user) && ready == RedisRefreshStore.Evicted(max, clean, n.user)
    ensures after == CommitCreate(ready, id, n, n.expiresAt - db.now)
  {
    clean := RedisRefreshStore.Cleaned(db, n.user);
    ready := RedisRefreshStore.Evicted(max, clean, n.user);
  }

  lemma SoloStore(cfg: Config, s: System, p: Pid, id: SessionId, n: Session, ttl: int, i: nat, ready: Db, after: Db)
    returns (k: nat)
    requires Alone(cfg, At(s, p, CreateClock(id, n, ttl), s.db), p, i, At(s, p, CreateCommit(id, n, ttl), ready))
    requires after == CommitCreate(ready, id, n, ttl)
    ensures Alone(cfg, At(s, p, CreateClock(id, n, ttl), s.db), p, k, Stored(s, p, id, n, after))
  {
    SoloCommit(cfg, s, p, id, n, ttl, ready, after);
    AloneThen(cfg, At(s, p, CreateClock(id, n, ttl), s.db), p, i, At(s, p, CreateCommit(id, n, ttl), ready), 1,
              Stored(s, p, id, n, after));
    k := i + 1;
  }

  lemma SoloStart(cfg: Config, s: System, p: Pid, id: SessionId, n: Session, to: Pc)
    requires p in s.procs && s.procs[p] == CreateStart(id, n) && to == NextPc(cfg, s.db, CreateStart(id, n))
    ensures Alone(cfg, s, p, 1, At(s, p, to, s.db))
  {
    assert s == At(s, p, CreateStart(id, n), s.db);
    Walk(cfg, s, p, CreateStart(id, n), s.db, to, s.db);
  }

  lemma StartPc(cfg: Config, db: Db, id: SessionId, n: Session)
    ensures var r := RedisRefreshStore.Created(cfg.maxSessionsPerUser, db, id, n);
            NextPc(cfg, db, CreateStart(id, n)) == if r.Ok? then CreateClock(id, n, n.expiresAt - db.now)
              else Done(Failed(r.error))
  {
  }

  lemma StartsClock(cfg: Config, db: Db, id: SessionId, n: Session, after: Db)
    requires RedisRefreshStore.Created(cfg.maxSessionsPerUser, db, id, n) == Ok(after)
    ensures NextPc(cfg, db, CreateStart(id, n)) == CreateClock(id, n, n.expiresAt - db.now)
  {
    StartPc(cfg, db, id, n);
  }

  /** Create, run without interruption, is the sequential Create. */
  lemma SoloCreate(cfg: Config, s: System, p: Pid, id: SessionId, n: Session) returns (k: nat)
    requires p in s.procs && s.procs[p] == CreateStart(id, n)
    ensures var r := RedisRefreshStore.Created(cfg.maxSessionsPerUser, s.db, id, n);
            Alone(cfg, s, p, k, if r.Ok? then Stored(s, p, id, n, r.value) else At(s, p, Done(Failed(r.error)), s.db))
  {
    var r := RedisRefreshStore.Created(cfg.maxSessionsPerUser, s.db, id, n);
    if r.Ok? {
      k := SoloCreated(cfg, s, p, id, n, r.value);
    } else {
      StartPc(cfg, s.db, id, n);
      SoloStart(cfg, s, p, id, n, Done(Failed(r.error)));
      k := 1;
    }
  }

  lemma SoloCreated(cfg: Config, s: System, p: Pid, id: SessionId, n: Session, after: Db) returns (k: nat)
    requires p in s.procs && s.procs[p] == CreateStart(id, n)
    requires RedisRefreshStore.Created(cfg.maxSessionsPerUser, s.db, id, n) == Ok(after)
    ensures Alone(cfg, s, p, k, Stored(s, p, id, n, after))
  {
    StartsClock(cfg, s.db, id, n, after);
    var clean, ready := InParts(cfg.maxSessionsPerUser, s.db, id, n, after);
    k := SoloInParts(cfg, s, p, id, n, n.expiresAt - s.db.now, clean, ready, after);
  }

  lemma SoloInParts(cfg: Config, s: System, p: Pid, id: SessionId, n: Session, ttl: int, clean: Db, ready: Db,
                    after: Db)
    returns (k: nat)
    requires p in s.procs && s.procs[p] == CreateStart(id, n)
    requires NextPc(cfg, s.db, CreateStart(id, n)) == CreateClock(id, n, ttl)
    requires clean == RedisRefreshStore.Cleaned(s.db, n.user)
    requires ready == RedisRefreshStore.Evicted(cfg.maxSessionsPerUser, clean, n.user)
    requires after == CommitCreate(ready, id, n, ttl)
    ensures Alone(cfg, s, p, k, Stored(s, p, id, n, after))
  {
    SoloStart(cfg, s, p, id, n, CreateClock(id, n, ttl));
    k := SoloAccepted(cfg, s, p, id, n, ttl, clean, ready, after);
    k := FirstThen(cfg, s, p, id, n, ttl, k, after);
  }

  lemma FirstThen(cfg: Config, s: System, p: Pid, id: SessionId, n: Session, ttl: int, j: nat, after: Db)
    returns (k: nat)
    requires Alone(cfg, s, p, 1, At(s, p, CreateClock(id, n, ttl), s.db))
    requires Alone(cfg, At(s, p, CreateClock(id, n, ttl), s.db), p, j, Stored(s, p, id, n, after))
    ensures Alone(cfg, s, p, k, Stored(s, p, id, n, after))
  {
    AloneThen(cfg, s, p, 1, At(s, p, CreateClock(id, n, ttl), s.db), j, Stored(s, p, id, n, after));
    k := 1 + j;
  }

  /**
   * Refresh, run without interruption on a session that holds the token presented, succeeds: it
   * reaches the EXEC with nothing moved, and the EXEC is the atomic check-and-set.
   */
  lemma SoloRefresh(cfg: Config, s: System, p: Pid, id: SessionId, current: TokenHash, next: TokenHash, at: int)
    returns (t: System)
    requires p in s.procs && s.procs[p] == RefreshGet(id, current, at) && next != "" && next !in s.tokens &&
             cfg.refreshTtl >= 0
    requires Refreshable(s.db, id, current, at)
    ensures Reaches(cfg, s, Runs(p, 1) + [Draw(p, next)] + Runs(p, 3), t)
    ensures t.procs == s.procs[p := Done(Refreshed(|s.rotations|, current))] && t.orphans == s.orphans - {id}
    ensures t.rotations == s.rotations + [Rotation(p, id, current, next)]
    ensures t.tokens.Keys == s.tokens.Keys + {current, next}
    ensures AtomicRotate(s.db, id, current, next, at + cfg.refreshTtl, at, at + cfg.refreshTtl - s.db.now) == Ok(t.db)
  {
    var m := s.(tokens := s.tokens[next := Held(p)]);
    var watch := At(m, p, RotateWatch(id, current, next, at), s.db);
    SoloDraw(cfg, s, p, id, current, next, at, m);
    var user := Get(s.db, id).value.user;
    t := SoloRotate(cfg, m, p, id, current, next, at, user, watch);
    AtomicIsCommit(s.db, id, current, next, user, at + cfg.refreshTtl, at, at + cfg.refreshTtl - s.db.now);
    ReachesThen(cfg, s, Runs(p, 1) + [Draw(p, next)], watch, Runs(p, 3), t);
  }

  lemma SoloDraw(cfg: Config, s: System, p: Pid, id: SessionId, current: TokenHash, next: TokenHash, at: int, m: System)
    requires p in s.procs && s.procs[p] == RefreshGet(id, current, at) && next !in s.tokens &&
             m == s.(tokens := s.tokens[next := Held(p)])
    requires Refreshable(s.db, id, current, at)
    ensures Reaches(cfg, s, Runs(p, 1) + [Draw(p, next)], At(m, p, RotateWatch(id, current, next, at), s.db))
  {
    assert s == At(s, p, RefreshGet(id, current, at), s.db);
    Walk(cfg, s, p, RefreshGet(id, current, at), s.db, RefreshDraw(id, current, at), s.db);
    DrawStep(cfg, s, p, id, current, next, at, m);
    ReachesThen(cfg, s, Runs(p, 1), At(s, p, RefreshDraw(id, current, at), s.db), [Draw(p, next)],
                At(m, p, RotateWatch(id, current, next, at), s.db));
  }

  lemma SoloRotate(cfg: Config, s: System, p: Pid, id: SessionId, current: TokenHash, next: TokenHash, at: int,
                   user: UserId, watch: System) returns (t: System)
    requires next != "" && cfg.refreshTtl >= 0 && watch == At(s, p, RotateWatch(id, current, next, at), s.db)
    requires var read := Get(s.db, id);
             read.Ok? && read.value.revokedAt.None? && read.value.token == current && read.value.user == user
    ensures Alone(cfg, watch, p, 3, t)
    ensures t.procs == s.procs[p := Done(Refreshed(|s.rotations|, current))] && t.orphans == s.orphans - {id}
    ensures t.rotations == s.rotations + [Rotation(p, id, current, next)]
    ensures t.tokens.Keys == s.tokens.Keys + {current, next}
    ensures t.db == CommitRotate(s.db, id, user, next, at + cfg.refreshTtl, at, at + cfg.refreshTtl - s.db.now)
  {
    var exec := At(s, p, RotateExec(id, current, next, at, Version(s.db, id), user, at + cfg.refreshTtl - s.db.now),
                   s.db);
    SoloToExec(cfg, s, p, id, current, next, at, user, exec);
    t := SoloExec(cfg, s, p, id, current, next, at, user, at + cfg.refreshTtl - s.db.now, exec);
    AloneThen(cfg, watch, p, 2, exec, 1, t);
  }

  lemma SoloExec(cfg: Config, s: System, p: Pid, id: SessionId, current: TokenHash, next: TokenHash, at: int,
                 user: UserId, ttl: int, exec: System) returns (t: System)
    requires exec == At(s, p, RotateExec(id, current, next, at, Version(s.db, id), user, ttl), s.db)
    ensures Alone(cfg, exec, p, 1, t)
    ensures t.procs == s.procs[p := Done(Refreshed(|s.rotations|, current))] && t.orphans == s.orphans - {id}
    ensures t.rotations == s.rotations + [Rotation(p, id, current, next)]
    ensures t.tokens.Keys == s.tokens.Keys + {current, next}
    ensures t.db == CommitRotate(s.db, id, user, next, at + cfg.refreshTtl, at, ttl)
  {
    var pc := RotateExec(id, current, next, at, Version(s.db, id), user, ttl);
    t := CommitRotation(cfg, exec, p, pc);
    Committed(cfg, s, p, pc, exec);
    AloneOnce(cfg, exec, p, t);
  }

  lemma Committed(cfg: Config, s: System, p: Pid, pc: Pc, exec: System)
    requires pc.RotateExec? && exec == At(s, p, pc, s.db)
    ensures var t := CommitRotation(cfg, exec, p, pc);
            && t.procs == s.procs[p := Done(Refreshed(|s.rotations|, pc.current))] && t.orphans == s.orphans - {pc.id}
            && t.rotations == s.rotations + [Rotation(p, pc.id, pc.current, pc.next)]
            && t.tokens.Keys == s.tokens.Keys + {pc.current, pc.next}
  {
  }

  lemma AtomicIsCommit(db: Db, id: SessionId, current: TokenHash, next: TokenHash, user: UserId, expiresAt: int,
                       at: int, ttl: int)
    requires next != "" && expiresAt >= at
    requires var read := Get(db, id);
             read.Ok? && read.value.revokedAt.None? && read.value.token == current && read.value.user == user
    ensures AtomicRotate(db, id, current, next, expiresAt, at, ttl) ==
            Ok(CommitRotate(db, id, user, next, expiresAt, at, ttl))
  {
  }

  lemma SoloToExec(cfg: Config, s: System, p: Pid, id: SessionId, current: TokenHash, next: TokenHash, at: int,
                   user: UserId, exec: System)
    requires next != "" && cfg.refreshTtl >= 0
    requires var read := Get(s.db, id);
             read.Ok? && read.value.revokedAt.None? && read.value.token == current && read.value.user == user
    requires exec == At(s, p,
                        RotateExec(id, current, next, at, Version(s.db, id), user, at + cfg.refreshTtl - s.db.now),
                          s.db)
    ensures Alone(cfg, At(s, p, RotateWatch(id, current, next, at), s.db), p, 2, exec)
  {
    var read := RotateRead(id, current, next, at, Version(s.db, id));
    Walk(cfg, s, p, RotateWatch(id, current, next, at), s.db, read, s.db);
    Walk(cfg, s, p, read, s.db, exec.procs[p], s.db);
    AloneThen(cfg, At(s, p, RotateWatch(id, current, next, at), s.db), p, 1, At(s, p, read, s.db), 1, exec);
  }

  lemma DrawStep(cfg: Config, s: System, p: Pid, id: SessionId, current: TokenHash, next: TokenHash, at: int, m: System)
    requires p in s.procs && next !in s.tokens && m == s.(tokens := s.tokens[next := Held(p)])
    ensures Reaches(cfg, At(s, p, RefreshDraw(id, current, at), s.db), [Draw(p, next)],
                    At(m, p, RotateWatch(id, current, next, at), s.db))
  {
    OneAction(cfg, At(s, p, RefreshDraw(id, current, at), s.db), Draw(p, next),
              At(m, p, RotateWatch(id, current, next, at), s.db));
  }
}
