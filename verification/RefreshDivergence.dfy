/** Where the two refresh stores part ways: exactly at the steps that are not agreeable, and with what difference. */
module RefreshDivergence {
  import opened Basics
  import opened Redis
  import opened RefreshSessions
  import opened RefreshProtocol
  import opened RefreshInvariant
  import opened RedisCreate
  import opened RefreshRefinement
  import RedisRefreshStore
  import Memory = MemoryRefreshStore

  // ---------- Login at the cap, with a revoked session ----------

  /** A revoked session leaves the Redis index but still counts towards the cap of the map. */
  lemma RevokedCountInMemoryOnly(db: Db, m: Memory.Sessions, user: UserId, ids: set<SessionId>, at: int)
    ensures Memory.OfUser(Memory.MarkedRevoked(m, ids, at), user) == Memory.OfUser(m, user)
    ensures Scores(Revoke(db, user, ids, at), user).Keys == Scores(db, user).Keys - ids
  {
    var after := Memory.MarkedRevoked(m, ids, at);
    assert forall id :: id in m ==> after[id].s.user == m[id].s.user;
    RevokeShape(db, user, ids, at);
  }

  /** In a crowd the index has room, so Create over Redis evicts no session that has not expired. */
  lemma CrowdKeepsAll(max: nat, db: Db, l: Local, used: set<SessionId>, user: UserId, kept: set<SessionId>)
    requires 1 <= max && Sim(max, db, l, used) && Crowded(max, db, user)
    requires HighestRanked(Scores(db, user), Unexpired(db, user), kept, max - 1)
    ensures kept == Unexpired(db, user)
    ensures Own(db, user) * (Scores(db, user).Keys - kept) == {}
  {
    var own, pool := Own(db, user), Unexpired(db, user);
    OwnSim(max, db, l, used, user);
    PoolSim(max, db, l, used, user);
    var revoked :| revoked in own && db.hashes[revoked].fields.revokedAt.Some?;
    SubsetSize(pool, own - {revoked});
    assert pool == kept + (pool - kept) && |pool - kept| == |pool| - |kept|;
    forall x | x in own ensures x !in Scores(db, user).Keys - kept {
      assert HashSim(db, l.sessions, x) && IndexSim(db, l.sessions, user, x);
    }
  }

  lemma CrowdedCreate(max: nat, db: Db, l: Local, used: set<SessionId>, id: SessionId, s: Session, b: Db,
                      kept: set<SessionId>, k: Local)
    requires 1 <= max && Sim(max, db, l, used) && id !in used && Crowded(max, db, s.user)
    requires KeepsHighestRanked(max, db, id, s, b, kept)
    requires k.now == l.now && Memory.MayCreate(max, l.sessions, l.now, Memory.Entry(id, s), k.sessions)
    ensures exists x :: x in Own(db, s.user) && x !in k.sessions
    ensures forall x :: x in Own(db, s.user) && x !in k.sessions ==>
              Get(b, x) == Get(db, x) && Get(db, x).Ok? && Memory.Lookup(k.sessions, k.now, x) == Err(NotFound)
  {
    CrowdKeepsAll(max, db, l, used, s.user, kept);
    OwnSim(max, db, l, used, s.user);
    DroppedOne(max, l, s.user, Memory.Entry(id, s), k);
    forall x | x in Own(db, s.user) && x !in k.sessions ensures Get(b, x) == Get(db, x) && Get(db, x).Ok? {
      StaysReadable(max, db, l, used, id, s, b, kept, x);
    }
  }

  lemma StaysReadable(max: nat, db: Db, l: Local, used: set<SessionId>, id: SessionId, s: Session, b: Db,
                      kept: set<SessionId>, x: SessionId)
    requires 1 <= max && Sim(max, db, l, used) && id !in used && KeepsHighestRanked(max, db, id, s, b, kept)
    requires x in Own(db, s.user) && Own(db, s.user) * (Scores(db, s.user).Keys - kept) == {}
    ensures Get(b, x) == Get(db, x) && Get(db, x).Ok?
  {
    assert HashSim(db, l.sessions, x);
    assert x !in Scores(db, s.user).Keys - kept;
    Untouched(max, db, id, s, b, kept, x);
  }

  /** What the map store drops is still there over Redis. */
  lemma LoginDiverges(cfg: Config, db: Db, l: Local, used: set<SessionId>, op: Op, k: Local)
    requires Sim(cfg.maxSessionsPerUser, db, l, used) && 1 <= cfg.maxSessionsPerUser
    requires op.Login? && DrawsFresh(op, used) && !Agreeable(cfg, db, op) &&
             MemoryStep(cfg, l, op, RedisOut(cfg, db, op), k)
    ensures exists x :: x in Own(db, op.user) && x !in k.sessions
    ensures forall x :: x in Own(db, op.user) && x !in k.sessions ==>
              && Get(RedisState(cfg, db, op), x) == Get(db, x) && Get(db, x).Ok?
              && Memory.Lookup(k.sessions, k.now, x) == Err(NotFound)
  {
    var max, s := cfg.maxSessionsPerUser, NewSession(cfg, db.now, op);
    CreateKeepsHighestRanked(max, db, op.id, s);
    CrowdedCreate(max, db, l, used, op.id, s, RedisState(cfg, db, op), Kept(max, db, op.user), k);
  }

  lemma DroppedOne(max: nat, l: Local, user: UserId, e: Memory.Entry, k: Local)
    requires user == e.s.user && e.id !in l.sessions && Memory.MayCreate(max, l.sessions, l.now, e, k.sessions)
    requires |Memory.OfUser(Memory.Current(l.sessions, l.now), user)| >= max
    ensures exists x :: x in Memory.OfUser(Memory.Current(l.sessions, l.now), user) && x !in k.sessions
  {
    var c := Memory.Current(l.sessions, l.now);
    var victim :| Memory.Oldest(c, user, victim) && k.sessions == (c - {victim})[e.id := e];
    assert victim in Memory.OfUser(c, user) && victim !in k.sessions;
  }

  lemma Untouched(max: nat, db: Db, id: SessionId, s: Session, b: Db, kept: set<SessionId>, x: SessionId)
    requires 1 <= max && KeepsHighestRanked(max, db, id, s, b, kept)
    requires x in db.hashes && x != id && x !in Scores(db, s.user).Keys - kept
    ensures Get(b, x) == Get(db, x)
  {
  }

  /**
   * If one of the user's sessions expires before all revoked ones, the map store drops one that could still be
   * refreshed.
   */
  lemma RevokedCrowdsOutLive(cfg: Config, db: Db, l: Local, used: set<SessionId>, op: Op, k: Local, earliest: SessionId)
    requires Sim(cfg.maxSessionsPerUser, db, l, used) && 1 <= cfg.maxSessionsPerUser
    requires op.Login? && DrawsFresh(op, used) && !Agreeable(cfg, db, op) &&
             MemoryStep(cfg, l, op, RedisOut(cfg, db, op), k)
    requires earliest in Own(db, op.user) && Get(db, earliest).Ok?
    requires forall x :: x in Own(db, op.user) && Get(db, x).Ok? && Get(db, x).value.revokedAt.Some? ==>
               Get(db, earliest).value.expiresAt < Get(db, x).value.expiresAt
    ensures exists x :: x in Own(db, op.user) && x !in k.sessions && Get(RedisState(cfg, db, op), x) == Get(db, x) &&
                        Get(db, x).Ok? && Get(db, x).value.revokedAt.None?
  {
    var max, e := cfg.maxSessionsPerUser, Memory.Entry(op.id, NewSession(cfg, db.now, op));
    LoginDiverges(cfg, db, l, used, op, k);
    OwnSim(max, db, l, used, op.user);
    var x := EarliestGoes(max, db, l, used, op.user, e, k, earliest);
    assert x in Own(db, op.user) && x !in k.sessions;
  }

  lemma EarliestGoes(max: nat, db: Db, l: Local, used: set<SessionId>, user: UserId, e: Memory.Entry, k: Local,
                     earliest: SessionId)
    returns (victim: SessionId)
    requires Sim(max, db, l, used) && user == e.s.user && e.id !in l.sessions && Crowded(max, db, user)
    requires Memory.MayCreate(max, l.sessions, l.now, e, k.sessions) && earliest in Own(db, user) &&
             Get(db, earliest).Ok?
    requires forall x :: x in Own(db, user) && Get(db, x).Ok? && Get(db, x).value.revokedAt.Some? ==>
               Get(db, earliest).value.expiresAt < Get(db, x).value.expiresAt
    ensures victim in Own(db, user) && victim !in k.sessions && Get(db, victim).Ok? &&
            Get(db, victim).value.revokedAt.None?
  {
    OwnSim(max, db, l, used, user);
    var c := Memory.Current(l.sessions, l.now);
    victim :| Memory.Oldest(c, user, victim) && k.sessions == (c - {victim})[e.id := e];
    assert HashSim(db, l.sessions, victim) && HashSim(db, l.sessions, earliest);
  }

  // ---------- LogoutAll over expired or revoked sessions ----------

  /**
   * Over Redis the hash of a listed session that has expired comes back as a remnant that does not parse, and
   * a session that was revoked before keeps the time of that; the map store finds nothing, or the new time.
   */
  lemma LogoutAllDiverges(cfg: Config, db: Db, l: Local, used: set<SessionId>, user: UserId, k: Local)
    requires Sim(cfg.maxSessionsPerUser, db, l, used) && MemoryStep(cfg, l, LogoutAll(user), Fine, k)
    ensures forall x :: x in ZBelow(db, user, db.now - 1) ==>
              Get(RedisState(cfg, db, LogoutAll(user)), x) == Err(Malformed) &&
                Memory.Lookup(k.sessions, k.now, x) == Err(NotFound)
    ensures forall x :: x in Own(db, user) && db.hashes[x].fields.revokedAt.Some? ==>
              && Get(RedisState(cfg, db, LogoutAll(user)), x) == Get(db, x) && Get(db, x).Ok?
              && Memory.Lookup(k.sessions, k.now, x) == Ok(Get(db, x).value.(revokedAt := Some(db.now)))
  {
    var b := RedisState(cfg, db, LogoutAll(user));
    RevokeShape(db, user, Scores(db, user).Keys, db.now);
    forall x | x in ZBelow(db, user, db.now - 1)
      ensures Get(b, x) == Err(Malformed) && Memory.Lookup(k.sessions, k.now, x) == Err(NotFound)
    {
      assert HashSim(db, l.sessions, x) && IndexSim(db, l.sessions, user, x);
    }
    forall x | x in Own(db, user) && db.hashes[x].fields.revokedAt.Some?
      ensures Get(b, x) == Get(db, x) && Get(db, x).Ok?
      ensures Memory.Lookup(k.sessions, k.now, x) == Ok(Get(db, x).value.(revokedAt := Some(db.now)))
    {
      assert HashSim(db, l.sessions, x) && IndexSim(db, l.sessions, user, x);
    }
  }

  // ---------- Waiting until the index key is gone ----------

  /** A LogoutAll after that misses the session over Redis, and marks it in the map. */
  lemma WaitDiverges(cfg: Config, db: Db, l: Local, used: set<SessionId>, d: nat, user: UserId, id: SessionId, k: Local)
    requires Sim(cfg.maxSessionsPerUser, db, l, used) && Unlists(db, d, user, id)
    requires MemoryStep(cfg, l.(now := l.now + d), LogoutAll(user), Fine, k)
    ensures var after := RedisState(cfg, RedisState(cfg, db, Wait(d)), LogoutAll(user));
            && Get(after, id).Ok? && Get(after, id).value.revokedAt.None?
            && Memory.Lookup(k.sessions, k.now, id) == Ok(Get(after, id).value.(revokedAt := Some(k.now)))
  {
    assert id in Scores(db, user);
    assert HashSim(db, l.sessions, id) && IndexSim(db, l.sessions, user, id);
  }

  // ---------- The condition is exact ----------

  lemma NoSuccessor(cfg: Config, db: Db, l: Local, used: set<SessionId>, op: Op, k: Local)
    requires Sim(cfg.maxSessionsPerUser, db, l, used) && 1 <= cfg.maxSessionsPerUser
    requires DrawsFresh(op, used) && !Agreeable(cfg, db, op) && MemoryStep(cfg, l, op, RedisOut(cfg, db, op), k)
    ensures !Sim(cfg.maxSessionsPerUser, RedisState(cfg, db, op), k, Used(op, used))
  {
    match op {
      case Login(_, user, _, _) =>
        LoginDiverges(cfg, db, l, used, op, k);
        var x :| x in Own(db, user) && x !in k.sessions;
        ReadsDiffer(cfg.maxSessionsPerUser, RedisState(cfg, db, op), k, Used(op, used), x);
      case LogoutAll(user) =>
        var x := AfterLogoutAll(cfg, db, l, used, user, k);
        ReadsDiffer(cfg.maxSessionsPerUser, RedisState(cfg, db, op), k, used, x);
      case Wait(d) => AfterWait(cfg.maxSessionsPerUser, db, l, used, d);
    }
  }

  lemma ReadsDiffer(max: nat, db: Db, l: Local, used: set<SessionId>, x: SessionId)
    requires Get(db, x) != Memory.Lookup(l.sessions, l.now, x)
    ensures !Sim(max, db, l, used)
  {
    if Sim(max, db, l, used) {
      ReadSim(max, db, l, used, x);
      assert false;
    }
  }

  lemma AfterLogoutAll(cfg: Config, db: Db, l: Local, used: set<SessionId>, user: UserId, k: Local)
    returns (x: SessionId)
    requires Sim(cfg.maxSessionsPerUser, db, l, used) && !RevokesAlike(db, user) &&
             MemoryStep(cfg, l, LogoutAll(user), Fine, k)
    ensures Get(RedisState(cfg, db, LogoutAll(user)), x) != Memory.Lookup(k.sessions, k.now, x)
  {
    LogoutAllDiverges(cfg, db, l, used, user, k);
    if ZBelow(db, user, db.now - 1) != {} {
      x :| x in ZBelow(db, user, db.now - 1);
    } else {
      x :| x in Own(db, user) && db.hashes[x].fields.revokedAt !in {None, Some(db.now)};
      assert HashSim(db, l.sessions, x);
    }
  }

  lemma AfterWait(max: nat, db: Db, l: Local, used: set<SessionId>, d: nat)
    requires Sim(max, db, l, used) && !IndexOutlives(db, d)
    ensures !Sim(max, Elapse(db, d), l.(now := l.now + d), used)
  {
    var user, x :| Unlists(db, d, user, x);
    assert x in Scores(db, user);
    assert HashSim(db, l.sessions, x) && IndexSim(db, l.sessions, user, x);
    assert !IndexSim(Elapse(db, d), l.sessions, user, x);
  }

  /**
   * From any simulated state the map store can answer as Redis does and go on agreeing if and only if the step
   * is agreeable.
   */
  lemma AgreesIff(cfg: Config, db: Db, l: Local, used: set<SessionId>, op: Op)
    requires Sim(cfg.maxSessionsPerUser, db, l, used) && 1 <= cfg.maxSessionsPerUser && cfg.refreshTtl > 0 &&
             DrawsFresh(op, used)
    ensures Agreeable(cfg, db, op) <==>
              exists k :: MemoryStep(cfg, l, op, RedisOut(cfg, db, op), k) &&
                          Sim(cfg.maxSessionsPerUser, RedisState(cfg, db, op), k, Used(op, used))
  {
    if Agreeable(cfg, db, op) {
      var k := StepSim(cfg, db, l, used, op);
    } else {
      forall k | MemoryStep(cfg, l, op, RedisOut(cfg, db, op), k)
        ensures !Sim(cfg.maxSessionsPerUser, RedisState(cfg, db, op), k, Used(op, used))
      {
        NoSuccessor(cfg, db, l, used, op, k);
      }
    }
  }

  // ---------- Two runs on which the answers differ ----------

  const EMPTY := Db(0, map[], map[], map[])

  /** No run of the map-based service from empty gives the answers that Redis gives. */
  ghost predicate AnswersDiffer(cfg: Config, ops: seq<Op>) {
    forall locals :: locals != [] && locals[0] == Local(0, map[]) ==>
      !MemoryRun(cfg, ops, RedisOuts(cfg, EMPTY, ops), locals)
  }

  lemma EmptySim(cfg: Config)
    ensures Sim(cfg.maxSessionsPerUser, EMPTY, Local(0, map[]), {})
  {
    forall user ensures |Memory.OfUser(map[], user)| <= cfg.maxSessionsPerUser {
      assert Memory.OfUser(map[], user) == {};
    }
  }

  lemma FirstAndRest(cfg: Config, db: Db, ops: seq<Op>, locals: seq<Local>)
    requires ops != [] && MemoryRun(cfg, ops, RedisOuts(cfg, db, ops), locals)
    ensures MemoryStep(cfg, locals[0], ops[0], RedisOut(cfg, db, ops[0]), locals[1])
    ensures MemoryRun(cfg, ops[1..], RedisOuts(cfg, RedisState(cfg, db, ops[0]), ops[1..]), locals[1..])
  {
    var outs, rest := RedisOuts(cfg, db, ops), RedisOuts(cfg, RedisState(cfg, db, ops[0]), ops[1..]);
    assert outs == [RedisOut(cfg, db, ops[0])] + rest;
    forall i | 0 <= i < |ops[1..]| ensures MemoryStep(cfg, locals[1..][i], ops[1..][i], rest[i], locals[1..][i + 1]) {
      assert MemoryStep(cfg, locals[i + 1], ops[i + 1], outs[i + 1], locals[i + 2]);
    }
  }

  /** Where the map store has no choice, its successor is the simulated one. */
  lemma Follow(cfg: Config, db: Db, l: Local, used: set<SessionId>, op: Op, k: Local)
    requires Sim(cfg.maxSessionsPerUser, db, l, used) && 1 <= cfg.maxSessionsPerUser && cfg.refreshTtl > 0
    requires DrawsFresh(op, used) && Agreeable(cfg, db, op) && MemoryStep(cfg, l, op, RedisOut(cfg, db, op), k)
    requires op.Login? ==> |Memory.OfUser(Memory.Current(l.sessions, l.now), op.user)| < cfg.maxSessionsPerUser
    ensures Sim(cfg.maxSessionsPerUser, RedisState(cfg, db, op), k, Used(op, used))
  {
    var other := StepSim(cfg, db, l, used, op);
    assert other == k;
  }

  const A := Login("a", "u", 1, "t")

  /** Both services after the first login. */
  lemma AfterFirstLogin(cfg: Config, k: Local)
    requires 1 <= cfg.maxSessionsPerUser && cfg.refreshTtl > 0
    requires MemoryStep(cfg, Local(0, map[]), A, RedisOut(cfg, EMPTY, A), k)
    ensures Sim(cfg.maxSessionsPerUser, RedisState(cfg, EMPTY, A), k, {"a"})
    ensures k == Local(0, map["a" := Memory.Entry("a", NewSession(cfg, 0, A))])
  {
    var l := Local(0, map[]);
    EmptySim(cfg);
    assert Own(EMPTY, "u") == {};
    assert Memory.Current(l.sessions, 0) == map[] && Memory.OfUser(map[], "u") == {};
    Follow(cfg, EMPTY, l, {}, A, k);
    assert {} + {"a"} == {"a"};
  }

  lemma TwoSteps(cfg: Config, db: Db, a: Op, b: Op, rest: seq<Op>, locals: seq<Local>)
    requires MemoryRun(cfg, [a, b] + rest, RedisOuts(cfg, db, [a, b] + rest), locals)
    ensures MemoryStep(cfg, locals[0], a, RedisOut(cfg, db, a), locals[1])
    ensures MemoryStep(cfg, locals[1], b, RedisOut(cfg, RedisState(cfg, db, a), b), locals[2])
    ensures MemoryRun(cfg, rest, RedisOuts(cfg, RedisState(cfg, RedisState(cfg, db, a), b), rest), locals[2..])
  {
    var ops := [a, b] + rest;
    FirstAndRest(cfg, db, ops, locals);
    FirstAndRest(cfg, RedisState(cfg, db, a), ops[1..], locals[1..]);
    assert ops[1..][1..] == rest && locals[1..][1..] == locals[2..];
  }

  /** With a cap of one, a login after a logout makes the map store forget the revoked session, and Redis not. */
  lemma LoginAfterLogout()
    ensures AnswersDiffer(Config(1, 100), [A, Logout("a", "t"), Login("b", "u", 1, "x"), Look("a")])
  {
    var cfg, b := Config(1, 100), Login("b", "u", 1, "x");
    var ops := [A, Logout("a", "t"), b, Look("a")];
    assert ops == [A, Logout("a", "t")] + [b, Look("a")] && [b, Look("a")] == [b, Look("a")] + [];
    forall locals | locals != [] && locals[0] == Local(0, map[])
      ensures !MemoryRun(cfg, ops, RedisOuts(cfg, EMPTY, ops), locals) {
      if MemoryRun(cfg, ops, RedisOuts(cfg, EMPTY, ops), locals) {
        TwoSteps(cfg, EMPTY, A, Logout("a", "t"), [b, Look("a")], locals);
        AfterFirstLogin(cfg, locals[1]);
        var db := RedisState(cfg, RedisState(cfg, EMPTY, A), Logout("a", "t"));
        AfterLogout(cfg, RedisState(cfg, EMPTY, A), locals[1], locals[2]);
        TwoSteps(cfg, db, b, Look("a"), [], locals[2..]);
        CrowdedOut(cfg, db, locals[2], b, locals[3]);
        LookDiffers(cfg, RedisState(cfg, db, b), locals[3], "a", locals[4]);
        assert false;
      }
    }
  }

  lemma AfterLogout(cfg: Config, db: Db, l: Local, k: Local)
    requires 1 <= cfg.maxSessionsPerUser && cfg.refreshTtl > 0 && Sim(cfg.maxSessionsPerUser, db, l, {"a"})
    requires l == Local(0, map["a" := Memory.Entry("a", NewSession(cfg, 0, A))])
    requires MemoryStep(cfg, l, Logout("a", "t"), RedisOut(cfg, db, Logout("a", "t")), k)
    ensures Sim(cfg.maxSessionsPerUser, RedisState(cfg, db, Logout("a", "t")), k, {"a"})
    ensures k == Local(0, map["a" := Memory.Entry("a", NewSession(cfg, 0, A).(revokedAt := Some(0)))])
  {
    Follow(cfg, db, l, {"a"}, Logout("a", "t"), k);
  }

  /** One revoked session is a crowd for a cap of one. */
  lemma OneIsACrowd(db: Db, l: Local)
    requires Sim(1, db, l, {"a"}) && l.now == 0
    requires l.sessions == map["a" := Memory.Entry("a", Session("u", 1, "t", 100, 0, 0, Some(0)))]
    ensures Own(db, "u") == {"a"} && Crowded(1, db, "u")
  {
    OwnSim(1, db, l, {"a"}, "u");
    assert Memory.Current(l.sessions, 0) == l.sessions;
    assert Own(db, "u") == {"a"};
    assert "a" in Own(db, "u");
  }

  lemma CrowdedOut(cfg: Config, db: Db, l: Local, b: Op, k: Local)
    requires cfg == Config(1, 100) && Sim(1, db, l, {"a"}) && b == Login("b", "u", 1, "x")
    requires l == Local(0, map["a" := Memory.Entry("a", NewSession(cfg, 0, A).(revokedAt := Some(0)))])
    requires MemoryStep(cfg, l, b, RedisOut(cfg, db, b), k)
    ensures Get(RedisState(cfg, db, b), "a") != Memory.Lookup(k.sessions, k.now, "a")
  {
    OneIsACrowd(db, l);
    assert !Agreeable(cfg, db, b);
    OnlyOneCanGo(cfg, db, l, b, k);
  }

  lemma OnlyOneCanGo(cfg: Config, db: Db, l: Local, b: Op, k: Local)
    requires 1 <= cfg.maxSessionsPerUser && Sim(cfg.maxSessionsPerUser, db, l, {"a"}) && b.Login? && b.id == "b" &&
             !Agreeable(cfg, db, b)
    requires Own(db, b.user) == {"a"} && MemoryStep(cfg, l, b, RedisOut(cfg, db, b), k)
    ensures Get(RedisState(cfg, db, b), "a") != Memory.Lookup(k.sessions, k.now, "a")
  {
    LoginDiverges(cfg, db, l, {"a"}, b, k);
  }

  /** The map store never answers a Look as Redis does where their reads differ. */
  lemma LookDiffers(cfg: Config, db: Db, l: Local, x: SessionId, k: Local)
    requires Get(db, x) != Memory.Lookup(l.sessions, l.now, x)
    ensures !MemoryStep(cfg, l, Look(x), RedisOut(cfg, db, Look(x)), k)
  {
  }

  /**
   * A LogoutAll after a session has expired, and before the index key has, leaves a hash over Redis that does
   * not parse.
   */
  lemma LogoutAllAfterExpiry()
    ensures AnswersDiffer(Config(5, 100), [A, Wait(101), LogoutAll("u"), Look("a")])
  {
    var cfg := Config(5, 100);
    var ops := [A, Wait(101), LogoutAll("u"), Look("a")];
    assert ops == [A, Wait(101)] + [LogoutAll("u"), Look("a")] &&
      [LogoutAll("u"), Look("a")] == [LogoutAll("u"), Look("a")] + [];
    forall locals | locals != [] && locals[0] == Local(0, map[])
      ensures !MemoryRun(cfg, ops, RedisOuts(cfg, EMPTY, ops), locals) {
      if MemoryRun(cfg, ops, RedisOuts(cfg, EMPTY, ops), locals) {
        TwoSteps(cfg, EMPTY, A, Wait(101), [LogoutAll("u"), Look("a")], locals);
        AfterFirstLogin(cfg, locals[1]);
        var db := RedisState(cfg, RedisState(cfg, EMPTY, A), Wait(101));
        AfterExpiry(cfg, RedisState(cfg, EMPTY, A), locals[1], locals[2]);
        TwoSteps(cfg, db, LogoutAll("u"), Look("a"), [], locals[2..]);
        RemnantLeft(cfg, db, locals[2], locals[3]);
        LookDiffers(cfg, RedisState(cfg, db, LogoutAll("u")), locals[3], "a", locals[4]);
        assert false;
      }
    }
  }

  lemma RemnantLeft(cfg: Config, db: Db, l: Local, k: Local)
    requires Sim(cfg.maxSessionsPerUser, db, l, {"a"}) && "a" in ZBelow(db, "u", db.now - 1)
    requires MemoryStep(cfg, l, LogoutAll("u"), Fine, k)
    ensures Get(RedisState(cfg, db, LogoutAll("u")), "a") != Memory.Lookup(k.sessions, k.now, "a")
  {
    LogoutAllDiverges(cfg, db, l, {"a"}, "u", k);
  }

  /** The index key of the first login runs out a day after the session. */
  lemma FirstLoginIndex(cfg: Config, db: Db)
    requires cfg == Config(5, 100) && db == RedisState(cfg, EMPTY, A)
    ensures db.now == 0 && "u" in db.index && db.index["u"].deadline == Some(100 + DAY)
    ensures "a" in Scores(db, "u") && Scores(db, "u")["a"] == 100
  {
    var s := NewSession(cfg, 0, A);
    CreateKeepsHighestRanked(5, EMPTY, "a", s);
    var ready := RedisRefreshStore.Evicted(5, RedisRefreshStore.Cleaned(EMPTY, "u"), "u");
    assert db == CommitCreate(ready, "a", s, 100);
    IndexDeadline(ready, "a", s, 100);
  }

  lemma IndexDeadline(db: Db, id: SessionId, s: Session, ttl: int)
    requires ttl > 0
    ensures var b := CommitCreate(db, id, s, ttl);
            b.now == db.now && s.user in b.index && b.index[s.user].deadline == Some(db.now + ttl + DAY)
  {
  }

  lemma AfterExpiry(cfg: Config, db: Db, l: Local, k: Local)
    requires cfg == Config(5, 100) && db == RedisState(cfg, EMPTY, A) && Sim(5, db, l, {"a"})
    requires l == Local(0, map["a" := Memory.Entry("a", NewSession(cfg, 0, A))])
    requires MemoryStep(cfg, l, Wait(101), RedisOut(cfg, db, Wait(101)), k)
    ensures Sim(5, Elapse(db, 101), k, {"a"}) && "a" in ZBelow(Elapse(db, 101), "u", Elapse(db, 101).now - 1)
  {
    FirstLoginIndex(cfg, db);
    forall user, id ensures !Unlists(db, 101, user, id) {
      assert HashSim(db, l.sessions, id);
    }
    Follow(cfg, db, l, {"a"}, Wait(101), k);
  }
}
