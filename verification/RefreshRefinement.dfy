/**
 * The Redis store simulates the lock-based store: a caller that uses one of them through the service, one
 * call after the other, sees outcomes the other could have given, as long as every step is Agreeable.
 * RefreshDivergence shows that this condition is exact.
 */
module RefreshRefinement {
  import opened Basics
  import opened Redis
  import opened RefreshSessions
  import opened RefreshProtocol
  import opened RefreshInvariant
  import opened RedisCreate
  import RedisRefreshStore
  import Memory = MemoryRefreshStore

  datatype Op =
    | Login(id: SessionId, user: UserId, telegram: int, token: TokenHash)
    | Look(id: SessionId)
    | Refresh(id: SessionId, current: TokenHash, next: TokenHash)
    | Logout(id: SessionId, current: TokenHash)
    | LogoutAll(user: UserId)
    | Wait(seconds: nat)

  datatype Out = Fine | Found(session: Session) | Refused(error: Error)

  /** The session that createRefreshSession asks for. */
  function NewSession(cfg: Config, now: int, op: Op): Session
    requires op.Login?
  {
    Session(op.user, op.telegram, op.token, now + cfg.refreshTtl, now, now, None)
  }

  /** It is new, unrevoked, and lives for the configured time from now on. */
  lemma NewSessionSays(cfg: Config, now: int, op: Op)
    requires op.Login?
    ensures var s := NewSession(cfg, now, op);
            && s.user == op.user && s.telegram == op.telegram && s.token == op.token && s.revokedAt == None
            && s.expiresAt - cfg.refreshTtl == s.createdAt == s.lastRotated == now
  {
  }

  // ---------- The service over Redis ----------

  function RedisRefresh(cfg: Config, db: Db, op: Op): Result<Db, Error>
    requires op.Refresh?
  {
    var read := RefreshChecks(Get(db, op.id), op.current, db.now);
    if read.Err? then Err(read.error)
    else if op.next == "" then Err(NextTokenRequired)
    else AtomicRotate(db, op.id, op.current, op.next, db.now + cfg.refreshTtl, db.now, cfg.refreshTtl)
  }

  /** What Logout requires of the session it reads. */
  function LogoutChecks(read: Result<Session, Error>, current: TokenHash): Result<Session, Error> {
    if read.Err? then read else if read.value.token != current then Err(TokenMismatch) else read
  }

  function RedisState(cfg: Config, db: Db, op: Op): Db {
    match op
    case Login(id, _, _, _) =>
      var r := RedisRefreshStore.Created(cfg.maxSessionsPerUser, db, id, NewSession(cfg, db.now, op));
      if r.Ok? then r.value else db
    case Look(_) => db
    case Refresh(_, _, _) => var r := RedisRefresh(cfg, db, op); if r.Ok? then r.value else db
    case Logout(id, current) =>
      var read := LogoutChecks(Get(db, id), current);
      if read.Ok? then Revoke(db, read.value.user, {id}, db.now) else db
    case LogoutAll(user) =>
      if Scores(db, user) == map[] then db else Revoke(db, user, Scores(db, user).Keys, db.now)
    case Wait(d) => Elapse(db, d)
  }

  function RedisOut(cfg: Config, db: Db, op: Op): Out {
    match op
    case Login(id, _, _, _) =>
      var r := RedisRefreshStore.Created(cfg.maxSessionsPerUser, db, id, NewSession(cfg, db.now, op));
      if r.Ok? then Fine else Refused(r.error)
    case Look(id) => var r := Get(db, id); if r.Ok? then Found(r.value) else Refused(r.error)
    case Refresh(_, _, _) => var r := RedisRefresh(cfg, db, op); if r.Ok? then Fine else Refused(r.error)
    case Logout(id, current) =>
      var read := LogoutChecks(Get(db, id), current);
      if read.Ok? then Fine else Refused(read.error)
    case LogoutAll(_) => Fine
    case Wait(_) => Fine
  }

  // ---------- The service over the map ----------

  datatype Local = Local(now: int, sessions: Memory.Sessions)

  function MemoryRefresh(cfg: Config, l: Local, op: Op): Result<Memory.Sessions, Error>
    requires op.Refresh?
  {
    var read := RefreshChecks(Memory.Lookup(l.sessions, l.now, op.id), op.current, l.now);
    if read.Err? then Err(read.error)
    else Memory.Rotated(l.sessions, op.id, op.current, op.next, l.now + cfg.refreshTtl, l.now)
  }

  /** The map-based service may answer out and become k. */
  ghost predicate MemoryStep(cfg: Config, l: Local, op: Op, out: Out, k: Local) {
    match op
    case Login(id, user, _, token) =>
      var s := NewSession(cfg, l.now, op);
      if id == "" || user == "" || token == "" then out == Refused(InvalidSession) && k == l
      else if s.expiresAt <= l.now then out == Refused(ExpirationPast) && k == l
      else
        && out == Fine && k.now == l.now
        && Memory.MayCreate(cfg.maxSessionsPerUser, l.sessions, l.now, Memory.Entry(id, s), k.sessions)
    case Look(id) =>
      var r := Memory.Lookup(l.sessions, l.now, id);
      k == l && out == if r.Ok? then Found(r.value) else Refused(r.error)
    case Refresh(_, _, _) =>
      var r := MemoryRefresh(cfg, l, op);
      if r.Ok? then out == Fine && k == l.(sessions := r.value) else out == Refused(r.error) && k == l
    case Logout(id, current) =>
      var read := LogoutChecks(Memory.Lookup(l.sessions, l.now, id), current);
      if read.Ok? then out == Fine && k == l.(sessions := Memory.MarkedRevoked(l.sessions, {id}, l.now))
      else out == Refused(read.error) && k == l
    case LogoutAll(user) =>
      out == Fine && k == l.(sessions := Memory.MarkedRevoked(l.sessions, Memory.OfUser(l.sessions, user), l.now))
    case Wait(d) => out == Fine && k == l.(now := l.now + d)
  }

  // ---------- The simulation ----------

  predicate Listed(m: Memory.Sessions, now: int, id: SessionId) {
    id in m && m[id].s.expiresAt >= now
  }

  /** The fields of the hash of a session, revoked or not. */
  function StoredFields(s: Session): Fields {
    CreatedFields(s).(revokedAt := s.revokedAt)
  }

  /** The hash of a session is there exactly while its map entry counts, and says the same. */
  predicate HashSim(db: Db, m: Memory.Sessions, id: SessionId) {
    (id in db.hashes <==> Listed(m, db.now, id)) &&
    (id in db.hashes ==> db.hashes[id] == HashKey(StoredFields(m[id].s), Some(m[id].s.expiresAt)))
  }

  /** The index lists the user's unrevoked sessions that count, with their expiry; what else it lists has expired. */
  predicate IndexSim(db: Db, m: Memory.Sessions, user: UserId, id: SessionId) {
    && (id in Scores(db, user) && Scores(db, user)[id] >= db.now <==>
          Listed(m, db.now, id) && m[id].s.user == user && m[id].s.revokedAt.None?)
    && (id in Scores(db, user) && Listed(m, db.now, id) ==>
          m[id].s.user == user && m[id].s.revokedAt.None? && Scores(db, user)[id] == m[id].s.expiresAt)
  }

  ghost predicate Sim(max: nat, db: Db, l: Local, used: set<SessionId>) {
    && db.now == l.now
    && Memory.Capped(l.sessions, max)
    && (forall id :: HashSim(db, l.sessions, id))
    && (forall user, id :: IndexSim(db, l.sessions, user, id))
    && l.sessions.Keys <= used
    && (forall user :: Scores(db, user).Keys <= used)
  }

  /** The index key of the user runs out in the next d seconds while it lists a session that is still there then. */
  predicate Unlists(db: Db, d: nat, user: UserId, id: SessionId) {
    user in db.index && user !in Elapse(db, d).index && id in db.index[user].scores && id in Elapse(db, d).hashes
  }

  ghost predicate IndexOutlives(db: Db, d: nat) {
    forall user, id :: !Unlists(db, d, user, id)
  }

  /** The sessions of the user whose hashes are there, revoked or not. */
  function Own(db: Db, user: UserId): set<SessionId> {
    set id | id in db.hashes && db.hashes[id].fields.user == Some(user)
  }

  /** As many as the cap, and a revoked one among them, which the map counts and the index does not. */
  predicate Crowded(max: nat, db: Db, user: UserId) {
    |Own(db, user)| >= max && exists id :: id in Own(db, user) && db.hashes[id].fields.revokedAt.Some?
  }

  /** No listed session has expired, and no session of the user was revoked at another time. */
  predicate RevokesAlike(db: Db, user: UserId) {
    ZBelow(db, user, db.now - 1) == {} &&
    forall id :: id in Own(db, user) ==> db.hashes[id].fields.revokedAt in {None, Some(db.now)}
  }

  /** The two stores can go on agreeing after the operation. */
  ghost predicate Agreeable(cfg: Config, db: Db, op: Op) {
    match op
    case Login(_, user, _, _) => RedisOut(cfg, db, op) == Fine ==> !Crowded(cfg.maxSessionsPerUser, db, user)
    case LogoutAll(user) => RevokesAlike(db, user)
    case Wait(d) => IndexOutlives(db, d)
    case _ => true
  }

  /** Ids are drawn fresh. */
  predicate DrawsFresh(op: Op, used: set<SessionId>) {
    op.Login? ==> op.id !in used
  }

  function Used(op: Op, used: set<SessionId>): set<SessionId> {
    if op.Login? then used + {op.id} else used
  }

  // ---------- Step by step ----------

  lemma WaitSim(max: nat, db: Db, l: Local, used: set<SessionId>, d: nat)
    requires Sim(max, db, l, used) && IndexOutlives(db, d)
    ensures Sim(max, Elapse(db, d), l.(now := l.now + d), used)
  {
    var b := Elapse(db, d);
    var m := l.sessions;
    forall id ensures HashSim(b, m, id) { assert HashSim(db, m, id); }
    forall user, id ensures IndexSim(b, m, user, id) {
      assert IndexSim(db, m, user, id) && HashSim(b, m, id);
      assert !Unlists(db, d, user, id);
    }
    forall user ensures Scores(b, user).Keys <= used {
      assert Scores(db, user).Keys <= used;
    }
  }

  /** What the service reads is the same on both sides. */
  lemma ReadSim(max: nat, db: Db, l: Local, used: set<SessionId>, id: SessionId)
    requires Sim(max, db, l, used)
    ensures Get(db, id) == Memory.Lookup(l.sessions, l.now, id)
  {
    assert HashSim(db, l.sessions, id);
  }

  lemma RotateSim(cfg: Config, db: Db, l: Local, used: set<SessionId>, op: Op)
    requires Sim(cfg.maxSessionsPerUser, db, l, used) && op.Refresh? && cfg.refreshTtl > 0
    requires RedisRefresh(cfg, db, op).Ok?
    ensures MemoryRefresh(cfg, l, op).Ok?
    ensures Sim(cfg.maxSessionsPerUser, RedisRefresh(cfg, db, op).value,
                l.(sessions := MemoryRefresh(cfg, l, op).value), used)
  {
    ReadSim(cfg.maxSessionsPerUser, db, l, used, op.id);
    var user := l.sessions[op.id].s.user;
    var exp := db.now + cfg.refreshTtl;
    var b := CommitRotate(db, op.id, user, op.next, exp, db.now, cfg.refreshTtl);
    Memory.RotateKeepsCap(cfg.maxSessionsPerUser, l.sessions, op.id, op.current, op.next, exp, l.now);
    RotatedSim(cfg.maxSessionsPerUser, db, l, used, op.id, op.next, exp, cfg.refreshTtl, b,
               MemoryRefresh(cfg, l, op).value);
  }

  lemma RotatedSim(max: nat, db: Db, l: Local, used: set<SessionId>, id: SessionId, next: TokenHash, exp: int,
                   ttl: int, b: Db, m: Memory.Sessions)
    requires Sim(max, db, l, used) && Listed(l.sessions, l.now, id) && l.sessions[id].s.revokedAt.None?
    requires ttl > 0 && exp == db.now + ttl
    requires b == CommitRotate(db, id, l.sessions[id].s.user, next, exp, db.now, ttl)
    requires var s := l.sessions[id].s.(token := next, expiresAt := exp, lastRotated := db.now);
             m == l.sessions[id := l.sessions[id].(s := s)]
    requires Memory.Capped(m, max)
    ensures Sim(max, b, l.(sessions := m), used)
  {
    var user := l.sessions[id].s.user;
    assert HashSim(db, l.sessions, id);
    RotateShape(db, id, user, next, exp, ttl);
    forall x ensures HashSim(b, m, x) { assert HashSim(db, l.sessions, x); }
    forall u, x ensures IndexSim(b, m, u, x) { assert IndexSim(db, l.sessions, u, x); }
    forall u ensures Scores(b, u).Keys <= used { assert Scores(db, u).Keys <= used; }
  }

  lemma RotateShape(db: Db, id: SessionId, user: UserId, next: TokenHash, exp: int, ttl: int)
    requires ttl > 0 && id in db.hashes && exp == db.now + ttl
    ensures var b := CommitRotate(db, id, user, next, exp, db.now, ttl);
            && b.now == db.now
            && var fields := Written(db.hashes[id].fields, RotatedFields(next, exp, db.now));
            && b.hashes == db.hashes[id := HashKey(fields, Some(exp))]
            && Scores(b, user) == Scores(db, user)[id := exp]
            && forall u :: u != user ==> Scores(b, u) == Scores(db, u)
  {
  }

  /** The user's entries that are not revoked. */
  function Unrevoked(m: Memory.Sessions, user: UserId): set<SessionId> {
    set id | id in Memory.OfUser(m, user) && m[id].s.revokedAt.None?
  }

  /** The user's members that have not expired are the user's unrevoked entries that count. */
  lemma PoolSim(max: nat, db: Db, l: Local, used: set<SessionId>, user: UserId)
    requires Sim(max, db, l, used)
    ensures var c := Memory.Current(l.sessions, l.now);
            Unexpired(db, user) == Unrevoked(c, user) && |Memory.OfUser(c, user)| <= max
    ensures forall id :: id in Unexpired(db, user) ==> Scores(db, user)[id] == l.sessions[id].s.expiresAt
  {
    var c := Memory.Current(l.sessions, l.now);
    forall id ensures id in Unexpired(db, user) <==> id in Unrevoked(c, user) {
      assert IndexSim(db, l.sessions, user, id);
    }
    forall id | id in Unexpired(db, user) ensures Scores(db, user)[id] == l.sessions[id].s.expiresAt {
      assert IndexSim(db, l.sessions, user, id);
    }
    SubsetSize(Memory.OfUser(c, user), Memory.OfUser(l.sessions, user));
  }

  /** The hashes of the user's sessions are those of the user's entries that count. */
  lemma OwnSim(max: nat, db: Db, l: Local, used: set<SessionId>, user: UserId)
    requires Sim(max, db, l, used)
    ensures Own(db, user) == Memory.OfUser(Memory.Current(l.sessions, l.now), user)
    ensures forall id :: id in Own(db, user) ==> db.hashes[id].fields.revokedAt == l.sessions[id].s.revokedAt
  {
    forall id ensures id in Own(db, user) <==> id in Memory.OfUser(Memory.Current(l.sessions, l.now), user) {
      assert HashSim(db, l.sessions, id);
    }
    forall id | id in Own(db, user) ensures db.hashes[id].fields.revokedAt == l.sessions[id].s.revokedAt {
      assert HashSim(db, l.sessions, id);
    }
  }

  /**
   * Keeping the highest-ranked max - 1 of the unrevoked entries drops what the map store may drop: nothing
   * below the cap, and one entry of minimal expiry at the cap if none of them is revoked.
   */
  lemma EvictionSim(max: nat, scores: map<SessionId, int>, c: Memory.Sessions, user: UserId, pool: set<SessionId>,
                    kept: set<SessionId>)
    requires 1 <= max && pool == Unrevoked(c, user) && HighestRanked(scores, pool, kept, max - 1)
    requires |Memory.OfUser(c, user)| <= max && (|Memory.OfUser(c, user)| == max ==> pool == Memory.OfUser(c, user))
    requires forall id :: id in pool ==> scores[id] == c[id].s.expiresAt
    ensures if |Memory.OfUser(c, user)| < max then c - (pool - kept) == c
            else exists victim :: Memory.Oldest(c, user, victim) && c - (pool - kept) == c - {victim}
  {
    var own := Memory.OfUser(c, user);
    SubsetSize(pool, own);
    Difference(pool, kept);
    if |own| < max {
      assert pool - kept == {};
      assert c - {} == c;
    } else {
      LowestGoes(scores, c, user, kept);
    }
  }

  lemma LowestGoes(scores: map<SessionId, int>, c: Memory.Sessions, user: UserId, kept: set<SessionId>)
    requires var pool := Memory.OfUser(c, user);
             && kept <= pool <= scores.Keys && |pool - kept| == 1
             && (forall id :: id in pool ==> scores[id] == c[id].s.expiresAt)
             && forall k, e :: k in kept && e in pool - kept ==> RankLess(scores, e, k)
    ensures exists victim :: Memory.Oldest(c, user, victim) && c - (Memory.OfUser(c, user) - kept) == c - {victim}
  {
    var pool := Memory.OfUser(c, user);
    var victim :| victim in pool - kept;
    OnlyMember(pool - kept, victim);
    forall id | id in pool ensures c[victim].s.expiresAt <= c[id].s.expiresAt {
      if id != victim {
        assert id !in pool - kept;
        assert RankLess(scores, victim, id);
      }
    }
    assert Memory.Oldest(c, user, victim);
  }

  lemma Difference<T>(pool: set<T>, kept: set<T>)
    requires kept <= pool
    ensures |pool - kept| == |pool| - |kept|
  {
    assert pool == kept + (pool - kept);
  }

  lemma OnlyMember<T>(s: set<T>, x: T)
    requires |s| == 1 && x in s
    ensures s == {x}
  {
    SubsetSize({x}, s);
    assert |s - {x}| == 0;
  }

  lemma LoginSim(cfg: Config, db: Db, l: Local, used: set<SessionId>, op: Op) returns (k: Local)
    requires Sim(cfg.maxSessionsPerUser, db, l, used) && 1 <= cfg.maxSessionsPerUser && cfg.refreshTtl > 0
    requires op.Login? && op.id !in used && Agreeable(cfg, db, op)
    ensures MemoryStep(cfg, l, op, RedisOut(cfg, db, op), k)
    ensures Sim(cfg.maxSessionsPerUser, RedisState(cfg, db, op), k, used + {op.id})
  {
    var s := NewSession(cfg, db.now, op);
    var r := RedisRefreshStore.Created(cfg.maxSessionsPerUser, db, op.id, s);
    if r.Err? {
      k := l;
      SimMoreUsed(cfg.maxSessionsPerUser, db, l, used, op.id);
    } else {
      var kept := Kept(cfg.maxSessionsPerUser, db, s.user);
      CreateKeepsHighestRanked(cfg.maxSessionsPerUser, db, op.id, s);
      k := AcceptedSim(cfg.maxSessionsPerUser, db, l, used, op.id, s, kept, r.value);
    }
  }

  lemma AcceptedSim(max: nat, db: Db, l: Local, used: set<SessionId>, id: SessionId, s: Session, kept: set<SessionId>,
                    b: Db) returns (k: Local)
    requires Sim(max, db, l, used) && 1 <= max && id !in used && s.revokedAt.None? && s.expiresAt > db.now
    requires KeepsHighestRanked(max, db, id, s, b, kept) && !Crowded(max, db, s.user)
    ensures k.now == l.now && Memory.MayCreate(max, l.sessions, l.now, Memory.Entry(id, s), k.sessions)
    ensures Sim(max, b, k, used + {id})
  {
    PoolSim(max, db, l, used, s.user);
    NotCrowded(max, db, l, used, s.user);
    k := Placed(max, db, l, id, s, kept);
    assert id !in db.hashes by { assert HashSim(db, l.sessions, id); }
    KeptAreListed(max, db, id, s, b, kept);
    CreatedSim(max, db, l, used, id, s, kept, b, k);
  }

  lemma NotCrowded(max: nat, db: Db, l: Local, used: set<SessionId>, user: UserId)
    requires Sim(max, db, l, used) && !Crowded(max, db, user)
    ensures var c := Memory.Current(l.sessions, l.now);
            |Memory.OfUser(c, user)| >= max ==> Unrevoked(c, user) == Memory.OfUser(c, user)
  {
    var c := Memory.Current(l.sessions, l.now);
    OwnSim(max, db, l, used, user);
    if |Memory.OfUser(c, user)| >= max {
      forall id | id in Memory.OfUser(c, user) ensures id in Unrevoked(c, user) {
        assert id in Own(db, user);
      }
    }
  }

  /** The map-based Create that picks the same victim. */
  lemma Placed(max: nat, db: Db, l: Local, id: SessionId, s: Session, kept: set<SessionId>) returns (k: Local)
    requires 1 <= max && Memory.Capped(l.sessions, max) &&
             HighestRanked(Scores(db, s.user), Unexpired(db, s.user), kept, max - 1)
    requires var c := Memory.Current(l.sessions, l.now);
             && Unexpired(db, s.user) == Unrevoked(c, s.user) && |Memory.OfUser(c, s.user)| <= max
             && (|Memory.OfUser(c, s.user)| == max ==> Unrevoked(c, s.user) == Memory.OfUser(c, s.user))
    requires forall x :: x in Unexpired(db, s.user) ==> Scores(db, s.user)[x] == l.sessions[x].s.expiresAt
    ensures k == Local(l.now,
                       (Memory.Current(l.sessions, l.now) - (Unexpired(db, s.user) - kept))[id := Memory.Entry(id, s)])
    ensures Memory.Capped(k.sessions, max) && Memory.MayCreate(max, l.sessions, l.now, Memory.Entry(id, s), k.sessions)
  {
    var c := Memory.Current(l.sessions, l.now);
    var e := Memory.Entry(id, s);
    EvictionSim(max, Scores(db, s.user), c, s.user, Unexpired(db, s.user), kept);
    k := Local(l.now, (c - (Unexpired(db, s.user) - kept))[id := e]);
    assert Memory.MayCreate(max, l.sessions, l.now, e, k.sessions);
    Memory.CreateKeepsCap(max, l.sessions, l.now, e, k.sessions);
  }

  lemma SimMoreUsed(max: nat, db: Db, l: Local, used: set<SessionId>, id: SessionId)
    requires Sim(max, db, l, used)
    ensures Sim(max, db, l, used + {id})
  {
    forall user ensures Scores(db, user).Keys <= used + {id} { assert Scores(db, user).Keys <= used; }
  }

  lemma KeptAreListed(max: nat, db: Db, id: SessionId, s: Session, b: Db, kept: set<SessionId>)
    requires 1 <= max && KeepsHighestRanked(max, db, id, s, b, kept)
    ensures ListsKept(db, b, id, s, kept)
  {
    assert Scores(db, s.user).Keys - (Scores(db, s.user).Keys - kept) == kept;
  }

  /** The index lists the new session and what was kept. */
  ghost predicate ListsKept(db: Db, b: Db, id: SessionId, s: Session, kept: set<SessionId>) {
    && Scores(b, s.user).Keys == kept + {id} && Scores(b, s.user)[id] == s.expiresAt && kept <= Scores(db, s.user).Keys
    && (forall x :: x in kept && x != id ==> Scores(b, s.user)[x] == Scores(db, s.user)[x])
    && (forall u :: u != s.user ==> Scores(b, u) == Scores(db, u))
  }

  lemma CreatedIndexSim(db: Db, l: Local, id: SessionId, s: Session, kept: set<SessionId>, b: Db, m: Memory.Sessions,
                        u: UserId, x: SessionId)
    requires b.now == db.now == l.now && s.expiresAt > db.now && kept <= Unexpired(db, s.user) &&
             ListsKept(db, b, id, s, kept)
    requires m == (Memory.Current(l.sessions, l.now) - (Unexpired(db, s.user) - kept))[id := Memory.Entry(id, s)]
    requires IndexSim(db, l.sessions, u, x) && IndexSim(db, l.sessions, s.user, x) && id !in Scores(db, u) &&
             s.revokedAt.None?
    ensures IndexSim(b, m, u, x)
  {
  }

  lemma CreatedHashSim(db: Db, l: Local, id: SessionId, s: Session, kept: set<SessionId>, b: Db, m: Memory.Sessions,
                       x: SessionId)
    requires b.now == db.now == l.now && s.expiresAt > db.now && kept <= Unexpired(db, s.user) && s.revokedAt.None?
    requires OnTopOf(db.hashes, Scores(db, s.user).Keys - kept, b.hashes, id) &&
             b.hashes[id] == HashKey(CreatedFields(s), Some(s.expiresAt))
    requires m == (Memory.Current(l.sessions, l.now) - (Unexpired(db, s.user) - kept))[id := Memory.Entry(id, s)]
    requires HashSim(db, l.sessions, x) && IndexSim(db, l.sessions, s.user, x)
    ensures HashSim(b, m, x)
  {
  }

  lemma CreatedSim(max: nat, db: Db, l: Local, used: set<SessionId>, id: SessionId, s: Session, kept: set<SessionId>,
                   b: Db, k: Local)
    requires Sim(max, db, l, used) && id !in used && s.revokedAt.None? && s.expiresAt > db.now &&
             kept <= Unexpired(db, s.user)
    requires k.now == l.now && Memory.Capped(k.sessions, max)
    requires k.sessions ==
             (Memory.Current(l.sessions, l.now) - (Unexpired(db, s.user) - kept))[id := Memory.Entry(id, s)]
    requires b.now == db.now && ListsKept(db, b, id, s, kept)
    requires OnTopOf(db.hashes, Scores(db, s.user).Keys - kept, b.hashes, id) &&
             b.hashes[id] == HashKey(CreatedFields(s), Some(s.expiresAt))
    ensures Sim(max, b, k, used + {id})
  {
    forall x ensures HashSim(b, k.sessions, x) {
      assert HashSim(db, l.sessions, x) && IndexSim(db, l.sessions, s.user, x);
      CreatedHashSim(db, l, id, s, kept, b, k.sessions, x);
    }
    forall u, x ensures IndexSim(b, k.sessions, u, x) {
      assert IndexSim(db, l.sessions, u, x) && IndexSim(db, l.sessions, s.user, x);
      assert Scores(db, u).Keys <= used;
      CreatedIndexSim(db, l, id, s, kept, b, k.sessions, u, x);
    }
    forall u ensures Scores(b, u).Keys <= used + {id} { assert Scores(db, u).Keys <= used; }
  }

  lemma StepSim(cfg: Config, db: Db, l: Local, used: set<SessionId>, op: Op) returns (k: Local)
    requires Sim(cfg.maxSessionsPerUser, db, l, used) && 1 <= cfg.maxSessionsPerUser && cfg.refreshTtl > 0
    requires DrawsFresh(op, used) && Agreeable(cfg, db, op)
    ensures MemoryStep(cfg, l, op, RedisOut(cfg, db, op), k)
    ensures Sim(cfg.maxSessionsPerUser, RedisState(cfg, db, op), k, Used(op, used))
  {
    match op
    case Login(_, _, _, _) => k := LoginSim(cfg, db, l, used, op);
    case Look(id) =>
      ReadSim(cfg.maxSessionsPerUser, db, l, used, id);
      k := l;
    case Refresh(id, _, _) => k := RefreshSim(cfg, db, l, used, op);
    case Logout(_, _) => k := LogoutSim(cfg, db, l, used, op);
    case LogoutAll(user) => k := LogoutAllSim(cfg, db, l, used, user);
    case Wait(d) =>
      WaitSim(cfg.maxSessionsPerUser, db, l, used, d);
      k := l.(now := l.now + d);
  }

  lemma RefreshSim(cfg: Config, db: Db, l: Local, used: set<SessionId>, op: Op) returns (k: Local)
    requires Sim(cfg.maxSessionsPerUser, db, l, used) && cfg.refreshTtl > 0 && op.Refresh?
    ensures MemoryStep(cfg, l, op, RedisOut(cfg, db, op), k)
    ensures Sim(cfg.maxSessionsPerUser, RedisState(cfg, db, op), k, used)
  {
    ReadSim(cfg.maxSessionsPerUser, db, l, used, op.id);
    k := l;
    if RedisRefresh(cfg, db, op).Ok? {
      RotateSim(cfg, db, l, used, op);
      k := l.(sessions := MemoryRefresh(cfg, l, op).value);
    }
  }

  /** Marking sessions whose hashes are there, and unlisting all that are listed of them. */
  lemma MarkedSim(max: nat, db: Db, l: Local, used: set<SessionId>, user: UserId, ids: set<SessionId>,
                  marked: set<SessionId>)
    requires Sim(max, db, l, used)
    requires ids <= marked && forall id :: id in ids ==>
             id in db.hashes && id in l.sessions && l.sessions[id].s.user == user
    requires forall id :: id in marked - ids ==> id in l.sessions && MarksNothing(l, user, id)
    ensures Sim(max, Revoke(db, user, ids, db.now), l.(sessions := Memory.MarkedRevoked(l.sessions, marked, l.now)),
                used)
  {
    var b, m := Revoke(db, user, ids, db.now), Memory.MarkedRevoked(l.sessions, marked, l.now);
    RevokeShape(db, user, ids, db.now);
    Memory.MarkKeepsCap(max, l.sessions, marked, l.now);
    forall id ensures HashSim(b, m, id) { assert HashSim(db, l.sessions, id); }
    forall u, id ensures IndexSim(b, m, u, id) {
      assert IndexSim(db, l.sessions, u, id) && HashSim(db, l.sessions, id);
    }
    forall u ensures Scores(b, u).Keys <= used { assert Scores(db, u).Keys <= used; }
  }

  /** An entry of the user that does not count, or is marked as revoked just now already. */
  predicate MarksNothing(l: Local, user: UserId, id: SessionId)
    requires id in l.sessions
  {
    l.sessions[id].s.user == user && (l.sessions[id].s.expiresAt < l.now || l.sessions[id].s.revokedAt == Some(l.now))
  }

  lemma LogoutSim(cfg: Config, db: Db, l: Local, used: set<SessionId>, op: Op) returns (k: Local)
    requires Sim(cfg.maxSessionsPerUser, db, l, used) && op.Logout?
    ensures MemoryStep(cfg, l, op, RedisOut(cfg, db, op), k)
    ensures Sim(cfg.maxSessionsPerUser, RedisState(cfg, db, op), k, used)
  {
    ReadSim(cfg.maxSessionsPerUser, db, l, used, op.id);
    var read := LogoutChecks(Get(db, op.id), op.current);
    k := l;
    if read.Ok? {
      assert HashSim(db, l.sessions, op.id);
      MarkedSim(cfg.maxSessionsPerUser, db, l, used, read.value.user, {op.id}, {op.id});
      k := l.(sessions := Memory.MarkedRevoked(l.sessions, {op.id}, l.now));
    }
  }

  lemma LogoutAllSim(cfg: Config, db: Db, l: Local, used: set<SessionId>, user: UserId) returns (k: Local)
    requires Sim(cfg.maxSessionsPerUser, db, l, used) && RevokesAlike(db, user)
    ensures MemoryStep(cfg, l, LogoutAll(user), Fine, k)
    ensures Sim(cfg.maxSessionsPerUser, RedisState(cfg, db, LogoutAll(user)), k, used)
  {
    var ids, marked := Scores(db, user).Keys, Memory.OfUser(l.sessions, user);
    k := l.(sessions := Memory.MarkedRevoked(l.sessions, marked, l.now));
    forall id | id in ids ensures id in db.hashes && id in l.sessions && l.sessions[id].s.user == user {
      assert id !in ZBelow(db, user, db.now - 1);
      assert IndexSim(db, l.sessions, user, id) && HashSim(db, l.sessions, id);
    }
    OwnSim(cfg.maxSessionsPerUser, db, l, used, user);
    forall id | id in marked && id !in ids ensures MarksNothing(l, user, id) {
      assert IndexSim(db, l.sessions, user, id) && HashSim(db, l.sessions, id);
    }
    MarkedSim(cfg.maxSessionsPerUser, db, l, used, user, ids, marked);
    if ids == {} {
      RedisRefreshStore.RevokeNone(db, user, db.now);
    }
  }

  // ---------- Whole runs ----------

  function RedisOuts(cfg: Config, db: Db, ops: seq<Op>): seq<Out>
    decreases |ops|
  {
    if ops == [] then [] else [RedisOut(cfg, db, ops[0])] + RedisOuts(cfg, RedisState(cfg, db, ops[0]), ops[1..])
  }

  /** Ids are fresh and every step is agreeable. */
  ghost predicate AllAgreeable(cfg: Config, db: Db, ops: seq<Op>, used: set<SessionId>)
    decreases |ops|
  {
    ops == [] ||
    (DrawsFresh(ops[0], used) && Agreeable(cfg, db, ops[0]) &&
     AllAgreeable(cfg, RedisState(cfg, db, ops[0]), ops[1..], Used(ops[0], used)))
  }

  /** locals is a run of the map-based service that answers outs. */
  ghost predicate MemoryRun(cfg: Config, ops: seq<Op>, outs: seq<Out>, locals: seq<Local>) {
    |outs| == |ops| && |locals| == |ops| + 1 &&
    forall i :: 0 <= i < |ops| ==> MemoryStep(cfg, locals[i], ops[i], outs[i], locals[i + 1])
  }

  lemma {:induction false} RunSim(cfg: Config, db: Db, l: Local, used: set<SessionId>, ops: seq<Op>)
    returns (locals: seq<Local>)
    requires Sim(cfg.maxSessionsPerUser, db, l, used) && 1 <= cfg.maxSessionsPerUser && cfg.refreshTtl > 0
    requires AllAgreeable(cfg, db, ops, used)
    ensures MemoryRun(cfg, ops, RedisOuts(cfg, db, ops), locals) && locals[0] == l
    decreases |ops|
  {
    locals := [l];
    if ops != [] {
      var k := StepSim(cfg, db, l, used, ops[0]);
      var rest := RunSim(cfg, RedisState(cfg, db, ops[0]), k, Used(ops[0], used), ops[1..]);
      locals := [l] + rest;
    }
  }

  /** Every sequence of answers the Redis-backed service gives from empty is one the map-based service can give. */
  lemma RedisRefinesMemory(cfg: Config, now: int, ops: seq<Op>) returns (locals: seq<Local>)
    requires 1 <= cfg.maxSessionsPerUser && cfg.refreshTtl > 0
    requires AllAgreeable(cfg, Db(now, map[], map[], map[]), ops, {})
    ensures locals != [] && locals[0] == Local(now, map[])
    ensures MemoryRun(cfg, ops, RedisOuts(cfg, Db(now, map[], map[], map[]), ops), locals)
  {
    var db := Db(now, map[], map[], map[]);
    var l := Local(now, map[]);
    forall user ensures |Memory.OfUser(l.sessions, user)| <= cfg.maxSessionsPerUser {
      assert Memory.OfUser(l.sessions, user) == {};
    }
    assert forall user :: Scores(db, user) == map[];
    locals := RunSim(cfg, db, l, {}, ops);
  }
}
