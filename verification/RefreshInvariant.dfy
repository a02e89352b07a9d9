/** What every step of the refresh protocol keeps. */
module RefreshInvariant {
  import opened Basics
  import opened Redis
  import opened RefreshSessions
  import opened RefreshProtocol

  /** All six fields of Create are there. */
  predicate Complete(f: Fields) {
    f.user.Some? && f.telegram.Some? && f.token.Some? && f.expiresAt.Some? && f.createdAt.Some? && f.lastRotated.Some?
  }

  /** A session that can still be refreshed, as far as its stored state goes. */
  predicate Alive(db: Db, id: SessionId) {
    id in db.hashes && Complete(db.hashes[id].fields) && db.hashes[id].fields.revokedAt.None?
  }

  predicate AliveWith(db: Db, id: SessionId, token: TokenHash) {
    Alive(db, id) && db.hashes[id].fields.token == Some(token)
  }

  /** What a Refresh at the given time needs of the store. */
  predicate Refreshable(db: Db, id: SessionId, current: TokenHash, at: int) {
    AliveWith(db, id, current) && at <= db.hashes[id].fields.expiresAt.value
  }

  predicate Indexed(db: Db, id: SessionId, user: UserId, score: int) {
    id in Scores(db, user) && Scores(db, user)[id] == score
  }

  // ---------- How one command may change a session ----------

  /** Only the session id0 may come out of a command alive and changed, and then it holds the token tok. */
  ghost predicate IdEvolves(a: Db, b: Db, id: SessionId, id0: Option<SessionId>, tok: TokenHash) {
    || (HGetAll(a, id) == HGetAll(b, id) && (id in a.hashes <==> id in b.hashes) && Version(a, id) == Version(b, id))
    || (Version(b, id) > Version(a, id) && (Alive(b, id) ==> id0 == Some(id) && AliveWith(b, id, tok)))
  }

  ghost predicate Evolves(a: Db, b: Db, id0: Option<SessionId>, tok: TokenHash) {
    forall id :: IdEvolves(a, b, id, id0, tok)
  }

  lemma DelEvolves(db: Db, id: SessionId)
    ensures Evolves(db, Del(db, id), None, "")
    ensures !Alive(Del(db, id), id)
  {
    forall x ensures IdEvolves(db, Del(db, id), x, None, "") {}
  }

  lemma ZRemEvolves(db: Db, user: UserId, ids: set<SessionId>)
    ensures ZRem(db, user, ids).hashes == db.hashes && ZRem(db, user, ids).versions == db.versions
    ensures Scores(ZRem(db, user, ids), user) == Scores(db, user) - ids
    ensures forall u :: u != user ==> Scores(ZRem(db, user, ids), u) == Scores(db, u)
  {
    UnlistedScores(db, user, ids);
  }

  lemma PurgeEvolves(db: Db, user: UserId, ids: set<SessionId>)
    ensures Evolves(db, Purge(db, user, ids), None, "")
  {
    forall x ensures IdEvolves(db, Purge(db, user, ids), x, None, "") {}
  }

  lemma RevokeEvolves(db: Db, user: UserId, ids: set<SessionId>, at: int)
    ensures Evolves(db, Revoke(db, user, ids, at), None, "")
    ensures forall id :: id in ids ==> !Alive(Revoke(db, user, ids, at), id)
    ensures forall id :: id !in ids ==> (Alive(Revoke(db, user, ids, at), id) <==> Alive(db, id))
  {
    forall x ensures IdEvolves(db, Revoke(db, user, ids, at), x, None, "") {}
  }

  lemma ElapseEvolves(db: Db, d: nat)
    ensures Evolves(db, Elapse(db, d), None, "")
  {
    forall x ensures IdEvolves(db, Elapse(db, d), x, None, "") {}
  }

  /** b is a with the session id stored under the given fields and listed for the user with the given score. */
  ghost predicate SessionWritten(a: Db, b: Db, id: SessionId, fields: Fields, user: UserId, score: int) {
    && fields.token.Some?
    && Evolves(a, b, Some(id), fields.token.value)
    && Version(b, id) > Version(a, id)
    && (id in b.hashes ==> b.hashes[id].fields == fields)
    && (forall x :: x in b.hashes && x != id ==> x in a.hashes && b.hashes[x].fields == a.hashes[x].fields)
    && Scores(b, user) == Scores(a, user)[id := score]
    && (forall u :: u != user ==> Scores(b, u) == Scores(a, u))
  }

  /** HSET followed by EXPIRE touches one hash and no index. */
  lemma HashStored(db: Db, id: SessionId, w: Fields, ttl: int)
    ensures var b := Expire(HSet(db, id, w), id, ttl);
            && b.index == db.index && b.now == db.now
            && Version(b, id) > Version(db, id)
            && b.hashes.Keys == (if ttl > 0 then db.hashes.Keys + {id} else db.hashes.Keys - {id})
            && (ttl > 0 ==> b.hashes[id] == HashKey(Written(HGetAll(db, id), w), Some(db.now + ttl)))
            && forall x :: x != id ==>
               Version(b, x) == Version(db, x) && (x in db.hashes ==> b.hashes[x] == db.hashes[x])
  {
  }

  lemma StoredEvolves(a: Db, b: Db, id: SessionId, w: Fields, ttl: int)
    requires w.token.Some?
    requires b.hashes == Expire(HSet(a, id, w), id, ttl).hashes &&
             b.versions == Expire(HSet(a, id, w), id, ttl).versions
    ensures Evolves(a, b, Some(id), w.token.value)
  {
    HashStored(a, id, w, ttl);
    forall x ensures IdEvolves(a, b, x, Some(id), w.token.value) {}
  }

  lemma CommitCreateWrites(db: Db, id: SessionId, s: Session, ttl: int)
    requires ttl > 0 && id !in db.hashes
    ensures SessionWritten(db, CommitCreate(db, id, s, ttl), id, CreatedFields(s), s.user, s.expiresAt)
    ensures id in CommitCreate(db, id, s, ttl).hashes
  {
    HashStored(db, id, CreatedFields(s), ttl);
    StoredEvolves(db, CommitCreate(db, id, s, ttl), id, CreatedFields(s), ttl);
    CommitCreateLists(db, id, s, ttl);
  }

  lemma CommitCreateLists(db: Db, id: SessionId, s: Session, ttl: int)
    requires ttl > 0
    ensures Scores(CommitCreate(db, id, s, ttl), s.user) == Scores(db, s.user)[id := s.expiresAt]
    ensures forall u :: u != s.user ==> Scores(CommitCreate(db, id, s, ttl), u) == Scores(db, u)
  {
  }

  lemma CommitRotateWrites(db: Db, id: SessionId, user: UserId, next: TokenHash, expiresAt: int, at: int, ttl: int)
    ensures SessionWritten(db, CommitRotate(db, id, user, next, expiresAt, at, ttl), id,
              Written(HGetAll(db, id), RotatedFields(next, expiresAt, at)), user, expiresAt)
    ensures id in CommitRotate(db, id, user, next, expiresAt, at, ttl).hashes <==> ttl > 0
  {
    HashStored(db, id, RotatedFields(next, expiresAt, at), ttl);
    StoredEvolves(db, CommitRotate(db, id, user, next, expiresAt, at, ttl), id, RotatedFields(next, expiresAt, at),
                  ttl);
  }

  // ---------- The invariant ----------

  predicate IsBorn(s: System, id: SessionId) {
    id in s.ids && s.ids[id].Born?
  }

  /** The token presented was the session's at some time. */
  predicate Presentable(s: System, id: SessionId, current: TokenHash) {
    IsBorn(s, id) && current in s.tokens && !s.tokens[current].Held?
  }

  predicate Holds(s: System, p: Pid, token: TokenHash) {
    token in s.tokens && s.tokens[token] == Held(p)
  }

  predicate Fresh(s: System, p: Pid, id: SessionId, n: Session) {
    id in s.ids && s.ids[id] == Reserved(p) && Holds(s, p, n.token)
  }

  /** What a process may rely on between two of its steps, whatever the others do. */
  ghost predicate ProcOk(s: System, p: Pid, pc: Pc) {
    match pc
    case CreateStart(id, n) => Fresh(s, p, id, n)
    case CreateClock(id, n, ttl) => Fresh(s, p, id, n) && ttl > 0
    case CreateScan(id, n, ttl, _) => Fresh(s, p, id, n) && ttl > 0
    case CreatePurge(id, n, ttl, expired) =>
      Fresh(s, p, id, n) && ttl > 0 && forall x :: x in expired ==> OwnedBy(s, x, n.user)
    case CreateCount(id, n, ttl) => Fresh(s, p, id, n) && ttl > 0
    case CreatePick(id, n, ttl) => Fresh(s, p, id, n) && ttl > 0
    case CreateEvict(id, n, ttl, oldest) => Fresh(s, p, id, n) && ttl > 0 && OwnedBy(s, oldest, n.user)
    case CreateUnindex(id, n, ttl, oldest) =>
      Fresh(s, p, id, n) && ttl > 0 && OwnedBy(s, oldest, n.user) && !Alive(s.db, oldest)
    case CreateCommit(id, n, ttl) => Fresh(s, p, id, n) && ttl > 0
    case RefreshGet(_, _, _) => true
    case RefreshDraw(id, current, _) => Presentable(s, id, current)
    case RotateWatch(id, current, next, _) => Presentable(s, id, current) && Holds(s, p, next)
    case RotateRead(id, current, next, _, seen) =>
      Presentable(s, id, current) && Holds(s, p, next) && seen <= Version(s.db, id) &&
      (AliveWith(s.db, id, current) ==> Version(s.db, id) == seen)
    case RotateExec(id, current, next, at, seen, user, _) =>
      Presentable(s, id, current) && Holds(s, p, next) && seen <= Version(s.db, id) &&
      (AliveWith(s.db, id, current) <==> Version(s.db, id) == seen) && s.ids[id].user == user
    case LogoutGet(_, _, _) => true
    case RevokeGet(id, _) => IsBorn(s, id)
    case RevokeExec(id, user, _) => OwnedBy(s, id, user)
    case RevokeAllRange(_, _) => true
    case RevokeAllExec(user, ids, _) => forall id :: id in ids ==> OwnedBy(s, id, user)
    case Done(outcome) =>
      outcome.Refreshed? ==>
        outcome.nth < |s.rotations| && s.rotations[outcome.nth].holder == p &&
          s.rotations[outcome.nth].current == outcome.presented
  }

  ghost predicate ProcsOk(s: System) {
    forall p :: p in s.procs ==> ProcOk(s, p, s.procs[p])
  }

  /** Every stored hash is either a whole session under its own token or a remnant that only says it was revoked. */
  predicate HashOk(s: System, id: SessionId)
    requires id in s.db.hashes
  {
    var f := s.db.hashes[id].fields;
    IsBorn(s, id) &&
    if Complete(f) then
      f.user == Some(s.ids[id].user) && f.token.value in s.tokens && s.tokens[f.token.value] == Stored(id)
    else
      f.revokedAt.Some? && f == NO_FIELDS.(revokedAt := f.revokedAt)
  }

  ghost predicate HashesOk(s: System) {
    forall id :: id in s.db.hashes ==> HashOk(s, id)
  }

  predicate OwnedBy(s: System, id: SessionId, user: UserId) {
    IsBorn(s, id) && s.ids[id].user == user
  }

  ghost predicate IndexOk(s: System) {
    forall user, id :: id in Scores(s.db, user) ==> OwnedBy(s, id, user)
  }

  predicate OrphanOk(s: System, id: SessionId) {
    IsBorn(s, id) && s.ids[id].user in s.lost && id !in Scores(s.db, s.ids[id].user)
  }

  ghost predicate OrphansOk(s: System) {
    forall id :: id in s.orphans ==> OrphanOk(s, id)
  }

  /** The index lists the session, with the score that its hash carries as expires_at. */
  predicate Agrees(s: System, id: SessionId) {
    Alive(s.db, id) && id !in s.orphans ==>
      var f := s.db.hashes[id].fields;
      Indexed(s.db, id, f.user.value, f.expiresAt.value)
  }

  ghost predicate Agreement(s: System) {
    forall id :: Agrees(s, id)
  }

  /** The token of session id after the given rotations, if it started with first. */
  function TokenAfter(rotations: seq<Rotation>, id: SessionId, first: TokenHash): TokenHash {
    if rotations == [] then first
    else
      var last := rotations[|rotations| - 1];
      if last.id == id then last.next else TokenAfter(rotations[..|rotations| - 1], id, first)
  }

  predicate Consumes(s: System, k: nat)
    requires k < |s.rotations|
  {
    var r := s.rotations[k];
    IsBorn(s, r.id) && r.current == TokenAfter(s.rotations[..k], r.id, s.ids[r.id].first) &&
    r.current in s.tokens && s.tokens[r.current] == Consumed
  }

  /** The successful rotations of each session form one chain from its first token. */
  ghost predicate ChainsOk(s: System) {
    forall k: nat :: k < |s.rotations| ==> Consumes(s, k)
  }

  ghost predicate ConsumedOnce(s: System) {
    forall j: nat, k: nat :: j < k < |s.rotations| ==> s.rotations[j].current != s.rotations[k].current
  }

  /** A whole session holds the last token of its chain. */
  ghost predicate HeadsOk(s: System) {
    forall id :: id in s.db.hashes && Complete(s.db.hashes[id].fields) && IsBorn(s, id) ==>
      s.db.hashes[id].fields.token.value == TokenAfter(s.rotations, id, s.ids[id].first)
  }

  /** An index never gains a member through Rotate unless its key had expired before. */
  ghost predicate ReadmittedOk(s: System) {
    forall user :: Readmitted(s, user) > 0 ==> user in s.lost
  }

  ghost predicate StoreOk(s: System) {
    HashesOk(s) && IndexOk(s) && OrphansOk(s) && Agreement(s) && HeadsOk(s)
  }

  ghost predicate HistoryOk(s: System) {
    ChainsOk(s) && ConsumedOnce(s) && ReadmittedOk(s)
  }

  ghost predicate Inv(s: System) {
    ProcsOk(s) && StoreOk(s) && HistoryOk(s)
  }

  // ---------- Preservation, one part at a time ----------

  /** t follows s by a step of p0, which may have changed session id0 under the token tok it held. */
  ghost predicate Follows(s: System, t: System, p0: Pid, id0: Option<SessionId>, tok: TokenHash) {
    && Evolves(s.db, t.db, id0, tok)
    && (id0.Some? ==> Holds(s, p0, tok) && (IsBorn(s, id0.value) ==> Alive(s.db, id0.value)))
    && (forall id :: id in s.ids ==> id in t.ids && (t.ids[id] == s.ids[id] || s.ids[id] == Reserved(p0)))
    && (forall x :: x in s.tokens ==>
          x in t.tokens && (t.tokens[x] == s.tokens[x] || s.tokens[x] == Held(p0) ||
                            (s.tokens[x].Stored? && t.tokens[x] == Consumed)))
    && (forall x :: x in s.tokens && s.tokens[x] == Held(p0) ==> t.tokens[x].Stored? || t.tokens[x] == s.tokens[x])
    && s.rotations <= t.rotations
  }

  lemma OtherProcKept(s: System, t: System, p0: Pid, id0: Option<SessionId>, tok: TokenHash, p: Pid, pc: Pc)
    requires p != p0 && ProcOk(s, p, pc) && Follows(s, t, p0, id0, tok)
    ensures ProcOk(t, p, pc)
  {
    match pc
    case CreateUnindex(_, _, _, oldest) =>
      assert IdEvolves(s.db, t.db, oldest, id0, tok);
    case RotateRead(_, _, _, _, _) => OtherRotateKept(s, t, p0, id0, tok, p, pc);
    case RotateExec(_, _, _, _, _, _, _) => OtherRotateKept(s, t, p0, id0, tok, p, pc);
    case _ =>
  }

  /** What a Rotate has read stays as good as its version, since no other process can store the token it was given. */
  lemma OtherRotateKept(s: System, t: System, p0: Pid, id0: Option<SessionId>, tok: TokenHash, p: Pid, pc: Pc)
    requires p != p0 && (pc.RotateRead? || pc.RotateExec?) && ProcOk(s, p, pc) && Follows(s, t, p0, id0, tok)
    ensures ProcOk(t, p, pc)
  {
    assert IdEvolves(s.db, t.db, pc.id, id0, tok);
  }

  lemma OtherProcsKept(s: System, t: System, p0: Pid, id0: Option<SessionId>, tok: TokenHash)
    requires ProcsOk(s) && Follows(s, t, p0, id0, tok)
    requires t.procs.Keys == s.procs.Keys + {p0} && ProcOk(t, p0, t.procs[p0])
    requires forall p :: p in s.procs && p != p0 ==> t.procs[p] == s.procs[p]
    ensures ProcsOk(t)
  {
    forall p | p in t.procs && p != p0 ensures ProcOk(t, p, t.procs[p]) {
      OtherProcKept(s, t, p0, id0, tok, p, s.procs[p]);
    }
  }

  // Steps that only take sessions away.

  /** What db keeps of a stored hash is what it was, except that it may have been marked revoked. */
  predicate HashShrinks(s: System, db: Db, id: SessionId)
    requires id in db.hashes
  {
    var f := db.hashes[id].fields;
    || (id in s.db.hashes && f == s.db.hashes[id].fields)
    || (IsBorn(s, id) && f.revokedAt.Some? && f == HGetAll(s.db, id).(revokedAt := f.revokedAt))
  }

  /** The index loses no session that stays alive. */
  ghost predicate IndexShrinks(a: Db, b: Db, user: UserId) {
    forall id :: id in Scores(b, user) || (id in Scores(a, user) && Alive(b, id)) ==>
      id in Scores(a, user) && id in Scores(b, user) && Scores(b, user)[id] == Scores(a, user)[id]
  }

  lemma ShrinkKeeps(s: System, db: Db)
    requires StoreOk(s)
    requires forall id :: id in db.hashes ==> HashShrinks(s, db, id)
    requires forall user :: IndexShrinks(s.db, db, user)
    ensures StoreOk(s.(db := db))
  {
    var t := s.(db := db);
    forall x | x in t.db.hashes ensures HashOk(t, x) {
      assert HashShrinks(s, db, x);
      if x in s.db.hashes { assert HashOk(s, x); }
    }
    forall user, x | x in Scores(t.db, user) ensures OwnedBy(t, x, user) {
      assert IndexShrinks(s.db, db, user);
      assert OwnedBy(s, x, user);
    }
    forall x | x in t.orphans ensures OrphanOk(t, x) {
      assert OrphanOk(s, x) && IndexShrinks(s.db, db, s.ids[x].user);
    }
    forall x ensures Agrees(t, x) {
      if Alive(t.db, x) && x !in t.orphans {
        assert HashShrinks(s, db, x) && Agrees(s, x) && IndexShrinks(s.db, db, db.hashes[x].fields.user.value);
      }
    }
  }

  lemma DelKeeps(s: System, id: SessionId)
    requires StoreOk(s)
    ensures StoreOk(s.(db := Del(s.db, id)))
  {
    var db := Del(s.db, id);
    assert forall user :: Scores(db, user) == Scores(s.db, user);
    ShrinkKeeps(s, db);
  }

  lemma UnindexKeeps(s: System, user: UserId, id: SessionId)
    requires StoreOk(s) && !Alive(s.db, id)
    ensures StoreOk(s.(db := ZRem(s.db, user, {id})))
  {
    ZRemEvolves(s.db, user, {id});
    ShrinkKeeps(s, ZRem(s.db, user, {id}));
  }

  lemma PurgeKeeps(s: System, user: UserId, ids: set<SessionId>)
    requires StoreOk(s)
    ensures StoreOk(s.(db := Purge(s.db, user, ids)))
  {
    ZRemEvolves(s.db, user, ids);
    assert Purge(s.db, user, ids).index == ZRem(s.db, user, ids).index;
    ShrinkKeeps(s, Purge(s.db, user, ids));
  }

  lemma RevokeKeeps(s: System, user: UserId, ids: set<SessionId>, at: int)
    requires StoreOk(s) && forall id :: id in ids ==> IsBorn(s, id)
    ensures StoreOk(s.(db := Revoke(s.db, user, ids, at)))
  {
    var db := Revoke(s.db, user, ids, at);
    RevokeShape(s.db, user, ids, at);
    ShrinkKeeps(s, db);
  }

  lemma RevokeShape(db: Db, user: UserId, ids: set<SessionId>, at: int)
    ensures var b := Revoke(db, user, ids, at);
            && b.hashes.Keys == db.hashes.Keys + ids
            && (forall id :: id in b.hashes ==>
                  b.hashes[id].fields == if id in ids then HGetAll(db, id).(revokedAt := Some(at))
                    else db.hashes[id].fields)
            && Scores(b, user) == Scores(db, user) - ids
            && forall u :: u != user ==> Scores(b, u) == Scores(db, u)
  {
    ZRemEvolves(db, user, ids);
    assert Revoke(db, user, ids, at).index == ZRem(db, user, ids).index;
  }

  /** The index key of the user lists the session, and runs out when d seconds pass. */
  predicate LeavesBehind(s: System, d: nat, user: UserId, id: SessionId) {
    user in s.db.index && Gone(s.db.index[user].deadline, s.db.now + d) && id in s.db.index[user].scores
  }

  lemma PassKeeps(s: System, d: nat)
    requires StoreOk(s)
    ensures StoreOk(Pass(s, d))
    ensures forall x :: x in Pass(s, d).orphans <==> x in s.orphans || exists user :: LeavesBehind(s, d, user, x)
  {
    var t := Pass(s, d);
    forall user, x | x in Scores(t.db, user) ensures OwnedBy(t, x, user) {
      assert x in Scores(s.db, user);
      assert OwnedBy(s, x, user);
    }
    NewOrphans(s, d);
    forall x | x in t.orphans ensures OrphanOk(t, x) {
      PassOrphans(s, d, x);
    }
    forall x ensures Agrees(t, x) {
      if Alive(t.db, x) && x !in t.orphans {
        assert Agrees(s, x) && HashOk(s, x);
      }
    }
    forall x | x in t.db.hashes ensures HashOk(t, x) {
      assert HashOk(s, x);
    }
  }

  lemma NewOrphans(s: System, d: nat)
    ensures forall x :: x in Pass(s, d).orphans <==> x in s.orphans || exists user :: LeavesBehind(s, d, user, x)
  {
    var db := Elapse(s.db, d);
    forall x ensures x in Pass(s, d).orphans <==> x in s.orphans || exists user :: LeavesBehind(s, d, user, x) {
      if x in Pass(s, d).orphans && x !in s.orphans {
        var user :| user in s.db.index && user !in db.index && x in s.db.index[user].scores;
        assert LeavesBehind(s, d, user, x);
      }
      if user :| LeavesBehind(s, d, user, x) {
        assert user !in db.index;
      }
    }
  }

  lemma PassOrphans(s: System, d: nat, x: SessionId)
    requires IndexOk(s) && OrphansOk(s) && x in Pass(s, d).orphans
    ensures OrphanOk(Pass(s, d), x)
  {
    var t := Pass(s, d);
    if x in s.orphans {
      assert OrphanOk(s, x);
      assert x !in Scores(s.db, s.ids[x].user);
    } else {
      var user :| user in s.db.index && user !in t.db.index && x in s.db.index[user].scores;
      assert x in Scores(s.db, user);
      assert OwnedBy(s, x, user);
    }
  }

  // Steps that write a session.

  /** t is s after the transaction of a Create of process p. */
  ghost predicate SessionAdded(s: System, t: System, p: Pid, id: SessionId, n: Session) {
    && SessionWritten(s.db, t.db, id, CreatedFields(n), n.user, n.expiresAt)
    && t == s.(db := t.db, procs := s.procs[p := Done(Created)], ids := s.ids[id := Born(n.user, n.token)],
               tokens := s.tokens[n.token := Stored(id)])
  }

  lemma CommitSessionAdds(s: System, p: Pid, pc: Pc)
    requires HashesOk(s) && pc.CreateCommit? && ProcOk(s, p, pc)
    ensures SessionAdded(s, CommitSession(s, p, pc), p, pc.id, pc.s)
  {
    CommitCreateWrites(s.db, pc.id, pc.s, pc.ttl);
  }

  lemma SessionAddedKeepsStore(s: System, t: System, p: Pid, id: SessionId, n: Session)
    requires StoreOk(s) && ChainsOk(s) && Fresh(s, p, id, n) && SessionAdded(s, t, p, id, n)
    ensures StoreOk(t)
  {
    forall x | x in t.db.hashes ensures HashOk(t, x) {
      if x != id { assert HashOk(s, x); }
    }
    forall u, x | x in Scores(t.db, u) ensures OwnedBy(t, x, u) {
      if x != id { assert OwnedBy(s, x, u); }
    }
    forall x | x in t.orphans ensures OrphanOk(t, x) { assert OrphanOk(s, x); }
    forall x ensures Agrees(t, x) {
      assert Agrees(s, x);
      if x in s.db.hashes { assert HashOk(s, x); }
    }
    NeverRotated(s, id, n.token);
  }

  lemma SessionAddedKeepsProcs(s: System, t: System, p: Pid, id: SessionId, n: Session)
    requires ProcsOk(s) && Fresh(s, p, id, n) && SessionAdded(s, t, p, id, n)
    ensures ProcsOk(t)
  {
    assert Follows(s, t, p, Some(id), n.token);
    OtherProcsKept(s, t, p, Some(id), n.token);
  }

  /** An id that is still reserved has no rotation. */
  lemma NeverRotated(s: System, id: SessionId, first: TokenHash)
    requires ChainsOk(s) && !IsBorn(s, id)
    ensures TokenAfter(s.rotations, id, first) == first
  {
    forall k: nat | k < |s.rotations| ensures s.rotations[k].id != id {
      assert Consumes(s, k);
    }
    NoRotationNoChange(s.rotations, id, first);
  }

  lemma {:induction false} NoRotationNoChange(rotations: seq<Rotation>, id: SessionId, first: TokenHash)
    requires forall k: nat :: k < |rotations| ==> rotations[k].id != id
    ensures TokenAfter(rotations, id, first) == first
  {
    if rotations != [] {
      NoRotationNoChange(rotations[..|rotations| - 1], id, first);
    }
  }

  lemma AppendedTokenAfter(rotations: seq<Rotation>, r: Rotation, id: SessionId, first: TokenHash)
    ensures TokenAfter(rotations + [r], id, first) == if r.id == id then r.next else TokenAfter(rotations, id, first)
  {
    assert (rotations + [r])[..|rotations|] == rotations;
  }

  /** What the process that gets to EXEC unchallenged relies on. */
  predicate MayCommit(s: System, p: Pid, pc: Pc) {
    pc.RotateExec? && AliveWith(s.db, pc.id, pc.current) && OwnedBy(s, pc.id, pc.user) &&
    Holds(s, p, pc.next) && Presentable(s, pc.id, pc.current)
  }

  /** t is s after the transaction of the Rotate of process p, which gave the session the expiry exp. */
  ghost predicate SessionRotated(s: System, t: System, p: Pid, pc: Pc, exp: int)
    requires pc.RotateExec?
  {
    && SessionWritten(s.db, t.db, pc.id, Written(HGetAll(s.db, pc.id), RotatedFields(pc.next, exp, pc.at)), pc.user,
                      exp)
    && t == s.(db := t.db,
               procs := s.procs[p := Done(Refreshed(|s.rotations|, pc.current))],
               tokens := s.tokens[pc.current := Consumed][pc.next := Stored(pc.id)],
               rotations := s.rotations + [Rotation(p, pc.id, pc.current, pc.next)],
               orphans := s.orphans - {pc.id},
               readmitted := t.readmitted)
    && Readmitted(t, pc.user) == Readmitted(s, pc.user) + (if pc.id in Scores(s.db, pc.user) then 0 else 1)
    && (forall u :: u != pc.user ==> Readmitted(t, u) == Readmitted(s, u))
  }

  lemma CommitRotationRotates(cfg: Config, s: System, p: Pid, pc: Pc)
    requires pc.RotateExec?
    ensures SessionRotated(s, CommitRotation(cfg, s, p, pc), p, pc, pc.at + cfg.refreshTtl)
  {
    CommitRotateWrites(s.db, pc.id, pc.user, pc.next, pc.at + cfg.refreshTtl, pc.at, pc.ttl);
    ReadmittedOnce(s, CommitRotation(cfg, s, p, pc), pc.id, pc.user);
  }

  lemma ReadmittedOnce(s: System, t: System, id: SessionId, user: UserId)
    requires t.readmitted == if id in Scores(s.db, user) then s.readmitted
             else s.readmitted[user := Readmitted(s, user) + 1]
    ensures Readmitted(t, user) == Readmitted(s, user) + (if id in Scores(s.db, user) then 0 else 1)
    ensures forall u :: u != user ==> Readmitted(t, u) == Readmitted(s, u)
  {
  }

  lemma SessionRotatedKeepsStore(s: System, t: System, p: Pid, pc: Pc, exp: int)
    requires StoreOk(s) && MayCommit(s, p, pc) && SessionRotated(s, t, p, pc, exp)
    ensures StoreOk(t)
  {
    assert HashOk(s, pc.id);
    forall x | x in t.db.hashes ensures HashOk(t, x) {
      if x != pc.id { assert HashOk(s, x); }
    }
    forall u, x | x in Scores(t.db, u) ensures OwnedBy(t, x, u) {
      if x != pc.id { assert OwnedBy(s, x, u); }
    }
    forall x | x in t.orphans ensures OrphanOk(t, x) { assert OrphanOk(s, x); }
    forall x ensures Agrees(t, x) {
      assert Agrees(s, x);
    }
    forall x | x in t.db.hashes && Complete(t.db.hashes[x].fields) && IsBorn(t, x)
      ensures t.db.hashes[x].fields.token.value == TokenAfter(t.rotations, x, t.ids[x].first)
    {
      AppendedTokenAfter(s.rotations, Rotation(p, pc.id, pc.current, pc.next), x, s.ids[x].first);
    }
  }

  lemma SessionRotatedKeepsHistory(s: System, t: System, p: Pid, pc: Pc, exp: int)
    requires StoreOk(s) && HistoryOk(s) && MayCommit(s, p, pc) && SessionRotated(s, t, p, pc, exp)
    ensures HistoryOk(t)
  {
    var n := |s.rotations|;
    assert HashOk(s, pc.id) && Agrees(s, pc.id);
    assert s.tokens[pc.current] == Stored(pc.id);
    assert t.rotations[..n] == s.rotations;
    forall k: nat | k < |t.rotations| ensures Consumes(t, k) {
      if k < n {
        assert t.rotations[..k] == s.rotations[..k];
        assert Consumes(s, k);
      }
    }
    forall j: nat, k: nat | j < k < |t.rotations| ensures t.rotations[j].current != t.rotations[k].current {
      assert Consumes(s, j);
    }
    if pc.id !in Scores(s.db, pc.user) {
      assert OrphanOk(s, pc.id);
    }
  }

  lemma SessionRotatedKeepsProcs(s: System, t: System, p: Pid, pc: Pc, exp: int)
    requires ProcsOk(s) && HashesOk(s) && MayCommit(s, p, pc) && SessionRotated(s, t, p, pc, exp)
    ensures ProcsOk(t)
  {
    assert HashOk(s, pc.id);
    assert Follows(s, t, p, Some(pc.id), pc.next);
    OtherProcsKept(s, t, p, Some(pc.id), pc.next);
  }

  // ---------- Preservation, one step at a time ----------

  /** A step that changes the program counter only. */
  lemma GotoKeeps(s: System, p: Pid, pc: Pc)
    requires Inv(s) && ProcOk(s, p, pc)
    ensures Inv(Goto(s, p, pc))
  {
    var t := Goto(s, p, pc);
    forall x ensures IdEvolves(s.db, t.db, x, None, "") {}
    assert Follows(s, t, p, None, "");
    OtherProcsKept(s, t, p, None, "");
    assert StoreOk(t) by {
      forall x | x in t.db.hashes ensures HashOk(t, x) { assert HashOk(s, x); }
      forall user, x | x in Scores(t.db, user) ensures OwnedBy(t, x, user) { assert OwnedBy(s, x, user); }
      forall x | x in t.orphans ensures OrphanOk(t, x) { assert OrphanOk(s, x); }
      forall x ensures Agrees(t, x) { assert Agrees(s, x); }
    }
    HistoryFrame(s, t);
  }

  lemma HistoryFrame(s: System, t: System)
    requires HistoryOk(s)
    requires t.rotations == s.rotations && s.lost <= t.lost
    requires forall user :: Readmitted(t, user) <= Readmitted(s, user)
    requires forall id :: IsBorn(s, id) ==> id in t.ids && t.ids[id] == s.ids[id]
    requires forall x :: x in s.tokens && s.tokens[x] == Consumed ==> x in t.tokens && t.tokens[x] == Consumed
    ensures HistoryOk(t)
  {
    forall k: nat | k < |t.rotations| ensures Consumes(t, k) { assert Consumes(s, k); }
    forall user | Readmitted(t, user) > 0 ensures user in t.lost { assert Readmitted(s, user) > 0; }
  }

  lemma BeginCreateKeeps(cfg: Config, s: System, p: Pid, id: SessionId, n: Session)
    requires Inv(s) && Enabled(s, BeginCreate(p, id, n))
    ensures Inv(Apply(cfg, s, BeginCreate(p, id, n)))
  {
    var t := Apply(cfg, s, BeginCreate(p, id, n));
    ExtendKeeps(s, t, p);
  }

  lemma DrawKeeps(cfg: Config, s: System, p: Pid, next: TokenHash)
    requires Inv(s) && Enabled(s, Draw(p, next))
    ensures Inv(Apply(cfg, s, Draw(p, next)))
  {
    var t := Apply(cfg, s, Draw(p, next));
    assert ProcOk(s, p, s.procs[p]);
    ExtendKeeps(s, t, p);
  }

  /** A step that draws: ids and tokens grow, nothing in the store moves. */
  lemma ExtendKeeps(s: System, t: System, p: Pid)
    requires Inv(s)
    requires t == s.(procs := t.procs, ids := t.ids, tokens := t.tokens)
    requires forall id :: id in s.ids ==> id in t.ids && t.ids[id] == s.ids[id]
    requires forall x :: x in s.tokens ==> x in t.tokens && t.tokens[x] == s.tokens[x]
    requires forall id :: IsBorn(t, id) ==> IsBorn(s, id)
    requires t.procs.Keys == s.procs.Keys + {p} && ProcOk(t, p, t.procs[p])
    requires forall q :: q in s.procs && q != p ==> t.procs[q] == s.procs[q]
    ensures Inv(t)
  {
    forall x ensures IdEvolves(s.db, t.db, x, None, "") {}
    OtherProcsKept(s, t, p, None, "");
    assert StoreOk(t) by {
      forall x | x in t.db.hashes ensures HashOk(t, x) { assert HashOk(s, x); }
      forall user, x | x in Scores(t.db, user) ensures OwnedBy(t, x, user) { assert OwnedBy(s, x, user); }
      forall x | x in t.orphans ensures OrphanOk(t, x) { assert OrphanOk(s, x); }
      forall x ensures Agrees(t, x) { assert Agrees(s, x); }
    }
    HistoryFrame(s, t);
  }

  /** A step that writes db and takes sessions away at most. */
  lemma WriteKeeps(s: System, p: Pid, db: Db, pc: Pc)
    requires Inv(s) && StoreOk(s.(db := db)) && Evolves(s.db, db, None, "")
    requires ProcOk(s.(db := db), p, pc)
    ensures Inv(Moved(s, p, pc, db))
  {
    var t := Moved(s, p, pc, db);
    var m := s.(db := db);
    assert ProcOk(t, p, pc);
    OtherProcsKept(s, t, p, None, "");
    assert StoreOk(t) by {
      forall x | x in t.db.hashes ensures HashOk(t, x) { assert HashOk(m, x); }
      forall user, x | x in Scores(t.db, user) ensures OwnedBy(t, x, user) { assert OwnedBy(m, x, user); }
      forall x | x in t.orphans ensures OrphanOk(t, x) { assert OrphanOk(m, x); }
      forall x ensures Agrees(t, x) { assert Agrees(m, x); }
      assert HeadsOk(m);
    }
    HistoryFrame(s, t);
  }

  lemma TickKeeps(s: System, d: nat)
    requires Inv(s)
    ensures Inv(Pass(s, d))
  {
    var t := Pass(s, d);
    PassKeeps(s, d);
    ElapseEvolves(s.db, d);
    // No process moves; a process that does not exist stands for the one that could have.
    var p: Pid :| p !in s.procs by { FreshPid(s.procs.Keys); }
    assert Follows(s, t, p, None, "");
    forall q | q in t.procs ensures ProcOk(t, q, t.procs[q]) {
      OtherProcKept(s, t, p, None, "", q, s.procs[q]);
    }
    HistoryFrame(s, t);
  }

  lemma {:induction false} FreshPid(pids: set<Pid>)
    ensures exists p: Pid :: p !in pids
  {
    var bound := PidBound(pids);
    assert bound !in pids;
  }

  lemma {:induction false} PidBound(pids: set<Pid>) returns (bound: Pid)
    ensures forall p :: p in pids ==> p < bound
    decreases |pids|
  {
    if pids == {} {
      bound := 0;
    } else {
      var x :| x in pids;
      var b := PidBound(pids - {x});
      bound := if x < b then b else x + 1;
      forall p | p in pids ensures p < bound {
        if p != x { assert p in pids - {x}; }
      }
    }
  }

  /** What a successful read of a session hash tells. */
  lemma ReadFacts(s: System, id: SessionId)
    requires HashesOk(s)
    ensures Get(s.db, id).Ok? ==>
              && IsBorn(s, id) && id in s.db.hashes
              && Get(s.db, id).value.user == s.ids[id].user
              && Presentable(s, id, Get(s.db, id).value.token)
              && Get(s.db, id).value.revokedAt == s.db.hashes[id].fields.revokedAt
    ensures forall token :: AliveWith(s.db, id, token) <==>
              Get(s.db, id).Ok? && Get(s.db, id).value.revokedAt.None? && Get(s.db, id).value.token == token
  {
    if id in s.db.hashes { assert HashOk(s, id); }
  }

  /** A step that writes without storing a session keeps the store in order. */
  lemma NextDbKeeps(s: System, p: Pid, pc: Pc)
    requires StoreOk(s) && ProcOk(s, p, pc)
    ensures StoreOk(s.(db := NextDb(s.db, pc))) && Evolves(s.db, NextDb(s.db, pc), None, "")
  {
    if pc.CreatePurge? {
      PurgeKeeps(s, pc.s.user, pc.expired);
      PurgeEvolves(s.db, pc.s.user, pc.expired);
    } else if pc.CreateEvict? {
      DelKeeps(s, pc.oldest);
      DelEvolves(s.db, pc.oldest);
    } else if pc.CreateUnindex? {
      UnindexKeeps(s, pc.s.user, pc.oldest);
      ZRemEvolves(s.db, pc.s.user, {pc.oldest});
      forall x ensures IdEvolves(s.db, NextDb(s.db, pc), x, None, "") {}
    } else if pc.RevokeExec? {
      RevokeKeeps(s, pc.user, {pc.id}, pc.at);
      RevokeEvolves(s.db, pc.user, {pc.id}, pc.at);
    } else if pc.RevokeAllExec? {
      RevokeKeeps(s, pc.user, pc.ids, pc.at);
      RevokeEvolves(s.db, pc.user, pc.ids, pc.at);
    } else {
      forall x ensures IdEvolves(s.db, s.db, x, None, "") {}
    }
  }

  lemma NextPcOk(cfg: Config, s: System, p: Pid, pc: Pc)
    requires StoreOk(s) && ProcOk(s, p, pc) && !pc.CreateCommit?
    requires pc.RotateExec? ==> Version(s.db, pc.id) != pc.seen
    ensures ProcOk(s.(db := NextDb(s.db, pc)), p, NextPc(cfg, s.db, pc))
  {
    if InCreate(pc) {
      CreatePcOk(cfg, s, p, pc);
    } else if InRefresh(pc) {
      RefreshPcOk(cfg, s, p, pc);
    } else {
      RevokePcOk(s, p, pc);
    }
  }

  lemma CreatePcOk(cfg: Config, s: System, p: Pid, pc: Pc)
    requires IndexOk(s) && ProcOk(s, p, pc) && InCreate(pc) && !pc.CreateCommit?
    ensures ProcOk(s.(db := NextDb(s.db, pc)), p, CreatePc(cfg, s.db, pc))
  {
    if pc.CreatePick? {
      var first := ZFirst(s.db, pc.s.user);
      if first.Some? { assert OwnedBy(s, first.value, pc.s.user); }
    } else if pc.CreateScan? {
      forall x | x in ZBelow(s.db, pc.s.user, pc.cutoff) ensures OwnedBy(s, x, pc.s.user) {
        assert x in Scores(s.db, pc.s.user);
      }
    }
  }

  lemma RefreshPcOk(cfg: Config, s: System, p: Pid, pc: Pc)
    requires HashesOk(s) && ProcOk(s, p, pc) && InRefresh(pc)
    ensures ProcOk(s, p, RefreshPc(cfg, s.db, pc))
  {
    if pc.RefreshGet? || pc.RotateRead? {
      ReadFacts(s, pc.id);
    }
  }

  lemma RevokePcOk(s: System, p: Pid, pc: Pc)
    requires HashesOk(s) && IndexOk(s) && ProcOk(s, p, pc) && !InCreate(pc) && !InRefresh(pc)
    ensures ProcOk(s.(db := NextDb(s.db, pc)), p, RevokePc(s.db, pc))
  {
    if pc.LogoutGet? || pc.RevokeGet? {
      ReadFacts(s, pc.id);
    } else if pc.RevokeAllRange? {
      forall x | x in Scores(s.db, pc.user) ensures OwnedBy(s, x, pc.user) {}
    }
  }

  lemma SessionStepKeeps(s: System, p: Pid, pc: Pc)
    requires Inv(s) && pc.CreateCommit? && ProcOk(s, p, pc)
    ensures Inv(CommitSession(s, p, pc))
  {
    var t := CommitSession(s, p, pc);
    CommitSessionAdds(s, p, pc);
    SessionAddedKeepsStore(s, t, p, pc.id, pc.s);
    SessionAddedKeepsProcs(s, t, p, pc.id, pc.s);
    HistoryFrame(s, t);
  }

  lemma RotationStepKeeps(cfg: Config, s: System, p: Pid, pc: Pc)
    requires Inv(s) && pc.RotateExec? && ProcOk(s, p, pc) && Version(s.db, pc.id) == pc.seen
    ensures Inv(CommitRotation(cfg, s, p, pc))
  {
    var t := CommitRotation(cfg, s, p, pc);
    var exp := pc.at + cfg.refreshTtl;
    CommitRotationRotates(cfg, s, p, pc);
    SessionRotatedKeepsStore(s, t, p, pc, exp);
    SessionRotatedKeepsProcs(s, t, p, pc, exp);
    SessionRotatedKeepsHistory(s, t, p, pc, exp);
  }

  lemma RunStepKeeps(cfg: Config, s: System, p: Pid)
    requires Inv(s) && Enabled(s, Run(p))
    ensures Inv(Apply(cfg, s, Run(p)))
  {
    var pc := s.procs[p];
    assert ProcOk(s, p, pc);
    if pc.CreateCommit? {
      SessionStepKeeps(s, p, pc);
    } else if pc.RotateExec? && Version(s.db, pc.id) == pc.seen {
      RotationStepKeeps(cfg, s, p, pc);
    } else {
      NextDbKeeps(s, p, pc);
      NextPcOk(cfg, s, p, pc);
      WriteKeeps(s, p, NextDb(s.db, pc), NextPc(cfg, s.db, pc));
    }
  }

  /** The invariant survives every step of every process, the clock, and interruptions. */
  lemma StepKeeps(cfg: Config, s: System, a: Action)
    requires Inv(s) && Enabled(s, a)
    ensures Inv(Apply(cfg, s, a))
  {
    match a
    case Tick(d) => TickKeeps(s, d);
    case BeginCreate(p, id, n) => BeginCreateKeeps(cfg, s, p, id, n);
    case BeginRefresh(p, id, current, at) => GotoKeeps(s, p, RefreshGet(id, current, at));
    case BeginLogout(p, id, current, at) => GotoKeeps(s, p, LogoutGet(id, current, at));
    case BeginLogoutAll(p, user, at) => GotoKeeps(s, p, RevokeAllRange(user, at));
    case Draw(p, next) => DrawKeeps(cfg, s, p, next);
    case Interrupt(p) => GotoKeeps(s, p, Done(Failed(Interrupted)));
    case Run(p) => RunStepKeeps(cfg, s, p);
  }

  lemma {:induction false} RunKeeps(cfg: Config, s: System, actions: seq<Action>, t: System)
    requires Inv(s) && Reaches(cfg, s, actions, t)
    ensures Inv(t)
    decreases |actions|
  {
    var m := ReachesSplit(cfg, s, actions, t);
    if actions != [] {
      StepKeeps(cfg, s, actions[0]);
      RunKeeps(cfg, m, actions[1..], t);
    }
  }

  /** Every reachable state of the protocol satisfies the invariant. */
  lemma ReachableInv(cfg: Config, s: System)
    requires Reachable(cfg, s)
    ensures Inv(s)
  {
    var actions :| Reaches(cfg, START, actions, s);
    RunKeeps(cfg, START, actions, s);
  }
}
