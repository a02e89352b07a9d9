/**
 * What Refresh, Logout and LogoutAll answer, read off the stored fields alone: step by step for any interleaving,
 * and as a whole for a call that nobody interrupts.
 */
module RefreshOutcomes {
  import opened Basics
  import opened Redis
  import opened RefreshSessions
  import opened RefreshProtocol
  import opened RefreshInvariant
  import opened RefreshTheorems
  import opened RefreshStaleReads
  import opened RefreshSolo
  import RedisRefreshStore
  import Service = RefreshRefinement

  // ---------- Refresh ----------

  /** The read of Refresh, for every state of the store. */
  lemma RefreshGetAnswers(cfg: Config, s: System, p: Pid)
    requires p in s.procs && s.procs[p].RefreshGet?
    ensures var RefreshGet(id, current, at), t := s.procs[p], Apply(cfg, s, Run(p));
            && t.db == s.db
            && t.procs[p] ==
               if id !in s.db.hashes then Done(Failed(NotFound))
               else
                 var f := s.db.hashes[id].fields;
                 if f.telegram.None? || f.expiresAt.None? || f.createdAt.None? || f.lastRotated.None? then
                   Done(Failed(Malformed))
                 else if f.revokedAt != None then Done(Failed(Error.Revoked))
                 else if at > f.expiresAt.value then Done(Failed(NotFound))
                 else if f.token == Some(current) || (f.token.None? && current == "") then RefreshDraw(id, current, at)
                 else Done(Failed(TokenMismatch))
  {
  }

  /** In a reachable store Refresh goes on to Rotate exactly if the session is alive with the token and unexpired. */
  lemma RefreshGoesOnIff(cfg: Config, s: System, p: Pid)
    requires Reachable(cfg, s) && p in s.procs && s.procs[p].RefreshGet?
    ensures var RefreshGet(id, current, at) := s.procs[p];
            Apply(cfg, s, Run(p)).procs[p].RefreshDraw? <==>
              AliveWith(s.db, id, current) && s.db.hashes[id].fields.expiresAt.value >= at
  {
    ReachableInv(cfg, s);
    RefreshGetAnswers(cfg, s, p);
    if s.procs[p].id in s.db.hashes {
      assert HashOk(s, s.procs[p].id);
    }
  }

  /** The read of Rotate, likewise; the TTL is what remains of the new lifetime at this instant. */
  lemma RotateReadAnswers(cfg: Config, s: System, p: Pid)
    requires p in s.procs && s.procs[p].RotateRead?
    ensures var RotateRead(id, current, next, at, seen), t := s.procs[p], Apply(cfg, s, Run(p));
            && t.db == s.db
            && t.procs[p] ==
               if id !in s.db.hashes then Done(Failed(NotFound))
               else
                 var f := s.db.hashes[id].fields;
                 if f.telegram.None? || f.expiresAt.None? || f.createdAt.None? || f.lastRotated.None? then
                   Done(Failed(Malformed))
                 else if f.revokedAt != None then Done(Failed(Error.Revoked))
                 else if f.token != Some(current) && (f.token.Some? || current != "") then Done(Failed(TokenMismatch))
                 else if cfg.refreshTtl < 0 then Done(Failed(ExpirationPast))
                 else
                   RotateExec(id, current, next, at, seen, if f.user.Some? then f.user.value else "",
                              at + cfg.refreshTtl - s.db.now)
  {
  }

  /** What a Create with a new id stores, field by field; the index key is kept a day longer than the session. */
  lemma CreateStores(db: Db, id: SessionId, s: Session, ttl: int)
    requires ttl > 0 && id !in db.hashes
    ensures var b := CommitCreate(db, id, s, ttl);
            && b.now == db.now
            && b.hashes == db.hashes[id := HashKey(Fields(Some(s.user), Some(s.telegram), Some(s.token),
                                                          Some(s.expiresAt), Some(s.createdAt), Some(s.lastRotated),
                                                          None), Some(db.now + ttl))]
            && b.index == db.index[s.user := SetKey(Scores(db, s.user)[id := s.expiresAt],
                                                    Some(db.now + ttl + 24 * 60 * 60))]
  {
    HashStored(db, id, CreatedFields(s), ttl);
  }

  /** What a Rotate stores, field by field; it leaves the deadline of the index key as it was. */
  lemma RotateStores(db: Db, id: SessionId, user: UserId, next: TokenHash, expiresAt: int, at: int, ttl: int)
    requires id in db.hashes
    ensures var b, f := CommitRotate(db, id, user, next, expiresAt, at, ttl), db.hashes[id].fields;
            && b.now == db.now
            && b.hashes == (if ttl <= 0 then db.hashes - {id}
                            else db.hashes[id := HashKey(f.(token := Some(next), expiresAt := Some(expiresAt),
                                                            lastRotated := Some(at)), Some(db.now + ttl))])
            && Scores(b, user) == Scores(db, user)[id := expiresAt]
            && (user in db.index ==> b.index == db.index[user := SetKey(Scores(b, user), db.index[user].deadline)])
  {
    HashStored(db, id, RotatedFields(next, expiresAt, at), ttl);
  }

  /** An EXEC that finds the key touched stores nothing and says so. */
  lemma RotateExecAnswers(cfg: Config, s: System, p: Pid)
    requires p in s.procs && s.procs[p].RotateExec? && Version(s.db, s.procs[p].id) != s.procs[p].seen
    ensures Apply(cfg, s, Run(p)) == s.(procs := s.procs[p := Done(Failed(ConcurrentUpdate))])
  {
  }

  /** A Refresh that is given no token, or a lifetime below zero, stops after its draw. */
  lemma StopsAfterDraw(cfg: Config, s: System, p: Pid, id: SessionId, current: TokenHash, next: TokenHash, at: int)
    returns (actions: seq<Action>, t: System)
    requires p in s.procs && s.procs[p] == RefreshGet(id, current, at) && next !in s.tokens
    requires Refreshable(s.db, id, current, at) && (next == "" || cfg.refreshTtl < 0)
    ensures Reaches(cfg, s, actions, t) && p in t.procs && t.db == s.db
    ensures t.procs[p] == Done(Failed(if next == "" then NextTokenRequired else ExpirationPast))
  {
    var m := s.(tokens := s.tokens[next := Held(p)]);
    SoloDraw(cfg, s, p, id, current, next, at, m);
    var watch := At(m, p, RotateWatch(id, current, next, at), s.db);
    var k := GivesUp(cfg, m, p, id, current, next, at, s.db);
    t := At(m, p, Done(Failed(if next == "" then NextTokenRequired else ExpirationPast)), s.db);
    ReachesThen(cfg, s, Runs(p, 1) + [Draw(p, next)], watch, Runs(p, k), t);
    actions := Runs(p, 1) + [Draw(p, next)] + Runs(p, k);
  }

  lemma GivesUp(cfg: Config, s: System, p: Pid, id: SessionId, current: TokenHash, next: TokenHash, at: int, db: Db)
    returns (k: nat)
    requires Refreshable(db, id, current, at) && (next == "" || cfg.refreshTtl < 0)
    ensures Alone(cfg, At(s, p, RotateWatch(id, current, next, at), db), p, k,
                  At(s, p, Done(Failed(if next == "" then NextTokenRequired else ExpirationPast)), db))
  {
    if next == "" {
      Walk(cfg, s, p, RotateWatch(id, current, next, at), db, Done(Failed(NextTokenRequired)), db);
      k := 1;
    } else {
      var read := RotateRead(id, current, next, at, Version(db, id));
      Walk(cfg, s, p, RotateWatch(id, current, next, at), db, read, db);
      Walk(cfg, s, p, read, db, Done(Failed(ExpirationPast)), db);
      AloneThen(cfg, At(s, p, RotateWatch(id, current, next, at), db), p, 1, At(s, p, read, db), 1,
                At(s, p, Done(Failed(ExpirationPast)), db));
      k := 2;
    }
  }

  /** A call of the service, as one operation. */
  ghost predicate Answers(cfg: Config, db: Db, op: Service.Op, t: System, p: Pid) {
    && p in t.procs && t.procs[p].Done? && t.db == Service.RedisState(cfg, db, op)
    && Service.RedisOut(cfg, db, op) == if t.procs[p].outcome.Failed? then Service.Refused(t.procs[p].outcome.error)
       else Service.Fine
  }

  lemma RefusedAtOnce(cfg: Config, s: System, p: Pid, id: SessionId, current: TokenHash, next: TokenHash)
    requires p in s.procs && s.procs[p] == RefreshGet(id, current, s.db.now)
    requires !Apply(cfg, s, Run(p)).procs[p].RefreshDraw?
    ensures Answers(cfg, s.db, Service.Refresh(id, current, next), Apply(cfg, s, Run(p)), p)
    ensures Apply(cfg, s, Run(p)).procs[p].outcome.Failed?
  {
  }

  lemma RefusedAfterDraw(cfg: Config, s: System, p: Pid, id: SessionId, current: TokenHash, next: TokenHash, t: System)
    requires Refreshable(s.db, id, current, s.db.now) && (next == "" || cfg.refreshTtl < 0)
    requires p in t.procs && t.db == s.db
    requires t.procs[p] == Done(Failed(if next == "" then NextTokenRequired else ExpirationPast))
    ensures Answers(cfg, s.db, Service.Refresh(id, current, next), t, p)
  {
  }

  lemma Accepted(cfg: Config, s: System, p: Pid, id: SessionId, current: TokenHash, next: TokenHash, nth: nat,
                 t: System)
    requires Refreshable(s.db, id, current, s.db.now) && next != ""
    requires p in t.procs && t.procs[p] == Done(RefreshProtocol.Refreshed(nth, current))
    requires AtomicRotate(s.db, id, current, next, s.db.now + cfg.refreshTtl, s.db.now, cfg.refreshTtl) == Ok(t.db)
    ensures Answers(cfg, s.db, Service.Refresh(id, current, next), t, p)
  {
  }

  /** A Refresh that nobody interrupts, from a state that it can succeed in. */
  lemma SoloRefreshSucceeds(cfg: Config, s: System, p: Pid, id: SessionId, current: TokenHash, next: TokenHash)
    returns (actions: seq<Action>, t: System)
    requires p in s.procs && s.procs[p] == RefreshGet(id, current, s.db.now) && next !in s.tokens
    requires Refreshable(s.db, id, current, s.db.now) && next != "" && cfg.refreshTtl >= 0
    ensures Reaches(cfg, s, actions, t) && Answers(cfg, s.db, Service.Refresh(id, current, next), t, p)
    ensures t.procs[p] == Done(RefreshProtocol.Refreshed(|s.rotations|, current))
  {
    t := SoloRefresh(cfg, s, p, id, current, next, s.db.now);
    Accepted(cfg, s, p, id, current, next, |s.rotations|, t);
    actions := Runs(p, 1) + [Draw(p, next)] + Runs(p, 3);
  }

  lemma SoloRefreshFails(cfg: Config, s: System, p: Pid, id: SessionId, current: TokenHash, next: TokenHash)
    returns (actions: seq<Action>, t: System)
    requires Reachable(cfg, s) && p in s.procs && s.procs[p] == RefreshGet(id, current, s.db.now) && next !in s.tokens
    requires !Refreshable(s.db, id, current, s.db.now) || next == "" || cfg.refreshTtl < 0
    ensures Reaches(cfg, s, actions, t) && Answers(cfg, s.db, Service.Refresh(id, current, next), t, p)
    ensures t.procs[p].outcome.Failed?
  {
    RefreshGoesOnIff(cfg, s, p);
    if Refreshable(s.db, id, current, s.db.now) {
      actions, t := StopsAfterDraw(cfg, s, p, id, current, next, s.db.now);
      RefusedAfterDraw(cfg, s, p, id, current, next, t);
    } else {
      actions, t := [Run(p)], Apply(cfg, s, Run(p));
      OneAction(cfg, s, Run(p), t);
      RefusedAtOnce(cfg, s, p, id, current, next);
    }
  }

  /**
   * A Refresh that nobody interrupts does what the operation of the service does, whatever that comes to, and it
   * succeeds exactly if the session is alive with the token and not expired, however often it was rotated before.
   */
  lemma SoloRefreshAnswers(cfg: Config, s: System, p: Pid, id: SessionId, current: TokenHash, next: TokenHash)
    returns (actions: seq<Action>, t: System)
    requires Reachable(cfg, s) && p in s.procs && s.procs[p] == RefreshGet(id, current, s.db.now) && next !in s.tokens
    ensures Reaches(cfg, s, actions, t) && Answers(cfg, s.db, Service.Refresh(id, current, next), t, p)
    ensures t.procs[p].outcome == RefreshProtocol.Refreshed(|s.rotations|, current) <==>
              Refreshable(s.db, id, current, s.db.now) && next != "" && cfg.refreshTtl >= 0
  {
    if Refreshable(s.db, id, current, s.db.now) && next != "" && cfg.refreshTtl >= 0 {
      actions, t := SoloRefreshSucceeds(cfg, s, p, id, current, next);
    } else {
      actions, t := SoloRefreshFails(cfg, s, p, id, current, next);
    }
  }

  /** New tokens for a session, each to be handed out once. */
  ghost predicate Drawable(s: System, tokens: seq<TokenHash>) {
    (forall i :: 0 <= i < |tokens| ==> tokens[i] != "" && tokens[i] !in s.tokens) &&
    forall i, j :: 0 <= i < j < |tokens| ==> tokens[i] != tokens[j]
  }

  /** A session that can be refreshed can be refreshed any number of times in a row, each time with the new token. */
  lemma {:induction false} RefreshesGoOn(cfg: Config, s: System, first: Pid, id: SessionId, current: TokenHash,
                                         tokens: seq<TokenHash>, at: int) returns (actions: seq<Action>, t: System)
    requires Reachable(cfg, s) && Refreshable(s.db, id, current, at) && cfg.refreshTtl > 0
    requires at + cfg.refreshTtl > s.db.now && Drawable(s, tokens) && forall q: Pid :: q >= first ==> q !in s.procs
    ensures Reaches(cfg, s, actions, t) && |t.rotations| == |s.rotations| + |tokens|
    ensures Refreshable(t.db, id, if tokens == [] then current else tokens[|tokens| - 1], at)
    decreases |tokens|
  {
    if tokens == [] {
      NoAction(cfg, s);
      actions, t := [], s;
    } else {
      var m, rest;
      actions, m := RefreshInOneGo(cfg, s, first, id, current, tokens[0], at);
      ReachesReachable(cfg, s, actions, m);
      TokenIsKnown(cfg, s, id, current);
      rest, t := RefreshesGoOn(cfg, m, first + 1, id, tokens[0], tokens[1..], at);
      ReachesThen(cfg, s, actions, m, rest, t);
      actions := actions + rest;
    }
  }

  lemma TokenIsKnown(cfg: Config, s: System, id: SessionId, current: TokenHash)
    requires Reachable(cfg, s) && AliveWith(s.db, id, current)
    ensures current in s.tokens
  {
    ReachableInv(cfg, s);
    assert HashOk(s, id);
  }

  // ---------- Logout ----------

  /** The two reads of a Logout, for every state of the store; neither writes. */
  lemma LogoutGetAnswers(cfg: Config, s: System, p: Pid)
    requires p in s.procs && s.procs[p].LogoutGet?
    ensures var LogoutGet(id, current, at), t := s.procs[p], Apply(cfg, s, Run(p));
            && t.db == s.db
            && t.procs[p] ==
               if id !in s.db.hashes then Done(Failed(NotFound))
               else
                 var f := s.db.hashes[id].fields;
                 if f.telegram.None? || f.expiresAt.None? || f.createdAt.None? || f.lastRotated.None? then
                   Done(Failed(Malformed))
                 else if f.token == Some(current) || (f.token.None? && current == "") then RevokeGet(id, at)
                 else Done(Failed(TokenMismatch))
  {
  }

  lemma RevokeGetAnswers(cfg: Config, s: System, p: Pid)
    requires p in s.procs && s.procs[p].RevokeGet?
    ensures var RevokeGet(id, at), t := s.procs[p], Apply(cfg, s, Run(p));
            && t.db == s.db
            && t.procs[p] ==
               if id !in s.db.hashes then Done(Failed(NotFound))
               else
                 var f := s.db.hashes[id].fields;
                 if f.telegram.None? || f.expiresAt.None? || f.createdAt.None? || f.lastRotated.None? then
                   Done(Failed(Malformed))
                 else RevokeExec(id, if f.user.Some? then f.user.value else "", at)
  {
  }

  /** The call is a Logout of the id that has not answered yet, or has answered with an error. */
  predicate LoggingOut(s: System, p: Pid, id: SessionId) {
    p in s.procs &&
    match s.procs[p]
    case LogoutGet(x, _, _) => x == id
    case RevokeGet(x, _) => x == id
    case RevokeExec(x, _, _) => x == id
    case Done(outcome) => outcome.Failed?
    case _ => false
  }

  lemma LogoutStep(cfg: Config, s: System, a: Action, p: Pid, id: SessionId)
    requires Enabled(s, a) && LoggingOut(s, p, id)
    ensures LoggingOut(Apply(cfg, s, a), p, id) || (a == Run(p) && s.procs[p].RevokeExec? && s.procs[p].id == id)
  {
    if a.Run? {
      if a.p != p {
        RunMovesOnlyItself(cfg, s, a.p, p);
      }
    }
  }

  /** The action is the EXEC with which p revokes the session. */
  predicate Carries(s: System, a: Action, p: Pid, id: SessionId) {
    a == Run(p) && p in s.procs && s.procs[p].RevokeExec? && s.procs[p].id == id
  }

  ghost predicate CarriedOut(cfg: Config, s: System, actions: seq<Action>, p: Pid, id: SessionId) {
    exists k, m :: 0 <= k < |actions| && Reaches(cfg, s, actions[..k], m) && Carries(m, actions[k], p, id)
  }

  lemma CarriedOutLater(cfg: Config, s: System, m: System, actions: seq<Action>, p: Pid, id: SessionId)
    requires actions != [] && StepTo(cfg, s, actions[0], m) && CarriedOut(cfg, m, actions[1..], p, id)
    ensures CarriedOut(cfg, s, actions, p, id)
  {
    var rest := actions[1..];
    var k, n :| 0 <= k < |rest| && Reaches(cfg, m, rest[..k], n) && Carries(n, rest[k], p, id);
    OneAction(cfg, s, actions[0], m);
    ReachesThen(cfg, s, [actions[0]], m, rest[..k], n);
    assert [actions[0]] + rest[..k] == actions[..k + 1];
    assert Carries(n, actions[k + 1], p, id);
  }

  /** On every run, a Logout that reports success has carried out its revocation, and the session is dead for good. */
  lemma {:induction false} LoggedOutMeansRevoked(cfg: Config, s: System, actions: seq<Action>, t: System, p: Pid,
                                                 id: SessionId)
    requires Inv(s) && LoggingOut(s, p, id) && Reaches(cfg, s, actions, t)
    requires p in t.procs && t.procs[p] == Done(LoggedOut)
    ensures IsBorn(t, id) && !Alive(t.db, id) && CarriedOut(cfg, s, actions, p, id)
    decreases |actions|
  {
    var m := ReachesSplit(cfg, s, actions, t);
    if actions != [] {
      LogoutStep(cfg, s, actions[0], p, id);
      StepKeeps(cfg, s, actions[0]);
      if LoggingOut(m, p, id) {
        LoggedOutMeansRevoked(cfg, m, actions[1..], t, p, id);
        CarriedOutLater(cfg, s, m, actions, p, id);
      } else {
        NoAction(cfg, s);
        assert actions[..0] == [] && Carries(s, actions[0], p, id);
        RevokedNow(cfg, s, p, id);
        DeadForever(cfg, m, actions[1..], t, id);
      }
    }
  }

  /** A Logout that nobody interrupts is the check and revocation in one step, its errors included. */
  lemma SoloLogout(cfg: Config, s: System, p: Pid, id: SessionId, current: TokenHash, at: int)
    returns (k: nat, t: System)
    requires p in s.procs && s.procs[p] == LogoutGet(id, current, at)
    ensures Alone(cfg, s, p, k, t) && p in t.procs
    ensures var atomic := AtomicLogout(s.db, id, current, at);
            if atomic.Ok? then t.procs[p] == Done(LoggedOut) && t.db == atomic.value
            else t.procs[p] == Done(Failed(atomic.error)) && t.db == s.db
  {
    var db, read := s.db, Get(s.db, id);
    assert s == At(s, p, LogoutGet(id, current, at), db);
    if AtomicLogout(db, id, current, at).Err? {
      t := At(s, p, Done(Failed(AtomicLogout(db, id, current, at).error)), db);
      Walk(cfg, s, p, LogoutGet(id, current, at), db, t.procs[p], db);
      k := 1;
    } else {
      Walk(cfg, s, p, LogoutGet(id, current, at), db, RevokeGet(id, at), db);
      k, t := SoloRevoke(cfg, s, p, id, at, db);
      AloneThen(cfg, s, p, 1, At(s, p, RevokeGet(id, at), db), k, t);
      k := k + 1;
    }
  }

  lemma SoloRevoke(cfg: Config, s: System, p: Pid, id: SessionId, at: int, db: Db) returns (k: nat, t: System)
    requires Get(db, id).Ok?
    ensures Alone(cfg, At(s, p, RevokeGet(id, at), db), p, k, t) && p in t.procs
    ensures t.procs[p] == Done(LoggedOut) && t.db == Revoke(db, Get(db, id).value.user, {id}, at)
  {
    var exec, after := RevokeExec(id, Get(db, id).value.user, at), Revoke(db, Get(db, id).value.user, {id}, at);
    Walk(cfg, s, p, RevokeGet(id, at), db, exec, db);
    Walk(cfg, s, p, exec, db, Done(LoggedOut), after);
    t := At(s, p, Done(LoggedOut), after);
    AloneThen(cfg, At(s, p, RevokeGet(id, at), db), p, 1, At(s, p, exec, db), 1, t);
    k := 2;
  }

  // ---------- Logout everywhere ----------

  /** A LogoutAll that nobody interrupts marks and unlists what is listed, and never fails. */
  lemma SoloLogoutAll(cfg: Config, s: System, p: Pid, user: UserId, at: int) returns (k: nat, t: System)
    requires p in s.procs && s.procs[p] == RevokeAllRange(user, at)
    ensures Alone(cfg, s, p, k, t) && p in t.procs && t.procs[p] == Done(LoggedOut)
    ensures t.db == if Scores(s.db, user) == map[] then s.db else Revoke(s.db, user, Scores(s.db, user).Keys, at)
  {
    var db := s.db;
    assert s == At(s, p, RevokeAllRange(user, at), db);
    if Scores(db, user) == map[] {
      t := At(s, p, Done(LoggedOut), db);
      Walk(cfg, s, p, RevokeAllRange(user, at), db, Done(LoggedOut), db);
      k := 1;
    } else {
      assert Scores(db, user).Keys != {};
      k, t := SoloRevokeAll(cfg, s, p, user, at, db, Scores(db, user).Keys);
    }
  }

  lemma SoloRevokeAll(cfg: Config, s: System, p: Pid, user: UserId, at: int, db: Db, ids: set<SessionId>)
    returns (k: nat, t: System)
    requires ids == Scores(db, user).Keys && ids != {}
    ensures Alone(cfg, At(s, p, RevokeAllRange(user, at), db), p, k, t)
    ensures p in t.procs && t.procs[p] == Done(LoggedOut) && t.db == Revoke(db, user, ids, at)
  {
    Walk(cfg, s, p, RevokeAllRange(user, at), db, RevokeAllExec(user, ids, at), db);
    t := At(s, p, Done(LoggedOut), Revoke(db, user, ids, at));
    RevokesAll(cfg, s, p, user, at, db, ids, t.db);
    AloneThen(cfg, At(s, p, RevokeAllRange(user, at), db), p, 1, At(s, p, RevokeAllExec(user, ids, at), db), 1, t);
    k := 2;
  }

  lemma RevokesAll(cfg: Config, s: System, p: Pid, user: UserId, at: int, db: Db, ids: set<SessionId>, after: Db)
    requires after == Revoke(db, user, ids, at)
    ensures Alone(cfg, At(s, p, RevokeAllExec(user, ids, at), db), p, 1, At(s, p, Done(LoggedOut), after))
  {
    Walk(cfg, s, p, RevokeAllExec(user, ids, at), db, Done(LoggedOut), after);
  }

  /** What a revocation stores: the time in every hash, created without a TTL where there was none. */
  lemma RevocationStores(db: Db, user: UserId, ids: set<SessionId>, at: int)
    ensures var b := Revoke(db, user, ids, at);
            && b.now == db.now && b.hashes.Keys == db.hashes.Keys + ids
            && (forall id :: id in db.hashes && id !in ids ==> b.hashes[id] == db.hashes[id])
            && (forall id :: id in db.hashes && id in ids ==>
                  b.hashes[id] == HashKey(db.hashes[id].fields.(revokedAt := Some(at)), db.hashes[id].deadline))
            && (forall id :: id in ids && id !in db.hashes ==>
                  b.hashes[id] == HashKey(Fields(None, None, None, None, None, None, Some(at)), None))
            && Scores(b, user) == Scores(db, user) - ids
            && (forall u :: u != user ==> Scores(b, u) == Scores(db, u))
  {
    UnlistedScores(db, user, ids);
  }

  // ---------- The operations of the service are calls that nobody interrupts ----------

  lemma SoloLogoutAnswers(cfg: Config, s: System, p: Pid, id: SessionId, current: TokenHash)
    returns (k: nat, t: System)
    requires p in s.procs && s.procs[p] == LogoutGet(id, current, s.db.now)
    ensures Alone(cfg, s, p, k, t) && Answers(cfg, s.db, Service.Logout(id, current), t, p)
  {
    k, t := SoloLogout(cfg, s, p, id, current, s.db.now);
  }

  lemma SoloLogoutAllAnswers(cfg: Config, s: System, p: Pid, user: UserId) returns (k: nat, t: System)
    requires p in s.procs && s.procs[p] == RevokeAllRange(user, s.db.now)
    ensures Alone(cfg, s, p, k, t) && Answers(cfg, s.db, Service.LogoutAll(user), t, p)
  {
    k, t := SoloLogoutAll(cfg, s, p, user, s.db.now);
  }

  lemma SoloLoginAnswers(cfg: Config, s: System, p: Pid, op: Service.Op) returns (k: nat, t: System)
    requires op.Login? && p in s.procs && s.procs[p] == CreateStart(op.id, Service.NewSession(cfg, s.db.now, op))
    ensures Alone(cfg, s, p, k, t) && Answers(cfg, s.db, op, t, p)
  {
    var n := Service.NewSession(cfg, s.db.now, op);
    k := SoloCreate(cfg, s, p, op.id, n);
    var r := RedisRefreshStore.Created(cfg.maxSessionsPerUser, s.db, op.id, n);
    if r.Ok? {
      t := RefreshSolo.Stored(s, p, op.id, n, r.value);
    } else {
      t := At(s, p, Done(Failed(r.error)), s.db);
    }
  }
}
