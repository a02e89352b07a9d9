/**
 * Logout, eviction and cleanup write on the strength of an earlier read that nothing watches. When the write still
 * does what it would do right after the read, and runs on which it does not.
 */
module RefreshStaleReads {
  import opened Basics
  import opened Redis
  import opened RefreshSessions
  import opened RefreshProtocol
  import opened RefreshInvariant
  import opened RefreshTheorems
  import RefreshSolo

  // ---------- Between the read and the write ----------

  lemma {:induction false} RotationsGrow(cfg: Config, s: System, actions: seq<Action>, t: System)
    requires Reaches(cfg, s, actions, t)
    ensures s.rotations <= t.rotations && s.db.now <= t.db.now
    decreases |actions|
  {
    var m := ReachesSplit(cfg, s, actions, t);
    if actions != [] {
      StepGrows(cfg, s, actions[0]);
      RotationsGrow(cfg, m, actions[1..], t);
    }
  }

  lemma StepGrows(cfg: Config, s: System, a: Action)
    requires Enabled(s, a)
    ensures s.rotations <= Apply(cfg, s, a).rotations && s.db.now <= Apply(cfg, s, a).db.now
  {
    if a.Run? {
      var pc := s.procs[a.p];
      if pc.CreateCommit? {
        HashStored(s.db, pc.id, CreatedFields(pc.s), pc.ttl);
      } else if pc.RotateExec? {
        HashStored(s.db, pc.id, RotatedFields(pc.next, pc.at + cfg.refreshTtl, pc.at), pc.ttl);
      }
    }
  }

  /** A session that is alive and has not been rotated is exactly what it was. */
  lemma {:induction false} SameUnlessRotated(cfg: Config, s: System, actions: seq<Action>, t: System, id: SessionId)
    requires Inv(s) && IsBorn(s, id) && Reaches(cfg, s, actions, t)
    requires Alive(t.db, id) && NotRotatedSince(t, |s.rotations|, id)
    ensures Alive(s.db, id) && HGetAll(t.db, id) == HGetAll(s.db, id)
    decreases |actions|
  {
    var m := ReachesSplit(cfg, s, actions, t);
    if actions != [] {
      StepKeeps(cfg, s, actions[0]);
      WasAlive(cfg, s, actions, t, id);
      StepGrows(cfg, s, actions[0]);
      RotationsGrow(cfg, m, actions[1..], t);
      StillBorn(cfg, s, actions[0], id);
      SameUnlessRotated(cfg, m, actions[1..], t, id);
      SameThroughStep(cfg, s, actions[0], id);
    }
  }

  lemma StillBorn(cfg: Config, s: System, a: Action, id: SessionId)
    requires Inv(s) && Enabled(s, a) && IsBorn(s, id)
    ensures IsBorn(Apply(cfg, s, a), id) && Apply(cfg, s, a).ids[id] == s.ids[id]
  {
    if a.Run? {
      assert ProcOk(s, a.p, s.procs[a.p]);
    }
  }

  lemma SameThroughStep(cfg: Config, s: System, a: Action, id: SessionId)
    requires Inv(s) && Enabled(s, a) && IsBorn(s, id) && Alive(Apply(cfg, s, a).db, id)
    requires NotRotatedSince(Apply(cfg, s, a), |s.rotations|, id)
    ensures HGetAll(Apply(cfg, s, a).db, id) == HGetAll(s.db, id)
  {
    if a.Tick? {
      ElapseEvolves(s.db, a.seconds);
      assert IdEvolves(s.db, Elapse(s.db, a.seconds), id, None, "");
    } else if a.Run? {
      SameThroughRun(cfg, s, a.p, s.procs[a.p], id);
    }
  }

  lemma SameThroughRun(cfg: Config, s: System, p: Pid, pc: Pc, id: SessionId)
    requires Inv(s) && Enabled(s, Run(p)) && s.procs[p] == pc && IsBorn(s, id)
    requires Alive(Apply(cfg, s, Run(p)).db, id) && NotRotatedSince(Apply(cfg, s, Run(p)), |s.rotations|, id)
    ensures HGetAll(Apply(cfg, s, Run(p)).db, id) == HGetAll(s.db, id)
  {
    assert ProcOk(s, p, pc);
    if pc.CreateCommit? {
      SameThroughStore(s.db, pc.id, CreatedFields(pc.s), pc.ttl, id);
    } else if pc.RotateExec? && Version(s.db, pc.id) == pc.seen {
      SameThroughRotation(cfg, s, p, pc, id);
    } else {
      SameThroughWrite(s, p, pc, id);
    }
  }

  lemma SameThroughRotation(cfg: Config, s: System, p: Pid, pc: Pc, id: SessionId)
    requires pc.RotateExec? && NotRotatedSince(CommitRotation(cfg, s, p, pc), |s.rotations|, id)
    ensures HGetAll(CommitRotation(cfg, s, p, pc).db, id) == HGetAll(s.db, id)
  {
    assert CommitRotation(cfg, s, p, pc).rotations[|s.rotations|].id == pc.id;
    SameThroughStore(s.db, pc.id, RotatedFields(pc.next, pc.at + cfg.refreshTtl, pc.at), pc.ttl, id);
  }

  lemma SameThroughStore(db: Db, stored: SessionId, w: Fields, ttl: int, id: SessionId)
    requires id != stored
    ensures HGetAll(Expire(HSet(db, stored, w), stored, ttl), id) == HGetAll(db, id)
  {
    HashStored(db, stored, w, ttl);
  }

  lemma SameThroughWrite(s: System, p: Pid, pc: Pc, id: SessionId)
    requires StoreOk(s) && ProcOk(s, p, pc) && Alive(NextDb(s.db, pc), id)
    ensures HGetAll(NextDb(s.db, pc), id) == HGetAll(s.db, id)
  {
    NextDbKeeps(s, p, pc);
    assert IdEvolves(s.db, NextDb(s.db, pc), id, None, "");
  }

  // ---------- Logout ----------

  /** Logout as one indivisible check and revocation. */
  function AtomicLogout(db: Db, id: SessionId, current: TokenHash, at: int): Result<Db, Error> {
    var read := Get(db, id);
    if read.Err? then Err(read.error)
    else if read.value.token != current then Err(TokenMismatch)
    else Ok(Revoke(db, read.value.user, {id}, at))
  }

  /** The call is past its check of the token. */
  predicate Checked(s: System, p: Pid, id: SessionId, at: int) {
    p in s.procs &&
    match s.procs[p]
    case RevokeGet(x, t) => x == id && t == at
    case RevokeExec(x, _, t) => x == id && t == at
    case Done(_) => true
    case _ => false
  }

  lemma {:induction false} StaysChecked(cfg: Config, s: System, actions: seq<Action>, t: System, p: Pid, id: SessionId,
                                        at: int)
    requires Reaches(cfg, s, actions, t) && Checked(s, p, id, at)
    ensures Checked(t, p, id, at)
    decreases |actions|
  {
    var m := ReachesSplit(cfg, s, actions, t);
    if actions != [] {
      CheckedOnce(cfg, s, actions[0], p, id, at);
      StaysChecked(cfg, m, actions[1..], t, p, id, at);
    }
  }

  lemma CheckedOnce(cfg: Config, s: System, a: Action, p: Pid, id: SessionId, at: int)
    requires Enabled(s, a) && Checked(s, p, id, at)
    ensures Checked(Apply(cfg, s, a), p, id, at)
  {
    if a.Run? && a.p != p {
      RunMovesOnlyItself(cfg, s, a.p, p);
    }
  }

  /** Two reads of one session give one token exactly if no Rotate of it completed in between. */
  lemma TokenStaysIff(cfg: Config, s: System, actions: seq<Action>, t: System, id: SessionId)
    requires Inv(s) && Inv(t) && Reaches(cfg, s, actions, t) && Get(s.db, id).Ok? && Get(t.db, id).Ok?
    ensures Get(t.db, id).value.token == Get(s.db, id).value.token <==> NotRotatedSince(t, |s.rotations|, id)
  {
    assert HashOk(s, id) && HashOk(t, id);
    RotationsGrow(cfg, s, actions, t);
    ReadsHead(s, id);
    ReadsHead(t, id);
    SameFirst(cfg, s, actions, t, id);
    var n, first := |s.rotations|, t.ids[id].first;
    assert t.rotations[..n] == s.rotations;
    if NotRotatedSince(t, n, id) {
      SameAfter(t.rotations, n, id, first);
    } else {
      RotatedAway(t, n, id);
    }
  }

  lemma ReadsHead(s: System, id: SessionId)
    requires Inv(s) && Get(s.db, id).Ok?
    ensures IsBorn(s, id) && Get(s.db, id).value.token == TokenAfter(s.rotations, id, s.ids[id].first)
    ensures var token := Get(s.db, id).value.token; token in s.tokens && s.tokens[token] == RefreshProtocol.Stored(id)
  {
    assert HashOk(s, id);
  }

  lemma {:induction false} SameAfter(rotations: seq<Rotation>, n: nat, id: SessionId, first: TokenHash)
    requires n <= |rotations| && forall k :: n <= k < |rotations| ==> rotations[k].id != id
    ensures TokenAfter(rotations, id, first) == TokenAfter(rotations[..n], id, first)
  {
    if n < |rotations| {
      SameAfter(rotations[..|rotations| - 1], n, id, first);
      assert rotations[..|rotations| - 1][..n] == rotations[..n];
    } else {
      assert rotations[..n] == rotations;
    }
  }

  /** The first rotation since consumed the token of then, so the session no longer holds it. */
  lemma RotatedAway(t: System, n: nat, id: SessionId)
    requires Inv(t) && n <= |t.rotations| && !NotRotatedSince(t, n, id) && IsBorn(t, id) && Get(t.db, id).Ok?
    ensures Get(t.db, id).value.token != TokenAfter(t.rotations[..n], id, t.ids[id].first)
  {
    var k := FirstSince(t, n, id);
    assert Consumes(t, k);
    SameAfter(t.rotations[..k], n, id, t.ids[id].first);
    assert t.rotations[..k][..n] == t.rotations[..n];
    ReadsHead(t, id);
  }

  lemma {:induction false} FirstSince(t: System, n: nat, id: SessionId) returns (k: nat)
    requires n <= |t.rotations| && !NotRotatedSince(t, n, id)
    ensures n <= k < |t.rotations| && t.rotations[k].id == id && forall i :: n <= i < k ==> t.rotations[i].id != id
    decreases |t.rotations| - n
  {
    if t.rotations[n].id == id {
      k := n;
    } else {
      k := FirstSince(t, n + 1, id);
    }
  }

  lemma {:induction false} SameFirst(cfg: Config, s: System, actions: seq<Action>, t: System, id: SessionId)
    requires Inv(s) && Reaches(cfg, s, actions, t) && IsBorn(s, id)
    ensures IsBorn(t, id) && t.ids[id] == s.ids[id]
    decreases |actions|
  {
    var m := ReachesSplit(cfg, s, actions, t);
    if actions != [] {
      StepKeeps(cfg, s, actions[0]);
      StillBorn(cfg, s, actions[0], id);
      SameFirst(cfg, m, actions[1..], t, id);
    }
  }

  /** A Logout that has come to its EXEC has found its token on the session, and nothing else could bring it there. */
  lemma LogoutChecked(cfg: Config, s: System, p: Pid, between: seq<Action>, m: System)
    requires p in s.procs && s.procs[p].LogoutGet? && p in m.procs && m.procs[p].RevokeExec?
    requires Reaches(cfg, Apply(cfg, s, Run(p)), between, m)
    ensures var pc, n := s.procs[p], Apply(cfg, s, Run(p));
            && n.db == s.db && n.rotations == s.rotations && Get(s.db, pc.id).Ok?
            && Get(s.db, pc.id).value.token == pc.current && m.procs[p].id == pc.id && m.procs[p].at == pc.at
  {
    var pc, n := s.procs[p], Apply(cfg, s, Run(p));
    assert Checked(n, p, pc.id, pc.at);
    StaysChecked(cfg, n, between, m, p, pc.id, pc.at);
    if n.procs[p].Done? {
      RevokeAllWaits(cfg, n, between, m, p);
    }
  }

  lemma RevokeExecutes(cfg: Config, m: System, p: Pid, id: SessionId, current: TokenHash, at: int)
    requires Inv(m) && p in m.procs && m.procs[p].RevokeExec? && m.procs[p].id == id && m.procs[p].at == at
    ensures var t, atomic := Apply(cfg, m, Run(p)), AtomicLogout(m.db, id, current, at);
            && t.procs[p] == Done(LoggedOut) && !Alive(t.db, id)
            && (atomic.Ok? <==> Get(m.db, id).Ok? && Get(m.db, id).value.token == current)
            && (atomic.Ok? ==> t.db == atomic.value)
  {
    assert ProcOk(m, p, m.procs[p]);
    var pc := m.procs[p];
    RevokeEvolves(m.db, pc.user, {id}, at);
    Executed(cfg, m, p, pc);
    ReadFacts(m, id);
  }

  lemma Executed(cfg: Config, m: System, p: Pid, pc: Pc)
    requires p in m.procs && m.procs[p] == pc && pc.RevokeExec?
    ensures Apply(cfg, m, Run(p)).procs[p] == Done(LoggedOut)
    ensures Apply(cfg, m, Run(p)).db == Revoke(m.db, pc.user, {pc.id}, pc.at)
  {
  }

  /**
   * The EXEC of a Logout does what checking the token and revoking in one step would do, exactly if the session
   * can still be read and no Rotate of it has completed since the token was checked; that is, exactly if it still
   * holds the token presented.  In any case the call reports success, and the session is dead afterwards.
   */
  lemma LogoutIsAtomicIff(cfg: Config, s: System, p: Pid, between: seq<Action>, m: System)
    requires Reachable(cfg, s) && p in s.procs && s.procs[p].LogoutGet?
    requires Reaches(cfg, Apply(cfg, s, Run(p)), between, m) && p in m.procs && m.procs[p].RevokeExec?
    ensures var pc, t := s.procs[p], Apply(cfg, m, Run(p));
            var atomic := AtomicLogout(m.db, pc.id, pc.current, pc.at);
            && t.procs[p] == Done(LoggedOut) && !Alive(t.db, pc.id)
            && ((atomic.Ok? && t.db == atomic.value) <==>
                  Get(m.db, pc.id).Ok? && NotRotatedSince(m, |s.rotations|, pc.id))
            && ((atomic.Ok? && t.db == atomic.value) <==>
                  Get(m.db, pc.id).Ok? && Get(m.db, pc.id).value.token == pc.current)
  {
    var pc, n := s.procs[p], Apply(cfg, s, Run(p));
    StepReachable(cfg, s, Run(p));
    ReachesReachable(cfg, n, between, m);
    ReachableInv(cfg, n);
    ReachableInv(cfg, m);
    LogoutChecked(cfg, s, p, between, m);
    if Get(m.db, pc.id).Ok? {
      TokenStaysIff(cfg, n, between, m, pc.id);
    }
    RevokeExecutes(cfg, m, p, pc.id, pc.current, pc.at);
  }

  // ---------- A Refresh in between ----------

  /** A Refresh with the token the session holds, run in one go. */
  lemma RefreshInOneGo(cfg: Config, s: System, q: Pid, id: SessionId, current: TokenHash, next: TokenHash, at: int)
    returns (actions: seq<Action>, t: System)
    requires Reachable(cfg, s) && CanRefresh(cfg, s, q, id, current, next, at)
    ensures Reaches(cfg, s, actions, t) && Refreshed(cfg, s, q, id, current, next, at, t)
  {
    actions, t := RefreshSteps(cfg, s, q, id, current, next, at);
    ReachableInv(cfg, s);
    RotatedAlive(s, t.db, id, current, next, at + cfg.refreshTtl, at, at + cfg.refreshTtl - s.db.now);
  }

  lemma RefreshSteps(cfg: Config, s: System, q: Pid, id: SessionId, current: TokenHash, next: TokenHash, at: int)
    returns (actions: seq<Action>, t: System)
    requires CanRefresh(cfg, s, q, id, current, next, at)
    ensures Reaches(cfg, s, actions, t)
    ensures t.procs == s.procs[q := Done(RefreshProtocol.Refreshed(|s.rotations|, current))]
    ensures t.rotations == s.rotations + [Rotation(q, id, current, next)]
    ensures t.tokens.Keys == s.tokens.Keys + {current, next}
    ensures AtomicRotate(s.db, id, current, next, at + cfg.refreshTtl, at, at + cfg.refreshTtl - s.db.now) == Ok(t.db)
  {
    var m := Goto(s, q, RefreshGet(id, current, at));
    t := RefreshSolo.SoloRefresh(cfg, m, q, id, current, next, at);
    actions := RefreshSolo.Runs(q, 1) + [Draw(q, next)] + RefreshSolo.Runs(q, 3);
    BeginThen(cfg, s, q, id, current, at, m, actions, t);
    actions := [BeginRefresh(q, id, current, at)] + actions;
  }

  lemma BeginThen(cfg: Config, s: System, q: Pid, id: SessionId, current: TokenHash, at: int, m: System,
                  actions: seq<Action>, t: System)
    requires q !in s.procs && m == Goto(s, q, RefreshGet(id, current, at)) && Reaches(cfg, m, actions, t)
    ensures Reaches(cfg, s, [BeginRefresh(q, id, current, at)] + actions, t)
  {
    OneAction(cfg, s, BeginRefresh(q, id, current, at), m);
    ReachesThen(cfg, s, [BeginRefresh(q, id, current, at)], m, actions, t);
  }

  /** q is unused, next is fresh, and the session holds the token and has not expired at that time. */
  predicate CanRefresh(cfg: Config, s: System, q: Pid, id: SessionId, current: TokenHash, next: TokenHash, at: int) {
    && q !in s.procs && next != "" && next !in s.tokens && cfg.refreshTtl > 0 && at + cfg.refreshTtl > s.db.now
    && Refreshable(s.db, id, current, at)
  }

  /** The call of q has refreshed the session, and nothing else has happened. */
  predicate Refreshed(cfg: Config, s: System, q: Pid, id: SessionId, current: TokenHash, next: TokenHash, at: int,
                      t: System)
  {
    && Get(s.db, id).Ok? && AliveWith(t.db, id, next) && next != current && t.db.now == s.db.now
    && t.procs == s.procs[q := Done(RefreshProtocol.Refreshed(|s.rotations|, current))]
    && t.rotations == s.rotations + [Rotation(q, id, current, next)]
    && t.tokens.Keys == s.tokens.Keys + {current, next}
    && t.db.hashes[id].fields.expiresAt == Some(at + cfg.refreshTtl)
    && var user := Get(s.db, id).value.user;
       Scores(t.db, user) == Scores(s.db, user)[id := at + cfg.refreshTtl]
  }

  lemma RotatedAlive(s: System, after: Db, id: SessionId, current: TokenHash, next: TokenHash, expiresAt: int,
                     at: int, ttl: int)
    requires Inv(s) && AtomicRotate(s.db, id, current, next, expiresAt, at, ttl) == Ok(after) && ttl > 0
    requires next !in s.tokens
    ensures AliveWith(after, id, next) && next != current && after.now == s.db.now
    ensures after.hashes[id].fields.expiresAt == Some(expiresAt)
    ensures var user := Get(s.db, id).value.user; Scores(after, user) == Scores(s.db, user)[id := expiresAt]
  {
    ReadFacts(s, id);
    var user := Get(s.db, id).value.user;
    assert HashOk(s, id);
    HashStored(s.db, id, RotatedFields(next, expiresAt, at), ttl);
    CommitRotateWrites(s.db, id, user, next, expiresAt, at, ttl);
  }

  /**
   * A Refresh can complete between the two reads of a Logout that was right about the token: then the Logout
   * revokes the session with a token it no longer holds, where a check and revocation in one step would refuse.
   */
  lemma RefreshCanOvertakeLogout(cfg: Config, s: System, p: Pid, q: Pid, id: SessionId, current: TokenHash,
                                 next: TokenHash, at: int) returns (m: System)
    requires Reachable(cfg, s) && p in s.procs && s.procs[p].RevokeGet? && s.procs[p].id == id
    requires CanRefresh(cfg, s, q, id, current, next, at)
    ensures Reachable(cfg, m) && p in m.procs && m.procs[p].RevokeExec? && AliveWith(m.db, id, next)
    ensures AtomicLogout(m.db, id, current, m.procs[p].at) == Err(TokenMismatch)
    ensures var t := Apply(cfg, m, Run(p)); t.procs[p] == Done(LoggedOut) && !Alive(t.db, id)
  {
    var actions, t := RefreshInOneGo(cfg, s, q, id, current, next, at);
    ReachesReachable(cfg, s, actions, t);
    m := SecondRead(cfg, t, p, id, next);
    ReachableInv(cfg, m);
    RevokeExecutes(cfg, m, p, id, current, m.procs[p].at);
  }

  lemma SecondRead(cfg: Config, s: System, p: Pid, id: SessionId, next: TokenHash) returns (t: System)
    requires Reachable(cfg, s) && p in s.procs && s.procs[p].RevokeGet? && s.procs[p].id == id
    requires AliveWith(s.db, id, next)
    ensures Reachable(cfg, t) && p in t.procs && t.procs[p].RevokeExec? && AliveWith(t.db, id, next)
    ensures t.procs[p].id == id && t.procs[p].at == s.procs[p].at
    ensures Get(t.db, id).Ok? && Get(t.db, id).value.token == next
  {
    StepReachable(cfg, s, Run(p));
    t := Apply(cfg, s, Run(p));
  }

  /**
   * A Refresh can complete between the pick of an eviction and its DEL: then the DEL ends the session that has just
   * been refreshed, even if it now outranks all others of its user.
   */
  lemma RefreshCanOvertakeEviction(cfg: Config, s: System, p: Pid, q: Pid, id: SessionId, current: TokenHash,
                                   next: TokenHash, at: int) returns (m: System)
    requires Reachable(cfg, s) && p in s.procs && s.procs[p].CreateEvict? && s.procs[p].oldest == id
    requires CanRefresh(cfg, s, q, id, current, next, at)
    requires var scores := Scores(s.db, s.procs[p].s.user);
             forall x :: x in scores && x != id ==> scores[x] < at + cfg.refreshTtl
    ensures Reachable(cfg, m) && p in m.procs && m.procs[p] == s.procs[p] && AliveWith(m.db, id, next)
    ensures var scores := Scores(m.db, m.procs[p].s.user);
            && id in scores && scores.Keys == Scores(s.db, m.procs[p].s.user).Keys + {id}
            && forall x :: x in scores && x != id ==> RankLess(scores, x, id)
    ensures !Alive(Apply(cfg, m, Run(p)).db, id)
  {
    var actions;
    actions, m := RefreshInOneGo(cfg, s, q, id, current, next, at);
    ReachesReachable(cfg, s, actions, m);
    OwnerOfOldest(cfg, s, p);
  }

  lemma OwnerOfOldest(cfg: Config, s: System, p: Pid)
    requires Reachable(cfg, s) && p in s.procs && s.procs[p].CreateEvict?
    ensures Get(s.db, s.procs[p].oldest).Ok? ==> Get(s.db, s.procs[p].oldest).value.user == s.procs[p].s.user
  {
    ReachableInv(cfg, s);
    assert ProcOk(s, p, s.procs[p]);
    ReadFacts(s, s.procs[p].oldest);
  }

  /** And one can complete between the scan of a cleanup and its DEL, which then ends a session that has time left. */
  lemma RefreshCanOvertakeCleanup(cfg: Config, s: System, p: Pid, q: Pid, id: SessionId, current: TokenHash,
                                  next: TokenHash, at: int) returns (m: System)
    requires Reachable(cfg, s) && p in s.procs && s.procs[p].CreatePurge? && id in s.procs[p].expired
    requires CanRefresh(cfg, s, q, id, current, next, at)
    ensures Reachable(cfg, m) && p in m.procs && m.procs[p] == s.procs[p] && AliveWith(m.db, id, next)
    ensures m.db.hashes[id].fields.expiresAt.value > m.db.now && !Alive(Apply(cfg, m, Run(p)).db, id)
  {
    var actions;
    actions, m := RefreshInOneGo(cfg, s, q, id, current, next, at);
    ReachesReachable(cfg, s, actions, m);
  }

  // ---------- Cleanup ----------

  /** The cutoff of a cleanup is in the past. */
  ghost predicate CutoffsOk(s: System) {
    forall p :: p in s.procs && s.procs[p].CreateScan? ==> s.procs[p].cutoff < s.db.now
  }

  lemma CutoffsStayOk(cfg: Config, s: System, a: Action)
    requires CutoffsOk(s) && Enabled(s, a)
    ensures CutoffsOk(Apply(cfg, s, a))
  {
    StepGrows(cfg, s, a);
    var t := Apply(cfg, s, a);
    forall p | p in t.procs && t.procs[p].CreateScan? ensures t.procs[p].cutoff < t.db.now {
      if a.Run? && a.p == p {
        CutoffIsPast(cfg, s, p);
      } else if p in s.procs && a.Run? {
        RunMovesOnlyItself(cfg, s, a.p, p);
      }
    }
  }

  lemma CutoffIsPast(cfg: Config, s: System, p: Pid)
    requires Enabled(s, Run(p)) && Apply(cfg, s, Run(p)).procs[p].CreateScan?
    ensures Apply(cfg, s, Run(p)).procs[p].cutoff < s.db.now
  {
  }

  lemma {:induction false} CutoffsPast(cfg: Config, s: System, actions: seq<Action>, t: System)
    requires CutoffsOk(s) && Reaches(cfg, s, actions, t)
    ensures CutoffsOk(t)
    decreases |actions|
  {
    var m := ReachesSplit(cfg, s, actions, t);
    if actions != [] {
      CutoffsStayOk(cfg, s, actions[0]);
      CutoffsPast(cfg, m, actions[1..], t);
    }
  }

  /**
   * A session that a cleanup is about to take, and that is still alive, is what it was when the cleanup looked,
   * exactly if no Rotate of it has completed since; and then it has expired.
   */
  lemma CleanupTakesWhatItSawIff(cfg: Config, s: System, p: Pid, between: seq<Action>, m: System, id: SessionId)
    requires Reachable(cfg, s) && p in s.procs && s.procs[p].CreateScan?
    requires Reaches(cfg, Apply(cfg, s, Run(p)), between, m)
    requires var pc := Apply(cfg, s, Run(p)).procs[p]; pc.CreatePurge? && id in pc.expired
    requires Alive(m.db, id)
    ensures HGetAll(m.db, id) == HGetAll(s.db, id) <==> NotRotatedSince(m, |s.rotations|, id)
    ensures HGetAll(m.db, id) == HGetAll(s.db, id) ==> m.db.hashes[id].fields.expiresAt.value < m.db.now
  {
    var n := Apply(cfg, s, Run(p));
    Scanned(cfg, s, p, n, id);
    ReachableInv(cfg, s);
    StepReachable(cfg, s, Run(p));
    ReachesReachable(cfg, n, between, m);
    ReachableInv(cfg, n);
    ReachableInv(cfg, m);
    assert OwnedBy(s, id, s.procs[p].s.user);
    RotationsGrow(cfg, n, between, m);
    WasAlive(cfg, n, between, m, id);
    IndexAgreement(cfg, s, id);
    if NotRotatedSince(m, |s.rotations|, id) {
      SameUnlessRotated(cfg, n, between, m, id);
    } else {
      TokenStaysIff(cfg, n, between, m, id);
    }
  }

  lemma WasAlive(cfg: Config, s: System, actions: seq<Action>, t: System, id: SessionId)
    requires Inv(s) && IsBorn(s, id) && Reaches(cfg, s, actions, t) && Alive(t.db, id)
    ensures Alive(s.db, id)
  {
    if !Alive(s.db, id) {
      DeadForever(cfg, s, actions, t, id);
    }
  }

  lemma Scanned(cfg: Config, s: System, p: Pid, n: System, id: SessionId)
    requires Reachable(cfg, s) && p in s.procs && s.procs[p].CreateScan? && n == Apply(cfg, s, Run(p))
    requires n.procs[p].CreatePurge? && id in n.procs[p].expired
    ensures n.db == s.db && n.ids == s.ids && n.rotations == s.rotations
    ensures var scores := Scores(s.db, s.procs[p].s.user); id in scores && scores[id] < s.db.now
  {
    var actions :| Reaches(cfg, START, actions, s);
    CutoffsPast(cfg, START, actions, s);
  }

  // ---------- Eviction ----------

  /** The session was created or rotated on the way from s to t. */
  ghost predicate StoredSince(s: System, t: System, id: SessionId) {
    !IsBorn(s, id) || !NotRotatedSince(t, |s.rotations|, id)
  }

  /** If b lists the session, so does a, with the same score. */
  predicate NoNews(a: map<SessionId, int>, b: map<SessionId, int>, id: SessionId) {
    id in b ==> id in a && b[id] == a[id]
  }

  lemma {:induction false} OnlyStoringIsNews(cfg: Config, s: System, actions: seq<Action>, t: System, user: UserId,
                                             id: SessionId)
    requires Inv(s) && Reaches(cfg, s, actions, t) && !StoredSince(s, t, id)
    ensures NoNews(Scores(s.db, user), Scores(t.db, user), id)
    decreases |actions|
  {
    var m := ReachesSplit(cfg, s, actions, t);
    if actions != [] {
      StepKeeps(cfg, s, actions[0]);
      StepGrows(cfg, s, actions[0]);
      RotationsGrow(cfg, m, actions[1..], t);
      StillBorn(cfg, s, actions[0], id);
      assert forall k :: |s.rotations| <= k < |m.rotations| ==> m.rotations[k] == t.rotations[k];
      OnlyStoringIsNews(cfg, m, actions[1..], t, user, id);
      StepNews(cfg, s, actions[0], user, id);
    }
  }

  lemma StepNews(cfg: Config, s: System, a: Action, user: UserId, id: SessionId)
    requires Inv(s) && Enabled(s, a) && !StoredSince(s, Apply(cfg, s, a), id)
    ensures NoNews(Scores(s.db, user), Scores(Apply(cfg, s, a).db, user), id)
  {
    if a.Run? {
      var pc := s.procs[a.p];
      assert ProcOk(s, a.p, pc);
      if pc.CreateCommit? {
        CommitNews(s, a.p, pc, user, id);
      } else if pc.RotateExec? && Version(s.db, pc.id) == pc.seen {
        RotationNews(cfg, s, a.p, pc, user, id);
      } else {
        WriteNews(s.db, pc, user, id);
      }
    }
  }

  lemma CommitNews(s: System, p: Pid, pc: Pc, user: UserId, id: SessionId)
    requires pc.CreateCommit? && ProcOk(s, p, pc) && IsBorn(s, id)
    ensures NoNews(Scores(s.db, user), Scores(CommitSession(s, p, pc).db, user), id)
  {
    CommitCreateLists(s.db, pc.id, pc.s, pc.ttl);
  }

  lemma RotationNews(cfg: Config, s: System, p: Pid, pc: Pc, user: UserId, id: SessionId)
    requires p in s.procs && s.procs[p] == pc && pc.RotateExec?
    requires !StoredSince(s, CommitRotation(cfg, s, p, pc), id)
    ensures NoNews(Scores(s.db, user), Scores(CommitRotation(cfg, s, p, pc).db, user), id)
  {
    assert CommitRotation(cfg, s, p, pc).rotations[|s.rotations|].id == pc.id;
    CommitRotateWrites(s.db, pc.id, pc.user, pc.next, pc.at + cfg.refreshTtl, pc.at, pc.ttl);
  }

  lemma WriteNews(db: Db, pc: Pc, user: UserId, id: SessionId)
    ensures NoNews(Scores(db, user), Scores(NextDb(db, pc), user), id)
  {
    match pc
    case CreatePurge(_, n, _, expired) => UnlistedScores(db, n.user, expired);
    case CreateUnindex(_, n, _, oldest) => UnlistedScores(db, n.user, {oldest});
    case RevokeExec(x, u, _) => UnlistedScores(db, u, {x});
    case RevokeAllExec(u, ids, _) => UnlistedScores(db, u, ids);
    case _ =>
  }

  /**
   * A session that an eviction is about to take, and that is still listed, is the lowest ranked of its user exactly
   * if no session ranks below it by having been created or rotated, or by its own rotation, since it was picked.
   */
  lemma EvictionTakesTheLowestIff(cfg: Config, s: System, p: Pid, between: seq<Action>, m: System, oldest: SessionId)
    requires Reachable(cfg, s) && p in s.procs && s.procs[p].CreatePick?
    requires Reaches(cfg, Apply(cfg, s, Run(p)), between, m)
    requires var pc := Apply(cfg, s, Run(p)).procs[p]; pc.CreateEvict? && pc.oldest == oldest
    requires oldest in Scores(m.db, s.procs[p].s.user)
    ensures var scores := Scores(m.db, s.procs[p].s.user);
            IsLowest(scores, oldest) <==>
              forall x :: x in scores && x != oldest && (StoredSince(s, m, x) || StoredSince(s, m, oldest)) ==>
                RankLess(scores, oldest, x)
  {
    var n, user := Apply(cfg, s, Run(p)), s.procs[p].s.user;
    StepReachable(cfg, s, Run(p));
    ReachableInv(cfg, n);
    Picked(cfg, s, p, n, oldest);
    forall x | x in Scores(m.db, user) && x != oldest && !StoredSince(s, m, x) && !StoredSince(s, m, oldest)
      ensures RankLess(Scores(m.db, user), oldest, x)
    {
      OnlyStoringIsNews(cfg, n, between, m, user, x);
      OnlyStoringIsNews(cfg, n, between, m, user, oldest);
    }
  }

  lemma Picked(cfg: Config, s: System, p: Pid, n: System, oldest: SessionId)
    requires p in s.procs && s.procs[p].CreatePick? && n == Apply(cfg, s, Run(p))
    requires n.procs[p].CreateEvict? && n.procs[p].oldest == oldest
    ensures n.db == s.db && n.ids == s.ids && n.rotations == s.rotations
    ensures IsLowest(Scores(s.db, s.procs[p].s.user), oldest)
  {
  }
}
