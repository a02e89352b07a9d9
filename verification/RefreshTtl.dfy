/** When the two TTLs of a session, of its hash and of its user's index key, let the index lose it. */
module RefreshTtl {
  import opened Basics
  import opened Redis
  import opened RefreshSessions
  import opened RefreshProtocol
  import opened RefreshInvariant
  import opened RefreshTheorems

  /**
   * As time passes a listed live session stays alive and is listed no longer exactly if the deadline of
   * the index key comes first.
   */
  lemma IndexLosesSessionIff(cfg: Config, s: System, id: SessionId, d: nat)
    requires Reachable(cfg, s) && Alive(s.db, id) && id !in s.orphans
    ensures IsBorn(s, id) && s.ids[id].user in s.db.index
    ensures var user, t := s.ids[id].user, Pass(s, d);
            Alive(t.db, id) && id !in Scores(t.db, user) <==>
              Gone(s.db.index[user].deadline, t.db.now) && !Gone(s.db.hashes[id].deadline, t.db.now)
  {
    IndexAgreement(cfg, s, id);
  }

  // ---------- Runs on which the TTLs fit ----------

  predicate NotAfter(deadline: int, key: Option<int>) {
    key.None? || deadline <= key.value
  }

  /**
   * A Rotate of the user gives its session no deadline beyond the one of the index key, and a Create of the
   * user does not bring the deadline of that key forward.
   */
  predicate TtlsFit(s: System, a: Action, user: UserId) {
    a.Run? && a.p in s.procs && user in s.db.index ==>
      var pc, key := s.procs[a.p], s.db.index[user].deadline;
      && (pc.RotateExec? && pc.user == user ==> NotAfter(s.db.now + pc.ttl, key))
      && (pc.CreateCommit? && pc.s.user == user && key.Some? ==> key.value <= s.db.now + pc.ttl + DAY)
  }

  ghost predicate FittingRun(cfg: Config, s: System, actions: seq<Action>, t: System, user: UserId) {
    ReachesBy(cfg, s, actions, t, (before, a, _) => TtlsFit(before, a, user))
  }

  /** The index key outlives the session. */
  predicate Outlived(db: Db, user: UserId, id: SessionId) {
    id in db.hashes && user in db.index && db.hashes[id].deadline.Some? && db.index[user].deadline.Some? &&
    db.hashes[id].deadline.value <= db.index[user].deadline.value
  }

  /** No live session of the user has been lost, and none will be as time passes. */
  ghost predicate Covered(s: System, user: UserId) {
    && (user in s.db.index ==> s.db.index[user].deadline.Some?)
    && forall id :: Alive(s.db, id) && OwnedBy(s, id, user) ==> id !in s.orphans && Outlived(s.db, user, id)
  }

  // ---------- Every fitting step keeps the user covered ----------

  /** b has no live session and no index key that a has not, and they have the deadlines they have in a. */
  ghost predicate KeepsDeadlines(a: Db, b: Db) {
    && (forall user :: user in b.index ==> user in a.index && b.index[user].deadline == a.index[user].deadline)
    && (forall id :: Alive(b, id) ==> Alive(a, id) && b.hashes[id].deadline == a.hashes[id].deadline)
  }

  lemma NextDbKeepsDeadlines(db: Db, pc: Pc)
    ensures KeepsDeadlines(db, NextDb(db, pc))
  {
    if pc.RevokeExec? {
      RevokeKeepsDeadlines(db, pc.user, {pc.id}, pc.at);
    } else if pc.RevokeAllExec? {
      RevokeKeepsDeadlines(db, pc.user, pc.ids, pc.at);
    }
  }

  lemma RevokeKeepsDeadlines(db: Db, user: UserId, ids: set<SessionId>, at: int)
    ensures KeepsDeadlines(db, Revoke(db, user, ids, at))
  {
    RevokeEvolves(db, user, ids, at);
  }

  /** What is alive and no orphan is listed, so its user's index key is there. */
  lemma KeyIsThere(s: System, user: UserId, id: SessionId)
    requires Inv(s) && Alive(s.db, id) && OwnedBy(s, id, user) && id !in s.orphans
    ensures user in s.db.index
  {
    InvIndexAgreement(s, id);
  }

  lemma MoveKeepsCovered(s: System, t: System, user: UserId)
    requires Covered(s, user) && Inv(t) && KeepsDeadlines(s.db, t.db) && t.orphans == s.orphans
    requires forall id :: OwnedBy(t, id, user) ==> OwnedBy(s, id, user)
    ensures Covered(t, user)
  {
    forall id | Alive(t.db, id) && OwnedBy(t, id, user) ensures id !in t.orphans && Outlived(t.db, user, id) {
      assert Outlived(s.db, user, id);
      KeyIsThere(t, user, id);
    }
  }

  lemma TickKeepsCovered(s: System, d: nat, user: UserId)
    requires Covered(s, user) && Inv(s)
    ensures Covered(Pass(s, d), user)
  {
    var t := Pass(s, d);
    forall id | Alive(t.db, id) && OwnedBy(t, id, user) ensures id !in t.orphans && Outlived(t.db, user, id) {
      assert Outlived(s.db, user, id);
      if id in t.orphans {
        NewOrphan(s, d, id, user);
        assert false;
      }
    }
  }

  /** A session becomes an orphan only when its own user's index key runs out. */
  lemma NewOrphan(s: System, d: nat, id: SessionId, user: UserId)
    requires IndexOk(s) && OwnedBy(s, id, user) && id in Pass(s, d).orphans && id !in s.orphans
    ensures user in s.db.index && user !in Pass(s, d).db.index
  {
    var other :| other in s.db.index && other !in Pass(s, d).db.index && id in s.db.index[other].scores;
    assert id in Scores(s.db, other);
    assert OwnedBy(s, id, other);
  }

  /** A step that stores one session, and does not bring the deadline of the index key forward. */
  lemma StoreKeepsCovered(s: System, t: System, stored: SessionId, user: UserId)
    requires Covered(s, user)
    requires forall id :: id != stored && Alive(t.db, id) && OwnedBy(t, id, user) ==>
               Alive(s.db, id) && OwnedBy(s, id, user) && t.db.hashes[id] == s.db.hashes[id] &&
                 (id in t.orphans ==> id in s.orphans)
    requires user in s.db.index && s.db.index[user].deadline.Some? ==>
               user in t.db.index && t.db.index[user].deadline.Some? &&
               s.db.index[user].deadline.value <= t.db.index[user].deadline.value
    requires user in t.db.index ==> t.db.index[user].deadline.Some?
    requires Alive(t.db, stored) && OwnedBy(t, stored, user) ==> stored !in t.orphans && Outlived(t.db, user, stored)
    ensures Covered(t, user)
  {
    forall id | Alive(t.db, id) && OwnedBy(t, id, user) ensures id !in t.orphans && Outlived(t.db, user, id) {
      assert id != stored ==> Outlived(s.db, user, id);
    }
  }

  /** b has the hashes and index keys of a, but for those of the session and of the user. */
  ghost predicate SameElsewhere(a: Db, b: Db, id: SessionId, user: UserId) {
    && (forall x :: x != id ==> (x in b.hashes <==> x in a.hashes) && (x in b.hashes ==> b.hashes[x] == a.hashes[x]))
    && (forall u :: u != user ==> (u in b.index <==> u in a.index) && (u in b.index ==> b.index[u] == a.index[u]))
  }

  /** The deadlines after the transaction of a Create. */
  ghost predicate CreateSetsDeadlines(a: Db, b: Db, id: SessionId, user: UserId, ttl: int) {
    && SameElsewhere(a, b, id, user)
    && id in b.hashes && b.hashes[id].deadline == Some(a.now + ttl)
    && user in b.index && b.index[user].deadline == Some(a.now + ttl + DAY)
  }

  lemma CreateDeadlines(db: Db, id: SessionId, n: Session, ttl: int)
    requires ttl > 0
    ensures CreateSetsDeadlines(db, CommitCreate(db, id, n, ttl), id, n.user, ttl)
  {
    HashStored(db, id, CreatedFields(n), ttl);
  }

  lemma CreateKeepsCovered(s: System, t: System, id: SessionId, n: Session, ttl: int, user: UserId)
    requires Covered(s, user) && CreateSetsDeadlines(s.db, t.db, id, n.user, ttl) && t.orphans == s.orphans &&
             id !in s.orphans
    requires t.ids == s.ids[id := Born(n.user, n.token)]
    requires n.user == user && user in s.db.index && s.db.index[user].deadline.Some? ==>
               s.db.index[user].deadline.value <= s.db.now + ttl + DAY
    ensures Covered(t, user)
  {
    StoreKeepsCovered(s, t, id, user);
  }

  /** The deadlines after the transaction of a Rotate; an index key that is there keeps its own. */
  ghost predicate RotateSetsDeadline(a: Db, b: Db, id: SessionId, user: UserId, ttl: int) {
    && SameElsewhere(a, b, id, user)
    && (id in b.hashes ==> b.hashes[id].deadline == Some(a.now + ttl))
    && (user in a.index ==> user in b.index && b.index[user].deadline == a.index[user].deadline)
  }

  lemma RotateDeadlines(db: Db, id: SessionId, user: UserId, next: TokenHash, expiresAt: int, at: int, ttl: int)
    ensures RotateSetsDeadline(db, CommitRotate(db, id, user, next, expiresAt, at, ttl), id, user, ttl)
  {
    HashStored(db, id, RotatedFields(next, expiresAt, at), ttl);
  }

  lemma RotateKeepsCovered(s: System, t: System, id: SessionId, owner: UserId, ttl: int, user: UserId)
    requires Covered(s, user) && RotateSetsDeadline(s.db, t.db, id, owner, ttl)
    requires t.ids == s.ids && t.orphans == s.orphans - {id} && Alive(s.db, id) && OwnedBy(s, id, owner)
    requires owner == user && user in s.db.index ==> NotAfter(s.db.now + ttl, s.db.index[user].deadline)
    ensures Covered(t, user)
  {
    if owner == user {
      assert Outlived(s.db, user, id);
    }
    StoreKeepsCovered(s, t, id, user);
  }

  lemma CommitSessionKeepsCovered(s: System, p: Pid, pc: Pc, user: UserId)
    requires Covered(s, user) && OrphansOk(s) && p in s.procs && s.procs[p] == pc && pc.CreateCommit? &&
             ProcOk(s, p, pc)
    requires TtlsFit(s, Run(p), user)
    ensures Covered(CommitSession(s, p, pc), user)
  {
    assert pc.id in s.orphans ==> OrphanOk(s, pc.id);
    CreateDeadlines(s.db, pc.id, pc.s, pc.ttl);
    CreateKeepsCovered(s, CommitSession(s, p, pc), pc.id, pc.s, pc.ttl, user);
  }

  lemma CommitRotationKeepsCovered(cfg: Config, s: System, p: Pid, pc: Pc, user: UserId)
    requires Covered(s, user) && p in s.procs && s.procs[p] == pc && MayCommit(s, p, pc) && TtlsFit(s, Run(p), user)
    ensures Covered(CommitRotation(cfg, s, p, pc), user)
  {
    RotateDeadlines(s.db, pc.id, pc.user, pc.next, pc.at + cfg.refreshTtl, pc.at, pc.ttl);
    RotateKeepsCovered(s, CommitRotation(cfg, s, p, pc), pc.id, pc.user, pc.ttl, user);
  }

  lemma RunKeepsCovered(cfg: Config, s: System, p: Pid, user: UserId)
    requires Covered(s, user) && Inv(s) && Enabled(s, Run(p)) && TtlsFit(s, Run(p), user)
    ensures Covered(Apply(cfg, s, Run(p)), user)
  {
    var pc := s.procs[p];
    assert ProcOk(s, p, pc);
    if pc.CreateCommit? {
      CommitSessionKeepsCovered(s, p, pc, user);
    } else if pc.RotateExec? && Version(s.db, pc.id) == pc.seen {
      CommitRotationKeepsCovered(cfg, s, p, pc, user);
    } else {
      StepKeeps(cfg, s, Run(p));
      NextDbKeepsDeadlines(s.db, pc);
      MoveKeepsCovered(s, Moved(s, p, NextPc(cfg, s.db, pc), NextDb(s.db, pc)), user);
    }
  }

  lemma StepKeepsCovered(cfg: Config, s: System, a: Action, user: UserId)
    requires Covered(s, user) && Inv(s) && Enabled(s, a) && TtlsFit(s, a, user)
    ensures Covered(Apply(cfg, s, a), user)
  {
    if a.Tick? {
      TickKeepsCovered(s, a.seconds, user);
    } else if a.Run? {
      RunKeepsCovered(cfg, s, a.p, user);
    } else {
      StepKeeps(cfg, s, a);
      MoveKeepsCovered(s, Apply(cfg, s, a), user);
    }
  }

  lemma {:induction false} FittingRunKeepsCovered(cfg: Config, s: System, actions: seq<Action>, t: System, user: UserId)
    requires Covered(s, user) && Inv(s) && FittingRun(cfg, s, actions, t, user)
    ensures Covered(t, user) && Inv(t)
    decreases |actions|
  {
    if actions != [] {
      StepKeeps(cfg, s, actions[0]);
      StepKeepsCovered(cfg, s, actions[0], user);
      FittingRunKeepsCovered(cfg, Apply(cfg, s, actions[0]), actions[1..], t, user);
    }
  }

  // ---------- What follows ----------

  /**
   * On a run on which the TTLs fit, every live session of the user is listed, with its expiry, and outlived by
   * the index key.
   */
  lemma NothingIsLost(cfg: Config, actions: seq<Action>, s: System, user: UserId, id: SessionId)
    requires FittingRun(cfg, START, actions, s, user) && Alive(s.db, id) && OwnedBy(s, id, user)
    ensures id !in s.orphans && Outlived(s.db, user, id)
    ensures Indexed(s.db, id, user, s.db.hashes[id].fields.expiresAt.value)
  {
    FittingRunKeepsCovered(cfg, START, actions, s, user);
    InvIndexAgreement(s, id);
  }

  /** So LogoutAll ends all sessions that were live at its ZRANGE, for good. */
  lemma LogoutAllCoversAll(cfg: Config, actions: seq<Action>, s: System, p: Pid, before: seq<Action>, m: System,
                           after: seq<Action>, t: System, id: SessionId)
    requires p in s.procs && s.procs[p].RevokeAllRange? && FittingRun(cfg, START, actions, s, s.procs[p].user)
    requires Reaches(cfg, Apply(cfg, s, Run(p)), before, m) && p in m.procs && m.procs[p].RevokeAllExec?
    requires Reaches(cfg, Apply(cfg, m, Run(p)), after, t)
    requires Alive(s.db, id) && OwnedBy(s, id, s.procs[p].user)
    ensures !Alive(t.db, id) && NotRotatedSince(t, |m.rotations|, id)
  {
    var user := s.procs[p].user;
    NothingIsLost(cfg, actions, s, user, id);
    NoAction(cfg, START);
    ReachesByReachable(cfg, START, actions, s, (b, a, _) => TtlsFit(b, a, user));
    LogoutAllCovers(cfg, s, p, before, m, after, t, id);
  }
}
