/** How many sessions a user can have while several Create calls race. */
module RefreshCap {
  import opened Basics
  import opened Redis
  import opened RefreshSessions
  import opened RefreshProtocol
  import opened RefreshInvariant
  import opened RefreshTheorems

  predicate CreatesFor(pc: Pc, user: UserId) {
    InCreate(pc) && pc.s.user == user
  }

  predicate CommitsFor(pc: Pc, user: UserId) {
    pc.CreateCommit? && pc.s.user == user
  }

  /** The Create calls of the user that have not returned. */
  function InFlight(s: System, user: UserId): set<Pid> {
    set p | p in s.procs && CreatesFor(s.procs[p], user)
  }

  /** Those of them that have seen room for one more session and not yet taken it. */
  function PastCheck(s: System, user: UserId): set<Pid> {
    set p | p in s.procs && CommitsFor(s.procs[p], user)
  }

  /** A run on which the user never has more than n Create calls in flight. */
  ghost predicate BoundedRun(cfg: Config, s: System, actions: seq<Action>, t: System, user: UserId, n: nat) {
    ReachesBy(cfg, s, actions, t, (_, _, after) => |InFlight(after, user)| <= n)
  }

  /** Sessions listed, plus sessions about to be; Rotates may have brought some back since a Create last saw room. */
  ghost predicate WithinCap(cfg: Config, s: System, user: UserId, n: nat) {
    ZCard(s.db, user) + |PastCheck(s, user)| <= cfg.maxSessionsPerUser - 1 + n + Readmitted(s, user)
  }

  /** A step of p can change |PastCheck| only through p's own program counter. */
  lemma MovedPastCheck(s: System, t: System, p: Pid, user: UserId)
    requires p in t.procs && t.procs == s.procs[p := t.procs[p]]
    ensures CommitsFor(t.procs[p], user) ==> |PastCheck(t, user)| <= |PastCheck(s, user)| + 1
    ensures !CommitsFor(t.procs[p], user) ==> |PastCheck(t, user)| <= |PastCheck(s, user)|
    ensures p in s.procs && CommitsFor(s.procs[p], user) && !CommitsFor(t.procs[p], user) ==>
              |PastCheck(t, user)| == |PastCheck(s, user)| - 1
  {
    var before, after := PastCheck(s, user), PastCheck(t, user);
    if CommitsFor(t.procs[p], user) {
      assert after == before + {p};
      SubsetSize(after, before + {p});
    } else {
      assert after == before - {p};
      SubsetSize(after, before);
    }
  }

  lemma PastCheckBounded(s: System, user: UserId)
    ensures |PastCheck(s, user)| <= |InFlight(s, user)|
  {
    SubsetSize(PastCheck(s, user), InFlight(s, user));
  }

  lemma KeysShrink(a: map<SessionId, int>, b: map<SessionId, int>)
    requires b.Keys <= a.Keys
    ensures |b| <= |a|
  {
    SubsetSize(b.Keys, a.Keys);
  }

  lemma AddOne(m: map<SessionId, int>, id: SessionId, score: int)
    ensures |m[id := score]| == |m| + if id in m then 0 else 1
  {
    assert m[id := score].Keys == m.Keys + {id};
  }

  lemma StepWithinCap(cfg: Config, s: System, a: Action, user: UserId, n: nat)
    requires Inv(s) && WithinCap(cfg, s, user, n) && Enabled(s, a)
    requires |InFlight(Apply(cfg, s, a), user)| <= n && 1 <= n && 1 <= cfg.maxSessionsPerUser
    ensures WithinCap(cfg, Apply(cfg, s, a), user, n)
  {
    if a.Tick? {
      KeysShrink(Scores(s.db, user), Scores(Elapse(s.db, a.seconds), user));
    } else if a.Run? {
      var pc := s.procs[a.p];
      if pc.CreateCommit? {
        CommitSessionWithinCap(cfg, s, a.p, pc, user, n);
      } else if pc.RotateExec? && Version(s.db, pc.id) == pc.seen {
        CommitRotationWithinCap(cfg, s, a.p, pc, user, n);
      } else {
        WriteWithinCap(cfg, s, a.p, pc, user, n);
      }
    } else {
      MovedPastCheck(s, Apply(cfg, s, a), a.p, user);
    }
  }

  /** Taking the place that was seen free. */
  lemma SessionWithinCap(cfg: Config, s: System, t: System, p: Pid, id: SessionId, n: Session, user: UserId, bound: nat)
    requires p in s.procs && s.procs[p].CreateCommit? && s.procs[p].s == n && WithinCap(cfg, s, user, bound) &&
             SessionAdded(s, t, p, id, n)
    ensures WithinCap(cfg, t, user, bound)
  {
    MovedPastCheck(s, t, p, user);
    AddOne(Scores(s.db, n.user), id, n.expiresAt);
  }

  /** A Rotate that adds a member to the index is counted as one. */
  lemma RotationWithinCap(cfg: Config, s: System, t: System, p: Pid, pc: Pc, exp: int, user: UserId, n: nat)
    requires pc.RotateExec? && WithinCap(cfg, s, user, n) && SessionRotated(s, t, p, pc, exp)
    ensures WithinCap(cfg, t, user, n)
  {
    MovedPastCheck(s, t, p, user);
    AddOne(Scores(s.db, pc.user), pc.id, exp);
  }

  lemma CommitSessionWithinCap(cfg: Config, s: System, p: Pid, pc: Pc, user: UserId, n: nat)
    requires Inv(s) && p in s.procs && s.procs[p] == pc && pc.CreateCommit? && WithinCap(cfg, s, user, n)
    ensures WithinCap(cfg, CommitSession(s, p, pc), user, n)
  {
    assert ProcOk(s, p, pc);
    CommitSessionAdds(s, p, pc);
    SessionWithinCap(cfg, s, CommitSession(s, p, pc), p, pc.id, pc.s, user, n);
  }

  lemma Rotated(cfg: Config, s: System, p: Pid, pc: Pc) returns (t: System)
    requires pc.RotateExec?
    ensures t == CommitRotation(cfg, s, p, pc) && SessionRotated(s, t, p, pc, pc.at + cfg.refreshTtl)
  {
    t := CommitRotation(cfg, s, p, pc);
    CommitRotationRotates(cfg, s, p, pc);
  }

  lemma CommitRotationWithinCap(cfg: Config, s: System, p: Pid, pc: Pc, user: UserId, n: nat)
    requires pc.RotateExec? && WithinCap(cfg, s, user, n)
    ensures WithinCap(cfg, CommitRotation(cfg, s, p, pc), user, n)
  {
    var t := Rotated(cfg, s, p, pc);
    RotationWithinCap(cfg, s, t, p, pc, pc.at + cfg.refreshTtl, user, n);
  }

  /** Every other step: the index can only shrink, and a place is only claimed when one is free. */
  lemma WriteWithinCap(cfg: Config, s: System, p: Pid, pc: Pc, user: UserId, n: nat)
    requires p in s.procs && s.procs[p] == pc && !pc.CreateCommit? && WithinCap(cfg, s, user, n) && 1 <= n &&
             1 <= cfg.maxSessionsPerUser
    requires |InFlight(Moved(s, p, NextPc(cfg, s.db, pc), NextDb(s.db, pc)), user)| <= n
    ensures WithinCap(cfg, Moved(s, p, NextPc(cfg, s.db, pc), NextDb(s.db, pc)), user, n)
  {
    var t := Moved(s, p, NextPc(cfg, s.db, pc), NextDb(s.db, pc));
    MovedPastCheck(s, t, p, user);
    NextDbShrinks(s.db, pc, user);
    if CommitsFor(t.procs[p], user) {
      PastCheckBounded(t, user);
      ClaimSeesRoom(cfg, s.db, pc);
    }
  }

  lemma ClaimSeesRoom(cfg: Config, db: Db, pc: Pc)
    requires NextPc(cfg, db, pc).CreateCommit?
    ensures NextDb(db, pc) == db && NextPc(cfg, db, pc).s == pc.s
    ensures ZCard(db, pc.s.user) < cfg.maxSessionsPerUser || ZCard(db, pc.s.user) == 0
  {
  }

  lemma NextDbShrinks(db: Db, pc: Pc, user: UserId)
    ensures ZCard(NextDb(db, pc), user) <= ZCard(db, user)
  {
    if pc.CreatePurge? {
      PurgeShrinks(db, pc.s.user, pc.expired, user);
    } else if pc.CreateUnindex? {
      UnindexShrinks(db, pc.s.user, pc.oldest, user);
    } else if pc.RevokeExec? {
      RevokeShrinks(db, pc.user, {pc.id}, pc.at, user);
    } else if pc.RevokeAllExec? {
      RevokeShrinks(db, pc.user, pc.ids, pc.at, user);
    }
  }

  lemma UnindexShrinks(db: Db, owner: UserId, oldest: SessionId, user: UserId)
    ensures ZCard(ZRem(db, owner, {oldest}), user) <= ZCard(db, user)
  {
    ZRemEvolves(db, owner, {oldest});
    KeysShrink(Scores(db, user), Scores(ZRem(db, owner, {oldest}), user));
  }

  lemma PurgeShrinks(db: Db, owner: UserId, ids: set<SessionId>, user: UserId)
    ensures ZCard(Purge(db, owner, ids), user) <= ZCard(db, user)
  {
    ZRemEvolves(db, owner, ids);
    assert Purge(db, owner, ids).index == ZRem(db, owner, ids).index;
    KeysShrink(Scores(db, user), Scores(Purge(db, owner, ids), user));
  }

  lemma RevokeShrinks(db: Db, owner: UserId, ids: set<SessionId>, at: int, user: UserId)
    ensures ZCard(Revoke(db, owner, ids, at), user) <= ZCard(db, user)
  {
    RevokeShape(db, owner, ids, at);
    KeysShrink(Scores(db, user), Scores(Revoke(db, owner, ids, at), user));
  }

  lemma {:induction false} RunWithinCap(cfg: Config, s: System, actions: seq<Action>, t: System, user: UserId, n: nat)
    requires Inv(s) && WithinCap(cfg, s, user, n) && BoundedRun(cfg, s, actions, t, user, n)
    requires 1 <= n && 1 <= cfg.maxSessionsPerUser
    ensures Inv(t) && WithinCap(cfg, t, user, n)
    decreases |actions|
  {
    if actions != [] {
      StepKeeps(cfg, s, actions[0]);
      StepWithinCap(cfg, s, actions[0], user, n);
      RunWithinCap(cfg, Apply(cfg, s, actions[0]), actions[1..], t, user, n);
    }
  }

  /** The sessions of a user that can still be refreshed. */
  ghost predicate LiveSessionOf(s: System, user: UserId, id: SessionId) {
    Alive(s.db, id) && OwnedBy(s, id, user)
  }

  /**
   * With at most n Create calls of the user in flight, the index holds at most max - 1 + n members and those a
   * Rotate has brought back since a Create last saw room.  The same bounds the live sessions that are no orphans.
   * If the index key never expired there are neither orphans nor any brought back; n = 1 then gives the cap.
   */
  lemma CapUnderConcurrency(cfg: Config, actions: seq<Action>, s: System, user: UserId, n: nat, live: set<SessionId>)
    requires BoundedRun(cfg, START, actions, s, user, n) && 1 <= n && 1 <= cfg.maxSessionsPerUser
    requires forall id :: id in live ==> LiveSessionOf(s, user, id)
    ensures ZCard(s.db, user) <= cfg.maxSessionsPerUser - 1 + n + Readmitted(s, user)
    ensures |live - s.orphans| <= cfg.maxSessionsPerUser - 1 + n + Readmitted(s, user)
    ensures user !in s.lost ==> Readmitted(s, user) == 0 && live - s.orphans == live
  {
    assert PastCheck(START, user) == {} && InFlight(START, user) == {};
    RunWithinCap(cfg, START, actions, s, user, n);
    forall id | id in live - s.orphans ensures id in Scores(s.db, user) {
      assert LiveSessionOf(s, user, id);
      InvIndexAgreement(s, id);
    }
    SubsetSize(live - s.orphans, Scores(s.db, user).Keys);
    if user !in s.lost {
      forall id | id in live ensures id !in s.orphans {
        assert LiveSessionOf(s, user, id);
        InvIndexAgreement(s, id);
      }
    }
  }

  /** Whatever ran before, the step with which a Create sees room leaves the bound at max - 1 + n alone. */
  lemma SeeingRoomRestoresTheCap(cfg: Config, s: System, p: Pid, user: UserId, n: nat)
    requires Enabled(s, Run(p)) && CommitsFor(Apply(cfg, s, Run(p)).procs[p], user)
    requires |InFlight(Apply(cfg, s, Run(p)), user)| <= n && 1 <= cfg.maxSessionsPerUser
    ensures var t := Apply(cfg, s, Run(p));
            Readmitted(t, user) == 0 && ZCard(t.db, user) + |PastCheck(t, user)| <= cfg.maxSessionsPerUser - 1 + n
  {
    ClaimIsMove(cfg, s, p);
    ClaimSeesRoom(cfg, s.db, s.procs[p]);
    PastCheckBounded(Apply(cfg, s, Run(p)), user);
  }

  lemma ClaimIsMove(cfg: Config, s: System, p: Pid)
    requires Enabled(s, Run(p)) && Apply(cfg, s, Run(p)).procs[p].CreateCommit?
    ensures NextPc(cfg, s.db, s.procs[p]).CreateCommit?
    ensures Apply(cfg, s, Run(p)) == Moved(s, p, NextPc(cfg, s.db, s.procs[p]), NextDb(s.db, s.procs[p]))
  {
  }
}
