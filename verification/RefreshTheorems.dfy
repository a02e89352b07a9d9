/** What the refresh protocol guarantees, over every run of it. */
module RefreshTheorems {
  import opened Basics
  import opened Redis
  import opened RefreshSessions
  import opened RefreshProtocol
  import opened RefreshInvariant

  // ---------- A token refreshes once ----------

  /** Whatever interleaves, two Refresh calls never both succeed with the same token. */
  lemma TokenIsSingleUse(cfg: Config, s: System, p: Pid, q: Pid)
    requires Reachable(cfg, s) && p in s.procs && q in s.procs && p != q
    requires s.procs[p].Done? && s.procs[p].outcome.Refreshed?
    requires s.procs[q].Done? && s.procs[q].outcome.Refreshed?
    ensures s.procs[p].outcome.presented != s.procs[q].outcome.presented
  {
    ReachableInv(cfg, s);
    assert ProcOk(s, p, s.procs[p]) && ProcOk(s, q, s.procs[q]);
    var j, k := s.procs[p].outcome.nth, s.procs[q].outcome.nth;
    assert j != k;
    assert s.rotations[j].current != s.rotations[k].current;
  }

  /** The successes on one session link up: each consumes what the one before it handed out. */
  lemma RotationsFormOneChain(cfg: Config, s: System, j: nat, k: nat)
    requires Reachable(cfg, s) && j < k < |s.rotations| && s.rotations[j].id == s.rotations[k].id
    requires forall i :: j < i < k ==> s.rotations[i].id != s.rotations[k].id
    ensures s.rotations[k].current == s.rotations[j].next
  {
    ReachableInv(cfg, s);
    assert Consumes(s, k);
    LastLink(s.rotations[..k], j, s.rotations[k].id, s.ids[s.rotations[k].id].first);
  }

  lemma {:induction false} LastLink(rotations: seq<Rotation>, j: nat, id: SessionId, first: TokenHash)
    requires j < |rotations| && rotations[j].id == id
    requires forall i :: j < i < |rotations| ==> rotations[i].id != id
    ensures TokenAfter(rotations, id, first) == rotations[j].next
  {
    if j < |rotations| - 1 {
      LastLink(rotations[..|rotations| - 1], j, id, first);
    }
  }

  /** Rotation k is the first of its session. */
  predicate IsFirst(rotations: seq<Rotation>, k: nat, id: SessionId) {
    k < |rotations| && rotations[k].id == id && forall i :: 0 <= i < k ==> rotations[i].id != id
  }

  predicate IsLast(rotations: seq<Rotation>, k: nat, id: SessionId) {
    k < |rotations| && rotations[k].id == id && forall i :: k < i < |rotations| ==> rotations[i].id != id
  }

  /** The chain starts at the token the session was created with, and ends at the token it holds. */
  lemma ChainEnds(cfg: Config, s: System, id: SessionId, k: nat)
    requires Reachable(cfg, s)
    ensures IsFirst(s.rotations, k, id) ==> IsBorn(s, id) && s.rotations[k].current == s.ids[id].first
    ensures IsLast(s.rotations, k, id) && Alive(s.db, id) ==> AliveWith(s.db, id, s.rotations[k].next)
  {
    ReachableInv(cfg, s);
    if IsFirst(s.rotations, k, id) {
      assert Consumes(s, k);
      NoRotationNoChange(s.rotations[..k], id, s.ids[id].first);
    }
    if IsLast(s.rotations, k, id) && Alive(s.db, id) {
      assert HashOk(s, id);
      LastLink(s.rotations, k, id, s.ids[id].first);
    }
  }

  // ---------- WATCH and EXEC amount to one atomic check-and-set ----------

  /**
   * A Rotate that finishes at its EXEC succeeds exactly when the atomic check-and-set would
   * succeed at that instant, and does to the store exactly what that does.
   */
  lemma ExecIsAtomic(cfg: Config, s: System, p: Pid)
    requires Reachable(cfg, s) && cfg.refreshTtl > 0 && p in s.procs && s.procs[p].RotateExec?
    ensures var pc := s.procs[p];
            var t := Apply(cfg, s, Run(p));
            var atomic := AtomicRotate(s.db, pc.id, pc.current, pc.next, pc.at + cfg.refreshTtl, pc.at, pc.ttl);
            && t.procs[p].Done?
            && (t.procs[p].outcome.Refreshed? <==> atomic.Ok?)
            && t.db == if atomic.Ok? then atomic.value else s.db
  {
    ReachableInv(cfg, s);
    var pc := s.procs[p];
    assert ProcOk(s, p, pc);
    AtomicIffAlive(s, pc.id, pc.current, pc.next, pc.at + cfg.refreshTtl, pc.at, pc.ttl);
    ExecOutcome(cfg, s, p);
  }

  lemma AtomicIffAlive(s: System, id: SessionId, current: TokenHash, next: TokenHash, expiresAt: int, at: int, ttl: int)
    requires HashesOk(s) && at <= expiresAt
    ensures var atomic := AtomicRotate(s.db, id, current, next, expiresAt, at, ttl);
            && (atomic.Ok? <==> AliveWith(s.db, id, current))
            && (atomic.Ok? ==> IsBorn(s, id))
            && (atomic.Ok? ==> atomic.value == CommitRotate(s.db, id, s.ids[id].user, next, expiresAt, at, ttl))
  {
    ReadFacts(s, id);
  }

  lemma ExecOutcome(cfg: Config, s: System, p: Pid)
    requires p in s.procs && s.procs[p].RotateExec?
    ensures var pc := s.procs[p];
            var t := Apply(cfg, s, Run(p));
            && t.procs[p].Done?
            && (t.procs[p].outcome.Refreshed? <==> Version(s.db, pc.id) == pc.seen)
            && t.db == if Version(s.db, pc.id) == pc.seen
                       then CommitRotate(s.db, pc.id, pc.user, pc.next, pc.at + cfg.refreshTtl, pc.at, pc.ttl)
                       else s.db
  {
  }

  /** A Rotate that gives up at its read gives the error the atomic check-and-set gives at that instant. */
  lemma ReadIsAtomic(cfg: Config, s: System, p: Pid, ttl: int)
    requires Reachable(cfg, s) && p in s.procs && s.procs[p].RotateRead?
    ensures var pc := s.procs[p];
            var t := Apply(cfg, s, Run(p));
            var atomic := AtomicRotate(s.db, pc.id, pc.current, pc.next, pc.at + cfg.refreshTtl, pc.at, ttl);
            && t.db == s.db
            && (t.procs[p].Done? <==> atomic.Err?)
            && (atomic.Err? ==> t.procs[p] == Done(Failed(atomic.error)))
            && (atomic.Ok? ==> t.procs[p].RotateExec?)
  {
  }

  // ---------- A dead session stays dead ----------

  /** A session whose hash is not alive any more: gone, revoked, or a remnant that only carries revoked_at. */
  predicate Dead(s: System, id: SessionId) {
    IsBorn(s, id) && !Alive(s.db, id)
  }

  /** At most one rotation is added by a step, and it is not one of id. */
  ghost predicate NoNewRotation(s: System, t: System, id: SessionId) {
    t.rotations == s.rotations || exists r: Rotation :: t.rotations == s.rotations + [r] && r.id != id
  }

  lemma DeadStaysDead(cfg: Config, s: System, a: Action, id: SessionId)
    requires Inv(s) && Enabled(s, a) && Dead(s, id)
    ensures Dead(Apply(cfg, s, a), id) && NoNewRotation(s, Apply(cfg, s, a), id)
  {
    if a.Tick? {
      ElapseEvolves(s.db, a.seconds);
      assert IdEvolves(s.db, Elapse(s.db, a.seconds), id, None, "");
    } else if a.Run? {
      DeadThroughRun(cfg, s, a.p, id);
    }
  }

  lemma DeadThroughRun(cfg: Config, s: System, p: Pid, id: SessionId)
    requires Inv(s) && Enabled(s, Run(p)) && Dead(s, id)
    ensures Dead(Apply(cfg, s, Run(p)), id) && NoNewRotation(s, Apply(cfg, s, Run(p)), id)
  {
    var pc := s.procs[p];
    assert ProcOk(s, p, pc);
    if pc.CreateCommit? {
      DeadThroughCommit(s, p, pc, id);
    } else if pc.RotateExec? && Version(s.db, pc.id) == pc.seen {
      DeadThroughRotation(cfg, s, p, pc, id);
    } else {
      DeadThroughOther(s, p, pc, id);
    }
  }

  lemma DeadThroughCommit(s: System, p: Pid, pc: Pc, id: SessionId)
    requires Inv(s) && p in s.procs && s.procs[p] == pc && pc.CreateCommit? && Dead(s, id)
    ensures Dead(CommitSession(s, p, pc), id)
  {
    assert ProcOk(s, p, pc);
    CommitSessionAdds(s, p, pc);
    assert IdEvolves(s.db, CommitSession(s, p, pc).db, id, Some(pc.id), pc.s.token);
  }

  lemma DeadThroughOther(s: System, p: Pid, pc: Pc, id: SessionId)
    requires Inv(s) && p in s.procs && s.procs[p] == pc && Dead(s, id)
    ensures !Alive(NextDb(s.db, pc), id)
  {
    assert ProcOk(s, p, pc);
    NextDbKeeps(s, p, pc);
    assert IdEvolves(s.db, NextDb(s.db, pc), id, None, "");
  }

  lemma DeadThroughRotation(cfg: Config, s: System, p: Pid, pc: Pc, id: SessionId)
    requires pc.RotateExec? && MayCommit(s, p, pc) && Dead(s, id)
    ensures Dead(CommitRotation(cfg, s, p, pc), id) && NoNewRotation(s, CommitRotation(cfg, s, p, pc), id)
  {
    CommitRotationRotates(cfg, s, p, pc);
    assert IdEvolves(s.db, CommitRotation(cfg, s, p, pc).db, id, Some(pc.id), pc.next);
    assert Rotation(p, pc.id, pc.current, pc.next).id != id;
  }

  /** No rotation of t beyond the first n concerns id. */
  ghost predicate NotRotatedSince(t: System, n: nat, id: SessionId) {
    forall k :: n <= k < |t.rotations| ==> t.rotations[k].id != id
  }

  lemma {:induction false} DeadForever(cfg: Config, s: System, actions: seq<Action>, t: System, id: SessionId)
    requires Inv(s) && Dead(s, id) && Reaches(cfg, s, actions, t)
    ensures Dead(t, id) && NotRotatedSince(t, |s.rotations|, id) && s.rotations <= t.rotations
    decreases |actions|
  {
    var m := ReachesSplit(cfg, s, actions, t);
    if actions != [] {
      StepKeeps(cfg, s, actions[0]);
      DeadStaysDead(cfg, s, actions[0], id);
      DeadForever(cfg, m, actions[1..], t, id);
      NotRotatedThrough(s, m, t, id);
    }
  }

  lemma NotRotatedThrough(s: System, m: System, t: System, id: SessionId)
    requires NoNewRotation(s, m, id) && m.rotations <= t.rotations && NotRotatedSince(t, |m.rotations|, id)
    ensures NotRotatedSince(t, |s.rotations|, id) && s.rotations <= t.rotations
  {
    forall k | |s.rotations| <= k < |t.rotations| ensures t.rotations[k].id != id {
      if k < |m.rotations| {
        assert t.rotations[k] == m.rotations[k];
      }
    }
  }

  /** The session ids a process is about to mark as revoked. */
  function Revoking(pc: Pc): set<SessionId> {
    if pc.RevokeExec? then {pc.id} else if pc.RevokeAllExec? then pc.ids else {}
  }

  lemma DeadHasNoSession(t: System, id: SessionId)
    requires HashesOk(t) && Dead(t, id)
    ensures id in t.db.hashes ==> t.db.hashes[id].fields.revokedAt.Some?
    ensures Get(t.db, id).Ok? ==> Get(t.db, id).value.revokedAt.Some?
  {
    if id in t.db.hashes {
      assert HashOk(t, id);
    }
  }

  lemma RevokeStep(cfg: Config, s: System, p: Pid)
    requires p in s.procs && (s.procs[p].RevokeExec? || s.procs[p].RevokeAllExec?)
    ensures var t := Apply(cfg, s, Run(p));
            && t == s.(db := t.db, procs := t.procs)
            && t.db == Revoke(s.db, s.procs[p].user, Revoking(s.procs[p]), s.procs[p].at)
    ensures forall id :: id in Revoking(s.procs[p]) ==> !Alive(Apply(cfg, s, Run(p)).db, id)
  {
    var pc := s.procs[p];
    RevokeEvolves(s.db, pc.user, Revoking(pc), pc.at);
  }

  /**
   * Once revoked_at is written for an id, no Rotate of it completes in any continuation, and all
   * that can be found under its key is a revoked session or a remnant that does not parse.
   */
  lemma RevocationIsPermanent(cfg: Config, s: System, p: Pid, id: SessionId, actions: seq<Action>, t: System)
    requires Reachable(cfg, s) && Enabled(s, Run(p)) && id in Revoking(s.procs[p])
    requires Reaches(cfg, Apply(cfg, s, Run(p)), actions, t)
    ensures NotRotatedSince(t, |s.rotations|, id)
    ensures id in t.db.hashes ==> t.db.hashes[id].fields.revokedAt.Some?
    ensures Get(t.db, id).Ok? ==> Get(t.db, id).value.revokedAt.Some?
  {
    var m := Apply(cfg, s, Run(p));
    ReachableInv(cfg, s);
    RevokedNow(cfg, s, p, id);
    DeadForever(cfg, m, actions, t, id);
    RunKeeps(cfg, m, actions, t);
    DeadHasNoSession(t, id);
  }

  // ---------- The index agrees with the hashes ----------

  /**
   * A live session is missing from its user's index exactly when that key expired after the session was last
   * written.
   */
  lemma IndexAgreement(cfg: Config, s: System, id: SessionId)
    requires Reachable(cfg, s) && Alive(s.db, id)
    ensures IsBorn(s, id) && s.db.hashes[id].fields.user == Some(s.ids[id].user)
    ensures id !in s.orphans <==> id in Scores(s.db, s.ids[id].user)
    ensures id !in s.orphans ==> Indexed(s.db, id, s.ids[id].user, s.db.hashes[id].fields.expiresAt.value)
    ensures id in s.orphans ==> s.ids[id].user in s.lost
  {
    ReachableInv(cfg, s);
    InvIndexAgreement(s, id);
  }

  lemma InvIndexAgreement(s: System, id: SessionId)
    requires Inv(s) && Alive(s.db, id)
    ensures IsBorn(s, id) && s.db.hashes[id].fields.user == Some(s.ids[id].user)
    ensures id !in s.orphans ==> Indexed(s.db, id, s.ids[id].user, s.db.hashes[id].fields.expiresAt.value)
    ensures id in s.orphans ==> id !in Scores(s.db, s.ids[id].user) && s.ids[id].user in s.lost
  {
    assert HashOk(s, id) && Agrees(s, id);
    if id in s.orphans {
      assert OrphanOk(s, id);
    }
  }

  // ---------- Logout everywhere ----------

  lemma {:induction false} RevokeAllWaits(cfg: Config, s: System, actions: seq<Action>, t: System, p: Pid)
    requires Reaches(cfg, s, actions, t) && p in s.procs && (s.procs[p].RevokeAllExec? || s.procs[p].Done?)
    ensures p in t.procs && (t.procs[p] == s.procs[p] || t.procs[p].Done?)
    decreases |actions|
  {
    var m := ReachesSplit(cfg, s, actions, t);
    if actions != [] {
      RevokeAllWaitsOnce(cfg, s, actions[0], p);
      RevokeAllWaits(cfg, m, actions[1..], t, p);
    }
  }

  lemma RevokeAllWaitsOnce(cfg: Config, s: System, a: Action, p: Pid)
    requires Enabled(s, a) && p in s.procs && (s.procs[p].RevokeAllExec? || s.procs[p].Done?)
    ensures var t := Apply(cfg, s, a); p in t.procs && (t.procs[p] == s.procs[p] || t.procs[p].Done?)
  {
    if a.Run? && a.p != p {
      RunMovesOnlyItself(cfg, s, a.p, p);
    }
  }

  lemma RunMovesOnlyItself(cfg: Config, s: System, p: Pid, q: Pid)
    requires Enabled(s, Run(p)) && q in s.procs && q != p
    ensures q in Apply(cfg, s, Run(p)).procs && Apply(cfg, s, Run(p)).procs[q] == s.procs[q]
  {
  }

  /**
   * LogoutAll kills every session of the user that was live at its ZRANGE and in the index, for
   * good, whatever ran between the ZRANGE (in s) and the EXEC (in m) and whatever runs after it.
   */
  lemma LogoutAllCovers(cfg: Config, s: System, p: Pid, before: seq<Action>, m: System, after: seq<Action>, t: System,
                        id: SessionId)
    requires Reachable(cfg, s) && p in s.procs && s.procs[p].RevokeAllRange?
    requires Reaches(cfg, Apply(cfg, s, Run(p)), before, m) && p in m.procs && m.procs[p].RevokeAllExec?
    requires Reaches(cfg, Apply(cfg, m, Run(p)), after, t)
    requires Alive(s.db, id) && id !in s.orphans && OwnedBy(s, id, s.procs[p].user)
    ensures !Alive(t.db, id) && NotRotatedSince(t, |m.rotations|, id)
  {
    var ranged := RevokeAllRanged(cfg, s, p, id);
    RevokeAllWaits(cfg, ranged, before, m, p);
    ReachesReachable(cfg, ranged, before, m);
    ReachableInv(cfg, m);
    RevokedNow(cfg, m, p, id);
    DeadForever(cfg, Apply(cfg, m, Run(p)), after, t, id);
  }

  /** The ZRANGE sees every live session of the user that is no orphan. */
  lemma RevokeAllRanged(cfg: Config, s: System, p: Pid, id: SessionId) returns (t: System)
    requires Reachable(cfg, s) && p in s.procs && s.procs[p].RevokeAllRange?
    requires Alive(s.db, id) && id !in s.orphans && OwnedBy(s, id, s.procs[p].user)
    ensures t == Apply(cfg, s, Run(p)) && Reachable(cfg, t) && p in t.procs && t.procs[p].RevokeAllExec? &&
            id in t.procs[p].ids
  {
    RevokeAllRangeStep(cfg, s, p);
    IndexAgreement(cfg, s, id);
    StepReachable(cfg, s, Run(p));
    t := Apply(cfg, s, Run(p));
  }

  lemma RevokeAllRangeStep(cfg: Config, s: System, p: Pid)
    requires p in s.procs && s.procs[p].RevokeAllRange?
    ensures var t := Apply(cfg, s, Run(p));
            var all := Scores(s.db, s.procs[p].user).Keys;
            p in t.procs && t.procs[p] == if all == {} then Done(LoggedOut)
              else RevokeAllExec(s.procs[p].user, all, s.procs[p].at)
  {
  }

  /** Right after the EXEC of a revocation the sessions it lists are dead. */
  lemma RevokedNow(cfg: Config, s: System, p: Pid, id: SessionId)
    requires Inv(s) && Enabled(s, Run(p)) && id in Revoking(s.procs[p])
    ensures var t := Apply(cfg, s, Run(p)); Inv(t) && Dead(t, id) && t.rotations == s.rotations
  {
    assert ProcOk(s, p, s.procs[p]);
    StepKeeps(cfg, s, Run(p));
    RevokeStep(cfg, s, p);
  }

  /** The EXEC of LogoutAll touches nobody else: any other session is alive after it exactly if it was before. */
  lemma LogoutAllSparesOthers(cfg: Config, s: System, p: Pid, id: SessionId)
    requires p in s.procs && s.procs[p].RevokeAllExec? && id !in s.procs[p].ids
    ensures Alive(Apply(cfg, s, Run(p)).db, id) <==> Alive(s.db, id)
  {
    RevokeEvolves(s.db, s.procs[p].user, s.procs[p].ids, s.procs[p].at);
  }

  // ---------- What ends a session ----------

  /** The step is one that takes the session: its deadline, or a write by its own user, its own id or its own Rotate. */
  predicate Ends(s: System, a: Action, id: SessionId)
    requires Enabled(s, a) && id in s.db.hashes
  {
    match a
    case Tick(d) => Gone(s.db.hashes[id].deadline, s.db.now + d)
    case Run(p) =>
      var pc := s.procs[p];
      || (pc.CreatePurge? && id in pc.expired && OwnedBy(s, id, pc.s.user))
      || (pc.CreateEvict? && id == pc.oldest && OwnedBy(s, id, pc.s.user))
      || (pc.RevokeExec? && id == pc.id)
      || (pc.RevokeAllExec? && id in pc.ids && OwnedBy(s, id, pc.user))
      || (pc.RotateExec? && id == pc.id && Version(s.db, id) == pc.seen && pc.ttl <= 0)
    case _ => false
  }

  /**
   * A live session dies exactly when its deadline passes, a Create or LogoutAll of its own user takes it, a
   * Logout of its id is carried out, or a Rotate of it has no time to live left.  Nobody else can end it.
   */
  lemma SessionEndsIff(cfg: Config, s: System, a: Action, id: SessionId)
    requires Reachable(cfg, s) && Enabled(s, a) && Alive(s.db, id)
    ensures Alive(Apply(cfg, s, a).db, id) <==> !Ends(s, a, id)
  {
    ReachableInv(cfg, s);
    if a.Run? {
      var pc := s.procs[a.p];
      assert ProcOk(s, a.p, pc);
      if pc.CreateCommit? {
        assert HashOk(s, id);
        AliveThroughStore(s.db, pc.id, CreatedFields(pc.s), pc.ttl, id);
      } else if pc.RotateExec? && Version(s.db, pc.id) == pc.seen {
        RotateEndsIff(cfg, s, a.p, pc, id);
      } else {
        WriteEndsIff(s, a.p, pc, id);
      }
    }
  }

  lemma AliveThroughStore(db: Db, stored: SessionId, w: Fields, ttl: int, id: SessionId)
    requires Alive(db, id) && (id == stored ==> w.revokedAt.None?)
    ensures Alive(Expire(HSet(db, stored, w), stored, ttl), id) <==> id != stored || ttl > 0
  {
    HashStored(db, stored, w, ttl);
  }

  lemma RotateEndsIff(cfg: Config, s: System, p: Pid, pc: Pc, id: SessionId)
    requires pc.RotateExec? && Alive(s.db, id)
    ensures Alive(CommitRotation(cfg, s, p, pc).db, id) <==> id != pc.id || pc.ttl > 0
  {
    AliveThroughStore(s.db, pc.id, RotatedFields(pc.next, pc.at + cfg.refreshTtl, pc.at), pc.ttl, id);
  }

  lemma WriteEndsIff(s: System, p: Pid, pc: Pc, id: SessionId)
    requires Enabled(s, Run(p)) && s.procs[p] == pc && ProcOk(s, p, pc) && Alive(s.db, id) && !pc.CreateCommit?
    requires pc.RotateExec? ==> Version(s.db, pc.id) != pc.seen
    ensures Alive(NextDb(s.db, pc), id) <==> !Ends(s, Run(p), id)
  {
    if pc.RevokeExec? || pc.RevokeAllExec? {
      RevokeEvolves(s.db, pc.user, Revoking(pc), pc.at);
    }
  }
}
