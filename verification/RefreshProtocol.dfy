/**
 * The refresh service over the Redis store as a concurrent protocol.
 *
 * Every call in flight is a process with a program counter; one step of a process is one Redis
 * command or one MULTI/EXEC block, one reading of the clock, or one draw of random bytes.  Steps of
 * any number of processes, the passing of time and interrupted calls interleave freely.
 *
 * The fields of System after procs are history: no step reads them to decide what to do.
 * Hypotheses of the model: session ids and tokens that are drawn were never drawn before, different
 * tokens have different hashes (so fresh tokens are fresh hashes), and there is one clock in whole seconds.
 */
module RefreshProtocol {
  import opened Basics
  import opened Redis
  import opened RefreshSessions

  type Pid = nat

  datatype Config = Config(maxSessionsPerUser: nat, refreshTtl: int)

  datatype Pc =
    // createRefreshSession, then Create
    | CreateStart(id: SessionId, s: Session)
    | CreateClock(id: SessionId, s: Session, ttl: int)
    | CreateScan(id: SessionId, s: Session, ttl: int, cutoff: int)
    | CreatePurge(id: SessionId, s: Session, ttl: int, expired: set<SessionId>)
    | CreateCount(id: SessionId, s: Session, ttl: int)
    | CreatePick(id: SessionId, s: Session, ttl: int)
    | CreateEvict(id: SessionId, s: Session, ttl: int, oldest: SessionId)
    | CreateUnindex(id: SessionId, s: Session, ttl: int, oldest: SessionId)
    | CreateCommit(id: SessionId, s: Session, ttl: int)
    // Refresh, then Rotate
    | RefreshGet(id: SessionId, current: TokenHash, at: int)
    | RefreshDraw(id: SessionId, current: TokenHash, at: int)
    | RotateWatch(id: SessionId, current: TokenHash, next: TokenHash, at: int)
    | RotateRead(id: SessionId, current: TokenHash, next: TokenHash, at: int, seen: nat)
    | RotateExec(id: SessionId, current: TokenHash, next: TokenHash, at: int, seen: nat, user: UserId, ttl: int)
    // Logout, then RevokeSession
    | LogoutGet(id: SessionId, current: TokenHash, at: int)
    | RevokeGet(id: SessionId, at: int)
    | RevokeExec(id: SessionId, user: UserId, at: int)
    // LogoutAll, that is RevokeUserSessions
    | RevokeAllRange(user: UserId, at: int)
    | RevokeAllExec(user: UserId, ids: set<SessionId>, at: int)
    | Done(outcome: Outcome)

  datatype Outcome =
    | Created
    | Refreshed(nth: nat, presented: TokenHash)  // the nth success of the run, for the token presented
    | LoggedOut
    | Failed(error: Error)

  /** What has become of an id or a token that was drawn. */
  datatype IdState = Reserved(holder: Pid) | Born(user: UserId, first: TokenHash)
  datatype TokenState = Held(holder: Pid) | Stored(id: SessionId) | Consumed

  datatype Rotation = Rotation(holder: Pid, id: SessionId, current: TokenHash, next: TokenHash)

  datatype System = System(
    db: Db,
    procs: map<Pid, Pc>,
    ids: map<SessionId, IdState>,
    tokens: map<TokenHash, TokenState>,
    rotations: seq<Rotation>,           // the successful Rotates, in the order of their EXECs
    orphans: set<SessionId>,            // listed in an index key when it expired, and not rotated since
    lost: set<UserId>,                  // users whose index key has expired at least once
    readmitted: map<UserId, nat>)       // how often a Rotate added a member its user's index did not have,
                                        // counted since a Create last saw room in that index

  datatype Action =
    | Tick(seconds: nat)
    | BeginCreate(p: Pid, id: SessionId, s: Session)
    | BeginRefresh(p: Pid, id: SessionId, current: TokenHash, at: int)
    | BeginLogout(p: Pid, id: SessionId, current: TokenHash, at: int)
    | BeginLogoutAll(p: Pid, user: UserId, at: int)
    | Draw(p: Pid, next: TokenHash)
    | Run(p: Pid)
    | Interrupt(p: Pid)

  const START := System(Db(0, map[], map[], map[]), map[], map[], map[], [], {}, {}, map[])

  // ---------- Steps ----------

  predicate Enabled(s: System, a: Action) {
    match a
    case Tick(_) => true
    case BeginCreate(p, id, n) => p !in s.procs && id !in s.ids && n.token !in s.tokens
    case BeginRefresh(p, _, _, _) => p !in s.procs
    case BeginLogout(p, _, _, _) => p !in s.procs
    case BeginLogoutAll(p, _, _) => p !in s.procs
    case Draw(p, next) => p in s.procs && s.procs[p].RefreshDraw? && next !in s.tokens
    case Run(p) => p in s.procs && !s.procs[p].Done? && !s.procs[p].RefreshDraw?
    case Interrupt(p) => p in s.procs && !s.procs[p].Done?
  }

  function Apply(cfg: Config, s: System, a: Action): System
    requires Enabled(s, a)
  {
    match a
    case Tick(d) => Pass(s, d)
    case BeginCreate(p, id, n) =>
      Goto(s, p, CreateStart(id, n)).(ids := s.ids[id := Reserved(p)], tokens := s.tokens[n.token := Held(p)])
    case BeginRefresh(p, id, current, at) => Goto(s, p, RefreshGet(id, current, at))
    case BeginLogout(p, id, current, at) => Goto(s, p, LogoutGet(id, current, at))
    case BeginLogoutAll(p, user, at) => Goto(s, p, RevokeAllRange(user, at))
    case Draw(p, next) =>
      var pc := s.procs[p];
      Goto(s, p, RotateWatch(pc.id, pc.current, next, pc.at)).(tokens := s.tokens[next := Held(p)])
    case Interrupt(p) => Goto(s, p, Done(Failed(Interrupted)))
    case Run(p) =>
      var pc := s.procs[p];
      if pc.CreateCommit? then CommitSession(s, p, pc)
      else if pc.RotateExec? && Version(s.db, pc.id) == pc.seen then CommitRotation(cfg, s, p, pc)
      else Moved(s, p, NextPc(cfg, s.db, pc), NextDb(s.db, pc))
  }

  function Goto(s: System, p: Pid, pc: Pc): System {
    s.(procs := s.procs[p := pc])
  }

  /** A step of p to pc that leaves db; a Create that has seen room starts the count of readmissions anew. */
  function Moved(s: System, p: Pid, pc: Pc, db: Db): System {
    Goto(s, p, pc).(db := db, readmitted := if pc.CreateCommit? then s.readmitted[pc.s.user := 0] else s.readmitted)
  }

  /** Time passes; the index keys that run out leave their members behind as orphans. */
  function Pass(s: System, d: nat): System {
    var db := Elapse(s.db, d);
    var emptied := set user | user in s.db.index && user !in db.index;
    s.(db := db,
       lost := s.lost + emptied,
       orphans := s.orphans + set user, id | user in emptied && id in s.db.index[user].scores :: id)
  }

  predicate InCreate(pc: Pc) {
    pc.CreateStart? || pc.CreateClock? || pc.CreateScan? || pc.CreatePurge? || pc.CreateCount? || pc.CreatePick? ||
    pc.CreateEvict? || pc.CreateUnindex? || pc.CreateCommit?
  }

  predicate InRefresh(pc: Pc) {
    pc.RefreshGet? || pc.RotateWatch? || pc.RotateRead? || pc.RotateExec?
  }

  /** Where a process goes, from what its step reads. */
  function NextPc(cfg: Config, db: Db, pc: Pc): Pc {
    if InCreate(pc) then CreatePc(cfg, db, pc)
    else if InRefresh(pc) then RefreshPc(cfg, db, pc)
    else RevokePc(db, pc)
  }

  /** What a step writes, when it is not one of the two transactions that store a session. */
  function NextDb(db: Db, pc: Pc): Db {
    match pc
    case CreatePurge(_, n, _, expired) => Purge(db, n.user, expired)
    case CreateEvict(_, _, _, oldest) => Del(db, oldest)
    case CreateUnindex(_, n, _, oldest) => ZRem(db, n.user, {oldest})
    case RevokeExec(id, user, at) => Revoke(db, user, {id}, at)
    case RevokeAllExec(user, ids, at) => Revoke(db, user, ids, at)
    case _ => db
  }

  function CreatePc(cfg: Config, db: Db, pc: Pc): Pc
    requires InCreate(pc)
  {
    match pc
    case CreateStart(id, n) =>
      var ttl := n.expiresAt - db.now;
      if id == "" || n.user == "" || n.token == "" then Done(Failed(InvalidSession))
      else if ttl <= 0 then Done(Failed(ExpirationPast))
      else CreateClock(id, n, ttl)
    case CreateClock(id, n, ttl) => CreateScan(id, n, ttl, db.now - 1)
    case CreateScan(id, n, ttl, cutoff) =>
      var expired := ZBelow(db, n.user, cutoff);
      if expired == {} then CreateCount(id, n, ttl) else CreatePurge(id, n, ttl, expired)
    case CreatePurge(id, n, ttl, _) => CreateCount(id, n, ttl)
    case CreateCount(id, n, ttl) =>
      if ZCard(db, n.user) < cfg.maxSessionsPerUser then CreateCommit(id, n, ttl) else CreatePick(id, n, ttl)
    case CreatePick(id, n, ttl) =>
      var first := ZFirst(db, n.user);
      if first.None? then CreateCommit(id, n, ttl) else CreateEvict(id, n, ttl, first.value)
    case CreateEvict(id, n, ttl, oldest) => CreateUnindex(id, n, ttl, oldest)
    case CreateUnindex(id, n, ttl, _) => CreateCount(id, n, ttl)
    case CreateCommit(_, _, _) => Done(Created)
  }

  /** What Refresh requires of the session it reads, before it draws the next token. */
  function RefreshChecks(read: Result<Session, Error>, current: TokenHash, at: int): Result<Session, Error> {
    if read.Err? then read
    else if read.value.revokedAt.Some? then Err(Revoked)
    else if read.value.expiresAt < at then Err(NotFound)
    else if read.value.token != current then Err(TokenMismatch)
    else read
  }

  function RefreshPc(cfg: Config, db: Db, pc: Pc): Pc
    requires InRefresh(pc)
  {
    match pc
    case RefreshGet(id, current, at) =>
      var read := RefreshChecks(Get(db, id), current, at);
      if read.Err? then Done(Failed(read.error)) else RefreshDraw(id, current, at)
    case RotateWatch(id, current, next, at) =>
      if next == "" then Done(Failed(NextTokenRequired)) else RotateRead(id, current, next, at, Version(db, id))
    case RotateRead(id, current, next, at, seen) =>
      var expiresAt := at + cfg.refreshTtl;
      var read := RotateChecks(Get(db, id), current, expiresAt, at);
      if read.Err? then Done(Failed(read.error))
      else RotateExec(id, current, next, at, seen, read.value.user, expiresAt - db.now)
    case RotateExec(_, _, _, _, _, _, _) => Done(Failed(ConcurrentUpdate))
  }

  function RevokePc(db: Db, pc: Pc): Pc {
    match pc
    case LogoutGet(id, current, at) =>
      var read := Get(db, id);
      if read.Err? then Done(Failed(read.error))
      else if read.value.token != current then Done(Failed(TokenMismatch))
      else RevokeGet(id, at)
    case RevokeGet(id, at) =>
      var read := Get(db, id);
      if read.Err? then Done(Failed(read.error)) else RevokeExec(id, read.value.user, at)
    case RevokeAllRange(user, at) =>
      var ids := Scores(db, user).Keys;
      if ids == {} then Done(LoggedOut) else RevokeAllExec(user, ids, at)
    case _ => Done(LoggedOut)
  }

  /** The transaction that ends a Create. */
  function CommitSession(s: System, p: Pid, pc: Pc): System
    requires pc.CreateCommit?
  {
    Goto(s, p, Done(Created)).(
      db := CommitCreate(s.db, pc.id, pc.s, pc.ttl),
      ids := s.ids[pc.id := Born(pc.s.user, pc.s.token)],
      tokens := s.tokens[pc.s.token := Stored(pc.id)])
  }

  /** The transaction that ends a Rotate, when nothing has touched the watched key. */
  function CommitRotation(cfg: Config, s: System, p: Pid, pc: Pc): System
    requires pc.RotateExec?
  {
    Goto(s, p, Done(Refreshed(|s.rotations|, pc.current))).(
      db := CommitRotate(s.db, pc.id, pc.user, pc.next, pc.at + cfg.refreshTtl, pc.at, pc.ttl),
      tokens := s.tokens[pc.current := Consumed][pc.next := Stored(pc.id)],
      rotations := s.rotations + [Rotation(p, pc.id, pc.current, pc.next)],
      orphans := s.orphans - {pc.id},
      readmitted := if pc.id in Scores(s.db, pc.user) then s.readmitted
                    else s.readmitted[pc.user := Readmitted(s, pc.user) + 1])
  }

  function Readmitted(s: System, user: UserId): nat {
    if user in s.readmitted then s.readmitted[user] else 0
  }

  // ---------- Runs ----------

  ghost predicate StepTo(cfg: Config, s: System, a: Action, t: System) {
    Enabled(s, a) && t == Apply(cfg, s, a)
  }

  ghost predicate StepAt(cfg: Config, actions: seq<Action>, path: seq<System>, i: nat)
    requires i < |actions| && i + 1 < |path|
  {
    StepTo(cfg, path[i], actions[i], path[i + 1])
  }

  ghost predicate IsPath(cfg: Config, actions: seq<Action>, path: seq<System>) {
    |path| == |actions| + 1 && forall i: nat :: i < |actions| ==> StepAt(cfg, actions, path, i)
  }

  /** The actions lead from s to t. */
  ghost predicate Reaches(cfg: Config, s: System, actions: seq<Action>, t: System) {
    exists path :: IsPath(cfg, actions, path) && path[0] == s && path[|actions|] == t
  }

  ghost predicate Reachable(cfg: Config, s: System) {
    exists actions :: Reaches(cfg, START, actions, s)
  }

  lemma NoAction(cfg: Config, s: System)
    ensures Reaches(cfg, s, [], s)
  {
    assert IsPath(cfg, [], [s]);
  }

  lemma OneAction(cfg: Config, s: System, a: Action, t: System)
    requires StepTo(cfg, s, a, t)
    ensures Reaches(cfg, s, [a], t)
  {
    assert StepAt(cfg, [a], [s, t], 0);
    assert IsPath(cfg, [a], [s, t]);
  }

  lemma ReachesThen(cfg: Config, s: System, first: seq<Action>, m: System, second: seq<Action>, t: System)
    requires Reaches(cfg, s, first, m) && Reaches(cfg, m, second, t)
    ensures Reaches(cfg, s, first + second, t)
  {
    var p :| IsPath(cfg, first, p) && p[0] == s && p[|first|] == m;
    var q :| IsPath(cfg, second, q) && q[0] == m && q[|second|] == t;
    var path := p + q[1..];
    forall i: nat | i < |first + second|
      ensures StepAt(cfg, first + second, path, i)
    {
      if i < |first| {
        assert StepAt(cfg, first, p, i);
      } else {
        assert StepAt(cfg, second, q, i - |first|);
        assert path[i] == q[i - |first|];
      }
    }
    assert IsPath(cfg, first + second, path);
  }

  /** A run is empty, or a step and a run. */
  lemma ReachesSplit(cfg: Config, s: System, actions: seq<Action>, t: System) returns (m: System)
    requires Reaches(cfg, s, actions, t)
    ensures actions == [] ==> s == t
    ensures actions != [] ==> StepTo(cfg, s, actions[0], m) && Reaches(cfg, m, actions[1..], t)
  {
    var path :| IsPath(cfg, actions, path) && path[0] == s && path[|actions|] == t;
    m := t;
    if actions != [] {
      m := path[1];
      assert StepAt(cfg, actions, path, 0);
      forall i: nat | i < |actions[1..]|
        ensures StepAt(cfg, actions[1..], path[1..], i)
      {
        assert StepAt(cfg, actions, path, i + 1);
      }
      assert IsPath(cfg, actions[1..], path[1..]);
    }
  }

  lemma StepReachable(cfg: Config, s: System, a: Action)
    requires Reachable(cfg, s) && Enabled(s, a)
    ensures Reachable(cfg, Apply(cfg, s, a))
  {
    ReachableStep(cfg, s, a, Apply(cfg, s, a));
  }

  lemma ReachableStep(cfg: Config, s: System, a: Action, t: System)
    requires Reachable(cfg, s) && StepTo(cfg, s, a, t)
    ensures Reachable(cfg, t)
  {
    var actions :| Reaches(cfg, START, actions, s);
    OneAction(cfg, s, a, t);
    ReachesThen(cfg, START, actions, s, [a], t);
  }

  lemma ReachesReachable(cfg: Config, s: System, actions: seq<Action>, t: System)
    requires Reachable(cfg, s) && Reaches(cfg, s, actions, t)
    ensures Reachable(cfg, t)
  {
    var first :| Reaches(cfg, START, first, s);
    ReachesThen(cfg, START, first, s, actions, t);
  }

  /** The actions lead from s to t by steps that all satisfy ok. */
  ghost predicate ReachesBy(cfg: Config, s: System, actions: seq<Action>, t: System,
                            ok: (System, Action, System) -> bool)
    decreases |actions|
  {
    if actions == [] then s == t
    else
      && Enabled(s, actions[0])
      && ok(s, actions[0], Apply(cfg, s, actions[0]))
      && ReachesBy(cfg, Apply(cfg, s, actions[0]), actions[1..], t, ok)
  }

  lemma {:induction false} ReachesByReachable(cfg: Config, s: System, actions: seq<Action>, t: System,
                                              ok: (System, Action, System) -> bool)
    requires Reachable(cfg, s) && ReachesBy(cfg, s, actions, t, ok)
    ensures Reachable(cfg, t)
    decreases |actions|
  {
    if actions != [] {
      StepReachable(cfg, s, actions[0]);
      ReachesByReachable(cfg, Apply(cfg, s, actions[0]), actions[1..], t, ok);
    }
  }
}
