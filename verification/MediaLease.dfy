/**
 * Any number of workers at once, and anybody who writes to the log besides them: what the lease lock guarantees,
 * and under which timing.
 */
module MediaLease {
  import opened Basics
  import opened Text
  import opened MediaWorker
  import DecisionLog

  /** A worker's call of the log goes by the number of the worker. */
  type Pid = DecisionLog.Pid

  const HALF := Finite(0.5)

  /** How far a call holding the lock has got. */
  datatype Stage =
    | Locked
    | Running(n: nat)
    | Captured(n: nat)
    | Classified(n: nat, c: Classification)
    | Recording(n: nat)  // its call of the log is on its way or over
    | Leaving  // only the deferred release is left

  datatype Pc =
    | Waiting(id: string, ttl: int, minConfidence: Float)
    | Holding(id: string, until: int, minConfidence: Float, stage: Stage)
    | Released(id: string)
    | Busy
    | Nameless

  datatype State = State(now: int, locks: Locks, procs: map<Pid, Pc>, runs: nat, log: DecisionLog.State)

  datatype Action =
    | Call(p: Pid, streamerId: string, ttl: int, minConfidence: Float)
    | TryLock(p: Pid)
    | CreateRun(p: Pid, fails: bool)
    | Capture(p: Pid, fails: bool)
    | Classify(p: Pid, result: Option<Classification>)
    | Record(p: Pid)
    | Log(step: DecisionLog.Action)  // of a worker's call, or of one by somebody who takes no lease
    | Return(p: Pid)
    | Unlock(p: Pid)
    | Tick(seconds: nat)

  predicate Holds(s: State, p: Pid, id: string) {
    p in s.procs && s.procs[p].Holding? && s.procs[p].id == id
  }

  predicate AtStage(s: State, p: Pid) {
    p in s.procs && s.procs[p].Holding?
  }

  predicate Enabled(s: State, a: Action) {
    match a
    case Call(p, _, ttl, _) => p !in s.procs && p !in s.log.procs && ttl > 0
    case TryLock(p) => p in s.procs && s.procs[p].Waiting?
    case CreateRun(p, _) => AtStage(s, p) && s.procs[p].stage.Locked?
    case Capture(p, _) => AtStage(s, p) && s.procs[p].stage.Running?
    case Classify(p, _) => AtStage(s, p) && s.procs[p].stage.Captured?
    case Record(p) => AtStage(s, p) && s.procs[p].stage.Classified? && p !in s.log.procs
    case Log(step) => DecisionLog.Enabled(s.log, step) && (step.Begin? ==> step.p !in s.procs)
    case Return(p) => AtStage(s, p) && s.procs[p].stage.Recording? && p in s.log.procs && Over(s.log.procs[p])
    case Unlock(p) => AtStage(s, p) && s.procs[p].stage.Leaving?
    case Tick(_) => true
  }

  predicate Over(call: DecisionLog.Pc) {
    call.Recorded? || call.Refused?
  }

  function AtNext(s: State, p: Pid, stage: Stage): State
    requires AtStage(s, p)
  {
    s.(procs := s.procs[p := s.procs[p].(stage := stage)])
  }

  /** What the worker sends to the log. */
  function Sent(pc: Pc): DecisionLog.Request
    requires pc.Holding? && pc.stage.Classified?
  {
    RequestFor(pc.id, pc.stage.n, pc.stage.c, pc.minConfidence)
  }

  function Apply(s: State, a: Action): State
    requires Enabled(s, a)
  {
    match a
    case Call(p, streamerId, ttl, minConfidence) =>
      var id := TrimSpace(streamerId);
      s.(procs := s.procs[p := if id == "" then Nameless else Waiting(id, ttl, minConfidence)])
    case TryLock(p) =>
      var pc := s.procs[p];
      if Held(s.locks, LockKey(pc.id), s.now) then s.(procs := s.procs[p := Busy])
      else
        var until := s.now + pc.ttl;
        s.(locks := s.locks[LockKey(pc.id) := until],
           procs := s.procs[p := Holding(pc.id, until, pc.minConfidence, Locked)])
    case CreateRun(p, fails) =>
      if fails then AtNext(s, p, Leaving) else AtNext(s, p, Running(s.runs + 1)).(runs := s.runs + 1)
    case Capture(p, fails) =>
      AtNext(s, p, if fails then Leaving else Captured(s.procs[p].stage.n))
    case Classify(p, result) =>
      AtNext(s, p, if result.None? then Leaving else Classified(s.procs[p].stage.n, result.value))
    case Record(p) =>
      AtNext(s, p, Recording(s.procs[p].stage.n)).(
        log := DecisionLog.Apply(s.log, DecisionLog.Begin(p, Sent(s.procs[p]))))
    case Log(step) => s.(log := DecisionLog.Apply(s.log, step))
    case Return(p) => AtNext(s, p, Leaving)
    case Unlock(p) =>
      s.(locks := s.locks - {LockKey(s.procs[p].id)}, procs := s.procs[p := Released(s.procs[p].id)])
    case Tick(seconds) => s.(now := s.now + seconds)
  }

  function Start(now: int): State {
    State(now, map[], map[], 0, DecisionLog.START)
  }

  // ---------- How workers and their calls of the log belong together ----------

  /** A call of the log that has not appended yet, for that run of the streamer. */
  predicate CallOk(call: DecisionLog.Pc, id: string, n: nat) {
    && (call.Started? ==> call.req.streamerId == id && call.req.runId == RunId(id, n) && DecisionLog.Clean(call.req))
    && (call.Numbered? ==> call.item.streamerId == id && call.item.runId == RunId(id, n))
  }

  predicate WorkerOk(pc: Pc, log: DecisionLog.State, p: Pid) {
    && (pc.Waiting? || pc.Holding? ==> Trimmed(pc.id) && pc.id != "")
    && if pc.Holding? && pc.stage.Recording? then p in log.procs && CallOk(log.procs[p], pc.id, pc.stage.n)
       else p in log.procs ==> Over(log.procs[p]) && (pc.Released? || (pc.Holding? && pc.stage.Leaving?))
  }

  ghost predicate Linked(s: State) {
    DecisionLog.Inv(s.log) &&
    forall p {:trigger WorkerOk(s.procs[p], s.log, p)} :: p in s.procs ==> WorkerOk(s.procs[p], s.log, p)
  }

  /** A step that leaves the log alone moves one worker at most. */
  lemma MoveKeepsLinked(s: State, t: State, p: Pid, pc: Pc)
    requires Linked(s) && t.log == s.log && t.procs == s.procs[p := pc] && WorkerOk(pc, s.log, p)
    ensures Linked(t)
  {
    forall q | q in t.procs ensures WorkerOk(t.procs[q], t.log, q) {
      assert q != p ==> WorkerOk(s.procs[q], s.log, q);
    }
  }

  lemma CallKeepsLinked(s: State, a: Action)
    requires Linked(s) && Enabled(s, a) && (a.Call? || a.Tick?)
    ensures Linked(Apply(s, a))
  {
    if a.Call? {
      TrimSpaceTrims(a.streamerId);
      MoveKeepsLinked(s, Apply(s, a), a.p, Apply(s, a).procs[a.p]);
    } else {
      forall q | q in s.procs ensures WorkerOk(Apply(s, a).procs[q], Apply(s, a).log, q) {
        assert WorkerOk(s.procs[q], s.log, q);
      }
    }
  }

  lemma WorkerKeepsLinked(s: State, a: Action)
    requires Linked(s) && Enabled(s, a) && !a.Call? && !a.Record? && !a.Log? && !a.Tick?
    ensures Linked(Apply(s, a))
  {
    assert WorkerOk(s.procs[a.p], s.log, a.p);
    MoveKeepsLinked(s, Apply(s, a), a.p, Apply(s, a).procs[a.p]);
  }

  lemma RecordKeepsLinked(s: State, p: Pid)
    requires Linked(s) && Enabled(s, Record(p))
    ensures Linked(Apply(s, Record(p)))
  {
    var pc, t := s.procs[p], Apply(s, Record(p));
    assert WorkerOk(pc, s.log, p);
    OnlyConfidenceIsRefused(pc.id, pc.stage.n, pc.stage.c, pc.minConfidence);
    Begun(s, t, p, Sent(pc));
  }

  lemma Begun(s: State, t: State, p: Pid, req: DecisionLog.Request)
    requires Linked(s) && Enabled(s, Record(p)) && WorkerOk(s.procs[p], s.log, p) && DecisionLog.Clean(req)
    requires req.streamerId == s.procs[p].id && req.runId == RunId(s.procs[p].id, s.procs[p].stage.n)
    requires t == AtNext(s, p, Recording(s.procs[p].stage.n)).(
                    log := DecisionLog.Apply(s.log, DecisionLog.Begin(p, req)))
    ensures Linked(t)
  {
    DecisionLog.BeginKeeps(s.log, p, req);
    forall q | q in t.procs ensures WorkerOk(t.procs[q], t.log, q) {
      assert q != p ==> WorkerOk(s.procs[q], s.log, q);
    }
  }

  lemma LogKeepsLinked(s: State, step: DecisionLog.Action)
    requires Linked(s) && Enabled(s, Log(step))
    ensures Linked(Apply(s, Log(step)))
  {
    var t := Apply(s, Log(step));
    DecisionLog.StepKeeps(s.log, step);
    if step.DrawNumber? {
      DecisionLog.DrawEffect(s.log, step.p, step.now);
    }
    forall q | q in t.procs ensures WorkerOk(t.procs[q], t.log, q) {
      assert WorkerOk(s.procs[q], s.log, q);
    }
  }

  lemma StepKeepsLinked(s: State, a: Action)
    requires Linked(s) && Enabled(s, a)
    ensures Linked(Apply(s, a))
  {
    match a {
      case Record(p) => RecordKeepsLinked(s, p);
      case Log(step) => LogKeepsLinked(s, step);
      case Call(_, _, _, _) => CallKeepsLinked(s, a);
      case Tick(_) => CallKeepsLinked(s, a);
      case _ => WorkerKeepsLinked(s, a);
    }
  }

  // ---------- Runs in which every holder of a key is in time ----------

  /** Every worker that holds the streamer is still before the deadline it took the lock with. */
  ghost predicate InTime(s: State, id: string) {
    forall p :: Holds(s, p, id) ==> s.now < s.procs[p].until
  }

  /**
   * A run from s to t in which every holder of the streamer is in time at every state. Workers of other
   * streamers need not be.
   */
  ghost predicate TimelyRun(s: State, actions: seq<Action>, t: State, id: string)
    decreases |actions|
  {
    InTime(s, id) &&
    if actions == [] then s == t else Enabled(s, actions[0]) && TimelyRun(Apply(s, actions[0]), actions[1..], t, id)
  }

  ghost predicate Exclusive(s: State, id: string) {
    forall p, q :: Holds(s, p, id) && Holds(s, q, id) ==> p == q
  }

  /** The lock table agrees with who is holding the streamer. */
  ghost predicate LockAgrees(s: State, id: string) {
    && (forall p :: Holds(s, p, id) ==> LockKey(id) in s.locks && s.locks[LockKey(id)] == s.procs[p].until)
    && (LockKey(id) in s.locks ==> exists p :: Holds(s, p, id))
  }

  function RunOf(stage: Stage): Option<nat> {
    match stage
    case Running(n) => Some(n)
    case Captured(n) => Some(n)
    case Classified(n, _) => Some(n)
    case Recording(n) => Some(n)
    case _ => None
  }

  function Items(s: State, id: string): seq<DecisionLog.Decision> {
    DecisionLog.ItemsOf(s.log.decisions, id)
  }

  function Owners(s: State, id: string): seq<Pid> {
    DecisionLog.OwnersOf(s.log, id)
  }

  /** Entry i of the streamer was recorded by a worker. */
  predicate ByWorker(s: State, id: string, i: int) {
    0 <= i < |Items(s, id)| && i < |Owners(s, id)| && Owners(s, id)[i] in s.procs
  }

  function RunAt(s: State, id: string, i: nat): nat
    requires i < |Items(s, id)|
  {
    RunIn(id, Items(s, id)[i].runId)
  }

  function NumberAt(s: State, id: string, i: nat): nat
    requires i < |Items(s, id)|
  {
    DecisionLog.NumberIn(Items(s, id)[i].id)
  }

  /** What workers have recorded is in the order both of their runs and of its own numbers. */
  ghost predicate EntriesAgree(s: State, id: string) {
    && (forall i, j :: i < j && ByWorker(s, id, i) && ByWorker(s, id, j) ==>
          RunAt(s, id, i) < RunAt(s, id, j) && NumberAt(s, id, i) < NumberAt(s, id, j))
    && (forall i :: ByWorker(s, id, i) ==>
          RunAt(s, id, i) <= s.runs && Items(s, id)[i].runId == RunId(id, RunAt(s, id, i)))
  }

  /** The run of a holder is newer than all that other workers have recorded, and so is the number it has drawn. */
  ghost predicate HolderAgrees(s: State, id: string, p: Pid)
    requires p in s.procs && s.procs[p].Holding?
  {
    var run := RunOf(s.procs[p].stage);
    && (run.Some? ==> run.value <= s.runs)
    && (forall i :: run.Some? && ByWorker(s, id, i) && Owners(s, id)[i] != p ==> RunAt(s, id, i) < run.value)
    && (forall i :: DecisionLog.Pending(s.log, p, id) && ByWorker(s, id, i) ==>
          NumberAt(s, id, i) < s.log.procs[p].n)
  }

  ghost predicate OrderAgrees(s: State, id: string) {
    EntriesAgree(s, id) && forall p {:trigger Holds(s, p, id)} :: Holds(s, p, id) ==> HolderAgrees(s, id, p)
  }

  ghost predicate Inv(s: State, id: string) {
    Linked(s) && Exclusive(s, id) && LockAgrees(s, id) && OrderAgrees(s, id)
  }

  lemma KeysDiffer(a: string, b: string)
    ensures LockKey(a) == LockKey(b) <==> a == b
  {
    assert LockKey(a)[|LockKey("")|..] == a && LockKey(b)[|LockKey("")|..] == b;
  }

  // ---------- Every step keeps the invariant ----------

  /** The workers have recorded the same, possibly with entries of others behind it. */
  ghost predicate SameEntries(s: State, t: State, id: string) {
    && Items(s, id) <= Items(t, id) && |Owners(s, id)| == |Items(s, id)| && Owners(s, id) <= Owners(t, id)
    && (forall i :: ByWorker(t, id, i) <==> ByWorker(s, id, i))
  }

  /** Nothing that concerns the streamer has changed, except that a holder may have given up its run. */
  ghost predicate Unconcerned(s: State, t: State, id: string) {
    && (forall p :: Holds(s, p, id) <==> Holds(t, p, id))
    && (forall p :: Holds(s, p, id) ==> t.procs[p].until == s.procs[p].until)
    && (forall p :: Holds(s, p, id) ==> RunOf(t.procs[p].stage) in {None, RunOf(s.procs[p].stage)})
    && (forall p :: Holds(s, p, id) && DecisionLog.Pending(t.log, p, id) ==>
          DecisionLog.Pending(s.log, p, id) && t.log.procs[p] == s.log.procs[p])
    && (LockKey(id) in s.locks <==> LockKey(id) in t.locks)
    && (LockKey(id) in s.locks ==> t.locks[LockKey(id)] == s.locks[LockKey(id)])
    && SameEntries(s, t, id) && s.runs <= t.runs
  }

  lemma SameAt(s: State, t: State, id: string, i: int)
    requires SameEntries(s, t, id) && ByWorker(t, id, i)
    ensures ByWorker(s, id, i) && RunAt(t, id, i) == RunAt(s, id, i) && NumberAt(t, id, i) == NumberAt(s, id, i)
    ensures Items(t, id)[i] == Items(s, id)[i] && Owners(t, id)[i] == Owners(s, id)[i]
  {
  }

  lemma EntriesKept(s: State, t: State, id: string)
    requires EntriesAgree(s, id) && SameEntries(s, t, id) && s.runs <= t.runs
    ensures EntriesAgree(t, id)
  {
    forall i, j | i < j && ByWorker(t, id, i) && ByWorker(t, id, j)
      ensures RunAt(t, id, i) < RunAt(t, id, j) && NumberAt(t, id, i) < NumberAt(t, id, j)
    {
      SameAt(s, t, id, i);
      SameAt(s, t, id, j);
    }
    forall i | ByWorker(t, id, i)
      ensures RunAt(t, id, i) <= t.runs && Items(t, id)[i].runId == RunId(id, RunAt(t, id, i))
    {
      SameAt(s, t, id, i);
    }
  }

  lemma HolderKept(s: State, t: State, id: string, p: Pid)
    requires Holds(s, p, id) && Holds(t, p, id) && HolderAgrees(s, id, p) && Unconcerned(s, t, id)
    ensures HolderAgrees(t, id, p)
  {
    forall i | ByWorker(t, id, i)
      ensures RunOf(t.procs[p].stage).Some? && Owners(t, id)[i] != p ==>
                RunAt(t, id, i) < RunOf(t.procs[p].stage).value
      ensures DecisionLog.Pending(t.log, p, id) ==> NumberAt(t, id, i) < t.log.procs[p].n
    {
      SameAt(s, t, id, i);
    }
  }

  lemma UnconcernedKeeps(s: State, t: State, id: string)
    requires Inv(s, id) && Linked(t) && Unconcerned(s, t, id)
    ensures Inv(t, id)
  {
    EntriesKept(s, t, id);
    forall p | Holds(t, p, id) ensures HolderAgrees(t, id, p) {
      HolderKept(s, t, id, p);
    }
    assert OrderAgrees(t, id);
  }

  /** Entries are by workers or not whoever else has started since. */
  lemma EntriesStay(s: State, t: State, id: string)
    requires Linked(s) && t.log.decisions == s.log.decisions && t.log.owners == s.log.owners
    requires forall p :: p in s.log.procs ==> (p in s.procs <==> p in t.procs)
    ensures SameEntries(s, t, id)
  {
    forall i ensures ByWorker(t, id, i) <==> ByWorker(s, id, i) {
      if 0 <= i < |Items(s, id)| {
        assert DecisionLog.PlaceOk(s.log, id, i);
      }
    }
  }

  /** The steps that can change who holds the streamer, or the runs and numbers that count for it. */
  predicate Concerns(s: State, a: Action, id: string)
    requires Enabled(s, a)
  {
    match a
    case TryLock(p) => s.procs[p].id == id && !Held(s.locks, LockKey(id), s.now)
    case CreateRun(p, fails) => s.procs[p].id == id && !fails
    case Log(DrawNumber(p, _)) => Holds(s, p, id)
    case Log(Append(p)) => p in s.procs && s.log.procs[p].item.streamerId == id
    case Unlock(p) => s.procs[p].id == id
    case _ => false
  }

  lemma OthersAreUnconcerned(s: State, a: Action, id: string)
    requires Linked(s) && Enabled(s, a) && !Concerns(s, a, id)
    ensures Unconcerned(s, Apply(s, a), id)
  {
    match a {
      case Log(step) => LogUnconcerned(s, step, id);
      case Record(p) => RecordUnconcerned(s, p, Sent(s.procs[p]), Apply(s, a), id);
      case _ => MoveUnconcerned(s, a, id);
    }
  }

  lemma MoveUnconcerned(s: State, a: Action, id: string)
    requires Linked(s) && Enabled(s, a) && !a.Log? && !a.Record? && !Concerns(s, a, id)
    ensures Unconcerned(s, Apply(s, a), id)
  {
    if a.TryLock? || a.Unlock? {
      LockUnconcerned(s, a, id);
    } else {
      EntriesStay(s, Apply(s, a), id);
    }
  }

  lemma LockUnconcerned(s: State, a: Action, id: string)
    requires Linked(s) && Enabled(s, a) && (a.TryLock? || a.Unlock?) && !Concerns(s, a, id)
    ensures Unconcerned(s, Apply(s, a), id)
  {
    EntriesStay(s, Apply(s, a), id);
    KeysDiffer(s.procs[a.p].id, id);
  }

  lemma RecordUnconcerned(s: State, p: Pid, req: DecisionLog.Request, t: State, id: string)
    requires Linked(s) && Enabled(s, Record(p))
    requires t == AtNext(s, p, Recording(s.procs[p].stage.n)).(
                    log := DecisionLog.Apply(s.log, DecisionLog.Begin(p, req)))
    ensures Unconcerned(s, t, id)
  {
    EntriesStay(s, t, id);
  }

  lemma LogUnconcerned(s: State, step: DecisionLog.Action, id: string)
    requires Linked(s) && Enabled(s, Log(step)) && !Concerns(s, Log(step), id)
    ensures Unconcerned(s, Apply(s, Log(step)), id)
  {
    var t := Apply(s, Log(step));
    if step.Append? {
      AppendUnconcerned(s, step.p, t, id);
    } else {
      if step.DrawNumber? {
        DecisionLog.DrawEffect(s.log, step.p, step.now);
      }
      EntriesStay(s, t, id);
    }
  }

  /** Somebody who is no worker may append to the list of the streamer. */
  lemma AppendUnconcerned(s: State, p: Pid, t: State, id: string)
    requires Linked(s) && Enabled(s, Log(DecisionLog.Append(p))) && !Concerns(s, Log(DecisionLog.Append(p)), id)
    requires t == Apply(s, Log(DecisionLog.Append(p)))
    ensures Unconcerned(s, t, id)
  {
    if s.log.procs[p].item.streamerId == id {
      assert Items(t, id) == Items(s, id) + [s.log.procs[p].item] && Owners(t, id) == Owners(s, id) + [p];
    } else {
      assert Items(t, id) == Items(s, id) && Owners(t, id) == Owners(s, id);
    }
    assert |Owners(s, id)| == |Items(s, id)|;
    assert SameEntries(s, t, id);
  }

  lemma TryLockKeeps(s: State, p: Pid, id: string)
    requires Inv(s, id) && InTime(s, id) && Enabled(s, TryLock(p)) && Concerns(s, TryLock(p), id)
    ensures Inv(Apply(s, TryLock(p)), id)
  {
    var t := Apply(s, TryLock(p));
    StepKeepsLinked(s, TryLock(p));
    EntriesStay(s, t, id);
    EntriesKept(s, t, id);
    assert forall q :: Holds(s, q, id) ==> Held(s.locks, LockKey(id), s.now);
    assert forall q :: Holds(t, q, id) ==> q == p;
    assert Holds(t, p, id) && WorkerOk(s.procs[p], s.log, p);
  }

  lemma CreateRunKeeps(s: State, p: Pid, id: string)
    requires Inv(s, id) && Enabled(s, CreateRun(p, false)) && s.procs[p].id == id
    ensures Inv(Apply(s, CreateRun(p, false)), id)
  {
    var t := Apply(s, CreateRun(p, false));
    StepKeepsLinked(s, CreateRun(p, false));
    EntriesStay(s, t, id);
    EntriesKept(s, t, id);
    assert forall q :: Holds(t, q, id) <==> Holds(s, q, id);
    assert Holds(s, p, id) && WorkerOk(s.procs[p], s.log, p);
    forall i | ByWorker(t, id, i) ensures RunAt(t, id, i) < t.runs {
      SameAt(s, t, id, i);
    }
  }

  lemma DrawKeeps(s: State, p: Pid, now: int, id: string)
    requires Inv(s, id) && Enabled(s, Log(DecisionLog.DrawNumber(p, now))) && Holds(s, p, id)
    ensures Inv(Apply(s, Log(DecisionLog.DrawNumber(p, now))), id)
  {
    var step := DecisionLog.DrawNumber(p, now);
    var t := Apply(s, Log(step));
    StepKeepsLinked(s, Log(step));
    DecisionLog.DrawEffect(s.log, p, now);
    EntriesStay(s, t, id);
    EntriesKept(s, t, id);
    assert t.procs == s.procs && forall q :: Holds(t, q, id) <==> Holds(s, q, id);
    Numbered(s, p, t, id);
  }

  lemma Numbered(s: State, p: Pid, t: State, id: string)
    requires DecisionLog.Inv(s.log) && Holds(s, p, id) && Holds(t, p, id) && HolderAgrees(s, id, p)
    requires t.procs == s.procs && t.runs == s.runs && SameEntries(s, t, id)
    requires DecisionLog.Pending(t.log, p, id) ==> t.log.procs[p].n > s.log.counter
    ensures HolderAgrees(t, id, p)
  {
    forall i | ByWorker(t, id, i)
      ensures NumberAt(t, id, i) <= s.log.counter && RunAt(t, id, i) == RunAt(s, id, i) &&
              Owners(t, id)[i] == Owners(s, id)[i] && ByWorker(s, id, i)
    {
      SameAt(s, t, id, i);
      DecisionLog.StoredNumber(s.log, id, i);
    }
  }

  lemma AppendKeeps(s: State, p: Pid, id: string)
    requires Inv(s, id) && Enabled(s, Log(DecisionLog.Append(p))) && Concerns(s, Log(DecisionLog.Append(p)), id)
    ensures Inv(Apply(s, Log(DecisionLog.Append(p))), id)
  {
    var t := Apply(s, Log(DecisionLog.Append(p)));
    StepKeepsLinked(s, Log(DecisionLog.Append(p)));
    assert WorkerOk(s.procs[p], s.log, p);
    assert Holds(s, p, id) && forall q :: Holds(t, q, id) <==> Holds(s, q, id);
    Appended(s, p, t, id, s.procs[p].stage.n, s.log.procs[p].n);
  }

  lemma Appended(s: State, p: Pid, t: State, id: string, run: nat, n: nat)
    requires Inv(s, id) && Enabled(s, Log(DecisionLog.Append(p))) && t == Apply(s, Log(DecisionLog.Append(p)))
    requires Holds(s, p, id) && s.procs[p].stage == Recording(run)
    requires s.log.procs[p].n == n && CallOk(s.log.procs[p], id, run)
    ensures EntriesAgree(t, id) && HolderAgrees(t, id, p)
  {
    var last := |Items(s, id)|;
    assert Items(t, id) == Items(s, id) + [s.log.procs[p].item] && Owners(t, id) == Owners(s, id) + [p];
    assert |Owners(s, id)| == last;
    assert HolderAgrees(s, id, p) && DecisionLog.Pending(s.log, p, id);
    assert DecisionLog.ProcOk(s.log.counter, s.log.decisions, s.log.procs[p]);
    DecisionLog.NumberOfItem(s.log.procs[p].item, n);
    RunInId(id, run);
    forall i | ByWorker(t, id, i)
      ensures i == last || (ByWorker(s, id, i) && RunAt(t, id, i) == RunAt(s, id, i) < run && Owners(t, id)[i] != p &&
                            NumberAt(t, id, i) == NumberAt(s, id, i) < n && Items(t, id)[i] == Items(s, id)[i])
    {
      if i < last {
        assert DecisionLog.PlaceOk(s.log, id, i);
      }
    }
    assert RunAt(t, id, last) == run && NumberAt(t, id, last) == n;
  }

  lemma UnlockKeeps(s: State, p: Pid, id: string)
    requires Inv(s, id) && Enabled(s, Unlock(p)) && s.procs[p].id == id
    ensures Inv(Apply(s, Unlock(p)), id)
  {
    var t := Apply(s, Unlock(p));
    StepKeepsLinked(s, Unlock(p));
    EntriesStay(s, t, id);
    EntriesKept(s, t, id);
    assert Holds(s, p, id) && forall q :: Holds(t, q, id) ==> Holds(s, q, id) && q != p;
  }

  lemma StepKeeps(s: State, a: Action, id: string)
    requires Inv(s, id) && InTime(s, id) && Enabled(s, a)
    ensures Inv(Apply(s, a), id)
  {
    if !Concerns(s, a, id) {
      OthersAreUnconcerned(s, a, id);
      StepKeepsLinked(s, a);
      UnconcernedKeeps(s, Apply(s, a), id);
    } else {
      match a {
        case TryLock(p) => TryLockKeeps(s, p, id);
        case CreateRun(p, _) => CreateRunKeeps(s, p, id);
        case Log(DrawNumber(p, now)) => DrawKeeps(s, p, now, id);
        case Log(Append(p)) => AppendKeeps(s, p, id);
        case Unlock(p) => UnlockKeeps(s, p, id);
      }
    }
  }

  lemma {:induction false} RunKeeps(s: State, actions: seq<Action>, t: State, id: string)
    requires Inv(s, id) && TimelyRun(s, actions, t, id)
    ensures Inv(t, id) && InTime(t, id)
    decreases |actions|
  {
    if actions != [] {
      StepKeeps(s, actions[0], id);
      RunKeeps(Apply(s, actions[0]), actions[1..], t, id);
    }
  }

  lemma TimelyInv(start: int, actions: seq<Action>, s: State, id: string)
    requires TimelyRun(Start(start), actions, s, id)
    ensures Inv(s, id) && InTime(s, id)
  {
    assert Linked(Start(start));
    RunKeeps(Start(start), actions, s, id);
  }

  // ---------- What follows ----------

  /**
   * While every holder of a streamer unlocks before its deadline, at most one worker is ever between TryLock
   * and Unlock.
   */
  lemma MutualExclusion(start: int, actions: seq<Action>, s: State, id: string, p: Pid, q: Pid)
    requires TimelyRun(Start(start), actions, s, id) && Holds(s, p, id) && Holds(s, q, id)
    ensures p == q
  {
    TimelyInv(start, actions, s, id);
  }

  /**
   * And the lock is neither leaked nor refused for no reason: a call gets it exactly if nobody holds the
   * streamer, however the calls before it ended.
   */
  lemma TryLockIsExact(start: int, actions: seq<Action>, s: State, id: string, q: Pid)
    requires TimelyRun(Start(start), actions, s, id) && Enabled(s, TryLock(q)) && s.procs[q].id == id
    ensures Holds(Apply(s, TryLock(q)), q, id) <==> !exists p :: Holds(s, p, id)
  {
    TimelyInv(start, actions, s, id);
  }

  /**
   * Whatever others write to the log: what workers recorded about one streamer is stored in the order in which
   * their runs were drawn, each run once, and in the order of its own numbers, although the log draws a number
   * and appends under different locks.
   */
  lemma DecisionsFollowRuns(start: int, actions: seq<Action>, s: State, id: string, i: nat, j: nat)
    requires TimelyRun(Start(start), actions, s, id) && i < j && ByWorker(s, id, i) && ByWorker(s, id, j)
    ensures Items(s, id)[i].runId == RunId(id, RunAt(s, id, i)) && Items(s, id)[j].runId == RunId(id, RunAt(s, id, j))
    ensures RunAt(s, id, i) < RunAt(s, id, j) <= s.runs
    ensures NumberAt(s, id, i) < NumberAt(s, id, j) <= s.log.counter
  {
    TimelyInv(start, actions, s, id);
    DecisionLog.StoredNumber(s.log, id, j);
  }

  /** So the whole list is in order if nobody else has written to it. */
  lemma WorkersKeepTheOrder(start: int, actions: seq<Action>, s: State, id: string)
    requires TimelyRun(Start(start), actions, s, id) && forall i :: 0 <= i < |Items(s, id)| ==> ByWorker(s, id, i)
    ensures DecisionLog.InOrder(Items(s, id))
  {
    TimelyInv(start, actions, s, id);
    forall i, j | 0 <= i < j < |Items(s, id)|
      ensures DecisionLog.NumberIn(Items(s, id)[i].id) < DecisionLog.NumberIn(Items(s, id)[j].id)
    {
      assert NumberAt(s, id, i) < NumberAt(s, id, j);
    }
  }

  /** A worker whose call of the log is pending still holds the streamer. */
  lemma PendingWorkerHolds(s: State, p: Pid, id: string)
    requires Linked(s) && DecisionLog.Pending(s.log, p, id)
    ensures p in s.procs <==> Holds(s, p, id)
  {
    if p in s.procs {
      assert WorkerOk(s.procs[p], s.log, p);
    }
  }

  lemma WorkersArePendingOneAtATime(s: State, id: string, p: Pid, q: Pid)
    requires Linked(s) && Exclusive(s, id) && p in s.procs && q in s.procs
    requires DecisionLog.Pending(s.log, p, id) && DecisionLog.Pending(s.log, q, id)
    ensures p == q
  {
    PendingWorkerHolds(s, p, id);
    PendingWorkerHolds(s, q, id);
  }

  /** A call of somebody who takes no lease is between its two critical sections, and so is another call. */
  predicate PostMeetsCall(s: State, id: string, post: Pid, other: Pid) {
    post != other && post !in s.procs && DecisionLog.Pending(s.log, post, id) && DecisionLog.Pending(s.log, other, id)
  }

  ghost predicate PostsAlone(s: State, id: string) {
    forall post, other :: !PostMeetsCall(s, id, post, other)
  }

  lemma PostsAloneMeansOneAtATime(s: State, id: string)
    requires Linked(s) && Exclusive(s, id)
    ensures DecisionLog.OneAtATime(s.log, id) <==> PostsAlone(s, id)
  {
    if PostsAlone(s, id) {
      forall p, q | DecisionLog.Pending(s.log, p, id) && DecisionLog.Pending(s.log, q, id) ensures p == q {
        assert !PostMeetsCall(s, id, p, q) && !PostMeetsCall(s, id, q, p);
        if p in s.procs && q in s.procs {
          WorkersArePendingOneAtATime(s, id, p, q);
        }
      }
    }
  }

  /** A timely run to t before which no post ever meets another call of the streamer; in t it may. */
  ghost predicate QuietRun(s: State, actions: seq<Action>, t: State, id: string)
    decreases |actions|
  {
    InTime(s, id) &&
    if actions == [] then s == t
    else PostsAlone(s, id) && Enabled(s, actions[0]) && QuietRun(Apply(s, actions[0]), actions[1..], t, id)
  }

  lemma StepStaysAhead(s: State, a: Action, id: string)
    requires Inv(s, id) && Enabled(s, a) && PostsAlone(s, id) && DecisionLog.Ahead(s.log, id)
    ensures DecisionLog.Ahead(Apply(s, a).log, id)
  {
    PostsAloneMeansOneAtATime(s, id);
    match a {
      case Record(p) => DecisionLog.StepStaysAhead(s.log, DecisionLog.Begin(p, Sent(s.procs[p])), id);
      case Log(step) => DecisionLog.StepStaysAhead(s.log, step, id);
      case _ => assert Apply(s, a).log == s.log;
    }
  }

  lemma {:induction false} QuietRunStaysAhead(s: State, actions: seq<Action>, t: State, id: string)
    requires Inv(s, id) && DecisionLog.Ahead(s.log, id) && QuietRun(s, actions, t, id)
    ensures Inv(t, id) && DecisionLog.Ahead(t.log, id)
    decreases |actions|
  {
    if actions != [] {
      StepKeeps(s, actions[0], id);
      StepStaysAhead(s, actions[0], id);
      QuietRunStaysAhead(Apply(s, actions[0]), actions[1..], t, id);
    }
  }

  /**
   * While leases are timely, the list of a streamer is in the order of its numbers until a call of somebody who
   * takes no lease meets another one between their critical sections; and from then on it can get out of order.
   * Workers alone never break it.
   */
  lemma OrderUntilAPostMeetsACall(start: int, actions: seq<Action>, s: State, id: string)
    requires QuietRun(Start(start), actions, s, id)
    ensures DecisionLog.InOrder(Items(s, id))
    ensures DecisionLog.OrderCanBreak(s.log, id) <==> exists post, other :: PostMeetsCall(s, id, post, other)
  {
    assert Linked(Start(start));
    QuietRunStaysAhead(Start(start), actions, s, id);
    DecisionLog.OrderCanBreakIff(s.log, id);
    PostsAloneMeansOneAtATime(s, id);
  }

  /** When time passes after a timely run, a second worker gets in exactly if the holder's deadline has come. */
  lemma SecondWorkerGetsInIff(start: int, actions: seq<Action>, s: State, id: string, p: Pid, q: Pid, seconds: nat)
    requires TimelyRun(Start(start), actions, s, id) && Holds(s, p, id) && Enabled(s, TryLock(q)) && s.procs[q].id == id
    ensures var later := Apply(s, Tick(seconds));
            Enabled(later, TryLock(q)) && (Exclusive(Apply(later, TryLock(q)), id) <==> later.now < s.procs[p].until)
  {
    TimelyInv(start, actions, s, id);
    var later := Apply(s, Tick(seconds));
    var t := Apply(later, TryLock(q));
    assert p != q && t.procs[p] == s.procs[p] && Holds(t, p, id);
    if later.now < s.procs[p].until {
      assert forall r :: Holds(t, r, id) ==> Holds(s, r, id);
    } else {
      assert Holds(t, q, id);
    }
  }

  // ---------- Runs with no condition on their timing ----------

  ghost predicate Run(s: State, actions: seq<Action>, t: State)
    decreases |actions|
  {
    if actions == [] then s == t else Enabled(s, actions[0]) && Run(Apply(s, actions[0]), actions[1..], t)
  }

  lemma {:induction false} RunKeepsLinked(s: State, actions: seq<Action>, t: State)
    requires Linked(s) && Run(s, actions, t)
    ensures Linked(t)
    decreases |actions|
  {
    if actions != [] {
      StepKeepsLinked(s, actions[0]);
      RunKeepsLinked(Apply(s, actions[0]), actions[1..], t);
    }
  }

  /** A worker can always record what it classified, and its call of the log can always go on or is over. */
  lemma NoWorkerIsStuck(start: int, actions: seq<Action>, s: State, p: Pid, now: int)
    requires Run(Start(start), actions, s) && AtStage(s, p)
    ensures s.procs[p].stage.Classified? ==> Enabled(s, Record(p))
    ensures s.procs[p].stage.Recording? ==>
              Enabled(s, Return(p)) || Enabled(s, Log(DecisionLog.DrawNumber(p, now))) ||
                Enabled(s, Log(DecisionLog.Append(p)))
  {
    assert Linked(Start(start));
    RunKeepsLinked(Start(start), actions, s);
    assert WorkerOk(s.procs[p], s.log, p);
  }

  lemma OneMore(s: State, actions: seq<Action>, t: State, a: Action)
    requires Run(s, actions, t) && Enabled(t, a)
    ensures Run(s, actions + [a], Apply(t, a))
    decreases |actions|
  {
    if actions == [] {
      assert [a][1..] == [];
    } else {
      OneMore(Apply(s, actions[0]), actions[1..], t, a);
      assert (actions + [a])[1..] == actions[1..] + [a];
    }
  }

  ghost predicate Reachable(start: int, s: State) {
    exists actions :: Run(Start(start), actions, s)
  }

  lemma Then(s: State, a: Action) returns (t: State)
    requires Reachable(0, s) && Enabled(s, a)
    ensures Reachable(0, t) && t == Apply(s, a)
  {
    var actions :| Run(Start(0), actions, s);
    OneMore(Start(0), actions, s, a);
    t := Apply(s, a);
  }

  lemma ThreeWait() returns (s: State)
    ensures var w := Waiting("x", 10, HALF);
            Reachable(0, s) && s == State(0, map[], map[1 := w, 2 := w, 3 := w], 0, DecisionLog.START)
  {
    TrimSpaceTrims("x");
    var w := Waiting("x", 10, HALF);
    s := Start(0);
    assert Run(s, [], s);
    s := Then(s, Call(1, "x", 10, HALF));
    assert s == State(0, map[], map[1 := w], 0, DecisionLog.START);
    s := Then(s, Call(2, "x", 10, HALF));
    assert s == State(0, map[], map[1 := w, 2 := w], 0, DecisionLog.START);
    s := Then(s, Call(3, "x", 10, HALF));
  }

  lemma FirstIsLate() returns (s: State)
    ensures var w := Waiting("x", 10, HALF);
            Reachable(0, s) &&
            s == State(10, map[LockKey("x") := 10], map[1 := Holding("x", 10, HALF, Leaving), 2 := w, 3 := w], 0,
                       DecisionLog.START)
  {
    var w := Waiting("x", 10, HALF);
    s := ThreeWait();
    s := Then(s, TryLock(1));
    assert s == State(0, map[LockKey("x") := 10], map[1 := Holding("x", 10, HALF, Locked), 2 := w, 3 := w], 0,
                      DecisionLog.START);
    s := Then(s, CreateRun(1, true));
    assert s == State(0, map[LockKey("x") := 10], map[1 := Holding("x", 10, HALF, Leaving), 2 := w, 3 := w], 0,
                      DecisionLog.START);
    s := Then(s, Tick(10));
  }

  lemma SecondLocks() returns (s: State)
    ensures Reachable(0, s)
    ensures s == State(10, map[LockKey("x") := 20],
                       map[1 := Holding("x", 10, HALF, Leaving), 2 := Holding("x", 20, HALF, Locked),
                           3 := Waiting("x", 10, HALF)], 0, DecisionLog.START)
  {
    s := FirstIsLate();
    s := Then(s, TryLock(2));
  }

  lemma SecondLosesItsLock() returns (s: State)
    ensures Reachable(0, s)
    ensures s == State(10, map[],
                       map[1 := Released("x"), 2 := Holding("x", 20, HALF, Locked), 3 := Waiting("x", 10, HALF)], 0,
                       DecisionLog.START)
  {
    s := SecondLocks();
    s := Then(s, Unlock(1));
  }

  /**
   * A lock entry names no owner, so a worker that comes back late frees the lock of its successor: then two
   * workers hold one streamer although neither of them is late.
   */
  lemma LateUnlockFreesAnothersLock() returns (s: State)
    ensures Reachable(0, s) && InTime(s, "x") && Holds(s, 2, "x") && Holds(s, 3, "x")
  {
    s := SecondLosesItsLock();
    s := Then(s, TryLock(3));
    assert s.procs == map[1 := Released("x"), 2 := Holding("x", 20, HALF, Locked), 3 := Holding("x", 20, HALF, Locked)];
  }

  // ---------- A worker and somebody who takes no lease ----------

  /** Steps of calls of the log, as steps of the whole. */
  function Lifted(steps: seq<DecisionLog.Action>): seq<Action> {
    seq(|steps|, i requires 0 <= i < |steps| => Log(steps[i]))
  }

  /** The leases do not hold back the log, and the log does not make them late. */
  lemma {:induction false} LogRunIsTimely(s: State, steps: seq<DecisionLog.Action>, l: DecisionLog.State, id: string)
    requires InTime(s, id) && DecisionLog.Reaches(s.log, steps, l)
    requires forall i :: 0 <= i < |steps| && steps[i].Begin? ==> steps[i].p !in s.procs
    ensures TimelyRun(s, Lifted(steps), s.(log := l), id)
    decreases |steps|
  {
    if steps != [] {
      var t := Apply(s, Log(steps[0]));
      assert forall p :: Holds(t, p, id) <==> Holds(s, p, id);
      LogRunIsTimely(t, steps[1..], l, id);
      assert Lifted(steps)[1..] == Lifted(steps[1..]);
    }
  }

  lemma {:induction false} TimelyThen(s: State, first: seq<Action>, m: State, last: seq<Action>, t: State, id: string)
    requires TimelyRun(s, first, m, id) && TimelyRun(m, last, t, id)
    ensures TimelyRun(s, first + last, t, id)
    decreases |first|
  {
    if first == [] {
      assert first + last == last;
    } else {
      TimelyThen(Apply(s, first[0]), first[1..], m, last, t, id);
      assert (first + last)[1..] == first[1..] + last;
    }
  }

  /**
   * Whenever a worker has called the log, somebody else's request about its streamer can come in between and
   * leave the list out of order, with every lease of the streamer in time.
   */
  lemma AnyPostCanBreakTheOrder(start: int, before: seq<Action>, s: State, id: string, p: Pid, q: Pid,
                                post: DecisionLog.Request) returns (actions: seq<Action>, t: State)
    requires TimelyRun(Start(start), before, s, id) && Holds(s, p, id) && p in s.log.procs
    requires s.log.procs[p].Started? && DecisionLog.Takes(s.log.procs[p].req, id)
    requires q !in s.procs && q !in s.log.procs && DecisionLog.Takes(post, id)
    ensures TimelyRun(Start(start), actions, t, id) && !DecisionLog.InOrder(Items(t, id))
  {
    TimelyInv(start, before, s, id);
    var steps, l := DecisionLog.NewcomerBreaksTheOrder(s.log, p, q, post, id);
    t := s.(log := l);
    LogRunIsTimely(s, steps, l, id);
    TimelyThen(Start(start), before, s, Lifted(steps), t, id);
    actions := before + Lifted(steps);
  }

  const SURE := Classification(CS_DETECTED, Finite(1.0))

  /** Worker 1 is alone and in time. */
  predicate Alone(s: State, stage: Stage) {
    s.now == 0 && s.runs == (if stage.Locked? then 0 else 1) && s.procs == map[1 := Holding("x", 10, HALF, stage)] &&
    (!stage.Recording? ==> s.log == DecisionLog.START)
  }

  lemma AloneIsInTime(s: State, stage: Stage)
    requires Alone(s, stage)
    ensures InTime(s, "x")
  {
  }

  lemma {:induction false} OneMoreIsTimely(start: State, actions: seq<Action>, s: State, a: Action, t: State,
                                           id: string)
    requires TimelyRun(start, actions, s, id) && Enabled(s, a) && t == Apply(s, a) && InTime(s, id) && InTime(t, id)
    ensures TimelyRun(start, actions + [a], t, id)
  {
    assert [a][1..] == [];
    TimelyThen(start, actions, s, [a], t, id);
  }

  lemma {:induction false} AloneMore(start: State, actions: seq<Action>, s: State, stage: Stage, a: Action, next: Stage)
    returns (more: seq<Action>, t: State)
    requires TimelyRun(start, actions, s, "x") && Alone(s, stage) && Enabled(s, a) && Alone(Apply(s, a), next)
    ensures TimelyRun(start, more, t, "x") && t == Apply(s, a)
  {
    more, t := actions + [a], Apply(s, a);
    AloneIsInTime(s, stage);
    AloneIsInTime(t, next);
    OneMoreIsTimely(start, actions, s, a, t, "x");
  }

  lemma WorkerLocks() returns (actions: seq<Action>, s: State)
    ensures TimelyRun(Start(0), actions, s, "x") && Alone(s, Locked)
  {
    TrimSpaceTrims("x");
    var call := Call(1, "x", 10, HALF);
    actions := [call, TryLock(1)];
    var m := Apply(Start(0), call);
    assert m == State(0, map[], map[1 := Waiting("x", 10, HALF)], 0, DecisionLog.START);
    s := Apply(m, TryLock(1));
    assert actions[1..] == [TryLock(1)] && [TryLock(1)][1..] == [];
    assert TimelyRun(s, [], s, "x");
    assert TimelyRun(m, [TryLock(1)], s, "x");
  }

  lemma WorkerClassifies() returns (actions: seq<Action>, s: State)
    ensures TimelyRun(Start(0), actions, s, "x") && Alone(s, Classified(1, SURE))
  {
    actions, s := WorkerLocks();
    actions, s := AloneMore(Start(0), actions, s, Locked, CreateRun(1, false), Running(1));
    actions, s := AloneMore(Start(0), actions, s, Running(1), Capture(1, false), Captured(1));
    actions, s := AloneMore(Start(0), actions, s, Captured(1), Classify(1, Some(SURE)), Classified(1, SURE));
  }

  /** One worker and one request from elsewhere, about one streamer whose only lease is in time throughout. */
  lemma WorkerAndPostBreakTheOrder() returns (actions: seq<Action>, t: State)
    ensures TimelyRun(Start(0), actions, t, "x") && !DecisionLog.InOrder(Items(t, "x"))
  {
    var s;
    actions, s := WorkerClassifies();
    var req := RequestFor("x", 1, SURE, HALF);
    assert Sent(s.procs[1]) == req;
    actions, s := AloneMore(Start(0), actions, s, Classified(1, SURE), Record(1), Recording(1));
    OnlyConfidenceIsRefused("x", 1, SURE, HALF);
    actions, t := AnyPostCanBreakTheOrder(0, actions, s, "x", 1, 2, req);
  }

  // ---------- One call with nobody in between ----------

  /** Some steps lead from s to t. */
  ghost predicate Leads(s: State, t: State) {
    exists actions :: Run(s, actions, t)
  }

  lemma StepLeads(s: State, a: Action, t: State)
    requires Enabled(s, a) && Leads(Apply(s, a), t)
    ensures Leads(s, t)
  {
    var actions :| Run(Apply(s, a), actions, t);
    assert ([a] + actions)[1..] == actions;
    assert Run(s, [a] + actions, t);
  }

  /** The call of p let go of the streamer after so many more runs. */
  predicate LetGo(s: State, t: State, p: Pid, id: string, runs: nat) {
    t.now == s.now && t.locks == s.locks - {LockKey(id)} && t.procs == s.procs[p := Released(id)] &&
      t.runs == s.runs + runs
  }

  /** The log has got the request from the call of p, if it is one, and nothing else. */
  predicate Got(s: DecisionLog.State, t: DecisionLog.State, p: Pid, r: Result<DecisionLog.Request, Error>, now: int) {
    if r.Err? then t.counter == s.counter && t.decisions == s.decisions
    else
      var id, item := r.value.streamerId, DecisionLog.Item(s.counter + 1, r.value, now);
      && t.counter == s.counter + 1
      && t.decisions == s.decisions[id := DecisionLog.ItemsOf(s.decisions, id) + [item]]
      && p in t.procs && t.procs[p].Recorded? && t.procs[p].item == item
  }

  lemma FromLeaving(s: State, p: Pid, id: string) returns (t: State)
    requires Holds(s, p, id) && s.procs[p].stage == Leaving
    ensures Leads(s, t) && LetGo(s, t, p, id, 0) && t.log == s.log
  {
    t := Apply(s, Unlock(p));
    assert Run(t, [], t);
    StepLeads(s, Unlock(p), t);
  }

  lemma FromOver(s: State, p: Pid, id: string) returns (t: State)
    requires Holds(s, p, id) && s.procs[p].stage.Recording? && p in s.log.procs && Over(s.log.procs[p])
    ensures Leads(s, t) && LetGo(s, t, p, id, 0) && t.log == s.log
  {
    t := FromLeaving(Apply(s, Return(p)), p, id);
    StepLeads(s, Return(p), t);
  }

  /** What a worker makes of the answer of the log. */
  function Answered(answer: Result<DecisionLog.Request, DecisionLog.Error>): Result<DecisionLog.Request, Error> {
    if answer.Ok? then Ok(answer.value) else Err(NotRecorded(answer.error))
  }

  lemma FromRecording(s: State, log: DecisionLog.State, p: Pid, id: string, req: DecisionLog.Request, now: int)
    returns (t: State)
    requires Holds(s, p, id) && s.procs[p].stage.Recording? && p !in log.procs
    requires s.log == DecisionLog.Apply(log, DecisionLog.Begin(p, req))
    ensures Leads(s, t) && LetGo(s, t, p, id, 0) && Got(log, t.log, p, Answered(DecisionLog.Checked(req)), now)
  {
    DecisionLog.SoloCall(log, p, req, now);
    var draw := Log(DecisionLog.DrawNumber(p, now));
    var m := Apply(s, draw);
    if DecisionLog.Checked(req).Ok? {
      var append := Log(DecisionLog.Append(p));
      t := FromOver(Apply(m, append), p, id);
      StepLeads(m, append, t);
    } else {
      t := FromOver(m, p, id);
    }
    StepLeads(s, draw, t);
  }

  lemma FromSent(s: State, p: Pid, id: string, req: DecisionLog.Request, now: int) returns (t: State)
    requires Holds(s, p, id) && s.procs[p].stage.Classified? && p !in s.log.procs && req == Sent(s.procs[p])
    ensures Leads(s, t) && LetGo(s, t, p, id, 0) && Got(s.log, t.log, p, Answered(DecisionLog.Checked(req)), now)
  {
    t := FromRecording(Apply(s, Record(p)), s.log, p, id, req, now);
    StepLeads(s, Record(p), t);
  }

  lemma FromClassified(s: State, p: Pid, id: string, n: nat, c: Classification, now: int,
                       r: Result<DecisionLog.Request, Error>) returns (t: State)
    requires Holds(s, p, id) && s.procs[p].stage == Classified(n, c) && p !in s.log.procs && Trimmed(id) && id != ""
    requires var req := RequestFor(id, n, c, s.procs[p].minConfidence);
             r == if Outside(c.confidence, 0.0, 1.0) then Err(NotRecorded(DecisionLog.ConfidenceOutOfRange))
               else Ok(req)
    ensures Leads(s, t) && LetGo(s, t, p, id, 0) && Got(s.log, t.log, p, r, now)
  {
    OnlyConfidenceIsRefused(id, n, c, s.procs[p].minConfidence);
    t := FromSent(s, p, id, RequestFor(id, n, c, s.procs[p].minConfidence), now);
  }

  lemma FromRunning(s: State, p: Pid, id: string, n: nat, world: World, r: Result<DecisionLog.Request, Error>)
    returns (t: State)
    requires Holds(s, p, id) && s.procs[p].stage == Running(n) && p !in s.log.procs && Trimmed(id) && id != ""
    requires !world.runFails && r == Outcome(id, n, world, s.procs[p].minConfidence)
    ensures Leads(s, t) && LetGo(s, t, p, id, 0) && Got(s.log, t.log, p, r, world.recordedAt)
  {
    var capture := Capture(p, world.chunk.None?);
    var m := Apply(s, capture);
    if world.chunk.None? {
      t := FromLeaving(m, p, id);
    } else {
      var result := world.classify(world.chunk.value);
      var k := Apply(m, Classify(p, result));
      if result.None? {
        t := FromLeaving(k, p, id);
      } else {
        t := FromClassified(k, p, id, n, result.value, world.recordedAt, r);
      }
      StepLeads(m, Classify(p, result), t);
    }
    StepLeads(s, capture, t);
  }

  lemma FromLocked(s: State, p: Pid, id: string, world: World) returns (t: State)
    requires Holds(s, p, id) && s.procs[p].stage == Locked && p !in s.log.procs && Trimmed(id) && id != ""
    ensures var r := Outcome(id, s.runs + 1, world, s.procs[p].minConfidence);
            Leads(s, t) && LetGo(s, t, p, id, if world.runFails then 0 else 1) &&
              Got(s.log, t.log, p, r, world.recordedAt)
  {
    var create := CreateRun(p, world.runFails);
    var m := Apply(s, create);
    if world.runFails {
      t := FromLeaving(m, p, id);
    } else {
      t := FromRunning(m, p, id, s.runs + 1, world, Outcome(id, s.runs + 1, world, s.procs[p].minConfidence));
    }
    StepLeads(s, create, t);
  }

  lemma FromWaiting(s: State, p: Pid, id: string, world: World) returns (t: State)
    requires p in s.procs && s.procs[p].Waiting? && s.procs[p].id == id && p !in s.log.procs && Trimmed(id) && id != ""
    requires !Held(s.locks, LockKey(id), s.now)
    ensures var r := Outcome(id, s.runs + 1, world, s.procs[p].minConfidence);
            Leads(s, t) && LetGo(s, t, p, id, if world.runFails then 0 else 1) &&
              Got(s.log, t.log, p, r, world.recordedAt)
  {
    t := FromLocked(Apply(s, TryLock(p)), p, id, world);
    StepLeads(s, TryLock(p), t);
  }

  /** The steps of a call that gets the lock, with nothing in between, add up to what ProcessStreamer does. */
  lemma SoloCall(s: State, p: Pid, streamerId: string, ttl: int, minConfidence: Float, world: World) returns (t: State)
    requires p !in s.procs && p !in s.log.procs && ttl > 0 && TrimSpace(streamerId) != "" &&
             !Held(s.locks, LockKey(TrimSpace(streamerId)), s.now)
    ensures var id := TrimSpace(streamerId);
            var r := Outcome(id, s.runs + 1, world, minConfidence);
            Leads(s, t) && LetGo(s, t, p, id, if world.runFails then 0 else 1) &&
              Got(s.log, t.log, p, r, world.recordedAt)
  {
    TrimSpaceTrims(streamerId);
    var call := Call(p, streamerId, ttl, minConfidence);
    var m := Apply(s, call);
    t := FromWaiting(m, p, TrimSpace(streamerId), world);
    StepLeads(s, call, t);
  }
}
