/** The lease lock, the run numbers and the worker that captures, classifies and records one chunk of a stream. */
module MediaWorker {
  import opened Basics
  import opened Text
  import DecisionLog

  // ---------- The lock ----------

  type Locks = map<string, int>

  predicate Held(locks: Locks, key: string, now: int) {
    key in locks && now < locks[key]
  }

  /** A lock is an entry with a deadline; it does not say who holds it. */
  class InMemoryLocker {
    var locks: Locks

    constructor ()
      ensures locks == map[]
    {
      locks := map[];
    }

    method TryLock(key: string, ttl: int, now: int) returns (taken: bool)
      modifies this
      ensures taken == !Held(old(locks), key, now)
      ensures locks == if taken then old(locks)[key := now + ttl] else old(locks)
    {
      if key in locks {
        var expiresAt := locks[key];
        if now < expiresAt {
          return false;
        }
      }
      locks := locks[key := now + ttl];
      return true;
    }

    method Unlock(key: string)
      modifies this
      ensures locks == old(locks) - {key}
    {
      locks := locks - {key};
    }
  }

  // ---------- Run numbers ----------

  function RunId(id: string, n: nat): string {
    "run_" + id + "_" + DecNat(n)
  }

  class InMemoryRunStore {
    var counter: nat

    constructor ()
      ensures counter == 0
    {
      counter := 0;
    }

    method CreateRun(streamerId: string) returns (id: string)
      modifies this
      ensures counter == old(counter) + 1 && id == RunId(streamerId, counter)
    {
      counter := counter + 1;
      id := "run_" + streamerId + "_" + DecNat(counter);
    }
  }

  /** The number in a run id of the streamer. */
  function RunIn(id: string, runId: string): nat {
    NumberAfter("run_" + id + "_", runId)
  }

  lemma RunInId(id: string, n: nat)
    ensures RunIn(id, RunId(id, n)) == n
  {
    NumberAfterPrefix("run_" + id + "_", n);
  }

  /** The part after the last underscore is the number, so a run id tells both its parts. */
  lemma RunIdsDiffer(a: string, m: nat, b: string, n: nat)
    ensures RunId(a, m) == RunId(b, n) <==> a == b && m == n
  {
    DecNatValue(m);
    DecNatValue(n);
    if RunId(a, m) == RunId(b, n) {
      SplitsAlike("run_" + a, DecNat(m), "run_" + b, DecNat(n));
      assert a == ("run_" + a)[4..] == ("run_" + b)[4..] == b;
      DecInjective(m, n);
    }
  }

  lemma SplitsAlike(a: string, m: string, b: string, n: string)
    requires a + "_" + m == b + "_" + n && '_' !in m && '_' !in n
    ensures a == b && m == n
  {
    var s := a + "_" + m;
    LastUnderscore(a, m, s);
    LastUnderscore(b, n, s);
    assert |a| == |b|;
    assert a == s[..|a|] && b == s[..|b|];
    assert m == s[|a| + 1..] && n == s[|b| + 1..];
  }

  lemma LastUnderscore(a: string, m: string, s: string)
    requires s == a + "_" + m && '_' !in m
    ensures |a| < |s| && s[|a|] == '_' && forall i :: |a| < i < |s| ==> s[i] != '_'
  {
    forall i | |a| < i < |s| ensures s[i] != '_' {
      assert s[i] == m[i - |a| - 1];
    }
  }

  // ---------- What a classification is recorded as ----------

  const CS_DETECTED := "cs_detected"
  const NOT_CS := "not_cs"
  const UNCERTAIN := "uncertain"

  datatype Classification = Classification(verdict: string, confidence: Float)

  function NormalizeStageALabel(raw: string): string {
    var value := ToLower(TrimSpace(raw));
    if value in {CS_DETECTED, "cs", "counter-strike", "counter strike", "yes", "true"} then CS_DETECTED
    else if value in {NOT_CS, "not-cs", "no", "false"} then NOT_CS
    else UNCERTAIN
  }

  function Judged(c: Classification, minConfidence: Float): string {
    if Smaller(c.confidence, minConfidence) then UNCERTAIN else NormalizeStageALabel(c.verdict)
  }

  /** What a worker may record, by the words and the confidence of the classifier. */
  predicate IsVerdict(verdict: string, word: string, tooLow: bool) {
    && (verdict == "cs_detected" <==>
          !tooLow && word in {"cs_detected", "cs", "counter-strike", "counter strike", "yes", "true"})
    && (verdict == "not_cs" <==> !tooLow && word in {"not_cs", "not-cs", "no", "false"})
    && verdict in {"cs_detected", "not_cs", "uncertain"}
  }

  /** Below the least; a NaN on either side is not. */
  predicate TooLow(confidence: Float, least: Float) {
    match (confidence, least)
    case (Finite(x), Finite(y)) => x < y
    case (MinusInfinity, y) => y.Finite? || y.PlusInfinity?
    case (Finite(_), PlusInfinity) => true
    case _ => false
  }

  lemma JudgedIsVerdict(c: Classification, minConfidence: Float)
    ensures IsVerdict(Judged(c, minConfidence), ToLower(TrimSpace(c.verdict)), TooLow(c.confidence, minConfidence))
  {
    var word := ToLower(TrimSpace(c.verdict));
    Words(word);
  }

  lemma Words(word: string)
    ensures word in {"cs_detected", "cs", "counter-strike", "counter strike", "yes", "true"} ==>
              word !in {"not_cs", "not-cs", "no", "false"}
    ensures "cs_detected" != "not_cs" && "uncertain" !in {"cs_detected", "not_cs"}
  {
    if word in {"not_cs", "not-cs", "no", "false"} {
      assert word[0] == 'n' || word[0] == 'f';
    }
    assert "cs_detected"[0] == 'c' && "not_cs"[0] == 'n' && "uncertain"[0] == 'u';
  }

  function RequestFor(id: string, n: nat, c: Classification, minConfidence: Float): DecisionLog.Request {
    DecisionLog.Request(RunId(id, n), id, "stage_a", Judged(c, minConfidence), c.confidence)
  }

  /** The log takes what the worker sends it as it stands, and refuses only a confidence below 0 or above 1. */
  lemma OnlyConfidenceIsRefused(id: string, n: nat, c: Classification, minConfidence: Float)
    requires Trimmed(id) && id != ""
    ensures var req := RequestFor(id, n, c, minConfidence);
            DecisionLog.Checked(req) == if Outside(c.confidence, 0.0, 1.0) then Err(DecisionLog.ConfidenceOutOfRange)
              else Ok(req)
  {
    RunIdIsTrimmed(id, n);
    TrimSpaceTrims(id);
    Unchanged(RequestFor(id, n, c, minConfidence));
  }

  lemma RunIdIsTrimmed(id: string, n: nat)
    ensures RunId(id, n) != "" && TrimSpace(RunId(id, n)) == RunId(id, n)
  {
    var runId := RunId(id, n);
    DecNatValue(n);
    var digits := DecNat(n);
    assert digits[|digits| - 1] in digits;
    assert runId[|runId| - 1] == digits[|digits| - 1] && runId[0] == 'r';
    TrimSpaceTrims(runId);
  }

  lemma Unchanged(req: DecisionLog.Request)
    requires TrimSpace(req.runId) == req.runId != "" && TrimSpace(req.streamerId) == req.streamerId != ""
    requires req.stage == "stage_a" && req.verdict in {CS_DETECTED, NOT_CS, UNCERTAIN}
    ensures DecisionLog.Checked(req) == if Outside(req.confidence, 0.0, 1.0) then Err(DecisionLog.ConfidenceOutOfRange)
            else Ok(req)
  {
    Written(req.stage);
    Written(req.verdict);
  }

  /** Already in the form that trimming and lower-casing give. */
  lemma Written(s: string)
    requires s in {"stage_a", CS_DETECTED, NOT_CS, UNCERTAIN}
    ensures ToLower(TrimSpace(s)) == s && TrimSpace(s) == s != ""
  {
    TrimSpaceTrims(s);
    assert ToLower(s) == s;
  }

  // ---------- The worker ----------

  datatype Error =
    | StreamerIdRequired
    | StreamerBusy
    | NoRun
    | CaptureFailed
    | ClassifyFailed
    | NotRecorded(error: DecisionLog.Error)

  /** What the services the worker calls answer. */
  datatype World = World(runFails: bool, chunk: Option<string>, classify: string -> Option<Classification>,
                         recordedAt: int)

  function LockKey(id: string): string {
    "stream-capture:" + id
  }

  /** What a call that holds the lock comes to; n is the number its run gets. */
  function Outcome(id: string, n: nat, world: World, minConfidence: Float): Result<DecisionLog.Request, Error> {
    if world.runFails then Err(NoRun)
    else if world.chunk.None? then Err(CaptureFailed)
    else if world.classify(world.chunk.value).None? then Err(ClassifyFailed)
    else
      var c := world.classify(world.chunk.value).value;
      if Outside(c.confidence, 0.0, 1.0) then Err(NotRecorded(DecisionLog.ConfidenceOutOfRange))
      else Ok(RequestFor(id, n, c, minConfidence))
  }

  const DEFAULT_LOCK_TTL := 30_000_000_000

  class Worker {
    const locker: InMemoryLocker
    const runs: InMemoryRunStore
    const decisions: DecisionLog.Log
    const lockTtl: int
    const minConfidence: Float

    constructor (locker: InMemoryLocker, runs: InMemoryRunStore, decisions: DecisionLog.Log, lockTtl: int,
                 minConfidence: Float)
      ensures this.locker == locker && this.runs == runs && this.decisions == decisions
      ensures this.lockTtl > 0 && this.lockTtl == if lockTtl > 0 then lockTtl else 30_000_000_000
      ensures this.minConfidence == if Outside(minConfidence, 0.0, 1.0) then Finite(0.5) else minConfidence
      ensures this.minConfidence.NaN? || (this.minConfidence.Finite? && 0.0 <= this.minConfidence.value <= 1.0)
    {
      this.locker := locker;
      this.runs := runs;
      this.decisions := decisions;
      this.lockTtl := if lockTtl <= 0 then DEFAULT_LOCK_TTL else lockTtl;
      this.minConfidence := if Outside(minConfidence, 0.0, 1.0) then Finite(0.5) else minConfidence;
    }

    /**
     * One call with nobody in between. If it got the lock, the key is free afterwards whichever way
     * the call ended; if it did not, nothing at all changed. What it records is about that streamer and that
     * run, with the verdict the classifier's word and confidence call for.
     */
    method ProcessStreamer(streamerId: string, now: int, world: World) returns (r: Result<DecisionLog.Decision, Error>)
      modifies locker, runs, decisions
      ensures var id := TrimSpace(streamerId);
              var busy := Held(old(locker.locks), LockKey(id), now);
              if id == "" || busy then
                && r == Err(if id == "" then StreamerIdRequired else StreamerBusy)
                && locker.locks == old(locker.locks) && runs.counter == old(runs.counter)
                && decisions.counter == old(decisions.counter) && decisions.decisions == old(decisions.decisions)
              else
                && locker.locks == old(locker.locks) - {LockKey(id)}
                && runs.counter == old(runs.counter) + (if world.runFails then 0 else 1)
                && var outcome := Outcome(id, old(runs.counter) + 1, world, minConfidence);
                   if outcome.Err? then
                     r == Err(outcome.error) && decisions.counter == old(decisions.counter) &&
                       decisions.decisions == old(decisions.decisions)
                   else
                     && decisions.counter == old(decisions.counter) + 1
                     && r == Ok(DecisionLog.Item(decisions.counter, outcome.value, world.recordedAt))
                     && decisions.decisions ==
                        old(decisions.decisions)[id := DecisionLog.ItemsOf(old(decisions.decisions), id) + [r.value]]
      ensures r.Ok? ==>
                && !world.runFails && world.chunk.Some? && world.classify(world.chunk.value).Some?
                && var c := world.classify(world.chunk.value).value;
                && r.value.id == "llm_" + DecNat(decisions.counter) && r.value.streamerId == TrimSpace(streamerId)
                && r.value.runId == "run_" + r.value.streamerId + "_" + DecNat(runs.counter)
                && r.value.stage == "stage_a" && r.value.confidence == c.confidence
                && r.value.createdAt == world.recordedAt
                && IsVerdict(r.value.verdict, ToLower(TrimSpace(c.verdict)), TooLow(c.confidence, minConfidence))
                && (c.confidence.NaN? || (c.confidence.Finite? && 0.0 <= c.confidence.value <= 1.0))
      ensures TrimSpace(streamerId) != "" && !Held(old(locker.locks), LockKey(TrimSpace(streamerId)), now) ==>
                && (r == Err(NoRun) <==> world.runFails)
                && (r == Err(CaptureFailed) <==> !world.runFails && world.chunk.None?)
                && (r == Err(ClassifyFailed) <==>
                      !world.runFails && world.chunk.Some? && world.classify(world.chunk.value).None?)
    {
      var id := TrimSpace(streamerId);
      if id == "" {
        return Err(StreamerIdRequired);
      }
      var key := LockKey(id);
      var taken := locker.TryLock(key, lockTtl, now);
      if !taken {
        return Err(StreamerBusy);
      }
      TrimSpaceTrims(streamerId);
      r := Capture(id, world);
      if r.Ok? {
        JudgedIsVerdict(world.classify(world.chunk.value).value, minConfidence);
      }
      locker.Unlock(key);
    }

    /** What happens between taking the lock and the deferred release. */
    method Capture(id: string, world: World) returns (r: Result<DecisionLog.Decision, Error>)
      requires Trimmed(id) && id != ""
      modifies runs, decisions
      ensures runs.counter == old(runs.counter) + (if world.runFails then 0 else 1)
      ensures var outcome := Outcome(id, old(runs.counter) + 1, world, minConfidence);
              if outcome.Err? then
                r == Err(outcome.error) && decisions.counter == old(decisions.counter) &&
                  decisions.decisions == old(decisions.decisions)
              else
                && decisions.counter == old(decisions.counter) + 1
                && r == Ok(DecisionLog.Item(decisions.counter, outcome.value, world.recordedAt))
                && decisions.decisions ==
                   old(decisions.decisions)[id := DecisionLog.ItemsOf(old(decisions.decisions), id) + [r.value]]
    {
      if world.runFails {
        return Err(NoRun);
      }
      var runId := runs.CreateRun(id);
      if world.chunk.None? {
        return Err(CaptureFailed);
      }
      var classified := world.classify(world.chunk.value);
      if classified.None? {
        return Err(ClassifyFailed);
      }
      var result := classified.value;
      var tag := NormalizeStageALabel(result.verdict);
      if Smaller(result.confidence, minConfidence) {
        tag := UNCERTAIN;
      }
      OnlyConfidenceIsRefused(id, runs.counter, result, minConfidence);
      var recorded := decisions.RecordLLMDecision(DecisionLog.Request(runId, id, "stage_a", tag, result.confidence),
                                                  world.recordedAt);
      r := if recorded.Ok? then Ok(recorded.value) else Err(NotRecorded(recorded.error));
    }
  }
}
