/** The log of LLM decisions: a number is drawn under one lock, the item appended under another. */
module DecisionLog {
  import opened Basics
  import opened Text

  datatype Request = Request(runId: string, streamerId: string, stage: string, verdict: string, confidence: Float)
  datatype Decision = Decision(id: string, runId: string, streamerId: string, stage: string, verdict: string,
                               confidence: Float, createdAt: int)

  datatype Error = StreamerRequired | RunRequired | StageUnsupported | LabelRequired | ConfidenceOutOfRange

  predicate IsSupportedStage(stage: string) {
    stage == "stage_a" || stage == "stage_b" || stage == "stage_c" || stage == "stage_d"
  }

  /** The request as it is recorded, or the first thing that is wrong with it. */
  function Checked(req: Request): Result<Request, Error> {
    var clean := Request(TrimSpace(req.runId), TrimSpace(req.streamerId), ToLower(TrimSpace(req.stage)),
                         TrimSpace(req.verdict), req.confidence);
    if clean.streamerId == "" then Err(StreamerRequired)
    else if clean.runId == "" then Err(RunRequired)
    else if !IsSupportedStage(clean.stage) then Err(StageUnsupported)
    else if clean.verdict == "" then Err(LabelRequired)
    else if Outside(clean.confidence, 0.0, 1.0) then Err(ConfidenceOutOfRange)
    else Ok(clean)
  }

  function Id(n: nat): string {
    "llm_" + DecNat(n)
  }

  function Item(n: nat, req: Request, now: int): Decision {
    Decision(Id(n), req.runId, req.streamerId, req.stage, req.verdict, req.confidence, now)
  }

  type Decisions = map<string, seq<Decision>>

  function ItemsOf(d: Decisions, key: string): seq<Decision> {
    if key in d then d[key] else []
  }

  const DEFAULT_LIMIT := 20

  class Log {
    var decisions: Decisions
    var counter: nat

    constructor ()
      ensures decisions == map[] && counter == 0
    {
      decisions := map[];
      counter := 0;
    }

    /** Recording with nobody in between the two locks. */
    method RecordLLMDecision(req: Request, now: int) returns (r: Result<Decision, Error>)
      modifies this
      ensures Checked(req).Err? ==>
              r == Err(Checked(req).error) && decisions == old(decisions) && counter == old(counter)
      ensures Checked(req).Ok? ==>
                && counter == old(counter) + 1
                && r == Ok(Item(counter, Checked(req).value, now))
                && var key := r.value.streamerId;
                   decisions == old(decisions)[key := ItemsOf(old(decisions), key) + [r.value]]
      ensures r.Ok? ==>
                && r.value.id == "llm_" + DecNat(counter) && r.value.createdAt == now
                && r.value.runId == TrimSpace(req.runId) && r.value.streamerId == TrimSpace(req.streamerId)
                && r.value.stage == ToLower(TrimSpace(req.stage)) && r.value.verdict == TrimSpace(req.verdict)
                && r.value.confidence == req.confidence
      ensures r == Err(StreamerRequired) <==> TrimSpace(req.streamerId) == ""
      ensures r == Err(RunRequired) <==> TrimSpace(req.streamerId) != "" && TrimSpace(req.runId) == ""
      ensures r == Err(StageUnsupported) <==>
                TrimSpace(req.streamerId) != "" && TrimSpace(req.runId) != "" &&
                ToLower(TrimSpace(req.stage)) !in {"stage_a", "stage_b", "stage_c", "stage_d"}
      ensures r == Err(LabelRequired) ==> TrimSpace(req.verdict) == ""
      ensures r == Err(ConfidenceOutOfRange) ==>
                && TrimSpace(req.verdict) != "" && !req.confidence.NaN?
                && (req.confidence.Finite? ==> req.confidence.value < 0.0 || req.confidence.value > 1.0)
      ensures r.Ok? ==>
                && TrimSpace(req.verdict) != ""
                && (req.confidence.NaN? || (req.confidence.Finite? && 0.0 <= req.confidence.value <= 1.0))
    {
      var streamerId := TrimSpace(req.streamerId);
      if streamerId == "" {
        return Err(StreamerRequired);
      }
      var runId := TrimSpace(req.runId);
      if runId == "" {
        return Err(RunRequired);
      }
      var stage := ToLower(TrimSpace(req.stage));
      if !IsSupportedStage(stage) {
        return Err(StageUnsupported);
      }
      var verdict := TrimSpace(req.verdict);
      if verdict == "" {
        return Err(LabelRequired);
      }
      if Outside(req.confidence, 0.0, 1.0) {
        return Err(ConfidenceOutOfRange);
      }
      counter := counter + 1;
      var id := Id(counter);
      var item := Decision(id, runId, streamerId, stage, verdict, req.confidence, now);
      decisions := decisions[streamerId := ItemsOf(decisions, streamerId) + [item]];
      return Ok(item);
    }

    /** The newest items first, at most limit of them, twenty if the limit is not positive. */
    method ListLLMDecisions(streamerId: string, limit: int) returns (out: seq<Decision>)
      ensures var items := ItemsOf(decisions, TrimSpace(streamerId));
              var most := if limit <= 0 then 20 else limit;
              if TrimSpace(streamerId) == "" then out == []
              else |out| == (if most > |items| then |items| else most) &&
                   forall j :: 0 <= j < |out| ==> out[j] == items[|items| - 1 - j]
    {
      var key := TrimSpace(streamerId);
      if key == "" {
        return [];
      }
      var most := limit;
      if most <= 0 {
        most := DEFAULT_LIMIT;
      }
      var items := ItemsOf(decisions, key);
      if |items| == 0 {
        return [];
      }
      if most > |items| {
        most := |items|;
      }
      var start := |items| - most;
      out := [];
      var i := |items| - 1;
      while i >= start
        invariant start - 1 <= i < |items| && |out| == |items| - 1 - i
        invariant forall j :: 0 <= j < |out| ==> out[j] == items[|items| - 1 - j]
      {
        out := out + [items[i]];
        i := i - 1;
      }
    }
  }

  // ---------- Any number of calls at once ----------

  type Pid = nat

  datatype Pc =
    | Started(req: Request)
    | Numbered(n: nat, item: Decision)
    | Recorded(n: nat, item: Decision, at: nat)  // at is the place it took in its streamer's list
    | Refused(error: Error)

  /** owners runs along decisions and says which call stored each item. */
  datatype State = State(counter: nat, decisions: Decisions, procs: map<Pid, Pc>, owners: map<string, seq<Pid>>)

  const START := State(0, map[], map[], map[])

  datatype Action = Begin(p: Pid, req: Request) | DrawNumber(p: Pid, now: int) | Append(p: Pid)

  predicate Enabled(s: State, a: Action) {
    match a
    case Begin(p, _) => p !in s.procs
    case DrawNumber(p, _) => p in s.procs && s.procs[p].Started?
    case Append(p) => p in s.procs && s.procs[p].Numbered?
  }

  function OwnersOf(s: State, key: string): seq<Pid> {
    if key in s.owners then s.owners[key] else []
  }

  function Apply(s: State, a: Action): State
    requires Enabled(s, a)
  {
    match a
    case Begin(p, req) => s.(procs := s.procs[p := Started(req)])
    case DrawNumber(p, now) =>
      var checked := Checked(s.procs[p].req);
      if checked.Err? then s.(procs := s.procs[p := Refused(checked.error)])
      else
        var n := s.counter + 1;
        s.(counter := n, procs := s.procs[p := Numbered(n, Item(n, checked.value, now))])
    case Append(p) =>
      var n, item := s.procs[p].n, s.procs[p].item;
      var key := item.streamerId;
      s.(decisions := s.decisions[key := ItemsOf(s.decisions, key) + [item]],
         owners := s.owners[key := OwnersOf(s, key) + [p]],
         procs := s.procs[p := Recorded(n, item, |ItemsOf(s.decisions, key)|)])
  }

  /** Recorded, and for that streamer. */
  predicate Takes(req: Request, key: string) {
    Checked(req).Ok? && Checked(req).value.streamerId == key
  }

  /** Recorded as it stands, if at all. */
  predicate Clean(req: Request) {
    Checked(req).Ok? ==> Checked(req).value == req
  }

  /** A draw changes the call and the counter only. */
  lemma DrawEffect(s: State, p: Pid, now: int)
    requires Enabled(s, DrawNumber(p, now))
    ensures var req, t := s.procs[p].req, Apply(s, DrawNumber(p, now));
            && t == s.(counter := t.counter, procs := t.procs) && p in t.procs && s.counter <= t.counter
            && t.procs == s.procs[p := t.procs[p]] && (t.procs[p].Numbered? || t.procs[p].Refused?)
            && (t.procs[p].Numbered? ==> t.procs[p].n == t.counter == s.counter + 1)
            && (t.procs[p].Numbered? && Clean(req) ==>
                  t.procs[p].item.streamerId == req.streamerId && t.procs[p].item.runId == req.runId)
  {
    var answer := Checked(s.procs[p].req);
    if answer.Err? {
      assert Apply(s, DrawNumber(p, now)).procs == s.procs[p := Refused(answer.error)];
    }
  }

  predicate HasNumber(pc: Pc) {
    pc.Numbered? || pc.Recorded?
  }

  predicate ProcOk(counter: nat, d: Decisions, pc: Pc) {
    && (HasNumber(pc) ==> 1 <= pc.n <= counter && pc.item.id == Id(pc.n))
    && (pc.Recorded? ==> pc.at < |ItemsOf(d, pc.item.streamerId)| && ItemsOf(d, pc.item.streamerId)[pc.at] == pc.item)
  }

  predicate PlaceOk(s: State, key: string, i: nat)
    requires i < |ItemsOf(s.decisions, key)|
  {
    i < |OwnersOf(s, key)| &&
    var p := OwnersOf(s, key)[i];
    p in s.procs && s.procs[p].Recorded? && s.procs[p].at == i && s.procs[p].item == ItemsOf(s.decisions, key)[i] &&
    s.procs[p].item.streamerId == key
  }

  ghost predicate PlacesOk(s: State) {
    && (forall key :: |OwnersOf(s, key)| == |ItemsOf(s.decisions, key)|)
    && (forall key, i: nat :: i < |ItemsOf(s.decisions, key)| ==> PlaceOk(s, key, i))
  }

  predicate NumbersDiffer(procs: map<Pid, Pc>) {
    forall p, q :: p in procs && q in procs && p != q && HasNumber(procs[p]) && HasNumber(procs[q]) ==>
      procs[p].n != procs[q].n
  }

  ghost predicate Inv(s: State) {
    (forall p :: p in s.procs ==> ProcOk(s.counter, s.decisions, s.procs[p])) && NumbersDiffer(s.procs) && PlacesOk(s)
  }

  lemma PlacesKept(s: State, t: State)
    requires PlacesOk(s) && t.decisions == s.decisions && t.owners == s.owners
    requires forall p :: p in s.procs && s.procs[p].Recorded? ==> p in t.procs && t.procs[p] == s.procs[p]
    ensures PlacesOk(t)
  {
    forall key, i: nat | i < |ItemsOf(t.decisions, key)| ensures PlaceOk(t, key, i) { assert PlaceOk(s, key, i); }
    assert forall key :: OwnersOf(t, key) == OwnersOf(s, key);
  }

  lemma BeginKeeps(s: State, p: Pid, req: Request)
    requires Inv(s) && Enabled(s, Begin(p, req))
    ensures Inv(Apply(s, Begin(p, req)))
  {
    var t := Apply(s, Begin(p, req));
    PlacesKept(s, t);
  }

  lemma DrawKeeps(s: State, p: Pid, now: int)
    requires Inv(s) && Enabled(s, DrawNumber(p, now))
    ensures Inv(Apply(s, DrawNumber(p, now)))
  {
    var t := Apply(s, DrawNumber(p, now));
    PlacesKept(s, t);
    forall q | q in t.procs ensures ProcOk(t.counter, t.decisions, t.procs[q]) {
      assert q != p ==> ProcOk(s.counter, s.decisions, s.procs[q]);
    }
    forall q | q in s.procs && q != p && HasNumber(s.procs[q]) ensures s.procs[q].n <= s.counter {
      assert ProcOk(s.counter, s.decisions, s.procs[q]);
    }
  }

  lemma AppendKeeps(s: State, p: Pid)
    requires Inv(s) && Enabled(s, Append(p))
    ensures Inv(Apply(s, Append(p)))
  {
    var t := Apply(s, Append(p));
    var home := s.procs[p].item.streamerId;
    assert ItemsOf(t.decisions, home) == ItemsOf(s.decisions, home) + [s.procs[p].item];
    assert OwnersOf(t, home) == OwnersOf(s, home) + [p];
    assert forall key :: key != home ==>
      ItemsOf(t.decisions, key) == ItemsOf(s.decisions, key) && OwnersOf(t, key) == OwnersOf(s, key);
    forall key, i: nat | i < |ItemsOf(t.decisions, key)| ensures PlaceOk(t, key, i) {
      if i < |ItemsOf(s.decisions, key)| {
        assert PlaceOk(s, key, i);
      }
    }
    forall q | q in t.procs ensures ProcOk(t.counter, t.decisions, t.procs[q]) {
      assert ProcOk(s.counter, s.decisions, s.procs[q]);
    }
  }

  lemma StepKeeps(s: State, a: Action)
    requires Inv(s) && Enabled(s, a)
    ensures Inv(Apply(s, a))
  {
    match a {
      case Begin(p, req) => BeginKeeps(s, p, req);
      case DrawNumber(p, now) => DrawKeeps(s, p, now);
      case Append(p) => AppendKeeps(s, p);
    }
  }

  ghost predicate Reaches(s: State, actions: seq<Action>, t: State)
    decreases |actions|
  {
    if actions == [] then s == t else Enabled(s, actions[0]) && Reaches(Apply(s, actions[0]), actions[1..], t)
  }

  lemma {:induction false} RunKeeps(s: State, actions: seq<Action>, t: State)
    requires Inv(s) && Reaches(s, actions, t)
    ensures Inv(t)
    decreases |actions|
  {
    if actions != [] {
      StepKeeps(s, actions[0]);
      RunKeeps(Apply(s, actions[0]), actions[1..], t);
    }
  }

  /** Whatever interleaves: no two stored items share an id. */
  lemma IdsAreDistinct(actions: seq<Action>, s: State, key: string, i: nat, other: string, j: nat)
    requires Reaches(START, actions, s)
    requires i < |ItemsOf(s.decisions, key)| && j < |ItemsOf(s.decisions, other)| && (key != other || i != j)
    ensures ItemsOf(s.decisions, key)[i].id != ItemsOf(s.decisions, other)[j].id
  {
    RunKeeps(START, actions, s);
    assert PlaceOk(s, key, i) && PlaceOk(s, other, j);
    var p, q := OwnersOf(s, key)[i], OwnersOf(s, other)[j];
    assert ProcOk(s.counter, s.decisions, s.procs[p]) && ProcOk(s.counter, s.decisions, s.procs[q]);
    NumberedDiffer("llm_", s.procs[p].n, s.procs[q].n);
  }

  /** Whatever interleaves: a call that returned an item stored it in exactly one place, under its own streamer. */
  lemma StoredExactlyOnce(actions: seq<Action>, s: State, p: Pid)
    requires Reaches(START, actions, s) && p in s.procs && s.procs[p].Recorded?
    ensures var item, at := s.procs[p].item, s.procs[p].at;
            && at < |ItemsOf(s.decisions, item.streamerId)| && ItemsOf(s.decisions, item.streamerId)[at] == item
            && forall key, i: nat :: i < |ItemsOf(s.decisions, key)| && ItemsOf(s.decisions, key)[i].id == item.id ==>
                 key == item.streamerId && i == at
  {
    RunKeeps(START, actions, s);
    var item, at := s.procs[p].item, s.procs[p].at;
    assert ProcOk(s.counter, s.decisions, s.procs[p]);
    forall key, i: nat | i < |ItemsOf(s.decisions, key)| && ItemsOf(s.decisions, key)[i].id == item.id
      ensures key == item.streamerId && i == at
    {
      if key != item.streamerId || i != at {
        IdsAreDistinct(actions, s, key, i, item.streamerId, at);
      }
    }
  }

  /**
   * Whatever interleaves: every stored item was returned by a call, and a call that has not appended yet has
   * stored nothing.
   */
  lemma NothingElseIsStored(actions: seq<Action>, s: State)
    requires Reaches(START, actions, s)
    ensures forall key, i: nat :: i < |ItemsOf(s.decisions, key)| ==> PlaceOk(s, key, i)
    ensures forall p, key, i: nat :: p in s.procs && s.procs[p].Numbered? && i < |ItemsOf(s.decisions, key)| ==>
              ItemsOf(s.decisions, key)[i].id != s.procs[p].item.id
  {
    RunKeeps(START, actions, s);
    forall p, key, i: nat | p in s.procs && s.procs[p].Numbered? && i < |ItemsOf(s.decisions, key)|
      ensures ItemsOf(s.decisions, key)[i].id != s.procs[p].item.id
    {
      assert PlaceOk(s, key, i) && ProcOk(s.counter, s.decisions, s.procs[p]);
      var q := OwnersOf(s, key)[i];
      assert ProcOk(s.counter, s.decisions, s.procs[q]);
      NumberedDiffer("llm_", s.procs[q].n, s.procs[p].n);
    }
  }

  /** A list only ever grows at its end: what was stored stays where it is. */
  lemma {:induction false} ListsOnlyGrow(s: State, actions: seq<Action>, t: State, key: string)
    requires Reaches(s, actions, t)
    ensures ItemsOf(s.decisions, key) <= ItemsOf(t.decisions, key)
    decreases |actions|
  {
    if actions != [] {
      ListsOnlyGrow(Apply(s, actions[0]), actions[1..], t, key);
    }
  }

  /** The steps of a call with nobody in between do what the method does, also when it is refused. */
  lemma SoloCall(s: State, p: Pid, req: Request, now: int)
    requires p !in s.procs
    ensures var begun := Apply(s, Begin(p, req));
            && Enabled(begun, DrawNumber(p, now))
            && var drawn := Apply(begun, DrawNumber(p, now));
            && (Checked(req).Err? ==> drawn == s.(procs := s.procs[p := Refused(Checked(req).error)]))
            && (Checked(req).Ok? ==>
                  && Enabled(drawn, Append(p))
                  && var t := Apply(drawn, Append(p));
                  && t.counter == s.counter + 1 && t.procs[p].Recorded? &&
                     t.procs[p].item == Item(t.counter, Checked(req).value, now)
                  && var item := t.procs[p].item;
                  && t.decisions == s.decisions[item.streamerId := ItemsOf(s.decisions, item.streamerId) + [item]])
  {
    var begun := Apply(s, Begin(p, req));
    assert begun.procs[p] == Started(req);
    var drawn := Apply(begun, DrawNumber(p, now));
    if Checked(req).Ok? {
      assert drawn.procs[p] == Numbered(s.counter + 1, Item(s.counter + 1, Checked(req).value, now));
    } else {
      assert drawn.procs == s.procs[p := Refused(Checked(req).error)];
    }
  }

  // ---------- The order of the numbers ----------

  function NumberIn(id: string): nat {
    NumberAfter("llm_", id)
  }

  /** In the order of their numbers. */
  predicate InOrder(items: seq<Decision>) {
    forall i, j :: 0 <= i < j < |items| ==> NumberIn(items[i].id) < NumberIn(items[j].id)
  }

  predicate NumbersBelow(items: seq<Decision>, n: nat) {
    forall i :: 0 <= i < |items| ==> NumberIn(items[i].id) < n
  }

  /** Between its two critical sections, with an item for the streamer. */
  predicate Pending(s: State, p: Pid, key: string) {
    p in s.procs && s.procs[p].Numbered? && s.procs[p].item.streamerId == key
  }

  ghost predicate OneAtATime(s: State, key: string) {
    forall p, q :: Pending(s, p, key) && Pending(s, q, key) ==> p == q
  }

  /** What is stored is in order, and what is still to be stored comes after it. */
  ghost predicate Ahead(s: State, key: string) {
    InOrder(ItemsOf(s.decisions, key)) &&
    forall p :: Pending(s, p, key) ==> NumbersBelow(ItemsOf(s.decisions, key), s.procs[p].n)
  }

  lemma NumberOfItem(item: Decision, n: nat)
    requires item.id == Id(n)
    ensures NumberIn(item.id) == n
  {
    NumberAfterPrefix("llm_", n);
  }

  lemma StoredNumber(s: State, key: string, i: nat)
    requires Inv(s) && i < |ItemsOf(s.decisions, key)|
    ensures NumberIn(ItemsOf(s.decisions, key)[i].id) <= s.counter
  {
    assert PlaceOk(s, key, i);
    var p := OwnersOf(s, key)[i];
    assert ProcOk(s.counter, s.decisions, s.procs[p]);
    NumberOfItem(s.procs[p].item, s.procs[p].n);
  }

  lemma DrawStaysAhead(s: State, p: Pid, now: int, key: string)
    requires Inv(s) && Ahead(s, key) && Enabled(s, DrawNumber(p, now))
    ensures Ahead(Apply(s, DrawNumber(p, now)), key)
  {
    var t := Apply(s, DrawNumber(p, now));
    forall i: nat | i < |ItemsOf(s.decisions, key)| ensures NumberIn(ItemsOf(s.decisions, key)[i].id) <= s.counter {
      StoredNumber(s, key, i);
    }
    forall q | Pending(t, q, key) ensures NumbersBelow(ItemsOf(t.decisions, key), t.procs[q].n) {
      assert q != p ==> Pending(s, q, key);
    }
  }

  lemma AppendStaysAhead(s: State, p: Pid, key: string)
    requires Inv(s) && Ahead(s, key) && OneAtATime(s, key) && Enabled(s, Append(p))
    ensures Ahead(Apply(s, Append(p)), key) && OneAtATime(Apply(s, Append(p)), key)
  {
    var t := Apply(s, Append(p));
    assert forall q :: Pending(t, q, key) ==> Pending(s, q, key) && q != p;
    if s.procs[p].item.streamerId == key {
      assert Pending(s, p, key) && ProcOk(s.counter, s.decisions, s.procs[p]);
      NumberOfItem(s.procs[p].item, s.procs[p].n);
      assert ItemsOf(t.decisions, key) == ItemsOf(s.decisions, key) + [s.procs[p].item];
    } else {
      assert ItemsOf(t.decisions, key) == ItemsOf(s.decisions, key);
    }
  }

  lemma StepStaysAhead(s: State, a: Action, key: string)
    requires Inv(s) && Ahead(s, key) && OneAtATime(s, key) && Enabled(s, a)
    ensures Ahead(Apply(s, a), key)
  {
    match a {
      case Begin(p, req) => assert forall q :: Pending(Apply(s, a), q, key) ==> Pending(s, q, key);
      case DrawNumber(p, now) => DrawStaysAhead(s, p, now, key);
      case Append(p) => AppendStaysAhead(s, p, key);
    }
  }

  /** A run to t before which no two calls of the streamer are ever pending at once; in t they may be. */
  ghost predicate SerialRun(s: State, actions: seq<Action>, t: State, key: string)
    decreases |actions|
  {
    if actions == [] then s == t
    else OneAtATime(s, key) && Enabled(s, actions[0]) && SerialRun(Apply(s, actions[0]), actions[1..], t, key)
  }

  lemma {:induction false} SerialRunStaysAhead(s: State, actions: seq<Action>, t: State, key: string)
    requires Inv(s) && Ahead(s, key) && SerialRun(s, actions, t, key)
    ensures Inv(t) && Ahead(t, key)
    decreases |actions|
  {
    if actions != [] {
      StepKeeps(s, actions[0]);
      StepStaysAhead(s, actions[0], key);
      SerialRunStaysAhead(Apply(s, actions[0]), actions[1..], t, key);
    }
  }

  predicate AppendsOnly(actions: seq<Action>) {
    forall i :: 0 <= i < |actions| ==> actions[i].Append?
  }

  /** The calls that are pending can leave the items of the streamer out of order. */
  ghost predicate OrderCanBreak(s: State, key: string) {
    exists appends, t :: AppendsOnly(appends) && Reaches(s, appends, t) && !InOrder(ItemsOf(t.decisions, key))
  }

  /**
   * The exact condition, whoever the callers are: the order can break by what is pending unless it is at most
   * one call with a number after all that are stored.
   */
  lemma OrderCanBreakIff(s: State, key: string)
    requires Inv(s)
    ensures OrderCanBreak(s, key) <==> !(OneAtATime(s, key) && Ahead(s, key))
  {
    if OneAtATime(s, key) && Ahead(s, key) {
      forall appends, t | AppendsOnly(appends) && Reaches(s, appends, t) ensures InOrder(ItemsOf(t.decisions, key)) {
        AppendsStayAhead(s, appends, t, key);
      }
    } else if !InOrder(ItemsOf(s.decisions, key)) {
      assert AppendsOnly([]) && Reaches(s, [], s);
    } else if !OneAtATime(s, key) {
      var p, q :| Pending(s, p, key) && Pending(s, q, key) && p != q;
      if s.procs[p].n < s.procs[q].n {
        TwoBreakTheOrder(s, p, q, key);
      } else {
        TwoBreakTheOrder(s, q, p, key);
      }
    } else {
      var p :| Pending(s, p, key) && !NumbersBelow(ItemsOf(s.decisions, key), s.procs[p].n);
      LateNumberBreaksTheOrder(s, p, key);
    }
  }

  lemma {:induction false} AppendsStayAhead(s: State, appends: seq<Action>, t: State, key: string)
    requires Inv(s) && OneAtATime(s, key) && Ahead(s, key) && AppendsOnly(appends) && Reaches(s, appends, t)
    ensures InOrder(ItemsOf(t.decisions, key))
    decreases |appends|
  {
    if appends != [] {
      var p := appends[0].p;
      AppendKeeps(s, p);
      AppendStaysAhead(s, p, key);
      AppendsStayAhead(Apply(s, appends[0]), appends[1..], t, key);
    }
  }

  /** The later number first. */
  lemma TwoBreakTheOrder(s: State, p: Pid, q: Pid, key: string)
    requires Inv(s) && Pending(s, p, key) && Pending(s, q, key) && s.procs[p].n <= s.procs[q].n && p != q
    ensures OrderCanBreak(s, key)
  {
    var m := Apply(s, Append(q));
    assert Pending(m, p, key) && m.procs[p] == s.procs[p];
    AppendKeeps(s, q);
    assert ProcOk(s.counter, s.decisions, s.procs[q]);
    NumberOfItem(s.procs[q].item, s.procs[q].n);
    LateAppend(m, p, key, |ItemsOf(s.decisions, key)|);
    var t := Apply(m, Append(p));
    var appends := [Append(q), Append(p)];
    assert appends[1..] == [Append(p)] && [Append(p)][1..] == [];
    assert Reaches(m, [Append(p)], t);
    assert AppendsOnly(appends) && Reaches(s, appends, t);
  }

  lemma LateNumberBreaksTheOrder(s: State, p: Pid, key: string)
    requires Inv(s) && Pending(s, p, key) && !NumbersBelow(ItemsOf(s.decisions, key), s.procs[p].n)
    ensures OrderCanBreak(s, key)
  {
    var t := Apply(s, Append(p));
    var i :| 0 <= i < |ItemsOf(s.decisions, key)| && NumberIn(ItemsOf(s.decisions, key)[i].id) >= s.procs[p].n;
    LateAppend(s, p, key, i);
    assert [Append(p)][1..] == [];
    assert AppendsOnly([Append(p)]) && Reaches(s, [Append(p)], t);
  }

  lemma LateAppend(s: State, p: Pid, key: string, i: nat)
    requires Inv(s) && Pending(s, p, key) && i < |ItemsOf(s.decisions, key)|
    requires NumberIn(ItemsOf(s.decisions, key)[i].id) >= s.procs[p].n
    ensures !InOrder(ItemsOf(Apply(s, Append(p)).decisions, key))
  {
    var items := ItemsOf(Apply(s, Append(p)).decisions, key);
    assert ProcOk(s.counter, s.decisions, s.procs[p]);
    NumberOfItem(s.procs[p].item, s.procs[p].n);
    assert items == ItemsOf(s.decisions, key) + [s.procs[p].item];
    assert NumberIn(items[i].id) >= NumberIn(items[|items| - 1].id);
  }

  /**
   * Until two calls of a streamer are pending at once its items are in order, whatever the calls of other
   * streamers do; and from then on the order can break.
   */
  lemma OrderUntilTwoArePending(actions: seq<Action>, s: State, key: string)
    requires SerialRun(START, actions, s, key)
    ensures Ahead(s, key)
    ensures OrderCanBreak(s, key) <==> exists p, q :: p != q && Pending(s, p, key) && Pending(s, q, key)
  {
    SerialRunStaysAhead(START, actions, s, key);
    OrderCanBreakIff(s, key);
  }

  lemma {:induction false} ReachesThen(s: State, first: seq<Action>, m: State, last: seq<Action>, t: State)
    requires Reaches(s, first, m) && Reaches(m, last, t)
    ensures Reaches(s, first + last, t)
    decreases |first|
  {
    if first == [] {
      assert first + last == last;
    } else {
      ReachesThen(Apply(s, first[0]), first[1..], m, last, t);
      assert (first + last)[1..] == first[1..] + last;
    }
  }

  /** A call that begins while another one of the streamer is under way can leave its items out of order. */
  lemma NewcomerBreaksTheOrder(s: State, p: Pid, q: Pid, req: Request, key: string)
    returns (steps: seq<Action>, t: State)
    requires Inv(s) && p in s.procs && s.procs[p].Started? && q !in s.procs
    requires Takes(s.procs[p].req, key) && Takes(req, key)
    ensures Reaches(s, steps, t) && !InOrder(ItemsOf(t.decisions, key))
    ensures forall i :: 0 <= i < |steps| && steps[i].Begin? ==> steps[i].p == q
  {
    var begun := Apply(s, Begin(q, req));
    BeginKeeps(s, q, req);
    var one := Draws(begun, p, s.procs[p].req, key);
    steps, t := SecondDraws(one, p, q, req, key);
    StepThen(begun, DrawNumber(p, 0), one, steps, t);
    steps := [DrawNumber(p, 0)] + steps;
    StepThen(s, Begin(q, req), begun, steps, t);
    steps := [Begin(q, req)] + steps;
  }

  lemma SecondDraws(s: State, p: Pid, q: Pid, req: Request, key: string) returns (steps: seq<Action>, t: State)
    requires Inv(s) && Pending(s, p, key) && q in s.procs && s.procs[q] == Started(req) && Takes(req, key)
    ensures Reaches(s, steps, t) && !InOrder(ItemsOf(t.decisions, key))
    ensures forall i :: 0 <= i < |steps| ==> !steps[i].Begin?
  {
    assert ProcOk(s.counter, s.decisions, s.procs[p]);
    var two := Draws(s, q, req, key);
    steps, t := BothAreDrawn(two, p, q, key);
    StepThen(s, DrawNumber(q, 0), two, steps, t);
    steps := [DrawNumber(q, 0)] + steps;
  }

  lemma BothAreDrawn(s: State, p: Pid, q: Pid, key: string) returns (steps: seq<Action>, t: State)
    requires Inv(s) && Pending(s, p, key) && Pending(s, q, key) && s.procs[p].n < s.procs[q].n
    ensures AppendsOnly(steps) && Reaches(s, steps, t) && !InOrder(ItemsOf(t.decisions, key))
  {
    TwoBreakTheOrder(s, p, q, key);
    steps, t :| AppendsOnly(steps) && Reaches(s, steps, t) && !InOrder(ItemsOf(t.decisions, key));
  }

  lemma Draws(s: State, p: Pid, req: Request, key: string) returns (t: State)
    requires Inv(s) && p in s.procs && s.procs[p] == Started(req)
    requires Takes(req, key)
    ensures Enabled(s, DrawNumber(p, 0)) && t == Apply(s, DrawNumber(p, 0)) && Inv(t)
    ensures Pending(t, p, key) && t.procs[p].n == t.counter && t.procs == s.procs[p := t.procs[p]]
  {
    t := Apply(s, DrawNumber(p, 0));
    DrawKeeps(s, p, 0);
    DrawEffect(s, p, 0);
  }

  lemma StepThen(s: State, a: Action, m: State, rest: seq<Action>, t: State)
    requires Enabled(s, a) && m == Apply(s, a) && Reaches(m, rest, t)
    ensures Reaches(s, [a] + rest, t)
  {
    assert ([a] + rest)[1..] == rest;
  }

  /** Any two requests about one streamer can be stored in the order opposite to that of their numbers. */
  lemma AppendsCanOvertake(a: Request, b: Request) returns (actions: seq<Action>, s: State)
    requires Checked(a).Ok? && Checked(b).Ok? && Checked(a).value.streamerId == Checked(b).value.streamerId
    ensures Reaches(START, actions, s)
    ensures ItemsOf(s.decisions, Checked(a).value.streamerId) ==
            [Item(2, Checked(b).value, 0), Item(1, Checked(a).value, 0)]
  {
    actions, s := FirstDraws(a, b);
    actions, s := OneDraws(actions, s, 2, b);
    actions, s := SecondAppendsFirst(actions, s, Item(1, Checked(a).value, 0), Item(2, Checked(b).value, 0));
  }

  lemma SecondAppendsFirst(before: seq<Action>, s: State, x: Decision, y: Decision)
    returns (actions: seq<Action>, t: State)
    requires Reaches(START, before, s) && s.decisions == map[] && x.streamerId == y.streamerId
    requires 1 in s.procs && 2 in s.procs && s.procs[1] == Numbered(1, x) && s.procs[2] == Numbered(2, y)
    ensures Reaches(START, actions, t) && ItemsOf(t.decisions, x.streamerId) == [y, x]
  {
    var m := Apply(s, Append(2));
    t := Apply(m, Append(1));
    assert ItemsOf(m.decisions, x.streamerId) == [y];
    var last := [Append(2), Append(1)];
    assert last[1..] == [Append(1)] && [Append(1)][1..] == [];
    assert Reaches(m, [Append(1)], t);
    ReachesThen(START, before, s, last, t);
    actions := before + last;
  }

  lemma FirstDraws(a: Request, b: Request) returns (actions: seq<Action>, s: State)
    requires Checked(a).Ok?
    ensures s.counter == 1 && s.decisions == map[] && 1 in s.procs && 2 in s.procs && s.procs[2] == Started(b)
    ensures s.procs[1] == Numbered(1, Item(1, Checked(a).value, 0)) && Reaches(START, actions, s)
  {
    actions, s := BothBegun(a, b);
    actions, s := OneDraws(actions, s, 1, a);
  }

  lemma OneDraws(actions: seq<Action>, s: State, p: Pid, a: Request) returns (more: seq<Action>, t: State)
    requires Reaches(START, actions, s) && p in s.procs && s.procs[p] == Started(a) && Checked(a).Ok?
    ensures t == s.(counter := s.counter + 1,
                    procs := s.procs[p := Numbered(s.counter + 1, Item(s.counter + 1, Checked(a).value, 0))])
    ensures Reaches(START, more, t)
  {
    var draw := DrawNumber(p, 0);
    t := Apply(s, draw);
    assert [draw][1..] == [] && Reaches(s, [draw], t);
    ReachesThen(START, actions, s, [draw], t);
    more := actions + [draw];
  }

  lemma BothBegun(a: Request, b: Request) returns (begins: seq<Action>, begun: State)
    ensures begun == State(0, map[], map[1 := Started(a), 2 := Started(b)], map[]) && Reaches(START, begins, begun)
  {
    begun := State(0, map[], map[1 := Started(a), 2 := Started(b)], map[]);
    assert Apply(START, Begin(1, a)) == State(0, map[], map[1 := Started(a)], map[]);
    assert Apply(Apply(START, Begin(1, a)), Begin(2, b)) == begun;
    begins := [Begin(1, a), Begin(2, b)];
    assert begins[1..] == [Begin(2, b)] && [Begin(2, b)][1..] == [];
  }
}
