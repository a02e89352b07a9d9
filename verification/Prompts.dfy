/** The versions of the prompt of each stage, and which of them is active. */
module Prompts {
  import opened Basics
  import opened Text
  import opened Sorting

  datatype Settings = Settings(temperature: Float, maxTokens: int, timeoutMs: int, retryCount: int, backoffMs: int,
                               cooldownMs: int, minConfidence: Float)

  datatype Request = Request(stage: string, template: string, model: string, settings: Settings, actorId: string)

  datatype Activation = Activation(isActive: bool, actor: string, at: Option<int>)

  datatype Version = Version(id: string, stage: string, version: nat, template: string, model: string,
                             settings: Settings, createdBy: string, createdAt: int, activation: Activation)

  datatype Error =
    | InvalidStage | InvalidTemplate | InvalidModel | InvalidTemperature | InvalidMaxTokens | InvalidTimeout
    | InvalidRetryCount | InvalidBackoff | InvalidCooldown | InvalidMinConfidence | NotFound

  predicate IsStage(stage: string) {
    stage == "stage_a" || stage == "stage_b" || stage == "stage_c" || stage == "stage_d"
  }

  function Checked(req: Request): Option<Error> {
    var s := req.settings;
    if !IsStage(TrimSpace(req.stage)) then Some(InvalidStage)
    else if TrimSpace(req.template) == "" then Some(InvalidTemplate)
    else if TrimSpace(req.model) == "" then Some(InvalidModel)
    else if Outside(s.temperature, 0.0, 2.0) then Some(InvalidTemperature)
    else if s.maxTokens <= 0 then Some(InvalidMaxTokens)
    else if s.timeoutMs <= 0 then Some(InvalidTimeout)
    else if s.retryCount < 0 || s.retryCount > 10 then Some(InvalidRetryCount)
    else if s.backoffMs < 0 then Some(InvalidBackoff)
    else if s.cooldownMs < 0 then Some(InvalidCooldown)
    else if Outside(s.minConfidence, 0.0, 1.0) then Some(InvalidMinConfidence)
    else None
  }

  predicate OutOfRange(x: Float, least: real, most: real) {
    !x.NaN? && (x.Finite? ==> x.value < least || x.value > most)
  }

  /** What each error says about the request. */
  predicate Faulty(req: Request, error: Error) {
    match error
    case InvalidStage => TrimSpace(req.stage) !in {"stage_a", "stage_b", "stage_c", "stage_d"}
    case InvalidTemplate => TrimSpace(req.template) == ""
    case InvalidModel => TrimSpace(req.model) == ""
    case InvalidTemperature => OutOfRange(req.settings.temperature, 0.0, 2.0)
    case InvalidMaxTokens => req.settings.maxTokens <= 0
    case InvalidTimeout => req.settings.timeoutMs <= 0
    case InvalidRetryCount => !(0 <= req.settings.retryCount <= 10)
    case InvalidBackoff => req.settings.backoffMs < 0
    case InvalidCooldown => req.settings.cooldownMs < 0
    case InvalidMinConfidence => OutOfRange(req.settings.minConfidence, 0.0, 1.0)
    case NotFound => false
  }

  /** Errors are looked for in this order. */
  const ERRORS := [InvalidStage, InvalidTemplate, InvalidModel, InvalidTemperature, InvalidMaxTokens, InvalidTimeout,
                   InvalidRetryCount, InvalidBackoff, InvalidCooldown, InvalidMinConfidence]

  /** The first fault is reported, and nothing is only if there is none. */
  lemma FirstFault(req: Request, k: nat)
    requires k < |ERRORS|
    ensures Checked(req) == Some(ERRORS[k]) <==>
              Faulty(req, ERRORS[k]) && forall j :: 0 <= j < k ==> !Faulty(req, ERRORS[j])
    ensures Checked(req).Some? ==> Checked(req).value in ERRORS
  {
    assert ERRORS[0] == InvalidStage && ERRORS[1] == InvalidTemplate && ERRORS[2] == InvalidModel;
    assert ERRORS[3] == InvalidTemperature && ERRORS[4] == InvalidMaxTokens && ERRORS[5] == InvalidTimeout;
    assert ERRORS[6] == InvalidRetryCount && ERRORS[7] == InvalidBackoff && ERRORS[8] == InvalidCooldown;
    assert ERRORS[9] == InvalidMinConfidence;
  }

  /** The version says what the request says, and is not active. */
  predicate Says(v: Version, req: Request, now: int) {
    && v.stage == TrimSpace(req.stage) && v.template == TrimSpace(req.template) && v.model == TrimSpace(req.model)
    && v.settings == req.settings && v.createdBy == TrimSpace(req.actorId) && v.createdAt == now
    && v.activation == Activation(false, "", None)
  }

  // ---------- What the service stores ----------

  datatype History = History(counter: nat, versions: map<string, seq<Version>>)

  const EMPTY := History(0, map[])

  function Of(h: History, stage: string): seq<Version> {
    if stage in h.versions then h.versions[stage] else []
  }

  function Id(n: nat): string {
    "prompt-" + DecNat(n)
  }

  function NewVersion(h: History, req: Request, now: int): Version {
    var stage := TrimSpace(req.stage);
    Version(Id(h.counter + 1), stage, |Of(h, stage)| + 1, TrimSpace(req.template), TrimSpace(req.model), req.settings,
            TrimSpace(req.actorId), now, Activation(false, "", None))
  }

  function Created(h: History, req: Request, now: int): History {
    if Checked(req).Some? then h
    else
      var v := NewVersion(h, req, now);
      History(h.counter + 1, h.versions[v.stage := Of(h, v.stage) + [v]])
  }

  lemma CreatedSays(h: History, req: Request, now: int)
    requires Checked(req).None?
    ensures var v := NewVersion(h, req, now);
            && Says(v, req, now) && v.id == "prompt-" + DecNat(h.counter + 1) && v.version == |Of(h, v.stage)| + 1
            && Of(Created(h, req, now), v.stage) == Of(h, v.stage) + [v]
            && Created(h, req, now).counter == h.counter + 1
            && forall stage :: stage != v.stage ==> Of(Created(h, req, now), stage) == Of(h, stage)
  {
  }

  /** Where the version with the id is in the list. */
  function Find(list: seq<Version>, id: string): Option<nat> {
    if list == [] then None
    else if list[0].id == id then Some(0)
    else
      var r := Find(list[1..], id);
      if r.Some? then Some(r.value + 1) else None
  }

  datatype Place = Place(stage: string, at: nat)

  function Locate(h: History, id: string): Option<Place> {
    if Find(Of(h, "stage_a"), id).Some? then Some(Place("stage_a", Find(Of(h, "stage_a"), id).value))
    else if Find(Of(h, "stage_b"), id).Some? then Some(Place("stage_b", Find(Of(h, "stage_b"), id).value))
    else if Find(Of(h, "stage_c"), id).Some? then Some(Place("stage_c", Find(Of(h, "stage_c"), id).value))
    else if Find(Of(h, "stage_d"), id).Some? then Some(Place("stage_d", Find(Of(h, "stage_d"), id).value))
    else None
  }

  /** The list with version number at + 1 as its active one. */
  function Flagged(list: seq<Version>, at: nat, actor: string, now: int): seq<Version> {
    seq(|list|, i requires 0 <= i < |list| =>
      var was := list[i].activation;
      list[i].(activation := if i == at then Activation(true, actor, Some(now)) else was.(isActive := false)))
  }

  function Activated(h: History, id: string, actor: string, now: int): History {
    var place := Locate(h, id);
    if place.None? then h
    else h.(versions := h.versions[place.value.stage := Flagged(Of(h, place.value.stage), place.value.at, actor, now)])
  }

  // ---------- The invariant ----------

  predicate Numbered(list: seq<Version>, stage: string) {
    forall i :: 0 <= i < |list| ==> list[i].version == i + 1 && list[i].stage == stage
  }

  /** The number in an id. */
  function NumberIn(id: string): nat {
    NumberAfter("prompt-", id)
  }

  /** The id of one of the first so many versions created. */
  predicate Drawn(id: string, counter: nat) {
    id == Id(NumberIn(id)) && 1 <= NumberIn(id) <= counter
  }

  predicate IdsDrawn(list: seq<Version>, counter: nat) {
    forall i {:trigger Drawn(list[i].id, counter)} :: 0 <= i < |list| ==> Drawn(list[i].id, counter)
  }

  predicate OneActive(list: seq<Version>) {
    forall i, j :: 0 <= i < |list| && 0 <= j < |list| && list[i].activation.isActive && list[j].activation.isActive ==>
      i == j
  }

  predicate ListOk(list: seq<Version>, stage: string, counter: nat) {
    Numbered(list, stage) && IdsDrawn(list, counter) && OneActive(list)
  }

  predicate Has(h: History, stage: string, i: nat, id: string) {
    i < |Of(h, stage)| && Of(h, stage)[i].id == id
  }

  ghost predicate DistinctIds(h: History) {
    forall s, i, t, j, id :: Has(h, s, i, id) && Has(h, t, j, id) ==> s == t && i == j
  }

  ghost predicate ListsOk(h: History) {
    forall stage {:trigger ListOk(Of(h, stage), stage, h.counter)} :: ListOk(Of(h, stage), stage, h.counter)
  }

  function Total(h: History): nat {
    |Of(h, "stage_a")| + |Of(h, "stage_b")| + |Of(h, "stage_c")| + |Of(h, "stage_d")|
  }

  /**
   * Every stage holds versions 1 to n in order with at most one of them active, all ids differ, and the
   * counter is the number of versions there are.
   */
  ghost predicate Valid(h: History) {
    && (forall stage :: stage in h.versions ==> IsStage(stage))
    && ListsOk(h)
    && DistinctIds(h)
    && h.counter == Total(h)
  }

  lemma NumberInId(n: nat)
    ensures NumberIn(Id(n)) == n
  {
    NumberAfterPrefix("prompt-", n);
  }

  lemma ListAppend(list: seq<Version>, v: Version, stage: string, counter: nat)
    requires ListOk(list, stage, counter)
    requires v.stage == stage && v.id == Id(counter + 1) && v.version == |list| + 1 && !v.activation.isActive
    ensures ListOk(list + [v], stage, counter + 1)
  {
    DrawnByOneMore(list, stage, counter);
    NumberInId(counter + 1);
    assert Drawn(v.id, counter + 1);
    assert IdsDrawn(list + [v], counter + 1);
  }

  lemma DrawnByOneMore(list: seq<Version>, stage: string, counter: nat)
    requires ListOk(list, stage, counter)
    ensures ListOk(list, stage, counter + 1)
  {
    forall i | 0 <= i < |list| ensures Drawn(list[i].id, counter + 1) {
      assert Drawn(list[i].id, counter);
    }
  }

  lemma NewIdIsNew(h: History, stage: string, i: nat)
    requires Valid(h)
    ensures !Has(h, stage, i, Id(h.counter + 1))
  {
    NumberInId(h.counter + 1);
    assert ListOk(Of(h, stage), stage, h.counter);
    assert i < |Of(h, stage)| ==> Drawn(Of(h, stage)[i].id, h.counter);
  }

  lemma DistinctIdsAppend(h: History, v: Version, t: History)
    requires DistinctIds(h) && forall stage, i :: !Has(h, stage, i, v.id)
    requires Of(t, v.stage) == Of(h, v.stage) + [v] && forall stage :: stage != v.stage ==> Of(t, stage) == Of(h, stage)
    ensures DistinctIds(t)
  {
    forall s, i, r, j, id | Has(t, s, i, id) && Has(t, r, j, id) ensures s == r && i == j {
      assert Has(h, s, i, id) || (s == v.stage && i == |Of(h, s)| && id == v.id);
      assert Has(h, r, j, id) || (r == v.stage && j == |Of(h, r)| && id == v.id);
    }
  }

  lemma CreateKeeps(h: History, req: Request, now: int)
    requires Valid(h)
    ensures Valid(Created(h, req, now))
  {
    if Checked(req).None? {
      var v := NewVersion(h, req, now);
      AppendKeeps(h, v, Created(h, req, now));
    }
  }

  lemma ListsAppend(h: History, v: Version, t: History)
    requires ListsOk(h) && v.id == Id(h.counter + 1) && v.version == |Of(h, v.stage)| + 1 && !v.activation.isActive
    requires t.counter == h.counter + 1
    requires Of(t, v.stage) == Of(h, v.stage) + [v] && forall stage :: stage != v.stage ==> Of(t, stage) == Of(h, stage)
    ensures ListsOk(t)
  {
    forall stage ensures ListOk(Of(t, stage), stage, t.counter) {
      assert ListOk(Of(h, stage), stage, h.counter);
      if stage == v.stage {
        ListAppend(Of(h, stage), v, stage, h.counter);
      } else {
        DrawnByOneMore(Of(h, stage), stage, h.counter);
      }
    }
  }

  lemma TotalAppend(h: History, v: Version, t: History)
    requires IsStage(v.stage)
    requires Of(t, v.stage) == Of(h, v.stage) + [v] && forall stage :: stage != v.stage ==> Of(t, stage) == Of(h, stage)
    ensures Total(t) == Total(h) + 1
  {
  }

  lemma AppendKeeps(h: History, v: Version, t: History)
    requires Valid(h) && IsStage(v.stage) && v.id == Id(h.counter + 1) && v.version == |Of(h, v.stage)| + 1 &&
             !v.activation.isActive
    requires t == History(h.counter + 1, h.versions[v.stage := Of(h, v.stage) + [v]])
    ensures Valid(t)
  {
    assert Of(t, v.stage) == Of(h, v.stage) + [v];
    assert forall stage :: stage != v.stage ==> Of(t, stage) == Of(h, stage);
    ListsAppend(h, v, t);
    TotalAppend(h, v, t);
    forall stage, i ensures !Has(h, stage, i, v.id) {
      NewIdIsNew(h, stage, i);
    }
    DistinctIdsAppend(h, v, t);
  }

  lemma {:induction false} FindFinds(list: seq<Version>, id: string)
    ensures Find(list, id).Some? ==> Find(list, id).value < |list| && list[Find(list, id).value].id == id
    ensures Find(list, id).Some? <==> exists i :: 0 <= i < |list| && list[i].id == id
  {
    if list != [] && list[0].id != id {
      FindFinds(list[1..], id);
      if i :| 0 <= i < |list| && list[i].id == id {
        assert list[1..][i - 1].id == id;
      }
    }
  }

  /** An id is found where it is, if it is anywhere. */
  lemma LocateLocates(h: History, id: string)
    requires Valid(h)
    ensures Locate(h, id).Some? ==> Has(h, Locate(h, id).value.stage, Locate(h, id).value.at, id)
    ensures forall stage, i :: Has(h, stage, i, id) ==> Locate(h, id) == Some(Place(stage, i))
  {
    FindFinds(Of(h, "stage_a"), id);
    FindFinds(Of(h, "stage_b"), id);
    FindFinds(Of(h, "stage_c"), id);
    FindFinds(Of(h, "stage_d"), id);
    forall stage, i | Has(h, stage, i, id) ensures Locate(h, id) == Some(Place(stage, i)) {
      assert IsStage(stage);
      FindFinds(Of(h, stage), id);
      var place := Locate(h, id).value;
      assert Has(h, place.stage, place.at, id);
    }
  }

  /** Flagging the version found is activating it. */
  lemma FoundIsActivated(h: History, id: string, actor: string, now: int, stage: string, at: nat)
    requires Valid(h) && Has(h, stage, at, id) && stage in h.versions
    ensures Locate(h, id) == Some(Place(stage, at))
    ensures Activated(h, id, actor, now) ==
            h.(versions := h.versions[stage := Flagged(h.versions[stage], at, actor, now)])
  {
    LocateLocates(h, id);
  }

  lemma NowhereIsNone(h: History, id: string)
    requires Valid(h) && forall stage, i :: !Has(h, stage, i, id)
    ensures Locate(h, id).None?
  {
    LocateLocates(h, id);
  }

  lemma FlaggedOk(list: seq<Version>, stage: string, counter: nat, at: nat, actor: string, now: int)
    requires ListOk(list, stage, counter)
    ensures ListOk(Flagged(list, at, actor, now), stage, counter)
  {
    var r := Flagged(list, at, actor, now);
    forall i | 0 <= i < |r| ensures Drawn(r[i].id, counter) {
      assert Drawn(list[i].id, counter);
    }
  }

  lemma ActivateKeeps(h: History, id: string, actor: string, now: int)
    requires Valid(h)
    ensures Valid(Activated(h, id, actor, now))
  {
    LocateLocates(h, id);
    if Locate(h, id).Some? {
      var place, t := Locate(h, id).value, Activated(h, id, actor, now);
      FlagKeeps(h, place.stage, place.at, actor, now, t);
    }
  }

  lemma FlagKeeps(h: History, stage: string, at: nat, actor: string, now: int, t: History)
    requires Valid(h) && at < |Of(h, stage)|
    requires t == h.(versions := h.versions[stage := Flagged(Of(h, stage), at, actor, now)])
    ensures Valid(t)
  {
    assert forall s :: s != stage ==> Of(t, s) == Of(h, s);
    forall s ensures ListOk(Of(t, s), s, t.counter) {
      assert ListOk(Of(h, s), s, h.counter);
      FlaggedOk(Of(h, s), s, h.counter, at, actor, now);
    }
    FlagKeepsIds(h, stage, at, actor, now, t);
  }

  lemma FlagKeepsIds(h: History, stage: string, at: nat, actor: string, now: int, t: History)
    requires DistinctIds(h) && t == h.(versions := h.versions[stage := Flagged(Of(h, stage), at, actor, now)])
    ensures DistinctIds(t)
  {
    forall s, i, r, j, id | Has(t, s, i, id) && Has(t, r, j, id) ensures s == r && i == j {
      assert Has(h, s, i, id) && Has(h, r, j, id);
    }
  }

  /** Activating a version touches the activations of its stage and nothing else. */
  lemma ActivatedSays(h: History, stage: string, i: nat, id: string, actor: string, now: int)
    requires Valid(h) && Has(h, stage, i, id)
    ensures var t := Activated(h, id, actor, now);
            && t.counter == h.counter && |Of(t, stage)| == |Of(h, stage)|
            && Of(t, stage)[i] == Of(h, stage)[i].(activation := Activation(true, actor, Some(now)))
            && (forall k :: 0 <= k < |Of(t, stage)| && k != i ==>
                  var was := Of(h, stage)[k];
                  Of(t, stage)[k] == was.(activation := was.activation.(isActive := false)))
            && forall other :: other != stage ==> Of(t, other) == Of(h, other)
  {
    LocateLocates(h, id);
  }

  lemma ActivatedNowhere(h: History, id: string, actor: string, now: int)
    requires Valid(h) && forall stage, i :: !Has(h, stage, i, id)
    ensures Activated(h, id, actor, now) == h
  {
    LocateLocates(h, id);
  }

  // ---------- Runs ----------

  datatype Op = Create(req: Request, now: int) | Activate(id: string, actor: string, now: int)

  function Step(h: History, op: Op): History {
    match op
    case Create(req, now) => Created(h, req, now)
    case Activate(id, actor, now) => Activated(h, id, TrimSpace(actor), now)
  }

  function After(ops: seq<Op>): History {
    if ops == [] then EMPTY else Step(After(ops[..|ops| - 1]), ops[|ops| - 1])
  }

  lemma {:induction false} AlwaysValid(ops: seq<Op>)
    ensures Valid(After(ops))
  {
    if ops != [] {
      var before := ops[..|ops| - 1];
      AlwaysValid(before);
      match ops[|ops| - 1] {
        case Create(req, now) => CreateKeeps(After(before), req, now);
        case Activate(id, actor, now) => ActivateKeeps(After(before), id, TrimSpace(actor), now);
      }
    }
  }

  /** Which version of the stage, counted from 0, the last successful Activate of one of its versions named. */
  function LastActivated(ops: seq<Op>, stage: string): Option<nat> {
    if ops == [] then None
    else
      var before, op := ops[..|ops| - 1], ops[|ops| - 1];
      var place := if op.Activate? then Locate(After(before), op.id) else None;
      if place.Some? && place.value.stage == stage then Some(place.value.at) else LastActivated(before, stage)
  }

  /**
   * After any run the active version of a stage is the one activated last; there is none before the first
   * activation.
   */
  lemma {:induction false} ActiveIsLastActivated(ops: seq<Op>, stage: string, i: nat)
    requires i < |Of(After(ops), stage)|
    ensures Of(After(ops), stage)[i].activation.isActive <==> LastActivated(ops, stage) == Some(i)
  {
    var before, op := ops[..|ops| - 1], ops[|ops| - 1];
    var h := After(before);
    AlwaysValid(before);
    LastActivatedExists(before, stage);
    if i < |Of(h, stage)| {
      ActiveIsLastActivated(before, stage, i);
    }
    if op.Activate? {
      LocateLocates(h, op.id);
    }
  }

  lemma {:induction false} LastActivatedExists(ops: seq<Op>, stage: string)
    ensures LastActivated(ops, stage).Some? ==> LastActivated(ops, stage).value < |Of(After(ops), stage)|
  {
    if ops != [] {
      var before, op := ops[..|ops| - 1], ops[|ops| - 1];
      AlwaysValid(before);
      LastActivatedExists(before, stage);
      if op.Activate? {
        LocateLocates(After(before), op.id);
      }
    }
  }

  /** The version without the fields Activate writes. */
  function Core(v: Version): Version {
    v.(activation := Activation(false, "", None))
  }

  /** No step removes, reorders or rewrites a version: only activation fields change, and those in one stage at most. */
  lemma HistoryIsKept(h: History, op: Op, stage: string, i: nat)
    requires Valid(h) && i < |Of(h, stage)|
    ensures i < |Of(Step(h, op), stage)| && Core(Of(Step(h, op), stage)[i]) == Core(Of(h, stage)[i])
    ensures Of(Step(h, op), stage)[i] != Of(h, stage)[i] ==>
              op.Activate? && Locate(h, op.id).Some? && Locate(h, op.id).value.stage == stage
  {
    if op.Activate? {
      LocateLocates(h, op.id);
    }
  }

  ghost predicate HasActive(h: History, stage: string) {
    exists i :: 0 <= i < |Of(h, stage)| && Of(h, stage)[i].activation.isActive
  }

  lemma AlwaysOneActive(ops: seq<Op>, stage: string)
    ensures OneActive(Of(After(ops), stage))
  {
    AlwaysValid(ops);
    assert ListOk(Of(After(ops), stage), stage, After(ops).counter);
  }

  /** Once a stage has an active version it always has exactly one. */
  lemma ActiveStays(ops: seq<Op>, more: seq<Op>, stage: string)
    requires HasActive(After(ops), stage)
    ensures HasActive(After(ops + more), stage) && OneActive(Of(After(ops + more), stage))
  {
    ActiveRemains(ops, more, stage);
    AlwaysOneActive(ops + more, stage);
  }

  lemma LastStepKeepsActive(ops: seq<Op>, stage: string)
    requires ops != [] && HasActive(After(ops[..|ops| - 1]), stage)
    ensures HasActive(After(ops), stage)
  {
    AlwaysValid(ops[..|ops| - 1]);
    StepKeepsActive(After(ops[..|ops| - 1]), ops[|ops| - 1], stage);
  }

  lemma {:induction false} ActiveRemains(ops: seq<Op>, more: seq<Op>, stage: string)
    requires HasActive(After(ops), stage)
    ensures HasActive(After(ops + more), stage)
    decreases |more|
  {
    if more == [] {
      assert ops + more == ops;
    } else {
      var all := ops + more;
      ActiveRemains(ops, more[..|more| - 1], stage);
      assert all[..|all| - 1] == ops + more[..|more| - 1];
      LastStepKeepsActive(all, stage);
    }
  }

  lemma StepKeepsActive(h: History, op: Op, stage: string)
    requires Valid(h) && HasActive(h, stage)
    ensures HasActive(Step(h, op), stage)
  {
    var i :| 0 <= i < |Of(h, stage)| && Of(h, stage)[i].activation.isActive;
    if op.Activate? {
      LocateLocates(h, op.id);
      if Locate(h, op.id).Some? && Locate(h, op.id).value.stage == stage {
        assert Of(Step(h, op), stage)[Locate(h, op.id).value.at].activation.isActive;
      } else {
        assert Of(Step(h, op), stage) == Of(h, stage);
      }
    } else {
      assert Of(Step(h, op), stage)[i] == Of(h, stage)[i];
    }
  }

  ghost predicate Used(h: History, n: nat) {
    exists stage, i :: Has(h, stage, i, Id(n))
  }

  /** No number is skipped and none invented: after any run the ids are exactly prompt-1 to prompt-counter. */
  lemma IdsAreOneToCounter(ops: seq<Op>, n: nat, stage: string, i: nat)
    ensures Used(After(ops), n) <==> 1 <= n <= After(ops).counter
    ensures i < |Of(After(ops), stage)| ==> exists k: nat :: Of(After(ops), stage)[i].id == Id(k)
  {
    var h := After(ops);
    AlwaysValid(ops);
    if 1 <= n <= h.counter {
      EveryNumberIsUsed(ops, n);
    }
    if Used(h, n) {
      var s, k :| Has(h, s, k, Id(n));
      IdIsDrawn(h, s, k);
      NumberInId(n);
    }
    if i < |Of(h, stage)| {
      IdIsDrawn(h, stage, i);
    }
  }

  lemma IdIsDrawn(h: History, stage: string, i: nat)
    requires Valid(h) && i < |Of(h, stage)|
    ensures Drawn(Of(h, stage)[i].id, h.counter)
  {
    assert ListOk(Of(h, stage), stage, h.counter);
  }

  lemma {:induction false} EveryNumberIsUsed(ops: seq<Op>, n: nat)
    requires 1 <= n <= After(ops).counter
    ensures Used(After(ops), n)
  {
    var before, op := ops[..|ops| - 1], ops[|ops| - 1];
    AlwaysValid(before);
    if n <= After(before).counter {
      EveryNumberIsUsed(before, n);
    }
    StepKeepsUsed(After(before), op, n);
  }

  lemma StepKeepsUsed(h: History, op: Op, n: nat)
    requires Valid(h) && n <= Step(h, op).counter && (n <= h.counter ==> Used(h, n))
    ensures Used(Step(h, op), n)
  {
    if n <= h.counter {
      var stage, i :| Has(h, stage, i, Id(n));
      IdStays(h, op, stage, i, Id(n));
    } else {
      NewNumberIsUsed(h, op, n);
    }
  }

  lemma NewNumberIsUsed(h: History, op: Op, n: nat)
    requires h.counter < n <= Step(h, op).counter
    ensures Used(Step(h, op), n)
  {
    var stage, i := DrawnByStep(h, op);
    assert Has(Step(h, op), stage, i, Id(n));
  }

  lemma IdStays(h: History, op: Op, stage: string, i: nat, id: string)
    requires Valid(h) && Has(h, stage, i, id)
    ensures Has(Step(h, op), stage, i, id)
  {
    HistoryIsKept(h, op, stage, i);
  }

  lemma DrawnByStep(h: History, op: Op) returns (stage: string, i: nat)
    requires Step(h, op).counter != h.counter
    ensures Step(h, op).counter == h.counter + 1 && Has(Step(h, op), stage, i, Id(h.counter + 1))
  {
    stage, i := TrimSpace(op.req.stage), |Of(h, TrimSpace(op.req.stage))|;
  }

  // ---------- The listing ----------

  /** By stage, then the newest version first. */
  predicate StageThenNewest(a: Version, b: Version) {
    if a.stage == b.stage then a.version > b.version else Less(a.stage, b.stage)
  }

  lemma StageThenNewestIsOrder()
    ensures StrictWeakOrder(StageThenNewest)
  {
    forall x, y | StageThenNewest(x, y) ensures !StageThenNewest(y, x) {
      if Less(x.stage, y.stage) && Less(y.stage, x.stage) {
        LessTransitive(x.stage, y.stage, x.stage);
      }
      LessIrreflexive(x.stage);
    }
    forall x, y, z | !StageThenNewest(x, y) && !StageThenNewest(y, z) ensures !StageThenNewest(x, z) {
      LessTotal(x.stage, y.stage);
      LessTotal(y.stage, z.stage);
      LessIrreflexive(x.stage);
      LessIrreflexive(y.stage);
      if Less(z.stage, y.stage) && Less(y.stage, x.stage) {
        LessTransitive(z.stage, y.stage, x.stage);
      }
      if Less(x.stage, z.stage) && Less(z.stage, x.stage) {
        LessTransitive(x.stage, z.stage, x.stage);
      }
    }
  }

  function NewestFirst(list: seq<Version>): seq<Version> {
    seq(|list|, i requires 0 <= i < |list| => list[|list| - 1 - i])
  }

  /** The stages in alphabetical order, each from its newest version to its oldest. */
  function Listing(h: History): seq<Version> {
    NewestFirst(Of(h, "stage_a")) + NewestFirst(Of(h, "stage_b")) + NewestFirst(Of(h, "stage_c")) +
      NewestFirst(Of(h, "stage_d"))
  }

  lemma {:induction false} NewestFirstElements(list: seq<Version>)
    ensures multiset(NewestFirst(list)) == multiset(list)
  {
    if list != [] {
      var last := |list| - 1;
      NewestFirstElements(list[..last]);
      assert NewestFirst(list) == [list[last]] + NewestFirst(list[..last]);
      assert list == list[..last] + [list[last]];
    }
  }

  /** All of one stage, newest first. */
  ghost predicate Block(list: seq<Version>, stage: string) {
    StrictlyOrdered(StageThenNewest, list) && forall v :: v in list ==> v.stage == stage
  }

  lemma NewestFirstBlock(list: seq<Version>, stage: string)
    requires Numbered(list, stage)
    ensures Block(NewestFirst(list), stage)
  {
  }

  lemma JoinOrdered(front: seq<Version>, list: seq<Version>, stage: string)
    requires StrictlyOrdered(StageThenNewest, front) && Block(list, stage) && forall v :: v in front ==>
             Less(v.stage, stage)
    ensures StrictlyOrdered(StageThenNewest, front + list)
    ensures forall v :: v in front + list ==> v.stage == stage || v in front
  {
    LessIrreflexive(stage);
    var r := front + list;
    forall i, j | 0 <= i < j < |r| ensures StageThenNewest(r[i], r[j]) {
      assert i < |front| ==> r[i] in front;
      assert j >= |front| ==> r[j] in list;
    }
  }

  lemma StagesAreOrdered()
    ensures Less("stage_a", "stage_b") && Less("stage_b", "stage_c") && Less("stage_c", "stage_d")
    ensures Less("stage_a", "stage_c") && Less("stage_a", "stage_d") && Less("stage_b", "stage_d")
  {
    SameFront("stage_", "a", "b");
    SameFront("stage_", "b", "c");
    SameFront("stage_", "c", "d");
    LessTransitive("stage_a", "stage_b", "stage_c");
    LessTransitive("stage_b", "stage_c", "stage_d");
    LessTransitive("stage_a", "stage_b", "stage_d");
  }

  lemma {:induction false} SameFront(front: string, a: string, b: string)
    requires Less(a, b)
    ensures Less(front + a, front + b)
  {
    if front == "" {
      assert front + a == a && front + b == b;
    } else {
      SameFront(front[1..], a, b);
      assert (front + a)[1..] == front[1..] + a && (front + b)[1..] == front[1..] + b;
    }
  }

  lemma ListingOrdered(h: History)
    requires ListsOk(h)
    ensures StrictlyOrdered(StageThenNewest, Listing(h))
  {
    StagesAreOrdered();
    assert ListOk(Of(h, "stage_a"), "stage_a", h.counter) && ListOk(Of(h, "stage_b"), "stage_b", h.counter);
    assert ListOk(Of(h, "stage_c"), "stage_c", h.counter) && ListOk(Of(h, "stage_d"), "stage_d", h.counter);
    FourBlocks(Of(h, "stage_a"), Of(h, "stage_b"), Of(h, "stage_c"), Of(h, "stage_d"), "stage_a", "stage_b", "stage_c",
               "stage_d");
  }

  lemma FourBlocks(a: seq<Version>, b: seq<Version>, c: seq<Version>, d: seq<Version>, sa: string, sb: string,
                   sc: string, sd: string)
    requires Numbered(a, sa) && Numbered(b, sb) && Numbered(c, sc) && Numbered(d, sd)
    requires Less(sa, sb) && Less(sa, sc) && Less(sa, sd) && Less(sb, sc) && Less(sb, sd) && Less(sc, sd)
    ensures StrictlyOrdered(StageThenNewest, NewestFirst(a) + NewestFirst(b) + NewestFirst(c) + NewestFirst(d))
  {
    NewestFirstBlock(a, sa);
    NewestFirstBlock(b, sb);
    NewestFirstBlock(c, sc);
    NewestFirstBlock(d, sd);
    JoinOrdered(NewestFirst(a), NewestFirst(b), sb);
    JoinOrdered(NewestFirst(a) + NewestFirst(b), NewestFirst(c), sc);
    JoinOrdered(NewestFirst(a) + NewestFirst(b) + NewestFirst(c), NewestFirst(d), sd);
  }

  // ---------- The service ----------

  class Service {
    var counter: nat
    var versions: map<string, seq<Version>>

    ghost function Stored(): History
      reads this
    {
      History(counter, versions)
    }

    constructor ()
      ensures Stored() == EMPTY
    {
      counter, versions := 0, map[];
    }

    /** The same list in whatever order the map is walked. */
    method List() returns (items: seq<Version>)
      requires Valid(Stored())
      ensures items == Listing(Stored())
    {
      items := [];
      var rest := versions.Keys;
      ghost var h := Stored();
      while rest != {}
        invariant rest <= versions.Keys
        invariant Collected(h, rest, items)
        decreases |rest|
      {
        var stage :| stage in rest;
        CollectOne(h, rest, items, stage);
        items := items + versions[stage];
        rest := rest - {stage};
      }
      SortsToListing(h, items);
      items := Sort(StageThenNewest, items);
    }

    method Create(req: Request, now: int) returns (r: Result<Version, Error>)
      requires Valid(Stored())
      modifies this
      ensures Valid(Stored())
      ensures Stored() == Created(old(Stored()), req, now) == Step(old(Stored()), Op.Create(req, now))
      ensures r == if Checked(req).Some? then Err(Checked(req).value) else Ok(NewVersion(old(Stored()), req, now))
    {
      CreateKeeps(Stored(), req, now);
      var wrong := Checked(req);
      if wrong.Some? {
        return Err(wrong.value);
      }
      var stage := TrimSpace(req.stage);
      var list := if stage in versions then versions[stage] else [];
      var nextVersion := |list| + 1;
      counter := counter + 1;
      var item := Version(Id(counter), stage, nextVersion, TrimSpace(req.template), TrimSpace(req.model), req.settings,
                          TrimSpace(req.actorId), now, Activation(false, "", None));
      assert item == NewVersion(Stored(), req, now).(id := item.id, version := item.version);
      versions := versions[stage := list + [item]];
      return Ok(item);
    }

    /** The stages are tried in any order; the result is the one Activated describes. */
    method Activate(id: string, actorId: string, now: int) returns (r: Result<Version, Error>)
      requires Valid(Stored())
      modifies this
      ensures Valid(Stored())
      ensures Stored() == Activated(old(Stored()), id, TrimSpace(actorId), now)
      ensures Stored() == Step(old(Stored()), Op.Activate(id, actorId, now))
      ensures var place := Locate(old(Stored()), id);
              if place.None? then r == Err(NotFound)
              else
                && place.value.at < |Of(Stored(), place.value.stage)|
                && r == Ok(Of(Stored(), place.value.stage)[place.value.at])
    {
      ghost var h := Stored();
      ActivateKeeps(h, id, TrimSpace(actorId), now);
      var rest := versions.Keys;
      while rest != {}
        invariant rest <= versions.Keys && Stored() == h
        invariant forall stage, i :: stage !in rest ==> !Has(h, stage, i, id)
        decreases |rest|
      {
        var stage :| stage in rest;
        rest := rest - {stage};
        var activeIndex := IndexOf(versions[stage], id);
        if activeIndex == -1 {
          continue;
        }
        FoundIsActivated(h, id, TrimSpace(actorId), now, stage, activeIndex);
        var byStage := Flag(versions[stage], activeIndex, TrimSpace(actorId), now);
        versions := versions[stage := byStage];
        return Ok(byStage[activeIndex]);
      }
      NowhereIsNone(h, id);
      return Err(NotFound);
    }

    static method IndexOf(list: seq<Version>, id: string) returns (index: int)
      ensures -1 <= index < |list|
      ensures if index == -1 then forall i :: 0 <= i < |list| ==> list[i].id != id
              else list[index].id == id && forall i :: 0 <= i < index ==> list[i].id != id
    {
      index := -1;
      for i := 0 to |list|
        invariant index == -1 && forall k :: 0 <= k < i ==> list[k].id != id
      {
        if list[i].id == id {
          index := i;
          break;
        }
      }
    }

    static method Flag(list: seq<Version>, activeIndex: nat, actor: string, now: int) returns (flagged: seq<Version>)
      requires activeIndex < |list|
      ensures flagged == Flagged(list, activeIndex, actor, now)
    {
      flagged := list;
      for i := 0 to |list|
        invariant |flagged| == |list|
        invariant forall k :: 0 <= k < i ==> flagged[k] == Flagged(list, activeIndex, actor, now)[k]
        invariant forall k :: i <= k < |list| ==> flagged[k] == list[k]
      {
        var v := flagged[i];
        v := v.(activation := v.activation.(isActive := i == activeIndex));
        if i == activeIndex {
          v := v.(activation := v.activation.(at := Some(now)));
          v := v.(activation := v.activation.(actor := actor));
        }
        flagged := flagged[i := v];
      }
    }
  }

  // ---------- Walking the map ----------

  /** The versions of the stages already walked, each once. */
  ghost predicate Collected(h: History, rest: set<string>, items: seq<Version>) {
    Distinct(items) && forall v :: v in items <==> v.stage !in rest && v in Of(h, v.stage)
  }

  lemma CollectOne(h: History, rest: set<string>, items: seq<Version>, stage: string)
    requires ListsOk(h) && Collected(h, rest, items) && stage in rest
    ensures Collected(h, rest - {stage}, items + Of(h, stage))
  {
    var list := Of(h, stage);
    assert ListOk(list, stage, h.counter);
    assert forall v :: v in list ==> v.stage == stage;
  }

  lemma SortsToListing(h: History, items: seq<Version>)
    requires ListsOk(h) && (forall stage :: stage in h.versions ==> IsStage(stage)) && Collected(h, {}, items)
    ensures Sort(StageThenNewest, items) == Listing(h)
  {
    ListingOrdered(h);
    StageThenNewestIsOrder();
    forall v ensures v in Listing(h) <==> v in items {
      ListingMembers(h, v);
    }
    DistinctMultiset(items, Listing(h));
    SortFinds(StageThenNewest, items, Listing(h));
  }

  /** By stage, from the newest version of each to the oldest, and every version there is. */
  lemma ListingSays(h: History)
    requires Valid(h)
    ensures forall i, j :: 0 <= i < j < |Listing(h)| ==>
              Less(Listing(h)[i].stage, Listing(h)[j].stage) ||
              (Listing(h)[i].stage == Listing(h)[j].stage && Listing(h)[i].version > Listing(h)[j].version)
    ensures forall v :: v in Listing(h) <==> v in Of(h, v.stage)
  {
    ListingOrdered(h);
    forall v ensures v in Listing(h) <==> v in Of(h, v.stage) {
      ListingMembers(h, v);
    }
    forall i, j | 0 <= i < j < |Listing(h)|
      ensures Less(Listing(h)[i].stage, Listing(h)[j].stage) ||
              (Listing(h)[i].stage == Listing(h)[j].stage && Listing(h)[i].version > Listing(h)[j].version)
    {
      assert StageThenNewest(Listing(h)[i], Listing(h)[j]);
    }
  }

  lemma InNewestFirst(list: seq<Version>, v: Version)
    ensures v in NewestFirst(list) <==> v in list
  {
    NewestFirstElements(list);
    assert v in multiset(NewestFirst(list)) <==> v in multiset(list);
  }

  lemma InStage(h: History, stage: string, v: Version)
    requires ListsOk(h)
    ensures v in NewestFirst(Of(h, stage)) <==> v.stage == stage && v in Of(h, v.stage)
  {
    InNewestFirst(Of(h, stage), v);
    assert ListOk(Of(h, stage), stage, h.counter);
  }

  lemma ListingMembers(h: History, v: Version)
    requires ListsOk(h) && forall stage :: stage in h.versions ==> IsStage(stage)
    ensures v in Listing(h) <==> v in Of(h, v.stage)
  {
    InStage(h, "stage_a", v);
    InStage(h, "stage_b", v);
    InStage(h, "stage_c", v);
    InStage(h, "stage_d", v);
    assert v in Of(h, v.stage) ==> IsStage(v.stage);
  }
}
