/** The limit on submissions: a window of one minute per key, opened by the first call after the last one closed. */
module SubmissionLimiter {
  import opened Text

  /** Nanoseconds since Go's zero time; 0 is the zero time itself. */
  const WINDOW := 60_000_000_000
  const MAX_PER_WINDOW := 3

  datatype Limit = Limit(count: nat, windowEnds: nat)

  type Limits = map<string, Limit>

  function LimitOf(limits: Limits, key: string): Limit {
    if key in limits then limits[key] else Limit(0, 0)
  }

  function KeyOf(userId: string): string {
    var key := TrimSpace(userId);
    if key == "" then "anonymous" else key
  }

  /** The window a call at the given time falls into. */
  function Window(l: Limit, now: nat): Limit {
    if l.windowEnds == 0 || now > l.windowEnds then Limit(0, now + WINDOW) else l
  }

  predicate Admits(l: Limit, now: nat) {
    Window(l, now).count < MAX_PER_WINDOW
  }

  function Next(l: Limit, now: nat): Limit {
    var w := Window(l, now);
    if w.count < MAX_PER_WINDOW then w.(count := w.count + 1) else w
  }

  class Limiter {
    var rateLimitByKey: Limits

    constructor ()
      ensures rateLimitByKey == map[]
    {
      rateLimitByKey := map[];
    }

    method AllowSubmission(userId: string, now: nat) returns (allowed: bool)
      modifies this
      ensures allowed == Admits(LimitOf(old(rateLimitByKey), KeyOf(userId)), now)
      ensures rateLimitByKey == After1(old(rateLimitByKey), Call(KeyOf(userId), now))
      ensures forall other :: !SameSender(other, userId) ==>
                LimitOf(rateLimitByKey, KeyOf(other)) == LimitOf(old(rateLimitByKey), KeyOf(other))
    {
      var key := TrimSpace(userId);
      if key == "" {
        key := "anonymous";
      }
      var state := LimitOf(rateLimitByKey, key);
      if state.windowEnds == 0 || now > state.windowEnds {
        state := Limit(0, now + WINDOW);
      }
      if state.count >= MAX_PER_WINDOW {
        rateLimitByKey := rateLimitByKey[key := state];
        return false;
      }
      state := state.(count := state.count + 1);
      rateLimitByKey := rateLimitByKey[key := state];
      return true;
    }
  }

  // ---------- Runs ----------

  datatype Call = Call(key: string, at: nat)

  function After1(limits: Limits, c: Call): Limits {
    limits[c.key := Next(LimitOf(limits, c.key), c.at)]
  }

  /** The limiter after a sequence of calls, from empty. */
  function After(calls: seq<Call>): Limits {
    if calls == [] then map[] else After1(After(calls[..|calls| - 1]), calls[|calls| - 1])
  }

  predicate Admitted(calls: seq<Call>, i: nat)
    requires i < |calls|
  {
    Admits(LimitOf(After(calls[..i]), calls[i].key), calls[i].at)
  }

  /** How many calls for the key were admitted at a time from lo to hi, both included. */
  function AdmittedIn(calls: seq<Call>, key: string, lo: int, hi: int): nat {
    if calls == [] then 0
    else
      var last := |calls| - 1;
      AdmittedIn(calls[..last], key, lo, hi) +
      if calls[last].key == key && lo <= calls[last].at <= hi && Admitted(calls, last) then 1 else 0
  }

  /** The clock does not go back. */
  predicate Monotone(calls: seq<Call>) {
    forall i, j :: 0 <= i < j < |calls| ==> calls[i].at <= calls[j].at
  }

  /** The earliest a window can start after another one. */
  const APART := WINDOW + 1

  /** How many admissions fit in a closed interval of that length. */
  function MostIn(length: nat): nat {
    3 * (length / APART + 1) + if length % APART == 0 then 0 else 2
  }

  // ---------- How many calls get through ----------

  /** What the state of the key tells of the admissions since lo, when they all happened by hi. */
  predicate Bounded(l: Limit, lo: int, admitted: nat) {
    if l.windowEnds == 0 then l.count == 0 && admitted == 0
    else
      var start := l.windowEnds - WINDOW;
      && 0 <= start && 1 <= l.count <= MAX_PER_WINDOW
      && (lo > l.windowEnds ==> admitted == 0)
      && (lo == start ==> admitted == l.count)
      && (start < lo <= l.windowEnds ==> admitted <= l.count - 1)
      && (lo < start ==> admitted <= l.count + MostIn(start - lo) - 3)
  }

  /** One more call of the key keeps the bound. */
  lemma BoundedNext(l: Limit, now: nat, lo: int, admitted: nat)
    requires Bounded(l, lo, admitted) && (l.windowEnds != 0 ==> l.windowEnds - WINDOW <= now)
    ensures Bounded(Next(l, now), lo, admitted + if lo <= now && Admits(l, now) then 1 else 0)
  {
  }

  lemma {:induction false} AlwaysBounded(calls: seq<Call>, key: string, lo: int, hi: int)
    requires Monotone(calls) && forall i :: 0 <= i < |calls| ==> calls[i].at <= hi
    ensures Bounded(LimitOf(After(calls), key), lo, AdmittedIn(calls, key, lo, hi))
    ensures LimitOf(After(calls), key).windowEnds != 0 ==>
            calls != [] && LimitOf(After(calls), key).windowEnds - WINDOW <= calls[|calls| - 1].at
  {
    if calls != [] {
      var last := |calls| - 1;
      AlwaysBounded(calls[..last], key, lo, hi);
      if calls[last].key == key {
        BoundedNext(LimitOf(After(calls[..last]), key), calls[last].at, lo, AdmittedIn(calls[..last], key, lo, hi));
      }
    }
  }

  lemma MostInGrows(a: nat, b: nat)
    requires a <= b
    ensures MostIn(a) <= MostIn(b)
  {
    assert a / APART <= b / APART;
  }

  /**
   * In a closed interval of length L no more than 3 * (L / (W + 1) + 1) calls of one key are admitted, and two
   * more if L is no multiple of W + 1: three at one instant, five in a minute, six in a minute and an instant.
   */
  lemma {:induction false} SlidingBound(calls: seq<Call>, key: string, lo: int, hi: int)
    requires Monotone(calls) && lo <= hi
    ensures AdmittedIn(calls, key, lo, hi) <= MostIn(hi - lo)
  {
    if calls != [] && calls[|calls| - 1].at > hi {
      SlidingBound(calls[..|calls| - 1], key, lo, hi);
    } else {
      AlwaysBounded(calls, key, lo, hi);
      var l := LimitOf(After(calls), key);
      if l.windowEnds != 0 && lo <= l.windowEnds - WINDOW {
        MostInGrows(l.windowEnds - WINDOW - lo, hi - lo);
      }
    }
  }

  /** A call is turned away only if three of its key were let through within the window before it. */
  lemma RejectionIsJustified(calls: seq<Call>, i: nat)
    requires Monotone(calls) && i < |calls| && !Admitted(calls, i)
    ensures AdmittedIn(calls[..i], calls[i].key, calls[i].at - WINDOW, calls[i].at) >= MAX_PER_WINDOW
  {
    var before := calls[..i];
    var key, at := calls[i].key, calls[i].at;
    var start := LimitOf(After(before), key).windowEnds - WINDOW;
    AlwaysBounded(before, key, start, at);
    MoreAdmittedInMore(before, key, start, at - WINDOW, at);
  }

  lemma {:induction false} MoreAdmittedInMore(calls: seq<Call>, key: string, lo: int, lower: int, hi: int)
    requires lower <= lo
    ensures AdmittedIn(calls, key, lo, hi) <= AdmittedIn(calls, key, lower, hi)
  {
    if calls != [] {
      MoreAdmittedInMore(calls[..|calls| - 1], key, lo, lower, hi);
    }
  }

  // ---------- Keys do not affect each other ----------

  function OnlyKey(calls: seq<Call>, key: string): seq<Call> {
    if calls == [] then []
    else
      var rest := OnlyKey(calls[..|calls| - 1], key);
      if calls[|calls| - 1].key == key then rest + [calls[|calls| - 1]] else rest
  }

  /** Leaving out the calls of all other keys changes neither the state of a key nor what it is granted. */
  lemma {:induction false} KeysAreIndependent(calls: seq<Call>, key: string, lo: int, hi: int)
    ensures LimitOf(After(OnlyKey(calls, key)), key) == LimitOf(After(calls), key)
    ensures AdmittedIn(OnlyKey(calls, key), key, lo, hi) == AdmittedIn(calls, key, lo, hi)
  {
    if calls != [] {
      var last := |calls| - 1;
      KeysAreIndependent(calls[..last], key, lo, hi);
      if calls[last].key == key {
        var rest := OnlyKey(calls[..last], key);
        assert OnlyKey(calls, key)[..|rest|] == rest;
      }
    }
  }

  // ---------- By users ----------

  datatype Submission = Submission(userId: string, at: nat)

  /** The ids agree but for spaces around them; a blank id counts as anonymous. */
  predicate SameSender(a: string, b: string) {
    TrimSpace(a) == TrimSpace(b) || (TrimSpace(a) in {"", "anonymous"} && TrimSpace(b) in {"", "anonymous"})
  }

  lemma KeysAreSenders(a: string, b: string)
    ensures KeyOf(a) == KeyOf(b) <==> SameSender(a, b)
  {
  }

  function Calls(submissions: seq<Submission>): seq<Call> {
    seq(|submissions|,
        i requires 0 <= i < |submissions| => Call(KeyOf(submissions[i].userId), submissions[i].at))
  }

  predicate Granted(submissions: seq<Submission>, i: nat)
    requires i < |submissions|
  {
    Admitted(Calls(submissions), i)
  }

  /** How many submissions of the user's were granted at a time from lo to hi. */
  function GrantedIn(submissions: seq<Submission>, userId: string, lo: int, hi: int): nat {
    if submissions == [] then 0
    else
      var last := |submissions| - 1;
      GrantedIn(submissions[..last], userId, lo, hi) +
      if SameSender(submissions[last].userId, userId) && lo <= submissions[last].at <= hi && Granted(submissions, last)
      then 1 else 0
  }

  lemma CallsOfFirst(submissions: seq<Submission>, n: nat)
    requires n <= |submissions|
    ensures Calls(submissions[..n]) == Calls(submissions)[..n]
  {
  }

  lemma {:induction false} GrantedIsAdmitted(submissions: seq<Submission>, userId: string, lo: int, hi: int)
    ensures GrantedIn(submissions, userId, lo, hi) == AdmittedIn(Calls(submissions), KeyOf(userId), lo, hi)
  {
    if submissions != [] {
      var last := |submissions| - 1;
      GrantedIsAdmitted(submissions[..last], userId, lo, hi);
      CallsOfFirst(submissions, last);
      KeysAreSenders(submissions[last].userId, userId);
    }
  }

  predicate InTime(submissions: seq<Submission>) {
    forall i, j :: 0 <= i < j < |submissions| ==> submissions[i].at <= submissions[j].at
  }

  /** No user gets more granted in an interval than MostIn, however many spellings and users there are. */
  lemma UserIsBounded(submissions: seq<Submission>, userId: string, lo: int, hi: int)
    requires InTime(submissions) && lo <= hi
    ensures GrantedIn(submissions, userId, lo, hi) <= MostIn(hi - lo)
  {
    GrantedIsAdmitted(submissions, userId, lo, hi);
    SlidingBound(Calls(submissions), KeyOf(userId), lo, hi);
  }

  /** A user is refused only after three grants to that same user within the window before. */
  lemma RefusalIsOwnFault(submissions: seq<Submission>, i: nat)
    requires InTime(submissions) && i < |submissions| && !Granted(submissions, i)
    ensures GrantedIn(submissions[..i], submissions[i].userId, submissions[i].at - WINDOW, submissions[i].at) >= 3
  {
    var Submission(userId, at) := submissions[i];
    RejectionIsJustified(Calls(submissions), i);
    CallsOfFirst(submissions, i);
    GrantedIsAdmitted(submissions[..i], userId, at - WINDOW, at);
  }

  /** The submissions of one user. */
  function Own(submissions: seq<Submission>, userId: string): seq<Submission> {
    if submissions == [] then []
    else
      var last := |submissions| - 1;
      var rest := Own(submissions[..last], userId);
      if SameSender(submissions[last].userId, userId) then rest + [submissions[last]] else rest
  }

  lemma {:induction false} OwnCalls(submissions: seq<Submission>, userId: string)
    ensures Calls(Own(submissions, userId)) == OnlyKey(Calls(submissions), KeyOf(userId))
  {
    if submissions != [] {
      var last := |submissions| - 1;
      OwnCalls(submissions[..last], userId);
      CallsOfFirst(submissions, last);
      KeysAreSenders(submissions[last].userId, userId);
    }
  }

  /** What others submit changes nothing for a user. */
  lemma UsersAreIndependent(submissions: seq<Submission>, userId: string, lo: int, hi: int)
    ensures GrantedIn(Own(submissions, userId), userId, lo, hi) == GrantedIn(submissions, userId, lo, hi)
    ensures LimitOf(After(Calls(Own(submissions, userId))), KeyOf(userId)) ==
            LimitOf(After(Calls(submissions)), KeyOf(userId))
  {
    OwnCalls(submissions, userId);
    GrantedIsAdmitted(Own(submissions, userId), userId, lo, hi);
    GrantedIsAdmitted(submissions, userId, lo, hi);
    KeysAreIndependent(Calls(submissions), KeyOf(userId), lo, hi);
  }

  // ---------- The bound is met ----------

  /** The calls so far are in order up to the given time, and leave the key with this state and so many admissions. */
  ghost predicate Reached(calls: seq<Call>, key: string, lo: int, hi: int, at: nat, l: Limit, n: nat) {
    Monotone(calls) && (forall i :: 0 <= i < |calls| ==> calls[i].at <= at) &&
    LimitOf(After(calls), key) == l && AdmittedIn(calls, key, lo, hi) == n
  }

  lemma OneMore(calls: seq<Call>, c: Call, lo: int, hi: int, at: nat, l: Limit, n: nat) returns (more: seq<Call>)
    requires Reached(calls, c.key, lo, hi, at, l, n) && at <= c.at
    ensures Reached(more, c.key, lo, hi, c.at, Next(l, c.at), n + if lo <= c.at <= hi && Admits(l, c.at) then 1 else 0)
  {
    more := calls + [c];
    assert more[..|calls|] == calls;
  }

  /** Three calls at a time when the last window is over fill a window of their own. */
  lemma ThreeMore(calls: seq<Call>, key: string, lo: int, hi: int, at: nat, l: Limit, n: nat, now: nat)
    returns (more: seq<Call>)
    requires Reached(calls, key, lo, hi, at, l, n) && at <= now && lo <= now <= hi
    requires l.windowEnds == 0 || now > l.windowEnds
    ensures Reached(more, key, lo, hi, now, Limit(3, now + WINDOW), n + 3)
  {
    var c := Call(key, now);
    more := OneMore(calls, c, lo, hi, at, l, n);
    more := OneMore(more, c, lo, hi, now, Limit(1, now + WINDOW), n + 1);
    more := OneMore(more, c, lo, hi, now, Limit(2, now + WINDOW), n + 2);
  }

  /** So many full windows, each as soon as the one before is over. */
  lemma {:induction false} FullWindows(calls: seq<Call>, key: string, lo: int, hi: int, at: nat, n: nat, windows: nat)
    returns (more: seq<Call>)
    requires Reached(calls, key, lo, hi, at, Limit(3, at + WINDOW), n) && lo <= at && at + windows * APART <= hi
    ensures Reached(more, key, lo, hi, at + windows * APART, Limit(3, at + windows * APART + WINDOW), n + 3 * windows)
    decreases windows
  {
    more := calls;
    if windows > 0 {
      more := ThreeMore(calls, key, lo, hi, at, Limit(3, at + WINDOW), n, at + APART);
      assert (at + APART) + (windows - 1) * APART == at + windows * APART;
      more := FullWindows(more, key, lo, hi, at + APART, n + 3, windows - 1);
    }
  }

  /**
   * No smaller bound holds, whatever the length: full windows one after the other, after two calls if there is
   * room.
   */
  lemma BoundIsReached(length: nat) returns (calls: seq<Call>)
    ensures Monotone(calls) && AdmittedIn(calls, "user", WINDOW, WINDOW + length) == MostIn(length)
  {
    var hi := WINDOW + length;
    if length % APART == 0 {
      calls := ThreeMore([], "user", WINDOW, hi, 0, Limit(0, 0), 0, WINDOW);
      calls := FullWindows(calls, "user", WINDOW, hi, WINDOW, 3, length / APART);
    } else {
      calls := TwoAtTheEnd(hi);
      calls := ThreeMore(calls, "user", WINDOW, hi, WINDOW, Limit(3, WINDOW), 2, APART);
      calls := FullWindows(calls, "user", WINDOW, hi, APART, 5, length / APART);
    }
  }

  /** A window is opened, and its other two submissions come when it ends. */
  lemma TwoAtTheEnd(hi: int) returns (calls: seq<Call>)
    requires WINDOW <= hi
    ensures Reached(calls, "user", WINDOW, hi, WINDOW, Limit(3, WINDOW), 2)
  {
    var w := Call("user", WINDOW);
    calls := OneMore([], Call("user", 0), WINDOW, hi, 0, Limit(0, 0), 0);
    calls := OneMore(calls, w, WINDOW, hi, 0, Limit(1, WINDOW), 0);
    calls := OneMore(calls, w, WINDOW, hi, WINDOW, Limit(2, WINDOW), 1);
  }

  /** Five submissions within one minute: two at the end of a window and three at the start of the next. */
  lemma FiveInAMinute() returns (calls: seq<Call>)
    ensures Monotone(calls) && AdmittedIn(calls, "user", 60_000_000_000, 120_000_000_000) == 5 == MostIn(60_000_000_000)
  {
    calls := BoundIsReached(WINDOW);
  }
}
