/** The streamer list: filtering and pages of twenty. */
module StreamerCatalogue {
  import opened Basics
  import opened Text
  import opened SubmissionLimiter

  datatype Streamer = Streamer(id: string, platform: string, username: string, displayName: string, online: bool,
                               viewers: int, addedBy: string, status: string)

  /** strings.Contains */
  predicate Contains(s: string, part: string) {
    part <= s || (s != [] && Contains(s[1..], part))
  }

  predicate StandsAt(s: string, part: string, i: nat) {
    i + |part| <= |s| && s[i..i + |part|] == part
  }

  /** The part stands somewhere in the string. */
  lemma {:induction false} ContainsIff(s: string, part: string)
    ensures Contains(s, part) <==> exists i: nat :: StandsAt(s, part, i)
  {
    if part <= s {
      assert StandsAt(s, part, 0);
    } else if s != [] {
      ContainsIff(s[1..], part);
      if i: nat :| StandsAt(s[1..], part, i) {
        assert s[i + 1..i + 1 + |part|] == s[1..][i..i + |part|];
        assert StandsAt(s, part, i + 1);
      }
      if i: nat :| StandsAt(s, part, i) {
        assert i > 0 && s[1..][i - 1..i - 1 + |part|] == s[i..i + |part|];
        assert StandsAt(s[1..], part, i - 1);
      }
    }
  }

  predicate Matches(item: Streamer, needle: string, statusFilter: string) {
    (needle == "" || Contains(ToLower(item.username), needle) || Contains(ToLower(item.displayName), needle)) &&
    (statusFilter == "" || ToLower(item.status) == statusFilter)
  }

  ghost predicate Occurs(part: string, s: string) {
    exists i: nat :: StandsAt(s, part, i)
  }

  /** A blank query or status asks for nothing; case and the spaces around do not matter. */
  lemma MatchesIff(item: Streamer, query: string, status: string)
    ensures Matches(item, ToLower(TrimSpace(query)), ToLower(TrimSpace(status))) <==>
              && (TrimSpace(query) == "" || Occurs(ToLower(TrimSpace(query)), ToLower(item.username)) ||
                  Occurs(ToLower(TrimSpace(query)), ToLower(item.displayName)))
              && (TrimSpace(status) == "" || ToLower(TrimSpace(status)) == ToLower(item.status))
  {
    ContainsIff(ToLower(item.username), ToLower(TrimSpace(query)));
    ContainsIff(ToLower(item.displayName), ToLower(TrimSpace(query)));
  }

  /** The items that match, in the order they were added. */
  function Filtered(items: seq<Streamer>, needle: string, statusFilter: string): seq<Streamer> {
    if items == [] then []
    else
      var front := Filtered(items[..|items| - 1], needle, statusFilter);
      if Matches(items[|items| - 1], needle, statusFilter) then front + [items[|items| - 1]] else front
  }

  /** r is what stands at the given places of items, in that order. */
  predicate Picks(items: seq<Streamer>, r: seq<Streamer>, at: seq<nat>) {
    && |at| == |r| && (forall j, k :: 0 <= j < k < |at| ==> at[j] < at[k])
    && (forall k :: 0 <= k < |at| ==> at[k] < |items| && r[k] == items[at[k]])
  }

  /** The places of the items that match. */
  function Places(items: seq<Streamer>, needle: string, statusFilter: string): seq<nat> {
    if items == [] then []
    else
      var last := |items| - 1;
      var front := Places(items[..last], needle, statusFilter);
      if Matches(items[last], needle, statusFilter) then front + [last] else front
  }

  lemma PicksOneMore(items: seq<Streamer>, r: seq<Streamer>, at: seq<nat>)
    requires items != [] && Picks(items[..|items| - 1], r, at)
    ensures Picks(items, r, at) && Picks(items, r + [items[|items| - 1]], at + [|items| - 1])
  {
  }

  /** Filtered holds exactly the matching items, each once, in the order of the catalogue. */
  lemma {:induction false} FilteredIsTheMatches(items: seq<Streamer>, needle: string, statusFilter: string)
    ensures Picks(items, Filtered(items, needle, statusFilter), Places(items, needle, statusFilter))
    ensures forall i :: 0 <= i < |items| ==>
            (i in Places(items, needle, statusFilter) <==> Matches(items[i], needle, statusFilter))
  {
    if items != [] {
      var last := |items| - 1;
      FilteredIsTheMatches(items[..last], needle, statusFilter);
      PicksOneMore(items, Filtered(items[..last], needle, statusFilter), Places(items[..last], needle, statusFilter));
      PlacesOneMore(items, needle, statusFilter);
    }
  }

  lemma PlacesOneMore(items: seq<Streamer>, needle: string, statusFilter: string)
    requires items != []
    requires var front := items[..|items| - 1];
             Picks(front, Filtered(front, needle, statusFilter), Places(front, needle, statusFilter)) &&
             forall i :: 0 <= i < |front| ==>
               (i in Places(front, needle, statusFilter) <==> Matches(front[i], needle, statusFilter))
    ensures forall i :: 0 <= i < |items| ==>
            (i in Places(items, needle, statusFilter) <==> Matches(items[i], needle, statusFilter))
  {
    var last, all := |items| - 1, Places(items, needle, statusFilter);
    var front := Places(items[..last], needle, statusFilter);
    forall i | 0 <= i < |items| ensures i in all <==> Matches(items[i], needle, statusFilter) {
      if i < last {
        assert items[..last][i] == items[i];
        assert i in all <==> i in front;
      }
    }
  }

  // ---------- One page ----------

  const PAGE_SIZE := 20

  /** The value of n in Go's 64-bit int. */
  function Wrap(n: int): int {
    (n - MIN_INT64) % 0x1_0000_0000_0000_0000 + MIN_INT64
  }

  /** A slice expression with a negative bound panics. */
  datatype Reply<T> = Items(items: seq<T>) | Panic

  function Start(page: int): int {
    Wrap(((if page < 1 then 1 else page) - 1) * PAGE_SIZE)
  }

  function PageOf<T>(matches: seq<T>, page: int): Reply<T> {
    var start := Start(page);
    if start >= |matches| then Items([])
    else if start < 0 then Panic
    else Items(matches[start..if start + PAGE_SIZE > |matches| then |matches| else start + PAGE_SIZE])
  }

  datatype SubmitError = InvalidUsername | RateLimited | TwitchUnavailable

  function Submitted(username: string, displayName: string, addedBy: string, now: nat): Streamer {
    Streamer("str_" + DecNat(now), "twitch", ToLower(username), displayName, false, 0, addedBy, "pending")
  }

  class Catalogue {
    const limiter: Limiter
    var items: seq<Streamer>

    constructor ()
      ensures items == [] && fresh(limiter) && limiter.rateLimitByKey == map[]
    {
      limiter := new Limiter();
      items := [];
    }

    /**
     * A blank name costs nothing; any other submission counts against the limit of its sender, also if Twitch does
     * not answer. displayName is what Twitch says, limited and now are the readings of the clock.
     */
    method Submit(twitchUsername: string, addedBy: string, displayName: Option<string>, limited: nat, now: nat)
      returns (r: Result<string, SubmitError>)
      modifies this, limiter
      ensures var username := TrimSpace(twitchUsername);
              var admitted := Admits(LimitOf(old(limiter.rateLimitByKey), KeyOf(addedBy)), limited);
              && limiter.rateLimitByKey == (if username == "" then old(limiter.rateLimitByKey)
                                            else After1(old(limiter.rateLimitByKey), Call(KeyOf(addedBy), limited)))
              && (r.Ok? <==> username != "" && admitted && displayName.Some?)
              && (r == Err(InvalidUsername) <==> username == "")
              && (r == Err(RateLimited) <==> username != "" && !admitted)
              && items == if r.Err? then old(items)
                          else old(items) + [Submitted(username, displayName.value, addedBy, now)]
      ensures r.Ok? ==>
                && items != [] && items[..|items| - 1] == old(items)
                && var added := items[|items| - 1];
                && added.id == r.value == "str_" + DecNat(now) && added.platform == "twitch"
                && added.username == ToLower(TrimSpace(twitchUsername)) && Some(added.displayName) == displayName
                && !added.online && added.viewers == 0 && added.addedBy == addedBy && added.status == "pending"
    {
      var username := TrimSpace(twitchUsername);
      if username == "" {
        return Err(InvalidUsername);
      }
      var allowed := limiter.AllowSubmission(addedBy, limited);
      if !allowed {
        return Err(RateLimited);
      }
      if displayName.None? {
        return Err(TwitchUnavailable);
      }
      var streamer := Submitted(username, displayName.value, addedBy, now);
      Add(streamer);
      return Ok(streamer.id);
    }

    /** The end of Submit: a streamer that was accepted. */
    method Add(s: Streamer)
      modifies this
      ensures items == old(items) + [s]
    {
      items := items + [s];
    }

    method List(query: string, status: string, page: int) returns (r: Reply<Streamer>)
      requires Int64(page)
      ensures r == PageOf(Filtered(items, ToLower(TrimSpace(query)), ToLower(TrimSpace(status))), page)
    {
      var p := page;
      if p < 1 {
        p := 1;
      }
      var needle := ToLower(TrimSpace(query));
      var statusFilter := ToLower(TrimSpace(status));
      var matches: seq<Streamer> := [];
      for i := 0 to |items|
        invariant matches == Filtered(items[..i], needle, statusFilter)
      {
        assert items[..i + 1][..i] == items[..i];
        if needle != "" && !Contains(ToLower(items[i].username), needle) &&
          !Contains(ToLower(items[i].displayName), needle) {
          continue;
        }
        if statusFilter != "" && ToLower(items[i].status) != statusFilter {
          continue;
        }
        matches := matches + [items[i]];
      }
      assert items[..|items|] == items;
      var start := Wrap((p - 1) * PAGE_SIZE);
      if start >= |matches| {
        return Items([]);
      }
      var end := start + PAGE_SIZE;
      if end > |matches| {
        end := |matches|;
      }
      if start < 0 {
        return Panic;
      }
      return Items(matches[start..end]);
    }
  }

  // ---------- All pages ----------

  /** The items number 20(p-1) to 20p-1, as far as there are any. */
  function Slice<T>(matches: seq<T>, p: nat): seq<T>
    requires 1 <= p
  {
    matches[Min((p - 1) * PAGE_SIZE, |matches|)..Min(p * PAGE_SIZE, |matches|)]
  }

  predicate StartFits(page: int) {
    page < 1 || (page - 1) * PAGE_SIZE <= MAX_INT64
  }

  /**
   * List gives the items that belong on the page exactly if the offset fits in an int64, or happens
   * to wrap to something beyond the list.
   */
  lemma PageIsRightIff<T>(matches: seq<T>, page: int)
    requires |matches| <= MAX_INT64 && Int64(page)
    ensures PageOf(matches, page) == Items(Slice(matches, if page < 1 then 1 else page)) <==>
            StartFits(page) || Start(page) >= |matches|
    ensures StartFits(page) ==> PageOf(matches, page) == Items(Slice(matches, if page < 1 then 1 else page))
  {
    var p := if page < 1 then 1 else page;
    var offset := (p - 1) * PAGE_SIZE;
    if offset <= MAX_INT64 {
      assert Wrap(offset) == offset;
    } else {
      assert Slice(matches, p) == [];
    }
  }

  /** Pages whose offset does not fit: one panics on every list, another shows the first page again. */
  lemma OffsetsThatWrap<T>(matches: seq<T>)
    requires 0 < |matches| <= MAX_INT64
    ensures PageOf(matches, 0x0800_0000_0000_0001) == Panic
    ensures PageOf(matches, 0x4000_0000_0000_0001) == PageOf(matches, 1) != Items([])
  {
    assert Start(0x0800_0000_0000_0001) == 0x0800_0000_0000_0000 * 20 - 0x1_0000_0000_0000_0000;
    assert Start(0x4000_0000_0000_0001) == 0;
    assert Start(1) == 0;
  }

  /** Pages 1 to n one after the other. */
  function FirstPages<T>(matches: seq<T>, n: nat): seq<T>
    decreases n
  {
    if n == 0 then []
    else
      var r := PageOf(matches, n);
      FirstPages(matches, n - 1) + if r.Items? then r.items else []
  }

  lemma {:induction false} FirstPagesArePrefix<T>(matches: seq<T>, n: nat)
    requires |matches| <= MAX_INT64 && StartFits(n) && Int64(n)
    ensures FirstPages(matches, n) == matches[..Min(20 * n, |matches|)]
    decreases n
  {
    if n > 0 {
      FirstPagesArePrefix(matches, n - 1);
      PageIsRightIff(matches, n);
    }
  }

  function PageCount(m: nat): nat {
    (m + PAGE_SIZE - 1) / PAGE_SIZE
  }

  lemma PagesAreEnough(m: nat)
    requires m <= MAX_INT64 - PAGE_SIZE
    ensures m <= 20 * PageCount(m) < m + 20 && StartFits(PageCount(m)) && Int64(PageCount(m))
  {
  }

  /**
   * The pages partition the list: put together in order they are the whole list, and every page after them is
   * empty.
   */
  lemma PagesPartition<T>(matches: seq<T>)
    requires |matches| <= MAX_INT64 - PAGE_SIZE
    ensures FirstPages(matches, PageCount(|matches|)) == matches
    ensures forall page :: PageCount(|matches|) < page && StartFits(page) && Int64(page) ==>
            PageOf(matches, page) == Items([])
  {
    PagesAreEnough(|matches|);
    FirstPagesArePrefix(matches, PageCount(|matches|));
    forall page | PageCount(|matches|) < page && StartFits(page) && Int64(page)
      ensures PageOf(matches, page) == Items([])
    {
      if page >= 1 {
        PageIsRightIff(matches, page);
      }
    }
  }
}
