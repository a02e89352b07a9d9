/** The lock-based refresh store that keeps its sessions in a map. */
module MemoryRefreshStore {
  import opened Basics
  import opened Redis
  import opened RefreshSessions
  import opened Sorting
  import RedisRefreshStore

  datatype Entry = Entry(id: SessionId, s: Session)

  type Sessions = map<SessionId, Entry>

  // ---------- The store on values ----------

  function Current(m: Sessions, now: int): Sessions {
    map id | id in m && m[id].s.expiresAt >= now :: m[id]
  }

  function OfUser(m: Sessions, user: UserId): set<SessionId> {
    set id | id in m && m[id].s.user == user
  }

  predicate KeysMatch(m: Sessions) {
    forall id :: id in m ==> m[id].id == id
  }

  /** victim is one of the user's sessions with the earliest expiry; which one, equal expiries leave open. */
  predicate Oldest(m: Sessions, user: UserId, victim: SessionId) {
    victim in OfUser(m, user) && forall id :: id in OfUser(m, user) ==> m[victim].s.expiresAt <= m[id].s.expiresAt
  }

  /** What a Create that is accepted may leave behind. */
  ghost predicate MayCreate(max: nat, m: Sessions, now: int, e: Entry, after: Sessions) {
    var c := Current(m, now);
    if |OfUser(c, e.s.user)| < max then after == c[e.id := e]
    else exists victim :: Oldest(c, e.s.user, victim) && after == (c - {victim})[e.id := e]
  }

  function Lookup(m: Sessions, now: int, id: SessionId): Result<Session, Error> {
    if id !in m || m[id].s.expiresAt < now then Err(NotFound) else Ok(m[id].s)
  }

  function Rotated(m: Sessions, id: SessionId, current: TokenHash, next: TokenHash, expiresAt: int,
                   at: int): Result<Sessions, Error>
  {
    if next == "" then Err(NextTokenRequired)
    else if expiresAt < at then Err(ExpirationPast)
    else if id !in m then Err(NotFound)
    else if m[id].s.revokedAt.Some? then Err(Error.Revoked)
    else if m[id].s.token != current then Err(TokenMismatch)
    else Ok(m[id := m[id].(s := m[id].s.(token := next, expiresAt := expiresAt, lastRotated := at))])
  }

  function MarkedRevoked(m: Sessions, ids: set<SessionId>, at: int): Sessions {
    map id | id in m :: if id in ids then m[id].(s := m[id].s.(revokedAt := Some(at))) else m[id]
  }

  /** A session is found through the second of its expiry, revoked or not. */
  lemma LookupIff(m: Sessions, now: int, id: SessionId, s: Session)
    ensures Lookup(m, now, id) == Ok(s) <==> id in m && m[id].s == s && now <= s.expiresAt
    ensures Lookup(m, now, id).Err? ==> Lookup(m, now, id) == Err(NotFound)
  {
  }

  /** Which sessions can be rotated, what that leaves of them, and the first reason why one can not be. */
  lemma RotatedIff(m: Sessions, id: SessionId, current: TokenHash, next: TokenHash, expiresAt: int, at: int)
    ensures var r := Rotated(m, id, current, next, expiresAt, at);
            && (r.Ok? <==> next != "" && at <= expiresAt && id in m && m[id].s.revokedAt == None &&
                           m[id].s.token == current)
            && (r.Ok? ==>
                  && r.value.Keys == m.Keys && (forall x :: x in m && x != id ==> r.value[x] == m[x])
                  && r.value[id].id == m[id].id
                  && var s := m[id].s;
                     r.value[id].s == Session(s.user, s.telegram, next, expiresAt, s.createdAt, at, None))
            && (r == Err(NextTokenRequired) <==> next == "")
            && (r == Err(ExpirationPast) <==> next != "" && at > expiresAt)
            && (r == Err(NotFound) <==> next != "" && at <= expiresAt && id !in m)
            && (r == Err(Error.Revoked) <==> next != "" && at <= expiresAt && id in m && m[id].s.revokedAt.Some?)
  {
  }

  lemma MarkedSays(m: Sessions, ids: set<SessionId>, at: int)
    ensures var t := MarkedRevoked(m, ids, at);
            && t.Keys == m.Keys && (forall id :: id in m && id !in ids ==> t[id] == m[id])
            && forall id :: id in m && id in ids ==>
                 var s := m[id].s;
                 t[id] == Entry(m[id].id, Session(s.user, s.telegram, s.token, s.expiresAt, s.createdAt, s.lastRotated,
                                                  Some(at)))
  {
  }

  // ---------- The cap ----------

  ghost predicate Capped(m: Sessions, max: nat) {
    KeysMatch(m) && forall user :: |OfUser(m, user)| <= max
  }

  /** Create keeps every user within the cap, whatever ids and users it is given. */
  lemma CreateKeepsCap(max: nat, m: Sessions, now: int, e: Entry, after: Sessions)
    requires 1 <= max && Capped(m, max) && MayCreate(max, m, now, e, after)
    ensures Capped(after, max)
  {
    var c := Current(m, now);
    forall user ensures |OfUser(after, user)| <= max {
      SubsetSize(OfUser(c, user), OfUser(m, user));
      if user != e.s.user {
        SubsetSize(OfUser(after, user), OfUser(c, user));
      } else if |OfUser(c, user)| < max {
        SubsetSize(OfUser(after, user), OfUser(c, user) + {e.id});
      } else {
        var victim :| Oldest(c, user, victim) && after == (c - {victim})[e.id := e];
        SubsetSize(OfUser(after, user), OfUser(c, user) - {victim} + {e.id});
      }
    }
  }

  /** Rotating and revoking keep it too: they change no key and no owner. */
  lemma RotateKeepsCap(max: nat, m: Sessions, id: SessionId, current: TokenHash, next: TokenHash, expiresAt: int,
                       at: int)
    requires Capped(m, max)
    ensures var r := Rotated(m, id, current, next, expiresAt, at); r.Ok? ==> Capped(r.value, max)
  {
    var r := Rotated(m, id, current, next, expiresAt, at);
    if r.Ok? {
      forall user ensures |OfUser(r.value, user)| <= max {
        assert OfUser(r.value, user) == OfUser(m, user);
      }
    }
  }

  lemma MarkKeepsCap(max: nat, m: Sessions, ids: set<SessionId>, at: int)
    requires Capped(m, max)
    ensures Capped(MarkedRevoked(m, ids, at), max)
  {
    forall user ensures |OfUser(MarkedRevoked(m, ids, at), user)| <= max {
      assert OfUser(MarkedRevoked(m, ids, at), user) == OfUser(m, user);
    }
  }

  /** The entry is gone although it had not expired. */
  predicate Displaced(m: Sessions, now: int, after: Sessions, id: SessionId) {
    id in m && id !in after && m[id].s.expiresAt >= now
  }

  /**
   * Create with a fresh id removes expired entries and at most one more: one of the same user, of minimal
   * expiry, and only at the cap.
   */
  lemma CreateRemovesLittle(max: nat, m: Sessions, now: int, e: Entry, after: Sessions)
    requires 1 <= max && Capped(m, max) && e.id !in m && MayCreate(max, m, now, e, after)
    ensures e.id in after && after[e.id] == e
    ensures forall id :: id in after && id != e.id ==> id in m && after[id] == m[id] && m[id].s.expiresAt >= now
    ensures forall a, b :: Displaced(m, now, after, a) && Displaced(m, now, after, b) ==> a == b
    ensures forall a :: Displaced(m, now, after, a) ==>
              Oldest(Current(m, now), e.s.user, a) && |OfUser(Current(m, now), e.s.user)| == max
  {
    SubsetSize(OfUser(Current(m, now), e.s.user), OfUser(m, e.s.user));
  }

  /** out lists the entries of the given ids, as many as there are ids and hence each once. */
  ghost predicate Lists(m: Sessions, ids: set<SessionId>, out: seq<Entry>) {
    && |out| == |ids|
    && (forall i :: 0 <= i < |out| ==> out[i].id in ids && out[i].id in m && m[out[i].id] == out[i])
    && (forall id :: id in ids && id in m ==> m[id] in out)
  }

  lemma ListsOneMore(m: Sessions, ids: set<SessionId>, out: seq<Entry>, id: SessionId)
    requires KeysMatch(m) && Lists(m, ids, out) && id in m && id !in ids
    ensures Lists(m, ids + {id}, out + [m[id]])
  {
  }

  // ---------- The store as an object ----------

  predicate ExpiresBefore(a: Entry, b: Entry) {
    a.s.expiresAt < b.s.expiresAt
  }

  class Store {
    var sessions: Sessions
    const maxSessionsPerUser: nat

    ghost predicate Valid()
      reads this
    {
      1 <= maxSessionsPerUser && Capped(sessions, maxSessionsPerUser)
    }

    constructor (maxSessionsPerUser: int)
      ensures Valid() && sessions == map[]
      ensures this.maxSessionsPerUser == if maxSessionsPerUser < 1 then 5 else maxSessionsPerUser
    {
      this.maxSessionsPerUser := if maxSessionsPerUser < 1 then 5 else maxSessionsPerUser;
      sessions := map[];
      new;
      forall user ensures |OfUser(sessions, user)| <= this.maxSessionsPerUser {
        assert OfUser(sessions, user) == {};
      }
    }

    method CleanupExpired(now: int)
      modifies this
      ensures sessions == Current(old(sessions), now)
    {
      var rest := sessions.Keys;
      while rest != {}
        invariant rest <= sessions.Keys <= old(sessions).Keys
        invariant forall id :: id in sessions ==> sessions[id] == old(sessions)[id]
        invariant forall id :: id in old(sessions) && id !in rest ==>
                  (id in sessions <==> old(sessions)[id].s.expiresAt >= now)
        decreases rest
      {
        var id :| id in rest;
        if sessions[id].s.expiresAt < now {
          sessions := sessions - {id};
        }
        rest := rest - {id};
      }
    }

    method UserSessions(user: UserId) returns (out: seq<Entry>)
      requires KeysMatch(sessions)
      ensures Lists(sessions, OfUser(sessions, user), out)
    {
      out := [];
      var m := sessions;
      var rest := m.Keys;
      ghost var seen: set<SessionId> := {};
      while rest != {}
        invariant rest <= m.Keys
        invariant forall id :: id in m && id !in rest ==> (id in seen <==> m[id].s.user == user)
        invariant seen !! rest && seen <= m.Keys
        invariant Lists(m, seen, out)
        decreases rest
      {
        var id :| id in rest;
        if m[id].s.user == user {
          ListsOneMore(m, seen, out, id);
          out := out + [m[id]];
          seen := seen + {id};
        }
        rest := rest - {id};
      }
      assert seen == OfUser(m, user);
    }

    method Create(id: SessionId, n: RedisRefreshStore.NewSession, now: int) returns (error: Option<Error>)
      requires Valid()
      modifies this
      ensures Valid()
      ensures var bad := id == "" || n.user == "" || n.token == "";
              error == if bad then Some(InvalidSession) else if n.expiresAt <= now then Some(ExpirationPast) else None
      ensures error.Some? ==> sessions == old(sessions)
      ensures error.None? ==>
              MayCreate(maxSessionsPerUser, old(sessions), now, Entry(id, RedisRefreshStore.WithDefaults(n, now)),
                        sessions)
    {
      if id == "" || n.user == "" || n.token == "" {
        return Some(InvalidSession);
      }
      if n.expiresAt <= now {
        return Some(ExpirationPast);
      }
      var entry := Entry(id, RedisRefreshStore.WithDefaults(n, now));
      CleanupExpired(now);
      assert KeysMatch(sessions);
      var userSessions := UserSessions(n.user);
      ghost var c := sessions;
      if |userSessions| >= maxSessionsPerUser {
        var sorted := Sort(ExpiresBefore, userSessions);
        FirstIsOldest(c, n.user, userSessions);
        sessions := sessions - {sorted[0].id};
      }
      sessions := sessions[id := entry];
      CreateKeepsCap(maxSessionsPerUser, old(sessions), now, entry, sessions);
      return None;
    }

    method Get(id: SessionId, now: int) returns (r: Result<Session, Error>)
      ensures r == Lookup(sessions, now, id)
    {
      if id !in sessions {
        return Err(NotFound);
      }
      if sessions[id].s.expiresAt < now {
        return Err(NotFound);
      }
      return Ok(sessions[id].s);
    }

    method Rotate(id: SessionId, current: TokenHash, next: TokenHash, expiresAt: int, at: int)
      returns (error: Option<Error>)
      requires Valid()
      modifies this
      ensures Valid()
      ensures var r := Rotated(old(sessions), id, current, next, expiresAt, at);
              if r.Ok? then error.None? && sessions == r.value else error == Some(r.error) && sessions == old(sessions)
    {
      RotateKeepsCap(maxSessionsPerUser, sessions, id, current, next, expiresAt, at);
      if next == "" {
        return Some(NextTokenRequired);
      }
      if expiresAt < at {
        return Some(ExpirationPast);
      }
      if id !in sessions {
        return Some(NotFound);
      }
      var e := sessions[id];
      if e.s.revokedAt.Some? {
        return Some(Error.Revoked);
      }
      if e.s.token != current {
        return Some(TokenMismatch);
      }
      e := e.(s := e.s.(token := next, expiresAt := expiresAt, lastRotated := at));
      sessions := sessions[id := e];
      return None;
    }

    method RevokeSession(id: SessionId, at: int) returns (error: Option<Error>)
      requires Valid()
      modifies this
      ensures Valid()
      ensures error == if id in old(sessions) then None else Some(NotFound)
      ensures sessions == MarkedRevoked(old(sessions), {id}, at)
    {
      MarkKeepsCap(maxSessionsPerUser, sessions, {id}, at);
      if id !in sessions {
        assert MarkedRevoked(sessions, {id}, at) == sessions;
        return Some(NotFound);
      }
      sessions := sessions[id := sessions[id].(s := sessions[id].s.(revokedAt := Some(at)))];
      assert sessions == MarkedRevoked(old(sessions), {id}, at);
      return None;
    }

    method RevokeUserSessions(user: UserId, at: int)
      requires Valid()
      modifies this
      ensures Valid()
      ensures sessions == MarkedRevoked(old(sessions), OfUser(old(sessions), user), at)
    {
      MarkKeepsCap(maxSessionsPerUser, sessions, OfUser(sessions, user), at);
      var rest := sessions.Keys;
      while rest != {}
        invariant rest <= sessions.Keys == old(sessions).Keys
        invariant forall id :: id in rest ==> sessions[id] == old(sessions)[id]
        invariant forall id :: id in sessions && id !in rest ==>
                    sessions[id] == MarkedRevoked(old(sessions), OfUser(old(sessions), user), at)[id]
        decreases rest
      {
        var id :| id in rest;
        rest := rest - {id};
        if sessions[id].s.user != user {
          continue;
        }
        sessions := sessions[id := sessions[id].(s := sessions[id].s.(revokedAt := Some(at)))];
      }
      assert sessions == MarkedRevoked(old(sessions), OfUser(old(sessions), user), at);
    }
  }

  /** The first of the user's sessions sorted by expiry is one of minimal expiry. */
  lemma FirstIsOldest(m: Sessions, user: UserId, entries: seq<Entry>)
    requires KeysMatch(m) && |entries| > 0 && Lists(m, OfUser(m, user), entries)
    ensures |Sort(ExpiresBefore, entries)| == |entries| && Oldest(m, user, Sort(ExpiresBefore, entries)[0].id)
  {
    var r := Sort(ExpiresBefore, entries);
    SortSorts(ExpiresBefore, entries);
    assert |multiset(r)| == |multiset(entries)|;
    assert r[0] in multiset(entries);
    forall id | id in OfUser(m, user) ensures m[r[0].id].s.expiresAt <= m[id].s.expiresAt {
      assert m[id] in entries;
      assert m[id] in multiset(r);
      var k :| 0 <= k < |r| && r[k] == m[id];
      assert k > 0 ==> !ExpiresBefore(r[k], r[0]);
    }
  }
}
