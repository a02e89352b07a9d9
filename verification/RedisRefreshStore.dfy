/** The Redis refresh store as one caller sees it: its methods, with nobody else talking to Redis. */
module RedisRefreshStore {
  import opened Basics
  import opened Redis
  import opened RefreshSessions
  import opened Sorting

  // ---------- Transactions as queues of commands ----------

  datatype Command =
    | HSetCmd(id: SessionId, fields: Fields)
    | DelCmd(id: SessionId)
    | ExpireCmd(id: SessionId, ttl: int)
    | ZAddCmd(user: UserId, id: SessionId, score: int)
    | ZRemCmd(user: UserId, id: SessionId)
    | ExpireIndexCmd(user: UserId, ttl: int)

  function Execute(db: Db, c: Command): Db {
    match c
    case HSetCmd(id, fields) => HSet(db, id, fields)
    case DelCmd(id) => Del(db, id)
    case ExpireCmd(id, ttl) => Expire(db, id, ttl)
    case ZAddCmd(user, id, score) => ZAdd(db, user, id, score)
    case ZRemCmd(user, id) => ZRem(db, user, {id})
    case ExpireIndexCmd(user, ttl) => ExpireIndex(db, user, ttl)
  }

  /** MULTI, the queued commands, EXEC. */
  function ExecuteAll(db: Db, queue: seq<Command>): Db {
    if queue == [] then db
    else Execute(ExecuteAll(db, queue[..|queue| - 1]), queue[|queue| - 1])
  }

  lemma ExecuteTwoMore(db: Db, queue: seq<Command>, c: Command, d: Command)
    ensures ExecuteAll(db, queue + [c, d]) == Execute(Execute(ExecuteAll(db, queue), c), d)
  {
    assert (queue + [c, d])[..|queue| + 1] == queue + [c];
    assert (queue + [c])[..|queue|] == queue;
  }

  function Elements<T>(s: seq<T>): set<T> {
    set x | x in s
  }

  lemma TouchOneMore(versions: map<SessionId, nat>, ids: set<SessionId>, id: SessionId)
    requires id !in ids
    ensures Touched(Touched(versions, ids), {id}) == Touched(versions, ids + {id})
    ensures Touched(versions, {}) == versions
  {
  }

  lemma UnlistOneMore(index: map<UserId, SetKey>, user: UserId, ids: set<SessionId>, id: SessionId)
    ensures Unlisted(Unlisted(index, user, ids), user, {id}) == Unlisted(index, user, ids + {id})
    ensures Unlisted(index, user, {}) == index
  {
    if user in index {
      var scores := index[user].scores;
      assert (scores - ids) - {id} == scores - (ids + {id});
      if scores.Keys * ids == {} {
        WithoutStrangers(scores, ids);
      }
      if id !in (scores - ids) {
        WithoutStrangers(scores - ids, {id});
        assert (scores - ids).Keys * {id} == {};
      } else {
        assert id in (scores - ids).Keys * {id};
      }
      if id !in scores {
        assert scores.Keys * (ids + {id}) == scores.Keys * ids;
      } else {
        assert id in scores.Keys * (ids + {id});
      }
    }
  }

  lemma MarkOneMore(hashes: map<SessionId, HashKey>, ids: set<SessionId>, id: SessionId, at: int)
    requires id !in ids
    ensures var m := Marked(hashes, ids, at);
            var key := if id in m then m[id] else HashKey(NO_FIELDS, None);
            m[id := key.(fields := Written(key.fields, NO_FIELDS.(revokedAt := Some(at))))] ==
              Marked(hashes, ids + {id}, at)
    ensures Marked(hashes, {}, at) == hashes
  {
  }

  lemma PurgeNone(db: Db, user: UserId)
    ensures Purge(db, user, {}) == db
  {
    UnlistOneMore(db.index, user, {}, "");
    TouchOneMore(db.versions, {}, "");
    assert {} * db.hashes.Keys == {};
    assert db.hashes - {} == db.hashes;
  }

  /** Deleting and unlisting one more session is the same as having it in the purged set. */
  lemma PurgeOneMore(db: Db, user: UserId, ids: set<SessionId>, id: SessionId)
    requires id !in ids
    ensures ZRem(Del(Purge(db, user, ids), id), user, {id}) == Purge(db, user, ids + {id})
  {
    UnlistOneMore(db.index, user, ids, id);
    TouchOneMore(db.versions, ids * db.hashes.Keys, id);
    assert (ids + {id}) * db.hashes.Keys == ids * db.hashes.Keys + (if id in db.hashes then {id} else {});
    assert (db.hashes - ids) - {id} == db.hashes - (ids + {id});
    if id !in db.hashes {
      assert db.hashes - ids == db.hashes - (ids + {id});
    }
  }

  /** Marking and unlisting one more session is the same as having it in the revoked set. */
  lemma RevokeOneMore(db: Db, user: UserId, ids: set<SessionId>, id: SessionId, at: int)
    requires id !in ids
    ensures ZRem(HSet(Revoke(db, user, ids, at), id, NO_FIELDS.(revokedAt := Some(at))), user, {id}) ==
            Revoke(db, user, ids + {id}, at)
  {
    UnlistOneMore(db.index, user, ids, id);
    TouchOneMore(db.versions, ids, id);
    MarkOneMore(db.hashes, ids, id, at);
  }

  lemma RevokeNone(db: Db, user: UserId, at: int)
    ensures Revoke(db, user, {}, at) == db
  {
    UnlistOneMore(db.index, user, {}, "");
    TouchOneMore(db.versions, {}, "");
    MarkOneMore(db.hashes, {}, "", at);
  }

  // ---------- Create on values ----------

  /** A session as callers pass it; None is Go's zero time. */
  datatype NewSession = NewSession(user: UserId, telegram: int, token: TokenHash, expiresAt: int,
                                   createdAt: Option<int>, lastRotated: Option<int>)

  function WithDefaults(n: NewSession, now: int): Session {
    var created := if n.createdAt.Some? then n.createdAt.value else now;
    Session(n.user, n.telegram, n.token, n.expiresAt, created,
            if n.lastRotated.Some? then n.lastRotated.value else created, None)
  }

  /** Nothing that was given is changed, and no session starts revoked. */
  lemma WithDefaultsSays(n: NewSession, now: int)
    ensures var s := WithDefaults(n, now);
            && s.user == n.user && s.telegram == n.telegram && s.token == n.token && s.expiresAt == n.expiresAt
            && (n.createdAt.Some? ==> Some(s.createdAt) == n.createdAt) && (n.createdAt.None? ==> s.createdAt == now)
            && (n.lastRotated.Some? ==> Some(s.lastRotated) == n.lastRotated)
            && (n.lastRotated.None? ==> s.lastRotated == s.createdAt) && s.revokedAt == None
  {
  }

  function Cleaned(db: Db, user: UserId): Db {
    var expired := ZBelow(db, user, db.now - 1);
    if expired == {} then db else Purge(db, user, expired)
  }

  lemma EvictionProgress(db: Db, user: UserId, id: SessionId)
    requires id in Scores(db, user)
    ensures Scores(ZRem(Del(db, id), user, {id}), user) == Scores(db, user) - {id}
    ensures ZCard(ZRem(Del(db, id), user, {id}), user) == ZCard(db, user) - 1
  {
    var scores := Scores(db, user);
    UnlistedScores(Del(db, id), user, {id});
    assert Scores(Del(db, id), user) == scores;
    assert (scores - {id}).Keys == scores.Keys - {id};
  }

  /** The eviction loop: while the index is full, delete the session of rank 0 and unlist it. */
  function Evicted(max: nat, db: Db, user: UserId): Db
    decreases ZCard(db, user)
  {
    if ZCard(db, user) < max then db
    else
      var first := ZFirst(db, user);
      if first.None? then db
      else
        EvictionProgress(db, user, first.value);
        Evicted(max, ZRem(Del(db, first.value), user, {first.value}), user)
  }

  function Created(max: nat, db: Db, id: SessionId, s: Session): Result<Db, Error> {
    if id == "" || s.user == "" || s.token == "" then Err(InvalidSession)
    else if s.expiresAt <= db.now then Err(ExpirationPast)
    else Ok(CommitCreate(Evicted(max, Cleaned(db, s.user), s.user), id, s, s.expiresAt - db.now))
  }

  /** Only a blank field or an expiry that has come keeps a session from being created. */
  lemma CreatedIff(max: nat, db: Db, id: SessionId, s: Session)
    ensures Created(max, db, id, s).Ok? <==> id != "" && s.user != "" && s.token != "" && db.now < s.expiresAt
    ensures Created(max, db, id, s) == Err(InvalidSession) <==> id == "" || s.user == "" || s.token == ""
    ensures Created(max, db, id, s).Err? ==> Created(max, db, id, s).error in {InvalidSession, ExpirationPast}
  {
  }

  // ---------- The store ----------

  class Store {
    var db: Db
    const keyPrefix: string
    const maxSessionsPerUser: nat

    constructor (db: Db, keyPrefix: string, maxSessionsPerUser: int)
      ensures this.db == db
      ensures this.keyPrefix == if keyPrefix == "" then "funpot:auth" else keyPrefix
      ensures this.maxSessionsPerUser == if maxSessionsPerUser < 1 then 5 else maxSessionsPerUser
    {
      this.db := db;
      this.keyPrefix := if keyPrefix == "" then "funpot:auth" else keyPrefix;
      this.maxSessionsPerUser := if maxSessionsPerUser < 1 then 5 else maxSessionsPerUser;
    }

    method CleanupExpired(user: UserId)
      modifies this
      ensures db == Cleaned(old(db), user)
    {
      var expired := ZBelow(db, user, db.now - 1);
      var ids := Listed(expired);
      if |ids| == 0 {
        return;
      }
      var queue := QueueDeletions(ids, user);
      assert expired != {} by { assert ids[0] in Elements(ids); }
      db := ExecuteAll(db, queue);
    }

    method QueueDeletions(ids: seq<SessionId>, user: UserId) returns (queue: seq<Command>)
      requires Distinct(ids)
      ensures ExecuteAll(db, queue) == Purge(db, user, Elements(ids))
    {
      queue := [];
      assert Elements(ids[..0]) == {};
      PurgeNone(db, user);
      for i := 0 to |ids|
        invariant ExecuteAll(db, queue) == Purge(db, user, Elements(ids[..i]))
      {
        PurgeOneMore(db, user, Elements(ids[..i]), ids[i]);
        ExecuteTwoMore(db, queue, DelCmd(ids[i]), ZRemCmd(user, ids[i]));
        assert Elements(ids[..i + 1]) == Elements(ids[..i]) + {ids[i]};
        queue := queue + [DelCmd(ids[i]), ZRemCmd(user, ids[i])];
      }
      assert ids[..|ids|] == ids;
    }

    method Create(id: SessionId, n: NewSession) returns (error: Option<Error>)
      modifies this
      ensures var r := Created(maxSessionsPerUser, old(db), id, WithDefaults(n, old(db.now)));
              && (error.None? <==> r.Ok?)
              && db == (if r.Ok? then r.value else old(db))
              && (r.Err? ==> error == Some(r.error))
    {
      if id == "" || n.user == "" || n.token == "" {
        return Some(InvalidSession);
      }
      var ttl := n.expiresAt - db.now;
      if ttl <= 0 {
        return Some(ExpirationPast);
      }
      var s := WithDefaults(n, db.now);
      CleanupExpired(n.user);
      EvictOldest(n.user);
      Commit(id, s, ttl);
      return None;
    }

    method Commit(id: SessionId, s: Session, ttl: int)
      modifies this
      ensures db == CommitCreate(old(db), id, s, ttl)
    {
      CreateQueue(db, id, s, ttl);
      db := ExecuteAll(db,
                       [HSetCmd(id, CreatedFields(s)), ExpireCmd(id, ttl), ZAddCmd(s.user, id, s.expiresAt),
                        ExpireIndexCmd(s.user, ttl + DAY)]);
    }

    method EvictOldest(user: UserId)
      modifies this
      ensures db == Evicted(maxSessionsPerUser, old(db), user)
    {
      while true
        invariant Evicted(maxSessionsPerUser, db, user) == Evicted(maxSessionsPerUser, old(db), user)
        decreases ZCard(db, user)
      {
        var count := ZCard(db, user);
        if count < maxSessionsPerUser {
          break;
        }
        var oldest := ZFirst(db, user);
        if oldest.None? {
          break;
        }
        EvictionProgress(db, user, oldest.value);
        db := Del(db, oldest.value);
        db := ZRem(db, user, {oldest.value});
      }
    }

    method Lookup(id: SessionId) returns (r: Result<Session, Error>)
      ensures r == Get(db, id)
    {
      if id !in db.hashes {
        return Err(NotFound);
      }
      return Parse(HGetAll(db, id));
    }

    /** With nobody else on the key the EXEC cannot abort, so the method is the atomic check-and-set. */
    method Rotate(id: SessionId, current: TokenHash, next: TokenHash, nextExpiresAt: int, rotatedAt: Option<int>)
      returns (error: Option<Error>)
      modifies this
      ensures var at := if rotatedAt.Some? then rotatedAt.value else old(db.now);
              var r := AtomicRotate(old(db), id, current, next, nextExpiresAt, at, nextExpiresAt - old(db.now));
              if next == "" then error == Some(NextTokenRequired) && db == old(db)
              else if r.Err? then error == Some(r.error) && db == old(db)
              else error.None? && db == r.value
    {
      if next == "" {
        return Some(NextTokenRequired);
      }
      var at := if rotatedAt.Some? then rotatedAt.value else db.now;
      var read := Lookup(id);
      if read.Err? {
        return Some(read.error);
      }
      if read.value.revokedAt.Some? {
        return Some(Revoked);
      }
      if read.value.token != current {
        return Some(TokenMismatch);
      }
      if nextExpiresAt < at {
        return Some(ExpirationPast);
      }
      var ttl := nextExpiresAt - db.now;
      RotateQueue(db, id, read.value.user, next, nextExpiresAt, at, ttl);
      db := ExecuteAll(db,
                       [HSetCmd(id, RotatedFields(next, nextExpiresAt, at)), ExpireCmd(id, ttl),
                        ZAddCmd(read.value.user, id, nextExpiresAt)]);
      return None;
    }

    method RevokeSession(id: SessionId, revokedAt: Option<int>) returns (error: Option<Error>)
      modifies this
      ensures var at := if revokedAt.Some? then revokedAt.value else old(db.now);
              var read := Get(old(db), id);
              if read.Err? then error == Some(read.error) && db == old(db)
              else error.None? && db == Revoke(old(db), read.value.user, {id}, at)
    {
      var read := Lookup(id);
      if read.Err? {
        return Some(read.error);
      }
      var at := if revokedAt.Some? then revokedAt.value else db.now;
      var queue := [HSetCmd(id, NO_FIELDS.(revokedAt := Some(at))), ZRemCmd(read.value.user, id)];
      ExecuteTwoMore(db, [], queue[0], queue[1]);
      assert [] + queue == queue;
      RevokeNone(db, read.value.user, at);
      RevokeOneMore(db, read.value.user, {}, id, at);
      assert {} + {id} == {id};
      db := ExecuteAll(db, queue);
      return None;
    }

    method RevokeUserSessions(user: UserId, revokedAt: Option<int>)
      modifies this
      ensures var at := if revokedAt.Some? then revokedAt.value else old(db.now);
              var ids := Scores(old(db), user).Keys;
              db == if ids == {} then old(db) else Revoke(old(db), user, ids, at)
    {
      var at := if revokedAt.Some? then revokedAt.value else db.now;
      var ids := Listed(Scores(db, user).Keys);
      if |ids| == 0 {
        return;
      }
      var queue := QueueRevocations(ids, user, at);
      assert Scores(db, user).Keys != {} by { assert ids[0] in Elements(ids); }
      db := ExecuteAll(db, queue);
    }

    method QueueRevocations(ids: seq<SessionId>, user: UserId, at: int) returns (queue: seq<Command>)
      requires Distinct(ids)
      ensures ExecuteAll(db, queue) == Revoke(db, user, Elements(ids), at)
    {
      queue := [];
      assert Elements(ids[..0]) == {};
      RevokeNone(db, user, at);
      for i := 0 to |ids|
        invariant ExecuteAll(db, queue) == Revoke(db, user, Elements(ids[..i]), at)
      {
        RevokeOneMore(db, user, Elements(ids[..i]), ids[i], at);
        ExecuteTwoMore(db, queue, HSetCmd(ids[i], NO_FIELDS.(revokedAt := Some(at))), ZRemCmd(user, ids[i]));
        assert Elements(ids[..i + 1]) == Elements(ids[..i]) + {ids[i]};
        queue := queue + [HSetCmd(ids[i], NO_FIELDS.(revokedAt := Some(at))), ZRemCmd(user, ids[i])];
      }
      assert ids[..|ids|] == ids;
    }
  }

  /** A reply that lists a set; the order of the reply does not matter to any caller. */
  method Listed(s: set<SessionId>) returns (r: seq<SessionId>)
    ensures Elements(r) == s && Distinct(r)
  {
    r := [];
    var rest := s;
    while rest != {}
      invariant rest <= s && Elements(r) == s - rest && Distinct(r)
      decreases rest
    {
      var x :| x in rest;
      assert Elements(r + [x]) == Elements(r) + {x};
      assert x !in Elements(r);
      rest := rest - {x};
      r := r + [x];
    }
  }

  lemma CreateQueue(db: Db, id: SessionId, s: Session, ttl: int)
    ensures ExecuteAll(db,
                       [HSetCmd(id, CreatedFields(s)), ExpireCmd(id, ttl), ZAddCmd(s.user, id, s.expiresAt),
                        ExpireIndexCmd(s.user, ttl + DAY)])
         == CommitCreate(db, id, s, ttl)
  {
    var c := [HSetCmd(id, CreatedFields(s)), ExpireCmd(id, ttl)];
    ExecuteTwoMore(db, [], c[0], c[1]);
    assert [] + c == c;
    ExecuteTwoMore(db, c, ZAddCmd(s.user, id, s.expiresAt), ExpireIndexCmd(s.user, ttl + DAY));
    assert c + [ZAddCmd(s.user, id, s.expiresAt), ExpireIndexCmd(s.user, ttl + DAY)]
        == [HSetCmd(id, CreatedFields(s)), ExpireCmd(id, ttl), ZAddCmd(s.user, id, s.expiresAt),
            ExpireIndexCmd(s.user, ttl + DAY)];
  }

  lemma RotateQueue(db: Db, id: SessionId, user: UserId, next: TokenHash, expiresAt: int, at: int, ttl: int)
    ensures ExecuteAll(db,
                       [HSetCmd(id, RotatedFields(next, expiresAt, at)), ExpireCmd(id, ttl),
                        ZAddCmd(user, id, expiresAt)])
         == CommitRotate(db, id, user, next, expiresAt, at, ttl)
  {
    var queue := [HSetCmd(id, RotatedFields(next, expiresAt, at)), ExpireCmd(id, ttl), ZAddCmd(user, id, expiresAt)];
    assert queue[..1] + [queue[1], queue[2]] == queue;
    ExecuteTwoMore(db, queue[..1], queue[1], queue[2]);
    assert queue[..1][..0] == [];
  }

  /** Without a client there is no store. */
  method NewRedisRefreshSessionStore(client: Option<Db>, keyPrefix: string, maxSessionsPerUser: int)
    returns (store: Store?)
    ensures store == null <==> client.None?
    ensures store != null ==>
              && fresh(store) && store.db == client.value
              && store.keyPrefix == (if keyPrefix == "" then "funpot:auth" else keyPrefix)
              && store.maxSessionsPerUser == (if maxSessionsPerUser < 1 then 5 else maxSessionsPerUser)
  {
    store := null;
    if client.Some? {
      store := new Store(client.value, keyPrefix, maxSessionsPerUser);
    }
  }
}
