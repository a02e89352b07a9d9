/**
 * The part of Redis the refresh store relies on: session hashes, per-user sorted sets, key
 * expiry and the version a WATCH compares.  Every function here is one command, or one
 * MULTI/EXEC block of commands that cannot be interleaved with anything else.
 *
 * Session keys and user keys never collide (SessionKeysAndUserKeysDiffer), so they are two maps.
 */
module Redis {
  import opened Basics

  type SessionId = string
  type UserId = string
  type TokenHash = string

  /** The seven fields the store writes into a session hash; None is a field that is not there. */
  datatype Fields = Fields(
    user: Option<UserId>,
    telegram: Option<int>,
    token: Option<TokenHash>,
    expiresAt: Option<int>,
    createdAt: Option<int>,
    lastRotated: Option<int>,
    revokedAt: Option<int>)

  const NO_FIELDS := Fields(None, None, None, None, None, None, None)

  /** A key's value with the second after which it is gone; None is a key without a TTL. */
  datatype HashKey = HashKey(fields: Fields, deadline: Option<int>)
  datatype SetKey = SetKey(scores: map<SessionId, int>, deadline: Option<int>)

  datatype Db = Db(
    now: int,
    hashes: map<SessionId, HashKey>,
    index: map<UserId, SetKey>,
    versions: map<SessionId, nat>)

  // ---------- Reading ----------

  function Version(db: Db, id: SessionId): nat {
    if id in db.versions then db.versions[id] else 0
  }

  function HGetAll(db: Db, id: SessionId): Fields {
    if id in db.hashes then db.hashes[id].fields else NO_FIELDS
  }

  function Scores(db: Db, user: UserId): map<SessionId, int> {
    if user in db.index then db.index[user].scores else map[]
  }

  function ZCard(db: Db, user: UserId): nat {
    |Scores(db, user)|
  }

  /** ZRANGEBYSCORE -inf cutoff */
  function ZBelow(db: Db, user: UserId, cutoff: int): set<SessionId> {
    set id | id in Scores(db, user) && Scores(db, user)[id] <= cutoff
  }

  /** The rank order of a sorted set: by score, equal scores by member. */
  predicate RankLess(scores: map<SessionId, int>, a: SessionId, b: SessionId)
    requires a in scores && b in scores
  {
    scores[a] < scores[b] || (scores[a] == scores[b] && Less(a, b))
  }

  predicate IsLowest(scores: map<SessionId, int>, id: SessionId) {
    id in scores && forall other :: other in scores && other != id ==> RankLess(scores, id, other)
  }

  lemma RankTransitive(scores: map<SessionId, int>, a: SessionId, b: SessionId, c: SessionId)
    requires a in scores && b in scores && c in scores
    requires RankLess(scores, a, b) && RankLess(scores, b, c)
    ensures RankLess(scores, a, c)
  {
    if scores[a] == scores[c] {
      LessTransitive(a, b, c);
    }
  }

  lemma RankAsymmetric(scores: map<SessionId, int>, a: SessionId, b: SessionId)
    requires a in scores && b in scores && RankLess(scores, a, b)
    ensures a != b && !RankLess(scores, b, a)
  {
    LessIrreflexive(a);
    if Less(a, b) && Less(b, a) {
      LessTransitive(a, b, a);
    }
  }

  /** Every non-empty sorted set has exactly one member of rank 0. */
  lemma {:induction false} LowestExists(scores: map<SessionId, int>)
    requires scores != map[]
    ensures exists id :: IsLowest(scores, id)
    ensures forall a, b :: IsLowest(scores, a) && IsLowest(scores, b) ==> a == b
    decreases |scores|
  {
    forall a, b | IsLowest(scores, a) && IsLowest(scores, b)
      ensures a == b
    {
      if a != b {
        RankAsymmetric(scores, a, b);
      }
    }
    var x :| x in scores;
    var rest := scores - {x};
    assert rest.Keys == scores.Keys - {x};
    if rest == map[] {
      assert scores.Keys == {x} by { assert rest.Keys == {}; }
      assert IsLowest(scores, x);
    } else {
      LowestExists(rest);
      var y :| IsLowest(rest, y);
      LessTotal(x, y);
      if RankLess(scores, x, y) {
        forall other | other in scores && other != x
          ensures RankLess(scores, x, other)
        {
          if other != y {
            assert RankLess(rest, y, other);
            RankTransitive(scores, x, y, other);
          }
        }
        assert IsLowest(scores, x);
      } else {
        forall other | other in scores && other != y
          ensures RankLess(scores, y, other)
        {
          if other != x {
            assert RankLess(rest, y, other);
          }
        }
        assert IsLowest(scores, y);
      }
    }
  }

  /** ZRANGE 0 0 */
  function ZFirst(db: Db, user: UserId): (first: Option<SessionId>)
    ensures first.None? <==> Scores(db, user) == map[]
    ensures first.Some? ==> IsLowest(Scores(db, user), first.value)
  {
    var scores := Scores(db, user);
    if scores == map[] then None
    else
      LowestExists(scores);
      var id :| id in scores && IsLowest(scores, id);
      Some(id)
  }

  // ---------- Writing ----------

  function Later<T>(before: Option<T>, written: Option<T>): Option<T> {
    if written.Some? then written else before
  }

  function Written(fields: Fields, w: Fields): Fields {
    Fields(Later(fields.user, w.user), Later(fields.telegram, w.telegram), Later(fields.token, w.token),
           Later(fields.expiresAt, w.expiresAt), Later(fields.createdAt, w.createdAt),
           Later(fields.lastRotated, w.lastRotated), Later(fields.revokedAt, w.revokedAt))
  }

  /** Every write to a key moves its version, which is what makes a watching EXEC abort. */
  function Touched(versions: map<SessionId, nat>, ids: set<SessionId>): map<SessionId, nat> {
    map id | id in versions.Keys + ids ::
      (if id in versions then versions[id] else 0) + (if id in ids then 1 else 0)
  }

  /** HSET of the fields present in w; it creates a missing key without a TTL and keeps the TTL of an existing one. */
  function HSet(db: Db, id: SessionId, w: Fields): Db {
    var key := if id in db.hashes then db.hashes[id] else HashKey(NO_FIELDS, None);
    db.(hashes := db.hashes[id := key.(fields := Written(key.fields, w))],
        versions := Touched(db.versions, {id}))
  }

  function Del(db: Db, id: SessionId): Db {
    if id in db.hashes then
      db.(hashes := db.hashes - {id}, versions := Touched(db.versions, {id}))
    else
      db
  }

  /** EXPIRE; a TTL that is not positive deletes the key. */
  function Expire(db: Db, id: SessionId, ttl: int): Db {
    if id !in db.hashes then db
    else if ttl <= 0 then Del(db, id)
    else db.(hashes := db.hashes[id := db.hashes[id].(deadline := Some(db.now + ttl))],
             versions := Touched(db.versions, {id}))
  }

  /** ZADD; a missing key is created without a TTL. */
  function ZAdd(db: Db, user: UserId, id: SessionId, score: int): Db {
    var key := if user in db.index then db.index[user] else SetKey(map[], None);
    db.(index := db.index[user := key.(scores := key.scores[id := score])])
  }

  lemma WithoutStrangers<V>(m: map<string, V>, ids: set<string>)
    requires m.Keys * ids == {}
    ensures m - ids == m
  {
    assert forall id :: id in m.Keys && id in ids ==> id in m.Keys * ids;
    assert (m - ids).Keys == m.Keys;
  }

  function Unlisted(index: map<UserId, SetKey>, user: UserId, ids: set<SessionId>): map<UserId, SetKey> {
    if user !in index || index[user].scores.Keys * ids == {} then index
    else
      var scores := index[user].scores - ids;
      if scores == map[] then index - {user}
      else index[user := index[user].(scores := scores)]
  }

  /** ZREM of several members; Redis deletes a sorted set that becomes empty, TTL included. */
  function ZRem(db: Db, user: UserId, ids: set<SessionId>): Db {
    db.(index := Unlisted(db.index, user, ids))
  }

  lemma UnlistedScores(db: Db, user: UserId, ids: set<SessionId>)
    ensures Scores(ZRem(db, user, ids), user) == Scores(db, user) - ids
    ensures forall u :: u != user ==> Scores(ZRem(db, user, ids), u) == Scores(db, u)
  {
    if Scores(db, user).Keys * ids == {} {
      WithoutStrangers(Scores(db, user), ids);
    }
  }

  /** EXPIRE on a user's index. */
  function ExpireIndex(db: Db, user: UserId, ttl: int): Db {
    if user !in db.index then db
    else if ttl <= 0 then db.(index := db.index - {user})
    else db.(index := db.index[user := db.index[user].(deadline := Some(db.now + ttl))])
  }

  /** The transaction of cleanupExpiredUserSessions: DEL and ZREM for every listed id. */
  function Purge(db: Db, user: UserId, ids: set<SessionId>): Db {
    db.(hashes := db.hashes - ids,
        versions := Touched(db.versions, ids * db.hashes.Keys),
        index := Unlisted(db.index, user, ids))
  }

  function Marked(hashes: map<SessionId, HashKey>, ids: set<SessionId>, at: int): map<SessionId, HashKey> {
    map id | id in hashes.Keys + ids ::
      if id !in ids then hashes[id]
      else if id in hashes then hashes[id].(fields := hashes[id].fields.(revokedAt := Some(at)))
      else HashKey(NO_FIELDS.(revokedAt := Some(at)), None)
  }

  /** The transaction of both revoke paths: HSET revoked_at and ZREM for every listed id. */
  function Revoke(db: Db, user: UserId, ids: set<SessionId>, at: int): Db {
    db.(hashes := Marked(db.hashes, ids, at),
        versions := Touched(db.versions, ids),
        index := Unlisted(db.index, user, ids))
  }

  // ---------- The clock ----------

  predicate Gone(deadline: Option<int>, now: int) {
    deadline.Some? && now > deadline.value
  }

  /** d seconds pass.  Keys past their deadline disappear; for a watched key that counts as a write. */
  function Elapse(db: Db, d: nat): Db {
    var now := db.now + d;
    var dead := set id | id in db.hashes && Gone(db.hashes[id].deadline, now);
    db.(now := now,
        hashes := db.hashes - dead,
        index := map user | user in db.index && !Gone(db.index[user].deadline, now) :: db.index[user],
        versions := Touched(db.versions, dead))
  }

  /** A key given a TTL is there while that has not passed, whatever deadline it had; time touches nothing else. */
  lemma KeyLivesIff(db: Db, id: SessionId, ttl: int, d: nat)
    requires id in db.hashes
    ensures var b := Elapse(Expire(db, id, ttl), d);
            && (id in b.hashes <==> 0 < ttl && d <= ttl)
            && (id in b.hashes ==> b.hashes[id] == HashKey(db.hashes[id].fields, Some(db.now + ttl)))
  {
  }

  lemma IndexLivesIff(db: Db, user: UserId, ttl: int, d: nat)
    requires user in db.index
    ensures var b := Elapse(ExpireIndex(db, user, ttl), d);
            && (user in b.index <==> 0 < ttl && d <= ttl)
            && (user in b.index ==> b.index[user] == SetKey(db.index[user].scores, Some(db.now + ttl)))
  {
  }

  lemma TimeTouchesOnlyDeadlines(db: Db, d: nat)
    ensures var b := Elapse(db, d);
            && b.now == db.now + d
            && (forall id :: id in b.hashes <==>
                  id in db.hashes && (db.hashes[id].deadline.Some? ==> db.now + d <= db.hashes[id].deadline.value))
            && (forall id :: id in b.hashes ==> b.hashes[id] == db.hashes[id])
            && (forall user :: user in b.index <==>
                  user in db.index && (db.index[user].deadline.Some? ==> db.now + d <= db.index[user].deadline.value))
            && (forall user :: user in b.index ==> b.index[user] == db.index[user])
  {
  }

  /** A command moves the version of every session key it writes or deletes, and of no other. */
  lemma WritesMoveVersions(db: Db, id: SessionId, w: Fields, ttl: int, x: SessionId)
    ensures Version(HSet(db, id, w), x) > Version(db, x) <==> x == id
    ensures Version(Expire(db, id, ttl), x) > Version(db, x) <==> x == id && id in db.hashes
    ensures Version(Del(db, id), x) > Version(db, x) <==> x == id && id in db.hashes
  {
  }

  lemma BlocksMoveVersions(db: Db, user: UserId, ids: set<SessionId>, at: int, x: SessionId)
    ensures Version(Purge(db, user, ids), x) > Version(db, x) <==> x in ids && x in db.hashes
    ensures Version(Revoke(db, user, ids, at), x) > Version(db, x) <==> x in ids
  {
  }

  /** So does the expiry of a key. */
  lemma ExpiryMovesVersions(db: Db, d: nat, x: SessionId)
    ensures Version(Elapse(db, d), x) > Version(db, x) <==> x in db.hashes && x !in Elapse(db, d).hashes
  {
  }

  // ---------- Key names ----------

  function SessionKey(prefix: string, id: SessionId): string {
    prefix + ":refresh:session:" + id
  }

  function UserSessionsKey(prefix: string, user: UserId): string {
    prefix + ":refresh:user:" + user
  }

  /** Two sessions, two users, or a session and a user never share a Redis key. */
  lemma SessionKeysAndUserKeysDiffer(prefix: string, a: string, b: string)
    ensures SessionKey(prefix, a) != UserSessionsKey(prefix, b)
    ensures SessionKey(prefix, a) == SessionKey(prefix, b) ==> a == b
    ensures UserSessionsKey(prefix, a) == UserSessionsKey(prefix, b) ==> a == b
  {
    var s := SessionKey(prefix, a);
    var u := UserSessionsKey(prefix, b);
    assert s[|prefix| + 9] == 's' && u[|prefix| + 9] == 'u';
    var n := |prefix| + |":refresh:session:"|;
    var m := |prefix| + |":refresh:user:"|;
    assert a == SessionKey(prefix, a)[n..] && b == SessionKey(prefix, b)[n..];
    assert a == UserSessionsKey(prefix, a)[m..] && b == UserSessionsKey(prefix, b)[m..];
  }
}
