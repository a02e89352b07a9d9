/** What the Create of the Redis store leaves behind. */
module RedisCreate {
  import opened Basics
  import opened Redis
  import opened RefreshSessions
  import opened RedisRefreshStore

  /** kept are the n members of pool that rank highest, or all of them if there are fewer. */
  ghost predicate HighestRanked(scores: map<SessionId, int>, pool: set<SessionId>, kept: set<SessionId>, n: nat) {
    kept <= pool <= scores.Keys && |kept| == Min(n, |pool|) &&
    forall k, e :: k in kept && e in pool - kept ==> RankLess(scores, e, k)
  }

  /** Only one set can be the n highest-ranked members. */
  lemma HighestRankedIsUnique(scores: map<SessionId, int>, pool: set<SessionId>, a: set<SessionId>, b: set<SessionId>,
                              n: nat)
    requires HighestRanked(scores, pool, a, n) && HighestRanked(scores, pool, b, n)
    ensures a == b
  {
    if x :| x in a && x !in b {
      assert !(b <= a) by {
        if b <= a {
          SubsetSize(b, a - {x});
        }
      }
      var y :| y in b && y !in a;
      RankAsymmetric(scores, x, y);
    } else if y :| y in b && y !in a {
      assert a <= b - {y};
      SubsetSize(a, b - {y});
    }
  }

  /** The members that survive cleanup and eviction. */
  function Kept(max: nat, db: Db, user: UserId): set<SessionId> {
    Scores(Evicted(max, Cleaned(db, user), user), user).Keys
  }

  function Unexpired(db: Db, user: UserId): set<SessionId> {
    set id | id in Scores(db, user) && Scores(db, user)[id] >= db.now
  }

  /**
   * b is a with the given sessions of the user gone from the hashes and from the index, and nothing else
   * changed there.
   */
  ghost predicate Dropped(a: Db, b: Db, user: UserId, gone: set<SessionId>) {
    b.now == a.now && b.hashes == a.hashes - gone && Scores(b, user) == Scores(a, user) - gone &&
    forall u :: u != user ==> Scores(b, u) == Scores(a, u)
  }

  lemma DroppedBoth(a: Db, b: Db, c: Db, user: UserId, x: set<SessionId>, y: set<SessionId>)
    requires Dropped(a, b, user, x) && Dropped(b, c, user, y)
    ensures Dropped(a, c, user, x + y)
  {
    assert (a.hashes - x) - y == a.hashes - (x + y);
    assert (Scores(a, user) - x) - y == Scores(a, user) - (x + y);
  }

  lemma CleanedDrops(db: Db, user: UserId)
    ensures Dropped(db, Cleaned(db, user), user, Scores(db, user).Keys - Unexpired(db, user))
    ensures Scores(Cleaned(db, user), user).Keys == Unexpired(db, user)
  {
    var expired := ZBelow(db, user, db.now - 1);
    UnlistedScores(db, user, expired);
    assert Purge(db, user, expired).index == ZRem(db, user, expired).index;
    if expired == {} {
      assert db.hashes - expired == db.hashes;
      assert Scores(db, user) - expired == Scores(db, user);
    }
    assert (Scores(db, user) - expired).Keys == Unexpired(db, user);
    assert expired == Scores(db, user).Keys - Unexpired(db, user);
  }

  lemma EvictOne(db: Db, user: UserId, id: SessionId)
    requires id in Scores(db, user)
    ensures Dropped(db, ZRem(Del(db, id), user, {id}), user, {id})
  {
    UnlistedScores(Del(db, id), user, {id});
    assert Del(db, id).hashes == db.hashes - {id};
    assert Scores(Del(db, id), user) == Scores(db, user);
  }

  lemma NothingDropped(db: Db, user: UserId)
    ensures Dropped(db, db, user, {})
  {
    assert db.hashes - {} == db.hashes;
    assert Scores(db, user) - {} == Scores(db, user);
  }

  lemma EvictedKeepsHighest(max: nat, db: Db, user: UserId)
    requires 1 <= max
    ensures HighestRanked(Scores(db, user), Scores(db, user).Keys, Scores(Evicted(max, db, user), user).Keys, max - 1)
    ensures Dropped(db, Evicted(max, db, user), user, Scores(db, user).Keys - Scores(Evicted(max, db, user), user).Keys)
  {
    EvictedRanks(max, db, user);
    EvictedDrops(max, db, user);
  }

  lemma {:induction false} EvictedRanks(max: nat, db: Db, user: UserId)
    requires 1 <= max
    ensures HighestRanked(Scores(db, user), Scores(db, user).Keys, Scores(Evicted(max, db, user), user).Keys, max - 1)
    decreases ZCard(db, user)
  {
    if ZCard(db, user) >= max {
      var first := ZFirst(db, user).value;
      var next := ZRem(Del(db, first), user, {first});
      EvictionProgress(db, user, first);
      EvictedRanks(max, next, user);
      RankedWithLowest(Scores(db, user), first, Scores(Evicted(max, next, user), user).Keys, max - 1);
    }
  }

  lemma {:induction false} EvictedDrops(max: nat, db: Db, user: UserId)
    ensures Dropped(db, Evicted(max, db, user), user, Scores(db, user).Keys - Scores(Evicted(max, db, user), user).Keys)
    decreases ZCard(db, user)
  {
    var first := ZFirst(db, user);
    if ZCard(db, user) < max || first.None? {
      NothingDropped(db, user);
      assert Scores(db, user).Keys - Scores(db, user).Keys == {};
    } else {
      var next := ZRem(Del(db, first.value), user, {first.value});
      EvictionProgress(db, user, first.value);
      EvictOne(db, user, first.value);
      EvictedDrops(max, next, user);
      DroppedWithFirst(db, next, Evicted(max, next, user), user, first.value);
    }
  }

  lemma DroppedWithFirst(db: Db, next: Db, after: Db, user: UserId, first: SessionId)
    requires first in Scores(db, user) && Dropped(db, next, user, {first})
    requires Dropped(next, after, user, Scores(next, user).Keys - Scores(after, user).Keys)
    ensures Dropped(db, after, user, Scores(db, user).Keys - Scores(after, user).Keys)
  {
    FirstDropped(Scores(db, user), first);
    DroppedInTurn(db, next, after, user);
  }

  /** Evicting the lowest member first changes nothing about which are highest. */
  lemma RankedWithLowest(scores: map<SessionId, int>, first: SessionId, kept: set<SessionId>, n: nat)
    requires IsLowest(scores, first) && n < |scores|
    requires HighestRanked(scores - {first}, (scores - {first}).Keys, kept, n)
    ensures HighestRanked(scores, scores.Keys, kept, n)
  {
    var rest := scores - {first};
    assert rest.Keys == scores.Keys - {first};
    forall k, e | k in kept && e in scores.Keys - kept ensures RankLess(scores, e, k) {
      if e != first {
        assert RankLess(rest, e, k);
      }
    }
  }

  lemma FirstDropped(scores: map<SessionId, int>, first: SessionId)
    requires first in scores
    ensures scores.Keys - (scores - {first}).Keys == {first}
  {
  }

  /** A ranking among the members that cleanup left is the same ranking in the whole index. */
  lemma RankedBeforeCleanup(all: map<SessionId, int>, left: map<SessionId, int>, kept: set<SessionId>, n: nat)
    requires left.Keys <= all.Keys && forall k :: k in left ==> left[k] == all[k]
    requires HighestRanked(left, left.Keys, kept, n)
    ensures HighestRanked(all, left.Keys, kept, n)
  {
    forall k, e | k in kept && e in left.Keys - kept
      ensures RankLess(all, e, k)
    {
      assert RankLess(left, e, k);
    }
  }

  /** Cleanup and eviction one after the other, each described by what it dropped. */
  lemma DroppedInTurn(db: Db, clean: Db, last: Db, user: UserId)
    requires Dropped(db, clean, user, Scores(db, user).Keys - Scores(clean, user).Keys)
    requires Dropped(clean, last, user, Scores(clean, user).Keys - Scores(last, user).Keys)
    ensures Dropped(db, last, user, Scores(db, user).Keys - Scores(last, user).Keys)
  {
    var a, b, c := Scores(db, user).Keys, Scores(clean, user).Keys, Scores(last, user).Keys;
    assert c <= b <= a;
    DroppedBoth(db, clean, last, user, a - b, b - c);
    assert (a - b) + (b - c) == a - c;
  }

  /** What survives are the max - 1 of highest rank among the sessions that have not expired. */
  lemma SurvivorsAreHighestRanked(max: nat, db: Db, user: UserId)
    requires 1 <= max
    ensures HighestRanked(Scores(db, user), Unexpired(db, user), Kept(max, db, user), max - 1)
    ensures Dropped(db, Evicted(max, Cleaned(db, user), user), user, Scores(db, user).Keys - Kept(max, db, user))
  {
    var clean := Cleaned(db, user);
    CleanedDrops(db, user);
    EvictedKeepsHighest(max, clean, user);
    DroppedInTurn(db, clean, Evicted(max, clean, user), user);
    RankedBeforeCleanup(Scores(db, user), Scores(clean, user), Kept(max, db, user), max - 1);
  }

  /** after is before without gone, and with something under id. */
  ghost predicate OnTopOf<V>(before: map<SessionId, V>, gone: set<SessionId>, after: map<SessionId, V>, id: SessionId) {
    after.Keys == before.Keys - gone + {id} && forall k :: k in after && k != id ==> after[k] == before[k]
  }

  /**
   * Of the user's unexpired sessions exactly the max - 1 of highest rank, kept, stay in the index, next to
   * the new one; the others lose their hash too, and nothing else changes.
   */
  ghost predicate KeepsHighestRanked(max: nat, db: Db, id: SessionId, s: Session, t: Db, kept: set<SessionId>)
    requires 1 <= max
  {
    var before, after := Scores(db, s.user), Scores(t, s.user);
    && HighestRanked(before, Unexpired(db, s.user), kept, max - 1)
    && OnTopOf(before, before.Keys - kept, after, id) && after[id] == s.expiresAt && |after| <= max
    && (forall u :: u != s.user ==> Scores(t, u) == Scores(db, u))
    && OnTopOf(db.hashes, before.Keys - kept, t.hashes, id)
    && (id !in db.hashes ==> t.hashes[id] == HashKey(CreatedFields(s), Some(s.expiresAt)))
    && t.now == db.now
  }

  /** Create, from any starting size, keeps the highest ranked. */
  lemma CreateKeepsHighestRanked(max: nat, db: Db, id: SessionId, s: Session)
    requires 1 <= max && Created(max, db, id, s).Ok?
    ensures KeepsHighestRanked(max, db, id, s, Created(max, db, id, s).value, Kept(max, db, s.user))
  {
    var m := Evicted(max, Cleaned(db, s.user), s.user);
    var ttl := s.expiresAt - db.now;
    SurvivorsAreHighestRanked(max, db, s.user);
    CommitCreateShape(m, id, s, ttl);
    StoredOnTop(max, db, m, CommitCreate(m, id, s, ttl), id, s, ttl);
  }

  lemma StoredOnTop(max: nat, db: Db, m: Db, t: Db, id: SessionId, s: Session, ttl: int)
    requires 1 <= max && |Scores(m, s.user).Keys| <= max - 1
    requires Dropped(db, m, s.user, Scores(db, s.user).Keys - Scores(m, s.user).Keys) && SessionStored(m, t, id, s, ttl)
    ensures var gone := Scores(db, s.user).Keys - Scores(m, s.user).Keys;
            OnTopOf(Scores(db, s.user), gone, Scores(t, s.user), id) && OnTopOf(db.hashes, gone, t.hashes, id)
    ensures Scores(t, s.user)[id] == s.expiresAt && |Scores(t, s.user)| <= max
  {
    var gone := Scores(db, s.user).Keys - Scores(m, s.user).Keys;
    KeysWith(Scores(m, s.user), id, s.expiresAt);
    Topped(Scores(db, s.user), gone, Scores(m, s.user), Scores(t, s.user), id);
    Topped(db.hashes, gone, m.hashes, t.hashes, id);
    SubsetSize(Scores(t, s.user).Keys, Scores(m, s.user).Keys + {id});
  }

  /** t is m with the session stored under id and listed. */
  ghost predicate SessionStored(m: Db, t: Db, id: SessionId, s: Session, ttl: int) {
    && t.now == m.now
    && t.hashes.Keys == m.hashes.Keys + {id}
    && t.hashes[id] == HashKey(Written(HGetAll(m, id), CreatedFields(s)), Some(m.now + ttl))
    && (forall k :: k in m.hashes && k != id ==> t.hashes[k] == m.hashes[k])
    && Scores(t, s.user) == Scores(m, s.user)[id := s.expiresAt]
    && (forall u :: u != s.user ==> Scores(t, u) == Scores(m, u))
  }

  lemma CommitCreateShape(db: Db, id: SessionId, s: Session, ttl: int)
    requires ttl > 0
    ensures SessionStored(db, CommitCreate(db, id, s, ttl), id, s, ttl)
  {
  }

  lemma KeysWith<V>(m: map<SessionId, V>, id: SessionId, v: V)
    ensures m[id := v].Keys == m.Keys + {id}
  {
  }

  lemma Topped<V>(all: map<SessionId, V>, gone: set<SessionId>, left: map<SessionId, V>, last: map<SessionId, V>,
                  id: SessionId)
    requires left == all - gone && last.Keys == left.Keys + {id} && forall k :: k in left && k != id ==>
             last[k] == left[k]
    ensures OnTopOf(all, gone, last, id)
  {
    assert left.Keys == all.Keys - gone;
  }

  /** While the scores say what the hashes say, cleanup deletes no session that has not expired. */
  lemma CleanupDropsOnlyExpired(db: Db, user: UserId, id: SessionId)
    requires forall x :: x in Scores(db, user) && Get(db, x).Ok? ==> Scores(db, user)[x] == Get(db, x).value.expiresAt
    requires Get(db, id).Ok? && Get(db, id).value.expiresAt >= db.now
    ensures Get(Cleaned(db, user), id) == Get(db, id)
    ensures id in Scores(db, user) ==> id in Scores(Cleaned(db, user), user)
  {
    CleanedDrops(db, user);
  }
}
