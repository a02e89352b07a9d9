/** Refresh sessions as the service sees them, and how a stored hash becomes one. */
module RefreshSessions {
  import opened Basics
  import opened Redis

  datatype Session = Session(
    user: UserId,
    telegram: int,
    token: TokenHash,
    expiresAt: int,
    createdAt: int,
    lastRotated: int,
    revokedAt: Option<int>)

  datatype Error =
    | InvalidSession
    | ExpirationPast
    | NextTokenRequired
    | NotFound
    | Malformed
    | Revoked
    | TokenMismatch
    | ConcurrentUpdate
    | Interrupted

  function OrEmpty(s: Option<string>): string {
    if s.Some? then s.value else ""
  }

  /** parseRefreshSession: the four numbers must be there, a missing string reads as "". */
  function Parse(fields: Fields): Result<Session, Error> {
    if fields.expiresAt.None? || fields.createdAt.None? || fields.lastRotated.None? || fields.telegram.None? then
      Err(Malformed)
    else
      Ok(Session(OrEmpty(fields.user), fields.telegram.value, OrEmpty(fields.token), fields.expiresAt.value,
                 fields.createdAt.value, fields.lastRotated.value, fields.revokedAt))
  }

  /** Get of the Redis store. */
  function Get(db: Db, id: SessionId): Result<Session, Error> {
    if id !in db.hashes then Err(NotFound) else Parse(db.hashes[id].fields)
  }

  /** The fields that Create writes. */
  function CreatedFields(s: Session): Fields {
    Fields(Some(s.user), Some(s.telegram), Some(s.token), Some(s.expiresAt), Some(s.createdAt), Some(s.lastRotated),
           None)
  }

  /** The fields that Rotate writes. */
  function RotatedFields(next: TokenHash, expiresAt: int, rotatedAt: int): Fields {
    NO_FIELDS.(token := Some(next), expiresAt := Some(expiresAt), lastRotated := Some(rotatedAt))
  }

  const DAY := 86400

  /** The transaction that ends Create. */
  function CommitCreate(db: Db, id: SessionId, s: Session, ttl: int): Db {
    ExpireIndex(ZAdd(Expire(HSet(db, id, CreatedFields(s)), id, ttl), s.user, id, s.expiresAt), s.user, ttl + DAY)
  }

  /** The transaction that ends Rotate; user is the owner that was read under the WATCH. */
  function CommitRotate(db: Db, id: SessionId, user: UserId, next: TokenHash, expiresAt: int, rotatedAt: int,
                        ttl: int): Db
  {
    ZAdd(Expire(HSet(db, id, RotatedFields(next, expiresAt, rotatedAt)), id, ttl), user, id, expiresAt)
  }

  /** The checks Rotate makes on what it reads. */
  function RotateChecks(read: Result<Session, Error>, current: TokenHash, expiresAt: int,
                        rotatedAt: int): Result<Session, Error>
  {
    if read.Err? then read
    else if read.value.revokedAt.Some? then Err(Revoked)
    else if read.value.token != current then Err(TokenMismatch)
    else if expiresAt < rotatedAt then Err(ExpirationPast)
    else read
  }

  /**
   * Rotate as one indivisible check-and-set, the way a store that holds a lock around it behaves.
   * This is what the optimistic protocol has to be equivalent to.
   */
  function AtomicRotate(db: Db, id: SessionId, current: TokenHash, next: TokenHash, expiresAt: int, rotatedAt: int,
                        ttl: int): Result<Db, Error>
  {
    var read := RotateChecks(Get(db, id), current, expiresAt, rotatedAt);
    if read.Err? then Err(read.error)
    else Ok(CommitRotate(db, id, read.value.user, next, expiresAt, rotatedAt, ttl))
  }
}
