/** Session hashes as Redis really holds them: strings under field names. */
module RefreshCodec {
  import opened Basics
  import opened Text
  import opened Redis
  import opened RefreshSessions
  import opened Sorting

  type Wire = map<string, string>

  // ---------- Writing ----------

  const NAMES := ["user_id", "telegram_id", "token_hash", "expires_at", "created_at", "last_rotated", "revoked_at"]

  function Number(n: Option<int>): Option<string> {
    if n.Some? then Some(Dec(n.value)) else None
  }

  /** The values in the order of NAMES; numbers are printed in decimal. */
  function Values(f: Fields): seq<Option<string>> {
    [f.user, Number(f.telegram), f.token, Number(f.expiresAt), Number(f.createdAt), Number(f.lastRotated),
     Number(f.revokedAt)]
  }

  function Entries(names: seq<string>, values: seq<Option<string>>): Wire
    requires |names| == |values|
  {
    if names == [] then map[]
    else
      var rest := Entries(names[1..], values[1..]);
      if values[0].Some? then rest[names[0] := values[0].value] else rest
  }

  /** The hash that holds the given fields. */
  function Encode(f: Fields): Wire {
    Entries(NAMES, Values(f))
  }

  // ---------- Reading ----------

  function Field(m: Wire, name: string): string {
    if name in m then m[name] else ""
  }

  /** parseRefreshSession on the strings. */
  function Decode(m: Wire): Result<Session, Error> {
    var expiresAt := ParseInt(Field(m, "expires_at"));
    var createdAt := ParseInt(Field(m, "created_at"));
    var lastRotated := ParseInt(Field(m, "last_rotated"));
    var telegram := ParseInt(Field(m, "telegram_id"));
    var revokedAt := if Field(m, "revoked_at") == "" then None else ParseInt(Field(m, "revoked_at"));
    if expiresAt.None? || createdAt.None? || lastRotated.None? || telegram.None? then Err(Malformed)
    else if Field(m, "revoked_at") != "" && revokedAt.None? then Err(Malformed)
    else Ok(Session(Field(m, "user_id"), telegram.value, Field(m, "token_hash"),
                    expiresAt.value, createdAt.value, lastRotated.value, revokedAt))
  }

  /** Which hashes parse, whoever wrote them: four numbers, and revoked_at a number unless it is missing or blank. */
  lemma DecodeIff(m: Wire)
    ensures Decode(m).Ok? <==>
              && (forall name :: name in {"expires_at", "created_at", "last_rotated", "telegram_id"} ==>
                    name in m && ParseInt(m[name]).Some?)
              && ("revoked_at" in m && m["revoked_at"] != "" ==> ParseInt(m["revoked_at"]).Some?)
    ensures Decode(m).Err? ==> Decode(m) == Err(Malformed)
    ensures Decode(m).Ok? ==>
              var s := Decode(m).value;
              && Some(s.expiresAt) == ParseInt(m["expires_at"]) && Some(s.createdAt) == ParseInt(m["created_at"])
              && Some(s.lastRotated) == ParseInt(m["last_rotated"]) && Some(s.telegram) == ParseInt(m["telegram_id"])
              && s.user == (if "user_id" in m then m["user_id"] else "")
              && s.token == (if "token_hash" in m then m["token_hash"] else "")
              && s.revokedAt == if "revoked_at" in m && m["revoked_at"] != "" then ParseInt(m["revoked_at"]) else None
  {
    assert ParseInt("") == None;
  }

  // ---------- Round trips ----------

  predicate Fits(n: Option<int>) {
    n.Some? ==> Int64(n.value)
  }

  /** Every number in the fields is an int64, as all of Go's are. */
  predicate AllFit(f: Fields) {
    Fits(f.telegram) && Fits(f.expiresAt) && Fits(f.createdAt) && Fits(f.lastRotated) && Fits(f.revokedAt)
  }

  lemma NamesDiffer()
    ensures Distinct(NAMES)
  {
    assert NAMES[0][0] == 'u' && NAMES[1][0] == 't' && NAMES[2][0] == 't' && NAMES[3][0] == 'e';
    assert NAMES[4][0] == 'c' && NAMES[5][0] == 'l' && NAMES[6][0] == 'r';
    assert NAMES[1][1] == 'e' && NAMES[2][1] == 'o';
  }

  lemma {:induction false} EntriesKeys(names: seq<string>, values: seq<Option<string>>)
    requires |names| == |values|
    ensures forall k :: k in Entries(names, values) ==> k in names
  {
    if names != [] {
      EntriesKeys(names[1..], values[1..]);
    }
  }

  lemma {:induction false} EntryAt(names: seq<string>, values: seq<Option<string>>, i: nat)
    requires |names| == |values| && i < |names| && Distinct(names)
    ensures Field(Entries(names, values), names[i]) == OrEmpty(values[i])
    ensures names[i] in Entries(names, values) <==> values[i].Some?
  {
    EntriesKeys(names[1..], values[1..]);
    if i > 0 {
      EntryAt(names[1..], values[1..], i - 1);
    }
  }

  lemma EncodedFields(f: Fields)
    ensures forall i :: 0 <= i < 7 ==> Field(Encode(f), NAMES[i]) == OrEmpty(Values(f)[i])
  {
    NamesDiffer();
    forall i | 0 <= i < 7 ensures Field(Encode(f), NAMES[i]) == OrEmpty(Values(f)[i]) {
      EntryAt(NAMES, Values(f), i);
    }
  }

  lemma NoOtherNames(f: Fields)
    ensures forall k :: k in Encode(f) ==> k in {"user_id", "telegram_id", "token_hash", "expires_at", "created_at",
                                                 "last_rotated", "revoked_at"}
  {
    EntriesKeys(NAMES, Values(f));
  }

  /** Every field under its name, the numbers in decimal, and nothing else. */
  lemma WireNames(f: Fields)
    ensures var m := Encode(f);
            && Field(m, "user_id") == OrEmpty(f.user) && Field(m, "token_hash") == OrEmpty(f.token)
            && (f.telegram.Some? ==> Field(m, "telegram_id") == Dec(f.telegram.value))
            && (f.expiresAt.Some? ==> Field(m, "expires_at") == Dec(f.expiresAt.value))
            && (f.createdAt.Some? ==> Field(m, "created_at") == Dec(f.createdAt.value))
            && (f.lastRotated.Some? ==> Field(m, "last_rotated") == Dec(f.lastRotated.value))
            && (f.revokedAt.Some? ==> Field(m, "revoked_at") == Dec(f.revokedAt.value))
            && forall k :: k in m ==> k in {"user_id", "telegram_id", "token_hash", "expires_at", "created_at",
                                            "last_rotated", "revoked_at"}
  {
    EncodedFields(f);
    NoOtherNames(f);
    assert Field(Encode(f), NAMES[0]) == OrEmpty(f.user) && Field(Encode(f), NAMES[2]) == OrEmpty(f.token);
    assert Field(Encode(f), NAMES[1]) == OrEmpty(Number(f.telegram));
    assert Field(Encode(f), NAMES[3]) == OrEmpty(Number(f.expiresAt));
    assert Field(Encode(f), NAMES[4]) == OrEmpty(Number(f.createdAt));
    assert Field(Encode(f), NAMES[5]) == OrEmpty(Number(f.lastRotated));
    assert Field(Encode(f), NAMES[6]) == OrEmpty(Number(f.revokedAt));
  }

  lemma NumberRoundTrip(n: Option<int>)
    ensures ParseInt(OrEmpty(Number(n))) == if Fits(n) then n else None
    ensures n.Some? ==> OrEmpty(Number(n)) != ""
  {
    if n.Some? {
      DecimalRoundTrip(n.value);
      DecNatValue(if n.value < 0 then -n.value else n.value);
    }
  }

  /**
   * Reading the strings of a hash gives what reading its fields gives if and only if its numbers are int64s,
   * or one of the four required ones is missing, and then both report the hash as malformed.
   */
  lemma DecodeInvertsEncode(f: Fields)
    ensures Decode(Encode(f)) == Parse(f) <==> (Parse(f).Ok? ==> AllFit(f))
    ensures Decode(Encode(f)).Err? ==> Decode(Encode(f)) == Err(Malformed)
  {
    var m := Encode(f);
    EncodedFields(f);
    assert Field(m, NAMES[0]) == OrEmpty(f.user) && Field(m, NAMES[2]) == OrEmpty(f.token);
    assert Field(m, NAMES[1]) == OrEmpty(Number(f.telegram)) && Field(m, NAMES[3]) == OrEmpty(Number(f.expiresAt));
    assert Field(m, NAMES[4]) == OrEmpty(Number(f.createdAt)) && Field(m, NAMES[5]) == OrEmpty(Number(f.lastRotated));
    assert Field(m, NAMES[6]) == OrEmpty(Number(f.revokedAt));
    NumberRoundTrip(f.telegram);
    NumberRoundTrip(f.expiresAt);
    NumberRoundTrip(f.createdAt);
    NumberRoundTrip(f.lastRotated);
    NumberRoundTrip(f.revokedAt);
  }

  function AllLater(a: seq<Option<string>>, b: seq<Option<string>>): seq<Option<string>>
    requires |a| == |b|
  {
    seq(|a|, i requires 0 <= i < |a| => Later(a[i], b[i]))
  }

  lemma EntriesWritten(names: seq<string>, a: seq<Option<string>>, b: seq<Option<string>>)
    requires |names| == |a| == |b| && Distinct(names)
    ensures Entries(names, AllLater(a, b)) == Entries(names, a) + Entries(names, b)
  {
    var l, r := Entries(names, AllLater(a, b)), Entries(names, a) + Entries(names, b);
    EntriesKeys(names, a);
    EntriesKeys(names, b);
    EntriesKeys(names, AllLater(a, b));
    forall k ensures (k in l <==> k in r) && (k in l && k in r ==> l[k] == r[k]) {
      if k in names {
        var i :| 0 <= i < |names| && names[i] == k;
        EntryAt(names, a, i);
        EntryAt(names, b, i);
        EntryAt(names, AllLater(a, b), i);
      }
    }
  }

  lemma NumberLater(a: Option<int>, b: Option<int>)
    ensures Number(Later(a, b)) == Later(Number(a), Number(b))
  {
  }

  lemma ValuesWritten(f: Fields, w: Fields)
    ensures AllLater(Values(f), Values(w)) == Values(Written(f, w))
  {
    NumberLater(f.telegram, w.telegram);
    NumberLater(f.expiresAt, w.expiresAt);
    NumberLater(f.createdAt, w.createdAt);
    NumberLater(f.lastRotated, w.lastRotated);
    NumberLater(f.revokedAt, w.revokedAt);
    var l, r := AllLater(Values(f), Values(w)), Values(Written(f, w));
    assert l[0] == r[0] && l[1] == r[1] && l[2] == r[2] && l[3] == r[3] && l[4] == r[4] && l[5] == r[5] && l[6] == r[6];
    assert l == r;
  }

  /** HSET on the strings is HSET on the fields: later values win, other fields stay. */
  lemma EncodeWritten(f: Fields, w: Fields)
    ensures Encode(Written(f, w)) == Encode(f) + Encode(w)
  {
    NamesDiffer();
    EntriesWritten(NAMES, Values(f), Values(w));
    ValuesWritten(f, w);
  }

  // ---------- Times ----------

  /** Nanoseconds since the Unix epoch; Go keeps the seconds of every time in an int64. */
  type Instant = n: int | Int64(n / 1_000_000_000) witness 0

  function Unix(t: Instant): int {
    t / 1_000_000_000
  }

  function FromUnix(sec: int): int {
    sec * 1_000_000_000
  }

  datatype TimedSession = TimedSession(user: UserId, telegram: int, token: TokenHash, expiresAt: Instant,
                                       createdAt: Instant, lastRotated: Instant)

  function InSeconds(s: TimedSession): Session {
    Session(s.user, s.telegram, s.token, Unix(s.expiresAt), Unix(s.createdAt), Unix(s.lastRotated), None)
  }

  /** What Create writes reads back as the session, its times cut to the whole second and not moved otherwise. */
  lemma CreatedSessionReadsBack(s: TimedSession)
    requires Int64(s.telegram)
    ensures var r := Decode(Encode(CreatedFields(InSeconds(s))));
            && r.Ok? && r.value.user == s.user && r.value.telegram == s.telegram && r.value.token == s.token &&
               r.value.revokedAt == None
            && FromUnix(r.value.expiresAt) <= s.expiresAt < FromUnix(r.value.expiresAt + 1)
            && FromUnix(r.value.createdAt) <= s.createdAt < FromUnix(r.value.createdAt + 1)
            && FromUnix(r.value.lastRotated) <= s.lastRotated < FromUnix(r.value.lastRotated + 1)
  {
    DecodeInvertsEncode(CreatedFields(InSeconds(s)));
  }

  /** A Rotate changes three fields of what is read, and a revocation one. */
  lemma UpdatedSessionReadsBack(s: Session, next: TokenHash, expiresAt: int, at: int, revokedAt: int)
    requires Int64(s.telegram) && Int64(s.expiresAt) && Int64(s.createdAt) && Int64(s.lastRotated) && s.revokedAt.None?
    requires Int64(expiresAt) && Int64(at) && Int64(revokedAt)
    ensures Decode(Encode(CreatedFields(s)) + Encode(RotatedFields(next, expiresAt, at))) ==
            Ok(s.(token := next, expiresAt := expiresAt, lastRotated := at))
    ensures Decode(Encode(CreatedFields(s)) + Encode(NO_FIELDS.(revokedAt := Some(revokedAt)))) ==
            Ok(s.(revokedAt := Some(revokedAt)))
    ensures Decode(Encode(NO_FIELDS.(revokedAt := Some(revokedAt)))) == Err(Malformed)
  {
    EncodeWritten(CreatedFields(s), RotatedFields(next, expiresAt, at));
    EncodeWritten(CreatedFields(s), NO_FIELDS.(revokedAt := Some(revokedAt)));
    DecodeInvertsEncode(Written(CreatedFields(s), RotatedFields(next, expiresAt, at)));
    DecodeInvertsEncode(Written(CreatedFields(s), NO_FIELDS.(revokedAt := Some(revokedAt))));
    DecodeInvertsEncode(NO_FIELDS.(revokedAt := Some(revokedAt)));
  }
}
