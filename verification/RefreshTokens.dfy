/** Refresh tokens: a session id and a secret, both random bytes in the URL alphabet of section 5 of RFC 4648. */
module RefreshTokens {
  import opened Basics
  import opened Text

  type Byte = n: int | 0 <= n < 256

  function Sextet(n: nat): char
    requires n < 64
  {
    if n < 26 then 'A' + n as char
    else if n < 52 then 'a' + (n - 26) as char
    else if n < 62 then '0' + (n - 52) as char
    else if n == 62 then '-' else '_'
  }

  /** The URL alphabet in its order, by code points. */
  lemma SextetIs(n: nat)
    requires n < 64
    ensures n < 26 ==> Sextet(n) as int == 65 + n
    ensures 26 <= n < 52 ==> Sextet(n) as int == 71 + n
    ensures 52 <= n < 62 ==> Sextet(n) as int == n - 4
    ensures Sextet(62) == '-' && Sextet(63) == '_'
  {
  }

  predicate InAlphabet(c: char) {
    'A' <= c <= 'Z' || 'a' <= c <= 'z' || '0' <= c <= '9' || c == '-' || c == '_'
  }

  /** base64.RawURLEncoding.EncodeToString: no padding. */
  function Encode(b: seq<Byte>): string {
    if |b| == 0 then ""
    else if |b| == 1 then [Sextet(b[0] / 4), Sextet(b[0] % 4 * 16)]
    else if |b| == 2 then [Sextet(b[0] / 4), Sextet(b[0] % 4 * 16 + b[1] / 16), Sextet(b[1] % 16 * 4)]
    else Group(b[0], b[1], b[2]) + Encode(b[3..])
  }

  function Group(x: Byte, y: Byte, z: Byte): string {
    [Sextet(x / 4), Sextet(x % 4 * 16 + y / 16), Sextet(y % 16 * 4 + z / 64), Sextet(z % 64)]
  }

  lemma SextetInjective(a: nat, b: nat)
    requires a < 64 && b < 64 && Sextet(a) == Sextet(b)
    ensures a == b
  {
  }

  lemma {:induction false} EncodedShape(b: seq<Byte>)
    ensures |Encode(b)| == |b| / 3 * 4 + (if |b| % 3 == 0 then 0 else |b| % 3 + 1)
    ensures forall c :: c in Encode(b) ==> InAlphabet(c)
  {
    if |b| >= 3 {
      EncodedShape(b[3..]);
    }
  }

  lemma GroupInjective(x: Byte, y: Byte, z: Byte, u: Byte, v: Byte, w: Byte)
    requires Group(x, y, z) == Group(u, v, w)
    ensures x == u && y == v && z == w
  {
    var g, h := Group(x, y, z), Group(u, v, w);
    assert g[0] == h[0] && g[1] == h[1] && g[2] == h[2] && g[3] == h[3];
    SextetInjective(x / 4, u / 4);
    SextetInjective(x % 4 * 16 + y / 16, u % 4 * 16 + v / 16);
    SextetInjective(y % 16 * 4 + z / 64, v % 16 * 4 + w / 64);
    SextetInjective(z % 64, w % 64);
  }

  /** Different bytes of the same number never print alike, so bytes never drawn before are an id never used before. */
  lemma {:induction false} EncodeInjective(a: seq<Byte>, b: seq<Byte>)
    requires |a| == |b| && Encode(a) == Encode(b)
    ensures a == b
  {
    var s, t := Encode(a), Encode(b);
    if |a| == 1 {
      assert s[0] == t[0] && s[1] == t[1];
      SextetInjective(a[0] / 4, b[0] / 4);
      SextetInjective(a[0] % 4 * 16, b[0] % 4 * 16);
    } else if |a| == 2 {
      assert s[0] == t[0] && s[1] == t[1] && s[2] == t[2];
      SextetInjective(a[0] / 4, b[0] / 4);
      SextetInjective(a[0] % 4 * 16 + a[1] / 16, b[0] % 4 * 16 + b[1] / 16);
      SextetInjective(a[1] % 16 * 4, b[1] % 16 * 4);
    } else if |a| >= 3 {
      assert s[..4] == Group(a[0], a[1], a[2]) && t[..4] == Group(b[0], b[1], b[2]);
      assert s[4..] == Encode(a[3..]) && t[4..] == Encode(b[3..]);
      GroupInjective(a[0], a[1], a[2], b[0], b[1], b[2]);
      EncodeInjective(a[3..], b[3..]);
      assert a == [a[0], a[1], a[2]] + a[3..] && b == [b[0], b[1], b[2]] + b[3..];
    }
  }

  /** The test vectors of section 10 of RFC 4648, without their padding. */
  lemma KnownPrints()
    ensures Encode([102]) == "Zg" && Encode([102, 111]) == "Zm8" && Encode([102, 111, 111]) == "Zm9v"
    ensures Encode([102, 111, 111, 98, 97, 114]) == "Zm9vYmFy"
  {
    var b := [102, 111, 111, 98, 97, 114];
    assert b[3..] == [98, 97, 114] && [98, 97, 114][3..] == [] && [102, 111, 111][3..] == [];
    assert Group(102, 111, 111) == "Zm9v" && Group(98, 97, 114) == "YmFy";
    assert "Zm9v" + "YmFy" == "Zm9vYmFy";
  }

  // ---------- Tokens ----------

  const ID_BYTES := 18
  const SECRET_BYTES := 32

  function BuildRefreshToken(sessionId: string, secret: seq<Byte>): string {
    sessionId + "." + Encode(secret)
  }

  function ParseSessionId(token: string): Option<string> {
    var parts := Cut(TrimSpace(token), '.');
    if parts.None? || parts.value.0 == "" || parts.value.1 == "" then None else Some(parts.value.0)
  }

  /**
   * The id of a token, both ways: it is what stands before the first dot of the trimmed token, with something
   * after it.
   */
  lemma ParsedIdIsBeforeFirstDot(token: string, id: string)
    ensures ParseSessionId(token) == Some(id) <==>
            exists rest :: TrimSpace(token) == id + "." + rest && id != "" && '.' !in id && rest != ""
  {
    CutAtFirst(TrimSpace(token), '.');
    if rest :| TrimSpace(token) == id + "." + rest && id != "" && '.' !in id && rest != "" {
      CutJoined(id, rest, '.');
    }
  }

  /** An id of the alphabet, a dot and a secret of the alphabet need no trimming and split at that dot. */
  lemma ParseJoined(id: string, secret: string)
    requires id != "" && secret != "" && (forall c :: c in id ==> InAlphabet(c)) &&
             (forall c :: c in secret ==> InAlphabet(c))
    ensures ParseSessionId(id + "." + secret) == Some(id)
  {
    var token := id + "." + secret;
    assert token[0] == id[0] && token[|token| - 1] == secret[|secret| - 1];
    assert InAlphabet(id[0]) && InAlphabet(secret[|secret| - 1]);
    TrimSpaceTrims(token);
    CutJoined(id, secret, '.');
  }

  /** Every token that is built parses to its session id. */
  lemma ParseInvertsBuild(idBytes: seq<Byte>, secret: seq<Byte>)
    requires |idBytes| == ID_BYTES && |secret| == SECRET_BYTES
    ensures ParseSessionId(BuildRefreshToken(Encode(idBytes), secret)) == Some(Encode(idBytes))
    ensures |Encode(idBytes)| == 24 && |BuildRefreshToken(Encode(idBytes), secret)| == 24 + 1 + 43
  {
    EncodedShape(idBytes);
    EncodedShape(secret);
    ParseJoined(Encode(idBytes), Encode(secret));
  }

  /** Two tokens built from different bytes differ. */
  lemma TokensDiffer(a: seq<Byte>, s: seq<Byte>, b: seq<Byte>, t: seq<Byte>)
    requires |a| == |b| == ID_BYTES && |s| == |t| == SECRET_BYTES
    requires BuildRefreshToken(Encode(a), s) == BuildRefreshToken(Encode(b), t)
    ensures a == b && s == t
  {
    ParseInvertsBuild(a, s);
    ParseInvertsBuild(b, t);
    EncodeInjective(a, b);
    var n := |Encode(a)| + 1;
    assert Encode(s) == BuildRefreshToken(Encode(a), s)[n..];
    assert Encode(t) == BuildRefreshToken(Encode(b), t)[n..];
    EncodeInjective(s, t);
  }
}
