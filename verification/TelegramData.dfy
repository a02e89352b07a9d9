/** The data Telegram signs for a Mini App: the string that is signed, and what accepting a signature means. */
module TelegramData {
  import opened Basics
  import opened Text
  import opened Sorting

  /** A query string taken apart: every key with its values in order. */
  type Values = map<string, seq<string>>

  function Join(parts: seq<string>): string {
    if parts == [] then ""
    else if |parts| == 1 then parts[0]
    else parts[0] + ['\n'] + Join(parts[1..])
  }

  function Line(values: Values, key: string): string
    requires key in values
  {
    key + ['='] + Join(values[key])
  }

  function Render(values: Values, keys: seq<string>): seq<string>
    requires forall k :: k in keys ==> k in values
  {
    seq(|keys|, i requires 0 <= i < |keys| => Line(values, keys[i]))
  }

  predicate Signed(values: Values, key: string) {
    key in values && key != "hash"
  }

  /** All keys but "hash", in order, each once. */
  ghost predicate SignedKeys(values: Values, keys: seq<string>) {
    StrictlyOrdered(Less, keys) && forall k :: k in keys <==> Signed(values, k)
  }

  lemma LessIsOrder()
    ensures StrictWeakOrder(Less)
  {
    forall x, y | Less(x, y) ensures !Less(y, x) {
      if Less(y, x) {
        LessTransitive(x, y, x);
      }
      LessIrreflexive(x);
    }
    forall x, y, z | !Less(x, y) && !Less(y, z) ensures !Less(x, z) {
      LessTotal(x, y);
      LessTotal(y, z);
      LessIrreflexive(x);
      if Less(z, y) && Less(y, x) {
        LessTransitive(z, y, x);
      }
      if Less(x, z) && Less(z, x) {
        LessTransitive(x, z, x);
      }
    }
  }

  lemma SignedKeysAreUnique(values: Values, a: seq<string>, b: seq<string>)
    requires SignedKeys(values, a) && SignedKeys(values, b)
    ensures a == b
  {
    LessIsOrder();
    assert Distinct(a) && Distinct(b);
    DistinctMultiset(a, b);
    StrictOrderIsUnique(Less, a, b);
  }

  lemma SortedAreSigned(values: Values, keys: seq<string>)
    requires Distinct(keys) && forall k :: k in keys <==> Signed(values, k)
    ensures SignedKeys(values, Sort(Less, keys))
  {
    LessIsOrder();
    forall x, y | x in keys && y in keys && x != y ensures Less(x, y) || Less(y, x) {
      LessTotal(x, y);
    }
    SortIsStrict(Less, keys);
    forall k ensures k in Sort(Less, keys) <==> k in keys {
      assert k in multiset(Sort(Less, keys)) <==> k in multiset(keys);
    }
  }

  /** s is the string that is signed for the values. */
  ghost predicate IsDataCheckString(values: Values, s: string) {
    exists keys :: SignedKeys(values, keys) && s == Join(Render(values, keys))
  }

  /** Whatever order the map is walked in, it is this one string. */
  method BuildDataCheckString(values: Values) returns (s: string)
    ensures IsDataCheckString(values, s)
  {
    var keys: seq<string> := [];
    var rest := values.Keys;
    while rest != {}
      invariant rest <= values.Keys && Distinct(keys)
      invariant forall k :: k in keys <==> Signed(values, k) && k !in rest
      decreases |rest|
    {
      var key :| key in rest;
      rest := rest - {key};
      if key == "hash" {
        continue;
      }
      DistinctAppend(keys, key);
      keys := keys + [key];
    }
    SortedAreSigned(values, keys);
    keys := Sort(Less, keys);
    s := Printed(values, keys);
  }

  method Printed(values: Values, keys: seq<string>) returns (s: string)
    requires forall k :: k in keys ==> k in values
    ensures s == Join(Render(values, keys))
  {
    var pairs: seq<string> := [];
    for i := 0 to |keys|
      invariant |pairs| == i && forall k :: 0 <= k < i ==> pairs[k] == Line(values, keys[k])
    {
      pairs := pairs + [keys[i] + "=" + Join(values[keys[i]])];
    }
    assert pairs == Render(values, keys);
    s := Join(pairs);
  }

  /** Two maps that differ at most in their hash have the same string, and each map has only one. */
  lemma HashIsIgnored(a: Values, b: Values, s: string, t: string)
    requires a - {"hash"} == b - {"hash"} && IsDataCheckString(a, s) && IsDataCheckString(b, t)
    ensures s == t
  {
    var keys :| SignedKeys(a, keys) && s == Join(Render(a, keys));
    var others :| SignedKeys(b, others) && t == Join(Render(b, others));
    Agree(a, b);
    assert SignedKeys(b, keys);
    SignedKeysAreUnique(b, keys, others);
    forall k | k in keys ensures k in a && k in b && a[k] == b[k] {
      assert Signed(a, k);
    }
    RenderAgrees(a, b, keys);
  }

  lemma RenderAgrees(a: Values, b: Values, keys: seq<string>)
    requires forall k :: k in keys ==> k in a && k in b && a[k] == b[k]
    ensures Render(a, keys) == Render(b, keys)
  {
  }

  lemma Agree(a: Values, b: Values)
    requires a - {"hash"} == b - {"hash"}
    ensures forall k :: k != "hash" ==> ((k in a <==> k in b) && (k in a ==> a[k] == b[k]))
  {
    assert forall k :: k != "hash" ==> (k in a <==> k in a - {"hash"}) && (k in b <==> k in b - {"hash"});
    assert forall k :: k != "hash" && k in a ==> a[k] == (a - {"hash"})[k];
    assert forall k :: k != "hash" && k in b ==> b[k] == (b - {"hash"})[k];
  }

  // ---------- Reading the string back ----------

  function Lines(s: string): seq<string>
    decreases |s|
  {
    var parts := Cut(s, '\n');
    if parts.None? then [s]
    else
      CutAtFirst(s, '\n');
      [parts.value.0] + Lines(parts.value.1)
  }

  /** The lines as a map from what is before the first '=' to what is after it. */
  function ParseLines(lines: seq<string>): Option<Values> {
    if lines == [] then Some(map[])
    else
      var parts := Cut(lines[0], '=');
      var rest := ParseLines(lines[1..]);
      if parts.None? || rest.None? then None else Some(rest.value[parts.value.0 := [parts.value.1]])
  }

  function Parse(s: string): Option<Values> {
    if s == "" then Some(map[]) else ParseLines(Lines(s))
  }

  predicate PlainItem(key: string, items: seq<string>) {
    |items| == 1 && '=' !in key && '\n' !in key && '\n' !in items[0]
  }

  /** Keys without '=' or a line break, each with a single value without a line break. */
  predicate Plain(values: Values) {
    forall k :: k in values ==> PlainItem(k, values[k])
  }

  lemma {:induction false} LinesHaveNoBreak(s: string)
    ensures forall i :: 0 <= i < |Lines(s)| ==> '\n' !in Lines(s)[i]
    decreases |s|
  {
    CutAtFirst(s, '\n');
    if Cut(s, '\n').Some? {
      LinesHaveNoBreak(Cut(s, '\n').value.1);
    }
  }

  lemma {:induction false} LinesOfJoin(parts: seq<string>)
    requires parts != [] && forall i :: 0 <= i < |parts| ==> '\n' !in parts[i]
    ensures Lines(Join(parts)) == parts
  {
    if |parts| == 1 {
      CutAtFirst(parts[0], '\n');
    } else {
      LinesOfJoin(parts[1..]);
      CutJoined(parts[0], Join(parts[1..]), '\n');
    }
  }

  /** What is read is always plain. */
  lemma {:induction false} ParsedIsPlain(lines: seq<string>)
    requires forall i :: 0 <= i < |lines| ==> '\n' !in lines[i]
    ensures ParseLines(lines).Some? ==> Plain(ParseLines(lines).value)
  {
    if lines != [] {
      ParsedIsPlain(lines[1..]);
      CutAtFirst(lines[0], '=');
    }
  }

  lemma {:induction false} ParseRendered(values: Values, keys: seq<string>)
    requires Distinct(keys) && forall k :: k in keys ==> k in values && PlainItem(k, values[k])
    ensures ParseLines(Render(values, keys)) == Some(map k | k in keys :: values[k])
  {
    if keys != [] {
      var key := keys[0];
      ParseRendered(values, keys[1..]);
      assert Render(values, keys)[1..] == Render(values, keys[1..]);
      CutJoined(key, Join(values[key]), '=');
      assert values[key] == [Join(values[key])];
      assert (map k | k in keys :: values[k]) == (map k | k in keys[1..] :: values[k])[key := values[key]];
    }
  }

  lemma PlainLine(values: Values, key: string)
    requires key in values && PlainItem(key, values[key])
    ensures '\n' !in Line(values, key) && Line(values, key) != ""
  {
  }

  lemma RecoveredIfPlain(values: Values, keys: seq<string>)
    requires SignedKeys(values, keys) && Plain(values - {"hash"})
    ensures Parse(Join(Render(values, keys))) == Some(values - {"hash"})
  {
    var signed := values - {"hash"};
    forall k | k in keys ensures k in values && PlainItem(k, values[k]) {
      assert k in signed && PlainItem(k, signed[k]);
    }
    LessIsOrder();
    ParseRendered(values, keys);
    assert (map k | k in keys :: values[k]) == signed;
    var lines := Render(values, keys);
    if keys != [] {
      forall i | 0 <= i < |lines| ensures '\n' !in lines[i] && lines[i] != "" {
        PlainLine(values, keys[i]);
      }
      LinesOfJoin(lines);
      assert Join(lines) != "";
    }
  }

  /** Splitting into lines and at the first '=' gives the signed values back exactly if they are plain. */
  lemma RecoveredIff(values: Values, s: string)
    requires IsDataCheckString(values, s)
    ensures Parse(s) == Some(values - {"hash"}) <==> Plain(values - {"hash"})
  {
    var keys :| SignedKeys(values, keys) && s == Join(Render(values, keys));
    if Plain(values - {"hash"}) {
      RecoveredIfPlain(values, keys);
    }
    LinesHaveNoBreak(s);
    ParsedIsPlain(Lines(s));
  }

  /** Among plain values the string tells all of them but the hash. */
  lemma PlainStringsDiffer(a: Values, b: Values, s: string, t: string)
    requires Plain(a - {"hash"}) && Plain(b - {"hash"}) && IsDataCheckString(a, s) && IsDataCheckString(b, t)
    ensures s == t <==> a - {"hash"} == b - {"hash"}
  {
    RecoveredIff(a, s);
    RecoveredIff(b, t);
    if a - {"hash"} == b - {"hash"} {
      HashIsIgnored(a, b, s, t);
    }
  }

  /** Outside them it does not: a value with a line break reads like two values. */
  lemma SameStringForDifferentValues()
    ensures var a: Values, b: Values := map["a" := ["1\nb=2"]], map["a" := ["1"], "b" := ["2"]];
            a != b && IsDataCheckString(a, "a=1\nb=2") && IsDataCheckString(b, "a=1\nb=2")
  {
    var a: Values, b: Values := map["a" := ["1\nb=2"]], map["a" := ["1"], "b" := ["2"]];
    assert "a" in a && "b" !in a;
    var x, y := ["a"], ["a", "b"];
    assert SignedKeys(a, x) && SignedKeys(b, y);
    assert Line(a, "a") == "a" + ['='] + "1\nb=2" == "a=1\nb=2";
    assert Line(b, "a") == "a" + ['='] + "1" == "a=1" && Line(b, "b") == "b" + ['='] + "2" == "b=2";
    assert Render(a, x) == ["a=1\nb=2"] && Render(b, y) == ["a=1", "b=2"];
    assert Join(["a=1", "b=2"][1..]) == "b=2";
  }

  /** Several values of one key come on lines of their own. */
  lemma ValuesOnLines()
    ensures var a: Values := map["a" := ["1", "2"], "hash" := ["x"]]; IsDataCheckString(a, "a=1\n2")
  {
    var a: Values := map["a" := ["1", "2"], "hash" := ["x"]];
    assert "a" in a && "a" != "hash";
    assert Signed(a, "a");
    assert SignedKeys(a, ["a"]);
    assert Join(["1", "2"][1..]) == "2";
    assert Join(["1", "2"]) == "1" + ['\n'] + "2" == "1\n2";
    assert Line(a, "a") == "a" + ['='] + "1\n2" == "a=1\n2";
    assert Render(a, ["a"]) == ["a=1\n2"];
  }

  // ---------- Accepting a signature ----------

  datatype User = User(id: int, isBot: bool, firstName: string, lastName: string, username: string,
                       languageCode: string, photoUrl: string)

  datatype InitData = InitData(user: User, authDate: int, raw: Values)

  datatype Error =
    | NoBotToken | Unreadable | MissingHash | MissingAuthDate | BadAuthDate | Expired | InvalidHash
    | MissingUser | BadUser

  /** url.Values.Get */
  function Get(values: Values, key: string): string {
    if key in values && values[key] != [] then values[key][0] else ""
  }

  /** The first value of the key is there and not blank. */
  predicate Has(values: Values, key: string) {
    key in values && values[key] != [] && values[key][0] != ""
  }

  function HexDigit(c: char): Option<nat> {
    if '0' <= c <= '9' then Some((c - '0') as nat)
    else if 'a' <= c <= 'f' then Some((c - 'a') as nat + 10)
    else if 'A' <= c <= 'F' then Some((c - 'A') as nat + 10)
    else None
  }

  /** The value of a hexadecimal digit is its place among them, in either case. */
  lemma HexDigitIff(c: char, d: nat)
    ensures HexDigit(c) == Some(d) <==> d < 16 && ("0123456789abcdef"[d] == c || "0123456789ABCDEF"[d] == c)
  {
  }

  /** hex.DecodeString */
  function DecodeHex(s: string): Option<seq<nat>> {
    if s == "" then Some([])
    else if |s| == 1 then None
    else
      var rest := DecodeHex(s[2..]);
      if HexDigit(s[0]).None? || HexDigit(s[1]).None? || rest.None? then None
      else Some([16 * HexDigit(s[0]).value + HexDigit(s[1]).value] + rest.value)
  }

  /** Every two digits are a byte, the high one first; a string of odd length or with another character is no hash. */
  lemma {:induction false} DecodeHexIff(s: string)
    ensures DecodeHex(s).Some? <==> |s| % 2 == 0 && forall c :: c in s ==> HexDigit(c).Some?
    ensures DecodeHex(s).Some? ==>
              && 2 * |DecodeHex(s).value| == |s|
              && forall i :: 0 <= i < |DecodeHex(s).value| ==>
                   && HexDigit(s[2 * i]).Some? && HexDigit(s[2 * i + 1]).Some?
                   && DecodeHex(s).value[i] == 16 * HexDigit(s[2 * i]).value + HexDigit(s[2 * i + 1]).value
  {
    if |s| >= 2 {
      DecodeHexIff(s[2..]);
      assert s == [s[0], s[1]] + s[2..];
    }
  }

  const SECOND := 1_000_000_000

  /** time.Time.Sub on times in nanoseconds: the difference, kept within an int64. */
  function Sub(a: int, b: int): int {
    if a - b > MAX_INT64 then MAX_INT64 else if a - b < MIN_INT64 then MIN_INT64 else a - b
  }

  /** The saturated difference is too great exactly if the difference is, unless every int64 would be in time. */
  lemma TooOldIff(now: int, date: int, maxAge: int)
    requires Int64(maxAge)
    ensures Sub(now, date) > maxAge <==> now - date > maxAge && maxAge < MAX_INT64
  {
  }

  /** The hash that came with the values is the code of their string under the bot's token. */
  ghost predicate Authentic(values: Values, botToken: string, mac: (string, string) -> seq<nat>) {
    exists s :: IsDataCheckString(values, s) && DecodeHex(Get(values, "hash")) == Some(mac(botToken, s))
  }

  ghost function Outcome(parsed: Option<Values>, botToken: string, maxAge: int, now: int,
                         mac: (string, string) -> seq<nat>, readUser: string -> Option<User>): Result<InitData, Error> {
    if botToken == "" then Err(NoBotToken)
    else if parsed.None? then Err(Unreadable)
    else
      var values := parsed.value;
      var seconds := ParseInt(Get(values, "auth_date"));
      if Get(values, "hash") == "" then Err(MissingHash)
      else if Get(values, "auth_date") == "" then Err(MissingAuthDate)
      else if seconds.None? then Err(BadAuthDate)
      else if maxAge > 0 && Sub(now, seconds.value * SECOND) > maxAge then Err(Expired)
      else if !Authentic(values, botToken, mac) then Err(InvalidHash)
      else if Get(values, "user") == "" then Err(MissingUser)
      else if readUser(Get(values, "user")).None? then Err(BadUser)
      else Ok(InitData(readUser(Get(values, "user")).value, seconds.value, values))
  }

  method VerifyInitData(parsed: Option<Values>, botToken: string, maxAge: int, now: int,
                        mac: (string, string) -> seq<nat>, readUser: string -> Option<User>)
    returns (r: Result<InitData, Error>)
    ensures r == Outcome(parsed, botToken, maxAge, now, mac, readUser)
    ensures r.Ok? ==>
              && botToken != "" && parsed == Some(r.value.raw) && Authentic(r.value.raw, botToken, mac)
              && Has(r.value.raw, "hash") && Has(r.value.raw, "auth_date") && Has(r.value.raw, "user")
              && ParseInt(r.value.raw["auth_date"][0]) == Some(r.value.authDate)
              && readUser(r.value.raw["user"][0]) == Some(r.value.user)
    ensures r.Ok? && 0 < maxAge < MAX_INT64 ==> now - r.value.authDate * 1_000_000_000 <= maxAge
    ensures Int64(maxAge) ==>
              (r == Err(Expired) <==>
                 && botToken != "" && parsed.Some? && Has(parsed.value, "hash") && Has(parsed.value, "auth_date")
                 && var date := ParseInt(parsed.value["auth_date"][0]);
                 && date.Some? && 0 < maxAge < MAX_INT64 && now - date.value * 1_000_000_000 > maxAge)
    ensures parsed.Some? && botToken != "" && Has(parsed.value, "hash") && Has(parsed.value, "auth_date") &&
            ParseInt(parsed.value["auth_date"][0]).Some? && r != Err(Expired) ==>
              && (r == Err(InvalidHash) <==> !Authentic(parsed.value, botToken, mac))
              && (r.Ok? <==> Authentic(parsed.value, botToken, mac) && Has(parsed.value, "user") &&
                             readUser(parsed.value["user"][0]).Some?)
  {
    if botToken == "" {
      return Err(NoBotToken);
    }
    if parsed.None? {
      return Err(Unreadable);
    }
    var values := parsed.value;
    var hash := Get(values, "hash");
    if hash == "" {
      return Err(MissingHash);
    }
    var authDateStr := Get(values, "auth_date");
    if authDateStr == "" {
      return Err(MissingAuthDate);
    }
    var authUnix := ParseInt(authDateStr);
    if authUnix.None? {
      return Err(BadAuthDate);
    }
    if maxAge > 0 && Sub(now, authUnix.value * SECOND) > maxAge {
      return Err(Expired);
    }
    var dataCheckString := BuildDataCheckString(values);
    AuthenticByAny(values, botToken, mac, dataCheckString);
    if DecodeHex(hash) != Some(mac(botToken, dataCheckString)) {
      return Err(InvalidHash);
    }
    var userStr := Get(values, "user");
    if userStr == "" {
      return Err(MissingUser);
    }
    var user := readUser(userStr);
    if user.None? {
      return Err(BadUser);
    }
    return Ok(InitData(user.value, authUnix.value, values));
  }

  lemma AuthenticByAny(values: Values, botToken: string, mac: (string, string) -> seq<nat>, s: string)
    requires IsDataCheckString(values, s)
    ensures Authentic(values, botToken, mac) <==> DecodeHex(Get(values, "hash")) == Some(mac(botToken, s))
  {
    if t :| IsDataCheckString(values, t) && DecodeHex(Get(values, "hash")) == Some(mac(botToken, t)) {
      HashIsIgnored(values, values, s, t);
    }
  }

  /**
   * If the code never gives two strings the same value, one hash vouches for one set of plain values: whatever
   * else is accepted with it has the same keys and values, the same user and the same date.
   */
  lemma OneHashOneMessage(a: Values, b: Values, botToken: string, maxAge: int, now: int, later: int,
                          mac: (string, string) -> seq<nat>, readUser: string -> Option<User>)
    requires forall s, t :: mac(botToken, s) == mac(botToken, t) ==> s == t
    requires Plain(a - {"hash"}) && Plain(b - {"hash"}) && DecodeHex(Get(a, "hash")) == DecodeHex(Get(b, "hash"))
    requires Outcome(Some(a), botToken, maxAge, now, mac, readUser).Ok? &&
             Outcome(Some(b), botToken, maxAge, later, mac, readUser).Ok?
    ensures a - {"hash"} == b - {"hash"}
    ensures var x, y := Outcome(Some(a), botToken, maxAge, now, mac, readUser).value,
            Outcome(Some(b), botToken, maxAge, later, mac, readUser).value;
            x.user == y.user && x.authDate == y.authDate
  {
    var s :| IsDataCheckString(a, s) && DecodeHex(Get(a, "hash")) == Some(mac(botToken, s));
    var t :| IsDataCheckString(b, t) && DecodeHex(Get(b, "hash")) == Some(mac(botToken, t));
    PlainStringsDiffer(a, b, s, t);
    Agree(a, b);
    assert "user" != "hash" && "auth_date" != "hash";
  }
}
