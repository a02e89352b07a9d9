/** The catalogue of games that admins keep. */
module Games {
  import opened Basics
  import opened Text
  import opened Sorting

  datatype Game = Game(id: string, slug: string, title: string, description: string, rules: seq<string>, status: string,
                       createdAt: int, updatedAt: int)

  datatype Request = Request(slug: string, title: string, description: string, rules: seq<string>, status: string)

  datatype Error = InvalidId | InvalidSlug | InvalidTitle | InvalidStatus | DuplicateSlug(slug: string) | NotFound

  type Catalogue = map<string, Game>

  predicate IsStatus(status: string) {
    status == "draft" || status == "active" || status == "archived"
  }

  // ---------- Sanitising ----------

  /** The rules that are not blank, trimmed. */
  function TrimmedRules(rules: seq<string>): seq<string> {
    if rules == [] then []
    else
      var front := TrimmedRules(rules[..|rules| - 1]);
      var last := TrimSpace(rules[|rules| - 1]);
      if last == "" then front else front + [last]
  }

  function Sanitized(req: Request): Result<Request, Error> {
    var clean := Request(ToLower(TrimSpace(req.slug)), TrimSpace(req.title), TrimSpace(req.description),
                         TrimmedRules(req.rules), ToLower(TrimSpace(req.status)));
    if clean.slug == "" then Err(InvalidSlug)
    else if clean.title == "" then Err(InvalidTitle)
    else if !IsStatus(clean.status) then Err(InvalidStatus)
    else Ok(clean)
  }

  lemma {:induction false} RulesAreTrimmed(rules: seq<string>)
    ensures forall i :: 0 <= i < |TrimmedRules(rules)| ==>
            Trimmed(TrimmedRules(rules)[i]) && TrimmedRules(rules)[i] != ""
  {
    if rules != [] {
      RulesAreTrimmed(rules[..|rules| - 1]);
      TrimSpaceTrims(rules[|rules| - 1]);
    }
  }

  /** kept are the rules at the given places, trimmed, and all others are blank. */
  ghost predicate KeptAt(rules: seq<string>, kept: seq<string>, at: seq<nat>) {
    && |at| == |kept| && (forall j, k :: 0 <= j < k < |at| ==> at[j] < at[k])
    && (forall k :: 0 <= k < |at| ==> at[k] < |rules| && kept[k] == TrimSpace(rules[at[k]]))
    && (forall i :: 0 <= i < |rules| ==> (i in at <==> TrimSpace(rules[i]) != ""))
  }

  lemma {:induction false} RulesAreKept(rules: seq<string>) returns (at: seq<nat>)
    ensures KeptAt(rules, TrimmedRules(rules), at)
  {
    at := [];
    if rules != [] {
      var last := |rules| - 1;
      at := RulesAreKept(rules[..last]);
      assert forall i :: 0 <= i < last ==> rules[..last][i] == rules[i];
      if TrimSpace(rules[last]) != "" {
        at := at + [last];
      }
    }
  }

  lemma {:induction false} TrimmedRulesStay(rules: seq<string>)
    requires forall i :: 0 <= i < |rules| ==> Trimmed(rules[i]) && rules[i] != ""
    ensures TrimmedRules(rules) == rules
  {
    if rules != [] {
      TrimmedRulesStay(rules[..|rules| - 1]);
      TrimSpaceTrims(rules[|rules| - 1]);
    }
  }

  lemma LowerTrimmedStays(s: string)
    ensures var r := ToLower(TrimSpace(s));
            ToLower(TrimSpace(r)) == r
  {
    TrimSpaceTrims(s);
    ToLowerFacts(TrimSpace(s));
    TrimSpaceTrims(ToLower(TrimSpace(s)));
  }

  /** Sanitising what is already sanitised changes nothing. */
  lemma SanitizingIsIdempotent(req: Request)
    requires Sanitized(req).Ok?
    ensures Sanitized(Sanitized(req).value) == Sanitized(req)
  {
    LowerTrimmedStays(req.slug);
    LowerTrimmedStays(req.status);
    TrimSpaceTrims(req.title);
    TrimSpaceTrims(TrimSpace(req.title));
    TrimSpaceTrims(req.description);
    TrimSpaceTrims(TrimSpace(req.description));
    RulesAreTrimmed(req.rules);
    TrimmedRulesStay(TrimmedRules(req.rules));
  }

  // ---------- What the operations do ----------

  /** The game says what the request says. */
  ghost predicate Says(g: Game, req: Request) {
    && g.slug == ToLower(TrimSpace(req.slug)) != "" && g.title == TrimSpace(req.title) != ""
    && g.description == TrimSpace(req.description)
    && g.status == ToLower(TrimSpace(req.status)) && g.status in {"draft", "active", "archived"}
    && exists at :: KeptAt(req.rules, g.rules, at)
  }

  lemma SanitizedSays(g: Game, req: Request)
    requires Sanitized(req) == Ok(AsRequest(g))
    ensures Says(g, req)
  {
    var at := RulesAreKept(req.rules);
  }

  ghost predicate SlugTaken(games: Catalogue, slug: string, exceptId: string) {
    exists id :: id in games && games[id].id != exceptId && games[id].slug == slug
  }

  function NewGame(id: string, req: Request, now: int): Game {
    Game(id, req.slug, req.title, req.description, req.rules, req.status, now, now)
  }

  function Rewritten(g: Game, req: Request, now: int): Game {
    Game(g.id, req.slug, req.title, req.description, req.rules, req.status, g.createdAt, now)
  }

  ghost function CreateResult(games: Catalogue, req: Request, id: string, now: int): Result<Game, Error> {
    var clean := Sanitized(req);
    if clean.Err? then Err(clean.error)
    else if SlugTaken(games, clean.value.slug, "") then Err(DuplicateSlug(clean.value.slug))
    else Ok(NewGame(id, clean.value, now))
  }

  ghost function UpdateResult(games: Catalogue, id: string, req: Request, now: int): Result<Game, Error> {
    if TrimSpace(id) == "" then Err(InvalidId)
    else
      var clean := Sanitized(req);
      if clean.Err? then Err(clean.error)
      else if id !in games then Err(NotFound)
      else if SlugTaken(games, clean.value.slug, id) then Err(DuplicateSlug(clean.value.slug))
      else Ok(Rewritten(games[id], clean.value, now))
  }

  /** The catalogue with the game an operation returned, the same one if it returned none. */
  function Stored(games: Catalogue, r: Result<Game, Error>): Catalogue {
    if r.Ok? then games[r.value.id := r.value] else games
  }

  function DeleteError(games: Catalogue, id: string): Option<Error> {
    if TrimSpace(id) == "" then Some(InvalidId) else if id !in games then Some(NotFound) else None
  }

  // ---------- The invariant ----------

  function AsRequest(g: Game): Request {
    Request(g.slug, g.title, g.description, g.rules, g.status)
  }

  /** The id is not blank, and the fields are as sanitising leaves them. */
  predicate GameOk(g: Game) {
    TrimSpace(g.id) != "" && Sanitized(AsRequest(g)) == Ok(AsRequest(g))
  }

  ghost predicate Keyed(games: Catalogue) {
    forall id :: id in games ==> games[id].id == id
  }

  ghost predicate AllOk(games: Catalogue) {
    forall id {:trigger GameOk(games[id])} :: id in games ==> GameOk(games[id])
  }

  ghost predicate SlugsDiffer(games: Catalogue) {
    forall a, b :: a in games && b in games && games[a].slug == games[b].slug ==> a == b
  }

  ghost predicate Valid(games: Catalogue) {
    Keyed(games) && AllOk(games) && SlugsDiffer(games)
  }

  lemma StoreKeeps(games: Catalogue, g: Game)
    requires Valid(games) && GameOk(g) && forall id :: id in games && id != g.id ==> games[id].slug != g.slug
    ensures Valid(games[g.id := g])
  {
    var t := games[g.id := g];
    forall id | id in t ensures GameOk(t[id]) {
      assert id != g.id ==> GameOk(games[id]);
    }
  }

  lemma RemoveKeeps(games: Catalogue, id: string)
    requires Valid(games)
    ensures Valid(games - {id})
  {
    forall other | other in games - {id} ensures GameOk((games - {id})[other]) {
      assert GameOk(games[other]);
    }
  }

  /** A new id is neither stored nor blank. */
  predicate FreshId(games: Catalogue, id: string) {
    id !in games && TrimSpace(id) != ""
  }

  lemma NoBlankId(games: Catalogue)
    requires Valid(games)
    ensures "" !in games
  {
    forall id | id in games ensures TrimSpace(id) != "" {
      assert GameOk(games[id]);
    }
    assert TrimSpace("") == "";
  }

  lemma CreateKeeps(games: Catalogue, req: Request, id: string, now: int)
    requires Valid(games) && FreshId(games, id)
    ensures Valid(Stored(games, CreateResult(games, req, id, now)))
  {
    var r := CreateResult(games, req, id, now);
    NoBlankId(games);
    if r.Ok? {
      SanitizingIsIdempotent(req);
      assert AsRequest(r.value) == Sanitized(req).value;
      StoreKeeps(games, r.value);
    }
  }

  lemma UpdateKeeps(games: Catalogue, id: string, req: Request, now: int)
    requires Valid(games)
    ensures Valid(Stored(games, UpdateResult(games, id, req, now)))
  {
    var r := UpdateResult(games, id, req, now);
    if r.Ok? {
      SanitizingIsIdempotent(req);
      assert AsRequest(r.value) == Sanitized(req).value;
      StoreKeeps(games, r.value);
    }
  }

  // ---------- Runs ----------

  datatype Op =
    | Create(req: Request, newId: string, now: int)
    | Update(id: string, req: Request, now: int)
    | Delete(id: string)

  ghost function Step(games: Catalogue, op: Op): Catalogue {
    match op
    case Create(req, newId, now) => Stored(games, CreateResult(games, req, newId, now))
    case Update(id, req, now) => Stored(games, UpdateResult(games, id, req, now))
    case Delete(id) => if DeleteError(games, id).None? then games - {id} else games
  }

  ghost function After(ops: seq<Op>): Catalogue {
    if ops == [] then map[] else Step(After(ops[..|ops| - 1]), ops[|ops| - 1])
  }

  /** Every id drawn for a new game is new when it is drawn. */
  ghost predicate DrawsFreshIds(ops: seq<Op>) {
    ops != [] ==>
      var before, op := ops[..|ops| - 1], ops[|ops| - 1];
      DrawsFreshIds(before) && (op.Create? ==> FreshId(After(before), op.newId))
  }

  lemma {:induction false} AlwaysValid(ops: seq<Op>)
    requires DrawsFreshIds(ops)
    ensures Valid(After(ops))
  {
    if ops != [] {
      var games, op := After(ops[..|ops| - 1]), ops[|ops| - 1];
      AlwaysValid(ops[..|ops| - 1]);
      match op {
        case Create(req, newId, now) => CreateKeeps(games, req, newId, now);
        case Update(id, req, now) => UpdateKeeps(games, id, req, now);
        case Delete(id) => RemoveKeeps(games, id);
      }
    }
  }

  /** A step changes at most the game it names: every other game, and its own id and creation time, stay. */
  lemma OthersStay(games: Catalogue, op: Op, id: string)
    requires Valid(games) && id in games && (op.Create? ==> FreshId(games, op.newId))
    ensures id in Step(games, op) || op == Delete(id)
    ensures id in Step(games, op) ==>
            Step(games, op)[id].id == id && Step(games, op)[id].createdAt == games[id].createdAt
    ensures !(op.Update? && op.id == id) && op != Delete(id) ==> Step(games, op)[id] == games[id]
  {
    match op {
      case Create(req, newId, now) => StoreTouchesOne(games, CreateResult(games, req, newId, now), id);
      case Update(other, req, now) =>
        StoreTouchesOne(games, UpdateResult(games, other, req, now), id);
      case Delete(_) =>
    }
  }

  lemma StoreTouchesOne(games: Catalogue, r: Result<Game, Error>, id: string)
    requires Keyed(games) && id in games
    ensures id in Stored(games, r) && Stored(games, r)[id].id == id
    ensures r.Err? || r.value.id != id ==> Stored(games, r)[id] == games[id]
    ensures r.Ok? && r.value.id == id ==> Stored(games, r)[id] == r.value
  {
  }

  /** Sending a game back as it is stored succeeds and changes nothing but the time of the update. */
  lemma UpdateWithItself(games: Catalogue, id: string, now: int)
    requires Valid(games) && id in games
    ensures UpdateResult(games, id, AsRequest(games[id]), now) == Ok(games[id].(updatedAt := now))
  {
    assert GameOk(games[id]);
  }

  // ---------- The listing ----------

  predicate ByCreation(a: Game, b: Game) {
    if a.createdAt == b.createdAt then Less(a.id, b.id) else a.createdAt < b.createdAt
  }

  lemma ByCreationIsOrder()
    ensures StrictWeakOrder(ByCreation)
  {
    forall x, y | ByCreation(x, y) ensures !ByCreation(y, x) {
      LessIrreflexive(x.id);
      if Less(x.id, y.id) && Less(y.id, x.id) {
        LessTransitive(x.id, y.id, x.id);
      }
    }
    forall x, y, z | !ByCreation(x, y) && !ByCreation(y, z) ensures !ByCreation(x, z) {
      LessTotal(x.id, y.id);
      LessTotal(y.id, z.id);
      LessIrreflexive(x.id);
      if Less(z.id, y.id) && Less(y.id, x.id) {
        LessTransitive(z.id, y.id, x.id);
      }
      if Less(x.id, z.id) && Less(z.id, x.id) {
        LessTransitive(x.id, z.id, x.id);
      }
    }
  }

  /** Every stored game once, the oldest first. */
  ghost predicate IsListing(games: Catalogue, items: seq<Game>) {
    StrictlyOrdered(ByCreation, items) && forall g :: g in items <==> g in games.Values
  }

  /** There is only one such list. */
  lemma ListingIsUnique(games: Catalogue, a: seq<Game>, b: seq<Game>)
    requires IsListing(games, a) && IsListing(games, b)
    ensures a == b
  {
    ByCreationIsOrder();
    assert Distinct(a) && Distinct(b);
    DistinctMultiset(a, b);
    StrictOrderIsUnique(ByCreation, a, b);
  }

  /** The stored games with an id outside rest, each once. */
  ghost predicate Collected(games: Catalogue, rest: set<string>, items: seq<Game>) {
    Distinct(items) && forall g :: g in items <==> g.id in games && g.id !in rest && games[g.id] == g
  }

  lemma SortsToListing(games: Catalogue, items: seq<Game>)
    requires Keyed(games) && Collected(games, {}, items)
    ensures IsListing(games, Sort(ByCreation, items))
  {
    ByCreationIsOrder();
    forall x, y | x in items && y in items && x != y ensures ByCreation(x, y) || ByCreation(y, x) {
      LessTotal(x.id, y.id);
    }
    SortIsStrict(ByCreation, items);
    forall g ensures g in Sort(ByCreation, items) <==> g in games.Values {
      assert g in multiset(Sort(ByCreation, items)) <==> g in multiset(items);
    }
  }

  // ---------- The service ----------

  class Service {
    var games: Catalogue

    constructor ()
      ensures games == map[]
    {
      games := map[];
    }

    /** The same list in whatever order the map is walked. */
    method List() returns (items: seq<Game>)
      requires Valid(games)
      ensures IsListing(games, items)
      ensures forall i, j :: 0 <= i < j < |items| ==>
                items[i].createdAt < items[j].createdAt ||
                (items[i].createdAt == items[j].createdAt && Less(items[i].id, items[j].id))
    {
      items := [];
      var rest := games.Keys;
      while rest != {}
        invariant rest <= games.Keys && Collected(games, rest, items)
        decreases |rest|
      {
        var id :| id in rest;
        DistinctAppend(items, games[id]);
        items := items + [games[id]];
        rest := rest - {id};
      }
      SortsToListing(games, items);
      items := Sort(ByCreation, items);
    }

    method Create(req: Request, newId: string, now: int) returns (r: Result<Game, Error>)
      requires Valid(games) && FreshId(games, newId)
      modifies this
      ensures Valid(games)
      ensures r == CreateResult(old(games), req, newId, now) && games == Stored(old(games), r)
      ensures games == Step(old(games), Op.Create(req, newId, now))
      ensures r.Ok? ==>
                && Says(r.value, req) && r.value.id == newId && r.value.createdAt == r.value.updatedAt == now
                && games == old(games)[newId := r.value]
                && forall id :: id in old(games) ==> old(games)[id].slug != r.value.slug
      ensures r == Err(InvalidSlug) <==> TrimSpace(req.slug) == ""
      ensures r == Err(InvalidTitle) <==> TrimSpace(req.slug) != "" && TrimSpace(req.title) == ""
      ensures r == Err(InvalidStatus) <==>
                TrimSpace(req.slug) != "" && TrimSpace(req.title) != "" &&
                ToLower(TrimSpace(req.status)) !in {"draft", "active", "archived"}
      ensures r.Err? && r.error.DuplicateSlug? ==>
                r.error.slug == ToLower(TrimSpace(req.slug)) &&
                exists id :: id in old(games) && old(games)[id].slug == r.error.slug
    {
      CreateKeeps(games, req, newId, now);
      var prepared := SanitizeUpsert(req);
      if prepared.Err? {
        return Err(prepared.error);
      }
      NoBlankId(games);
      var taken := SlugExists(prepared.value.slug, "");
      if taken {
        return Err(DuplicateSlug(prepared.value.slug));
      }
      var game := NewGame(newId, prepared.value, now);
      SanitizedSays(game, req);
      games := games[game.id := game];
      return Ok(game);
    }

    method Update(id: string, req: Request, now: int) returns (r: Result<Game, Error>)
      requires Valid(games)
      modifies this
      ensures Valid(games)
      ensures r == UpdateResult(old(games), id, req, now) && games == Stored(old(games), r)
      ensures games == Step(old(games), Op.Update(id, req, now))
      ensures r.Ok? ==>
                && id in old(games) && Says(r.value, req) && r.value.id == id && r.value.updatedAt == now
                && r.value.createdAt == old(games)[id].createdAt && games == old(games)[id := r.value]
                && forall other :: other in old(games) && other != id ==> old(games)[other].slug != r.value.slug
      ensures r == Err(InvalidId) <==> TrimSpace(id) == ""
      ensures r == Err(NotFound) ==> id !in old(games)
      ensures r.Err? && r.error.DuplicateSlug? ==>
                r.error.slug == ToLower(TrimSpace(req.slug)) &&
                exists other :: other in old(games) && other != id && old(games)[other].slug == r.error.slug
    {
      UpdateKeeps(games, id, req, now);
      if TrimSpace(id) == "" {
        return Err(InvalidId);
      }
      var prepared := SanitizeUpsert(req);
      if prepared.Err? {
        return Err(prepared.error);
      }
      if id !in games {
        return Err(NotFound);
      }
      var current := games[id];
      var taken := SlugExists(prepared.value.slug, id);
      if taken {
        return Err(DuplicateSlug(prepared.value.slug));
      }
      current := current.(slug := prepared.value.slug, title := prepared.value.title,
                          description := prepared.value.description);
      current := current.(rules := prepared.value.rules, status := prepared.value.status, updatedAt := now);
      SanitizedSays(current, req);
      games := games[id := current];
      return Ok(current);
    }

    method Delete(id: string) returns (r: Option<Error>)
      requires Valid(games)
      modifies this
      ensures Valid(games)
      ensures r == DeleteError(old(games), id) && games == Step(old(games), Op.Delete(id))
      ensures r == if TrimSpace(id) == "" then Some(InvalidId) else if id in old(games) then None else Some(NotFound)
      ensures games == if r.None? then old(games) - {id} else old(games)
    {
      if TrimSpace(id) == "" {
        return Some(InvalidId);
      }
      if id !in games {
        return Some(NotFound);
      }
      RemoveKeeps(games, id);
      games := games - {id};
      return None;
    }

    method SlugExists(slug: string, exceptId: string) returns (taken: bool)
      ensures taken == SlugTaken(games, slug, exceptId)
    {
      var rest := games.Keys;
      while rest != {}
        invariant rest <= games.Keys
        invariant forall id :: id in games && id !in rest ==> games[id].id == exceptId || games[id].slug != slug
        decreases |rest|
      {
        var id :| id in rest;
        if games[id].id != exceptId && games[id].slug == slug {
          return true;
        }
        rest := rest - {id};
      }
      return false;
    }

    static method SanitizeUpsert(req: Request) returns (r: Result<Request, Error>)
      ensures r == Sanitized(req)
    {
      var slug := ToLower(TrimSpace(req.slug));
      var title := TrimSpace(req.title);
      var description := TrimSpace(req.description);
      var status := ToLower(TrimSpace(req.status));
      var rules: seq<string> := [];
      for i := 0 to |req.rules|
        invariant rules == TrimmedRules(req.rules[..i])
      {
        assert req.rules[..i + 1][..i] == req.rules[..i];
        var trimmed := TrimSpace(req.rules[i]);
        if trimmed != "" {
          rules := rules + [trimmed];
        }
      }
      assert req.rules[..|req.rules|] == req.rules;
      if slug == "" {
        return Err(InvalidSlug);
      }
      if title == "" {
        return Err(InvalidTitle);
      }
      if !IsStatus(status) {
        return Err(InvalidStatus);
      }
      return Ok(Request(slug, title, description, rules, status));
    }
  }
}
