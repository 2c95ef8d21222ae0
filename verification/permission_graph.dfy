/**
 The permission-schema graph and its cache. The identity and permission service is a parameter that
 does not change; so are the hash of the cache key and the clock readings of each request.
 */
module PermissionGraph {
  import opened Iteration
  import opened PermissionResources
  import opened Sequences
  import opened Text
  import opened Wrappers

  datatype Access = InProgress | Ok | Denied | AccessFailed | SchemaFailed

  datatype Code =
    | MissingIdentity
    | MissingIdentityEmail
    | IdentityNotConfirmed
    | MissingTrustedIdentity
    | WrongIdentityCache
    | CorruptedCache
    | GroupResolutionFailed
    | PermissionResolutionFailed
    | NoAllowedSources
    | InvalidSourceMetadata
    | SchemaBuildFailed
    | SchemaValidationFailed

  datatype Identity = Identity(email: string, userId: string, displayName: string, authSource: Option<string>)

  datatype Trusted = Trusted(userId: string, email: string, displayName: string)

  datatype Card = Card(enabled: bool, canSearchDocuments: bool, canQueryStructuredData: bool)

  datatype Schema = Schema(
    version: string, access: Access, dataset: Option<string>, catalog: Option<string>,
    trusted: Trusted, groups: seq<string>, resources: Resources, cards: seq<Card>, generatedAt: int)

  datatype Entry = Entry(schema: Schema, expiresAt: int)

  type Cache = map<string, Entry>

  const SCHEMA_VERSION := "3.0"

  /** Microseconds. */
  const TTL := 300_000_000

  class PermissionCache {
    var entries: Cache

    constructor ()
      ensures entries == map[]
    {
      entries := map[];
    }

    method Get(key: string) returns (entry: Option<Entry>)
      ensures entry == if key in entries then Some(entries[key]) else None
    {
      entry := if key in entries then Some(entries[key]) else None;
    }

    method Store(key: string, schema: Schema, now: int)
      modifies this
      ensures entries == old(entries)[key := Entry(schema, now + TTL)]
    {
      entries := entries[key := Entry(schema, now + TTL)];
    }

    method Clear()
      modifies this
      ensures entries == map[]
    {
      entries := map[];
    }

    method LookUp(s: State, w: World) returns (found: State)
      ensures found == Lookup(s, w, entries)
    {
      if !s.access.InProgress? {
        return s;
      }
      if s.trusted.None? {
        return FailClosed(s, MissingTrustedIdentity, AccessFailed, None);
      }
      var key := BuildCacheKey(w, s, s.trusted.value);
      var entry := Get(key);
      found := s.(key := key, cached := entry);
    }

    method CacheSchema(s: State, now: int)
      modifies this
      ensures entries == Cached(s, old(entries), now)
    {
      if s.access.Ok? && s.key != "" && s.schema.Some? {
        Store(s.key, s.schema.value, now);
      }
    }

    /** One run of the graph. */
    method GetUserPermissionSchema(w: World, r: Request) returns (response: Response)
      modifies this
      ensures (response, entries) == Run(w, r, old(entries))
    {
      var s := LookUp(Identified(w, r), w);
      if s.cached.Some? {
        s := CacheValidation(s, r.checkAt);
      }
      if s.access.InProgress? {
        s := Rebuild(s, w, r.buildAt);
        CacheSchema(s, r.storeAt);
      }
      response := Emit(s);
    }
  }

  /*** Requests and the world they run in ***/

  datatype Request = Request(
    identity: Option<Identity>, dataset: Option<string>, catalog: Option<string>, version: string,
    checkAt: int, buildAt: int, storeAt: int)

  /** The service looks groups and permissions up by the lower-case email; None: it raises. */
  datatype World = World(
    confirm: Identity -> Option<Trusted>,
    groups: string -> Option<seq<string>>,
    permissions: (string, seq<string>) -> Option<seq<Permission>>,
    hash: string -> string)

  datatype State = State(
    access: Access, request: Request, requested: Option<Identity>, version: string, trusted: Option<Trusted>,
    key: string, cached: Option<Entry>, groups: seq<string>, permissions: seq<Permission>, resources: Option<Resources>,
    schema: Option<Schema>, cards: seq<Card>, errors: seq<Code>)

  datatype Response = Response(
    access: Access, trusted: Option<Trusted>, schema: Option<Schema>, cards: seq<Card>, errors: seq<Code>)

  function StartOf(r: Request): State {
    State(InProgress, r, None, "", None, "", None, [], [], None, None, [], [])
  }

  function FailClosed(s: State, code: Code, access: Access, trusted: Option<Trusted>): State {
    s.(access := access, trusted := trusted, schema := None, cards := [], errors := [code])
  }

  /*** Nodes ***/

  function Intake(s: State): State {
    if s.request.identity.None? then FailClosed(s, MissingIdentity, AccessFailed, None)
    else if s.request.identity.value.email == "" then FailClosed(s, MissingIdentityEmail, AccessFailed, None)
    else s.(requested := s.request.identity, version := if s.request.version == "" then SCHEMA_VERSION else s.request.version)
  }

  function ResolveIdentity(s: State, w: World): State {
    if !s.access.InProgress? then s
    else if s.requested.None? then FailClosed(s, IdentityNotConfirmed, AccessFailed, None)
    else
      match w.confirm(s.requested.value)
      case None => FailClosed(s, IdentityNotConfirmed, AccessFailed, None)
      case Some(trusted) => s.(trusted := Some(trusted))
  }

  function OrEmpty(s: Option<string>): string {
    if s.Some? then s.value else ""
  }

  function RawKey(email: string, dataset: string, catalog: string, version: string): string {
    email + "|" + (dataset + "|" + (catalog + "|" + version))
  }

  function BuildCacheKey(w: World, s: State, trusted: Trusted): string {
    w.hash(RawKey(Lower(trusted.email), OrEmpty(s.request.dataset), OrEmpty(s.request.catalog), s.version))
  }

  function Lookup(s: State, w: World, cache: Cache): State {
    if !s.access.InProgress? then s
    else if s.trusted.None? then FailClosed(s, MissingTrustedIdentity, AccessFailed, None)
    else
      var key := BuildCacheKey(w, s, s.trusted.value);
      s.(key := key, cached := if key in cache then Some(cache[key]) else None)
  }

  datatype Check = Valid | IdentityMismatch | Malformed

  /** The other checks of the code, on the schema's fields and cards, hold of every value of the type. */
  function CheckSchema(schema: Schema, trusted: Option<Trusted>): Check {
    if schema.version != SCHEMA_VERSION then Malformed
    else if !schema.access.Ok? then Malformed
    else if trusted.None? || schema.trusted.email != trusted.value.email then IdentityMismatch
    else Valid
  }

  function CacheValidation(s: State, now: int): State {
    if !s.access.InProgress? || s.cached.None? then s
    else if s.cached.value.expiresAt <= now then s.(cached := None)
    else
      var schema := s.cached.value.schema;
      match CheckSchema(schema, s.trusted)
      case IdentityMismatch => FailClosed(s, WrongIdentityCache, SchemaFailed, None)
      case Malformed => FailClosed(s, CorruptedCache, SchemaFailed, None)
      case Valid => s.(access := schema.access, schema := Some(schema), cards := schema.cards, errors := [])
  }

  function TrustedEmail(s: State): string {
    if s.trusted.Some? then Lower(s.trusted.value.email) else ""
  }

  function ResolveGroups(s: State, w: World): State {
    if !s.access.InProgress? then s
    else
      match w.groups(TrustedEmail(s))
      case None => FailClosed(s, GroupResolutionFailed, AccessFailed, s.trusted)
      case Some(groups) => s.(groups := groups)
  }

  function ResolvePermissions(s: State, w: World): State {
    if !s.access.InProgress? then s
    else
      match w.permissions(TrustedEmail(s), s.groups)
      case None => FailClosed(s, PermissionResolutionFailed, AccessFailed, s.trusted)
      case Some(permissions) =>
        if permissions == [] then FailClosed(s, NoAllowedSources, Denied, s.trusted)
        else s.(permissions := permissions)
  }

  function BuildMap(s: State): State {
    if !s.access.InProgress? then s
    else
      match Allowed(s.permissions)
      case None => FailClosed(s, InvalidSourceMetadata, AccessFailed, s.trusted)
      case Some(r) =>
        if r.scopes == [] then FailClosed(s, NoAllowedSources, Denied, s.trusted) else s.(resources := Some(r))
  }

  function BuildCards(r: Resources): seq<Card> {
    var any := r.scopes != [];
    [Card(any, any, any)]
  }

  function BuildSchema(s: State, now: int): State {
    if !s.access.InProgress? then s
    else if s.trusted.None? || s.resources.None? then FailClosed(s, SchemaBuildFailed, AccessFailed, s.trusted)
    else
      var cards := BuildCards(s.resources.value);
      var schema := Schema(
        SCHEMA_VERSION, Ok, s.request.dataset, s.request.catalog, s.trusted.value, s.groups, s.resources.value, cards, now);
      s.(schema := Some(schema), cards := cards)
  }

  function ValidateSchema(s: State): State {
    if !s.access.InProgress? then s
    else if s.schema.None? || !CheckSchema(s.schema.value, s.trusted).Valid? then
      FailClosed(s, SchemaValidationFailed, SchemaFailed, s.trusted)
    else s.(access := Ok)
  }

  function Cached(s: State, cache: Cache, now: int): Cache {
    if s.access.Ok? && s.key != "" && s.schema.Some? then cache[s.key := Entry(s.schema.value, now + TTL)] else cache
  }

  function Emit(s: State): Response {
    Response(
      s.access, s.trusted, if s.access.Ok? then s.schema else None, if s.access.Ok? then s.cards else [], s.errors)
  }

  /*** Edges ***/

  function Identified(w: World, r: Request): State {
    ResolveIdentity(Intake(StartOf(r)), w)
  }

  function Rebuild(s: State, w: World, now: int): State {
    Finish(ResolvePermissions(ResolveGroups(s, w), w), now)
  }

  function Finish(s: State, now: int): State {
    ValidateSchema(BuildSchema(BuildMap(s), now))
  }

  function Run(w: World, r: Request, cache: Cache): (Response, Cache) {
    var found := Lookup(Identified(w, r), w, cache);
    var s := if found.cached.Some? then CacheValidation(found, r.checkAt) else found;
    if !s.access.InProgress? then (Emit(s), cache)
    else
      var built := Rebuild(s, w, r.buildAt);
      (Emit(built), Cached(built, cache, r.storeAt))
  }

  /*** What a run amounts to ***/

  function TrustedOf(w: World, r: Request): Option<Trusted> {
    if r.identity.None? || r.identity.value.email == "" then None else w.confirm(r.identity.value)
  }

  function VersionOf(r: Request): string {
    if r.version == "" then SCHEMA_VERSION else r.version
  }

  function KeyOf(w: World, r: Request, trusted: Trusted): string {
    w.hash(RawKey(Lower(trusted.email), OrEmpty(r.dataset), OrEmpty(r.catalog), VersionOf(r)))
  }

  /** What the service grants to an email, apart from any cache. */
  datatype Granted = Refused(access: Access, code: Code) | Granted(groups: seq<string>, resources: Resources)

  function GrantedTo(w: World, email: string): Granted {
    match w.groups(Lower(email))
    case None => Refused(AccessFailed, GroupResolutionFailed)
    case Some(groups) =>
      match w.permissions(Lower(email), groups)
      case None => Refused(AccessFailed, PermissionResolutionFailed)
      case Some(permissions) =>
        if permissions == [] then Refused(Denied, NoAllowedSources)
        else
          match Allowed(permissions)
          case None => Refused(AccessFailed, InvalidSourceMetadata)
          case Some(resources) => Granted(groups, resources)
  }

  function SchemaFor(r: Request, trusted: Trusted, g: Granted): Schema
    requires g.Granted?
  {
    Schema(
      SCHEMA_VERSION, Ok, r.dataset, r.catalog, trusted, g.groups, g.resources, [Card(true, true, true)], r.buildAt)
  }

  function Built(r: Request, trusted: Trusted, g: Granted): Response {
    match g
    case Refused(access, code) => Response(access, Some(trusted), None, [], [code])
    case Granted(_, _) =>
      var schema := SchemaFor(r, trusted, g);
      Response(Ok, Some(trusted), Some(schema), schema.cards, [])
  }

  /** A live entry: found under the request's key and not expired when the request looks. */
  predicate Live(w: World, r: Request, cache: Cache) {
    && TrustedOf(w, r).Some?
    && KeyOf(w, r, TrustedOf(w, r).value) in cache
    && cache[KeyOf(w, r, TrustedOf(w, r).value)].expiresAt > r.checkAt
  }

  function LiveSchema(w: World, r: Request, cache: Cache): Schema
    requires Live(w, r, cache)
  {
    cache[KeyOf(w, r, TrustedOf(w, r).value)].schema
  }

  function Fresh(w: World, r: Request): Response {
    Run(w, r, map[]).0
  }

  lemma FinishIs(s: State, now: int, trusted: Trusted)
    requires s.access.InProgress? && s.trusted == Some(trusted) && s.request.buildAt == now && s.errors == []
    requires s.permissions != []
    ensures var built, allowed := Finish(s, now), Allowed(s.permissions);
      && Emit(built) == Built(s.request, trusted,
          if allowed.Some? then Granted(s.groups, allowed.value) else Refused(AccessFailed, InvalidSourceMetadata))
      && built.key == s.key
      && (built.access.Ok? ==> built.schema.Some?)
  {
    if Allowed(s.permissions).Some? {
      ResourcesAreExact(s.permissions, Allowed(s.permissions).value);
    }
  }

  lemma RefusedStays(s: State, now: int)
    requires !s.access.InProgress?
    ensures Finish(s, now) == s
  {
  }

  lemma RebuildIs(s: State, w: World, now: int, trusted: Trusted)
    requires s.access.InProgress? && s.trusted == Some(trusted) && s.request.buildAt == now && s.errors == []
    ensures var built := Rebuild(s, w, now);
      && Emit(built) == Built(s.request, trusted, GrantedTo(w, trusted.email))
      && built.key == s.key
      && (built.access.Ok? ==> built.schema.Some?)
  {
    var resolved := ResolvePermissions(ResolveGroups(s, w), w);
    if resolved.access.InProgress? {
      FinishIs(resolved, now, trusted);
    } else {
      RefusedStays(resolved, now);
    }
  }

  /** Requests without a confirmed identity fail closed and leave the cache alone. */
  lemma UnconfirmedFails(w: World, r: Request, cache: Cache)
    requires TrustedOf(w, r).None?
    ensures Run(w, r, cache) == (Fresh(w, r), cache)
    ensures var f := Fresh(w, r); f.access.AccessFailed? && f.schema.None? && f.cards == []
  {
  }

  /** The cache after a fresh build. */
  function Remembered(w: World, r: Request, trusted: Trusted, cache: Cache): Cache {
    var g := GrantedTo(w, trusted.email);
    if g.Granted? && KeyOf(w, r, trusted) != ""
    then cache[KeyOf(w, r, trusted) := Entry(SchemaFor(r, trusted, g), r.storeAt + TTL)]
    else cache
  }

  /** The state in which a confirmed request is built afresh. */
  function BeforeRebuild(w: World, r: Request, trusted: Trusted): State {
    State(
      InProgress, r, r.identity, VersionOf(r), Some(trusted), KeyOf(w, r, trusted), None, [], [], None, None, [], [])
  }

  lemma ReachesRebuild(w: World, r: Request, cache: Cache, trusted: Trusted)
    requires TrustedOf(w, r) == Some(trusted) && !Live(w, r, cache)
    ensures var built := Rebuild(BeforeRebuild(w, r, trusted), w, r.buildAt);
      Run(w, r, cache) == (Emit(built), Cached(built, cache, r.storeAt))
  {
    var found := Lookup(Identified(w, r), w, cache);
    var s := if found.cached.Some? then CacheValidation(found, r.checkAt) else found;
    assert s == BeforeRebuild(w, r, trusted);
  }

  lemma StoresTheBuilt(w: World, r: Request, cache: Cache, trusted: Trusted, built: State)
    requires Emit(built) == Built(r, trusted, GrantedTo(w, trusted.email)) && built.key == KeyOf(w, r, trusted)
    requires built.access.Ok? ==> built.schema.Some?
    ensures Cached(built, cache, r.storeAt) == Remembered(w, r, trusted, cache)
  {
  }

  lemma RunWithoutLiveEntry(w: World, r: Request, cache: Cache, trusted: Trusted)
    requires TrustedOf(w, r) == Some(trusted) && !Live(w, r, cache)
    ensures Run(w, r, cache) == (Built(r, trusted, GrantedTo(w, trusted.email)), Remembered(w, r, trusted, cache))
  {
    var s := BeforeRebuild(w, r, trusted);
    ReachesRebuild(w, r, cache, trusted);
    RebuildIs(s, w, r.buildAt, trusted);
    StoresTheBuilt(w, r, cache, trusted, Rebuild(s, w, r.buildAt));
  }

  /** Otherwise a live entry decides; without one the run is a fresh build, which is then stored. */
  lemma RunIs(w: World, r: Request, cache: Cache, trusted: Trusted)
    requires TrustedOf(w, r) == Some(trusted)
    ensures Fresh(w, r) == Built(r, trusted, GrantedTo(w, trusted.email))
    ensures !Live(w, r, cache) ==> Run(w, r, cache) == (Fresh(w, r), Remembered(w, r, trusted, cache))
  {
    RunWithoutLiveEntry(w, r, map[], trusted);
    if !Live(w, r, cache) {
      RunWithoutLiveEntry(w, r, cache, trusted);
    }
  }

  lemma LiveRun(w: World, r: Request, cache: Cache)
    requires Live(w, r, cache)
    requires WellFormed(LiveSchema(w, r, cache))
    ensures var schema := LiveSchema(w, r, cache);
      Run(w, r, cache) ==
        (if schema.trusted.email == TrustedOf(w, r).value.email
         then Response(Ok, TrustedOf(w, r), Some(schema), schema.cards, [])
         else Response(SchemaFailed, None, None, [], [WrongIdentityCache]), cache)
  {
  }

  /** Who is not confirmed, and the code for it. */
  lemma UnconfirmedExactly(w: World, r: Request)
    ensures var f := Fresh(w, r);
      if r.identity.None? then f == Response(AccessFailed, None, None, [], [MissingIdentity])
      else if r.identity.value.email == "" then f == Response(AccessFailed, None, None, [], [MissingIdentityEmail])
      else if w.confirm(r.identity.value).None? then f == Response(AccessFailed, None, None, [], [IdentityNotConfirmed])
      else f.trusted == w.confirm(r.identity.value)
  {
    if TrustedOf(w, r).Some? {
      RunIs(w, r, map[], TrustedOf(w, r).value);
    }
  }

  /** What a fresh build answers to a confirmed identity, from the service's answers alone. */
  lemma FreshInFull(w: World, r: Request, trusted: Trusted)
    requires r.identity.Some? && r.identity.value.email != "" && w.confirm(r.identity.value) == Some(trusted)
    ensures var f, email := Fresh(w, r), Lower(trusted.email);
      if w.groups(email).None? then f == Response(AccessFailed, Some(trusted), None, [], [GroupResolutionFailed])
      else
        var groups := w.groups(email).value;
        if w.permissions(email, groups).None? then
          f == Response(AccessFailed, Some(trusted), None, [], [PermissionResolutionFailed])
        else
          var permissions := w.permissions(email, groups).value;
          if permissions == [] then f == Response(Denied, Some(trusted), None, [], [NoAllowedSources])
          else if exists p | p in permissions :: p.scope == None || !Visible(p.scope.value) then
            f == Response(AccessFailed, Some(trusted), None, [], [InvalidSourceMetadata])
          else
            var cards := [Card(true, true, true)];
            Allowed(permissions).Some?
            && f == Response(
              Ok, Some(trusted),
              Some(Schema("3.0", Ok, r.dataset, r.catalog, trusted, groups, Allowed(permissions).value, cards, r.buildAt)),
              cards, [])
  {
    RunIs(w, r, map[], trusted);
    if w.groups(Lower(trusted.email)).Some? {
      var groups := w.groups(Lower(trusted.email)).value;
      if w.permissions(Lower(trusted.email), groups).Some? {
        ScopesAreRequired(w.permissions(Lower(trusted.email), groups).value);
      }
    }
  }

  /*** Request sequences ***/

  function Serving(w: World): (Request, Cache) -> Cache {
    (r: Request, cache: Cache) => Run(w, r, cache).1
  }

  function CacheAfter(w: World, rs: seq<Request>, n: nat): Cache
    requires n <= |rs|
  {
    Fold(Serving(w), rs, map[], n)
  }

  function Answer(w: World, rs: seq<Request>, i: nat): Response
    requires i < |rs|
  {
    Run(w, rs[i], CacheAfter(w, rs, i)).0
  }

  /** A request whose fresh build an entry was stored from. */
  ghost predicate StoredBy(w: World, r: Request, key: string, entry: Entry) {
    && TrustedOf(w, r).Some?
    && var trusted := TrustedOf(w, r).value;
    && GrantedTo(w, trusted.email).Granted?
    && key == KeyOf(w, r, trusted)
    && entry == Entry(SchemaFor(r, trusted, GrantedTo(w, trusted.email)), r.storeAt + TTL)
  }

  ghost predicate WellFormed(schema: Schema) {
    schema.version == SCHEMA_VERSION && schema.access.Ok?
  }

  /** A run leaves an entry alone or stores one that it has built. */
  lemma EntriesNext(w: World, r: Request, before: Cache, key: string)
    requires key in Run(w, r, before).1
    requires Live(w, r, before) ==> WellFormed(LiveSchema(w, r, before))
    ensures var after := Run(w, r, before).1;
      (key in before && after[key] == before[key]) || StoredBy(w, r, key, after[key])
  {
    if TrustedOf(w, r).None? {
      UnconfirmedFails(w, r, before);
    } else if Live(w, r, before) {
      LiveRun(w, r, before);
    } else {
      RunWithoutLiveEntry(w, r, before, TrustedOf(w, r).value);
    }
  }

  lemma StoredIsWellFormed(w: World, r: Request, key: string, entry: Entry)
    requires StoredBy(w, r, key, entry)
    ensures WellFormed(entry.schema)
  {
  }

  ghost predicate BuiltEarlier(w: World, rs: seq<Request>, n: nat, key: string, entry: Entry) {
    exists j: nat :: j < n && j < |rs| && StoredBy(w, rs[j], key, entry)
  }

  /** Every entry was built for its own key by one of the first n requests. */
  ghost predicate AllBuilt(w: World, rs: seq<Request>, n: nat, cache: Cache) {
    forall key | key in cache :: BuiltEarlier(w, rs, n, key, cache[key])
  }

  lemma LiveIsWellFormed(w: World, rs: seq<Request>, n: nat, r: Request, cache: Cache)
    requires AllBuilt(w, rs, n, cache) && Live(w, r, cache)
    ensures WellFormed(LiveSchema(w, r, cache))
  {
    var key := KeyOf(w, r, TrustedOf(w, r).value);
    var j: nat :| j < n && j < |rs| && StoredBy(w, rs[j], key, cache[key]);
    StoredIsWellFormed(w, rs[j], key, cache[key]);
  }

  lemma AllBuiltNext(w: World, rs: seq<Request>, n: nat, before: Cache)
    requires n < |rs| && AllBuilt(w, rs, n, before)
    ensures AllBuilt(w, rs, n + 1, Run(w, rs[n], before).1)
  {
    var after := Run(w, rs[n], before).1;
    if Live(w, rs[n], before) {
      LiveIsWellFormed(w, rs, n, rs[n], before);
    }
    forall key | key in after
      ensures BuiltEarlier(w, rs, n + 1, key, after[key])
    {
      EntriesNext(w, rs[n], before, key);
      if key in before && after[key] == before[key] {
        assert BuiltEarlier(w, rs, n, key, before[key]);
      }
    }
  }

  lemma EntriesAreBuilt(w: World, rs: seq<Request>, n: nat)
    requires n <= |rs|
    ensures AllBuilt(w, rs, n, CacheAfter(w, rs, n))
  {
    var serving := Serving(w);
    forall i: nat, cache | i < |rs| && AllBuilt(w, rs, i, cache)
      ensures AllBuilt(w, rs, i + 1, serving(rs[i], cache))
    {
      AllBuiltNext(w, rs, i, cache);
    }
    FoldKeeps(serving, rs, map[], (i: nat, cache: Cache) => AllBuilt(w, rs, i, cache), n);
  }

  predicate PipeFree(s: string) {
    '|' !in s
  }

  lemma CutAtPipe(a: string, x: string, b: string, y: string)
    requires PipeFree(a) && PipeFree(b) && a + "|" + x == b + "|" + y
    ensures a == b && x == y
  {
    var s, t := a + "|" + x, b + "|" + y;
    assert s[|a|] == '|' && t[|b|] == '|';
    assert forall i | 0 <= i < |a| :: s[i] == a[i];
    assert forall i | 0 <= i < |b| :: t[i] == b[i];
    assert a == s[..|a|] && b == t[..|b|];
    assert x == s[|a| + 1..] && y == t[|b| + 1..];
  }

  lemma RawKeyParts(e: string, d: string, c: string, v: string, e': string, d': string, c': string, v': string)
    requires PipeFree(e) && PipeFree(d) && PipeFree(c) && PipeFree(e') && PipeFree(d') && PipeFree(c')
    requires RawKey(e, d, c, v) == RawKey(e', d', c', v')
    ensures e == e' && d == d' && c == c' && v == v'
  {
    CutAtPipe(e, d + "|" + (c + "|" + v), e', d' + "|" + (c' + "|" + v'));
    CutAtPipe(d, c + "|" + v, d', c' + "|" + v');
    CutAtPipe(c, v, c', v');
  }

  ghost predicate CollisionFree(w: World) {
    forall a, b | w.hash(a) == w.hash(b) :: a == b
  }

  /** The identifiers that enter the cache key hold no separator. */
  ghost predicate Plain(w: World, r: Request) {
    && PipeFree(OrEmpty(r.dataset)) && PipeFree(OrEmpty(r.catalog))
    && (TrustedOf(w, r).Some? ==> PipeFree(Lower(TrustedOf(w, r).value.email)))
  }

  lemma SameKeySameRequest(w: World, r: Request, q: Request)
    requires CollisionFree(w) && Plain(w, r) && Plain(w, q)
    requires TrustedOf(w, r).Some? && TrustedOf(w, q).Some?
    requires KeyOf(w, r, TrustedOf(w, r).value) == KeyOf(w, q, TrustedOf(w, q).value)
    ensures Lower(TrustedOf(w, r).value.email) == Lower(TrustedOf(w, q).value.email)
    ensures OrEmpty(r.dataset) == OrEmpty(q.dataset) && OrEmpty(r.catalog) == OrEmpty(q.catalog)
    ensures VersionOf(r) == VersionOf(q)
  {
    RawKeyParts(
      Lower(TrustedOf(w, r).value.email), OrEmpty(r.dataset), OrEmpty(r.catalog), VersionOf(r),
      Lower(TrustedOf(w, q).value.email), OrEmpty(q.dataset), OrEmpty(q.catalog), VersionOf(q));
  }

  /** An answer that says what a fresh build would say. */
  ghost predicate Agrees(w: World, r: Request, a: Response) {
    var f := Fresh(w, r);
    && f.access.Ok? && f.schema.Some? && f.trusted.Some? && a.schema.Some?
    && var schema, rebuilt := a.schema.value, f.schema.value;
    && a.trusted == f.trusted && a.errors == f.errors
    && a.cards == f.cards == schema.cards == rebuilt.cards
    && schema.trusted.email == f.trusted.value.email == rebuilt.trusted.email
    && schema.groups == rebuilt.groups && schema.resources == rebuilt.resources
    && OrEmpty(schema.dataset) == OrEmpty(r.dataset) && OrEmpty(schema.catalog) == OrEmpty(r.catalog)
  }

  /** The schema was built by an earlier request and stored less than 300 seconds before it is used. */
  ghost predicate StoredRecently(w: World, rs: seq<Request>, i: nat, schema: Schema)
    requires i < |rs|
  {
    exists j, key, entry ::
      && 0 <= j < i && StoredBy(w, rs[j], key, entry)
      && entry.schema == schema && rs[i].checkAt < rs[j].storeAt + 300_000_000
  }

  /** A live entry that was built for another email. */
  predicate OtherEmail(w: World, r: Request, cache: Cache) {
    Live(w, r, cache) && LiveSchema(w, r, cache).trusted.email != TrustedOf(w, r).value.email
  }

  /** A schema for the dataset and version that the request names, up to a missing and an empty name. */
  predicate SameIdentifiers(schema: Schema, r: Request) {
    OrEmpty(schema.dataset) == OrEmpty(r.dataset) && OrEmpty(schema.catalog) == OrEmpty(r.catalog)
  }

  /** The live entry for r was built from q. */
  ghost predicate BuiltFor(w: World, r: Request, q: Request, cache: Cache) {
    && Live(w, r, cache)
    && StoredBy(w, q, KeyOf(w, r, TrustedOf(w, r).value), cache[KeyOf(w, r, TrustedOf(w, r).value)])
  }

  /** The request that a live entry was built from. */
  lemma LiveOrigin(w: World, rs: seq<Request>, i: nat) returns (j: nat)
    requires i < |rs| && Live(w, rs[i], CacheAfter(w, rs, i))
    ensures j < i && BuiltFor(w, rs[i], rs[j], CacheAfter(w, rs, i))
  {
    var r, cache := rs[i], CacheAfter(w, rs, i);
    var key := KeyOf(w, r, TrustedOf(w, r).value);
    EntriesAreBuilt(w, rs, i);
    assert BuiltEarlier(w, rs, i, key, cache[key]);
    j :| 0 <= j < i && StoredBy(w, rs[j], key, cache[key]);
  }

  /** What is known of the live entry, from the request it was built from. */
  lemma LiveFacts(w: World, r: Request, q: Request, cache: Cache)
    requires BuiltFor(w, r, q, cache)
    ensures var schema := LiveSchema(w, r, cache);
      && TrustedOf(w, q) == Some(schema.trusted)
      && schema == SchemaFor(q, schema.trusted, GrantedTo(w, schema.trusted.email))
      && GrantedTo(w, schema.trusted.email).Granted?
      && WellFormed(schema)
      && schema.dataset == q.dataset && schema.catalog == q.catalog
  {
  }

  /** A live entry is served exactly to its own email, and agrees exactly if it names the same things. */
  lemma LiveAnswer(w: World, r: Request, q: Request, cache: Cache)
    requires BuiltFor(w, r, q, cache)
    ensures var a := Run(w, r, cache).0;
      if OtherEmail(w, r, cache)
      then a == Response(SchemaFailed, None, None, [], [WrongIdentityCache])
      else
        && a.access.Ok? && a.schema == Some(LiveSchema(w, r, cache)) && Fresh(w, r).access.Ok?
        && (Agrees(w, r, a) <==> SameIdentifiers(LiveSchema(w, r, cache), r))
  {
    LiveFacts(w, r, q, cache);
    LiveRun(w, r, cache);
    RunIs(w, r, map[], TrustedOf(w, r).value);
  }

  /** A fresh build agrees with itself. */
  lemma FreshAgrees(w: World, r: Request, trusted: Trusted)
    requires TrustedOf(w, r) == Some(trusted)
    ensures Fresh(w, r).access.Ok? ==> Agrees(w, r, Fresh(w, r))
    ensures !Fresh(w, r).access.Ok? ==> Fresh(w, r).schema.None? && Fresh(w, r).cards == []
  {
    RunIs(w, r, map[], trusted);
  }

  /**
   In every sequence of requests, without any assumption on names or hash: an answer without
   access carries nothing; access is refused exactly if a fresh build refuses it or a live entry
   was built for another email; and an answer with access agrees with a fresh build exactly if it
   is one, or if the live entry names the dataset and version that were asked for.
   */
  lemma CacheAnswersExactly(w: World, rs: seq<Request>, i: nat)
    requires i < |rs|
    ensures var r, cache, a := rs[i], CacheAfter(w, rs, i), Answer(w, rs, i);
      && (a.access.Ok? <==> Fresh(w, r).access.Ok? && !OtherEmail(w, r, cache))
      && (a.access.Ok? ==> (Agrees(w, r, a) <==> !Live(w, r, cache) || SameIdentifiers(LiveSchema(w, r, cache), r)))
      && (!a.access.Ok? ==> a.schema.None? && a.cards == [])
      && (if Live(w, r, cache)
          then StoredRecently(w, rs, i, LiveSchema(w, r, cache))
          else a == Fresh(w, r))
  {
    var r, cache := rs[i], CacheAfter(w, rs, i);
    if TrustedOf(w, r).None? {
      UnconfirmedFails(w, r, cache);
    } else if Live(w, r, cache) {
      var j := LiveOrigin(w, rs, i);
      LiveAnswer(w, r, rs[j], cache);
      var key := KeyOf(w, r, TrustedOf(w, r).value);
      assert StoredBy(w, rs[j], key, cache[key]);
    } else {
      RunIs(w, r, cache, TrustedOf(w, r).value);
      FreshAgrees(w, r, TrustedOf(w, r).value);
    }
  }

  /** The parts that are joined and hashed. */
  lemma KeyInFull(w: World, r: Request, trusted: Trusted)
    ensures KeyOf(w, r, trusted) == w.hash(
      Lower(trusted.email) + "|" + ((if r.dataset.Some? then r.dataset.value else "") + "|" +
        ((if r.catalog.Some? then r.catalog.value else "") + "|" + if r.version == "" then "3.0" else r.version)))
  {
  }

  /** With a collision-free hash two requests share a key exactly if their joined identifiers are equal. */
  lemma KeysAreSharedExactly(w: World, r: Request, q: Request, trusted: Trusted, other: Trusted)
    requires CollisionFree(w)
    ensures KeyOf(w, r, trusted) == KeyOf(w, q, other) <==>
      RawKey(Lower(trusted.email), OrEmpty(r.dataset), OrEmpty(r.catalog), VersionOf(r))
        == RawKey(Lower(other.email), OrEmpty(q.dataset), OrEmpty(q.catalog), VersionOf(q))
  {
    var a := RawKey(Lower(trusted.email), OrEmpty(r.dataset), OrEmpty(r.catalog), VersionOf(r));
    var b := RawKey(Lower(other.email), OrEmpty(q.dataset), OrEmpty(q.catalog), VersionOf(q));
    assert w.hash(a) == w.hash(b) ==> a == b;
  }

  /** What a fresh build stores is found under its key for 300 seconds from its storing, and no longer. */
  lemma EntriesLiveFor300Seconds(w: World, first: Request, second: Request, cache: Cache, trusted: Trusted, other: Trusted)
    requires TrustedOf(w, first) == Some(trusted) && TrustedOf(w, second) == Some(other)
    requires KeyOf(w, first, trusted) == KeyOf(w, second, other) != ""
    requires !Live(w, first, cache) && Fresh(w, first).access.Ok?
    ensures var after := Run(w, first, cache).1;
      && (Live(w, second, after) <==> second.checkAt < first.storeAt + 300_000_000)
      && (Live(w, second, after) ==> Fresh(w, first).schema == Some(LiveSchema(w, second, after)))
  {
    RunIs(w, first, cache, trusted);
  }

  lemma LiveNamesTheSame(w: World, rs: seq<Request>, i: nat)
    requires i < |rs| && CollisionFree(w) && forall r | r in rs :: Plain(w, r)
    requires Live(w, rs[i], CacheAfter(w, rs, i))
    ensures var schema := LiveSchema(w, rs[i], CacheAfter(w, rs, i));
      && SameIdentifiers(schema, rs[i])
      && Lower(schema.trusted.email) == Lower(TrustedOf(w, rs[i]).value.email)
      && exists j :: 0 <= j < i && TrustedOf(w, rs[j]) == Some(schema.trusted)
  {
    var j := LiveOrigin(w, rs, i);
    LiveFacts(w, rs[i], rs[j], CacheAfter(w, rs, i));
    SameKeySameRequest(w, rs[i], rs[j]);
  }

  /**
   With identifiers free of separators and a collision-free hash every answer with access agrees
   with a fresh build, and access is refused exactly if a fresh build refuses it or a live entry
   was built for another spelling of the same email.
   */
  lemma CacheAgreesWithFreshBuild(w: World, rs: seq<Request>, i: nat)
    requires i < |rs| && CollisionFree(w) && forall r | r in rs :: Plain(w, r)
    ensures var r, cache, a := rs[i], CacheAfter(w, rs, i), Answer(w, rs, i);
      && (a.access.Ok? <==> Fresh(w, r).access.Ok? && !OtherEmail(w, r, cache))
      && (a.access.Ok? ==> Agrees(w, r, a))
      && (!a.access.Ok? ==> a.schema.None? && a.cards == [])
      && (if Live(w, r, cache)
          then
            && StoredRecently(w, rs, i, LiveSchema(w, r, cache))
            && Lower(LiveSchema(w, r, cache).trusted.email) == Lower(TrustedOf(w, r).value.email)
          else a == Fresh(w, r))
  {
    CacheAnswersExactly(w, rs, i);
    if Live(w, rs[i], CacheAfter(w, rs, i)) {
      LiveNamesTheSame(w, rs, i);
    }
  }

  /** The service confirms lower-case emails only. */
  ghost predicate LowerCaseEmails(w: World) {
    forall id | w.confirm(id).Some? :: Lower(w.confirm(id).value.email) == w.confirm(id).value.email
  }

  lemma ConfirmedIsLowerCase(w: World, r: Request)
    requires LowerCaseEmails(w) && TrustedOf(w, r).Some?
    ensures Lower(TrustedOf(w, r).value.email) == TrustedOf(w, r).value.email
  {
    var id := r.identity.value;
    assert TrustedOf(w, r) == w.confirm(id);
    assert Lower(w.confirm(id).value.email) == w.confirm(id).value.email;
  }

  lemma OneSpelling(w: World, r: Request, q: Request)
    requires LowerCaseEmails(w) && TrustedOf(w, r).Some? && TrustedOf(w, q).Some?
    requires Lower(TrustedOf(w, r).value.email) == Lower(TrustedOf(w, q).value.email)
    ensures TrustedOf(w, r).value.email == TrustedOf(w, q).value.email
  {
    ConfirmedIsLowerCase(w, r);
    ConfirmedIsLowerCase(w, q);
  }

  lemma NoOtherEmail(w: World, rs: seq<Request>, i: nat)
    requires i < |rs| && CollisionFree(w) && forall r | r in rs :: Plain(w, r)
    requires LowerCaseEmails(w)
    ensures !OtherEmail(w, rs[i], CacheAfter(w, rs, i))
  {
    if Live(w, rs[i], CacheAfter(w, rs, i)) {
      LiveNamesTheSame(w, rs, i);
      var schema := LiveSchema(w, rs[i], CacheAfter(w, rs, i));
      var j :| 0 <= j < i && TrustedOf(w, rs[j]) == Some(schema.trusted);
      OneSpelling(w, rs[j], rs[i]);
    }
  }

  /** Such a service never runs into another spelling. */
  lemma LowerCaseEmailsAlwaysAgree(w: World, rs: seq<Request>, i: nat)
    requires i < |rs| && CollisionFree(w) && forall r | r in rs :: Plain(w, r)
    requires LowerCaseEmails(w)
    ensures Answer(w, rs, i).access.Ok? <==> Fresh(w, rs[i]).access.Ok?
    ensures !Answer(w, rs, i).access.Ok? ==> Answer(w, rs, i) == Fresh(w, rs[i])
  {
    NoOtherEmail(w, rs, i);
    CacheAnswersExactly(w, rs, i);
    LiveIsGranted(w, rs, i);
  }

  lemma LiveIsGranted(w: World, rs: seq<Request>, i: nat)
    requires i < |rs|
    ensures Live(w, rs[i], CacheAfter(w, rs, i)) && !OtherEmail(w, rs[i], CacheAfter(w, rs, i)) ==>
      Answer(w, rs, i).access.Ok?
  {
    if Live(w, rs[i], CacheAfter(w, rs, i)) {
      var j := LiveOrigin(w, rs, i);
      LiveAnswer(w, rs[i], rs[j], CacheAfter(w, rs, i));
    }
  }

  /*** The demo service ***/

  datatype Record = Record(userId: string, email: string, displayName: string, groups: seq<string>, scopes: seq<string>)

  type Records = map<string, Record>

  function Confirm(records: Records, id: Identity): Option<Trusted> {
    var email := Lower(Strip(id.email));
    if email == "" || email !in records then None
    else if id.authSource.Some? && id.authSource.value != "openwebui" then None
    else Some(Trusted(records[email].userId, records[email].email, records[email].displayName))
  }

  function ScopePermission(): string -> Permission {
    (s: string) => Permission(Some(s), "scope:" + s, "catalog:" + s, s, "structured:" + s, "join:" + s)
  }

  function DemoService(records: Records, hash: string -> string): World {
    World(
      (id: Identity) => Confirm(records, id),
      (email: string) => if email in records then Some(records[email].groups) else None,
      (email: string, groups: seq<string>) =>
        if email !in records then None
        else if groups == [] then Some([])
        else Some(Map(records[email].scopes, ScopePermission())),
      hash)
  }

  /** With records kept under their own email the demo service confirms lower-case emails only. */
  lemma DemoServiceAlwaysAgrees(records: Records, hash: string -> string, rs: seq<Request>, i: nat)
    requires forall email | email in records :: records[email].email == email
    requires var w := DemoService(records, hash); i < |rs| && CollisionFree(w) && forall r | r in rs :: Plain(w, r)
    ensures var w := DemoService(records, hash);
      Answer(w, rs, i).access.Ok? <==> Fresh(w, rs[i]).access.Ok?
  {
    var w := DemoService(records, hash);
    forall id | w.confirm(id).Some?
      ensures Lower(w.confirm(id).value.email) == w.confirm(id).value.email
    {
      assert Lower(Lower(Strip(id.email))) == Lower(Strip(id.email));
    }
    LowerCaseEmailsAlwaysAgree(w, rs, i);
  }

  lemma DemoPermissions(scopes: seq<string>)
    ensures (exists p | p in Map(scopes, ScopePermission()) :: p.scope == None || !Visible(p.scope.value))
      <==> exists s | s in scopes :: !Visible(s)
  {
    var permissions := Map(scopes, ScopePermission());
    if p :| p in permissions && (p.scope == None || !Visible(p.scope.value)) {
      var i :| 0 <= i < |scopes| && permissions[i] == p;
      assert scopes[i] in scopes;
    }
    if s :| s in scopes && !Visible(s) {
      var i :| 0 <= i < |scopes| && scopes[i] == s;
      assert permissions[i] in permissions;
    }
  }

  /** Whom the demo service grants access. */
  lemma DemoAccessExactly(records: Records, hash: string -> string, r: Request)
    requires forall email | email in records :: records[email].email == email
    ensures Fresh(DemoService(records, hash), r).access.Ok? <==>
      && r.identity.Some?
      && (r.identity.value.authSource.Some? ==> r.identity.value.authSource.value == "openwebui")
      && var email := Lower(Strip(r.identity.value.email));
      && email != "" && email in records
      && records[email].groups != [] && records[email].scopes != []
      && forall s | s in records[email].scopes :: Visible(s)
  {
    var w := DemoService(records, hash);
    UnconfirmedExactly(w, r);
    if r.identity.Some? && r.identity.value.email != "" && w.confirm(r.identity.value).Some? {
      var email := Lower(Strip(r.identity.value.email));
      assert Lower(email) == email;
      FreshInFull(w, r, w.confirm(r.identity.value).value);
      DemoPermissions(records[email].scopes);
    }
  }

  /*** Why separators matter ***/

  /** Moving a separator from one identifier to the next gives the same key. */
  lemma SeparatorsCollide(e: string, d: string, x: string, c: string, v: string)
    ensures RawKey(e, d + "|" + x, c, v) == RawKey(e, d, x + "|" + c, v)
  {
    var rest := c + "|" + v;
    assert (d + "|" + x) + "|" + rest == d + "|" + (x + "|" + rest);
    assert x + "|" + rest == (x + "|" + c) + "|" + v;
  }

  /** With separators in the identifiers the second request is given the first one's dataset. */
  lemma SeparatorsServeTheWrongDataset(
    w: World, id: Identity, d: string, x: string, c: string, t: int)
    requires id.email != "" && w.confirm(id).Some? && GrantedTo(w, w.confirm(id).value.email).Granted?
    requires forall s :: w.hash(s) != ""
    ensures var rs := [Request(Some(id), Some(d + "|" + x), Some(c), "", t, t, t),
                       Request(Some(id), Some(d), Some(x + "|" + c), "", t, t, t)];
      var a := Answer(w, rs, 1);
      a.access.Ok? && a.schema.Some? && a.schema.value.dataset == Some(d + "|" + x) != rs[1].dataset
  {
    var trusted := w.confirm(id).value;
    var first := Request(Some(id), Some(d + "|" + x), Some(c), "", t, t, t);
    var second := Request(Some(id), Some(d), Some(x + "|" + c), "", t, t, t);
    var rs := [first, second];
    SeparatorsCollide(Lower(trusted.email), d, x, c, SCHEMA_VERSION);
    assert KeyOf(w, first, trusted) == KeyOf(w, second, trusted);
    assert CacheAfter(w, rs, 0) == map[];
    RunIs(w, first, map[], trusted);
    assert CacheAfter(w, rs, 1) == Run(w, first, map[]).1;
    LiveRun(w, second, CacheAfter(w, rs, 1));
    assert |d + "|" + x| > |d|;
  }

  /** One user, two spellings: the second request is refused although a fresh build would grant it. */
  lemma OtherSpellingIsRefused(
    w: World, one: Identity, two: Identity, d: Option<string>, c: Option<string>, t: int)
    requires one.email != "" && w.confirm(one).Some? && two.email != "" && w.confirm(two).Some?
    requires w.confirm(one).value.email != w.confirm(two).value.email
    requires Lower(w.confirm(one).value.email) == Lower(w.confirm(two).value.email)
    requires GrantedTo(w, w.confirm(one).value.email).Granted? && forall s :: w.hash(s) != ""
    ensures var rs := [Request(Some(one), d, c, "", t, t, t), Request(Some(two), d, c, "", t, t, t)];
      && Answer(w, rs, 1) == Response(SchemaFailed, None, None, [], [WrongIdentityCache])
      && Fresh(w, rs[1]).access.Ok?
  {
    var first, second := Request(Some(one), d, c, "", t, t, t), Request(Some(two), d, c, "", t, t, t);
    var rs := [first, second];
    RunIs(w, first, map[], w.confirm(one).value);
    assert CacheAfter(w, rs, 0) == map[];
    assert CacheAfter(w, rs, 1) == Run(w, first, map[]).1;
    LiveRun(w, second, CacheAfter(w, rs, 1));
    RunIs(w, second, map[], w.confirm(two).value);
  }
}
