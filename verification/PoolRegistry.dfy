/**
 The registry of database pools: `get_database_pool` in backend/src/database/pool.rs, under
 any number of concurrent callers. The fingerprint of a URL is a parameter, assumed injective.
 */
module PoolRegistry {
  import opened Wrappers

  type ConnectionId = nat

  datatype SourceType = Postgresql | Supabase | Sqlite | OtherSource

  datatype Engine = PostgresEngine | SqliteEngine

  datatype Credentials = Credentials(
    username: Option<string>, password: Option<string>, host: Option<string>, port: Option<string>, database: string)

  /** A connection row; a source type that does not parse is none. */
  datatype Connection = Connection(id: ConnectionId, sourceType: Option<SourceType>, credentials: Credentials)

  datatype Pool = Pool(serial: nat, engine: Engine, url: string)

  datatype PoolKey = PoolKey(connectionId: ConnectionId, fingerprint: string)

  datatype PoolError = SourceTypeParse | UnsupportedSourceType | ConnectFailed

  const POSTGRES_SCHEME := "postgres://"
  const SQLITE_SCHEME := "sqlite:///"

  function EngineOf(connection: Connection): Result<Engine, PoolError>
  {
    match connection.sourceType
    case None => Err(SourceTypeParse)
    case Some(Postgresql) | Some(Supabase) => Ok(PostgresEngine)
    case Some(Sqlite) => Ok(SqliteEngine)
    case Some(OtherSource) => Err(UnsupportedSourceType)
  }

  function Or(value: Option<string>): string
  {
    if value.Some? then value.value else ""
  }

  /** What the credentials contribute to a URL. */
  function Location(engine: Engine, c: Credentials): string
  {
    match engine
    case PostgresEngine =>
      Or(c.username) + (":" + (Or(c.password) + ("@" + (Or(c.host) + (":" + (Or(c.port) + ("/" + c.database)))))))
    case SqliteEngine => c.database
  }

  function DatabaseUrl(engine: Engine, c: Credentials): string
  {
    match engine
    case PostgresEngine => POSTGRES_SCHEME + Location(engine, c)
    case SqliteEngine => SQLITE_SCHEME + Location(engine, c) + "?mode=rwc"
  }

  lemma UrlTellsEngine(a: Engine, la: Credentials, b: Engine, lb: Credentials)
    requires DatabaseUrl(a, la) == DatabaseUrl(b, lb)
    ensures a == b
  {
    assert DatabaseUrl(a, la)[0] == (if a.PostgresEngine? then 'p' else 's');
    assert DatabaseUrl(b, lb)[0] == (if b.PostgresEngine? then 'p' else 's');
  }

  /** URLs are equal exactly when the engines and what the credentials contribute are. */
  lemma UrlTellsLocation(a: Engine, la: Credentials, b: Engine, lb: Credentials)
    ensures DatabaseUrl(a, la) == DatabaseUrl(b, lb) <==> a == b && Location(a, la) == Location(b, lb)
  {
    if DatabaseUrl(a, la) == DatabaseUrl(b, lb) {
      UrlTellsEngine(a, la, b, lb);
      hide Location;
      var n := if a.PostgresEngine? then |POSTGRES_SCHEME| else |SQLITE_SCHEME|;
      var s, t := Location(a, la), Location(b, lb);
      assert DatabaseUrl(a, la)[n..n + |s|] == s;
      assert DatabaseUrl(b, lb)[n..n + |t|] == t;
      assert |s| == |t|;
    }
  }

  // ---------- When credentials can be told from their URL ----------

  /** Each part ends at the first of the characters that separates it from the next. */
  predicate Separable(c: Credentials)
  {
    ':' !in Or(c.username) && '@' !in Or(c.password) && ':' !in Or(c.host) && '/' !in Or(c.port)
  }

  /** The credentials an engine uses are the same; a part that is missing counts as empty. */
  predicate SameCredentials(engine: Engine, a: Credentials, b: Credentials)
  {
    a.database == b.database &&
    (engine.PostgresEngine? ==>
       Or(a.username) == Or(b.username) && Or(a.password) == Or(b.password) && Or(a.host) == Or(b.host) &&
       Or(a.port) == Or(b.port))
  }

  lemma SplitAtFirst(a: string, x: string, b: string, y: string, c: char)
    requires c !in a && c !in b && a + ([c] + x) == b + ([c] + y)
    ensures a == b && x == y
  {
    var s, t := a + ([c] + x), b + ([c] + y);
    assert s[|a|] == c && t[|b|] == c;
    assert forall i :: 0 <= i < |a| ==> s[i] == a[i];
    assert forall i :: 0 <= i < |b| ==> t[i] == b[i];
    assert |a| == |b|;
    assert s[..|a|] == a && t[..|b|] == b;
    assert s[|a| + 1..] == x && t[|b| + 1..] == y;
  }

  lemma LocationTellsCredentials(a: Credentials, b: Credentials)
    requires Separable(a) && Separable(b) && Location(PostgresEngine, a) == Location(PostgresEngine, b)
    ensures SameCredentials(PostgresEngine, a, b)
  {
    var pa, pb := Or(a.port) + ("/" + a.database), Or(b.port) + ("/" + b.database);
    var ha, hb := Or(a.host) + (":" + pa), Or(b.host) + (":" + pb);
    var wa, wb := Or(a.password) + ("@" + ha), Or(b.password) + ("@" + hb);
    hide Or;
    SplitAtFirst(Or(a.username), wa, Or(b.username), wb, ':');
    SplitAtFirst(Or(a.password), ha, Or(b.password), hb, '@');
    SplitAtFirst(Or(a.host), pa, Or(b.host), pb, ':');
    SplitAtFirst(Or(a.port), a.database, Or(b.port), b.database, '/');
  }

  /** Separable credentials have the same URL exactly when they are the same, for the same engine. */
  lemma UrlTellsCredentials(a: Engine, ca: Credentials, b: Engine, cb: Credentials)
    requires Separable(ca) && Separable(cb)
    ensures DatabaseUrl(a, ca) == DatabaseUrl(b, cb) <==> a == b && SameCredentials(a, ca, cb)
  {
    UrlTellsLocation(a, ca, b, cb);
    if a == b == PostgresEngine && Location(a, ca) == Location(b, cb) {
      LocationTellsCredentials(ca, cb);
    }
  }

  /** Others may not be: a colon moves from the user's name into the password. */
  lemma ColonMovesUnseen(user: string, middle: string, rest: string, c: Credentials)
    ensures var a := c.(username := Some(user + ":" + middle), password := Some(rest));
            var b := c.(username := Some(user), password := Some(middle + ":" + rest));
            a != b && !SameCredentials(PostgresEngine, a, b) &&
            DatabaseUrl(PostgresEngine, a) == DatabaseUrl(PostgresEngine, b)
  {
    var after := "@" + (Or(c.host) + (":" + (Or(c.port) + ("/" + c.database))));
    assert user + ":" + middle + (":" + (rest + after)) == user + (":" + (middle + ":" + rest + after));
    assert |user + ":" + middle| > |user|;
  }

  /** The engine and the URL of each kind of source. */
  predicate UrlOfSource(source: SourceType, c: Credentials, engine: Engine, url: string)
  {
    match source
    case Sqlite => engine == SqliteEngine && url == "sqlite:///" + c.database + "?mode=rwc"
    case OtherSource => false
    case _ =>
      engine == PostgresEngine &&
      url == "postgres://" + (Or(c.username) + (":" + (Or(c.password) + ("@" + (Or(c.host) + (":" + (Or(c.port) +
             ("/" + c.database))))))))
  }

  type Fingerprint = string -> string

  ghost predicate Injective(fp: Fingerprint)
  {
    forall a, b :: fp(a) == fp(b) ==> a == b
  }

  function KeyOf(fp: Fingerprint, connection: Connection, engine: Engine): PoolKey
  {
    PoolKey(connection.id, fp(DatabaseUrl(engine, connection.credentials)))
  }

  /** `retain` drops the pools of the connection, then the new one is inserted. */
  function Stored(pools: map<PoolKey, Pool>, key: PoolKey, pool: Pool): map<PoolKey, Pool>
  {
    (map k | k in pools && k.connectionId != key.connectionId :: pools[k])[key := pool]
  }

  /** The engine is the one the URL's scheme names. */
  predicate RightEngine(pool: Pool)
  {
    pool.url != "" && (pool.engine.PostgresEngine? <==> pool.url[0] == POSTGRES_SCHEME[0])
  }

  lemma RightByUrl(engine: Engine, c: Credentials)
    ensures forall serial :: RightEngine(Pool(serial, engine, DatabaseUrl(engine, c)))
  {
    assert DatabaseUrl(engine, c)[0] == (if engine.PostgresEngine? then 'p' else 's');
  }

  lemma SourceTellsUrl(connection: Connection)
    requires EngineOf(connection).Ok?
    ensures connection.sourceType.Some?
    ensures var engine := EngineOf(connection).value;
            UrlOfSource(connection.sourceType.value, connection.credentials, engine,
                        DatabaseUrl(engine, connection.credentials))
  {
  }

  lemma FoundUrl(fp: Fingerprint, pool: Pool, engine: Engine, c: Credentials)
    requires Injective(fp) && RightEngine(pool) && fp(pool.url) == fp(DatabaseUrl(engine, c))
    ensures pool.url == DatabaseUrl(engine, c) && pool.engine == engine
  {
    RightByUrl(engine, c);
    assert RightEngine(Pool(pool.serial, engine, DatabaseUrl(engine, c)));
    hide DatabaseUrl;
  }

  /** The registry used by one caller at a time. */
  class Registry {
    var pools: map<PoolKey, Pool>
    var nextSerial: nat

    constructor ()
      ensures pools == map[]
    {
      pools, nextSerial := map[], 0;
    }

    /** Every pool is stored under the fingerprint of the URL it was built from, by that URL's engine. */
    predicate Valid(fp: Fingerprint)
      reads this
    {
      forall k :: k in pools ==> k.fingerprint == fp(pools[k].url) && RightEngine(pools[k])
    }

    method GetDatabasePool(fp: Fingerprint, connection: Connection, connects: bool) returns (r: Result<Pool, PoolError>)
      modifies this
      ensures connection.sourceType.None? ==> r == Err(SourceTypeParse) && pools == old(pools)
      ensures connection.sourceType == Some(OtherSource) ==> r == Err(UnsupportedSourceType) && pools == old(pools)
      ensures EngineOf(connection).Err? <==>
                connection.sourceType.None? || connection.sourceType == Some(OtherSource)
      ensures EngineOf(connection).Ok? ==>
                var engine := EngineOf(connection).value;
                var key := KeyOf(fp, connection, engine);
                if key in old(pools) then r == Ok(old(pools)[key]) && pools == old(pools)
                else if connects then
                  var pool := Pool(old(nextSerial), engine, DatabaseUrl(engine, connection.credentials));
                  r == Ok(pool) && pools == Stored(old(pools), key, pool)
                else r == Err(ConnectFailed) && pools == old(pools)
      ensures old(Valid(fp)) ==> Valid(fp)
      ensures old(Valid(fp)) && Injective(fp) && r.Ok? ==>
                connection.sourceType.Some? &&
                UrlOfSource(connection.sourceType.value, connection.credentials, r.value.engine, r.value.url)
    {
      var engine := EngineOf(connection);
      if engine.Err? {
        return Err(engine.error);
      }
      var url := DatabaseUrl(engine.value, connection.credentials);
      SourceTellsUrl(connection);
      RightByUrl(engine.value, connection.credentials);
      if old(Valid(fp)) && Injective(fp) && PoolKey(connection.id, fp(url)) in pools {
        FoundUrl(fp, pools[PoolKey(connection.id, fp(url))], engine.value, connection.credentials);
      }
      hide Location, DatabaseUrl, UrlOfSource, RightEngine, Injective;
      var key := PoolKey(connection.id, fp(url));
      if key in pools {
        return Ok(pools[key]);
      }
      if !connects {
        return Err(ConnectFailed);
      }
      var pool := Pool(nextSerial, engine.value, url);
      nextSerial := nextSerial + 1;
      pools := map k | k in pools && k.connectionId != connection.id :: pools[k];
      pools := pools[key := pool];
      return Ok(pool);
    }
  }

  // ---------- Concurrent callers ----------

  type Caller = nat

  datatype Phase =
    | Asking       // about to look under the read lock
    | Missed       // not found; waiting for the write lock
    | Holding      // owns the write lock, has not looked again
    | Building     // owns the write lock, and the key was still absent
    | Returned(result: Result<Pool, PoolError>)
    | Abandoned    // the caller went away

  datatype Call = Call(connection: Connection, engine: Engine, phase: Phase)
  {
    function Url(): string
    {
      DatabaseUrl(engine, connection.credentials)
    }

    function Key(fp: Fingerprint): PoolKey
    {
      KeyOf(fp, connection, engine)
    }

    predicate Failed()
    {
      phase.Returned? && phase.result.Err?
    }

    predicate OwnsLock()
    {
      phase.Holding? || phase.Building?
    }
  }

  /** A pool that was built, and for which connection. */
  datatype Build = Build(connectionId: ConnectionId, pool: Pool)

  datatype System = System(pools: map<PoolKey, Pool>, writer: Option<Caller>, calls: map<Caller, Call>,
      builds: seq<Build>)

  datatype Step =
    | Ask(c: Caller, connection: Connection)
    | Look(c: Caller)
    | Acquire(c: Caller)
    | LookAgain(c: Caller)
    | BuildPool(c: Caller, connects: bool)
    | Abandon(c: Caller)

  const EMPTY := System(map[], None, map[], [])

  function Go(s: System, c: Caller, phase: Phase): System
    requires c in s.calls
  {
    s.(calls := s.calls[c := s.calls[c].(phase := phase)])
  }

  function Next(fp: Fingerprint, s: System, step: Step): System
  {
    match step
    case Ask(c, connection) =>
      if c in s.calls then s
      else
        (match EngineOf(connection)
         case Ok(engine) => s.(calls := s.calls[c := Call(connection, engine, Asking)])
         case Err(error) => s.(calls := s.calls[c := Call(connection, PostgresEngine, Returned(Err(error)))]))
    case _ => if step.c in s.calls then Continue(fp, s, step.c, s.calls[step.c], step) else s
  }

  function Continue(fp: Fingerprint, s: System, c: Caller, call: Call, step: Step): System
    requires c in s.calls && s.calls[c] == call
  {
    var key := call.Key(fp);
    match (step, call.phase)
    case (Look(_), Asking) =>
      if s.writer.Some? then s
      else if key in s.pools then Go(s, c, Returned(Ok(s.pools[key])))
      else Go(s, c, Missed)
    case (Acquire(_), Missed) => if s.writer.Some? then s else Go(s, c, Holding).(writer := Some(c))
    case (LookAgain(_), Holding) =>
      if key in s.pools then Go(s, c, Returned(Ok(s.pools[key]))).(writer := None) else Go(s, c, Building)
    case (BuildPool(_, connects), Building) =>
      if connects then
        var pool := Pool(|s.builds|, call.engine, call.Url());
        Go(s, c, Returned(Ok(pool))).(writer := None, pools := Stored(s.pools, key, pool),
                                      builds := s.builds + [Build(call.connection.id, pool)])
      else Go(s, c, Returned(Err(ConnectFailed))).(writer := None)
    case (Abandon(_), _) =>
      if call.phase.Returned? then s
      else if call.OwnsLock() then Go(s, c, Abandoned).(writer := None)
      else Go(s, c, Abandoned)
    case _ => s
  }

  function Run(fp: Fingerprint, steps: seq<Step>): System
  {
    if steps == [] then EMPTY else Next(fp, Run(fp, steps[..|steps| - 1]), steps[|steps| - 1])
  }

  // ---------- The registry is the last pool built for each connection ----------

  function LastBuild(builds: seq<Build>, id: ConnectionId): Option<Pool>
  {
    if builds == [] then None
    else if builds[|builds| - 1].connectionId == id then Some(builds[|builds| - 1].pool)
    else LastBuild(builds[..|builds| - 1], id)
  }

  ghost predicate HoldsLastBuilds(fp: Fingerprint, pools: map<PoolKey, Pool>, builds: seq<Build>)
  {
    && (forall k :: k in pools ==>
          LastBuild(builds, k.connectionId) == Some(pools[k]) && k.fingerprint == fp(pools[k].url))
    && (forall id :: LastBuild(builds, id).Some? ==> PoolKey(id, fp(LastBuild(builds, id).value.url)) in pools)
  }

  /** A build replaces only a pool of the same connection built from another URL. */
  predicate NewUrl(builds: seq<Build>, j: nat)
    requires j < |builds|
  {
    var before := LastBuild(builds[..j], builds[j].connectionId);
    before.Some? ==> before.value.url != builds[j].pool.url
  }

  ghost predicate LockHeld(s: System)
  {
    forall c :: c in s.calls && s.calls[c].OwnsLock() ==> s.writer == Some(c)
  }

  ghost predicate BuildersMiss(fp: Fingerprint, s: System)
  {
    forall c :: c in s.calls && s.calls[c].phase.Building? ==> s.calls[c].Key(fp) !in s.pools
  }

  /** What a caller got is what it would have built itself. */
  predicate Served(call: Call)
  {
    call.phase.Returned? && call.phase.result.Ok? ==>
      call.phase.result.value.url == call.Url() && call.phase.result.value.engine == call.engine
  }

  ghost predicate AllServed(s: System)
  {
    forall c :: c in s.calls ==> Served(s.calls[c])
  }

  predicate BuiltRight(builds: seq<Build>)
  {
    forall i :: 0 <= i < |builds| ==> RightEngine(builds[i].pool)
  }

  ghost predicate Good(fp: Fingerprint, s: System)
  {
    && HoldsLastBuilds(fp, s.pools, s.builds) && BuiltRight(s.builds)
    && (forall j :: 0 <= j < |s.builds| ==> NewUrl(s.builds, j))
    && LockHeld(s) && BuildersMiss(fp, s) && AllServed(s)
  }

  lemma {:induction false} LastBuildRight(builds: seq<Build>, id: ConnectionId)
    requires BuiltRight(builds) && LastBuild(builds, id).Some?
    ensures RightEngine(LastBuild(builds, id).value)
  {
    var n := |builds| - 1;
    if builds[n].connectionId != id {
      LastBuildRight(builds[..n], id);
    }
  }

  /** A pool found under a call's key was built from the call's URL, by the call's engine. */
  lemma FoundPool(fp: Fingerprint, s: System, call: Call)
    requires Injective(fp) && HoldsLastBuilds(fp, s.pools, s.builds) && BuiltRight(s.builds)
    requires call.Key(fp) in s.pools
    ensures var pool := s.pools[call.Key(fp)]; pool.url == call.Url() && pool.engine == call.engine
  {
    var key := call.Key(fp);
    assert fp(s.pools[key].url) == fp(call.Url());
    LastBuildRight(s.builds, key.connectionId);
    assert call.Url()[0] == (if call.engine.PostgresEngine? then 'p' else 's');
  }

  lemma StoreKeepsLastBuilds(fp: Fingerprint, s: System, call: Call, pool: Pool)
    requires Injective(fp) && HoldsLastBuilds(fp, s.pools, s.builds)
    requires pool.url == call.Url() && call.Key(fp) !in s.pools
    ensures var builds := s.builds + [Build(call.connection.id, pool)];
            HoldsLastBuilds(fp, Stored(s.pools, call.Key(fp), pool), builds) && NewUrl(builds, |s.builds|)
  {
    var builds := s.builds + [Build(call.connection.id, pool)];
    assert builds[..|s.builds|] == s.builds;
    var before := LastBuild(s.builds, call.connection.id);
    assert before.Some? ==> PoolKey(call.connection.id, fp(before.value.url)) in s.pools;
    var pools := Stored(s.pools, call.Key(fp), pool);
    forall id | LastBuild(builds, id).Some?
      ensures PoolKey(id, fp(LastBuild(builds, id).value.url)) in pools
    {
      assert id != call.connection.id ==> LastBuild(builds, id) == LastBuild(s.builds, id);
    }
  }

  /** The step that builds a pool. */
  predicate Builds(s: System, step: Step)
  {
    step.BuildPool? && step.connects && step.c in s.calls && s.calls[step.c].phase.Building?
  }

  lemma OnlyBuildsStore(fp: Fingerprint, s: System, step: Step)
    ensures var next := Next(fp, s, step);
            if Builds(s, step) then
              var call := s.calls[step.c];
              var pool := Pool(|s.builds|, call.engine, call.Url());
              next.pools == Stored(s.pools, call.Key(fp), pool) &&
              next.builds == s.builds + [Build(call.connection.id, pool)]
            else next.pools == s.pools && next.builds == s.builds
  {
  }

  lemma NextKeepsLastBuilds(fp: Fingerprint, s: System, step: Step)
    requires Injective(fp) && Good(fp, s)
    ensures var next := Next(fp, s, step);
            HoldsLastBuilds(fp, next.pools, next.builds) && BuiltRight(next.builds) &&
            forall j :: 0 <= j < |next.builds| ==> NewUrl(next.builds, j)
  {
    OnlyBuildsStore(fp, s, step);
    var next := Next(fp, s, step);
    hide Next, HoldsLastBuilds, LockHeld, AllServed, Stored;
    if Builds(s, step) {
      var call := s.calls[step.c];
      StoreKeepsLastBuilds(fp, s, call, Pool(|s.builds|, call.engine, call.Url()));
      assert call.Url()[0] == (if call.engine.PostgresEngine? then 'p' else 's');
      forall j | 0 <= j < |next.builds|
        ensures NewUrl(next.builds, j)
      {
        assert j < |s.builds| ==> next.builds[..j] == s.builds[..j] && NewUrl(s.builds, j);
      }
    }
  }

  lemma NextKeepsLock(fp: Fingerprint, s: System, step: Step)
    requires LockHeld(s) && BuildersMiss(fp, s)
    ensures LockHeld(Next(fp, s, step)) && BuildersMiss(fp, Next(fp, s, step))
  {
  }

  lemma NextKeepsServed(fp: Fingerprint, s: System, step: Step)
    requires Injective(fp) && HoldsLastBuilds(fp, s.pools, s.builds) && BuiltRight(s.builds) && AllServed(s)
    ensures AllServed(Next(fp, s, step))
  {
    hide HoldsLastBuilds, BuiltRight, Injective, DatabaseUrl, Location, KeyOf, Stored;
    if step.c in s.calls && s.calls[step.c].Key(fp) in s.pools {
      FoundPool(fp, s, s.calls[step.c]);
    }
  }

  lemma NextKeepsGood(fp: Fingerprint, s: System, step: Step)
    requires Injective(fp) && Good(fp, s)
    ensures Good(fp, Next(fp, s, step))
  {
    hide Next, HoldsLastBuilds, LockHeld, BuildersMiss, AllServed;
    NextKeepsLastBuilds(fp, s, step);
    NextKeepsLock(fp, s, step);
    NextKeepsServed(fp, s, step);
  }

  lemma {:induction false} RunIsGood(fp: Fingerprint, steps: seq<Step>)
    requires Injective(fp)
    ensures Good(fp, Run(fp, steps))
    decreases |steps|
  {
    if steps != [] {
      RunIsGood(fp, steps[..|steps| - 1]);
      NextKeepsGood(fp, Run(fp, steps[..|steps| - 1]), steps[|steps| - 1]);
    }
  }

  /**
   In every interleaving: one key at most for each connection, every stored pool the last one
   built for its connection from the URL its key fingerprints, and every answered caller got
   a pool of its own URL and engine.
   */
  lemma RegistryAgreesWithBuilding(fp: Fingerprint, steps: seq<Step>)
    requires Injective(fp)
    ensures var s := Run(fp, steps);
            (forall k, l :: k in s.pools && l in s.pools && k.connectionId == l.connectionId ==> k == l) &&
            (forall k :: k in s.pools ==>
               LastBuild(s.builds, k.connectionId) == Some(s.pools[k]) && k.fingerprint == fp(s.pools[k].url)) &&
            (forall c :: c in s.calls && s.calls[c].phase.Returned? && s.calls[c].phase.result.Ok? ==>
               var call := s.calls[c];
               call.phase.result.value.url == call.Url() && call.phase.result.value.engine == call.engine)
  {
    RunIsGood(fp, steps);
    var s := Run(fp, steps);
    assert forall c :: c in s.calls ==> Served(s.calls[c]);
  }

  /**
   In every interleaving each answered caller got a pool of its own source: of the engine its source
   type names, built from the URL of its own credentials.
   */
  lemma ServedByOwnCredentials(fp: Fingerprint, steps: seq<Step>, c: Caller)
    requires Injective(fp)
    requires var s := Run(fp, steps); c in s.calls && s.calls[c].phase.Returned? && s.calls[c].phase.result.Ok?
    ensures var call := Run(fp, steps).calls[c];
            call.connection.sourceType.Some? &&
            UrlOfSource(call.connection.sourceType.value, call.connection.credentials,
                        call.phase.result.value.engine, call.phase.result.value.url)
  {
    RegistryAgreesWithBuilding(fp, steps);
    CallsKeepEngine(fp, steps);
    SourceTellsUrl(Run(fp, steps).calls[c].connection);
    hide Run, DatabaseUrl, UrlOfSource;
  }

  /** Calls that have not failed have the engine of their connection. */
  ghost predicate EnginesKept(s: System)
  {
    forall c :: c in s.calls && !s.calls[c].Failed() ==>
      EngineOf(s.calls[c].connection) == Ok(s.calls[c].engine)
  }

  lemma {:induction false} CallsKeepEngine(fp: Fingerprint, steps: seq<Step>)
    ensures EnginesKept(Run(fp, steps))
    decreases |steps|
  {
    if steps != [] {
      CallsKeepEngine(fp, steps[..|steps| - 1]);
      hide Location, DatabaseUrl, Stored;
    }
  }

  /**
   Two callers who got the same pool use the same engine with the same URL: whoever changed what the
   credentials contribute never gets the pool built before.
   */
  lemma ChangedCredentialsGetOwnPool(fp: Fingerprint, steps: seq<Step>, c: Caller, d: Caller)
    requires Injective(fp)
    requires var s := Run(fp, steps); c in s.calls && s.calls[c].phase.Returned? && s.calls[c].phase.result.Ok?
    requires var s := Run(fp, steps); d in s.calls && s.calls[d].phase == s.calls[c].phase
    ensures var a, b := Run(fp, steps).calls[c], Run(fp, steps).calls[d];
            a.engine == b.engine &&
            Location(a.engine, a.connection.credentials) == Location(b.engine, b.connection.credentials) &&
            (Separable(a.connection.credentials) && Separable(b.connection.credentials) ==>
               SameCredentials(a.engine, a.connection.credentials, b.connection.credentials))
  {
    var a, b := Run(fp, steps).calls[c], Run(fp, steps).calls[d];
    RegistryAgreesWithBuilding(fp, steps);
    UrlTellsLocation(a.engine, a.connection.credentials, b.engine, b.connection.credentials);
    hide Run, DatabaseUrl, Location;
    if Separable(a.connection.credentials) && Separable(b.connection.credentials) {
      UrlTellsCredentials(a.engine, a.connection.credentials, b.engine, b.connection.credentials);
    }
  }

  /** A connection is built again only for a URL other than that of its previous build. */
  lemma RebuiltOnlyForNewUrl(fp: Fingerprint, steps: seq<Step>, i: nat, j: nat)
    requires Injective(fp)
    requires var builds := Run(fp, steps).builds;
             i < j < |builds| && builds[i].connectionId == builds[j].connectionId &&
             forall k :: i < k < j ==> builds[k].connectionId != builds[j].connectionId
    ensures var builds := Run(fp, steps).builds;
            builds[i].pool.url != builds[j].pool.url
  {
    RunIsGood(fp, steps);
    var builds := Run(fp, steps).builds;
    LastBuildIs(builds[..j], builds[j].connectionId, i);
    assert NewUrl(builds, j);
  }

  lemma {:induction false} LastBuildIs(builds: seq<Build>, id: ConnectionId, i: nat)
    requires i < |builds| && builds[i].connectionId == id
    requires forall k :: i < k < |builds| ==> builds[k].connectionId != id
    ensures LastBuild(builds, id) == Some(builds[i].pool)
    decreases |builds|
  {
    if i < |builds| - 1 {
      LastBuildIs(builds[..|builds| - 1], id, i);
    }
  }

  /** Every caller for the connection resolves the same URL. */
  predicate SameUrl(steps: seq<Step>, id: ConnectionId, url: string)
  {
    forall k :: 0 <= k < |steps| && steps[k].Ask? &&
                steps[k].connection.id == id && EngineOf(steps[k].connection).Ok? ==>
      DatabaseUrl(EngineOf(steps[k].connection).value, steps[k].connection.credentials) == url
  }

  ghost predicate OnlyUrl(s: System, id: ConnectionId, url: string)
  {
    && (forall c :: c in s.calls && s.calls[c].connection.id == id && !s.calls[c].Failed() ==> s.calls[c].Url() == url)
    && (forall k :: 0 <= k < |s.builds| && s.builds[k].connectionId == id ==> s.builds[k].pool.url == url)
  }

  lemma {:induction false} RunKeepsUrl(fp: Fingerprint, steps: seq<Step>, id: ConnectionId, url: string)
    requires SameUrl(steps, id, url)
    ensures OnlyUrl(Run(fp, steps), id, url)
    decreases |steps|
  {
    if steps != [] {
      var init, step := steps[..|steps| - 1], steps[|steps| - 1];
      RunKeepsUrl(fp, init, id, url);
      assert steps[|steps| - 1] == step;
      hide Next, OnlyUrl, DatabaseUrl;
      NextKeepsUrl(fp, Run(fp, init), step, id, url);
    }
  }

  lemma NextKeepsUrl(fp: Fingerprint, s: System, step: Step, id: ConnectionId, url: string)
    requires OnlyUrl(s, id, url)
    requires step.Ask? && step.connection.id == id && EngineOf(step.connection).Ok? ==>
               DatabaseUrl(EngineOf(step.connection).value, step.connection.credentials) == url
    ensures OnlyUrl(Next(fp, s, step), id, url)
  {
    OnlyBuildsStore(fp, s, step);
    hide DatabaseUrl, Stored, KeyOf;
    var next := Next(fp, s, step);
    forall k | 0 <= k < |next.builds| && next.builds[k].connectionId == id
      ensures next.builds[k].pool.url == url
    {
      assert k < |s.builds| ==> next.builds[k] == s.builds[k];
    }
  }

  lemma {:induction false} PreviousBuild(builds: seq<Build>, id: ConnectionId, i: nat, j: nat) returns (m: nat)
    requires i < j <= |builds| && builds[i].connectionId == id
    ensures i <= m < j && builds[m].connectionId == id
    ensures forall k :: m < k < j ==> builds[k].connectionId != id
    decreases j
  {
    m := j - 1;
    if builds[m].connectionId != id {
      m := PreviousBuild(builds, id, i, m);
    }
  }

  /** Hence calls with unchanged credentials build once, however they interleave. */
  lemma UnchangedCredentialsBuildOnce(fp: Fingerprint, steps: seq<Step>, id: ConnectionId, url: string, i: nat, j: nat)
    requires Injective(fp) && SameUrl(steps, id, url)
    requires i <= j < |Run(fp, steps).builds|
    requires Run(fp, steps).builds[i].connectionId == id == Run(fp, steps).builds[j].connectionId
    ensures i == j
  {
    if i < j {
      RunKeepsUrl(fp, steps, id, url);
      var m := PreviousBuild(Run(fp, steps).builds, id, i, j);
      RebuiltOnlyForNewUrl(fp, steps, m, j);
    }
  }

  /** The lock is never lost: whoever holds it, some step of the holder releases it. */
  lemma LockIsReleased(fp: Fingerprint, steps: seq<Step>, c: Caller, connects: bool)
    requires Injective(fp)
    requires c in Run(fp, steps).calls && Run(fp, steps).calls[c].OwnsLock()
    ensures var s := Run(fp, steps);
            s.writer == Some(c) &&
            Next(fp, Next(fp, s, LookAgain(c)), BuildPool(c, connects)).writer == None
  {
    RunIsGood(fp, steps);
  }
}
