/**
 * The `useFactory` of `MSSqlServerDatabaseProviderModule`
 * (src/providers/database/mssqlserver/provider.module.ts): builds the
 * TypeORM connection options for SQL Server. The four string settings of
 * the `db` namespace are secret references; each is exchanged for its value
 * through the shared key vault service, one `await` after another, in the
 * order host, user, password, database. The port is taken as configured.
 */
module MssqlProvider {
  import opened Wrappers
  import opened ConfigStore
  import DbConfig
  import opened KeyVault

  /** The options object handed to TypeORM. */
  datatype MssqlOptions = MssqlOptions(
    databaseType: string,
    host: string,
    port: int,
    username: string,
    password: string,
    database: string,
    autoLoadEntities: bool,
    synchronize: bool)

  /** The references resolved, in the order the factory awaits them. */
  function References(db: Store): (refs: seq<string>)
    ensures |refs| == 4
    ensures refs[0] == DbConfig.Host(db) && refs[1] == DbConfig.User(db)
    ensures refs[2] == DbConfig.Password(db) && refs[3] == DbConfig.Database(db)
  {
    [DbConfig.Host(db), DbConfig.User(db), DbConfig.Password(db), DbConfig.Database(db)]
  }

  /** The outcome of the factory: the options or the first error, the cache after it and the vault calls made. */
  datatype Assembly = Assembly(options: Result<MssqlOptions, SecretError>, cache: map<string, string>, calls: seq<string>)

  /** The factory as a function of the cache before it: four resolutions, the first error ending it. */
  function Assemble(db: Store, cache: map<string, string>, vault: Vault): (a: Assembly)
    requires HasNumber(db, "db.port")
    ensures |a.calls| <= 4
    ensures forall i :: 0 <= i < |a.calls| ==> a.calls[i] in References(db)
  {
    var h := Resolve(cache, DbConfig.Host(db), vault);
    if h.result.Failure? then Assembly(Failure(h.result.error), h.cache, h.calls) else
    var u := Resolve(h.cache, DbConfig.User(db), vault);
    if u.result.Failure? then Assembly(Failure(u.result.error), u.cache, h.calls + u.calls) else
    var p := Resolve(u.cache, DbConfig.Password(db), vault);
    if p.result.Failure? then Assembly(Failure(p.result.error), p.cache, h.calls + (u.calls + p.calls)) else
    var d := Resolve(p.cache, DbConfig.Database(db), vault);
    var calls := h.calls + (u.calls + (p.calls + d.calls));
    if d.result.Failure? then Assembly(Failure(d.result.error), d.cache, calls) else
    var options := MssqlOptions("mssql", h.result.value, DbConfig.Port(db), u.result.value, p.result.value, d.result.value, true, false);
    Assembly(Success(options), d.cache, calls)
  }

  /** The factory is the sequential run of its four references: same cache, same vault calls, same values. */
  lemma AssembleIsResolveAll(db: Store, cache: map<string, string>, vault: Vault)
    requires HasNumber(db, "db.port")
    ensures var a := Assemble(db, cache, vault);
            var run := ResolveAll(cache, References(db), vault);
            && a.cache == run.cache && a.calls == run.calls
            && (a.options.Success? <==> run.results.Success?)
            && (a.options.Success? ==>
                  var o := a.options.value;
                  run.results.value == [o.host, o.username, o.password, o.database])
            && (a.options.Failure? ==> a.options.error == run.results.error)
  {
    var refs := References(db);
    ResolveAllFirst(cache, refs, vault);
    var h := Resolve(cache, refs[0], vault);
    if h.result.Success? {
      assert refs[1..][0] == refs[1] && refs[1..][1..] == refs[2..];
      ResolveAllFirst(h.cache, refs[1..], vault);
      var u := Resolve(h.cache, refs[1], vault);
      if u.result.Success? {
        assert refs[2..][0] == refs[2] && refs[2..][1..] == refs[3..];
        ResolveAllFirst(u.cache, refs[2..], vault);
        var p := Resolve(u.cache, refs[2], vault);
        if p.result.Success? {
          assert refs[3..][0] == refs[3] && refs[3..][1..] == [];
          ResolveAllFirst(p.cache, refs[3..], vault);
          var d := Resolve(p.cache, refs[3], vault);
          assert d.calls + [] == d.calls;
          if d.result.Success? {
            assert [d.result.value] + [] == [d.result.value];
          }
        }
      }
    }
  }

  /**
   * On success each connection field is the resolved value of its reference,
   * which stays cached; the port is the configured one, unresolved; the
   * fixed fields are `mssql`, `autoLoadEntities` and no `synchronize`.
   */
  lemma AssembledOptions(db: Store, cache: map<string, string>, vault: Vault)
    requires HasNumber(db, "db.port")
    ensures var a := Assemble(db, cache, vault);
            a.options.Success? ==>
              var o := a.options.value;
              && DbConfig.Host(db) in a.cache && o.host == a.cache[DbConfig.Host(db)]
              && DbConfig.User(db) in a.cache && o.username == a.cache[DbConfig.User(db)]
              && DbConfig.Password(db) in a.cache && o.password == a.cache[DbConfig.Password(db)]
              && DbConfig.Database(db) in a.cache && o.database == a.cache[DbConfig.Database(db)]
              && o.port == DbConfig.Port(db)
              && o.databaseType == "mssql" && o.autoLoadEntities && !o.synchronize
    ensures var a := Assemble(db, cache, vault);
            a.options.Success? ==>
              var o := a.options.value;
              && Provenance(cache, vault, DbConfig.Host(db), o.host)
              && Provenance(cache, vault, DbConfig.User(db), o.username)
              && Provenance(cache, vault, DbConfig.Password(db), o.password)
              && Provenance(cache, vault, DbConfig.Database(db), o.database)
  {
    var refs := References(db);
    AssembleIsResolveAll(db, cache, vault);
    ResolveAllValues(cache, refs, vault);
    ResolveAllProvenance(cache, refs, vault);
  }

  /**
   * The converse of `UnusableReferenceMeansNoOptions`: when each reference is
   * cached or the vault supplies a non-empty value for it, the factory builds
   * its options.
   */
  lemma FactorySucceedsWhenAllSupplied(db: Store, cache: map<string, string>, vault: Vault)
    requires HasNumber(db, "db.port")
    requires forall k :: k in References(db) ==> k in cache || !Unusable(vault(k))
    ensures Assemble(db, cache, vault).options.Success?
  {
    AssembleIsResolveAll(db, cache, vault);
    UsableReferencesSucceed(cache, References(db), vault);
  }

  /** The factory leaves no cache entry empty and drops none of those it found. */
  lemma AssemblyKeepsCache(db: Store, cache: map<string, string>, vault: Vault)
    requires HasNumber(db, "db.port")
    ensures Extends(cache, Assemble(db, cache, vault).cache)
    ensures AllNonEmpty(cache) ==> AllNonEmpty(Assemble(db, cache, vault).cache)
  {
    AssembleIsResolveAll(db, cache, vault);
    ResolveAllExtends(cache, References(db), vault);
  }

  /** When every reference names one secret, a successful factory asks the vault at most once. */
  lemma SharedReferenceCostsOneCall(db: Store, cache: map<string, string>, vault: Vault)
    requires HasNumber(db, "db.port")
    requires DbConfig.Host(db) == DbConfig.User(db) == DbConfig.Password(db) == DbConfig.Database(db)
    requires Assemble(db, cache, vault).options.Success?
    ensures |Assemble(db, cache, vault).calls| <= 1
  {
    var refs := References(db);
    AssembleIsResolveAll(db, cache, vault);
    ResolveAllCallCount(cache, refs, vault);
    SetOfFour(refs);
  }

  /** A successful factory asks the vault once per distinct uncached reference, however often it repeats. */
  lemma CallsPerDistinctReference(db: Store, cache: map<string, string>, vault: Vault)
    requires HasNumber(db, "db.port")
    requires Assemble(db, cache, vault).options.Success?
    ensures |Assemble(db, cache, vault).calls|
         == |{DbConfig.Host(db), DbConfig.User(db), DbConfig.Password(db), DbConfig.Database(db)} - cache.Keys|
  {
    var refs := References(db);
    AssembleIsResolveAll(db, cache, vault);
    ResolveAllCallCount(cache, refs, vault);
    SetOfFour(refs);
  }

  lemma SetOfFour(refs: seq<string>)
    requires |refs| == 4
    ensures (set k | k in refs) == {refs[0], refs[1], refs[2], refs[3]}
  {
    forall k | k in refs ensures k in {refs[0], refs[1], refs[2], refs[3]} {
      var i :| 0 <= i < 4 && refs[i] == k;
    }
  }

  /**
   * With four distinct, uncached references, the vault is asked for them in
   * await order, one each, up to and including the first that fails: a
   * failing factory ends on a reference the vault could not supply, and a
   * successful one asks for all four.
   */
  lemma CallsFollowAwaitOrder(db: Store, cache: map<string, string>, vault: Vault)
    requires HasNumber(db, "db.port")
    requires var refs := References(db);
             forall i, j :: 0 <= i < j < 4 ==> refs[i] != refs[j]
    requires forall k :: k in References(db) ==> k !in cache
    ensures var c := Assemble(db, cache, vault).calls;
            1 <= |c| <= 4 && c == References(db)[..|c|]
    ensures var a := Assemble(db, cache, vault);
            a.options.Failure? ==> Unusable(vault(a.calls[|a.calls| - 1]))
    ensures Assemble(db, cache, vault).options.Success? ==> Assemble(db, cache, vault).calls == References(db)
  {
    var refs := References(db);
    AssembleIsResolveAll(db, cache, vault);
    ResolveAllCallsInOrder(cache, refs, vault);
  }

  /** A reference the vault cannot supply (absent, empty or erroring) means no options at all. */
  lemma UnusableReferenceMeansNoOptions(db: Store, cache: map<string, string>, vault: Vault, k: string)
    requires HasNumber(db, "db.port")
    requires k in References(db) && k !in cache && Unusable(vault(k))
    ensures Assemble(db, cache, vault).options.Failure?
  {
    var refs := References(db);
    var i :| 0 <= i < |refs| && refs[i] == k;
    UnusableReferenceFails(cache, refs, vault, i);
    AssembleIsResolveAll(db, cache, vault);
  }

  /** A second factory run on the cache the first one left repeats its options without any vault call. */
  lemma AssembleAgain(db: Store, cache: map<string, string>, vault: Vault, later: Vault)
    requires HasNumber(db, "db.port")
    requires Assemble(db, cache, vault).options.Success?
    ensures var a := Assemble(db, cache, vault);
            Assemble(db, a.cache, later) == Assembly(a.options, a.cache, [])
  {
    var a := Assemble(db, cache, vault);
    AssembledOptions(db, cache, vault);
    var o := a.options.value;
    ResolveStep(a.cache, DbConfig.Host(db), later);
    ResolveStep(a.cache, DbConfig.User(db), later);
    ResolveStep(a.cache, DbConfig.Password(db), later);
    ResolveStep(a.cache, DbConfig.Database(db), later);
  }

  /**
   * The factory itself: four sequential resolutions through the shared
   * service, the first error aborting it. The service's cache afterwards is
   * whatever the resolutions before the error left in it.
   */
  method UseFactory(db: Store, keyvault: KeyVaultConfigService, vault: Vault) returns (r: Result<MssqlOptions, SecretError>)
    requires keyvault.Valid() && HasNumber(db, "db.port")
    modifies keyvault
    ensures keyvault.Valid()
    ensures var a := Assemble(db, old(keyvault.secretCache), vault);
            r == a.options && keyvault.secretCache == a.cache && keyvault.vaultCalls == old(keyvault.vaultCalls) + |a.calls|
  {
    var host := keyvault.GetKeyVaultSecret(DbConfig.Host(db), vault);
    if host.Failure? {
      return Failure(host.error);
    }
    var port := DbConfig.Port(db);
    var username := keyvault.GetKeyVaultSecret(DbConfig.User(db), vault);
    if username.Failure? {
      return Failure(username.error);
    }
    var password := keyvault.GetKeyVaultSecret(DbConfig.Password(db), vault);
    if password.Failure? {
      return Failure(password.error);
    }
    var database := keyvault.GetKeyVaultSecret(DbConfig.Database(db), vault);
    if database.Failure? {
      return Failure(database.error);
    }
    r := Success(MssqlOptions("mssql", host.value, port, username.value, password.value, database.value, true, false));
  }
}
