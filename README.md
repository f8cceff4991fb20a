# Secret-backed configuration resolution, modelled in Dafny

This project models the configuration and secret-resolution layer of a NestJS service that talks to
SQL Server and keeps its database credentials in Azure Key Vault. It covers four parts:

- **Configuration services.** `DBConfigService`, `LoggerConfigService`, `AppConfigService` and
  `SwaggerConfigService` are read-only getters over Nest's `ConfigService`. The model treats
  `ConfigService` as a `map<string, Value>` keyed by dotted names such as `db.host`; an absent key
  stands for `undefined`. Each getter is a function of that store with the source's default
  (`''`, `false` or `DEFAULT_PORT`).
- **Environment locator.** `getEnvironmentPath` picks `dest/{APP_ENV}.env`, or
  `dest/development.env` when `APP_ENV` is unset or empty, and falls back to `dest/.env` when
  that candidate file does not exist. `APP_ENV` and `existsSync` are parameters.
- **Key vault service.** `KeyVaultConfigService` is a class whose `secretCache` map field is
  updated in place. `GetKeyVaultSecret` either answers from the cache or asks the vault exactly
  once. It caches only non-empty values, and it turns an absent or empty value into the error
  "Key doesn't exist". The Azure `SecretClient` is an oracle `Vault` that, for a secret name,
  answers with an optional value or fails. A ghost counter records how many round trips the
  service made.
- **Database provider factory.** The `useFactory` of the SQL Server provider module awaits four
  resolutions in the order host, user, password, database. It passes the port through unresolved
  and sets `type: 'mssql'`, `autoLoadEntities: true` and `synchronize: false`.

The pure function `KeyVault.Resolve` specifies one resolution as a function of the cache before
it. `KeyVault.ResolveAll` specifies a run of sequential resolutions that stops at the first error,
as consecutive `await`s do. `GetKeyVaultSecret` is proved equal to `Resolve`, and `UseFactory` to
`MssqlProvider.Assemble`. `Assemble` is in turn proved equal to `ResolveAll` over the four
references, so the cache, idempotence and call-count lemmas about `ResolveAll` carry over to the
factory.

Modules, one per source file: `ConfigStore` and `Wrappers` (shared helpers), `DbConfig`,
`LoggerConfig`, `AppConfig`, `SwaggerConfig`, `EnvironmentHelper`, `KeyVault`, `MssqlProvider`.

## Model

| member | source | states |
|---|---|---|
| ConfigStore.GetString | src/config/database/mssqlserver/config.service.ts:9 | `get<string>(key) ?? fallback`: the stored string, or the fallback when the key is absent |
| ConfigStore.GetFlag | src/config/logger/sentryio/config.service.ts:13 | `get<boolean>(key) ?? fallback`: the stored flag, or the fallback when absent |
| ConfigStore.GetNumberOr | src/config/openapi/swagger/config.service.ts:25 | `get<number>(key) ?? fallback`: the stored number, or the fallback when absent |
| ConfigStore.GetNumber | src/config/database/mssqlserver/config.service.ts:25 | `Number(get(key))` on a present numeric setting is that number |
| DbConfig.Host | src/config/database/mssqlserver/config.service.ts:8-10 | `db.host`, or '' when absent |
| DbConfig.Database | src/config/database/mssqlserver/config.service.ts:12-14 | reads `db.name` (not `db.database`), or '' when absent |
| DbConfig.User | src/config/database/mssqlserver/config.service.ts:16-18 | `db.user`, or '' when absent |
| DbConfig.Password | src/config/database/mssqlserver/config.service.ts:20-22 | `db.password`, or '' when absent |
| DbConfig.Port | src/config/database/mssqlserver/config.service.ts:24-26 | the number stored under `db.port` |
| DbConfig.GettersReadOnlyTheirKeys | src/config/database/mssqlserver/config.service.ts:5-27 | two stores that agree on the five `db.*` keys give equal results from every getter; nothing else of the store is read |
| DbConfig.DatabaseIgnoresDbDatabase | src/config/database/mssqlserver/config.service.ts:12-14 | any value stored under `db.database` leaves `Database` unchanged |
| LoggerConfig.Dns | src/config/logger/sentryio/config.service.ts:8-10 | `logger.dns`, or '' when absent |
| LoggerConfig.Enable | src/config/logger/sentryio/config.service.ts:12-14 | `logger.enable`, or false when absent |
| LoggerConfig.Release | src/config/logger/sentryio/config.service.ts:16-18 | `logger.release`, or '' when absent |
| LoggerConfig.GettersReadOnlyTheirKeys | src/config/logger/sentryio/config.service.ts:5-19 | the getters depend only on their three `logger.*` keys |
| AppConfig.Name | src/config/app/config.service.ts:8-10 | `app.name`, or '' when absent |
| AppConfig.Env | src/config/app/config.service.ts:11-13 | `app.env`, or '' when absent |
| AppConfig.Url | src/config/app/config.service.ts:14-16 | `app.url`, or '' when absent |
| AppConfig.Port | src/config/app/config.service.ts:17-19 | the number stored under `app.port` |
| AppConfig.GettersReadOnlyTheirKeys | src/config/app/config.service.ts:5-20 | the getters depend only on their four `app.*` keys |
| SwaggerConfig.Title | src/config/openapi/swagger/config.service.ts:9-11 | `swagger.title`, or '' when absent |
| SwaggerConfig.Description | src/config/openapi/swagger/config.service.ts:12-14 | `swagger.description`, or '' when absent |
| SwaggerConfig.Version | src/config/openapi/swagger/config.service.ts:15-17 | `swagger.version`, or '' when absent |
| SwaggerConfig.Name | src/config/openapi/swagger/config.service.ts:18-20 | reads `swagger.envname`, or '' when absent |
| SwaggerConfig.Url | src/config/openapi/swagger/config.service.ts:21-23 | `swagger.url`, or '' when absent |
| SwaggerConfig.Port | src/config/openapi/swagger/config.service.ts:24-26 | `swagger.port`, or `DEFAULT_PORT` when absent |
| SwaggerConfig.Tag | src/config/openapi/swagger/config.service.ts:27-29 | `swagger.tag`, or '' when absent |
| SwaggerConfig.Path | src/config/openapi/swagger/config.service.ts:30-32 | `swagger.path`, or '' when absent |
| SwaggerConfig.GettersReadOnlyTheirKeys | src/config/openapi/swagger/config.service.ts:6-33 | the eight getters depend only on their `swagger.*` keys (and the default port) |
| EnvironmentHelper.Environment.Value | src/common/helpers/environment.helper.ts:4-9 | the four members' string values, each one of `development`, `production`, `staging`, `test`; `ParseValue` shows they are distinct |
| EnvironmentHelper.Parse | src/common/helpers/environment.helper.ts:4-9 | inverse of the enum's string values: a string it accepts is exactly its member's value |
| EnvironmentHelper.ParseValue | src/common/helpers/environment.helper.ts:4-9 | each of the four members is recovered from its value, so the four values are distinct |
| EnvironmentHelper.TestingIsNotAnEnvironment | src/config/app/config.module.ts:18-20 | `testing`, which the `APP_ENV` schema accepts, is no member; the enum's member is `test` |
| EnvironmentHelper.FileName | src/common/helpers/environment.helper.ts:14 | `{APP_ENV}.env` when `APP_ENV` is set and non-empty, `development.env` otherwise |
| EnvironmentHelper.CandidateIsNotFallback | src/common/helpers/environment.helper.ts:13-15 | the candidate path never coincides with the fallback `dest/.env` |
| EnvironmentHelper.GetEnvironmentPath | src/common/helpers/environment.helper.ts:11-22 | total; the result is the candidate or the fallback; it is the fallback exactly when the candidate does not exist, and the candidate exactly when it does |
| EnvironmentHelper.MissingEnvFileFallsBack | src/common/helpers/environment.helper.ts:13-19 | a missing `dest/e.env` gives `dest/.env`, whether or not that file exists |
| EnvironmentHelper.FalsyEnvIsDevelopment | src/common/helpers/environment.helper.ts:12-14 | an unset or empty `APP_ENV` selects exactly what `APP_ENV=development` selects |
| KeyVault.SecretError.Message | src/config/secrets/keyvault/config.service.ts:37 | an absent or empty secret fails with the message "Key doesn't exist" |
| KeyVault.Resolve | src/config/secrets/keyvault/config.service.ts:26-47 | one `getKeyVaultSecret` call as a function of the cache before it. It asks the vault at most once, and only for its own key. A success leaves its value cached under the key. `ResolveStep` states the rest: hit, miss, success exactly on a non-empty value, only that key added |
| KeyVault.ResolveAll | src/providers/database/mssqlserver/provider.module.ts:19-27 | consecutive awaited resolutions that stop at the first error. It makes no more vault calls than there are references, and a success yields one value per reference. The `ResolveAll*` lemmas state its cache, its values and where they come from, its calls, and its success condition in both directions (`UnusableReferenceFails`, `UsableReferencesSucceed`) |
| MssqlProvider.Assemble | src/providers/database/mssqlserver/provider.module.ts:17-30 | the factory as a function of the cache. It makes at most four vault calls, each for one of its four references. `AssembleIsResolveAll` proves it equals `ResolveAll` over `References`, and `AssembledOptions` states the options it builds |
| EnvironmentHelper.Candidate | src/common/helpers/environment.helper.ts:15 | `dest/` followed by `FileName(APP_ENV)`, so `APP_ENV=e` gives `dest/e.env`. It is longer than the fallback, so never equal to it. `GetEnvironmentPath` returns it exactly when it exists |
| EnvironmentHelper.Fallback | src/common/helpers/environment.helper.ts:13 | `dest/` followed by the name `.env`; `GetEnvironmentPath` returns it exactly when the candidate does not exist |
| KeyVault.ResolveStep | src/config/secrets/keyvault/config.service.ts:26-47 | a hit returns the cached value with no vault call and no cache change. A miss makes exactly one vault call, succeeds exactly when the reply is a non-empty value, and then returns exactly the value the vault sent. Only a success adds an entry, and only for its own key. No cached value is ever empty |
| KeyVault.ResolveAgain | src/config/secrets/keyvault/config.service.ts:27-42 | idempotence: after a successful resolve, resolving the same key again returns the same value with zero vault calls and the cache unchanged, whatever the vault now holds |
| KeyVault.RetryAfterFailure | src/config/secrets/keyvault/config.service.ts:34-46 | a failed resolution caches nothing, so the next attempt for that key asks the vault again |
| KeyVault.ResolveAllExtends | src/providers/database/mssqlserver/provider.module.ts:19-27 | sequential resolutions keep every earlier cache entry, add only entries for their own references, and keep every value non-empty |
| KeyVault.ResolveAllValues | src/providers/database/mssqlserver/provider.module.ts:19-27 | a successful run yields one value per reference, each equal to what the cache then holds for it |
| KeyVault.ResolveAllCalls | src/providers/database/mssqlserver/provider.module.ts:19-27 | the vault is asked only for uncached references and never twice for one; on success, every uncached reference was asked for |
| KeyVault.ResolveAllCallsInOrder | src/providers/database/mssqlserver/provider.module.ts:19-27 | with distinct uncached references, a run asks the vault for a non-empty prefix of them in order. Success means all of them were asked for. Failure means the last one asked for is the reference the vault could not supply |
| KeyVault.ResolveAllFresh | src/config/secrets/keyvault/config.service.ts:33-42 | after a successful run, every reference that was not cached before holds exactly the non-empty value the vault sent for it |
| KeyVault.ResolveAllProvenance | src/providers/database/mssqlserver/provider.module.ts:19-27 | each value of a successful run is the value cached before the run, or else exactly what the vault sent for that reference |
| KeyVault.UsableReferencesSucceed | src/config/secrets/keyvault/config.service.ts:27-42 | when every reference is cached or has a non-empty value in the vault, the run succeeds (the converse of `UnusableReferenceFails`) |
| KeyVault.ResolveAllCached | src/config/secrets/keyvault/config.service.ts:27-30 | when every reference is cached, a run succeeds with no vault call and no cache change |
| KeyVault.ResolveAllAgain | src/config/secrets/keyvault/config.service.ts:27-30 | repeating a successful run on the cache it left returns the same values with zero vault calls |
| KeyVault.ResolveAllCallCount | src/providers/database/mssqlserver/provider.module.ts:19-27 | a successful run makes exactly as many vault calls as there are distinct uncached references |
| KeyVault.UnusableReferenceFails | src/config/secrets/keyvault/config.service.ts:34-38 | a run containing an uncached reference whose vault reply is an error, absent or empty fails |
| KeyVault.KeyVaultConfigService.KeyVaultUrl | src/config/secrets/keyvault/config.service.ts:22-24 | `keyvault.keyVaultUrl`, or '' when absent |
| KeyVault.KeyVaultConfigService.constructor | src/config/secrets/keyvault/config.service.ts:12-20 | a new service has an empty cache and no vault calls, and its client URL equals `KeyVaultUrl()` |
| KeyVault.KeyVaultConfigService.GetKeyVaultSecret | src/config/secrets/keyvault/config.service.ts:26-47 | equals `Resolve` on the old cache. Hit: the cached value, cache and call count unchanged. Miss: one vault call. A client error is rethrown and the cache is unchanged. An absent or empty value gives "Key doesn't exist" and the cache is unchanged. A non-empty value is cached under the key, with every other entry unchanged, and returned. The non-empty-cache invariant is kept |
| MssqlProvider.References | src/providers/database/mssqlserver/provider.module.ts:19-27 | the four references, in await order: host, user, password, database name |
| MssqlProvider.AssembleIsResolveAll | src/providers/database/mssqlserver/provider.module.ts:19-27 | the factory is the sequential run of its four references: same cache, same vault calls, success exactly when the run succeeds, the run's values as host, username, password, database, or the run's error |
| MssqlProvider.AssembledOptions | src/providers/database/mssqlserver/provider.module.ts:17-30 | on success, host, username, password and database are each the cached value of their reference. Each is either the value cached before the factory ran or, for an uncached reference, exactly what the vault sent. Port is `DBConfigService.port`, unresolved. `type` is 'mssql', `autoLoadEntities` is true and `synchronize` is false |
| MssqlProvider.AssemblyKeepsCache | src/providers/database/mssqlserver/provider.module.ts:19-27 | the factory keeps all earlier cache entries and the non-empty invariant |
| MssqlProvider.SharedReferenceCostsOneCall | src/providers/database/mssqlserver/provider.module.ts:19-27 | when the four references are one and the same, a successful factory makes at most one vault call |
| MssqlProvider.CallsPerDistinctReference | src/providers/database/mssqlserver/provider.module.ts:19-27 | a successful factory makes one vault call per distinct uncached reference |
| MssqlProvider.CallsFollowAwaitOrder | src/providers/database/mssqlserver/provider.module.ts:19-27 | with four distinct uncached references, the vault is asked for a non-empty prefix of host, user, password, database, in that order, one call each. A failing factory stops at the reference the vault could not supply (its last call). A successful one asks for all four |
| MssqlProvider.UnusableReferenceMeansNoOptions | src/providers/database/mssqlserver/provider.module.ts:19-27 | an uncached reference the vault cannot supply means no options object is produced |
| MssqlProvider.FactorySucceedsWhenAllSupplied | src/providers/database/mssqlserver/provider.module.ts:17-30 | when each of the four references is cached or has a non-empty value in the vault, the factory builds its options (the converse of `UnusableReferenceMeansNoOptions`) |
| MssqlProvider.AssembleAgain | src/providers/database/mssqlserver/provider.module.ts:19-27 | running the factory again on the cache it left yields the same options with zero vault calls and the cache unchanged, whatever the vault then holds |
| MssqlProvider.UseFactory | src/providers/database/mssqlserver/provider.module.ts:13-30 | the method's result, the service's cache afterwards and its call count equal `Assemble` on the cache before; the cache invariant is kept |

## Left out

- `src/main.ts` (Nest bootstrap, validation pipe, helmet, Sentry initialisation, Swagger setup, `listen`) is not part of this model. It resolves the Sentry DSN through the key vault at line 32 whether or not `enable` is set. Its `.catch` at line 49 only constructs an `Error`, and neither rethrows nor exits.
- The Joi validation schemas in the `config.module.ts` files, the `configuration.ts` namespace factories, and the layering of env file over process environment are not modelled. They are library behaviour; the store they produce is an abstract `map<string, Value>`. The schema defaults (`DB_PORT` 1433, `APP_PORT` `DEFAULT_PORT`, `APP_ENV` `development`) are not modelled either.
- `SwaggerConfigModule.setup` (URL parsing, document builder), the Azure storage config service, the Sentry interceptor, the health controller and the application module's wiring are not part of this model.
- `DefaultAzureCredential` and the network are replaced by the `Vault` oracle, so authentication is not modelled. The oracle is one fixed function for the duration of one factory run.
- Concurrency is not modelled. Each `getKeyVaultSecret` call is one atomic step, so two concurrent misses on the same key, which both reach the vault in the source, do not occur in the model.
- `console.log(error)` in the error path of `getKeyVaultSecret` is not modelled.
- The vault calls are counted by a ghost counter on the service. The names asked for are recorded in the specification's `calls` sequences, not on the object.
- `path.resolve` is modelled as plain concatenation: no normalisation and no resolution against the working directory.
- EnvironmentHelper.CandidateIsNotFallback: holds only under that concatenation, and so do the directions of `EnvironmentHelper.GetEnvironmentPath`'s two equivalences that rely on it: with the real `resolve`, `APP_ENV=./` makes the candidate `dest/./.env` equal to the fallback `dest/.env`.
- `DEFAULT_PORT` and `ENVIRONMENT_PATH` come from a constants file that is not part of this model; they are parameters.
- DbConfig.Port: requires a numeric `db.port`. `Number(undefined)` would give `NaN` in the source, and NaN is not modelled.
- AppConfig.Port: requires a numeric `app.port`, for the same reason.
- ConfigStore.GetString: a value of another type stored under a string key reads as the fallback. TypeScript's `get<string>` is an unchecked cast and would return that value unchanged. Conversion of environment strings to numbers and booleans is not modelled.
- ConfigStore.GetFlag: a value that is not a boolean reads as the fallback, while the unchecked `get<boolean>` would return it unchanged.
- ConfigStore.GetNumberOr: a value that is not a number reads as the fallback, while the unchecked `get<number>` would return it unchanged.
- LoggerConfig.Enable: `logger.enable` is filled from the `SENTRY_ENABLE` environment string (src/config/logger/sentryio/configuration.ts:5), so in this program the stored value is a string. The model then returns `false`, while the source returns the raw string, which is truthy for "true" and for "false" alike.
- SwaggerConfig.Port: `swagger.port` is filled from the `APP_PORT` environment string (src/config/openapi/swagger/configuration.ts:9). For a stored string such as "8080", the model returns `DEFAULT_PORT`, while the source returns the string itself.
- KeyVault.SecretError.Message: a missing secret fails with the generic "Key doesn't exist" error (src/config/secrets/keyvault/config.service.ts:37), which does not name the reference; the model follows that.
