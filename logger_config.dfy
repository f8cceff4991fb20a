/**
 * `LoggerConfigService` (src/config/logger/sentryio/config.service.ts):
 * read-only getters over the `logger` namespace, the Sentry settings.
 */
module LoggerConfig {
  import opened ConfigStore

  /** The Sentry DSN setting (spelled `dns` in the source), itself a secret reference. */
  function Dns(store: Store): (r: string)
    ensures StringOr(store, "logger.dns", "", r)
  {
    GetString(store, "logger.dns", "")
  }

  function Enable(store: Store): (r: bool)
    ensures FlagOr(store, "logger.enable", false, r)
  {
    GetFlag(store, "logger.enable", false)
  }

  function Release(store: Store): (r: string)
    ensures StringOr(store, "logger.release", "", r)
  {
    GetString(store, "logger.release", "")
  }

  lemma GettersReadOnlyTheirKeys(s: Store, t: Store)
    requires AgreeOn(s, t, "logger.dns") && AgreeOn(s, t, "logger.enable") && AgreeOn(s, t, "logger.release")
    ensures Dns(s) == Dns(t) && Enable(s) == Enable(t) && Release(s) == Release(t)
  {
  }
}
