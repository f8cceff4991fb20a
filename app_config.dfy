/**
 * `AppConfigService` (src/config/app/config.service.ts): read-only getters
 * over the `app` namespace.
 */
module AppConfig {
  import opened ConfigStore

  function Name(store: Store): (r: string)
    ensures StringOr(store, "app.name", "", r)
  {
    GetString(store, "app.name", "")
  }

  function Env(store: Store): (r: string)
    ensures StringOr(store, "app.env", "", r)
  {
    GetString(store, "app.env", "")
  }

  function Url(store: Store): (r: string)
    ensures StringOr(store, "app.url", "", r)
  {
    GetString(store, "app.url", "")
  }

  function Port(store: Store): (r: int)
    requires HasNumber(store, "app.port")
    ensures store["app.port"] == Num(r)
  {
    GetNumber(store, "app.port")
  }

  lemma GettersReadOnlyTheirKeys(s: Store, t: Store)
    requires AgreeOn(s, t, "app.name") && AgreeOn(s, t, "app.env") && AgreeOn(s, t, "app.url")
    requires AgreeOn(s, t, "app.port")
    ensures Name(s) == Name(t) && Env(s) == Env(t) && Url(s) == Url(t)
    ensures HasNumber(s, "app.port") ==> HasNumber(t, "app.port") && Port(s) == Port(t)
  {
  }
}
