/**
 * `DBConfigService` (src/config/database/mssqlserver/config.service.ts):
 * read-only getters over the `db` namespace of the configuration store.
 * The string getters yield secret references: names that the key vault
 * exchanges for the real host, user, password and database name.
 */
module DbConfig {
  import opened ConfigStore

  function Host(store: Store): (r: string)
    ensures StringOr(store, "db.host", "", r)
  {
    GetString(store, "db.host", "")
  }

  /** The database name lives under `db.name`; there is no `db.database` key. */
  function Database(store: Store): (r: string)
    ensures StringOr(store, "db.name", "", r)
  {
    GetString(store, "db.name", "")
  }

  function User(store: Store): (r: string)
    ensures StringOr(store, "db.user", "", r)
  {
    GetString(store, "db.user", "")
  }

  function Password(store: Store): (r: string)
    ensures StringOr(store, "db.password", "", r)
  {
    GetString(store, "db.password", "")
  }

  function Port(store: Store): (r: int)
    requires HasNumber(store, "db.port")
    ensures store["db.port"] == Num(r)
  {
    GetNumber(store, "db.port")
  }

  /** The getters see the `db.*` keys they name and nothing else of the store. */
  lemma GettersReadOnlyTheirKeys(s: Store, t: Store)
    requires AgreeOn(s, t, "db.host") && AgreeOn(s, t, "db.name") && AgreeOn(s, t, "db.user")
    requires AgreeOn(s, t, "db.password") && AgreeOn(s, t, "db.port")
    ensures Host(s) == Host(t) && Database(s) == Database(t) && User(s) == User(t)
    ensures Password(s) == Password(t)
    ensures HasNumber(s, "db.port") ==> HasNumber(t, "db.port") && Port(s) == Port(t)
  {
  }

  /** A `db.database` entry never reaches `Database`: it reads `db.name`. */
  lemma DatabaseIgnoresDbDatabase(store: Store, v: Value)
    ensures Database(store["db.database" := v]) == Database(store)
  {
  }
}
