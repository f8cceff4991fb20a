/**
 * `SwaggerConfigService` (src/config/openapi/swagger/config.service.ts):
 * read-only getters over the `swagger` namespace, the OpenAPI document
 * settings. `DEFAULT_PORT` comes from a constants file that is not part of
 * this model, so it is a parameter here.
 */
module SwaggerConfig {
  import opened ConfigStore

  function Title(store: Store): (r: string)
    ensures StringOr(store, "swagger.title", "", r)
  {
    GetString(store, "swagger.title", "")
  }

  function Description(store: Store): (r: string)
    ensures StringOr(store, "swagger.description", "", r)
  {
    GetString(store, "swagger.description", "")
  }

  function Version(store: Store): (r: string)
    ensures StringOr(store, "swagger.version", "", r)
  {
    GetString(store, "swagger.version", "")
  }

  /** The environment name shown in the document lives under `swagger.envname`. */
  function Name(store: Store): (r: string)
    ensures StringOr(store, "swagger.envname", "", r)
  {
    GetString(store, "swagger.envname", "")
  }

  function Url(store: Store): (r: string)
    ensures StringOr(store, "swagger.url", "", r)
  {
    GetString(store, "swagger.url", "")
  }

  /** The only getter with a non-empty default: `DEFAULT_PORT` when `swagger.port` is absent. */
  function Port(store: Store, defaultPort: int): (r: int)
    ensures NumberOr(store, "swagger.port", defaultPort, r)
  {
    GetNumberOr(store, "swagger.port", defaultPort)
  }

  function Tag(store: Store): (r: string)
    ensures StringOr(store, "swagger.tag", "", r)
  {
    GetString(store, "swagger.tag", "")
  }

  function Path(store: Store): (r: string)
    ensures StringOr(store, "swagger.path", "", r)
  {
    GetString(store, "swagger.path", "")
  }

  /** The getters see the eight `swagger.*` keys they name and nothing else of the store. */
  lemma GettersReadOnlyTheirKeys(s: Store, t: Store, defaultPort: int)
    requires AgreeOn(s, t, "swagger.title") && AgreeOn(s, t, "swagger.description")
    requires AgreeOn(s, t, "swagger.version") && AgreeOn(s, t, "swagger.envname")
    requires AgreeOn(s, t, "swagger.url") && AgreeOn(s, t, "swagger.port")
    requires AgreeOn(s, t, "swagger.tag") && AgreeOn(s, t, "swagger.path")
    ensures Title(s) == Title(t) && Description(s) == Description(t) && Version(s) == Version(t)
    ensures Name(s) == Name(t) && Url(s) == Url(t) && Port(s, defaultPort) == Port(t, defaultPort)
    ensures Tag(s) == Tag(t) && Path(s) == Path(t)
  {
  }
}
