/**
 * The key/value store behind Nest's `ConfigService`: every registered
 * namespace (`db`, `app`, `logger`, `swagger`, `keyvault`) contributes
 * dotted keys such as `db.host`. A key that is absent stands for a setting
 * whose value is `undefined`.
 */
module ConfigStore {

  /** A setting's value, typed as the getter that reads it expects. */
  datatype Value = Str(str: string) | Num(num: int) | Flag(flag: bool)

  type Store = map<string, Value>

  /** `r` is what `get<string>(key) ?? fallback` yields: the stored string, or `fallback` when the key is absent. */
  ghost predicate StringOr(store: Store, key: string, fallback: string, r: string) {
    && (key in store && store[key].Str? ==> r == store[key].str)
    && (key !in store ==> r == fallback)
  }

  /** `r` is what `get<boolean>(key) ?? fallback` yields. */
  ghost predicate FlagOr(store: Store, key: string, fallback: bool, r: bool) {
    && (key in store && store[key].Flag? ==> r == store[key].flag)
    && (key !in store ==> r == fallback)
  }

  /** `r` is what `get<number>(key) ?? fallback` yields. */
  ghost predicate NumberOr(store: Store, key: string, fallback: int, r: int) {
    && (key in store && store[key].Num? ==> r == store[key].num)
    && (key !in store ==> r == fallback)
  }

  /** A numeric setting is present under `key`, so `Number(get(key))` is not NaN. */
  predicate HasNumber(store: Store, key: string) {
    key in store && store[key].Num?
  }

  function GetString(store: Store, key: string, fallback: string): (r: string)
    ensures StringOr(store, key, fallback, r)
  {
    if key in store && store[key].Str? then store[key].str else fallback
  }

  function GetFlag(store: Store, key: string, fallback: bool): (r: bool)
    ensures FlagOr(store, key, fallback, r)
  {
    if key in store && store[key].Flag? then store[key].flag else fallback
  }

  function GetNumberOr(store: Store, key: string, fallback: int): (r: int)
    ensures NumberOr(store, key, fallback, r)
  {
    if key in store && store[key].Num? then store[key].num else fallback
  }

  /** `Number(get<number>(key))` on a present numeric setting. */
  function GetNumber(store: Store, key: string): (r: int)
    requires HasNumber(store, key)
    ensures store[key] == Num(r)
  {
    store[key].num
  }

  /** Two stores that agree on `key`: both lack it, or both hold the same value under it. */
  ghost predicate AgreeOn(s: Store, t: Store, key: string) {
    (key in s <==> key in t) && (key in s ==> s[key] == t[key])
  }
}
