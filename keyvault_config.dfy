/**
 * `KeyVaultConfigService` (src/config/secrets/keyvault/config.service.ts):
 * exchanges a secret reference for its value through the Azure key vault,
 * remembering every value it obtained for the rest of the process.
 *
 * The vault client (`SecretClient.getSecret`) is an oracle `Vault`: for a
 * secret name it either answers with the secret's `value`, which may be
 * undefined, or throws. `Resolve` and `ResolveAll` are the specification of
 * one resolution and of a run of sequential resolutions, as functions of the
 * cache before them; the class holds the cache and is proved against them.
 */
module KeyVault {
  import opened Wrappers
  import opened ConfigStore

  /** The outcome of one `getSecret(name)` round trip. */
  datatype VaultReply = Found(value: Option<string>) | Failed(cause: string)

  type Vault = string -> VaultReply

  /** What `getKeyVaultSecret` throws. */
  datatype SecretError =
    | KeyMissing                // the vault had no value, or an empty one
    | VaultError(cause: string) // the client's own error, rethrown unchanged
  {
    function Message(): (m: string)
      ensures KeyMissing? ==> m == "Key doesn't exist"
    {
      match this
      case KeyMissing => "Key doesn't exist"
      case VaultError(cause) => cause
    }
  }

  /** A reply that `getKeyVaultSecret` turns into an error: a thrown client error, or an absent or empty value. */
  predicate Unusable(reply: VaultReply) {
    reply.Failed? || reply.value.GetOr("") == ""
  }

  /** The cache invariant: no reference is ever remembered with an empty value. */
  ghost predicate AllNonEmpty(cache: map<string, string>) {
    forall k :: k in cache ==> cache[k] != ""
  }

  /** `after` keeps every entry of `before`. */
  ghost predicate Extends(before: map<string, string>, after: map<string, string>) {
    forall k :: k in before ==> k in after && after[k] == before[k]
  }

  /** One resolution: its result, the cache after it and the names it asked the vault for. */
  datatype Step = Step(result: Result<string, SecretError>, cache: map<string, string>, calls: seq<string>)

  function Resolve(cache: map<string, string>, key: string, vault: Vault): (s: Step)
    ensures s.result.Success? ==> key in s.cache && s.cache[key] == s.result.value
    ensures s.calls == [] || s.calls == [key]
  {
    if key in cache then
      Step(Success(cache[key]), cache, [])
    else
      match vault(key)
      case Failed(cause) => Step(Failure(VaultError(cause)), cache, [key])
      case Found(value) =>
        var v := value.GetOr("");
        if |v| == 0 then Step(Failure(KeyMissing), cache, [key])
        else Step(Success(v), cache[key := v], [key])
  }

  /**
   * What one resolution does: a hit asks no vault and changes nothing; a miss
   * asks once and caches exactly a usable value, returning what the vault
   * sent; a success leaves its value cached; the cache invariant survives.
   */
  lemma ResolveStep(cache: map<string, string>, key: string, vault: Vault)
    ensures var s := Resolve(cache, key, vault);
            && (key in cache ==> s == Step(Success(cache[key]), cache, []))
            && (key !in cache ==> s.calls == [key] && (s.result.Success? <==> !Unusable(vault(key))))
            && (key !in cache && s.result.Success? ==> vault(key) == Found(Some(s.result.value)))
            && (s.result.Success? ==> key in s.cache && s.cache[key] == s.result.value)
            && (s.cache == cache || (s.result.Success? && key !in cache && s.cache == cache[key := s.result.value]))
            && (AllNonEmpty(cache) ==> AllNonEmpty(s.cache) && (s.result.Success? ==> s.result.value != ""))
  {
  }

  /** Idempotence: once a reference resolved, resolving it again yields the same value and asks no vault. */
  lemma ResolveAgain(cache: map<string, string>, key: string, vault: Vault, later: Vault)
    requires Resolve(cache, key, vault).result.Success?
    ensures var s := Resolve(cache, key, vault);
            Resolve(s.cache, key, later) == Step(s.result, s.cache, [])
  {
  }

  /** A failed resolution leaves nothing behind, so the next attempt asks the vault again. */
  lemma RetryAfterFailure(cache: map<string, string>, key: string, vault: Vault, later: Vault)
    requires key !in cache
    requires Resolve(cache, key, vault).result.Failure?
    ensures Resolve(Resolve(cache, key, vault).cache, key, later).calls == [key]
  {
  }

  /** The outcome of resolving several references one after another. */
  datatype Run = Run(results: Result<seq<string>, SecretError>, cache: map<string, string>, calls: seq<string>)

  /** No name occurs twice in `s`. */
  ghost predicate Distinct(s: seq<string>) {
    forall i, j :: 0 <= i < j < |s| ==> s[i] != s[j]
  }

  /**
   * Sequential resolution that stops at the first error, as consecutive
   * `await`s do. Entries cached before the error stay cached.
   */
  function ResolveAll(cache: map<string, string>, keys: seq<string>, vault: Vault): (run: Run)
    ensures run.results.Success? ==> |run.results.value| == |keys|
    ensures |run.calls| <= |keys|
    decreases |keys|
  {
    if keys == [] then
      Run(Success([]), cache, [])
    else
      var first := Resolve(cache, keys[0], vault);
      if first.result.Failure? then
        Run(Failure(first.result.error), first.cache, first.calls)
      else
        var rest := ResolveAll(first.cache, keys[1..], vault);
        var results := if rest.results.Success? then Success([first.result.value] + rest.results.value)
                       else Failure(rest.results.error);
        Run(results, rest.cache, first.calls + rest.calls)
  }

  /** One unfolding of `ResolveAll`: the first reference, then the rest from the cache it left. */
  lemma ResolveAllFirst(cache: map<string, string>, keys: seq<string>, vault: Vault)
    requires keys != []
    ensures var first := Resolve(cache, keys[0], vault);
            var run := ResolveAll(cache, keys, vault);
            && (first.result.Failure? ==> run == Run(Failure(first.result.error), first.cache, first.calls))
            && (first.result.Success? ==>
                  var rest := ResolveAll(first.cache, keys[1..], vault);
                  && run.cache == rest.cache && run.calls == first.calls + rest.calls
                  && (rest.results.Success? ==> run.results == Success([first.result.value] + rest.results.value))
                  && (rest.results.Failure? ==> run.results == Failure(rest.results.error)))
  {
  }

  /** A run only adds entries, each for one of its references, and keeps the cache invariant. */
  lemma {:induction false} ResolveAllExtends(cache: map<string, string>, keys: seq<string>, vault: Vault)
    ensures var run := ResolveAll(cache, keys, vault);
            && Extends(cache, run.cache)
            && (forall k :: k in run.cache ==> k in cache || k in keys)
            && (AllNonEmpty(cache) ==> AllNonEmpty(run.cache))
    decreases |keys|
  {
    if keys != [] {
      ResolveStep(cache, keys[0], vault);
      var first := Resolve(cache, keys[0], vault);
      if first.result.Success? {
        ResolveAllExtends(first.cache, keys[1..], vault);
      }
    }
  }

  /** A successful run yields one value per reference, each the value the cache then holds for it. */
  lemma {:induction false} ResolveAllValues(cache: map<string, string>, keys: seq<string>, vault: Vault)
    ensures var run := ResolveAll(cache, keys, vault);
            run.results.Success? ==>
              && |run.results.value| == |keys|
              && forall i :: 0 <= i < |keys| ==> keys[i] in run.cache && run.results.value[i] == run.cache[keys[i]]
    decreases |keys|
  {
    if keys != [] {
      ResolveStep(cache, keys[0], vault);
      var first := Resolve(cache, keys[0], vault);
      if first.result.Success? {
        ResolveAllValues(first.cache, keys[1..], vault);
        ResolveAllExtends(first.cache, keys[1..], vault);
        var run := ResolveAll(cache, keys, vault);
        if run.results.Success? {
          forall i | 0 <= i < |keys|
            ensures keys[i] in run.cache && run.results.value[i] == run.cache[keys[i]]
          {
            if i > 0 {
              assert keys[i] == keys[1..][i - 1];
            }
          }
        }
      }
    }
  }

  /** The vault is asked only for uncached references, never twice for one, and on success for every one of them. */
  lemma {:induction false} ResolveAllCalls(cache: map<string, string>, keys: seq<string>, vault: Vault)
    ensures var run := ResolveAll(cache, keys, vault);
            && (forall k :: k in run.calls ==> k in keys && k !in cache)
            && Distinct(run.calls)
            && (run.results.Success? ==> forall k :: k in keys && k !in cache ==> k in run.calls)
    decreases |keys|
  {
    if keys != [] {
      ResolveStep(cache, keys[0], vault);
      var first := Resolve(cache, keys[0], vault);
      if first.result.Success? {
        ResolveAllCalls(first.cache, keys[1..], vault);
        var rest := ResolveAll(first.cache, keys[1..], vault);
        var run := ResolveAll(cache, keys, vault);
        assert run.calls == first.calls + rest.calls;
        forall k | k in run.calls ensures k in keys && k !in cache {
          if k in rest.calls {
            assert k in keys[1..];
          }
        }
        if run.results.Success? {
          forall k | k in keys && k !in cache ensures k in run.calls {
            if k != keys[0] {
              var i :| 0 <= i < |keys| && keys[i] == k;
              assert keys[1..][i - 1] == k;
            }
          }
        }
      }
    }
  }

  /**
   * With distinct, uncached references, a run asks the vault for a prefix of
   * them, in order, one each: all of them when it succeeds, and up to the
   * first one the vault could not supply when it fails.
   */
  lemma {:induction false} ResolveAllCallsInOrder(cache: map<string, string>, keys: seq<string>, vault: Vault)
    requires Distinct(keys)
    requires forall k :: k in keys ==> k !in cache
    ensures keys != [] ==> ResolveAll(cache, keys, vault).calls != []
    ensures var run := ResolveAll(cache, keys, vault); run.calls == keys[..|run.calls|]
    ensures var run := ResolveAll(cache, keys, vault); run.results.Success? ==> run.calls == keys
    ensures var run := ResolveAll(cache, keys, vault);
            run.results.Failure? ==> run.calls != [] && Unusable(vault(run.calls[|run.calls| - 1]))
    decreases |keys|
  {
    if keys != [] {
      ResolveAllFirst(cache, keys, vault);
      ResolveStep(cache, keys[0], vault);
      var first := Resolve(cache, keys[0], vault);
      var run := ResolveAll(cache, keys, vault);
      if first.result.Failure? {
        assert run.calls == [keys[0]] == keys[..1];
      } else {
        var tail := keys[1..];
        assert Distinct(tail) by {
          forall i, j | 0 <= i < j < |tail| ensures tail[i] != tail[j] {
            assert tail[i] == keys[i + 1] && tail[j] == keys[j + 1];
          }
        }
        forall k | k in tail ensures k !in first.cache {
          assert k in keys && k != keys[0];
        }
        ResolveAllCallsInOrder(first.cache, tail, vault);
        var rest := ResolveAll(first.cache, tail, vault);
        assert run.calls == [keys[0]] + rest.calls;
        assert keys[..|run.calls|] == [keys[0]] + tail[..|rest.calls|];
        if run.results.Failure? {
          assert run.calls[|run.calls| - 1] == rest.calls[|rest.calls| - 1];
        } else {
          assert keys == [keys[0]] + tail;
        }
      }
    }
  }

  /** When every reference is already cached, a run asks no vault and changes nothing. */
  lemma {:induction false} ResolveAllCached(cache: map<string, string>, keys: seq<string>, vault: Vault)
    requires forall k :: k in keys ==> k in cache
    ensures ResolveAll(cache, keys, vault).calls == []
    ensures ResolveAll(cache, keys, vault).cache == cache
    ensures ResolveAll(cache, keys, vault).results.Success?
    decreases |keys|
  {
    if keys != [] {
      ResolveStep(cache, keys[0], vault);
      ResolveAllCached(cache, keys[1..], vault);
    }
  }

  /** Idempotence of a whole run: repeating a successful run gives the same values with zero vault calls. */
  lemma ResolveAllAgain(cache: map<string, string>, keys: seq<string>, vault: Vault, later: Vault)
    requires ResolveAll(cache, keys, vault).results.Success?
    ensures var run := ResolveAll(cache, keys, vault);
            ResolveAll(run.cache, keys, later) == Run(run.results, run.cache, [])
  {
    var run := ResolveAll(cache, keys, vault);
    ResolveAllValues(cache, keys, vault);
    ResolveAllCached(run.cache, keys, later);
    ResolveAllValues(run.cache, keys, later);
    var again := ResolveAll(run.cache, keys, later);
    assert again.results.value == run.results.value;
  }

  /** A sequence without repetitions has as many elements as the set of its elements. */
  lemma {:induction false} DistinctCardinality(s: seq<string>)
    requires Distinct(s)
    ensures |set k | k in s| == |s|
  {
    if s != [] {
      DistinctCardinality(s[1..]);
      assert (set k | k in s) == (set k | k in s[1..]) + {s[0]};
      assert s[0] !in (set k | k in s[1..]);
    }
  }

  /** A successful run asks the vault exactly once for each distinct reference that was not cached. */
  lemma ResolveAllCallCount(cache: map<string, string>, keys: seq<string>, vault: Vault)
    requires ResolveAll(cache, keys, vault).results.Success?
    ensures |ResolveAll(cache, keys, vault).calls| == |(set k | k in keys) - cache.Keys|
  {
    var run := ResolveAll(cache, keys, vault);
    ResolveAllCalls(cache, keys, vault);
    DistinctCardinality(run.calls);
    assert (set k | k in run.calls) == (set k | k in keys) - cache.Keys;
  }

  /** A reference the vault cannot supply, and that is not cached, makes the whole run fail. */
  lemma {:induction false} UnusableReferenceFails(cache: map<string, string>, keys: seq<string>, vault: Vault, i: nat)
    requires i < |keys| && keys[i] !in cache && Unusable(vault(keys[i]))
    ensures ResolveAll(cache, keys, vault).results.Failure?
    decreases i
  {
    ResolveStep(cache, keys[0], vault);
    if i > 0 {
      var first := Resolve(cache, keys[0], vault);
      if first.result.Success? {
        assert keys[0] != keys[i];
        assert keys[1..][i - 1] == keys[i];
        UnusableReferenceFails(first.cache, keys[1..], vault, i - 1);
      }
    }
  }

  /**
   * After a successful run, every reference that was not cached before holds
   * exactly the non-empty value the vault sent for it.
   */
  lemma {:induction false} ResolveAllFresh(cache: map<string, string>, keys: seq<string>, vault: Vault)
    ensures var run := ResolveAll(cache, keys, vault);
            run.results.Success? ==>
              forall k :: k in keys && k !in cache ==>
                k in run.cache && vault(k) == Found(Some(run.cache[k])) && run.cache[k] != ""
    decreases |keys|
  {
    if keys != [] {
      ResolveStep(cache, keys[0], vault);
      var first := Resolve(cache, keys[0], vault);
      if first.result.Success? {
        ResolveAllFresh(first.cache, keys[1..], vault);
        ResolveAllExtends(first.cache, keys[1..], vault);
        var run := ResolveAll(cache, keys, vault);
        forall k | run.results.Success? && k in keys && k !in cache
          ensures k in run.cache && vault(k) == Found(Some(run.cache[k])) && run.cache[k] != ""
        {
          if k != keys[0] {
            var i :| 0 <= i < |keys| && keys[i] == k;
            assert keys[1..][i - 1] == k;
          }
        }
      }
    }
  }

  /** A resolved value is the one cached before the run, or else exactly what the vault sent. */
  ghost predicate Provenance(cache: map<string, string>, vault: Vault, key: string, value: string) {
    && (key in cache ==> value == cache[key])
    && (key !in cache ==> vault(key) == Found(Some(value)))
  }

  /** Each value of a successful run comes from the cache it started with, or else from the vault. */
  lemma ResolveAllProvenance(cache: map<string, string>, keys: seq<string>, vault: Vault)
    ensures var run := ResolveAll(cache, keys, vault);
            run.results.Success? ==>
              forall i :: 0 <= i < |keys| ==> Provenance(cache, vault, keys[i], run.results.value[i])
  {
    var run := ResolveAll(cache, keys, vault);
    if run.results.Success? {
      ResolveAllValues(cache, keys, vault);
      ResolveAllExtends(cache, keys, vault);
      ResolveAllFresh(cache, keys, vault);
      forall i | 0 <= i < |keys| ensures Provenance(cache, vault, keys[i], run.results.value[i]) {
        assert keys[i] in keys;
      }
    }
  }

  /** The converse of `UnusableReferenceFails`: when every reference is cached or supplied, the run succeeds. */
  lemma {:induction false} UsableReferencesSucceed(cache: map<string, string>, keys: seq<string>, vault: Vault)
    requires forall k :: k in keys ==> k in cache || !Unusable(vault(k))
    ensures ResolveAll(cache, keys, vault).results.Success?
    decreases |keys|
  {
    if keys != [] {
      ResolveStep(cache, keys[0], vault);
      var first := Resolve(cache, keys[0], vault);
      forall k | k in keys[1..] ensures k in first.cache || !Unusable(vault(k)) {
        assert k in keys;
      }
      UsableReferencesSucceed(first.cache, keys[1..], vault);
    }
  }

  /** The service object: the secret cache (a `Map` updated in place) and the client's vault URL. */
  class KeyVaultConfigService {
    const configService: Store
    /** The URL the `SecretClient` was built with. */
    const clientUrl: string
    var secretCache: map<string, string>
    /** How many `getSecret` round trips this service has made. */
    ghost var vaultCalls: nat

    ghost predicate Valid()
      reads this
    {
      AllNonEmpty(secretCache)
    }

    /** `get keyVaultUrl`: the configured `keyvault.keyVaultUrl`, or '' when it is absent. */
    function KeyVaultUrl(): (r: string)
      ensures StringOr(configService, "keyvault.keyVaultUrl", "", r)
    {
      GetString(configService, "keyvault.keyVaultUrl", "")
    }

    constructor (configService: Store)
      ensures Valid()
      ensures secretCache == map[] && vaultCalls == 0
      ensures this.configService == configService && clientUrl == KeyVaultUrl()
    {
      this.configService := configService;
      clientUrl := GetString(configService, "keyvault.keyVaultUrl", "");
      secretCache := map[];
      vaultCalls := 0;
    }

    method GetKeyVaultSecret(secretKey: string, vault: Vault) returns (r: Result<string, SecretError>)
      requires Valid()
      modifies this
      ensures Valid()
      ensures var step := Resolve(old(secretCache), secretKey, vault);
              r == step.result && secretCache == step.cache && vaultCalls == old(vaultCalls) + |step.calls|
      // a hit: the cached value, no vault call, cache unchanged
      ensures secretKey in old(secretCache) ==>
                r == Success(old(secretCache)[secretKey]) && secretCache == old(secretCache) && vaultCalls == old(vaultCalls)
      // a miss: exactly one vault call
      ensures secretKey !in old(secretCache) ==> vaultCalls == old(vaultCalls) + 1
      ensures secretKey !in old(secretCache) && vault(secretKey).Failed? ==>
                r == Failure(VaultError(vault(secretKey).cause)) && secretCache == old(secretCache)
      ensures secretKey !in old(secretCache) && vault(secretKey).Found? && vault(secretKey).value.GetOr("") == "" ==>
                r == Failure(KeyMissing) && secretCache == old(secretCache)
      ensures secretKey !in old(secretCache) && !Unusable(vault(secretKey)) ==>
                var v := vault(secretKey).value.GetOr("");
                r == Success(v) && secretCache == old(secretCache)[secretKey := v]
      ensures r.Success? ==> r.value != ""
    {
      if secretKey in secretCache {
        var secretFromCache := secretCache[secretKey];
        return Success(secretFromCache);
      }
      vaultCalls := vaultCalls + 1;
      var secret := vault(secretKey);
      match secret
      case Failed(cause) =>
        r := Failure(VaultError(cause));
      case Found(value) =>
        var secretFromKeyvault := value.GetOr("");
        if |secretFromKeyvault| == 0 {
          r := Failure(KeyMissing);
        } else {
          secretCache := secretCache[secretKey := secretFromKeyvault];
          r := Success(secretFromKeyvault);
        }
    }
  }
}
