/**
 * `get_client` and the process-wide `CLIENTS` map: one client per cache key, where the key
 * is made from the caller's module and keyword options only. The service name is not part
 * of the key; it goes into the tags of the client built on a miss.
 */
module Registry {
  import opened Wrappers
  import opened Tags
  import opened Client

  /**
   * The keyword options of `get_client`: the optional `tags` dictionary and the options
   * handed to the underlying client, in the order given.
   */
  datatype Kwargs = Kwargs(tags: Option<Dict>, transport: seq<(string, string)>)

  /**
   * The cache key. The code hashes a canonical serialisation of `(module, kwargs)`; the
   * model keeps the pair itself, so equal inputs give equal keys and distinct inputs
   * distinct keys.
   */
  datatype CacheKey = CacheKey(moduleName: string, kwargs: Kwargs)

  /** The caller's tags, or an empty dictionary when `tags` was not passed. */
  function CallerTags(kwargs: Kwargs): Dict {
    match kwargs.tags
    case Some(t) => t
    case None => []
  }

  /**
   * The tags of a client built on a miss: the caller's tags updated with `module` and then
   * `service`. Both are set; every other tag is the caller's; the caller's keys keep
   * their order and the two names are appended when they were not already present.
   */
  function ClientTags(service: string, moduleName: string, kwargs: Kwargs): (r: Dict)
    ensures Lookup(r, "module") == Some(moduleName)
    ensures Lookup(r, "service") == Some(service)
    ensures forall k :: k != "module" && k != "service" ==> Lookup(r, k) == Lookup(CallerTags(kwargs), k)
    ensures Keys(r) == Keys(CallerTags(kwargs))
                       + (if "module" in Keys(CallerTags(kwargs)) then [] else ["module"])
                       + (if "service" in Keys(CallerTags(kwargs)) then [] else ["service"])
  {
    var caller := CallerTags(kwargs);
    UpdateModuleService(caller, moduleName, service);
    Update(caller, [("module", moduleName), ("service", service)])
  }

  /** What updating a tag set with `module` and then `service` sets and keeps. */
  lemma UpdateModuleService(caller: Dict, moduleName: string, service: string)
    ensures DistinctKeys([("module", moduleName), ("service", service)])
    ensures var r := Update(caller, [("module", moduleName), ("service", service)]);
      && Lookup(r, "module") == Some(moduleName)
      && Lookup(r, "service") == Some(service)
      && (forall k :: k != "module" && k != "service" ==> Lookup(r, k) == Lookup(caller, k))
      && Keys(r) == Keys(caller)
                    + (if "module" in Keys(caller) then [] else ["module"])
                    + (if "service" in Keys(caller) then [] else ["service"])
  {
    var withModule := Put(caller, "module", moduleName);
    var r := Put(withModule, "service", service);
    UpdateTwo(caller, "module", moduleName, "service", service);
    PutLookup(caller, "module", moduleName, "module");
    PutLookup(withModule, "service", service, "module");
    PutLookup(withModule, "service", service, "service");
    forall k | k != "module" && k != "service" ensures Lookup(r, k) == Lookup(caller, k) {
      PutLookup(caller, "module", moduleName, k);
      PutLookup(withModule, "service", service, k);
    }
    AddTwoKeys(Keys(caller), "module", "service");
  }

  /** Adding key `a` and then key `b` to a key list, each only when missing. */
  lemma AddTwoKeys(ks: seq<string>, a: string, b: string)
    requires a != b
    ensures var withA := if a in ks then ks else ks + [a];
      (if b in withA then withA else withA + [b])
      == ks + (if a in ks then [] else [a]) + (if b in ks then [] else [b])
  {
    assert ks + [] == ks;
    assert b in ks + [a] <==> b in ks;
  }

  /** With no caller tags, the tags are exactly `module` then `service`. */
  lemma ClientTagsWithoutCallerTags(service: string, moduleName: string, transport: seq<(string, string)>)
    ensures ClientTags(service, moduleName, Kwargs(None, transport)) == [("module", moduleName), ("service", service)]
  {
    var t: Dict := [("module", moduleName), ("service", service)];
    UpdateDisjoint([], t);
    assert [] + t == t;
  }

  /** The `CLIENTS` map. */
  class Registry {
    var clients: map<CacheKey, StatsClient>

    /** Distinct keys never share a client. */
    ghost predicate Valid()
      reads this
    {
      forall k1, k2 :: k1 in clients && k2 in clients && k1 != k2 ==> clients[k1] != clients[k2]
    }

    constructor ()
      ensures Valid() && clients == map[]
    {
      clients := map[];
    }

    /**
     * `get_client(service, module, **kwargs)`. On a hit the stored client is returned and
     * the map is unchanged, whatever the service. On a miss exactly one entry is added,
     * for a new client tagged with the caller's tags, `module` and `service`. Either way
     * no other key holds the returned client.
     */
    method GetClient(service: string, moduleName: string, kwargs: Kwargs) returns (c: StatsClient)
      requires Valid()
      modifies this
      ensures Valid()
      ensures CacheKey(moduleName, kwargs) in clients && clients[CacheKey(moduleName, kwargs)] == c
      ensures forall k :: k in clients && k != CacheKey(moduleName, kwargs) ==> clients[k] != c
      ensures CacheKey(moduleName, kwargs) in old(clients) ==>
        clients == old(clients) && c == old(clients)[CacheKey(moduleName, kwargs)]
      ensures CacheKey(moduleName, kwargs) !in old(clients) ==>
        && clients == old(clients)[CacheKey(moduleName, kwargs) := c]
        && fresh(c) && c.tags == ClientTags(service, moduleName, kwargs) && c.sent == []
    {
      var key := CacheKey(moduleName, kwargs);
      if key in clients {
        c := clients[key];
      } else {
        var tags := ClientTags(service, moduleName, kwargs);
        c := new StatsClient(tags);
        clients := clients[key := c];
      }
    }
  }

  /**
   * Two requests from the same module with the same options get the same client, even
   * when the services differ. The registry ends holding that client under their key and
   * is otherwise as before; the second request leaves it as the first left it. On a hit
   * the client is the stored one; on a miss it carries the first service's tags.
   */
  method GetClientTwice(registry: Registry, s1: string, s2: string, moduleName: string, kwargs: Kwargs)
    returns (c1: StatsClient, c2: StatsClient)
    requires registry.Valid()
    modifies registry
    ensures registry.Valid()
    ensures c1 == c2
    ensures registry.clients == old(registry.clients)[CacheKey(moduleName, kwargs) := c1]
    ensures CacheKey(moduleName, kwargs) in old(registry.clients) ==> c1 == old(registry.clients)[CacheKey(moduleName, kwargs)]
    ensures CacheKey(moduleName, kwargs) !in old(registry.clients) ==> c1.tags == ClientTags(s1, moduleName, kwargs)
  {
    c1 := registry.GetClient(s1, moduleName, kwargs);
    var between := registry.clients;
    c2 := registry.GetClient(s2, moduleName, kwargs);
    assert registry.clients == between;
  }
}
