/** `ProviderManager` of `common/provider_manager.rs`: the same registry with
    the map behind a `RefCell`; `get_provider` also returns `None` through `?`. */
module ProviderManagerCell {
  import opened Wrappers
  import opened Defines
  import opened Registry

  class ProviderManager<P> {
    var providers: map<NetworkType, P>

    /** `instance()`: the registry starts empty. */
    constructor Instance()
      ensures providers == map[]
    {
      providers := map[];
    }

    /** `set_provider`: `borrow_mut().insert`, replacing any earlier provider. */
    method SetProvider(network: NetworkType, provider: P)
      modifies this
      ensures providers == old(providers)[network := provider]
      ensures Lookup(providers, network) == Some(provider)
      ensures forall n :: n != network ==> Lookup(providers, n) == Lookup(old(providers), n)
    {
      providers := providers[network := provider];
    }

    /** `get_provider`: `borrow().get(..)?`, then `Some` of a copy. */
    method GetProvider(network: NetworkType) returns (r: Option<P>)
      ensures r == Lookup(providers, network)
      ensures r.None? ==> network !in providers
    {
      var found := Lookup(providers, network);
      if found.None? {
        return None;
      }
      r := Some(found.value);
    }
  }
}
