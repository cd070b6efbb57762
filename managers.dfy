/** `ProviderManager` of `common/managers.rs`: the same registry, but
    `get_provider` unwraps the lookup, so it panics on a network that was
    never set and otherwise always answers `Some`. */
module Managers {
  import opened Wrappers
  import opened Defines
  import opened Registry

  class ProviderManager<P> {
    var providers: map<NetworkType, P>

    /** `instance()`: the registry starts empty. */
    constructor Instance()
      ensures providers == map[]
    {
      providers := map[];
    }

    /** `set_provider`: `borrow_mut().insert`, replacing any earlier provider. */
    method SetProvider(network: NetworkType, provider: P)
      modifies this
      ensures providers == old(providers)[network := provider]
      ensures Lookup(providers, network) == Some(provider)
      ensures forall n :: n != network ==> Lookup(providers, n) == Lookup(old(providers), n)
    {
      providers := providers[network := provider];
    }

    /** `get_provider`: the `unwrap` panics unless the network was set, so the
        caller must have set it; the answer is never `None`. */
    method GetProvider(network: NetworkType) returns (r: Option<P>)
      requires network in providers
      ensures r == Some(providers[network])
    {
      r := Some(providers[network]);
    }
  }
}
