/** `ProviderManager` of `common/provider.rs`: a process-wide registry of RPC
    providers keyed by network; `get_provider` answers `None` for a network
    that was never set. */
module Provider {
  import opened Wrappers
  import opened Defines
  import opened Registry

  class ProviderManager<P> {
    var providers: map<NetworkType, P>

    /** `instance()`: the registry starts empty. */
    constructor Instance()
      ensures providers == map[]
    {
      providers := map[];
    }

    /** `set_provider`: insert, replacing any earlier provider for the network. */
    method SetProvider(network: NetworkType, provider: P)
      modifies this
      ensures providers == old(providers)[network := provider]
      ensures Lookup(providers, network) == Some(provider)
      ensures forall n :: n != network ==> Lookup(providers, n) == Lookup(old(providers), n)
    {
      providers := providers[network := provider];
    }

    /** `get_provider`: `Some` of the stored provider, `None` (through `?`) when absent. */
    method GetProvider(network: NetworkType) returns (r: Option<P>)
      ensures r.Some? <==> network in providers
      ensures r.Some? ==> r.value == providers[network]
    {
      if network in providers {
        r := Some(providers[network]);
      } else {
        r := None;
      }
    }
  }
}
