/** `apis/v1/namiland_erc1155.rs`: the two NamiLand game-item handlers. Each
    validates its parameters in a fixed order, answering 400 at the first
    bad one before any service is built, then maps the service's answer to a
    `NecoResponse`. `U256::from_dec_str` and `str::parse::<Address>` are the
    parameters `parseU256` and `parseAddress`. */
module NamiLandApi {
  import opened Wrappers
  import opened Models
  import opened ResponseModel
  import opened NamiLandService
  import Defines

  datatype MetadataRequest = MetadataRequest(chainId: U8, nftId: string)

  datatype OwnershipRequest = OwnershipRequest(chainId: U8, gameClient: U8, publicAddress: string)

  /** The chain id: 1 is Ethereum main net, 5 is Goerli. */
  function DecodeChainId(chainId: U8): (r: Option<NetworkType>)
    ensures r.Some? <==> chainId == 1 || chainId == 5
    ensures r.Some? ==> ChainIdOf(r.value) == chainId
  {
    match chainId
    case 1 => Some(EthereumMainnet)
    case 5 => Some(GoerliTestnet)
    case _ => None
  }

  /** The EIP-155 chain id of a network. */
  function ChainIdOf(network: NetworkType): U8 {
    match network
    case EthereumMainnet => 1
    case GoerliTestnet => 5
  }

  /** The decoder inverts `ChainIdOf` and accepts no other id. */
  lemma DecodeChainIdInverts(chainId: U8, network: NetworkType)
    ensures DecodeChainId(ChainIdOf(network)) == Some(network)
    ensures DecodeChainId(chainId) == Some(network) <==> chainId == ChainIdOf(network)
    ensures DecodeChainId(chainId).None? <==> chainId != 1 && chainId != 5
  {
  }

  /** The game-client code: only 0 (NamiLand) is served. */
  function DecodeGameClient(code: U8): (r: Option<GameClient>)
    ensures r.Some? <==> code == 0
  {
    if code == 0 then Some(NamiLand) else None
  }

  /** The contract a constructed service calls:
      `NamiLandERC1155Contract::new(address, client)` for the network's
      provider and contract address. */
  function ContractOf<P>(
    network: NetworkType,
    providerOf: NetworkType -> Option<P>,
    addressOf: NetworkType -> Result<Address, string>,
    contractOf: (P, Address) -> Remote
  ): Remote
    requires NewService(network, providerOf, addressOf).Success?
  {
    var service := NewService(network, providerOf, addressOf).value;
    contractOf(service.provider, service.contractAddress)
  }

  /** The checks of `get_nft_metadata`, in their order: chain id, nft id,
      service construction. The error is the message of the 400 answer. */
  function ValidateMetadataRequest<P>(
    request: MetadataRequest,
    parseU256: string -> Option<nat>,
    providerOf: NetworkType -> Option<P>,
    addressOf: NetworkType -> Result<Address, string>
  ): (r: Result<nat, string>)
    ensures DecodeChainId(request.chainId).None? ==> r == Failure("chain id is not supported")
    ensures DecodeChainId(request.chainId).Some? && parseU256(request.nftId).None? ==> r == Failure("nft id is invalid")
    ensures DecodeChainId(request.chainId).Some? && parseU256(request.nftId).Some? ==>
              var service := NewService(DecodeChainId(request.chainId).value, providerOf, addressOf);
              (service.Failure? ==> r == Failure(service.error)) &&
              (service.Success? ==> r == Success(parseU256(request.nftId).value))
  {
    match DecodeChainId(request.chainId)
    case None => Failure("chain id is not supported")
    case Some(network) =>
      match parseU256(request.nftId)
      case None => Failure("nft id is invalid")
      case Some(nftId) =>
        match NewService(network, providerOf, addressOf)
        case Failure(e) => Failure(e)
        case Success(_) => Success(nftId)
  }

  /** A bad chain id is reported whatever the nft id, and a bad nft id whatever the providers. */
  lemma MetadataChecksInOrder<P>(
    request: MetadataRequest,
    otherNftId: string,
    parseU256: string -> Option<nat>,
    providerOf: NetworkType -> Option<P>,
    otherProviderOf: NetworkType -> Option<P>,
    addressOf: NetworkType -> Result<Address, string>
  )
    ensures DecodeChainId(request.chainId).None? ==>
              ValidateMetadataRequest(request, parseU256, providerOf, addressOf) ==
              ValidateMetadataRequest(request.(nftId := otherNftId), parseU256, otherProviderOf, addressOf)
    ensures parseU256(request.nftId).None? ==>
              ValidateMetadataRequest(request, parseU256, providerOf, addressOf) ==
              ValidateMetadataRequest(request, parseU256, otherProviderOf, addressOf)
  {
  }

  /** `get_nft_metadata`: a failed check answers 400 with its message and
      touches no cache; otherwise the metadata lookup answers 200 with the
      metadata, or 400 with the lookup's error. */
  method GetNftMetadata<P>(
    caches: MetadataCaches,
    request: MetadataRequest,
    parseU256: string -> Option<nat>,
    providerOf: NetworkType -> Option<P>,
    addressOf: NetworkType -> Result<Address, string>,
    contractOf: (P, Address) -> Remote
  ) returns (response: NecoResponse<NFTMetadata>)
    modifies caches
    ensures var v := ValidateMetadataRequest(request, parseU256, providerOf, addressOf);
            v.Failure? ==> response == Err(BadRequest, v.error) && caches.State() == old(caches.State())
    ensures var v := ValidateMetadataRequest(request, parseU256, providerOf, addressOf);
            v.Success? ==>
              var remote := ContractOf(DecodeChainId(request.chainId).value, providerOf, addressOf, contractOf);
              var lookup := MetadataLookup(old(caches.State()), remote, v.value);
              caches.State() == CachesAfter(old(caches.State()), remote, v.value) &&
              (lookup.Success? ==> response == Ok(lookup.value)) &&
              (lookup.Failure? ==> response == Err(BadRequest, lookup.error))
  {
    var network;
    match DecodeChainId(request.chainId) {
      case None =>
        return Err(BadRequest, "chain id is not supported");
      case Some(n) =>
        network := n;
    }
    var nftId;
    match parseU256(request.nftId) {
      case None =>
        return Err(BadRequest, "nft id is invalid");
      case Some(id) =>
        nftId := id;
    }
    var remote;
    match NewService(network, providerOf, addressOf) {
      case Failure(e) =>
        return Err(BadRequest, e);
      case Success(service) =>
        remote := contractOf(service.provider, service.contractAddress);
    }
    var metadata, _ := caches.GetMetadataByNftId(remote, nftId);
    match metadata {
      case Success(m) =>
        response := Ok(m);
      case Failure(e) =>
        response := Err(BadRequest, e);
    }
  }

  /** The checks of `get_nft_ownership`, in their order: game client, chain
      id, public address, service construction. */
  function ValidateOwnershipRequest<P>(
    request: OwnershipRequest,
    parseAddress: string -> Option<Address>,
    providerOf: NetworkType -> Option<P>,
    addressOf: NetworkType -> Result<Address, string>
  ): (r: Result<(Address, NetworkType), string>)
    ensures DecodeGameClient(request.gameClient).None? ==> r == Failure("game client type error")
    ensures DecodeGameClient(request.gameClient).Some? && DecodeChainId(request.chainId).None? ==>
              r == Failure("chain id is not supported")
    ensures DecodeGameClient(request.gameClient).Some? && DecodeChainId(request.chainId).Some? &&
              parseAddress(request.publicAddress).None? ==>
              r == Failure("public address is invalid")
    ensures DecodeGameClient(request.gameClient).Some? && DecodeChainId(request.chainId).Some? &&
              parseAddress(request.publicAddress).Some? ==>
              var service := NewService(DecodeChainId(request.chainId).value, providerOf, addressOf);
              (service.Failure? ==> r == Failure(service.error)) &&
              (service.Success? ==> r == Success((parseAddress(request.publicAddress).value, DecodeChainId(request.chainId).value)))
  {
    match DecodeGameClient(request.gameClient)
    case None => Failure("game client type error")
    case Some(_) =>
      match DecodeChainId(request.chainId)
      case None => Failure("chain id is not supported")
      case Some(network) =>
        match parseAddress(request.publicAddress)
        case None => Failure("public address is invalid")
        case Some(address) =>
          match NewService(network, providerOf, addressOf)
          case Failure(e) => Failure(e)
          case Success(_) => Success((address, network))
  }

  /** A validated request names a network whose contract address is known. */
  lemma ValidatedNetworkHasAddress<P>(
    request: OwnershipRequest,
    parseAddress: string -> Option<Address>,
    providerOf: NetworkType -> Option<P>,
    addressOf: NetworkType -> Result<Address, string>
  )
    requires ValidateOwnershipRequest(request, parseAddress, providerOf, addressOf).Success?
    ensures addressOf(ValidateOwnershipRequest(request, parseAddress, providerOf, addressOf).value.1).Success?
    ensures providerOf(ValidateOwnershipRequest(request, parseAddress, providerOf, addressOf).value.1).Some?
  {
  }

  /** `get_nft_ownership`: a failed check answers 400 with its message and
      touches no cache. Otherwise the report of the catalog is answered with
      200. The 500 answer for a failed report cannot occur here: the report's
      only failure is the contract-address lookup, which already succeeded
      while the service was built. */
  method GetNftOwnership<P>(
    caches: MetadataCaches,
    request: OwnershipRequest,
    parseAddress: string -> Option<Address>,
    providerOf: NetworkType -> Option<P>,
    addressOf: NetworkType -> Result<Address, string>,
    contractOf: (P, Address) -> Remote,
    catalog: seq<nat>,
    arrival: seq<nat>
  ) returns (response: NecoResponse<NFTOwnership>)
    requires Defines.Distinct(catalog)
    requires multiset(arrival) == multiset(catalog)
    requires var v := ValidateOwnershipRequest(request, parseAddress, providerOf, addressOf);
             v.Success? ==> BalancesFit(ContractOf(v.value.1, providerOf, addressOf, contractOf), v.value.0, catalog)
    modifies caches
    ensures var v := ValidateOwnershipRequest(request, parseAddress, providerOf, addressOf);
            v.Failure? ==> response == Err(BadRequest, v.error) && caches.State() == old(caches.State())
    ensures var v := ValidateOwnershipRequest(request, parseAddress, providerOf, addressOf);
            v.Success? ==>
              var (owner, network) := v.value;
              var remote := ContractOf(network, providerOf, addressOf, contractOf);
              response == Ok(NFTOwnership(AddressDebug(owner), network, AddressDisplay(addressOf(network).value),
                                          OwnershipItems(old(caches.State()), remote, owner, catalog))) &&
              caches.State() == CachesAfterAll(old(caches.State()), remote, owner, arrival)
  {
    var gameClient;
    match DecodeGameClient(request.gameClient) {
      case None =>
        return Err(BadRequest, "game client type error");
      case Some(g) =>
        gameClient := g;
    }
    var network;
    match DecodeChainId(request.chainId) {
      case None =>
        return Err(BadRequest, "chain id is not supported");
      case Some(n) =>
        network := n;
    }
    var owner;
    match parseAddress(request.publicAddress) {
      case None =>
        return Err(BadRequest, "public address is invalid");
      case Some(a) =>
        owner := a;
    }
    var remote;
    match NewService(network, providerOf, addressOf) {
      case Failure(e) =>
        return Err(BadRequest, e);
      case Success(service) =>
        remote := contractOf(service.provider, service.contractAddress);
    }
    var ownership := NamiLandService.GetNftOwnership(caches, remote, owner, gameClient, network, addressOf, catalog, arrival);
    match ownership {
      case Success(report) =>
        response := Ok(report);
      case Failure(err) =>
        assert false;
        response := Err(InternalServerError, err);
    }
  }
}
