/** The unversioned routes of `router.rs`: request decoders, default
    substitution for failed chain reads, and the `NecoResult` envelope.
    Every chain read (ERC-20, staking and Neco NFT contracts) is a parameter
    returning a value or an error text. */
module Router {
  import opened Wrappers
  import opened Text
  import opened Defines
  import ResponseModel

  type StatusCode = ResponseModel.StatusCode

  datatype NecoResult<T> = NecoResult(status: nat, message: string, data: Option<T>)

  datatype ERC20Token = ERC20Token(symbol: string, decimal: U8, amount: string)

  datatype NECOStakedInfo = NECOStakedInfo(publicAddress: string, stakedAmount: string, stakedTime: string)

  datatype GetErc20BalanceRequest = GetErc20BalanceRequest(network: U8, contractType: string, publicAddress: string)

  datatype GetNftOwnershipRequest = GetNftOwnershipRequest(network: U8, gameClient: U8, publicAddress: string)

  /** `NecoResult::new`: the status as its number, message and data unchanged. */
  function NewNecoResult<T>(status: StatusCode, message: string, data: Option<T>): (r: NecoResult<T>)
    ensures r.status == status.AsU16() && r.message == message && r.data == data
  {
    NecoResult(status.AsU16(), message, data)
  }

  /** `ping` */
  function Ping(): (s: string)
    ensures s == "pong"
  {
    "pong"
  }

  /** The network path/query code: 0 is the main network, 1 the test network. */
  function DecodeNetwork(code: U8): (r: Option<NetworkType>)
    ensures r.Some? <==> code <= 1
    ensures r.Some? ==> NetworkCode(r.value) == code
  {
    match code
    case 0 => Some(BSCMainNetwork)
    case 1 => Some(BSCTestNetwork)
    case _ => None
  }

  /** The code a client sends for a network. */
  function NetworkCode(n: NetworkType): (code: U8)
  {
    match n
    case BSCMainNetwork => 0
    case BSCTestNetwork => 1
  }

  /** The decoder inverts `NetworkCode` and accepts no other code. */
  lemma DecodeNetworkInvertsCode(code: U8, n: NetworkType)
    ensures DecodeNetwork(NetworkCode(n)) == Some(n)
    ensures DecodeNetwork(code) == Some(n) <==> code == NetworkCode(n)
    ensures DecodeNetwork(code).None? <==> code > 1
  {
  }

  /** The `contract_type` query string of the ERC-20 route. */
  function DecodeContractType(s: string): (r: Option<ContractType>)
    ensures r.Some? ==> ContractTypeParam(r.value) == Some(s)
  {
    if s == "neco" then Some(ContractType.NECO)
    else if s == "nfish" then Some(ContractType.NFISH)
    else if s == "busd" then Some(ContractType.BUSD)
    else None
  }

  /** The query string naming a token contract, for the three the route accepts. */
  function ContractTypeParam(t: ContractType): (s: Option<string>)
  {
    match t
    case NECO => Some("neco")
    case NFISH => Some("nfish")
    case BUSD => Some("busd")
    case NecoNFT => None
    case StakeNecoForFee => None
  }

  /** The decoder accepts exactly the three token names and inverts `ContractTypeParam`. */
  lemma DecodeContractTypeInverts(s: string, t: ContractType)
    ensures DecodeContractType(s) == Some(t) <==> ContractTypeParam(t) == Some(s)
    ensures DecodeContractType(s).Some? <==> s in {"neco", "nfish", "busd"}
  {
  }

  /** The `game_client` query code: only 0 (Neco Fishing) is served. */
  function DecodeGameClient(code: U8): (r: Option<GameClient>)
    ensures r.Some? <==> code == 0
  {
    if code == 0 then Some(NecoFishing) else None
  }

  function NetworkTypeError<T>(): (r: NecoResult<T>)
    ensures r.status == 400 && r.message == "network type error" && r.data.None?
  {
    NecoResult(StatusCode.BadRequest.AsU16(), "network type error", None)
  }

  /** `get_erc20_balance`: network first, then contract type; once both decode,
      failed reads become "unknown", 0 and 0 and the answer is 200 "success". */
  function GetErc20Balance(
    request: GetErc20BalanceRequest,
    symbolOf: (ContractType, NetworkType) -> Result<string, string>,
    balanceOf: (ContractType, NetworkType, string) -> Result<nat, string>,
    decimalOf: (ContractType, NetworkType) -> Result<U8, string>
  ): (r: NecoResult<ERC20Token>)
    ensures DecodeNetwork(request.network).None? ==> r == NetworkTypeError()
    ensures DecodeNetwork(request.network).Some? && DecodeContractType(request.contractType).None? ==>
              r == NecoResult(400, "contract type error", None)
    ensures r.status == 200 <==>
              DecodeNetwork(request.network).Some? && DecodeContractType(request.contractType).Some?
    ensures r.status == 200 ==>
              var n, t := DecodeNetwork(request.network).value, DecodeContractType(request.contractType).value;
              r.message == "success" &&
              r.data == Some(ERC20Token(
                symbolOf(t, n).GetOr("unknown"),
                decimalOf(t, n).GetOr(0),
                DecimalString(balanceOf(t, n, request.publicAddress).GetOr(0))))
  {
    match DecodeNetwork(request.network)
    case None => NetworkTypeError()
    case Some(network) =>
      match DecodeContractType(request.contractType)
      case None => NecoResult(StatusCode.BadRequest.AsU16(), "contract type error", None)
      case Some(contractType) =>
        var symbol := symbolOf(contractType, network).GetOr("unknown");
        var amount := balanceOf(contractType, network, request.publicAddress).GetOr(0);
        var decimal := decimalOf(contractType, network).GetOr(0);
        NecoResult(StatusCode.OK.AsU16(), "success", Some(ERC20Token(symbol, decimal, DecimalString(amount))))
  }

  /** A failed read is reported exactly like a genuine zero balance: the caller cannot tell them apart. */
  lemma Erc20FailedReadLooksLikeZero(
    request: GetErc20BalanceRequest,
    symbolOf: (ContractType, NetworkType) -> Result<string, string>,
    failing: (ContractType, NetworkType, string) -> Result<nat, string>,
    zero: (ContractType, NetworkType, string) -> Result<nat, string>,
    decimalOf: (ContractType, NetworkType) -> Result<U8, string>
  )
    requires forall t, n, a :: failing(t, n, a).Failure? && zero(t, n, a) == Success(0)
    ensures GetErc20Balance(request, symbolOf, failing, decimalOf) == GetErc20Balance(request, symbolOf, zero, decimalOf)
  {
  }

  /** `get_nft_metadata` (Neco NFT): network first; the nft id is then parsed
      with `unwrap`, which panics on a non-decimal id, so a caller that passes
      a valid network must pass a parsable id. */
  function GetNftMetadata<M>(
    network: U8,
    nftId: string,
    parseU256: string -> Option<nat>,
    metadataOf: (NetworkType, nat) -> Result<M, string>
  ): (r: NecoResult<M>)
    requires DecodeNetwork(network).Some? ==> parseU256(nftId).Some?
    ensures DecodeNetwork(network).None? ==> r == NetworkTypeError()
    ensures DecodeNetwork(network).Some? ==>
              var result := metadataOf(DecodeNetwork(network).value, parseU256(nftId).value);
              (result.Success? ==> r == NecoResult(200, "success", Some(result.value))) &&
              (result.Failure? ==> r == NecoResult(400, result.error, None))
  {
    match DecodeNetwork(network)
    case None => NetworkTypeError()
    case Some(n) =>
      match metadataOf(n, parseU256(nftId).value)
      case Success(metadata) => NecoResult(StatusCode.OK.AsU16(), "success", Some(metadata))
      case Failure(e) => NecoResult(StatusCode.BadRequest.AsU16(), e, None)
  }

  /** `get_nft_ownership` (Neco NFT): game client first, then network; an
      ownership failure is a server error (500). */
  function GetNftOwnership<O>(
    request: GetNftOwnershipRequest,
    ownershipOf: (string, GameClient, NetworkType) -> Result<O, string>
  ): (r: NecoResult<O>)
    ensures DecodeGameClient(request.gameClient).None? ==> r == NecoResult(400, "invalid game client", None)
    ensures DecodeGameClient(request.gameClient).Some? && DecodeNetwork(request.network).None? ==>
              r == NetworkTypeError()
    ensures DecodeGameClient(request.gameClient).Some? && DecodeNetwork(request.network).Some? ==>
              var result := ownershipOf(request.publicAddress, NecoFishing, DecodeNetwork(request.network).value);
              (result.Success? ==> r == NecoResult(200, "success", Some(result.value))) &&
              (result.Failure? ==> r == NecoResult(500, result.error, None))
  {
    match DecodeGameClient(request.gameClient)
    case None => NewNecoResult(StatusCode.BadRequest, "invalid game client", None)
    case Some(gameClient) =>
      match DecodeNetwork(request.network)
      case None => NetworkTypeError()
      case Some(network) =>
        match ownershipOf(request.publicAddress, gameClient, network)
        case Success(ownership) => NewNecoResult(StatusCode.OK, "success", Some(ownership))
        case Failure(err) => NewNecoResult(StatusCode.InternalServerError, err, None)
  }

  /** No ownership query is made for a request that fails validation: the
      answer is the same whatever the ownership service would have said. */
  lemma OwnershipValidationPrecedesQuery<O>(
    request: GetNftOwnershipRequest,
    ownershipOf: (string, GameClient, NetworkType) -> Result<O, string>,
    otherOwnershipOf: (string, GameClient, NetworkType) -> Result<O, string>
  )
    requires DecodeGameClient(request.gameClient).None? || DecodeNetwork(request.network).None?
    ensures GetNftOwnership(request, ownershipOf) == GetNftOwnership(request, otherOwnershipOf)
    ensures GetNftOwnership(request, ownershipOf).status == 400
  {
  }

  /** `get_neco_staked_info` as written: failed reads become 0, and the
      success answer carries status 200 with the message "network type error". */
  function GetNecoStakedInfo(
    network: U8,
    publicAddress: string,
    stakedAmountOf: (NetworkType, string) -> Result<nat, string>,
    stakedTimeOf: (NetworkType, string) -> Result<nat, string>
  ): (r: NecoResult<NECOStakedInfo>)
    ensures DecodeNetwork(network).None? ==> r == NetworkTypeError()
    ensures DecodeNetwork(network).Some? ==>
              var n := DecodeNetwork(network).value;
              r.status == 200 && r.message == "network type error" &&
              r.data == Some(NECOStakedInfo(
                publicAddress,
                DecimalString(stakedAmountOf(n, publicAddress).GetOr(0)),
                DecimalString(stakedTimeOf(n, publicAddress).GetOr(0))))
  {
    match DecodeNetwork(network)
    case None => NetworkTypeError()
    case Some(n) =>
      var stakedAmount := stakedAmountOf(n, publicAddress).GetOr(0);
      var stakedTime := stakedTimeOf(n, publicAddress).GetOr(0);
      NecoResult(StatusCode.OK.AsU16(), "network type error",
        Some(NECOStakedInfo(publicAddress, DecimalString(stakedAmount), DecimalString(stakedTime))))
  }

  /** The as-written success answer and the genuine network error carry the same message. */
  lemma StakedInfoSuccessSaysNetworkError(
    stakedAmountOf: (NetworkType, string) -> Result<nat, string>,
    stakedTimeOf: (NetworkType, string) -> Result<nat, string>
  )
    ensures var ok := GetNecoStakedInfo(0, "0x0", stakedAmountOf, stakedTimeOf);
            var bad := GetNecoStakedInfo(2, "0x0", stakedAmountOf, stakedTimeOf);
            ok.status == 200 && bad.status == 400 && ok.message == bad.message
  {
  }

  /** `get_neco_staked_info` with the success message every other route uses. */
  function GetNecoStakedInfoCorrected(
    network: U8,
    publicAddress: string,
    stakedAmountOf: (NetworkType, string) -> Result<nat, string>,
    stakedTimeOf: (NetworkType, string) -> Result<nat, string>
  ): (r: NecoResult<NECOStakedInfo>)
    ensures r.status == 200 <==> r.message == "success"
    ensures r.status == 200 <==> DecodeNetwork(network).Some?
    ensures r.data.Some? <==> r.status == 200
    ensures var written := GetNecoStakedInfo(network, publicAddress, stakedAmountOf, stakedTimeOf);
            r.status == written.status && r.data == written.data
  {
    var written := GetNecoStakedInfo(network, publicAddress, stakedAmountOf, stakedTimeOf);
    if written.status == 200 then written.(message := "success") else written
  }
}
