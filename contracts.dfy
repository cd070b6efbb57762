/** `AddressManager::get_contract_address` of `common/contracts.rs`: a constant
    table of deployed contract addresses per network. `AddressManager` is an
    empty struct, so the table is a function of the two keys alone. */
module Contracts {
  import opened Text
  import opened Defines

  /** The table: one address for every (contract, network) pair. */
  function GetContractAddress(contract: SupportedContract, network: NetworkType): (address: string)
    ensures |address| == 42
  {
    match contract
    case BUSDTokenContract =>
      (match network
       case BSCMainNetwork => "0x2D6C8229E1e14F4D35037F977e5486EE1Bfa0190"
       case BSCTestNetwork => "0x2D6C8229E1e14F4D35037F977e5486EE1Bfa0190")
    case NECOTokenContract =>
      (match network
       case BSCMainNetwork => "0xd23891FC1A515A88C571064637502e3766819e2d"
       case BSCTestNetwork => "0xafA98d54481a9aE468AB21b9268609fF50795795")
    case NFISHTokenContract =>
      (match network
       case BSCMainNetwork => "0xa0c72B1F89531b6BD61C640d03Bd4507773C0cfC"
       case BSCTestNetwork => "0xa0c72B1F89531b6BD61C640d03Bd4507773C0cfC")
    case NecoNFTContract =>
      (match network
       case BSCMainNetwork => "0xEA5534Bac1291676595223579517D35Ad9C382eE"
       case BSCTestNetwork => "0xEB1C424A31490A9B141126838a3c625647f22BDc")
    case StakeNecoForFeeContract =>
      (match network
       case BSCMainNetwork => "0x8bfB9140658632239f8a1450955cB5bD7Ce586ED"
       case BSCTestNetwork => "0xa4329D80BE20813CbfeF5B2e593CA2893441E2dd")
  }

  // One lemma per distinct literal keeps each hex-digit check small.
  lemma BusdAddressIsHex()
    ensures IsHexAddress(GetContractAddress(BUSDTokenContract, BSCMainNetwork))
  {
    assert IsHexAddress("0x2D6C8229E1e14F4D35037F977e5486EE1Bfa0190");
  }

  lemma NecoMainAddressIsHex()
    ensures IsHexAddress(GetContractAddress(NECOTokenContract, BSCMainNetwork))
  {
    assert IsHexAddress("0xd23891FC1A515A88C571064637502e3766819e2d");
  }

  lemma NecoTestAddressIsHex()
    ensures IsHexAddress(GetContractAddress(NECOTokenContract, BSCTestNetwork))
  {
    assert IsHexAddress("0xafA98d54481a9aE468AB21b9268609fF50795795");
  }

  lemma NfishAddressIsHex()
    ensures IsHexAddress(GetContractAddress(NFISHTokenContract, BSCMainNetwork))
  {
    assert IsHexAddress("0xa0c72B1F89531b6BD61C640d03Bd4507773C0cfC");
  }

  lemma NecoNftMainAddressIsHex()
    ensures IsHexAddress(GetContractAddress(NecoNFTContract, BSCMainNetwork))
  {
    assert IsHexAddress("0xEA5534Bac1291676595223579517D35Ad9C382eE");
  }

  lemma NecoNftTestAddressIsHex()
    ensures IsHexAddress(GetContractAddress(NecoNFTContract, BSCTestNetwork))
  {
    assert IsHexAddress("0xEB1C424A31490A9B141126838a3c625647f22BDc");
  }

  lemma StakeMainAddressIsHex()
    ensures IsHexAddress(GetContractAddress(StakeNecoForFeeContract, BSCMainNetwork))
  {
    assert IsHexAddress("0x8bfB9140658632239f8a1450955cB5bD7Ce586ED");
  }

  lemma StakeTestAddressIsHex()
    ensures IsHexAddress(GetContractAddress(StakeNecoForFeeContract, BSCTestNetwork))
  {
    assert IsHexAddress("0xa4329D80BE20813CbfeF5B2e593CA2893441E2dd");
  }

  /** Every entry of the table is "0x" followed by 40 hex digits. */
  lemma AddressIsHex(contract: SupportedContract, network: NetworkType)
    ensures IsHexAddress(GetContractAddress(contract, network))
  {
    match contract
    case BUSDTokenContract => BusdAddressIsHex();
    case NECOTokenContract =>
      if network == BSCMainNetwork { NecoMainAddressIsHex(); } else { NecoTestAddressIsHex(); }
    case NFISHTokenContract => NfishAddressIsHex();
    case NecoNFTContract =>
      if network == BSCMainNetwork { NecoNftMainAddressIsHex(); } else { NecoNftTestAddressIsHex(); }
    case StakeNecoForFeeContract =>
      if network == BSCMainNetwork { StakeMainAddressIsHex(); } else { StakeTestAddressIsHex(); }
  }

  /** BUSD and NFISH are deployed at one address on both networks; every other
      contract has a different address on each. */
  lemma SharedAcrossNetworks(contract: SupportedContract)
    ensures GetContractAddress(contract, BSCMainNetwork) == GetContractAddress(contract, BSCTestNetwork)
            <==> contract == BUSDTokenContract || contract == NFISHTokenContract
  {
    var m, t := GetContractAddress(contract, BSCMainNetwork), GetContractAddress(contract, BSCTestNetwork);
    if contract == NECOTokenContract || contract == NecoNFTContract || contract == StakeNecoForFeeContract {
      assert m[41] != t[41];
    }
  }

  /** The last hex digit of each address; it already tells the addresses apart. */
  lemma LastDigits()
    ensures GetContractAddress(BUSDTokenContract, BSCMainNetwork)[41] == '0'
    ensures GetContractAddress(NECOTokenContract, BSCMainNetwork)[41] == 'd'
    ensures GetContractAddress(NFISHTokenContract, BSCMainNetwork)[41] == 'C'
    ensures GetContractAddress(NecoNFTContract, BSCMainNetwork)[41] == 'E'
    ensures GetContractAddress(StakeNecoForFeeContract, BSCMainNetwork)[41] == 'D'
    ensures GetContractAddress(BUSDTokenContract, BSCTestNetwork)[41] == '0'
    ensures GetContractAddress(NECOTokenContract, BSCTestNetwork)[41] == '5'
    ensures GetContractAddress(NFISHTokenContract, BSCTestNetwork)[41] == 'C'
    ensures GetContractAddress(NecoNFTContract, BSCTestNetwork)[41] == 'c'
    ensures GetContractAddress(StakeNecoForFeeContract, BSCTestNetwork)[41] == 'd'
  {
  }

  /** Within one network no two contracts share an address. */
  lemma InjectivePerNetwork(a: SupportedContract, b: SupportedContract, network: NetworkType)
    ensures GetContractAddress(a, network) == GetContractAddress(b, network) <==> a == b
  {
    LastDigits();
    AddressIsHex(a, network);
    AddressIsHex(b, network);
  }
}
