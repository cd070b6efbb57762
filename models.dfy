/** The records the NamiLand game-item service reads and answers with. The
    service belongs to a revision whose networks and game clients differ from
    those of `common/defines.rs` (Ethereum main net and Goerli, the NamiLand
    game), so they are declared here. */
module Models {
  import opened Text

  datatype NetworkType = EthereumMainnet | GoerliTestnet

  datatype GameClient = NamiLand

  /** An account address: 20 bytes. */
  type Address = b: seq<nat> | |b| == 20 && AllBytes(b)
    witness [0, 0, 0, 0, 0, 0, 0, 0, 0, 0, 0, 0, 0, 0, 0, 0, 0, 0, 0, 0]

  /** `format!("{:?}", address)`: "0x" and the 40 lower-case hex digits, which
      read back to the address. */
  function AddressDebug(a: Address): (s: string)
    ensures IsHexAddress(s)
    ensures HexDecode(s[2..]) == a
  {
    HexRoundTrip(a);
    assert ("0x" + HexLower(a))[2..] == HexLower(a);
    "0x" + HexLower(a)
  }

  /** Distinct addresses have distinct `{:?}` texts. */
  lemma AddressDebugInjective(a: Address, b: Address)
    ensures AddressDebug(a) == AddressDebug(b) <==> a == b
  {
  }

  /** `address.to_string()`, the `Display` form of the 20-byte hash type:
      "0x", the first two bytes, an ellipsis, the last two bytes. */
  function AddressDisplay(a: Address): (s: string)
    ensures |s| == 11 && s[..2] == "0x" && s[6] == '\U{2026}'
    ensures AllHexDigits(s[2..6]) && AllHexDigits(s[7..])
  {
    "0x" + HexLower(a[..2]) + "\U{2026}" + HexLower(a[18..])
  }

  /** The hex text of an address, cut at byte 2 and at byte 18. */
  lemma HexLowerThirds(a: Address)
    ensures HexLower(a) == HexLower(a[..2]) + HexLower(a[2..18]) + HexLower(a[18..])
  {
    var p, m, q := a[..2], a[2..18], a[18..];
    assert AllBytes(p) && AllBytes(m) && AllBytes(q);
    HexLowerAppend(m, q);
    assert m + q == a[2..];
    HexLowerAppend(p, m + q);
    assert p + (m + q) == a;
  }

  lemma SlicePrefixed(p: string, m: string, q: string)
    requires |p| == 4 && |m| == 32 && |q| == 4
    ensures ("0x" + (p + m + q))[2..6] == p && ("0x" + (p + m + q))[38..] == q
    ensures ("0x" + p + "\U{2026}" + q)[2..6] == p && ("0x" + p + "\U{2026}" + q)[7..] == q
  {
  }

  /** The digits of the `Display` text are the first four and the last four
      of the `{:?}` text. */
  lemma AddressDisplayAbbreviatesDebug(a: Address)
    ensures AddressDisplay(a)[2..6] == AddressDebug(a)[2..6]
    ensures AddressDisplay(a)[7..] == AddressDebug(a)[38..]
  {
    HexLowerThirds(a);
    SlicePrefixed(HexLower(a[..2]), HexLower(a[2..18]), HexLower(a[18..]));
  }

  /** The `Display` text keeps only the outer two bytes at each end: two
      addresses share it exactly when those four bytes agree. */
  lemma AddressDisplayKeepsOuterBytes(a: Address, b: Address)
    ensures AddressDisplay(a) == AddressDisplay(b) <==> a[..2] == b[..2] && a[18..] == b[18..]
  {
    if AddressDisplay(a) == AddressDisplay(b) {
      assert AddressDisplay(a)[2..6] == HexLower(a[..2]);
      assert AddressDisplay(b)[2..6] == HexLower(b[..2]);
      assert AddressDisplay(a)[7..] == HexLower(a[18..]);
      assert AddressDisplay(b)[7..] == HexLower(b[18..]);
      HexRoundTrip(a[..2]);
      HexRoundTrip(b[..2]);
      HexRoundTrip(a[18..]);
      HexRoundTrip(b[18..]);
    }
  }

  /** Two addresses that differ only in their middle bytes share one `Display` text. */
  lemma AddressDisplayCollision()
    ensures var a: Address := [0, 0, 0, 0, 0, 0, 0, 0, 0, 0, 0, 0, 0, 0, 0, 0, 0, 0, 0, 0];
            var b: Address := [0, 0, 0, 0, 0, 0, 0, 0, 0, 0, 1, 0, 0, 0, 0, 0, 0, 0, 0, 0];
            a != b && AddressDisplay(a) == AddressDisplay(b)
  {
    var a: Address := [0, 0, 0, 0, 0, 0, 0, 0, 0, 0, 0, 0, 0, 0, 0, 0, 0, 0, 0, 0];
    var b: Address := [0, 0, 0, 0, 0, 0, 0, 0, 0, 0, 1, 0, 0, 0, 0, 0, 0, 0, 0, 0];
    assert a[..2] == b[..2] && a[18..] == b[18..];
    AddressDisplayKeepsOuterBytes(a, b);
    assert a[10] != b[10];
  }

  datatype Trait = Trait(traitType: string, value: string)

  datatype NFTMetadata = NFTMetadata(
    id: string,
    name: string,
    description: string,
    nftType1: string,
    nftType2: string,
    animationUrl: string,
    imageUrl: string,
    externalUrl: string,
    attributes: seq<Trait>)

  /** `NamiLandERC1155NFTMetadata::default()`: empty strings, no attributes. */
  function DefaultMetadata(): (m: NFTMetadata)
    ensures m.id == m.name == m.description == m.nftType1 == m.nftType2 == ""
    ensures m.animationUrl == m.imageUrl == m.externalUrl == "" && m.attributes == []
  {
    NFTMetadata("", "", "", "", "", "", "", "", [])
  }

  /** One owned game item: its id as text, the owned amount (a `u64`) and its metadata. */
  datatype OwnershipItem = OwnershipItem(nftId: string, amount: nat, nftMetadata: NFTMetadata)

  datatype NFTOwnership = NFTOwnership(
    publicAddress: string,
    network: NetworkType,
    contractAddress: string,
    ownerships: seq<OwnershipItem>)
}
