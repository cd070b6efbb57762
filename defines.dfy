/** The enumerations and the constant catalog of `common/defines.rs`. */
module Defines {
  import opened Text

  /** The BNB Smart Chain networks the routes serve. */
  datatype NetworkType = BSCMainNetwork | BSCTestNetwork

  datatype GameClient = NecoFishing

  datatype SupportedERC20Token = NECO | NFISH | BUSD

  datatype SupportedContract =
    | NECOTokenContract
    | NFISHTokenContract
    | BUSDTokenContract
    | NecoNFTContract
    | StakeNecoForFeeContract

  /** The contract kinds the router decodes and the address lookup accepts
      (`ContractType`; its definition is not part of this model, its variants
      are the ones the router and `common/address.rs` name). */
  datatype ContractType = NECO | NFISH | BUSD | NecoNFT | StakeNecoForFee

  /** Lower-case letters and underscores, starting and ending with a letter. */
  predicate SnakeCase(s: string) {
    |s| > 0 && s[0] != '_' && s[|s| - 1] != '_' &&
    forall i :: 0 <= i < |s| ==> 'a' <= s[i] <= 'z' || s[i] == '_'
  }

  /** `Display for NetworkType`: the snake-case variant name. */
  function NetworkTypeName(n: NetworkType): (s: string)
    ensures SnakeCase(s)
  {
    match n
    case BSCMainNetwork => "bsc_main_network"
    case BSCTestNetwork => "bsc_test_network"
  }

  /** `Display for GameClient` */
  function GameClientName(g: GameClient): (s: string)
    ensures SnakeCase(s)
  {
    match g
    case NecoFishing => "neco_fishing"
  }

  /** `Display for SupportedERC20Token` writes the `Debug` form, the variant name. */
  function TokenName(t: SupportedERC20Token): (s: string)
    ensures |s| >= 4 && forall i :: 0 <= i < |s| ==> 'A' <= s[i] <= 'Z'
  {
    match t
    case NECO => "NECO"
    case NFISH => "NFISH"
    case BUSD => "BUSD"
  }

  /** Display names tell the values apart, so they can serve as keys. */
  lemma NetworkTypeNameInjective(a: NetworkType, b: NetworkType)
    ensures NetworkTypeName(a) == NetworkTypeName(b) <==> a == b
  {
    if a != b {
      assert NetworkTypeName(a)[4] != NetworkTypeName(b)[4];
    }
  }

  lemma TokenNameInjective(a: SupportedERC20Token, b: SupportedERC20Token)
    ensures TokenName(a) == TokenName(b) <==> a == b
  {
    if a != b {
      assert TokenName(a)[1] != TokenName(b)[1] || |TokenName(a)| != |TokenName(b)|;
    }
  }

  /** The one game client displays as "neco_fishing". */
  lemma GameClientNameText(g: GameClient)
    ensures GameClientName(g) == "neco_fishing"
  {
  }

  /** `NECO_FISHING_NFT_IDS`: every item id of the Neco Fishing game, written
      as the five lines of the source array. */
  const NecoFishingNftIds: seq<nat> :=
    CatalogLine1 + CatalogLine2 + CatalogLine3 + CatalogLine4 + CatalogLine5

  const CatalogLine1: seq<nat> :=
    [10001, 10002, 10003, 10004, 10005, 10006, 10007, 11001, 11002, 11003, 11004, 11005, 11006]
  const CatalogLine2: seq<nat> :=
    [11007, 12001, 12002, 12003, 13001, 13002, 13003, 13004, 13005, 13006, 14001, 14002, 15001]
  const CatalogLine3: seq<nat> :=
    [15002, 15003, 15004, 15005, 15006, 15007, 15008, 15009, 15010, 15011, 15012, 15013, 15014]
  const CatalogLine4: seq<nat> :=
    [15015, 15016, 16001, 16002, 16003, 16004, 16005, 16006, 16007, 16008, 16009, 16010, 16011]
  const CatalogLine5: seq<nat> :=
    [16012, 16013, 16014, 16015, 16016]

  predicate StrictlyIncreasing(s: seq<nat>) {
    forall i, j :: 0 <= i < j < |s| ==> s[i] < s[j]
  }

  predicate Distinct<T(==)>(s: seq<T>) {
    forall i, j :: 0 <= i < j < |s| ==> s[i] != s[j]
  }

  predicate FiveDigitIds(s: seq<nat>) {
    forall i :: 0 <= i < |s| ==> 10000 <= s[i] <= 99999
  }

  predicate AdjacentIncreasing(s: seq<nat>) {
    forall i :: 0 <= i < |s| - 1 ==> s[i] < s[i + 1]
  }

  lemma {:induction false} AdjacentIncreasingIsStrict(s: seq<nat>)
    requires AdjacentIncreasing(s)
    ensures StrictlyIncreasing(s)
    decreases |s|
  {
    if |s| > 1 {
      AdjacentIncreasingIsStrict(s[1..]);
      forall i, j | 0 <= i < j < |s| ensures s[i] < s[j] {
        if i > 0 {
          assert s[1..][i - 1] < s[1..][j - 1];
        } else if j > 1 {
          assert s[1..][0] < s[1..][j - 1];
        }
      }
    }
  }

  /** Joining two increasing runs of five-digit ids, the first ending below
      the start of the second, gives an increasing run of five-digit ids. */
  lemma JoinRuns(a: seq<nat>, b: seq<nat>)
    requires AdjacentIncreasing(a) && AdjacentIncreasing(b) && FiveDigitIds(a) && FiveDigitIds(b)
    requires |a| > 0 && |b| > 0 && a[|a| - 1] < b[0]
    ensures AdjacentIncreasing(a + b) && FiveDigitIds(a + b)
  {
    var c := a + b;
    forall i | 0 <= i < |c| - 1 ensures c[i] < c[i + 1] {
      if i + 1 < |a| {
        assert c[i] == a[i] && c[i + 1] == a[i + 1];
      } else if i + 1 == |a| {
        assert c[i] == a[i] && c[i + 1] == b[0];
      } else {
        assert c[i] == b[i - |a|] && c[i + 1] == b[i + 1 - |a|];
      }
    }
  }

  lemma CatalogLine1Shape()
    ensures AdjacentIncreasing(CatalogLine1) && FiveDigitIds(CatalogLine1)
  {
  }

  lemma CatalogLine2Shape()
    ensures AdjacentIncreasing(CatalogLine2) && FiveDigitIds(CatalogLine2)
  {
  }

  lemma CatalogLine3Shape()
    ensures AdjacentIncreasing(CatalogLine3) && FiveDigitIds(CatalogLine3)
  {
  }

  lemma CatalogLine4Shape()
    ensures AdjacentIncreasing(CatalogLine4) && FiveDigitIds(CatalogLine4)
  {
  }

  lemma CatalogLine5Shape()
    ensures AdjacentIncreasing(CatalogLine5) && FiveDigitIds(CatalogLine5)
  {
  }

  /** The catalog has 57 ids, strictly increasing (so no duplicates), each of five digits. */
  lemma CatalogShape()
    ensures |NecoFishingNftIds| == 57
    ensures StrictlyIncreasing(NecoFishingNftIds) && Distinct(NecoFishingNftIds)
    ensures FiveDigitIds(NecoFishingNftIds)
  {
    CatalogLine1Shape();
    CatalogLine2Shape();
    CatalogLine3Shape();
    CatalogLine4Shape();
    CatalogLine5Shape();
    JoinRuns(CatalogLine1, CatalogLine2);
    JoinRuns(CatalogLine1 + CatalogLine2, CatalogLine3);
    JoinRuns(CatalogLine1 + CatalogLine2 + CatalogLine3, CatalogLine4);
    JoinRuns(CatalogLine1 + CatalogLine2 + CatalogLine3 + CatalogLine4, CatalogLine5);
    AdjacentIncreasingIsStrict(NecoFishingNftIds);
  }

  /** Every catalog id has five digits, so sorting their decimal strings as
      text gives numeric order. */
  lemma CatalogTextOrderIsNumeric()
    ensures forall i, j :: 0 <= i < j < |NecoFishingNftIds| ==>
              LexLess(DecimalString(NecoFishingNftIds[i]), DecimalString(NecoFishingNftIds[j]))
  {
    CatalogShape();
    assert Pow10(4) == 10000 && Pow10(5) == 100000;
    forall i, j | 0 <= i < j < |NecoFishingNftIds|
      ensures LexLess(DecimalString(NecoFishingNftIds[i]), DecimalString(NecoFishingNftIds[j]))
    {
      DecimalLength(NecoFishingNftIds[i], 5);
      DecimalLength(NecoFishingNftIds[j], 5);
      SameLengthDecimalOrder(NecoFishingNftIds[i], NecoFishingNftIds[j]);
    }
  }
}
