# NamiLand / Neco Fishing asset querier — a Dafny model

This project models the core of an HTTP service that answers questions about a
player's blockchain assets. The main part is the NamiLand game-item (ERC-1155)
ownership resolver. For every id in a game client's catalog it:

- reads the owner's balance; a failed read counts as zero;
- fetches the item's metadata through two memo caches, one from id to uri and
  one from id to metadata;
- keeps the items whose amount is not zero;
- sorts them by the text of their id.

Around it sit several smaller pieces:

- the versioned NamiLand handlers, which validate a request in a fixed order
  before any service is built;
- the unversioned router, with its network, contract-type and game-client
  decoders, the defaults it uses for failed chain reads, and the `NecoResult`
  envelope;
- the constant tables (the Neco Fishing catalog, the `Display` names, the
  contract-address table);
- the three provider registries;
- the `NecoResponse` constructors.

Layout, one module per file:

| file | module | models |
|---|---|---|
| `wrappers.dfy` | `Wrappers` | `Option`, `Result`, Rust's `u8` |
| `text.dfy` | `Text` | `to_string` of unsigned integers; the byte-wise order of `String`; lower-case hex |
| `defines.dfy` | `Defines` | `common/defines.rs` |
| `contracts.dfy` | `Contracts` | `common/contracts.rs` |
| `registry.dfy` | `Registry` | the `HashMap` read the three registries share |
| `provider.dfy`, `provider_manager.dfy`, `managers.dfy` | `Provider`, `ProviderManagerCell`, `Managers` | the three `ProviderManager` variants, as classes |
| `response_model.dfy` | `ResponseModel` | `apis/response/response_model.rs` |
| `router.dfy` | `Router` | `router.rs` |
| `models.dfy` | `Models` | the NamiLand records of `models.rs` |
| `item_order.dfy` | `ItemOrder` | the final `sort_by` of `get_ownership_items` |
| `namiland_service.dfy` | `NamiLandService` | `services/namiland_erc1155.rs` |
| `namiland_api.dfy` | `NamiLandApi` | `apis/v1/namiland_erc1155.rs` |

How the model is built:

- **Remote calls.** Contract calls, the HTTP fetch and the JSON parse are
  function-valued fields of `NamiLandService.Remote`. Each returns a value or
  an error text. The router's chain reads are function parameters in the same
  way.
- **The two caches.** They form the class `NamiLandService.MetadataCaches`,
  which has two `map` fields. Its get-or-populate methods are specified by pure
  functions of the cache state (`MetadataLookup`, `CachesAfter`). Each method
  also returns the remote calls it made, so "a hit makes no call" can be
  stated.
- **The concurrent fan-out.** The spawned tasks and the channel become one loop.
  The loop runs the tasks one after another in the order their completions
  arrive (`arrival`, any rearrangement of the catalog).
- **What is proved about the report.** The report equals the one computed in
  catalog order from the initial caches. So it does not depend on the arrival
  order.

The network and game-client types of the NamiLand files belong to a different
revision than `common/defines.rs`. That revision has Ethereum main net and
Goerli, and the NamiLand game. So `Models` declares these types, and `Defines`
keeps the Binance Smart Chain networks and Neco Fishing used by the router. In
the same way, the NamiLand handlers' `Response::ok`/`Response::err` are modelled
by the `NecoResponse` constructors of `apis/response/response_model.rs`.

Code and design differ on one point, and the model follows the code.
`get_metadata_by_nft_id` gets the uri through `get_nft_url`, which caches it
before the HTTP fetch. So when the uri call succeeds but the fetch or the parse
fails:

- the metadata cache is unchanged;
- the url cache keeps the new uri.

`NamiLandService.CachesAfter` and the methods' contracts state this.

## Model

The eight `Contracts.*AddressIsHex` lemmas each check one address literal. They are separate only to keep every proof within the verifier's resource limit; together they make up `Contracts.AddressIsHex`.

| member | source | states |
|---|---|---|
| Text.DecimalString | src/services/namiland_erc1155.rs:112 | `id.to_string()` is a non-empty run of digits, one digit exactly below 10, with a leading "0" only for 0 |
| Text.DecimalRoundTrip | src/services/namiland_erc1155.rs:112 | reading the decimal text of an id back gives the id (`to_string` has a left inverse) |
| Text.DecimalInjective | src/services/namiland_erc1155.rs:112 | distinct ids have distinct `nft_id` texts |
| Text.DecimalLength | src/services/namiland_erc1155.rs:112 | a number of k digits has a k-character text |
| Text.LexLessMeaning | src/services/namiland_erc1155.rs:129 | the `str` order of `cmp` holds exactly when the first text is a proper prefix of the second, or has the smaller character where they first differ |
| Text.LexIrreflexive | src/services/namiland_erc1155.rs:129 | the string order used by `sort_by` is irreflexive |
| Text.LexTransitive | src/services/namiland_erc1155.rs:129 | the string order is transitive |
| Text.LexTotal | src/services/namiland_erc1155.rs:129 | any two strings are equal or ordered one way |
| Text.LexAsymmetric | src/services/namiland_erc1155.rs:129 | the string order is asymmetric |
| Text.LexLessEqTransitive | src/services/namiland_erc1155.rs:129 | less-or-equal on strings is transitive |
| Text.LexLessEqAntisymmetric | src/services/namiland_erc1155.rs:129 | less-or-equal on strings is antisymmetric |
| Text.LexAppend | src/services/namiland_erc1155.rs:129 | comparing equal-length strings extended by one character |
| Text.SameLengthDecimalOrder | src/services/namiland_erc1155.rs:129 | for ids of equal digit count, text order is numeric order (both directions) |
| Text.TextOrderIsNotNumericOrder | src/services/namiland_erc1155.rs:129 | 9999 < 10002, yet "10002" sorts before "9999" |
| Text.HexDigitLower | src/services/namiland_erc1155.rs:62 | a value below 16 becomes the lower-case hex digit whose value it is |
| Text.HexLower | src/services/namiland_erc1155.rs:62 | `{:02x}` of each byte: character 2i is the high digit of byte i, character 2i+1 its low digit |
| Text.HexDecode | src/services/namiland_erc1155.rs:62 | hex text read back two digits to a byte gives bytes, half as many as characters |
| Text.HexRoundTrip | src/services/namiland_erc1155.rs:62 | the hex text of any bytes reads back to the same bytes |
| Defines.NetworkTypeName | src/common/defines.rs:15-22 | `Display for NetworkType` is a snake-case name |
| Defines.GameClientName | src/common/defines.rs:30-36 | `Display for GameClient` is a snake-case name |
| Defines.TokenName | src/common/defines.rs:46-50 | `Display for SupportedERC20Token` is the upper-case variant name, at least four letters |
| Defines.NetworkTypeNameInjective | src/common/defines.rs:15-22 | the two networks have distinct display names |
| Defines.GameClientNameText | src/common/defines.rs:30-36 | Neco Fishing displays as "neco_fishing" |
| Defines.TokenNameInjective | src/common/defines.rs:46-50 | the three tokens have distinct display names |
| Defines.CatalogLine1Shape | src/common/defines.rs:54 | the first catalog line is increasing, all five-digit ids |
| Defines.CatalogLine2Shape | src/common/defines.rs:55 | the second catalog line is increasing, all five-digit ids |
| Defines.CatalogLine3Shape | src/common/defines.rs:56 | the third catalog line is increasing, all five-digit ids |
| Defines.CatalogLine4Shape | src/common/defines.rs:57 | the fourth catalog line is increasing, all five-digit ids |
| Defines.CatalogLine5Shape | src/common/defines.rs:58 | the last catalog line is increasing, all five-digit ids |
| Defines.AdjacentIncreasingIsStrict | src/common/defines.rs:53-59 | adjacent increase implies strict increase between any two positions |
| Defines.JoinRuns | src/common/defines.rs:53-59 | two increasing runs of five-digit ids joined at an increasing seam stay so |
| Defines.CatalogShape | src/common/defines.rs:53-59 | `NECO_FISHING_NFT_IDS` has 57 ids, strictly increasing, hence distinct, each in 10000..99999 |
| Defines.CatalogTextOrderIsNumeric | src/common/defines.rs:53-59 | for this catalog, sorting the id texts gives numeric order |
| Contracts.GetContractAddress | src/common/contracts.rs:7-40 | every entry of the table is 42 characters long |
| Contracts.AddressIsHex | src/common/contracts.rs:7-40 | the table is total and every entry is "0x" and 40 hex digits |
| Contracts.BusdAddressIsHex | src/common/contracts.rs:11-12 | the BUSD address is well formed |
| Contracts.NecoMainAddressIsHex | src/common/contracts.rs:17 | the NECO main-net address is well formed |
| Contracts.NecoTestAddressIsHex | src/common/contracts.rs:18 | the NECO test-net address is well formed |
| Contracts.NfishAddressIsHex | src/common/contracts.rs:23-24 | the NFISH address is well formed |
| Contracts.NecoNftMainAddressIsHex | src/common/contracts.rs:29 | the Neco NFT main-net address is well formed |
| Contracts.NecoNftTestAddressIsHex | src/common/contracts.rs:30 | the Neco NFT test-net address is well formed |
| Contracts.StakeMainAddressIsHex | src/common/contracts.rs:35 | the staking main-net address is well formed |
| Contracts.StakeTestAddressIsHex | src/common/contracts.rs:36 | the staking test-net address is well formed |
| Contracts.SharedAcrossNetworks | src/common/contracts.rs:9-38 | main and test addresses coincide exactly for BUSD and NFISH |
| Contracts.LastDigits | src/common/contracts.rs:11-36 | the last hex digit of every entry |
| Contracts.InjectivePerNetwork | src/common/contracts.rs:7-40 | within one network, two contracts share an address only if they are the same contract |
| Registry.Lookup | src/common/provider.rs:31-36 | `get` answers `Some` exactly for a present key, with its value |
| Registry.LookupAfterInsert | src/common/provider.rs:24-36 | after an insert the key reads back the provider; other keys read as before |
| Registry.InsertReplaces | src/common/provider.rs:24-29 | a second insert under one key replaces the first |
| Provider.ProviderManager.Instance | src/common/provider.rs:18-22 | `instance()` starts with no providers |
| Provider.ProviderManager.SetProvider | src/common/provider.rs:24-29 | the network now maps to the provider; every other network is unchanged |
| Provider.ProviderManager.GetProvider | src/common/provider.rs:31-36 | `Some` of the stored provider exactly when one is stored, `None` otherwise; nothing changes |
| ProviderManagerCell.ProviderManager.Instance | src/common/provider_manager.rs:16-20 | `instance()` starts with no providers |
| ProviderManagerCell.ProviderManager.SetProvider | src/common/provider_manager.rs:22-28 | the network now maps to the provider; every other network is unchanged |
| ProviderManagerCell.ProviderManager.GetProvider | src/common/provider_manager.rs:30-35 | the lookup's answer; `None` (through `?`) only for a network never set |
| Managers.ProviderManager.Instance | src/common/managers.rs:16-20 | `instance()` starts with no providers |
| Managers.ProviderManager.SetProvider | src/common/managers.rs:22-28 | the network now maps to the provider; every other network is unchanged |
| Managers.ProviderManager.GetProvider | src/common/managers.rs:30-36 | callable only for a network that was set (`unwrap`); always `Some` of the stored provider |
| ResponseModel.StatusCode.AsU16 | src/apis/response/response_model.rs:15 | `as_u16` gives 200 for OK, 400 for Bad Request, 500 for Internal Server Error |
| ResponseModel.StatusCodesDistinct | src/apis/response/response_model.rs:15 | distinct statuses have distinct numbers |
| ResponseModel.Err | src/apis/response/response_model.rs:13-19 | `err`: the status number, the message unchanged, no data |
| ResponseModel.Ok | src/apis/response/response_model.rs:21-27 | `ok`: 200, "success", `Some` of the data |
| ResponseModel.OkAndErrDiffer | src/apis/response/response_model.rs:13-27 | an `ok` answer is never an `err` answer; only `ok` carries data |
| Router.NewNecoResult | src/router.rs:220-227 | `NecoResult::new` stores `status.as_u16()` and passes message and data through |
| Router.Ping | src/router.rs:28-30 | `ping` answers "pong" |
| Router.DecodeNetwork | src/router.rs:42-52 | a network code decodes exactly when it is 0 or 1, to the network whose code it is |
| Router.DecodeNetworkInvertsCode | src/router.rs:42-52 | code 0 is the main network, 1 the test network, anything above 1 is refused |
| Router.DecodeContractType | src/router.rs:53-64 | a decoded contract type is the one whose query string was given |
| Router.DecodeContractTypeInverts | src/router.rs:53-64 | exactly "neco", "nfish", "busd" decode, to NECO, NFISH, BUSD |
| Router.DecodeGameClient | src/router.rs:135-144 | only game client 0 is accepted |
| Router.GetErc20Balance | src/router.rs:39-88 | network error first, then contract-type error (both 400); 200 exactly when both decode, with "unknown"/0/0 for failed reads |
| Router.Erc20FailedReadLooksLikeZero | src/router.rs:70-73 | a failed balance read answers exactly like a real zero balance |
| Router.GetNftMetadata | src/router.rs:90-121 | network error (400) first; then the metadata (200) or the service's error (400); a parsable nft id is demanded once the network is valid |
| Router.GetNftOwnership | src/router.rs:131-174 | game client before network (both 400); ownership (200) or its error as 500 |
| Router.OwnershipValidationPrecedesQuery | src/router.rs:135-159 | a request failing either check gets 400 whatever the ownership service would say |
| Router.GetNecoStakedInfo | src/router.rs:177-211 | network error (400); otherwise 200 with failed reads as "0" and the message "network type error" |
| Router.StakedInfoSuccessSaysNetworkError | src/router.rs:199-210 | the 200 answer and the genuine 400 network error carry the same message |
| Router.GetNecoStakedInfoCorrected | src/router.rs:177-211 | the corrected route: "success" exactly on 200, 200 exactly for a valid network, same data |
| Models.AddressDebug | src/services/namiland_erc1155.rs:62 | `format!("{:?}", address)` is "0x" and 40 hex digits, which read back to the address |
| Models.AddressDebugInjective | src/services/namiland_erc1155.rs:62 | two addresses have the same `{:?}` text exactly when they are equal |
| Models.AddressDisplay | src/services/namiland_erc1155.rs:58-59 | `to_string()` of an address is 11 characters: "0x", four hex digits, an ellipsis, four hex digits |
| Models.AddressDisplayAbbreviatesDebug | src/services/namiland_erc1155.rs:58-62 | the `Display` digits are the first four and the last four digits of the `{:?}` text |
| Models.AddressDisplayKeepsOuterBytes | src/services/namiland_erc1155.rs:58-59 | two addresses share the `Display` text exactly when their first two and last two bytes agree |
| Models.AddressDisplayCollision | src/services/namiland_erc1155.rs:58-59 | two different addresses with one `Display` text |
| Models.DefaultMetadata | src/services/namiland_erc1155.rs:102 | the default metadata has empty strings and no attributes |
| NamiLandService.NewService | src/services/namiland_erc1155.rs:36-44 | missing provider gives "get provider failed"; then the address lookup's error; success carries the provider and the parsed contract address |
| NamiLandService.UrlLookup | src/services/namiland_erc1155.rs:160-176 | a hit always succeeds; a cached uri that agrees with the contract leaves the answer the contract's own |
| NamiLandService.UrlsAfter | src/services/namiland_erc1155.rs:165-175 | the url cache only grows, only under the id, keeps its old entries, and holds the id exactly when the answer succeeded, with that answer |
| NamiLandService.MetadataLookup | src/services/namiland_erc1155.rs:134-157 | a hit always succeeds; with no entry in either cache the answer is the uncached uri-fetch-parse reading |
| NamiLandService.CachesAfter | src/services/namiland_erc1155.rs:142-156 | an entry under the id after the lookup holds the lookup's answer, in both caches |
| NamiLandService.CacheIsTransparent | src/services/namiland_erc1155.rs:134-176 | over caches that agree with the remote services, a cached lookup answers what an uncached one would, and the caches stay in agreement |
| NamiLandService.LookupSettles | src/services/namiland_erc1155.rs:134-176 | a repeated lookup answers the same and changes nothing more; a successful lookup becomes a hit that makes no call |
| NamiLandService.LookupTouchesOnlyItsId | src/services/namiland_erc1155.rs:150-172 | a lookup only adds entries, and only under its own id |
| NamiLandService.CachesSharedAcrossContracts | src/services/namiland_erc1155.rs:25-28 | an entry filled through one contract answers a later lookup through any other contract, without a call |
| NamiLandService.LookupIsLocal | src/services/namiland_erc1155.rs:138-166 | a lookup reads the caches only under its own id |
| NamiLandService.MetadataCaches.constructor | src/services/namiland_erc1155.rs:25-28 | both caches start empty |
| NamiLandService.MetadataCaches.GetNftUrl | src/services/namiland_erc1155.rs:160-176 | hit: the cached uri, no call; miss: one uri call, cached only on success; a failure leaves the caches unchanged |
| NamiLandService.MetadataCaches.GetMetadataByNftId | src/services/namiland_erc1155.rs:134-157 | hit: the cached value, no uri lookup, no HTTP fetch; miss: the fetched value is cached and returned; any failure is returned with the metadata cache unchanged |
| NamiLandService.Balance | src/services/namiland_erc1155.rs:93-99 | the balance read, or 0 when the read fails |
| NamiLandService.Completion | src/services/namiland_erc1155.rs:93-115 | an item with zero amount carries the default metadata (the whole item is stated by `CompletionMeaning`) |
| NamiLandService.CompletionMeaning | src/services/namiland_erc1155.rs:93-115 | an item has the decimal id text and the balance (0 on a failed read); zero amounts get default metadata; non-zero amounts keep their amount, with default metadata when the lookup fails |
| NamiLandService.CompletionIgnoresCoherentCaches | src/services/namiland_erc1155.rs:93-115 | over caches that agree with the remote services, an item is what it would be with no caches |
| NamiLandService.CompletionIsLocal | src/services/namiland_erc1155.rs:93-115 | an item depends on the caches only under its own id |
| NamiLandService.ResolveItem | src/services/namiland_erc1155.rs:92-118 | one task's item and caches; a zero balance makes only the balance call and touches no cache |
| NamiLandService.Owned | src/services/namiland_erc1155.rs:121-128 | the kept items are exactly the received ones with non-zero amount, with their multiplicities |
| NamiLandService.OwnershipItems | src/services/namiland_erc1155.rs:121-130 | the reported items are sorted by id text |
| NamiLandService.CachesAfterAllElsewhere | src/services/namiland_erc1155.rs:92-118 | tasks for other ids leave an id's cache entries alone |
| NamiLandService.DistinctCountsAtMostOne | src/services/namiland_erc1155.rs:78-86 | a list of distinct ids holds each id at most once |
| NamiLandService.DistinctPermutation | src/services/namiland_erc1155.rs:88-123 | any arrival order of distinct catalog ids is itself distinct |
| NamiLandService.CompletionsAppend | src/services/namiland_erc1155.rs:88-119 | the items of two id lists joined are the two item lists joined |
| NamiLandService.CompletionsRemove | src/services/namiland_erc1155.rs:88-119 | taking one id out of a list takes its item out of the items |
| NamiLandService.RemoveAt | src/services/namiland_erc1155.rs:88-119 | removing the id at one index removes one copy of it and of its item |
| NamiLandService.CompletionsPermute | src/services/namiland_erc1155.rs:88-123 | rearranging the ids rearranges the items |
| NamiLandService.OwnedCompletionsKeyFaithful | src/services/namiland_erc1155.rs:112-129 | two kept items with the same id text are the same item |
| NamiLandService.OwnershipItemsIgnoreArrivalOrder | src/services/namiland_erc1155.rs:121-129 | the reported items are the same for every arrival order of the completions |
| NamiLandService.InCompletions | src/services/namiland_erc1155.rs:88-119 | an item is among the completions exactly when it is the item of some id |
| NamiLandService.OwnershipItemsMembership | src/services/namiland_erc1155.rs:121-130 | an item is reported exactly when it is some catalog id's item and its amount is not zero |
| NamiLandService.ReceiveStep | src/services/namiland_erc1155.rs:122-128 | each received completion starts from the initial cache entries of its id and extends the received items |
| NamiLandService.OwnedSnoc | src/services/namiland_erc1155.rs:124-126 | receiving an item appends it exactly when its amount is not zero |
| NamiLandService.SelectCatalog | src/services/namiland_erc1155.rs:78-86 | the ids selected for the NamiLand game are its catalog, in order |
| NamiLandService.GetOwnershipItems | src/services/namiland_erc1155.rs:70-131 | always `Ok`; the items are those of the catalog order from the initial caches, whatever the arrival order; the caches end as the tasks left them |
| NamiLandService.OwnershipReport | src/services/namiland_erc1155.rs:58-66 | an address failure is passed on; otherwise the owner's `{:?}` text (which reads back to the owner), the network, the contract address's abbreviated `Display` text, and exactly the items |
| NamiLandService.ReportHidesContractAddress | src/services/namiland_erc1155.rs:58-66 | contract addresses agreeing in their first two and last two bytes give the same report |
| NamiLandService.OwnershipReportCorrected | src/services/namiland_erc1155.rs:58-66 | the corrected report: the contract address in full `{:?}` form, reading back to the address; otherwise the report as written |
| NamiLandService.GetNftOwnership | src/services/namiland_erc1155.rs:48-67 | the items first, then the address lookup; the report of `OwnershipReport` |
| ItemOrder.Insert | src/services/namiland_erc1155.rs:129 | inserting adds exactly one copy of the item |
| ItemOrder.SortedCons | src/services/namiland_erc1155.rs:129 | a list headed by an item is sorted exactly when the rest is sorted and no id in it is smaller |
| ItemOrder.InsertKeepsLowerBound | src/services/namiland_erc1155.rs:129 | inserting an item no smaller than a bound keeps every id at or above the bound |
| ItemOrder.InsertSorted | src/services/namiland_erc1155.rs:129 | inserting into a sorted list keeps it sorted |
| ItemOrder.SortByNftId | src/services/namiland_erc1155.rs:129 | the sorted items are a rearrangement of the input in ascending order of id text |
| ItemOrder.SortedHeadsAgree | src/services/namiland_erc1155.rs:129 | two sorted arrangements of the same items start with the same item |
| ItemOrder.DropSharedHead | src/services/namiland_erc1155.rs:129 | after a shared first item the rest are the same items |
| ItemOrder.SortedUnique | src/services/namiland_erc1155.rs:129 | two sorted arrangements of the same items, whose ids determine them, are equal |
| ItemOrder.SortIgnoresInputOrder | src/services/namiland_erc1155.rs:129 | sorting rearrangements of the same items gives the same list |
| ItemOrder.TextOrderPlacesLongerIdFirst | src/services/namiland_erc1155.rs:129 | the item "10002" is placed before the item "9999" |
| NamiLandApi.DecodeChainId | src/apis/v1/namiland_erc1155.rs:35-41 | a chain id decodes exactly when it is 1 or 5, to the network with that chain id |
| NamiLandApi.DecodeChainIdInverts | src/apis/v1/namiland_erc1155.rs:35-41 | chain id 1 is Ethereum main net, 5 is Goerli, every other id is refused |
| NamiLandApi.DecodeGameClient | src/apis/v1/namiland_erc1155.rs:78-81 | only game client 0 is accepted |
| NamiLandApi.ValidateMetadataRequest | src/apis/v1/namiland_erc1155.rs:35-54 | chain id, then nft id, then service construction, each failure with its own message |
| NamiLandApi.MetadataChecksInOrder | src/apis/v1/namiland_erc1155.rs:35-47 | a bad chain id is reported whatever the nft id; a bad nft id whatever the providers |
| NamiLandApi.GetNftMetadata | src/apis/v1/namiland_erc1155.rs:32-60 | a failed check answers 400 and touches no cache; otherwise the metadata (200) or the lookup's error (400), read through the contract built for the decoded network |
| NamiLandApi.ValidateOwnershipRequest | src/apis/v1/namiland_erc1155.rs:78-101 | game client, then chain id, then address, then service construction, each failure with its own message |
| NamiLandApi.ValidatedNetworkHasAddress | src/apis/v1/namiland_erc1155.rs:96-101 | a validated request's network has a provider and a contract address |
| NamiLandApi.GetNftOwnership | src/apis/v1/namiland_erc1155.rs:75-110 | a failed check answers 400 and touches no cache; otherwise 200 with the report of the catalog, read through the contract built for the decoded network |

## Left out

- Concurrency: `tokio::spawn`, the mpsc channel (capacity 4096) and the `Mutex` locks. The tasks run one after another, each as one step, in the arrival order. The channel capacity and the races between tasks that miss the same cache entry are not modelled. With distinct catalog ids no two tasks touch the same entry.
- Remote calls: `balance_of`, `uri`, the `reqwest` GET, `serde_json::from_str`, and the router's ERC-20, Neco NFT and staking reads. Each is a function returning a value or an error text. Network failures, timeouts and retries are not modelled.
- Library parsers: `U256::from_dec_str` and `str::parse::<Address>` are the parameters `parseU256` and `parseAddress`.
- `U256`: amounts and ids are unbounded naturals. `as_u64` panics on a balance of 2^64 or more. The panic ends that spawned task before its `send`, while `get_ownership_items` still holds the original `tx`, so the channel is never closed: the receive loop waits forever for the missing item and the whole request hangs. `ResolveItem` and the callers above it (`BalancesFit`) require every balance below 2^64, so this hang is not modelled.
- Catalog ids are the source's `i32`, modelled as naturals. `U256::from` of a negative `i32` panics; the model assumes the catalog holds no negative id.
- The NamiLand catalog (`NAMILAND_GAME_ITEM_NFT_IDS`) is not part of this model. The service and handler take it as a parameter and require its ids to be distinct.
- The NamiLand game-item entry of the contract-address lookup (`get_contract_address(SupportedContractType::NamiLandGameItemNFT, ..)`) is not part of this model. The lookup is the parameter `addressOf`, returning the parsed `Address` (as `common/address.rs` returns `parse::<Address>()`) or an error. It is a function, so both of its calls in one request give the same answer.
- The text forms of `Address` come from the `ethers` hash type, which is not part of this model. `Models.AddressDebug` writes `{:?}` (all 40 digits) and `Models.AddressDisplay` writes `Display`, the form `to_string()` uses ("0x", two bytes, "…", two bytes), as that type defines them.
- The contract binding `NamiLandERC1155Contract::new(address, client)` is the parameter `contractOf`. The handlers read through `contractOf` applied to the decoded network's provider and contract address. The two caches are process-wide and keyed by the id alone, so an entry filled through one network's contract is served to a request for the other network (`NamiLandService.CachesSharedAcrossContracts`); the model keeps this behaviour, and no lemma promises that an answer comes from the requested network's contract.
- The provider registry used by `NamiLandERC1155Service::new` is the parameter `providerOf`. It is keyed by the NamiLand networks, not the Binance Smart Chain ones of the registry classes.
- The `OnceCell` singleton behind `instance()` is not modelled. Each constructor call gives a fresh empty registry.
- ItemOrder.SortByNftId: the in-place `sort_by` is modelled as a function on values (a stable insertion sort). Sortedness and permutation are proved; stability is not stated, because the ids determine the items.
- Router.GetNftMetadata: a non-decimal nft id after a valid network panics in the source (`unwrap`). The model requires a parsable id in that case.
- The contract wrappers and services of `contracts/`, `services/erc20.rs` and `services/neco_stake.rs` are left out; their only logic is the remote call.
- The unversioned `api/` handlers and the other `apis/v1` handlers repeat the decoders of the router and of the NamiLand handlers; they are not modelled again.
- Server start-up and logging (`main.rs`, `println!`) are left out.

## Findings

| source | as written | input that shows it | evidently intended | confidence | as-written member | corrected member |
|---|---|---|---|---|---|---|
| src/router.rs:199-210 | the successful staked-info answer carries the message "network type error" | network 0 with any address: status 200 with message "network type error", the same message as the 400 answer for network 2 | message "success" on the 200 answer, as on every other route | high (not executed) | Router.StakedInfoSuccessSaysNetworkError | Router.GetNecoStakedInfoCorrected |
| src/services/namiland_erc1155.rs:58-59 | the report's `contract_address` is `to_string()` of the address, the abbreviated `Display` form, while `public_address` on line 62 is the full `{:?}` form | two contract addresses differing only in byte 10 (`Models.AddressDisplayCollision`) give the same report | the full `{:?}` text, which reads back to the contract address | medium (not executed; rests on the library's `Display` form) | NamiLandService.ReportHidesContractAddress | NamiLandService.OwnershipReportCorrected |
