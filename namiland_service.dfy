/** `services/namiland_erc1155.rs`: who owns which NamiLand game items.
    For every catalog id the owner's balance is read; owned items get their
    metadata through two memo caches (id to uri, id to metadata); the items
    with a non-zero amount are reported in ascending order of their id text.

    The contract calls, the HTTP fetch and the JSON parse are the fields of
    `Remote`. The spawned tasks are run one after another in the order their
    completions reach the channel (`arrival`, a rearrangement of the catalog). */
module NamiLandService {
  import opened Wrappers
  import opened Text
  import opened Models
  import opened ItemOrder
  import Defines

  /** The largest `u64` plus one: `U256::as_u64` panics on a balance at or above it. */
  const U64Limit: nat := 0x1_0000_0000_0000_0000

  /** The remote services one contract instance talks to. */
  datatype Remote = Remote(
    balanceOf: (Address, nat) -> Result<nat, string>,
    uriOf: nat -> Result<string, string>,
    httpGet: string -> Result<string, string>,
    parseMetadata: string -> Result<NFTMetadata, string>)

  /** A call that leaves the process, as recorded by the methods below. */
  datatype RemoteCall = BalanceCall(id: nat) | UriCall(id: nat) | HttpCall(url: string)

  /** A constructed service: its network, its provider and its contract address. */
  datatype Service<P> = Service(network: NetworkType, provider: P, contractAddress: Address)

  /** `NamiLandERC1155Service::new`: the provider comes first; a missing one is
      "get provider failed"; then the contract-address lookup, whose error is passed on. */
  function NewService<P>(
    network: NetworkType,
    providerOf: NetworkType -> Option<P>,
    addressOf: NetworkType -> Result<Address, string>
  ): (r: Result<Service<P>, string>)
    ensures providerOf(network).None? ==> r == Failure("get provider failed")
    ensures providerOf(network).Some? && addressOf(network).Failure? ==> r == Failure(addressOf(network).error)
    ensures r.Success? <==> providerOf(network).Some? && addressOf(network).Success?
    ensures r.Success? ==> r.value.network == network && r.value.provider == providerOf(network).value &&
                           r.value.contractAddress == addressOf(network).value
  {
    match providerOf(network)
    case None => Failure("get provider failed")
    case Some(client) =>
      match addressOf(network)
      case Failure(e) => Failure(e)
      case Success(address) => Success(Service(network, client, address))
  }

  // ---------------------------------------------------------------------
  // The two memo caches, as values

  datatype CacheState = CacheState(urls: map<nat, string>, metadata: map<nat, NFTMetadata>)

  /** The uri `get_nft_url` answers for `id`: a cached uri that agrees with
      the contract leaves the answer the contract's own. */
  function UrlLookup(urls: map<nat, string>, remote: Remote, id: nat): (r: Result<string, string>)
    ensures (id in urls ==> remote.uriOf(id) == Success(urls[id])) ==> r == remote.uriOf(id)
    ensures id in urls ==> r.Success?
  {
    if id in urls then Success(urls[id]) else remote.uriOf(id)
  }

  /** The url cache after `get_nft_url`: filled only on a successful miss.
      Entries are only added, only under `id`, and the entry under `id` is
      there exactly when the answer succeeded, holding that answer. */
  function UrlsAfter(urls: map<nat, string>, remote: Remote, id: nat): (r: map<nat, string>)
    ensures urls.Keys <= r.Keys <= urls.Keys + {id}
    ensures forall k :: k in urls ==> r[k] == urls[k]
    ensures id in r <==> UrlLookup(urls, remote, id).Success?
    ensures id in r ==> UrlLookup(urls, remote, id) == Success(r[id])
  {
    if id in urls then urls
    else match remote.uriOf(id)
      case Success(u) => urls[id := u]
      case Failure(_) => urls
  }

  /** The HTTP GET of a metadata url followed by the JSON parse. */
  function FetchFromUrl(remote: Remote, url: string): Result<NFTMetadata, string> {
    match remote.httpGet(url)
    case Failure(e) => Failure(e)
    case Success(body) => remote.parseMetadata(body)
  }

  /** The metadata `get_metadata_by_nft_id` answers for `id`. A hit never
      fails; with no entry in either cache it is the uncached reading. */
  function MetadataLookup(s: CacheState, remote: Remote, id: nat): (r: Result<NFTMetadata, string>)
    ensures id in s.metadata ==> r.Success?
    ensures id !in s.metadata && id !in s.urls ==> r == FreshMetadata(remote, id)
  {
    if id in s.metadata then Success(s.metadata[id])
    else match UrlLookup(s.urls, remote, id)
      case Failure(e) => Failure(e)
      case Success(url) => FetchFromUrl(remote, url)
  }

  /** Both caches after `get_metadata_by_nft_id`. A uri fetched on the way
      stays cached even when the HTTP fetch or the parse then fails. */
  function CachesAfter(s: CacheState, remote: Remote, id: nat): (r: CacheState)
    ensures id in r.metadata ==> MetadataLookup(s, remote, id) == Success(r.metadata[id])
    ensures id in r.urls ==> UrlLookup(s.urls, remote, id) == Success(r.urls[id])
  {
    if id in s.metadata then s
    else CacheState(
      UrlsAfter(s.urls, remote, id),
      match MetadataLookup(s, remote, id)
      case Success(m) => s.metadata[id := m]
      case Failure(_) => s.metadata)
  }

  /** The calls a metadata lookup makes. */
  function LookupCalls(s: CacheState, remote: Remote, id: nat): seq<RemoteCall> {
    if id in s.metadata then []
    else
      (if id in s.urls then [] else [UriCall(id)]) +
      (match UrlLookup(s.urls, remote, id)
       case Success(url) => [HttpCall(url)]
       case Failure(_) => [])
  }

  /** The reference reading, with no caches: uri, fetch, parse. */
  function FreshMetadata(remote: Remote, id: nat): Result<NFTMetadata, string> {
    match remote.uriOf(id)
    case Failure(e) => Failure(e)
    case Success(url) => FetchFromUrl(remote, url)
  }

  /** Every cached entry is what the remote services say for its id. */
  predicate Coherent(s: CacheState, remote: Remote) {
    (forall id :: id in s.urls ==> remote.uriOf(id) == Success(s.urls[id])) &&
    (forall id :: id in s.metadata ==> FreshMetadata(remote, id) == Success(s.metadata[id]))
  }

  /** Two cache states hold the same entries (or none) for `id`. */
  predicate AgreeAt(s: CacheState, t: CacheState, id: nat) {
    (id in s.urls <==> id in t.urls) && (id in s.urls ==> s.urls[id] == t.urls[id]) &&
    (id in s.metadata <==> id in t.metadata) && (id in s.metadata ==> s.metadata[id] == t.metadata[id])
  }

  /** Caching never changes an answer: over coherent caches a lookup answers
      what the remote services answer, and the caches stay coherent. */
  lemma CacheIsTransparent(s: CacheState, remote: Remote, id: nat)
    requires Coherent(s, remote)
    ensures MetadataLookup(s, remote, id) == FreshMetadata(remote, id)
    ensures Coherent(CachesAfter(s, remote, id), remote)
  {
  }

  /** A lookup settles: repeating it gives the same answer and changes
      nothing more, and a successful lookup is answered from the cache next time. */
  lemma LookupSettles(s: CacheState, remote: Remote, id: nat)
    ensures MetadataLookup(CachesAfter(s, remote, id), remote, id) == MetadataLookup(s, remote, id)
    ensures CachesAfter(CachesAfter(s, remote, id), remote, id) == CachesAfter(s, remote, id)
    ensures MetadataLookup(s, remote, id).Success? <==> id in CachesAfter(s, remote, id).metadata
    ensures MetadataLookup(s, remote, id).Success? ==> LookupCalls(CachesAfter(s, remote, id), remote, id) == []
  {
  }

  /** A lookup only adds entries, and only under its own id. */
  lemma LookupTouchesOnlyItsId(s: CacheState, remote: Remote, id: nat, other: nat)
    ensures s.urls.Keys <= CachesAfter(s, remote, id).urls.Keys
    ensures s.metadata.Keys <= CachesAfter(s, remote, id).metadata.Keys
    ensures other != id ==> AgreeAt(CachesAfter(s, remote, id), s, other)
  {
  }

  /** The caches are keyed by the id alone, not by the contract: an entry
      filled through one contract answers a later lookup through any other,
      without a call. */
  lemma CachesSharedAcrossContracts(s: CacheState, filled: Remote, other: Remote, id: nat)
    requires MetadataLookup(s, filled, id).Success?
    ensures MetadataLookup(CachesAfter(s, filled, id), other, id) == MetadataLookup(s, filled, id)
    ensures LookupCalls(CachesAfter(s, filled, id), other, id) == []
  {
    LookupSettles(s, filled, id);
  }

  /** A lookup reads the caches only under its own id. */
  lemma LookupIsLocal(s: CacheState, t: CacheState, remote: Remote, id: nat)
    requires AgreeAt(s, t, id)
    ensures MetadataLookup(s, remote, id) == MetadataLookup(t, remote, id)
    ensures LookupCalls(s, remote, id) == LookupCalls(t, remote, id)
  {
  }

  /** `NFT_URL_CACHES` and `NFT_METADATA_CACHES`, with the two get-or-populate
      operations. Each method also returns the remote calls it made. */
  class MetadataCaches {
    var urls: map<nat, string>
    var metadata: map<nat, NFTMetadata>

    function State(): CacheState
      reads this
    {
      CacheState(urls, metadata)
    }

    /** Both caches start empty (`Lazy::new(|| Mutex::new(HashMap::new()))`). */
    constructor ()
      ensures urls == map[] && metadata == map[]
    {
      urls := map[];
      metadata := map[];
    }

    /** `get_nft_url`: a hit is answered from the cache with no call; a miss
        asks the contract and caches the uri only when the call succeeds. */
    method GetNftUrl(remote: Remote, id: nat) returns (r: Result<string, string>, calls: seq<RemoteCall>)
      modifies this
      ensures r == UrlLookup(old(urls), remote, id)
      ensures urls == UrlsAfter(old(urls), remote, id) && metadata == old(metadata)
      ensures id in old(urls) ==> r == Success(old(urls)[id]) && calls == [] && urls == old(urls)
      ensures id !in old(urls) ==> calls == [UriCall(id)]
      ensures r.Success? ==> id in urls && urls[id] == r.value
      ensures r.Failure? ==> urls == old(urls)
    {
      if id in urls {
        r, calls := Success(urls[id]), [];
      } else {
        calls := [UriCall(id)];
        r := remote.uriOf(id);
        if r.Success? {
          urls := urls[id := r.value];
        }
      }
    }

    /** `get_metadata_by_nft_id`: a hit is answered from the cache with no uri
        lookup and no HTTP fetch; a miss gets the uri, fetches and parses, and
        caches the metadata only when every step succeeds. */
    method GetMetadataByNftId(remote: Remote, id: nat) returns (r: Result<NFTMetadata, string>, calls: seq<RemoteCall>)
      modifies this
      ensures r == MetadataLookup(old(State()), remote, id)
      ensures State() == CachesAfter(old(State()), remote, id)
      ensures calls == LookupCalls(old(State()), remote, id)
      ensures id in old(metadata) ==> r == Success(old(metadata)[id]) && calls == [] && State() == old(State())
      ensures r.Success? ==> id in metadata && metadata[id] == r.value
      ensures r.Failure? ==> metadata == old(metadata)
    {
      if id in metadata {
        r, calls := Success(metadata[id]), [];
      } else {
        var url;
        url, calls := GetNftUrl(remote, id);
        match url
        case Failure(e) =>
          r := Failure(e);
        case Success(u) =>
          calls := calls + [HttpCall(u)];
          match remote.httpGet(u)
          case Failure(e) =>
            r := Failure(e);
          case Success(body) =>
            r := remote.parseMetadata(body);
            if r.Success? {
              metadata := metadata[id := r.value];
            }
      }
    }
  }

  // ---------------------------------------------------------------------
  // One spawned task: the item of one catalog id

  /** `balance_of(..).call().await.unwrap_or_default()`: the balance read,
      or 0 when the read fails. */
  function Balance(remote: Remote, owner: Address, id: nat): (b: nat)
    ensures remote.balanceOf(owner, id).Success? ==> b == remote.balanceOf(owner, id).value
    ensures remote.balanceOf(owner, id).Failure? ==> b == 0
  {
    remote.balanceOf(owner, id).GetOr(0)
  }

  /** The item the task for `id` sends, when it starts from the caches `s`. */
  function Completion(s: CacheState, remote: Remote, owner: Address, id: nat): (item: OwnershipItem)
    ensures item.amount == 0 ==> item.nftMetadata == DefaultMetadata()
  {
    var balance := Balance(remote, owner, id);
    var metadata := if balance == 0 then DefaultMetadata() else MetadataLookup(s, remote, id).GetOr(DefaultMetadata());
    OwnershipItem(DecimalString(id), balance, metadata)
  }

  /** An item carries the decimal text of its id and its balance, a failed
      balance read counting as 0. A zero amount has the default metadata; a
      non-zero amount keeps its real amount, with the looked-up metadata or,
      when the lookup fails, the default. */
  lemma CompletionMeaning(s: CacheState, remote: Remote, owner: Address, id: nat)
    ensures var item := Completion(s, remote, owner, id);
            item.nftId == DecimalString(id) &&
            (remote.balanceOf(owner, id).Success? ==> item.amount == remote.balanceOf(owner, id).value) &&
            (remote.balanceOf(owner, id).Failure? ==> item.amount == 0) &&
            (item.amount == 0 ==> item.nftMetadata == DefaultMetadata()) &&
            (item.amount != 0 && MetadataLookup(s, remote, id).Failure? ==> item.nftMetadata == DefaultMetadata()) &&
            (item.amount != 0 && MetadataLookup(s, remote, id).Success? ==>
               item.nftMetadata == MetadataLookup(s, remote, id).value)
  {
  }

  /** The caches after the task for `id`: untouched when the balance is zero. */
  function CachesAfterItem(s: CacheState, remote: Remote, owner: Address, id: nat): CacheState {
    if Balance(remote, owner, id) == 0 then s else CachesAfter(s, remote, id)
  }

  /** The item with no caches at all. */
  function FreshCompletion(remote: Remote, owner: Address, id: nat): OwnershipItem {
    var balance := Balance(remote, owner, id);
    OwnershipItem(DecimalString(id), balance,
      if balance == 0 then DefaultMetadata() else FreshMetadata(remote, id).GetOr(DefaultMetadata()))
  }

  /** Over coherent caches an item says what it would say without caches. */
  lemma CompletionIgnoresCoherentCaches(s: CacheState, remote: Remote, owner: Address, id: nat)
    requires Coherent(s, remote)
    ensures Completion(s, remote, owner, id) == FreshCompletion(remote, owner, id)
    ensures Coherent(CachesAfterItem(s, remote, owner, id), remote)
  {
    CacheIsTransparent(s, remote, id);
  }

  /** An item depends on the caches only through their entries under its id. */
  lemma CompletionIsLocal(s: CacheState, t: CacheState, remote: Remote, owner: Address, id: nat)
    requires AgreeAt(s, t, id)
    ensures Completion(s, remote, owner, id) == Completion(t, remote, owner, id)
  {
    LookupIsLocal(s, t, remote, id);
  }

  /** The body of one spawned task. A zero balance makes no metadata call. */
  method ResolveItem(caches: MetadataCaches, remote: Remote, owner: Address, id: nat)
    returns (item: OwnershipItem, calls: seq<RemoteCall>)
    requires Balance(remote, owner, id) < U64Limit
    modifies caches
    ensures item == Completion(old(caches.State()), remote, owner, id)
    ensures caches.State() == CachesAfterItem(old(caches.State()), remote, owner, id)
    ensures item.amount == 0 ==> calls == [BalanceCall(id)] && caches.State() == old(caches.State())
    ensures item.amount != 0 ==> calls == [BalanceCall(id)] + LookupCalls(old(caches.State()), remote, id)
  {
    calls := [BalanceCall(id)];
    var balance := remote.balanceOf(owner, id).GetOr(0);
    var metadata;
    if balance == 0 {
      metadata := DefaultMetadata();
    } else {
      var result, lookupCalls := caches.GetMetadataByNftId(remote, id);
      calls := calls + lookupCalls;
      metadata := result.GetOr(DefaultMetadata());
    }
    item := OwnershipItem(DecimalString(id), balance, metadata);
  }

  // ---------------------------------------------------------------------
  // Aggregation

  predicate BalancesFit(remote: Remote, owner: Address, ids: seq<nat>) {
    forall k :: 0 <= k < |ids| ==> Balance(remote, owner, ids[k]) < U64Limit
  }

  /** The items of `ids`, in that order, all computed from the caches `s`. */
  function Completions(s: CacheState, remote: Remote, owner: Address, ids: seq<nat>): seq<OwnershipItem> {
    seq(|ids|, k requires 0 <= k < |ids| => Completion(s, remote, owner, ids[k]))
  }

  /** The items kept by the receiving loop: those with `amount != 0`, in order. */
  function Owned(items: seq<OwnershipItem>): (r: seq<OwnershipItem>)
    ensures forall x :: multiset(r)[x] == if x.amount != 0 then multiset(items)[x] else 0
    ensures forall k :: 0 <= k < |r| ==> r[k].amount != 0
  {
    if |items| == 0 then []
    else
      assert items == items[..|items| - 1] + [items[|items| - 1]];
      Owned(items[..|items| - 1]) + (if items[|items| - 1].amount != 0 then [items[|items| - 1]] else [])
  }

  /** What `get_ownership_items` returns for the ids `ids` and the caches `s`. */
  function OwnershipItems(s: CacheState, remote: Remote, owner: Address, ids: seq<nat>): (r: seq<OwnershipItem>)
    ensures SortedByNftId(r)
  {
    SortByNftId(Owned(Completions(s, remote, owner, ids)))
  }

  /** The caches after the tasks for `ids` have run in that order. */
  function CachesAfterAll(s: CacheState, remote: Remote, owner: Address, ids: seq<nat>): CacheState
    decreases |ids|
  {
    if |ids| == 0 then s
    else CachesAfterItem(CachesAfterAll(s, remote, owner, ids[..|ids| - 1]), remote, owner, ids[|ids| - 1])
  }

  /** The tasks for other ids leave the entries under `id` alone. */
  lemma {:induction false} CachesAfterAllElsewhere(s: CacheState, remote: Remote, owner: Address, ids: seq<nat>, id: nat)
    requires id !in ids
    ensures AgreeAt(CachesAfterAll(s, remote, owner, ids), s, id)
    decreases |ids|
  {
    if |ids| > 0 {
      var prefix := ids[..|ids| - 1];
      assert forall k :: 0 <= k < |prefix| ==> prefix[k] == ids[k];
      CachesAfterAllElsewhere(s, remote, owner, prefix, id);
      LookupTouchesOnlyItsId(CachesAfterAll(s, remote, owner, prefix), remote, ids[|ids| - 1], id);
    }
  }

  /** A sequence of distinct values has each value at most once. */
  lemma {:induction false} DistinctCountsAtMostOne<T>(s: seq<T>, x: T)
    requires Defines.Distinct(s)
    ensures multiset(s)[x] <= 1
    decreases |s|
  {
    if |s| > 0 {
      var prefix := s[..|s| - 1];
      assert s == prefix + [s[|s| - 1]];
      assert Defines.Distinct(prefix);
      DistinctCountsAtMostOne(prefix, x);
      assert forall k :: 0 <= k < |prefix| ==> prefix[k] == s[k] != s[|s| - 1];
    }
  }

  /** A rearrangement of distinct values is distinct. */
  lemma DistinctPermutation<T>(a: seq<T>, b: seq<T>)
    requires multiset(a) == multiset(b) && Defines.Distinct(b)
    ensures Defines.Distinct(a)
  {
    forall i, j | 0 <= i < j < |a|
      ensures a[i] != a[j]
    {
      if a[i] == a[j] {
        assert a == a[..i] + [a[i]] + a[i + 1..j] + [a[j]] + a[j + 1..];
        assert multiset(a)[a[i]] >= 2;
        DistinctCountsAtMostOne(b, a[i]);
      }
    }
  }

  lemma CompletionsAppend(s: CacheState, remote: Remote, owner: Address, p: seq<nat>, q: seq<nat>)
    ensures Completions(s, remote, owner, p + q) == Completions(s, remote, owner, p) + Completions(s, remote, owner, q)
  {
  }

  /** Taking one id out of a list takes its item out of the items. */
  lemma CompletionsRemove(s: CacheState, remote: Remote, owner: Address, p: seq<nat>, x: nat, q: seq<nat>)
    ensures multiset(Completions(s, remote, owner, p + [x] + q)) ==
            multiset(Completions(s, remote, owner, p + q)) + multiset{Completion(s, remote, owner, x)}
  {
    CompletionsAppend(s, remote, owner, p + [x], q);
    CompletionsAppend(s, remote, owner, p, [x]);
    CompletionsAppend(s, remote, owner, p, q);
  }

  /** Taking out the id at index `j` takes out one copy of it and one copy of its item. */
  lemma RemoveAt(s: CacheState, remote: Remote, owner: Address, ids: seq<nat>, j: nat)
    requires j < |ids|
    ensures multiset(ids[..j] + ids[j + 1..]) == multiset(ids) - multiset{ids[j]}
    ensures multiset(Completions(s, remote, owner, ids)) ==
            multiset(Completions(s, remote, owner, ids[..j] + ids[j + 1..])) + multiset{Completion(s, remote, owner, ids[j])}
  {
    assert ids == ids[..j] + [ids[j]] + ids[j + 1..];
    CompletionsRemove(s, remote, owner, ids[..j], ids[j], ids[j + 1..]);
  }

  /** Rearranging the ids rearranges the items. */
  lemma {:induction false} CompletionsPermute(s: CacheState, remote: Remote, owner: Address, a: seq<nat>, b: seq<nat>)
    requires multiset(a) == multiset(b)
    ensures multiset(Completions(s, remote, owner, a)) == multiset(Completions(s, remote, owner, b))
    decreases |a|
  {
    assert |a| == |multiset(a)| == |multiset(b)| == |b|;
    if |a| > 0 {
      var i := |a| - 1;
      assert a[i] in multiset(b);
      var j :| 0 <= j < |b| && b[j] == a[i];
      RemoveAt(s, remote, owner, a, i);
      RemoveAt(s, remote, owner, b, j);
      CompletionsPermute(s, remote, owner, a[..i] + a[i + 1..], b[..j] + b[j + 1..]);
    }
  }

  /** Items that share an id text come from the same catalog id, so they are equal. */
  lemma OwnedCompletionsKeyFaithful(s: CacheState, remote: Remote, owner: Address, ids: seq<nat>)
    ensures KeyFaithful(Owned(Completions(s, remote, owner, ids)))
  {
    var items := Completions(s, remote, owner, ids);
    var owned := Owned(items);
    forall x, y | x in owned && y in owned && x.nftId == y.nftId
      ensures x == y
    {
      assert x in multiset(owned) && y in multiset(owned);
      assert x in items && y in items;
      var i :| 0 <= i < |items| && items[i] == x;
      var j :| 0 <= j < |items| && items[j] == y;
      DecimalInjective(ids[i], ids[j]);
    }
  }

  /** The report does not depend on the order in which completions arrive. */
  lemma OwnershipItemsIgnoreArrivalOrder(s: CacheState, remote: Remote, owner: Address, a: seq<nat>, b: seq<nat>)
    requires multiset(a) == multiset(b)
    ensures OwnershipItems(s, remote, owner, a) == OwnershipItems(s, remote, owner, b)
  {
    CompletionsPermute(s, remote, owner, a, b);
    var oa, ob := Owned(Completions(s, remote, owner, a)), Owned(Completions(s, remote, owner, b));
    assert multiset(oa) == multiset(ob);
    OwnedCompletionsKeyFaithful(s, remote, owner, a);
    SortIgnoresInputOrder(oa, ob);
  }

  lemma InCompletions(s: CacheState, remote: Remote, owner: Address, ids: seq<nat>, x: OwnershipItem)
    ensures x in Completions(s, remote, owner, ids) <==>
              exists k :: 0 <= k < |ids| && x == Completion(s, remote, owner, ids[k])
  {
    var items := Completions(s, remote, owner, ids);
    if exists k :: 0 <= k < |ids| && x == Completion(s, remote, owner, ids[k]) {
      var k :| 0 <= k < |ids| && x == Completion(s, remote, owner, ids[k]);
      assert items[k] == x;
    }
  }

  /** An item is reported exactly when it is the item of some id and its amount is not zero. */
  lemma OwnershipItemsMembership(s: CacheState, remote: Remote, owner: Address, ids: seq<nat>, x: OwnershipItem)
    ensures x in OwnershipItems(s, remote, owner, ids) <==>
              x.amount != 0 && exists k :: 0 <= k < |ids| && x == Completion(s, remote, owner, ids[k])
  {
    var items := Completions(s, remote, owner, ids);
    var owned := Owned(items);
    var r := OwnershipItems(s, remote, owner, ids);
    assert multiset(r) == multiset(owned);
    assert x in r <==> multiset(owned)[x] > 0;
    assert multiset(owned)[x] > 0 <==> x.amount != 0 && x in items;
    InCompletions(s, remote, owner, ids, x);
  }

  /** The step of the receiving loop: the task for `arrival[k]` starts from
      caches that agree with the initial ones under its id, and its item
      extends the items received so far. */
  lemma ReceiveStep(start: CacheState, remote: Remote, owner: Address, arrival: seq<nat>, k: nat)
    requires Defines.Distinct(arrival) && k < |arrival|
    ensures AgreeAt(CachesAfterAll(start, remote, owner, arrival[..k]), start, arrival[k])
    ensures CachesAfterAll(start, remote, owner, arrival[..k + 1]) ==
            CachesAfterItem(CachesAfterAll(start, remote, owner, arrival[..k]), remote, owner, arrival[k])
    ensures Completions(start, remote, owner, arrival[..k + 1]) ==
            Completions(start, remote, owner, arrival[..k]) + [Completion(start, remote, owner, arrival[k])]
  {
    assert forall m :: 0 <= m < k ==> arrival[..k][m] == arrival[m] != arrival[k];
    CachesAfterAllElsewhere(start, remote, owner, arrival[..k], arrival[k]);
    assert arrival[..k + 1][..k] == arrival[..k];
  }

  lemma OwnedSnoc(items: seq<OwnershipItem>, x: OwnershipItem)
    ensures Owned(items + [x]) == Owned(items) + (if x.amount != 0 then [x] else [])
  {
    assert (items + [x])[..|items|] == items;
  }

  /** The catalog selection of `get_ownership_items`: the ids of the game
      client's catalog, pushed one by one into a fresh list. */
  method SelectCatalog(gameClient: GameClient, catalog: seq<nat>) returns (ids: seq<nat>)
    ensures ids == catalog
  {
    match gameClient
    case NamiLand =>
      ids := [];
      var k := 0;
      while k < |catalog|
        invariant 0 <= k <= |catalog|
        invariant ids == catalog[..k]
      {
        ids := ids + [catalog[k]];
        k := k + 1;
      }
  }

  /** `get_ownership_items`: one task per catalog id, the completions received
      in the order `arrival`, zero amounts dropped, the rest sorted by id text.
      The result is that of the catalog order, whatever the arrival order. */
  method GetOwnershipItems(
    caches: MetadataCaches,
    remote: Remote,
    owner: Address,
    gameClient: GameClient,
    catalog: seq<nat>,
    arrival: seq<nat>
  ) returns (r: Result<seq<OwnershipItem>, string>)
    requires Defines.Distinct(catalog)
    requires multiset(arrival) == multiset(catalog)
    requires BalancesFit(remote, owner, catalog)
    modifies caches
    ensures r == Success(OwnershipItems(old(caches.State()), remote, owner, catalog))
    ensures caches.State() == CachesAfterAll(old(caches.State()), remote, owner, arrival)
  {
    var nftIds := SelectCatalog(gameClient, catalog);
    ghost var start := caches.State();
    DistinctPermutation(arrival, catalog);
    assert |arrival| == |multiset(arrival)| == |multiset(catalog)| == |nftIds|;
    var ownershipItems: seq<OwnershipItem> := [];
    var k := 0;
    while k < |nftIds|
      invariant 0 <= k <= |arrival|
      invariant caches.State() == CachesAfterAll(start, remote, owner, arrival[..k])
      invariant ownershipItems == Owned(Completions(start, remote, owner, arrival[..k]))
    {
      var id := arrival[k];
      ReceiveStep(start, remote, owner, arrival, k);
      CompletionIsLocal(caches.State(), start, remote, owner, id);
      assert id in multiset(catalog);
      var item, _ := ResolveItem(caches, remote, owner, id);
      OwnedSnoc(Completions(start, remote, owner, arrival[..k]), item);
      if item.amount != 0 {
        ownershipItems := ownershipItems + [item];
      }
      k := k + 1;
    }
    assert arrival[..k] == arrival;
    OwnershipItemsIgnoreArrivalOrder(start, remote, owner, arrival, catalog);
    r := Success(SortByNftId(ownershipItems));
  }

  // ---------------------------------------------------------------------
  // The report

  /** The record `get_nft_ownership` builds from the items and the
      contract-address lookup. The owner is written in its full `{:?}` form,
      the contract address with `to_string()`, its abbreviated `Display` form. */
  function OwnershipReport(owner: Address, network: NetworkType, address: Result<Address, string>, items: seq<OwnershipItem>)
    : (r: Result<NFTOwnership, string>)
    ensures r.Failure? <==> address.Failure?
    ensures address.Failure? ==> r.error == address.error
    ensures r.Success? ==> IsHexAddress(r.value.publicAddress) && HexDecode(r.value.publicAddress[2..]) == owner
    ensures r.Success? ==> r.value.network == network && r.value.contractAddress == AddressDisplay(address.value)
    ensures r.Success? ==> r.value.ownerships == items
  {
    match address
    case Failure(e) => Failure(e)
    case Success(contractAddress) => Success(NFTOwnership(AddressDebug(owner), network, AddressDisplay(contractAddress), items))
  }

  /** As written, the report does not identify the contract: contract
      addresses that agree in their first two and last two bytes give the
      same report (`AddressDisplayCollision` gives two such addresses). */
  lemma ReportHidesContractAddress(owner: Address, network: NetworkType, a: Address, b: Address, items: seq<OwnershipItem>)
    requires a[..2] == b[..2] && a[18..] == b[18..]
    ensures OwnershipReport(owner, network, Success(a), items) == OwnershipReport(owner, network, Success(b), items)
  {
    AddressDisplayKeepsOuterBytes(a, b);
  }

  /** The report with the contract address in its full `{:?}` form, like the
      owner's: the text reads back to the contract address. */
  function OwnershipReportCorrected(owner: Address, network: NetworkType, address: Result<Address, string>, items: seq<OwnershipItem>)
    : (r: Result<NFTOwnership, string>)
    ensures r.Failure? <==> address.Failure?
    ensures address.Failure? ==> r.error == address.error
    ensures r.Success? ==> IsHexAddress(r.value.publicAddress) && HexDecode(r.value.publicAddress[2..]) == owner
    ensures r.Success? ==> IsHexAddress(r.value.contractAddress) && HexDecode(r.value.contractAddress[2..]) == address.value
    ensures r.Success? ==> r.value.network == network && r.value.ownerships == items
    ensures r.Success? ==> OwnershipReport(owner, network, address, items) == Success(r.value.(contractAddress := AddressDisplay(address.value)))
  {
    match address
    case Failure(e) => Failure(e)
    case Success(contractAddress) => Success(NFTOwnership(AddressDebug(owner), network, AddressDebug(contractAddress), items))
  }

  /** `get_nft_ownership`: the items first, then the contract address; an
      address failure is passed on after the items (and the caches) are done. */
  method GetNftOwnership(
    caches: MetadataCaches,
    remote: Remote,
    owner: Address,
    gameClient: GameClient,
    network: NetworkType,
    addressOf: NetworkType -> Result<Address, string>,
    catalog: seq<nat>,
    arrival: seq<nat>
  ) returns (r: Result<NFTOwnership, string>)
    requires Defines.Distinct(catalog)
    requires multiset(arrival) == multiset(catalog)
    requires BalancesFit(remote, owner, catalog)
    modifies caches
    ensures r == OwnershipReport(owner, network, addressOf(network), OwnershipItems(old(caches.State()), remote, owner, catalog))
    ensures caches.State() == CachesAfterAll(old(caches.State()), remote, owner, arrival)
  {
    var items := GetOwnershipItems(caches, remote, owner, gameClient, catalog, arrival);
    match addressOf(network)
    case Failure(e) =>
      r := Failure(e);
    case Success(contractAddress) =>
      r := Success(NFTOwnership(AddressDebug(owner), network, AddressDisplay(contractAddress), items.value));
  }
}
