/**
 * Where each asset of a run is downloaded from, as modules/utils/ipc-handlers.js
 * `handleSpooferAction` works it out before any download starts: the place ids
 * of every creator (`placeIdMap`), the batch items in chunks of 50, each chunk
 * grouped by creator, one rotation loop per group against the asset-delivery
 * batch endpoint, and the verdict on each asset's batch reply.
 *
 * `getPlaceIdFromCreator` and the batch endpoint are oracles indexed by which
 * call is being made, so every sequence of external answers is covered.
 */
module BatchLocations {

  import opened Wrappers
  import opened JsText
  import opened Common
  import opened AssetList
  import opened Transfer

  /** The place id used when a creator's places cannot be fetched. */
  const FallbackPlaceId: int := 99840799534728

  const ChunkSize: nat := 50

  /** `maxRetries` of the rotation loop. */
  const MaxRetries: nat := 5

  const PlaceRetryDelayMs: int := 1000

  // ------------------------------------------------------------- place ids

  /** What `getPlaceIdFromCreator` resolves with: one place id, or a list of them. */
  datatype PlaceReply = OnePlace(placeId: int) | PlaceList(placeIds: seq<int>)

  /** A list is taken as it is; a single place id becomes a one-place list. */
  function AsPlaceArray(reply: PlaceReply): seq<int> {
    match reply
    case OnePlace(p) => [p]
    case PlaceList(ps) => ps
  }

  /**
   * Which call of `getPlaceIdFromCreator` is being made: an attempt of the
   * initial lookup of a creator, or an attempt of the refresh the rotation loop
   * of the chunk starting at `chunkStart` makes at `retryCount`.
   */
  datatype PlaceCall =
    | InitialLookup(key: CreatorKey, attempt: nat)
    | RefreshLookup(key: CreatorKey, chunkStart: nat, retryCount: nat, attempt: nat)

  type PlaceOracle = PlaceCall -> Outcome<PlaceReply>

  /** Attempts of the initial lookup: 2 for a group, 3 for a user. */
  function PlaceAttempts(t: CreatorType): nat {
    if t == Group then 2 else 3
  }

  function InitialAttempt(lookup: PlaceOracle, key: CreatorKey): nat -> Outcome<PlaceReply> {
    (n: nat) => lookup(InitialLookup(key, n))
  }

  function RefreshAttempt(lookup: PlaceOracle, key: CreatorKey, chunkStart: nat, retryCount: nat)
    : nat -> Outcome<PlaceReply>
  {
    (n: nat) => lookup(RefreshLookup(key, chunkStart, retryCount, n))
  }

  /** The entry `placeIdMap[key]` gets: the lookup's place array, or the fallback once it throws. */
  function InitialPlaces(lookup: PlaceOracle, key: CreatorKey): seq<int> {
    match Retry(InitialAttempt(lookup, key), PlaceAttempts(key.creatorType), PlaceRetryDelayMs, true).0
    case Resolved(v) => AsPlaceArray(v)
    case _ => [FallbackPlaceId]
  }

  /** A reply the lookup can give that yields at least one place. */
  predicate YieldsPlaces(o: Outcome<PlaceReply>) {
    o.Threw? || AsPlaceArray(o.value) != []
  }

  /**
   * When every attempt of the initial lookup of a creator throws, the creator
   * gets exactly the fallback place, after 2 calls for a group and 3 for a user.
   */
  lemma InitialPlacesFallback(lookup: PlaceOracle, key: CreatorKey)
    requires forall n: nat :: n < PlaceAttempts(key.creatorType) ==> lookup(InitialLookup(key, n)).Threw?
    ensures InitialPlaces(lookup, key) == [FallbackPlaceId]
    ensures CallCount(Retry(InitialAttempt(lookup, key), PlaceAttempts(key.creatorType), PlaceRetryDelayMs, true).1)
         == PlaceAttempts(key.creatorType)
  {
    RetryExhausted(InitialAttempt(lookup, key), PlaceAttempts(key.creatorType), PlaceRetryDelayMs, true);
  }

  /** The first attempt of the initial lookup that answers decides the creator's places. */
  lemma InitialPlacesFound(lookup: PlaceOracle, key: CreatorKey, k: nat)
    requires k < PlaceAttempts(key.creatorType)
    requires forall n: nat :: n < k ==> lookup(InitialLookup(key, n)).Threw?
    requires lookup(InitialLookup(key, k)).Returned?
    ensures InitialPlaces(lookup, key) == AsPlaceArray(lookup(InitialLookup(key, k)).value)
  {
    RetryReturnsFirstSuccess(InitialAttempt(lookup, key), PlaceAttempts(key.creatorType), PlaceRetryDelayMs, true, k);
  }

  /**
   * Every creator gets a non-empty place list whenever the lookup answers with
   * at least one place (as a single place id always does).
   */
  lemma InitialPlacesNonEmpty(lookup: PlaceOracle, key: CreatorKey)
    requires forall n: nat :: YieldsPlaces(lookup(InitialLookup(key, n)))
    ensures InitialPlaces(lookup, key) != []
  {
    var fn := InitialAttempt(lookup, key);
    RetryResolvesWithReply(fn, PlaceAttempts(key.creatorType), PlaceRetryDelayMs, true);
    var r := Retry(fn, PlaceAttempts(key.creatorType), PlaceRetryDelayMs, true).0;
    if r.Resolved? {
      var k: nat :| k < PlaceAttempts(key.creatorType) && fn(k) == Returned(r.value);
      assert YieldsPlaces(lookup(InitialLookup(key, k)));
    }
  }

  /**
   * The loop over the unique creators that fills `placeIdMap`: one entry per
   * creator named by an entry, each the outcome of that creator's lookup.
   */
  method ResolvePlaceIds(lookup: PlaceOracle, entries: seq<AssetEntry>)
    returns (placeIdMap: map<CreatorKey, seq<int>>)
    ensures forall k :: k in placeIdMap <==> k in KeysOf(entries)
    ensures forall k :: k in placeIdMap ==> placeIdMap[k] == InitialPlaces(lookup, k)
  {
    var creators := UniqueCreators(entries);
    placeIdMap := map[];
    for i := 0 to |creators|
      invariant forall k :: k in placeIdMap <==> k in creators[..i]
      invariant forall k :: k in placeIdMap ==> placeIdMap[k] == InitialPlaces(lookup, k)
    {
      var key := creators[i];
      var r, _ := RetryAsync(InitialAttempt(lookup, key), PlaceAttempts(key.creatorType), PlaceRetryDelayMs, true);
      var places := if r.Resolved? then AsPlaceArray(r.value) else [FallbackPlaceId];
      placeIdMap := placeIdMap[key := places];
      assert creators[..i + 1] == creators[..i] + [key];
    }
    assert creators[..|creators|] == creators;
    forall k | k in KeysOf(entries) ensures k in creators {
      var j :| 0 <= j < |entries| && KeysOf(entries)[j] == k;
      assert entries[j] in entries;
    }
  }

  // ---------------------------------------------------------------- chunks

  /** One element of `batchItems`: `assetId` is `parseInt` of the id with no radix, `None` standing for NaN. */
  datatype BatchItem = BatchItem(requestId: string, assetId: Option<int>, assetType: string,
                                 creatorType: CreatorType, creatorId: string)

  /** What the batch endpoint is sent for an item: the creator fields are stripped. */
  datatype RequestItem = RequestItem(requestId: string, assetId: Option<int>, assetType: string)

  function BatchItems(entries: seq<AssetEntry>, assetType: string): (items: seq<BatchItem>)
    ensures |items| == |entries|
    ensures forall j :: 0 <= j < |items| ==>
      && items[j].requestId == entries[j].id && ItemKey(items[j]) == KeyOf(entries[j])
      && items[j].assetId == ParseIntAuto(entries[j].id) && items[j].assetType == assetType
  {
    seq(|entries|, j requires 0 <= j < |entries| =>
      BatchItem(entries[j].id, ParseIntAuto(entries[j].id), assetType, entries[j].creatorType, entries[j].creatorId))
  }

  function ItemKey(item: BatchItem): CreatorKey {
    CreatorKey(item.creatorType, item.creatorId)
  }

  function WithoutCreator(items: seq<BatchItem>): (body: seq<RequestItem>)
    ensures |body| == |items|
    ensures forall j :: 0 <= j < |body| ==> body[j].requestId == items[j].requestId
  {
    seq(|items|, j requires 0 <= j < |items| => RequestItem(items[j].requestId, items[j].assetId, items[j].assetType))
  }

  function Min(a: int, b: int): int {
    if a < b then a else b
  }

  /** The up to 50 items starting at offset `i`. */
  function ChunkAt<T>(items: seq<T>, i: nat): seq<T>
    requires i <= |items|
  {
    items[i..Min(i + ChunkSize, |items|)]
  }

  /** The chunks the chunk loop visits from offset `i` on, stepping by 50. */
  function ChunksFrom<T>(items: seq<T>, i: nat): seq<seq<T>>
    requires i <= |items|
    decreases |items| - i
  {
    if i == |items| then []
    else [ChunkAt(items, i)] + ChunksFrom(items, Min(i + ChunkSize, |items|))
  }

  function Flatten<T>(parts: seq<seq<T>>): seq<T> {
    if parts == [] then [] else parts[0] + Flatten(parts[1..])
  }

  /**
   * The chunks cover the items exactly once, in order; each holds 1 to 50
   * items, and only the last may hold fewer than 50.
   */
  lemma {:induction false} ChunksPartition<T>(items: seq<T>, i: nat)
    requires i <= |items|
    ensures Flatten(ChunksFrom(items, i)) == items[i..]
    ensures forall c :: 0 <= c < |ChunksFrom(items, i)| ==> 1 <= |ChunksFrom(items, i)[c]| <= ChunkSize
    ensures forall c :: 0 <= c < |ChunksFrom(items, i)| - 1 ==> |ChunksFrom(items, i)[c]| == ChunkSize
    decreases |items| - i
  {
    if i < |items| {
      var next := Min(i + ChunkSize, |items|);
      ChunksPartition(items, next);
      var cs := ChunksFrom(items, i);
      assert cs[1..] == ChunksFrom(items, next);
      assert items[i..] == ChunkAt(items, i) + items[next..];
      if next == |items| {
        assert ChunksFrom(items, next) == [];
      }
    }
  }

  // ------------------------------------------------------- creator groups

  /** The items of one creator in a chunk, in chunk order. */
  datatype CreatorGroup = CreatorGroup(key: CreatorKey, items: seq<BatchItem>)

  function ItemKeys(items: seq<BatchItem>): (keys: seq<CreatorKey>)
    ensures |keys| == |items| && forall j :: 0 <= j < |keys| ==> keys[j] == ItemKey(items[j])
  {
    seq(|items|, j requires 0 <= j < |items| => ItemKey(items[j]))
  }

  /** The items of `items` whose creator is `key`, order kept. */
  function WithKey(items: seq<BatchItem>, key: CreatorKey): (r: seq<BatchItem>)
    ensures |r| <= |items|
    ensures forall x :: x in r <==> x in items && ItemKey(x) == key
  {
    if items == [] then []
    else
      var last := items[|items| - 1];
      assert forall x :: x in items <==> x in items[..|items| - 1] || x == last;
      WithKey(items[..|items| - 1], key) + (if ItemKey(last) == key then [last] else [])
  }

  /**
   * `creatorGroups` as `Object.entries` lists it: one group per distinct
   * creator of the chunk, in order of first appearance (the keys are never
   * integer-like, so insertion order is kept), holding that creator's items.
   */
  function CreatorGroups(chunk: seq<BatchItem>): (groups: seq<CreatorGroup>)
    ensures |groups| == |Dedup(ItemKeys(chunk))|
    ensures forall g :: 0 <= g < |groups| ==> groups[g] == CreatorGroup(Dedup(ItemKeys(chunk))[g], WithKey(chunk, Dedup(ItemKeys(chunk))[g]))
  {
    var keys := Dedup(ItemKeys(chunk));
    seq(|keys|, g requires 0 <= g < |keys| => CreatorGroup(keys[g], WithKey(chunk, keys[g])))
  }

  /** The position of the group for `key`, or `|groups|` when there is none. */
  function FindGroup(groups: seq<CreatorGroup>, key: CreatorKey): (p: nat)
    ensures p <= |groups|
    ensures p < |groups| ==> groups[p].key == key
    ensures forall g :: 0 <= g < p ==> groups[g].key != key
  {
    if groups == [] then 0
    else if groups[0].key == key then 0
    else 1 + FindGroup(groups[1..], key)
  }

  lemma ItemKeysSnoc(chunk: seq<BatchItem>, x: BatchItem)
    ensures ItemKeys(chunk + [x]) == ItemKeys(chunk) + [ItemKey(x)]
  {
  }

  lemma DedupSnoc(keys: seq<CreatorKey>, k: CreatorKey)
    ensures Dedup(keys + [k]) == if k in Dedup(keys) then Dedup(keys) else Dedup(keys) + [k]
  {
    assert (keys + [k])[..|keys|] == keys;
  }

  lemma WithKeySnoc(chunk: seq<BatchItem>, x: BatchItem, k: CreatorKey)
    ensures WithKey(chunk + [x], k) == WithKey(chunk, k) + (if ItemKey(x) == k then [x] else [])
  {
    assert (chunk + [x])[..|chunk|] == chunk;
  }

  lemma FindGroupOfKeys(chunk: seq<BatchItem>, k: CreatorKey)
    ensures FindGroup(CreatorGroups(chunk), k) < |CreatorGroups(chunk)| <==> k in Dedup(ItemKeys(chunk))
  {
    var groups := CreatorGroups(chunk);
    var keys := Dedup(ItemKeys(chunk));
    var p := FindGroup(groups, k);
    if k in keys {
      var g :| 0 <= g < |keys| && keys[g] == k;
      assert groups[g].key == k;
    }
  }

  /** Adding one more item of the chunk to the groups built so far. */
  /** One step of the grouping loop: `x` joins its creator's group, or opens a new one at the end. */
  function AddItem(groups: seq<CreatorGroup>, x: BatchItem): seq<CreatorGroup> {
    var p := FindGroup(groups, ItemKey(x));
    if p < |groups| then groups[p := CreatorGroup(ItemKey(x), groups[p].items + [x])]
    else groups + [CreatorGroup(ItemKey(x), [x])]
  }

  lemma CreatorGroupsSnoc(chunk: seq<BatchItem>, x: BatchItem)
    ensures CreatorGroups(chunk + [x]) == AddItem(CreatorGroups(chunk), x)
  {
    var kx := ItemKey(x);
    var keys := Dedup(ItemKeys(chunk));
    var groups := CreatorGroups(chunk);
    var p := FindGroup(groups, kx);
    ItemKeysSnoc(chunk, x);
    DedupSnoc(ItemKeys(chunk), kx);
    FindGroupOfKeys(chunk, kx);
    GroupsOfSnoc(chunk, x);
    if p < |groups| {
      SnocIntoExisting(chunk, x, p);
    } else {
      SnocIntoNew(chunk, x);
    }
  }

  /** Each group after one more item: the same creator, with the item appended when it is that creator's. */
  lemma GroupsOfSnoc(chunk: seq<BatchItem>, x: BatchItem)
    ensures var keys := Dedup(ItemKeys(chunk + [x]));
      forall g :: 0 <= g < |CreatorGroups(chunk + [x])| ==> (CreatorGroups(chunk + [x])[g] ==
        CreatorGroup(keys[g], WithKey(chunk, keys[g]) + (if ItemKey(x) == keys[g] then [x] else [])))
  {
    var keys := Dedup(ItemKeys(chunk + [x]));
    var after := CreatorGroups(chunk + [x]);
    forall g | 0 <= g < |after|
      ensures after[g] == CreatorGroup(keys[g], WithKey(chunk, keys[g]) + (if ItemKey(x) == keys[g] then [x] else []))
    {
      WithKeySnoc(chunk, x, keys[g]);
    }
  }

  lemma SnocIntoExisting(chunk: seq<BatchItem>, x: BatchItem, p: nat)
    requires p < |CreatorGroups(chunk)| && CreatorGroups(chunk)[p].key == ItemKey(x)
    requires Dedup(ItemKeys(chunk + [x])) == Dedup(ItemKeys(chunk))
    requires forall g :: 0 <= g < |CreatorGroups(chunk + [x])| ==> (CreatorGroups(chunk + [x])[g] ==
      CreatorGroup(Dedup(ItemKeys(chunk + [x]))[g], WithKey(chunk, Dedup(ItemKeys(chunk + [x]))[g]) + (if ItemKey(x) == Dedup(ItemKeys(chunk + [x]))[g] then [x] else [])))
    ensures CreatorGroups(chunk + [x]) == CreatorGroups(chunk)[p := CreatorGroup(ItemKey(x), CreatorGroups(chunk)[p].items + [x])]
  {
    var keys := Dedup(ItemKeys(chunk));
    var before := CreatorGroups(chunk);
    var after := CreatorGroups(chunk + [x]);
    var expected := before[p := CreatorGroup(ItemKey(x), before[p].items + [x])];
    assert |after| == |expected|;
    forall g | 0 <= g < |after| ensures after[g] == expected[g] {
      if g != p {
        assert keys[g] != keys[p];
      }
    }
  }

  lemma {:induction false} WithKeyAbsent(chunk: seq<BatchItem>, k: CreatorKey)
    requires k !in ItemKeys(chunk)
    ensures WithKey(chunk, k) == []
  {
    if chunk != [] {
      var n := |chunk|;
      assert ItemKeys(chunk)[n - 1] == ItemKey(chunk[n - 1]);
      assert ItemKeys(chunk[..n - 1]) == ItemKeys(chunk)[..n - 1];
      WithKeyAbsent(chunk[..n - 1], k);
    }
  }

  lemma SnocIntoNew(chunk: seq<BatchItem>, x: BatchItem)
    requires ItemKey(x) !in Dedup(ItemKeys(chunk))
    requires Dedup(ItemKeys(chunk + [x])) == Dedup(ItemKeys(chunk)) + [ItemKey(x)]
    requires forall g :: 0 <= g < |CreatorGroups(chunk + [x])| ==> (CreatorGroups(chunk + [x])[g] ==
      CreatorGroup(Dedup(ItemKeys(chunk + [x]))[g], WithKey(chunk, Dedup(ItemKeys(chunk + [x]))[g]) + (if ItemKey(x) == Dedup(ItemKeys(chunk + [x]))[g] then [x] else [])))
    ensures CreatorGroups(chunk + [x]) == CreatorGroups(chunk) + [CreatorGroup(ItemKey(x), [x])]
  {
    WithKeyAbsent(chunk, ItemKey(x));
    var keys := Dedup(ItemKeys(chunk));
    var after := CreatorGroups(chunk + [x]);
    var expected := CreatorGroups(chunk) + [CreatorGroup(ItemKey(x), [x])];
    assert |after| == |expected|;
    forall g | 0 <= g < |after| ensures after[g] == expected[g] {
      if g < |keys| {
        assert keys[g] != ItemKey(x);
      }
    }
  }

  /**
   * The grouping loop over the chunk's items, pushing each item onto the
   * group of its creator, opening a group on a creator's first item.
   */
  method GroupByCreator(chunk: seq<BatchItem>) returns (groups: seq<CreatorGroup>)
    ensures groups == CreatorGroups(chunk)
  {
    groups := [];
    for j := 0 to |chunk|
      invariant groups == CreatorGroups(chunk[..j])
    {
      GroupsOfLongerPrefix(chunk, j);
      groups := PushItem(groups, chunk[j]);
    }
    assert chunk[..|chunk|] == chunk;
  }

  lemma GroupsOfLongerPrefix(chunk: seq<BatchItem>, j: nat)
    requires j < |chunk|
    ensures CreatorGroups(chunk[..j + 1]) == AddItem(CreatorGroups(chunk[..j]), chunk[j])
  {
    assert chunk[..j + 1] == chunk[..j] + [chunk[j]];
    CreatorGroupsSnoc(chunk[..j], chunk[j]);
  }

  /** The body of the grouping loop: look up the creator's group and push onto it, or open one. */
  method PushItem(groups: seq<CreatorGroup>, item: BatchItem) returns (next: seq<CreatorGroup>)
    ensures next == AddItem(groups, item)
  {
    var p := FindGroup(groups, ItemKey(item));
    if p < |groups| {
      next := groups[p := CreatorGroup(ItemKey(item), groups[p].items + [item])];
    } else {
      next := groups + [CreatorGroup(ItemKey(item), [item])];
    }
  }

  function SizeSum(groups: seq<CreatorGroup>): nat {
    if groups == [] then 0 else SizeSum(groups[..|groups| - 1]) + |groups[|groups| - 1].items|
  }

  lemma {:induction false} SizeSumUpdate(groups: seq<CreatorGroup>, p: nat, g: CreatorGroup)
    requires p < |groups|
    ensures SizeSum(groups[p := g]) == SizeSum(groups) - |groups[p].items| + |g.items|
    decreases |groups|
  {
    var n := |groups|;
    if p < n - 1 {
      assert groups[p := g][..n - 1] == groups[..n - 1][p := g];
      SizeSumUpdate(groups[..n - 1], p, g);
    } else {
      assert groups[p := g][..n - 1] == groups[..n - 1];
    }
  }

  lemma {:induction false} GroupSizesAddUp(chunk: seq<BatchItem>)
    ensures SizeSum(CreatorGroups(chunk)) == |chunk|
    decreases |chunk|
  {
    if chunk != [] {
      var prefix := chunk[..|chunk| - 1];
      var x := chunk[|chunk| - 1];
      assert prefix + [x] == chunk;
      GroupSizesAddUp(prefix);
      CreatorGroupsSnoc(prefix, x);
      var before := CreatorGroups(prefix);
      var p := FindGroup(before, ItemKey(x));
      if p < |before| {
        SizeSumUpdate(before, p, CreatorGroup(ItemKey(x), before[p].items + [x]));
      } else {
        assert (before + [CreatorGroup(ItemKey(x), [x])])[..|before|] == before;
      }
    }
  }

  lemma GroupsNonEmpty(chunk: seq<BatchItem>, g: nat)
    requires g < |CreatorGroups(chunk)|
    ensures CreatorGroups(chunk)[g].items != []
  {
    var keys := Dedup(ItemKeys(chunk));
    assert keys[g] in ItemKeys(chunk);
    var j :| 0 <= j < |chunk| && ItemKeys(chunk)[j] == keys[g];
    assert chunk[j] in CreatorGroups(chunk)[g].items;
  }

  lemma ItemHasGroup(chunk: seq<BatchItem>, x: BatchItem)
    requires x in chunk
    ensures exists g :: 0 <= g < |CreatorGroups(chunk)| && CreatorGroups(chunk)[g].key == ItemKey(x)
  {
    var j :| 0 <= j < |chunk| && chunk[j] == x;
    assert ItemKeys(chunk)[j] == ItemKey(x);
    var keys := Dedup(ItemKeys(chunk));
    assert ItemKey(x) in keys;
    var g :| 0 <= g < |keys| && keys[g] == ItemKey(x);
    assert CreatorGroups(chunk)[g].key == ItemKey(x);
  }

  /**
   * Every item of a chunk lands in exactly one group, the one of its creator;
   * the groups have distinct creators, none is empty, and together they hold
   * as many items as the chunk.
   */
  lemma GroupsPartitionChunk(chunk: seq<BatchItem>)
    ensures var groups := CreatorGroups(chunk);
      && (forall g, h :: 0 <= g < h < |groups| ==> groups[g].key != groups[h].key)
      && (forall g :: 0 <= g < |groups| ==> groups[g].items != [])
      && (forall g, x :: 0 <= g < |groups| && x in chunk ==> (x in groups[g].items <==> groups[g].key == ItemKey(x)))
      && (forall x :: x in chunk ==> exists g :: 0 <= g < |groups| && groups[g].key == ItemKey(x))
      && SizeSum(groups) == |chunk|
  {
    GroupSizesAddUp(chunk);
    forall g | 0 <= g < |CreatorGroups(chunk)| ensures CreatorGroups(chunk)[g].items != [] {
      GroupsNonEmpty(chunk, g);
    }
    forall x | x in chunk ensures exists g :: 0 <= g < |CreatorGroups(chunk)| && CreatorGroups(chunk)[g].key == ItemKey(x) {
      ItemHasGroup(chunk, x);
    }
  }

  // ----------------------------------------------------- the batch endpoint

  /** Which batch call is being made: the chunk's offset, the creator, the retry count and the body sent. */
  datatype BatchRequest = BatchRequest(chunkStart: nat, key: CreatorKey, retryCount: nat, body: seq<RequestItem>)

  /** An element of a reply's `errors`: its `code`, `Message` and `message` fields and its JSON text. */
  datatype BatchError = BatchError(code: int, upperMessage: string, message: string, json: string)

  /**
   * An element of the batch reply; `locations` holds the `location` field of
   * each element of the reply's `locations` (a missing array reads as empty).
   */
  datatype LocationReply = LocationReply(requestId: string, errors: seq<BatchError>, locations: seq<string>)

  /** The request throws, answers with a status that is not OK, or answers with its JSON array. */
  datatype BatchOutcome = RequestThrew(message: string) | NotOk(status: nat) | Replied(replies: seq<LocationReply>)

  type BatchOracle = BatchRequest -> BatchOutcome

  /** The reply element carries errors and the first of them has code 403. */
  predicate Forbidden(reply: LocationReply) {
    |reply.errors| > 0 && reply.errors[0].code == 403
  }

  predicate HasForbidden(replies: seq<LocationReply>) {
    exists j :: 0 <= j < |replies| && Forbidden(replies[j])
  }

  /** The message of the error a batch call throws, if it throws. */
  function ThrownMessage(key: CreatorKey, outcome: BatchOutcome): Option<string> {
    match outcome
    case RequestThrew(m) => Some(m)
    case NotOk(status) => Some("Batch request failed for " + KeyString(key) + ": " + NatToString(status))
    case Replied(_) => None
  }

  /** The recording loop as a value: each reply element is stored under its request id, in reply order. */
  function RecordAll(locations: map<string, LocationReply>, replies: seq<LocationReply>): map<string, LocationReply>
    decreases |replies|
  {
    if replies == [] then locations
    else
      var last := replies[|replies| - 1];
      RecordAll(locations, replies[..|replies| - 1])[last.requestId := last]
  }

  /** The last reply carrying an id is the one kept for it. */
  lemma {:induction false} RecordedReplyWins(locations: map<string, LocationReply>, replies: seq<LocationReply>, j: nat)
    requires j < |replies|
    requires forall k :: j < k < |replies| ==> replies[k].requestId != replies[j].requestId
    ensures replies[j].requestId in RecordAll(locations, replies)
    ensures RecordAll(locations, replies)[replies[j].requestId] == replies[j]
    decreases |replies|
  {
    var n := |replies|;
    if j < n - 1 {
      RecordedReplyWins(locations, replies[..n - 1], j);
    }
  }

  /** Ids no reply carries keep what they had. */
  lemma {:induction false} RecordAllLeavesOthers(locations: map<string, LocationReply>, replies: seq<LocationReply>, id: string)
    requires forall k :: 0 <= k < |replies| ==> replies[k].requestId != id
    ensures (id in RecordAll(locations, replies)) == (id in locations)
    ensures id in locations ==> RecordAll(locations, replies)[id] == locations[id]
    decreases |replies|
  {
    if replies != [] {
      RecordAllLeavesOthers(locations, replies[..|replies| - 1], id);
    }
  }

  method RecordLocations(locations0: map<string, LocationReply>, replies: seq<LocationReply>)
    returns (locations: map<string, LocationReply>)
    ensures locations == RecordAll(locations0, replies)
  {
    locations := locations0;
    for j := 0 to |replies|
      invariant locations == RecordAll(locations0, replies[..j])
    {
      assert replies[..j + 1][..j] == replies[..j];
      locations := locations[replies[j].requestId := replies[j]];
    }
    assert replies[..|replies|] == replies;
  }

  // ------------------------------------------------------ the rotation loop

  /** How one creator group's rotation loop ends. */
  datatype GroupEnd =
    | Recorded(replies: seq<LocationReply>)
    | NothingRecorded
    | GroupFailed(message: string)

  /**
   * The end of the loop, the group's place list when it ends, whether that
   * list was refreshed (and so written back to `placeIdMap`), and the number
   * of batch calls made.
   */
  datatype GroupRun = GroupRun(end: GroupEnd, places: seq<int>, refreshed: bool, calls: nat)

  /**
   * The rotation loop from a given state; it runs while calls remain and the
   * place index is in range. A reply with a 403 moves to the next place while there
   * is one; at the last place it refreshes the places (one attempt) while
   * `retryCount < maxRetries`; otherwise the reply is recorded.
   */
  function RotationFrom(batch: BatchOracle, lookup: PlaceOracle, start: nat, key: CreatorKey, body: seq<RequestItem>,
                        places: seq<int>, index: nat, retryCount: nat, refreshed: bool): GroupRun
    decreases MaxRetries + 1 - retryCount
  {
    if retryCount > MaxRetries || index >= |places| then GroupRun(NothingRecorded, places, refreshed, retryCount)
    else
      var outcome := batch(BatchRequest(start, key, retryCount, body));
      match ThrownMessage(key, outcome)
      case Some(m) => GroupRun(GroupFailed(m), places, refreshed, retryCount + 1)
      case None =>
        if !HasForbidden(outcome.replies) then GroupRun(Recorded(outcome.replies), places, refreshed, retryCount + 1)
        else if index < |places| - 1 then
          RotationFrom(batch, lookup, start, key, body, places, index + 1, retryCount + 1, refreshed)
        else if retryCount < MaxRetries then
          match Retry(RefreshAttempt(lookup, key, start, retryCount), 1, PlaceRetryDelayMs, false).0
          case Resolved(reply) =>
            RotationFrom(batch, lookup, start, key, body, AsPlaceArray(reply), 0, retryCount + 1, true)
          case _ => GroupRun(Recorded(outcome.replies), places, refreshed, retryCount + 1)
        else GroupRun(Recorded(outcome.replies), places, refreshed, retryCount + 1)
  }

  function Rotation(batch: BatchOracle, lookup: PlaceOracle, start: nat, key: CreatorKey, body: seq<RequestItem>,
                    places: seq<int>): GroupRun
  {
    RotationFrom(batch, lookup, start, key, body, places, 0, 0, false)
  }

  /**
   * The rotation loop of one creator group: the batch calls, the place
   * refreshes and the recording of the last reply.
   */
  method ResolveGroup(batch: BatchOracle, lookup: PlaceOracle, start: nat, key: CreatorKey, body: seq<RequestItem>,
                      initial: seq<int>, locations0: map<string, LocationReply>)
    returns (end: GroupEnd, places: seq<int>, refreshed: bool, calls: nat, locations: map<string, LocationReply>)
    ensures GroupRun(end, places, refreshed, calls) == Rotation(batch, lookup, start, key, body, initial)
    ensures locations == if end.Recorded? then RecordAll(locations0, end.replies) else locations0
  {
    places := initial;
    refreshed := false;
    locations := locations0;
    var placeIdIndex: nat := 0;
    var retryCount: nat := 0;
    while retryCount <= MaxRetries && placeIdIndex < |places|
      invariant Rotation(batch, lookup, start, key, body, initial)
             == RotationFrom(batch, lookup, start, key, body, places, placeIdIndex, retryCount, refreshed)
      decreases MaxRetries + 1 - retryCount
    {
      var outcome := batch(BatchRequest(start, key, retryCount, body));
      var thrown := ThrownMessage(key, outcome);
      if thrown.Some? {
        end, calls := GroupFailed(thrown.value), retryCount + 1;
        return;
      }
      var replies := outcome.replies;
      if HasForbidden(replies) {
        if placeIdIndex < |places| - 1 {
          placeIdIndex := placeIdIndex + 1;
          retryCount := retryCount + 1;
          continue;
        } else if retryCount < MaxRetries {
          var refresh, _ := RetryAsync(RefreshAttempt(lookup, key, start, retryCount), 1, PlaceRetryDelayMs, false);
          if refresh.Resolved? {
            places := AsPlaceArray(refresh.value);
            refreshed := true;
            placeIdIndex := 0;
            retryCount := retryCount + 1;
            continue;
          }
        }
      }
      locations := RecordLocations(locations0, replies);
      end, calls := Recorded(replies), retryCount + 1;
      return;
    }
    end, calls := NothingRecorded, retryCount;
  }

  /** Every call of the loop consumes a retry, so a group makes at most six batch calls. */
  lemma {:induction false} RotationCallsBounded(batch: BatchOracle, lookup: PlaceOracle, start: nat, key: CreatorKey,
                                                body: seq<RequestItem>, places: seq<int>, index: nat, retryCount: nat, refreshed: bool)
    requires retryCount <= MaxRetries + 1
    ensures retryCount <= RotationFrom(batch, lookup, start, key, body, places, index, retryCount, refreshed).calls <= MaxRetries + 1
    decreases MaxRetries + 1 - retryCount
  {
    if retryCount <= MaxRetries && index < |places| {
      var outcome := batch(BatchRequest(start, key, retryCount, body));
      if ThrownMessage(key, outcome).None? && HasForbidden(outcome.replies) {
        if index < |places| - 1 {
          RotationCallsBounded(batch, lookup, start, key, body, places, index + 1, retryCount + 1, refreshed);
        } else if retryCount < MaxRetries {
          var refresh := Retry(RefreshAttempt(lookup, key, start, retryCount), 1, PlaceRetryDelayMs, false).0;
          if refresh.Resolved? {
            RotationCallsBounded(batch, lookup, start, key, body, AsPlaceArray(refresh.value), 0, retryCount + 1, true);
          }
        }
      }
    }
  }

  /** Two runs of the loop that end alike, after as many calls, refreshing the same places. */
  predicate SameCourse(r1: GroupRun, r2: GroupRun, refreshed: bool) {
    r1.end == r2.end && r1.calls == r2.calls && r1.refreshed == r2.refreshed
    && (r1.refreshed && !refreshed ==> r1.places == r2.places)
  }

  /**
   * No place id is ever sent with a batch request, so how a group's loop ends
   * depends on how many places it starts with, not on which they are.
   */
  lemma {:induction false} RotationIgnoresPlaceValues(batch: BatchOracle, lookup: PlaceOracle, start: nat, key: CreatorKey,
                                                      body: seq<RequestItem>, p1: seq<int>, p2: seq<int>,
                                                      index: nat, retryCount: nat, refreshed: bool)
    requires |p1| == |p2|
    ensures SameCourse(RotationFrom(batch, lookup, start, key, body, p1, index, retryCount, refreshed),
                       RotationFrom(batch, lookup, start, key, body, p2, index, retryCount, refreshed), refreshed)
    decreases MaxRetries + 1 - retryCount
  {
    if retryCount <= MaxRetries && index < |p1| {
      var outcome := batch(BatchRequest(start, key, retryCount, body));
      if ThrownMessage(key, outcome).None? && HasForbidden(outcome.replies) {
        if index < |p1| - 1 {
          RotationIgnoresPlaceValues(batch, lookup, start, key, body, p1, p2, index + 1, retryCount + 1, refreshed);
        } else {
          SameCourseAtLastPlace(batch, lookup, start, key, body, p1, p2, index, retryCount, refreshed);
        }
      }
    }
  }

  /** At the last place a 403 ends the loop or refreshes the places, whatever the places were. */
  lemma SameCourseAtLastPlace(batch: BatchOracle, lookup: PlaceOracle, start: nat, key: CreatorKey,
                              body: seq<RequestItem>, p1: seq<int>, p2: seq<int>,
                              index: nat, retryCount: nat, refreshed: bool)
    requires |p1| == |p2| && retryCount <= MaxRetries && index == |p1| - 1
    requires var outcome := batch(BatchRequest(start, key, retryCount, body));
      ThrownMessage(key, outcome).None? && HasForbidden(outcome.replies)
    ensures SameCourse(RotationFrom(batch, lookup, start, key, body, p1, index, retryCount, refreshed),
                       RotationFrom(batch, lookup, start, key, body, p2, index, retryCount, refreshed), refreshed)
  {
  }

  /** A recorded end holds the replies of the run's last batch call. */
  predicate RecordsLastReply(batch: BatchOracle, start: nat, key: CreatorKey, body: seq<RequestItem>, run: GroupRun) {
    run.end.Recorded? ==> run.calls >= 1 && batch(BatchRequest(start, key, run.calls - 1, body)) == Replied(run.end.replies)
  }

  /** What the loop records is the reply to its last call. */
  lemma {:induction false} RecordedIsLastReply(batch: BatchOracle, lookup: PlaceOracle, start: nat, key: CreatorKey,
      body: seq<RequestItem>, places: seq<int>, index: nat, retryCount: nat, refreshed: bool)
    ensures RecordsLastReply(batch, start, key, body, RotationFrom(batch, lookup, start, key, body, places, index, retryCount, refreshed))
    decreases MaxRetries + 1 - retryCount
  {
    if retryCount <= MaxRetries && index < |places| {
      var outcome := batch(BatchRequest(start, key, retryCount, body));
      if ThrownMessage(key, outcome).None? && HasForbidden(outcome.replies) {
        if index < |places| - 1 {
          RecordedIsLastReply(batch, lookup, start, key, body, places, index + 1, retryCount + 1, refreshed);
        } else if retryCount < MaxRetries {
          var refresh := Retry(RefreshAttempt(lookup, key, start, retryCount), 1, PlaceRetryDelayMs, false).0;
          if refresh.Resolved? {
            RecordedIsLastReply(batch, lookup, start, key, body, AsPlaceArray(refresh.value), 0, retryCount + 1, true);
          }
        }
      }
    }
  }

  /**
   * A reply with a 403 is recorded only once the retries are spent or the
   * refresh of the places that followed it failed.
   */
  /** Whether the place-id refresh before call `retryCount + 1` failed. */
  predicate RefreshFailed(lookup: PlaceOracle, key: CreatorKey, start: nat, retryCount: nat) {
    !Retry(RefreshAttempt(lookup, key, start, retryCount), 1, PlaceRetryDelayMs, false).0.Resolved?
  }

  /** A run that ends on a 403 used every call, or its last refresh failed. */
  predicate StuckIfForbidden(lookup: PlaceOracle, key: CreatorKey, start: nat, run: GroupRun) {
    run.end.Recorded? && HasForbidden(run.end.replies) ==>
      run.calls == MaxRetries + 1 || (run.calls >= 1 && RefreshFailed(lookup, key, start, run.calls - 1))
  }

  lemma {:induction false} ForbiddenRecordedOnlyWhenStuck(batch: BatchOracle, lookup: PlaceOracle, start: nat, key: CreatorKey,
      body: seq<RequestItem>, places: seq<int>, index: nat, retryCount: nat, refreshed: bool)
    ensures StuckIfForbidden(lookup, key, start, RotationFrom(batch, lookup, start, key, body, places, index, retryCount, refreshed))
    decreases MaxRetries + 1 - retryCount
  {
    if retryCount <= MaxRetries && index < |places| {
      var outcome := batch(BatchRequest(start, key, retryCount, body));
      if ThrownMessage(key, outcome).None? && HasForbidden(outcome.replies) {
        if index < |places| - 1 {
          ForbiddenRecordedOnlyWhenStuck(batch, lookup, start, key, body, places, index + 1, retryCount + 1, refreshed);
        } else if retryCount < MaxRetries && !RefreshFailed(lookup, key, start, retryCount) {
          var refresh := Retry(RefreshAttempt(lookup, key, start, retryCount), 1, PlaceRetryDelayMs, false).0;
          ForbiddenRecordedOnlyWhenStuck(batch, lookup, start, key, body, AsPlaceArray(refresh.value), 0, retryCount + 1, true);
        }
      }
    }
  }

  /** A failed end carries the message of the error the run's last batch call threw. */
  predicate FailsOnLastError(batch: BatchOracle, start: nat, key: CreatorKey, body: seq<RequestItem>, run: GroupRun) {
    run.end.GroupFailed? ==>
      run.calls >= 1 && ThrownMessage(key, batch(BatchRequest(start, key, run.calls - 1, body))) == Some(run.end.message)
  }

  /** A failed group ends on the error its last call threw. */
  lemma {:induction false} FailureIsLastError(batch: BatchOracle, lookup: PlaceOracle, start: nat, key: CreatorKey,
      body: seq<RequestItem>, places: seq<int>, index: nat, retryCount: nat, refreshed: bool)
    ensures FailsOnLastError(batch, start, key, body, RotationFrom(batch, lookup, start, key, body, places, index, retryCount, refreshed))
    decreases MaxRetries + 1 - retryCount
  {
    if retryCount <= MaxRetries && index < |places| {
      var outcome := batch(BatchRequest(start, key, retryCount, body));
      if ThrownMessage(key, outcome).None? && HasForbidden(outcome.replies) {
        if index < |places| - 1 {
          FailureIsLastError(batch, lookup, start, key, body, places, index + 1, retryCount + 1, refreshed);
        } else if retryCount < MaxRetries {
          var refresh := Retry(RefreshAttempt(lookup, key, start, retryCount), 1, PlaceRetryDelayMs, false).0;
          if refresh.Resolved? {
            FailureIsLastError(batch, lookup, start, key, body, AsPlaceArray(refresh.value), 0, retryCount + 1, true);
          }
        }
      }
    }
  }

  /** The refresh lookups of a group answer, when they answer, with a single place id. */
  ghost predicate RefreshGivesOnePlace(lookup: PlaceOracle, key: CreatorKey, start: nat) {
    forall r: nat, n: nat :: lookup(RefreshLookup(key, start, r, n)).Returned? ==> lookup(RefreshLookup(key, start, r, n)).value.OnePlace?
  }

  lemma RefreshedSinglePlace(lookup: PlaceOracle, key: CreatorKey, start: nat, retryCount: nat)
    requires RefreshGivesOnePlace(lookup, key, start)
    ensures var refresh := Retry(RefreshAttempt(lookup, key, start, retryCount), 1, PlaceRetryDelayMs, false).0;
      refresh.Resolved? ==> |AsPlaceArray(refresh.value)| == 1
  {
    var fn := RefreshAttempt(lookup, key, start, retryCount);
    RetryResolvesWithReply(fn, 1, PlaceRetryDelayMs, false);
    var refresh := Retry(fn, 1, PlaceRetryDelayMs, false).0;
    if refresh.Resolved? {
      assert fn(0) == Returned(refresh.value);
      assert lookup(RefreshLookup(key, start, retryCount, 0)) == Returned(refresh.value);
    }
  }

  /**
   * With one place per creator (what a single place id gives) the loop never
   * runs out of places: every group ends recorded or failed, never silently.
   */
  lemma {:induction false} SinglePlaceAlwaysSettles(batch: BatchOracle, lookup: PlaceOracle, start: nat, key: CreatorKey,
                                                    body: seq<RequestItem>, places: seq<int>, retryCount: nat, refreshed: bool)
    requires |places| == 1 && retryCount <= MaxRetries
    requires RefreshGivesOnePlace(lookup, key, start)
    ensures !RotationFrom(batch, lookup, start, key, body, places, 0, retryCount, refreshed).end.NothingRecorded?
    decreases MaxRetries + 1 - retryCount
  {
    var outcome := batch(BatchRequest(start, key, retryCount, body));
    if ThrownMessage(key, outcome).None? && HasForbidden(outcome.replies) && retryCount < MaxRetries {
      var refresh := Retry(RefreshAttempt(lookup, key, start, retryCount), 1, PlaceRetryDelayMs, false).0;
      RefreshedSinglePlace(lookup, key, start, retryCount);
      if refresh.Resolved? {
        SinglePlaceAlwaysSettles(batch, lookup, start, key, body, AsPlaceArray(refresh.value), retryCount + 1, true);
      }
    }
  }

  /**
   * A creator whose every batch reply carries a 403 and whose refreshes keep
   * answering one place uses up all six calls, then records the last reply.
   */
  lemma {:induction false} PersistentForbiddenUsesEveryRetry(batch: BatchOracle, lookup: PlaceOracle, start: nat, key: CreatorKey,
                                                             body: seq<RequestItem>, places: seq<int>, retryCount: nat, refreshed: bool)
    requires |places| == 1 && retryCount <= MaxRetries
    requires forall r: nat :: batch(BatchRequest(start, key, r, body)).Replied? && HasForbidden(batch(BatchRequest(start, key, r, body)).replies)
    requires forall r: nat :: lookup(RefreshLookup(key, start, r, 0)).Returned? && lookup(RefreshLookup(key, start, r, 0)).value.OnePlace?
    ensures var run := RotationFrom(batch, lookup, start, key, body, places, 0, retryCount, refreshed);
      run.calls == MaxRetries + 1 && run.end.Recorded?
    decreases MaxRetries + 1 - retryCount
  {
    if retryCount < MaxRetries {
      var fn := RefreshAttempt(lookup, key, start, retryCount);
      assert fn(0) == lookup(RefreshLookup(key, start, retryCount, 0));
      RetryReturnsFirstSuccess(fn, 1, PlaceRetryDelayMs, false, 0);
      var refresh := Retry(fn, 1, PlaceRetryDelayMs, false).0;
      PersistentForbiddenUsesEveryRetry(batch, lookup, start, key, body, AsPlaceArray(refresh.value), retryCount + 1, true);
    }
  }

  // ------------------------------------------------------------ the chunks

  /** `locationsMap` and `placeIdMap` as the chunk loop leaves them. */
  datatype LocationState = LocationState(locations: map<string, LocationReply>, placeIdMap: map<CreatorKey, seq<int>>)

  /** The state after a chunk's groups, and the message of the error that cut the chunk short, if any. */
  datatype ChunkRun = ChunkRun(state: LocationState, failure: Option<string>)

  /** The whole location phase: the state, `hasAuthError`, and what the observer was sent. */
  datatype LocationPhase = LocationPhase(state: LocationState, hasAuthError: bool, events: seq<RunEvent>)

  /** The creator's entry in `placeIdMap`, or the fallback list when there is none (an empty list is kept, since JavaScript treats it as true). */
  function PlacesFor(placeIdMap: map<CreatorKey, seq<int>>, key: CreatorKey): seq<int> {
    if key in placeIdMap then placeIdMap[key] else [FallbackPlaceId]
  }

  /** The state once a group's loop has run: its last reply recorded, a refreshed place list written back. */
  function AfterGroup(st: LocationState, key: CreatorKey, run: GroupRun): LocationState {
    LocationState(
      if run.end.Recorded? then RecordAll(st.locations, run.end.replies) else st.locations,
      if run.refreshed then st.placeIdMap[key := run.places] else st.placeIdMap)
  }

  /** The groups of a chunk from group `g` on; the first error thrown ends the chunk. */
  function GroupsFrom(batch: BatchOracle, lookup: PlaceOracle, start: nat, groups: seq<CreatorGroup>, g: nat,
                      st: LocationState): ChunkRun
    requires g <= |groups|
    decreases |groups| - g
  {
    if g == |groups| then ChunkRun(st, None)
    else
      var group := groups[g];
      var run := Rotation(batch, lookup, start, group.key, WithoutCreator(group.items), PlacesFor(st.placeIdMap, group.key));
      var next := AfterGroup(st, group.key, run);
      if run.end.GroupFailed? then ChunkRun(next, Some(run.end.message))
      else GroupsFrom(batch, lookup, start, groups, g + 1, next)
  }

  /** The loop over the groups of one chunk, inside the chunk's `try`. */
  method ResolveChunk(batch: BatchOracle, lookup: PlaceOracle, start: nat, groups: seq<CreatorGroup>, st0: LocationState)
    returns (st: LocationState, failure: Option<string>)
    ensures ChunkRun(st, failure) == GroupsFrom(batch, lookup, start, groups, 0, st0)
  {
    st := st0;
    var g := 0;
    while g < |groups|
      invariant g <= |groups|
      invariant GroupsFrom(batch, lookup, start, groups, 0, st0) == GroupsFrom(batch, lookup, start, groups, g, st)
      decreases |groups| - g
    {
      var group := groups[g];
      var end, places, refreshed, _, locations :=
        ResolveGroup(batch, lookup, start, group.key, WithoutCreator(group.items), PlacesFor(st.placeIdMap, group.key), st.locations);
      var placeIdMap := if refreshed then st.placeIdMap[group.key := places] else st.placeIdMap;
      st := LocationState(locations, placeIdMap);
      if end.GroupFailed? {
        failure := Some(end.message);
        return;
      }
      g := g + 1;
    }
    failure := None;
  }

  /** The first queued transfer whose original asset id is `id`; the download transfer of entry `k` has id `k`. */
  function FirstWithId(entries: seq<AssetEntry>, id: string): (r: Option<nat>)
    ensures r.Some? ==> r.value < |entries| && entries[r.value].id == id
    ensures r.Some? ==> forall j :: 0 <= j < r.value ==> entries[j].id != id
    ensures r.None? ==> forall j :: 0 <= j < |entries| ==> entries[j].id != id
  {
    if entries == [] then None
    else if entries[0].id == id then Some(0)
    else match FirstWithId(entries[1..], id)
      case None => None
      case Some(j) => Some(j + 1)
  }

  function MarkOne(entries: seq<AssetEntry>, item: BatchItem): seq<RunEvent> {
    match FirstWithId(entries, item.requestId)
    case Some(k) => [TransferEvent(k, BatchRequestFailed)]
    case None => []
  }

  /** The `error` update sent for each item of a failed chunk that has a transfer. */
  function MarkFailed(entries: seq<AssetEntry>, items: seq<BatchItem>): seq<RunEvent> {
    if items == [] then [] else MarkFailed(entries, items[..|items| - 1]) + MarkOne(entries, items[|items| - 1])
  }

  method MarkChunkFailed(entries: seq<AssetEntry>, chunk: seq<BatchItem>) returns (events: seq<RunEvent>)
    ensures events == MarkFailed(entries, chunk)
  {
    events := [];
    for j := 0 to |chunk|
      invariant events == MarkFailed(entries, chunk[..j])
    {
      assert chunk[..j + 1][..j] == chunk[..j];
      var transfer := FirstWithId(entries, chunk[j].requestId);
      if transfer.Some? {
        events := events + [TransferEvent(transfer.value, BatchRequestFailed)];
      }
    }
    assert chunk[..|chunk|] == chunk;
  }

  /** Every item of a failed chunk whose id names an entry gets exactly one `error` update, in chunk order. */
  lemma {:induction false} FailedChunkMarksEveryItem(entries: seq<AssetEntry>, items: seq<BatchItem>)
    requires forall j :: 0 <= j < |items| ==> FirstWithId(entries, items[j].requestId).Some?
    ensures |MarkFailed(entries, items)| == |items|
    ensures forall j :: 0 <= j < |items| ==>
      MarkFailed(entries, items)[j] == TransferEvent(FirstWithId(entries, items[j].requestId).value, BatchRequestFailed)
  {
    if items != [] {
      var n := |items|;
      FailedChunkMarksEveryItem(entries, items[..n - 1]);
    }
  }

  /** A chunk's effect on the phase: an error thrown marks the run and every item of the chunk as failed. */
  function AfterChunk(entries: seq<AssetEntry>, chunk: seq<BatchItem>, ph: LocationPhase, run: ChunkRun): LocationPhase {
    match run.failure
    case None => LocationPhase(run.state, ph.hasAuthError, ph.events)
    case Some(m) =>
      LocationPhase(run.state, true, ph.events + [StatusMessage("Batch request failed: " + m)] + MarkFailed(entries, chunk))
  }

  /** The chunk loop from offset `i` on, stepping by the chunk size. */
  function LocationsFrom(batch: BatchOracle, lookup: PlaceOracle, entries: seq<AssetEntry>, items: seq<BatchItem>,
                         i: nat, ph: LocationPhase): LocationPhase
    requires i <= |items|
    decreases |items| - i
  {
    if i == |items| then ph
    else
      var chunk := ChunkAt(items, i);
      var run := GroupsFrom(batch, lookup, i, CreatorGroups(chunk), 0, ph.state);
      LocationsFrom(batch, lookup, entries, items, Min(i + ChunkSize, |items|), AfterChunk(entries, chunk, ph, run))
  }

  function Locations(batch: BatchOracle, lookup: PlaceOracle, entries: seq<AssetEntry>, assetType: string,
                     placeIdMap: map<CreatorKey, seq<int>>): LocationPhase
  {
    LocationsFrom(batch, lookup, entries, BatchItems(entries, assetType), 0,
                  LocationPhase(LocationState(map[], placeIdMap), false, []))
  }

  /** The batch-location phase of a run: chunk, group, rotate, record, and mark failed chunks. */
  method ResolveLocations(batch: BatchOracle, lookup: PlaceOracle, entries: seq<AssetEntry>, assetType: string,
                          placeIdMap0: map<CreatorKey, seq<int>>)
    returns (locations: map<string, LocationReply>, placeIdMap: map<CreatorKey, seq<int>>, hasAuthError: bool,
             events: seq<RunEvent>)
    ensures LocationPhase(LocationState(locations, placeIdMap), hasAuthError, events)
         == Locations(batch, lookup, entries, assetType, placeIdMap0)
  {
    var items := BatchItems(entries, assetType);
    var st := LocationState(map[], placeIdMap0);
    hasAuthError := false;
    events := [];
    var i := 0;
    while i < |items|
      invariant i <= |items|
      invariant Locations(batch, lookup, entries, assetType, placeIdMap0)
             == LocationsFrom(batch, lookup, entries, items, i, LocationPhase(st, hasAuthError, events))
      decreases |items| - i
    {
      st, hasAuthError, events := LocateChunk(batch, lookup, entries, items, i, st, hasAuthError, events);
      i := Min(i + ChunkSize, |items|);
    }
    locations, placeIdMap := st.locations, st.placeIdMap;
  }

  /** The body of the chunk loop: group the chunk's items, run each group, and mark the chunk on a thrown error. */
  method LocateChunk(batch: BatchOracle, lookup: PlaceOracle, entries: seq<AssetEntry>, items: seq<BatchItem>, i: nat,
                     st0: LocationState, hasAuthError0: bool, events0: seq<RunEvent>)
    returns (st: LocationState, hasAuthError: bool, events: seq<RunEvent>)
    requires i < |items|
    ensures LocationPhase(st, hasAuthError, events)
         == AfterChunk(entries, ChunkAt(items, i), LocationPhase(st0, hasAuthError0, events0),
                       GroupsFrom(batch, lookup, i, CreatorGroups(ChunkAt(items, i)), 0, st0))
  {
    var chunk := items[i..Min(i + ChunkSize, |items|)];
    var groups := GroupByCreator(chunk);
    var failure;
    st, failure := ResolveChunk(batch, lookup, i, groups, st0);
    hasAuthError, events := hasAuthError0, events0;
    if failure.Some? {
      hasAuthError := true;
      var marks := MarkChunkFailed(entries, chunk);
      events := events + [StatusMessage("Batch request failed: " + failure.value)] + marks;
    }
  }

  /** The updates the location phase can send: the failure notice and the per-item `error` updates. */
  predicate IsFailureEvent(ev: RunEvent) {
    || (ev.StatusMessage? && StartsWith(ev.text, "Batch request failed: "))
    || (ev.TransferEvent? && ev.update == BatchRequestFailed)
  }

  /** One chunk only appends failure notices, and sets `hasAuthError` exactly when it does. */
  lemma ChunkAppendsFailures(entries: seq<AssetEntry>, chunk: seq<BatchItem>, ph: LocationPhase, run: ChunkRun)
    ensures var next := AfterChunk(entries, chunk, ph, run);
      && |ph.events| <= |next.events| && next.events[..|ph.events|] == ph.events
      && (forall j :: |ph.events| <= j < |next.events| ==> IsFailureEvent(next.events[j]))
      && (next.hasAuthError <==> ph.hasAuthError || |next.events| > |ph.events|)
  {
    if run.failure.Some? {
      var notice := StatusMessage("Batch request failed: " + run.failure.value);
      assert StartsWith(notice.text, "Batch request failed: ");
      MarksAreFailures(entries, chunk);
      var next := AfterChunk(entries, chunk, ph, run);
      assert next.events == ph.events + ([notice] + MarkFailed(entries, chunk));
      forall j | |ph.events| <= j < |next.events| ensures IsFailureEvent(next.events[j]) {
        if j > |ph.events| {
          assert next.events[j] in MarkFailed(entries, chunk);
        }
      }
    }
  }

  /**
   * The location phase only appends failure notices to what was sent, and it
   * sets `hasAuthError` exactly when it sends one.
   */
  lemma {:induction false} LocationEventsAreFailures(batch: BatchOracle, lookup: PlaceOracle, entries: seq<AssetEntry>,
                                                     items: seq<BatchItem>, i: nat, ph: LocationPhase)
    requires i <= |items|
    ensures var r := LocationsFrom(batch, lookup, entries, items, i, ph);
      && |ph.events| <= |r.events| && r.events[..|ph.events|] == ph.events
      && (forall j :: |ph.events| <= j < |r.events| ==> IsFailureEvent(r.events[j]))
      && (r.hasAuthError <==> ph.hasAuthError || |r.events| > |ph.events|)
    decreases |items| - i
  {
    if i < |items| {
      var chunk := ChunkAt(items, i);
      var run := GroupsFrom(batch, lookup, i, CreatorGroups(chunk), 0, ph.state);
      var next := AfterChunk(entries, chunk, ph, run);
      ChunkAppendsFailures(entries, chunk, ph, run);
      LocationEventsAreFailures(batch, lookup, entries, items, Min(i + ChunkSize, |items|), next);
      var r := LocationsFrom(batch, lookup, entries, items, i, ph);
      assert r == LocationsFrom(batch, lookup, entries, items, Min(i + ChunkSize, |items|), next);
      assert r.events[..|ph.events|] == r.events[..|next.events|][..|ph.events|];
      forall j | |ph.events| <= j < |r.events| ensures IsFailureEvent(r.events[j]) {
        if j < |next.events| {
          assert r.events[j] == r.events[..|next.events|][j];
        }
      }
    }
  }

  lemma {:induction false} MarksAreFailures(entries: seq<AssetEntry>, items: seq<BatchItem>)
    ensures forall ev :: ev in MarkFailed(entries, items) ==> ev.TransferEvent? && ev.update == BatchRequestFailed
  {
    if items != [] {
      MarksAreFailures(entries, items[..|items| - 1]);
    }
  }

  // ------------------------------------------------ each asset's location

  /** What a download is given: the URL to fetch, or the error that settles it at once. */
  datatype LocationVerdict = FetchFrom(url: string) | Unavailable(error: string)

  /** The error's `Message`, else its `message`, else its JSON text (an empty string counts as missing). */
  function ErrorText(e: BatchError): string {
    if e.upperMessage != "" then e.upperMessage else if e.message != "" then e.message else e.json
  }

  /** The checks each download makes on `locationsMap[entry.id]` before fetching anything. */
  function ClassifyLocation(locations: map<string, LocationReply>, id: string): (v: LocationVerdict)
    ensures v.FetchFrom? <==> id in locations && locations[id].errors == [] && locations[id].locations != []
    ensures v.FetchFrom? ==> v.url == locations[id].locations[0]
    ensures id !in locations ==> v == Unavailable("No location in batch response")
    ensures id in locations && locations[id].errors != [] ==>
      v == Unavailable("Batch error: " + ErrorText(locations[id].errors[0]))
    ensures id in locations && locations[id].errors == [] && locations[id].locations == [] ==>
      v == Unavailable("No locations in batch response")
  {
    if id !in locations then Unavailable("No location in batch response")
    else
      var loc := locations[id];
      if loc.errors != [] then Unavailable("Batch error: " + ErrorText(loc.errors[0]))
      else if loc.locations == [] then Unavailable("No locations in batch response")
      else FetchFrom(loc.locations[0])
  }

  /**
   * A group whose place list is empty is never sent: the loop exits at once,
   * nothing is recorded, and an id that had no location still has none, so
   * its download fails with "No location in batch response".
   */
  lemma EmptyPlaceListLeavesNoLocation(batch: BatchOracle, lookup: PlaceOracle, start: nat, key: CreatorKey,
                                       body: seq<RequestItem>, st: LocationState, id: string)
    requires id !in st.locations
    ensures var run := Rotation(batch, lookup, start, key, body, []);
      && run.calls == 0 && run.end == NothingRecorded
      && ClassifyLocation(AfterGroup(st, key, run).locations, id) == Unavailable("No location in batch response")
  {
  }
}
