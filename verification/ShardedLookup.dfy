/**
 Lookups and queries spread over shards (components/internal_server/sharded_lookup.cc),
 proved equal to the same lookups and queries on one unsharded store.
 */
module ShardedLookup {
  import opened Basics
  import opened Status
  import opened QueryAst
  import opened StringPadder
  import opened LocalLookup
  import opened RemoteLookup

  /* ---------- the cluster ---------- */

  /** public/sharding/key_sharder.cc: an optional capture of the key is hashed in its place. */
  datatype KeySharder = KeySharder(hash: (string, int) -> int, capture: string -> Option<string>)

  function GetShardNumForKey(sharder: KeySharder, key: string, numShards: int): int {
    var c := sharder.capture(key);
    sharder.hash(if c.Some? then c.value else key, numShards)
  }

  /** What one server sees of the cluster during one request: `hasClient[i]` says
      whether the shard manager has a client for shard i, `faults[i]` whether
      the call to shard i fails. */
  datatype Cluster = Cluster(
    sharder: KeySharder,
    current: nat,
    caches: seq<Cache>,
    hasClient: seq<bool>,
    faults: seq<Option<Error>>,
    addChaff: bool,
    codec: Codec)

  function NumShards(c: Cluster): nat {
    |c.caches|
  }

  function Owner(c: Cluster, key: string): int {
    GetShardNumForKey(c.sharder, key, NumShards(c))
  }

  ghost predicate ValidCluster(c: Cluster) {
    && NumShards(c) > 1 && c.current < NumShards(c)
    && |c.hasClient| == NumShards(c) && |c.faults| == NumShards(c)
    && (forall key :: 0 <= Owner(c, key) < NumShards(c))
    && Lossless(c.codec)
  }

  /** Two maps of sets with the same elements for `key`; no set counts as an empty one. */
  ghost predicate SameSet(a: map<string, Elements>, b: map<string, Elements>, key: string) {
    forall e :: (key in a && e in a[key]) <==> (key in b && e in b[key])
  }

  /** Two caches that store the same for `key`. */
  ghost predicate AgreeOn(a: Cache, b: Cache, key: string) {
    && (key in a.values <==> key in b.values) && (key in a.values ==> a.values[key] == b.values[key])
    && SameSet(a.stringSets, b.stringSets, key)
    && SameSet(a.bitsets32, b.bitsets32, key) && SameSet(a.bitsets64, b.bitsets64, key)
  }

  /** Caches that store the same for a key answer every request about it alike. */
  lemma AgreeingAnswers(a: Cache, b: Cache, key: string)
    requires AgreeOn(a, b, key)
    ensures ValueAnswer(a, key) == ValueAnswer(b, key)
    ensures forall kind :: Stored(a, kind, key) == Stored(b, kind, key)
  {
    StoredByField(a, key);
    StoredByField(b, key);
    forall kind ensures Stored(a, kind, key) == Stored(b, kind, key) {
      match kind
      case StringSets => assert SameSet(a.stringSets, b.stringSets, key);
      case Bitsets32 => assert SameSet(a.bitsets32, b.bitsets32, key);
      case Bitsets64 => assert SameSet(a.bitsets64, b.bitsets64, key);
    }
  }

  /** A key is owned by the shard that its captured part hashes to, or the whole key when nothing is captured;
      so keys with the same captured part share a shard. */
  lemma OwnerByCapture(c: Cluster, key: string, other: string)
    ensures c.sharder.capture(key).None? ==> Owner(c, key) == c.sharder.hash(key, |c.caches|)
    ensures c.sharder.capture(key).Some? ==>
      Owner(c, key) == c.sharder.hash(c.sharder.capture(key).value, |c.caches|)
    ensures c.sharder.capture(key).Some? && c.sharder.capture(other) == c.sharder.capture(key) ==>
      Owner(c, other) == Owner(c, key)
  {
  }

  /** The shards together hold `whole`: the owner of a key knows all about it. */
  ghost predicate HoldsAll(c: Cluster, whole: Cache)
    requires ValidCluster(c)
  {
    forall key :: AgreeOn(c.caches[Owner(c, key)], whole, key)
  }

  /* ---------- bucketing and padding ---------- */

  datatype ShardLookupInput = ShardLookupInput(keys: seq<string>, serialized: Bytes, padding: int)

  ghost predicate NoDuplicates(s: seq<string>) {
    forall i, j :: 0 <= i < j < |s| ==> s[i] != s[j]
  }

  /** `buckets` splits `keys` by owner, each key once. */
  ghost predicate Partition(c: Cluster, keys: set<string>, buckets: seq<seq<string>>) {
    && |buckets| == NumShards(c)
    && (forall i :: 0 <= i < |buckets| ==> NoDuplicates(buckets[i]))
    && (forall i, key :: 0 <= i < |buckets| ==> (key in buckets[i] <==> key in keys && Owner(c, key) == i))
  }

  lemma PartitionGrows(c: Cluster, keys: set<string>, buckets: seq<seq<string>>, key: string)
    requires ValidCluster(c) && Partition(c, keys, buckets) && key !in keys
    ensures Partition(c, keys + {key}, buckets[Owner(c, key) := buckets[Owner(c, key)] + [key]])
  {
    var shard := Owner(c, key);
    var grown := buckets[shard := buckets[shard] + [key]];
    forall i, k | 0 <= i < |grown| ensures k in grown[i] <==> k in keys + {key} && Owner(c, k) == i {
      assert k in buckets[i] <==> k in keys && Owner(c, k) == i;
    }
  }

  method BucketKeys(c: Cluster, keys: set<string>) returns (buckets: seq<seq<string>>)
    requires ValidCluster(c)
    ensures Partition(c, keys, buckets)
  {
    buckets := seq(NumShards(c), _ => []);
    var todo := keys;
    while todo != {}
      invariant todo <= keys && Partition(c, keys - todo, buckets)
      decreases todo
    {
      var key :| key in todo;
      var shard := Owner(c, key);
      PartitionGrows(c, keys - todo, buckets, key);
      buckets := buckets[shard := buckets[shard] + [key]];
      todo := todo - {key};
      assert keys - todo == keys - (todo + {key}) + {key};
    }
    assert keys - todo == keys;
  }

  /** Every message of the batch is as long as the longest one once it is padded. */
  ghost predicate EvenlyPadded(inputs: seq<ShardLookupInput>) {
    && (forall i :: 0 <= i < |inputs| ==> inputs[i].padding >= 0)
    && (forall i, j :: 0 <= i < |inputs| && 0 <= j < |inputs| ==>
          |inputs[i].serialized| + inputs[i].padding == |inputs[j].serialized| + inputs[j].padding)
    && (inputs != [] ==> exists i :: 0 <= i < |inputs| && inputs[i].padding == 0)
  }

  method ComputePadding(inputs: seq<ShardLookupInput>) returns (padded: seq<ShardLookupInput>)
    requires forall i :: 0 <= i < |inputs| ==> |inputs[i].serialized| <= INT32_MAX
    ensures |padded| == |inputs| && EvenlyPadded(padded)
    ensures forall i :: 0 <= i < |inputs| ==> padded[i] == inputs[i].(padding := padded[i].padding)
    ensures forall i :: 0 <= i < |inputs| ==> |inputs[i].serialized| + padded[i].padding <= INT32_MAX
  {
    var maxLength := 0;
    ghost var longest := 0;
    for i := 0 to |inputs|
      invariant 0 <= maxLength <= INT32_MAX
      invariant forall j :: 0 <= j < i ==> |inputs[j].serialized| <= maxLength
      invariant i == 0 ==> maxLength == 0
      invariant i > 0 ==> 0 <= longest < i && |inputs[longest].serialized| == maxLength
    {
      var size := |inputs[i].serialized|;
      if size > maxLength || i == 0 { longest := i; }
      maxLength := if size > maxLength then size else maxLength;
    }
    padded := inputs;
    for i := 0 to |inputs|
      invariant |padded| == |inputs|
      invariant forall j :: 0 <= j < i ==>
        padded[j] == inputs[j].(padding := maxLength - |inputs[j].serialized|)
      invariant forall j :: i <= j < |inputs| ==> padded[j] == inputs[j]
    {
      padded := padded[i := padded[i].(padding := maxLength - |padded[i].serialized|)];
    }
    if inputs != [] { assert padded[longest].padding == 0; }
  }

  /** Requests about any of `keys` serialise to messages whose padded size is an int32. */
  ghost predicate FitsInt32(codec: Codec, keys: set<string>) {
    forall req: Request :: NoDuplicates(req.keys) && (forall k :: k in req.keys ==> k in keys) ==>
      HEADER + |codec.encodeRequest(req)| <= INT32_MAX
  }

  function Buckets(inputs: seq<ShardLookupInput>): (b: seq<seq<string>>)
    ensures |b| == |inputs| && forall i :: 0 <= i < |inputs| ==> b[i] == inputs[i].keys
  {
    seq(|inputs|, i requires 0 <= i < |inputs| => inputs[i].keys)
  }

  /** Everything the shards are sent for one batch of keys. */
  ghost predicate Prepared(c: Cluster, keys: set<string>, lookupSets: bool, inputs: seq<ShardLookupInput>) {
    && Partition(c, keys, Buckets(inputs))
    && (forall i :: 0 <= i < |inputs| ==>
          inputs[i].serialized == c.codec.encodeRequest(Request(inputs[i].keys, lookupSets)))
    && EvenlyPadded(inputs)
    && (forall i :: 0 <= i < |inputs| ==> PadSizeOk(inputs[i].serialized, inputs[i].padding))
  }

  method ShardKeys(c: Cluster, keys: set<string>, lookupSets: bool) returns (inputs: seq<ShardLookupInput>)
    requires ValidCluster(c) && FitsInt32(c.codec, keys)
    ensures Prepared(c, keys, lookupSets, inputs)
  {
    var buckets := BucketKeys(c, keys);
    inputs := [];
    for i := 0 to |buckets|
      invariant |inputs| == i
      invariant forall j :: 0 <= j < i ==> inputs[j].keys == buckets[j]
      invariant forall j :: 0 <= j < i ==>
        inputs[j].serialized == c.codec.encodeRequest(Request(buckets[j], lookupSets))
      invariant forall j :: 0 <= j < i ==> HEADER + |inputs[j].serialized| <= INT32_MAX
    {
      var request := Request(buckets[i], lookupSets);
      inputs := inputs + [ShardLookupInput(buckets[i], c.codec.encodeRequest(request), 0)];
    }
    assert forall i :: 0 <= i < |inputs| ==> |inputs[i].serialized| <= INT32_MAX;
    ghost var unpadded := inputs;
    inputs := ComputePadding(inputs);
    assert Buckets(inputs) == buckets;
    LongestFits(unpadded, inputs);
  }

  /** The padded size is that of the longest message, which fits. */
  lemma LongestFits(unpadded: seq<ShardLookupInput>, inputs: seq<ShardLookupInput>)
    requires |inputs| == |unpadded| && EvenlyPadded(inputs)
    requires forall i :: 0 <= i < |inputs| ==> inputs[i].serialized == unpadded[i].serialized
    requires forall i :: 0 <= i < |unpadded| ==> HEADER + |unpadded[i].serialized| <= INT32_MAX
    ensures forall i :: 0 <= i < |inputs| ==> PadSizeOk(inputs[i].serialized, inputs[i].padding)
  {
    if inputs != [] {
      var l :| 0 <= l < |inputs| && inputs[l].padding == 0;
      assert HEADER + |unpadded[l].serialized| <= INT32_MAX;
    }
  }

  /** On the wire all requests of a batch have the same length, and each shard
      recovers exactly the request meant for it. */
  lemma PaddedRequestsLookAlike(c: Cluster, keys: set<string>, lookupSets: bool, inputs: seq<ShardLookupInput>, i: nat, j: nat)
    requires ValidCluster(c) && Prepared(c, keys, lookupSets, inputs) && i < |inputs| && j < |inputs|
    ensures |Padded(inputs[i].serialized, inputs[i].padding)| == |Padded(inputs[j].serialized, inputs[j].padding)|
    ensures Unpadded(Padded(inputs[i].serialized, inputs[i].padding)) == Ok(inputs[i].serialized)
    ensures c.codec.decodeRequest(inputs[i].serialized) == Some(Request(inputs[i].keys, lookupSets))
    ensures exists l ::
      && 0 <= l < |inputs| && |Padded(inputs[i].serialized, inputs[i].padding)| == HEADER + |inputs[l].serialized|
      && forall m :: 0 <= m < |inputs| ==> |inputs[m].serialized| <= |inputs[l].serialized|
  {
    UnpadUndoesPad(inputs[i].serialized, inputs[i].padding);
    var l :| 0 <= l < |inputs| && inputs[l].padding == 0;
    assert |Padded(inputs[i].serialized, inputs[i].padding)| == HEADER + |inputs[l].serialized|;
    assert forall m :: 0 <= m < |inputs| ==> |inputs[m].serialized| <= |inputs[l].serialized|;
  }

  /* ---------- asking every shard ---------- */

  /** What the caller is after: plain values, or sets of one kind. */
  datatype Want = Values | Sets(kind: Kind)

  const NO_CLIENT := Error(Internal, "Internal lookup client is unavailable.")

  function LocalAnswer(c: Cluster, want: Want, keys: seq<string>): Response
    requires c.current < NumShards(c)
  {
    if want.Values? then ValueAnswers(c.caches[c.current], KeySet(keys))
    else SetAnswers(c.caches[c.current], want.kind, KeySet(keys))
  }

  predicate Skipped(c: Cluster, keys: seq<string>) {
    !c.addChaff && keys == []
  }

  function ShardAnswer(c: Cluster, want: Want, shard: nat, keys: seq<string>): Result<Response>
    requires c.current < NumShards(c) == |c.faults| && shard < NumShards(c)
  {
    if shard == c.current then Ok(LocalAnswer(c, want, keys))
    else if Skipped(c, keys) then Ok(map[])
    else if c.faults[shard].Some? then Err(c.faults[shard].value)
    else Ok(HandlerAnswer(c.caches[shard], Request(keys, want.Sets?)))
  }

  predicate AllReachable(c: Cluster)
    requires |c.hasClient| == NumShards(c)
  {
    forall i :: 0 <= i < NumShards(c) && i != c.current ==> c.hasClient[i]
  }

  method GetLocalLookupResponse(c: Cluster, want: Want, keys: seq<string>) returns (r: Response)
    requires c.current < NumShards(c)
    ensures r == LocalAnswer(c, want, keys)
  {
    if keys == [] {
      assert KeySet(keys) == {};
      return map[];
    }
    match want
    case Values => r := GetKeyValues(c.caches[c.current], KeySet(keys));
    case Sets(kind) => r := GetKeySets(c.caches[c.current], kind, KeySet(keys));
  }

  /** What goes out to a shard for its input. */
  function SentTo(c: Cluster, input: ShardLookupInput, shard: nat): Option<Bytes>
    requires PadSizeOk(input.serialized, input.padding)
  {
    if shard == c.current || (!c.addChaff && input.keys == []) then None
    else Some(Padded(input.serialized, input.padding))
  }

  /** With chaff on, what goes out tells nothing about how the keys are spread: every other shard is
      sent one request, and all requests have the same length. */
  lemma ChaffHidesTheSpread(c: Cluster, keys: set<string>, lookupSets: bool, inputs: seq<ShardLookupInput>, i: nat, j: nat)
    requires ValidCluster(c) && c.addChaff && Prepared(c, keys, lookupSets, inputs) && i < NumShards(c) && j < NumShards(c)
    ensures SentTo(c, inputs[i], i).Some? <==> i != c.current
    ensures i != c.current && j != c.current ==>
      |SentTo(c, inputs[i], i).value| == |SentTo(c, inputs[j], j).value|
  {
    PaddedRequestsLookAlike(c, keys, lookupSets, inputs, i, j);
  }

  /** With or without chaff, a shard that is sent a request gets the one for exactly the keys it owns;
      without chaff, only shards that own a key are sent one. */
  lemma RequestsReachOwners(c: Cluster, keys: set<string>, lookupSets: bool, inputs: seq<ShardLookupInput>, i: nat)
    requires ValidCluster(c) && Prepared(c, keys, lookupSets, inputs) && i < NumShards(c) && i != c.current
    ensures !c.addChaff ==> (SentTo(c, inputs[i], i).Some? <==> exists k :: k in keys && Owner(c, k) == i)
    ensures SentTo(c, inputs[i], i).Some? ==>
      var plain := Unpadded(SentTo(c, inputs[i], i).value);
      plain.Ok? && c.codec.decodeRequest(plain.value) == Some(Request(inputs[i].keys, lookupSets))
    ensures forall k :: k in inputs[i].keys <==> k in keys && Owner(c, k) == i
  {
    PaddedRequestsLookAlike(c, keys, lookupSets, inputs, i, i);
    assert Buckets(inputs)[i] == inputs[i].keys;
    if inputs[i].keys != [] {
      var k := inputs[i].keys[0];
      assert k in Buckets(inputs)[i] && k in keys && Owner(c, k) == i;
    }
    if k :| k in keys && Owner(c, k) == i { assert k in Buckets(inputs)[i]; }
  }

  /** A shard's answer, and the request that went out to it, are as they should be. */
  ghost predicate Asked(c: Cluster, want: Want, input: ShardLookupInput, shard: nat,
                        response: Result<Response>, sent: Option<Bytes>) {
    && c.current < NumShards(c) == |c.faults| && shard < NumShards(c) && PadSizeOk(input.serialized, input.padding)
    && response == ShardAnswer(c, want, shard, input.keys) && sent == SentTo(c, input, shard)
  }

  /** One shard's turn: the current shard looks into its own cache, another one is sent its request. */
  method AskShard(c: Cluster, want: Want, ghost keys: set<string>, ghost inputs: seq<ShardLookupInput>, shard: nat,
                  input: ShardLookupInput)
    returns (response: Result<Response>, sent: Option<Bytes>)
    requires ValidCluster(c) && Prepared(c, keys, want.Sets?, inputs) && shard < NumShards(c) && input == inputs[shard]
    ensures Asked(c, want, input, shard, response, sent)
  {
    if shard == c.current {
      var local := GetLocalLookupResponse(c, want, input.keys);
      return Ok(local), None;
    }
    if !c.addChaff && input.keys == [] {
      return Ok(map[]), None;
    }
    response := GetValues(c.caches[shard], c.codec, c.faults[shard], input.serialized, input.padding);
    sent := Some(Padded(input.serialized, input.padding));
  }

  /** A missing client fails the whole request before any answer is looked at.  `sent` holds the
      padded requests that went out. */
  method GetLookupFutures(c: Cluster, want: Want, ghost keys: set<string>, inputs: seq<ShardLookupInput>)
    returns (r: Result<seq<Result<Response>>>, sent: seq<Option<Bytes>>)
    requires ValidCluster(c) && Prepared(c, keys, want.Sets?, inputs)
    ensures r.Ok? <==> AllReachable(c)
    ensures r.Err? ==> r.error == NO_CLIENT
    ensures r.Ok? ==> |r.value| == NumShards(c)
    ensures r.Ok? ==> forall i :: 0 <= i < NumShards(c) ==> r.value[i] == ShardAnswer(c, want, i, inputs[i].keys)
    ensures r.Ok? ==> |sent| == NumShards(c) && forall i :: 0 <= i < NumShards(c) ==> sent[i] == SentTo(c, inputs[i], i)
  {
    sent := [];
    var responses: seq<Result<Response>> := [];
    for shard := 0 to NumShards(c)
      invariant |responses| == |sent| == shard
      invariant forall i :: 0 <= i < shard && i != c.current ==> c.hasClient[i]
      invariant forall i :: 0 <= i < shard ==> Asked(c, want, inputs[i], i, responses[i], sent[i])
    {
      if shard != c.current && !c.hasClient[shard] {
        return Err(NO_CLIENT), sent;
      }
      var response, request := AskShard(c, want, keys, inputs, shard, inputs[shard]);
      responses, sent := responses + [response], sent + [request];
    }
    forall i | 0 <= i < NumShards(c)
      ensures responses[i] == ShardAnswer(c, want, i, inputs[i].keys) && sent[i] == SentTo(c, inputs[i], i)
    {
      assert Asked(c, want, inputs[i], i, responses[i], sent[i]);
    }
    r := Ok(responses);
  }

  /* ---------- values ---------- */

  const LOOKUP_FAILED := Failed(Error(Internal, "Data lookup failed"))

  /** Updates the response for one shard's keys, either from its answer or as failed. */
  method UpdateResponse(keys: seq<string>, kvPairs: Response, response: Response) returns (r: Response)
    ensures r.Keys == response.Keys + KeySet(keys)
    ensures forall k :: k in keys ==> r[k] == if k in kvPairs then kvPairs[k] else Failed(Error(NotFound, ""))
    ensures forall k :: k in response && k !in keys ==> r[k] == response[k]
  {
    r := response;
    for i := 0 to |keys|
      invariant r.Keys == response.Keys + KeySet(keys[..i])
      invariant forall j :: 0 <= j < i ==>
        r[keys[j]] == if keys[j] in kvPairs then kvPairs[keys[j]] else Failed(Error(NotFound, ""))
      invariant forall k :: k in response && k !in keys[..i] ==> r[k] == response[k]
    {
      KeySetGrows(keys, i);
      r := r[keys[i] := if keys[i] in kvPairs then kvPairs[keys[i]] else Failed(Error(NotFound, ""))];
    }
    assert keys[..|keys|] == keys;
  }

  method SetRequestFailed(keys: seq<string>, response: Response) returns (r: Response)
    ensures r.Keys == response.Keys + KeySet(keys)
    ensures forall k :: k in keys ==> r[k] == LOOKUP_FAILED
    ensures forall k :: k in response && k !in keys ==> r[k] == response[k]
  {
    r := response;
    for i := 0 to |keys|
      invariant r.Keys == response.Keys + KeySet(keys[..i])
      invariant forall j :: 0 <= j < i ==> r[keys[j]] == LOOKUP_FAILED
      invariant forall k :: k in response && k !in keys[..i] ==> r[k] == response[k]
    {
      KeySetGrows(keys, i);
      r := r[keys[i] := LOOKUP_FAILED];
    }
    assert keys[..|keys|] == keys;
  }

  lemma KeySetGrows(keys: seq<string>, i: nat)
    requires i < |keys|
    ensures KeySet(keys[..i + 1]) == KeySet(keys[..i]) + {keys[i]}
    ensures forall k :: k in keys[..i + 1] <==> k in keys[..i] || k == keys[i]
    ensures forall k :: k in KeySet(keys[..i]) <==> k in keys[..i]
  {
    assert keys[..i + 1] == keys[..i] + [keys[i]];
    assert forall j :: 0 <= j < i ==> keys[..i + 1][j] == keys[..i][j];
    assert keys[..i + 1][i] == keys[i];
  }

  predicate ShardFails(c: Cluster, shard: nat)
    requires shard < |c.faults|
  {
    shard != c.current && c.faults[shard].Some?
  }

  /** What the caller must see for one key: the unsharded answer, unless the owner's call failed. */
  function ExpectedValue(c: Cluster, whole: Cache, key: string): SingleLookupResult
    requires 0 <= Owner(c, key) < |c.faults|
  {
    if ShardFails(c, Owner(c, key)) then LOOKUP_FAILED else ValueAnswer(whole, key)
  }

  ghost function ExpectedValues(c: Cluster, whole: Cache, keys: set<string>, below: int): Response
    requires ValidCluster(c)
  {
    map k | k in keys && Owner(c, k) < below :: ExpectedValue(c, whole, k)
  }

  lemma BucketMembers(c: Cluster, keys: set<string>, buckets: seq<seq<string>>, i: nat)
    requires Partition(c, keys, buckets) && i < |buckets|
    ensures KeySet(buckets[i]) == set k | k in keys && Owner(c, k) == i
  {
    forall k | k in buckets[i] ensures k in KeySet(buckets[i]) {
      var j :| 0 <= j < |buckets[i]| && buckets[i][j] == k;
    }
  }

  /** ProcessShardedKeys: with any shards failing, the answered keys are the requested
      keys, and each gets the unsharded store's answer unless its own shard failed. */
  method GetShardedKeyValues(c: Cluster, keys: set<string>, ghost whole: Cache) returns (r: Result<Response>)
    requires ValidCluster(c) && FitsInt32(c.codec, keys) && HoldsAll(c, whole)
    ensures keys == {} ==> r == Ok(map[])
    ensures keys != {} ==> (r.Ok? <==> AllReachable(c)) && (r.Err? ==> r.error == NO_CLIENT)
    ensures r.Ok? ==> r.value.Keys == keys
    ensures r.Ok? ==> forall k :: k in keys ==> r.value[k] == ExpectedValue(c, whole, k)
    ensures r.Ok? ==> forall k :: k in keys && (Owner(c, k) == c.current || c.faults[Owner(c, k)].None?) ==>
      r.value[k] == if k in whole.values then Value(whole.values[k])
                    else Failed(Error(NotFound, "Key not found: " + k))
    ensures r.Ok? ==> forall k :: k in keys && Owner(c, k) != c.current && c.faults[Owner(c, k)].Some? ==>
      r.value[k] == Failed(Error(Internal, "Data lookup failed"))
  {
    if keys == {} {
      return Ok(map[]);
    }
    var inputs := ShardKeys(c, keys, false);
    var responses, _ := GetLookupFutures(c, Values, keys, inputs);
    if responses.Err? {
      return Err(responses.error);
    }
    var response: Response := map[];
    for shard := 0 to NumShards(c)
      invariant response == ExpectedValues(c, whole, keys, shard)
    {
      response := ProcessShard(c, keys, Buckets(inputs), shard, responses.value[shard], response, whole);
    }
    r := Ok(response);
  }

  /** One turn of the loop: a shard's answer fills in the keys it owns. */
  method ProcessShard(c: Cluster, ghost keys: set<string>, buckets: seq<seq<string>>, shard: nat,
                      result: Result<Response>, response: Response, ghost whole: Cache) returns (r: Response)
    requires ValidCluster(c) && HoldsAll(c, whole) && Partition(c, keys, buckets) && shard < NumShards(c)
    requires result == ShardAnswer(c, Values, shard, buckets[shard])
    requires response == ExpectedValues(c, whole, keys, shard)
    ensures r == ExpectedValues(c, whole, keys, shard + 1)
  {
    if result.Err? {
      r := SetRequestFailed(buckets[shard], response);
    } else {
      r := UpdateResponse(buckets[shard], result.value, response);
    }
    forall k | k in buckets[shard] ensures k in r && r[k] == ExpectedValue(c, whole, k) {
      ShardValueAnswers(c, whole, keys, buckets, shard, k);
      assert k in KeySet(buckets[shard]);
    }
    ValuesGrow(c, whole, keys, buckets, shard, response, r);
  }

  /** A shard's answer gives each of its keys what is expected, and an error what is expected of a failure. */
  lemma ShardValueAnswers(c: Cluster, whole: Cache, keys: set<string>, buckets: seq<seq<string>>, shard: nat, k: string)
    requires ValidCluster(c) && HoldsAll(c, whole) && Partition(c, keys, buckets) && shard < NumShards(c)
    requires k in buckets[shard]
    ensures match ShardAnswer(c, Values, shard, buckets[shard])
      case Err(_) => ExpectedValue(c, whole, k) == LOOKUP_FAILED
      case Ok(resp) => k in resp && resp[k] == ExpectedValue(c, whole, k)
  {
    assert Owner(c, k) == shard;
    assert AgreeOn(c.caches[Owner(c, k)], whole, k);
    AgreeingAnswers(c.caches[shard], whole, k);
    assert k in KeySet(buckets[shard]);
  }

  /** One more shard's keys have been filled in. */
  lemma ValuesGrow(c: Cluster, whole: Cache, keys: set<string>, buckets: seq<seq<string>>, shard: nat,
                   before: Response, after: Response)
    requires ValidCluster(c) && shard < NumShards(c) && Partition(c, keys, buckets)
    requires before == ExpectedValues(c, whole, keys, shard)
    requires after.Keys == before.Keys + KeySet(buckets[shard])
    requires forall k :: k in before && k !in buckets[shard] ==> after[k] == before[k]
    requires forall k :: k in buckets[shard] ==> k in after && after[k] == ExpectedValue(c, whole, k)
    ensures after == ExpectedValues(c, whole, keys, shard + 1)
  {
    BucketMembers(c, keys, buckets, shard);
    forall k | k in keys && Owner(c, k) == shard ensures k in buckets[shard] { }
  }

  /** An Internal status marks exactly the keys whose owner failed. */
  lemma InternalMarksFailedOwners(c: Cluster, whole: Cache, key: string)
    requires ValidCluster(c)
    ensures ShardFails(c, Owner(c, key)) <==>
            var a := ExpectedValue(c, whole, key); a.Failed? && a.status.code == Internal
  {
  }

  /* ---------- sets ---------- */

  /** The sets of the wanted kind in a response; other answers are passed over. */
  function Collected(kind: Kind, response: Response): map<string, Elements> {
    map k | k in response && response[k].SetValues? && response[k].kind == kind && response[k].values != {}
      :: response[k].values
  }

  /** Some key has a set in both. */
  ghost predicate Clash(a: map<string, Elements>, b: map<string, Elements>) {
    exists k :: k in a && k in b
  }

  lemma NoClash(b: map<string, Elements>)
    ensures !Clash(b, map[])
  {
  }

  lemma ClashAdded(a: map<string, Elements>, b: map<string, Elements>, key: string, set': Elements)
    ensures Clash(a, b[key := set']) <==> Clash(a, b) || key in a
  {
    var c := b[key := set'];
    if Clash(a, b) {
      var k :| k in a && k in b;
      assert k in a && k in c;
    }
    if key in a { assert key in a && key in c; }
    if Clash(a, c) {
      var k :| k in a && k in c;
      assert k == key || (k in a && k in b);
    }
  }

  /** `collided` tells whether the key-collision branch was taken. */
  method CollectKeySets(kind: Kind, keySets: map<string, Elements>, response: Response)
    returns (r: map<string, Elements>, collided: bool)
    ensures r == keySets + Collected(kind, response)
    ensures collided <==> Clash(keySets, Collected(kind, response))
  {
    r, collided := keySets, false;
    var todo := response.Keys;
    assert response - todo == map[] && Collected(kind, map[]) == map[];
    NoClash(keySets);
    while todo != {}
      invariant todo <= response.Keys
      invariant r == keySets + Collected(kind, response - todo)
      invariant collided <==> Clash(keySets, Collected(kind, response - todo))
      decreases todo
    {
      var key :| key in todo;
      var valueSet := {};
      if response[key].SetValues? && response[key].kind == kind {
        valueSet := response[key].values;
      }
      CollectOneMore(kind, keySets, response, todo, key);
      if valueSet != {} {
        collided := collided || key in r;
        r := r[key := valueSet];
      }
      todo := todo - {key};
    }
    assert response - todo == response;
  }

  /** Whether a response has a set for the key that is collected. */
  predicate Fits(kind: Kind, response: Response, key: string)
    requires key in response
  {
    response[key].SetValues? && response[key].kind == kind && response[key].values != {}
  }

  lemma CollectedOneMore(kind: Kind, response: Response, todo: set<string>, key: string)
    requires key in todo && todo <= response.Keys
    ensures var a, b := Collected(kind, response - todo), Collected(kind, response - (todo - {key}));
      key !in a && b == if Fits(kind, response, key) then a[key := response[key].values] else a
  {
    assert (response - (todo - {key})).Keys == (response - todo).Keys + {key};
  }

  lemma CollectOneMore(kind: Kind, keySets: map<string, Elements>, response: Response, todo: set<string>, key: string)
    requires key in todo && todo <= response.Keys
    ensures var a, b := Collected(kind, response - todo), Collected(kind, response - (todo - {key}));
      && keySets + b == (if Fits(kind, response, key) then (keySets + a)[key := response[key].values] else keySets + a)
      && (Clash(keySets, b) <==> Clash(keySets, a) || (Fits(kind, response, key) && key in keySets + a))
  {
    var a := Collected(kind, response - todo);
    CollectedOneMore(kind, response, todo, key);
    if Fits(kind, response, key) {
      ClashAdded(keySets, a, key, response[key].values);
      assert keySets + a[key := response[key].values] == (keySets + a)[key := response[key].values];
    }
  }

  /** What a sharded lookup can see of the whole store.  Other shards answer with
      string sets only, so sets of numbers are visible only on the current shard. */
  function Visible(c: Cluster, kind: Kind, whole: Cache, key: string): Elements {
    if kind.StringSets? || Owner(c, key) == c.current then Stored(whole, kind, key) else {}
  }

  ghost function VisibleSets(c: Cluster, kind: Kind, whole: Cache, keys: set<string>, shards: set<int>)
    : map<string, Elements>
  {
    map k | k in keys && Owner(c, k) in shards && Visible(c, kind, whole, k) != {} :: Visible(c, kind, whole, k)
  }

  lemma CollectSetAnswers(kind: Kind, cache: Cache, answered: Kind, keys: set<string>)
    ensures Collected(kind, SetAnswers(cache, answered, keys)) ==
            map k | k in keys && answered == kind && Stored(cache, kind, k) != {} :: Stored(cache, kind, k)
  {
  }

  /** Whichever way a shard answers, its contribution is what is visible of its keys. */
  lemma ShardContribution(c: Cluster, kind: Kind, whole: Cache, keys: set<string>, buckets: seq<seq<string>>, i: nat)
    requires ValidCluster(c) && HoldsAll(c, whole) && Partition(c, keys, buckets) && i < NumShards(c)
    requires ShardAnswer(c, Sets(kind), i, buckets[i]).Ok?
    ensures Collected(kind, ShardAnswer(c, Sets(kind), i, buckets[i]).value) == VisibleSets(c, kind, whole, keys, {i})
  {
    var answer := ShardAnswer(c, Sets(kind), i, buckets[i]).value;
    var answered := if i == c.current then kind else StringSets;
    var mine := KeySet(buckets[i]);
    assert answer == SetAnswers(c.caches[i], answered, mine);
    CollectSetAnswers(kind, c.caches[i], answered, mine);
    OwnedAgree(c, kind, whole, keys, buckets, i);
    StoredIsVisible(c, kind, whole, keys, i, c.caches[i], answered, mine);
  }

  lemma StoredIsVisible(c: Cluster, kind: Kind, whole: Cache, keys: set<string>, i: int,
                        cache: Cache, answered: Kind, mine: set<string>)
    requires forall k :: k in mine <==> k in keys && Owner(c, k) == i
    requires forall k :: k in mine ==> Stored(cache, kind, k) == Stored(whole, kind, k)
    requires answered == if i == c.current then kind else StringSets
    ensures (map k | k in mine && answered == kind && Stored(cache, kind, k) != {} :: Stored(cache, kind, k)) ==
            VisibleSets(c, kind, whole, keys, {i})
  {
  }

  lemma OwnedAgree(c: Cluster, kind: Kind, whole: Cache, keys: set<string>, buckets: seq<seq<string>>, i: nat)
    requires ValidCluster(c) && HoldsAll(c, whole) && Partition(c, keys, buckets) && i < NumShards(c)
    ensures forall k :: k in KeySet(buckets[i]) <==> k in keys && Owner(c, k) == i
    ensures forall k :: k in KeySet(buckets[i]) ==> Stored(c.caches[i], kind, k) == Stored(whole, kind, k)
  {
    BucketMembers(c, keys, buckets, i);
    forall k | k in KeySet(buckets[i]) ensures Stored(c.caches[i], kind, k) == Stored(whole, kind, k) {
      assert AgreeOn(c.caches[i], whole, k);
      AgreeingAnswers(c.caches[i], whole, k);
    }
  }
}
