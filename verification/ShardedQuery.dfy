/**
 Set lookups and set queries over shards: GetShardedKeyValueSet, the three
 *ValueSet calls and RunSetQuery of components/internal_server/sharded_lookup.cc.

 For sets of strings a sharded query returns what the same query returns on the
 unsharded store.  For sets of numbers it sees only the current shard's keys,
 and the condition under which that makes no difference is proved exact.
 */
module ShardedQuery {
  import opened Status
  import opened QueryAst
  import opened QueryEval
  import opened LocalLookup
  import opened RemoteLookup
  import opened ShardedLookup

  /* ---------- failures ---------- */

  /** Shard `i` is sent a request, and its call fails. */
  ghost predicate AskedAndFails(c: Cluster, keys: set<string>, i: nat)
    requires i < |c.faults|
  {
    ShardFails(c, i) && (c.addChaff || exists k :: k in keys && Owner(c, k) == i)
  }

  ghost predicate NoneFails(c: Cluster, keys: set<string>, below: nat)
    requires below <= |c.faults|
  {
    forall i :: 0 <= i < below ==> !AskedAndFails(c, keys, i)
  }

  lemma AnswerFailsWhenAsked(c: Cluster, kind: Kind, keys: set<string>, buckets: seq<seq<string>>, i: nat)
    requires ValidCluster(c) && Partition(c, keys, buckets) && i < NumShards(c)
    ensures ShardAnswer(c, Sets(kind), i, buckets[i]).Err? <==> AskedAndFails(c, keys, i)
    ensures AskedAndFails(c, keys, i) ==> ShardAnswer(c, Sets(kind), i, buckets[i]) == Err(c.faults[i].value)
  {
    if buckets[i] != [] {
      assert buckets[i][0] in buckets[i];
      assert buckets[i][0] in keys && Owner(c, buckets[i][0]) == i;
    }
    if k :| k in keys && Owner(c, k) == i { assert k in buckets[i]; }
  }

  /* ---------- collecting the sets ---------- */

  function Shards(below: nat): (s: set<int>)
    ensures forall i :: i in s <==> 0 <= i < below
  {
    if below == 0 then {} else Shards(below - 1) + {below - 1}
  }

  lemma OneMoreShard(c: Cluster, kind: Kind, whole: Cache, keys: set<string>, done: set<int>, i: int)
    requires i !in done
    ensures VisibleSets(c, kind, whole, keys, done + {i}) ==
            VisibleSets(c, kind, whole, keys, done) + VisibleSets(c, kind, whole, keys, {i})
    ensures !Clash(VisibleSets(c, kind, whole, keys, done), VisibleSets(c, kind, whole, keys, {i}))
  {
  }

  /** Adding a shard's answer to those of all lower shards: no key comes up twice. */
  lemma ShardStep(c: Cluster, kind: Kind, whole: Cache, keys: set<string>, buckets: seq<seq<string>>, shard: nat)
    requires ValidCluster(c) && HoldsAll(c, whole) && Partition(c, keys, buckets) && shard < NumShards(c)
    requires ShardAnswer(c, Sets(kind), shard, buckets[shard]).Ok?
    ensures var got := Collected(kind, ShardAnswer(c, Sets(kind), shard, buckets[shard]).value);
      var before := VisibleSets(c, kind, whole, keys, Shards(shard));
      !Clash(before, got) && before + got == VisibleSets(c, kind, whole, keys, Shards(shard + 1))
  {
    ShardContribution(c, kind, whole, keys, buckets, shard);
    OneMoreShard(c, kind, whole, keys, Shards(shard), shard);
  }

  /** The keys with something to see: what every lookup of sets must produce. */
  ghost function AllVisible(c: Cluster, kind: Kind, whole: Cache, keys: set<string>): map<string, Elements> {
    map k | k in keys && Visible(c, kind, whole, k) != {} :: Visible(c, kind, whole, k)
  }

  /** Succeeds exactly when every shard that is asked answers; then no two shards
      answered the same key, and the result is what is visible of the whole store. */
  method GetShardedKeyValueSet(c: Cluster, kind: Kind, keys: set<string>, ghost whole: Cache)
    returns (r: Result<map<string, Elements>>, collided: bool)
    requires ValidCluster(c) && FitsInt32(c.codec, keys) && HoldsAll(c, whole)
    ensures r.Ok? <==> AllReachable(c) && NoneFails(c, keys, NumShards(c))
    ensures r.Ok? ==> r.value == AllVisible(c, kind, whole, keys)
    ensures r.Err? ==> r.error == (if !AllReachable(c) then NO_CLIENT else FirstFault(c, keys, 0))
    ensures !collided
  {
    collided := false;
    var inputs := ShardKeys(c, keys, true);
    var responses, _ := GetLookupFutures(c, Sets(kind), keys, inputs);
    if responses.Err? {
      return Err(responses.error), false;
    }
    var keySets: map<string, Elements> := map[];
    for shard := 0 to NumShards(c)
      invariant NoneFails(c, keys, shard) && !collided
      invariant keySets == VisibleSets(c, kind, whole, keys, Shards(shard))
    {
      var result := responses.value[shard];
      AnswerFailsWhenAsked(c, kind, keys, Buckets(inputs), shard);
      if result.Err? {
        FirstFaultIs(c, keys, 0, shard);
        return Err(result.error), collided;
      }
      var clash;
      keySets, clash := MergeShard(c, kind, keys, Buckets(inputs), shard, result.value, keySets, whole);
      collided := collided || clash;
    }
    AllShardsSeeAll(c, kind, whole, keys);
    r := Ok(keySets);
  }

  /** One turn of the loop: a shard's answer adds what is visible of its keys, and none was there already. */
  method MergeShard(c: Cluster, kind: Kind, ghost keys: set<string>, ghost buckets: seq<seq<string>>, ghost shard: nat,
                    response: Response, keySets: map<string, Elements>, ghost whole: Cache)
    returns (r: map<string, Elements>, collided: bool)
    requires ValidCluster(c) && HoldsAll(c, whole) && Partition(c, keys, buckets) && shard < NumShards(c)
    requires ShardAnswer(c, Sets(kind), shard, buckets[shard]) == Ok(response)
    requires keySets == VisibleSets(c, kind, whole, keys, Shards(shard))
    ensures r == VisibleSets(c, kind, whole, keys, Shards(shard + 1)) && !collided
  {
    ShardStep(c, kind, whole, keys, buckets, shard);
    r, collided := CollectKeySets(kind, keySets, response);
  }

  /** What a lookup of string sets produces, in terms of the store's own map. */
  lemma AllVisibleByField(c: Cluster, whole: Cache, keys: set<string>, k: string)
    ensures k in AllVisible(c, StringSets, whole, keys) <==>
      k in keys && k in whole.stringSets && whole.stringSets[k] != {}
    ensures k in AllVisible(c, StringSets, whole, keys) ==>
      AllVisible(c, StringSets, whole, keys)[k] == whole.stringSets[k]
  {
  }

  /** What a lookup of number sets produces: only the current shard's keys. */
  lemma NumbersVisibleByField(c: Cluster, whole: Cache, keys: set<string>, k: string)
    ensures k in AllVisible(c, Bitsets32, whole, keys) <==>
      k in keys && Owner(c, k) == c.current && k in whole.bitsets32 && whole.bitsets32[k] != {}
    ensures k in AllVisible(c, Bitsets32, whole, keys) ==>
      AllVisible(c, Bitsets32, whole, keys)[k] == whole.bitsets32[k]
    ensures k in AllVisible(c, Bitsets64, whole, keys) <==>
      k in keys && Owner(c, k) == c.current && k in whole.bitsets64 && whole.bitsets64[k] != {}
    ensures k in AllVisible(c, Bitsets64, whole, keys) ==>
      AllVisible(c, Bitsets64, whole, keys)[k] == whole.bitsets64[k]
  {
  }

  lemma AllShardsSeeAll(c: Cluster, kind: Kind, whole: Cache, keys: set<string>)
    requires ValidCluster(c)
    ensures VisibleSets(c, kind, whole, keys, Shards(NumShards(c))) == AllVisible(c, kind, whole, keys)
  {
  }

  /** The error of the lowest-numbered shard, from `i` on, that is asked and fails. */
  ghost function FirstFault(c: Cluster, keys: set<string>, i: nat): Error
    decreases NumShards(c) - i
  {
    if NumShards(c) != |c.faults| || i >= NumShards(c) then NO_CLIENT
    else if AskedAndFails(c, keys, i) then c.faults[i].value
    else FirstFault(c, keys, i + 1)
  }

  lemma {:induction false} FirstFaultIs(c: Cluster, keys: set<string>, from: nat, i: nat)
    requires ValidCluster(c) && from <= i < NumShards(c) && NoneFails(c, keys, i) && AskedAndFails(c, keys, i)
    ensures FirstFault(c, keys, from) == c.faults[i].value
    decreases i - from
  {
    if from < i { FirstFaultIs(c, keys, from + 1, i); }
  }

  /* ---------- the order of the shards does not matter ---------- */

  /** Merging the shards' answers in a given order. */
  ghost function MergeIn(c: Cluster, kind: Kind, buckets: seq<seq<string>>, order: seq<nat>): map<string, Elements>
    requires ValidCluster(c) && |buckets| == NumShards(c)
    requires forall j :: 0 <= j < |order| ==> order[j] < NumShards(c)
  {
    if order == [] then map[]
    else
      var last := order[|order| - 1];
      var answer := ShardAnswer(c, Sets(kind), last, buckets[last]);
      MergeIn(c, kind, buckets, order[..|order| - 1]) +
      (if answer.Ok? then Collected(kind, answer.value) else map[])
  }

  function Members(order: seq<nat>): set<int> {
    set j | 0 <= j < |order| :: order[j]
  }

  /** Any order that lists some shards once each merges to what those shards hold. */
  lemma {:induction false} MergeAnyOrder(c: Cluster, kind: Kind, whole: Cache, keys: set<string>,
                                         buckets: seq<seq<string>>, order: seq<nat>)
    requires ValidCluster(c) && HoldsAll(c, whole) && Partition(c, keys, buckets)
    requires NoneFails(c, keys, NumShards(c))
    requires forall j :: 0 <= j < |order| ==> order[j] < NumShards(c)
    requires forall j, l :: 0 <= j < l < |order| ==> order[j] != order[l]
    ensures MergeIn(c, kind, buckets, order) ==
            VisibleSets(c, kind, whole, keys, Members(order))
  {
    if order != [] {
      var n := |order| - 1;
      MergeAnyOrder(c, kind, whole, keys, buckets, order[..n]);
      LastMember(order);
      MergeOneMore(c, kind, whole, keys, buckets, Members(order[..n]), order[n]);
    }
  }

  lemma LastMember(order: seq<nat>)
    requires order != [] && forall j, l :: 0 <= j < l < |order| ==> order[j] != order[l]
    ensures var n := |order| - 1; Members(order) == Members(order[..n]) + {order[n]} && order[n] !in Members(order[..n])
  {
  }

  /** A shard's answer adds what that shard holds. */
  lemma MergeOneMore(c: Cluster, kind: Kind, whole: Cache, keys: set<string>, buckets: seq<seq<string>>,
                     done: set<int>, shard: nat)
    requires ValidCluster(c) && HoldsAll(c, whole) && Partition(c, keys, buckets)
    requires NoneFails(c, keys, NumShards(c)) && shard < NumShards(c) && shard !in done
    ensures var answer := ShardAnswer(c, Sets(kind), shard, buckets[shard]);
      && answer.Ok? && !Clash(VisibleSets(c, kind, whole, keys, done), Collected(kind, answer.value))
      && VisibleSets(c, kind, whole, keys, done + {shard}) ==
         VisibleSets(c, kind, whole, keys, done) + Collected(kind, answer.value)
  {
    AnswerFailsWhenAsked(c, kind, keys, buckets, shard);
    ShardContribution(c, kind, whole, keys, buckets, shard);
    OneMoreShard(c, kind, whole, keys, done, shard);
  }

  /** In any order of the shards, no key that a shard adds was there already. */
  lemma NoOrderCollides(c: Cluster, kind: Kind, whole: Cache, keys: set<string>,
                        buckets: seq<seq<string>>, order: seq<nat>, j: nat)
    requires ValidCluster(c) && HoldsAll(c, whole) && Partition(c, keys, buckets)
    requires NoneFails(c, keys, NumShards(c)) && j < |order|
    requires forall i :: 0 <= i < |order| ==> order[i] < NumShards(c)
    requires forall i, l :: 0 <= i < l < |order| ==> order[i] != order[l]
    ensures var answer := ShardAnswer(c, Sets(kind), order[j], buckets[order[j]]);
      answer.Ok? && !Clash(MergeIn(c, kind, buckets, order[..j]), Collected(kind, answer.value))
  {
    var upTo := order[..j + 1];
    assert upTo[..j] == order[..j] && upTo[j] == order[j];
    MergeAnyOrder(c, kind, whole, keys, buckets, order[..j]);
    LastMember(upTo);
    MergeOneMore(c, kind, whole, keys, buckets, Members(order[..j]), order[j]);
  }

  /** Two orders of the same shards give the same sets. */
  lemma MergeOrderIrrelevant(c: Cluster, kind: Kind, whole: Cache, keys: set<string>,
                             buckets: seq<seq<string>>, a: seq<nat>, b: seq<nat>)
    requires ValidCluster(c) && HoldsAll(c, whole) && Partition(c, keys, buckets)
    requires NoneFails(c, keys, NumShards(c)) && multiset(a) == multiset(b)
    requires forall j :: 0 <= j < |a| ==> a[j] < NumShards(c)
    requires forall j, l :: 0 <= j < l < |a| ==> a[j] != a[l]
    ensures forall j :: 0 <= j < |b| ==> b[j] < NumShards(c)
    ensures MergeIn(c, kind, buckets, a) == MergeIn(c, kind, buckets, b)
  {
    SameMembers(a, b);
    NoDuplicatesByCount(a, b);
    MergeAnyOrder(c, kind, whole, keys, buckets, a);
    MergeAnyOrder(c, kind, whole, keys, buckets, b);
  }

  lemma SameMembers(a: seq<nat>, b: seq<nat>)
    requires multiset(a) == multiset(b)
    ensures Members(a) == Members(b)
    ensures forall j :: 0 <= j < |b| ==> b[j] in a
  {
    forall j | 0 <= j < |a| ensures a[j] in Members(b) {
      assert a[j] in multiset(a) && a[j] in multiset(b) && a[j] in b;
      var l :| 0 <= l < |b| && b[l] == a[j];
    }
    forall j | 0 <= j < |b| ensures b[j] in Members(a) && b[j] in a {
      assert b[j] in multiset(b) && b[j] in multiset(a) && b[j] in a;
      var l :| 0 <= l < |a| && a[l] == b[j];
    }
  }

  lemma NoDuplicatesByCount(a: seq<nat>, b: seq<nat>)
    requires multiset(a) == multiset(b)
    requires forall j, l :: 0 <= j < l < |a| ==> a[j] != a[l]
    ensures forall j, l :: 0 <= j < l < |b| ==> b[j] != b[l]
  {
    forall j, l | 0 <= j < l < |b| ensures b[j] != b[l] {
      if b[j] == b[l] {
        var x := b[j];
        assert b == b[..j] + [x] + b[j + 1..l] + [x] + b[l + 1..];
        assert multiset(b)[x] >= 2;
        AtMostOnce(a, x);
      }
    }
  }

  lemma {:induction false} AtMostOnce(a: seq<nat>, x: nat)
    requires forall j, l :: 0 <= j < l < |a| ==> a[j] != a[l]
    ensures multiset(a)[x] <= 1
  {
    if a != [] {
      var n := |a| - 1;
      AtMostOnce(a[..n], x);
      assert a == a[..n] + [a[n]];
      if a[n] == x { assert x !in a[..n]; }
    }
  }

  /* ---------- queries ---------- */

  /** RunSetQuery on a parsed query.  Main theorem: over sets of strings, when no shard
      fails, the result is that of the same query on the unsharded store.  Sets of
      numbers are evaluated over what is visible. */
  method RunSetQuery(c: Cluster, kind: Kind, root: Node, ghost whole: Cache) returns (r: Result<Elements>)
    requires ValidCluster(c) && FitsInt32(c.codec, LeafKeys(root)) && HoldsAll(c, whole)
    ensures AllReachable(c) && NoneFails(c, LeafKeys(root), NumShards(c)) ==>
            r == Meaning(kind, root, k => Visible(c, kind, whole, k))
    ensures kind.StringSets? && AllReachable(c) && NoneFails(c, LeafKeys(root), NumShards(c)) ==>
            r == QueryMeaning(whole, kind, root)
    ensures !(AllReachable(c) && NoneFails(c, LeafKeys(root), NumShards(c))) ==>
            r == Err(if !AllReachable(c) then NO_CLIENT else FirstFault(c, LeafKeys(root), 0))
  {
    var keys, _ := Keys(root);
    var sets, _ := GetShardedKeyValueSet(c, kind, keys, whole);
    if sets.Err? {
      return Err(sets.error);
    }
    var fetched := sets.value;
    MeaningNeedsOnlyLeafKeys(kind, root, k => InFetched(fetched, k), k => Visible(c, kind, whole, k));
    if kind.StringSets? { StringQueriesSeeTheWholeStore(c, whole, root); }
    r := Eval(kind, root, k => InFetched(fetched, k));
  }

  /** Over sets of strings sharding hides nothing: a query means on the visible sets
      what it means on the unsharded store. */
  lemma StringQueriesSeeTheWholeStore(c: Cluster, whole: Cache, root: Node)
    ensures Meaning(StringSets, root, k => Visible(c, StringSets, whole, k)) == QueryMeaning(whole, StringSets, root)
  {
    MeaningNeedsOnlyLeafKeys(StringSets, root, k => Visible(c, StringSets, whole, k),
                             k => Stored(whole, StringSets, k));
  }

  /* ---------- sets of numbers ---------- */

  /** A key whose sets sharding hides: numbers stored on another shard. */
  predicate Hidden(c: Cluster, kind: Kind, whole: Cache, key: string) {
    !kind.StringSets? && Owner(c, key) != c.current && Stored(whole, kind, key) != {}
  }

  predicate SameMeaning(c: Cluster, kind: Kind, whole: Cache, root: Node) {
    Meaning(kind, root, k => Visible(c, kind, whole, k)) == QueryMeaning(whole, kind, root)
  }

  /** For one key, sharded and local agree exactly when the key is not hidden. */
  lemma KeySeenUnlessHidden(c: Cluster, kind: Kind, whole: Cache, key: string)
    ensures Visible(c, kind, whole, key) == Stored(whole, kind, key) <==> !Hidden(c, kind, whole, key)
  {
  }

  /** All queries over a set of keys agree exactly when none of the keys is hidden. */
  lemma QueriesAgreeUnlessHidden(c: Cluster, kind: Kind, whole: Cache, keys: set<string>)
    ensures (forall root :: LeafKeys(root) <= keys ==> SameMeaning(c, kind, whole, root)) <==>
            (forall key :: key in keys ==> !Hidden(c, kind, whole, key))
  {
    if forall key :: key in keys ==> !Hidden(c, kind, whole, key) {
      forall root | LeafKeys(root) <= keys ensures SameMeaning(c, kind, whole, root) {
        MeaningNeedsOnlyLeafKeys(kind, root, k => Visible(c, kind, whole, k), k => Stored(whole, kind, k));
      }
    }
    if forall root :: LeafKeys(root) <= keys ==> SameMeaning(c, kind, whole, root) {
      forall key | key in keys ensures !Hidden(c, kind, whole, key) {
        assert LeafKeys(ValueNode(key)) <= keys;
        assert SameMeaning(c, kind, whole, ValueNode(key));
      }
    }
  }

  const NUMBERS: Cache := Cache(map[], map[], map["k" := {Number(7)}], map[])

  /** Two shards, the only key of numbers stored on the other one. */
  function TwoShards(codec: Codec): Cluster {
    Cluster(KeySharder((_, _) => 1, _ => None), 0, [Cache(map[], map[], map[], map[]), NUMBERS],
            [true, true], [None, None], true, codec)
  }

  /** The simplest query over numbers that sharding answers differently. */
  lemma HiddenNumbersExample(codec: Codec)
    requires Lossless(codec)
    ensures ValidCluster(TwoShards(codec)) && HoldsAll(TwoShards(codec), NUMBERS)
    ensures Meaning(Bitsets32, ValueNode("k"), k => Visible(TwoShards(codec), Bitsets32, NUMBERS, k)) == Ok({})
    ensures QueryMeaning(NUMBERS, Bitsets32, ValueNode("k")) == Ok({Number(7)})
  {
  }

  /* ---------- the *ValueSet calls ---------- */

  function Rebuilt(kind: Kind, sets: map<string, Elements>, key: string): SingleLookupResult {
    if key in sets then SetValues(kind, sets[key]) else Failed(Error(NotFound, ""))
  }

  /** Equal up to the text of a status. */
  predicate SameUpToMessage(a: SingleLookupResult, b: SingleLookupResult) {
    a == b || (a.Failed? && b.Failed? && a.status.code == b.status.code)
  }

  /** GetKeyValueSet, GetUInt32ValueSet and GetUInt64ValueSet of the sharded lookup:
      a key's answer is the unsharded one exactly when the key is not hidden. */
  method GetShardedSets(c: Cluster, kind: Kind, keys: set<string>, ghost whole: Cache) returns (r: Result<Response>)
    requires ValidCluster(c) && FitsInt32(c.codec, keys) && HoldsAll(c, whole)
    ensures keys == {} ==> r == Ok(map[])
    ensures keys != {} ==> (r.Ok? <==> AllReachable(c) && NoneFails(c, keys, NumShards(c)))
    ensures r.Ok? ==> r.value.Keys == keys
    ensures keys != {} && r.Err? ==>
      r.error == (if !AllReachable(c) then NO_CLIENT else FirstFault(c, keys, 0))
    ensures r.Ok? ==> forall k :: k in keys ==> r.value[k] == Rebuilt(kind, AllVisible(c, kind, whole, keys), k)
    ensures r.Ok? ==> forall k :: k in keys ==>
      (SameUpToMessage(r.value[k], SetAnswer(whole, kind, k)) <==> !Hidden(c, kind, whole, k))
  {
    if keys == {} {
      return Ok(map[]);
    }
    var sets, _ := GetShardedKeyValueSet(c, kind, keys, whole);
    if sets.Err? {
      return Err(sets.error);
    }
    var response: Response := map[];
    var todo := keys;
    while todo != {}
      invariant todo <= keys && response.Keys == keys - todo
      invariant forall k :: k in response ==> response[k] == Rebuilt(kind, sets.value, k)
      decreases todo
    {
      var key :| key in todo;
      var result := Failed(Error(NotFound, ""));
      if key in sets.value {
        result := SetValues(kind, sets.value[key]);
      }
      response := response[key := result];
      todo := todo - {key};
    }
    r := Ok(response);
  }
}
