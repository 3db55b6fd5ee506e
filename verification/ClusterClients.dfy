/**
 Where the clients of a sharded lookup come from: the lookup asks the shard manager
 for one client per shard (components/internal_server/sharded_lookup.cc), and the
 manager's table is that of the last mapping it was given.
 */
module ClusterClients {
  import opened Status
  import opened ShardManager
  import opened ShardedLookup

  /** Asks the manager for each shard's client; a client is there exactly when the
      shard has a replica. */
  method HasClients(manager: ShardManagerImpl, draw: nat -> nat) returns (has: seq<bool>)
    requires manager.Valid() && forall n :: n > 0 ==> draw(n) < n
    ensures |has| == manager.numShards
    ensures forall i :: 0 <= i < |has| ==> (has[i] <==> manager.clusterMappings[i] != [])
  {
    has := [];
    for i := 0 to manager.numShards
      invariant |has| == i && forall j :: 0 <= j < i ==> (has[j] <==> manager.clusterMappings[j] != [])
    {
      var client := manager.Get(i, draw);
      has := has + [client != null];
    }
  }

  /** After any updates of a valid mapping, none of which leaves a shard without a
      replica, a lookup finds a client for every shard. */
  method ServeCluster(c: Cluster, mappings: seq<set<string>>, batches: seq<seq<set<string>>>, draw: nat -> nat)
    returns (r: Result<Cluster>)
    requires |mappings| == NumShards(c) && forall n :: n > 0 ==> draw(n) < n
    ensures r.Ok? <==> NumShards(c) >= 2 && {} !in mappings
    ensures r.Ok? ==> r.value == c.(hasClient := r.value.hasClient) && |r.value.hasClient| == NumShards(c)
    ensures r.Ok? && (forall j :: 0 <= j < |batches| ==> {} !in batches[j]) ==> AllReachable(r.value)
  {
    var manager := Create(NumShards(c), mappings);
    if manager.Err? {
      return Err(manager.error);
    }
    Watch(manager.value, batches);
    var has := HasClients(manager.value, draw);
    r := Ok(c.(hasClient := has));
  }
}
