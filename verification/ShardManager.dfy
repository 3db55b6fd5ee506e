/**
 The table of remote clients (components/sharding/shard_manager.cc): which
 addresses serve which shard, and one client object per address ever seen.
 */
module ShardManager {
  import opened Decimals
  import opened Status

  class RemoteLookupClient {
    const ip: string

    constructor (ip: string)
      ensures this.ip == ip
    {
      this.ip := ip;
    }
  }

  /* ---------- validation ---------- */

  const TOO_FEW := Error(InvalidArgument, "Should have at least 2 clusters.")
  const NO_REPLICA := Error(InvalidArgument, "Should have at least 1 replica per cluster.")

  function WrongSize(numShards: nat, size: nat): Error {
    Error(InvalidArgument, "`num_shards`(" + Decimal(numShards) +
                           ") does not match the size of `cluster_mappings` (" + Decimal(size) + ")")
  }

  /** The text gives the configured number first and the size of the mapping last. */
  lemma WrongSizeTells(numShards: nat, size: nat)
    ensures var m := WrongSize(numShards, size).message; var first, last := "`num_shards`(" + Decimal(numShards), Decimal(size) + ")";
      |m| >= |first| + |last| && m[..|first|] == first && m[|m| - |last|..] == last
  {
    var first, last, mid := "`num_shards`(" + Decimal(numShards), Decimal(size) + ")",
                            ") does not match the size of `cluster_mappings` (";
    assert WrongSize(numShards, size).message == first + mid + last;
  }

  method ValidateMapping(numShards: int, mappings: seq<set<string>>) returns (r: Option<Error>)
    ensures r.None? <==> numShards >= 2 && numShards == |mappings| && {} !in mappings
    ensures numShards < 2 ==> r == Some(TOO_FEW)
    ensures numShards >= 2 && numShards != |mappings| ==> r == Some(WrongSize(numShards, |mappings|))
    ensures numShards >= 2 && numShards == |mappings| && {} in mappings ==> r == Some(NO_REPLICA)
  {
    if numShards < 2 {
      return Some(TOO_FEW);
    }
    if numShards != |mappings| {
      return Some(WrongSize(numShards, |mappings|));
    }
    for i := 0 to |mappings|
      invariant {} !in mappings[..i]
    {
      if mappings[i] == {} {
        return Some(NO_REPLICA);
      }
      assert mappings[..i + 1] == mappings[..i] + [mappings[i]];
    }
    assert mappings[..|mappings|] == mappings;
    r := None;
  }

  /** `v` lists the set, each element once, in some order. */
  ghost predicate ListsSet(v: seq<string>, s: set<string>) {
    (forall i, j :: 0 <= i < j < |v| ==> v[i] != v[j]) && (forall x :: x in v <==> x in s)
  }

  method ToVector(s: set<string>) returns (v: seq<string>)
    ensures ListsSet(v, s)
  {
    v := [];
    var todo := s;
    while todo != {}
      invariant todo <= s && ListsSet(v, s - todo)
      decreases todo
    {
      var x :| x in todo;
      v := v + [x];
      todo := todo - {x};
    }
  }

  function AllAddresses(mappings: seq<set<string>>): set<string> {
    if mappings == [] then {} else AllAddresses(mappings[..|mappings| - 1]) + mappings[|mappings| - 1]
  }

  lemma {:induction false} AddressesOfRows(mappings: seq<set<string>>, ip: string)
    ensures ip in AllAddresses(mappings) <==> exists i :: 0 <= i < |mappings| && ip in mappings[i]
  {
    if mappings != [] {
      var n := |mappings| - 1;
      AddressesOfRows(mappings[..n], ip);
      if i :| 0 <= i < |mappings| && ip in mappings[i] {
        if i < n { assert ip in mappings[..n][i]; }
      }
      if i :| 0 <= i < n && ip in mappings[..n][i] { assert ip in mappings[i]; }
    }
  }

  /* ---------- the manager ---------- */

  type Clients = map<string, RemoteLookupClient>

  /** Every client answers to the address it is filed under. */
  ghost predicate ClientsOk(clients: Clients) {
    forall ip :: ip in clients ==> clients[ip].ip == ip
  }

  /** `b` keeps every client of `a`: pointers handed out earlier stay valid. */
  ghost predicate Keeps(a: Clients, b: Clients) {
    forall ip :: ip in a ==> ip in b && b[ip] == a[ip]
  }

  class ShardManagerImpl {
    const numShards: nat
    var clusterMappings: seq<seq<string>>
    var clients: Clients

    constructor (numShards: nat)
      ensures this.numShards == numShards && clusterMappings == [] && clients == map[]
    {
      this.numShards, this.clusterMappings, this.clients := numShards, [], map[];
    }

    /** The table has one row per shard and every address in it has a client. */
    ghost predicate Valid()
      reads this
    {
      && |clusterMappings| == numShards && ClientsOk(clients)
      && forall i, ip :: 0 <= i < numShards && ip in clusterMappings[i] ==> ip in clients
    }

    /** Makes clients for the addresses that have none yet. */
    method AddClients(ips: seq<string>)
      requires ClientsOk(clients)
      modifies `clients
      ensures ClientsOk(clients) && Keeps(old(clients), clients)
      ensures forall ip :: ip in clients <==> ip in old(clients) || ip in ips
      ensures forall ip :: ip in clients && ip !in old(clients) ==> fresh(clients[ip])
    {
      for i := 0 to |ips|
        invariant ClientsOk(clients) && Keeps(old(clients), clients)
        invariant forall ip :: ip in clients <==> ip in old(clients) || ip in ips[..i]
        invariant forall ip :: ip in clients && ip !in old(clients) ==> fresh(clients[ip])
      {
        assert ips[..i + 1] == ips[..i] + [ips[i]];
        if ips[i] in clients {
          continue;
        }
        var client := new RemoteLookupClient(ips[i]);
        clients := clients[ips[i] := client];
      }
      assert ips[..|ips|] == ips;
    }

    /** A batch of the wrong size changes nothing; any other batch replaces the table,
        adds clients for new addresses and touches no existing client. */
    method InsertBatch(mappings: seq<set<string>>)
      requires ClientsOk(clients) && (|mappings| == numShards || Valid())
      modifies this
      ensures Valid() && Keeps(old(clients), clients)
      ensures |mappings| != numShards ==> clusterMappings == old(clusterMappings) && clients == old(clients)
      ensures |mappings| == numShards ==>
        && (forall i :: 0 <= i < numShards ==> ListsSet(clusterMappings[i], mappings[i]))
        && clients.Keys == old(clients).Keys + AllAddresses(mappings)
    {
      if |mappings| != numShards {
        return;
      }
      var rows: seq<seq<string>> := [];
      for s := 0 to |mappings|
        invariant |rows| == s && ClientsOk(clients) && Keeps(old(clients), clients)
        invariant forall i :: 0 <= i < s ==> ListsSet(rows[i], mappings[i])
        invariant forall i, ip :: 0 <= i < s && ip in rows[i] ==> ip in clients
        invariant clients.Keys == old(clients).Keys + AllAddresses(mappings[..s])
      {
        assert mappings[..s + 1][..s] == mappings[..s];
        var row := ToVector(mappings[s]);
        AddClients(row);
        rows := rows + [row];
      }
      assert mappings[..|mappings|] == mappings;
      clusterMappings := rows;
    }

    /** `draw` is the random generator: an index below its argument. */
    method Get(shard: int, draw: nat -> nat) returns (client: RemoteLookupClient?)
      requires Valid()
      requires forall n :: n > 0 ==> draw(n) < n
      ensures client == null <==> !(0 <= shard < numShards) || clusterMappings[shard] == []
      ensures client != null ==>
        && client.ip in clusterMappings[shard] && client.ip in clients && clients[client.ip] == client
        && client.ip == clusterMappings[shard][draw(|clusterMappings[shard]|)]
    {
      if shard < 0 || shard >= numShards || |clusterMappings| != numShards {
        return null;
      }
      var replicas := clusterMappings[shard];
      if |replicas| == 0 {
        return null;
      }
      var ip := replicas[draw(|replicas|)];
      if ip !in clients {
        return null;
      }
      client := clients[ip];
    }
  }

  /** A manager exists exactly for a valid first mapping, and serves it. */
  method Create(numShards: int, mappings: seq<set<string>>)
    returns (r: Result<ShardManagerImpl>)
    ensures r.Ok? <==> numShards >= 2 && numShards == |mappings| && {} !in mappings
    ensures r.Ok? ==> fresh(r.value) && r.value.Valid() && r.value.numShards == numShards
    ensures r.Ok? ==> forall i :: 0 <= i < numShards ==> ListsSet(r.value.clusterMappings[i], mappings[i])
    ensures r.Ok? ==> NoEmptyRow(r.value.clusterMappings)
  {
    var invalid := ValidateMapping(numShards, mappings);
    if invalid.Some? {
      return Err(invalid.value);
    }
    var manager := new ShardManagerImpl(|mappings|);
    manager.InsertBatch(mappings);
    RowsServeTheirSets(manager.clusterMappings, mappings);
    r := Ok(manager);
  }

  /** Every shard has a replica. */
  ghost predicate NoEmptyRow(table: seq<seq<string>>) {
    [] !in table
  }

  lemma RowsServeTheirSets(table: seq<seq<string>>, mappings: seq<set<string>>)
    requires |table| == |mappings| && forall i :: 0 <= i < |table| ==> ListsSet(table[i], mappings[i])
    ensures NoEmptyRow(table) <==> {} !in mappings
  {
    forall i | 0 <= i < |table| ensures table[i] == [] <==> mappings[i] == {} {
      if table[i] != [] { assert table[i][0] in mappings[i]; }
      if x :| x in mappings[i] { assert x in table[i]; }
    }
    if {} in mappings {
      var i :| 0 <= i < |mappings| && mappings[i] == {};
      assert table[i] == [];
    }
    if [] in table {
      var i :| 0 <= i < |table| && table[i] == [];
      assert mappings[i] == {};
    }
  }

  /** The updater's loop: over any sequence of batches the table stays well formed, no
      client is ever replaced or dropped, and the table is that of the last batch of
      the right size. */
  method Watch(manager: ShardManagerImpl, batches: seq<seq<set<string>>>)
    requires manager.Valid()
    modifies manager
    ensures manager.Valid() && Keeps(old(manager.clients), manager.clients)
    ensures forall j :: 0 <= j < |batches| && |batches[j]| == manager.numShards &&
                        (forall l :: j < l < |batches| ==> |batches[l]| != manager.numShards) ==>
      forall i :: 0 <= i < manager.numShards ==> ListsSet(manager.clusterMappings[i], batches[j][i])
    ensures (forall j :: 0 <= j < |batches| ==> |batches[j]| != manager.numShards) ==>
      manager.clusterMappings == old(manager.clusterMappings) && manager.clients == old(manager.clients)
    ensures NoEmptyRow(old(manager.clusterMappings)) && (forall j :: 0 <= j < |batches| ==> {} !in batches[j]) ==>
      NoEmptyRow(manager.clusterMappings)
  {
    for k := 0 to |batches|
      invariant manager.Valid() && Keeps(old(manager.clients), manager.clients)
      invariant forall j :: 0 <= j < k && |batches[j]| == manager.numShards &&
                            (forall l :: j < l < k ==> |batches[l]| != manager.numShards) ==>
        forall i :: 0 <= i < manager.numShards ==> ListsSet(manager.clusterMappings[i], batches[j][i])
      invariant (forall j :: 0 <= j < k ==> |batches[j]| != manager.numShards) ==>
        manager.clusterMappings == old(manager.clusterMappings) && manager.clients == old(manager.clients)
      invariant NoEmptyRow(old(manager.clusterMappings)) && (forall j :: 0 <= j < k ==> {} !in batches[j]) ==>
        NoEmptyRow(manager.clusterMappings)
    {
      manager.InsertBatch(batches[k]);
      if |batches[k]| == manager.numShards { RowsServeTheirSets(manager.clusterMappings, batches[k]); }
    }
  }
}
