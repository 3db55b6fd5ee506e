# A model of the key/value service in Dafny

This project models the parts of the Protected Auction Key/Value Service where
correctness is least obvious from the code, and proves properties of them for
all inputs and all runs.

- **The per-key locking map.** `HashMapProtocol` is a labelled transition system: any number of
  threads, the map mutex, one mutex per node, handles, iterators, and one label per
  step that touches a mutex or shared data. A mutex is granted whenever the request is
  compatible with its holders. `HashMapSafety` proves the invariant that makes
  `RemoveIf` sound, `HashMapLinearization` that every run is a run of a sequential map,
  `HashMapIteration` what iterators visit, `HashMapSharing` who waits for whom,
  `HashMapProgress` that no set of threads deadlocks when threads start map operations only
  while they hold no handle and no iterator, `HashMapWindDown` that such runs can always
  come to rest, and `HashMapUsage` that this rule is exact. The rule is this project's; see below.
- **Set queries.** `QueryAst` holds the tree, its recursive meaning and the worklist
  traversals; `QueryEval` the in-place set operations and the stack visitor.
- **Lookups.** `LocalLookup` is a server's own cache, `StringPadder` and `RemoteLookup`
  the padded request to another shard and its handler, `ShardedLookup` and `ShardedQuery` the
  fan-out and the merge, `ShardManager` the table of clients, and `ClusterClients` the link
  between the two.
- **The delta file watcher.** `DeltaFileNotifier` is the polling loop with its watermarks,
  `DeltaFileBooks` what its reports promise, `DeltaFileRuns` the clock and whole runs, and
  `FileNames` the names whose text order it relies on.
- **The rate limiter** (`RateLimiter`) and **the graph printer** (`QueryDot`).
- `Status`, `Basics` and `Decimals` hold error values, integer ranges and decimal texts.

Code that updates objects or loops is a class or a method here; each method is tied to a
specification function or states its result outright. The locking map is the
exception: its subject is the interleaving of many threads, so it is a state machine over steps.

How the outside world enters:

- Cloud storage, clocks, sleeps and notifications are a script of turns (`Turn`) or naps
  (`Nap`). In the watcher, waits and sleeps last at most as long as asked; in the rate limiter
  they last any time. Listings are sorted and strictly after the given name (`Honest`).
  `AppendOnly` says that nothing is deleted and that new delta names sort after older ones;
  only the completeness results need it.
- Encryption and gRPC are a channel that may fail but never alters a message. Protobuf is a
  pair of functions that undo each other (`Codec`, `Lossless`), and the empty
  message parses to the empty response.
- The sharding hash and the shard-key regular expression are arbitrary functions with a range (`KeySharder`).
- `HoldsAll` says that the shard owning a key stores what the unsharded store has for it.
- Iteration over a hash set or hash map picks elements in any order.

Places where the code and its documentation differ; the model follows the code:

- The header comment of the locking map warns only against asking for a key that the thread
  already holds. A run that heeds this can still deadlock, through the map mutex
  (`HashMapUsage.OtherKeyRunDeadlocks`). The comment's own example deadlocks as it
  says (`HashMapUsage.HeaderRunDeadlocks`).
- The comment on sharded `GetKeyValues` says that any failing shard makes the whole response
  empty with an Internal status. The code marks only that shard's keys
  (`ShardedLookup.GetShardedKeyValues`).
- The debug assertion in `OpNode::Keys` says that each leaf has one key. `QueryAst.Keys`
  returns whether it held: it fails exactly when a literal occurs below an operator.

Properties that fail, each with its exact condition:

- A call on the locking map need not be able to return. In a run that has kept the rule so far,
  a thread is empty-handed exactly when every map operation it may start next can still
  return (`HashMapUsage.EmptyHandedIsExact`); otherwise one of them never returns,
  whatever anyone does (`HashMapUsage.HandleBarsItsKey`, `HashMapUsage.IteratorBarsWriters`).
- A sharded query over sets of numbers does not equal the local one, because other
  shards answer set requests with sets of strings. All queries over a set of keys agree exactly
  when no key is `Hidden`: stored with numbers on another shard
  (`ShardedQuery.QueriesAgreeUnlessHidden`, `ShardedQuery.HiddenNumbersExample`).
- Sleeping exactly as long as the rate limiter asks gains the permits in one refill exactly
  when the rate divides the permits times one million (`RateLimiter.ExactSleepIsEnoughWhenRateDivides`).
- A rate limiter does not bound what it grants by each rate times the time it was in force: a
  raised rate applies back to the last refill. The next refill stays within what was earned,
  whenever it comes, exactly when the rate is not raised or a refill has just happened
  (`RateLimiter.RaisedRateReachesBack`, `RateLimiter.RaiseRun`).
- A listing brings the watcher's reports up to date exactly when nothing reported has been deleted
  and no unreported delta name beyond the starting point lies at or below the
  watermark (`DeltaFileBooks.CompleteUnlessOvertaken`). A name that the watermark has passed
  is never reported again (`DeltaFileRuns.LostForever`), which happens to a lower name that
  appears late (`DeltaFileNotifier.WatchLateScript`).
- Two nodes of a printed graph share a name exactly when they are of one kind and their positions
  agree modulo 2^32 (`QueryDot.NamesClashExactly`, `QueryDot.LongSpineClashes`).
- Unpadding undoes padding exactly when the padding is not negative (`StringPadder.UnpadUndoesPad`).
- Joining a parsed blob name gives the name back exactly when the name does not have its only slash
  in front (`FileNames.JoinUndoesParse`, `FileNames.LeadingSlashExample`).

`dafny verify dfyconfig.toml` checks the project with Dafny 4.11.

## Model

| member | source | states |
|---|---|---|
| HashMapSafety.ReachableInv | components/container/thread_safe_hash_map.h:117-275 | every state of every run, for any number of threads, satisfies the invariant: lock objects are exactly those that calls, handles and iterators account for, an exclusively held mutex has no other holder, and every reference is to a current entry |
| HashMapSafety.ErasedNodesAreAbandoned | components/container/thread_safe_hash_map.h:169-185 | in every run no lock object, waiter, handle or iterator refers to an erased node |
| HashMapSafety.HandlesSeeCurrentEntry | components/container/thread_safe_hash_map.h:201-221 | an unreleased handle refers to the entry now stored for its key, and a mutable one is the only holder of that entry's mutex |
| HashMapSafety.OpenIteratorsListTheTable | components/container/thread_safe_hash_map.h:238-275 | an iterator that holds the map mutex walks exactly the present entries, each once |
| HashMapIteration.PositionIsAdvances | components/container/thread_safe_hash_map.h:187-199 | in every run an iterator stands as far along the listing that begin() answered with as it has been advanced since |
| HashMapIteration.IteratorAtPromisedKey | components/container/thread_safe_hash_map.h:245-256 | in every run the owner can dereference an iterator exactly at the key its listing has at that place, and advance it exactly while there is one |
| HashMapIteration.ListingIsTable | components/container/thread_safe_hash_map.h:238-275 | while an iterator is open, its listing has exactly the present keys, each once |
| HashMapIteration.TraversalVisitsEveryKeyOnce | components/container/thread_safe_hash_map.h:238-275 | a run that dereferences and advances an iterator in turn until it cannot be advanced has dereferenced every present key exactly once |
| HashMapSafety.NoDrainBesideWaiter | components/container/thread_safe_hash_map.h:178-184 | while any thread waits for a node mutex, no RemoveIf is between its drain and its erase |
| HashMapSafety.MapToItself | components/container/thread_safe_hash_map.h:150-185 | while a call holds the map mutex exclusively, no other call holds it and no iterator is open |
| HashMapSafety.DrainKeeps | components/container/thread_safe_hash_map.h:178-181 | once a drain is over nobody holds the node mutex |
| HashMapSafety.WriteKeeps | components/container/thread_safe_hash_map.h:203-208 | a write through a mutable handle never reaches a node that a RemoveIf has drained |
| HashMapSafety.TakeKeeps | components/container/thread_safe_hash_map.h:239-251 | an element moved out of an iterator lives on as a read-only handle and keeps its entry locked |
| HashMapSafety.EraseOthers | components/container/thread_safe_hash_map.h:182-184 | erasing without the node lock removes no entry that a handle, iterator or other call refers to |
| HashMapSafety.StepKeeps | components/container/thread_safe_hash_map.h:117-275 | every enabled step of every thread keeps the invariant |
| HashMapLinearization.RunsLinearize | components/container/thread_safe_hash_map.h:117-275 | every run's effects replay legally on a sequential map and end in the current table, and each thread's events form invoke, effect, return with one answer |
| HashMapLinearization.AnswersAreLastValues | components/container/thread_safe_hash_map.h:63-96 | in every run every operation answers with the last values written before it took effect, and every read through a handle gives the last value of its key |
| HashMapLinearization.EffectsInsideCalls | components/container/thread_safe_hash_map.h:117-185 | in every run a call that returns took effect after it was invoked, with the answer it returns, and its thread did nothing else in between |
| HashMapLinearization.EraseLinear | components/container/thread_safe_hash_map.h:178-184 | the value RemoveIf decided on is still the current one when it erases |
| HashMapLinearization.RemoveIfActsOnLastValue | components/container/thread_safe_hash_map.h:88-93 | in every run RemoveIf erases exactly when the last value written for the key satisfies the predicate, keeps it exactly when it does not, and answers with it |
| HashMapLinearization.InsertionsMinusErasures | components/container/thread_safe_hash_map.h:79-93 | per key, true PutIfAbsent results minus erasures is one while the key is present and zero otherwise |
| HashMapLinearization.WriteLinear | components/container/thread_safe_hash_map.h:203-208 | a write through a mutable handle changes the table's own entry and no other |
| HashMapLinearization.LockNodeLinear | components/container/thread_safe_hash_map.h:117-167 | a lookup answers with the value that is current when it gets the node mutex |
| HashMapLinearization.ReplayKeepsLastWritten | components/container/thread_safe_hash_map.h:79-93 | after any legal trace a key is present with the last value inserted or written for it, unless erased since |
| HashMapLinearization.BalanceIsPresence | components/container/thread_safe_hash_map.h:79-93 | along any legal trace, insertions of a key minus erasures of it is its presence |
| HashMapProgress.DisciplinedRunsNeverDeadlock | components/container/thread_safe_hash_map.h:117-275 | in every state of every run whose threads start map operations empty-handed, no set of threads is deadlocked: never does each member wait for a member, whatever the other threads do or hold |
| HashMapProgress.ChainsAreShort | components/container/thread_safe_hash_map.h:117-275 | under that rule no chain of threads that wait for one another has more than three waits |
| HashMapProgress.EveryWaitEnds | components/container/thread_safe_hash_map.h:117-275 | under that rule every waiting thread waits, directly or through others, for a thread that can step or is outside any call |
| HashMapProgress.StepsUnlessBlocked | components/container/thread_safe_hash_map.h:117-275 | in every state with the invariant, a pending call can step exactly when no lock object clashes with what it asks for |
| HashMapProgress.DeadlockIsForever | components/container/thread_safe_hash_map.h:117-275 | in every run, deadlocked threads stay deadlocked in every continuation |
| HashMapSharing.ReadersWaitOnlyForWriters | components/container/thread_safe_hash_map.h:63-77 | in every run, whatever keeps a read-only call waiting is a call that may change the map or the entry, or a handle that such a call returned |
| HashMapSharing.SeparateKeysDoNotBlock | components/container/thread_safe_hash_map.h:29-31 | in every run a call that waits for the entry of a key is blocked only by holders of that key's entry |
| HashMapSharing.MutableFromWriters | components/container/thread_safe_hash_map.h:130-167 | in every run a handle is mutable exactly when Get or PutIfAbsent returned it |
| HashMapSharing.OwnersCanUse | components/container/thread_safe_hash_map.h:201-236 | in every run a thread outside any call can read and release through its handles, and write exactly through mutable ones |
| HashMapUsage.HeaderRunDeadlocks | components/container/thread_safe_hash_map.h:33-40 | the thread of the header comment ends up waiting for itself, for every key and value |
| HashMapUsage.OtherKeyRunDeadlocks | components/container/thread_safe_hash_map.h:33-40 | never asking for a key one holds does not rule out deadlock: for every two keys there is such a run in which two threads deadlock |
| HashMapUsage.HandleBarsItsKey | components/container/thread_safe_hash_map.h:33-45 | in every reachable state, a thread that has a handle and asks for its key exclusively returns in no continuation |
| HashMapUsage.IteratorBarsWriters | components/container/thread_safe_hash_map.h:146-199 | in every reachable state, a thread that has an iterator and puts or removes a key returns in no continuation |
| HashMapWindDown.PendingCallsCanReturn | components/container/thread_safe_hash_map.h:117-275 | in every run with the empty-handed rule, every pending call has a continuation, itself with the rule, in which it returns |
| HashMapWindDown.WindDownIsShort | components/container/thread_safe_hash_map.h:117-275 | from every reachable state, every continuation made only of steps of pending calls, releases and iterator destructions has at most as many steps as a measure of the state |
| HashMapWindDown.WindDownComesToRest | components/container/thread_safe_hash_map.h:117-275 | in every run with the rule, every such continuation that cannot go on has returned every call and released every handle, iterator and lock |
| HashMapUsage.EmptyHandedIsExact | components/container/thread_safe_hash_map.h:33-45 | in every run with the rule, a thread outside any call is empty-handed exactly when every map operation it may start next has a continuation in which it returns |
| QueryAst.ErrsOnMisfits | components/query/ast.h:211-233 | evaluation fails exactly when a literal of the wrong kind occurs |
| QueryAst.OperatorsByMembership | components/query/ast.h:199-209 | an element is in a union when it is in either side, in a difference when it is in the left and not in the right, in an intersection when it is in both |
| QueryAst.ValueByMembership | components/query/ast.h:195-198 | a value leaf has exactly the elements that the lookup gives for its key |
| QueryAst.StringsByMembership | components/query/ast.h:224-233 | a literal of strings has exactly its strings over hash sets, and is an error over bitsets |
| QueryAst.NumbersByMembership | components/query/ast.h:211-222 | a literal of numbers has exactly its numbers over bitsets, modulo 2^32 over 32-bit ones, and is an error over hash sets |
| QueryAst.ErrsOnOccurringMisfit | components/query/ast.h:211-233 | evaluation fails exactly when a literal of numbers occurs in a query over strings or one of strings in a query over numbers |
| QueryAst.MeaningNeedsOnlyLeafKeys | components/query/ast.h:61-62 | two lookups that agree on the leaf keys give the same result |
| QueryAst.LeafKeysOccur | components/query/ast.h:61-62 | the keys of a query are exactly those of the value nodes that occur in it |
| QueryAst.Keys | components/query/ast.cc:86-117 | the keys returned are exactly those at value leaves; the debug assertion fails exactly when a literal occurs below an operator |
| QueryAst.ComputePostfixOrder | components/query/ast.cc:26-43 | the worklist ends and returns the recursive postorder |
| QueryAst.PostOrderByPosition | components/query/ast.h:147-150 | the left subtree comes first, then the right one, and the root last |
| QueryAst.ReversedPopOrder | components/query/ast.cc:26-43 | root-right-left order reversed is postorder |
| QueryEval.UnionInPlace | components/query/sets.cc:23-31 | the larger set, updated in place, becomes the union |
| QueryEval.IntersectionInPlace | components/query/sets.cc:33-44 | the smaller set, updated in place, becomes the intersection |
| QueryEval.DifferenceInPlace | components/query/sets.cc:46-55 | the left set, updated in place, becomes the difference |
| QueryEval.PostfixComputesMeaning | components/query/ast.h:187-251 | running the postfix program pushes exactly the tree's recursive value on any stack, or fails with it |
| QueryEval.StackStaysShallow | components/query/ast.h:242-254 | no prefix of the program pops an empty stack or stacks more values than the tree is deep |
| QueryEval.AstPostOrderEvalVisitor.Visit | components/query/ast.h:195-251 | visiting a node is one step of the stack machine, with an error exactly on a misfit literal |
| QueryEval.AstPostOrderEvalVisitor.ConductVisit | components/query/ast.h:187-193 | the visitor succeeds exactly when the query has a meaning and leaves that one value |
| QueryEval.Eval | components/query/ast.h:258-265 | iterative evaluation equals the recursive meaning, errors included |
| LocalLookup.GetKeyValues | components/internal_server/local_lookup.cc:215-240 | exactly the requested keys are answered: with the value the cache has for the key, or NotFound and its text |
| LocalLookup.GetKeySets | components/internal_server/local_lookup.cc:45-134 | exactly the requested keys are answered: with the non-empty set in the cache's map of the requested kind, or NotFound and its text |
| LocalLookup.RunQuery | components/internal_server/local_lookup.cc:136-212 | fetching only the query's keys gives the query's meaning on the whole store |
| LocalLookup.KeyQueryByField | components/internal_server/local_lookup.cc:136-212 | the query that is a single key gives exactly the elements in the cache's map of the requested kind |
| StringPadder.Pad | components/internal_server/string_padder.cc:24-32 | header, message and filler through a cursor over a fixed buffer, including what is left out when the buffer is short |
| StringPadder.Unpad | components/internal_server/string_padder.cc:34-47 | returns the declared bytes, or which read failed |
| StringPadder.UnpadUndoesPad | components/internal_server/string_padder.cc:24-47 | unpadding returns the message exactly when the padding is not negative, and fails otherwise |
| StringPadder.UnpadFailsExactly | components/internal_server/string_padder.cc:34-47 | unpadding fails exactly on a short header or a length beyond the remaining bytes |
| StringPadder.DecodeEncode32 | components/internal_server/string_padder.cc:29-37 | reading a length header gives back the length written |
| StringPadder.EncodeDecode32 | components/internal_server/string_padder.cc:29-37 | every four bytes are the header of the length read from them |
| StringPadder.HeaderIsBigEndian | components/internal_server/string_padder.cc:29 | the header has the most significant byte first, so headers compare byte by byte as lengths do |
| StringPadder.PaddedLayout | components/internal_server/string_padder.cc:24-32 | length, message and the character zero stand where they should, also when the buffer is short |
| RemoteLookup.GetPayload | components/internal_server/lookup_server_impl.cc:42-69 | a value request is answered with values and a set request with string sets, for the requested keys |
| RemoteLookup.HandlerAnswerByField | components/internal_server/lookup_server_impl.cc:132-142 | a shard answers exactly the requested keys, a set request from its map of string sets and a value request from its values |
| RemoteLookup.SecureLookup | components/internal_server/lookup_server_impl.cc:98-129 | answers the unpadded, parsed request, or reports which of the two failed, with the text of the error |
| RemoteLookup.GetValues | components/internal_server/remote_lookup_client_impl.cc:52-110 | padding and serialising are invisible: the caller gets the handler's answer to the request the message stands for, or the failure of the channel, of the padding or of parsing |
| ShardedLookup.BucketKeys | components/internal_server/sharded_lookup.cc:324-338 | the buckets partition the keys by owner, each key once |
| ShardedLookup.OwnerByCapture | public/sharding/key_sharder.cc:26-43 | a key is owned by the shard its captured part hashes to, or the whole key when nothing is captured, so keys with the same captured part share a shard |
| ShardedLookup.ComputePadding | components/internal_server/sharded_lookup.cc:357-367 | paddings are non-negative, make all lengths equal, and one of them is zero |
| ShardedLookup.ShardKeys | components/internal_server/sharded_lookup.cc:340-377 | each shard's input holds its bucket, that bucket's serialised request and an even padding |
| ShardedLookup.PaddedRequestsLookAlike | components/internal_server/sharded_lookup.cc:357-377 | all padded requests have four bytes plus the longest serialised length, and each shard recovers exactly its own request |
| ShardedLookup.GetLookupFutures | components/internal_server/sharded_lookup.cc:379-424 | fails exactly when a client is missing, otherwise holds each shard's answer and the padded request that went out to it |
| ShardedLookup.ChaffHidesTheSpread | components/internal_server/sharded_lookup.cc:407-420 | with chaff every other shard is sent one request, all of the same length |
| ShardedLookup.RequestsReachOwners | components/internal_server/sharded_lookup.cc:407-420 | what goes out to a shard unpads and parses to the request for exactly the keys it owns; without chaff only owners of a key are sent one |
| ShardedLookup.AskShard | components/internal_server/sharded_lookup.cc:393-421 | one shard's answer, and the request that went out to it if any |
| ShardedLookup.GetLocalLookupResponse | components/internal_server/sharded_lookup.cc:428-449 | the current shard answers from its own cache, with the kind of set the caller is after |
| ShardedLookup.GetShardedKeyValues | components/internal_server/sharded_lookup.cc:451-484 | with any shards failing, the answered keys are the requested keys; each gets the value the unsharded store has for it or NotFound, unless its own shard failed, and is marked Internal otherwise |
| ShardedLookup.ProcessShard | components/internal_server/sharded_lookup.cc:470-482 | one shard's answer or failure fills in exactly the keys it owns, as expected of them |
| ShardedLookup.ShardValueAnswers | components/internal_server/sharded_lookup.cc:469-482 | a shard that answers gives each key of its bucket the unsharded answer |
| ShardedLookup.InternalMarksFailedOwners | components/internal_server/sharded_lookup.cc:473-479 | an Internal status marks exactly the keys whose owner failed |
| ShardedLookup.UpdateResponse | components/internal_server/sharded_lookup.cc:37-53 | the shard's keys get its answers or NotFound, all others keep theirs |
| ShardedLookup.SetRequestFailed | components/internal_server/sharded_lookup.cc:55-67 | the shard's keys are marked Internal, all others keep their answers |
| ShardedLookup.CollectKeySets | components/internal_server/sharded_lookup.cc:486-537 | adds exactly the non-empty sets of the wanted kind; the collision branch is taken exactly when a key was there already |
| ShardedLookup.ShardContribution | components/internal_server/sharded_lookup.cc:505-524 | whichever way a shard answers, it contributes what is visible of the keys it owns |
| ShardedQuery.GetShardedKeyValueSet | components/internal_server/sharded_lookup.cc:539-581 | succeeds exactly when all asked shards answer, else with the first failing shard's error; never a collision; the result is what is visible of the whole store |
| ShardedQuery.MergeShard | components/internal_server/sharded_lookup.cc:571-579 | one shard's answer adds what is visible of the keys it owns, none of which was there already |
| ShardedQuery.AllVisibleByField | components/internal_server/sharded_lookup.cc:492-504 | a lookup of string sets has exactly the requested keys with a non-empty set in the unsharded store, with that set |
| ShardedQuery.NumbersVisibleByField | components/internal_server/sharded_lookup.cc:505-524 | a lookup of number sets has exactly those of them that the current shard owns |
| ShardedQuery.MergeOrderIrrelevant | components/internal_server/sharded_lookup.cc:568-580 | any two orders of the shards merge to the same sets |
| ShardedQuery.NoOrderCollides | components/internal_server/sharded_lookup.cc:525-535 | in any order of the shards, no key that a shard adds was there already |
| ShardedQuery.RunSetQuery | components/internal_server/sharded_lookup.cc:593-639 | over string sets, with no shard failing, the sharded query returns the meaning of the query on the unsharded store; otherwise the retrieval's error |
| ShardedQuery.StringQueriesSeeTheWholeStore | components/internal_server/sharded_lookup.cc:614-634 | for every tree, shard count and owner function, the visible string sets give the query the same meaning as the whole store |
| ShardedQuery.QueriesAgreeUnlessHidden | components/internal_server/sharded_lookup.cc:505-524 | all queries over a set of keys agree with the local ones exactly when none of the keys is hidden |
| ShardedQuery.KeySeenUnlessHidden | components/internal_server/sharded_lookup.cc:505-524 | what is visible of one key is all of it exactly when the key is not hidden |
| ShardedQuery.HiddenNumbersExample | components/internal_server/lookup_server_impl.cc:136-137 | a valid two-shard cluster and a one-key query over numbers that it answers with the empty set |
| ShardedQuery.GetShardedSets | components/internal_server/sharded_lookup.cc:101-207 | every requested key gets the set visible for it or NotFound, which is the local answer up to the message text exactly when the key is not hidden |
| ShardManager.ValidateMapping | components/sharding/shard_manager.cc:126-147 | which mappings are refused, and with which error |
| ShardManager.WrongSizeTells | components/sharding/shard_manager.cc:133-137 | the text for a wrong size gives the configured number first and the size of the mapping last |
| ShardManager.ShardManagerImpl.AddClients | components/sharding/shard_manager.cc:71-77 | afterwards there are clients for exactly the old and the new addresses, and no old client was replaced |
| ShardManager.ShardManagerImpl.InsertBatch | components/sharding/shard_manager.cc:62-81 | a batch of the wrong size changes nothing; any other replaces the table, adds clients and keeps every existing client |
| ShardManager.AddressesOfRows | components/sharding/shard_manager.cc:69-79 | the addresses that get a client are exactly those in some row |
| ShardManager.ShardManagerImpl.Get | components/sharding/shard_manager.cc:83-110 | null exactly for out-of-range or replica-less shards, otherwise the client of the drawn replica |
| ShardManager.Create | components/sharding/shard_manager.cc:171-187 | a manager exists exactly for a valid mapping, and serves it |
| ShardManager.Watch | components/sharding/cluster_mappings_manager.cc:53-58 | over any sequence of batches every mapped address has a client, no client is replaced or dropped, the table is that of the last batch of the right size, and no shard loses all replicas unless a batch says so |
| ClusterClients.HasClients | components/internal_server/sharded_lookup.cc:398-404 | a lookup finds a client for a shard exactly when the shard has a replica |
| ClusterClients.ServeCluster | components/sharding/cluster_mappings_manager.cc:53-58 | after a valid mapping and any updates none of which leaves a shard without a replica, every shard is reachable |
| FileNames.DeltaNameExactlyBelow | public/data_loading/filename_utils.cc:28-51 | over all 64-bit times, a name is built exactly below ten to the sixteen, despite the signed conversion |
| FileNames.OneDigitName | public/data_loading/filename_utils.cc:28-33 | the name of a one-digit time is the prefix, fifteen zeros and the digit |
| FileNames.DeltaNamesOrderedByTime | public/data_loading/filename_utils.cc:28-51 | text order of delta names is the order of their times, and names are unique |
| FileNames.DeltaNamesComeFromTimes | public/data_loading/filename_utils.cc:37-41 | every name that matches the pattern is the name of some time |
| FileNames.LessIsEarlier | public/data_loading/filename_utils.cc:28-51 | delta names compare as their logical times do |
| FileNames.ParseBlobName | components/data/blob_storage/blob_prefix_allowlist.cc:31-46 | reversing and splitting once splits at the last slash |
| FileNames.ParseUndoesJoin | components/data/blob_storage/delta_file_notifier.cc:229-230 | parsing undoes the watcher's joining for every slash-free name and every prefix |
| FileNames.JoinUndoesParse | components/data/blob_storage/blob_prefix_allowlist.cc:31-46 | joining undoes parsing exactly when the name does not have its only slash in front |
| FileNames.LeadingSlashExample | components/data/blob_storage/blob_prefix_allowlist.cc:31-46 | every delta name with a slash in front is taken for the one without it |
| DeltaFileNotifier.WaitForNotification | components/data/blob_storage/delta_file_notifier.cc:103-119 | the largest delta change of the batch, the empty name without one, or the error |
| DeltaFileBooks.LargestUnique | components/data/blob_storage/delta_file_notifier.cc:111-118 | a batch has one largest delta change |
| DeltaFileNotifier.Watcher.ShouldListBlobs | components/data/blob_storage/delta_file_notifier.cc:123-153 | lists at once when the flag has expired, and otherwise waits never past the expiry and follows the largest change |
| DeltaFileNotifier.Watcher.ListPrefixDeltaFiles | components/data/blob_storage/delta_file_notifier.cc:155-185 | exactly the allowed prefixes whose listing succeeded with names, each after its watermark |
| DeltaFileNotifier.Watcher.ReportPrefix | components/data/blob_storage/delta_file_notifier.cc:225-232 | passes on the delta names of a listing in order and moves only that prefix's watermark |
| DeltaFileNotifier.Watcher.ReportAll | components/data/blob_storage/delta_file_notifier.cc:221-233 | in any order of prefixes, each gets its listing's delta names appended and its watermark set to the last of them |
| DeltaFileNotifier.Watcher.BackOff | components/data/blob_storage/delta_file_notifier.cc:199-212 | a failed wait sleeps for the backoff, but not past the expiry |
| DeltaFileNotifier.Watcher.Decide | components/data/blob_storage/delta_file_notifier.cc:196-216 | a turn lists exactly when the flag has expired, the wait ran out, or the largest delta change is new in an allowed prefix; the clock and the count of failures move as the wait and the backoff say |
| DeltaFileNotifier.Watcher.Pass | components/data/blob_storage/delta_file_notifier.cc:217-233 | sets the flag when the listing begins, lists every allowed prefix after its watermark, and takes the time the pass takes |
| DeltaFileNotifier.Watcher.Act | components/data/blob_storage/delta_file_notifier.cc:196-237 | a turn lists exactly when due; then every allowed prefix gets the delta names its listing has after its watermark, otherwise nothing changes; the clock, the flag and the failure count after it are exactly what the turn makes of them |
| DeltaFileNotifier.Watcher.Watch | components/data/blob_storage/delta_file_notifier.cc:187-238 | over any run and any continuation of one: the history of clocks and reports begins at creation, each turn follows from the one before, and it ends in the present; the run keeps its schedule; reports per prefix increase, lie beyond the start and are delta names of allowed prefixes; watermarks never move back; in an append-only bucket every listed prefix is reported completely; names that were passed over stay lost |
| DeltaFileRuns.TurnsThatList | components/data/blob_storage/delta_file_notifier.cc:123-153 | in every run a turn lists when the flag has expired or the wait ran out, not on other failures, and on a batch exactly when its largest change about a delta file is in an allowed prefix and not earlier, by logical time, than what was last reported there |
| DeltaFileRuns.NotifiedFileIsReported | components/data/blob_storage/delta_file_notifier.cc:131-233 | in every run a change about a new file, if largest of its batch, has the file reported in that very turn when the prefix can be listed |
| DeltaFileRuns.ListingsOnTime | components/data/blob_storage/delta_file_notifier.cc:196-237 | in every run a listing begins at most a poll interval after the one before it began, or when that one was over if it took longer |
| DeltaFileRuns.NeverLate | components/data/blob_storage/delta_file_notifier.cc:196-237 | until the next listing the flag stays as the last one set it, and the time does not go beyond the later of its expiry and the end of that pass |
| DeltaFileRuns.PollsKeepComing | components/data/blob_storage/delta_file_notifier.cc:187-238 | a run begins with a listing, and at every later turn the last listing began at most a poll interval ago or its pass was just over |
| DeltaFileRuns.RunsKeepSchedule | components/data/blob_storage/delta_file_notifier.cc:187-238 | every run of a new watcher keeps this schedule throughout |
| DeltaFileRuns.ClockMovesForward | components/data/blob_storage/delta_file_notifier.cc:187-238 | the time before a later turn is not earlier |
| DeltaFileBooks.ReportingIsSound | components/data/blob_storage/delta_file_notifier.cc:224-233 | reporting a listing taken after the watermark keeps the reports increasing and the watermark at their end |
| DeltaFileBooks.CompleteUnlessOvertaken | components/data/blob_storage/delta_file_notifier.cc:162-183 | a listing makes the reports complete exactly when nothing reported was deleted and no unreported delta name beyond the start is at or below the watermark |
| DeltaFileBooks.ReportingIsComplete | components/data/blob_storage/delta_file_notifier.cc:162-183 | in a bucket that only grew at the end, the next successful listing makes the reports exactly the delta names beyond the start |
| DeltaFileRuns.PassKeepsLost | components/data/blob_storage/delta_file_notifier.cc:155-233 | an unreported name that the watermark has reached or passed is not reported by any pass, and stays so |
| DeltaFileRuns.LostForever | components/data/blob_storage/delta_file_notifier.cc:187-238 | in every run a name that was passed over unreported stays unreported |
| DeltaFileRuns.LateNameIsLost | components/data/blob_storage/delta_file_notifier.cc:187-238 | for every two delta names, when the lower one appears after the higher one was reported, two successful polls end with it unreported and lost |
| DeltaFileNotifier.WatchLateScript | components/data/blob_storage/delta_file_notifier.cc:187-238 | a watcher run that ends with a delta file in the bucket that will never be reported |
| DeltaFileBooks.ReportsInTimeOrder | components/data/blob_storage/delta_file_notifier.cc:224-233 | each prefix's reports come in increasing logical time and the watermark carries the largest |
| DeltaFileBooks.LaterFilesAppend | components/data/blob_storage/delta_file_notifier.cc:162-183 | new names sort after the old ones exactly when new files have later logical times |
| DeltaFileBooks.AppendOnlyIsTimeOrder | components/data/blob_storage/delta_file_notifier.cc:162-183 | a bucket is append-only over a run exactly when its files come in the order of their logical times |
| DeltaFileBooks.PassIsComplete | components/data/blob_storage/delta_file_notifier.cc:155-238 | in an append-only bucket a pass brings each prefix it lists up to date; a prefix whose listing failed is only delayed |
| DeltaFileBooks.PassIsSound | components/data/blob_storage/delta_file_notifier.cc:224-233 | a pass keeps the promises for every prefix and moves watermarks only forward |
| RateLimiter.Limiter.Acquire | tools/request_simulation/rate_limiter.cc:23-37 | grants what was asked for or nothing, and then in less than the timeout; times out exactly when some sleep begun for want of permits ends at or past the deadline; asks for the right sleeps, and one a microsecond longer than asked settles the call |
| RateLimiter.AcquireSettles | tools/request_simulation/rate_limiter.cc:23-37 | every Acquire grants at once when there are enough permits, otherwise only in less than the timeout; it times out exactly when some sleep begun for want of permits ends at or past the deadline; one sleep a microsecond longer than asked settles it |
| RateLimiter.LateExactly | tools/request_simulation/rate_limiter.cc:26-34 | waiting ends too late exactly when some sleep, before which and before all earlier ones there were too few permits, ends at or past the deadline |
| RateLimiter.GrantedTakes | tools/request_simulation/rate_limiter.cc:27-36 | a granted call takes its permits after the first sleeps that bring them, reports the time those took, and changes nothing else |
| RateLimiter.Limiter.AwaitPermits | tools/request_simulation/rate_limiter.cc:27-34 | the waiting loop ends as soon as there are enough permits or it is too late, and asks for the same sleep each time |
| RateLimiter.Limiter.SleepAndRefill | tools/request_simulation/rate_limiter.cc:28-30 | one turn of the waiting loop asks for the right sleep and adds what the time since the last refill is worth; a microsecond more than asked gains the permits |
| RateLimiter.Limiter.RefillPermits | tools/request_simulation/rate_limiter.cc:39-49 | adds the floor of rate times elapsed time and restarts the stopwatch |
| RateLimiter.Limiter.SetFillRate | tools/request_simulation/rate_limiter.cc:51-54 | changes the rate and nothing else; there is no refill |
| RateLimiter.Drive | tools/request_simulation/rate_limiter.cc:23-54 | the outcomes and times of any sequence of calls are those the calls have one after the other, and the bounds below hold of what is left and what was granted |
| RateLimiter.RefillCovered | tools/request_simulation/rate_limiter.cc:39-49 | a refill keeps all permits filled in so far covered by the top rate, though floors are dropped each time |
| RateLimiter.HigherRateCovered | tools/request_simulation/rate_limiter.cc:51-54 | raising the rate keeps the permits filled in so far covered |
| RateLimiter.RaisedRateReachesBack | tools/request_simulation/rate_limiter.cc:39-54 | the refill after a change of rate stays within what each rate earned in its own time, whenever it comes, exactly when the rate is not raised or a refill has just happened |
| RateLimiter.RaiseExample | tools/request_simulation/rate_limiter.cc:39-54 | from one to a thousand permits a second after a second: 1001 permits where two were earned |
| RateLimiter.RaiseRun | tools/request_simulation/rate_limiter.cc:23-54 | a run of three calls that is granted 1001 permits where two were earned and none was there at first |
| RateLimiter.RunsStayWithinBounds | tools/request_simulation/rate_limiter.cc:23-54 | over any sequence of calls, what is left and the sum of what was granted is at least the initial permits, and at most those and the top rate times the time taken; when no call raises the rate, at most those and each rate times the time it was in force |
| RateLimiter.CallBalanced | tools/request_simulation/rate_limiter.cc:23-54 | every call keeps what was filled in covered by the top rate |
| RateLimiter.CallPaid | tools/request_simulation/rate_limiter.cc:23-54 | every call that does not raise the rate, or raises it right after a refill, keeps what was filled in within what was earned |
| RateLimiter.OneMoreMicrosecondIsEnough | tools/request_simulation/rate_limiter.cc:27-30 | a sleep at least a microsecond longer than asked gains the permits in one refill |
| RateLimiter.ExactSleepIsEnoughWhenRateDivides | tools/request_simulation/rate_limiter.cc:28-30 | a sleep of exactly the asked length does so exactly when the rate divides the permits times one million |
| RateLimiter.ExactSleepExample | tools/request_simulation/rate_limiter.cc:28-30 | at three permits a second, the sleep asked for one permit gains none |
| QueryDot.ToDotGraphBody | components/tools/query_dot.cc:106-133 | threading the counter through both subtrees numbers the tree from its current value on |
| QueryDot.PrintsNodesInPreOrder | components/tools/query_dot.cc:106-133 | the i-th node line declares the i-th node in preorder with number i |
| QueryDot.NamesTellTheNode | components/tools/query_dot.cc:31-51 | a printed name is the kind of the node followed by its number modulo 2^32 |
| QueryDot.LeftBeforeRight | components/tools/query_dot.cc:114-131 | an operator node's left child has the next number, and its right child the first one after the left subtree |
| QueryDot.NamesAreDistinct | components/tools/query_dot.cc:100-104 | in a tree of at most 2^32 nodes no two printed node names are equal as text |
| QueryDot.NamesClashExactly | components/tools/query_dot.cc:100-104 | in any tree, two printed names are equal exactly when the nodes are of one kind and their positions agree modulo 2^32 |
| QueryDot.LongSpineClashes | components/tools/query_dot.cc:100-104 | past 2^32 unions in a row, the root and a node below it print the same name |
| QueryDot.WriteAst | components/tools/query_dot.cc:137-148 | the tree is numbered from zero |
| QueryDot.PrintsOnlyLinks | components/tools/query_dot.cc:114-131 | every printed edge joins a node to one of its children |
| QueryDot.PrintsEveryLink | components/tools/query_dot.cc:114-131 | every parent-child pair is printed |
| QueryDot.EdgeCount | components/tools/query_dot.cc:106-133 | there is one edge fewer than nodes |
| QueryDot.LinksAreChildren | components/tools/query_dot.cc:114-131 | a numbered pair leads from a node to its left or right child |
| QueryDot.OneParentEach | components/tools/query_dot.cc:114-131 | every node but the root has exactly one parent |

## Left out

- QueryDot.NamesAreDistinct: limited to trees of at most 2^32 nodes, because the counter is a 32-bit integer; QueryDot.NamesClashExactly covers larger ones.
- StringPadder.Pad: needs a total size that is not negative and fits a 32-bit integer, the range of the source's size variable.
- RateLimiter.Limiter.Acquire: needs a positive rate and a request whose microseconds fit a 32-bit integer, because the source divides by the rate and multiplies in `int`; the fill uses exact arithmetic in place of floating point.
- ShardedLookup.ShardKeys: needs serialised requests whose padded size fits a 32-bit integer, the range in which the source computes sizes.
- Queueing in the mutexes: any compatible request may be granted, so starvation and readers held back behind a waiting writer are not modelled, and the deadlock results are for this policy.
- HashMapWindDown.PendingCallsCanReturn: says that some continuation returns; while other threads keep starting new operations a call may be overtaken forever.
- Use of a handle after its release, of an iterator's element after it was moved out, and of an iterator past the end: undefined in the source, no step here.
- Aliasing of string views into the cache or the query text: strings are values.
- Operator nodes with a missing child, empty queries and queries that do not parse: evaluation starts from a tree.
- The order in which repeated fields list a set: set answers are sets.
- Log contexts in requests, telemetry, logging and metrics: no effect on answers.
- Key fetching, encryption, decryption and cancellation failures: all part of the failing channel.
- File groups, snapshot and logical-sharding names: the same formatting with other prefixes.
- Parsing of the allowlist text: the allowlist is a set of prefixes.
- Labels of the printed graph and its title line: a label is any function of the node.
- Concurrency inside the shard manager and the rate limiter: each call does its shared work under one mutex.
- Wrap-around of the watcher's 32-bit failure counter: it is a natural number.
- Waits that overrun their limit in the watcher, and changes to a bucket during a pass.
- Whether every notification leads to a listing: only the largest delta change of a batch counts, in the source too.
- UDF execution, data loading, cloud clients, the query lexer and parser, and the cache's own implementation.
