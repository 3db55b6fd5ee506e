/**
 Lookups against one server's own cache (components/internal_server/local_lookup.cc).
 The cache is read only here, so it is a value: a map of strings and one map of
 sets for each of the three kinds of set.
 */
module LocalLookup {
  import opened Status
  import opened QueryAst
  import opened QueryEval

  datatype Cache = Cache(
    values: map<string, string>,
    stringSets: map<string, Elements>,
    bitsets32: map<string, Elements>,
    bitsets64: map<string, Elements>)

  /** The answer for one key: the `oneof` of SingleLookupResult. */
  datatype SingleLookupResult =
    | Value(value: string)
    | SetValues(kind: Kind, values: Elements)
    | Failed(status: Error)

  type Response = map<string, SingleLookupResult>

  function SetsOf(cache: Cache, kind: Kind): map<string, Elements> {
    match kind
    case StringSets => cache.stringSets
    case Bitsets32 => cache.bitsets32
    case Bitsets64 => cache.bitsets64
  }

  /** The stored set, empty when there is none. */
  function Stored(cache: Cache, kind: Kind, key: string): Elements {
    if key in SetsOf(cache, kind) then SetsOf(cache, kind)[key] else {}
  }

  /** What is stored, in terms of the cache's own maps. */
  lemma StoredByField(cache: Cache, key: string)
    ensures forall e :: e in Stored(cache, StringSets, key) <==> key in cache.stringSets && e in cache.stringSets[key]
    ensures forall e :: e in Stored(cache, Bitsets32, key) <==> key in cache.bitsets32 && e in cache.bitsets32[key]
    ensures forall e :: e in Stored(cache, Bitsets64, key) <==> key in cache.bitsets64 && e in cache.bitsets64[key]
  {
  }

  function KeyNotFound(key: string): SingleLookupResult {
    Failed(Error(NotFound, "Key not found: " + key))
  }

  /* ---------- answers for one key ---------- */

  function ValueAnswer(cache: Cache, key: string): SingleLookupResult {
    if key in cache.values then Value(cache.values[key]) else KeyNotFound(key)
  }

  function SetAnswer(cache: Cache, kind: Kind, key: string): SingleLookupResult {
    if Stored(cache, kind, key) != {} then SetValues(kind, Stored(cache, kind, key)) else KeyNotFound(key)
  }

  /** The answer for a key from a map of sets: its non-empty set, or NotFound. */
  predicate AnswersFrom(sets: map<string, Elements>, kind: Kind, key: string, r: SingleLookupResult) {
    && (key in sets && sets[key] != {} ==> r == SetValues(kind, sets[key]))
    && (key !in sets || sets[key] == {} ==> r == Failed(Error(NotFound, "Key not found: " + key)))
  }

  function ValueAnswers(cache: Cache, keys: set<string>): Response {
    map k | k in keys :: ValueAnswer(cache, k)
  }

  function SetAnswers(cache: Cache, kind: Kind, keys: set<string>): Response {
    map k | k in keys :: SetAnswer(cache, kind, k)
  }

  /* ---------- the loops ---------- */

  method GetKeyValues(cache: Cache, keys: set<string>) returns (response: Response)
    ensures response == ValueAnswers(cache, keys)
    ensures response.Keys == keys
    ensures forall k :: k in keys && k in cache.values ==> response[k] == Value(cache.values[k])
    ensures forall k :: k in keys && k !in cache.values ==>
      response[k] == Failed(Error(NotFound, "Key not found: " + k))
  {
    response := map[];
    var todo := keys;
    while todo != {}
      invariant todo <= keys && response == ValueAnswers(cache, keys - todo)
      decreases todo
    {
      var key :| key in todo;
      var result := KeyNotFound(key);
      if key in cache.values {
        result := Value(cache.values[key]);
      }
      response := response[key := result];
      todo := todo - {key};
    }
  }

  /** GetKeyValueSet, GetUInt32ValueSet and GetUInt64ValueSet. */
  method GetKeySets(cache: Cache, kind: Kind, keys: set<string>) returns (response: Response)
    ensures response == SetAnswers(cache, kind, keys)
    ensures response.Keys == keys
    ensures kind == StringSets ==> forall k :: k in keys ==> AnswersFrom(cache.stringSets, kind, k, response[k])
    ensures kind == Bitsets32 ==> forall k :: k in keys ==> AnswersFrom(cache.bitsets32, kind, k, response[k])
    ensures kind == Bitsets64 ==> forall k :: k in keys ==> AnswersFrom(cache.bitsets64, kind, k, response[k])
  {
    response := map[];
    var todo := keys;
    while todo != {}
      invariant todo <= keys && response == SetAnswers(cache, kind, keys - todo)
      decreases todo
    {
      var key :| key in todo;
      var valueSet := Stored(cache, kind, key);
      var result := KeyNotFound(key);
      if valueSet != {} {
        result := SetValues(kind, valueSet);
      }
      response := response[key := result];
      todo := todo - {key};
    }
  }

  /* ---------- queries ---------- */

  /** What a query means on a store: every value leaf stands for its stored set. */
  function QueryMeaning(cache: Cache, kind: Kind, root: Node): Result<Elements> {
    Meaning(kind, root, k => Stored(cache, kind, k))
  }

  /** The query that is a single key, in terms of the cache's own maps. */
  lemma KeyQueryByField(cache: Cache, key: string, e: Element)
    ensures var m := QueryMeaning(cache, StringSets, ValueNode(key));
      m.Ok? && (e in m.value <==> key in cache.stringSets && e in cache.stringSets[key])
    ensures var m := QueryMeaning(cache, Bitsets32, ValueNode(key));
      m.Ok? && (e in m.value <==> key in cache.bitsets32 && e in cache.bitsets32[key])
    ensures var m := QueryMeaning(cache, Bitsets64, ValueNode(key));
      m.Ok? && (e in m.value <==> key in cache.bitsets64 && e in cache.bitsets64[key])
  {
    StoredByField(cache, key);
  }

  /** The sets the cache hands out for a batch of keys: nothing for other keys. */
  function Fetched(cache: Cache, kind: Kind, keys: set<string>): map<string, Elements> {
    map k | k in keys && k in SetsOf(cache, kind) :: SetsOf(cache, kind)[k]
  }

  function InFetched(fetched: map<string, Elements>, key: string): Elements {
    if key in fetched then fetched[key] else {}
  }

  /** RunQuery, RunSetQueryUInt32 and RunSetQueryUInt64 on a parsed query: fetching
      only the query's keys gives the meaning of the query on the whole store. */
  method RunQuery(cache: Cache, kind: Kind, root: Node) returns (r: Result<Elements>)
    ensures r == QueryMeaning(cache, kind, root)
  {
    var keys, _ := Keys(root);
    var fetched := Fetched(cache, kind, keys);
    MeaningNeedsOnlyLeafKeys(kind, root, k => InFetched(fetched, k), k => Stored(cache, kind, k));
    r := Eval(kind, root, k => InFetched(fetched, k));
  }
}
