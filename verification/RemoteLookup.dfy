/**
 A lookup on another shard: the padded request of remote_lookup_client_impl.cc
 and the handler of lookup_server_impl.cc.

 Encryption and gRPC are a channel that may fail but never alters a message;
 protobuf serialisation is a pair of functions that undo each other.
 */
module RemoteLookup {
  import opened Decimals
  import opened Status
  import opened QueryAst
  import opened StringPadder
  import opened LocalLookup

  datatype Request = Request(keys: seq<string>, lookupSets: bool)

  datatype Codec = Codec(
    encodeRequest: Request -> Bytes,
    decodeRequest: Bytes -> Option<Request>,
    encodeResponse: Response -> Bytes,
    decodeResponse: Bytes -> Option<Response>)

  /** Parsing undoes serialising, and the empty message parses to the empty response. */
  ghost predicate Lossless(codec: Codec) {
    && (forall r :: codec.decodeRequest(codec.encodeRequest(r)) == Some(r))
    && (forall r :: codec.decodeResponse(codec.encodeResponse(r)) == Some(r))
    && codec.decodeResponse([]) == Some(map[])
  }

  function KeySet(keys: seq<string>): set<string> {
    set i | 0 <= i < |keys| :: keys[i]
  }

  /** What a shard answers to a request.  Set requests are always answered with
      sets of strings, whatever kind of set the caller is after. */
  function HandlerAnswer(cache: Cache, req: Request): Response {
    if req.lookupSets then SetAnswers(cache, StringSets, KeySet(req.keys))
    else ValueAnswers(cache, KeySet(req.keys))
  }

  /** A shard's answer, in terms of its cache's own maps. */
  lemma HandlerAnswerByField(cache: Cache, req: Request, k: string)
    ensures k in HandlerAnswer(cache, req) <==> k in req.keys
    ensures k in req.keys && req.lookupSets ==>
      AnswersFrom(cache.stringSets, StringSets, k, HandlerAnswer(cache, req)[k])
    ensures k in req.keys && !req.lookupSets ==>
      HandlerAnswer(cache, req)[k] ==
      if k in cache.values then Value(cache.values[k]) else Failed(Error(NotFound, "Key not found: " + k))
  {
    if k in req.keys {
      var i :| 0 <= i < |req.keys| && req.keys[i] == k;
    }
  }

  /** GetPayload with ProcessKeys or ProcessKeysetKeys. */
  method GetPayload(cache: Cache, codec: Codec, req: Request) returns (payload: Bytes)
    ensures payload == codec.encodeResponse(HandlerAnswer(cache, req))
  {
    var response: Response := map[];
    if req.keys != [] {
      var keySet := {};
      for i := 0 to |req.keys|
        invariant keySet == KeySet(req.keys[..i])
      {
        assert req.keys[..i + 1] == req.keys[..i] + [req.keys[i]];
        assert KeySet(req.keys[..i + 1]) == KeySet(req.keys[..i]) + {req.keys[i]} by {
          assert forall j :: 0 <= j < i ==> req.keys[..i + 1][j] == req.keys[..i][j];
          assert req.keys[..i + 1][i] == req.keys[i];
        }
        keySet := keySet + {req.keys[i]};
      }
      assert req.keys[..|req.keys|] == req.keys;
      if req.lookupSets {
        response := GetKeySets(cache, StringSets, keySet);
      } else {
        response := GetKeyValues(cache, keySet);
      }
    } else {
      assert KeySet(req.keys) == {};
    }
    payload := codec.encodeResponse(response);
  }

  const BAD_REQUEST := Error(Internal, "Failed parsing incoming request")
  const BAD_RESPONSE := Error(InvalidArgument, "Failed parsing the response.")

  /** The code and text of an error become the text of an internal one. */
  function ToInternalGrpcStatus(e: Error): Error {
    Error(Internal, Decimal(CodeNumber(e.code)) + " : " + e.message)
  }

  /** SecureLookup after decryption: unpad, parse, answer. */
  method SecureLookup(cache: Cache, codec: Codec, padded: Bytes) returns (r: Result<Bytes>)
    ensures Unpadded(padded).Err? ==> r == Err(ToInternalGrpcStatus(Unpadded(padded).error))
    ensures Unpadded(padded).Ok? ==>
      match codec.decodeRequest(Unpadded(padded).value)
      case None => r == Err(BAD_REQUEST)
      case Some(req) => r == Ok(codec.encodeResponse(HandlerAnswer(cache, req)))
  {
    var serialized := Unpad(padded);
    if serialized.Err? {
      return Err(ToInternalGrpcStatus(serialized.error));
    }
    var parsed := codec.decodeRequest(serialized.value);
    if parsed.None? {
      return Err(BAD_REQUEST);
    }
    var payload := GetPayload(cache, codec, parsed.value);
    r := Ok(payload);
  }

  /** GetValues of the remote client.  `fault` is the channel's failure, if any.
      Padding and serialising are invisible: the caller gets the handler's answer to the
      request that the message stands for.  A negative padding never gets through. */
  method GetValues(cache: Cache, codec: Codec, fault: Option<Error>, serialized: Bytes, padding: int)
    returns (r: Result<Response>)
    requires Lossless(codec) && PadSizeOk(serialized, padding)
    ensures fault.Some? ==> r == Err(fault.value)
    ensures fault.None? && padding < 0 ==>
      var lost := Unpadded(Padded(serialized, padding)); lost.Err? && r == Err(ToInternalGrpcStatus(lost.error))
    ensures fault.None? && padding >= 0 ==>
      match codec.decodeRequest(serialized)
      case None => r == Err(BAD_REQUEST)
      case Some(req) => r == Ok(HandlerAnswer(cache, req))
  {
    if fault.Some? {
      return Err(fault.value);
    }
    var padded := Pad(serialized, padding);
    UnpadUndoesPad(serialized, padding);
    var reply := SecureLookup(cache, codec, padded);
    if reply.Err? {
      return Err(reply.error);
    }
    var payload := reply.value;
    if payload == [] {
      ghost var answer := HandlerAnswer(cache, codec.decodeRequest(serialized).value);
      assert codec.decodeResponse(codec.encodeResponse(answer)) == Some(answer);
      return Ok(map[]);
    }
    var response := codec.decodeResponse(payload);
    if response.None? {
      return Err(BAD_RESPONSE);
    }
    r := Ok(response.value);
  }
}
