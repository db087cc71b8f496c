/** AxiomHiveService.swift: building and signing the `/execute` and `/status` requests,
    classifying the HTTP reply, decoding the response and checking its proof.

    Everything the service delegates is a parameter: the JSON serializer, the
    ISO-8601 date formatter, the response decoder and `URL(string:)` travel in an
    `Environment`, and the network is a function from the request sent to the
    transport outcome. */
module Service {
  import opened Wrappers
  import opened Encodings
  import opened AnyCodable
  import opened CryptoUtilities
  import opened Responses
  import opened Transactions

  /** `Constants.API.baseURL`. */
  const DefaultBaseURL: string := "https://api.axiomhive.com/v1"

  /** A `URLRequest`: method, URL string, header fields and body. */
  datatype HttpRequest = HttpRequest(
    httpMethod: string,
    url: string,
    headers: map<string, string>,
    body: Option<seq<uint8>>)

  /** The `URLResponse` handed back with the data: an `HTTPURLResponse` or another kind. */
  datatype Reply = NotHttp | Http(statusCode: int, data: seq<uint8>)

  /** `NetworkService.execute`, which wraps every transport error as `networkError`. */
  datatype TransportOutcome = Delivered(reply: Reply) | TransportFailed(cause: Cause)

  /** The collaborators the service relies on without this model seeing inside them.
      `encodingFailure` is the `EncodingError.invalidValue` the `AnyCodable` encoder
      throws for an unsupported value, known by the `localizedDescription` Foundation
      gives it. */
  datatype Environment = Environment(
    primitives: Primitives,
    serialize: Json -> seq<uint8>,
    encodingFailure: Cause,
    iso8601: Time -> string,
    decodeResponse: seq<uint8> -> Result<AxiomResponse, Cause>,
    isValidUrl: string -> bool)

  // ------------------------------------------------------------ the status switch

  /** The status classes of section 15 of RFC 9110. */
  datatype StatusClass = Informational | Successful | Redirection | ClientError | ServerFailure | Unclassified

  function ClassOf(code: int): StatusClass
  {
    if 100 <= code <= 199 then Informational
    else if 200 <= code <= 299 then Successful
    else if 300 <= code <= 399 then Redirection
    else if 400 <= code <= 499 then ClientError
    else if 500 <= code <= 599 then ServerFailure
    else Unclassified
  }

  /** The `switch` on the status code in `executeTransaction`: `None` lets decoding
      proceed; otherwise the error thrown. */
  function StatusError(code: int): Option<AxiomError>
  {
    if 200 <= code <= 299 then None
    else if code == 401 then Some(AuthenticationFailed)
    else if code == 429 then Some(RateLimitExceeded)
    else if 400 <= code <= 499 then Some(InvalidRequest("Client error: " + IntToString(code)))
    else if 500 <= code <= 599 then Some(ServerError(code, "Server error"))
    else Some(InvalidResponse)
  }

  /** The switch against the status classes: only the successful class proceeds; 401
      and 429 are taken before the client-error range; every other client error is
      an invalid request, every server error a server error carrying its code, and
      informational, redirection and unclassified codes are an invalid response. */
  lemma StatusMapping(code: int)
    ensures StatusError(code).None? <==> ClassOf(code) == Successful
    ensures code == 401 ==> StatusError(code) == Some(AuthenticationFailed)
    ensures code == 429 ==> StatusError(code) == Some(RateLimitExceeded)
    ensures (exists m :: StatusError(code) == Some(InvalidRequest(m)))
        <==> ClassOf(code) == ClientError && code != 401 && code != 429
    ensures StatusError(code) == Some(ServerError(code, "Server error")) <==> ClassOf(code) == ServerFailure
    ensures StatusError(code) == Some(InvalidResponse)
        <==> ClassOf(code) in {Informational, Redirection, Unclassified}
  {
    if ClassOf(code) == ClientError && code != 401 && code != 429 {
      assert StatusError(code) == Some(InvalidRequest("Client error: " + IntToString(code)));
    }
  }

  /** The client-error message names the code. */
  lemma ClientErrorMessage()
    ensures StatusError(404) == Some(InvalidRequest("Client error: 404"))
  {
    assert IntToString(404) == IntToString(40) + "4";
    assert IntToString(40) == "40";
    assert IntToString(404) == "404";
    assert StatusError(404) == Some(InvalidRequest("Client error: " + IntToString(404)));
    assert "Client error: " + "404" == "Client error: 404";
  }

  // ------------------------------------------------------------ verifyProof

  /** `verifyProof`: the guard chain over the proof of a decoded response. */
  function VerifyProof(response: AxiomResponse, request: TransactionRequest, now: Time): (r: Result<(), AxiomError>)
    ensures r.Success? <==>
              && IsValid(response.proof, now)
              && response.proof.algorithm == PinnedAlgorithm
              && response.proof.signature != "" && response.proof.hash != ""
              && response.proof.nonce == request.nonce
    ensures r.Failure? ==> r.error == InvalidProof
  {
    if !IsValid(response.proof, now) then Failure(InvalidProof)
    else if response.proof.algorithm != PinnedAlgorithm then Failure(InvalidProof)
    else if response.proof.signature == "" || response.proof.hash == "" then Failure(InvalidProof)
    else if response.proof.nonce != request.nonce then Failure(InvalidProof)
    else Success(())
  }

  /** The algorithm and emptiness guards repeat what `isValid` already checks, so the
      proof is accepted exactly when it is valid and carries the request's nonce. */
  lemma VerifyProofIsValidityPlusNonce(response: AxiomResponse, request: TransactionRequest, now: Time)
    ensures VerifyProof(response, request, now).Success?
        <==> IsValid(response.proof, now) && response.proof.nonce == request.nonce
  {
  }

  /** A proof that passes `isValid` but answers another request is rejected. */
  lemma ForeignNonceRejected(response: AxiomResponse, request: TransactionRequest, now: Time)
    requires IsValid(response.proof, now) && response.proof.nonce != request.nonce
    ensures VerifyProof(response, request, now) == Failure(InvalidProof)
  {
  }

  // ------------------------------------------------------------ signRequest

  /** `signRequest`: base64 of the HMAC-SHA256, keyed with the API key's UTF-8 bytes,
      of the encoded request. An unencodable parameter makes the encoder throw. */
  function SignRequest(apiKey: string, env: Environment, request: TransactionRequest): (r: Result<string, Thrown>)
    ensures r.Success? <==> EncodeRequest(request, env.iso8601).Success?
    ensures r.Failure? ==> r.error == Encoding(env.encodingFailure)
    ensures r.Success? ==>
              && |r.value| == 44
              && Base64Decode(r.value)
                 == Some(env.primitives.hmacSha256(Utf8(apiKey), env.serialize(EncodeRequest(request, env.iso8601).value)))
  {
    match EncodeRequest(request, env.iso8601)
    case Failure(_) => Failure(Encoding(env.encodingFailure))
    case Success(json) => Success(HmacSignature(env.primitives, env.serialize(json), apiKey))
  }

  /** The signature header depends on nothing but the key and the encoded bytes, and it
      passes `verifyHMACSignature` against those bytes. */
  lemma SignatureDependsOnEncodedBytes(apiKey: string, env: Environment, r1: TransactionRequest, r2: TransactionRequest)
    requires EncodeRequest(r1, env.iso8601).Success? && EncodeRequest(r2, env.iso8601).Success?
    requires env.serialize(EncodeRequest(r1, env.iso8601).value) == env.serialize(EncodeRequest(r2, env.iso8601).value)
    ensures SignRequest(apiKey, env, r1) == SignRequest(apiKey, env, r2)
    ensures VerifyHmacSignature(env.primitives, SignRequest(apiKey, env, r1).value,
                                env.serialize(EncodeRequest(r1, env.iso8601).value), apiKey)
  {
    SignThenVerify(env.primitives, env.serialize(EncodeRequest(r1, env.iso8601).value), apiKey);
  }

  /** Two keys whose codes for the same bytes differ give different signature headers. */
  lemma SignatureSeparatesKeys(k1: string, k2: string, env: Environment, request: TransactionRequest)
    requires EncodeRequest(request, env.iso8601).Success?
    requires var bytes := env.serialize(EncodeRequest(request, env.iso8601).value);
             env.primitives.hmacSha256(Utf8(k1), bytes) != env.primitives.hmacSha256(Utf8(k2), bytes)
    ensures SignRequest(k1, env, request) != SignRequest(k2, env, request)
  {
    var bytes := env.serialize(EncodeRequest(request, env.iso8601).value);
    Base64Injective(env.primitives.hmacSha256(Utf8(k1), bytes), env.primitives.hmacSha256(Utf8(k2), bytes));
  }

  // ------------------------------------------------------------ the replies

  /** `executeTransaction` from the network call on: a transport failure is a network
      error, a non-HTTP reply an invalid response, a status outside 200-299 the error of
      the switch; then the body is decoded and the proof verified. Only a failure of the
      decoder becomes `decodingError`; `invalidProof` passes through the `catch`. */
  function ExecuteReply(outcome: TransportOutcome, decode: seq<uint8> -> Result<AxiomResponse, Cause>,
                        request: TransactionRequest, now: Time): (r: Result<AxiomResponse, Thrown>)
    ensures r.Success? ==> IsValid(r.value.proof, now) && r.value.proof.nonce == request.nonce
    ensures r.Failure? ==> r.error.Axiom?
  {
    match outcome
    case TransportFailed(c) => Failure(Axiom(NetworkError(c)))
    case Delivered(reply) =>
      match reply
      case NotHttp => Failure(Axiom(InvalidResponse))
      case Http(code, data) =>
        match StatusError(code)
        case Some(e) => Failure(Axiom(e))
        case None =>
          match decode(data)
          case Failure(c) => Failure(Axiom(DecodingError(c)))
          case Success(response) =>
            match VerifyProof(response, request, now)
            case Failure(e) => Failure(Axiom(e))
            case Success(_) => Success(response)
  }

  /** A successful result is exactly a 2xx reply whose body decodes to it and whose
      proof the guard chain accepts. */
  lemma ExecuteSuccessIsVerifiedDecoding(outcome: TransportOutcome, decode: seq<uint8> -> Result<AxiomResponse, Cause>,
                                         request: TransactionRequest, now: Time, response: AxiomResponse)
    ensures ExecuteReply(outcome, decode, request, now) == Success(response)
        <==> && outcome.Delivered? && outcome.reply.Http?
             && 200 <= outcome.reply.statusCode <= 299
             && decode(outcome.reply.data) == Success(response)
             && VerifyProof(response, request, now).Success?
  {
    StatusMapping(if outcome.Delivered? && outcome.reply.Http? then outcome.reply.statusCode else 0);
  }

  /** `decodingError` arises from the decoder and from nothing else. */
  lemma DecodingErrorOnlyFromDecoder(outcome: TransportOutcome, decode: seq<uint8> -> Result<AxiomResponse, Cause>,
                                     request: TransactionRequest, now: Time, c: Cause)
    ensures ExecuteReply(outcome, decode, request, now) == Failure(Axiom(DecodingError(c)))
        <==> && outcome.Delivered? && outcome.reply.Http?
             && 200 <= outcome.reply.statusCode <= 299
             && decode(outcome.reply.data) == Failure(c)
  {
    StatusMapping(if outcome.Delivered? && outcome.reply.Http? then outcome.reply.statusCode else 0);
  }

  /** A decoded response whose proof fails is reported as `invalidProof`, unwrapped. */
  lemma InvalidProofPropagates(code: int, data: seq<uint8>, decode: seq<uint8> -> Result<AxiomResponse, Cause>,
                               request: TransactionRequest, now: Time)
    requires 200 <= code <= 299 && decode(data).Success?
    requires !VerifyProof(decode(data).value, request, now).Success?
    ensures ExecuteReply(Delivered(Http(code, data)), decode, request, now) == Failure(Axiom(InvalidProof))
  {
  }

  /** Non-2xx replies fail with the switch's error before the body is looked at. */
  lemma StatusErrorBeforeDecoding(code: int, data: seq<uint8>, decode: seq<uint8> -> Result<AxiomResponse, Cause>,
                                  request: TransactionRequest, now: Time)
    requires !(200 <= code <= 299)
    ensures StatusError(code).Some?
    ensures ExecuteReply(Delivered(Http(code, data)), decode, request, now) == Failure(Axiom(StatusError(code).value))
  {
  }

  /** `queryStatus` from the network call on: only status 200 is accepted, a decoder
      failure escapes as Foundation's own `DecodingError`, and the proof is not checked. */
  function QueryReply(outcome: TransportOutcome, decode: seq<uint8> -> Result<AxiomResponse, Cause>): (r: Result<AxiomResponse, Thrown>)
    ensures r.Success? <==> outcome.Delivered? && outcome.reply.Http? && outcome.reply.statusCode == 200
                            && decode(outcome.reply.data).Success?
    ensures r.Success? ==> decode(outcome.reply.data) == Success(r.value)
  {
    match outcome
    case TransportFailed(c) => Failure(Axiom(NetworkError(c)))
    case Delivered(reply) =>
      match reply
      case NotHttp => Failure(Axiom(InvalidResponse))
      case Http(code, data) =>
        if code != 200 then Failure(Axiom(InvalidResponse))
        else
          match decode(data)
          case Failure(c) => Failure(Decoding(c))
          case Success(response) => Success(response)
  }

  /** Any status other than 200, 201-299 included, is an invalid response. */
  lemma QueryRejectsOtherSuccessCodes(code: int, data: seq<uint8>, decode: seq<uint8> -> Result<AxiomResponse, Cause>)
    requires code != 200
    ensures QueryReply(Delivered(Http(code, data)), decode) == Failure(Axiom(InvalidResponse))
  {
  }

  /** Whatever the proof holds, a decoded 200 reply is returned as it is, while the
      same reply to `/execute` would be refused for a stale proof. */
  lemma QueryAcceptsUncheckedProof(data: seq<uint8>, decode: seq<uint8> -> Result<AxiomResponse, Cause>,
                                   request: TransactionRequest, now: Time)
    requires decode(data).Success? && !IsValid(decode(data).value.proof, now)
    ensures QueryReply(Delivered(Http(200, data)), decode) == Success(decode(data).value)
    ensures ExecuteReply(Delivered(Http(200, data)), decode, request, now) == Failure(Axiom(InvalidProof))
  {
  }

  /** A decoder failure in `queryStatus` is not wrapped as `decodingError`. */
  lemma QueryDecodingErrorUnwrapped(data: seq<uint8>, decode: seq<uint8> -> Result<AxiomResponse, Cause>)
    requires decode(data).Failure?
    ensures QueryReply(Delivered(Http(200, data)), decode) == Failure(Decoding(decode(data).error))
  {
  }

  // ------------------------------------------------------------ the service object

  class AxiomHiveService {
    const baseURL: string
    const apiKey: string

    constructor(apiKey: string, baseURL: string := DefaultBaseURL)
      ensures this.baseURL == baseURL && this.apiKey == apiKey
    {
      this.baseURL := baseURL;
      this.apiKey := apiKey;
    }

    /** The `URLRequest` `executeTransaction` hands to the network: a POST to
        `/execute` with the bearer token, the JSON content type, the signature header
        and the encoded request as body. The header verifies against that body. */
    function ExecuteRequest(env: Environment, request: TransactionRequest): (h: HttpRequest)
      requires EncodeRequest(request, env.iso8601).Success?
      ensures h.httpMethod == "POST" && h.url == baseURL + "/execute"
      ensures h.headers.Keys == {"Authorization", "Content-Type", "X-Axiom-Signature"}
      ensures h.headers["Authorization"] == "Bearer " + apiKey
      ensures h.headers["Content-Type"] == "application/json"
      ensures h.body == Some(env.serialize(EncodeRequest(request, env.iso8601).value))
      ensures h.headers["X-Axiom-Signature"] == SignRequest(apiKey, env, request).value
      ensures VerifyHmacSignature(env.primitives, h.headers["X-Axiom-Signature"], h.body.value, apiKey)
    {
      HttpRequest("POST", baseURL + "/execute",
                  map["Authorization" := "Bearer " + apiKey,
                      "Content-Type" := "application/json",
                      "X-Axiom-Signature" := SignRequest(apiKey, env, request).value],
                  Some(env.serialize(EncodeRequest(request, env.iso8601).value)))
    }

    /** What `executeTransaction` returns or throws, given the network and the clock
        reading of the proof check. */
    function ExecuteResult(env: Environment, request: TransactionRequest,
                           transport: HttpRequest -> TransportOutcome, now: Time): (r: Result<AxiomResponse, Thrown>)
      ensures r.Success? ==> IsValid(r.value.proof, now) && r.value.proof.nonce == request.nonce
      ensures !env.isValidUrl(baseURL + "/execute") ==> r == Failure(Axiom(InvalidRequest("Invalid URL")))
      ensures env.isValidUrl(baseURL + "/execute") && EncodeRequest(request, env.iso8601).Failure?
          ==> r == Failure(Encoding(env.encodingFailure))
    {
      if !env.isValidUrl(baseURL + "/execute") then Failure(Axiom(InvalidRequest("Invalid URL")))
      else if EncodeRequest(request, env.iso8601).Failure? then Failure(Encoding(env.encodingFailure))
      else ExecuteReply(transport(ExecuteRequest(env, request)), env.decodeResponse, request, now)
    }

    /** `executeTransaction`: `sent` is the request handed to the network, if one was
        built. The request is assembled field by field as the Swift code does. */
    method ExecuteTransaction(env: Environment, request: TransactionRequest,
                              transport: HttpRequest -> TransportOutcome, now: Time)
      returns (sent: Option<HttpRequest>, r: Result<AxiomResponse, Thrown>)
      ensures sent.Some? <==> env.isValidUrl(baseURL + "/execute") && EncodeRequest(request, env.iso8601).Success?
      ensures sent.Some? ==> sent.value == ExecuteRequest(env, request)
      ensures r == ExecuteResult(env, request, transport, now)
    {
      var endpoint := baseURL + "/execute";
      if !env.isValidUrl(endpoint) {
        return None, Failure(Axiom(InvalidRequest("Invalid URL")));
      }
      var urlRequest := HttpRequest("GET", endpoint, map[], None);
      urlRequest := urlRequest.(httpMethod := "POST");
      urlRequest := urlRequest.(headers := urlRequest.headers["Authorization" := "Bearer " + apiKey]);
      urlRequest := urlRequest.(headers := urlRequest.headers["Content-Type" := "application/json"]);

      var signature := SignRequest(apiKey, env, request);
      if signature.Failure? {
        return None, Failure(signature.error);
      }
      urlRequest := urlRequest.(headers := urlRequest.headers["X-Axiom-Signature" := signature.value]);

      var body := env.serialize(EncodeRequest(request, env.iso8601).value);
      urlRequest := urlRequest.(body := Some(body));

      sent := Some(urlRequest);
      r := ExecuteReply(transport(urlRequest), env.decodeResponse, request, now);
    }

    /** `queryStatus(requestId:)`: a GET with only the bearer token. */
    method QueryStatus(env: Environment, requestId: string, transport: HttpRequest -> TransportOutcome)
      returns (sent: Option<HttpRequest>, r: Result<AxiomResponse, Thrown>)
      ensures !env.isValidUrl(baseURL + "/status/" + requestId)
          ==> sent.None? && r == Failure(Axiom(InvalidRequest("Invalid URL")))
      ensures env.isValidUrl(baseURL + "/status/" + requestId) ==>
                && sent == Some(HttpRequest("GET", baseURL + "/status/" + requestId,
                                            map["Authorization" := "Bearer " + apiKey], None))
                && r == QueryReply(transport(sent.value), env.decodeResponse)
    {
      var endpoint := baseURL + "/status/" + requestId;
      if !env.isValidUrl(endpoint) {
        return None, Failure(Axiom(InvalidRequest("Invalid URL")));
      }
      var urlRequest := HttpRequest("GET", endpoint, map[], None);
      urlRequest := urlRequest.(headers := urlRequest.headers["Authorization" := "Bearer " + apiKey]);
      sent := Some(urlRequest);
      r := QueryReply(transport(urlRequest), env.decodeResponse);
    }
  }
}
