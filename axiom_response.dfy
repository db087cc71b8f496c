/** AxiomResponse.swift: the response and proof records the server returns, the
    proof's own validity check, and the closed `AxiomError` taxonomy. */
module Responses {
  import opened Wrappers
  import opened Encodings
  import opened AnyCodable
  import CryptoUtilities

  /** The only algorithm tag a proof may carry. */
  const PinnedAlgorithm: string := "HMAC-SHA256"

  /** Proofs this many seconds old or older are stale. */
  const MaxProofAge: real := 300.0

  datatype DeterministicProof = DeterministicProof(
    algorithm: string,
    signature: string,
    hash: string,
    timestamp: Time,
    nonce: string)

  /** `DeterministicProof.isValid`, with the clock reading `now` made a parameter:
      signature and hash present, algorithm pinned, and age `now - timestamp` below
      300 seconds. There is no lower bound on the age. */
  predicate IsValid(proof: DeterministicProof, now: Time)
  {
    && proof.signature != ""
    && proof.hash != ""
    && proof.algorithm == PinnedAlgorithm
    && now - proof.timestamp < MaxProofAge
  }

  /** `confidence` is a `Double` the client only carries along. */
  datatype AxiomResult = AxiomResult(
    status: string,
    data: map<string, Value>,
    confidence: real,
    reasoning: Option<string>)

  datatype ResponseMetadata = ResponseMetadata(
    executionTime: real,
    apiVersion: string,
    nodeId: string,
    region: string,
    rateLimitRemaining: Int64,
    rateLimitReset: Time)

  datatype AxiomResponse = AxiomResponse(
    requestId: string,
    timestamp: Time,
    result: AxiomResult,
    proof: DeterministicProof,
    metadata: ResponseMetadata)

  /** An underlying Swift `Error`, known here only by its `localizedDescription`. */
  datatype Cause = Cause(description: string)

  /** `AxiomError`: exactly eight kinds. */
  datatype AxiomError =
    | InvalidResponse
    | InvalidProof
    | NetworkError(cause: Cause)
    | AuthenticationFailed
    | RateLimitExceeded
    | InvalidRequest(message: string)
    | ServerError(code: int, message: string)
    | DecodingError(cause: Cause)

  /** `errorDescription`, which is also what `localizedDescription` reports. */
  function ErrorDescription(e: AxiomError): string
  {
    match e
    case InvalidResponse => "Invalid response from Axiom Hive API"
    case InvalidProof => "Cryptographic proof verification failed"
    case NetworkError(c) => "Network error: " + c.description
    case AuthenticationFailed => "Authentication failed. Please check your API key"
    case RateLimitExceeded => "Rate limit exceeded. Please try again later"
    case InvalidRequest(m) => "Invalid request: " + m
    case ServerError(code, m) => "Server error (" + IntToString(code) + "): " + m
    case DecodingError(c) => "Failed to decode response: " + c.description
  }

  /** A value thrown by the app's code: an `AxiomError`, or one of Foundation's
      `EncodingError` and `DecodingError` that reach callers unwrapped, or an error of a
      collaborator outside this model (the authentication service, the keychain). */
  datatype Thrown =
    | Axiom(error: AxiomError)
    | Encoding(cause: Cause)
    | Decoding(cause: Cause)
    | Other(cause: Cause)

  function LocalizedDescription(t: Thrown): string
  {
    match t
    case Axiom(e) => ErrorDescription(e)
    case Encoding(c) => c.description
    case Decoding(c) => c.description
    case Other(c) => c.description
  }

  // ------------------------------------------------------------ properties of isValid

  /** A valid proof has a signature, a hash and the pinned algorithm, and is younger
      than 300 seconds; these four together are also sufficient. */
  lemma ValidityConditions(proof: DeterministicProof, now: Time)
    ensures IsValid(proof, now) ==> proof.signature != "" && proof.hash != ""
    ensures IsValid(proof, now) ==> proof.algorithm == "HMAC-SHA256"
    ensures IsValid(proof, now) ==> now - proof.timestamp < 300.0
    ensures proof.signature == "" || proof.hash == "" ==> !IsValid(proof, now)
  {
  }

  /** The algorithm comparison is exact: other spellings and casings are refused. */
  lemma AlgorithmPinned(proof: DeterministicProof, now: Time)
    ensures proof.algorithm != "HMAC-SHA256" ==> !IsValid(proof, now)
    ensures !IsValid(proof.(algorithm := "hmac-sha256"), now)
    ensures !IsValid(proof.(algorithm := "INVALID"), now)
  {
    assert "hmac-sha256"[0] != PinnedAlgorithm[0];
    assert "INVALID"[0] != PinnedAlgorithm[0];
  }

  /** Freshness is strict at 300 seconds: age 299 passes, 300 and 301 fail. */
  lemma FreshnessBoundary(proof: DeterministicProof, now: Time)
    requires proof.signature != "" && proof.hash != "" && proof.algorithm == "HMAC-SHA256"
    ensures IsValid(proof.(timestamp := now - 299.0), now)
    ensures !IsValid(proof.(timestamp := now - 300.0), now)
    ensures !IsValid(proof.(timestamp := now - 301.0), now)
    ensures IsValid(proof.(timestamp := now), now)
  {
  }

  /** No lower bound: a proof dated any distance into the future passes. */
  lemma FutureDatedProofAccepted(proof: DeterministicProof, now: Time, ahead: real)
    requires proof.signature != "" && proof.hash != "" && proof.algorithm == "HMAC-SHA256"
    requires ahead >= 0.0
    ensures IsValid(proof.(timestamp := now + ahead), now)
  {
  }

  /** The proof check and `isTimestampValid` disagree at both ends: an age of exactly
      300 seconds passes the tolerance check but not the proof check, and a timestamp
      400 seconds ahead passes the proof check but not the tolerance check. Between age
      0 and 300 they agree. */
  lemma ProofFreshnessVersusTolerance(proof: DeterministicProof, now: Time)
    requires proof.signature != "" && proof.hash != "" && proof.algorithm == "HMAC-SHA256"
    ensures CryptoUtilities.IsTimestampValid(now - 300.0, now)
        && !IsValid(proof.(timestamp := now - 300.0), now)
    ensures !CryptoUtilities.IsTimestampValid(now + 400.0, now)
        && IsValid(proof.(timestamp := now + 400.0), now)
    ensures 0.0 <= now - proof.timestamp < 300.0
        ==> IsValid(proof, now) && CryptoUtilities.IsTimestampValid(proof.timestamp, now)
  {
  }

  // ------------------------------------------------------------ the error taxonomy

  /** Which of the eight cases an error is. */
  function Kind(e: AxiomError): nat
  {
    match e
    case InvalidResponse => 0
    case InvalidProof => 1
    case NetworkError(_) => 2
    case AuthenticationFailed => 3
    case RateLimitExceeded => 4
    case InvalidRequest(_) => 5
    case ServerError(_, _) => 6
    case DecodingError(_) => 7
  }

  /** Text that follows a fixed prefix can be recovered from the whole. */
  lemma PrefixCancels(prefix: string, x: string, y: string)
    requires prefix + x == prefix + y
    ensures x == y
  {
    assert x == (prefix + x)[|prefix|..];
    assert y == (prefix + y)[|prefix|..];
  }

  /** A text free of `c`, followed by `c`, can be recovered from the whole. */
  lemma SplitAtFirst(x1: string, y1: string, x2: string, y2: string, c: char)
    requires forall i | 0 <= i < |x1| :: x1[i] != c
    requires forall i | 0 <= i < |x2| :: x2[i] != c
    requires x1 + [c] + y1 == x2 + [c] + y2
    ensures x1 == x2 && y1 == y2
  {
    var s := x1 + [c] + y1;
    FirstAt(x1, y1, c);
    FirstAt(x2, y2, c);
    assert |x1| == |x2|;
    assert x1 == s[..|x1|] == x2;
    PrefixCancels(x1 + [c], y1, y2);
  }

  lemma FirstAt(x: string, y: string, c: char)
    requires forall i | 0 <= i < |x| :: x[i] != c
    ensures (x + [c] + y)[|x|] == c
    ensures forall k | 0 <= k < |x| :: (x + [c] + y)[k] != c
  {
  }

  lemma NoParenInNumber(n: int)
    ensures forall i | 0 <= i < |IntToString(n)| :: IntToString(n)[i] != ')'
  {
    var r := IntToString(n);
    forall i | 0 <= i < |r|
      ensures r[i] != ')'
    {
      if n < 0 && i > 0 {
        assert r[i] == r[1..][i - 1];
      }
    }
  }

  /** "Server error (<code>): <message>" determines the code and the message: the code's
      decimal text holds no ')'. */
  lemma ServerErrorTextKeepsPayload(code1: int, m1: string, code2: int, m2: string)
    requires ErrorDescription(ServerError(code1, m1)) == ErrorDescription(ServerError(code2, m2))
    ensures code1 == code2 && m1 == m2
  {
    var p := "Server error (";
    var rest1, rest2 := IntToString(code1) + [')'] + (": " + m1), IntToString(code2) + [')'] + (": " + m2);
    assert ErrorDescription(ServerError(code1, m1)) == p + rest1;
    assert ErrorDescription(ServerError(code2, m2)) == p + rest2;
    PrefixCancels(p, rest1, rest2);
    NoParenInNumber(code1);
    NoParenInNumber(code2);
    SplitAtFirst(IntToString(code1), ": " + m1, IntToString(code2), ": " + m2, ')');
    IntToStringInjective(code1, code2);
    PrefixCancels(": ", m1, m2);
  }

  /** Within one case the description loses nothing: two errors of the same case have
      the same `errorDescription` exactly when they carry the same message, cause or
      status code. */
  lemma ErrorDescriptionKeepsPayload(a: AxiomError, b: AxiomError)
    requires Kind(a) == Kind(b)
    ensures ErrorDescription(a) == ErrorDescription(b) <==> a == b
  {
    if ErrorDescription(a) == ErrorDescription(b) {
      match (a, b)
      case (NetworkError(c1), NetworkError(c2)) =>
        PrefixCancels("Network error: ", c1.description, c2.description);
      case (InvalidRequest(m1), InvalidRequest(m2)) =>
        PrefixCancels("Invalid request: ", m1, m2);
      case (DecodingError(c1), DecodingError(c2)) =>
        PrefixCancels("Failed to decode response: ", c1.description, c2.description);
      case (ServerError(code1, m1), ServerError(code2, m2)) =>
        ServerErrorTextKeepsPayload(code1, m1, code2, m2);
      case _ =>
    }
  }

  /** The description of a server error shows its code and message. */
  lemma ServerErrorDescription()
    ensures ErrorDescription(ServerError(503, "Server error")) == "Server error (503): Server error"
  {
  }
}
