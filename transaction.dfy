/** Transaction.swift: the transaction record, its type and status enumerations with
    their raw values, the request that is signed and sent, and the computed duration. */
module Transactions {
  import opened Wrappers
  import opened Encodings
  import opened AnyCodable
  import opened Responses

  /** `TransactionType` (the Swift property `type` is `kind` here). */
  datatype TransactionType = AiQuery | DataAnalysis | Prediction | Optimization | Verification

  const AllTransactionTypes: seq<TransactionType> :=
    [AiQuery, DataAnalysis, Prediction, Optimization, Verification]

  function TypeRawValue(t: TransactionType): string
  {
    match t
    case AiQuery => "ai_query"
    case DataAnalysis => "data_analysis"
    case Prediction => "prediction"
    case Optimization => "optimization"
    case Verification => "verification"
  }

  /** `TransactionType(rawValue:)`. */
  function TypeFromRawValue(s: string): Option<TransactionType>
  {
    if s == "ai_query" then Some(AiQuery)
    else if s == "data_analysis" then Some(DataAnalysis)
    else if s == "prediction" then Some(Prediction)
    else if s == "optimization" then Some(Optimization)
    else if s == "verification" then Some(Verification)
    else None
  }

  /** `allCases` lists each of the five types once, and raw values round-trip. */
  lemma TransactionTypeCases(t: TransactionType, s: string)
    ensures |AllTransactionTypes| == 5 && t in AllTransactionTypes
    ensures forall i, j :: 0 <= i < j < 5 ==> AllTransactionTypes[i] != AllTransactionTypes[j]
    ensures TypeFromRawValue(TypeRawValue(t)) == Some(t)
    ensures TypeFromRawValue(s) == Some(t) ==> TypeRawValue(t) == s
  {
  }

  datatype TransactionStatus = Pending | Processing | Completed | Failed | Cancelled

  function StatusRawValue(s: TransactionStatus): string
  {
    match s
    case Pending => "pending"
    case Processing => "processing"
    case Completed => "completed"
    case Failed => "failed"
    case Cancelled => "cancelled"
  }

  function StatusFromRawValue(s: string): Option<TransactionStatus>
  {
    if s == "pending" then Some(Pending)
    else if s == "processing" then Some(Processing)
    else if s == "completed" then Some(Completed)
    else if s == "failed" then Some(Failed)
    else if s == "cancelled" then Some(Cancelled)
    else None
  }

  lemma StatusRawValueRoundTrip(st: TransactionStatus, s: string)
    ensures StatusFromRawValue(StatusRawValue(st)) == Some(st)
    ensures StatusFromRawValue(s) == Some(st) ==> StatusRawValue(st) == s
  {
  }

  /** `TransactionRequest`; the defaulted `timestamp` (`Date()`) and `nonce`
      (`UUID().uuidString`) are supplied by the caller. */
  datatype TransactionRequest = TransactionRequest(
    operation: string,
    parameters: map<string, Value>,
    timestamp: Time,
    nonce: string)

  datatype TransactionError = TransactionError(
    code: string,
    message: string,
    details: Option<map<string, Value>>)

  datatype Transaction = Transaction(
    id: Uuid,
    userId: Uuid,
    kind: TransactionType,
    status: TransactionStatus,
    request: TransactionRequest,
    response: Option<AxiomResponse>,
    createdAt: Time,
    completedAt: Option<Time>,
    error: Option<TransactionError>)

  /** `Transaction.init` with its defaults: no response, no completion time, no error,
      and status `pending` unless another is given. */
  function NewTransaction(id: Uuid, userId: Uuid, kind: TransactionType, request: TransactionRequest,
                          createdAt: Time, status: TransactionStatus := Pending): (t: Transaction)
    ensures t.id == id && t.userId == userId && t.kind == kind && t.request == request
    ensures t.status == status && t.createdAt == createdAt
    ensures t.response.None? && t.error.None? && Duration(t).None?
  {
    Transaction(id, userId, kind, status, request, None, createdAt, None, None)
  }

  /** `duration`: absent until the transaction completes, then the time from creation
      to completion. */
  function Duration(t: Transaction): (d: Option<real>)
    ensures d.None? <==> t.completedAt.None?
    ensures d.Some? ==> t.createdAt + d.value == t.completedAt.value
  {
    match t.completedAt
    case None => None
    case Some(done) => Some(done - t.createdAt)
  }

  /** A transaction completed five seconds after creation has a positive duration. */
  lemma DurationOfCompletedTransaction(t: Transaction)
    requires t.completedAt == Some(t.createdAt + 5.0)
    ensures Duration(t).Some? && Duration(t).value > 0.0
  {
  }

  /** The number of transactions with the given status: `filter { $0.status == st }.count`. */
  function CountWithStatus(ts: seq<Transaction>, st: TransactionStatus): (n: nat)
    ensures n <= |ts|
  {
    if |ts| == 0 then 0
    else (if ts[0].status == st then 1 else 0) + CountWithStatus(ts[1..], st)
  }

  /** No transaction has two statuses, so completed and failed together never
      outnumber the list. */
  lemma {:induction false} CompletedAndFailedWithinTotal(ts: seq<Transaction>)
    ensures CountWithStatus(ts, Completed) + CountWithStatus(ts, Failed) <= |ts|
  {
    if |ts| > 0 {
      CompletedAndFailedWithinTotal(ts[1..]);
    }
  }

  /** The synthesised `Encodable` conformance of `TransactionRequest`: an object with
      the four properties, the parameters encoded as `AnyCodable` values and the
      timestamp by the encoder's ISO-8601 date strategy. */
  function EncodeRequest(r: TransactionRequest, iso8601: Time -> string): (j: Result<Json, CodingError>)
    ensures j.Success? <==> forall k | k in r.parameters :: Supported(r.parameters[k])
    ensures j.Success? ==>
              && j.value.JObject?
              && j.value.fields.Keys == {"operation", "parameters", "timestamp", "nonce"}
              && j.value.fields["nonce"] == JString(r.nonce)
              && j.value.fields["parameters"] == Encode(VDict(r.parameters)).value
  {
    match Encode(VDict(r.parameters))
    case Failure(e) => Failure(e)
    case Success(p) =>
      Success(JObject(map[
        "operation" := JString(r.operation),
        "parameters" := p,
        "timestamp" := JString(iso8601(r.timestamp)),
        "nonce" := JString(r.nonce)]))
  }
}
