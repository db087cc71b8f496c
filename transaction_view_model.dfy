/** TransactionViewModel.swift: runs one transaction through the service and records
    it in the app state as it goes from processing to completed, failed or cancelled.
    The `async` call is one sequential step whose outcome is decided by the network
    function; the identifiers and clock readings the Swift code draws are inputs. */
module TransactionFlow {
  import opened Wrappers
  import opened Encodings
  import opened AnyCodable
  import opened Responses
  import opened Transactions
  import opened Users
  import opened Service
  import opened ApplicationState

  /** What one run of `executeTransaction` reads from `UUID()` and `Date()`: the new
      transaction's id, the UUID whose string is the request nonce, the request's
      timestamp, the transaction's creation time, the clock reading during the proof
      check and the completion time. */
  datatype Readings = Readings(
    transactionId: Uuid,
    nonce: Uuid,
    requestedAt: Time,
    createdAt: Time,
    verifiedAt: Time,
    completedAt: Time)

  /** `TransactionRequest(operation:parameters:)` with its defaulted timestamp and nonce. */
  function RequestFor(operation: string, parameters: map<string, Value>, readings: Readings): (r: TransactionRequest)
    ensures r.operation == operation && r.parameters == parameters
    ensures r.timestamp == readings.requestedAt
    ensures |r.nonce| == 36 && r.nonce == UuidString(readings.nonce)
  {
    TransactionRequest(operation, parameters, readings.requestedAt, UuidString(readings.nonce))
  }

  /** The transaction once the service call is over: completed with the response, or
      failed with an `EXECUTION_FAILED` error carrying the error's description; either
      way stamped with the completion time. */
  function Settle(t: Transaction, outcome: Result<AxiomResponse, Thrown>, completedAt: Time): (r: Transaction)
    ensures r.id == t.id && r.userId == t.userId && r.kind == t.kind
    ensures r.request == t.request && r.createdAt == t.createdAt
    ensures r.completedAt == Some(completedAt) && Duration(r) == Some(completedAt - t.createdAt)
    ensures outcome.Success? ==>
              r.status == Completed && r.response == Some(outcome.value) && r.error == t.error
    ensures outcome.Failure? ==>
              && r.status == Failed && r.response == t.response
              && r.error == Some(TransactionError("EXECUTION_FAILED", LocalizedDescription(outcome.error), None))
  {
    match outcome
    case Success(response) =>
      t.(status := Completed, response := Some(response), completedAt := Some(completedAt))
    case Failure(e) =>
      t.(status := Failed, completedAt := Some(completedAt),
         error := Some(TransactionError("EXECUTION_FAILED", LocalizedDescription(e), None)))
  }

  /** A completed transaction holds a response whose proof was valid at the check and
      answers the transaction's own request. */
  lemma SettledSuccessIsVerified(service: AxiomHiveService, env: Environment, t: Transaction,
                                 transport: HttpRequest -> TransportOutcome, verifiedAt: Time, completedAt: Time)
    requires Settle(t, service.ExecuteResult(env, t.request, transport, verifiedAt), completedAt).status == Completed
    ensures var s := Settle(t, service.ExecuteResult(env, t.request, transport, verifiedAt), completedAt);
            s.response.Some? && IsValid(s.response.value.proof, verifiedAt)
            && s.response.value.proof.nonce == t.request.nonce
  {
  }

  class TransactionViewModel {
    var currentTransaction: Option<Transaction>
    var isProcessing: bool
    var error: Option<Thrown>
    var showSuccess: bool
    var result: Option<AxiomResponse>
    const service: AxiomHiveService
    const appState: AppState
    /** The service's collaborators and the network, fixed for the view model's life. */
    const env: Environment
    const transport: HttpRequest -> TransportOutcome

    constructor(service: AxiomHiveService, appState: AppState, env: Environment,
                transport: HttpRequest -> TransportOutcome)
      ensures this.service == service && this.appState == appState
      ensures this.env == env && this.transport == transport
      ensures currentTransaction.None? && !isProcessing && error.None? && !showSuccess && result.None?
    {
      this.service := service;
      this.appState := appState;
      this.env := env;
      this.transport := transport;
      currentTransaction := None;
      isProcessing := false;
      error := None;
      showSuccess := false;
      result := None;
    }

    /** `executeTransaction(type:operation:parameters:)`. The transaction enters the
        history as processing, so the user's total counter grows by one while the
        success and failure counters stay as they were, whatever the outcome. */
    method ExecuteTransaction(kind: TransactionType, operation: string, parameters: map<string, Value>,
                              readings: Readings)
      modifies this, appState
      ensures old(appState.currentUser).None? ==>
                && error == Some(Axiom(AuthenticationFailed))
                && isProcessing == old(isProcessing) && currentTransaction == old(currentTransaction)
                && showSuccess == old(showSuccess) && result == old(result)
                && appState.transactions == old(appState.transactions)
                && appState.currentUser.None?
      ensures old(appState.currentUser).Some? ==>
                var user := old(appState.currentUser).value;
                var request := RequestFor(operation, parameters, readings);
                var outcome := service.ExecuteResult(env, request, transport, readings.verifiedAt);
                var started := NewTransaction(readings.transactionId, user.id, kind, request, readings.createdAt, Processing);
                var settled := Settle(started, outcome, readings.completedAt);
                && !isProcessing
                && currentTransaction == Some(settled)
                && appState.transactions == [settled] + old(appState.transactions)
                && appState.currentUser == Some(user.(statistics := Tally(user.statistics, Processing)))
                && (outcome.Success? ==> result == Some(outcome.value) && showSuccess && error == old(error))
                && (outcome.Failure? ==> error == Some(outcome.error)
                                         && result == old(result) && showSuccess == old(showSuccess))
      ensures result != old(result) ==>
                && result.Some? && IsValid(result.value.proof, readings.verifiedAt)
                && result.value.proof.nonce == UuidString(readings.nonce)
      ensures appState.isAuthenticated == old(appState.isAuthenticated)
      ensures appState.isLoading == old(appState.isLoading)
      ensures appState.error == old(appState.error) && appState.showError == old(appState.showError)
    {
      if appState.currentUser.None? {
        error := Some(Axiom(AuthenticationFailed));
        return;
      }
      var user := appState.currentUser.value;

      isProcessing := true;

      var request := RequestFor(operation, parameters, readings);
      var transaction := NewTransaction(readings.transactionId, user.id, kind, request, readings.createdAt, Processing);

      currentTransaction := Some(transaction);
      ghost var history := appState.transactions;
      appState.AddTransaction(transaction);

      var sent, outcome := service.ExecuteTransaction(env, request, transport, readings.verifiedAt);
      UpdateAfterInsert(transaction, Settle(transaction, outcome, readings.completedAt), history);
      RecordOutcome(transaction, outcome, readings.completedAt);

      isProcessing := false;
    }

    /** The `do`/`catch` of `executeTransaction` after the service call: settle the
        transaction, show it and replace it in the history, then publish the response
        or the error. */
    method RecordOutcome(started: Transaction, outcome: Result<AxiomResponse, Thrown>, completedAt: Time)
      modifies this, appState
      ensures currentTransaction == Some(Settle(started, outcome, completedAt))
      ensures appState.transactions == Updated(old(appState.transactions), Settle(started, outcome, completedAt))
      ensures outcome.Success? ==> result == Some(outcome.value) && showSuccess && error == old(error)
      ensures outcome.Failure? ==> error == Some(outcome.error) && result == old(result) && showSuccess == old(showSuccess)
      ensures isProcessing == old(isProcessing)
      ensures appState.currentUser == old(appState.currentUser)
      ensures appState.isAuthenticated == old(appState.isAuthenticated) && appState.isLoading == old(appState.isLoading)
      ensures appState.error == old(appState.error) && appState.showError == old(appState.showError)
    {
      var transaction := started;
      match outcome {
        case Success(response) =>
          transaction := transaction.(status := Completed);
          transaction := transaction.(response := Some(response));
          transaction := transaction.(completedAt := Some(completedAt));

          currentTransaction := Some(transaction);
          appState.UpdateTransaction(transaction);

          result := Some(response);
          showSuccess := true;
        case Failure(e) =>
          transaction := transaction.(status := Failed);
          transaction := transaction.(completedAt := Some(completedAt));
          transaction := transaction.(error := Some(TransactionError("EXECUTION_FAILED", LocalizedDescription(e), None)));

          currentTransaction := Some(transaction);
          appState.UpdateTransaction(transaction);

          error := Some(e);
      }
    }

    /** `cancelTransaction`: with a current transaction, mark it cancelled at `now` and
        replace it in the history; without one, do nothing. */
    method CancelTransaction(now: Time)
      modifies this, appState
      ensures old(currentTransaction).None? ==>
                currentTransaction.None? && appState.transactions == old(appState.transactions)
      ensures old(currentTransaction).Some? ==>
                var cancelled := old(currentTransaction).value.(status := Cancelled, completedAt := Some(now));
                currentTransaction == Some(cancelled)
                && appState.transactions == Updated(old(appState.transactions), cancelled)
      ensures isProcessing == old(isProcessing) && error == old(error)
      ensures showSuccess == old(showSuccess) && result == old(result)
      ensures appState.currentUser == old(appState.currentUser)
      ensures appState.isAuthenticated == old(appState.isAuthenticated) && appState.isLoading == old(appState.isLoading)
      ensures appState.error == old(appState.error) && appState.showError == old(appState.showError)
    {
      if currentTransaction.None? {
        return;
      }
      var transaction := currentTransaction.value;
      transaction := transaction.(status := Cancelled);
      transaction := transaction.(completedAt := Some(now));
      currentTransaction := Some(transaction);
      appState.UpdateTransaction(transaction);
    }

    /** `clearResult`. */
    method ClearResult()
      modifies this
      ensures result.None? && !showSuccess && currentTransaction.None?
      ensures isProcessing == old(isProcessing) && error == old(error)
    {
      result := None;
      showSuccess := false;
      currentTransaction := None;
    }

    /** `retryTransaction`: run the current transaction's type, operation and
        parameters again as a new transaction; without a current one, do nothing. */
    method RetryTransaction(readings: Readings)
      modifies this, appState
      ensures old(currentTransaction).None? ==>
                && currentTransaction.None? && isProcessing == old(isProcessing)
                && error == old(error) && showSuccess == old(showSuccess) && result == old(result)
                && appState.transactions == old(appState.transactions)
                && appState.currentUser == old(appState.currentUser)
      ensures old(currentTransaction).Some? && old(appState.currentUser).None? ==>
                && error == Some(Axiom(AuthenticationFailed))
                && isProcessing == old(isProcessing) && currentTransaction == old(currentTransaction)
                && showSuccess == old(showSuccess) && result == old(result)
                && appState.transactions == old(appState.transactions)
                && appState.currentUser.None?
      ensures old(currentTransaction).Some? && old(appState.currentUser).Some? ==>
                var previous := old(currentTransaction).value;
                var user := old(appState.currentUser).value;
                var request := RequestFor(previous.request.operation, previous.request.parameters, readings);
                var outcome := service.ExecuteResult(env, request, transport, readings.verifiedAt);
                var started := NewTransaction(readings.transactionId, user.id, previous.kind, request, readings.createdAt, Processing);
                var settled := Settle(started, outcome, readings.completedAt);
                && !isProcessing
                && currentTransaction == Some(settled)
                && appState.transactions == [settled] + old(appState.transactions)
                && appState.currentUser == Some(user.(statistics := Tally(user.statistics, Processing)))
                && (outcome.Success? ==> result == Some(outcome.value) && showSuccess && error == old(error))
                && (outcome.Failure? ==> error == Some(outcome.error)
                                         && result == old(result) && showSuccess == old(showSuccess))
      ensures result != old(result) ==>
                && result.Some? && IsValid(result.value.proof, readings.verifiedAt)
                && result.value.proof.nonce == UuidString(readings.nonce)
      ensures appState.isAuthenticated == old(appState.isAuthenticated)
      ensures appState.isLoading == old(appState.isLoading)
      ensures appState.error == old(appState.error) && appState.showError == old(appState.showError)
    {
      if currentTransaction.None? {
        return;
      }
      var transaction := currentTransaction.value;
      ExecuteTransaction(transaction.kind, transaction.request.operation, transaction.request.parameters, readings);
    }
  }
}
