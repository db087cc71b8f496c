/** AppState.swift: the app-wide state object. It holds the signed-in user, the
    loading and error flags and the transaction history, newest first. The
    authentication service is not modelled: each sign-in operation receives the
    outcome of the service call as a parameter. */
module ApplicationState {
  import opened Wrappers
  import opened Encodings
  import opened Responses
  import opened Transactions
  import opened Users

  // ------------------------------------------------------------ user statistics

  /** The counter update of `addTransaction`: one more transaction, and one more
      success or failure when the added transaction is completed or failed. */
  function Tally(s: UserStatistics, status: TransactionStatus): (r: UserStatistics)
    ensures r.totalTransactions == s.totalTransactions + 1
    ensures r.successfulTransactions == s.successfulTransactions + (if status == Completed then 1 else 0)
    ensures r.failedTransactions == s.failedTransactions + (if status == Failed then 1 else 0)
    ensures r.totalApiCalls == s.totalApiCalls && r.averageResponseTime == s.averageResponseTime
  {
    var bumped := s.(totalTransactions := s.totalTransactions + 1);
    if status == Completed then bumped.(successfulTransactions := s.successfulTransactions + 1)
    else if status == Failed then bumped.(failedTransactions := s.failedTransactions + 1)
    else bumped
  }

  /** The counters after adding `added[0]`, then `added[1]`, and so on. */
  function TallyAll(s: UserStatistics, added: seq<Transaction>): UserStatistics
    decreases |added|
  {
    if |added| == 0 then s else TallyAll(Tally(s, added[0].status), added[1..])
  }

  /** The counters track the history: after a run of additions the total has grown by
      their number and the successes and failures by the completed and failed ones
      among them, as the dashboard counts them. */
  lemma {:induction false} TallyAllCounts(s: UserStatistics, added: seq<Transaction>)
    ensures TallyAll(s, added).totalTransactions == s.totalTransactions + |added|
    ensures TallyAll(s, added).successfulTransactions == s.successfulTransactions + CountWithStatus(added, Completed)
    ensures TallyAll(s, added).failedTransactions == s.failedTransactions + CountWithStatus(added, Failed)
    decreases |added|
  {
    if |added| > 0 {
      TallyAllCounts(Tally(s, added[0].status), added[1..]);
    }
  }

  /** Counters that could have come from a history. */
  predicate ConsistentStatistics(s: UserStatistics)
  {
    0 <= s.successfulTransactions && 0 <= s.failedTransactions
    && s.successfulTransactions + s.failedTransactions <= s.totalTransactions
  }

  lemma TallyPreservesConsistency(s: UserStatistics, status: TransactionStatus)
    requires ConsistentStatistics(s)
    ensures ConsistentStatistics(Tally(s, status))
    ensures SuccessRate(Tally(s, status)) >= 0.0
  {
    SuccessRateMeaning(Tally(s, status));
  }

  // ------------------------------------------------------------ updateTransaction

  /** `firstIndex(where: { $0.id == id })`. */
  function FirstIndexWithId(ts: seq<Transaction>, id: Uuid): (r: Option<nat>)
    ensures r.Some? ==> r.value < |ts| && ts[r.value].id == id
                        && forall k | 0 <= k < r.value :: ts[k].id != id
    ensures r.None? ==> forall k | 0 <= k < |ts| :: ts[k].id != id
  {
    if |ts| == 0 then None
    else if ts[0].id == id then Some(0)
    else
      match FirstIndexWithId(ts[1..], id)
      case None => None
      case Some(i) => Some(i + 1)
  }

  /** The list after `updateTransaction(t)`: the first element with `t`'s id replaced
      by `t`, and nothing else changed. */
  function Updated(ts: seq<Transaction>, t: Transaction): (r: seq<Transaction>)
    ensures |r| == |ts|
    ensures (forall k | 0 <= k < |ts| :: ts[k].id != t.id) ==> r == ts
    ensures (exists k | 0 <= k < |ts| :: ts[k].id == t.id) ==>
              exists i | 0 <= i < |ts| ::
                && ts[i].id == t.id && r[i] == t
                && (forall k | 0 <= k < i :: ts[k].id != t.id)
                && (forall k | 0 <= k < |ts| && k != i :: r[k] == ts[k])
  {
    match FirstIndexWithId(ts, t.id)
    case None => ts
    case Some(i) => ts[i := t]
  }

  /** Updating with the same transaction twice is updating once. */
  lemma UpdatedIdempotent(ts: seq<Transaction>, t: Transaction)
    ensures Updated(Updated(ts, t), t) == Updated(ts, t)
  {
    var once := Updated(ts, t);
    match FirstIndexWithId(ts, t.id)
    case None =>
    case Some(i) =>
      assert once == ts[i := t];
      assert forall k | 0 <= k < i :: once[k].id != t.id;
      assert FirstIndexWithId(once, t.id) == Some(i);
  }

  /** A transaction just inserted at the front is the one an update with its id replaces. */
  lemma UpdateAfterInsert(t0: Transaction, t1: Transaction, ts: seq<Transaction>)
    requires t0.id == t1.id
    ensures Updated([t0] + ts, t1) == [t1] + ts
  {
    assert FirstIndexWithId([t0] + ts, t1.id) == Some(0);
  }

  // ------------------------------------------------------------ the state object

  class AppState {
    var currentUser: Option<User>
    var isAuthenticated: bool
    var isLoading: bool
    var error: Option<Thrown>
    var showError: bool
    var transactions: seq<Transaction>

    /** The initial state; the `loadCurrentUser` task the Swift initialiser starts is
        the separate `LoadCurrentUser` step. */
    constructor()
      ensures currentUser.None? && !isAuthenticated && !isLoading
      ensures error.None? && !showError && transactions == []
    {
      currentUser := None;
      isAuthenticated := false;
      isLoading := false;
      error := None;
      showError := false;
      transactions := [];
    }

    /** `loadCurrentUser` given what `getCurrentUser` returned or threw: a stored user
        signs in, no stored user changes nothing, an error is reported. */
    method LoadCurrentUser(outcome: Result<Option<User>, Thrown>)
      modifies this
      ensures !isLoading && transactions == old(transactions)
      ensures outcome.Success? && outcome.value.Some? ==>
                currentUser == outcome.value && isAuthenticated
                && error == old(error) && showError == old(showError)
      ensures outcome.Success? && outcome.value.None? ==>
                currentUser == old(currentUser) && isAuthenticated == old(isAuthenticated)
                && error == old(error) && showError == old(showError)
      ensures outcome.Failure? ==>
                currentUser == old(currentUser) && isAuthenticated == old(isAuthenticated)
                && error == Some(outcome.error) && showError
    {
      isLoading := true;
      match outcome {
        case Success(found) =>
          if found.Some? {
            currentUser := found;
            isAuthenticated := true;
          }
        case Failure(e) =>
          HandleError(e);
      }
      isLoading := false;
    }

    /** The state updates `signIn` and `signUp` share, given what the authentication
        service returned or threw: on success the user is signed in, on failure only
        the error fields change; loading is off afterwards either way. */
    method Authenticate(outcome: Result<User, Thrown>)
      modifies this
      ensures !isLoading && transactions == old(transactions)
      ensures outcome.Success? ==>
                currentUser == Some(outcome.value) && isAuthenticated
                && error == old(error) && showError == old(showError)
      ensures outcome.Failure? ==>
                currentUser == old(currentUser) && isAuthenticated == old(isAuthenticated)
                && error == Some(outcome.error) && showError
    {
      isLoading := true;
      match outcome {
        case Success(user) =>
          currentUser := Some(user);
          isAuthenticated := true;
        case Failure(e) =>
          HandleError(e);
      }
      isLoading := false;
    }

    /** `signOut`: no user, not authenticated, no history. */
    method SignOut()
      modifies this
      ensures currentUser.None? && !isAuthenticated && transactions == []
      ensures isLoading == old(isLoading) && error == old(error) && showError == old(showError)
    {
      currentUser := None;
      isAuthenticated := false;
      transactions := [];
    }

    /** `addTransaction`: the new transaction goes in front, and a signed-in user's
        counters are bumped by its status. */
    method AddTransaction(t: Transaction)
      modifies this
      ensures transactions == [t] + old(transactions)
      ensures old(currentUser).None? ==> currentUser.None?
      ensures old(currentUser).Some? ==>
                currentUser == Some(old(currentUser).value.(statistics := Tally(old(currentUser).value.statistics, t.status)))
      ensures isAuthenticated == old(isAuthenticated) && isLoading == old(isLoading)
      ensures error == old(error) && showError == old(showError)
    {
      transactions := [t] + transactions;
      if currentUser.Some? {
        var user := currentUser.value;
        user := user.(statistics := Tally(user.statistics, t.status));
        currentUser := Some(user);
      }
    }

    /** `updateTransaction`: replace the first transaction with the same id, if any. */
    method UpdateTransaction(t: Transaction)
      modifies this
      ensures transactions == Updated(old(transactions), t)
      ensures currentUser == old(currentUser) && isAuthenticated == old(isAuthenticated)
      ensures isLoading == old(isLoading) && error == old(error) && showError == old(showError)
    {
      var index := FirstIndexWithId(transactions, t.id);
      if index.Some? {
        transactions := transactions[index.value := t];
      }
    }

    /** `clearTransactions`: the history is emptied and nothing else changes. */
    method ClearTransactions()
      modifies this
      ensures transactions == []
      ensures currentUser == old(currentUser) && isAuthenticated == old(isAuthenticated)
      ensures isLoading == old(isLoading) && error == old(error) && showError == old(showError)
    {
      transactions := [];
    }

    /** `handleError`: record the error and show it. */
    method HandleError(e: Thrown)
      modifies this
      ensures error == Some(e) && showError
      ensures currentUser == old(currentUser) && isAuthenticated == old(isAuthenticated)
      ensures isLoading == old(isLoading) && transactions == old(transactions)
    {
      error := Some(e);
      showError := true;
    }

    /** `clearError`: no error, nothing shown. */
    method ClearError()
      modifies this
      ensures error.None? && !showError
      ensures currentUser == old(currentUser) && isAuthenticated == old(isAuthenticated)
      ensures isLoading == old(isLoading) && transactions == old(transactions)
    {
      error := None;
      showError := false;
    }
  }
}
