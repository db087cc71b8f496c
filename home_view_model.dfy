/** HomeViewModel.swift: the dashboard, which shows the ten newest transactions and
    statistics computed from the whole history. */
module Dashboard {
  import opened Wrappers
  import opened Responses
  import opened Transactions
  import opened ApplicationState

  datatype DashboardStatistics = DashboardStatistics(
    totalTransactions: int,
    completedTransactions: int,
    failedTransactions: int,
    successRate: real,
    averageResponseTime: real)

  /** How many transactions the dashboard lists. */
  const RecentLimit: nat := 10

  /** `Array(transactions.prefix(10))`. */
  function Recent(ts: seq<Transaction>): (r: seq<Transaction>)
    ensures |r| == if |ts| < RecentLimit then |ts| else RecentLimit
    ensures forall i | 0 <= i < |r| :: r[i] == ts[i]
  {
    if |ts| < RecentLimit then ts else ts[..RecentLimit]
  }

  /** Taking the ten newest of the ten newest changes nothing, and an empty history
      lists nothing. */
  lemma RecentIdempotent(ts: seq<Transaction>)
    ensures Recent(Recent(ts)) == Recent(ts)
    ensures Recent([]) == []
  {
  }

  /** `filter { $0.status == .completed }`. */
  function CompletedOnes(ts: seq<Transaction>): (r: seq<Transaction>)
    ensures |r| == CountWithStatus(ts, Completed)
    ensures forall i | 0 <= i < |r| :: r[i].status == Completed
  {
    if |ts| == 0 then []
    else if ts[0].status == Completed then [ts[0]] + CompletedOnes(ts[1..])
    else CompletedOnes(ts[1..])
  }

  /** The filter keeps every completed transaction of the history, as often as it occurs,
      and nothing else. */
  lemma {:induction false} CompletedOnesContents(ts: seq<Transaction>)
    ensures forall t :: multiset(CompletedOnes(ts))[t] ==
                        (if t.status == Completed then multiset(ts)[t] else 0)
  {
    if |ts| > 0 {
      CompletedOnesContents(ts[1..]);
      assert ts == [ts[0]] + ts[1..];
      assert multiset(ts) == multiset([ts[0]]) + multiset(ts[1..]);
      if ts[0].status == Completed {
        assert multiset(CompletedOnes(ts)) == multiset([ts[0]]) + multiset(CompletedOnes(ts[1..]));
      }
    }
  }

  /** `compactMap { $0.duration }.reduce(0, +)`: transactions without a duration add
      nothing. */
  function TotalDuration(ts: seq<Transaction>): real
  {
    if |ts| == 0 then 0.0
    else
      (match Duration(ts[0]) case None => 0.0 case Some(d) => d) + TotalDuration(ts[1..])
  }

  /** `total / Double(count)`; 0 for a zero count. */
  function Mean(total: real, count: nat): (m: real)
    ensures count == 0 ==> m == 0.0
    ensures count > 0 ==> m * (count as real) == total
    ensures count > 0 && 0.0 <= total ==> 0.0 <= m
  {
    if count == 0 then 0.0 else total / (count as real)
  }

  /** A mean of a total within [0, bound] per item is within [0, bound]. */
  lemma MeanBounds(total: real, count: nat, bound: real)
    requires count > 0 && 0.0 <= total <= bound * (count as real)
    ensures 0.0 <= Mean(total, count) <= bound
  {
  }

  lemma ScaledMean(part: nat, whole: nat)
    requires whole > 0
    ensures Mean(part as real, whole) * 100.0 * (whole as real) == (part as real) * 100.0
    ensures part <= whole ==> 0.0 <= Mean(part as real, whole) * 100.0 <= 100.0
  {
    var m := Mean(part as real, whole);
    assert (m * 100.0) * (whole as real) == (m * (whole as real)) * 100.0;
    if part <= whole {
      MeanBounds(part as real, whole, 1.0);
    }
  }

  /** `p` is `part` as a percentage of `whole`, and 0 for an empty whole. */
  predicate IsPercentage(p: real, part: nat, whole: nat)
  {
    && (whole == 0 ==> p == 0.0)
    && (whole > 0 ==> p * (whole as real) == (part as real) * 100.0)
    && (part <= whole ==> 0.0 <= p <= 100.0)
  }

  /** `avg` is `total` spread over `count` items, and 0 for no items. */
  predicate IsMean(avg: real, total: real, count: nat)
  {
    && (count == 0 ==> avg == 0.0)
    && (count > 0 ==> avg * (count as real) == total)
  }

  /** `whole > 0 ? Double(part) / Double(whole) * 100 : 0`. */
  function Percentage(part: nat, whole: nat): (p: real)
    ensures IsPercentage(p, part, whole)
  {
    if whole > 0 then
      ScaledMean(part, whole);
      Mean(part as real, whole) * 100.0
    else 0.0
  }

  /** `calculateAverageResponseTime`: the summed durations of the completed
      transactions over their number; 0 when none is completed. */
  function AverageResponseTime(ts: seq<Transaction>): (avg: real)
    ensures IsMean(avg, TotalDuration(CompletedOnes(ts)), CountWithStatus(ts, Completed))
  {
    var completed := CompletedOnes(ts);
    Mean(TotalDuration(completed), |completed|)
  }

  /** `bound` added `n` times; the product `bound * n` without a multiplication. */
  function Budget(bound: real, n: nat): real
  {
    if n == 0 then 0.0 else bound + Budget(bound, n - 1)
  }

  lemma {:induction false} BudgetIsProduct(bound: real, n: nat)
    ensures Budget(bound, n) == bound * (n as real)
  {
    if n > 0 {
      BudgetIsProduct(bound, n - 1);
      assert bound * (n as real) == bound * ((n - 1) as real) + bound;
    }
  }

  /** With every completed transaction's duration in [0, bound], the summed durations
      of the completed ones are at most `bound` per completed transaction. */
  lemma {:induction false} CompletedTotalBounds(ts: seq<Transaction>, bound: real)
    requires forall i | 0 <= i < |ts| :: ts[i].status == Completed && Duration(ts[i]).Some?
                                         ==> 0.0 <= Duration(ts[i]).value <= bound
    requires bound >= 0.0
    ensures 0.0 <= TotalDuration(CompletedOnes(ts)) <= Budget(bound, |CompletedOnes(ts)|)
  {
    if |ts| > 0 {
      var rest := CompletedOnes(ts[1..]);
      CompletedTotalBounds(ts[1..], bound);
      if ts[0].status == Completed {
        assert CompletedOnes(ts) == [ts[0]] + rest;
        assert ([ts[0]] + rest)[1..] == rest;
      } else {
        assert CompletedOnes(ts) == rest;
      }
    }
  }

  /** With every completed transaction's duration between 0 and `bound`, the average
      is too. */
  lemma AverageResponseTimeBounds(ts: seq<Transaction>, bound: real)
    requires forall i | 0 <= i < |ts| :: ts[i].status == Completed && Duration(ts[i]).Some?
                                         ==> 0.0 <= Duration(ts[i]).value <= bound
    requires bound >= 0.0
    ensures 0.0 <= AverageResponseTime(ts) <= bound
  {
    var completed := CompletedOnes(ts);
    CompletedTotalBounds(ts, bound);
    BudgetIsProduct(bound, |completed|);
    if |completed| > 0 {
      MeanBounds(TotalDuration(completed), |completed|, bound);
    }
  }

  /** A completed transaction without a completion time still counts in the
      denominator: durations 4 and none average to 2. */
  lemma MissingDurationLowersAverage(a: Transaction, b: Transaction)
    requires a.status == Completed && a.completedAt == Some(a.createdAt + 4.0)
    requires b.status == Completed && b.completedAt.None?
    ensures AverageResponseTime([a, b]) == 2.0
  {
    assert [a, b][1..] == [b];
    assert CompletedOnes([a, b]) == [a, b];
    assert TotalDuration([a, b]) == 4.0 + TotalDuration([b]);
  }

  /** The statistics `calculateStatistics` publishes for a history: the counts agree
      with the history, completed and failed never outnumber the total, the success
      rate is the completed share in percent (0 for an empty history), and the average
      response time spreads the completed transactions' durations over their number. */
  function StatisticsOf(ts: seq<Transaction>): (s: DashboardStatistics)
    ensures s.totalTransactions == |ts|
    ensures s.completedTransactions == CountWithStatus(ts, Completed)
    ensures s.failedTransactions == CountWithStatus(ts, Failed)
    ensures s.completedTransactions + s.failedTransactions <= s.totalTransactions
    ensures IsPercentage(s.successRate, s.completedTransactions, s.totalTransactions)
    ensures 0.0 <= s.successRate <= 100.0
    ensures IsMean(s.averageResponseTime, TotalDuration(CompletedOnes(ts)), s.completedTransactions)
  {
    CompletedAndFailedWithinTotal(ts);
    var total := |ts|;
    var completed := CountWithStatus(ts, Completed);
    var rate := Percentage(completed, total);
    var average := AverageResponseTime(ts);
    DashboardStatistics(total, completed, CountWithStatus(ts, Failed), rate, average)
  }

  class HomeViewModel {
    var recentTransactions: seq<Transaction>
    var isLoading: bool
    var error: Option<Thrown>
    var statistics: Option<DashboardStatistics>
    const appState: AppState

    constructor(appState: AppState)
      ensures this.appState == appState
      ensures recentTransactions == [] && !isLoading && error.None? && statistics.None?
    {
      this.appState := appState;
      recentTransactions := [];
      isLoading := false;
      error := None;
      statistics := None;
    }

    /** `loadDashboard`. Nothing in its `do` block throws, so `error` never changes. */
    method LoadDashboard()
      modifies this
      ensures recentTransactions == Recent(appState.transactions)
      ensures appState.currentUser.None? ==> statistics == old(statistics)
      ensures appState.currentUser.Some? ==> statistics == Some(StatisticsOf(appState.transactions))
      ensures !isLoading && error == old(error)
    {
      isLoading := true;
      recentTransactions := Recent(appState.transactions);
      CalculateStatistics();
      isLoading := false;
    }

    /** `refreshData`: loading the dashboard again. */
    method RefreshData()
      modifies this
      ensures recentTransactions == Recent(appState.transactions)
      ensures appState.currentUser.None? ==> statistics == old(statistics)
      ensures appState.currentUser.Some? ==> statistics == Some(StatisticsOf(appState.transactions))
      ensures !isLoading && error == old(error)
    {
      LoadDashboard();
    }

    /** `calculateStatistics`: without a signed-in user nothing is computed. */
    method CalculateStatistics()
      modifies this
      ensures appState.currentUser.None? ==> statistics == old(statistics)
      ensures appState.currentUser.Some? ==> statistics == Some(StatisticsOf(appState.transactions))
      ensures recentTransactions == old(recentTransactions) && isLoading == old(isLoading) && error == old(error)
    {
      if appState.currentUser.None? {
        return;
      }
      var transactions := appState.transactions;
      var totalTransactions := |transactions|;
      var completedTransactions := CountWithStatus(transactions, Completed);
      var failedTransactions := CountWithStatus(transactions, Failed);
      var averageResponseTime := AverageResponseTime(transactions);
      statistics := Some(DashboardStatistics(
        totalTransactions,
        completedTransactions,
        failedTransactions,
        Percentage(completedTransactions, totalTransactions),
        averageResponseTime));
    }
  }
}
