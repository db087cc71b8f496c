/** User.swift: the user record, preferences with their defaults, the theme
    enumeration and the per-user statistics with their success rate. */
module Users {
  import opened Wrappers
  import opened Encodings

  datatype AppTheme = Light | Dark | System

  const AllThemes: seq<AppTheme> := [Light, Dark, System]

  function ThemeRawValue(t: AppTheme): string
  {
    match t
    case Light => "light"
    case Dark => "dark"
    case System => "system"
  }

  /** `allCases` lists the three themes once each, and their raw values differ. */
  lemma ThemeCases(t: AppTheme, u: AppTheme)
    ensures |AllThemes| == 3 && t in AllThemes
    ensures AllThemes[0] != AllThemes[1] && AllThemes[1] != AllThemes[2] && AllThemes[0] != AllThemes[2]
    ensures ThemeRawValue(t) == ThemeRawValue(u) ==> t == u
  {
  }

  datatype UserPreferences = UserPreferences(
    enableNotifications: bool,
    enableBiometrics: bool,
    theme: AppTheme,
    language: string)

  /** `UserPreferences()` with every default. */
  const DefaultPreferences: UserPreferences := UserPreferences(true, false, System, "en")

  lemma DefaultPreferencesValues()
    ensures DefaultPreferences.enableNotifications && !DefaultPreferences.enableBiometrics
    ensures DefaultPreferences.theme == System && DefaultPreferences.language == "en"
  {
  }

  /** `UserStatistics`; the counters are Swift `Int`s. */
  datatype UserStatistics = UserStatistics(
    totalTransactions: int,
    successfulTransactions: int,
    failedTransactions: int,
    totalApiCalls: int,
    averageResponseTime: real)

  /** `UserStatistics()` with every default. */
  const DefaultStatistics: UserStatistics := UserStatistics(0, 0, 0, 0, 0.0)

  /** `successRate`: 0 without transactions, else the successful percentage. */
  function SuccessRate(s: UserStatistics): real
  {
    if s.totalTransactions > 0 then
      (s.successfulTransactions as real) / (s.totalTransactions as real) * 100.0
    else 0.0
  }

  /** The success rate is zero for no transactions, otherwise the percentage that,
      times the total, gives a hundred times the successes; with consistent counters
      it lies between 0 and 100. */
  lemma SuccessRateMeaning(s: UserStatistics)
    ensures s.totalTransactions <= 0 ==> SuccessRate(s) == 0.0
    ensures s.totalTransactions > 0
        ==> SuccessRate(s) * (s.totalTransactions as real) == (s.successfulTransactions as real) * 100.0
    ensures 0 <= s.successfulTransactions <= s.totalTransactions ==> 0.0 <= SuccessRate(s) <= 100.0
  {
    if s.totalTransactions > 0 {
      var q := (s.successfulTransactions as real) / (s.totalTransactions as real);
      assert q * (s.totalTransactions as real) == s.successfulTransactions as real;
      if 0 <= s.successfulTransactions <= s.totalTransactions {
        assert 0.0 <= q <= 1.0;
      }
    }
  }

  /** 85 successes out of 100 give 85; with the total reset to 0 the rate is 0. */
  lemma SuccessRateExamples()
    ensures SuccessRate(UserStatistics(100, 85, 15, 0, 0.0)) == 85.0
    ensures SuccessRate(UserStatistics(0, 85, 15, 0, 0.0)) == 0.0
    ensures SuccessRate(DefaultStatistics) == 0.0
  {
  }

  datatype User = User(
    id: Uuid,
    username: string,
    email: string,
    fullName: string,
    profileImageURL: Option<string>,
    apiKey: string,
    createdAt: Time,
    lastLoginAt: Option<Time>,
    preferences: UserPreferences,
    statistics: UserStatistics)
}
