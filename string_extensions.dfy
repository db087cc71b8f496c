/** The `String` extensions of Extensions.swift: truncation and the two validators
    that the sign-up form applies. The validators are `NSPredicate` `MATCHES` tests,
    which match an ICU regular expression against the whole string; in ICU `.`
    matches any character except a line terminator. Characters here are Unicode
    scalars. */
module StringExtensions {

  // ------------------------------------------------------------ truncated(to:trailing:)

  /** `truncated(to:trailing:)`: strings of at most `length` characters come back
      unchanged; longer ones are cut to their first `length` characters and
      `trailing` is appended. */
  function Truncated(s: string, length: nat, trailing: string := "..."): (r: string)
    ensures |s| <= length ==> r == s
    ensures |s| > length ==>
              && |r| == length + |trailing|
              && r[..length] == s[..length]
              && r[length..] == trailing
  {
    if |s| > length then s[..length] + trailing else s
  }

  /** Truncating twice to the same length changes nothing more: a truncated result
      is longer than `length`, but its first `length` characters are the same ones. */
  lemma TruncatedIdempotent(s: string, length: nat, trailing: string)
    ensures Truncated(Truncated(s, length, trailing), length, trailing) == Truncated(s, length, trailing)
  {
    if |s| > length && |trailing| > 0 {
      var t := Truncated(s, length, trailing);
      assert t[..length] == s[..length];
    }
  }

  /** A 54-character string truncated to 10 has 13 characters and ends with "...". */
  lemma TruncatedExample()
    ensures var r := Truncated("This is a very long string that needs to be truncated", 10);
            |r| == 13 && r[10..] == "..."
  {
  }

  // ------------------------------------------------------------ isValidPassword

  /** `Constants.Security.minPasswordLength`. */
  const MinPasswordLength: nat := 8

  /** The characters ICU's `.` does not match. */
  predicate IsLineTerminator(c: char)
  {
    c == '\n' || c == '\U{000B}' || c == '\U{000C}' || c == '\r'
    || c == '\U{0085}' || c == '\U{2028}' || c == '\U{2029}'
  }

  predicate NoLineTerminator(s: string)
  {
    forall k | 0 <= k < |s| :: !IsLineTerminator(s[k])
  }

  predicate IsDigit(c: char)
  {
    '0' <= c <= '9'
  }

  /** The class `[!@#$%^&*(),.?":{}|<>]`. */
  predicate IsSpecialChar(c: char)
  {
    || c == '!' || c == '@' || c == '#' || c == '$' || c == '%' || c == '^' || c == '&'
    || c == '*' || c == '(' || c == ')' || c == ',' || c == '.' || c == '?' || c == '"'
    || c == ':' || c == '{' || c == '}' || c == '|' || c == '<' || c == '>'
  }

  /** A whole-string match of `.*[C]+.*`, where `inClass` is the class `C`: some
      non-empty run of class characters with line-terminator-free text either side. */
  predicate MatchesClassRun(s: string, inClass: char -> bool)
  {
    exists i, j | 0 <= i < j <= |s| ::
      && NoLineTerminator(s[..i])
      && (forall k | i <= k < j :: inClass(s[k]))
      && NoLineTerminator(s[j..])
  }

  /** When the class holds no line terminator, `.*[C]+.*` matches exactly the strings
      free of line terminators that contain a class character. */
  lemma MatchesClassRunIff(s: string, inClass: char -> bool)
    requires forall c :: inClass(c) ==> !IsLineTerminator(c)
    ensures MatchesClassRun(s, inClass)
        <==> NoLineTerminator(s) && exists k | 0 <= k < |s| :: inClass(s[k])
  {
    if MatchesClassRun(s, inClass) {
      var i, j :| 0 <= i < j <= |s|
        && NoLineTerminator(s[..i])
        && (forall k | i <= k < j :: inClass(s[k]))
        && NoLineTerminator(s[j..]);
      assert inClass(s[i]);
      forall k | 0 <= k < |s| ensures !IsLineTerminator(s[k]) {
        if k < i {
          assert s[..i][k] == s[k];
        } else if k >= j {
          assert s[j..][k - j] == s[k];
        }
      }
    }
    if NoLineTerminator(s) && exists k | 0 <= k < |s| :: inClass(s[k]) {
      var k :| 0 <= k < |s| && inClass(s[k]);
      assert NoLineTerminator(s[..k]);
      assert NoLineTerminator(s[k + 1..]);
    }
  }

  /** `isValidPassword` with both `requireNumbers` and `requireSpecialCharacters` set:
      at least eight characters, then `.*[0-9]+.*`, then the special-character pattern. */
  predicate IsValidPassword(s: string)
  {
    && |s| >= MinPasswordLength
    && MatchesClassRun(s, IsDigit)
    && MatchesClassRun(s, IsSpecialChar)
  }

  /** The password rule in plain terms. A line terminator anywhere makes the patterns
      fail, since `.` does not cross it. */
  lemma PasswordRule(s: string)
    ensures IsValidPassword(s) <==>
              && |s| >= 8
              && NoLineTerminator(s)
              && (exists k | 0 <= k < |s| :: IsDigit(s[k]))
              && (exists k | 0 <= k < |s| :: IsSpecialChar(s[k]))
  {
    MatchesClassRunIff(s, IsDigit);
    MatchesClassRunIff(s, IsSpecialChar);
  }

  lemma PasswordAccepted()
    ensures IsValidPassword("Password123!")
  {
    var good := "Password123!";
    PasswordRule(good);
    assert IsDigit(good[8]) && IsSpecialChar(good[11]);
  }

  lemma ShortPasswordRejected()
    ensures !IsValidPassword("short")
  {
  }

  lemma PasswordWithoutDigitRejected()
    ensures !IsValidPassword("NoNumbers!")
  {
    var p := "NoNumbers!";
    assert forall k | 0 <= k < |p| :: !IsDigit(p[k]);
    PasswordRule(p);
  }

  lemma PasswordWithoutSpecialRejected()
    ensures !IsValidPassword("NoSpecial123")
  {
    var p := "NoSpecial123";
    assert forall k | 0 <= k < |p| :: IsAsciiLetter(p[k]) || IsDigit(p[k]);
    assert forall c :: IsAsciiLetter(c) || IsDigit(c) ==> !IsSpecialChar(c);
    PasswordRule(p);
  }

  /** A line terminator defeats both patterns. */
  lemma PasswordWithNewlineRejected()
    ensures !IsValidPassword("Password123!\n")
  {
    var broken := "Password123!\n";
    PasswordRule(broken);
    assert IsLineTerminator(broken[12]);
  }

  // ------------------------------------------------------------ isValidEmail

  predicate IsAsciiLetter(c: char)
  {
    'A' <= c <= 'Z' || 'a' <= c <= 'z'
  }

  /** The class `[A-Z0-9a-z._%+-]`. */
  predicate IsLocalChar(c: char)
  {
    IsAsciiLetter(c) || IsDigit(c) || c == '.' || c == '_' || c == '%' || c == '+' || c == '-'
  }

  /** The class `[A-Za-z0-9.-]`. */
  predicate IsDomainChar(c: char)
  {
    IsAsciiLetter(c) || IsDigit(c) || c == '.' || c == '-'
  }

  predicate IsLocalPart(x: string)
  {
    |x| > 0 && forall k | 0 <= k < |x| :: IsLocalChar(x[k])
  }

  predicate IsDomainPart(x: string)
  {
    |x| > 0 && forall k | 0 <= k < |x| :: IsDomainChar(x[k])
  }

  /** `[A-Za-z]{2,64}`. */
  predicate IsTopLevelDomain(x: string)
  {
    2 <= |x| <= 64 && forall k | 0 <= k < |x| :: IsAsciiLetter(x[k])
  }

  /** `isValidEmail`: the whole string matches `[A-Z0-9a-z._%+-]+@[A-Za-z0-9.-]+\.[A-Za-z]{2,64}`,
      that is, it splits at an `@` (index `a`) and a later `.` (index `d`) into a local
      part, a domain part and a top-level domain. */
  predicate IsValidEmail(s: string)
  {
    exists a, d | 0 <= a < d < |s| ::
      && s[a] == '@' && s[d] == '.'
      && IsLocalPart(s[..a])
      && IsDomainPart(s[a + 1..d])
      && IsTopLevelDomain(s[d + 1..])
  }

  /** Index of the first `c` in `s`, or -1. */
  function FirstIndexOf(s: string, c: char): (r: int)
    ensures -1 <= r < |s|
    ensures r >= 0 ==> s[r] == c && forall k | 0 <= k < r :: s[k] != c
    ensures r == -1 ==> forall k | 0 <= k < |s| :: s[k] != c
  {
    if |s| == 0 then -1
    else if s[0] == c then 0
    else
      var t := FirstIndexOf(s[1..], c);
      assert forall k | 1 <= k < |s| :: s[k] == s[1..][k - 1];
      if t < 0 then -1 else t + 1
  }

  /** Index of the last `c` in `s`, or -1. */
  function LastIndexOf(s: string, c: char): (r: int)
    ensures -1 <= r < |s|
    ensures r >= 0 ==> s[r] == c && forall k | r < k < |s| :: s[k] != c
    ensures r == -1 ==> forall k | 0 <= k < |s| :: s[k] != c
  {
    if |s| == 0 then -1
    else if s[|s| - 1] == c then |s| - 1
    else
      var t := LastIndexOf(s[..|s| - 1], c);
      assert forall k | 0 <= k < |s| - 1 :: s[k] == s[..|s| - 1][k];
      t
  }

  /** A deterministic reading of the email pattern: split at the first `@` and the
      last `.`. */
  predicate EmailSplitsAtFirstAtAndLastDot(s: string)
  {
    var a := FirstIndexOf(s, '@');
    var d := LastIndexOf(s, '.');
    && 0 <= a < d
    && IsLocalPart(s[..a])
    && IsDomainPart(s[a + 1..d])
    && IsTopLevelDomain(s[d + 1..])
  }

  /** None of the three classes holds `@`, and the top-level domain holds no `.`, so a
      match can only split at the first `@` and the last `.`: the pattern and the
      deterministic reading accept the same strings. */
  lemma EmailPatternIsDeterministic(s: string)
    ensures IsValidEmail(s) <==> EmailSplitsAtFirstAtAndLastDot(s)
  {
    if IsValidEmail(s) {
      var a, d :| 0 <= a < d < |s|
        && s[a] == '@' && s[d] == '.'
        && IsLocalPart(s[..a])
        && IsDomainPart(s[a + 1..d])
        && IsTopLevelDomain(s[d + 1..]);
      forall k | 0 <= k < a ensures s[k] != '@' {
        assert s[..a][k] == s[k];
      }
      forall k | d < k < |s| ensures s[k] != '.' {
        assert s[d + 1..][k - d - 1] == s[k];
      }
      var fa := FirstIndexOf(s, '@');
      var ld := LastIndexOf(s, '.');
      assert fa == a;
      assert ld == d;
    }
  }

  /** A valid address has exactly one `@`, does not start with it, and ends in a letter. */
  lemma EmailShape(s: string)
    requires IsValidEmail(s)
    ensures s[0] != '@' && IsAsciiLetter(s[|s| - 1])
    ensures forall a1, a2 | 0 <= a1 < a2 < |s| :: !(s[a1] == '@' && s[a2] == '@')
  {
    var a, d :| 0 <= a < d < |s|
      && s[a] == '@' && s[d] == '.'
      && IsLocalPart(s[..a])
      && IsDomainPart(s[a + 1..d])
      && IsTopLevelDomain(s[d + 1..]);
    assert s[..a][0] == s[0];
    var tld := s[d + 1..];
    assert tld[|tld| - 1] == s[|s| - 1];
    forall k | 0 <= k < |s| && k != a ensures s[k] != '@' {
      if k < a {
        assert s[..a][k] == s[k];
      } else if k < d {
        assert s[a + 1..d][k - a - 1] == s[k];
      } else if k > d {
        assert tld[k - d - 1] == s[k];
      }
    }
  }

  lemma SimpleEmailAccepted()
    ensures IsValidEmail("test@example.com")
  {
    var e := "test@example.com";
    assert IsLocalPart(e[..4]);
    assert IsDomainPart(e[5..12]);
    assert IsTopLevelDomain(e[13..]);
    assert e[4] == '@' && e[12] == '.';
  }

  lemma TaggedEmailAccepted()
    ensures IsValidEmail("user.name+tag@example.co.uk")
  {
    var e := "user.name+tag@example.co.uk";
    assert IsLocalPart(e[..13]);
    assert IsDomainPart(e[14..24]);
    assert IsTopLevelDomain(e[25..]);
    assert e[13] == '@' && e[24] == '.';
  }

  /** No `@`, an empty local part, and an empty domain part. */
  lemma EmailsRejected()
    ensures !IsValidEmail("invalid-email")
    ensures !IsValidEmail("@example.com")
    ensures !IsValidEmail("test@.com")
  {
    var e3 := "invalid-email";
    assert forall k | 0 <= k < |e3| :: e3[k] != '@';
    var e4 := "@example.com";
    assert forall k | 0 < k < |e4| :: e4[k] != '@';
    var e5 := "test@.com";
    assert forall k | 0 <= k < |e5| && k != 4 :: e5[k] != '@';
    assert forall k | 0 <= k < |e5| && k != 5 :: e5[k] != '.';
  }
}
