/** The configuration constants of the service (api/consts.py). Times are
    integer seconds throughout the model; a number of days is converted with
    `Days`. */
module Consts {

  const SHORT_URL_LENGTH: nat := 7

  const DIGITS: string := "0123456789"
  const ASCII_LOWERCASE: string := "abcdefghijklmnopqrstuvwxyz"
  const ASCII_UPPERCASE: string := "ABCDEFGHIJKLMNOPQRSTUVWXYZ"
  const ASCII_LETTERS: string := ASCII_LOWERCASE + ASCII_UPPERCASE

  /** The alphabet of short keys: the digits followed by the ASCII letters. */
  const ALLOWED_CHARACTERS: string := DIGITS + ASCII_LETTERS

  const DEFAULT_EXPIRATION_PERIOD_DAYS: int := 90
  const MAX_RETRIES_FOR_URL_CLASH: int := 10
  const DEFAULT_GRACE_PERIOD_DAYS: int := 5
  const DEFAULT_EXPIRED_URLS_ITERATION_BATCH_SIZE: int := 1000

  const SECONDS_PER_DAY: int := 86400

  /** A duration of `d` days (`timedelta(days=d)`), in seconds. */
  function Days(d: int): int {
    d * SECONDS_PER_DAY
  }

  predicate IsAsciiAlphanumeric(c: char) {
    '0' <= c <= '9' || 'a' <= c <= 'z' || 'A' <= c <= 'Z'
  }

  /** The character at position `i` of the alphabet, by arithmetic on code points. */
  function AlphabetAt(i: nat): (c: char)
    requires i < 62
    ensures IsAsciiAlphanumeric(c)
  {
    if i < 10 then ('0' as int + i) as char
    else if i < 36 then ('a' as int + (i - 10)) as char
    else ('A' as int + (i - 36)) as char
  }

  /** The position of an alphanumeric character in the alphabet. */
  function AlphabetIndex(c: char): (i: nat)
    requires IsAsciiAlphanumeric(c)
    ensures i < 62 && AlphabetAt(i) == c
  {
    if '0' <= c <= '9' then c as int - '0' as int
    else if 'a' <= c <= 'z' then 10 + (c as int - 'a' as int)
    else 36 + (c as int - 'A' as int)
  }

  /** A short key: exactly `SHORT_URL_LENGTH` characters of the alphabet,
      which are the ASCII letters and digits (`AlphabetFacts`). */
  predicate IsShortKey(k: string) {
    |k| == SHORT_URL_LENGTH && AllAlphanumeric(k)
  }

  /** Every character of `s` is an ASCII letter or digit. */
  predicate AllAlphanumeric(s: string) {
    s == [] || (IsAsciiAlphanumeric(s[0]) && AllAlphanumeric(s[1..]))
  }

  /** `AllAlphanumeric` holds exactly when it holds at every position. */
  lemma {:induction false} AllAlphanumericAt(s: string)
    ensures AllAlphanumeric(s) <==> forall i :: 0 <= i < |s| ==> IsAsciiAlphanumeric(s[i])
  {
    if s != [] {
      AllAlphanumericAt(s[1..]);
      assert forall i :: 1 <= i < |s| ==> s[i] == s[1..][i - 1];
    }
  }

  /** The alphabet has 62 characters, laid out digits, lower case, upper case. */
  lemma AlphabetLayout()
    ensures |ALLOWED_CHARACTERS| == 62
    ensures forall i :: 0 <= i < 62 ==> ALLOWED_CHARACTERS[i] == AlphabetAt(i)
  {
    assert forall i :: 0 <= i < 10 ==> DIGITS[i] == AlphabetAt(i);
    assert forall i :: 0 <= i < 26 ==> ASCII_LOWERCASE[i] == AlphabetAt(i + 10);
    assert forall i :: 0 <= i < 26 ==> ASCII_UPPERCASE[i] == AlphabetAt(i + 36);
  }

  /** The alphabet has no repeated character, and its members are exactly the
      ASCII letters and digits (so no whitespace and no line break). */
  lemma AlphabetFacts()
    ensures |ALLOWED_CHARACTERS| == 62
    ensures forall i, j :: 0 <= i < j < |ALLOWED_CHARACTERS| ==> ALLOWED_CHARACTERS[i] != ALLOWED_CHARACTERS[j]
    ensures forall c :: c in ALLOWED_CHARACTERS <==> IsAsciiAlphanumeric(c)
  {
    AlphabetLayout();
    forall i, j | 0 <= i < j < 62
      ensures ALLOWED_CHARACTERS[i] != ALLOWED_CHARACTERS[j]
    {
      assert AlphabetIndex(AlphabetAt(i)) == i;
      assert AlphabetIndex(AlphabetAt(j)) == j;
    }
    forall c: char
      ensures c in ALLOWED_CHARACTERS <==> IsAsciiAlphanumeric(c)
    {
      if IsAsciiAlphanumeric(c) {
        assert ALLOWED_CHARACTERS[AlphabetIndex(c)] == c;
      }
    }
  }

  /** Every configured bound is positive; the retry bound passes the retry
      decorator's guard `retries >= 1`. */
  lemma ConfigurationIsPositive()
    ensures MAX_RETRIES_FOR_URL_CLASH >= 1
    ensures DEFAULT_GRACE_PERIOD_DAYS > 0 && DEFAULT_EXPIRED_URLS_ITERATION_BATCH_SIZE > 0
    ensures DEFAULT_EXPIRATION_PERIOD_DAYS > 0 && Days(DEFAULT_EXPIRATION_PERIOD_DAYS) > 0
  {
  }
}
