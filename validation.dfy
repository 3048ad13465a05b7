/**
 * Input validators (src/utils/validation.ts): trimming, journal entries,
 * `HH:MM` times and e-mail addresses. Each regular expression is written out
 * as a predicate over the characters of the string.
 */
module Validation {
  import opened Common

  /** The characters `String.prototype.trim` removes and `\s` matches in JavaScript. */
  predicate IsWhitespace(c: char) {
    var n := c as int;
    (9 <= n <= 13) || n == 32 || n == 0xA0 || n == 0x1680 || (0x2000 <= n <= 0x200A)
    || n == 0x2028 || n == 0x2029 || n == 0x202F || n == 0x205F || n == 0x3000 || n == 0xFEFF
  }

  /** Drops the leading whitespace: the result is the suffix that starts at the first other character. */
  function TrimStart(s: string): (t: string)
    ensures |t| <= |s| && t == s[|s| - |t|..]
    ensures forall k :: 0 <= k < |s| - |t| ==> IsWhitespace(s[k])
    ensures t == [] || !IsWhitespace(t[0])
  {
    if s == [] || !IsWhitespace(s[0]) then s else TrimStart(s[1..])
  }

  /** Drops the trailing whitespace: the result is the prefix that ends at the last other character. */
  function TrimEnd(s: string): (t: string)
    ensures |t| <= |s| && t == s[..|t|]
    ensures forall k :: |t| <= k < |s| ==> IsWhitespace(s[k])
    ensures t == [] || !IsWhitespace(t[|t| - 1])
  {
    if s == [] || !IsWhitespace(s[|s| - 1]) then s else TrimEnd(s[..|s| - 1])
  }

  /** `text.trim()`. */
  function Trim(s: string): string {
    TrimEnd(TrimStart(s))
  }

  lemma TrimmedEnds(s: string)
    ensures Trim(s) == [] || (!IsWhitespace(Trim(s)[0]) && !IsWhitespace(Trim(s)[|Trim(s)| - 1]))
  {
    var u := TrimStart(s);
    var t := TrimEnd(u);
    if t != [] {
      assert t[0] == u[0];
    }
  }

  /** Trimming twice is trimming once. */
  lemma {:induction false} TrimIdempotent(s: string)
    ensures Trim(Trim(s)) == Trim(s)
  {
    var t := Trim(s);
    TrimmedEnds(s);
    var u := TrimStart(t);
    if |u| < |t| {
      assert IsWhitespace(t[0]);
    }
    assert u == t;
  }

  function JournalMinLength(): nat { 10 }

  /**
   * At least ten UTF-16 code units once trimmed (JavaScript's `length`),
   * and ending in `.`, `!` or `?`.
   */
  predicate IsValidJournalEntry(text: string) {
    var trimmed := Trim(text);
    if Utf16Length(trimmed) < JournalMinLength() then false
    else trimmed[|trimmed| - 1] in {'.', '!', '?'}
  }

  /** Whitespace around the entry never changes the verdict. */
  lemma JournalIgnoresSurroundingWhitespace(text: string)
    ensures IsValidJournalEntry(Trim(text)) == IsValidJournalEntry(text)
  {
    TrimIdempotent(text);
  }

  lemma ShortJournalIsInvalid(text: string)
    requires Utf16Length(Trim(text)) < 10
    ensures !IsValidJournalEntry(text)
  {
  }

  predicate IsDigit(c: char) {
    '0' <= c <= '9'
  }

  /** `/^([01]\d|2[0-3]):[0-5]\d$/`. */
  predicate IsValidTime(time: string) {
    && |time| == 5
    && ((time[0] in {'0', '1'} && IsDigit(time[1])) || (time[0] == '2' && '0' <= time[1] <= '3'))
    && time[2] == ':'
    && '0' <= time[3] <= '5'
    && IsDigit(time[4])
  }

  function DigitValue(c: char): int {
    c as int - '0' as int
  }

  /** A number below 100 as two digits, zero-padded. */
  function TwoDigits(n: nat): (s: string)
    requires n < 100
    ensures |s| == 2 && IsDigit(s[0]) && IsDigit(s[1])
    ensures DigitValue(s[0]) * 10 + DigitValue(s[1]) == n
  {
    [((n / 10) + '0' as int) as char, ((n % 10) + '0' as int) as char]
  }

  function TimeText(hour: nat, minute: nat): string
    requires hour < 100 && minute < 100
  {
    TwoDigits(hour) + ":" + TwoDigits(minute)
  }

  /** `time.split(':').map(Number)` for a time the validator accepts. */
  function ParseTime(time: string): (hm: (int, int))
    requires IsValidTime(time)
    ensures 0 <= hm.0 < 24 && 0 <= hm.1 < 60
    ensures TimeText(hm.0, hm.1) == time
  {
    var h := DigitValue(time[0]) * 10 + DigitValue(time[1]);
    var m := DigitValue(time[3]) * 10 + DigitValue(time[4]);
    assert TwoDigits(h) == time[..2];
    assert TwoDigits(m) == time[3..];
    (h, m)
  }

  /** Every hour 00..23 and minute 00..59 is accepted, and parses back to itself. */
  lemma {:induction false} TimeTextRoundTrip(hour: nat, minute: nat)
    requires hour < 24 && minute < 60
    ensures IsValidTime(TimeText(hour, minute))
    ensures ParseTime(TimeText(hour, minute)) == (hour, minute)
  {
    var s := TimeText(hour, minute);
    assert s[0] == TwoDigits(hour)[0] && s[1] == TwoDigits(hour)[1];
    assert s[3] == TwoDigits(minute)[0] && s[4] == TwoDigits(minute)[1];
  }

  lemma RejectedTimes()
    ensures !IsValidTime("24:00") && !IsValidTime("7:00") && !IsValidTime("12:60")
    ensures IsValidTime("00:00") && IsValidTime("23:59")
  {
  }

  /** A character of a local part or domain label: not whitespace and not `@`. */
  predicate IsAddressChar(c: char) {
    !IsWhitespace(c) && c != '@'
  }

  /**
   * What `/^[^\s@]+@[^\s@]+\.[^\s@]+$/` matches: one `@` at an index `at > 0`,
   * no whitespace and no other `@`, and a `.` at an index `dot` with at least
   * one character between `@` and `.` and at least one after the `.`.
   */
  ghost predicate MatchesEmailPattern(email: string) {
    exists at, dot :: 0 < at && at + 2 <= dot && dot + 2 <= |email| && email[at] == '@' && email[dot] == '.'
      && forall k :: 0 <= k < |email| && k != at ==> IsAddressChar(email[k])
  }

  /** The first index of `c` in `s`, or `|s|` when there is none. */
  function IndexOf(s: string, c: char): (i: nat)
    ensures i <= |s|
    ensures i < |s| ==> s[i] == c
    ensures forall k :: 0 <= k < i ==> s[k] != c
  {
    if s == [] then 0
    else if s[0] == c then 0
    else 1 + IndexOf(s[1..], c)
  }

  predicate NoWhitespace(s: string) {
    forall k :: 0 <= k < |s| ==> !IsWhitespace(s[k])
  }

  /** `isValidEmail`: the address check, decided by scanning for the `@` and the `.`. */
  predicate IsValidEmail(email: string) {
    var at := IndexOf(email, '@');
    && NoWhitespace(email)
    && 0 < at && at + 3 <= |email|
    && '@' !in email[at + 1..]
    && '.' in email[at + 2..|email| - 1]
  }

  lemma {:induction false} EmailCheckMatchesPattern(email: string)
    ensures IsValidEmail(email) <==> MatchesEmailPattern(email)
  {
    var at := IndexOf(email, '@');
    if IsValidEmail(email) {
      var tail := email[at + 2..|email| - 1];
      var j :| 0 <= j < |tail| && tail[j] == '.';
      var dot := at + 2 + j;
      assert email[dot] == '.';
      forall k | 0 <= k < |email| && k != at ensures IsAddressChar(email[k]) {
        if k > at {
          assert email[k] == email[at + 1..][k - at - 1];
        }
      }
    }
    if MatchesEmailPattern(email) {
      var a, d :| 0 < a && a + 2 <= d && d + 2 <= |email| && email[a] == '@' && email[d] == '.'
        && forall k :: 0 <= k < |email| && k != a ==> IsAddressChar(email[k]);
      assert at == a;
      assert email[at + 2..|email| - 1][d - at - 2] == '.';
    }
  }
}
