/**
 * The JavaScript string built-ins and regular expressions the form validators rely on:
 * the white-space class `\s` and `String.prototype.trim`, the character classes
 * `[a-z]`, `[A-Z]`, `\d` and `[^a-zA-Z\d]`, `replace(/\D/g, '')`, the e-mail pattern
 * `^[^\s@]+@[^\s@]+\.[^\s@]+$` and the look-ahead `^(?=.*[a-z])`.
 * Strings are sequences of code points.
 */
module JsStrings {
  import opened Wrappers

  /** JavaScript truthiness of an optional string: present and not empty. */
  predicate Truthy(s: Option<string>) {
    s.Some? && s.value != ""
  }

  /** ECMAScript WhiteSpace and LineTerminator code points: what `\s` matches and `trim` removes. */
  predicate IsSpace(c: char) {
    || c == '\t' || c == '\n' || c == '\U{000B}' || c == '\U{000C}' || c == '\r' || c == ' '
    || c == '\U{00A0}' || c == '\U{1680}' || ('\U{2000}' <= c <= '\U{200A}')
    || c == '\U{2028}' || c == '\U{2029}' || c == '\U{202F}' || c == '\U{205F}'
    || c == '\U{3000}' || c == '\U{FEFF}'
  }

  /** ECMAScript LineTerminator code points: what `.` in a regular expression does not match. */
  predicate IsLineTerminator(c: char) {
    c == '\n' || c == '\r' || c == '\U{2028}' || c == '\U{2029}'
  }

  predicate NoSpace(s: string) {
    forall i | 0 <= i < |s| :: !IsSpace(s[i])
  }

  predicate AllSpace(s: string) {
    forall i | 0 <= i < |s| :: IsSpace(s[i])
  }

  datatype CharClass = Lower | Upper | Digit | NonAlphanumeric

  /** Membership in `[a-z]`, `[A-Z]`, `\d` and `[^a-zA-Z\d]`. */
  predicate InClass(c: char, k: CharClass) {
    match k
    case Lower => 'a' <= c <= 'z'
    case Upper => 'A' <= c <= 'Z'
    case Digit => '0' <= c <= '9'
    case NonAlphanumeric => !('a' <= c <= 'z' || 'A' <= c <= 'Z' || '0' <= c <= '9')
  }

  /** `/[class]/.test(s)`: the unanchored pattern finds a character of the class anywhere. */
  predicate Contains(s: string, k: CharClass) {
    exists i | 0 <= i < |s| :: InClass(s[i], k)
  }

  // ---------------------------------------------------------------- trim

  /** Drops leading white space. */
  function TrimStart(s: string): string {
    if |s| > 0 && IsSpace(s[0]) then TrimStart(s[1..]) else s
  }

  /** Drops trailing white space. */
  function TrimEnd(s: string): string {
    if |s| > 0 && IsSpace(s[|s| - 1]) then TrimEnd(s[..|s| - 1]) else s
  }

  /** `s.trim()`: a contiguous slice of s with white space only on either side of it, and with no
      white space at either of its own ends. */
  function Trim(s: string): (t: string)
    ensures |TrimStart(s)| <= |s|
    ensures var k := |s| - |TrimStart(s)|;
      && k + |t| <= |s| && t == s[k..k + |t|]
      && AllSpace(s[..k]) && AllSpace(s[k + |t|..])
    ensures t == [] || (!IsSpace(t[0]) && !IsSpace(t[|t| - 1]))
  {
    var u := TrimStart(s);
    TrimStartSuffix(s);
    TrimEndPrefix(u);
    var t := TrimEnd(u);
    assert u == s[|s| - |u|..];
    assert s[|s| - |u| + |t|..] == u[|t|..];
    assert t != [] ==> t[0] == u[0];
    t
  }

  /** TrimStart keeps a suffix of s, drops only white space, and leaves no white space in front. */
  lemma {:induction false} TrimStartSuffix(s: string)
    ensures var r := TrimStart(s);
      && |r| <= |s| && r == s[|s| - |r|..]
      && AllSpace(s[..|s| - |r|])
      && (r == [] || !IsSpace(r[0]))
  {
    if |s| > 0 && IsSpace(s[0]) {
      TrimStartSuffix(s[1..]);
      var r := TrimStart(s[1..]);
      assert s[1..][..|s| - 1 - |r|] == s[1..|s| - |r|];
      forall i | 0 <= i < |s| - |r| ensures IsSpace(s[i]) {
        if i > 0 { assert s[i] == s[1..][..|s| - 1 - |r|][i - 1]; }
      }
    }
  }

  /** TrimEnd keeps a prefix of s, drops only white space, and leaves no white space at the end. */
  lemma {:induction false} TrimEndPrefix(s: string)
    ensures var r := TrimEnd(s);
      && |r| <= |s| && r == s[..|r|]
      && AllSpace(s[|r|..])
      && (r == [] || !IsSpace(r[|r| - 1]))
  {
    if |s| > 0 && IsSpace(s[|s| - 1]) {
      var p := s[..|s| - 1];
      TrimEndPrefix(p);
      var r := TrimEnd(p);
      assert p[..|r|] == s[..|r|];
      forall i | |r| <= i < |s| ensures IsSpace(s[i]) {
        if i < |s| - 1 { assert s[i] == p[|r|..][i - |r|]; }
      }
    }
  }

  /** A string is trimmed away entirely exactly when it is all white space. */
  lemma TrimEmptyIff(s: string)
    ensures Trim(s) == [] <==> AllSpace(s)
  {
  }

  /** trim leaves a string without white space unchanged. */
  lemma TrimNoSpace(s: string)
    requires NoSpace(s)
    ensures Trim(s) == s
  {
    assert TrimStart(s) == s;
    assert TrimEnd(s) == s;
  }

  /** Trimming twice is trimming once. */
  lemma TrimIdempotent(s: string)
    ensures Trim(Trim(s)) == Trim(s)
  {
    var t := Trim(s);
    assert TrimStart(t) == t;
    assert TrimEnd(t) == t;
  }

  // ---------------------------------------------------------------- replace(/\D/g, '')

  /** `s.replace(/\D/g, '')`: only digits remain, and the result is no longer than the input. */
  function StripNonDigits(s: string): (r: string)
    ensures |r| <= |s|
    ensures forall i | 0 <= i < |r| :: InClass(r[i], Digit)
  {
    if s == [] then []
    else if InClass(s[0], Digit) then [s[0]] + StripNonDigits(s[1..])
    else StripNonDigits(s[1..])
  }

  /** Every digit occurs in the result as often as in the input. */
  lemma {:induction false} StripNonDigitsCounts(s: string)
    ensures forall c | InClass(c, Digit) :: multiset(StripNonDigits(s))[c] == multiset(s)[c]
  {
    if s != [] {
      StripNonDigitsCounts(s[1..]);
      assert s == [s[0]] + s[1..];
      assert multiset(s) == multiset([s[0]]) + multiset(s[1..]);
    }
  }

  /** A string of digits only is left as it is. */
  lemma {:induction false} StripNonDigitsOfDigits(s: string)
    requires forall i | 0 <= i < |s| :: InClass(s[i], Digit)
    ensures StripNonDigits(s) == s
  {
    if s != [] {
      assert forall i | 0 <= i < |s[1..]| :: s[1..][i] == s[i + 1];
      StripNonDigitsOfDigits(s[1..]);
      assert s == [s[0]] + s[1..];
    }
  }

  /** replace(/\D/g, '') keeps every digit, as often as it occurs, and nothing else; on a string of
      digits only it changes nothing. */
  lemma StripNonDigitsKeepsDigits(s: string)
    ensures var r := StripNonDigits(s);
      && |r| <= |s|
      && (forall i | 0 <= i < |r| :: InClass(r[i], Digit))
      && (forall c | InClass(c, Digit) :: multiset(r)[c] == multiset(s)[c])
      && ((forall i | 0 <= i < |s| :: InClass(s[i], Digit)) ==> r == s)
  {
    StripNonDigitsCounts(s);
    if forall i | 0 <= i < |s| :: InClass(s[i], Digit) {
      StripNonDigitsOfDigits(s);
    }
  }

  // ---------------------------------------------------------------- e-mail pattern

  predicate IsAddressChar(c: char) {
    !IsSpace(c) && c != '@'
  }

  predicate AllAddressChars(s: string) {
    forall i | 0 <= i < |s| :: IsAddressChar(s[i])
  }

  /** a + "@" + b + "." + c */
  function Address(a: string, b: string, c: string): (r: string)
    ensures |r| == |a| + |b| + |c| + 2
  {
    a + "@" + b + "." + c
  }

  /** What `/^[^\s@]+@[^\s@]+\.[^\s@]+$/.test(s)` accepts, read off the pattern: three non-empty
      runs of characters that are neither white space nor '@', joined by '@' and '.'. */
  ghost predicate MatchesEmailPattern(s: string) {
    exists a: string, b: string, c: string ::
      && s == Address(a, b, c)
      && |a| > 0 && |b| > 0 && |c| > 0
      && AllAddressChars(a) && AllAddressChars(b) && AllAddressChars(c)
  }

  /** The characters of Address(a, b, c), position by position. */
  lemma AddressAt(a: string, b: string, c: string, k: nat)
    requires k < |Address(a, b, c)|
    ensures var r, i, j := Address(a, b, c), |a|, |a| + 1 + |b|;
      && (k < i ==> r[k] == a[k])
      && (k == i ==> r[k] == '@')
      && (i < k < j ==> r[k] == b[k - i - 1])
      && (k == j ==> r[k] == '.')
      && (j < k ==> r[k] == c[k - j - 1])
  {
  }

  /** Cutting s around positions i < j and gluing it back gives s. */
  lemma AddressSplit(s: string, i: nat, j: nat)
    requires i < j < |s| && s[i] == '@' && s[j] == '.'
    ensures s == Address(s[..i], s[i + 1..j], s[j + 1..])
  {
    assert s == s[..i] + s[i..];
    assert s[i..] == [s[i]] + s[i + 1..j] + [s[j]] + s[j + 1..];
  }

  /** The first position of c in s, if any. */
  function IndexOf(s: string, c: char): (r: Option<nat>)
    ensures r.None? <==> c !in s
    ensures r.Some? ==> r.value < |s| && s[r.value] == c && c !in s[..r.value]
  {
    if s == [] then None
    else if s[0] == c then Some(0)
    else
      match IndexOf(s[1..], c)
      case None => None
      case Some(i) =>
        assert s[..i + 1] == [s[0]] + s[1..][..i];
        Some(i + 1)
  }

  /** The e-mail check as a scan: no white space, a first '@' that is not the first character,
      no second '@', and a '.' after the '@' that is neither right after it nor last. */
  function IsEmailAddress(s: string): (r: bool)
    ensures r ==> 5 <= |s| && NoSpace(s) && s[0] != '@' && s[|s| - 1] != '@'
  {
    && NoSpace(s)
    && match IndexOf(s, '@')
       case None => false
       case Some(i) =>
         && 0 < i
         && '@' !in s[i + 1..]
         && exists j | i + 1 < j < |s| - 1 :: s[j] == '.'
  }

  /** Every string the scan accepts matches the e-mail pattern. */
  lemma EmailScanMatchesPattern(s: string)
    requires IsEmailAddress(s)
    ensures MatchesEmailPattern(s)
  {
    var i := IndexOf(s, '@').value;
    var j :| i + 1 < j < |s| - 1 && s[j] == '.';
    var a, b, c := s[..i], s[i + 1..j], s[j + 1..];
    AddressSplit(s, i, j);
    var rest := s[i + 1..];
    forall k | 0 <= k < |b| ensures IsAddressChar(b[k]) {
      assert b[k] == s[i + 1 + k] == rest[k];
    }
    forall k | 0 <= k < |c| ensures IsAddressChar(c[k]) {
      assert c[k] == s[j + 1 + k] == rest[j - i + k];
    }
    assert AllAddressChars(a);
  }

  /** A character that occurs at one position only is found there, and not after it. */
  lemma SoleOccurrence(s: string, x: char, i: nat)
    requires i < |s| && s[i] == x
    requires forall k | 0 <= k < |s| && k != i :: s[k] != x
    ensures IndexOf(s, x) == Some(i)
    ensures x !in s[i + 1..]
  {
    assert x in s;
    var rest := s[i + 1..];
    forall k | 0 <= k < |rest| ensures rest[k] != x {
      assert rest[k] == s[i + 1 + k];
    }
  }

  /** Every string the e-mail pattern matches is accepted by the scan. */
  lemma EmailPatternMatchesScan(s: string)
    requires MatchesEmailPattern(s)
    ensures IsEmailAddress(s)
  {
    var a: string, b: string, c: string :|
      && s == Address(a, b, c)
      && |a| > 0 && |b| > 0 && |c| > 0
      && AllAddressChars(a) && AllAddressChars(b) && AllAddressChars(c);
    var i, j := |a|, |a| + 1 + |b|;
    forall k | 0 <= k < |s| ensures !IsSpace(s[k]) {
      AddressAt(a, b, c, k);
    }
    forall k | 0 <= k < |s| && k != i ensures s[k] != '@' {
      AddressAt(a, b, c, k);
    }
    AddressAt(a, b, c, i);
    AddressAt(a, b, c, j);
    SoleOccurrence(s, '@', i);
    assert i + 1 < j < |s| - 1 && s[j] == '.';
  }

  /** The scan accepts exactly the strings the e-mail pattern matches. */
  lemma EmailPatternIff(s: string)
    ensures IsEmailAddress(s) <==> MatchesEmailPattern(s)
  {
    if IsEmailAddress(s) { EmailScanMatchesPattern(s); }
    if MatchesEmailPattern(s) { EmailPatternMatchesScan(s); }
  }

  // ---------------------------------------------------------------- look-ahead

  /** `(?=.*[class])` tried at the start of s: a character of the class occurs before any line
      terminator, because `.` does not step over one. */
  predicate LookaheadFinds(s: string, k: CharClass) {
    exists i | 0 <= i < |s| :: InClass(s[i], k) && forall j | 0 <= j < i :: !IsLineTerminator(s[j])
  }

  /** What the look-ahead finds, the unanchored test finds too; without line terminators the two agree. */
  lemma LookaheadVersusContains(s: string, k: CharClass)
    ensures LookaheadFinds(s, k) ==> Contains(s, k)
    ensures (forall i | 0 <= i < |s| :: !IsLineTerminator(s[i])) ==> (LookaheadFinds(s, k) <==> Contains(s, k))
  {
  }
}
