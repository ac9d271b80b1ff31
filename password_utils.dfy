/**
  The password checks shared by the command-line tool and the web form:
  minimum length, the four character classes, membership in a list of
  common passwords, the breach-count lookup against a k-anonymity range
  service, and the pass-through of the external strength oracle.

  SHA-1, the HTTP request and the strength oracle are not modelled; they
  enter as the `Collaborators` value below.
 */
module PasswordUtils {
  import opened Wrappers
  import opened PyText

  // ---------------------------------------------------------------------
  // Length check

  /** The length check: at least `minLength` code points. */
  predicate CheckLength(password: string, minLength: int) {
    |password| >= minLength
  }

  /** A password exactly as long as the threshold passes; one character shorter fails. */
  lemma CheckLengthBoundary(password: string, minLength: int)
    requires |password| == minLength
    ensures CheckLength(password, minLength)
    ensures !CheckLength(password, minLength + 1)
  {
  }

  /** Lowering the threshold never turns a pass into a fail. */
  lemma CheckLengthMonotone(password: string, lower: int, higher: int)
    requires lower <= higher
    ensures CheckLength(password, higher) ==> CheckLength(password, lower)
  {
  }

  /** The empty password fails every positive threshold and passes every other one. */
  lemma CheckLengthEmpty(minLength: int)
    ensures CheckLength("", minLength) <==> minLength <= 0
  {
  }

  // ---------------------------------------------------------------------
  // Character-class check

  /** The regular-expression classes searched for: `[a-z]`, `[A-Z]`, Python's
      `\d` (every Unicode decimal digit), the browser's `/\d/` (ASCII digits
      only) and `[^A-Za-z0-9]`. */
  datatype CharClass = Lower | Upper | Digit | AsciiDigit | NonAlnum

  predicate IsAsciiAlnum(c: char) {
    'a' <= c <= 'z' || 'A' <= c <= 'Z' || '0' <= c <= '9'
  }

  predicate Matches(cls: CharClass, c: char) {
    match cls
    case Lower => 'a' <= c <= 'z'
    case Upper => 'A' <= c <= 'Z'
    case Digit => IsUnicodeDigit(c)
    case AsciiDigit => '0' <= c <= '9'
    case NonAlnum => !IsAsciiAlnum(c)
  }

  /** A regular-expression search for one class: whether some character of `s` belongs to it. */
  function Search(cls: CharClass, s: string): (found: bool)
    ensures found <==> exists i :: 0 <= i < |s| && Matches(cls, s[i])
  {
    if s == [] then false
    else if Matches(cls, s[0]) then true
    else
      var rest := Search(cls, s[1..]);
      assert forall i :: 1 <= i < |s| ==> s[i] == s[1..][i - 1];
      rest
  }

  /** The dictionary returned by `check_char_types`. */
  datatype CharTypes = CharTypes(lowercase: bool, uppercase: bool, digits: bool, special: bool)

  function CheckCharTypes(password: string): CharTypes {
    CharTypes(
      Search(Lower, password),
      Search(Upper, password),
      Search(Digit, password),
      Search(NonAlnum, password))
  }

  /** Each flag is true exactly when some character is in its class. */
  lemma CharTypesMeaning(password: string)
    ensures CheckCharTypes(password).lowercase <==> exists i :: 0 <= i < |password| && 'a' <= password[i] <= 'z'
    ensures CheckCharTypes(password).uppercase <==> exists i :: 0 <= i < |password| && 'A' <= password[i] <= 'Z'
    ensures CheckCharTypes(password).digits <==> exists i :: 0 <= i < |password| && IsUnicodeDigit(password[i])
    ensures CheckCharTypes(password).special <==> exists i :: 0 <= i < |password| && !IsAsciiAlnum(password[i])
  {
    assert forall i :: 0 <= i < |password| ==> (Matches(Lower, password[i]) <==> 'a' <= password[i] <= 'z');
    assert forall i :: 0 <= i < |password| ==> (Matches(Upper, password[i]) <==> 'A' <= password[i] <= 'Z');
    assert forall i :: 0 <= i < |password| ==> (Matches(Digit, password[i]) <==> IsUnicodeDigit(password[i]));
    assert forall i :: 0 <= i < |password| ==> (Matches(NonAlnum, password[i]) <==> !IsAsciiAlnum(password[i]));
  }

  /** A password made only of ASCII letters and digits has no special character. */
  lemma AsciiAlnumHasNoSpecial(password: string)
    requires forall i :: 0 <= i < |password| ==> IsAsciiAlnum(password[i])
    ensures !CheckCharTypes(password).special
  {
    CharTypesMeaning(password);
  }

  /** The empty password has none of the four classes. */
  lemma EmptyHasNoClass()
    ensures CheckCharTypes("") == CharTypes(false, false, false, false)
  {
  }

  /** Every character falls in at least one class, so a non-empty password
      raises at least one flag. */
  lemma NonEmptyHasSomeClass(password: string)
    requires password != ""
    ensures var t := CheckCharTypes(password); t.lowercase || t.uppercase || t.digits || t.special
  {
    var c := password[0];
    if 'a' <= c <= 'z' {
      assert Matches(Lower, password[0]);
    } else if 'A' <= c <= 'Z' {
      assert Matches(Upper, password[0]);
    } else if '0' <= c <= '9' {
      assert Matches(Digit, password[0]);
    } else {
      assert Matches(NonAlnum, password[0]);
    }
  }

  /** `"abcABC123!@#"` has all four classes and `"abc"` only lowercase. */
  lemma CharTypesExamples()
    ensures CheckCharTypes("abcABC123!@#") == CharTypes(true, true, true, true)
    ensures CheckCharTypes("abc") == CharTypes(true, false, false, false)
  {
    var s := "abcABC123!@#";
    assert Matches(Lower, s[0]) && Matches(Upper, s[3]) && Matches(Digit, s[6]) && Matches(NonAlnum, s[9]);
    var t := "abc";
    assert Matches(Lower, t[0]);
    assert forall i :: 0 <= i < |t| ==> !Matches(Upper, t[i]) && !Matches(Digit, t[i]) && !Matches(NonAlnum, t[i]);
  }

  // ---------------------------------------------------------------------
  // Common-password check

  /** The outcome of opening the word list: not found, or the lines as read
      (each still carrying its line terminator). */
  datatype WordList = Missing | Lines(lines: seq<string>)

  /** The set of the word list's lines, each stripped. */
  function CommonSet(lines: seq<string>): set<string> {
    set i | 0 <= i < |lines| :: Strip(lines[i])
  }

  /** `check_common`: true means the password is NOT a common one. The
      password itself is compared unstripped; a missing file fails open. */
  function CheckCommon(password: string, wordList: WordList): (notCommon: bool)
    ensures wordList.Missing? ==> notCommon
    ensures wordList.Lines? ==>
      (!notCommon <==> exists i :: 0 <= i < |wordList.lines| && Strip(wordList.lines[i]) == password)
  {
    match wordList
    case Missing => true
    case Lines(lines) =>
      assert forall i :: 0 <= i < |lines| ==> Strip(lines[i]) in CommonSet(lines);
      password !in CommonSet(lines)
  }

  /** The password is not stripped before the lookup: a list holding
      `"abc"` flags `"abc"` but not `" abc"`. */
  lemma CheckCommonDoesNotStripPassword()
    ensures !CheckCommon("abc", Lines(["abc\n"]))
    ensures CheckCommon(" abc", Lines(["abc\n"]))
  {
    var lines := ["abc\n"];
    var line := lines[0];
    StripNewlineTerminated(line);
    assert Strip(line) == "abc" by {
      assert line[..3] == "abc";
    }
    assert Strip(lines[0]) == "abc";
    assert |" abc"| != |Strip(lines[0])|;
  }

  /** A line made only of whitespace contributes the empty string, so the
      empty password counts as common whenever the list has a blank line. */
  lemma BlankLineFlagsEmptyPassword(lines: seq<string>, k: nat)
    requires k < |lines|
    requires forall j :: 0 <= j < |lines[k]| ==> IsSpace(lines[k][j])
    ensures !CheckCommon("", Lines(lines))
  {
    StripEmptyIff(lines[k]);
  }

  // ---------------------------------------------------------------------
  // Breach-count lookup

  /** The first five digest characters: the part sent to the range service. */
  function Prefix(digest: string): string {
    if |digest| >= 5 then digest[..5] else digest
  }

  /** The digest after its first five characters: the part that never leaves the caller. */
  function Suffix(digest: string): string {
    if |digest| >= 5 then digest[5..] else ""
  }

  /** The split loses nothing, and a 40-character SHA-1 digest splits 5 + 35. */
  lemma DigestSplit(digest: string)
    ensures Prefix(digest) + Suffix(digest) == digest
    ensures |digest| == 40 ==> |Prefix(digest)| == 5 && |Suffix(digest)| == 35
  {
  }

  /** What the HTTP GET to the range endpoint produced: a transport failure
      (any `requests.RequestException`) or a status code and the body's lines. */
  datatype Response = TransportError | Http(status: int, lines: seq<string>)

  /** A count Python's integer conversion accepts; restricted here to plain ASCII digits. */
  predicate IsDecimal(s: string) {
    |s| > 0 && forall i :: 0 <= i < |s| ==> '0' <= s[i] <= '9'
  }

  /** The value of a string of decimal digits. */
  function DecimalValue(s: string): nat
    requires forall i :: 0 <= i < |s| ==> '0' <= s[i] <= '9'
  {
    if s == [] then 0
    else 10 * DecimalValue(s[..|s| - 1]) + (s[|s| - 1] as int - '0' as int)
  }

  /** The decimal rendering of a count, as the range service writes it. */
  function DecimalString(n: nat): string {
    var d := [('0' as int + n % 10) as char];
    if n < 10 then d else DecimalString(n / 10) + d
  }

  /** Reading back a rendered count gives the count. */
  lemma {:induction false} DecimalRoundTrip(n: nat)
    ensures IsDecimal(DecimalString(n))
    ensures DecimalValue(DecimalString(n)) == n
  {
    var s := DecimalString(n);
    if n >= 10 {
      DecimalRoundTrip(n / 10);
      assert s[..|s| - 1] == DecimalString(n / 10);
    }
  }

  /** A subset of the bodies on which the scan loop raises no `ValueError`:
      every line up to and including the first match splits at exactly one
      `':'`, and the matching line's count is plain ASCII digits. */
  predicate ScanParses(lines: seq<string>, suffix: string) {
    lines == [] ||
    (SplitsInTwo(lines[0]) &&
     if BeforeColon(lines[0]) == suffix then IsDecimal(AfterColon(lines[0]))
     else ScanParses(lines[1..], suffix))
  }

  /** Line `i` is the first whose hash part equals `suffix`. */
  predicate IsFirstMatch(lines: seq<string>, suffix: string, i: int) {
    0 <= i < |lines| && BeforeColon(lines[i]) == suffix &&
    forall j :: 0 <= j < i ==> BeforeColon(lines[j]) != suffix
  }

  /** No line's hash part equals `suffix`. */
  predicate NoMatch(lines: seq<string>, suffix: string) {
    forall i :: 0 <= i < |lines| ==> BeforeColon(lines[i]) != suffix
  }

  /** The scan over the answer's lines: the count of the first
      line whose hash part equals the suffix exactly, or 0 when none does. */
  function ScanRange(lines: seq<string>, suffix: string): (count: nat)
    requires ScanParses(lines, suffix)
    ensures NoMatch(lines, suffix) ==> count == 0
    ensures forall i :: IsFirstMatch(lines, suffix, i) ==>
      IsDecimal(AfterColon(lines[i])) && count == DecimalValue(AfterColon(lines[i]))
  {
    if lines == [] then 0
    else if BeforeColon(lines[0]) == suffix then DecimalValue(AfterColon(lines[0]))
    else
      var count := ScanRange(lines[1..], suffix);
      assert forall i :: IsFirstMatch(lines, suffix, i) ==> i > 0 && IsFirstMatch(lines[1..], suffix, i - 1);
      assert NoMatch(lines, suffix) ==> NoMatch(lines[1..], suffix);
      count
  }

  /** Hash parts are compared exactly: a lower-case listing of an upper-case
      suffix is not a match. */
  lemma ScanIsCaseSensitive()
    ensures ScanParses(["abc12:7"], "ABC12")
    ensures ScanRange(["abc12:7"], "ABC12") == 0
  {
    var line := "abc12:7";
    assert ColonIndex(line) == 5 by {
      assert line[5] == ':';
      assert forall i :: 0 <= i < 5 ==> line[i] != ':';
    }
    assert BeforeColon(line) == "abc12";
    assert "abc12"[0] != "ABC12"[0];
    assert line[6..] == "7";
    assert ["abc12:7"][1..] == [];
  }

  /** The precondition of the lookup: the response the service gives for
      this prefix, when it is a 200, scans without a `ValueError`. */
  predicate ResponseParses(resp: Response, suffix: string) {
    resp.Http? && resp.status == 200 ==> ScanParses(resp.lines, suffix)
  }

  /** `check_pwned`, given the digest and the range service: `None` on a
      transport failure or a non-200 status, otherwise the breach count of
      the first exactly matching line, or 0 when no line matches. */
  function CheckPwned(digest: string, service: string -> Response): (count: Option<nat>)
    requires ResponseParses(service(Prefix(digest)), Suffix(digest))
    ensures var resp := service(Prefix(digest));
      count.None? <==> (resp.TransportError? || resp.status != 200)
    ensures var resp := service(Prefix(digest));
      resp.Http? && resp.status == 200 && NoMatch(resp.lines, Suffix(digest)) ==> count == Some(0)
    ensures var resp := service(Prefix(digest));
      forall i :: resp.Http? && resp.status == 200 && IsFirstMatch(resp.lines, Suffix(digest), i) ==>
        IsDecimal(AfterColon(resp.lines[i])) && count == Some(DecimalValue(AfterColon(resp.lines[i])))
  {
    match service(Prefix(digest))
    case TransportError => None
    case Http(status, lines) =>
      if status != 200 then None else Some(ScanRange(lines, Suffix(digest)))
  }

  /** k-anonymity: the result depends on the service only through its answer
      for the 5-character prefix. */
  lemma PwnedSeesOnlyPrefix(digest: string, s1: string -> Response, s2: string -> Response)
    requires s1(Prefix(digest)) == s2(Prefix(digest))
    requires ResponseParses(s1(Prefix(digest)), Suffix(digest))
    ensures CheckPwned(digest, s1) == CheckPwned(digest, s2)
  {
  }

  /** A body that lists the suffix with count `n` after lines for other
      suffixes reports `n`; lines after the match are never examined. */
  lemma {:induction false} ListedSuffixReportsCount(
    digest: string, service: string -> Response,
    before: seq<string>, n: nat, after: seq<string>)
    requires ':' !in Suffix(digest)
    requires forall j :: 0 <= j < |before| ==> SplitsInTwo(before[j]) && BeforeColon(before[j]) != Suffix(digest)
    requires service(Prefix(digest)) == Http(200, before + [Suffix(digest) + ":" + DecimalString(n)] + after)
    ensures ResponseParses(service(Prefix(digest)), Suffix(digest))
    ensures CheckPwned(digest, service) == Some(n)
  {
    var suffix := Suffix(digest);
    var line := suffix + ":" + DecimalString(n);
    var lines := before + [line] + after;
    DecimalRoundTrip(n);
    assert ':' !in DecimalString(n) by {
      assert forall i :: 0 <= i < |DecimalString(n)| ==> DecimalString(n)[i] != ':';
    }
    JoinSplits(suffix, DecimalString(n));
    ScanParsesThrough(before, line, after, suffix);
    assert lines[|before|] == line;
    assert IsFirstMatch(lines, suffix, |before|);
  }

  /** Lines that all miss the suffix, followed by a parsable matching line,
      scan without error whatever comes after. */
  lemma {:induction false} ScanParsesThrough(before: seq<string>, line: string, after: seq<string>, suffix: string)
    requires forall j :: 0 <= j < |before| ==> SplitsInTwo(before[j]) && BeforeColon(before[j]) != suffix
    requires SplitsInTwo(line) && BeforeColon(line) == suffix && IsDecimal(AfterColon(line))
    ensures ScanParses(before + [line] + after, suffix)
  {
    if before != [] {
      ScanParsesThrough(before[1..], line, after, suffix);
      assert (before + [line] + after)[1..] == before[1..] + [line] + after;
    } else {
      assert ([line] + after)[0] == line;
    }
  }

  /** A 200 answer that does not list the suffix reports 0, which is not the
      failure outcome `None`. */
  lemma UnlistedSuffixReportsZero(digest: string, service: string -> Response, lines: seq<string>)
    requires service(Prefix(digest)) == Http(200, lines)
    requires forall j :: 0 <= j < |lines| ==> SplitsInTwo(lines[j]) && BeforeColon(lines[j]) != Suffix(digest)
    ensures ResponseParses(service(Prefix(digest)), Suffix(digest))
    ensures CheckPwned(digest, service) == Some(0) && CheckPwned(digest, service) != None
  {
    UnlistedParses(lines, Suffix(digest));
  }

  lemma {:induction false} UnlistedParses(lines: seq<string>, suffix: string)
    requires forall j :: 0 <= j < |lines| ==> SplitsInTwo(lines[j]) && BeforeColon(lines[j]) != suffix
    ensures ScanParses(lines, suffix)
  {
    if lines != [] {
      UnlistedParses(lines[1..], suffix);
    }
  }

  // ---------------------------------------------------------------------
  // Strength oracle

  /** zxcvbn's feedback: a warning (possibly empty) and ordered suggestions. */
  datatype Feedback = Feedback(warning: string, suggestions: seq<string>)

  /** What the zxcvbn oracle returns for a password. */
  datatype Strength = Strength(score: int, feedback: Feedback)

  /** `evaluate_strength`: the oracle's score and feedback, passed through unchanged. */
  function EvaluateStrength(password: string, zxcvbn: string -> Strength): (r: (int, Feedback))
    ensures r.0 == zxcvbn(password).score
    ensures r.1 == zxcvbn(password).feedback
  {
    var result := zxcvbn(password);
    (result.score, result.feedback)
  }

  // ---------------------------------------------------------------------
  // The external collaborators, bundled

  /** The word list as opened, the SHA-1 upper-case hex digest function, the
      range service keyed by prefix, and the strength oracle. */
  datatype Collaborators = Collaborators(
    wordList: WordList,
    digestOf: string -> string,
    service: string -> Response,
    zxcvbn: string -> Strength)

  /** The breach lookup for `password` raises no `ValueError`. */
  predicate LookupParses(env: Collaborators, password: string) {
    ResponseParses(env.service(Prefix(env.digestOf(password))), Suffix(env.digestOf(password)))
  }

  /** The breach lookup of a password: hash, split, query, scan. */
  function Pwned(env: Collaborators, password: string): Option<nat>
    requires LookupParses(env, password)
  {
    CheckPwned(env.digestOf(password), env.service)
  }
}
