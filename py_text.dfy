/**
  The few pieces of Python's `str` that the checks rely on: the whitespace
  set of `str.isspace`, `str.strip()` with no argument, and splitting a
  line at its first `':'`.
 */
module PyText {

  /** The characters Python's `str.isspace` accepts (and `str.strip()` removes). */
  predicate IsSpace(c: char) {
    || ('\U{0009}' <= c <= '\U{000D}')
    || ('\U{001C}' <= c <= '\U{001F}')
    || c == ' '
    || c == '\U{0085}'
    || c == '\U{00A0}'
    || c == '\U{1680}'
    || ('\U{2000}' <= c <= '\U{200A}')
    || c == '\U{2028}'
    || c == '\U{2029}'
    || c == '\U{202F}'
    || c == '\U{205F}'
    || c == '\U{3000}'
  }

  /** The characters Python's `\d` matches in a `str` pattern: Unicode
      category Nd (decimal digits) as of Unicode 15.0. These are the ASCII
      digits and the runs of `NonAsciiDigitRuns`. */
  predicate IsUnicodeDigit(c: char) {
    ('0' <= c <= '9') || (c >= '\U{0660}' && InRuns(c, NonAsciiDigitRuns))
  }

  /** The non-ASCII decimal digits of Unicode 15.0, as inclusive runs, from
      the highest run down to the Arabic-Indic digits. */
  const NonAsciiDigitRuns: seq<(char, char)> := [
    ('\U{1FBF0}', '\U{1FBF9}'), ('\U{1E950}', '\U{1E959}'), ('\U{1E4F0}', '\U{1E4F9}'), ('\U{1E2F0}', '\U{1E2F9}'),
    ('\U{1E140}', '\U{1E149}'), ('\U{1D7CE}', '\U{1D7FF}'), ('\U{16B50}', '\U{16B59}'), ('\U{16AC0}', '\U{16AC9}'),
    ('\U{16A60}', '\U{16A69}'), ('\U{11F50}', '\U{11F59}'), ('\U{11DA0}', '\U{11DA9}'), ('\U{11D50}', '\U{11D59}'),
    ('\U{11C50}', '\U{11C59}'), ('\U{11950}', '\U{11959}'), ('\U{118E0}', '\U{118E9}'), ('\U{11730}', '\U{11739}'),
    ('\U{116C0}', '\U{116C9}'), ('\U{11650}', '\U{11659}'), ('\U{114D0}', '\U{114D9}'), ('\U{11450}', '\U{11459}'),
    ('\U{112F0}', '\U{112F9}'), ('\U{111D0}', '\U{111D9}'), ('\U{11136}', '\U{1113F}'), ('\U{110F0}', '\U{110F9}'),
    ('\U{11066}', '\U{1106F}'), ('\U{10D30}', '\U{10D39}'), ('\U{104A0}', '\U{104A9}'), ('\U{FF10}', '\U{FF19}'),
    ('\U{ABF0}', '\U{ABF9}'), ('\U{AA50}', '\U{AA59}'), ('\U{A9F0}', '\U{A9F9}'), ('\U{A9D0}', '\U{A9D9}'),
    ('\U{A900}', '\U{A909}'), ('\U{A8D0}', '\U{A8D9}'), ('\U{A620}', '\U{A629}'), ('\U{1C50}', '\U{1C59}'),
    ('\U{1C40}', '\U{1C49}'), ('\U{1BB0}', '\U{1BB9}'), ('\U{1B50}', '\U{1B59}'), ('\U{1A90}', '\U{1A99}'),
    ('\U{1A80}', '\U{1A89}'), ('\U{19D0}', '\U{19D9}'), ('\U{1946}', '\U{194F}'), ('\U{1810}', '\U{1819}'),
    ('\U{17E0}', '\U{17E9}'), ('\U{1090}', '\U{1099}'), ('\U{1040}', '\U{1049}'), ('\U{0F20}', '\U{0F29}'),
    ('\U{0ED0}', '\U{0ED9}'), ('\U{0E50}', '\U{0E59}'), ('\U{0DE6}', '\U{0DEF}'), ('\U{0D66}', '\U{0D6F}'),
    ('\U{0CE6}', '\U{0CEF}'), ('\U{0C66}', '\U{0C6F}'), ('\U{0BE6}', '\U{0BEF}'), ('\U{0B66}', '\U{0B6F}'),
    ('\U{0AE6}', '\U{0AEF}'), ('\U{0A66}', '\U{0A6F}'), ('\U{09E6}', '\U{09EF}'), ('\U{0966}', '\U{096F}'),
    ('\U{07C0}', '\U{07C9}'), ('\U{06F0}', '\U{06F9}'), ('\U{0660}', '\U{0669}')
  ]

  /** `c` lies in one of the inclusive runs; the last run is tried first. */
  predicate InRuns(c: char, runs: seq<(char, char)>) {
    runs != [] && ((runs[|runs| - 1].0 <= c <= runs[|runs| - 1].1) || InRuns(c, runs[..|runs| - 1]))
  }

  /** `s` with its leading whitespace removed. */
  function TrimStart(s: string): (r: string)
    ensures |r| <= |s|
  {
    if s != [] && IsSpace(s[0]) then TrimStart(s[1..]) else s
  }

  /** `s` with its trailing whitespace removed. */
  function TrimEnd(s: string): (r: string)
    ensures |r| <= |s|
  {
    if s != [] && IsSpace(s[|s| - 1]) then TrimEnd(s[..|s| - 1]) else s
  }

  /** Trimming at the start keeps a suffix of `s`, drops only whitespace, and
      leaves a string that does not start with whitespace. */
  lemma {:induction false} TrimStartSpec(s: string)
    ensures var r := TrimStart(s);
      r == s[|s| - |r|..] &&
      (forall i :: 0 <= i < |s| - |r| ==> IsSpace(s[i])) &&
      (r != [] ==> !IsSpace(r[0]))
  {
    if s != [] && IsSpace(s[0]) {
      TrimStartSpec(s[1..]);
      var r := TrimStart(s);
      forall i | 1 <= i < |s| - |r|
        ensures IsSpace(s[i])
      {
        assert s[i] == s[1..][i - 1];
      }
    }
  }

  /** Trimming at the end keeps a prefix of `s`, drops only whitespace, and
      leaves a string that does not end with whitespace. */
  lemma {:induction false} TrimEndSpec(s: string)
    ensures var r := TrimEnd(s);
      r == s[..|r|] &&
      (forall i :: |r| <= i < |s| ==> IsSpace(s[i])) &&
      (r != [] ==> !IsSpace(r[|r| - 1]))
  {
    if s != [] && IsSpace(s[|s| - 1]) {
      TrimEndSpec(s[..|s| - 1]);
      var r := TrimEnd(s);
      forall i | |r| <= i < |s| - 1
        ensures IsSpace(s[i])
      {
        assert s[i] == s[..|s| - 1][i];
      }
    }
  }

  /** Python's `str.strip` with no argument: whitespace cut from both ends. */
  function Strip(s: string): string {
    TrimEnd(TrimStart(s))
  }

  /** The stripped string is the slice of `s` between the end of its leading
      whitespace and the start of its trailing whitespace. */
  lemma StripIsSlice(s: string)
    ensures var i := |s| - |TrimStart(s)|; var j := i + |Strip(s)|;
      j <= |s| && Strip(s) == s[i..j] && TrimStart(s) == s[i..]
  {
    var t := TrimStart(s);
    TrimStartSpec(s);
    var i := |s| - |t|;
    var r := TrimEnd(t);
    TrimEndSpec(t);
    assert r == t[..|r|] == s[i..][..|r|];
  }

  /** The stripped string is the slice of `s` left after cutting whitespace
      from either side. */
  lemma StripIsTrimmedSlice(s: string)
    ensures var i := |s| - |TrimStart(s)|; var j := i + |Strip(s)|;
      j <= |s| && Strip(s) == s[i..j]
      && (forall k :: 0 <= k < i ==> IsSpace(s[k]))
      && (forall k :: j <= k < |s| ==> IsSpace(s[k]))
  {
    var t := TrimStart(s);
    TrimStartSpec(s);
    StripIsSlice(s);
    var i := |s| - |t|;
    var r := TrimEnd(t);
    TrimEndSpec(t);
    var j := i + |r|;
    forall k | j <= k < |s|
      ensures IsSpace(s[k])
    {
      assert s[k] == t[k - i];
    }
  }

  /** The stripped string neither starts nor ends with whitespace. */
  lemma StripHasNoOuterSpace(s: string)
    ensures Strip(s) != [] ==> !IsSpace(Strip(s)[0]) && !IsSpace(Strip(s)[|Strip(s)| - 1])
  {
    var t := TrimStart(s);
    TrimStartSpec(s);
    var r := TrimEnd(t);
    TrimEndSpec(t);
    if r != [] {
      assert r[0] == t[0];
    }
  }

  /** A string is blank (strips to the empty string) exactly when every character is whitespace. */
  lemma StripEmptyIff(s: string)
    ensures Strip(s) == "" <==> forall k :: 0 <= k < |s| ==> IsSpace(s[k])
  {
    var t := TrimStart(s);
    TrimStartSpec(s);
    TrimEndSpec(t);
    if Strip(s) != "" {
      var r := Strip(s);
      assert r == t[..|r|];
      assert r[0] == s[|s| - |t|];
    }
  }

  /** Stripping twice is stripping once. */
  lemma StripIdempotent(s: string)
    ensures Strip(Strip(s)) == Strip(s)
  {
    var r := Strip(s);
    if r != [] {
      StripHasNoOuterSpace(s);
      assert TrimStart(r) == r;
      assert TrimEnd(r) == r;
    }
  }

  /** A line ending in a newline, whose text before it has no whitespace at
      either end, strips to that text. */
  lemma StripNewlineTerminated(line: string)
    requires |line| >= 2 && line[|line| - 1] == '\n'
    requires !IsSpace(line[0]) && !IsSpace(line[|line| - 2])
    ensures Strip(line) == line[..|line| - 1]
  {
    var w := line[..|line| - 1];
    assert TrimStart(line) == line;
    assert TrimEnd(line) == TrimEnd(w);
    assert w[|w| - 1] == line[|line| - 2];
  }

  /** Position of the first `':'` in `s`, or `|s|` when there is none. */
  function ColonIndex(s: string): (k: nat)
    ensures k <= |s|
    ensures k < |s| ==> s[k] == ':'
    ensures forall i :: 0 <= i < k ==> s[i] != ':'
  {
    if s == [] then 0 else if s[0] == ':' then 0 else 1 + ColonIndex(s[1..])
  }

  /** Unpacking a split at `':'` into two names succeeds exactly when `s` holds one `':'`:
      there is a first colon and none after it. */
  predicate SplitsInTwo(s: string) {
    ColonIndex(s) < |s| && ':' !in s[ColonIndex(s) + 1..]
  }

  /** The text before the first `':'` (the whole string when there is none). */
  function BeforeColon(s: string): string {
    s[..ColonIndex(s)]
  }

  /** The text after the first `':'` (empty when there is none). */
  function AfterColon(s: string): string {
    if ColonIndex(s) < |s| then s[ColonIndex(s) + 1..] else ""
  }

  /** Joining a colon-free key and a colon-free value with `':'` gives a line
      that splits back into exactly that key and that value. */
  lemma JoinSplits(key: string, value: string)
    requires ':' !in key && ':' !in value
    ensures SplitsInTwo(key + ":" + value)
    ensures BeforeColon(key + ":" + value) == key
    ensures AfterColon(key + ":" + value) == value
  {
    var s := key + ":" + value;
    var k := ColonIndex(s);
    assert s[|key|] == ':';
    assert k == |key|;
    assert s[k + 1..] == value;
  }
}
