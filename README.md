# Password Checker — a Dafny model

The Password Checker rates one password, or a file of passwords, in four
ways:

- a minimum length;
- which character classes it contains (lower case, upper case, digits,
  special);
- whether it appears in a local list of common passwords;
- how often its SHA-1 digest is listed by the Have I Been Pwned range
  service, queried by the k-anonymity protocol: only the first five hex
  characters of the digest leave the machine.

A zxcvbn score and feedback are added on top. The command line, which
prints one block of lines per password, and the Flask page, which renders
one report per POST, run the same checks. A browser script scores the typed
password by its own four conditions and toggles its visibility. Those
conditions are a length of at least 8 UTF-16 units, an upper-case letter,
an ASCII digit and a special character. The script calls none of the Python
checks.

The project holds one Dafny module per source file, plus two shared ones:

| file | module | models |
|---|---|---|
| `wrappers.dfy` | `Wrappers` | `Option` |
| `py_text.dfy` | `PyText` | Python's `str.isspace` and `str.strip`, and splitting a line at its colon |
| `password_utils.dfy` | `PasswordUtils` | the checks and the breach lookup (password_utils.py) |
| `password_checker.dfy` | `PasswordChecker` | the command line's password selection and printed blocks (password_checker.py) |
| `app.dfy` | `WebApp` | the `index` route (app.py) |
| `main_js.dfy` | `StrengthMeter` | the strength meter and show/hide toggle (static/js/main.js) |

Some things the program cannot compute itself are parameters, bundled in
`PasswordUtils.Collaborators`:

- the word list as opened (`Missing` or its lines);
- the SHA-1 digest function;
- the range service, which maps a prefix to a transport error or an HTTP
  status with the body's lines;
- the zxcvbn oracle.

The command line's file reader is a parameter of `PasswordChecker.RunCli`.
The command line's printed lines are `CliLine` values, and the page is the
report that the template is rendered from.

password_checker.py:12-59 and app.py:11-51 repeat the checks of
password_utils.py, so each check is modelled once, in `PasswordUtils`. The
copies differ from password_utils.py in two ways:

- in both copies, `check_length` has a default of 10 rather than the
  configured one; no caller relies on the default, since every call passes
  the threshold;
- in the command-line copy, `check_common` and `check_pwned` print a notice
  on the degraded path. Those notices are the `WordListMissingNotice` and
  `BreachErrorNotice` lines of `PasswordChecker`.

Some things the code does not do, and the model does not add them:

- there is no switch to turn individual checks off;
- there is no "not evaluated" outcome;
- the HIBP request has no timeout;
- the three copies of the checks are independent code, not one shared
  module.

The server and the browser do not agree on digits. Python's `\d` matches
every Unicode decimal digit (category Nd, modelled as
`PyText.IsUnicodeDigit`). The browser's `/\d/` has no `u` flag and matches
only `0`-`9`. `StrengthMeter.NonAsciiDigitDisagreement` shows one password
on which they differ.

## Model

| member | source | states |
|---|---|---|
| `PyText.IsSpace` | password_utils.py:27 | the characters Python's `str.isspace` accepts, which `str.strip()` removes |
| `PyText.IsUnicodeDigit` | password_utils.py:19 | Python's `\d` on `str`: category Nd of Unicode 15.0, the ASCII digits and the runs of `NonAsciiDigitRuns` |
| `PyText.Strip` | password_utils.py:27 | Python's `str.strip()`: its meaning is stated by `TrimStartSpec`, `TrimEndSpec`, `StripIsTrimmedSlice`, `StripHasNoOuterSpace`, `StripEmptyIff` and `StripIdempotent` |
| `PyText.TrimStartSpec` | password_utils.py:27 | stripping the front keeps a suffix of the line, removes only whitespace, and leaves no leading whitespace |
| `PyText.TrimEndSpec` | password_utils.py:27 | stripping the back keeps a prefix, removes only whitespace, and leaves no trailing whitespace |
| `PyText.StripIsSlice` | password_utils.py:27 | the stripped line is the slice of the line that starts where its leading whitespace ends |
| `PyText.StripIsTrimmedSlice` | password_utils.py:27 | a stripped line is a contiguous slice of the line, and the two cut-off ends are all whitespace |
| `PyText.StripHasNoOuterSpace` | password_utils.py:27 | a stripped line neither starts nor ends with whitespace |
| `PyText.StripEmptyIff` | password_checker.py:73 | a line strips to "" exactly when every character is whitespace |
| `PyText.StripIdempotent` | password_checker.py:73 | stripping twice equals stripping once |
| `PyText.SplitsInTwo` | password_utils.py:41 | `line.split(':')` unpacks into two names exactly when the line holds one colon; `JoinSplits` states it |
| `PyText.BeforeColon` | password_utils.py:41 | the part `h` before the colon; `JoinSplits` gives back the key |
| `PyText.AfterColon` | password_utils.py:41 | the part `count` after the colon; `JoinSplits` gives back the value |
| `PyText.JoinSplits` | password_utils.py:41 | `key:value` with colon-free parts splits into exactly two parts, giving back the key and the value |
| `PasswordUtils.CheckLength` | password_utils.py:11-12 | the length check on code points; its boundary, monotonicity and empty-password behaviour are the three lemmas below |
| `PasswordUtils.CheckLengthBoundary` | password_utils.py:11-12 | a password whose length equals the threshold passes, and fails a threshold one higher |
| `PasswordUtils.CheckLengthMonotone` | password_utils.py:11-12 | passing a higher threshold implies passing a lower one |
| `PasswordUtils.CheckLengthEmpty` | password_utils.py:11-12 | the empty password passes exactly when the threshold is at most 0 |
| `PasswordUtils.Search` | password_utils.py:17-20 | a class search is true exactly when some character of the password is in the class |
| `PasswordUtils.CheckCharTypes` | password_utils.py:15-21 | the four class flags; `CharTypesMeaning` states what each flag means, and the lemmas after it state the consequences |
| `PasswordUtils.CharTypesMeaning` | password_utils.py:15-21 | each flag holds exactly when some character is, in turn, an ASCII lower-case letter, an ASCII upper-case letter, a Unicode decimal digit (Python's `\d`), or not an ASCII letter or digit |
| `PasswordUtils.AsciiAlnumHasNoSpecial` | password_utils.py:20 | a password made only of ASCII letters and digits has `special` false |
| `PasswordUtils.EmptyHasNoClass` | password_utils.py:15-21 | the empty password has every flag false |
| `PasswordUtils.NonEmptyHasSomeClass` | password_utils.py:15-21 | a non-empty password has at least one of the four flags true |
| `PasswordUtils.CharTypesExamples` | password_utils.py:15-21 | "abcABC123!@#" sets all four flags; "abc" sets only `lowercase` |
| `PasswordUtils.CheckCommon` | password_utils.py:24-30 | a missing word list fails open (true); otherwise the result is false exactly when some stripped line equals the password |
| `PasswordUtils.CheckCommonDoesNotStripPassword` | password_utils.py:27-28 | only the list lines are stripped: `"abc\n"` flags "abc" but not " abc" |
| `PasswordUtils.BlankLineFlagsEmptyPassword` | password_utils.py:27-28 | a whitespace-only list line makes the empty password common |
| `PasswordUtils.Prefix` | password_utils.py:35 | the first five digest characters (the whole digest if it is shorter), as Python's slice gives them; see `DigestSplit` |
| `PasswordUtils.Suffix` | password_utils.py:35 | the digest after its first five characters (empty if it is shorter); see `DigestSplit` |
| `PasswordUtils.DigestSplit` | password_utils.py:34-35 | prefix and suffix rejoin to the digest; a 40-character digest splits into 5 and 35 characters |
| `PasswordUtils.IsDecimal` | password_utils.py:43 | the counts the model's `int(count)` accepts: a non-empty run of ASCII digits; `DecimalRoundTrip` states it |
| `PasswordUtils.DecimalValue` | password_utils.py:43 | the value `int(count)` gives such a count; `DecimalRoundTrip` states it |
| `PasswordUtils.ScanParses` | password_utils.py:40-43 | a subset of the bodies on which the scan raises no `ValueError`: every line up to and including the first match splits at one colon, and the matching count is decimal; the requires of `ScanRange` and `CheckPwned` |
| `PasswordUtils.DecimalRoundTrip` | password_utils.py:43 | every count written in decimal is accepted and converts back to that count |
| `PasswordUtils.ScanRange` | password_utils.py:40-44 | the scan gives the count on the first line whose hash part equals the suffix, or 0 when no line does |
| `PasswordUtils.ScanIsCaseSensitive` | password_utils.py:42 | a listed hash that differs only in letter case does not match |
| `PasswordUtils.CheckPwned` | password_utils.py:33-46 | `None` exactly on a transport error or a non-200 status; on a 200, 0 when unlisted and the first listed count otherwise |
| `PasswordUtils.Pwned` | password_utils.py:33-35 | the breach lookup of a password: the lookup of its digest, whose outcomes `CheckPwned` states |
| `PasswordUtils.PwnedSeesOnlyPrefix` | password_utils.py:35-37 | the result depends on the service only through its answer for the five-character prefix |
| `PasswordUtils.ListedSuffixReportsCount` | password_utils.py:40-43 | a 200 body listing the suffix with count n after other hashes parses, and the lookup reports n whatever follows |
| `PasswordUtils.UnlistedSuffixReportsZero` | password_utils.py:40-44 | a well-formed 200 body that does not list the suffix reports `Some(0)`, not the failure `None` |
| `PasswordUtils.EvaluateStrength` | password_utils.py:49-51 | the score and feedback are exactly the oracle's |
| `PasswordChecker.BatchLines` | password_checker.py:73 | the batch never exceeds the file's line count and holds no empty password |
| `PasswordChecker.BatchLinesAppend` | password_checker.py:73 | selection works line by line and keeps file order: the batch of a + b is the batch of a followed by the batch of b |
| `PasswordChecker.BatchLinesSingle` | password_checker.py:73 | one line gives its stripped text, or nothing when it is blank |
| `PasswordChecker.BatchLinesFromFile` | password_checker.py:73 | every batch entry is the stripped form of some file line |
| `PasswordChecker.BatchExample` | password_checker.py:73 | the lines "alpha", a blank line and "Beta42" give the batch ["alpha", "Beta42"] |
| `PasswordChecker.SelectPasswords` | password_checker.py:69-81 | the list `main` settles on; `FileTakesPrecedence`, `PositionalPassword`, `SelectedAreNonEmpty` and `BlankFileSelectsNothing` state its cases |
| `PasswordChecker.FileTakesPrecedence` | password_checker.py:70-76 | with a file given, the positional password plays no part, and there is a batch exactly when the file could be read |
| `PasswordChecker.PositionalPassword` | password_checker.py:77-81 | with no file, a non-empty positional password is the whole batch, and a missing or empty one is the usage error |
| `PasswordChecker.SelectedAreNonEmpty` | password_checker.py:69-81 | every selected password is non-empty |
| `PasswordChecker.DefaultThreshold` | password_checker.py:66 | without `--min-length` the threshold is 10, otherwise the given value |
| `PasswordChecker.SuggestionLines` | password_checker.py:95-96 | one suggestion line per suggestion, in order |
| `PasswordChecker.FeedbackLines` | password_checker.py:93-96 | the warning line followed by the suggestion lines, printed only when there is a warning or a suggestion; see `AnalysisFeedback` |
| `PasswordChecker.BlockHead` | password_checker.py:84-92 | no suggestion or warning line; the password, length and class lines first, the word-list notice only when the list is missing, the common line, the breach notice only on a transport error, then the breach and score lines |
| `PasswordChecker.CheckLines` | password_checker.py:84-92 | the check lines of a block, in print order, with the two notices only on their degraded paths; see `AnalysisHead`, `CliMissingWordList` and `CliBreachError` |
| `PasswordChecker.AnalysisLines` | password_checker.py:84-96 | a whole block: the check lines, then the feedback; `AnalyzePassword` is proved equal to it |
| `PasswordChecker.PrintSuggestions` | password_checker.py:95-96 | the loop prints exactly one suggestion line per suggestion, in the oracle's order |
| `PasswordChecker.AnalyzePassword` | password_checker.py:84-96 | the lines printed for one password are the check lines, then the feedback block when there is a warning or a suggestion |
| `PasswordChecker.AnalyzeAll` | password_checker.py:83-96 | the loop prints exactly `AnalysisBlocks` of the list: the blocks of the passwords, in list order |
| `PasswordChecker.AnalysisBlocks` | password_checker.py:83-96 | the output of the loop over the list; `AnalysisBlocksSpec` states it |
| `PasswordChecker.AnalysisBlocksSpec` | password_checker.py:83-96 | `AnalysisBlocks` of a list has one block per password, and block `k` is the block of password `k` |
| `PasswordChecker.AnalysisHead` | password_checker.py:84-87 | a block has at least six lines and starts with the password, then the threshold used with its result, then the class flags |
| `PasswordChecker.AnalysisFeedback` | password_checker.py:93-96 | every suggestion is printed once, in order; the warning line appears exactly when there is a warning or a suggestion |
| `PasswordChecker.CliMissingWordList` | password_checker.py:33-35 | a missing word list prints its notice, then reports the password as not common |
| `PasswordChecker.CliBreachError` | password_checker.py:51-53 | a transport error prints its notice, then "no count"; any other outcome prints no notice and the lookup's count |
| `PasswordChecker.ExitStatus` | password_checker.py:74-81 | the exit status is 0 exactly when the run completes, and 1 after an unreadable file or when no password was given |
| `PasswordChecker.RunCli` | password_checker.py:69-96 | the run completes exactly when a list was selected, even an empty one; an unreadable file (the one given with `-f`) or no input ends the run with that error as the exit value and no analysis block; otherwise there is one block per password, in order |
| `PasswordChecker.BlankFileSelectsNothing` | password_checker.py:70-73 | a readable file of blank lines selects the empty list, so the run completes after analysing nothing |
| `WebApp.Index` | app.py:98-119 | a GET renders no report; a POST without the field is a 400; a POST with it renders exactly the report built for the unmodified password |
| `WebApp.BuildReport` | app.py:102-118 | the report carries the submitted password, the threshold 10, the class flags of that password, and the oracle's score and feedback unchanged |
| `WebApp.ReportLength` | app.py:103-104 | the web threshold is 10, and the length flag says whether the password has at least 10 code points |
| `WebApp.ReportCommon` | app.py:24-30 | a missing word list leaves `common` true; otherwise `common` is false exactly when a stripped line equals the password |
| `WebApp.ReportPwned` | app.py:33-46 | `pwned` is `None` exactly on a transport error or a non-200 status; on a 200 it is 0 when the body does not list the suffix, and otherwise the count on the first line listing it |
| `WebApp.WebAgreesWithCli` | app.py:104-118 | the web report and the command-line block at threshold 10 carry the same check results |
| `WebApp.PasswordExample` | app.py:104-106 | "password", with a list that holds it, fails the length check and is flagged as common |
| `StrengthMeter.Utf16Length` | static/js/main.js:14 | the JavaScript length lies between the code-point count and twice it |
| `StrengthMeter.Utf16LengthChar` | static/js/main.js:14 | one character has JavaScript length 2 from U+10000 up and 1 below |
| `StrengthMeter.Utf16LengthAppend` | static/js/main.js:14 | the JavaScript length of a concatenation is the sum of the lengths |
| `StrengthMeter.Utf16LengthBmp` | static/js/main.js:14 | for Basic Multilingual Plane text, the JavaScript length is the code-point count |
| `StrengthMeter.Satisfied` | static/js/main.js:13-17 | the conditions a password meets, a subset of the four; `ComputeScore` and `SatisfiedCount` tie its size to the score |
| `StrengthMeter.ComputeScore` | static/js/main.js:13-19 | the score is the number of conditions met (length of at least 8, upper case, digit, special), which never exceeds 4 |
| `StrengthMeter.SatisfiedCount` | static/js/main.js:14-17 | the number of conditions met is the sum of one point per condition |
| `StrengthMeter.ScoreInRange` | static/js/main.js:19-26 | the score is at most 4, so it indexes the five names and the five colours |
| `StrengthMeter.EmptyScoresZero` | static/js/main.js:13-17 | the empty password meets no condition and reads "Very Weak" |
| `StrengthMeter.LowercaseEarnsNothing` | static/js/main.js:13-17 | a password of lower-case letters can at most be long enough, so it scores at most 1 |
| `StrengthMeter.ConditionsMatchCharTypes` | static/js/main.js:15-17 | the browser's upper-case and special conditions agree with the server's flags; its digit condition implies the server's `digits`, and the converse holds when every decimal digit in the password is ASCII |
| `StrengthMeter.NonAsciiDigitDisagreement` | static/js/main.js:16 | the Arabic-Indic digit three sets the server's `digits` flag but earns no browser digit point |
| `StrengthMeter.TextColor` | static/js/main.js:27 | the caption's colour for a score; `TextColorBands` states its bands |
| `StrengthMeter.TextClassName` | static/js/main.js:27 | the caption's fixed classes followed by the score's colour |
| `StrengthMeter.TextColorBands` | static/js/main.js:27 | the caption is red below 2, yellow at 2 and green from 3 |
| `StrengthMeter.Click` | static/js/main.js:32-36 | a click flips between hidden and shown, and the button then reads "Show" exactly while the password is hidden |
| `StrengthMeter.ClickTwiceRestores` | static/js/main.js:32-36 | from a consistent state, two clicks restore it and one click changes it |
| `StrengthMeter.ClickIsTwoStateCycle` | static/js/main.js:32-36 | after the first click, the toggle alternates between two states from any start |
| `StrengthMeter.PasswordForm.constructor` | static/js/main.js:38 | on page load the form shows the score of the initial text, with exactly one colour class on the bar |
| `StrengthMeter.PasswordForm.UpdateStrength` | static/js/main.js:10-28 | the bar value, name and caption class follow the score; every old colour class is removed and only the score's is added; nothing else changes |
| `StrengthMeter.PasswordForm.Input` | static/js/main.js:30 | after typing, the form shows the score of the new text, and the toggle is untouched |
| `StrengthMeter.PasswordForm.ToggleClick` | static/js/main.js:32-36 | the toggle takes exactly one click step; the text and the meter are untouched |

## Left out

- `StrengthMeter.ConditionsMatchCharTypes`: states the digit agreement in one direction for every password, and in the other only when every decimal digit in the password is ASCII. In the program the converse fails on other decimal digits, as `StrengthMeter.NonAsciiDigitDisagreement` shows.
- `PyText.IsUnicodeDigit`: lists the decimal digits of Unicode 15.0, the version of Python 3.12. A Python built on another Unicode version may match a few more or fewer characters.
- `PasswordUtils.CheckPwned`: requires a 200 body in which every line up to and including the first match splits at exactly one colon, and the matching line's count is plain ASCII digits. The source raises `ValueError` when a line up to and including the first match has no colon or more than one, or when `int()` rejects the matching count. That error escapes its exception handler, and the model does not describe the crash. Python's integer conversion also accepts counts that the model refuses: a sign, surrounding whitespace, underscores and non-ASCII digits.
- `PasswordChecker.RunCli`: requires that every selected password's lookup scans without error, for the reason given under `PasswordUtils.CheckPwned`.
- `WebApp.Index`: requires the same of the submitted password. The crash is Flask's 500 page in the source.
- SHA-1, the HTTP request and `splitlines`, and the zxcvbn algorithm are not modelled; they are the collaborator functions. Their inner workings are separate libraries.
- A command-line password whose argv bytes are not valid UTF-8 reaches Python with lone surrogates. In the source, printing it (password_checker.py:84) or hashing it (password_checker.py:40) raises `UnicodeEncodeError` outside any handler and ends the run; which comes first depends on how standard output encodes errors. A model string cannot hold a lone surrogate, so that case is left out.
- `hexdigest().upper()` is not modelled: the digest function is assumed to return the upper-case hex digest.
- Reading the word list fails in other ways than `FileNotFoundError`, such as permissions or a bad encoding. In the source those exceptions propagate; the model only has "not found" or "lines".
- The source re-reads the word list on every call. The model takes one list, unchanged for the whole run.
- The configured `DEFAULT_MIN_LENGTH` default of `check_length` in password_utils.py is not modelled. Every caller in the core passes the threshold explicitly, and `config.py` is not part of this model.
- Argument parsing, printing, the exact printed text, and `sys.exit` are not modelled. The parsed arguments are an input, the printed lines are typed values, and the exit is a `CliExit` with its status.
- The Flask server, routing, the HTML template and its rendering are not modelled. The page is the report handed to the template.
- The DOM lookups and event registration in static/js/main.js are not modelled. The input and click handlers are the methods of `StrengthMeter.PasswordForm`.
- The bar's class list is modelled as a set, so the order of the classes is left out.
- The initial input type, button caption and classes come from HTML markup that is not modelled; they are constructor parameters.
- Concurrency and network timeouts are not modelled; a transport failure is one outcome of the service.
