/**
  The command-line front end: which passwords to analyse (a batch file has
  precedence over the positional password), and the block of report lines
  printed for each of them. Argument parsing, file reading and printing are
  not modelled: the parsed arguments and the file's lines are inputs, and
  the printed lines are returned as `CliLine` values.
 */
module PasswordChecker {
  import opened Wrappers
  import opened PyText
  import opened PasswordUtils

  /** `check_length`'s default threshold and the default of `--min-length`. */
  const DefaultMinLength: int := 10

  /** The parsed command line: the optional positional password, `-f/--file`,
      and `--min-length` (`None` when the option was not written). */
  datatype CliArgs = CliArgs(password: Option<string>, file: Option<string>, minLength: Option<int>)

  /** The threshold handed to `check_length`: `--min-length`, or 10. */
  function EffectiveMinLength(args: CliArgs): int {
    match args.minLength
    case None => DefaultMinLength
    case Some(m) => m
  }

  /** Python truthiness of an optional string argument: present and non-empty. */
  predicate Given(arg: Option<string>) {
    arg.Some? && arg.value != ""
  }

  /** The outcome of opening and reading the batch file: any exception, or its lines. */
  datatype FileRead = ReadFailed | ReadLines(lines: seq<string>)

  /** The file's lines, stripped, with the blank ones dropped, in file order. */
  function BatchLines(lines: seq<string>): (pwds: seq<string>)
    ensures |pwds| <= |lines|
    ensures forall k :: 0 <= k < |pwds| ==> pwds[k] != ""
  {
    if lines == [] then []
    else
      var rest := BatchLines(lines[1..]);
      var s := Strip(lines[0]);
      if s != "" then [s] + rest else rest
  }

  /** Batch selection distributes over concatenation: it keeps the file's
      order and treats each line on its own. */
  lemma {:induction false} BatchLinesAppend(a: seq<string>, b: seq<string>)
    ensures BatchLines(a + b) == BatchLines(a) + BatchLines(b)
  {
    if a != [] {
      BatchLinesAppend(a[1..], b);
      assert (a + b)[1..] == a[1..] + b;
    } else {
      assert a + b == b;
    }
  }

  /** One line yields its stripped text, or nothing when it is blank. */
  lemma BatchLinesSingle(line: string)
    ensures BatchLines([line]) == if Strip(line) == "" then [] else [Strip(line)]
    ensures BatchLines([line]) == [] <==> forall k :: 0 <= k < |line| ==> IsSpace(line[k])
  {
    assert [line][1..] == [];
    StripEmptyIff(line);
  }

  /** Every entry is the stripped text of some line of the file. */
  lemma {:induction false} BatchLinesFromFile(lines: seq<string>)
    ensures forall k :: 0 <= k < |BatchLines(lines)| ==>
      exists i :: 0 <= i < |lines| && BatchLines(lines)[k] == Strip(lines[i])
  {
    if lines != [] {
      BatchLinesFromFile(lines[1..]);
      var rest := BatchLines(lines[1..]);
      var head := if Strip(lines[0]) != "" then [Strip(lines[0])] else [];
      var pwds := BatchLines(lines);
      assert pwds == head + rest;
      forall k | 0 <= k < |pwds|
        ensures exists i :: 0 <= i < |lines| && pwds[k] == Strip(lines[i])
      {
        if k < |head| {
          assert pwds[k] == Strip(lines[0]);
        } else {
          assert pwds[k] == rest[k - |head|];
          var i :| 0 <= i < |lines[1..]| && rest[k - |head|] == Strip(lines[1..][i]);
          assert lines[i + 1] == lines[1..][i];
        }
      }
    } else {
      assert BatchLines(lines) == [];
    }
  }

  /** Three lines with a blank one between give the two passwords, in order. */
  lemma BatchExample()
    ensures BatchLines(["alpha\n", "   \n", "Beta42\n"]) == ["alpha", "Beta42"]
  {
    var a, blank, b := "alpha\n", "   \n", "Beta42\n";
    StripNewlineTerminated(a);
    assert a[..5] == "alpha";
    StripNewlineTerminated(b);
    assert b[..6] == "Beta42";
    assert IsSpace(blank[0]) && IsSpace(blank[1]) && IsSpace(blank[2]) && IsSpace(blank[3]);
    StripEmptyIff(blank);
    var lines := [a, blank, b];
    assert lines[1..] == [blank, b];
    assert lines[1..][1..] == [b];
    assert BatchLines([b]) == ["Beta42"] by {
      assert [b][1..] == [];
    }
    assert BatchLines([blank, b]) == ["Beta42"];
  }

  /** The list `main` settles on, or the reason it exits with status 1. */
  datatype Selection = Batch(pwds: seq<string>) | FileError(file: string) | NoInput

  /** Lines 69-81 of `main`: a batch file wins over the positional password;
      an unreadable file and a missing input both end the run. */
  function SelectPasswords(args: CliArgs, readFile: string -> FileRead): Selection {
    if Given(args.file) then
      match readFile(args.file.value)
      case ReadFailed => FileError(args.file.value)
      case ReadLines(lines) => Batch(BatchLines(lines))
    else if Given(args.password) then Batch([args.password.value])
    else NoInput
  }

  /** With a file, the positional password plays no part. */
  lemma FileTakesPrecedence(args: CliArgs, readFile: string -> FileRead)
    requires Given(args.file)
    ensures SelectPasswords(args, readFile) == SelectPasswords(args.(password := None), readFile)
    ensures SelectPasswords(args, readFile).Batch? <==> readFile(args.file.value).ReadLines?
  {
  }

  /** A readable file whose lines are all blank selects an empty list: the run
      goes on to analyse nothing and ends normally. */
  lemma {:induction false} BlankFileSelectsNothing(args: CliArgs, readFile: string -> FileRead, lines: seq<string>)
    requires Given(args.file) && readFile(args.file.value) == ReadLines(lines)
    requires forall i, k :: 0 <= i < |lines| && 0 <= k < |lines[i]| ==> IsSpace(lines[i][k])
    ensures SelectPasswords(args, readFile) == Batch([])
  {
    BlankLinesAreDropped(lines);
  }

  lemma {:induction false} BlankLinesAreDropped(lines: seq<string>)
    requires forall i, k :: 0 <= i < |lines| && 0 <= k < |lines[i]| ==> IsSpace(lines[i][k])
    ensures BatchLines(lines) == []
  {
    if lines != [] {
      StripEmptyIff(lines[0]);
      BlankLinesAreDropped(lines[1..]);
    }
  }

  /** Without a file, a non-empty positional password is the whole list, and
      no password (or the empty one) is the usage error. */
  lemma PositionalPassword(args: CliArgs, readFile: string -> FileRead)
    requires !Given(args.file)
    ensures Given(args.password) ==> SelectPasswords(args, readFile) == Batch([args.password.value])
    ensures !Given(args.password) <==> SelectPasswords(args, readFile) == NoInput
  {
  }

  /** No selected password is empty. */
  lemma SelectedAreNonEmpty(args: CliArgs, readFile: string -> FileRead)
    requires SelectPasswords(args, readFile).Batch?
    ensures forall k :: 0 <= k < |SelectPasswords(args, readFile).pwds| ==> SelectPasswords(args, readFile).pwds[k] != ""
  {
  }

  /** One printed line of an analysis block. */
  datatype CliLine =
    | Analyzing(password: string)
    | LengthLine(minLength: int, ok: bool)
    | TypesLine(types: CharTypes)
      /** printed by `check_common` when the word list is not found */
    | WordListMissingNotice
    | CommonLine(notCommon: bool)
      /** printed by `check_pwned` when the request raised */
    | BreachErrorNotice
      /** `None` is printed as 'Error or not found' */
    | BreachLine(times: Option<nat>)
    | ScoreLine(score: int)
    | WarningLine(warning: string)
    | SuggestionLine(suggestion: string)

  /** One `Suggestions:` line per suggestion, in order. */
  function SuggestionLines(suggestions: seq<string>): (lines: seq<CliLine>)
    ensures |lines| == |suggestions|
    ensures forall k :: 0 <= k < |suggestions| ==> lines[k] == SuggestionLine(suggestions[k])
  {
    seq(|suggestions|, k requires 0 <= k < |suggestions| => SuggestionLine(suggestions[k]))
  }

  lemma SuggestionLinesSnoc(suggestions: seq<string>, i: nat)
    requires i < |suggestions|
    ensures SuggestionLines(suggestions[..i + 1])
      == SuggestionLines(suggestions[..i]) + [SuggestionLine(suggestions[i])]
  {
    var a := SuggestionLines(suggestions[..i + 1]);
    var b := SuggestionLines(suggestions[..i]) + [SuggestionLine(suggestions[i])];
    assert |a| == |b|;
    forall k | 0 <= k < |a|
      ensures a[k] == b[k]
    {
      if k < i {
        assert suggestions[..i + 1][k] == suggestions[..i][k];
      }
    }
  }

  /** The feedback block, printed only when there is a warning or a suggestion. */
  function FeedbackLines(feedback: Feedback): seq<CliLine> {
    if feedback.warning != "" || feedback.suggestions != [] then
      [WarningLine(feedback.warning)] + SuggestionLines(feedback.suggestions)
    else []
  }

  /** The layout of the lines before the feedback block, given the check
      results: the two notices appear only on their degraded paths. */
  function BlockHead(pwd: string, minLength: int, lengthOk: bool, types: CharTypes,
                     listMissing: bool, notCommon: bool, lookupFailed: bool,
                     times: Option<nat>, score: int): (lines: seq<CliLine>)
    ensures forall k :: 0 <= k < |lines| ==> !lines[k].SuggestionLine? && !lines[k].WarningLine?
    ensures var c := if listMissing then 4 else 3;
      var b := if lookupFailed then c + 2 else c + 1;
      |lines| == b + 2
      && lines[0] == Analyzing(pwd) && lines[1] == LengthLine(minLength, lengthOk) && lines[2] == TypesLine(types)
      && (listMissing ==> lines[3] == WordListMissingNotice)
      && lines[c] == CommonLine(notCommon)
      && (lookupFailed ==> lines[c + 1] == BreachErrorNotice)
      && lines[b] == BreachLine(times) && lines[b + 1] == ScoreLine(score)
  {
    [Analyzing(pwd), LengthLine(minLength, lengthOk), TypesLine(types)]
    + (if listMissing then [WordListMissingNotice] else [])
    + [CommonLine(notCommon)]
    + (if lookupFailed then [BreachErrorNotice] else [])
    + [BreachLine(times), ScoreLine(score)]
  }

  /** The lines printed for one password before its feedback block (lines 84-92). */
  function CheckLines(pwd: string, minLength: int, env: Collaborators): seq<CliLine>
    requires LookupParses(env, pwd)
  {
    BlockHead(pwd, minLength, CheckLength(pwd, minLength), CheckCharTypes(pwd),
      env.wordList.Missing?, CheckCommon(pwd, env.wordList),
      env.service(Prefix(env.digestOf(pwd))).TransportError?,
      Pwned(env, pwd), EvaluateStrength(pwd, env.zxcvbn).0)
  }

  /** The lines printed for one password with threshold `minLength` (lines 84-96). */
  function AnalysisLines(pwd: string, minLength: int, env: Collaborators): seq<CliLine>
    requires LookupParses(env, pwd)
  {
    CheckLines(pwd, minLength, env) + FeedbackLines(EvaluateStrength(pwd, env.zxcvbn).1)
  }

  /** Prints the suggestions one line at a time, in order (lines 95-96). */
  method PrintSuggestions(suggestions: seq<string>) returns (lines: seq<CliLine>)
    ensures lines == SuggestionLines(suggestions)
  {
    lines := [];
    for i := 0 to |suggestions|
      invariant lines == SuggestionLines(suggestions[..i])
    {
      SuggestionLinesSnoc(suggestions, i);
      lines := lines + [SuggestionLine(suggestions[i])];
    }
    assert suggestions[..|suggestions|] == suggestions;
  }

  /** Prints one analysis block (lines 84-96): the check lines, then the
      feedback block when there is a warning or a suggestion. */
  method AnalyzePassword(pwd: string, minLength: int, env: Collaborators) returns (lines: seq<CliLine>)
    requires LookupParses(env, pwd)
    ensures lines == AnalysisLines(pwd, minLength, env)
  {
    var feedback := EvaluateStrength(pwd, env.zxcvbn).1;
    lines := CheckLines(pwd, minLength, env);
    if feedback.warning != "" || feedback.suggestions != [] {
      var shown := PrintSuggestions(feedback.suggestions);
      lines := lines + ([WarningLine(feedback.warning)] + shown);
    }
  }

  /** The suggestions a block of lines shows, in the order shown. */
  function SuggestionsShown(lines: seq<CliLine>): seq<string> {
    if lines == [] then []
    else (if lines[0].SuggestionLine? then [lines[0].suggestion] else []) + SuggestionsShown(lines[1..])
  }

  /** How many warning lines a block of lines shows. */
  function WarningsShown(lines: seq<CliLine>): nat {
    if lines == [] then 0 else (if lines[0].WarningLine? then 1 else 0) + WarningsShown(lines[1..])
  }

  lemma {:induction false} ShownAppend(a: seq<CliLine>, b: seq<CliLine>)
    ensures SuggestionsShown(a + b) == SuggestionsShown(a) + SuggestionsShown(b)
    ensures WarningsShown(a + b) == WarningsShown(a) + WarningsShown(b)
  {
    if a != [] {
      ShownAppend(a[1..], b);
      assert (a + b)[1..] == a[1..] + b;
    } else {
      assert a + b == b;
    }
  }

  lemma {:induction false} SuggestionLinesShown(suggestions: seq<string>)
    ensures SuggestionsShown(SuggestionLines(suggestions)) == suggestions
    ensures WarningsShown(SuggestionLines(suggestions)) == 0
  {
    if suggestions != [] {
      var lines := SuggestionLines(suggestions);
      SuggestionLinesShown(suggestions[1..]);
      assert lines[1..] == SuggestionLines(suggestions[1..]);
    }
  }

  /** Every suggestion is printed exactly once and in the oracle's order, and
      the warning line appears exactly when there is a warning or a suggestion. */
  lemma AnalysisFeedback(pwd: string, minLength: int, env: Collaborators)
    requires LookupParses(env, pwd)
    ensures var fb := EvaluateStrength(pwd, env.zxcvbn).1;
      SuggestionsShown(AnalysisLines(pwd, minLength, env)) == fb.suggestions
    ensures var fb := EvaluateStrength(pwd, env.zxcvbn).1;
      WarningsShown(AnalysisLines(pwd, minLength, env)) == (if fb.warning != "" || fb.suggestions != [] then 1 else 0)
  {
    var fb := EvaluateStrength(pwd, env.zxcvbn).1;
    var head := CheckLines(pwd, minLength, env);
    NoFeedbackInHead(head);
    ShownAppend(head, FeedbackLines(fb));
    SuggestionLinesShown(fb.suggestions);
    if fb.warning != "" || fb.suggestions != [] {
      ShownAppend([WarningLine(fb.warning)], SuggestionLines(fb.suggestions));
      assert [WarningLine(fb.warning)][1..] == [];
    }
  }

  lemma {:induction false} NoFeedbackInHead(lines: seq<CliLine>)
    requires forall k :: 0 <= k < |lines| ==> !lines[k].SuggestionLine? && !lines[k].WarningLine?
    ensures SuggestionsShown(lines) == [] && WarningsShown(lines) == 0
  {
    if lines != [] {
      NoFeedbackInHead(lines[1..]);
    }
  }

  /** The block for one password names it first, then the threshold actually
      used and the check results for that same password. */
  lemma AnalysisHead(pwd: string, minLength: int, env: Collaborators)
    requires LookupParses(env, pwd)
    ensures var lines := AnalysisLines(pwd, minLength, env);
      |lines| >= 6 && lines[0] == Analyzing(pwd)
      && lines[1] == LengthLine(minLength, |pwd| >= minLength)
      && lines[2] == TypesLine(CheckCharTypes(pwd))
  {
  }

  /** A missing word list prints the notice and then reports "not common". */
  lemma CliMissingWordList(pwd: string, minLength: int, env: Collaborators)
    requires LookupParses(env, pwd)
    requires env.wordList.Missing?
    ensures var lines := AnalysisLines(pwd, minLength, env);
      lines[3] == WordListMissingNotice && lines[4] == CommonLine(true)
  {
  }

  /** A request that raised prints the notice and then reports no count;
      any other outcome prints no notice. */
  lemma CliBreachError(pwd: string, minLength: int, env: Collaborators)
    requires LookupParses(env, pwd)
    ensures var lines := AnalysisLines(pwd, minLength, env);
      var k := if env.wordList.Missing? then 4 else 3;
      if env.service(Prefix(env.digestOf(pwd))).TransportError? then
        lines[k + 1] == BreachErrorNotice && lines[k + 2] == BreachLine(None)
      else
        lines[k + 1] == BreachLine(Pwned(env, pwd))
  {
  }

  /** Without `--min-length` the threshold is 10; with it, its value is used as given. */
  lemma DefaultThreshold(args: CliArgs)
    ensures args.minLength.None? ==> EffectiveMinLength(args) == 10
    ensures args.minLength.Some? ==> EffectiveMinLength(args) == args.minLength.value
  {
  }

  /** How a run ends: normally (status 0), or with status 1 after an
      unreadable batch file or when no password was given. */
  datatype CliExit = Completed | UnreadableFile(file: string) | NoPasswordGiven

  function ExitStatus(exit: CliExit): (status: int)
    ensures status == 0 <==> exit.Completed?
    ensures exit.UnreadableFile? || exit.NoPasswordGiven? ==> status == 1
  {
    if exit.Completed? then 0 else 1
  }

  /** The blocks printed for a list of passwords, one per password, in order. */
  function AnalysisBlocks(pwds: seq<string>, minLength: int, env: Collaborators): seq<seq<CliLine>>
    requires forall k :: 0 <= k < |pwds| ==> LookupParses(env, pwds[k])
  {
    if pwds == [] then []
    else AnalysisBlocks(pwds[..|pwds| - 1], minLength, env) + [AnalysisLines(pwds[|pwds| - 1], minLength, env)]
  }

  /** Block `k` of the list is the block of password `k`. */
  lemma {:induction false} AnalysisBlocksSpec(pwds: seq<string>, minLength: int, env: Collaborators)
    requires forall k :: 0 <= k < |pwds| ==> LookupParses(env, pwds[k])
    ensures |AnalysisBlocks(pwds, minLength, env)| == |pwds|
    ensures forall k :: 0 <= k < |pwds| ==> AnalysisBlocks(pwds, minLength, env)[k] == AnalysisLines(pwds[k], minLength, env)
  {
    if pwds != [] {
      var init := pwds[..|pwds| - 1];
      AnalysisBlocksSpec(init, minLength, env);
      forall k | 0 <= k < |pwds| - 1
        ensures AnalysisBlocks(pwds, minLength, env)[k] == AnalysisLines(pwds[k], minLength, env)
      {
        assert pwds[k] == init[k];
      }
    }
  }

  /** Extending the list by one password appends that password's block. */
  lemma AnalysisBlocksStep(pwds: seq<string>, i: nat, minLength: int, env: Collaborators)
    requires i < |pwds|
    requires forall k :: 0 <= k < |pwds| ==> LookupParses(env, pwds[k])
    ensures AnalysisBlocks(pwds[..i + 1], minLength, env)
         == AnalysisBlocks(pwds[..i], minLength, env) + [AnalysisLines(pwds[i], minLength, env)]
  {
    assert pwds[..i + 1][..i] == pwds[..i];
  }

  /** The loop of `main` (lines 83-96): one analysis block per password, in
      list order. */
  method AnalyzeAll(pwds: seq<string>, minLength: int, env: Collaborators) returns (blocks: seq<seq<CliLine>>)
    requires forall k :: 0 <= k < |pwds| ==> LookupParses(env, pwds[k])
    ensures blocks == AnalysisBlocks(pwds, minLength, env)
  {
    blocks := [];
    for i := 0 to |pwds|
      invariant blocks == AnalysisBlocks(pwds[..i], minLength, env)
    {
      var block := AnalyzePassword(pwds[i], minLength, env);
      AnalysisBlocksStep(pwds, i, minLength, env);
      blocks := blocks + [block];
    }
    assert pwds[..|pwds|] == pwds;
  }

  /** `main`: settle the list, then print one analysis block per entry, in
      list order. Every entry's breach lookup must scan without error. */
  method RunCli(args: CliArgs, readFile: string -> FileRead, env: Collaborators)
    returns (exit: CliExit, blocks: seq<seq<CliLine>>)
    requires SelectPasswords(args, readFile).Batch? ==>
      forall k :: 0 <= k < |SelectPasswords(args, readFile).pwds| ==>
        LookupParses(env, SelectPasswords(args, readFile).pwds[k])
    ensures exit.Completed? <==> SelectPasswords(args, readFile).Batch?
    ensures exit.UnreadableFile? <==> SelectPasswords(args, readFile).FileError?
    ensures exit.UnreadableFile? ==> args.file.Some? && exit.file == args.file.value
    ensures !exit.Completed? ==> blocks == []
    ensures exit.Completed? ==>
      var pwds := SelectPasswords(args, readFile).pwds;
      |blocks| == |pwds| &&
      forall k :: 0 <= k < |pwds| ==> blocks[k] == AnalysisLines(pwds[k], EffectiveMinLength(args), env)
  {
    var selection := SelectPasswords(args, readFile);
    match selection {
      case FileError(file) =>
        exit, blocks := UnreadableFile(file), [];
      case NoInput =>
        exit, blocks := NoPasswordGiven, [];
      case Batch(pwds) =>
        blocks := AnalyzeAll(pwds, EffectiveMinLength(args), env);
        AnalysisBlocksSpec(pwds, EffectiveMinLength(args), env);
        exit := Completed;
    }
  }
}
