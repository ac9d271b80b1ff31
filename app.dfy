/**
  The web front end's `index` route: a GET renders the empty form, a POST
  runs every check on the submitted password with the fixed threshold 10
  and renders one report. Flask, routing and the HTML template are not
  modelled; the page is represented by the report it is rendered from.
 */
module WebApp {
  import opened Wrappers
  import opened PyText
  import opened PasswordUtils
  import PasswordChecker

  /** The web form's fixed threshold. */
  const WebMinLength: int := 10

  /** An incoming request: a GET, or a POST with its form fields. */
  datatype Request = Get | Post(form: map<string, string>)

  /** The `results` dictionary handed to the template. */
  datatype Report = Report(
    password: string,
    minLength: int,
    length: bool,
    types: CharTypes,
    common: bool,
    pwned: Option<nat>,
    score: int,
    feedback: Feedback)

  /** What the route answers: the template rendered with `results` (`None`
      on a GET), or Flask's 400 answer when the form has no `password` field. */
  datatype Page = Rendered(results: Option<Report>) | BadRequest

  /** Lines 102-118 of `index`: every check run once on the submitted password,
      with the oracle's score and feedback passed through. */
  function BuildReport(password: string, env: Collaborators): (r: Report)
    requires LookupParses(env, password)
    ensures r.password == password && r.minLength == WebMinLength
    ensures r.types == CheckCharTypes(password)
    ensures r.score == env.zxcvbn(password).score && r.feedback == env.zxcvbn(password).feedback
  {
    var lengthOk := CheckLength(password, WebMinLength);
    var types := CheckCharTypes(password);
    var common := CheckCommon(password, env.wordList);
    var pwned := Pwned(env, password);
    var strength := EvaluateStrength(password, env.zxcvbn);
    Report(password, WebMinLength, lengthOk, types, common, pwned, strength.0, strength.1)
  }

  /** The breach lookup for a POSTed password scans without error. */
  predicate PostParses(req: Request, env: Collaborators) {
    req.Post? && "password" in req.form ==> LookupParses(env, req.form["password"])
  }

  /** `index`: no report on a GET, exactly one report for the submitted,
      unmodified password on a POST, and a 400 when the field is missing. */
  function Index(req: Request, env: Collaborators): (page: Page)
    requires PostParses(req, env)
    ensures req.Get? ==> page == Rendered(None)
    ensures req.Post? && "password" !in req.form ==> page == BadRequest
    ensures req.Post? && "password" in req.form ==>
      page.Rendered? && page.results.Some? && page.results.value.password == req.form["password"]
    ensures req.Post? && "password" in req.form ==>
      page == Rendered(Some(BuildReport(req.form["password"], env)))
  {
    match req
    case Get => Rendered(None)
    case Post(form) =>
      if "password" in form then Rendered(Some(BuildReport(form["password"], env)))
      else BadRequest
  }

  /** The report's threshold is 10 and its length flag says whether the
      password has at least 10 code points. */
  lemma ReportLength(password: string, env: Collaborators)
    requires LookupParses(env, password)
    ensures BuildReport(password, env).minLength == 10
    ensures BuildReport(password, env).length <==> |password| >= 10
  {
  }

  /** A missing word list leaves the report's `common` field true (fail-open);
      otherwise it is false exactly when a stripped line equals the password. */
  lemma ReportCommon(password: string, env: Collaborators)
    requires LookupParses(env, password)
    ensures env.wordList.Missing? ==> BuildReport(password, env).common
    ensures env.wordList.Lines? ==>
      (!BuildReport(password, env).common <==>
        exists i :: 0 <= i < |env.wordList.lines| && Strip(env.wordList.lines[i]) == password)
  {
  }

  /** The report's `pwned` field: `None` after a transport failure or a
      non-200 status, 0 when the answer does not list the suffix, and the
      count on the first line listing it otherwise. */
  lemma ReportPwned(password: string, env: Collaborators)
    requires LookupParses(env, password)
    ensures var digest := env.digestOf(password);
      var resp := env.service(Prefix(digest));
      var r := BuildReport(password, env);
      (r.pwned.None? <==> (resp.TransportError? || resp.status != 200))
      && (resp.Http? && resp.status == 200 && NoMatch(resp.lines, Suffix(digest)) ==> r.pwned == Some(0))
      && (forall i :: resp.Http? && resp.status == 200 && IsFirstMatch(resp.lines, Suffix(digest), i) ==>
            r.pwned == Some(DecimalValue(AfterColon(resp.lines[i]))))
  {
  }

  /** The web report and the command-line block for the same password with
      `--min-length 10` carry the same check results. */
  lemma WebAgreesWithCli(password: string, env: Collaborators)
    requires LookupParses(env, password)
    ensures var r := BuildReport(password, env);
      var lines := PasswordChecker.AnalysisLines(password, 10, env);
      var k := if env.wordList.Missing? then 4 else 3;
      var b := if env.service(Prefix(env.digestOf(password))).TransportError? then k + 2 else k + 1;
      lines[0] == PasswordChecker.Analyzing(r.password)
      && lines[1] == PasswordChecker.LengthLine(r.minLength, r.length)
      && lines[2] == PasswordChecker.TypesLine(r.types)
      && lines[k] == PasswordChecker.CommonLine(r.common)
      && lines[b] == PasswordChecker.BreachLine(r.pwned)
      && lines[b + 1] == PasswordChecker.ScoreLine(r.score)
  {
  }

  /** The password `"password"`, with a word list that lists it, fails the
      length check and is flagged as common. */
  lemma PasswordExample(env: Collaborators)
    requires env.wordList == Lines(["123456\n", "password\n"])
    requires LookupParses(env, "password")
    ensures var r := BuildReport("password", env);
      !r.length && !r.common && r.password == "password" && r.minLength == 10
  {
    var line := env.wordList.lines[1];
    StripNewlineTerminated(line);
    assert line[..8] == "password";
  }
}
