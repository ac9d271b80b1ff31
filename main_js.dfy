/**
  The browser-side strength meter and the show/hide button of the password
  form. The score counts four conditions on the typed password; the bar,
  its colour class and the caption follow from the score. DOM lookups and
  event wiring are not modelled: the page's state is a class whose methods
  are the two event handlers.

  JavaScript strings are sequences of UTF-16 code units. A password is
  modelled as its code points, and `pwd.length` as their UTF-16 length. The
  three regular expressions give the same answer on code units and on code
  points: a surrogate half, like the astral character it belongs to, lies
  outside `[A-Za-z0-9]`.
 */
module StrengthMeter {
  import opened PyText
  import opened PasswordUtils

  /** `pwd.length`: characters outside the Basic Multilingual Plane count twice. */
  function Utf16Length(s: string): (n: nat)
    ensures |s| <= n <= 2 * |s|
  {
    if s == [] then 0 else (if s[0] as int >= 0x1_0000 then 2 else 1) + Utf16Length(s[1..])
  }

  /** Within the Basic Multilingual Plane the JavaScript length is the code-point count. */
  lemma {:induction false} Utf16LengthBmp(s: string)
    requires forall i :: 0 <= i < |s| ==> s[i] as int < 0x1_0000
    ensures Utf16Length(s) == |s|
  {
    if s != [] {
      Utf16LengthBmp(s[1..]);
    }
  }

  /** One character is one UTF-16 unit, or two (a surrogate pair) outside the
      Basic Multilingual Plane. */
  lemma Utf16LengthChar(c: char)
    ensures Utf16Length([c]) == if c as int >= 0x1_0000 then 2 else 1
  {
  }

  /** The JavaScript length of a concatenation is the sum of the lengths. */
  lemma {:induction false} Utf16LengthAppend(a: string, b: string)
    ensures Utf16Length(a + b) == Utf16Length(a) + Utf16Length(b)
  {
    if a == [] {
      assert a + b == b;
    } else {
      assert (a + b)[0] == a[0];
      assert (a + b)[1..] == a[1..] + b;
      Utf16LengthAppend(a[1..], b);
    }
  }

  /** The four conditions `updateStrength` awards a point for. Lowercase
      letters are not among them. */
  datatype Condition = LongEnough | HasUpper | HasDigit | HasSpecial

  const AllConditions: set<Condition> := {LongEnough, HasUpper, HasDigit, HasSpecial}

  /** At least 8 UTF-16 units, an upper-case ASCII letter, an ASCII digit,
      and a character that is not an ASCII letter or digit. */
  predicate Holds(c: Condition, pwd: string) {
    match c
    case LongEnough => Utf16Length(pwd) >= 8
    case HasUpper => Search(Upper, pwd)
    case HasDigit => Search(AsciiDigit, pwd)
    case HasSpecial => Search(NonAlnum, pwd)
  }

  /** The conditions the password meets; the score is their number. */
  function Satisfied(pwd: string): (met: set<Condition>)
    ensures met <= AllConditions
  {
    set c | c in AllConditions && Holds(c, pwd)
  }

  function Point(b: bool): nat {
    if b then 1 else 0
  }

  /** `met` with `c` added when `b` holds: one more element exactly when `c` is new and `b` holds. */
  function AddIf(met: set<Condition>, c: Condition, b: bool): (r: set<Condition>)
    ensures c !in met ==> |r| == |met| + Point(b)
    ensures c in r <==> c in met || b
    ensures forall d :: d != c ==> (d in r <==> d in met)
  {
    if b then met + {c} else met
  }

  /** The conditions picked out by four answers, and their number. */
  function Picked(long: bool, upper: bool, digit: bool, special: bool): (met: set<Condition>)
    ensures |met| == Point(long) + Point(upper) + Point(digit) + Point(special)
    ensures met <= AllConditions
    ensures (LongEnough in met <==> long) && (HasUpper in met <==> upper)
    ensures (HasDigit in met <==> digit) && (HasSpecial in met <==> special)
  {
    var a := AddIf({}, LongEnough, long);
    assert a <= {LongEnough};
    var b := AddIf(a, HasUpper, upper);
    assert b <= {LongEnough, HasUpper};
    var c := AddIf(b, HasDigit, digit);
    assert c <= {LongEnough, HasUpper, HasDigit};
    AddIf(c, HasSpecial, special)
  }

  /** The number of conditions met, one condition at a time. */
  lemma SatisfiedCount(pwd: string)
    ensures |Satisfied(pwd)| == Point(Holds(LongEnough, pwd)) + Point(Holds(HasUpper, pwd))
      + Point(Holds(HasDigit, pwd)) + Point(Holds(HasSpecial, pwd))
  {
    var long, upper, digit, special := Holds(LongEnough, pwd), Holds(HasUpper, pwd), Holds(HasDigit, pwd), Holds(HasSpecial, pwd);
    var met := Picked(long, upper, digit, special);
    forall c | c in AllConditions
      ensures c in met <==> Holds(c, pwd)
    {
      match c
      case LongEnough =>
      case HasUpper =>
      case HasDigit =>
      case HasSpecial =>
    }
    SatisfiedExactly(pwd, met);
  }

  /** A set of conditions that holds exactly the conditions met is `Satisfied`. */
  lemma SatisfiedExactly(pwd: string, met: set<Condition>)
    requires met <= AllConditions
    requires forall c :: c in AllConditions ==> (c in met <==> Holds(c, pwd))
    ensures met == Satisfied(pwd)
  {
  }

  /** The score of `updateStrength`: one point per condition met, then
      capped at 4 by `Math.min`, which never changes it. */
  method ComputeScore(pwd: string) returns (score: nat)
    ensures score == |Satisfied(pwd)|
    ensures score <= 4
  {
    score := 0;
    if Utf16Length(pwd) >= 8 {
      score := score + 1;
    }
    if Search(Upper, pwd) {
      score := score + 1;
    }
    if Search(AsciiDigit, pwd) {
      score := score + 1;
    }
    if Search(NonAlnum, pwd) {
      score := score + 1;
    }
    var capped := if score < 4 then score else 4;
    assert capped == score;
    score := capped;
    SatisfiedCount(pwd);
  }

  /** At most four conditions can hold, so the score indexes both tables. */
  lemma ScoreInRange(pwd: string)
    ensures |Satisfied(pwd)| <= 4 < |StrengthNames| == |StrengthColors|
  {
    var met := Satisfied(pwd);
    assert |AllConditions| == 4;
    SubsetCardinality(met, AllConditions);
  }

  lemma SubsetCardinality(a: set<Condition>, b: set<Condition>)
    requires a <= b
    ensures |a| <= |b|
  {
    assert b == a + (b - a);
  }

  /** The empty password meets no condition and reads 'Very Weak'. */
  lemma EmptyScoresZero()
    ensures Satisfied("") == {}
    ensures StrengthNames[|Satisfied("")|] == "Very Weak"
  {
    assert !Holds(LongEnough, "") && !Holds(HasUpper, "") && !Holds(HasDigit, "") && !Holds(HasSpecial, "");
  }

  /** Lowercase letters earn nothing: a password of lowercase letters can at
      most be long enough, so it scores at most 1. */
  lemma LowercaseEarnsNothing(pwd: string)
    requires forall i :: 0 <= i < |pwd| ==> 'a' <= pwd[i] <= 'z'
    ensures Satisfied(pwd) <= {LongEnough}
    ensures |Satisfied(pwd)| <= 1
  {
    assert !Search(Upper, pwd) && !Search(AsciiDigit, pwd) && !Search(NonAlnum, pwd);
    assert Satisfied(pwd) <= {LongEnough};
    SubsetCardinality(Satisfied(pwd), {LongEnough});
  }

  /** The browser's upper-case and special conditions are the server's
      `uppercase` and `special` flags. Its digit condition implies the
      server's `digits` flag; the converse holds only when every decimal
      digit in the password is an ASCII one. */
  lemma ConditionsMatchCharTypes(pwd: string)
    ensures HasUpper in Satisfied(pwd) <==> CheckCharTypes(pwd).uppercase
    ensures HasSpecial in Satisfied(pwd) <==> CheckCharTypes(pwd).special
    ensures HasDigit in Satisfied(pwd) ==> CheckCharTypes(pwd).digits
    ensures (forall i :: 0 <= i < |pwd| && IsUnicodeDigit(pwd[i]) ==> pwd[i] <= '9') ==>
      (CheckCharTypes(pwd).digits ==> HasDigit in Satisfied(pwd))
  {
    CharTypesMeaning(pwd);
    if HasDigit in Satisfied(pwd) {
      var i :| 0 <= i < |pwd| && Matches(AsciiDigit, pwd[i]);
      assert IsUnicodeDigit(pwd[i]);
    }
    if (forall i :: 0 <= i < |pwd| && IsUnicodeDigit(pwd[i]) ==> pwd[i] <= '9') && CheckCharTypes(pwd).digits {
      var i :| 0 <= i < |pwd| && IsUnicodeDigit(pwd[i]);
      assert Matches(AsciiDigit, pwd[i]);
    }
  }

  /** The two sides disagree on a non-ASCII decimal digit: the Arabic-Indic
      digit three raises the server's `digits` flag but earns no browser point. */
  lemma NonAsciiDigitDisagreement()
    ensures CheckCharTypes("\U{0663}").digits
    ensures HasDigit !in Satisfied("\U{0663}")
  {
    var s := "\U{0663}";
    assert NonAsciiDigitRuns[|NonAsciiDigitRuns| - 1] == ('\U{0660}', '\U{0669}');
    assert InRuns(s[0], NonAsciiDigitRuns);
    assert Matches(Digit, s[0]);
    assert !Matches(AsciiDigit, s[0]);
  }

  /** `strengthNames` and `strengthColors`. */
  const StrengthNames: seq<string> := ["Very Weak", "Weak", "Medium", "Strong", "Very Strong"]
  const StrengthColors: seq<string> := ["bg-red-500", "bg-orange-500", "bg-yellow-400", "bg-green-400", "bg-green-600"]

  /** The first `n` colour classes. */
  function ColorsBefore(n: nat): set<string>
    requires n <= |StrengthColors|
  {
    set k | 0 <= k < n :: StrengthColors[k]
  }

  /** The five colour classes. */
  function ColorSet(): set<string> {
    ColorsBefore(|StrengthColors|)
  }

  /** The colour part of the caption's class: red below 2, yellow at 2, green from 3. */
  function TextColor(score: int): string {
    if score < 2 then "text-red-600" else if score < 3 then "text-yellow-600" else "text-green-600"
  }

  function TextClassName(score: int): string {
    "mt-2 text-sm font-medium " + TextColor(score)
  }

  /** The caption colour bands cover every score, and scores of the same band share a colour. */
  lemma TextColorBands(score: int)
    ensures TextColor(score) == "text-red-600" <==> score < 2
    ensures TextColor(score) == "text-yellow-600" <==> score == 2
    ensures TextColor(score) == "text-green-600" <==> score >= 3
  {
  }

  /** The input's type and the toggle button's caption. */
  datatype ToggleState = ToggleState(inputType: string, buttonText: string)

  /** The button reads 'Show' exactly while the password is hidden. */
  predicate Consistent(s: ToggleState) {
    s.buttonText == (if s.inputType == "password" then "Show" else "Hide")
  }

  /** One click of the toggle button. */
  function Click(s: ToggleState): (t: ToggleState)
    ensures Consistent(t)
    ensures t.inputType == "password" || t.inputType == "text"
    ensures t.inputType == "text" <==> s.inputType == "password"
  {
    var inputType := if s.inputType == "password" then "text" else "password";
    ToggleState(inputType, if inputType == "password" then "Show" else "Hide")
  }

  /** Clicking twice restores a consistent state showing either type. */
  lemma ClickTwiceRestores(s: ToggleState)
    requires Consistent(s) && (s.inputType == "password" || s.inputType == "text")
    ensures Click(Click(s)) == s
    ensures Click(s) != s
  {
  }

  /** After the first click the button alternates between two states, from any start. */
  lemma ClickIsTwoStateCycle(s: ToggleState)
    ensures Click(Click(Click(s))) == Click(s)
  {
  }

  /** The password form: the input's text and type, the toggle button's
      caption, and the strength bar with its caption. */
  class PasswordForm {
    var value: string
    var inputType: string
    var buttonText: string
    var barValue: int
    var barClasses: set<string>
    var text: string
    var textClass: string

    function Toggle(): ToggleState
      reads this
    {
      ToggleState(inputType, buttonText)
    }

    /** The bar and caption show `score`, with exactly one colour class on the bar. */
    ghost predicate Shows(score: nat)
      reads this
    {
      score < |StrengthColors|
      && barValue == score
      && barClasses * ColorSet() == {StrengthColors[score]}
      && text == StrengthNames[score]
      && textClass == TextClassName(score)
    }

    /** Page load: the elements as the HTML gives them, then one strength update. */
    constructor (initialValue: string, initialType: string, initialButton: string, initialClasses: set<string>)
      ensures value == initialValue && Toggle() == ToggleState(initialType, initialButton)
      ensures Shows(|Satisfied(initialValue)|)
      ensures barClasses == (initialClasses - ColorSet()) + {StrengthColors[barValue]}
    {
      value := initialValue;
      inputType := initialType;
      buttonText := initialButton;
      barValue := 0;
      barClasses := initialClasses;
      text := "";
      textClass := "";
      new;
      UpdateStrength();
    }

    /** `updateStrength`: score the current text, drop every colour class,
        add the one for the score, and set the caption and its class. */
    method UpdateStrength()
      modifies this
      ensures value == old(value) && Toggle() == old(Toggle())
      ensures Shows(|Satisfied(value)|)
      ensures barClasses == (old(barClasses) - ColorSet()) + {StrengthColors[barValue]}
    {
      var score := ComputeScore(value);
      barValue := score;
      // remove each colour class in table order
      var i := 0;
      while i < |StrengthColors|
        invariant 0 <= i <= |StrengthColors|
        invariant barClasses == old(barClasses) - ColorsBefore(i)
        invariant value == old(value) && Toggle() == old(Toggle()) && barValue == score
      {
        assert ColorsBefore(i + 1) == ColorsBefore(i) + {StrengthColors[i]};
        barClasses := barClasses - {StrengthColors[i]};
        i := i + 1;
      }
      barClasses := barClasses + {StrengthColors[score]};
      assert StrengthColors[score] in ColorSet();
      text := StrengthNames[score];
      textClass := TextClassName(score);
    }

    /** The `input` event: the new text, then `updateStrength`. */
    method Input(newValue: string)
      modifies this
      ensures value == newValue && Toggle() == old(Toggle())
      ensures Shows(|Satisfied(newValue)|)
      ensures barClasses == (old(barClasses) - ColorSet()) + {StrengthColors[barValue]}
    {
      value := newValue;
      UpdateStrength();
    }

    /** The toggle button's `click` handler; the bar is untouched. */
    method ToggleClick()
      modifies this
      ensures Toggle() == Click(old(Toggle()))
      ensures value == old(value) && barValue == old(barValue) && barClasses == old(barClasses)
      ensures text == old(text) && textClass == old(textClass)
    {
      var t := if inputType == "password" then "text" else "password";
      inputType := t;
      buttonText := if t == "password" then "Show" else "Hide";
    }
  }
}
