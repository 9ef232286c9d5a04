/** The command line of example.py: the country and language checks `main`
    makes before doing anything (example.py:228-240) and the command table
    `example_command` dispatches through (example.py:140-152). */
module Cli {
  import opened Ascii

  // ---------------------------------------------------------------------
  // What the two regular expressions accept, stated declaratively
  // ---------------------------------------------------------------------

  /** Two or three upper-case letters and nothing else. */
  predicate UpperCode(s: string) {
    2 <= |s| <= 3 && forall i :: 0 <= i < |s| ==> IsUpper(s[i])
  }

  /** The texts `^[A-Z]{2,3}$` matches. Python's `$` matches at the very end
      and also just before a final newline, so one trailing "\n" is allowed. */
  predicate CountryShape(s: string) {
    UpperCode(s) || (|s| > 0 && s[|s| - 1] == '\n' && UpperCode(s[..|s| - 1]))
  }

  /** `s` starts with `l` lower-case letters and a '-', and the rest has the
      country shape. */
  predicate LanguageSplit(s: string, l: nat) {
    l < |s| && (forall i :: 0 <= i < l ==> IsLower(s[i])) && s[l] == '-' && CountryShape(s[l + 1..])
  }

  /** The texts `^[a-z]{2,3}-[A-Z]{2,3}$` matches. */
  predicate LanguageShape(s: string) {
    LanguageSplit(s, 2) || LanguageSplit(s, 3)
  }

  // ---------------------------------------------------------------------
  // The matchers
  // ---------------------------------------------------------------------

  /** Whether `$` matches at position `n` of `s`. */
  predicate EndAt(s: string, n: nat) {
    n == |s| || (n + 1 == |s| && s[n] == '\n')
  }

  /** The country check: the greedy `[A-Z]{2,3}` run, then `$`. Giving back
      a letter cannot help, since `$` never matches before a letter. */
  function CountryOk(s: string): (r: bool)
    ensures r ==> |s| >= 2 && IsUpper(s[0]) && IsUpper(s[1])
  {
    var n := UpperRun(s);
    2 <= n <= 3 && EndAt(s, n)
  }

  /** The language check: the greedy lower-case run, a '-', then the country
      pattern on the rest. */
  function LanguageOk(s: string): (r: bool)
    ensures r ==> |s| >= 5 && IsLower(s[0]) && IsLower(s[1])
  {
    var l := LowerRun(s);
    2 <= l <= 3 && l < |s| && s[l] == '-' && CountryOk(s[l + 1..])
  }

  /** The country matcher accepts exactly the country shape. */
  lemma CountryOkSpec(s: string)
    ensures CountryOk(s) <==> CountryShape(s)
  {
    var n := UpperRun(s);
    if CountryOk(s) {
      if n == |s| {
        assert UpperCode(s);
      } else {
        assert s[..|s| - 1] == s[..n];
        assert UpperCode(s[..|s| - 1]);
      }
    }
    if UpperCode(s) {
      assert n == |s|;
    } else if |s| > 0 && s[|s| - 1] == '\n' && UpperCode(s[..|s| - 1]) {
      var c := s[..|s| - 1];
      assert forall i :: 0 <= i < |c| ==> IsUpper(s[i]) by {
        forall i | 0 <= i < |c| ensures IsUpper(s[i]) { assert s[i] == c[i]; }
      }
      assert n == |c|;
    }
  }

  /** The language matcher accepts exactly the language shape. */
  lemma LanguageOkSpec(s: string)
    ensures LanguageOk(s) <==> LanguageShape(s)
  {
    var l := LowerRun(s);
    if 2 <= l <= 3 && l < |s| {
      CountryOkSpec(s[l + 1..]);
    }
    if LanguageSplit(s, 2) {
      assert l == 2;
      CountryOkSpec(s[3..]);
    }
    if LanguageSplit(s, 3) {
      assert l == 3;
      CountryOkSpec(s[4..]);
    }
  }

  lemma CountryExamples()
    ensures CountryOk("US") && CountryOk("KOR") && CountryOk("NO\n")
    ensures !CountryOk("us") && !CountryOk("U") && !CountryOk("USAX") && !CountryOk("US\n\n")
  {
  }

  lemma EnUsAccepted()
    ensures LanguageOk("en-US")
  {
  }

  lemma KorKrAccepted()
    ensures LanguageOk("kor-KR")
  {
  }

  lemma LanguageRejected()
    ensures !LanguageOk("EN-us") && !LanguageOk("enUS") && !LanguageOk("engl-US")
  {
  }

  // ---------------------------------------------------------------------
  // The checks in `main` (example.py:228-240)
  // ---------------------------------------------------------------------

  datatype Field = CountryField | LanguageField

  /** Either go on to `example`, or log the field at fault and exit with the
      given status. */
  datatype Verdict = Accepted | Rejected(status: int, field: Field)

  /** The country is checked first; either failure exits with status 1
      before `example` runs. */
  function ValidateArgs(country: string, language: string): (r: Verdict)
    ensures r == Accepted <==> CountryShape(country) && LanguageShape(language)
    ensures !CountryShape(country) ==> r == Rejected(1, CountryField)
    ensures CountryShape(country) && !LanguageShape(language) ==> r == Rejected(1, LanguageField)
  {
    CountryOkSpec(country);
    LanguageOkSpec(language);
    if !CountryOk(country) then Rejected(1, CountryField)
    else if !LanguageOk(language) then Rejected(1, LanguageField)
    else Accepted
  }

  // ---------------------------------------------------------------------
  // The command table (example.py:140-152)
  // ---------------------------------------------------------------------

  /** The two handlers: `ls(client)` and `mon(client, device_id)`. */
  datatype Command = Ls | Mon

  const ExampleCommands: map<string, Command> := map["ls" := Ls, "mon" := Mon]

  /** What `example_command` ends up doing. A handler called with the wrong
      number of arguments raises a `TypeError` in the source. */
  datatype Dispatch =
    | InvalidCommand(cmd: string)
    | ListDevices
    | MonitorDevice(deviceId: string)
    | ArityError(command: Command, given: nat)

  /** Look the command up; an unknown one is logged and nothing is called. */
  function ExampleCommand(cmd: string, args: seq<string>): (r: Dispatch)
    ensures r.InvalidCommand? <==> cmd != "ls" && cmd != "mon"
    ensures r == ListDevices <==> cmd == "ls" && args == []
    ensures r.MonitorDevice? <==> cmd == "mon" && |args| == 1
    ensures r.MonitorDevice? ==> r.deviceId == args[0]
    ensures r.ArityError? ==> r.given == |args|
  {
    if cmd !in ExampleCommands then InvalidCommand(cmd)
    else
      match ExampleCommands[cmd]
      case Ls => if args == [] then ListDevices else ArityError(Ls, |args|)
      case Mon => if |args| == 1 then MonitorDevice(args[0]) else ArityError(Mon, |args|)
  }
}
