/** The registration page of the Glewlwyd web application: the list of
    mandatory steps that gates finalising a registration, the password
    validator and the username checks with their suggestion search.

    Remote calls are modelled by their replies, given as inputs; the
    application messages the page sends and the requests it issues are
    appended to two logs, `sent` and `requests`. */
module Register {
  import opened Wrappers
  import opened Text

  // ---------------------------------------------------------------------------
  // Configuration and the mandatory-step list

  /** A scheme of the registration plugin's configuration. An absent
      `display_name` is the empty string. */
  datatype Scheme = Scheme(name: string, displayName: string, register: string)

  /** `set-password`, `verify-email`, `email-is-username` and `schemes` of the
      registration plugin's configuration. */
  datatype RegisterConfig = RegisterConfig(
    setPassword: string,
    verifyEmail: bool,
    emailIsUsername: bool,
    schemes: seq<Scheme>)

  /** The profile being registered, as far as the page reads it. */
  datatype Profile = Profile(name: string, passwordSet: bool)

  /** An outstanding step: setting the password, or registering the scheme at
      configured position `key - 1`, shown under `caption`. */
  datatype Step = PasswordStep | SchemeStep(key: nat, caption: string)

  /** The React key of a step's list item: 0 for the password step, the
      scheme's position plus one otherwise. */
  function StepKey(step: Step): nat {
    if step.PasswordStep? then 0 else step.key
  }

  /** `registerSchemes[name]` is truthy: the scheme is registered. */
  predicate Done(registered: map<string, bool>, name: string) {
    name in registered && registered[name]
  }

  /** A scheme adds a step when its registration is mandatory and not done. */
  predicate SchemePending(scheme: Scheme, registered: map<string, bool>) {
    scheme.register == "always" && !Done(registered, scheme.name)
  }

  /** `scheme.display_name || scheme.name`. */
  function Label(scheme: Scheme): string {
    if scheme.displayName != "" then scheme.displayName else scheme.name
  }

  /** The password step is outstanding. */
  predicate PasswordPending(config: RegisterConfig, passwordSet: bool) {
    config.setPassword == "always" && !passwordSet
  }

  /** The steps the configured schemes add, in configured order. */
  function SchemeSteps(schemes: seq<Scheme>, registered: map<string, bool>): seq<Step>
    decreases |schemes|
  {
    if schemes == [] then []
    else
      var i := |schemes| - 1;
      SchemeSteps(schemes[..i], registered)
      + (if SchemePending(schemes[i], registered) then [SchemeStep(i + 1, Label(schemes[i]))] else [])
  }

  /** The outstanding mandatory steps: the password step first, then one step
      per pending scheme. */
  function PendingSteps(config: RegisterConfig, passwordSet: bool, registered: map<string, bool>): (steps: seq<Step>)
    ensures |steps| <= |config.schemes| + 1
  {
    SchemeStepsLength(config.schemes, registered);
    (if PasswordPending(config, passwordSet) then [PasswordStep] else [])
    + SchemeSteps(config.schemes, registered)
  }

  /** A scheme adds at most one step. */
  lemma {:induction false} SchemeStepsLength(schemes: seq<Scheme>, registered: map<string, bool>)
    ensures |SchemeSteps(schemes, registered)| <= |schemes|
    decreases |schemes|
  {
    if schemes != [] {
      SchemeStepsLength(schemes[..|schemes| - 1], registered);
    }
  }

  /** Every scheme step comes from a configured position, and the password
      step never comes from a scheme. */
  lemma {:induction false} SchemeStepsKeys(schemes: seq<Scheme>, registered: map<string, bool>)
    ensures forall s :: s in SchemeSteps(schemes, registered) ==> s.SchemeStep? && 1 <= s.key <= |schemes|
    decreases |schemes|
  {
    if schemes != [] {
      SchemeStepsKeys(schemes[..|schemes| - 1], registered);
    }
  }

  /** A step for the scheme at position `k - 1` is listed exactly when that
      scheme is mandatory and not yet registered; "optional" and "no" schemes
      never add a step. */
  lemma {:induction false} SchemeStepListed(schemes: seq<Scheme>, registered: map<string, bool>, k: nat, caption: string)
    ensures SchemeStep(k, caption) in SchemeSteps(schemes, registered) <==>
              1 <= k <= |schemes| && SchemePending(schemes[k - 1], registered) && caption == Label(schemes[k - 1])
    decreases |schemes|
  {
    if schemes != [] {
      var init := schemes[..|schemes| - 1];
      SchemeStepListed(init, registered, k, caption);
      SchemeStepsKeys(init, registered);
      if 1 <= k < |schemes| {
        assert init[k - 1] == schemes[k - 1];
      }
    }
  }

  /** Scheme steps appear in configured order: their keys strictly increase. */
  lemma {:induction false} SchemeStepsOrdered(schemes: seq<Scheme>, registered: map<string, bool>)
    ensures forall i, j :: 0 <= i < j < |SchemeSteps(schemes, registered)| ==>
              StepKey(SchemeSteps(schemes, registered)[i]) < StepKey(SchemeSteps(schemes, registered)[j])
    decreases |schemes|
  {
    if schemes != [] {
      var init := schemes[..|schemes| - 1];
      SchemeStepsOrdered(init, registered);
      SchemeStepsKeys(init, registered);
      var steps := SchemeSteps(schemes, registered);
      var front := SchemeSteps(init, registered);
      var last := schemes[|schemes| - 1];
      var tail := if SchemePending(last, registered) then [SchemeStep(|schemes|, Label(last))] else [];
      assert steps == front + tail;
      forall i, j | 0 <= i < j < |steps|
        ensures StepKey(steps[i]) < StepKey(steps[j])
      {
        assert steps[i] == front[i];
        assert front[i] in front;
        assert front[i].key <= |init|;
        if j >= |front| {
          assert steps[j] == tail[j - |front|];
          assert steps[j].key == |schemes|;
        } else {
          assert steps[j] == front[j];
          assert StepKey(front[i]) < StepKey(front[j]);
        }
      }
    }
  }

  /** The password step is listed exactly when the configuration demands a
      password the profile does not have, and then it is the first step. */
  lemma PasswordStepFirst(config: RegisterConfig, passwordSet: bool, registered: map<string, bool>)
    ensures PasswordStep in PendingSteps(config, passwordSet, registered) <==> PasswordPending(config, passwordSet)
    ensures PasswordPending(config, passwordSet) ==> PendingSteps(config, passwordSet, registered)[0] == PasswordStep
  {
    SchemeStepsKeys(config.schemes, registered);
  }

  /** The listed steps are in the order of their keys: the password step
      first, then the schemes in configured order. */
  lemma PendingStepsOrdered(config: RegisterConfig, passwordSet: bool, registered: map<string, bool>)
    ensures forall i, j :: 0 <= i < j < |PendingSteps(config, passwordSet, registered)| ==>
              StepKey(PendingSteps(config, passwordSet, registered)[i]) < StepKey(PendingSteps(config, passwordSet, registered)[j])
  {
    var schemeSteps := SchemeSteps(config.schemes, registered);
    SchemeStepsOrdered(config.schemes, registered);
    SchemeStepsKeys(config.schemes, registered);
    var steps := PendingSteps(config, passwordSet, registered);
    if PasswordPending(config, passwordSet) {
      forall i, j | 0 <= i < j < |steps| ensures StepKey(steps[i]) < StepKey(steps[j]) {
        assert steps[j] == schemeSteps[j - 1];
        assert schemeSteps[j - 1] in schemeSteps;
        if i > 0 {
          assert steps[i] == schemeSteps[i - 1];
        }
      }
    }
  }

  /** Registration may be finalised exactly when every demand of the
      configuration is met: the password, if demanded, is set, and every
      mandatory scheme is registered. */
  lemma CompletionAllowed(config: RegisterConfig, passwordSet: bool, registered: map<string, bool>)
    ensures PendingSteps(config, passwordSet, registered) == [] <==>
              && (config.setPassword == "always" ==> passwordSet)
              && forall i :: 0 <= i < |config.schemes| && config.schemes[i].register == "always" ==>
                               Done(registered, config.schemes[i].name)
  {
    var steps := PendingSteps(config, passwordSet, registered);
    if steps == [] {
      forall i | 0 <= i < |config.schemes| && config.schemes[i].register == "always"
        ensures Done(registered, config.schemes[i].name)
      {
        SchemeStepListed(config.schemes, registered, i + 1, Label(config.schemes[i]));
      }
    } else if !PasswordPending(config, passwordSet) {
      var s := steps[0];
      assert s in SchemeSteps(config.schemes, registered);
      SchemeStepsKeys(config.schemes, registered);
      SchemeStepListed(config.schemes, registered, s.key, s.caption);
    }
  }

  /** What the page shows below the form: the completion message once the
      registration is complete, otherwise the outstanding steps with the
      complete button, wired to `completeRegistration` only when `enabled`. */
  datatype Panel = CompletedPanel | StepsPanel(steps: seq<Step>, enabled: bool) | NoPanel

  // ---------------------------------------------------------------------------
  // Password validation

  /** `config.PasswordMinLength || 8`: a missing or zero minimum means 8. */
  function MinPasswordLength(configured: Option<int>): int
  {
    if configured.None? || configured.value == 0 then 8 else configured.value
  }

  /** JavaScript's `length` of a string: the number of UTF-16 code units,
      two for a character outside the Basic Multilingual Plane. */
  function Utf16Length(s: string): (n: nat)
    ensures |s| <= n <= 2 * |s|
    decreases |s|
  {
    if s == [] then 0
    else Utf16Length(s[..|s| - 1]) + (if s[|s| - 1] as int > 0xFFFF then 2 else 1)
  }

  /** For text inside the Basic Multilingual Plane, JavaScript's length is
      the number of characters. */
  lemma {:induction false} Utf16LengthBmp(s: string)
    requires forall k :: 0 <= k < |s| ==> s[k] as int <= 0xFFFF
    ensures Utf16Length(s) == |s|
    decreases |s|
  {
    if s != [] {
      Utf16LengthBmp(s[..|s| - 1]);
    }
  }

  /** Two strings together are as long, in UTF-16 code units, as the two apart,
      and one character is two units above U+FFFF and one otherwise: the
      length of any string is the sum of its characters' widths. */
  lemma {:induction false} Utf16LengthConcat(s: string, t: string)
    ensures Utf16Length(s + t) == Utf16Length(s) + Utf16Length(t)
    ensures |t| == 1 ==> Utf16Length(t) == if t[0] as int > 0xFFFF then 2 else 1
    decreases |t|
  {
    if t == [] {
      assert s + t == s;
    } else {
      assert (s + t)[..|s + t| - 1] == s + t[..|t| - 1];
      Utf16LengthConcat(s, t[..|t| - 1]);
      assert t[..|t| - 1] == [] ==> Utf16Length(t[..|t| - 1]) == 0;
    }
  }

  datatype PasswordError = Mismatch | TooShort(minimum: int)

  /** `checkPassword`'s decision: no error while both fields are empty, a
      mismatch before a short password. */
  function PasswordCheck(password: string, confirm: string, minimum: int): (r: Option<PasswordError>)
    ensures password == "" && confirm == "" ==> r.None?
    ensures r == Some(Mismatch) <==> password != confirm
    ensures r == Some(TooShort(minimum)) <==> password == confirm && password != "" && Utf16Length(password) < minimum
    ensures r == None || r == Some(Mismatch) || r == Some(TooShort(minimum))
  {
    if password != "" || confirm != "" then
      if password != confirm then Some(Mismatch)
      else if Utf16Length(password) < minimum then Some(TooShort(minimum))
      else None
    else None
  }

  /** The gate of `saveNameOrPassword`: a password is sent only with no
      pending error and at least the minimum length. */
  predicate SendsPassword(invalid: Option<PasswordError>, password: string, minimum: int) {
    invalid.None? && Utf16Length(password) >= minimum
  }

  /** With no minimum configured, or a minimum of 0, a password typed twice is
      sent exactly when it is at least 8 UTF-16 code units long. */
  lemma DefaultMinimumIsEight(p: string, configured: Option<int>)
    requires configured.None? || configured == Some(0)
    ensures SendsPassword(PasswordCheck(p, p, MinPasswordLength(configured)), p, MinPasswordLength(configured))
      <==> Utf16Length(p) >= 8
  {
  }

  /** Any other configured minimum is used as it is. */
  lemma ConfiguredMinimumUsed(p: string, minimum: int)
    requires minimum != 0
    ensures SendsPassword(PasswordCheck(p, p, MinPasswordLength(Some(minimum))), p, MinPasswordLength(Some(minimum)))
      <==> Utf16Length(p) >= minimum
  {
  }

  /** Four characters outside the Basic Multilingual Plane are eight UTF-16
      code units, so they pass the default minimum of 8. */
  lemma AstralPasswordLongEnough()
    ensures var p := "\U{1F600}\U{1F600}\U{1F600}\U{1F600}";
      && |p| == 4 && Utf16Length(p) == 8
      && PasswordCheck(p, p, MinPasswordLength(None)).None?
      && SendsPassword(PasswordCheck(p, p, MinPasswordLength(None)), p, MinPasswordLength(None))
  {
    var p := "\U{1F600}\U{1F600}\U{1F600}\U{1F600}";
    assert p[..1][..0] == [];
    assert Utf16Length(p[..1]) == 2;
    assert p[..2][..1] == p[..1];
    assert Utf16Length(p[..2]) == 4;
    assert p[..3][..2] == p[..2];
    assert Utf16Length(p[..3]) == 6;
    assert p[..3] == p[..|p| - 1];
  }

  /** After `checkPassword`, a password is sent exactly when both fields agree
      and it is long enough. */
  lemma PasswordGate(password: string, confirm: string, minimum: int)
    ensures SendsPassword(PasswordCheck(password, confirm, minimum), password, minimum) <==>
              password == confirm && Utf16Length(password) >= minimum
  {
  }

  // ---------------------------------------------------------------------------
  // Username suggestions

  /** The reply to a request: success, a 400 status, or any other failure. */
  datatype Reply = Success | BadRequest | OtherFailure

  /** A number of the form `Math.floor(Math.random() * 100)`. */
  type Suffix = n: nat | n < 100

  /** One suggestion probe: the random suffix drawn and the reply it got. */
  datatype Probe = Probe(suffix: Suffix, reply: Reply)

  /** The decimal digits of `n`, as JavaScript's string concatenation writes
      a number. */
  function Decimal(n: nat): (s: string)
    ensures 1 <= |s|
    decreases n
  {
    if n < 10 then ["0123456789"[n]] else Decimal(n / 10) + ["0123456789"[n % 10]]
  }

  /** Every character is a decimal digit. */
  predicate AllDigits(s: string) {
    forall k :: 0 <= k < |s| ==> '0' <= s[k] <= '9'
  }

  /** `Decimal` writes only digits, and at most two for a suffix below 100. */
  lemma {:induction false} DecimalDigits(n: nat)
    ensures AllDigits(Decimal(n))
    ensures n < 100 ==> |Decimal(n)| <= 2
    decreases n
  {
    if n >= 10 {
      DecimalDigits(n / 10);
      assert |Decimal(n / 10)| == 1 || n >= 100 by {
        if n < 100 {
          assert n / 10 < 10;
        }
      }
    }
  }

  /** The candidate name of a probe. */
  function Candidate(username: string, suffix: Suffix): string {
    username + Decimal(suffix)
  }

  datatype SearchEnd = Capped | Suggested(username: string) | ConnectionError | Unanswered

  /** The candidates probed, in order, and how the search ended. */
  datatype SearchRun = SearchRun(probed: seq<string>, end: SearchEnd)

  /** The chain of probes `getUsernameSuggestion` issues from the probe at
      position `i` on: a 400 reply probes again without touching the counter,
      any other reply ends the search. `Unanswered` means the run has used up
      the given replies. */
  function ProbeRunFrom(username: string, probes: seq<Probe>, i: nat): SearchRun
    requires i <= |probes|
    decreases |probes| - i
  {
    if i == |probes| then SearchRun([], Unanswered)
    else
      var candidate := Candidate(username, probes[i].suffix);
      match probes[i].reply
      case Success => SearchRun([candidate], Suggested(candidate))
      case OtherFailure => SearchRun([candidate], ConnectionError)
      case BadRequest =>
        var rest := ProbeRunFrom(username, probes, i + 1);
        SearchRun([candidate] + rest.probed, rest.end)
  }

  function ProbeRun(username: string, probes: seq<Probe>): SearchRun {
    ProbeRunFrom(username, probes, 0)
  }

  /** `getUsernameSuggestion` from a counter value: nothing once ten
      suggestions were made. */
  function Search(counter: int, username: string, probes: seq<Probe>): SearchRun {
    if counter < 10 then ProbeRun(username, probes) else SearchRun([], Capped)
  }

  /** The search stops at the first reply that is not a 400: it has probed
      exactly the candidates up to that one, and suggests that candidate on
      success or reports a connection error otherwise. */
  lemma {:induction false} SearchStopsAtFirstAnswer(username: string, probes: seq<Probe>, i: nat, k: nat)
    requires i <= k < |probes| && probes[k].reply != BadRequest
    requires forall j :: i <= j < k ==> probes[j].reply == BadRequest
    ensures var run := ProbeRunFrom(username, probes, i);
      && |run.probed| == k - i + 1
      && (forall j :: i <= j <= k ==> run.probed[j - i] == Candidate(username, probes[j].suffix))
      && run.end == (if probes[k].reply == Success then Suggested(Candidate(username, probes[k].suffix)) else ConnectionError)
    decreases k - i
  {
    if i < k {
      SearchStopsAtFirstAnswer(username, probes, i + 1, k);
      var rest := ProbeRunFrom(username, probes, i + 1);
      var run := ProbeRunFrom(username, probes, i);
      forall j | i <= j <= k ensures run.probed[j - i] == Candidate(username, probes[j].suffix) {
        if j > i {
          assert run.probed[j - i] == rest.probed[j - (i + 1)];
        }
      }
    }
  }

  /** Rejections alone never end the search: as long as every reply is a 400,
      every one of them was probed, however many there are, and the search
      is still waiting. In particular it is not capped at ten probes. */
  lemma {:induction false} SearchUnbounded(username: string, probes: seq<Probe>, i: nat)
    requires i <= |probes|
    requires forall j :: i <= j < |probes| ==> probes[j].reply == BadRequest
    ensures var run := ProbeRunFrom(username, probes, i);
      && |run.probed| == |probes| - i
      && (forall j :: i <= j < |probes| ==> run.probed[j - i] == Candidate(username, probes[j].suffix))
      && run.end == Unanswered
    decreases |probes| - i
  {
    if i < |probes| {
      SearchUnbounded(username, probes, i + 1);
      var rest := ProbeRunFrom(username, probes, i + 1);
      var run := ProbeRunFrom(username, probes, i);
      forall j | i <= j < |probes| ensures run.probed[j - i] == Candidate(username, probes[j].suffix) {
        if j > i {
          assert run.probed[j - i] == rest.probed[j - (i + 1)];
        }
      }
    }
  }

  /** Every probed name and every suggestion extends the typed username. */
  lemma {:induction false} SuggestionsExtendUsername(username: string, probes: seq<Probe>, i: nat)
    requires i <= |probes|
    ensures var run := ProbeRunFrom(username, probes, i);
      && (forall j :: 0 <= j < |run.probed| ==>
            && IsPrefix(username, run.probed[j])
            && |username| < |run.probed[j]| <= |username| + 2
            && AllDigits(run.probed[j][|username|..]))
      && (run.end.Suggested? ==> IsPrefix(username, run.end.username) && run.end.username in run.probed)
    decreases |probes| - i
  {
    if i < |probes| {
      SuggestionsExtendUsername(username, probes, i + 1);
      var candidate := Candidate(username, probes[i].suffix);
      assert candidate[..|username|] == username;
      assert candidate[|username|..] == Decimal(probes[i].suffix);
      DecimalDigits(probes[i].suffix);
      var rest := ProbeRunFrom(username, probes, i + 1);
      var run := ProbeRunFrom(username, probes, i);
      forall j | 0 <= j < |run.probed|
        ensures && IsPrefix(username, run.probed[j])
                && |username| < |run.probed[j]| <= |username| + 2
                && AllDigits(run.probed[j][|username|..])
      {
        if j > 0 {
          assert run.probed[j] == rest.probed[j - 1];
        }
      }
    }
  }

  // ---------------------------------------------------------------------------
  // The page's state and handlers

  datatype Level = Danger | Info | Warning

  /** The translated texts the page notifies with, as tags. */
  datatype Notice = ErrorApiConnect | ProfileSaved | ProfileCompleted | ProfileIncomplete | ProfileCancelled

  datatype AppEvent = Registration | RegistrationComplete | CloseConfirm

  /** A message sent through the message dispatcher. */
  datatype Message = Notification(level: Level, notice: Notice) | App(event: AppEvent)

  /** A request to the registration plugin's API. */
  datatype ApiRequest =
    | UsernameCheck(username: string)
    | SaveProfile(profile: Option<Profile>)
    | SavePassword(password: string)
    | CompleteProfile
    | DeleteProfile

  /** One username check per name, in order. */
  function UsernameChecks(names: seq<string>): (r: seq<ApiRequest>)
    ensures |r| == |names|
    decreases |names|
  {
    if names == [] then []
    else UsernameChecks(names[..|names| - 1]) + [UsernameCheck(names[|names| - 1])]
  }

  lemma UsernameChecksAppend(names: seq<string>, name: string)
    ensures UsernameChecks(names + [name]) == UsernameChecks(names) + [UsernameCheck(name)]
  {
    assert (names + [name])[..|names|] == names;
  }

  /** The connection-error notification, when a reply calls for it. */
  function ConnectError(reply: Reply): seq<Message> {
    if reply == OtherFailure then [Notification(Danger, ErrorApiConnect)] else []
  }

  class RegisterForm {
    var registerConfig: RegisterConfig
    var passwordMinLength: Option<int>
    var registerProfile: Option<Profile>
    var registerSchemes: map<string, bool>

    var username: string
    var email: string
    var code: string
    var password: string
    var passwordConfirm: string

    var usernameValid: bool
    var usernameInvalid: bool
    var verificationSent: bool
    /** A debounce timer is pending (the `timeout` field holds one). */
    var timeoutPending: bool
    var checkingUsername: bool
    var checkingEmail: bool
    var invalidMessage: bool
    var validMessage: bool
    var invalidEmailMessage: bool
    var invalidPassword: Option<PasswordError>
    var registerComplete: bool
    var modifyPassword: bool
    var suggestionCounter: int
    var suggestionUsername: string

    /** Requests issued, in order. */
    var requests: seq<ApiRequest>
    /** Messages sent, in order. */
    var sent: seq<Message>

    /** The initial state of the component. */
    constructor (config: RegisterConfig, minLength: Option<int>, profile: Option<Profile>, schemes: map<string, bool>)
      ensures registerConfig == config && passwordMinLength == minLength
      ensures registerProfile == profile && registerSchemes == schemes
      ensures username == "" && email == "" && code == "" && password == "" && passwordConfirm == ""
      ensures !usernameValid && !usernameInvalid && !verificationSent && !timeoutPending
      ensures !checkingUsername && !checkingEmail && !invalidMessage && !validMessage
      ensures invalidEmailMessage && invalidPassword.None? && !registerComplete && !modifyPassword
      ensures suggestionCounter == 0 && suggestionUsername == ""
      ensures requests == [] && sent == []
    {
      registerConfig, passwordMinLength := config, minLength;
      registerProfile, registerSchemes := profile, schemes;
      username, email, code, password, passwordConfirm := "", "", "", "", "";
      usernameValid, usernameInvalid, verificationSent, timeoutPending := false, false, false, false;
      checkingUsername, checkingEmail, invalidMessage, validMessage := false, false, false, false;
      invalidEmailMessage, invalidPassword, registerComplete, modifyPassword := true, None, false, false;
      suggestionCounter, suggestionUsername := 0, "";
      requests, sent := [], [];
    }

    /** The outcome fields a username or e-mail check sets. */
    predicate UsernameStatus(valid: bool, invalid: bool, invalidMsg: bool, validMsg: bool)
      reads this
    {
      usernameValid == valid && usernameInvalid == invalid && invalidMessage == invalidMsg && validMessage == validMsg
    }

    /** The step list of `render`, built with the source's `forEach`. */
    method CompleteSteps() returns (steps: seq<Step>)
      requires registerProfile.Some?
      ensures steps == PendingSteps(registerConfig, registerProfile.value.passwordSet, registerSchemes)
    {
      steps := [];
      if registerConfig.setPassword == "always" && !registerProfile.value.passwordSet {
        steps := steps + [PasswordStep];
      }
      var schemes := registerConfig.schemes;
      var index := 0;
      while index < |schemes|
        invariant 0 <= index <= |schemes|
        invariant steps == (if PasswordPending(registerConfig, registerProfile.value.passwordSet) then [PasswordStep] else [])
                           + SchemeSteps(schemes[..index], registerSchemes)
      {
        assert schemes[..index + 1][..index] == schemes[..index];
        var scheme := schemes[index];
        if scheme.register == "always" && !Done(registerSchemes, scheme.name) {
          steps := steps + [SchemeStep(index + 1, Label(scheme))];
        }
        index := index + 1;
      }
      assert schemes[..|schemes|] == schemes;
    }

    /** The completion part of `render`: the complete button is enabled
        exactly when no mandatory step is outstanding. */
    method CompletionPanel() returns (panel: Panel)
      ensures registerComplete ==> panel == CompletedPanel
      ensures !registerComplete && registerProfile.None? ==> panel == NoPanel
      ensures !registerComplete && registerProfile.Some? ==>
                var pending := PendingSteps(registerConfig, registerProfile.value.passwordSet, registerSchemes);
                panel == StepsPanel(pending, pending == [])
    {
      if registerComplete {
        panel := CompletedPanel;
      } else if registerProfile.Some? {
        var steps := CompleteSteps();
        panel := StepsPanel(steps, |steps| == 0);
      } else {
        panel := NoPanel;
      }
    }

    /** The probes of `getUsernameSuggestion` answered by a 400: each issues
        the next probe. Stops at the first other reply, or when the replies
        are used up; the probes issued are logged together. */
    method ProbeRejected(probes: seq<Probe>) returns (i: nat, issued: seq<string>)
      modifies this`requests
      ensures i <= |probes| && (i < |probes| ==> probes[i].reply != BadRequest)
      ensures ProbeRun(username, probes) ==
              SearchRun(issued + ProbeRunFrom(username, probes, i).probed, ProbeRunFrom(username, probes, i).end)
      ensures requests == old(requests) + UsernameChecks(issued)
    {
      issued := [];
      i := 0;
      while i < |probes| && probes[i].reply == BadRequest
        invariant 0 <= i <= |probes|
        invariant ProbeRun(username, probes) ==
                  SearchRun(issued + ProbeRunFrom(username, probes, i).probed, ProbeRunFrom(username, probes, i).end)
      {
        var candidate := Candidate(username, probes[i].suffix);
        var rest := ProbeRunFrom(username, probes, i + 1);
        assert ProbeRunFrom(username, probes, i) == SearchRun([candidate] + rest.probed, rest.end);
        assert issued + ([candidate] + rest.probed) == (issued + [candidate]) + rest.probed;
        issued := issued + [candidate];
        i := i + 1;
      }
      requests := requests + UsernameChecks(issued);
    }

    /** `getUsernameSuggestion`: while fewer than ten suggestions were made,
        probe until a reply other than 400 arrives; a success records the
        suggestion and counts it, another failure notifies. */
    method GetUsernameSuggestion(probes: seq<Probe>) returns (end: SearchEnd)
      modifies this`suggestionCounter, this`suggestionUsername, this`requests, this`sent
      ensures var run := Search(old(suggestionCounter), username, probes);
        && end == run.end
        && requests == old(requests) + UsernameChecks(run.probed)
        && sent == old(sent) + (if run.end == ConnectionError then [Notification(Danger, ErrorApiConnect)] else [])
        && suggestionCounter == (if run.end.Suggested? then old(suggestionCounter) + 1 else old(suggestionCounter))
        && suggestionUsername == (if run.end.Suggested? then run.end.username else old(suggestionUsername))
    {
      if suggestionCounter >= 10 {
        end := Capped;
        return;
      }
      var i, issued := ProbeRejected(probes);
      if i == |probes| {
        assert issued + [] == issued;
        end := Unanswered;
      } else {
        var candidate := Candidate(username, probes[i].suffix);
        assert ProbeRunFrom(username, probes, i).probed == [candidate];
        requests := requests + [UsernameCheck(candidate)];
        UsernameChecksAppend(issued, candidate);
        if probes[i].reply == Success {
          suggestionCounter := suggestionCounter + 1;
          suggestionUsername := candidate;
          end := Suggested(candidate);
        } else {
          sent := sent + [Notification(Danger, ErrorApiConnect)];
          end := ConnectionError;
        }
      }
    }

    /** `checkUsername`: `reply` answers the check of the typed name and
        `probes` the suggestion search a 400 reply starts. */
    method CheckUsername(reply: Reply, probes: seq<Probe>)
      modifies this`timeoutPending, this`usernameValid, this`usernameInvalid, this`checkingUsername
      modifies this`invalidMessage, this`validMessage, this`suggestionCounter, this`suggestionUsername
      modifies this`requests, this`sent
      ensures username == "" ==>
                && UsernameStatus(false, false, false, false)
                && !timeoutPending && !checkingUsername
                && suggestionCounter == 0 && suggestionUsername == ""
                && requests == old(requests) && sent == old(sent)
      ensures username != "" && reply == Success ==>
                && UsernameStatus(true, false, false, true)
                && !timeoutPending && !checkingUsername
                && suggestionCounter == 0 && suggestionUsername == ""
                && requests == old(requests) + [UsernameCheck(username)] && sent == old(sent)
      ensures username != "" && reply == OtherFailure ==>
                && UsernameStatus(old(usernameValid), old(usernameInvalid), old(invalidMessage), old(validMessage))
                && timeoutPending == old(timeoutPending) && checkingUsername == old(checkingUsername)
                && suggestionCounter == old(suggestionCounter) && suggestionUsername == old(suggestionUsername)
                && requests == old(requests) + [UsernameCheck(username)]
                && sent == old(sent) + [Notification(Danger, ErrorApiConnect)]
      ensures username != "" && reply == BadRequest ==>
                var run := ProbeRun(username, probes);
                && UsernameStatus(false, true, true, false)
                && !timeoutPending && !checkingUsername
                && suggestionCounter == (if run.end.Suggested? then 1 else 0)
                && suggestionUsername == (if run.end.Suggested? then run.end.username else "")
                && requests == old(requests) + [UsernameCheck(username)] + UsernameChecks(run.probed)
                && sent == old(sent) + (if run.end == ConnectionError then [Notification(Danger, ErrorApiConnect)] else [])
    {
      if username != "" {
        requests := requests + [UsernameCheck(username)];
        match reply {
          case Success =>
            timeoutPending, usernameValid, usernameInvalid, checkingUsername := false, true, false, false;
            invalidMessage, validMessage, suggestionCounter, suggestionUsername := false, true, 0, "";
          case OtherFailure =>
            sent := sent + [Notification(Danger, ErrorApiConnect)];
          case BadRequest =>
            timeoutPending, usernameValid, usernameInvalid, checkingUsername := false, false, true, false;
            invalidMessage, validMessage, suggestionCounter, suggestionUsername := true, false, 0, "";
            var _ := GetUsernameSuggestion(probes);
        }
      } else {
        timeoutPending, usernameValid, usernameInvalid, checkingUsername := false, false, false, false;
        invalidMessage, validMessage, suggestionCounter, suggestionUsername := false, false, 0, "";
      }
    }

    /** `checkEmailAsUsername`: the e-mail address is checked as a username. */
    method CheckEmailAsUsername(reply: Reply)
      modifies this`timeoutPending, this`usernameValid, this`usernameInvalid, this`checkingEmail
      modifies this`invalidMessage, this`validMessage, this`requests, this`sent
      ensures !timeoutPending && !checkingEmail
      ensures email == "" ==> UsernameStatus(false, false, false, false) && requests == old(requests) && sent == old(sent)
      ensures email != "" ==> requests == old(requests) + [UsernameCheck(email)]
      ensures email != "" && reply == Success ==> UsernameStatus(true, false, false, true) && sent == old(sent)
      ensures email != "" && reply == BadRequest ==> UsernameStatus(false, true, false, false) && sent == old(sent)
      ensures email != "" && reply == OtherFailure ==>
                UsernameStatus(false, true, true, false) && sent == old(sent) + [Notification(Danger, ErrorApiConnect)]
    {
      if email != "" {
        requests := requests + [UsernameCheck(email)];
        match reply {
          case Success =>
            timeoutPending, usernameValid, usernameInvalid, checkingEmail := false, true, false, false;
            invalidMessage, validMessage := false, true;
          case OtherFailure =>
            sent := sent + [Notification(Danger, ErrorApiConnect)];
            timeoutPending, usernameValid, usernameInvalid, checkingEmail := false, false, true, false;
            invalidMessage, validMessage := true, false;
          case BadRequest =>
            timeoutPending, usernameValid, usernameInvalid, checkingEmail := false, false, true, false;
            invalidMessage, validMessage := false, false;
        }
      } else {
        timeoutPending, usernameValid, usernameInvalid, checkingEmail := false, false, false, false;
        invalidMessage, validMessage := false, false;
      }
    }

    /** `changeEmailVerification`: a new e-mail value; when e-mail is the
        username the name counts as valid. */
    method ChangeEmailVerification(value: string)
      modifies this`email, this`invalidEmailMessage, this`usernameValid
      ensures email == value
      ensures invalidEmailMessage <==> value == ""
      ensures usernameValid == (registerConfig.emailIsUsername || old(usernameValid))
    {
      if registerConfig.emailIsUsername {
        usernameValid := true;
      }
      email, invalidEmailMessage := value, value == "";
    }

    /** `checkPassword`. */
    method CheckPassword()
      modifies this`invalidPassword
      ensures invalidPassword == PasswordCheck(password, passwordConfirm, MinPasswordLength(passwordMinLength))
    {
      invalidPassword := PasswordCheck(password, passwordConfirm, MinPasswordLength(passwordMinLength));
    }

    /** `saveNameOrPassword`: the profile is always saved; the password only
        through the gate, after which the password fields are cleared whatever
        the reply. The replies are taken in a fixed order (profile first). */
    method SaveNameOrPassword(profileReply: Reply, passwordReply: Reply)
      modifies this`password, this`passwordConfirm, this`modifyPassword, this`requests, this`sent
      ensures var sends := SendsPassword(old(invalidPassword), old(password), MinPasswordLength(passwordMinLength));
        && requests == old(requests) + [SaveProfile(registerProfile)] + (if sends then [SavePassword(old(password))] else [])
        && (sends ==> password == "" && passwordConfirm == "" && !modifyPassword)
        && (!sends ==> password == old(password) && passwordConfirm == old(passwordConfirm) && modifyPassword == old(modifyPassword))
        && sent == old(sent) + ConnectError(profileReply) + (if sends then ConnectError(passwordReply) else [])
                   + (if profileReply == Success && (!sends || passwordReply == Success)
                      then [App(Registration), Notification(Info, ProfileSaved)] else [])
    {
      requests := requests + [SaveProfile(registerProfile)];
      sent := sent + ConnectError(profileReply);
      var allSucceeded := profileReply == Success;
      if invalidPassword.None? && Utf16Length(password) >= MinPasswordLength(passwordMinLength) {
        requests := requests + [SavePassword(password)];
        sent := sent + ConnectError(passwordReply);
        password, passwordConfirm, modifyPassword := "", "", false;
        allSucceeded := allSucceeded && passwordReply == Success;
      }
      if allSucceeded {
        sent := sent + [App(Registration), Notification(Info, ProfileSaved)];
      }
    }

    /** `completeRegistration`. */
    method CompleteRegistration(reply: Reply)
      modifies this`registerComplete, this`username, this`requests, this`sent
      ensures requests == old(requests) + [CompleteProfile]
      ensures reply == Success ==>
                && registerComplete && username == ""
                && sent == old(sent) + [Notification(Info, ProfileCompleted), App(RegistrationComplete)]
      ensures reply != Success ==> registerComplete == old(registerComplete) && username == old(username)
      ensures reply == BadRequest ==> sent == old(sent) + [Notification(Warning, ProfileIncomplete)]
      ensures reply == OtherFailure ==> sent == old(sent) + [Notification(Danger, ErrorApiConnect)]
    {
      requests := requests + [CompleteProfile];
      match reply {
        case Success =>
          registerComplete, username := true, "";
          sent := sent + [Notification(Info, ProfileCompleted), App(RegistrationComplete)];
        case BadRequest =>
          sent := sent + [Notification(Warning, ProfileIncomplete)];
        case OtherFailure =>
          sent := sent + [Notification(Danger, ErrorApiConnect)];
      }
    }

    /** `confirmCancelRegistration`: the confirmation dialog is closed at once;
        the reply to the deletion arrives after that. */
    method ConfirmCancelRegistration(result: bool, reply: Reply)
      modifies this`username, this`usernameValid, this`email, this`verificationSent, this`code
      modifies this`validMessage, this`invalidMessage, this`requests, this`sent
      ensures requests == old(requests) + (if result then [DeleteProfile] else [])
      ensures result && reply == Success ==>
                && username == "" && !usernameValid && email == "" && !verificationSent && code == ""
                && !validMessage && !invalidMessage
                && sent == old(sent) + [App(CloseConfirm), Notification(Info, ProfileCancelled), App(Registration)]
      ensures !(result && reply == Success) ==>
                && username == old(username) && usernameValid == old(usernameValid) && email == old(email)
                && verificationSent == old(verificationSent) && code == old(code)
                && validMessage == old(validMessage) && invalidMessage == old(invalidMessage)
      ensures result && reply != Success ==>
                sent == old(sent) + [App(CloseConfirm), Notification(Danger, ErrorApiConnect)]
      ensures !result ==> sent == old(sent) + [App(CloseConfirm)]
    {
      if result {
        requests := requests + [DeleteProfile];
      }
      sent := sent + [App(CloseConfirm)];
      if result {
        if reply == Success {
          username, usernameValid, email, verificationSent, code := "", false, "", false, "";
          validMessage, invalidMessage := false, false;
          sent := sent + [Notification(Info, ProfileCancelled), App(Registration)];
        } else {
          sent := sent + [Notification(Danger, ErrorApiConnect)];
        }
      }
    }
  }
}
