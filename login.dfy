/** The sign-in form (client/src/components/Login.tsx): `handleSubmit`'s trimming,
    required-field checks, e-mail pattern, call to `login` and redirect by role. The
    `login` call of the auth context is a parameter. */
module Login {
  import opened Text
  import opened Schema

  /** A character `[^\s@]` matches. */
  predicate FieldChar(c: char) {
    !IsJsSpace(c) && c != '@'
  }

  /** `[^\s@]+`. */
  predicate Field(x: string) {
    x != [] && forall k :: 0 <= k < |x| ==> FieldChar(x[k])
  }

  /** `s` read as the three `[^\s@]+` runs of the pattern around its '@' and '.'. */
  predicate EmailParts(s: string, a: string, b: string, c: string) {
    Field(a) && Field(b) && Field(c) && s == a + "@" + b + "." + c
  }

  /** The language of `/^[^\s@]+@[^\s@]+\.[^\s@]+$/`. */
  ghost predicate MatchesEmailPattern(s: string) {
    exists a, b, c :: EmailParts(s, a, b, c)
  }

  /** The pattern in plain words: no white space, exactly one '@' with something before
      it, and after it a '.' that is neither the first nor the last character. */
  predicate LooksLikeEmail(s: string) {
    && (forall k :: 0 <= k < |s| ==> !IsJsSpace(s[k]))
    && exists i :: 0 < i < |s| && s[i] == '@'
         && (forall k :: 0 <= k < |s| && k != i ==> s[k] != '@')
         && (exists j :: i + 1 < j < |s| - 1 && s[j] == '.')
  }

  /** The plain-words reading and the regular expression accept the same strings. */
  lemma EmailPatternExactly(s: string)
    ensures LooksLikeEmail(s) <==> MatchesEmailPattern(s)
  {
    if MatchesEmailPattern(s) {
      var a, b, c :| EmailParts(s, a, b, c);
      PartsLookLikeEmail(s, a, b, c);
    }
    if LooksLikeEmail(s) {
      var i :| 0 < i < |s| && s[i] == '@'
         && (forall k :: 0 <= k < |s| && k != i ==> s[k] != '@')
         && (exists j :: i + 1 < j < |s| - 1 && s[j] == '.');
      var j :| i + 1 < j < |s| - 1 && s[j] == '.';
      CutAtMarks(s, i, j);
    }
  }

  /** Cutting at the '@' and at a later '.' gives the three runs of the pattern. */
  lemma CutAtMarks(s: string, i: nat, j: nat)
    requires forall k :: 0 <= k < |s| ==> !IsJsSpace(s[k])
    requires 0 < i && i + 1 < j < |s| - 1 && s[i] == '@' && s[j] == '.'
    requires forall k :: 0 <= k < |s| && k != i ==> s[k] != '@'
    ensures EmailParts(s, s[..i], s[i + 1..j], s[j + 1..])
  {
    var a, b, c := s[..i], s[i + 1..j], s[j + 1..];
    assert s == a + "@" + b + "." + c by {
      assert s == s[..i] + [s[i]] + s[i + 1..j] + [s[j]] + s[j + 1..];
    }
    assert Field(a) by {
      assert forall k :: 0 <= k < |a| ==> a[k] == s[k];
    }
    assert Field(b) by {
      assert forall k :: 0 <= k < |b| ==> b[k] == s[i + 1 + k];
    }
    assert Field(c) by {
      assert forall k :: 0 <= k < |c| ==> c[k] == s[j + 1 + k];
    }
  }

  lemma PartsLookLikeEmail(s: string, a: string, b: string, c: string)
    requires EmailParts(s, a, b, c)
    ensures LooksLikeEmail(s)
  {
    var i := |a|;
    var j := |a| + 1 + |b|;
    assert s[i] == '@' && s[j] == '.';
    assert forall k :: 0 <= k < i ==> s[k] == a[k];
    assert forall k :: i < k < j ==> s[k] == b[k - i - 1];
    assert forall k :: j < k < |s| ==> s[k] == c[k - j - 1];
    assert forall k :: 0 <= k < |s| && k != i ==> FieldChar(s[k]) || s[k] == '.' by {
      forall k | 0 <= k < |s| && k != i
        ensures FieldChar(s[k]) || s[k] == '.'
      {
        if k < i { assert FieldChar(a[k]); }
        else if i < k < j { assert FieldChar(b[k - i - 1]); }
        else if j < k { assert FieldChar(c[k - j - 1]); }
      }
    }
  }

  /** What `login` does: it stores a user whose role may be missing (""), or throws with
      the server's message and the error's own message ("" when absent). */
  datatype LoginResult = LoggedIn(role: string) | LoginThrew(serverMessage: string, errorMessage: string)

  /** The form's banners and spinner. */
  datatype Form = Form(error: string, emailError: string, passwordError: string, loading: bool)

  /** What a submission leaves behind: the form, the credentials `login` was called with,
      and where the router was sent. */
  datatype Submission = Submission(form: Form, loginCall: Option<(string, string)>, navigateTo: Option<string>)

  /** `err?.response?.data?.message || err?.message || 'Login failed. Please try again.'`. */
  function LoginErrorText(serverMessage: string, errorMessage: string): (t: string)
    ensures serverMessage != "" ==> t == serverMessage
    ensures serverMessage == "" && errorMessage != "" ==> t == errorMessage
    ensures serverMessage == "" && errorMessage == "" ==> t == "Login failed. Please try again."
  {
    if serverMessage != "" then serverMessage
    else if errorMessage != "" then errorMessage
    else "Login failed. Please try again."
  }

  /** `handleSubmit`. The banners are cleared first; blank fields are reported together
      and stop the submission before the pattern check; a well-formed e-mail calls `login`
      with the trimmed values; a stored role redirects to '/' + role. The spinner is off
      once the handler is done, whatever path it took. */
  function HandleSubmit(email: string, password: string, login: (string, string) -> LoginResult): (r: Submission)
    ensures !r.form.loading
    ensures r.form.emailError == "Email is required" <==> Trim(email) == ""
    ensures r.form.passwordError == "Password is required" <==> Trim(password) == ""
    ensures Trim(email) == "" || Trim(password) == "" ==> r.loginCall.None? && r.navigateTo.None? && r.form.error == ""
    ensures r.form.emailError == "Enter a valid email address" <==>
              Trim(email) != "" && Trim(password) != "" && !MatchesEmailPattern(Trim(email))
    ensures r.loginCall.Some? <==> Trim(email) != "" && Trim(password) != "" && MatchesEmailPattern(Trim(email))
    ensures r.loginCall.Some? ==> (r.loginCall.value == (Trim(email), Trim(password))
                                   && r.form.emailError == "" && r.form.passwordError == "")
    ensures r.navigateTo.Some? <==> (r.loginCall.Some? && login(Trim(email), Trim(password)).LoggedIn?
                                     && login(Trim(email), Trim(password)).role != "")
    ensures r.navigateTo.Some? ==> (r.navigateTo.value == "/" + login(Trim(email), Trim(password)).role
                                    && r.form == Form("", "", "", false))
    ensures r.loginCall.Some? && login(Trim(email), Trim(password)) == LoggedIn("") ==>
              r.form.error == "Login succeeded but user role missing. Please try again."
    ensures r.loginCall.Some? && login(Trim(email), Trim(password)).LoginThrew? ==>
              var e := login(Trim(email), Trim(password));
              r.navigateTo.None? && r.form.error == LoginErrorText(e.serverMessage, e.errorMessage)
  {
    var te := Trim(email);
    var tp := Trim(password);
    EmailPatternExactly(te);
    if te == "" || tp == "" then
      Submission(Form("", if te == "" then "Email is required" else "", if tp == "" then "Password is required" else "", false),
                 None, None)
    else if !LooksLikeEmail(te) then
      Submission(Form("", "Enter a valid email address", "", false), None, None)
    else
      match login(te, tp)
      case LoggedIn(role) =>
        if role == "" then
          Submission(Form("Login succeeded but user role missing. Please try again.", "", "", false), Some((te, tp)), None)
        else
          Submission(Form("", "", "", false), Some((te, tp)), Some("/" + role))
      case LoginThrew(sm, em) =>
        Submission(Form(LoginErrorText(sm, em), "", "", false), Some((te, tp)), None)
  }

  /** White space typed around a well-formed e-mail never reaches `login`. */
  lemma PaddingNeverReachesLogin(pre: string, email: string, post: string, password: string,
                                 login: (string, string) -> LoginResult)
    requires AllSpace(pre) && AllSpace(post) && MatchesEmailPattern(email) && Trim(password) != ""
    ensures HandleSubmit(pre + email + post, password, login).loginCall == Some((email, Trim(password)))
  {
    var a, b, c :| EmailParts(email, a, b, c);
    assert email[0] == a[0] && FieldChar(a[0]);
    assert email[|email| - 1] == c[|c| - 1] && FieldChar(c[|c| - 1]);
    TrimPadded(pre, email, post);
  }
}
