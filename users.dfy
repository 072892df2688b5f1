/** lib/plugins/deployr-cli-users/index.js: attaching the users plugin, the
    login retry loop behind `app.auth`, and `app.unauth`. */
module Users {
  import opened Common
  import opened Strings
  import opened App

  const NoCliPlugin := "`inquirer` plugin is required to use `deployr-cli-users`"
  const NoAppConfig := "`app.config` must be set to use `deployr-cli-users`"

  /** The plugin's exported command module. */
  const UsersCommands: map<string, Handler> :=
    map["usage" := Usage, "login" := Login, "logout" := Logout, "whoami" := Whoami]

  /** `attach`: refuses to attach without the cli plugin or a config, else mixes
      the users commands into `commands.users` and aliases `login`, `logout` and
      `whoami` to it. */
  method Attach(app: Cli) returns (err: Option<string>)
    modifies app`commands, app`aliases
    ensures !app.hasCliPlugin ==> err == Some(NoCliPlugin)
    ensures app.hasCliPlugin && !app.hasConfig ==> err == Some(NoAppConfig)
    ensures err.Some? ==> app.commands == old(app.commands) && app.aliases == old(app.aliases)
    ensures err.None? <==> app.hasCliPlugin && app.hasConfig
    ensures err.None? ==>
              app.commands == old(app.commands)["users" := MixIn(Registered(old(app.commands), "users"), UsersCommands)]
              && app.aliases == old(app.aliases)["login" := Target("users", "login")]
                                                ["logout" := Target("users", "logout")]
                                                ["whoami" := Target("users", "whoami")]
  {
    if !app.hasCliPlugin {
      return Some(NoCliPlugin);
    } else if !app.hasConfig {
      return Some(NoAppConfig);
    }
    app.commands := app.commands["users" := MixIn(Registered(app.commands, "users"), UsersCommands)];
    app.Alias("login", Target("users", "login"));
    app.Alias("logout", Target("users", "logout"));
    app.Alias("whoami", Target("users", "whoami"));
    err := None;
  }

  // ---------------------------------------------------------------------------
  // app.auth

  /** What a successful `/r/user/login` response carries: `httpcookie` and `username`. */
  datatype Session = Session(cookie: string, username: string)

  /** The outcome of one `/r/user/login` request. */
  datatype LoginReply = LoggedIn(session: Session) | LoginFailed(err: Error)

  /** One answer to the password prompt and, when it is sent, the server's reply. */
  datatype PasswordTry = PasswordTry(input: string, reply: LoginReply)

  /** How `app.auth` ends: `callback(null, res)`, `callback(err)`, or not at all
      because a prompt is still waiting for an acceptable answer. */
  datatype AuthResult = Authenticated(session: Session) | Refused(err: Error) | Prompting

  const PermissionDenied := "Permission denied, please try again."
  const InvalidUsername := " Please enter a valid username"

  /** The error `app.auth` ends with after the third rejected password: a
      plain string, not an Error object. */
  const ThreeFailed := Plain("Three failed login attempts.")

  /** DeployR's error 940: the credentials are invalid. */
  predicate BadCredentials(e: Error)
  {
    e.deployr.Some? && e.deployr.value.code == 940
  }

  /** The username prompt accepts the first answer whose JavaScript `length`
      (UTF-16 code units) is at least three. */
  function FirstValidUsername(usernames: seq<string>): (u: Option<string>)
    ensures u.None? <==> forall i :: 0 <= i < |usernames| ==> Utf16Length(usernames[i]) < 3
    ensures u.Some? ==> exists i :: 0 <= i < |usernames| && usernames[i] == u.value
                          && Utf16Length(u.value) >= 3 && forall j :: 0 <= j < i ==> Utf16Length(usernames[j]) < 3
  {
    if usernames == [] then None
    else if Utf16Length(usernames[0]) >= 3 then Some(usernames[0])
    else
      var rest := FirstValidUsername(usernames[1..]);
      assert forall j :: 1 <= j < |usernames| ==> usernames[j] == usernames[1..][j - 1];
      rest
  }

  /** `length` counts UTF-16 code units: two characters, one of them outside
      the Basic Multilingual Plane, make an acceptable username. */
  lemma AstralCharacterCountsTwice(c: char, d: char)
    requires d >= '\U{10000}'
    ensures FirstValidUsername([[c, d]]) == Some([c, d])
  {
    assert [c, d][1..] == [d];
    assert Utf16Length([d]) == 2;
  }

  /** The password phase, one answer at a time, with `attempts` rejections
      for bad credentials already counted. */
  function PasswordPhase(tries: seq<PasswordTry>, attempts: nat): (r: AuthResult)
  {
    if tries == [] then Prompting
    else if tries[0].input == "" then PasswordPhase(tries[1..], attempts)
    else match tries[0].reply
      case LoggedIn(session) => Authenticated(session)
      case LoginFailed(e) =>
        if !BadCredentials(e) then Refused(e)
        else if attempts + 1 >= 3 then Refused(ThreeFailed)
        else PasswordPhase(tries[1..], attempts + 1)
  }

  /** The answers that are sent to the server: empty ones never are. */
  function Submitted(tries: seq<PasswordTry>): (sent: seq<PasswordTry>)
    ensures |sent| <= |tries|
    ensures forall i :: 0 <= i < |sent| ==> sent[i].input != ""
  {
    if tries == [] then []
    else if tries[0].input == "" then Submitted(tries[1..])
    else [tries[0]] + Submitted(tries[1..])
  }

  /** An answer is sent exactly when it was given and is not empty. */
  lemma {:induction false} SubmittedMembers(tries: seq<PasswordTry>, t: PasswordTry)
    ensures t in Submitted(tries) <==> t in tries && t.input != ""
    decreases |tries|
  {
    if tries != [] {
      SubmittedMembers(tries[1..], t);
      assert tries == [tries[0]] + tries[1..];
    }
  }

  /** How many of the submitted answers, from the first, were rejected for bad credentials. */
  function LeadingBadCredentials(sent: seq<PasswordTry>): (n: nat)
    ensures n <= |sent|
    ensures forall i :: 0 <= i < n ==> sent[i].reply.LoginFailed? && BadCredentials(sent[i].reply.err)
    ensures n < |sent| ==> !(sent[n].reply.LoginFailed? && BadCredentials(sent[n].reply.err))
  {
    if sent == [] || !(sent[0].reply.LoginFailed? && BadCredentials(sent[0].reply.err)) then 0
    else 1 + LeadingBadCredentials(sent[1..])
  }

  /** The login's outcome read off the submitted answers: three rejections for
      bad credentials end it with the three-failures error; otherwise the first
      answer not so rejected decides, by success or by its own error. */
  function Verdict(sent: seq<PasswordTry>, attempts: nat): (r: AuthResult)
  {
    var n := LeadingBadCredentials(sent);
    if attempts + n >= 3 then Refused(ThreeFailed)
    else if n == |sent| then Prompting
    else match sent[n].reply
      case LoggedIn(session) => Authenticated(session)
      case LoginFailed(e) => Refused(e)
  }

  /** The step-by-step password loop and the verdict on the submitted answers agree. */
  lemma {:induction false} PasswordPhaseVerdict(tries: seq<PasswordTry>, attempts: nat)
    requires attempts < 3
    ensures PasswordPhase(tries, attempts) == Verdict(Submitted(tries), attempts)
    decreases |tries|
  {
    if tries != [] {
      var sent := Submitted(tries);
      if tries[0].input == "" {
        PasswordPhaseVerdict(tries[1..], attempts);
      } else {
        assert sent[1..] == Submitted(tries[1..]);
        match tries[0].reply
        case LoggedIn(_) =>
        case LoginFailed(e) =>
          if BadCredentials(e) && attempts + 1 < 3 {
            PasswordPhaseVerdict(tries[1..], attempts + 1);
          }
      }
    }
  }

  /** Empty answers change nothing: they are neither sent nor counted. */
  lemma EmptyPasswordNotCounted(rest: seq<PasswordTry>, reply: LoginReply, attempts: nat)
    ensures PasswordPhase([PasswordTry("", reply)] + rest, attempts) == PasswordPhase(rest, attempts)
  {
    assert ([PasswordTry("", reply)] + rest)[1..] == rest;
  }

  /** A success ends the login even after earlier rejections for bad credentials. */
  lemma {:induction false} SuccessAfterRejections(bad: seq<PasswordTry>, session: Session, rest: seq<PasswordTry>)
    requires |bad| <= 2
    requires forall i :: 0 <= i < |bad| ==> bad[i].input != "" && bad[i].reply.LoginFailed? && BadCredentials(bad[i].reply.err)
    ensures PasswordPhase(bad + [PasswordTry("pw", LoggedIn(session))] + rest, 0) == Authenticated(session)
  {
    var good := PasswordTry("pw", LoggedIn(session));
    var tries := bad + [good] + rest;
    PasswordPhaseVerdict(tries, 0);
    SubmittedPrefix(bad, [good] + rest);
    assert tries == bad + ([good] + rest);
    assert ([good] + rest)[0] == good && ([good] + rest)[1..] == rest;
    assert Submitted([good] + rest) == [good] + Submitted(rest);
    LeadingBadCredentialsPrefix(bad, [good] + Submitted(rest));
  }

  /** A third rejection for bad credentials ends the login, whatever follows. */
  lemma {:induction false} ThirdRejectionEnds(bad: seq<PasswordTry>, rest: seq<PasswordTry>)
    requires |bad| == 3
    requires forall i :: 0 <= i < 3 ==> bad[i].input != "" && bad[i].reply.LoginFailed? && BadCredentials(bad[i].reply.err)
    ensures PasswordPhase(bad + rest, 0) == Refused(ThreeFailed)
  {
    PasswordPhaseVerdict(bad + rest, 0);
    SubmittedPrefix(bad, rest);
    LeadingBadCredentialsPrefix(bad, Submitted(rest));
  }

  lemma {:induction false} SubmittedPrefix(sent: seq<PasswordTry>, rest: seq<PasswordTry>)
    requires forall i :: 0 <= i < |sent| ==> sent[i].input != ""
    ensures Submitted(sent + rest) == sent + Submitted(rest)
    decreases |sent|
  {
    if sent != [] {
      assert (sent + rest)[0] == sent[0];
      assert (sent + rest)[1..] == sent[1..] + rest;
      SubmittedPrefix(sent[1..], rest);
      assert sent == [sent[0]] + sent[1..];
    } else {
      assert sent + rest == rest;
    }
  }

  lemma {:induction false} LeadingBadCredentialsPrefix(bad: seq<PasswordTry>, rest: seq<PasswordTry>)
    requires forall i :: 0 <= i < |bad| ==> bad[i].reply.LoginFailed? && BadCredentials(bad[i].reply.err)
    ensures LeadingBadCredentials(bad + rest) == |bad| + LeadingBadCredentials(rest)
    decreases |bad|
  {
    if bad != [] {
      assert (bad + rest)[1..] == bad[1..] + rest;
      LeadingBadCredentialsPrefix(bad[1..], rest);
    } else {
      assert bad + rest == rest;
    }
  }

  /** The endpoint `app.auth` finds once it has re-entered after `runs` runs
      of the endpoint command: none while every run left it unset. */
  function EndpointRunsNeeded(endpoint: Option<string>, runs: seq<Option<string>>): (k: Option<nat>)
    ensures Truthy(endpoint) ==> k == Some(0)
    ensures k.Some? && k.value > 0 ==>
              k.value <= |runs| && Truthy(runs[k.value - 1]) && forall j :: 0 <= j < k.value - 1 ==> !Truthy(runs[j])
    ensures !Truthy(endpoint) && k.None? ==> forall j :: 0 <= j < |runs| ==> !Truthy(runs[j])
    decreases |runs|
  {
    if Truthy(endpoint) then Some(0)
    else if runs == [] then None
    else
      match EndpointRunsNeeded(runs[0], runs[1..])
      case None => None
      case Some(k) =>
        assert forall j :: 1 <= j < |runs| ==> runs[j] == runs[1..][j - 1];
        Some(k + 1)
  }

  /** `app.auth`. With no endpoint configured it runs the endpoint command and
      re-enters itself once that command calls back, whatever its error; each
      entry of `endpointRuns` is the endpoint configured after one such run.
      It then prompts for a username of `length` at least three, and for a
      password until the server accepts it, rejects it for another reason, or
      rejects it for bad credentials the third time. An empty password is
      neither sent nor counted. */
  method Auth(endpoint: Option<string>, endpointRuns: seq<Option<string>>,
              usernames: seq<string>, tries: seq<PasswordTry>)
    returns (result: AuthResult, user: Option<string>)
    ensures EndpointRunsNeeded(endpoint, endpointRuns).None? ==> result == Prompting && user == None
    ensures EndpointRunsNeeded(endpoint, endpointRuns).Some? ==> user == FirstValidUsername(usernames)
    ensures EndpointRunsNeeded(endpoint, endpointRuns).Some? && user.None? ==> result == Prompting
    ensures EndpointRunsNeeded(endpoint, endpointRuns).Some? && user.Some? ==>
              result == PasswordPhase(tries, 0) == Verdict(Submitted(tries), 0)
  {
    var configured := AwaitEndpoint(endpoint, endpointRuns);
    if !configured {
      return Prompting, None;
    }
    user := PromptUsername(usernames);
    if user.None? {
      return Prompting, None;
    }
    result := PromptPassword(tries);
    PasswordPhaseVerdict(tries, 0);
  }

  /** The endpoint step of `app.auth`: run the endpoint command until an
      endpoint is configured; `false` when the runs given never configure one. */
  method AwaitEndpoint(endpoint: Option<string>, endpointRuns: seq<Option<string>>) returns (configured: bool)
    ensures configured <==> EndpointRunsNeeded(endpoint, endpointRuns).Some?
  {
    var ep := endpoint;
    var runs := 0;
    while !Truthy(ep)
      invariant 0 <= runs <= |endpointRuns|
      invariant runs == 0 ==> ep == endpoint
      invariant runs > 0 ==> ep == endpointRuns[runs - 1]
      invariant runs > 0 ==> (EndpointRunsNeeded(endpoint, endpointRuns).Some?
                              <==> EndpointRunsNeeded(ep, endpointRuns[runs..]).Some?)
      decreases |endpointRuns| - runs
    {
      if runs == |endpointRuns| {
        return false;
      }
      ep := endpointRuns[runs];
      runs := runs + 1;
    }
    configured := true;
  }

  /** The username prompt: asked again until an answer's `length` is at least three. */
  method PromptUsername(usernames: seq<string>) returns (user: Option<string>)
    ensures user == FirstValidUsername(usernames)
  {
    user := None;
    var i := 0;
    while i < |usernames| && user.None?
      invariant 0 <= i <= |usernames|
      invariant user.None? ==> FirstValidUsername(usernames) == FirstValidUsername(usernames[i..])
      invariant user.Some? ==> user == FirstValidUsername(usernames)
    {
      assert usernames[i..][1..] == usernames[i + 1..];
      if Utf16Length(usernames[i]) >= 3 {
        user := Some(usernames[i]);
      }
      i := i + 1;
    }
  }

  /** The password prompt: empty answers are asked again without a request;
      a sent answer ends the login on success, on an error other than bad
      credentials, or on the third bad-credentials rejection. */
  method PromptPassword(tries: seq<PasswordTry>) returns (result: AuthResult)
    ensures result == PasswordPhase(tries, 0)
  {
    var attempts := 0;
    result := Prompting;
    var j := 0;
    var done := false;
    while j < |tries| && !done
      invariant 0 <= j <= |tries|
      invariant !done ==> attempts < 3 && PasswordPhase(tries, 0) == PasswordPhase(tries[j..], attempts)
      invariant done ==> result == PasswordPhase(tries, 0)
      invariant !done ==> result == Prompting
    {
      assert tries[j..][1..] == tries[j + 1..];
      var t := tries[j];
      if t.input != "" {
        match t.reply {
          case LoggedIn(session) =>
            result, done := Authenticated(session), true;
          case LoginFailed(e) =>
            if BadCredentials(e) {
              attempts := attempts + 1;
              if attempts >= 3 {
                result, done := Refused(ThreeFailed), true;
              }
            } else {
              result, done := Refused(e), true;
            }
        }
      }
      j := j + 1;
    }
  }

  /** The `/r/user/logout` request `app.unauth` sends. */
  datatype LogoutRequest = LogoutRequest(host: string, cookies: seq<string>, sticky: bool)

  /** `app.unauth`: the server is contacted only when an endpoint is
      configured, with the stored cookie as the session; the callback follows
      the request however it ends, so unauth never fails. */
  function Unauth(endpoint: Option<string>, cookie: Option<string>): (request: Option<LogoutRequest>)
    ensures request.Some? <==> Truthy(endpoint)
    ensures request.Some? ==>
              request.value.host == endpoint.value
              && request.value.cookies == ["JSESSIONID=" + JsText(cookie)]
              && request.value.sticky
  {
    if Truthy(endpoint) then Some(LogoutRequest(endpoint.value, ["JSESSIONID=" + JsText(cookie)], true))
    else None
  }
}
