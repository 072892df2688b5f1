/** lib/plugins/deployr-cli-users/commands.js: the `login`, `logout` and
    `whoami` commands. `login` and `logout` are series of stages around the
    plugin's hooks; the hooks attached are those of lib/commands.js, as far as
    the `HookSet` says they are present. */
module UsersCommands {
  import opened Common
  import opened App
  import opened Series
  import opened Hooks
  import opened Users

  /** The `tryAuth` stage as the series sees it: a refused login answers the
      command itself and never continues; a successful one continues once the
      config is saved. */
  function AuthStage(auth: AuthResult, saveErr: Option<Error>): (step: Step<Error>)
    ensures auth.Authenticated? && saveErr.None? <==> step == Next
    ensures auth.Authenticated? && saveErr.Some? ==> step == Fail(saveErr.value)
    ensures !auth.Authenticated? ==> step == Hang
  {
    match auth
    case Authenticated(_) => if saveErr.Some? then Fail(saveErr.value) else Next
    case _ => Hang
  }

  /** The three stages of `login`: before, tryAuth, after. */
  function LoginStages(auth: AuthResult, saveErr: Option<Error>): seq<Step<Error>>
  {
    [Next, AuthStage(auth, saveErr), Next]
  }

  /** `users.login`, given how `app.auth` ends (see `Users.Auth`). `tryAuth`
      goes through `app.setup`, so the app counts as started from then on. The
      after-hook sees exactly the cookie and username of the response, and
      only once they are saved; a refused login answers the command directly
      and the series never ends. */
  method LoginCommand(app: Cli, hooks: HookSet, auth: AuthResult, saveErr: Option<Error>)
    returns (calls: seq<HookCall>, replies: seq<Reply>)
    modifies app`store, app`started
    ensures app.started
    ensures auth.Refused? ==> replies == [Reply(Some(auth.err), false)]
    ensures auth.Prompting? ==> replies == []
    ensures auth.Authenticated? ==>
              replies == [EndReply(Final(Run(LoginStages(auth, saveErr)), 3)).value]
              && replies == [Reply(saveErr, false)]
    ensures var ran := auth.Authenticated? && saveErr.None?;
            calls == (if hooks.setup then [HookCall("setup", UserDetails(old(app.Get("username"))))] else [])
                   + (if hooks.before then [HookCall("before", UserDetails(old(app.Get("username"))))] else [])
                   + (if ran && hooks.after
                      then [HookCall("after", SessionDetails(auth.session.cookie, auth.session.username))]
                      else [])
    ensures auth.Authenticated? && saveErr.None? && hooks.after && auth.session.username != "" ==>
              app.store == (old(app.store) - {"password"})["username" := auth.session.username]
                                                          ["cookie" := auth.session.cookie]
    ensures !(auth.Authenticated? && saveErr.None? && hooks.after && auth.session.username != "") ==>
              app.store == old(app.store)
  {
    calls, replies := [], [];
    if hooks.setup {
      calls := calls + [HookCall("setup", UserDetails(app.Get("username")))];
    }
    // before
    var steps: seq<Step<Error>> := [];
    var beforeStep := Next;
    if hooks.before {
      var details := UserDetails(app.Get("username"));
      calls := calls + [HookCall("before", details)];
      beforeStep := Before(details);
    }
    steps := steps + [beforeStep];
    // tryAuth, through app.setup
    app.started := true;
    var cookie, username := "", "";
    match auth {
      case Refused(e) =>
        replies := replies + [Reply(Some(e), false)];
      case Prompting =>
      case Authenticated(session) =>
        cookie, username := session.cookie, session.username;
    }
    var authStep := AuthStage(auth, saveErr);
    steps := steps + [authStep];
    // after
    if authStep.Next? {
      var afterStep := Next;
      if hooks.after {
        calls := calls + [HookCall("after", SessionDetails(cookie, username))];
        afterStep := AfterLogin(app, cookie, username);
      }
      steps := steps + [afterStep];
    }
    assert steps == Run(LoginStages(auth, saveErr));
    var end := EndReply(Final(steps, 3));
    if end.Some? {
      replies := replies + [end.value];
    }
  }

  const LoggedOut := "User has been logged out"

  /** What `users.logout` leaves behind: the hook calls, the logout request
      (if any), the final answer and the message shown. */
  datatype LogoutOutcome = LogoutOutcome(calls: seq<HookCall>, request: Option<LogoutRequest>,
                                         reply: Reply, message: Option<string>)

  /** `users.logout`. The username is read once, before anything changes, and
      both hooks see it. After `app.unauth` (which never fails) the username
      and password are cleared; the after-hook clears the cookie. The series'
      outcome is ignored: the config is saved in every case, and a failed save
      is answered as a shallow error. */
  method LogoutCommand(app: Cli, hooks: HookSet, saveErr: Option<Error>)
    returns (out: LogoutOutcome)
    modifies app`store
    ensures out.calls == (if hooks.before then [HookCall("before", UserDetails(old(app.Get("username"))))] else [])
                       + (if hooks.after then [HookCall("after", UserDetails(old(app.Get("username"))))] else [])
    ensures out.request == Unauth(old(app.Get("endpoint")), old(app.Get("cookie")))
    ensures app.store == old(app.store) - {"username", "password"} - (if hooks.after then {"cookie"} else {})
    ensures saveErr.Some? ==> out.reply == Reply(saveErr, true) && out.message == None
    ensures saveErr.None? ==> out.reply == Reply(None, false) && out.message == Some(LoggedOut)
  {
    var username := app.Get("username");
    var calls: seq<HookCall> := [];
    var steps: seq<Step<Error>> := [];
    // before
    var beforeStep := Next;
    if hooks.before {
      var details := UserDetails(username);
      calls := calls + [HookCall("before", details)];
      beforeStep := Before(details);
    }
    steps := steps + [beforeStep];
    // logout: unauth always calls back
    var request := Unauth(app.Get("endpoint"), app.Get("cookie"));
    app.Clear("username");
    app.Clear("password");
    steps := steps + [Next];
    // after
    var afterStep := Next;
    if hooks.after {
      calls := calls + [HookCall("after", UserDetails(username))];
      afterStep := AfterLogout(app);
    }
    steps := steps + [afterStep];
    // end: every stage continues, and the series' error is not looked at
    assert steps == Run([Next, Next, Next]) && Final(steps, 3) == Done(None);
    if saveErr.Some? {
      out := LogoutOutcome(calls, request, Reply(saveErr, true), None);
    } else {
      out := LogoutOutcome(calls, request, Reply(None, false), Some(LoggedOut));
    }
  }

  /** `users.whoami`: the stored username, or 'not logged in'; it always succeeds. */
  function Whoami(username: Option<string>): (out: (string, Reply))
    ensures Truthy(username) ==> out.0 == "You are: " + username.value
    ensures !Truthy(username) ==> out.0 == "You are: not logged in"
    ensures out.1 == Reply(None, false)
  {
    ("You are: " + (if Truthy(username) then username.value else "not logged in"), Reply(None, false))
  }
}
