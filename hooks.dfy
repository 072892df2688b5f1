/** lib/commands.js: the before and after hooks `di` hands to the server and
    users plugins. The after-hooks are where the session config changes: the
    endpoint is stored after `endpoint`, the credentials after `login`, and the
    cookie is dropped after `logout`. Their `save()` calls pass no callback, so
    a failed save is never seen and every hook continues. */
module Hooks {
  import opened Common
  import opened Strings
  import opened App
  import opened Series
  import opened Server

  /** Which hooks a plugin was given (`options.before.setup`,
      `options.before.<command>`, `options.after.<command>`). */
  datatype HookSet = HookSet(setup: bool, before: bool, after: bool)

  /** The hooks lib/commands.js attaches: a before- and an after-hook for each
      of endpoint, login and logout, an after-hook for about, and no setup hook. */
  const Attached := HookSet(false, true, true)

  /** The details object a hook is called with. */
  datatype Details =
    | UserDetails(username: Option<string>)
    | EndpointDetails(endpoint: Option<string>)
    | SessionDetails(cookie: string, user: string)
    | ServerDetails(server: Server)

  /** One hook invocation, in the order the pipeline made it. */
  datatype HookCall = HookCall(hook: string, details: Details)

  /** `before.endpoint`, `before.login`, `before.logout`: whatever the details,
      the pipeline goes on without an error. */
  function Before(details: Details): (step: Step<Error>)
    ensures step == Next
  {
    Next
  }

  /** `after.endpoint`: stores the endpoint of the server the prompt accepted,
      when there is one; `null` and `{}` leave the config alone. */
  method AfterEndpoint(app: Cli, details: Server) returns (step: Step<Error>)
    modifies app`store
    ensures step == Next
    ensures details.ServerMeta? && details.endpoint != "" ==>
              app.store == old(app.store)["endpoint" := details.endpoint]
    ensures !(details.ServerMeta? && details.endpoint != "") ==> app.store == old(app.store)
  {
    if details.ServerMeta? && details.endpoint != "" {
      app.Set("endpoint", details.endpoint);
    }
    step := Next;
  }

  /** `after.login`: with a username, the stored password is dropped and the
      username and cookie are stored together; without one nothing changes. */
  method AfterLogin(app: Cli, cookie: string, user: string) returns (step: Step<Error>)
    modifies app`store
    ensures step == Next
    ensures user != "" ==>
              app.store == (old(app.store) - {"password"})["username" := user]["cookie" := cookie]
    ensures user == "" ==> app.store == old(app.store)
  {
    if user != "" {
      app.Clear("password");
      app.Set("username", user);
      app.Set("cookie", cookie);
    }
    step := Next;
  }

  /** `after.logout`: the cookie is dropped, whoever was logged in. */
  method AfterLogout(app: Cli) returns (step: Step<Error>)
    modifies app`store
    ensures step == Next
    ensures app.store == old(app.store) - {"cookie"}
  {
    app.Clear("cookie");
    step := Next;
  }

  /** What `after.about` prints, or the TypeError it throws. */
  datatype Report =
    | ReadsNull
    | Warned(warning: string)
    | Reported(lines: seq<string>)

  const NoEndpointWarning := "There is no DeployR server endpoint set. Run `di endpoint` first."

  /** The report lines for server information: version with its edition, the
      configured endpoint, and the build date. */
  function InfoLines(info: Info, endpoint: Option<string>): (lines: seq<string>)
    ensures |lines| == 3
    ensures lines[0] == "Version: " + info.version + " DeployR \"" + (if info.enterprise then "Enterprise" else "Open") + "\""
    ensures lines[1] == "Server: " + JsText(endpoint)
    ensures lines[2] == "Build Date: " + info.date
  {
    ["Version: " + info.version + " DeployR \"" + (if info.enterprise then "Enterprise" else "Open") + "\"",
     "Server: " + JsText(endpoint),
     "Build Date: " + info.date]
  }

  /** `after.about`: reading `details.info` of `null` throws; a server with
      information is reported, anything else draws the warning. The config
      is only read. */
  function AfterAbout(details: Server, endpoint: Option<string>): (r: Report)
    ensures r.ReadsNull? <==> details.NullServer?
    ensures r.Reported? <==> details.ServerMeta? && details.info.Some?
    ensures r.Reported? ==> r.lines == InfoLines(details.info.value, endpoint)
    ensures r.Warned? ==> r.warning == NoEndpointWarning
  {
    match details
    case NullServer => ReadsNull
    case EmptyServer => Warned(NoEndpointWarning)
    case ServerMeta(_, info) =>
      if info.Some? then Reported(InfoLines(info.value, endpoint)) else Warned(NoEndpointWarning)
  }

  /** The edition label follows `info.enterprise` and nothing else. */
  lemma EditionLabel(version: string, enterprise: bool, date: string, endpoint: Option<string>)
    ensures var lines := AfterAbout(ServerMeta("e", Some(Info(version, enterprise, date))), endpoint).lines;
            EndsWith(lines[0], if enterprise then "\"Enterprise\"" else "\"Open\"")
  {
    var lines := AfterAbout(ServerMeta("e", Some(Info(version, enterprise, date))), endpoint).lines;
    var edition := if enterprise then "\"Enterprise\"" else "\"Open\"";
    assert lines[0] == "Version: " + version + " DeployR " + edition;
    assert lines[0][|lines[0]| - |edition|..] == edition;
  }
}
