/** di.js: starting the CLI, running a command, reporting a failed command,
    and the home, settings and help menus. The command router, `init` and the
    commands themselves are outside this part; what they answer is an input. */
module Di {
  import opened Common
  import opened Strings
  import opened App
  import Config
  import opened Listing

  // ---------------------------------------------------------------------------
  // showError

  /** The lines `showError` logs for a failed `command`: a heading, then the
      stack one line per entry when there is one and the error is not
      shallow, else the three lines of a DeployR API error, else the error
      itself (here its message). */
  function ShowError(command: string, err: Error, shallow: bool): (lines: seq<string>)
    ensures |lines| >= 2 && lines[0] == "Error running command " + command
    ensures Truthy(err.stack) && !shallow ==> lines[1..] == Split(err.stack.value, '\n')
    ensures !(Truthy(err.stack) && !shallow) && err.deployr.Some? ==>
              lines[1..] == ["DeployR API error on call \"" + err.deployr.value.call + "\"",
                             "Error Code: " + IntText(err.deployr.value.code),
                             "Error: " + err.deployr.value.error]
    ensures !(Truthy(err.stack) && !shallow) && err.deployr.None? ==> lines[1..] == [err.message]
  {
    ["Error running command " + command]
    + if Truthy(err.stack) && !shallow then Split(err.stack.value, '\n')
      else if err.deployr.Some? then
        ["DeployR API error on call \"" + err.deployr.value.call + "\"",
         "Error Code: " + IntText(err.deployr.value.code),
         "Error: " + err.deployr.value.error]
      else [err.message]
  }

  /** Nothing of a deep error's stack is lost: the trace lines joined back
      with newlines are the stack. */
  lemma ShowErrorKeepsStack(command: string, err: Error)
    requires Truthy(err.stack)
    ensures Join(ShowError(command, err, false)[1..], '\n') == err.stack.value
  {
    JoinSplit(err.stack.value, '\n');
  }

  /** The error code a DeployR API error shows is its code in decimal. */
  lemma ShowErrorCode(command: string, err: Error)
    requires !Truthy(err.stack) && err.deployr.Some? && err.deployr.value.code >= 0
    ensures var line := ShowError(command, err, false)[2];
            |line| > |"Error Code: "| && line[..|"Error Code: "|] == "Error Code: "
            && DigitsValue(line[|"Error Code: "|..]) == err.deployr.value.code
  {
    var line := ShowError(command, err, false)[2];
    assert line[|"Error Code: "|..] == NatText(err.deployr.value.code);
    NatTextValue(err.deployr.value.code);
  }

  /** `command.join(' ')`. */
  function CommandLine(command: seq<string>): string
  {
    if command == [] then "" else Join(command, ' ')
  }

  /** The command line a failure is reported against names the command's
      words exactly: splitting it on spaces gives them back. */
  lemma CommandLineNamesWords(command: seq<string>)
    requires command != []
    requires forall k :: 0 <= k < |command| ==> ' ' !in command[k]
    ensures Split(CommandLine(command), ' ') == command
  {
    SplitJoin(command, ' ');
  }

  // ---------------------------------------------------------------------------
  // start, exec, setup

  /** Where `start` goes. */
  datatype Started =
    | PrintedUser(line: string)                        // `di whoami`: only the username
    | InitFailed(lines: seq<string>, reply: Reply)
    | ShowHome
    | Execute(command: seq<string>)

  /** `di.start`. `di whoami` prints the stored username (or nothing) and
      turns the farewell off, before anything is initialised. A failed
      `init` is reported against the command line and answered. Otherwise
      `--help` replaces the command by `help`, and an empty command shows the
      home menu. */
  method Start(app: Cli, help: bool, initErr: Option<Error>) returns (s: Started)
    modifies app`displayExit, app`args
    ensures var whoami := |old(app.args)| > 0 && old(app.args)[0] == "whoami";
            (whoami ==> s == PrintedUser(if Truthy(app.Get("username")) then app.Get("username").value else "")
                        && !app.displayExit && app.args == old(app.args))
            && (!whoami && initErr.Some? ==>
                  s == InitFailed(ShowError(CommandLine(old(app.args)), initErr.value, false), Reply(initErr, false))
                  && app.displayExit == old(app.displayExit) && app.args == old(app.args))
            && (!whoami && initErr.None? ==>
                  app.displayExit == old(app.displayExit)
                  && app.args == (if help then ["help"] else old(app.args))
                  && (|app.args| == 0 || app.args[0] == "" <==> s == ShowHome)
                  && (s != ShowHome ==> s == Execute(app.args)))
  {
    if |app.args| > 0 && app.args[0] == "whoami" {
      app.displayExit := false;
      var user := app.Get("username");
      return PrintedUser(if Truthy(user) then user.value else "");
    }
    if initErr.Some? {
      return InitFailed(ShowError(CommandLine(app.args), initErr.value, false), Reply(initErr, false));
    }
    if help {
      app.args := ["help"];
    }
    if |app.args| == 0 || app.args[0] == "" {
      s := ShowHome;
    } else {
      s := Execute(app.args);
    }
  }

  /** `di.setup`: marks the app started; a second call changes nothing. */
  method Setup(app: Cli)
    modifies app`started
    ensures app.started
  {
    if app.started {
      return;
    }
    app.started := true;
  }

  /** `di.exec`: the app is set up first if it is not started yet, the
      farewell is turned off, and the command is dispatched; `dispatched` is
      what the router answers, `None` when the command never calls back (then
      `di.exec` does not call back either). A failure is reported against the
      command line (deep or shallow, as the router says) and passed on. */
  method Exec(app: Cli, command: seq<string>, dispatched: Option<Reply>) returns (lines: seq<string>, reply: Option<Reply>)
    modifies app`started, app`displayExit
    ensures app.started && !app.displayExit
    ensures dispatched.None? ==> lines == [] && reply == None
    ensures dispatched.Some? && dispatched.value.err.Some? ==>
              lines == ShowError(CommandLine(command), dispatched.value.err.value, dispatched.value.shallow)
              && reply == Some(Reply(dispatched.value.err, false))
    ensures dispatched.Some? && dispatched.value.err.None? ==> lines == [] && reply == Some(Reply(None, false))
  {
    if !app.started {
      Setup(app);
    }
    app.displayExit := false;
    lines, reply := [], None;
    if dispatched.Some? {
      var answer := dispatched.value;
      if answer.err.Some? {
        lines := ShowError(CommandLine(command), answer.err.value, answer.shallow);
        reply := Some(Reply(answer.err, false));
      } else {
        reply := Some(Reply(None, false));
      }
    }
  }

  /** `di.goto`: a menu runs a command; `outcome` is how the command calls
      back, `None` when it never does. Only in that callback is a failure
      reported and the farewell turned off, so a command that never calls
      back leaves the farewell as it was. The callback `di.goto` is handed is
      never called. */
  method Goto(app: Cli, command: seq<string>, outcome: Option<Reply>) returns (lines: seq<string>)
    modifies app`displayExit
    ensures outcome.None? ==> lines == [] && app.displayExit == old(app.displayExit)
    ensures outcome.Some? ==> !app.displayExit
    ensures outcome.Some? && outcome.value.err.Some? ==>
              lines == ShowError(CommandLine(command), outcome.value.err.value, outcome.value.shallow)
    ensures outcome.Some? && outcome.value.err.None? ==> lines == []
  {
    lines := [];
    if outcome.Some? {
      var answer := outcome.value;
      if answer.err.Some? {
        lines := ShowError(CommandLine(command), answer.err.value, answer.shallow);
      }
      app.displayExit := false;
    }
  }

  // ---------------------------------------------------------------------------
  // exit

  const Farewell := "\nGood Bye!\n\nThe DeployR Team ♥  https://github.com/deployr"

  /** `di.exit`: the farewell (after the brand banner) is printed only while
      `displayExit` is on. */
  function Exit(app: Cli, brand: string): (out: Option<string>)
    reads app
    ensures out.Some? <==> app.displayExit
    ensures out.Some? ==> out.value == brand + Farewell
  {
    if app.displayExit then Some(brand + Farewell) else None
  }

  /** Running a command ends without the farewell, whether it succeeds,
      fails or never calls back. */
  method ExecThenExit(app: Cli, command: seq<string>, dispatched: Option<Reply>, brand: string)
    returns (farewell: Option<string>)
    modifies app`started, app`displayExit
    ensures farewell == None
  {
    var _, _ := Exec(app, command, dispatched);
    farewell := Exit(app, brand);
  }

  // ---------------------------------------------------------------------------
  // menus

  /** What a menu entry names: one of `di`'s own methods, with its arguments. */
  datatype Action = GotoCommand(args: seq<string>) | SettingsMenu | FindHelpMenu | NoOp | HomeMenu

  /** `endpoint.replace(/^https?:\/\//, '')`: a leading `http://` or
      `https://` (lower case only) is dropped. */
  function StripScheme(endpoint: string): (host: string)
    ensures StartsWith(endpoint, "http://") ==> host == endpoint[7..]
    ensures StartsWith(endpoint, "https://") ==> host == endpoint[8..]
    ensures !StartsWith(endpoint, "http://") && !StartsWith(endpoint, "https://") ==> host == endpoint
  {
    SchemesExclusive(endpoint);
    if StartsWith(endpoint, "http://") then endpoint[7..]
    else if StartsWith(endpoint, "https://") then endpoint[8..]
    else endpoint
  }

  lemma SchemesExclusive(endpoint: string)
    ensures StartsWith(endpoint, "https://") ==> !StartsWith(endpoint, "http://")
  {
    if StartsWith(endpoint, "https://") {
      assert endpoint[4] == "https://"[4] == 's';
      assert endpoint[..7][4] == 's';
    }
  }

  /** Whichever scheme the endpoint was written with, the greeting shows the
      host part exactly. */
  lemma StripSchemeShowsHost(secure: bool, host: string)
    ensures StripScheme((if secure then "https://" else "http://") + host) == host
  {
    var e := (if secure then "https://" else "http://") + host;
    if secure {
      assert e[4] == 's';
      assert e[..8] == "https://";
    } else {
      assert e[..7] == "http://";
    }
  }

  /** The greeting added to the home menu's title: `user@host`, shown only
      when both a username and an endpoint are set. */
  function Greeting(name: Option<string>, endpoint: Option<string>): (g: string)
    ensures g != "" <==> Truthy(name) && Truthy(endpoint)
    ensures g != "" ==> g == " " + name.value + "@" + StripScheme(endpoint.value)
  {
    if Truthy(name) && Truthy(endpoint) then " " + name.value + "@" + StripScheme(endpoint.value) else ""
  }

  const Choices := Separator(Some("Choices"))

  /** The home menu: its title and its entries, the four defaults between
      the separators. */
  function Home(app: Cli): (menu: (string, seq<Choice<Action>>))
    reads app
    ensures menu.0 == "Welcome to DeployR CLI" + Greeting(app.Get("username"), app.Get("endpoint")) + "!"
    ensures |menu.1| == 7 && menu.1[0] == Choices
    ensures forall i :: 2 <= i < 6 <==> 0 <= i < |menu.1| && menu.1[i].Item?
    ensures forall i :: 0 <= i < |menu.1| && menu.1[i].Item? && menu.1[i].value.GotoCommand? ==>
              i == 2 && menu.1[i].value.args == ["install", "example"]
    ensures menu.1[3].value == SettingsMenu && menu.1[4].value == FindHelpMenu && menu.1[5].value == NoOp
  {
    ("Welcome to DeployR CLI" + Greeting(app.Get("username"), app.Get("endpoint")) + "!",
     [Choices, Separator(None),
      Item("Install an example", GotoCommand(["install", "example"])),
      Item("Settings", SettingsMenu),
      Item("Find some help", FindHelpMenu),
      Item("Get me out of here!", NoOp),
      Separator(None)])
  }

  /** What a help-menu entry hands back: a link, or `{method: 'home'}`. */
  datatype HelpValue = Link(url: Option<string>) | Invoke(action: Action)

  /** The help menu: the documentation (the `homepage` setting), the issue
      tracker, and the way home. The tracker is the default `git.cli` setting;
      a `git` object written into the store by hand would replace it. */
  function FindHelp(app: Cli): (choices: seq<Choice<HelpValue>>)
    reads app
    ensures |choices| == 3 && forall i :: 0 <= i < 3 ==> choices[i].Item?
    ensures choices[0].value == Link(app.Get("homepage")) && choices[1].value == Link(Some(Config.GitCli))
    ensures forall i :: 0 <= i < 3 ==> (choices[i].value.Invoke? <==> i == 2)
    ensures choices[2].value.action == HomeMenu
  {
    [Item("Take me to the documentation", Link(app.Get("homepage"))),
     Item("File an issue on GitHub", Link(Some(Config.GitCli))),
     Item("Take me back home!", Invoke(HomeMenu))]
  }

  /** What picking a help entry does: a method entry is invoked, a link is
      opened in the browser. */
  datatype HelpOutcome = Opened(url: Option<string>) | Invoked(action: Action)

  function PickHelp(value: HelpValue): (o: HelpOutcome)
    ensures value.Link? <==> o.Opened?
    ensures value.Link? ==> o.url == value.url
    ensures value.Invoke? ==> o.action == value.action
  {
    match value
    case Link(url) => Opened(url)
    case Invoke(action) => Invoked(action)
  }

  /** Unless the `homepage` setting was changed, the documentation entry
      opens the built-in homepage. */
  lemma DocumentationIsHomepage(app: Cli)
    requires "homepage" !in app.store
    ensures PickHelp(FindHelp(app)[0].value) == Opened(Some(Config.Homepage))
  {
  }

  /** The settings menu: the endpoint and about commands, and the way home. */
  const SettingsChoices: seq<Choice<Action>> :=
    [Choices, Separator(None),
     Item("DeployR endpoint", GotoCommand(["endpoint"])),
     Item("About server", GotoCommand(["about"])),
     Item("Take me back home!", HomeMenu),
     Separator(None)]

  /** Every entry of the settings menu either runs a server command through
      `di.goto` or goes home, and both the endpoint and the about commands
      are offered. */
  lemma SettingsEntries()
    ensures forall c :: c in SettingsChoices && c.Item? ==>
              c.value == GotoCommand(["endpoint"]) || c.value == GotoCommand(["about"]) || c.value == HomeMenu
    ensures exists i :: 0 <= i < |SettingsChoices| && SettingsChoices[i].Item? && SettingsChoices[i].value == GotoCommand(["endpoint"])
    ensures exists i :: 0 <= i < |SettingsChoices| && SettingsChoices[i].Item? && SettingsChoices[i].value == GotoCommand(["about"])
  {
    assert SettingsChoices[2].value == GotoCommand(["endpoint"]);
    assert SettingsChoices[3].value == GotoCommand(["about"]);
  }
}
