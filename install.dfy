/** lib/commands/install.js after the listing: what happens once an example
    is downloaded, the per-install record `exConfig`, the two counter
    barriers (directories, then uploads), the run confirmation and password
    check, the tutorial menus, the command that runs the example, and the
    menu shown after it exits. Prompt answers and network outcomes are inputs. */
module Install {
  import opened Common
  import opened Strings
  import opened LangType
  import opened Listing

  // ---------------------------------------------------------------------------
  // di-config.json and exConfig

  /** A dependency listed under `app-install.repository`: its `file` part,
      and whether it carries a `permissions` record (the upload reads
      `perm.restricted`, which throws when there is none). */
  datatype Repo = Repo(filename: string, directory: Option<string>, hasPermissions: bool)

  /** Every dependency carries its `permissions`. */
  predicate AllPermitted(repos: seq<Repo>)
  {
    forall k :: 0 <= k < |repos| ==> repos[k].hasPermissions
  }

  /** An entry of a tutorial topic's menu: its label and the test it runs. */
  datatype MenuItem = MenuItem(item: string, args: Option<string>)

  datatype Topic = Topic(topic: string, menu: Option<seq<MenuItem>>)

  /** `app-run.tutorial`; every field may be absent. */
  datatype Tutorial = Tutorial(help: Option<string>, topics: Option<seq<Topic>>)

  datatype AppInstall = AppInstall(repository: Option<seq<Repo>>)
  datatype AppRun = AppRun(requireAuthentication: Option<bool>, tutorial: Option<Tutorial>)

  /** The parts of an example's `di-config.json` the workflow reads. */
  datatype DiConfig = DiConfig(appInstall: Option<AppInstall>, appRun: Option<AppRun>)

  /** `{}` standing in for a missing tutorial. */
  const NoTutorial := Tutorial(None, None)

  /** `exConfig`: `{}` until the example's `di-config.json` has been read. */
  datatype ExConfig =
    | Unconfigured
    | Configured(example: string, repos: seq<Repo>, auth: bool, tutorial: Tutorial)

  /** The record `installation` builds, each part defaulted when absent. */
  function ExConfigOf(example: string, config: DiConfig): (c: ExConfig)
    ensures c.Configured? && c.example == example
    ensures (config.appInstall.None? || config.appInstall.value.repository.None?) ==> c.repos == []
    ensures config.appInstall.Some? && config.appInstall.value.repository.Some? ==>
              c.repos == config.appInstall.value.repository.value
    ensures c.auth <==> config.appRun.Some? && config.appRun.value.requireAuthentication == Some(true)
    ensures (config.appRun.None? || config.appRun.value.tutorial.None?) ==> c.tutorial == NoTutorial
    ensures config.appRun.Some? && config.appRun.value.tutorial.Some? ==>
              c.tutorial == config.appRun.value.tutorial.value
  {
    var repos := if config.appInstall.Some? && config.appInstall.value.repository.Some?
                 then config.appInstall.value.repository.value else [];
    var auth := config.appRun.Some? && config.appRun.value.requireAuthentication == Some(true);
    var tutorial := if config.appRun.Some? && config.appRun.value.tutorial.Some?
                    then config.appRun.value.tutorial.value else NoTutorial;
    Configured(example, repos, auth, tutorial)
  }

  // ---------------------------------------------------------------------------
  // the counter barriers

  /** What a barrier does as its requests complete. */
  datatype JoinEvent = Reported(err: Error) | Proceeded

  /** The success count after one more completion. */
  function Counted(success: nat, outcome: Option<Error>): nat
  {
    if outcome.None? then success + 1 else success
  }

  /** What the barrier does on one completion, `count` being the success
      count after it: report a failure (when it reports failures), then
      proceed if the count equals `last`. */
  function OnCompletion(last: nat, count: nat, outcome: Option<Error>, reportErrors: bool): seq<JoinEvent>
  {
    (if outcome.Some? && reportErrors then [Reported(outcome.value)] else [])
    + (if count == last then [Proceeded] else [])
  }

  /** The barrier from `success` successes on, as its requests complete with
      `outcomes`. */
  function JoinEvents(last: nat, success: nat, outcomes: seq<Option<Error>>, reportErrors: bool): seq<JoinEvent>
    decreases |outcomes|
  {
    if outcomes == [] then []
    else
      var s := Counted(success, outcomes[0]);
      OnCompletion(last, s, outcomes[0], reportErrors) + JoinEvents(last, s, outcomes[1..], reportErrors)
  }

  /** The failures among the outcomes, in completion order. */
  function Failures(outcomes: seq<Option<Error>>): (errs: seq<Error>)
    ensures |errs| <= |outcomes|
  {
    if outcomes == [] then []
    else (if outcomes[0].Some? then [outcomes[0].value] else []) + Failures(outcomes[1..])
  }

  /** The errors a run of the barrier reported, in order. */
  function ReportedErrors(events: seq<JoinEvent>): seq<Error>
  {
    if events == [] then []
    else (if events[0].Reported? then [events[0].err] else []) + ReportedErrors(events[1..])
  }

  lemma {:induction false} ReportedErrorsAppend(a: seq<JoinEvent>, b: seq<JoinEvent>)
    ensures ReportedErrors(a + b) == ReportedErrors(a) + ReportedErrors(b)
    decreases |a|
  {
    if a == [] {
      assert a + b == b;
    } else {
      var rest := a[1..] + b;
      assert a + b == [a[0]] + rest;
      ReportedErrorsAppend(a[1..], b);
      ReportedErrorsCons(a[0], rest);
      ReportedErrorsCons(a[0], a[1..]);
      assert a == [a[0]] + a[1..];
    }
  }

  lemma ReportedErrorsCons(e: JoinEvent, rest: seq<JoinEvent>)
    ensures ReportedErrors([e] + rest) == (if e.Reported? then [e.err] else []) + ReportedErrors(rest)
  {
    assert ([e] + rest)[1..] == rest;
  }

  /** Each request completes once, so with `success` counted so far at most
      `last - success` completions remain. The barrier then proceeds exactly
      when every remaining request succeeds and the count reaches `last`; it
      proceeds once, as the very last thing it does. */
  lemma {:induction false} JoinProceedsOnce(last: nat, success: nat, outcomes: seq<Option<Error>>, reportErrors: bool)
    requires success + |outcomes| <= last
    ensures var events := JoinEvents(last, success, outcomes, reportErrors);
            (Proceeded in events <==>
               |outcomes| > 0 && success + |outcomes| == last && forall i :: 0 <= i < |outcomes| ==> outcomes[i].None?)
            && (Proceeded in events ==>
                  events[|events| - 1] == Proceeded && forall i :: 0 <= i < |events| - 1 ==> events[i] != Proceeded)
    decreases |outcomes|
  {
    if outcomes != [] {
      var s := Counted(success, outcomes[0]);
      var head := OnCompletion(last, s, outcomes[0], reportErrors);
      var rest := JoinEvents(last, s, outcomes[1..], reportErrors);
      JoinProceedsOnce(last, s, outcomes[1..], reportErrors);
      assert JoinEvents(last, success, outcomes, reportErrors) == head + rest;
      if s == last {
        assert outcomes[1..] == [] && rest == [];
      }
      assert forall i :: 1 <= i < |outcomes| ==> outcomes[i] == outcomes[1..][i - 1];
      assert Proceeded in head + rest <==> Proceeded in head || Proceeded in rest;
    }
  }

  /** A barrier that reports failures reports every failure, in order; one
      that does not reports none. */
  lemma {:induction false} JoinReportsFailures(last: nat, success: nat, outcomes: seq<Option<Error>>, reportErrors: bool)
    ensures ReportedErrors(JoinEvents(last, success, outcomes, reportErrors)) == (if reportErrors then Failures(outcomes) else [])
    decreases |outcomes|
  {
    if outcomes != [] {
      var s := Counted(success, outcomes[0]);
      var first := if outcomes[0].Some? && reportErrors then [Reported(outcomes[0].value)] else [];
      var fired := if s == last then [Proceeded] else [];
      JoinReportsFailures(last, s, outcomes[1..], reportErrors);
      ReportedErrorsAppend(first, fired);
      ReportedErrorsAppend(first + fired, JoinEvents(last, s, outcomes[1..], reportErrors));
      assert OnCompletion(last, s, outcomes[0], reportErrors) == first + fired;
      assert ReportedErrors(fired) == [] by {
        if s == last { assert ReportedErrors(fired) == [] + ReportedErrors([]); }
      }
      if first != [] {
        assert ReportedErrors(first) == [outcomes[0].value] + ReportedErrors([]);
      }
    }
  }

  /** A counter barrier: `last` requests were sent, and their outcomes arrive
      in `outcomes` in completion order. */
  method RunJoin(last: nat, outcomes: seq<Option<Error>>, reportErrors: bool) returns (events: seq<JoinEvent>)
    ensures events == JoinEvents(last, 0, outcomes, reportErrors)
  {
    var success := 0;
    events := [];
    var i := 0;
    while i < |outcomes|
      invariant 0 <= i <= |outcomes|
      invariant events + JoinEvents(last, success, outcomes[i..], reportErrors) == JoinEvents(last, 0, outcomes, reportErrors)
    {
      JoinAdvance(events, last, success, outcomes, i, reportErrors);
      ghost var before, counted := events, success;
      var outcome := outcomes[i];
      if outcome.None? {
        success := success + 1;
      } else if reportErrors {
        events := events + [Reported(outcome.value)];
      }
      if success == last {
        events := events + [Proceeded];
      }
      assert success == Counted(counted, outcome);
      assert events == before + OnCompletion(last, success, outcome, reportErrors);
      i := i + 1;
    }
  }

  /** One completion of `RunJoin`'s loop, as `JoinEvents` unfolds it. */
  lemma JoinAdvance(events: seq<JoinEvent>, last: nat, success: nat, outcomes: seq<Option<Error>>,
                    i: nat, reportErrors: bool)
    requires i < |outcomes|
    ensures var s := Counted(success, outcomes[i]);
            events + JoinEvents(last, success, outcomes[i..], reportErrors)
            == (events + OnCompletion(last, s, outcomes[i], reportErrors)) + JoinEvents(last, s, outcomes[i + 1..], reportErrors)
  {
    assert outcomes[i..][1..] == outcomes[i + 1..];
  }

  // ---------------------------------------------------------------------------
  // screens

  /** What the workflow shows or does next. */
  datatype RunOptions = RunOptions(pw: Option<string>, tutorial: Option<TutorialRun>)
  datatype TutorialRun = TutorialRun(menu: seq<MenuItem>, example: Option<string>)

  datatype Screen =
    | Stopped                                        // nothing further happens
    | Installing                                     // `installation` reads di-config.json
    | ConfirmRun                                     // "Would you like to run the example"
    | AskPassword
    | Targets(pw: Option<string>)
    | TopicMenu(pw: Option<string>)
    | TutorialMenu(menu: seq<MenuItem>, pw: Option<string>)
    | Running(opts: RunOptions)                      // `run` is about to spawn the example
    | AfterRun(opts: RunOptions)                     // the example exited: "What do you want to do?"
    | Home
    | Fault                                          // an uncaught throw ends the process

  /** `String(e)` for an error whose `name` is `Error`: `Error.prototype.toString`. */
  function ErrorText(e: Error): string
  {
    if e.message == "" then "Error" else "Error: " + e.message
  }

  /** `new Error(e)`: a fresh error whose message is `String(e)`; its stack is
      its own first line followed by the `frames` of the place it was made,
      and it carries none of `e`'s DeployR API details. */
  function Wrapped(e: Error, frames: string): (w: Error)
    ensures w.deployr.None? && w.stack.Some?
    ensures e.message != "" ==> w.message == "Error: " + e.message
    ensures StartsWith(w.stack.value, "Error: " + w.message)
  {
    var text := ErrorText(e);
    Error(text, Some("Error: " + text + frames), None)
  }

  /** After the download: the command is answered with the download error,
      wrapped in a new `Error`, and the workflow still goes on. An example
      with no language has no installer, and calling it throws. With a
      `di-config.json` the signed-in check comes first (a login on failure,
      stopping on a login error); without one the example is run at once,
      `exConfig` still `{}`. `frames` is the stack trace of the wrapping
      `Error`, a run-time fact. */
  function AfterDownload(example: string, downloadErr: Option<Error>, frames: string, hasDiConfig: bool,
                         signedIn: bool, loginErr: Option<Error>): (r: (seq<Reply>, Screen))
    ensures r.0 == (if downloadErr.Some? then [Reply(Some(Wrapped(downloadErr.value, frames)), false)] else [])
                   + (if r.1 == Stopped then [Reply(loginErr, false)] else [])
    ensures Parse(Str(example)).None? ==> r.1 == Fault
    ensures Parse(Str(example)).Some? && !hasDiConfig ==> r.1 == Running(RunOptions(None, None))
    ensures Parse(Str(example)).Some? && hasDiConfig && (signedIn || loginErr.None?) ==> r.1 == Installing
    ensures Parse(Str(example)).Some? && hasDiConfig && !signedIn && loginErr.Some? ==>
              r.1 == Stopped
  {
    var first := if downloadErr.Some? then [Reply(Some(Wrapped(downloadErr.value, frames)), false)] else [];
    if Parse(Str(example)).None? then (first, Fault)
    else if !hasDiConfig then (first, Running(RunOptions(None, None)))
    else if signedIn || loginErr.None? then (first, Installing)
    else (first + [Reply(loginErr, false)], Stopped)
  }

  /** A download error reaches the command's caller without its DeployR API
      details and, since the wrapper has a stack, is shown as a stack trace
      whose first line carries the original error's text. */
  lemma DownloadErrorWrapped(example: string, downloadErr: Error, frames: string, hasDiConfig: bool,
                             signedIn: bool, loginErr: Option<Error>)
    ensures var replies := AfterDownload(example, Some(downloadErr), frames, hasDiConfig, signedIn, loginErr).0;
            |replies| >= 1 && replies[0].err.Some?
            && replies[0].err.value.deployr.None? && replies[0].err.value.stack.Some?
            && StartsWith(replies[0].err.value.stack.value, "Error: " + ErrorText(downloadErr))
  {
  }

  /** The example's session: the one piece of state the workflow's steps share. */
  class InstallSession {
    var exConfig: ExConfig

    constructor ()
      ensures exConfig == Unconfigured
    {
      exConfig := Unconfigured;
    }

    /** `installation`: records the defaulted `exConfig`. With dependencies,
        the directories are created (`dirCount` requests: the
        `_.uniq(repos, 'directory')` count, an input), then, once all of them
        succeeded, the files are uploaded, each failed upload answering the
        command with its error; the run is offered once every upload
        succeeded. A dependency without `permissions` makes the upload loop
        throw, and the process ends. Without dependencies the run is offered
        at once. */
    method Installation(example: string, config: DiConfig, dirCount: nat,
                        dirOutcomes: seq<Option<Error>>, uploadOutcomes: seq<Option<Error>>)
      returns (replies: seq<Reply>, next: Screen)
      modifies this
      ensures exConfig == ExConfigOf(example, config)
      ensures exConfig.repos == [] ==> replies == [] && next == ConfirmRun
      ensures var dirsDone := Proceeded in JoinEvents(dirCount, 0, dirOutcomes, false);
              exConfig.repos != [] ==>
                (!dirsDone ==> replies == [] && next == Stopped)
                && (dirsDone && !AllPermitted(exConfig.repos) ==> replies == [] && next == Fault)
                && (dirsDone && AllPermitted(exConfig.repos) ==>
                      var uploads := JoinEvents(|exConfig.repos|, 0, uploadOutcomes, true);
                      replies == seq(|ReportedErrors(uploads)|, i requires 0 <= i < |ReportedErrors(uploads)| =>
                                       Reply(Some(ReportedErrors(uploads)[i]), false))
                      && (next == ConfirmRun <==> Proceeded in uploads)
                      && (next != ConfirmRun ==> next == Stopped))
    {
      exConfig := ExConfigOf(example, config);
      replies := [];
      if exConfig.repos == [] {
        return [], ConfirmRun;
      }
      var dirEvents := RunJoin(dirCount, dirOutcomes, false);
      if Proceeded !in dirEvents {
        return [], Stopped;
      }
      if !AllPermitted(exConfig.repos) {
        return [], Fault;
      }
      var uploads := RunJoin(|exConfig.repos|, uploadOutcomes, true);
      var errs := ReportedErrors(uploads);
      replies := seq(|errs|, i requires 0 <= i < |errs| => Reply(Some(errs[i]), false));
      next := if Proceeded in uploads then ConfirmRun else Stopped;
    }
  }

  /** `candidateToRun`: declining does nothing further; an example that needs
      authentication asks for the password first; otherwise the targets are
      shown with no password. */
  function CandidateToRun(run: bool, auth: bool): (s: Screen)
    ensures !run ==> s == Stopped
    ensures run && auth ==> s == AskPassword
    ensures run && !auth ==> s == Targets(None)
  {
    if !run then Stopped else if auth then AskPassword else Targets(None)
  }

  // ---------------------------------------------------------------------------
  // verifyPassword

  /** The password the confirmation loop ends with: answers alternate between
      the "Password:" prompt (an empty answer is refused there and asked
      again) and the "Verify Password:" prompt; a confirmation equal to the
      password ends the loop, any other starts it over. `pending` is the
      password awaiting confirmation. */
  function ConfirmedPassword(answers: seq<string>, pending: Option<string>): Option<string>
    decreases |answers|
  {
    if answers == [] then None
    else match pending
      case None => ConfirmedPassword(answers[1..], if answers[0] == "" then None else Some(answers[0]))
      case Some(p) => if answers[0] == p then Some(p) else ConfirmedPassword(answers[1..], None)
  }

  /** The confirmed password is never empty. */
  lemma {:induction false} ConfirmedPasswordNotEmpty(answers: seq<string>, pending: Option<string>)
    requires pending.Some? ==> pending.value != ""
    ensures ConfirmedPassword(answers, pending).Some? ==> ConfirmedPassword(answers, pending).value != ""
    decreases |answers|
  {
    if answers != [] {
      match pending
      case None =>
        ConfirmedPasswordNotEmpty(answers[1..], if answers[0] == "" then None else Some(answers[0]));
      case Some(p) =>
        if answers[0] != p {
          ConfirmedPasswordNotEmpty(answers[1..], None);
        }
    }
  }

  /** One failed round: a password and a confirmation that differs from it. */
  datatype Mismatch = Mismatch(password: string, confirmation: string)

  function Rounds(ms: seq<Mismatch>): (answers: seq<string>)
    ensures |answers| == 2 * |ms|
    ensures forall i :: 0 <= i < |ms| ==>
      answers[2 * i] == ms[i].password && answers[2 * i + 1] == ms[i].confirmation
  {
    if ms == [] then [] else [ms[0].password, ms[0].confirmation] + Rounds(ms[1..])
  }

  /** There is no attempt limit: after any number of mismatched rounds, a
      matching pair confirms the password. */
  lemma {:induction false} MismatchesThenMatch(ms: seq<Mismatch>, pw: string)
    requires pw != ""
    requires forall i :: 0 <= i < |ms| ==> ms[i].password != "" && ms[i].confirmation != ms[i].password
    ensures ConfirmedPassword(Rounds(ms) + [pw, pw], None) == Some(pw)
    decreases |ms|
  {
    var answers := Rounds(ms) + [pw, pw];
    if ms == [] {
      assert answers == [pw, pw];
      assert answers[1..] == [pw];
    } else {
      var m := ms[0];
      assert answers == [m.password, m.confirmation] + (Rounds(ms[1..]) + [pw, pw]);
      assert answers[1..][1..] == Rounds(ms[1..]) + [pw, pw];
      MismatchesThenMatch(ms[1..], pw);
    }
  }

  /** `verifyPassword`: runs the prompts over the given answers; `None` while
      the loop is still asking. */
  method VerifyPassword(answers: seq<string>) returns (pw: Option<string>)
    ensures pw == ConfirmedPassword(answers, None)
    ensures pw.Some? ==> pw.value != ""
  {
    ConfirmedPasswordNotEmpty(answers, None);
    var pending: Option<string> := None;
    var i := 0;
    pw := None;
    while i < |answers|
      invariant 0 <= i <= |answers|
      invariant pw.None? ==> ConfirmedPassword(answers, None) == ConfirmedPassword(answers[i..], pending)
      invariant pw.Some? ==> pw == ConfirmedPassword(answers, None)
      decreases |answers| - i, if pw.None? then 1 else 0
    {
      assert answers[i..][1..] == answers[i + 1..];
      var answer := answers[i];
      if pending.None? {
        pending := if answer == "" then None else Some(answer);
      } else if answer == pending.value {
        pw := pending;
        return;
      } else {
        pending := None;
      }
      i := i + 1;
    }
  }

  // ---------------------------------------------------------------------------
  // targets, tutorialChoice, run

  /** What a topic-menu entry hands back. */
  datatype TopicValue = ShowHelp(help: Option<string>) | ShowMenu(menu: Option<seq<MenuItem>>) | HomeValue

  /** `targets`: a tutorial with topics gets the topic menu (an empty list of
      topics still counts); without topics the example runs with `pw`. Before
      any `di-config.json` was read, `exConfig.tutorial` is undefined and
      reading its topics throws. */
  function TargetsStep(exConfig: ExConfig, pw: Option<string>): (s: Screen)
    ensures exConfig.Unconfigured? <==> s == Fault
    ensures exConfig.Configured? && exConfig.tutorial.topics.Some? ==> s == TopicMenu(pw)
    ensures exConfig.Configured? && exConfig.tutorial.topics.None? ==> s == Running(RunOptions(pw, None))
  {
    match exConfig
    case Unconfigured => Fault
    case Configured(_, _, _, tutorial) =>
      if tutorial.topics.Some? then TopicMenu(pw) else Running(RunOptions(pw, None))
  }

  /** The topic menu: a separator, the documentation entry, one entry per
      topic in order, a separator, and the way home. */
  method TopicChoices(tutorial: Tutorial, topics: seq<Topic>) returns (choices: seq<Choice<TopicValue>>)
    ensures |choices| == |topics| + 4
    ensures choices[0] == Separator(None)
    ensures choices[1] == Item("Example Documentation", ShowHelp(tutorial.help))
    ensures forall i :: 0 <= i < |topics| ==> choices[i + 2] == Item(topics[i].topic, ShowMenu(topics[i].menu))
    ensures choices[|topics| + 2] == Separator(None)
    ensures choices[|topics| + 3] == Item(HomeLabel, HomeValue)
  {
    choices := [Separator(None)];
    choices := choices + [Item("Example Documentation", ShowHelp(tutorial.help))];
    var i := 0;
    while i < |topics|
      invariant 0 <= i <= |topics|
      invariant |choices| == i + 2
      invariant choices[0] == Separator(None)
      invariant choices[1] == Item("Example Documentation", ShowHelp(tutorial.help))
      invariant forall j :: 0 <= j < i ==> choices[j + 2] == Item(topics[j].topic, ShowMenu(topics[j].menu))
    {
      choices := choices + [Item(topics[i].topic, ShowMenu(topics[i].menu))];
      i := i + 1;
    }
    choices := choices + [Separator(None)];
    choices := choices + [Item(HomeLabel, HomeValue)];
  }

  /** The topic menu's answer: home goes home; documentation is opened in the
      browser and the topic menu is shown again; a topic opens its tutorial
      menu. An entry whose help or menu is missing hands `undefined` on to
      `tutorialChoice`, which throws. */
  function PickTopic(value: TopicValue, pw: Option<string>): (r: (Option<string>, Screen))
    ensures value.HomeValue? ==> r == (None, Home)
    ensures value.ShowHelp? && Truthy(value.help) ==> r == (value.help, Targets(pw))
    ensures value.ShowMenu? && value.menu.Some? ==> r == (None, TutorialMenu(value.menu.value, pw))
    ensures (value.ShowHelp? && !Truthy(value.help)) || (value.ShowMenu? && value.menu.None?) ==> r == (None, Fault)
  {
    match value
    case HomeValue => (None, Home)
    case ShowHelp(help) => if Truthy(help) then (help, Targets(pw)) else (None, Fault)
    case ShowMenu(menu) => if menu.Some? then (None, TutorialMenu(menu.value, pw)) else (None, Fault)
  }

  /** What a tutorial-menu entry hands back. */
  datatype ItemValue = Test(args: Option<string>) | Back

  /** `tutorialChoice`'s menu: a separator, one entry per menu item carrying
      its test, a separator, and the way back. */
  function TutorialChoices(menu: seq<MenuItem>): (choices: seq<Choice<ItemValue>>)
    ensures |choices| == |menu| + 3
    ensures choices[0] == Separator(None)
    ensures forall i :: 0 <= i < |menu| ==> choices[i + 1] == Item(menu[i].item, Test(menu[i].args))
    ensures choices[|menu| + 1] == Separator(None) && choices[|menu| + 2] == Item("Take me back", Back)
  {
    [Separator(None)]
    + seq(|menu|, i requires 0 <= i < |menu| => Item(menu[i].item, Test(menu[i].args)))
    + [Separator(None), Item("Take me back", Back)]
  }

  /** The tutorial menu's answer: back returns to the targets with the same
      password; an item runs its test, remembering the menu. */
  function PickItem(value: ItemValue, menu: seq<MenuItem>, pw: Option<string>): (s: Screen)
    ensures value.Back? ==> s == Targets(pw)
    ensures value.Test? ==> s == Running(RunOptions(pw, Some(TutorialRun(menu, value.args))))
  {
    match value
    case Back => Targets(pw)
    case Test(args) => Running(RunOptions(pw, Some(TutorialRun(menu, args))))
  }

  /** The child process `run` starts: no command at all for a .NET example or
      one with no language. */
  datatype Command = Command(cmd: Option<string>, args: seq<string>)

  const Gradle := "./gradlew"

  /** The test a run was asked for: `(optArgs.tutorial || {}).example`. */
  function TestOf(opts: RunOptions): Option<string>
  {
    if opts.tutorial.Some? then opts.tutorial.value.example else None
  }

  /** `run`'s command. JavaScript examples run `npm start`; Java examples run
      Gradle with the endpoint (followed by `/deployr`), the username, the
      password and the test class, where anything undefined is written as
      "undefined" (the `|| ''` guard applies to the whole concatenation, which
      is never empty). With `exConfig` still `{}` the example's language is
      read off `undefined`, so no command is chosen. */
  function RunCommand(exConfig: ExConfig, endpoint: Option<string>, username: Option<string>, opts: RunOptions): (c: Command)
    ensures exConfig.Unconfigured? ==> c == Command(None, [])
    ensures exConfig.Configured? && Parse(Str(exConfig.example)) == Some(JS) ==> c == Command(Some("npm"), ["start"])
    ensures exConfig.Configured? && Parse(Str(exConfig.example)) == Some(JAVA) ==>
              c.cmd == Some(Gradle) && |c.args| == 5 && c.args[0] == "run"
              && c.args[1] == "-Pendpoint=" + JsText(endpoint) + "/deployr"
              && c.args[2] == "-Pusername=" + JsText(username)
              && c.args[3] == "-Ppassword=" + JsText(opts.pw)
              && c.args[4] == "-DtestClass=" + JsText(TestOf(opts))
    ensures exConfig.Configured? && Parse(Str(exConfig.example)) in {Some(DOTNET), None} ==> c == Command(None, [])
  {
    var lang := if exConfig.Configured? then Parse(Str(exConfig.example)) else Parse(NotAString);
    match lang
    case Some(JS) => Command(Some("npm"), ["start"])
    case Some(JAVA) =>
      Command(Some(Gradle), ["run",
                             "-Pendpoint=" + JsText(endpoint) + "/deployr",
                             "-Pusername=" + JsText(username),
                             "-Ppassword=" + JsText(opts.pw),
                             "-DtestClass=" + JsText(TestOf(opts))])
    case _ => Command(None, [])
  }

  /** Without a password (no authentication asked for), a Java example is
      passed the literal text `undefined` as its password. */
  lemma MissingPasswordIsUndefined(example: string, repos: seq<Repo>, tutorial: Tutorial,
                                   endpoint: Option<string>, username: Option<string>)
    requires Parse(Str(example)) == Some(JAVA)
    ensures RunCommand(Configured(example, repos, false, tutorial), endpoint, username, RunOptions(None, None)).args[3]
         == "-Ppassword=undefined"
  {
  }

  /** `di.spawnCommand(cmd, args, options)` on `run`'s command. With no
      command (`undefined`) Node's `child_process.spawn` throws a TypeError
      at once, so the process ends before the post-run menu; otherwise the
      menu follows once the example exits. */
  function Spawn(c: Command, opts: RunOptions): (s: Screen)
    ensures s == Fault <==> c.cmd.None?
    ensures c.cmd.Some? ==> s == AfterRun(opts)
  {
    if c.cmd.None? then Fault else AfterRun(opts)
  }

  /** A .NET example never runs: no command is chosen for it, and spawning
      none throws. JavaScript and Java examples reach the post-run menu. */
  lemma RunReachesMenuIffNotDotnet(example: string, repos: seq<Repo>, auth: bool, tutorial: Tutorial,
                                   endpoint: Option<string>, username: Option<string>, opts: RunOptions)
    requires Parse(Str(example)).Some?
    ensures var c := RunCommand(Configured(example, repos, auth, tutorial), endpoint, username, opts);
            Spawn(c, opts) == AfterRun(opts) <==> Parse(Str(example)) != Some(DOTNET)
  {
  }

  /** What the user picks after the example exits. */
  datatype PostAnswer = PostBack | PostMore

  /** After the run: back returns to the tutorial menu the run came from,
      which throws when the run did not come from one; more shows the
      targets with the same password. */
  function PostRun(answer: PostAnswer, opts: RunOptions): (s: Screen)
    ensures answer.PostMore? ==> s == Targets(opts.pw)
    ensures answer.PostBack? && opts.tutorial.None? ==> s == Fault
    ensures answer.PostBack? && opts.tutorial.Some? ==> s == TutorialMenu(opts.tutorial.value.menu, opts.pw)
  {
    match answer
    case PostMore => Targets(opts.pw)
    case PostBack => if opts.tutorial.Some? then TutorialMenu(opts.tutorial.value.menu, opts.pw) else Fault
  }

  /** Without a `di-config.json` the example is "run" straight away, but
      `exConfig` is still `{}`, so no command is chosen, and spawning none
      throws before the post-run menu. */
  lemma NoDiConfigDeadEnds(example: string, downloadErr: Option<Error>, frames: string,
                           endpoint: Option<string>, username: Option<string>)
    requires Parse(Str(example)).Some?
    ensures var s := AfterDownload(example, downloadErr, frames, false, false, None).1;
            s.Running?
            && RunCommand(Unconfigured, endpoint, username, s.opts) == Command(None, [])
            && Spawn(RunCommand(Unconfigured, endpoint, username, s.opts), s.opts) == Fault
  {
  }
}
