/** lib/plugins/deployr-cli-server/commands.js: the `endpoint` and `about`
    commands, each a series of stages around the plugin's hooks. The hooks
    attached are those of lib/commands.js, as far as the `HookSet` says they
    are present. */
module ServerCommands {
  import opened Common
  import opened App
  import opened Series
  import opened Server
  import opened Hooks

  /** The `set` stage: it continues only once the prompt has accepted an
      endpoint, and then only if saving the config succeeds. */
  function SetStage(answer: EndpointAnswer, saveErr: Option<Error>): (step: Step<Error>)
    ensures answer.Waiting? ==> step == Hang
    ensures answer.Answered? && saveErr.Some? ==> step == Fail(saveErr.value)
    ensures answer.Answered? && saveErr.None? ==> step == Next
  {
    match answer
    case Waiting => Hang
    case Answered(_) => if saveErr.Some? then Fail(saveErr.value) else Next
  }

  /** The three stages of `endpoint` as the series sees them: before, set, after. */
  function EndpointStages(tries: seq<EndpointTry>, saveErr: Option<Error>): seq<Step<Error>>
  {
    [Next, SetStage(FirstAccepted(tries), saveErr), Next]
  }

  /** `server.endpoint`: the setup hook (if any) and the before-hook see the
      endpoint configured beforehand; the after-hook sees exactly the server
      the prompt accepted, and only when saving succeeded; the command answers
      once the series ends, with the save error if there was one. */
  method EndpointCommand(app: Cli, hooks: HookSet, tries: seq<EndpointTry>, saveErr: Option<Error>)
    returns (calls: seq<HookCall>, reply: Option<Reply>)
    modifies app`store
    ensures reply == EndReply(Final(Run(EndpointStages(tries, saveErr)), 3))
    ensures FirstAccepted(tries).Waiting? ==> reply == None
    ensures FirstAccepted(tries).Answered? ==> reply == Some(Reply(saveErr, false))
    ensures var ran := FirstAccepted(tries).Answered? && saveErr.None?;
            calls == (if hooks.setup then [HookCall("setup", EndpointDetails(old(app.Get("endpoint"))))] else [])
                   + (if hooks.before then [HookCall("before", EndpointDetails(old(app.Get("endpoint"))))] else [])
                   + (if ran && hooks.after then [HookCall("after", ServerDetails(FirstAccepted(tries).server))] else [])
    ensures FirstAccepted(tries).Answered? && saveErr.None? && hooks.after ==>
              app.store == old(app.store)["endpoint" := FirstAccepted(tries).server.endpoint]
    ensures !(FirstAccepted(tries).Answered? && saveErr.None? && hooks.after) ==> app.store == old(app.store)
  {
    calls := [];
    if hooks.setup {
      calls := calls + [HookCall("setup", EndpointDetails(app.Get("endpoint")))];
    }
    // before
    var steps: seq<Step<Error>> := [];
    var beforeStep := Next;
    if hooks.before {
      var details := EndpointDetails(app.Get("endpoint"));
      calls := calls + [HookCall("before", details)];
      beforeStep := Before(details);
    }
    steps := steps + [beforeStep];
    // set
    var answer, _ := SetEndpoint(tries);
    var setStep := SetStage(answer, saveErr);
    steps := steps + [setStep];
    // after
    if setStep.Next? {
      var afterStep := Next;
      if hooks.after {
        calls := calls + [HookCall("after", ServerDetails(answer.server))];
        afterStep := AfterEndpoint(app, answer.server);
      }
      steps := steps + [afterStep];
    }
    assert steps == Run(EndpointStages(tries, saveErr));
    reply := EndReply(Final(steps, 3));
  }

  /** The two stages of `about` as the series sees them: about (which saves),
      then after. The after-hook throws when handed `null`. */
  function AboutStages(about: AboutReply, saveErr: Option<Error>, hooks: HookSet): seq<Step<Error>>
  {
    [if saveErr.Some? then Fail(saveErr.value) else Next,
     if hooks.after && about.server.NullServer? then Throw else Next]
  }

  /** `server.about`: a failed request answers the command at once and the
      series still goes on with a `null` server, so the command can answer
      twice, or the after-hook throws on the `null`. Nothing in the config
      changes. */
  method AboutCommand(app: Cli, hooks: HookSet, probe: Probe, saveErr: Option<Error>)
    returns (calls: seq<HookCall>, report: Option<Report>, replies: seq<Reply>, thrown: bool)
    ensures var about := AppAbout(app.Get("endpoint"), probe);
            var end := EndReply(Final(Run(AboutStages(about, saveErr, hooks)), 2));
            replies == (if about.err.Some? then [Reply(about.err, false)] else [])
                     + (if end.Some? then [end.value] else [])
    ensures thrown <==>
              Truthy(app.Get("endpoint")) && probe.ProbeFailed? && saveErr.None? && hooks.after
    ensures !thrown ==> |replies| >= 1 && replies[|replies| - 1] == Reply(saveErr, false)
    ensures Truthy(app.Get("endpoint")) && probe.ProbeFailed? && saveErr.Some? ==>
              replies == [Reply(Some(probe.err), false), Reply(saveErr, false)]
    ensures var about := AppAbout(app.Get("endpoint"), probe);
            calls == (if saveErr.None? && hooks.after then [HookCall("after", ServerDetails(about.server))] else [])
            && report == (if saveErr.None? && hooks.after then Some(AfterAbout(about.server, app.Get("endpoint"))) else None)
  {
    var about := AppAbout(app.Get("endpoint"), probe);
    replies := [];
    if about.err.Some? {
      replies := replies + [Reply(about.err, false)];
    }
    var steps: seq<Step<Error>> := [];
    var saved := if saveErr.Some? then Fail(saveErr.value) else Next;
    steps := steps + [saved];
    calls, report, thrown := [], None, false;
    if saved.Next? {
      var afterStep := Next;
      if hooks.after {
        calls := [HookCall("after", ServerDetails(about.server))];
        var r := AfterAbout(about.server, app.Get("endpoint"));
        report := Some(r);
        if r.ReadsNull? {
          afterStep := Throw;
          thrown := true;
        }
      }
      steps := steps + [afterStep];
    }
    assert steps == Run(AboutStages(about, saveErr, hooks));
    var end := EndReply(Final(steps, 2));
    if end.Some? {
      replies := replies + [end.value];
    }
  }
}
