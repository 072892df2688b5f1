/** lib/plugins/deployr-cli-server/index.js: attaching the server plugin,
    fetching the server's `about` information, and prompting for, normalising
    and probing a DeployR endpoint. */
module Server {
  import opened Common
  import opened Strings
  import opened App

  /** `res.get('info')` of `/r/server/info`. */
  datatype Info = Info(version: string, enterprise: bool, date: string)

  /** The server object handed to the after-hooks: `null`, `{}`, or
      `{endpoint, info}` (with `info` possibly undefined). */
  datatype Server = NullServer | EmptyServer | ServerMeta(endpoint: string, info: Option<Info>)

  /** The outcome of a `/r/server/info` request. */
  datatype Probe = InfoOk(info: Option<Info>) | ProbeFailed(err: Error)

  const NoCliPlugin := "`cli` plugin is required to use `deployr-cli-server`"
  const NoAppConfig := "`app.config` must be set to use `deployr-cli-server`"
  const InvalidEndpoint := " Please enter a valid DeployR endpoint."
  const Deployr := "deployr"

  /** The plugin's exported command module. */
  const ServerCommands: map<string, Handler> :=
    map["usage" := Usage, "endpoint" := Handler.Endpoint, "about" := Handler.About]

  /** `attach`: refuses to attach without the cli plugin or a config, else mixes
      the server commands into `commands.server` and aliases `about` and
      `endpoint` to it. */
  method Attach(app: Cli) returns (err: Option<string>)
    modifies app`commands, app`aliases
    ensures !app.hasCliPlugin ==> err == Some(NoCliPlugin)
    ensures app.hasCliPlugin && !app.hasConfig ==> err == Some(NoAppConfig)
    ensures err.Some? ==> app.commands == old(app.commands) && app.aliases == old(app.aliases)
    ensures err.None? <==> app.hasCliPlugin && app.hasConfig
    ensures err.None? ==>
              app.commands == old(app.commands)["server" := MixIn(Registered(old(app.commands), "server"), ServerCommands)]
              && app.aliases == old(app.aliases)["about" := Target("server", "about")]
                                                ["endpoint" := Target("server", "endpoint")]
  {
    if !app.hasCliPlugin {
      return Some(NoCliPlugin);
    } else if !app.hasConfig {
      return Some(NoAppConfig);
    }
    app.commands := app.commands["server" := MixIn(Registered(app.commands, "server"), ServerCommands)];
    app.Alias("about", Target("server", "about"));
    app.Alias("endpoint", Target("server", "endpoint"));
    err := None;
  }

  /** What `app.about` calls back with: `callback(res, err)`, and whether it
      sent a request at all. */
  datatype AboutReply = AboutReply(server: Server, err: Option<Error>, requested: bool)

  /** `app.about`: with no endpoint it answers `{}` without a request; otherwise
      the probe's info (`callback({endpoint, info})`) or its error
      (`callback(null, err)`). */
  function AppAbout(endpoint: Option<string>, probe: Probe): (r: AboutReply)
    ensures r.requested <==> Truthy(endpoint)
    ensures !r.requested ==> r.server == EmptyServer && r.err == None
    ensures r.requested && probe.InfoOk? ==> r.server == ServerMeta(endpoint.value, probe.info) && r.err == None
    ensures r.requested && probe.ProbeFailed? ==> r.server == NullServer && r.err == Some(probe.err)
  {
    if !Truthy(endpoint) then AboutReply(EmptyServer, None, false)
    else match probe
      case InfoOk(info) => AboutReply(ServerMeta(endpoint.value, info), None, true)
      case ProbeFailed(e) => AboutReply(NullServer, Some(e), true)
  }

  // ---------------------------------------------------------------------------
  // The endpoint prompt's filter removes the leftmost match of a pattern with
  // two alternatives: any run of slashes at the end of the input, or any run
  // of slashes, the word `deployr` and any run of slashes at the end.

  /** `t` is matched from its first character to its very end by one of the
      two alternatives (without the multiline flag the end anchor only matches
      at the end of the input). */
  predicate MatchesTail(t: string)
  {
    AllSlashes(t)
    || exists i :: 0 <= i <= |t| - 7 && AllSlashes(t[..i]) && t[i..i + 7] == Deployr && AllSlashes(t[i + 7..])
  }

  /** The leftmost position at or after `p` where the pattern matches. Both
      alternatives run to the end of the input, so the match found there is
      the whole rest of the string. */
  function TailStart(s: string, p: nat): (r: nat)
    requires p <= |s|
    ensures p <= r <= |s| && MatchesTail(s[r..])
    ensures forall q :: p <= q < r ==> !MatchesTail(s[q..])
    decreases |s| - p
  {
    if MatchesTail(s[p..]) then p else TailStart(s, p + 1)
  }

  /** The leftmost match removed: what the endpoint prompt keeps of its input. */
  function Strip(s: string): (r: string)
    ensures |r| <= |s| && r == s[..|r|]
    ensures MatchesTail(s[|r|..])
    ensures forall q :: 0 <= q < |r| ==> !MatchesTail(s[q..])
  {
    s[..TailStart(s, 0)]
  }

  lemma SlashExtends(t: string)
    requires MatchesTail(t)
    ensures MatchesTail(['/'] + t)
  {
    var u := ['/'] + t;
    if !AllSlashes(t) {
      var i :| 0 <= i <= |t| - 7 && AllSlashes(t[..i]) && t[i..i + 7] == Deployr && AllSlashes(t[i + 7..]);
      assert u[..i + 1] == ['/'] + t[..i];
      assert u[i + 1..i + 8] == t[i..i + 7];
      assert u[i + 8..] == t[i + 7..];
    }
  }

  /** Nothing the strip keeps ends in a slash: any slash in front of the match
      would have extended it. */
  lemma StripLeavesNoTrailingSlash(s: string)
    ensures Strip(s) == [] || Strip(s)[|Strip(s)| - 1] != '/'
  {
    var r := Strip(s);
    if r != [] && s[|r| - 1] == '/' {
      assert s[|r| - 1..] == ['/'] + s[|r|..];
      SlashExtends(s[|r|..]);
    }
  }

  /** The strip is found at `p` when the pattern matches there and nowhere before. */
  lemma StripAt(s: string, p: nat)
    requires p <= |s| && MatchesTail(s[p..])
    requires forall q :: 0 <= q < p ==> !MatchesTail(s[q..])
    ensures Strip(s) == s[..p]
  {
    var r := |Strip(s)|;
    assert MatchesTail(s[r..]);
  }

  /** Where the `deployr` alternative matches, every character that is not a
      slash lies inside the matched word. */
  lemma NonSlashesInWord(t: string, i: nat)
    requires i + 7 <= |t| && AllSlashes(t[..i]) && AllSlashes(t[i + 7..])
    ensures forall p :: 0 <= p < |t| && t[p] != '/' ==> i <= p < i + 7
  {
    forall p | 0 <= p < i ensures t[p] == '/' {
      assert t[..i][p] == t[p];
    }
    forall p | i + 7 <= p < |t| ensures t[p] == '/' {
      assert t[i + 7..][p - i - 7] == t[p];
    }
  }

  /** A suffix with a non-slash character somewhere in front of a `d` matches
      neither alternative: a `deployr` match would have to cover both, and
      `deployr` has its only `d` first. */
  lemma NoTailInside(s: string, q: nat, last: nat, d: nat)
    requires q + d < |s| && last < d && s[q + last] != '/' && s[q + d] == 'd'
    ensures !MatchesTail(s[q..])
  {
    var t := s[q..];
    assert t[last] != '/' && t[d] == 'd';
    assert !AllSlashes(t);
    forall i | 0 <= i <= |t| - 7 && AllSlashes(t[..i]) && AllSlashes(t[i + 7..])
      ensures t[i..i + 7] != Deployr
    {
      NonSlashesInWord(t, i);
      assert t[i..i + 7][d - i] == 'd' != Deployr[d - i];
    }
  }

  /** A trailing `deployr`, with any slashes on either side of it, is removed;
      no slash is needed in front of it. */
  lemma {:induction false} StripTrailingDeployr(a: string, m: nat, k: nat)
    requires a == [] || a[|a| - 1] != '/'
    ensures Strip(a + Slashes(m) + Deployr + Slashes(k)) == a
  {
    var s := a + Slashes(m) + Deployr + Slashes(k);
    var t0 := s[|a|..];
    assert t0 == Slashes(m) + Deployr + Slashes(k);
    assert t0[..m] == Slashes(m) && t0[m..m + 7] == Deployr && t0[m + 7..] == Slashes(k);
    assert MatchesTail(t0);
    forall q | 0 <= q < |a| ensures !MatchesTail(s[q..]) {
      NoTailInside(s, q, |a| - 1 - q, |a| - q + m);
    }
    StripAt(s, |a|);
    assert s[..|a|] == a;
  }

  /** With no `deployr` at the end, exactly the trailing slashes are removed. */
  lemma {:induction false} StripTrailingSlashes(a: string, k: nat)
    requires a == [] || (a[|a| - 1] != '/' && !EndsWith(a, Deployr))
    ensures Strip(a + Slashes(k)) == a
  {
    var s := a + Slashes(k);
    assert s[|a|..] == Slashes(k);
    forall q | 0 <= q < |a| ensures !MatchesTail(s[q..]) {
      var t := s[q..];
      var last := |a| - 1 - q;
      assert t[last] == a[|a| - 1] != '/';
      assert !AllSlashes(t);
      forall i | 0 <= i <= |t| - 7 && AllSlashes(t[..i]) && AllSlashes(t[i + 7..])
        ensures t[i..i + 7] != Deployr
      {
        NonSlashesInWord(t, i);
        if last < i + 6 {
          assert t[i..i + 7][last + 1 - i] == t[last + 1] == '/' != Deployr[last + 1 - i];
        } else {
          assert a[|a| - 7..] == t[i..i + 7];
        }
      }
    }
    StripAt(s, |a|);
    assert s[..|a|] == a;
  }

  // ---------------------------------------------------------------------------
  // regx = new RegExp('^(http|https)://', 'i')

  /** The input already names its scheme, in any letter case. */
  predicate HasScheme(t: string)
  {
    StartsWithIgnoringCase(t, "http://") || StartsWithIgnoringCase(t, "https://")
  }

  /** The endpoint the prompt probes: the leftmost match of the strip pattern
      removed, then `http://` put in front unless a scheme is already there. */
  function Normalise(input: string): (r: string)
    ensures HasScheme(r)
    ensures HasScheme(Strip(input)) ==> r == Strip(input)
    ensures !HasScheme(Strip(input)) ==> r == "http://" + Strip(input)
  {
    var t := Strip(input);
    if HasScheme(t) then t
    else
      assert ("http://" + t)[..7] == "http://";
      "http://" + t
  }

  /** An explicit `http://` or `https://` is recognised as a scheme. */
  lemma SchemeRecognised(scheme: string, host: string)
    requires scheme == "http://" || scheme == "https://"
    ensures HasScheme(scheme + host)
  {
    var h := scheme + host;
    assert h[..|scheme|] == scheme;
    assert Lower(scheme) == scheme;
  }

  /** Putting a scheme in front of a host changes neither its last character
      nor whether it ends in `deployr`. */
  lemma SchemeKeepsEnding(scheme: string, host: string)
    requires scheme == "" || scheme == "http://" || scheme == "https://"
    requires host != []
    ensures (scheme + host)[|scheme + host| - 1] == host[|host| - 1]
    ensures !EndsWith(host, Deployr) ==> !EndsWith(scheme + host, Deployr)
  {
    var h := scheme + host;
    if !EndsWith(host, Deployr) {
      if |host| >= 7 {
        assert h[|h| - 7..] == host[|host| - 7..];
      } else if |h| >= 7 {
        assert h[|h| - 7..][6 - |host|] == scheme[|scheme| - 1] == '/';
      }
    }
  }

  /** The forms `http(s)://dhost:port/deployr` and `dhost:port/deployr`, with
      any slashes around `deployr`, come out as the bare host behind a scheme. */
  lemma NormaliseDeployrForms(scheme: string, host: string, m: nat, k: nat)
    requires scheme == "" || scheme == "http://" || scheme == "https://"
    requires host != [] && host[|host| - 1] != '/' && !HasScheme(host)
    ensures Normalise(scheme + host + Slashes(m) + Deployr + Slashes(k))
         == (if scheme == "" then "http://" else scheme) + host
  {
    var h := scheme + host;
    SchemeKeepsEnding(scheme, host);
    assert scheme + host + Slashes(m) + Deployr + Slashes(k) == h + Slashes(m) + Deployr + Slashes(k);
    StripTrailingDeployr(h, m, k);
    if scheme != "" {
      SchemeRecognised(scheme, host);
    }
  }

  /** The forms `http(s)://dhost:port` and `dhost:port`, with trailing
      slashes, come out as the bare host behind a scheme. */
  lemma NormaliseHostForms(scheme: string, host: string, k: nat)
    requires scheme == "" || scheme == "http://" || scheme == "https://"
    requires host != [] && host[|host| - 1] != '/' && !HasScheme(host) && !EndsWith(host, Deployr)
    ensures Normalise(scheme + host + Slashes(k)) == (if scheme == "" then "http://" else scheme) + host
  {
    var h := scheme + host;
    SchemeKeepsEnding(scheme, host);
    StripTrailingSlashes(h, k);
    if scheme != "" {
      SchemeRecognised(scheme, host);
    } else {
      assert h == host;
    }
  }

  /** A concrete host ending in `deployr` with no slash in front: the suffix
      is removed all the same. */
  lemma NoSlashBeforeDeployr()
    ensures Strip("http://mydeployr") == "http://my"
  {
    StripTrailingDeployr("http://my", 0, 0);
    assert "http://my" + Slashes(0) + Deployr + Slashes(0) == "http://mydeployr";
  }

  /** The strip is case-sensitive: an upper-case `DEPLOYR` stays. */
  lemma UpperCaseDeployrKept()
    ensures Strip("http://host/DEPLOYR") == "http://host/DEPLOYR"
  {
    StripTrailingSlashes("http://host/DEPLOYR", 0);
    assert "http://host/DEPLOYR" + Slashes(0) == "http://host/DEPLOYR";
  }

  // ---------------------------------------------------------------------------
  // app.setEndpoint

  /** One answer to the endpoint prompt, taken after the prompt has put the
      stored endpoint (its default) in place of an empty answer, and, when it
      is probed, the probe's outcome. */
  datatype EndpointTry = EndpointTry(input: string, probe: Probe)

  /** The prompt ends only on an input whose probe succeeds. */
  predicate Accepted(t: EndpointTry)
  {
    t.input != "" && t.probe.InfoOk?
  }

  /** `Answered(server)`: the prompt completed and `callback(server)` ran;
      `Waiting`: every answer so far was rejected and the prompt is still open. */
  datatype EndpointAnswer = Answered(server: Server) | Waiting

  /** The prompt's answer for a run of inputs: the server of the first
      accepted input, or still waiting when none is accepted. */
  function FirstAccepted(tries: seq<EndpointTry>): (r: EndpointAnswer)
    ensures r.Answered? ==> r.server.ServerMeta? && HasScheme(r.server.endpoint)
  {
    if tries == [] then Waiting
    else if Accepted(tries[0]) then Answered(ServerMeta(Normalise(tries[0].input), tries[0].probe.info))
    else FirstAccepted(tries[1..])
  }

  /** `app.setEndpoint`: re-prompts on an empty input and on a failed probe
      (resetting the client's host to ''), and answers with
      `{endpoint, info}` of the first input whose probe succeeds. `host` is the
      host the DeployR client was last configured with. */
  method SetEndpoint(tries: seq<EndpointTry>) returns (answer: EndpointAnswer, host: Option<string>)
    ensures answer == FirstAccepted(tries)
    ensures answer.Answered? <==> exists k :: 0 <= k < |tries| && Accepted(tries[k])
    ensures answer.Answered? ==>
              exists k :: 0 <= k < |tries| && Accepted(tries[k])
                && (forall j :: 0 <= j < k ==> !Accepted(tries[j]))
                && answer.server == ServerMeta(Normalise(tries[k].input), tries[k].probe.info)
    ensures answer.Answered? ==> host == Some(answer.server.endpoint)
    ensures answer.Waiting? ==>
              (host.Some? <==> exists j :: 0 <= j < |tries| && tries[j].input != "")
              && (host.Some? ==> host == Some(""))
  {
    answer, host := Waiting, None;
    var i := 0;
    while i < |tries| && answer.Waiting?
      invariant 0 <= i <= |tries|
      invariant answer.Waiting? ==> forall j :: 0 <= j < i ==> !Accepted(tries[j])
      invariant answer.Waiting? ==> FirstAccepted(tries) == FirstAccepted(tries[i..])
      invariant answer.Waiting? ==>
                  (host.Some? <==> exists j :: 0 <= j < i && tries[j].input != "")
                  && (host.Some? ==> host == Some(""))
      invariant answer.Answered? ==>
                  0 < i && Accepted(tries[i - 1]) && (forall j :: 0 <= j < i - 1 ==> !Accepted(tries[j]))
                  && answer.server == ServerMeta(Normalise(tries[i - 1].input), tries[i - 1].probe.info)
                  && host == Some(answer.server.endpoint)
                  && answer == FirstAccepted(tries)
    {
      assert tries[i..][1..] == tries[i + 1..];
      var input := tries[i].input;
      if |input| > 0 {
        input := Normalise(input);
        host := Some(input);
        match tries[i].probe {
          case ProbeFailed(_) =>
            host := Some("");
          case InfoOk(info) =>
            answer := Answered(ServerMeta(input, info));
        }
      }
      i := i + 1;
    }
  }
}
