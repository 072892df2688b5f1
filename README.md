# deployr-cli core, modelled in Dafny

`di`, the DeployR command line interface, is a flatiron application. This project models its core:

- **Start and exec** (`di.js`): how the CLI starts, runs a command and reports a failed one, plus the home, settings and help menus and the farewell on exit.
- **Configuration** (`lib/config.js`): where the `.diconf` file lives, what happens when it does not parse, the defaults, and the guards on `config set` and `config list`.
- **Language classifier** (`lib/util/lang-type.js`): reads an example's language off its repository name.
- **Server plugin** (`lib/plugins/deployr-cli-server`): attaching it, the `about` probe, and the `endpoint` prompt with its URL normalisation. Its `endpoint` and `about` commands are series of stages around the hooks.
- **Users plugin** (`lib/plugins/deployr-cli-users`): attaching it, the login dialogue `auth` with its three-strikes rule, and `unauth`. Its `login`, `logout` and `whoami` commands.
- **Hooks** (`lib/commands.js`): the before and after hooks that store the endpoint and the session, and print the server information.
- **Example installer** (`lib/commands/install.js`):
  - listing, bucketing and picking examples;
  - the download follow-up;
  - the per-install `exConfig` record;
  - the two counter barriers (directories, then uploads);
  - the run confirmation and the password check;
  - the tutorial menus;
  - the command that runs an example, and the menu after it.

What the user types, what the network answers and when asynchronous work completes are all inputs to the model, given as sequences of answers and outcomes.

The model uses JavaScript's own semantics wherever the code relies on them:
- truthiness of `undefined`, `null` and `''`;
- `'...' + undefined` producing the text "undefined";
- `indexOf`;
- `trim` with JavaScript's set of white-space characters;
- `split` and `join`;
- the ASCII case folding of the `i` flag.

`async.series` is flatiron library code, so its behaviour is stated as an explicit assumption in module `Series`: stages run in order, and the first error skips to the end. `Server` stands for `index.js` in the server plugin and `Users` for `index.js` in the users plugin. `ServerCommands` and `UsersCommands` stand for the two `commands.js` files. `Hooks` stands for `lib/commands.js`.

The model follows the code wherever the code does something surprising:
- **Language classification** (`lib/util/lang-type.js:46-51`) is substring containment, checked in the order `js-`, `java-`, `dotnet-`. It is not a prefix test. Example names are filtered by containing `example` (`lib/commands/install.js:100`).
- **Failed upload** (`lib/commands/install.js:296-311`): a failed upload answers the command with its error, but the upload barrier then never reaches its count. The run is never offered.
- **Failed `about` request** (`lib/plugins/deployr-cli-server/commands.js:137-158`): the command is answered at once, and the series goes on with a `null` server. If the config save fails, the command is answered a second time. Otherwise the after-hook reads `null.info` and throws.
- **"Take me back" after a run** (`lib/commands/install.js:514-515`): for a run that did not come from a tutorial menu, this throws.
- **Example without a `di-config.json`** (`lib/commands/install.js:225-229`, `461`, `494`): `run` reads the language off the empty `exConfig`, so no command is chosen, and spawning `undefined` throws before the post-run menu. A .NET example chooses no command either, so it never runs.
- **Unparsable example listing** (`lib/commands/install.js:161-165`): the `catch` builds its reply with `chalk.bold`, but only `di.chalk` is bound in that file. The `catch` itself throws a ReferenceError, and the command is never answered.
- **Download error** (`lib/commands/install.js:181`): the error is wrapped in `new Error(err)`, which drops any DeployR API details, and the workflow goes on after answering.
- **Dependencies without `permissions`** (`lib/commands/install.js:289`): the upload loop reads `perm.restricted` and throws.
- **Java password argument** (`lib/commands/install.js:480`): the `|| ''` guard applies to the whole concatenation, so a missing password is passed as the text `undefined`.
- **`di.goto`** (`di.js:202-212`) never calls the callback it is given, so the settings menu does not come back home after a command. It turns the farewell off only inside the command's own callback, so a command that never calls back (the install workflow after a successful run, say) leaves the farewell on.
- **`LangType.JS`** is bound to a name the enum does not define. It is therefore `undefined`, but still distinct from the `null` that `parse` returns for "no language", so the three languages and "none" stay distinct in the model.

## Model

| member | source | states |
|---|---|---|
| Strings.IndexOf | lib/util/lang-type.js:46 | `indexOf` gives -1 iff the text occurs nowhere; otherwise it gives the first position where the text occurs. |
| Strings.Utf16Length | lib/plugins/deployr-cli-users/index.js:107 | `length` counts UTF-16 code units, between one and two per character, and exactly one per character when all lie in the Basic Multilingual Plane. |
| Strings.Utf16LengthChar | lib/plugins/deployr-cli-users/index.js:107 | One character has `length` 1 below U+10000, and 2 (a surrogate pair) otherwise. |
| Strings.Utf16LengthAppend | lib/plugins/deployr-cli-users/index.js:107 | `length` adds up over concatenation; with the one-character values this fixes it for every string. |
| Strings.Trim | lib/commands/install.js:155 | `trim` gives the contiguous middle of the string, with only white space cut off before and after it, and no white space left at either end. |
| Strings.TrimPadded | lib/commands/install.js:155 | Trimming removes exactly the white-space padding around an already trimmed string. |
| Strings.Split | di.js:187 | `split` on one character gives at least one part, and no part holds the separator. |
| Strings.JoinSplit | di.js:187 | Joining the parts of a split on the same character gives back the string. |
| Strings.SplitJoin | di.js:141 | Splitting the join of parts that hold no separator gives back the parts. |
| Strings.Lower | lib/plugins/deployr-cli-server/index.js:113 | ASCII case folding, as the `i` flag uses it, lowers exactly the letters `A` to `Z` and keeps the length. |
| Strings.NatTextValue | di.js:192 | The decimal text of a number reads back as that number. |
| LangType.Parse | lib/util/lang-type.js:43-55 | A non-string or empty name has no language. Otherwise the result is JS iff the name contains `js-`; JAVA iff it contains `java-` but not `js-`; DOTNET iff it contains `dotnet-` and neither of the others; none iff it contains none of the three. |
| LangType.MarkerAnywhere | lib/util/lang-type.js:46-47 | `js-` anywhere in a name, not only at its start, makes it a JavaScript example. |
| Config.ConfigLocation | lib/config.js:20-32 | The config file is `--diconf`, else `-j`, else `.diconf`, and is never empty. The directory is HOME; on Windows it is USERPROFILE. |
| Config.LoadConfig | lib/config.js:27-40 | A config file that does not parse ends the process with exit code 1 and the listed message lines. A file that parses loads. |
| Config.BeforeSet | lib/config.js:85-92 | `config set` is allowed exactly for keys other than the reserved `git`. |
| Config.BeforeList | lib/config.js:94-109 | `config list` is always allowed. It first prints three lines: a greeting naming the stored username (the text "undefined" when there is none) and the store's file, then how to change a property. |
| Config.ExampleArchiveUrlShape | lib/commands/install.js:176 | Filling the `{{example}}` placeholder of the default archive template gives the Microsoft GitHub archive URL of that example. |
| App.MixIn | lib/plugins/deployr-cli-server/index.js:62-63 | After the mixin the keys are the union of both key sets. A plugin's commands win over existing ones, and other existing commands are kept. |
| App.Registered | lib/plugins/deployr-cli-server/index.js:62 | `commands[resource] \|\| {}`: the registered table, or the empty one. |
| App.Cli.constructor | di.js:86-88 | A freshly loaded app is not started and shows the farewell. |
| App.Cli.Get | lib/config.js:47-62 | A key is looked up in the file store, then in the defaults, and is otherwise absent. |
| App.Cli.Set | lib/commands.js:31 | `config.set` updates exactly that key: it then reads back as the value, and other keys read as before. |
| App.Cli.Clear | lib/commands.js:81 | `config.clear` removes exactly that key: it then reads as its default (or absent), and other keys read as before. |
| App.Cli.Alias | lib/plugins/deployr-cli-server/index.js:68-76 | `app.alias` maps exactly that token to its target. |
| Series.Final | lib/plugins/deployr-cli-server/commands.js:102-104 | The final callback gets no error iff every stage continued. It gets an error iff the last stage that ran failed, and then gets exactly that error. |
| Series.Run | lib/plugins/deployr-cli-server/commands.js:61-104 | The stages that run are a prefix of the series. Each ran stage except the last continued, and the run stops early only at a stage that did not continue. |
| Series.StageRunsIffPredecessorsContinue | lib/plugins/deployr-cli-users/commands.js:67-105 | A stage runs exactly when every earlier stage called `next()` without an error. |
| Series.FirstErrorReported | lib/plugins/deployr-cli-users/commands.js:103-104 | The series reports error `e` exactly when some stage fails with `e` after all earlier stages continued. |
| Series.EndReply | lib/plugins/deployr-cli-server/commands.js:102-103 | A command answers only if its series ends, and then with the series' error. |
| Server.Attach | lib/plugins/deployr-cli-server/index.js:40-77 | Without the cli plugin or a config, attaching fails with the corresponding message and changes nothing. Otherwise `usage`, `endpoint` and `about` are mixed into the `server` commands, and `about` and `endpoint` become aliases. |
| Server.AppAbout | lib/plugins/deployr-cli-server/index.js:88-101 | A request is made iff an endpoint is set. With no endpoint the server is `{}` and there is no error. A successful probe gives the endpoint and its info. A failed one gives `null` and the error. |
| Server.TailStart | lib/plugins/deployr-cli-server/index.js:113 | Gives the earliest position at or after `p` from which the rest of the text is matched by the trailing-`/deployr` pattern. |
| Server.Strip | lib/plugins/deployr-cli-server/index.js:113 | The result is a prefix of the input. The rest of the input is matched by the pattern, and the pattern matches at no earlier position (the leftmost match is removed). |
| Server.SlashExtends | lib/plugins/deployr-cli-server/index.js:113 | Prefixing another `/` to a matched tail keeps it matched. |
| Server.StripLeavesNoTrailingSlash | lib/plugins/deployr-cli-server/index.js:113 | What remains never ends with `/`. |
| Server.StripAt | lib/plugins/deployr-cli-server/index.js:113 | The removal happens exactly at the leftmost matching position. |
| Server.NonSlashesInWord | lib/plugins/deployr-cli-server/index.js:113 | In slashes around `deployr` around slashes, every non-slash character lies inside `deployr`. |
| Server.StripTrailingDeployr | lib/plugins/deployr-cli-server/index.js:113 | `host` followed by any slashes, `deployr` and any slashes is cut back to `host`, when `host` does not end with `/`. |
| Server.StripTrailingSlashes | lib/plugins/deployr-cli-server/index.js:113 | Trailing slashes alone are removed from a host that ends neither in `/` nor in `deployr`. |
| Server.Normalise | lib/plugins/deployr-cli-server/index.js:131-132 | The result always carries a scheme. A stripped input with a scheme is kept, and one without gets `http://` prepended. |
| Server.SchemeRecognised | lib/plugins/deployr-cli-server/index.js:132 | `http://` and `https://` count as schemes. |
| Server.SchemeKeepsEnding | lib/plugins/deployr-cli-server/index.js:131-132 | Prefixing a scheme changes neither the last character nor whether the text ends in `deployr`. |
| Server.NormaliseDeployrForms | lib/plugins/deployr-cli-server/index.js:131-132 | `host/deployr/`, with or without a scheme and with any slashes, normalises to the scheme (or `http://`) followed by `host`. |
| Server.NormaliseHostForms | lib/plugins/deployr-cli-server/index.js:131-132 | A host with only trailing slashes normalises to the scheme (or `http://`) followed by the host. |
| Server.NoSlashBeforeDeployr | lib/plugins/deployr-cli-server/index.js:113 | The pattern's slashes are optional, so `http://mydeployr` loses its `deployr` ending. |
| Server.UpperCaseDeployrKept | lib/plugins/deployr-cli-server/index.js:113 | The match is case-sensitive, so `/DEPLOYR` is kept. |
| Server.FirstAccepted | lib/plugins/deployr-cli-server/index.js:123-147 | A server accepted by the prompt always has an endpoint with a scheme. |
| Server.SetEndpoint | lib/plugins/deployr-cli-server/index.js:111-151 | The prompt answers iff some input is accepted, with the first accepted one. The answer is its normalised endpoint and probed info. While no input is accepted, the prompt keeps asking. |
| Hooks.Before | lib/commands.js:68-73 | The before-hooks always continue. |
| Hooks.AfterEndpoint | lib/commands.js:26-36 | The endpoint is stored iff the details carry a non-empty endpoint. Otherwise the store is unchanged; the hook always continues. |
| Hooks.AfterLogin | lib/commands.js:76-88 | For a non-empty username the password is cleared, and the username and cookie are stored. Otherwise nothing changes. |
| Hooks.AfterLogout | lib/commands.js:89-93 | Exactly the cookie is cleared. |
| Hooks.InfoLines | lib/commands.js:47-50 | Gives the version line with the Enterprise or Open edition, the server line and the build-date line. |
| Hooks.AfterAbout | lib/commands.js:38-59 | A `null` server makes the hook read `null.info`. Info present gives the three lines; otherwise the no-endpoint warning. |
| Hooks.EditionLabel | lib/commands.js:47-48 | The edition shown is `Enterprise` exactly for enterprise servers. |
| ServerCommands.SetStage | lib/plugins/deployr-cli-server/commands.js:78-88 | The set stage waits until an endpoint is accepted, then fails with the save error or continues. |
| ServerCommands.EndpointCommand | lib/plugins/deployr-cli-server/commands.js:47-105 | Setup and before-hooks see the previous endpoint. The after-hook sees the accepted server, and only after a successful save. The store gains that endpoint exactly then. The command answers iff an endpoint was accepted, with the save error. |
| ServerCommands.AboutCommand | lib/plugins/deployr-cli-server/commands.js:125-165 | The replies are the probe error, if any, then the series' answer. A failed probe followed by a successful save and an after-hook throws. A failed probe followed by a failed save answers twice. Nothing in the config changes. |
| Users.Attach | lib/plugins/deployr-cli-users/index.js:40-79 | Without the cli plugin or a config, attaching fails with the corresponding message and changes nothing. Otherwise `usage`, `login`, `logout` and `whoami` are mixed in, and all three become aliases. |
| Users.FirstValidUsername | lib/plugins/deployr-cli-users/index.js:105-108 | No username is accepted iff every answer has a JavaScript `length` (UTF-16 code units) below three. An accepted one is the first answer of `length` at least three. |
| Users.AstralCharacterCountsTwice | lib/plugins/deployr-cli-users/index.js:107 | Two characters, one outside the Basic Multilingual Plane, make an acceptable username. |
| Users.Submitted | lib/plugins/deployr-cli-users/index.js:116-119 | Only non-empty passwords reach the server. |
| Users.SubmittedMembers | lib/plugins/deployr-cli-users/index.js:116-119 | An answer reaches the server iff it was given and is not empty. |
| Users.LeadingBadCredentials | lib/plugins/deployr-cli-users/index.js:131-142 | Counts exactly the leading run of 940 (bad credentials) rejections. |
| Users.PasswordPhaseVerdict | lib/plugins/deployr-cli-users/index.js:113-151 | The step-by-step password dialogue agrees with the closed form over the submitted passwords: three 940 rejections refuse with 'Three failed login attempts.'; the first other outcome decides. |
| Users.EmptyPasswordNotCounted | lib/plugins/deployr-cli-users/index.js:116-119 | An empty password is refused locally and does not count as an attempt. |
| Users.SuccessAfterRejections | lib/plugins/deployr-cli-users/index.js:135-151 | After up to two bad-credential rejections a successful login authenticates. |
| Users.ThirdRejectionEnds | lib/plugins/deployr-cli-users/index.js:135-138 | The third bad-credential rejection ends the dialogue with 'Three failed login attempts.'. |
| Users.SubmittedPrefix | lib/plugins/deployr-cli-users/index.js:116-119 | Filtering out empty passwords distributes over concatenation. |
| Users.LeadingBadCredentialsPrefix | lib/plugins/deployr-cli-users/index.js:131-142 | A run of rejections adds its length to the count. |
| Users.EndpointRunsNeeded | lib/plugins/deployr-cli-users/index.js:93-98 | With an endpoint set, no endpoint prompt runs. Otherwise the endpoint command repeats until a run sets one, and if none does, login never proceeds. |
| Users.AwaitEndpoint | lib/plugins/deployr-cli-users/index.js:93-98 | The endpoint step finishes iff some run (or the initial configuration) sets an endpoint. |
| Users.PromptUsername | lib/plugins/deployr-cli-users/index.js:105-108 | The username prompt yields exactly the first answer whose `length` is at least three. |
| Users.PromptPassword | lib/plugins/deployr-cli-users/index.js:113-151 | The password loop ends as the password dialogue does. |
| Users.Auth | lib/plugins/deployr-cli-users/index.js:89-156 | The endpoint check comes first, then the first valid username, then the password dialogue. The outcome equals the closed-form verdict over the submitted passwords. |
| Users.Unauth | lib/plugins/deployr-cli-users/index.js:166-181 | A logout request is sent iff an endpoint is set, carrying that host and the session cookie. |
| UsersCommands.AuthStage | lib/plugins/deployr-cli-users/commands.js:110-125 | The auth stage continues iff login succeeded and the save succeeded. A refused login never continues. |
| UsersCommands.LoginCommand | lib/plugins/deployr-cli-users/commands.js:51-126 | The app counts as started. A refused login answers with its error, and an unfinished one does not answer. A successful login answers with the save error. The after-hook sees the session and stores it exactly when login and save succeeded. |
| UsersCommands.LogoutCommand | lib/plugins/deployr-cli-users/commands.js:146-196 | Both hooks see the username from before the logout. The unauth request uses the old endpoint and cookie. Username and password are cleared, and the cookie too when the after-hook runs. A failed save answers shallow; otherwise the logout message is shown. |
| UsersCommands.Whoami | lib/plugins/deployr-cli-users/commands.js:215-221 | Shows the stored username, or 'not logged in', and always succeeds. |
| Listing.Bucket | lib/commands/install.js:98-116 | A bucket never holds more entries than the listing has names. |
| Listing.BucketAppend | lib/commands/install.js:98-116 | Bucketing keeps listing order: the bucket of a concatenation is the concatenation of the buckets. |
| Listing.BucketMembers | lib/commands/install.js:100-114 | A label is in a language's bucket iff it is the indented form of a listed name that contains `example` and has that language. |
| Listing.Items | lib/commands/install.js:104-112 | Gives one menu item per label, and the item hands back that label. |
| Listing.ExampleMenu | lib/commands/install.js:124-146 | Each language section appears iff its bucket is non-empty. The menu always ends with a separator and the way home, and is just those two when every bucket is empty. Every label of every bucket is offered as an item that hands back that label. |
| Listing.ScanStep | lib/commands/install.js:98-116 | The per-name callback keeps `found` equal to "the requested example is among the example names so far" and each bucket equal to the bucket of the names so far. |
| Listing.ScanListing | lib/commands/install.js:98-116 | After the whole listing, `found` holds iff the requested example is a listed example name, and the three lists are the three language buckets. |
| Listing.ListExamples | lib/commands/install.js:88-168 | A transport error or a non-200 status aborts with that error. An unparsable body makes the handler throw without answering. A requested example that is listed is installed at once. Otherwise the menu of the three buckets is shown. |
| Listing.PickExample | lib/commands/install.js:153-159 | The home entry goes home, and a label is trimmed and installed. |
| Listing.PickUndoesIndent | lib/commands/install.js:104-155 | Picking a bucketed entry installs exactly the listed name. |
| Install.ExConfigOf | lib/commands/install.js:234-246 | The record keeps the example. Repositories default to none, authentication to off unless required, and the tutorial to `{}`. |
| Install.Failures | lib/commands/install.js:296 | Lists the failed uploads in order, never more than there are uploads. |
| Install.JoinProceedsOnce | lib/commands/install.js:263-315 | With each request completing once, a counter barrier proceeds iff every request succeeded and their number is the count. It then proceeds exactly once, as its last action. |
| Install.JoinReportsFailures | lib/commands/install.js:296 | The upload barrier reports every failure, in order. The directory barrier reports none. |
| Install.RunJoin | lib/commands/install.js:263-315 | The counting loop does exactly what the barrier's definition says. |
| Install.Wrapped | lib/commands/install.js:181 | `new Error(err)` carries no DeployR API details, has a stack, and keeps the original message after `Error: `. |
| Install.DownloadErrorWrapped | lib/commands/install.js:181 | A download error reaches the caller wrapped: no API details, and a stack whose first line carries the original error's text. |
| Install.AfterDownload | lib/commands/install.js:180-231 | A download error answers the command, wrapped in a new `Error`, and the flow goes on. An example without a language has no installer, so calling it throws. With a `di-config.json`, a signed-in user goes on to the installation; otherwise a login comes first, stopping on a login error. Without the file the example runs at once. |
| Install.InstallSession.constructor | lib/commands/install.js:64 | `exConfig` starts out as `{}`. |
| Install.InstallSession.Installation | lib/commands/install.js:239-315 | Records the defaulted `exConfig`. With no dependencies the run is offered. Otherwise, once every directory was created, the uploads follow. A dependency without `permissions` makes the upload loop throw. Otherwise each failed upload answers the command, and the run is offered iff the upload barrier proceeds. |
| Install.CandidateToRun | lib/commands/install.js:319-337 | Declining stops. An example requiring authentication asks for the password. Otherwise the targets are shown without one. |
| Install.ConfirmedPasswordNotEmpty | lib/commands/install.js:344-346 | A confirmed password is never empty. |
| Install.Rounds | lib/commands/install.js:339-362 | Round `i` contributes answers `2i` (the password) and `2i+1` (its confirmation), and nothing else is answered. |
| Install.MismatchesThenMatch | lib/commands/install.js:339-362 | There is no attempt limit: after any number of mismatched rounds, a matching pair confirms the password. |
| Install.VerifyPassword | lib/commands/install.js:339-362 | The prompt loop ends with exactly the password the alternating dialogue confirms, and it is non-empty. |
| Install.TargetsStep | lib/commands/install.js:364-416 | `{}` as `exConfig` throws. A tutorial with topics shows the topic menu, and one without runs the example with the password. |
| Install.TopicChoices | lib/commands/install.js:370-397 | The topic menu is a separator, the documentation entry, one entry per topic in order, a separator and the way home. |
| Install.PickTopic | lib/commands/install.js:401-410 | Home goes home. Truthy help opens it and shows the topics again. A topic's menu opens the tutorial menu. A missing help or menu throws. |
| Install.TutorialChoices | lib/commands/install.js:418-438 | The tutorial menu is a separator, one entry per item carrying its test, a separator and "Take me back". |
| Install.PickItem | lib/commands/install.js:439-450 | Back shows the targets with the same password. An item runs its test, remembering the menu. |
| Install.RunCommand | lib/commands/install.js:453-488 | JavaScript examples run `npm start`. Java examples run Gradle with the endpoint plus `/deployr`, the username, the password and the test class, each written `undefined` when missing. Other or unknown examples, and `{}` as `exConfig`, choose no command. |
| Install.MissingPasswordIsUndefined | lib/commands/install.js:480 | Without a password, a Java example gets `-Ppassword=undefined`. |
| Install.Spawn | lib/commands/install.js:494-519 | Spawning no command throws, and the process ends. Otherwise the post-run menu follows once the example exits. |
| Install.RunReachesMenuIffNotDotnet | lib/commands/install.js:461-494 | A configured example reaches the post-run menu iff it is not a .NET example. |
| Install.PostRun | lib/commands/install.js:498-519 | "Run more" shows the targets with the same password. "Back" returns to the tutorial menu the run came from, and throws without one. |
| Install.NoDiConfigDeadEnds | lib/commands/install.js:225-229 | Without a `di-config.json` the example is run at once with `exConfig` still `{}`. No command is chosen, and spawning none throws before the post-run menu. |
| Di.ShowError | di.js:183-197 | Gives the heading with the command, then one line per stack entry for a deep error with a stack, else the three DeployR API lines, else the error. |
| Di.ShowErrorKeepsStack | di.js:187-190 | The trace lines joined back with newlines are exactly the stack. |
| Di.CommandLineNamesWords | di.js:141 | The command line a failure is reported against splits back into the command's words. |
| Di.ShowErrorCode | di.js:192 | The code shown for an API error reads back as the error's code. |
| Di.Start | di.js:95-122 | `di whoami` only prints the username (or nothing) and turns the farewell off. A failed init is reported and answered. `--help` becomes `help`, an empty command shows home, and anything else is executed. |
| Di.Setup | di.js:158-174 | After setup the app is started. |
| Di.Exec | di.js:130-150 | Afterwards the app is started and the farewell is off. A failed dispatch is reported against the command line, deep or shallow as the router says, and passed on. A command that never calls back leaves `exec` silent too. |
| Di.Goto | di.js:202-212 | Once the command calls back, a failure is reported and the farewell is off. A command that never calls back reports nothing and leaves the farewell as it was. |
| Di.Exit | di.js:335-349 | The farewell is printed iff `displayExit` is on. |
| Di.ExecThenExit | di.js:130-150 | Running a command never ends with the farewell, whether the command succeeds, fails or never calls back. |
| Di.SchemesExclusive | di.js:244 | No endpoint starts with both `https://` and `http://`, so the two alternatives never compete. |
| Di.StripScheme | di.js:244 | A leading `http://` or `https://` is removed; anything else is kept. |
| Di.StripSchemeShowsHost | di.js:244 | Either scheme followed by a host leaves exactly the host. |
| Di.Greeting | di.js:244 | The greeting ` user@host` appears iff both a username and an endpoint are set. |
| Di.Home | di.js:217-259 | The title carries the greeting. Exactly the four entries between the separators are selectable. The only command the home menu runs is `install example`; the others open settings, open help, or do nothing. |
| Di.FindHelp | di.js:264-289 | Of the three entries, the first two open links (the `homepage` setting, the issue tracker) and only the last invokes a method, going home. |
| Di.PickHelp | di.js:282-288 | A link is opened and a method entry is invoked. |
| Di.SettingsEntries | di.js:293-311 | Every settings entry either runs the endpoint or the about command through `di.goto`, or goes home, and both commands are offered. |
| Di.DocumentationIsHomepage | di.js:271-272 | Unless changed, the documentation entry opens the built-in homepage. |

## Left out

- Console output styling (chalk), spinners, banners, usage texts and prompt wording are left out. Messages are kept where a contract states them.
- The download itself, spawning child processes, opening the browser, `process.env` writes for JavaScript examples, and clearing the screen are external effects. Their outcomes are inputs or they are not modelled.
- `agent()` (`lib/commands/install.js:541-547`) only configures the HTTP client; the requests it affects are inputs.
- The `gradlew.bat` choice on Windows (`lib/commands/install.js:475`) is left out; the model always uses `./gradlew`.
- The spawn error of `run` (`lib/commands/install.js:494-497`) answers the command with the process error. It is an external failure and is not modelled.
- Install.InstallSession.Installation: the number of directory requests is an input, because `_.uniq(repos, 'directory')` is lodash library code.
- Listing.ListExamples: the `catch` also catches exceptions other than a JSON parse failure (for instance a non-string name); it throws for those in the same way. Only the unparsable body is modelled.
- Install.AfterDownload: `String(err)` is taken as `Error: ` followed by the message, as for an error whose `name` is `Error`. An error with another `name` would show that name instead. The wrapper's stack frames are an input.
- Server.SetEndpoint: each answer is taken after the prompt's default (the stored endpoint) replaced an empty answer; that substitution is inquirer library behaviour and is not modelled.
- Di.FindHelp: the issue tracker is the default `git.cli` setting; a `git` object written into the store file by hand would replace it.
- A throw inside a client-library callback (`perm.restricted` in the directory barrier, the throws of `PostRun` and `PickTopic`) is assumed to reach Node uncaught and end the process (the `Fault` screen of `Install`).
- Install.Spawn: that `child_process.spawn` throws a TypeError for a command that is not a string is Node behaviour, outside this model. It is stated here as an assumption.
- Di.ShowError: where the source logs the error object itself, the model logs its message.
- Users.Auth: when no endpoint is set, `auth` runs the `endpoint` command and retries. The model takes whether each run sets an endpoint as input, and does not follow that nested command's own store changes.
- UsersCommands.LoginCommand: the outcome of `app.auth` is an input described by `Users.Auth`. The prompt's default answers (the stored username, the stored endpoint) are inquirer library behaviour and are not modelled.
- The `detach` functions of both plugins, `lib/completion.js`, `lib/alias.js` and the flatiron router are outside the modelled core. The router's answer to a dispatch is an input of `Di.Exec`.
- The `env` layer of the nconf store is left out: `App.Cli.Get` reads the file store, then the defaults.
- `$` patterns in `String.prototype.replace` replacements are not modelled (the template URL has none). Non-ASCII case folding is left out (the `i` flag here only compares ASCII).
