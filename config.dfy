/** lib/config.js: where the `.diconf` file is looked for, what happens when it
    cannot be parsed, the built-in defaults, and the guards handed to the
    `config` command plugin. */
module Config {
  import opened Common
  import opened Strings
  import LangType

  const DefaultFile := ".diconf"
  const Homepage := "http://go.microsoft.com/fwlink/?LinkID=692163"
  const GitRepos: seq<string> := [
    "java-example-client-basics",
    "java-example-client-data-io",
    "java-example-fraud-score",
    "java-example-fraud-score-basics",
    "java-example-rbroker-basics",
    "java-example-rbroker-data-io",
    "js-example-fraud-score",
    "js-example-fraud-score-basics"
  ]
  const ExamplePlaceholder := "{{example}}"
  const ExampleTemplate := ExamplePrefix + ExamplePlaceholder + ExampleSuffix
  const ExamplePrefix := "https://github.com/Microsoft/"
  const ExampleSuffix := "/archive/master.zip"
  const GitCli := "http://github.com/Microsoft/deployr-cli"

  /** The keys `config set` may not touch (and `config delete` may not remove). */
  const Restricted: seq<string> := ["git"]

  /** The string-valued defaults; `git` is an object and is exposed through the
      constants above. */
  const Defaults: map<string, string> := map["homepage" := Homepage]

  datatype Platform = Win32 | OtherPlatform

  /** The file nconf is told to search for, and the directory it starts from. */
  datatype Location = Location(file: string, dir: Option<string>)

  /** `--diconf`, else `-j`, else `.diconf`, searched from HOME; on win32 HOME
      is first overwritten with USERPROFILE (an absent USERPROFILE becomes the
      string "undefined", as every assignment to `process.env` is stringified). */
  function ConfigLocation(platform: Platform, home: Option<string>, userProfile: Option<string>,
                          diconf: Option<string>, j: Option<string>): (loc: Location)
    ensures Truthy(diconf) ==> loc.file == diconf.value
    ensures !Truthy(diconf) && Truthy(j) ==> loc.file == j.value
    ensures !Truthy(diconf) && !Truthy(j) ==> loc.file == DefaultFile
    ensures loc.file != ""
    ensures platform == OtherPlatform ==> loc.dir == home
    ensures platform == Win32 ==> loc.dir.Some? && (userProfile.Some? ==> loc.dir == userProfile)
  {
    var file := Or(diconf, Or(j, Some(DefaultFile)));
    Location(file.value, if platform == Win32 then Some(JsText(userProfile)) else home)
  }

  /** The outcome of loading the file store. */
  datatype Load = Loaded | Fatal(exitCode: int, lines: seq<string>)

  /** A file that fails to parse prints a diagnostic naming the file and the
      parser's message, then ends the process with exit code 1. */
  function LoadConfig(file: string, parseError: Option<string>): (r: Load)
    ensures parseError.None? <==> r.Loaded?
    ensures r.Fatal? ==>
              r.exitCode == 1 && |r.lines| == 5
              && r.lines[0] == "Error parsing " + file && r.lines[1] == parseError.value
  {
    match parseError
    case None => Loaded
    case Some(message) =>
      Fatal(1, ["Error parsing " + file, message, "", "Please check the .diconf file and try again", ""])
  }

  /** `before.set`: refuses exactly the restricted keys, so only `git` is refused. */
  function BeforeSet(key: string): (allowed: bool)
    ensures allowed <==> key != "git"
  {
    key !in Restricted
  }

  /** What `before.list` does: the lines it prints and whether the listing goes ahead. */
  datatype ListGate = ListGate(help: seq<string>, allowed: bool)

  const ChangeHint := "To change a property type:"
  const SetUsage := "di config set <key> <value>"

  /** `before.list`: greets the stored user (the text "undefined" when there
      is none) and names the store's `file`, prints how to change a
      property, and always lets the listing go ahead. */
  function BeforeList(username: Option<string>, confFile: string): (r: ListGate)
    ensures r.allowed
    ensures |r.help| == 3 && r.help[1] == ChangeHint && r.help[2] == SetUsage
    ensures StartsWith(r.help[0], "Hello " + JsText(username) + " here is the ")
    ensures EndsWith(r.help[0], confFile + " file:")
  {
    var greeting := "Hello " + JsText(username) + " here is the " + confFile + " file:";
    assert greeting == ("Hello " + JsText(username) + " here is the ") + (confFile + " file:");
    ListGate([greeting, ChangeHint, SetUsage], true)
  }

  /** `ReplaceFirst(s, pattern, replacement)`: `s.replace(pattern, replacement)` with a string pattern. */
  function ReplaceFirst(s: string, pattern: string, replacement: string): (r: string)
    ensures IndexOf(s, pattern) == -1 ==> r == s
    ensures IndexOf(s, pattern) != -1 ==>
      var i := IndexOf(s, pattern); r == s[..i] + replacement + s[i + |pattern|..]
  {
    var i := IndexOf(s, pattern);
    if i == -1 then s else s[..i] + replacement + s[i + |pattern|..]
  }

  /** The archive the install command downloads for an example. */
  function ExampleArchiveUrl(example: string): string
  {
    ReplaceFirst(ExampleTemplate, ExamplePlaceholder, example)
  }

  /** The download URL puts the example name between the fixed GitHub prefix and
      the archive path. */
  lemma ExampleArchiveUrlShape(example: string)
    ensures ExampleArchiveUrl(example) == ExamplePrefix + example + ExampleSuffix
  {
    var t := ExampleTemplate;
    var i := IndexOf(t, ExamplePlaceholder);
    assert t[29..40] == ExamplePlaceholder;
    assert OccursAt(t, ExamplePlaceholder, 29);
    assert forall j :: 0 <= j < 29 ==> t[j] == ExamplePrefix[j] != '{';
    forall j | 0 <= j < 29 ensures !OccursAt(t, ExamplePlaceholder, j) {
      assert t[j] != ExamplePlaceholder[0];
      assert t[j..j + 11][0] == t[j];
    }
    assert i == 29;
    assert t[..29] == ExamplePrefix;
    assert t[40..] == ExampleSuffix;
  }
}
