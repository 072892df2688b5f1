/** The `di` application object (a flatiron app) as the core sees it: the
    session config store, the `started` and `displayExit` flags, the positional
    arguments, the command registry and the alias table. */
module App {
  import opened Common
  import Config

  /** The command functions the plugins register; `Usage` is the `usage`
      array every commands module exports alongside its commands. */
  datatype Handler = Usage | Login | Logout | Whoami | Endpoint | About | Other(name: string)

  /** An alias target `{resource, command}`. */
  datatype Target = Target(resource: string, command: string)

  /** `common.mixin(target, source)`: every property of `source` is copied
      onto `target`; the properties only `target` has are kept. (flatiron
      library code, not part of this model: stated here as an assumption.) */
  function MixIn(target: map<string, Handler>, source: map<string, Handler>): (r: map<string, Handler>)
    ensures r.Keys == target.Keys + source.Keys
    ensures forall k :: k in source ==> r[k] == source[k]
    ensures forall k :: k in target && k !in source ==> r[k] == target[k]
  {
    target + source
  }

  /** `commands[resource] || {}`. */
  function Registered(commands: map<string, map<string, Handler>>, resource: string): (r: map<string, Handler>)
    ensures resource in commands ==> r == commands[resource]
    ensures resource !in commands ==> r == map[]
  {
    if resource in commands then commands[resource] else map[]
  }

  class Cli {
    /** The `.diconf` file store (keys such as endpoint, username, cookie, password). */
    var store: map<string, string>
    var started: bool
    var displayExit: bool
    /** `di.argv._`, the positional arguments. */
    var args: seq<string>
    var commands: map<string, map<string, Handler>>
    var aliases: map<string, Target>
    /** Whether `app.plugins.cli` and `app.config` exist when a plugin attaches. */
    var hasCliPlugin: bool
    var hasConfig: bool

    /** The state di.js leaves behind once loaded: not started, exit message on. */
    constructor (store: map<string, string>, args: seq<string>)
      ensures this.store == store && this.args == args
      ensures !started && displayExit
      ensures commands == map[] && aliases == map[]
      ensures hasCliPlugin && hasConfig
    {
      this.store := store;
      this.args := args;
      started := false;
      displayExit := true;
      commands := map[];
      aliases := map[];
      hasCliPlugin := true;
      hasConfig := true;
    }

    /** `config.get(key)`: the file store first, then the built-in defaults. */
    function Get(key: string): (v: Option<string>)
      reads this
      ensures key in store ==> v == Some(store[key])
      ensures key !in store && key in Config.Defaults ==> v == Some(Config.Defaults[key])
      ensures key !in store && key !in Config.Defaults ==> v == None
    {
      if key in store then Some(store[key])
      else if key in Config.Defaults then Some(Config.Defaults[key])
      else None
    }

    /** `config.set(key, value)`: reading the key back gives the value, and
        every other key reads as before. */
    method Set(key: string, value: string)
      modifies this`store
      ensures store == old(store)[key := value]
      ensures Get(key) == Some(value)
      ensures forall k :: k != key ==> Get(k) == old(Get(k))
    {
      store := store[key := value];
    }

    /** `config.clear(key)`: the key reads as its built-in default again (or
        as absent), and every other key reads as before. */
    method Clear(key: string)
      modifies this`store
      ensures store == old(store) - {key}
      ensures Get(key) == (if key in Config.Defaults then Some(Config.Defaults[key]) else None)
      ensures forall k :: k != key ==> Get(k) == old(Get(k))
    {
      store := store - {key};
    }

    /** `app.alias(token, target)`. */
    method Alias(token: string, target: Target)
      modifies this`aliases
      ensures aliases == old(aliases)[token := target]
    {
      aliases := aliases[token := target];
    }
  }
}
