/**
 * What a command module under commands/ declares: its `config` object and which
 * entry points it exports as functions. Commands are opaque callables here; only
 * their metadata and whether a given entry point throws are observable.
 */
module Commands {
  import opened Options
  import OrderedMaps

  /** The entry points a command module may export. */
  datatype Hook = Run | Execute | OnReply | HandleReply | OnReaction | HandleReaction | OnChat

  /**
   * `config.role`: absent, one level for every routing class, or an object keyed by
   * routing class (`run`, `onReply`, `onReaction`, `onChat`).
   */
  datatype RoleSpec = Unset | Level(level: int) | PerClass(levels: map<string, int>)

  datatype CommandConfig = CommandConfig(
    name: Option<string>,
    aliases: Option<seq<string>>,
    role: RoleSpec,
    category: Option<string>,
    guide: Option<string>,
    longDescription: Option<string>,
    shortDescription: Option<string>)

  datatype CommandModule = CommandModule(config: CommandConfig, hooks: set<Hook>)

  /** What `require` of one command file yields: an error, or the exported object. */
  datatype ModuleFile = LoadFails | Exports(config: Option<CommandConfig>, hooks: set<Hook>)

  /** A registry key is the module's `config.name`; `None` stands for `undefined`. */
  type Key = Option<string>

  /** The `commands` Map, in insertion order. */
  type Registry = OrderedMaps.Entries<Key, CommandModule>

  /**
   * `getHandlerRole`: the level a routing class requires. A falsy role requires 0
   * (a `Level(0)` is falsy and yields its own value 0); an object role gives its entry
   * for the class, else its `run` entry, else 0; any other role is used as it is.
   */
  function HandlerRole(role: RoleSpec, handlerType: string): int {
    match role
    case Unset => 0
    case Level(n) => n
    case PerClass(m) =>
      if handlerType in m then m[handlerType] else if "run" in m then m["run"] else 0
  }

  /**
   * The whole rule: an unset role requires 0 and a numeric role its own value, whatever
   * the class; an object role requires its entry for the class, falls back to what `run`
   * requires when it has none, and requires 0 when it has neither.
   */
  lemma HandlerRoleRules(role: RoleSpec, handlerType: string, other: string)
    ensures role.Unset? ==> HandlerRole(role, handlerType) == 0
    ensures role.Level? ==> HandlerRole(role, handlerType) == role.level
    ensures !role.PerClass? ==> HandlerRole(role, handlerType) == HandlerRole(role, other)
    ensures role.PerClass? && handlerType in role.levels ==> HandlerRole(role, handlerType) == role.levels[handlerType]
    ensures role.PerClass? && handlerType !in role.levels ==> HandlerRole(role, handlerType) == HandlerRole(role, "run")
    ensures role.PerClass? && handlerType !in role.levels && "run" !in role.levels ==> HandlerRole(role, handlerType) == 0
  {
  }
}
