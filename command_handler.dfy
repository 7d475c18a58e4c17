/**
 * The command registry and dispatcher of nexus-core/commandHandler.js.
 *
 * `CommandRegistry` holds the module-level `commands` Map. `LoadCommands` and
 * `ReloadCommand` rebuild and hot-swap it; `HandleCommand` routes one inbound event
 * through the four routing classes in fixed order: reply continuation, reaction
 * continuation, `onChat` fan-out, prefixed command. `HandleCommand` is proved against
 * the specification function `Dispatch`, and the lemmas below state what `Dispatch`
 * promises.
 */
module CommandHandler {
  import opened Options
  import opened JsStrings
  import opened OrderedMaps
  import opened Commands

  /** An entry of `global.client.handleReply` or `handleReaction`. */
  datatype Continuation = Continuation(messageID: string, name: string)

  /**
   * The fields of an inbound event that `handleCommand` reads. `replyTo` is
   * `messageReply.messageID`, `None` when the event is not a reply.
   */
  datatype ChatEvent = ChatEvent(
    body: Option<string>,
    senderID: string,
    threadID: string,
    messageID: string,
    eventType: string,
    replyTo: Option<string>)

  /**
   * Everything else `handleCommand` consults. `userRole` is what the permission
   * manager reports for the sender (`None` when there is no manager); `failing` lists
   * the entry points that throw when invoked.
   */
  datatype Context = Context(
    handleReply: seq<Continuation>,
    handleReaction: seq<Continuation>,
    threadPrefixes: map<string, string>,
    configPrefix: Option<string>,
    userRole: Option<int>,
    failing: set<(Key, Hook)>)

  /** The observable effects of one dispatch, in order. */
  datatype Action =
    | Invoke(key: Key, hook: Hook)
    | InvokeCommand(key: Key, hook: Hook, args: seq<string>, prefix: string)
    | Send(text: string, threadID: string, replyTo: Option<string>)

  /** `Threw`: an exception escaped `handleCommand` (its promise rejects). */
  datatype Status = Returned | Threw

  datatype Outcome = Outcome(actions: seq<Action>, status: Status)

  const UsageOpen: string := "To see available commands, use "
  const HelpWord: string := "help"

  function UsageHint(prefix: string): string {
    UsageOpen + prefix + HelpWord
  }

  const NotFoundOpen: string := "❌ Command \""
  const NotFoundMiddle: string := "\" not found. Use "
  const NotFoundClose: string := "help to see available commands."

  function NotFoundMessage(name: string, prefix: string): string {
    NotFoundOpen + name + NotFoundMiddle + prefix + NotFoundClose
  }

  const PermissionDenied: string := "❌ You do not have permission to use this command."

  const ExecutionFailed: string := "❌ An error occurred while executing this command."

  /** `await global.permissionManager?.getUserRole?.(senderID) ?? 0`. */
  function UserRole(ctx: Context): int {
    ctx.userRole.GetOr(0)
  }

  predicate IsContinuationFor(t: Continuation, id: string) {
    t.messageID == id
  }

  /** `list.find(h => h.messageID === id)`. */
  function FindContinuation(ts: seq<Continuation>, id: string): (r: Option<Continuation>)
    ensures r.Some? ==> r.value in ts && IsContinuationFor(r.value, id)
    ensures r.None? ==> forall t :: t in ts ==> !IsContinuationFor(t, id)
    ensures r.Some? ==> exists i :: 0 <= i < |ts| && ts[i] == r.value && forall j :: 0 <= j < i ==> !IsContinuationFor(ts[j], id)
    decreases |ts|
  {
    if ts == [] then None
    else if IsContinuationFor(ts[0], id) then Some(ts[0])
    else FindContinuation(ts[1..], id)
  }

  function ReplyToken(ev: ChatEvent, ctx: Context): Option<Continuation> {
    if ev.replyTo.Some? then FindContinuation(ctx.handleReply, ev.replyTo.value) else None
  }

  function ReactionToken(ev: ChatEvent, ctx: Context): Option<Continuation> {
    if ev.eventType == "message_reaction" then FindContinuation(ctx.handleReaction, ev.messageID) else None
  }

  /** Invoking a hook that takes no arguments: it either returns or its error escapes. */
  function Call(key: Key, hook: Hook, ctx: Context): Outcome {
    Outcome([Invoke(key, hook)], if (key, hook) in ctx.failing then Threw else Returned)
  }

  /**
   * Routing classes 1 and 2. `Some` when the route ends `handleCommand`, `None` when
   * processing falls through to the next class. A token naming no registered command
   * makes `getHandlerRole` read `config` of `undefined`, which throws.
   */
  function ContinuationRoute(reg: Registry, token: Option<Continuation>, roleClass: string,
                             primary: Hook, secondary: Hook, ctx: Context): Option<Outcome>
  {
    if token.None? then None
    else
      var key := Some(token.value.name);
      match Get(reg, key)
      case None => Some(Outcome([], Threw))
      case Some(cmd) =>
        if UserRole(ctx) < HandlerRole(cmd.config.role, roleClass) then Some(Outcome([], Returned))
        else if primary in cmd.hooks then Some(Call(key, primary, ctx))
        else if secondary in cmd.hooks then Some(Call(key, secondary, ctx))
        else None
  }

  predicate ListensToChat(cmd: CommandModule, ctx: Context) {
    OnChat in cmd.hooks && UserRole(ctx) >= HandlerRole(cmd.config.role, "onChat")
  }

  /** Routing class 3: every `onChat` listener the sender may use, in registry order. */
  function ChatFanOut(entries: Registry, ctx: Context): Outcome
    decreases |entries|
  {
    if entries == [] then Outcome([], Returned)
    else
      var key := entries[0].0;
      if ListensToChat(entries[0].1, ctx) then
        if (key, OnChat) in ctx.failing then Outcome([Invoke(key, OnChat)], Threw)
        else
          var rest := ChatFanOut(entries[1..], ctx);
          Outcome([Invoke(key, OnChat)] + rest.actions, rest.status)
      else ChatFanOut(entries[1..], ctx)
  }

  /** `global.config?.prefix || '!'`. */
  function DefaultPrefix(configPrefix: Option<string>): string {
    if configPrefix.Some? && configPrefix.value != "" then configPrefix.value else "!"
  }

  function ThreadPrefix(ctx: Context, threadID: string): Option<string> {
    if threadID in ctx.threadPrefixes then Some(ctx.threadPrefixes[threadID]) else None
  }

  /**
   * The prefix the body uses and the trimmed text after it: the thread's prefix is
   * tried first, then the default. `None` when the body starts with neither.
   */
  function MatchPrefix(threadPrefix: Option<string>, defaultPrefix: string, body: Option<string>): Option<(string, string)> {
    if body.None? || body.value == "" then None
    else if threadPrefix.Some? && threadPrefix.value != "" && StartsWith(body.value, threadPrefix.value) then
      Some((threadPrefix.value, Trim(body.value[|threadPrefix.value|..])))
    else if StartsWith(body.value, defaultPrefix) then
      Some((defaultPrefix, Trim(body.value[|defaultPrefix|..])))
    else None
  }

  predicate HasAlias(cmd: CommandModule, name: string) {
    cmd.config.aliases.Some? && name in cmd.config.aliases.value
  }

  /** The first entry, in iteration order, whose aliases include `name`. */
  function FindByAlias(entries: Registry, name: string): Option<(Key, CommandModule)>
    decreases |entries|
  {
    if entries == [] then None
    else if HasAlias(entries[0].1, name) then Some(entries[0])
    else FindByAlias(entries[1..], name)
  }

  /** Lookup by exact name, then by alias. */
  function Resolve(reg: Registry, name: string): Option<(Key, CommandModule)> {
    match Get(reg, Some(name))
    case Some(cmd) => Some((Some(name), cmd))
    case None => FindByAlias(reg, name)
  }

  /** The permission check and the invocation of `run`, else `execute`, inside the try block. */
  function RunCommand(key: Key, cmd: CommandModule, args: seq<string>, prefix: string, ev: ChatEvent, ctx: Context): Outcome {
    if UserRole(ctx) < HandlerRole(cmd.config.role, "run") then
      Outcome([Send(PermissionDenied, ev.threadID, None)], Returned)
    else if Run in cmd.hooks || Execute in cmd.hooks then
      var hook := if Run in cmd.hooks then Run else Execute;
      var call := InvokeCommand(key, hook, args, prefix);
      if (key, hook) in ctx.failing then Outcome([call, Send(ExecutionFailed, ev.threadID, None)], Returned)
      else Outcome([call], Returned)
    else Outcome([], Returned)
  }

  /** Routing class 4: prefixed command processing. */
  function CommandRoute(reg: Registry, ev: ChatEvent, ctx: Context): Outcome {
    match MatchPrefix(ThreadPrefix(ctx, ev.threadID), DefaultPrefix(ctx.configPrefix), ev.body)
    case None => Outcome([], Returned)
    case Some((prefix, content)) =>
      if content == "" then Outcome([Send(UsageHint(prefix), ev.threadID, Some(ev.messageID))], Returned)
      else
        var tokens := SplitOnSpaces(content);
        var name := ToLower(tokens[0]);
        match Resolve(reg, name)
        case None => Outcome([Send(NotFoundMessage(name, prefix), ev.threadID, Some(ev.messageID))], Returned)
        case Some((key, cmd)) => RunCommand(key, cmd, tokens[1..], prefix, ev, ctx)
  }

  /** `handleCommand`: the four routing classes in their fixed priority order. */
  function Dispatch(reg: Registry, ev: ChatEvent, ctx: Context): Outcome {
    match ContinuationRoute(reg, ReplyToken(ev, ctx), "onReply", OnReply, HandleReply, ctx)
    case Some(o) => o
    case None =>
      match ContinuationRoute(reg, ReactionToken(ev, ctx), "onReaction", OnReaction, HandleReaction, ctx)
      case Some(o) => o
      case None =>
        var chat := if ev.eventType == "message" then ChatFanOut(reg, ctx) else Outcome([], Returned);
        if chat.status == Threw then chat
        else
          var cmd := CommandRoute(reg, ev, ctx);
          Outcome(chat.actions + cmd.actions, cmd.status)
  }

  // ---------------------------------------------------------------------------
  // Loading

  /** One iteration of the `loadCommands` loop: the first module under a name wins. */
  function LoadStep(reg: Registry, f: ModuleFile): Registry {
    match f
    case LoadFails => reg
    case Exports(None, _) => reg
    case Exports(Some(cfg), hooks) =>
      if cfg.name in Keys(reg) then reg else Set(reg, cfg.name, CommandModule(cfg, hooks))
  }

  /** The registry `loadCommands` builds from an empty map over `files` in order. */
  function LoadAll(files: seq<ModuleFile>): Registry
    decreases |files|
  {
    if files == [] then [] else LoadStep(LoadAll(files[..|files| - 1]), files[|files| - 1])
  }

  /** The module a file declares under key `k`, if it declares one. */
  function Declares(f: ModuleFile, k: Key): Option<CommandModule> {
    if f.Exports? && f.config.Some? && f.config.value.name == k then Some(CommandModule(f.config.value, f.hooks))
    else None
  }

  /** The first file, in load order, that declares a module under `k`. */
  function FirstDeclared(files: seq<ModuleFile>, k: Key): Option<CommandModule>
    decreases |files|
  {
    if files == [] then None
    else if Declares(files[0], k).Some? then Declares(files[0], k)
    else FirstDeclared(files[1..], k)
  }

  /** `reloadCommand`'s format check: a module with a config and a truthy name. */
  function Reloadable(f: ModuleFile): (r: Option<CommandModule>)
    ensures r.Some? ==> r.value.config.name.Some? && r.value.config.name.value != ""
  {
    if f.Exports? && f.config.Some? && f.config.value.name.Some? && f.config.value.name.value != "" then
      Some(CommandModule(f.config.value, f.hooks))
    else None
  }

  class CommandRegistry {
    var commands: Registry

    ghost predicate Valid()
      reads this
    {
      DistinctKeys(commands)
    }

    constructor ()
      ensures Valid() && commands == []
    {
      commands := [];
    }

    /** `loadCommands`: clear the map, then register each loadable module in file order. */
    method LoadCommands(files: seq<ModuleFile>)
      modifies this
      ensures Valid()
      ensures commands == LoadAll(files)
    {
      commands := [];
      var i := 0;
      while i < |files|
        invariant 0 <= i <= |files|
        invariant commands == LoadAll(files[..i])
        invariant DistinctKeys(commands)
      {
        assert files[..i + 1][..i] == files[..i];
        match files[i] {
          case LoadFails =>
          case Exports(config, hooks) =>
            if config.Some? && config.value.name !in Keys(commands) {
              SetDistinct(commands, config.value.name, CommandModule(config.value, hooks));
              commands := Set(commands, config.value.name, CommandModule(config.value, hooks));
            }
        }
        i := i + 1;
      }
      assert files[..|files|] == files;
    }

    /**
     * `reloadCommand`: a module lacking `config` or a truthy `config.name` is rejected
     * (null) and the map is unchanged; otherwise it replaces the entry under its own
     * name, or is appended when the name is new.
     */
    method ReloadCommand(file: ModuleFile) returns (reloaded: Option<CommandModule>)
      requires Valid()
      modifies this
      ensures Valid()
      ensures reloaded == Reloadable(file)
      ensures reloaded.None? ==> commands == old(commands)
      ensures reloaded.Some? ==> commands == Set(old(commands), reloaded.value.config.name, reloaded.value)
    {
      if file.LoadFails? || file.config.None? || file.config.value.name.None? || file.config.value.name.value == "" {
        return None;
      }
      var command := CommandModule(file.config.value, file.hooks);
      SetDistinct(commands, command.config.name, command);
      commands := Set(commands, command.config.name, command);
      return Some(command);
    }

    /** `handleCommand`, step by step as the source runs it. */
    method HandleCommand(ev: ChatEvent, ctx: Context) returns (out: Outcome)
      ensures out == Dispatch(commands, ev, ctx)
    {
      var reply := RouteContinuation(ReplyToken(ev, ctx), "onReply", OnReply, HandleReply, ctx);
      if reply.Some? {
        return reply.value;
      }
      var reaction := RouteContinuation(ReactionToken(ev, ctx), "onReaction", OnReaction, HandleReaction, ctx);
      if reaction.Some? {
        return reaction.value;
      }
      var chat := FanOutChat(ev, ctx);
      if chat.status == Threw {
        return chat;
      }
      var command := RouteCommand(ev, ctx);
      return Outcome(chat.actions + command.actions, command.status);
    }

    /**
     * Steps 1 and 2 of `handleCommand`, for the continuation found (if any). The body follows
     * the source's early returns statement by statement; `ContinuationRoute` is its specification.
     */
    method RouteContinuation(token: Option<Continuation>, roleClass: string, primary: Hook, secondary: Hook, ctx: Context)
      returns (r: Option<Outcome>)
      ensures r == ContinuationRoute(commands, token, roleClass, primary, secondary, ctx)
    {
      if token.None? {
        return None;
      }
      var key := Some(token.value.name);
      var command := Get(commands, key);
      if command.None? {
        return Some(Outcome([], Threw));
      }
      if UserRole(ctx) < HandlerRole(command.value.config.role, roleClass) {
        return Some(Outcome([], Returned));
      }
      if primary in command.value.hooks {
        return Some(Call(key, primary, ctx));
      } else if secondary in command.value.hooks {
        return Some(Call(key, secondary, ctx));
      }
      return None;
    }

    /** Step 3: the `onChat` loop; a throwing listener ends `handleCommand`. */
    method FanOutChat(ev: ChatEvent, ctx: Context) returns (out: Outcome)
      ensures out == if ev.eventType == "message" then ChatFanOut(commands, ctx) else Outcome([], Returned)
    {
      var userRole := UserRole(ctx);
      var actions: seq<Action> := [];
      var i := 0;
      while i < |commands|
        invariant 0 <= i <= |commands|
        invariant ev.eventType != "message" ==> actions == []
        invariant ev.eventType == "message" ==>
          ChatFanOut(commands, ctx) == Outcome(actions + ChatFanOut(commands[i..], ctx).actions, ChatFanOut(commands[i..], ctx).status)
      {
        var (key, command) := commands[i];
        assert commands[i..][1..] == commands[i + 1..];
        if OnChat in command.hooks && ev.eventType == "message" {
          if userRole >= HandlerRole(command.config.role, "onChat") {
            actions := actions + [Invoke(key, OnChat)];
            if (key, OnChat) in ctx.failing {
              return Outcome(actions, Threw);
            }
          }
        }
        i := i + 1;
      }
      return Outcome(actions, Returned);
    }

    /** The alias scan over `commands.entries()`, stopping at the first match. */
    method FindAlias(name: string) returns (found: Option<(Key, CommandModule)>)
      ensures found == FindByAlias(commands, name)
    {
      found := None;
      var j := 0;
      while j < |commands| && found.None?
        invariant 0 <= j <= |commands|
        invariant found.None? ==> FindByAlias(commands, name) == FindByAlias(commands[j..], name)
        invariant found.Some? ==> FindByAlias(commands, name) == found
      {
        assert commands[j..][1..] == commands[j + 1..];
        if HasAlias(commands[j].1, name) {
          found := Some(commands[j]);
        }
        j := j + 1;
      }
    }

    /** Step 4: prefix selection, tokenising, lookup, permission check and invocation. */
    method RouteCommand(ev: ChatEvent, ctx: Context) returns (out: Outcome)
      ensures out == CommandRoute(commands, ev, ctx)
    {
      var matched := MatchPrefix(ThreadPrefix(ctx, ev.threadID), DefaultPrefix(ctx.configPrefix), ev.body);
      if matched.None? {
        return Outcome([], Returned);
      }
      var (usedPrefix, messageContent) := matched.value;
      if messageContent == "" {
        return Outcome([Send(UsageHint(usedPrefix), ev.threadID, Some(ev.messageID))], Returned);
      }
      var args := SplitOnSpaces(messageContent);
      var commandName := ToLower(args[0]);
      args := args[1..];

      var found: Option<(Key, CommandModule)>;
      var byName := Get(commands, Some(commandName));
      if byName.Some? {
        found := Some((Some(commandName), byName.value));
      } else {
        found := FindAlias(commandName);
      }
      if found.None? {
        return Outcome([Send(NotFoundMessage(commandName, usedPrefix), ev.threadID, Some(ev.messageID))], Returned);
      }

      var (key, cmd) := found.value;
      assert found == Resolve(commands, commandName);
      out := RunResolved(key, cmd, args, usedPrefix, ev, ctx);
    }

    /**
     * The `try` block of step 4: the permission check, then `run`, else `execute`. The body
     * follows the source's early returns; `RunCommand` is its specification.
     */
    method RunResolved(key: Key, cmd: CommandModule, args: seq<string>, usedPrefix: string, ev: ChatEvent, ctx: Context)
      returns (out: Outcome)
      ensures out == RunCommand(key, cmd, args, usedPrefix, ev, ctx)
    {
      if UserRole(ctx) < HandlerRole(cmd.config.role, "run") {
        return Outcome([Send(PermissionDenied, ev.threadID, None)], Returned);
      }
      var hook: Hook;
      if Run in cmd.hooks {
        hook := Run;
      } else if Execute in cmd.hooks {
        hook := Execute;
      } else {
        return Outcome([], Returned);
      }
      var actions := [InvokeCommand(key, hook, args, usedPrefix)];
      if (key, hook) in ctx.failing {
        actions := actions + [Send(ExecutionFailed, ev.threadID, None)];
      }
      return Outcome(actions, Returned);
    }
  }

  // ---------------------------------------------------------------------------
  // What the dispatcher promises

  /** The routing class whose role governs an entry point. */
  function RoleClass(hook: Hook): string {
    match hook
    case OnReply => "onReply"
    case HandleReply => "onReply"
    case OnReaction => "onReaction"
    case HandleReaction => "onReaction"
    case OnChat => "onChat"
    case Run => "run"
    case Execute => "run"
  }

  /** The registered module under `key` exports `hook` and the sender's role reaches what it requires. */
  ghost predicate Authorized(reg: Registry, key: Key, hook: Hook, ctx: Context) {
    exists cmd :: (key, cmd) in reg && hook in cmd.hooks && UserRole(ctx) >= HandlerRole(cmd.config.role, RoleClass(hook))
  }

  predicate InvokesSomething(a: Action) {
    a.Invoke? || a.InvokeCommand?
  }

  /** The `onChat` listeners a sender may use, in registry order: a filter of the registry. */
  function Listeners(entries: Registry, ctx: Context): seq<Action>
    decreases |entries|
  {
    if entries == [] then []
    else (if ListensToChat(entries[0].1, ctx) then [Invoke(entries[0].0, OnChat)] else []) + Listeners(entries[1..], ctx)
  }

  /**
   * When none of the listeners the sender may use throws, the fan-out invokes exactly
   * those listeners, in registry order, and processing continues.
   */
  lemma {:induction false} ChatFanOutInvokesEveryListener(entries: Registry, ctx: Context)
    requires forall i :: 0 <= i < |entries| && ListensToChat(entries[i].1, ctx) ==> (entries[i].0, OnChat) !in ctx.failing
    ensures ChatFanOut(entries, ctx) == Outcome(Listeners(entries, ctx), Returned)
    decreases |entries|
  {
    if entries != [] {
      ChatFanOutInvokesEveryListener(entries[1..], ctx);
    }
  }

  /**
   * When a listener throws, the fan-out has invoked exactly the eligible listeners up to and
   * including the first one that throws, and processing stops there.
   */
  lemma {:induction false} ChatFanOutStopsAtFirstFailure(entries: Registry, ctx: Context, k: nat)
    requires k < |entries| && ListensToChat(entries[k].1, ctx) && (entries[k].0, OnChat) in ctx.failing
    requires forall i :: 0 <= i < k && ListensToChat(entries[i].1, ctx) ==> (entries[i].0, OnChat) !in ctx.failing
    ensures ChatFanOut(entries, ctx) == Outcome(Listeners(entries[..k + 1], ctx), Threw)
    decreases k
  {
    if k > 0 {
      assert entries[1..][..k] == entries[..k + 1][1..];
      ChatFanOutStopsAtFirstFailure(entries[1..], ctx, k - 1);
    } else {
      assert entries[..1][1..] == [];
    }
  }

  /**
   * Every action of the fan-out invokes `onChat` of a registered listener the sender may
   * use; when the fan-out ends in an exception, it is the last listener invoked that threw.
   */
  lemma {:induction false} ChatFanOutOnlyAuthorized(entries: Registry, ctx: Context)
    ensures forall a :: a in ChatFanOut(entries, ctx).actions ==>
      a.Invoke? && a.hook == OnChat && Authorized(entries, a.key, OnChat, ctx)
    ensures ChatFanOut(entries, ctx).status == Threw ==>
      var acts := ChatFanOut(entries, ctx).actions;
      acts != [] && (acts[|acts| - 1].key, OnChat) in ctx.failing
    decreases |entries|
  {
    if entries != [] {
      ChatFanOutOnlyAuthorized(entries[1..], ctx);
      var out := ChatFanOut(entries, ctx);
      forall a | a in out.actions
        ensures a.Invoke? && a.hook == OnChat && Authorized(entries, a.key, OnChat, ctx)
      {
        if a == Invoke(entries[0].0, OnChat) && ListensToChat(entries[0].1, ctx) {
          assert (a.key, entries[0].1) in entries;
        } else {
          assert a in ChatFanOut(entries[1..], ctx).actions;
          var cmd :| (a.key, cmd) in entries[1..] && OnChat in cmd.hooks
                     && UserRole(ctx) >= HandlerRole(cmd.config.role, RoleClass(OnChat));
          assert (a.key, cmd) in entries;
        }
      }
    }
  }

  /** The alias scan returns the first entry, in iteration order, listing the alias. */
  lemma {:induction false} FindByAliasIsFirst(entries: Registry, name: string)
    ensures FindByAlias(entries, name).None? <==> forall i :: 0 <= i < |entries| ==> !HasAlias(entries[i].1, name)
    ensures FindByAlias(entries, name).Some? ==>
      exists i :: 0 <= i < |entries| && entries[i] == FindByAlias(entries, name).value && HasAlias(entries[i].1, name)
        && forall j :: 0 <= j < i ==> !HasAlias(entries[j].1, name)
    decreases |entries|
  {
    if entries != [] && !HasAlias(entries[0].1, name) {
      FindByAliasIsFirst(entries[1..], name);
      if FindByAlias(entries, name).Some? {
        var i :| 0 <= i < |entries[1..]| && entries[1..][i] == FindByAlias(entries, name).value
                 && HasAlias(entries[1..][i].1, name) && forall j :: 0 <= j < i ==> !HasAlias(entries[1..][j].1, name);
        assert entries[i + 1] == entries[1..][i];
        assert forall j :: 0 <= j < i + 1 ==> !HasAlias(entries[j].1, name) by {
          forall j | 0 <= j < i + 1 ensures !HasAlias(entries[j].1, name) {
            if j > 0 { assert entries[j] == entries[1..][j - 1]; }
          }
        }
      } else {
        forall i | 0 <= i < |entries| ensures !HasAlias(entries[i].1, name) {
          if i > 0 { assert entries[i] == entries[1..][i - 1]; }
        }
      }
    }
  }

  /**
   * An exact name match wins over every alias; otherwise the first module listing the
   * name as an alias is chosen. Either way the result is a registered entry.
   */
  lemma ResolveNameThenAlias(reg: Registry, name: string)
    ensures Get(reg, Some(name)).Some? ==> Resolve(reg, name) == Some((Some(name), Get(reg, Some(name)).value))
    ensures Get(reg, Some(name)).None? ==> Resolve(reg, name) == FindByAlias(reg, name)
    ensures Resolve(reg, name).Some? ==> Resolve(reg, name).value in reg
  {
    FindByAliasIsFirst(reg, name);
  }

  /**
   * The prefix rules: the thread's prefix is tried first, then the default; the result
   * is the prefix the body starts with and the trimmed rest; nothing matches exactly
   * when the body starts with neither.
   */
  lemma MatchPrefixRules(threadPrefix: Option<string>, configPrefix: Option<string>, body: Option<string>)
    ensures var m := MatchPrefix(threadPrefix, DefaultPrefix(configPrefix), body);
      && (m.Some? ==> body.Some? && m.value.0 != "" && StartsWith(body.value, m.value.0)
                      && m.value.1 == Trim(body.value[|m.value.0|..]))
      && ((m.Some? && threadPrefix.Some? && threadPrefix.value != "" && StartsWith(body.value, threadPrefix.value))
            ==> m.value.0 == threadPrefix.value)
      && (m.None? <==> (body.None? ||
            (!(threadPrefix.Some? && threadPrefix.value != "" && StartsWith(body.value, threadPrefix.value))
             && !StartsWith(body.value, DefaultPrefix(configPrefix)))))
  {
  }

  /**
   * The outcomes of the command route: nothing without a prefix; exactly the usage hint
   * for an empty remainder; exactly one "not found" reply for an unknown name; exactly
   * the denial for a sender below the `run` role; otherwise `run` (preferred) or
   * `execute` receives the remaining tokens, and a throw yields exactly one generic
   * error reply.
   */
  lemma CommandRouteOutcomes(reg: Registry, ev: ChatEvent, ctx: Context)
    ensures CommandRoute(reg, ev, ctx).status == Returned
    ensures var m := MatchPrefix(ThreadPrefix(ctx, ev.threadID), DefaultPrefix(ctx.configPrefix), ev.body);
      var out := CommandRoute(reg, ev, ctx);
      && (m.None? ==> out.actions == [])
      && (m.Some? && m.value.1 == "" ==> out.actions == [Send(UsageHint(m.value.0), ev.threadID, Some(ev.messageID))])
      && (m.Some? && m.value.1 != "" ==>
            var tokens := SplitOnSpaces(m.value.1);
            var name := ToLower(tokens[0]);
            match Resolve(reg, name)
            case None => out.actions == [Send(NotFoundMessage(name, m.value.0), ev.threadID, Some(ev.messageID))]
            case Some((key, cmd)) => out == RunCommand(key, cmd, tokens[1..], m.value.0, ev, ctx))
  {
    var m := MatchPrefix(ThreadPrefix(ctx, ev.threadID), DefaultPrefix(ctx.configPrefix), ev.body);
    if m.Some? && m.value.1 != "" {
      var tokens := SplitOnSpaces(m.value.1);
      var r := Resolve(reg, ToLower(tokens[0]));
      if r.Some? {
        RunCommandOutcomes(r.value.0, r.value.1, tokens[1..], m.value.0, ev, ctx);
      }
    }
  }

  /**
   * A resolved command: a sender below its `run` role gets exactly the denial; otherwise `run`
   * is preferred to `execute`, and a throw adds exactly one error message after the call.
   */
  lemma RunCommandOutcomes(key: Key, cmd: CommandModule, args: seq<string>, prefix: string, ev: ChatEvent, ctx: Context)
    ensures RunCommand(key, cmd, args, prefix, ev, ctx).status == Returned
    ensures var out := RunCommand(key, cmd, args, prefix, ev, ctx).actions;
      && (UserRole(ctx) < HandlerRole(cmd.config.role, "run") ==> out == [Send(PermissionDenied, ev.threadID, None)])
      && (UserRole(ctx) >= HandlerRole(cmd.config.role, "run") ==>
            && (Run !in cmd.hooks && Execute !in cmd.hooks ==> out == [])
            && (Run in cmd.hooks || Execute in cmd.hooks ==>
                  var hook := if Run in cmd.hooks then Run else Execute;
                  && |out| == (if (key, hook) in ctx.failing then 2 else 1)
                  && out[0] == InvokeCommand(key, hook, args, prefix)
                  && (|out| == 2 ==> out[1] == Send(ExecutionFailed, ev.threadID, None))))
  {
  }

  /**
   * A reply to a message some handler waits on is handled by that handler alone:
   * when its command exports a reply hook, nothing else runs, whatever the body says;
   * a sender below its `onReply` role gets no reply at all.
   */
  lemma ReplyTakesPriority(reg: Registry, ev: ChatEvent, ctx: Context, t: Continuation, cmd: CommandModule)
    requires ReplyToken(ev, ctx) == Some(t)
    requires Get(reg, Some(t.name)) == Some(cmd)
    requires OnReply in cmd.hooks || HandleReply in cmd.hooks
    ensures Dispatch(reg, ev, ctx) ==
      if UserRole(ctx) < HandlerRole(cmd.config.role, "onReply") then Outcome([], Returned)
      else Call(Some(t.name), if OnReply in cmd.hooks then OnReply else HandleReply, ctx)
  {
  }

  /** Reactions behave the same way, when the event is not a handled reply. */
  lemma ReactionTakesPriority(reg: Registry, ev: ChatEvent, ctx: Context, t: Continuation, cmd: CommandModule)
    requires ReplyToken(ev, ctx).None?
    requires ReactionToken(ev, ctx) == Some(t)
    requires Get(reg, Some(t.name)) == Some(cmd)
    requires OnReaction in cmd.hooks || HandleReaction in cmd.hooks
    ensures Dispatch(reg, ev, ctx) ==
      if UserRole(ctx) < HandlerRole(cmd.config.role, "onReaction") then Outcome([], Returned)
      else Call(Some(t.name), if OnReaction in cmd.hooks then OnReaction else HandleReaction, ctx)
  {
  }

  lemma CallAuthorized(reg: Registry, key: Key, cmd: CommandModule, hook: Hook, ctx: Context)
    requires Get(reg, key) == Some(cmd)
    requires hook in cmd.hooks
    requires UserRole(ctx) >= HandlerRole(cmd.config.role, RoleClass(hook))
    ensures Authorized(reg, key, hook, ctx)
  {
    var i :| 0 <= i < |reg| && reg[i] == (key, cmd);
    assert (key, cmd) in reg;
  }

  ghost predicate OnlyAuthorized(reg: Registry, acts: seq<Action>, ctx: Context) {
    forall a :: a in acts && InvokesSomething(a) ==> Authorized(reg, a.key, a.hook, ctx)
  }

  lemma ContinuationRouteAuthorized(reg: Registry, token: Option<Continuation>, roleClass: string,
                                    primary: Hook, secondary: Hook, ctx: Context)
    requires RoleClass(primary) == roleClass && RoleClass(secondary) == roleClass
    ensures var r := ContinuationRoute(reg, token, roleClass, primary, secondary, ctx);
      r.Some? ==> OnlyAuthorized(reg, r.value.actions, ctx)
  {
    if token.Some? && Get(reg, Some(token.value.name)).Some? {
      var key := Some(token.value.name);
      var cmd := Get(reg, key).value;
      if UserRole(ctx) >= HandlerRole(cmd.config.role, roleClass) {
        if primary in cmd.hooks { CallAuthorized(reg, key, cmd, primary, ctx); }
        if secondary in cmd.hooks { CallAuthorized(reg, key, cmd, secondary, ctx); }
      }
    }
  }

  lemma RunCommandAuthorized(reg: Registry, key: Key, cmd: CommandModule, args: seq<string>, prefix: string,
                             ev: ChatEvent, ctx: Context)
    requires (key, cmd) in reg
    ensures OnlyAuthorized(reg, RunCommand(key, cmd, args, prefix, ev, ctx).actions, ctx)
  {
    assert RoleClass(Run) == "run" && RoleClass(Execute) == "run";
  }

  lemma CommandRouteAuthorized(reg: Registry, ev: ChatEvent, ctx: Context)
    ensures OnlyAuthorized(reg, CommandRoute(reg, ev, ctx).actions, ctx)
  {
    var m := MatchPrefix(ThreadPrefix(ctx, ev.threadID), DefaultPrefix(ctx.configPrefix), ev.body);
    if m.Some? && m.value.1 != "" {
      var name := ToLower(SplitOnSpaces(m.value.1)[0]);
      ResolveNameThenAlias(reg, name);
      if Resolve(reg, name).Some? {
        var (key, cmd) := Resolve(reg, name).value;
        RunCommandAuthorized(reg, key, cmd, SplitOnSpaces(m.value.1)[1..], m.value.0, ev, ctx);
      }
    }
  }

  /**
   * Authorisation is the only way in: every entry point `handleCommand` invokes belongs
   * to a registered module, and the sender's role reaches what that module requires for
   * the entry point's routing class.
   */
  lemma DispatchInvokesOnlyAuthorized(reg: Registry, ev: ChatEvent, ctx: Context)
    ensures OnlyAuthorized(reg, Dispatch(reg, ev, ctx).actions, ctx)
  {
    ContinuationRouteAuthorized(reg, ReplyToken(ev, ctx), "onReply", OnReply, HandleReply, ctx);
    ContinuationRouteAuthorized(reg, ReactionToken(ev, ctx), "onReaction", OnReaction, HandleReaction, ctx);
    ChatFanOutOnlyAuthorized(reg, ctx);
    CommandRouteAuthorized(reg, ev, ctx);
    var chat := if ev.eventType == "message" then ChatFanOut(reg, ctx) else Outcome([], Returned);
    assert OnlyAuthorized(reg, chat.actions, ctx);
  }

  /** `loadCommands` gives every key the module of the first file declaring it. */
  lemma {:induction false} FirstDeclaredAppend(files: seq<ModuleFile>, f: ModuleFile, k: Key)
    ensures FirstDeclared(files + [f], k) == if FirstDeclared(files, k).Some? then FirstDeclared(files, k) else Declares(f, k)
    decreases |files|
  {
    if files != [] {
      assert (files + [f])[1..] == files[1..] + [f];
      FirstDeclaredAppend(files[1..], f, k);
    }
  }

  /**
   * The first module loaded under a name wins; a file that fails to load, or whose
   * export has no `config`, registers nothing and does not stop the files after it.
   */
  lemma {:induction false} LoadFirstWins(files: seq<ModuleFile>, k: Key)
    ensures Get(LoadAll(files), k) == FirstDeclared(files, k)
    decreases |files|
  {
    if files != [] {
      var init, last := files[..|files| - 1], files[|files| - 1];
      assert files == init + [last];
      LoadFirstWins(init, k);
      FirstDeclaredAppend(init, last, k);
      var reg := LoadAll(init);
      if last.Exports? && last.config.Some? && last.config.value.name !in Keys(reg) {
        var cfg := last.config.value;
        if k == cfg.name {
          GetSetSame(reg, k, CommandModule(cfg, last.hooks));
        } else {
          GetSetOther(reg, cfg.name, CommandModule(cfg, last.hooks), k);
        }
      }
    }
  }

  /** A valid reload changes the entry under its own name and leaves every other entry alone. */
  lemma ReloadTouchesOnlyItsEntry(reg: Registry, f: ModuleFile)
    requires Reloadable(f).Some?
    ensures var m := Reloadable(f).value;
      && Get(Set(reg, m.config.name, m), m.config.name) == Some(m)
      && forall k :: k != m.config.name ==> Get(Set(reg, m.config.name, m), k) == Get(reg, k)
  {
    var m := Reloadable(f).value;
    GetSetSame(reg, m.config.name, m);
    forall k | k != m.config.name ensures Get(Set(reg, m.config.name, m), k) == Get(reg, k) {
      GetSetOther(reg, m.config.name, m, k);
    }
  }

  // ---------------------------------------------------------------------------
  // Fallback permission check

  /** The parts of `config.botConfig` the fallback check reads (`admins` is `None` unless an array). */
  datatype BotConfig = BotConfig(owner: Option<string>, admins: Option<seq<string>>)

  /** The answer of `api.getThreadInfo`: an error, no info, or the thread's admin ids. */
  datatype ThreadInfo = LookupFailed | NoInfo | Info(adminIDs: Option<seq<string>>)

  predicate IsOwner(botConfig: BotConfig, userId: string) {
    botConfig.owner == Some(userId)
  }

  predicate IsBotAdmin(botConfig: BotConfig, userId: string) {
    botConfig.admins.Some? && userId in botConfig.admins.value
  }

  predicate IsThreadAdmin(info: ThreadInfo, userId: string) {
    info.Info? && info.adminIDs.Some? && userId in info.adminIDs.value
  }

  /**
   * `fallbackPermissionCheck`. A missing `botConfig` makes the first property read throw,
   * which the outer catch turns into `false`.
   */
  function FallbackPermissionCheck(botConfig: Option<BotConfig>, userId: string, requiredRole: int, info: ThreadInfo): (granted: bool)
    ensures granted <==>
      botConfig.Some? &&
      (|| IsOwner(botConfig.value, userId)
       || (requiredRole <= 2 && IsBotAdmin(botConfig.value, userId))
       || (requiredRole <= 1 && IsThreadAdmin(info, userId)))
  {
    match botConfig
    case None => false
    case Some(bc) =>
      if bc.owner == Some(userId) then true
      else if requiredRole <= 2 && bc.admins.Some? && userId in bc.admins.value then true
      else if requiredRole <= 1 then
        match info
        case Info(Some(ids)) => userId in ids
        case _ => false
      else false
  }

  /** Lowering the requirement never revokes access. */
  lemma FallbackMonotone(botConfig: Option<BotConfig>, userId: string, required: int, lower: int, info: ThreadInfo)
    requires lower <= required
    ensures FallbackPermissionCheck(botConfig, userId, required, info) ==> FallbackPermissionCheck(botConfig, userId, lower, info)
  {
  }

  /** Fail-closed: when the thread lookup fails, only the owner and bot admins get through. */
  lemma FallbackFailsClosed(botConfig: BotConfig, userId: string, required: int)
    ensures FallbackPermissionCheck(Some(botConfig), userId, required, LookupFailed) <==>
      IsOwner(botConfig, userId) || (required <= 2 && IsBotAdmin(botConfig, userId))
  {
  }
}
