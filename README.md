# Nexus-Bot message dispatch and policy, modelled in Dafny

Nexus-Bot is a Node.js chat bot for Facebook Messenger. This project models its
decision logic and proves properties of that model. It covers:

- the command registry and the four-stage dispatcher (`nexus-core/commandHandler.js`);
- the safety gate: active hours, breaks, the daily message limit and the content filter (`nexus-core/safeMode.js`);
- the event registry and fan-out (`nexus-core/eventHandler.js`);
- configuration merging and admin-list editing (`nexus-core/configLoader.js`);
- duration formatting and small helpers (`nexus-core/utils.js`);
- the keyword auto-responder (`events/messageEvent.js`);
- the `feature-toggle` and `help` commands (`commands/featureToggle.js`, `commands/help.js`).

Every module is written in the form its source uses:

- State the source mutates is a `class` with `modifies` clauses:
  - the `commands` and `events` Maps;
  - `isInBreak` and `dailyMessageCount`;
  - `cachedConfig` and the config file;
  - `global.messageCount`;
  - `global.features`.
- Source loops are `while` loops with invariants.
- Each such method is proved equal to a specification function.
- The lemmas state what that function promises.

The world outside the code becomes inputs:

- Dispatch outcomes come from oracles:
  - the permission manager's answer (`userRole`, `RoleLookup`);
  - the rate limiter's verdict (`limited`);
  - the current hour and minute;
  - the result of `Math.random() < 0.1` (`breakRoll`);
  - the set of entry points that throw when invoked (`failing`).
- The disk and file reads are inputs:
  - `Disk` is what `config.json` holds;
  - each file write has its own flag saying whether it succeeds (`writable` for one write, `loadWritable` and `saveWritable` for the two writes of an admin edit);
  - a loaded module file has the shape `ModuleFile`/`EventFile`.
- Platform API calls are listed as `Action`s (`Invoke`, `InvokeCommand`, `Send`), or they are the method's result text.

Shared pieces:

- `Options` is JavaScript's `undefined`.
- `JsStrings` holds the string built-ins the code relies on: `startsWith`, `includes`, `trim`, ASCII `toLowerCase`, `split(/ +/)`, `join`, `padEnd` and decimal rendering.
- `OrderedMaps` is a JavaScript `Map` as an insertion-ordered list of pairs:
  - `set` on a present key replaces the value in place;
  - `set` on a new key appends it;
  - `get` returns the first match.
- `Commands` holds what a command module declares.

Where the code and its comments or documentation disagree, the model follows the code:

- The dispatcher has no cooldown check. The `cooldowns` Map is never read, so no cooldown is modelled.
- `getHandlerRole` uses a numeric role as it is, including a negative one.
- For duplicate names, commands keep the first module and events keep the last.
- `deepMerge` replaces a scalar target value by `{...scalar}` when the source has an object under that key. The scalar spreads to nothing, or to its index keys for a string or an array, so the source's nested values are lost. `ObjectOverScalar` states the rule and `ObjectOverScalarIsDropped` gives an instance.

## Model

| member | source | states |
|---|---|---|
| Commands.HandlerRoleRules | nexus-core/commandHandler.js:176-182 | an unset role requires 0 and a numeric role its own value, the same for every routing class; an object role requires its entry for the class, else what `run` requires, else 0 |
| CommandHandler.FindContinuation | nexus-core/commandHandler.js:186 | the continuation found is the first entry in the list with the message id; none is found only when no entry has that id |
| CommandHandler.CommandRegistry.LoadCommands | nexus-core/commandHandler.js:11-33 | the map is rebuilt from empty, and afterwards it is exactly the fold `LoadAll` of the files in directory order, with distinct keys |
| CommandHandler.LoadFirstWins | nexus-core/commandHandler.js:15-29 | the module under each name is the one from the first file declaring that name; files that throw or have no config are skipped and loading goes on |
| CommandHandler.Reloadable | nexus-core/commandHandler.js:58-64 | a module passes the format check only with a config and a non-empty name |
| CommandHandler.CommandRegistry.ReloadCommand | nexus-core/commandHandler.js:36-78 | a malformed or failing module gives null and leaves the map unchanged; a valid one is `set` under its own name |
| CommandHandler.ReloadTouchesOnlyItsEntry | nexus-core/commandHandler.js:66-67 | after a reload, its name maps to the new module and every other name maps to what it did before |
| CommandHandler.CommandRegistry.HandleCommand | nexus-core/commandHandler.js:166-275 | every action and the final status of one dispatch equal the specification `Dispatch`: reply continuation, reaction continuation, `onChat` fan-out, then prefixed command |
| CommandHandler.CommandRegistry.RouteContinuation | nexus-core/commandHandler.js:184-218 | the continuation stages equal `ContinuationRoute`: silent return below the required role, the primary hook before the secondary, fall-through when neither exists |
| CommandHandler.CommandRegistry.FanOutChat | nexus-core/commandHandler.js:220-228 | the fan-out loop equals `ChatFanOut` for message events and does nothing for other types |
| CommandHandler.CommandRegistry.FindAlias | nexus-core/commandHandler.js:247-254 | the alias scan with `break` returns `FindByAlias`, the first entry in insertion order whose aliases include the name |
| CommandHandler.CommandRegistry.RouteCommand | nexus-core/commandHandler.js:230-273 | the prefixed-command stage equals `CommandRoute` |
| CommandHandler.ReplyTakesPriority | nexus-core/commandHandler.js:184-200 | a reply to a registered continuation whose command has `onReply` or `handleReply` runs only that hook (`onReply` first); below the required role nothing at all happens |
| CommandHandler.ReactionTakesPriority | nexus-core/commandHandler.js:202-218 | the same for reactions via `handleReaction`, when no reply continuation applies |
| CommandHandler.ChatFanOutInvokesEveryListener | nexus-core/commandHandler.js:220-228 | when no eligible listener throws, exactly the `onChat` listeners the sender's role reaches are invoked, in registry order |
| CommandHandler.ChatFanOutStopsAtFirstFailure | nexus-core/commandHandler.js:220-228 | when the `k`-th listener is the first eligible one that throws, the fan-out invokes exactly the eligible listeners among the first `k + 1`, in order, and ends by throwing |
| CommandHandler.ChatFanOutOnlyAuthorized | nexus-core/commandHandler.js:220-228 | the fan-out invokes only `onChat` hooks the sender is authorised for; a throw aborts processing, and the hook that threw is the last one invoked |
| CommandHandler.FindByAliasIsFirst | nexus-core/commandHandler.js:247-254 | the alias lookup fails exactly when no command has the alias, and otherwise returns the first such command |
| CommandHandler.ResolveNameThenAlias | nexus-core/commandHandler.js:245-254 | an exact registry name wins over aliases; an alias is tried only when the name is absent; whatever is resolved is a registry entry |
| CommandHandler.MatchPrefixRules | nexus-core/commandHandler.js:231-239 | the thread prefix is tried before the default prefix (`config.prefix` or `!`); a match is a non-empty prefix of the body and leaves the trimmed remainder; nothing matches exactly when neither prefix starts the body |
| CommandHandler.CommandRouteOutcomes | nexus-core/commandHandler.js:240-256 | the command stage always returns normally; no prefix sends nothing; an empty remainder sends exactly the usage hint; a name that resolves neither as a name nor as an alias sends exactly one not-found message; a resolved command goes to the permission check and invocation |
| CommandHandler.RunCommandOutcomes | nexus-core/commandHandler.js:258-273 | a sender below the `run` role gets exactly the denial; otherwise `run` is preferred to `execute` and invoked with the arguments after the name, and a throw adds exactly one error message after the call |
| CommandHandler.CommandRegistry.RunResolved | nexus-core/commandHandler.js:258-273 | the permission check and invocation equal `RunCommand` |
| CommandHandler.ContinuationRouteAuthorized | nexus-core/commandHandler.js:184-218 | a continuation stage invokes only hooks the command exports and the sender's role reaches |
| CommandHandler.RunCommandAuthorized | nexus-core/commandHandler.js:258-273 | a resolved command is invoked only when the sender's role reaches its `run` role |
| CommandHandler.CommandRouteAuthorized | nexus-core/commandHandler.js:230-273 | the command stage invokes nothing the sender is not authorised for |
| CommandHandler.DispatchInvokesOnlyAuthorized | nexus-core/commandHandler.js:166-275 | across all four stages, every hook invoked belongs to a registered command that exports it, and the sender's role reaches what that routing class requires |
| CommandHandler.FallbackPermissionCheck | nexus-core/commandHandler.js:285-328 | access is granted exactly to the owner, to a bot admin when the required role is at most 2, or to a thread admin when it is at most 1 |
| CommandHandler.FallbackMonotone | nexus-core/commandHandler.js:285-323 | whoever passes for a required role also passes for every lower one |
| CommandHandler.FallbackFailsClosed | nexus-core/commandHandler.js:300-320 | when the thread lookup fails, only the owner and (for roles up to 2) bot admins are granted |
| SafeMode.AdmittedIff | nexus-core/safeMode.js:28-55 | a message is admitted exactly when it is within the active hours, outside a break, not rate-limited, below the daily maximum and free of filter words (a missing body is never filtered) |
| SafeMode.MessageEffect | nexus-core/safeMode.js:57-63 | a rejection changes neither variable; an admission adds exactly one to the counter and starts a break exactly when breaks are enabled and the roll came up |
| SafeMode.CountNeverExceedsMax | nexus-core/safeMode.js:46-58 | started at or below the daily maximum, the counter stays there over any sequence of messages, timer ends and ticks |
| SafeMode.AdmissionsBetweenResets | nexus-core/safeMode.js:46-58 | between midnight resets the counter rises by the number of admitted messages, which is at most the headroom below the maximum |
| SafeMode.NothingAdmittedDuringBreak | nexus-core/safeMode.js:35-38 | during a break nothing is admitted until the break-end timer fires |
| SafeMode.NoBreakUnlessEnabled | nexus-core/safeMode.js:60-63 | with automatic breaks disabled the gate never enters a break |
| SafeMode.SafetyGate.constructor | nexus-core/safeMode.js:21-22 | the gate starts outside a break with nothing counted |
| SafeMode.SafetyGate.ProcessMessage | nexus-core/safeMode.js:24-66 | the result is true exactly when the ordered checks admit the message, and the new state is the transition `Step` |
| SafeMode.SafetyGate.TakeBreak | nexus-core/safeMode.js:68-71 | a running break is left alone; otherwise the break flag is set |
| SafeMode.SafetyGate.EndBreak | nexus-core/safeMode.js:80-83 | the timer callback clears the break flag and nothing else |
| SafeMode.SafetyGate.MidnightTick | nexus-core/safeMode.js:87-93 | at 00:00 the counter is reset to 0, and at other times nothing changes |
| EventHandler.EventRegistry.LoadEvents | nexus-core/eventHandler.js:7-25 | the map is cleared and becomes the fold `LoadAllEvents` of the files, with distinct keys |
| EventHandler.LoadLastWins | nexus-core/eventHandler.js:11-24 | the module under each name is the one from the last file registering it; files that throw or lack a truthy name are skipped |
| EventHandler.LoadDistinct | nexus-core/eventHandler.js:18 | each name is registered once |
| EventHandler.EventRegistry.HandleEvent | nexus-core/eventHandler.js:27-61 | the entry points invoked, in order, equal `EventTrace` over the map in insertion order |
| EventHandler.EventRegistry.RunHandler | nexus-core/eventHandler.js:31-56 | one loop iteration invokes exactly `HandlerTrace`: nothing for a skipped handler, else the typed hook and then `execute` unless the hook threw |
| EventHandler.EventTraceAppend | nexus-core/eventHandler.js:30-57 | the trace is the concatenation of the handlers' own traces, so a throw in one handler does not affect the next |
| EventHandler.HandlerTraceShape | nexus-core/eventHandler.js:33-53 | a skipped handler runs nothing; otherwise at most the hook its event type routes to runs, then `execute` whenever it exists, unless the typed hook threw |
| EventHandler.EventTraceSound | nexus-core/eventHandler.js:30-57 | every invocation is a hook of a registered, non-skipped handler: its typed hook or `execute` |
| ConfigLoader.Spread | nexus-core/configLoader.js:128 | `{...x}` is always a plain object, and it is `x` itself when `x` is one |
| ConfigLoader.MergeKeys | nexus-core/configLoader.js:127-145 | merging two objects yields an object whose keys are the union of their keys |
| ConfigLoader.MergeValues | nexus-core/configLoader.js:131-140 | a non-object source value wins; an object source value is copied under a new key and merged recursively under an existing one; target-only keys keep the target's value |
| ConfigLoader.MergeNonObject | nexus-core/configLoader.js:128-130 | when either side is not a plain object, the result is the shallow copy of the target |
| ConfigLoader.MergeIdempotent | nexus-core/configLoader.js:127-145 | merging an object with itself gives it back |
| ConfigLoader.MergeWithEmpty | nexus-core/configLoader.js:127-145 | the empty object is a unit of the merge on both sides |
| ConfigLoader.SourceLeafWins | nexus-core/configLoader.js:131-140 | along any path where the target has objects, a non-object leaf of the source appears in the result |
| ConfigLoader.TargetKeptWhereSourceSilent | nexus-core/configLoader.js:128-137 | a target value at a path the source does not reach survives the merge unchanged |
| ConfigLoader.ObjectOverScalar | nexus-core/configLoader.js:132-136 | an object source value over a non-object target value merges into `{...target}`: an empty object for numbers, booleans and null, and the index keys with their characters or elements for strings and arrays |
| ConfigLoader.ObjectOverScalarIsDropped | nexus-core/configLoader.js:132-136 | an instance: an object source value over a numeric target value merges into an empty object, losing the source's nested values |
| ConfigLoader.IndexOf | nexus-core/configLoader.js:111 | `indexOf` returns -1 exactly when the id is absent, and otherwise its first position |
| ConfigLoader.AddIdShape | nexus-core/configLoader.js:92-94 | on any list, adding leaves a present id's list unchanged, appends a new id at the end, and changes no other element's count |
| ConfigLoader.AddIdNoDuplicate | nexus-core/configLoader.js:92-94 | adding to a list that holds the id at most once leaves it there exactly once |
| ConfigLoader.RemoveFirstOccurrence | nexus-core/configLoader.js:111-113 | removing deletes only the first occurrence, leaving an absent id's list unchanged, and removes exactly one copy from the multiset |
| ConfigLoader.AddAdminToArray | nexus-core/configLoader.js:85-98 | with a missing, falsy or array `adminIDs`, adding never throws: a present id changes nothing, and a new id gives the config with the id appended to the list |
| ConfigLoader.RemoveAdminFromArray | nexus-core/configLoader.js:105-118 | with an array `adminIDs`, an absent id changes nothing, and a present one changes only `adminIDs`, by removing its first occurrence |
| ConfigLoader.LoadYieldsObject | nexus-core/configLoader.js:36-61 | `load` always yields a plain object and keeps the cache an object |
| ConfigLoader.LoadServesCache | nexus-core/configLoader.js:37-39 | with a cached config and no reload, the cache is returned without reading the file, whatever the file now holds |
| ConfigLoader.LoadMergesFile | nexus-core/configLoader.js:51-55 | a reload of a stored file yields the defaults deep-merged with it, and each non-object top-level value of the file appears unchanged |
| ConfigLoader.ConfigStore.constructor | nexus-core/configLoader.js:29 | the cache starts empty |
| ConfigLoader.ConfigStore.Load | nexus-core/configLoader.js:36-61 | the config returned and the new cache and disk state are `LoadSpec` |
| ConfigLoader.ConfigStore.Save | nexus-core/configLoader.js:68-78 | a write replaces the file and the cache and returns true; a failed write changes nothing and returns false |
| ConfigLoader.ConfigStore.EditAdmins | nexus-core/configLoader.js:85-118 | with separate outcomes for the default-file write in `load` and the write in `save`, an edit loads the config, applies the edit to it in place (reaching the cache when the cache was served) and saves only when something changed; a throwing edit leaves the loaded state |
| ConfigLoader.AddAdminAfterDefaultWriteSaveFails | nexus-core/configLoader.js:85-98 | on a first run whose default-file write succeeds and whose save fails, adding a new admin returns false, the file keeps the defaults and the cache keeps the edited object |
| ConfigLoader.ConfigStore.AddAdmin | nexus-core/configLoader.js:85-98 | for each outcome of the two writes, the result and the new state are the in-place add on the loaded config, followed by a save when it changed |
| ConfigLoader.ConfigStore.RemoveAdmin | nexus-core/configLoader.js:105-118 | for each outcome of the two writes, the result and the new state are the in-place removal on the loaded config, followed by a save when it changed |
| Utils.FormatDuration | nexus-core/utils.js:7-18 | the `+=` and `trim` build equals rendering the unit list `DurationUnits(ms)` with spaces |
| Utils.DurationUnitsMeaning | nexus-core/utils.js:8-16 | the days, hours, minutes and seconds shown recombine to exactly `ms div 1000` seconds; only the last unit may be zero; below one second the text is `0s` |
| Utils.ConvertTime | nexus-core/utils.js:25-40 | the build equals rendering `TimeUnits(ms)` with no separator |
| Utils.TimeUnitsMeaning | nexus-core/utils.js:26-38 | the units, with 30-day months and 12-month years, recombine to exactly `ms div 1000` seconds; below one second the text is `0s` |
| Utils.ParseRender | nexus-core/utils.js:13-16 | a rendered unit list can be parsed back to the same units, so the text determines the amounts shown |
| Utils.Truncate | nexus-core/utils.js:53-54 | a string of at most `len` characters is unchanged; a longer string becomes its first `len` characters followed by `...` |
| Utils.TruncateDefault | nexus-core/utils.js:53 | with the default length of 100, the result is at most 103 characters long, and shorter strings are kept |
| Utils.IsAdminListed | nexus-core/utils.js:43-46 | with an `admins` array, the check never throws and grants exactly the ids the array holds |
| Utils.IsAdminAfterAdd | nexus-core/utils.js:43-46 | a user added to the `admins` array is granted, and every other user's answer is unchanged |
| Utils.IsAdminAfterRemove | nexus-core/utils.js:43-46 | a user whose only occurrence is removed from the `admins` array is denied, and every other user's answer is unchanged |
| Utils.IsAdminText | nexus-core/utils.js:43-46 | with a string `admins`, the check never throws and grants exactly the ids that occur in it as substrings; an empty string grants nobody |
| Utils.AdminStringGrantsSubstrings | nexus-core/utils.js:43-46 | an instance of the string rule: a prefix of the listed id is granted |
| Utils.DefaultsGrantNobody | nexus-core/utils.js:43-50 | the default configuration has neither `admins` nor `owner`, so nobody is an admin or the owner, including the id under `adminIDs` |
| Utils.AdminEditsDoNotReachIsAdmin | nexus-core/utils.js:43-46 | an edit made by `addAdmin` or `removeAdmin` (which write `adminIDs`) leaves every user's `isAdmin` answer unchanged |
| Utils.IsSuperAdmin | nexus-core/utils.js:47-50 | true exactly when the config's owner is the string equal to the id and the id is not empty |
| Utils.SuperAdminUnique | nexus-core/utils.js:47-50 | at most one id is the owner, and an owner that is not a string (a number, say) matches no id under `===` |
| Utils.SafeApiCall | nexus-core/utils.js:67-78 | the call is tried at most twice; the first success is returned; a failure repeats until both attempts fail |
| MessageEvent.BuiltinKeywords | events/messageEvent.js:110-124 | the three built-in keywords, with the shown prefix inserted in their responses |
| MessageEvent.UsableKeywordsComplete | events/messageEvent.js:127-133 | a custom keyword is used exactly when it has triggers and a non-empty response, and then its own triggers and response are used |
| MessageEvent.FirstMatchIsFirst | events/messageEvent.js:136-156 | the scan picks the first keyword with a trigger equal to the lowercased, trimmed body or starting it followed by a space; it finds nothing only when no keyword matches |
| MessageEvent.KeywordReplyRules | events/messageEvent.js:101-156 | the bot never answers itself; a matching built-in keyword wins over every custom one; the single reply goes to the message's thread and quotes it |
| MessageEvent.ResponsePrefixRules | events/messageEvent.js:107 | the prefix shown is the thread's own, else `config.prefix`, else `!`, and is never empty |
| MessageEvent.CollectKeywords | events/messageEvent.js:110-133 | the `push` loop builds the built-ins followed by the usable custom keywords in order |
| MessageEvent.ScanKeywords | events/messageEvent.js:136-147 | the `for`/`some` loops with early return find `FirstMatch` |
| MessageEvent.HandleKeywords | events/messageEvent.js:97-157 | without the crashing typing-indicator call, the reply sent is `KeywordReply`: at most one, the first matching keyword's response |
| MessageEvent.AsWrittenNeverResponds | events/messageEvent.js:148-152 | as written, no keyword response is ever sent, and the TypeError is raised exactly when a keyword matches |
| MessageEvent.HelloGetsNoGreeting | events/messageEvent.js:119-152 | the body `hello` from a user should get the greeting, and as written it gets a TypeError instead |
| MessageEvent.ExecuteReplyRules | events/messageEvent.js:17-45 | an event without a thread id, of another type, or whose body starts with the command prefix never gets a keyword reply |
| MessageEvent.MessageStats.Execute | events/messageEvent.js:17-45 | each processed message adds exactly one to `messageCount`, ignored events add nothing, and the reply is `ExecuteReply` |
| FeatureToggle.FindFeature | commands/featureToggle.js:45 | the lookup fails exactly when no feature has the name, compared case-sensitively; a found feature has that key |
| FeatureToggle.ToggleMessages | commands/featureToggle.js:30-62 | no argument or `list` sends the panel; an unknown name sends the unknown-feature error; a bad action sends exactly the usage error; a valid command sends the confirmation with the feature's description |
| FeatureToggle.ToggleFlags | commands/featureToggle.js:42-58 | `features` changes only for a known name with `enable`/`disable`; then exactly `features[name]` becomes `action == enable`, and no other key changes |
| FeatureToggle.ActionCaseInsensitive | commands/featureToggle.js:44 | the action word is compared after lowercasing |
| FeatureToggle.AvailableFeaturesWellFormed | commands/featureToggle.js:16-25 | the eight feature keys are distinct and none is `list` |
| FeatureToggle.FindFeatureOwnKey | commands/featureToggle.js:45 | with distinct keys, every feature's key finds that feature |
| FeatureToggle.ToggleThenList | commands/featureToggle.js:31-58 | after switching a feature, its panel line shows the new status and every other line is unchanged |
| FeatureToggle.LineShowsStatus | commands/featureToggle.js:31-33 | a panel line shows the green marker exactly when its flag is present and true, and the red marker exactly when it is not |
| FeatureToggle.FeatureFlags.constructor | commands/featureToggle.js:16-27 | the table is the eight available features and no flag is set yet |
| FeatureToggle.FeatureFlags.Execute | commands/featureToggle.js:15-63 | the message and the new flags equal `Toggle` over the table of available features |
| Help.FindCommandIsFirst | commands/help.js:24 | the detail lookup returns the first command whose name equals the argument or whose aliases include it, case-sensitively |
| Help.DetailNotFound | commands/help.js:25 | exactly `❌ Command not found.` is sent when no command answers to the argument |
| Help.ReplaceAllAbsent | commands/help.js:27 | a guide without `{prefix}` is shown unchanged |
| Help.ReplaceAllSelf | commands/help.js:27 | substituting `{prefix}` by itself changes nothing |
| Help.ReplaceAllLeading | commands/help.js:27 | a leading `{prefix}` becomes the prefix, and the replacement continues over the rest |
| Help.UsageOfPrefixedGuide | commands/help.js:27 | a guide `{prefix}rest` without further braces shows the current prefix followed by `rest` |
| Help.ReplaceAllSplice | commands/help.js:27 | the first `{prefix}` after a text without `{` becomes the prefix, and the replacement continues over the rest |
| Help.ReplaceAllJoin | commands/help.js:27 | a guide made of brace-free pieces joined by `{prefix}` shows those pieces joined by the prefix: every occurrence is replaced |
| Help.GroupedIsFilter | commands/help.js:31-36 | each category lists exactly the names of the commands in it (category or `other`), in registry order; a category appears exactly when some command has it |
| Help.GroupedDistinct | commands/help.js:31-36 | no category appears twice |
| Help.ListingHasSection | commands/help.js:38-42 | every category's block, with all its names, appears in the listing |
| Help.ListingFailsIff | commands/help.js:31-46 | without an argument, the error text is sent exactly when some command's category names a property inherited from `Object.prototype`; otherwise the listing is sent, starting with its header |
| Help.Execute | commands/help.js:18-48 | the message equals `HelpText`: the detail text, the not-found text, the error text for a command without a guide or for an inherited category name, or the grouped listing |
| Help.GroupByCategory | commands/help.js:31-36 | the grouping loop throws exactly when some category names an inherited property; otherwise it builds `Grouped`, the category lists whose meaning `GroupedIsFilter` states |
| Help.AddCommand | commands/help.js:33-35 | one turn of the grouping loop throws exactly for an inherited category name, and otherwise appends the command's name to its category's list, creating the list on first use |
| Help.RenderSections | commands/help.js:38-42 | the section loop appends exactly the blocks of `Sections`, one per category in order |
| Help.CommandsForPermissionLevel | commands/help.js:52-58 | the `forEach` count equals `CountForLevel` |
| Help.CountMonotone | commands/help.js:52-58 | the count never decreases as the level rises, and never exceeds the number of commands |
| Help.CountAllIff | commands/help.js:52-58 | every command is counted exactly when every command has a numeric role at most the level |
| Help.CategoryEmojiRules | commands/help.js:61-79 | a category in the table gets its entry; an inherited property name gets that inherited member, not a string; any other category gets the folder emoji, the same as `uncategorized` |
| Help.CapitalizeRules | commands/help.js:82-84 | only the first character changes, and it becomes upper case; capitalising twice is the same as once |

## Findings

| source | as written | input that shows it | evidently intended | confidence | as-written member | corrected member |
|---|---|---|---|---|---|---|
| events/messageEvent.js:149 | `safeApi` is `require('../nexus-core/apiHelpers')`, which exports the `ApiHelpers` class itself (nexus-core/apiHelpers.js:70). `sendTypingIndicator` is an instance method (nexus-core/apiHelpers.js:21), so `safeApi.sendTypingIndicator` is undefined and calling it throws a TypeError on every match. `execute`'s `catch` swallows the error, so no keyword response is ever sent. | body `hello` from a user other than the bot, in a thread with no own prefix and `config.prefix` `!` | the first matching keyword's response is sent to the thread, quoting the message | high (not executed) | MessageEvent.HelloGetsNoGreeting | MessageEvent.HandleKeywords |

## Left out

- The typing indicator, `markAsRead`, `ensureDbEntities` and the 500 ms reply delay in events/messageEvent.js are platform and database calls, so they are not modelled. The corrected `HandleKeywords` sends the reply directly.
- Cooldowns are not modelled: the `cooldowns` Map and the `countDown` fields are never consulted.
- `notifyAdmin`, `initializeCommandWatcher` and the file watcher are platform messaging and file-system plumbing, so they are not modelled.
- `index.js`, `initSystem.js`, the database files and the external-service wrappers are I/O, so they are not part of this model.
- `global.commandAnalytics` after a command is an unspecified callback, so it is not modelled.
- The permission manager and the rate limiter are oracles: `Context.userRole`, `RoleLookup` and `limited`.
  - A permission lookup that throws inside the command dispatcher is not modelled.
  - A non-numeric role returned by the permission manager is not modelled.
- A non-numeric scalar `config.role` in a command's own config (a string such as `"2"`, which `userRole < "2"` would coerce to a number) is not modelled: `RoleSpec` holds an unset role, an integer or an object of integers.
- `simulateHumanTyping`, the random break duration and the clock are inputs or left out. `Math.random` is the boolean `breakRoll`, and the break's end is the explicit `BreakEnds` input.
- `normalizeString` is left out because Unicode NFD normalisation has no counterpart here.
- Case mapping covers ASCII letters only. `toLowerCase`/`toUpperCase` of other characters, including length-changing mappings, is not modelled.
- Strings are sequences of Unicode scalar values, not UTF-16 code units. `padEnd` and `length` agree with JavaScript for the ASCII keys and bodies the properties are stated on.
- Async interleaving is not modelled: each `await` is a sequential step.
- A configuration value that is neither an ordered object, an array, a string, an integer, a boolean nor null is outside the `Json` datatype.
  - This leaves out floating-point numbers.
  - It also leaves out object key order and the keys inherited from `Object.prototype`, which `key in target` in configLoader.js would also see.
- The aliasing between `cachedConfig`, `defaultConfig` and their nested arrays is left out. So is the in-place mutation of `defaultConfig` through a shallow copy; the defaults are treated as immutable.
- Command `aliases` that are not arrays are not modelled; they are `Option<seq<string>>`.
- A `role` of `null` or `false` is not distinguished from an absent one in help.js's count: all three are `Unset`, which is never counted, whereas JavaScript's `null <= level` holds for levels of 0 and above.
- Utils.FormatDuration: `ms` is a natural number of milliseconds. Negative and fractional values, and doubles beyond 2^53, are not modelled.
- Utils.Truncate: `len` is a natural number; a negative `len` in `slice` is not modelled.
- Help.ReplaceAll: the replacement is inserted literally. `String.prototype.replace` would expand `$$`, `$&`, `` $` `` and `$'` in a prefix that contains them; that is not modelled.
- Help.Execute: categories are kept in first-use order. JavaScript's ordering of integer-like object keys ahead of others is not modelled.
- MessageEvent.HandleKeywords: custom keywords are a sequence in iteration order. Triggers that are not an array of strings are not modelled.
