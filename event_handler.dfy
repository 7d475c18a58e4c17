/**
 * The event registry of nexus-core/eventHandler.js: `loadEvents` fills the `events` Map
 * (a later module under a name replaces the earlier one), and `handleEvent` offers every
 * event to every registered handler, skipping handlers whose role the sender lacks.
 * A handler's entry points are summarised by which of them exist and which throw.
 */
module EventHandler {
  import opened Options
  import opened OrderedMaps
  import opened Commands

  /** `config.role` is 0 when absent or falsy. */
  datatype EventConfig = EventConfig(name: Option<string>, role: int)

  datatype EventModule = EventModule(config: EventConfig, hooks: set<Hook>)

  /** What `require` of one events/ file yields. */
  datatype EventFile = Throws | Loaded(config: Option<EventConfig>, hooks: set<Hook>)

  /** `global.permissionManager`: absent, the sender's role, or a lookup that throws. */
  datatype RoleLookup = NoManager | RoleOf(level: int) | LookupThrows

  type Events = Entries<string, EventModule>

  /** The name a file registers under: a truthy `config.name`. */
  function Registers(f: EventFile): Option<(string, EventModule)> {
    match f
    case Throws => None
    case Loaded(None, _) => None
    case Loaded(Some(cfg), hooks) =>
      if cfg.name.Some? && cfg.name.value != "" then Some((cfg.name.value, EventModule(cfg, hooks))) else None
  }

  function LoadEventStep(events: Events, f: EventFile): Events {
    match Registers(f)
    case None => events
    case Some((name, m)) => Set(events, name, m)
  }

  /** The `events` Map after `loadEvents` over `files`, in directory order. */
  function LoadAllEvents(files: seq<EventFile>): Events
    decreases |files|
  {
    if files == [] then [] else LoadEventStep(LoadAllEvents(files[..|files| - 1]), files[|files| - 1])
  }

  /** The module of the last file registering `name`. */
  function LastRegistered(files: seq<EventFile>, name: string): Option<EventModule>
    decreases |files|
  {
    if files == [] then None
    else
      match Registers(files[|files| - 1])
      case Some((n, m)) => if n == name then Some(m) else LastRegistered(files[..|files| - 1], name)
      case None => LastRegistered(files[..|files| - 1], name)
  }

  /** The hook an event type routes to. */
  function TypedHook(eventType: string): Option<Hook> {
    if eventType == "message" then Some(OnChat)
    else if eventType == "message_reply" then Some(OnReply)
    else if eventType == "message_reaction" then Some(OnReaction)
    else None
  }

  /** The handler is skipped: it has a role, a manager exists, and the sender's role is lower or cannot be read. */
  predicate Skipped(m: EventModule, lookup: RoleLookup) {
    m.config.role != 0 && !lookup.NoManager? && (lookup.LookupThrows? || lookup.level < m.config.role)
  }

  /** The entry points invoked on one handler: its typed hook, then `execute` unless the typed hook threw. */
  function HandlerTrace(name: string, m: EventModule, eventType: string, lookup: RoleLookup,
                        failing: set<(string, Hook)>): seq<(string, Hook)> {
    if Skipped(m, lookup) then []
    else
      var typed := TypedHook(eventType);
      var first := if typed.Some? && typed.value in m.hooks then [(name, typed.value)] else [];
      if first != [] && (name, typed.value) in failing then first
      else first + (if Execute in m.hooks then [(name, Execute)] else [])
  }

  /** Every handler in insertion order; a throw in one handler ends only that handler's turn. */
  function EventTrace(events: Events, eventType: string, lookup: RoleLookup,
                      failing: set<(string, Hook)>): seq<(string, Hook)>
    decreases |events|
  {
    if events == [] then []
    else HandlerTrace(events[0].0, events[0].1, eventType, lookup, failing) + EventTrace(events[1..], eventType, lookup, failing)
  }

  lemma {:induction false} EventTraceAppend(a: Events, b: Events, eventType: string, lookup: RoleLookup,
                                            failing: set<(string, Hook)>)
    ensures EventTrace(a + b, eventType, lookup, failing) == EventTrace(a, eventType, lookup, failing) + EventTrace(b, eventType, lookup, failing)
    decreases |a|
  {
    if a != [] {
      assert (a + b)[0] == a[0] && (a + b)[1..] == a[1..] + b;
      EventTraceAppend(a[1..], b, eventType, lookup, failing);
    } else {
      assert a + b == b;
    }
  }

  /** Unlike commands, the last module loaded under a name wins. */
  lemma {:induction false} LoadLastWins(files: seq<EventFile>, name: string)
    ensures Get(LoadAllEvents(files), name) == LastRegistered(files, name)
    decreases |files|
  {
    if files != [] {
      var init, last := files[..|files| - 1], files[|files| - 1];
      LoadLastWins(init, name);
      match Registers(last)
      case None =>
      case Some((n, m)) =>
        if n == name { GetSetSame(LoadAllEvents(init), n, m); }
        else { GetSetOther(LoadAllEvents(init), n, m, name); }
    }
  }

  /** The map keeps one entry per name. */
  lemma {:induction false} LoadDistinct(files: seq<EventFile>)
    ensures DistinctKeys(LoadAllEvents(files))
    decreases |files|
  {
    if files != [] {
      LoadDistinct(files[..|files| - 1]);
      match Registers(files[|files| - 1])
      case None =>
      case Some((n, m)) => SetDistinct(LoadAllEvents(files[..|files| - 1]), n, m);
    }
  }

  /**
   * Per handler: nothing when it is skipped; otherwise at most the hook its event type
   * routes to, then `execute`, which runs whenever it exists unless the typed hook threw.
   */
  lemma HandlerTraceShape(name: string, m: EventModule, eventType: string, lookup: RoleLookup,
                          failing: set<(string, Hook)>)
    ensures var tr := HandlerTrace(name, m, eventType, lookup, failing);
      && |tr| <= 2
      && (Skipped(m, lookup) ==> tr == [])
      && (forall i :: 0 <= i < |tr| ==> tr[i].0 == name && tr[i].1 in m.hooks)
      && (forall i :: 0 <= i < |tr| ==> tr[i].1 == Execute || Some(tr[i].1) == TypedHook(eventType))
      && (forall i :: 0 <= i < |tr| - 1 ==> tr[i].1 != Execute)
      && (!Skipped(m, lookup) && Execute in m.hooks ==>
            ((name, Execute) in tr <==> !(TypedHook(eventType).Some? && TypedHook(eventType).value in m.hooks
                                          && (name, TypedHook(eventType).value) in failing)))
  {
  }

  /** `p` is an entry point of a registered handler that is not skipped, and it is that handler's typed hook or `execute`. */
  ghost predicate InvokedFairly(events: Events, p: (string, Hook), eventType: string, lookup: RoleLookup) {
    exists m :: (p.0, m) in events && !Skipped(m, lookup) && p.1 in m.hooks && (p.1 == Execute || Some(p.1) == TypedHook(eventType))
  }

  /**
   * Every invocation belongs to a registered handler that was not skipped, and is its
   * typed hook or `execute`.
   */
  lemma {:induction false} EventTraceSound(events: Events, eventType: string, lookup: RoleLookup,
                                           failing: set<(string, Hook)>)
    ensures forall p :: p in EventTrace(events, eventType, lookup, failing) ==> InvokedFairly(events, p, eventType, lookup)
    decreases |events|
  {
    if events != [] {
      EventTraceSound(events[1..], eventType, lookup, failing);
      HandlerTraceShape(events[0].0, events[0].1, eventType, lookup, failing);
      forall p | p in EventTrace(events, eventType, lookup, failing)
        ensures InvokedFairly(events, p, eventType, lookup)
      {
        var head := HandlerTrace(events[0].0, events[0].1, eventType, lookup, failing);
        if p in head {
          var i :| 0 <= i < |head| && head[i] == p;
          assert (p.0, events[0].1) == events[0];
          assert (p.0, events[0].1) in events;
        } else {
          assert InvokedFairly(events[1..], p, eventType, lookup);
          var m :| (p.0, m) in events[1..] && !Skipped(m, lookup) && p.1 in m.hooks
                   && (p.1 == Execute || Some(p.1) == TypedHook(eventType));
          assert (p.0, m) in events;
        }
      }
    }
  }

  /** The `events` Map of eventHandler.js. */
  class EventRegistry {
    var events: Events

    ghost predicate Valid()
      reads this
    {
      DistinctKeys(events)
    }

    constructor()
      ensures Valid() && events == []
    {
      events := [];
    }

    /** `loadEvents`: clear the map, then register each file in order. */
    method LoadEvents(files: seq<EventFile>)
      modifies this
      ensures Valid()
      ensures events == LoadAllEvents(files)
    {
      events := [];
      var i := 0;
      while i < |files|
        invariant 0 <= i <= |files|
        invariant events == LoadAllEvents(files[..i])
      {
        assert files[..i + 1][..i] == files[..i];
        match Registers(files[i]) {
          case None =>
          case Some((name, m)) => events := Set(events, name, m);
        }
        i := i + 1;
      }
      assert files[..i] == files;
      LoadDistinct(files);
    }

    /** `handleEvent`: the entry points invoked, in order, for one event. */
    method HandleEvent(eventType: string, lookup: RoleLookup, failing: set<(string, Hook)>)
      returns (trace: seq<(string, Hook)>)
      ensures trace == EventTrace(events, eventType, lookup, failing)
    {
      trace := [];
      var i := 0;
      while i < |events|
        invariant 0 <= i <= |events|
        invariant trace == EventTrace(events[..i], eventType, lookup, failing)
      {
        var (name, handler) := events[i];
        EventTraceAppend(events[..i], [events[i]], eventType, lookup, failing);
        assert events[..i + 1] == events[..i] + [events[i]];
        assert EventTrace([events[i]], eventType, lookup, failing) == HandlerTrace(name, handler, eventType, lookup, failing);
        var steps := RunHandler(name, handler, eventType, lookup, failing);
        trace := trace + steps;
        i := i + 1;
      }
      assert events[..i] == events;
    }

    /** One iteration of the loop over `events`: the role check, the typed hook, then `execute`. */
    static method RunHandler(name: string, handler: EventModule, eventType: string, lookup: RoleLookup,
                             failing: set<(string, Hook)>) returns (steps: seq<(string, Hook)>)
      ensures steps == HandlerTrace(name, handler, eventType, lookup, failing)
    {
      steps := [];
      if handler.config.role != 0 && !lookup.NoManager? {
        if lookup.LookupThrows? || lookup.level < handler.config.role {
          return;
        }
      }
      var typed := TypedHook(eventType);
      var threw := false;
      if typed.Some? && typed.value in handler.hooks {
        steps := steps + [(name, typed.value)];
        threw := (name, typed.value) in failing;
      }
      if !threw && Execute in handler.hooks {
        steps := steps + [(name, Execute)];
      }
    }
  }
}
