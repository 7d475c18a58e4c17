/**
 * The safety gate of nexus-core/safeMode.js: two module-level variables, the break flag
 * and the daily message counter, guarded by an ordered list of checks. The clock, the
 * rate limiter and `Math.random` are inputs: the hour of day, whether the sender is
 * rate-limited, and whether the random break roll came up.
 */
module SafeMode {
  import opened Options
  import opened JsStrings

  /** The part of `config.systemConfig` the gate reads. */
  datatype SafetyConfig = SafetyConfig(
    activeStart: int,
    activeEnd: int,
    maxDailyMessages: int,
    contentFilter: seq<string>,
    autoBreaksEnabled: bool)

  /** The two module-level variables. */
  datatype Gate = Gate(isInBreak: bool, dailyMessageCount: nat)

  /** Why `processMessage` returned what it did, in the order the checks run. */
  datatype Verdict = OutsideActiveHours | OnBreak | RateLimited | DailyLimitReached | FilteredContent | Admitted

  /** What can happen to the gate: a message, the end-of-break timer, or a tick of the reset interval. */
  datatype Input =
    | Message(hour: int, limited: bool, body: Option<string>, breakRoll: bool)
    | BreakEnds
    | Tick(hour: int, minute: int)

  /** Some filter word occurs in the body, case-sensitively; a message without a body is never filtered. */
  predicate Filtered(filter: seq<string>, body: Option<string>) {
    body.Some? && exists i :: 0 <= i < |filter| && Contains(body.value, filter[i])
  }

  function Check(cfg: SafetyConfig, g: Gate, hour: int, limited: bool, body: Option<string>): Verdict {
    if hour < cfg.activeStart || hour >= cfg.activeEnd then OutsideActiveHours
    else if g.isInBreak then OnBreak
    else if limited then RateLimited
    else if g.dailyMessageCount >= cfg.maxDailyMessages then DailyLimitReached
    else if Filtered(cfg.contentFilter, body) then FilteredContent
    else Admitted
  }

  /** `takeBreak`: a break already running is left alone. */
  function Break(g: Gate): Gate {
    if g.isInBreak then g else g.(isInBreak := true)
  }

  function Step(cfg: SafetyConfig, g: Gate, input: Input): Gate {
    match input
    case Message(hour, limited, body, breakRoll) =>
      if Check(cfg, g, hour, limited, body) != Admitted then g
      else
        var counted := g.(dailyMessageCount := g.dailyMessageCount + 1);
        if cfg.autoBreaksEnabled && breakRoll then Break(counted) else counted
    case BreakEnds => g.(isInBreak := false)
    case Tick(hour, minute) => if hour == 0 && minute == 0 then g.(dailyMessageCount := 0) else g
  }

  function Run(cfg: SafetyConfig, g: Gate, inputs: seq<Input>): Gate
    decreases |inputs|
  {
    if inputs == [] then g else Run(cfg, Step(cfg, g, inputs[0]), inputs[1..])
  }

  predicate AdmittedBy(cfg: SafetyConfig, g: Gate, input: Input) {
    input.Message? && Check(cfg, g, input.hour, input.limited, input.body) == Admitted
  }

  /** How many messages of `inputs` the gate lets through. */
  function Admissions(cfg: SafetyConfig, g: Gate, inputs: seq<Input>): nat
    decreases |inputs|
  {
    if inputs == [] then 0
    else (if AdmittedBy(cfg, g, inputs[0]) then 1 else 0) + Admissions(cfg, Step(cfg, g, inputs[0]), inputs[1..])
  }

  predicate IsReset(input: Input) {
    input.Tick? && input.hour == 0 && input.minute == 0
  }

  /**
   * A message is admitted exactly when it arrives within the active hours, outside a
   * break, from a sender who is not rate-limited, below the daily limit, and with no
   * filter word in its body.
   */
  lemma AdmittedIff(cfg: SafetyConfig, g: Gate, hour: int, limited: bool, body: Option<string>)
    ensures Check(cfg, g, hour, limited, body) == Admitted <==>
      && cfg.activeStart <= hour < cfg.activeEnd
      && !g.isInBreak
      && !limited
      && g.dailyMessageCount < cfg.maxDailyMessages
      && !Filtered(cfg.contentFilter, body)
  {
  }

  /**
   * A rejected message changes nothing; an admitted one adds exactly one to the counter
   * and starts a break exactly when breaks are enabled and the roll came up.
   */
  lemma MessageEffect(cfg: SafetyConfig, g: Gate, hour: int, limited: bool, body: Option<string>, breakRoll: bool)
    ensures var g' := Step(cfg, g, Message(hour, limited, body, breakRoll));
      if Check(cfg, g, hour, limited, body) == Admitted then
        g'.dailyMessageCount == g.dailyMessageCount + 1 && g'.isInBreak == (cfg.autoBreaksEnabled && breakRoll)
      else g' == g
  {
  }

  /** Started at or below the daily maximum, the counter stays at or below it, whatever happens. */
  lemma {:induction false} CountNeverExceedsMax(cfg: SafetyConfig, g: Gate, inputs: seq<Input>)
    requires g.dailyMessageCount <= cfg.maxDailyMessages
    ensures Run(cfg, g, inputs).dailyMessageCount <= cfg.maxDailyMessages
    decreases |inputs|
  {
    if inputs != [] {
      CountNeverExceedsMax(cfg, Step(cfg, g, inputs[0]), inputs[1..]);
    }
  }

  /**
   * Between two midnight resets the counter counts the admitted messages, and at most
   * the headroom left below the daily maximum is admitted.
   */
  lemma {:induction false} AdmissionsBetweenResets(cfg: SafetyConfig, g: Gate, inputs: seq<Input>)
    requires forall i :: 0 <= i < |inputs| ==> !IsReset(inputs[i])
    ensures Run(cfg, g, inputs).dailyMessageCount == g.dailyMessageCount + Admissions(cfg, g, inputs)
    ensures Admissions(cfg, g, inputs) <= if g.dailyMessageCount < cfg.maxDailyMessages then cfg.maxDailyMessages - g.dailyMessageCount else 0
    decreases |inputs|
  {
    if inputs != [] {
      assert !IsReset(inputs[0]);
      AdmissionsBetweenResets(cfg, Step(cfg, g, inputs[0]), inputs[1..]);
    }
  }

  /** During a break no message is admitted until the break-end timer fires. */
  lemma {:induction false} NothingAdmittedDuringBreak(cfg: SafetyConfig, g: Gate, inputs: seq<Input>)
    requires g.isInBreak
    requires forall i :: 0 <= i < |inputs| ==> !inputs[i].BreakEnds?
    ensures Admissions(cfg, g, inputs) == 0
    ensures Run(cfg, g, inputs).isInBreak
    decreases |inputs|
  {
    if inputs != [] {
      assert !inputs[0].BreakEnds?;
      NothingAdmittedDuringBreak(cfg, Step(cfg, g, inputs[0]), inputs[1..]);
    }
  }

  /** With automatic breaks disabled the gate never enters a break. */
  lemma {:induction false} NoBreakUnlessEnabled(cfg: SafetyConfig, g: Gate, inputs: seq<Input>)
    requires !cfg.autoBreaksEnabled && !g.isInBreak
    ensures !Run(cfg, g, inputs).isInBreak
    decreases |inputs|
  {
    if inputs != [] {
      NoBreakUnlessEnabled(cfg, Step(cfg, g, inputs[0]), inputs[1..]);
    }
  }

  /** The module-level state of safeMode.js. */
  class SafetyGate {
    const cfg: SafetyConfig
    var isInBreak: bool
    var dailyMessageCount: nat

    function State(): Gate
      reads this
    {
      Gate(isInBreak, dailyMessageCount)
    }

    /** Module load: no break, nothing counted. */
    constructor(cfg: SafetyConfig)
      ensures this.cfg == cfg && State() == Gate(false, 0)
    {
      this.cfg := cfg;
      isInBreak := false;
      dailyMessageCount := 0;
    }

    /** `processMessage`: `true` when the message may be handled. */
    method ProcessMessage(hour: int, limited: bool, body: Option<string>, breakRoll: bool) returns (admitted: bool)
      modifies this
      ensures admitted <==> Check(cfg, old(State()), hour, limited, body) == Admitted
      ensures State() == Step(cfg, old(State()), Message(hour, limited, body, breakRoll))
    {
      if hour < cfg.activeStart || hour >= cfg.activeEnd {
        return false;
      }
      if isInBreak {
        return false;
      }
      if limited {
        return false;
      }
      if dailyMessageCount >= cfg.maxDailyMessages {
        return false;
      }
      if Filtered(cfg.contentFilter, body) {
        return false;
      }
      dailyMessageCount := dailyMessageCount + 1;
      if cfg.autoBreaksEnabled && breakRoll {
        TakeBreak();
      }
      return true;
    }

    /** `takeBreak`; the random duration only decides when `EndBreak` runs. */
    method TakeBreak()
      modifies this
      ensures State() == Break(old(State()))
    {
      if isInBreak {
        return;
      }
      isInBreak := true;
    }

    /** The `setTimeout` callback that ends a break. */
    method EndBreak()
      modifies this
      ensures State() == Step(cfg, old(State()), BreakEnds)
    {
      isInBreak := false;
    }

    /** The body of the once-a-minute reset interval. */
    method MidnightTick(hour: int, minute: int)
      modifies this
      ensures State() == Step(cfg, old(State()), Tick(hour, minute))
    {
      if hour == 0 && minute == 0 {
        dailyMessageCount := 0;
      }
    }
  }
}
