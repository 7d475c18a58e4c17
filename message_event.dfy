/**
 * events/messageEvent.js: the message counter and the keyword responder that answers
 * unprefixed messages such as "hi bot". The bot's own user id, the thread prefixes, the
 * configured prefix and the admins' custom keywords are inputs.
 */
module MessageEvent {
  import opened Options
  import opened JsStrings

  datatype Keyword = Keyword(triggers: seq<string>, response: string)

  /** An entry of `global.customKeywords`, with whatever fields it has. */
  datatype CustomKeyword = CustomKeyword(triggers: Option<seq<string>>, response: Option<string>)

  /** The four characters the responses open with, as the source file spells them. */
  const Wave: string := "\U{011F}\U{0178}\U{2018}\U{2039}"

  /** The three built-in keywords, with `p` the prefix shown to the chat. */
  function BuiltinKeywords(p: string): (ks: seq<Keyword>)
    ensures |ks| == 3
  {
    [ Keyword(["bot", "hey bot", "hi bot", "nexus"],
              Wave + " I'm here! My prefix is \"" + p + "\" (Example: " + p + "help)"),
      Keyword(["prefix", "what is the prefix", "what's the prefix"],
              "The prefix for this chat is \"" + p + "\""),
      Keyword(["hello", "hi", "hey"], Greeting(p)) ]
  }

  /** The third built-in keyword's response. */
  function Greeting(p: string): string {
    Wave + " Hello there! Need help? Use " + p + "help to see my commands."
  }

  /** A custom keyword is used only when it has `triggers` and a non-empty `response`. */
  function Usable(c: CustomKeyword): Option<Keyword> {
    if c.triggers.Some? && c.response.Some? && c.response.value != "" then Some(Keyword(c.triggers.value, c.response.value))
    else None
  }

  /** The usable custom keywords, in iteration order. */
  function UsableKeywords(cs: seq<CustomKeyword>): (ks: seq<Keyword>)
    ensures |ks| <= |cs|
    decreases |cs|
  {
    if cs == [] then []
    else
      var init := UsableKeywords(cs[..|cs| - 1]);
      match Usable(cs[|cs| - 1])
      case Some(k) => init + [k]
      case None => init
  }

  /** The keyword list `handleKeywords` scans: the built-ins, then the usable custom ones. */
  function KeywordList(p: string, customs: Option<seq<CustomKeyword>>): seq<Keyword> {
    BuiltinKeywords(p) + (if customs.Some? then UsableKeywords(customs.value) else [])
  }

  /** A trigger matches the lowercased, trimmed body exactly, or as its first word or words. */
  predicate TriggerMatches(lowerBody: string, trigger: string) {
    lowerBody == ToLower(trigger) || StartsWith(lowerBody, ToLower(trigger) + " ")
  }

  predicate KeywordMatches(lowerBody: string, k: Keyword) {
    exists i :: 0 <= i < |k.triggers| && TriggerMatches(lowerBody, k.triggers[i])
  }

  /** The first keyword of `ks` with a matching trigger. */
  function FirstMatch(lowerBody: string, ks: seq<Keyword>): Option<Keyword>
    decreases |ks|
  {
    if ks == [] then None
    else if KeywordMatches(lowerBody, ks[0]) then Some(ks[0])
    else FirstMatch(lowerBody, ks[1..])
  }

  /** What `handleKeywords` reads besides the event. */
  datatype KeywordEnv = KeywordEnv(
    botID: string,
    threadPrefixes: map<string, string>,
    configPrefix: Option<string>,
    customKeywords: Option<seq<CustomKeyword>>)

  /** `api.sendMessage(text, threadID, messageID)`. */
  datatype Reply = Reply(text: string, threadID: string, replyTo: string)

  /** The prefix shown in responses: the thread's, else the configured one, else `!`. */
  function ResponsePrefix(env: KeywordEnv, threadID: string): string {
    if threadID in env.threadPrefixes && env.threadPrefixes[threadID] != "" then env.threadPrefixes[threadID]
    else if env.configPrefix.Some? && env.configPrefix.value != "" then env.configPrefix.value
    else "!"
  }

  function LowerBody(body: string): string {
    Trim(ToLower(body))
  }

  /** The reply `handleKeywords` is meant to send: the first matching keyword's response, never to the bot itself. */
  function KeywordReply(body: string, threadID: string, messageID: string, senderID: string, env: KeywordEnv): Option<Reply> {
    if senderID == env.botID then None
    else
      match FirstMatch(LowerBody(body), KeywordList(ResponsePrefix(env, threadID), env.customKeywords))
      case None => None
      case Some(k) => Some(Reply(k.response, threadID, messageID))
  }

  /** How `handleKeywords` ends as the file is written. */
  datatype KeywordOutcome = NoResponse | Responded(reply: Reply) | ThrewTypeError

  /**
   * As written: on a match, `safeApi.sendTypingIndicator(api, threadID)` is called on
   * what nexus-core/apiHelpers.js exports, the `ApiHelpers` class itself, whose
   * `sendTypingIndicator` is an instance method. The call throws a TypeError before the
   * reply is scheduled.
   */
  function KeywordOutcomeAsWritten(body: string, threadID: string, messageID: string, senderID: string, env: KeywordEnv): KeywordOutcome {
    if senderID == env.botID then NoResponse
    else
      match FirstMatch(LowerBody(body), KeywordList(ResponsePrefix(env, threadID), env.customKeywords))
      case None => NoResponse
      case Some(_) => ThrewTypeError
  }

  /** As written, no keyword response is ever sent; the error is swallowed by `execute`'s `catch`. */
  lemma AsWrittenNeverResponds(body: string, threadID: string, messageID: string, senderID: string, env: KeywordEnv)
    ensures !KeywordOutcomeAsWritten(body, threadID, messageID, senderID, env).Responded?
    ensures KeywordOutcomeAsWritten(body, threadID, messageID, senderID, env) == ThrewTypeError <==>
      KeywordReply(body, threadID, messageID, senderID, env).Some?
  {
  }

  /** Lowercasing leaves a string without capital letters unchanged. */
  lemma LowerIdentity(s: string)
    requires forall i :: 0 <= i < |s| ==> !('A' <= s[i] <= 'Z')
    ensures ToLower(s) == s
  {
  }

  /** A lowercase trigger that starts with another letter than `h`, or is longer than five, misses "hello". */
  lemma MissesHello(t: string)
    requires forall i :: 0 <= i < |t| ==> !('A' <= t[i] <= 'Z')
    requires |t| > 0 && (t[0] != 'h' || |t| > 5)
    ensures !TriggerMatches("hello", t)
  {
    LowerIdentity(t);
    var h := "hello";
    if t[0] != 'h' {
      assert h[0] == 'h';
      assert (t + " ")[0] == t[0];
    }
  }

  /** None of the first two built-in keywords matches a plain "hello". */
  lemma HelloSkipsFirstTwo(p: string)
    ensures !KeywordMatches("hello", BuiltinKeywords(p)[0])
    ensures !KeywordMatches("hello", BuiltinKeywords(p)[1])
  {
    var ks := BuiltinKeywords(p);
    MissesHello("bot");
    MissesHello("hey bot");
    MissesHello("hi bot");
    MissesHello("nexus");
    MissesHello("prefix");
    MissesHello("what is the prefix");
    MissesHello("what's the prefix");
    assert ks[0].triggers == ["bot", "hey bot", "hi bot", "nexus"];
    assert ks[1].triggers == ["prefix", "what is the prefix", "what's the prefix"];
  }

  lemma LowerBodyOfHello()
    ensures LowerBody("hello") == "hello"
  {
    LowerIdentity("hello");
    var h := "hello";
    assert !IsWhitespace(h[0]) && !IsWhitespace(h[4]);
    assert TrimStart(h) == h;
    assert TrimEnd(h) == h;
  }

  lemma HelloPicksGreeting(p: string)
    ensures FirstMatch("hello", BuiltinKeywords(p)) == Some(BuiltinKeywords(p)[2])
  {
    var ks := BuiltinKeywords(p);
    HelloSkipsFirstTwo(p);
    LowerIdentity("hello");
    assert ks[2].triggers[0] == "hello";
    assert TriggerMatches("hello", ks[2].triggers[0]);
    assert KeywordMatches("hello", ks[2]);
    assert ks[1..][0] == ks[1] && ks[1..][1..] == [ks[2]];
    calc {
      FirstMatch("hello", ks);
      FirstMatch("hello", ks[1..]);
      FirstMatch("hello", ks[1..][1..]);
      Some(ks[2]);
    }
  }

  /** "hello" from a user in a thread without its own prefix should get the greeting, yet gets nothing. */
  lemma HelloGetsNoGreeting()
    ensures var env := KeywordEnv("1", map[], Some("!"), None);
      && KeywordReply("hello", "t", "m", "2", env)
         == Some(Reply(Greeting("!"), "t", "m"))
      && KeywordOutcomeAsWritten("hello", "t", "m", "2", env) == ThrewTypeError
  {
    var env := KeywordEnv("1", map[], Some("!"), None);
    assert ResponsePrefix(env, "t") == "!";
    assert KeywordList("!", None) == BuiltinKeywords("!");
    LowerBodyOfHello();
    HelloPicksGreeting("!");
  }

  // ---------------------------------------------------------------------------
  // Properties of the intended responder

  /** The scan picks the first keyword that matches, and none exactly when no keyword does. */
  lemma {:induction false} FirstMatchIsFirst(lowerBody: string, ks: seq<Keyword>)
    ensures FirstMatch(lowerBody, ks).None? <==> forall i :: 0 <= i < |ks| ==> !KeywordMatches(lowerBody, ks[i])
    ensures FirstMatch(lowerBody, ks).Some? ==>
      exists i :: 0 <= i < |ks| && ks[i] == FirstMatch(lowerBody, ks).value && KeywordMatches(lowerBody, ks[i])
        && forall j :: 0 <= j < i ==> !KeywordMatches(lowerBody, ks[j])
    decreases |ks|
  {
    if ks != [] && !KeywordMatches(lowerBody, ks[0]) {
      FirstMatchIsFirst(lowerBody, ks[1..]);
      if FirstMatch(lowerBody, ks).Some? {
        var i :| 0 <= i < |ks[1..]| && ks[1..][i] == FirstMatch(lowerBody, ks).value && KeywordMatches(lowerBody, ks[1..][i])
                 && forall j :: 0 <= j < i ==> !KeywordMatches(lowerBody, ks[1..][j]);
        assert ks[i + 1] == ks[1..][i];
        forall j | 0 <= j < i + 1 ensures !KeywordMatches(lowerBody, ks[j]) {
          if j > 0 { assert ks[j] == ks[1..][j - 1]; }
        }
      } else {
        forall i | 0 <= i < |ks| ensures !KeywordMatches(lowerBody, ks[i]) {
          if i > 0 { assert ks[i] == ks[1..][i - 1]; }
        }
      }
    }
  }

  lemma {:induction false} FirstMatchAppend(lowerBody: string, a: seq<Keyword>, b: seq<Keyword>)
    ensures FirstMatch(lowerBody, a + b) == if FirstMatch(lowerBody, a).Some? then FirstMatch(lowerBody, a) else FirstMatch(lowerBody, b)
    decreases |a|
  {
    if a == [] {
      assert a + b == b;
    } else {
      assert (a + b)[0] == a[0] && (a + b)[1..] == a[1..] + b;
      FirstMatchAppend(lowerBody, a[1..], b);
    }
  }

  /** Every keyword taken from the custom list has triggers and a non-empty response. */
  lemma {:induction false} UsableKeywordsComplete(cs: seq<CustomKeyword>)
    ensures forall k :: k in UsableKeywords(cs) ==>
      (k.response != "" && exists c :: c in cs && c.triggers == Some(k.triggers) && c.response == Some(k.response))
    ensures forall c :: c in cs && Usable(c).Some? ==> Usable(c).value in UsableKeywords(cs)
    decreases |cs|
  {
    if cs != [] {
      var init := cs[..|cs| - 1];
      UsableKeywordsComplete(init);
      assert cs == init + [cs[|cs| - 1]];
      forall k | k in UsableKeywords(cs)
        ensures k.response != "" && exists c :: c in cs && c.triggers == Some(k.triggers) && c.response == Some(k.response)
      {
        if k in UsableKeywords(init) {
          var c :| c in init && c.triggers == Some(k.triggers) && c.response == Some(k.response);
          assert c in cs;
        } else {
          assert cs[|cs| - 1] in cs;
        }
      }
    }
  }

  /**
   * The bot never answers itself; a built-in keyword that matches wins over every custom
   * keyword; a reply, when there is one, goes to the message's thread and quotes it.
   */
  lemma KeywordReplyRules(body: string, threadID: string, messageID: string, senderID: string, env: KeywordEnv)
    ensures senderID == env.botID ==> KeywordReply(body, threadID, messageID, senderID, env).None?
    ensures var p := ResponsePrefix(env, threadID);
      senderID != env.botID && FirstMatch(LowerBody(body), BuiltinKeywords(p)).Some? ==>
        KeywordReply(body, threadID, messageID, senderID, env)
          == Some(Reply(FirstMatch(LowerBody(body), BuiltinKeywords(p)).value.response, threadID, messageID))
    ensures var r := KeywordReply(body, threadID, messageID, senderID, env);
      r.Some? ==> r.value.threadID == threadID && r.value.replyTo == messageID
  {
    var p := ResponsePrefix(env, threadID);
    FirstMatchAppend(LowerBody(body), BuiltinKeywords(p),
                     if env.customKeywords.Some? then UsableKeywords(env.customKeywords.value) else []);
  }

  /** The shown prefix is never empty, and it is the thread's own one whenever that is set. */
  lemma ResponsePrefixRules(env: KeywordEnv, threadID: string)
    ensures ResponsePrefix(env, threadID) != ""
    ensures threadID in env.threadPrefixes && env.threadPrefixes[threadID] != "" ==>
      ResponsePrefix(env, threadID) == env.threadPrefixes[threadID]
    ensures (threadID !in env.threadPrefixes || env.threadPrefixes[threadID] == "") ==>
      ResponsePrefix(env, threadID) == if env.configPrefix.Some? && env.configPrefix.value != "" then env.configPrefix.value else "!"
  {
  }

  /** The keyword list as `handleKeywords` builds it: the built-ins, then each usable custom keyword pushed in turn. */
  method CollectKeywords(threadPrefix: string, customKeywords: Option<seq<CustomKeyword>>) returns (keywords: seq<Keyword>)
    ensures keywords == KeywordList(threadPrefix, customKeywords)
  {
    keywords := BuiltinKeywords(threadPrefix);
    if customKeywords.Some? {
      var cs := customKeywords.value;
      var j := 0;
      while j < |cs|
        invariant 0 <= j <= |cs|
        invariant keywords == BuiltinKeywords(threadPrefix) + UsableKeywords(cs[..j])
      {
        assert cs[..j + 1][..j] == cs[..j];
        if cs[j].triggers.Some? && cs[j].response.Some? && cs[j].response.value != "" {
          keywords := keywords + [Keyword(cs[j].triggers.value, cs[j].response.value)];
        }
        j := j + 1;
      }
      assert cs[..j] == cs;
    }
  }

  /** The `for ... of` over the keywords with its `some` over the triggers. */
  method ScanKeywords(lowerBody: string, keywords: seq<Keyword>) returns (found: Option<Keyword>)
    ensures found == FirstMatch(lowerBody, keywords)
  {
    var i := 0;
    while i < |keywords|
      invariant 0 <= i <= |keywords|
      invariant FirstMatch(lowerBody, keywords) == FirstMatch(lowerBody, keywords[i..])
    {
      assert keywords[i..][1..] == keywords[i + 1..];
      var matched := false;
      var t := 0;
      while t < |keywords[i].triggers|
        invariant 0 <= t <= |keywords[i].triggers|
        invariant matched <==> exists u :: 0 <= u < t && TriggerMatches(lowerBody, keywords[i].triggers[u])
      {
        if TriggerMatches(lowerBody, keywords[i].triggers[t]) {
          matched := true;
        }
        t := t + 1;
      }
      if matched {
        return Some(keywords[i]);
      }
      i := i + 1;
    }
    return None;
  }

  /** `handleKeywords`, with the typing indicator call left out so that the reply is sent. */
  method HandleKeywords(body: string, threadID: string, messageID: string, senderID: string, env: KeywordEnv)
    returns (reply: Option<Reply>)
    ensures reply == KeywordReply(body, threadID, messageID, senderID, env)
  {
    var lowerBody := Trim(ToLower(body));
    if senderID == env.botID {
      return None;
    }
    var threadPrefix := ResponsePrefix(env, threadID);
    var keywords := CollectKeywords(threadPrefix, env.customKeywords);
    var found := ScanKeywords(lowerBody, keywords);
    if found.Some? {
      return Some(Reply(found.value.response, threadID, messageID));
    }
    return None;
  }

  // ---------------------------------------------------------------------------
  // execute

  /** The fields of a chat event `execute` reads. */
  datatype ChatEvent = ChatEvent(
    threadID: Option<string>,
    eventType: Option<string>,
    body: Option<string>,
    messageID: string,
    senderID: string)

  /** `execute` handles an event only when it has a thread id and is of type `message`. */
  predicate Processed(ev: ChatEvent) {
    ev.threadID.Some? && ev.threadID.value != "" && ev.eventType == Some("message")
  }

  function CommandPrefix(env: KeywordEnv): string {
    if env.configPrefix.Some? && env.configPrefix.value != "" then env.configPrefix.value else "!"
  }

  /** Keywords are looked at only for a non-empty body that does not start with the configured prefix. */
  predicate KeywordCandidate(ev: ChatEvent, env: KeywordEnv) {
    Processed(ev) && ev.body.Some? && ev.body.value != "" && !StartsWith(ev.body.value, CommandPrefix(env))
  }

  function ExecuteReply(ev: ChatEvent, env: KeywordEnv): Option<Reply> {
    if KeywordCandidate(ev, env) then KeywordReply(ev.body.value, ev.threadID.value, ev.messageID, ev.senderID, env) else None
  }

  /** A command message, an event without a thread, or one of another type never gets a keyword reply. */
  lemma ExecuteReplyRules(ev: ChatEvent, env: KeywordEnv)
    ensures !Processed(ev) ==> ExecuteReply(ev, env).None?
    ensures ev.body.Some? && StartsWith(ev.body.value, CommandPrefix(env)) ==> ExecuteReply(ev, env).None?
    ensures ExecuteReply(ev, env).Some? ==> ExecuteReply(ev, env).value.threadID == ev.threadID.value
  {
    if KeywordCandidate(ev, env) {
      KeywordReplyRules(ev.body.value, ev.threadID.value, ev.messageID, ev.senderID, env);
    }
  }

  /** `global.messageCount`, which only `execute` increments. */
  class MessageStats {
    var messageCount: nat

    constructor()
      ensures messageCount == 0
    {
      messageCount := 0;
    }

    /** `execute`: counts each processed message, then answers keywords. */
    method Execute(ev: ChatEvent, env: KeywordEnv) returns (reply: Option<Reply>)
      modifies this
      ensures messageCount == old(messageCount) + (if Processed(ev) then 1 else 0)
      ensures reply == ExecuteReply(ev, env)
    {
      if ev.threadID.None? || ev.threadID.value == "" || ev.eventType.None? || ev.eventType.value != "message" {
        return None;
      }
      messageCount := messageCount + 1;
      reply := None;
      if ev.body.Some? && ev.body.value != "" && !StartsWith(ev.body.value, CommandPrefix(env)) {
        reply := HandleKeywords(ev.body.value, ev.threadID.value, ev.messageID, ev.senderID, env);
      }
    }
  }
}
