/**
 * commands/help.js: the `help` command. With an argument it describes the first
 * command whose name or alias is that argument; without one it lists the registered
 * command names grouped by category. The file also defines three helpers that nothing
 * calls: a count of the commands a permission level may run, an emoji per category,
 * and first-letter capitalisation.
 */
module Help {
  import opened Options
  import opened JsStrings
  import opened OrderedMaps
  import opened Commands

  /** The configs of the `commands` Map's values, in insertion order. */
  function Configs(reg: Registry): (cs: seq<CommandConfig>)
    ensures |cs| == |reg| && forall i :: 0 <= i < |reg| ==> cs[i] == reg[i].1.config
  {
    seq(|reg|, i requires 0 <= i < |reg| => reg[i].1.config)
  }

  // ---------------------------------------------------------------------------
  // Detail for one command

  /** `c.config.name === arg || (c.config.aliases && c.config.aliases.includes(arg))`. */
  predicate Answers(c: CommandConfig, arg: string) {
    c.name == Some(arg) || (c.aliases.Some? && arg in c.aliases.value)
  }

  /** `[...commands.values()].find(...)`. */
  function FindCommand(cs: seq<CommandConfig>, arg: string): Option<CommandConfig>
    decreases |cs|
  {
    if cs == [] then None else if Answers(cs[0], arg) then Some(cs[0]) else FindCommand(cs[1..], arg)
  }

  /** `s.replace(pat, rep)` with a global pattern: every occurrence, left to right, without overlaps. */
  function ReplaceAll(s: string, pat: string, rep: string): string
    requires pat != []
    decreases |s|
  {
    if s == [] then []
    else if StartsWith(s, pat) then rep + ReplaceAll(s[|pat|..], pat, rep)
    else [s[0]] + ReplaceAll(s[1..], pat, rep)
  }

  const PrefixPattern: string := "{prefix}"

  /** How a template literal shows an optional string: `undefined` when it is absent. */
  function Shown(s: Option<string>): string {
    if s.Some? then s.value else "undefined"
  }

  /** `c.longDescription || c.shortDescription`. */
  function Description(c: CommandConfig): string {
    if c.longDescription.Some? && c.longDescription.value != "" then c.longDescription.value else Shown(c.shortDescription)
  }

  const CrossMark: string := "\U{274C} "
  const NotFound: string := CrossMark + "Command not found."
  const HelpFailed: string := CrossMark + "An error occurred while processing the help command."
  const InfoMark: string := "\U{2139}\U{FE0F} "
  const UsageLabel: string := "\nUsage: "

  /** The detail text; a command without a guide makes `c.guide.replace` throw, and the catch sends the error text. */
  function Detail(cs: seq<CommandConfig>, arg: string, prefix: string): string {
    match FindCommand(cs, arg)
    case None => NotFound
    case Some(c) =>
      if c.guide.None? then HelpFailed
      else InfoMark + Shown(c.name) + "\n" + Description(c) + UsageLabel + ReplaceAll(c.guide.value, PrefixPattern, prefix)
  }

  /** The lookup picks the first command answering to the argument, by name or alias, case-sensitively. */
  lemma {:induction false} FindCommandIsFirst(cs: seq<CommandConfig>, arg: string)
    ensures FindCommand(cs, arg).None? <==> forall i :: 0 <= i < |cs| ==> !Answers(cs[i], arg)
    ensures FindCommand(cs, arg).Some? ==>
      exists i :: 0 <= i < |cs| && cs[i] == FindCommand(cs, arg).value && Answers(cs[i], arg)
        && forall j :: 0 <= j < i ==> !Answers(cs[j], arg)
    decreases |cs|
  {
    if cs != [] && !Answers(cs[0], arg) {
      FindCommandIsFirst(cs[1..], arg);
      if FindCommand(cs, arg).Some? {
        var i :| 0 <= i < |cs[1..]| && cs[1..][i] == FindCommand(cs, arg).value && Answers(cs[1..][i], arg)
                 && forall j :: 0 <= j < i ==> !Answers(cs[1..][j], arg);
        assert cs[i + 1] == cs[1..][i];
        forall j | 0 <= j < i + 1 ensures !Answers(cs[j], arg) {
          if j > 0 { assert cs[j] == cs[1..][j - 1]; }
        }
      } else {
        forall i | 0 <= i < |cs| ensures !Answers(cs[i], arg) {
          if i > 0 { assert cs[i] == cs[1..][i - 1]; }
        }
      }
    }
  }

  /** Exactly the text `'❌ Command not found.'` when no command answers. */
  lemma DetailNotFound(cs: seq<CommandConfig>, arg: string, prefix: string)
    ensures Detail(cs, arg, prefix) == NotFound <==> forall i :: 0 <= i < |cs| ==> !Answers(cs[i], arg)
  {
    FindCommandIsFirst(cs, arg);
    if FindCommand(cs, arg).Some? {
      var c := FindCommand(cs, arg).value;
      if c.guide.Some? {
        var d := InfoMark + Shown(c.name) + "\n" + Description(c) + UsageLabel + ReplaceAll(c.guide.value, PrefixPattern, prefix);
        assert d[0] == InfoMark[0];
        assert NotFound[0] != InfoMark[0];
      } else {
        assert |NotFound| != |HelpFailed|;
      }
    }
  }

  /** A text without the pattern is left as it is. */
  lemma {:induction false} ReplaceAllAbsent(s: string, pat: string, rep: string)
    requires pat != [] && !Contains(s, pat)
    ensures ReplaceAll(s, pat, rep) == s
    decreases |s|
  {
    if s != [] {
      ReplaceAllAbsent(s[1..], pat, rep);
      assert [s[0]] + s[1..] == s;
    }
  }

  /** Replacing the pattern by itself changes nothing. */
  lemma {:induction false} ReplaceAllSelf(s: string, pat: string)
    requires pat != []
    ensures ReplaceAll(s, pat, pat) == s
    decreases |s|
  {
    if s != [] {
      if StartsWith(s, pat) {
        ReplaceAllSelf(s[|pat|..], pat);
        assert s[..|pat|] + s[|pat|..] == s;
      } else {
        ReplaceAllSelf(s[1..], pat);
        assert [s[0]] + s[1..] == s;
      }
    }
  }

  /** A leading occurrence becomes the replacement, and the rest is replaced in turn. */
  lemma ReplaceAllLeading(pat: string, t: string, rep: string)
    requires pat != []
    ensures ReplaceAll(pat + t, pat, rep) == rep + ReplaceAll(t, pat, rep)
  {
    assert (pat + t)[..|pat|] == pat && (pat + t)[|pat|..] == t;
  }

  /** The pattern cannot occur in a text without its first character. */
  lemma {:induction false} AbsentWithoutFirstChar(s: string, pat: string)
    requires pat != [] && pat[0] !in s
    ensures !Contains(s, pat)
    decreases |s|
  {
    if s != [] {
      assert s[0] != pat[0];
      assert s[1..] == s[1..] && forall c :: c in s[1..] ==> c in s;
      AbsentWithoutFirstChar(s[1..], pat);
    }
  }

  /** A guide of the form `{prefix}rest` shows the current prefix followed by `rest`, when `rest` has no `{`. */
  lemma UsageOfPrefixedGuide(rest: string, prefix: string)
    requires '{' !in rest
    ensures ReplaceAll(PrefixPattern + rest, PrefixPattern, prefix) == prefix + rest
  {
    ReplaceAllLeading(PrefixPattern, rest, prefix);
    AbsentWithoutFirstChar(rest, PrefixPattern);
    ReplaceAllAbsent(rest, PrefixPattern, prefix);
  }

  /** An occurrence of `{prefix}` after a text without `{` becomes the replacement, and the rest is replaced in turn. */
  lemma {:induction false} ReplaceAllSplice(a: string, b: string, rep: string)
    requires '{' !in a
    ensures ReplaceAll(a + PrefixPattern + b, PrefixPattern, rep) == a + rep + ReplaceAll(b, PrefixPattern, rep)
    decreases |a|
  {
    if a == [] {
      assert a + PrefixPattern + b == PrefixPattern + b;
      ReplaceAllLeading(PrefixPattern, b, rep);
    } else {
      var s := a + PrefixPattern + b;
      assert s[0] == a[0] != PrefixPattern[0];
      assert !StartsWith(s, PrefixPattern);
      assert s[1..] == a[1..] + PrefixPattern + b;
      assert '{' !in a[1..] by {
        assert forall c :: c in a[1..] ==> c in a;
      }
      ReplaceAllSplice(a[1..], b, rep);
      assert [a[0]] + (a[1..] + rep + ReplaceAll(b, PrefixPattern, rep)) == a + rep + ReplaceAll(b, PrefixPattern, rep);
    }
  }

  /**
   * A guide written as pieces without `{` joined by `{prefix}` shows the same pieces
   * joined by the prefix: every occurrence is replaced, not only the first.
   */
  lemma {:induction false} ReplaceAllJoin(pieces: seq<string>, rep: string)
    requires forall i :: 0 <= i < |pieces| ==> '{' !in pieces[i]
    ensures ReplaceAll(Join(pieces, PrefixPattern), PrefixPattern, rep) == Join(pieces, rep)
    decreases |pieces|
  {
    if |pieces| == 1 {
      AbsentWithoutFirstChar(pieces[0], PrefixPattern);
      ReplaceAllAbsent(pieces[0], PrefixPattern, rep);
    } else if |pieces| > 1 {
      ReplaceAllSplice(pieces[0], Join(pieces[1..], PrefixPattern), rep);
      assert forall i :: 0 <= i < |pieces[1..]| ==> pieces[1..][i] == pieces[i + 1];
      ReplaceAllJoin(pieces[1..], rep);
    }
  }

  // ---------------------------------------------------------------------------
  // The listing

  /** `cmd.config.category || 'other'`. */
  function CategoryOf(c: CommandConfig): string {
    if c.category.Some? && c.category.value != "" then c.category.value else "other"
  }

  /**
   * The properties every plain object inherits from `Object.prototype`. Looking one up
   * on `{}` yields a function (or, for `__proto__`, the prototype itself): a truthy value
   * that is not an array and has no `push`.
   */
  const InheritedNames: set<string> := {
    "constructor", "hasOwnProperty", "isPrototypeOf", "propertyIsEnumerable", "toString",
    "toLocaleString", "valueOf", "__proto__", "__defineGetter__", "__defineSetter__",
    "__lookupGetter__", "__lookupSetter__"
  }

  /** Some command's category names an inherited property, so `cats[cat].push` throws. */
  predicate HasInheritedCategory(cs: seq<CommandConfig>) {
    exists i :: 0 <= i < |cs| && CategoryOf(cs[i]) in InheritedNames
  }

  /** `cats`: category to the names pushed under it, keys in first-use order. */
  type Groups = Entries<string, seq<Option<string>>>

  /** `if (!cats[cat]) cats[cat] = []; cats[cat].push(name)`. */
  function AddToGroup(g: Groups, cat: string, name: Option<string>): Groups {
    Set(g, cat, Get(g, cat).GetOr([]) + [name])
  }

  function Grouped(cs: seq<CommandConfig>): Groups
    decreases |cs|
  {
    if cs == [] then []
    else AddToGroup(Grouped(cs[..|cs| - 1]), CategoryOf(cs[|cs| - 1]), cs[|cs| - 1].name)
  }

  /** The names of the commands in category `cat`, in order: the reference the grouping is checked against. */
  function NamesIn(cs: seq<CommandConfig>, cat: string): seq<Option<string>>
    decreases |cs|
  {
    if cs == [] then []
    else NamesIn(cs[..|cs| - 1], cat) + (if CategoryOf(cs[|cs| - 1]) == cat then [cs[|cs| - 1].name] else [])
  }

  lemma AddToGroupGet(g: Groups, c: string, name: Option<string>, cat: string)
    ensures Get(AddToGroup(g, c, name), cat) == if c == cat then Some(Get(g, c).GetOr([]) + [name]) else Get(g, cat)
  {
    if c == cat {
      GetSetSame(g, c, Get(g, c).GetOr([]) + [name]);
    } else {
      GetSetOther(g, c, Get(g, c).GetOr([]) + [name], cat);
    }
  }

  /**
   * Each command's name is listed exactly once, under its own category, in registry
   * order; a category appears exactly when some command has it.
   */
  lemma {:induction false} GroupedIsFilter(cs: seq<CommandConfig>, cat: string)
    ensures Get(Grouped(cs), cat).GetOr([]) == NamesIn(cs, cat)
    ensures Get(Grouped(cs), cat).None? <==> NamesIn(cs, cat) == []
    decreases |cs|
  {
    if cs != [] {
      var init, last := cs[..|cs| - 1], cs[|cs| - 1];
      GroupedIsFilter(init, cat);
      AddToGroupGet(Grouped(init), CategoryOf(last), last.name, cat);
    }
  }

  /** No category is listed twice. */
  lemma {:induction false} GroupedDistinct(cs: seq<CommandConfig>)
    ensures DistinctKeys(Grouped(cs))
    decreases |cs|
  {
    if cs != [] {
      var init := cs[..|cs| - 1];
      GroupedDistinct(init);
      SetDistinct(Grouped(init), CategoryOf(cs[|cs| - 1]), Get(Grouped(init), CategoryOf(cs[|cs| - 1])).GetOr([]) + [cs[|cs| - 1].name]);
    }
  }

  /** `Array.prototype.join` shows a missing name as the empty string. */
  function NameText(n: Option<string>): string {
    n.GetOr("")
  }

  function NameTexts(ns: seq<Option<string>>): (ts: seq<string>)
    ensures |ts| == |ns| && forall i :: 0 <= i < |ns| ==> ts[i] == NameText(ns[i])
  {
    seq(|ns|, i requires 0 <= i < |ns| => NameText(ns[i]))
  }

  /** One category's block: `\n[cat]\n- names\n`. */
  const SectionOpen: string := "\n["
  const SectionNames: string := "]\n- "

  function Section(cat: string, ns: seq<Option<string>>): string {
    SectionOpen + cat + SectionNames + Join(NameTexts(ns), ", ") + "\n"
  }

  function Sections(g: Groups): string
    decreases |g|
  {
    if g == [] then "" else Sections(g[..|g| - 1]) + Section(g[|g| - 1].0, g[|g| - 1].1)
  }

  const ListHeader: string := "\U{1F4D6} Command List:\n"
  const ListFooterOpen: string := "\nType "
  const ListFooterClose: string := "help [command] for details."

  function Listing(g: Groups, prefix: string): string {
    ListHeader + Sections(g) + ListFooterOpen + prefix + ListFooterClose
  }

  /** What `execute` sends; a throw while grouping is caught and answered with the error text. */
  function HelpText(args: seq<string>, reg: Registry, prefix: string): string {
    if |args| > 0 && args[0] != "" then Detail(Configs(reg), args[0], prefix)
    else if HasInheritedCategory(Configs(reg)) then HelpFailed
    else Listing(Grouped(Configs(reg)), prefix)
  }

  /**
   * Without an argument the command fails exactly when some category is an inherited
   * property name; otherwise it sends the listing, which starts with the book emoji.
   */
  lemma ListingFailsIff(args: seq<string>, reg: Registry, prefix: string)
    requires |args| == 0 || args[0] == ""
    ensures HelpText(args, reg, prefix) == HelpFailed <==> HasInheritedCategory(Configs(reg))
    ensures !HasInheritedCategory(Configs(reg)) ==> HelpText(args, reg, prefix)[..|ListHeader|] == ListHeader
  {
    var listing := Listing(Grouped(Configs(reg)), prefix);
    assert listing[..|ListHeader|] == ListHeader;
    assert ListHeader[0] == '\U{1F4D6}' && HelpFailed[0] == CrossMark[0] == '\U{274C}';
  }

  /** The blocks of two runs of categories are the blocks of each, one after the other. */
  lemma {:induction false} SectionsAppend(a: Groups, b: Groups)
    ensures Sections(a + b) == Sections(a) + Sections(b)
    decreases |b|
  {
    if b == [] {
      assert a + b == a;
    } else {
      var b', last := b[..|b| - 1], b[|b| - 1];
      var ab := a + b;
      assert ab[..|ab| - 1] == a + b';
      assert ab[|ab| - 1] == last;
      var block := Section(last.0, last.1);
      assert Sections(ab) == Sections(a + b') + block;
      assert Sections(b) == Sections(b') + block;
      SectionsAppend(a, b');
      Assoc(Sections(a), Sections(b'), block);
    }
  }

  lemma Assoc(a: string, b: string, c: string)
    ensures (a + b) + c == a + (b + c)
  {
  }

  lemma Regroup(a: string, b: string, w: string, c: string, d: string)
    ensures a + (b + w + c) + d == (a + b) + w + (c + d)
  {
  }

  /** Every category block, with all its names, appears in the listing. */
  lemma ListingHasSection(g: Groups, prefix: string, i: nat)
    requires i < |g|
    ensures Contains(Listing(g, prefix), Section(g[i].0, g[i].1))
  {
    var pre, mid, post := g[..i], [g[i]], g[i + 1..];
    assert g == pre + mid + post;
    SectionsAppend(pre + mid, post);
    SectionsAppend(pre, mid);
    assert Sections(mid) == Section(g[i].0, g[i].1) by {
      assert mid[..0] == [];
    }
    var w := Section(g[i].0, g[i].1);
    var tail := ListFooterOpen + prefix + ListFooterClose;
    assert Sections(g) == Sections(pre) + w + Sections(post);
    assert Listing(g, prefix) == ListHeader + Sections(g) + tail;
    Regroup(ListHeader, Sections(pre), w, Sections(post), tail);
    ContainsInfix(ListHeader + Sections(pre), w, Sections(post) + tail);
  }

  /** `execute`. */
  method Execute(args: seq<string>, commands: Registry, prefix: string) returns (message: string)
    ensures message == HelpText(args, commands, prefix)
  {
    if |args| > 0 && args[0] != "" {
      var cmd := FindCommand(Configs(commands), args[0]);
      if cmd.None? {
        return NotFound;
      }
      var c := cmd.value;
      if c.guide.None? {
        return HelpFailed;
      }
      return InfoMark + Shown(c.name) + "\n" + Description(c) + UsageLabel + ReplaceAll(c.guide.value, PrefixPattern, prefix);
    }
    var cats, threw := GroupByCategory(commands);
    if threw {
      return HelpFailed;
    }
    var sections := RenderSections(cats);
    message := ListHeader + sections + ListFooterOpen + prefix + ListFooterClose;
  }

  /**
   * The loop that fills `cats`: each name goes to the end of its category's list. It
   * stops with `threw` at the first category that names an inherited property.
   */
  method GroupByCategory(commands: Registry) returns (cats: Groups, threw: bool)
    ensures threw <==> HasInheritedCategory(Configs(commands))
    ensures !threw ==> cats == Grouped(Configs(commands))
  {
    var cs := Configs(commands);
    cats := [];
    var i := 0;
    while i < |cs|
      invariant 0 <= i <= |cs|
      invariant cats == Grouped(cs[..i])
      invariant !HasInheritedCategory(cs[..i])
    {
      var next, failed := AddCommand(cats, cs[i]);
      if failed {
        return cats, true;
      }
      GroupedSnoc(cs, i);
      NoInheritedSnoc(cs, i);
      cats := next;
      i := i + 1;
    }
    assert cs[..i] == cs;
    threw := false;
  }

  lemma NoInheritedSnoc(cs: seq<CommandConfig>, i: nat)
    requires i < |cs| && !HasInheritedCategory(cs[..i]) && CategoryOf(cs[i]) !in InheritedNames
    ensures !HasInheritedCategory(cs[..i + 1])
  {
    var next := cs[..i + 1];
    forall j | 0 <= j < |next| ensures CategoryOf(next[j]) !in InheritedNames {
      if j < i {
        assert next[j] == cs[..i][j];
      }
    }
  }

  lemma GroupedSnoc(cs: seq<CommandConfig>, i: nat)
    requires i < |cs|
    ensures Grouped(cs[..i + 1]) == AddToGroup(Grouped(cs[..i]), CategoryOf(cs[i]), cs[i].name)
  {
    assert cs[..i + 1][..i] == cs[..i];
  }

  /**
   * One turn of the loop: `const cat = cmd.config.category || 'other'`, then the push.
   * For an inherited name `cats[cat]` is that member: truthy, so no array is made, and
   * it has no `push`.
   */
  method AddCommand(cats: Groups, c: CommandConfig) returns (cats': Groups, threw: bool)
    ensures threw <==> CategoryOf(c) in InheritedNames
    ensures !threw ==> cats' == AddToGroup(cats, CategoryOf(c), c.name)
  {
    var cat := if c.category.Some? && c.category.value != "" then c.category.value else "other";
    if cat in InheritedNames {
      return cats, true;
    }
    cats' := PushName(cats, cat, c.name);
    threw := false;
  }

  /** `if (!cats[cat]) cats[cat] = []; cats[cat].push(name)`, for a category that is not inherited. */
  method PushName(cats: Groups, cat: string, name: Option<string>) returns (cats': Groups)
    ensures cats' == AddToGroup(cats, cat, name)
  {
    var current := Get(cats, cat);
    var names: seq<Option<string>> := [];
    cats' := cats;
    if current.None? {
      cats' := Set(cats', cat, []);
      SetTwice(cats, cat, [], [name]);
      assert names + [name] == [name];
    } else {
      names := current.value;
    }
    cats' := Set(cats', cat, names + [name]);
  }

  /** The `for ... of Object.entries(categories)` loop appending one block per category. */
  method RenderSections(cats: Groups) returns (text: string)
    ensures text == Sections(cats)
  {
    text := "";
    var j := 0;
    while j < |cats|
      invariant 0 <= j <= |cats|
      invariant text == Sections(cats[..j])
    {
      assert cats[..j + 1][..j] == cats[..j];
      var (cat, cmds) := cats[j];
      text := text + Section(cat, cmds);
      j := j + 1;
    }
    assert cats[..j] == cats;
  }

  // ---------------------------------------------------------------------------
  // Unused helpers

  /** `cmd.config.role <= level`: an absent role and an object role compare as NaN, so never. */
  predicate WithinLevel(role: RoleSpec, level: int) {
    role.Level? && role.level <= level
  }

  function CountForLevel(cs: seq<CommandConfig>, level: int): nat
    decreases |cs|
  {
    if cs == [] then 0 else CountForLevel(cs[..|cs| - 1], level) + (if WithinLevel(cs[|cs| - 1].role, level) then 1 else 0)
  }

  /** `getCommandsForPermissionLevel`. */
  method CommandsForPermissionLevel(commands: Registry, level: int) returns (count: nat)
    ensures count == CountForLevel(Configs(commands), level)
  {
    count := 0;
    var i := 0;
    while i < |commands|
      invariant 0 <= i <= |commands|
      invariant count == CountForLevel(Configs(commands)[..i], level)
    {
      assert Configs(commands)[..i + 1][..i] == Configs(commands)[..i];
      if commands[i].1.config.role.Level? && commands[i].1.config.role.level <= level {
        count := count + 1;
      }
      i := i + 1;
    }
    assert Configs(commands)[..i] == Configs(commands);
  }

  /** A higher level may run at least as many commands, and never more than there are. */
  lemma {:induction false} CountMonotone(cs: seq<CommandConfig>, low: int, high: int)
    requires low <= high
    ensures CountForLevel(cs, low) <= CountForLevel(cs, high) <= |cs|
    decreases |cs|
  {
    if cs != [] {
      CountMonotone(cs[..|cs| - 1], low, high);
    }
  }

  /** A command is counted at a level exactly when it has a numeric role no higher than that level. */
  lemma {:induction false} CountAllIff(cs: seq<CommandConfig>, level: int)
    ensures CountForLevel(cs, level) == |cs| <==> forall i :: 0 <= i < |cs| ==> WithinLevel(cs[i].role, level)
    decreases |cs|
  {
    if cs != [] {
      var init := cs[..|cs| - 1];
      CountAllIff(init, level);
      CountMonotone(init, level, level);
      assert forall i :: 0 <= i < |init| ==> init[i] == cs[i];
    }
  }

  const Folder: string := "\U{1F4C1}"

  /** The emoji table of `getCategoryEmoji`. */
  const CategoryEmojis: map<string, string> := map[
    "admin" := "\U{2699}\U{FE0F}",
    "fun" := "\U{1F3AE}",
    "game" := "\U{1F3B2}",
    "group" := "\U{1F465}",
    "image" := "\U{1F5BC}\U{FE0F}",
    "media" := "\U{1F4F7}",
    "moderation" := "\U{1F6E1}\U{FE0F}",
    "money" := "\U{1F4B0}",
    "owner" := "\U{1F451}",
    "system" := "\U{1F916}",
    "tool" := "\U{1F527}",
    "utility" := "\U{1F6E0}\U{FE0F}",
    "uncategorized" := Folder
  ]

  /** What `getCategoryEmoji` returns: a string, or the inherited member the lookup finds. */
  datatype EmojiValue = EmojiText(text: string) | InheritedMember(name: string)

  /** `emojis[category] || '📁'`: an inherited member is truthy, so it is returned as it is. */
  function CategoryEmoji(category: string): EmojiValue {
    if category in CategoryEmojis && CategoryEmojis[category] != "" then EmojiText(CategoryEmojis[category])
    else if category in InheritedNames then InheritedMember(category)
    else EmojiText(Folder)
  }

  /**
   * A category in the table gets its entry; an inherited property name gets that member,
   * not a string; any other category gets the folder, the same emoji as `uncategorized`.
   */
  lemma CategoryEmojiRules(category: string)
    ensures category in CategoryEmojis ==> CategoryEmoji(category) == EmojiText(CategoryEmojis[category])
    ensures category in InheritedNames ==> CategoryEmoji(category) == InheritedMember(category)
    ensures category !in CategoryEmojis && category !in InheritedNames ==>
      CategoryEmoji(category) == CategoryEmoji("uncategorized") == EmojiText(Folder)
    ensures CategoryEmoji(category).EmojiText? ==> CategoryEmoji(category).text != ""
  {
    assert "uncategorized" in CategoryEmojis && "uncategorized" !in InheritedNames;
    assert category in CategoryEmojis ==> category !in InheritedNames;
  }

  /** `s.charAt(0).toUpperCase() + s.slice(1)`, for ASCII letters. */
  function CapitalizeFirstLetter(s: string): string {
    if s == [] then [] else [UpperChar(s[0])] + s[1..]
  }

  /** Only the first character changes, it becomes upper case, and capitalising twice is capitalising once. */
  lemma CapitalizeRules(s: string)
    ensures |CapitalizeFirstLetter(s)| == |s|
    ensures s != [] ==> CapitalizeFirstLetter(s)[1..] == s[1..] && !('a' <= CapitalizeFirstLetter(s)[0] <= 'z')
    ensures s != [] && 'a' <= s[0] <= 'z' ==> CapitalizeFirstLetter(s)[0] as int == s[0] as int - 32
    ensures CapitalizeFirstLetter(CapitalizeFirstLetter(s)) == CapitalizeFirstLetter(s)
  {
    if s != [] {
      var r := CapitalizeFirstLetter(s);
      assert r[0] == UpperChar(s[0]) && r[1..] == s[1..];
      assert UpperChar(UpperChar(s[0])) == UpperChar(s[0]);
    }
  }
}
