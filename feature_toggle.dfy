/**
 * commands/featureToggle.js: the `feature-toggle` command, which lists eight known
 * feature flags or switches one of them in `global.features`. The `{prefix}` in its
 * texts is sent literally.
 */
module FeatureToggle {
  import opened Options
  import opened JsStrings

  datatype Feature = Feature(key: string, desc: string)

  /** `availableFeatures`, in listing order. */
  const AvailableFeatures: seq<Feature> := [
    Feature("antiSpam", "Anti-spam protection"),
    Feature("autoModeration", "Automatic moderation"),
    Feature("analytics", "Usage analytics"),
    Feature("commandCooldowns", "Command cooldowns"),
    Feature("eventLogging", "Event logging"),
    Feature("typingIndicator", "Typing indicator"),
    Feature("autoRecovery", "Auto-recovery on crash/memory"),
    Feature("githubSync", "GitHub data sync")
  ]

  /** `global.features`: a flag counts as enabled when it is present and true. */
  type Flags = map<string, bool>

  predicate Enabled(features: Flags, key: string) {
    key in features && features[key]
  }

  const EnabledText: string := "\U{1F7E2} enabled"
  const DisabledText: string := "\U{1F534} disabled"

  function StatusText(on: bool): string {
    if on then EnabledText else DisabledText
  }

  /** One line of the listing: bullet, key padded to 16, status, dash, description. */
  function FeatureLine(f: Feature, features: Flags): string {
    "\U{2022} " + PadEnd(f.key, 16) + " " + StatusText(Enabled(features, f.key)) + "  \U{2014}  " + f.desc
  }

  function FeatureLines(fs: seq<Feature>, features: Flags): (lines: seq<string>)
    ensures |lines| == |fs|
    ensures forall i :: 0 <= i < |fs| ==> lines[i] == FeatureLine(fs[i], features)
  {
    seq(|fs|, i requires 0 <= i < |fs| => FeatureLine(fs[i], features))
  }

  const PanelHeader: string := "Feature Toggle Panel\n----------------------\n\nLegend: \U{1F7E2} = enabled, \U{1F534} = disabled\n\n"
  const PanelFooter: string := "\n\nTo enable:   {prefix}feature-toggle <feature-name> enable\nTo disable:  {prefix}feature-toggle <feature-name> disable\n\nExample:\n  !feature-toggle analytics enable\n  !feature-toggle autoModeration disable\n"

  /** The listing sent for no argument or `list`: a header, one line per feature, then the usage lines. */
  function Panel(fs: seq<Feature>, features: Flags): string {
    PanelHeader + Join(FeatureLines(fs, features), "\n") + PanelFooter
  }

  /**
   * The listing marks a feature with the green circle exactly when its flag is present and
   * true, and with the red circle exactly when it is not.
   */
  lemma LineShowsStatus(f: Feature, features: Flags)
    ensures var k := 2 + |PadEnd(f.key, 16)| + 1;
      && k < |FeatureLine(f, features)|
      && (FeatureLine(f, features)[k] == '\U{1F7E2}' <==> Enabled(features, f.key))
      && (FeatureLine(f, features)[k] == '\U{1F534}' <==> !Enabled(features, f.key))
  {
    var head := "\U{2022} " + PadEnd(f.key, 16) + " ";
    var st := StatusText(Enabled(features, f.key));
    assert FeatureLine(f, features) == head + st + ("  \U{2014}  " + f.desc);
    assert (head + st + ("  \U{2014}  " + f.desc))[|head|] == st[0];
    assert EnabledText[0] == '\U{1F7E2}' && DisabledText[0] == '\U{1F534}';
  }

  /** `availableFeatures.find(f => f.key === featureName)`. */
  function FindFeature(fs: seq<Feature>, name: string): (r: Option<Feature>)
    ensures r.None? <==> forall i :: 0 <= i < |fs| ==> fs[i].key != name
    ensures r.Some? ==> r.value in fs && r.value.key == name
    decreases |fs|
  {
    if fs == [] then None else if fs[0].key == name then Some(fs[0]) else FindFeature(fs[1..], name)
  }

  const UnknownOpen: string := "Unknown feature: \""
  const UnknownClose: string := "\".\nType {prefix}feature-toggle or {prefix}feature-toggle list to see all features."

  function UnknownFeature(name: string): string {
    UnknownOpen + name + UnknownClose
  }

  const InvalidAction: string := "Invalid action. Usage: {prefix}feature-toggle <feature-name> <enable|disable>"

  const SwitchedOpen: string := "Feature \""
  const SwitchedIsNow: string := "\" is now "
  const SwitchedDesc: string := ".\n("

  function Switched(name: string, on: bool, desc: string): string {
    SwitchedOpen + name + SwitchedIsNow + StatusText(on) + SwitchedDesc + desc + ")"
  }

  /** The message sent and the flags afterwards. */
  datatype Outcome = Outcome(message: string, features: Flags)

  /** `args[0]` is missing or empty. */
  predicate NoFeatureArg(args: seq<string>) {
    |args| == 0 || args[0] == ""
  }

  /** `args[1] && args[1].toLowerCase()`, with a missing argument and the empty one both becoming "". */
  function Action(args: seq<string>): string {
    if |args| > 1 then ToLower(args[1]) else ""
  }

  /** `execute` over the feature table `fs` (always `AvailableFeatures`). */
  function Toggle(fs: seq<Feature>, args: seq<string>, features: Flags): Outcome {
    if NoFeatureArg(args) || args[0] == "list" then Outcome(Panel(fs, features), features)
    else
      var name := args[0];
      match FindFeature(fs, name)
      case None => Outcome(UnknownFeature(name), features)
      case Some(f) =>
        var action := Action(args);
        if action != "enable" && action != "disable" then Outcome(InvalidAction, features)
        else Outcome(Switched(name, action == "enable", f.desc), features[name := action == "enable"])
  }

  predicate DistinctKeys(fs: seq<Feature>) {
    forall i, j :: 0 <= i < j < |fs| ==> fs[i].key != fs[j].key
  }

  /** What is sent: the panel, the unknown-feature error, the usage error, or the confirmation. */
  lemma ToggleMessages(fs: seq<Feature>, args: seq<string>, features: Flags)
    ensures var o := Toggle(fs, args, features);
      && (NoFeatureArg(args) || args[0] == "list" ==> o == Outcome(Panel(fs, features), features))
      && ((!NoFeatureArg(args) && args[0] != "list" && forall i :: 0 <= i < |fs| ==> fs[i].key != args[0])
            ==> o == Outcome(UnknownFeature(args[0]), features))
      && ((!NoFeatureArg(args) && args[0] != "list" && FindFeature(fs, args[0]).Some?
           && Action(args) != "enable" && Action(args) != "disable")
            ==> o == Outcome(InvalidAction, features))
      && ((!NoFeatureArg(args) && args[0] != "list" && FindFeature(fs, args[0]).Some?
           && (Action(args) == "enable" || Action(args) == "disable"))
            ==> o.message == Switched(args[0], Action(args) == "enable", FindFeature(fs, args[0]).value.desc))
  {
    if !NoFeatureArg(args) && args[0] != "list" {
      var r := FindFeature(fs, args[0]);
      if r.None? {
        ToggleUnknown(fs, args, features);
      } else {
        ToggleKnown(fs, args, features, r.value);
      }
    }
  }

  lemma ToggleUnknown(fs: seq<Feature>, args: seq<string>, features: Flags)
    requires !NoFeatureArg(args) && args[0] != "list" && FindFeature(fs, args[0]).None?
    ensures Toggle(fs, args, features) == Outcome(UnknownFeature(args[0]), features)
  {
  }

  lemma ToggleKnown(fs: seq<Feature>, args: seq<string>, features: Flags, f: Feature)
    requires !NoFeatureArg(args) && args[0] != "list" && FindFeature(fs, args[0]) == Some(f)
    ensures var o := Toggle(fs, args, features);
      && (Action(args) != "enable" && Action(args) != "disable" ==> o == Outcome(InvalidAction, features))
      && (Action(args) == "enable" || Action(args) == "disable" ==> o.message == Switched(args[0], Action(args) == "enable", f.desc))
  {
  }

  /**
   * Only a known feature name followed by `enable` or `disable` (in any case) changes
   * anything, and it changes that one flag: on for `enable`, off for `disable`.
   */
  lemma ToggleFlags(fs: seq<Feature>, args: seq<string>, features: Flags)
    ensures var o := Toggle(fs, args, features);
      && (o.features != features <==>
            (!NoFeatureArg(args) && args[0] != "list" && FindFeature(fs, args[0]).Some?
             && (Action(args) == "enable" || Action(args) == "disable")
             && (args[0] !in features || features[args[0]] != (Action(args) == "enable"))))
      && (o.features != features ==> o.features == features[args[0] := Action(args) == "enable"])
      && (forall k :: k in features && (NoFeatureArg(args) || k != args[0]) ==> k in o.features && o.features[k] == features[k])
  {
  }

  lemma ToLowerIdempotent(s: string)
    ensures ToLower(ToLower(s)) == ToLower(s)
  {
    var t := ToLower(s);
    assert forall i :: 0 <= i < |s| ==> ToLower(t)[i] == t[i];
  }

  /** A command is insensitive to the case of its action word. */
  lemma ActionCaseInsensitive(fs: seq<Feature>, name: string, action: string, features: Flags)
    ensures Toggle(fs, [name, action], features) == Toggle(fs, [name, ToLower(action)], features)
  {
    ToLowerIdempotent(action);
    assert Action([name, ToLower(action)]) == Action([name, action]);
  }

  /** In a table without repeated keys, every key finds its own entry. */
  lemma {:induction false} FindFeatureOwnKey(fs: seq<Feature>, i: nat)
    requires DistinctKeys(fs) && i < |fs|
    ensures FindFeature(fs, fs[i].key) == Some(fs[i])
    decreases i
  {
    if i > 0 {
      assert fs[0].key != fs[i].key;
      assert fs[1..][i - 1] == fs[i];
      FindFeatureOwnKey(fs[1..], i - 1);
    }
  }

  /** The eight keys are distinct and none of them is `list`. */
  lemma AvailableFeaturesWellFormed()
    ensures DistinctKeys(AvailableFeatures)
    ensures forall i :: 0 <= i < |AvailableFeatures| ==> AvailableFeatures[i].key != "list"
  {
    var fs := AvailableFeatures;
    assert |fs[0].key| == 8 && |fs[1].key| == 14 && |fs[2].key| == 9 && |fs[3].key| == 16;
    assert |fs[4].key| == 12 && |fs[5].key| == 15 && |fs[6].key| == 12 && |fs[7].key| == 10;
    assert fs[4].key[0] == 'e' && fs[6].key[0] == 'a';
  }

  /** After switching a known feature, its listing line shows the new status; the other lines are as before. */
  lemma ToggleThenList(fs: seq<Feature>, i: nat, action: string, features: Flags)
    requires DistinctKeys(fs) && i < |fs| && fs[i].key != "" && fs[i].key != "list"
    requires ToLower(action) == "enable" || ToLower(action) == "disable"
    ensures var after := Toggle(fs, [fs[i].key, action], features).features;
      && Enabled(after, fs[i].key) == (ToLower(action) == "enable")
      && FeatureLine(fs[i], after)
         == "\U{2022} " + PadEnd(fs[i].key, 16) + " " + StatusText(ToLower(action) == "enable") + "  \U{2014}  " + fs[i].desc
      && forall j :: 0 <= j < |fs| && j != i ==> FeatureLine(fs[j], after) == FeatureLine(fs[j], features)
  {
    FindFeatureOwnKey(fs, i);
    assert Action([fs[i].key, action]) == ToLower(action);
  }

  /** `global.features`, shared by every run of the command. */
  class FeatureFlags {
    /** `availableFeatures`. */
    const table: seq<Feature>
    var features: Flags

    /** `global.features = global.features || {}` on a first run. */
    constructor()
      ensures table == AvailableFeatures && features == map[]
    {
      table := AvailableFeatures;
      features := map[];
    }

    /** `execute`: the message sent; `features` is updated in place. */
    method Execute(args: seq<string>) returns (message: string)
      modifies this
      ensures Outcome(message, features) == Toggle(table, args, old(features))
    {
      if |args| == 0 || args[0] == "" || args[0] == "list" {
        return Panel(table, features);
      }
      var featureName := args[0];
      var action := if |args| > 1 then ToLower(args[1]) else "";
      var featureObj := FindFeature(table, featureName);
      if featureObj.None? {
        return UnknownFeature(featureName);
      }
      if action != "enable" && action != "disable" {
        return InvalidAction;
      }
      features := features[featureName := action == "enable"];
      return Switched(featureName, action == "enable", featureObj.value.desc);
    }
  }
}
