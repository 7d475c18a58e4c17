/**
 * nexus-core/configLoader.js: the default configuration, the recursive `deepMerge` of
 * the file's values over it, the cached `load`, `save`, and the editing of the
 * `adminIDs` list. JSON values are a datatype; numbers are integers and the order of an
 * object's keys is not represented.
 */
module ConfigLoader {
  import opened Options
  import opened JsStrings

  datatype Json =
    | JNull
    | JBool(b: bool)
    | JNum(n: int)
    | JStr(s: string)
    | JArr(items: seq<Json>)
    | JObj(fields: map<string, Json>)

  /** `isObject`: a plain object; arrays, null and primitives are not. */
  predicate IsObject(j: Json) {
    j.JObj?
  }

  /** JavaScript truthiness of a JSON value. */
  predicate Truthy(j: Json) {
    match j
    case JNull => false
    case JBool(b) => b
    case JNum(n) => n != 0
    case JStr(s) => s != ""
    case JArr(_) => true
    case JObj(_) => true
  }

  /** The own enumerable properties of an array or string: its elements under their decimal indices. */
  function IndexFields(xs: seq<Json>): (m: map<string, Json>)
    ensures forall i :: 0 <= i < |xs| ==> NatToString(i) in m && m[NatToString(i)] == xs[i]
    decreases |xs|
  {
    if xs == [] then map[]
    else
      var init := IndexFields(xs[..|xs| - 1]);
      assert forall i :: 0 <= i < |xs| - 1 ==> xs[..|xs| - 1][i] == xs[i];
      assert forall i :: 0 <= i < |xs| - 1 ==> NatToString(i) != NatToString(|xs| - 1) by {
        forall i | 0 <= i < |xs| - 1 {
          NatToStringInjective(i, |xs| - 1);
        }
      }
      init[NatToString(|xs| - 1) := xs[|xs| - 1]]
  }

  function CharStrings(s: string): (r: seq<Json>)
    ensures |r| == |s| && forall i :: 0 <= i < |s| ==> r[i] == JStr([s[i]])
  {
    seq(|s|, i requires 0 <= i < |s| => JStr([s[i]]))
  }

  /** `{ ...x }`: a shallow copy as a plain object. */
  function Spread(j: Json): (r: Json)
    ensures IsObject(r)
    ensures IsObject(j) ==> r == j
  {
    match j
    case JObj(m) => JObj(m)
    case JArr(xs) => JObj(IndexFields(xs))
    case JStr(s) => JObj(IndexFields(CharStrings(s)))
    case _ => JObj(map[])
  }

  /**
   * `deepMerge(target, source)`. When both are plain objects, each key of `source`
   * overrides `target`: a plain-object value is merged into the target's value under
   * that key if there is one, any other value replaces it. Otherwise the result is a
   * shallow copy of `target`.
   */
  function DeepMerge(target: Json, source: Json): Json
    decreases source
  {
    if IsObject(target) && IsObject(source) then
      var t, s := target.fields, source.fields;
      JObj(map k | k in t.Keys + s.Keys ::
        if k in s then
          if IsObject(s[k]) && k in t then DeepMerge(t[k], s[k]) else s[k]
        else t[k])
    else Spread(target)
  }

  /** `defaultConfig`. */
  const Defaults: Json := JObj(map[
    "prefix" := JStr("!"),
    "adminIDs" := JArr([JStr("100072936185948")]),
    "name" := JStr("Nexus"),
    "version" := JStr("1.1.1"),
    "auth" := JObj(map[
      "appstatePath" := JStr("appstate.json"),
      "forceLogin" := JBool(false),
      "userAgent" := JStr("Mozilla/5.0 (Windows NT 10.0; Win64; x64) AppleWebKit/537.36 (KHTML, like Gecko) Chrome/114.0.0.0 Safari/537.36")]),
    "database" := JObj(map[
      "backupInterval" := JNum(86400000),
      "backupPath" := JStr("database/backup")]),
    "logging" := JObj(map[
      "level" := JStr("info"),
      "logToConsole" := JBool(true),
      "logToFile" := JBool(true),
      "logPath" := JStr("logs")])])

  // ---------------------------------------------------------------------------
  // deepMerge, key by key

  /** Keys of either side appear in the merge, and no others. */
  lemma MergeKeys(t: Json, s: Json)
    requires IsObject(t) && IsObject(s)
    ensures IsObject(DeepMerge(t, s)) && DeepMerge(t, s).fields.Keys == t.fields.Keys + s.fields.Keys
  {
  }

  /**
   * A source value that is not a plain object (arrays included) appears as it is; a
   * plain-object source value is merged into the target's value when the target has the
   * key and copied in when it has not; keys only the target has keep their values.
   */
  lemma MergeValues(t: Json, s: Json, k: string)
    requires IsObject(t) && IsObject(s)
    ensures k in s.fields && !IsObject(s.fields[k]) ==> DeepMerge(t, s).fields[k] == s.fields[k]
    ensures k in s.fields && IsObject(s.fields[k]) && k !in t.fields ==> DeepMerge(t, s).fields[k] == s.fields[k]
    ensures k in s.fields && IsObject(s.fields[k]) && k in t.fields ==>
      DeepMerge(t, s).fields[k] == DeepMerge(t.fields[k], s.fields[k])
    ensures k in t.fields && k !in s.fields ==> DeepMerge(t, s).fields[k] == t.fields[k]
  {
  }

  /** With either argument not a plain object the result is a shallow copy of the target. */
  lemma MergeNonObject(t: Json, s: Json)
    requires !IsObject(t) || !IsObject(s)
    ensures DeepMerge(t, s) == Spread(t)
    ensures IsObject(t) ==> DeepMerge(t, s) == t
  {
  }

  /** Merging an object into itself gives it back. */
  lemma {:induction false} MergeIdempotent(x: Json)
    requires IsObject(x)
    ensures DeepMerge(x, x) == x
    decreases x
  {
    var m := x.fields;
    forall k | k in m && IsObject(m[k]) ensures DeepMerge(m[k], m[k]) == m[k] {
      MergeIdempotent(m[k]);
    }
    assert DeepMerge(x, x).fields == m;
  }

  /** Merging over `{}` copies the source; merging `{}` over an object copies the target. */
  lemma MergeWithEmpty(x: Json)
    requires IsObject(x)
    ensures DeepMerge(JObj(map[]), x) == x
    ensures DeepMerge(x, JObj(map[])) == x
  {
    assert DeepMerge(JObj(map[]), x).fields == x.fields;
    assert DeepMerge(x, JObj(map[])).fields == x.fields;
  }

  // ---------------------------------------------------------------------------
  // deepMerge, along a path

  /** `j[path[0]][path[1]]...`, when every step is a key of a plain object. */
  function Lookup(j: Json, path: seq<string>): Option<Json>
    decreases |path|
  {
    if path == [] then Some(j)
    else if j.JObj? && path[0] in j.fields then Lookup(j.fields[path[0]], path[1..])
    else None
  }

  /** Along `path`, the target holds nothing but plain objects where it holds anything at all. */
  predicate ObjectsAlong(t: Json, path: seq<string>)
    decreases |path|
  {
    |path| <= 1 ||
    (t.JObj? && (path[0] in t.fields ==> IsObject(t.fields[path[0]]) && ObjectsAlong(t.fields[path[0]], path[1..])))
  }

  /** The source sets nothing at `path`: each step is missing, or a plain object silent further down. */
  predicate SilentAt(s: Json, path: seq<string>)
    requires |path| >= 1
    decreases |path|
  {
    s.JObj? &&
    (path[0] !in s.fields ||
     (|path| > 1 && IsObject(s.fields[path[0]]) && SilentAt(s.fields[path[0]], path[1..])))
  }

  /**
   * File values take precedence: a leaf the source defines is the leaf of the merge,
   * provided the target has no non-object value on the way to it.
   */
  lemma {:induction false} SourceLeafWins(t: Json, s: Json, path: seq<string>)
    requires IsObject(t) && IsObject(s) && path != []
    requires Lookup(s, path).Some? && !IsObject(Lookup(s, path).value)
    requires ObjectsAlong(t, path)
    ensures Lookup(DeepMerge(t, s), path) == Lookup(s, path)
    decreases |path|
  {
    var k := path[0];
    MergeValues(t, s, k);
    if |path| > 1 {
      var sk := s.fields[k];
      assert Lookup(s, path) == Lookup(sk, path[1..]);
      if k in t.fields {
        SourceLeafWins(t.fields[k], sk, path[1..]);
      }
    }
  }

  /** Where the source is silent the target's value survives the merge. */
  lemma {:induction false} TargetKeptWhereSourceSilent(t: Json, s: Json, path: seq<string>)
    requires IsObject(t) && path != []
    requires Lookup(t, path).Some?
    requires SilentAt(s, path)
    ensures Lookup(DeepMerge(t, s), path) == Lookup(t, path)
    decreases |path|
  {
    var k := path[0];
    MergeValues(t, s, k);
    if k in s.fields {
      var tk := t.fields[k];
      assert Lookup(tk, path[1..]).Some?;
      TargetKeptWhereSourceSilent(tk, s.fields[k], path[1..]);
    }
  }

  /**
   * A plain object in the source under a key whose target value is not a plain object is
   * not merged at all: the recursion spreads the target value, so numbers, booleans and null
   * give `{}`, and strings and arrays give their elements under index keys.
   */
  lemma ObjectOverScalar(t: Json, s: Json, k: string)
    requires IsObject(t) && IsObject(s) && k in t.fields && k in s.fields
    requires IsObject(s.fields[k]) && !IsObject(t.fields[k])
    ensures DeepMerge(t, s).fields[k] == Spread(t.fields[k])
    ensures t.fields[k].JNum? || t.fields[k].JBool? || t.fields[k].JNull? ==> DeepMerge(t, s).fields[k] == JObj(map[])
    ensures t.fields[k].JStr? ==>
      var str, r := t.fields[k].s, DeepMerge(t, s).fields[k];
      r.JObj? && forall i :: 0 <= i < |str| ==> NatToString(i) in r.fields && r.fields[NatToString(i)] == JStr([str[i]])
    ensures t.fields[k].JArr? ==>
      var xs, r := t.fields[k].items, DeepMerge(t, s).fields[k];
      r.JObj? && forall i :: 0 <= i < |xs| ==> NatToString(i) in r.fields && r.fields[NatToString(i)] == xs[i]
  {
    assert DeepMerge(t, s).fields[k] == DeepMerge(t.fields[k], s.fields[k]);
  }

  /**
   * A plain object in the file under a key whose default is not an object is lost:
   * the merge recurses into the default, which is not an object, and yields `{}`.
   */
  lemma ObjectOverScalarIsDropped()
    ensures DeepMerge(JObj(map["a" := JNum(5)]), JObj(map["a" := JObj(map["b" := JNum(1)])]))
         == JObj(map["a" := JObj(map[])])
  {
    var t, s := JObj(map["a" := JNum(5)]), JObj(map["a" := JObj(map["b" := JNum(1)])]);
    assert DeepMerge(t.fields["a"], s.fields["a"]) == JObj(map[]);
    assert DeepMerge(t, s).fields == map["a" := JObj(map[])];
  }

  // ---------------------------------------------------------------------------
  // The admin list

  /** `array.indexOf(x)`: the first index holding `x`, or -1. */
  function IndexOf(xs: seq<Json>, x: Json): (r: int)
    ensures -1 <= r < |xs|
    ensures r == -1 <==> x !in xs
    ensures r >= 0 ==> xs[r] == x && forall j :: 0 <= j < r ==> xs[j] != x
    decreases |xs|
  {
    if xs == [] then -1
    else if xs[0] == x then 0
    else
      var r := IndexOf(xs[1..], x);
      if r == -1 then -1 else r + 1
  }

  /** `array.includes(id)` then `push(id)`: an id already present is not added again. */
  function AddId(xs: seq<Json>, id: string): seq<Json> {
    if JStr(id) in xs then xs else xs + [JStr(id)]
  }

  /** `indexOf(id)` then `splice(index, 1)` when found. */
  function RemoveFirst(xs: seq<Json>, id: string): seq<Json> {
    var i := IndexOf(xs, JStr(id));
    if i == -1 then xs else xs[..i] + xs[i + 1..]
  }

  /**
   * On any list, even one that holds the id twice: a present id leaves the list unchanged,
   * a new one goes at the end, and no other element changes how often it occurs.
   */
  lemma AddIdShape(xs: seq<Json>, id: string)
    ensures JStr(id) in xs ==> AddId(xs, id) == xs
    ensures JStr(id) !in xs ==> AddId(xs, id) == xs + [JStr(id)]
    ensures JStr(id) in AddId(xs, id)
    ensures multiset(AddId(xs, id)) - multiset{JStr(id)} == multiset(xs) - multiset{JStr(id)}
  {
  }

  /** Adding never duplicates: afterwards the id occurs exactly once if it occurred at most once before. */
  lemma AddIdNoDuplicate(xs: seq<Json>, id: string)
    requires multiset(xs)[JStr(id)] <= 1
    ensures multiset(AddId(xs, id))[JStr(id)] == 1
  {
  }

  /**
   * Removing deletes the first occurrence only: the elements before it differ from the
   * id, everything after it stays in order, and exactly one copy leaves the multiset.
   */
  lemma RemoveFirstOccurrence(xs: seq<Json>, id: string)
    ensures JStr(id) !in xs ==> RemoveFirst(xs, id) == xs
    ensures JStr(id) in xs ==>
      exists i :: 0 <= i < |xs| && xs[i] == JStr(id) && (forall j :: 0 <= j < i ==> xs[j] != JStr(id))
        && RemoveFirst(xs, id) == xs[..i] + xs[i + 1..]
    ensures multiset(RemoveFirst(xs, id)) == multiset(xs) - multiset{JStr(id)}
  {
    var i := IndexOf(xs, JStr(id));
    if i != -1 {
      var pre, post := xs[..i], xs[i + 1..];
      assert xs == pre + [xs[i]] + post;
      assert RemoveFirst(xs, id) == pre + post;
      assert multiset(xs) == multiset(pre) + multiset{JStr(id)} + multiset(post);
      assert multiset(pre + post) == multiset(pre) + multiset(post);
    }
  }

  /** What an edit of the `adminIDs` list does to the config object. */
  datatype Edit = Unchanged | Changed(fields: map<string, Json>) | Crash

  /**
   * `addAdmin` on a loaded config: a missing or falsy list becomes `[]` and gets the id;
   * an array gets the id unless it includes it; a string that contains the id as a
   * substring counts as including it, and `push` on one that does not throws, as do
   * `includes` on any other value.
   */
  function AddAdminTo(fields: map<string, Json>, id: string): Edit {
    var ids := if "adminIDs" in fields && Truthy(fields["adminIDs"]) then fields["adminIDs"] else JArr([]);
    match ids
    case JArr(xs) =>
      if JStr(id) in xs then Unchanged else Changed(fields["adminIDs" := JArr(AddId(xs, id))])
    case JStr(s) => if Contains(s, id) then Unchanged else Crash
    case _ => Crash
  }

  /**
   * `removeAdmin` on a loaded config: nothing to do for a missing or falsy list; an array
   * loses its first occurrence of the id; `indexOf` on a string finds substrings, and
   * `splice` on it throws when one is found; any other value throws.
   */
  function RemoveAdminFrom(fields: map<string, Json>, id: string): Edit {
    if "adminIDs" !in fields || !Truthy(fields["adminIDs"]) then Unchanged
    else
      match fields["adminIDs"]
      case JArr(xs) =>
        if JStr(id) !in xs then Unchanged else Changed(fields["adminIDs" := JArr(RemoveFirst(xs, id))])
      case JStr(s) => if Contains(s, id) then Crash else Unchanged
      case _ => Crash
  }

  /** An array list: adding changes only `adminIDs`, which then holds the id exactly as `AddId` says. */
  lemma AddAdminToArray(fields: map<string, Json>, id: string)
    requires "adminIDs" !in fields || !Truthy(fields["adminIDs"]) || fields["adminIDs"].JArr?
    ensures AddAdminTo(fields, id).Crash? == false
    ensures var xs := if "adminIDs" in fields && Truthy(fields["adminIDs"]) then fields["adminIDs"].items else [];
      match AddAdminTo(fields, id)
      case Unchanged => JStr(id) in xs
      case Changed(f) => JStr(id) !in xs && f == fields["adminIDs" := JArr(xs + [JStr(id)])]
      case Crash => false
  {
  }

  /** An array list: removing an absent id changes nothing; a present one changes only `adminIDs`. */
  lemma RemoveAdminFromArray(fields: map<string, Json>, id: string)
    requires "adminIDs" in fields && fields["adminIDs"].JArr?
    ensures var xs := fields["adminIDs"].items;
      match RemoveAdminFrom(fields, id)
      case Unchanged => JStr(id) !in xs
      case Changed(f) => JStr(id) in xs && f.Keys == fields.Keys
                         && (forall k :: k in fields && k != "adminIDs" ==> f[k] == fields[k])
                         && f["adminIDs"] == JArr(RemoveFirst(xs, id))
      case Crash => false
  {
  }

  // ---------------------------------------------------------------------------
  // The cached store

  /** `config.json` as `load` finds it: absent, unparsable, or holding a JSON value. */
  datatype Disk = Missing | Unreadable | Stored(json: Json)

  datatype Store = Store(disk: Disk, cache: Option<Json>)

  /** What `load` returns, whether that object is the cache, and the store afterwards. */
  datatype Loaded = Loaded(config: Json, isCache: bool, store: Store)

  /** `load(reload)`; `writable` says whether writing the file succeeds. */
  function LoadSpec(st: Store, reload: bool, writable: bool): Loaded {
    if st.cache.Some? && !reload then Loaded(st.cache.value, true, st)
    else
      match st.disk
      case Missing =>
        if writable then Loaded(Spread(Defaults), true, Store(Stored(Defaults), Some(Spread(Defaults))))
        else Loaded(Defaults, false, st)
      case Unreadable => Loaded(Defaults, false, st)
      case Stored(j) =>
        var merged := DeepMerge(Defaults, j);
        Loaded(merged, true, Store(st.disk, Some(merged)))
  }

  /** `save(config)`: `true` with the file written and a shallow copy cached, `false` with nothing changed. */
  function SaveSpec(st: Store, config: Json, writable: bool): (bool, Store) {
    if writable then (true, Store(Stored(config), Some(Spread(config)))) else (false, st)
  }

  /** The result of `addAdmin`/`removeAdmin`, or an exception escaping it. */
  datatype AdminResult = Done(ok: bool) | Crashed

  /**
   * One admin-list edit on the loaded config. `loadWritable` decides the default-file write
   * inside `load`, `saveWritable` the write inside `save`. The loaded object is edited in
   * place, so an edit of the cached object reaches the cache even when the save that
   * follows fails.
   */
  function EditSpec(st: Store, edit: Json -> Edit, loadWritable: bool, saveWritable: bool): (AdminResult, Store) {
    var l := LoadSpec(st, false, loadWritable);
    var fields := if l.config.JObj? then l.config.fields else map[];
    match edit(JObj(fields))
    case Crash => (Crashed, l.store)
    case Unchanged => (Done(true), l.store)
    case Changed(f) =>
      var edited := if l.isCache then l.store.(cache := Some(JObj(f))) else l.store;
      var (ok, st') := SaveSpec(edited, JObj(f), saveWritable);
      (Done(ok), st')
  }

  function AddEdit(id: string): Json -> Edit {
    (j: Json) => if j.JObj? then AddAdminTo(j.fields, id) else Crash
  }

  function RemoveEdit(id: string): Json -> Edit {
    (j: Json) => if j.JObj? then RemoveAdminFrom(j.fields, id) else Crash
  }

  /** The cache only ever holds plain objects. */
  ghost predicate CacheIsObject(st: Store) {
    st.cache.Some? ==> IsObject(st.cache.value)
  }

  /** `load` always yields a plain object, and keeps the cache one. */
  lemma LoadYieldsObject(st: Store, reload: bool, writable: bool)
    requires CacheIsObject(st)
    ensures IsObject(LoadSpec(st, reload, writable).config)
    ensures CacheIsObject(LoadSpec(st, reload, writable).store)
    ensures LoadSpec(st, reload, writable).isCache ==> LoadSpec(st, reload, writable).store.cache == Some(LoadSpec(st, reload, writable).config)
  {
    var l := LoadSpec(st, reload, writable);
    if st.disk.Stored? && !(st.cache.Some? && !reload) {
      assert IsObject(Defaults);
    }
  }

  /**
   * A cached config is returned without looking at the file; after a load that cached
   * its result, a second `load()` returns that same value, whatever the file now holds.
   */
  lemma LoadServesCache(st: Store, reload: bool, writable: bool, disk: Disk, writable2: bool)
    ensures st.cache.Some? && !reload ==> LoadSpec(st, reload, writable) == Loaded(st.cache.value, true, st)
    ensures var l := LoadSpec(st, reload, writable);
      l.isCache ==> LoadSpec(l.store.(disk := disk), false, writable2).config == l.config
  {
  }

  /** A readable file is merged over the defaults, its values taking precedence. */
  lemma LoadMergesFile(st: Store, j: Json, writable: bool)
    requires st.disk == Stored(j)
    ensures LoadSpec(st, true, writable).config == DeepMerge(Defaults, j)
    ensures IsObject(j) ==> forall k :: k in j.fields && !IsObject(j.fields[k]) ==>
      LoadSpec(st, true, writable).config.fields[k] == j.fields[k]
  {
    if IsObject(j) {
      forall k | k in j.fields && !IsObject(j.fields[k])
        ensures DeepMerge(Defaults, j).fields[k] == j.fields[k]
      {
        MergeValues(Defaults, j, k);
      }
    }
  }

  /**
   * The two writes fail independently. On a first run the defaults are written and cached;
   * if the `save` after adding a new admin then fails, `addAdmin` reports `false`, the file
   * keeps the defaults, and the cache keeps the edited object.
   */
  lemma AddAdminAfterDefaultWriteSaveFails(id: string)
    requires id != "100072936185948"
    ensures var (result, st) := EditSpec(Store(Missing, None), AddEdit(id), true, false);
      && result == Done(false)
      && st.disk == Stored(Defaults)
      && st.cache == Some(JObj(Defaults.fields["adminIDs" := JArr([JStr("100072936185948"), JStr(id)])]))
  {
    var xs := [JStr("100072936185948")];
    assert Defaults.fields["adminIDs"] == JArr(xs);
    assert JStr(id) !in xs;
    assert AddId(xs, id) == [JStr("100072936185948"), JStr(id)];
  }

  /** The module-level state: the file and `cachedConfig`. */
  class ConfigStore {
    var disk: Disk
    var cachedConfig: Option<Json>

    function State(): Store
      reads this
    {
      Store(disk, cachedConfig)
    }

    ghost predicate Valid()
      reads this
    {
      CacheIsObject(State())
    }

    constructor(disk: Disk)
      ensures State() == Store(disk, None) && Valid()
    {
      this.disk := disk;
      cachedConfig := None;
    }

    /** `load(reload)`. */
    method Load(reload: bool, writable: bool) returns (config: Json, isCache: bool)
      requires Valid()
      modifies this
      ensures Valid()
      ensures Loaded(config, isCache, State()) == LoadSpec(old(State()), reload, writable)
    {
      LoadYieldsObject(State(), reload, writable);
      if cachedConfig.Some? && !reload {
        return cachedConfig.value, true;
      }
      match disk {
        case Missing =>
          if !writable {
            return Defaults, false;
          }
          disk := Stored(Defaults);
          cachedConfig := Some(Spread(Defaults));
          return cachedConfig.value, true;
        case Unreadable =>
          return Defaults, false;
        case Stored(j) =>
          cachedConfig := Some(DeepMerge(Defaults, j));
          return cachedConfig.value, true;
      }
    }

    /** `save(config)`. */
    method Save(config: Json, writable: bool) returns (ok: bool)
      modifies this
      ensures (ok, State()) == SaveSpec(old(State()), config, writable)
      ensures old(Valid()) ==> Valid()
    {
      if !writable {
        return false;
      }
      disk := Stored(config);
      cachedConfig := Some(Spread(config));
      return true;
    }

    method EditAdmins(edit: Json -> Edit, loadWritable: bool, saveWritable: bool) returns (result: AdminResult)
      requires Valid()
      modifies this
      ensures Valid()
      ensures (result, State()) == EditSpec(old(State()), edit, loadWritable, saveWritable)
    {
      var config, isCache := Load(false, loadWritable);
      match edit(JObj(config.fields)) {
        case Crash =>
          return Crashed;
        case Unchanged =>
          return Done(true);
        case Changed(f) =>
          if isCache {
            cachedConfig := Some(JObj(f));
          }
          var ok := Save(JObj(f), saveWritable);
          return Done(ok);
      }
    }

    /** `addAdmin(adminID)`. */
    method AddAdmin(adminID: string, loadWritable: bool, saveWritable: bool) returns (result: AdminResult)
      requires Valid()
      modifies this
      ensures Valid()
      ensures (result, State()) == EditSpec(old(State()), AddEdit(adminID), loadWritable, saveWritable)
    {
      result := EditAdmins(AddEdit(adminID), loadWritable, saveWritable);
    }

    /** `removeAdmin(adminID)`. */
    method RemoveAdmin(adminID: string, loadWritable: bool, saveWritable: bool) returns (result: AdminResult)
      requires Valid()
      modifies this
      ensures Valid()
      ensures (result, State()) == EditSpec(old(State()), RemoveEdit(adminID), loadWritable, saveWritable)
    {
      result := EditAdmins(RemoveEdit(adminID), loadWritable, saveWritable);
    }
  }
}
