/**
 * Hot reload of configured features (RegistryUtils.java). The game's feature registry cannot
 * gain entries at run time, so an existing entry is patched in place by copying the declared
 * fields of a freshly decoded config object into the live one; anything else is only tracked
 * in the mod's `customTrees` / `activeReplacers` maps until the next restart.
 *
 * A config object is a class (its name and declared fields) plus a value per field name. The
 * registry is a map from canonical identifier to the live feature objects; it is never changed,
 * only the config objects it points to are.
 */
module RegistryUtils {
  import opened Wrappers
  import opened Text
  import opened Json
  import TreeReplacerManager

  /** What a field slot holds: a reference, a null reference or a primitive. */
  datatype FieldValue = NullRef | Ref(address: nat) | Prim(bits: int)

  /**
   * A declared field. `writable` is false for a field whose reflective `set` throws (a final
   * field the runtime refuses to change); such a field is skipped.
   */
  datatype FieldDecl = FieldDecl(name: string, isStatic: bool, writable: bool)

  /** A runtime class: its name and its declared fields, in declaration order. */
  datatype ConfigClass = ConfigClass(name: string, fields: seq<FieldDecl>)

  const TreeFeatureConfigName: string := "net.minecraft.world.gen.feature.TreeFeatureConfig"

  /** A feature config object; the class is fixed at creation, the field values change. */
  class ConfigObject {
    const cls: ConfigClass
    var values: map<string, FieldValue>

    constructor (cls: ConfigClass, values: map<string, FieldValue>)
      ensures this.cls == cls && this.values == values
    {
      this.cls := cls;
      this.values := values;
    }
  }

  /** `config() instanceof TreeFeatureConfig`. */
  predicate IsTreeConfig(c: ConfigObject)
  {
    c.cls.name == TreeFeatureConfigName
  }

  /** A configured feature; it keeps the same config object for its whole life. */
  class ConfiguredFeature {
    const config: ConfigObject

    constructor (config: ConfigObject)
      ensures this.config == config
    {
      this.config := config;
    }
  }

  /** The config objects reachable from the registry. */
  function ConfigsOf(registry: map<string, ConfiguredFeature>): set<ConfigObject>
  {
    set f | f in registry.Values :: f.config
  }

  // ---------------------------------------------------------------------------------------
  // Copying declared fields
  // ---------------------------------------------------------------------------------------

  /** A field the copy loop writes: not static, settable, and readable on the source. */
  predicate Copyable(f: FieldDecl, source: map<string, FieldValue>)
  {
    !f.isStatic && f.writable && f.name in source
  }

  /** The target's field values after the copy loop has visited `fields` in order. */
  function Copied(target: map<string, FieldValue>, source: map<string, FieldValue>, fields: seq<FieldDecl>): map<string, FieldValue>
  {
    if |fields| == 0 then target
    else
      var f := fields[|fields| - 1];
      var prev := Copied(target, source, fields[..|fields| - 1]);
      if Copyable(f, source) then prev[f.name := source[f.name]] else prev
  }

  /**
   * Field by field: a name some copyable field carries takes the source's value; every other
   * slot (static fields, fields whose set fails, undeclared names) keeps the target's value.
   */
  lemma {:induction false} CopiedAt(target: map<string, FieldValue>, source: map<string, FieldValue>, fields: seq<FieldDecl>, n: string)
    ensures (exists i :: 0 <= i < |fields| && fields[i].name == n && Copyable(fields[i], source)) ==>
              n in Copied(target, source, fields) && Copied(target, source, fields)[n] == source[n]
    ensures (forall i :: 0 <= i < |fields| && fields[i].name == n ==> !Copyable(fields[i], source)) ==>
              (n in Copied(target, source, fields) <==> n in target) &&
              (n in target ==> Copied(target, source, fields)[n] == target[n])
  {
    if |fields| > 0 {
      var init := fields[..|fields| - 1];
      var f := fields[|fields| - 1];
      CopiedAt(target, source, init, n);
      if exists i :: 0 <= i < |fields| && fields[i].name == n && Copyable(fields[i], source) {
        var i :| 0 <= i < |fields| && fields[i].name == n && Copyable(fields[i], source);
        if i < |fields| - 1 {
          assert init[i] == fields[i];
        }
      }
      if forall i :: 0 <= i < |fields| && fields[i].name == n ==> !Copyable(fields[i], source) {
        forall i | 0 <= i < |init| && init[i].name == n
          ensures !Copyable(init[i], source)
        {
          assert init[i] == fields[i];
        }
      }
    }
  }

  /** The copy only writes declared names: the slots afterwards are the target's plus copied ones. */
  lemma {:induction false} CopiedKeys(target: map<string, FieldValue>, source: map<string, FieldValue>, fields: seq<FieldDecl>)
    ensures Copied(target, source, fields).Keys <= target.Keys + source.Keys
    ensures target.Keys <= Copied(target, source, fields).Keys
  {
    if |fields| > 0 {
      CopiedKeys(target, source, fields[..|fields| - 1]);
    }
  }

  /** Copying twice from the same source is copying once. */
  lemma {:induction false} CopiedIdempotent(target: map<string, FieldValue>, source: map<string, FieldValue>, fields: seq<FieldDecl>)
    ensures Copied(Copied(target, source, fields), source, fields) == Copied(target, source, fields)
  {
    var once := Copied(target, source, fields);
    var twice := Copied(once, source, fields);
    forall n | true
      ensures (n in twice <==> n in once) && (n in once ==> twice[n] == once[n])
    {
      CopiedAt(target, source, fields, n);
      CopiedAt(once, source, fields, n);
    }
  }

  /** Copying an object onto itself changes nothing. */
  lemma {:induction false} CopiedSelf(values: map<string, FieldValue>, fields: seq<FieldDecl>)
    ensures Copied(values, values, fields) == values
  {
    if |fields| > 0 {
      CopiedSelf(values, fields[..|fields| - 1]);
    }
  }

  /**
   * The field loop shared by `modifyTreeFeatureConfig` and `modifyConfigFields`: visits the
   * given declared fields in order, skips static ones, reads the source's value and writes it
   * into the target; a field whose read or write fails is skipped and earlier writes stay.
   * Returns how many fields were written.
   */
  method CopyDeclaredFields(target: ConfigObject, source: ConfigObject, fields: seq<FieldDecl>) returns (modified: nat)
    modifies target
    ensures target.values == Copied(old(target.values), old(source.values), fields)
    ensures modified <= |fields|
  {
    var sv := source.values;
    ghost var tv := target.values;
    modified := 0;
    for i := 0 to |fields|
      invariant target.values == Copied(tv, sv, fields[..i])
      invariant modified <= i
    {
      var field := fields[i];
      assert fields[..i + 1][..i] == fields[..i];
      if field.isStatic {
        continue;
      }
      if field.writable && field.name in sv {
        target.values := target.values[field.name := sv[field.name]];
        modified := modified + 1;
      }
    }
    assert fields[..|fields|] == fields;
  }

  /**
   * `modifyTreeFeatureConfig`: the field loop over `treeFields`, the declared fields of the class
   * `TreeFeatureConfig` itself, whatever the two objects' own field lists are.
   */
  method ModifyTreeFeatureConfig(existing: ConfigObject, newConfig: ConfigObject, treeFields: seq<FieldDecl>)
    requires IsTreeConfig(existing) && IsTreeConfig(newConfig)
    modifies existing
    ensures existing.values == Copied(old(existing.values), old(newConfig.values), treeFields)
  {
    var _ := CopyDeclaredFields(existing, newConfig, treeFields);
  }

  /**
   * `modifyConfigFields`: a null target or source, or objects of different runtime classes,
   * leave the target as it was; otherwise the field loop runs.
   */
  method ModifyConfigFields(target: ConfigObject?, source: ConfigObject?)
    modifies target
    ensures target != null && source != null && target.cls == source.cls ==>
              target.values == Copied(old(target.values), old(source.values), target.cls.fields)
    ensures target != null && (source == null || target.cls != source.cls) ==> target.values == old(target.values)
  {
    if target == null || source == null {
      return;
    }
    if target.cls != source.cls {
      return;
    }
    var _ := CopyDeclaredFields(target, source, target.cls.fields);
  }

  // ---------------------------------------------------------------------------------------
  // The random selector built for a replacer
  // ---------------------------------------------------------------------------------------

  /** One weighted alternative of a replacer: a chance and a feature id (which may be null). */
  datatype Alternative = Alternative(chance: real, feature: Option<string>)

  /** Gson `addProperty(key, String)`: a null string becomes JSON null. */
  function StrOrNull(s: Option<string>): Json
  {
    if s.Some? then JStr(s.value) else JNull
  }

  /** `{chance, feature}` for one alternative. */
  function AlternativeJson(a: Alternative): Json
  {
    JObj([Member("chance", JNum(a.chance)), Member("feature", StrOrNull(a.feature))])
  }

  function AlternativeEntries(alts: seq<Alternative>): (r: seq<Json>)
    ensures |r| == |alts|
    ensures forall i :: 0 <= i < |alts| ==> r[i] == AlternativeJson(alts[i])
  {
    seq(|alts|, i requires 0 <= i < |alts| => AlternativeJson(alts[i]))
  }

  /** `{type: "minecraft:random_selector", config: {default, features: [{chance, feature}...]}}`. */
  function RandomSelectorJson(defaultTree: Option<string>, alts: seq<Alternative>): Json
  {
    JObj([Member("type", JStr("minecraft:random_selector")),
          Member("config", JObj([Member("default", StrOrNull(defaultTree)),
                                 Member("features", JArr(AlternativeEntries(alts)))]))])
  }

  /**
   * The JSON half of `createRandomSelectorFeature`: iterating a null alternatives list throws,
   * and the method then yields null (`None`); otherwise the entries are appended in order.
   */
  method CreateRandomSelectorJson(defaultTree: Option<string>, alternatives: Option<seq<Alternative>>) returns (r: Option<Json>)
    ensures alternatives.None? ==> r.None?
    ensures alternatives.Some? ==> r == Some(RandomSelectorJson(defaultTree, alternatives.value))
  {
    if alternatives.None? {
      return None;
    }
    var alts := alternatives.value;
    var features: seq<Json> := [];
    for i := 0 to |alts|
      invariant features == AlternativeEntries(alts[..i])
    {
      var entry := JObj([Member("chance", JNum(alts[i].chance)), Member("feature", StrOrNull(alts[i].feature))]);
      features := features + [entry];
    }
    assert alts[..|alts|] == alts;
    var configObj := JObj([Member("default", StrOrNull(defaultTree)), Member("features", JArr(features))]);
    return Some(JObj([Member("type", JStr("minecraft:random_selector")), Member("config", configObj)]));
  }

  /** Reads one entry back: a chance number and a feature string or null. */
  function AlternativeOf(j: Json): Option<Alternative>
  {
    match (Get(j, "chance"), Get(j, "feature"))
    case (Some(JNum(c)), Some(JStr(f))) => Some(Alternative(c, Some(f)))
    case (Some(JNum(c)), Some(JNull)) => Some(Alternative(c, None))
    case _ => None
  }

  function AlternativesOf(items: seq<Json>): Option<seq<Alternative>>
  {
    if |items| == 0 then Some([])
    else
      match (AlternativeOf(items[0]), AlternativesOf(items[1..]))
      case (Some(a), Some(rest)) => Some([a] + rest)
      case _ => None
  }

  /** An independent reader of a random-selector document: its default tree and alternatives. */
  function SelectorOf(j: Json): Option<(Option<string>, seq<Alternative>)>
  {
    if Get(j, "type") != Some(JStr("minecraft:random_selector")) then None
    else
      var config := Get(j, "config");
      if config.None? then None
      else
        var d := Get(config.value, "default");
        var fs := Get(config.value, "features");
        if fs.None? || !fs.value.JArr? then None
        else
          var alts := AlternativesOf(fs.value.items);
          match (d, alts)
          case (Some(JStr(s)), Some(a)) => Some((Some(s), a))
          case (Some(JNull), Some(a)) => Some((None, a))
          case _ => None
  }

  lemma {:induction false} AlternativesOfEntries(alts: seq<Alternative>)
    ensures AlternativesOf(AlternativeEntries(alts)) == Some(alts)
  {
    if |alts| > 0 {
      var items := AlternativeEntries(alts);
      assert items[1..] == AlternativeEntries(alts[1..]);
      AlternativesOfEntries(alts[1..]);
      AlternativeRoundTrip(alts[0]);
      assert AlternativesOf(items) == Some([alts[0]] + alts[1..]);
      assert [alts[0]] + alts[1..] == alts;
    }
  }

  /** One alternative reads back as itself. */
  lemma AlternativeRoundTrip(a: Alternative)
    ensures AlternativeOf(AlternativeJson(a)) == Some(a)
  {
    var j := AlternativeJson(a);
    assert KeyIndex(j.members, "chance") == 0;
    assert KeyIndex(j.members[1..], "feature") == 0;
  }

  /** The selector document keeps the default tree and every alternative, in order. */
  lemma RandomSelectorRoundTrip(defaultTree: Option<string>, alts: seq<Alternative>)
    ensures SelectorOf(RandomSelectorJson(defaultTree, alts)) == Some((defaultTree, alts))
  {
    var j := RandomSelectorJson(defaultTree, alts);
    var config := JObj([Member("default", StrOrNull(defaultTree)), Member("features", JArr(AlternativeEntries(alts)))]);
    assert Get(j, "type") == Some(JStr("minecraft:random_selector"));
    assert KeyIndex(j.members[1..], "config") == 0;
    assert Get(j, "config") == Some(config);
    assert KeyIndex(config.members[1..], "features") == 0;
    assert Get(config, "default") == Some(StrOrNull(defaultTree));
    assert Get(config, "features") == Some(JArr(AlternativeEntries(alts)));
    AlternativesOfEntries(alts);
  }

  // ---------------------------------------------------------------------------------------
  // The tracking maps and the registry updates
  // ---------------------------------------------------------------------------------------

  /**
   * The registry id a replacer patches: "minecraft:" + the second ':'-piece of its vanilla id.
   * A null id, or one whose split has no second piece, throws (`None`).
   */
  function ReplacerKey(vanillaTreeId: Option<string>): (r: Option<string>)
    ensures r.Some? <==> vanillaTreeId.Some? && |JavaSplit(vanillaTreeId.value, ':')| >= 2
    ensures r.Some? ==> StartsWith(r.value, "minecraft:")
  {
    if vanillaTreeId.None? then None
    else
      var parts := JavaSplit(vanillaTreeId.value, ':');
      if |parts| < 2 then None else Some("minecraft:" + parts[1])
  }

  /** "ns:p" patches "minecraft:p", whatever the namespace. */
  lemma ReplacerKeyOfPair(ns: string, p: string)
    requires ':' !in ns && ':' !in p && p != ""
    ensures ReplacerKey(Some(ns + ":" + p)) == Some("minecraft:" + p)
  {
    JavaSplitPair(ns, ':', p);
  }

  /** An id with no ':' cannot be split: the update gives up untracked. */
  lemma ReplacerKeyNoColon(id: string)
    requires ':' !in id
    ensures ReplacerKey(Some(id)).None?
  {
  }

  /** The mod-wide tracking maps of TreeEngine. */
  class TreeEngineState {
    var customTrees: map<string, ConfiguredFeature>
    var activeReplacers: map<string, TreeReplacerManager.TreeReplacer>

    constructor ()
      ensures customTrees == map[] && activeReplacers == map[]
    {
      customTrees := map[];
      activeReplacers := map[];
    }

    /**
     * `registerFeatureDirectly`. `identifierOf` is `Identifier.of` (the canonical id, or `None`
     * when it throws); `treeFields` is `TreeFeatureConfig.class.getDeclaredFields()`. An existing entry whose config and the new config are both tree configs
     * is patched in place and tracked by the existing object: true. Otherwise the new feature is
     * tracked and the registry is untouched: false. A failing identifier gives false, untracked.
     */
    method RegisterFeatureDirectly(registry: map<string, ConfiguredFeature>, featureId: string,
                                   newFeature: ConfiguredFeature, identifierOf: string -> Option<string>,
                                   treeFields: seq<FieldDecl>)
      returns (hotReloaded: bool)
      modifies this, ConfigsOf(registry)
      ensures activeReplacers == old(activeReplacers)
      ensures hotReloaded <==> identifierOf(featureId).Some? && identifierOf(featureId).value in registry &&
                               IsTreeConfig(registry[identifierOf(featureId).value].config) && IsTreeConfig(newFeature.config)
      ensures hotReloaded ==>
                var existing := registry[identifierOf(featureId).value];
                customTrees == old(customTrees)[featureId := existing] &&
                existing.config.values == Copied(old(existing.config.values), old(newFeature.config.values), treeFields) &&
                forall c | c in ConfigsOf(registry) && c != existing.config :: c.values == old(c.values)
      ensures !hotReloaded ==> forall c | c in ConfigsOf(registry) :: c.values == old(c.values)
      ensures !hotReloaded && identifierOf(featureId).Some? ==> customTrees == old(customTrees)[featureId := newFeature]
      ensures identifierOf(featureId).None? ==> customTrees == old(customTrees)
    {
      var id := identifierOf(featureId);
      if id.None? {
        return false;
      }
      if id.value in registry {
        var existingFeature := registry[id.value];
        if IsTreeConfig(existingFeature.config) && IsTreeConfig(newFeature.config) {
          ModifyTreeFeatureConfig(existingFeature.config, newFeature.config, treeFields);
          customTrees := customTrees[featureId := existingFeature];
          return true;
        }
      }
      customTrees := customTrees[featureId := newFeature];
      return false;
    }

    /**
     * `updateReplacerInRegistry`. The replacer's `default_tree` and `alternatives`, which the
     * replacer record does not declare, are parameters; `decoded` is what the codec yields for
     * the selector document (null when it reports an error).
     * - the key cannot be derived or is not a valid identifier: false, nothing tracked;
     * - the key is not registered: the replacer is tracked, false;
     * - the selector cannot be built or decoded: false, nothing tracked;
     * - otherwise the live config is patched (silently skipped on a class mismatch), the
     *   replacer is tracked, true.
     */
    method UpdateReplacerInRegistry(registry: map<string, ConfiguredFeature>, replacer: TreeReplacerManager.TreeReplacer,
                                    defaultTree: Option<string>, alternatives: Option<seq<Alternative>>,
                                    identifierOf: string -> Option<string>, decoded: ConfiguredFeature?)
      returns (hotReloaded: bool)
      modifies this, ConfigsOf(registry)
      ensures customTrees == old(customTrees)
      ensures hotReloaded <==> ReplacerKey(replacer.vanillaTreeId).Some? &&
                               identifierOf(ReplacerKey(replacer.vanillaTreeId).value).Some? &&
                               identifierOf(ReplacerKey(replacer.vanillaTreeId).value).value in registry &&
                               alternatives.Some? && decoded != null
      ensures hotReloaded ==>
                var key := ReplacerKey(replacer.vanillaTreeId).value;
                var existing := registry[identifierOf(key).value].config;
                activeReplacers == old(activeReplacers)[key := replacer] &&
                (existing.cls == decoded.config.cls ==>
                   existing.values == Copied(old(existing.values), old(decoded.config.values), existing.cls.fields)) &&
                (existing.cls != decoded.config.cls ==> existing.values == old(existing.values)) &&
                forall c | c in ConfigsOf(registry) && c != existing :: c.values == old(c.values)
      ensures !hotReloaded ==> forall c | c in ConfigsOf(registry) :: c.values == old(c.values)
      ensures !hotReloaded ==>
                var key := ReplacerKey(replacer.vanillaTreeId);
                if key.Some? && identifierOf(key.value).Some? && identifierOf(key.value).value !in registry
                then activeReplacers == old(activeReplacers)[key.value := replacer]
                else activeReplacers == old(activeReplacers)
    {
      var key := ReplacerKey(replacer.vanillaTreeId);
      if key.None? {
        return false;
      }
      var replacerId := key.value;
      var id := identifierOf(replacerId);
      if id.None? {
        return false;
      }
      if id.value !in registry {
        activeReplacers := activeReplacers[replacerId := replacer];
        return false;
      }
      var existingFeature := registry[id.value];
      var selector := CreateRandomSelectorJson(defaultTree, alternatives);
      if selector.None? || decoded == null {
        return false;
      }
      ModifyConfigFields(existingFeature.config, decoded.config);
      activeReplacers := activeReplacers[replacerId := replacer];
      return true;
    }

    /** `removeFeatureFromRegistry`: only the tracking entry goes; true iff there was one. */
    method RemoveFeatureFromRegistry(featureId: string) returns (removed: bool)
      modifies this
      ensures removed <==> featureId in old(customTrees)
      ensures customTrees == old(customTrees) - {featureId}
      ensures activeReplacers == old(activeReplacers)
    {
      removed := featureId in customTrees;
      customTrees := customTrees - {featureId};
    }

    /** `removeReplacerFromRegistry`: only the tracking entry goes; true iff there was one. */
    method RemoveReplacerFromRegistry(replacerId: string) returns (removed: bool)
      modifies this
      ensures removed <==> replacerId in old(activeReplacers)
      ensures activeReplacers == old(activeReplacers) - {replacerId}
      ensures customTrees == old(customTrees)
    {
      removed := replacerId in activeReplacers;
      activeReplacers := activeReplacers - {replacerId};
    }
  }
}
