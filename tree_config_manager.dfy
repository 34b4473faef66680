/**
 * Reading a tree out of a configured-feature document (TreeConfigManager.java): the wrapper
 * features `minecraft:simple_random_selector` and `minecraft:random_patch` are unwrapped until
 * a `minecraft:tree` is reached, whose `config` member is the tree configuration.
 */
module TreeConfigManager {
  import opened Wrappers
  import opened Json
  import TreeReplacerManager

  const TreeType: string := "minecraft:tree"
  const SelectorType: string := "minecraft:simple_random_selector"
  const PatchType: string := "minecraft:random_patch"

  /** What the unwrapping can throw. */
  datatype UnwrapError =
    | NullFeature                    // a missing inner `feature` object, dereferenced
    | BadCast                        // a member or element of the wrong JSON kind
    | TypeNotText                    // `getAsString` on a `type` that is null, an object or an array
    | EmptyFeatures                  // `features.get(0)` on an empty array
    | SelectorWithoutFeatures        // "simple_random_selector missing features array"
    | PatchWithoutFeature            // "random_patch missing feature"
    | Unsupported(featureType: GsonText)

  /**
   * Gson `obj.getAsJsonObject(key)`: the member cast to an object, null when it is absent;
   * a member of another kind (JSON null included) fails the cast.
   */
  function ObjectMember(j: Json, key: string): (r: Result<Option<Json>, UnwrapError>)
    ensures r.Ok? && r.value.Some? ==> r.value.value.JObj? && r.value.value < j
    ensures r.Ok? && r.value.None? <==> !Has(j, key)
  {
    match Get(j, key)
    case None => Ok(None)
    case Some(m) => if m.JObj? then Ok(Some(m)) else Err(BadCast)
  }

  /** The `type` of a feature as text; a missing member reads as "". */
  function TypeOf(feature: Json): Option<GsonText>
  {
    if Has(feature, "type") then GetAsString(Get(feature, "type").value) else Some(Text(""))
  }

  /**
   * `unwrapToTreeConfig`: `Ok(c)` is what `feature.get("config")` returns for the tree it reaches
   * (`None` when that member is absent). Each recursion is on an object nested inside `feature`.
   */
  function Unwrap(feature: Json): (r: Result<Option<Json>, UnwrapError>)
    requires feature.JObj?
    ensures r.Ok? && r.value.Some? ==> r.value.value < feature
    decreases feature
  {
    var t := TypeOf(feature);
    if t.None? then Err(TypeNotText)
    else if t.value == Text(TreeType) then Ok(Get(feature, "config"))
    else if t.value == Text(SelectorType) then
      match ObjectMember(feature, "config")
      case Err(e) => Err(e)
      case Ok(None) => Err(SelectorWithoutFeatures)
      case Ok(Some(config)) =>
        if !Has(config, "features") then Err(SelectorWithoutFeatures)
        else
          var features := Get(config, "features").value;
          if !features.JArr? then Err(BadCast)
          else if |features.items| == 0 then Err(EmptyFeatures)
          else
            var first := features.items[0];
            assert first < features;
            if !first.JObj? then Err(BadCast)
            else
              (match ObjectMember(first, "feature")
               case Err(e) => Err(e)
               case Ok(None) => Err(NullFeature)
               case Ok(Some(inner)) => Unwrap(inner))
    else if t.value == Text(PatchType) then
      match ObjectMember(feature, "config")
      case Err(e) => Err(e)
      case Ok(None) => Err(PatchWithoutFeature)
      case Ok(Some(config)) =>
        if !Has(config, "feature") then Err(PatchWithoutFeature)
        else
          (match ObjectMember(config, "feature")
           case Err(e) => Err(e)
           case Ok(None) => Err(PatchWithoutFeature)
           case Ok(Some(placed)) =>
             (match ObjectMember(placed, "feature")
              case Err(e) => Err(e)
              case Ok(None) => Err(NullFeature)
              case Ok(Some(inner)) => Unwrap(inner)))
    else Err(Unsupported(t.value))
  }

  /**
   * `loadTree` up to the codec: the parsed document must be an object, which is then unwrapped.
   */
  function LoadTreeConfig(document: Json): (r: Result<Option<Json>, UnwrapError>)
    ensures !document.JObj? ==> r == Err(BadCast)
    ensures document.JObj? ==> r == Unwrap(document)
  {
    if document.JObj? then Unwrap(document) else Err(BadCast)
  }

  // ---------------------------------------------------------------------------------------
  // The documents the unwrapping understands
  // ---------------------------------------------------------------------------------------

  /** `{type: "minecraft:tree", config: c}`. */
  function TreeFeature(config: Json): Json
  {
    JObj([Member("type", JStr(TreeType)), Member("config", config)])
  }

  /** `{type: "minecraft:simple_random_selector", config: {features: entries}}`. */
  function Selector(entries: seq<Json>): Json
  {
    JObj([Member("type", JStr(SelectorType)), Member("config", Obj1("features", JArr(entries)))])
  }

  /** `{type: "minecraft:random_patch", config: {feature: {feature: inner}}}`. */
  function Patch(inner: Json): Json
  {
    JObj([Member("type", JStr(PatchType)), Member("config", Obj1("feature", Obj1("feature", inner)))])
  }

  datatype Wrapper = SelectorWrapper(others: seq<Json>) | PatchWrapper

  /** `inner` wrapped by `ws`, innermost wrapper last; a selector puts `inner` first. */
  function Wrapped(ws: seq<Wrapper>, inner: Json): Json
    decreases |ws|
  {
    if |ws| == 0 then inner
    else
      var w := Wrapped(ws[1..], inner);
      match ws[0]
      case SelectorWrapper(others) => Selector([Obj1("feature", w)] + others)
      case PatchWrapper => Patch(w)
  }

  /** A tree feature unwraps to its `config` member unchanged. */
  lemma UnwrapTree(config: Json)
    ensures Unwrap(TreeFeature(config)) == Ok(Some(config))
  {
    assert Get(TreeFeature(config), "type") == Some(JStr(TreeType));
    assert KeyIndex(TreeFeature(config).members[1..], "config") == 0;
  }

  /** An object without `type` is an unsupported feature of type "". */
  lemma MissingTypeUnsupported(feature: Json)
    requires feature.JObj? && !Has(feature, "type")
    ensures Unwrap(feature) == Err(Unsupported(Text("")))
  {
  }

  /** A `type` that is no string and no one-element array cannot be read. */
  lemma UnreadableType(feature: Json)
    requires feature.JObj? && Has(feature, "type") && Get(feature, "type").value.JObj?
    ensures Unwrap(feature) == Err(TypeNotText)
  {
  }

  /** A selector is unwrapped through its first entry; the other entries are never looked at. */
  lemma SelectorUsesFirstEntry(inner: Json, others: seq<Json>)
    requires inner.JObj?
    ensures Unwrap(Selector([Obj1("feature", inner)] + others)) == Unwrap(inner)
  {
    var s := Selector([Obj1("feature", inner)] + others);
    assert Get(s, "type") == Some(JStr(SelectorType));
    assert KeyIndex(s.members[1..], "config") == 0;
    assert Get(s, "config") == Some(Obj1("features", JArr([Obj1("feature", inner)] + others)));
  }

  /** A random patch is unwrapped through `config.feature.feature`. */
  lemma PatchUsesInnerFeature(inner: Json)
    requires inner.JObj?
    ensures Unwrap(Patch(inner)) == Unwrap(inner)
  {
    var p := Patch(inner);
    assert Get(p, "type") == Some(JStr(PatchType));
    assert KeyIndex(p.members[1..], "config") == 0;
  }

  /** A selector without entries fails on `get(0)`. */
  lemma EmptySelectorFails()
    ensures Unwrap(Selector([])) == Err(EmptyFeatures)
  {
    var s := Selector([]);
    assert Get(s, "type") == Some(JStr(SelectorType));
    assert KeyIndex(s.members[1..], "config") == 0;
  }

  /** Any stack of wrappers around a tree unwraps to the tree's config. */
  lemma {:induction false} UnwrapWrappedTree(ws: seq<Wrapper>, config: Json)
    ensures Wrapped(ws, TreeFeature(config)).JObj?
    ensures Unwrap(Wrapped(ws, TreeFeature(config))) == Ok(Some(config))
    decreases |ws|
  {
    if |ws| == 0 {
      UnwrapTree(config);
    } else {
      var w := Wrapped(ws[1..], TreeFeature(config));
      UnwrapWrappedTree(ws[1..], config);
      match ws[0]
      case SelectorWrapper(others) => SelectorUsesFirstEntry(w, others);
      case PatchWrapper => PatchUsesInnerFeature(w);
    }
  }

  /**
   * The selector a replacer file holds lists bare feature-id strings, so unwrapping it fails:
   * the first entry is read as an object.
   */
  lemma ReplacerSelectorFails(pool: seq<string>)
    requires |pool| > 0
    ensures Unwrap(TreeReplacerManager.SelectorJson(pool)) == Err(BadCast)
  {
    var s := TreeReplacerManager.SelectorJson(pool);
    assert Get(s, "type") == Some(JStr(SelectorType));
    assert KeyIndex(s.members[1..], "config") == 0;
    assert Get(s, "config") == Some(Obj1("features", JArr(TreeReplacerManager.PoolStrings(pool))));
  }
}
