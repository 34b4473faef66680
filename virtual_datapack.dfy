/**
 * Tree features injected into the configured-feature registry at start-up
 * (VirtualDatapackManager.java). `createTreeFeature` derives a fixed-shape tree from a
 * definition: a straight trunk, blob foliage and a two-layer size, ignoring the placer-type
 * settings; `registerFeatures` registers one feature per definition under `tree_engine:<id>`.
 */
module VirtualDatapack {
  import opened Wrappers
  import opened Text
  import opened JavaInt
  import opened TreeDefinition
  import opened PlacerFactory

  const ModId: string := "tree_engine"

  /** `TwoLayersFeatureSize(limit, lowerSize, upperSize)`. */
  datatype FeatureSize = TwoLayers(limit: int, lowerSize: int, upperSize: int)

  /** A block named by its identifier's namespace and path. */
  datatype BlockId = BlockId(namespace: string, path: string)

  /** A `minecraft:tree` configured feature. */
  datatype TreeFeature = TreeFeature(trunkBlock: BlockId, trunkPlacer: TrunkPlacer,
                                     foliageBlock: BlockId, foliagePlacer: FoliagePlacer, size: FeatureSize)

  /** What `createTreeFeature` can throw. */
  datatype FeatureError =
    | NullBlockId                          // `split` on a null block id
    | BlockIdWithoutPath(id: string)       // `split(":")[1]` out of bounds
    | InvalidIdentifier(namespace: string, path: string)

  /**
   * `Identifier.of(id.split(":")[0], id.split(":")[1])`; `validIdentifier` stands for the
   * identifier's character rules, which are not part of this model.
   */
  function BlockIdOf(id: Option<string>, validIdentifier: (string, string) -> bool): (r: Result<BlockId, FeatureError>)
    ensures id.None? ==> r == Err(NullBlockId)
    ensures id.Some? && ':' !in id.value ==> r == Err(BlockIdWithoutPath(id.value))
    ensures r.Ok? ==> id.Some? && validIdentifier(r.value.namespace, r.value.path)
  {
    if id.None? then Err(NullBlockId)
    else
      var parts := JavaSplit(id.value, ':');
      if |parts| < 2 then Err(BlockIdWithoutPath(id.value))
      else if !validIdentifier(parts[0], parts[1]) then Err(InvalidIdentifier(parts[0], parts[1]))
      else Ok(BlockId(parts[0], parts[1]))
  }

  /** "ns:path" names the block `ns`/`path`. */
  lemma BlockIdOfPair(ns: string, path: string, validIdentifier: (string, string) -> bool)
    requires ':' !in ns && ':' !in path && path != "" && validIdentifier(ns, path)
    ensures BlockIdOf(Some(ns + ":" + path), validIdentifier) == Ok(BlockId(ns, path))
  {
    JavaSplitPair(ns, ':', path);
  }

  /**
   * `createTreeFeature`: both block ids are resolved first (the trunk's first), then missing sizes
   * default to min height 4, max height 6, radius 2 and offset 0.
   */
  function CreateTreeFeature(d: DefinitionFields, validIdentifier: (string, string) -> bool): (r: Result<TreeFeature, FeatureError>)
    ensures BlockIdOf(d.trunkBlock, validIdentifier).Err? ==> r == Err(BlockIdOf(d.trunkBlock, validIdentifier).error)
    ensures BlockIdOf(d.trunkBlock, validIdentifier).Ok? && BlockIdOf(d.foliageBlock, validIdentifier).Err? ==>
              r == Err(BlockIdOf(d.foliageBlock, validIdentifier).error)
    ensures r.Ok? ==>
              var heightMin := d.trunkHeightMin.GetOr(4);
              var heightMax := d.trunkHeightMax.GetOr(6);
              r.value.trunkBlock == BlockIdOf(d.trunkBlock, validIdentifier).value &&
              r.value.foliageBlock == BlockIdOf(d.foliageBlock, validIdentifier).value &&
              r.value.trunkPlacer == TrunkPlacer(Straight, heightMin, Sub(heightMax, heightMin), 0) &&
              r.value.foliagePlacer == FoliagePlacer(Blob(3), Constant(d.foliageRadius.GetOr(2)), Constant(d.foliageOffset.GetOr(0))) &&
              r.value.size == TwoLayers(1, 0, 1)
  {
    var trunk := BlockIdOf(d.trunkBlock, validIdentifier);
    if trunk.Err? then Err(trunk.error)
    else
      var foliage := BlockIdOf(d.foliageBlock, validIdentifier);
      if foliage.Err? then Err(foliage.error)
      else
        var heightMin: Int32 := d.trunkHeightMin.GetOr(4);
        var heightMax: Int32 := d.trunkHeightMax.GetOr(6);
        var radius: Int32 := d.foliageRadius.GetOr(2);
        var offset: Int32 := d.foliageOffset.GetOr(0);
        Ok(TreeFeature(trunk.value, TrunkPlacer(Straight, heightMin, Sub(heightMax, heightMin), 0),
                       foliage.value, FoliagePlacer(Blob(3), Constant(radius), Constant(offset)),
                       TwoLayers(1, 0, 1)))
  }

  /** The placer-type settings and the foliage height never reach the feature. */
  lemma PlacerSettingsIgnored(d: DefinitionFields, e: DefinitionFields, validIdentifier: (string, string) -> bool)
    requires d.trunkBlock == e.trunkBlock && d.foliageBlock == e.foliageBlock
    requires d.trunkHeightMin == e.trunkHeightMin && d.trunkHeightMax == e.trunkHeightMax
    requires d.foliageRadius == e.foliageRadius && d.foliageOffset == e.foliageOffset
    ensures CreateTreeFeature(d, validIdentifier) == CreateTreeFeature(e, validIdentifier)
  {
  }

  /**
   * Unlike the placer factory, the trunk's random height is not clamped: a maximum below the
   * minimum gives a negative spread (and the factory's spread would be 0).
   */
  lemma SpreadNotClamped(d: DefinitionFields, validIdentifier: (string, string) -> bool)
    requires CreateTreeFeature(d, validIdentifier).Ok?
    requires d.trunkHeightMin == Some(6) && d.trunkHeightMax == Some(4)
    ensures CreateTreeFeature(d, validIdentifier).value.trunkPlacer.heightRandA == -2
    ensures HeightSpread(6, 4) == 0
  {
  }

  /** With no sizes given, the tree has a 4-block base, spread 2, radius 2 and offset 0. */
  lemma DefaultSizes(d: DefinitionFields, validIdentifier: (string, string) -> bool)
    requires CreateTreeFeature(d, validIdentifier).Ok?
    requires d.trunkHeightMin.None? && d.trunkHeightMax.None? && d.foliageRadius.None? && d.foliageOffset.None?
    ensures CreateTreeFeature(d, validIdentifier).value.trunkPlacer == TrunkPlacer(Straight, 4, 2, 0)
    ensures CreateTreeFeature(d, validIdentifier).value.foliagePlacer == FoliagePlacer(Blob(3), Constant(2), Constant(0))
  {
  }

  // ---------------------------------------------------------------------------------------
  // Registration
  // ---------------------------------------------------------------------------------------

  /** The configured-feature registry while it can still take new entries. */
  class FeatureRegistry {
    var entries: map<string, TreeFeature>

    constructor (entries: map<string, TreeFeature>)
      ensures this.entries == entries
    {
      this.entries := entries;
    }
  }

  /**
   * The registry after one definition: when the feature can be made and `tree_engine:<id>` is a
   * free, valid identifier, it is added; anything that throws leaves the registry as it was.
   */
  function RegisterOne(reg: map<string, TreeFeature>, id: string, d: DefinitionFields,
                       validIdentifier: (string, string) -> bool): map<string, TreeFeature>
  {
    var feature := CreateTreeFeature(d, validIdentifier);
    var key := ModId + ":" + id;
    if feature.Err? || !validIdentifier(ModId, id) || key in reg then reg
    else reg[key := feature.value]
  }

  /** The registry after the definitions `trees`, in iteration order. */
  function Registered(reg: map<string, TreeFeature>, trees: seq<(string, DefinitionFields)>,
                      validIdentifier: (string, string) -> bool): map<string, TreeFeature>
  {
    if |trees| == 0 then reg
    else
      var last := trees[|trees| - 1];
      RegisterOne(Registered(reg, trees[..|trees| - 1], validIdentifier), last.0, last.1, validIdentifier)
  }

  /**
   * `registerFeatures`: each definition's failure is logged and skipped, and the loop goes on
   * with the next one.
   */
  method RegisterFeatures(registry: FeatureRegistry, trees: seq<(string, DefinitionFields)>,
                          validIdentifier: (string, string) -> bool)
    modifies registry
    ensures registry.entries == Registered(old(registry.entries), trees, validIdentifier)
  {
    ghost var initial := registry.entries;
    for i := 0 to |trees|
      invariant registry.entries == Registered(initial, trees[..i], validIdentifier)
    {
      assert trees[..i + 1][..i] == trees[..i];
      var (id, def) := trees[i];
      var feature := CreateTreeFeature(def, validIdentifier);
      if feature.Err? {
        continue;
      }
      var key := ModId + ":" + id;
      if !validIdentifier(ModId, id) || key in registry.entries {
        continue;
      }
      registry.entries := registry.entries[key := feature.value];
    }
    assert trees[..|trees|] == trees;
  }

  /** Registration only adds entries, and every added key is `tree_engine:` + a definition id. */
  lemma {:induction false} RegisteredOnlyAdds(reg: map<string, TreeFeature>, trees: seq<(string, DefinitionFields)>,
                                              validIdentifier: (string, string) -> bool)
    ensures forall k :: k in reg ==> k in Registered(reg, trees, validIdentifier) && Registered(reg, trees, validIdentifier)[k] == reg[k]
    ensures forall k :: k in Registered(reg, trees, validIdentifier) && k !in reg ==>
              exists i :: 0 <= i < |trees| && k == ModId + ":" + trees[i].0
  {
    if |trees| > 0 {
      var init := trees[..|trees| - 1];
      RegisteredOnlyAdds(reg, init, validIdentifier);
      forall k | k in Registered(reg, trees, validIdentifier) && k !in reg
        ensures exists i :: 0 <= i < |trees| && k == ModId + ":" + trees[i].0
      {
        if k in Registered(reg, init, validIdentifier) {
          var i :| 0 <= i < |init| && k == ModId + ":" + init[i].0;
          assert trees[i] == init[i];
        } else {
          assert k == ModId + ":" + trees[|trees| - 1].0;
        }
      }
    }
  }

  /**
   * A failing definition does not stop the others: a definition that can be made, under a valid
   * id not used by anything before it, ends up registered with its own feature.
   */
  lemma {:induction false} RegisteredDespiteFailures(reg: map<string, TreeFeature>, trees: seq<(string, DefinitionFields)>,
                                                     validIdentifier: (string, string) -> bool, j: int)
    requires 0 <= j < |trees|
    requires CreateTreeFeature(trees[j].1, validIdentifier).Ok? && validIdentifier(ModId, trees[j].0)
    requires ModId + ":" + trees[j].0 !in Registered(reg, trees[..j], validIdentifier)
    requires forall i :: j < i < |trees| ==> trees[i].0 != trees[j].0
    ensures var k := ModId + ":" + trees[j].0;
            k in Registered(reg, trees, validIdentifier) &&
            Registered(reg, trees, validIdentifier)[k] == CreateTreeFeature(trees[j].1, validIdentifier).value
    decreases |trees|
  {
    var k := ModId + ":" + trees[j].0;
    var init := trees[..|trees| - 1];
    var last := trees[|trees| - 1];
    assert Registered(reg, trees, validIdentifier) == RegisterOne(Registered(reg, init, validIdentifier), last.0, last.1, validIdentifier);
    if j == |trees| - 1 {
      assert trees[..j] == init;
      RegisterOneAdds(Registered(reg, init, validIdentifier), last.0, last.1, validIdentifier);
    } else {
      assert init[..j] == trees[..j];
      assert init[j] == trees[j];
      RegisteredDespiteFailures(reg, init, validIdentifier, j);
      KeysDiffer(last.0, trees[j].0);
      RegisterOneKeeps(Registered(reg, init, validIdentifier), last.0, last.1, validIdentifier, k);
    }
  }

  /** A free, valid id whose feature can be made is added with that feature. */
  lemma RegisterOneAdds(reg: map<string, TreeFeature>, id: string, d: DefinitionFields,
                        validIdentifier: (string, string) -> bool)
    requires CreateTreeFeature(d, validIdentifier).Ok? && validIdentifier(ModId, id) && ModId + ":" + id !in reg
    ensures var r := RegisterOne(reg, id, d, validIdentifier);
            ModId + ":" + id in r && r[ModId + ":" + id] == CreateTreeFeature(d, validIdentifier).value
  {
  }

  /** Registering one definition leaves every other key as it was. */
  lemma RegisterOneKeeps(reg: map<string, TreeFeature>, id: string, d: DefinitionFields,
                         validIdentifier: (string, string) -> bool, k: string)
    requires k in reg && k != ModId + ":" + id
    ensures var r := RegisterOne(reg, id, d, validIdentifier); k in r && r[k] == reg[k]
  {
  }

  /** Different ids give different registry keys. */
  lemma KeysDiffer(a: string, b: string)
    requires a != b
    ensures ModId + ":" + a != ModId + ":" + b
  {
    assert (ModId + ":" + a)[|ModId| + 1..] == a;
    assert (ModId + ":" + b)[|ModId| + 1..] == b;
  }
}
