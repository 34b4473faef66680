/**
 * Tree definitions (TreeDefinition.java) and their inheritance: `child.merge(parent)` fills each
 * of the child's missing (null) fields with the parent's value.
 */
module TreeDefinition {
  import opened Wrappers
  import opened JavaInt

  /** The fifteen fields `merge` fills in; `None` is Java null. */
  datatype DefinitionFields = DefinitionFields(
    name: Option<string>,
    description: Option<string>,
    trunkBlock: Option<string>,
    foliageBlock: Option<string>,
    trunkHeightMin: Option<Int32>,
    trunkHeightMax: Option<Int32>,
    foliageRadius: Option<Int32>,
    foliageOffset: Option<Int32>,
    trunkPlacerType: Option<string>,
    trunkBaseHeight: Option<Int32>,
    trunkHeightRandA: Option<Int32>,
    trunkHeightRandB: Option<Int32>,
    foliagePlacerType: Option<string>,
    foliageHeight: Option<Int32>,
    foliageLayers: Option<Int32>)

  /** A child value if it has one, otherwise the parent's. */
  function Fill<T>(child: Option<T>, parent: Option<T>): (r: Option<T>)
    ensures child.Some? ==> r == child
    ensures child.None? ==> r == parent
  {
    if child.None? then parent else child
  }

  /** The child's fields after `merge` with a parent: each one filled from the parent. */
  function MergedFields(child: DefinitionFields, parent: DefinitionFields): DefinitionFields
  {
    DefinitionFields(
      Fill(child.name, parent.name),
      Fill(child.description, parent.description),
      Fill(child.trunkBlock, parent.trunkBlock),
      Fill(child.foliageBlock, parent.foliageBlock),
      Fill(child.trunkHeightMin, parent.trunkHeightMin),
      Fill(child.trunkHeightMax, parent.trunkHeightMax),
      Fill(child.foliageRadius, parent.foliageRadius),
      Fill(child.foliageOffset, parent.foliageOffset),
      Fill(child.trunkPlacerType, parent.trunkPlacerType),
      Fill(child.trunkBaseHeight, parent.trunkBaseHeight),
      Fill(child.trunkHeightRandA, parent.trunkHeightRandA),
      Fill(child.trunkHeightRandB, parent.trunkHeightRandB),
      Fill(child.foliagePlacerType, parent.foliagePlacerType),
      Fill(child.foliageHeight, parent.foliageHeight),
      Fill(child.foliageLayers, parent.foliageLayers))
  }

  /** The same fields, all null. */
  const NoFields: DefinitionFields :=
    DefinitionFields(None, None, None, None, None, None, None, None, None, None, None, None, None, None, None)

  /** Filling is idempotent, and a slot ends up null exactly when both child and parent are null. */
  lemma FillLaws<T>(child: Option<T>, parent: Option<T>)
    ensures Fill(Fill(child, parent), parent) == Fill(child, parent)
    ensures Fill(child, parent).None? <==> child.None? && parent.None?
    ensures Fill(child, child) == child
  {
  }

  /** Merging the same parent twice is merging once. */
  lemma MergeIdempotent(child: DefinitionFields, parent: DefinitionFields)
    ensures MergedFields(MergedFields(child, parent), parent) == MergedFields(child, parent)
  {
  }

  /** Merging with oneself, or with a parent that has nothing, changes nothing. */
  lemma MergeNeutral(child: DefinitionFields)
    ensures MergedFields(child, child) == child
    ensures MergedFields(child, NoFields) == child
  {
  }

  /** A definition with every field set is unaffected by any parent. */
  lemma MergeComplete(child: DefinitionFields, parent: DefinitionFields)
    requires child.name.Some? && child.description.Some? && child.trunkBlock.Some? && child.foliageBlock.Some?
    requires child.trunkHeightMin.Some? && child.trunkHeightMax.Some? && child.foliageRadius.Some?
    requires child.foliageOffset.Some? && child.trunkPlacerType.Some? && child.trunkBaseHeight.Some?
    requires child.trunkHeightRandA.Some? && child.trunkHeightRandB.Some? && child.foliagePlacerType.Some?
    requires child.foliageHeight.Some? && child.foliageLayers.Some?
    ensures MergedFields(child, parent) == child
  {
  }

  /** Inheritance along a chain: merging with a parent that was itself merged with a grandparent. */
  lemma MergeChain(child: DefinitionFields, parent: DefinitionFields, grandparent: DefinitionFields)
    ensures MergedFields(child, MergedFields(parent, grandparent)) ==
            MergedFields(MergedFields(child, parent), grandparent)
  {
  }

  /** A definition as Gson fills it from a file; every field may be null. */
  class TreeDefinition {
    var id: Option<string>
    var name: Option<string>
    var description: Option<string>
    var parent: Option<string>
    var trunkBlock: Option<string>
    var foliageBlock: Option<string>
    var trunkHeightMin: Option<Int32>
    var trunkHeightMax: Option<Int32>
    var foliageRadius: Option<Int32>
    var foliageOffset: Option<Int32>
    var trunkPlacerType: Option<string>
    var trunkBaseHeight: Option<Int32>
    var trunkHeightRandA: Option<Int32>
    var trunkHeightRandB: Option<Int32>
    var foliagePlacerType: Option<string>
    var foliageHeight: Option<Int32>
    var foliageLayers: Option<Int32>

    /** A definition with the given id, parent and fields. */
    constructor (id: Option<string>, parent: Option<string>, f: DefinitionFields)
      ensures this.id == id && this.parent == parent && Fields() == f
    {
      this.id := id;
      this.parent := parent;
      name := f.name;
      description := f.description;
      trunkBlock := f.trunkBlock;
      foliageBlock := f.foliageBlock;
      trunkHeightMin := f.trunkHeightMin;
      trunkHeightMax := f.trunkHeightMax;
      foliageRadius := f.foliageRadius;
      foliageOffset := f.foliageOffset;
      trunkPlacerType := f.trunkPlacerType;
      trunkBaseHeight := f.trunkBaseHeight;
      trunkHeightRandA := f.trunkHeightRandA;
      trunkHeightRandB := f.trunkHeightRandB;
      foliagePlacerType := f.foliagePlacerType;
      foliageHeight := f.foliageHeight;
      foliageLayers := f.foliageLayers;
    }

    /** The fifteen merged fields as a value. */
    function Fields(): DefinitionFields
      reads this
    {
      DefinitionFields(name, description, trunkBlock, foliageBlock, trunkHeightMin, trunkHeightMax,
                       foliageRadius, foliageOffset, trunkPlacerType, trunkBaseHeight, trunkHeightRandA,
                       trunkHeightRandB, foliagePlacerType, foliageHeight, foliageLayers)
    }

    /** Stores the name, the description, the blocks and the size numbers. */
    method SetDescriptive(f: DefinitionFields)
      modifies this`name, this`description, this`trunkBlock, this`foliageBlock, this`trunkHeightMin, this`trunkHeightMax, this`foliageRadius, this`foliageOffset
      ensures name == f.name && description == f.description && trunkBlock == f.trunkBlock && foliageBlock == f.foliageBlock
      ensures trunkHeightMin == f.trunkHeightMin && trunkHeightMax == f.trunkHeightMax && foliageRadius == f.foliageRadius && foliageOffset == f.foliageOffset
    {
      name := f.name;
      description := f.description;
      trunkBlock := f.trunkBlock;
      foliageBlock := f.foliageBlock;
      trunkHeightMin := f.trunkHeightMin;
      trunkHeightMax := f.trunkHeightMax;
      foliageRadius := f.foliageRadius;
      foliageOffset := f.foliageOffset;
    }

    /** Stores the trunk and foliage placer settings. */
    method SetPlacers(f: DefinitionFields)
      modifies this`trunkPlacerType, this`trunkBaseHeight, this`trunkHeightRandA, this`trunkHeightRandB, this`foliagePlacerType, this`foliageHeight, this`foliageLayers
      ensures trunkPlacerType == f.trunkPlacerType && trunkBaseHeight == f.trunkBaseHeight && trunkHeightRandA == f.trunkHeightRandA && trunkHeightRandB == f.trunkHeightRandB
      ensures foliagePlacerType == f.foliagePlacerType && foliageHeight == f.foliageHeight && foliageLayers == f.foliageLayers
    {
      trunkPlacerType := f.trunkPlacerType;
      trunkBaseHeight := f.trunkBaseHeight;
      trunkHeightRandA := f.trunkHeightRandA;
      trunkHeightRandB := f.trunkHeightRandB;
      foliagePlacerType := f.foliagePlacerType;
      foliageHeight := f.foliageHeight;
      foliageLayers := f.foliageLayers;
    }

    /**
     * `merge`: a null parent changes nothing; otherwise each null field takes the parent's value.
     * `id` and `parent` are never touched; the parent object, unless it is this one, is outside
     * the frame and so keeps its fields.
     */
    method Merge(p: TreeDefinition?)
      modifies this`name, this`description, this`trunkBlock, this`foliageBlock, this`trunkHeightMin, this`trunkHeightMax, this`foliageRadius, this`foliageOffset, this`trunkPlacerType, this`trunkBaseHeight, this`trunkHeightRandA, this`trunkHeightRandB, this`foliagePlacerType, this`foliageHeight, this`foliageLayers
      ensures p == null ==> Fields() == old(Fields())
      ensures p != null ==> Fields() == MergedFields(old(Fields()), old(p.Fields()))
    {
      if p == null {
        return;
      }
      var merged := MergedFields(Fields(), p.Fields());
      SetDescriptive(merged);
      SetPlacers(merged);
    }
  }
}
