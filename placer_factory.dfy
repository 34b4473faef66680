/**
 * Trunk and foliage placers from a definition's placer settings (PlacerFactory.java): the type
 * name is matched case-insensitively, a null name selects the default, and an unknown name falls
 * back to the default as well.
 */
module PlacerFactory {
  import opened Wrappers
  import opened Text
  import opened JavaInt

  /** An integer provider: a constant, or a uniform range `[min, max]`. */
  datatype IntProvider = Constant(value: int) | Uniform(min: int, max: int)

  /** A provider can be sampled only when its range has a value. */
  predicate NonEmpty(p: IntProvider)
  {
    p.Uniform? ==> p.min <= p.max
  }

  datatype TrunkKind =
    | Straight
    | Forking
    | Giant
    | MegaJungle
    | DarkOak
    | Cherry(branchCount: IntProvider, branchHorizontalLength: IntProvider,
             branchStartOffsetFromTop: IntProvider, branchEndOffsetFromTop: IntProvider)

  /** A trunk placer: its kind and the three height parameters every trunk placer takes. */
  datatype TrunkPlacer = TrunkPlacer(kind: TrunkKind, baseHeight: int, heightRandA: int, heightRandB: int)

  /** The type name that selects each kind (for a straight trunk, one of several). */
  function TrunkTypeName(k: TrunkKind): string
  {
    match k
    case Straight => "straight"
    case Forking => "forking"
    case Giant => "giant"
    case MegaJungle => "mega_jungle"
    case DarkOak => "dark_oak"
    case Cherry(_, _, _, _) => "cherry"
  }

  /** The names that select something other than a straight trunk. */
  const NonStraightTrunkNames: set<string> := {"forking", "giant", "mega_jungle", "dark_oak", "cherry"}

  /** `Math.max(0, heightMax - heightMin)` with Java's wrapping subtraction. */
  function HeightSpread(heightMin: Int32, heightMax: Int32): (r: int)
    ensures r >= 0
    ensures heightMin <= heightMax && heightMax - heightMin <= IntMax ==> r == heightMax - heightMin
    ensures heightMax <= heightMin && heightMax - heightMin >= IntMin ==> r == 0
  {
    Max(0, Sub(heightMax, heightMin))
  }

  /** The trunk dispatch, with the cherry trunk's branch start offset as a parameter. */
  function TrunkPlacerWith(t: Option<string>, heightMin: Int32, heightMax: Int32, cherryStartOffset: IntProvider): (r: TrunkPlacer)
    ensures r.baseHeight == heightMin && r.heightRandA == HeightSpread(heightMin, heightMax)
    ensures r.heightRandB == (if r.kind.MegaJungle? then 19 else 0)
    ensures r.kind.Straight? <==> ToLower(t.GetOr("straight")) !in NonStraightTrunkNames
    ensures !r.kind.Straight? ==> TrunkTypeName(r.kind) == ToLower(t.GetOr("straight"))
    ensures r.kind.Cherry? ==>
              r.kind == Cherry(Constant(2), Constant(3), cherryStartOffset, Constant(-1))
  {
    var heightRand := HeightSpread(heightMin, heightMax);
    var name := ToLower(t.GetOr("straight"));
    if name == "forking" then TrunkPlacer(Forking, heightMin, heightRand, 0)
    else if name == "giant" then TrunkPlacer(Giant, heightMin, heightRand, 0)
    else if name == "mega_jungle" then TrunkPlacer(MegaJungle, heightMin, heightRand, 19)
    else if name == "dark_oak" then TrunkPlacer(DarkOak, heightMin, heightRand, 0)
    else if name == "cherry" then
      TrunkPlacer(Cherry(Constant(2), Constant(3), cherryStartOffset, Constant(-1)), heightMin, heightRand, 0)
    else TrunkPlacer(Straight, heightMin, heightRand, 0)
  }

  /** `createTrunkPlacer` as written: the cherry trunk's branch start offset is `uniform(-1, -2)`. */
  function CreateTrunkPlacerAsWritten(t: Option<string>, heightMin: Int32, heightMax: Int32): TrunkPlacer
  {
    TrunkPlacerWith(t, heightMin, heightMax, Uniform(-1, -2))
  }

  /** As written, a cherry trunk carries a branch start offset range with no value in it. */
  lemma CherryStartOffsetAsWrittenEmpty(heightMin: Int32, heightMax: Int32)
    ensures CreateTrunkPlacerAsWritten(Some("cherry"), heightMin, heightMax).kind.Cherry?
    ensures !NonEmpty(CreateTrunkPlacerAsWritten(Some("cherry"), heightMin, heightMax).kind.branchStartOffsetFromTop)
  {
    assert ToLower("cherry") == "cherry";
  }

  /** `createTrunkPlacer` with the branch start offset range the other way round, `uniform(-2, -1)`. */
  function CreateTrunkPlacer(t: Option<string>, heightMin: Int32, heightMax: Int32): TrunkPlacer
  {
    TrunkPlacerWith(t, heightMin, heightMax, Uniform(-2, -1))
  }

  /** Every provider of a trunk placer the corrected factory makes can be sampled. */
  lemma TrunkProvidersNonEmpty(t: Option<string>, heightMin: Int32, heightMax: Int32)
    ensures var k := CreateTrunkPlacer(t, heightMin, heightMax).kind;
            k.Cherry? ==> NonEmpty(k.branchCount) && NonEmpty(k.branchHorizontalLength) &&
                          NonEmpty(k.branchStartOffsetFromTop) && NonEmpty(k.branchEndOffsetFromTop)
  {
  }

  /** The correction changes nothing but the cherry trunk. */
  lemma CorrectionOnlyTouchesCherry(t: Option<string>, heightMin: Int32, heightMax: Int32)
    requires !CreateTrunkPlacerAsWritten(t, heightMin, heightMax).kind.Cherry?
    ensures CreateTrunkPlacer(t, heightMin, heightMax) == CreateTrunkPlacerAsWritten(t, heightMin, heightMax)
  {
  }

  /** Trunk type names are matched case-insensitively. */
  lemma TrunkTypeCaseInsensitive(s: string, heightMin: Int32, heightMax: Int32)
    ensures CreateTrunkPlacer(Some(s), heightMin, heightMax) == CreateTrunkPlacer(Some(ToLower(s)), heightMin, heightMax)
  {
    ToLowerIdempotent(s);
  }

  /** A null trunk type and "upwards_branching" both mean a straight trunk. */
  lemma TrunkDefaults(heightMin: Int32, heightMax: Int32)
    ensures CreateTrunkPlacer(None, heightMin, heightMax) == CreateTrunkPlacer(Some("straight"), heightMin, heightMax)
    ensures CreateTrunkPlacer(Some("upwards_branching"), heightMin, heightMax).kind == Straight
  {
    assert ToLower("straight") == "straight";
    assert ToLower("upwards_branching") == "upwards_branching";
  }

  datatype FoliageKind =
    | Spruce(trunkHeight: IntProvider)
    | Pine(height: IntProvider)
    | Jungle(fixedHeight: int)
    | Acacia
    | DarkOakFoliage
    | MegaPine(crownHeight: IntProvider)
    | RandomSpread(foliageHeight: IntProvider, leafPlacementAttempts: int)
    | CherryFoliage(height: IntProvider)
    | Blob(fixedHeight: int)

  /** A foliage placer: its kind, and the radius and offset every foliage placer takes. */
  datatype FoliagePlacer = FoliagePlacer(kind: FoliageKind, radius: IntProvider, offset: IntProvider)

  /** The type name that selects each kind. */
  function FoliageTypeName(k: FoliageKind): string
  {
    match k
    case Spruce(_) => "spruce"
    case Pine(_) => "pine"
    case Jungle(_) => "jungle"
    case Acacia => "acacia"
    case DarkOakFoliage => "dark_oak"
    case MegaPine(_) => "mega_pine"
    case RandomSpread(_, _) => "random_spread"
    case CherryFoliage(_) => "cherry"
    case Blob(_) => "blob"
  }

  /** The names that select something other than blob foliage. */
  const NonBlobFoliageNames: set<string> :=
    {"spruce", "pine", "jungle", "acacia", "dark_oak", "mega_pine", "random_spread", "cherry"}

  /**
   * `createFoliagePlacer`: radius and offset become constant providers; spruce, pine, mega pine,
   * random spread and cherry take the height as a constant provider, jungle and blob as a plain
   * number, acacia and dark oak not at all; random spread makes 50 placement attempts.
   */
  function CreateFoliagePlacer(t: Option<string>, radius: Int32, offset: Int32, height: Int32): (r: FoliagePlacer)
    ensures r.radius == Constant(radius) && r.offset == Constant(offset)
    ensures r.kind.Blob? <==> ToLower(t.GetOr("blob")) !in NonBlobFoliageNames
    ensures !r.kind.Blob? ==> FoliageTypeName(r.kind) == ToLower(t.GetOr("blob"))
    ensures r.kind.Spruce? ==> r.kind.trunkHeight == Constant(height)
    ensures r.kind.Pine? || r.kind.CherryFoliage? ==> r.kind.height == Constant(height)
    ensures r.kind.MegaPine? ==> r.kind.crownHeight == Constant(height)
    ensures r.kind.RandomSpread? ==> r.kind == RandomSpread(Constant(height), 50)
    ensures r.kind.Jungle? || r.kind.Blob? ==> r.kind.fixedHeight == height
  {
    var name := ToLower(t.GetOr("blob"));
    var kind :=
      if name == "spruce" then Spruce(Constant(height))
      else if name == "pine" then Pine(Constant(height))
      else if name == "jungle" then Jungle(height)
      else if name == "acacia" then Acacia
      else if name == "dark_oak" then DarkOakFoliage
      else if name == "mega_pine" then MegaPine(Constant(height))
      else if name == "random_spread" then RandomSpread(Constant(height), 50)
      else if name == "cherry" then CherryFoliage(Constant(height))
      else Blob(height);
    FoliagePlacer(kind, Constant(radius), Constant(offset))
  }

  /** Foliage type names are matched case-insensitively. */
  lemma FoliageTypeCaseInsensitive(s: string, radius: Int32, offset: Int32, height: Int32)
    ensures CreateFoliagePlacer(Some(s), radius, offset, height) == CreateFoliagePlacer(Some(ToLower(s)), radius, offset, height)
  {
    ToLowerIdempotent(s);
  }

  /** A null foliage type means blob foliage. */
  lemma FoliageDefault(radius: Int32, offset: Int32, height: Int32)
    ensures CreateFoliagePlacer(None, radius, offset, height) == FoliagePlacer(Blob(height), Constant(radius), Constant(offset))
  {
    assert ToLower("blob") == "blob";
  }

  /** Each kind's own name selects it: the name table and the dispatch agree. */
  lemma FoliageNamesSelect(k: FoliageKind, radius: Int32, offset: Int32, height: Int32)
    ensures CreateFoliagePlacer(Some(FoliageTypeName(k)), radius, offset, height).kind.Blob? == k.Blob?
    ensures FoliageTypeName(CreateFoliagePlacer(Some(FoliageTypeName(k)), radius, offset, height).kind) == FoliageTypeName(k)
  {
    var n := FoliageTypeName(k);
    assert ToLower(n) == n by {
      forall i | 0 <= i < |n| ensures LowerChar(n[i]) == n[i] {}
    }
  }

  /** Each trunk kind's own name selects a trunk of that kind. */
  lemma TrunkNamesSelect(k: TrunkKind, heightMin: Int32, heightMax: Int32)
    ensures TrunkTypeName(CreateTrunkPlacer(Some(TrunkTypeName(k)), heightMin, heightMax).kind) == TrunkTypeName(k)
  {
    var n := TrunkTypeName(k);
    assert ToLower(n) == n by {
      forall i | 0 <= i < |n| ensures LowerChar(n[i]) == n[i] {}
    }
  }
}
