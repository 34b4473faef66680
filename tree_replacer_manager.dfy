/**
 * Tree replacers (TreeReplacerManager.java): a vanilla tree id and the pool of custom trees that
 * replace it, stored as a `minecraft:simple_random_selector` configured-feature file inside the
 * Tree-Engine datapack. Paths are the names resolved one after another below the datapack root.
 */
module TreeReplacerManager {
  import opened Wrappers
  import opened Text
  import opened Json

  /** A replacer as the Java class holds it; every field may be null. */
  datatype TreeReplacer = TreeReplacer(id: Option<string>, vanillaTreeId: Option<string>, replacementPool: Option<seq<string>>)

  /** The three-argument constructor: a null pool is replaced by an empty one. */
  function NewTreeReplacer(id: Option<string>, vanillaTreeId: Option<string>, pool: Option<seq<string>>): (r: TreeReplacer)
    ensures r.id == id && r.vanillaTreeId == vanillaTreeId
    ensures r.replacementPool.Some?
    ensures pool.Some? ==> r.replacementPool == pool
    ensures pool.None? ==> r.replacementPool == Some([])
  {
    TreeReplacer(id, vanillaTreeId, Some(if pool.Some? then pool.value else []))
  }

  /** Names resolved one after another below the datapack root `config/tree_engine/datapacks/tree_engine_trees`. */
  type RelPath = seq<string>

  /** `data/<namespace>/worldgen/configured_feature/<fileName>`. */
  function FeatureFile(namespace: string, fileName: string): RelPath
  {
    ["data", namespace, "worldgen", "configured_feature", fileName]
  }

  const SimpleSelectorType: string := "minecraft:simple_random_selector"

  datatype ReplacerError =
    | NullVanillaId             // `vanilla_tree_id.split` on null
    | InvalidVanillaId(id: string)
    | NullPool                  // `replacement_pool.isEmpty()` on null
    | EmptyPool

  /** The pool as JSON strings, in order. */
  function PoolStrings(pool: seq<string>): (r: seq<Json>)
    ensures |r| == |pool|
    ensures forall i :: 0 <= i < |pool| ==> r[i] == JStr(pool[i])
  {
    seq(|pool|, i requires 0 <= i < |pool| => JStr(pool[i]))
  }

  /** `{type: "minecraft:simple_random_selector", config: {features: [pool...]}}`. */
  function SelectorJson(pool: seq<string>): Json
  {
    JObj([Member("type", JStr(SimpleSelectorType)), Member("config", Obj1("features", JArr(PoolStrings(pool))))])
  }

  /**
   * What `generateDatapackFile` writes, and where: the vanilla id is split at its first ':'
   * into namespace and path; the pool is checked only after the id.
   */
  function DatapackFile(r: TreeReplacer): Result<(RelPath, Json), ReplacerError>
  {
    if r.vanillaTreeId.None? then Err(NullVanillaId)
    else
      var parts := JavaSplit2(r.vanillaTreeId.value, ':');
      if |parts| != 2 then Err(InvalidVanillaId(r.vanillaTreeId.value))
      else if r.replacementPool.None? then Err(NullPool)
      else if |r.replacementPool.value| == 0 then Err(EmptyPool)
      else Ok((FeatureFile(parts[0], parts[1] + ".json"), SelectorJson(r.replacementPool.value)))
  }

  /** Builds the selector file, appending the pool entries to the features array one by one. */
  method GenerateDatapackFile(r: TreeReplacer) returns (out: Result<(RelPath, Json), ReplacerError>)
    ensures out == DatapackFile(r)
  {
    if r.vanillaTreeId.None? {
      return Err(NullVanillaId);
    }
    var vanillaId := r.vanillaTreeId.value;
    var parts := JavaSplit2(vanillaId, ':');
    if |parts| != 2 {
      return Err(InvalidVanillaId(vanillaId));
    }
    var outputFile := FeatureFile(parts[0], parts[1] + ".json");
    if r.replacementPool.None? {
      return Err(NullPool);
    }
    var pool := r.replacementPool.value;
    if |pool| == 0 {
      return Err(EmptyPool);
    }
    var features: seq<Json> := [];
    var i := 0;
    while i < |pool|
      invariant 0 <= i <= |pool|
      invariant features == PoolStrings(pool[..i])
    {
      features := features + [JStr(pool[i])];
      i := i + 1;
    }
    assert pool[..i] == pool;
    out := Ok((outputFile, JObj([Member("type", JStr(SimpleSelectorType)), Member("config", Obj1("features", JArr(features)))])));
  }

  /** The file is rejected exactly for a null or ':'-free vanilla id, or a null or empty pool. */
  lemma DatapackFileErrors(r: TreeReplacer)
    ensures DatapackFile(r).Err? <==>
      r.vanillaTreeId.None? || ':' !in r.vanillaTreeId.value
      || r.replacementPool.None? || |r.replacementPool.value| == 0
    ensures r.vanillaTreeId.Some? && ':' !in r.vanillaTreeId.value ==>
      DatapackFile(r) == Err(InvalidVanillaId(r.vanillaTreeId.value))
  {
  }

  /** For `ns:path` (split at the first ':'), the file is `data/<ns>/worldgen/configured_feature/<path>.json`. */
  lemma DatapackFileLocation(ns: string, path: string, pool: seq<string>, id: Option<string>)
    requires ':' !in ns && |pool| > 0
    ensures DatapackFile(TreeReplacer(id, Some(ns + ":" + path), Some(pool)))
      == Ok((FeatureFile(ns, path + ".json"), SelectorJson(pool)))
  {
    assert ns + ":" + path == ns + [':'] + path;
    JavaSplit2Pair(ns, ':', path);
  }

  // ---------------------------------------------------------------------------------------------
  // Reading a selector file back

  datatype ParseError =
    | NotAnObject        // `getAsJsonObject` on a non-object
    | NoStringValue      // `getAsString` on null, an object or an array of other than one element
    | WrongMemberType    // `getAsJsonObject(key)` / `getAsJsonArray(key)` on a member of another type

  /**
   * The pool read from a `features` array. `numeral` gives the text Gson keeps for a number
   * literal of the file, which `getAsString` returns.
   */
  function PoolOf(items: seq<Json>, numeral: real -> string): Result<seq<string>, ParseError>
  {
    if |items| == 0 then Ok([])
    else
      match PoolOf(items[..|items| - 1], numeral)
      case Err(e) => Err(e)
      case Ok(pool) => EntryStep(pool, items[|items| - 1], numeral)
  }

  /**
   * One entry: a string is added; an object with `feature` adds that member's text (a number's
   * literal text included); anything else is skipped.
   */
  function EntryStep(pool: seq<string>, element: Json, numeral: real -> string): Result<seq<string>, ParseError>
  {
    match element
    case JStr(s) => Ok(pool + [s])
    case JObj(_) =>
      if !Has(element, "feature") then Ok(pool)
      else
        (match GetAsString(Get(element, "feature").value)
         case None => Err(NoStringValue)
         case Some(Numeral(n)) => Ok(pool + [numeral(n)])
         case Some(Text(t)) => Ok(pool + [t]))
    case _ => Ok(pool)
  }

  /** A pool entry whose `feature` is a number adds that number's literal text, as `getAsString` gives it. */
  lemma NumericFeatureKept(pool: seq<string>, n: real, numeral: real -> string)
    ensures EntryStep(pool, Obj1("feature", JNum(n)), numeral) == Ok(pool + [numeral(n)])
  {
    assert KeyIndex(Obj1("feature", JNum(n)).members, "feature") == 0;
  }

  /** The replacer id derived from a file name: "minecraft:" + the name with every ".json" removed. */
  function VanillaIdOfFile(fileName: string): string
  {
    "minecraft:" + RemoveAll(fileName, ".json")
  }

  /**
   * What `parseReplacerFile` makes of a file's JSON: `Ok(None)` where it returns null, `Err`
   * where it throws. A numeric `type` is never the selector type, whose text no number literal
   * spells, so its text is not needed.
   */
  function ParsedReplacer(fileName: string, content: Json, numeral: real -> string): Result<Option<TreeReplacer>, ParseError>
  {
    if !content.JObj? then Err(NotAnObject)
    else if !Has(content, "type") then Ok(None)
    else
      match GetAsString(Get(content, "type").value)
      case None => Err(NoStringValue)
      case Some(t) =>
        if t != Text(SimpleSelectorType) then Ok(None)
        else if !Has(content, "config") then Ok(None)
        else
          var config := Get(content, "config").value;
          if !config.JObj? then Err(WrongMemberType)
          else if !Has(config, "features") then Ok(None)
          else
            var features := Get(config, "features").value;
            if !features.JArr? then Err(WrongMemberType)
            else
              match PoolOf(features.items, numeral)
              case Err(e) => Err(e)
              case Ok(pool) =>
                var vanillaId := VanillaIdOfFile(fileName);
                Ok(Some(NewTreeReplacer(Some(vanillaId), Some(vanillaId), Some(pool))))
  }

  /** Parses a selector file, collecting the pool entry by entry. */
  method ParseReplacerFile(fileName: string, content: Json, numeral: real -> string) returns (r: Result<Option<TreeReplacer>, ParseError>)
    ensures r == ParsedReplacer(fileName, content, numeral)
  {
    if !content.JObj? {
      return Err(NotAnObject);
    }
    if !Has(content, "type") {
      return Ok(None);
    }
    var t := GetAsString(Get(content, "type").value);
    if t.None? {
      return Err(NoStringValue);
    }
    if t.value != Text(SimpleSelectorType) || !Has(content, "config") {
      return Ok(None);
    }
    var config := Get(content, "config").value;
    if !config.JObj? {
      return Err(WrongMemberType);
    }
    if !Has(config, "features") {
      return Ok(None);
    }
    var features := Get(config, "features").value;
    if !features.JArr? {
      return Err(WrongMemberType);
    }
    var items := features.items;
    var pool: seq<string> := [];
    var i := 0;
    while i < |items|
      invariant 0 <= i <= |items|
      invariant PoolOf(items[..i], numeral) == Ok(pool)
    {
      assert items[..i + 1][..i] == items[..i];
      var step := EntryStep(pool, items[i], numeral);
      if step.Err? {
        assert PoolOf(items[..i + 1], numeral) == step;
        PoolOfErrSticks(items, i + 1, step.error, numeral);
        assert items[..|items|] == items;
        return Err(step.error);
      }
      pool := step.value;
      i := i + 1;
    }
    assert items[..i] == items;
    var vanillaId := VanillaIdOfFile(fileName);
    r := Ok(Some(NewTreeReplacer(Some(vanillaId), Some(vanillaId), Some(pool))));
  }

  /** Once an entry fails, the whole array fails with that error. */
  lemma {:induction false} PoolOfErrSticks(items: seq<Json>, k: int, e: ParseError, numeral: real -> string)
    requires 0 <= k <= |items| && PoolOf(items[..k], numeral) == Err(e)
    ensures PoolOf(items, numeral) == Err(e)
    decreases |items| - k
  {
    if k < |items| {
      assert items[..k + 1][..k] == items[..k];
      PoolOfErrSticks(items, k + 1, e, numeral);
    } else {
      assert items[..k] == items;
    }
  }

  /** A pool of strings reads back as itself. */
  lemma {:induction false} PoolOfStrings(pool: seq<string>, numeral: real -> string)
    ensures PoolOf(PoolStrings(pool), numeral) == Ok(pool)
    decreases |pool|
  {
    if |pool| > 0 {
      var init := pool[..|pool| - 1];
      assert PoolStrings(pool)[..|pool| - 1] == PoolStrings(init);
      PoolOfStrings(init, numeral);
      assert init + [pool[|pool| - 1]] == pool;
    }
  }

  /** Removing ".json" from `p + ".json"` gives `p` back when `p` itself holds no ".json". */
  lemma {:induction false} RemoveJsonSuffix(p: string)
    requires !Contains(p, ".json")
    ensures RemoveAll(p + ".json", ".json") == p
    decreases |p|
  {
    var s := p + ".json";
    if |p| == 0 {
      assert s == ".json";
      assert s[5..] == "";
    } else {
      assert s[..5] != ".json" by {
        if |p| >= 5 {
          assert p[..5] == s[..5];
          assert OccursAt(p, ".json", 0) <==> p[..5] == ".json";
        } else {
          assert s[|p|] == '.' && ".json"[|p|] != '.';
        }
      }
      if Contains(p[1..], ".json") {
        var i :| 0 <= i <= |p[1..]| - 5 && OccursAt(p[1..], ".json", i);
        assert p[1..][i..i + 5] == p[i + 1..i + 6];
        assert OccursAt(p, ".json", i + 1);
        assert false;
      }
      RemoveJsonSuffix(p[1..]);
      assert s[1..] == p[1..] + ".json";
      assert [p[0]] + p[1..] == p;
    }
  }

  /**
   * Round trip: the file generated for `minecraft:p` and a pool, read back under its own file name,
   * gives the replacer `minecraft:p` with the same pool.
   */
  lemma GenerateThenParse(p: string, pool: seq<string>, id: Option<string>, numeral: real -> string)
    requires |pool| > 0 && !Contains(p, ".json") && '/' !in p
    ensures var out := DatapackFile(TreeReplacer(id, Some("minecraft:" + p), Some(pool)));
      out.Ok? &&
      var (path, json) := out.value;
      ParsedReplacer(path[|path| - 1], json, numeral)
        == Ok(Some(TreeReplacer(Some("minecraft:" + p), Some("minecraft:" + p), Some(pool))))
  {
    var fileName := p + ".json";
    assert "minecraft:" + p == "minecraft" + ":" + p;
    DatapackFileLocation("minecraft", p, pool, id);
    var out := DatapackFile(TreeReplacer(id, Some("minecraft:" + p), Some(pool)));
    assert out == Ok((FeatureFile("minecraft", fileName), SelectorJson(pool)));
    var path := out.value.0;
    assert path[|path| - 1] == fileName;
    SelectorParses(fileName, pool, numeral);
    RemoveJsonSuffix(p);
    assert VanillaIdOfFile(fileName) == "minecraft:" + p;
  }

  /** A generated selector file reads back as its pool, under the id its file name gives. */
  lemma SelectorParses(fileName: string, pool: seq<string>, numeral: real -> string)
    ensures var v := VanillaIdOfFile(fileName);
            ParsedReplacer(fileName, SelectorJson(pool), numeral) == Ok(Some(TreeReplacer(Some(v), Some(v), Some(pool))))
  {
    SelectorJsonReads(pool);
    var j := SelectorJson(pool);
    var features := Get(Get(j, "config").value, "features").value;
    PoolOfStrings(pool, numeral);
    assert PoolOf(features.items, numeral) == Ok(pool);
  }

  /** The members `parseReplacerFile` looks up are where `generateDatapackFile` put them. */
  lemma SelectorJsonReads(pool: seq<string>)
    ensures Get(SelectorJson(pool), "type") == Some(JStr(SimpleSelectorType))
    ensures Get(SelectorJson(pool), "config") == Some(Obj1("features", JArr(PoolStrings(pool))))
    ensures Get(Obj1("features", JArr(PoolStrings(pool))), "features") == Some(JArr(PoolStrings(pool)))
  {
    var ms := SelectorJson(pool).members;
    assert KeyIndex(ms[1..], "config") == 0;
  }

  // ---------------------------------------------------------------------------------------------
  // Locating a replacer by id

  /** The file `get` reads: "minecraft:x" (exactly two ':'-pieces) maps to "x.json"; any other id is used verbatim. */
  function GetPath(id: string): RelPath
  {
    var pathStr :=
      if ':' in id && |JavaSplit(id, ':')| == 2 && JavaSplit(id, ':')[0] == "minecraft"
      then JavaSplit(id, ':')[1] else id;
    FeatureFile("minecraft", pathStr + ".json")
  }

  /** The file delete removes: split at the first ':', defaulting the namespace to "minecraft". */
  function DeletePath(id: string): RelPath
  {
    var parts := JavaSplit2(id, ':');
    var ns := if |parts| == 2 then parts[0] else "minecraft";
    var path := if |parts| == 2 then parts[1] else id;
    FeatureFile(ns, path + ".json")
  }

  /** The on-disk state of one file: missing, failing to read, unparsable text, or parsed JSON. */
  datatype FileState = Missing | Unreadable | Unparsable | Parsed(json: Json)

  datatype GetError = SyntaxError | Malformed(e: ParseError)

  /**
   * `get(id)`: null when the file is missing, fails to read (the `IOException` is caught) or is
   * not a selector; a parse exception escapes.
   */
  function GetReplacer(id: string, file: RelPath -> FileState, numeral: real -> string): Result<Option<TreeReplacer>, GetError>
  {
    var path := GetPath(id);
    match file(path)
    case Missing => Ok(None)
    case Unreadable => Ok(None)
    case Unparsable => Err(SyntaxError)
    case Parsed(j) =>
      match ParsedReplacer(path[|path| - 1], j, numeral)
      case Err(e) => Err(Malformed(e))
      case Ok(r) => Ok(r)
  }

  /** `minecraft:x` with a non-empty `x` free of ':' is read from `x.json`, where it was generated. */
  lemma GetPathOfVanillaId(x: string, pool: seq<string>, id: Option<string>)
    requires x != "" && ':' !in x && |pool| > 0
    ensures GetPath("minecraft:" + x) == FeatureFile("minecraft", x + ".json")
    ensures GetPath("minecraft:" + x) == DeletePath("minecraft:" + x)
    ensures DatapackFile(TreeReplacer(id, Some("minecraft:" + x), Some(pool))).value.0 == GetPath("minecraft:" + x)
  {
    assert "minecraft:" + x == "minecraft" + [':'] + x;
    JavaSplitPair("minecraft", ':', x);
    JavaSplit2Pair("minecraft", ':', x);
    DatapackFileLocation("minecraft", x, pool, id);
  }

  /**
   * `get` of `minecraft:x` reads the file generated for that id and gives back the replacer with
   * the pool the file was generated from; with the file missing or unreadable it gives null.
   */
  lemma GetFindsGenerated(x: string, pool: seq<string>, file: RelPath -> FileState, numeral: real -> string)
    requires x != "" && ':' !in x && !Contains(x, ".json") && |pool| > 0
    ensures file(FeatureFile("minecraft", x + ".json")) == Parsed(SelectorJson(pool)) ==>
              GetReplacer("minecraft:" + x, file, numeral)
                == Ok(Some(TreeReplacer(Some("minecraft:" + x), Some("minecraft:" + x), Some(pool))))
    ensures file(FeatureFile("minecraft", x + ".json")) in {Missing, Unreadable} ==>
              GetReplacer("minecraft:" + x, file, numeral) == Ok(None)
  {
    GetPathOfVanillaId(x, pool, None);
    var path := GetPath("minecraft:" + x);
    assert path[|path| - 1] == x + ".json";
    SelectorParses(x + ".json", pool, numeral);
    RemoveJsonSuffix(x);
  }

  /** An id without ':' is used verbatim by `get` and resolved in the minecraft namespace by delete. */
  lemma PlainIdPaths(id: string)
    requires ':' !in id
    ensures GetPath(id) == FeatureFile("minecraft", id + ".json")
    ensures DeletePath(id) == GetPath(id)
  {
  }

  /** Another namespace is not mapped by `get`, so `get` and delete address different files. */
  lemma OtherNamespaceDisagrees(ns: string, x: string)
    requires ns != "minecraft" && ':' !in ns && ':' !in x && x != ""
    ensures GetPath(ns + ":" + x) == FeatureFile("minecraft", ns + ":" + x + ".json")
    ensures DeletePath(ns + ":" + x) == FeatureFile(ns, x + ".json")
  {
    var id := ns + ":" + x;
    assert id == ns + [':'] + x;
    assert id[|ns|] == ':';
    JavaSplitPair(ns, ':', x);
    JavaSplit2Pair(ns, ':', x);
  }
}
