/**
 * The REST handler of the web editor (TreeApiHandler.java): routing of `/api/...` requests, and
 * the checks each tree and replacer handler makes, in the order it makes them. File contents,
 * the clock and the decoder's results are parameters; what a handler would write or delete is
 * returned as a list of effects next to the response.
 */
module TreeApiHandler {
  import opened Wrappers
  import opened Text
  import opened Json
  import InputValidator
  import PathValidator
  import TreeReplacerManager
  import RegistryUtils

  // ---------------------------------------------------------------------------------------------
  // Responses and effects

  /** A response body: literal text, or a document Gson renders. */
  datatype Body = Raw(text: string) | Document(json: Json)

  datatype Response = Response(status: int, body: Body)

  /** `sendError`: `{"error": "<message>"}`. */
  function ErrorResponse(code: int, message: string): Response
  {
    Response(code, Raw("{\"error\": \"" + message + "\"}"))
  }

  /** The two directories of the Tree-Engine datapack that tree handlers write. */
  datatype FeatureDir = ConfiguredFeatureDir | PlacedFeatureDir

  /** What a handler does to files and to the live registry. */
  datatype Effect =
    | WriteFeature(dir: FeatureDir, fileName: string, content: Json)
    | DeleteFeature(dir: FeatureDir, fileName: string)
    | RegisterTree(featureId: string, config: Json)
    | UnregisterTree(featureId: string)
    | WriteReplacer(path: TreeReplacerManager.RelPath, content: Json)
    | DeleteReplacerFile(path: TreeReplacerManager.RelPath)
    | UpdateReplacer(replacer: TreeReplacerManager.TreeReplacer)
    | UnregisterReplacer(replacerId: string)

  datatype Outcome = Outcome(response: Response, effects: seq<Effect>)

  /**
   * How a handler's file-system calls go: all complete, or the one at index `call` (counted from
   * 0 in the order the handler makes them) throws and none after it is made.
   */
  datatype Io = Completes | ThrowsAt(call: nat)

  /** The first `n` file-system calls complete. */
  predicate Reaches(io: Io, n: nat)
  {
    io.Completes? || io.call >= n
  }

  // ---------------------------------------------------------------------------------------------
  // Routing

  /** What `handle` does with a request. */
  datatype Action =
    | ListTrees
    | SaveTree
    | GetTree(id: string)
    | DeleteTree(id: string)
    | ListVanilla
    | GetVanilla(id: string)
    | ListReplacers
    | SaveReplacer
    | GetReplacer(id: string)
    | DeleteReplacer(id: string)
    | HotReload
    | Reply(status: int, message: string)  // `sendError` straight from `handle`
    | NoResponse                           // no branch matches and nothing is sent

  const NotFound: Action := Reply(404, "Not found")
  const MethodNotAllowed: Action := Reply(405, "Method not allowed")
  const VanillaPrefix: string := "/api/vanilla_tree/"

  /** One trailing '/' removed. */
  function StripSlash(path: string): (r: string)
    ensures |r| <= |path| && r == path[..|r|]
    ensures |r| >= |path| - 1
    ensures r != path <==> |path| > 0 && path[|path| - 1] == '/'
  {
    if |path| > 0 && path[|path| - 1] == '/' then path[..|path| - 1] else path
  }

  /**
   * `handle`: the path loses one trailing '/' and is split on '/'; segment 2 names the
   * endpoint. The `vanilla_tree` id is taken from the raw path instead.
   */
  function Route(verb: string, path: string): Action
  {
    Dispatch(verb, JavaSplit(StripSlash(path), '/'), path)
  }

  /** The branches of `handle` on the segments of the path. */
  function Dispatch(verb: string, parts: seq<string>, path: string): Action
  {
    if |parts| < 3 then NotFound
    else
      var endpoint := parts[2];
      if endpoint == "trees" then
        if |parts| == 3 then
          if verb == "GET" then ListTrees
          else if verb == "POST" then SaveTree
          else MethodNotAllowed
        else if |parts| == 4 then
          if verb == "GET" then GetTree(parts[3])
          else if verb == "DELETE" then DeleteTree(parts[3])
          else if verb == "PUT" || verb == "POST" then SaveTree
          else MethodNotAllowed
        else NoResponse
      else if endpoint == "vanilla_trees" then
        if verb == "GET" then ListVanilla else MethodNotAllowed
      else if endpoint == "vanilla_tree" then
        if verb == "GET" then
          if StartsWith(path, VanillaPrefix) then GetVanilla(path[|VanillaPrefix|..])
          else Reply(400, "Invalid ID")
        else MethodNotAllowed
      else if endpoint == "replacers" then
        if |parts| == 3 then
          if verb == "GET" then ListReplacers
          else if verb == "POST" then SaveReplacer
          else MethodNotAllowed
        else if |parts| == 4 then
          if verb == "GET" then GetReplacer(parts[3])
          else if verb == "DELETE" then DeleteReplacer(parts[3])
          else MethodNotAllowed
        else NoResponse
      else if endpoint == "hot-reload" then
        if verb == "POST" then HotReload else MethodNotAllowed
      else NotFound
  }

  /** Segments free of '/' joined by '/' split back into themselves. */
  lemma {:induction false} PiecesOfJoin(segs: seq<string>)
    requires |segs| >= 1 && forall k :: 0 <= k < |segs| ==> '/' !in segs[k]
    ensures Pieces(Join(segs, "/"), '/') == segs
    decreases |segs|
  {
    if |segs| == 1 {
      PiecesOfPlain(segs[0], '/');
    } else {
      PiecesOfJoin(segs[1..]);
      assert Join(segs, "/") == segs[0] + ['/'] + Join(segs[1..], "/");
      PiecesAppend(segs[0], '/', Join(segs[1..], "/"));
      assert segs == [segs[0]] + segs[1..];
    }
  }

  /** One more leading segment. */
  lemma JoinStep(a: string, rest: seq<string>)
    requires |rest| >= 1
    ensures Join([a] + rest, "/") == a + "/" + Join(rest, "/")
  {
    assert ([a] + rest)[1..] == rest;
  }

  /** `/api/` followed by segments joined with '/'. */
  function ApiPath(segs: seq<string>): string
  {
    "/api/" + Join(segs, "/")
  }

  /** Non-empty segments free of '/' after `/api/` split into "", "api" and the segments. */
  lemma SplitApiPath(segs: seq<string>)
    requires |segs| >= 1 && forall k :: 0 <= k < |segs| ==> '/' !in segs[k] && segs[k] != ""
    ensures JavaSplit(ApiPath(segs), '/') == ["", "api"] + segs
  {
    var all := ["", "api"] + segs;
    JoinStep("", ["api"] + segs);
    JoinStep("api", segs);
    assert all == [""] + (["api"] + segs);
    assert ["api"] + segs == ["api"] + segs;
    assert Join(all, "/") == ApiPath(segs);
    assert all[|all| - 1] == segs[|segs| - 1];
    SplitOfJoin(all);
  }

  /** With two or more segments and a non-empty last one, Java's split returns exactly the segments. */
  lemma SplitOfJoin(segs: seq<string>)
    requires |segs| >= 2 && segs[|segs| - 1] != ""
    requires forall k :: 0 <= k < |segs| ==> '/' !in segs[k]
    ensures JavaSplit(Join(segs, "/"), '/') == segs
  {
    PiecesOfJoin(segs);
    var s := Join(segs, "/");
    assert s == segs[0] + "/" + Join(segs[1..], "/");
    assert s[|segs[0]|] == '/';
  }

  /** `/api/<e><rest>`, where `rest` is empty or starts a new segment, has endpoint `e`. */
  lemma EndpointOf(e: string, rest: string)
    requires e != "" && '/' !in e && (rest == "" || rest[0] == '/')
    ensures var parts := JavaSplit("/api/" + e + rest, '/'); |parts| >= 3 && parts[2] == e
  {
    var t := e + rest;
    var s := "/api/" + t;
    assert s == "/api/" + e + rest;
    assert s == ['/'] + "api" + ['/'] + t;
    RootedSegmentPieces("api", '/', t);
    FirstPieceIs(e, rest);
    assert s[0] == '/';
    var ps := Pieces(s, '/');
    assert ps[2] == e;
    var r := DropTrailingEmpty(ps);
    assert ps[2] != "";
    assert |r| > 2;
  }

  /** A segment followed by nothing or by a '/' is the first piece. */
  lemma FirstPieceIs(e: string, rest: string)
    requires '/' !in e && (rest == "" || rest[0] == '/')
    ensures Pieces(e + rest, '/')[0] == e
  {
    if rest == "" {
      assert e + rest == e;
      PiecesOfPlain(e, '/');
    } else {
      assert e + rest == e + ['/'] + rest[1..];
      PiecesAppend(e, '/', rest[1..]);
    }
  }

  /** `/api/trees`, with or without a trailing '/': GET lists, POST saves, anything else is 405. */
  lemma TreesCollectionRoutes(verb: string)
    ensures Route(verb, "/api/trees") == Route(verb, "/api/trees/")
    ensures Route(verb, "/api/trees") ==
              if verb == "GET" then ListTrees else if verb == "POST" then SaveTree else MethodNotAllowed
  {
    SplitApiPath(["trees"]);
    assert ApiPath(["trees"]) == "/api/trees";
    assert StripSlash("/api/trees/") == "/api/trees";
  }

  /** `/api/trees` with or without a trailing '/' splits into three segments. */
  lemma TreesCollectionSplit()
    ensures JavaSplit("/api/trees", '/') == ["", "api", "trees"]
    ensures JavaSplit("/api/trees/", '/') == ["", "api", "trees"]
  {
    SplitApiPath(["trees"]);
    assert ApiPath(["trees"]) == "/api/trees";
    assert "/api/trees/" == "/api/trees" + ['/'];
    JavaSplitTrailingSeparator("/api/trees", '/');
  }

  /** `/api/trees/{id}`: GET gets, DELETE deletes, PUT or POST saves, anything else is 405. */
  lemma TreeItemRoutes(verb: string, id: string)
    requires id != "" && '/' !in id
    ensures Route(verb, "/api/trees/" + id) ==
              if verb == "GET" then GetTree(id)
              else if verb == "DELETE" then DeleteTree(id)
              else if verb == "PUT" || verb == "POST" then SaveTree
              else MethodNotAllowed
  {
    ItemSplit("trees", id);
    assert "/api/" + "trees" + "/" + id == "/api/trees/" + id;
    assert StripSlash("/api/trees/" + id) == "/api/trees/" + id;
  }

  /** `/api/replacers/{id}`: GET gets, DELETE deletes, anything else (PUT included) is 405. */
  lemma ReplacerItemRoutes(verb: string, id: string)
    requires id != "" && '/' !in id
    ensures Route(verb, "/api/replacers/" + id) ==
              if verb == "GET" then GetReplacer(id)
              else if verb == "DELETE" then DeleteReplacer(id)
              else MethodNotAllowed
  {
    ItemSplit("replacers", id);
    assert "/api/" + "replacers" + "/" + id == "/api/replacers/" + id;
    assert StripSlash("/api/replacers/" + id) == "/api/replacers/" + id;
  }

  /** `/api/<endpoint>/<id>` splits into four segments. */
  lemma ItemSplit(endpoint: string, id: string)
    requires endpoint != "" && id != "" && '/' !in endpoint && '/' !in id
    ensures JavaSplit("/api/" + endpoint + "/" + id, '/') == ["", "api", endpoint, id]
  {
    SplitApiPath([endpoint, id]);
    JoinStep(endpoint, [id]);
    assert [endpoint, id] == [endpoint] + [id];
    assert ApiPath([endpoint, id]) == "/api/" + endpoint + "/" + id;
  }

  /** Trees and replacers paths with five segments match no branch: nothing is sent. */
  lemma DeepPathsUnanswered(verb: string, endpoint: string, a: string, b: string)
    requires endpoint == "trees" || endpoint == "replacers"
    requires a != "" && b != "" && '/' !in a && '/' !in b
    ensures Route(verb, "/api/" + endpoint + "/" + a + "/" + b) == NoResponse
  {
    var path := "/api/" + endpoint + "/" + a + "/" + b;
    DeepSplit(endpoint, a, b);
    assert StripSlash(path) == path;
  }

  /** `/api/<endpoint>/<a>/<b>` splits into five segments. */
  lemma DeepSplit(endpoint: string, a: string, b: string)
    requires endpoint != "" && a != "" && b != "" && '/' !in endpoint && '/' !in a && '/' !in b
    ensures JavaSplit("/api/" + endpoint + "/" + a + "/" + b, '/') == ["", "api", endpoint, a, b]
  {
    var path := "/api/" + endpoint + "/" + a + "/" + b;
    SplitApiPath([endpoint, a, b]);
    JoinStep(endpoint, [a, b]);
    JoinStep(a, [b]);
    assert [endpoint, a, b] == [endpoint] + [a, b] && [a, b] == [a] + [b];
    assert ApiPath([endpoint, a, b]) == path;
  }

  /** The `vanilla_tree` id is the raw rest of the path, slashes (a trailing one too) included. */
  lemma VanillaIdVerbatim(verb: string, id: string)
    ensures Route(verb, VanillaPrefix + id) == if verb == "GET" then GetVanilla(id) else MethodNotAllowed
  {
    VanillaEndpoint(id);
    var path := VanillaPrefix + id;
    assert StartsWith(path, VanillaPrefix) && path[|VanillaPrefix|..] == id;
  }

  /** Whatever follows `/api/vanilla_tree/`, segment 2 is `vanilla_tree`. */
  lemma VanillaEndpoint(id: string)
    ensures var parts := JavaSplit(StripSlash(VanillaPrefix + id), '/');
            |parts| >= 3 && parts[2] == "vanilla_tree"
  {
    var path := VanillaPrefix + id;
    var stripped := StripSlash(path);
    if id == "" {
      assert stripped == "/api/" + "vanilla_tree" + "";
      EndpointOf("vanilla_tree", "");
    } else {
      assert path == "/api/vanilla_tree" + ("/" + id);
      var rest := stripped[|"/api/vanilla_tree"|..];
      assert stripped[..|"/api/vanilla_tree"|] == "/api/vanilla_tree";
      assert stripped == "/api/" + "vanilla_tree" + rest;
      assert rest[0] == '/';
      EndpointOf("vanilla_tree", rest);
    }
  }

  /** A segment that names no endpoint gives 404 whatever the method. */
  lemma UnknownEndpointNotFound(verb: string, e: string)
    requires e != "" && '/' !in e
    requires e != "trees" && e != "vanilla_trees" && e != "vanilla_tree" && e != "replacers" && e != "hot-reload"
    ensures Route(verb, "/api/" + e) == NotFound
  {
    EndpointOf(e, "");
    assert "/api/" + e + "" == "/api/" + e;
  }

  /** Paths of one segment (with or without a trailing '/') give 404. */
  lemma ShortPathNotFound(verb: string, a: string)
    requires '/' !in a
    ensures Route(verb, "/" + a) == NotFound
    ensures Route(verb, "/" + a + "/") == NotFound
  {
    ShortPathSplit(a);
  }

  /** One segment, with or without a trailing '/', splits into fewer than three pieces. */
  lemma ShortPathSplit(a: string)
    requires '/' !in a
    ensures |JavaSplit(StripSlash("/" + a), '/')| < 3
    ensures |JavaSplit(StripSlash("/" + a + "/"), '/')| < 3
  {
    assert StripSlash("/" + a + "/") == "/" + a;
    if a == "" {
      assert "/" + a == "/";
      assert StripSlash("/") == "";
      assert JavaSplit("", '/') == [""];
      RootSplit();
    } else {
      assert StripSlash("/" + a) == "/" + a;
      JoinStep("", [a]);
      assert ["", a] == [""] + [a];
      SplitOfJoin(["", a]);
      assert Join(["", a], "/") == "/" + a;
    }
  }

  /** Java's split of "/" on '/' is empty. */
  lemma RootSplit()
    ensures JavaSplit("/", '/') == []
  {
    assert "/" == "" + ['/'] + "";
    PiecesAppend("", '/', "");
    assert Pieces("", '/') == [""];
    assert Pieces("/", '/') == ["", ""];
    assert "/"[0] == '/';
  }

  /** Outside `vanilla_tree`, one extra trailing '/' does not change the route. */
  lemma TrailingSlashIgnored(verb: string, path: string)
    requires path != "" && path[|path| - 1] != '/'
    requires var parts := JavaSplit(path, '/'); |parts| < 3 || parts[2] != "vanilla_tree"
    ensures Route(verb, path + "/") == Route(verb, path)
  {
    assert StripSlash(path + "/") == path;
    assert StripSlash(path) == path;
  }

  // ---------------------------------------------------------------------------------------------
  // GET and DELETE of a tree

  /** `config/tree_engine/datapacks/tree_engine_trees/data/tree_engine/worldgen/configured_feature`. */
  const DatapackDir: PathValidator.JPath :=
    PathValidator.JPath(false, ["config", "tree_engine", "datapacks", "tree_engine_trees", "data", "tree_engine", "worldgen", "configured_feature"])

  /** A stored file as `handleGet` sees it. */
  datatype StoredFile = Absent | Unreadable | Stored(text: string, parses: bool)

  const InvalidTreeId: Response := Response(400, Raw("{\"error\":\"Invalid tree ID\"}"))

  /**
   * `handleGet`: an invalid id is refused before any path is built; then the file name is
   * resolved inside the datapack directory (`cwd` is the working directory), and the file is
   * answered as it is stored, after checking that it parses.
   */
  function GetTreeResponse(id: string, cwd: seq<string>, files: PathValidator.JPath -> StoredFile): Response
  {
    if !InputValidator.IsValidTreeId(Some(id)) then InvalidTreeId
    else
      match PathValidator.ResolveSafePath(Some(id + ".json"), DatapackDir, cwd)
      case Err(_) => InvalidTreeId
      case Ok(file) =>
        match files(file)
        case Absent => ErrorResponse(404, "Tree not found")
        case Unreadable => Response(500, Raw("{\"error\":\"Failed to load tree\"}"))
        case Stored(text, parses) =>
          if !parses then ErrorResponse(500, "Corrupted JSON file") else Response(200, Raw(text))
  }

  /** `<id>.json` holds a single '.', so it has no "..". */
  lemma NoDotDotInTreeFile(id: string)
    requires '.' !in id
    ensures !Contains(id + ".json", "..")
  {
    var s := id + ".json";
    assert forall k :: |id| < k < |s| ==> s[k] == ".json"[k - |id|];
    assert forall k :: 0 <= k < |s| && k != |id| ==> s[k] != '.';
    forall i | 0 <= i <= |s| - 2
      ensures !OccursAt(s, "..", i)
    {
      assert s[i..i + 2][0] == s[i] && s[i..i + 2][1] == s[i + 1];
    }
  }

  /** The file name of a valid id passes the path validator unchanged. */
  lemma TreeFileNameSafe(id: string)
    requires InputValidator.IsValidTreeId(Some(id))
    ensures PathValidator.SanitizeFileName(Some(id + ".json")) == Some(id + ".json")
  {
    var name := id + ".json";
    assert '.' !in id && '%' !in id;
    assert forall k :: |id| <= k < |name| ==> name[k] == ".json"[k - |id|];
    assert '%' !in name && PathValidator.PlainName(name);
    NoDotDotInTreeFile(id);
    PathValidator.TraversalWithoutPercent(name);
    assert name[0] == id[0];
    PathValidator.SanitizePlainUnchanged(name);
  }

  /** The file a valid id is read from: `<id>.json` in the datapack directory. */
  function TreeFile(id: string): PathValidator.JPath
  {
    PathValidator.JPath(false, DatapackDir.names + [id + ".json"])
  }

  /**
   * An invalid id gets 400 whatever the files hold; a valid one is looked up as `<id>.json` in
   * the datapack directory, the file `handleSave` writes.
   */
  lemma GetTreeLooksUpOwnFile(id: string, cwd: seq<string>, files: PathValidator.JPath -> StoredFile)
    ensures !InputValidator.IsValidTreeId(Some(id)) ==> GetTreeResponse(id, cwd, files) == InvalidTreeId
    ensures InputValidator.IsValidTreeId(Some(id)) ==>
              GetTreeResponse(id, cwd, files) ==
                match files(TreeFile(id))
                case Absent => ErrorResponse(404, "Tree not found")
                case Unreadable => Response(500, Raw("{\"error\":\"Failed to load tree\"}"))
                case Stored(text, parses) =>
                  if !parses then ErrorResponse(500, "Corrupted JSON file") else Response(200, Raw(text))
  {
    if InputValidator.IsValidTreeId(Some(id)) {
      TreeFileNameSafe(id);
    }
  }

  const FailedToDeleteTree: Response := Response(500, Raw("{\"error\":\"Failed to delete tree\"}"))

  /**
   * `handleDelete`: an invalid id is refused with nothing touched. Otherwise the configured and
   * then the placed file are deleted if present (file-system calls 0 and 1) and, with hot reload
   * on, the registry entry is dropped; the answer is 200 when the configured-feature file
   * existed and 404 when not. A delete that throws gives 500 with only the deletes before it
   * done and the registry untouched.
   */
  function DeleteTreeOutcome(id: string, configuredExists: bool, hotReload: bool, io: Io): (r: Outcome)
    ensures !InputValidator.IsValidTreeId(Some(id)) ==> r == Outcome(InvalidTreeId, [])
    ensures InputValidator.IsValidTreeId(Some(id)) && Reaches(io, 2) ==>
              DeleteFeature(ConfiguredFeatureDir, id + ".json") in r.effects
              && DeleteFeature(PlacedFeatureDir, id + ".json") in r.effects
              && (UnregisterTree("tree_engine:" + id) in r.effects <==> hotReload)
              && (r.response.status == 200 <==> configuredExists)
    ensures InputValidator.IsValidTreeId(Some(id)) && !Reaches(io, 2) ==>
              r.response == FailedToDeleteTree
              && (DeleteFeature(ConfiguredFeatureDir, id + ".json") in r.effects <==> Reaches(io, 1))
              && DeleteFeature(PlacedFeatureDir, id + ".json") !in r.effects
              && UnregisterTree("tree_engine:" + id) !in r.effects
    ensures r.response.status == 200 <==> InputValidator.IsValidTreeId(Some(id)) && Reaches(io, 2) && configuredExists
  {
    if !InputValidator.IsValidTreeId(Some(id)) then Outcome(InvalidTreeId, [])
    else if !Reaches(io, 2) then
      Outcome(FailedToDeleteTree, if Reaches(io, 1) then [DeleteFeature(ConfiguredFeatureDir, id + ".json")] else [])
    else
      var deletes := [DeleteFeature(ConfiguredFeatureDir, id + ".json"), DeleteFeature(PlacedFeatureDir, id + ".json")];
      var registry := if hotReload then [UnregisterTree("tree_engine:" + id)] else [];
      var response := if configuredExists then Response(200, Raw("{\"success\": true}")) else ErrorResponse(404, "Tree not found");
      Outcome(response, deletes + registry)
  }

  // ---------------------------------------------------------------------------------------------
  // Saving a tree

  /** The concatenation of the chunks a reader hands out. */
  function Concat(chunks: seq<string>): (r: string)
    ensures |chunks| == 0 ==> r == ""
  {
    if |chunks| == 0 then "" else chunks[0] + Concat(chunks[1..])
  }

  lemma {:induction false} ConcatSnoc(chunks: seq<string>, c: string)
    ensures Concat(chunks + [c]) == Concat(chunks) + c
    decreases |chunks|
  {
    if |chunks| > 0 {
      assert (chunks + [c])[1..] == chunks[1..] + [c];
      ConcatSnoc(chunks[1..], c);
    }
  }

  /** The text cut into pieces of at most `n` characters, as a reader with an `n`-character buffer may deliver it. */
  function ChunksOf(s: string, n: nat): (r: seq<string>)
    requires n > 0
    ensures forall k :: 0 <= k < |r| ==> 0 < |r[k]| <= n
    decreases |s|
  {
    if |s| == 0 then [] else if |s| <= n then [s] else [s[..n]] + ChunksOf(s[n..], n)
  }

  /** Reading in 8192-character chunks and appending them gives back the whole body. */
  lemma {:induction false} ChunksRejoin(s: string, n: nat)
    requires n > 0
    ensures Concat(ChunksOf(s, n)) == s
    decreases |s|
  {
    if |s| > n {
      ChunksRejoin(s[n..], n);
      assert s[..n] + s[n..] == s;
    }
  }

  /** The `StringBuilder` loop of `handleSave`: appends every chunk the reader hands out. */
  method ReadBody(chunks: seq<string>) returns (body: string)
    ensures body == Concat(chunks)
  {
    body := "";
    var i := 0;
    while i < |chunks|
      invariant 0 <= i <= |chunks|
      invariant body == Concat(chunks[..i])
    {
      ConcatSnoc(chunks[..i], chunks[i]);
      assert chunks[..i + 1] == chunks[..i] + [chunks[i]];
      body := body + chunks[i];
      i := i + 1;
    }
    assert chunks[..i] == chunks;
  }

  const PayloadTooLarge: Response := Response(413, Raw("{\"error\":\"Payload too large\"}"))
  const FailedToSaveTree: Response := Response(400, Raw("{\"error\":\"Failed to save tree\"}"))
  const MissingType: Response := ErrorResponse(400, "Invalid feature JSON: missing 'type' field")

  /** `{feature: "tree_engine:<id>", placement: []}`. */
  function PlacedFeature(id: string): Json
  {
    JObj([Member("feature", JStr("tree_engine:" + id)), Member("placement", JArr([]))])
  }

  /** The saved document: the body without its "id" member. */
  function WithoutId(j: Json): (r: Json)
    requires j.JObj?
    ensures r.JObj? && !Has(r, "id")
    ensures forall m :: m in r.members <==> m in j.members && m.key != "id"
  {
    var r := JObj(Remove(j.members, "id"));
    assert KeyIndex(r.members, "id") < 0;
    r
  }

  /** The checks of `handleSave` before anything is written, in the order it makes them. */
  predicate SaveChecksPass(body: string, parsed: Option<Json>, rawPath: string)
  {
    InputValidator.IsValidJsonSize(Some(body)) && parsed.Some? && Has(parsed.value, "type")
    && |JavaSplit(rawPath, '/')| >= 4 && InputValidator.IsValidTreeId(Some(JavaSplit(rawPath, '/')[3]))
  }

  /**
   * `handleSave` after the body is read: the size limit first (413), then the parse (a syntax
   * error escapes to the 400 of the catch), then the "type" member, then segment 3 of the raw
   * path as id (missing: the index error becomes the same 400; invalid: "Invalid tree ID").
   * A saved tree makes four file-system calls: the datapack directory (0), the cleaned document
   * (1), the placed-feature directory (2) and the placed feature (3); any of them throwing ends
   * in the 400 of the catch with the writes before it done. After them, with hot reload on, the
   * tree is registered; a failing registration is swallowed.
   */
  function SaveTreeOutcome(body: string, parsed: Option<Json>, rawPath: string, hotReload: bool, io: Io): Outcome
  {
    if !InputValidator.IsValidJsonSize(Some(body)) then Outcome(PayloadTooLarge, [])
    else if parsed.None? then Outcome(FailedToSaveTree, [])
    else if !Has(parsed.value, "type") then Outcome(MissingType, [])
    else
      var parts := JavaSplit(rawPath, '/');
      if |parts| < 4 then Outcome(FailedToSaveTree, [])
      else
        var id := parts[3];
        if !InputValidator.IsValidTreeId(Some(id)) then Outcome(InvalidTreeId, [])
        else
          WriteTreeOutcome(id, WithoutId(parsed.value), hotReload, io)
  }

  /**
   * The writes of a checked save: the datapack directory (call 0), `<id>.json` with the cleaned
   * document (1), the placed-feature directory (2) and the placed feature (3); a throw ends in
   * the 400 of the catch with the writes before it done. Then, with hot reload on, the tree is
   * registered and the answer is `{"id": "<id>"}`.
   */
  function WriteTreeOutcome(id: string, json: Json, hotReload: bool, io: Io): Outcome
  {
    var configured := WriteFeature(ConfiguredFeatureDir, id + ".json", json);
    if !Reaches(io, 4) then Outcome(FailedToSaveTree, if Reaches(io, 2) then [configured] else [])
    else
      var writes := [configured, WriteFeature(PlacedFeatureDir, id + ".json", PlacedFeature(id))];
      var registry := if hotReload then [RegisterTree("tree_engine:" + id, json)] else [];
      Outcome(Response(200, Raw("{\"id\": \"" + id + "\"}")), writes + registry)
  }

  /** The write steps of `handleSave`, one file-system call at a time. */
  method WriteTree(id: string, doc: Json, hotReload: bool, io: Io) returns (out: Outcome)
    ensures out == WriteTreeOutcome(id, doc, hotReload, io)
  {
    var effects: seq<Effect> := [];
    if io == ThrowsAt(0) || io == ThrowsAt(1) {
      return Outcome(FailedToSaveTree, effects);
    }
    effects := effects + [WriteFeature(ConfiguredFeatureDir, id + ".json", doc)];
    if io == ThrowsAt(2) || io == ThrowsAt(3) {
      return Outcome(FailedToSaveTree, effects);
    }
    effects := effects + [WriteFeature(PlacedFeatureDir, id + ".json", PlacedFeature(id))];
    if hotReload {
      effects := effects + [RegisterTree("tree_engine:" + id, doc)];
    }
    out := Outcome(Response(200, Raw("{\"id\": \"" + id + "\"}")), effects);
  }

  /**
   * `handleSave`: reads the body chunk by chunk, then checks and writes step by step as
   * `SaveTreeOutcome` describes; `parse` is Gson's parser (`None` for a syntax error). The "id"
   * member is removed before the first file-system call rather than after it, which changes
   * nothing since the removal cannot throw.
   */
  method HandleSave(chunks: seq<string>, parse: string -> Option<Json>, rawPath: string, hotReload: bool, io: Io)
    returns (out: Outcome)
    ensures out == SaveTreeOutcome(Concat(chunks), parse(Concat(chunks)), rawPath, hotReload, io)
  {
    var jsonString := ReadBody(chunks);
    if !InputValidator.IsValidJsonSize(Some(jsonString)) {
      return Outcome(PayloadTooLarge, []);
    }
    var json := parse(jsonString);
    if json.None? {
      return Outcome(FailedToSaveTree, []);
    }
    if !json.value.JObj? || KeyIndex(json.value.members, "type") < 0 {
      return Outcome(MissingType, []);
    }
    var parts := JavaSplit(rawPath, '/');
    if |parts| < 4 {
      return Outcome(FailedToSaveTree, []);
    }
    var id := parts[3];
    if !InputValidator.IsValidTreeId(Some(id)) {
      return Outcome(InvalidTreeId, []);
    }
    var doc := json.value;
    if KeyIndex(doc.members, "id") >= 0 {
      doc := JObj(Remove(doc.members, "id"));
    } else {
      RemoveAbsentKey(doc.members, "id");
    }
    out := WriteTree(id, doc, hotReload, io);
  }

  /** The outcome of a save that passes every check and whose writes complete, for the id in segment 3 of the path. */
  lemma SaveAccepted(body: string, doc: Json, rawPath: string, hotReload: bool, io: Io)
    requires SaveChecksPass(body, Some(doc), rawPath) && Reaches(io, 4)
    ensures var id := JavaSplit(rawPath, '/')[3];
            SaveTreeOutcome(body, Some(doc), rawPath, hotReload, io) ==
              Outcome(Response(200, Raw("{\"id\": \"" + id + "\"}")),
                      [WriteFeature(ConfiguredFeatureDir, id + ".json", WithoutId(doc)),
                       WriteFeature(PlacedFeatureDir, id + ".json", PlacedFeature(id))]
                      + (if hotReload then [RegisterTree("tree_engine:" + id, WithoutId(doc))] else []))
  {
  }

  /**
   * A save that passes every check but whose file-system call `k` throws answers 400 "Failed to
   * save tree"; the cleaned document has been written exactly when `k` is past its write, the
   * placed feature never, and nothing is registered.
   */
  lemma SaveWriteThrows(body: string, doc: Json, rawPath: string, hotReload: bool, k: nat)
    requires SaveChecksPass(body, Some(doc), rawPath) && k < 4
    ensures var id := JavaSplit(rawPath, '/')[3];
            SaveTreeOutcome(body, Some(doc), rawPath, hotReload, ThrowsAt(k)) ==
              Outcome(FailedToSaveTree, if k >= 2 then [WriteFeature(ConfiguredFeatureDir, id + ".json", WithoutId(doc))] else [])
  {
  }

  /** Removing an absent key changes nothing. */
  lemma {:induction false} RemoveAbsentKey(ms: seq<Member>, key: string)
    requires KeyIndex(ms, key) < 0
    ensures Remove(ms, key) == ms
    decreases |ms|
  {
    if |ms| > 0 {
      assert ms[0].key != key;
      assert KeyIndex(ms[1..], key) < 0;
      RemoveAbsentKey(ms[1..], key);
      assert Remove(ms, key) == [ms[0]] + Remove(ms[1..], key);
      assert [ms[0]] + ms[1..] == ms;
    }
  }

  /**
   * A save succeeds exactly when every check passes and all four file-system calls complete; a
   * refused save touches nothing, and a failed one has at most written the cleaned document.
   */
  lemma SaveRefusalsTouchNothing(body: string, parsed: Option<Json>, rawPath: string, hotReload: bool, io: Io)
    ensures var out := SaveTreeOutcome(body, parsed, rawPath, hotReload, io);
            (out.response.status == 200 <==> SaveChecksPass(body, parsed, rawPath) && Reaches(io, 4))
            && (!SaveChecksPass(body, parsed, rawPath) ==> out.effects == [])
            && (out.response.status != 200 ==>
                  forall e :: e in out.effects ==> e.WriteFeature? && e.dir == ConfiguredFeatureDir)
  {
  }

  /**
   * Saving `/api/trees/<id>` with every write completing writes the body minus "id" to
   * `<id>.json`, the file the GET of the same id reads, writes a placed feature naming
   * `tree_engine:<id>`, and answers `{"id": "<id>"}`.
   */
  lemma SaveWritesWhatGetReads(body: string, doc: Json, id: string, hotReload: bool, io: Io, cwd: seq<string>)
    requires InputValidator.IsValidJsonSize(Some(body)) && Has(doc, "type")
    requires InputValidator.IsValidTreeId(Some(id)) && Reaches(io, 4)
    ensures var out := SaveTreeOutcome(body, Some(doc), "/api/trees/" + id, hotReload, io);
            out.response == Response(200, Raw("{\"id\": \"" + id + "\"}"))
            && out.effects[0] == WriteFeature(ConfiguredFeatureDir, id + ".json", WithoutId(doc))
            && out.effects[1] == WriteFeature(PlacedFeatureDir, id + ".json", PlacedFeature(id))
            && PathValidator.ResolveSafePath(Some(id + ".json"), DatapackDir, cwd) == Ok(TreeFile(id))
  {
    SaveOfValidId(body, doc, id, hotReload, io);
    TreeFileResolved(id, cwd);
  }

  /** The outcome of a save to `/api/trees/<id>` that passes every check and whose writes complete. */
  lemma SaveOfValidId(body: string, doc: Json, id: string, hotReload: bool, io: Io)
    requires InputValidator.IsValidJsonSize(Some(body)) && Has(doc, "type")
    requires InputValidator.IsValidTreeId(Some(id)) && Reaches(io, 4)
    ensures SaveTreeOutcome(body, Some(doc), "/api/trees/" + id, hotReload, io) ==
              Outcome(Response(200, Raw("{\"id\": \"" + id + "\"}")),
                      [WriteFeature(ConfiguredFeatureDir, id + ".json", WithoutId(doc)),
                       WriteFeature(PlacedFeatureDir, id + ".json", PlacedFeature(id))]
                      + (if hotReload then [RegisterTree("tree_engine:" + id, WithoutId(doc))] else []))
  {
    assert '/' !in id;
    ItemSplit("trees", id);
    assert "/api/" + "trees" + "/" + id == "/api/trees/" + id;
    SaveAccepted(body, doc, "/api/trees/" + id, hotReload, io);
  }

  /** A valid id's file resolves to `<id>.json` in the datapack directory. */
  lemma TreeFileResolved(id: string, cwd: seq<string>)
    requires InputValidator.IsValidTreeId(Some(id))
    ensures PathValidator.ResolveSafePath(Some(id + ".json"), DatapackDir, cwd) == Ok(TreeFile(id))
  {
    TreeFileNameSafe(id);
  }

  /**
   * POST to `/api/trees` routes to the save handler, but its path has no segment 3: every
   * well-formed body is refused with 400, so the "tree_<millis>" fallback id is never reached.
   */
  lemma CollectionPostRefused(body: string, doc: Json, hotReload: bool, io: Io)
    requires InputValidator.IsValidJsonSize(Some(body)) && Has(doc, "type")
    ensures Route("POST", "/api/trees") == SaveTree
    ensures SaveTreeOutcome(body, Some(doc), "/api/trees", hotReload, io) == Outcome(FailedToSaveTree, [])
    ensures SaveTreeOutcome(body, Some(doc), "/api/trees/", hotReload, io) == Outcome(FailedToSaveTree, [])
  {
    TreesCollectionRoutes("POST");
    TreesCollectionSplit();
  }

  // ---------------------------------------------------------------------------------------------
  // Replacers

  /** What Gson makes of the request body. */
  datatype DecodedReplacer = Malformed | NullBody | Decoded(replacer: TreeReplacerManager.TreeReplacer)

  const FailedToSaveReplacer: Response := Response(400, Raw("{\"error\":\"Failed to save replacer\"}"))

  /** The id a save assigns: the given one, or "replacer_<millis>" when it is null or empty. */
  function AssignedId(id: Option<string>, millis: nat): (r: string)
    ensures id.Some? && id.value != "" ==> r == id.value
    ensures id.None? || id.value == "" ==> r == "replacer_" + Decimal(millis)
  {
    if id.None? || id.value == "" then "replacer_" + Decimal(millis) else id.value
  }

  /**
   * `handleSaveReplacer`: a malformed or null body fails in the catch (400); a missing id is
   * assigned from the clock; a missing vanilla id or an empty pool is refused with 400; a
   * vanilla id without ':' fails the file generation (400); otherwise the output directory is
   * created (file-system call 0) and the selector file written (call 1), either of them throwing
   * gives the same 400, and, with hot reload on, the registry is updated.
   */
  function SaveReplacerOutcome(body: DecodedReplacer, millis: nat, hotReload: bool, io: Io): Outcome
  {
    if !body.Decoded? then Outcome(FailedToSaveReplacer, [])
    else
      var r := body.replacer.(id := Some(AssignedId(body.replacer.id, millis)));
      if r.vanillaTreeId.None? || r.vanillaTreeId.value == "" then Outcome(ErrorResponse(400, "Missing vanilla_tree_id"), [])
      else if r.replacementPool.None? || |r.replacementPool.value| == 0 then
        Outcome(ErrorResponse(400, "Replacement pool cannot be empty"), [])
      else
        match TreeReplacerManager.DatapackFile(r)
        case Err(_) => Outcome(FailedToSaveReplacer, [])
        case Ok(file) =>
          if !Reaches(io, 2) then Outcome(FailedToSaveReplacer, [])
          else Outcome(Response(200, Raw("{\"id\": \"" + r.id.value + "\"}")),
                  [WriteReplacer(file.0, file.1)] + (if hotReload then [UpdateReplacer(r)] else []))
  }

  /** `handleSaveReplacer`, with the id assigned on the decoded object before the checks. */
  method HandleSaveReplacer(body: DecodedReplacer, millis: nat, hotReload: bool, io: Io) returns (out: Outcome)
    ensures out == SaveReplacerOutcome(body, millis, hotReload, io)
  {
    if !body.Decoded? {
      return Outcome(FailedToSaveReplacer, []);
    }
    var replacer := body.replacer;
    if replacer.id.None? || replacer.id.value == "" {
      replacer := replacer.(id := Some("replacer_" + Decimal(millis)));
    }
    if replacer.vanillaTreeId.None? || replacer.vanillaTreeId.value == "" {
      return Outcome(ErrorResponse(400, "Missing vanilla_tree_id"), []);
    }
    if replacer.replacementPool.None? || |replacer.replacementPool.value| == 0 {
      return Outcome(ErrorResponse(400, "Replacement pool cannot be empty"), []);
    }
    var file := TreeReplacerManager.GenerateDatapackFile(replacer);
    if file.Err? || io == ThrowsAt(0) || io == ThrowsAt(1) {
      return Outcome(FailedToSaveReplacer, []);
    }
    var effects := [WriteReplacer(file.value.0, file.value.1)];
    if hotReload {
      effects := effects + [UpdateReplacer(replacer)];
    }
    out := Outcome(Response(200, Raw("{\"id\": \"" + replacer.id.value + "\"}")), effects);
  }

  /** The largest Java `long`. */
  const LongMax: nat := 0x7fff_ffff_ffff_ffff

  function Pow10(k: nat): (r: nat)
    ensures r >= 1
  {
    if k == 0 then 1 else 10 * Pow10(k - 1)
  }

  lemma {:induction false} Pow10Add(a: nat, b: nat)
    ensures Pow10(a + b) == Pow10(a) * Pow10(b)
    decreases a
  {
    if a > 0 { Pow10Add(a - 1, b); }
  }

  /** A number below 10^k has at most k digits. */
  lemma {:induction false} DecimalBound(n: nat, k: nat)
    requires k >= 1 && n < Pow10(k)
    ensures |Decimal(n)| <= k
    decreases k
  {
    if n >= 10 {
      assert Pow10(1) == 10;
      assert n / 10 < Pow10(k - 1);
      DecimalBound(n / 10, k - 1);
    }
  }

  /** A clock-assigned id, "replacer_" and at most 19 digits, is a valid identifier. */
  lemma AssignedIdValid(millis: nat)
    requires millis <= LongMax
    ensures InputValidator.IsValidIdentifier(Some(AssignedId(None, millis)))
  {
    var d := Decimal(millis);
    var s := "replacer_" + d;
    LongDigits(millis);
    assert forall i :: 0 <= i < 9 ==> s[i] == "replacer_"[i];
    assert forall i :: 9 <= i < |s| ==> s[i] == d[i - 9];
    assert forall i :: 0 <= i < |s| ==> InputValidator.IdChar(s[i]);
    assert 1 <= |s| <= InputValidator.MaxIdLength;
  }

  /** A `long` that is not negative has at most 19 digits. */
  lemma LongDigits(millis: nat)
    requires millis <= LongMax
    ensures |Decimal(millis)| <= 19
  {
    assert Pow10(10) == 10_000_000_000 && Pow10(9) == 1_000_000_000;
    Pow10Add(10, 9);
    DecimalBound(millis, 19);
  }
  /**
   * A replacer posted without a pool (the web editor deletes `replacement_pool`, and Gson keeps
   * the no-argument constructor's empty list) is refused with 400 and nothing is written.
   */
  lemma PoolLessReplacerRefused(replacer: TreeReplacerManager.TreeReplacer, millis: nat, hotReload: bool, io: Io)
    requires replacer.vanillaTreeId.Some? && replacer.vanillaTreeId.value != ""
    requires replacer.replacementPool.None? || replacer.replacementPool == Some([])
    ensures SaveReplacerOutcome(Decoded(replacer), millis, hotReload, io) ==
              Outcome(ErrorResponse(400, "Replacement pool cannot be empty"), [])
  {
  }

  /**
   * A saved replacer for `minecraft:<x>` whose write completes is written to the file `get` and
   * delete look up for that id, and answers with its own id or the clock-assigned one.
   */
  lemma SaveReplacerWritesWhatGetReads(replacer: TreeReplacerManager.TreeReplacer, x: string, millis: nat, hotReload: bool, io: Io)
    requires replacer.vanillaTreeId == Some("minecraft:" + x) && x != "" && ':' !in x
    requires replacer.replacementPool.Some? && |replacer.replacementPool.value| > 0
    requires Reaches(io, 2)
    ensures var out := SaveReplacerOutcome(Decoded(replacer), millis, hotReload, io);
            out.response == Response(200, Raw("{\"id\": \"" + AssignedId(replacer.id, millis) + "\"}"))
            && out.effects[0].WriteReplacer?
            && out.effects[0].path == TreeReplacerManager.GetPath("minecraft:" + x)
            && out.effects[0].path == TreeReplacerManager.DeletePath("minecraft:" + x)
            && out.effects[0].content == TreeReplacerManager.SelectorJson(replacer.replacementPool.value)
  {
    var r := replacer.(id := Some(AssignedId(replacer.id, millis)));
    TreeReplacerManager.GetPathOfVanillaId(x, replacer.replacementPool.value, r.id);
    assert "minecraft:" + x == "minecraft" + ":" + x;
    TreeReplacerManager.DatapackFileLocation("minecraft", x, replacer.replacementPool.value, r.id);
  }

  /**
   * A save answers 200 exactly when the body decodes, the vanilla id is present and has a ':',
   * the pool is not empty and both file-system calls complete; any other save touches nothing.
   */
  lemma ReplacerSavedIff(body: DecodedReplacer, millis: nat, hotReload: bool, io: Io)
    ensures var out := SaveReplacerOutcome(body, millis, hotReload, io);
            (out.response.status == 200 <==>
               body.Decoded? && body.replacer.vanillaTreeId.Some? && body.replacer.vanillaTreeId.value != ""
               && body.replacer.replacementPool.Some? && |body.replacer.replacementPool.value| > 0
               && ':' in body.replacer.vanillaTreeId.value && Reaches(io, 2))
            && (out.response.status != 200 ==> out.effects == [])
  {
    if body.Decoded? {
      var r := body.replacer.(id := Some(AssignedId(body.replacer.id, millis)));
      if r.vanillaTreeId.Some? && r.vanillaTreeId.value != "" && r.replacementPool.Some? && |r.replacementPool.value| > 0 {
        TreeReplacerManager.DatapackFileErrors(r);
      }
    }
  }

  const FailedToDeleteReplacer: Response := Response(500, Raw("{\"error\":\"Failed to delete replacer\"}"))

  /**
   * `handleDeleteReplacer`: a failing lookup is 500 and a missing replacer 404, with nothing
   * touched. A found one has its file deleted (the file named by the request id; the delete is
   * file-system call 0, and its throwing is the same 500 with nothing touched); with hot reload
   * on, the registry key "minecraft:" + the second ':'-piece of its vanilla id is then dropped,
   * and a vanilla id without that piece fails with 500 after the file is gone.
   */
  function DeleteReplacerOutcome(id: string, files: TreeReplacerManager.RelPath -> TreeReplacerManager.FileState,
                                 numeral: real -> string, hotReload: bool, io: Io): (r: Outcome)
    ensures TreeReplacerManager.GetReplacer(id, files, numeral).Err? ==> r.response.status == 500 && r.effects == []
    ensures TreeReplacerManager.GetReplacer(id, files, numeral).Ok? && TreeReplacerManager.GetReplacer(id, files, numeral).value.Some? && !Reaches(io, 1) ==>
              r == Outcome(FailedToDeleteReplacer, [])
    ensures TreeReplacerManager.GetReplacer(id, files, numeral) == Ok(None) ==>
              r == Outcome(ErrorResponse(404, "Tree replacer not found"), [])
    ensures TreeReplacerManager.GetReplacer(id, files, numeral).Ok? && TreeReplacerManager.GetReplacer(id, files, numeral).value.Some? && Reaches(io, 1) ==>
              var found := TreeReplacerManager.GetReplacer(id, files, numeral).value.value;
              |r.effects| >= 1 && r.effects[0] == DeleteReplacerFile(TreeReplacerManager.DeletePath(id))
              && (r.response.status == 200 <==> !hotReload || RegistryUtils.ReplacerKey(found.vanillaTreeId).Some?)
              && (hotReload && RegistryUtils.ReplacerKey(found.vanillaTreeId).Some? ==>
                    r.effects == [DeleteReplacerFile(TreeReplacerManager.DeletePath(id)),
                                  UnregisterReplacer(RegistryUtils.ReplacerKey(found.vanillaTreeId).value)])
  {
    var failed := FailedToDeleteReplacer;
    match TreeReplacerManager.GetReplacer(id, files, numeral)
    case Err(_) => Outcome(failed, [])
    case Ok(None) => Outcome(ErrorResponse(404, "Tree replacer not found"), [])
    case Ok(Some(found)) =>
      if !Reaches(io, 1) then Outcome(failed, [])
      else
      var deleted := [DeleteReplacerFile(TreeReplacerManager.DeletePath(id))];
      var success := Response(200, Raw("{\"success\": true}"));
      if !hotReload then Outcome(success, deleted)
      else
        match RegistryUtils.ReplacerKey(found.vanillaTreeId)
        case None => Outcome(failed, deleted)
        case Some(key) => Outcome(success, deleted + [UnregisterReplacer(key)])
  }

  // ---------------------------------------------------------------------------------------------
  // Listing trees

  /** An entry of a directory listing. */
  datatype DirEntry = DirEntry(name: string, regularFile: bool)

  /** `handleList`: the regular `.json` files, each name with every ".json" removed, in listing order. */
  function TreeIds(listing: seq<DirEntry>): (r: seq<string>)
    ensures |r| <= |listing|
    ensures forall s :: s in r <==>
              exists e :: e in listing && e.regularFile && EndsWith(e.name, ".json") && s == RemoveAll(e.name, ".json")
  {
    if |listing| == 0 then []
    else
      var init := listing[..|listing| - 1];
      var e := listing[|listing| - 1];
      assert listing == init + [e];
      var rest := TreeIds(init);
      if e.regularFile && EndsWith(e.name, ".json") then rest + [RemoveAll(e.name, ".json")] else rest
  }

  /** The file a save writes for a valid id is listed as that id. */
  lemma SavedTreeListed(listing: seq<DirEntry>, id: string)
    requires InputValidator.IsValidTreeId(Some(id)) && DirEntry(id + ".json", true) in listing
    ensures id in TreeIds(listing)
  {
    NoDotDotInTreeFile(id);
    if Contains(id, ".json") { ContainsChars(id, ".json", '.'); }
    TreeReplacerManager.RemoveJsonSuffix(id);
    var name := id + ".json";
    assert EndsWith(name, ".json") by { assert name[|id|..] == ".json"; }
  }

  const FailedToListTrees: Response := Response(500, Raw("{\"error\":\"Failed to list trees\"}"))

  /**
   * `handleList`: the datapack directory is created (file-system call 0) and listed (call 1);
   * either throwing is the 500 of the catch. Otherwise the answer is the JSON array of the ids
   * `TreeIds` derives from the listing, in listing order.
   */
  function ListTreesResponse(listing: seq<DirEntry>, io: Io): (r: Response)
    ensures r.status == 200 <==> Reaches(io, 2)
    ensures r.status != 200 ==> r == FailedToListTrees
    ensures r.status == 200 ==>
              r.body.Document? && r.body.json.JArr? && |r.body.json.items| <= |listing|
              && forall j :: j in r.body.json.items <==>
                   exists e :: e in listing && e.regularFile && EndsWith(e.name, ".json") && j == JStr(RemoveAll(e.name, ".json"))
  {
    if !Reaches(io, 2) then FailedToListTrees
    else
      var ids := TreeIds(listing);
      var items := TreeReplacerManager.PoolStrings(ids);
      assert forall j :: j in items <==> j.JStr? && j.s in ids by {
        forall j
          ensures j in items <==> j.JStr? && j.s in ids
        {
          if j.JStr? && j.s in ids {
            var k :| 0 <= k < |ids| && ids[k] == j.s;
            assert items[k] == j;
          }
        }
      }
      Response(200, Document(JArr(items)))
  }

  /** A tree saved under a valid id appears in the list answer whenever the listing completes. */
  lemma SavedTreeInListAnswer(listing: seq<DirEntry>, id: string, io: Io)
    requires InputValidator.IsValidTreeId(Some(id)) && DirEntry(id + ".json", true) in listing
    requires Reaches(io, 2)
    ensures JStr(id) in ListTreesResponse(listing, io).body.json.items
  {
    SavedTreeListed(listing, id);
    var ids := TreeIds(listing);
    var k :| 0 <= k < |ids| && ids[k] == id;
    assert TreeReplacerManager.PoolStrings(ids)[k] == JStr(id);
  }

  // ---------------------------------------------------------------------------------------------
  // Listing vanilla trees

  datatype FeatureKind = TreeFeature | RandomPatchFeature | OtherFeature

  /** A configured-feature registry entry: its identifier and what kind of feature it holds. */
  datatype RegistryEntry = RegistryEntry(namespace: string, path: string, kind: FeatureKind)

  function IdString(e: RegistryEntry): string
  {
    e.namespace + ":" + e.path
  }

  /** A vanilla tree: the minecraft namespace and a tree or random-patch feature. */
  predicate Listed(e: RegistryEntry)
  {
    e.namespace == "minecraft" && (e.kind == TreeFeature || e.kind == RandomPatchFeature)
  }

  /** The ids `handleListVanilla` collects, in registry order. */
  function VanillaTreeIds(entries: seq<RegistryEntry>): (r: seq<string>)
    ensures forall s :: s in r <==> exists e :: e in entries && Listed(e) && s == IdString(e)
  {
    if |entries| == 0 then []
    else
      var init := entries[..|entries| - 1];
      var e := entries[|entries| - 1];
      assert entries == init + [e];
      var rest := VanillaTreeIds(init);
      if Listed(e) then rest + [IdString(e)] else rest
  }

  /** `a.compareTo(b) <= 0`: character by character, a proper prefix first. */
  predicate LexLeq(a: string, b: string)
    decreases |a|
  {
    |a| == 0 || (|b| > 0 && (a[0] < b[0] || (a[0] == b[0] && LexLeq(a[1..], b[1..]))))
  }

  lemma {:induction false} LexTotal(a: string, b: string)
    ensures LexLeq(a, b) || LexLeq(b, a)
    decreases |a|
  {
    if |a| > 0 && |b| > 0 && a[0] == b[0] {
      LexTotal(a[1..], b[1..]);
    }
  }

  predicate Sorted(xs: seq<string>)
  {
    forall i :: 0 < i < |xs| ==> LexLeq(xs[i - 1], xs[i])
  }

  /** Inserts into a sorted list, keeping it sorted. */
  function Insert(x: string, xs: seq<string>): (r: seq<string>)
    ensures multiset(r) == multiset(xs) + multiset{x}
    ensures |r| == |xs| + 1 && r[0] == (if |xs| == 0 || LexLeq(x, xs[0]) then x else xs[0])
    ensures Sorted(xs) ==> Sorted(r)
  {
    if |xs| == 0 then [x]
    else if LexLeq(x, xs[0]) then [x] + xs
    else
      LexTotal(x, xs[0]);
      assert xs == [xs[0]] + xs[1..];
      [xs[0]] + Insert(x, xs[1..])
  }

  /** `Collections.sort` on strings: a sorted permutation. */
  function SortIds(xs: seq<string>): (r: seq<string>)
    ensures Sorted(r) && multiset(r) == multiset(xs)
  {
    if |xs| == 0 then []
    else
      assert xs == [xs[0]] + xs[1..];
      Insert(xs[0], SortIds(xs[1..]))
  }

  /**
   * `handleListVanilla`: no registry gives 500; otherwise the entries are scanned in order,
   * other namespaces skipped, trees and random patches collected, and the ids sorted.
   */
  method ListVanillaTrees(registry: Option<seq<RegistryEntry>>) returns (response: Response)
    ensures registry.None? ==> response == ErrorResponse(500, "Registry not available")
    ensures registry.Some? ==>
              response == Response(200, Document(JArr(TreeReplacerManager.PoolStrings(SortIds(VanillaTreeIds(registry.value))))))
  {
    if registry.None? {
      return ErrorResponse(500, "Registry not available");
    }
    var entries := registry.value;
    var treeIds: seq<string> := [];
    for i := 0 to |entries|
      invariant treeIds == VanillaTreeIds(entries[..i])
    {
      assert entries[..i + 1][..i] == entries[..i];
      var e := entries[i];
      if e.namespace != "minecraft" {
        continue;
      }
      if e.kind == TreeFeature || e.kind == RandomPatchFeature {
        treeIds := treeIds + [e.namespace + ":" + e.path];
      }
    }
    assert entries[..|entries|] == entries;
    response := Response(200, Document(JArr(TreeReplacerManager.PoolStrings(SortIds(treeIds)))));
  }
}
