/**
 * The custom-tree library of the web editor (web/js/components/tree-manager.js): the list
 * filter, the names shown for and derived from vanilla ids, the benchmark's iteration count,
 * and saving the current tree. The page's inputs, the editor panel and the server are
 * parameters.
 */
module TreeManager {
  import opened Wrappers
  import opened Text
  import opened Json
  import InputValidator
  import TreeApiHandler
  import EditorManager

  /** `renderTreeList`: the ids that contain the filter, ignoring case, in list order. */
  function FilterTrees(trees: seq<string>, filter: string): (r: seq<string>)
    ensures |r| <= |trees|
    ensures forall t :: t in r <==> t in trees && Contains(ToLower(t), ToLower(filter))
  {
    if |trees| == 0 then []
    else
      var init := trees[..|trees| - 1];
      var t := trees[|trees| - 1];
      assert trees == init + [t];
      if Contains(ToLower(t), ToLower(filter)) then FilterTrees(init, filter) + [t] else FilterTrees(init, filter)
  }

  /** Filtering a list in two parts filters each part and keeps them in order. */
  lemma {:induction false} FilterTreesAppend(a: seq<string>, b: seq<string>, filter: string)
    ensures FilterTrees(a + b, filter) == FilterTrees(a, filter) + FilterTrees(b, filter)
    decreases |b|
  {
    if |b| > 0 {
      var init := b[..|b| - 1];
      assert (a + b)[..|a + b| - 1] == a + init;
      FilterTreesAppend(a, init, filter);
    } else {
      assert a + b == a;
    }
  }

  /** An empty filter keeps every id. */
  lemma {:induction false} EmptyFilterKeepsAll(trees: seq<string>)
    ensures FilterTrees(trees, "") == trees
    decreases |trees|
  {
    if |trees| > 0 {
      var t := trees[|trees| - 1];
      assert OccursAt(ToLower(t), ToLower(""), 0);
      EmptyFilterKeepsAll(trees[..|trees| - 1]);
    }
  }

  /** The filter's own case does not matter. */
  lemma {:induction false} FilterIgnoresCase(trees: seq<string>, filter: string)
    ensures FilterTrees(trees, ToLower(filter)) == FilterTrees(trees, filter)
    decreases |trees|
  {
    ToLowerIdempotent(filter);
    if |trees| > 0 {
      FilterIgnoresCase(trees[..|trees| - 1], filter);
    }
  }

  /** `renderVanillaList`'s label: for a "minecraft:" id the piece after the first ':', otherwise the id. */
  function VanillaDisplayName(id: string): (r: string)
    ensures !StartsWith(id, "minecraft:") ==> r == id
  {
    if StartsWith(id, "minecraft:") then
      assert id[9] == ':';
      PiecesCount(id, ':', 9);
      Pieces(id, ':')[1]
    else id
  }

  /** With a separator at index `k`, there are at least two pieces. */
  lemma PiecesCount(s: string, c: char, k: nat)
    requires k < |s| && s[k] == c
    ensures |Pieces(s, c)| >= 2
  {
    var a, b := s[..k], s[k + 1..];
    assert s == a + [c] + b;
    if c in a {
      var j :| 0 <= j < |a| && a[j] == c;
      PiecesCount(s, c, j);
    } else {
      PiecesAppend(a, c, b);
    }
  }

  /** A vanilla id shows its path. */
  lemma DisplayNameOfMinecraftId(path: string)
    requires ':' !in path
    ensures VanillaDisplayName("minecraft:" + path) == path
  {
    var id := "minecraft:" + path;
    assert id == "minecraft" + [':'] + path;
    assert StartsWith(id, "minecraft:");
    PiecesAppend("minecraft", ':', path);
    PiecesOfPlain(path, ':');
  }

  /** Only the namespace is stripped, and only "minecraft": another mod's id is shown whole. */
  lemma DisplayNameKeepsOtherNamespaces(ns: string, path: string)
    requires ns != "minecraft"
    requires ':' !in ns
    ensures VanillaDisplayName(ns + ":" + path) == ns + ":" + path
  {
    var id := ns + ":" + path;
    var prefix := "minecraft:";
    if |ns| >= 10 {
      assert id[9] == ns[9] != prefix[9];
    } else if |ns| == 9 {
      assert id[..9] == ns != prefix[..9];
    } else {
      assert id[|ns|] == ':' != prefix[|ns|];
    }
    assert !StartsWith(id, prefix);
  }

  /** `importVanillaTree`'s name: `id.split(':')[1] || id`. */
  function ImportName(id: string): (r: string)
    ensures ':' !in id ==> r == id
  {
    var pieces := Pieces(id, ':');
    if ':' !in id then
      PiecesOfPlain(id, ':');
      id
    else if |pieces| >= 2 && pieces[1] != "" then pieces[1]
    else id
  }

  /** A namespaced id with a non-empty, colon-free path is named by its path. */
  lemma ImportNameOfNamespaced(ns: string, path: string)
    requires ':' !in ns && ':' !in path && path != ""
    ensures ImportName(ns + ":" + path) == path
  {
    var id := ns + ":" + path;
    assert id == ns + [':'] + path;
    assert id[|ns|] == ':';
    PiecesAppend(ns, ':', path);
    PiecesOfPlain(path, ':');
  }

  /** An empty path falls back to the whole id. */
  lemma ImportNameEmptyPath(ns: string)
    requires ':' !in ns
    ensures ImportName(ns + ":") == ns + ":"
  {
    var id := ns + ":";
    assert id == ns + [':'] + "";
    assert id[|ns|] == ':';
    PiecesAppend(ns, ':', "");
  }

  /** `parseInt(input) || 1000`: the number typed, or 1000 for NaN and 0. */
  function BenchmarkIterations(input: string): (r: int)
    ensures r != 0
    ensures JsParseInt(input).None? ==> r == 1000
    ensures JsParseInt(input).Some? && JsParseInt(input).value != 0 ==> r == JsParseInt(input).value
  {
    match JsParseInt(input)
    case Some(n) => if n != 0 then n else 1000
    case None => 1000
  }

  /** A typed positive count is used as typed. */
  lemma BenchmarkIterationsOf(n: nat)
    requires n > 0
    ensures BenchmarkIterations(Decimal(n)) == n
  {
    ParseIntOfDecimal(n);
  }

  /** A field of zeros ("0", "000") falls back to 1000, since `parseInt` reads 0 and 0 is falsy. */
  lemma BenchmarkIterationsOfZeros(zeros: string)
    requires |zeros| > 0 && forall i :: 0 <= i < |zeros| ==> zeros[i] == '0'
    ensures BenchmarkIterations(zeros) == 1000
  {
    ParseIntOfDigits(zeros);
    ZerosValue(zeros);
  }

  /** Zeros have the value 0. */
  lemma {:induction false} ZerosValue(zeros: string)
    requires forall i :: 0 <= i < |zeros| ==> zeros[i] == '0'
    ensures DigitsValue(zeros) == 0
  {
    if |zeros| > 0 {
      ZerosValue(zeros[..|zeros| - 1]);
    }
  }

  /**
   * An empty field, or one that starts with no digit, sign or white space, is NaN to `parseInt`
   * and falls back to 1000.
   */
  lemma BenchmarkIterationsOfNaN(input: string)
    requires |input| == 0 || (!('0' <= input[0] <= '9') && input[0] != '-' && input[0] != '+' && !IsJsSpace(input[0]))
    ensures BenchmarkIterations(input) == 1000
  {
    if |input| == 0 {
      assert TrimStart(input) == "";
    } else {
      ParseIntNoDigit(input);
    }
  }

  // ---------------------------------------------------------------------------------------------
  // Saving

  const NameRequired: string := "Please enter a tree name"
  const NameInvalid: string := "Tree name can only contain letters, numbers, and underscores."
  const EditorInvalid: string := "Invalid JSON in editor. Cannot save."

  /** The document saved when no tree is loaded. */
  const DefaultTree: Json := JObj([Member("type", JStr("minecraft:tree")), Member("config", JObj([]))])

  /** The name field, trimmed and checked: the alert for an empty or ill-formed name. */
  function ValidateName(input: string): (r: Result<string, string>)
    ensures JsTrim(input) == "" <==> r == Err(NameRequired)
    ensures r.Ok? <==> JsTrim(input) != "" && InputValidator.MatchesIdentifier(JsTrim(input))
    ensures r.Ok? ==> r.value == JsTrim(input)
    ensures r.Err? ==> r.error == NameRequired || r.error == NameInvalid
  {
    var name := JsTrim(input);
    if name == "" then Err(NameRequired)
    else if !InputValidator.MatchesIdentifier(name) then Err(NameInvalid)
    else Ok(name)
  }

  /** The id the tree is saved under: the name lower-cased. */
  function SaveId(name: string): (id: string)
    requires InputValidator.MatchesIdentifier(name)
    ensures |id| == |name| && InputValidator.MatchesIdentifier(id)
    ensures ToLower(id) == id
  {
    ToLowerIdempotent(name);
    ToLower(name)
  }

  /**
   * The server accepts the id exactly when the name has at most 100 characters: the editor
   * checks the character set but not the length.
   */
  lemma SaveIdAcceptedIff(name: string)
    requires InputValidator.MatchesIdentifier(name)
    ensures InputValidator.IsValidTreeId(Some(SaveId(name))) <==> |name| <= InputValidator.MaxIdLength
  {
  }

  /** The POST goes to the server's save route. */
  lemma SaveIdRoutesToSave(name: string)
    requires InputValidator.MatchesIdentifier(name)
    ensures TreeApiHandler.Route("POST", "/api/trees/" + SaveId(name)) == TreeApiHandler.SaveTree
  {
    var id := SaveId(name);
    assert forall i :: 0 <= i < |id| ==> id[i] != '/' by {
      assert forall i :: 0 <= i < |id| ==> InputValidator.IdChar(id[i]);
    }
    TreeApiHandler.TreeItemRoutes("POST", id);
  }

  /** The document posted: the tree, or the default; a truthy `id` member is deleted. */
  function BodyToSend(tree: Json): (body: Json)
    ensures !Truthy(tree) ==> body == DefaultTree
    ensures Truthy(tree) && !Truthy(Prop(tree, "id")) ==> body == tree
    ensures Truthy(tree) && Truthy(Prop(tree, "id")) ==>
              body.JObj? && !Has(body, "id") && forall m :: m in body.members <==> m in tree.members && m.key != "id"
  {
    var full := if Truthy(tree) then tree else DefaultTree;
    if Truthy(Prop(full, "id")) then
      var ms := Remove(full.members, "id");
      assert KeyIndex(ms, "id") == -1;
      JObj(ms)
    else
      assert !Truthy(Prop(DefaultTree, "id")) by {
        assert KeyIndex(DefaultTree.members, "id") == -1 by {
          assert DefaultTree.members[0].key != "id" && DefaultTree.members[1].key != "id";
        }
      }
      full
  }

  /** The page-wide values after the editor's text has been taken in, or None when it does not parse. */
  function SyncEditor(tree: Json, placed: Json, editor: Option<(EditorManager.Mode, string)>, parse: string -> Option<Json>): (r: Option<(Json, Json)>)
    ensures editor.None? ==> r == Some((tree, placed))
    ensures editor.Some? ==> (r.None? <==> parse(editor.value.1).None?)
    ensures editor.Some? && r.Some? && editor.value.0 == EditorManager.Tree ==> r.value == (parse(editor.value.1).value, placed)
    ensures editor.Some? && r.Some? && editor.value.0 == EditorManager.Placement ==> r.value == (tree, parse(editor.value.1).value)
  {
    if editor.None? then Some((tree, placed))
    else match parse(editor.value.1)
      case None => None
      case Some(j) => if editor.value.0 == EditorManager.Tree then Some((j, placed)) else Some((tree, j))
  }

  /** The path the placement is posted to: `/api/trees/${selectedTreeId}/placement`. */
  function PlacementPath(selected: Option<string>): string
  {
    "/api/trees/" + (if selected.Some? then selected.value else "null") + "/placement"
  }

  /** The server has no placement route: the request goes unanswered. */
  lemma PlacementPostUnanswered(selected: Option<string>)
    requires selected.Some? ==> selected.value != "" && '/' !in selected.value
    ensures TreeApiHandler.Route("POST", PlacementPath(selected)) == TreeApiHandler.NoResponse
  {
    var a := if selected.Some? then selected.value else "null";
    assert PlacementPath(selected) == "/api/" + "trees" + "/" + a + "/" + "placement";
    TreeApiHandler.DeepPathsUnanswered("POST", "trees", a, "placement");
  }

  /**
   * How the save request ends: an ok answer with the saved id, the list reloaded after it (None
   * when that load fails) and whether the hot-reload request was rejected; an answer that is not
   * ok, with its text; or a thrown error (the request rejected or the answer not JSON), with its
   * message.
   */
  datatype SaveAnswer =
    | Saved(id: string, reloaded: Option<seq<string>>, reloadRejected: bool)
    | NotSaved(text: string)
    | Thrown(message: string)

  /** How saving ends: refused with an alert, or sent, with the alert shown and the placement posted after it. */
  datatype SaveResult =
    | Refused(alert: string)
    | Sent(id: string, body: Json, alert: string, placement: Option<(string, Json)>)

  /** The library's state and the page-wide tree values it writes. */
  class Library {
    var trees: seq<string>
    var selectedTreeId: Option<string>
    var currentTreeJson: Json
    var currentPlacedFeatureJson: Json

    constructor ()
      ensures trees == [] && selectedTreeId.None? && currentTreeJson == JNull && currentPlacedFeatureJson == JNull
    {
      trees := [];
      selectedTreeId := None;
      currentTreeJson := JNull;
      currentPlacedFeatureJson := JNull;
    }

    /**
     * `saveCurrentTree`: a bad name or unparsable editor text is refused with nothing changed;
     * otherwise the editor's text is taken in, the body is posted under the lower-cased name, a
     * success selects the saved id and reloads the list, and a placement that is set is posted
     * afterwards whatever the answer. A rejected hot reload changes only the alert; an answer that
     * is not ok or a thrown error leaves the selection and the list as they were.
     */
    method SaveCurrentTree(nameInput: string, editor: Option<(EditorManager.Mode, string)>,
                           parse: string -> Option<Json>, server: (string, Json) -> SaveAnswer)
      returns (r: SaveResult)
      modifies this
      ensures ValidateName(nameInput).Err? ==> r == Refused(ValidateName(nameInput).error) && unchanged(this)
      ensures ValidateName(nameInput).Ok? && SyncEditor(old(currentTreeJson), old(currentPlacedFeatureJson), editor, parse).None? ==>
                r == Refused(EditorInvalid) && unchanged(this)
      ensures ValidateName(nameInput).Ok? && SyncEditor(old(currentTreeJson), old(currentPlacedFeatureJson), editor, parse).Some? ==>
                var (tree, placed) := SyncEditor(old(currentTreeJson), old(currentPlacedFeatureJson), editor, parse).value;
                var id := SaveId(ValidateName(nameInput).value);
                var body := BodyToSend(tree);
                var answer := server(id, body);
                r.Sent? && r.id == id && r.body == body && currentPlacedFeatureJson == placed &&
                (answer.Saved? ==>
                   selectedTreeId == Some(answer.id) && currentTreeJson == body &&
                   trees == (if answer.reloaded.Some? then answer.reloaded.value else old(trees)) &&
                   r.alert == (if answer.reloadRejected then "Tree saved! (Hot reload failed)" else "Tree saved and hot-reloaded!")) &&
                (!answer.Saved? ==>
                   selectedTreeId == old(selectedTreeId) && currentTreeJson == (if Truthy(tree) then body else tree) &&
                   trees == old(trees)) &&
                (answer.NotSaved? ==> r.alert == "Failed to save tree: " + answer.text) &&
                (answer.Thrown? ==> r.alert == "Error saving tree: " + answer.message) &&
                r.placement == (if Truthy(placed) then Some((PlacementPath(selectedTreeId), placed)) else None)
    {
      var validated := ValidateName(nameInput);
      if validated.Err? {
        return Refused(validated.error);
      }
      var name := validated.value;
      var synced := SyncEditor(currentTreeJson, currentPlacedFeatureJson, editor, parse);
      if synced.None? {
        return Refused(EditorInvalid);
      }
      currentTreeJson, currentPlacedFeatureJson := synced.value.0, synced.value.1;
      var fullJson := BodyToSend(currentTreeJson);
      if Truthy(currentTreeJson) {
        // `delete fullJson.id` acts on the page's own tree object.
        currentTreeJson := fullJson;
      }
      var newId := SaveId(name);
      var answer := server(newId, fullJson);
      var alert: string;
      if answer.Saved? {
        selectedTreeId := Some(answer.id);
        currentTreeJson := fullJson;
        if answer.reloaded.Some? {
          trees := answer.reloaded.value;
        }
        if answer.reloadRejected {
          alert := "Tree saved! (Hot reload failed)";
        } else {
          alert := "Tree saved and hot-reloaded!";
        }
      } else if answer.NotSaved? {
        alert := "Failed to save tree: " + answer.text;
      } else {
        alert := "Error saving tree: " + answer.message;
      }
      var placement: Option<(string, Json)> := None;
      if Truthy(currentPlacedFeatureJson) {
        placement := Some((PlacementPath(selectedTreeId), currentPlacedFeatureJson));
      }
      r := Sent(newId, fullJson, alert, placement);
    }
  }
}
