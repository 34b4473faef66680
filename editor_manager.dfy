/**
 * The JSON editor panel of the web editor (web/js/components/editor-manager.js): two tabs,
 * TREE and PLACEMENT, each backed by a page-wide JSON value, one text editor shared between
 * them, a flag that mutes the change handler while the code itself sets the editor's text, and
 * a debounced handler that stores edits and regenerates the preview. `JSON.parse` and
 * `JSON.stringify` are parameters; the timers are events of their own.
 */
module EditorManager {
  import opened Wrappers
  import opened Json

  datatype Mode = Tree | Placement

  /**
   * Everything the editor manager reads and writes: the current tab, the two page-wide values
   * (`window.currentTreeJson`, `window.currentPlacedFeatureJson`; JNull while unset), the
   * editor's text (None before the editor has loaded), the muting flag, whether the bottom
   * panel is open, and whether a debounced change is waiting.
   */
  datatype EditorState = EditorState(
    mode: Mode, tree: Json, placed: Json, text: Option<string>,
    updating: bool, panelOpen: bool, changePending: bool)

  /** The value behind a tab. */
  function Slot(s: EditorState, m: Mode): Json
  {
    if m == Tree then s.tree else s.placed
  }

  /** The state with the value behind tab `m` replaced. */
  function WithSlot(s: EditorState, m: Mode, j: Json): (r: EditorState)
    ensures Slot(r, m) == j
    ensures forall n :: n != m ==> Slot(r, n) == Slot(s, n)
    ensures r.mode == s.mode && r.text == s.text && r.updating == s.updating
    ensures r.panelOpen == s.panelOpen && r.changePending == s.changePending
  {
    if m == Tree then s.(tree := j) else s.(placed := j)
  }

  /** The state the constructor leaves: TREE, not muted, and no editor yet. */
  const Initial: EditorState := EditorState(Tree, JNull, JNull, None, false, false, false)

  /** The editor has loaded with the text "{}". */
  function EditorLoaded(s: EditorState): EditorState
  {
    s.(text := Some("{}"))
  }

  /**
   * `switchTab`: switching to the current tab changes nothing, and so does an editor whose text
   * does not parse; otherwise the text is stored behind the old tab, the new tab becomes current,
   * the editor is muted and shows the new tab's value, or "{}" when that is unset or falsy.
   */
  function AfterSwitchTab(s: EditorState, m: Mode, parse: string -> Option<Json>, stringify: Json -> string): (r: EditorState)
    ensures m == s.mode ==> r == s
    ensures m != s.mode && s.text.Some? && parse(s.text.value).None? ==> r == s
    ensures m != s.mode && (s.text.None? || parse(s.text.value).Some?) ==>
              r.mode == m && r.updating && r.panelOpen == s.panelOpen && r.changePending == s.changePending &&
              Slot(r, s.mode) == (if s.text.Some? then parse(s.text.value).value else Slot(s, s.mode)) &&
              Slot(r, m) == Slot(s, m) &&
              r.text == (if s.text.None? then None else if Truthy(Slot(s, m)) then Some(stringify(Slot(s, m))) else Some("{}"))
  {
    if m == s.mode then s
    else if s.text.Some? && parse(s.text.value).None? then s
    else
      var saved := if s.text.Some? then WithSlot(s, s.mode, parse(s.text.value).value) else s;
      var toLoad := Slot(saved, m);
      var text := if s.text.None? then None else if Truthy(toLoad) then Some(stringify(toLoad)) else Some("{}");
      saved.(mode := m, updating := true, text := text)
  }

  /**
   * `openJsonEditor`: the panel opens on the TREE tab; when the editor is there and the tree
   * value is set, it shows the tree value, muted. Neither value changes.
   */
  function AfterOpen(s: EditorState, stringify: Json -> string): (r: EditorState)
    ensures r.panelOpen && r.mode == Tree && r.tree == s.tree && r.placed == s.placed
    ensures s.text.Some? && Truthy(s.tree) ==> r.text == Some(stringify(s.tree)) && r.updating
    ensures !(s.text.Some? && Truthy(s.tree)) ==> r.text == s.text && r.updating == s.updating
  {
    var shown := s.(panelOpen := true, mode := Tree);
    if s.text.Some? && Truthy(s.tree) then shown.(updating := true, text := Some(stringify(s.tree))) else shown
  }

  /**
   * `closeJsonEditor`: text that parses is stored behind the current tab and the panel closes;
   * text that does not parse leaves both values alone and the panel open (after an alert).
   */
  function AfterClose(s: EditorState, parse: string -> Option<Json>): (r: EditorState)
    ensures r.mode == s.mode && r.text == s.text && r.updating == s.updating
    ensures s.text.None? ==> !r.panelOpen && r.tree == s.tree && r.placed == s.placed
    ensures s.text.Some? && parse(s.text.value).Some? ==>
              !r.panelOpen && Slot(r, s.mode) == parse(s.text.value).value && Slot(r, OtherMode(s.mode)) == Slot(s, OtherMode(s.mode))
    ensures s.text.Some? && parse(s.text.value).None? ==> r.panelOpen && r.tree == s.tree && r.placed == s.placed
  {
    var closed := s.(panelOpen := false);
    if s.text.None? then closed
    else match parse(s.text.value)
      case Some(j) => WithSlot(closed, s.mode, j)
      case None => closed.(panelOpen := true)
  }

  function OtherMode(m: Mode): (r: Mode)
    ensures r != m
  {
    if m == Tree then Placement else Tree
  }

  /** The change handler: an edit while muted is ignored; otherwise the debounce timer is (re)started. */
  function AfterChange(s: EditorState): (r: EditorState)
    ensures s.updating ==> r == s
    ensures !s.updating ==> r == s.(changePending := true)
  {
    if s.updating then s else s.(changePending := true)
  }

  /** The 100 ms timer after a programmatic update: the editor is no longer muted. */
  function AfterMuteElapsed(s: EditorState): EditorState
  {
    s.(updating := false)
  }

  /**
   * The 500 ms debounce timer: text that parses goes behind the current tab, and the preview is
   * regenerated only on the TREE tab; text that does not parse changes no value.
   */
  function AfterChangeSettled(s: EditorState, parse: string -> Option<Json>): (r: (EditorState, bool))
    ensures !r.0.changePending && r.0.mode == s.mode && r.0.text == s.text
    ensures r.1 <==> s.changePending && s.text.Some? && parse(s.text.value).Some? && s.mode == Tree
    ensures r.1 ==> r.0.tree == parse(s.text.value).value
    ensures !(s.changePending && s.text.Some? && parse(s.text.value).Some?) ==> r.0.tree == s.tree && r.0.placed == s.placed
  {
    var settled := s.(changePending := false);
    if !s.changePending || s.text.None? then (settled, false)
    else match parse(s.text.value)
      case Some(j) => (WithSlot(settled, s.mode, j), s.mode == Tree)
      case None => (settled, false)
  }

  /** An edit on the PLACEMENT tab is stored there but never regenerates the preview. */
  lemma PlacementEditsDoNotRegenerate(s: EditorState, parse: string -> Option<Json>)
    requires s.mode == Placement && !s.updating
    ensures !AfterChangeSettled(AfterChange(s), parse).1
  {
  }

  /** A muted edit settles into nothing: no value changes and no preview is generated. */
  lemma MutedEditIgnored(s: EditorState, parse: string -> Option<Json>)
    requires s.updating && !s.changePending
    ensures AfterChangeSettled(AfterChange(s), parse) == (s, false)
  {
  }

  /**
   * Going to the other tab and straight back with the text untouched stores the editor's text
   * behind the first tab and shows that value again, provided it prints and reads back as itself.
   */
  lemma SwitchThereAndBack(s: EditorState, parse: string -> Option<Json>, stringify: Json -> string)
    requires s.text.Some? && parse(s.text.value).Some?
    requires var j := parse(s.text.value).value; Truthy(j) && parse(stringify(j)) == Some(j)
    requires var o := Slot(s, OtherMode(s.mode)); !Truthy(o) || parse(stringify(o)) == Some(o)
    requires parse("{}") == Some(JObj([]))
    ensures var back := AfterSwitchTab(AfterSwitchTab(s, OtherMode(s.mode), parse, stringify), s.mode, parse, stringify);
            back.mode == s.mode && Slot(back, s.mode) == parse(s.text.value).value &&
            back.text == Some(stringify(parse(s.text.value).value)) &&
            Slot(back, OtherMode(s.mode)) == (if Truthy(Slot(s, OtherMode(s.mode))) then Slot(s, OtherMode(s.mode)) else JObj([]))
  {
    var m := s.mode;
    var o := OtherMode(m);
    var j := parse(s.text.value).value;
    var there := AfterSwitchTab(s, o, parse, stringify);
    assert Slot(there, m) == j;
  }

  /** The editor panel, with the page-wide values it shares with the rest of the editor. */
  class Editor {
    const parse: string -> Option<Json>
    const stringify: Json -> string
    var currentMode: Mode
    var currentTreeJson: Json
    var currentPlacedFeatureJson: Json
    var editorText: Option<string>
    var isUpdatingEditor: bool
    var panelOpen: bool
    var changePending: bool

    function State(): EditorState
      reads this
    {
      EditorState(currentMode, currentTreeJson, currentPlacedFeatureJson, editorText, isUpdatingEditor, panelOpen, changePending)
    }

    constructor (parse: string -> Option<Json>, stringify: Json -> string)
      ensures State() == Initial && this.parse == parse && this.stringify == stringify
    {
      this.parse := parse;
      this.stringify := stringify;
      currentMode := Tree;
      currentTreeJson := JNull;
      currentPlacedFeatureJson := JNull;
      editorText := None;
      isUpdatingEditor := false;
      panelOpen := false;
      changePending := false;
    }

    method Load()
      modifies this
      ensures State() == EditorLoaded(old(State()))
    {
      editorText := Some("{}");
    }

    /** Stores parsed text behind the current tab. */
    method StoreCurrent(j: Json)
      modifies this
      ensures State() == WithSlot(old(State()), currentMode, j)
    {
      if currentMode == Tree {
        currentTreeJson := j;
      } else {
        currentPlacedFeatureJson := j;
      }
    }

    method SwitchTab(mode: Mode)
      modifies this
      ensures State() == AfterSwitchTab(old(State()), mode, parse, stringify)
    {
      if currentMode == mode {
        return;
      }
      if editorText.Some? {
        var parsed := parse(editorText.value);
        if parsed.None? {
          return;
        }
        StoreCurrent(parsed.value);
      }
      currentMode := mode;
      isUpdatingEditor := true;
      var jsonToLoad := if mode == Tree then currentTreeJson else currentPlacedFeatureJson;
      if editorText.Some? {
        if Truthy(jsonToLoad) {
          editorText := Some(stringify(jsonToLoad));
        } else {
          editorText := Some("{}");
        }
      }
    }

    method OpenJsonEditor()
      modifies this
      ensures State() == AfterOpen(old(State()), stringify)
    {
      panelOpen := true;
      currentMode := Tree;
      if editorText.Some? && Truthy(currentTreeJson) {
        isUpdatingEditor := true;
        editorText := Some(stringify(currentTreeJson));
      }
    }

    method CloseJsonEditor()
      modifies this
      ensures State() == AfterClose(old(State()), parse)
    {
      panelOpen := false;
      if editorText.Some? {
        var parsed := parse(editorText.value);
        if parsed.Some? {
          StoreCurrent(parsed.value);
        } else {
          panelOpen := true;
        }
      }
    }

    method ContentChanged()
      modifies this
      ensures State() == AfterChange(old(State()))
    {
      if isUpdatingEditor {
        return;
      }
      changePending := true;
    }

    method MuteElapsed()
      modifies this
      ensures State() == AfterMuteElapsed(old(State()))
    {
      isUpdatingEditor := false;
    }

    /** Returns whether `generateTree` is called. */
    method ChangeSettled() returns (regenerate: bool)
      modifies this
      ensures (State(), regenerate) == AfterChangeSettled(old(State()), parse)
    {
      var pending := changePending;
      changePending := false;
      regenerate := false;
      if !pending || editorText.None? {
        return;
      }
      var parsed := parse(editorText.value);
      if parsed.Some? {
        StoreCurrent(parsed.value);
        regenerate := currentMode == Tree;
      }
    }
  }
}
