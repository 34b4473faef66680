/**
 * The tree-replacer panel of the web editor (web/js/components/tree-replacer.js): the name shown
 * for a tree id, the type a stored replacer is read with, the entry rows of the form, and the
 * checks and clean-up `saveReplacer` applies before posting the replacer. The page's selects, the
 * float parser, the number formatter and the server are parameters.
 */
module TreeReplacerUi {
  import opened Wrappers
  import opened Text
  import opened Json

  // ---------------------------------------------------------------------------------------------
  // Display names

  /** `word.charAt(0).toUpperCase() + word.slice(1)`. */
  function Capitalize(word: string): (r: string)
    ensures |r| == |word|
    ensures |word| > 0 ==> r[0] == UpperChar(word[0]) && r[1..] == word[1..]
  {
    if word == "" then "" else [UpperChar(word[0])] + word[1..]
  }

  function CapitalizeAll(ws: seq<string>): (r: seq<string>)
    ensures |r| == |ws| && forall i :: 0 <= i < |ws| ==> r[i] == Capitalize(ws[i])
  {
    seq(|ws|, i requires 0 <= i < |ws| => Capitalize(ws[i]))
  }

  /**
   * The name as read character by character: '_' becomes ' ', and a character that opens a word
   * (the first, when `capFirst`, or one after '_') is upper-cased.
   */
  function Titled(s: string, capFirst: bool): (r: string)
    ensures |r| == |s|
  {
    seq(|s|, i requires 0 <= i < |s| =>
      if s[i] == '_' then ' '
      else if (i == 0 && capFirst) || (i > 0 && s[i - 1] == '_') then UpperChar(s[i])
      else s[i])
  }

  /** The words joined with spaces, each capitalised, the first only when `capFirst`. */
  function Rejoined(ws: seq<string>, capFirst: bool): string
    requires |ws| >= 1
  {
    Join([if capFirst then Capitalize(ws[0]) else ws[0]] + CapitalizeAll(ws[1..]), " ")
  }

  lemma JoinPrepend(a: string, w: string, rest: seq<string>, sep: string)
    ensures Join([a + w] + rest, sep) == a + Join([w] + rest, sep)
  {
    if |rest| > 0 {
      assert ([a + w] + rest)[1..] == rest && ([w] + rest)[1..] == rest;
    }
  }

  lemma TitledUnderscore(s: string, capFirst: bool)
    requires |s| > 0 && s[0] == '_'
    ensures Titled(s, capFirst) == " " + Titled(s[1..], true)
  {
    var l, r := Titled(s, capFirst), " " + Titled(s[1..], true);
    assert |l| == |r|;
    forall i | 0 <= i < |l|
      ensures l[i] == r[i]
    {
      if i > 0 {
        assert s[1..][i - 1] == s[i];
        assert i - 1 > 0 ==> s[1..][i - 2] == s[i - 1];
      }
    }
  }

  lemma TitledLetter(s: string, capFirst: bool)
    requires |s| > 0 && s[0] != '_'
    ensures Titled(s, capFirst) == [if capFirst then UpperChar(s[0]) else s[0]] + Titled(s[1..], false)
  {
    var l, r := Titled(s, capFirst), [if capFirst then UpperChar(s[0]) else s[0]] + Titled(s[1..], false);
    assert |l| == |r|;
    forall i | 0 <= i < |l|
      ensures l[i] == r[i]
    {
      if i > 0 {
        assert s[1..][i - 1] == s[i];
        assert i - 1 > 0 ==> s[1..][i - 2] == s[i - 1];
      }
    }
  }

  /** Joining after an empty first word starts with the separator. */
  lemma JoinAfterEmpty(ws: seq<string>, sep: string)
    requires |ws| >= 1
    ensures Join([""] + ws, sep) == sep + Join(ws, sep)
  {
    assert ([""] + ws)[1..] == ws;
  }

  /** Splitting on '_', capitalising and joining with ' ' is the character-wise reading. */
  lemma {:induction false} RejoinedPieces(s: string, capFirst: bool)
    ensures Rejoined(Pieces(s, '_'), capFirst) == Titled(s, capFirst)
    decreases |s|
  {
    if |s| == 0 {
    } else if s[0] == '_' {
      var ps := Pieces(s[1..], '_');
      RejoinedPieces(s[1..], true);
      var caps := CapitalizeAll(ps);
      assert caps == [Capitalize(ps[0])] + CapitalizeAll(ps[1..]);
      assert Pieces(s, '_') == [""] + ps;
      assert ([""] + ps)[1..] == ps;
      JoinAfterEmpty(caps, " ");
      TitledUnderscore(s, capFirst);
    } else {
      var rest := Pieces(s[1..], '_');
      RejoinedPieces(s[1..], false);
      var f := if capFirst then UpperChar(s[0]) else s[0];
      var ps := [[s[0]] + rest[0]] + rest[1..];
      assert Pieces(s, '_') == ps;
      assert ps[1..] == rest[1..];
      assert (if capFirst then Capitalize(ps[0]) else ps[0]) == [f] + rest[0];
      JoinPrepend([f], rest[0], CapitalizeAll(rest[1..]), " ");
      TitledLetter(s, capFirst);
    }
  }

  /** The part of an id after its last ':' (the whole id when it has none). */
  function LastSegment(id: string): (r: string)
  {
    var parts := Pieces(id, ':');
    parts[|parts| - 1]
  }

  /**
   * `getTreeDisplayName`: the last ':' segment with '_' shown as ' ' and every word's first
   * character upper-cased.
   */
  function GetTreeDisplayName(treeId: string): (r: string)
    ensures r == Titled(LastSegment(treeId), true)
    ensures |r| == |LastSegment(treeId)|
  {
    var name := LastSegment(treeId);
    var ws := Pieces(name, '_');
    RejoinedPieces(name, true);
    assert CapitalizeAll(ws) == [Capitalize(ws[0])] + CapitalizeAll(ws[1..]);
    Join(CapitalizeAll(ws), " ")
  }

  /** A namespaced id is named by its path. */
  lemma DisplayNameOfNamespaced(ns: string, path: string)
    requires ':' !in ns && ':' !in path
    ensures GetTreeDisplayName(ns + ":" + path) == Titled(path, true)
  {
    assert ns + ":" + path == ns + [':'] + path;
    PiecesAppend(ns, ':', path);
    PiecesOfPlain(path, ':');
  }

  /** A single word is capitalised. */
  lemma TitledWord(w: string)
    requires '_' !in w
    ensures Titled(w, true) == Capitalize(w)
  {
    if |w| > 0 {
      assert Titled(w, true)[1..] == w[1..];
    }
  }

  /** A word followed by '_' and more: the word's reading, a space, and the rest's reading. */
  lemma TitledAfterWord(a: string, b: string)
    requires '_' !in a
    ensures Titled(a + "_" + b, true) == Titled(a, true) + " " + Titled(b, true)
  {
    var s := a + "_" + b;
    var l, r := Titled(s, true), Titled(a, true) + " " + Titled(b, true);
    assert |l| == |r|;
    forall i | 0 <= i < |l|
      ensures l[i] == r[i]
    {
      if i < |a| {
        assert s[i] == a[i] && (i > 0 ==> s[i - 1] == a[i - 1]);
      } else if i > |a| {
        var k := i - |a| - 1;
        assert s[i] == b[k] && s[i - 1] == (if k == 0 then '_' else b[k - 1]);
      }
    }
  }

  /** Ids like "minecraft:dark_oak" are shown as "Dark Oak". */
  lemma TwoWordsShown(ns: string, a: string, b: string)
    requires ':' !in ns && ':' !in a && ':' !in b && '_' !in a && '_' !in b
    ensures GetTreeDisplayName(ns + ":" + (a + "_" + b)) == Capitalize(a) + " " + Capitalize(b)
  {
    DisplayNameOfNamespaced(ns, a + "_" + b);
    TitledAfterWord(a, b);
    TitledWord(a);
    TitledWord(b);
  }

  // ---------------------------------------------------------------------------------------------
  // Replacer type

  /** `replacer.type || 'WEIGHTED'`: the type a stored replacer is listed with. */
  function ListedType(replacer: Json): (r: Json)
    ensures Truthy(r)
    ensures Truthy(Prop(replacer, "type")) ==> r == Prop(replacer, "type")
  {
    if Truthy(Prop(replacer, "type")) then Prop(replacer, "type") else JStr("WEIGHTED")
  }

  /** `editReplacer`: the copy opened in the form, with `type` set to WEIGHTED when it is missing or falsy. */
  function WithDefaultType(replacer: seq<Member>): (r: seq<Member>)
    ensures Truthy(Prop(JObj(replacer), "type")) ==> r == replacer
    ensures forall key :: key != "type" ==> Get(JObj(r), key) == Get(JObj(replacer), key)
  {
    if Truthy(Prop(JObj(replacer), "type")) then replacer
    else
      assert forall key :: key != "type" ==> Get(JObj(Put(replacer, "type", JStr("WEIGHTED"))), key) == Get(JObj(replacer), key) by {
        forall key | key != "type" {
          GetPutOther(replacer, "type", JStr("WEIGHTED"), key);
        }
      }
      Put(replacer, "type", JStr("WEIGHTED"))
  }

  /** The form edits a replacer with the type it is listed with. */
  lemma EditedTypeIsListedType(replacer: seq<Member>)
    ensures Prop(JObj(WithDefaultType(replacer)), "type") == ListedType(JObj(replacer))
  {
  }

  // ---------------------------------------------------------------------------------------------
  // Collecting the form

  /** A row of the weighted list: the tree select's value and the chance input's text. */
  datatype AlternativeRow = AlternativeRow(feature: string, chance: string)

  /** `parseFloat(text) || 0`: NaN counts as 0. */
  function ChanceOf(text: string, parseFloat: string -> Option<real>): real
  {
    parseFloat(text).GetOr(0.0)
  }

  /** The alternatives kept, in order: rows with a tree and a chance in (0, 1]. */
  function KeptAlternatives(rows: seq<AlternativeRow>, parseFloat: string -> Option<real>): (r: seq<(string, real)>)
    ensures |r| <= |rows|
    ensures forall i :: 0 <= i < |r| ==> r[i].0 != "" && 0.0 < r[i].1 <= 1.0
  {
    if |rows| == 0 then []
    else
      var row := rows[|rows| - 1];
      var kept := KeptAlternatives(rows[..|rows| - 1], parseFloat);
      var chance := ChanceOf(row.chance, parseFloat);
      if row.feature != "" && 0.0 < chance <= 1.0 then kept + [(row.feature, chance)] else kept
  }

  /** Rows that all name a tree with a chance in (0, 1] are all kept, in order. */
  lemma {:induction false} AllValidRowsKept(rows: seq<AlternativeRow>, parseFloat: string -> Option<real>)
    requires forall i :: 0 <= i < |rows| ==> rows[i].feature != "" && 0.0 < ChanceOf(rows[i].chance, parseFloat) <= 1.0
    ensures |KeptAlternatives(rows, parseFloat)| == |rows|
    ensures forall i :: 0 <= i < |rows| ==>
              KeptAlternatives(rows, parseFloat)[i] == (rows[i].feature, ChanceOf(rows[i].chance, parseFloat))
    decreases |rows|
  {
    if |rows| > 0 {
      AllValidRowsKept(rows[..|rows| - 1], parseFloat);
    }
  }

  /** A row without a tree, or whose chance is NaN, 0, negative or above 1, adds nothing. */
  lemma InvalidRowDropped(rows: seq<AlternativeRow>, row: AlternativeRow, parseFloat: string -> Option<real>)
    requires row.feature == "" || !(0.0 < ChanceOf(row.chance, parseFloat) <= 1.0)
    ensures KeptAlternatives(rows + [row], parseFloat) == KeptAlternatives(rows, parseFloat)
  {
    assert (rows + [row])[..|rows|] == rows;
  }

  /** The sum of the kept chances, exactly. */
  function ChanceSum(alts: seq<(string, real)>): (r: real)
    ensures (forall i :: 0 <= i < |alts| ==> alts[i].1 > 0.0) ==> r >= 0.0
    ensures (forall i :: 0 <= i < |alts| ==> alts[i].1 > 0.0) && |alts| > 0 ==> r > 0.0
  {
    if |alts| == 0 then 0.0 else ChanceSum(alts[..|alts| - 1]) + alts[|alts| - 1].1
  }

  /** `{ chance: chance, feature: feature }`. */
  function AlternativeJson(alt: (string, real)): Json
  {
    JObj([Member("chance", JNum(alt.1)), Member("feature", JStr(alt.0))])
  }

  function AlternativesJson(alts: seq<(string, real)>): (r: seq<Json>)
    ensures |r| == |alts| && forall i :: 0 <= i < |alts| ==> r[i] == AlternativeJson(alts[i])
  {
    seq(|alts|, i requires 0 <= i < |alts| => AlternativeJson(alts[i]))
  }

  /** The simple pool: the selected trees, in order, skipping rows with nothing selected. */
  function ChosenFeatures(rows: seq<string>): (r: seq<string>)
    ensures |r| <= |rows|
    ensures forall i :: 0 <= i < |r| ==> r[i] != ""
    ensures forall f :: f in r <==> f in rows && f != ""
  {
    if |rows| == 0 then []
    else
      var kept := ChosenFeatures(rows[..|rows| - 1]);
      var f := rows[|rows| - 1];
      assert rows == rows[..|rows| - 1] + [f];
      if f != "" then kept + [f] else kept
  }

  function Strings(fs: seq<string>): (r: seq<Json>)
    ensures |r| == |fs| && forall i :: 0 <= i < |fs| ==> r[i] == JStr(fs[i])
  {
    seq(|fs|, i requires 0 <= i < |fs| => JStr(fs[i]))
  }

  // ---------------------------------------------------------------------------------------------
  // Saving

  /** Where the checks of `saveReplacer` end: an alert, or the replacer to post. */
  datatype Check = Refuse(alert: string) | Post(body: seq<Member>)

  const NoVanillaTree: string := "Please select a vanilla tree to replace"
  const NoDefaultTree: string := "Please select a default tree"
  const EmptyPool: string := "Please add at least one tree to the pool"
  const TooLikely: string := "Total chance cannot exceed 1.0. Current: "

  /** A new replacer takes the vanilla tree from the select; an existing one keeps its own. */
  function WithTree(current: seq<Member>, vanillaSelect: string): seq<Member>
  {
    if !Truthy(Prop(JObj(current), "id")) then Put(current, "vanilla_tree_id", JStr(vanillaSelect)) else current
  }

  /** The vanilla tree the replacer is saved for. */
  function VanillaTree(current: seq<Member>, vanillaSelect: string): Json
  {
    if !Truthy(Prop(JObj(current), "id")) then JStr(vanillaSelect) else Prop(JObj(current), "vanilla_tree_id")
  }

  lemma WithTreeLookups(current: seq<Member>, vanillaSelect: string)
    ensures Prop(JObj(WithTree(current, vanillaSelect)), "vanilla_tree_id") == VanillaTree(current, vanillaSelect)
    ensures forall key :: key != "vanilla_tree_id" ==> Get(JObj(WithTree(current, vanillaSelect)), key) == Get(JObj(current), key)
  {
    if !Truthy(Prop(JObj(current), "id")) {
      PutLookups(current, "vanilla_tree_id", JStr(vanillaSelect));
    }
  }

  /** The members a save of each kind sets or deletes, besides the vanilla tree and the type. */
  const OwnKeys: seq<string> := ["vanilla_tree_id", "type"]
  const WeightedKeys: seq<string> := ["default_tree", "alternatives", "features", "replacement_pool"]
  const SimpleKeys: seq<string> := ["features", "default_tree", "alternatives", "replacement_pool"]

  /** The WEIGHTED fields set, the SIMPLE field and `replacement_pool` deleted. */
  function WeightedBody(typed: seq<Member>, defaultSelect: string, alts: seq<(string, real)>): seq<Member>
  {
    RemoveKeys(Put(Put(typed, "default_tree", JStr(defaultSelect)), "alternatives", JArr(AlternativesJson(alts))),
               ["features", "replacement_pool"])
  }

  lemma WeightedBodyLookups(typed: seq<Member>, defaultSelect: string, alts: seq<(string, real)>)
    ensures var body := JObj(WeightedBody(typed, defaultSelect, alts));
            Prop(body, "default_tree") == JStr(defaultSelect) && Prop(body, "alternatives") == JArr(AlternativesJson(alts)) &&
            !Has(body, "features") && !Has(body, "replacement_pool") &&
            forall key :: key !in WeightedKeys ==> Get(body, key) == Get(JObj(typed), key)
  {
    var withDefault := Put(typed, "default_tree", JStr(defaultSelect));
    PutLookups(typed, "default_tree", JStr(defaultSelect));
    PutLookups(withDefault, "alternatives", JArr(AlternativesJson(alts)));
    RemoveKeysLookups(Put(withDefault, "alternatives", JArr(AlternativesJson(alts))), ["features", "replacement_pool"]);
  }

  /** The SIMPLE field set, the WEIGHTED fields and `replacement_pool` deleted. */
  function SimpleBody(typed: seq<Member>, features: seq<string>): seq<Member>
  {
    RemoveKeys(Put(typed, "features", JArr(Strings(features))), ["default_tree", "alternatives", "replacement_pool"])
  }

  lemma SimpleBodyLookups(typed: seq<Member>, features: seq<string>)
    ensures var body := JObj(SimpleBody(typed, features));
            Prop(body, "features") == JArr(Strings(features)) &&
            !Has(body, "default_tree") && !Has(body, "alternatives") && !Has(body, "replacement_pool") &&
            forall key :: key !in SimpleKeys ==> Get(body, key) == Get(JObj(typed), key)
  {
    PutLookups(typed, "features", JArr(Strings(features)));
    RemoveKeysLookups(Put(typed, "features", JArr(Strings(features))), ["default_tree", "alternatives", "replacement_pool"]);
  }

  /** The WEIGHTED part of the checks, on the replacer with its vanilla tree and type set. */
  function WeightedChecked(typed: seq<Member>, defaultSelect: string, rows: seq<AlternativeRow>,
                           parseFloat: string -> Option<real>, fixed2: real -> string): (seq<Member>, Check)
  {
    var alts := KeptAlternatives(rows, parseFloat);
    if defaultSelect == "" then (typed, Refuse(NoDefaultTree))
    else if ChanceSum(alts) > 1.0 then (Put(typed, "default_tree", JStr(defaultSelect)), Refuse(TooLikely + fixed2(ChanceSum(alts))))
    else (WeightedBody(typed, defaultSelect, alts), Post(WeightedBody(typed, defaultSelect, alts)))
  }

  /** The SIMPLE part of the checks. */
  function SimpleChecked(typed: seq<Member>, pool: seq<string>): (seq<Member>, Check)
  {
    var features := ChosenFeatures(pool);
    if |features| == 0 then (typed, Refuse(EmptyPool))
    else (SimpleBody(typed, features), Post(SimpleBody(typed, features)))
  }

  /**
   * The replacer as `saveReplacer` leaves it, and where its checks end. The fields set before a
   * failing check stay set: the alert does not roll them back.
   */
  function Checked(current: seq<Member>, vanillaSelect: string, kind: string, defaultSelect: string,
                   rows: seq<AlternativeRow>, pool: seq<string>,
                   parseFloat: string -> Option<real>, fixed2: real -> string): (seq<Member>, Check)
  {
    // `withTree.vanilla_tree_id` is `VanillaTree(current, vanillaSelect)`: see WithTreeLookups.
    if !Truthy(VanillaTree(current, vanillaSelect)) then (WithTree(current, vanillaSelect), Refuse(NoVanillaTree))
    else
      var typed := Typed(current, vanillaSelect, kind);
      if kind == "WEIGHTED" then WeightedChecked(typed, defaultSelect, rows, parseFloat, fixed2)
      else if kind == "SIMPLE" then SimpleChecked(typed, pool)
      else (RemoveKeys(typed, ["replacement_pool"]), Post(RemoveKeys(typed, ["replacement_pool"])))
  }

  /** The vanilla tree is read first: without one, a replacer is refused before anything else is checked. */
  lemma VanillaTreeRequired(current: seq<Member>, vanillaSelect: string, kind: string, defaultSelect: string,
                            rows: seq<AlternativeRow>, pool: seq<string>,
                            parseFloat: string -> Option<real>, fixed2: real -> string)
    ensures Checked(current, vanillaSelect, kind, defaultSelect, rows, pool, parseFloat, fixed2).1 == Refuse(NoVanillaTree)
        <==> !Truthy(VanillaTree(current, vanillaSelect))
  {
    WithTreeLookups(current, vanillaSelect);
  }

  /** A WEIGHTED replacer is posted exactly when it has a vanilla tree and a default tree and its chances sum to at most 1. */
  lemma WeightedPostedIff(current: seq<Member>, vanillaSelect: string, defaultSelect: string,
                          rows: seq<AlternativeRow>, pool: seq<string>,
                          parseFloat: string -> Option<real>, fixed2: real -> string)
    ensures Checked(current, vanillaSelect, "WEIGHTED", defaultSelect, rows, pool, parseFloat, fixed2).1.Post?
        <==> Truthy(VanillaTree(current, vanillaSelect)) && defaultSelect != "" && ChanceSum(KeptAlternatives(rows, parseFloat)) <= 1.0
  {
  }

  /** A SIMPLE replacer is posted exactly when it has a vanilla tree and at least one tree is selected. */
  lemma SimplePostedIff(current: seq<Member>, vanillaSelect: string, defaultSelect: string,
                        rows: seq<AlternativeRow>, pool: seq<string>,
                        parseFloat: string -> Option<real>, fixed2: real -> string)
    ensures Checked(current, vanillaSelect, "SIMPLE", defaultSelect, rows, pool, parseFloat, fixed2).1.Post?
        <==> Truthy(VanillaTree(current, vanillaSelect)) && |ChosenFeatures(pool)| > 0
  {
  }

  /** The replacer with its vanilla tree and its type set. */
  function Typed(current: seq<Member>, vanillaSelect: string, kind: string): seq<Member>
  {
    Put(WithTree(current, vanillaSelect), "type", JStr(kind))
  }

  lemma TypedLookups(current: seq<Member>, vanillaSelect: string, kind: string)
    ensures Prop(JObj(Typed(current, vanillaSelect, kind)), "vanilla_tree_id") == VanillaTree(current, vanillaSelect)
    ensures Prop(JObj(Typed(current, vanillaSelect, kind)), "type") == JStr(kind)
    ensures forall key :: key != "vanilla_tree_id" && key != "type" ==> Get(JObj(Typed(current, vanillaSelect, kind)), key) == Get(JObj(current), key)
  {
    WithTreeLookups(current, vanillaSelect);
    PutLookups(WithTree(current, vanillaSelect), "type", JStr(kind));
  }

  /** The members set first are not among those deleted later. */
  lemma OwnKeysNotDeleted()
    ensures "vanilla_tree_id" !in WeightedKeys
    ensures "type" !in WeightedKeys
    ensures "vanilla_tree_id" !in SimpleKeys
    ensures "type" !in SimpleKeys
  {
  }

  /** The vanilla tree and the type survive the deletions of either kind. */
  lemma OwnKeysKept(current: seq<Member>, vanillaSelect: string, kind: string, body: seq<Member>, deleted: seq<string>)
    requires "vanilla_tree_id" !in deleted && "type" !in deleted
    requires forall key :: key !in deleted ==> Get(JObj(body), key) == Get(JObj(Typed(current, vanillaSelect, kind)), key)
    ensures Prop(JObj(body), "vanilla_tree_id") == VanillaTree(current, vanillaSelect)
    ensures Prop(JObj(body), "type") == JStr(kind)
  {
    var typed := Typed(current, vanillaSelect, kind);
    TypedLookups(current, vanillaSelect, kind);
    assert Get(JObj(body), "vanilla_tree_id") == Get(JObj(typed), "vanilla_tree_id");
    assert Get(JObj(body), "type") == Get(JObj(typed), "type");
  }

  /** Members other than those set or deleted keep their values. */
  lemma OthersKept(current: seq<Member>, vanillaSelect: string, kind: string, body: seq<Member>, touched: seq<string>)
    requires forall key :: key !in touched ==> Get(JObj(body), key) == Get(JObj(Typed(current, vanillaSelect, kind)), key)
    ensures forall key :: key !in OwnKeys + touched ==> Get(JObj(body), key) == Get(JObj(current), key)
  {
    TypedLookups(current, vanillaSelect, kind);
    forall key | key !in OwnKeys + touched
      ensures Get(JObj(body), key) == Get(JObj(current), key)
    {
      assert key != "vanilla_tree_id" && key != "type" && key !in touched;
    }
  }

  lemma WeightedShape(current: seq<Member>, vanillaSelect: string, defaultSelect: string, alts: seq<(string, real)>)
    ensures var body := JObj(WeightedBody(Typed(current, vanillaSelect, "WEIGHTED"), defaultSelect, alts));
            Prop(body, "vanilla_tree_id") == VanillaTree(current, vanillaSelect) &&
            Prop(body, "type") == JStr("WEIGHTED") &&
            Prop(body, "default_tree") == JStr(defaultSelect) &&
            Prop(body, "alternatives") == JArr(AlternativesJson(alts)) &&
            !Has(body, "features") && !Has(body, "replacement_pool") &&
            forall key :: key !in OwnKeys + WeightedKeys ==>
              Get(body, key) == Get(JObj(current), key)
  {
    var typed := Typed(current, vanillaSelect, "WEIGHTED");
    WeightedBodyLookups(typed, defaultSelect, alts);
    TypedLookups(current, vanillaSelect, "WEIGHTED");
    OwnKeysNotDeleted();
    OwnKeysKept(current, vanillaSelect, "WEIGHTED", WeightedBody(typed, defaultSelect, alts), WeightedKeys);
    OthersKept(current, vanillaSelect, "WEIGHTED", WeightedBody(typed, defaultSelect, alts), WeightedKeys);
  }

  lemma SimpleShape(current: seq<Member>, vanillaSelect: string, features: seq<string>)
    ensures var body := JObj(SimpleBody(Typed(current, vanillaSelect, "SIMPLE"), features));
            Prop(body, "vanilla_tree_id") == VanillaTree(current, vanillaSelect) &&
            Prop(body, "type") == JStr("SIMPLE") &&
            Prop(body, "features") == JArr(Strings(features)) &&
            !Has(body, "default_tree") && !Has(body, "alternatives") && !Has(body, "replacement_pool") &&
            forall key :: key !in OwnKeys + SimpleKeys ==>
              Get(body, key) == Get(JObj(current), key)
  {
    var typed := Typed(current, vanillaSelect, "SIMPLE");
    SimpleBodyLookups(typed, features);
    TypedLookups(current, vanillaSelect, "SIMPLE");
    OwnKeysNotDeleted();
    OwnKeysKept(current, vanillaSelect, "SIMPLE", SimpleBody(typed, features), SimpleKeys);
    OthersKept(current, vanillaSelect, "SIMPLE", SimpleBody(typed, features), SimpleKeys);
  }

  /**
   * A posted WEIGHTED replacer: the vanilla tree, the type, the default tree and the kept
   * alternatives; no `features` and no `replacement_pool`; every other member as it was.
   */
  lemma WeightedPosted(current: seq<Member>, vanillaSelect: string, defaultSelect: string,
                       rows: seq<AlternativeRow>, pool: seq<string>,
                       parseFloat: string -> Option<real>, fixed2: real -> string)
    requires Truthy(VanillaTree(current, vanillaSelect)) && defaultSelect != "" && ChanceSum(KeptAlternatives(rows, parseFloat)) <= 1.0
    ensures Checked(current, vanillaSelect, "WEIGHTED", defaultSelect, rows, pool, parseFloat, fixed2).1
         == Post(WeightedBody(Typed(current, vanillaSelect, "WEIGHTED"), defaultSelect, KeptAlternatives(rows, parseFloat)))
    ensures var body := JObj(Checked(current, vanillaSelect, "WEIGHTED", defaultSelect, rows, pool, parseFloat, fixed2).1.body);
            Prop(body, "vanilla_tree_id") == VanillaTree(current, vanillaSelect) &&
            Prop(body, "type") == JStr("WEIGHTED") &&
            Prop(body, "default_tree") == JStr(defaultSelect) &&
            Prop(body, "alternatives") == JArr(AlternativesJson(KeptAlternatives(rows, parseFloat))) &&
            !Has(body, "features") && !Has(body, "replacement_pool") &&
            forall key :: key !in OwnKeys + WeightedKeys ==>
              Get(body, key) == Get(JObj(current), key)
  {
    WeightedShape(current, vanillaSelect, defaultSelect, KeptAlternatives(rows, parseFloat));
  }

  /**
   * A posted SIMPLE replacer: the vanilla tree, the type and the pool of selected trees; no
   * `default_tree`, `alternatives` or `replacement_pool`; every other member as it was.
   */
  lemma SimplePosted(current: seq<Member>, vanillaSelect: string, defaultSelect: string,
                     rows: seq<AlternativeRow>, pool: seq<string>,
                     parseFloat: string -> Option<real>, fixed2: real -> string)
    requires Truthy(VanillaTree(current, vanillaSelect)) && |ChosenFeatures(pool)| > 0
    ensures Checked(current, vanillaSelect, "SIMPLE", defaultSelect, rows, pool, parseFloat, fixed2).1
         == Post(SimpleBody(Typed(current, vanillaSelect, "SIMPLE"), ChosenFeatures(pool)))
    ensures var body := JObj(Checked(current, vanillaSelect, "SIMPLE", defaultSelect, rows, pool, parseFloat, fixed2).1.body);
            Prop(body, "vanilla_tree_id") == VanillaTree(current, vanillaSelect) &&
            Prop(body, "type") == JStr("SIMPLE") &&
            Prop(body, "features") == JArr(Strings(ChosenFeatures(pool))) &&
            !Has(body, "default_tree") && !Has(body, "alternatives") && !Has(body, "replacement_pool") &&
            forall key :: key !in OwnKeys + SimpleKeys ==>
              Get(body, key) == Get(JObj(current), key)
  {
    SimpleShape(current, vanillaSelect, ChosenFeatures(pool));
  }

  // ---------------------------------------------------------------------------------------------
  // The form

  /** Whether the option of custom tree `t` ("tree_engine:" + t) carries this value. */
  predicate Offered(customTrees: seq<string>, value: string)
  {
    exists t :: t in customTrees && value == "tree_engine:" + t
  }

  /** The value a new row's select shows: the option matching `treeId`, or the empty first option. */
  function SelectedValue(customTrees: seq<string>, treeId: Json): (r: string)
    ensures r == "" || Offered(customTrees, r)
    ensures treeId.JStr? && Offered(customTrees, treeId.s) ==> r == treeId.s
  {
    if treeId.JStr? && Offered(customTrees, treeId.s) then treeId.s else ""
  }

  /** The replacer `showCreateReplacerForm` starts from. */
  const NewReplacer: seq<Member> :=
    [Member("id", JStr("")), Member("vanilla_tree_id", JStr("")), Member("default_tree", JStr("")),
     Member("alternatives", JArr([])), Member("type", JStr("WEIGHTED"))]

  /** The chance `addAlternative` gets when it is called without one. */
  const DefaultChance: string := "0.1"

  /**
   * The chance input's text for a stored alternative: `alt.chance` rendered, or the parameter's
   * default 0.1 when the entry has no `chance` (`undefined`); a `null` chance is passed on as `null`.
   */
  function ChanceShown(alt: Json, jsText: Json -> string): (r: string)
    ensures alt.JObj? && Has(alt, "chance") ==> r == jsText(Get(alt, "chance").value)
    ensures !alt.JObj? || !Has(alt, "chance") ==> r == DefaultChance
  {
    if alt.JObj? && Has(alt, "chance") then jsText(Prop(alt, "chance")) else DefaultChance
  }

  /** The rows `populateReplacerData` adds for the stored alternatives. */
  function LoadedRows(customTrees: seq<string>, alternatives: Json, jsText: Json -> string): (r: seq<AlternativeRow>)
    ensures |customTrees| == 0 || !alternatives.JArr? ==> r == []
    ensures |customTrees| > 0 && alternatives.JArr? ==> |r| == |alternatives.items|
    ensures |customTrees| > 0 && alternatives.JArr? ==>
              forall i :: 0 <= i < |r| ==>
                (r[i].feature == "" || Offered(customTrees, r[i].feature)) &&
                r[i].chance == ChanceShown(alternatives.items[i], jsText)
  {
    if |customTrees| == 0 || !alternatives.JArr? then []
    else
      var items := alternatives.items;
      seq(|items|, i requires 0 <= i < |items| =>
        AlternativeRow(SelectedValue(customTrees, Prop(items[i], "feature")), ChanceShown(items[i], jsText)))
  }

  /** The rows `populateSimplePoolData` adds for a stored SIMPLE pool. */
  function LoadedPool(customTrees: seq<string>, replacer: seq<Member>): (r: seq<string>)
    ensures forall i :: 0 <= i < |r| ==> r[i] == "" || Offered(customTrees, r[i])
  {
    var features := Prop(JObj(replacer), "features");
    if |customTrees| == 0 || Prop(JObj(replacer), "type") != JStr("SIMPLE") || !features.JArr? then []
    else
      var items := features.items;
      seq(|items|, i requires 0 <= i < |items| => SelectedValue(customTrees, items[i]))
  }

  /** How the server answered the POST. */
  datatype ReplacerAnswer = Accepted | Rejected(error: Json) | Unreadable(message: string)

  /** `error.error || 'Failed to save replacer'`, as the message of the `Error` it is thrown in. */
  function FailureMessage(answer: ReplacerAnswer, jsString: Json -> string): string
  {
    match answer
    case Accepted => ""
    case Unreadable(message) => message
    case Rejected(error) =>
      var e := Prop(error, "error");
      if !Truthy(e) then "Failed to save replacer"
      else match e
        case JStr(text) => text
        case _ => jsString(e)
  }

  /** How a save ends. */
  datatype SaveOutcome =
    | Alerted(alert: string)
    | Saved(body: seq<Member>, status: string)
    | NotSaved(body: seq<Member>, alert: string)

  const SavedStatus: string := "Tree replacer saved and hot-reloaded!"
  const SaveFailed: string := "Failed to save tree replacer: "

  lemma RemoveTwo(ms: seq<Member>, a: string, b: string)
    ensures RemoveKeys(ms, [a, b]) == Remove(Remove(ms, a), b)
  {
    assert [a, b][1..] == [b];
    RemoveOne(Remove(ms, a), b);
  }

  lemma RemoveThree(ms: seq<Member>, a: string, b: string, c: string)
    ensures RemoveKeys(ms, [a, b, c]) == Remove(Remove(Remove(ms, a), b), c)
  {
    assert [a, b, c][1..] == [b, c];
    RemoveTwo(Remove(ms, a), b, c);
  }

  lemma RemoveOne(ms: seq<Member>, a: string)
    ensures RemoveKeys(ms, [a]) == Remove(ms, a)
  {
    assert [a][1..] == [];
  }

  /** The panel's replacer being edited and the rows of its form. */
  class ReplacerForm {
    const customTrees: seq<string>
    var current: Option<seq<Member>>
    var formOpen: bool
    var alternativeRows: seq<AlternativeRow>
    var poolRows: seq<string>

    constructor (customTrees: seq<string>)
      ensures this.customTrees == customTrees
      ensures current.None? && !formOpen && alternativeRows == [] && poolRows == []
    {
      this.customTrees := customTrees;
      current := None;
      formOpen := false;
      alternativeRows := [];
      poolRows := [];
    }

    /** `addAlternative`: nothing without an open form or without custom trees; otherwise one more row. */
    method AddAlternative(treeId: Json, chance: string)
      modifies this
      ensures !old(formOpen) || |customTrees| == 0 ==> alternativeRows == old(alternativeRows)
      ensures old(formOpen) && |customTrees| > 0 ==>
                alternativeRows == old(alternativeRows) + [AlternativeRow(SelectedValue(customTrees, treeId), chance)]
      ensures current == old(current) && formOpen == old(formOpen) && poolRows == old(poolRows)
    {
      if !formOpen || |customTrees| == 0 {
        return;
      }
      alternativeRows := alternativeRows + [AlternativeRow(SelectedValue(customTrees, treeId), chance)];
    }

    /** `addSimplePoolEntry`: nothing without an open form or without custom trees; otherwise one more row. */
    method AddSimplePoolEntry(treeId: Json)
      modifies this
      ensures !old(formOpen) || |customTrees| == 0 ==> poolRows == old(poolRows)
      ensures old(formOpen) && |customTrees| > 0 ==> poolRows == old(poolRows) + [SelectedValue(customTrees, treeId)]
      ensures current == old(current) && formOpen == old(formOpen) && alternativeRows == old(alternativeRows)
    {
      if !formOpen || |customTrees| == 0 {
        return;
      }
      poolRows := poolRows + [SelectedValue(customTrees, treeId)];
    }

    /** A row's remove button. */
    method RemoveAlternative(i: nat)
      requires i < |alternativeRows|
      modifies this
      ensures alternativeRows == old(alternativeRows[..i] + alternativeRows[i + 1..])
      ensures current == old(current) && formOpen == old(formOpen) && poolRows == old(poolRows)
    {
      alternativeRows := alternativeRows[..i] + alternativeRows[i + 1..];
    }

    /** A pool row's remove button. */
    method RemovePoolEntry(i: nat)
      requires i < |poolRows|
      modifies this
      ensures poolRows == old(poolRows[..i] + poolRows[i + 1..])
      ensures current == old(current) && formOpen == old(formOpen) && alternativeRows == old(alternativeRows)
    {
      poolRows := poolRows[..i] + poolRows[i + 1..];
    }

    /**
     * `renderReplacerForm` with `populateReplacerData`: the rows are emptied, then one row is
     * added per stored alternative and, for a SIMPLE replacer, per pool tree.
     */
    method RenderForm(jsText: Json -> string)
      requires current.Some?
      modifies this
      ensures formOpen && current == old(current)
      ensures alternativeRows == LoadedRows(customTrees, Prop(JObj(current.value), "alternatives"), jsText)
      ensures poolRows == LoadedPool(customTrees, current.value)
    {
      formOpen := true;
      alternativeRows := [];
      poolRows := [];
      var replacer := current.value;
      var alternatives := Prop(JObj(replacer), "alternatives");
      if alternatives.JArr? {
        var items := alternatives.items;
        for i := 0 to |items|
          invariant formOpen && current == old(current) && poolRows == []
          invariant |customTrees| == 0 ==> alternativeRows == []
          invariant |customTrees| > 0 ==> alternativeRows == LoadedRows(customTrees, alternatives, jsText)[..i]
        {
          AddAlternative(Prop(items[i], "feature"), ChanceShown(items[i], jsText));
        }
        assert |customTrees| > 0 ==> LoadedRows(customTrees, alternatives, jsText)[..|items|] == LoadedRows(customTrees, alternatives, jsText);
      }
      var features := Prop(JObj(replacer), "features");
      if Prop(JObj(replacer), "type") == JStr("SIMPLE") && features.JArr? {
        var items := features.items;
        for i := 0 to |items|
          invariant formOpen && current == old(current)
          invariant alternativeRows == LoadedRows(customTrees, alternatives, jsText)
          invariant |customTrees| == 0 ==> poolRows == []
          invariant |customTrees| > 0 ==> poolRows == LoadedPool(customTrees, replacer)[..i]
        {
          AddSimplePoolEntry(items[i]);
        }
        assert |customTrees| > 0 ==> LoadedPool(customTrees, replacer)[..|items|] == LoadedPool(customTrees, replacer);
      }
    }

    /** `showCreateReplacerForm`: a blank WEIGHTED replacer. */
    method ShowCreateReplacerForm(jsText: Json -> string)
      modifies this
      ensures current == Some(NewReplacer) && formOpen
      ensures alternativeRows == [] && poolRows == []
    {
      current := Some(NewReplacer);
      RenderForm(jsText);
      assert Prop(JObj(NewReplacer), "alternatives") == JArr([]);
      assert Prop(JObj(NewReplacer), "type") == JStr("WEIGHTED");
    }

    /** `editReplacer`: a copy of the stored replacer, WEIGHTED when it has no type. */
    method EditReplacer(replacer: seq<Member>, jsText: Json -> string)
      modifies this
      ensures current == Some(WithDefaultType(replacer)) && formOpen
      ensures alternativeRows == LoadedRows(customTrees, Prop(JObj(replacer), "alternatives"), jsText)
      ensures poolRows == LoadedPool(customTrees, WithDefaultType(replacer))
    {
      current := Some(WithDefaultType(replacer));
      RenderForm(jsText);
    }

    /** The cancel button. */
    method Cancel()
      modifies this
      ensures current.None? && !formOpen && alternativeRows == [] && poolRows == []
    {
      current := None;
      formOpen := false;
      alternativeRows := [];
      poolRows := [];
    }

    /**
     * `saveReplacer`: the replacer is updated and checked as `Checked` says; an alert leaves it
     * as far as it got. A posted replacer that the server accepts closes the form; one it refuses
     * stays open with the server's message.
     */
    method SaveReplacer(vanillaSelect: string, kind: string, defaultSelect: string,
                        parseFloat: string -> Option<real>, fixed2: real -> string, jsString: Json -> string,
                        server: seq<Member> -> ReplacerAnswer)
      returns (outcome: SaveOutcome)
      requires current.Some?
      modifies this
      ensures var (next, check) := Checked(old(current).value, vanillaSelect, kind, defaultSelect,
                                           old(alternativeRows), old(poolRows), parseFloat, fixed2);
              (check.Refuse? ==>
                 outcome == Alerted(check.alert) && current == Some(next) &&
                 unchanged(this`formOpen, this`alternativeRows, this`poolRows)) &&
              (check.Post? && server(check.body) == Accepted ==>
                 outcome == Saved(check.body, SavedStatus) && current.None? && !formOpen &&
                 alternativeRows == [] && poolRows == []) &&
              (check.Post? && server(check.body) != Accepted ==>
                 outcome == NotSaved(check.body, SaveFailed + FailureMessage(server(check.body), jsString)) &&
                 current == Some(next) && unchanged(this`formOpen, this`alternativeRows, this`poolRows))
    {
      var next, check := Prepare(current.value, vanillaSelect, kind, defaultSelect, alternativeRows, poolRows, parseFloat, fixed2);
      current := Some(next);
      if check.Refuse? {
        return Alerted(check.alert);
      }
      var answer := server(check.body);
      if answer == Accepted {
        current := None;
        formOpen := false;
        alternativeRows := [];
        poolRows := [];
        outcome := Saved(check.body, SavedStatus);
      } else {
        outcome := NotSaved(check.body, SaveFailed + FailureMessage(answer, jsString));
      }
    }
  }

  /** The updates and checks of `saveReplacer`, one field at a time. */
  method Prepare(current: seq<Member>, vanillaSelect: string, kind: string, defaultSelect: string,
                 rows: seq<AlternativeRow>, pool: seq<string>,
                 parseFloat: string -> Option<real>, fixed2: real -> string)
    returns (next: seq<Member>, check: Check)
    ensures (next, check) == Checked(current, vanillaSelect, kind, defaultSelect, rows, pool, parseFloat, fixed2)
    ensures check.Post? ==> check.body == next
  {
    next := current;
    if !Truthy(Prop(JObj(next), "id")) {
      next := Put(next, "vanilla_tree_id", JStr(vanillaSelect));
    }
    WithTreeLookups(current, vanillaSelect);
    if !Truthy(Prop(JObj(next), "vanilla_tree_id")) {
      return next, Refuse(NoVanillaTree);
    }
    next := Put(next, "type", JStr(kind));
    if kind == "WEIGHTED" {
      next, check := PrepareWeighted(next, defaultSelect, rows, parseFloat, fixed2);
    } else if kind == "SIMPLE" {
      next, check := PrepareSimple(next, pool);
    } else {
      next := Remove(next, "replacement_pool");
      RemoveOne(Typed(current, vanillaSelect, kind), "replacement_pool");
      check := Post(next);
    }
  }

  method PrepareWeighted(typed: seq<Member>, defaultSelect: string, rows: seq<AlternativeRow>,
                         parseFloat: string -> Option<real>, fixed2: real -> string)
    returns (next: seq<Member>, check: Check)
    ensures (next, check) == WeightedChecked(typed, defaultSelect, rows, parseFloat, fixed2)
    ensures check.Post? ==> check.body == next
  {
    next := typed;
    if defaultSelect == "" {
      return next, Refuse(NoDefaultTree);
    }
    next := Put(next, "default_tree", JStr(defaultSelect));
    var alternatives := CollectAlternatives(rows, parseFloat);
    var totalChance := Total(alternatives);
    if totalChance > 1.0 {
      return next, Refuse(TooLikely + fixed2(totalChance));
    }
    next := Put(next, "alternatives", JArr(AlternativesJson(alternatives)));
    RemoveTwo(next, "features", "replacement_pool");
    next := Remove(next, "features");
    next := Remove(next, "replacement_pool");
    check := Post(next);
  }

  method PrepareSimple(typed: seq<Member>, pool: seq<string>) returns (next: seq<Member>, check: Check)
    ensures (next, check) == SimpleChecked(typed, pool)
    ensures check.Post? ==> check.body == next
  {
    next := typed;
    var features := CollectFeatures(pool);
    if |features| == 0 {
      return next, Refuse(EmptyPool);
    }
    next := Put(next, "features", JArr(Strings(features)));
    RemoveThree(next, "default_tree", "alternatives", "replacement_pool");
    next := Remove(next, "default_tree");
    next := Remove(next, "alternatives");
    next := Remove(next, "replacement_pool");
    check := Post(next);
  }

  /** The `forEach` over the weighted rows. */
  method CollectAlternatives(rows: seq<AlternativeRow>, parseFloat: string -> Option<real>) returns (alternatives: seq<(string, real)>)
    ensures alternatives == KeptAlternatives(rows, parseFloat)
  {
    alternatives := [];
    for i := 0 to |rows|
      invariant alternatives == KeptAlternatives(rows[..i], parseFloat)
    {
      assert rows[..i + 1][..i] == rows[..i];
      var feature := rows[i].feature;
      if feature == "" {
        continue;
      }
      var chance := parseFloat(rows[i].chance).GetOr(0.0);
      if chance > 0.0 && chance <= 1.0 {
        alternatives := alternatives + [(feature, chance)];
      }
    }
    assert rows[..|rows|] == rows;
  }

  /** `alternatives.reduce((sum, alt) => sum + alt.chance, 0)`. */
  method Total(alternatives: seq<(string, real)>) returns (total: real)
    ensures total == ChanceSum(alternatives)
  {
    total := 0.0;
    for i := 0 to |alternatives|
      invariant total == ChanceSum(alternatives[..i])
    {
      assert alternatives[..i + 1][..i] == alternatives[..i];
      total := total + alternatives[i].1;
    }
    assert alternatives[..|alternatives|] == alternatives;
  }

  /** The `forEach` over the pool rows. */
  method CollectFeatures(rows: seq<string>) returns (features: seq<string>)
    ensures features == ChosenFeatures(rows)
  {
    features := [];
    for i := 0 to |rows|
      invariant features == ChosenFeatures(rows[..i])
    {
      assert rows[..i + 1][..i] == rows[..i];
      if rows[i] != "" {
        features := features + [rows[i]];
      }
    }
    assert rows[..|rows|] == rows;
  }
}
