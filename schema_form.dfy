/**
 * The schema-driven configuration form of the web editor (web/forms/schema-form.js): the label
 * a key is shown with, the widget `createField` builds for a field definition, and the values
 * `extractValues` reads back from the rendered form. The page is an abstract tree holding what
 * the extractors read: each wrapper's key and control, each control's text and check state, a
 * fieldset's sub-fields, and an array's items. `JSON.parse`, `JSON.stringify`, `parseFloat` and
 * `String()` are parameters.
 */
module SchemaForm {
  import opened Wrappers
  import opened Text
  import opened Json
  import InputValidator
  import TreeReplacerUi

  // ---------------------------------------------------------------------------------------------
  // Display names

  /** A letter or digit. */
  predicate IsAlnum(c: char)
  {
    ('a' <= c <= 'z') || ('A' <= c <= 'Z') || ('0' <= c <= '9')
  }

  /** A character of the regular-expression class `\w`. */
  predicate IsWordChar(c: char)
  {
    IsAlnum(c) || c == '_'
  }

  /** `str.replace(/_/g, ' ')`. */
  function Spaced(s: string): (r: string)
    ensures |r| == |s|
    ensures forall i :: 0 <= i < |s| ==> r[i] == if s[i] == '_' then ' ' else s[i]
  {
    seq(|s|, i requires 0 <= i < |s| => if s[i] == '_' then ' ' else s[i])
  }

  /** `.replace(/\b\w/g, c => c.toUpperCase())`: a word character with no word character before it is upper-cased. */
  function UpperWordStarts(t: string): (r: string)
    ensures |r| == |t|
  {
    seq(|t|, i requires 0 <= i < |t| =>
      if IsWordChar(t[i]) && (i == 0 || !IsWordChar(t[i - 1])) then UpperChar(t[i]) else t[i])
  }

  /** `toDisplayName`: underscores become spaces, then every word is capitalised. */
  function ToDisplayName(s: string): (r: string)
    ensures |r| == |s|
  {
    UpperWordStarts(Spaced(s))
  }

  /**
   * Read on the key itself: '_' becomes ' ', and a letter or digit that starts the key or follows
   * a character other than a letter or digit is upper-cased; nothing else changes, and no
   * underscore is left.
   */
  lemma DisplayNameChars(s: string)
    ensures forall i :: 0 <= i < |s| ==>
              ToDisplayName(s)[i] ==
                if s[i] == '_' then ' '
                else if IsAlnum(s[i]) && (i == 0 || !IsAlnum(s[i - 1])) then UpperChar(s[i])
                else s[i]
    ensures '_' !in ToDisplayName(s)
  {
    var t := Spaced(s);
    forall i | 0 <= i < |s|
      ensures ToDisplayName(s)[i] ==
                if s[i] == '_' then ' '
                else if IsAlnum(s[i]) && (i == 0 || !IsAlnum(s[i - 1])) then UpperChar(s[i])
                else s[i]
    {
      assert i > 0 ==> (IsWordChar(t[i - 1]) <==> IsAlnum(s[i - 1]));
    }
  }

  /** A display name is its own display name. */
  lemma DisplayNameIdempotent(s: string)
    ensures ToDisplayName(ToDisplayName(s)) == ToDisplayName(s)
  {
    var d := ToDisplayName(s);
    DisplayNameChars(s);
    DisplayNameChars(d);
    forall i | 0 <= i < |d|
      ensures ToDisplayName(d)[i] == d[i]
    {
      assert IsAlnum(d[i]) <==> IsAlnum(s[i]);
      assert i > 0 ==> (IsAlnum(d[i - 1]) <==> IsAlnum(s[i - 1]));
    }
  }

  /**
   * On identifiers made of `[a-zA-Z0-9_]`, the form's labels and the tree-replacer panel's names
   * agree: a character follows a non-alphanumeric one exactly when it follows '_'.
   */
  lemma AgreesWithReplacerNames(s: string)
    requires forall i :: 0 <= i < |s| ==> InputValidator.IdChar(s[i])
    ensures ToDisplayName(s) == TreeReplacerUi.Titled(s, true)
  {
    DisplayNameChars(s);
    var l, r := ToDisplayName(s), TreeReplacerUi.Titled(s, true);
    forall i | 0 <= i < |s|
      ensures l[i] == r[i]
    {
      assert i > 0 ==> InputValidator.IdChar(s[i - 1]);
    }
  }

  /** After a hyphen the two differ: the form capitalises, the panel does not. */
  lemma HyphenStartsAWord()
    ensures ToDisplayName("a-b") == "A-B"
    ensures TreeReplacerUi.Titled("a-b", true) == "A-b"
  {
    DisplayNameChars("a-b");
  }

  /** Index of the first occurrence of `pat` in `s`, or -1. */
  function FirstOccurrence(s: string, pat: string): (i: int)
    ensures -1 <= i && (i >= 0 ==> i <= |s| - |pat| && OccursAt(s, pat, i))
    ensures forall j :: 0 <= j <= |s| - |pat| && (i < 0 || j < i) ==> !OccursAt(s, pat, j)
    decreases |s|
  {
    if |s| < |pat| then -1
    else if OccursAt(s, pat, 0) then 0
    else
      var k := FirstOccurrence(s[1..], pat);
      assert forall j :: 1 <= j <= |s| - |pat| ==> (OccursAt(s, pat, j) <==> OccursAt(s[1..], pat, j - 1));
      if k < 0 then -1 else k + 1
  }

  /** `s.replace(pat, '')` with a string pattern: the first occurrence only is removed. */
  function RemoveFirst(s: string, pat: string): (r: string)
  {
    var i := FirstOccurrence(s, pat);
    if i < 0 then s else s[..i] + s[i + |pat|..]
  }

  const MinecraftNamespace: string := "minecraft:"

  /** The text of an option of an enum select. */
  function OptionText(opt: string): string
  {
    ToDisplayName(RemoveFirst(opt, MinecraftNamespace))
  }

  /** A vanilla id is shown by its path. */
  lemma OptionTextOfVanillaId(path: string)
    ensures OptionText(MinecraftNamespace + path) == ToDisplayName(path)
  {
    var s := MinecraftNamespace + path;
    assert s[0..|MinecraftNamespace|] == MinecraftNamespace;
    assert FirstOccurrence(s, MinecraftNamespace) == 0;
    assert RemoveFirst(s, MinecraftNamespace) == s[|MinecraftNamespace|..];
    assert s[|MinecraftNamespace|..] == path;
  }

  /** An option naming no vanilla id is shown as it is written. */
  lemma OptionTextWithoutNamespace(opt: string)
    requires !Contains(opt, MinecraftNamespace)
    ensures OptionText(opt) == ToDisplayName(opt)
  {
  }

  // ---------------------------------------------------------------------------------------------
  // Schemas and the rendered form

  /** A field definition of the schema; an absent member is `None`. */
  datatype Schema = Schema(
    enumOptions: Option<seq<string>>,
    typ: Option<string>,
    defaultValue: Option<Json>,
    properties: Properties,
    items: Option<Schema>)

  /** `definition.properties`, in the object's key order. */
  datatype Properties = NoProperties | Properties(entries: seq<SubSchema>)

  datatype SubSchema = SubSchema(key: string, schema: Schema)

  /** `definition.properties || {}`. */
  function EntriesOf(p: Properties): seq<SubSchema>
  {
    match p
    case NoProperties => []
    case Properties(es) => es
  }

  /**
   * The element of a field that carries `data-config-key`: its `value` and `checked`, whether it
   * is a textarea, the `.form-field` wrappers among its children (a fieldset's sub-fields), and
   * its `.array-items` list.
   */
  datatype Control = Control(value: string, checked: bool, isTextarea: bool, fields: seq<Field>, itemsList: ItemsList)

  datatype ItemsList = NoItemsList | ItemsList(items: seq<Item>)

  /** A `.form-field` wrapper: its `data-field-key` and the first element inside it marked with `data-config-key`. */
  datatype Field = Field(key: string, control: Option<Control>)

  /**
   * A child of `.array-items`: whether it has the class `array-item`, the wrappers directly in
   * its `.item-content`, and the first textarea or input in that content.
   */
  datatype Item = Item(isArrayItem: bool, fields: seq<Field>, input: Option<Control>)

  /** A control with only a text. */
  function TextControl(text: string): Control
  {
    Control(text, false, false, [], NoItemsList)
  }

  // ---------------------------------------------------------------------------------------------
  // Reading values back (specification)

  /** `parseInt(text) || 0`: NaN and 0 both give 0. */
  function IntegerOf(text: string): (r: int)
    ensures JsParseInt(text).Some? ==> r == JsParseInt(text).value
    ensures JsParseInt(text).None? ==> r == 0
  {
    JsParseInt(text).GetOr(0)
  }

  /** `parseFloat(text) || 0`, with `parseFloat` giving `None` for NaN. */
  function NumberOf(text: string, parseFloat: string -> Option<real>): (r: real)
    ensures parseFloat(text).Some? ==> r == parseFloat(text).value
    ensures parseFloat(text).None? ==> r == 0.0
  {
    parseFloat(text).GetOr(0.0)
  }

  /**
   * What a sub-field may contribute to its object: not null, and not an object without keys
   * (arrays, even empty ones, are kept).
   */
  predicate Kept(v: Json)
  {
    v != JNull && !(v.JObj? && |v.members| == 0)
  }

  /** Index of the first wrapper among `fields` with the key, or -1. */
  function FieldIndex(fields: seq<Field>, key: string): (i: int)
    ensures -1 <= i < |fields|
    ensures i >= 0 ==> fields[i].key == key
    ensures forall k :: 0 <= k < |fields| && (i < 0 || k < i) ==> fields[k].key != key
  {
    if |fields| == 0 then -1
    else if fields[0].key == key then 0
    else
      var k := FieldIndex(fields[1..], key);
      if k < 0 then -1 else k + 1
  }

  /** A definition that falls through to the raw-JSON textarea. */
  predicate IsRawJson(s: Schema)
  {
    s.enumOptions.None? && s.typ !in {Some("boolean"), Some("integer"), Some("number"), Some("string"), Some("object"), Some("array")}
  }

  /**
   * `extractFieldValue`, by the definition's precedence: enum, boolean, integer, number, string,
   * object, array, and otherwise raw JSON, where text `JSON.parse` rejects gives null. `None` is
   * `undefined`.
   */
  function FieldValue(s: Schema, c: Control, parseFloat: string -> Option<real>, parse: string -> Option<Json>): (r: Option<Json>)
    ensures r.None? ==> s.enumOptions.None? && s.typ == Some("object")
    ensures r == Some(JNull) ==> IsRawJson(s) && parse(c.value) in {None, Some(JNull)}
    decreases c, 0, 0
  {
    if s.enumOptions.Some? then Some(JStr(c.value))
    else if s.typ == Some("boolean") then Some(JBool(c.checked))
    else if s.typ == Some("integer") then Some(JNum(IntegerOf(c.value) as real))
    else if s.typ == Some("number") then Some(JNum(NumberOf(c.value, parseFloat)))
    else if s.typ == Some("string") then Some(JStr(c.value))
    else if s.typ == Some("object") then ObjectValue(s.properties, c.fields, parseFloat, parse)
    else if s.typ == Some("array") then Some(ArrayValue(s.items, c.itemsList, parseFloat, parse))
    else Some(parse(c.value).GetOr(JNull))
  }

  /**
   * What one property contributes to `extractObjectValue`: the value of its wrapper among the
   * direct children, when there is one with a control and the value is kept.
   */
  function SubValue(e: SubSchema, fields: seq<Field>, parseFloat: string -> Option<real>, parse: string -> Option<Json>): (r: Option<Json>)
    ensures r.Some? ==> Kept(r.value)
    decreases fields, 0, 0
  {
    var k := FieldIndex(fields, e.key);
    if k < 0 then None
    else
      match fields[k].control
      case None => None
      case Some(c) =>
        match FieldValue(e.schema, c, parseFloat, parse)
        case None => None
        case Some(v) => if Kept(v) then Some(v) else None
  }

  /** The members `extractObjectValue` has added after the first `|entries|` properties. */
  function ObjectMembers(entries: seq<SubSchema>, fields: seq<Field>, parseFloat: string -> Option<real>, parse: string -> Option<Json>): (r: seq<Member>)
    decreases fields, 0, |entries|
  {
    if |entries| == 0 then []
    else
      var ms := ObjectMembers(entries[..|entries| - 1], fields, parseFloat, parse);
      var e := entries[|entries| - 1];
      match SubValue(e, fields, parseFloat, parse)
      case None => ms
      case Some(v) => Put(ms, e.key, v)
  }

  /** `extractObjectValue`: the collected object, or `undefined` when no property was added. */
  function ObjectValue(p: Properties, fields: seq<Field>, parseFloat: string -> Option<real>, parse: string -> Option<Json>): (r: Option<Json>)
    decreases fields, 1, 0
  {
    var ms := ObjectMembers(EntriesOf(p), fields, parseFloat, parse);
    if |ms| == 0 then None else Some(JObj(ms))
  }

  /**
   * The value of one array item: an object item is read like a fieldset; otherwise the item's
   * textarea is parsed, or its input read by the item type. A parse failure, a missing input and
   * an input without an item schema (reading `type` of `undefined` throws) give `undefined`.
   */
  function ItemValue(itemSchema: Option<Schema>, it: Item, parseFloat: string -> Option<real>, parse: string -> Option<Json>): (r: Option<Json>)
    decreases it, 0, 0
  {
    if itemSchema.Some? && itemSchema.value.properties.Properties? then
      ObjectValue(itemSchema.value.properties, it.fields, parseFloat, parse)
    else
      match it.input
      case None => None
      case Some(c) =>
        if c.isTextarea then parse(c.value)
        else if itemSchema.None? then None
        else if itemSchema.value.typ == Some("integer") then Some(JNum(IntegerOf(c.value) as real))
        else if itemSchema.value.typ == Some("number") then Some(JNum(NumberOf(c.value, parseFloat)))
        else if itemSchema.value.typ == Some("boolean") then Some(JBool(c.checked))
        else Some(JStr(c.value))
  }

  /** The values `extractArrayValue` pushes for the first `|items|` children: defined, non-null values of array items. */
  function ArrayItems(itemSchema: Option<Schema>, items: seq<Item>, parseFloat: string -> Option<real>, parse: string -> Option<Json>): (r: seq<Json>)
    decreases items, 0, 0
  {
    if |items| == 0 then []
    else
      var vs := ArrayItems(itemSchema, items[..|items| - 1], parseFloat, parse);
      var it := items[|items| - 1];
      if !it.isArrayItem then vs
      else
        match ItemValue(itemSchema, it, parseFloat, parse)
        case None => vs
        case Some(v) => if v != JNull then vs + [v] else vs
  }

  /** `extractArrayValue`: an array, empty when the control has no `.array-items` list. */
  function ArrayValue(itemSchema: Option<Schema>, list: ItemsList, parseFloat: string -> Option<real>, parse: string -> Option<Json>): (r: Json)
    decreases list, 0, 0
  {
    match list
    case NoItemsList => JArr([])
    case ItemsList(items) => JArr(ArrayItems(itemSchema, items, parseFloat, parse))
  }

  // ---------------------------------------------------------------------------------------------
  // Properties of the extracted values

  /** Keys of the properties, in order. */
  function EntryKeys(entries: seq<SubSchema>): (r: seq<string>)
    ensures |r| == |entries| && forall i :: 0 <= i < |entries| ==> r[i] == entries[i].key
  {
    seq(|entries|, i requires 0 <= i < |entries| => entries[i].key)
  }

  /**
   * Every member collected is a property of the definition with a kept value, and nothing is
   * collected exactly when no property contributes.
   */
  lemma {:induction false} ObjectMembersShape(entries: seq<SubSchema>, fields: seq<Field>, parseFloat: string -> Option<real>, parse: string -> Option<Json>)
    ensures forall m :: m in ObjectMembers(entries, fields, parseFloat, parse) ==> Kept(m.value) && m.key in EntryKeys(entries)
    ensures |ObjectMembers(entries, fields, parseFloat, parse)| == 0 <==>
              forall i :: 0 <= i < |entries| ==> SubValue(entries[i], fields, parseFloat, parse).None?
    decreases |entries|
  {
    if |entries| > 0 {
      var n := |entries|;
      var init := entries[..n - 1];
      ObjectMembersShape(init, fields, parseFloat, parse);
      var ms := ObjectMembers(init, fields, parseFloat, parse);
      assert forall m :: m in ms ==> m.key in EntryKeys(entries) by {
        forall m | m in ms ensures m.key in EntryKeys(entries) {
          var i :| 0 <= i < n - 1 && EntryKeys(init)[i] == m.key;
          assert EntryKeys(entries)[i] == m.key;
        }
      }
      assert EntryKeys(entries)[n - 1] == entries[n - 1].key;
      match SubValue(entries[n - 1], fields, parseFloat, parse)
      case None =>
      case Some(v) =>
        PutMembers(ms, entries[n - 1].key, v);
        assert Has(JObj(Put(ms, entries[n - 1].key, v)), entries[n - 1].key);
    }
  }

  /**
   * With the definition's keys distinct (they are the keys of a JavaScript object), each
   * property's member holds what it contributes, and no other key is present.
   */
  lemma {:induction false} ObjectMembersLookup(entries: seq<SubSchema>, fields: seq<Field>, parseFloat: string -> Option<real>, parse: string -> Option<Json>)
    requires forall i, j :: 0 <= i < j < |entries| ==> entries[i].key != entries[j].key
    ensures forall i :: 0 <= i < |entries| ==>
              Get(JObj(ObjectMembers(entries, fields, parseFloat, parse)), entries[i].key) == SubValue(entries[i], fields, parseFloat, parse)
    ensures forall key :: key !in EntryKeys(entries) ==> Get(JObj(ObjectMembers(entries, fields, parseFloat, parse)), key) == None
    decreases |entries|
  {
    if |entries| > 0 {
      var n := |entries|;
      var init := entries[..n - 1];
      var last := entries[n - 1];
      ObjectMembersLookup(init, fields, parseFloat, parse);
      var ms := ObjectMembers(init, fields, parseFloat, parse);
      assert forall i :: 0 <= i < n - 1 ==> EntryKeys(init)[i] == entries[i].key != last.key;
      assert EntryKeys(entries) == EntryKeys(init) + [last.key];
      match SubValue(last, fields, parseFloat, parse)
      case None =>
      case Some(v) =>
        PutLookups(ms, last.key, v);
    }
  }

  /**
   * `extractObjectValue` gives `undefined` exactly when no property contributes; otherwise an
   * object with at least one member, every member a property of the definition holding a kept
   * value: no null, no `undefined`, no empty object.
   */
  lemma ObjectValueShape(p: Properties, fields: seq<Field>, parseFloat: string -> Option<real>, parse: string -> Option<Json>)
    ensures ObjectValue(p, fields, parseFloat, parse).None? <==>
              forall i :: 0 <= i < |EntriesOf(p)| ==> SubValue(EntriesOf(p)[i], fields, parseFloat, parse).None?
    ensures ObjectValue(p, fields, parseFloat, parse).Some? ==>
              var o := ObjectValue(p, fields, parseFloat, parse).value;
              o.JObj? && |o.members| > 0 &&
              forall m :: m in o.members ==> Kept(m.value) && m.key in EntryKeys(EntriesOf(p))
  {
    ObjectMembersShape(EntriesOf(p), fields, parseFloat, parse);
  }

  /** Reading more items appends what they give: the values keep the order of the items. */
  lemma {:induction false} ArrayItemsAppend(itemSchema: Option<Schema>, a: seq<Item>, b: seq<Item>, parseFloat: string -> Option<real>, parse: string -> Option<Json>)
    ensures ArrayItems(itemSchema, a + b, parseFloat, parse) == ArrayItems(itemSchema, a, parseFloat, parse) + ArrayItems(itemSchema, b, parseFloat, parse)
    decreases |b|
  {
    if |b| == 0 {
      assert a + b == a;
    } else {
      var n := |b|;
      assert (a + b)[..|a + b| - 1] == a + b[..n - 1];
      assert (a + b)[|a + b| - 1] == b[n - 1];
      ArrayItemsAppend(itemSchema, a, b[..n - 1], parseFloat, parse);
    }
  }

  /** No null is pushed, and at most one value per item. */
  lemma {:induction false} ArrayItemsBounded(itemSchema: Option<Schema>, items: seq<Item>, parseFloat: string -> Option<real>, parse: string -> Option<Json>)
    ensures |ArrayItems(itemSchema, items, parseFloat, parse)| <= |items|
    ensures JNull !in ArrayItems(itemSchema, items, parseFloat, parse)
    decreases |items|
  {
    if |items| > 0 {
      ArrayItemsBounded(itemSchema, items[..|items| - 1], parseFloat, parse);
    }
  }

  /** An item that gives a defined non-null value. */
  predicate Yields(itemSchema: Option<Schema>, it: Item, parseFloat: string -> Option<real>, parse: string -> Option<Json>)
  {
    it.isArrayItem && ItemValue(itemSchema, it, parseFloat, parse).Some? && ItemValue(itemSchema, it, parseFloat, parse).value != JNull
  }

  /** When every item yields a value, the array holds all of them, in item order. */
  lemma {:induction false} AllItemsKept(itemSchema: Option<Schema>, items: seq<Item>, parseFloat: string -> Option<real>, parse: string -> Option<Json>)
    requires forall i :: 0 <= i < |items| ==> Yields(itemSchema, items[i], parseFloat, parse)
    ensures |ArrayItems(itemSchema, items, parseFloat, parse)| == |items|
    ensures forall i :: 0 <= i < |items| ==>
              Some(ArrayItems(itemSchema, items, parseFloat, parse)[i]) == ItemValue(itemSchema, items[i], parseFloat, parse)
    decreases |items|
  {
    if |items| > 0 {
      AllItemsKept(itemSchema, items[..|items| - 1], parseFloat, parse);
    }
  }

  // ---------------------------------------------------------------------------------------------
  // The whole form

  /**
   * `querySelector('.form-field[data-field-key="key"]')`: the first wrapper with the key in
   * document order, where a wrapper comes before everything inside it and a fieldset's
   * sub-fields before its array items.
   */
  function FindInFields(fs: seq<Field>, key: string): (r: Option<Field>)
    ensures r.Some? ==> r.value.key == key
    decreases fs, 1
  {
    if |fs| == 0 then None
    else
      match FindInField(fs[0], key)
      case Some(f) => Some(f)
      case None => FindInFields(fs[1..], key)
  }

  function FindInField(f: Field, key: string): (r: Option<Field>)
    ensures r.Some? ==> r.value.key == key
    decreases f, 0
  {
    if f.key == key then Some(f)
    else
      match f.control
      case None => None
      case Some(c) => FindInControl(c, key)
  }

  function FindInControl(c: Control, key: string): (r: Option<Field>)
    ensures r.Some? ==> r.value.key == key
    decreases c, 0
  {
    match FindInFields(c.fields, key)
    case Some(f) => Some(f)
    case None =>
      match c.itemsList
      case NoItemsList => None
      case ItemsList(its) => FindInItems(its, key)
  }

  function FindInItems(its: seq<Item>, key: string): (r: Option<Field>)
    ensures r.Some? ==> r.value.key == key
    decreases its, 0
  {
    if |its| == 0 then None
    else
      match FindInFields(its[0].fields, key)
      case Some(f) => Some(f)
      case None => FindInItems(its[1..], key)
  }

  /** `config[key] = extractFieldValue(...)` when the wrapper was found and holds a control. */
  function Assign(config: map<string, Option<Json>>, e: SubSchema, wrapper: Option<Field>, parseFloat: string -> Option<real>, parse: string -> Option<Json>): (r: map<string, Option<Json>>)
  {
    match wrapper
    case None => config
    case Some(f) =>
      match f.control
      case None => config
      case Some(c) => config[e.key := FieldValue(e.schema, c, parseFloat, parse)]
  }

  /** `extractValues` as written: each key's wrapper is looked up anywhere in the container. */
  function ValuesAsWritten(entries: seq<SubSchema>, container: seq<Field>, parseFloat: string -> Option<real>, parse: string -> Option<Json>): (r: map<string, Option<Json>>)
  {
    if |entries| == 0 then map[]
    else
      var e := entries[|entries| - 1];
      Assign(ValuesAsWritten(entries[..|entries| - 1], container, parseFloat, parse), e, FindInFields(container, e.key), parseFloat, parse)
  }

  /** Only keys of the definition are added. */
  lemma {:induction false} ValuesAsWrittenKeys(entries: seq<SubSchema>, container: seq<Field>, parseFloat: string -> Option<real>, parse: string -> Option<Json>)
    ensures forall key :: key in ValuesAsWritten(entries, container, parseFloat, parse) ==> key in EntryKeys(entries)
    decreases |entries|
  {
    if |entries| > 0 {
      var n := |entries|;
      ValuesAsWrittenKeys(entries[..n - 1], container, parseFloat, parse);
      assert EntryKeys(entries) == EntryKeys(entries[..n - 1]) + [entries[n - 1].key];
    }
  }

  /** The last property, found with a control, holds that control's value. */
  lemma LastKeyAsWritten(entries: seq<SubSchema>, container: seq<Field>, c: Control, parseFloat: string -> Option<real>, parse: string -> Option<Json>)
    requires |entries| > 0
    requires FindInFields(container, entries[|entries| - 1].key) == Some(Field(entries[|entries| - 1].key, Some(c)))
    ensures ValuesAsWritten(entries, container, parseFloat, parse)[entries[|entries| - 1].key] == FieldValue(entries[|entries| - 1].schema, c, parseFloat, parse)
  {
  }

  /** The wrapper with the key among the container's own children, as `extractObjectValue` looks one up. */
  function DirectChild(container: seq<Field>, key: string): (r: Option<Field>)
  {
    var k := FieldIndex(container, key);
    if k < 0 then None else Some(container[k])
  }

  /** `extractValues` reading each key from its own top-level wrapper. */
  function Values(entries: seq<SubSchema>, container: seq<Field>, parseFloat: string -> Option<real>, parse: string -> Option<Json>): (r: map<string, Option<Json>>)
  {
    if |entries| == 0 then map[]
    else
      var e := entries[|entries| - 1];
      Assign(Values(entries[..|entries| - 1], container, parseFloat, parse), e, DirectChild(container, e.key), parseFloat, parse)
  }

  /** A top-level wrapper holding a control. */
  predicate Rendered(container: seq<Field>, key: string)
  {
    DirectChild(container, key).Some? && DirectChild(container, key).value.control.Some?
  }

  /** The last property, with a top-level wrapper holding a control, holds that control's value. */
  lemma LastKeyValue(entries: seq<SubSchema>, container: seq<Field>, c: Control, parseFloat: string -> Option<real>, parse: string -> Option<Json>)
    requires |entries| > 0
    requires DirectChild(container, entries[|entries| - 1].key) == Some(Field(entries[|entries| - 1].key, Some(c)))
    ensures Values(entries, container, parseFloat, parse)[entries[|entries| - 1].key] == FieldValue(entries[|entries| - 1].schema, c, parseFloat, parse)
  {
  }

  /** The key of property `i` is read from its own top-level wrapper, when it holds a control. */
  lemma {:induction false} ValuesAt(entries: seq<SubSchema>, container: seq<Field>, i: int, parseFloat: string -> Option<real>, parse: string -> Option<Json>)
    requires forall i, j :: 0 <= i < j < |entries| ==> entries[i].key != entries[j].key
    requires 0 <= i < |entries|
    ensures entries[i].key in Values(entries, container, parseFloat, parse) <==> Rendered(container, entries[i].key)
    ensures Rendered(container, entries[i].key) ==>
              Values(entries, container, parseFloat, parse)[entries[i].key] ==
                FieldValue(entries[i].schema, DirectChild(container, entries[i].key).value.control.value, parseFloat, parse)
    decreases |entries|
  {
    var n := |entries|;
    if i < n - 1 {
      var init := entries[..n - 1];
      assert init[i] == entries[i] && entries[i].key != entries[n - 1].key;
      ValuesAt(init, container, i, parseFloat, parse);
    } else {
      var init := entries[..n - 1];
      ValuesKeys(init, container, parseFloat, parse);
      assert forall k :: 0 <= k < n - 1 ==> EntryKeys(init)[k] == entries[k].key != entries[n - 1].key;
    }
  }

  /** Only keys of the definition are read. */
  lemma {:induction false} ValuesKeys(entries: seq<SubSchema>, container: seq<Field>, parseFloat: string -> Option<real>, parse: string -> Option<Json>)
    ensures forall key :: key in Values(entries, container, parseFloat, parse) ==> key in EntryKeys(entries)
    decreases |entries|
  {
    if |entries| > 0 {
      var n := |entries|;
      ValuesKeys(entries[..n - 1], container, parseFloat, parse);
      assert EntryKeys(entries) == EntryKeys(entries[..n - 1]) + [entries[n - 1].key];
    }
  }

  /**
   * With distinct keys, the config has exactly the keys whose top-level wrapper holds a control,
   * each mapped to the value read from that control with the key's own definition (unpruned:
   * `undefined` and null stay), and no key outside the definition.
   */
  lemma ValuesLookup(entries: seq<SubSchema>, container: seq<Field>, parseFloat: string -> Option<real>, parse: string -> Option<Json>)
    requires forall i, j :: 0 <= i < j < |entries| ==> entries[i].key != entries[j].key
    ensures forall i :: 0 <= i < |entries| ==>
              (entries[i].key in Values(entries, container, parseFloat, parse) <==> Rendered(container, entries[i].key))
    ensures forall i :: 0 <= i < |entries| && Rendered(container, entries[i].key) ==>
              Values(entries, container, parseFloat, parse)[entries[i].key] ==
                FieldValue(entries[i].schema, DirectChild(container, entries[i].key).value.control.value, parseFloat, parse)
    ensures forall key :: key in Values(entries, container, parseFloat, parse) ==> key in EntryKeys(entries)
  {
    forall i | 0 <= i < |entries|
      ensures entries[i].key in Values(entries, container, parseFloat, parse) <==> Rendered(container, entries[i].key)
      ensures Rendered(container, entries[i].key) ==>
                Values(entries, container, parseFloat, parse)[entries[i].key] ==
                  FieldValue(entries[i].schema, DirectChild(container, entries[i].key).value.control.value, parseFloat, parse)
    {
      ValuesAt(entries, container, i, parseFloat, parse);
    }
    ValuesKeys(entries, container, parseFloat, parse);
  }

  const IntegerSchema: Schema := Schema(None, Some("integer"), None, NoProperties, None)

  /** An object field `a` with an integer sub-field `size`, then an integer field `size`. */
  const ShadowingEntries: seq<SubSchema> :=
    [SubSchema("a", Schema(None, Some("object"), None, Properties([SubSchema("size", IntegerSchema)]), None)),
     SubSchema("size", IntegerSchema)]

  /** The form for it, holding 5 in `a.size` and 7 in `size`. */
  const ShadowingForm: seq<Field> :=
    [Field("a", Some(Control("", false, false, [Field("size", Some(TextControl("5")))], NoItemsList))),
     Field("size", Some(TextControl("7")))]

  lemma IntegerFieldReads(text: string, n: int, parseFloat: string -> Option<real>, parse: string -> Option<Json>)
    requires JsParseInt(text) == Some(n) && n != 0
    ensures FieldValue(IntegerSchema, TextControl(text), parseFloat, parse) == Some(JNum(n as real))
  {
  }

  lemma ParseFive()
    ensures JsParseInt("5") == Some(5)
  {
    ParseIntOfDecimal(5);
    assert Decimal(5) == "5";
  }

  lemma ParseSeven()
    ensures JsParseInt("7") == Some(7)
  {
    ParseIntOfDecimal(7);
    assert Decimal(7) == "7";
  }

  lemma SizeFoundInsideA()
    ensures FindInFields(ShadowingForm, "size") == Some(Field("size", Some(TextControl("5"))))
  {
    var inner := [Field("size", Some(TextControl("5")))];
    assert FindInFields(inner, "size") == Some(inner[0]);
    assert "a" != "size";
    assert FindInField(ShadowingForm[0], "size") == Some(inner[0]);
  }

  lemma SizeIsSecondChild()
    ensures DirectChild(ShadowingForm, "size") == Some(Field("size", Some(TextControl("7"))))
  {
    assert "a" != "size";
    assert FieldIndex(ShadowingForm[1..], "size") == 0;
  }

  /**
   * Looked up anywhere in the container, the key `size` finds the sub-field of `a` first: the
   * top-level `size` is read as 5, not as the 7 its own field holds.
   */
  lemma NestedKeyShadowsField(parseFloat: string -> Option<real>, parse: string -> Option<Json>)
    ensures ValuesAsWritten(ShadowingEntries, ShadowingForm, parseFloat, parse)["size"] == Some(JNum(5.0))
    ensures Values(ShadowingEntries, ShadowingForm, parseFloat, parse)["size"] == Some(JNum(7.0))
  {
    AsWrittenReadsFive(parseFloat, parse);
    CorrectedReadsSeven(parseFloat, parse);
  }

  lemma AsWrittenReadsFive(parseFloat: string -> Option<real>, parse: string -> Option<Json>)
    ensures ValuesAsWritten(ShadowingEntries, ShadowingForm, parseFloat, parse)["size"] == Some(JNum(5.0))
  {
    ParseFive();
    IntegerFieldReads("5", 5, parseFloat, parse);
    SizeFoundInsideA();
    LastKeyAsWritten(ShadowingEntries, ShadowingForm, TextControl("5"), parseFloat, parse);
  }

  lemma CorrectedReadsSeven(parseFloat: string -> Option<real>, parse: string -> Option<Json>)
    ensures Values(ShadowingEntries, ShadowingForm, parseFloat, parse)["size"] == Some(JNum(7.0))
  {
    ParseSeven();
    IntegerFieldReads("7", 7, parseFloat, parse);
    SizeIsSecondChild();
    LastKeyValue(ShadowingEntries, ShadowingForm, TextControl("7"), parseFloat, parse);
  }

  // ---------------------------------------------------------------------------------------------
  // The extractors

  /** The search of `extractObjectValue` over the fieldset's children for the wrapper with the key. */
  method FindChildField(fields: seq<Field>, key: string) returns (i: int)
    ensures i == FieldIndex(fields, key)
  {
    i := 0;
    while i < |fields| && fields[i].key != key
      invariant 0 <= i <= |fields|
      invariant forall k :: 0 <= k < i ==> fields[k].key != key
    {
      i := i + 1;
    }
    if i == |fields| {
      i := -1;
    }
  }

  /** `extractFieldValue`. */
  method ExtractFieldValue(s: Schema, c: Control, parseFloat: string -> Option<real>, parse: string -> Option<Json>) returns (v: Option<Json>)
    ensures v == FieldValue(s, c, parseFloat, parse)
    decreases c, 0, 0
  {
    if s.enumOptions.Some? {
      v := Some(JStr(c.value));
    } else if s.typ == Some("boolean") {
      v := Some(JBool(c.checked));
    } else if s.typ == Some("integer") {
      v := Some(JNum(IntegerOf(c.value) as real));
    } else if s.typ == Some("number") {
      v := Some(JNum(NumberOf(c.value, parseFloat)));
    } else if s.typ == Some("string") {
      v := Some(JStr(c.value));
    } else if s.typ == Some("object") {
      v := ExtractObjectValue(s.properties, c.fields, parseFloat, parse);
    } else if s.typ == Some("array") {
      var a := ExtractArrayValue(s.items, c.itemsList, parseFloat, parse);
      v := Some(a);
    } else {
      match parse(c.value)
      case Some(j) => v := Some(j);
      case None => v := Some(JNull);
    }
  }

  /**
   * `extractObjectValue`: for each property in order, the wrapper among the fieldset's children,
   * its control and its value; kept values are added and `hasKeys` records that one was.
   */
  method ExtractObjectValue(p: Properties, fields: seq<Field>, parseFloat: string -> Option<real>, parse: string -> Option<Json>) returns (v: Option<Json>)
    ensures v == ObjectValue(p, fields, parseFloat, parse)
    decreases fields, 1, 0
  {
    var entries := EntriesOf(p);
    var obj: seq<Member> := [];
    var hasKeys := false;
    for i := 0 to |entries|
      invariant obj == ObjectMembers(entries[..i], fields, parseFloat, parse)
      invariant hasKeys <==> |obj| > 0
    {
      assert entries[..i + 1][..i] == entries[..i];
      var added;
      obj, added := ExtractProperty(obj, entries[i], fields, parseFloat, parse);
      hasKeys := hasKeys || added;
    }
    assert entries[..|entries|] == entries;
    if !hasKeys {
      return None;
    }
    v := Some(JObj(obj));
  }

  /**
   * One pass of the loop of `extractObjectValue`: the property's wrapper among the children, its
   * control and value, added when kept.
   */
  method ExtractProperty(obj: seq<Member>, e: SubSchema, fields: seq<Field>, parseFloat: string -> Option<real>, parse: string -> Option<Json>)
    returns (next: seq<Member>, added: bool)
    ensures next == match SubValue(e, fields, parseFloat, parse) case None => obj case Some(v) => Put(obj, e.key, v)
    ensures added <==> SubValue(e, fields, parseFloat, parse).Some?
    ensures added ==> |next| > 0
    decreases fields, 0, 1
  {
    next, added := obj, false;
    var k := FindChildField(fields, e.key);
    if k >= 0 {
      match fields[k].control
      case None =>
      case Some(input) =>
        var val := ExtractFieldValue(e.schema, input, parseFloat, parse);
        if val.Some? && val.value != JNull {
          if !(val.value.JObj? && |val.value.members| == 0) {
            next := Put(obj, e.key, val.value);
            assert Has(JObj(next), e.key);
            added := true;
          }
        }
    }
  }

  /**
   * `extractArrayValue`: with no `.array-items` list an empty array; otherwise, for each child
   * with the class `array-item` in order, its value is computed and pushed unless null or
   * `undefined`.
   */
  method ExtractArrayValue(itemSchema: Option<Schema>, list: ItemsList, parseFloat: string -> Option<real>, parse: string -> Option<Json>) returns (a: Json)
    ensures a == ArrayValue(itemSchema, list, parseFloat, parse)
    decreases list, 0, 0
  {
    if list.NoItemsList? {
      return JArr([]);
    }
    var children := list.items;
    var items: seq<Json> := [];
    for i := 0 to |children|
      invariant items == ArrayItems(itemSchema, children[..i], parseFloat, parse)
    {
      assert children[..i + 1][..i] == children[..i];
      var it := children[i];
      if it.isArrayItem {
        var val: Option<Json> := None;
        if itemSchema.Some? && itemSchema.value.properties.Properties? {
          val := ExtractObjectValue(itemSchema.value.properties, it.fields, parseFloat, parse);
        } else if it.input.Some? {
          var input := it.input.value;
          if input.isTextarea {
            val := parse(input.value);
          } else if itemSchema.Some? {
            var t := itemSchema.value.typ;
            if t == Some("integer") {
              val := Some(JNum(IntegerOf(input.value) as real));
            } else if t == Some("number") {
              val := Some(JNum(NumberOf(input.value, parseFloat)));
            } else if t == Some("boolean") {
              val := Some(JBool(input.checked));
            } else {
              val := Some(JStr(input.value));
            }
          }
        }
        assert val == ItemValue(itemSchema, it, parseFloat, parse);
        if val.Some? && val.value != JNull {
          items := items + [val.value];
        }
      }
    }
    assert children[..|children|] == children;
    a := JArr(items);
  }

  /**
   * `extractValues`: for each key of the schema's properties, the wrapper found anywhere in the
   * container, its control, and the field's value, added unpruned.
   */
  method ExtractValues(schema: Schema, container: seq<Field>, parseFloat: string -> Option<real>, parse: string -> Option<Json>) returns (config: map<string, Option<Json>>)
    ensures config == ValuesAsWritten(EntriesOf(schema.properties), container, parseFloat, parse)
  {
    var entries := EntriesOf(schema.properties);
    config := map[];
    for i := 0 to |entries|
      invariant config == ValuesAsWritten(entries[..i], container, parseFloat, parse)
    {
      assert entries[..i + 1][..i] == entries[..i];
      var key := entries[i].key;
      var fieldWrapper := FindInFields(container, key);
      if fieldWrapper.Some? {
        var input := fieldWrapper.value.control;
        if input.Some? {
          var val := ExtractFieldValue(entries[i].schema, input.value, parseFloat, parse);
          config := config[key := val];
        }
      }
    }
    assert entries[..|entries|] == entries;
  }

  // ---------------------------------------------------------------------------------------------
  // Building the form

  /** The widget `createField` builds for a definition. */
  datatype Widget = Select | Checkbox | NumberInput | TextInput | Fieldset | ArrayList | JsonTextarea

  /**
   * The dispatch of `createField`: enum, boolean, integer or number, string, object, array, and
   * otherwise a raw JSON textarea; the extractor takes the same branches.
   */
  function WidgetOf(s: Schema): (w: Widget)
    ensures w == Select <==> s.enumOptions.Some?
    ensures w == NumberInput <==> s.enumOptions.None? && s.typ in {Some("integer"), Some("number")}
    ensures w == JsonTextarea <==> IsRawJson(s)
  {
    if s.enumOptions.Some? then Select
    else if s.typ == Some("boolean") then Checkbox
    else if s.typ == Some("integer") || s.typ == Some("number") then NumberInput
    else if s.typ == Some("string") then TextInput
    else if s.typ == Some("object") then Fieldset
    else if s.typ == Some("array") then ArrayList
    else JsonTextarea
  }

  /** JavaScript `a || b` on values that may be `undefined`. */
  function Or(a: Option<Json>, b: Option<Json>): (r: Option<Json>)
  {
    if a.Some? && Truthy(a.value) then a else b
  }

  /**
   * The value of the select `createSelect` builds: the option equal to the selected value, or,
   * with none selected, the first option ("" without options).
   */
  function SelectedValue(options: seq<string>, selected: Option<Json>): (r: string)
    ensures selected.Some? && selected.value.JStr? && selected.value.s in options ==> r == selected.value.s
    ensures |options| == 0 ==> r == ""
  {
    if selected.Some? && selected.value.JStr? && selected.value.s in options then selected.value.s
    else if |options| > 0 then options[0]
    else ""
  }

  /** `value ? value[key] : undefined`. */
  function MemberOf(value: Option<Json>, key: string): Option<Json>
  {
    if value.Some? && Truthy(value.value) then Get(value.value, key) else None
  }

  /** `value || definition.default || []`, an array to iterate; other values are read as no items. */
  function ItemsOf(value: Option<Json>, defaultValue: Option<Json>): seq<Json>
  {
    match Or(value, defaultValue)
    case Some(JArr(xs)) => xs
    case _ => []
  }

  /**
   * The control `createField` builds for a definition and a stored value (`undefined` as
   * `None`), with `String()` and `JSON.stringify` as parameters.
   */
  function BuildControl(s: Schema, value: Option<Json>, jsString: Json -> string, stringify: Json -> string): (c: Control)
    decreases s, 1
  {
    match WidgetOf(s)
    case Select =>
      TextControl(SelectedValue(s.enumOptions.value, Or(value, s.defaultValue)))
    case Checkbox =>
      var x := if value.Some? then value else s.defaultValue;
      Control("on", x.Some? && Truthy(x.value), false, [], NoItemsList)
    case NumberInput =>
      var x := if value.Some? then value.value else Or(s.defaultValue, Some(JNum(0.0))).value;
      TextControl(jsString(x))
    case TextInput =>
      var x := Or(value, s.defaultValue);
      TextControl(if x.Some? && Truthy(x.value) then jsString(x.value) else "")
    case Fieldset =>
      (match s.properties
       case NoProperties => Control("", false, false, [], NoItemsList)
       case Properties(es) => Control("", false, false, BuildFields(es, value, jsString, stringify), NoItemsList))
    case ArrayList =>
      Control("", false, false, [], ItemsList(BuildItems(s.items, ItemsOf(value, s.defaultValue), jsString, stringify)))
    case JsonTextarea =>
      Control(if value.Some? then stringify(value.value) else "", false, true, [], NoItemsList)
  }

  /** One wrapper per property, in order, each holding the control built for the property's member of `value`. */
  function BuildFields(entries: seq<SubSchema>, value: Option<Json>, jsString: Json -> string, stringify: Json -> string): (fs: seq<Field>)
    ensures |fs| == |entries|
    ensures forall i :: 0 <= i < |entries| ==>
              fs[i] == Field(entries[i].key, Some(BuildControl(entries[i].schema, MemberOf(value, entries[i].key), jsString, stringify)))
    decreases entries, 0
  {
    seq(|entries|, i requires 0 <= i < |entries| =>
      Field(entries[i].key, Some(BuildControl(entries[i].schema, MemberOf(value, entries[i].key), jsString, stringify))))
  }

  /** `createArrayItem` for each stored item: sub-fields for an object item schema, a JSON textarea otherwise. */
  function BuildItems(itemSchema: Option<Schema>, xs: seq<Json>, jsString: Json -> string, stringify: Json -> string): (its: seq<Item>)
    ensures |its| == |xs|
    decreases itemSchema, 0
  {
    match itemSchema
    case Some(Schema(_, _, _, Properties(es), _)) =>
      seq(|xs|, i requires 0 <= i < |xs| => Item(true, BuildFields(es, Some(xs[i]), jsString, stringify), None))
    case _ =>
      seq(|xs|, i requires 0 <= i < |xs| => Item(true, [], Some(Control(stringify(xs[i]), false, true, [], NoItemsList))))
  }

  /** `buildForm`: the container's wrappers for a schema and a stored configuration. */
  function BuildForm(schema: Schema, config: Option<Json>, jsString: Json -> string, stringify: Json -> string): (fs: seq<Field>)
  {
    BuildFields(EntriesOf(schema.properties), config, jsString, stringify)
  }

  // ---------------------------------------------------------------------------------------------
  // Round trips: a built field read back

  /** A stored boolean is read back. */
  lemma CheckboxRoundTrip(s: Schema, b: bool, jsString: Json -> string, stringify: Json -> string, parseFloat: string -> Option<real>, parse: string -> Option<Json>)
    requires WidgetOf(s) == Checkbox
    ensures FieldValue(s, BuildControl(s, Some(JBool(b)), jsString, stringify), parseFloat, parse) == Some(JBool(b))
  {
  }

  /** A stored non-empty option of an enum is read back. */
  lemma SelectRoundTrip(s: Schema, o: string, jsString: Json -> string, stringify: Json -> string, parseFloat: string -> Option<real>, parse: string -> Option<Json>)
    requires s.enumOptions.Some? && o in s.enumOptions.value && o != ""
    ensures FieldValue(s, BuildControl(s, Some(JStr(o)), jsString, stringify), parseFloat, parse) == Some(JStr(o))
  {
  }

  /** A stored non-empty string is read back. */
  lemma TextRoundTrip(s: Schema, t: string, jsString: Json -> string, stringify: Json -> string, parseFloat: string -> Option<real>, parse: string -> Option<Json>)
    requires WidgetOf(s) == TextInput && t != "" && jsString(JStr(t)) == t
    ensures FieldValue(s, BuildControl(s, Some(JStr(t)), jsString, stringify), parseFloat, parse) == Some(JStr(t))
  {
  }

  /** A stored empty string is shown, and read back, as a non-empty string default. */
  lemma EmptyTextTakesDefault(s: Schema, d: string, jsString: Json -> string, stringify: Json -> string, parseFloat: string -> Option<real>, parse: string -> Option<Json>)
    requires WidgetOf(s) == TextInput && s.defaultValue == Some(JStr(d)) && d != "" && jsString(JStr(d)) == d
    ensures FieldValue(s, BuildControl(s, Some(JStr("")), jsString, stringify), parseFloat, parse) == Some(JStr(d))
  {
  }

  /** A stored non-negative integer, shown as its numeral, is read back. */
  lemma IntegerRoundTrip(s: Schema, n: nat, jsString: Json -> string, stringify: Json -> string, parseFloat: string -> Option<real>, parse: string -> Option<Json>)
    requires s.enumOptions.None? && s.typ == Some("integer") && jsString(JNum(n as real)) == Decimal(n)
    ensures FieldValue(s, BuildControl(s, Some(JNum(n as real)), jsString, stringify), parseFloat, parse) == Some(JNum(n as real))
  {
    ParseIntOfDecimal(n);
  }

  /** A stored value of a field without a known type is read back when parsing undoes `JSON.stringify`. */
  lemma RawJsonRoundTrip(s: Schema, j: Json, jsString: Json -> string, stringify: Json -> string, parseFloat: string -> Option<real>, parse: string -> Option<Json>)
    requires IsRawJson(s) && parse(stringify(j)) == Some(j)
    ensures FieldValue(s, BuildControl(s, Some(j), jsString, stringify), parseFloat, parse) == Some(j)
  {
  }

  /** With distinct keys, each property's own wrapper is the direct child found for its key. */
  lemma BuiltFieldsFound(entries: seq<SubSchema>, value: Option<Json>, jsString: Json -> string, stringify: Json -> string)
    requires forall i, j :: 0 <= i < j < |entries| ==> entries[i].key != entries[j].key
    ensures forall i :: 0 <= i < |entries| ==>
              DirectChild(BuildFields(entries, value, jsString, stringify), entries[i].key) == Some(BuildFields(entries, value, jsString, stringify)[i])
  {
    var fs := BuildFields(entries, value, jsString, stringify);
    forall i | 0 <= i < |entries|
      ensures FieldIndex(fs, entries[i].key) == i
    {
      var k := FieldIndex(fs, entries[i].key);
      assert fs[i].key == entries[i].key;
      assert k >= 0 && k <= i;
      assert fs[k].key == entries[k].key;
    }
  }

  /**
   * Reading a built form back by top-level wrappers: every property of a schema with distinct
   * keys is present, holding what its built control reads as.
   */
  lemma FormRoundTrip(schema: Schema, config: Option<Json>, jsString: Json -> string, stringify: Json -> string, parseFloat: string -> Option<real>, parse: string -> Option<Json>)
    requires forall i, j :: 0 <= i < j < |EntriesOf(schema.properties)| ==> EntriesOf(schema.properties)[i].key != EntriesOf(schema.properties)[j].key
    ensures forall e :: e in EntriesOf(schema.properties) ==>
              var config' := Values(EntriesOf(schema.properties), BuildForm(schema, config, jsString, stringify), parseFloat, parse);
              e.key in config' &&
              config'[e.key] == FieldValue(e.schema, BuildControl(e.schema, MemberOf(config, e.key), jsString, stringify), parseFloat, parse)
  {
    var entries := EntriesOf(schema.properties);
    var form := BuildForm(schema, config, jsString, stringify);
    BuiltFieldsFound(entries, config, jsString, stringify);
    ValuesLookup(entries, form, parseFloat, parse);
    forall e | e in entries
      ensures Rendered(form, e.key)
    {
      var i :| 0 <= i < |entries| && entries[i] == e;
      assert DirectChild(form, e.key) == Some(form[i]);
    }
  }
}
