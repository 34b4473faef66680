/**
 * The web editor's API service (web/js/services/api.js): the stored access token and the
 * request headers built from it, the scan that collects trunk and foliage block names from a
 * feature JSON, and `generateTree`'s guard, answer handling and air filter. Local storage and
 * the network are parameters.
 */
module WebApi {
  import opened Wrappers
  import opened Json
  import Strings = Text
  import AuthFilter
  import WebMain

  const ContentType: (string, string) := ("Content-Type", "application/json")

  /** `getAuthToken`: the stored token, or '' when nothing is stored. */
  function AuthToken(stored: Option<string>): (r: string)
    ensures stored.None? ==> r == ""
    ensures stored.Some? ==> r == stored.value
  {
    if stored.Some? && stored.value != "" then stored.value else ""
  }

  /** The value of the first header with this name. */
  function Header(headers: seq<(string, string)>, name: string): (r: Option<string>)
    ensures r.Some? <==> exists i :: 0 <= i < |headers| && headers[i].0 == name
  {
    if |headers| == 0 then None
    else if headers[0].0 == name then Some(headers[0].1)
    else Header(headers[1..], name)
  }

  /**
   * `getAuthHeaders`: always the JSON content type; an `Authorization: Bearer <token>` header
   * only when the stored token is non-empty.
   */
  method GetAuthHeaders(stored: Option<string>) returns (headers: seq<(string, string)>)
    ensures |headers| >= 1 && headers[0] == ContentType
    ensures Header(headers, "Content-Type") == Some("application/json")
    ensures Header(headers, "Authorization").Some? <==> AuthToken(stored) != ""
    ensures AuthToken(stored) != "" ==> Header(headers, "Authorization") == Some(AuthFilter.BearerPrefix + AuthToken(stored))
  {
    headers := [ContentType];
    var token := AuthToken(stored);
    if token != "" {
      headers := headers + [("Authorization", "Bearer " + token)];
      assert headers[1..][0].0 == "Authorization";
    }
  }

  /**
   * The server's filter reads back the token the editor sends, and with no token there is no
   * header for it to read.
   */
  lemma HeadersReachFilter(stored: Option<string>, headers: seq<(string, string)>)
    requires |headers| >= 1 && headers[0] == ContentType
    requires Header(headers, "Authorization").Some? <==> AuthToken(stored) != ""
    requires AuthToken(stored) != "" ==> Header(headers, "Authorization") == Some(AuthFilter.BearerPrefix + AuthToken(stored))
    requires Strings.JavaTrim(AuthToken(stored)) == AuthToken(stored)
    ensures AuthToken(stored) != "" ==> AuthFilter.ExtractToken(Header(headers, "Authorization")) == Some(AuthToken(stored))
    ensures AuthToken(stored) == "" ==> AuthFilter.ExtractToken(Header(headers, "Authorization")).None?
  {
    if AuthToken(stored) != "" {
      AuthFilter.BearerHeaderRoundTrip(AuthToken(stored));
    }
  }

  // ---------------------------------------------------------------------------------------------
  // Block names of a feature

  /** The values `for (const key in obj)` visits: an array's items, an object's member values. */
  function Children(j: Json): (r: seq<Json>)
    ensures forall i :: 0 <= i < |r| ==> r[i] < j
    ensures j.JArr? ==> r == j.items
    ensures j.JObj? ==> |r| == |j.members| && forall i :: 0 <= i < |r| ==> r[i] == j.members[i].value
    ensures !j.JArr? && !j.JObj? ==> r == []
  {
    match j
    case JArr(items) => items
    case JObj(ms) => seq(|ms|, i requires 0 <= i < |ms| => ms[i].value)
    case _ => []
  }

  /** `trunk_provider.state.Name` of this object, when every step of it is truthy. */
  function OwnTrunk(obj: Json): (r: set<Json>)
    ensures |r| <= 1
  {
    var name := Prop(Prop(Prop(obj, "trunk_provider"), "state"), "Name");
    if Truthy(Prop(obj, "trunk_provider")) && Truthy(Prop(Prop(obj, "trunk_provider"), "state")) && Truthy(name)
    then {name} else {}
  }

  /** The `entries` of this object's foliage provider, when it is an array. */
  function Entries(obj: Json): seq<Json>
  {
    var fp := Prop(obj, "foliage_provider");
    if Truthy(fp) && Prop(fp, "entries").JArr? then Prop(fp, "entries").items else []
  }

  /** `entry.data.Name`, when `entry.data` and it are truthy. */
  function EntryName(entry: Json): set<Json>
  {
    if Truthy(Prop(entry, "data")) && Truthy(Prop(Prop(entry, "data"), "Name")) then {Prop(Prop(entry, "data"), "Name")} else {}
  }

  /** `foliage_provider.state.Name` and every `entries[i].data.Name` of this object. */
  function OwnFoliage(obj: Json): set<Json>
  {
    var fp := Prop(obj, "foliage_provider");
    var es := Entries(obj);
    (if Truthy(fp) && Truthy(Prop(fp, "state")) && Truthy(Prop(Prop(fp, "state"), "Name"))
     then {Prop(Prop(fp, "state"), "Name")} else {})
    + EntryNames(es)
  }

  /** The block names of some weighted entries. */
  function EntryNames(es: seq<Json>): set<Json>
  {
    set e, n | e in es && n in EntryName(e) :: n
  }

  /** One more entry adds its block name. */
  lemma EntryNamesStep(a: seq<Json>, e: Json)
    ensures EntryNames(a + [e]) == EntryNames(a) + EntryName(e)
  {
    var b := a + [e];
    forall n | n in EntryNames(b)
      ensures n in EntryNames(a) + EntryName(e)
    {
      var d :| d in b && n in EntryName(d);
      if d != e {
        assert d in a;
      }
    }
    forall n | n in EntryNames(a) + EntryName(e)
      ensures n in EntryNames(b)
    {
      if n in EntryName(e) {
        assert e in b;
      } else {
        var d :| d in a && n in EntryName(d);
        assert d in b;
      }
    }
  }

  /** A null entry makes `entry.data` throw a TypeError. */
  predicate OwnThrows(obj: Json)
  {
    JNull in Entries(obj)
  }

  /** Whether objects and arrays are scanned at all (`!obj || typeof obj !== 'object'` returns). */
  predicate Scanned(j: Json)
  {
    j.JObj? || j.JArr?
  }

  /** Every trunk name at any depth. */
  function Trunks(j: Json): (r: set<Json>)
    decreases j
  {
    if !Scanned(j) then {}
    else OwnTrunk(j) + (set c, n | c in Children(j) && n in Trunks(c) :: n)
  }

  /** Every foliage name at any depth. */
  function Foliage(j: Json): (r: set<Json>)
    decreases j
  {
    if !Scanned(j) then {}
    else OwnFoliage(j) + (set c, n | c in Children(j) && n in Foliage(c) :: n)
  }

  /** Whether the scan meets a foliage provider with a null entry anywhere. */
  predicate Throws(j: Json)
    decreases j
  {
    Scanned(j) && (OwnThrows(j) || exists c :: c in Children(j) && Throws(c))
  }

  /** A name found in a nested value is found in the enclosing one. */
  lemma NestedNamesFound(j: Json, c: Json)
    requires Scanned(j) && c in Children(j)
    ensures Trunks(c) <= Trunks(j) && Foliage(c) <= Foliage(j)
    ensures Throws(c) ==> Throws(j)
  {
  }

  /** A trunk provider's state name at the top of the feature is found. */
  lemma TrunkNameFound(j: Json, name: Json)
    requires j.JObj? && Truthy(Prop(j, "trunk_provider")) && Truthy(Prop(Prop(j, "trunk_provider"), "state"))
    requires name == Prop(Prop(Prop(j, "trunk_provider"), "state"), "Name") && Truthy(name)
    ensures name in Trunks(j)
  {
  }

  /** Every weighted entry's block name is found among the foliage. */
  lemma EntryNamesFound(j: Json, i: nat)
    requires j.JObj? && i < |Entries(j)|
    requires Truthy(Prop(Entries(j)[i], "data")) && Truthy(Prop(Prop(Entries(j)[i], "data"), "Name"))
    ensures Prop(Prop(Entries(j)[i], "data"), "Name") in Foliage(j)
  {
    var e := Entries(j)[i];
    assert Prop(Prop(e, "data"), "Name") in EntryName(e);
  }

  /** The two sets `extractBlockTypesFromFeature` fills. */
  class BlockTypes {
    var trunks: set<Json>
    var foliage: set<Json>

    constructor ()
      ensures trunks == {} && foliage == {}
    {
      trunks := {};
      foliage := {};
    }

    /** The foliage provider part of `scan`: its state's name, then each entry's, or a throw at a null entry. */
    method AddFoliage(obj: Json) returns (thrown: bool)
      modifies this
      ensures thrown == OwnThrows(obj)
      ensures !thrown ==> foliage == old(foliage) + OwnFoliage(obj)
      ensures trunks == old(trunks)
    {
      var fp := Prop(obj, "foliage_provider");
      if !Truthy(fp) {
        assert Entries(obj) == [];
        return false;
      }
      var own: set<Json> := {};
      if Truthy(Prop(fp, "state")) && Truthy(Prop(Prop(fp, "state"), "Name")) {
        own := {Prop(Prop(fp, "state"), "Name")};
      }
      foliage := foliage + own;
      var entries := Entries(obj);
      assert EntryNames(entries[..0]) == {};
      for i := 0 to |entries|
        invariant JNull !in entries[..i]
        invariant foliage == old(foliage) + own + EntryNames(entries[..i])
        invariant trunks == old(trunks)
      {
        PrefixStep(entries, i);
        EntryNamesStep(entries[..i], entries[i]);
        if entries[i] == JNull {
          assert entries[i] in entries;
          return true;
        }
        foliage := foliage + EntryName(entries[i]);
      }
      assert entries[..|entries|] == entries;
      thrown := false;
    }

    /**
     * `scan`: adds this value's names and then every nested value's, or throws at a null
     * entry (after which the sets are not looked at again).
     */
    method Scan(obj: Json) returns (thrown: bool)
      modifies this
      ensures thrown == Throws(obj)
      ensures !thrown ==> trunks == old(trunks) + Trunks(obj) && foliage == old(foliage) + Foliage(obj)
      decreases obj, 1
    {
      if !Scanned(obj) {
        return false;
      }
      ghost var t0, f0 := trunks, foliage;
      trunks := trunks + OwnTrunk(obj);
      thrown := AddFoliage(obj);
      if thrown {
        ScanUnfold(obj);
        return true;
      }
      thrown := ScanNested(obj);
      ScanUnfold(obj);
      if !thrown {
        UnionAssoc(t0, OwnTrunk(obj), NestedTrunks(Children(obj)));
        UnionAssoc(f0, OwnFoliage(obj), NestedFoliage(Children(obj)));
      }
    }

    /** The `for (const key in obj)` loop of `scan`: each nested value in turn, stopping at a throw. */
    method ScanNested(obj: Json) returns (thrown: bool)
      modifies this
      ensures thrown == NestedThrows(Children(obj))
      ensures !thrown ==> trunks == old(trunks) + NestedTrunks(Children(obj)) && foliage == old(foliage) + NestedFoliage(Children(obj))
      decreases obj, 0
    {
      var children := Children(obj);
      assert NestedTrunks(children[..0]) == {} && NestedFoliage(children[..0]) == {};
      for i := 0 to |children|
        invariant !NestedThrows(children[..i])
        invariant trunks == old(trunks) + NestedTrunks(children[..i])
        invariant foliage == old(foliage) + NestedFoliage(children[..i])
      {
        var prefix, child := children[..i], children[i];
        NestedTrunksStep(prefix, child);
        NestedFoliageStep(prefix, child);
        NestedThrowsStep(prefix, child);
        PrefixStep(children, i);
        thrown := Scan(child);
        if thrown {
          assert child in children;
          return true;
        }
      }
      assert children[..|children|] == children;
      thrown := false;
    }
  }

  /** Regrouping a union of three sets. */
  lemma UnionAssoc(a: set<Json>, b: set<Json>, c: set<Json>)
    ensures a + b + c == a + (b + c)
  {
  }

  /** The trunk names of some nested values. */
  function NestedTrunks(cs: seq<Json>): set<Json>
  {
    set c, n | c in cs && n in Trunks(c) :: n
  }

  /** The foliage names of some nested values. */
  function NestedFoliage(cs: seq<Json>): set<Json>
  {
    set c, n | c in cs && n in Foliage(c) :: n
  }

  /** The names and the throw of a scanned value, in terms of its own part and its nested values. */
  lemma ScanUnfold(obj: Json)
    requires Scanned(obj)
    ensures Trunks(obj) == OwnTrunk(obj) + NestedTrunks(Children(obj))
    ensures Foliage(obj) == OwnFoliage(obj) + NestedFoliage(Children(obj))
    ensures Throws(obj) <==> OwnThrows(obj) || NestedThrows(Children(obj))
  {
  }

  /** Whether the scan of some nested value throws. */
  predicate NestedThrows(cs: seq<Json>)
  {
    exists c :: c in cs && Throws(c)
  }

  lemma NestedThrowsStep(a: seq<Json>, c: Json)
    ensures NestedThrows(a + [c]) <==> NestedThrows(a) || Throws(c)
  {
    if NestedThrows(a + [c]) {
      var d :| d in a + [c] && Throws(d);
      if d != c { assert d in a; }
    }
    if Throws(c) { assert c in a + [c]; }
    if NestedThrows(a) {
      var d :| d in a && Throws(d);
      assert d in a + [c];
    }
  }

  lemma PrefixStep(cs: seq<Json>, i: nat)
    requires i < |cs|
    ensures cs[..i + 1] == cs[..i] + [cs[i]]
  {
  }

  /** One more nested value adds its trunk names. */
  lemma NestedTrunksStep(a: seq<Json>, c: Json)
    ensures NestedTrunks(a + [c]) == NestedTrunks(a) + Trunks(c)
  {
    var b := a + [c];
    forall n | n in NestedTrunks(b)
      ensures n in NestedTrunks(a) + Trunks(c)
    {
      var d :| d in b && n in Trunks(d);
      if d != c {
        assert d in a;
      }
    }
    forall n | n in NestedTrunks(a) + Trunks(c)
      ensures n in NestedTrunks(b)
    {
      if n in Trunks(c) {
        assert c in b;
      } else {
        var d :| d in a && n in Trunks(d);
        assert d in b;
      }
    }
  }

  /** One more nested value adds its foliage names. */
  lemma NestedFoliageStep(a: seq<Json>, c: Json)
    ensures NestedFoliage(a + [c]) == NestedFoliage(a) + Foliage(c)
  {
    var b := a + [c];
    forall n | n in NestedFoliage(b)
      ensures n in NestedFoliage(a) + Foliage(c)
    {
      var d :| d in b && n in Foliage(d);
      if d != c {
        assert d in a;
      }
    }
    forall n | n in NestedFoliage(a) + Foliage(c)
      ensures n in NestedFoliage(b)
    {
      if n in Foliage(c) {
        assert c in b;
      } else {
        var d :| d in a && n in Foliage(d);
        assert d in b;
      }
    }
  }

  /** `extractBlockTypesFromFeature`: the trunk and foliage names of the whole feature, or a throw. */
  method ExtractBlockTypes(json: Json) returns (r: Option<(set<Json>, set<Json>)>)
    ensures r.None? <==> Throws(json)
    ensures r.Some? ==> r.value == (Trunks(json), Foliage(json))
  {
    var blocks := new BlockTypes();
    var thrown := blocks.Scan(json);
    if thrown {
      return None;
    }
    assert blocks.trunks == Trunks(json) && blocks.foliage == Foliage(json);
    return Some((blocks.trunks, blocks.foliage));
  }

  // ---------------------------------------------------------------------------------------------
  // Generating a tree

  const AuthRequired: string := "Authentication required. Please enter your auth token in settings."

  /**
   * What the fetch of `/api/generate` answers: its status, what `JSON.parse` makes of its body
   * (None when the body is not JSON), the body text, and the block list the parsed body stands
   * for (None when it is no list of blocks, so that filtering it throws).
   */
  datatype Reply = Reply(status: int, parsed: Option<Json>, text: string, blocks: Option<seq<WebMain.Block>>)

  /** What `generateTree` can end with a throw of. */
  datatype JsError =
    | Thrown(message: Json, details: Json)  // an `Error` the code throws; JNull when it has no details
    | BodyAlreadyRead                       // the TypeError of reading a response body a second time
    | NotJson                               // the SyntaxError of a body that is not JSON
    | NotBlockList                          // the TypeError of filtering something that is no block list

  datatype Generation = NoTreeData | Rendered(blocks: seq<WebMain.Block>, status: string) | Failed(error: JsError)

  /** A fetch response: its body can be read once, as JSON or as text. */
  class Response {
    const reply: Reply
    var bodyUsed: bool

    constructor (reply: Reply)
      ensures this.reply == reply && !bodyUsed
    {
      this.reply := reply;
      bodyUsed := false;
    }

    /** `response.ok`: a 2xx status. */
    predicate IsOk()
    {
      200 <= reply.status <= 299
    }

    /** `response.json()`: the parsed body the first time, a rejection afterwards. */
    method ReadJson() returns (r: Result<Json, JsError>)
      modifies this
      ensures bodyUsed
      ensures old(bodyUsed) ==> r == Err(BodyAlreadyRead)
      ensures !old(bodyUsed) ==> r == if reply.parsed.Some? then Ok(reply.parsed.value) else Err(NotJson)
    {
      if bodyUsed {
        return Err(BodyAlreadyRead);
      }
      bodyUsed := true;
      r := if reply.parsed.Some? then Ok(reply.parsed.value) else Err(NotJson);
    }

    /** `response.text()`: the body text the first time, a rejection afterwards. */
    method ReadText() returns (r: Result<string, JsError>)
      modifies this
      ensures bodyUsed
      ensures old(bodyUsed) ==> r == Err(BodyAlreadyRead)
      ensures !old(bodyUsed) ==> r == Ok(reply.text)
    {
      if bodyUsed {
        return Err(BodyAlreadyRead);
      }
      bodyUsed := true;
      r := Ok(reply.text);
    }
  }

  /** The answer of a successful reply: its blocks with air removed, and nothing de-duplicated. */
  function Success(reply: Reply): (g: Generation)
    ensures reply.parsed.Some? && reply.blocks.Some? ==>
              g.Rendered? && forall b :: b in g.blocks <==> b in reply.blocks.value && b.name != WebMain.Air
  {
    if reply.parsed.None? then Failed(NotJson)
    else if reply.blocks.None? then Failed(NotBlockList)
    else
      var blocks := WebMain.WithoutAir(reply.blocks.value);
      Rendered(blocks, "Generated " + Strings.Decimal(|blocks|) + " blocks.")
  }

  /** An error body with a truthy `error` and truthy `details`. */
  predicate DetailedError(reply: Reply)
  {
    reply.parsed.Some? && Truthy(Prop(reply.parsed.value, "error")) && Truthy(Prop(reply.parsed.value, "details"))
  }

  /**
   * How a reply that is neither ok nor 401 ends, as the code is written: the first read of the
   * body uses it up, so only an error with details survives; every other case reads the body
   * again, in the fallback or after the `if`, and ends with that read's TypeError.
   */
  function FailureAsWritten(reply: Reply): (e: JsError)
    ensures e != BodyAlreadyRead <==> DetailedError(reply)
    ensures e != BodyAlreadyRead ==> e == Thrown(Prop(reply.parsed.value, "error"), Prop(reply.parsed.value, "details"))
  {
    if DetailedError(reply) then Thrown(Prop(reply.parsed.value, "error"), Prop(reply.parsed.value, "details"))
    else BodyAlreadyRead
  }

  /** How such a reply ends when the body is read once: its `error`, else "API Error: " and its text. */
  function Failure(reply: Reply): (e: JsError)
    ensures e != BodyAlreadyRead
    ensures DetailedError(reply) ==> e == FailureAsWritten(reply)
    ensures reply.parsed.None? ==> e == Thrown(JStr("API Error: " + reply.text), JNull)
  {
    var error := if reply.parsed.Some? then Prop(reply.parsed.value, "error") else JNull;
    if Truthy(error) then Thrown(error, Prop(reply.parsed.value, "details"))
    else Thrown(JStr("API Error: " + reply.text), JNull)
  }

  /**
   * `generateTree` as written: no loaded tree means no request; a rejected fetch (`server` gives
   * its message) ends in the catch with that message; 401 throws the authentication message; a
   * reply that is not ok goes through the error handling; an ok one is rendered without its air
   * blocks.
   */
  method GenerateTreeAsWritten(currentTreeJson: Json, server: Json -> Result<Reply, string>) returns (g: Generation)
    ensures !Truthy(currentTreeJson) <==> g == NoTreeData
    ensures Truthy(currentTreeJson) && server(currentTreeJson).Err? ==>
              g == Failed(Thrown(JStr(server(currentTreeJson).error), JNull))
    ensures Truthy(currentTreeJson) && server(currentTreeJson).Ok? ==>
              var reply := server(currentTreeJson).value;
              g == if reply.status == 401 then Failed(Thrown(JStr(AuthRequired), JNull))
                   else if !(200 <= reply.status <= 299) then Failed(FailureAsWritten(reply))
                   else Success(reply)
  {
    if !Truthy(currentTreeJson) {
      return NoTreeData;
    }
    var answer := server(currentTreeJson);
    if answer.Err? {
      // The fetch itself is rejected: the catch shows the rejection's message.
      return Failed(Thrown(JStr(answer.error), JNull));
    }
    var response := new Response(answer.value);
    if response.reply.status == 401 {
      return Failed(Thrown(JStr(AuthRequired), JNull));
    }
    if !response.IsOk() {
      var errorJson := response.ReadJson();
      if errorJson.Ok? && Truthy(Prop(errorJson.value, "error")) && Truthy(Prop(errorJson.value, "details")) {
        return Failed(Thrown(Prop(errorJson.value, "error"), Prop(errorJson.value, "details")));
      }
      if errorJson.Err? || Truthy(Prop(errorJson.value, "error")) {
        // The catch block: not an error with details, so the body is read again as text.
        var text := response.ReadText();
        g := match text
             case Ok(t) => Failed(Thrown(JStr("API Error: " + t), JNull))
             case Err(e) => Failed(e);
        return;
      }
    }
    var blocks := response.ReadJson();
    if blocks.Err? {
      return Failed(blocks.error);
    }
    if response.reply.blocks.None? {
      return Failed(NotBlockList);
    }
    var shown := WebMain.WithoutAir(response.reply.blocks.value);
    g := Rendered(shown, "Generated " + Strings.Decimal(|shown|) + " blocks.");
  }

  /**
   * `generateTree` with the error body read once as text and then parsed: the server's `error`
   * reaches the status line.
   */
  method GenerateTree(currentTreeJson: Json, server: Json -> Result<Reply, string>) returns (g: Generation)
    ensures !Truthy(currentTreeJson) <==> g == NoTreeData
    ensures Truthy(currentTreeJson) && server(currentTreeJson).Err? ==>
              g == Failed(Thrown(JStr(server(currentTreeJson).error), JNull))
    ensures Truthy(currentTreeJson) && server(currentTreeJson).Ok? ==>
              var reply := server(currentTreeJson).value;
              g == if reply.status == 401 then Failed(Thrown(JStr(AuthRequired), JNull))
                   else if !(200 <= reply.status <= 299) then Failed(Failure(reply))
                   else Success(reply)
  {
    if !Truthy(currentTreeJson) {
      return NoTreeData;
    }
    var answer := server(currentTreeJson);
    if answer.Err? {
      // The fetch itself is rejected: the catch shows the rejection's message.
      return Failed(Thrown(JStr(answer.error), JNull));
    }
    var response := new Response(answer.value);
    if response.reply.status == 401 {
      return Failed(Thrown(JStr(AuthRequired), JNull));
    }
    if !response.IsOk() {
      var text := response.ReadText();
      var errorJson := response.reply.parsed;
      var error := if errorJson.Some? then Prop(errorJson.value, "error") else JNull;
      if Truthy(error) {
        return Failed(Thrown(error, Prop(errorJson.value, "details")));
      }
      return Failed(Thrown(JStr("API Error: " + text.value), JNull));
    }
    var blocks := response.ReadJson();
    if blocks.Err? {
      return Failed(blocks.error);
    }
    if response.reply.blocks.None? {
      return Failed(NotBlockList);
    }
    var shown := WebMain.WithoutAir(response.reply.blocks.value);
    g := Rendered(shown, "Generated " + Strings.Decimal(|shown|) + " blocks.");
  }

  /**
   * The body the generate handler answers with when generation throws: the exception's message
   * pasted between quotes, without escaping.
   */
  function GenerateErrorText(message: string): string
  {
    "{\"error\": \"" + message + "\"}"
  }

  /**
   * That answer as the page receives it: status 500, the text above, and what `JSON.parse` makes
   * of it (an object with the one `error` string, or None when the message breaks the JSON).
   */
  function GenerateErrorReply(message: string, parsed: Option<Json>): Reply
  {
    Reply(500, parsed, GenerateErrorText(message), None)
  }

  /**
   * As written, no error the server sends for a failed generation reaches the status line: it
   * carries no details, so the fallback reads the used body again. Read once, a non-empty message
   * is shown as it is, and a body that is not JSON (or an empty message) as "API Error: " and the text.
   */
  lemma ErrorMessageLostAsWritten(message: string, parsed: Option<Json>)
    requires parsed.None? || parsed == Some(JObj([Member("error", JStr(message))]))
    ensures FailureAsWritten(GenerateErrorReply(message, parsed)) == BodyAlreadyRead
    ensures parsed.Some? && message != "" ==>
              Failure(GenerateErrorReply(message, parsed)) == Thrown(JStr(message), JNull)
    ensures parsed.None? || message == "" ==>
              Failure(GenerateErrorReply(message, parsed)) == Thrown(JStr("API Error: " + GenerateErrorText(message)), JNull)
  {
    if parsed.Some? {
      var doc := parsed.value;
      assert KeyIndex(doc.members, "error") == 0;
      assert KeyIndex(doc.members, "details") == -1;
    }
  }

  /**
   * Unlike the editor's main view, the service keeps every non-air block, duplicates included:
   * blocks all set at one position are all rendered there, where the editor shows only the last.
   */
  lemma ServiceKeepsDuplicates(bs: seq<WebMain.Block>, p: WebMain.Position)
    requires |bs| > 0
    requires forall k :: 0 <= k < |bs| ==> bs[k].name != WebMain.Air && WebMain.Pos(bs[k]) == p
    ensures WebMain.WithoutAir(bs) == bs
    ensures WebMain.Shown(bs) == [bs[|bs| - 1]]
  {
    WebMain.NonAirKept(bs);
    WebMain.LastBlockWins(bs, p);
  }
}
