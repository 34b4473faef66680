/**
 * The web editor's "Generate" button (web/main.js, `generateTree`): it chooses the feature JSON
 * to post, drops the air blocks of the server's answer, keeps one block per position and
 * reports how many it shows. The request and the rendering are outside the model; the
 * server's answer is a parameter.
 */
module WebMain {
  import opened Wrappers
  import opened Text
  import opened Json

  const Air: string := "minecraft:air"

  /** A block of the generation answer: its position and its block state. */
  datatype Block = Block(x: int, y: int, z: int, name: string, properties: seq<(string, string)>)

  /** The de-duplication key: the text `x,y,z` of integer coordinates is one per position. */
  type Position = (int, int, int)

  function Pos(b: Block): Position
  {
    (b.x, b.y, b.z)
  }

  /**
   * The body to post: the loaded feature JSON when it is set, otherwise the form's values
   * wrapped as a `minecraft:tree` feature, and nothing when there is no form either.
   * An unset `window.currentTreeJson` is JNull.
   */
  function FeatureJson(currentTreeJson: Json, formConfig: Option<Json>): (r: Option<Json>)
    ensures r.None? <==> !Truthy(currentTreeJson) && formConfig.None?
    ensures Truthy(currentTreeJson) ==> r == Some(currentTreeJson)
    ensures !Truthy(currentTreeJson) && formConfig.Some? ==>
              r.Some? && Get(r.value, "type") == Some(JStr("minecraft:tree")) && Get(r.value, "config") == formConfig
  {
    if Truthy(currentTreeJson) then Some(currentTreeJson)
    else if formConfig.Some? then
      var doc := JObj([Member("type", JStr("minecraft:tree")), Member("config", formConfig.value)]);
      assert KeyIndex(doc.members, "type") == 0;
      assert KeyIndex(doc.members[1..], "config") == 0;
      Some(doc)
    else None
  }

  /** `blocks.filter(b => b.blockState.Name !== "minecraft:air")`. */
  function WithoutAir(blocks: seq<Block>): (r: seq<Block>)
    ensures |r| <= |blocks|
    ensures forall b :: b in r <==> b in blocks && b.name != Air
  {
    if |blocks| == 0 then []
    else
      var init := blocks[..|blocks| - 1];
      var b := blocks[|blocks| - 1];
      assert blocks == init + [b];
      if b.name != Air then WithoutAir(init) + [b] else WithoutAir(init)
  }

  /** The index of the first block at `p`, or -1. */
  function FirstAt(blocks: seq<Block>, p: Position): (r: int)
    ensures -1 <= r < |blocks|
    ensures r >= 0 ==> Pos(blocks[r]) == p
    ensures forall k :: 0 <= k < |blocks| && (r < 0 || k < r) ==> Pos(blocks[k]) != p
  {
    if |blocks| == 0 then -1
    else
      var f := FirstAt(blocks[..|blocks| - 1], p);
      if f >= 0 then f else if Pos(blocks[|blocks| - 1]) == p then |blocks| - 1 else -1
  }

  /** The index of the last block at `p`, or -1. */
  function LastAt(blocks: seq<Block>, p: Position): (r: int)
    ensures -1 <= r < |blocks|
    ensures r >= 0 ==> Pos(blocks[r]) == p
    ensures forall k :: r < k < |blocks| ==> Pos(blocks[k]) != p
  {
    if |blocks| == 0 then -1
    else if Pos(blocks[|blocks| - 1]) == p then |blocks| - 1
    else LastAt(blocks[..|blocks| - 1], p)
  }

  /** The keys of the `Map`: each position once, in the order it first appears. */
  function Positions(blocks: seq<Block>): (r: seq<Position>)
    ensures forall i, j :: 0 <= i < j < |r| ==> r[i] != r[j]
    ensures forall p :: p in r <==> FirstAt(blocks, p) >= 0
    ensures forall i, j :: 0 <= i < j < |r| ==> FirstAt(blocks, r[i]) < FirstAt(blocks, r[j])
  {
    if |blocks| == 0 then []
    else
      var init := blocks[..|blocks| - 1];
      var p := Pos(blocks[|blocks| - 1]);
      var rest := Positions(init);
      if p in rest then rest
      else
        assert FirstAt(blocks, p) == |blocks| - 1;
        rest + [p]
  }

  /** The values of the `Map`: the last block set at each position. */
  function Latest(blocks: seq<Block>): (r: map<Position, Block>)
    ensures forall p :: p in r <==> LastAt(blocks, p) >= 0
    ensures forall p :: p in r ==> r[p] == blocks[LastAt(blocks, p)]
  {
    if |blocks| == 0 then map[]
    else Latest(blocks[..|blocks| - 1])[Pos(blocks[|blocks| - 1]) := blocks[|blocks| - 1]]
  }

  /** A block at a position exists exactly when there is a first and a last one. */
  lemma FirstLastAgree(blocks: seq<Block>, p: Position)
    ensures FirstAt(blocks, p) >= 0 <==> LastAt(blocks, p) >= 0
  {
    if FirstAt(blocks, p) >= 0 {
      assert Pos(blocks[FirstAt(blocks, p)]) == p;
    }
    if LastAt(blocks, p) >= 0 {
      assert Pos(blocks[LastAt(blocks, p)]) == p;
    }
  }

  /**
   * `Array.from(blockMap.values())`: one block per position, in first-appearance order, and
   * that block is the last one the answer holds for the position.
   */
  function Deduplicated(blocks: seq<Block>): (r: seq<Block>)
    ensures |r| == |Positions(blocks)| <= |blocks|
    ensures forall i :: 0 <= i < |r| ==>
              LastAt(blocks, Positions(blocks)[i]) >= 0 && r[i] == blocks[LastAt(blocks, Positions(blocks)[i])]
  {
    var ps := Positions(blocks);
    var latest := Latest(blocks);
    LatestOfPositions(blocks);
    PositionsBound(blocks);
    seq(|ps|, i requires 0 <= i < |ps| => latest[ps[i]])
  }

  /**
   * The de-duplicated blocks sit at distinct positions, which are the positions of the answer in
   * first-appearance order; each is the last block at its position, and none is new.
   */
  lemma DeduplicatedShape(blocks: seq<Block>)
    ensures var r := Deduplicated(blocks);
            (forall i :: 0 <= i < |r| ==> Pos(r[i]) == Positions(blocks)[i])
            && (forall i, j :: 0 <= i < j < |r| ==> Pos(r[i]) != Pos(r[j]))
            && (forall i :: 0 <= i < |r| ==> r[i] == blocks[LastAt(blocks, Pos(r[i]))])
            && (forall b :: b in r ==> b in blocks)
    ensures forall k :: 0 <= k < |blocks| ==> Pos(blocks[k]) in Positions(blocks)
  {
    LatestOfPositions(blocks);
    var r := Deduplicated(blocks);
    var ps := Positions(blocks);
    assert forall i :: 0 <= i < |r| ==> Pos(r[i]) == ps[i];
  }

  /** Every position has a latest block, the last one placed there; every block's position is listed. */
  lemma LatestOfPositions(blocks: seq<Block>)
    ensures var ps := Positions(blocks); var latest := Latest(blocks);
            forall i :: 0 <= i < |ps| ==>
              ps[i] in latest && latest[ps[i]] == blocks[LastAt(blocks, ps[i])] && Pos(latest[ps[i]]) == ps[i]
    ensures forall k :: 0 <= k < |blocks| ==> Pos(blocks[k]) in Positions(blocks)
  {
    var ps := Positions(blocks);
    var latest := Latest(blocks);
    forall i | 0 <= i < |ps|
      ensures ps[i] in latest && latest[ps[i]] == blocks[LastAt(blocks, ps[i])] && Pos(latest[ps[i]]) == ps[i]
    {
      FirstLastAgree(blocks, ps[i]);
    }
    forall k | 0 <= k < |blocks|
      ensures Pos(blocks[k]) in ps
    {
      assert FirstAt(blocks, Pos(blocks[k])) >= 0;
    }
  }

  /** There are no more positions than blocks. */
  lemma {:induction false} PositionsBound(blocks: seq<Block>)
    ensures |Positions(blocks)| <= |blocks|
  {
    if |blocks| > 0 {
      PositionsBound(blocks[..|blocks| - 1]);
    }
  }

  /** The `forEach` that fills the `Map`, and the read-out of its values. */
  method DeduplicateBlocks(blocks: seq<Block>) returns (out: seq<Block>)
    ensures out == Deduplicated(blocks)
  {
    var order: seq<Position> := [];
    var blockMap: map<Position, Block> := map[];
    for i := 0 to |blocks|
      invariant order == Positions(blocks[..i])
      invariant blockMap == Latest(blocks[..i])
    {
      assert blocks[..i + 1][..i] == blocks[..i];
      var b := blocks[i];
      var key := Pos(b);
      FirstLastAgree(blocks[..i], key);
      if key !in blockMap {
        order := order + [key];
      }
      blockMap := blockMap[key := b];
    }
    assert blocks[..|blocks|] == blocks;
    forall p | p in order
      ensures p in blockMap
    {
      FirstLastAgree(blocks, p);
    }
    out := seq(|order|, i requires 0 <= i < |order| => blockMap[order[i]]);
  }

  /** What the editor shows of an answer: air dropped first, then one block per position. */
  function Shown(answer: seq<Block>): seq<Block>
  {
    Deduplicated(WithoutAir(answer))
  }

  /** Dropping air from a longer answer: the filter of the prefix, then the new block unless it is air. */
  lemma WithoutAirSnoc(bs: seq<Block>, b: Block)
    ensures WithoutAir(bs + [b]) == if b.name != Air then WithoutAir(bs) + [b] else WithoutAir(bs)
  {
    assert (bs + [b])[..|bs + [b]| - 1] == bs;
  }

  /** Air blocks appended to an answer are dropped, whatever their positions. */
  lemma {:induction false} TrailingAirDropped(bs: seq<Block>, airs: seq<Block>)
    requires forall k :: 0 <= k < |airs| ==> airs[k].name == Air
    ensures WithoutAir(bs + airs) == WithoutAir(bs)
  {
    if |airs| > 0 {
      var init := airs[..|airs| - 1];
      TrailingAirDropped(bs, init);
      assert bs + airs == (bs + init) + [airs[|airs| - 1]];
      WithoutAirSnoc(bs + init, airs[|airs| - 1]);
    } else {
      assert bs + airs == bs;
    }
  }

  /**
   * Air is dropped before de-duplication: air blocks set after an answer, even at the positions of
   * its blocks, do not hide them, and the editor shows what it shows without them.
   */
  lemma AirDoesNotHide(bs: seq<Block>, airs: seq<Block>)
    requires forall k :: 0 <= k < |airs| ==> airs[k].name == Air
    ensures Shown(bs + airs) == Shown(bs)
  {
    TrailingAirDropped(bs, airs);
  }

  /** Blocks that are not air all stay, in order. */
  lemma {:induction false} NonAirKept(bs: seq<Block>)
    requires forall k :: 0 <= k < |bs| ==> bs[k].name != Air
    ensures WithoutAir(bs) == bs
  {
    if |bs| > 0 {
      var init := bs[..|bs| - 1];
      NonAirKept(init);
      assert init + [bs[|bs| - 1]] == bs;
      WithoutAirSnoc(init, bs[|bs| - 1]);
    }
  }

  /** Blocks all at one position give that position once. */
  lemma {:induction false} OnePosition(bs: seq<Block>, p: Position)
    requires |bs| > 0 && forall k :: 0 <= k < |bs| ==> Pos(bs[k]) == p
    ensures Positions(bs) == [p]
  {
    var init := bs[..|bs| - 1];
    if |init| > 0 {
      OnePosition(init, p);
    } else {
      assert Positions(init) == [];
    }
  }

  /** Blocks all at one position are shown as the last of them. */
  lemma SinglePosition(bs: seq<Block>, p: Position)
    requires Positions(bs) == [p]
    ensures LastAt(bs, p) >= 0 && Deduplicated(bs) == [bs[LastAt(bs, p)]]
  {
    var ps := Positions(bs);
    assert ps[0] == p;
    var r := Deduplicated(bs);
    assert |r| == 1;
    assert r[0] == bs[LastAt(bs, ps[0])];
    assert r == [r[0]];
  }

  /** Of blocks that are not air and all at one position, the last is shown, and only it. */
  lemma LastBlockWins(bs: seq<Block>, p: Position)
    requires |bs| > 0
    requires forall k :: 0 <= k < |bs| ==> bs[k].name != Air && Pos(bs[k]) == p
    ensures Shown(bs) == [bs[|bs| - 1]]
  {
    NonAirKept(bs);
    OnePosition(bs, p);
    SinglePosition(bs, p);
    assert LastAt(bs, p) == |bs| - 1;
  }

  /**
   * How the post ends: the blocks, an answer that is not ok with its text, or a thrown error (the
   * request rejected, the answer not JSON, or a block without a `blockState`) with its message.
   */
  datatype Answer = Blocks(blocks: seq<Block>) | NotOk(text: string) | Thrown(message: string)

  /** What `generateTree` ends with: no request, the rendered blocks with a count, or an error line. */
  datatype Generation =
    | NoTreeData
    | Rendered(blocks: seq<Block>, status: string)
    | Failed(status: string)

  /**
   * `generateTree`: no body means no request and "Error: No tree data"; an answer that is
   * not ok is reported with its text and a thrown error with its message; otherwise the shown
   * blocks are rendered and the status counts them after filtering and de-duplication.
   */
  method GenerateTree(currentTreeJson: Json, formConfig: Option<Json>, server: Json -> Answer) returns (g: Generation)
    ensures FeatureJson(currentTreeJson, formConfig).None? <==> g == NoTreeData
    ensures FeatureJson(currentTreeJson, formConfig).Some? ==>
              var answer := server(FeatureJson(currentTreeJson, formConfig).value);
              (answer.NotOk? ==> g == Failed("Error: API Error: " + answer.text)) &&
              (answer.Thrown? ==> g == Failed("Error: " + answer.message)) &&
              (answer.Blocks? ==> g == Rendered(Shown(answer.blocks), "Generated " + Decimal(|Shown(answer.blocks)|) + " blocks."))
  {
    var featureJson := FeatureJson(currentTreeJson, formConfig);
    if featureJson.None? {
      return NoTreeData;
    }
    var answer := server(featureJson.value);
    if answer.NotOk? {
      return Failed("Error: API Error: " + answer.text);
    }
    if answer.Thrown? {
      return Failed("Error: " + answer.message);
    }
    var blocks := WithoutAir(answer.blocks);
    blocks := DeduplicateBlocks(blocks);
    g := Rendered(blocks, "Generated " + Decimal(|blocks|) + " blocks.");
  }
}
