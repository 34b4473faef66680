/**
 * The record of one placed block sent to the web editor (BlockInfo.java): its coordinates and its
 * block state, serialised as `{x, y, z, blockState: {Name, Properties?}}`.
 */
module BlockInfo {
  import opened Wrappers
  import opened Json

  /**
   * A block state: the block's registry id and its properties, each as its name and the
   * `toString()` of its value, in the order the state lists them.
   */
  datatype BlockState = BlockState(blockId: string, properties: seq<(string, string)>)

  /** A block state lists each property once. */
  predicate DistinctNames(props: seq<(string, string)>)
  {
    forall i, j :: 0 <= i < j < |props| ==> props[i].0 != props[j].0
  }

  /** The `properties` object after adding every property in order (Gson `addProperty`). */
  function PropertiesObject(props: seq<(string, string)>): seq<Member>
  {
    if |props| == 0 then []
    else
      var last := props[|props| - 1];
      Put(PropertiesObject(props[..|props| - 1]), last.0, JStr(last.1))
  }

  /** The `blockState` object: `Name`, then `Properties` only when at least one property was added. */
  function StateJson(s: BlockState): Json
  {
    var props := PropertiesObject(s.properties);
    JObj([Member("Name", JStr(s.blockId))] + (if |props| > 0 then [Member("Properties", JObj(props))] else []))
  }

  /** What `toJson` builds. */
  function BlockJson(x: int, y: int, z: int, s: BlockState): Json
  {
    JObj([Member("x", JNum(x as real)), Member("y", JNum(y as real)), Member("z", JNum(z as real)),
          Member("blockState", StateJson(s))])
  }

  class BlockInfo {
    var x: int
    var y: int
    var z: int
    var blockState: BlockState

    constructor (x: int, y: int, z: int, blockState: BlockState)
      ensures this.x == x && this.y == y && this.z == z && this.blockState == blockState
    {
      this.x := x;
      this.y := y;
      this.z := z;
      this.blockState := blockState;
    }

    /** Serialises the block, collecting the properties one at a time. */
    method ToJson() returns (j: Json)
      ensures j == BlockJson(x, y, z, blockState)
    {
      var props: seq<Member> := [];
      var i := 0;
      while i < |blockState.properties|
        invariant 0 <= i <= |blockState.properties|
        invariant props == PropertiesObject(blockState.properties[..i])
      {
        var p := blockState.properties[i];
        assert blockState.properties[..i + 1][..i] == blockState.properties[..i];
        props := Put(props, p.0, JStr(p.1));
        i := i + 1;
      }
      assert blockState.properties[..i] == blockState.properties;
      var state := [Member("Name", JStr(blockState.blockId))];
      if |props| > 0 {
        state := state + [Member("Properties", JObj(props))];
      }
      assert JObj(state) == StateJson(blockState);
      j := JObj([Member("x", JNum(x as real)), Member("y", JNum(y as real)), Member("z", JNum(z as real)),
                 Member("blockState", JObj(state))]);
    }
  }

  /** With distinct names, every property becomes exactly one member, in the state's order. */
  lemma {:induction false} PropertiesOnePerProperty(props: seq<(string, string)>)
    requires DistinctNames(props)
    ensures |PropertiesObject(props)| == |props|
    ensures forall k :: 0 <= k < |props| ==>
      PropertiesObject(props)[k] == Member(props[k].0, JStr(props[k].1))
    decreases |props|
  {
    if |props| > 0 {
      var init := props[..|props| - 1];
      var last := props[|props| - 1];
      PropertiesOnePerProperty(init);
    }
  }

  /** The object is never empty once one property was added. */
  lemma PropertiesNonEmpty(props: seq<(string, string)>)
    ensures |PropertiesObject(props)| > 0 <==> |props| > 0
  {
    if |props| > 0 {
      var init := PropertiesObject(props[..|props| - 1]);
      var last := props[|props| - 1];
      assert Get(JObj(Put(init, last.0, JStr(last.1))), last.0).Some?;
    }
  }

  /** `Properties` is present exactly when the state has at least one property; `Name` always is. */
  lemma StateJsonShape(s: BlockState)
    ensures Get(StateJson(s), "Name") == Some(JStr(s.blockId))
    ensures Has(StateJson(s), "Properties") <==> |s.properties| > 0
  {
    PropertiesNonEmpty(s.properties);
    var m := StateJson(s).members;
    if |s.properties| > 0 {
      assert m[1..][0].key == "Properties";
      assert KeyIndex(m[1..], "Properties") == 0;
    } else {
      assert m[1..] == [];
    }
  }
}
