/**
 * The list of texture packs the web editor can choose from (TexturePacksHandler.java): the
 * folders and `.zip` files of the textures directory. The directory listing is a parameter.
 */
module TexturePacksHandler {
  import opened Wrappers
  import opened Text

  /** A path of the listing: its file name and whether it is a directory. */
  datatype ListedPath = ListedPath(fileName: string, isDirectory: bool)

  /** The answer: 200 with the pack names as a JSON array, or a bare status. */
  datatype PacksResponse = PackList(packs: seq<string>) | StatusOnly(status: int)

  /** The pack a path stands for: a directory by its name, a `.zip` file by its name without the suffix. */
  function PackName(p: ListedPath): (r: Option<string>)
    ensures p.isDirectory ==> r == Some(p.fileName)
    ensures !p.isDirectory && EndsWith(p.fileName, ".zip") ==> r.Some? && r.value + ".zip" == p.fileName
    ensures !p.isDirectory && !EndsWith(p.fileName, ".zip") ==> r.None?
  {
    if p.isDirectory then Some(p.fileName)
    else if EndsWith(p.fileName, ".zip") then
      assert p.fileName[..|p.fileName| - 4] + p.fileName[|p.fileName| - 4..] == p.fileName;
      Some(p.fileName[..|p.fileName| - 4])
    else None
  }

  /** The pack names of a listing, in listing order. */
  function PackNames(listing: seq<ListedPath>): (r: seq<string>)
    ensures |r| <= |listing|
    ensures forall s :: s in r <==> exists p :: p in listing && PackName(p) == Some(s)
  {
    if |listing| == 0 then []
    else
      var init := listing[..|listing| - 1];
      var p := listing[|listing| - 1];
      assert listing == init + [p];
      var rest := PackNames(init);
      if PackName(p).Some? then rest + [PackName(p).value] else rest
  }

  /**
   * `handle`: anything but GET is 405; a missing textures directory lists nothing; a listing
   * that fails (`None`) is 500; otherwise each path adds its pack name, in order.
   */
  method ListPacks(verb: string, texturesDirExists: bool, listing: Option<seq<ListedPath>>) returns (r: PacksResponse)
    ensures verb != "GET" ==> r == StatusOnly(405)
    ensures verb == "GET" && !texturesDirExists ==> r == PackList([])
    ensures verb == "GET" && texturesDirExists && listing.None? ==> r == StatusOnly(500)
    ensures verb == "GET" && texturesDirExists && listing.Some? ==> r == PackList(PackNames(listing.value))
  {
    if verb != "GET" {
      return StatusOnly(405);
    }
    var packs: seq<string> := [];
    if texturesDirExists {
      if listing.None? {
        return StatusOnly(500);
      }
      var paths := listing.value;
      for i := 0 to |paths|
        invariant packs == PackNames(paths[..i])
      {
        assert paths[..i + 1][..i] == paths[..i];
        var fileName := paths[i].fileName;
        if paths[i].isDirectory {
          packs := packs + [fileName];
        } else if EndsWith(fileName, ".zip") {
          packs := packs + [fileName[..|fileName| - 4]];
        }
      }
      assert paths[..|paths|] == paths;
    }
    r := PackList(packs);
  }

  /** A directory counts by its name even when that name ends in ".zip". */
  lemma DirectoryWins(name: string)
    requires EndsWith(name, ".zip")
    ensures PackName(ListedPath(name, true)) == Some(name)
    ensures |name| >= 4 && PackName(ListedPath(name, false)) == Some(name[..|name| - 4])
  {
  }

  /** A listed zip names the pack whose `<pack>.zip` the texture handler opens. */
  lemma ZipPackRoundTrip(pack: string)
    ensures PackName(ListedPath(pack + ".zip", false)) == Some(pack)
  {
    var f := pack + ".zip";
    assert f[|f| - 4..] == ".zip" && f[..|f| - 4] == pack;
  }
}
