/**
 * Block textures for the web editor's renderer (TextureHandler.java): `/textures/<pack>/<file>`
 * is looked up under five relative paths, first in the pack's folder and then in `<pack>.zip`.
 * The folder, the zip and what reading them returns are parameters.
 */
module TextureHandler {
  import opened Wrappers
  import opened Text

  type Bytes = seq<bv8>

  /** A file in the pack folder: missing, present but unreadable, or read. */
  datatype FolderFile = NoFile | ReadFails | FileBytes(data: Bytes)

  /** An entry of the pack zip: missing, present but unreadable, or read. */
  datatype ZipEntry = NoEntry | EntryFails | EntryBytes(data: Bytes)

  /** The zip next to the folder: missing, unopenable, or its entries by name. */
  datatype Zip = NoZip | OpenFails | ZipFile(entry: string -> ZipEntry)

  /** The answer: the texture as `image/png`, or 404 "Texture not found". */
  datatype TextureResponse = Png(data: Bytes) | TextureNotFound

  /**
   * `handle`'s split: fewer than four '/'-segments is no request; otherwise segment 2 is the
   * pack and segment 3 the file name, and later segments are ignored.
   */
  function ParseTexturePath(path: string): (r: Option<(string, string)>)
    ensures r.Some? <==> |JavaSplit(path, '/')| >= 4
    ensures r.Some? ==> r.value == (JavaSplit(path, '/')[2], JavaSplit(path, '/')[3])
  {
    var parts := JavaSplit(path, '/');
    if |parts| < 4 then None else Some((parts[2], parts[3]))
  }

  /** The first piece of `file + more` is `file` when `more` is empty or starts a new segment. */
  lemma FileSegmentFirst(file: string, more: string)
    requires '/' !in file && (more == "" || more[0] == '/')
    ensures |Pieces(file + more, '/')| >= 1 && Pieces(file + more, '/')[0] == file
  {
    if more == "" {
      assert file + more == file;
      PiecesOfPlain(file, '/');
    } else {
      assert file + more == file + ['/'] + more[1..];
      PiecesAppend(file, '/', more[1..]);
    }
  }

  /** One segment and a '/' in front of the rest add that segment in front of the rest's pieces. */
  lemma SegmentPieces(a: string, rest: string)
    requires '/' !in a
    ensures Pieces(a + "/" + rest, '/') == [a] + Pieces(rest, '/')
  {
    assert a + "/" + rest == a + ['/'] + rest;
    PiecesAppend(a, '/', rest);
  }

  /** The pieces of "/textures/<pack>/<rest>": an empty one, "textures", the pack, then the rest's. */
  lemma TexturePathPieces(pack: string, rest: string)
    requires '/' !in pack
    ensures Pieces("/textures/" + pack + "/" + rest, '/') == ["", "textures", pack] + Pieces(rest, '/')
  {
    var t := pack + "/" + rest;
    Regroup("/textures/" + pack, "/", rest);
    Regroup("/textures/", pack, "/" + rest);
    Regroup(pack, "/", rest);
    assert "/textures/" + t == ['/'] + "textures" + ['/'] + t;
    RootedSegmentPieces("textures", '/', t);
    SegmentPieces(pack, rest);
  }

  /** (a + b) + c is a + (b + c). */
  lemma Regroup(a: string, b: string, c: string)
    ensures a + b + c == a + (b + c)
  {
  }

  /** `/textures/<pack>/<file><more>` names that pack and file, whatever `more` adds. */
  lemma TexturePathSegments(pack: string, file: string, more: string)
    requires pack != "" && file != "" && '/' !in pack && '/' !in file
    requires more == "" || more[0] == '/'
    ensures ParseTexturePath("/textures/" + pack + "/" + file + more) == Some((pack, file))
  {
    var s := "/textures/" + pack + "/" + file + more;
    assert s == "/textures/" + pack + "/" + (file + more);
    FileSegmentFirst(file, more);
    TexturePathPieces(pack, file + more);
    var ps := Pieces(s, '/');
    assert ps[2] == pack && ps[3] == file;
    assert s[0] == '/';
    var r := DropTrailingEmpty(ps);
    assert ps[3] != "";
  }

  /** The five places a texture is looked for, in order. */
  function Candidates(filename: string): (r: seq<string>)
    ensures |r| == 5 && r[2] == filename
    ensures forall k :: 0 <= k < 5 ==> EndsWith(r[k], filename)
  {
    var r := ["assets/minecraft/textures/block/" + filename, "assets/minecraft/textures/blocks/" + filename,
              filename, "textures/block/" + filename, "block/" + filename];
    assert forall k :: 0 <= k < 5 ==> r[k][|r[k]| - |filename|..] == filename;
    r
  }

  /** The first candidate the folder yields bytes for, or -1: missing and unreadable files are passed over. */
  function FirstReadable(cands: seq<string>, folder: string -> FolderFile): (k: int)
    ensures -1 <= k < |cands|
    ensures k >= 0 ==> folder(cands[k]).FileBytes?
    ensures forall j :: 0 <= j < |cands| && (k < 0 || j < k) ==> !folder(cands[j]).FileBytes?
  {
    if |cands| == 0 then -1
    else if folder(cands[0]).FileBytes? then 0
    else
      var k := FirstReadable(cands[1..], folder);
      if k < 0 then -1 else k + 1
  }

  /** The first candidate the zip has an entry for, or -1; whether it reads is not looked at. */
  function FirstEntry(cands: seq<string>, entry: string -> ZipEntry): (k: int)
    ensures -1 <= k < |cands|
    ensures k >= 0 ==> !entry(cands[k]).NoEntry?
    ensures forall j :: 0 <= j < |cands| && (k < 0 || j < k) ==> entry(cands[j]).NoEntry?
  {
    if |cands| == 0 then -1
    else if !entry(cands[0]).NoEntry? then 0
    else
      var k := FirstEntry(cands[1..], entry);
      if k < 0 then -1 else k + 1
  }

  /**
   * `loadTexture`: with a pack folder, the first readable candidate in it; failing that, in the
   * zip, the first candidate with an entry, which ends the search whether or not it reads.
   */
  function Texture(filename: string, isFolder: bool, folder: string -> FolderFile, zip: Zip): Option<Bytes>
  {
    var cands := Candidates(filename);
    var k := FirstReadable(cands, folder);
    if isFolder && k >= 0 then Some(folder(cands[k]).data)
    else if !zip.ZipFile? then None
    else
      var z := FirstEntry(cands, zip.entry);
      if z >= 0 && zip.entry(cands[z]).EntryBytes? then Some(zip.entry(cands[z]).data) else None
  }

  /** The two loops of `loadTexture`, each returning at its first hit. */
  method LoadTexture(filename: string, isFolder: bool, folder: string -> FolderFile, zip: Zip) returns (data: Option<Bytes>)
    ensures data == Texture(filename, isFolder, folder, zip)
  {
    var possiblePaths := Candidates(filename);
    if isFolder {
      for i := 0 to |possiblePaths|
        invariant forall j :: 0 <= j < i ==> !folder(possiblePaths[j]).FileBytes?
      {
        var file := folder(possiblePaths[i]);
        if file.FileBytes? {
          FirstReadableAt(possiblePaths, folder, i);
          return Some(file.data);
        }
      }
    }
    if !zip.ZipFile? {
      return None;
    }
    for i := 0 to |possiblePaths|
      invariant forall j :: 0 <= j < i ==> zip.entry(possiblePaths[j]).NoEntry?
    {
      var entry := zip.entry(possiblePaths[i]);
      if !entry.NoEntry? {
        FirstEntryAt(possiblePaths, zip.entry, i);
      }
      if entry.EntryBytes? {
        return Some(entry.data);
      } else if entry.EntryFails? {
        return None;
      }
    }
    return None;
  }

  /** A readable candidate after unreadable ones is the first readable one. */
  lemma FirstReadableAt(cands: seq<string>, folder: string -> FolderFile, i: nat)
    requires i < |cands| && folder(cands[i]).FileBytes?
    requires forall j :: 0 <= j < i ==> !folder(cands[j]).FileBytes?
    ensures FirstReadable(cands, folder) == i
  {
  }

  /** A candidate with an entry after ones without is the first with an entry. */
  lemma FirstEntryAt(cands: seq<string>, entry: string -> ZipEntry, i: nat)
    requires i < |cands| && !entry(cands[i]).NoEntry?
    requires forall j :: 0 <= j < i ==> entry(cands[j]).NoEntry?
    ensures FirstEntry(cands, entry) == i
  {
  }

  /** `handle`: a short path or no texture is 404; found bytes are sent as a PNG. */
  function HandleTexture(path: string, texturesDir: string -> (bool, string -> FolderFile), zips: string -> Zip): TextureResponse
  {
    match ParseTexturePath(path)
    case None => TextureNotFound
    case Some((pack, filename)) =>
      match Texture(filename, texturesDir(pack).0, texturesDir(pack).1, zips(pack + ".zip"))
      case None => TextureNotFound
      case Some(data) => Png(data)
  }

  /**
   * A request for `/textures/<pack>/<file>`, deeper segments ignored, answers the pack's texture
   * for that file as a PNG, or 404 when the search finds none.
   */
  lemma TextureServed(pack: string, file: string, more: string,
                      texturesDir: string -> (bool, string -> FolderFile), zips: string -> Zip)
    requires pack != "" && file != "" && '/' !in pack && '/' !in file
    requires more == "" || more[0] == '/'
    ensures var t := Texture(file, texturesDir(pack).0, texturesDir(pack).1, zips(pack + ".zip"));
            HandleTexture("/textures/" + pack + "/" + file + more, texturesDir, zips) ==
              (if t.Some? then Png(t.value) else TextureNotFound)
  {
    TexturePathSegments(pack, file, more);
  }

  /** A readable candidate in the pack folder wins: the zip is not consulted. */
  lemma FolderFirst(filename: string, folder: string -> FolderFile, zip: Zip, k: nat)
    requires k < 5 && folder(Candidates(filename)[k]).FileBytes?
    ensures Texture(filename, true, folder, zip).Some?
    ensures Texture(filename, true, folder, zip) == Texture(filename, true, folder, NoZip)
  {
  }

  /** An unreadable folder file falls through to the next candidate. */
  lemma FolderReadFailureFallsThrough(filename: string, folder: string -> FolderFile, zip: Zip)
    requires folder(Candidates(filename)[0]) == ReadFails
    requires folder(Candidates(filename)[1]).FileBytes?
    ensures Texture(filename, true, folder, zip) == Some(folder(Candidates(filename)[1]).data)
  {
    var cands := Candidates(filename);
    assert FirstReadable(cands[1..], folder) == 0;
  }

  /** An unreadable zip entry ends the search, even when a later candidate would read. */
  lemma ZipReadFailureEndsSearch(filename: string, folder: string -> FolderFile, entry: string -> ZipEntry)
    requires entry(Candidates(filename)[0]) == EntryFails
    ensures Texture(filename, false, folder, ZipFile(entry)) == None
  {
  }

  /** Without a folder, the zip's first present candidate decides. */
  lemma ZipOrder(filename: string, folder: string -> FolderFile, entry: string -> ZipEntry)
    requires entry(Candidates(filename)[0]) == NoEntry && entry(Candidates(filename)[1]).EntryBytes?
    ensures Texture(filename, false, folder, ZipFile(entry)) == Some(entry(Candidates(filename)[1]).data)
  {
    var cands := Candidates(filename);
    assert FirstEntry(cands[1..], entry) == 0;
  }

  /** `getMinecraftTexturePath`: every ".png" removed, then placed in the block textures folder. */
  function MinecraftTexturePath(filename: string): (r: string)
    ensures StartsWith(r, "assets/minecraft/textures/block/") && EndsWith(r, ".png")
  {
    var r := "assets/minecraft/textures/block/" + RemoveAll(filename, ".png") + ".png";
    assert r[..|"assets/minecraft/textures/block/"|] == "assets/minecraft/textures/block/";
    assert r[|r| - 4..] == ".png";
    r
  }

  /**
   * For a dot-free name the path is the same with or without ".png", and for the name with it
   * is the first candidate `loadTexture` tries.
   */
  lemma MinecraftTexturePathOfName(name: string)
    requires '.' !in name
    ensures MinecraftTexturePath(name + ".png") == MinecraftTexturePath(name)
    ensures MinecraftTexturePath(name + ".png") == Candidates(name + ".png")[0]
  {
    RemoveDottedSuffix(name, ".png");
    if Contains(name, ".png") { ContainsChars(name, ".png", '.'); }
    RemoveAllAbsent(name, ".png");
  }
}
