# Tree-Engine, modelled in Dafny

Tree-Engine is a Minecraft mod for designing custom trees in a web editor served by the game. Trees
are authored as `minecraft:tree` configured-feature JSON, saved under the mod's datapack,
and hot-reloaded into the running game. A tree replacer swaps a vanilla tree for a pool of custom
trees. This project models the bookkeeping behind that cycle and proves properties about it.

Server side (Java):
- the phantom world a tree is generated into, which logs every block write;
- the serialisation of a placed block;
- the hot-reload patcher, which copies a freshly decoded config into the live registry object or tracks the change until restart;
- replacer files, written as a `simple_random_selector` and read back;
- unwrapping of wrapper features down to a tree config;
- definition inheritance;
- the placer factories and the start-up feature derivation;
- the path, input and token checks, and the bearer-token filter;
- the REST routing and the order of checks in each tree and replacer handler;
- the texture and texture-pack lookups.

Client side (JavaScript):
- the Generate button's body choice, air filter and last-write-wins de-duplication;
- the API service's auth headers, block-name scan and error handling;
- the JSON editor's TREE/PLACEMENT tab state machine;
- the tree library's name checks and derived names;
- the replacer panel's checks and field clean-up;
- the schema-driven form's labels, widget dispatch and value extraction.

There is one Dafny module per source file. Three shared modules support them: `Wrappers` (Option
and Result), `Text` (the Java and JavaScript string operations the code relies on: split with
trailing-empty removal, replace-all, trim, ASCII case mapping, decimal numerals, `parseInt`)
and `Json` (an ordered JSON tree with first-match lookup); `JavaInt` holds Java's 32-bit `int`
subtraction. Classes model the code that updates state in place:
- the phantom world's log;
- a tree definition's fields;
- the hot-reload tracking state;
- the token store;
- the replacer form, the tree library and the editor panel;
- a fetch response, whose body can be read only once.

Their loops are methods proved against specification functions. The rest consists of functions and lemmas.

The file system, the clock, random bytes, the Minecraft codec, JSON text parsing and printing, and
the server as seen from the page are all parameters. A file-system write or delete, or a registry
update, is returned as an effect next to the HTTP response.

Where files disagree, each is modelled as written, as follows:
- `RegistryUtils` reads a replacer's `default_tree` and `alternatives`, which `TreeReplacer` does not declare; they are parameters.
- `hot_reload_enabled` is missing from the main configuration; it is a parameter.
- The phantom world hands `BlockInfo` a block-id string where a block state is expected. Its log entries are therefore modelled as (x, y, z, block id) records, while `BlockInfo` keeps a block state.
- The replacer panel posts replacers without `replacement_pool`, which the server refuses; this is proved as `TreeApiHandler.PoolLessReplacerRefused`.

## Model

| member | source | states |
|---|---|---|
| BlockInfo.BlockInfo.constructor | src/main/java/savage/tree_engine/web/BlockInfo.java:13-18 | the record keeps the given coordinates and block state |
| BlockInfo.BlockInfo.ToJson | src/main/java/savage/tree_engine/web/BlockInfo.java:20-41 | the JSON built property by property is `{x, y, z, blockState}`, where the block state has `Name` and adds `Properties` only when there is at least one property |
| BlockInfo.PropertiesOnePerProperty | src/main/java/savage/tree_engine/web/BlockInfo.java:31-34 | with distinct property names, each property becomes exactly one member, name and value as strings, in the state's order |
| BlockInfo.PropertiesNonEmpty | src/main/java/savage/tree_engine/web/BlockInfo.java:31-37 | the properties object is non-empty exactly when the state has a property |
| BlockInfo.StateJson | src/main/java/savage/tree_engine/web/BlockInfo.java:27-37 | the `blockState` object, `Properties` only when a property was added; stated by `StateJsonShape` |
| BlockInfo.BlockJson | src/main/java/savage/tree_engine/web/BlockInfo.java:20-41 | what `toJson` builds: the position and the block state; the method `ToJson` is proved to build it |
| BlockInfo.StateJsonShape | src/main/java/savage/tree_engine/web/BlockInfo.java:27-37 | `Name` is always the block id; `Properties` is present if and only if the state has properties |
| PhantomWorld.PhantomWorld.constructor | src/main/java/savage/tree_engine/world/PhantomWorld.java:38-45 | a new world starts with an empty log |
| PhantomWorld.PhantomWorld.GetPlacedBlocks | src/main/java/savage/tree_engine/world/PhantomWorld.java:47-49 | answers the log as it stands |
| PhantomWorld.PhantomWorld.SetBlockStateWithDepth | src/main/java/savage/tree_engine/world/PhantomWorld.java:51-55 | always succeeds and appends exactly one entry, the position and the block id, to the log |
| PhantomWorld.PhantomWorld.SetBlockState | src/main/java/savage/tree_engine/world/PhantomWorld.java:256-259 | the three-argument write succeeds and appends the same one entry |
| PhantomWorld.PhantomWorld.RemoveBlock | src/main/java/savage/tree_engine/world/PhantomWorld.java:251-254 | removing is a logged write of `minecraft:air` |
| PhantomWorld.PhantomWorld.ReplaceBlock | src/main/java/savage/tree_engine/world/PhantomWorld.java:157-159 | replacing ignores the old state and logs the new one |
| PhantomWorld.PhantomWorld.BreakBlock | src/main/java/savage/tree_engine/world/PhantomWorld.java:152-153 | breaking reports success and leaves the log alone |
| PhantomWorld.PhantomWorld.GetBlockState | src/main/java/savage/tree_engine/world/PhantomWorld.java:57-61 | every position reads as air, whatever was written |
| PhantomWorld.PhantomWorld.GetFluidState | src/main/java/savage/tree_engine/world/PhantomWorld.java:63-66 | every position holds the default state of the empty fluid (`minecraft:empty`, level 0), whatever the position |
| PhantomWorld.PhantomWorld.IsAir | src/main/java/savage/tree_engine/world/PhantomWorld.java:68-71 | every position is air |
| PhantomWorld.PhantomWorld.TestBlockState | src/main/java/savage/tree_engine/world/PhantomWorld.java:147-150 | a block-state test is the predicate applied to air |
| PhantomWorld.PhantomWorld.TestFluidState | src/main/java/savage/tree_engine/world/PhantomWorld.java:246-249 | a fluid test is the predicate applied to the empty fluid |
| PhantomWorld.WriteThenRead | src/main/java/savage/tree_engine/world/PhantomWorld.java:51-61 | after a write, the log ends with that write while a read at the same position still answers air |
| TexturePacksHandler.PackName | src/main/java/savage/tree_engine/web/TexturePacksHandler.java:34-39 | a directory names a pack by its own name; a `.zip` file names the pack that, with `.zip` appended, is the file name; any other file names none |
| TexturePacksHandler.PackNames | src/main/java/savage/tree_engine/web/TexturePacksHandler.java:33-40 | a name is listed exactly when some listed path stands for it, and there are never more names than paths |
| TexturePacksHandler.ListPacks | src/main/java/savage/tree_engine/web/TexturePacksHandler.java:21-56 | non-GET is 405; a missing textures directory gives an empty list; a failing listing is 500; otherwise the pack names of the listing in order |
| TexturePacksHandler.DirectoryWins | src/main/java/savage/tree_engine/web/TexturePacksHandler.java:35-38 | a directory whose name ends in `.zip` keeps its full name, while a file of that name loses the suffix |
| TexturePacksHandler.ZipPackRoundTrip | src/main/java/savage/tree_engine/web/TexturePacksHandler.java:37-38 | `<pack>.zip` is listed as `<pack>`, the name the texture handler turns back into the same file |
| TextureHandler.ParseTexturePath | src/main/java/savage/tree_engine/web/TextureHandler.java:20-30 | a request exists exactly when the path splits into at least four pieces, and then it is pieces 2 and 3 as pack and file |
| TextureHandler.TexturePathSegments | src/main/java/savage/tree_engine/web/TextureHandler.java:21-30 | `/textures/<pack>/<file>` parses to that pack and file, whatever deeper segments follow |
| TextureHandler.HandleTexture | src/main/java/savage/tree_engine/web/TextureHandler.java:19-44 | `handle`: 404 for a path of fewer than four segments or when no texture is found, else the bytes as a PNG; stated by `TextureServed` |
| TextureHandler.TextureServed | src/main/java/savage/tree_engine/web/TextureHandler.java:19-44 | a request for `/textures/<pack>/<file>`, deeper segments ignored, answers exactly that pack's texture for that file as a PNG, or 404 when the search finds none |
| TextureHandler.Candidates | src/main/java/savage/tree_engine/web/TextureHandler.java:53-59 | five candidate paths, each ending in the file name, the third being the bare name |
| TextureHandler.FirstReadable | src/main/java/savage/tree_engine/web/TextureHandler.java:65-75 | the index found is a readable folder file and every earlier candidate is not readable; -1 means none is |
| TextureHandler.FirstEntry | src/main/java/savage/tree_engine/web/TextureHandler.java:84-92 | the index found has a zip entry and every earlier candidate has none; -1 means none has |
| TextureHandler.Texture | src/main/java/savage/tree_engine/web/TextureHandler.java:46-103 | the folder-then-zip search for a file: the first readable folder candidate, else the first zip candidate with an entry, whether or not it reads; stated by the lemmas below |
| TextureHandler.LoadTexture | src/main/java/savage/tree_engine/web/TextureHandler.java:46-103 | the two loops return exactly the texture the folder-then-zip search defines |
| TextureHandler.FirstReadableAt | src/main/java/savage/tree_engine/web/TextureHandler.java:65-75 | a readable candidate preceded only by unreadable ones is the one the folder loop returns |
| TextureHandler.FirstEntryAt | src/main/java/savage/tree_engine/web/TextureHandler.java:84-92 | a candidate with an entry preceded only by absent ones is the one the zip loop opens |
| TextureHandler.FolderFirst | src/main/java/savage/tree_engine/web/TextureHandler.java:61-81 | once the folder has a readable candidate, a texture is found and the zip makes no difference |
| TextureHandler.FolderReadFailureFallsThrough | src/main/java/savage/tree_engine/web/TextureHandler.java:69-73 | a folder file that fails to read is passed over for the next candidate |
| TextureHandler.ZipReadFailureEndsSearch | src/main/java/savage/tree_engine/web/TextureHandler.java:83-96 | a zip entry that fails to read ends the whole search with no texture, even when later candidates would read |
| TextureHandler.ZipOrder | src/main/java/savage/tree_engine/web/TextureHandler.java:84-92 | without a folder, the first candidate present in the zip gives the texture |
| TextureHandler.MinecraftTexturePath | src/main/java/savage/tree_engine/web/TextureHandler.java:105-110 | the path lies in `assets/minecraft/textures/block/` and ends in `.png` |
| TextureHandler.MinecraftTexturePathOfName | src/main/java/savage/tree_engine/web/TextureHandler.java:105-110 | for a dot-free name, adding `.png` first does not change the path, which is the first candidate tried |
| AuthFilter.ExtractToken | src/main/java/savage/tree_engine/web/AuthFilter.java:51-63 | a missing or empty header gives no token and any other header gives one; the token is always already trimmed |
| AuthFilter.BearerHeaderRoundTrip | src/main/java/savage/tree_engine/web/AuthFilter.java:56-59 | the header `Bearer <token>` gives back exactly the trimmed token |
| AuthFilter.ExtractWithoutPrefix | src/main/java/savage/tree_engine/web/AuthFilter.java:61-62 | a non-empty header without the exact prefix gives the whole header, trimmed |
| AuthFilter.PlainHeaderRoundTrip | src/main/java/savage/tree_engine/web/AuthFilter.java:48-62 | a bare trimmed token is accepted as it is |
| AuthFilter.PrefixIsCaseSensitive | src/main/java/savage/tree_engine/web/AuthFilter.java:57 | `bearer ` in lower case is not stripped: the whole header becomes the token |
| AuthFilter.Handle | src/main/java/savage/tree_engine/web/AuthFilter.java:23-45 | with authentication off the request always passes; with it on it passes if and only if the extracted token is non-empty and equals the stored one, and otherwise gets the fixed 401 answer with `WWW-Authenticate: Bearer` |
| Authentication.Unsigned | src/main/java/savage/tree_engine/web/AuthenticationManager.java:101 | the value `%02x` prints for a Java byte is below 256 and congruent to the byte modulo 256 |
| Authentication.DigitValue | src/main/java/savage/tree_engine/web/AuthenticationManager.java:101 | reading a lower-case hex digit gives back the digit value that prints as it |
| Authentication.ByteHex | src/main/java/savage/tree_engine/web/AuthenticationManager.java:101 | two lower-case hex digits whose value is the unsigned byte |
| Authentication.Hex | src/main/java/savage/tree_engine/web/AuthenticationManager.java:98-104 | two lower-case hex digits per byte |
| Authentication.HexAt | src/main/java/savage/tree_engine/web/AuthenticationManager.java:100-102 | byte `i` is spelled by characters `2i` and `2i+1`, in byte order |
| Authentication.UnsignedAll | src/main/java/savage/tree_engine/web/AuthenticationManager.java:100-102 | each position holds the unsigned value of that byte |
| Authentication.DecodeHex | src/main/java/savage/tree_engine/web/AuthenticationManager.java:98-104 | the decoder of the hex text yields one value per two digits |
| Authentication.DecodeHexSnoc | src/main/java/savage/tree_engine/web/AuthenticationManager.java:100-102 | decoding two more digits appends one more value |
| Authentication.HexRoundTrip | src/main/java/savage/tree_engine/web/AuthenticationManager.java:98-104 | decoding the token text gives back the unsigned bytes: the encoding loses nothing |
| Authentication.HexInjective | src/main/java/savage/tree_engine/web/AuthenticationManager.java:45-49 | different random bytes give different tokens |
| Authentication.BytesToHex | src/main/java/savage/tree_engine/web/AuthenticationManager.java:98-104 | the builder loop produces exactly the hex text of the bytes |
| Authentication.GenerateToken | src/main/java/savage/tree_engine/web/AuthenticationManager.java:14-49 | a token is the hex text of 32 bytes and so 64 characters long |
| Authentication.XorZero | src/main/java/savage/tree_engine/web/AuthenticationManager.java:122 | a character exclusive-or is zero exactly when the characters are equal |
| Authentication.BitOrZero | src/main/java/savage/tree_engine/web/AuthenticationManager.java:122 | an accumulated or is zero exactly when both sides are zero |
| Authentication.ConstantTimeEquals | src/main/java/savage/tree_engine/web/AuthenticationManager.java:111-126 | the full-length comparison answers true if and only if the two (possibly null) strings are equal |
| Authentication.AuthConfig.constructor | src/main/java/savage/tree_engine/web/AuthenticationManager.java:77-79 | the configuration holds the given enabled flag and stored token |
| Authentication.AuthConfig.ValidateToken | src/main/java/savage/tree_engine/web/AuthenticationManager.java:56-71 | with authentication off everything passes; with it on a null or empty token fails and any other passes if and only if it equals the stored token |
| Authentication.AuthConfig.Initialize | src/main/java/savage/tree_engine/web/AuthenticationManager.java:20-28 | a null or empty stored token is replaced by a freshly generated one; a stored token is kept |
| Authentication.AuthConfig.RegenerateToken | src/main/java/savage/tree_engine/web/AuthenticationManager.java:85-93 | a new 64-digit token is always stored and returned |
| InputValidator.Utf16Length | src/main/java/savage/tree_engine/web/InputValidator.java:31 | Java's `length()` is between one and two units per character, one each for Basic Multilingual Plane text |
| InputValidator.IsValidTreeId | src/main/java/savage/tree_engine/web/InputValidator.java:12-37 | an id is valid if and only if it is present, 1 to 100 characters long and made only of `[a-zA-Z0-9_]` |
| InputValidator.Utf8Length | src/main/java/savage/tree_engine/web/InputValidator.java:60 | the UTF-8 encoding takes one to four bytes per character, one each for ASCII |
| InputValidator.IsValidJsonSize | src/main/java/savage/tree_engine/web/InputValidator.java:55-62 | null is refused; up to a quarter of 10 MiB characters always fit, more than 10 MiB characters never do, and ASCII text fits if and only if it has at most 10,485,760 characters (with lines 15-16) |
| InputValidator.StripDangerous | src/main/java/savage/tree_engine/web/InputValidator.java:76-82 | the result has no separator, NUL or line break, and only characters of the input |
| InputValidator.StripDangerousAbsent | src/main/java/savage/tree_engine/web/InputValidator.java:76-82 | text with no dot and none of the stripped characters comes through unchanged |
| InputValidator.SanitizeFileName | src/main/java/savage/tree_engine/web/InputValidator.java:71-95 | null or empty gives null; a result is non-empty, does not start with a dot, has no separator or control character, and uses only characters of the input |
| InputValidator.SanitizeCanLeaveDotDot | src/main/java/savage/tree_engine/web/InputValidator.java:77-78 | because `..` is deleted before `/`, the name `a./.b` comes out as `a..b`, which still holds `..` |
| InputValidator.DotDotVariantsReduce | src/main/java/savage/tree_engine/web/InputValidator.java:109-115 | the `..%2f` and `..%5c` patterns are already caught by `..` |
| InputValidator.ContainsPathTraversal | src/main/java/savage/tree_engine/web/InputValidator.java:103-116 | null is never flagged; other input is flagged if and only if it contains, case-sensitively, `..`, `./`, `.\`, `%2e%2e` or `%252e` |
| InputValidator.NoDotNoLowerE | src/main/java/savage/tree_engine/web/InputValidator.java:109-115 | text with no dot and no lower-case `e` is never flagged |
| InputValidator.CaseSensitiveUnlikePathValidator | src/main/java/savage/tree_engine/web/InputValidator.java:112 | `%2E%2E` passes this scan but is flagged by the path validator's case-insensitive scan |
| InputValidator.ValidIdIsSafe | src/main/java/savage/tree_engine/web/InputValidator.java:71-116 | a valid tree id is flagged by neither traversal scan and comes unchanged through both file-name sanitisers (with lines 25-37) |
| PathValidator.LongerPatternsReduce | src/main/java/savage/tree_engine/web/PathValidator.java:75-80 | the four slash and backslash patterns each contain a shorter pattern already searched for |
| PathValidator.ContainsTraversalSequence | src/main/java/savage/tree_engine/web/PathValidator.java:59-91 | null is never flagged; other input is flagged if and only if its lower-cased form contains `..`, `%2e%2e`, `%252e`, `.%2e` or `%2e.` |
| PathValidator.TraversalCaseInsensitive | src/main/java/savage/tree_engine/web/PathValidator.java:64 | an input and its lower-cased form are flagged alike |
| PathValidator.LowerKeepsDotAndPercent | src/main/java/savage/tree_engine/web/PathValidator.java:64 | lower-casing keeps every dot where it is and neither adds nor removes a `%` |
| PathValidator.LowerDotDot | src/main/java/savage/tree_engine/web/PathValidator.java:64-69 | lower-casing neither creates nor removes a `..` |
| PathValidator.TraversalWithoutPercent | src/main/java/savage/tree_engine/web/PathValidator.java:59-91 | without a `%`, input is flagged if and only if it contains `..` |
| PathValidator.AfterLastSeparator | src/main/java/savage/tree_engine/web/PathValidator.java:113-121 | the result is the suffix after the last `/` or `\`, holding neither, and the whole text when it has no separator |
| PathValidator.AfterLastSeparatorOf | src/main/java/savage/tree_engine/web/PathValidator.java:113-121 | whatever precedes the last separator is dropped |
| PathValidator.StripControl | src/main/java/savage/tree_engine/web/PathValidator.java:123-126 | NUL, LF and CR are gone, nothing else is added, and text without them is unchanged |
| PathValidator.SanitizeFileName | src/main/java/savage/tree_engine/web/PathValidator.java:100-139 | null, empty and traversal-flagged names give null; a result is non-empty, does not start with a dot, has no separator or control character, and uses only characters of the input |
| PathValidator.SanitizeKeepsLastName | src/main/java/savage/tree_engine/web/PathValidator.java:110-121 | a plain name after any directory part comes back as the bare name |
| PathValidator.SanitizePlainUnchanged | src/main/java/savage/tree_engine/web/PathValidator.java:100-139 | a name that is already plain comes back unchanged |
| PathValidator.SanitizeWithoutSeparators | src/main/java/savage/tree_engine/web/PathValidator.java:123-138 | without separators, sanitising only strips the control characters |
| PathValidator.SanitizeCanFormDotDot | src/main/java/savage/tree_engine/web/PathValidator.java:105-126 | the scan runs before NUL bytes are stripped, so `a.\0.b` passes it and comes out as `a..b` |
| PathValidator.NonEmptyNames | src/main/java/savage/tree_engine/web/PathValidator.java:45 | the names kept are non-empty pieces of the input, and all of them when none is empty |
| PathValidator.ParsePath | src/main/java/savage/tree_engine/web/PathValidator.java:45-49 | parsing fails if and only if the text holds a NUL; a parsed path is absolute exactly when the text starts with `/`, and its names are non-empty separator-free parts of the text |
| PathValidator.ParsePlainName | src/main/java/savage/tree_engine/web/PathValidator.java:45 | a plain name parses to a one-name relative path |
| PathValidator.Resolve | src/main/java/savage/tree_engine/web/PathValidator.java:158-189 | an absolute path replaces the base; a relative one is appended to it |
| PathValidator.NormalizeNames | src/main/java/savage/tree_engine/web/PathValidator.java:24-25 | no `.` is left, and no `..` in an absolute path |
| PathValidator.ToAbsolute | src/main/java/savage/tree_engine/web/PathValidator.java:24-25 | the result is absolute |
| PathValidator.IsPathSafe | src/main/java/savage/tree_engine/web/PathValidator.java:21-33 | safe if and only if the normalised absolute names of the base are a prefix of those of the request |
| PathValidator.IsPathSafeString | src/main/java/savage/tree_engine/web/PathValidator.java:43-50 | a string with a NUL is unsafe; otherwise the parsed path decides |
| PathValidator.SafetyComparesNames | src/main/java/savage/tree_engine/web/PathValidator.java:28 | `/srv/trees2` starts with `/srv/trees` as text but is not inside it |
| PathValidator.NormalizeExtends | src/main/java/savage/tree_engine/web/PathValidator.java:24-28 | appending names without `..` keeps the normalised prefix |
| PathValidator.BelowBaseIsSafe | src/main/java/savage/tree_engine/web/PathValidator.java:21-33 | a path below the base by names without `..` is safe whatever the working directory |
| PathValidator.ResolveSafePath | src/main/java/savage/tree_engine/web/PathValidator.java:150-166 | refused if and only if the name does not sanitise; otherwise the base plus the sanitised name, which is always safe, so the second refusal never happens |
| PathValidator.ResolveSafeRelativePath | src/main/java/savage/tree_engine/web/PathValidator.java:177-197 | empty paths and traversal-flagged paths are refused with their own errors; an accepted path is the resolved one and is inside the base |
| PathValidator.RelativePathStaysInside | src/main/java/savage/tree_engine/web/PathValidator.java:177-197 | a relative path without traversal is accepted, with its subdirectory names below the base |
| PathValidator.AbsoluteOutsideRefused | src/main/java/savage/tree_engine/web/PathValidator.java:189-194 | `/etc` under base `/srv` passes the scan but is refused by the escape check |
| PlacerFactory.HeightSpread | src/main/java/savage/tree_engine/web/PlacerFactory.java:11 | never negative; the height difference when it is non-negative and does not overflow, zero when it is negative |
| PlacerFactory.TrunkPlacerWith | src/main/java/savage/tree_engine/web/PlacerFactory.java:10-34 | base height is the minimum and the first random height the spread; the second is 19 for mega jungle and 0 otherwise; a straight trunk is chosen if and only if the lower-cased name (`straight` for null) is none of the five others, and otherwise the kind of that name; cherry takes 2, 3, the given start offset and -1 |
| PlacerFactory.CreateTrunkPlacerAsWritten | src/main/java/savage/tree_engine/web/PlacerFactory.java:10-34 | `createTrunkPlacer` as written, with the cherry branch start offset `uniform(-1, -2)`; stated by `CherryStartOffsetAsWrittenEmpty` |
| PlacerFactory.CreateTrunkPlacer | src/main/java/savage/tree_engine/web/PlacerFactory.java:10-34 | `createTrunkPlacer` with that offset the other way round; stated by `TrunkProvidersNonEmpty`, `TrunkDefaults`, `TrunkNamesSelect`, `TrunkTypeCaseInsensitive` and `CorrectionOnlyTouchesCherry` |
| PlacerFactory.CherryStartOffsetAsWrittenEmpty | src/main/java/savage/tree_engine/web/PlacerFactory.java:23-28 | as written, the cherry trunk's branch start offset is a range with no value |
| PlacerFactory.TrunkProvidersNonEmpty | src/main/java/savage/tree_engine/web/PlacerFactory.java:23-28 | with the range the other way round, every provider of a cherry trunk can be sampled |
| PlacerFactory.CorrectionOnlyTouchesCherry | src/main/java/savage/tree_engine/web/PlacerFactory.java:10-34 | the corrected factory differs from the one as written only for the cherry trunk |
| PlacerFactory.TrunkTypeCaseInsensitive | src/main/java/savage/tree_engine/web/PlacerFactory.java:14 | trunk names are matched without regard to case |
| PlacerFactory.TrunkDefaults | src/main/java/savage/tree_engine/web/PlacerFactory.java:12-32 | a null name and `upwards_branching` both give a straight trunk |
| PlacerFactory.TrunkNamesSelect | src/main/java/savage/tree_engine/web/PlacerFactory.java:14-33 | each trunk kind's own name selects that kind |
| PlacerFactory.CreateFoliagePlacer | src/main/java/savage/tree_engine/web/PlacerFactory.java:36-87 | radius and offset are constant providers; blob is chosen if and only if the lower-cased name (`blob` for null) is none of the eight others, and otherwise the kind of that name; spruce, pine, mega pine, random spread and cherry take the height as a constant provider, random spread with 50 attempts, while jungle and blob take it as a number |
| PlacerFactory.FoliageTypeCaseInsensitive | src/main/java/savage/tree_engine/web/PlacerFactory.java:39 | foliage names are matched without regard to case |
| PlacerFactory.FoliageDefault | src/main/java/savage/tree_engine/web/PlacerFactory.java:80-85 | a null name gives blob foliage with the given radius, offset and height (with line 37) |
| PlacerFactory.FoliageNamesSelect | src/main/java/savage/tree_engine/web/PlacerFactory.java:39-86 | each foliage kind's own name selects that kind |
| VirtualDatapack.BlockIdOf | src/main/java/savage/tree_engine/registry/VirtualDatapackManager.java:53-54 | a null id and an id without `:` are distinct errors; a resolved block has a valid identifier |
| VirtualDatapack.BlockIdOfPair | src/main/java/savage/tree_engine/registry/VirtualDatapackManager.java:53-54 | `ns:path` resolves to namespace `ns` and path `path` |
| VirtualDatapack.CreateTreeFeature | src/main/java/savage/tree_engine/registry/VirtualDatapackManager.java:52-71 | a bad trunk id fails first and then a bad foliage id; a made feature has both blocks, a straight trunk at the minimum height (default 4) with the 32-bit difference to the maximum (default 6), blob foliage of height 3 with radius (default 2) and offset (default 0), and size (1, 0, 1) |
| VirtualDatapack.PlacerSettingsIgnored | src/main/java/savage/tree_engine/registry/VirtualDatapackManager.java:52-71 | two definitions that agree on blocks and sizes give the same feature, whatever their placer settings |
| VirtualDatapack.SpreadNotClamped | src/main/java/savage/tree_engine/registry/VirtualDatapackManager.java:65 | a maximum below the minimum gives a negative random height, unlike the placer factory's clamped spread |
| VirtualDatapack.DefaultSizes | src/main/java/savage/tree_engine/registry/VirtualDatapackManager.java:56-59 | with no sizes, the trunk is 4 plus 2 and the foliage has radius 2 and offset 0 |
| VirtualDatapack.FeatureRegistry.constructor | src/main/java/savage/tree_engine/registry/VirtualDatapackManager.java:27 | the registry holds the given entries |
| VirtualDatapack.RegisterFeatures | src/main/java/savage/tree_engine/registry/VirtualDatapackManager.java:33-50 | the loop leaves the registry as the definitions registered one by one define, a failure skipping just that definition |
| VirtualDatapack.RegisteredOnlyAdds | src/main/java/savage/tree_engine/registry/VirtualDatapackManager.java:38-49 | registering keeps every existing entry, and every new key is `tree_engine:` plus a definition id |
| VirtualDatapack.RegisteredDespiteFailures | src/main/java/savage/tree_engine/registry/VirtualDatapackManager.java:42-48 | a definition that can be made, under a valid free id, ends up registered with its own feature whatever the other definitions do |
| VirtualDatapack.RegisterOne | src/main/java/savage/tree_engine/registry/VirtualDatapackManager.java:36-48 | the registry after one definition: added when the feature can be made under a free valid identifier, else unchanged; stated by `RegisterOneAdds` and `RegisterOneKeeps` |
| VirtualDatapack.Registered | src/main/java/savage/tree_engine/registry/VirtualDatapackManager.java:33-50 | the registry after every definition in iteration order; stated by `RegisterFeatures` and `RegisteredOnlyAdds` |
| VirtualDatapack.RegisterOneAdds | src/main/java/savage/tree_engine/registry/VirtualDatapackManager.java:43-45 | one definition under a free valid id is added with its feature |
| VirtualDatapack.RegisterOneKeeps | src/main/java/savage/tree_engine/registry/VirtualDatapackManager.java:42-48 | registering one definition leaves every other key as it was |
| TreeDefinition.Fill | src/main/java/savage/tree_engine/config/TreeDefinition.java:35 | a child value that is set is kept; a null one takes the parent's |
| TreeDefinition.FillLaws | src/main/java/savage/tree_engine/config/TreeDefinition.java:35-52 | filling twice is filling once, a slot stays null if and only if child and parent are both null, and filling from oneself changes nothing |
| TreeDefinition.MergeIdempotent | src/main/java/savage/tree_engine/config/TreeDefinition.java:32-53 | merging the same parent twice is merging it once |
| TreeDefinition.MergeNeutral | src/main/java/savage/tree_engine/config/TreeDefinition.java:32-53 | merging with oneself or with an all-null parent changes nothing |
| TreeDefinition.MergeComplete | src/main/java/savage/tree_engine/config/TreeDefinition.java:32-53 | a definition with all fifteen fields set is unaffected by any parent |
| TreeDefinition.MergeChain | src/main/java/savage/tree_engine/config/TreeDefinition.java:32-53 | merging with a parent already merged with a grandparent equals merging with the parent and then the grandparent |
| TreeDefinition.TreeDefinition.constructor | src/main/java/savage/tree_engine/config/TreeDefinition.java:5-26 | a definition holds the given id, parent and fields |
| TreeDefinition.TreeDefinition.SetDescriptive | src/main/java/savage/tree_engine/config/TreeDefinition.java:35-42 | the eight name, block and size fields take the given values, and only those fields change |
| TreeDefinition.TreeDefinition.SetPlacers | src/main/java/savage/tree_engine/config/TreeDefinition.java:44-52 | the seven placer fields take the given values, and only those fields change |
| TreeDefinition.TreeDefinition.Merge | src/main/java/savage/tree_engine/config/TreeDefinition.java:32-53 | a null parent changes nothing; otherwise the fields become the child's filled from the parent's, while `id`, `parent` and the parent object stay as they were |
| TreeConfigManager.ObjectMember | src/main/java/savage/tree_engine/config/TreeConfigManager.java:80-101 | an object member is returned as a nested object; the result is null if and only if the member is absent, and any other kind of member fails the cast |
| TreeConfigManager.Unwrap | src/main/java/savage/tree_engine/config/TreeConfigManager.java:70-109 | a configuration found is nested inside the feature document |
| TreeConfigManager.LoadTreeConfig | src/main/java/savage/tree_engine/config/TreeConfigManager.java:49-55 | a document that is not an object fails the cast; an object is unwrapped |
| TreeConfigManager.UnwrapTree | src/main/java/savage/tree_engine/config/TreeConfigManager.java:73-76 | a `minecraft:tree` unwraps to its `config` unchanged |
| TreeConfigManager.MissingTypeUnsupported | src/main/java/savage/tree_engine/config/TreeConfigManager.java:71-108 | an object without `type` is an unsupported feature of type "" |
| TreeConfigManager.UnreadableType | src/main/java/savage/tree_engine/config/TreeConfigManager.java:71 | a `type` that is an object cannot be read as a string and fails |
| TreeConfigManager.SelectorUsesFirstEntry | src/main/java/savage/tree_engine/config/TreeConfigManager.java:78-91 | a selector unwraps through its first entry's `feature`, ignoring the other entries |
| TreeConfigManager.PatchUsesInnerFeature | src/main/java/savage/tree_engine/config/TreeConfigManager.java:93-105 | a random patch unwraps through `config.feature.feature` |
| TreeConfigManager.EmptySelectorFails | src/main/java/savage/tree_engine/config/TreeConfigManager.java:85-86 | a selector with no entries fails on taking entry 0 |
| TreeConfigManager.UnwrapWrappedTree | src/main/java/savage/tree_engine/config/TreeConfigManager.java:70-109 | any stack of selectors and patches around a tree unwraps to that tree's configuration |
| TreeConfigManager.ReplacerSelectorFails | src/main/java/savage/tree_engine/config/TreeConfigManager.java:85-87 | the selector a replacer file holds lists bare id strings, so unwrapping it fails on the first entry |
| TreeReplacerManager.NewTreeReplacer | src/main/java/savage/tree_engine/config/TreeReplacerManager.java:38-42 | id and vanilla id are kept; the pool is never null, a null pool becoming an empty one |
| TreeReplacerManager.PoolStrings | src/main/java/savage/tree_engine/config/TreeReplacerManager.java:248-250 | one JSON string per pool entry, in order |
| TreeReplacerManager.DatapackFile | src/main/java/savage/tree_engine/config/TreeReplacerManager.java:213-260 | the location and selector JSON `generateDatapackFile` writes, or the error it throws; stated by `DatapackFileErrors` and `DatapackFileLocation` |
| TreeReplacerManager.GenerateDatapackFile | src/main/java/savage/tree_engine/config/TreeReplacerManager.java:213-260 | the loop builds exactly the file and the location the selector-file definition gives |
| TreeReplacerManager.DatapackFileErrors | src/main/java/savage/tree_engine/config/TreeReplacerManager.java:215-238 | the file is refused if and only if the vanilla id is null or has no `:`, or the pool is null or empty; an id without `:` is refused by name |
| TreeReplacerManager.DatapackFileLocation | src/main/java/savage/tree_engine/config/TreeReplacerManager.java:216-231 | `ns:path`, split at the first `:`, is written to `data/<ns>/worldgen/configured_feature/<path>.json` with the selector JSON of the pool |
| TreeReplacerManager.ParsedReplacer | src/main/java/savage/tree_engine/config/TreeReplacerManager.java:129-161 | what `parseReplacerFile` makes of a file's JSON: null for a non-selector, an error where Gson throws, else the replacer named after the file; stated by the lemmas below |
| TreeReplacerManager.ParseReplacerFile | src/main/java/savage/tree_engine/config/TreeReplacerManager.java:129-161 | the entry loop gives exactly what the file-reading definition gives: null for a non-selector file, an error where Gson throws, otherwise the replacer with the collected pool, numeric `feature` entries kept as their text |
| TreeReplacerManager.PoolOfErrSticks | src/main/java/savage/tree_engine/config/TreeReplacerManager.java:145-154 | once an entry throws, reading the whole array throws that error |
| TreeReplacerManager.PoolOfStrings | src/main/java/savage/tree_engine/config/TreeReplacerManager.java:146-147 | an array of strings reads back as the same pool in order |
| TreeReplacerManager.NumericFeatureKept | src/main/java/savage/tree_engine/config/TreeReplacerManager.java:148-152 | an object entry whose `feature` is a number adds that number's text to the pool, as `getAsString` gives it |
| TreeReplacerManager.RemoveJsonSuffix | src/main/java/savage/tree_engine/config/TreeReplacerManager.java:157 | removing every `.json` from `p.json` gives `p` when `p` has no `.json` |
| TreeReplacerManager.GenerateThenParse | src/main/java/savage/tree_engine/config/TreeReplacerManager.java:213-260 | round trip: the file generated for `minecraft:p` and a pool, read back under its own name, is the replacer `minecraft:p` with the same pool (with lines 129-161) |
| TreeReplacerManager.SelectorParses | src/main/java/savage/tree_engine/config/TreeReplacerManager.java:134-160 | a generated selector reads back as its pool under the id its file name gives |
| TreeReplacerManager.SelectorJsonReads | src/main/java/savage/tree_engine/config/TreeReplacerManager.java:241-253 | the `type`, `config` and `features` members parsing looks up are where generation put them (with lines 134-142) |
| TreeReplacerManager.GetPathOfVanillaId | src/main/java/savage/tree_engine/config/TreeReplacerManager.java:265-279 | `minecraft:x` is read from `x.json`, the file delete removes and generation writes (with lines 170-178) |
| TreeReplacerManager.GetReplacer | src/main/java/savage/tree_engine/config/TreeReplacerManager.java:166-189 | `get`: null for a missing or unreadable file or a non-selector, the parse exception escaping otherwise; stated by `GetFindsGenerated` |
| TreeReplacerManager.GetFindsGenerated | src/main/java/savage/tree_engine/config/TreeReplacerManager.java:166-189 | `get("minecraft:x")` finds the replacer whose selector file generation wrote for `x`, with the same pool, and answers null when that file is missing or unreadable (with lines 213-260) |
| TreeReplacerManager.PlainIdPaths | src/main/java/savage/tree_engine/config/TreeReplacerManager.java:170-178 | an id without `:` is used as the file name by `get` and put in the minecraft namespace by delete, so both address the same file (with lines 266-270) |
| TreeReplacerManager.OtherNamespaceDisagrees | src/main/java/savage/tree_engine/config/TreeReplacerManager.java:266-279 | for another namespace, `get` reads a file in the minecraft folder named after the whole id, while delete removes the file in that namespace (with lines 170-178) |
| RegistryUtils.ConfigObject.constructor | src/main/java/savage/tree_engine/util/RegistryUtils.java:86-87 | a config object holds its class and field values |
| RegistryUtils.ConfiguredFeature.constructor | src/main/java/savage/tree_engine/util/RegistryUtils.java:54 | a feature holds its config object |
| RegistryUtils.Copied | src/main/java/savage/tree_engine/util/RegistryUtils.java:272-294 | the target's field values after the copy loop; stated by the lemmas below |
| RegistryUtils.CopiedAt | src/main/java/savage/tree_engine/util/RegistryUtils.java:95-110 | a field name some copyable field carries takes the source's value; static fields, fields whose set fails and undeclared names keep the target's value |
| RegistryUtils.CopiedKeys | src/main/java/savage/tree_engine/util/RegistryUtils.java:95-110 | the copy only writes declared field names and removes none |
| RegistryUtils.CopiedIdempotent | src/main/java/savage/tree_engine/util/RegistryUtils.java:95-110 | copying twice from the same source is copying once |
| RegistryUtils.CopiedSelf | src/main/java/savage/tree_engine/util/RegistryUtils.java:95-110 | copying an object onto itself changes nothing |
| RegistryUtils.CopyDeclaredFields | src/main/java/savage/tree_engine/util/RegistryUtils.java:272-294 | the field loop over a given list of declared fields leaves the target with exactly the copied values, having written at most one field per listed field (with lines 95-110) |
| RegistryUtils.ModifyTreeFeatureConfig | src/main/java/savage/tree_engine/util/RegistryUtils.java:86-117 | the existing tree config takes the new one's values over the declared fields of `TreeFeatureConfig` itself (line 90), whatever fields the two objects carry |
| RegistryUtils.ModifyConfigFields | src/main/java/savage/tree_engine/util/RegistryUtils.java:255-301 | a null target or source, or objects of different classes, leave the target unchanged; otherwise it takes the copied values |
| RegistryUtils.AlternativeEntries | src/main/java/savage/tree_engine/util/RegistryUtils.java:345-351 | one `{chance, feature}` entry per alternative, in order |
| RegistryUtils.RandomSelectorJson | src/main/java/savage/tree_engine/util/RegistryUtils.java:334-361 | the random-selector document for a default tree and alternatives; stated by `CreateRandomSelectorJson` and `RandomSelectorRoundTrip` |
| RegistryUtils.CreateRandomSelectorJson | src/main/java/savage/tree_engine/util/RegistryUtils.java:334-361 | a null alternatives list gives null; otherwise the random-selector document of the default tree and the alternatives |
| RegistryUtils.AlternativesOfEntries | src/main/java/savage/tree_engine/util/RegistryUtils.java:345-351 | the entries read back as the same alternatives in order |
| RegistryUtils.AlternativeRoundTrip | src/main/java/savage/tree_engine/util/RegistryUtils.java:347-349 | one entry reads back as its alternative, a null feature included |
| RegistryUtils.RandomSelectorRoundTrip | src/main/java/savage/tree_engine/util/RegistryUtils.java:337-353 | the selector document keeps the default tree and every alternative in order |
| RegistryUtils.ReplacerKey | src/main/java/savage/tree_engine/util/RegistryUtils.java:124 | a key exists if and only if the vanilla id is present and splits at `:` into at least two pieces, and every key starts with `minecraft:` |
| RegistryUtils.ReplacerKeyOfPair | src/main/java/savage/tree_engine/util/RegistryUtils.java:124 | `ns:p` patches `minecraft:p`, whatever the namespace |
| RegistryUtils.ReplacerKeyNoColon | src/main/java/savage/tree_engine/util/RegistryUtils.java:182-185 | an id without `:` gives no key (with line 124) |
| RegistryUtils.TreeEngineState.constructor | src/main/java/savage/tree_engine/util/RegistryUtils.java:62 | both tracking maps start empty (with line 140) |
| RegistryUtils.TreeEngineState.RegisterFeatureDirectly | src/main/java/savage/tree_engine/util/RegistryUtils.java:43-79 | hot-reloaded if and only if the id is valid and registered and both configs are tree configs; then the existing config is patched over `TreeFeatureConfig`'s declared fields and tracked and no other config changes; otherwise no config changes and a valid id tracks the new feature |
| RegistryUtils.TreeEngineState.UpdateReplacerInRegistry | src/main/java/savage/tree_engine/util/RegistryUtils.java:122-186 | hot-reloaded if and only if the key is derived, valid and registered and the selector decodes; the existing config is then patched when the classes match and the replacer tracked; an unregistered key is only tracked, and every other failure changes nothing |
| RegistryUtils.TreeEngineState.RemoveFeatureFromRegistry | src/main/java/savage/tree_engine/util/RegistryUtils.java:306-315 | only the tracking entry is removed, and the answer is whether there was one |
| RegistryUtils.TreeEngineState.RemoveReplacerFromRegistry | src/main/java/savage/tree_engine/util/RegistryUtils.java:320-329 | only the tracking entry is removed, and the answer is whether there was one |
| TreeApiHandler.StripSlash | src/main/java/savage/tree_engine/web/TreeApiHandler.java:49-52 | the result is the path with at most its last character removed, and it differs from the path exactly when the path ends with `/` |
| TreeApiHandler.Route | src/main/java/savage/tree_engine/web/TreeApiHandler.java:45-112 | the endpoint a method and raw path select, or none; its cases are stated by the routing lemmas below |
| TreeApiHandler.Dispatch | src/main/java/savage/tree_engine/web/TreeApiHandler.java:45-112 | the response of a routed request when the handler that answers it needs no input beyond the route; its cases are stated by the routing lemmas below |
| TreeApiHandler.PiecesOfJoin | src/main/java/savage/tree_engine/web/TreeApiHandler.java:54 | segments free of `/` joined by `/` split back into the same segments |
| TreeApiHandler.SplitApiPath | src/main/java/savage/tree_engine/web/TreeApiHandler.java:54-56 | `/api/` and non-empty segments splits into "", "api" and those segments |
| TreeApiHandler.SplitOfJoin | src/main/java/savage/tree_engine/web/TreeApiHandler.java:54 | with a non-empty last segment, Java's split gives the segments back exactly |
| TreeApiHandler.EndpointOf | src/main/java/savage/tree_engine/web/TreeApiHandler.java:59-60 | in `/api/<e>` followed by nothing or a new segment, segment 2 is `e` |
| TreeApiHandler.TreesCollectionRoutes | src/main/java/savage/tree_engine/web/TreeApiHandler.java:62-66 | `/api/trees`, with or without a trailing `/`: GET lists, POST saves, any other method is 405 |
| TreeApiHandler.TreeItemRoutes | src/main/java/savage/tree_engine/web/TreeApiHandler.java:67-72 | `/api/trees/<id>`: GET reads, DELETE deletes, PUT or POST saves, any other method is 405 |
| TreeApiHandler.ReplacerItemRoutes | src/main/java/savage/tree_engine/web/TreeApiHandler.java:97-101 | `/api/replacers/<id>`: GET reads, DELETE deletes, any other method, PUT included, is 405 |
| TreeApiHandler.DeepPathsUnanswered | src/main/java/savage/tree_engine/web/TreeApiHandler.java:62-102 | trees and replacers paths of five segments match no branch, so no response is sent |
| TreeApiHandler.VanillaIdVerbatim | src/main/java/savage/tree_engine/web/TreeApiHandler.java:77-91 | the `vanilla_tree` id is the raw rest of the path, slashes included; only GET is allowed |
| TreeApiHandler.UnknownEndpointNotFound | src/main/java/savage/tree_engine/web/TreeApiHandler.java:106-108 | a segment naming no endpoint gives 404 whatever the method |
| TreeApiHandler.ShortPathNotFound | src/main/java/savage/tree_engine/web/TreeApiHandler.java:109-111 | a path of one segment, with or without a trailing `/`, gives 404 (with line 59) |
| TreeApiHandler.TrailingSlashIgnored | src/main/java/savage/tree_engine/web/TreeApiHandler.java:49-54 | outside `vanilla_tree`, one added trailing `/` does not change the route |
| TreeApiHandler.NoDotDotInTreeFile | src/main/java/savage/tree_engine/web/TreeApiHandler.java:230 | the file name of a dot-free id has no `..` |
| TreeApiHandler.TreeFileNameSafe | src/main/java/savage/tree_engine/web/TreeApiHandler.java:220-235 | the file name of a valid id passes the path validator unchanged, so the second 400 of `handleGet` never happens |
| TreeApiHandler.GetTreeResponse | src/main/java/savage/tree_engine/web/TreeApiHandler.java:218-258 | `handleGet`: the answer for an id, the files and the parse result; the cases are stated by `GetTreeLooksUpOwnFile` |
| TreeApiHandler.GetTreeLooksUpOwnFile | src/main/java/savage/tree_engine/web/TreeApiHandler.java:218-258 | an invalid id is 400 whatever the files hold; a valid one reads `<id>.json` in the datapack directory: 404 when absent, 500 when unreadable or corrupted, else the stored text |
| TreeApiHandler.DeleteTreeOutcome | src/main/java/savage/tree_engine/web/TreeApiHandler.java:353-392 | an invalid id is refused with nothing touched; otherwise both files are deleted, the registry entry is dropped if and only if hot reload is on, and the answer is 200 if and only if the configured-feature file existed; a throwing delete gives 500 with only the earlier delete done and the registry untouched; 200 if and only if the id is valid, both deletes complete and the file existed |
| TreeApiHandler.ConcatSnoc | src/main/java/savage/tree_engine/web/TreeApiHandler.java:268-270 | appending one more chunk appends its text |
| TreeApiHandler.ChunksOf | src/main/java/savage/tree_engine/web/TreeApiHandler.java:266-269 | each chunk is non-empty and at most the buffer size |
| TreeApiHandler.ChunksRejoin | src/main/java/savage/tree_engine/web/TreeApiHandler.java:265-271 | reading the body in 8192-character chunks and appending them gives back the whole body |
| TreeApiHandler.ReadBody | src/main/java/savage/tree_engine/web/TreeApiHandler.java:265-271 | the builder loop gives the concatenation of every chunk |
| TreeApiHandler.WithoutId | src/main/java/savage/tree_engine/web/TreeApiHandler.java:302-305 | the saved document has no `id` and keeps exactly the other members |
| TreeApiHandler.SaveTreeOutcome | src/main/java/savage/tree_engine/web/TreeApiHandler.java:262-351 | `handleSave` after the body is read: size, parse, `type`, segment 3 and id checks, then four file-system calls whose throwing ends in the 400 of the catch; the cases are stated by the save lemmas below |
| TreeApiHandler.WriteTree | src/main/java/savage/tree_engine/web/TreeApiHandler.java:298-346 | the write steps one call at a time give `WriteTreeOutcome`: both files written, then registration with hot reload on, or, on a throw, the 400 with the writes before it |
| TreeApiHandler.HandleSave | src/main/java/savage/tree_engine/web/TreeApiHandler.java:262-351 | the chunk loop followed by the checks and the stepwise writes gives the save outcome of the whole body, throwing file-system calls included |
| TreeApiHandler.SaveAccepted | src/main/java/savage/tree_engine/web/TreeApiHandler.java:298-346 | a save that passes every check and whose four file-system calls complete writes the cleaned document and its placed feature, registers with hot reload on, and answers `{"id": "<id>"}` |
| TreeApiHandler.SaveWriteThrows | src/main/java/savage/tree_engine/web/TreeApiHandler.java:298-350 | a save that passes every check but whose file-system call `k` throws answers 400 "Failed to save tree"; the cleaned document is written exactly when the throw comes after its write, the placed feature never, and nothing is registered |
| TreeApiHandler.RemoveAbsentKey | src/main/java/savage/tree_engine/web/TreeApiHandler.java:303-305 | removing an absent key changes nothing |
| TreeApiHandler.SaveRefusalsTouchNothing | src/main/java/savage/tree_engine/web/TreeApiHandler.java:262-351 | a save answers 200 if and only if size, parse, `type`, segment 3 and id checks all pass and all four file-system calls complete; a refused save writes nothing, and a failed one has at most written the configured-feature file |
| TreeApiHandler.SaveWritesWhatGetReads | src/main/java/savage/tree_engine/web/TreeApiHandler.java:286-322 | saving `/api/trees/<id>` with the writes completing writes the body minus `id` to the file the GET of that id reads, writes a placed feature naming `tree_engine:<id>`, and answers with the id (with line 230) |
| TreeApiHandler.SaveOfValidId | src/main/java/savage/tree_engine/web/TreeApiHandler.java:286-346 | the full outcome of a save of a valid id at `/api/trees/<id>` whose writes complete |
| TreeApiHandler.TreeFileResolved | src/main/java/savage/tree_engine/web/TreeApiHandler.java:230 | a valid id's file resolves inside the datapack directory |
| TreeApiHandler.CollectionPostRefused | src/main/java/savage/tree_engine/web/TreeApiHandler.java:347-350 | POST to `/api/trees` reaches the save handler but its path has no segment 3, so every well-formed body is refused with 400 and the `tree_<millis>` fallback is never reached (with lines 65, 286, 294-296) |
| TreeApiHandler.AssignedId | src/main/java/savage/tree_engine/web/TreeApiHandler.java:424-426 | a given non-empty id is kept; a null or empty one becomes `replacer_<millis>` |
| TreeApiHandler.SaveReplacerOutcome | src/main/java/savage/tree_engine/web/TreeApiHandler.java:420-461 | `handleSaveReplacer`: decode, id assignment, vanilla-id and pool checks, file generation, then two file-system calls whose throwing ends in the 400 of the catch; the cases are stated by the replacer lemmas below |
| TreeApiHandler.HandleSaveReplacer | src/main/java/savage/tree_engine/web/TreeApiHandler.java:420-461 | assigning the id on the decoded object and then checking and writing gives the replacer save outcome, throwing file-system calls included |
| TreeApiHandler.AssignedIdValid | src/main/java/savage/tree_engine/web/TreeApiHandler.java:425 | a clock-assigned id is a valid identifier for any non-negative `long` time |
| TreeApiHandler.LongDigits | src/main/java/savage/tree_engine/web/TreeApiHandler.java:425 | a non-negative `long` has at most 19 digits |
| TreeApiHandler.PoolLessReplacerRefused | src/main/java/savage/tree_engine/web/TreeApiHandler.java:433-436 | a replacer without a pool, as the web editor sends it, is refused with 400 and nothing is written |
| TreeApiHandler.SaveReplacerWritesWhatGetReads | src/main/java/savage/tree_engine/web/TreeApiHandler.java:420-461 | a saved replacer for `minecraft:<x>` whose write completes is written as the selector of its pool to the file `get` and delete use, and answers with its own or the clock-assigned id |
| TreeApiHandler.ReplacerSavedIff | src/main/java/savage/tree_engine/web/TreeApiHandler.java:420-461 | a replacer save answers 200 if and only if the body decodes, the vanilla id is present, non-empty and has a `:`, the pool is present and non-empty, and both file-system calls complete; any other save touches nothing (with TreeReplacerManager.java lines 216-218) |
| TreeApiHandler.DeleteReplacerOutcome | src/main/java/savage/tree_engine/web/TreeApiHandler.java:463-487 | a failing lookup is 500 and a missing replacer 404, touching nothing; a found one whose delete throws is 500 with nothing touched; otherwise its file is deleted first, and the answer is 200 if and only if hot reload is off or the registry key can be derived, and then that key is dropped |
| TreeApiHandler.TreeIds | src/main/java/savage/tree_engine/web/TreeApiHandler.java:202-216 | the ids listed are exactly the regular `.json` files' names with every `.json` removed |
| TreeApiHandler.SavedTreeListed | src/main/java/savage/tree_engine/web/TreeApiHandler.java:202-216 | the file a save writes for a valid id is listed as that id (with line 299) |
| TreeApiHandler.ListTreesResponse | src/main/java/savage/tree_engine/web/TreeApiHandler.java:202-216 | `handleList`: 200 exactly when `createDirectories` and `Files.list` both complete, and then an array holding exactly the regular `.json` files' names with every `.json` removed, no longer than the listing; otherwise the 500 "Failed to list trees" |
| TreeApiHandler.SavedTreeInListAnswer | src/main/java/savage/tree_engine/web/TreeApiHandler.java:202-216 | the list answer of a listing that completes holds the id of every tree saved under a valid id (with line 299) |
| TreeApiHandler.VanillaTreeIds | src/main/java/savage/tree_engine/web/TreeApiHandler.java:129-145 | an id is collected if and only if it belongs to a minecraft-namespace tree or random-patch entry |
| TreeApiHandler.LexTotal | src/main/java/savage/tree_engine/web/TreeApiHandler.java:148 | string order is total |
| TreeApiHandler.Insert | src/main/java/savage/tree_engine/web/TreeApiHandler.java:148 | inserting adds exactly the one element and keeps a sorted list sorted |
| TreeApiHandler.SortIds | src/main/java/savage/tree_engine/web/TreeApiHandler.java:148 | the result is sorted and a permutation of the input |
| TreeApiHandler.ListVanillaTrees | src/main/java/savage/tree_engine/web/TreeApiHandler.java:118-156 | no registry gives 500; otherwise 200 with the sorted vanilla tree ids |
| TreeReplacerUi.Capitalize | src/main/resources/web/js/components/tree-replacer.js:160 | the first character is upper-cased, the rest kept, the length unchanged |
| TreeReplacerUi.CapitalizeAll | src/main/resources/web/js/components/tree-replacer.js:160 | every word capitalised, in order |
| TreeReplacerUi.RejoinedPieces | src/main/resources/web/js/components/tree-replacer.js:160 | splitting on `_`, capitalising each piece and joining with spaces reads the same as turning each `_` into a space and upper-casing each word's first character |
| TreeReplacerUi.GetTreeDisplayName | src/main/resources/web/js/components/tree-replacer.js:156-161 | the name is the last `:` segment, one character for one, with words titled |
| TreeReplacerUi.DisplayNameOfNamespaced | src/main/resources/web/js/components/tree-replacer.js:157-159 | a namespaced id is named by its path alone |
| TreeReplacerUi.Titled | src/main/resources/web/js/components/tree-replacer.js:160 | the name read character by character keeps its length; its word-by-word reading is stated by `TitledWord` and `TitledAfterWord` |
| TreeReplacerUi.TitledWord | src/main/resources/web/js/components/tree-replacer.js:160 | a single word is shown capitalised |
| TreeReplacerUi.TitledAfterWord | src/main/resources/web/js/components/tree-replacer.js:160 | words separated by `_` are shown separated by a space |
| TreeReplacerUi.TwoWordsShown | src/main/resources/web/js/components/tree-replacer.js:156-161 | any id `ns:a_b` whose words `a`, `b` hold no `_` or `:` is shown as the two words capitalised with a space between (`minecraft:dark_oak` as `Dark Oak`) |
| TreeReplacerUi.ListedType | src/main/resources/web/js/components/tree-replacer.js:118 | a replacer is listed with its own truthy type, else with WEIGHTED |
| TreeReplacerUi.WithDefaultType | src/main/resources/web/js/components/tree-replacer.js:174-178 | the copy opened for editing keeps a truthy type and every other member, and gets a type in any case |
| TreeReplacerUi.EditedTypeIsListedType | src/main/resources/web/js/components/tree-replacer.js:176-178 | the form edits a replacer with the type the list shows for it (with line 118) |
| TreeReplacerUi.KeptAlternatives | src/main/resources/web/js/components/tree-replacer.js:400-407 | every kept alternative names a tree and has a chance in (0, 1] |
| TreeReplacerUi.AllValidRowsKept | src/main/resources/web/js/components/tree-replacer.js:400-407 | rows that all name a tree with a chance in (0, 1] are all kept, in order and with their chances |
| TreeReplacerUi.InvalidRowDropped | src/main/resources/web/js/components/tree-replacer.js:402-406 | a row without a tree, or whose chance is NaN or outside (0, 1], adds nothing |
| TreeReplacerUi.ChanceSum | src/main/resources/web/js/components/tree-replacer.js:410 | the total of positive chances is non-negative, and positive when there is one |
| TreeReplacerUi.AlternativesJson | src/main/resources/web/js/components/tree-replacer.js:405 | one `{chance, feature}` object per kept alternative, in order |
| TreeReplacerUi.ChosenFeatures | src/main/resources/web/js/components/tree-replacer.js:424-429 | the pool is exactly the non-empty selections, in order |
| TreeReplacerUi.Strings | src/main/resources/web/js/components/tree-replacer.js:437 | the pool as a JSON array of the same strings |
| TreeReplacerUi.WithTreeLookups | src/main/resources/web/js/components/tree-replacer.js:376-378 | the vanilla tree is the select's for a new replacer and the replacer's own for an existing one; nothing else changes |
| TreeReplacerUi.WeightedBodyLookups | src/main/resources/web/js/components/tree-replacer.js:396 | the WEIGHTED save sets `default_tree` and `alternatives`, deletes `features` and `replacement_pool`, and keeps every other member (with lines 417, 420, 445) |
| TreeReplacerUi.SimpleBodyLookups | src/main/resources/web/js/components/tree-replacer.js:437-445 | the SIMPLE save sets `features`, deletes `default_tree`, `alternatives` and `replacement_pool`, and keeps every other member |
| TreeReplacerUi.VanillaTreeRequired | src/main/resources/web/js/components/tree-replacer.js:376-382 | the save stops with "Please select a vanilla tree to replace" if and only if the replacer has no vanilla tree |
| TreeReplacerUi.WeightedPostedIff | src/main/resources/web/js/components/tree-replacer.js:379-417 | a WEIGHTED replacer is posted if and only if it has a vanilla tree and a default tree, and its kept chances sum to at most 1 |
| TreeReplacerUi.SimplePostedIff | src/main/resources/web/js/components/tree-replacer.js:379-437 | a SIMPLE replacer is posted if and only if it has a vanilla tree and at least one tree is selected |
| TreeReplacerUi.TypedLookups | src/main/resources/web/js/components/tree-replacer.js:376-385 | after the first steps the vanilla tree and the type are set and every other member is as it was |
| TreeReplacerUi.OwnKeysNotDeleted | src/main/resources/web/js/components/tree-replacer.js:420-445 | the deletions of either kind never touch `vanilla_tree_id` or `type` |
| TreeReplacerUi.OwnKeysKept | src/main/resources/web/js/components/tree-replacer.js:420-445 | the vanilla tree and the type survive the deletions (with lines 377, 385) |
| TreeReplacerUi.OthersKept | src/main/resources/web/js/components/tree-replacer.js:371-445 | members the save neither sets nor deletes keep their values |
| TreeReplacerUi.WeightedShape | src/main/resources/web/js/components/tree-replacer.js:376-445 | the whole posted WEIGHTED body: vanilla tree, type, default tree, the kept alternatives, no `features` or `replacement_pool`, and every other member unchanged |
| TreeReplacerUi.SimpleShape | src/main/resources/web/js/components/tree-replacer.js:376-445 | the whole posted SIMPLE body: vanilla tree, type, the pool, no `default_tree`, `alternatives` or `replacement_pool`, and every other member unchanged |
| TreeReplacerUi.WeightedPosted | src/main/resources/web/js/components/tree-replacer.js:371-445 | a WEIGHTED replacer that passes the checks is posted with exactly that shape |
| TreeReplacerUi.SimplePosted | src/main/resources/web/js/components/tree-replacer.js:371-445 | a SIMPLE replacer that passes the checks is posted with exactly that shape |
| TreeReplacerUi.SelectedValue | src/main/resources/web/js/components/tree-replacer.js:301-325 | a new row's select shows the offered option equal to the given tree, or else the empty option |
| TreeReplacerUi.ChanceShown | src/main/resources/web/js/components/tree-replacer.js:292-305 | a stored `chance` is rendered as given (a `null` one as `null`); an entry without one gets the default 0.1 (with line 363) |
| TreeReplacerUi.LoadedRows | src/main/resources/web/js/components/tree-replacer.js:361-365 | one row per stored alternative, each selecting an offered custom tree or nothing and showing that entry's chance text; no rows without custom trees or alternatives |
| TreeReplacerUi.LoadedPool | src/main/resources/web/js/components/tree-replacer.js:335-346 | every pool row shows an offered tree or nothing |
| TreeReplacerUi.ReplacerForm.constructor | src/main/resources/web/js/components/tree-replacer.js:7-13 | a panel with no replacer being edited and no rows |
| TreeReplacerUi.ReplacerForm.AddAlternative | src/main/resources/web/js/components/tree-replacer.js:292-312 | without an open form or custom trees nothing changes; otherwise exactly one row is appended |
| TreeReplacerUi.ReplacerForm.AddSimplePoolEntry | src/main/resources/web/js/components/tree-replacer.js:314-333 | without an open form or custom trees nothing changes; otherwise exactly one pool row is appended |
| TreeReplacerUi.ReplacerForm.RemoveAlternative | src/main/resources/web/js/components/tree-replacer.js:308-310 | exactly that row is removed |
| TreeReplacerUi.ReplacerForm.RemovePoolEntry | src/main/resources/web/js/components/tree-replacer.js:329-331 | exactly that pool row is removed |
| TreeReplacerUi.ReplacerForm.RenderForm | src/main/resources/web/js/components/tree-replacer.js:182-278 | the form opens with one row per stored alternative and, for a SIMPLE replacer, one per pool tree (with lines 335-369) |
| TreeReplacerUi.ReplacerForm.ShowCreateReplacerForm | src/main/resources/web/js/components/tree-replacer.js:163-172 | a blank WEIGHTED replacer with empty rows |
| TreeReplacerUi.ReplacerForm.EditReplacer | src/main/resources/web/js/components/tree-replacer.js:174-180 | the stored replacer with its type defaulted, and its rows loaded |
| TreeReplacerUi.ReplacerForm.Cancel | src/main/resources/web/js/components/tree-replacer.js:259-262 | the form is closed and emptied |
| TreeReplacerUi.ReplacerForm.SaveReplacer | src/main/resources/web/js/components/tree-replacer.js:371-489 | an alert leaves the replacer as far as the checks got; an accepted post closes the form with the status message; a refused one keeps it open with the server's error |
| TreeReplacerUi.Checked | src/main/resources/web/js/components/tree-replacer.js:371-445 | the replacer as `saveReplacer` leaves it and where its checks end; stated by `VanillaTreeRequired`, `WeightedPostedIff`, `SimplePostedIff`, `WeightedPosted` and `SimplePosted` |
| TreeReplacerUi.Prepare | src/main/resources/web/js/components/tree-replacer.js:376-445 | the step-by-step updates and checks end where `Checked` says, and a posted body is the updated replacer |
| TreeReplacerUi.CollectAlternatives | src/main/resources/web/js/components/tree-replacer.js:399-407 | the loop keeps exactly the alternatives `KeptAlternatives` describes |
| TreeReplacerUi.Total | src/main/resources/web/js/components/tree-replacer.js:410 | the loop's total is the sum of the chances |
| TreeReplacerUi.CollectFeatures | src/main/resources/web/js/components/tree-replacer.js:423-429 | the loop keeps exactly the non-empty selections, in order |
| TreeManager.FilterTrees | src/main/resources/web/js/components/tree-manager.js:35-43 | an id is listed if and only if it is in the library and contains the filter, ignoring case |
| TreeManager.FilterTreesAppend | src/main/resources/web/js/components/tree-manager.js:41-45 | the filter keeps list order: filtering two parts filters each and concatenates |
| TreeManager.EmptyFilterKeepsAll | src/main/resources/web/js/components/tree-manager.js:35-43 | the empty filter the list is first drawn with keeps every id |
| TreeManager.FilterIgnoresCase | src/main/resources/web/js/components/tree-manager.js:42 | the filter's own case does not change the list |
| TreeManager.VanillaDisplayName | src/main/resources/web/js/components/tree-manager.js:427 | an id outside the minecraft namespace is shown whole |
| TreeManager.DisplayNameOfMinecraftId | src/main/resources/web/js/components/tree-manager.js:427 | `minecraft:<path>` is shown as its path |
| TreeManager.DisplayNameKeepsOtherNamespaces | src/main/resources/web/js/components/tree-manager.js:427 | another namespace's id is shown with its namespace |
| TreeManager.ImportName | src/main/resources/web/js/components/tree-manager.js:459 | a colon-free id names the imported tree by itself |
| TreeManager.ImportNameOfNamespaced | src/main/resources/web/js/components/tree-manager.js:459 | a namespaced id with a non-empty path names the imported tree by its path |
| TreeManager.ImportNameEmptyPath | src/main/resources/web/js/components/tree-manager.js:459 | an empty path falls back to the whole id |
| TreeManager.BenchmarkIterations | src/main/resources/web/js/components/tree-manager.js:519 | the count is never 0: the parsed number when it is a non-zero number, else 1000 |
| TreeManager.BenchmarkIterationsOf | src/main/resources/web/js/components/tree-manager.js:519 | a typed positive count is used as typed |
| TreeManager.BenchmarkIterationsOfZeros | src/main/resources/web/js/components/tree-manager.js:519 | any field of zeros ("0", "000") falls back to 1000 |
| TreeManager.BenchmarkIterationsOfNaN | src/main/resources/web/js/components/tree-manager.js:519 | an empty field, or any field starting with no digit, sign or white space, falls back to 1000 |
| TreeManager.ZerosValue | src/main/resources/web/js/components/tree-manager.js:519 | a run of zeros has the value 0 |
| TreeManager.ValidateName | src/main/resources/web/js/components/tree-manager.js:232-242 | an empty trimmed name gets "Please enter a tree name"; the name is accepted if and only if its trimmed form is non-empty letters, digits and `_`, and is then that trimmed form |
| TreeManager.SaveId | src/main/resources/web/js/components/tree-manager.js:271 | the lower-cased name has the same length, is still an identifier and is lower case |
| TreeManager.SaveIdAcceptedIff | src/main/resources/web/js/components/tree-manager.js:239-271 | the server accepts the saved id if and only if the name has at most 100 characters, a bound the editor does not check |
| TreeManager.SaveIdRoutesToSave | src/main/resources/web/js/components/tree-manager.js:274-275 | the POST reaches the server's save route |
| TreeManager.BodyToSend | src/main/resources/web/js/components/tree-manager.js:263-268 | with no tree the default document is sent; a truthy `id` is removed and every other member kept; otherwise the tree is sent as it is |
| TreeManager.SyncEditor | src/main/resources/web/js/components/tree-manager.js:245-261 | with the editor closed the values stay; with it open, unparsable text refuses the save, and parsed text replaces the tree or the placement by the editor's mode |
| TreeManager.PlacementPostUnanswered | src/main/resources/web/js/components/tree-manager.js:308-317 | the placement is posted to a path the server has no route for, so it is never answered |
| TreeManager.Library.constructor | src/main/resources/web/js/components/tree-manager.js:2-6 | an empty library with nothing selected |
| TreeManager.Library.SaveCurrentTree | src/main/resources/web/js/components/tree-manager.js:231-318 | a bad name or unparsable editor text is refused with nothing changed; otherwise the body goes to the lower-cased id; success selects the saved id, keeps the body, reloads the list and alerts whether the hot reload went through; an answer that is not ok alerts "Failed to save tree: " with its text, and a thrown fetch error alerts "Error saving tree: " with its message, both leaving selection and list as they were; a set placement is posted afterwards in every case |
| WebMain.FeatureJson | src/main/resources/web/main.js:157-180 | nothing is posted if and only if neither a loaded tree nor a form exists; a loaded tree is posted as it is; otherwise the form's values go in a `minecraft:tree` wrapper |
| WebMain.WithoutAir | src/main/resources/web/main.js:192 | exactly the blocks that are not `minecraft:air` are kept |
| WebMain.FirstAt | src/main/resources/web/main.js:196-199 | the first block at a position, or -1 when none is there |
| WebMain.LastAt | src/main/resources/web/main.js:196-199 | the last block at a position, or -1 when none is there |
| WebMain.Positions | src/main/resources/web/main.js:195-200 | the map's keys: each occupied position once, in first-appearance order |
| WebMain.Latest | src/main/resources/web/main.js:196-199 | the map's values: for each occupied position, the last block set there |
| WebMain.FirstLastAgree | src/main/resources/web/main.js:196-199 | a position has a first block if and only if it has a last one |
| WebMain.Deduplicated | src/main/resources/web/main.js:200 | one block per position, in first-appearance order, and that block is the last at its position |
| WebMain.DeduplicatedShape | src/main/resources/web/main.js:194-200 | the shown blocks sit at distinct positions, cover every position of the answer, are each the last block there, and none is new |
| WebMain.LatestOfPositions | src/main/resources/web/main.js:195-200 | every key has its last block as value, and every block's position is a key |
| WebMain.PositionsBound | src/main/resources/web/main.js:195-200 | there are no more positions than blocks |
| WebMain.DeduplicateBlocks | src/main/resources/web/main.js:195-200 | the `forEach` filling the map and the read-out give the de-duplicated blocks |
| WebMain.WithoutAirSnoc | src/main/resources/web/main.js:192 | the air filter of a longer answer is the filter of its prefix, then the new block unless it is air |
| WebMain.TrailingAirDropped | src/main/resources/web/main.js:192 | air blocks appended to any answer are all dropped |
| WebMain.AirDoesNotHide | src/main/resources/web/main.js:192-200 | air is dropped before de-duplication: appending air blocks to any answer, even at its positions, leaves what is shown unchanged |
| WebMain.LastBlockWins | src/main/resources/web/main.js:192-200 | of any non-empty run of non-air blocks all at one position, only the last is shown |
| WebMain.SinglePosition | src/main/resources/web/main.js:195-200 | blocks all at one position show as the last of them |
| WebMain.NonAirKept | src/main/resources/web/main.js:192 | an answer with no air block passes the filter unchanged, in order |
| WebMain.OnePosition | src/main/resources/web/main.js:197 | a non-empty answer whose blocks share one position yields that position as the single key |
| WebMain.GenerateTree | src/main/resources/web/main.js:151-210 | no body means no request and "Error: No tree data"; an answer that is not ok reports "Error: API Error: " and its text; a thrown error reports "Error: " and its message; otherwise the shown blocks are rendered and counted after air filtering and de-duplication |
| WebApi.AuthToken | src/main/resources/web/js/services/api.js:4-6 | the stored token, or the empty string when none is stored |
| WebApi.Header | src/main/resources/web/js/services/api.js:12-19 | a header is found if and only if one with that name was built |
| WebApi.GetAuthHeaders | src/main/resources/web/js/services/api.js:12-19 | the JSON content type always; an `Authorization: Bearer <token>` header if and only if the stored token is non-empty |
| WebApi.HeadersReachFilter | src/main/resources/web/js/services/api.js:12-19 | the server's filter extracts exactly the stored token from these headers, and finds none when nothing is stored |
| WebApi.Children | src/main/resources/web/js/services/api.js:48-53 | the values the `for … in` loop visits: an array's items or an object's member values, each smaller than the whole |
| WebApi.OwnTrunk | src/main/resources/web/js/services/api.js:29-31 | at most one trunk name per object |
| WebApi.EntryNamesStep | src/main/resources/web/js/services/api.js:40-44 | each weighted entry adds its own block name |
| WebApi.Trunks | src/main/resources/web/js/services/api.js:25-54 | every trunk provider's block name at any depth of the scanned value; stated by the lemmas below |
| WebApi.Foliage | src/main/resources/web/js/services/api.js:25-54 | every foliage provider's block name at any depth; stated by the lemmas below |
| WebApi.Throws | src/main/resources/web/js/services/api.js:25-54 | whether the scan meets a foliage provider with a null entry, where the JavaScript throws; stated by the lemmas below |
| WebApi.NestedNamesFound | src/main/resources/web/js/services/api.js:48-53 | names and throws found in a nested value are found in the enclosing one |
| WebApi.TrunkNameFound | src/main/resources/web/js/services/api.js:29-31 | a truthy trunk-provider state name at the top is collected |
| WebApi.EntryNamesFound | src/main/resources/web/js/services/api.js:39-44 | every truthy weighted entry name is collected as foliage |
| WebApi.BlockTypes.constructor | src/main/resources/web/js/services/api.js:23 | both sets start empty |
| WebApi.BlockTypes.AddFoliage | src/main/resources/web/js/services/api.js:34-46 | the foliage provider's state name and each entry's name are added, or a null entry throws; trunks are left alone |
| WebApi.BlockTypes.Scan | src/main/resources/web/js/services/api.js:25-54 | the recursive scan adds exactly the names found at any depth, or throws exactly when some foliage provider has a null entry |
| WebApi.BlockTypes.ScanNested | src/main/resources/web/js/services/api.js:48-53 | each nested value is scanned in turn, stopping at the first throw |
| WebApi.ScanUnfold | src/main/resources/web/js/services/api.js:25-54 | a value's names and throw are its own part plus those of its nested values |
| WebApi.NestedThrowsStep | src/main/resources/web/js/services/api.js:49-52 | one more nested value throws the loop if and only if its scan throws |
| WebApi.NestedTrunksStep | src/main/resources/web/js/services/api.js:49-52 | one more nested value adds its trunk names |
| WebApi.NestedFoliageStep | src/main/resources/web/js/services/api.js:49-52 | one more nested value adds its foliage names |
| WebApi.ExtractBlockTypes | src/main/resources/web/js/services/api.js:22-58 | the trunk and foliage names at every depth, or a throw if and only if a null weighted entry is met |
| WebApi.Response.constructor | src/main/resources/web/js/services/api.js:77-81 | a fresh response whose body is unread |
| WebApi.Response.ReadJson | src/main/resources/web/js/services/api.js:90-108 | the first read gives the parsed body or a JSON error; any later read is rejected |
| WebApi.Response.ReadText | src/main/resources/web/js/services/api.js:104 | the first read gives the text; any later read is rejected |
| WebApi.Success | src/main/resources/web/js/services/api.js:108-114 | an ok reply renders exactly its non-air blocks, with no de-duplication |
| WebApi.FailureAsWritten | src/main/resources/web/js/services/api.js:87-106 | as written, only an error with details survives; every other failure reads the used body again |
| WebApi.Failure | src/main/resources/web/js/services/api.js:87-106 | read once, a failure never ends with a second read; a detailed error ends as written; a non-JSON body gives "API Error: " and its text |
| WebApi.GenerateTreeAsWritten | src/main/resources/web/js/services/api.js:60-159 | no loaded tree means no request; a rejected fetch ends with its own message; 401 throws the authentication message; a reply that is not ok ends as written; an ok one renders without air |
| WebApi.GenerateTree | src/main/resources/web/js/services/api.js:60-159 | the same flow, the rejected fetch included, with the error body read once, so the server's message reaches the status line |
| WebApi.ErrorMessageLostAsWritten | src/main/resources/web/js/services/api.js:87-106 | for every message of the generate handler's 500 answer `{"error": "<message>"}` (with WebEditorServer.java lines 151-157), JSON or not: as written it ends with a second read of the body; read once, a non-empty message is shown as it is, and an unparsable body or an empty message as "API Error: " and the text |
| WebApi.ServiceKeepsDuplicates | src/main/resources/web/js/services/api.js:108-113 | for any non-empty run of non-air blocks at one position, the service keeps them all while the editor\'s main view shows only the last |
| SchemaForm.Spaced | src/main/resources/web/forms/schema-form.js:346 | each `_` becomes a space and every other character is kept |
| SchemaForm.UpperWordStarts | src/main/resources/web/forms/schema-form.js:347 | the length is kept |
| SchemaForm.ToDisplayName | src/main/resources/web/forms/schema-form.js:344-348 | the label has the key's length |
| SchemaForm.DisplayNameChars | src/main/resources/web/forms/schema-form.js:344-348 | read on the key: `_` becomes a space, a letter or digit that starts the key or follows a non-alphanumeric character is upper-cased, nothing else changes, and no `_` is left |
| SchemaForm.DisplayNameIdempotent | src/main/resources/web/forms/schema-form.js:344-348 | a label is its own label |
| SchemaForm.AgreesWithReplacerNames | src/main/resources/web/forms/schema-form.js:344-348 | on identifiers of letters, digits and `_` the form's labels equal the replacer panel's names |
| SchemaForm.HyphenStartsAWord | src/main/resources/web/forms/schema-form.js:347 | after a hyphen they differ: the form shows `A-B` where the panel shows `A-b` |
| SchemaForm.FirstOccurrence | src/main/resources/web/forms/schema-form.js:77 | the first index at which the pattern occurs, or -1 when it occurs nowhere |
| SchemaForm.OptionText | src/main/resources/web/forms/schema-form.js:77 | an option's label: the text with its first `minecraft:` removed; stated by the two lemmas below |
| SchemaForm.OptionTextOfVanillaId | src/main/resources/web/forms/schema-form.js:77 | an option `minecraft:<path>` is labelled by its path |
| SchemaForm.OptionTextWithoutNamespace | src/main/resources/web/forms/schema-form.js:77 | an option without `minecraft:` is labelled by itself |
| SchemaForm.IntegerOf | src/main/resources/web/forms/schema-form.js:237 | the parsed integer, or 0 for text with no leading digits |
| SchemaForm.NumberOf | src/main/resources/web/forms/schema-form.js:239 | the parsed number, or 0 for NaN |
| SchemaForm.FieldIndex | src/main/resources/web/forms/schema-form.js:265-270 | the first child wrapper with the key, or -1 when there is none |
| SchemaForm.FieldValue | src/main/resources/web/forms/schema-form.js:229-255 | `undefined` comes only from an object field; null only from raw JSON text that does not parse or is `null` |
| SchemaForm.SubValue | src/main/resources/web/forms/schema-form.js:272-287 | a property contributes only a kept value: not null, not `undefined`, not an empty object |
| SchemaForm.EntryKeys | src/main/resources/web/forms/schema-form.js:262 | the property keys, in order |
| SchemaForm.ObjectMembersShape | src/main/resources/web/forms/schema-form.js:257-289 | every collected member is a property of the definition with a kept value, and nothing is collected if and only if no property contributes |
| SchemaForm.ObjectMembersLookup | src/main/resources/web/forms/schema-form.js:257-289 | with distinct keys, each property's member holds what it contributes and no other key is present |
| SchemaForm.ObjectValue | src/main/resources/web/forms/schema-form.js:257-296 | `extractObjectValue`: the collected object, or `undefined` when no property contributes; stated by `ObjectValueShape` |
| SchemaForm.ObjectValueShape | src/main/resources/web/forms/schema-form.js:257-296 | `undefined` if and only if no property contributes; otherwise a non-empty object of kept property values |
| SchemaForm.ArrayValue | src/main/resources/web/forms/schema-form.js:298-342 | `extractArrayValue`: the values of the `array-item` children, nulls dropped, empty without an items list; stated by the lemmas below |
| SchemaForm.ArrayItemsAppend | src/main/resources/web/forms/schema-form.js:304-339 | values follow the order of the items |
| SchemaForm.ArrayItemsBounded | src/main/resources/web/forms/schema-form.js:336-338 | no null is pushed and at most one value per item |
| SchemaForm.AllItemsKept | src/main/resources/web/forms/schema-form.js:304-339 | when every item yields a value, the array holds all of them in item order |
| SchemaForm.FindInFields | src/main/resources/web/forms/schema-form.js:216 | a document-order search finds a wrapper with the asked key |
| SchemaForm.FindInField | src/main/resources/web/forms/schema-form.js:216 | the search inside one wrapper finds a wrapper with the asked key |
| SchemaForm.FindInControl | src/main/resources/web/forms/schema-form.js:216 | the search inside one control finds a wrapper with the asked key |
| SchemaForm.FindInItems | src/main/resources/web/forms/schema-form.js:216 | the search inside array items finds a wrapper with the asked key |
| SchemaForm.ValuesAsWritten | src/main/resources/web/forms/schema-form.js:211-227 | `extractValues` as written, each key's wrapper searched for anywhere in the container; stated by the lemmas below and by `NestedKeyShadowsField` |
| SchemaForm.ValuesAsWrittenKeys | src/main/resources/web/forms/schema-form.js:211-227 | as written, only keys of the definition are added |
| SchemaForm.LastKeyAsWritten | src/main/resources/web/forms/schema-form.js:215-224 | as written, the last property holds the value of the wrapper found anywhere in the container |
| SchemaForm.Values | src/main/resources/web/forms/schema-form.js:211-227 | `extractValues` with each key read from its own top-level wrapper, the corrected reading; stated by `ValuesLookup` and `FormRoundTrip` |
| SchemaForm.LastKeyValue | src/main/resources/web/forms/schema-form.js:215-224 | read by top-level wrappers, the last property holds its own wrapper's value |
| SchemaForm.ValuesAt | src/main/resources/web/forms/schema-form.js:215-224 | read by top-level wrappers, property `i` is present if and only if its wrapper holds a control, and then holds that control's value |
| SchemaForm.ValuesKeys | src/main/resources/web/forms/schema-form.js:211-227 | read by top-level wrappers, only keys of the definition are added |
| SchemaForm.ValuesLookup | src/main/resources/web/forms/schema-form.js:211-227 | with distinct keys, the config has exactly the keys whose top-level wrapper holds a control, each with its own control's value by its own definition, and no other key |
| SchemaForm.NestedKeyShadowsField | src/main/resources/web/forms/schema-form.js:216 | for an object field `a` with a sub-field `size` followed by a field `size`, the code as written reads 5 from `a.size` where the form holds 7 for `size` |
| SchemaForm.FindChildField | src/main/resources/web/forms/schema-form.js:264-270 | the loop over the children stops at the first wrapper with the key |
| SchemaForm.ExtractFieldValue | src/main/resources/web/forms/schema-form.js:229-255 | the branch taken is the one `FieldValue` specifies |
| SchemaForm.ExtractObjectValue | src/main/resources/web/forms/schema-form.js:257-296 | the loop with `hasKeys` gives `ObjectValue` |
| SchemaForm.ExtractProperty | src/main/resources/web/forms/schema-form.js:262-288 | one pass adds the property if and only if it contributes, and then the object is non-empty |
| SchemaForm.ExtractArrayValue | src/main/resources/web/forms/schema-form.js:298-342 | the loop over `.array-items` gives `ArrayValue` |
| SchemaForm.ExtractValues | src/main/resources/web/forms/schema-form.js:211-227 | the loop gives the as-written values, each key's wrapper found anywhere in the container |
| SchemaForm.WidgetOf | src/main/resources/web/forms/schema-form.js:44-62 | a select if and only if there is an enum, a number input if and only if an integer or number type without an enum, and the raw JSON textarea if and only if no known branch applies |
| SchemaForm.SelectedValue | src/main/resources/web/forms/schema-form.js:70-85 | the select shows the stored option when it is one of the options, and "" when there are none |
| SchemaForm.BuildControl | src/main/resources/web/forms/schema-form.js:31-68 | `createField`'s control for a definition and a stored value; read back by the round-trip lemmas below |
| SchemaForm.BuildFields | src/main/resources/web/forms/schema-form.js:115-134 | one wrapper per property, in order, each with the control built for the property's stored member (with lines 14-26) |
| SchemaForm.BuildItems | src/main/resources/web/forms/schema-form.js:168-197 | one item per stored value (with lines 149-153) |
| SchemaForm.CheckboxRoundTrip | src/main/resources/web/forms/schema-form.js:87-93 | a stored boolean is read back (with lines 50, 234-235) |
| SchemaForm.SelectRoundTrip | src/main/resources/web/forms/schema-form.js:70-85 | a stored non-empty enum option is read back (with lines 48, 232-233) |
| SchemaForm.TextRoundTrip | src/main/resources/web/forms/schema-form.js:107-113 | a stored non-empty string is read back (with lines 54, 240-241) |
| SchemaForm.EmptyTextTakesDefault | src/main/resources/web/forms/schema-form.js:54 | a stored empty string is shown, and read back, as the string default |
| SchemaForm.IntegerRoundTrip | src/main/resources/web/forms/schema-form.js:95-105 | a stored non-negative integer is read back (with lines 52, 236-237) |
| SchemaForm.RawJsonRoundTrip | src/main/resources/web/forms/schema-form.js:199-206 | a raw JSON value is read back when parsing undoes `JSON.stringify` (with lines 61, 246-253) |
| SchemaForm.BuildForm | src/main/resources/web/forms/schema-form.js:14-26 | `buildForm`: one wrapper per property of the schema, each built from the stored member; read back by `FormRoundTrip` |
| SchemaForm.BuiltFieldsFound | src/main/resources/web/forms/schema-form.js:14-26 | with distinct keys, each property's own wrapper is the direct child found for its key |
| SchemaForm.FormRoundTrip | src/main/resources/web/forms/schema-form.js:211-227 | reading a built form back by top-level wrappers gives every property, with the value its built control reads as (with lines 14-26) |
| EditorManager.WithSlot | src/main/resources/web/js/components/editor-manager.js:45-49 | only the value behind the given tab changes (with lines 100-104, 120-124) |
| EditorManager.AfterSwitchTab | src/main/resources/web/js/components/editor-manager.js:113-154 | switching to the current tab, or with text that does not parse, changes nothing; otherwise the text is stored behind the old tab, the new tab is current, the editor is muted and shows the new tab's value or `{}` |
| EditorManager.AfterOpen | src/main/resources/web/js/components/editor-manager.js:70-90 | the panel opens on TREE; with an editor and a set tree value the editor shows that value, muted; neither value changes |
| EditorManager.AfterClose | src/main/resources/web/js/components/editor-manager.js:92-111 | text that parses is stored behind the current tab and the panel closes; text that does not parse keeps both values and the panel open |
| EditorManager.OtherMode | src/main/resources/web/js/components/editor-manager.js:64 | the other tab is a different tab |
| EditorManager.AfterChange | src/main/resources/web/js/components/editor-manager.js:27-39 | a muted edit is ignored; otherwise the debounce timer is started |
| EditorManager.AfterChangeSettled | src/main/resources/web/js/components/editor-manager.js:39-58 | parsed text goes behind the current tab; the preview is regenerated if and only if text is pending, parses and the tab is TREE; text that does not parse changes no value |
| EditorManager.PlacementEditsDoNotRegenerate | src/main/resources/web/js/components/editor-manager.js:45-53 | an edit on the PLACEMENT tab never regenerates the preview |
| EditorManager.MutedEditIgnored | src/main/resources/web/js/components/editor-manager.js:29-31 | a muted edit settles into nothing |
| EditorManager.SwitchThereAndBack | src/main/resources/web/js/components/editor-manager.js:113-154 | going to the other tab and straight back stores the text behind the first tab and shows that value again, and the other tab's unset value becomes `{}` |
| EditorManager.Editor.constructor | src/main/resources/web/js/components/editor-manager.js:2-7 | TREE, not muted, no editor yet |
| EditorManager.Editor.Load | src/main/resources/web/js/components/editor-manager.js:13-23 | the editor loads with the text `{}` |
| EditorManager.Editor.StoreCurrent | src/main/resources/web/js/components/editor-manager.js:100-104 | the value behind the current tab is replaced, nothing else |
| EditorManager.Editor.SwitchTab | src/main/resources/web/js/components/editor-manager.js:113-154 | the new state is the one `AfterSwitchTab` describes |
| EditorManager.Editor.OpenJsonEditor | src/main/resources/web/js/components/editor-manager.js:70-90 | the new state is the one `AfterOpen` describes |
| EditorManager.Editor.CloseJsonEditor | src/main/resources/web/js/components/editor-manager.js:92-111 | the new state is the one `AfterClose` describes |
| EditorManager.Editor.ContentChanged | src/main/resources/web/js/components/editor-manager.js:27-39 | the new state is the one `AfterChange` describes |
| EditorManager.AfterMuteElapsed | src/main/resources/web/js/components/editor-manager.js:86-88 | the state after the mute timer: the editor is no longer muted; the method `MuteElapsed` is proved to reach it |
| EditorManager.Editor.MuteElapsed | src/main/resources/web/js/components/editor-manager.js:86-88 | the editor is no longer muted (with lines 151-153) |
| EditorManager.Editor.ChangeSettled | src/main/resources/web/js/components/editor-manager.js:39-58 | the new state and the regeneration are the ones `AfterChangeSettled` describes |

## Left out

- File-system effects (`Files.*`, writers, zip reading, directory listing, directory creation) are inputs and effects. Existing files, listings and what reads return are parameters, and writes and deletes are returned as effects. In the web handler, an `IOException` is an `Io` parameter naming the first file-system call that throws, counted in source order, and the model states the error answer and the writes made before it.
- What a write leaves in its file when it throws partway is not modelled: a write that throws is not among the effects.
- HTTP plumbing is left out: `sendResponse`, `sendError`, header writing, byte encoding, the static file handler, and server start, stop and reload. A response is its status and body.
- Logging and console output are left out.
- Minecraft APIs are parameters or left out: `ConfiguredFeature.CODEC` parse and encode, `RegistryOps`, the block registry, `Identifier` parsing and `Feature.generate`. A decode result is a parameter, and a canonical identifier is a string.
- `handleGetVanillaTree` is modelled only as a route: its body is an encode by the Minecraft codec.
- `handleListReplacers` and `handleGetReplacer` are modelled only as routes. Their bodies are Gson renderings of the replacer objects; the lookup they share with delete is modelled.
- `handleHotReload` and the `reloadAll*` loops of the web handler are modelled only as a route. They re-read every file and call the registry patcher, whose per-entry behaviour is modelled.
- Java reflection mechanics (`setAccessible`, final fields, `getDeclaredFields` order) are left out. A config object is a class name plus named field slots with a static flag, and a field copy can fail as a parameter.
- JSON text is not parsed or printed. Gson, `JSON.parse`, `JSON.stringify`, `String()`, `parseFloat`, `toFixed` and the text Gson keeps for a number literal are parameters; the model works on the JSON tree.
- JSON and JavaScript numbers are exact reals. Double rounding is not modelled, so a chance sum is exact.
- TreeReplacerUi.LoadedRows: a `null` entry in a stored `alternatives` list makes `alt.feature` throw a TypeError, which ends `populateReplacerData`; the model gives that entry a default row instead.
- PhantomWorld.PhantomWorld.GetPlacedBlocks: Java hands out the live `ArrayList` itself, so a caller's later writes to the world show through the list it was given; the model answers a copy of the log at the time of the call, so that aliasing is not captured.
- TreeReplacerUi.ChanceShown: the chance input is an `<input type=number>`, which the browser sanitises: a stored chance that is not a valid floating-point number (such as "0.5abc") is shown and read back as "". The model keeps the text as given, so that sanitising is not captured.
- SchemaForm.BuildControl: its integer and number inputs are `<input type=number>` too, and the same sanitising is not captured; the model reads their text with `parseInt`/`parseFloat` as written.
- TreeReplacerUi.ChanceSum: the sum is exact rather than a sum of doubles, so totals just above 1.0 by rounding are not captured.
- The cherry foliage placer's float parameters are left out, because they are floating-point constants.
- Case mapping covers ASCII letters only (`toLowerCase`, `toUpperCase`, `\w`, `\b`). Every identifier the code checks is ASCII.
- Java `String.length()` is counted in UTF-16 units where a length is checked (the 100-unit id limit). Elsewhere a string is a sequence of code points, so index positions in splitting and trimming count a supplementary character as one.
- `TreeGenerationExecutor` is not part of this model, because its behaviour is concurrency (thread pool, futures, shutdown).
- `WebEditorServer.generateTree` is not part of this model, because it repeats the start-up feature derivation that is modelled.
- The clock and the random source are parameters: `System.currentTimeMillis()` for replacer ids and `SecureRandom` for tokens.
- The `tree_<millis>` fallback id of `handleSave` is not modelled as a value. It is proved unreachable (`TreeApiHandler.CollectionPostRefused`).
- Writing the new token to the configuration file in `initialize` and `regenerateToken` is left out, because it is file I/O.
- `isValidVanillaTreeId`, `modifyRandomFeatureConfig` and `findField` are left out, because no modelled operation calls them.
- `getAll`, `ensurePlacedFeaturesExist` and the replacer directory scans are left out. Only the JSON and path parts of the replacer manager are modelled.
- In the tree library, `selectTree`, `deleteSelected`, `createNewTree`, `openImportModal`, `importVanillaTree` and `runBenchmark` are left out, because they are fetch and DOM flows. Their name and count derivations are modelled.
- In the replacer panel, `loadReplacers`, `renderReplacersPanel`, `renderReplacerItem`, `toggleReplacerSections` and `deleteReplacer` are left out, because they are fetch and DOM flows. The listed type and the display name are modelled.
- `setAuthToken` and `fetchTexturePacks` in the API service are left out, because they are local-storage and fetch wrappers.
- All rendering is left out: the Babylon scene, `renderScene`, materials, colours, lighting, and the Monaco editor beyond its text.
- The editor timers are events of their own rather than times: the 100 ms mute reset and the 500 ms debounce.
- The copy of `extractBlockTypesFromFeature` in `main.js` is modelled once, from the API service. The two copies are the same code.
- The schema form's add and delete item buttons are left out, because they are DOM events. A form is modelled as the tree it holds when it is read.
- Minecraft tags and registries beyond a map from id to feature kind are left out. The vanilla-tree list is computed from such a map.

## Findings

| source | as written | input that shows it | evidently intended | confidence | as-written member | corrected member |
|---|---|---|---|---|---|---|
| src/main/java/savage/tree_engine/web/PlacerFactory.java:27 | the cherry trunk's branch start offset is `UniformIntProvider.create(-1, -2)`, a range whose minimum exceeds its maximum | any definition with trunk type `cherry` | a range from -2 to -1 | not executed | PlacerFactory.CherryStartOffsetAsWrittenEmpty | PlacerFactory.TrunkProvidersNonEmpty |
| src/main/resources/web/js/services/api.js:87-108 | a failed answer's body is read with `response.json()` and then read again with `response.text()`, or with `response.json()` after the `if`, so every failure without `details` ends with a second-read TypeError instead of the server's message | the generate handler's 500 answer `{"error": "<message>"}` for any exception message (WebEditorServer.java:151-157) | the server's `error` shown in the status line, and "API Error: " plus the text for a non-JSON body | not executed | WebApi.ErrorMessageLostAsWritten | WebApi.GenerateTree |
| src/main/resources/web/forms/schema-form.js:215-223 | each top-level key's wrapper is looked up with a document-wide `querySelector`, so a nested sub-field with the same key, rendered earlier, is read instead | an object field `a` with a sub-field `size`, followed by a field `size`; the form holds 5 in `a.size` and 7 in `size` | each key read from its own top-level wrapper | not executed | SchemaForm.NestedKeyShadowsField | SchemaForm.ValuesLookup |
