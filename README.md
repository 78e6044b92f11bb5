# CoinKiller course decoder and game catalogue rules, in Dafny

This project models two parts of the CoinKiller level editor.

**The course-area decoder, `Level::Level`** (level.cpp). Given the opened course archive and
an area number, it does the following:

- opens `/course/course<area>.bin`;
- reads the 17-entry (offset, size) block directory;
- resolves the four tileset slots;
- decodes the fixed blocks: area settings, zone bounds and background;
- decodes the record blocks:
  - entrances, zones and locations, read back to back, with the count taken from the block size;
  - sprites, read up to the `0xFFFF` sentinel;
  - paths and progress paths, re-seeked record by record, together with their node tables;
- decodes the background-object layer files 1 and 2.

Every read goes through a byte cursor, `Cursors.Cursor`, a class with a position field. Each
read advances the position or fails with `TruncatedRead`.

The decoder is modelled in two parts:

- **CourseDecoder:** the imperative decoder, one method per block plus `Decode` for the whole area.
- **CourseLayout:** pure specification functions for the same blocks. They give the byte offset
  of every record and node (`EntranceOffset`, `ZoneOffset`, `PathNodeOffset`, …) and the decoded
  value of each block.

Each method is proved to return exactly its block function. The strides of the counted blocks
and the stopping rules of the sentinel streams are stated as lemmas over those functions (closed
forms and sentinel shapes). The path and progress-path strides are part of the block functions'
own closed-form definitions; their frame lemmas say each record depends only on its own bytes.

**The catalogue string rules of `Game`** (game.cpp), in module Game. They cover:

- archive path normalisation for tilesets and levels;
- the course file-name filter `^\d+-\d+\.sarc$`;
- world and level labels with their fall-backs;
- `number:name` and `file:name` table parsing;
- the tileset prefix classification behind both `getTilesetModel` overloads.

The parsing and classification loops are methods, each proved against a function. The
QString operations they use (split, toInt, arg rendering) are in module Text.

Assumptions the model makes:

- **Argument order:** C++ leaves unspecified the order in which several `read16()` arguments of
  one constructor call are evaluated (level.cpp:113, 127, 141, 152, 165, 170, 180, 185, 212). The
  model reads them left to right, which is the order of the fields in the format.
- **Offset arithmetic:** offsets computed as `quint32 + int` wrap modulo 2^32 (`Wrap32`). This
  applies to the tileset slots, the path records and the path nodes.
- **Cursor failures:** a seek or skip past the end of a stream fails like a read does. The
  failure is the decoder's `TruncatedRead`.
- **Zone stride:** the zone loop counts `size / 24` records but consumes 28 bytes per record.
  It is modelled as written. `ZoneStrideOverrun` shows a zone block that fails where an
  entrance block of the same size and place decodes.
- **`unk1`:** `Level::unk1` is written by block 2 (its value at +0x12) and then overwritten by
  block 4 (its value at +0x18). The level keeps block 4's value.
- **Background name:** the background name is read and dropped.

## Model

| member | source | states |
|---|---|---|
| Cursors.Cursor.Seek | level.cpp:43 | moves to an absolute offset inside the stream; an offset past the end fails with TruncatedRead and leaves the position unchanged |
| Cursors.Cursor.Skip | level.cpp:80 | moves forward by n bytes or fails with TruncatedRead when that passes the end |
| Cursors.Cursor.Read8 | level.cpp:98-101 | returns the byte at the position and advances by 1, or fails without moving |
| Cursors.Cursor.Read16 | level.cpp:81 | returns the little-endian 16-bit value at the position and advances by 2, or fails without moving |
| Cursors.Cursor.Read32 | level.cpp:49-50 | returns the little-endian 32-bit value at the position and advances by 4, or fails without moving |
| Cursors.Cursor.ReadStringAscii | level.cpp:59 | reads an n-byte field as the characters before its first NUL and advances by n, or fails without moving |
| Cursors.AsciiZ | level.cpp:59-61 | the field's text is no longer than the field, is empty exactly when the field is empty or starts with NUL, and is exactly the bytes before the first NUL, or the whole field when it has none |
| CourseLayout.HeaderPath | level.cpp:36 | the header stream of an area is named under "/course/course" and ends in ".bin" |
| CourseLayout.HeaderPathInjective | level.cpp:36 | two areas share a header stream name exactly when they are the same area |
| CourseLayout.BgdatPath | level.cpp:197-200 | the stream of a background-object layer is named under "/course/course" and ends in ".bin" |
| CourseLayout.BgdatPathInjective | level.cpp:197-200 | two layer stream names are equal exactly when the area and the layer are both the same, so layers 1 and 2 are distinct files |
| CourseLayout.HeaderNotBgdat | level.cpp:197-200 | no background-object layer stream has the name of a header stream |
| CourseDecoder.ReadDirectory | level.cpp:45-51 | from offset 0 reads 17 (offset, size) pairs, leaving the cursor at 136; fails exactly when the stream is shorter than 136 bytes |
| CourseLayout.DirectoryBlock | level.cpp:45-51 | the directory exists exactly when the stream holds 136 bytes, and then has 17 offsets and 17 sizes; otherwise TruncatedRead |
| CourseLayout.TilesetSlot | level.cpp:56-75 | a slot holds a tileset exactly when its 32-byte name is non-empty and the game finds `/Unit/<name>.sarc`, and then holds that name |
| CourseDecoder.ReadTilesetSlot | level.cpp:56-75 | seeks to `blockOffsets[0] + 32t` and gives the slot, or TruncatedRead exactly when the 32-byte field is not in the stream |
| CourseDecoder.ReadTilesets | level.cpp:54-76 | fills the four slots in order; an unresolved name is an empty slot, never an error |
| CourseLayout.HeaderTilesetsNonFatal | level.cpp:63-74 | whether the game finds a tileset changes neither whether the header decodes nor any field except the tileset slots |
| CourseLayout.LevelTilesetsNonFatal | level.cpp:63-74 | the same for the whole decoded level |
| CourseDecoder.ReadAreaSettings | level.cpp:78-82 | skips 10 bytes of block 1 and returns the 16-bit time limit at +10, leaving the cursor 12 bytes past the block start |
| CourseDecoder.ReadBounds | level.cpp:84-92 | returns the four 32-bit bounds and two 16-bit values of block 2, and on success leaves the cursor 28 bytes past the block start |
| CourseDecoder.ReadBackground | level.cpp:95-106 | returns block 4's id, scroll rates, positions and the value at +0x18, and on success leaves the cursor 28 bytes past the block start, the dropped name included |
| CourseDecoder.ReadEntrance | level.cpp:113-117 | one entrance is the 12 bytes at the position followed by 12 skipped; the cursor advances exactly 24 bytes, or the read fails when fewer than 24 remain |
| CourseDecoder.ReadEntrances | level.cpp:109-118 | returns exactly the entrance block function: `blockSizes[6] / 24` records from the block offset |
| CourseLayout.EntranceRecordsAt | level.cpp:111-118 | entrance k is the record at offset + 24k; n records decode exactly when offset + 24n fits in the stream, else TruncatedRead |
| CourseLayout.EntranceTailIgnored | level.cpp:117 | changing any of the 12 skipped bytes of any entrance record leaves the decoded entrances unchanged |
| CourseLayout.EmptyBlocks | level.cpp:109-189 | a block with size 0 inside the stream decodes to no entrances, zones, locations, paths or progress paths, without error |
| CourseDecoder.ReadSpriteBody | level.cpp:127-134 | after the id, a sprite is 2 converted coordinates, 8 bytes and 10 skipped bytes, 24 bytes in all |
| CourseDecoder.ReadSprites | level.cpp:120-135 | returns exactly the sprite stream from the block offset; the block size is not an input |
| CourseLayout.SpriteStreamOfRecords | level.cpp:122-135 | N non-sentinel records followed by the sentinel decode to exactly those N sprites, in stream order, 24 bytes apart |
| CourseLayout.SpriteStreamShape | level.cpp:122-125 | a decoded stream of N sprites ends at the first sentinel id, found N records (24N bytes) after the block offset, and no earlier record has the sentinel id |
| CourseDecoder.ReadZone | level.cpp:141-145 | one zone is 4 converted 16-bit values followed by 20 skipped bytes; the cursor advances 28 bytes |
| CourseDecoder.ReadZones | level.cpp:137-146 | returns exactly the zone block function: `blockSizes[9] / 24` zones numbered from 0 |
| CourseLayout.ZoneRecordsAt | level.cpp:139-145 | zone k is read at offset + 28k and has id k; n zones decode exactly when offset + 28n fits in the stream |
| CourseLayout.ZoneStrideOverrun | level.cpp:137-146 | a 48-byte zone block ending the stream fails with TruncatedRead, while a 48-byte entrance block there gives 2 entrances |
| CourseDecoder.ReadLocation | level.cpp:152-156 | one location is 4 converted 16-bit values, then the id byte, then 3 skipped bytes; the cursor advances 12 bytes |
| CourseDecoder.ReadLocations | level.cpp:148-157 | returns exactly the location block function: `blockSizes[10] / 12` records back to back |
| CourseLayout.LocationRecordsAt | level.cpp:150-156 | location k is read at offset + 12k and its id is that record's 9th byte; n records decode exactly when offset + 12n fits |
| CourseDecoder.ReadPathNode | level.cpp:169-171 | a path node is read after a seek: 2 converted coordinates and two 32-bit values, or TruncatedRead when its 12 bytes are not in the stream |
| CourseDecoder.ReadPath | level.cpp:162-173 | path p is read from `blockOffsets[13] + 12p`; its node count and node offset are read from the record, and exactly that many nodes follow, node i taken from `blockOffsets[14] + 20i + 20*nodeOffset`; TruncatedRead exactly when the record or a node is outside the stream |
| CourseDecoder.ReadPaths | level.cpp:159-174 | returns exactly the path block function: `blockSizes[13] / 12` paths, each at its own re-seeked record |
| CourseLayout.PathFrame | level.cpp:160-173 | a path depends only on the bytes of its own record and its own node slots, so whatever earlier reads or other blocks hold, it decodes the same |
| CourseLayout.ProgressPathFrame | level.cpp:176-189 | a progress path depends only on the bytes of its own record and its own 4-byte node slots |
| CourseDecoder.ReadProgressNode | level.cpp:184-185 | a progress-path node is 2 converted coordinates read after a seek, or TruncatedRead |
| CourseDecoder.ReadProgressPath | level.cpp:179-188 | progress path p has three 16-bit fields at `blockOffsets[15] + 12p`, then exactly node-count nodes from block 16, in index order |
| CourseDecoder.ReadProgressPaths | level.cpp:176-189 | returns exactly the progress-path block function: `blockSizes[15] / 12` records |
| CourseDecoder.ReadBgdatBody | level.cpp:212-215 | after the id, an object's x, y, width and height are raw 16-bit values times 20, followed by 6 skipped bytes |
| CourseDecoder.ReadBgdat | level.cpp:205-216 | returns exactly the object stream from offset 0, which stops at the end of the file (checked before each id) or at the sentinel |
| CourseLayout.BgdatStreamOfRecords | level.cpp:206-216 | N non-sentinel records followed by the sentinel or by the exact end of the file decode to exactly N objects, 16 bytes apart |
| CourseLayout.BgdatStreamShape | level.cpp:206-216 | conversely, a decoded stream of N objects was read from N records 16 bytes apart, none with the sentinel id, and ends 16N bytes on at the end of the file or at the sentinel |
| CourseDecoder.ReadBgdatLayer | level.cpp:200-203 | a missing layer file gives an empty layer; a present one is decoded from offset 0 |
| CourseDecoder.ReadBgdatLayers | level.cpp:197-219 | only layers 1 and 2 are read, in that order, and a failed layer ends the decode |
| CourseLayout.BgdatLayers | level.cpp:198-213 | a decoded pair of layers has exactly two entries |
| CourseDecoder.ReadHeader | level.cpp:41-192 | reads the header's blocks in source order from a fresh cursor and returns exactly the header specification |
| CourseDecoder.Decode | level.cpp:23-220 | returns exactly the level specification; a missing header stream is MissingHeader before anything is read; a decoded level has 4 tileset slots and 3 layer lists, the third always empty |
| Text.Decimal | level.cpp:36 | `QString::arg(int)` for a non-negative number is a non-empty digit string without a leading zero |
| Text.DecimalRoundTrip | level.cpp:36 | the value of the rendered digits is the number |
| Text.ToInt | game.cpp:63 | `QString::toInt` lies in the 32-bit signed range and is non-negative without a leading '-' |
| Text.ToIntDecimal | game.cpp:119 | parsing the decimal rendering of a 32-bit number gives the number back |
| Text.IndexOf | game.cpp:61 | the first index of the separator, or the length when it is absent |
| Text.Split | game.cpp:61 | a split has at least one part |
| Text.JoinSplit | game.cpp:61 | joining the parts with the separator gives the string back, and no part contains the separator |
| Text.SplitLength | game.cpp:62 | a split has one more part than the string has separators |
| Game.ArchivePath | game.cpp:20-23 | the normalised path starts with the directory and the name and ends in ".sarc" |
| Game.DirSuffix | game.cpp:22 | after a '/'-terminated directory, the path ends with a '/'-free suffix exactly when the name does |
| Game.SuffixOptional | game.cpp:22-23 | a name with or without ".sarc" normalises to the same path |
| Game.NoDoubleSuffix | game.cpp:20-23 | the normalised path ends in ".sarc.sarc" only when the name already did |
| Game.GetTileset | game.cpp:18-29 | succeeds exactly when `/Unit/<name>` (with ".sarc") exists, keeps the name, and otherwise fails with FileNotFound |
| Game.GetLevelManager | game.cpp:31-41 | opens exactly the normalised path, which lies under "/Course/", ends in ".sarc" and exists; fails with the missing-file error exactly when that path does not exist |
| Game.LeadingDigits | game.cpp:115 | the length of the longest run of digits at the start of the string |
| Game.LeadingDigitsOf | game.cpp:115 | digits followed by a non-digit (or nothing) have exactly that many leading digits |
| Game.CourseFileNameMatches | game.cpp:115-117 | the hand-written filter accepts a file name exactly when it is digits, '-', digits, ".sarc" |
| Game.NoSeparator | game.cpp:119 | splitting on a character the string does not contain gives the string alone |
| Game.CourseNumbers | game.cpp:119-121 | for `world-level.sarc` the stem is `world-level` and splitting it on '-' gives [world, level] |
| Game.CourseSplit | game.cpp:119-137 | every accepted file name has a stem of exactly two digit-string parts |
| Game.CourseLabels | game.cpp:119-140 | the world label is the table's entry for the world number or the world digits; neither label is ever empty; the level label is the file name when the level number has no entry or an empty one, the entry with "%1" filled by a non-empty world label otherwise, and the entry itself when it holds no '%' |
| Game.ArgReplace | game.cpp:137 | a template shorter than two characters is kept, a template opening with "%1" gives a label opening with the value, and a non-empty template filled with a non-empty value is never empty |
| Game.ArgReplaceNoMarker | game.cpp:137 | a level-name entry without any '%' is used unchanged |
| Game.CourseFiles | game.cpp:113-117 | keeps exactly the listed names that pass the filter |
| Game.CourseFilesAppend | game.cpp:113-117 | filtering a listing split in two filters each part and concatenates them, so accepted files keep the listing's order |
| Game.CourseFilesOne | game.cpp:115-117 | a single name is kept exactly when it matches the course-file pattern |
| Game.ListCourses | game.cpp:113-148 | produces one row per accepted file, in listing order, each with its world label, level label and stored path |
| Game.NameEntryShape | game.cpp:61-63 | a line is used exactly when it holds one ':', and is then the key text, ':', and the name |
| Game.ParseNameTable | game.cpp:59-64 | the line loop builds exactly the name-table function of the lines |
| Game.NameTableKeys | game.cpp:62-63 | a number is a key exactly when some used line has it as key |
| Game.NameTableLast | game.cpp:63 | the name stored for a key comes from the last line using that key |
| Game.NamesRead | game.cpp:173-178 | the lines before the first line with fewer than two parts all have two or more parts |
| Game.ParseTilesetNames | game.cpp:173-181 | the line loop builds exactly the tileset-name function of the lines |
| Game.TilesetNamesStop | game.cpp:177-178 | no line after one with fewer than two parts contributes a name |
| Game.Chop | game.cpp:204 | `chop(n)` removes the last n characters, or everything when the string is shorter |
| Game.ChopTilesetPath | game.cpp:204 | a listed ".sarc" file with its extension chopped normalises back to its own path under "/Unit/", unless the chopped name still ends in ".sarc" |
| Game.ChopTilesetPathDouble | game.cpp:204 | a listed file whose chopped name still ends in ".sarc" is looked up under that name unchanged, which is the archive with one ".sarc" fewer, not the listed file |
| Game.SuiteOf | game.cpp:220-235 | a tileset's suite, when it has one, is one of the four ids |
| Game.InModelSuite | game.cpp:306-321 | the per-id prefix test passes exactly when the tileset's suite is that id |
| Game.SuitesPartition | game.cpp:220-235 | every listed file lands in exactly one suite or in none |
| Game.TilesetSuites | game.cpp:165-238 | no rows when the names file is missing; otherwise four suites, suite s holding exactly the files classified to s, in listing order |
| Game.TilesetModel | game.cpp:251-322 | no rows when the names file is missing; otherwise the `<none>` row first when requested, then exactly the rows of suite id in listing order |
| Game.ModelRowsAreSuite | game.cpp:287-321 | the per-id overload lists exactly the suite the four-suite overload files under that id, and nothing for other ids |

## Left out

- The `FileBase`, `SarcFilesystem` and `ExternalFilesystem` implementations are not part of this model. The course archive is a map from stream names to byte sequences, and the game filesystem is an existence oracle passed as a parameter.
- Cursors.Cursor.ReadStringAscii: gives the characters before the first NUL and does not trim padding. The `FileBase` implementation that would settle this is not part of this model.
- Opening the course archive `/Course/<world>-<level>.sarc` (level.cpp:30-33) is not modelled; `Decode` starts from the opened archive.
- `to20` and `Sprite::setRect` are opaque. They are the fields of the `Transforms` parameter, because their definitions are not part of this model.
- The `Tileset` and `LevelManager` constructors are not modelled. A found tileset is recorded by its name.
- Memory management is not modelled: allocation of records with `new`, the destructor (level.cpp:222-237) and the empty `Level::save`.
- `qDebug` logging is not modelled.
- The Qt item-model construction in game.cpp is not modelled: `QStandardItem` trees, the world sub-items, the sub-directory loop, `model->sort`, column headers and item data roles. The model keeps the rows and their order before sorting.
- `QFile` and `QTextStream` I/O and UTF-8 decoding are not modelled. A table file is its sequence of lines, and an unopenable file is `None`.
- `SettingsManager` path lookup is not modelled.
- Text.ToInt: does not skip leading or trailing whitespace, as `QString::toInt` does.
- Game.ArgReplace: approximates `QString::arg` as replacing every "%1". It does not renumber the lowest other marker. It reads "%10" as the marker "%1" followed by "0", where Qt reads the two-digit marker %10. It leaves the localised marker "%L1" unchanged, where Qt fills it.
- Game.IsCourseFileName: does not accept a name followed by one final newline, which `$` would also match.
- A negative area number is not modelled (`area: nat`).
- The third background-object layer is always empty, as in the source.
