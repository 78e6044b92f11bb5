/** `Level::Level` (level.cpp) as the sequence of cursor reads it performs. Each block method
    leaves the decoded block, or the first failed read, and is proved to give exactly the block
    function of CourseLayout; `Decode` is proved to give `LevelSpec`. */
module CourseDecoder {
  import opened Wrappers
  import opened Cursors
  import opened Game
  import opened CourseLayout

  /** Reads the 17 (offset, size) pairs at the start of the header. */
  method ReadDirectory(c: Cursor) returns (r: Result<Directory>)
    requires c.Valid() && c.pos == 0
    modifies c
    ensures c.Valid()
    ensures r == DirectoryBlock(c.data)
    ensures r.Ok? ==> c.pos == DirectorySize
  {
    var offsets: seq<nat> := [];
    var sizes: seq<nat> := [];
    for b := 0 to DirectoryEntries
      invariant c.Valid() && c.pos == 8 * b
      invariant |offsets| == b && |sizes| == b
      invariant forall k :: 0 <= k < b ==> offsets[k] == U32(c.data, 8 * k) && sizes[k] == U32(c.data, 8 * k + 4)
    {
      var offset :- c.Read32();
      var size :- c.Read32();
      offsets := offsets + [offset];
      sizes := sizes + [size];
    }
    assert offsets == DirectoryBlock(c.data).value.offsets;
    assert sizes == DirectoryBlock(c.data).value.sizes;
    r := Ok(Directory(offsets, sizes));
  }

  /** One tileset slot of block 0: its 32-byte name, then the game's lookup of that name. */
  method ReadTilesetSlot(c: Cursor, offset0: nat, t: nat, tilesetExists: string -> bool) returns (r: Result<Option<Tileset>>)
    requires c.Valid()
    modifies c
    ensures c.Valid()
    ensures SlotFits(c.data, offset0, t) ==> r == Ok(TilesetSlot(c.data, offset0, t, tilesetExists))
    ensures !SlotFits(c.data, offset0, t) ==> r == Err(TruncatedRead)
  {
    var o := SlotOffset(offset0, t);
    :- c.Seek(o);
    var name :- c.ReadStringAscii(32);
    var slot: Option<Tileset> := None;
    if name != "" {
      var found := GetTileset(tilesetExists, name);
      if found.Ok? {
        slot := Some(found.value);
      }
    }
    r := Ok(slot);
  }

  /** Block 0: four tileset slots; an empty or unknown name leaves its slot empty. */
  method ReadTilesets(c: Cursor, offset0: nat, tilesetExists: string -> bool) returns (r: Result<seq<Option<Tileset>>>)
    requires c.Valid()
    modifies c
    ensures c.Valid()
    ensures r == TilesetBlock(c.data, offset0, tilesetExists)
  {
    var slots: seq<Option<Tileset>> := [];
    for t := 0 to 4
      invariant c.Valid()
      invariant |slots| == t
      invariant forall k :: 0 <= k < t ==>
                  SlotFits(c.data, offset0, k) && slots[k] == TilesetSlot(c.data, offset0, k, tilesetExists)
    {
      var slot :- ReadTilesetSlot(c, offset0, t, tilesetExists);
      slots := slots + [slot];
    }
    assert slots == TilesetBlock(c.data, offset0, tilesetExists).value;
    r := Ok(slots);
  }

  /** Block 1: the time limit after 10 skipped bytes. */
  method ReadAreaSettings(c: Cursor, offset: nat) returns (r: Result<nat>)
    requires c.Valid()
    modifies c
    ensures c.Valid()
    ensures r == AreaBlock(c.data, offset)
    ensures r.Ok? ==> c.pos == offset + 12
  {
    // 8 zero bytes and an unknown 16-bit value precede the time limit
    var moved := c.Seek(offset);
    if moved.Fail? {
      return Err(moved.error);
    }
    :- c.Skip(10);
    var timeLimit :- c.Read16();
    r := Ok(timeLimit);
  }

  /** Block 2: the zone bounds. */
  method ReadBounds(c: Cursor, offset: nat) returns (r: Result<ZoneBounds>)
    requires c.Valid()
    modifies c
    ensures c.Valid()
    ensures r == BoundsBlock(c.data, offset)
    ensures r.Ok? ==> c.pos == offset + 28
  {
    // the unknown 16-bit value at +0x12 is kept as unk12
    var moved := c.Seek(offset);
    if moved.Fail? {
      return Err(moved.error);
    }
    var upper :- c.Read32();
    var lower :- c.Read32();
    var unkUpper :- c.Read32();
    var unkLower :- c.Read32();
    var boundingId :- c.Read16();
    var unk12 :- c.Read16();
    :- c.Skip(8);
    r := Ok(ZoneBounds(upper, lower, unkUpper, unkLower, boundingId, unk12));
  }

  /** Block 4: the background settings; the 16-byte name is read and not kept. */
  method ReadBackground(c: Cursor, offset: nat) returns (r: Result<Background>)
    requires c.Valid()
    modifies c
    ensures c.Valid()
    ensures r == BackgroundBlock(c.data, offset)
    ensures r.Ok? ==> c.pos == offset + 28
  {
    // the 16-bit value at +0x18 is the one `Level::unk1` ends up holding
    var moved := c.Seek(offset);
    if moved.Fail? {
      return Err(moved.error);
    }
    var blockId :- c.Read16();
    var xScrollRate :- c.Read8();
    var yScrollRate :- c.Read8();
    var xPos :- c.Read8();
    var yPos :- c.Read8();
    :- c.Skip(2);
    var bgName :- c.ReadStringAscii(16);
    var unk18 :- c.Read16();
    :- c.Skip(2);
    r := Ok(Background(blockId, xScrollRate, yScrollRate, xPos, yPos, unk18));
  }

  /** One entrance record: 12 bytes read, 12 skipped. */
  method ReadEntrance(c: Cursor, env: Transforms) returns (r: Result<Entrance>)
    requires c.Valid()
    modifies c
    ensures c.Valid()
    ensures old(c.pos) + 24 <= |c.data| ==> r == Ok(EntranceAt(c.data, env, old(c.pos))) && c.pos == old(c.pos) + 24
    ensures old(c.pos) + 24 > |c.data| ==> r == Err(TruncatedRead)
  {
    var x :- c.Read16();
    var y :- c.Read16();
    var field4 :- c.Read16();
    var field6 :- c.Read16();
    var byte8 :- c.Read8();
    var byte9 :- c.Read8();
    var byte10 :- c.Read8();
    var byte11 :- c.Read8();
    var entrance := Entrance(env.to20(x), env.to20(y), field4, field6, byte8, byte9, byte10, byte11);
    :- c.Skip(12);
    r := Ok(entrance);
  }

  /** Block 6: size/24 entrances read back to back. */
  method ReadEntrances(c: Cursor, env: Transforms, offset: nat, size: nat) returns (r: Result<seq<Entrance>>)
    requires c.Valid()
    modifies c
    ensures c.Valid()
    ensures r == EntranceBlock(c.data, env, offset, size)
  {
    var n := size / 24;
    :- c.Seek(offset);
    EntranceRecordsAt(c.data, env, offset, n);
    var entrances: seq<Entrance> := [];
    for e := 0 to n
      invariant c.Valid() && c.pos == EntranceOffset(offset, e)
      invariant |entrances| == e
      invariant forall k :: 0 <= k < e ==> entrances[k] == EntranceAt(c.data, env, EntranceOffset(offset, k))
    {
      var entrance :- ReadEntrance(c, env);
      entrances := entrances + [entrance];
    }
    assert entrances == EntranceBlock(c.data, env, offset, size).value;
    r := Ok(entrances);
  }

  /** The rest of a sprite record whose id `id` was just read: 12 bytes read, 10 skipped. */
  method ReadSpriteBody(c: Cursor, env: Transforms, id: nat) returns (r: Result<Sprite>)
    requires c.Valid() && 2 <= c.pos && id == U16(c.data, c.pos - 2)
    modifies c
    ensures c.Valid()
    ensures old(c.pos) + 22 <= |c.data| ==> r == Ok(SpriteAt(c.data, env, old(c.pos) - 2)) && c.pos == old(c.pos) + 22
    ensures old(c.pos) + 22 > |c.data| ==> r == Err(TruncatedRead)
  {
    var start := c.pos - 2;
    var x :- c.Read16();
    var y :- c.Read16();
    var bytes: seq<nat> := [];
    for i := 0 to 8
      invariant c.Valid() && c.pos == start + 6 + i
      invariant |bytes| == i
      invariant forall j :: 0 <= j < i ==> bytes[j] == U8(c.data, start + 6 + j)
    {
      var b :- c.Read8();
      bytes := bytes + [b];
    }
    var sx := env.to20(x);
    var sy := env.to20(y);
    var sprite := Sprite(id, sx, sy, bytes, env.spriteRect(id, sx, sy, bytes));
    :- c.Skip(10);
    assert bytes == SpriteAt(c.data, env, start).bytes;
    r := Ok(sprite);
  }

  /** Block 7: sprites up to the sentinel id. */
  method ReadSprites(c: Cursor, env: Transforms, offset: nat) returns (r: Result<seq<Sprite>>)
    requires c.Valid()
    modifies c
    ensures c.Valid()
    ensures r == SpriteBlock(c.data, env, offset)
  {
    var sprites: seq<Sprite> := [];
    :- c.Seek(offset);
    PrependOkNil(SpriteStream(c.data, env, offset));
    while true
      invariant c.Valid() && offset <= |c.data|
      invariant SpriteStream(c.data, env, offset) == PrependOk(sprites, SpriteStream(c.data, env, c.pos))
      decreases |c.data| - c.pos
    {
      var id :- c.Read16();
      if id == Sentinel {
        assert sprites + [] == sprites;
        return Ok(sprites);
      }
      var sprite :- ReadSpriteBody(c, env, id);
      PrependOkTwice(sprites, [sprite], SpriteStream(c.data, env, c.pos));
      sprites := sprites + [sprite];
    }
  }

  /** One zone record: 8 bytes read, 20 skipped; the zone gets the id `id`. */
  method ReadZone(c: Cursor, env: Transforms, id: nat) returns (r: Result<Zone>)
    requires c.Valid()
    modifies c
    ensures c.Valid()
    ensures old(c.pos) + 28 <= |c.data| ==> r == Ok(ZoneAt(c.data, env, old(c.pos), id)) && c.pos == old(c.pos) + 28
    ensures old(c.pos) + 28 > |c.data| ==> r == Err(TruncatedRead)
  {
    var x :- c.Read16();
    var y :- c.Read16();
    var width :- c.Read16();
    var height :- c.Read16();
    var zone := Zone(env.to20(x), env.to20(y), env.to20(width), env.to20(height), id);
    :- c.Skip(20);
    r := Ok(zone);
  }

  /** Block 9: size/24 zones, numbered in order. */
  method ReadZones(c: Cursor, env: Transforms, offset: nat, size: nat) returns (r: Result<seq<Zone>>)
    requires c.Valid()
    modifies c
    ensures c.Valid()
    ensures r == ZoneBlock(c.data, env, offset, size)
  {
    var n := size / 24;
    :- c.Seek(offset);
    ZoneRecordsAt(c.data, env, offset, 0, n);
    var zones: seq<Zone> := [];
    for z := 0 to n
      invariant c.Valid() && c.pos == ZoneOffset(offset, z)
      invariant |zones| == z
      invariant forall k :: 0 <= k < z ==> zones[k] == ZoneAt(c.data, env, ZoneOffset(offset, k), k)
    {
      var zone :- ReadZone(c, env, z);
      zones := zones + [zone];
    }
    assert zones == ZoneBlock(c.data, env, offset, size).value;
    r := Ok(zones);
  }

  /** One location record: 9 bytes read, 3 skipped. */
  method ReadLocation(c: Cursor, env: Transforms) returns (r: Result<Location>)
    requires c.Valid()
    modifies c
    ensures c.Valid()
    ensures old(c.pos) + 12 <= |c.data| ==> r == Ok(LocationAt(c.data, env, old(c.pos))) && c.pos == old(c.pos) + 12
    ensures old(c.pos) + 12 > |c.data| ==> r == Err(TruncatedRead)
  {
    var x :- c.Read16();
    var y :- c.Read16();
    var width :- c.Read16();
    var height :- c.Read16();
    var id :- c.Read8();
    var location := Location(env.to20(x), env.to20(y), env.to20(width), env.to20(height), id);
    :- c.Skip(3);
    r := Ok(location);
  }

  /** Block 10: size/12 locations read back to back. */
  method ReadLocations(c: Cursor, env: Transforms, offset: nat, size: nat) returns (r: Result<seq<Location>>)
    requires c.Valid()
    modifies c
    ensures c.Valid()
    ensures r == LocationBlock(c.data, env, offset, size)
  {
    var n := size / 12;
    :- c.Seek(offset);
    LocationRecordsAt(c.data, env, offset, n);
    var locations: seq<Location> := [];
    for l := 0 to n
      invariant c.Valid() && c.pos == LocationOffset(offset, l)
      invariant |locations| == l
      invariant forall k :: 0 <= k < l ==> locations[k] == LocationAt(c.data, env, LocationOffset(offset, k))
    {
      var location :- ReadLocation(c, env);
      locations := locations + [location];
    }
    assert locations == LocationBlock(c.data, env, offset, size).value;
    r := Ok(locations);
  }

  /** One path node of block 14, reached by a seek. */
  method ReadPathNode(c: Cursor, env: Transforms, q: nat) returns (r: Result<PathNode>)
    requires c.Valid()
    modifies c
    ensures c.Valid()
    ensures q + 12 <= |c.data| ==> r == Ok(PathNodeAt(c.data, env, q))
    ensures q + 12 > |c.data| ==> r == Err(TruncatedRead)
  {
    var moved := c.Seek(q);
    if moved.Fail? {
      return Err(moved.error);
    }
    var x :- c.Read16();
    var y :- c.Read16();
    var value1 :- c.Read32();
    var value2 :- c.Read32();
    r := Ok(PathNode(env.to20(x), env.to20(y), value1, value2));
  }

  /** One path record of block 13 (id, a skipped byte, node count, node offset) and its nodes. */
  method ReadPath(c: Cursor, env: Transforms, table: nat, nodeTable: nat, p: nat) returns (r: Result<Path>)
    requires c.Valid()
    modifies c
    ensures c.Valid()
    ensures PathFits(c.data, table, nodeTable, p) ==> r == Ok(PathAt(c.data, env, table, nodeTable, p))
    ensures !PathFits(c.data, table, nodeTable, p) ==> r == Err(TruncatedRead)
  {
    var rec := PathRecordOffset(table, p);
    :- c.Seek(rec);
    var id :- c.Read8();
    :- c.Skip(1);
    var count :- c.Read16();
    var nodesOffset :- c.Read16();
    var nodes: seq<PathNode> := [];
    for i := 0 to count
      invariant c.Valid()
      invariant |nodes| == i
      invariant forall j :: 0 <= j < i ==>
                  PathNodeOffset(nodeTable, nodesOffset, j) + 12 <= |c.data| &&
                  nodes[j] == PathNodeAt(c.data, env, PathNodeOffset(nodeTable, nodesOffset, j))
    {
      var node :- ReadPathNode(c, env, PathNodeOffset(nodeTable, nodesOffset, i));
      nodes := nodes + [node];
    }
    assert nodes == PathAt(c.data, env, table, nodeTable, p).nodes;
    r := Ok(Path(id, count, nodesOffset, nodes));
  }

  /** Blocks 13/14: size/12 paths. */
  method ReadPaths(c: Cursor, env: Transforms, table: nat, size: nat, nodeTable: nat) returns (r: Result<seq<Path>>)
    requires c.Valid()
    modifies c
    ensures c.Valid()
    ensures r == PathBlock(c.data, env, table, size, nodeTable)
  {
    var n := size / 12;
    var paths: seq<Path> := [];
    for p := 0 to n
      invariant c.Valid()
      invariant |paths| == p
      invariant forall k :: 0 <= k < p ==>
                  PathFits(c.data, table, nodeTable, k) && paths[k] == PathAt(c.data, env, table, nodeTable, k)
    {
      var path :- ReadPath(c, env, table, nodeTable, p);
      paths := paths + [path];
    }
    assert paths == PathBlock(c.data, env, table, size, nodeTable).value;
    r := Ok(paths);
  }

  /** One progress-path node of block 16, reached by a seek. */
  method ReadProgressNode(c: Cursor, env: Transforms, q: nat) returns (r: Result<ProgressPathNode>)
    requires c.Valid()
    modifies c
    ensures c.Valid()
    ensures q + 4 <= |c.data| ==> r == Ok(ProgressNodeAt(c.data, env, q))
    ensures q + 4 > |c.data| ==> r == Err(TruncatedRead)
  {
    var moved := c.Seek(q);
    if moved.Fail? {
      return Err(moved.error);
    }
    var x :- c.Read16();
    var y :- c.Read16();
    r := Ok(ProgressPathNode(env.to20(x), env.to20(y)));
  }

  /** One progress-path record of block 15 (id, node count, node offset) and its nodes. */
  method ReadProgressPath(c: Cursor, env: Transforms, table: nat, nodeTable: nat, p: nat) returns (r: Result<ProgressPath>)
    requires c.Valid()
    modifies c
    ensures c.Valid()
    ensures ProgressPathFits(c.data, table, nodeTable, p) ==> r == Ok(ProgressPathAt(c.data, env, table, nodeTable, p))
    ensures !ProgressPathFits(c.data, table, nodeTable, p) ==> r == Err(TruncatedRead)
  {
    var rec := PathRecordOffset(table, p);
    :- c.Seek(rec);
    var id :- c.Read16();
    var count :- c.Read16();
    var nodesOffset :- c.Read16();
    var nodes: seq<ProgressPathNode> := [];
    for i := 0 to count
      invariant c.Valid()
      invariant |nodes| == i
      invariant forall j :: 0 <= j < i ==>
                  PathNodeOffset(nodeTable, nodesOffset, j) + 4 <= |c.data| &&
                  nodes[j] == ProgressNodeAt(c.data, env, PathNodeOffset(nodeTable, nodesOffset, j))
    {
      var node :- ReadProgressNode(c, env, PathNodeOffset(nodeTable, nodesOffset, i));
      nodes := nodes + [node];
    }
    assert nodes == ProgressPathAt(c.data, env, table, nodeTable, p).nodes;
    r := Ok(ProgressPath(id, count, nodesOffset, nodes));
  }

  /** Blocks 15/16: size/12 progress paths. */
  method ReadProgressPaths(c: Cursor, env: Transforms, table: nat, size: nat, nodeTable: nat) returns (r: Result<seq<ProgressPath>>)
    requires c.Valid()
    modifies c
    ensures c.Valid()
    ensures r == ProgressPathBlock(c.data, env, table, size, nodeTable)
  {
    var n := size / 12;
    var paths: seq<ProgressPath> := [];
    for p := 0 to n
      invariant c.Valid()
      invariant |paths| == p
      invariant forall k :: 0 <= k < p ==>
                  ProgressPathFits(c.data, table, nodeTable, k) &&
                  paths[k] == ProgressPathAt(c.data, env, table, nodeTable, k)
    {
      var path :- ReadProgressPath(c, env, table, nodeTable, p);
      paths := paths + [path];
    }
    assert paths == ProgressPathBlock(c.data, env, table, size, nodeTable).value;
    r := Ok(paths);
  }

  /** The rest of a background-object record whose id `id` was just read: 8 bytes read, 6 skipped. */
  method ReadBgdatBody(c: Cursor, id: nat) returns (r: Result<BgdatObject>)
    requires c.Valid() && 2 <= c.pos && id == U16(c.data, c.pos - 2)
    modifies c
    ensures c.Valid()
    ensures old(c.pos) + 14 <= |c.data| ==> r == Ok(BgdatAt(c.data, old(c.pos) - 2)) && c.pos == old(c.pos) + 14
    ensures old(c.pos) + 14 > |c.data| ==> r == Err(TruncatedRead)
  {
    var x :- c.Read16();
    var y :- c.Read16();
    var width :- c.Read16();
    var height :- c.Read16();
    var obj := BgdatObject(x * 20, y * 20, width * 20, height * 20, id);
    :- c.Skip(6);
    r := Ok(obj);
  }

  /** One background-object file: records until the sentinel or the end of the file. */
  method ReadBgdat(c: Cursor) returns (r: Result<seq<BgdatObject>>)
    requires c.Valid()
    modifies c
    ensures c.Valid()
    ensures r == BgdatStream(c.data, 0)
  {
    var atStart := c.Seek(0);
    assert atStart == Pass;
    PrependOkNil(BgdatStream(c.data, 0));
    var objects: seq<BgdatObject> := [];
    while true
      invariant c.Valid()
      invariant BgdatStream(c.data, 0) == PrependOk(objects, BgdatStream(c.data, c.pos))
      decreases |c.data| - c.pos
    {
      if c.pos >= |c.data| {
        assert objects + [] == objects;
        return Ok(objects);
      }
      var id :- c.Read16();
      if id == Sentinel {
        assert objects + [] == objects;
        return Ok(objects);
      }
      var obj :- ReadBgdatBody(c, id);
      PrependOkTwice(objects, [obj], BgdatStream(c.data, c.pos));
      objects := objects + [obj];
    }
  }

  /** Background-object layer `layer` of an area, empty when its file is missing. */
  method ReadBgdatLayer(archive: map<string, seq<bv8>>, area: nat, layer: nat) returns (r: Result<seq<BgdatObject>>)
    ensures r == BgdatLayer(archive, area, layer)
  {
    var path := BgdatPath(area, layer);
    if path !in archive {
      return Ok([]);
    }
    var c := new Cursor(archive[path]);
    r := ReadBgdat(c);
  }

  /** Background-object layers 1 and 2, in that order. */
  method ReadBgdatLayers(archive: map<string, seq<bv8>>, area: nat) returns (r: Result<seq<seq<BgdatObject>>>)
    ensures r == BgdatLayers(archive, area)
  {
    var layers: seq<seq<BgdatObject>> := [];
    for l := 0 to 2
      invariant |layers| == l
      invariant l >= 1 ==> BgdatLayer(archive, area, 1).Ok? && layers[0] == BgdatLayer(archive, area, 1).value
      invariant l >= 2 ==> BgdatLayer(archive, area, 2).Ok? && layers[1] == BgdatLayer(archive, area, 2).value
    {
      var layer :- ReadBgdatLayer(archive, area, l + 1);
      layers := layers + [layer];
    }
    assert layers == [layers[0], layers[1]];
    r := Ok(layers);
  }

  /** The header stream, block after block. */
  method ReadHeader(c: Cursor, env: Transforms, tilesetExists: string -> bool) returns (r: Result<Header>)
    requires c.Valid() && c.pos == 0
    modifies c
    ensures r == HeaderSpec(c.data, env, tilesetExists)
  {
    var dir :- ReadDirectory(c);
    var tilesets :- ReadTilesets(c, dir.offsets[0], tilesetExists);
    var timeLimit :- ReadAreaSettings(c, dir.offsets[1]);
    var bounds :- ReadBounds(c, dir.offsets[2]);
    var background :- ReadBackground(c, dir.offsets[4]);
    var entrances :- ReadEntrances(c, env, dir.offsets[6], dir.sizes[6]);
    var sprites :- ReadSprites(c, env, dir.offsets[7]);
    var zones :- ReadZones(c, env, dir.offsets[9], dir.sizes[9]);
    var locations :- ReadLocations(c, env, dir.offsets[10], dir.sizes[10]);
    var paths :- ReadPaths(c, env, dir.offsets[13], dir.sizes[13], dir.offsets[14]);
    var progressPaths :- ReadProgressPaths(c, env, dir.offsets[15], dir.sizes[15], dir.offsets[16]);
    r := Ok(Header(tilesets, timeLimit, bounds, background, entrances, sprites, zones, locations, paths, progressPaths));
  }

  /** `Level::Level(game, world, level, area)` on the already opened course archive. */
  method Decode(archive: map<string, seq<bv8>>, world: int, level: int, area: nat,
                env: Transforms, tilesetExists: string -> bool) returns (r: Result<Level>)
    ensures r == LevelSpec(archive, world, level, area, env, tilesetExists)
    ensures HeaderPath(area) !in archive ==> r == Err(MissingHeader)
    ensures r.Ok? ==> |r.value.tilesets| == 4 && |r.value.objects| == 3 && r.value.objects[2] == []
  {
    var headerPath := HeaderPath(area);
    if headerPath !in archive {
      return Err(MissingHeader);
    }
    var header := new Cursor(archive[headerPath]);
    var h :- ReadHeader(header, env, tilesetExists);
    var layers :- ReadBgdatLayers(archive, area);
    r := Ok(Assemble(world, level, area, h, layers));
  }
}
