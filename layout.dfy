/** The course header format read by `Level::Level` (level.cpp): the decoded entities, the byte
    offset of every record, and the value of each block as a function of the stream's bytes.
    A block function is the specification its decoding method in CourseDecoder is proved
    against; the lemmas here state what the format promises about those functions. */
module CourseLayout {
  import opened Wrappers
  import opened Text
  import opened Cursors
  import opened Game

  /** The id that ends the sprite stream and a background-object stream. */
  const Sentinel: nat := 0xFFFF

  /** 17 (offset, size) pairs of 4 bytes each. */
  const DirectoryEntries: nat := 17
  const DirectorySize: nat := 136

  datatype Rect = Rect(x: int, y: int, width: int, height: int)

  /** The decoder's collaborators: the raw-unit to internal-unit conversion `to20`, and
      `Sprite::setRect`, which derives a sprite's rectangle from its id, position and bytes. */
  datatype Transforms = Transforms(to20: int -> int, spriteRect: (nat, int, int, seq<nat>) -> Rect)

  datatype Directory = Directory(offsets: seq<nat>, sizes: seq<nat>)

  /** Block 2, field by field; the 16-bit value at +0x12 is stored in `Level::unk1`. */
  datatype ZoneBounds = ZoneBounds(upper: nat, lower: nat, unkUpper: nat, unkLower: nat, boundingId: nat, unk12: nat)

  /** Block 4 without its name, which is read and dropped; `unk18` is the value at +0x18. */
  datatype Background = Background(blockId: nat, xScrollRate: nat, yScrollRate: nat, xPos: nat, yPos: nat, unk18: nat)

  /** An entrance: converted position, the 16-bit fields at +4 and +6, the bytes at +8..+11. */
  datatype Entrance = Entrance(x: int, y: int, field4: nat, field6: nat, byte8: nat, byte9: nat, byte10: nat, byte11: nat)

  datatype Sprite = Sprite(id: nat, x: int, y: int, bytes: seq<nat>, rect: Rect)

  datatype Zone = Zone(x: int, y: int, width: int, height: int, id: nat)

  datatype Location = Location(x: int, y: int, width: int, height: int, id: nat)

  datatype PathNode = PathNode(x: int, y: int, value1: nat, value2: nat)

  datatype Path = Path(id: nat, numberOfNodes: nat, nodesOffset: nat, nodes: seq<PathNode>)

  datatype ProgressPathNode = ProgressPathNode(x: int, y: int)

  datatype ProgressPath = ProgressPath(id: nat, numberOfNodes: nat, nodesOffset: nat, nodes: seq<ProgressPathNode>)

  datatype BgdatObject = BgdatObject(x: int, y: int, width: int, height: int, id: nat)

  /** The members `Level::Level` fills, for one area of one course. */
  datatype Level = Level(
    world: int, level: int, area: nat,
    tilesets: seq<Option<Tileset>>,
    timeLimit: nat,
    upperBound: nat, lowerBound: nat, unkBound1: nat, unkBound2: nat, boundingId: nat,
    unk1: nat,
    bgBlockId: nat, xScrollRate: nat, yScrollRate: nat, xPos: nat, yPos: nat,
    entrances: seq<Entrance>,
    sprites: seq<Sprite>,
    zones: seq<Zone>,
    locations: seq<Location>,
    paths: seq<Path>,
    progressPaths: seq<ProgressPath>,
    objects: seq<seq<BgdatObject>>)

  // ---------------------------------------------------------------------------------------
  // Stream names inside the course archive

  /** The header stream of an area: the area number in decimal between "/course/course" and ".bin". */
  function HeaderPath(area: nat): (path: string)
    ensures StartsWith(path, "/course/course") && EndsWith(path, ".bin")
  {
    "/course/course" + (Decimal(area) + ".bin")
  }

  /** The stream of background-object layer `layer` of an area. */
  function BgdatPath(area: nat, layer: nat): (path: string)
    ensures StartsWith(path, "/course/course") && EndsWith(path, ".bin")
  {
    "/course/course" + (Decimal(area) + ("_bgdatL" + (Decimal(layer) + ".bin")))
  }

  /** A run of digits followed by a non-digit is recovered from the concatenation. */
  lemma DigitsPrefix(x: string, s: string, y: string, t: string)
    requires AllDigits(x) && AllDigits(y)
    requires s != [] && !IsDigit(s[0]) && t != [] && !IsDigit(t[0])
    requires x + s == y + t
    ensures x == y && s == t
  {
    LeadingDigitsOf(x, s);
    LeadingDigitsOf(y, t);
    assert x == (x + s)[..|x|] && s == (x + s)[|x|..];
    assert y == (y + t)[..|y|] && t == (y + t)[|y|..];
  }

  /** Decimal renderings of different numbers differ. */
  lemma DecimalInjective(a: nat, b: nat)
    requires Decimal(a) == Decimal(b)
    ensures a == b
  {
    DecimalRoundTrip(a);
    DecimalRoundTrip(b);
  }

  /** Every area names its own header stream. */
  lemma HeaderPathInjective(a: nat, b: nat)
    ensures HeaderPath(a) == HeaderPath(b) <==> a == b
  {
    if HeaderPath(a) == HeaderPath(b) {
      var da, db := Decimal(a), Decimal(b);
      assert HeaderPath(a)[14..] == da + ".bin";
      assert HeaderPath(b)[14..] == db + ".bin";
      DigitsPrefix(da, ".bin", db, ".bin");
      DecimalInjective(a, b);
    }
  }

  /** Every area and layer names its own background-object stream. */
  lemma BgdatPathInjective(a: nat, b: nat, l: nat, m: nat)
    ensures BgdatPath(a, l) == BgdatPath(b, m) <==> a == b && l == m
  {
    if BgdatPath(a, l) == BgdatPath(b, m) {
      var da, db := Decimal(a), Decimal(b);
      var ra, rb := "_bgdatL" + (Decimal(l) + ".bin"), "_bgdatL" + (Decimal(m) + ".bin");
      assert BgdatPath(a, l)[14..] == da + ra;
      assert BgdatPath(b, m)[14..] == db + rb;
      DigitsPrefix(da, ra, db, rb);
      DecimalInjective(a, b);
      assert ra[7..] == Decimal(l) + ".bin" && rb[7..] == Decimal(m) + ".bin";
      DigitsPrefix(Decimal(l), ".bin", Decimal(m), ".bin");
      DecimalInjective(l, m);
    }
  }

  /** No background-object stream is a header stream. */
  lemma HeaderNotBgdat(a: nat, b: nat, m: nat)
    ensures HeaderPath(a) != BgdatPath(b, m)
  {
    if HeaderPath(a) == BgdatPath(b, m) {
      var da, db := Decimal(a), Decimal(b);
      var rb := "_bgdatL" + (Decimal(m) + ".bin");
      assert HeaderPath(a)[14..] == da + ".bin";
      assert BgdatPath(b, m)[14..] == db + rb;
      DigitsPrefix(da, ".bin", db, rb);
    }
  }


  // ---------------------------------------------------------------------------------------
  // Directory and fixed blocks

  function DirectoryBlock(data: seq<bv8>): (r: Result<Directory>)
    ensures r.Ok? <==> DirectorySize <= |data|
    ensures r.Ok? ==> |r.value.offsets| == DirectoryEntries && |r.value.sizes| == DirectoryEntries
    ensures r.Err? ==> r.error == TruncatedRead
  {
    if |data| < DirectorySize then Err(TruncatedRead)
    else Ok(Directory(seq(DirectoryEntries, b requires 0 <= b < DirectoryEntries => U32(data, 8 * b)),
                      seq(DirectoryEntries, b requires 0 <= b < DirectoryEntries => U32(data, 8 * b + 4))))
  }

  /** Slot t's 32-byte name field, at an offset computed in unsigned 32-bit arithmetic. */
  function SlotOffset(offset0: nat, t: nat): nat
  {
    Wrap32(offset0 + 32 * t)
  }

  predicate SlotFits(data: seq<bv8>, offset0: nat, t: nat)
  {
    SlotOffset(offset0, t) + 32 <= |data|
  }

  /** An empty name and a name the game cannot find both leave the slot empty. */
  function TilesetSlot(data: seq<bv8>, offset0: nat, t: nat, tilesetExists: string -> bool): (slot: Option<Tileset>)
    requires SlotFits(data, offset0, t)
    ensures var name := AsciiZ(data[SlotOffset(offset0, t)..SlotOffset(offset0, t) + 32]);
            slot.Some? <==> name != "" && tilesetExists(TilesetPath(name))
    ensures slot.Some? ==> slot.value.name == AsciiZ(data[SlotOffset(offset0, t)..SlotOffset(offset0, t) + 32])
  {
    var o := SlotOffset(offset0, t);
    var name := AsciiZ(data[o..o + 32]);
    if name == "" then None
    else
      match GetTileset(tilesetExists, name)
      case Ok(tileset) => Some(tileset)
      case Err(_) => None
  }

  function TilesetBlock(data: seq<bv8>, offset0: nat, tilesetExists: string -> bool): Result<seq<Option<Tileset>>>
  {
    if forall t :: 0 <= t < 4 ==> SlotFits(data, offset0, t) then
      Ok(seq(4, t requires 0 <= t < 4 => TilesetSlot(data, offset0, t, tilesetExists)))
    else Err(TruncatedRead)
  }

  /** Block 1: 10 skipped bytes, then the time limit. */
  function AreaBlock(data: seq<bv8>, offset: nat): Result<nat>
  {
    if offset + 12 <= |data| then Ok(U16(data, offset + 10)) else Err(TruncatedRead)
  }

  /** Block 2: four 32-bit bounds, two 16-bit values, 8 skipped bytes. */
  function BoundsBlock(data: seq<bv8>, offset: nat): Result<ZoneBounds>
  {
    if offset + 28 <= |data| then
      Ok(ZoneBounds(U32(data, offset), U32(data, offset + 4), U32(data, offset + 8), U32(data, offset + 12),
                    U16(data, offset + 16), U16(data, offset + 18)))
    else Err(TruncatedRead)
  }

  /** Block 4: id, four bytes, 2 skipped, a 16-byte name (dropped), the value at +0x18, 2 skipped. */
  function BackgroundBlock(data: seq<bv8>, offset: nat): Result<Background>
  {
    if offset + 28 <= |data| then
      Ok(Background(U16(data, offset), U8(data, offset + 2), U8(data, offset + 3), U8(data, offset + 4),
                    U8(data, offset + 5), U16(data, offset + 24)))
    else Err(TruncatedRead)
  }

  // ---------------------------------------------------------------------------------------
  // Block 6: entrances, 24-byte records read back to back

  function EntranceOffset(offset: nat, k: nat): nat { offset + 24 * k }

  function EntranceAt(data: seq<bv8>, env: Transforms, p: nat): Entrance
    requires p + 12 <= |data|
  {
    Entrance(env.to20(U16(data, p)), env.to20(U16(data, p + 2)), U16(data, p + 4), U16(data, p + 6),
             U8(data, p + 8), U8(data, p + 9), U8(data, p + 10), U8(data, p + 11))
  }

  /** `n` entrances read from position `p` on, each followed by 12 skipped bytes. */
  function EntranceRecords(data: seq<bv8>, env: Transforms, p: nat, n: nat): Result<seq<Entrance>>
    decreases n
  {
    if n == 0 then Ok([])
    else if p + 24 > |data| then Err(TruncatedRead)
    else PrependOk([EntranceAt(data, env, p)], EntranceRecords(data, env, p + 24, n - 1))
  }

  function EntranceBlock(data: seq<bv8>, env: Transforms, offset: nat, size: nat): Result<seq<Entrance>>
  {
    if offset > |data| then Err(TruncatedRead) else EntranceRecords(data, env, offset, size / 24)
  }

  /** Entrance k is the record at offset + 24k; the records fail exactly when the last one
      would run past the end of the stream. */
  lemma {:induction false} EntranceRecordsAt(data: seq<bv8>, env: Transforms, p: nat, n: nat)
    requires p <= |data|
    ensures var r := EntranceRecords(data, env, p, n);
            if EntranceOffset(p, n) <= |data| then
              r.Ok? && |r.value| == n &&
              forall k :: 0 <= k < n ==> r.value[k] == EntranceAt(data, env, EntranceOffset(p, k))
            else r == Err(TruncatedRead)
    decreases n
  {
    if n > 0 && p + 24 <= |data| {
      EntranceRecordsAt(data, env, p + 24, n - 1);
      assert EntranceOffset(p + 24, n - 1) == EntranceOffset(p, n);
      if EntranceOffset(p, n) <= |data| {
        var r := EntranceRecords(data, env, p, n);
        var rest := EntranceRecords(data, env, p + 24, n - 1);
        forall k | 0 <= k < n
          ensures r.value[k] == EntranceAt(data, env, EntranceOffset(p, k))
        {
          if k > 0 {
            assert r.value[k] == rest.value[k - 1];
            assert EntranceOffset(p + 24, k - 1) == EntranceOffset(p, k);
          }
        }
      }
    }
  }

  /** A byte in the 12 skipped bytes at the end of some entrance record. */
  predicate InEntranceTail(offset: nat, q: nat)
  {
    offset <= q && (q - offset) % 24 >= 12
  }

  /** An entrance depends only on the first 12 bytes of its record. */
  lemma EntranceAtFrame(data: seq<bv8>, other: seq<bv8>, env: Transforms, p: nat)
    requires p + 12 <= |data| && p + 12 <= |other|
    requires forall q :: p <= q < p + 12 ==> data[q] == other[q]
    ensures EntranceAt(data, env, p) == EntranceAt(other, env, p)
  {
    assert U16(data, p) == U16(other, p);
    assert U16(data, p + 2) == U16(other, p + 2);
    assert U16(data, p + 4) == U16(other, p + 4);
    assert U16(data, p + 6) == U16(other, p + 6);
  }

  lemma StrideRemainder(k: nat, j: nat)
    requires j < 24
    ensures (24 * k + j) % 24 == j
  {
  }

  /** The skipped 12 bytes of each entrance record never affect the decoded entrances. */
  lemma EntranceTailIgnored(data: seq<bv8>, other: seq<bv8>, env: Transforms, offset: nat, size: nat)
    requires |data| == |other|
    requires forall q :: 0 <= q < |data| && !InEntranceTail(offset, q) ==> data[q] == other[q]
    ensures EntranceBlock(data, env, offset, size) == EntranceBlock(other, env, offset, size)
  {
    var n := size / 24;
    if offset <= |data| {
      EntranceRecordsAt(data, env, offset, n);
      EntranceRecordsAt(other, env, offset, n);
    }
    if offset <= |data| && EntranceOffset(offset, n) <= |data| {
      var a := EntranceRecords(data, env, offset, n).value;
      var b := EntranceRecords(other, env, offset, n).value;
      forall k | 0 <= k < n
        ensures a[k] == b[k]
      {
        var p := EntranceOffset(offset, k);
        forall q | p <= q < p + 12
          ensures data[q] == other[q]
        {
          StrideRemainder(k, q - p);
          assert q - offset == 24 * k + (q - p);
          assert !InEntranceTail(offset, q);
        }
        EntranceAtFrame(data, other, env, p);
      }
      assert a == b;
    }
  }

  // ---------------------------------------------------------------------------------------
  // Block 7: sprites, a stream of 24-byte records ending at the id 0xFFFF

  function SpriteOffset(offset: nat, k: nat): nat { offset + 24 * k }

  function SpriteAt(data: seq<bv8>, env: Transforms, p: nat): Sprite
    requires p + 14 <= |data|
  {
    var id := U16(data, p);
    var x := env.to20(U16(data, p + 2));
    var y := env.to20(U16(data, p + 4));
    var bytes := seq<nat>(8, i requires 0 <= i < 8 => U8(data, p + 6 + i));
    Sprite(id, x, y, bytes, env.spriteRect(id, x, y, bytes))
  }

  /** The sprites from position `p` to the first sentinel id; the block's size is not used. */
  function SpriteStream(data: seq<bv8>, env: Transforms, p: nat): Result<seq<Sprite>>
    decreases |data| - p
  {
    if p + 2 > |data| then Err(TruncatedRead)
    else if U16(data, p) == Sentinel then Ok([])
    else if p + 24 > |data| then Err(TruncatedRead)
    else PrependOk([SpriteAt(data, env, p)], SpriteStream(data, env, p + 24))
  }

  function SpriteBlock(data: seq<bv8>, env: Transforms, offset: nat): Result<seq<Sprite>>
  {
    if offset > |data| then Err(TruncatedRead) else SpriteStream(data, env, offset)
  }

  /** N sprite records followed by the sentinel decode to exactly those N sprites, in order. */
  lemma {:induction false} SpriteStreamOfRecords(data: seq<bv8>, env: Transforms, p: nat, n: nat)
    requires SpriteOffset(p, n) + 2 <= |data|
    requires forall k :: 0 <= k < n ==> U16(data, SpriteOffset(p, k)) != Sentinel
    requires U16(data, SpriteOffset(p, n)) == Sentinel
    ensures var r := SpriteStream(data, env, p);
            r.Ok? && |r.value| == n &&
            forall k :: 0 <= k < n ==> r.value[k] == SpriteAt(data, env, SpriteOffset(p, k))
    decreases n
  {
    if n > 0 {
      assert U16(data, SpriteOffset(p, 0)) != Sentinel;
      var next := p + 24;
      forall k | 0 <= k < n - 1
        ensures U16(data, SpriteOffset(next, k)) != Sentinel
      {
        assert SpriteOffset(next, k) == SpriteOffset(p, k + 1);
      }
      assert SpriteOffset(p + 24, n - 1) == SpriteOffset(p, n);
      SpriteStreamOfRecords(data, env, p + 24, n - 1);
      var r := SpriteStream(data, env, p);
      var rest := SpriteStream(data, env, p + 24);
      forall k | 0 <= k < n
        ensures r.value[k] == SpriteAt(data, env, SpriteOffset(p, k))
      {
        if k > 0 {
          assert r.value[k] == rest.value[k - 1];
          assert SpriteOffset(p + 24, k - 1) == SpriteOffset(p, k);
        }
      }
    } else {
      assert SpriteOffset(p, 0) == p;
    }
  }

  /** Conversely, a decoded stream of N sprites ended at the first sentinel, N records on. */
  lemma {:induction false} SpriteStreamShape(data: seq<bv8>, env: Transforms, p: nat)
    requires SpriteStream(data, env, p).Ok?
    ensures var s := SpriteStream(data, env, p).value;
            SpriteOffset(p, |s|) + 2 <= |data| && U16(data, SpriteOffset(p, |s|)) == Sentinel &&
            forall k :: 0 <= k < |s| ==>
              U16(data, SpriteOffset(p, k)) != Sentinel && s[k] == SpriteAt(data, env, SpriteOffset(p, k))
    decreases |data| - p
  {
    if U16(data, p) != Sentinel {
      SpriteStreamShape(data, env, p + 24);
      var s := SpriteStream(data, env, p).value;
      var rest := SpriteStream(data, env, p + 24).value;
      assert SpriteOffset(p + 24, |rest|) == SpriteOffset(p, |s|);
      forall k | 0 <= k < |s|
        ensures U16(data, SpriteOffset(p, k)) != Sentinel && s[k] == SpriteAt(data, env, SpriteOffset(p, k))
      {
        if k > 0 {
          assert s[k] == rest[k - 1];
          assert SpriteOffset(p + 24, k - 1) == SpriteOffset(p, k);
        }
      }
    } else {
      assert SpriteOffset(p, 0) == p;
    }
  }

  // ---------------------------------------------------------------------------------------
  // Block 9: zones, counted in 24-byte units but read 28 bytes apart

  function ZoneOffset(offset: nat, k: nat): nat { offset + 28 * k }

  function ZoneAt(data: seq<bv8>, env: Transforms, p: nat, id: nat): Zone
    requires p + 8 <= |data|
  {
    Zone(env.to20(U16(data, p)), env.to20(U16(data, p + 2)), env.to20(U16(data, p + 4)),
         env.to20(U16(data, p + 6)), id)
  }

  /** `n` zones from position `p` on, numbered from `id`; each is 8 bytes read and 20 skipped. */
  function ZoneRecords(data: seq<bv8>, env: Transforms, p: nat, id: nat, n: nat): Result<seq<Zone>>
    decreases n
  {
    if n == 0 then Ok([])
    else if p + 28 > |data| then Err(TruncatedRead)
    else PrependOk([ZoneAt(data, env, p, id)], ZoneRecords(data, env, p + 28, id + 1, n - 1))
  }

  function ZoneBlock(data: seq<bv8>, env: Transforms, offset: nat, size: nat): Result<seq<Zone>>
  {
    if offset > |data| then Err(TruncatedRead) else ZoneRecords(data, env, offset, 0, size / 24)
  }

  /** Zone k is read at offset + 28k and gets the id k (counted from `id`). */
  lemma {:induction false} ZoneRecordsAt(data: seq<bv8>, env: Transforms, p: nat, id: nat, n: nat)
    requires p <= |data|
    ensures var r := ZoneRecords(data, env, p, id, n);
            if ZoneOffset(p, n) <= |data| then
              r.Ok? && |r.value| == n &&
              forall k :: 0 <= k < n ==> r.value[k] == ZoneAt(data, env, ZoneOffset(p, k), id + k)
            else r == Err(TruncatedRead)
    decreases n
  {
    if n > 0 && p + 28 <= |data| {
      ZoneRecordsAt(data, env, p + 28, id + 1, n - 1);
      assert ZoneOffset(p + 28, n - 1) == ZoneOffset(p, n);
      if ZoneOffset(p, n) <= |data| {
        var r := ZoneRecords(data, env, p, id, n);
        var rest := ZoneRecords(data, env, p + 28, id + 1, n - 1);
        forall k | 0 <= k < n
          ensures r.value[k] == ZoneAt(data, env, ZoneOffset(p, k), id + k)
        {
          if k > 0 {
            assert r.value[k] == rest.value[k - 1];
            assert ZoneOffset(p + 28, k - 1) == ZoneOffset(p, k);
          }
        }
      }
    }
  }

  /** The zone count assumes 24-byte records but each zone consumes 28: a zone block of 48
      bytes at the very end of the stream fails on its second zone, where an entrance block of
      the same size and place decodes. */
  lemma ZoneStrideOverrun(data: seq<bv8>, env: Transforms, offset: nat)
    requires offset + 48 == |data|
    ensures ZoneBlock(data, env, offset, 48) == Err(TruncatedRead)
    ensures EntranceBlock(data, env, offset, 48).Ok? && |EntranceBlock(data, env, offset, 48).value| == 2
  {
    ZoneRecordsAt(data, env, offset, 0, 2);
    EntranceRecordsAt(data, env, offset, 2);
  }

  // ---------------------------------------------------------------------------------------
  // Block 10: locations, 12-byte records read back to back

  function LocationOffset(offset: nat, k: nat): nat { offset + 12 * k }

  /** Position and size, then the id in the record's ninth byte. */
  function LocationAt(data: seq<bv8>, env: Transforms, p: nat): Location
    requires p + 9 <= |data|
  {
    Location(env.to20(U16(data, p)), env.to20(U16(data, p + 2)), env.to20(U16(data, p + 4)),
             env.to20(U16(data, p + 6)), U8(data, p + 8))
  }

  function LocationRecords(data: seq<bv8>, env: Transforms, p: nat, n: nat): Result<seq<Location>>
    decreases n
  {
    if n == 0 then Ok([])
    else if p + 12 > |data| then Err(TruncatedRead)
    else PrependOk([LocationAt(data, env, p)], LocationRecords(data, env, p + 12, n - 1))
  }

  function LocationBlock(data: seq<bv8>, env: Transforms, offset: nat, size: nat): Result<seq<Location>>
  {
    if offset > |data| then Err(TruncatedRead) else LocationRecords(data, env, offset, size / 12)
  }

  lemma {:induction false} LocationRecordsAt(data: seq<bv8>, env: Transforms, p: nat, n: nat)
    requires p <= |data|
    ensures var r := LocationRecords(data, env, p, n);
            if LocationOffset(p, n) <= |data| then
              r.Ok? && |r.value| == n &&
              forall k :: 0 <= k < n ==>
                r.value[k] == LocationAt(data, env, LocationOffset(p, k)) &&
                r.value[k].id == U8(data, LocationOffset(p, k) + 8)
            else r == Err(TruncatedRead)
    decreases n
  {
    if n > 0 && p + 12 <= |data| {
      LocationRecordsAt(data, env, p + 12, n - 1);
      assert LocationOffset(p + 12, n - 1) == LocationOffset(p, n);
      if LocationOffset(p, n) <= |data| {
        var r := LocationRecords(data, env, p, n);
        var rest := LocationRecords(data, env, p + 12, n - 1);
        forall k | 0 <= k < n
          ensures r.value[k] == LocationAt(data, env, LocationOffset(p, k))
        {
          if k > 0 {
            assert r.value[k] == rest.value[k - 1];
            assert LocationOffset(p + 12, k - 1) == LocationOffset(p, k);
          }
        }
      }
    }
  }

  // ---------------------------------------------------------------------------------------
  // Blocks 13/14 and 15/16: paths and progress paths, each record and node re-seeked

  /** Record p of a path table, in unsigned 32-bit arithmetic. */
  function PathRecordOffset(offset: nat, p: nat): nat
  {
    Wrap32(offset + 12 * p)
  }

  /** Node i of a path whose nodes start at slot `nodesOffset` of a node table. */
  function PathNodeOffset(nodeTable: nat, nodesOffset: nat, i: nat): nat
  {
    Wrap32(nodeTable + 20 * i + 20 * nodesOffset)
  }

  function PathNodeAt(data: seq<bv8>, env: Transforms, q: nat): PathNode
    requires q + 12 <= |data|
  {
    PathNode(env.to20(U16(data, q)), env.to20(U16(data, q + 2)), U32(data, q + 4), U32(data, q + 8))
  }

  /** Nodes 0..count-1 of `width` bytes each, starting at slot `nodesOffset`, are in the stream. */
  predicate NodesFit(data: seq<bv8>, nodeTable: nat, nodesOffset: nat, count: nat, width: nat)
  {
    forall i :: 0 <= i < count ==> PathNodeOffset(nodeTable, nodesOffset, i) + width <= |data|
  }

  /** Path p's record (id, a skipped byte, node count, node offset) and all its nodes are in the stream. */
  predicate PathFits(data: seq<bv8>, table: nat, nodeTable: nat, p: nat)
  {
    var rec := PathRecordOffset(table, p);
    rec + 6 <= |data| && NodesFit(data, nodeTable, U16(data, rec + 4), U16(data, rec + 2), 12)
  }

  function PathAt(data: seq<bv8>, env: Transforms, table: nat, nodeTable: nat, p: nat): Path
    requires PathFits(data, table, nodeTable, p)
  {
    var rec := PathRecordOffset(table, p);
    var count := U16(data, rec + 2);
    var nodesOffset := U16(data, rec + 4);
    Path(U8(data, rec), count, nodesOffset,
         seq(count, i requires 0 <= i < count => PathNodeAt(data, env, PathNodeOffset(nodeTable, nodesOffset, i))))
  }

  function PathBlock(data: seq<bv8>, env: Transforms, table: nat, size: nat, nodeTable: nat): Result<seq<Path>>
  {
    var n := size / 12;
    if forall p :: 0 <= p < n ==> PathFits(data, table, nodeTable, p) then
      Ok(seq(n, p requires 0 <= p < n => PathAt(data, env, table, nodeTable, p)))
    else Err(TruncatedRead)
  }

  /** The two streams hold the same bytes from lo (inclusive) to hi (exclusive). */
  ghost predicate Agree(data: seq<bv8>, other: seq<bv8>, lo: nat, hi: nat)
  {
    forall q :: lo <= q < hi && q < |data| && q < |other| ==> data[q] == other[q]
  }

  /** The node slots 0..count-1 hold the same bytes in both streams. */
  ghost predicate NodesAgree(data: seq<bv8>, other: seq<bv8>, nodeTable: nat, nodesOffset: nat, count: nat, width: nat)
  {
    forall i :: 0 <= i < count ==>
      Agree(data, other, PathNodeOffset(nodeTable, nodesOffset, i), PathNodeOffset(nodeTable, nodesOffset, i) + width)
  }

  /** A path depends only on the bytes of its own record and of its own node slots: whatever
      other blocks hold, and whatever came before it, it decodes the same. */
  lemma PathFrame(data: seq<bv8>, other: seq<bv8>, env: Transforms, table: nat, nodeTable: nat, p: nat)
    requires |data| == |other|
    requires Agree(data, other, PathRecordOffset(table, p), PathRecordOffset(table, p) + 6)
    requires PathFits(data, table, nodeTable, p)
    requires var rec := PathRecordOffset(table, p);
             NodesAgree(data, other, nodeTable, U16(data, rec + 4), U16(data, rec + 2), 12)
    ensures PathFits(other, table, nodeTable, p)
    ensures PathAt(data, env, table, nodeTable, p) == PathAt(other, env, table, nodeTable, p)
  {
    var rec := PathRecordOffset(table, p);
    assert U16(data, rec + 2) == U16(other, rec + 2);
    assert U16(data, rec + 4) == U16(other, rec + 4);
    assert U8(data, rec) == U8(other, rec);
    var count := U16(data, rec + 2);
    var nodesOffset := U16(data, rec + 4);
    forall i | 0 <= i < count
      ensures PathNodeAt(data, env, PathNodeOffset(nodeTable, nodesOffset, i)) ==
              PathNodeAt(other, env, PathNodeOffset(nodeTable, nodesOffset, i))
    {
      var q := PathNodeOffset(nodeTable, nodesOffset, i);
      assert Agree(data, other, q, q + 12);
      assert U16(data, q) == U16(other, q);
      assert U16(data, q + 2) == U16(other, q + 2);
      assert U32(data, q + 4) == U32(other, q + 4);
      assert U32(data, q + 8) == U32(other, q + 8);
    }
  }

  /** A progress path likewise depends only on its own record and its own 4-byte node slots. */
  lemma ProgressPathFrame(data: seq<bv8>, other: seq<bv8>, env: Transforms, table: nat, nodeTable: nat, p: nat)
    requires |data| == |other|
    requires Agree(data, other, PathRecordOffset(table, p), PathRecordOffset(table, p) + 6)
    requires ProgressPathFits(data, table, nodeTable, p)
    requires var rec := PathRecordOffset(table, p);
             NodesAgree(data, other, nodeTable, U16(data, rec + 4), U16(data, rec + 2), 4)
    ensures ProgressPathFits(other, table, nodeTable, p)
    ensures ProgressPathAt(data, env, table, nodeTable, p) == ProgressPathAt(other, env, table, nodeTable, p)
  {
    var rec := PathRecordOffset(table, p);
    assert U16(data, rec) == U16(other, rec);
    assert U16(data, rec + 2) == U16(other, rec + 2);
    assert U16(data, rec + 4) == U16(other, rec + 4);
    var count := U16(data, rec + 2);
    var nodesOffset := U16(data, rec + 4);
    forall i | 0 <= i < count
      ensures ProgressNodeAt(data, env, PathNodeOffset(nodeTable, nodesOffset, i)) ==
              ProgressNodeAt(other, env, PathNodeOffset(nodeTable, nodesOffset, i))
    {
      var q := PathNodeOffset(nodeTable, nodesOffset, i);
      assert Agree(data, other, q, q + 4);
      assert U16(data, q) == U16(other, q);
      assert U16(data, q + 2) == U16(other, q + 2);
    }
  }

  function ProgressNodeAt(data: seq<bv8>, env: Transforms, q: nat): ProgressPathNode
    requires q + 4 <= |data|
  {
    ProgressPathNode(env.to20(U16(data, q)), env.to20(U16(data, q + 2)))
  }

  /** Progress path p's record (id, node count, node offset) and all its nodes are in the stream. */
  predicate ProgressPathFits(data: seq<bv8>, table: nat, nodeTable: nat, p: nat)
  {
    var rec := PathRecordOffset(table, p);
    rec + 6 <= |data| && NodesFit(data, nodeTable, U16(data, rec + 4), U16(data, rec + 2), 4)
  }

  function ProgressPathAt(data: seq<bv8>, env: Transforms, table: nat, nodeTable: nat, p: nat): ProgressPath
    requires ProgressPathFits(data, table, nodeTable, p)
  {
    var rec := PathRecordOffset(table, p);
    var count := U16(data, rec + 2);
    var nodesOffset := U16(data, rec + 4);
    ProgressPath(U16(data, rec), count, nodesOffset,
                 seq(count, i requires 0 <= i < count => ProgressNodeAt(data, env, PathNodeOffset(nodeTable, nodesOffset, i))))
  }

  function ProgressPathBlock(data: seq<bv8>, env: Transforms, table: nat, size: nat, nodeTable: nat): Result<seq<ProgressPath>>
  {
    var n := size / 12;
    if forall p :: 0 <= p < n ==> ProgressPathFits(data, table, nodeTable, p) then
      Ok(seq(n, p requires 0 <= p < n => ProgressPathAt(data, env, table, nodeTable, p)))
    else Err(TruncatedRead)
  }

  /** A block whose directory size is 0 decodes to no records, without error, wherever it points
      inside the stream. */
  lemma EmptyBlocks(data: seq<bv8>, env: Transforms, offset: nat, nodeTable: nat)
    requires offset <= |data|
    ensures EntranceBlock(data, env, offset, 0) == Ok([])
    ensures ZoneBlock(data, env, offset, 0) == Ok([])
    ensures LocationBlock(data, env, offset, 0) == Ok([])
    ensures PathBlock(data, env, offset, 0, nodeTable) == Ok([])
    ensures ProgressPathBlock(data, env, offset, 0, nodeTable) == Ok([])
  {
    assert |PathBlock(data, env, offset, 0, nodeTable).value| == 0;
    assert |ProgressPathBlock(data, env, offset, 0, nodeTable).value| == 0;
  }

  // ---------------------------------------------------------------------------------------
  // Background-object layers: 16-byte records up to the sentinel or the end of the stream

  function BgdatOffset(k: nat): nat { 16 * k }

  /** Id, then x, y, width and height, each raw value times 20. */
  function BgdatAt(data: seq<bv8>, p: nat): BgdatObject
    requires p + 10 <= |data|
  {
    BgdatObject(U16(data, p + 2) * 20, U16(data, p + 4) * 20, U16(data, p + 6) * 20, U16(data, p + 8) * 20,
                U16(data, p))
  }

  function BgdatStream(data: seq<bv8>, p: nat): Result<seq<BgdatObject>>
    decreases |data| - p
  {
    if p >= |data| then Ok([])
    else if p + 2 > |data| then Err(TruncatedRead)
    else if U16(data, p) == Sentinel then Ok([])
    else if p + 16 > |data| then Err(TruncatedRead)
    else PrependOk([BgdatAt(data, p)], BgdatStream(data, p + 16))
  }

  /** Layer `layer` (1 or 2) of an area; a missing layer file is an empty layer. */
  function BgdatLayer(archive: map<string, seq<bv8>>, area: nat, layer: nat): Result<seq<BgdatObject>>
  {
    var path := BgdatPath(area, layer);
    if path !in archive then Ok([]) else BgdatStream(archive[path], 0)
  }

  /** Layers 1 and 2 of an area; a broken layer file ends the decode. */
  function BgdatLayers(archive: map<string, seq<bv8>>, area: nat): (r: Result<seq<seq<BgdatObject>>>)
    ensures r.Ok? ==> |r.value| == 2
  {
    var layer1 :- BgdatLayer(archive, area, 1);
    var layer2 :- BgdatLayer(archive, area, 2);
    Ok([layer1, layer2])
  }

  /** N records followed by the sentinel, or by the end of the stream, decode to exactly those
      N objects, 16 bytes apart. */
  lemma {:induction false} BgdatStreamOfRecords(data: seq<bv8>, n: nat)
    requires BgdatOffset(n) <= |data|
    requires forall k :: 0 <= k < n ==> U16(data, BgdatOffset(k)) != Sentinel
    requires BgdatOffset(n) == |data| || (BgdatOffset(n) + 2 <= |data| && U16(data, BgdatOffset(n)) == Sentinel)
    ensures var r := BgdatStream(data, 0);
            r.Ok? && |r.value| == n && forall k :: 0 <= k < n ==> r.value[k] == BgdatAt(data, BgdatOffset(k))
  {
    BgdatRun(data, 0, n);
  }

  lemma {:induction false} BgdatRun(data: seq<bv8>, start: nat, n: nat)
    requires BgdatOffset(start + n) <= |data|
    requires forall k :: start <= k < start + n ==> U16(data, BgdatOffset(k)) != Sentinel
    requires BgdatOffset(start + n) == |data| ||
             (BgdatOffset(start + n) + 2 <= |data| && U16(data, BgdatOffset(start + n)) == Sentinel)
    ensures var r := BgdatStream(data, BgdatOffset(start));
            r.Ok? && |r.value| == n &&
            forall k :: 0 <= k < n ==> r.value[k] == BgdatAt(data, BgdatOffset(start + k))
    decreases n
  {
    if n > 0 {
      BgdatRun(data, start + 1, n - 1);
      var r := BgdatStream(data, BgdatOffset(start));
      var rest := BgdatStream(data, BgdatOffset(start + 1));
      assert BgdatOffset(start) + 16 == BgdatOffset(start + 1);
      forall k | 0 <= k < n
        ensures r.value[k] == BgdatAt(data, BgdatOffset(start + k))
      {
        if k > 0 {
          assert r.value[k] == rest.value[k - 1];
          assert start + 1 + (k - 1) == start + k;
        }
      }
    }
  }

  /** The start of record `k` counted from record `start`. */
  function BgdatFrom(start: nat, k: nat): nat { BgdatOffset(start + k) }

  /** The objects `s` were read from consecutive 16-byte records starting at record `start`, none
      with the sentinel id, and the stream ends right after them at the sentinel or at its end. */
  ghost predicate BgdatShape(data: seq<bv8>, start: nat, s: seq<BgdatObject>)
  {
    BgdatFrom(start, |s|) <= |data| &&
    (BgdatFrom(start, |s|) == |data| ||
     (BgdatFrom(start, |s|) + 2 <= |data| && U16(data, BgdatFrom(start, |s|)) == Sentinel)) &&
    forall k :: 0 <= k < |s| ==>
      BgdatFrom(start, k) + 16 <= |data| && U16(data, BgdatFrom(start, k)) != Sentinel &&
      s[k] == BgdatAt(data, BgdatFrom(start, k))
  }

  /** Conversely, a decoded stream of N objects ran over N records 16 bytes apart, none with the
      sentinel id, and ended at the end of the stream or at the sentinel just after them. */
  lemma BgdatStreamShape(data: seq<bv8>)
    requires BgdatStream(data, 0).Ok?
    ensures BgdatShape(data, 0, BgdatStream(data, 0).value)
  {
    BgdatShapeFrom(data, 0);
  }

  lemma {:induction false} BgdatShapeFrom(data: seq<bv8>, start: nat)
    requires BgdatOffset(start) <= |data|
    requires BgdatStream(data, BgdatOffset(start)).Ok?
    ensures BgdatShape(data, start, BgdatStream(data, BgdatOffset(start)).value)
    decreases |data| - BgdatOffset(start)
  {
    var p := BgdatOffset(start);
    var s := BgdatStream(data, p).value;
    if p < |data| && U16(data, p) != Sentinel {
      assert p + 16 == BgdatOffset(start + 1);
      BgdatShapeFrom(data, start + 1);
      var rest := BgdatStream(data, p + 16).value;
      assert s == [BgdatAt(data, p)] + rest;
      assert BgdatFrom(start + 1, |rest|) == BgdatFrom(start, |s|);
      assert BgdatFrom(start, 0) == p;
      forall k | 0 <= k < |s|
        ensures BgdatFrom(start, k) + 16 <= |data| && U16(data, BgdatFrom(start, k)) != Sentinel &&
                s[k] == BgdatAt(data, BgdatFrom(start, k))
      {
        if k > 0 {
          assert s[k] == rest[k - 1];
          assert BgdatFrom(start + 1, k - 1) == BgdatFrom(start, k);
        }
      }
    } else {
      assert s == [];
      assert BgdatFrom(start, |s|) == p;
    }
  }

  // ---------------------------------------------------------------------------------------
  // The whole course area

  /** Everything the header stream yields, block by block. */
  datatype Header = Header(
    tilesets: seq<Option<Tileset>>,
    timeLimit: nat,
    bounds: ZoneBounds,
    background: Background,
    entrances: seq<Entrance>,
    sprites: seq<Sprite>,
    zones: seq<Zone>,
    locations: seq<Location>,
    paths: seq<Path>,
    progressPaths: seq<ProgressPath>)

  /** The header's blocks in the order `Level::Level` reads them; the first failed read ends the decode. */
  function HeaderSpec(data: seq<bv8>, env: Transforms, tilesetExists: string -> bool): Result<Header>
  {
    var dir :- DirectoryBlock(data);
    var tilesets :- TilesetBlock(data, dir.offsets[0], tilesetExists);
    var timeLimit :- AreaBlock(data, dir.offsets[1]);
    var bounds :- BoundsBlock(data, dir.offsets[2]);
    var background :- BackgroundBlock(data, dir.offsets[4]);
    var entrances :- EntranceBlock(data, env, dir.offsets[6], dir.sizes[6]);
    var sprites :- SpriteBlock(data, env, dir.offsets[7]);
    var zones :- ZoneBlock(data, env, dir.offsets[9], dir.sizes[9]);
    var locations :- LocationBlock(data, env, dir.offsets[10], dir.sizes[10]);
    var paths :- PathBlock(data, env, dir.offsets[13], dir.sizes[13], dir.offsets[14]);
    var progressPaths :- ProgressPathBlock(data, env, dir.offsets[15], dir.sizes[15], dir.offsets[16]);
    Ok(Header(tilesets, timeLimit, bounds, background, entrances, sprites, zones, locations, paths, progressPaths))
  }

  /** The level members filled from a decoded header and the two background-object layers.
      Block 4's value at +0x18 replaces block 2's value at +0x12 in `unk1`, as in the source. */
  function Assemble(world: int, level: int, area: nat, h: Header, layers: seq<seq<BgdatObject>>): Level
    requires |layers| == 2
  {
    Level(world, level, area, h.tilesets, h.timeLimit,
          h.bounds.upper, h.bounds.lower, h.bounds.unkUpper, h.bounds.unkLower, h.bounds.boundingId,
          h.background.unk18,
          h.background.blockId, h.background.xScrollRate, h.background.yScrollRate, h.background.xPos, h.background.yPos,
          h.entrances, h.sprites, h.zones, h.locations, h.paths, h.progressPaths,
          layers + [[]])
  }

  /** `Level::Level` for one area: the header, then background layers 1 and 2 into the first
      two of three layer lists. */
  function LevelSpec(archive: map<string, seq<bv8>>, world: int, level: int, area: nat,
                     env: Transforms, tilesetExists: string -> bool): Result<Level>
  {
    var headerPath := HeaderPath(area);
    if headerPath !in archive then Err(MissingHeader)
    else
      var h :- HeaderSpec(archive[headerPath], env, tilesetExists);
      var layers :- BgdatLayers(archive, area);
      Ok(Assemble(world, level, area, h, layers))
  }

  /** A tileset the game cannot find never makes the header fail, and changes nothing but
      the tileset slots. */
  lemma HeaderTilesetsNonFatal(data: seq<bv8>, env: Transforms, exists1: string -> bool, exists2: string -> bool)
    ensures HeaderSpec(data, env, exists1).Ok? <==> HeaderSpec(data, env, exists2).Ok?
    ensures HeaderSpec(data, env, exists1).Ok? ==>
            HeaderSpec(data, env, exists1).value.(tilesets := []) == HeaderSpec(data, env, exists2).value.(tilesets := [])
  {
    if DirectoryBlock(data).Ok? {
      var dir := DirectoryBlock(data).value;
      assert TilesetBlock(data, dir.offsets[0], exists1).Ok? <==> TilesetBlock(data, dir.offsets[0], exists2).Ok?;
    }
  }

  /** The same for the whole level. */
  lemma LevelTilesetsNonFatal(archive: map<string, seq<bv8>>, world: int, level: int, area: nat,
                              env: Transforms, exists1: string -> bool, exists2: string -> bool)
    ensures LevelSpec(archive, world, level, area, env, exists1).Ok? <==>
            LevelSpec(archive, world, level, area, env, exists2).Ok?
    ensures LevelSpec(archive, world, level, area, env, exists1).Ok? ==>
            LevelSpec(archive, world, level, area, env, exists1).value.(tilesets := []) ==
            LevelSpec(archive, world, level, area, env, exists2).value.(tilesets := [])
  {
    var headerPath := HeaderPath(area);
    if headerPath in archive {
      HeaderTilesetsNonFatal(archive[headerPath], env, exists1, exists2);
    }
  }
}
